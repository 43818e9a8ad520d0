/** An abstract operating system for the driver: the calls it makes (open, mmap,
    munmap, close, perror) and the volatile store through the mapping each append an
    event to an effect trace.  Whether `open` and `mmap` succeed is fixed when the system
    is created, so a test can ask for either call to fail.  A successful `open` hands out
    a descriptor the process does not hold: the next one of a counter it advances.  The
    peripheral's registers are the bytes of `device`, the physical window a successful
    mapping exposes. */
module Os {
  import opened Registers

  const O_RDWR: int := 2
  const PROT_READ: int := 1
  const PROT_WRITE: int := 2
  const MAP_SHARED: int := 1
  /** `(void *) -1`, the value mmap returns when no mapping was made. */
  const MAP_FAILED: int := -1

  datatype Event =
    | Open(path: string, flags: int, fd: int)
    | Mmap(length: int, prot: int, flags: int, fd: int, offset: int, result: int)
    | Store(address: int, value: int)
    | Munmap(address: int, length: int)
    | Close(fd: int)
    | Perror(message: string)

  class System {
    /** Every call and store so far, oldest first. */
    var trace: seq<Event>
    /** The descriptor the next successful `open` returns; every descriptor handed out
        so far lies below it. */
    var nextFd: nat
    /** `open` fails (returns -1), say for want of privilege. */
    const openFails: bool
    /** `mmap` fails even on a good descriptor. */
    const mmapFails: bool
    /** The virtual address a successful `mmap` returns. */
    const mapAddress: nat
    /** The peripheral's register bytes, as a successful mapping exposes them. */
    const device: array<byte>

    constructor (openFails: bool, mmapFails: bool, firstFd: nat, mapAddress: nat, device: array<byte>)
      ensures this.openFails == openFails && this.mmapFails == mmapFails
      ensures nextFd == firstFd && this.mapAddress == mapAddress && this.device == device
      ensures trace == []
    {
      this.openFails := openFails;
      this.mmapFails := mmapFails;
      this.mapAddress := mapAddress;
      this.device := device;
      nextFd := firstFd;
      trace := [];
    }

    /** What `open` returns when `n` is the next free descriptor; the mapping of what it
        returns succeeds exactly when neither call is failed. */
    function Opened(n: nat): (fd: int)
      ensures fd == -1 || fd == n
      ensures fd == n <==> !openFails
      ensures MapResult(fd) != MAP_FAILED <==> Maps()
    {
      if openFails then -1 else n
    }

    /** The next free descriptor after `k` more calls of `open` from `n`: only a
        successful call uses one up. */
    function OpenedAfter(n: nat, k: nat): (m: nat)
      ensures n <= m <= n + k
      ensures m == n + k <==> !openFails || k == 0
      ensures openFails ==> m == n
    {
      if openFails then n else n + k
    }

    /** Both `open` and `mmap` succeed on this system. */
    predicate Maps() { !openFails && !mmapFails }

    /** What `mmap` returns on this system for descriptor `fd`: a file mapping of a bad
        descriptor fails as well. */
    function MapResult(fd: int): (address: int)
      ensures address == MAP_FAILED <==> mmapFails || fd < 0
    {
      if mmapFails || fd < 0 then MAP_FAILED else mapAddress
    }

    method OpenFile(path: string, flags: int) returns (fd: int)
      modifies this`trace, this`nextFd
      ensures fd == Opened(old(nextFd))
      ensures nextFd == OpenedAfter(old(nextFd), 1)
      ensures trace == old(trace) + [Open(path, flags, fd)]
    {
      fd := Opened(nextFd);
      if fd >= 0 {
        nextFd := nextFd + 1;
      }
      trace := trace + [Open(path, flags, fd)];
    }

    method MapMemory(length: int, prot: int, flags: int, fd: int, offset: int) returns (address: int)
      modifies this`trace
      ensures address == MapResult(fd)
      ensures trace == old(trace) + [Mmap(length, prot, flags, fd, offset, address)]
    {
      address := MapResult(fd);
      trace := trace + [Mmap(length, prot, flags, fd, offset, address)];
    }

    /** A volatile 32-bit store at `address + off`, where `address` is the start of the
        live mapping: REG_WRITE on the device's bytes. */
    method StoreWord(address: int, off: int, value: int)
      requires address == mapAddress
      requires InWindow(off, device.Length) && IsInt32(value)
      modifies this`trace, device
      ensures trace == old(trace) + [Store(address + off, value)]
      ensures device[..] == Store32(old(device[..]), off, value)
    {
      RegWrite(device, off, value);
      trace := trace + [Store(address + off, value)];
    }

    method UnmapMemory(address: int, length: int)
      modifies this`trace
      ensures trace == old(trace) + [Munmap(address, length)]
    {
      trace := trace + [Munmap(address, length)];
    }

    method CloseFile(fd: int)
      modifies this`trace
      ensures trace == old(trace) + [Close(fd)]
    {
      trace := trace + [Close(fd)];
    }

    method ReportError(message: string)
      modifies this`trace
      ensures trace == old(trace) + [Perror(message)]
    {
      trace := trace + [Perror(message)];
    }
  }

  /** What a process holds at some point: open descriptors and live mappings. */
  datatype Held = Held(fds: set<int>, mappings: set<int>)

  /** How one event changes what the process holds. */
  function Step(h: Held, e: Event): Held
  {
    match e
    case Open(_, _, fd) => if fd >= 0 then h.(fds := h.fds + {fd}) else h
    case Mmap(_, _, _, _, _, result) => if result != MAP_FAILED then h.(mappings := h.mappings + {result}) else h
    case Munmap(address, _) => h.(mappings := h.mappings - {address})
    case Close(fd) => h.(fds := h.fds - {fd})
    case _ => h
  }

  /** What the process holds after the events `es`, starting from `h`. */
  function After(h: Held, es: seq<Event>): Held
    decreases |es|
  {
    if es == [] then h else After(Step(h, es[0]), es[1..])
  }

  /** Events can be replayed in two parts. */
  lemma {:induction false} AfterConcat(h: Held, a: seq<Event>, b: seq<Event>)
    ensures After(h, a + b) == After(After(h, a), b)
    decreases |a|
  {
    if a != [] {
      assert (a + b)[0] == a[0];
      assert (a + b)[1..] == a[1..] + b;
      AfterConcat(Step(h, a[0]), a[1..], b);
    } else {
      assert a + b == b;
    }
  }

  /** The number of stores among the events. */
  function Stores(es: seq<Event>): nat
  {
    if es == [] then 0 else (if es[0].Store? then 1 else 0) + Stores(es[1..])
  }

  lemma {:induction false} StoresConcat(a: seq<Event>, b: seq<Event>)
    ensures Stores(a + b) == Stores(a) + Stores(b)
  {
    if a != [] {
      assert (a + b)[0] == a[0];
      assert (a + b)[1..] == a[1..] + b;
      StoresConcat(a[1..], b);
    } else {
      assert a + b == b;
    }
  }
}
