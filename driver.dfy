/** `setFPGARegister`: one register write as a linear sequence of OS calls: open
    /dev/mem, map the peripheral's window, store the value, unmap, close, with one early
    return when the mapping fails. */
module Driver {
  import opened Registers
  import opened Os

  /** `map_len`: the length of the window the driver maps. */
  const MAP_LEN: int := 0xFF
  const DEV_MEM: string := "/dev/mem"
  /** `PROT_READ | PROT_WRITE`: the two flags are distinct bits, so their sum. */
  const PROT_READ_WRITE: int := PROT_READ + PROT_WRITE
  const MAP_FAILURE_MESSAGE: string := "Mapping memory for absolute memory access failed -- Test Try\n"

  /** The events of one `setFPGARegister(addr, value)` call on a system whose `open`
      returns `fd` and whose `mmap` returns `base`. */
  function CallTrace(fd: int, base: int, addr: int, value: int): seq<Event>
  {
    [Open(DEV_MEM, O_RDWR, fd), Mmap(MAP_LEN, PROT_READ_WRITE, MAP_SHARED, fd, LED_BLINKING, base)]
    + if base == MAP_FAILED then [Perror(MAP_FAILURE_MESSAGE)]
      else [Store(base + addr, value), Munmap(base, MAP_LEN), Close(fd)]
  }

  /** `setFPGARegister(addr, value)`.  The result of `open` is not checked: a failed
      open reaches `mmap` with descriptor -1, which then fails.  On mapping failure the
      call reports and returns without closing the descriptor. */
  method SetFPGARegister(os: System, addr: int, value: int)
    requires InWindow(addr, MAP_LEN) && IsInt32(value)
    requires os.device.Length == MAP_LEN
    modifies os`trace, os`nextFd, os.device
    ensures var fd := os.Opened(old(os.nextFd));
      os.trace == old(os.trace) + CallTrace(fd, os.MapResult(fd), addr, value)
    ensures os.nextFd == os.OpenedAfter(old(os.nextFd), 1)
    ensures os.Maps() ==> os.device[..] == Store32(old(os.device[..]), addr, value)
    ensures !os.Maps() ==> os.device[..] == old(os.device[..])
  {
    var physicalAddress := LED_BLINKING;
    var mapLen := MAP_LEN;
    var fd := os.OpenFile(DEV_MEM, O_RDWR);

    var testBase := os.MapMemory(mapLen, PROT_READ_WRITE, MAP_SHARED, fd, physicalAddress);

    if testBase == MAP_FAILED {
      os.ReportError(MAP_FAILURE_MESSAGE);
      return;
    }

    os.StoreWord(testBase, addr, value);

    os.UnmapMemory(testBase, mapLen);
    os.CloseFile(fd);
  }

  // ----- Properties of one call -----

  /** A call whose mapping succeeds issues exactly one store, of `value` at the mapped
      base plus `addr`, and it comes after the mapping of LED_BLINKING and before the
      unmap and the close. */
  lemma MappedCallWritesOnce(fd: int, base: int, addr: int, value: int)
    requires base != MAP_FAILED
    ensures var t := CallTrace(fd, base, addr, value);
      Stores(t) == 1 &&
      |t| == 5 &&
      t[1].Mmap? && t[1].offset == LED_BLINKING && t[1].length == MAP_LEN &&
      t[2] == Store(base + addr, value) &&
      t[3] == Munmap(base, MAP_LEN) && t[4] == Close(fd)
  {
    var t := CallTrace(fd, base, addr, value);
    var t1 := t[1..]; var t2 := t1[1..]; var t3 := t2[1..]; var t4 := t3[1..];
    assert t4 == [Close(fd)] && t4[1..] == [];
    assert Stores(t4) == 0;
    assert Stores(t3) == 0;
    assert Stores(t2) == 1;
    assert Stores(t1) == 1;
  }

  /** A call whose mapping fails issues no store, no unmap and no close: it ends with the
      diagnostic. */
  lemma FailedCallWritesNothing(fd: int, addr: int, value: int)
    ensures var t := CallTrace(fd, MAP_FAILED, addr, value);
      Stores(t) == 0 && |t| == 3 && t[2] == Perror(MAP_FAILURE_MESSAGE) &&
      forall k :: 0 <= k < |t| ==> !t[k].Munmap? && !t[k].Close?
  {
    var t := CallTrace(fd, MAP_FAILED, addr, value);
    var t1 := t[1..]; var t2 := t1[1..];
    assert t2 == [Perror(MAP_FAILURE_MESSAGE)] && t2[1..] == [];
    assert Stores(t2) == 0;
    assert Stores(t1) == 0;
  }

  /** After a call whose mapping succeeds the process holds exactly what it held
      before: the descriptor is closed and the window unmapped. */
  lemma MappedCallReleases(h: Held, fd: int, base: int, addr: int, value: int)
    requires base != MAP_FAILED
    requires fd !in h.fds && base !in h.mappings
    ensures After(h, CallTrace(fd, base, addr, value)) == h
  {
    var t := CallTrace(fd, base, addr, value);
    var t1 := t[1..]; var t2 := t1[1..]; var t3 := t2[1..]; var t4 := t3[1..];
    assert t4 == [Close(fd)] && t4[1..] == [];
    var h1 := Step(h, t[0]);
    var h2 := Step(h1, t1[0]);
    assert h2.mappings == h.mappings + {base};
    var h3 := Step(h2, t2[0]);
    var h4 := Step(h3, t3[0]);
    assert h4.mappings == h.mappings;
    var h5 := Step(h4, t4[0]);
    assert h5 == h;
    assert After(h4, t4) == h5;
    assert After(h3, t3) == h5;
    assert After(h2, t2) == h5;
    assert After(h1, t1) == h5;
  }

  /** After a call whose mapping fails nothing is mapped, but a descriptor that `open`
      did return stays open: the early return skips `close`. */
  lemma FailedCallLeaksDescriptor(h: Held, fd: int, addr: int, value: int)
    requires fd >= 0
    ensures After(h, CallTrace(fd, MAP_FAILED, addr, value)) == Held(h.fds + {fd}, h.mappings)
  {
    var t := CallTrace(fd, MAP_FAILED, addr, value);
    var t1 := t[1..]; var t2 := t1[1..];
    assert t2 == [Perror(MAP_FAILURE_MESSAGE)] && t2[1..] == [];
    var h1 := Step(h, t[0]);
    assert h1 == Held(h.fds + {fd}, h.mappings);
    assert After(h1, t2) == h1;
    assert After(h1, t1) == h1;
  }

  /** When `open` fails its -1 is passed to `mmap` all the same; the mapping then fails,
      nothing is written, and the process holds what it held before. */
  lemma FailedOpenWritesNothing(os: System, n: nat, h: Held, addr: int, value: int)
    requires os.openFails
    ensures os.MapResult(os.Opened(n)) == MAP_FAILED
    ensures var t := CallTrace(os.Opened(n), os.MapResult(os.Opened(n)), addr, value);
      t[1].Mmap? && t[1].fd == -1 && Stores(t) == 0 && After(h, t) == h
  {
    var t := CallTrace(-1, MAP_FAILED, addr, value);
    var t1 := t[1..]; var t2 := t1[1..];
    assert t2 == [Perror(MAP_FAILURE_MESSAGE)] && t2[1..] == [];
    assert Stores(t2) == 0 && After(h, t2) == h;
    assert Stores(t1) == 0 && After(h, t1) == h;
  }

  /** Two successful calls in a row leave the process holding what it held before:
      each is its own acquire, write, release cycle, and the trace holds two stores.  The
      second call may get the first one's descriptor back or another free one. */
  lemma RepeatedCallsIndependent(h: Held, fd1: int, fd2: int, base: int, addr: int, value: int)
    requires base != MAP_FAILED
    requires fd1 !in h.fds && fd2 !in h.fds && base !in h.mappings
    ensures var t1, t2 := CallTrace(fd1, base, addr, value), CallTrace(fd2, base, addr, value);
      After(h, t1 + t2) == h && Stores(t1 + t2) == 2
  {
    var t1, t2 := CallTrace(fd1, base, addr, value), CallTrace(fd2, base, addr, value);
    AfterConcat(h, t1, t2);
    MappedCallReleases(h, fd1, base, addr, value);
    MappedCallReleases(h, fd2, base, addr, value);
    StoresConcat(t1, t2);
    MappedCallWritesOnce(fd1, base, addr, value);
    MappedCallWritesOnce(fd2, base, addr, value);
  }
}
