/** The operator console of `main`: a menu loop that reads a choice, asks for a value
    until it is in range, and has `setFPGARegister` write it.  Standard input is a
    finite sequence of characters; the `setFPGARegister(offset, value)` calls the loop
    makes are also returned as `RegisterWrite`s, in order. */
module Console {
  import opened Input
  import opened Registers
  import opened Os
  import Driver

  /** The frequency and direction register offsets of the peripheral's address map. */
  datatype Offsets = Offsets(frequency: int, direction: int)

  /** Both registers lie inside the mapped window and do not overlap. */
  predicate ValidOffsets(o: Offsets)
  {
    InWindow(o.frequency, Driver.MAP_LEN) && InWindow(o.direction, Driver.MAP_LEN) &&
    (o.frequency + 4 <= o.direction || o.direction + 4 <= o.frequency)
  }

  const MAX_FREQUENCY: int := 15
  const MAX_DIRECTION: int := 1

  /** One `setFPGARegister(offset, value)` call. */
  datatype RegisterWrite = RegisterWrite(offset: int, value: int)

  /** What a run of the console does with its input: the register writes in order, and
      whether it exits (reads choice 0).  A run that does not exit is one whose input
      ends first: from then on every `getInput` returns -1 and the loop never ends. */
  datatype Session = Session(writes: seq<RegisterWrite>, exited: bool)

  /** The result of a value prompt: the first value read that is in range and the
      characters consumed up to it, or `Starved` when the input ends first. */
  datatype Prompted = Accepted(value: int, used: nat) | Starved

  function Shift(p: Prompted, k: nat): Prompted
  {
    match p
    case Accepted(v, u) => Accepted(v, u + k)
    case Starved => Starved
  }

  /** `do { value = getInput(); } while (value < 0 || value > hi);` on the input `s`. */
  function Prompt(s: seq<char>, hi: int): (p: Prompted)
    ensures p.Accepted? ==> 0 <= p.value <= hi && 1 <= p.used <= |s|
    decreases |s|
  {
    if |s| == 0 then Starved
    else
      var r := Parse(s);
      if 0 <= r.value <= hi then Accepted(r.value, r.used)
      else Shift(Prompt(s[r.used..], hi), r.used)
  }

  /** The register a menu choice of 1 or 2 writes. */
  function Target(o: Offsets, choice: int): int
  {
    if choice == 1 then o.frequency else o.direction
  }

  /** The largest value accepted for a menu choice of 1 or 2. */
  function Limit(choice: int): int
  {
    if choice == 1 then MAX_FREQUENCY else MAX_DIRECTION
  }

  function Prepend(w: RegisterWrite, r: Session): Session
  {
    Session([w] + r.writes, r.exited)
  }

  /** The session `r` with the writes `ws` issued before it. */
  function Extend(ws: seq<RegisterWrite>, r: Session): Session
  {
    Session(ws + r.writes, r.exited)
  }

  /** The menu loop of `main` on the input `s`, round by round.  Each write consumes at
      least two characters (a choice and a value), so the writes are at most half as
      many as the input characters. */
  function Menu(s: seq<char>, o: Offsets): (r: Session)
    ensures 2 * |r.writes| <= |s|
    decreases |s|
  {
    if |s| == 0 then Session([], false)
    else
      var c := Parse(s);
      var t := s[c.used..];
      if c.value == 0 then Session([], true)
      else if c.value == 1 || c.value == 2 then
        match Prompt(t, Limit(c.value))
        case Starved => Session([], false)
        case Accepted(v, u) => Prepend(RegisterWrite(Target(o, c.value), v), Menu(t[u..], o))
      else Menu(t, o)
  }

  /** A write the console may issue: a frequency index in [0, 15] to the frequency
      register or a direction in {0, 1} to the direction register. */
  predicate Allowed(o: Offsets, w: RegisterWrite)
  {
    (w.offset == o.frequency && 0 <= w.value <= MAX_FREQUENCY) ||
    (w.offset == o.direction && 0 <= w.value <= MAX_DIRECTION)
  }

  /** The inner do-while of a menu choice: read values until one lies in [0, hi]. */
  method PromptValue(input: seq<char>, pos: nat, hi: int) returns (value: int, next: nat, ok: bool)
    requires pos <= |input|
    ensures pos <= next <= |input|
    ensures ok ==> Prompt(input[pos..], hi) == Accepted(value, next - pos)
    ensures !ok ==> Prompt(input[pos..], hi) == Starved && next == |input|
  {
    value, next, ok := -1, pos, false;
    while !ok && next < |input|
      invariant pos <= next <= |input|
      invariant !ok ==> Prompt(input[pos..], hi) == Shift(Prompt(input[next..], hi), next - pos)
      invariant ok ==> Prompt(input[pos..], hi) == Accepted(value, next - pos)
      decreases |input| - next, !ok
    {
      var n;
      value, n := GetInput(input, next);
      assert input[next..][n - next..] == input[n..];
      ShiftShift(Prompt(input[n..], hi), n - next, next - pos);
      next := n;
      ok := !(value < 0 || value > hi);
    }
  }

  lemma ShiftShift(p: Prompted, a: nat, b: nat)
    ensures Shift(Shift(p, a), b) == Shift(p, a + b)
  {
  }

  /** One round of the menu on the remaining input `s`, whose choice line is consumed
      in `used` characters and leaves `t`. */
  lemma MenuRound(s: seq<char>, t: seq<char>, o: Offsets)
    requires |s| > 0 && t == s[Parse(s).used..]
    ensures var c := Parse(s).value;
      (c == 0 ==> Menu(s, o) == Session([], true)) &&
      (c !in {0, 1, 2} ==> Menu(s, o) == Menu(t, o)) &&
      (c in {1, 2} && Prompt(t, Limit(c)).Starved? ==> Menu(s, o) == Session([], false)) &&
      (c in {1, 2} && Prompt(t, Limit(c)).Accepted? ==>
        var p := Prompt(t, Limit(c));
        Menu(s, o) == Prepend(RegisterWrite(Target(o, c), p.value), Menu(t[p.used..], o)))
  {
  }

  /** A round with choice 1 or 2 whose prompt accepts `v` after `u` characters. */
  lemma MenuRoundWrites(s: seq<char>, t: seq<char>, rest: seq<char>, o: Offsets, v: int, u: nat)
    requires |s| > 0 && t == s[Parse(s).used..]
    requires Parse(s).value == 1 || Parse(s).value == 2
    requires Prompt(t, Limit(Parse(s).value)) == Accepted(v, u)
    requires u <= |t| && rest == t[u..]
    ensures Menu(s, o) == Prepend(RegisterWrite(Target(o, Parse(s).value), v), Menu(rest, o))
  {
  }

  /** The OS events of the `setFPGARegister` calls for the writes `ws`, in order, on
      `os` from the moment `n` is its next free descriptor: each call opens the then
      next free one. */
  function SessionTrace(os: System, n: nat, ws: seq<RegisterWrite>): seq<Event>
  {
    if ws == [] then []
    else
      var init, w := ws[..|ws| - 1], ws[|ws| - 1];
      var fd := os.Opened(os.OpenedAfter(n, |init|));
      SessionTrace(os, n, init) + Driver.CallTrace(fd, os.MapResult(fd), w.offset, w.value)
  }

  /** The writes are all in the window and all C `int`s. */
  predicate Storable(ws: seq<RegisterWrite>, len: int)
  {
    forall i :: 0 <= i < |ws| ==> InWindow(ws[i].offset, len) && IsInt32(ws[i].value)
  }

  /** The window after the writes `ws`, in order (a write outside the window, which the
      console never issues, is left out). */
  function StoreAll(mem: seq<byte>, ws: seq<RegisterWrite>): (m: seq<byte>)
    ensures |m| == |mem|
  {
    if ws == [] then mem
    else
      var m := StoreAll(mem, ws[..|ws| - 1]);
      var w := ws[|ws| - 1];
      if InWindow(w.offset, |m|) && IsInt32(w.value) then Store32(m, w.offset, w.value) else m
  }

  /** A round at position `pos` of `input` whose choice line ends at `n` and whose
      prompt accepts `v` at `next`. */
  lemma MenuRoundWritesAt(input: seq<char>, pos: nat, n: nat, next: nat, o: Offsets, v: int)
    requires pos < n <= next <= |input|
    requires Parse(input[pos..]).used == n - pos
    requires Parse(input[pos..]).value == 1 || Parse(input[pos..]).value == 2
    requires Prompt(input[n..], Limit(Parse(input[pos..]).value)) == Accepted(v, next - n)
    ensures Menu(input[pos..], o) ==
      Prepend(RegisterWrite(Target(o, Parse(input[pos..]).value), v), Menu(input[next..], o))
  {
    SuffixOfSuffix(input, pos, n);
    MenuRoundWrites(input[pos..], input[n..], input[next..], o, v, next - n);
    SuffixOfSuffix(input, n, next);
  }

  lemma SuffixOfSuffix(s: seq<char>, i: nat, j: nat)
    requires i <= j <= |s|
    ensures s[i..][j - i..] == s[j..]
  {
  }

  /** The body of `case 1` and `case 2`: prompt until the value is in range, then
      `setFPGARegister` the chosen register.  When the input ends first nothing is
      written (`ok` is false). */
  method ChangeSetting(os: System, input: seq<char>, pos: nat, choice: int, o: Offsets)
    returns (w: RegisterWrite, next: nat, ok: bool)
    requires pos <= |input| && (choice == 1 || choice == 2)
    requires ValidOffsets(o) && os.device.Length == Driver.MAP_LEN
    modifies os`trace, os`nextFd, os.device
    ensures pos <= next <= |input|
    ensures ok ==> Prompt(input[pos..], Limit(choice)) == Accepted(w.value, next - pos)
    ensures ok ==> w.offset == Target(o, choice) && Allowed(o, w)
    ensures !ok ==> Prompt(input[pos..], Limit(choice)) == Starved
    ensures var fd := os.Opened(old(os.nextFd));
      os.trace == old(os.trace) +
        if ok then Driver.CallTrace(fd, os.MapResult(fd), w.offset, w.value) else []
    ensures os.nextFd == os.OpenedAfter(old(os.nextFd), if ok then 1 else 0)
    ensures ok && os.Maps() ==> os.device[..] == Store32(old(os.device[..]), w.offset, w.value)
    ensures !ok || !os.Maps() ==> os.device[..] == old(os.device[..])
  {
    var value;
    value, next, ok := PromptValue(input, pos, Limit(choice));
    w := RegisterWrite(Target(o, choice), value);
    if ok {
      Driver.SetFPGARegister(os, w.offset, w.value);
    } else {
      assert old(os.trace) + [] == os.trace;
    }
  }

  /** What is left of the run after a pass that read `choice` and stopped at `pos`:
      nothing after choice 0, a run that never exits when the input ended inside a
      value prompt (`done`), and otherwise the menu on the remaining input. */
  function Remaining(input: seq<char>, pos: nat, choice: int, done: bool, o: Offsets): Session
    requires pos <= |input|
  {
    if done then Session([], false)
    else if choice == 0 then Session([], true)
    else Menu(input[pos..], o)
  }

  /** One pass of the body of `main`'s do-while: read a choice and act on it.  `done`
      is set when the input ended inside a value prompt, where the source would prompt
      forever. */
  method MenuPass(os: System, input: seq<char>, pos: nat, o: Offsets)
    returns (choice: int, next: nat, ws: seq<RegisterWrite>, done: bool)
    requires pos < |input|
    requires ValidOffsets(o) && os.device.Length == Driver.MAP_LEN
    modifies os`trace, os`nextFd, os.device
    ensures pos < next <= |input|
    ensures Menu(input[pos..], o) == Extend(ws, Remaining(input, next, choice, done, o))
    ensures done ==> choice != 0
    ensures |ws| <= 1
    ensures os.trace == old(os.trace) + SessionTrace(os, old(os.nextFd), ws)
    ensures os.nextFd == os.OpenedAfter(old(os.nextFd), |ws|)
    ensures os.device[..] == if os.Maps() then StoreAll(old(os.device[..]), ws) else old(os.device[..])
  {
    ghost var s := input[pos..];
    ghost var initial := os.device[..];
    ghost var n := os.nextFd;
    choice, next := GetInput(input, pos);
    ws, done := [], false;
    assert os.trace + [] == os.trace;
    assert Parse(s).value == choice && s[Parse(s).used..] == input[next..] by {
      assert s[next - pos..] == input[next..];
    }
    if choice == 0 {
      // "BYE BYE": the do-while condition ends the loop
      MenuRound(s, input[next..], o);
      assert Extend([], Session([], true)) == Session([], true);
    } else if choice == 1 || choice == 2 {
      var w, after, ok := ChangeSetting(os, input, next, choice, o);
      if !ok {
        MenuRound(s, input[next..], o);
        done := true;
        next := |input|;
        assert Extend([], Session([], false)) == Session([], false);
      } else {
        MenuRoundWritesAt(input, pos, next, after, o, w.value);
        SingleWrite(os, n, initial, w);
        ws := [w];
        assert [w] + Menu(input[after..], o).writes == ws + Menu(input[after..], o).writes;
        next := after;
      }
    } else {
      // "Invalid input, Please try Again"
      MenuRound(s, input[next..], o);
      assert [] + Menu(input[next..], o).writes == Menu(input[next..], o).writes;
    }
  }

  /** `main`: the menu loop, which ends exactly when the choice read is 0.  Each accepted
      value goes to `setFPGARegister` on `os` at once; `writes` lists those calls. */
  method RunConsole(os: System, input: seq<char>, o: Offsets) returns (writes: seq<RegisterWrite>, exited: bool)
    requires ValidOffsets(o) && os.device.Length == Driver.MAP_LEN
    modifies os`trace, os`nextFd, os.device
    ensures Session(writes, exited) == Menu(input, o)
    ensures forall i :: 0 <= i < |writes| ==> Allowed(o, writes[i])
    ensures os.trace == old(os.trace) + SessionTrace(os, old(os.nextFd), writes)
    ensures os.nextFd == os.OpenedAfter(old(os.nextFd), |writes|)
    ensures os.device[..] == if os.Maps() then StoreAll(old(os.device[..]), writes) else old(os.device[..])
  {
    ghost var initial := os.device[..];
    ghost var n := os.nextFd;
    writes := [];
    var pos := 0;
    var choice := -1;
    var done := false;
    assert writes + Menu(input[pos..], o).writes == Menu(input[pos..], o).writes;
    while choice != 0 && !done && pos < |input|
      invariant pos <= |input| && (done ==> choice != 0)
      invariant Menu(input, o) == Extend(writes, Remaining(input, pos, choice, done, o))
      invariant os.trace == old(os.trace) + SessionTrace(os, n, writes)
      invariant os.nextFd == os.OpenedAfter(n, |writes|)
      invariant os.device[..] == if os.Maps() then StoreAll(initial, writes) else initial
      decreases |input| - pos
    {
      var ws;
      choice, pos, ws, done := MenuPass(os, input, pos, o);
      ExtendConcat(writes, ws, Remaining(input, pos, choice, done, o));
      SessionTraceConcat(os, n, writes, ws);
      AppendAssoc(old(os.trace), SessionTrace(os, n, writes), SessionTrace(os, os.OpenedAfter(n, |writes|), ws));
      StoreAllConcat(initial, writes, ws);
      writes := writes + ws;
    }
    assert writes + [] == writes;
    if done {
      assert Remaining(input, pos, choice, done, o) == Session([], false);
    } else if choice == 0 {
      assert Remaining(input, pos, choice, done, o) == Session([], true);
    } else {
      assert input[pos..] == [];
      assert Remaining(input, pos, choice, done, o) == Session([], false);
    }
    exited := choice == 0;
    MenuWritesStorable(input, o);
  }

  lemma SingleWrite(os: System, n: nat, mem: seq<byte>, w: RegisterWrite)
    ensures SessionTrace(os, n, [w]) == Driver.CallTrace(os.Opened(n), os.MapResult(os.Opened(n)), w.offset, w.value)
    ensures InWindow(w.offset, |mem|) && IsInt32(w.value) ==> StoreAll(mem, [w]) == Store32(mem, w.offset, w.value)
  {
    assert [w][..0] == [];
  }

  lemma AppendAssoc<T>(a: seq<T>, b: seq<T>, c: seq<T>)
    ensures a + (b + c) == (a + b) + c
  {
  }

  lemma ExtendConcat(a: seq<RegisterWrite>, b: seq<RegisterWrite>, r: Session)
    ensures Extend(a, Extend(b, r)) == Extend(a + b, r)
  {
    assert a + (b + r.writes) == (a + b) + r.writes;
  }

  lemma SessionTraceConcat(os: System, n: nat, a: seq<RegisterWrite>, b: seq<RegisterWrite>)
    requires |b| <= 1
    ensures SessionTrace(os, n, a + b) == SessionTrace(os, n, a) + SessionTrace(os, os.OpenedAfter(n, |a|), b)
  {
    if b == [] {
      assert a + b == a;
    } else {
      assert (a + b)[..|a|] == a;
      assert b[..0] == [];
    }
  }

  lemma StoreAllConcat(mem: seq<byte>, a: seq<RegisterWrite>, b: seq<RegisterWrite>)
    requires |b| <= 1
    ensures StoreAll(mem, a + b) == StoreAll(StoreAll(mem, a), b)
  {
    if b == [] {
      assert a + b == a;
    } else {
      assert (a + b)[..|a|] == a;
      assert b[..0] == [];
    }
  }

  // ----- The console's effects on the system -----

  /** The console's trace holds one store per write when the mapping succeeds, and no
      store at all when it fails. */
  lemma {:induction false} SessionStores(os: System, n: nat, ws: seq<RegisterWrite>)
    ensures Stores(SessionTrace(os, n, ws)) == if os.Maps() then |ws| else 0
    decreases |ws|
  {
    if ws != [] {
      var init, w := ws[..|ws| - 1], ws[|ws| - 1];
      var fd := os.Opened(os.OpenedAfter(n, |init|));
      SessionStores(os, n, init);
      StoresConcat(SessionTrace(os, n, init), Driver.CallTrace(fd, os.MapResult(fd), w.offset, w.value));
      if os.Maps() {
        Driver.MappedCallWritesOnce(fd, os.MapResult(fd), w.offset, w.value);
      } else {
        Driver.FailedCallWritesNothing(fd, w.offset, w.value);
      }
    }
  }

  /** When the mapping succeeds, a whole session leaves the process holding exactly what
      it held before: every call closes its descriptor and unmaps its window. */
  lemma {:induction false} SessionReleases(os: System, n: nat, h: Held, ws: seq<RegisterWrite>)
    requires os.Maps()
    requires forall f :: f in h.fds ==> f < n
    requires os.mapAddress !in h.mappings
    ensures After(h, SessionTrace(os, n, ws)) == h
    decreases |ws|
  {
    if ws != [] {
      var init, w := ws[..|ws| - 1], ws[|ws| - 1];
      var fd := os.Opened(os.OpenedAfter(n, |init|));
      SessionReleases(os, n, h, init);
      AfterConcat(h, SessionTrace(os, n, init), Driver.CallTrace(fd, os.MapResult(fd), w.offset, w.value));
      Driver.MappedCallReleases(h, fd, os.MapResult(fd), w.offset, w.value);
    }
  }

  /** The `k` descriptors from `n` on. */
  function FdRange(n: nat, k: nat): set<int>
  {
    if k == 0 then {} else FdRange(n, k - 1) + {n + k - 1}
  }

  lemma {:induction false} FdRangeMembers(n: nat, k: nat)
    ensures forall f :: f in FdRange(n, k) <==> n <= f < n + k
  {
    if k > 0 {
      FdRangeMembers(n, k - 1);
    }
  }

  /** Descriptors below `n` together with the `k` from `n` on: one more call adds the
      next one, which was not among them. */
  lemma FdRangeGrow(fds: set<int>, n: nat, k: nat)
    requires forall f :: f in fds ==> f < n
    ensures n + k !in fds + FdRange(n, k)
    ensures fds + FdRange(n, k) + {n + k} == fds + FdRange(n, k + 1)
  {
    FdRangeMembers(n, k);
  }

  lemma {:induction false} FdRangeSize(n: nat, k: nat)
    ensures |FdRange(n, k)| == k
  {
    if k > 0 {
      FdRangeSize(n, k - 1);
      FdRangeMembers(n, k - 1);
      AddNew(FdRange(n, k - 1), n + k - 1);
    }
  }

  lemma DisjointFds(fds: set<int>, n: nat, k: nat)
    requires forall f :: f in fds ==> f < n
    ensures |fds + FdRange(n, k)| == |fds| + k
  {
    FdRangeMembers(n, k);
    FdRangeSize(n, k);
    forall f | f in fds * FdRange(n, k)
      ensures false
    {
    }
    assert fds * FdRange(n, k) == {};
  }

  lemma AddNew(a: set<int>, x: int)
    requires x !in a
    ensures |a + {x}| == |a| + 1
  {
  }

  /** The last call of a session on a system where `open` succeeds but `mmap` fails. */
  lemma SessionTraceLast(os: System, n: nat, ws: seq<RegisterWrite>)
    requires !os.openFails && os.mmapFails && ws != []
    ensures var w := ws[|ws| - 1];
      SessionTrace(os, n, ws) ==
        SessionTrace(os, n, ws[..|ws| - 1]) + Driver.CallTrace(n + |ws| - 1, MAP_FAILED, w.offset, w.value)
  {
    var fd := os.Opened(os.OpenedAfter(n, |ws| - 1));
    assert fd == n + |ws| - 1 && os.MapResult(fd) == MAP_FAILED;
  }

  /** One more failing call after `k` of them leaves its descriptor, the next one,
      held as well. */
  lemma LeakOneMore(h: Held, n: nat, k: nat, w: RegisterWrite)
    requires forall f :: f in h.fds ==> f < n
    ensures After(Held(h.fds + FdRange(n, k), h.mappings), Driver.CallTrace(n + k, MAP_FAILED, w.offset, w.value))
      == Held(h.fds + FdRange(n, k + 1), h.mappings)
  {
    var mid := Held(h.fds + FdRange(n, k), h.mappings);
    Driver.FailedCallLeaksDescriptor(mid, n + k, w.offset, w.value);
    FdRangeGrow(h.fds, n, k);
  }

  /** When `open` succeeds but the mapping fails, every call leaves its own descriptor
      open: after `k` writes the process also holds the `k` descriptors it was given. */
  lemma {:induction false} SessionLeaks(os: System, n: nat, h: Held, ws: seq<RegisterWrite>)
    requires !os.openFails && os.mmapFails
    requires forall f :: f in h.fds ==> f < n
    ensures After(h, SessionTrace(os, n, ws)) == Held(h.fds + FdRange(n, |ws|), h.mappings)
    decreases |ws|
  {
    if ws == [] {
      assert h.fds + FdRange(n, 0) == h.fds;
    } else {
      var init, w := ws[..|ws| - 1], ws[|ws| - 1];
      var fd := n + |init|;
      var call := Driver.CallTrace(fd, MAP_FAILED, w.offset, w.value);
      var mid := Held(h.fds + FdRange(n, |init|), h.mappings);
      calc {
        After(h, SessionTrace(os, n, ws));
        { SessionTraceLast(os, n, ws); }
        After(h, SessionTrace(os, n, init) + call);
        { AfterConcat(h, SessionTrace(os, n, init), call); }
        After(After(h, SessionTrace(os, n, init)), call);
        { SessionLeaks(os, n, h, init); }
        After(mid, call);
        { LeakOneMore(h, n, |init|, w); }
        Held(h.fds + FdRange(n, |ws|), h.mappings);
      }
    }
  }

  /** The leak grows with every failing write: `k` of them leave `k` more descriptors
      held than before. */
  lemma SessionLeakCount(os: System, n: nat, h: Held, ws: seq<RegisterWrite>)
    requires !os.openFails && os.mmapFails
    requires forall f :: f in h.fds ==> f < n
    ensures |After(h, SessionTrace(os, n, ws)).fds| == |h.fds| + |ws|
  {
    SessionLeaks(os, n, h, ws);
    DisjointFds(h.fds, n, |ws|);
  }

  /** Under valid offsets, every call the console makes meets `setFPGARegister`'s
      precondition: the register lies in the mapped window and the value is an `int`. */
  lemma MenuWritesStorable(s: seq<char>, o: Offsets)
    requires ValidOffsets(o)
    ensures forall i :: 0 <= i < |Menu(s, o).writes| ==> Allowed(o, Menu(s, o).writes[i])
    ensures Storable(Menu(s, o).writes, Driver.MAP_LEN)
  {
    MenuWritesAllowed(s, o);
  }

  // ----- Properties of the menu loop -----

  /** Every write the console issues is a frequency in [0, 15] to the frequency
      register or a direction in {0, 1} to the direction register. */
  lemma {:induction false} MenuWritesAllowed(s: seq<char>, o: Offsets)
    ensures forall i :: 0 <= i < |Menu(s, o).writes| ==> Allowed(o, Menu(s, o).writes[i])
    decreases |s|
  {
    if |s| > 0 {
      var c := Parse(s);
      var t := s[c.used..];
      if c.value != 0 {
        if c.value == 1 || c.value == 2 {
          match Prompt(t, Limit(c.value))
          case Starved =>
          case Accepted(v, u) =>
            MenuWritesAllowed(t[u..], o);
        } else {
          MenuWritesAllowed(t, o);
        }
      }
    }
  }

  /** Choice 0 ends the loop at once, with no write, whatever input follows. */
  lemma ZeroChoiceExits(s: seq<char>, o: Offsets)
    requires |s| > 0 && Parse(s).value == 0
    ensures Menu(s, o) == Session([], true)
  {
  }

  /** A choice line that does not start with a digit reads as a negative number: the
      round writes nothing and the loop goes on with the next line. */
  lemma NonNumericChoiceWritesNothing(s: seq<char>, o: Offsets)
    requires |s| > 0 && !IsDigit(s[0])
    ensures Menu(s, o) == Menu(s[Parse(s).used..], o)
  {
    NonDigitFirstParsesNegative(s);
  }

  /** A choice other than 0, 1 or 2 writes nothing and the loop goes on. */
  lemma OtherChoiceWritesNothing(s: seq<char>, o: Offsets)
    requires |s| > 0 && Parse(s).value !in {0, 1, 2}
    ensures Menu(s, o) == Menu(s[Parse(s).used..], o)
  {
  }

  /** A prompt whose input holds no digit at all never accepts: every line it reads
      starts with a non-digit and so reads as a negative value. */
  lemma {:induction false} PromptWithoutDigitsStarves(s: seq<char>, hi: int)
    requires forall k :: 0 <= k < |s| ==> !IsDigit(s[k])
    ensures Prompt(s, hi) == Starved
    decreases |s|
  {
    if |s| > 0 {
      NonDigitFirstParsesNegative(s);
      var u := Parse(s).used;
      var t := s[u..];
      assert forall k :: 0 <= k < |t| ==> !IsDigit(t[k]) by {
        forall k | 0 <= k < |t| ensures !IsDigit(t[k]) { assert t[k] == s[u + k]; }
      }
      PromptWithoutDigitsStarves(t, hi);
    }
  }

  lemma NotInSuffix(s: seq<char>, k: nat, c: char)
    requires k <= |s| && c !in s
    ensures c !in s[k..]
  {
    forall j | 0 <= j < |s| - k
      ensures s[k..][j] != c
    {
      assert s[k..][j] == s[k + j];
    }
  }

  /** Only a choice line starting with '0' reads as 0, so on an input without a '0'
      the loop never exits: the run ends waiting for input that does not come. */
  lemma {:induction false} NoZeroNeverExits(s: seq<char>, o: Offsets)
    requires '0' !in s
    ensures !Menu(s, o).exited
    decreases |s|
  {
    if |s| > 0 {
      var c := Parse(s);
      var t := s[c.used..];
      ZeroNeedsLeadingZero(s);
      NotInSuffix(s, c.used, '0');
      if c.value == 1 || c.value == 2 {
        match Prompt(t, Limit(c.value))
        case Starved =>
        case Accepted(v, u) =>
          NotInSuffix(t, u, '0');
          NoZeroNeverExits(t[u..], o);
      } else {
        NoZeroNeverExits(t, o);
      }
    }
  }

  /** "1", "7", "0": the frequency register is set to 7 and the console exits. */
  lemma SetFrequencyThenExit(o: Offsets)
    ensures Menu(['1', '\n', '7', '\n', '0', '\n'], o) == Session([RegisterWrite(o.frequency, 7)], true)
  {
    var s := ['1', '\n', '7', '\n', '0', '\n'];
    OneDigitLine('1', s[2..]);
    assert s[2..] == ['7', '\n', '0', '\n'];
    OneDigitLine('7', s[4..]);
    assert s[4..] == ['0', '\n'];
    OneDigitLine('0', []);
    assert Prompt(s[2..], MAX_FREQUENCY) == Accepted(7, 2);
    assert s[2..][2..] == s[4..];
  }

  /** "2", "5", "1", "0": the direction 5 is rejected, 1 is written to the direction
      register, and the console exits. */
  lemma OutOfRangeDirectionReprompts(o: Offsets)
    ensures Menu(['2', '\n', '5', '\n', '1', '\n', '0', '\n'], o) == Session([RegisterWrite(o.direction, 1)], true)
  {
    var s := ['2', '\n', '5', '\n', '1', '\n', '0', '\n'];
    OneDigitLine('2', s[2..]);
    assert s[2..] == ['5', '\n', '1', '\n', '0', '\n'];
    OneDigitLine('5', s[4..]);
    assert s[4..] == ['1', '\n', '0', '\n'];
    OneDigitLine('1', s[6..]);
    assert s[6..] == ['0', '\n'];
    OneDigitLine('0', []);
    assert s[2..][2..] == s[4..];
    assert s[4..][2..] == s[6..];
    assert Prompt(s[4..], MAX_DIRECTION) == Accepted(1, 2);
    assert Prompt(s[2..], MAX_DIRECTION) == Accepted(1, 4);
    assert s[2..][4..] == s[6..];
  }

  /** A one-digit line reads as that digit's value. */
  lemma OneDigitLine(c: char, rest: seq<char>)
    requires IsDigit(c)
    ensures Parse([c, '\n'] + rest) == Scanned(DigitVal(c), 2)
  {
    assert [c, '\n'] + rest == [c] + ['\n'] + rest;
    DigitLine([c], rest);
    assert [c][..0] == [];
  }
}
