/** The console's line reader `getInput`: it reads characters from standard input and
    folds the decimal digits it meets into an `int`, up to and including the next newline.
    Standard input is modelled as a finite sequence of characters and a read position;
    end of input is the end of the sequence. */
module Input {

  predicate IsDigit(c: char) { '0' <= c <= '9' }

  /** `ch - '0'` in the source: the numeric value of a digit character. */
  function DigitVal(c: char): int { c as int - '0' as int }

  function Pow10(n: nat): (p: nat)
    ensures p >= 1
  {
    if n == 0 then 1 else 10 * Pow10(n - 1)
  }

  /** The digit characters of `s`, in order; everything else dropped. */
  function Digits(s: seq<char>): (ds: seq<char>)
    ensures |ds| <= |s|
  {
    if s == [] then [] else (if IsDigit(s[0]) then [s[0]] else []) + Digits(s[1..])
  }

  /** The ordinary positional value of a string of decimal digits. */
  function DecimalValue(ds: seq<char>): int
  {
    if ds == [] then 0 else 10 * DecimalValue(ds[..|ds| - 1]) + DigitVal(ds[|ds| - 1])
  }

  /** What one call of `getInput` returns and how many characters it consumes. */
  datatype Scanned = Scanned(value: int, used: nat)

  /** The value `ret` starts from once the first character has been read:
      that digit's value, or -1 when it is not a digit. */
  function Start(c: char): int { if IsDigit(c) then DigitVal(c) else -1 }

  /** One turn of the loop: `ret = ret*10 + ch - '0'` for a digit, nothing otherwise. */
  function Absorb(r: int, c: char): int { if IsDigit(c) then r * 10 + DigitVal(c) else r }

  /** The loop of `getInput` on the characters `t` after the first one, from `ret == r`:
      it stops after consuming a newline, or at end of input. */
  function ScanLine(r: int, t: seq<char>): (p: Scanned)
    ensures p.used <= |t|
    decreases |t|
  {
    if t == [] then Scanned(r, 0)
    else if t[0] == '\n' then Scanned(r, 1)
    else
      var q := ScanLine(Absorb(r, t[0]), t[1..]);
      Scanned(q.value, q.used + 1)
  }

  /** `getInput` on the remaining input `s`: the first character is consumed whatever
      it is (a newline included), then the loop runs. */
  function Parse(s: seq<char>): (r: Scanned)
    ensures r.used <= |s|
    ensures |s| > 0 ==> r.used >= 1
    ensures s == [] ==> r == Scanned(-1, 0)
  {
    if s == [] then Scanned(-1, 0)
    else
      var q := ScanLine(Start(s[0]), s[1..]);
      Scanned(q.value, q.used + 1)
  }

  /** `getInput`, step by step: one unconditional `getchar`, then a loop of `getchar`
      calls that stops at a newline or at end of input. */
  method GetInput(input: seq<char>, pos: nat) returns (ret: int, next: nat)
    requires pos <= |input|
    ensures pos <= next <= |input|
    ensures Scanned(ret, next - pos) == Parse(input[pos..])
  {
    ret := -1;
    var i := pos;
    if i < |input| {
      var ch := input[i];
      i := i + 1;
      if IsDigit(ch) {
        ret := DigitVal(ch);
      }
      assert input[pos..][1..] == input[i..];
    }
    while i < |input| && input[i] != '\n'
      invariant pos <= i <= |input|
      invariant pos == |input| ==> i == pos && ret == -1
      invariant pos < |input| ==> pos < i
      invariant pos < |input| ==>
        Parse(input[pos..]) == Scanned(ScanLine(ret, input[i..]).value, ScanLine(ret, input[i..]).used + (i - pos))
      decreases |input| - i
    {
      assert input[i..][1..] == input[i + 1..];
      if IsDigit(input[i]) {
        ret := ret * 10 + DigitVal(input[i]);
      }
      i := i + 1;
    }
    if i < |input| {
      i := i + 1;  // the newline that ended the loop was consumed by its getchar
    }
    next := i;
  }

  // ----- The closed form of getInput -----

  /** The value of `ret` after the characters of `line` have been scanned from `r`:
      each digit shifts it one decimal place, other characters leave it. */
  function Accumulated(r: int, line: seq<char>): int
  {
    r * Pow10(|Digits(line)|) + DecimalValue(Digits(line))
  }

  lemma {:induction false} DigitsAreDigits(s: seq<char>)
    ensures forall k :: 0 <= k < |Digits(s)| ==> IsDigit(Digits(s)[k])
  {
    if s != [] {
      DigitsAreDigits(s[1..]);
    }
  }

  lemma {:induction false} DigitsOfDigits(ds: seq<char>)
    requires forall k :: 0 <= k < |ds| ==> IsDigit(ds[k])
    ensures Digits(ds) == ds
  {
    if ds != [] {
      DigitsOfDigits(ds[1..]);
      assert [ds[0]] + ds[1..] == ds;
    }
  }

  lemma {:induction false} DecimalValueBounds(ds: seq<char>)
    requires forall k :: 0 <= k < |ds| ==> IsDigit(ds[k])
    ensures 0 <= DecimalValue(ds) < Pow10(|ds|)
  {
    if ds != [] {
      DecimalValueBounds(ds[..|ds| - 1]);
    }
  }

  /** Prepending a digit to a digit string adds its value at the top decimal place. */
  lemma {:induction false} DecimalValuePrepend(c: char, ds: seq<char>)
    ensures DecimalValue([c] + ds) == DigitVal(c) * Pow10(|ds|) + DecimalValue(ds)
  {
    if ds != [] {
      var init, last := ds[..|ds| - 1], DigitVal(ds[|ds| - 1]);
      var whole := [c] + ds;
      assert whole[..|whole| - 1] == [c] + init && whole[|whole| - 1] == ds[|ds| - 1];
      assert DecimalValue(whole) == 10 * DecimalValue([c] + init) + last;
      DecimalValuePrepend(c, init);
      assert Pow10(|ds|) == 10 * Pow10(|init|);
      assert DecimalValue(ds) == 10 * DecimalValue(init) + last;
      ShiftPlace(DigitVal(c), Pow10(|init|), DecimalValue(init), last);
    }
  }

  lemma ShiftPlace(d: int, p: int, v: int, last: int)
    ensures 10 * (d * p + v) + last == d * (10 * p) + (10 * v + last)
  {
  }

  /** Scanning `c` and then `rest` from `r` is scanning `rest` from `Absorb(r, c)`. */
  lemma AccumulatedCons(r: int, c: char, rest: seq<char>)
    ensures Accumulated(r, [c] + rest) == Accumulated(Absorb(r, c), rest)
  {
    var s := [c] + rest;
    assert s[1..] == rest;
    var d := Digits(rest);
    if IsDigit(c) {
      assert Digits(s) == [c] + d;
      DecimalValuePrepend(c, d);
      assert Pow10(|d| + 1) == 10 * Pow10(|d|);
      assert r * (10 * Pow10(|d|)) + (DigitVal(c) * Pow10(|d|) + DecimalValue(d))
          == (r * 10 + DigitVal(c)) * Pow10(|d|) + DecimalValue(d);
    } else {
      assert Digits(s) == d;
    }
  }

  /** The loop on a line free of newlines that is ended by one: the value accumulated
      over the whole line, and the line and its newline consumed. */
  lemma {:induction false} ScanLineToNewline(r: int, line: seq<char>, rest: seq<char>)
    requires '\n' !in line
    ensures ScanLine(r, line + ['\n'] + rest) == Scanned(Accumulated(r, line), |line| + 1)
    decreases |line|
  {
    var t := line + ['\n'] + rest;
    if line == [] {
      assert t[0] == '\n';
    } else {
      assert t[0] == line[0] && t[1..] == line[1..] + ['\n'] + rest;
      ScanLineToNewline(Absorb(r, line[0]), line[1..], rest);
      AccumulatedCons(r, line[0], line[1..]);
      assert [line[0]] + line[1..] == line;
    }
  }

  /** The loop on a last line that has no newline: it runs to end of input. */
  lemma {:induction false} ScanLineToEnd(r: int, line: seq<char>)
    requires '\n' !in line
    ensures ScanLine(r, line) == Scanned(Accumulated(r, line), |line|)
    decreases |line|
  {
    if line != [] {
      ScanLineToEnd(Absorb(r, line[0]), line[1..]);
      AccumulatedCons(r, line[0], line[1..]);
      assert [line[0]] + line[1..] == line;
    }
  }

  /** `getInput` in closed form, for input whose first line (after the first
      character `c`) is `line`, ended by a newline.  The value is -1 or `c`'s digit
      value, shifted one decimal place per digit of `line` with that digit added;
      non-digits are skipped. */
  lemma ParseLine(c: char, line: seq<char>, rest: seq<char>)
    requires '\n' !in line
    ensures Parse([c] + line + ['\n'] + rest) == Scanned(Accumulated(Start(c), line), |line| + 2)
  {
    var s := [c] + line + ['\n'] + rest;
    assert s[1..] == line + ['\n'] + rest;
    ScanLineToNewline(Start(c), line, rest);
  }

  /** `getInput` in closed form when the input ends before any newline. */
  lemma ParseLast(c: char, line: seq<char>)
    requires '\n' !in line
    ensures Parse([c] + line) == Scanned(Accumulated(Start(c), line), |line| + 1)
  {
    assert ([c] + line)[1..] == line;
    ScanLineToEnd(Start(c), line);
  }

  // ----- What getInput returns -----

  /** A digit string holds no newline. */
  lemma DigitsHaveNoNewline(ds: seq<char>)
    requires forall k :: 0 <= k < |ds| ==> IsDigit(ds[k])
    ensures '\n' !in ds
  {
    assert forall k :: 0 <= k < |ds| ==> ds[k] != '\n' by {
      forall k | 0 <= k < |ds| ensures ds[k] != '\n' { assert IsDigit(ds[k]); }
    }
  }

  /** Scanning the digits that follow a first digit gives the decimal value of all. */
  lemma ScanDigits(ds: seq<char>)
    requires |ds| >= 1
    requires forall k :: 0 <= k < |ds| ==> IsDigit(ds[k])
    ensures '\n' !in ds[1..]
    ensures Accumulated(Start(ds[0]), ds[1..]) == DecimalValue(ds)
  {
    var c, tail := ds[0], ds[1..];
    assert forall k :: 0 <= k < |tail| ==> IsDigit(tail[k]) by {
      forall k | 0 <= k < |tail| ensures IsDigit(tail[k]) { assert tail[k] == ds[k + 1]; }
    }
    DigitsHaveNoNewline(tail);
    DigitsOfDigits(tail);
    assert Accumulated(Start(c), tail) == DigitVal(c) * Pow10(|tail|) + DecimalValue(tail);
    DecimalValuePrepend(c, tail);
    assert [c] + tail == ds;
  }

  /** A line of digits ended by a newline reads as its ordinary decimal value and
      consumes the newline as well. */
  lemma DigitLine(ds: seq<char>, rest: seq<char>)
    requires |ds| >= 1
    requires forall k :: 0 <= k < |ds| ==> IsDigit(ds[k])
    ensures Parse(ds + ['\n'] + rest) == Scanned(DecimalValue(ds), |ds| + 1)
  {
    ScanDigits(ds);
    ParseLine(ds[0], ds[1..], rest);
    assert [ds[0]] + ds[1..] == ds;
  }

  /** A line of digits that runs to end of input reads as its decimal value. */
  lemma DigitsToEnd(ds: seq<char>)
    requires |ds| >= 1
    requires forall k :: 0 <= k < |ds| ==> IsDigit(ds[k])
    ensures Parse(ds) == Scanned(DecimalValue(ds), |ds|)
  {
    ScanDigits(ds);
    ParseLast(ds[0], ds[1..]);
    assert [ds[0]] + ds[1..] == ds;
  }

  /** When the first character is a digit the result is the decimal value of all the
      digits of the line, so it is never negative. */
  lemma DigitFirstIsDecimal(c: char, line: seq<char>)
    requires IsDigit(c)
    ensures Accumulated(Start(c), line) == DecimalValue([c] + Digits(line))
    ensures Accumulated(Start(c), line) >= 0
  {
    var ds := Digits(line);
    DigitsAreDigits(line);
    DecimalValuePrepend(c, ds);
    DecimalValueBounds([c] + ds);
  }

  /** When the first character is not a digit, `ret` keeps its initial -1 and the later
      digits accumulate onto it: the result is the value of the k digits minus 10^k,
      which is always negative, and -1 for a line with no digits at all. */
  lemma NonDigitFirstIsNegative(c: char, line: seq<char>)
    requires !IsDigit(c)
    ensures Accumulated(Start(c), line) == DecimalValue(Digits(line)) - Pow10(|Digits(line)|)
    ensures Accumulated(Start(c), line) < 0
    ensures Digits(line) == [] ==> Accumulated(Start(c), line) == -1
  {
    DigitsAreDigits(line);
    DecimalValueBounds(Digits(line));
  }

  /** Scanning from a negative `ret` keeps it negative. */
  lemma {:induction false} ScanFromNegative(r: int, t: seq<char>)
    requires r < 0
    ensures ScanLine(r, t).value < 0
    decreases |t|
  {
    if t != [] && t[0] != '\n' {
      ScanFromNegative(Absorb(r, t[0]), t[1..]);
    }
  }

  /** Whatever follows, a first character that is not a digit makes `getInput` negative. */
  lemma NonDigitFirstParsesNegative(s: seq<char>)
    requires |s| > 0 && !IsDigit(s[0])
    ensures Parse(s).value < 0
  {
    ScanFromNegative(-1, s[1..]);
  }

  /** Scanning from a positive `ret` keeps it positive. */
  lemma {:induction false} ScanFromPositive(r: int, t: seq<char>)
    requires r >= 1
    ensures ScanLine(r, t).value >= 1
    decreases |t|
  {
    if t != [] && t[0] != '\n' {
      ScanFromPositive(Absorb(r, t[0]), t[1..]);
    }
  }

  /** `getInput` returns 0 only when the first character it reads is '0': a non-zero
      first digit makes the result positive, a non-digit makes it negative. */
  lemma ZeroNeedsLeadingZero(s: seq<char>)
    requires |s| > 0
    ensures Parse(s).value == 0 ==> s[0] == '0'
  {
    if !IsDigit(s[0]) {
      NonDigitFirstParsesNegative(s);
    } else if s[0] != '0' {
      ScanFromPositive(Start(s[0]), s[1..]);
    }
  }

  /** "x5" reads as -1*10 + 5 = -5. */
  lemma LetterThenFive()
    ensures Parse(['x', '5', '\n']) == Scanned(-5, 3)
  {
    assert ['x', '5', '\n'] == ['x'] + ['5'] + ['\n'] + [];
    ParseLine('x', ['5'], []);
    assert Digits(['5']) == ['5'];
    assert DecimalValue(['5']) == 5 by { assert ['5'][..0] == []; }
  }

  /** The first character is consumed even when it is a newline, so an empty line
      makes `getInput` read on into the following line, from -1: "\n7\n" reads as
      -1*10 + 7 = -3. */
  lemma LeadingNewlineReadsNextLine()
    ensures Parse(['\n', '7', '\n']) == Scanned(-3, 3)
  {
    assert ['\n', '7', '\n'] == ['\n'] + ['7'] + ['\n'] + [];
    ParseLine('\n', ['7'], []);
    assert Digits(['7']) == ['7'];
    assert DecimalValue(['7']) == 7 by { assert ['7'][..0] == []; }
  }
}
