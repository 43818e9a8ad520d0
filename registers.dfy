/** The peripheral header: the LED blinking peripheral's physical base address and the
    REG_WRITE / REG_READ accessors.  A mapped window is plain memory here: a sequence of
    bytes indexed by the byte offset from the start of the mapping.  A register is a
    32-bit `int` stored in four consecutive bytes, least significant byte first (the
    byte order of the ARM processor the driver runs on). */
module Registers {

  /** Physical base address of the LED blinking peripheral. */
  const LED_BLINKING: int := 0x4001_0000

  newtype byte = x: int | 0 <= x < 256

  const TWO_31: int := 0x8000_0000
  const TWO_32: int := 0x1_0000_0000

  /** The range of a C `int` on the target. */
  predicate IsInt32(v: int) { -TWO_31 <= v < TWO_31 }

  /** The four bytes a 32-bit store of `v` leaves in memory, least significant first. */
  function Encode32(v: int): (bs: seq<byte>)
    requires IsInt32(v)
    ensures |bs| == 4
  {
    var u := if v < 0 then v + TWO_32 else v;
    [(u % 256) as byte, (u / 256 % 256) as byte, (u / 65536 % 256) as byte, (u / 16777216) as byte]
  }

  /** The `int` a 32-bit load reads from four bytes, least significant first. */
  function Decode32(bs: seq<byte>): (v: int)
    requires |bs| == 4
    ensures IsInt32(v)
  {
    var u := bs[0] as int + 256 * bs[1] as int + 65536 * bs[2] as int + 16777216 * bs[3] as int;
    if u >= TWO_31 then u - TWO_32 else u
  }

  /** A register at byte offset `off` lies wholly inside a window of `len` bytes. */
  predicate InWindow(off: int, len: int) { 0 <= off && off + 4 <= len }

  /** The window after `*(volatile int*)(base + off) = v`. */
  function Store32(mem: seq<byte>, off: int, v: int): (m: seq<byte>)
    requires InWindow(off, |mem|) && IsInt32(v)
    ensures |m| == |mem|
    ensures m[off..off + 4] == Encode32(v)
    ensures m[..off] == mem[..off] && m[off + 4..] == mem[off + 4..]
  {
    mem[..off] + Encode32(v) + mem[off + 4..]
  }

  /** REG_READ: the 32-bit `int` at byte offset `off` of the window. */
  function RegRead(mem: seq<byte>, off: int): (v: int)
    requires InWindow(off, |mem|)
    ensures IsInt32(v)
    ensures Encode32(v) == mem[off..off + 4]
  {
    Encode32Decode32(mem[off..off + 4]);
    Decode32(mem[off..off + 4])
  }

  /** REG_WRITE: one 32-bit store of `v` at byte offset `off` of the mapped window.
      The four bytes change together, as one store. */
  method RegWrite(mem: array<byte>, off: int, v: int)
    requires InWindow(off, mem.Length) && IsInt32(v)
    modifies mem
    ensures mem[..] == Store32(old(mem[..]), off, v)
    ensures RegRead(mem[..], off) == v
    ensures forall k :: 0 <= k < mem.Length && (k < off || off + 4 <= k) ==> mem[k] == old(mem[k])
  {
    var bs := Encode32(v);
    forall k | off <= k < off + 4 {
      mem[k] := bs[k - off];
    }
    assert mem[..] == old(mem[..])[..off] + bs + old(mem[..])[off + 4..];
    ReadAfterWrite(old(mem[..]), off, v);
  }

  // ----- Properties of the accessors -----

  /** Loading what a store wrote gives the stored value back. */
  lemma Decode32Encode32(v: int)
    requires IsInt32(v)
    ensures Decode32(Encode32(v)) == v
  {
    var u := if v < 0 then v + TWO_32 else v;
    var b0, b1, b2, b3 := u % 256, u / 256 % 256, u / 65536 % 256, u / 16777216;
    assert u / 256 == b1 + 256 * (u / 65536);
    assert u / 65536 == b2 + 256 * b3;
    assert u == b0 + 256 * (u / 256);
    assert u == b0 + 256 * b1 + 65536 * b2 + 16777216 * b3;
  }

  /** Storing what a load read leaves the four bytes as they were. */
  lemma Encode32Decode32(bs: seq<byte>)
    requires |bs| == 4
    ensures Encode32(Decode32(bs)) == bs
  {
    var b0, b1, b2, b3 := bs[0] as int, bs[1] as int, bs[2] as int, bs[3] as int;
    var u := b0 + 256 * b1 + 65536 * b2 + 16777216 * b3;
    assert u % 256 == b0 && u / 256 == b1 + 256 * b2 + 65536 * b3;
    assert (u / 256) % 256 == b1 && u / 65536 == b2 + 256 * b3;
    assert (u / 65536) % 256 == b2 && u / 16777216 == b3;
  }

  /** A REG_READ after a REG_WRITE at the same offset returns the written value. */
  lemma ReadAfterWrite(mem: seq<byte>, off: int, v: int)
    requires InWindow(off, |mem|) && IsInt32(v)
    ensures RegRead(Store32(mem, off, v), off) == v
  {
    var m := Store32(mem, off, v);
    assert m[off..off + 4] == Encode32(v);
    Decode32Encode32(v);
  }

  /** A REG_WRITE changes only the four bytes of its own register. */
  lemma WriteChangesOnlyItsBytes(mem: seq<byte>, off: int, v: int, k: int)
    requires InWindow(off, |mem|) && IsInt32(v)
    requires 0 <= k < |mem| && (k < off || off + 4 <= k)
    ensures Store32(mem, off, v)[k] == mem[k]
  {
  }

  /** A REG_WRITE leaves every register that does not overlap it reading as before. */
  lemma WriteKeepsOtherRegisters(mem: seq<byte>, off: int, v: int, other: int)
    requires InWindow(off, |mem|) && IsInt32(v) && InWindow(other, |mem|)
    requires other + 4 <= off || off + 4 <= other
    ensures RegRead(Store32(mem, off, v), other) == RegRead(mem, other)
  {
    var m := Store32(mem, off, v);
    assert m[other..other + 4] == mem[other..other + 4] by {
      forall k | other <= k < other + 4 ensures m[k] == mem[k] {
        WriteChangesOnlyItsBytes(mem, off, v, k);
      }
    }
  }

  /** Writing back the value a register reads leaves the window unchanged. */
  lemma WriteBackUnchanged(mem: seq<byte>, off: int)
    requires InWindow(off, |mem|)
    ensures Store32(mem, off, RegRead(mem, off)) == mem
  {
    Encode32Decode32(mem[off..off + 4]);
    assert mem == mem[..off] + mem[off..off + 4] + mem[off + 4..];
  }

  /** The last of two writes to the same register is the one that stays. */
  lemma LastWriteWins(mem: seq<byte>, off: int, v: int, w: int)
    requires InWindow(off, |mem|) && IsInt32(v) && IsInt32(w)
    ensures Store32(Store32(mem, off, v), off, w) == Store32(mem, off, w)
  {
    var m := Store32(mem, off, v);
    assert m[..off] == mem[..off];
    assert m[off + 4..] == mem[off + 4..];
  }
}
