/** Integers as bytes, low byte first, the way write_int copies them. */
module Bytes {
  type Byte = x: int | 0 <= x < 256

  const WORD: int := 0x1_0000_0000_0000_0000

  /** size_t. */
  type Word = x: int | 0 <= x < WORD

  /** Ticks of a file time; a file that is missing or not regular has the smallest. */
  type Time = x: int | -0x8000_0000_0000_0000 <= x < 0x8000_0000_0000_0000

  const MISSING: Time := -0x8000_0000_0000_0000

  function ToBytes(x: nat, n: nat): (b: seq<Byte>)
    ensures |b| == n
    decreases n, x
  {
    if n == 0 then [] else [x % 256] + ToBytes(x / 256, n - 1)
  }

  function FromBytes(b: seq<Byte>): nat
  {
    if b == [] then 0 else b[0] + 256 * FromBytes(b[1..])
  }

  function Power256(n: nat): nat
  {
    if n == 0 then 1 else 256 * Power256(n - 1)
  }

  lemma {:induction false} ToBytesFromBytes(x: nat, n: nat)
    requires x < Power256(n)
    ensures FromBytes(ToBytes(x, n)) == x
    decreases n
  {
    if n > 0 {
      ToBytesFromBytes(x / 256, n - 1);
      assert ToBytes(x, n)[1..] == ToBytes(x / 256, n - 1);
    }
  }

  lemma {:induction false} FromBytesBound(b: seq<Byte>)
    ensures FromBytes(b) < Power256(|b|)
  {
    if b != [] {
      FromBytesBound(b[1..]);
    }
  }

  lemma WordSize()
    ensures Power256(8) == WORD
  {
    assert Power256(4) == 0x1_0000_0000;
    assert Power256(8) == 256 * 256 * 256 * 256 * Power256(4);
  }

  function WordBytes(x: Word): (b: seq<Byte>)
    ensures |b| == 8
  {
    ToBytes(x, 8)
  }

  function ReadWord(b: seq<Byte>): Word
    requires |b| >= 8
  {
    WordSize();
    FromBytesBound(b[..8]);
    FromBytes(b[..8])
  }

  lemma WordRoundTrip(x: Word, rest: seq<Byte>)
    ensures ReadWord(WordBytes(x) + rest) == x
  {
    WordSize();
    ToBytesFromBytes(x, 8);
    assert (WordBytes(x) + rest)[..8] == WordBytes(x);
  }

  /** One byte after the other, the lowest first. */
  lemma {:induction false} LowByteFirst(x: nat, n: nat, i: nat)
    requires i < n
    ensures ToBytes(x, n)[i] == Shifted(x, i) % 256
    decreases n
  {
    if i > 0 { LowByteFirst(x / 256, n - 1, i - 1); }
  }

  /** `x` without its `i` lowest bytes. */
  function Shifted(x: nat, i: nat): nat
    decreases i
  {
    if i == 0 then x else Shifted(x / 256, i - 1)
  }

  /** Two's complement. */
  function TimeBytes(t: Time): (b: seq<Byte>)
    ensures |b| == 8
  {
    WordBytes(if t < 0 then t + WORD else t)
  }

  function ReadTime(b: seq<Byte>): Time
    requires |b| >= 8
  {
    var x := ReadWord(b);
    if x >= 0x8000_0000_0000_0000 then x - WORD else x
  }

  lemma TimeRoundTrip(t: Time, rest: seq<Byte>)
    ensures ReadTime(TimeBytes(t) + rest) == t
  {
    WordRoundTrip(if t < 0 then t + WORD else t, rest);
  }
}
