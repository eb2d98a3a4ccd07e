/** Bytes as machine words. */
module Words {
  import opened ByteStrings

  /** The n low binary digits of b, as a word. */
  function Digits(b: nat, n: nat): bv32 {
    if n == 0 then 0 else (Digits(b / 2, n - 1) << 1) | (if b % 2 == 1 then 1 else 0)
  }

  function Word(b: byte): bv32 {
    Digits(b, 8)
  }

  /** 2 to the n, for n up to 8. */
  function Top(n: nat): bv32 {
    if n == 0 then 1 else if n == 1 then 2 else if n == 2 then 4 else if n == 3 then 8
    else if n == 4 then 16 else if n == 5 then 32 else if n == 6 then 64 else if n == 7 then 128 else 256
  }

  lemma {:induction false} DigitsBound(b: nat, n: nat)
    requires n <= 8
    ensures Digits(b, n) < Top(n)
  {
    if n > 0 {
      DigitsBound(b / 2, n - 1);
      var x := Digits(b / 2, n - 1);
      assert Top(n) == Top(n - 1) << 1 && Top(n - 1) <= 128;
      ShiftBound(x, if b % 2 == 1 then 1 else 0, Top(n - 1));
    }
  }

  lemma ShiftBound(x: bv32, i: bv32, top: bv32)
    requires x < top <= 128 && i <= 1
    ensures (x << 1) | i < top << 1
  {
  }

  lemma ShiftInjective(x: bv32, y: bv32, i: bv32, j: bv32)
    requires x < 256 && y < 256 && i <= 1 && j <= 1 && (x << 1) | i == (y << 1) | j
    ensures x == y && i == j
  {
  }

  function Pow2(n: nat): nat {
    if n == 0 then 1 else 2 * Pow2(n - 1)
  }

  lemma SameDigits(b: nat, b': nat, n: nat)
    requires 0 < n <= 8 && Digits(b, n) == Digits(b', n)
    ensures Digits(b / 2, n - 1) == Digits(b' / 2, n - 1) && b % 2 == b' % 2
  {
    var i: bv32, i': bv32 := if b % 2 == 1 then 1 else 0, if b' % 2 == 1 then 1 else 0;
    DigitsBound(b / 2, n - 1);
    DigitsBound(b' / 2, n - 1);
    ShiftInjective(Digits(b / 2, n - 1), Digits(b' / 2, n - 1), i, i');
  }

  lemma {:induction false} DigitsInjective(b: nat, b': nat, n: nat)
    requires n <= 8 && b < Pow2(n) && b' < Pow2(n) && Digits(b, n) == Digits(b', n)
    ensures b == b'
  {
    hide Digits;
    if n > 0 {
      SameDigits(b, b', n);
      DigitsInjective(b / 2, b' / 2, n - 1);
    }
  }

  lemma WordInjective(b: byte, b': byte)
    requires Word(b) == Word(b')
    ensures b == b'
  {
    hide Digits;
    assert Pow2(4) == 16 && Pow2(8) == 256;
    DigitsInjective(b, b', 8);
  }

  lemma NatInjective(x: bv32, y: bv32)
    requires x as nat == y as nat
    ensures x == y
  {
    assert (x as nat) as bv32 == x && (y as nat) as bv32 == y;
  }

  function Xor(x: bv32, y: bv32): bv32 {
    x ^ y
  }

  lemma XorCancels(c: bv32, d: bv32, x: bv32)
    ensures Xor(c, x) == Xor(d, x) ==> c == d
    ensures Xor(x, c) == Xor(x, d) ==> c == d
  {
  }

  lemma XorMoves(c: bv32, w: bv32, z: bv32)
    ensures Xor(Xor(c, w), z) == Xor(c, Xor(w, z))
  {
  }

  function Half(z: bv32): bv32 {
    z >> 1
  }

  predicate Even(z: bv32) {
    z & 1 == 0
  }

  lemma HalfOfXor(x: bv32, z: bv32)
    ensures Half(Xor(x, z)) == Xor(Half(x), Half(z))
  {
  }

  lemma XorSwaps(x: bv32, z: bv32, m: bv32)
    ensures Xor(Xor(x, z), m) == Xor(Xor(x, m), z)
  {
    hide Xor;
    XorMoves(x, z, m);
    XorMoves(x, m, z);
    XorCommutes(z, m);
  }

  lemma XorCommutes(x: bv32, y: bv32)
    ensures Xor(x, y) == Xor(y, x)
  {
  }

  // ----- bytes packed into a word -----

  function Lifted(p: bv32): bv32 {
    p << 8
  }

  /** Up to four bytes, the first one lowest. */
  function Packed(s: Str): bv32 {
    if s == [] then 0 else Xor(Word(s[0]), Lifted(Packed(s[1..])))
  }

  predicate FitsByte(w: bv32) {
    w < 256
  }

  predicate Fits(p: bv32, n: nat) {
    if n == 0 then p == 0 else if n == 1 then p < 0x100 else if n == 2 then p < 0x1_0000 else p < 0x100_0000
  }

  lemma WordFits(b: byte)
    ensures FitsByte(Word(b))
  {
    hide Digits;
    DigitsBound(b, 8);
  }

  lemma LiftedFits(w: bv32, p: bv32, n: nat)
    requires FitsByte(w) && n <= 2 && Fits(p, n)
    ensures Fits(Xor(w, Lifted(p)), n + 1)
  {
  }

  lemma {:induction false} PackedFits(s: Str)
    requires |s| <= 3
    ensures Fits(Packed(s), |s|)
  {
    hide Word, Xor, Lifted, FitsByte;
    if s != [] {
      PackedFits(s[1..]);
      WordFits(s[0]);
      LiftedFits(Word(s[0]), Packed(s[1..]), |s| - 1);
    }
  }

  lemma FitsThree(p: bv32, n: nat)
    requires n <= 3 && Fits(p, n)
    ensures Fits(p, 3)
  {
  }

  lemma Unpack(w: bv32, w': bv32, p: bv32, p': bv32)
    requires FitsByte(w) && FitsByte(w') && Fits(p, 3) && Fits(p', 3)
    requires Xor(w, Lifted(p)) == Xor(w', Lifted(p'))
    ensures w == w' && p == p'
  {
  }

  lemma PackedFirst(s: Str)
    requires s != []
    ensures Packed(s) == Xor(Word(s[0]), Lifted(Packed(s[1..])))
  {
  }

  lemma {:induction false} PackedInjective(s: Str, t: Str)
    requires |s| == |t| <= 4 && Packed(s) == Packed(t)
    ensures s == t
  {
    hide Word, Xor, Lifted, FitsByte, Fits, Packed;
    if s != [] {
      var p, q := Packed(s[1..]), Packed(t[1..]);
      PackedFirst(s);
      PackedFirst(t);
      WordFits(s[0]);
      WordFits(t[0]);
      PackedFits(s[1..]);
      PackedFits(t[1..]);
      FitsThree(p, |s| - 1);
      FitsThree(q, |s| - 1);
      Unpack(Word(s[0]), Word(t[0]), p, q);
      WordInjective(s[0], t[0]);
      PackedInjective(s[1..], t[1..]);
      assert s == [s[0]] + s[1..] && t == [t[0]] + t[1..];
    }
  }

  /** A lifted word is even eight times over, and halving it eight times gives the word back. */
  lemma Lowered(p: bv32)
    requires Fits(p, 3)
    ensures var z1 := Half(Lifted(p)); var z2 := Half(z1); var z3 := Half(z2); var z4 := Half(z3);
            var z5 := Half(z4); var z6 := Half(z5); var z7 := Half(z6);
            && Even(Lifted(p)) && Even(z1) && Even(z2) && Even(z3) && Even(z4) && Even(z5) && Even(z6) && Even(z7)
            && Half(z7) == p
  {
  }
}

/** The CRC-32 of the on-disk formats, and what it detects. */
module Crc {
  import opened ByteStrings
  import opened Words

  /** The polynomial if the low bit is set, else nothing. */
  function Mask(c: bv32): bv32 {
    0xEDB88320 & (0 - (c & 1))
  }

  function CrcBit(c: bv32): bv32 {
    Xor(Half(c), Mask(c))
  }

  function CrcBits(crc: bv32, bits: nat): bv32 {
    if bits == 0 then crc
    else CrcBit(CrcBits(crc, bits - 1))
  }

  function CrcByte(crc: bv32, b: byte): bv32 {
    CrcBits(Xor(crc, Word(b)), 8)
  }

  function CrcFrom(start: bv32, data: Str): bv32 {
    if data == [] then start else CrcByte(CrcFrom(start, data[..|data| - 1]), data[|data| - 1])
  }

  function CrcOf(data: Str): bv32 {
    CrcFrom(0xFFFFFFFF, data)
  }

  function Crc32(data: Str): (r: nat)
    ensures r < 0x1_0000_0000
  {
    Xor(CrcOf(data), 0xFFFFFFFF) as nat
  }

  method ShiftByte(before: bv32, data: byte) returns (crc: bv32)
    ensures crc == CrcByte(before, data)
  {
    hide Xor, Half, Mask, Word;
    crc := Xor(before, Word(data));
    ghost var start := crc;
    for b := 0 to 8
      invariant crc == CrcBits(start, b)
    {
      var mask := Mask(crc);
      crc := Xor(Half(crc), mask);
    }
  }

  /** Bit by bit, without a table. */
  method ComputeCrc32(data: Str) returns (r: nat)
    ensures r == Crc32(data)
  {
    hide CrcByte;
    var crc: bv32 := 0xFFFFFFFF;
    for i := 0 to |data|
      invariant crc == CrcOf(data[..i])
    {
      crc := ShiftByte(crc, data[i]);
      assert data[..i + 1][..i] == data[..i];
    }
    assert data[..|data|] == data;
    r := (crc ^ 0xFFFFFFFF) as nat;
  }

  // ----- what the CRC detects -----

  /** The high bit of the polynomial is set, so a shift loses nothing. */
  lemma CrcBitInjective(c: bv32, d: bv32)
    requires CrcBit(c) == CrcBit(d)
    ensures c == d
  {
  }

  lemma {:induction false} CrcBitsInjective(c: bv32, d: bv32, n: nat)
    requires CrcBits(c, n) == CrcBits(d, n)
    ensures c == d
  {
    hide CrcBit;
    if n > 0 {
      CrcBitInjective(CrcBits(c, n - 1), CrcBits(d, n - 1));
      CrcBitsInjective(c, d, n - 1);
    }
  }

  /** A byte read into different states leaves different states. */
  lemma CrcByteKeepsApart(c: bv32, d: bv32, b: byte)
    requires CrcByte(c, b) == CrcByte(d, b)
    ensures c == d
  {
    hide CrcBits, Word, Xor;
    CrcBitsInjective(Xor(c, Word(b)), Xor(d, Word(b)), 8);
    XorCancels(c, d, Word(b));
  }

  lemma MaskStays(x: bv32, z: bv32)
    requires Even(z)
    ensures Mask(Xor(x, z)) == Mask(x)
  {
    assert (x ^ z) & 1 == x & 1;
  }

  lemma EvenPasses(x: bv32, z: bv32)
    requires Even(z)
    ensures CrcBit(Xor(x, z)) == Xor(CrcBit(x), Half(z))
  {
    hide Mask, Xor, Half, Even;
    MaskStays(x, z);
    HalfOfXor(x, z);
    XorSwaps(Half(x), Half(z), Mask(x));
  }

  lemma BitPasses(x: bv32, y: bv32, z: bv32, n: nat)
    requires Even(z) && CrcBits(y, n) == Xor(CrcBits(x, n), z)
    ensures CrcBits(y, n + 1) == Xor(CrcBits(x, n + 1), Half(z))
  {
    hide CrcBit, Xor, Half, Even;
    EvenPasses(CrcBits(x, n), z);
  }

  lemma NoBits(x: bv32)
    ensures CrcBits(x, 0) == x
  {
  }

  /** What sits above the low eight bits is shifted down by a byte and nothing else. */
  lemma HighPasses(x: bv32, p: bv32)
    requires Fits(p, 3)
    ensures CrcBits(Xor(x, Lifted(p)), 8) == Xor(CrcBits(x, 8), p)
  {
    hide CrcBits, Xor, Half, Even, Lifted, Fits;
    var y, z := Xor(x, Lifted(p)), Lifted(p);
    var z1 := Half(z);
    var z2 := Half(z1);
    var z3 := Half(z2);
    var z4 := Half(z3);
    var z5 := Half(z4);
    var z6 := Half(z5);
    var z7 := Half(z6);
    Lowered(p);
    NoBits(x);
    NoBits(y);
    BitPasses(x, y, z, 0);
    BitPasses(x, y, z1, 1);
    BitPasses(x, y, z2, 2);
    BitPasses(x, y, z3, 3);
    BitPasses(x, y, z4, 4);
    BitPasses(x, y, z5, 5);
    BitPasses(x, y, z6, 6);
    BitPasses(x, y, z7, 7);
  }

  /** Bytes still to come can be merged into the state before the byte that precedes them. */
  lemma MergeByte(c: bv32, b: byte, y: Str)
    requires |y| <= 3
    ensures Xor(CrcByte(c, b), Packed(y)) == CrcBits(Xor(c, Packed([b] + y)), 8)
  {
    hide CrcBits, Word, Xor, Lifted, Fits;
    PackedFits(y);
    FitsThree(Packed(y), |y|);
    assert ([b] + y)[1..] == y;
    HighPasses(Xor(c, Word(b)), Packed(y));
    XorMoves(c, Word(b), Lifted(Packed(y)));
  }

  /** Up to four bytes read into one state are told apart. */
  lemma {:induction false} TellsBytes(c: bv32, x: Str, x': Str, y: Str, y': Str)
    requires |x| == |x'| && |y| == |y'| && |x| + |y| <= 4
    requires Xor(CrcFrom(c, x), Packed(y)) == Xor(CrcFrom(c, x'), Packed(y'))
    ensures x + y == x' + y'
    decreases |x|
  {
    hide CrcByte, CrcBits, Packed, Xor;
    if x == [] {
      XorCancels(Packed(y), Packed(y'), c);
      PackedInjective(y, y');
    } else {
      var n := |x| - 1;
      var p, p', b, b' := x[..n], x'[..n], x[n], x'[n];
      MergeByte(CrcFrom(c, p), b, y);
      MergeByte(CrcFrom(c, p'), b', y');
      CrcBitsInjective(Xor(CrcFrom(c, p), Packed([b] + y)), Xor(CrcFrom(c, p'), Packed([b'] + y')), 8);
      TellsBytes(c, p, p', [b] + y, [b'] + y');
      assert x + y == p + ([b] + y) && x' + y' == p' + ([b'] + y');
    }
  }

  lemma BothTell(c: bv32, x: Str, y: Str)
    requires |x| == |y| <= 4 && CrcFrom(c, x) == CrcFrom(c, y)
    ensures x == y
  {
    hide CrcFrom, Xor;
    TellsBytes(c, x, y, [], []);
    assert x + [] == x && y + [] == y;
  }

  lemma {:induction false} CrcFromConcat(c: bv32, x: Str, y: Str)
    ensures CrcFrom(c, x + y) == CrcFrom(CrcFrom(c, x), y)
  {
    hide CrcByte;
    if y == [] {
      assert x + y == x;
    } else {
      var n := |y| - 1;
      CrcFromConcat(c, x, y[..n]);
      assert (x + y)[..|x + y| - 1] == x + y[..n];
    }
  }

  /** Two byte strings that differ, and only within the four bytes from k on. */
  predicate Burst(a: Str, b: Str, k: nat) {
    && |a| == |b| && a != b
    && forall i :: 0 <= i < |a| && !(k <= i < k + 4) ==> a[i] == b[i]
  }

  lemma {:induction false} CrcOfSeesBurst(a: Str, b: Str, k: nat)
    requires Burst(a, b, k)
    ensures CrcOf(a) != CrcOf(b)
  {
    hide CrcByte, Packed, Xor;
    var n := |a| - 1;
    if k + 4 <= n {
      assert a == a[..n] + [a[n]] && b == b[..n] + [b[n]];
      CrcOfSeesBurst(a[..n], b[..n], k);
      if CrcOf(a) == CrcOf(b) {
        CrcByteKeepsApart(CrcOf(a[..n]), CrcOf(b[..n]), a[n]);
      }
    } else if k <= n {
      var x, y := a[k..], b[k..];
      assert a[..k] == b[..k];
      assert a == a[..k] + x && b == a[..k] + y;
      if CrcOf(a) == CrcOf(b) {
        CrcFromConcat(0xFFFFFFFF, a[..k], x);
        CrcFromConcat(0xFFFFFFFF, a[..k], y);
        BothTell(CrcOf(a[..k]), x, y);
      }
    }
  }

  /** Any change confined to 32 adjacent bits on byte boundaries, anywhere, changes the checksum. */
  lemma ChangedBurstDetected(a: Str, b: Str, k: nat)
    requires Burst(a, b, k)
    ensures Crc32(a) != Crc32(b)
  {
    hide CrcOf, Xor;
    CrcOfSeesBurst(a, b, k);
    if Crc32(a) == Crc32(b) {
      NatInjective(Xor(CrcOf(a), 0xFFFFFFFF), Xor(CrcOf(b), 0xFFFFFFFF));
      XorCancels(CrcOf(a), CrcOf(b), 0xFFFFFFFF);
    }
  }
}
