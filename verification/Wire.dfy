/** Big-endian integers and length-prefixed strings of the on-disk formats. */
module Wire {
  import opened ByteStrings

  const U32 := 0x1_0000_0000
  const U64 := 0x1_0000_0000_0000_0000

  datatype Option<+T> = None | Some(value: T)

  // ----- integers -----

  function Pow256(n: nat): (p: nat)
    ensures p > 0
  {
    if n == 0 then 1 else 256 * Pow256(n - 1)
  }

  /** Byte i of v, counted from the low end. */
  function ByteOf(v: nat, i: nat): byte {
    (v / Pow256(i)) % 256
  }

  /** The n low bytes of v, high byte first. */
  function BE(v: nat, n: nat): (b: Str)
    ensures |b| == n
  {
    if n == 0 then [] else [ByteOf(v, n - 1)] + BE(v, n - 1)
  }

  function FromBE(b: Str): nat {
    if b == [] then 0 else FromBE(b[..|b| - 1]) * 256 + b[|b| - 1]
  }

  lemma {:induction false} FromBEFront(b: Str)
    requires b != []
    ensures FromBE(b) == b[0] * Pow256(|b| - 1) + FromBE(b[1..])
  {
    if |b| > 1 {
      var init, last := b[..|b| - 1], b[|b| - 1];
      FromBEFront(init);
      assert init[1..] == b[1..][..|b| - 2];
      assert Pow256(|b| - 1) == 256 * Pow256(|b| - 2);
      assert FromBE(b[1..]) == FromBE(init[1..]) * 256 + last;
      assert init[0] * Pow256(|b| - 2) * 256 == b[0] * Pow256(|b| - 1);
    }
  }

  lemma {:induction false} FromBEBound(b: Str)
    ensures FromBE(b) < Pow256(|b|)
  {
    if b != [] {
      FromBEBound(b[..|b| - 1]);
    }
  }

  lemma SplitMod(v: nat, p: nat)
    requires p > 0
    ensures v % (256 * p) == ((v / p) % 256) * p + v % p
  {
    var q, r := v / p, v % p;
    var q2, b := q / 256, q % 256;
    Distribute(q2, b, p);
    SmallMul(b, p);
    ModUnique(v, 256 * p, q2, b * p + r);
  }

  lemma Distribute(q: nat, b: nat, p: nat)
    ensures (256 * q + b) * p == q * (256 * p) + b * p
  {
    assert (256 * q) * p == q * (256 * p);
  }

  lemma SmallMul(b: nat, p: nat)
    requires b <= 255
    ensures b * p <= 255 * p
  {
  }

  lemma ModUnique(v: nat, m: nat, q: nat, r: nat)
    requires m > 0 && v == q * m + r && r < m
    ensures v % m == r
  {
    var q', r' := v / m, v % m;
    assert (q' - q) * m == r - r';
    MulGrows(q' - q, m);
  }

  lemma MulGrows(d: int, m: nat)
    requires m > 0
    ensures d >= 1 ==> d * m >= m
    ensures d <= -1 ==> d * m <= 0 - m
  {
  }

  /** Decoding gives the integer back, cut to its width. */
  lemma {:induction false} IntRoundTrip(v: nat, n: nat)
    ensures FromBE(BE(v, n)) == v % Pow256(n)
  {
    if n > 0 {
      IntRoundTrip(v, n - 1);
      var b := BE(v, n);
      FromBEFront(b);
      assert b[1..] == BE(v, n - 1);
      SplitMod(v, Pow256(n - 1));
    }
  }

  /** Byte i of the big-endian bytes, counted from the high end. */
  lemma {:induction false} BEAt(v: nat, n: nat, i: nat)
    requires i < n
    ensures BE(v, n)[i] == (v / Pow256(n - 1 - i)) % 256
  {
    if i > 0 {
      BEAt(v, n - 1, i - 1);
    }
  }

  lemma Widths()
    ensures Pow256(4) == U32 && Pow256(8) == U64
  {
    assert Pow256(2) == 65536;
    assert Pow256(4) == U32;
    assert Pow256(6) == 65536 * U32;
  }

  lemma U32RoundTrip(v: nat)
    requires v < U32
    ensures FromBE(BE(v, 4)) == v
  {
    Widths();
    IntRoundTrip(v, 4);
  }

  lemma U64RoundTrip(v: nat)
    requires v < U64
    ensures FromBE(BE(v, 8)) == v
  {
    Widths();
    IntRoundTrip(v, 8);
  }

  /** Byte strings of one width are told apart by their integers. */
  lemma {:induction false} FromBEInjective(a: Str, b: Str)
    requires |a| == |b| && FromBE(a) == FromBE(b)
    ensures a == b
  {
    if a != [] {
      var n := |a| - 1;
      FromBEInjective(a[..n], b[..n]);
      assert a == a[..n] + [a[n]] && b == b[..n] + [b[n]];
    }
  }

  lemma FromBEStep(b: Str, i: nat)
    requires i < |b|
    ensures FromBE(b[..i + 1]) == FromBE(b[..i]) * 256 + b[i]
  {
    assert b[..i + 1][..i] == b[..i];
  }

  /** The weighted sum of the four bytes from i on. */
  function Quad(b: Str, i: nat): nat
    requires i + 4 <= |b|
  {
    b[i] as nat * 0x100_0000 + b[i + 1] as nat * 0x1_0000 + b[i + 2] as nat * 0x100 + b[i + 3]
  }

  lemma FourBE(b: Str)
    requires |b| == 4
    ensures FromBE(b) == Quad(b, 0)
  {
    hide FromBE;
    NoBytes(b[..0]);
    FromBEStep(b, 0);
    FromBEStep(b, 1);
    FromBEStep(b, 2);
    FromBEStep(b, 3);
    assert b[..4] == b;
  }

  lemma EightBE(b: Str)
    requires |b| == 8
    ensures FromBE(b) == 0x1_0000_0000 * Quad(b, 0) + Quad(b, 4)
  {
    hide FromBE;
    FourBE(b[..4]);
    FromBEStep(b, 4);
    FromBEStep(b, 5);
    FromBEStep(b, 6);
    FromBEStep(b, 7);
    assert b[..8] == b;
  }

  lemma NoBytes(b: Str)
    requires |b| == 0
    ensures FromBE(b) == 0
  {
  }

  /** The writers of the source, for 4 and 8 bytes, append to a buffer. */
  method PutInt(out: Str, v: nat, n: nat) returns (r: Str)
    ensures r == out + BE(v, n)
  {
    r := out;
    var i := n;
    while i > 0
      invariant 0 <= i <= n && r + BE(v, i) == out + BE(v, n)
    {
      i := i - 1;
      r := r + [(v / Pow256(i)) % 256];
    }
  }

  method PutStr(out: Str, s: Str) returns (r: Str)
    ensures r == out + EncodeStr(s)
  {
    r := PutInt(out, |s| % U32, 4);
    r := r + s;
  }

  /** The length is cut to 32 bits. */
  function EncodeStr(s: Str): Str {
    BE(|s| % U32, 4) + s
  }

  lemma StrSize(s: Str)
    ensures |EncodeStr(s)| == 4 + |s|
  {
  }

  // ----- reading -----

  /** The n-byte integer at `pos`, and the position behind it. */
  function ReadInt(b: Str, pos: nat, n: nat): (r: Option<(nat, nat)>)
    ensures r.Some? ==> r.value.1 == pos + n <= |b|
  {
    if pos + n > |b| then None else Some((FromBE(b[pos..pos + n]), pos + n))
  }

  function ReadStr(b: Str, pos: nat): (r: Option<(Str, nat)>)
    ensures r.Some? ==> r.value.1 == pos + 4 + |r.value.0| <= |b|
  {
    match ReadInt(b, pos, 4)
    case None => None
    case Some((len, p)) => if p + len > |b| then None else Some((b[p..p + len], p + len))
  }

  /** A cursor that refuses to read past the end. */
  class Reader {
    const data: Str
    var pos: nat

    constructor (data: Str)
      ensures this.data == data && pos == 0
    {
      this.data := data;
      pos := 0;
    }

    method Int(n: nat) returns (ok: bool, v: nat)
      modifies this
      ensures ok == ReadInt(data, old(pos), n).Some?
      ensures if ok then (v, pos) == ReadInt(data, old(pos), n).value else pos == old(pos)
    {
      v := 0;
      if pos + n > |data| {
        return false, 0;
      }
      var i := 0;
      while i < n
        invariant 0 <= i <= n && pos == old(pos) + i && old(pos) + n <= |data|
        invariant v == FromBE(data[old(pos)..old(pos) + i])
      {
        v := v * 256 + data[pos];
        ghost var read := data[old(pos)..old(pos) + i + 1];
        assert read[..|read| - 1] == data[old(pos)..old(pos) + i];
        pos := pos + 1;
        i := i + 1;
      }
      ok := true;
    }

    method Str() returns (ok: bool, s: Str)
      modifies this
      ensures ok == ReadStr(data, old(pos)).Some?
      ensures ok ==> (s, pos) == ReadStr(data, old(pos)).value
    {
      s := [];
      var len;
      ok, len := Int(4);
      if !ok {
        return;
      }
      if pos + len > |data| {
        return false, [];
      }
      s := data[pos..pos + len];
      pos := pos + len;
    }
  }

  lemma IntReadsBack(pre: Str, v: nat, n: nat, post: Str)
    requires v < Pow256(n)
    ensures ReadInt(pre + BE(v, n) + post, |pre|, n) == Some((v, |pre| + n))
  {
    hide BE, FromBE, Pow256;
    var b := pre + BE(v, n) + post;
    assert b[|pre|..|pre| + n] == BE(v, n);
    IntRoundTrip(v, n);
  }

  lemma StrReadsBack(pre: Str, s: Str, post: Str)
    requires |s| < U32
    ensures ReadStr(pre + EncodeStr(s) + post, |pre|) == Some((s, |pre| + 4 + |s|))
  {
    hide BE, FromBE, Pow256;
    Widths();
    IntReadsBack(pre, |s|, 4, s + post);
    assert pre + EncodeStr(s) + post == pre + BE(|s|, 4) + (s + post);
    assert (pre + EncodeStr(s) + post)[|pre| + 4..|pre| + 4 + |s|] == s;
  }
}
