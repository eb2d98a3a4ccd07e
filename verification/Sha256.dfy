/**
  Streaming SHA-256. The compression function follows section 6.2.2 of FIPS 180-4; a message is padded
  as section 5.1.1 says and hashed block by block.
 */
module Sha256 {
  import opened ByteStrings
  import opened Wire

  type Word = bv32

  function Init(): (s: seq<Word>)
    ensures |s| == 8
  {
    [0x6a09e667, 0xbb67ae85, 0x3c6ef372, 0xa54ff53a, 0x510e527f, 0x9b05688c, 0x1f83d9ab, 0x5be0cd19]
  }

  // The round constants, row by row.
  const K0: seq<Word> := [0x428a2f98, 0x71374491, 0xb5c0fbcf, 0xe9b5dba5, 0x3956c25b, 0x59f111f1, 0x923f82a4, 0xab1c5ed5]
  const K1: seq<Word> := [0xd807aa98, 0x12835b01, 0x243185be, 0x550c7dc3, 0x72be5d74, 0x80deb1fe, 0x9bdc06a7, 0xc19bf174]
  const K2: seq<Word> := [0xe49b69c1, 0xefbe4786, 0x0fc19dc6, 0x240ca1cc, 0x2de92c6f, 0x4a7484aa, 0x5cb0a9dc, 0x76f988da]
  const K3: seq<Word> := [0x983e5152, 0xa831c66d, 0xb00327c8, 0xbf597fc7, 0xc6e00bf3, 0xd5a79147, 0x06ca6351, 0x14292967]
  const K4: seq<Word> := [0x27b70a85, 0x2e1b2138, 0x4d2c6dfc, 0x53380d13, 0x650a7354, 0x766a0abb, 0x81c2c92e, 0x92722c85]
  const K5: seq<Word> := [0xa2bfe8a1, 0xa81a664b, 0xc24b8b70, 0xc76c51a3, 0xd192e819, 0xd6990624, 0xf40e3585, 0x106aa070]
  const K6: seq<Word> := [0x19a4c116, 0x1e376c08, 0x2748774c, 0x34b0bcb5, 0x391c0cb3, 0x4ed8aa4a, 0x5b9cca4f, 0x682e6ff3]
  const K7: seq<Word> := [0x748f82ee, 0x78a5636f, 0x84c87814, 0x8cc70208, 0x90befffa, 0xa4506ceb, 0xbef9a3f7, 0xc67178f2]

  function K(t: nat): Word
    requires t < 64
  {
    (if t < 8 then K0 else if t < 16 then K1 else if t < 24 then K2 else if t < 32 then K3
     else if t < 40 then K4 else if t < 48 then K5 else if t < 56 then K6 else K7)[t % 8]
  }

  // ----- section 4.1.2: the logical functions -----

  function Rotr(x: Word, n: Word): Word
    requires 0 < n < 32
  {
    (x >> n) | (x << (32 - n))
  }

  /** Addition modulo 2^32. */
  function Plus(x: Word, y: Word): Word { x + y }

  function Sum4(a: Word, b: Word, c: Word, d: Word): Word { a + b + c + d }

  function Ch(x: Word, y: Word, z: Word): Word { (x & y) ^ (!x & z) }

  function Maj(x: Word, y: Word, z: Word): Word { (x & y) ^ (x & z) ^ (y & z) }

  function BigSigma0(x: Word): Word { Rotr(x, 2) ^ Rotr(x, 13) ^ Rotr(x, 22) }

  function BigSigma1(x: Word): Word { Rotr(x, 6) ^ Rotr(x, 11) ^ Rotr(x, 25) }

  function SmallSigma0(x: Word): Word { Rotr(x, 7) ^ Rotr(x, 18) ^ (x >> 3) }

  function SmallSigma1(x: Word): Word { Rotr(x, 17) ^ Rotr(x, 19) ^ (x >> 10) }

  // ----- section 6.2.2: one block -----

  /** Word t of a block, high byte first. */
  function BlockWord(block: Str, t: nat): Word
    requires |block| == 64 && t < 16
  {
    ((block[4 * t] as bv32) << 24) | ((block[4 * t + 1] as bv32) << 16) | ((block[4 * t + 2] as bv32) << 8) | (block[4 * t + 3] as bv32)
  }

  /** The message schedule, as the standard orders its terms. */
  function W(block: Str, t: nat): Word
    requires |block| == 64 && t < 64
  {
    if t < 16 then BlockWord(block, t)
    else Sum4(SmallSigma1(W(block, t - 2)), W(block, t - 7), SmallSigma0(W(block, t - 15)), W(block, t - 16))
  }

  datatype Regs = Regs(a: Word, b: Word, c: Word, d: Word, e: Word, f: Word, g: Word, h: Word)

  function Round(r: Regs, k: Word, w: Word): Regs {
    var t1 := Plus(Plus(Plus(Plus(r.h, BigSigma1(r.e)), Ch(r.e, r.f, r.g)), k), w);
    var t2 := Plus(BigSigma0(r.a), Maj(r.a, r.b, r.c));
    Regs(Plus(t1, t2), r.a, r.b, r.c, Plus(r.d, t1), r.e, r.f, r.g)
  }

  function Rounds(r: Regs, block: Str, n: nat): Regs
    requires |block| == 64 && n <= 64
  {
    if n == 0 then r else Round(Rounds(r, block, n - 1), K(n - 1), W(block, n - 1))
  }

  function Load(state: seq<Word>): Regs
    requires |state| == 8
  {
    Regs(state[0], state[1], state[2], state[3], state[4], state[5], state[6], state[7])
  }

  function Add(state: seq<Word>, r: Regs): (s: seq<Word>)
    requires |state| == 8
    ensures |s| == 8
  {
    [Plus(state[0], r.a), Plus(state[1], r.b), Plus(state[2], r.c), Plus(state[3], r.d),
     Plus(state[4], r.e), Plus(state[5], r.f), Plus(state[6], r.g), Plus(state[7], r.h)]
  }

  function Compress(state: seq<Word>, block: Str): (s: seq<Word>)
    requires |state| == 8 && |block| == 64
    ensures |s| == 8
  {
    Add(state, Rounds(Load(state), block, 64))
  }

  /** The whole 64-byte blocks of a message, one after the other; a rest is not hashed. */
  function Blocks(state: seq<Word>, m: Str): (s: seq<Word>)
    requires |state| == 8
    ensures |s| == 8
    decreases |m|
  {
    if |m| < 64 then state else Blocks(Compress(state, m[..64]), m[64..])
  }

  // ----- section 5.1.1: padding -----

  function Zeros(n: nat): (r: Str)
    ensures |r| == n && forall i :: 0 <= i < n ==> r[i] == 0
  {
    seq(n, _ => 0)
  }

  /** How many zero bytes follow the 0x80 byte. */
  function PadZeros(n: nat): nat {
    (55 - n) % 64
  }

  /** The length field holds the number of bits modulo 2^64. */
  function Padded(m: Str): Str {
    m + [0x80] + Zeros(PadZeros(|m|)) + BE((8 * |m|) % U64, 8)
  }

  /** It is the least number that leaves room for exactly the length field in the last block. */
  lemma PadZerosIsLeast(n: nat, k: nat)
    ensures k == PadZeros(n) <==> k < 64 && (n + 1 + k + 8) % 64 == 0
  {
  }

  function HexDigit(n: nat): byte
    requires n < 16
  {
    if n < 10 then 48 + n else 87 + n
  }

  /** How far the i-th half byte, counted from the high end, is from the low end. */
  function Offset(i: nat): (o: Word)
    requires i < 8
    ensures o <= 28
  {
    if i == 0 then 28 else if i == 1 then 24 else if i == 2 then 20 else if i == 3 then 16
    else if i == 4 then 12 else if i == 5 then 8 else if i == 6 then 4 else 0
  }

  function Nibble(w: Word, i: nat): nat
    requires i < 8
  {
    ((w >> Offset(i)) & 0xf) as nat
  }

  function HexWord(w: Word, n: nat): (r: Str)
    requires n <= 8
    ensures |r| == n
  {
    if n == 0 then [] else
      NibbleBound(w, n - 1);
      HexWord(w, n - 1) + [HexDigit(Nibble(w, n - 1))]
  }

  lemma NibbleBound(w: Word, i: nat)
    requires i < 8
    ensures Nibble(w, i) < 16
  {
    var x := (w >> Offset(i)) & 0xf;
    assert x <= 0xf;
  }

  function Hex(state: seq<Word>): Str {
    if state == [] then [] else Hex(state[..|state| - 1]) + HexWord(state[|state| - 1], 8)
  }

  function Hash(m: Str): Str {
    Hex(Blocks(Init(), Padded(m)))
  }

  // ----- facts about whole messages -----

  lemma {:induction false} BlocksSnoc(state: seq<Word>, m: Str, block: Str)
    requires |state| == 8 && |m| % 64 == 0 && |block| == 64
    ensures Blocks(state, m + block) == Compress(Blocks(state, m), block)
    decreases |m|
  {
    hide Compress;
    if m == [] {
      assert m + block == block && block[..64] == block && block[64..] == [];
      assert Blocks(Compress(state, block), []) == Compress(state, block);
    } else {
      assert |m| >= 64;
      assert (m + block)[..64] == m[..64] && (m + block)[64..] == m[64..] + block;
      BlocksSnoc(Compress(state, m[..64]), m[64..], block);
    }
  }

  // ----- the compression function in code -----

  /** The code adds the four terms in the opposite order. */
  lemma Sum4Reversed(a: Word, b: Word, c: Word, d: Word)
    ensures Sum4(a, b, c, d) == Sum4(d, c, b, a)
  {
  }

  lemma WStart(block: Str, t: nat)
    requires |block| == 64 && t < 16
    ensures W(block, t) == BlockWord(block, t)
  {
    hide BlockWord;
  }

  lemma WStep(block: Str, t: nat)
    requires |block| == 64 && 16 <= t < 64
    ensures W(block, t) == Sum4(W(block, t - 16), SmallSigma0(W(block, t - 15)), W(block, t - 7), SmallSigma1(W(block, t - 2)))
  {
    hide SmallSigma0, SmallSigma1, Sum4, BlockWord;
    Sum4Reversed(SmallSigma1(W(block, t - 2)), W(block, t - 7), SmallSigma0(W(block, t - 15)), W(block, t - 16));
  }

  method Schedule(block: Str) returns (w: array<Word>)
    requires |block| == 64
    ensures fresh(w) && w.Length == 64 && forall t :: 0 <= t < 64 ==> w[t] == W(block, t)
  {
    hide SmallSigma0, SmallSigma1, BlockWord, W, Sum4;
    w := new Word[64];
    for i := 0 to 16
      invariant forall t :: 0 <= t < i ==> w[t] == W(block, t)
    {
      WStart(block, i);
      w[i] := BlockWord(block, i);
    }
    for i := 16 to 64
      invariant forall t :: 0 <= t < i ==> w[t] == W(block, t)
    {
      WStep(block, i);
      var s0 := SmallSigma0(w[i - 15]);
      var s1 := SmallSigma1(w[i - 2]);
      w[i] := Sum4(w[i - 16], s0, w[i - 7], s1);
    }
  }

  /** Compresses one block into the eight state words. */
  method ProcessBlock(state: array<Word>, block: Str)
    requires state.Length == 8 && |block| == 64
    modifies state
    ensures state[..] == Compress(old(state[..]), block)
  {
    hide W, BigSigma0, BigSigma1, Ch, Maj, K, Rounds, Add, Plus;
    var w := Schedule(block);
    ghost var start := Load(state[..]);
    RoundsStart(start, block);
    var a, b, c, d := state[0], state[1], state[2], state[3];
    var e, f, g, h := state[4], state[5], state[6], state[7];
    for i := 0 to 64
      invariant Regs(a, b, c, d, e, f, g, h) == Rounds(start, block, i)
      invariant unchanged(state) && forall t :: 0 <= t < 64 ==> w[t] == W(block, t)
    {
      RoundsStep(start, block, i);
      var temp1 := Plus(Plus(Plus(Plus(h, BigSigma1(e)), Ch(e, f, g)), K(i)), w[i]);
      var temp2 := Plus(BigSigma0(a), Maj(a, b, c));
      h := g;
      g := f;
      f := e;
      e := Plus(d, temp1);
      d := c;
      c := b;
      b := a;
      a := Plus(temp1, temp2);
    }
    assert state[..] == old(state[..]);
    Accumulate(state, Regs(a, b, c, d, e, f, g, h));
  }

  lemma RoundsStart(r: Regs, block: Str)
    requires |block| == 64
    ensures Rounds(r, block, 0) == r
  {
  }

  lemma RoundsStep(r: Regs, block: Str, n: nat)
    requires |block| == 64 && n < 64
    ensures Rounds(r, block, n + 1) == Round(Rounds(r, block, n), K(n), W(block, n))
  {
    hide Round, K, W;
  }

  method Accumulate(state: array<Word>, r: Regs)
    requires state.Length == 8
    modifies state
    ensures state[..] == Add(old(state[..]), r)
  {
    hide Plus;
    state[0] := Plus(state[0], r.a);
    state[1] := Plus(state[1], r.b);
    state[2] := Plus(state[2], r.c);
    state[3] := Plus(state[3], r.d);
    state[4] := Plus(state[4], r.e);
    state[5] := Plus(state[5], r.f);
    state[6] := Plus(state[6], r.g);
    state[7] := Plus(state[7], r.h);
    assert state[..] == [state[0], state[1], state[2], state[3], state[4], state[5], state[6], state[7]];
  }

  // ----- the streaming object -----

  function Rest(m: Str): Str {
    m[|m| - |m| % 64..]
  }

  function Full(m: Str): Str {
    m[..|m| - |m| % 64]
  }

  /** The state has the whole blocks of m in it, and the buffer holds the rest. */
  ghost predicate Holding(state: seq<Word>, buffered: Str, m: Str) {
    state == Blocks(Init(), Full(m)) && buffered == Rest(m)
  }

  class Sha256 {
    const state: array<Word>
    const buffer: array<byte>
    var bufferLen: nat
    var bitCount: nat
    // Everything fed since the last reset.
    ghost var message: Str

    ghost predicate Buffered()
      reads this, state, buffer
    {
      && state.Length == 8 && buffer.Length == 64 && bufferLen == |message| % 64
      && Holding(state[..], buffer[..bufferLen], message)
    }

    ghost predicate Valid()
      reads this, state, buffer
    {
      Buffered() && bitCount == (8 * |message|) % U64
    }

    constructor ()
      ensures Valid() && message == [] && fresh(state) && fresh(buffer)
    {
      state := new Word[8];
      buffer := new byte[64];
      bufferLen, bitCount, message := 0, 0, [];
      new;
      Reset();
    }

    method Reset()
      requires state.Length == 8 && buffer.Length == 64
      modifies this, state
      ensures Valid() && message == []
    {
      hide Init, Holding;
      var init := Init();
      var i := 0;
      while i < 8
        invariant 0 <= i <= 8 && |init| == 8 && forall t :: 0 <= t < i ==> state[t] == init[t]
      {
        state[i] := init[i];
        i := i + 1;
      }
      assert state[..] == init;
      bufferLen, bitCount, message := 0, 0, [];
      assert buffer[..0] == [];
      HoldsNothing();
    }

    /** Copies a chunk that fits into the buffer, and compresses a full buffer. */
    method Fill(chunk: Str)
      requires Buffered() && 0 < |chunk| <= 64 - bufferLen
      modifies this`bufferLen, this`message, state, buffer
      ensures Buffered() && message == old(message) + chunk
    {
      hide Holding, Compress;
      var n := bufferLen;
      forall i | 0 <= i < |chunk| {
        buffer[n + i] := chunk[i];
      }
      assert buffer[..n + |chunk|] == old(buffer[..bufferLen]) + chunk;
      assert state[..] == old(state[..]);
      HoldsMore(state[..], old(buffer[..bufferLen]), message, chunk);
      message := message + chunk;
      bufferLen := bufferLen + |chunk|;
      if bufferLen == 64 {
        assert buffer[..] == buffer[..64];
        ProcessBlock(state, buffer[..]);
        bufferLen := 0;
        assert buffer[..0] == [];
      }
    }

    /** However the input is cut into calls, only its concatenation counts. */
    method Update(data: Str)
      requires Valid()
      modifies this, state, buffer
      ensures Valid() && message == old(message) + data
    {
      hide Holding;
      AddMod(8 * |message|, 8 * |data|);
      bitCount := (bitCount + 8 * |data|) % U64;
      Feed(data);
    }

    /** The loop of Update. */
    method Feed(data: Str)
      requires Buffered()
      modifies this`bufferLen, this`message, state, buffer
      ensures Buffered() && message == old(message) + data
    {
      hide Holding;
      var off := 0;
      assert data[..0] == [];
      while off < |data|
        invariant 0 <= off <= |data| && Buffered() && message == old(message) + data[..off]
      {
        var take := 64 - bufferLen;
        if take > |data| - off {
          take := |data| - off;
        }
        assert data[..off] + data[off..off + take] == data[..off + take];
        Fill(data[off..off + take]);
        off := off + take;
      }
      assert data[..|data|] == data;
    }

    /** The digest of everything fed, in hex. The object needs a reset before it is used again. */
    method HexDigest() returns (out: Str)
      requires Valid()
      modifies this, state, buffer
      ensures out == Hash(old(message))
    {
      hide Holding, Hex, Padded, BE, PadZeros, Blocks, Compress;
      ghost var m := message;
      var totalBits := bitCount;
      Pad();
      ghost var kept, before := buffer[..56], state[..];
      AppendLength(totalBits);
      LastBlock(m, message, before, kept, totalBits);
      ProcessBlock(state, buffer[..]);
      bufferLen := 0;
      out := ToHex(state);
    }

    /** The 0x80 byte, and zeros up to the place of the length field. */
    method Pad()
      requires Valid()
      modifies this, state, buffer
      ensures Buffered() && bufferLen == 56 && message == old(message) + [0x80] + Zeros(PadZeros(|old(message)|))
    {
      hide Holding, Zeros, Gap, PadZeros;
      ghost var m := message;
      Update([0x80]);
      ghost var j := 0;
      assert m + [0x80] == m + [0x80] + Zeros(0);
      PadStart(|m|);
      GapAt(|message|);
      while bufferLen != 56
        invariant Valid() && message == m + [0x80] + Zeros(j)
        invariant j + Gap(|message|) == PadZeros(|m|) && (Gap(|message|) == 0 <==> bufferLen == 56)
        decreases Gap(|message|)
      {
        PadNext(|message|);
        Update([0]);
        GapAt(|message|);
        assert m + [0x80] + Zeros(j) + [0] == m + [0x80] + Zeros(j + 1);
        j := j + 1;
      }
    }

    /** The length field goes straight into the buffer. */
    method AppendLength(totalBits: nat)
      requires buffer.Length == 64 && bufferLen == 56
      modifies this`bufferLen, buffer
      ensures bufferLen == 64 && buffer[..] == old(buffer[..56]) + BE(totalBits, 8)
    {
      hide BE;
      var i := 0;
      while i < 8
        invariant 0 <= i <= 8 && bufferLen == 56 + i && buffer[..56] == old(buffer[..56])
        invariant forall t :: 56 <= t < 56 + i ==> buffer[t] == BE(totalBits, 8)[t - 56]
      {
        BEAt(totalBits, 8, i);
        buffer[bufferLen] := (totalBits / Pow256(7 - i)) % 256;
        bufferLen := bufferLen + 1;
        i := i + 1;
      }
      assert buffer[..] == buffer[..56] + buffer[56..];
      assert buffer[56..] == BE(totalBits, 8);
    }
  }

  lemma HoldsNothing()
    ensures Holding(Init(), [], [])
  {
    hide Init;
    assert Blocks(Init(), []) == Init();
  }

  /** The zero bytes still missing when n bytes are in. */
  function Gap(n: nat): nat {
    (56 - n % 64) % 64
  }

  lemma GapAt(n: nat)
    ensures Gap(n) == 0 <==> n % 64 == 56
  {
  }

  lemma PadStart(n: nat)
    ensures Gap(n + 1) == PadZeros(n)
  {
  }

  lemma PadNext(n: nat)
    requires n % 64 != 56
    ensures Gap(n + 1) == Gap(n) - 1
  {
  }

  lemma AddMod(a: nat, b: nat)
    ensures (a % U64 + b) % U64 == (a + b) % U64
  {
  }

  lemma HoldsMore(state: seq<Word>, buffered: Str, m: Str, chunk: Str)
    requires |state| == 8 && Holding(state, buffered, m) && 0 < |chunk| <= 64 - |m| % 64
    ensures |buffered| == |m| % 64
    ensures |m| % 64 + |chunk| < 64 ==> |m + chunk| % 64 == |m| % 64 + |chunk| && Holding(state, buffered + chunk, m + chunk)
    ensures |m| % 64 + |chunk| == 64 ==> |m + chunk| % 64 == 0 && Holding(Compress(state, buffered + chunk), [], m + chunk)
  {
    hide Blocks, Compress, Init;
    assert m == Full(m) + Rest(m);
    if |m| % 64 + |chunk| < 64 {
      assert Full(m + chunk) == Full(m) && Rest(m + chunk) == Rest(m) + chunk;
    } else {
      assert Full(m + chunk) == Full(m) + (Rest(m) + chunk) && Rest(m + chunk) == [];
      BlocksSnoc(Init(), Full(m), Rest(m) + chunk);
    }
  }

  /** The buffer that the length field completes is the last block of the padded message. */
  lemma LastBlock(m: Str, message: Str, state: seq<Word>, buffered: Str, bits: nat)
    requires message == m + [0x80] + Zeros(PadZeros(|m|)) && |message| % 64 == 56 && bits == (8 * |m|) % U64
    requires |state| == 8 && Holding(state, buffered, message)
    ensures |buffered| == 56 && Blocks(Init(), Padded(m)) == Compress(state, buffered + BE(bits, 8))
  {
    hide Blocks, Compress, BE, Zeros, Init, PadZeros;
    assert message == Full(message) + Rest(message);
    assert Padded(m) == Full(message) + (Rest(message) + BE(bits, 8));
    BlocksSnoc(Init(), Full(message), Rest(message) + BE(bits, 8));
  }

  method ToHex(state: array<Word>) returns (out: Str)
    ensures out == Hex(state[..])
  {
    out := [];
    var i := 0;
    while i < state.Length
      invariant 0 <= i <= state.Length && out == Hex(state[..i])
    {
      var digits := WordHex(state[i]);
      assert state[..i + 1][..i] == state[..i];
      out := out + digits;
      i := i + 1;
    }
    assert state[..] == state[..i];
  }

  method WordHex(w: Word) returns (out: Str)
    ensures out == HexWord(w, 8)
  {
    hide Nibble;
    out := [];
    var i := 0;
    while i < 8
      invariant 0 <= i <= 8 && out == HexWord(w, i)
    {
      NibbleBound(w, i);
      out := out + [HexDigit(Nibble(w, i))];
      i := i + 1;
    }
  }

  /** One-shot hashing agrees with any way of feeding the same bytes. */
  method Sha256Hex(data: Str) returns (out: Str)
    ensures out == Hash(data)
  {
    var h := new Sha256();
    h.Update(data);
    assert [] + data == data;
    out := h.HexDigest();
  }
}
