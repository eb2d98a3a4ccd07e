/** The digest of "abc", the one-block example of FIPS 180, worked out step by step. */
module Sha256Vector {
  import opened ByteStrings
  import opened Wire
  import opened Sha256

  const ABC: Str := [97, 98, 99]

  function Block(): (b: Str)
    ensures |b| == 64 && b[0] == 97 && b[1] == 98 && b[2] == 99 && b[3] == 0x80 && b[63] == 24
    ensures forall i :: 4 <= i < 63 ==> b[i] == 0
  {
    ABC + [0x80] + Zeros(59) + [24]
  }

  lemma LengthField()
    ensures BE(24, 8) == Zeros(7) + [24]
  {
    hide BE;
    forall i | 0 <= i < 8
      ensures BE(24, 8)[i] == if i == 7 then 24 else 0
    {
      BEAt(24, 8, i);
      if i < 7 {
        Large(7 - i);
      } else {
        assert Pow256(0) == 1;
      }
    }
  }

  lemma Large(k: nat)
    requires k > 0
    ensures 24 / Pow256(k) == 0
  {
    Below(24, Pow256(k));
  }

  lemma Below(v: nat, p: nat)
    requires v < p
    ensures v / p == 0
  {
  }

  lemma PaddedAbc()
    ensures Padded(ABC) == Block()
  {
    hide BE, Zeros;
    LengthField();
    assert Zeros(52) + (Zeros(7) + [24]) == Zeros(59) + [24];
    assert Padded(ABC) == ABC + [0x80] + Zeros(52) + BE(24, 8);
  }

  // ----- the schedule -----

  lemma FirstWords(b: Str, t: nat)
    requires b == Block() && t < 16
    ensures W(b, t) == if t == 0 then 0x61626380 else if t == 15 then 24 else 0
  {
    hide Block;
    assert b[4 * t] as bv32 == if t == 0 then 97 else 0;
    assert b[4 * t + 1] as bv32 == if t == 0 then 98 else 0;
    assert b[4 * t + 2] as bv32 == if t == 0 then 99 else 0;
    assert b[4 * t + 3] as bv32 == if t == 0 then 0x80 else if t == 15 then 24 else 0;
  }

  lemma NextWord(m: Str, t: nat, a: Word, b: Word, c: Word, d: Word, w: Word)
    requires |m| == 64 && 16 <= t < 64 && W(m, t - 2) == a && W(m, t - 7) == b && W(m, t - 15) == c && W(m, t - 16) == d
    requires Sum4(SmallSigma1(a), b, SmallSigma0(c), d) == w
    ensures W(m, t) == w
  {
    hide SmallSigma0, SmallSigma1, Sum4, BlockWord;
  }

  lemma Words0(b: Str)
    requires b == Block()
    ensures W(b, 0) == 0x61626380 && W(b, 1) == 0x00000000 && W(b, 2) == 0x00000000 && W(b, 3) == 0x00000000
    ensures W(b, 4) == 0x00000000 && W(b, 5) == 0x00000000 && W(b, 6) == 0x00000000 && W(b, 7) == 0x00000000
  {
    hide W, Block;
    FirstWords(b, 0);
    FirstWords(b, 1);
    FirstWords(b, 2);
    FirstWords(b, 3);
    FirstWords(b, 4);
    FirstWords(b, 5);
    FirstWords(b, 6);
    FirstWords(b, 7);
  }

  lemma Words1(b: Str)
    requires b == Block()
    ensures W(b, 8) == 0x00000000 && W(b, 9) == 0x00000000 && W(b, 10) == 0x00000000 && W(b, 11) == 0x00000000
    ensures W(b, 12) == 0x00000000 && W(b, 13) == 0x00000000 && W(b, 14) == 0x00000000 && W(b, 15) == 0x00000018
  {
    hide W, Block;
    FirstWords(b, 8);
    FirstWords(b, 9);
    FirstWords(b, 10);
    FirstWords(b, 11);
    FirstWords(b, 12);
    FirstWords(b, 13);
    FirstWords(b, 14);
    FirstWords(b, 15);
  }

  lemma Words2(b: Str)
    requires b == Block()
    ensures W(b, 16) == 0x61626380 && W(b, 17) == 0x000f0000 && W(b, 18) == 0x7da86405 && W(b, 19) == 0x600003c6
    ensures W(b, 20) == 0x3e9d7b78 && W(b, 21) == 0x0183fc00 && W(b, 22) == 0x12dcbfdb && W(b, 23) == 0xe2e2c38e
  {
    hide W, Block;
    Words0(b);
    Words1(b);
    NextWord(b, 16, 0x00000000, 0x00000000, 0x00000000, 0x61626380, 0x61626380);
    NextWord(b, 17, 0x00000018, 0x00000000, 0x00000000, 0x00000000, 0x000f0000);
    NextWord(b, 18, 0x61626380, 0x00000000, 0x00000000, 0x00000000, 0x7da86405);
    NextWord(b, 19, 0x000f0000, 0x00000000, 0x00000000, 0x00000000, 0x600003c6);
    NextWord(b, 20, 0x7da86405, 0x00000000, 0x00000000, 0x00000000, 0x3e9d7b78);
    NextWord(b, 21, 0x600003c6, 0x00000000, 0x00000000, 0x00000000, 0x0183fc00);
    NextWord(b, 22, 0x3e9d7b78, 0x00000018, 0x00000000, 0x00000000, 0x12dcbfdb);
    NextWord(b, 23, 0x0183fc00, 0x61626380, 0x00000000, 0x00000000, 0xe2e2c38e);
  }

  lemma Words3(b: Str)
    requires b == Block()
    ensures W(b, 24) == 0xc8215c1a && W(b, 25) == 0xb73679a2 && W(b, 26) == 0xe5bc3909 && W(b, 27) == 0x32663c5b
    ensures W(b, 28) == 0x9d209d67 && W(b, 29) == 0xec8726cb && W(b, 30) == 0x702138a4 && W(b, 31) == 0xd3b7973b
  {
    hide W, Block;
    Words1(b);
    Words2(b);
    NextWord(b, 24, 0x12dcbfdb, 0x000f0000, 0x00000000, 0x00000000, 0xc8215c1a);
    NextWord(b, 25, 0xe2e2c38e, 0x7da86405, 0x00000000, 0x00000000, 0xb73679a2);
    NextWord(b, 26, 0xc8215c1a, 0x600003c6, 0x00000000, 0x00000000, 0xe5bc3909);
    NextWord(b, 27, 0xb73679a2, 0x3e9d7b78, 0x00000000, 0x00000000, 0x32663c5b);
    NextWord(b, 28, 0xe5bc3909, 0x0183fc00, 0x00000000, 0x00000000, 0x9d209d67);
    NextWord(b, 29, 0x32663c5b, 0x12dcbfdb, 0x00000000, 0x00000000, 0xec8726cb);
    NextWord(b, 30, 0x9d209d67, 0xe2e2c38e, 0x00000018, 0x00000000, 0x702138a4);
    NextWord(b, 31, 0xec8726cb, 0xc8215c1a, 0x61626380, 0x00000018, 0xd3b7973b);
  }

  lemma Words4(b: Str)
    requires b == Block()
    ensures W(b, 32) == 0x93f5997f && W(b, 33) == 0x3b68ba73 && W(b, 34) == 0xaff4ffc1 && W(b, 35) == 0xf10a5c62
    ensures W(b, 36) == 0x0a8b3996 && W(b, 37) == 0x72af830a && W(b, 38) == 0x9409e33e && W(b, 39) == 0x24641522
  {
    hide W, Block;
    Words2(b);
    Words3(b);
    NextWord(b, 32, 0x702138a4, 0xb73679a2, 0x000f0000, 0x61626380, 0x93f5997f);
    NextWord(b, 33, 0xd3b7973b, 0xe5bc3909, 0x7da86405, 0x000f0000, 0x3b68ba73);
    NextWord(b, 34, 0x93f5997f, 0x32663c5b, 0x600003c6, 0x7da86405, 0xaff4ffc1);
    NextWord(b, 35, 0x3b68ba73, 0x9d209d67, 0x3e9d7b78, 0x600003c6, 0xf10a5c62);
    NextWord(b, 36, 0xaff4ffc1, 0xec8726cb, 0x0183fc00, 0x3e9d7b78, 0x0a8b3996);
    NextWord(b, 37, 0xf10a5c62, 0x702138a4, 0x12dcbfdb, 0x0183fc00, 0x72af830a);
    NextWord(b, 38, 0x0a8b3996, 0xd3b7973b, 0xe2e2c38e, 0x12dcbfdb, 0x9409e33e);
    NextWord(b, 39, 0x72af830a, 0x93f5997f, 0xc8215c1a, 0xe2e2c38e, 0x24641522);
  }

  lemma Words5(b: Str)
    requires b == Block()
    ensures W(b, 40) == 0x9f47bf94 && W(b, 41) == 0xf0a64f5a && W(b, 42) == 0x3e246a79 && W(b, 43) == 0x27333ba3
    ensures W(b, 44) == 0x0c4763f2 && W(b, 45) == 0x840abf27 && W(b, 46) == 0x7a290d5d && W(b, 47) == 0x065c43da
  {
    hide W, Block;
    Words3(b);
    Words4(b);
    NextWord(b, 40, 0x9409e33e, 0x3b68ba73, 0xb73679a2, 0xc8215c1a, 0x9f47bf94);
    NextWord(b, 41, 0x24641522, 0xaff4ffc1, 0xe5bc3909, 0xb73679a2, 0xf0a64f5a);
    NextWord(b, 42, 0x9f47bf94, 0xf10a5c62, 0x32663c5b, 0xe5bc3909, 0x3e246a79);
    NextWord(b, 43, 0xf0a64f5a, 0x0a8b3996, 0x9d209d67, 0x32663c5b, 0x27333ba3);
    NextWord(b, 44, 0x3e246a79, 0x72af830a, 0xec8726cb, 0x9d209d67, 0x0c4763f2);
    NextWord(b, 45, 0x27333ba3, 0x9409e33e, 0x702138a4, 0xec8726cb, 0x840abf27);
    NextWord(b, 46, 0x0c4763f2, 0x24641522, 0xd3b7973b, 0x702138a4, 0x7a290d5d);
    NextWord(b, 47, 0x840abf27, 0x9f47bf94, 0x93f5997f, 0xd3b7973b, 0x065c43da);
  }

  lemma Words6(b: Str)
    requires b == Block()
    ensures W(b, 48) == 0xfb3e89cb && W(b, 49) == 0xcc7617db && W(b, 50) == 0xb9e66c34 && W(b, 51) == 0xa9993667
    ensures W(b, 52) == 0x84badedd && W(b, 53) == 0xc21462bc && W(b, 54) == 0x1487472c && W(b, 55) == 0xb20f7a99
  {
    hide W, Block;
    Words4(b);
    Words5(b);
    NextWord(b, 48, 0x7a290d5d, 0xf0a64f5a, 0x3b68ba73, 0x93f5997f, 0xfb3e89cb);
    NextWord(b, 49, 0x065c43da, 0x3e246a79, 0xaff4ffc1, 0x3b68ba73, 0xcc7617db);
    NextWord(b, 50, 0xfb3e89cb, 0x27333ba3, 0xf10a5c62, 0xaff4ffc1, 0xb9e66c34);
    NextWord(b, 51, 0xcc7617db, 0x0c4763f2, 0x0a8b3996, 0xf10a5c62, 0xa9993667);
    NextWord(b, 52, 0xb9e66c34, 0x840abf27, 0x72af830a, 0x0a8b3996, 0x84badedd);
    NextWord(b, 53, 0xa9993667, 0x7a290d5d, 0x9409e33e, 0x72af830a, 0xc21462bc);
    NextWord(b, 54, 0x84badedd, 0x065c43da, 0x24641522, 0x9409e33e, 0x1487472c);
    NextWord(b, 55, 0xc21462bc, 0xfb3e89cb, 0x9f47bf94, 0x24641522, 0xb20f7a99);
  }

  lemma Words7(b: Str)
    requires b == Block()
    ensures W(b, 56) == 0xef57b9cd && W(b, 57) == 0xebe6b238 && W(b, 58) == 0x9fe3095e && W(b, 59) == 0x78bc8d4b
    ensures W(b, 60) == 0xa43fcf15 && W(b, 61) == 0x668b2ff8 && W(b, 62) == 0xeeaba2cc && W(b, 63) == 0x12b1edeb
  {
    hide W, Block;
    Words5(b);
    Words6(b);
    NextWord(b, 56, 0x1487472c, 0xcc7617db, 0xf0a64f5a, 0x9f47bf94, 0xef57b9cd);
    NextWord(b, 57, 0xb20f7a99, 0xb9e66c34, 0x3e246a79, 0xf0a64f5a, 0xebe6b238);
    NextWord(b, 58, 0xef57b9cd, 0xa9993667, 0x27333ba3, 0x3e246a79, 0x9fe3095e);
    NextWord(b, 59, 0xebe6b238, 0x84badedd, 0x0c4763f2, 0x27333ba3, 0x78bc8d4b);
    NextWord(b, 60, 0x9fe3095e, 0xc21462bc, 0x840abf27, 0x0c4763f2, 0xa43fcf15);
    NextWord(b, 61, 0x78bc8d4b, 0x1487472c, 0x7a290d5d, 0x840abf27, 0x668b2ff8);
    NextWord(b, 62, 0xa43fcf15, 0xb20f7a99, 0x065c43da, 0x7a290d5d, 0xeeaba2cc);
    NextWord(b, 63, 0x668b2ff8, 0xef57b9cd, 0xfb3e89cb, 0x065c43da, 0x12b1edeb);
  }

  // ----- the rounds -----

  function After(b: Str, n: nat): Regs
    requires |b| == 64 && n <= 64
  {
    Rounds(Load(Init()), b, n)
  }

  lemma Start(b: Str)
    requires |b| == 64
    ensures After(b, 0) == Regs(0x6a09e667, 0xbb67ae85, 0x3c6ef372, 0xa54ff53a, 0x510e527f, 0x9b05688c, 0x1f83d9ab, 0x5be0cd19)
  {
  }

  /** Round n yields a and e; the other registers move on. */
  lemma Step(b: Str, r: Regs, n: nat, k: Word, w: Word, a: Word, e: Word) returns (next: Regs)
    requires |b| == 64 && n < 64 && After(b, n) == r && K(n) == k && W(b, n) == w
    requires Round(r, k, w) == Regs(a, r.a, r.b, r.c, e, r.e, r.f, r.g)
    ensures next == Regs(a, r.a, r.b, r.c, e, r.e, r.f, r.g) && After(b, n + 1) == next
  {
    hide W, K, Round, Init, Load;
    next := Round(r, k, w);
  }

  lemma Rounds0(b: Str)
    requires b == Block()
    ensures After(b, 8) == Regs(0x85a07b5f, 0xe5030380, 0x2b4209f5, 0x04409a6a, 0x0c657a79, 0x9b27a401, 0x714260ad, 0x43ada245)
  {
    hide After, W, Block;
    Start(b);
    Words0(b);
    var r := Regs(0x6a09e667, 0xbb67ae85, 0x3c6ef372, 0xa54ff53a, 0x510e527f, 0x9b05688c, 0x1f83d9ab, 0x5be0cd19);
    r := Step(b, r, 0, 0x428a2f98, 0x61626380, 0x5d6aebcd, 0xfa2a4622);
    r := Step(b, r, 1, 0x71374491, 0x00000000, 0x5a6ad9ad, 0x78ce7989);
    r := Step(b, r, 2, 0xb5c0fbcf, 0x00000000, 0xc8c347a7, 0xf92939eb);
    r := Step(b, r, 3, 0xe9b5dba5, 0x00000000, 0xd550f666, 0x24e00850);
    r := Step(b, r, 4, 0x3956c25b, 0x00000000, 0x04409a6a, 0x43ada245);
    r := Step(b, r, 5, 0x59f111f1, 0x00000000, 0x2b4209f5, 0x714260ad);
    r := Step(b, r, 6, 0x923f82a4, 0x00000000, 0xe5030380, 0x9b27a401);
    r := Step(b, r, 7, 0xab1c5ed5, 0x00000000, 0x85a07b5f, 0x0c657a79);
  }

  lemma Rounds1(b: Str)
    requires b == Block()
    ensures After(b, 16) == Regs(0xb0fa238e, 0xc0645fde, 0xd932eb16, 0x87912990, 0x07590dcd, 0x0b92f20c, 0x745a48de, 0x1e578218)
  {
    hide After, W, Block;
    Rounds0(b);
    Words1(b);
    var r := Regs(0x85a07b5f, 0xe5030380, 0x2b4209f5, 0x04409a6a, 0x0c657a79, 0x9b27a401, 0x714260ad, 0x43ada245);
    r := Step(b, r, 8, 0xd807aa98, 0x00000000, 0x8e04ecb9, 0x32ca2d8c);
    r := Step(b, r, 9, 0x12835b01, 0x00000000, 0x8c87346b, 0x1cc92596);
    r := Step(b, r, 10, 0x243185be, 0x00000000, 0x4798a3f4, 0x436b23e8);
    r := Step(b, r, 11, 0x550c7dc3, 0x00000000, 0xf71fc5a9, 0x816fd6e9);
    r := Step(b, r, 12, 0x72be5d74, 0x00000000, 0x87912990, 0x1e578218);
    r := Step(b, r, 13, 0x80deb1fe, 0x00000000, 0xd932eb16, 0x745a48de);
    r := Step(b, r, 14, 0x9bdc06a7, 0x00000000, 0xc0645fde, 0x0b92f20c);
    r := Step(b, r, 15, 0xc19bf174, 0x00000018, 0xb0fa238e, 0x07590dcd);
  }

  lemma Rounds2(b: Str)
    requires b == Block()
    ensures After(b, 24) == Regs(0xc5d53d8d, 0xa7a3623f, 0xc2606d6d, 0x9dc68b63, 0xaa47c347, 0x49f5114a, 0xe1257970, 0x8ada8930)
  {
    hide After, W, Block;
    Rounds1(b);
    Words2(b);
    var r := Regs(0xb0fa238e, 0xc0645fde, 0xd932eb16, 0x87912990, 0x07590dcd, 0x0b92f20c, 0x745a48de, 0x1e578218);
    r := Step(b, r, 16, 0xe49b69c1, 0x61626380, 0x21da9a9b, 0x8034229c);
    r := Step(b, r, 17, 0xefbe4786, 0x000f0000, 0xc2fbd9d1, 0x846ee454);
    r := Step(b, r, 18, 0x0fc19dc6, 0x7da86405, 0xfe777bbf, 0xcc899961);
    r := Step(b, r, 19, 0x240ca1cc, 0x600003c6, 0xe1f20c33, 0xb0638179);
    r := Step(b, r, 20, 0x2de92c6f, 0x3e9d7b78, 0x9dc68b63, 0x8ada8930);
    r := Step(b, r, 21, 0x4a7484aa, 0x0183fc00, 0xc2606d6d, 0xe1257970);
    r := Step(b, r, 22, 0x5cb0a9dc, 0x12dcbfdb, 0xa7a3623f, 0x49f5114a);
    r := Step(b, r, 23, 0x76f988da, 0xe2e2c38e, 0xc5d53d8d, 0xaa47c347);
  }

  lemma Rounds3(b: Str)
    requires b == Block()
    ensures After(b, 32) == Regs(0x73b33bf5, 0xea992a22, 0xa0060b30, 0x363482c9, 0xba591112, 0x0109ab3a, 0xade79437, 0x6112a3b7)
  {
    hide After, W, Block;
    Rounds2(b);
    Words3(b);
    var r := Regs(0xc5d53d8d, 0xa7a3623f, 0xc2606d6d, 0x9dc68b63, 0xaa47c347, 0x49f5114a, 0xe1257970, 0x8ada8930);
    r := Step(b, r, 24, 0x983e5152, 0xc8215c1a, 0x1c2c2838, 0x2823ef91);
    r := Step(b, r, 25, 0xa831c66d, 0xb73679a2, 0xcde8037d, 0x14383d8e);
    r := Step(b, r, 26, 0xb00327c8, 0xe5bc3909, 0xb62ec4bc, 0xc74c6516);
    r := Step(b, r, 27, 0xbf597fc7, 0x32663c5b, 0x77d37528, 0xedffbff8);
    r := Step(b, r, 28, 0xc6e00bf3, 0x9d209d67, 0x363482c9, 0x6112a3b7);
    r := Step(b, r, 29, 0xd5a79147, 0xec8726cb, 0xa0060b30, 0xade79437);
    r := Step(b, r, 30, 0x06ca6351, 0x702138a4, 0xea992a22, 0x0109ab3a);
    r := Step(b, r, 31, 0x14292967, 0xd3b7973b, 0x73b33bf5, 0xba591112);
  }

  lemma Rounds4(b: Str)
    requires b == Block()
    ensures After(b, 40) == Regs(0x79ea687a, 0x6dc57a8a, 0x34df1604, 0x41a65cb1, 0x1efbc0a0, 0xf0781bc8, 0xa507a53d, 0x0772a26b)
  {
    hide After, W, Block;
    Rounds3(b);
    Words4(b);
    var r := Regs(0x73b33bf5, 0xea992a22, 0xa0060b30, 0x363482c9, 0xba591112, 0x0109ab3a, 0xade79437, 0x6112a3b7);
    r := Step(b, r, 32, 0x27b70a85, 0x93f5997f, 0x98e12507, 0x9cd9f5f6);
    r := Step(b, r, 33, 0x2e1b2138, 0x3b68ba73, 0xfe604df5, 0x59249dd3);
    r := Step(b, r, 34, 0x4d2c6dfc, 0xaff4ffc1, 0xa9a7738c, 0x085f3833);
    r := Step(b, r, 35, 0x53380d13, 0xf10a5c62, 0x65a0cfe4, 0xf4b002d6);
    r := Step(b, r, 36, 0x650a7354, 0x0a8b3996, 0x41a65cb1, 0x0772a26b);
    r := Step(b, r, 37, 0x766a0abb, 0x72af830a, 0x34df1604, 0xa507a53d);
    r := Step(b, r, 38, 0x81c2c92e, 0x9409e33e, 0x6dc57a8a, 0xf0781bc8);
    r := Step(b, r, 39, 0x92722c85, 0x24641522, 0x79ea687a, 0x1efbc0a0);
  }

  lemma Rounds5(b: Str)
    requires b == Block()
    ensures After(b, 48) == Regs(0x4172328d, 0xa14c14b0, 0x72ab4b91, 0x26628815, 0xfecf0bc6, 0xd57b94a9, 0xb7755da1, 0xa80f11f0)
  {
    hide After, W, Block;
    Rounds4(b);
    Words5(b);
    var r := Regs(0x79ea687a, 0x6dc57a8a, 0x34df1604, 0x41a65cb1, 0x1efbc0a0, 0xf0781bc8, 0xa507a53d, 0x0772a26b);
    r := Step(b, r, 40, 0xa2bfe8a1, 0x9f47bf94, 0xd6670766, 0x26352d63);
    r := Step(b, r, 41, 0xa81a664b, 0xf0a64f5a, 0xdf46652f, 0x838b2711);
    r := Step(b, r, 42, 0xc24b8b70, 0x3e246a79, 0x17aa0dfe, 0xdecd4715);
    r := Step(b, r, 43, 0xc76c51a3, 0x27333ba3, 0x9d4baf93, 0xfda24c2e);
    r := Step(b, r, 44, 0xd192e819, 0x0c4763f2, 0x26628815, 0xa80f11f0);
    r := Step(b, r, 45, 0xd6990624, 0x840abf27, 0x72ab4b91, 0xb7755da1);
    r := Step(b, r, 46, 0xf40e3585, 0x7a290d5d, 0xa14c14b0, 0xd57b94a9);
    r := Step(b, r, 47, 0x106aa070, 0x065c43da, 0x4172328d, 0xfecf0bc6);
  }

  lemma Rounds6(b: Str)
    requires b == Block()
    ensures After(b, 56) == Regs(0x38cc9913, 0x3ec45cdb, 0xf5702fdb, 0x101fd28f, 0x54cb266b, 0xe50e1b4f, 0x9f4787c3, 0x529e7d00)
  {
    hide After, W, Block;
    Rounds5(b);
    Words6(b);
    var r := Regs(0x4172328d, 0xa14c14b0, 0x72ab4b91, 0x26628815, 0xfecf0bc6, 0xd57b94a9, 0xb7755da1, 0xa80f11f0);
    r := Step(b, r, 48, 0x19a4c116, 0xfb3e89cb, 0x05757ceb, 0xbd714038);
    r := Step(b, r, 49, 0x1e376c08, 0xcc7617db, 0xf11bfaa8, 0x6e5c390c);
    r := Step(b, r, 50, 0x2748774c, 0xb9e66c34, 0x7a0508a1, 0x52f1ccf7);
    r := Step(b, r, 51, 0x34b0bcb5, 0xa9993667, 0x886e7a22, 0x49231c1e);
    r := Step(b, r, 52, 0x391c0cb3, 0x84badedd, 0x101fd28f, 0x529e7d00);
    r := Step(b, r, 53, 0x4ed8aa4a, 0xc21462bc, 0xf5702fdb, 0x9f4787c3);
    r := Step(b, r, 54, 0x5b9cca4f, 0x1487472c, 0x3ec45cdb, 0xe50e1b4f);
    r := Step(b, r, 55, 0x682e6ff3, 0xb20f7a99, 0x38cc9913, 0x54cb266b);
  }

  lemma Rounds7(b: Str)
    requires b == Block()
    ensures After(b, 64) == Regs(0x506e3058, 0xd39a2165, 0x04d24d6c, 0xb85e2ce9, 0x5ef50f24, 0xfb121210, 0x948d25b6, 0x961f4894)
  {
    hide After, W, Block;
    Rounds6(b);
    Words7(b);
    var r := Regs(0x38cc9913, 0x3ec45cdb, 0xf5702fdb, 0x101fd28f, 0x54cb266b, 0xe50e1b4f, 0x9f4787c3, 0x529e7d00);
    r := Step(b, r, 56, 0x748f82ee, 0xef57b9cd, 0xfcd1887b, 0x9b5e906c);
    r := Step(b, r, 57, 0x78a5636f, 0xebe6b238, 0xc062d46f, 0x7e44008e);
    r := Step(b, r, 58, 0x84c87814, 0x9fe3095e, 0xffb70472, 0x6d83bfc6);
    r := Step(b, r, 59, 0x8cc70208, 0x78bc8d4b, 0xb6ae8fff, 0xb21bad3d);
    r := Step(b, r, 60, 0x90befffa, 0xa43fcf15, 0xb85e2ce9, 0x961f4894);
    r := Step(b, r, 61, 0xa4506ceb, 0x668b2ff8, 0x04d24d6c, 0x948d25b6);
    r := Step(b, r, 62, 0xbef9a3f7, 0xeeaba2cc, 0xd39a2165, 0xfb121210);
    r := Step(b, r, 63, 0xc67178f2, 0x12b1edeb, 0x506e3058, 0x5ef50f24);
  }

  // ----- the digest -----

  const STATE: seq<Word> := [0xba7816bf, 0x8f01cfea, 0x414140de, 0x5dae2223, 0xb00361a3, 0x96177a9c, 0xb410ff61, 0xf20015ad]

  lemma OneBlock(state: seq<Word>, b: Str)
    requires |state| == 8 && |b| == 64
    ensures Blocks(state, b) == Compress(state, b)
  {
    hide Compress;
    assert b[..64] == b && b[64..] == [];
    assert Blocks(Compress(state, b), []) == Compress(state, b);
  }

  lemma Digest()
    ensures Blocks(Init(), Padded(ABC)) == STATE
  {
    hide Rounds, Block, Padded, Blocks;
    PaddedAbc();
    OneBlock(Init(), Block());
    Rounds7(Block());
    assert After(Block(), 64) == Rounds(Load(Init()), Block(), 64);
  }

  lemma HexOf(w: Word, ns: seq<nat>)
    requires |ns| == 8 && forall i :: 0 <= i < 8 ==> ns[i] < 16 && Nibble(w, i) == ns[i]
    ensures |HexWord(w, 8)| == 8 && forall i :: 0 <= i < 8 ==> HexWord(w, 8)[i] == HexDigit(ns[i])
  {
    hide Nibble;
    forall i | 0 <= i < 8
      ensures HexWord(w, 8)[i] == HexDigit(ns[i])
    {
      HexAt(w, 8, i);
    }
  }

  lemma {:induction false} HexAt(w: Word, n: nat, i: nat)
    requires i < n <= 8
    ensures Nibble(w, i) < 16 && HexWord(w, n)[i] == HexDigit(Nibble(w, i))
  {
    hide Nibble;
    NibbleBound(w, i);
    if i < n - 1 {
      HexAt(w, n - 1, i);
    }
  }

  lemma Hex0()
    ensures HexWord(0xba7816bf, 8) == [98, 97, 55, 56, 49, 54, 98, 102]
  {
    HexOf(0xba7816bf, [11, 10, 7, 8, 1, 6, 11, 15]);
  }

  lemma Hex1()
    ensures HexWord(0x8f01cfea, 8) == [56, 102, 48, 49, 99, 102, 101, 97]
  {
    HexOf(0x8f01cfea, [8, 15, 0, 1, 12, 15, 14, 10]);
  }

  lemma Hex2()
    ensures HexWord(0x414140de, 8) == [52, 49, 52, 49, 52, 48, 100, 101]
  {
    HexOf(0x414140de, [4, 1, 4, 1, 4, 0, 13, 14]);
  }

  lemma Hex3()
    ensures HexWord(0x5dae2223, 8) == [53, 100, 97, 101, 50, 50, 50, 51]
  {
    HexOf(0x5dae2223, [5, 13, 10, 14, 2, 2, 2, 3]);
  }

  lemma Hex4()
    ensures HexWord(0xb00361a3, 8) == [98, 48, 48, 51, 54, 49, 97, 51]
  {
    HexOf(0xb00361a3, [11, 0, 0, 3, 6, 1, 10, 3]);
  }

  lemma Hex5()
    ensures HexWord(0x96177a9c, 8) == [57, 54, 49, 55, 55, 97, 57, 99]
  {
    HexOf(0x96177a9c, [9, 6, 1, 7, 7, 10, 9, 12]);
  }

  lemma Hex6()
    ensures HexWord(0xb410ff61, 8) == [98, 52, 49, 48, 102, 102, 54, 49]
  {
    HexOf(0xb410ff61, [11, 4, 1, 0, 15, 15, 6, 1]);
  }

  lemma Hex7()
    ensures HexWord(0xf20015ad, 8) == [102, 50, 48, 48, 49, 53, 97, 100]
  {
    HexOf(0xf20015ad, [15, 2, 0, 0, 1, 5, 10, 13]);
  }

  lemma {:induction false} HexRow(s: seq<Word>, i: nat)
    requires i < |s|
    ensures |Hex(s)| == 8 * |s| && Hex(s)[8 * i..8 * i + 8] == HexWord(s[i], 8)
  {
    hide HexWord;
    var init := s[..|s| - 1];
    HexSize(s);
    HexSize(init);
    if i < |init| {
      HexRow(init, i);
      assert Hex(s)[8 * i..8 * i + 8] == Hex(init)[8 * i..8 * i + 8];
    } else {
      assert Hex(s)[8 * i..8 * i + 8] == HexWord(s[i], 8);
    }
  }

  lemma {:induction false} HexSize(s: seq<Word>)
    ensures |Hex(s)| == 8 * |s|
  {
    if s != [] {
      HexSize(s[..|s| - 1]);
    }
  }

  /** The published digest, in hexadecimal characters. */
  lemma AbcDigest()
    ensures |Hash(ABC)| == 64
    ensures Hash(ABC)[0..8] == [98, 97, 55, 56, 49, 54, 98, 102]
    ensures Hash(ABC)[8..16] == [56, 102, 48, 49, 99, 102, 101, 97]
    ensures Hash(ABC)[16..24] == [52, 49, 52, 49, 52, 48, 100, 101]
    ensures Hash(ABC)[24..32] == [53, 100, 97, 101, 50, 50, 50, 51]
    ensures Hash(ABC)[32..40] == [98, 48, 48, 51, 54, 49, 97, 51]
    ensures Hash(ABC)[40..48] == [57, 54, 49, 55, 55, 97, 57, 99]
    ensures Hash(ABC)[48..56] == [98, 52, 49, 48, 102, 102, 54, 49]
    ensures Hash(ABC)[56..64] == [102, 50, 48, 48, 49, 53, 97, 100]
  {
    hide HexWord, Hex, Blocks, Padded;
    Digest();
    HexRow(STATE, 0);
    Hex0();
    HexRow(STATE, 1);
    Hex1();
    HexRow(STATE, 2);
    Hex2();
    HexRow(STATE, 3);
    Hex3();
    HexRow(STATE, 4);
    Hex4();
    HexRow(STATE, 5);
    Hex5();
    HexRow(STATE, 6);
    Hex6();
    HexRow(STATE, 7);
    Hex7();
  }
}
