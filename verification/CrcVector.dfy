/** The check value that catalogues give for this CRC, worked out bit by bit. */
module CrcVector {
  import opened ByteStrings
  import opened Words
  import opened Crc

  lemma ReadsByte(data: Str, i: nat, c: bv32, b: byte, d: bv32)
    requires i < |data| && data[i] == b && CrcFrom(0xFFFFFFFF, data[..i]) == c && CrcByte(c, b) == d
    ensures CrcFrom(0xFFFFFFFF, data[..i + 1]) == d
  {
    hide CrcByte;
    assert data[..i + 1][..i] == data[..i];
  }

  /** One byte, bit by bit. */
  lemma EightBits(c: bv32, b: byte, w: bv32, c0: bv32, c1: bv32, c2: bv32, c3: bv32, c4: bv32, c5: bv32, c6: bv32, c7: bv32, c8: bv32)
    requires Word(b) == w && Xor(c, w) == c0 && CrcBit(c0) == c1 && CrcBit(c1) == c2 && CrcBit(c2) == c3 && CrcBit(c3) == c4
    requires CrcBit(c4) == c5 && CrcBit(c5) == c6 && CrcBit(c6) == c7 && CrcBit(c7) == c8
    ensures CrcByte(c, b) == c8
  {
    hide CrcBit, Xor, Word;
    NoBits(c0);
    assert CrcBits(c0, 1) == c1;
    assert CrcBits(c0, 2) == c2;
    assert CrcBits(c0, 3) == c3;
    assert CrcBits(c0, 4) == c4;
    assert CrcBits(c0, 5) == c5;
    assert CrcBits(c0, 6) == c6;
    assert CrcBits(c0, 7) == c7;
  }

  lemma OneMore(b: nat, n: nat, w: bv32, v: bv32)
    requires n > 0 && Digits(b / 2, n - 1) == w && v == (w << 1) | (if b % 2 == 1 then 1 else 0)
    ensures Digits(b, n) == v
  {
  }

  lemma Three()
    ensures Digits(3, 4) == 3
  {
  }

  /** The word of a byte whose high half is 3, bit by bit. */
  lemma FourMore(b: byte, w5: bv32, w6: bv32, w7: bv32, w8: bv32)
    requires b / 16 == 3
    requires w5 == (3 << 1) | (if (b / 8) % 2 == 1 then 1 else 0) && w6 == (w5 << 1) | (if (b / 4) % 2 == 1 then 1 else 0)
    requires w7 == (w6 << 1) | (if (b / 2) % 2 == 1 then 1 else 0) && w8 == (w7 << 1) | (if b % 2 == 1 then 1 else 0)
    ensures Word(b) == w8
  {
    hide Digits;
    Three();
    assert b / 2 / 2 == b / 4 && b / 4 / 2 == b / 8 && b / 8 / 2 == 3;
    OneMore(b / 8, 5, 3, w5);
    OneMore(b / 4, 6, w5, w6);
    OneMore(b / 2, 7, w6, w7);
    OneMore(b, 8, w7, w8);
  }

  lemma Word49()
    ensures Word(49) == 0x31
  {
    FourMore(49, 6, 12, 24, 49);
  }

  lemma Digit1()
    ensures CrcByte(0xFFFFFFFF, 49) == 0x7C231048
  {
    hide Word;
    Word49();
    EightBits(0xFFFFFFFF, 49, 0x31, 0xFFFFFFCE, 0x7FFFFFE7, 0xD2477CD3, 0x849B3D49,
              0xAFF51D84, 0x57FA8EC2, 0x2BFD4761, 0xF8462090, 0x7C231048);
  }

  lemma Word50()
    ensures Word(50) == 0x32
  {
    FourMore(50, 6, 12, 25, 50);
  }

  lemma Digit2()
    ensures CrcByte(0x7C231048, 50) == 0xB0ACBB32
  {
    hide Word;
    Word50();
    EightBits(0x7C231048, 50, 0x32, 0x7C23107A, 0x3E11883D, 0xF2B0473E, 0x7958239F,
              0xD11492EF, 0x8532CA57, 0xAF21E60B, 0xBA287025, 0xB0ACBB32);
  }

  lemma Word51()
    ensures Word(51) == 0x33
  {
    FourMore(51, 6, 12, 25, 51);
  }

  lemma Digit3()
    ensures CrcByte(0xB0ACBB32, 51) == 0x77B79C2D
  {
    hide Word;
    Word51();
    EightBits(0xB0ACBB32, 51, 0x33, 0xB0ACBB01, 0xB5EEDEA0, 0x5AF76F50, 0x2D7BB7A8,
              0x16BDDBD4, 0x0B5EEDEA, 0x05AF76F5, 0xEF6F385A, 0x77B79C2D);
  }

  lemma Word52()
    ensures Word(52) == 0x34
  {
    FourMore(52, 6, 13, 26, 52);
  }

  lemma Digit4()
    ensures CrcByte(0x77B79C2D, 52) == 0x641C1F5C
  {
    hide Word;
    Word52();
    EightBits(0x77B79C2D, 52, 0x34, 0x77B79C19, 0xD6634D2C, 0x6B31A696, 0x3598D34B,
              0xF774EA85, 0x9602F662, 0x4B017B31, 0xC8383EB8, 0x641C1F5C);
  }

  lemma Word53()
    ensures Word(53) == 0x35
  {
    FourMore(53, 6, 13, 26, 53);
  }

  lemma Digit5()
    ensures CrcByte(0x641C1F5C, 53) == 0x340AC5E3
  {
    hide Word;
    Word53();
    EightBits(0x641C1F5C, 53, 0x35, 0x641C1F69, 0xDFB68C94, 0x6FDB464A, 0x37EDA325,
              0xF64E52B2, 0x7B272959, 0xD02B178C, 0x68158BC6, 0x340AC5E3);
  }

  lemma Word54()
    ensures Word(54) == 0x36
  {
    FourMore(54, 6, 13, 27, 54);
  }

  lemma Digit6()
    ensures CrcByte(0x340AC5E3, 54) == 0xF68D2C9E
  {
    hide Word;
    Word54();
    EightBits(0x340AC5E3, 54, 0x36, 0x340AC5D5, 0xF7BDE1CA, 0x7BDEF0E5, 0xD057FB52,
              0x682BFDA9, 0xD9AD7DF4, 0x6CD6BEFA, 0x366B5F7D, 0xF68D2C9E);
  }

  lemma Word55()
    ensures Word(55) == 0x37
  {
    FourMore(55, 6, 13, 27, 55);
  }

  lemma Digit7()
    ensures CrcByte(0xF68D2C9E, 55) == 0xAFFC9660
  {
    hide Word;
    Word55();
    EightBits(0xF68D2C9E, 55, 0x37, 0xF68D2CA9, 0x96FE1574, 0x4B7F0ABA, 0x25BF855D,
              0xFF67418E, 0x7FB3A0C7, 0xD2615343, 0x84882A81, 0xAFFC9660);
  }

  lemma Word56()
    ensures Word(56) == 0x38
  {
    FourMore(56, 7, 14, 28, 56);
  }

  lemma Digit8()
    ensures CrcByte(0xAFFC9660, 56) == 0x651F2550
  {
    hide Word;
    Word56();
    EightBits(0xAFFC9660, 56, 0x38, 0xAFFC9658, 0x57FE4B2C, 0x2BFF2596, 0x15FF92CB,
              0xE7474A45, 0x9E1B2602, 0x4F0D9301, 0xCA3E4AA0, 0x651F2550);
  }

  lemma Word57()
    ensures Word(57) == 0x39
  {
    FourMore(57, 7, 14, 28, 57);
  }

  lemma Digit9()
    ensures CrcByte(0x651F2550, 57) == 0x340BC6D9
  {
    hide Word;
    Word57();
    EightBits(0x651F2550, 57, 0x39, 0x651F2569, 0xDF371194, 0x6F9B88CA, 0x37CDC465,
              0xF65E6112, 0x7B2F3089, 0xD02F1B64, 0x68178DB2, 0x340BC6D9);
  }

  /** The published check value of this CRC, for the digits "123456789". */
  lemma CheckValue(data: Str)
    requires data == [49, 50, 51, 52, 53, 54, 55, 56, 57]
    ensures Crc32(data) == 0xCBF43926
  {
    hide CrcFrom, CrcByte;
    ReadsNothing(data[..0]);
    Digit1();
    ReadsByte(data, 0, 0xffffffff, 49, 0x7c231048);
    Digit2();
    ReadsByte(data, 1, 0x7c231048, 50, 0xb0acbb32);
    Digit3();
    ReadsByte(data, 2, 0xb0acbb32, 51, 0x77b79c2d);
    Digit4();
    ReadsByte(data, 3, 0x77b79c2d, 52, 0x641c1f5c);
    Digit5();
    ReadsByte(data, 4, 0x641c1f5c, 53, 0x340ac5e3);
    Digit6();
    ReadsByte(data, 5, 0x340ac5e3, 54, 0xf68d2c9e);
    Digit7();
    ReadsByte(data, 6, 0xf68d2c9e, 55, 0xaffc9660);
    Digit8();
    ReadsByte(data, 7, 0xaffc9660, 56, 0x651f2550);
    Digit9();
    ReadsByte(data, 8, 0x651f2550, 57, 0x340bc6d9);
    assert data[..9] == data;
  }

  lemma ReadsNothing(data: Str)
    requires data == []
    ensures CrcFrom(0xFFFFFFFF, data) == 0xFFFFFFFF
  {
  }
}
