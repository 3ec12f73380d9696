/**
  BIP-173's test vector "abcdef1qpzry9x8gf2tvdw0s3jn54khce6mua7lmqqqxw": a prefix of several letters,
  and every symbol once, in order.
 */
module Bip173 {
  import opened Options
  import opened Multiples
  import B = BitGroups
  import P = Polymod
  import opened Bech32

  // The symbols in groups of six, each group under a name, so that no proof sees them all at once.

  function Data0(): seq<bv8> { [0, 1, 2, 3, 4, 5] }
  function Data1(): seq<bv8> { [6, 7, 8, 9, 10, 11] }
  function Data2(): seq<bv8> { [12, 13, 14, 15, 16, 17] }
  function Data3(): seq<bv8> { [18, 19, 20, 21, 22, 23] }
  function Data4(): seq<bv8> { [24, 25, 26, 27, 28, 29] }
  function Data5(): seq<bv8> { [30, 31] }
  function Sum(): seq<bv8> { [27, 0, 0, 0, 6, 14] }
  function Prefix(): seq<bv8> { [0x61, 0x62, 0x63, 0x64, 0x65, 0x66] }

  /** The data part of the string: "qpzry9" "x8gf2t" "vdw0s3" "jn54kh" "ce6mua" "7l" "mqqqxw". */
  function Text(): seq<bv8> {
    [0x71, 0x70, 0x7a, 0x72, 0x79, 0x39] + ([0x78, 0x38, 0x67, 0x66, 0x32, 0x74] + ([0x76, 0x64, 0x77, 0x30, 0x73, 0x33]
    + ([0x6a, 0x6e, 0x35, 0x34, 0x6b, 0x68] + ([0x63, 0x65, 0x36, 0x6d, 0x75, 0x61] + ([0x37, 0x6c]
    + [0x6d, 0x71, 0x71, 0x71, 0x78, 0x77])))))
  }

  function Part(): seq<bv8> { Data0() + (Data1() + (Data2() + (Data3() + (Data4() + (Data5() + Sum()))))) }

  // ---- The polymod over it --------------------------------------------------------------

  lemma HighSteps()
    ensures P.Step(0x1, 3) == 0x23 && P.Step(0x23, 3) == 0x463
    ensures P.Step(0x463, 3) == 0x8c63 && P.Step(0x8c63, 3) == 0x118c63
    ensures P.Step(0x118c63, 3) == 0x2318c63 && P.Step(0x2318c63, 3) == 0x3d5bdbd1
  {
  }

  lemma HighRuns()
    ensures P.Run(0x1, [3, 3, 3, 3, 3, 3]) == 0x3d5bdbd1
  {
    HighSteps();
    hide P.Step, P.Run;
    P.RunSix(0x1, 3, 3, 3, 3, 3, 3);
  }

  lemma MiddleSteps()
    ensures P.Step(0x3d5bdbd1, 0) == 0x4dcbcd9
  {
  }

  lemma MiddleRuns()
    ensures P.Run(0x3d5bdbd1, [0]) == 0x4dcbcd9
  {
    MiddleSteps();
    hide P.Step, P.Run;
    P.RunSingle(0x3d5bdbd1, 0);
  }

  lemma LowSteps()
    ensures P.Step(0x4dcbcd9, 1) == 0x3dc7154c && P.Step(0x3dc7154c, 2) == 0x17456f7b
    ensures P.Step(0x17456f7b, 3) == 0x8d50561 && P.Step(0x8d50561, 4) == 0x401b5de
    ensures P.Step(0x401b5de, 5) == 0x266635a8 && P.Step(0x266635a8, 6) == 0x3be80e6a
  {
  }

  lemma LowRuns()
    ensures P.Run(0x4dcbcd9, [1, 2, 3, 4, 5, 6]) == 0x3be80e6a
  {
    LowSteps();
    hide P.Step, P.Run;
    P.RunSix(0x4dcbcd9, 1, 2, 3, 4, 5, 6);
  }

  lemma Data0Steps()
    ensures P.Step(0x3be80e6a, 0) == 0xf9cd266 && P.Step(0xf9cd266, 1) == 0x30018ce4
    ensures P.Step(0x30018ce4, 2) == 0x1767cdec && P.Step(0x1767cdec, 3) == 0xc815781
    ensures P.Step(0xc815781, 4) == 0x28db67b3 && P.Step(0x28db67b3, 5) == 0x2fd98d2c
  {
  }

  lemma Data0Runs()
    ensures P.Run(0x3be80e6a, Data0()) == 0x2fd98d2c
  {
    Data0Steps();
    hide P.Step, P.Run;
    P.RunSix(0x3be80e6a, 0, 1, 2, 3, 4, 5);
  }

  lemma Data1Steps()
    ensures P.Step(0x2fd98d2c, 6) == 0x12be0710 && P.Step(0x12be0710, 7) == 0x11e88668
    ensures P.Step(0x11e88668, 8) == 0x52fed5 && P.Step(0x52fed5, 9) == 0xa5fdaa9
    ensures P.Step(0xa5fdaa9, 10) == 0x2e301b62 && P.Step(0x2e301b62, 11) == 0x2f8ccedd
  {
  }

  lemma Data1Runs()
    ensures P.Run(0x2fd98d2c, Data1()) == 0x2f8ccedd
  {
    Data1Steps();
    hide P.Step, P.Run;
    P.RunSix(0x2fd98d2c, 6, 7, 8, 9, 10, 11);
  }

  lemma Data2Steps()
    ensures P.Step(0x2f8ccedd, 12) == 0x1816793a && P.Step(0x1816793a, 13) == 0x212c0d6a
    ensures P.Step(0x212c0d6a, 14) == 0xf95cffd && P.Step(0xf95cffd, 15) == 0x31223f8a
    ensures P.Step(0x31223f8a, 16) == 0x3311a03e && P.Step(0x3311a03e, 17) == 0xe08010d
  {
  }

  lemma Data2Runs()
    ensures P.Run(0x2f8ccedd, Data2()) == 0xe08010d
  {
    Data2Steps();
    hide P.Step, P.Run;
    P.RunSix(0x2f8ccedd, 12, 13, 14, 15, 16, 17);
  }

  lemma Data3Steps()
    ensures P.Step(0xe08010d, 18) == 0x29be197 && P.Step(0x29be197, 19) == 0x28166541
    ensures P.Step(0x28166541, 20) == 0x3679d37d && P.Step(0x3679d37d, 21) == 0x556e704
    ensures P.Step(0x556e704, 22) == 0xc8c6efb && P.Step(0xc8c6efb, 23) == 0x297c48e0
  {
  }

  lemma Data3Runs()
    ensures P.Run(0xe08010d, Data3()) == 0x297c48e0
  {
    Data3Steps();
    hide P.Step, P.Run;
    P.RunSix(0xe08010d, 18, 19, 20, 21, 22, 23);
  }

  lemma Data4Steps()
    ensures P.Step(0x297c48e0, 24) == 0x1b3c6751 && P.Step(0x1b3c6751, 25) == 0x3f0597ac
    ensures P.Step(0x3f0597ac, 26) == 0x347f64d1 && P.Step(0x347f64d1, 27) == 0x3eea4538
    ensures P.Step(0x3eea4538, 28) == 0x9853657 && P.Step(0x9853657, 29) == 0x2e07d307
  {
  }

  lemma Data4Runs()
    ensures P.Run(0x297c48e0, Data4()) == 0x2e07d307
  {
    Data4Steps();
    hide P.Step, P.Run;
    P.RunSix(0x297c48e0, 24, 25, 26, 27, 28, 29);
  }

  lemma Data5Steps()
    ensures P.Step(0x2e07d307, 30) == 0x2975c268 && P.Step(0x2975c268, 31) == 0x1a0d3656
  {
  }

  lemma Data5Runs()
    ensures P.Run(0x2e07d307, Data5()) == 0x1a0d3656
  {
    Data5Steps();
    hide P.Step, P.Run;
    P.RunTwo(0x2e07d307, 30, 31);
  }

  lemma SumSteps()
    ensures P.Step(0x1a0d3656, 27) == 0x192fb74e && P.Step(0x192fb74e, 0) == 0x615c3e7
    ensures P.Step(0x615c3e7, 0) == 0x1f82a53f && P.Step(0x1f82a53f, 0) == 0xe8d5418
    ensures P.Step(0xe8d5418, 6) == 0x12314323 && P.Step(0x12314323, 14) == 0x1
  {
  }

  lemma SumRuns()
    ensures P.Run(0x1a0d3656, Sum()) == 0x1
  {
    SumSteps();
    hide P.Step, P.Run;
    P.RunSix(0x1a0d3656, 27, 0, 0, 0, 6, 14);
  }

  lemma ExpandSix(a: bv8, b: bv8, c: bv8, d: bv8, e: bv8, f: bv8)
    ensures Expand([a, b, c, d, e, f])
         == [High(a), High(b), High(c), High(d), High(e), High(f)]
          + ([0] + [Low(a), Low(b), Low(c), Low(d), Low(e), Low(f)])
  {
    hide High, Low, Expand;
    var hrp := [a, b, c, d, e, f];
    ExpandAt(hrp, 6);
    var values := Expand(hrp);
    forall i | 0 <= i < 6
      ensures values[..6][i] == High(hrp[i]) && values[7..][i] == Low(hrp[i])
    {
      ExpandAt(hrp, i);
      ExpandAt(hrp, i + 7);
    }
    SixOf(values[..6]);
    SixOf(values[7..]);
    assert values == values[..6] + ([values[6]] + values[7..]);
  }

  lemma SixOf(s: seq<bv8>)
    requires |s| == 6
    ensures s == [s[0], s[1], s[2], s[3], s[4], s[5]]
  {
  }

  /** High parts, a zero, low parts, each in the order of the prefix. */
  lemma ExpandAt(hrp: seq<bv8>, i: nat)
    requires i < 2 * |hrp| + 1
    ensures |Expand(hrp)| == 2 * |hrp| + 1
    ensures Expand(hrp)[i] ==
      if i < |hrp| then High(hrp[i]) else if i == |hrp| then 0 else Low(hrp[i - |hrp| - 1])
  {
    hide High, Low;
  }

  lemma PrefixHalves()
    ensures High(0x61) == High(0x62) == High(0x63) == High(0x64) == High(0x65) == High(0x66) == 3
    ensures Low(0x61) == 1 && Low(0x62) == 2 && Low(0x63) == 3 && Low(0x64) == 4 && Low(0x65) == 5 && Low(0x66) == 6
  {
  }

  lemma PrefixRuns()
    ensures P.Run(1, Expand(Prefix())) == 0x3be80e6a
  {
    PrefixHalves();
    ExpandSix(0x61, 0x62, 0x63, 0x64, 0x65, 0x66);
    HighRuns();
    MiddleRuns();
    LowRuns();
    hide P.Run, High, Low, Expand;
    P.RunConcat(1, [3, 3, 3, 3, 3, 3], [0] + [1, 2, 3, 4, 5, 6]);
    P.RunConcat(P.Run(1, [3, 3, 3, 3, 3, 3]), [0], [1, 2, 3, 4, 5, 6]);
  }

  lemma PartRuns()
    ensures P.Run(0x3be80e6a, Part()) == 1
  {
    hide P.Run;
    Data0Runs();
    Data1Runs();
    Data2Runs();
    Data3Runs();
    Data4Runs();
    Data5Runs();
    SumRuns();
    hide Data0, Data1, Data2, Data3, Data4, Data5, Sum;
    P.RunConcat(0x2e07d307, Data5(), Sum());
    P.RunConcat(0x297c48e0, Data4(), Data5() + Sum());
    P.RunConcat(0xe08010d, Data3(), Data4() + (Data5() + Sum()));
    P.RunConcat(0x2f8ccedd, Data2(), Data3() + (Data4() + (Data5() + Sum())));
    P.RunConcat(0x2fd98d2c, Data1(), Data2() + (Data3() + (Data4() + (Data5() + Sum()))));
    P.RunConcat(0x3be80e6a, Data0(), Data1() + (Data2() + (Data3() + (Data4() + (Data5() + Sum())))));
  }

  // ---- The characters -------------------------------------------------------------------

  lemma CharsConcat(a: seq<bv8>, b: seq<bv8>)
    requires P.Symbols(a) && P.Symbols(b)
    ensures P.Symbols(a + b) && Chars(a + b) == Chars(a) + Chars(b)
  {
    hide CharOf, P.Symbol;
  }

  lemma Data0Chars()
    ensures P.Symbols(Data0()) && Chars(Data0()) == [0x71, 0x70, 0x7a, 0x72, 0x79, 0x39]
  {
    assert P.Symbols(Data0()) && CharOf(0) == 0x71 && CharOf(1) == 0x70 && CharOf(2) == 0x7a
      && CharOf(3) == 0x72 && CharOf(4) == 0x79 && CharOf(5) == 0x39;
    hide P.Symbol, CharOf;
    CharsSix(0, 1, 2, 3, 4, 5);
  }

  lemma Data1Chars()
    ensures P.Symbols(Data1()) && Chars(Data1()) == [0x78, 0x38, 0x67, 0x66, 0x32, 0x74]
  {
    assert P.Symbols(Data1()) && CharOf(6) == 0x78 && CharOf(7) == 0x38 && CharOf(8) == 0x67
      && CharOf(9) == 0x66 && CharOf(10) == 0x32 && CharOf(11) == 0x74;
    hide P.Symbol, CharOf;
    CharsSix(6, 7, 8, 9, 10, 11);
  }

  lemma Data2Chars()
    ensures P.Symbols(Data2()) && Chars(Data2()) == [0x76, 0x64, 0x77, 0x30, 0x73, 0x33]
  {
    assert P.Symbols(Data2()) && CharOf(12) == 0x76 && CharOf(13) == 0x64 && CharOf(14) == 0x77
      && CharOf(15) == 0x30 && CharOf(16) == 0x73 && CharOf(17) == 0x33;
    hide P.Symbol, CharOf;
    CharsSix(12, 13, 14, 15, 16, 17);
  }

  lemma Data3Chars()
    ensures P.Symbols(Data3()) && Chars(Data3()) == [0x6a, 0x6e, 0x35, 0x34, 0x6b, 0x68]
  {
    assert P.Symbols(Data3()) && CharOf(18) == 0x6a && CharOf(19) == 0x6e && CharOf(20) == 0x35
      && CharOf(21) == 0x34 && CharOf(22) == 0x6b && CharOf(23) == 0x68;
    hide P.Symbol, CharOf;
    CharsSix(18, 19, 20, 21, 22, 23);
  }

  lemma Data4Chars()
    ensures P.Symbols(Data4()) && Chars(Data4()) == [0x63, 0x65, 0x36, 0x6d, 0x75, 0x61]
  {
    assert P.Symbols(Data4()) && CharOf(24) == 0x63 && CharOf(25) == 0x65 && CharOf(26) == 0x36
      && CharOf(27) == 0x6d && CharOf(28) == 0x75 && CharOf(29) == 0x61;
    hide P.Symbol, CharOf;
    CharsSix(24, 25, 26, 27, 28, 29);
  }

  lemma CharsTwo(a: bv8, b: bv8)
    requires P.Symbols([a, b])
    ensures P.Symbol(a) && P.Symbol(b) && Chars([a, b]) == [CharOf(a), CharOf(b)]
  {
    hide P.Symbol, CharOf;
    var s := [a, b];
    assert P.Symbol(s[0]) && P.Symbol(s[1]);
  }

  lemma Data5Chars()
    ensures P.Symbols(Data5()) && Chars(Data5()) == [0x37, 0x6c]
  {
    assert P.Symbols(Data5()) && CharOf(30) == 0x37 && CharOf(31) == 0x6c;
    hide P.Symbol, CharOf;
    CharsTwo(30, 31);
  }

  lemma SumChars()
    ensures P.Symbols(Sum()) && Chars(Sum()) == [0x6d, 0x71, 0x71, 0x71, 0x78, 0x77]
  {
    assert P.Symbols(Sum()) && CharOf(27) == 0x6d && CharOf(0) == 0x71 && CharOf(6) == 0x78 && CharOf(14) == 0x77;
    hide P.Symbol, CharOf;
    CharsSix(27, 0, 0, 0, 6, 14);
  }

  lemma PartChars()
    ensures P.Symbols(Part()) && Chars(Part()) == Text()
  {
    hide P.Symbols, Chars;
    Data0Chars();
    Data1Chars();
    Data2Chars();
    Data3Chars();
    Data4Chars();
    Data5Chars();
    SumChars();
    hide Data0, Data1, Data2, Data3, Data4, Data5, Sum;
    CharsConcat(Data5(), Sum());
    CharsConcat(Data4(), Data5() + Sum());
    CharsConcat(Data3(), Data4() + (Data5() + Sum()));
    CharsConcat(Data2(), Data3() + (Data4() + (Data5() + Sum())));
    CharsConcat(Data1(), Data2() + (Data3() + (Data4() + (Data5() + Sum()))));
    CharsConcat(Data0(), Data1() + (Data2() + (Data3() + (Data4() + (Data5() + Sum())))));
  }

  // ---- Decoding -------------------------------------------------------------------------

  lemma Separated(hrp: seq<bv8>, part: seq<bv8>)
    requires P.Symbols(part)
    ensures LastOne(hrp + [ONE] + Chars(part)) == |hrp|
  {
    hide CharOf, P.Symbol;
    var s := hrp + [ONE] + Chars(part);
    forall k | |hrp| < k < |s|
      ensures s[k] != ONE
    {
      assert s[k] == CharOf(part[k - |hrp| - 1]);
      CharIsPlain(part[k - |hrp| - 1]);
    }
    assert s[|hrp|] == ONE;
  }

  /** A whole number of bytes needs no padding. */
  lemma WholeBytes(d: seq<bv8>, q: nat)
    requires |d| == 8 * q
    ensures B.RegroupedExactly(d, 5, 8) == Some(B.Pack(B.Units(d, 5), 8))
  {
    hide B.Units, B.Pack, B.Zeros;
    B.UnitsLength(d, 5);
    NothingOver(|d|, q, |B.Units(d, 5)|);
    NoneOver(B.Units(d, 5));
  }

  lemma NothingOver(n: nat, q: nat, bits: nat)
    requires n == 8 * q && bits == n * 5
    ensures bits % 8 == 0
  {
    Remainder(bits, q * 5, 8, 0);
  }

  lemma NoneOver(bits: seq<bool>)
    ensures bits[|bits| - 0..] == B.Zeros(0)
  {
  }

  lemma PartLength()
    ensures |Part()| == 38
  {
  }

  /** A string of symbols whose checksum is right decodes, if it is a whole number of bytes. */
  lemma Accepts(hrp: seq<bv8>, part: seq<bv8>, q: nat)
    requires hrp != [] && |part| == 6 + 8 * q && P.Symbols(part) && StateOf(hrp, part) == 1
    ensures DecodedLower(hrp + [ONE] + Chars(part)) == Ok(hrp, B.Pack(B.Units(part[..|part| - 6], 5), 8))
  {
    hide CharOf, P.Symbol, StateOf, Values, Chars, B.RegroupedExactly, B.Pack, B.Units;
    var s := hrp + [ONE] + Chars(part);
    Separated(hrp, part);
    ValuesOfChars(part);
    WholeBytes(part[..|part| - 6], q);
    assert s[..|hrp|] == hrp && s[|hrp| + 1..] == Chars(part);
  }

  /** "abcdef1qpzry9x8gf2tvdw0s3jn54khce6mua7lmqqqxw" decodes, and encoding what it holds gives it back. */
  lemma KnownAlphabet()
    ensures var r := DecodedLower(Prefix() + [ONE] + Text());
      && r.Ok? && r.hrp == Prefix()
      && Encoded(r.hrp, r.data) == Prefix() + [ONE] + Text()
  {
    hide Data0, Data1, Data2, Data3, Data4, Data5, Sum, Text, Prefix, P.Run, Expand, Chars, DecodedLower, Encoded;
    PartLength();
    PartChars();
    PrefixRuns();
    PartRuns();
    hide Part;
    P.RunConcat(1, Expand(Prefix()), Part());
    assert Prefix() != [] by { PrefixThere(); }
    Accepts(Prefix(), Part(), 4);
    ReencodeLower(Prefix() + [ONE] + Text());
  }

  lemma PrefixThere()
    ensures Prefix() != []
  {
  }
}
