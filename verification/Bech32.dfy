/**
  The bech32 codec of BIP-173, section "Bech32", as the nostr package implements it for
  NIP-19 keys: no 90-character limit, and the prefix may hold any bytes.

  Strings are byte sequences. The Unicode case mappings that decoding applies to the whole
  string belong to Go's library and enter as a parameter.
 */
module Bech32 {
  import opened Options
  import opened Multiples
  import B = BitGroups
  import P = Polymod

  datatype Error = BadLength | MixedCase | BadSeparator | BadCharacter | BadChecksum | BadPadding
  datatype Decoded = Ok(hrp: seq<bv8>, data: seq<bv8>) | Err(error: Error)

  const ONE: bv8 := 0x31

  // ---- The character set ----------------------------------------------------------------

  /** bech32Charset[v], for "qpzry9x8gf2tvdw0s3jn54khce6mua7l". */
  function CharOf(v: bv8): bv8
    requires P.Symbol(v)
  {
    match v
    case 0 => 0x71 case 1 => 0x70 case 2 => 0x7a case 3 => 0x72
    case 4 => 0x79 case 5 => 0x39 case 6 => 0x78 case 7 => 0x38
    case 8 => 0x67 case 9 => 0x66 case 10 => 0x32 case 11 => 0x74
    case 12 => 0x76 case 13 => 0x64 case 14 => 0x77 case 15 => 0x30
    case 16 => 0x73 case 17 => 0x33 case 18 => 0x6a case 19 => 0x6e
    case 20 => 0x35 case 21 => 0x34 case 22 => 0x6b case 23 => 0x68
    case 24 => 0x63 case 25 => 0x65 case 26 => 0x36 case 27 => 0x6d
    case 28 => 0x75 case 29 => 0x61 case 30 => 0x37 case _ => 0x6c
  }

  /** bech32Reverse[c], with None for the table's -1. */
  function ValueOf(c: bv8): Option<bv8> {
    match c
    case 0x71 => Some(0) case 0x70 => Some(1) case 0x7a => Some(2) case 0x72 => Some(3)
    case 0x79 => Some(4) case 0x39 => Some(5) case 0x78 => Some(6) case 0x38 => Some(7)
    case 0x67 => Some(8) case 0x66 => Some(9) case 0x32 => Some(10) case 0x74 => Some(11)
    case 0x76 => Some(12) case 0x64 => Some(13) case 0x77 => Some(14) case 0x30 => Some(15)
    case 0x73 => Some(16) case 0x33 => Some(17) case 0x6a => Some(18) case 0x6e => Some(19)
    case 0x35 => Some(20) case 0x34 => Some(21) case 0x6b => Some(22) case 0x68 => Some(23)
    case 0x63 => Some(24) case 0x65 => Some(25) case 0x36 => Some(26) case 0x6d => Some(27)
    case 0x75 => Some(28) case 0x61 => Some(29) case 0x37 => Some(30) case 0x6c => Some(31)
    case _ => None
  }

  lemma CharValueLow(v: bv8)
    requires v < 16
    ensures ValueOf(CharOf(v)) == Some(v)
  {
  }

  lemma CharValueMiddle(v: bv8)
    requires 16 <= v < 24
    ensures ValueOf(CharOf(v)) == Some(v)
  {
  }

  lemma CharValueHigh(v: bv8)
    requires 24 <= v < 32
    ensures ValueOf(CharOf(v)) == Some(v)
  {
  }

  lemma CharValue(v: bv8)
    requires P.Symbol(v)
    ensures ValueOf(CharOf(v)) == Some(v)
  {
    hide CharOf, ValueOf;
    if v < 16 {
      CharValueLow(v);
    } else if v < 24 {
      CharValueMiddle(v);
    } else {
      CharValueHigh(v);
    }
  }

  lemma ValueChar(c: bv8)
    requires ValueOf(c).Some?
    ensures P.Symbol(ValueOf(c).value) && CharOf(ValueOf(c).value) == c
  {
  }

  lemma CharIsPlain(v: bv8)
    requires P.Symbol(v)
    ensures CharOf(v) != ONE && LowerAscii(CharOf(v))
  {
  }

  /** The characters of a list of symbols. */
  function Chars(values: seq<bv8>): (s: seq<bv8>)
    requires P.Symbols(values)
    ensures |s| == |values|
  {
    seq(|values|, i requires 0 <= i < |values| => CharOf(values[i]))
  }

  /** The symbols of a string, if every character is in the set. */
  function Values(s: seq<bv8>): (r: Option<seq<bv8>>)
    ensures r.Some? ==> |r.value| == |s|
  {
    if s == [] then Some([]) else
    match (Values(s[..|s| - 1]), ValueOf(s[|s| - 1]))
    case (Some(front), Some(v)) => Some(front + [v])
    case _ => None
  }

  lemma {:induction false} ValuesAre(s: seq<bv8>)
    ensures Values(s).Some? <==> forall i :: 0 <= i < |s| ==> ValueOf(s[i]).Some?
    ensures Values(s).Some? ==> forall i :: 0 <= i < |s| ==> ValueOf(s[i]) == Some(Values(s).value[i])
    decreases |s|
  {
    hide ValueOf;
    if s != [] {
      ValuesAre(s[..|s| - 1]);
    }
  }

  lemma ValuesOfChars(values: seq<bv8>)
    requires P.Symbols(values)
    ensures Values(Chars(values)) == Some(values)
  {
    hide ValueOf, CharOf, Values, P.Symbol;
    forall i | 0 <= i < |values|
      ensures ValueOf(Chars(values)[i]) == Some(values[i])
    {
      CharValue(values[i]);
    }
    ValuesAre(Chars(values));
    assert Values(Chars(values)).value == values;
  }

  lemma CharsOfValues(s: seq<bv8>)
    requires Values(s).Some?
    ensures P.Symbols(Values(s).value) && Chars(Values(s).value) == s
  {
    hide ValueOf, CharOf, Values, P.Symbol;
    ValuesAre(s);
    forall i | 0 <= i < |s|
      ensures P.Symbol(Values(s).value[i]) && CharOf(Values(s).value[i]) == s[i]
    {
      ValueChar(s[i]);
    }
  }

  // ---- Case -----------------------------------------------------------------------------

  /** strings.ToLower and strings.ToUpper. */
  datatype CaseMap = CaseMap(lower: seq<bv8> -> seq<bv8>, upper: seq<bv8> -> seq<bv8>)

  /** ASCII, and not a capital letter. */
  predicate LowerAscii(c: bv8) { c < 128 && !(0x41 <= c <= 0x5a) }

  predicate AllLowerAscii(s: seq<bv8>) { forall i :: 0 <= i < |s| ==> LowerAscii(s[i]) }

  /** All that is assumed of the mappings: lower-case ASCII text is its own lower case. */
  ghost predicate KeepsLowerAscii(cm: CaseMap) {
    forall s :: AllLowerAscii(s) ==> cm.lower(s) == s
  }

  // ---- Encoding -------------------------------------------------------------------------

  function High(b: bv8): bv8 { b >> 5 }
  function Low(b: bv8): bv8 { b & 31 }

  function Expand(hrp: seq<bv8>): (values: seq<bv8>) {
    seq(|hrp|, i requires 0 <= i < |hrp| => High(hrp[i])) + [0]
    + seq(|hrp|, i requires 0 <= i < |hrp| => Low(hrp[i]))
  }

  lemma ByteSplits(b: bv8)
    ensures P.Symbol(High(b)) && P.Symbol(Low(b)) && P.Symbol(0)
  {
  }

  lemma ExpandSymbols(hrp: seq<bv8>)
    ensures P.Symbols(Expand(hrp))
  {
    hide P.Symbol;
    forall i | 0 <= i < |Expand(hrp)|
      ensures P.Symbol(Expand(hrp)[i])
    {
      if i < |hrp| {
        ByteSplits(hrp[i]);
      } else if i == |hrp| {
        ByteSplits(0);
      } else {
        ByteSplits(hrp[i - |hrp| - 1]);
      }
    }
  }

  method Bech32HRPExpand(hrp: seq<bv8>) returns (out: seq<bv8>)
    ensures out == Expand(hrp)
  {
    out := [];
    for i := 0 to |hrp|
      invariant |out| == i && forall k :: 0 <= k < i ==> out[k] == High(hrp[k])
    {
      out := out + [High(hrp[i])];
    }
    out := out + [0];
    ghost var high := out;
    for i := 0 to |hrp|
      invariant |out| == |hrp| + 1 + i && out[..|hrp| + 1] == high
      invariant forall k :: 0 <= k < i ==> out[|hrp| + 1 + k] == Low(hrp[k])
    {
      out := out + [Low(hrp[i])];
    }
  }

  /** The state the prefix and the data symbols leave behind. */
  function StateOf(hrp: seq<bv8>, data: seq<bv8>): bv32 {
    P.Run(1, Expand(hrp) + data)
  }

  method Bech32Checksum(hrp: seq<bv8>, data: seq<bv8>) returns (out: seq<bv8>)
    ensures out == P.ChecksumOf(StateOf(hrp, data))
  {
    hide P.Run, P.SymbolAt;
    var values := Bech32HRPExpand(hrp);
    values := values + data;
    P.RunConcat(1, values, P.ZEROS);
    values := values + [0, 0, 0, 0, 0, 0];
    var mod := P.Bech32Polymod(values);
    mod := P.Xor(mod, 1);
    out := [];
    for i := 0 to 6
      invariant |out| == i && forall k :: 0 <= k < i ==> out[k] == P.SymbolAt(mod, k)
    {
      out := out + [P.SymbolAt(mod, i)];
    }
  }

  /** The symbols of the data part: the regrouped bytes, then the checksum. */
  ghost function DataPart(hrp: seq<bv8>, data: seq<bv8>): seq<bv8> {
    var d := B.Regrouped(data, 8, 5);
    d + P.ChecksumOf(StateOf(hrp, d))
  }

  lemma FiveBitsAreSymbols(v: bv8)
    ensures B.FitsIn(B.Word(v), 5) <==> P.Symbol(v)
  {
    hide B.Half, B.Word;
    var x := B.Word(v);
    var y := B.Half(B.Half(B.Half(x)));
    assert B.FitsIn(x, 5) == B.FitsIn(y, 2);
    assert B.FitsIn(y, 2) == (B.Half(B.Half(y)) == 0);
    FiveHalves(v);
  }

  lemma FiveHalves(v: bv8)
    ensures B.Half(B.Half(B.Half(B.Half(B.Half(B.Word(v)))))) == 0 <==> P.Symbol(v)
  {
  }

  lemma SymbolsFit(d: seq<bv8>)
    ensures B.Fits(d, 5) <==> P.Symbols(d)
  {
    hide B.FitsIn, P.Symbol;
    forall i | 0 <= i < |d|
      ensures B.FitsIn(B.Word(d[i]), 5) <==> P.Symbol(d[i])
    {
      FiveBitsAreSymbols(d[i]);
    }
  }

  lemma BytesFit(data: seq<bv8>)
    ensures B.Fits(data, 8)
  {
    hide B.FitsIn;
    forall i | 0 <= i < |data|
      ensures B.FitsIn(B.Word(data[i]), 8)
    {
      ByteFits(data[i]);
    }
  }

  lemma ByteFits(v: bv8)
    ensures B.FitsIn(B.Word(v), 8)
  {
    hide B.Half, B.Word;
    var x := B.Word(v);
    var y := B.Half(B.Half(B.Half(B.Half(x))));
    assert B.FitsIn(x, 8) == B.FitsIn(y, 4);
    assert B.FitsIn(y, 4) == (B.Half(B.Half(B.Half(B.Half(y)))) == 0);
    EightHalvesOfByte(v);
  }

  lemma EightHalvesOfByte(v: bv8)
    ensures B.Half(B.Half(B.Half(B.Half(B.Half(B.Half(B.Half(B.Half(B.Word(v))))))))) == 0
  {
  }

  lemma DataPartSymbols(hrp: seq<bv8>, data: seq<bv8>)
    ensures P.Symbols(DataPart(hrp, data))
    ensures |DataPart(hrp, data)| == |B.Regrouped(data, 8, 5)| + 6
    ensures P.Symbols(B.Regrouped(data, 8, 5))
  {
    hide P.ChecksumOf, P.Run, P.Symbol, P.State30, Expand, B.Regrouped;
    var d := B.Regrouped(data, 8, 5);
    RegroupedFits(data);
    SymbolsFit(d);
    StateStays(hrp, d);
    P.ZerosAreSymbols();
    P.ChecksumUnique(StateOf(hrp, d), P.ZEROS);
  }

  lemma RegroupedFits(data: seq<bv8>)
    ensures B.Fits(B.Regrouped(data, 8, 5), 5)
  {
    var bits := B.Units(data, 8);
    B.PackDenotes(bits + B.Zeros(PadLength(|bits|, 5)), 5);
  }

  lemma StateStays(hrp: seq<bv8>, d: seq<bv8>)
    requires P.Symbols(d)
    ensures P.State30(StateOf(hrp, d))
  {
    hide P.Run, P.Symbol, P.State30, Expand;
    ExpandSymbols(hrp);
    P.InitialState();
    P.RunStays(1, Expand(hrp) + d);
  }

  ghost function Encoded(hrp: seq<bv8>, data: seq<bv8>): seq<bv8> {
    DataPartSymbols(hrp, data);
    hrp + [ONE] + Chars(DataPart(hrp, data))
  }

  method EncodeBech32(hrp: seq<bv8>, data8: seq<bv8>) returns (s: seq<bv8>)
    ensures s == Encoded(hrp, data8)
  {
    hide P.ChecksumOf, P.Run, P.Symbol, CharOf, Expand, B.Regrouped;
    BytesFit(data8);
    var data5 := B.ConvertBits(data8, 8, 5, true);
    var sum := Bech32Checksum(hrp, data5.value);
    DataPartSymbols(hrp, data8);
    var part := data5.value + sum;
    s := hrp + [ONE];
    for i := 0 to |part|
      invariant s == hrp + [ONE] + Chars(part)[..i]
    {
      s := s + [CharOf(part[i])];
    }
  }

  // ---- Decoding -------------------------------------------------------------------------

  /** strings.LastIndexByte(s, '1'), or -1. */
  function LastOne(s: seq<bv8>): (i: int)
    ensures -1 <= i < |s|
    ensures i >= 0 ==> s[i] == ONE
    ensures forall k :: i < k < |s| ==> s[k] != ONE
  {
    if s == [] then -1
    else if s[|s| - 1] == ONE then |s| - 1
    else LastOne(s[..|s| - 1])
  }

  /** Decoding once the case is settled. */
  ghost function DecodedLower(s: seq<bv8>): Decoded {
    var sep := LastOne(s);
    if sep < 1 || sep + 7 > |s| then Err(BadSeparator) else
    match Values(s[sep + 1..])
    case None => Err(BadCharacter)
    case Some(part) =>
      if StateOf(s[..sep], part) != 1 then Err(BadChecksum) else
      match B.RegroupedExactly(part[..|part| - 6], 5, 8)
      case None => Err(BadPadding)
      case Some(data) => Ok(s[..sep], data)
  }

  ghost function DecodedAny(cm: CaseMap, s: seq<bv8>): Decoded {
    if |s| < 8 || |s| > 2048 then Err(BadLength)
    else if s != cm.lower(s) && s != cm.upper(s) then Err(MixedCase)
    else DecodedLower(cm.lower(s))
  }

  method ParseSymbols(part: seq<bv8>) returns (parsed: Option<seq<bv8>>)
    ensures parsed == Values(part)
  {
    hide ValueOf;
    var data5 := [];
    for i := 0 to |part|
      invariant Values(part[..i]) == Some(data5)
    {
      assert part[..i + 1][..i] == part[..i];
      var v := ValueOf(part[i]);
      if v.None? {
        ValuesAre(part);
        return None;
      }
      data5 := data5 + [v.value];
    }
    assert part[..|part|] == part;
    return Some(data5);
  }

  method DecodeBech32(cm: CaseMap, input: seq<bv8>) returns (r: Decoded)
    ensures r == DecodedAny(cm, input)
  {
    hide P.Run, P.Symbol, Values, Expand, B.RegroupedExactly;
    if |input| < 8 || |input| > 2048 {
      return Err(BadLength);
    }
    if input != cm.lower(input) && input != cm.upper(input) {
      return Err(MixedCase);
    }
    var s := cm.lower(input);
    var sep := LastOne(s);
    if sep < 1 || sep + 7 > |s| {
      return Err(BadSeparator);
    }
    var hrp := s[..sep];
    var part := s[sep + 1..];
    var parsed := ParseSymbols(part);
    if parsed.None? {
      return Err(BadCharacter);
    }
    var data5 := parsed.value;
    var values := Bech32HRPExpand(hrp);
    var chk := P.Bech32Polymod(values + data5);
    if chk != 1 {
      return Err(BadChecksum);
    }
    CharsOfValues(part);
    SymbolsFit(data5);
    var data8 := B.ConvertBits(data5[..|data5| - 6], 5, 8, false);
    if data8.None? {
      return Err(BadPadding);
    }
    return Ok(hrp, data8.value);
  }

  // ---- Regrouping 8 to 5 to 8 and back --------------------------------------------------

  lemma UnpadAfterPad(data: seq<bv8>)
    ensures B.RegroupedExactly(B.Regrouped(data, 8, 5), 5, 8) == Some(data)
  {
    hide B.Units, B.Pack, B.FitsIn;
    var bits := B.Units(data, 8);
    B.UnitsLength(data, 8);
    var p := PadLength(|bits|, 5);
    var padded := bits + B.Zeros(p);
    var d := B.Regrouped(data, 8, 5);
    B.PackDenotes(padded, 5);
    B.UnitsLength(d, 5);
    WholeUnits(|bits|, p, |d|);
    assert B.Units(d, 5) == padded;
    BytesFit(data);
    Remainder(|padded|, |data|, 8, p);
    assert padded[|padded| - p..] == B.Zeros(p);
    B.PackUnique(padded, data, 8, B.Zeros(p));
  }

  lemma WholeUnits(n: nat, p: nat, q: nat)
    requires p == PadLength(n, 5) && q * 5 <= n + p < q * 5 + 5
    ensures q * 5 == n + p && p < 5
  {
  }

  lemma PadAfterUnpad(d: seq<bv8>, data: seq<bv8>)
    requires B.Fits(d, 5) && B.RegroupedExactly(d, 5, 8) == Some(data)
    ensures B.Regrouped(data, 8, 5) == d
  {
    hide B.Units, B.Pack, B.FitsIn;
    var bits := B.Units(d, 5);
    B.UnitsLength(d, 5);
    var k := |bits| % 8;
    B.PackDenotes(bits, 8);
    B.UnitsLength(data, 8);
    LeftOver(|bits|, |d|, k, |data|);
    assert bits == B.Units(data, 8) + B.Zeros(k);
    assert bits == bits + [];
    B.PackUnique(bits, d, 5, []);
  }

  lemma LeftOver(n: nat, q: nat, k: nat, m: nat)
    requires n == q * 5 && k == n % 8 && k < 5 && m * 8 <= n < m * 8 + 8
    ensures n == m * 8 + k && PadLength(m * 8, 5) == k
  {
    assert n == m * 8 + k by { Remainder(n, m, 8, n - m * 8); }
    if k == 0 {
      Remainder(m * 8, q, 5, 0);
    } else {
      Remainder(m * 8, q - 1, 5, 5 - k);
    }
  }

  // ---- The codec is a bijection on what it accepts --------------------------------------

  lemma CheckedData(hrp: seq<bv8>, part: seq<bv8>)
    requires P.Symbols(part) && |part| >= 6
    ensures StateOf(hrp, part) == 1
       <==> part[|part| - 6..] == P.ChecksumOf(StateOf(hrp, part[..|part| - 6]))
  {
    hide P.ChecksumOf, P.Run, P.Symbol, P.State30, Expand;
    var d, sum := part[..|part| - 6], part[|part| - 6..];
    assert Expand(hrp) + part == (Expand(hrp) + d) + sum;
    P.RunConcat(1, Expand(hrp) + d, sum);
    StateStays(hrp, d);
    P.ChecksumUnique(StateOf(hrp, d), sum);
  }

  /** Re-encoding whatever was accepted gives back the lower-cased input, byte for byte. */
  lemma ReencodeLower(s: seq<bv8>)
    requires DecodedLower(s).Ok?
    ensures Encoded(DecodedLower(s).hrp, DecodedLower(s).data) == s
  {
    hide P.ChecksumOf, P.Run, P.Symbol, Expand, B.Regrouped, B.RegroupedExactly, Values, CharOf;
    var Ok(hrp, data) := DecodedLower(s);
    var sep := LastOne(s);
    var part := Values(s[sep + 1..]).value;
    CharsOfValues(s[sep + 1..]);
    var d := part[..|part| - 6];
    SymbolsFit(d);
    PadAfterUnpad(d, data);
    CheckedData(hrp, part);
    assert part == d + part[|part| - 6..];
    DataPartSymbols(hrp, data);
    assert DataPart(hrp, data) == part;
    assert s == s[..sep] + [ONE] + s[sep + 1..];
  }

  lemma Reencode(cm: CaseMap, s: seq<bv8>)
    requires DecodedAny(cm, s).Ok?
    ensures Encoded(DecodedAny(cm, s).hrp, DecodedAny(cm, s).data) == cm.lower(s)
  {
    hide DecodedLower, Encoded;
    ReencodeLower(cm.lower(s));
  }

  /** Decoding an encoding gives back the prefix and the bytes, whatever they are. */
  lemma DecodeEncoded(hrp: seq<bv8>, data: seq<bv8>)
    requires hrp != []
    ensures DecodedLower(Encoded(hrp, data)) == Ok(hrp, data)
  {
    hide P.ChecksumOf, P.Run, P.Symbol, Expand, B.Regrouped, B.RegroupedExactly, Values, CharOf;
    var s, part := Encoded(hrp, data), DataPart(hrp, data);
    DataPartSymbols(hrp, data);
    ValuesOfChars(part);
    SeparatorOf(hrp, data);
    assert s[..|hrp|] == hrp && s[|hrp| + 1..] == Chars(part);
    var d := part[..|part| - 6];
    assert d == B.Regrouped(data, 8, 5);
    CheckedData(hrp, part);
    UnpadAfterPad(data);
  }

  lemma SeparatorOf(hrp: seq<bv8>, data: seq<bv8>)
    ensures LastOne(Encoded(hrp, data)) == |hrp|
  {
    hide CharOf, P.Symbol, DataPart;
    var s, part := Encoded(hrp, data), DataPart(hrp, data);
    DataPartSymbols(hrp, data);
    forall k | |hrp| < k < |s|
      ensures s[k] != ONE
    {
      assert s[k] == CharOf(part[k - |hrp| - 1]);
      CharIsPlain(part[k - |hrp| - 1]);
    }
    assert s[|hrp|] == ONE;
  }

  /** The exact domain of the round trip for prefixes in lower-case ASCII. */
  lemma RoundTrip(cm: CaseMap, hrp: seq<bv8>, data: seq<bv8>)
    requires KeepsLowerAscii(cm) && AllLowerAscii(hrp)
    ensures DecodedAny(cm, Encoded(hrp, data)) == Ok(hrp, data)
       <==> hrp != [] && |Encoded(hrp, data)| <= 2048
  {
    hide DecodedLower, CharOf, P.Symbol, DataPart, LowerAscii;
    var s, part := Encoded(hrp, data), DataPart(hrp, data);
    DataPartSymbols(hrp, data);
    forall k | 0 <= k < |s|
      ensures LowerAscii(s[k])
    {
      if k == |hrp| {
        OneIsPlain();
      } else if k > |hrp| {
        CharIsPlain(part[k - |hrp| - 1]);
      }
    }
    assert AllLowerAscii(s) && cm.lower(s) == s;
    SeparatorOf(hrp, data);
    if hrp != [] {
      DecodeEncoded(hrp, data);
    } else {
      NoPrefix(s);
    }
  }

  lemma OneIsPlain()
    ensures LowerAscii(ONE)
  {
  }

  lemma NoPrefix(s: seq<bv8>)
    requires LastOne(s) < 1
    ensures DecodedLower(s) == Err(BadSeparator)
  {
  }

  // ---- Error detection ------------------------------------------------------------------

  /** One data character replaced by another of the set never decodes, at any length. */
  lemma SingleError(s: seq<bv8>, i: nat, c: bv8)
    requires DecodedLower(s).Ok? && LastOne(s) < i < |s|
    requires c != s[i] && ValueOf(c).Some?
    ensures DecodedLower(s[i := c]) == Err(BadChecksum)
  {
    hide P.ChecksumOf, P.Run, P.Symbol, Expand, B.RegroupedExactly, Values, CharOf, ValueOf;
    var sep := LastOne(s);
    var hrp, tail, t := s[..sep], s[sep + 1..], s[i := c];
    var part, j, v := Values(tail).value, i - sep - 1, ValueOf(c).value;
    CharsOfValues(tail);
    ValuesAre(tail);
    ValueChar(c);
    CharIsPlain(v);
    SameSeparator(s, t);
    assert t[..sep] == hrp && t[sep + 1..] == tail[j := c];
    ValuesAre(tail[j := c]);
    assert Values(tail[j := c]).value == part[j := v];
    ExpandSymbols(hrp);
    var all := Expand(hrp) + part;
    assert all[|Expand(hrp)| + j := v] == Expand(hrp) + part[j := v];
    assert part[j] != v by {
      assert CharOf(part[j]) == s[i];
    }
    P.SingleSubstitution(all, |Expand(hrp)| + j, v);
  }

  lemma SameSeparator(s: seq<bv8>, t: seq<bv8>)
    requires |s| == |t| && LastOne(s) >= 0
    requires t[LastOne(s)] == ONE && forall k :: LastOne(s) < k < |t| ==> t[k] != ONE
    ensures LastOne(t) == LastOne(s)
  {
  }

  /** The same for the decoder itself, whatever its case mapping does outside ASCII. */
  lemma SingleErrorAnyCase(cm: CaseMap, s: seq<bv8>, i: nat, c: bv8)
    requires DecodedAny(cm, s).Ok? && cm.lower(s) == s
    requires LastOne(s) < i < |s| && c != s[i] && ValueOf(c).Some?
    requires cm.lower(s[i := c]) == s[i := c]
    ensures DecodedAny(cm, s[i := c]) == Err(BadChecksum)
  {
    hide DecodedLower, ValueOf;
    SingleError(s, i, c);
  }

  /** No string one data character away from an accepted lower-case ASCII string is accepted. */
  lemma SingleErrorDetected(cm: CaseMap, s: seq<bv8>, i: nat, c: bv8)
    requires KeepsLowerAscii(cm) && AllLowerAscii(s) && DecodedAny(cm, s).Ok?
    requires LastOne(s) < i < |s| && c != s[i] && ValueOf(c).Some?
    ensures DecodedAny(cm, s[i := c]) == Err(BadChecksum)
  {
    hide CharOf, ValueOf, LowerAscii;
    ValueChar(c);
    CharIsPlain(ValueOf(c).value);
    assert AllLowerAscii(s[i := c]);
    hide DecodedAny, LastOne;
    SingleErrorAnyCase(cm, s, i, c);
  }

  // ---- An anchor ------------------------------------------------------------------------

  lemma ExpandOne(b: bv8)
    ensures Expand([b]) == [High(b), 0, Low(b)]
  {
  }

  lemma CharsSix(a: bv8, b: bv8, c: bv8, d: bv8, e: bv8, f: bv8)
    requires P.Symbols([a, b, c, d, e, f])
    ensures P.Symbol(a) && P.Symbol(b) && P.Symbol(c) && P.Symbol(d) && P.Symbol(e) && P.Symbol(f)
    ensures Chars([a, b, c, d, e, f]) == [CharOf(a), CharOf(b), CharOf(c), CharOf(d), CharOf(e), CharOf(f)]
  {
    hide P.Symbol, CharOf;
    var s := [a, b, c, d, e, f];
    assert P.Symbol(s[0]) && P.Symbol(s[1]) && P.Symbol(s[2]) && P.Symbol(s[3]) && P.Symbol(s[4]) && P.Symbol(s[5]);
  }

  lemma NoData()
    ensures B.Regrouped([], 8, 5) == []
  {
  }

  lemma VectorSymbols()
    ensures P.Symbols([10, 28, 25, 31, 20, 31]) && P.State30(0x8c01)
    ensures High(0x61) == 3 && Low(0x61) == 1
    ensures CharOf(10) == 0x32 && CharOf(28) == 0x75 && CharOf(25) == 0x65
    ensures CharOf(31) == 0x6c && CharOf(20) == 0x35
  {
  }

  lemma VectorState()
    ensures P.Run(1, Expand([0x61])) == 0x8c01
    ensures P.Symbols([10, 28, 25, 31, 20, 31]) && P.ChecksumOf(0x8c01) == [10, 28, 25, 31, 20, 31]
  {
    VectorSymbols();
    P.AnchorStates();
    ExpandOne(0x61);
    hide *;
    P.ChecksumUnique(0x8c01, [10, 28, 25, 31, 20, 31]);
  }

  lemma VectorChars()
    requires P.Symbols([10, 28, 25, 31, 20, 31])
    ensures Chars([10, 28, 25, 31, 20, 31]) == [0x32, 0x75, 0x65, 0x6c, 0x35, 0x6c]
  {
    VectorSymbols();
    hide *;
    CharsSix(10, 28, 25, 31, 20, 31);
  }

  /** The valid string "a12uel5l" of BIP-173: no data under the prefix "a". */
  lemma KnownVector()
    ensures Encoded([0x61], []) == [0x61, ONE] + [0x32, 0x75, 0x65, 0x6c, 0x35, 0x6c]
    ensures DecodedLower([0x61, ONE] + [0x32, 0x75, 0x65, 0x6c, 0x35, 0x6c]) == Ok([0x61], [])
  {
    hide *;
    VectorState();
    VectorChars();
    EncodedNothing([0x61], 0x8c01, [10, 28, 25, 31, 20, 31]);
    assert [0x61 as bv8] + [ONE] == [0x61, ONE];
    DecodeEncoded([0x61], []);
  }

  lemma EncodedNothing(hrp: seq<bv8>, state: bv32, sum: seq<bv8>)
    requires P.Run(1, Expand(hrp)) == state && P.ChecksumOf(state) == sum && P.Symbols(sum)
    ensures Encoded(hrp, []) == hrp + [ONE] + Chars(sum)
  {
    hide P.Run, P.ChecksumOf, Expand, Chars, P.Symbols;
    NoData();
    hide B.Regrouped;
    assert Expand(hrp) + [] == Expand(hrp);
    assert [] + sum == sum;
  }
}
