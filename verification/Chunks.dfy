/**
  The chunked form of a sealed directory in DNS TXT records: "tc1;<seq>;<total>;<data>".

  Base64 belongs to Go's library; what is cut up and put together here is the encoded text.
 */
module Chunks {
  import opened Options
  import opened Text
  import opened Permutations

  const PREFIX: string := "tc1;"
  const DATA_PER_CHUNK: nat := 220
  const MAX_CHUNKS: nat := 100

  predicate IsChunk(value: string) { PREFIX <= value }

  // ---- Cutting --------------------------------------------------------------------------

  function Total(n: nat): (t: nat)
    ensures t >= 1 && n <= t * DATA_PER_CHUNK
    ensures t > 1 ==> (t - 1) * DATA_PER_CHUNK < n
  {
    var t := (n + DATA_PER_CHUNK - 1) / DATA_PER_CHUNK;
    if t == 0 then 1 else t
  }

  function Min(a: nat, b: nat): nat { if a < b then a else b }

  /** The data of chunk `seq`. */
  function Slice(encoded: string, index: nat): string
    requires index < Total(|encoded|)
  {
    encoded[Min(index * DATA_PER_CHUNK, |encoded|)..Min(index * DATA_PER_CHUNK + DATA_PER_CHUNK, |encoded|)]
  }

  function Chunk(index: nat, total: nat, data: string): string {
    PREFIX + Digits(index) + ";" + Digits(total) + ";" + data
  }

  function Cut(encoded: string): (chunks: seq<string>)
    ensures |chunks| == Total(|encoded|)
  {
    seq(Total(|encoded|), i requires 0 <= i < Total(|encoded|) => Chunk(i, Total(|encoded|), Slice(encoded, i)))
  }

  /** chunkBlob on the encoded blob; None when it needs more records than are allowed. */
  method ChunkBlob(encoded: string) returns (chunks: Option<seq<string>>)
    ensures chunks == if Total(|encoded|) <= MAX_CHUNKS then Some(Cut(encoded)) else None
  {
    var total := (|encoded| + DATA_PER_CHUNK - 1) / DATA_PER_CHUNK;
    if total == 0 {
      total := 1;
    }
    if total > MAX_CHUNKS {
      return None;
    }
    var out: seq<string> := [];
    for i := 0 to total
      invariant out == Cut(encoded)[..i]
    {
      var start := i * DATA_PER_CHUNK;
      var end := if start + DATA_PER_CHUNK < |encoded| then start + DATA_PER_CHUNK else |encoded|;
      assert start <= |encoded|;
      out := out + [Chunk(i, total, encoded[start..end])];
    }
    assert out == Cut(encoded);
    return Some(out);
  }

  /** The text of each chunk: prefix, index, total, and its 220 characters of the blob, in this order. */
  lemma ChunkText(encoded: string, i: nat)
    requires i < |Cut(encoded)|
    ensures i * 220 <= |encoded|
    ensures Cut(encoded)[i] == "tc1;" + Digits(i) + ";" + Digits(|Cut(encoded)|) + ";"
      + encoded[i * 220..if (i + 1) * 220 < |encoded| then (i + 1) * 220 else |encoded|]
  {
    hide Digits;
  }

  /** A blob is refused exactly when it has more than 22000 characters: a hundred full chunks. */
  lemma FitsExactly(encoded: string)
    ensures Total(|encoded|) <= MAX_CHUNKS <==> |encoded| <= 22_000
    ensures encoded == "" ==> |Cut(encoded)| == 1
    ensures encoded != "" ==> 220 * (|Cut(encoded)| - 1) < |encoded| <= 220 * |Cut(encoded)|
  {
  }

  /** Every chunk fits the 255-byte character-string of section 3.3 of RFC 1035. */
  lemma ChunksFit(encoded: string, i: nat)
    requires Total(|encoded|) <= MAX_CHUNKS && i < Total(|encoded|)
    ensures |Cut(encoded)[i]| <= 231
  {
    FewDigits(i);
    FewDigits(Total(|encoded|));
  }

  // ---- Reading one chunk ----------------------------------------------------------------

  datatype Part = Part(index: int, data: string)

  /** The index, total and data of a value; None where the code reports a malformed chunk. */
  function Parse(value: string): Option<(Part, int)> {
    var fields := SplitN(value, ';', 4);
    if |fields| != 4 then None else
    match (Atoi(fields[1]), Atoi(fields[2]))
    case (Some(index), Some(total)) => Some((Part(index, fields[3]), total))
    case _ => None
  }

  lemma ParseChunk(index: nat, total: nat, data: string)
    requires index <= MAX_INT && total <= MAX_INT
    ensures IsChunk(Chunk(index, total, data))
    ensures Parse(Chunk(index, total, data)) == Some((Part(index, data), total))
  {
    ChunkFields(Digits(index), Digits(total), data);
    AtoiInverts(index);
    AtoiInverts(total);
    assert FormatInt(index) == Digits(index) && FormatInt(total) == Digits(total);
    hide Digits, Atoi, SplitN;
    assert Chunk(index, total, data) == "tc1;" + Digits(index) + ";" + Digits(total) + ";" + data;
  }

  lemma ChunkFields(second: string, third: string, data: string)
    requires ';' !in second && ';' !in third
    ensures SplitN("tc1;" + second + ";" + third + ";" + data, ';', 4) == ["tc1", second, third, data]
  {
    hide SplitN;
    SplitFour("tc1", second, third, data);
    assert "tc1;" + second + ";" + third + ";" + data == "tc1" + [';'] + (second + [';'] + (third + [';'] + data));
  }

  lemma SplitFour(a: string, b: string, c: string, d: string)
    requires ';' !in a && ';' !in b && ';' !in c
    ensures SplitN(a + [';'] + (b + [';'] + (c + [';'] + d)), ';', 4) == [a, b, c, d]
  {
    ListFour(a, b, c, d);
    SplitRest(b, c, d);
    hide SplitN;
    SplitField(a, ';', b + [';'] + (c + [';'] + d), 4);
  }

  lemma SplitRest(b: string, c: string, d: string)
    requires ';' !in b && ';' !in c
    ensures SplitN(b + [';'] + (c + [';'] + d), ';', 3) == [b] + ([c] + [d])
  {
    assert SplitN(d, ';', 1) == [d];
    hide SplitN;
    SplitField(b, ';', c + [';'] + d, 3);
    SplitField(c, ';', d, 2);
  }

  lemma ListFour(a: string, b: string, c: string, d: string)
    ensures [a] + ([b] + ([c] + [d])) == [a, b, c, d]
  {
  }

  // ---- Sorting --------------------------------------------------------------------------

  predicate Earlier(p: Part, q: Part) { p.index < q.index }

  /** The parts by index; equal indices are rejected afterwards, so their order is moot. */
  function Arranged(parts: seq<Part>): (r: seq<Part>)
    ensures multiset(r) == multiset(parts) && |r| == |parts|
  {
    Sort(parts, Earlier)
  }

  ghost predicate Sorted(parts: seq<Part>) {
    forall i, j :: 0 <= i < j < |parts| ==> parts[i].index <= parts[j].index
  }

  ghost predicate Increasing(parts: seq<Part>) {
    forall i, j :: 0 <= i < j < |parts| ==> parts[i].index < parts[j].index
  }

  lemma ArrangedSorted(parts: seq<Part>)
    ensures Sorted(Arranged(parts))
  {
    hide Sort;
    SortInOrder(parts, Earlier);
    assert forall i, j :: 0 <= i < j < |parts| ==> !Earlier(Arranged(parts)[j], Arranged(parts)[i]);
  }

  /** A sorted list is the only one with its elements, if no index repeats. */
  lemma {:induction false} SortedUnique(a: seq<Part>, b: seq<Part>)
    requires Sorted(a) && multiset(a) == multiset(b)
    requires Increasing(b)
    ensures a == b
    decreases |a|
  {
    assert |a| == |multiset(a)| == |multiset(b)| == |b|;
    if a != [] {
      SameFirst(a, b);
      DropFirst(a);
      DropFirst(b);
      hide Sorted, Increasing;
      SortedUnique(a[1..], b[1..]);
    }
  }

  lemma DropFirst(a: seq<Part>)
    requires a != []
    ensures a == [a[0]] + a[1..] && multiset(a[1..]) == multiset(a) - multiset{a[0]}
    ensures (Sorted(a) ==> Sorted(a[1..])) && (Increasing(a) ==> Increasing(a[1..]))
  {
    assert a == [a[0]] + a[1..];
  }

  lemma SameFirst(a: seq<Part>, b: seq<Part>)
    requires Sorted(a) && multiset(a) == multiset(b) && a != [] && b != []
    requires Increasing(b)
    ensures a[0] == b[0]
  {
    assert a[0] in multiset(b) && b[0] in multiset(a);
    var i :| 0 <= i < |b| && b[i] == a[0];
    var j :| 0 <= j < |a| && a[j] == b[0];
    assert a[0].index <= a[j].index;
    assert i > 0 ==> b[0].index < b[i].index;
  }

  // ---- Reassembly -----------------------------------------------------------------------

  datatype Reassembled = Encoded(text: string) | NotFound | Broken

  /** The loop over the values: the parts so far and the total, -1 while none was taken. */
  datatype Scan = Scan(parts: seq<Part>, total: int) | Rejected

  function ScanOne(s: Scan, value: string): Scan {
    if s.Rejected? || !IsChunk(value) then s else
    match Parse(value)
    case None => Rejected
    case Some((part, total)) =>
      if s.total == -1 then Scan(s.parts + [part], total)
      else if s.total != total then Rejected
      else Scan(s.parts + [part], s.total)
  }

  function ScanAll(values: seq<string>): Scan {
    if values == [] then Scan([], -1) else ScanOne(ScanAll(values[..|values| - 1]), values[|values| - 1])
  }

  function Concat(parts: seq<Part>): string {
    if parts == [] then "" else Concat(parts[..|parts| - 1]) + parts[|parts| - 1].data
  }

  predicate Consecutive(parts: seq<Part>) { forall i :: 0 <= i < |parts| ==> parts[i].index == i }

  function Reassemble(values: seq<string>): Reassembled {
    match ScanAll(values)
    case Rejected => Broken
    case Scan(parts, total) =>
      if parts == [] then NotFound
      else if total <= 0 || |parts| != total || !Consecutive(Arranged(parts)) then Broken
      else Encoded(Concat(Arranged(parts)))
  }

  /** reassembleChunks, up to the base64 decoding of the result. */
  method ReassembleChunks(values: seq<string>) returns (r: Reassembled)
    ensures r == Reassemble(values)
  {
    var scan := ScanValues(values);
    if scan.Rejected? {
      return Broken;
    }
    if |scan.parts| == 0 {
      return NotFound;
    }
    if scan.total <= 0 || |scan.parts| != scan.total {
      return Broken;
    }
    hide ScanAll, Concat;
    var text := JoinParts(Arranged(scan.parts));
    return if text.Some? then Encoded(text.value) else Broken;
  }

  method ScanValues(values: seq<string>) returns (scan: Scan)
    ensures scan == ScanAll(values)
  {
    hide Parse, IsChunk;
    var parts: seq<Part> := [];
    var total := -1;
    for k := 0 to |values|
      invariant ScanAll(values[..k]) == Scan(parts, total)
    {
      assert values[..k + 1][..k] == values[..k];
      var v := values[k];
      if IsChunk(v) {
        var parsed := Parse(v);
        if parsed.None? {
          RejectedStays(values, k + 1);
          return Rejected;
        }
        var (part, t) := parsed.value;
        if total == -1 {
          total := t;
        } else if total != t {
          RejectedStays(values, k + 1);
          return Rejected;
        }
        parts := parts + [part];
      }
    }
    assert values[..|values|] == values;
    return Scan(parts, total);
  }

  method JoinParts(sorted: seq<Part>) returns (text: Option<string>)
    ensures text == if Consecutive(sorted) then Some(Concat(sorted)) else None
  {
    var joined := "";
    for i := 0 to |sorted|
      invariant joined == Concat(sorted[..i])
      invariant forall k :: 0 <= k < i ==> sorted[k].index == k
    {
      if sorted[i].index != i {
        return None;
      }
      assert sorted[..i + 1][..i] == sorted[..i];
      joined := joined + sorted[i].data;
    }
    assert sorted[..|sorted|] == sorted;
    return Some(joined);
  }

  lemma {:induction false} RejectedStays(values: seq<string>, k: nat)
    requires k <= |values| && ScanAll(values[..k]).Rejected?
    ensures ScanAll(values).Rejected?
    decreases |values|
  {
    if k < |values| {
      assert values[..|values| - 1][..k] == values[..k];
      RejectedStays(values[..|values| - 1], k);
    } else {
      assert values[..k] == values;
    }
  }

  // ---- The round trip -------------------------------------------------------------------

  function Owned(values: seq<string>): seq<string> {
    if values == [] then [] else
    Owned(values[..|values| - 1]) + if IsChunk(values[|values| - 1]) then [values[|values| - 1]] else []
  }

  /** Values without the prefix do not matter at all. */
  lemma {:induction false} ForeignIgnored(values: seq<string>)
    ensures ScanAll(values) == ScanAll(Owned(values))
    decreases |values|
  {
    hide IsChunk, Parse;
    if values != [] {
      var front, last := values[..|values| - 1], values[|values| - 1];
      ForeignIgnored(front);
      if IsChunk(last) {
        assert Owned(values)[..|Owned(front)|] == Owned(front);
      } else {
        assert Owned(front) + [] == Owned(front);
      }
    }
  }

  lemma {:induction false} OwnedAreChunks(values: seq<string>)
    ensures forall i :: 0 <= i < |Owned(values)| ==> IsChunk(Owned(values)[i])
    decreases |values|
  {
    hide IsChunk;
    if values != [] {
      OwnedAreChunks(values[..|values| - 1]);
    }
  }

  /** Chunks that all name one positive total scan to their parts, in the order given. */
  lemma {:induction false} ScanOfChunks(chunks: seq<string>, parts: seq<Part>, total: nat)
    requires |chunks| == |parts| && total > 0
    requires forall i :: 0 <= i < |chunks| ==> IsChunk(chunks[i]) && Parse(chunks[i]) == Some((parts[i], total))
    ensures ScanAll(chunks) == Scan(parts, if chunks == [] then -1 else total)
    decreases |chunks|
  {
    hide IsChunk, Parse;
    if chunks != [] {
      var n := |chunks| - 1;
      ScanOfChunks(chunks[..n], parts[..n], total);
      assert parts == parts[..n] + [parts[n]];
    }
  }

  function PartOf(chunk: string): Part { if Parse(chunk).Some? then Parse(chunk).value.0 else Part(0, "") }

  function PartsOf(chunks: seq<string>): (parts: seq<Part>)
    ensures |parts| == |chunks|
  {
    Map(PartOf, chunks)
  }

  function CutParts(encoded: string): (parts: seq<Part>)
    ensures |parts| == Total(|encoded|)
  {
    seq(Total(|encoded|), i requires 0 <= i < Total(|encoded|) => Part(i, Slice(encoded, i)))
  }

  lemma CutParses(encoded: string, i: nat)
    requires Total(|encoded|) <= MAX_CHUNKS && i < Total(|encoded|)
    ensures IsChunk(Cut(encoded)[i])
    ensures Parse(Cut(encoded)[i]) == Some((CutParts(encoded)[i], Total(|encoded|)))
  {
    ParseChunk(i, Total(|encoded|), Slice(encoded, i));
  }

  lemma {:induction false} SlicesJoin(encoded: string, n: nat)
    requires n <= Total(|encoded|)
    ensures Concat(CutParts(encoded)[..n]) == encoded[..Min(n * DATA_PER_CHUNK, |encoded|)]
    decreases n
  {
    if n > 0 {
      SlicesJoin(encoded, n - 1);
      var parts := CutParts(encoded)[..n];
      assert parts[..n - 1] == CutParts(encoded)[..n - 1];
      assert parts[n - 1].data == Slice(encoded, n - 1);
    }
  }

  /**
    For every blob that fits: any permutation of its chunks, interleaved with any values that
    lack the prefix, reassembles to the encoded blob.
   */
  lemma RoundTrip(encoded: string, values: seq<string>)
    requires Total(|encoded|) <= MAX_CHUNKS
    requires multiset(Owned(values)) == multiset(Cut(encoded))
    ensures Reassemble(values) == Encoded(encoded)
  {
    var owned := Owned(values);
    ForeignIgnored(values);
    ScanOfPermuted(encoded, owned);
    hide Owned, ScanAll, Arranged, Concat, Cut, PartsOf, Total;
    SortOfPermuted(encoded, owned);
  }

  lemma SortOfPermuted(encoded: string, owned: seq<string>)
    requires Total(|encoded|) <= MAX_CHUNKS && multiset(owned) == multiset(Cut(encoded))
    ensures Consecutive(Arranged(PartsOf(owned))) && Concat(Arranged(PartsOf(owned))) == encoded
  {
    hide Arranged, Concat, Slice, PartOf;
    MapPermutes(PartOf, owned, Cut(encoded));
    PartsOfCut(encoded);
    ArrangedSorted(PartsOf(owned));
    SortedUnique(Arranged(PartsOf(owned)), CutParts(encoded));
    SlicesJoin(encoded, Total(|encoded|));
    assert CutParts(encoded)[..Total(|encoded|)] == CutParts(encoded);
  }

  lemma ScanOfPermuted(encoded: string, owned: seq<string>)
    requires Total(|encoded|) <= MAX_CHUNKS && multiset(owned) == multiset(Cut(encoded))
    ensures |owned| == Total(|encoded|)
    ensures ScanAll(owned) == Scan(PartsOf(owned), Total(|encoded|))
  {
    var chunks, total := Cut(encoded), Total(|encoded|);
    assert |owned| == |multiset(owned)| == |multiset(chunks)| == total;
    hide Parse, IsChunk, ScanAll, Total, Cut, PartOf;
    forall i | 0 <= i < |owned|
      ensures IsChunk(owned[i]) && Parse(owned[i]) == Some((PartsOf(owned)[i], total))
    {
      assert owned[i] in multiset(owned);
      PermutedParses(encoded, owned[i]);
    }
    hide PartsOf;
    ScanOfChunks(owned, PartsOf(owned), total);
  }

  lemma PermutedParses(encoded: string, v: string)
    requires Total(|encoded|) <= MAX_CHUNKS && v in multiset(Cut(encoded))
    ensures IsChunk(v) && Parse(v) == Some((PartOf(v), Total(|encoded|)))
  {
    hide Parse, IsChunk, Total, Cut;
    var chunks := Cut(encoded);
    var k :| 0 <= k < |chunks| && chunks[k] == v;
    CutParses(encoded, k);
  }

  lemma PartsOfCut(encoded: string)
    requires Total(|encoded|) <= MAX_CHUNKS
    ensures PartsOf(Cut(encoded)) == CutParts(encoded)
  {
    hide Parse, IsChunk, Chunk, Slice;
    forall i | 0 <= i < Total(|encoded|)
      ensures PartsOf(Cut(encoded))[i] == CutParts(encoded)[i]
    {
      CutParses(encoded, i);
    }
  }

  /** `ordered` is a rearrangement of parts whose indices are 0, 1, 2 and so on. */
  ghost predicate IndexedOnce(parts: seq<Part>, ordered: seq<Part>) {
    multiset(ordered) == multiset(parts) && Consecutive(ordered)
  }

  lemma {:induction false} ScanGivesParts(chunks: seq<string>)
    requires forall i :: 0 <= i < |chunks| ==> IsChunk(chunks[i])
    ensures ScanAll(chunks).Scan? ==> ScanAll(chunks).parts == PartsOf(chunks)
    decreases |chunks|
  {
    hide IsChunk, Parse;
    if chunks != [] {
      var n := |chunks| - 1;
      ScanGivesParts(chunks[..n]);
      assert PartsOf(chunks) == PartsOf(chunks[..n]) + [PartOf(chunks[n])];
    }
  }

  // ---- The totals that chunks claim -----------------------------------------------------

  function ClaimedTotal(chunk: string): int { if Parse(chunk).Some? then Parse(chunk).value.1 else 0 }

  ghost predicate Claim(chunks: seq<string>, total: int) {
    forall i :: 0 <= i < |chunks| ==> ClaimedTotal(chunks[i]) == total
  }

  /** A first stretch of the chunks claims -1, and all others claim total. */
  ghost predicate ClaimAfter(chunks: seq<string>, k: nat, total: int) {
    k <= |chunks| && Claim(chunks[..k], -1) && Claim(chunks[k..], total)
  }

  lemma ClaimGrows(chunks: seq<string>, k: nat, total: int)
    requires chunks != [] && k < |chunks| && ClaimAfter(chunks[..|chunks| - 1], k, total)
    requires ClaimedTotal(chunks[|chunks| - 1]) == total
    ensures ClaimAfter(chunks, k, total)
  {
    hide ClaimedTotal;
    var front := chunks[..|chunks| - 1];
    assert chunks[..k] == front[..k];
    assert forall i :: 0 <= i < |chunks| - k - 1 ==> chunks[k..][i] == front[k..][i];
  }

  /** The scan accepts exactly one total after any number of leading chunks that claim -1. */
  lemma {:induction false} ScanClaims(chunks: seq<string>) returns (k: nat)
    requires forall i :: 0 <= i < |chunks| ==> IsChunk(chunks[i])
    requires ScanAll(chunks).Scan?
    ensures ClaimAfter(chunks, k, ScanAll(chunks).total)
    ensures ScanAll(chunks).total == -1 ==> k == |chunks|
    ensures ScanAll(chunks).total != -1 ==> k < |chunks|
    decreases |chunks|
  {
    hide IsChunk, Parse;
    k := 0;
    if chunks != [] {
      var n := |chunks| - 1;
      k := ScanClaims(chunks[..n]);
      var total := ScanAll(chunks).total;
      assert ClaimedTotal(chunks[n]) == total;
      if ScanAll(chunks[..n]).total == -1 {
        assert chunks[..n][..n] == chunks[..n];
        if total == -1 {
          k := n + 1;
          assert forall i :: 0 <= i < n ==> chunks[i] == chunks[..n][i];
          assert chunks[..k] == chunks;
        }
      } else {
        hide ScanAll, ClaimAfter, ClaimedTotal;
        ClaimGrows(chunks, k, total);
      }
    }
  }

  lemma ReassembledClaims(values: seq<string>) returns (k: nat)
    requires Reassemble(values).Encoded?
    ensures k < |Owned(values)| && ClaimAfter(Owned(values), k, |Owned(values)|)
  {
    ForeignIgnored(values);
    OwnedAreChunks(values);
    ScanGivesParts(Owned(values));
    hide ScanAll, Owned, Arranged, Concat, ClaimAfter;
    k := ScanClaims(Owned(values));
  }

  /**
    Whatever reassembles claims its own number of chunks throughout, if and only if its first
    chunk does not claim the total -1, which the code takes for "none seen yet".
   */
  lemma TotalsExactly(values: seq<string>)
    requires Reassemble(values).Encoded?
    ensures Owned(values) != []
    ensures Claim(Owned(values), |Owned(values)|) <==> ClaimedTotal(Owned(values)[0]) != -1
  {
    var k := ReassembledClaims(values);
    hide Reassemble, Owned, ClaimedTotal;
    var owned := Owned(values);
    if k > 0 {
      assert owned[..k][0] == owned[0];
    } else {
      assert owned[0..] == owned;
    }
  }

  /**
    Whatever reassembles used exactly one chunk for each index from 0 to total - 1, in index
    order, where the total is the one the last chunk claims.
   */
  lemma ReassembledUsesEachOnce(values: seq<string>)
    requires Reassemble(values).Encoded?
    ensures exists parts ::
      && IndexedOnce(PartsOf(Owned(values)), parts) && Reassemble(values).text == Concat(parts)
      && Owned(values) != [] && |parts| == ClaimedTotal(Owned(values)[|Owned(values)| - 1])
  {
    ForeignIgnored(values);
    OwnedAreChunks(values);
    ScanGivesParts(Owned(values));
    var owned, parts := Owned(values), PartsOf(Owned(values));
    hide ScanAll, Owned, Arranged, Concat, ClaimedTotal;
    ArrangedSorted(parts);
    assert IndexedOnce(parts, Arranged(parts));
    var k := ReassembledClaims(values);
    assert owned[k..][|owned| - k - 1] == owned[|owned| - 1];
  }

  /** Two chunks that claim different totals, one of them -1, do reassemble. */
  lemma MixedTotalsReassemble()
    ensures Reassemble(["tc1;0;-1;x", "tc1;1;2;y"]) == Encoded("xy")
    ensures ClaimedTotal("tc1;0;-1;x") == -1 && ClaimedTotal("tc1;1;2;y") == 2
  {
    MixedChunks();
    var a, b := "tc1;0;-1;x", "tc1;1;2;y";
    var p, q := Part(0, "x"), Part(1, "y");
    hide Parse, IsChunk, Reassemble, Arranged;
    ScanTwo(a, b, p, q);
    hide ScanAll;
    SortTwo(p, q);
    JoinTwo(p, q);
    assert "x" + "y" == "xy";
    hide Concat;
    ReassembleOf([a, b], [p, q], 2);
  }

  /** Any two numbers can be claimed, negative ones too. */
  lemma ParseClaim(index: string, total: string, data: string, i: int, t: int)
    requires ';' !in index && ';' !in total && Atoi(index) == Some(i) && Atoi(total) == Some(t)
    ensures IsChunk("tc1;" + index + ";" + total + ";" + data)
    ensures Parse("tc1;" + index + ";" + total + ";" + data) == Some((Part(i, data), t))
  {
    hide SplitN, Atoi;
    ChunkFields(index, total, data);
  }

  lemma SmallNumbers()
    ensures Atoi("0") == Some(0) && Atoi("1") == Some(1) && Atoi("2") == Some(2) && Atoi("-1") == Some(-1)
  {
    assert Digits(0) == "0" && Digits(1) == "1" && Digits(2) == "2";
    assert FormatInt(-1) == "-1";
    AtoiInverts(0);
    AtoiInverts(1);
    AtoiInverts(2);
    AtoiInverts(-1);
  }

  lemma MixedChunks()
    ensures IsChunk("tc1;0;-1;x") && Parse("tc1;0;-1;x") == Some((Part(0, "x"), -1))
    ensures IsChunk("tc1;1;2;y") && Parse("tc1;1;2;y") == Some((Part(1, "y"), 2))
  {
    hide Parse, Atoi, IsChunk;
    SmallNumbers();
    ParseClaim("0", "-1", "x", 0, -1);
    ParseClaim("1", "2", "y", 1, 2);
    assert "tc1;" + "0" + ";" + "-1" + ";" + "x" == "tc1;0;-1;x";
    assert "tc1;" + "1" + ";" + "2" + ";" + "y" == "tc1;1;2;y";
  }

  lemma ScanTwo(a: string, b: string, p: Part, q: Part)
    requires IsChunk(a) && IsChunk(b) && Parse(a) == Some((p, -1)) && Parse(b) == Some((q, 2))
    ensures ScanAll([a, b]) == Scan([p, q], 2)
  {
    hide IsChunk, Parse;
    assert [a][..0] == [] && ScanAll([a]) == Scan([p], -1);
    assert [a, b][..1] == [a];
    assert [p] + [q] == [p, q];
  }

  lemma SortTwo(p: Part, q: Part)
    requires p.index == 0 && q.index == 1
    ensures Arranged([p, q]) == [p, q]
  {
    hide Arranged;
    ArrangedSorted([p, q]);
    SortedUnique(Arranged([p, q]), [p, q]);
  }

  lemma JoinTwo(p: Part, q: Part)
    ensures Concat([p, q]) == p.data + q.data
  {
    assert [p][..0] == [];
    assert Concat([p]) == "" + p.data == p.data;
    assert [p, q][..1] == [p];
    assert Concat([p, q]) == Concat([p, q][..1]) + q.data;
  }

  lemma ReassembleOf(values: seq<string>, parts: seq<Part>, total: nat)
    requires ScanAll(values) == Scan(parts, total) && |parts| == total > 0
    requires Arranged(parts) == parts && Consecutive(parts)
    ensures Reassemble(values) == Encoded(Concat(parts))
  {
    hide ScanAll, Arranged, Concat;
  }

  // ---- Exactly what reassembles ---------------------------------------------------------

  ghost predicate AllParse(chunks: seq<string>) {
    forall i :: 0 <= i < |chunks| ==> IsChunk(chunks[i]) && Parse(chunks[i]).Some?
  }

  lemma ClaimShrinks(chunks: seq<string>, k: nat, total: int)
    requires chunks != [] && ClaimAfter(chunks, k, total)
    ensures var n := |chunks| - 1; ClaimAfter(chunks[..n], if k <= n then k else n, total)
    ensures ClaimedTotal(chunks[|chunks| - 1]) == if k == |chunks| then -1 else total
  {
    hide ClaimedTotal;
    var n := |chunks| - 1;
    var front := chunks[..n];
    if k <= n {
      assert front[..k] == chunks[..k];
      assert forall i :: 0 <= i < n - k ==> front[k..][i] == chunks[k..][i];
      assert chunks[k..][n - k] == chunks[n];
    } else {
      assert front[..n] == front && front[n..] == [];
      assert forall i :: 0 <= i < n ==> front[i] == chunks[..k][i];
      assert chunks[..k][n] == chunks[n];
    }
  }

  /** Well-formed chunks that claim -1 for a while and then one total scan to their parts. */
  lemma {:induction false} ScanAccepts(chunks: seq<string>, k: nat, total: int)
    requires AllParse(chunks) && ClaimAfter(chunks, k, total) && total != -1
    ensures ScanAll(chunks) == Scan(PartsOf(chunks), if k == |chunks| then -1 else total)
    decreases |chunks|
  {
    hide IsChunk, Parse, ClaimAfter;
    if chunks == [] {
      ClaimWithin(chunks, k, total);
      assert PartsOf(chunks) == [];
    } else {
      var n := |chunks| - 1;
      ClaimShrinks(chunks, k, total);
      ClaimWithin(chunks, k, total);
      assert forall i :: 0 <= i < n ==> chunks[..n][i] == chunks[i];
      ScanAccepts(chunks[..n], if k <= n then k else n, total);
      assert PartsOf(chunks) == PartsOf(chunks[..n]) + [PartOf(chunks[n])];
    }
  }

  lemma ClaimWithin(chunks: seq<string>, k: nat, total: int)
    requires ClaimAfter(chunks, k, total)
    ensures k <= |chunks|
  {
  }

  /** Nothing is found exactly when no value carries the prefix; any other trouble is an error. */
  lemma NotFoundExactly(values: seq<string>)
    ensures Reassemble(values).NotFound? <==> Owned(values) == []
  {
    ForeignIgnored(values);
    OwnedAreChunks(values);
    ScanGivesParts(Owned(values));
    assert ScanAll([]) == Scan([], -1);
    hide ScanAll, Owned, Arranged, Concat;
  }

  /**
    A blob reassembles to a text exactly when our values are all well-formed, a first stretch of
    them may claim -1 and the others claim their number, and their parts, put in the order of
    the indices 0, 1, 2 and so on, spell the text.
   */
  lemma ReassemblesExactly(values: seq<string>, text: string)
    ensures Reassemble(values) == Encoded(text) <==>
      var owned := Owned(values);
      && AllParse(owned)
      && (exists k: nat :: k < |owned| && ClaimAfter(owned, k, |owned|))
      && (exists parts :: IndexedOnce(PartsOf(owned), parts) && text == Concat(parts))
  {
    var owned := Owned(values);
    if Reassemble(values) == Encoded(text) {
      ReassembledUsesEachOnce(values);
      var k := ReassembledClaims(values);
      ReassembledParses(values);
    }
    if AllParse(owned) && (exists k: nat :: k < |owned| && ClaimAfter(owned, k, |owned|))
      && (exists parts :: IndexedOnce(PartsOf(owned), parts) && text == Concat(parts)) {
      var k: nat :| k < |owned| && ClaimAfter(owned, k, |owned|);
      var parts :| IndexedOnce(PartsOf(owned), parts) && text == Concat(parts);
      WellFormedReassembles(values, k, parts);
    }
  }

  lemma ReassembledParses(values: seq<string>)
    requires Reassemble(values).Encoded?
    ensures AllParse(Owned(values))
  {
    ForeignIgnored(values);
    OwnedAreChunks(values);
    hide Owned, Arranged, Concat;
    ScanParses(Owned(values));
  }

  lemma {:induction false} ScanParses(chunks: seq<string>)
    requires ScanAll(chunks).Scan? && forall i :: 0 <= i < |chunks| ==> IsChunk(chunks[i])
    ensures AllParse(chunks)
    decreases |chunks|
  {
    hide IsChunk, Parse;
    if chunks != [] {
      var n := |chunks| - 1;
      assert forall i :: 0 <= i < n ==> chunks[..n][i] == chunks[i];
      ScanParses(chunks[..n]);
    }
  }

  lemma WellFormedReassembles(values: seq<string>, k: nat, parts: seq<Part>)
    requires var owned := Owned(values);
      && AllParse(owned) && k < |owned| && ClaimAfter(owned, k, |owned|) && IndexedOnce(PartsOf(owned), parts)
    ensures Reassemble(values) == Encoded(Concat(parts))
  {
    var owned := Owned(values);
    ForeignIgnored(values);
    ScanAccepts(owned, k, |owned|);
    hide Owned, ScanAll, Concat, AllParse, ClaimAfter, PartsOf, Arranged;
    ArrangedSorted(PartsOf(owned));
    assert |parts| == |multiset(parts)| == |multiset(PartsOf(owned))|;
    SortedUnique(Arranged(PartsOf(owned)), parts);
  }
}
