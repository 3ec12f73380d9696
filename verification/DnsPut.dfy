/**
  Writing the chunks: reconciliation of a TXT record set that also holds foreign records.
 */
module DnsPut {
  import opened Options
  import opened Text
  import opened Chunks
  import opened Permutations

  datatype TxtRecord = TxtRecord(id: nat, value: string)

  // ---- Which records are ours -----------------------------------------------------------

  function Foreign(records: seq<TxtRecord>): seq<TxtRecord> {
    if records == [] then [] else
    Foreign(records[..|records| - 1]) + if IsChunk(records[|records| - 1].value) then [] else [records[|records| - 1]]
  }

  /** The values of the records that carry the prefix. */
  function ChunkValues(records: seq<TxtRecord>): multiset<string> {
    if records == [] then multiset{} else
    ChunkValues(records[..|records| - 1])
      + if IsChunk(records[|records| - 1].value) then multiset{records[|records| - 1].value} else multiset{}
  }

  ghost predicate DistinctIds(records: seq<TxtRecord>) {
    forall i, j :: 0 <= i < j < |records| ==> records[i].id != records[j].id
  }

  lemma {:induction false} SplitsConcat(a: seq<TxtRecord>, b: seq<TxtRecord>)
    ensures Foreign(a + b) == Foreign(a) + Foreign(b)
    ensures ChunkValues(a + b) == ChunkValues(a) + ChunkValues(b)
    decreases |b|
  {
    hide IsChunk;
    if b == [] {
      assert a + b == a;
      assert Foreign(a) + [] == Foreign(a);
    } else {
      var front := b[..|b| - 1];
      assert (a + b)[..|a + b| - 1] == a + front;
      SplitsConcat(a, front);
    }
  }

  lemma SplitOne(r: TxtRecord)
    ensures Foreign([r]) == if IsChunk(r.value) then [] else [r]
    ensures ChunkValues([r]) == if IsChunk(r.value) then multiset{r.value} else multiset{}
  {
    hide IsChunk;
    assert [r][..0] == [];
  }

  /** Exchanging one of our values for another leaves every foreign record as it was. */
  lemma ReplaceChunk(records: seq<TxtRecord>, k: nat, r: TxtRecord)
    requires k < |records| && IsChunk(records[k].value) && IsChunk(r.value)
    ensures Foreign(records[k := r]) == Foreign(records)
    ensures ChunkValues(records[k := r]) + multiset{records[k].value} == ChunkValues(records) + multiset{r.value}
  {
    hide IsChunk, Foreign, ChunkValues;
    var a, b := records[..k], records[k + 1..];
    assert records == a + ([records[k]] + b) && records[k := r] == a + ([r] + b);
    SplitsConcat(a, [records[k]] + b);
    SplitsConcat(a, [r] + b);
    SplitsConcat([records[k]], b);
    SplitsConcat([r], b);
    SplitOne(records[k]);
    SplitOne(r);
  }

  lemma RemoveChunk(records: seq<TxtRecord>, k: nat)
    requires k < |records| && IsChunk(records[k].value)
    ensures Foreign(Without(records, k)) == Foreign(records)
    ensures ChunkValues(Without(records, k)) + multiset{records[k].value} == ChunkValues(records)
  {
    hide IsChunk, Foreign, ChunkValues;
    var a, b := records[..k], records[k + 1..];
    assert records == a + ([records[k]] + b);
    SplitsConcat(a, [records[k]] + b);
    SplitsConcat([records[k]], b);
    SplitsConcat(a, b);
    SplitOne(records[k]);
  }

  // ---- splitTXTRecords ------------------------------------------------------------------

  /** chunkSeq: the index of a well-formed chunk. */
  function ChunkSeq(value: string): Option<int> {
    var fields := SplitN(value, ';', 4);
    if |fields| != 4 then None else
    match (Atoi(fields[1]), Atoi(fields[2]))
    case (Some(index), Some(total)) => if index < 0 || total <= 0 then None else Some(index)
    case _ => None
  }

  /** A chunk has an index exactly when it is well-formed, with an index from 0 and a total from 1. */
  lemma ChunkSeqExactly(value: string)
    ensures ChunkSeq(value).Some? <==>
      Parse(value).Some? && Parse(value).value.0.index >= 0 && Parse(value).value.1 > 0
    ensures ChunkSeq(value).Some? ==> ChunkSeq(value).value == Parse(value).value.0.index
  {
    hide SplitN, Atoi;
  }

  datatype Tagged = Tagged(record: TxtRecord, index: Option<int>, order: nat)

  /** The comparison handed to sort.SliceStable. */
  predicate Less(a: Tagged, b: Tagged) {
    if a.index.Some? != b.index.Some? then a.index.Some?
    else if a.index.Some? && b.index.Some? && a.index.value != b.index.value then a.index.value < b.index.value
    else a.order < b.order
  }

  /** The comparison is a strict order, as sorting needs. */
  lemma LessIsOrder()
    ensures StrictOrder(Less)
  {
  }

  /** Our records in the order they were listed, each with its index and its place. */
  function Tags(records: seq<TxtRecord>): seq<Tagged> {
    if records == [] then [] else
    var n := |records| - 1;
    Tags(records[..n]) + if IsChunk(records[n].value) then [Tagged(records[n], ChunkSeq(records[n].value), n)] else []
  }

  /** Our records in index order, malformed ones last. */
  function TaggedOwned(records: seq<TxtRecord>): seq<Tagged> { Sort(Tags(records), Less) }

  function RecordOf(t: Tagged): TxtRecord { t.record }
  function ValueOf(r: TxtRecord): string { r.value }
  function IdOf(r: TxtRecord): nat { r.id }

  function SortedOwned(records: seq<TxtRecord>): seq<TxtRecord> { Map(RecordOf, TaggedOwned(records)) }

  function Values(records: seq<TxtRecord>): (r: seq<string>)
    ensures |r| == |records| && forall i :: 0 <= i < |records| ==> r[i] == records[i].value
  {
    Map(ValueOf, records)
  }

  method SplitTxtRecords(records: seq<TxtRecord>) returns (tincan: seq<TxtRecord>, foreign: seq<TxtRecord>)
    ensures tincan == SortedOwned(records) && foreign == Foreign(records)
  {
    hide IsChunk, ChunkSeq, Map, Sort;
    var chunks: seq<Tagged> := [];
    foreign := [];
    for i := 0 to |records|
      invariant chunks == Tags(records[..i]) && foreign == Foreign(records[..i])
    {
      assert records[..i + 1][..i] == records[..i];
      if !IsChunk(records[i].value) {
        foreign := foreign + [records[i]];
      } else {
        chunks := chunks + [Tagged(records[i], ChunkSeq(records[i].value), i)];
      }
    }
    assert records[..|records|] == records;
    chunks := Sort(chunks, Less);
    tincan := [];
    for i := 0 to |chunks|
      invariant tincan == Map(RecordOf, chunks[..i])
    {
      MapGrows(RecordOf, chunks, i);
      tincan := tincan + [chunks[i].record];
    }
    assert chunks[..|chunks|] == chunks;
  }

  ghost predicate TagOf(records: seq<TxtRecord>, t: Tagged) {
    && t.order < |records| && records[t.order] == t.record
    && IsChunk(t.record.value) && t.index == ChunkSeq(t.record.value)
  }

  lemma {:induction false} TagsAre(records: seq<TxtRecord>)
    ensures forall t :: t in Tags(records) ==> TagOf(records, t)
    ensures multiset(Values(Map(RecordOf, Tags(records)))) == ChunkValues(records)
    decreases |records|
  {
    hide IsChunk, ChunkSeq;
    if records != [] {
      var n := |records| - 1;
      var front, last := records[..n], records[n];
      TagsAre(front);
      var tags := Tags(front);
      if IsChunk(last.value) {
        var t := Tagged(last, ChunkSeq(last.value), n);
        assert Map(RecordOf, tags + [t]) == Map(RecordOf, tags) + [last];
        assert Values(Map(RecordOf, tags) + [last]) == Values(Map(RecordOf, tags)) + [last.value];
      } else {
        assert tags + [] == tags;
      }
    }
  }

  lemma {:induction false} TagsDistinct(records: seq<TxtRecord>)
    requires DistinctIds(records)
    ensures DistinctIds(Map(RecordOf, Tags(records)))
    decreases |records|
  {
    hide IsChunk, ChunkSeq;
    if records != [] {
      var n := |records| - 1;
      var front, last := records[..n], records[n];
      TagsDistinct(front);
      TagsAre(front);
      var own := Map(RecordOf, Tags(front));
      forall i | 0 <= i < |own|
        ensures own[i].id != last.id
      {
        assert TagOf(front, Tags(front)[i]);
      }
      assert Tags(front) + [] == Tags(front);
    }
  }

  lemma IdsPermute(a: seq<TxtRecord>, b: seq<TxtRecord>)
    requires multiset(a) == multiset(b) && DistinctIds(a)
    ensures DistinctIds(b)
  {
    MapPermutes(IdOf, a, b);
    DistinctPermutes(Map(IdOf, a), Map(IdOf, b));
    assert forall i :: 0 <= i < |b| ==> Map(IdOf, b)[i] == b[i].id;
  }

  /** The sorted list holds exactly our records, each once. */
  lemma SortedOwnedIs(records: seq<TxtRecord>)
    requires DistinctIds(records)
    ensures DistinctIds(SortedOwned(records))
    ensures multiset(Values(SortedOwned(records))) == ChunkValues(records)
    ensures forall t :: t in TaggedOwned(records) ==> TagOf(records, t)
  {
    TagsAre(records);
    TagsDistinct(records);
    hide IsChunk, ChunkSeq, Map, Sort, Tags, ChunkValues, DistinctIds, TagOf;
    var sorted, tags := TaggedOwned(records), Tags(records);
    MapPermutes(RecordOf, tags, sorted);
    IdsPermute(Map(RecordOf, tags), SortedOwned(records));
    MapPermutes(ValueOf, Map(RecordOf, tags), SortedOwned(records));
    assert forall t :: t in sorted ==> t in multiset(tags);
  }

  /**
    The order our records are taken in: those with an index before malformed ones, lower indices
    first, and otherwise as they were listed.
   */
  lemma OwnedOrder(records: seq<TxtRecord>, i: nat, j: nat)
    requires DistinctIds(records) && i < j < |TaggedOwned(records)|
    ensures var a, b := TaggedOwned(records)[i], TaggedOwned(records)[j];
      var x, y := ChunkSeq(a.record.value), ChunkSeq(b.record.value);
      && SortedOwned(records)[i] == a.record && SortedOwned(records)[j] == b.record
      && a.order < |records| && b.order < |records| && records[a.order] == a.record && records[b.order] == b.record
      && (y.Some? ==> x.Some?)
      && (x.Some? && y.Some? ==> x.value <= y.value)
      && (x == y ==> a.order <= b.order)
  {
    SortedOwnedIs(records);
    LessIsOrder();
    SortInOrder(Tags(records), Less);
    assert InOrder(TaggedOwned(records), Less);
    hide IsChunk, ChunkSeq, TaggedOwned, DistinctIds, ChunkValues;
    var a, b := TaggedOwned(records)[i], TaggedOwned(records)[j];
    assert a in TaggedOwned(records) && b in TaggedOwned(records);
    assert TagOf(records, a) && TagOf(records, b) && !Less(b, a);
  }

  // ---- The provider ---------------------------------------------------------------------

  function Position(records: seq<TxtRecord>, id: nat): (k: nat)
    ensures k <= |records| && (k < |records| ==> records[k].id == id)
    ensures forall j :: 0 <= j < k ==> records[j].id != id
  {
    if records == [] then 0 else if records[0].id == id then 0 else 1 + Position(records[1..], id)
  }

  function UpdatedSet(records: seq<TxtRecord>, id: nat, value: string): seq<TxtRecord> {
    var k := Position(records, id);
    if k == |records| then records else records[k := TxtRecord(id, value)]
  }

  function DeletedSet(records: seq<TxtRecord>, id: nat): seq<TxtRecord> {
    var k := Position(records, id);
    if k == |records| then records else Without(records, k)
  }

  lemma DeletedKeeps(records: seq<TxtRecord>, id: nat, next: nat)
    requires DistinctIds(records) && forall i :: 0 <= i < |records| ==> records[i].id < next
    ensures var t := DeletedSet(records, id); DistinctIds(t) && forall i :: 0 <= i < |t| ==> t[i].id < next
  {
    var k, t := Position(records, id), DeletedSet(records, id);
    if k < |records| {
      assert forall i :: 0 <= i < |t| ==> t[i] == records[if i < k then i else i + 1];
    }
  }

  lemma UpdatedKeeps(records: seq<TxtRecord>, id: nat, value: string, next: nat)
    requires DistinctIds(records) && forall i :: 0 <= i < |records| ==> records[i].id < next
    ensures var t := UpdatedSet(records, id, value); DistinctIds(t) && forall i :: 0 <= i < |t| ==> t[i].id < next
  {
    var t := UpdatedSet(records, id, value);
    assert forall i :: 0 <= i < |t| ==> t[i].id == records[i].id;
  }

  /**
    A provider that edits single records. The first `budget` calls succeed; a call after that
    fails, having taken effect or not as `applies` says. A staging provider serves its edits
    only after a Flush.
   */
  class Zone {
    const staging: bool
    const applies: bool
    var records: seq<TxtRecord>
    var served: seq<TxtRecord>
    var nextId: nat
    var budget: nat
    /** Every record set this zone went through. */
    ghost var trail: seq<seq<TxtRecord>>

    ghost predicate Valid()
      reads this
    {
      && DistinctIds(records) && (forall i :: 0 <= i < |records| ==> records[i].id < nextId)
      && (!staging ==> served == records)
    }

    constructor (records: seq<TxtRecord>, nextId: nat, staging: bool, budget: nat, applies: bool)
      requires DistinctIds(records) && forall i :: 0 <= i < |records| ==> records[i].id < nextId
      ensures Valid() && this.records == records == served && this.staging == staging
      ensures this.budget == budget && this.applies == applies && trail == []
    {
      this.staging, this.applies, this.records, served := staging, applies, records, records;
      this.nextId, this.budget, trail := nextId, budget, [];
    }

    /** The outcome of the next call, and whether it takes effect. */
    method Attempt() returns (ok: bool, applied: bool)
      modifies this`budget
      ensures ok <==> old(budget) > 0
      ensures budget == if ok then old(budget) - 1 else 0
      ensures applied == (ok || applies)
    {
      if budget > 0 {
        budget := budget - 1;
        return true, true;
      }
      return false, applies;
    }

    /** The edit is in; it is served at once unless the provider stages it. */
    method Edit(edited: seq<TxtRecord>, applied: bool)
      modifies this`records, this`served, this`trail
      ensures records == if applied then edited else old(records)
      ensures served == if applied && !staging then edited else old(served)
      ensures trail == old(trail) + [records]
    {
      if applied {
        records := edited;
        if !staging {
          served := edited;
        }
      }
      trail := trail + [records];
    }

    method CreateTXT(value: string) returns (ok: bool)
      requires Valid()
      modifies this
      ensures Valid() && (ok <==> old(budget) > 0)
      ensures budget == if ok then old(budget) - 1 else 0
      ensures records == if ok || applies then old(records) + [TxtRecord(old(nextId), value)] else old(records)
      ensures trail == old(trail) + [records] && (staging ==> served == old(served))
    {
      var applied: bool;
      ok, applied := Attempt();
      Edit(records + [TxtRecord(nextId, value)], applied);
      nextId := nextId + 1;
    }

    method UpdateTXT(id: nat, value: string) returns (ok: bool)
      requires Valid()
      modifies this
      ensures Valid() && (ok <==> old(budget) > 0)
      ensures budget == if ok then old(budget) - 1 else 0
      ensures records == if ok || applies then UpdatedSet(old(records), id, value) else old(records)
      ensures trail == old(trail) + [records] && (staging ==> served == old(served))
    {
      var applied: bool;
      UpdatedKeeps(records, id, value, nextId);
      hide UpdatedSet, DistinctIds;
      ok, applied := Attempt();
      Edit(UpdatedSet(records, id, value), applied);
    }

    method DeleteTXT(id: nat) returns (ok: bool)
      requires Valid()
      modifies this
      ensures Valid() && (ok <==> old(budget) > 0)
      ensures budget == if ok then old(budget) - 1 else 0
      ensures records == if ok || applies then DeletedSet(old(records), id) else old(records)
      ensures trail == old(trail) + [records] && (staging ==> served == old(served))
    {
      var applied: bool;
      DeletedKeeps(records, id, nextId);
      hide DeletedSet, DistinctIds;
      ok, applied := Attempt();
      Edit(DeletedSet(records, id), applied);
    }

    /** The commit that a staging provider needs. */
    method Flush() returns (ok: bool)
      requires Valid()
      modifies this`budget, this`served
      ensures Valid() && (ok <==> old(budget) > 0)
      ensures budget == if ok then old(budget) - 1 else 0
      ensures served == if ok || applies then records else old(served)
    {
      var applied: bool;
      ok, applied := Attempt();
      if applied {
        served := records;
      }
    }
  }

  // ---- The specification both write paths share -----------------------------------------

  /** The unchanged foreign values, plus exactly the wanted chunks. */
  function Wanted(records: seq<TxtRecord>, desired: seq<string>): multiset<string> {
    multiset(Values(Foreign(records))) + multiset(desired)
  }

  lemma ValuesConcat(a: seq<TxtRecord>, b: seq<TxtRecord>)
    ensures multiset(Values(a + b)) == multiset(Values(a)) + multiset(Values(b))
  {
    assert Values(a + b) == Values(a) + Values(b);
  }

  lemma {:induction false} PartitionValues(records: seq<TxtRecord>)
    ensures multiset(Values(records)) == multiset(Values(Foreign(records))) + ChunkValues(records)
    decreases |records|
  {
    hide IsChunk;
    if records == [] {
      assert Values(records) == [] && Values(Foreign(records)) == [];
    } else {
      var n := |records| - 1;
      var front, last := records[..n], [records[n]];
      assert records == front + last;
      PartitionValues(front);
      SplitsConcat(front, last);
      SplitOne(records[n]);
      assert Values(last) == [records[n].value] && Values([]) == [];
      hide Values, Foreign, ChunkValues;
      ValuesConcat(front, last);
      ValuesConcat(Foreign(front), Foreign(last));
    }
  }

  /** The value list handed to a provider that replaces the whole set in one call. */
  method MergeForeignTxtValues(foreign: seq<TxtRecord>, desired: seq<string>) returns (values: seq<string>)
    ensures values == Values(foreign) + desired
  {
    if |foreign| == 0 {
      assert Values(foreign) + desired == desired;
      return desired;
    }
    values := [];
    for i := 0 to |foreign|
      invariant values == Values(foreign)[..i]
    {
      values := values + [foreign[i].value];
    }
    values := values + desired;
  }

  /** DNS.Put on such a provider: the set it is left with. */
  method PutReplacing(existing: seq<TxtRecord>, desired: seq<string>) returns (values: seq<string>)
    ensures multiset(values) == Wanted(existing, desired)
  {
    var _, foreign := SplitTxtRecords(existing);
    values := MergeForeignTxtValues(foreign, desired);
  }

  // ---- A set that already holds the chunks ----------------------------------------------

  lemma CutSeq(encoded: string, k: nat)
    requires Total(|encoded|) <= MAX_CHUNKS && k < Total(|encoded|)
    ensures ChunkSeq(Cut(encoded)[k]) == Some(k) && PartOf(Cut(encoded)[k]).index == k
  {
    CutParses(encoded, k);
    hide Cut, SplitN, Atoi;
  }

  /** A stored chunk was tagged with the index it was cut at. */
  lemma StoredAt(records: seq<TxtRecord>, encoded: string, i: nat) returns (k: nat)
    requires DistinctIds(records) && Total(|encoded|) <= MAX_CHUNKS
    requires ChunkValues(records) == multiset(Cut(encoded)) && i < |SortedOwned(records)|
    ensures k < Total(|encoded|) && SortedOwned(records)[i].value == Cut(encoded)[k]
    ensures TaggedOwned(records)[i].index == Some(k)
    ensures PartsOf(Values(SortedOwned(records)))[i].index == k
  {
    var tagged, values, chunks := TaggedOwned(records), Values(SortedOwned(records)), Cut(encoded);
    SortedOwnedIs(records);
    hide IsChunk, ChunkSeq, ChunkValues, TaggedOwned, Cut, PartOf, Total, DistinctIds;
    assert tagged[i] in tagged;
    assert values[i] in multiset(values);
    k :| 0 <= k < |chunks| && chunks[k] == values[i];
    CutSeq(encoded, k);
  }

  lemma StoredInOrder(records: seq<TxtRecord>, encoded: string)
    requires DistinctIds(records) && Total(|encoded|) <= MAX_CHUNKS
    requires ChunkValues(records) == multiset(Cut(encoded))
    ensures Sorted(PartsOf(Values(SortedOwned(records))))
  {
    LessIsOrder();
    SortInOrder(Tags(records), Less);
    assert InOrder(TaggedOwned(records), Less);
    hide IsChunk, ChunkSeq, ChunkValues, TaggedOwned, Cut, PartsOf, Total, DistinctIds;
    var parts := PartsOf(Values(SortedOwned(records)));
    forall i, j | 0 <= i < j < |parts|
      ensures parts[i].index <= parts[j].index
    {
      var k := StoredAt(records, encoded, i);
      var m := StoredAt(records, encoded, j);
      assert !Less(TaggedOwned(records)[j], TaggedOwned(records)[i]);
    }
  }

  /** Whatever order the chunks of a blob are stored in, sorting our records lists them in index order. */
  lemma StoredChunksSort(records: seq<TxtRecord>, encoded: string)
    requires DistinctIds(records) && Total(|encoded|) <= MAX_CHUNKS
    requires ChunkValues(records) == multiset(Cut(encoded))
    ensures Values(SortedOwned(records)) == Cut(encoded)
  {
    var values := Values(SortedOwned(records));
    SortedOwnedIs(records);
    MapPermutes(PartOf, values, Cut(encoded));
    PartsOfCut(encoded);
    StoredInOrder(records, encoded);
    assert |values| == |multiset(values)| == |multiset(Cut(encoded))| == |Cut(encoded)|;
    hide ChunkValues, TaggedOwned, Cut, PartsOf, Total, DistinctIds, Sorted;
    SortedUnique(PartsOf(values), CutParts(encoded));
    forall i | 0 <= i < |values|
      ensures values[i] == Cut(encoded)[i]
    {
      var k := StoredAt(records, encoded, i);
      assert k == i;
    }
  }

  // ---- What a reader gets after a Put ---------------------------------------------------

  lemma {:induction false} OwnedCounts(values: seq<string>, v: string)
    ensures multiset(Owned(values))[v] == if IsChunk(v) then multiset(values)[v] else 0
    decreases |values|
  {
    hide IsChunk;
    if values != [] {
      var n := |values| - 1;
      OwnedCounts(values[..n], v);
      assert values == values[..n] + [values[n]];
    }
  }

  lemma {:induction false} ForeignLacksPrefix(records: seq<TxtRecord>)
    ensures forall i :: 0 <= i < |Foreign(records)| ==> !IsChunk(Foreign(records)[i].value)
    decreases |records|
  {
    hide IsChunk;
    if records != [] {
      ForeignLacksPrefix(records[..|records| - 1]);
    }
  }

  /**
    Whichever path wrote it, a set that meets the specification reads back as the blob, in
    whatever order the resolver lists the values.
   */
  lemma PutThenGet(records: seq<TxtRecord>, encoded: string, values: seq<string>)
    requires Total(|encoded|) <= MAX_CHUNKS && multiset(values) == Wanted(records, Cut(encoded))
    ensures Reassemble(values) == Encoded(encoded)
  {
    var foreign, chunks := Values(Foreign(records)), Cut(encoded);
    ForeignLacksPrefix(records);
    hide IsChunk, Cut, Foreign, Owned, Reassemble, Total;
    forall v
      ensures multiset(Owned(values))[v] == multiset(chunks)[v]
    {
      OwnedCounts(values, v);
      if v in chunks {
        var k :| 0 <= k < |chunks| && chunks[k] == v;
        CutParses(encoded, k);
      }
      if v in foreign {
        var k :| 0 <= k < |foreign| && foreign[k] == v;
        assert foreign[k] == Foreign(records)[k].value;
      }
    }
    RoundTrip(encoded, values);
  }

  /** Such a set causes no call at all. */
  method PutTwice(zone: Zone, encoded: string) returns (ok: bool)
    requires zone.Valid() && Total(|encoded|) <= MAX_CHUNKS
    requires ChunkValues(zone.records) == multiset(Cut(encoded))
    modifies zone
    ensures ok && zone.records == old(zone.records) && zone.trail == old(zone.trail)
    ensures zone.served == old(zone.served) && zone.budget == old(zone.budget)
  {
    StoredChunksSort(zone.records, encoded);
    forall i | 0 <= i < Total(|encoded|)
      ensures IsChunk(Cut(encoded)[i])
    {
      CutParses(encoded, i);
    }
    hide *;
    ok := PutRecords(zone, Cut(encoded));
  }

  // ---- Progress of the reconciliation ---------------------------------------------------

  /** Foreign records as at the start, and no fewer chunks than the old or the new number. */
  ghost predicate Safe(start: seq<TxtRecord>, t: seq<TxtRecord>, desired: seq<string>) {
    Foreign(t) == Foreign(start) && |ChunkValues(t)| >= Min(|ChunkValues(start)|, |desired|)
  }

  /** The first n wanted values are in place, and the old chunks from m on are still there. */
  ghost predicate Reached(
    start: seq<TxtRecord>, t: seq<TxtRecord>, desired: seq<string>, e: seq<TxtRecord>, n: nat, m: nat)
  {
    && n <= |desired| && m <= |e| && DistinctIds(t)
    && Foreign(t) == Foreign(start)
    && ChunkValues(t) == multiset(desired[..n]) + multiset(Values(e[m..]))
    && forall j :: m <= j < |e| ==> e[j] in t
  }

  lemma ReachedSafe(start: seq<TxtRecord>, t: seq<TxtRecord>, desired: seq<string>, e: seq<TxtRecord>, n: nat, m: nat)
    requires Reached(start, t, desired, e, n, m) && |ChunkValues(start)| == |e|
    requires n == |desired| || m <= n
    ensures Safe(start, t, desired)
  {
    assert |multiset(desired[..n])| == n && |multiset(Values(e[m..]))| == |e| - m;
  }

  lemma FoundAt(records: seq<TxtRecord>, r: TxtRecord)
    requires DistinctIds(records) && r in records
    ensures Position(records, r.id) < |records| && records[Position(records, r.id)] == r
  {
    var k :| 0 <= k < |records| && records[k] == r;
    var p := Position(records, r.id);
    assert p <= k;
  }

  lemma NextOld(e: seq<TxtRecord>, m: nat)
    requires m < |e|
    ensures multiset(Values(e[m..])) == multiset{e[m].value} + multiset(Values(e[m + 1..]))
  {
    assert Values(e[m..]) == [e[m].value] + Values(e[m + 1..]);
  }

  lemma NextWanted(desired: seq<string>, n: nat)
    requires n < |desired|
    ensures multiset(desired[..n + 1]) == multiset(desired[..n]) + multiset{desired[n]}
  {
    assert desired[..n + 1] == desired[..n] + [desired[n]];
  }

  lemma KeepStep(start: seq<TxtRecord>, t: seq<TxtRecord>, desired: seq<string>, e: seq<TxtRecord>, n: nat)
    requires Reached(start, t, desired, e, n, n) && n < |desired| && n < |e| && e[n].value == desired[n]
    ensures Reached(start, t, desired, e, n + 1, n + 1)
  {
    NextOld(e, n);
    NextWanted(desired, n);
  }

  lemma UpdateStep(start: seq<TxtRecord>, t: seq<TxtRecord>, desired: seq<string>, e: seq<TxtRecord>, n: nat)
    requires Reached(start, t, desired, e, n, n) && n < |desired| && n < |e| && DistinctIds(e)
    requires IsChunk(e[n].value) && IsChunk(desired[n])
    ensures Reached(start, UpdatedSet(t, e[n].id, desired[n]), desired, e, n + 1, n + 1)
  {
    hide IsChunk, Foreign, ChunkValues;
    NextOld(e, n);
    NextWanted(desired, n);
    FoundAt(t, e[n]);
    var k := Position(t, e[n].id);
    ReplaceChunk(t, k, TxtRecord(e[n].id, desired[n]));
    var t' := UpdatedSet(t, e[n].id, desired[n]);
    forall j | n + 1 <= j < |e|
      ensures e[j] in t'
    {
      var i :| 0 <= i < |t| && t[i] == e[j];
      assert t'[i] == e[j];
    }
    Cancel(ChunkValues(t'), multiset(desired[..n + 1]) + multiset(Values(e[n + 1..])), multiset{e[n].value});
  }

  lemma CreateStep(start: seq<TxtRecord>, t: seq<TxtRecord>, desired: seq<string>, e: seq<TxtRecord>, n: nat, id: nat)
    requires Reached(start, t, desired, e, n, |e|) && n < |desired| && IsChunk(desired[n])
    requires forall i :: 0 <= i < |t| ==> t[i].id != id
    ensures Reached(start, t + [TxtRecord(id, desired[n])], desired, e, n + 1, |e|)
  {
    hide IsChunk, Foreign, ChunkValues;
    NextWanted(desired, n);
    SplitsConcat(t, [TxtRecord(id, desired[n])]);
    SplitOne(TxtRecord(id, desired[n]));
    assert e[|e|..] == [] && multiset(Values([])) == multiset{};
  }

  lemma DeleteStep(start: seq<TxtRecord>, t: seq<TxtRecord>, desired: seq<string>, e: seq<TxtRecord>, m: nat)
    requires Reached(start, t, desired, e, |desired|, m) && m < |e| && DistinctIds(e) && IsChunk(e[m].value)
    ensures Reached(start, DeletedSet(t, e[m].id), desired, e, |desired|, m + 1)
  {
    hide IsChunk, Foreign, ChunkValues;
    NextOld(e, m);
    FoundAt(t, e[m]);
    RemoveChunk(t, Position(t, e[m].id));
    OthersSurvive(t, e, m);
    var t' := DeletedSet(t, e[m].id);
    var rest := multiset(desired[..|desired|]) + multiset(Values(e[m + 1..]));
    assert ChunkValues(t') + multiset{e[m].value} == rest + multiset{e[m].value};
    Cancel(ChunkValues(t'), rest, multiset{e[m].value});
  }

  lemma OthersSurvive(t: seq<TxtRecord>, e: seq<TxtRecord>, m: nat)
    requires DistinctIds(t) && DistinctIds(e) && m < |e| && forall j :: m <= j < |e| ==> e[j] in t
    ensures DistinctIds(DeletedSet(t, e[m].id))
    ensures forall j :: m + 1 <= j < |e| ==> e[j] in DeletedSet(t, e[m].id)
  {
    FoundAt(t, e[m]);
    var k, t' := Position(t, e[m].id), DeletedSet(t, e[m].id);
    forall j | m + 1 <= j < |e|
      ensures e[j] in t'
    {
      var i :| 0 <= i < |t| && t[i] == e[j];
      assert e[j].id != e[m].id;
      assert i < k ==> t'[i] == e[j];
      assert i > k ==> t'[i - 1] == e[j];
    }
  }

  // ---- DNS.Put on a provider that edits single records ----------------------------------

  /** What the reconciliation knows about the chunks it found. */
  ghost predicate FoundChunks(start: seq<TxtRecord>, e: seq<TxtRecord>) {
    && DistinctIds(e) && |ChunkValues(start)| == |e|
    && forall j :: 0 <= j < |e| ==> IsChunk(e[j].value)
  }

  /** One turn of the loop over the wanted values. */
  method PlaceOne(zone: Zone, ghost start: seq<TxtRecord>, desired: seq<string>, e: seq<TxtRecord>, i: nat)
    returns (ok: bool, changed: bool)
    requires zone.Valid() && i < |desired| && IsChunk(desired[i]) && FoundChunks(start, e)
    requires Reached(start, zone.records, desired, e, i, Min(i, |e|))
    modifies zone
    ensures zone.Valid() && Safe(start, zone.records, desired)
    ensures ok ==> Reached(start, zone.records, desired, e, i + 1, Min(i + 1, |e|))
    ensures changed <==> i >= |e| || e[i].value != desired[i]
    ensures zone.trail == if changed then old(zone.trail) + [zone.records] else old(zone.trail)
    ensures (old(zone.budget) > 0 ==> ok) && (ok ==> zone.budget + |zone.trail| == old(zone.budget) + |old(zone.trail)|)
    ensures zone.staging ==> zone.served == old(zone.served)
    ensures !changed ==> ok && zone.records == old(zone.records) && zone.served == old(zone.served)
  {
    ghost var t := zone.records;
    hide IsChunk, Foreign, ChunkValues, UpdatedSet, Safe, Reached, DistinctIds;
    ReachedSafe(start, t, desired, e, i, Min(i, |e|));
    if i >= |e| {
      assert forall k :: 0 <= k < |t| ==> t[k].id != zone.nextId;
      CreateStep(start, t, desired, e, i, zone.nextId);
      ReachedSafe(start, t + [TxtRecord(zone.nextId, desired[i])], desired, e, i + 1, |e|);
      ok := zone.CreateTXT(desired[i]);
      changed := true;
    } else if e[i].value != desired[i] {
      UpdateStep(start, t, desired, e, i);
      ReachedSafe(start, UpdatedSet(t, e[i].id, desired[i]), desired, e, i + 1, i + 1);
      ok := zone.UpdateTXT(e[i].id, desired[i]);
      changed := true;
    } else {
      KeepStep(start, t, desired, e, i);
      ok, changed := true, false;
      ReachedSafe(start, t, desired, e, i + 1, i + 1);
    }
  }

  /** One turn of the loop over the surplus. */
  method DropOne(zone: Zone, ghost start: seq<TxtRecord>, desired: seq<string>, e: seq<TxtRecord>, m: nat)
    returns (ok: bool)
    requires zone.Valid() && m < |e| && FoundChunks(start, e)
    requires Reached(start, zone.records, desired, e, |desired|, m)
    modifies zone
    ensures zone.Valid() && Safe(start, zone.records, desired)
    ensures ok ==> Reached(start, zone.records, desired, e, |desired|, m + 1)
    ensures zone.trail == old(zone.trail) + [zone.records]
    ensures (old(zone.budget) > 0 ==> ok) && (ok ==> zone.budget + |zone.trail| == old(zone.budget) + |old(zone.trail)|)
    ensures zone.staging ==> zone.served == old(zone.served)
  {
    ghost var t := zone.records;
    hide IsChunk, Foreign, ChunkValues, DeletedSet, Safe, Reached;
    ReachedSafe(start, t, desired, e, |desired|, m);
    DeleteStep(start, t, desired, e, m);
    ReachedSafe(start, DeletedSet(t, e[m].id), desired, e, |desired|, m + 1);
    ok := zone.DeleteTXT(e[m].id);
  }

  /** Every record set since `past` was safe. */
  ghost predicate SafeTrail(
    start: seq<TxtRecord>, desired: seq<string>, past: seq<seq<TxtRecord>>, trail: seq<seq<TxtRecord>>)
  {
    past <= trail && forall k :: |past| <= k < |trail| ==> Safe(start, trail[k], desired)
  }

  lemma TrailGrows(
    start: seq<TxtRecord>, desired: seq<string>,
    past: seq<seq<TxtRecord>>, trail: seq<seq<TxtRecord>>, t: seq<TxtRecord>)
    requires SafeTrail(start, desired, past, trail) && Safe(start, t, desired)
    ensures SafeTrail(start, desired, past, trail + [t])
  {
    hide Safe;
  }

  /** The first n wanted values are already in their places. */
  ghost predicate Agrees(e: seq<TxtRecord>, desired: seq<string>, n: nat) {
    n <= |e| && n <= |desired| && forall k :: 0 <= k < n ==> e[k].value == desired[k]
  }

  /** The loop over the wanted values. */
  method PlaceAll(
    zone: Zone, ghost start: seq<TxtRecord>, ghost past: seq<seq<TxtRecord>>, desired: seq<string>, e: seq<TxtRecord>)
    returns (ok: bool, changed: bool)
    requires zone.Valid() && FoundChunks(start, e) && forall i :: 0 <= i < |desired| ==> IsChunk(desired[i])
    requires Reached(start, zone.records, desired, e, 0, 0)
    requires Safe(start, zone.records, desired) && SafeTrail(start, desired, past, zone.trail)
    modifies zone
    ensures zone.Valid() && Safe(start, zone.records, desired) && SafeTrail(start, desired, past, zone.trail)
    ensures ok ==> Reached(start, zone.records, desired, e, |desired|, Min(|desired|, |e|))
    ensures old(zone.budget) >= |desired| ==> ok && zone.budget >= old(zone.budget) - |desired|
    ensures ok ==> zone.budget + |zone.trail| == old(zone.budget) + |old(zone.trail)|
    ensures zone.staging ==> zone.served == old(zone.served)
    ensures ok ==> (changed <==> !Agrees(e, desired, |desired|))
    ensures ok ==> (changed <==> |zone.trail| > |old(zone.trail)|)
    ensures Agrees(e, desired, |desired|) ==> ok
    ensures Agrees(e, desired, |desired|) ==> zone.records == old(zone.records) && zone.trail == old(zone.trail)
    ensures Agrees(e, desired, |desired|) ==> zone.served == old(zone.served)
  {
    hide IsChunk, Safe, Reached, FoundChunks, SafeTrail, DistinctIds;
    changed := false;
    for i := 0 to |desired|
      invariant zone.Valid() && Safe(start, zone.records, desired) && SafeTrail(start, desired, past, zone.trail)
      invariant Reached(start, zone.records, desired, e, i, Min(i, |e|))
      invariant zone.budget + |zone.trail| == old(zone.budget) + |old(zone.trail)|
      invariant |old(zone.trail)| <= |zone.trail| <= |old(zone.trail)| + i
      invariant zone.staging ==> zone.served == old(zone.served)
      invariant changed <==> !Agrees(e, desired, i)
      invariant changed <==> |zone.trail| > |old(zone.trail)|
      invariant !changed ==> zone.records == old(zone.records) && zone.trail == old(zone.trail)
      invariant !changed ==> zone.served == old(zone.served)
    {
      ghost var before := zone.trail;
      var one: bool;
      ok, one := PlaceOne(zone, start, desired, e, i);
      TrailGrows(start, desired, past, before, zone.records);
      if !ok {
        return;
      }
      changed := changed || one;
    }
    ok := true;
  }

  /** The loop over the surplus. */
  method DropSurplus(
    zone: Zone, ghost start: seq<TxtRecord>, ghost past: seq<seq<TxtRecord>>, desired: seq<string>, e: seq<TxtRecord>)
    returns (ok: bool)
    requires zone.Valid() && FoundChunks(start, e) && |desired| < |e|
    requires Reached(start, zone.records, desired, e, |desired|, |desired|)
    requires Safe(start, zone.records, desired) && SafeTrail(start, desired, past, zone.trail)
    modifies zone
    ensures zone.Valid() && Safe(start, zone.records, desired) && SafeTrail(start, desired, past, zone.trail)
    ensures ok ==> Reached(start, zone.records, desired, e, |desired|, |e|)
    ensures old(zone.budget) >= |e| - |desired| ==> ok && zone.budget >= old(zone.budget) - (|e| - |desired|)
    ensures ok ==> zone.budget + |zone.trail| == old(zone.budget) + |old(zone.trail)|
    ensures |zone.trail| > |old(zone.trail)|
    ensures zone.staging ==> zone.served == old(zone.served)
  {
    hide IsChunk, Safe, Reached, FoundChunks, SafeTrail, DistinctIds;
    for m := |desired| to |e|
      invariant zone.Valid() && Safe(start, zone.records, desired) && SafeTrail(start, desired, past, zone.trail)
      invariant Reached(start, zone.records, desired, e, |desired|, m)
      invariant zone.budget + |zone.trail| == old(zone.budget) + |old(zone.trail)|
      invariant |zone.trail| == |old(zone.trail)| + (m - |desired|)
      invariant zone.staging ==> zone.served == old(zone.served)
    {
      ghost var before := zone.trail;
      ok := DropOne(zone, start, desired, e, m);
      TrailGrows(start, desired, past, before, zone.records);
      if !ok {
        return;
      }
    }
    ok := true;
  }

  /** Both loops: first every wanted value gets a record, then what is left over goes. */
  method EditRecords(zone: Zone, desired: seq<string>) returns (ok: bool, changed: bool)
    requires zone.Valid() && forall i :: 0 <= i < |desired| ==> IsChunk(desired[i])
    modifies zone
    ensures zone.Valid() && Safe(old(zone.records), zone.records, desired)
    ensures ok ==> multiset(Values(zone.records)) == Wanted(old(zone.records), desired)
    ensures SafeTrail(old(zone.records), desired, old(zone.trail), zone.trail)
    ensures old(zone.budget) >= |ChunkValues(old(zone.records))| + |desired| ==> ok
    ensures ok ==> zone.budget + |zone.trail| == old(zone.budget) + |old(zone.trail)|
    ensures old(zone.budget) > |ChunkValues(old(zone.records))| + |desired| ==> zone.budget > 0
    ensures zone.staging ==> zone.served == old(zone.served)
    ensures ok ==> (changed <==> Values(SortedOwned(old(zone.records))) != desired)
    ensures ok ==> (changed <==> |zone.trail| > |old(zone.trail)|)
    ensures Values(SortedOwned(old(zone.records))) == desired ==>
      && ok && zone.records == old(zone.records) && zone.trail == old(zone.trail) && zone.served == old(zone.served)
  {
    ghost var start, past := zone.records, zone.trail;
    var e, _ := SplitTxtRecords(zone.records);
    StartReached(start, desired);
    assert |ChunkValues(start)| == |e|;
    assert SafeTrail(start, desired, past, zone.trail);
    assert forall t :: Safe(start, t, desired) ==> Foreign(t) == Foreign(start);
    SameValues(e, desired);
    hide IsChunk, Foreign, ChunkValues, SortedOwned, Safe, Reached, FoundChunks, SafeTrail, DistinctIds, Agrees, Values;
    ok, changed := PlaceAll(zone, start, past, desired, e);
    if ok && |desired| < |e| {
      changed := true;
      ok := DropSurplus(zone, start, past, desired, e);
    }
    if ok {
      AllReached(start, zone.records, desired, e);
    }
    PartitionValues(zone.records);
  }

  lemma SameValues(e: seq<TxtRecord>, desired: seq<string>)
    ensures Values(e) == desired <==> |e| == |desired| && Agrees(e, desired, |desired|)
    ensures Agrees(e, desired, |desired|) ==> |desired| <= |e|
  {
  }

  /**
    DNS.Put on such a provider. Once it reports success the records are as wanted; they are also
    served, unless a staging provider held edits that were never flushed and Put found nothing
    left to edit.
   */
  method PutRecords(zone: Zone, desired: seq<string>) returns (ok: bool)
    requires zone.Valid() && forall i :: 0 <= i < |desired| ==> IsChunk(desired[i])
    modifies zone
    ensures zone.Valid()
    ensures Safe(old(zone.records), zone.records, desired)
    ensures SafeTrail(old(zone.records), desired, old(zone.trail), zone.trail)
    ensures ok || old(zone.budget) >= |ChunkValues(old(zone.records))| + |desired| ==>
      multiset(Values(zone.records)) == Wanted(old(zone.records), desired)
    ensures old(zone.budget) > |ChunkValues(old(zone.records))| + |desired| ==> ok
    ensures ok ==>
      (zone.served == zone.records <==>
        !zone.staging || Values(SortedOwned(old(zone.records))) != desired || old(zone.served) == old(zone.records))
    ensures ok && zone.staging && Values(SortedOwned(old(zone.records))) != desired ==> old(zone.budget) >= 2
    ensures !ok && zone.staging && !zone.applies ==> zone.served == old(zone.served)
    ensures Values(SortedOwned(old(zone.records))) == desired ==>
      && ok && zone.records == old(zone.records) && zone.trail == old(zone.trail)
      && zone.served == old(zone.served) && zone.budget == old(zone.budget)
  {
    hide IsChunk, ChunkValues, SortedOwned, Safe, SafeTrail, DistinctIds, Values, Wanted;
    var changed: bool;
    ok, changed := EditRecords(zone, desired);
    if ok && changed && zone.staging {
      ok := zone.Flush();
    }
  }

  lemma StartReached(start: seq<TxtRecord>, desired: seq<string>)
    requires DistinctIds(start)
    ensures FoundChunks(start, SortedOwned(start))
    ensures Reached(start, start, desired, SortedOwned(start), 0, 0)
    ensures Safe(start, start, desired)
  {
    hide IsChunk, ChunkSeq;
    var e := SortedOwned(start);
    SortedOwnedIs(start);
    OwnedListed(start);
    assert |multiset(Values(e))| == |e|;
    assert e[0..] == e;
  }

  lemma AllReached(start: seq<TxtRecord>, t: seq<TxtRecord>, desired: seq<string>, e: seq<TxtRecord>)
    requires Reached(start, t, desired, e, |desired|, |e|)
    ensures ChunkValues(t) == multiset(desired)
  {
    assert desired[..|desired|] == desired && Values(e[|e|..]) == [];
  }

  lemma OwnedListed(records: seq<TxtRecord>)
    requires DistinctIds(records)
    ensures forall j :: 0 <= j < |SortedOwned(records)| ==>
      SortedOwned(records)[j] in records && IsChunk(SortedOwned(records)[j].value)
  {
    hide IsChunk, ChunkSeq;
    SortedOwnedIs(records);
    forall j | 0 <= j < |SortedOwned(records)|
      ensures SortedOwned(records)[j] in records && IsChunk(SortedOwned(records)[j].value)
    {
      assert TaggedOwned(records)[j] in TaggedOwned(records);
    }
  }

  // ---- A lost Flush ---------------------------------------------------------------------

  /**
    The first Put creates the one wanted record and loses its Flush. The second finds nothing to
    edit, reports success without a Flush, and the zone still serves nothing.
   */
  method LostFlush(value: string) returns (zone: Zone, first: bool, second: bool)
    requires IsChunk(value)
    ensures !first && second && fresh(zone)
    ensures zone.served == [] && multiset(Values(zone.records)) == multiset{value}
  {
    EmptyZone(value);
    hide IsChunk, Safe, SafeTrail, SortedOwned, ChunkValues, Wanted, Values;
    zone := new Zone([], 0, true, 1, false);
    first := PutRecords(zone, [value]);
    OneLeft(zone.records, value);
    zone.budget := 9;
    second := PutRecords(zone, [value]);
  }

  lemma EmptyZone(value: string)
    ensures ChunkValues([]) == multiset{} && SortedOwned([]) == [] && Values([]) == []
    ensures Wanted([], [value]) == multiset{value}
  {
  }

  lemma OneLeft(records: seq<TxtRecord>, value: string)
    requires DistinctIds(records) && multiset(Values(records)) == multiset{value} && IsChunk(value)
    ensures Values(SortedOwned(records)) == [value]
  {
    hide IsChunk;
    assert |records| == |multiset(Values(records))| == 1;
    assert Values(records)[0] in multiset(Values(records));
    assert records == [records[0]] && records[0].value == value;
    SplitOne(records[0]);
    SortedOwnedIs(records);
    var own := Values(SortedOwned(records));
    assert |own| == |multiset(own)| == 1;
    assert own[0] in multiset(own);
    assert own == [own[0]];
  }
}
