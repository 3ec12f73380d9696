/**
  Reading the drop from several Nostr relays that answer in any order.

  The hash, the signature check and base64 are parameters; what is needed of the hash is that no two
  events in the answers at hand collide.
 */
module NostrDrop {
  import opened Options
  import opened Text
  import opened Nip01

  const KIND: int := 30078

  /** What one relay returned: it may deliver events and then fail. */
  datatype Answer = Answer(events: seq<Event>, failed: bool)

  const MAX_BLOB_SIZE: nat := 0x40_0000

  datatype Outcome = Blob(data: seq<nat>) | Undecodable | TooLarge | NotFound | AllRelaysFailed

  datatype Drop = Drop(
    author: string, identifier: string,
    hash: string -> seq<nat>, signed: (seq<nat>, string, string) -> bool, decode: string -> Option<seq<nat>>)

  /** What becomes of the selected event's content. */
  function Decoded(d: Drop, content: string): Outcome {
    match (d.decode)(content)
    case None => Undecodable
    case Some(data) => if |data| > MAX_BLOB_SIZE then TooLarge else Blob(data)
  }

  // ---- validEvent -----------------------------------------------------------------------

  function HexNibble(c: char): Option<nat> {
    if 'A' <= c <= 'F' then Some((c - 'A') as nat + 10) else HexValue(c)
  }

  /** hex.DecodeString: upper and lower case digits, an even number of them. */
  function DecodeHex(s: string): Option<seq<nat>> {
    if s == "" then Some([]) else
    if |s| == 1 then None else
    match (HexNibble(s[0]), HexNibble(s[1]), DecodeHex(s[2..]))
    case (Some(h), Some(l), Some(rest)) => Some([16 * h + l] + rest)
    case _ => None
  }

  /** Event.Verify: the id is the hash of the contents, and the signature covers it. */
  predicate Verify(d: Drop, e: Event) {
    && DecodeHex(e.id) == Some(d.hash(Serialized(e)))
    && |d.hash(Serialized(e))| == 32
    && d.signed(d.hash(Serialized(e)), e.pubKey, e.sig)
  }

  predicate ValidEvent(d: Drop, e: Event) {
    e.pubKey == d.author && e.kind == KIND && DTagFrom(e.tags, 0) == d.identifier && Verify(d, e)
  }

  // ---- The order of preference ----------------------------------------------------------

  /** Newest first, then the lowest id. */
  predicate Beats(a: Event, b: Event) {
    a.createdAt > b.createdAt || (a.createdAt == b.createdAt && Before(a.id, b.id))
  }

  lemma BeatsTransitive(a: Event, b: Event, c: Event)
    requires Beats(a, b) && Beats(b, c)
    ensures Beats(a, c)
  {
    hide Before;
    if a.createdAt == b.createdAt == c.createdAt {
      BeforeTransitive(a.id, b.id, c.id);
    }
  }

  // ---- Get ------------------------------------------------------------------------------

  predicate Delivered(answers: seq<Answer>, e: Event) {
    exists k :: 0 <= k < |answers| && e in answers[k].events
  }

  /** e is a genuine event of the drop, and no genuine event delivered is preferred to it. */
  ghost predicate Best(d: Drop, answers: seq<Answer>, e: Event) {
    && Delivered(answers, e) && ValidEvent(d, e)
    && forall f :: Delivered(answers, f) && ValidEvent(d, f) ==> !Beats(f, e)
  }

  ghost predicate NoneValid(d: Drop, answers: seq<Answer>) {
    forall f :: Delivered(answers, f) ==> !ValidEvent(d, f)
  }

  /** What Get must return, without reference to the order of the answers. */
  ghost predicate Selects(d: Drop, answers: seq<Answer>, outcome: Outcome) {
    match outcome
    case NotFound =>
      NoneValid(d, answers) && (answers == [] || exists k :: 0 <= k < |answers| && !answers[k].failed)
    case AllRelaysFailed =>
      NoneValid(d, answers) && answers != [] && forall k :: 0 <= k < |answers| ==> answers[k].failed
    case _ => exists e :: Best(d, answers, e) && outcome == Decoded(d, e.content)
  }

  /** The state of the loop: the best event, if any, of those looked at. */
  ghost predicate BestSoFar(d: Drop, looked: set<Event>, best: Option<Event>) {
    match best
    case None => forall f :: f in looked ==> !ValidEvent(d, f)
    case Some(e) => e in looked && ValidEvent(d, e) && forall f :: f in looked && ValidEvent(d, f) ==> !Beats(f, e)
  }

  method Consider(d: Drop, best: Option<Event>, e: Event, ghost looked: set<Event>) returns (r: Option<Event>)
    requires BestSoFar(d, looked, best)
    ensures BestSoFar(d, looked + {e}, r)
  {
    hide ValidEvent, Before;
    if !ValidEvent(d, e) {
      return best;
    }
    assert !Before(e.id, e.id) by { BeforeIrreflexive(e.id); }
    if best.None? || e.createdAt > best.value.createdAt
      || (e.createdAt == best.value.createdAt && Before(e.id, best.value.id)) {
      forall f | f in looked && ValidEvent(d, f)
        ensures !Beats(f, e)
      {
        if Beats(f, e) {
          BeatsTransitive(f, e, best.value);
        }
      }
      return Some(e);
    }
    return best;
  }

  /** The events of one answer, in turn. */
  method ConsiderAll(d: Drop, best: Option<Event>, events: seq<Event>, ghost looked: set<Event>)
    returns (r: Option<Event>)
    requires BestSoFar(d, looked, best)
    ensures BestSoFar(d, looked + (set e | e in events), r)
  {
    hide BestSoFar;
    r := best;
    ghost var now := looked;
    for i := 0 to |events|
      invariant BestSoFar(d, now, r) && now == looked + (set e | e in events[..i])
    {
      r := Consider(d, r, events[i], now);
      now := now + {events[i]};
      assert events[..i + 1] == events[..i] + [events[i]];
    }
    assert events[..|events|] == events;
  }

  ghost function AllEvents(answers: seq<Answer>): (s: set<Event>)
    ensures forall e :: e in s <==> Delivered(answers, e)
  {
    if answers == [] then {} else
    var n := |answers| - 1;
    assert forall e :: Delivered(answers, e) <==> Delivered(answers[..n], e) || e in answers[n].events by {
      assert forall k :: 0 <= k < n ==> answers[..n][k] == answers[k];
    }
    AllEvents(answers[..n]) + set e | e in answers[n].events
  }

  /** Nostr.Get on the answers in the order they arrive. */
  method Get(d: Drop, answers: seq<Answer>) returns (outcome: Outcome)
    ensures Selects(d, answers, outcome)
  {
    hide ValidEvent, BestSoFar, Delivered, Beats;
    var best: Option<Event> := None;
    assert BestSoFar(d, {}, best) by { NothingLookedAt(d); }
    var clean, errs := 0, 0;
    for k := 0 to |answers|
      invariant BestSoFar(d, AllEvents(answers[..k]), best)
      invariant clean + errs == k && clean >= 0
      invariant clean == 0 <==> forall j :: 0 <= j < k ==> answers[j].failed
    {
      if answers[k].failed {
        errs := errs + 1;
      } else {
        clean := clean + 1;
      }
      best := ConsiderAll(d, best, answers[k].events, AllEvents(answers[..k]));
      assert answers[..k + 1][..k] == answers[..k];
    }
    assert answers[..|answers|] == answers;
    BestIsBest(d, answers, best);
    if best.None? {
      return if clean == 0 && errs > 0 then AllRelaysFailed else NotFound;
    }
    return Decoded(d, best.value.content);
  }

  lemma NothingLookedAt(d: Drop)
    ensures BestSoFar(d, {}, None)
  {
  }

  lemma BestIsBest(d: Drop, answers: seq<Answer>, best: Option<Event>)
    requires BestSoFar(d, AllEvents(answers), best)
    ensures best.None? ==> NoneValid(d, answers)
    ensures best.Some? ==> Best(d, answers, best.value)
  {
    hide ValidEvent, Delivered, Beats;
  }

  // ---- The choice does not depend on the order ------------------------------------------

  ghost predicate NoCollision(d: Drop, answers: seq<Answer>) {
    forall e, f :: Delivered(answers, e) && Delivered(answers, f) && d.hash(Serialized(e)) == d.hash(Serialized(f))
      ==> Serialized(e) == Serialized(f)
  }

  /** Two best events carry the same content, even if they differ in signature. */
  lemma BestContent(d: Drop, answers: seq<Answer>, e: Event, f: Event)
    requires NoCollision(d, answers) && Best(d, answers, e) && Best(d, answers, f)
    ensures e.id == f.id && e.content == f.content && e.createdAt == f.createdAt && e.tags == f.tags
  {
    hide DecodeHex, Serialized, Delivered, Before;
    assert !Beats(e, f) && !Beats(f, e);
    BeforeTotal(e.id, f.id);
    SerializationInjective(e, f);
  }

  ghost predicate SameAnswers(a: seq<Answer>, b: seq<Answer>) { multiset(a) == multiset(b) }

  lemma SameDelivered(a: seq<Answer>, b: seq<Answer>, e: Event)
    requires SameAnswers(a, b) && Delivered(a, e)
    ensures Delivered(b, e)
  {
    var k :| 0 <= k < |a| && e in a[k].events;
    assert a[k] in multiset(b);
    var j :| 0 <= j < |b| && b[j] == a[k];
  }

  lemma SameSelection(d: Drop, a: seq<Answer>, b: seq<Answer>, outcome: Outcome)
    requires SameAnswers(a, b) && Selects(d, a, outcome)
    ensures Selects(d, b, outcome)
  {
    hide ValidEvent, Delivered, Beats;
    assert |a| == |multiset(a)| == |multiset(b)| == |b|;
    forall e
      ensures Delivered(a, e) <==> Delivered(b, e)
    {
      if Delivered(a, e) {
        SameDelivered(a, b, e);
      }
      if Delivered(b, e) {
        SameDelivered(b, a, e);
      }
    }
    assert forall k :: 0 <= k < |a| ==> a[k] in multiset(b);
    assert forall k :: 0 <= k < |b| ==> b[k] in multiset(a);
    match outcome
    case NotFound =>
      if a != [] {
        var k :| 0 <= k < |a| && !a[k].failed;
        var j :| 0 <= j < |b| && b[j] == a[k];
      }
    case AllRelaysFailed =>
    case _ =>
      var e :| Best(d, a, e) && outcome == Decoded(d, e.content);
      assert Best(d, b, e);
  }

  lemma SelectionUnique(d: Drop, answers: seq<Answer>, p: Outcome, q: Outcome)
    requires NoCollision(d, answers) && Selects(d, answers, p) && Selects(d, answers, q)
    ensures p == q
  {
    hide ValidEvent, Delivered, Beats, NoCollision;
    if !(p.NotFound? || p.AllRelaysFailed?) && !(q.NotFound? || q.AllRelaysFailed?) {
      var e :| Best(d, answers, e) && p == Decoded(d, e.content);
      var f :| Best(d, answers, f) && q == Decoded(d, f.content);
      BestContent(d, answers, e, f);
    }
  }

  /** However the relays' answers are ordered, every reader gets the same blob, or the same error. */
  lemma OrderIndependent(d: Drop, a: seq<Answer>, b: seq<Answer>, p: Outcome, q: Outcome)
    requires SameAnswers(a, b) && NoCollision(d, a) && Selects(d, a, p) && Selects(d, b, q)
    ensures p == q
  {
    SameSelection(d, b, a, q);
    SelectionUnique(d, a, p, q);
  }

  // ---- What is selected, spelled out ----------------------------------------------------

  /** Genuine: the pinned author, kind 30078, the drop's slot, the right id and a valid signature. */
  lemma GenuineExactly(d: Drop, e: Event)
    ensures ValidEvent(d, e) <==>
      && e.pubKey == d.author && e.kind == 30078 && DTagFrom(e.tags, 0) == d.identifier
      && |d.hash(Serialized(e))| == 32 && DecodeHex(e.id) == Some(d.hash(Serialized(e)))
      && d.signed(d.hash(Serialized(e)), e.pubKey, e.sig)
  {
  }

  /** The best event is the newest genuine one, and of several the one whose id comes first. */
  lemma BestIsNewest(d: Drop, answers: seq<Answer>, e: Event, f: Event)
    requires Best(d, answers, e) && Delivered(answers, f) && ValidEvent(d, f)
    ensures f.createdAt <= e.createdAt
    ensures f.createdAt == e.createdAt && f.id != e.id ==> Before(e.id, f.id)
  {
    hide ValidEvent, Delivered, Before;
    assert !Beats(f, e);
    BeforeTotal(e.id, f.id);
  }

  /** A blob is handed out exactly when the content decodes to at most four mebibytes. */
  lemma DecodedExactly(d: Drop, content: string)
    ensures Decoded(d, content).Blob? <==> d.decode(content).Some? && |d.decode(content).value| <= 4_194_304
    ensures Decoded(d, content).Blob? ==> d.decode(content) == Some(Decoded(d, content).data)
    ensures Decoded(d, content).Undecodable? <==> d.decode(content).None?
  {
  }

  /** hex.EncodeToString. */
  function Hex(bytes: seq<nat>): string
    requires forall i :: 0 <= i < |bytes| ==> bytes[i] < 256
  {
    if bytes == [] then "" else [HexDigit(bytes[0] / 16), HexDigit(bytes[0] % 16)] + Hex(bytes[1..])
  }

  /** ComputeID's text decodes to the hash it was made of. */
  lemma {:induction false} HexInverts(bytes: seq<nat>)
    requires forall i :: 0 <= i < |bytes| ==> bytes[i] < 256
    ensures DecodeHex(Hex(bytes)) == Some(bytes)
  {
    if bytes != [] {
      HexInverts(bytes[1..]);
      var rest, s := Hex(bytes[1..]), Hex(bytes);
      assert s[2..] == rest;
      assert HexNibble(s[0]) == Some(bytes[0] / 16) && HexNibble(s[1]) == Some(bytes[0] % 16);
      assert bytes == [bytes[0]] + bytes[1..];
    }
  }

  /** Upper and lower case digits alike, high half first. */
  lemma HexSample()
    ensures DecodeHex("0aFf") == Some([10, 255]) && DecodeHex("0") == None && DecodeHex("0g") == None
  {
    var a, b := "0aFf", "Ff";
    assert a[2..] == b && b[2..] == "" && "0g"[2..] == "";
    assert HexNibble('0') == Some(0) && HexNibble('a') == Some(10) && HexNibble('F') == Some(15);
    assert HexNibble('f') == Some(15) && HexNibble('g') == None;
    assert DecodeHex("") == Some([]);
    assert DecodeHex(b) == Some([255] + []) && [255] + [] == [255];
    assert [10] + [255] == [10, 255];
  }
}
