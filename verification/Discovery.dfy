/**
  The LAN discovery store: unauthenticated beacons, pinned endpoints and failed ones.
 */
module Discovery {
  import opened Options
  import opened Directory
  import opened Relay

  datatype LanState = LanState(endpoint: string, learnedAt: Time, failedAt: Time, failedEndpoint: string)
  {
    predicate Blacklisted() { endpoint != "" && failedEndpoint == endpoint }

    predicate Usable(now: Time, ttl: int) {
      endpoint != "" && learnedAt != ZERO_TIME && now - learnedAt <= ttl && !Blacklisted()
    }
  }

  type Entries = map<Key, LanState>

  function Fresh(endpoint: string, now: Time): LanState { LanState(endpoint, now, ZERO_TIME, "") }

  function Updated(entries: Entries, ttl: int, key: Key, endpoint: string, now: Time): Entries {
    if key !in entries then entries[key := Fresh(endpoint, now)]
    else if endpoint == entries[key].endpoint then entries[key := entries[key].(learnedAt := now)]
    else if entries[key].Usable(now, ttl) then entries
    else entries[key := Fresh(endpoint, now)]
  }

  function Failed(entries: Entries, key: Key, now: Time): Entries {
    if key !in entries then entries
    else entries[key := entries[key].(failedAt := now, failedEndpoint := entries[key].endpoint)]
  }

  /** members is None when the caller passes no set. */
  predicate Collects(entry: LanState, key: Key, now: Time, maxAge: int, members: Option<set<Key>>) {
    (entry.learnedAt != ZERO_TIME && now - entry.learnedAt > maxAge) || (members.Some? && key !in members.value)
  }

  function Collected(entries: Entries, now: Time, maxAge: int, members: Option<set<Key>>): Entries {
    map key | key in entries && !Collects(entries[key], key, now, maxAge, members) :: entries[key]
  }

  function Found(entries: Entries, ttl: int, key: Key, now: Time): string {
    if key in entries && entries[key].Usable(now, ttl) then entries[key].endpoint else ""
  }

  class Store {
    const ttl: int
    var entries: Entries

    constructor (ttl: int)
      ensures this.ttl == ttl && entries == map[]
    {
      this.ttl := ttl;
      entries := map[];
    }

    method Lookup(key: Key, now: Time) returns (endpoint: string)
      ensures endpoint == Found(entries, ttl, key, now)
      ensures endpoint != "" <==>
        && key in entries && entries[key].endpoint != "" && entries[key].failedEndpoint != entries[key].endpoint
        && entries[key].learnedAt != ZERO_TIME && now - entries[key].learnedAt <= ttl
      ensures endpoint != "" ==> endpoint == entries[key].endpoint
    {
      if key !in entries {
        return "";
      }
      if !entries[key].Usable(now, ttl) {
        return "";
      }
      return entries[key].endpoint;
    }

    method LookupLastKnown(key: Key) returns (endpoint: string)
      ensures endpoint == if key in entries then entries[key].endpoint else ""
    {
      if key in entries {
        return entries[key].endpoint;
      }
      return "";
    }

    /** changed and firstSeen report a new key, a moved endpoint, or neither. */
    method Update(key: Key, endpoint: string, now: Time) returns (changed: bool, firstSeen: bool)
      modifies this`entries
      ensures entries == Updated(old(entries), ttl, key, endpoint, now)
      ensures firstSeen <==> key !in old(entries)
      ensures changed <==> key !in old(entries) || old(entries)[key].endpoint != entries[key].endpoint
    {
      if key !in entries {
        entries := entries[key := LanState(endpoint, now, ZERO_TIME, "")];
        return true, true;
      }
      var prev := entries[key];
      if endpoint == prev.endpoint {
        entries := entries[key := prev.(learnedAt := now)];
        return false, false;
      }
      if prev.Usable(now, ttl) {
        return false, false;
      }
      entries := entries[key := LanState(endpoint, now, ZERO_TIME, "")];
      return true, false;
    }

    method MarkFailed(key: Key, now: Time)
      modifies this`entries
      ensures entries == Failed(old(entries), key, now)
    {
      if key in entries {
        var entry := entries[key];
        entries := entries[key := entry.(failedAt := now, failedEndpoint := entry.endpoint)];
      }
    }

    method GC(now: Time, maxAge: int, members: Option<set<Key>>) returns (removed: nat)
      modifies this`entries
      ensures entries == Collected(old(entries), now, maxAge, members)
      ensures forall key :: key in entries <==>
        && key in old(entries) && (members.Some? ==> key in members.value)
        && (old(entries)[key].learnedAt == ZERO_TIME || now - old(entries)[key].learnedAt <= maxAge)
      ensures forall key :: key in entries ==> entries[key] == old(entries)[key]
      ensures removed == |old(entries)| - |entries|
    {
      removed := 0;
      var todo := entries.Keys;
      while todo != {}
        invariant todo <= old(entries).Keys
        invariant forall key :: key in entries <==>
          key in old(entries) && (key in todo || !Collects(old(entries)[key], key, now, maxAge, members))
        invariant forall key :: key in entries ==> entries[key] == old(entries)[key]
        invariant removed == |old(entries)| - |entries|
        decreases |todo|
      {
        var key :| key in todo;
        todo := todo - {key};
        if Collects(entries[key], key, now, maxAge, members) {
          ghost var before := entries;
          entries := entries - {key};
          assert entries.Keys == before.Keys - {key};
          removed := removed + 1;
        }
      }
    }

    /** markLANFailures: blacklist every peer that just went from direct to relayed. */
    method MarkLanFailures(states: map<Key, PeerState>, prev: map<Key, Mode>, now: Time)
      modifies this`entries
      ensures entries.Keys == old(entries).Keys
      ensures forall key :: key in entries ==>
        entries[key] == if Demoted(states, prev, key) then Failed(old(entries), key, now)[key] else old(entries)[key]
      ensures forall key :: key in entries ==>
        if key in prev && prev[key] == Direct && key in states && states[key].mode == Relayed then
          entries[key] == old(entries)[key].(failedAt := now, failedEndpoint := old(entries)[key].endpoint)
        else entries[key] == old(entries)[key]
    {
      var todo := states.Keys;
      while todo != {}
        invariant todo <= states.Keys && entries.Keys == old(entries).Keys
        invariant forall key :: key in entries ==>
          entries[key] == if Demoted(states, prev, key) && key !in todo
                          then Failed(old(entries), key, now)[key] else old(entries)[key]
        decreases |todo|
      {
        var key :| key in todo;
        todo := todo - {key};
        if key in prev && prev[key] == Direct && states[key].mode == Relayed {
          MarkFailed(key, now);
        }
      }
    }
  }

  predicate Demoted(states: map<Key, PeerState>, prev: map<Key, Mode>, key: Key) {
    key in states && key in prev && prev[key] == Direct && states[key].mode == Relayed
  }

  // ---- Runs -----------------------------------------------------------------------------

  datatype Event =
    | Beacon(key: Key, endpoint: string, now: Time)
    | Fail(key: Key, now: Time)
    | Collect(maxAge: int, members: Option<set<Key>>, now: Time)

  function Step(entries: Entries, ttl: int, e: Event): Entries {
    match e
    case Beacon(key, endpoint, now) => Updated(entries, ttl, key, endpoint, now)
    case Fail(key, now) => Failed(entries, key, now)
    case Collect(maxAge, members, now) => Collected(entries, now, maxAge, members)
  }

  function Run(ttl: int, events: seq<Event>): Entries {
    if events == [] then map[] else Step(Run(ttl, events[..|events| - 1]), ttl, events[|events| - 1])
  }

  /** A stored endpoint is displaced only while it is expired or failed. */
  lemma PinnedWhileUsable(entries: Entries, ttl: int, e: Event, key: Key)
    requires key in entries && key in Step(entries, ttl, e)
    requires Step(entries, ttl, e)[key].endpoint != entries[key].endpoint
    ensures e.Beacon? && e.key == key && !entries[key].Usable(e.now, ttl)
  {
  }

  /** Every endpoint looked up was announced by a beacon for that key within the TTL. */
  lemma {:induction false} LookupWasAnnounced(ttl: int, events: seq<Event>, key: Key, now: Time)
    requires Found(Run(ttl, events), ttl, key, now) != ""
    ensures exists i :: 0 <= i < |events|
                && events[i] == Beacon(key, Found(Run(ttl, events), ttl, key, now), events[i].now)
                && now - events[i].now <= ttl
  {
    var i := StoredWasAnnounced(ttl, events, key);
  }

  lemma {:induction false} StoredWasAnnounced(ttl: int, events: seq<Event>, key: Key) returns (i: nat)
    requires key in Run(ttl, events)
    ensures i < |events| && events[i].Beacon? && events[i].key == key
    ensures events[i].endpoint == Run(ttl, events)[key].endpoint && events[i].now == Run(ttl, events)[key].learnedAt
    decreases |events|
  {
    var n := |events| - 1;
    var before, e := Run(ttl, events[..n]), events[n];
    var after := Run(ttl, events);
    if e.Beacon? && e.key == key
      && (key !in before || before[key] != after[key] || e.endpoint == before[key].endpoint) {
      i := n;
    } else {
      i := StoredWasAnnounced(ttl, events[..n], key);
    }
  }

  function From(ttl: int, start: Entries, events: seq<Event>): Entries {
    if events == [] then start else Step(From(ttl, start, events[..|events| - 1]), ttl, events[|events| - 1])
  }

  /**
    A failed endpoint is not returned by Lookup, however often it is announced again, as long
    as no different endpoint was accepted and the entry was not collected.
   */
  lemma {:induction false} FailedStaysHidden(ttl: int, start: Entries, events: seq<Event>, key: Key, now: Time)
    requires key in start && start[key].Blacklisted()
    requires forall k :: 0 <= k <= |events| ==>
      key in From(ttl, start, events[..k]) && From(ttl, start, events[..k])[key].endpoint == start[key].endpoint
    ensures Found(From(ttl, start, events), ttl, key, now) == ""
  {
    StillBlacklisted(ttl, start, events, key);
  }

  lemma {:induction false} StillBlacklisted(ttl: int, start: Entries, events: seq<Event>, key: Key)
    requires key in start && start[key].Blacklisted()
    requires forall k :: 0 <= k <= |events| ==>
      key in From(ttl, start, events[..k]) && From(ttl, start, events[..k])[key].endpoint == start[key].endpoint
    ensures key in From(ttl, start, events) && From(ttl, start, events)[key].Blacklisted()
    decreases |events|
  {
    if events != [] {
      var front := events[..|events| - 1];
      assert forall k :: 0 <= k <= |front| ==> front[..k] == events[..k];
      StillBlacklisted(ttl, start, front, key);
      assert events[..|events|] == events;
      assert key in From(ttl, start, events[..|events|]);
    }
  }

  // ---- What each event achieves ---------------------------------------------------------

  /**
    A beacon is heard: at that moment the key's usable incumbent is found, and if there is none
    the announced endpoint, unless it is the one that failed. No other key is touched.
   */
  lemma BeaconIsHeard(entries: Entries, ttl: int, key: Key, endpoint: string, now: Time)
    requires endpoint != "" && now != ZERO_TIME && ttl >= 0
    ensures var after := Step(entries, ttl, Beacon(key, endpoint, now));
      && (key in entries && Found(entries, ttl, key, now) != "" ==>
            Found(after, ttl, key, now) == Found(entries, ttl, key, now))
      && (key in entries && entries[key].endpoint == endpoint && entries[key].failedEndpoint == endpoint ==>
            Found(after, ttl, key, now) == "")
      && ((key !in entries || Found(entries, ttl, key, now) == "")
          && !(key in entries && entries[key].endpoint == endpoint && entries[key].failedEndpoint == endpoint) ==>
            Found(after, ttl, key, now) == endpoint)
      && key in after
      && forall k :: k != key ==> (k in after <==> k in entries) && (k in after ==> after[k] == entries[k])
  {
  }

  /** An announcement of the incumbent keeps it usable for another TTL. */
  lemma BeaconRefreshes(entries: Entries, ttl: int, key: Key, now: Time, later: Time)
    requires key in entries && Found(entries, ttl, key, now) != "" && now != ZERO_TIME && now <= later <= now + ttl
    ensures var same := entries[key].endpoint;
      Found(Step(entries, ttl, Beacon(key, same, now)), ttl, key, later) == same
  {
  }

  /** A failure hides the endpoint at once and for good; it stays known, and no other key is touched. */
  lemma FailHides(entries: Entries, ttl: int, key: Key, now: Time, later: Time)
    ensures var after := Step(entries, ttl, Fail(key, now));
      && Found(after, ttl, key, later) == ""
      && after.Keys == entries.Keys && (key in entries ==> after[key].endpoint == entries[key].endpoint)
      && (key in entries ==> after[key].failedAt == now && after[key].learnedAt == entries[key].learnedAt)
      && forall k :: k != key && k in entries ==> after[k] == entries[k]
  {
  }
}
