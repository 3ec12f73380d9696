/**
  The endpoint trust pipeline: what the daemon pushes into the kernel, and what observation
  may publish as an address learned from the wire.
 */
module Observation {
  import opened Options
  import opened Directory
  import opened Relay
  import opened Wireguard

  const DEFAULT_HANDSHAKE_FRESH: int := 180 * SECOND

  // ---- MergeObservations ----------------------------------------------------------------

  function PushedAt(pushedAt: map<Key, Time>, key: Key): Time {
    if key in pushedAt then pushedAt[key] else ZERO_TIME
  }

  /** The kernel has an endpoint for key and a handshake no older than the window. */
  predicate FreshHandshake(byKey: map<Key, KernelPeer>, key: Key, now: Time, window: int) {
    && key in byKey && byKey[key].endpoint.Some? && byKey[key].handshake != ZERO_TIME
    && now - byKey[key].handshake <= window
  }

  function Window(handshakeFresh: int): int {
    if handshakeFresh <= 0 then DEFAULT_HANDSHAKE_FRESH else handshakeFresh
  }

  function WholeSeconds(now: Time): Time { now - now % SECOND }

  function MergedNode(node: Node, byKey: map<Key, KernelPeer>, now: Time, window: int, pushedAt: map<Key, Time>): Node {
    if node.endpoint != "" then node
    else if FreshHandshake(byKey, node.key, now, window) then
      var peer := byKey[node.key];
      if peer.handshake <= PushedAt(pushedAt, node.key) || node.observedEndpoint == peer.endpoint.value then node
      else node.(observedEndpoint := peer.endpoint.value, observedAt := WholeSeconds(now))
    else node.(observedEndpoint := "", observedAt := ZERO_TIME)
  }

  function MergedNodes(
    nodes: seq<Node>, byKey: map<Key, KernelPeer>, now: Time, window: int, pushedAt: map<Key, Time>): (r: seq<Node>)
    ensures |r| == |nodes|
  {
    seq(|nodes|, i requires 0 <= i < |nodes| => MergedNode(nodes[i], byKey, now, window, pushedAt))
  }

  method MergeObservations(
    nodes: seq<Node>, peers: seq<KernelPeer>, now: Time, handshakeFresh: int, pushedAt: map<Key, Time>)
    returns (out: seq<Node>, changed: bool)
    ensures out == MergedNodes(nodes, ByKey(peers), now, Window(handshakeFresh), pushedAt)
    ensures changed <==> out != nodes
  {
    var window := if handshakeFresh <= 0 then DEFAULT_HANDSHAKE_FRESH else handshakeFresh;
    var byKey: map<Key, KernelPeer> := map[];
    for i := 0 to |peers|
      invariant byKey == ByKey(peers[..i])
    {
      assert peers[..i + 1][..i] == peers[..i];
      byKey := byKey[peers[i].key := peers[i]];
    }
    assert peers[..|peers|] == peers;
    hide ByKey;
    out := nodes;
    changed := false;
    for i := 0 to |nodes|
      invariant |out| == |nodes|
      invariant forall k :: 0 <= k < i ==> out[k] == MergedNode(nodes[k], byKey, now, window, pushedAt)
      invariant forall k :: i <= k < |nodes| ==> out[k] == nodes[k]
      invariant changed <==> exists k :: 0 <= k < i && out[k] != nodes[k]
    {
      var n := out[i];
      if n.endpoint == "" {
        if FreshHandshake(byKey, n.key, now, window) {
          var peer := byKey[n.key];
          if peer.handshake > PushedAt(pushedAt, n.key) {
            if n.observedEndpoint != peer.endpoint.value {
              out := out[i := n.(observedEndpoint := peer.endpoint.value, observedAt := WholeSeconds(now))];
              changed := true;
            }
          }
        } else {
          if n.observedEndpoint != "" || n.observedAt != ZERO_TIME {
            out := out[i := n.(observedEndpoint := "", observedAt := ZERO_TIME)];
            changed := true;
          }
        }
      }
    }
  }

  /** Merging the same snapshot a second time changes nothing. */
  lemma MergeIdempotent(nodes: seq<Node>, byKey: map<Key, KernelPeer>, now: Time, window: int, pushedAt: map<Key, Time>)
    ensures var once := MergedNodes(nodes, byKey, now, window, pushedAt);
      MergedNodes(once, byKey, now, window, pushedAt) == once
  {
  }

  /**
    After a merge an observed endpoint is published only beside a fresh handshake, operators'
    own endpoints are left alone, and nothing but the observation of a node is touched.
   */
  lemma ObservationBacked(
    nodes: seq<Node>, byKey: map<Key, KernelPeer>, now: Time, window: int, pushedAt: map<Key, Time>, i: nat)
    requires i < |nodes|
    ensures var n, m := nodes[i], MergedNodes(nodes, byKey, now, window, pushedAt)[i];
      && m.(observedEndpoint := n.observedEndpoint, observedAt := n.observedAt) == n
      && (n.endpoint != "" ==> m == n)
      && (m.endpoint == "" && m.observedEndpoint != "" ==> FreshHandshake(byKey, m.key, now, window))
      && (m.observedEndpoint != n.observedEndpoint && m.observedEndpoint != "" ==>
            Some(m.observedEndpoint) == byKey[m.key].endpoint && byKey[m.key].handshake > PushedAt(pushedAt, m.key))
  {
  }

  /**
    What a merge makes of a node without an endpoint of its own. A handshake in the window that
    is newer than the last push brings the kernel's endpoint into the directory, stamped in
    whole seconds only if it is new; one that is not newer changes nothing; none clears all.
   */
  lemma ObservationExactly(
    nodes: seq<Node>, byKey: map<Key, KernelPeer>, now: Time, window: int, pushedAt: map<Key, Time>, i: nat)
    requires i < |nodes| && nodes[i].endpoint == ""
    ensures var n, m := nodes[i], MergedNodes(nodes, byKey, now, window, pushedAt)[i];
      var heard := n.key in byKey && byKey[n.key].endpoint.Some? && byKey[n.key].handshake != ZERO_TIME
        && now - byKey[n.key].handshake <= window;
      var pushed := if n.key in pushedAt then pushedAt[n.key] else ZERO_TIME;
      && (!heard ==> m == n.(observedEndpoint := "", observedAt := ZERO_TIME))
      && (heard && byKey[n.key].handshake <= pushed ==> m == n)
      && (heard && byKey[n.key].handshake > pushed ==> Some(m.observedEndpoint) == byKey[n.key].endpoint)
      && (m.observedEndpoint == n.observedEndpoint && heard ==> m == n)
      && (m.observedEndpoint != n.observedEndpoint && heard ==> m.observedAt == now - now % 1_000_000_000)
  {
  }

  /** The window is three minutes unless configured. */
  lemma WindowIs(handshakeFresh: int)
    ensures Window(handshakeFresh) == if handshakeFresh > 0 then handshakeFresh else 180_000_000_000
  {
  }

  // ---- Recording pushes -----------------------------------------------------------------

  /** recordEndpointPushes: stamp what was pushed, forget who left the directory. */
  function Recorded(pushedAt: map<Key, Time>, pushed: set<Key>, members: set<Key>, now: Time): map<Key, Time> {
    map key | key in pushedAt.Keys + pushed && key in members :: if key in pushed then now else pushedAt[key]
  }

  function Members(nodes: seq<Node>): set<Key> { set i | 0 <= i < |nodes| :: nodes[i].key }

  /** Afterwards a member has the time of its latest push, and nobody else has one. */
  lemma RecordedExactly(pushedAt: map<Key, Time>, pushed: set<Key>, nodes: seq<Node>, now: Time, key: Key)
    ensures var at := Recorded(pushedAt, pushed, Members(nodes), now);
      && (key in at <==> (key in pushed || key in pushedAt) && exists k :: 0 <= k < |nodes| && nodes[k].key == key)
      && (key in at ==> at[key] == if key in pushed then now else pushedAt[key])
  {
  }

  class EndpointPushes {
    var at: map<Key, Time>

    constructor ()
      ensures at == map[]
    {
      at := map[];
    }

    method Record(pushed: seq<Key>, nodes: seq<Node>, now: Time)
      modifies this
      ensures at == Recorded(old(at), (set key | key in pushed), Members(nodes), now)
    {
      for i := 0 to |pushed|
        invariant at == map key | key in old(at).Keys + (set k | k in pushed[..i]) ::
                    if key in pushed[..i] then now else old(at)[key]
      {
        assert forall k :: k in pushed[..i + 1] <==> k in pushed[..i] || k == pushed[i];
        at := at[pushed[i] := now];
      }
      assert pushed[..|pushed|] == pushed;
      if |at| == 0 {
        return;
      }
      var current: set<Key> := {};
      for i := 0 to |nodes|
        invariant current == set k | 0 <= k < i :: nodes[k].key
      {
        current := current + {nodes[i].key};
      }
      at := map key | key in at && key in current :: at[key];
    }
  }

  // ---- Runs of the daemon ---------------------------------------------------------------

  datatype Daemon = Daemon(
    kernel: Kernel,
    /** Every address each peer was ever heard from. */
    learned: map<Key, set<string>>,
    pushedAt: map<Key, Time>,
    /** The members of the directory last handed to Apply. */
    applied: set<Key>,
    /** Endpoints pushed but not yet stamped. */
    unstamped: set<Key>,
    clock: Time)

  datatype Event =
    /** An authenticated packet: the kernel takes its source address. */
    | Receive(key: Key, from: string, handshake: bool, now: Time)
    /** Apply's ConfigureDevice; device is None when it could not be listed. */
    | Configure(env: Env, self: Node, nodes: seq<Node>, relayed: set<Key>, device: Option<seq<KernelPeer>>, now: Time)
    /** recordEndpointPushes after an Apply that reached ConfigureDevice, whatever came later. */
    | Stamp(now: Time)
    /** An Apply that failed before: the kernel stays, and the stamps are pruned all the same. */
    | FailedApply(nodes: seq<Node>, now: Time)
    | Observe(nodes: seq<Node>, window: int, now: Time)

  ghost function Learned(d: Daemon, key: Key): set<string> {
    if key in d.learned then d.learned[key] else {}
  }

  ghost function ConfiguredDaemon(d: Daemon, pcs: seq<PeerConfig>, nodes: seq<Node>, now: Time): Daemon {
    d.(kernel := Configured(d.kernel, pcs), applied := Members(nodes), unstamped := PushedKeys(pcs), clock := now)
  }

  ghost function After(d: Daemon, e: Event): Daemon {
    match e
    case Receive(key, from, handshake, now) =>
      if key !in d.kernel.peers then d.(clock := now) else
      var peer := d.kernel.peers[key].(endpoint := Some(from));
      var heard := if handshake then peer.(handshake := now) else peer;
      d.(kernel := d.kernel.(peers := d.kernel.peers[key := heard]),
         learned := d.learned[key := Learned(d, key) + {from}], clock := now)
    case Configure(env, self, nodes, relayed, device, now) =>
      var pcs := Merged(Built(env, self, nodes, relayed), device, now);
      ConfiguredDaemon(d, pcs, nodes, now)
    case Stamp(now) =>
      d.(pushedAt := Recorded(d.pushedAt, d.unstamped, d.applied, now), unstamped := {}, clock := now)
    case FailedApply(nodes, now) =>
      d.(pushedAt := Recorded(d.pushedAt, {}, Members(nodes), now), applied := Members(nodes), clock := now)
    case Observe(_, _, now) => d.(clock := now)
  }

  /** A peer that left the directory, as last handed to Apply, left the kernel before it returns. */
  ghost predicate NoneReturns(d: Daemon, nodes: seq<Node>) {
    forall n :: n in nodes && n.key in d.kernel.peers ==> n.key in d.applied
  }

  /** The clock does not run back, and the daemon stamps its pushes before doing anything else. */
  ghost predicate InTurn(d: Daemon, e: Event) {
    && d.clock <= e.now && e.now > ZERO_TIME
    && (e.Configure? || e.FailedApply? || e.Observe? ==> d.unstamped == {})
    && (e.Configure? ==>
          && DistinctKeys(e.nodes) && DistinctIps(e.nodes)
          && (e.device.Some? ==> Lists(e.device.value, d.kernel)))
  }

  ghost predicate Allowed(d: Daemon, e: Event) {
    InTurn(d, e) && (e.Configure? || e.FailedApply? || e.Observe? ==> NoneReturns(d, e.nodes))
  }

  /** An endpoint in the kernel is vouched for, or its push postdates the last handshake. */
  ghost predicate Vouched(d: Daemon, key: Key)
    requires key in d.kernel.peers
  {
    var peer := d.kernel.peers[key];
    peer.endpoint.Some? ==>
      || peer.endpoint.value in Learned(d, key)
      || key in d.unstamped
      || (key in d.pushedAt && peer.handshake <= d.pushedAt[key])
  }

  ghost predicate Inv(d: Daemon) {
    && d.clock >= ZERO_TIME
    && (forall key :: key in d.kernel.peers ==>
          d.kernel.peers[key].key == key && d.kernel.peers[key].handshake <= d.clock)
    && (forall key :: key in d.kernel.peers && key in d.applied ==> Vouched(d, key))
  }

  /** A daemon that starts with no config-pushed endpoint in the kernel. */
  ghost predicate Start(d: Daemon) {
    && d.pushedAt == map[] && d.unstamped == {} && d.clock >= ZERO_TIME
    && d.applied == d.kernel.peers.Keys
    && forall key :: key in d.kernel.peers ==>
         && d.kernel.peers[key].key == key && d.kernel.peers[key].handshake <= d.clock
         && (d.kernel.peers[key].endpoint.Some? ==> d.kernel.peers[key].endpoint.value in Learned(d, key))
  }

  /** What a configuration does to one peer's endpoint and handshake. */
  lemma {:induction false} EndpointAfter(k: Kernel, pcs: seq<PeerConfig>, key: Key)
    requires DistinctPeers(pcs) && forall x :: x in k.peers ==> k.peers[x].key == x
    ensures var after := Configured(k, pcs);
      key in after.peers ==>
        && after.peers[key].key == key
        && after.peers[key].handshake == (if key in k.peers then k.peers[key].handshake else ZERO_TIME)
        && (after.peers[key].endpoint.Some? ==>
              || key in PushedKeys(pcs)
              || (key in k.peers && after.peers[key].endpoint == k.peers[key].endpoint))
    decreases |pcs|
  {
    if pcs != [] {
      var n := |pcs| - 1;
      var front := pcs[..n];
      assert forall i :: 0 <= i < n ==> front[i] == pcs[i];
      EndpointAfter(k, front, key);
      assert PushedKeys(front) <= PushedKeys(pcs);
      PeersAfter(k, front, key);
      if pcs[n].key == key && !pcs[n].remove && pcs[n].endpoint.Some? {
        assert key in PushedKeys(pcs);
      }
    }
  }

  lemma MergedDistinct(
    env: Env, self: Node, nodes: seq<Node>, relayed: set<Key>, device: Option<seq<KernelPeer>>, now: Time)
    requires DistinctKeys(nodes) && DistinctIps(nodes)
    requires device.Some? ==> forall i, j :: 0 <= i < j < |device.value| ==> device.value[i].key != device.value[j].key
    ensures DistinctPeers(Merged(Built(env, self, nodes, relayed), device, now))
  {
    var peers := Built(env, self, nodes, relayed);
    BuiltShape(env, self, nodes, relayed);
    hide Built;
    match device
    case None =>
      assert forall i :: 0 <= i < |peers| ==> Normalized(peers)[i].key == peers[i].key;
    case Some(existing) =>
      MergedMerges(peers, existing, now);
  }

  lemma EventKeeps(d: Daemon, e: Event)
    requires Inv(d) && Allowed(d, e)
    ensures Inv(After(d, e))
  {
    match e
    case Configure(env, self, nodes, relayed, device, now) =>
      MergedDistinct(env, self, nodes, relayed, device, now);
      var pcs := Merged(Built(env, self, nodes, relayed), device, now);
      ConfigureKeeps(d, pcs, nodes, now);
    case Receive(_, _, _, _) =>
    case Stamp(_) =>
    case FailedApply(_, _) =>
    case Observe(_, _, _) =>
  }

  lemma ConfigureKeeps(d: Daemon, pcs: seq<PeerConfig>, nodes: seq<Node>, now: Time)
    requires Inv(d) && d.unstamped == {} && DistinctPeers(pcs) && d.clock <= now && now > ZERO_TIME
    requires NoneReturns(d, nodes)
    ensures Inv(ConfiguredDaemon(d, pcs, nodes, now))
  {
    var d' := ConfiguredDaemon(d, pcs, nodes, now);
    hide Configured, PushedKeys;
    forall key | key in d'.kernel.peers
      ensures d'.kernel.peers[key].key == key && d'.kernel.peers[key].handshake <= now
      ensures key in d'.applied ==> Vouched(d', key)
    {
      EndpointAfter(d.kernel, pcs, key);
    }
  }

  ghost function Run(d: Daemon, events: seq<Event>): Daemon {
    if events == [] then d else After(Run(d, events[..|events| - 1]), events[|events| - 1])
  }

  ghost predicate AllowedRun(d: Daemon, events: seq<Event>) {
    forall k :: 0 <= k < |events| ==> Allowed(Run(d, events[..k]), events[k])
  }

  lemma {:induction false} RunKeeps(d: Daemon, events: seq<Event>)
    requires Start(d) && AllowedRun(d, events)
    ensures Inv(Run(d, events))
    decreases |events|
  {
    if events != [] {
      var front := events[..|events| - 1];
      assert AllowedRun(d, front) by {
        forall k | 0 <= k < |front|
          ensures Allowed(Run(d, front[..k]), front[k])
        {
          assert front[..k] == events[..k];
        }
      }
      hide After, Allowed, Inv;
      RunKeeps(d, front);
      EventKeeps(Run(d, front), events[|events| - 1]);
    }
  }

  /**
    Over a daemon lifetime, whatever the beacons said and whatever was pushed: an endpoint
    newly recorded as observed was learned from the wire, from that very peer.
   */
  lemma ObservedFromWire(d: Daemon, events: seq<Event>, e: Event, i: nat)
    requires Start(d) && AllowedRun(d, events) && e.Observe? && Allowed(Run(d, events), e) && i < |e.nodes|
    ensures var last := Run(d, events);
      var merged := MergedNodes(e.nodes, last.kernel.peers, e.now, e.window, last.pushedAt);
      var was, now := e.nodes[i].observedEndpoint, merged[i].observedEndpoint;
      now != was && now != "" ==> now in Learned(last, e.nodes[i].key)
  {
    RunKeeps(d, events);
    hide Run, AllowedRun;
  }

  /** When the device can be listed, the clause about departed peers takes care of itself. */
  lemma ReadableDevicePrunes(
    kernel: Kernel, env: Env, self: Node, nodes: seq<Node>, relayed: set<Key>, existing: seq<KernelPeer>, now: Time)
    requires DistinctKeys(nodes) && DistinctIps(nodes) && KernelOk(kernel) && Lists(existing, kernel)
    ensures var after := Configured(kernel, Merged(Built(env, self, nodes, relayed), Some(existing), now));
      forall key :: key in after.peers ==> key in Members(nodes)
  {
    var after := Configured(kernel, Merged(Built(env, self, nodes, relayed), Some(existing), now));
    ApplyExact(env, self, nodes, relayed, kernel, existing, now);
    hide Built, Merged, Configured, Owner, KernelOk, Lists, DistinctKeys, DistinctIps;
    forall key | key in after.peers
      ensures key in Members(nodes)
    {
      assert OtherMember(self, nodes, key);
      var n :| n in nodes && n.key != self.key && n.key == key;
      var i :| 0 <= i < |nodes| && nodes[i] == n;
    }
  }

  // ---- Why departed peers must leave the kernel ------------------------------------------

  const PEER: Node := Node("n", 1, 1, "age", "", false, "", ZERO_TIME)
  const SELF: Node := Node("s", 2, 2, "age", "", false, "", ZERO_TIME)

  /** Discovery names this endpoint for every peer. */
  function Discovered(endpoint: string): Env {
    Env(None, Some((key: Key, stale: bool) => endpoint), (s: string) => Some(s), (s: string) => None)
  }

  function HeardFrom(wire: string): Daemon {
    Daemon(Kernel(map[1 := KernelPeer(1, Some(wire), 5)], map[]), map[1 := {wire}], map[], {1}, {}, 5)
  }

  ghost function PeerConfigs(pushed: string): seq<PeerConfig> {
    Merged(Built(Discovered(pushed), SELF, [PEER], {}), None, 10)
  }

  /** The daemon after the push, after the stamp, and after the failed Apply. */
  ghost function Later(wire: string, pushed: string, k: nat): Daemon {
    var d := HeardFrom(wire);
    var d1 := d.(kernel := Configured(d.kernel, PeerConfigs(pushed)), unstamped := {1}, clock := 10);
    if k == 0 then d else if k == 1 then d1
    else if k == 2 then d1.(pushedAt := map[1 := 10], unstamped := {})
    else d1.(pushedAt := map[], applied := {}, unstamped := {}, clock := 11)
  }

  ghost function Lapse(pushed: string): seq<Event> {
    [Configure(Discovered(pushed), SELF, [PEER], {}, None, 10), Stamp(10), FailedApply([], 11)]
  }

  /**
    A daemon heard peer 1 from `wire`, pushes another endpoint for it, fails to apply a directory
    without it, and observes one with it again: the stamp is gone, and what was pushed is
    published as observed. Every event is in turn; only the last lets a departed peer return.
   */
  lemma ReturningPeer(wire: string, pushed: string)
    requires pushed != wire && pushed != ""
    ensures Start(HeardFrom(wire)) && AllowedRun(HeardFrom(wire), Lapse(pushed))
    ensures var last, e := Run(HeardFrom(wire), Lapse(pushed)), Observe([PEER], 100, 12);
      && InTurn(last, e) && !NoneReturns(last, e.nodes)
      && MergedNodes(e.nodes, last.kernel.peers, e.now, e.window, last.pushedAt)[0].observedEndpoint == pushed
      && pushed !in Learned(last, 1)
  {
    LapseRuns(wire, pushed);
    SpoofStays(wire, pushed);
    hide Run, AllowedRun, Configured, PeerConfigs, Lapse;
    assert PEER in [PEER];
  }

  lemma SinglePeer(pushed: string)
    requires pushed != ""
    ensures |PeerConfigs(pushed)| == 1 && PushedKeys(PeerConfigs(pushed)) == {1}
    ensures var pc := PeerConfigs(pushed)[0]; pc.key == 1 && !pc.remove && pc.endpoint == Some(pushed)
  {
    var env := Discovered(pushed);
    assert [PEER][..0] == [] && Others(SELF, [PEER]) == [PEER];
    var base := BaseConfig(env, SELF, None, {}, PEER);
    assert base.key == 1 && !base.remove && base.endpoint == Some(pushed);
    hide BaseConfig, Others, Target;
    assert Built(env, SELF, [PEER], {}) == [base];
    hide Built;
    assert PeerConfigs(pushed) == [Explicit(base)];
    hide PeerConfigs, Merged;
    OnlyPushed(Explicit(base));
  }

  lemma OnlyPushed(pc: PeerConfig)
    requires !pc.remove && pc.endpoint.Some?
    ensures PushedKeys([pc]) == {pc.key}
  {
    assert [pc][0] == pc;
  }

  lemma SpoofStays(wire: string, pushed: string)
    requires pushed != ""
    ensures Configured(HeardFrom(wire).kernel, PeerConfigs(pushed)).peers == map[1 := KernelPeer(1, Some(pushed), 5)]
  {
    hide PeerConfigs, PushedKeys;
    SinglePeer(pushed);
    var kernel, pcs := HeardFrom(wire).kernel, PeerConfigs(pushed);
    assert pcs == [pcs[0]];
    ConfiguredSingle(kernel, pcs[0]);
    hide Configured, Claimed, Released;
  }

  lemma ConfiguredSingle(k: Kernel, pc: PeerConfig)
    ensures Configured(k, [pc]) == ConfiguredOne(k, pc)
  {
    hide ConfiguredOne;
    assert [pc][..0] == [];
  }

  lemma LapseSteps(wire: string, pushed: string)
    requires pushed != ""
    ensures forall k :: 0 <= k < 3 ==> After(Later(wire, pushed, k), Lapse(pushed)[k]) == Later(wire, pushed, k + 1)
  {
    SinglePeer(pushed);
    assert Members([PEER]) == {1} by { assert [PEER][0].key == 1; }
    hide Configured, Built, Merged;
    var d2 := Later(wire, pushed, 2);
    assert Recorded(map[], {1}, {1}, 10) == map[1 := 10];
    assert Recorded(d2.pushedAt, {}, Members([]), 11) == map[];
  }

  lemma LapseAllowed(wire: string, pushed: string, k: nat)
    requires k < 3
    ensures Allowed(Later(wire, pushed, k), Lapse(pushed)[k])
  {
    hide Configured, PeerConfigs;
  }

  lemma LapseRuns(wire: string, pushed: string)
    requires pushed != ""
    ensures Start(HeardFrom(wire)) && AllowedRun(HeardFrom(wire), Lapse(pushed))
    ensures Run(HeardFrom(wire), Lapse(pushed)) == Later(wire, pushed, 3)
  {
    LapseSteps(wire, pushed);
    var d, events := HeardFrom(wire), Lapse(pushed);
    RunThree(d, events[0], events[1], events[2]);
    hide After, Run, Configured, PeerConfigs, Allowed;
    assert events == [events[0], events[1], events[2]];
    forall k | 0 <= k < 3
      ensures Allowed(Run(d, events[..k]), events[k])
    {
      LapseAllowed(wire, pushed, k);
      assert k == 0 ==> events[..k] == [];
      assert k == 1 ==> events[..k] == [events[0]];
      assert k == 2 ==> events[..k] == [events[0], events[1]];
      assert Run(d, events[..k]) == Later(wire, pushed, k);
    }
  }

  lemma RunThree(d: Daemon, a: Event, b: Event, c: Event)
    ensures Run(d, []) == d && Run(d, [a]) == After(d, a) && Run(d, [a, b]) == After(After(d, a), b)
    ensures Run(d, [a, b, c]) == After(After(After(d, a), b), c)
  {
    hide After;
    assert [a][..0] == [] && [a, b][..1] == [a] && [a, b, c][..2] == [a, b];
  }
}
