/**
  The whole mesh: every member has applied one valid directory, and packets travel by the
  resulting cryptokey tables.

  A table serves twice: it names the peer a packet is sent to, and it drops an incoming
  packet whose source address does not belong to the peer it came from.
 */
module Mesh {
  import opened Options
  import opened Directory
  import opened Relay
  import opened Wireguard

  /** A Tincan member: what its controller relays, and what its last Apply started from. */
  datatype Host = Host(relayed: set<Key>, env: Env, before: Kernel, listed: seq<KernelPeer>, now: Time)

  /** The directory and its Tincan members. */
  datatype Mesh = Mesh(nodes: seq<Node>, hosts: map<Key, Host>)
  {
    function Relayed(m: Node): set<Key> { if m.key in hosts then hosts[m.key].relayed else {} }
  }

  /** The kernel's allowed addresses after Apply. */
  ghost function Table(nodes: seq<Node>, self: Node, host: Host): map<Ip, Key> {
    Configured(host.before, Merged(Built(host.env, self, nodes, host.relayed), Some(host.listed), host.now)).owner
  }

  /** The relayed set is what some controller state, handshake report and clock make Update return. */
  ghost predicate FromController(nodes: seq<Node>, self: Node, relayed: set<Key>) {
    exists cfg, states, handshakes, now :: relayed == RelayedKeys(cfg, states, self, nodes, handshakes, now)
  }

  /** Every Tincan member ran Update and Apply on this directory, from a kernel it could read. */
  ghost predicate Applied(mesh: Mesh) {
    && DistinctKeys(mesh.nodes) && DistinctIps(mesh.nodes)
    && forall m :: m in mesh.nodes && !m.IsPlainWireGuard() ==>
         && m.key in mesh.hosts && FromController(mesh.nodes, m, mesh.Relayed(m))
         && KernelOk(mesh.hosts[m.key].before) && Lists(mesh.hosts[m.key].listed, mesh.hosts[m.key].before)
  }

  /** The peer a node's table gives for dst: a spoke's rendered config knows its hub only. */
  ghost function NextHop(mesh: Mesh, at: Node, dst: Node): Option<Key>
    requires at.IsPlainWireGuard() || at.key in mesh.hosts
  {
    if at.IsPlainWireGuard() then
      match Target(mesh.nodes, Some(at.key)) { case Some(hub) => Some(hub.key) case None => None }
    else
      var table := Table(mesh.nodes, at, mesh.hosts[at.key]);
      if dst.ip in table then Some(table[dst.ip]) else None
  }

  /** The kernel's table holds the owners that BuildPeerConfigs intends. */
  lemma TableIs(mesh: Mesh, m: Node, n: Node)
    requires Applied(mesh) && m in mesh.nodes && n in mesh.nodes && !m.IsPlainWireGuard() && m.key != n.key
    ensures NextHop(mesh, m, n) == Some(Owner(m, mesh.nodes, mesh.Relayed(m), n))
  {
    hide Configured, Merged, Built, Owner, FromController, KernelOk, Lists, DistinctKeys, DistinctIps;
    var host := mesh.hosts[m.key];
    ApplyExact(host.env, m, mesh.nodes, host.relayed, host.before, host.listed, host.now);
  }

  function Find(nodes: seq<Node>, key: Key): Option<Node> {
    if nodes == [] then None else if nodes[0].key == key then Some(nodes[0]) else Find(nodes[1..], key)
  }

  lemma {:induction false} FindIs(nodes: seq<Node>, n: Node)
    requires DistinctKeys(nodes) && n in nodes
    ensures Find(nodes, n.key) == Some(n)
  {
    if nodes[0] != n {
      assert n in nodes[1..];
      FindIs(nodes[1..], n);
    }
  }

  lemma {:induction false} FoundIn(nodes: seq<Node>, key: Key)
    ensures Find(nodes, key).Some? ==> Find(nodes, key).value in nodes && Find(nodes, key).value.key == key
  {
    if nodes != [] {
      FoundIn(nodes[1..], key);
    }
  }

  ghost predicate Member(mesh: Mesh, n: Node) { n in mesh.nodes && Applied(mesh) }

  /** The nodes a packet visits after `at`, until it reaches dst, has no route, or ttl runs out. */
  ghost function Path(mesh: Mesh, at: Node, dst: Node, ttl: nat): seq<Node>
    requires Member(mesh, at)
    decreases ttl
  {
    if at.key == dst.key || ttl == 0 then [] else
    match NextHop(mesh, at, dst)
    case None => []
    case Some(key) =>
      FoundIn(mesh.nodes, key);
      match Find(mesh.nodes, key)
      case None => []
      case Some(n) => [n] + Path(mesh, n, dst, ttl - 1)
  }

  /** Every receiver on the path owns src's address by the peer the packet came from. */
  ghost predicate Passes(mesh: Mesh, src: Node, from: Node, path: seq<Node>)
    requires Applied(mesh) && forall n :: n in path ==> n in mesh.nodes
    decreases |path|
  {
    path != [] ==>
      NextHop(mesh, path[0], src) == Some(from.key) && Passes(mesh, src, path[0], path[1..])
  }

  lemma {:induction false} PathMembers(mesh: Mesh, at: Node, dst: Node, ttl: nat)
    requires Member(mesh, at)
    ensures forall n :: n in Path(mesh, at, dst, ttl) ==> n in mesh.nodes
    decreases ttl
  {
    if at.key != dst.key && ttl > 0 && NextHop(mesh, at, dst).Some? {
      var key := NextHop(mesh, at, dst).value;
      FoundIn(mesh.nodes, key);
      if Find(mesh.nodes, key).Some? {
        PathMembers(mesh, Find(mesh.nodes, key).value, dst, ttl - 1);
      }
    }
  }

  ghost predicate Delivers(mesh: Mesh, src: Node, dst: Node, ttl: nat)
    requires Member(mesh, src)
  {
    PathMembers(mesh, src, dst, ttl);
    var path := Path(mesh, src, dst, ttl);
    path != [] && path[|path| - 1] == dst && Passes(mesh, src, src, path)
  }

  // ---- What the controllers may relay ---------------------------------------------------

  predicate Endpointless(n: Node) { !n.IsPlainWireGuard() && !n.Reachable() }

  lemma RelayedFacts(mesh: Mesh, m: Node, n: Node)
    requires Member(mesh, m) && n in mesh.nodes && m.key != n.key && !m.IsPlainWireGuard()
    ensures n.IsPlainWireGuard() ==>
      (n.key in mesh.Relayed(m) <==>
         Target(mesh.nodes, Some(n.key)).Some? && Target(mesh.nodes, Some(n.key)).value.key != m.key)
    ensures !n.IsPlainWireGuard() && n.key in mesh.Relayed(m) ==>
      Endpointless(n) && Endpointless(m) && Target(mesh.nodes, Some(m.key)).Some?
  {
    var cfg, states, handshakes, now :|
      mesh.Relayed(m) == RelayedKeys(cfg, states, m, mesh.nodes, handshakes, now);
    hide Target, Decide;
    OnlyVerdict(mesh.nodes, m, n, cfg, states, handshakes, now);
  }

  lemma OnlyVerdict(
    nodes: seq<Node>, m: Node, n: Node, cfg: Config, states: map<Key, PeerState>, handshakes: map<Key, Time>, now: Time)
    requires DistinctKeys(nodes) && n in nodes && m.key != n.key
    ensures n.key in RelayedKeys(cfg, states, m, nodes, handshakes, now)
       <==> NextState(cfg, states, m, nodes, handshakes, now, n).mode == Relayed
  {
    hide NextState;
    assert forall x :: x in nodes && x.key == n.key ==> x == n;
  }

  // ---- One hub --------------------------------------------------------------------------

  /** The hub every other node agrees on, when it runs Tincan. */
  ghost predicate TincanHub(mesh: Mesh, h: Node) {
    Applied(mesh) && Target(mesh.nodes, None) == Some(h) && !h.IsPlainWireGuard()
  }

  lemma HubFacts(mesh: Mesh, h: Node, n: Node)
    requires TincanHub(mesh, h) && n in mesh.nodes
    ensures h in mesh.nodes && h.Reachable()
    ensures n != h ==> n.key != h.key && Target(mesh.nodes, Some(n.key)) == Some(h)
  {
    TargetIsCandidate(mesh.nodes, None);
    assert forall x :: x in mesh.nodes && x.key == n.key ==> x == n;
    if n.key != h.key {
      TargetStable(mesh.nodes, n.key);
    }
  }

  /** m's packets for n go through the hub. */
  ghost predicate ViaHub(mesh: Mesh, h: Node, m: Node, n: Node)
    requires TincanHub(mesh, h) && m in mesh.nodes
  {
    && m != h && n != h
    && (m.IsPlainWireGuard() || n.IsPlainWireGuard()
        || (Endpointless(m) && Endpointless(n) && n.key in mesh.Relayed(m)))
  }

  /** Every table entry of the mesh: the peer itself, or the hub. */
  lemma NextHopIs(mesh: Mesh, h: Node, m: Node, n: Node)
    requires TincanHub(mesh, h) && m in mesh.nodes && n in mesh.nodes && m != n
    ensures m.key != n.key
    ensures NextHop(mesh, m, n) == Some(if ViaHub(mesh, h, m, n) then h.key else n.key)
  {
    HubFacts(mesh, h, m);
    HubFacts(mesh, h, n);
    assert forall x :: x in mesh.nodes && x.key == n.key ==> x == n;
    if !m.IsPlainWireGuard() {
      TableIs(mesh, m, n);
      RelayedFacts(mesh, m, n);
      hide Target, NextHop;
      assert n.key in mesh.Relayed(m) <==> ViaHub(mesh, h, m, n);
    }
  }

  /** Every path is the direct hop or the hop through the hub: loop-free, at most two hops. */
  lemma PathIs(mesh: Mesh, h: Node, m: Node, n: Node, ttl: nat)
    requires TincanHub(mesh, h) && m in mesh.nodes && n in mesh.nodes && m != n && ttl >= 2
    ensures Path(mesh, m, n, ttl) == if ViaHub(mesh, h, m, n) then [h, n] else [n]
  {
    HubFacts(mesh, h, m);
    NextHopIs(mesh, h, m, n);
    FindIs(mesh.nodes, n);
    FindIs(mesh.nodes, h);
    hide NextHop, Find, Target, DistinctKeys, DistinctIps, FromController, KernelOk, Lists;
    assert Path(mesh, n, n, ttl - 1) == [];
    if ViaHub(mesh, h, m, n) {
      NextHopIs(mesh, h, h, n);
      assert Path(mesh, n, n, ttl - 2) == [];
      assert Path(mesh, h, n, ttl - 1) == [n];
    }
  }

  lemma PassesOne(mesh: Mesh, src: Node, from: Node, n: Node)
    requires Applied(mesh) && n in mesh.nodes
    ensures Passes(mesh, src, from, [n]) <==> NextHop(mesh, n, src) == Some(from.key)
  {
    hide NextHop, DistinctKeys, DistinctIps, FromController, KernelOk, Lists;
    assert [n][1..] == [];
    assert Passes(mesh, src, n, []);
  }

  lemma PassesTwo(mesh: Mesh, src: Node, from: Node, h: Node, n: Node)
    requires Applied(mesh) && n in mesh.nodes && h in mesh.nodes
    ensures Passes(mesh, src, from, [h, n])
       <==> NextHop(mesh, h, src) == Some(from.key) && NextHop(mesh, n, src) == Some(h.key)
  {
    PassesOne(mesh, src, h, n);
    hide NextHop, DistinctKeys, DistinctIps, FromController, KernelOk, Lists;
    assert [h, n][1..] == [n];
  }

  lemma DeliveryIs(mesh: Mesh, h: Node, m: Node, n: Node, ttl: nat)
    requires TincanHub(mesh, h) && m in mesh.nodes && n in mesh.nodes && m != n && ttl >= 2
    ensures Delivers(mesh, m, n, ttl) <==> (ViaHub(mesh, h, m, n) <==> ViaHub(mesh, h, n, m))
  {
    HubFacts(mesh, h, m);
    HubFacts(mesh, h, n);
    PathIs(mesh, h, m, n, ttl);
    PathMembers(mesh, m, n, ttl);
    NextHopIs(mesh, h, n, m);
    hide NextHop, Find, Target, Path, Passes, DistinctKeys, DistinctIps, FromController, KernelOk, Lists;
    if ViaHub(mesh, h, m, n) {
      NextHopIs(mesh, h, h, m);
      PassesTwo(mesh, m, m, h, n);
    } else {
      PassesOne(mesh, m, m, n);
    }
  }

  /**
    Whole-mesh delivery, with a Tincan hub and for any controller states. Two endpointless
    Tincan members reach each other exactly when they hold the same mode for each other;
    every other pair always does.
   */
  lemma WholeMeshDelivery(mesh: Mesh, h: Node, m: Node, n: Node, ttl: nat)
    requires TincanHub(mesh, h) && m in mesh.nodes && n in mesh.nodes && m != n && ttl >= 2
    ensures |Path(mesh, m, n, ttl)| <= 2
    ensures Endpointless(m) && Endpointless(n) ==>
      (Delivers(mesh, m, n, ttl) <==> (n.key in mesh.Relayed(m) <==> m.key in mesh.Relayed(n)))
    ensures !(Endpointless(m) && Endpointless(n)) ==> Delivers(mesh, m, n, ttl)
  {
    HubFacts(mesh, h, m);
    PathIs(mesh, h, m, n, ttl);
    DeliveryIs(mesh, h, m, n, ttl);
  }

  /** Two endpointless members that judged the same handshake on the same side of the threshold reach each other. */
  lemma AgreeingEndsDeliver(
    mesh: Mesh, h: Node, m: Node, n: Node, ttl: nat, cfg: Config, handshake: Time,
    statesM: map<Key, PeerState>, handshakesM: map<Key, Time>, nowM: Time,
    statesN: map<Key, PeerState>, handshakesN: map<Key, Time>, nowN: Time)
    requires TincanHub(mesh, h) && m in mesh.nodes && n in mesh.nodes && m != n && ttl >= 2
    requires Endpointless(m) && Endpointless(n)
    requires mesh.Relayed(m) == RelayedKeys(cfg, statesM, m, mesh.nodes, handshakesM, nowM)
    requires mesh.Relayed(n) == RelayedKeys(cfg, statesN, n, mesh.nodes, handshakesN, nowN)
    requires n.key in handshakesM && handshakesM[n.key] == handshake
    requires m.key in handshakesN && handshakesN[m.key] == handshake
    requires n.key in statesM && Settled(nowM, statesM[n.key], handshake, cfg)
    requires m.key in statesN && Settled(nowN, statesN[m.key], handshake, cfg)
    requires nowM - handshake < WithDefaults(cfg).failedAfter <==> nowN - handshake < WithDefaults(cfg).failedAfter
    ensures Delivers(mesh, m, n, ttl) && Delivers(mesh, n, m, ttl)
  {
    HubFacts(mesh, h, m);
    HubFacts(mesh, h, n);
    assert m.key != n.key && m != h && n != h;
    OnlyVerdict(mesh.nodes, m, n, cfg, statesM, handshakesM, nowM);
    OnlyVerdict(mesh.nodes, n, m, cfg, statesN, handshakesN, nowN);
    SettledMode(nowM, statesM[n.key], handshake, cfg);
    SettledMode(nowN, statesN[m.key], handshake, cfg);
    assert n.key in mesh.Relayed(m) <==> m.key in mesh.Relayed(n) by {
      hide Decide, Target, RelayedKeys;
    }
    hide RelayedKeys, Delivers, Target, Decide;
    WholeMeshDelivery(mesh, h, m, n, ttl);
    WholeMeshDelivery(mesh, h, n, m, ttl);
  }

  // ---- Without the hypothesis on the hub ------------------------------------------------

  /**
    The hypothesis is needed: if the chosen hub is itself a plain member, then no node but
    that member's own hub can reach it.
   */
  lemma PlainHubUnreachable(mesh: Mesh, h: Node, m: Node, ttl: nat)
    requires Member(mesh, m) && m != h && ttl >= 1
    requires Target(mesh.nodes, None) == Some(h) && h.IsPlainWireGuard()
    requires Target(mesh.nodes, Some(h.key)).Some? ==> Target(mesh.nodes, Some(h.key)).value.key != m.key
    ensures !Delivers(mesh, m, h, ttl)
  {
    TargetIsCandidate(mesh.nodes, None);
    assert forall x :: x in mesh.nodes && x.key == h.key ==> x == h;
    TargetStable(mesh.nodes, m.key);
    FindIs(mesh.nodes, h);
    ToPlainHub(mesh, h, m);
    hide Table, Find;
    assert Path(mesh, h, h, ttl - 1) == [];
    assert Path(mesh, m, h, ttl) == [h];
  }

  /** Every other node sends straight to a plain hub. */
  lemma ToPlainHub(mesh: Mesh, h: Node, m: Node)
    requires Member(mesh, m) && m != h && m.key != h.key && h in mesh.nodes
    requires Target(mesh.nodes, None) == Some(h) && h.IsPlainWireGuard()
    ensures NextHop(mesh, m, h) == Some(h.key)
  {
    TargetStable(mesh.nodes, m.key);
    if !m.IsPlainWireGuard() {
      TableIs(mesh, m, h);
      hide NextHop, Target, Table;
    }
  }

  ghost predicate OtherPairsDeliver(mesh: Mesh, ttl: nat)
    requires Applied(mesh)
  {
    forall m, n :: m in mesh.nodes && n in mesh.nodes && m != n && !(Endpointless(m) && Endpointless(n)) ==>
      Delivers(mesh, m, n, ttl)
  }

  /** The hub is plain and the mesh is just that hub and its own hub. */
  ghost predicate PairOfHubs(mesh: Mesh, h: Node) {
    forall m :: m in mesh.nodes && m != h ==>
      Target(mesh.nodes, Some(h.key)).Some? && Target(mesh.nodes, Some(h.key)).value.key == m.key
  }

  lemma PairDelivers(mesh: Mesh, h: Node, m: Node, ttl: nat)
    requires Member(mesh, m) && m != h && ttl >= 2
    requires Target(mesh.nodes, None) == Some(h) && h.IsPlainWireGuard() && PairOfHubs(mesh, h)
    ensures Member(mesh, h) && Delivers(mesh, m, h, ttl) && Delivers(mesh, h, m, ttl)
  {
    TargetIsCandidate(mesh.nodes, None);
    assert forall x :: x in mesh.nodes && x.key == h.key ==> x == h;
    assert forall x :: x in mesh.nodes && x.key == m.key ==> x == m;
    TargetStable(mesh.nodes, m.key);
    FindIs(mesh.nodes, h);
    FindIs(mesh.nodes, m);
    ToPlainHub(mesh, h, m);
    assert NextHop(mesh, h, m) == Some(m.key);
    hide NextHop, Find, Target;
    assert Path(mesh, h, h, ttl - 1) == [] && Path(mesh, m, m, ttl - 1) == [];
    assert Path(mesh, m, h, ttl) == [h] && Path(mesh, h, m, ttl) == [m];
    assert Passes(mesh, m, h, []) && Passes(mesh, h, m, []);
  }

  /**
    Exactly when every pair other than two endpointless Tincan members is served: the hub
    runs Tincan, or the mesh consists of a plain hub and that hub's own hub.
   */
  lemma HubCondition(mesh: Mesh, h: Node, ttl: nat)
    requires Applied(mesh) && Target(mesh.nodes, None) == Some(h) && ttl >= 2
    ensures OtherPairsDeliver(mesh, ttl) <==> !h.IsPlainWireGuard() || PairOfHubs(mesh, h)
  {
    TargetIsCandidate(mesh.nodes, None);
    if !h.IsPlainWireGuard() {
      forall m, n | m in mesh.nodes && n in mesh.nodes && m != n && !(Endpointless(m) && Endpointless(n))
        ensures Delivers(mesh, m, n, ttl)
      {
        WholeMeshDelivery(mesh, h, m, n, ttl);
      }
    } else if PairOfHubs(mesh, h) {
      assert forall x, y :: x in mesh.nodes && y in mesh.nodes && x.key == y.key ==> x == y;
      forall m, n | m in mesh.nodes && n in mesh.nodes && m != n
        ensures Delivers(mesh, m, n, ttl)
      {
        assert m == h || n == h;
        PairDelivers(mesh, h, if m == h then n else m, ttl);
      }
    } else {
      var m :| m in mesh.nodes && m != h
        && !(Target(mesh.nodes, Some(h.key)).Some? && Target(mesh.nodes, Some(h.key)).value.key == m.key);
      PlainHubUnreachable(mesh, h, m, ttl);
    }
  }

  // ---- A mesh with a plain hub ----------------------------------------------------------

  function Sample(name: string, key: Key, age: string, endpoint: string): Node {
    Node(name, key, key, age, endpoint, false, "", ZERO_TIME)
  }

  /** A host whose kernel was empty and whose controller had just started. */
  ghost function FreshHost(nodes: seq<Node>, self: Node): Host {
    Host(RelayedKeys(Config(0, 0), map[], self, nodes, map[], 1),
         Env(None, None, (s: string) => None, (s: string) => None), Kernel(map[], map[]), [], 1)
  }

  /**
    Such meshes exist: a plain member that publishes an endpoint and is listed first, a Tincan
    member with an endpoint, and one without. The last one cannot reach the first.
   */
  lemma PlainHubMesh() returns (mesh: Mesh, p: Node, b: Node)
    ensures Applied(mesh) && p in mesh.nodes && b in mesh.nodes && p != b
    ensures Target(mesh.nodes, None) == Some(p) && p.IsPlainWireGuard() && !PairOfHubs(mesh, p)
    ensures !Delivers(mesh, b, p, 2) && !OtherPairsDeliver(mesh, 2)
  {
    p, b := Sample("phone", 1, "", "p:1"), Sample("laptop", 3, "age", "");
    var t := Sample("server", 2, "age", "t:1");
    var nodes := [p, t, b];
    mesh := Mesh(nodes, map[2 := FreshHost(nodes, t), 3 := FreshHost(nodes, b)]);
    forall m | m in nodes && !m.IsPlainWireGuard()
      ensures m.key in mesh.hosts && FromController(nodes, m, mesh.Relayed(m))
      ensures KernelOk(mesh.hosts[m.key].before) && Lists(mesh.hosts[m.key].listed, mesh.hosts[m.key].before)
    {
      FreshHostFits(nodes, m);
    }
    assert ChosenAt(nodes, None, 0) && ChosenAt(nodes, Some(p.key), 1);
    TargetIsFirst(nodes, None, 0);
    TargetIsFirst(nodes, Some(p.key), 1);
    hide FromController, Target, FreshHost, RelayedKeys, Delivers;
    PlainHubUnreachable(mesh, p, b, 2);
    assert !(Endpointless(b) && Endpointless(p));
  }

  lemma FreshHostFits(nodes: seq<Node>, self: Node)
    ensures FromController(nodes, self, FreshHost(nodes, self).relayed)
    ensures KernelOk(FreshHost(nodes, self).before)
    ensures Lists(FreshHost(nodes, self).listed, FreshHost(nodes, self).before)
  {
  }
}
