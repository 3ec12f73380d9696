/**
  Peer configurations, their merge against the kernel, and the kernel's cryptokey table.

  The kernel is modelled by what WireGuard promises (section 2, "Cryptokey Routing", of the
  WireGuard paper): a table from addresses to peers, updated peer by peer in the order given.
 */
module Wireguard {
  import opened Options
  import opened Directory
  import opened Relay

  datatype PeerConfig = PeerConfig(
    key: Key, remove: bool, allowed: seq<Ip>, endpoint: Option<string>, keepalive: Option<int>)

  /** Outside inputs: configured keepalive, LAN lookup, name resolution, host part of an address. */
  datatype Env = Env(
    keepalive: Option<int>,
    lan: Option<(Key, bool) -> string>,
    resolve: string -> Option<string>,
    hostIp: string -> Option<nat>)

  // ---- BuildPeerConfigs -----------------------------------------------------------------

  predicate BehindSameNat(env: Env, self: Node, node: Node) {
    var mine := (env.hostIp)(self.observedEndpoint);
    mine.Some? && mine == (env.hostIp)(node.observedEndpoint)
  }

  function ChooseEndpoint(env: Env, self: Node, node: Node): string {
    if node.endpoint != "" then node.endpoint else
    var lan := if env.lan.Some? then (env.lan.value)(node.key, BehindSameNat(env, self, node)) else "";
    if lan != "" then lan else node.observedEndpoint
  }

  function Keepalive(env: Env, self: Node): int {
    match env.keepalive
    case Some(k) => k
    case None => if self.Reachable() then 0 else 25 * SECOND
  }

  /** The relay target BuildPeerConfigs folds into; None when nothing is relayed. */
  function FoldTarget(self: Node, nodes: seq<Node>, relayed: set<Key>): Option<Key> {
    if relayed != {} && Target(nodes, Some(self.key)).Some? then Some(Target(nodes, Some(self.key)).value.key) else None
  }

  /** A relayed peer whose address is folded into the target's entry. */
  predicate Shadow(target: Option<Key>, relayed: set<Key>, node: Node) {
    node.key in relayed && target.Some? && node.key != target.value
  }

  function BaseConfig(env: Env, self: Node, target: Option<Key>, relayed: set<Key>, node: Node): PeerConfig {
    var shadow := Shadow(target, relayed, node);
    var bare := shadow && node.IsPlainWireGuard();
    var chosen := ChooseEndpoint(env, self, node);
    PeerConfig(
      node.key, false,
      if shadow then [] else [node.ip],
      if bare || chosen == "" then None else (env.resolve)(chosen),
      if bare || Keepalive(env, self) <= 0 then None else Some(Keepalive(env, self)))
  }

  function Others(self: Node, nodes: seq<Node>): seq<Node> {
    if nodes == [] then [] else
    Others(self, nodes[..|nodes| - 1]) + if nodes[|nodes| - 1].key == self.key then [] else [nodes[|nodes| - 1]]
  }

  function BaseConfigs(
    env: Env, self: Node, target: Option<Key>, relayed: set<Key>, others: seq<Node>): (peers: seq<PeerConfig>)
    ensures |peers| == |others|
  {
    seq(|others|, i requires 0 <= i < |others| => BaseConfig(env, self, target, relayed, others[i]))
  }

  /** The folded addresses, in directory order. */
  function Folded(target: Option<Key>, relayed: set<Key>, others: seq<Node>): seq<Ip> {
    if others == [] then [] else
    Folded(target, relayed, others[..|others| - 1])
      + if Shadow(target, relayed, others[|others| - 1]) then [others[|others| - 1].ip] else []
  }

  /** The last position of the target among the peers, or -1. */
  function TargetIndex(target: Option<Key>, others: seq<Node>): (i: int)
    ensures -1 <= i < |others|
    ensures i >= 0 ==> Some(others[i].key) == target
    ensures i < 0 ==> forall k :: 0 <= k < |others| ==> Some(others[k].key) != target
  {
    if others == [] then -1
    else if Some(others[|others| - 1].key) == target then |others| - 1
    else TargetIndex(target, others[..|others| - 1])
  }

  function Built(env: Env, self: Node, nodes: seq<Node>, relayed: set<Key>): seq<PeerConfig> {
    var target, others := FoldTarget(self, nodes, relayed), Others(self, nodes);
    var peers, at := BaseConfigs(env, self, target, relayed, others), TargetIndex(target, others);
    if at < 0 then peers
    else peers[at := peers[at].(allowed := peers[at].allowed + Folded(target, relayed, others))]
  }

  lemma OthersStep(self: Node, nodes: seq<Node>, i: nat)
    requires i < |nodes|
    ensures Others(self, nodes[..i + 1])
         == if nodes[i].key == self.key then Others(self, nodes[..i]) else Others(self, nodes[..i]) + [nodes[i]]
  {
    assert nodes[..i + 1][..i] == nodes[..i];
  }

  lemma OneMorePeer(env: Env, self: Node, target: Option<Key>, relayed: set<Key>, done: seq<Node>, node: Node)
    ensures BaseConfigs(env, self, target, relayed, done + [node])
         == BaseConfigs(env, self, target, relayed, done) + [BaseConfig(env, self, target, relayed, node)]
    ensures Folded(target, relayed, done + [node])
         == Folded(target, relayed, done) + if Shadow(target, relayed, node) then [node.ip] else []
    ensures TargetIndex(target, done + [node])
         == if Some(node.key) == target then |done| else TargetIndex(target, done)
  {
    hide BaseConfig;
    assert (done + [node])[..|done|] == done;
  }

  method BuildPeerConfigs(env: Env, self: Node, nodes: seq<Node>, relayed: set<Key>) returns (peers: seq<PeerConfig>)
    ensures peers == Built(env, self, nodes, relayed)
  {
    var target: Option<Key> := None;
    if relayed != {} {
      var t := RelayTarget(nodes, Some(self.key));
      if t.Some? {
        target := Some(t.value.key);
      }
    }
    assert target == FoldTarget(self, nodes, relayed);
    NoPeersYet(env, self, target, relayed);
    hide FoldTarget, BaseConfig, Others, BaseConfigs, Folded, TargetIndex, Target;
    peers := [];
    var extra: seq<Ip> := [];
    var targetIdx := -1;
    ghost var done: seq<Node> := [];
    for i := 0 to |nodes|
      invariant done == Others(self, nodes[..i])
      invariant peers == BaseConfigs(env, self, target, relayed, done)
      invariant extra == Folded(target, relayed, done)
      invariant targetIdx == TargetIndex(target, done)
    {
      var node := nodes[i];
      OthersStep(self, nodes, i);
      if node.key != self.key {
        OneMorePeer(env, self, target, relayed, done, node);
        var peer := ConfigOf(env, self, target, relayed, node);
        if Shadow(target, relayed, node) {
          extra := extra + [node.ip];
        }
        if Some(node.key) == target {
          targetIdx := |peers|;
        }
        peers := peers + [peer];
        done := done + [node];
      }
    }
    assert nodes[..|nodes|] == nodes;
    if targetIdx >= 0 && |extra| > 0 {
      peers := peers[targetIdx := peers[targetIdx].(allowed := peers[targetIdx].allowed + extra)];
    } else if targetIdx >= 0 {
      assert peers[targetIdx].allowed + extra == peers[targetIdx].allowed;
    }
  }

  lemma NoPeersYet(env: Env, self: Node, target: Option<Key>, relayed: set<Key>)
    ensures Others(self, []) == [] && BaseConfigs(env, self, target, relayed, []) == []
    ensures Folded(target, relayed, []) == [] && TargetIndex(target, []) == -1
  {
  }

  method ConfigOf(env: Env, self: Node, target: Option<Key>, relayed: set<Key>, node: Node) returns (peer: PeerConfig)
    ensures peer == BaseConfig(env, self, target, relayed, node)
  {
    var shadow := node.key in relayed && target.Some? && node.key != target.value;
    var bareShadow := shadow && node.IsPlainWireGuard();
    peer := PeerConfig(node.key, false, [], None, None);
    if !shadow {
      peer := peer.(allowed := [node.ip]);
    }
    if !bareShadow {
      var endpoint := ChooseEndpoint(env, self, node);
      if endpoint != "" {
        peer := peer.(endpoint := (env.resolve)(endpoint));
      }
      var keepalive := Keepalive(env, self);
      if keepalive > 0 {
        peer := peer.(keepalive := Some(keepalive));
      }
    }
  }

  // ---- Endpoints and keepalives ---------------------------------------------------------

  /** The answer of the LAN lookup; a stale one is welcome exactly behind the same NAT. */
  function LanAnswer(env: Env, self: Node, n: Node): string {
    if env.lan.None? then "" else
    var mine, theirs := (env.hostIp)(self.observedEndpoint), (env.hostIp)(n.observedEndpoint);
    (env.lan.value)(n.key, mine.Some? && theirs.Some? && mine.value == theirs.value)
  }

  /** The configured endpoint, else the one found on the LAN, else the observed one, resolved. */
  function Pick(env: Env, self: Node, n: Node): Option<string> {
    if n.endpoint != "" then (env.resolve)(n.endpoint)
    else if LanAnswer(env, self, n) != "" then (env.resolve)(LanAnswer(env, self, n))
    else if n.observedEndpoint != "" then (env.resolve)(n.observedEndpoint)
    else None
  }

  /** What keeps a path through a NAT open: the configured interval, or 25 seconds without an endpoint of one's own. */
  function KeptAlive(env: Env, self: Node): Option<int> {
    if env.keepalive.Some? then if env.keepalive.value > 0 then env.keepalive else None
    else if self.endpoint == "" then Some(25_000_000_000)
    else None
  }

  /** A spoke reached through the relay target is never dialed. */
  predicate NotDialed(self: Node, nodes: seq<Node>, relayed: set<Key>, n: Node) {
    var target := Target(nodes, Some(self.key));
    n.ageRecipient == "" && n.key in relayed && target.Some? && target.value.key != n.key
  }

  /** Which endpoint and keepalive each entry of the built list carries. */
  lemma BuiltPicks(env: Env, self: Node, nodes: seq<Node>, relayed: set<Key>, i: nat)
    requires i < |Others(self, nodes)| == |Built(env, self, nodes, relayed)|
    ensures var pc, n := Built(env, self, nodes, relayed)[i], Others(self, nodes)[i];
      if NotDialed(self, nodes, relayed, n) then pc.endpoint.None? && pc.keepalive.None?
      else pc.endpoint == Pick(env, self, n) && pc.keepalive == KeptAlive(env, self)
  {
    var n, target := Others(self, nodes)[i], FoldTarget(self, nodes, relayed);
    BuiltFromBase(env, self, nodes, relayed, i);
    BasePicks(env, self, target, relayed, n);
    hide Built, Others, BaseConfig, Pick, KeptAlive, Target;
  }

  lemma BuiltFromBase(env: Env, self: Node, nodes: seq<Node>, relayed: set<Key>, i: nat)
    requires i < |Others(self, nodes)| == |Built(env, self, nodes, relayed)|
    ensures var pc := Built(env, self, nodes, relayed)[i];
      var base := BaseConfig(env, self, FoldTarget(self, nodes, relayed), relayed, Others(self, nodes)[i]);
      pc.endpoint == base.endpoint && pc.keepalive == base.keepalive
  {
    hide Others, Folded, TargetIndex, FoldTarget, BaseConfig;
  }

  lemma BasePicks(env: Env, self: Node, target: Option<Key>, relayed: set<Key>, n: Node)
    ensures var base := BaseConfig(env, self, target, relayed, n);
      if n.ageRecipient == "" && n.key in relayed && target.Some? && target.value != n.key
      then base.endpoint.None? && base.keepalive.None?
      else base.endpoint == Pick(env, self, n) && base.keepalive == KeptAlive(env, self)
  {
    PicksAre(env, self, n);
    hide ChooseEndpoint, Pick;
  }

  lemma PicksAre(env: Env, self: Node, n: Node)
    ensures var chosen := ChooseEndpoint(env, self, n);
      (if chosen == "" then None else (env.resolve)(chosen)) == Pick(env, self, n)
  {
  }

  // ---- Merging against the kernel -------------------------------------------------------

  /** One peer as the device reports it. */
  datatype KernelPeer = KernelPeer(key: Key, endpoint: Option<string>, handshake: Time)

  /** byKey: the last entry for a key counts. */
  function ByKey(peers: seq<KernelPeer>): map<Key, KernelPeer> {
    if peers == [] then map[] else ByKey(peers[..|peers| - 1])[peers[|peers| - 1].key := peers[|peers| - 1]]
  }

  /** The kernel peer completed a handshake within the fresh window. */
  predicate Live(byKey: map<Key, KernelPeer>, key: Key, now: Time) {
    key in byKey && byKey[key].handshake != ZERO_TIME && now - byKey[key].handshake < DEFAULT_FAILED_AFTER
  }

  function PreservedOne(peer: PeerConfig, byKey: map<Key, KernelPeer>, now: Time): PeerConfig {
    if Live(byKey, peer.key, now) then peer.(endpoint := None) else peer
  }

  function Preserved(peers: seq<PeerConfig>, byKey: map<Key, KernelPeer>, now: Time): (r: seq<PeerConfig>)
    ensures |r| == |peers|
  {
    seq(|peers|, i requires 0 <= i < |peers| => PreservedOne(peers[i], byKey, now))
  }

  method PreserveLiveEndpoints(peers: array<PeerConfig>, kernel: seq<KernelPeer>, now: Time)
    modifies peers
    ensures peers[..] == Preserved(old(peers[..]), ByKey(kernel), now)
  {
    var byKey: map<Key, KernelPeer> := map[];
    for i := 0 to |kernel|
      invariant byKey == ByKey(kernel[..i])
      invariant peers[..] == old(peers[..])
    {
      assert kernel[..i + 1][..i] == kernel[..i];
      byKey := byKey[kernel[i].key := kernel[i]];
    }
    assert kernel[..|kernel|] == kernel;
    hide ByKey;
    for i := 0 to peers.Length
      invariant forall k :: 0 <= k < i ==> peers[k] == PreservedOne(old(peers[k]), byKey, now)
      invariant forall k :: i <= k < peers.Length ==> peers[k] == old(peers[k])
    {
      if peers[i].endpoint.Some? && peers[i].key in byKey && byKey[peers[i].key].handshake != ZERO_TIME {
        if now - byKey[peers[i].key].handshake < DEFAULT_FAILED_AFTER {
          peers[i] := peers[i].(endpoint := None);
        }
      }
    }
  }

  function Removal(key: Key): PeerConfig { PeerConfig(key, true, [], None, None) }

  /** Removals for the kernel peers the target list does not mention. */
  function Deletions(keep: set<Key>, existing: seq<KernelPeer>): seq<PeerConfig> {
    if existing == [] then [] else
    Deletions(keep, existing[..|existing| - 1])
      + if existing[|existing| - 1].key in keep then [] else [Removal(existing[|existing| - 1].key)]
  }

  ghost function Keys(peers: seq<PeerConfig>): set<Key> { set i | 0 <= i < |peers| :: peers[i].key }

  method AppendDeletions(target: seq<PeerConfig>, existing: seq<KernelPeer>) returns (peers: seq<PeerConfig>)
    ensures peers == target + Deletions(Keys(target), existing)
  {
    var keep: set<Key> := {};
    for i := 0 to |target|
      invariant keep == set k | 0 <= k < i :: target[k].key
    {
      keep := keep + {target[i].key};
    }
    peers := target;
    for i := 0 to |existing|
      invariant peers == target + Deletions(keep, existing[..i])
    {
      assert existing[..i + 1][..i] == existing[..i];
      if existing[i].key !in keep {
        peers := peers + [Removal(existing[i].key)];
      }
    }
    assert existing[..|existing|] == existing;
  }

  /** The peers whose endpoint a configuration overwrites. */
  ghost function PushedKeys(peers: seq<PeerConfig>): set<Key> {
    set i | 0 <= i < |peers| && !peers[i].remove && peers[i].endpoint.Some? :: peers[i].key
  }

  /** pushedEndpointKeys. */
  method PushedEndpointKeys(peers: seq<PeerConfig>) returns (pushed: seq<Key>)
    ensures (set key | key in pushed) == PushedKeys(peers)
    ensures forall key :: key in pushed <==>
      exists i :: 0 <= i < |peers| && peers[i].key == key && !peers[i].remove && peers[i].endpoint.Some?
  {
    pushed := [];
    for i := 0 to |peers|
      invariant (set key | key in pushed) == PushedKeys(peers[..i])
    {
      PushedOneMore(peers, i);
      if !peers[i].remove && peers[i].endpoint.Some? {
        pushed := pushed + [peers[i].key];
      }
    }
    assert peers[..|peers|] == peers;
    forall key
      ensures key in pushed <==>
        exists i :: 0 <= i < |peers| && peers[i].key == key && !peers[i].remove && peers[i].endpoint.Some?
    {
      assert key in pushed <==> key in PushedKeys(peers);
    }
  }

  lemma PushedOneMore(peers: seq<PeerConfig>, i: nat)
    requires i < |peers|
    ensures PushedKeys(peers[..i + 1])
         == PushedKeys(peers[..i]) + if !peers[i].remove && peers[i].endpoint.Some? then {peers[i].key} else {}
  {
    var a, b := peers[..i], peers[..i + 1];
    assert forall k :: 0 <= k < i ==> a[k] == b[k];
    assert b[i] == peers[i];
    forall key
      ensures key in PushedKeys(b) <==>
        key in PushedKeys(a) || (!peers[i].remove && peers[i].endpoint.Some? && key == peers[i].key)
    {
      if key in PushedKeys(a) {
        var k :| 0 <= k < |a| && !a[k].remove && a[k].endpoint.Some? && a[k].key == key;
        assert b[k] == a[k];
      }
    }
  }

  function Explicit(peer: PeerConfig): PeerConfig {
    if peer.keepalive.None? then peer.(keepalive := Some(0)) else peer
  }

  function Normalized(peers: seq<PeerConfig>): (r: seq<PeerConfig>)
    ensures |r| == |peers|
  {
    seq(|peers|, i requires 0 <= i < |peers| => Explicit(peers[i]))
  }

  /** mergeAgainstKernel; None is a device that cannot be read. */
  ghost function Merged(peers: seq<PeerConfig>, device: Option<seq<KernelPeer>>, now: Time): seq<PeerConfig> {
    var normal := Normalized(peers);
    match device
    case None => normal
    case Some(existing) =>
      var kept := Preserved(normal, ByKey(existing), now);
      kept + Deletions(Keys(kept), existing)
  }

  /** The same as the code performs it: the list is adapted in place, then extended. */
  method MergeAgainstKernel(peers: array<PeerConfig>, device: Option<seq<KernelPeer>>, now: Time)
    returns (merged: seq<PeerConfig>)
    modifies peers
    ensures merged == Merged(old(peers[..]), device, now)
  {
    ghost var given := peers[..];
    hide ByKey, Deletions, Keys;
    for i := 0 to peers.Length
      invariant peers[..i] == Normalized(given)[..i] && peers[i..] == given[i..]
    {
      assert peers[i] == given[i] && given[i..][1..] == given[i + 1..];
      if peers[i].keepalive.None? {
        peers[i] := peers[i].(keepalive := Some(0));
      }
    }
    assert peers[..] == Normalized(given);
    if device.None? {
      return peers[..];
    }
    PreserveLiveEndpoints(peers, device.value, now);
    merged := AppendDeletions(peers[..], device.value);
  }

  // ---- The kernel -----------------------------------------------------------------------

  datatype Kernel = Kernel(peers: map<Key, KernelPeer>, owner: map<Ip, Key>)

  /** Addresses belong to configured peers only. */
  ghost predicate KernelOk(k: Kernel) {
    && (forall ip :: ip in k.owner ==> k.owner[ip] in k.peers)
    && (forall key :: key in k.peers ==> k.peers[key].key == key)
  }

  function Released(owner: map<Ip, Key>, key: Key): map<Ip, Key> {
    map ip | ip in owner && owner[ip] != key :: owner[ip]
  }

  function Claimed(owner: map<Ip, Key>, ips: seq<Ip>, key: Key): map<Ip, Key> {
    owner + map ip | ip in ips :: key
  }

  /** One PeerConfig: removal, or replace-allowed-IPs and an optional endpoint. */
  function ConfiguredOne(k: Kernel, pc: PeerConfig): Kernel {
    if pc.remove then Kernel(k.peers - {pc.key}, Released(k.owner, pc.key)) else
    var was := if pc.key in k.peers then k.peers[pc.key] else KernelPeer(pc.key, None, ZERO_TIME);
    var peer := if pc.endpoint.Some? then was.(endpoint := pc.endpoint) else was;
    Kernel(k.peers[pc.key := peer], Claimed(Released(k.owner, pc.key), pc.allowed, pc.key))
  }

  /** ConfigureDevice with ReplacePeers false. */
  function Configured(k: Kernel, pcs: seq<PeerConfig>): Kernel {
    if pcs == [] then k else ConfiguredOne(Configured(k, pcs[..|pcs| - 1]), pcs[|pcs| - 1])
  }

  /** Manager.Apply on a kernel in the given state: the state after, and the endpoints pushed. */
  method Apply(
    env: Env, self: Node, nodes: seq<Node>, relayed: set<Key>,
    kernel: Kernel, device: Option<seq<KernelPeer>>, now: Time)
    returns (after: Kernel, pushed: seq<Key>)
    ensures var merged := Merged(Built(env, self, nodes, relayed), device, now);
      after == Configured(kernel, merged) && (set key | key in pushed) == PushedKeys(merged)
  {
    hide Merged, Built, Configured, PushedKeys;
    var peers := BuildPeerConfigs(env, self, nodes, relayed);
    var list := new PeerConfig[|peers|](i requires 0 <= i < |peers| => peers[i]);
    assert list[..] == peers;
    var merged := MergeAgainstKernel(list, device, now);
    after := Configured(kernel, merged);
    pushed := PushedEndpointKeys(merged);
  }

  ghost predicate DistinctPeers(pcs: seq<PeerConfig>) {
    forall i, j :: 0 <= i < j < |pcs| ==> pcs[i].key != pcs[j].key
  }

  ghost predicate Claims(pc: PeerConfig, ip: Ip) { !pc.remove && ip in pc.allowed }

  ghost predicate SingleClaims(pcs: seq<PeerConfig>) {
    forall i, j, ip :: 0 <= i < j < |pcs| && Claims(pcs[i], ip) ==> !Claims(pcs[j], ip)
  }

  /** Who owns an address afterwards: its one claimant, or its old owner if that was left alone. */
  lemma OwnersAfter(k: Kernel, pcs: seq<PeerConfig>, ip: Ip)
    requires DistinctPeers(pcs) && SingleClaims(pcs)
    ensures var o := Configured(k, pcs).owner;
      && (forall i :: 0 <= i < |pcs| && Claims(pcs[i], ip) ==> ip in o && o[ip] == pcs[i].key)
      && ((forall i :: 0 <= i < |pcs| ==> !Claims(pcs[i], ip)) && ip in o ==>
            ip in k.owner && o[ip] == k.owner[ip] && forall i :: 0 <= i < |pcs| ==> pcs[i].key != o[ip])
  {
    forall i | 0 <= i < |pcs| && Claims(pcs[i], ip)
      ensures ip in Configured(k, pcs).owner && Configured(k, pcs).owner[ip] == pcs[i].key
    {
      ClaimantOwns(k, pcs, ip, i);
    }
    if forall i :: 0 <= i < |pcs| ==> !Claims(pcs[i], ip) {
      UnclaimedKept(k, pcs, ip);
    }
    hide Configured, DistinctPeers, SingleClaims, Claims;
  }

  lemma {:induction false} ClaimantOwns(k: Kernel, pcs: seq<PeerConfig>, ip: Ip, i: nat)
    requires DistinctPeers(pcs) && SingleClaims(pcs) && i < |pcs| && Claims(pcs[i], ip)
    ensures var o := Configured(k, pcs).owner; ip in o && o[ip] == pcs[i].key
    decreases |pcs|
  {
    var n := |pcs| - 1;
    var front := pcs[..n];
    OwnerStep(Configured(k, front), pcs[n], ip);
    if i < n {
      assert forall j :: 0 <= j < n ==> front[j] == pcs[j];
      assert DistinctPeers(front) && SingleClaims(front);
      assert !Claims(pcs[n], ip) && pcs[i].key != pcs[n].key;
      ClaimantOwns(k, front, ip, i);
    }
    hide ConfiguredOne, DistinctPeers, SingleClaims, Claims;
  }

  lemma {:induction false} UnclaimedKept(k: Kernel, pcs: seq<PeerConfig>, ip: Ip)
    requires forall i :: 0 <= i < |pcs| ==> !Claims(pcs[i], ip)
    ensures var o := Configured(k, pcs).owner;
      ip in o ==> ip in k.owner && o[ip] == k.owner[ip] && forall i :: 0 <= i < |pcs| ==> pcs[i].key != o[ip]
    decreases |pcs|
  {
    if pcs != [] {
      var n := |pcs| - 1;
      assert forall j :: 0 <= j < n ==> pcs[..n][j] == pcs[j];
      UnclaimedKept(k, pcs[..n], ip);
      OwnerStep(Configured(k, pcs[..n]), pcs[n], ip);
      hide ConfiguredOne, Claims;
    }
  }

  lemma OwnerStep(k: Kernel, pc: PeerConfig, ip: Ip)
    ensures var o := ConfiguredOne(k, pc).owner;
      && (Claims(pc, ip) ==> ip in o && o[ip] == pc.key)
      && (!Claims(pc, ip) ==> (ip in o <==> ip in k.owner && k.owner[ip] != pc.key))
      && (!Claims(pc, ip) && ip in o ==> o[ip] == k.owner[ip])
  {
  }

  /** Which peers exist afterwards. */
  lemma {:induction false} PeersAfter(k: Kernel, pcs: seq<PeerConfig>, key: Key)
    requires DistinctPeers(pcs)
    ensures var p := Configured(k, pcs).peers;
      && (forall i :: 0 <= i < |pcs| && pcs[i].key == key ==> (key in p <==> !pcs[i].remove))
      && ((forall i :: 0 <= i < |pcs| ==> pcs[i].key != key) ==> (key in p <==> key in k.peers))
    decreases |pcs|
  {
    if pcs != [] {
      var n := |pcs| - 1;
      var front := pcs[..n];
      assert forall i :: 0 <= i < n ==> front[i] == pcs[i];
      PeersAfter(k, front, key);
    }
  }

  // ---- What Apply leaves in the kernel --------------------------------------------------

  lemma {:induction false} OthersAre(self: Node, nodes: seq<Node>)
    ensures forall n :: n in Others(self, nodes) <==> n in nodes && n.key != self.key
    decreases |nodes|
  {
    if nodes != [] {
      OthersAre(self, nodes[..|nodes| - 1]);
      assert nodes == nodes[..|nodes| - 1] + [nodes[|nodes| - 1]];
    }
  }

  lemma {:induction false} OthersDistinct(self: Node, nodes: seq<Node>)
    requires DistinctKeys(nodes) && DistinctIps(nodes)
    ensures DistinctKeys(Others(self, nodes)) && DistinctIps(Others(self, nodes))
    decreases |nodes|
  {
    if nodes != [] {
      var last, front := nodes[|nodes| - 1], nodes[..|nodes| - 1];
      OthersDistinct(self, front);
      OthersAre(self, front);
      var others := Others(self, front);
      forall i | 0 <= i < |others|
        ensures others[i].key != last.key && others[i].ip != last.ip
      {
        assert others[i] in front;
      }
    }
  }

  /** The peer that is to own node's address in self's table. */
  function Owner(self: Node, nodes: seq<Node>, relayed: set<Key>, node: Node): Key {
    OwnerOf(FoldTarget(self, nodes, relayed), relayed, node)
  }

  function OwnerOf(target: Option<Key>, relayed: set<Key>, node: Node): Key {
    if Shadow(target, relayed, node) then target.value else node.key
  }

  lemma {:induction false} FoldedAre(target: Option<Key>, relayed: set<Key>, others: seq<Node>, ip: Ip)
    ensures ip in Folded(target, relayed, others)
       <==> exists i :: 0 <= i < |others| && others[i].ip == ip && Shadow(target, relayed, others[i])
    decreases |others|
  {
    if others != [] {
      var n := |others| - 1;
      var front := others[..n];
      assert forall i :: 0 <= i < n ==> front[i] == others[i];
      FoldedAre(target, relayed, front, ip);
    }
  }

  lemma FoldTargetListed(self: Node, nodes: seq<Node>, relayed: set<Key>)
    requires FoldTarget(self, nodes, relayed).Some?
    ensures TargetIndex(FoldTarget(self, nodes, relayed), Others(self, nodes)) >= 0
  {
    TargetIsCandidate(nodes, Some(self.key));
    OthersAre(self, nodes);
    var t := Target(nodes, Some(self.key)).value;
    assert t in Others(self, nodes);
  }

  /** Which entry of the built list claims an address, for each position in the list. */
  lemma BuiltEntry(env: Env, self: Node, nodes: seq<Node>, relayed: set<Key>, i: nat)
    requires i < |Others(self, nodes)|
    ensures var target, others := FoldTarget(self, nodes, relayed), Others(self, nodes);
      var pc := Built(env, self, nodes, relayed)[i];
      && |Built(env, self, nodes, relayed)| == |others|
      && pc.key == others[i].key && !pc.remove
      && (forall ip :: ip in pc.allowed <==>
            || (!Shadow(target, relayed, others[i]) && ip == others[i].ip)
            || (i == TargetIndex(target, others) && ip in Folded(target, relayed, others)))
  {
    hide ChooseEndpoint, Keepalive, FoldTarget, Others, TargetIndex, Folded;
  }

  /** Each non-self address is claimed by exactly the entry of its intended owner. */
  lemma BuiltClaims(env: Env, self: Node, nodes: seq<Node>, relayed: set<Key>, i: nat, ip: Ip)
    requires DistinctKeys(nodes) && DistinctIps(nodes) && i < |Others(self, nodes)|
    ensures |Built(env, self, nodes, relayed)| == |Others(self, nodes)|
    ensures Claims(Built(env, self, nodes, relayed)[i], ip) <==>
      exists n :: n in Others(self, nodes) && n.ip == ip && Owner(self, nodes, relayed, n) == Others(self, nodes)[i].key
  {
    var target, others := FoldTarget(self, nodes, relayed), Others(self, nodes);
    OthersDistinct(self, nodes);
    BuiltEntry(env, self, nodes, relayed, i);
    if target.Some? {
      FoldTargetListed(self, nodes, relayed);
    }
    hide FoldTarget, Others, Built, Folded, TargetIndex, DistinctKeys, DistinctIps, Shadow;
    ClaimIsOwned(target, relayed, others, i, ip);
    assert forall n :: Owner(self, nodes, relayed, n) == OwnerOf(target, relayed, n);
  }

  lemma ClaimIsOwned(target: Option<Key>, relayed: set<Key>, others: seq<Node>, i: nat, ip: Ip)
    requires DistinctKeys(others) && i < |others| && (target.Some? ==> TargetIndex(target, others) >= 0)
    ensures
      (!Shadow(target, relayed, others[i]) && ip == others[i].ip)
        || (i == TargetIndex(target, others) && ip in Folded(target, relayed, others))
      <==>
      exists n :: n in others && n.ip == ip && OwnerOf(target, relayed, n) == others[i].key
  {
    FoldedAre(target, relayed, others, ip);
    hide Folded;
    if n :| n in others && n.ip == ip && OwnerOf(target, relayed, n) == others[i].key {
      var k :| 0 <= k < |others| && others[k] == n;
    }
    if !Shadow(target, relayed, others[i]) && ip == others[i].ip {
      assert others[i] in others && OwnerOf(target, relayed, others[i]) == others[i].key;
    }
    if i == TargetIndex(target, others) && ip in Folded(target, relayed, others) {
      var k :| 0 <= k < |others| && others[k].ip == ip && Shadow(target, relayed, others[k]);
      assert others[k] in others && OwnerOf(target, relayed, others[k]) == others[i].key;
    }
  }

  /** The device listing names exactly the kernel's peers. */
  ghost predicate Lists(existing: seq<KernelPeer>, k: Kernel) {
    && (forall i, j :: 0 <= i < j < |existing| ==> existing[i].key != existing[j].key)
    && (forall key :: key in k.peers <==> exists i :: 0 <= i < |existing| && existing[i].key == key)
  }

  lemma {:induction false} DeletionsAre(keep: set<Key>, existing: seq<KernelPeer>)
    requires forall i, j :: 0 <= i < j < |existing| ==> existing[i].key != existing[j].key
    ensures var d := Deletions(keep, existing);
      && DistinctPeers(d)
      && (forall i :: 0 <= i < |d| ==> d[i].remove && d[i].key !in keep)
      && (forall i :: 0 <= i < |existing| && existing[i].key !in keep ==> existing[i].key in Keys(d))
      && (forall i :: 0 <= i < |d| ==> exists j :: 0 <= j < |existing| && existing[j].key == d[i].key)
    decreases |existing|
  {
    if existing != [] {
      var n := |existing| - 1;
      DeletionsAre(keep, existing[..n]);
      var before, d := Deletions(keep, existing[..n]), Deletions(keep, existing);
      assert forall i :: 0 <= i < |before| ==> d[i] == before[i];
      assert forall i :: 0 <= i < n ==> existing[..n][i] == existing[i];
      if existing[n].key in keep {
        assert d == before;
      } else {
        assert d == before + [d[|before|]] && d[|before|].key == existing[n].key;
        hide Deletions;
        KeysConcat(before, [d[|before|]]);
        assert [d[|before|]][0].key in Keys([d[|before|]]);
      }
    }
  }

  /** m keeps every entry's key and claims, adds removals only, and mentions every kernel peer. */
  ghost predicate Merges(m: seq<PeerConfig>, peers: seq<PeerConfig>, existing: seq<KernelPeer>) {
    && |m| >= |peers| && DistinctPeers(m)
    && (forall i :: 0 <= i < |peers| ==> m[i].key == peers[i].key && m[i].allowed == peers[i].allowed && !m[i].remove)
    && (forall i :: |peers| <= i < |m| ==> m[i].remove)
    && (forall i :: 0 <= i < |existing| ==> existing[i].key in Keys(m))
  }

  lemma MergedMerges(peers: seq<PeerConfig>, existing: seq<KernelPeer>, now: Time)
    requires DistinctPeers(peers) && forall i :: 0 <= i < |peers| ==> !peers[i].remove
    requires forall i, j :: 0 <= i < j < |existing| ==> existing[i].key != existing[j].key
    ensures Merges(Merged(peers, Some(existing), now), peers, existing)
  {
    hide ByKey, Deletions, DistinctPeers, Merges, Keys;
    var kept := Preserved(Normalized(peers), ByKey(existing), now);
    assert SameClaims(kept, peers);
    hide Preserved, Normalized;
    DeletionsAre(Keys(kept), existing);
    MergeParts(kept, Deletions(Keys(kept), existing), peers, existing);
  }

  ghost predicate SameClaims(kept: seq<PeerConfig>, peers: seq<PeerConfig>) {
    && |kept| == |peers|
    && forall i :: 0 <= i < |kept| ==>
         kept[i].key == peers[i].key && kept[i].allowed == peers[i].allowed && !kept[i].remove
  }

  lemma MergeParts(kept: seq<PeerConfig>, d: seq<PeerConfig>, peers: seq<PeerConfig>, existing: seq<KernelPeer>)
    requires SameClaims(kept, peers) && DistinctPeers(peers) && DistinctPeers(d)
    requires forall i :: 0 <= i < |d| ==> d[i].remove && d[i].key !in Keys(kept)
    requires forall i :: 0 <= i < |existing| && existing[i].key !in Keys(kept) ==> existing[i].key in Keys(d)
    ensures Merges(kept + d, peers, existing)
  {
    assert DistinctPeers(kept);
    DistinctConcat(kept, d);
    KeysConcat(kept, d);
    hide Keys, DistinctPeers;
  }

  lemma DistinctConcat(a: seq<PeerConfig>, b: seq<PeerConfig>)
    requires DistinctPeers(a) && DistinctPeers(b) && forall i :: 0 <= i < |b| ==> b[i].key !in Keys(a)
    ensures DistinctPeers(a + b)
  {
    forall i, j | 0 <= i < j < |a + b|
      ensures (a + b)[i].key != (a + b)[j].key
    {
      if i < |a| <= j {
        assert a[i].key in Keys(a) && b[j - |a|].key !in Keys(a);
      }
    }
  }

  lemma KeysConcat(a: seq<PeerConfig>, b: seq<PeerConfig>)
    ensures Keys(a + b) == Keys(a) + Keys(b)
  {
    assert forall i :: 0 <= i < |a| ==> (a + b)[i] == a[i];
    assert forall i :: 0 <= i < |b| ==> (a + b)[|a| + i] == b[i];
  }

  lemma BuiltShape(env: Env, self: Node, nodes: seq<Node>, relayed: set<Key>)
    requires DistinctKeys(nodes) && DistinctIps(nodes)
    ensures var peers, others := Built(env, self, nodes, relayed), Others(self, nodes);
      && |peers| == |others| && DistinctPeers(peers)
      && forall i :: 0 <= i < |peers| ==> !peers[i].remove && peers[i].key == others[i].key
  {
    OthersDistinct(self, nodes);
    var peers, others := Built(env, self, nodes, relayed), Others(self, nodes);
    forall i | 0 <= i < |others|
      ensures |peers| == |others| && !peers[i].remove && peers[i].key == others[i].key
    {
      BuiltEntry(env, self, nodes, relayed, i);
    }
  }

  lemma OwnerIsListed(self: Node, nodes: seq<Node>, relayed: set<Key>, n: Node)
    requires n in Others(self, nodes)
    ensures exists i :: 0 <= i < |Others(self, nodes)| && Others(self, nodes)[i].key == Owner(self, nodes, relayed, n)
  {
    if FoldTarget(self, nodes, relayed).Some? {
      FoldTargetListed(self, nodes, relayed);
    }
  }

  lemma OneClaimant(env: Env, self: Node, nodes: seq<Node>, relayed: set<Key>, i: nat, j: nat, ip: Ip)
    requires DistinctKeys(nodes) && DistinctIps(nodes)
    requires i < |Others(self, nodes)| == |Built(env, self, nodes, relayed)| && j < |Others(self, nodes)|
    requires Claims(Built(env, self, nodes, relayed)[i], ip) && Claims(Built(env, self, nodes, relayed)[j], ip)
    ensures i == j
  {
    var others := Others(self, nodes);
    OthersDistinct(self, nodes);
    BuiltClaims(env, self, nodes, relayed, i, ip);
    BuiltClaims(env, self, nodes, relayed, j, ip);
    hide Built, Others, Owner, Claims, DistinctKeys, DistinctIps;
    var a :| a in others && a.ip == ip && Owner(self, nodes, relayed, a) == others[i].key;
    var b :| b in others && b.ip == ip && Owner(self, nodes, relayed, b) == others[j].key;
    SameAddress(others, a, b);
    SameKey(others, i, j);
  }

  lemma SameAddress(nodes: seq<Node>, a: Node, b: Node)
    requires DistinctIps(nodes) && a in nodes && b in nodes && a.ip == b.ip
    ensures a == b
  {
  }

  lemma SameKey(nodes: seq<Node>, i: nat, j: nat)
    requires DistinctKeys(nodes) && i < |nodes| && j < |nodes| && nodes[i].key == nodes[j].key
    ensures i == j
  {
  }

  lemma ClaimsAreSingle(
    env: Env, self: Node, nodes: seq<Node>, relayed: set<Key>, m: seq<PeerConfig>, existing: seq<KernelPeer>)
    requires DistinctKeys(nodes) && DistinctIps(nodes)
    requires Merges(m, Built(env, self, nodes, relayed), existing)
    ensures SingleClaims(m)
  {
    BuiltShape(env, self, nodes, relayed);
    hide Built, Others, DistinctPeers, DistinctKeys, DistinctIps, Keys;
    forall i, j, ip | 0 <= i < j < |m| && Claims(m[i], ip)
      ensures !Claims(m[j], ip)
    {
      if Claims(m[j], ip) {
        OneClaimant(env, self, nodes, relayed, i, j, ip);
      }
    }
  }

  /** An address of another node goes to its intended owner; no other address is owned. */
  lemma AddressOwned(
    env: Env, self: Node, nodes: seq<Node>, relayed: set<Key>, m: seq<PeerConfig>,
    kernel: Kernel, existing: seq<KernelPeer>, ip: Ip)
    requires DistinctKeys(nodes) && DistinctIps(nodes)
    requires KernelOk(kernel) && Lists(existing, kernel)
    requires Merges(m, Built(env, self, nodes, relayed), existing)
    ensures var after := Configured(kernel, m);
      && (forall n :: n in Others(self, nodes) && n.ip == ip ==>
            ip in after.owner && after.owner[ip] == Owner(self, nodes, relayed, n))
      && (ip in after.owner ==> exists n :: n in Others(self, nodes) && n.ip == ip)
  {
    var peers, others, after := Built(env, self, nodes, relayed), Others(self, nodes), Configured(kernel, m);
    BuiltShape(env, self, nodes, relayed);
    ClaimsAreSingle(env, self, nodes, relayed, m, existing);
    OwnersAfter(kernel, m, ip);
    hide Built, Others, Owner, Configured;
    assert forall key :: key in kernel.peers ==> key in Keys(m);
    forall n | n in others && n.ip == ip
      ensures ip in after.owner && after.owner[ip] == Owner(self, nodes, relayed, n)
    {
      OwnerIsListed(self, nodes, relayed, n);
      var i :| 0 <= i < |others| && others[i].key == Owner(self, nodes, relayed, n);
      BuiltClaims(env, self, nodes, relayed, i, ip);
      assert Claims(m[i], ip);
    }
    if ip in after.owner && !exists n :: n in others && n.ip == ip {
      forall i | 0 <= i < |m|
        ensures !Claims(m[i], ip)
      {
        if i < |peers| {
          BuiltClaims(env, self, nodes, relayed, i, ip);
        }
      }
    }
  }

  lemma PeerExists(
    env: Env, self: Node, nodes: seq<Node>, relayed: set<Key>, m: seq<PeerConfig>,
    kernel: Kernel, existing: seq<KernelPeer>, key: Key)
    requires DistinctKeys(nodes) && DistinctIps(nodes) && Lists(existing, kernel)
    requires Merges(m, Built(env, self, nodes, relayed), existing)
    ensures key in Configured(kernel, m).peers <==> exists n :: n in Others(self, nodes) && n.key == key
  {
    var peers, others, after := Built(env, self, nodes, relayed), Others(self, nodes), Configured(kernel, m);
    BuiltShape(env, self, nodes, relayed);
    PeersAfter(kernel, m, key);
    hide Built, Others, Configured;
    if n :| n in others && n.key == key {
      var i :| 0 <= i < |others| && others[i] == n;
      assert m[i].key == key;
    }
    assert key in kernel.peers ==> key in Keys(m);
    if key in after.peers {
      var i :| 0 <= i < |m| && m[i].key == key;
      assert others[i] in others;
    }
  }

  /** A node other than self has this key. */
  ghost predicate OtherMember(self: Node, nodes: seq<Node>, key: Key) {
    exists n :: n in nodes && n.key != self.key && n.key == key
  }

  /**
    For every valid directory, relayed set and readable kernel, Apply leaves one peer per
    other node, and the owned addresses are exactly those nodes' addresses, each owned by the
    relay target if it is folded and by its own node otherwise.
   */
  lemma ApplyExact(
    env: Env, self: Node, nodes: seq<Node>, relayed: set<Key>, kernel: Kernel, existing: seq<KernelPeer>, now: Time)
    requires DistinctKeys(nodes) && DistinctIps(nodes)
    requires KernelOk(kernel) && Lists(existing, kernel)
    ensures var after := Configured(kernel, Merged(Built(env, self, nodes, relayed), Some(existing), now));
      && (forall key :: key in after.peers <==> OtherMember(self, nodes, key))
      && (forall n :: n in nodes && n.key != self.key ==>
            n.ip in after.owner && after.owner[n.ip] == Owner(self, nodes, relayed, n))
      && (forall ip :: ip in after.owner ==> exists n :: n in nodes && n.key != self.key && n.ip == ip)
  {
    var peers, others := Built(env, self, nodes, relayed), Others(self, nodes);
    OthersAre(self, nodes);
    BuiltShape(env, self, nodes, relayed);
    MergedMerges(peers, existing, now);
    var m := Merged(peers, Some(existing), now);
    var after := Configured(kernel, m);
    hide Built, Merged, Others, Owner, Configured, Merges;
    forall key
      ensures key in after.peers <==> OtherMember(self, nodes, key)
    {
      PeerExists(env, self, nodes, relayed, m, kernel, existing, key);
    }
    forall ip
      ensures ip in after.owner ==> exists n :: n in nodes && n.key != self.key && n.ip == ip
      ensures forall n :: n in nodes && n.key != self.key && n.ip == ip ==>
        ip in after.owner && after.owner[ip] == Owner(self, nodes, relayed, n)
    {
      AddressOwned(env, self, nodes, relayed, m, kernel, existing, ip);
    }
  }

  // ---- Endpoints after Apply ------------------------------------------------------------

  lemma {:induction false} ByKeyIs(existing: seq<KernelPeer>, j: nat)
    requires j < |existing| && forall i, k :: 0 <= i < k < |existing| ==> existing[i].key != existing[k].key
    ensures existing[j].key in ByKey(existing) && ByKey(existing)[existing[j].key] == existing[j]
    decreases |existing|
  {
    var n := |existing| - 1;
    if j < n {
      ByKeyIs(existing[..n], j);
    }
  }

  lemma {:induction false} ByKeyListed(existing: seq<KernelPeer>, key: Key)
    requires key in ByKey(existing)
    ensures exists j :: 0 <= j < |existing| && existing[j].key == key
    decreases |existing|
  {
    var n := |existing| - 1;
    if existing[n].key != key {
      ByKeyListed(existing[..n], key);
      var j :| 0 <= j < n && existing[..n][j].key == key;
      assert existing[j].key == key;
    }
  }

  /** The device lists a handshake with key that is less than three minutes old. */
  ghost predicate Fresh(existing: seq<KernelPeer>, key: Key, now: Time) {
    exists j :: 0 <= j < |existing| && existing[j].key == key
      && existing[j].handshake != ZERO_TIME && now - existing[j].handshake < 180_000_000_000
  }

  lemma FreshIsLive(existing: seq<KernelPeer>, key: Key, now: Time)
    requires forall i, k :: 0 <= i < k < |existing| ==> existing[i].key != existing[k].key
    ensures Live(ByKey(existing), key, now) <==> Fresh(existing, key, now)
  {
    hide ByKey;
    if key in ByKey(existing) {
      ByKeyListed(existing, key);
      var j :| 0 <= j < |existing| && existing[j].key == key;
      ByKeyIs(existing, j);
    }
    if Fresh(existing, key, now) {
      var j :| 0 <= j < |existing| && existing[j].key == key
        && existing[j].handshake != ZERO_TIME && now - existing[j].handshake < 180_000_000_000;
      ByKeyIs(existing, j);
    }
  }

  /** Merging clears the endpoint of exactly the freshly heard peers, and spells out every keepalive. */
  lemma MergedEntry(peers: seq<PeerConfig>, existing: seq<KernelPeer>, now: Time, i: nat)
    requires i < |peers| && forall j, k :: 0 <= j < k < |existing| ==> existing[j].key != existing[k].key
    ensures |Merged(peers, Some(existing), now)| >= |peers|
    ensures var m := Merged(peers, Some(existing), now)[i];
      && m.key == peers[i].key && m.remove == peers[i].remove && m.allowed == peers[i].allowed
      && m.keepalive == Some(if peers[i].keepalive.Some? then peers[i].keepalive.value else 0)
      && m.endpoint == if Fresh(existing, peers[i].key, now) then None else peers[i].endpoint
  {
    FreshIsLive(existing, peers[i].key, now);
    hide ByKey, Deletions, Keys, Fresh, Live;
  }

  /** The endpoint of a peer after a configuration that names it once, and its handshake. */
  lemma {:induction false} EndpointSet(k: Kernel, pcs: seq<PeerConfig>, i: nat)
    requires DistinctPeers(pcs) && i < |pcs| && !pcs[i].remove
    ensures var key, after := pcs[i].key, Configured(k, pcs);
      && key in after.peers
      && after.peers[key].endpoint == (if pcs[i].endpoint.Some? then pcs[i].endpoint
                                       else if key in k.peers then k.peers[key].endpoint else None)
      && after.peers[key].handshake == (if key in k.peers then k.peers[key].handshake else ZERO_TIME)
    decreases |pcs|
  {
    var n := |pcs| - 1;
    var front, key := pcs[..n], pcs[i].key;
    assert forall j :: 0 <= j < n ==> front[j] == pcs[j];
    PeerStep(Configured(k, front), pcs[n], key);
    assert DistinctPeers(front);
    if i < n {
      EndpointSet(k, front, i);
      assert pcs[n].key != key;
    } else {
      Untouched(k, front, key);
    }
    hide ConfiguredOne, DistinctPeers;
  }

  lemma PeerStep(k: Kernel, pc: PeerConfig, key: Key)
    ensures var p := ConfiguredOne(k, pc).peers;
      && (key != pc.key ==> (key in p <==> key in k.peers) && (key in p ==> p[key] == k.peers[key]))
      && (!pc.remove ==>
            && pc.key in p
            && p[pc.key].handshake == (if pc.key in k.peers then k.peers[pc.key].handshake else ZERO_TIME)
            && p[pc.key].endpoint == (if pc.endpoint.Some? then pc.endpoint
                                      else if pc.key in k.peers then k.peers[pc.key].endpoint else None))
  {
  }

  lemma {:induction false} Untouched(k: Kernel, pcs: seq<PeerConfig>, key: Key)
    requires forall j :: 0 <= j < |pcs| ==> pcs[j].key != key
    ensures var after := Configured(k, pcs);
      (key in after.peers <==> key in k.peers) && (key in k.peers ==> after.peers[key] == k.peers[key])
    decreases |pcs|
  {
    if pcs != [] {
      Untouched(k, pcs[..|pcs| - 1], key);
    }
  }

  /**
    After Apply a freshly heard peer, and one that is not to be dialed or has no resolvable
    endpoint, keeps its kernel endpoint; any other takes the pick. No handshake is touched.
   */
  lemma ApplyEndpoints(
    env: Env, self: Node, nodes: seq<Node>, relayed: set<Key>,
    kernel: Kernel, existing: seq<KernelPeer>, now: Time, n: Node)
    requires DistinctKeys(nodes) && DistinctIps(nodes) && Lists(existing, kernel)
    requires n in nodes && n.key != self.key
    ensures var after := Configured(kernel, Merged(Built(env, self, nodes, relayed), Some(existing), now));
      var kept := if n.key in kernel.peers then kernel.peers[n.key].endpoint else None;
      var dialed := !Fresh(existing, n.key, now) && !NotDialed(self, nodes, relayed, n) && Pick(env, self, n).Some?;
      && n.key in after.peers
      && after.peers[n.key].endpoint == (if dialed then Pick(env, self, n) else kept)
      && after.peers[n.key].handshake == (if n.key in kernel.peers then kernel.peers[n.key].handshake else ZERO_TIME)
  {
    OthersAre(self, nodes);
    var peers, others := Built(env, self, nodes, relayed), Others(self, nodes);
    var i :| 0 <= i < |others| && others[i] == n;
    BuiltShape(env, self, nodes, relayed);
    hide Built, Others, Fresh, Pick, NotDialed, Configured, KeptAlive, DistinctKeys, DistinctIps;
    BuiltPicks(env, self, nodes, relayed, i);
    MergedMerges(peers, existing, now);
    MergedEntry(peers, existing, now, i);
    hide Merged;
    EndpointSet(kernel, Merged(peers, Some(existing), now), i);
  }
}
