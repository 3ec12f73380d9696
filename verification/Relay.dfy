/**
  The per-peer relay state machine and the controller that drives it.
 */
module Relay {
  import opened Options
  import opened Directory

  const SECOND: int := 1_000_000_000
  const DEFAULT_FAILED_AFTER: int := 180 * SECOND
  const DEFAULT_GRACE: int := 30 * SECOND

  datatype Mode = Direct | Relayed
  datatype PeerState = PeerState(mode: Mode, enteredAt: Time)
  datatype Config = Config(failedAfter: int, grace: int)

  function WithDefaults(cfg: Config): (c: Config)
    ensures c.failedAfter > 0 && c.grace > 0
  {
    Config(
      if cfg.failedAfter <= 0 then DEFAULT_FAILED_AFTER else cfg.failedAfter,
      if cfg.grace <= 0 then DEFAULT_GRACE else cfg.grace)
  }

  /** Decide; handshake is the kernel's LastHandshakeTime, zero for never. */
  function Decide(now: Time, prev: PeerState, handshake: Time, config: Config): PeerState {
    var cfg := WithDefaults(config);
    match prev.mode
    case Direct =>
      if now - prev.enteredAt < cfg.grace then prev else
      var stale :=
        if handshake == ZERO_TIME then now - prev.enteredAt > cfg.failedAfter
        else now - handshake > cfg.failedAfter;
      if stale then PeerState(Relayed, now) else prev
    case Relayed =>
      if handshake != ZERO_TIME && now - handshake < cfg.failedAfter then PeerState(Direct, now) else prev
  }

  /** The defaults: three minutes without a handshake, half a minute of grace. */
  lemma DefaultsAre(cfg: Config)
    ensures WithDefaults(cfg).failedAfter == if cfg.failedAfter > 0 then cfg.failedAfter else 180 * 1_000_000_000
    ensures WithDefaults(cfg).grace == if cfg.grace > 0 then cfg.grace else 30 * 1_000_000_000
  {
  }

  /**
    Every verdict. A direct peer is demoted exactly when its grace is over and its last sign of
    life, or its entry if there never was one, is too old; a relayed one returns exactly on a
    recent handshake; a change of mode starts the clock again, and nothing else does.
   */
  lemma Verdicts(now: Time, prev: PeerState, handshake: Time, config: Config)
    ensures var cfg, next := WithDefaults(config), Decide(now, prev, handshake, config);
      && (prev.mode == Direct ==>
            (next.mode == Relayed <==>
              && now - prev.enteredAt >= cfg.grace
              && now - (if handshake == ZERO_TIME then prev.enteredAt else handshake) > cfg.failedAfter))
      && (prev.mode == Relayed ==>
            (next.mode == Direct <==> handshake != ZERO_TIME && now - handshake < cfg.failedAfter))
      && (next.mode != prev.mode ==> next.enteredAt == now)
      && (next.mode == prev.mode ==> next == prev)
  {
  }

  // ---- Runs of Decide -------------------------------------------------------------------

  datatype Tick = Tick(now: Time, handshake: Time)

  /** The state after the first n ticks. */
  function At(start: PeerState, ticks: seq<Tick>, cfg: Config, n: nat): PeerState
    requires n <= |ticks|
  {
    if n == 0 then start else
    Decide(ticks[n - 1].now, At(start, ticks, cfg, n - 1), ticks[n - 1].handshake, cfg)
  }

  /** The clock does not run backwards, and neither do the reported handshakes. */
  ghost predicate Forward(ticks: seq<Tick>) {
    && (forall i :: 0 <= i < |ticks| ==> ticks[i].handshake >= ZERO_TIME)
    && (forall i, j :: 0 <= i < j < |ticks| ==>
          ticks[i].now <= ticks[j].now && ticks[i].handshake <= ticks[j].handshake)
  }

  ghost predicate Demotes(start: PeerState, ticks: seq<Tick>, cfg: Config, i: nat)
    requires i < |ticks|
  {
    At(start, ticks, cfg, i).mode == Direct && At(start, ticks, cfg, i + 1).mode == Relayed
  }

  ghost predicate Returns(start: PeerState, ticks: seq<Tick>, cfg: Config, i: nat)
    requires i < |ticks|
  {
    At(start, ticks, cfg, i).mode == Relayed && At(start, ticks, cfg, i + 1).mode == Direct
  }

  /** Each return to direct after a demotion is witnessed by a strictly newer handshake. */
  lemma ReturnIsWitnessed(start: PeerState, ticks: seq<Tick>, cfg: Config, i: nat, j: nat)
    requires Forward(ticks) && i < j < |ticks|
    requires Demotes(start, ticks, cfg, i) && Returns(start, ticks, cfg, j)
    ensures ticks[j].handshake > ticks[i].handshake
  {
    assert At(start, ticks, cfg, i + 1)
        == Decide(ticks[i].now, At(start, ticks, cfg, i), ticks[i].handshake, cfg);
    assert At(start, ticks, cfg, j + 1)
        == Decide(ticks[j].now, At(start, ticks, cfg, j), ticks[j].handshake, cfg);
    assert ticks[i].handshake <= ticks[j].handshake && ticks[i].now <= ticks[j].now;
  }

  /** While the mode stays the same, so does the time it was entered. */
  lemma {:induction false} EnteredOnce(start: PeerState, ticks: seq<Tick>, cfg: Config, i: nat, j: nat)
    requires i <= j <= |ticks|
    requires forall k :: i <= k <= j ==> At(start, ticks, cfg, k).mode == Direct
    ensures At(start, ticks, cfg, j) == At(start, ticks, cfg, i)
    decreases j
  {
    if i < j {
      EnteredOnce(start, ticks, cfg, i, j - 1);
      assert At(start, ticks, cfg, j - 1).mode == Direct && At(start, ticks, cfg, j).mode == Direct;
    }
  }

  /**
    Each direct stay lasts at least the grace period. The stay begins at position i: the one a
    run starts in counts from the time it was entered, a later one from the tick that returned.
   */
  lemma DirectStayLasts(start: PeerState, ticks: seq<Tick>, cfg: Config, i: nat, j: nat)
    requires i <= j < |ticks| && Demotes(start, ticks, cfg, j)
    requires forall k :: i <= k <= j ==> At(start, ticks, cfg, k).mode == Direct
    ensures ticks[j].now - At(start, ticks, cfg, i).enteredAt >= WithDefaults(cfg).grace
    ensures i > 0 && Returns(start, ticks, cfg, i - 1) ==> At(start, ticks, cfg, i).enteredAt == ticks[i - 1].now
  {
    EnteredOnce(start, ticks, cfg, i, j);
    assert At(start, ticks, cfg, j + 1)
        == Decide(ticks[j].now, At(start, ticks, cfg, j), ticks[j].handshake, cfg);
  }

  /** Out of grace, with a handshake whose age is not exactly the threshold. */
  ghost predicate Settled(now: Time, prev: PeerState, handshake: Time, cfg: Config) {
    && handshake != ZERO_TIME
    && now - handshake != WithDefaults(cfg).failedAfter
    && (prev.mode == Direct ==> now - prev.enteredAt >= WithDefaults(cfg).grace)
  }

  /** Then the verdict depends on the handshake's age alone. */
  lemma SettledMode(now: Time, prev: PeerState, handshake: Time, cfg: Config)
    requires Settled(now, prev, handshake, cfg)
    ensures Decide(now, prev, handshake, cfg).mode
         == if now - handshake < WithDefaults(cfg).failedAfter then Direct else Relayed
  {
  }

  /** Two ends that share a handshake time agree once each has ticked on the same side of the threshold. */
  lemma EndsAgree(
    startA: PeerState, ticksA: seq<Tick>, startB: PeerState, ticksB: seq<Tick>, cfg: Config, handshake: Time)
    requires |ticksA| > 0 && |ticksB| > 0
    requires ticksA[|ticksA| - 1].handshake == handshake == ticksB[|ticksB| - 1].handshake
    requires Settled(ticksA[|ticksA| - 1].now, At(startA, ticksA, cfg, |ticksA| - 1), handshake, cfg)
    requires Settled(ticksB[|ticksB| - 1].now, At(startB, ticksB, cfg, |ticksB| - 1), handshake, cfg)
    ensures At(startA, ticksA, cfg, |ticksA|).mode == At(startB, ticksB, cfg, |ticksB|).mode
       <==> (ticksA[|ticksA| - 1].now - handshake < WithDefaults(cfg).failedAfter
             <==> ticksB[|ticksB| - 1].now - handshake < WithDefaults(cfg).failedAfter)
  {
    var a, b := |ticksA| - 1, |ticksB| - 1;
    SettledMode(ticksA[a].now, At(startA, ticksA, cfg, a), handshake, cfg);
    SettledMode(ticksB[b].now, At(startB, ticksB, cfg, b), handshake, cfg);
  }

  /** At exactly the threshold the mode is kept, whatever it is; before any handshake it never returns. */
  lemma Hysteresis(now: Time, prev: PeerState, handshake: Time, cfg: Config)
    requires handshake != ZERO_TIME ==> now - handshake == WithDefaults(cfg).failedAfter
    requires handshake == ZERO_TIME ==> prev.mode == Relayed
    ensures Decide(now, prev, handshake, cfg) == prev
  {
  }

  // ---- The controller -------------------------------------------------------------------

  /** What Update decides for one node other than self. */
  function NextState(
    cfg: Config, states: map<Key, PeerState>, self: Node, nodes: seq<Node>,
    handshakes: map<Key, Time>, now: Time, node: Node): PeerState
  {
    var target := Target(nodes, Some(self.key));
    if node.IsPlainWireGuard() then
      var hub := Target(nodes, Some(node.key));
      PeerState(if hub.Some? && hub.value.key != self.key then Relayed else Direct, now)
    else if node.Reachable() || self.Reachable() || target.None? || node.key == target.value.key then
      PeerState(Direct, now)
    else
      var prev := if node.key in states then states[node.key] else PeerState(Direct, now);
      Decide(now, prev, if node.key in handshakes then handshakes[node.key] else ZERO_TIME, cfg)
  }

  /** The states for a list of nodes; a repeated key keeps its last node's state. */
  function NextStates(
    cfg: Config, states: map<Key, PeerState>, self: Node, nodes: seq<Node>,
    handshakes: map<Key, Time>, now: Time, seen: seq<Node>): map<Key, PeerState>
    decreases |seen|
  {
    if seen == [] then map[] else
      var node := seen[|seen| - 1];
      var before := NextStates(cfg, states, self, nodes, handshakes, now, seen[..|seen| - 1]);
      if node.key == self.key then before
      else before[node.key := NextState(cfg, states, self, nodes, handshakes, now, node)]
  }

  /** The keys to be routed through the relay target. */
  ghost function RelayedKeys(
    cfg: Config, states: map<Key, PeerState>, self: Node, nodes: seq<Node>,
    handshakes: map<Key, Time>, now: Time): set<Key>
  {
    set n | n in nodes && n.key != self.key
      && NextState(cfg, states, self, nodes, handshakes, now, n).mode == Relayed :: n.key
  }

  class Controller {
    const cfg: Config
    var states: map<Key, PeerState>

    constructor (config: Config)
      ensures cfg == WithDefaults(config) && states == map[]
    {
      cfg := WithDefaults(config);
      states := map[];
    }

    /** The body of Update's loop for one node. */
    method Advance(
      self: Node, nodes: seq<Node>, target: Option<Node>, handshakes: map<Key, Time>, now: Time, node: Node)
      returns (next: PeerState)
      requires target == Target(nodes, Some(self.key))
      ensures next == NextState(cfg, states, self, nodes, handshakes, now, node)
    {
      if node.IsPlainWireGuard() {
        var hub := RelayTarget(nodes, Some(node.key));
        if hub.Some? && hub.value.key != self.key {
          return PeerState(Relayed, now);
        }
        return PeerState(Direct, now);
      }
      if node.Reachable() || self.Reachable() || target.None? || node.key == target.value.key {
        return PeerState(Direct, now);
      }
      var prev := if node.key in states then states[node.key] else PeerState(Direct, now);
      var handshake := if node.key in handshakes then handshakes[node.key] else ZERO_TIME;
      return Decide(now, prev, handshake, cfg);
    }

    method Update(self: Node, nodes: seq<Node>, handshakes: map<Key, Time>, now: Time)
      returns (relayed: set<Key>, target: Option<Node>)
      modifies this`states
      ensures states == NextStates(cfg, old(states), self, nodes, handshakes, now, nodes)
      ensures relayed == RelayedKeys(cfg, old(states), self, nodes, handshakes, now)
      ensures target == Target(nodes, Some(self.key))
    {
      hide NextState;
      target := RelayTarget(nodes, Some(self.key));
      var newStates: map<Key, PeerState> := map[];
      relayed := {};
      for i := 0 to |nodes|
        invariant states == old(states)
        invariant newStates == NextStates(cfg, states, self, nodes, handshakes, now, nodes[..i])
        invariant relayed == set n | n in nodes[..i] && n.key != self.key
          && NextState(cfg, states, self, nodes, handshakes, now, n).mode == Relayed :: n.key
      {
        var node := nodes[i];
        assert nodes[..i + 1][..i] == nodes[..i];
        assert forall n :: n in nodes[..i + 1] <==> n in nodes[..i] || n == node;
        if node.key != self.key {
          var next := Advance(self, nodes, target, handshakes, now, node);
          newStates := newStates[node.key := next];
          if next.mode == Relayed {
            relayed := relayed + {node.key};
          }
        }
      }
      assert nodes[..|nodes|] == nodes;
      states := newStates;
    }
  }

  /** In a valid directory the controller's map is the verdict on each node. */
  lemma {:induction false} StatesAreVerdicts(
    cfg: Config, states: map<Key, PeerState>, self: Node, nodes: seq<Node>,
    handshakes: map<Key, Time>, now: Time, seen: seq<Node>, i: nat)
    requires DistinctKeys(seen) && i < |seen| && seen[i].key != self.key
    ensures var m := NextStates(cfg, states, self, nodes, handshakes, now, seen);
      && seen[i].key in m
      && m[seen[i].key] == NextState(cfg, states, self, nodes, handshakes, now, seen[i])
    decreases |seen|
  {
    hide NextState;
    var last := |seen| - 1;
    if i < last {
      StatesAreVerdicts(cfg, states, self, nodes, handshakes, now, seen[..last], i);
    }
  }

  // ---- Runs of the controller -----------------------------------------------------------

  /** One Update: the directory then in force, the node it runs on, the device report, the clock. */
  datatype Round = Round(self: Node, nodes: seq<Node>, handshakes: map<Key, Time>, now: Time)

  /** The controller's map after the first n rounds. */
  function StatesAt(cfg: Config, states: map<Key, PeerState>, rounds: seq<Round>, n: nat): map<Key, PeerState>
    requires n <= |rounds|
  {
    if n == 0 then states else
    var r := rounds[n - 1];
    NextStates(cfg, StatesAt(cfg, states, rounds, n - 1), r.self, r.nodes, r.handshakes, r.now, r.nodes)
  }

  /** The directory of the round leaves the verdict on key to the state machine. */
  ghost predicate Eligible(r: Round, key: Key) {
    && DistinctKeys(r.nodes) && key != r.self.key && !r.self.Reachable()
    && (exists n :: n in r.nodes && n.key == key && !n.IsPlainWireGuard() && !n.Reachable())
    && Target(r.nodes, Some(r.self.key)).Some? && Target(r.nodes, Some(r.self.key)).value.key != key
  }

  function Reported(r: Round, key: Key): Time { if key in r.handshakes then r.handshakes[key] else ZERO_TIME }

  /** What the rounds report about one peer. */
  function TicksOf(rounds: seq<Round>, key: Key): (ticks: seq<Tick>)
    ensures |ticks| == |rounds|
  {
    seq(|rounds|, i requires 0 <= i < |rounds| => Tick(rounds[i].now, Reported(rounds[i], key)))
  }

  /** The state a round starts from: a peer not seen before counts as direct from now on. */
  function Held(states: map<Key, PeerState>, key: Key, now: Time): PeerState {
    if key in states then states[key] else PeerState(Direct, now)
  }

  lemma EligibleVerdict(cfg: Config, states: map<Key, PeerState>, r: Round, key: Key)
    requires Eligible(r, key)
    ensures var next := NextStates(cfg, states, r.self, r.nodes, r.handshakes, r.now, r.nodes);
      key in next && next[key] == Decide(r.now, Held(states, key, r.now), Reported(r, key), cfg)
  {
    var n :| n in r.nodes && n.key == key && !n.IsPlainWireGuard() && !n.Reachable();
    var i :| 0 <= i < |r.nodes| && r.nodes[i] == n;
    hide Target, Decide, NextStates;
    StatesAreVerdicts(cfg, states, r.self, r.nodes, r.handshakes, r.now, r.nodes, i);
  }

  /** While a peer stays eligible, however the directory changes, its state is a run of Decide. */
  lemma {:induction false} ControllerRuns(
    cfg: Config, states: map<Key, PeerState>, rounds: seq<Round>, key: Key, n: nat)
    requires 0 < n <= |rounds| && forall k :: 0 <= k < n ==> Eligible(rounds[k], key)
    ensures key in StatesAt(cfg, states, rounds, n)
    ensures StatesAt(cfg, states, rounds, n)[key]
         == At(Held(states, key, rounds[0].now), TicksOf(rounds, key), cfg, n)
  {
    hide Eligible, Decide, NextStates, Reported;
    EligibleVerdict(cfg, StatesAt(cfg, states, rounds, n - 1), rounds[n - 1], key);
    if n > 1 {
      ControllerRuns(cfg, states, rounds, key, n - 1);
    }
  }

  /** The mode the controller holds for key when round n begins. */
  function ModeAt(cfg: Config, states: map<Key, PeerState>, rounds: seq<Round>, key: Key, n: nat): Mode
    requires n <= |rounds|
  {
    if key in StatesAt(cfg, states, rounds, n) then StatesAt(cfg, states, rounds, n)[key].mode else Direct
  }

  lemma ModesAre(cfg: Config, states: map<Key, PeerState>, rounds: seq<Round>, key: Key, n: nat)
    requires rounds != [] && n <= |rounds| && forall k :: 0 <= k < |rounds| ==> Eligible(rounds[k], key)
    ensures ModeAt(cfg, states, rounds, key, n)
         == At(Held(states, key, rounds[0].now), TicksOf(rounds, key), cfg, n).mode
  {
    hide Eligible, TicksOf;
    if n > 0 {
      ControllerRuns(cfg, states, rounds, key, n);
    }
  }

  /**
    Over rounds of Update with changing directories: while a peer stays eligible, each return to
    direct after a demotion is witnessed by a strictly newer handshake.
   */
  lemma ControllerReturnIsWitnessed(
    cfg: Config, states: map<Key, PeerState>, rounds: seq<Round>, key: Key, i: nat, j: nat)
    requires i < j < |rounds| && forall k :: 0 <= k < |rounds| ==> Eligible(rounds[k], key)
    requires Forward(TicksOf(rounds, key))
    requires ModeAt(cfg, states, rounds, key, i) == Direct && ModeAt(cfg, states, rounds, key, i + 1) == Relayed
    requires ModeAt(cfg, states, rounds, key, j) == Relayed && ModeAt(cfg, states, rounds, key, j + 1) == Direct
    ensures Reported(rounds[j], key) > Reported(rounds[i], key)
  {
    hide Eligible, ModeAt, At, Forward, Reported;
    ModesAre(cfg, states, rounds, key, i);
    ModesAre(cfg, states, rounds, key, i + 1);
    ModesAre(cfg, states, rounds, key, j);
    ModesAre(cfg, states, rounds, key, j + 1);
    ReturnIsWitnessed(Held(states, key, rounds[0].now), TicksOf(rounds, key), cfg, i, j);
  }

  /** A peer first seen in round 0 is not demoted before the grace period has passed. */
  lemma NewPeerHasGrace(cfg: Config, states: map<Key, PeerState>, rounds: seq<Round>, key: Key, j: nat)
    requires j < |rounds| && key !in states && forall k :: 0 <= k < |rounds| ==> Eligible(rounds[k], key)
    requires forall k :: 0 <= k <= j ==> ModeAt(cfg, states, rounds, key, k) == Direct
    requires ModeAt(cfg, states, rounds, key, j + 1) == Relayed
    ensures rounds[j].now - rounds[0].now >= WithDefaults(cfg).grace
  {
    hide Eligible, ModeAt, Reported, Decide;
    var start, ticks := Held(states, key, rounds[0].now), TicksOf(rounds, key);
    forall k | 0 <= k <= j + 1
      ensures At(start, ticks, cfg, k).mode == if k <= j then Direct else Relayed
    {
      ModesAre(cfg, states, rounds, key, k);
    }
    DirectStayLasts(start, ticks, cfg, 0, j);
  }

  /** Without any handshake a run stays as it started, or is relayed. */
  lemma {:induction false} SilentRun(start: PeerState, ticks: seq<Tick>, cfg: Config, n: nat)
    requires n <= |ticks| && forall k :: 0 <= k < n ==> ticks[k].handshake == ZERO_TIME
    ensures At(start, ticks, cfg, n) == start || At(start, ticks, cfg, n).mode == Relayed
  {
    if n > 0 {
      SilentRun(start, ticks, cfg, n - 1);
    }
  }

  /**
    A peer first seen in round 0, eligible ever since and never heard, is relayed by the first
    round in which both its grace and the limit have passed.
   */
  lemma SilentPeerIsRelayed(cfg: Config, states: map<Key, PeerState>, rounds: seq<Round>, key: Key, j: nat)
    requires j < |rounds| && key !in states
    requires forall k :: 0 <= k < |rounds| ==> Eligible(rounds[k], key) && Reported(rounds[k], key) == ZERO_TIME
    requires rounds[j].now - rounds[0].now >= WithDefaults(cfg).grace
    requires rounds[j].now - rounds[0].now > WithDefaults(cfg).failedAfter
    ensures ModeAt(cfg, states, rounds, key, j + 1) == Relayed
  {
    hide Eligible, ModeAt, Reported;
    var start, ticks := Held(states, key, rounds[0].now), TicksOf(rounds, key);
    ModesAre(cfg, states, rounds, key, j + 1);
    SilentRun(start, ticks, cfg, j);
    Verdicts(rounds[j].now, At(start, ticks, cfg, j), ZERO_TIME, cfg);
    assert At(start, ticks, cfg, j + 1) == Decide(ticks[j].now, At(start, ticks, cfg, j), ticks[j].handshake, cfg);
    hide Decide;
  }

  /**
    Update's verdict on every other node of a valid directory. A spoke is relayed exactly from
    nodes that are not its hub; a Tincan peer exactly when neither end publishes an endpoint,
    another node is the target, and the state machine says so. A verdict that does not come
    from the state machine starts the clock.
   */
  lemma UpdateVerdicts(
    cfg: Config, states: map<Key, PeerState>, self: Node, nodes: seq<Node>,
    handshakes: map<Key, Time>, now: Time, n: Node)
    requires DistinctKeys(nodes) && n in nodes && n.key != self.key
    ensures var relayed := RelayedKeys(cfg, states, self, nodes, handshakes, now);
      var next := NextStates(cfg, states, self, nodes, handshakes, now, nodes);
      var hub, target := Target(nodes, Some(n.key)), Target(nodes, Some(self.key));
      var handshake := if n.key in handshakes then handshakes[n.key] else ZERO_TIME;
      var prev := if n.key in states then states[n.key] else PeerState(Direct, now);
      var open := n.endpoint == "" && self.endpoint == "" && target.Some? && target.value.key != n.key;
      && n.key in next && (n.key in relayed <==> next[n.key].mode == Relayed)
      && (n.ageRecipient == "" ==>
            next[n.key] == PeerState(if hub.Some? && hub.value.key != self.key then Relayed else Direct, now))
      && (n.ageRecipient != "" && !open ==> next[n.key] == PeerState(Direct, now))
      && (n.ageRecipient != "" && open ==> next[n.key] == Decide(now, prev, handshake, cfg))
  {
    var i :| 0 <= i < |nodes| && nodes[i] == n;
    hide Target, Decide, NextStates;
    StatesAreVerdicts(cfg, states, self, nodes, handshakes, now, nodes, i);
    assert forall x :: x in nodes && x.key == n.key ==> x == n;
  }

  /** The map holds nobody else: a departed peer is forgotten. */
  lemma {:induction false} StatesOfMembers(
    cfg: Config, states: map<Key, PeerState>, self: Node, nodes: seq<Node>,
    handshakes: map<Key, Time>, now: Time, seen: seq<Node>, key: Key)
    ensures key in NextStates(cfg, states, self, nodes, handshakes, now, seen)
       <==> key != self.key && exists n :: n in seen && n.key == key
    decreases |seen|
  {
    hide NextState;
    if seen != [] {
      var last := seen[|seen| - 1];
      StatesOfMembers(cfg, states, self, nodes, handshakes, now, seen[..|seen| - 1], key);
      assert seen == seen[..|seen| - 1] + [last];
    }
  }
}
