/**
  The signed directory and the relay choice every node derives from it.

  Keys and tunnel addresses are opaque canonical values; times are integers, with 0 for
  Go's zero time. Sealing is ideal: a directory value stands for its signed blob.
 */
module Directory {
  import opened Options
  import opened DnsNames

  type Key = nat
  type Ip = nat
  type Time = int

  const ZERO_TIME: Time := 0
  const MAX_SERIAL: nat := 0xFFFF_FFFF_FFFF_FFFF

  /** A uint64. */
  type Serial = n: nat | n <= MAX_SERIAL

  datatype Node = Node(
    name: string, key: Key, ip: Ip, ageRecipient: string,
    endpoint: string, relay: bool, observedEndpoint: string, observedAt: Time)
  {
    predicate IsPlainWireGuard() { ageRecipient == "" }
    predicate Reachable() { endpoint != "" }
  }

  datatype Content = Content(cidr: string, domain: string, nodes: seq<Node>)
  datatype Directory = Directory(serial: Serial, createdAt: Time, content: Content)

  // ---- Validate -------------------------------------------------------------------------

  const SCHEMA_VERSION: int := 2

  datatype Invalid =
    | BadSchema | BadPrefix | BadDomain | EmptyName | DuplicateName | BadLabel | DuplicateLabel
    | Malformed | DuplicateKey | DuplicateIp

  /**
    The library's part of the checks: parsing the prefix, names, and for one node its key, its
    address and whether the prefix contains it, its endpoints and its recipient.
   */
  datatype Checks = Checks(prefix: string -> bool, names: Names, node: (string, Node) -> bool)

  ghost predicate DistinctKeys(nodes: seq<Node>) {
    forall i, j :: 0 <= i < j < |nodes| ==> nodes[i].key != nodes[j].key
  }

  ghost predicate DistinctIps(nodes: seq<Node>) {
    forall i, j :: 0 <= i < j < |nodes| ==> nodes[i].ip != nodes[j].ip
  }

  ghost predicate DistinctNames(nodes: seq<Node>) {
    forall i, j :: 0 <= i < j < |nodes| ==> nodes[i].name != nodes[j].name
  }

  /** While a domain is set, names must also differ once lower-cased. */
  ghost predicate DistinctLabels(nodes: seq<Node>, lower: string -> string) {
    forall i, j :: 0 <= i < j < |nodes| ==> lower(nodes[i].name) != lower(nodes[j].name)
  }

  /** What the node loop guarantees; routing relies on the last two clauses. */
  ghost predicate ValidNodes(content: Content, c: Checks) {
    && (forall i :: 0 <= i < |content.nodes| ==> ValidNode(content, c, content.nodes[i]))
    && DistinctNames(content.nodes)
    && (content.domain != "" ==> DistinctLabels(content.nodes, c.names.lower))
    && DistinctKeys(content.nodes)
    && DistinctIps(content.nodes)
  }

  predicate ValidNode(content: Content, c: Checks, n: Node) {
    n.name != "" && (content.domain != "" ==> Label(n.name)) && (c.node)(content.cidr, n)
  }

  ghost predicate Valid(schema: int, content: Content, c: Checks) {
    && schema == SCHEMA_VERSION && (c.prefix)(content.cidr)
    && (content.domain != "" ==> Domain(content.domain, c.names))
    && ValidNodes(content, c)
  }

  ghost function Prefix(content: Content, i: nat): Content
    requires i <= |content.nodes|
  {
    content.(nodes := content.nodes[..i])
  }

  /** Adding node i keeps a valid prefix valid exactly when none of the loop's checks fires. */
  lemma ValidStep(content: Content, c: Checks, i: nat)
    requires i < |content.nodes|
    ensures var nodes, n := content.nodes, content.nodes[i];
      ValidNodes(Prefix(content, i + 1), c) <==>
        && ValidNodes(Prefix(content, i), c) && ValidNode(content, c, n)
        && (forall k :: 0 <= k < i ==> nodes[k].name != n.name && nodes[k].key != n.key && nodes[k].ip != n.ip)
        && (content.domain != "" ==>
              forall k :: 0 <= k < i ==> (c.names.lower)(nodes[k].name) != (c.names.lower)(n.name))
  {
    hide Label;
    var a, b := content.nodes[..i], content.nodes[..i + 1];
    assert b == a + [content.nodes[i]];
    assert forall k :: 0 <= k < i ==> b[k] == a[k];
  }

  lemma {:induction false} InvalidStays(content: Content, c: Checks, i: nat)
    requires i <= |content.nodes| && !ValidNodes(Prefix(content, i), c)
    ensures !ValidNodes(content, c)
    decreases |content.nodes| - i
  {
    hide ValidNodes;
    if i < |content.nodes| {
      ValidStep(content, c, i);
      InvalidStays(content, c, i + 1);
    } else {
      assert Prefix(content, i) == content;
    }
  }

  method Validate(schema: int, content: Content, c: Checks) returns (error: Option<Invalid>)
    ensures error.None? <==> Valid(schema, content, c)
  {
    if schema != SCHEMA_VERSION {
      return Some(BadSchema);
    }
    if !(c.prefix)(content.cidr) {
      return Some(BadPrefix);
    }
    if content.domain != "" {
      var ok := ValidateDomain(content.domain, c.names);
      if !ok {
        return Some(BadDomain);
      }
    }
    hide Domain, ValidNodes;
    error := CheckNodes(content, c);
  }

  /** Validate's loop over the nodes, with its sets of what was seen. */
  method CheckNodes(content: Content, c: Checks) returns (error: Option<Invalid>)
    ensures error.None? <==> ValidNodes(content, c)
  {
    var nodes, lower := content.nodes, c.names.lower;
    assert Prefix(content, |nodes|) == content;
    assert ValidNodes(Prefix(content, 0), c);
    hide ValidNodes, Label;
    var names: set<string>, labels: set<string> := {}, {};
    var keys: set<Key>, ips: set<Ip> := {}, {};
    for i := 0 to |nodes|
      invariant names == set k | 0 <= k < i :: nodes[k].name
      invariant content.domain != "" ==> labels == set k | 0 <= k < i :: lower(nodes[k].name)
      invariant keys == set k | 0 <= k < i :: nodes[k].key
      invariant ips == set k | 0 <= k < i :: nodes[k].ip
      invariant ValidNodes(Prefix(content, i), c)
    {
      var node := nodes[i];
      ValidStep(content, c, i);
      if !ValidNodes(Prefix(content, i + 1), c) {
        InvalidStays(content, c, i + 1);
      }
      if node.name == "" {
        return Some(EmptyName);
      }
      if node.name in names {
        return Some(DuplicateName);
      }
      names := names + {node.name};
      if content.domain != "" {
        var usable := ValidateLabel(node.name);
        if !usable {
          return Some(BadLabel);
        }
        if lower(node.name) in labels {
          return Some(DuplicateLabel);
        }
        labels := labels + {lower(node.name)};
      }
      if !(c.node)(content.cidr, node) {
        return Some(Malformed);
      }
      if node.key in keys {
        return Some(DuplicateKey);
      }
      keys := keys + {node.key};
      if node.ip in ips {
        return Some(DuplicateIp);
      }
      ips := ips + {node.ip};
    }
    return None;
  }

  // ---- RelayTarget ----------------------------------------------------------------------

  predicate Candidate(node: Node, self: Option<Key>) {
    Some(node.key) != self && node.Reachable()
  }

  /** The first candidate, if any. */
  function FirstCandidate(nodes: seq<Node>, self: Option<Key>): Option<Node> {
    if nodes == [] then None
    else if Candidate(nodes[0], self) then Some(nodes[0])
    else FirstCandidate(nodes[1..], self)
  }

  /** The first candidate marked as a relay, if any. */
  function FirstRelay(nodes: seq<Node>, self: Option<Key>): Option<Node> {
    if nodes == [] then None
    else if Candidate(nodes[0], self) && nodes[0].relay then Some(nodes[0])
    else FirstRelay(nodes[1..], self)
  }

  /** A marked candidate wins; otherwise the first candidate serves. */
  function Target(nodes: seq<Node>, self: Option<Key>): Option<Node> {
    if FirstRelay(nodes, self).Some? then FirstRelay(nodes, self) else FirstCandidate(nodes, self)
  }

  /** self is None where the code passes the empty key, which no node has. */
  method RelayTarget(nodes: seq<Node>, self: Option<Key>) returns (target: Option<Node>)
    ensures target == Target(nodes, self)
  {
    var fallback := -1;
    for i := 0 to |nodes|
      invariant -1 <= fallback < i
      invariant FirstRelay(nodes, self) == FirstRelay(nodes[i..], self)
      invariant fallback < 0 ==> FirstCandidate(nodes, self) == FirstCandidate(nodes[i..], self)
      invariant fallback >= 0 ==> FirstCandidate(nodes, self) == Some(nodes[fallback])
    {
      var n := nodes[i];
      if Candidate(n, self) {
        if n.relay {
          return Some(n);
        }
        if fallback < 0 {
          fallback := i;
        }
      }
    }
    if fallback >= 0 {
      return Some(nodes[fallback]);
    }
    return None;
  }

  lemma {:induction false} TargetIsCandidate(nodes: seq<Node>, self: Option<Key>)
    ensures Target(nodes, self).Some? <==> exists i :: 0 <= i < |nodes| && Candidate(nodes[i], self)
    ensures Target(nodes, self).Some? ==>
      Target(nodes, self).value in nodes && Candidate(Target(nodes, self).value, self)
  {
    FirstIsCandidate(nodes, self);
    FirstRelayIsCandidate(nodes, self);
  }

  lemma {:induction false} FirstIsCandidate(nodes: seq<Node>, self: Option<Key>)
    ensures FirstCandidate(nodes, self).Some? <==> exists i :: 0 <= i < |nodes| && Candidate(nodes[i], self)
    ensures FirstCandidate(nodes, self).Some? ==>
      FirstCandidate(nodes, self).value in nodes && Candidate(FirstCandidate(nodes, self).value, self)
  {
    if nodes != [] && !Candidate(nodes[0], self) {
      var rest := nodes[1..];
      FirstIsCandidate(rest, self);
      assert forall i :: 0 <= i < |rest| ==> rest[i] == nodes[i + 1];
      assert forall i :: 1 <= i < |nodes| ==> nodes[i] == rest[i - 1];
    }
  }

  lemma {:induction false} FirstRelayIsCandidate(nodes: seq<Node>, self: Option<Key>)
    ensures FirstRelay(nodes, self).Some? ==>
      FirstRelay(nodes, self).value in nodes && Candidate(FirstRelay(nodes, self).value, self)
  {
    if nodes != [] && !(Candidate(nodes[0], self) && nodes[0].relay) {
      FirstRelayIsCandidate(nodes[1..], self);
    }
  }

  /** Node i is the first marked candidate or, when no candidate is marked, the first candidate. */
  ghost predicate ChosenAt(nodes: seq<Node>, self: Option<Key>, i: nat)
    requires i < |nodes|
  {
    && Candidate(nodes[i], self)
    && (nodes[i].relay ==> forall k :: 0 <= k < i && Candidate(nodes[k], self) ==> !nodes[k].relay)
    && (!nodes[i].relay ==>
          && (forall k :: 0 <= k < i ==> !Candidate(nodes[k], self))
          && (forall k :: 0 <= k < |nodes| && Candidate(nodes[k], self) ==> !nodes[k].relay))
  }

  /** The choice, by position: marked candidates before unmarked ones, then directory order. */
  lemma TargetIsFirst(nodes: seq<Node>, self: Option<Key>, i: nat)
    requires i < |nodes| && ChosenAt(nodes, self, i)
    ensures Target(nodes, self) == Some(nodes[i])
  {
    if nodes[i].relay {
      FirstRelayAt(nodes, self, i);
    } else {
      NoneMarked(nodes, self);
      FirstCandidateAt(nodes, self, i);
    }
  }

  lemma {:induction false} FirstRelayAt(nodes: seq<Node>, self: Option<Key>, i: nat)
    requires i < |nodes| && Candidate(nodes[i], self) && nodes[i].relay
    requires forall k :: 0 <= k < i && Candidate(nodes[k], self) ==> !nodes[k].relay
    ensures FirstRelay(nodes, self) == Some(nodes[i])
  {
    if i > 0 {
      FirstRelayAt(nodes[1..], self, i - 1);
    }
  }

  lemma {:induction false} FirstCandidateAt(nodes: seq<Node>, self: Option<Key>, i: nat)
    requires i < |nodes| && Candidate(nodes[i], self) && forall k :: 0 <= k < i ==> !Candidate(nodes[k], self)
    ensures FirstCandidate(nodes, self) == Some(nodes[i])
  {
    if i > 0 {
      FirstCandidateAt(nodes[1..], self, i - 1);
    }
  }

  lemma {:induction false} NoneMarked(nodes: seq<Node>, self: Option<Key>)
    requires forall k :: 0 <= k < |nodes| && Candidate(nodes[k], self) ==> !nodes[k].relay
    ensures FirstRelay(nodes, self) == None
  {
    if nodes != [] {
      assert !(Candidate(nodes[0], self) && nodes[0].relay);
      NoneMarked(nodes[1..], self);
    }
  }

  // ---- The choice is consistent ---------------------------------------------------------

  lemma {:induction false} ExcludingAnother(nodes: seq<Node>, k: Key)
    ensures FirstCandidate(nodes, None).Some? && FirstCandidate(nodes, None).value.key != k ==>
      FirstCandidate(nodes, Some(k)) == FirstCandidate(nodes, None)
    ensures FirstRelay(nodes, None).Some? && FirstRelay(nodes, None).value.key != k ==>
      FirstRelay(nodes, Some(k)) == FirstRelay(nodes, None)
    ensures FirstCandidate(nodes, None).None? ==> FirstCandidate(nodes, Some(k)).None?
    ensures FirstRelay(nodes, None).None? ==> FirstRelay(nodes, Some(k)).None?
  {
    if nodes != [] {
      ExcludingAnother(nodes[1..], k);
    }
  }

  /** Excluding any node but the chosen one leaves the choice as it was. */
  lemma TargetStable(nodes: seq<Node>, k: Key)
    requires Target(nodes, None).Some? ==> Target(nodes, None).value.key != k
    ensures Target(nodes, Some(k)) == Target(nodes, None)
  {
    ExcludingAnother(nodes, k);
  }

  /**
    The claim in the controller, in the form in which it holds: a spoke's hub, when it is not
    self, is self's own target exactly when that target is not the spoke itself.
   */
  lemma HubIsTarget(nodes: seq<Node>, self: Key, spoke: Key)
    requires self != spoke
    requires Target(nodes, Some(spoke)).Some? && Target(nodes, Some(spoke)).value.key != self
    ensures Target(nodes, Some(self)).Some?
    ensures Target(nodes, Some(self)) == Target(nodes, Some(spoke))
       <==> Target(nodes, Some(self)).value.key != spoke
  {
    TargetIsCandidate(nodes, Some(spoke));
    TargetIsCandidate(nodes, Some(self));
    TargetIsCandidate(nodes, None);
    var all := Target(nodes, None);
    var hub := Target(nodes, Some(spoke)).value;
    assert Candidate(hub, None);
    if all.value.key != self {
      TargetStable(nodes, self);
    }
    if all.value.key != spoke {
      TargetStable(nodes, spoke);
    }
  }
}
