/** The entry lines of a directory: one "<tunnel-ip>\t<name>.<domain>" line for each node, by name. */
module HostsBlock {
  import opened Text
  import opened Permutations
  import opened DnsNames
  import opened Directory
  import opened IpAlloc
  import opened HostsMarkers
  import opened Hosts
  import opened HostsRewrite

  /** What a line says: the lower-cased name and the address as text. */
  datatype HostNode = HostNode(name: string, tunnelIp: string)

  /** The text of an IPv4 address. */
  function Dotted(a: Addr): string {
    Digits(a.b0 as nat) + "." + Digits(a.b1 as nat) + "." + Digits(a.b2 as nat) + "." + Digits(a.b3 as nat)
  }

  function HostOf(lower: string -> string, node: Node): HostNode {
    HostNode(lower(node.name), Dotted(Uint32ToAddr(node.ip % LIMIT)))
  }

  function HostsOf(nodes: seq<Node>, lower: string -> string): (hosts: seq<HostNode>)
    ensures |hosts| == |nodes| && forall k :: 0 <= k < |nodes| ==> hosts[k] == HostOf(lower, nodes[k])
  {
    seq(|nodes|, k requires 0 <= k < |nodes| => HostOf(lower, nodes[k]))
  }

  /** Names and addresses that make one entry line for each node. */
  ghost predicate ValidHosts(hosts: seq<HostNode>, domain: string) {
    && '\n' !in domain
    && (forall k :: 0 <= k < |hosts| ==>
      && '\n' !in hosts[k].name && '\n' !in hosts[k].tunnelIp
      && hosts[k].tunnelIp != "" && Digit(hosts[k].tunnelIp[0]))
    && forall i, j :: 0 <= i < j < |hosts| ==> hosts[i].name != hosts[j].name
  }

  // ---- A valid directory has valid entries ----------------------------------------------

  function LowerChar(c: char): char { if 'A' <= c <= 'Z' then c - 'A' + 'a' else c }

  /** All that is assumed of the library: on labels, which are ASCII, it lowers letter by letter. */
  ghost predicate LowersLabels(lower: string -> string) {
    forall s :: Label(s) ==> lower(s) == Map(LowerChar, s)
  }

  lemma DottedIsText(a: Addr)
    ensures Dotted(a) != "" && Digit(Dotted(a)[0]) && '\n' !in Dotted(a)
  {
    hide Digits;
    var d := Digits(a.b0 as nat);
    assert Digit(d[0]) && Dotted(a)[0] == d[0];
  }

  lemma LoweredLabel(lower: string -> string, name: string)
    requires LowersLabels(lower) && Label(name)
    ensures '\n' !in lower(name)
  {
    var low := lower(name);
    forall i | 0 <= i < |low|
      ensures low[i] != '\n'
    {
      assert low[i] == LowerChar(name[i]) && LabelChar(name[i]);
    }
  }

  lemma DirectoryHosts(schema: int, content: Content, c: Checks)
    requires Valid(schema, content, c) && content.domain != "" && LowersLabels(c.names.lower)
    ensures ValidHosts(HostsOf(content.nodes, c.names.lower), content.domain)
  {
    hide Label, Domain, LowersLabels, Dotted, Uint32ToAddr;
    if '\n' in content.domain {
      DomainCharacters(content.domain, c.names, '\n');
    }
    forall k | 0 <= k < |content.nodes|
      ensures '\n' !in c.names.lower(content.nodes[k].name)
    {
      assert ValidNode(content, c, content.nodes[k]);
      LoweredLabel(c.names.lower, content.nodes[k].name);
    }
    forall k | 0 <= k < |content.nodes|
      ensures var t := HostsOf(content.nodes, c.names.lower)[k].tunnelIp; t != "" && Digit(t[0]) && '\n' !in t
    {
      DottedIsText(Uint32ToAddr(content.nodes[k].ip % LIMIT));
    }
  }

  // ---- Block ----------------------------------------------------------------------------

  function Names(nodes: seq<HostNode>): (names: seq<string>)
    ensures |names| == |nodes|
  {
    seq(|nodes|, k requires 0 <= k < |nodes| => nodes[k].name)
  }

  /** The map the loop fills: a later node of the same name replaces an earlier one. */
  function IpByName(nodes: seq<HostNode>): (ips: map<string, string>)
    ensures forall k :: 0 <= k < |nodes| ==> nodes[k].name in ips
  {
    if nodes == [] then map[] else
    var n := |nodes| - 1;
    IpByName(nodes[..n])[nodes[n].name := nodes[n].tunnelIp]
  }

  function Entry(tunnelIp: string, name: string, domain: string): string {
    tunnelIp + "\t" + name + "." + domain + "\n"
  }

  function Address(ips: map<string, string>, name: string): string { if name in ips then ips[name] else "" }

  function Render(ips: map<string, string>, names: seq<string>, domain: string): string {
    if names == [] then "" else
    var n := |names| - 1;
    Render(ips, names[..n], domain) + Entry(Address(ips, names[n]), names[n], domain)
  }

  function BlockText(nodes: seq<HostNode>, domain: string): string {
    if domain == "" || nodes == [] then "" else Render(IpByName(nodes), Sort(Names(nodes), Before), domain)
  }

  method Block(nodes: seq<Node>, domain: string, lower: string -> string) returns (b: string)
    ensures b == BlockText(HostsOf(nodes, lower), domain)
  {
    if domain == "" || |nodes| == 0 {
      return "";
    }
    ghost var hosts := HostsOf(nodes, lower);
    var names: seq<string>, ipByName: map<string, string> := [], map[];
    hide Entry, Dotted, Uint32ToAddr, Sort, Render, HostsOf;
    for k := 0 to |nodes|
      invariant names == Names(hosts)[..k] && ipByName == IpByName(hosts[..k])
    {
      assert hosts[..k + 1][..k] == hosts[..k];
      var host := HostOf(lower, nodes[k]);
      names := names + [host.name];
      ipByName := ipByName[host.name := host.tunnelIp];
    }
    assert names == Names(hosts) && hosts[..|nodes|] == hosts;
    names := Sort(names, Before);
    b := Rendered(ipByName, names, domain);
  }

  /** The second loop. */
  method Rendered(ips: map<string, string>, names: seq<string>, domain: string) returns (b: string)
    ensures b == Render(ips, names, domain)
  {
    b := "";
    hide Entry;
    for k := 0 to |names|
      invariant b == Render(ips, names[..k], domain)
    {
      assert names[..k + 1][..k] == names[..k];
      b := b + Entry(Address(ips, names[k]), names[k], domain);
    }
    assert names[..|names|] == names;
  }

  // ---- What the block says --------------------------------------------------------------

  function EntryFor(ips: map<string, string>, domain: string): string -> string {
    name => Entry(Address(ips, name), name, domain)
  }

  function EntryLines(ips: map<string, string>, names: seq<string>, domain: string): (lines: seq<string>)
    ensures |lines| == |names|
    ensures forall k :: 0 <= k < |names| ==> lines[k] == Entry(Address(ips, names[k]), names[k], domain)
  {
    Map(EntryFor(ips, domain), names)
  }

  function NodeLines(nodes: seq<HostNode>, domain: string): (lines: seq<string>)
    ensures |lines| == |nodes|
  {
    seq(|nodes|, k requires 0 <= k < |nodes| => Entry(nodes[k].tunnelIp, nodes[k].name, domain))
  }

  lemma EntryIsLine(tunnelIp: string, name: string, domain: string)
    requires '\n' !in domain && '\n' !in name && '\n' !in tunnelIp && tunnelIp != "" && Digit(tunnelIp[0])
    ensures Lines(Entry(tunnelIp, name, domain)) == [Entry(tunnelIp, name, domain)]
    ensures Complete(Entry(tunnelIp, name, domain)) && Classify(Entry(tunnelIp, name, domain)) == Plain
  {
    hide Classify;
    var line := tunnelIp + "\t" + name + "." + domain;
    SingleLine(line);
    assert line[0] == tunnelIp[0] && (line + "\n")[0] == line[0];
    hide Lines, Complete;
    AddressIsPlain(line + "\n");
  }

  lemma {:induction false} AddressOf(nodes: seq<HostNode>, k: nat)
    requires k < |nodes| && forall i, j :: 0 <= i < j < |nodes| ==> nodes[i].name != nodes[j].name
    ensures Address(IpByName(nodes), nodes[k].name) == nodes[k].tunnelIp
    decreases |nodes|
  {
    var n := |nodes| - 1;
    if k < n {
      AddressOf(nodes[..n], k);
      assert nodes[k].name != nodes[n].name;
    }
  }

  ghost predicate GoodEntry(ips: map<string, string>, name: string, domain: string) {
    var e := Entry(Address(ips, name), name, domain);
    Lines(e) == [e] && Complete(e) && Classify(e) == Plain
  }

  lemma {:induction false} RenderedLines(ips: map<string, string>, names: seq<string>, domain: string)
    requires forall k :: 0 <= k < |names| ==> GoodEntry(ips, names[k], domain)
    ensures Lines(Render(ips, names, domain)) == EntryLines(ips, names, domain) && Complete(Render(ips, names, domain))
    decreases |names|
  {
    hide Entry, Address, Classify, Lines;
    if names != [] {
      var n := |names| - 1;
      RenderedLines(ips, names[..n], domain);
      assert GoodEntry(ips, names[n], domain);
      LinesConcat(Render(ips, names[..n], domain), Entry(Address(ips, names[n]), names[n], domain));
      assert EntryLines(ips, names, domain)
          == EntryLines(ips, names[..n], domain) + [Entry(Address(ips, names[n]), names[n], domain)];
    }
  }

  lemma NodesAreEntries(nodes: seq<HostNode>, domain: string)
    requires ValidHosts(nodes, domain)
    ensures EntryLines(IpByName(nodes), Names(nodes), domain) == NodeLines(nodes, domain)
    ensures forall k :: 0 <= k < |nodes| ==> GoodEntry(IpByName(nodes), nodes[k].name, domain)
  {
    hide Entry, IpByName, Address, Classify, Lines, Complete;
    forall k | 0 <= k < |nodes|
      ensures Address(IpByName(nodes), nodes[k].name) == nodes[k].tunnelIp
      ensures GoodEntry(IpByName(nodes), nodes[k].name, domain)
    {
      AddressOf(nodes, k);
      EntryIsLine(nodes[k].tunnelIp, nodes[k].name, domain);
    }
  }

  lemma BeforeIsOrder()
    ensures StrictOrder(Before)
  {
    hide Before;
    forall x
      ensures !Before(x, x)
    {
      BeforeIrreflexive(x);
    }
    forall x, y, z | Before(x, y) && Before(y, z)
      ensures Before(x, z)
    {
      BeforeTransitive(x, y, z);
    }
  }

  lemma HostLines(nodes: seq<HostNode>, domain: string)
    requires ValidHosts(nodes, domain) && domain != ""
    ensures Entries(BlockText(nodes, domain))
    ensures multiset(Lines(BlockText(nodes, domain))) == multiset(NodeLines(nodes, domain))
    ensures Lines(BlockText(nodes, domain)) == EntryLines(IpByName(nodes), Sort(Names(nodes), Before), domain)
  {
    hide Entry, IpByName, Address, Classify, Complete, Render, EntryLines, NodeLines, EntryFor;
    hide ValidHosts, Before, Sort;
    var names, ips := Sort(Names(nodes), Before), IpByName(nodes);
    NodesAreEntries(nodes, domain);
    forall k | 0 <= k < |names|
      ensures GoodEntry(ips, names[k], domain)
    {
      assert names[k] in multiset(names);
      assert names[k] in multiset(Names(nodes));
      var j :| 0 <= j < |nodes| && Names(nodes)[j] == names[k];
    }
    BlockIs(nodes, domain);
    RenderedLines(ips, names, domain);
    EntriesPermute(ips, names, Names(nodes), domain);
    hide Lines, GoodEntry;
    PlainEntries(ips, names, domain);
  }

  lemma EntriesPermute(ips: map<string, string>, a: seq<string>, b: seq<string>, domain: string)
    requires multiset(a) == multiset(b)
    ensures multiset(EntryLines(ips, a, domain)) == multiset(EntryLines(ips, b, domain))
  {
    hide Map, EntryFor;
    MapPermutes(EntryFor(ips, domain), a, b);
  }

  /**
    For every valid directory with a domain, the block holds one line for each node and nothing
    else, in the order of the lower-cased names, and none of its lines is a marker: just what
    Rewrite expects.
   */
  lemma BlockLists(schema: int, content: Content, c: Checks)
    requires Valid(schema, content, c) && content.domain != "" && LowersLabels(c.names.lower)
    ensures var hosts := HostsOf(content.nodes, c.names.lower);
      var block := BlockText(hosts, content.domain);
      var names := Sort(Names(hosts), Before);
      && Entries(block) && multiset(Lines(block)) == multiset(NodeLines(hosts, content.domain))
      && InOrder(names, Before) && Lines(block) == EntryLines(IpByName(hosts), names, content.domain)
  {
    hide Valid, LowersLabels, HostsOf, BlockText, Before, Names, NodeLines, IpByName, EntryLines, ValidHosts, Entries;
    hide Lines, Sort, StrictOrder, InOrder;
    DirectoryHosts(schema, content, c);
    HostLines(HostsOf(content.nodes, c.names.lower), content.domain);
    BeforeIsOrder();
    SortInOrder(Names(HostsOf(content.nodes, c.names.lower)), Before);
  }

  lemma BlockIs(nodes: seq<HostNode>, domain: string)
    requires domain != ""
    ensures BlockText(nodes, domain) == Render(IpByName(nodes), Sort(Names(nodes), Before), domain)
  {
    if nodes == [] {
      assert Names(nodes) == [];
    }
  }

  lemma PlainEntries(ips: map<string, string>, names: seq<string>, domain: string)
    requires forall k :: 0 <= k < |names| ==> GoodEntry(ips, names[k], domain)
    ensures AllPlain(EntryLines(ips, names, domain))
  {
    hide Entry, Address, Classify, Lines, Complete;
    forall k | 0 <= k < |names|
      ensures Classify(EntryLines(ips, names, domain)[k]) == Plain
    {
      assert GoodEntry(ips, names[k], domain);
    }
  }

  /** The line of each node: its address, a tab, its lower-cased name, a dot and the domain. */
  lemma LineOfNode(schema: int, content: Content, c: Checks, k: nat)
    requires Valid(schema, content, c) && content.domain != "" && LowersLabels(c.names.lower) && k < |content.nodes|
    ensures var n := content.nodes[k];
      Dotted(Uint32ToAddr(n.ip % LIMIT)) + "\t" + c.names.lower(n.name) + "." + content.domain + "\n"
        in Lines(BlockText(HostsOf(content.nodes, c.names.lower), content.domain))
  {
    var hosts := HostsOf(content.nodes, c.names.lower);
    var lines, own := Lines(BlockText(hosts, content.domain)), NodeLines(hosts, content.domain);
    assert own[k] == Entry(hosts[k].tunnelIp, hosts[k].name, content.domain);
    BlockLists(schema, content, c);
    hide Valid, LowersLabels, BlockText, NodeLines, Lines, HostsOf, Dotted, Uint32ToAddr;
    assert own[k] in multiset(own);
    assert own[k] in multiset(lines);
  }

  lemma DottedSample()
    ensures Dotted(Addr(10, 42, 0, 7)) == "10.42.0.7"
  {
    assert Digits(1) == "1" && Digits(4) == "4" && Digits(0) == "0" && Digits(7) == "7";
    assert Digits(10) == "10" && Digits(42) == "42";
    hide Digits;
  }
}
