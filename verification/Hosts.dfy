/**
  The managed block of a hosts file: finding an interface's marker pair and rewriting what is
  in it, without touching anything else.
 */
module Hosts {
  import opened Options
  import opened Text
  import opened HostsMarkers

  // ---- The scanner ----------------------------------------------------------------------

  /** The owner of the open pair, empty when there is none, and the owners met so far. */
  datatype Scan = Scan(open: string, seen: set<string>)

  const START: Scan := Scan("", {})

  function Step(s: Scan, m: Mark): Option<Scan> {
    match m
    case Plain => Some(s)
    case Begin(o) => if s.open != "" || o in s.seen then None else Some(Scan(o, s.seen + {o}))
    case End(o) => if s.open != o then None else Some(Scan("", s.seen))
  }

  function Run(s: Scan, lines: seq<string>): Option<Scan>
    decreases |lines|
  {
    if lines == [] then Some(s) else
    match Step(s, Classify(lines[0]))
    case None => None
    case Some(t) => Run(t, lines[1..])
  }

  predicate Accepted(s: Scan, lines: seq<string>) { Run(s, lines).Some? && Run(s, lines).value.open == "" }

  /** Ordered, non-nested marker pairs, at most one for each interface. */
  predicate WellFormed(content: string) { Accepted(START, Lines(content)) }

  /** The first line with mark m. */
  function FirstAt(lines: seq<string>, m: Mark): (k: nat)
    ensures k <= |lines| && (k < |lines| ==> Classify(lines[k]) == m)
    ensures forall j :: 0 <= j < k ==> Classify(lines[j]) != m
  {
    hide Classify;
    if lines == [] || Classify(lines[0]) == m then 0 else
    var k := FirstAt(lines[1..], m);
    assert forall j :: 1 <= j < |lines| ==> lines[j] == lines[1..][j - 1];
    k + 1
  }

  lemma {:induction false} RunConcat(s: Scan, a: seq<string>, b: seq<string>)
    ensures Run(s, a + b) == if Run(s, a).None? then None else Run(Run(s, a).value, b)
    decreases |a|
  {
    hide Classify, Step;
    if a == [] {
      assert a + b == b;
    } else {
      assert (a + b)[1..] == a[1..] + b;
      var t := Step(s, Classify(a[0]));
      if t.Some? {
        RunConcat(t.value, a[1..], b);
      }
    }
  }

  lemma RunOne(s: Scan, line: string)
    ensures Run(s, [line]) == Step(s, Classify(line))
  {
    hide Classify, Step;
    assert [line][1..] == [];
  }

  ghost predicate AllPlain(lines: seq<string>) { forall k :: 0 <= k < |lines| ==> Classify(lines[k]) == Plain }

  ghost predicate NoBegin(lines: seq<string>, i: string) {
    forall k :: 0 <= k < |lines| ==> Classify(lines[k]) != Begin(i)
  }

  ghost predicate Unmarked(lines: seq<string>, i: string) {
    forall k :: 0 <= k < |lines| ==> Classify(lines[k]) != Begin(i) && Classify(lines[k]) != End(i)
  }

  ghost predicate PairOf(p: seq<string>, i: string) {
    && |p| >= 2 && Classify(p[0]) == Begin(i) && Classify(p[|p| - 1]) == End(i)
    && AllPlain(p[1..|p| - 1])
  }

  lemma {:induction false} RunPlain(s: Scan, lines: seq<string>)
    requires AllPlain(lines)
    ensures Run(s, lines) == Some(s)
    decreases |lines|
  {
    hide Classify;
    if lines != [] {
      RunPlain(s, lines[1..]);
    }
  }

  lemma PairParts(p: seq<string>)
    requires |p| >= 2
    ensures p == [p[0]] + (p[1..|p| - 1] + [p[|p| - 1]])
  {
  }

  lemma RunPair(s: Scan, p: seq<string>, i: string)
    requires PairOf(p, i) && s.open == "" && i !in s.seen
    ensures Run(s, p) == Some(Scan("", s.seen + {i}))
  {
    hide Classify, Run, AllPlain;
    PairParts(p);
    var m, y := p[1..|p| - 1], p[|p| - 1];
    RunConcat(s, [p[0]], m + [y]);
    RunOne(s, p[0]);
    var inside := Scan(i, s.seen + {i});
    RunConcat(inside, m, [y]);
    RunPlain(inside, m);
    RunOne(inside, y);
  }

  /** A file that is accepted stays accepted when fewer owners were met before it. */
  lemma {:induction false} FewerSeen(open: string, fewer: set<string>, seen: set<string>, lines: seq<string>)
    requires fewer <= seen && Accepted(Scan(open, seen), lines)
    ensures Accepted(Scan(open, fewer), lines)
    decreases |lines|
  {
    hide Classify;
    if lines != [] {
      var t, t' := Step(Scan(open, seen), Classify(lines[0])).value, Step(Scan(open, fewer), Classify(lines[0])).value;
      assert t'.open == t.open && t'.seen <= t.seen;
      FewerSeen(t.open, t'.seen, t.seen, lines[1..]);
    }
  }

  /** Nothing of i: i is neither opened nor met. */
  lemma {:induction false} RunUnmarked(s: Scan, lines: seq<string>, i: string)
    requires Unmarked(lines, i) && Run(s, lines).Some? && s.open != i && i != ""
    ensures Run(s, lines).value.open != i && (i in Run(s, lines).value.seen <==> i in s.seen)
    decreases |lines|
  {
    hide Classify;
    if lines != [] {
      RunUnmarked(Step(s, Classify(lines[0])).value, lines[1..], i);
    }
  }

  /** Before its begin marker, and after its pair, an interface has no marker at all. */
  lemma {:induction false} NoStray(s: Scan, lines: seq<string>, i: string)
    requires Run(s, lines).Some? && s.open != i && i != ""
    requires i in s.seen || NoBegin(lines, i)
    ensures Unmarked(lines, i)
    decreases |lines|
  {
    hide Classify;
    if lines != [] {
      NoStray(Step(s, Classify(lines[0])).value, lines[1..], i);
    }
  }

  /** An open pair of an accepted file is closed by the first marker that follows. */
  lemma {:induction false} ClosedBy(i: string, seen: set<string>, d: seq<string>)
    requires Accepted(Scan(i, seen), d) && i != ""
    ensures FirstAt(d, End(i)) < |d| && AllPlain(d[..FirstAt(d, End(i))])
    ensures Accepted(Scan("", seen), d[FirstAt(d, End(i)) + 1..])
    decreases |d|
  {
    hide Classify;
    if Classify(d[0]) == Plain {
      ClosedBy(i, seen, d[1..]);
      var e := FirstAt(d[1..], End(i));
      assert d[1..][e + 1..] == d[e + 2..];
      assert forall k :: 1 <= k < e + 1 ==> d[k] == d[1..][..e][k - 1];
    } else {
      assert d[0 + 1..] == d[1..];
    }
  }

  /** Where an interface's pair is in an accepted file, and what is around it. */
  lemma FindPair(lines: seq<string>, i: string)
    requires Accepted(START, lines) && i != "" && FirstAt(lines, Begin(i)) < |lines|
    ensures FirstAt(lines, Begin(i)) < FirstAt(lines, End(i)) < |lines|
    ensures PairOf(lines[FirstAt(lines, Begin(i))..FirstAt(lines, End(i)) + 1], i)
    ensures Around(lines[..FirstAt(lines, Begin(i))], lines[FirstAt(lines, End(i)) + 1..], i)
  {
    hide Classify, Run, FirstAt, AllPlain, Accepted, Unmarked, PairOf;
    var b := FirstAt(lines, Begin(i));
    var a, d := lines[..b], lines[b + 1..];
    var seen := OpensAt(lines, b, i);
    ClosedBy(i, seen + {i}, d);
    var e := FirstAt(d, End(i));
    NoStrayAfter(seen + {i}, d[e + 1..], i);
    FirstShift(lines, b, i);
    EndsPair(lines, b, e, i);
  }

  lemma NoStrayAfter(seen: set<string>, c: seq<string>, i: string)
    requires Accepted(Scan("", seen), c) && i in seen && i != ""
    ensures Unmarked(c, i)
  {
    hide Classify, Run;
    NoStray(Scan("", seen), c, i);
  }

  lemma OpensAt(lines: seq<string>, b: nat, i: string) returns (seen: set<string>)
    requires Accepted(START, lines) && i != "" && b == FirstAt(lines, Begin(i)) < |lines|
    ensures Run(START, lines[..b]) == Some(Scan("", seen)) && i !in seen && Unmarked(lines[..b], i)
    ensures Accepted(Scan(i, seen + {i}), lines[b + 1..])
  {
    var a, d := lines[..b], lines[b + 1..];
    BeforeFirst(lines, i);
    hide Classify, Run, FirstAt, Accepted, NoBegin, Unmarked;
    AroundLine(lines, b);
    seen := OpensWith(a, lines[b], d, i);
    NoStray(START, a, i);
  }

  lemma AroundLine(lines: seq<string>, b: nat)
    requires b < |lines|
    ensures lines == lines[..b] + ([lines[b]] + lines[b + 1..])
  {
  }

  lemma BeforeFirst(lines: seq<string>, i: string)
    ensures NoBegin(lines[..FirstAt(lines, Begin(i))], i)
  {
    hide Classify;
  }

  lemma OpensWith(a: seq<string>, x: string, d: seq<string>, i: string) returns (seen: set<string>)
    requires Accepted(START, a + ([x] + d)) && i != "" && Classify(x) == Begin(i)
    ensures Run(START, a) == Some(Scan("", seen)) && i !in seen && Accepted(Scan(i, seen + {i}), d)
  {
    hide Classify, Run;
    RunConcat(START, a, [x] + d);
    var s := Run(START, a).value;
    RunConcat(s, [x], d);
    RunOne(s, x);
    seen := s.seen;
  }

  lemma FirstShift(lines: seq<string>, b: nat, i: string)
    requires b < |lines| && Unmarked(lines[..b], i) && Classify(lines[b]) == Begin(i)
    requires FirstAt(lines[b + 1..], End(i)) < |lines[b + 1..]|
    ensures FirstAt(lines, End(i)) == b + 1 + FirstAt(lines[b + 1..], End(i))
  {
    hide Classify;
    var e := FirstAt(lines[b + 1..], End(i));
    assert forall k :: 0 <= k < b ==> lines[k] == lines[..b][k];
    assert forall k :: b < k <= b + 1 + e ==> lines[k] == lines[b + 1..][k - b - 1];
  }

  lemma EndsPair(lines: seq<string>, b: nat, e: nat, i: string)
    requires b + 1 + e < |lines| && Classify(lines[b]) == Begin(i) && Classify(lines[b + 1 + e]) == End(i)
    requires AllPlain(lines[b + 1..][..e])
    ensures PairOf(lines[b..b + 2 + e], i)
    ensures lines[b + 1..][e + 1..] == lines[b + 2 + e..]
  {
    hide Classify;
    var p := lines[b..b + 2 + e];
    var inner, rest := p[1..|p| - 1], lines[b + 1..];
    assert |inner| == e && forall k :: 0 <= k < e ==> inner[k] == lines[b + 1 + k] == rest[k];
    assert inner == rest[..e];
  }

  /** What may stand before and after a pair of i. */
  ghost predicate Around(a: seq<string>, c: seq<string>, i: string) {
    && Unmarked(a, i) && Unmarked(c, i)
    && Run(START, a).Some? && Run(START, a).value.open == "" && i !in Run(START, a).value.seen
    && Accepted(Scan("", Run(START, a).value.seen + {i}), c)
  }

  lemma AroundPair(a: seq<string>, p: seq<string>, c: seq<string>, i: string)
    requires Around(a, c, i) && PairOf(p, i)
    ensures Accepted(START, a + p + c)
    ensures FirstAt(a + p + c, Begin(i)) == |a| && FirstAt(a + p + c, End(i)) == |a| + |p| - 1
  {
    PairPlace(a, p, c, i);
    hide Classify, Run, FirstAt, Unmarked, PairOf;
    RunConcat(START, a + p, c);
    RunConcat(START, a, p);
    RunPair(Run(START, a).value, p, i);
  }

  lemma PairPlace(a: seq<string>, p: seq<string>, c: seq<string>, i: string)
    requires Unmarked(a, i) && PairOf(p, i)
    ensures FirstAt(a + p + c, Begin(i)) == |a| && FirstAt(a + p + c, End(i)) == |a| + |p| - 1
  {
    hide Classify;
    var lines := a + p + c;
    assert forall k :: 0 <= k < |a| ==> lines[k] == a[k];
    assert forall k :: 0 <= k < |p| ==> lines[|a| + k] == p[k];
    assert forall k :: 0 < k < |p| - 1 ==> p[k] == p[1..|p| - 1][k - 1];
    assert forall k :: |a| < k < |a| + |p| - 1 ==> Classify(lines[k]) == Plain by {
      forall k | |a| < k < |a| + |p| - 1
        ensures Classify(lines[k]) == Plain
      {
        assert lines[|a| + (k - |a|)] == p[k - |a|];
      }
    }
  }

  lemma AroundNothing(a: seq<string>, c: seq<string>, i: string)
    requires Around(a, c, i)
    ensures Accepted(START, a + c) && Unmarked(a + c, i)
  {
    hide Classify, Run;
    RunConcat(START, a, c);
    var seen := Run(START, a).value.seen;
    FewerSeen("", seen, seen + {i}, c);
  }

  // ---- What belongs to another interface ------------------------------------------------

  function OpenAfter(open: string, m: Mark): string {
    match m
    case Plain => open
    case Begin(o) => o
    case End(_) => ""
  }

  /** The lines strictly between j's markers. */
  function Inside(open: string, lines: seq<string>, j: string): seq<string>
    decreases |lines|
  {
    if lines == [] then [] else
    (if Classify(lines[0]) == Plain && open == j then [lines[0]] else [])
      + Inside(OpenAfter(open, Classify(lines[0])), lines[1..], j)
  }

  lemma {:induction false} InsideConcat(s: Scan, a: seq<string>, b: seq<string>, j: string)
    requires Run(s, a).Some?
    ensures Inside(s.open, a + b, j) == Inside(s.open, a, j) + Inside(Run(s, a).value.open, b, j)
    decreases |a|
  {
    hide Classify;
    if a == [] {
      assert a + b == b;
      assert [] + Inside(s.open, b, j) == Inside(s.open, b, j);
    } else {
      assert (a + b)[1..] == a[1..] + b;
      InsideConcat(Step(s, Classify(a[0])).value, a[1..], b, j);
    }
  }

  /** Plain lines are inside exactly when j's pair is open. */
  lemma {:induction false} InsidePlain(open: string, m: seq<string>, j: string)
    requires AllPlain(m)
    ensures Inside(open, m, j) == if open == j then m else []
    decreases |m|
  {
    hide Classify;
    if m != [] {
      InsidePlain(open, m[1..], j);
      assert m == [m[0]] + m[1..];
    }
  }

  lemma InsideOne(open: string, x: string, j: string)
    ensures Inside(open, [x], j) == if Classify(x) == Plain && open == j then [x] else []
  {
    hide Classify;
    assert [x][1..] == [];
  }

  lemma InsidePair(seen: set<string>, p: seq<string>, i: string, j: string)
    requires PairOf(p, i) && i !in seen && j != ""
    ensures Inside("", p, j) == if i == j then p[1..|p| - 1] else []
  {
    hide Classify, Run, AllPlain, Inside;
    PairParts(p);
    var m, y := p[1..|p| - 1], p[|p| - 1];
    RunOne(Scan("", seen), p[0]);
    InsideConcat(Scan("", seen), [p[0]], m + [y], j);
    var inside := Scan(i, seen + {i});
    RunPlain(inside, m);
    InsideConcat(inside, m, [y], j);
    InsidePlain(i, m, j);
    InsideOne("", p[0], j);
    InsideOne(i, y, j);
  }

  /** A file's lines inside j's pair are those around i's pair, if i is another interface. */
  lemma InsideAround(a: seq<string>, p: seq<string>, c: seq<string>, i: string, j: string)
    requires Around(a, c, i) && PairOf(p, i) && i != j && j != ""
    ensures Inside("", a + p + c, j) == Inside("", a, j) + Inside("", c, j)
    ensures Inside("", a + c, j) == Inside("", a, j) + Inside("", c, j)
  {
    hide Classify, Run, PairOf, Unmarked, Inside, Accepted;
    var s := Run(START, a).value;
    RunConcat(START, a, p);
    RunPair(s, p, i);
    InsideConcat(START, a + p, c, j);
    InsideConcat(START, a, p, j);
    InsidePair(s.seen, p, i, j);
    InsideConcat(START, a, c, j);
    assert Inside("", a, j) + [] == Inside("", a, j);
  }

  lemma {:induction false} InsideUnmarked(open: string, lines: seq<string>, j: string)
    requires Unmarked(lines, j) && open != j && j != ""
    ensures Inside(open, lines, j) == []
    decreases |lines|
  {
    hide Classify;
    if lines != [] {
      InsideUnmarked(OpenAfter(open, Classify(lines[0])), lines[1..], j);
    }
  }

  // ---- splitAtMarkers -------------------------------------------------------------------

  datatype Split = Malformed | Absent | Found(before: string, after: string)

  /** The text outside the interface's marker pair. */
  function SplitAt(content: string, iface: string): Split {
    var lines := Lines(content);
    if !WellFormed(content) then Malformed
    else if FirstAt(lines, Begin(iface)) == |lines| || FirstAt(lines, End(iface)) == |lines| then Absent
    else Found(Flatten(lines[..FirstAt(lines, Begin(iface))]), Flatten(lines[FirstAt(lines, End(iface)) + 1..]))
  }

  /** The offsets the scanner has recorded after some lines; -1 while there is nothing to record. */
  ghost predicate Recorded(lines: seq<string>, n: nat, i: string, beginAt: int, endAt: int, s: Scan) {
    && n <= |lines|
    && Run(START, lines[..n]) == Some(s)
    && (s.open == "" || s.open in s.seen)
    && (i in s.seen <==> FirstAt(lines, Begin(i)) < n)
    && (FirstAt(lines, End(i)) < n ==> i in s.seen && s.open != i)
    && beginAt == (if FirstAt(lines, Begin(i)) < n then |Flatten(lines[..FirstAt(lines, Begin(i))])| else -1)
    && endAt == (if FirstAt(lines, End(i)) < n then |Flatten(lines[..FirstAt(lines, End(i)) + 1])| else -1)
  }

  lemma RunNext(s: Scan, lines: seq<string>, n: nat)
    requires n < |lines| && Run(s, lines[..n]).Some?
    ensures Run(s, lines[..n + 1]) == Step(Run(s, lines[..n]).value, Classify(lines[n]))
  {
    hide Classify, Run;
    assert lines[..n + 1] == lines[..n] + [lines[n]];
    RunConcat(s, lines[..n], [lines[n]]);
    RunOne(Run(s, lines[..n]).value, lines[n]);
  }

  lemma RejectedStays(s: Scan, lines: seq<string>, n: nat)
    requires n <= |lines| && Run(s, lines[..n]).None?
    ensures Run(s, lines).None?
  {
    hide Classify, Run;
    assert lines == lines[..n] + lines[n..];
    RunConcat(s, lines[..n], lines[n..]);
  }

  lemma FlattenNext(lines: seq<string>, n: nat)
    requires n < |lines|
    ensures Flatten(lines[..n + 1]) == Flatten(lines[..n]) + lines[n]
  {
    assert lines[..n + 1] == lines[..n] + [lines[n]];
    FlattenConcat(lines[..n], [lines[n]]);
    assert [lines[n]][1..] == [];
    assert Flatten([lines[n]]) == lines[n] + "";
  }

  /** The scanning loop: one line at a time, with the offset of the line. */
  method SplitAtMarkers(content: string, iface: string) returns (r: Split)
    ensures r == SplitAt(content, iface)
  {
    ghost var lines := Lines(content);
    hide Lines, Flatten, Classify, Run, FirstAt;
    var beginAt, endAt := -1, -1;
    var scan := START;
    var offset := 0;
    var rest := content;
    ghost var n := 0;
    ScanStarts(lines, iface);
    while |rest| > 0
      invariant 0 <= offset <= |content| && rest == content[offset..]
      invariant n <= |lines| && Lines(rest) == lines[n..] && |Flatten(lines[..n])| == offset
      invariant Recorded(lines, n, iface, beginAt, endAt, scan)
      decreases |rest|
    {
      var lineLen := LineLength(rest);
      var line := rest[..lineLen];
      LinesUnfold(rest);
      assert lines[n] == line && lines[n + 1..] == Lines(rest)[1..];
      FlattenNext(lines, n);
      var m := Classify(line);
      var next := Step(scan, m);
      RunNext(START, lines, n);
      if next.None? {
        RejectedStays(START, lines, n + 1);
        return Malformed;
      }
      RecordNext(lines, n, iface, beginAt, endAt, scan);
      if m == Begin(iface) {
        beginAt := offset;
      } else if m == End(iface) {
        endAt := offset + lineLen;
      }
      scan := next.value;
      offset := offset + lineLen;
      rest := rest[lineLen..];
      n := n + 1;
    }
    r := Conclude(content, iface, beginAt, endAt, scan);
  }

  lemma ScanStarts(lines: seq<string>, i: string)
    ensures Recorded(lines, 0, i, -1, -1, START) && Flatten(lines[..0]) == "" && lines[0..] == lines
  {
    hide Classify;
  }

  lemma RecordNext(lines: seq<string>, n: nat, i: string, beginAt: int, endAt: int, s: Scan)
    requires n < |lines| && Recorded(lines, n, i, beginAt, endAt, s)
    requires Step(s, Classify(lines[n])).Some?
    ensures Recorded(lines, n + 1, i,
      if Classify(lines[n]) == Begin(i) then |Flatten(lines[..n])| else beginAt,
      if Classify(lines[n]) == End(i) then |Flatten(lines[..n + 1])| else endAt,
      Step(s, Classify(lines[n])).value)
  {
    hide Classify, Run, Flatten;
    RunNext(START, lines, n);
    FirstReached(lines, n, Begin(i));
    FirstReached(lines, n, End(i));
    hide FirstAt;
  }

  lemma FirstReached(lines: seq<string>, n: nat, m: Mark)
    requires n < |lines|
    ensures FirstAt(lines, m) < n + 1 <==> FirstAt(lines, m) < n || Classify(lines[n]) == m
    ensures FirstAt(lines, m) == n ==> Classify(lines[n]) == m
  {
    hide Classify;
  }

  method Conclude(content: string, iface: string, beginAt: int, endAt: int, scan: Scan) returns (r: Split)
    requires Recorded(Lines(content), |Lines(content)|, iface, beginAt, endAt, scan)
    ensures r == SplitAt(content, iface)
  {
    ghost var lines := Lines(content);
    hide Lines, Flatten, Classify, Run, FirstAt;
    assert lines[..|lines|] == lines;
    if scan.open != "" {
      return Malformed;
    }
    if beginAt < 0 {
      return Absent;
    }
    assert Classify(lines[FirstAt(lines, Begin(iface))]).owner != "";
    FindPair(lines, iface);
    ghost var b, e := FirstAt(lines, Begin(iface)), FirstAt(lines, End(iface));
    CutLines(content, b);
    CutLines(content, e + 1);
    assert content[..beginAt] == Flatten(lines[..b]);
    assert content[endAt..] == Flatten(lines[e + 1..]);
    return Found(content[..beginAt], content[endAt..]);
  }

  // ---- Rewrite --------------------------------------------------------------------------

  function Pair(iface: string, block: string): string {
    (BeginMarker(iface) + "\n") + (block + (EndMarker(iface) + "\n"))
  }

  /** What Rewrite puts between existing text and a new block. */
  function Gap(content: string): string {
    if content == "" then "" else if Complete(content) then "\n" else "\n" + "\n"
  }

  function Rewritten(content: string, iface: string, block: string): Option<string> {
    match SplitAt(content, iface)
    case Malformed => None
    case Found(before, after) => Some(if block == "" then before + after else before + Pair(iface, block) + after)
    case Absent => Some(if block == "" then content else content + Gap(content) + Pair(iface, block))
  }

  method Rewrite(content: string, iface: string, block: string) returns (result: Option<string>, changed: bool)
    ensures result == Rewritten(content, iface, block)
    ensures changed <==> result.Some? && result.value != content
  {
    hide SplitAt, BeginMarker, EndMarker;
    var split := SplitAtMarkers(content, iface);
    if split.Malformed? {
      return None, false;
    }
    if block == "" && split.Absent? {
      return Some(content), false;
    }
    var out: string;
    if block == "" {
      out := split.before + split.after;
    } else if split.Found? {
      out := WriteMarkedBlock(split.before, iface, block);
      out := out + split.after;
    } else {
      out := content;
      if |content| > 0 && content[|content| - 1] != '\n' {
        out := out + "\n";
      }
      if |content| > 0 {
        out := out + "\n";
      }
      assert out == content + Gap(content);
      out := WriteMarkedBlock(out, iface, block);
    }
    return Some(out), out != content;
  }

  method WriteMarkedBlock(out: string, iface: string, block: string) returns (r: string)
    ensures r == out + Pair(iface, block)
  {
    hide BeginMarker, EndMarker;
    r := out + BeginMarker(iface);
    r := r + "\n";
    r := r + block;
    r := r + EndMarker(iface);
    r := r + "\n";
  }
}
