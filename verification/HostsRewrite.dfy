/** What rewriting one interface's block keeps. */
module HostsRewrite {
  import opened Options
  import opened Text
  import opened HostsMarkers
  import opened Hosts

  /** The name of an interface fits on one line. */
  predicate OneLine(iface: string) { iface != "" && '\n' !in iface }

  /** Entry lines: complete, and none of them a marker. */
  ghost predicate Entries(block: string) { Complete(block) && AllPlain(Lines(block)) }

  // ---- The lines that are written -------------------------------------------------------

  lemma SingleLine(s: string)
    requires '\n' !in s
    ensures Lines(s + "\n") == [s + "\n"] && Complete(s + "\n")
  {
    var line := s + "\n";
    assert line[|s|] == '\n' && forall k :: 0 <= k < |s| ==> line[k] == s[k];
    assert IndexOf(line, '\n') == |s|;
    assert line[..|line|] == line && line[|line|..] == "";
  }

  lemma MarkersAreLines(iface: string)
    requires OneLine(iface)
    ensures Lines(BeginMarker(iface) + "\n") == [BeginMarker(iface) + "\n"] && Complete(BeginMarker(iface) + "\n")
    ensures Lines(EndMarker(iface) + "\n") == [EndMarker(iface) + "\n"] && Complete(EndMarker(iface) + "\n")
  {
    assert '\n' !in EndSuffix();
    hide BeginPrefix, BeginSuffix, EndPrefix, EndSuffix, Lines, Complete;
    assert '\n' !in BeginMarker(iface) && '\n' !in EndMarker(iface);
    SingleLine(BeginMarker(iface));
    SingleLine(EndMarker(iface));
  }

  function PairLines(iface: string, block: string): seq<string> {
    [BeginMarker(iface) + "\n"] + (Lines(block) + [EndMarker(iface) + "\n"])
  }

  lemma PairIsPair(iface: string, block: string)
    requires OneLine(iface) && Entries(block)
    ensures Lines(Pair(iface, block)) == PairLines(iface, block) && Complete(Pair(iface, block))
    ensures var p := PairLines(iface, block); PairOf(p, iface) && p[1..|p| - 1] == Lines(block)
  {
    MarkersAreLines(iface);
    MarkersClassify(iface);
    hide BeginMarker, EndMarker, Lines, Classify, Complete, PairOf, AllPlain;
    ThreePieces(BeginMarker(iface) + "\n", block, EndMarker(iface) + "\n");
    PairOfLines(BeginMarker(iface) + "\n", Lines(block), EndMarker(iface) + "\n", iface);
  }

  lemma ThreePieces(b: string, block: string, e: string)
    requires Lines(b) == [b] && Lines(e) == [e] && Complete(b) && Complete(block) && Complete(e)
    ensures Lines(b + (block + e)) == [b] + (Lines(block) + [e]) && Complete(b + (block + e))
  {
    assert Complete(block + e) && Complete(b + (block + e));
    hide Lines, Complete;
    LinesConcat(b, block + e);
    LinesConcat(block, e);
  }

  lemma PairOfLines(b: string, m: seq<string>, e: string, iface: string)
    requires Classify(b) == Begin(iface) && Classify(e) == End(iface) && AllPlain(m)
    ensures var p := [b] + (m + [e]); PairOf(p, iface) && p[1..|p| - 1] == m
  {
    hide Classify, AllPlain;
    var p := [b] + (m + [e]);
    assert p[1..|p| - 1] == m;
  }

  // ---- Text around a pair ---------------------------------------------------------------

  /** The text that stays when the interface's block is replaced: before and after it. */
  function Base(content: string, iface: string): (string, string) {
    match SplitAt(content, iface)
    case Found(before, after) => (before, after)
    case _ => (content + Gap(content), "")
  }

  /** A pair may stand between x and y. */
  ghost predicate Fits(x: string, y: string, iface: string) {
    Complete(x) && Around(Lines(x), Lines(y), iface)
  }

  lemma FoundFits(content: string, iface: string)
    requires SplitAt(content, iface).Found?
    ensures Fits(SplitAt(content, iface).before, SplitAt(content, iface).after, iface)
  {
    hide Lines, Flatten, Classify, Run, FirstAt, Around, Complete;
    var lines := Lines(content);
    var b, e := FirstAt(lines, Begin(iface)), FirstAt(lines, End(iface));
    assert Classify(lines[b]).owner != "";
    FindPair(lines, iface);
    CutLines(content, b);
    CutLines(content, e + 1);
  }

  /** Ending a last line does not change what the file says. */
  ghost predicate SameMarks(a: seq<string>, b: seq<string>) {
    |a| == |b| && forall k :: 0 <= k < |a| ==> Classify(a[k]) == Classify(b[k])
  }

  lemma {:induction false} SameRun(s: Scan, a: seq<string>, b: seq<string>)
    requires SameMarks(a, b)
    ensures Run(s, a) == Run(s, b)
    decreases |a|
  {
    hide Classify, Step;
    if a != [] && Step(s, Classify(a[0])).Some? {
      assert forall k :: 0 <= k < |a| - 1 ==> a[1..][k] == a[k + 1] && b[1..][k] == b[k + 1];
      SameRun(Step(s, Classify(a[0])).value, a[1..], b[1..]);
    }
  }

  lemma {:induction false} SameInside(s: Scan, a: seq<string>, b: seq<string>, j: string)
    requires SameMarks(a, b) && Accepted(s, a) && j != ""
    requires forall k :: 0 <= k < |a| - 1 ==> a[k] == b[k]
    ensures Inside(s.open, a, j) == Inside(s.open, b, j)
    decreases |a|
  {
    hide Classify;
    if |a| == 1 {
      assert a == [a[0]] && b == [b[0]];
      RunOne(s, a[0]);
      InsideOne(s.open, a[0], j);
      InsideOne(s.open, b[0], j);
    } else if a != [] {
      assert forall k :: 0 <= k < |a| - 1 ==> a[1..][k] == a[k + 1] && b[1..][k] == b[k + 1];
      SameInside(Step(s, Classify(a[0])).value, a[1..], b[1..], j);
    }
  }

  lemma {:induction false} EndLastLine(s: string)
    requires !Complete(s)
    ensures SameMarks(Lines(s + "\n"), Lines(s))
    ensures forall k :: 0 <= k < |Lines(s)| - 1 ==> Lines(s + "\n")[k] == Lines(s)[k]
    decreases |s|
  {
    var n := LineLength(s);
    if n < |s| {
      var tail := s[n..];
      EndLastLine(tail);
      SameHead(s);
      LinesUnfold(s);
      LinesUnfold(s + "\n");
      hide Lines, Classify, SameMarks;
      ConsSame(s[..n], Lines(tail + "\n"), Lines(tail));
    } else {
      OnlyLine(s);
    }
  }

  lemma SameHead(s: string)
    requires s != "" && LineLength(s) < |s|
    ensures LineLength(s + "\n") == LineLength(s)
    ensures (s + "\n")[..LineLength(s)] == s[..LineLength(s)]
    ensures (s + "\n")[LineLength(s)..] == s[LineLength(s)..] + "\n"
  {
    var k := IndexOf(s, '\n');
    assert forall i :: 0 <= i < |s| ==> (s + "\n")[i] == s[i];
    assert IndexOf(s + "\n", '\n') == k;
  }

  lemma OnlyLine(s: string)
    requires !Complete(s) && LineLength(s) == |s|
    ensures Lines(s) == [s] && Lines(s + "\n") == [s + "\n"] && Classify(s + "\n") == Classify(s)
  {
    hide Classify;
    assert IndexOf(s, '\n') == |s|;
    ClassifyEnded(s);
    SingleLine(s);
    LinesUnfold(s);
    assert s[..|s|] == s && s[|s|..] == "";
    hide Lines;
    assert Lines("") == [];
  }

  lemma ClassifyEnded(s: string)
    requires !Complete(s)
    ensures Classify(s + "\n") == Classify(s)
  {
    assert Chop(s + "\n") == s && Chop(s) == s;
    hide TrimSpace, MarkerOf, Chop;
  }

  lemma ConsSame(x: string, a: seq<string>, b: seq<string>)
    requires SameMarks(a, b) && forall k :: 0 <= k < |b| - 1 ==> a[k] == b[k]
    ensures SameMarks([x] + a, [x] + b) && forall k :: 0 <= k < |b| ==> ([x] + a)[k] == ([x] + b)[k]
  {
    hide Classify;
  }

  lemma BlankLine()
    ensures Lines("\n") == ["\n"] && Classify("\n") == Plain && Lines("") == []
  {
    hide Classify;
    assert "" + "\n" == "\n";
    SingleLine("");
    BlankIsPlain();
  }

  lemma NothingAfter(a: seq<string>, i: string)
    requires Accepted(START, a) && Unmarked(a, i) && i != ""
    ensures Around(a, [], i)
  {
    hide Classify;
    RunUnmarked(START, a, i);
    hide Run;
    RunPlain(Scan("", Run(START, a).value.seen + {i}), []);
  }

  lemma PlainAfter(a: seq<string>, x: string, i: string)
    requires Accepted(START, a) && Unmarked(a, i) && Classify(x) == Plain
    ensures Accepted(START, a + [x]) && Unmarked(a + [x], i)
  {
    hide Classify, Run;
    RunConcat(START, a, [x]);
    RunPlain(Run(START, a).value, [x]);
  }

  /** Complete text says the same with a blank line after it. */
  lemma BlankAfter(x: string, i: string)
    requires Complete(x) && Accepted(START, Lines(x)) && Unmarked(Lines(x), i) && i != ""
    ensures Fits(x + "\n", "", i) && Fits(x, "", i)
    ensures Lines(x + "\n") == Lines(x) + ["\n"]
  {
    BlankLine();
    assert Complete(x + "\n");
    hide Lines, Complete, Classify, Accepted, Unmarked, Around;
    LinesConcat(x, "\n");
    NothingAfter(Lines(x), i);
    PlainAfter(Lines(x), "\n", i);
    NothingAfter(Lines(x) + ["\n"], i);
  }

  /** The file with its last line ended. */
  function Ended(content: string): string { if Complete(content) then content else content + "\n" }

  lemma EndedSame(content: string, i: string)
    requires WellFormed(content) && Unmarked(Lines(content), i)
    ensures Complete(Ended(content)) && Accepted(START, Lines(Ended(content))) && Unmarked(Lines(Ended(content)), i)
    ensures SameMarks(Lines(Ended(content)), Lines(content))
  {
    EndedIs(content);
    hide Lines, Classify, Run, Ended, Complete;
    if !Complete(content) {
      EndLastLine(content);
      SameRun(START, Lines(content), Lines(Ended(content)));
    }
  }

  lemma EndedIs(content: string)
    ensures Complete(Ended(content)) && Ended(content) == if Complete(content) then content else content + "\n"
  {
  }

  lemma EndedInside(content: string, j: string)
    requires WellFormed(content) && j != ""
    ensures Inside("", Lines(Ended(content)), j) == Inside("", Lines(content), j)
  {
    EndedIs(content);
    hide Lines, Classify, Run, Inside, Ended, Complete;
    if !Complete(content) {
      EndLastLine(content);
      SameInside(START, Lines(content), Lines(Ended(content)), j);
    }
  }

  lemma AbsentUnmarked(content: string, i: string)
    requires SplitAt(content, i).Absent? && i != ""
    ensures Unmarked(Lines(content), i) && WellFormed(content)
  {
    var lines := Lines(content);
    hide Classify, Run, Lines;
    if FirstAt(lines, Begin(i)) < |lines| {
      FindPair(lines, i);
    }
    assert NoBegin(lines, i);
    NoStray(START, lines, i);
  }

  lemma GapEnds(content: string)
    ensures content + Gap(content) == if content == "" then "" else Ended(content) + "\n"
  {
    assert content + "" == content;
    assert (content + "\n") + "\n" == content + ("\n" + "\n");
  }

  /** A pair of i's fits between the two texts that Rewrite keeps. */
  lemma BaseFits(content: string, i: string)
    requires WellFormed(content) && i != ""
    ensures Fits(Base(content, i).0, Base(content, i).1, i)
  {
    hide Lines, Classify, Fits, Gap, Complete, SplitAt, WellFormed, Unmarked, Accepted;
    WellFormedSplits(content, i);
    if SplitAt(content, i).Found? {
      FoundFits(content, i);
    } else {
      AbsentUnmarked(content, i);
      EndedSame(content, i);
      GapEnds(content);
      BlankAfter(Ended(content), i);
      EmptyEnded();
    }
  }

  lemma WellFormedSplits(content: string, i: string)
    ensures SplitAt(content, i).Malformed? <==> !WellFormed(content)
  {
    hide Lines, Classify, Run;
  }

  lemma EmptyEnded()
    ensures Ended("") == ""
  {
  }

  // ---- A written pair ---------------------------------------------------------------------

  lemma FitsLines(x: string, p: string, y: string)
    requires Complete(x) && Complete(p)
    ensures Lines(x + p + y) == Lines(x) + Lines(p) + Lines(y) && Lines(x + y) == Lines(x) + Lines(y)
  {
    assert Complete(x + p);
    hide Lines, Complete;
    LinesConcat(x + p, y);
    LinesConcat(x, p);
    LinesConcat(x, y);
  }

  lemma FlattenIs(x: string, lines: seq<string>)
    requires Lines(x) == lines
    ensures Flatten(lines) == x
  {
    FlattenLines(x);
  }

  lemma CutAround(text: string, x: string, p: seq<string>, y: string, i: string)
    requires Lines(text) == Lines(x) + p + Lines(y) && Around(Lines(x), Lines(y), i) && PairOf(p, i)
    ensures WellFormed(text) && SplitAt(text, i) == Found(x, y)
  {
    hide Lines, Classify, Run, FirstAt, Flatten, Around;
    var a, c := Lines(x), Lines(y);
    AroundPair(a, p, c, i);
    hide PairOf;
    var lines := a + p + c;
    assert lines[..|a|] == a;
    assert lines[|a| + |p|..] == c;
    FlattenIs(x, a);
    FlattenIs(y, c);
  }

  /** A written pair is found again, between the same texts. */
  lemma FoundAgain(x: string, y: string, i: string, block: string)
    requires Fits(x, y, i) && OneLine(i) && Entries(block)
    ensures WellFormed(x + Pair(i, block) + y) && SplitAt(x + Pair(i, block) + y, i) == Found(x, y)
  {
    PairIsPair(i, block);
    hide Lines, Complete, Around, PairOf, PairLines, Pair, AllPlain, WellFormed, SplitAt, Entries;
    FitsLines(x, Pair(i, block), y);
    CutAround(x + Pair(i, block) + y, x, PairLines(i, block), y, i);
  }

  /** Without the pair the file is well-formed, and has nothing of the interface. */
  lemma NothingLeft(x: string, y: string, i: string)
    requires Fits(x, y, i)
    ensures WellFormed(x + y) && SplitAt(x + y, i) == Absent
  {
    hide Lines, Complete, Classify, Run, Around, FirstAt;
    LinesConcat(x, y);
    AroundNothing(Lines(x), Lines(y), i);
  }

  // ---- The theorems ---------------------------------------------------------------------

  /** A file is rejected or accepted whichever interface asks, and whatever it wants to write. */
  lemma RejectsExactly(content: string, i: string, block: string)
    ensures Rewritten(content, i, block).None? <==> !WellFormed(content)
  {
    hide SplitAt, Pair, Gap;
    WellFormedSplits(content, i);
  }

  lemma WritesBetween(content: string, i: string, block: string)
    requires WellFormed(content) && block != ""
    ensures Rewritten(content, i, block) == Some(Base(content, i).0 + Pair(i, block) + Base(content, i).1)
  {
    WellFormedSplits(content, i);
    hide SplitAt, Pair, Gap, WellFormed;
    var text := content + Gap(content) + Pair(i, block);
    assert text + "" == text;
  }

  lemma KeepsWellFormed(content: string, i: string, block: string)
    requires WellFormed(content) && OneLine(i) && Entries(block)
    ensures WellFormed(Rewritten(content, i, block).value)
  {
    WellFormedSplits(content, i);
    hide SplitAt, Pair, Gap, WellFormed, Fits, Entries;
    BaseFits(content, i);
    if block != "" {
      WritesBetween(content, i, block);
      FoundAgain(Base(content, i).0, Base(content, i).1, i, block);
    } else if SplitAt(content, i).Found? {
      NothingLeft(Base(content, i).0, Base(content, i).1, i);
    }
  }

  /** Of two blocks written one after the other, the file shows only the second. */
  lemma LastWriteWins(content: string, i: string, first: string, second: string)
    requires WellFormed(content) && OneLine(i) && Entries(first) && first != "" && second != ""
    ensures Rewritten(Rewritten(content, i, first).value, i, second) == Rewritten(content, i, second)
  {
    hide SplitAt, Pair, Gap, WellFormed, Fits, Entries, Rewritten;
    BaseFits(content, i);
    WritesBetween(content, i, first);
    WritesBetween(content, i, second);
    FoundAgain(Base(content, i).0, Base(content, i).1, i, first);
    WritesBetween(Rewritten(content, i, first).value, i, second);
  }

  /** A second rewrite with the same block changes nothing. */
  lemma Idempotent(content: string, i: string, block: string)
    requires WellFormed(content) && OneLine(i) && Entries(block)
    ensures Rewritten(Rewritten(content, i, block).value, i, block) == Rewritten(content, i, block)
  {
    if block != "" {
      LastWriteWins(content, i, block, block);
    } else {
      WellFormedSplits(content, i);
      hide SplitAt, Gap, WellFormed, Fits, Entries;
      if SplitAt(content, i).Found? {
        BaseFits(content, i);
        NothingLeft(Base(content, i).0, Base(content, i).1, i);
      }
    }
  }

  /** Adding a block and removing it again leaves the file with at most two more newlines. */
  lemma InsertThenRemove(content: string, i: string, block: string)
    requires SplitAt(content, i).Absent? && OneLine(i) && Entries(block) && block != ""
    ensures Rewritten(Rewritten(content, i, block).value, i, "") == Some(content + Gap(content))
    ensures |Gap(content)| <= 2 && forall k :: 0 <= k < |Gap(content)| ==> Gap(content)[k] == '\n'
  {
    WellFormedSplits(content, i);
    hide SplitAt, Pair, WellFormed, Fits, Entries;
    BaseFits(content, i);
    WritesBetween(content, i, block);
    FoundAgain(Base(content, i).0, Base(content, i).1, i, block);
    assert content + Gap(content) + "" == content + Gap(content);
  }

  /** Replacing or removing a block keeps every byte around the pair it was in. */
  lemma OutsideKept(content: string, i: string, block: string)
    requires SplitAt(content, i).Found?
    ensures exists own ::
      && content == Base(content, i).0 + own + Base(content, i).1 && PairOf(Lines(own), i)
      && Rewritten(content, i, "") == Some(Base(content, i).0 + Base(content, i).1)
      && (block != "" ==>
            Rewritten(content, i, block) == Some(Base(content, i).0 + Pair(i, block) + Base(content, i).1))
  {
    var lines := Lines(content);
    var b, e := FirstAt(lines, Begin(i)), FirstAt(lines, End(i));
    hide Lines, Flatten, Classify, Run, Complete, FirstAt, PairOf, Pair;
    assert Classify(lines[b]).owner != "";
    FindPair(lines, i);
    var own := OwnText(content, b, e + 1);
  }

  lemma OwnText(content: string, b: nat, e: nat) returns (own: string)
    requires b <= e <= |Lines(content)|
    ensures Lines(own) == Lines(content)[b..e]
    ensures content == Flatten(Lines(content)[..b]) + own + Flatten(Lines(content)[e..])
  {
    hide Flatten, Complete, Lines;
    var lines := Lines(content);
    CutLines(content, e);
    var front, after := Flatten(lines[..e]), Flatten(lines[e..]);
    CutLines(front, b);
    var before := Flatten(lines[..b]);
    own := Flatten(Lines(front)[b..]);
    assert lines[..e][..b] == lines[..b] && lines[..e][b..] == lines[b..e];
    assert front == before + own;
  }

  // ---- Other interfaces' blocks ---------------------------------------------------------

  ghost predicate HasBegin(lines: seq<string>, j: string) {
    exists k :: 0 <= k < |lines| && Classify(lines[k]) == Begin(j)
  }

  /** What j owns of a file: its entry lines, if it has a pair at all. */
  ghost function View(lines: seq<string>, j: string): Option<seq<string>> {
    if HasBegin(lines, j) then Some(Inside("", lines, j)) else None
  }

  /** The block that Rewrite would find for j. */
  ghost function Extracted(content: string, j: string): Option<string> {
    if SplitAt(content, j).Found? then Some(Flatten(Inside("", Lines(content), j))) else None
  }

  lemma HasBeginConcat(a: seq<string>, b: seq<string>, j: string)
    ensures HasBegin(a + b, j) <==> HasBegin(a, j) || HasBegin(b, j)
  {
    hide Classify;
    var ab := a + b;
    if HasBegin(a, j) {
      var k :| 0 <= k < |a| && Classify(a[k]) == Begin(j);
      assert ab[k] == a[k];
    }
    if HasBegin(b, j) {
      var k :| 0 <= k < |b| && Classify(b[k]) == Begin(j);
      assert ab[|a| + k] == b[k];
    }
  }

  lemma PairHasBegin(p: seq<string>, i: string, j: string)
    requires PairOf(p, i)
    ensures HasBegin(p, j) <==> i == j
  {
    hide Classify;
    assert forall k :: 0 < k < |p| - 1 ==> p[k] == p[1..|p| - 1][k - 1];
  }

  lemma ViewAround(a: seq<string>, p: seq<string>, c: seq<string>, i: string, j: string)
    requires Around(a, c, i) && PairOf(p, i) && i != j && j != ""
    ensures View(a + p + c, j) == View(a + c, j)
  {
    hide Around, PairOf, Inside, HasBegin;
    InsideAround(a, p, c, i, j);
    HasBeginConcat(a + p, c, j);
    HasBeginConcat(a, p, j);
    HasBeginConcat(a, c, j);
    PairHasBegin(p, i, j);
  }

  lemma FoundIff(content: string, j: string)
    requires WellFormed(content) && j != ""
    ensures SplitAt(content, j).Found? <==> HasBegin(Lines(content), j)
  {
    var lines := Lines(content);
    hide Lines, Classify, Run, Flatten;
    if FirstAt(lines, Begin(j)) < |lines| {
      FindPair(lines, j);
    }
  }

  lemma ExtractedIs(content: string, j: string)
    requires WellFormed(content) && j != ""
    ensures var own := View(Lines(content), j);
      Extracted(content, j) == if own.None? then None else Some(Flatten(own.value))
  {
    hide Lines, Inside, SplitAt, HasBegin, WellFormed;
    FoundIff(content, j);
  }

  lemma SameBegins(a: seq<string>, b: seq<string>, j: string)
    requires SameMarks(a, b)
    ensures HasBegin(a, j) <==> HasBegin(b, j)
  {
    hide Classify;
  }

  lemma BlankView(a: seq<string>, j: string)
    requires Accepted(START, a) && Classify("\n") == Plain && j != ""
    ensures View(a + ["\n"], j) == View(a, j)
  {
    hide Classify, Run, Inside;
    HasBeginConcat(a, ["\n"], j);
    InsideConcat(START, a, ["\n"], j);
    InsideOne("", "\n", j);
    assert Inside("", a, j) + [] == Inside("", a, j);
  }

  lemma GapView(content: string, i: string, j: string)
    requires WellFormed(content) && Unmarked(Lines(content), i) && i != "" && j != ""
    ensures View(Lines(content + Gap(content)), j) == View(Lines(content), j)
  {
    EmptyEnded();
    BlankLine();
    hide Lines, Classify, Inside, HasBegin, Accepted, Unmarked, Complete, Ended, Gap, SameMarks;
    EndedSame(content, i);
    EndedInside(content, j);
    GapEnds(content);
    if content != "" {
      BlankAfter(Ended(content), i);
      BlankView(Lines(Ended(content)), j);
      SameBegins(Lines(Ended(content)), Lines(content), j);
    }
  }

  lemma BaseView(content: string, i: string, j: string)
    requires WellFormed(content) && i != "" && j != "" && i != j
    ensures View(Lines(Base(content, i).0) + Lines(Base(content, i).1), j) == View(Lines(content), j)
  {
    WellFormedSplits(content, i);
    if SplitAt(content, i).Found? {
      FoundView(content, i, j);
    } else {
      hide View, SplitAt, Gap;
      AbsentUnmarked(content, i);
      GapView(content, i, j);
      BlankLine();
      hide Lines;
      var lines := Lines(content + Gap(content));
      assert lines + [] == lines;
    }
  }

  lemma ThreeParts(lines: seq<string>, b: nat, e: nat)
    requires b <= e <= |lines|
    ensures lines == lines[..b] + lines[b..e] + lines[e..]
  {
  }

  lemma FoundView(content: string, i: string, j: string)
    requires SplitAt(content, i).Found? && i != "" && j != "" && i != j
    ensures View(Lines(Base(content, i).0) + Lines(Base(content, i).1), j) == View(Lines(content), j)
  {
    var lines := Lines(content);
    var b, e := FirstAt(lines, Begin(i)), FirstAt(lines, End(i));
    hide Lines, Classify, Run, Flatten, View, Around, PairOf, Complete, FirstAt;
    FindPair(lines, i);
    CutLines(content, b);
    CutLines(content, e + 1);
    ThreeParts(lines, b, e + 1);
    ViewAround(lines[..b], lines[b..e + 1], lines[e + 1..], i, j);
  }

  /** Every other interface's block is what it was. */
  lemma OthersKept(content: string, i: string, block: string, j: string)
    requires WellFormed(content) && OneLine(i) && Entries(block) && i != j && j != ""
    ensures Extracted(Rewritten(content, i, block).value, j) == Extracted(content, j)
  {
    hide SplitAt, Pair, Gap, WellFormed, Entries, View, Extracted, Lines, Around, Complete;
    WellFormedSplits(content, i);
    BaseFits(content, i);
    BaseView(content, i, j);
    KeepsWellFormed(content, i, block);
    ExtractedIs(content, j);
    var (x, y) := Base(content, i);
    if block != "" {
      WritesBetween(content, i, block);
      PairIsPair(i, block);
      FitsLines(x, Pair(i, block), y);
      ViewAround(Lines(x), PairLines(i, block), Lines(y), i, j);
      ExtractedIs(x + Pair(i, block) + y, j);
    } else if SplitAt(content, i).Found? {
      LinesConcat(x, y);
      ExtractedIs(x + y, j);
    }
  }

  /** The interface's own block is the one asked for; the empty block means none. */
  lemma OwnWritten(content: string, i: string, block: string)
    requires WellFormed(content) && OneLine(i) && Entries(block)
    ensures Extracted(Rewritten(content, i, block).value, i) == if block == "" then None else Some(block)
  {
    hide SplitAt, Pair, Gap, WellFormed, Entries, Lines, Around, Complete, Inside;
    WellFormedSplits(content, i);
    BaseFits(content, i);
    var (x, y) := Base(content, i);
    if block != "" {
      WritesBetween(content, i, block);
      FoundAgain(x, y, i, block);
      PairIsPair(i, block);
      FitsLines(x, Pair(i, block), y);
      OwnInside(Lines(x), PairLines(i, block), Lines(y), i);
      FlattenLines(block);
    } else if SplitAt(content, i).Found? {
      NothingLeft(x, y, i);
    }
  }

  lemma OwnInside(a: seq<string>, p: seq<string>, c: seq<string>, i: string)
    requires Around(a, c, i) && PairOf(p, i) && i != ""
    ensures Inside("", a + p + c, i) == p[1..|p| - 1]
  {
    var s := Run(START, a).value;
    hide Classify, Run, Inside, Unmarked;
    RunConcat(START, a, p);
    RunPair(s, p, i);
    InsideConcat(START, a + p, c, i);
    InsideConcat(START, a, p, i);
    InsidePair(s.seen, p, i, i);
    InsideUnmarked("", a, i);
    InsideUnmarked("", c, i);
    assert [] + p[1..|p| - 1] + [] == p[1..|p| - 1];
  }

  // ---- The text, spelled out ------------------------------------------------------------

  /** A pair is its begin line, the block, and its end line. */
  lemma PairText(iface: string, block: string)
    ensures Pair(iface, block)
         == BeginPrefix() + iface + BeginSuffix() + "\n" + block + EndPrefix() + iface + EndSuffix() + "\n"
  {
    hide BeginPrefix, BeginSuffix, EndPrefix, EndSuffix;
  }

  /** A new block goes to the end, after one blank line if there is anything before it. */
  lemma InsertedText(content: string, i: string, block: string)
    requires SplitAt(content, i).Absent? && block != ""
    ensures Rewritten(content, i, block) == Some(
      (if content == "" then ""
       else if content[|content| - 1] == '\n' then content + "\n"
       else content + "\n\n") + Pair(i, block))
  {
    hide SplitAt, Pair;
    assert "" + "" == "" && "\n" + "\n" == "\n\n";
  }
}
