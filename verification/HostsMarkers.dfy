/**
  Lines of a hosts file, and the marker lines among them.

  A file is its text, one char per character; an invalid byte counts as a character of its own.
 */
module HostsMarkers {
  import opened Text

  // ---- Lines ----------------------------------------------------------------------------

  /** The lines of a text, each with its newline; the last one may lack it. */
  function Lines(s: string): (lines: seq<string>)
    ensures s == "" <==> lines == []
    decreases |s|
  {
    if s == "" then [] else
    var n := LineLength(s);
    [s[..n]] + Lines(s[n..])
  }

  /** The first line of the rest, with its newline. */
  function LineLength(rest: string): (n: nat)
    requires rest != ""
    ensures 0 < n <= |rest|
  {
    var nl := IndexOf(rest, '\n');
    if nl == |rest| then |rest| else nl + 1
  }

  function Flatten(lines: seq<string>): string {
    if lines == [] then "" else lines[0] + Flatten(lines[1..])
  }

  /** Text that a following line can be appended to. */
  predicate Complete(s: string) { s == "" || s[|s| - 1] == '\n' }

  lemma {:induction false} LinesConcat(a: string, b: string)
    requires Complete(a)
    ensures Lines(a + b) == Lines(a) + Lines(b)
    decreases |a|
  {
    hide Lines, Complete, LineLength;
    if a == "" {
      assert a + b == b && Lines(a) == [];
      assert [] + Lines(b) == Lines(b);
    } else {
      var n := LineLength(a);
      FirstLine(a, b);
      LinesConcat(a[n..], b);
      LinesUnfold(a);
      LinesUnfold(a + b);
      assert [a[..n]] + (Lines(a[n..]) + Lines(b)) == ([a[..n]] + Lines(a[n..])) + Lines(b);
    }
  }

  lemma LinesUnfold(s: string)
    requires s != ""
    ensures Lines(s) == [s[..LineLength(s)]] + Lines(s[LineLength(s)..])
  {
  }

  lemma FirstLine(a: string, b: string)
    requires Complete(a) && a != ""
    ensures LineLength(a + b) == LineLength(a) && Complete(a[..LineLength(a)]) && Complete(a[LineLength(a)..])
    ensures (a + b)[..LineLength(a)] == a[..LineLength(a)] && (a + b)[LineLength(a)..] == a[LineLength(a)..] + b
  {
    var k := IndexOf(a, '\n');
    assert k < |a|;
    assert forall i :: 0 <= i < |a| ==> (a + b)[i] == a[i];
    assert IndexOf(a + b, '\n') == k;
  }

  lemma {:induction false} FlattenConcat(a: seq<string>, b: seq<string>)
    ensures Flatten(a + b) == Flatten(a) + Flatten(b)
    decreases |a|
  {
    if a == [] {
      assert a + b == b;
    } else {
      assert (a + b)[1..] == a[1..] + b;
      FlattenConcat(a[1..], b);
    }
  }

  lemma {:induction false} FlattenLines(s: string)
    ensures Flatten(Lines(s)) == s
    decreases |s|
  {
    if s != "" {
      var n := LineLength(s);
      FlattenLines(s[n..]);
      assert s == s[..n] + s[n..];
    }
  }

  /** Cutting a file between two lines cuts its text into a complete part and the rest. */
  lemma {:induction false} CutLines(s: string, n: nat)
    requires n <= |Lines(s)|
    ensures Flatten(Lines(s)[..n]) + Flatten(Lines(s)[n..]) == s
    ensures Lines(Flatten(Lines(s)[..n])) == Lines(s)[..n] && Lines(Flatten(Lines(s)[n..])) == Lines(s)[n..]
    ensures n < |Lines(s)| ==> Complete(Flatten(Lines(s)[..n]))
    decreases |s|
  {
    if n == 0 {
      FlattenLines(s);
      assert Lines(s)[0..] == Lines(s);
      assert "" + s == s;
    } else if n == |Lines(s)| {
      FlattenLines(s);
      assert Lines(s)[..n] == Lines(s) && Lines(s)[n..] == [];
      assert s + "" == s;
    } else {
      CutRest(s, n);
    }
  }

  lemma {:induction false} CutRest(s: string, n: nat)
    requires 0 < n < |Lines(s)|
    ensures Flatten(Lines(s)[..n]) + Flatten(Lines(s)[n..]) == s
    ensures Lines(Flatten(Lines(s)[..n])) == Lines(s)[..n] && Lines(Flatten(Lines(s)[n..])) == Lines(s)[n..]
    ensures Complete(Flatten(Lines(s)[..n]))
    decreases |s|, 0
  {
    var k := LineLength(s);
    var head, tail := s[..k], s[k..];
    assert s == head + tail;
    var lines, rest := Lines(s), Lines(tail);
    assert lines == [head] + rest && rest != [];
    assert Complete(head) && Lines(head) == [head] by {
      HeadLine(s);
    }
    if n == 1 {
      FlattenLines(tail);
      assert lines[..1] == [head] && lines[1..] == rest;
      assert Flatten([head]) == head by {
        assert [head][1..] == [];
        assert head + "" == head;
      }
    } else {
      hide Lines, Flatten, Complete;
      CutRest(tail, n - 1);
      var front := rest[..n - 1];
      assert lines[..n] == [head] + front && lines[n..] == rest[n - 1..];
      CutStep(head, front, Flatten(rest[n - 1..]), tail);
    }
  }

  lemma CutStep(head: string, front: seq<string>, after: string, tail: string)
    requires head != "" && Complete(head) && Lines(head) == [head]
    requires Lines(Flatten(front)) == front && Complete(Flatten(front)) && Flatten(front) + after == tail
    ensures Flatten([head] + front) + after == head + tail
    ensures Lines(Flatten([head] + front)) == [head] + front && Complete(Flatten([head] + front))
  {
    assert ([head] + front)[1..] == front;
    var text := Flatten(front);
    assert Flatten([head] + front) == head + text;
    assert Complete(head + text);
    hide Lines, Flatten, Complete;
    LinesConcat(head, text);
    assert (head + text) + after == head + (text + after);
  }

  lemma HeadLine(s: string)
    requires |Lines(s)| > 1
    ensures Complete(s[..LineLength(s)]) && Lines(s[..LineLength(s)]) == [s[..LineLength(s)]]
  {
    var k := LineLength(s);
    var head := s[..k];
    assert k < |s|;
    assert forall i :: 0 <= i < k ==> head[i] == s[i];
    assert IndexOf(head, '\n') == k - 1;
    assert LineLength(head) == k && head[..k] == head && head[k..] == "";
  }

  // ---- Marker lines ---------------------------------------------------------------------

  datatype Mark = Plain | Begin(owner: string) | End(owner: string)

  /** unicode.IsSpace. */
  predicate IsSpace(c: char) {
    || '\U{09}' <= c <= '\U{0D}' || c == ' ' || c == '\U{85}' || c == '\U{A0}' || c == '\U{1680}'
    || '\U{2000}' <= c <= '\U{200A}' || c == '\U{2028}' || c == '\U{2029}' || c == '\U{202F}' || c == '\U{205F}'
    || c == '\U{3000}'
  }

  function TrimRight(s: string): string {
    if s != "" && IsSpace(s[|s| - 1]) then TrimRight(s[..|s| - 1]) else s
  }

  function TrimSpace(s: string): string
    decreases |s|
  {
    if s != "" && IsSpace(s[0]) then TrimSpace(s[1..]) else TrimRight(s)
  }

  function LegacyBegin(): (s: string)
    ensures |s| > 29 && s[0] == '#' && s[2] == 'B' && s[29] == '-'
  {
    "# BEGIN tincan managed block" + " - do not edit between markers"
  }

  function LegacyEnd(): (s: string)
    ensures |s| == 26 && s[0] == '#' && s[2] == 'E'
  {
    "# END tincan managed block"
  }

  function LegacyInterface(): (s: string)
    ensures s != ""
  {
    "tincan0"
  }

  function BeginPrefix(): (s: string)
    ensures '\n' !in s && |s| == 30 && s[0] == '#' && s[2] == 'B' && s[29] == '('
  {
    "# BEGIN tincan managed block ("
  }

  function BeginSuffix(): (s: string)
    ensures '\n' !in s && s != "" && s[|s| - 1] == 's'
  {
    ") - do not edit between markers"
  }

  function EndPrefix(): (s: string)
    ensures '\n' !in s && |s| == 28 && s[0] == '#' && s[2] == 'E'
  {
    "# END tincan managed block ("
  }

  function EndSuffix(): string { ")" }

  function BeginMarker(iface: string): string { BeginPrefix() + iface + BeginSuffix() }
  function EndMarker(iface: string): string { EndPrefix() + iface + EndSuffix() }

  predicate HasSuffix(s: string, suffix: string) { |suffix| <= |s| && s[|s| - |suffix|..] == suffix }

  /** marker, on a trimmed line. */
  function MarkerOf(line: string): (m: Mark)
    ensures m != Plain ==> m.owner != ""
  {
    if line == LegacyBegin() then Begin(LegacyInterface())
    else if line == LegacyEnd() then End(LegacyInterface())
    else if BeginPrefix() <= line then
      var rest := line[|BeginPrefix()|..];
      if HasSuffix(rest, BeginSuffix()) && |rest| > |BeginSuffix()|
      then Begin(rest[..|rest| - |BeginSuffix()|]) else Plain
    else if EndPrefix() <= line then
      var rest := line[|EndPrefix()|..];
      if HasSuffix(rest, EndSuffix()) && |rest| > |EndSuffix()|
      then End(rest[..|rest| - |EndSuffix()|]) else Plain
    else Plain
  }

  function Chop(line: string): string {
    if line != "" && line[|line| - 1] == '\n' then line[..|line| - 1] else line
  }

  function Classify(line: string): (m: Mark)
    ensures m != Plain ==> m.owner != ""
  {
    MarkerOf(TrimSpace(Chop(line)))
  }

  lemma TrimNothing(s: string)
    requires s != "" && !IsSpace(s[0]) && !IsSpace(s[|s| - 1])
    ensures TrimSpace(s) == s
  {
  }

  lemma BeginRecognized(iface: string)
    requires iface != ""
    ensures MarkerOf(BeginMarker(iface)) == Begin(iface)
  {
    hide LegacyBegin, LegacyEnd, BeginPrefix, BeginSuffix, EndPrefix, EndSuffix, LegacyInterface;
    var line := BeginMarker(iface);
    assert line[29] == '(' && line[2] == 'B';
    var rest := line[|BeginPrefix()|..];
    assert rest == iface + BeginSuffix();
    assert rest[|rest| - |BeginSuffix()|..] == BeginSuffix();
    assert rest[..|rest| - |BeginSuffix()|] == iface;
  }

  lemma EndRecognized(iface: string)
    requires iface != ""
    ensures MarkerOf(EndMarker(iface)) == End(iface)
  {
    hide LegacyBegin, LegacyEnd, BeginPrefix, BeginSuffix, EndPrefix, EndSuffix, LegacyInterface;
    var line := EndMarker(iface);
    assert line[2] == 'E';
    assert |line| > |LegacyEnd()|;
    var rest := line[|EndPrefix()|..];
    assert rest == iface + EndSuffix();
    assert rest[|rest| - |EndSuffix()|..] == EndSuffix();
    assert rest[..|rest| - |EndSuffix()|] == iface;
  }

  /** The marker lines written for an interface are recognized as its own. */
  lemma MarkersClassify(iface: string)
    requires iface != ""
    ensures Classify(BeginMarker(iface) + "\n") == Begin(iface)
    ensures Classify(EndMarker(iface) + "\n") == End(iface)
  {
    BeginRecognized(iface);
    EndRecognized(iface);
    hide LegacyBegin, LegacyEnd, BeginPrefix, BeginSuffix, EndPrefix, LegacyInterface;
    var b, e := BeginMarker(iface), EndMarker(iface);
    assert b[0] == '#' && e[0] == '#' && b[|b| - 1] == 's' && e[|e| - 1] == ')';
    hide MarkerOf, BeginMarker, EndMarker, TrimSpace;
    TrimNothing(b);
    TrimNothing(e);
    assert Chop(b + "\n") == b && Chop(e + "\n") == e;
  }

  lemma BlankIsPlain()
    ensures Classify("\n") == Plain
  {
    assert Chop("\n") == "";
    assert TrimSpace("") == "";
    hide TrimSpace, Chop;
    HashNeeded("");
  }

  /** A line that starts with a digit, such as an address, is no marker. */
  lemma AddressIsPlain(line: string)
    requires line != "" && Digit(line[0])
    ensures Classify(line) == Plain
  {
    var chopped := Chop(line);
    assert chopped[0] == line[0];
    TrimKeepsHead(chopped);
    hide LegacyBegin, LegacyEnd, BeginPrefix, BeginSuffix, EndPrefix, EndSuffix, LegacyInterface, TrimSpace;
    HashNeeded(TrimSpace(chopped));
  }

  lemma HashNeeded(line: string)
    requires line == "" || line[0] != '#'
    ensures MarkerOf(line) == Plain
  {
    hide LegacyBegin, LegacyEnd, BeginPrefix, BeginSuffix, EndPrefix, EndSuffix, LegacyInterface;
  }

  lemma {:induction false} TrimKeepsHead(s: string)
    requires s != "" && !IsSpace(s[0])
    ensures TrimRight(s) != "" && TrimRight(s)[0] == s[0] && TrimSpace(s) == TrimRight(s)
  {
    if IsSpace(s[|s| - 1]) {
      TrimKeepsHead(s[..|s| - 1]);
    }
  }

  /** The texts of the markers, and the old ones without a name, which belong to tincan0. */
  lemma MarkerTexts(iface: string)
    ensures BeginMarker(iface) == "# BEGIN tincan managed block (" + iface + ") - do not edit between markers"
    ensures EndMarker(iface) == "# END tincan managed block (" + iface + ")"
    ensures MarkerOf("# BEGIN tincan managed block" + " - do not edit between markers") == Begin("tincan0")
    ensures MarkerOf("# END tincan managed block") == End("tincan0")
  {
    LegacyTexts();
    hide MarkerOf;
  }

  lemma LegacyTexts()
    ensures MarkerOf("# BEGIN tincan managed block" + " - do not edit between markers") == Begin("tincan0")
    ensures MarkerOf("# END tincan managed block") == End("tincan0")
  {
    assert LegacyBegin() == "# BEGIN tincan managed block" + " - do not edit between markers";
    assert LegacyEnd() == "# END tincan managed block" && LegacyInterface() == "tincan0";
    hide BeginPrefix, BeginSuffix, EndPrefix, EndSuffix;
  }

  /** Space around a marker does not hide it. */
  lemma {:induction false} TrimsAround(before: string, s: string, after: string)
    requires s != "" && !IsSpace(s[0]) && !IsSpace(s[|s| - 1])
    requires forall c :: c in before || c in after ==> IsSpace(c)
    ensures TrimSpace(before + s + after) == s
    decreases |before| + |after|
  {
    hide IsSpace;
    var all := before + s + after;
    if before != "" {
      assert all[0] == before[0] && all[1..] == before[1..] + s + after;
      TrimsAround(before[1..], s, after);
    } else {
      assert all == s + after && all[0] == s[0];
      TrimsRight(s, after);
    }
  }

  lemma {:induction false} TrimsRight(s: string, after: string)
    requires s != "" && !IsSpace(s[|s| - 1]) && forall c :: c in after ==> IsSpace(c)
    ensures TrimRight(s + after) == s
    decreases |after|
  {
    hide IsSpace;
    if after == "" {
      assert s + after == s;
    } else {
      var n := |after| - 1;
      assert (s + after)[..|s + after| - 1] == s + after[..n];
      assert (s + after)[|s + after| - 1] == after[n];
      TrimsRight(s, after[..n]);
    }
  }
}
