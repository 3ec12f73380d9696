/**
  NIP-01 events: the canonical text whose hash is the event id.

  A Go string is modelled as its bytes, one char each. Nothing below depends on a char being
  less than 256.
 */
module Nip01 {
  import opened Options
  import opened Text

  datatype Event = Event(
    id: string, pubKey: string, createdAt: int, kind: int, tags: seq<seq<string>>, content: string, sig: string)

  // ---- String literals ------------------------------------------------------------------

  const BACKSPACE: char := '\U{08}'
  const FORM_FEED: char := '\U{0C}'

  function HexDigit(n: nat): char
    requires n < 16
  {
    if n < 10 then '0' + n as char else 'a' + (n - 10) as char
  }

  /** The bytes that one byte of a string becomes. */
  function Escape(c: char): string {
    if c == '"' then "\\\""
    else if c == '\\' then "\\\\"
    else if c == BACKSPACE then "\\b"
    else if c == '\t' then "\\t"
    else if c == '\n' then "\\n"
    else if c == FORM_FEED then "\\f"
    else if c == '\r' then "\\r"
    else if c as int < 0x20 then "\\u00" + [HexDigit(c as int / 16), HexDigit(c as int % 16)]
    else [c]
  }

  function Escaped(s: string): string {
    if s == [] then "" else Escaped(s[..|s| - 1]) + Escape(s[|s| - 1])
  }

  function Quoted(s: string): string { "\"" + Escaped(s) + "\"" }

  /** writeJSONString: appends the literal to the buffer. */
  method WriteJsonString(b: string, s: string) returns (r: string)
    ensures r == WithLiteral(b, s)
  {
    r := b + "\"";
    hide Escape;
    for i := 0 to |s|
      invariant r == b + "\"" + Escaped(s[..i])
    {
      assert s[..i + 1][..i] == s[..i];
      r := r + Escape(s[i]);
    }
    assert s[..|s|] == s;
    r := r + "\"";
  }

  // ---- Reading a literal back -----------------------------------------------------------

  function HexValue(c: char): Option<nat> {
    if '0' <= c <= '9' then Some((c - '0') as nat)
    else if 'a' <= c <= 'f' then Some((c - 'a') as nat + 10)
    else None
  }

  /** One byte off the front of the escaped text, with what follows it. */
  function TakeByte(s: string): Option<(char, string)> {
    if s == "" then None
    else if s[0] != '\\' then Some((s[0], s[1..]))
    else if |s| < 2 then None
    else match s[1]
      case '"' => Some(('"', s[2..]))
      case '\\' => Some(('\\', s[2..]))
      case 'b' => Some((BACKSPACE, s[2..]))
      case 't' => Some(('\t', s[2..]))
      case 'n' => Some(('\n', s[2..]))
      case 'f' => Some((FORM_FEED, s[2..]))
      case 'r' => Some(('\r', s[2..]))
      case 'u' =>
        if |s| < 6 || s[2] != '0' || s[3] != '0' then None else
        (match (HexValue(s[4]), HexValue(s[5]))
         case (Some(h), Some(l)) => Some(((16 * h + l) as char, s[6..]))
         case _ => None)
      case _ => None
  }

  function Unescape(s: string): Option<string>
    decreases |s|
  {
    if s == "" then Some("") else
    match TakeByte(s)
    case None => None
    case Some((c, rest)) =>
      if |rest| >= |s| then None else
      match Unescape(rest)
      case None => None
      case Some(tail) => Some([c] + tail)
  }

  lemma TakeEscaped(c: char, rest: string)
    ensures TakeByte(Escape(c) + rest) == Some((c, rest)) && |Escape(c)| > 0
  {
    var s := Escape(c) + rest;
    assert s[|Escape(c)|..] == rest;
    if |Escape(c)| == 6 {
      assert s[4] == HexDigit(c as int / 16) && s[5] == HexDigit(c as int % 16);
    }
  }

  lemma {:induction false} EscapedCons(c: char, s: string)
    ensures Escaped([c] + s) == Escape(c) + Escaped(s)
    decreases |s|
  {
    hide Escape;
    var t := [c] + s;
    if s == [] {
      assert t[..|t| - 1] == [];
      assert Escaped([]) + Escape(c) == Escape(c) + Escaped([]);
    } else {
      EscapedCons(c, s[..|s| - 1]);
      assert t[..|t| - 1] == [c] + s[..|s| - 1];
    }
  }

  /** Reading a literal's inside gives the string that was written. */
  lemma {:induction false} UnescapeInverts(s: string)
    ensures Unescape(Escaped(s)) == Some(s)
  {
    hide Escape, TakeByte;
    if s != [] {
      assert s == [s[0]] + s[1..];
      EscapedCons(s[0], s[1..]);
      TakeEscaped(s[0], Escaped(s[1..]));
      UnescapeInverts(s[1..]);
    }
  }

  /** Inside a literal every quote has a backslash before it. */
  ghost predicate QuotesGuarded(s: string) {
    forall i :: 0 <= i < |s| && s[i] == '"' ==> i > 0 && s[i - 1] == '\\'
  }

  lemma EscapeGuarded(c: char)
    ensures QuotesGuarded(Escape(c))
  {
  }

  lemma GuardedConcat(a: string, b: string)
    requires QuotesGuarded(a) && QuotesGuarded(b)
    ensures QuotesGuarded(a + b)
  {
    assert forall i :: 0 <= i < |b| ==> (a + b)[|a| + i] == b[i];
    assert forall i :: |a| <= i < |a + b| ==> (a + b)[i] == b[i - |a|];
  }

  lemma {:induction false} EscapedGuarded(s: string)
    ensures QuotesGuarded(Escaped(s))
  {
    hide Escape;
    if s != [] {
      EscapedGuarded(s[..|s| - 1]);
      EscapeGuarded(s[|s| - 1]);
      hide QuotesGuarded;
      GuardedConcat(Escaped(s[..|s| - 1]), Escape(s[|s| - 1]));
    }
  }

  predicate EndsPlain(u: string) { |u| > 0 && u[|u| - 1] != '\\' }

  lemma ShorterOpening(u: string, s: string, u': string, s': string)
    requires QuotesGuarded(s) && EndsPlain(u')
    requires u + "\"" + s + "\"" == u' + "\"" + s' + "\""
    ensures |u'| <= |u|
  {
    var all := u + "\"" + s + "\"";
    var k := |u'|;
    assert all[k] == '"' && all[k - 1] == u'[k - 1];
    assert |all| >= k + 2;
    assert forall i :: 0 <= i < |s| ==> all[|u| + 1 + i] == s[i];
    assert forall i :: |u| < i < |all| - 1 && all[i] == '"' ==> all[i - 1] == '\\';
  }

  /** A literal at the end of a text can be told from what stands before it. */
  lemma LastLiteral(u: string, v: string, u': string, v': string)
    requires EndsPlain(u) && EndsPlain(u') && WithLiteral(u, v) == WithLiteral(u', v')
    ensures u == u' && v == v'
  {
    var s, s' := Escaped(v), Escaped(v');
    assert u + Quoted(v) == u + "\"" + s + "\"" && u' + Quoted(v') == u' + "\"" + s' + "\"";
    EscapedGuarded(v);
    EscapedGuarded(v');
    UnescapeInverts(v);
    UnescapeInverts(v');
    hide Escaped, Unescape, Quoted, QuotesGuarded;
    ShorterOpening(u, s, u', s');
    ShorterOpening(u', s', u, s);
    var all := u + "\"" + s + "\"";
    assert u == all[..|u|] == u';
    assert s == all[|u| + 1..|all| - 1] == s';
  }

  // ---- Tags -----------------------------------------------------------------------------

  function Last(s: string): char
    requires s != ""
  {
    s[|s| - 1]
  }

  function Front(s: string): string
    requires s != ""
  {
    s[..|s| - 1]
  }

  /** The text s with one more byte. */
  function Plus(s: string, c: char): (r: string)
    ensures r != "" && Last(r) == c && Front(r) == s
  {
    s + [c]
  }

  /** The text u, an opening bracket, and the strings of a tag. */
  function OpenTag(u: string, tag: seq<string>): (r: string)
    ensures r != "" && Last(r) == if tag == [] then '[' else '"'
    decreases |tag|, 1
  {
    if tag == [] then Plus(u, '[') else WithLiteral(TagLead(u, tag), tag[|tag| - 1])
  }

  /** What stands before the last string of a tag. */
  function TagLead(u: string, tag: seq<string>): (r: string)
    requires tag != []
    ensures EndsPlain(r) && Last(r) == if |tag| == 1 then '[' else ','
    decreases |tag|, 0
  {
    if |tag| == 1 then Plus(u, '[') else Plus(OpenTag(u, tag[..|tag| - 1]), ',')
  }

  function WithLiteral(u: string, s: string): (r: string)
    ensures r != "" && Last(r) == '"'
  {
    u + Quoted(s)
  }

  /** The text u, an opening bracket, and the tags, each in brackets. */
  function OpenTags(u: string, tags: seq<seq<string>>): (r: string)
    ensures r != "" && Last(r) == if tags == [] then '[' else ']'
    decreases |tags|, 1
  {
    if tags == [] then Plus(u, '[') else Plus(OpenTag(ListLead(u, tags), tags[|tags| - 1]), ']')
  }

  /** What stands before the last tag. */
  function ListLead(u: string, tags: seq<seq<string>>): (r: string)
    requires tags != []
    ensures r != "" && Last(r) == if |tags| == 1 then '[' else ','
    decreases |tags|, 0
  {
    if |tags| == 1 then Plus(u, '[') else Plus(OpenTags(u, tags[..|tags| - 1]), ',')
  }

  lemma {:induction false} TagReadable(u: string, a: seq<string>, u': string, b: seq<string>)
    requires OpenTag(u, a) == OpenTag(u', b)
    ensures u == u' && a == b
    decreases |a|
  {
    hide Plus, WithLiteral, Last, Front, EndsPlain;
    if a != [] && b != [] {
      var x, y := a[|a| - 1], b[|b| - 1];
      LastLiteral(TagLead(u, a), x, TagLead(u', b), y);
      if |a| > 1 {
        TagReadable(u, a[..|a| - 1], u', b[..|b| - 1]);
      }
      assert a == a[..|a| - 1] + [x] && b == b[..|b| - 1] + [y];
    }
  }

  lemma {:induction false} TagsReadable(u: string, a: seq<seq<string>>, u': string, b: seq<seq<string>>)
    requires OpenTags(u, a) == OpenTags(u', b)
    ensures u == u' && a == b
    decreases |a|
  {
    hide Plus, Last, Front, OpenTag;
    if a != [] && b != [] {
      var x, y := a[|a| - 1], b[|b| - 1];
      TagReadable(ListLead(u, a), x, ListLead(u', b), y);
      if |a| > 1 {
        TagsReadable(u, a[..|a| - 1], u', b[..|b| - 1]);
      }
      assert a == a[..|a| - 1] + [x] && b == b[..|b| - 1] + [y];
    }
  }

  // ---- Numbers --------------------------------------------------------------------------

  lemma ShorterField(u: string, f: string, u': string, f': string)
    requires ',' !in f && u + "," + f == u' + "," + f'
    ensures |u'| <= |u|
  {
    var all := u + "," + f;
    assert all[|u'|] == ',';
    assert forall i :: 0 <= i < |f| ==> all[|u| + 1 + i] == f[i] && f[i] in f;
    assert forall i :: |u| < i < |all| ==> all[i] != ',';
  }

  lemma LastField(u: string, f: string, u': string, f': string)
    requires ',' !in f && ',' !in f' && u + "," + f == u' + "," + f'
    ensures u == u' && f == f'
  {
    ShorterField(u, f, u', f');
    ShorterField(u', f', u, f);
    var all := u + "," + f;
    assert u == all[..|u|] == u';
    assert f == all[|u| + 1..] == f';
  }

  lemma NumberReadable(u: string, i: int, u': string, j: int)
    requires u + "," + FormatInt(i) == u' + "," + FormatInt(j)
    ensures u == u' && i == j
  {
    var a: nat, b: nat := if i < 0 then -i else i, if j < 0 then -j else j;
    LastField(u, FormatInt(i), u', FormatInt(j));
    ParseDigitsInverts(a);
    ParseDigitsInverts(b);
    var f := FormatInt(i);
    assert f[0] == '-' <==> i < 0;
    assert f[0] == '-' <==> j < 0;
    assert Digits(a) == if i < 0 then f[1..] else f;
    assert Digits(b) == if j < 0 then f[1..] else f;
  }

  // ---- The whole event ------------------------------------------------------------------

  /** The text up to and including the comma before the tags. */
  function Header(e: Event): string {
    "[0,\"" + e.pubKey + "\"," + FormatInt(e.createdAt) + "," + FormatInt(e.kind) + ","
  }

  function Serialized(e: Event): string {
    Plus(WithLiteral(BeforeContent(e), e.content), ']')
  }

  function BeforeContent(e: Event): (r: string)
    ensures EndsPlain(r)
  {
    Plus(Plus(OpenTags(Header(e), e.tags), ']'), ',')
  }

  /** Event.Serialize: the buffer after both loops. */
  method Serialize(e: Event) returns (b: string)
    ensures b == Serialized(e)
  {
    b := WriteHeader(e);
    b := b + "[";
    hide Header, OpenTag, WithLiteral;
    for i := 0 to |e.tags|
      invariant b == OpenTags(Header(e), e.tags[..i])
    {
      assert e.tags[..i + 1][..i] == e.tags[..i];
      if i > 0 {
        b := b + ",";
      }
      b := WriteTag(b, e.tags[i]);
    }
    assert e.tags[..|e.tags|] == e.tags;
    b := b + "]";
    b := b + ",";
    b := WriteJsonString(b, e.content);
    b := b + "]";
  }

  method WriteHeader(e: Event) returns (b: string)
    ensures b == Header(e)
  {
    hide FormatInt;
    b := "[0,\"";
    b := b + e.pubKey;
    b := b + "\",";
    b := b + FormatInt(e.createdAt);
    b := b + ",";
    b := b + FormatInt(e.kind);
    b := b + ",";
  }

  /** The inner loop, with the brackets around it. */
  method WriteTag(b: string, tag: seq<string>) returns (r: string)
    ensures r == Plus(OpenTag(b, tag), ']')
  {
    r := b + "[";
    hide Quoted, WithLiteral;
    for j := 0 to |tag|
      invariant r == OpenTag(b, tag[..j])
    {
      assert tag[..j + 1][..j] == tag[..j];
      if j > 0 {
        r := r + ",";
      }
      r := WriteJsonString(r, tag[j]);
    }
    assert tag[..|tag|] == tag;
    r := r + "]";
  }

  lemma HeaderReadable(a: Event, b: Event)
    requires Header(a) == Header(b)
    ensures a.pubKey == b.pubKey && a.createdAt == b.createdAt && a.kind == b.kind
  {
    hide FormatInt;
    var pa, pb := "[0,\"" + a.pubKey + "\"", "[0,\"" + b.pubKey + "\"";
    var qa, qb := pa + "," + FormatInt(a.createdAt), pb + "," + FormatInt(b.createdAt);
    assert Header(a) == qa + "," + FormatInt(a.kind) + ",";
    assert Header(b) == qb + "," + FormatInt(b.kind) + ",";
    var ha, hb := Header(a), Header(b);
    assert ha[..|ha| - 1] == qa + "," + FormatInt(a.kind);
    assert hb[..|hb| - 1] == qb + "," + FormatInt(b.kind);
    NumberReadable(qa, a.kind, qb, b.kind);
    NumberReadable(pa, a.createdAt, pb, b.createdAt);
    assert a.pubKey == pa[4..|pa| - 1] && b.pubKey == pb[4..|pb| - 1];
  }

  /**
    Two events with the same canonical text agree on everything the id is meant to cover. No
    condition on the public key is needed, although it is written without escapes: read from
    the right, the text falls apart in one way only.
   */
  lemma SerializationInjective(a: Event, b: Event)
    requires Serialized(a) == Serialized(b)
    ensures a.pubKey == b.pubKey && a.createdAt == b.createdAt && a.kind == b.kind
    ensures a.tags == b.tags && a.content == b.content
  {
    hide Header, OpenTags, WithLiteral, Plus, EndsPlain, Last, Front;
    LastLiteral(BeforeContent(a), a.content, BeforeContent(b), b.content);
    TagsReadable(Header(a), a.tags, Header(b), b.tags);
    HeaderReadable(a, b);
  }

  // ---- The d tag ------------------------------------------------------------------------

  /** The first ["d", value] tag from position k on. */
  function DTagFrom(tags: seq<seq<string>>, k: nat): string
    requires k <= |tags|
    decreases |tags| - k
  {
    if k == |tags| then "" else
    if |tags[k]| >= 2 && tags[k][0] == "d" then tags[k][1] else DTagFrom(tags, k + 1)
  }

  predicate NamesSlot(tag: seq<string>) { |tag| >= 2 && tag[0] == "d" }

  method DTag(e: Event) returns (value: string)
    ensures value == DTagFrom(e.tags, 0)
    ensures forall k :: 0 <= k < |e.tags| && FirstSlot(e.tags, k) ==> value == e.tags[k][1]
    ensures (forall k :: 0 <= k < |e.tags| ==> !NamesSlot(e.tags[k])) ==> value == ""
  {
    for k := 0 to |e.tags|
      invariant DTagFrom(e.tags, 0) == DTagFrom(e.tags, k)
      invariant forall j :: 0 <= j < k ==> !NamesSlot(e.tags[j])
    {
      if |e.tags[k]| >= 2 && e.tags[k][0] == "d" {
        return e.tags[k][1];
      }
    }
    return "";
  }

  /** Tag k is the first that names a slot. */
  ghost predicate FirstSlot(tags: seq<seq<string>>, k: nat)
    requires k < |tags|
  {
    NamesSlot(tags[k]) && forall j :: 0 <= j < k ==> !NamesSlot(tags[j])
  }

  /** The value by position: that of the first tag that names a slot, or nothing. */
  lemma {:induction false} DTagIs(tags: seq<seq<string>>, from: nat, k: nat)
    requires from <= k <= |tags| && forall j :: from <= j < k ==> !NamesSlot(tags[j])
    ensures k < |tags| && NamesSlot(tags[k]) ==> DTagFrom(tags, from) == tags[k][1]
    ensures k == |tags| ==> DTagFrom(tags, from) == ""
    decreases k - from
  {
    if from < k {
      assert !NamesSlot(tags[from]);
      DTagIs(tags, from + 1, k);
    }
  }

  // ---- The event that the drop publishes ------------------------------------------------

  lemma SlotTag(u: string, identifier: string)
    ensures OpenTag(u, ["d", identifier]) == u + "[" + Quoted("d") + "," + Quoted(identifier)
    ensures OpenTags(u, [["d", identifier]]) == u + "[" + "[" + Quoted("d") + "," + Quoted(identifier) + "]"
  {
    hide Quoted;
    TwoStrings(u, "d", identifier);
    TwoStrings(u + "[", "d", identifier);
    var tags := [["d", identifier]];
    assert ListLead(u, tags) == u + "[";
  }

  lemma TwoStrings(u: string, a: string, b: string)
    ensures OpenTag(u, [a, b]) == u + "[" + Quoted(a) + "," + Quoted(b)
  {
    hide Quoted;
    assert [a, b][..1] == [a];
    assert TagLead(u, [a]) == u + "[";
    assert OpenTag(u, [a]) == u + "[" + Quoted(a);
    assert TagLead(u, [a, b]) == u + "[" + Quoted(a) + ",";
  }

  /** Written out, the canonical text of an event with the one tag that names its slot. */
  lemma PublishedText(e: Event, identifier: string)
    requires e.tags == [["d", identifier]]
    ensures Serialized(e)
         == "[0,\"" + e.pubKey + "\"," + FormatInt(e.createdAt) + "," + FormatInt(e.kind) + ","
          + "[" + "[" + Quoted("d") + "," + Quoted(identifier) + "]" + "]" + "," + Quoted(e.content) + "]"
    ensures DTagFrom(e.tags, 0) == identifier
  {
    hide Quoted, OpenTags, FormatInt;
    SlotTag(Header(e), identifier);
  }

  /** The escapes, one by one; every other byte from 0x20 on is written as it is. */
  lemma EscapesAre(c: char)
    ensures Escape('"') == "\\\"" && Escape('\\') == "\\\\" && Escape('\n') == "\\n" && Escape('\r') == "\\r"
    ensures Escape('\t') == "\\t" && Escape(8 as char) == "\\b" && Escape(12 as char) == "\\f"
    ensures Escape(1 as char) == "\\u0001" && Escape(31 as char) == "\\u001f"
    ensures c as int >= 0x20 && c != '"' && c != '\\' ==> Escape(c) == [c]
  {
  }
}
