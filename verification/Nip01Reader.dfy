/**
  A reader of the canonical text: a JSON array of 0, a string, two numbers, a list of lists of
  strings, and a string, in the order NIP-01 gives for the public key, the time, the kind, the
  tags and the content.
 */
module Nip01Reader {
  import opened Options
  import opened Text
  import opened Nip01

  // ---- The reader -----------------------------------------------------------------------

  function Expect(text: string, c: char): Option<string> {
    if text != "" && text[0] == c then Some(text[1..]) else None
  }

  /** The inside of a string literal up to its closing quote, and what follows. */
  function ReadChars(text: string): Option<(string, string)>
    decreases |text|
  {
    if text == "" then None
    else if text[0] == '"' then Some(("", text[1..]))
    else match TakeByte(text)
      case None => None
      case Some((c, rest)) =>
        if |rest| >= |text| then None else
        match ReadChars(rest)
        case None => None
        case Some((s, after)) => Some(([c] + s, after))
  }

  function ReadString(text: string): (r: Option<(string, string)>)
    ensures r.Some? ==> |r.value.1| < |text|
  {
    match Expect(text, '"')
    case None => None
    case Some(inside) =>
      ReadsOn(inside);
      ReadChars(inside)
  }

  lemma ReadsOn(text: string)
    ensures ReadChars(text).Some? ==> |ReadChars(text).value.1| < |text|
    decreases |text|
  {
    if text != "" && text[0] != '"' && TakeByte(text).Some? {
      var rest := TakeByte(text).value.1;
      if |rest| < |text| {
        ReadsOn(rest);
      }
    }
  }

  /** One or more strings between commas, up to the closing bracket. */
  function ReadStrings(text: string): (r: Option<(seq<string>, string)>)
    ensures r.Some? ==> |r.value.1| < |text|
    decreases |text|
  {
    match ReadString(text)
    case None => None
    case Some((s, rest)) =>
      if rest != "" && rest[0] == ']' then Some(([s], rest[1..]))
      else if rest == "" || rest[0] != ',' then None
      else match ReadStrings(rest[1..])
        case None => None
        case Some((more, after)) => Some(([s] + more, after))
  }

  /** A bracketed list of strings. */
  function ReadTag(text: string): (r: Option<(seq<string>, string)>)
    ensures r.Some? ==> |r.value.1| < |text|
  {
    match Expect(text, '[')
    case None => None
    case Some(inside) =>
      if inside != "" && inside[0] == ']' then Some(([], inside[1..])) else ReadStrings(inside)
  }

  function ReadTags(text: string): (r: Option<(seq<seq<string>>, string)>)
    ensures r.Some? ==> |r.value.1| < |text|
    decreases |text|
  {
    match ReadTag(text)
    case None => None
    case Some((tag, rest)) =>
      if rest != "" && rest[0] == ']' then Some(([tag], rest[1..]))
      else if rest == "" || rest[0] != ',' then None
      else match ReadTags(rest[1..])
        case None => None
        case Some((more, after)) => Some(([tag] + more, after))
  }

  /** A bracketed list of tags. */
  function ReadTagList(text: string): Option<(seq<seq<string>>, string)> {
    match Expect(text, '[')
    case None => None
    case Some(inside) =>
      if inside != "" && inside[0] == ']' then Some(([], inside[1..])) else ReadTags(inside)
  }

  /** The text up to the next comma as a decimal number, and what follows the comma. */
  function ReadNumber(text: string): Option<(int, string)> {
    var k := IndexOf(text, ',');
    if k == |text| || k == 0 then None else
    match ParseDigits(if text[0] == '-' then text[1..k] else text[..k])
    case None => None
    case Some(n) => Some((if text[0] == '-' then 0 - n else n as int, text[k + 1..]))
  }

  datatype Fields = Fields(pubKey: string, createdAt: int, kind: int, tags: seq<seq<string>>, content: string)

  /** The content and the end of the array. */
  function ReadContent(text: string): Option<string> {
    match ReadString(text)
    case None => None
    case Some((content, rest)) => if rest == "]" then Some(content) else None
  }

  function ReadBody(text: string): Option<(seq<seq<string>>, string)> {
    match ReadTagList(text)
    case None => None
    case Some((tags, rest)) =>
      match Expect(rest, ',')
      case None => None
      case Some(last) =>
        match ReadContent(last)
        case None => None
        case Some(content) => Some((tags, content))
  }

  /** pubkey, created_at, kind, tags, content. */
  function ReadEvent(text: string): Option<Fields> {
    if |text| < 3 || text[..3] != "[0," then None else
    match ReadString(text[3..])
    case None => None
    case Some((pubKey, r1)) =>
      match Expect(r1, ',')
      case None => None
      case Some(r2) =>
        match ReadNumber(r2)
        case None => None
        case Some((createdAt, r3)) =>
          match ReadNumber(r3)
          case None => None
          case Some((kind, r4)) =>
            match ReadBody(r4)
            case None => None
            case Some((tags, content)) => Some(Fields(pubKey, createdAt, kind, tags, content))
  }

  // ---- Reading what was written ---------------------------------------------------------

  lemma {:induction false} CharsRead(s: string, rest: string)
    ensures ReadChars(Escaped(s) + "\"" + rest) == Some((s, rest))
  {
    if s == "" {
      var text := "\"" + rest;
      assert Escaped(s) + "\"" + rest == text;
      assert text[0] == '"' && text[1..] == rest;
    } else {
      CharsRead(s[1..], rest);
      assert s == [s[0]] + s[1..];
      EscapedCons(s[0], s[1..]);
      var more := Escaped(s[1..]) + "\"" + rest;
      var text := Escape(s[0]) + more;
      assert Escaped(s) + "\"" + rest == text by {
        hide Escape, Escaped, ReadChars;
      }
      TakeEscaped(s[0], more);
      EscapeStart(s[0]);
      assert text[0] == Escape(s[0])[0];
      hide Escape, Escaped, TakeByte;
    }
  }

  lemma EscapeStart(c: char)
    ensures Escape(c) != "" && Escape(c)[0] != '"'
  {
  }

  lemma StringRead(s: string, rest: string)
    ensures ReadString(Quoted(s) + rest) == Some((s, rest))
  {
    CharsRead(s, rest);
    var text := Quoted(s) + rest;
    assert text[0] == '"' && text[1..] == Escaped(s) + "\"" + rest;
    hide Escaped, ReadChars, Quoted;
  }

  /** A public key needs no escapes: it holds no quote and no backslash. */
  lemma {:induction false} PlainRead(s: string, rest: string)
    requires '"' !in s && '\\' !in s
    ensures ReadChars(s + "\"" + rest) == Some((s, rest))
  {
    var text := s + "\"" + rest;
    if s == "" {
      assert text[0] == '"' && text[1..] == rest;
    } else {
      PlainRead(s[1..], rest);
      assert text[0] == s[0] && s[0] in s;
      assert text[1..] == s[1..] + "\"" + rest;
      assert TakeByte(text) == Some((s[0], text[1..]));
      hide TakeByte;
      assert s == [s[0]] + s[1..];
    }
  }

  lemma NumberRead(i: int, rest: string)
    ensures ReadNumber(FormatInt(i) + "," + rest) == Some((i, rest))
  {
    var f := FormatInt(i);
    var n: nat := if i < 0 then -i else i;
    ParseDigitsInverts(n);
    assert ',' !in f;
    var text := f + "," + rest;
    assert IndexOf(text, ',') == |f| by {
      IndexOfField(f, ',', rest);
      assert f + [','] + rest == text;
    }
    assert text[..|f|] == f && text[|f| + 1..] == rest && text[0] == f[0];
    assert f[0] == '-' <==> i < 0;
    assert i < 0 ==> text[1..|f|] == Digits(n);
    hide Digits, ParseDigits, IndexOf;
  }

  // ---- Lists from the front -------------------------------------------------------------

  /** The strings of a tag with commas between them, first to last. */
  function Listed(tag: seq<string>): string {
    if tag == [] then "" else if |tag| == 1 then Quoted(tag[0]) else Quoted(tag[0]) + ("," + Listed(tag[1..]))
  }

  lemma {:induction false} ListedGrows(tag: seq<string>, x: string)
    requires tag != []
    ensures Listed(tag + [x]) == Listed(tag) + ("," + Quoted(x))
  {
    hide Quoted;
    var all := tag + [x];
    assert all[1..] == tag[1..] + [x] && all[0] == tag[0];
    if |tag| == 1 {
      assert tag[1..] + [x] == [x];
      assert Listed([x]) == Quoted(x);
    } else {
      ListedGrows(tag[1..], x);
      hide Listed;
      Shift(Quoted(tag[0]), "," + Listed(tag[1..]), "," + Quoted(x));
      Shift(",", Listed(tag[1..]), "," + Quoted(x));
      ListedCons(tag);
      ListedCons(all);
    }
  }

  lemma ListedCons(tag: seq<string>)
    requires |tag| > 1
    ensures Listed(tag) == Quoted(tag[0]) + ("," + Listed(tag[1..]))
  {
  }

  lemma Shift(a: string, b: string, c: string)
    ensures (a + b) + c == a + (b + c)
  {
  }

  lemma OpenTagListed(u: string, tag: seq<string>)
    ensures OpenTag(u, tag) == u + ("[" + Listed(tag))
    decreases |tag|
  {
    hide Quoted, Listed;
    if tag == [] {
      assert Listed(tag) == "" by { ListedNone(); }
      assert "[" + "" == "[";
    } else {
      var n := |tag| - 1;
      var front, x := tag[..n], tag[n];
      assert tag == front + [x];
      OpenTagListed(u, front);
      if n == 0 {
        assert tag == [x];
        ListedOne(x);
        Shift(u, "[", Quoted(x));
      } else {
        ListedGrows(front, x);
        Shift(u, "[" + Listed(front), "," + Quoted(x));
        Shift("[", Listed(front), "," + Quoted(x));
        Shift(u + ("[" + Listed(front)), ",", Quoted(x));
      }
    }
  }

  lemma ListedNone()
    ensures Listed([]) == ""
  {
  }

  lemma ListedOne(x: string)
    ensures Listed([x]) == Quoted(x)
  {
  }

  lemma QuotedStart(s: string, rest: string)
    ensures (Quoted(s) + rest)[0] == '"'
  {
  }

  lemma {:induction false} ListedRead(tag: seq<string>, rest: string)
    requires tag != []
    ensures ReadStrings(Listed(tag) + ("]" + rest)) == Some((tag, rest))
    ensures Listed(tag) != "" && Listed(tag)[0] == '"'
  {
    hide ReadString;
    var end := "]" + rest;
    assert end[0] == ']' && end[1..] == rest;
    QuotedStart(tag[0], "");
    assert Quoted(tag[0]) + "" == Quoted(tag[0]);
    hide Quoted;
    if |tag| == 1 {
      assert tag == [tag[0]];
      StringRead(tag[0], end);
    } else {
      ListedRead(tag[1..], rest);
      var more := Listed(tag[1..]) + end;
      ListedCons(tag);
      hide Listed;
      Shift(Quoted(tag[0]), "," + Listed(tag[1..]), end);
      Shift(",", Listed(tag[1..]), end);
      StringRead(tag[0], "," + more);
      assert ("," + more)[0] == ',' && ("," + more)[1..] == more;
      assert tag == [tag[0]] + tag[1..];
    }
  }

  /** A tag in its brackets. */
  function Bracketed(tag: seq<string>): string { "[" + (Listed(tag) + "]") }

  lemma TagRead(tag: seq<string>, rest: string)
    ensures ReadTag(Bracketed(tag) + rest) == Some((tag, rest)) && Bracketed(tag)[0] == '['
  {
    var inside := Listed(tag) + ("]" + rest);
    Shift("[", Listed(tag) + "]", rest);
    Shift(Listed(tag), "]", rest);
    var text := "[" + inside;
    assert Bracketed(tag) + rest == text;
    assert text[0] == '[' && text[1..] == inside;
    if tag == [] {
      assert Listed(tag) == "" && inside == "]" + rest;
      assert inside[0] == ']' && inside[1..] == rest;
    } else {
      ListedRead(tag, rest);
      hide Listed, ReadStrings;
      assert inside[0] == '"';
    }
  }

  /** The tags with commas between them, first to last. */
  function ListedTags(tags: seq<seq<string>>): string {
    if tags == [] then "" else if |tags| == 1 then Bracketed(tags[0])
    else Bracketed(tags[0]) + ("," + ListedTags(tags[1..]))
  }

  lemma ListedTagsCons(tags: seq<seq<string>>)
    requires |tags| > 1
    ensures ListedTags(tags) == Bracketed(tags[0]) + ("," + ListedTags(tags[1..]))
  {
  }

  lemma ListedTagsFew(x: seq<string>)
    ensures ListedTags([]) == "" && ListedTags([x]) == Bracketed(x)
  {
  }

  lemma {:induction false} ListedTagsGrow(tags: seq<seq<string>>, x: seq<string>)
    requires tags != []
    ensures ListedTags(tags + [x]) == ListedTags(tags) + ("," + Bracketed(x))
  {
    hide Bracketed;
    var all := tags + [x];
    assert all[1..] == tags[1..] + [x] && all[0] == tags[0];
    if |tags| == 1 {
      assert tags[1..] + [x] == [x];
      assert ListedTags([x]) == Bracketed(x);
    } else {
      ListedTagsGrow(tags[1..], x);
      ListedTagsCons(tags);
      ListedTagsCons(all);
      hide ListedTags;
      Shift(Bracketed(tags[0]), "," + ListedTags(tags[1..]), "," + Bracketed(x));
      Shift(",", ListedTags(tags[1..]), "," + Bracketed(x));
    }
  }

  lemma OpenTagBracketed(u: string, tag: seq<string>)
    ensures Plus(OpenTag(u, tag), ']') == u + Bracketed(tag)
  {
    hide Listed, OpenTag;
    OpenTagListed(u, tag);
    Shift(u, "[" + Listed(tag), "]");
    Shift("[", Listed(tag), "]");
  }

  lemma OpenTagsListed(u: string, tags: seq<seq<string>>)
    ensures OpenTags(u, tags) == u + ("[" + ListedTags(tags))
    decreases |tags|
  {
    hide OpenTag, ListedTags, Bracketed;
    if tags == [] {
      ListedTagsFew([]);
      assert "[" + "" == "[";
    } else {
      var n := |tags| - 1;
      var front, x := tags[..n], tags[n];
      assert tags == front + [x];
      OpenTagsListed(u, front);
      OpenTagBracketed(ListLead(u, tags), x);
      if n == 0 {
        assert tags == [x];
        ListedTagsFew(x);
        Shift(u, "[", Bracketed(x));
      } else {
        ListedTagsGrow(front, x);
        Shift(u, "[" + ListedTags(front), "," + Bracketed(x));
        Shift("[", ListedTags(front), "," + Bracketed(x));
        Shift(u + ("[" + ListedTags(front)), ",", Bracketed(x));
      }
    }
  }

  lemma {:induction false} TagsRead(tags: seq<seq<string>>, rest: string)
    requires tags != []
    ensures ReadTags(ListedTags(tags) + ("]" + rest)) == Some((tags, rest))
    ensures ListedTags(tags) != "" && ListedTags(tags)[0] == '['
  {
    hide ReadTag;
    var end := "]" + rest;
    assert end[0] == ']' && end[1..] == rest;
    if |tags| == 1 {
      assert tags == [tags[0]];
      TagRead(tags[0], end);
      hide Bracketed;
    } else {
      TagsRead(tags[1..], rest);
      var more := ListedTags(tags[1..]) + end;
      ListedTagsCons(tags);
      TagRead(tags[0], "," + more);
      hide ListedTags, Bracketed;
      Shift(Bracketed(tags[0]), "," + ListedTags(tags[1..]), end);
      Shift(",", ListedTags(tags[1..]), end);
      assert ("," + more)[0] == ',' && ("," + more)[1..] == more;
      assert tags == [tags[0]] + tags[1..];
    }
  }

  lemma TagListRead(tags: seq<seq<string>>, rest: string)
    ensures ReadTagList("[" + (ListedTags(tags) + ("]" + rest))) == Some((tags, rest))
  {
    var inside := ListedTags(tags) + ("]" + rest);
    var text := "[" + inside;
    assert text[0] == '[' && text[1..] == inside;
    if tags == [] {
      assert ListedTags(tags) == "" && inside == "]" + rest;
      assert inside[0] == ']' && inside[1..] == rest;
    } else {
      TagsRead(tags, rest);
      hide ListedTags, ReadTags;
      assert inside[0] == '[';
    }
  }

  // ---- The whole event ------------------------------------------------------------------

  /** The text from the tags on. */
  function Tail(e: Event): string {
    "[" + (ListedTags(e.tags) + ("]" + ("," + (Quoted(e.content) + "]"))))
  }

  lemma TailRead(e: Event)
    ensures ReadBody(Tail(e)) == Some((e.tags, e.content))
  {
    var last := Quoted(e.content) + "]";
    TagListRead(e.tags, "," + last);
    assert ("," + last)[0] == ',' && ("," + last)[1..] == last;
    StringRead(e.content, "]");
    hide ReadTagList, ReadString, ListedTags, Quoted;
  }

  /** The canonical text, part by part in NIP-01's order. */
  lemma CanonicalText(e: Event)
    ensures var numbers := FormatInt(e.createdAt) + "," + (FormatInt(e.kind) + "," + Tail(e));
      Serialized(e) == "[0," + ("\"" + (e.pubKey + "\"") + ("," + numbers))
  {
    HeaderParts(e);
    OpenTagsListed(Header(e), e.tags);
    var t, c := ListedTags(e.tags), Quoted(e.content);
    hide Header, OpenTags, ListedTags, Quoted, FormatInt;
    Shift(Header(e), "[" + t, "]");
    Shift("[", t, "]");
    Regroup(Header(e), t, c);
    var h, k := FormatInt(e.createdAt), FormatInt(e.kind);
    Rejoin("\"" + (e.pubKey + "\""), h, k, Tail(e));
  }

  lemma HeaderParts(e: Event)
    ensures Header(e)
         == "[0," + ("\"" + (e.pubKey + "\"") + ("," + (FormatInt(e.createdAt) + "," + (FormatInt(e.kind) + ","))))
  {
    hide FormatInt;
  }

  lemma Regroup(h: string, t: string, c: string)
    ensures ((((h + ("[" + t)) + "]") + ",") + c) + "]" == h + ("[" + (t + ("]" + ("," + (c + "]")))))
  {
  }

  lemma Rejoin(p: string, h: string, k: string, tail: string)
    ensures ("[0," + (p + ("," + (h + "," + (k + ","))))) + tail
         == "[0," + (p + ("," + (h + "," + (k + "," + tail))))
  {
  }

  /** The reader finds each field where NIP-01 puts it, for every public key without escapes. */
  lemma ReadsBack(e: Event)
    requires '"' !in e.pubKey && '\\' !in e.pubKey
    ensures ReadEvent(Serialized(e)) == Some(Fields(e.pubKey, e.createdAt, e.kind, e.tags, e.content))
  {
    CanonicalText(e);
    TailRead(e);
    var r4 := Tail(e);
    var r3 := FormatInt(e.kind) + "," + r4;
    NumberRead(e.kind, r4);
    var r2 := FormatInt(e.createdAt) + "," + r3;
    NumberRead(e.createdAt, r3);
    hide Tail, ReadBody, ReadNumber, FormatInt, Serialized, ReadChars;
    var r1 := "," + r2;
    assert r1[0] == ',' && r1[1..] == r2;
    PlainRead(e.pubKey, r1);
    var text := "\"" + (e.pubKey + "\"") + r1;
    assert text[0] == '"' && text[1..] == e.pubKey + "\"" + r1;
    var all := "[0," + text;
    assert all[..3] == "[0," && all[3..] == text;
  }
}
