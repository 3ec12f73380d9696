/** Text as the programs handle it: fields split at a separator, and decimal numbers. */
module Text {
  import opened Options

  // ---- Splitting ------------------------------------------------------------------------

  /** The first position of c, or |s|. */
  function IndexOf(s: string, c: char): (i: nat)
    ensures i <= |s| && (i < |s| ==> s[i] == c)
    ensures forall k :: 0 <= k < i ==> s[k] != c
  {
    if s == [] then 0 else if s[0] == c then 0 else 1 + IndexOf(s[1..], c)
  }

  /** strings.SplitN: at most n fields, the last holding whatever remains. */
  function SplitN(s: string, c: char, n: nat): (fields: seq<string>)
    requires n > 0
    ensures 1 <= |fields| <= n
    decreases n
  {
    if n == 1 || IndexOf(s, c) == |s| then [s]
    else [s[..IndexOf(s, c)]] + SplitN(s[IndexOf(s, c) + 1..], c, n - 1)
  }

  lemma IndexOfField(field: string, c: char, rest: string)
    requires c !in field
    ensures IndexOf(field + [c] + rest, c) == |field|
  {
    var s := field + [c] + rest;
    assert s[|field|] == c;
    assert forall k :: 0 <= k < |field| ==> s[k] == field[k];
  }

  /** A field without the separator is split off whole. */
  lemma SplitField(field: string, c: char, rest: string, n: nat)
    requires c !in field && n > 1
    ensures SplitN(field + [c] + rest, c, n) == [field] + SplitN(rest, c, n - 1)
  {
    IndexOfField(field, c, rest);
    var s := field + [c] + rest;
    assert s[..|field|] == field && s[|field| + 1..] == rest;
  }

  // ---- Decimal numbers ------------------------------------------------------------------

  const MAX_INT: int := 0x7FFF_FFFF_FFFF_FFFF

  predicate Digit(c: char) { '0' <= c <= '9' }

  function DigitChar(d: nat): char
    requires d < 10
  {
    '0' + d as char
  }

  /** The decimal digits of n. */
  function Digits(n: nat): (s: string)
    ensures |s| > 0 && forall k :: 0 <= k < |s| ==> Digit(s[k])
  {
    if n < 10 then [DigitChar(n)] else Digits(n / 10) + [DigitChar(n % 10)]
  }

  /** strconv.FormatInt base 10. */
  function FormatInt(i: int): string { if i < 0 then "-" + Digits(-i) else Digits(i) }

  /** The value of a non-empty string of digits. */
  function ParseDigits(s: string): Option<nat> {
    if s == [] || !Digit(s[|s| - 1]) then None
    else if |s| == 1 then Some((s[0] - '0') as nat)
    else match ParseDigits(s[..|s| - 1])
      case None => None
      case Some(high) => Some(10 * high + (s[|s| - 1] - '0') as nat)
  }

  /** strconv.Atoi on a 64-bit machine: an optional sign, digits, and a range check. */
  function Atoi(s: string): Option<int> {
    if s == [] then None else
    var signed := s[0] == '-' || s[0] == '+';
    match ParseDigits(if signed then s[1..] else s)
    case None => None
    case Some(n) =>
      var i := if s[0] == '-' then 0 - n else n as int;
      if -MAX_INT - 1 <= i <= MAX_INT then Some(i) else None
  }

  lemma {:induction false} ParseDigitsInverts(n: nat)
    ensures ParseDigits(Digits(n)) == Some(n)
  {
    if n >= 10 {
      ParseDigitsInverts(n / 10);
      var s := Digits(n);
      assert s[..|s| - 1] == Digits(n / 10);
    }
  }

  lemma AtoiInverts(i: int)
    requires -MAX_INT - 1 <= i <= MAX_INT
    ensures Atoi(FormatInt(i)) == Some(i)
  {
    var n: nat := if i < 0 then -i else i;
    ParseDigitsInverts(n);
    var s := FormatInt(i);
    if i < 0 {
      assert s[0] == '-' && s[1..] == Digits(n);
    } else {
      assert Digit(s[0]);
    }
  }

  lemma {:induction false} FewDigits(n: nat)
    ensures n < 10 ==> |Digits(n)| == 1
    ensures n < 100 ==> |Digits(n)| <= 2
    ensures n < 1000 ==> |Digits(n)| <= 3
  {
    if n >= 10 {
      FewDigits(n / 10);
    }
  }

  // ---- Byte order -----------------------------------------------------------------------

  predicate Before(a: string, b: string) {
    b != "" && (a == "" || a[0] < b[0] || (a[0] == b[0] && Before(a[1..], b[1..])))
  }

  lemma {:induction false} BeforeTransitive(a: string, b: string, c: string)
    requires Before(a, b) && Before(b, c)
    ensures Before(a, c)
  {
    if a != "" && a[0] == b[0] && b[0] == c[0] {
      BeforeTransitive(a[1..], b[1..], c[1..]);
    }
  }

  lemma {:induction false} BeforeTotal(a: string, b: string)
    ensures Before(a, b) || Before(b, a) || a == b
  {
    if a != "" && b != "" && a[0] == b[0] {
      BeforeTotal(a[1..], b[1..]);
      assert a == [a[0]] + a[1..] && b == [b[0]] + b[1..];
    }
  }

  lemma {:induction false} BeforeIrreflexive(a: string)
    ensures !Before(a, a)
  {
    if a != "" {
      BeforeIrreflexive(a[1..]);
    }
  }

  /** Byte order, without recursion: the first difference decides, and a prefix comes first. */
  lemma {:induction false} BeforeIs(a: string, b: string, k: nat)
    requires k <= |a| && k <= |b| && a[..k] == b[..k] && (k == |a| || k == |b| || a[k] != b[k])
    ensures Before(a, b) <==> k < |b| && (k == |a| || a[k] < b[k])
  {
    if k > 0 {
      assert a[0] == a[..k][0] == b[..k][0] == b[0];
      assert a[1..][..k - 1] == a[..k][1..] && b[1..][..k - 1] == b[..k][1..];
      BeforeIs(a[1..], b[1..], k - 1);
    }
  }

  /** Decimal, most significant digit first. */
  lemma DecimalSample()
    ensures Digits(30078) == "30078" && FormatInt(-15) == "-15"
  {
    assert Digits(3) == "3" && Digits(30) == "30" && Digits(300) == "300" && Digits(3007) == "3007";
  }

  /** A sign is allowed, an empty or foreign text is not. */
  lemma AtoiSamples()
    ensures Atoi("+7") == Some(7) && Atoi("") == None && Atoi("-") == None && Atoi("7x") == None
  {
    assert "+7"[1..] == "7" && "-"[1..] == "";
    assert ParseDigits("7") == Some(7) && ParseDigits("") == None && ParseDigits("7x") == None;
  }
}
