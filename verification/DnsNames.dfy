/** DNS labels and domains, as the directory accepts them. */
module DnsNames {
  import opened Text

  predicate LabelChar(c: char) { 'a' <= c <= 'z' || 'A' <= c <= 'Z' || '0' <= c <= '9' || c == '-' }

  predicate Label(name: string) {
    && 1 <= |name| <= 63 && name[0] != '-' && name[|name| - 1] != '-'
    && forall i :: 0 <= i < |name| ==> LabelChar(name[i])
  }

  method ValidateLabel(name: string) returns (ok: bool)
    ensures ok <==> Label(name)
  {
    if name == "" || |name| > 63 || name[0] == '-' || name[|name| - 1] == '-' {
      return false;
    }
    for i := 0 to |name|
      invariant forall k :: 0 <= k < i ==> LabelChar(name[k])
    {
      if !LabelChar(name[i]) {
        return false;
      }
    }
    return true;
  }

  /** The parts of a name between its dots. */
  function Labels(domain: string): seq<string> { SplitN(domain, '.', |domain| + 1) }

  /** The library's part: lower case, and whether a text is an IP address. */
  datatype Names = Names(lower: string -> string, address: string -> bool)

  function TrimDot(domain: string): string {
    if domain != "" && domain[|domain| - 1] == '.' then domain[..|domain| - 1] else domain
  }

  predicate Domain(domain: string, names: Names) {
    && 1 <= |domain| <= 253 && domain == (names.lower)(TrimDot(domain)) && !(names.address)(domain)
    && forall i :: 0 <= i < |Labels(domain)| ==> Label(Labels(domain)[i])
  }

  method ValidateDomain(domain: string, names: Names) returns (ok: bool)
    ensures ok <==> Domain(domain, names)
  {
    if domain == "" || |domain| > 253 || domain != (names.lower)(TrimDot(domain)) || (names.address)(domain) {
      return false;
    }
    var labels := Labels(domain);
    hide Labels, Label;
    for i := 0 to |labels|
      invariant forall k :: 0 <= k < i ==> Label(labels[k])
    {
      var valid := ValidateLabel(labels[i]);
      if !valid {
        return false;
      }
    }
    return true;
  }

  /** A character of a text is the separator or in one of the fields. */
  lemma {:induction false} InSomeField(s: string, c: char, n: nat, x: char)
    requires n > 0 && x in s && x != c
    ensures exists i :: 0 <= i < |SplitN(s, c, n)| && x in SplitN(s, c, n)[i]
    decreases n
  {
    var fields := SplitN(s, c, n);
    if n == 1 || IndexOf(s, c) == |s| {
      assert fields[0] == s;
    } else {
      var k := IndexOf(s, c);
      assert s == s[..k] + [c] + s[k + 1..];
      if x in s[..k] {
        assert x in fields[0];
      } else {
        InSomeField(s[k + 1..], c, n - 1, x);
        var rest := SplitN(s[k + 1..], c, n - 1);
        var i :| 0 <= i < |rest| && x in rest[i];
        assert fields[i + 1] == rest[i];
      }
    }
  }

  /** An accepted domain consists of label characters and dots. */
  lemma DomainCharacters(domain: string, names: Names, x: char)
    requires Domain(domain, names) && x in domain
    ensures LabelChar(x) || x == '.'
  {
    if x != '.' {
      InSomeField(domain, '.', |domain| + 1, x);
      var i :| 0 <= i < |Labels(domain)| && x in Labels(domain)[i];
      assert Label(Labels(domain)[i]);
    }
  }
}
