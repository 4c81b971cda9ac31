/** Strings and optional values as the Python sources use them. */
module Text {
  datatype Option<+T> = None | Some(value: T) {
    function GetOr(default: T): T {
      if Some? then value else default
    }
  }

  /** The first index at or after `from` that holds `c`, or -1: Python's `s.find(c, from)`. */
  function Find(s: string, c: char, from: nat): (index: int)
    ensures -1 <= index < |s|
    ensures index == -1 ==> forall k | from <= k < |s| :: s[k] != c
    ensures index != -1 ==> from <= index && s[index] == c && forall k | from <= k < index :: s[k] != c
    decreases |s| - from
  {
    if |s| <= from then -1
    else if s[from] == c then from
    else Find(s, c, from + 1)
  }

  function Join(parts: seq<string>): string {
    if parts == [] then "" else parts[0] + Join(parts[1..])
  }

  lemma {:induction false} JoinAppend(left: seq<string>, right: seq<string>)
    ensures Join(left + right) == Join(left) + Join(right)
  {
    if left == [] {
      assert left + right == right;
    } else {
      JoinAppend(left[1..], right);
      assert (left + right)[1..] == left[1..] + right;
    }
  }

  /** Python's `s[-count:]` for any integer count: a zero count keeps everything, a negative one drops a prefix. */
  function NegativeSlice(s: string, count: int): string {
    if count > 0 then (if |s| <= count then s else s[|s| - count..])
    else if -count <= |s| then s[-count..]
    else ""
  }

  /** The elements a test keeps, in order: a filtering comprehension. */
  function Keep<T>(s: seq<T>, keep: T -> bool): seq<T> {
    if s == [] then []
    else
      var last := |s| - 1;
      Keep(s[..last], keep) + if keep(s[last]) then [s[last]] else []
  }

  lemma {:induction false} KeepMembers<T>(s: seq<T>, keep: T -> bool, x: T)
    ensures x in Keep(s, keep) <==> x in s && keep(x)
  {
    if s == [] {
    } else {
      KeepMembers(s[..|s| - 1], keep, x);
      assert s == s[..|s| - 1] + [s[|s| - 1]];
    }
  }

  /** The library call `fnmatch(name, selector)`. */
  type Glob = (string, string) -> bool

  predicate HasPattern(selector: string) {
    exists k | 0 <= k < |selector| :: selector[k] in "*?[]"
  }

  lemma PatternCharacters(selector: string)
    ensures HasPattern(selector) <==> '*' in selector || '?' in selector || '[' in selector || ']' in selector
  {
    if c :| c in selector && (c == '*' || c == '?' || c == '[' || c == ']') {
      var k :| 0 <= k < |selector| && selector[k] == c;
      assert selector[k] in "*?[]";
    }
  }

  predicate StartsWith(s: string, prefix: string) {
    prefix <= s
  }

  predicate Contains(s: string, part: string) {
    exists k | 0 <= k <= |s| :: part <= s[k..]
  }

  lemma ContainsMeaning(s: string, part: string)
    ensures Contains(s, part) <==> exists before, after :: s == before + part + after
  {
    if Contains(s, part) {
      var k :| 0 <= k <= |s| && part <= s[k..];
      assert s == s[..k] + part + s[k + |part|..];
    }
    if before, after :| s == before + part + after {
      assert s[|before|..] == part + after;
    }
  }

  lemma ContainsLonger(s: string, part: string, longer: string)
    requires part <= longer && Contains(s, longer)
    ensures Contains(s, part)
  {
  }

  /** The characters Python's `str.isspace` accepts. */
  predicate IsSpace(c: char) {
    c == ' ' || '\t' <= c <= '\r' || '\U{1C}' <= c <= '\U{1F}' || c == '\U{85}' || c == '\U{A0}' || c == '\U{1680}'
    || '\U{2000}' <= c <= '\U{200A}' || c in "\U{2028}\U{2029}\U{202F}\U{205F}\U{3000}"
  }

  /** Python's `s.strip()`. */
  function Strip(s: string): (r: string)
    ensures r == "" || (!IsSpace(r[0]) && !IsSpace(r[|r| - 1]))
    ensures |r| <= |s|
    decreases |s|
  {
    if s == "" then ""
    else if IsSpace(s[0]) then Strip(s[1..])
    else if IsSpace(s[|s| - 1]) then Strip(s[..|s| - 1])
    else s
  }

  predicate Blank(s: string) {
    forall k | 0 <= k < |s| :: IsSpace(s[k])
  }

  /** Stripping removes blanks from both ends and nothing else. */
  lemma {:induction false} StripMeaning(s: string) returns (before: string, after: string)
    ensures s == before + Strip(s) + after && Blank(before) && Blank(after)
    decreases |s|
  {
    hide IsSpace;
    if s == "" {
      return "", "";
    }
    var first, last := s[0], s[|s| - 1];
    if IsSpace(first) {
      assert Strip(s) == Strip(s[1..]) && s == [first] + s[1..];
      hide Strip;
      var rest;
      rest, after := StripMeaning(s[1..]);
      before := [first] + rest;
      assert s == before + Strip(s) + after;
    } else if IsSpace(last) {
      assert Strip(s) == Strip(s[..|s| - 1]) && s == s[..|s| - 1] + [last];
      hide Strip;
      var rest;
      before, rest := StripMeaning(s[..|s| - 1]);
      after := rest + [last];
      assert s == before + Strip(s) + after;
    } else {
      before, after := "", "";
    }
  }

  /** Strip, and read a blank string as absent. */
  function CoerceOptionalString(value: Option<string>): (r: Option<string>)
    ensures r.Some? ==> r.value != "" && Strip(r.value) == r.value
  {
    if value.None? || Strip(value.value) == "" then None else Some(Strip(value.value))
  }

  /** Python's `a or b` on optional strings: absent and empty are both falsy. */
  function Or(a: Option<string>, b: Option<string>): Option<string> {
    if a.Some? && a.value != "" then a else b
  }

  /** Python's `a <= b` on strings. */
  predicate TextLe(a: string, b: string) {
    a == "" || (b != "" && (a[0] < b[0] || (a[0] == b[0] && TextLe(a[1..], b[1..]))))
  }

  /** The order is decided by the first difference, and a prefix comes first. */
  lemma {:induction false} TextLeMeaning(common: string, a: string, b: string)
    ensures TextLe(common, common + b)
    ensures a != "" && b != "" && a[0] != b[0] ==> (TextLe(common + a, common + b) <==> a[0] < b[0])
    ensures a != "" && b == "" ==> !TextLe(common + a, common + b)
  {
    if common == "" {
      assert common + a == a && common + b == b;
    } else {
      TextLeMeaning(common[1..], a, b);
      assert (common + a)[1..] == common[1..] + a && (common + b)[1..] == common[1..] + b;
    }
  }

  lemma {:induction false} TextOrder(a: string, b: string, c: string)
    ensures TextLe(a, b) || TextLe(b, a)
    ensures TextLe(a, b) && TextLe(b, c) ==> TextLe(a, c)
  {
    if a != "" && b != "" {
      TextOrder(a[1..], b[1..], if c != "" then c[1..] else c);
    }
  }
}
