/**
 * Where the token semantics of selectors agrees with the library's `fnmatch`, which decides what a profile really
 * matches, and where the two part ways.
 */
module LibraryGlobs {
  import opened Text
  import opened SelectorPatterns
  import opened ContextWindowProfiles

  // ---- the fragment both read alike --------------------------------------------------------------

  /** Class members without a stray hyphen: single characters, and ranges in rising order. */
  predicate PlainItems(items: string) {
    items == ""
    || (items[0] != '-'
        && if |items| > 2 && items[1] == '-' then items[2] != '-' && items[0] <= items[2] && PlainItems(items[3..])
           else PlainItems(items[1..]))
  }

  /** Not empty, even after a leading `!`, and without a leading `^`, which only the tokenizer reads as negation. */
  predicate PlainBody(body: string) {
    body != "" && body[0] != '^'
    && if body[0] == '!' then body[1..] != "" && PlainItems(body[1..]) else PlainItems(body)
  }

  /** The body of the class that opens the pattern, if one does. */
  function FirstBody(pattern: string): Option<string>
    requires pattern != ""
  {
    var closing := Find(pattern, ']', 1);
    if pattern[0] == '[' && closing != -1 then Some(pattern[1..closing]) else None
  }

  function Rest(pattern: string): (rest: string)
    requires pattern != ""
    ensures |rest| < |pattern|
  {
    pattern[FirstToken(pattern, 0).1..]
  }

  predicate Plain(pattern: string)
    decreases |pattern|
  {
    pattern == "" || ((FirstBody(pattern).Some? ==> PlainBody(FirstBody(pattern).value)) && Plain(Rest(pattern)))
  }

  // ---- the library on that fragment --------------------------------------------------------------

  predicate InItems(c: char, items: string) {
    items != ""
    && if |items| > 2 && items[1] == '-' then items[0] <= c <= items[2] || InItems(c, items[3..])
       else c == items[0] || InItems(c, items[1..])
  }

  predicate InClass(c: char, body: string) {
    if body != "" && body[0] == '!' then !InItems(c, body[1..]) else InItems(c, body)
  }

  /** One character against the first item of a pattern that is no star. */
  predicate FirstMatches(pattern: string, c: char)
    requires pattern != ""
  {
    if pattern[0] == '?' then true
    else if FirstBody(pattern).Some? then InClass(c, FirstBody(pattern).value)
    else c == pattern[0]
  }

  /** `fnmatch(name, pattern)` for a plain pattern, on a platform that does not fold case. */
  predicate FnMatches(pattern: string, name: string)
    requires Plain(pattern)
    decreases |pattern|
  {
    if pattern == "" then name == ""
    else if pattern[0] == '*' then exists k | 0 <= k <= |name| :: FnMatches(Rest(pattern), name[k..])
    else name != "" && FirstMatches(pattern, name[0]) && FnMatches(Rest(pattern), name[1..])
  }

  ghost predicate IsLibrary(glob: Glob) {
    forall name, selector :: Plain(selector) ==> glob(name, selector) == FnMatches(selector, name)
  }

  predicate Printable(name: string) {
    forall k | 0 <= k < |name| :: '!' <= name[k] <= '~'
  }

  // ---- agreement ---------------------------------------------------------------------------------

  lemma {:induction false} ItemsAreListed(items: string, c: char)
    requires PlainItems(items)
    ensures InItems(c, items) <==> c in Listed(items)
  {
    if items == "" {
    } else if |items| > 2 && items[1] == '-' {
      ItemsAreListed(items[3..], c);
    } else {
      ItemsAreListed(items[1..], c);
    }
  }

  lemma ClassesAgree(body: string, c: char)
    requires PlainBody(body) && '!' <= c <= '~'
    ensures InClass(c, body) <==> c in ClassChars(body)
  {
    AlphabetIsPrintable(c);
    ItemsAreListed(if body[0] == '!' then body[1..] else body, c);
  }

  lemma FirstAgrees(pattern: string, c: char)
    requires pattern != "" && Plain(pattern) && pattern[0] != '*' && '!' <= c <= '~'
    ensures FirstToken(pattern, 0).0.Chars?
    ensures FirstMatches(pattern, c) <==> c in FirstToken(pattern, 0).0.chars
  {
    hide InClass, ClassChars, PlainBody;
    AlphabetIsPrintable(c);
    if FirstBody(pattern).Some? {
      ClassesAgree(FirstBody(pattern).value, c);
    }
  }

  /** On plain patterns and printable names the library and the tokens agree. */
  lemma {:induction false} TokensAgreeWithLibrary(pattern: string, name: string)
    requires Plain(pattern) && Printable(name)
    ensures FnMatches(pattern, name) <==> Accepts(Tokenize(pattern), name)
    decreases |pattern|
  {
    hide FirstMatches, FirstToken;
    if pattern == "" {
    } else {
      var tokens := Tokenize(pattern);
      assert tokens[0] == FirstToken(pattern, 0).0 && tokens[1..] == Tokenize(Rest(pattern));
      if pattern[0] == '*' {
        StarIsStar(pattern);
        forall k | 0 <= k <= |name|
          ensures FnMatches(Rest(pattern), name[k..]) <==> Accepts(tokens[1..], name[k..])
        {
          TokensAgreeWithLibrary(Rest(pattern), name[k..]);
        }
      } else if name != "" {
        FirstAgrees(pattern, name[0]);
        TokensAgreeWithLibrary(Rest(pattern), name[1..]);
      } else {
        FirstAgrees(pattern, 'a');
      }
    }
  }

  lemma StarIsStar(pattern: string)
    requires pattern != "" && pattern[0] == '*'
    ensures FirstToken(pattern, 0).0 == Star
  {
  }

  /** A validated list of plain selectors is never ambiguous for a concrete provider and a printable model name, with
      the library itself as the glob. */
  lemma ValidatedNeverAmbiguousInLibrary(profiles: seq<Profile>, provider: string, model: Option<string>,
                                         profileRef: Option<string>, glob: Glob)
    requires Diagnostics(profiles) == [] && IsLibrary(glob)
    requires forall k | 0 <= k < |profiles| :: profiles[k].Kind() == Pattern ==> Plain(profiles[k].modelSelector.value)
    requires model.Some? ==> Printable(model.value)
    ensures !Resolve(Some(provider), model, profiles, profileRef, glob).Ambiguous()
  {
    hide Resolve, Diagnostics, Tokenize, Accepts, Plain, FnMatches, Printable;
    forall k | 0 <= k < |profiles| && profiles[k].Kind() == Pattern && model.Some?
      ensures glob(model.value, profiles[k].modelSelector.value)
              ==> Accepts(Tokenize(profiles[k].modelSelector.value), model.value)
    {
      TokensAgreeWithLibrary(profiles[k].modelSelector.value, model.value);
    }
    ValidatedNeverAmbiguous(profiles, provider, model, profileRef, glob);
  }

  // ---- disagreement ------------------------------------------------------------------------------

  function PatternProfile(selector: string): Profile {
    Profile(Some("p"), Some(selector), None, None, None)
  }

  /** A glob that accepts a name under two selectors with disjoint tokens makes a validated list ambiguous. */
  lemma DisagreementIsAmbiguous(left: string, right: string, name: string, glob: Glob)
    requires HasPattern(left) && HasPattern(right) && left != right && !PatternsOverlap(left, right)
    requires glob(name, left) && glob(name, right)
    ensures var list := [PatternProfile(left), PatternProfile(right)];
            Diagnostics(list) == [] && Resolve(Some("p"), Some(name), list, None, glob) == AmbiguousKind(Pattern)
  {
    hide PatternsOverlap, HasPattern, Diagnostics, Keep;
    var list := [PatternProfile(left), PatternProfile(right)];
    assert PairDiagnostics(list[1], list[0]) == [] by { OverlapEitherWay(left, right); }
    CleanPairwise(list);
    forall kind
      ensures |Keep(list, MatchedAs(kind, Some("p"), Some(name), glob))| > 1 <==> kind == Pattern
      ensures |Keep(list, MatchedAs(kind, Some("p"), Some(name), glob))| >= 1 <==> kind == Pattern
    {
      var keep := MatchedAs(kind, Some("p"), Some(name), glob);
      SelectedTwice(list, keep);
      assert keep(list[0]) == keep(list[1]) == (kind == Pattern);
    }
  }

  lemma OverlapEitherWay(left: string, right: string)
    ensures PatternsOverlap(left, right) == PatternsOverlap(right, left)
  {
    IntersectsSymmetric(Tokenize(left), Tokenize(right), 0, 0);
  }

  lemma OneClass(pattern: string, body: string)
    requires pattern == "[" + body + "]" && forall k | 0 <= k < |body| :: body[k] != ']'
    ensures HasPattern(pattern) && Tokenize(pattern) == [Chars(ClassChars(body))]
  {
    hide ClassChars;
    assert pattern[0] == '[';
    var token := (Chars(ClassChars(body)), |pattern|);
    assert FirstToken(pattern, 0) == token by {
      hide Tokenize;
      ClosingAt(pattern, body);
    }
    assert Tokenize(pattern) == [token.0] + Tokenize(pattern[|pattern|..]);
    assert pattern[|pattern|..] == "" && Tokenize("") == [];
  }

  lemma ClosingAt(pattern: string, body: string)
    requires pattern == "[" + body + "]" && forall k | 0 <= k < |body| :: body[k] != ']'
    ensures Find(pattern, ']', 1) == |body| + 1 && pattern[1..|body| + 1] == body
  {
    hide Find;
    assert pattern[|body| + 1] == ']';
    assert forall k | 1 <= k <= |body| :: pattern[k] == body[k - 1];
  }

  /** The library takes `^` for a member of the class, the tokenizer for a negation. */
  lemma CaretCounterexample(glob: Glob)
    requires glob("a", "[^a]") && glob("a", "[a]")
    ensures var list := [PatternProfile("[^a]"), PatternProfile("[a]")];
            Diagnostics(list) == [] && Resolve(Some("p"), Some("a"), list, None, glob) == AmbiguousKind(Pattern)
  {
    assert "[" + "^a" + "]" == "[^a]" && "[" + "a" + "]" == "[a]";
    OneClass("[^a]", "^a");
    OneClass("[a]", "a");
    assert Listed("a") == {'a'} by { assert "a"[1..] == "" && Listed("") == {}; }
    assert "^a"[1..] == "a";
    assert ClassChars("^a") * ClassChars("a") == {};
    DisjointClasses("[^a]", "[a]", ClassChars("^a"), ClassChars("a"));
    DisagreementIsAmbiguous("[^a]", "[a]", "a", glob);
  }

  lemma DisjointClasses(left: string, right: string, l: set<char>, r: set<char>)
    requires Tokenize(left) == [Chars(l)] && Tokenize(right) == [Chars(r)] && l * r == {}
    ensures !PatternsOverlap(left, right)
  {
    hide Tokenize;
  }

  /** The library lets `?` and a class match a blank, the tokenizer keeps to printable characters. */
  lemma BlankCounterexample(glob: Glob)
    requires glob(" ", "?") && glob(" ", "[ ]")
    ensures var list := [PatternProfile("?"), PatternProfile("[ ]")];
            Diagnostics(list) == [] && Resolve(Some("p"), Some(" "), list, None, glob) == AmbiguousKind(Pattern)
  {
    assert "[" + " " + "]" == "[ ]";
    OneClass("[ ]", " ");
    assert Listed(" ") == {' '} by { assert " "[1..] == "" && Listed("") == {}; }
    assert ClassChars(" ") == {};
    assert Tokenize("?") == [Chars(ALPHABET)] by { assert "?"[1..] == "" && Tokenize("") == []; }
    assert HasPattern("?") by { assert "?"[0] in "*?[]"; }
    DisjointClasses("?", "[ ]", ALPHABET, ClassChars(" "));
    DisagreementIsAmbiguous("?", "[ ]", " ", glob);
  }
}
