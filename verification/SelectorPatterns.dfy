/**
 * The selector globs of context_window.py: the tokenizer, the meaning of a token sequence, and the
 * two-index recursion that decides whether two globs share a string.
 */
module SelectorPatterns {
  import opened Text

  datatype Token = Star | Chars(chars: set<char>)

  predicate Within(low: char, c: char, high: char) {
    low <= c <= high
  }

  function Range(low: char, high: char): set<char> {
    set c: char | Within(low, c, high)
  }

  /** The printable, non-blank ASCII characters. */
  const ALPHABET: set<char> := Range('!', '~')

  lemma AlphabetIsPrintable(c: char)
    ensures c in ALPHABET <==> '!' <= c <= '~'
  {
  }

  /** The characters between two end points, given in either order. */
  function Between(a: char, b: char): (r: set<char>)
    ensures forall c :: c in r <==> (a <= c <= b || b <= c <= a)
  {
    if a <= b then Range(a, b) else Range(b, a)
  }

  /** The characters a bracket body lists, ranges expanded. */
  function Listed(body: string): set<char> {
    if body == "" then {}
    else if |body| > 2 && body[1] == '-' && body[2] != '-' then Between(body[0], body[2]) + Listed(body[3..])
    else {body[0]} + Listed(body[1..])
  }

  predicate Negated(body: string) {
    body != "" && body[0] in "!^"
  }

  function ClassChars(body: string): set<char> {
    if Negated(body) then ALPHABET - Listed(body[1..]) else ALPHABET * Listed(body)
  }

  /** The token that starts at `index`, and where the next one starts. */
  function FirstToken(pattern: string, index: nat): (r: (Token, nat))
    requires index < |pattern|
    ensures index < r.1 <= |pattern|
  {
    var c, closing := pattern[index], Find(pattern, ']', index + 1);
    if c == '*' then (Star, index + 1)
    else if c == '?' then (Chars(ALPHABET), index + 1)
    else if c == '[' && closing != -1 then (Chars(ClassChars(pattern[index + 1..closing])), closing + 1)
    else (Chars({c}), index + 1)
  }

  function Tokenize(pattern: string): seq<Token>
    decreases |pattern|
  {
    if pattern == "" then []
    else var (token, next) := FirstToken(pattern, 0); [token] + Tokenize(pattern[next..])
  }

  /** What a token sequence accepts: a star any string, a class exactly one of its characters. */
  predicate Accepts(tokens: seq<Token>, s: string)
    decreases |tokens|
  {
    if tokens == [] then s == ""
    else match tokens[0]
      case Star => exists k | 0 <= k <= |s| :: Accepts(tokens[1..], s[k..])
      case Chars(chars) => s != "" && s[0] in chars && Accepts(tokens[1..], s[1..])
  }

  predicate AllStars(tokens: seq<Token>) {
    forall k | 0 <= k < |tokens| :: tokens[k].Star?
  }

  predicate NoEmptyClass(tokens: seq<Token>) {
    forall k | 0 <= k < |tokens| :: tokens[k].Chars? ==> tokens[k].chars != {}
  }

  /** The recursion `intersects(left_index, right_index)`, branch by branch. */
  predicate Intersects(left: seq<Token>, right: seq<Token>, i: nat, j: nat)
    requires i <= |left| && j <= |right|
    decreases |left| - i + |right| - j
  {
    if i == |left| then AllStars(right[j..])
    else if j == |right| then AllStars(left[i..])
    else if left[i].Star? && Intersects(left, right, i + 1, j) then true
    else if right[j].Star? && Intersects(left, right, i, j + 1) then true
    else if left[i].Star? && !right[j].Star? then Intersects(left, right, i, j + 1)
    else if right[j].Star? && !left[i].Star? then Intersects(left, right, i + 1, j)
    else if left[i].Chars? && right[j].Chars? && left[i].chars * right[j].chars != {} then
      Intersects(left, right, i + 1, j + 1)
    else false
  }

  predicate PatternsOverlap(left: string, right: string) {
    Intersects(Tokenize(left), Tokenize(right), 0, 0)
  }

  // ---- the tokenizer's loops -------------------------------------------------------------------

  method ListBracketBody(body: string) returns (allowed: set<char>)
    ensures allowed == Listed(body)
  {
    allowed := {};
    var bodyIndex := 0;
    while bodyIndex < |body|
      invariant 0 <= bodyIndex <= |body|
      invariant allowed + Listed(body[bodyIndex..]) == Listed(body)
    {
      var rest := body[bodyIndex..];
      var current := body[bodyIndex];
      if bodyIndex + 2 < |body| && body[bodyIndex + 1] == '-' && body[bodyIndex + 2] != '-' {
        var end := body[bodyIndex + 2];
        if current <= end {
          allowed := allowed + Range(current, end);
        } else {
          allowed := allowed + Range(end, current);
        }
        assert rest[3..] == body[bodyIndex + 3..];
        assert Listed(rest) == Between(current, end) + Listed(rest[3..]);
        bodyIndex := bodyIndex + 3;
        continue;
      }
      allowed := allowed + {current};
      assert rest[1..] == body[bodyIndex + 1..];
      bodyIndex := bodyIndex + 1;
    }
  }

  method BracketChars(text: string) returns (tokenChars: set<char>)
    ensures tokenChars == ClassChars(text)
  {
    var body := text;
    var negated := |body| > 0 && (body[0] == '!' || body[0] == '^');
    if negated {
      body := body[1..];
    }
    var allowed := ListBracketBody(body);
    tokenChars := if negated then ALPHABET - allowed else ALPHABET * allowed;
  }

  lemma FirstTokenInSuffix(pattern: string, index: nat)
    requires index < |pattern|
    ensures FirstToken(pattern[index..], 0) == (FirstToken(pattern, index).0, FirstToken(pattern, index).1 - index)
  {
    hide Find, ClassChars;
    var rest := pattern[index..];
    var c, closing := pattern[index], Find(pattern, ']', index + 1);
    assert rest[1..] == pattern[index + 1..];
    FindInSuffix(pattern, ']', index, 1);
    if c == '[' && closing != -1 {
      assert rest[1..closing - index] == pattern[index + 1..closing];
    }
  }

  lemma TokenizeStep(pattern: string, index: nat)
    requires index < |pattern|
    ensures Tokenize(pattern[index..]) ==
        [FirstToken(pattern, index).0] + Tokenize(pattern[FirstToken(pattern, index).1..])
  {
    hide FirstToken;
    FirstTokenInSuffix(pattern, index);
    assert pattern[index..][FirstToken(pattern, index).1 - index..] == pattern[FirstToken(pattern, index).1..];
  }

  method TokenAt(pattern: string, index: nat) returns (token: Token, next: nat)
    requires index < |pattern|
    ensures (token, next) == FirstToken(pattern, index)
  {
    var c := pattern[index];
    if c == '*' {
      return Star, index + 1;
    }
    if c == '?' {
      return Chars(ALPHABET), index + 1;
    }
    if c == '[' {
      var closing := Find(pattern, ']', index + 1);
      if closing == -1 {
        return Chars({c}), index + 1;
      }
      var chars := BracketChars(pattern[index + 1..closing]);
      return Chars(chars), closing + 1;
    }
    return Chars({c}), index + 1;
  }

  lemma OneMoreToken(pattern: string, index: nat, tokens: seq<Token>)
    requires index < |pattern| && tokens + Tokenize(pattern[index..]) == Tokenize(pattern)
    ensures tokens + [FirstToken(pattern, index).0] + Tokenize(pattern[FirstToken(pattern, index).1..]) ==
        Tokenize(pattern)
  {
    hide Tokenize, FirstToken;
    TokenizeStep(pattern, index);
  }

  method TokenizeSelectorPattern(pattern: string) returns (tokens: seq<Token>)
    ensures tokens == Tokenize(pattern)
  {
    assert Tokenize("") == [] && pattern[0..] == pattern;
    hide Tokenize, FirstToken;
    tokens := [];
    var index := 0;
    while index < |pattern|
      invariant 0 <= index <= |pattern|
      invariant tokens + Tokenize(pattern[index..]) == Tokenize(pattern)
    {
      var token, next := TokenAt(pattern, index);
      OneMoreToken(pattern, index, tokens);
      tokens := tokens + [token];
      index := next;
    }
  }

  lemma {:induction false} FindInSuffix(s: string, c: char, start: nat, from: nat)
    requires start <= |s|
    ensures Find(s[start..], c, from) == if Find(s, c, start + from) == -1 then -1 else Find(s, c, start + from) - start
    decreases |s| - start - from
  {
    if start + from < |s| && s[start + from] != c {
      FindInSuffix(s, c, start, from + 1);
    }
  }

  // ---- the memo table ----------------------------------------------------------------------------

  /** `intersects` under `lru_cache(maxsize=None)`: a table from index pairs to answers. */
  class OverlapMemo {
    const left: seq<Token>
    const right: seq<Token>
    var table: map<(nat, nat), bool>

    ghost predicate Valid()
      reads this
    {
      forall i: nat, j: nat | (i, j) in table ::
        i <= |left| && j <= |right| && table[(i, j)] == Intersects(left, right, i, j)
    }

    constructor (left: seq<Token>, right: seq<Token>)
      ensures Valid() && this.left == left && this.right == right
    {
      this.left, this.right, table := left, right, map[];
    }

    method Query(i: nat, j: nat) returns (answer: bool)
      requires Valid() && i <= |left| && j <= |right|
      modifies this`table
      ensures Valid() && answer == Intersects(left, right, i, j)
      ensures (i, j) in table && old(table).Keys <= table.Keys
      decreases |left| - i + |right| - j
    {
      if (i, j) in table {
        return table[(i, j)];
      }
      answer := Compute(i, j);
      table := table[(i, j) := answer];
    }

    method Compute(i: nat, j: nat) returns (answer: bool)
      requires Valid() && i <= |left| && j <= |right|
      modifies this`table
      ensures Valid() && answer == Intersects(left, right, i, j)
      ensures old(table).Keys <= table.Keys
      decreases |left| - i + |right| - j, 0
    {
      if i == |left| {
        return AllStars(right[j..]);
      }
      if j == |right| {
        return AllStars(left[i..]);
      }
      var leftToken, rightToken := left[i], right[j];
      if leftToken.Star? {
        var skipped := Query(i + 1, j);
        if skipped { return true; }
      }
      if rightToken.Star? {
        var skipped := Query(i, j + 1);
        if skipped { return true; }
      }
      if leftToken.Star? && !rightToken.Star? {
        answer := Query(i, j + 1);
        return;
      }
      if rightToken.Star? && !leftToken.Star? {
        answer := Query(i + 1, j);
        return;
      }
      if leftToken.Chars? && rightToken.Chars? && leftToken.chars * rightToken.chars != {} {
        answer := Query(i + 1, j + 1);
        return;
      }
      return false;
    }
  }

  method SelectorPatternsOverlap(left: string, right: string) returns (overlap: bool)
    ensures overlap == PatternsOverlap(left, right)
  {
    var leftTokens := TokenizeSelectorPattern(left);
    var rightTokens := TokenizeSelectorPattern(right);
    var memo := new OverlapMemo(leftTokens, rightTokens);
    overlap := memo.Query(0, 0);
  }

  // ---- soundness: False means disjoint -----------------------------------------------------------

  lemma {:induction false} StarTakesOneMore(tokens: seq<Token>, s: string, k: nat)
    requires tokens != [] && tokens[0].Star? && k <= |s| && Accepts(tokens[1..], s[k..])
    requires 0 < k
    ensures Accepts(tokens, s[1..])
  {
    assert s[1..][k - 1..] == s[k..];
  }

  lemma {:induction false} AllStarsFromEmpty(tokens: seq<Token>)
    ensures Accepts(tokens, "") <==> AllStars(tokens)
  {
    if tokens == [] {
    } else {
      AllStarsFromEmpty(tokens[1..]);
      assert ""[0..] == "";
      if AllStars(tokens) {
        assert tokens[0].Star?;
      }
      if tokens[0].Star? && AllStars(tokens[1..]) {
        forall k | 0 <= k < |tokens| ensures tokens[k].Star? {
          assert k > 0 ==> tokens[k] == tokens[1..][k - 1];
        }
      }
    }
  }

  /** A shared string is never missed, wherever the two recursions stand. */
  lemma {:induction false} NoSharedStringMissed(left: seq<Token>, right: seq<Token>, i: nat, j: nat, s: string)
    requires i <= |left| && j <= |right|
    requires Accepts(left[i..], s) && Accepts(right[j..], s)
    ensures Intersects(left, right, i, j)
    decreases |left| - i + |right| - j
  {
    var l, r := left[i..], right[j..];
    if i == |left| {
      AllStarsFromEmpty(r);
    } else if j == |right| {
      AllStarsFromEmpty(l);
    } else {
      assert l[1..] == left[i + 1..] && r[1..] == right[j + 1..];
      if left[i].Star? && right[j].Star? {
        var k :| 0 <= k <= |s| && Accepts(l[1..], s[k..]);
        var m :| 0 <= m <= |s| && Accepts(r[1..], s[m..]);
        if k <= m {
          assert s[k..][m - k..] == s[m..];
          assert Accepts(r, s[k..]);
          NoSharedStringMissed(left, right, i + 1, j, s[k..]);
        } else {
          assert s[m..][k - m..] == s[k..];
          assert Accepts(l, s[m..]);
          NoSharedStringMissed(left, right, i, j + 1, s[m..]);
        }
      } else if left[i].Star? {
        var k :| 0 <= k <= |s| && Accepts(l[1..], s[k..]);
        if k == 0 {
          NoSharedStringMissed(left, right, i + 1, j, s);
        } else {
          StarTakesOneMore(l, s, k);
          NoSharedStringMissed(left, right, i, j + 1, s[1..]);
        }
      } else if right[j].Star? {
        var k :| 0 <= k <= |s| && Accepts(r[1..], s[k..]);
        if k == 0 {
          NoSharedStringMissed(left, right, i, j + 1, s);
        } else {
          StarTakesOneMore(r, s, k);
          NoSharedStringMissed(left, right, i + 1, j, s[1..]);
        }
      } else {
        assert s[0] in left[i].chars * right[j].chars;
        NoSharedStringMissed(left, right, i + 1, j + 1, s[1..]);
      }
    }
  }

  // ---- completeness: True gives a string ---------------------------------------------------------

  lemma SkipStar(tokens: seq<Token>, s: string)
    requires tokens != [] && tokens[0].Star? && Accepts(tokens[1..], s)
    ensures Accepts(tokens, s)
  {
    assert s[0..] == s;
  }

  lemma StarAbsorbs(tokens: seq<Token>, c: char, s: string)
    requires tokens != [] && tokens[0].Star? && Accepts(tokens, s)
    ensures Accepts(tokens, [c] + s)
  {
    var k :| 0 <= k <= |s| && Accepts(tokens[1..], s[k..]);
    assert ([c] + s)[k + 1..] == s[k..];
  }

  lemma ClassTakes(tokens: seq<Token>, c: char, s: string)
    requires tokens != [] && tokens[0].Chars? && c in tokens[0].chars && Accepts(tokens[1..], s)
    ensures Accepts(tokens, [c] + s)
  {
    assert ([c] + s)[1..] == s;
  }

  /** From a true answer, build a string both sides accept. */
  lemma {:induction false} BuildSharedString(left: seq<Token>, right: seq<Token>, i: nat, j: nat) returns (s: string)
    requires i <= |left| && j <= |right| && NoEmptyClass(left) && NoEmptyClass(right)
    requires Intersects(left, right, i, j)
    ensures Accepts(left[i..], s) && Accepts(right[j..], s)
    decreases |left| - i + |right| - j
  {
    var l, r := left[i..], right[j..];
    if i == |left| || j == |right| {
      AllStarsFromEmpty(l);
      AllStarsFromEmpty(r);
      s := "";
    } else {
      assert l[1..] == left[i + 1..] && r[1..] == right[j + 1..];
      if left[i].Star? && Intersects(left, right, i + 1, j) {
        s := BuildSharedString(left, right, i + 1, j);
        SkipStar(l, s);
      } else if right[j].Star? && Intersects(left, right, i, j + 1) {
        s := BuildSharedString(left, right, i, j + 1);
        SkipStar(r, s);
      } else if left[i].Star? {
        var tail := BuildSharedString(left, right, i, j + 1);
        var c :| c in right[j].chars;
        StarAbsorbs(l, c, tail);
        ClassTakes(r, c, tail);
        s := [c] + tail;
      } else if right[j].Star? {
        var tail := BuildSharedString(left, right, i + 1, j);
        var c :| c in left[i].chars;
        StarAbsorbs(r, c, tail);
        ClassTakes(l, c, tail);
        s := [c] + tail;
      } else {
        var tail := BuildSharedString(left, right, i + 1, j + 1);
        var c :| c in left[i].chars * right[j].chars;
        ClassTakes(l, c, tail);
        ClassTakes(r, c, tail);
        s := [c] + tail;
      }
    }
  }

  lemma {:induction false} EmptyClassAcceptsNothing(tokens: seq<Token>, s: string)
    requires Accepts(tokens, s)
    ensures NoEmptyClass(tokens)
  {
    if tokens == [] {
    } else {
      var rest :| Accepts(tokens[1..], rest);
      EmptyClassAcceptsNothing(tokens[1..], rest);
      forall k | 0 <= k < |tokens| ensures tokens[k].Chars? ==> tokens[k].chars != {} {
        if k > 0 { assert tokens[k] == tokens[1..][k - 1]; }
      }
    }
  }

  /** The overlap decision is exact on every pair of token sequences: the only strings it promises in vain
      are those that some empty class rules out. */
  lemma OverlapExact(left: seq<Token>, right: seq<Token>)
    ensures (exists s :: Accepts(left, s) && Accepts(right, s))
            <==> (Intersects(left, right, 0, 0) && NoEmptyClass(left) && NoEmptyClass(right))
  {
    assert left[0..] == left && right[0..] == right;
    forall s | Accepts(left, s) && Accepts(right, s)
      ensures Intersects(left, right, 0, 0) && NoEmptyClass(left) && NoEmptyClass(right)
    {
      NoSharedStringMissed(left, right, 0, 0, s);
      EmptyClassAcceptsNothing(left, s);
      EmptyClassAcceptsNothing(right, s);
    }
    if Intersects(left, right, 0, 0) && NoEmptyClass(left) && NoEmptyClass(right) {
      var s := BuildSharedString(left, right, 0, 0);
      assert Accepts(left, s) && Accepts(right, s);
    }
  }

  /** The answer does not depend on which glob comes first, empty classes or not. */
  lemma {:induction false} IntersectsSymmetric(left: seq<Token>, right: seq<Token>, i: nat, j: nat)
    requires i <= |left| && j <= |right|
    ensures Intersects(left, right, i, j) == Intersects(right, left, j, i)
    decreases |left| - i + |right| - j
  {
    if i == |left| && j == |right| {
    } else if i < |left| && j < |right| {
      IntersectsSymmetric(left, right, i + 1, j);
      IntersectsSymmetric(left, right, i, j + 1);
      IntersectsSymmetric(left, right, i + 1, j + 1);
      if left[i].Chars? && right[j].Chars? {
        assert left[i].chars * right[j].chars == right[j].chars * left[i].chars;
      }
    }
  }

  /** A glob with an empty class overlaps a star although its tokens accept no string. */
  lemma EmptyClassCounterexample()
    ensures PatternsOverlap("[]", "*")
    ensures forall s :: !Accepts(Tokenize("[]"), s)
  {
    assert Find("[]", ']', 1) == 1;
    assert "[]"[1..1] == "" && "[]"[2..] == "";
    assert ClassChars("") == {};
    var l := Tokenize("[]");
    assert l == [Chars({})];
    assert "*"[1..] == "";
    var r := Tokenize("*");
    assert r == [Star];
    assert Intersects(l, r, 1, 0);
    assert Intersects(l, r, 0, 0);
  }

  /** Three characters with a hyphen in the middle are a range, in either direction, unless they end in a hyphen. */
  lemma RangeIsListed(low: char, high: char, rest: string, c: char)
    requires high != '-'
    ensures c in Listed([low, '-', high] + rest) <==> low <= c <= high || high <= c <= low || c in Listed(rest)
  {
    var body := [low, '-', high] + rest;
    assert body[3..] == rest && body[0] == low && body[1] == '-' && body[2] == high;
  }

  /** Every other leading character stands for itself. */
  lemma SingleIsListed(first: char, rest: string, c: char)
    requires |rest| < 2 || rest[0] != '-' || rest[1] == '-'
    ensures c in Listed([first] + rest) <==> c == first || c in Listed(rest)
  {
    var body := [first] + rest;
    assert body[1..] == rest && body[0] == first;
  }

  // ---- what the tokenizer means ------------------------------------------------------------------

  /** A selector with no star, question mark or opening bracket accepts exactly itself. */
  lemma {:induction false} LiteralAcceptsItself(selector: string, name: string)
    requires forall k | 0 <= k < |selector| :: selector[k] !in "*?["
    ensures Accepts(Tokenize(selector), name) <==> name == selector
  {
    if selector == "" {
    } else {
      var tokens := Tokenize(selector);
      assert tokens[0] == Chars({selector[0]}) && tokens[1..] == Tokenize(selector[1..]);
      if name != "" {
        LiteralAcceptsItself(selector[1..], name[1..]);
        assert name == [name[0]] + name[1..] && selector == [selector[0]] + selector[1..];
      }
    }
  }

  /** A question mark accepts exactly one printable, non-blank ASCII character. */
  lemma QuestionMarkAcceptsPrintable(name: string)
    ensures Accepts(Tokenize("?"), name) <==> |name| == 1 && '!' <= name[0] <= '~'
  {
    assert "?"[1..] == "" && Tokenize("") == [] && Tokenize("?") == [Chars(ALPHABET)];
    if name != "" {
      AlphabetIsPrintable(name[0]);
      assert Accepts([], name[1..]) <==> name[1..] == "";
    }
  }

  /** A leading `!` or `^` complements the class within the alphabet. */
  lemma NegationComplements(body: string, mark: char)
    requires mark in "!^" && !Negated(body)
    ensures ClassChars([mark] + body) == ALPHABET - ClassChars(body)
    ensures forall c :: c in ClassChars([mark] + body) <==> '!' <= c <= '~' && c !in Listed(body)
  {
    assert ([mark] + body)[1..] == body;
  }
}
