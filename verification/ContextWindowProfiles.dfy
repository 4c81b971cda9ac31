/** Context-window profiles: the list validator and the resolver of context_window.py. */
module ContextWindowProfiles {
  import opened Text
  import opened SelectorPatterns

  datatype SelectorKind = ProviderDefault | Pattern | Exact {
    function Rank(): nat { if ProviderDefault? then 0 else if Pattern? then 1 else 2 }
  }

  datatype Profile = Profile(
    providerName: Option<string>,
    modelSelector: Option<string>,
    profileName: Option<string>,
    maxInputTokens: Option<int>,
    reservedOutputTokens: Option<int>)
  {
    function Kind(): SelectorKind {
      if modelSelector.None? then ProviderDefault
      else if HasPattern(modelSelector.value) then Pattern
      else Exact
    }

    predicate ServesProvider(provider: Option<string>) {
      providerName.None? || provider.None? || providerName == provider
    }
  }

  /** The glob that is exactly the token semantics. */
  const TOKEN_GLOB: Glob := (name: string, selector: string) => Accepts(Tokenize(selector), name)

  predicate Matches(profile: Profile, provider: Option<string>, model: Option<string>, glob: Glob) {
    profile.ServesProvider(provider)
    && match profile.Kind()
       case ProviderDefault => true
       case Pattern => model.Some? && glob(model.value, profile.modelSelector.value)
       case Exact => model.Some? && profile.modelSelector == model
  }

  // ---- validation --------------------------------------------------------------------------------

  datatype Diagnostic =
    | DuplicateProfileRef(scope: string, name: string)
    | DuplicateProviderDefault(scope: string)
    | DuplicateExactProfile(scope: string, selector: string)
    | DuplicatePatternProfile(scope: string, selector: string)
    | AmbiguousPatternProfile(scope: string, earlier: string, later: string)

  predicate ScopesOverlap(left: Option<string>, right: Option<string>) {
    left.None? || right.None? || left == right
  }

  function OverlapLabel(left: Option<string>, right: Option<string>): string {
    if left.Some? && left.value != "" then left.value
    else if right.Some? && right.value != "" then right.value
    else "<any>"
  }

  function RefDiagnostics(profile: Profile, other: Profile): seq<Diagnostic> {
    if profile.profileName.Some? && profile.profileName == other.profileName
    then [DuplicateProfileRef(OverlapLabel(profile.providerName, other.providerName), profile.profileName.value)]
    else []
  }

  function SelectorDiagnostics(profile: Profile, other: Profile): seq<Diagnostic> {
    var scope := OverlapLabel(profile.providerName, other.providerName);
    if profile.Kind() != other.Kind() then []
    else match profile.Kind()
      case ProviderDefault => [DuplicateProviderDefault(scope)]
      case Exact =>
        if profile.modelSelector == other.modelSelector
        then [DuplicateExactProfile(scope, profile.modelSelector.value)] else []
      case Pattern =>
        if profile.modelSelector == other.modelSelector
        then [DuplicatePatternProfile(scope, profile.modelSelector.value)]
        else if PatternsOverlap(profile.modelSelector.value, other.modelSelector.value)
        then [AmbiguousPatternProfile(scope, other.modelSelector.value, profile.modelSelector.value)]
        else []
  }

  function PairDiagnostics(profile: Profile, other: Profile): seq<Diagnostic> {
    if !ScopesOverlap(profile.providerName, other.providerName) then []
    else RefDiagnostics(profile, other) + SelectorDiagnostics(profile, other)
  }

  function RowDiagnostics(profile: Profile, earlier: seq<Profile>): seq<Diagnostic> {
    if earlier == [] then []
    else RowDiagnostics(profile, earlier[..|earlier| - 1]) + PairDiagnostics(profile, earlier[|earlier| - 1])
  }

  function Diagnostics(profiles: seq<Profile>): seq<Diagnostic> {
    if profiles == [] then []
    else
      var last := |profiles| - 1;
      Diagnostics(profiles[..last]) + RowDiagnostics(profiles[last], profiles[..last])
  }

  method DiagnosePair(profile: Profile, other: Profile) returns (found: seq<Diagnostic>)
    ensures found == PairDiagnostics(profile, other)
  {
    if !ScopesOverlap(profile.providerName, other.providerName) {
      return [];
    }
    var scope := OverlapLabel(profile.providerName, other.providerName);
    found := [];
    if profile.profileName.Some? && profile.profileName == other.profileName {
      found := [DuplicateProfileRef(scope, profile.profileName.value)];
    }
    if profile.Kind() != other.Kind() {
      return;
    }
    if profile.Kind() == ProviderDefault {
      found := found + [DuplicateProviderDefault(scope)];
      return;
    }
    var selector, otherSelector := profile.modelSelector.value, other.modelSelector.value;
    if profile.Kind() == Exact {
      if selector == otherSelector {
        found := found + [DuplicateExactProfile(scope, selector)];
      }
      return;
    }
    if selector == otherSelector {
      found := found + [DuplicatePatternProfile(scope, selector)];
      return;
    }
    var overlap := SelectorPatternsOverlap(selector, otherSelector);
    if overlap {
      found := found + [AmbiguousPatternProfile(scope, otherSelector, selector)];
    }
  }

  method ValidateProfiles(profiles: seq<Profile>) returns (diagnostics: seq<Diagnostic>)
    ensures diagnostics == Diagnostics(profiles)
  {
    hide PairDiagnostics;
    diagnostics := [];
    for index := 0 to |profiles|
      invariant diagnostics == Diagnostics(profiles[..index])
    {
      var profile := profiles[index];
      ghost var before := diagnostics;
      for k := 0 to index
        invariant diagnostics == before + RowDiagnostics(profile, profiles[..k])
      {
        var found := DiagnosePair(profile, profiles[k]);
        assert profiles[..k + 1][..k] == profiles[..k];
        diagnostics := diagnostics + found;
      }
      assert profiles[..index + 1][..index] == profiles[..index];
    }
    assert profiles[..|profiles|] == profiles;
  }

  lemma {:induction false} RowClean(profile: Profile, earlier: seq<Profile>)
    ensures RowDiagnostics(profile, earlier) == [] <==>
            forall k | 0 <= k < |earlier| :: PairDiagnostics(profile, earlier[k]) == []
  {
    hide PairDiagnostics;
    if earlier == [] {
    } else {
      var last := |earlier| - 1;
      var front := earlier[..last];
      assert RowDiagnostics(profile, earlier) ==
          RowDiagnostics(profile, front) + PairDiagnostics(profile, earlier[last]);
      RowClean(profile, front);
      hide RowDiagnostics;
      assert forall k | 0 <= k < last :: front[k] == earlier[k];
    }
  }

  lemma {:induction false} RowsClean(profiles: seq<Profile>)
    ensures Diagnostics(profiles) == [] <==>
            forall i | 0 <= i < |profiles| :: RowDiagnostics(profiles[i], profiles[..i]) == []
  {
    hide RowDiagnostics;
    if profiles == [] {
    } else {
      var last := |profiles| - 1;
      var front := profiles[..last];
      RowsClean(front);
      assert forall i | 0 <= i < last :: front[i] == profiles[i] && front[..i] == profiles[..i];
    }
  }

  /** A list is clean exactly when every pair in it is. */
  lemma CleanPairwise(profiles: seq<Profile>)
    ensures Diagnostics(profiles) == [] <==>
            forall i, j | 0 <= j < i < |profiles| :: PairDiagnostics(profiles[i], profiles[j]) == []
  {
    hide PairDiagnostics, Diagnostics, RowDiagnostics;
    RowsClean(profiles);
    forall i | 0 <= i < |profiles|
      ensures RowDiagnostics(profiles[i], profiles[..i]) == [] <==>
              forall j | 0 <= j < i :: PairDiagnostics(profiles[i], profiles[j]) == []
    {
      RowClean(profiles[i], profiles[..i]);
      assert forall j | 0 <= j < i :: profiles[..i][j] == profiles[j];
    }
  }

  lemma PairSymmetric(a: Profile, b: Profile)
    ensures PairDiagnostics(a, b) == [] <==> PairDiagnostics(b, a) == []
  {
    if a.Kind() == Pattern && b.Kind() == Pattern {
      IntersectsSymmetric(Tokenize(a.modelSelector.value), Tokenize(b.modelSelector.value), 0, 0);
    }
  }

  // ---- what each diagnostic says -----------------------------------------------------------------

  /** The scope of a diagnostic: the later profile's provider, else the earlier one's, else any. */
  predicate IsScope(scope: string, later: Profile, earlier: Profile) {
    if later.providerName.Some? && later.providerName.value != "" then Some(scope) == later.providerName
    else if earlier.providerName.Some? && earlier.providerName.value != "" then Some(scope) == earlier.providerName
    else scope == "<any>"
  }

  /** The diagnostic is true of the two profiles. */
  ghost predicate Reports(later: Profile, earlier: Profile, d: Diagnostic) {
    && (later.providerName.None? || earlier.providerName.None? || later.providerName == earlier.providerName)
    && IsScope(d.scope, later, earlier)
    && match d
       case DuplicateProfileRef(_, name) => later.profileName == earlier.profileName == Some(name)
       case DuplicateProviderDefault(_) => later.modelSelector == earlier.modelSelector == None
       case DuplicateExactProfile(_, selector) =>
         later.modelSelector == earlier.modelSelector == Some(selector) && !HasPattern(selector)
       case DuplicatePatternProfile(_, selector) =>
         later.modelSelector == earlier.modelSelector == Some(selector) && HasPattern(selector)
       case AmbiguousPatternProfile(_, first, second) =>
         && earlier.modelSelector == Some(first) && later.modelSelector == Some(second) && first != second
         && HasPattern(first) && HasPattern(second) && PatternsOverlap(second, first)
  }

  lemma PairMeaning(later: Profile, earlier: Profile, d: Diagnostic)
    ensures d in PairDiagnostics(later, earlier) <==> Reports(later, earlier, d)
  {
    hide HasPattern, PatternsOverlap;
  }

  lemma {:induction false} RowMeaning(profile: Profile, earlier: seq<Profile>, d: Diagnostic)
    ensures d in RowDiagnostics(profile, earlier) <==>
            exists k | 0 <= k < |earlier| :: Reports(profile, earlier[k], d)
  {
    hide PairDiagnostics, Reports;
    if earlier == [] {
    } else {
      var last := |earlier| - 1;
      RowMeaning(profile, earlier[..last], d);
      PairMeaning(profile, earlier[last], d);
      assert forall k | 0 <= k < last :: earlier[..last][k] == earlier[k];
    }
  }

  /** The validator's list holds exactly the diagnostics that are true of some pair. */
  lemma {:induction false} DiagnosticsMeaning(profiles: seq<Profile>, d: Diagnostic)
    ensures d in Diagnostics(profiles) <==>
            exists i, j | 0 <= j < i < |profiles| :: Reports(profiles[i], profiles[j], d)
  {
    hide RowDiagnostics, Reports;
    if profiles == [] {
    } else {
      var last := |profiles| - 1;
      var front := profiles[..last];
      DiagnosticsMeaning(front, d);
      RowMeaning(profiles[last], front, d);
      assert forall k | 0 <= k < last :: front[k] == profiles[k];
      if i, j :| 0 <= j < i < |profiles| && Reports(profiles[i], profiles[j], d) {
        assert Reports(profiles[i], front[j], d);
        if i < last {
          assert Reports(front[i], front[j], d);
        }
      }
    }
  }

  // ---- resolution --------------------------------------------------------------------------------

  datatype Resolution =
    | Found(profile: Profile)
    | NoProfile
    | AmbiguousKind(kind: SelectorKind)
    | AmbiguousRef(name: string)
    | UnknownRef(name: string)
  {
    predicate Ambiguous() { AmbiguousKind? || AmbiguousRef? }
  }

  function NamedBy(name: string, provider: Option<string>): Profile -> bool {
    (profile: Profile) => profile.profileName == Some(name) && profile.ServesProvider(provider)
  }

  function MatchedAs(kind: SelectorKind, provider: Option<string>, model: Option<string>, glob: Glob): Profile -> bool {
    (profile: Profile) => Matches(profile, provider, model, glob) && profile.Kind() == kind
  }

  function Resolve(provider: Option<string>, model: Option<string>, profiles: seq<Profile>,
                   profileRef: Option<string>, glob: Glob): Resolution
  {
    match profileRef
    case Some(name) =>
      var byRef := Keep(profiles, NamedBy(name, provider));
      if |byRef| > 1 then AmbiguousRef(name) else if |byRef| == 1 then Found(byRef[0]) else UnknownRef(name)
    case None =>
      var exact := Keep(profiles, MatchedAs(Exact, provider, model, glob));
      var pattern := Keep(profiles, MatchedAs(Pattern, provider, model, glob));
      var default := Keep(profiles, MatchedAs(ProviderDefault, provider, model, glob));
      if |exact| > 1 then AmbiguousKind(Exact) else if |exact| == 1 then Found(exact[0])
      else if |pattern| > 1 then AmbiguousKind(Pattern) else if |pattern| == 1 then Found(pattern[0])
      else if |default| > 1 then AmbiguousKind(ProviderDefault) else if |default| == 1 then Found(default[0])
      else NoProfile
  }

  method ResolveProfile(provider: Option<string>, model: Option<string>, profiles: seq<Profile>,
                        profileRef: Option<string>, glob: Glob) returns (answer: Resolution)
    ensures answer == Resolve(provider, model, profiles, profileRef, glob)
  {
    assert profiles[..|profiles|] == profiles;
    if profileRef.Some? {
      var name := profileRef.value;
      var byRef: seq<Profile> := [];
      for k := 0 to |profiles|
        invariant byRef == Keep(profiles[..k], NamedBy(name, provider))
      {
        assert profiles[..k + 1][..k] == profiles[..k];
        if profiles[k].profileName == Some(name) && profiles[k].ServesProvider(provider) {
          byRef := byRef + [profiles[k]];
        }
      }
      return if |byRef| > 1 then AmbiguousRef(name) else if byRef != [] then Found(byRef[0]) else UnknownRef(name);
    }
    var exactMatches: seq<Profile>, patternMatches: seq<Profile>, defaultMatches: seq<Profile> := [], [], [];
    for k := 0 to |profiles|
      invariant exactMatches == Keep(profiles[..k], MatchedAs(Exact, provider, model, glob))
      invariant patternMatches == Keep(profiles[..k], MatchedAs(Pattern, provider, model, glob))
      invariant defaultMatches == Keep(profiles[..k], MatchedAs(ProviderDefault, provider, model, glob))
    {
      assert profiles[..k + 1][..k] == profiles[..k];
      var profile := profiles[k];
      if Matches(profile, provider, model, glob) {
        if profile.Kind() == Exact {
          exactMatches := exactMatches + [profile];
        } else if profile.Kind() == Pattern {
          patternMatches := patternMatches + [profile];
        } else {
          defaultMatches := defaultMatches + [profile];
        }
      }
    }
    if |exactMatches| > 1 { return AmbiguousKind(Exact); }
    if exactMatches != [] { return Found(exactMatches[0]); }
    if |patternMatches| > 1 { return AmbiguousKind(Pattern); }
    if patternMatches != [] { return Found(patternMatches[0]); }
    if |defaultMatches| > 1 { return AmbiguousKind(ProviderDefault); }
    if defaultMatches != [] { return Found(defaultMatches[0]); }
    return NoProfile;
  }

  // ---- validated implies unambiguous -------------------------------------------------------------

  /** At most one profile is selected, or two positions of the list are. */
  lemma {:induction false} SelectedTwice(profiles: seq<Profile>, keep: Profile -> bool)
    ensures |Keep(profiles, keep)| >= 1 <==> exists k | 0 <= k < |profiles| :: keep(profiles[k])
    ensures |Keep(profiles, keep)| > 1 <==>
            exists i, j | 0 <= j < i < |profiles| :: keep(profiles[i]) && keep(profiles[j])
  {
    if profiles == [] {
    } else {
      var last := |profiles| - 1;
      var front := profiles[..last];
      SelectedTwice(front, keep);
      assert forall k | 0 <= k < last :: front[k] == profiles[k];
      if |Keep(front, keep)| > 1 {
        var i, j :| 0 <= j < i < |front| && keep(front[i]) && keep(front[j]);
        assert keep(profiles[i]) && keep(profiles[j]);
      }
      if |Keep(front, keep)| >= 1 {
        var k :| 0 <= k < |front| && keep(front[k]);
        assert keep(profiles[k]);
      }
    }
  }

  lemma {:induction false} SelectedFrom(profiles: seq<Profile>, keep: Profile -> bool, profile: Profile)
    requires profile in Keep(profiles, keep)
    ensures exists k | 0 <= k < |profiles| :: profiles[k] == profile && keep(profiles[k])
  {
    var last := |profiles| - 1;
    var front := profiles[..last];
    if profile in Keep(front, keep) {
      SelectedFrom(front, keep, profile);
      var k :| 0 <= k < |front| && front[k] == profile && keep(front[k]);
      assert profiles[k] == profile;
    } else {
      assert profiles[last] == profile && keep(profiles[last]);
    }
  }

  /** A candidate that no other position of the list beats or equals. */
  ghost predicate Best(profiles: seq<Profile>, i: nat, provider: Option<string>, model: Option<string>, glob: Glob)
    requires i < |profiles|
  {
    Matches(profiles[i], provider, model, glob)
    && forall j | 0 <= j < |profiles| && j != i && Matches(profiles[j], provider, model, glob) ::
         profiles[j].Kind().Rank() < profiles[i].Kind().Rank()
  }

  function Candidates(profiles: seq<Profile>, kind: SelectorKind, provider: Option<string>, model: Option<string>,
      glob: Glob)
    : seq<Profile>
  {
    Keep(profiles, MatchedAs(kind, provider, model, glob))
  }

  lemma BestStandsAlone(profiles: seq<Profile>, i: nat, kind: SelectorKind, provider: Option<string>,
      model: Option<string>, glob: Glob)
    requires i < |profiles| && Best(profiles, i, provider, model, glob)
    ensures kind.Rank() > profiles[i].Kind().Rank() ==> Candidates(profiles, kind, provider, model, glob) == []
    ensures kind == profiles[i].Kind() ==> |Candidates(profiles, kind, provider, model, glob)| == 1
  {
    hide Matches, Profile.Kind;
    var keep := MatchedAs(kind, provider, model, glob);
    SelectedTwice(profiles, keep);
    if kind == profiles[i].Kind() {
      assert keep(profiles[i]);
    }
  }

  lemma OnlyCandidateIsBest(profiles: seq<Profile>, kind: SelectorKind, provider: Option<string>,
      model: Option<string>, glob: Glob)
    returns (i: nat)
    requires |Candidates(profiles, kind, provider, model, glob)| == 1
    requires forall higher: SelectorKind | higher.Rank() > kind.Rank() ::
        Candidates(profiles, higher, provider, model, glob) == []
    ensures i < |profiles| && Best(profiles, i, provider, model, glob)
    ensures Candidates(profiles, kind, provider, model, glob)[0] == profiles[i]
  {
    hide Matches, Profile.Kind;
    var keep := MatchedAs(kind, provider, model, glob);
    var only := Keep(profiles, keep)[0];
    SelectedFrom(profiles, keep, only);
    i :| 0 <= i < |profiles| && profiles[i] == only && keep(profiles[i]);
    SelectedTwice(profiles, keep);
    forall j | 0 <= j < |profiles| && j != i && Matches(profiles[j], provider, model, glob)
      ensures profiles[j].Kind().Rank() < profiles[i].Kind().Rank()
    {
      var other := profiles[j].Kind();
      SelectedTwice(profiles, MatchedAs(other, provider, model, glob));
      assert MatchedAs(other, provider, model, glob)(profiles[j]);
    }
  }

  /** A query by provider and model finds the one match of the most specific kind there is, if there is just one. */
  lemma ResolvePicksMostSpecific(profiles: seq<Profile>, provider: Option<string>, model: Option<string>, glob: Glob,
      p: Profile)
    ensures Resolve(provider, model, profiles, None, glob) == Found(p) <==>
            exists i | 0 <= i < |profiles| :: profiles[i] == p && Best(profiles, i, provider, model, glob)
  {
    hide Matches, Profile.Kind, Keep, Best;
    var answer := Resolve(provider, model, profiles, None, glob);
    if answer == Found(p) {
      var kind := if |Candidates(profiles, Exact, provider, model, glob)| == 1 then Exact
                  else if |Candidates(profiles, Pattern, provider, model, glob)| == 1 then Pattern else ProviderDefault;
      var i := OnlyCandidateIsBest(profiles, kind, provider, model, glob);
    }
    if i: nat :| i < |profiles| && profiles[i] == p && Best(profiles, i, provider, model, glob) {
      BestStandsAlone(profiles, i, Exact, provider, model, glob);
      BestStandsAlone(profiles, i, Pattern, provider, model, glob);
      BestStandsAlone(profiles, i, ProviderDefault, provider, model, glob);
      var only := Candidates(profiles, p.Kind(), provider, model, glob);
      SelectedFrom(profiles, MatchedAs(p.Kind(), provider, model, glob), only[0]);
      BestIsOnly(profiles, i, only[0], provider, model, glob);
    }
  }

  lemma BestIsOnly(profiles: seq<Profile>, i: nat, q: Profile, provider: Option<string>, model: Option<string>,
      glob: Glob)
    requires i < |profiles| && Best(profiles, i, provider, model, glob)
    requires exists k | 0 <= k < |profiles| ::
      profiles[k] == q && MatchedAs(profiles[i].Kind(), provider, model, glob)(profiles[k])
    ensures q == profiles[i]
  {
    hide Matches, Profile.Kind;
  }

  /** The library accepts a name under a listed pattern only if the token semantics does. */
  ghost predicate GlobWithinTokens(profiles: seq<Profile>, model: Option<string>, glob: Glob) {
    forall k | 0 <= k < |profiles| :: profiles[k].Kind() == Pattern && model.Some?
      && glob(model.value, profiles[k].modelSelector.value)
      ==> Accepts(Tokenize(profiles[k].modelSelector.value), model.value)
  }

  /** Some query step would have to choose between two profiles. */
  ghost predicate Contested(provider: Option<string>, model: Option<string>, profiles: seq<Profile>,
                            profileRef: Option<string>, glob: Glob)
  {
    match profileRef
    case Some(name) => |Keep(profiles, NamedBy(name, provider))| > 1
    case None => exists kind :: |Keep(profiles, MatchedAs(kind, provider, model, glob))| > 1
  }

  lemma AmbiguousOnlyIfContested(provider: Option<string>, model: Option<string>, profiles: seq<Profile>,
                                 profileRef: Option<string>, glob: Glob)
    requires Resolve(provider, model, profiles, profileRef, glob).Ambiguous()
    ensures Contested(provider, model, profiles, profileRef, glob)
  {
    if profileRef.None? {
      var kind := Resolve(provider, model, profiles, profileRef, glob).kind;
      assert |Keep(profiles, MatchedAs(kind, provider, model, glob))| > 1;
    }
  }

  /** Two profiles that both answer one query of a concrete provider carry a diagnostic. */
  lemma SharedQueryIsDiagnosed(a: Profile, b: Profile, provider: string, model: Option<string>, glob: Glob)
    requires a.ServesProvider(Some(provider)) && b.ServesProvider(Some(provider))
    requires GlobWithinTokens([a, b], model, glob)
    requires (a.profileName.Some? && a.profileName == b.profileName)
             || (Matches(a, Some(provider), model, glob) && Matches(b, Some(provider), model, glob)
                 && a.Kind() == b.Kind())
    ensures PairDiagnostics(a, b) != []
  {
    assert [a, b][0] == a && [a, b][1] == b;
    if !(a.profileName.Some? && a.profileName == b.profileName) && a.Kind() == Pattern {
      var left, right := Tokenize(a.modelSelector.value), Tokenize(b.modelSelector.value);
      assert Accepts(left, model.value) && Accepts(right, model.value);
      OverlapExact(left, right);
    }
  }

  lemma CleanByName(profiles: seq<Profile>, provider: string, name: string)
    requires Diagnostics(profiles) == []
    ensures |Keep(profiles, NamedBy(name, Some(provider)))| <= 1
  {
    hide PairDiagnostics, Keep, Diagnostics, Matches, Tokenize;
    var keep := NamedBy(name, Some(provider));
    CleanPairwise(profiles);
    SelectedTwice(profiles, keep);
    if i, j :| 0 <= j < i < |profiles| && keep(profiles[i]) && keep(profiles[j]) {
      SharedQueryIsDiagnosed(profiles[i], profiles[j], provider, None, TOKEN_GLOB);
    }
  }

  lemma CleanByMatch(profiles: seq<Profile>, provider: string, model: Option<string>, kind: SelectorKind, glob: Glob)
    requires Diagnostics(profiles) == [] && GlobWithinTokens(profiles, model, glob)
    ensures |Candidates(profiles, kind, Some(provider), model, glob)| <= 1
  {
    hide PairDiagnostics, Keep, Diagnostics, Matches, Tokenize;
    var keep := MatchedAs(kind, Some(provider), model, glob);
    CleanPairwise(profiles);
    SelectedTwice(profiles, keep);
    if i, j :| 0 <= j < i < |profiles| && keep(profiles[i]) && keep(profiles[j]) {
      MatchServes(profiles[i], Some(provider), model, glob);
      MatchServes(profiles[j], Some(provider), model, glob);
      SharedQueryIsDiagnosed(profiles[i], profiles[j], provider, model, glob);
    }
  }

  lemma MatchServes(profile: Profile, provider: Option<string>, model: Option<string>, glob: Glob)
    requires Matches(profile, provider, model, glob)
    ensures profile.ServesProvider(provider)
  {
  }

  lemma CleanIsUncontested(profiles: seq<Profile>, provider: string, model: Option<string>,
                           profileRef: Option<string>, glob: Glob)
    requires Diagnostics(profiles) == [] && GlobWithinTokens(profiles, model, glob)
    ensures !Contested(Some(provider), model, profiles, profileRef, glob)
  {
    hide Diagnostics, Keep, GlobWithinTokens;
    if profileRef.Some? {
      CleanByName(profiles, provider, profileRef.value);
    } else {
      forall kind ensures |Keep(profiles, MatchedAs(kind, Some(provider), model, glob))| <= 1 {
        CleanByMatch(profiles, provider, model, kind, glob);
      }
    }
  }

  /** A list the validator accepts is never ambiguous for a concrete provider, by match or by name. */
  lemma ValidatedNeverAmbiguous(profiles: seq<Profile>, provider: string, model: Option<string>,
                                profileRef: Option<string>, glob: Glob)
    requires Diagnostics(profiles) == [] && GlobWithinTokens(profiles, model, glob)
    ensures !Resolve(Some(provider), model, profiles, profileRef, glob).Ambiguous()
  {
    CleanIsUncontested(profiles, provider, model, profileRef, glob);
    if Resolve(Some(provider), model, profiles, profileRef, glob).Ambiguous() {
      AmbiguousOnlyIfContested(Some(provider), model, profiles, profileRef, glob);
    }
  }

  // ---- every diagnostic is real ------------------------------------------------------------------

  ghost predicate SatisfiableClasses(profile: Profile) {
    profile.Kind() == Pattern ==> NoEmptyClass(Tokenize(profile.modelSelector.value))
  }

  function SharedProvider(a: Profile, b: Profile): string {
    if a.providerName.Some? then a.providerName.value
    else if b.providerName.Some? then b.providerName.value
    else "<any>"
  }

  lemma DiagnosticHasQuery(profiles: seq<Profile>, i: nat, j: nat)
    returns (provider: string, model: Option<string>, profileRef: Option<string>)
    requires j < i < |profiles| && PairDiagnostics(profiles[i], profiles[j]) != []
    requires SatisfiableClasses(profiles[i]) && SatisfiableClasses(profiles[j])
    ensures Contested(Some(provider), model, profiles, profileRef, TOKEN_GLOB)
  {
    var a, b := profiles[i], profiles[j];
    provider, model, profileRef := SharedProvider(a, b), None, None;
    if RefDiagnostics(a, b) != [] {
      profileRef := a.profileName;
      SelectedTwice(profiles, NamedBy(a.profileName.value, Some(provider)));
      assert NamedBy(a.profileName.value, Some(provider))(a) && NamedBy(a.profileName.value, Some(provider))(b);
      return;
    }
    var kind := a.Kind();
    if kind == Exact {
      model := a.modelSelector;
    } else if kind == Pattern {
      var left, right := Tokenize(a.modelSelector.value), Tokenize(b.modelSelector.value);
      if a.modelSelector == b.modelSelector {
        SelfOverlap(left, 0);
      }
      OverlapExact(left, right);
      var name :| Accepts(left, name) && Accepts(right, name);
      model := Some(name);
    }
    var keep := MatchedAs(kind, Some(provider), model, TOKEN_GLOB);
    SelectedTwice(profiles, keep);
    assert keep(a) && keep(b);
    assert |Keep(profiles, MatchedAs(kind, Some(provider), model, TOKEN_GLOB))| > 1;
  }

  lemma {:induction false} SelfOverlap(tokens: seq<Token>, i: nat)
    requires i <= |tokens| && NoEmptyClass(tokens)
    ensures Intersects(tokens, tokens, i, i)
    decreases |tokens| - i
  {
    if i < |tokens| {
      SelfOverlap(tokens, i + 1);
      if tokens[i].Star? {
        if i + 1 < |tokens| {
          assert Intersects(tokens, tokens, i + 1, i + 1);
          assert Intersects(tokens, tokens, i + 1, i);
        } else {
          assert AllStars(tokens[i..]);
        }
      }
    }
  }

  /** The validator is exact: it stays silent on precisely the lists in which no query of a concrete provider
      ever meets two candidates of one kind. */
  lemma ValidatorExact(profiles: seq<Profile>)
    requires forall k | 0 <= k < |profiles| :: SatisfiableClasses(profiles[k])
    ensures Diagnostics(profiles) == [] <==>
            forall provider: string, model, profileRef ::
              !Contested(Some(provider), model, profiles, profileRef, TOKEN_GLOB)
  {
    CleanPairwise(profiles);
    if Diagnostics(profiles) == [] {
      forall provider: string, model: Option<string>, profileRef: Option<string>
        ensures !Contested(Some(provider), model, profiles, profileRef, TOKEN_GLOB)
      {
        CleanIsUncontested(profiles, provider, model, profileRef, TOKEN_GLOB);
      }
    } else {
      var i, j :| 0 <= j < i < |profiles| && PairDiagnostics(profiles[i], profiles[j]) != [];
      var provider, model, profileRef := DiagnosticHasQuery(profiles, i, j);
    }
  }

  /** Without a provider in the query even a clean list can be ambiguous. */
  lemma AnyProviderCounterexample(glob: Glob)
    ensures var a := Profile(Some("p"), None, None, None, None);
            var b := Profile(Some("q"), None, None, None, None);
            Diagnostics([a, b]) == [] && Resolve(None, None, [a, b], None, glob) == AmbiguousKind(ProviderDefault)
  {
    var a := Profile(Some("p"), None, None, None, None);
    var b := Profile(Some("q"), None, None, None, None);
    CleanPairwise([a, b]);
    forall kind ensures (|Keep([a, b], MatchedAs(kind, None, None, glob))| > 1) == (kind == ProviderDefault)
                ensures (|Keep([a, b], MatchedAs(kind, None, None, glob))| >= 1) == (kind == ProviderDefault)
    {
      var keep := MatchedAs(kind, None, None, glob);
      SelectedTwice([a, b], keep);
      assert [a, b][0] == a && [a, b][1] == b;
      assert keep(a) == keep(b) == (kind == ProviderDefault);
    }
  }

  /** The profiles with their provider names dropped. */
  function Unscoped(profiles: seq<Profile>): seq<Profile> {
    seq(|profiles|, k requires 0 <= k < |profiles| => profiles[k].(providerName := None))
  }

  lemma UnscopedLikeOpen(p: Profile, provider: string, kind: SelectorKind, model: Option<string>, name: string,
      glob: Glob)
    ensures var unscoped := p.(providerName := None);
            NamedBy(name, None)(p) == NamedBy(name, Some(provider))(unscoped)
            && MatchedAs(kind, None, model, glob)(p) == MatchedAs(kind, Some(provider), model, glob)(unscoped)
  {
    hide HasPattern;
  }

  lemma SelectedAlike(left: seq<Profile>, right: seq<Profile>, keep: Profile -> bool, keepRight: Profile -> bool)
    requires |left| == |right| && forall k | 0 <= k < |left| :: keep(left[k]) == keepRight(right[k])
    ensures |Keep(left, keep)| > 1 <==> |Keep(right, keepRight)| > 1
  {
    hide Keep;
    SelectedTwice(left, keep);
    SelectedTwice(right, keepRight);
  }

  /** A query without a provider sees the profiles as if none named a provider. */
  lemma AnyProviderSeesUnscoped(profiles: seq<Profile>, provider: string, model: Option<string>,
                                profileRef: Option<string>, glob: Glob)
    ensures Contested(None, model, profiles, profileRef, glob) <==>
            Contested(Some(provider), model, Unscoped(profiles), profileRef, glob)
  {
    hide Keep, NamedBy, MatchedAs;
    var unscoped := Unscoped(profiles);
    if profileRef.Some? {
      var name := profileRef.value;
      forall k | 0 <= k < |profiles|
        ensures NamedBy(name, None)(profiles[k]) == NamedBy(name, Some(provider))(unscoped[k])
      {
        UnscopedLikeOpen(profiles[k], provider, Exact, model, name, glob);
      }
      SelectedAlike(profiles, unscoped, NamedBy(name, None), NamedBy(name, Some(provider)));
    } else {
      forall kind
        ensures |Keep(profiles, MatchedAs(kind, None, model, glob))| > 1 <==>
                |Keep(unscoped, MatchedAs(kind, Some(provider), model, glob))| > 1
      {
        var keep, keepUnscoped := MatchedAs(kind, None, model, glob), MatchedAs(kind, Some(provider), model, glob);
        forall k | 0 <= k < |profiles| ensures keep(profiles[k]) == keepUnscoped(unscoped[k]) {
          UnscopedLikeOpen(profiles[k], provider, kind, model, "", glob);
        }
        SelectedAlike(profiles, unscoped, keep, keepUnscoped);
      }
    }
  }

  /** When a query may leave the provider open: exactly when the list also validates without its provider names. */
  lemma AnyProviderExact(profiles: seq<Profile>)
    requires forall k | 0 <= k < |profiles| :: SatisfiableClasses(profiles[k])
    ensures Diagnostics(Unscoped(profiles)) == [] <==>
            forall model, profileRef :: !Contested(None, model, profiles, profileRef, TOKEN_GLOB)
  {
    hide Diagnostics, Contested, SatisfiableClasses;
    var unscoped := Unscoped(profiles);
    forall k | 0 <= k < |unscoped| ensures SatisfiableClasses(unscoped[k]) {
      DroppingKeepsClasses(profiles[k]);
    }
    ValidatorExact(unscoped);
    forall provider: string, model: Option<string>, profileRef: Option<string>
      ensures Contested(None, model, profiles, profileRef, TOKEN_GLOB) <==>
              Contested(Some(provider), model, unscoped, profileRef, TOKEN_GLOB)
    {
      AnyProviderSeesUnscoped(profiles, provider, model, profileRef, TOKEN_GLOB);
    }
    if forall model, profileRef :: !Contested(None, model, profiles, profileRef, TOKEN_GLOB) {
      forall provider: string, model, profileRef
        ensures !Contested(Some(provider), model, unscoped, profileRef, TOKEN_GLOB)
      {
        assert !Contested(None, model, profiles, profileRef, TOKEN_GLOB);
      }
    } else {
      var model, profileRef :| Contested(None, model, profiles, profileRef, TOKEN_GLOB);
      assert Contested(Some(""), model, unscoped, profileRef, TOKEN_GLOB);
    }
  }

  lemma DroppingKeepsClasses(profile: Profile)
    requires SatisfiableClasses(profile)
    ensures SatisfiableClasses(profile.(providerName := None))
  {
  }

  // ---- every answer of the resolver --------------------------------------------------------------

  /** The position holds a profile of the name that serves the provider. */
  ghost predicate NamedAt(profiles: seq<Profile>, i: int, name: string, provider: Option<string>) {
    0 <= i < |profiles| && profiles[i].profileName == Some(name) && profiles[i].ServesProvider(provider)
  }

  /** By name: the one profile of that name, an error if there is none, an ambiguity if there are two. */
  lemma ResolveByName(profiles: seq<Profile>, provider: Option<string>, model: Option<string>, name: string, glob: Glob,
                      p: Profile)
    ensures var answer := Resolve(provider, model, profiles, Some(name), glob);
            && (answer == Found(p) <==>
                  exists i :: NamedAt(profiles, i, name, provider) && profiles[i] == p
                    && forall j | NamedAt(profiles, j, name, provider) :: j == i)
            && (answer == UnknownRef(name) <==> forall i :: !NamedAt(profiles, i, name, provider))
            && (answer == AmbiguousRef(name) <==>
                  exists i, j | j < i :: NamedAt(profiles, i, name, provider) && NamedAt(profiles, j, name, provider))
  {
    hide Keep, Profile.ServesProvider;
    var keep := NamedBy(name, provider);
    var byRef := Keep(profiles, keep);
    SelectedTwice(profiles, keep);
    forall i | 0 <= i < |profiles| ensures keep(profiles[i]) <==> NamedAt(profiles, i, name, provider) {
    }
    if |byRef| == 1 {
      SelectedFrom(profiles, keep, byRef[0]);
      var i :| 0 <= i < |profiles| && profiles[i] == byRef[0] && keep(profiles[i]);
      assert NamedAt(profiles, i, name, provider);
      forall j | NamedAt(profiles, j, name, provider) ensures j == i {
        assert keep(profiles[j]) && keep(profiles[i]);
      }
    }
  }

  /** The position holds a profile of the kind that matches the query. */
  ghost predicate MatchAt(profiles: seq<Profile>, i: int, kind: SelectorKind, provider: Option<string>,
                          model: Option<string>, glob: Glob)
  {
    0 <= i < |profiles| && Matches(profiles[i], provider, model, glob) && profiles[i].Kind() == kind
  }

  /** By match: nothing exactly when nothing matches, and an ambiguity of a kind exactly when two entries of the kind
      match and none of a more specific kind does. Found profiles are those of `ResolvePicksMostSpecific`. */
  lemma ResolveByMatch(profiles: seq<Profile>, provider: Option<string>, model: Option<string>, glob: Glob,
                       kind: SelectorKind)
    ensures var answer := Resolve(provider, model, profiles, None, glob);
            && !answer.AmbiguousRef? && !answer.UnknownRef?
            && (answer.NoProfile? <==> forall i | 0 <= i < |profiles| :: !Matches(profiles[i], provider, model, glob))
            && (answer == AmbiguousKind(kind) <==>
                  && (exists i, j | j < i :: MatchAt(profiles, i, kind, provider, model, glob)
                        && MatchAt(profiles, j, kind, provider, model, glob))
                  && forall i, higher: SelectorKind | higher.Rank() > kind.Rank() ::
                       !MatchAt(profiles, i, higher, provider, model, glob))
  {
    hide Keep, Matches, Profile.Kind;
    forall k: SelectorKind
      ensures |Candidates(profiles, k, provider, model, glob)| >= 1 <==>
              exists i :: MatchAt(profiles, i, k, provider, model, glob)
      ensures |Candidates(profiles, k, provider, model, glob)| > 1 <==>
              exists i, j | j < i :: MatchAt(profiles, i, k, provider, model, glob)
                && MatchAt(profiles, j, k, provider, model, glob)
    {
      MatchCounts(profiles, k, provider, model, glob);
    }
    var exact := Candidates(profiles, Exact, provider, model, glob);
    var pattern := Candidates(profiles, Pattern, provider, model, glob);
    var default := Candidates(profiles, ProviderDefault, provider, model, glob);
    hide Candidates, MatchAt;
    assert forall i | 0 <= i < |profiles| :: Matches(profiles[i], provider, model, glob) <==>
      MatchAt(profiles, i, profiles[i].Kind(), provider, model, glob)
    by {
      MatchedSomewhere(profiles, provider, model, glob);
    }
  }

  lemma MatchedSomewhere(profiles: seq<Profile>, provider: Option<string>, model: Option<string>, glob: Glob)
    ensures forall i | 0 <= i < |profiles| :: Matches(profiles[i], provider, model, glob) <==>
      MatchAt(profiles, i, profiles[i].Kind(), provider, model, glob)
  {
    hide Matches, Profile.Kind;
  }

  lemma MatchCounts(profiles: seq<Profile>, kind: SelectorKind, provider: Option<string>, model: Option<string>,
                    glob: Glob)
    ensures |Candidates(profiles, kind, provider, model, glob)| >= 1 <==>
            exists i :: MatchAt(profiles, i, kind, provider, model, glob)
    ensures |Candidates(profiles, kind, provider, model, glob)| > 1 <==>
            exists i, j | j < i :: MatchAt(profiles, i, kind, provider, model, glob)
              && MatchAt(profiles, j, kind, provider, model, glob)
  {
    hide Keep, Matches, Profile.Kind;
    var keep := MatchedAs(kind, provider, model, glob);
    SelectedTwice(profiles, keep);
    forall i | 0 <= i < |profiles| ensures keep(profiles[i]) <==> MatchAt(profiles, i, kind, provider, model, glob) {
    }
  }

  // ---- exactly which lists can be ambiguous ------------------------------------------------------

  /** Some exact profile for the provider lists the name, and so decides every query for it. */
  predicate Pinned(profiles: seq<Profile>, provider: Option<string>, name: string) {
    exists k | 0 <= k < |profiles| ::
      profiles[k].ServesProvider(provider) && profiles[k].Kind() == Exact && profiles[k].modelSelector == Some(name)
  }

  predicate SameName(a: Profile, b: Profile) {
    a.profileName.Some? && a.profileName == b.profileName
  }

  /** No query can fail to choose between the two profiles. */
  ghost predicate Separate(profiles: seq<Profile>, a: Profile, b: Profile, provider: Option<string>, glob: Glob) {
    && !SameName(a, b)
    && (a.Kind() == b.Kind() ==>
          match a.Kind()
          case ProviderDefault => false
          case Exact => a.modelSelector != b.modelSelector
          case Pattern => forall name ::
            glob(name, a.modelSelector.value) && glob(name, b.modelSelector.value) ==> Pinned(profiles, provider, name))
  }

  ghost predicate AllSeparate(profiles: seq<Profile>, provider: Option<string>, glob: Glob) {
    forall i, j | 0 <= j < i < |profiles| ::
      profiles[i].ServesProvider(provider) && profiles[j].ServesProvider(provider)
      ==> Separate(profiles, profiles[i], profiles[j], provider, glob)
  }

  /** Two candidates of a kind, and none of a more specific one. */
  ghost predicate Undecided(profiles: seq<Profile>, kind: SelectorKind, provider: Option<string>, model: Option<string>,
                            glob: Glob)
  {
    |Candidates(profiles, kind, provider, model, glob)| > 1
    && forall higher: SelectorKind | higher.Rank() > kind.Rank() ::
         Candidates(profiles, higher, provider, model, glob) == []
  }

  lemma AmbiguousIsUndecided(profiles: seq<Profile>, provider: Option<string>, model: Option<string>, glob: Glob)
    ensures Resolve(provider, model, profiles, None, glob).Ambiguous() <==>
            exists kind :: Undecided(profiles, kind, provider, model, glob)
  {
    hide Keep, MatchedAs, Matches;
    var exact := Candidates(profiles, Exact, provider, model, glob);
    var pattern := Candidates(profiles, Pattern, provider, model, glob);
    var default := Candidates(profiles, ProviderDefault, provider, model, glob);
    forall kind
      ensures Undecided(profiles, kind, provider, model, glob) <==>
              match kind
              case Exact => |exact| > 1
              case Pattern => |pattern| > 1 && exact == []
              case ProviderDefault => |default| > 1 && pattern == [] && exact == []
    {
    }
    assert Resolve(provider, model, profiles, None, glob).Ambiguous() <==>
      |exact| > 1 || (|pattern| > 1 && exact == []) || (|default| > 1 && pattern == [] && exact == []);
    if Resolve(provider, model, profiles, None, glob).Ambiguous() {
      assert Undecided(profiles, Exact, provider, model, glob) || Undecided(profiles, Pattern, provider, model, glob)
        || Undecided(profiles, ProviderDefault, provider, model, glob);
    }
  }

  /** A name some serving exact profile lists has an exact candidate. */
  lemma PinnedHasExact(profiles: seq<Profile>, provider: Option<string>, name: string, glob: Glob)
    ensures Pinned(profiles, provider, name) <==> Candidates(profiles, Exact, provider, Some(name), glob) != []
  {
    hide Profile.Kind, Profile.ServesProvider, Keep;
    SelectedTwice(profiles, MatchedAs(Exact, provider, Some(name), glob));
  }

  lemma NamesDecide(profiles: seq<Profile>, provider: Option<string>, model: Option<string>, name: string, glob: Glob)
    ensures Resolve(provider, model, profiles, Some(name), glob).Ambiguous() <==>
            |Keep(profiles, NamedBy(name, provider))| > 1
  {
    hide Keep, NamedBy;
  }

  lemma AmbiguousHasPair(profiles: seq<Profile>, provider: Option<string>, model: Option<string>,
                         profileRef: Option<string>, glob: Glob)
    requires Resolve(provider, model, profiles, profileRef, glob).Ambiguous()
    ensures !AllSeparate(profiles, provider, glob)
  {
    hide Resolve, Keep, Profile.Kind;
    if profileRef.Some? {
      var keep := NamedBy(profileRef.value, provider);
      NamesDecide(profiles, provider, model, profileRef.value, glob);
      SelectedTwice(profiles, keep);
      var i, j :| 0 <= j < i < |profiles| && keep(profiles[i]) && keep(profiles[j]);
      assert SameName(profiles[i], profiles[j]);
    } else {
      AmbiguousIsUndecided(profiles, provider, model, glob);
      var kind :| Undecided(profiles, kind, provider, model, glob);
      var keep := MatchedAs(kind, provider, model, glob);
      SelectedTwice(profiles, keep);
      var i, j :| 0 <= j < i < |profiles| && keep(profiles[i]) && keep(profiles[j]);
      UndecidedPair(profiles, i, j, kind, provider, model, glob);
    }
  }

  lemma UndecidedPair(profiles: seq<Profile>, i: nat, j: nat, kind: SelectorKind, provider: Option<string>,
                      model: Option<string>, glob: Glob)
    requires j < i < |profiles| && Undecided(profiles, kind, provider, model, glob)
    requires Matches(profiles[i], provider, model, glob) && profiles[i].Kind() == kind
    requires Matches(profiles[j], provider, model, glob) && profiles[j].Kind() == kind
    ensures profiles[i].ServesProvider(provider) && profiles[j].ServesProvider(provider)
    ensures !Separate(profiles, profiles[i], profiles[j], provider, glob)
  {
    hide Candidates, HasPattern;
    if kind.Pattern? {
      assert Candidates(profiles, Exact, provider, model, glob) == [];
      PinnedHasExact(profiles, provider, model.value, glob);
    }
  }

  /** The query that shows two profiles to be inseparable. */
  lemma PairIsAmbiguous(profiles: seq<Profile>, i: nat, j: nat, provider: Option<string>, glob: Glob)
    returns (model: Option<string>, profileRef: Option<string>)
    requires j < i < |profiles| && profiles[i].ServesProvider(provider) && profiles[j].ServesProvider(provider)
    requires !Separate(profiles, profiles[i], profiles[j], provider, glob)
    ensures Resolve(provider, model, profiles, profileRef, glob).Ambiguous()
  {
    hide Resolve, Keep, HasPattern, Pinned;
    var a, b := profiles[i], profiles[j];
    model, profileRef := None, None;
    if SameName(a, b) {
      profileRef := a.profileName;
      NamesDecide(profiles, provider, model, a.profileName.value, glob);
      var keep := NamedBy(a.profileName.value, provider);
      SelectedTwice(profiles, keep);
      assert keep(profiles[i]) && keep(profiles[j]);
      return;
    }
    var kind := a.Kind();
    match kind {
      case ProviderDefault =>
        SelectedTwice(profiles, MatchedAs(Exact, provider, None, glob));
        SelectedTwice(profiles, MatchedAs(Pattern, provider, None, glob));
      case Exact =>
        model := a.modelSelector;
      case Pattern =>
        var name :| glob(name, a.modelSelector.value) && glob(name, b.modelSelector.value)
          && !Pinned(profiles, provider, name);
        model := Some(name);
        PinnedHasExact(profiles, provider, name, glob);
    }
    var keep := MatchedAs(kind, provider, model, glob);
    SelectedTwice(profiles, keep);
    assert keep(a) && keep(b);
    assert Undecided(profiles, kind, provider, model, glob);
    AmbiguousIsUndecided(profiles, provider, model, glob);
  }

  /** For any provider, named or left open, and any glob: no query is ambiguous if and only if no two profiles that
      serve the provider share a name, are both defaults, list the same exact model, or are patterns with a common
      name that no exact profile lists. */
  lemma NeverAmbiguousExact(profiles: seq<Profile>, provider: Option<string>, glob: Glob)
    ensures (forall model, profileRef :: !Resolve(provider, model, profiles, profileRef, glob).Ambiguous()) <==>
            AllSeparate(profiles, provider, glob)
  {
    hide Resolve, Separate;
    if AllSeparate(profiles, provider, glob) {
      forall model, profileRef ensures !Resolve(provider, model, profiles, profileRef, glob).Ambiguous() {
        if Resolve(provider, model, profiles, profileRef, glob).Ambiguous() {
          AmbiguousHasPair(profiles, provider, model, profileRef, glob);
        }
      }
    } else {
      var i, j :| 0 <= j < i < |profiles| && profiles[i].ServesProvider(provider)
          && profiles[j].ServesProvider(provider)
        && !Separate(profiles, profiles[i], profiles[j], provider, glob);
      var model, profileRef := PairIsAmbiguous(profiles, i, j, provider, glob);
    }
  }

  /** The same for queries that leave the provider open, where every profile serves. */
  lemma OpenQueriesExact(profiles: seq<Profile>, glob: Glob)
    ensures (forall model, profileRef :: !Resolve(None, model, profiles, profileRef, glob).Ambiguous()) <==>
            forall i, j | 0 <= j < i < |profiles| :: Separate(profiles, profiles[i], profiles[j], None, glob)
  {
    hide Resolve, Separate;
    NeverAmbiguousExact(profiles, None, glob);
  }

  // ---- order of the list -------------------------------------------------------------------------

  lemma {:induction false} SelectMultiset(profiles: seq<Profile>, keep: Profile -> bool)
    ensures forall p :: multiset(Keep(profiles, keep))[p] == if keep(p) then multiset(profiles)[p] else 0
  {
    if profiles == [] {
    } else {
      var last := |profiles| - 1;
      SelectMultiset(profiles[..last], keep);
      assert profiles == profiles[..last] + [profiles[last]];
    }
  }

  lemma SameMultiset(a: seq<Profile>, b: seq<Profile>)
    requires forall p :: multiset(a)[p] == multiset(b)[p]
    ensures |a| == |b|
    ensures |a| == 1 ==> a[0] == b[0]
  {
    assert multiset(a) == multiset(b);
    assert |a| == |multiset(a)| == |multiset(b)| == |b|;
    if |a| == 1 {
      assert a[0] in multiset(a);
      assert a[0] in multiset(b);
    }
  }

  lemma SelectPermuted(profiles: seq<Profile>, permuted: seq<Profile>, keep: Profile -> bool)
    requires multiset(profiles) == multiset(permuted)
    ensures |Keep(profiles, keep)| == |Keep(permuted, keep)|
    ensures |Keep(profiles, keep)| == 1 ==> Keep(profiles, keep)[0] == Keep(permuted, keep)[0]
  {
    SelectMultiset(profiles, keep);
    SelectMultiset(permuted, keep);
    SameMultiset(Keep(profiles, keep), Keep(permuted, keep));
  }

  /** The resolver's answer, an ambiguity included, ignores the order of the list. */
  lemma ResolveIgnoresOrder(profiles: seq<Profile>, permuted: seq<Profile>, provider: Option<string>,
                            model: Option<string>, profileRef: Option<string>, glob: Glob)
    requires multiset(profiles) == multiset(permuted)
    ensures Resolve(provider, model, profiles, profileRef, glob) == Resolve(provider, model, permuted, profileRef, glob)
  {
    if profileRef.Some? {
      SelectPermuted(profiles, permuted, NamedBy(profileRef.value, provider));
    } else {
      SelectPermuted(profiles, permuted, MatchedAs(Exact, provider, model, glob));
      SelectPermuted(profiles, permuted, MatchedAs(Pattern, provider, model, glob));
      SelectPermuted(profiles, permuted, MatchedAs(ProviderDefault, provider, model, glob));
    }
  }
}
