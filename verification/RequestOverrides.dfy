/** Merging request overrides: contracts.py. */
module RequestOverrides {
  import opened Text

  datatype Field = Model | Effort | ModelRoute | InvocationMode | MaxOutputTokens

  datatype Value = TextValue(text: string) | NumberValue(number: int)

  /** `sources` is None when the key is absent; `other` stands for the remaining metadata. */
  datatype Metadata = Metadata(sources: Option<seq<string>>, sourceSkill: Option<string>, other: map<string, string>)

  datatype Override = Override(
    requestedModel: Option<Value>,
    requestedEffort: Option<Value>,
    requestedModelRoute: Option<Value>,
    invocationModeOverride: Option<Value>,
    maxOutputTokensOverride: Option<Value>,
    source: Option<string>,
    fieldSources: map<Field, string>,
    resumable: bool,
    metadata: Metadata)
  {
    function Get(f: Field): Option<Value> {
      match f
      case Model => requestedModel
      case Effort => requestedEffort
      case ModelRoute => requestedModelRoute
      case InvocationMode => invocationModeOverride
      case MaxOutputTokens => maxOutputTokensOverride
    }

    predicate Truthy() {
      requestedModel.Some? || requestedEffort.Some? || requestedModelRoute.Some? || invocationModeOverride.Some?
      || maxOutputTokensOverride.Some?
    }

    /** Where this override says a field came from. */
    function Own(f: Field): Option<string> {
      Or(if f in fieldSources then Some(fieldSources[f]) else None, source)
    }

    function ListedSources(): seq<string> {
      metadata.sources.GetOr([])
    }
  }

  const FIELDS := [Model, Effort, ModelRoute, InvocationMode, MaxOutputTokens]

  function Pick<T>(incoming: Option<T>, current: Option<T>): Option<T> {
    if incoming.Some? then incoming else current
  }

  /** Normalise each candidate and keep its first occurrence. */
  function Collect(candidates: seq<Option<string>>): seq<string> {
    if candidates == [] then []
    else
      var front := Collect(candidates[..|candidates| - 1]);
      var normalized := CoerceOptionalString(candidates[|candidates| - 1]);
      if normalized.None? || normalized.value in front then front else front + [normalized.value]
  }

  function Somes(values: seq<string>): seq<Option<string>> {
    seq(|values|, k requires 0 <= k < |values| => Some(values[k]))
  }

  function Candidates(current: Override, incoming: Override): seq<Option<string>> {
    Somes(current.ListedSources()) + Somes(incoming.ListedSources()) + [current.source, incoming.source]
  }

  const SKILL_PREFIX := "skill:"

  /** The skill named by a source of the form `skill:...`. */
  function SkillOf(source: Option<string>): Option<string> {
    if source.Some? && StartsWith(source.value, SKILL_PREFIX) then Some(source.value[|SKILL_PREFIX|..]) else None
  }

  function MergedMetadata(current: Override, incoming: Override): Metadata {
    var sources := Collect(Candidates(current, incoming));
    var sourceSkill := Pick(incoming.metadata.sourceSkill, current.metadata.sourceSkill);
    Metadata(
      if sources != [] then Some(sources) else Pick(incoming.metadata.sources, current.metadata.sources),
      Pick(sourceSkill, SkillOf(incoming.source)),
      current.metadata.other + incoming.metadata.other)
  }

  function FieldSource(current: Override, incoming: Override, f: Field): Option<string> {
    if incoming.Get(f).Some? then incoming.Own(f) else current.Own(f)
  }

  function MergedFieldSources(current: Override, incoming: Override): map<Field, string> {
    map f: Field | FieldSource(current, incoming, f).Some? :: FieldSource(current, incoming, f).value
  }

  function MergeTwo(current: Override, incoming: Override): Override {
    Override(
      Pick(incoming.requestedModel, current.requestedModel),
      Pick(incoming.requestedEffort, current.requestedEffort),
      Pick(incoming.requestedModelRoute, current.requestedModelRoute),
      Pick(incoming.invocationModeOverride, current.invocationModeOverride),
      Pick(incoming.maxOutputTokensOverride, current.maxOutputTokensOverride),
      Or(incoming.source, current.source),
      MergedFieldSources(current, incoming),
      incoming.resumable || current.resumable,
      MergedMetadata(current, incoming))
  }

  function Merge(current: Option<Override>, incoming: Option<Override>): Option<Override> {
    if incoming.None? then current
    else if current.None? then incoming
    else
      var merged := MergeTwo(current.value, incoming.value);
      if merged.Truthy() then Some(merged) else None
  }

  // ---- the source's loops --------------------------------------------------------------------------

  method CollectSources(candidates: seq<Option<string>>) returns (sources: seq<string>)
    ensures sources == Collect(candidates)
  {
    sources := [];
    for k := 0 to |candidates|
      invariant sources == Collect(candidates[..k])
    {
      assert candidates[..k + 1][..k] == candidates[..k];
      var normalized := CoerceOptionalString(candidates[k]);
      if normalized.None? || normalized.value in sources {
        continue;
      }
      sources := sources + [normalized.value];
    }
    assert candidates[..|candidates|] == candidates;
  }

  method ResolveFieldSources(current: Override, incoming: Override) returns (fieldSources: map<Field, string>)
    ensures fieldSources == MergedFieldSources(current, incoming)
  {
    hide FieldSource;
    fieldSources := map[];
    for k := 0 to |FIELDS|
      invariant forall f :: f in fieldSources <==> f in FIELDS[..k] && FieldSource(current, incoming, f).Some?
      invariant forall f | f in fieldSources :: fieldSources[f] == FieldSource(current, incoming, f).value
    {
      var f := FIELDS[k];
      var source := FieldSource(current, incoming, f);
      if source.Some? {
        fieldSources := fieldSources[f := source.value];
      }
    }
    assert FIELDS[..|FIELDS|] == FIELDS;
    EveryField();
  }

  lemma EveryField()
    ensures forall f :: f in FIELDS
  {
    forall f ensures f in FIELDS {
      assert FIELDS == [Model, Effort, ModelRoute, InvocationMode, MaxOutputTokens];
      match f
      case Model => assert FIELDS[0] == f;
      case Effort => assert FIELDS[1] == f;
      case ModelRoute => assert FIELDS[2] == f;
      case InvocationMode => assert FIELDS[3] == f;
      case MaxOutputTokens => assert FIELDS[4] == f;
    }
  }

  method MergeMetadata(current: Override, incoming: Override) returns (metadata: Metadata)
    ensures metadata == MergedMetadata(current, incoming)
  {
    hide Collect;
    var sources := CollectSources(Candidates(current, incoming));
    metadata := Metadata(
      Pick(incoming.metadata.sources, current.metadata.sources),
      Pick(incoming.metadata.sourceSkill, current.metadata.sourceSkill),
      current.metadata.other + incoming.metadata.other);
    if sources != [] {
      metadata := metadata.(sources := Some(sources));
    }
    if incoming.source.Some? && incoming.source.value != "" && StartsWith(incoming.source.value, SKILL_PREFIX) {
      if metadata.sourceSkill.None? {
        metadata := metadata.(sourceSkill := Some(incoming.source.value[|SKILL_PREFIX|..]));
      }
    }
  }

  method MergeRequestOverrideState(current: Option<Override>, incoming: Option<Override>)
      returns (merged: Option<Override>)
    ensures merged == Merge(current, incoming)
  {
    if incoming.None? {
      return current;
    }
    if current.None? {
      return incoming;
    }
    hide MergedFieldSources, MergedMetadata;
    var c, i := current.value, incoming.value;
    var metadata := MergeMetadata(c, i);
    var fieldSources := ResolveFieldSources(c, i);
    var state := Override(
      if i.requestedModel.Some? then i.requestedModel else c.requestedModel,
      if i.requestedEffort.Some? then i.requestedEffort else c.requestedEffort,
      if i.requestedModelRoute.Some? then i.requestedModelRoute else c.requestedModelRoute,
      if i.invocationModeOverride.Some? then i.invocationModeOverride else c.invocationModeOverride,
      if i.maxOutputTokensOverride.Some? then i.maxOutputTokensOverride else c.maxOutputTokensOverride,
      Or(i.source, c.source), fieldSources, i.resumable || c.resumable, metadata);
    return if state.Truthy() then Some(state) else None;
  }

  // ---- series of merges ----------------------------------------------------------------------------

  /** A usable override: it has a source and sets something. */
  predicate Usable(o: Override) {
    o.source.Some? && o.source.value != "" && o.Truthy()
  }

  function MergeAll(overrides: seq<Override>): Option<Override> {
    if overrides == [] then None
    else Merge(MergeAll(overrides[..|overrides| - 1]), Some(overrides[|overrides| - 1]))
  }

  lemma MergeUsable(current: Override, incoming: Override, f: Field)
    requires Usable(current) && Usable(incoming)
    ensures Merge(Some(current), Some(incoming)) == Some(MergeTwo(current, incoming))
    ensures var merged := MergeTwo(current, incoming);
            Usable(merged) && merged.source == incoming.source
            && merged.Get(f) == Pick(incoming.Get(f), current.Get(f))
            && f in merged.fieldSources && Some(merged.fieldSources[f]) == FieldSource(current, incoming, f)
            && merged.Own(f) == FieldSource(current, incoming, f)
  {
    hide MergedMetadata;
    assert FieldSource(current, incoming, f).Some? && FieldSource(current, incoming, f).value != "";
  }

  /** An override is truthy when it sets one of the five fields. */
  lemma TruthyMeaning(o: Override)
    ensures o.Truthy() <==> exists f: Field :: o.Get(f).Some?
  {
    assert o.Get(Model) == o.requestedModel && o.Get(Effort) == o.requestedEffort;
    assert o.Get(ModelRoute) == o.requestedModelRoute && o.Get(InvocationMode) == o.invocationModeOverride;
    assert o.Get(MaxOutputTokens) == o.maxOutputTokensOverride;
  }

  /** A merge keeps each field's incoming value where there is one and drops a result that sets nothing. */
  lemma MergeKeepsFields(current: Override, incoming: Override)
    ensures var merged := MergeTwo(current, incoming);
            && merged.requestedModel == Pick(incoming.requestedModel, current.requestedModel)
            && merged.requestedEffort == Pick(incoming.requestedEffort, current.requestedEffort)
            && merged.requestedModelRoute == Pick(incoming.requestedModelRoute, current.requestedModelRoute)
            && merged.invocationModeOverride == Pick(incoming.invocationModeOverride, current.invocationModeOverride)
            && merged.maxOutputTokensOverride == Pick(incoming.maxOutputTokensOverride, current.maxOutputTokensOverride)
    ensures Merge(Some(current), Some(incoming)).None? <==>
            forall o, f: Field | o in {current, incoming} :: o.Get(f).None?
    ensures Merge(Some(current), None) == Some(current) && Merge(None, Some(incoming)) == Some(incoming)
  {
    hide MergedFieldSources, MergedMetadata, Override.Truthy, Override.Get;
    TruthyMeaning(MergeTwo(current, incoming));
    forall f: Field
      ensures MergeTwo(current, incoming).Get(f).Some? <==> current.Get(f).Some? || incoming.Get(f).Some?
    {
      GetMerged(current, incoming, f);
    }
  }

  lemma GetMerged(current: Override, incoming: Override, f: Field)
    ensures MergeTwo(current, incoming).Get(f) == Pick(incoming.Get(f), current.Get(f))
  {
    hide MergedFieldSources, MergedMetadata;
  }

  lemma FieldAttributed(current: Override, incoming: Override, f: Field)
    ensures AttributedTo(MergeTwo(current, incoming), f, if incoming.Get(f).Some? then incoming else current)
  {
    hide MergedMetadata, Override.Get;
    assert f in MergeTwo(current, incoming).fieldSources <==> FieldSource(current, incoming, f).Some?;
  }

  /** Each field carries the name of the operand its value came from: that operand's own attribution of the field, or
      its source. */
  lemma MergeAttributes(current: Override, incoming: Override)
    ensures var merged := MergeTwo(current, incoming);
            && AttributedTo(merged, Model, if incoming.requestedModel.Some? then incoming else current)
            && AttributedTo(merged, Effort, if incoming.requestedEffort.Some? then incoming else current)
            && AttributedTo(merged, ModelRoute, if incoming.requestedModelRoute.Some? then incoming else current)
            && AttributedTo(merged, InvocationMode, if incoming.invocationModeOverride.Some? then incoming else current)
            && AttributedTo(merged, MaxOutputTokens,
                            if incoming.maxOutputTokensOverride.Some? then incoming else current)
  {
    hide MergeTwo, AttributedTo;
    FieldAttributed(current, incoming, Model);
    FieldAttributed(current, incoming, Effort);
    FieldAttributed(current, incoming, ModelRoute);
    FieldAttributed(current, incoming, InvocationMode);
    FieldAttributed(current, incoming, MaxOutputTokens);
  }

  predicate AttributedTo(merged: Override, f: Field, origin: Override) {
    if f in origin.fieldSources && origin.fieldSources[f] != "" then
      f in merged.fieldSources && merged.fieldSources[f] == origin.fieldSources[f]
    else if origin.source.Some? then f in merged.fieldSources && Some(merged.fieldSources[f]) == origin.source
    else f !in merged.fieldSources
  }

  /** A source that names a skill records it, unless a skill is on record. */
  lemma SkillIsRecorded(current: Override, incoming: Override, name: string)
    ensures current.metadata.sourceSkill.None? && incoming.metadata.sourceSkill.None?
            && incoming.source == Some("skill:" + name) ==>
              MergeTwo(current, incoming).metadata.sourceSkill == Some(name)
    ensures incoming.metadata.sourceSkill.Some? ==>
              MergeTwo(current, incoming).metadata.sourceSkill == incoming.metadata.sourceSkill
    ensures incoming.metadata.sourceSkill.None? && current.metadata.sourceSkill.Some? ==>
              MergeTwo(current, incoming).metadata.sourceSkill == current.metadata.sourceSkill
  {
    hide MergedFieldSources, Collect;
    assert ("skill:" + name)[|SKILL_PREFIX|..] == name && StartsWith("skill:" + name, SKILL_PREFIX);
  }

  /** The last override that sets the field, or the first one if none does. */
  function LastSetter(overrides: seq<Override>, f: Field): (k: nat)
    requires overrides != []
    ensures k < |overrides|
    ensures k == 0 || overrides[k].Get(f).Some?
    ensures forall m | k < m < |overrides| :: overrides[m].Get(f).None?
  {
    var last := |overrides| - 1;
    if last == 0 || overrides[last].Get(f).Some? then last else LastSetter(overrides[..last], f)
  }

  /** However many overrides are merged, each field holds the last value that was set, attributed as the override
      that set it attributes it. */
  lemma {:induction false} LastSetWins(overrides: seq<Override>, f: Field)
    requires overrides != [] && forall k | 0 <= k < |overrides| :: Usable(overrides[k])
    ensures MergeAll(overrides).Some? && Usable(MergeAll(overrides).value)
    ensures var setter := overrides[LastSetter(overrides, f)];
            MergeAll(overrides).value.Get(f) == setter.Get(f) && MergeAll(overrides).value.Own(f) == setter.Own(f)
    ensures MergeAll(overrides).value.source == overrides[|overrides| - 1].source
  {
    hide MergeTwo, Override.Own, Usable;
    var last := |overrides| - 1;
    if last > 0 {
      LastSetWins(overrides[..last], f);
      MergeUsable(MergeAll(overrides[..last]).value, overrides[last], f);
    } else {
      assert MergeAll(overrides[..0]) == None;
    }
  }

  /** A series of usable overrides merges into a usable one, by merging the last into the rest. */
  lemma SeriesStep(overrides: seq<Override>)
    requires overrides != [] && AllUsable(overrides)
    ensures MergeAll(overrides).Some? && Usable(MergeAll(overrides).value)
    ensures |overrides| == 1 ==> MergeAll(overrides) == Some(overrides[0])
    ensures |overrides| > 1 ==>
              var front := overrides[..|overrides| - 1];
              AllUsable(front) && MergeAll(front).Some?
              && MergeAll(overrides) == Some(MergeTwo(MergeAll(front).value, overrides[|overrides| - 1]))
  {
    hide MergeTwo, Usable;
    LastSetWins(overrides, Model);
    var last := |overrides| - 1;
    if last == 0 {
      assert MergeAll(overrides[..0]) == None;
    } else {
      LastSetWins(overrides[..last], Model);
      MergeUsable(MergeAll(overrides[..last]).value, overrides[last], Model);
    }
  }

  lemma ResumableMerged(current: Override, incoming: Override)
    ensures MergeTwo(current, incoming).resumable <==> current.resumable || incoming.resumable
  {
    hide MergedFieldSources, MergedMetadata;
  }

  /** A series is resumable when one of its overrides is. */
  lemma {:induction false} SeriesResumable(overrides: seq<Override>)
    requires overrides != [] && AllUsable(overrides)
    ensures MergeAll(overrides).Some?
    ensures MergeAll(overrides).value.resumable <==> exists o | o in overrides :: o.resumable
  {
    SeriesStep(overrides);
    hide MergeAll, MergeTwo, AllUsable;
    var last := |overrides| - 1;
    assert forall o :: o in overrides <==> o in overrides[..last] || o == overrides[last] by {
      assert overrides == overrides[..last] + [overrides[last]];
    }
    if last > 0 {
      SeriesResumable(overrides[..last]);
      ResumableMerged(MergeAll(overrides[..last]).value, overrides[last]);
    }
  }

  /** Of the remaining metadata each key has the value of the last override that has the key. */
  lemma {:induction false} SeriesMetadata(overrides: seq<Override>, key: string, k: nat)
    requires k < |overrides| && AllUsable(overrides) && key in overrides[k].metadata.other
    requires forall m | k < m < |overrides| :: key !in overrides[m].metadata.other
    ensures MergeAll(overrides).Some? && key in MergeAll(overrides).value.metadata.other
    ensures MergeAll(overrides).value.metadata.other[key] == overrides[k].metadata.other[key]
  {
    SeriesStep(overrides);
    hide MergeAll, MergeTwo, AllUsable;
    var last := |overrides| - 1;
    if last > 0 {
      OtherMetadata(MergeAll(overrides[..last]).value, overrides[last]);
      if k < last {
        assert overrides[..last][k] == overrides[k];
        SeriesMetadata(overrides[..last], key, k);
      }
    }
  }

  // ---- regrouping ----------------------------------------------------------------------------------

  function Normalized(values: seq<string>): set<string> {
    set v | v in values && CoerceOptionalString(Some(v)).Some? :: CoerceOptionalString(Some(v)).value
  }

  function NormalizedSource(source: Option<string>): set<string> {
    if CoerceOptionalString(source).Some? then {CoerceOptionalString(source).value} else {}
  }

  /** The sources an override has on record. */
  function Recorded(o: Override): set<string> {
    Normalized(o.ListedSources())
  }

  lemma {:induction false} CollectMembers(candidates: seq<Option<string>>, s: string)
    ensures s in Collect(candidates) <==>
        exists k | 0 <= k < |candidates| :: CoerceOptionalString(candidates[k]) == Some(s)
  {
    hide CoerceOptionalString;
    if candidates == [] {
    } else {
      var last := |candidates| - 1;
      CollectMembers(candidates[..last], s);
      assert forall k | 0 <= k < last :: candidates[..last][k] == candidates[k];
    }
  }

  lemma CollectedIn(current: Override, incoming: Override, s: string)
    ensures s in Collect(Candidates(current, incoming)) <==>
            s in Recorded(current) + Recorded(incoming) + NormalizedSource(current.source) +
                NormalizedSource(incoming.source)
  {
    hide CoerceOptionalString, Collect;
    var c, i := current.ListedSources(), incoming.ListedSources();
    var all := Candidates(current, incoming);
    CollectMembers(all, s);
    assert all[|c| + |i|] == current.source && all[|c| + |i| + 1] == incoming.source;
    assert forall k | 0 <= k < |c| :: all[k] == Some(c[k]);
    assert forall k | 0 <= k < |i| :: all[|c| + k] == Some(i[k]);
    if s in Normalized(c) {
      var v :| v in c && CoerceOptionalString(Some(v)) == Some(s);
      var k :| 0 <= k < |c| && c[k] == v;
      assert CoerceOptionalString(all[k]) == Some(s);
    }
    if s in Normalized(i) {
      var v :| v in i && CoerceOptionalString(Some(v)) == Some(s);
      var k :| 0 <= k < |i| && i[k] == v;
      assert CoerceOptionalString(all[|c| + k]) == Some(s);
    }
  }

  /** A merge records exactly what both operands had on record and the two sources themselves. */
  lemma MergeRecords(current: Override, incoming: Override)
    ensures Recorded(MergeTwo(current, incoming)) ==
            Recorded(current) + Recorded(incoming) + NormalizedSource(current.source) +
                NormalizedSource(incoming.source)
  {
    hide CoerceOptionalString, MergedFieldSources;
    var collected := Collect(Candidates(current, incoming));
    forall s ensures s in collected <==>
        s in Recorded(current) + Recorded(incoming) + NormalizedSource(current.source) +
            NormalizedSource(incoming.source)
    {
      CollectedIn(current, incoming, s);
    }
    forall s | s in collected ensures CoerceOptionalString(Some(s)) == Some(s) {
      var k := WhereCollected(Candidates(current, incoming), s);
      StripSettled(Candidates(current, incoming)[k], s);
    }
    NormalizedFixed(collected);
    if collected == [] {
      NothingCollected(current, incoming);
    }
  }

  lemma WhereCollected(candidates: seq<Option<string>>, s: string) returns (k: nat)
    requires s in Collect(candidates)
    ensures k < |candidates| && CoerceOptionalString(candidates[k]) == Some(s)
  {
    CollectMembers(candidates, s);
    k :| 0 <= k < |candidates| && CoerceOptionalString(candidates[k]) == Some(s);
  }

  lemma StripSettled(value: Option<string>, s: string)
    requires CoerceOptionalString(value) == Some(s)
    ensures CoerceOptionalString(Some(s)) == Some(s)
  {
  }

  lemma NormalizedFixed(values: seq<string>)
    requires forall s | s in values :: CoerceOptionalString(Some(s)) == Some(s)
    ensures forall s :: s in Normalized(values) <==> s in values
  {
    hide CoerceOptionalString;
  }

  lemma NothingCollected(current: Override, incoming: Override)
    requires Collect(Candidates(current, incoming)) == []
    ensures Recorded(current) == {} && Recorded(incoming) == {}
  {
    hide CoerceOptionalString, Collect, Candidates, Recorded;
    forall s ensures s !in Recorded(current) && s !in Recorded(incoming) {
      CollectedIn(current, incoming, s);
    }
  }

  /** Everything that regrouping must not change. */
  ghost predicate Similar(a: Override, b: Override) {
    && (forall f :: a.Get(f) == b.Get(f))
    && a.source == b.source && a.resumable == b.resumable && a.fieldSources == b.fieldSources
    && Recorded(a) == Recorded(b) && a.metadata.other == b.metadata.other
  }

  lemma SimilarOwn(a: Override, b: Override, f: Field)
    requires Similar(a, b)
    ensures a.Get(f) == b.Get(f) && a.Own(f) == b.Own(f)
  {
    hide Recorded;
  }

  lemma SameMergedField(a: Override, b: Override, c: Override, d: Override, f: Field)
    requires a.Get(f) == b.Get(f) && c.Get(f) == d.Get(f) && a.Own(f) == b.Own(f) && c.Own(f) == d.Own(f)
    ensures MergeTwo(a, c).Get(f) == MergeTwo(b, d).Get(f) && FieldSource(a, c, f) == FieldSource(b, d, f)
  {
    hide MergedFieldSources, MergedMetadata, Override.Own;
  }

  lemma SameAttribution(a: Override, b: Override, c: Override, d: Override)
    requires forall f :: FieldSource(a, c, f) == FieldSource(b, d, f)
    ensures MergeTwo(a, c).fieldSources == MergeTwo(b, d).fieldSources
  {
    hide FieldSource, MergedMetadata;
  }

  lemma SimilarOperands(a: Override, b: Override, c: Override, d: Override)
    requires Similar(a, b) && Similar(c, d)
    ensures Similar(MergeTwo(a, c), MergeTwo(b, d))
  {
    MergeRecords(a, c);
    MergeRecords(b, d);
    OtherMetadata(a, c);
    OtherMetadata(b, d);
    hide Recorded, MergedFieldSources, MergedMetadata, Override.Own, Override.Get, FieldSource;
    forall f
      ensures MergeTwo(a, c).Get(f) == MergeTwo(b, d).Get(f) && FieldSource(a, c, f) == FieldSource(b, d, f)
    {
      SimilarOwn(a, b, f);
      SimilarOwn(c, d, f);
      SameMergedField(a, b, c, d, f);
    }
    SameAttribution(a, b, c, d);
  }

  lemma MergeAssociates(a: Override, b: Override, c: Override)
    requires Usable(a) && Usable(b) && Usable(c)
    ensures Similar(MergeTwo(MergeTwo(a, b), c), MergeTwo(a, MergeTwo(b, c)))
  {
    hide Recorded, MergedFieldSources, MergedMetadata;
    var ab, bc := MergeTwo(a, b), MergeTwo(b, c);
    MergeRecords(a, b);
    MergeRecords(b, c);
    MergeRecords(ab, c);
    MergeRecords(a, bc);
    SameFields(a, b, c);
    MetadataAssociates(a, b, c);
  }

  lemma OtherMetadata(current: Override, incoming: Override)
    ensures MergeTwo(current, incoming).metadata.other == current.metadata.other + incoming.metadata.other
  {
  }

  lemma UpdatesAssociate(x: map<string, string>, y: map<string, string>, z: map<string, string>)
    ensures (x + y) + z == x + (y + z)
  {
  }

  lemma MetadataAssociates(a: Override, b: Override, c: Override)
    ensures MergeTwo(MergeTwo(a, b), c).metadata.other == MergeTwo(a, MergeTwo(b, c)).metadata.other
  {
    hide MergeTwo;
    OtherMetadata(a, b);
    OtherMetadata(b, c);
    OtherMetadata(MergeTwo(a, b), c);
    OtherMetadata(a, MergeTwo(b, c));
    UpdatesAssociate(a.metadata.other, b.metadata.other, c.metadata.other);
  }

  lemma SameFields(a: Override, b: Override, c: Override)
    requires Usable(a) && Usable(b) && Usable(c)
    ensures var l, r := MergeTwo(MergeTwo(a, b), c), MergeTwo(a, MergeTwo(b, c));
            l.fieldSources == r.fieldSources && forall f :: l.Get(f) == r.Get(f)
  {
    hide MergeTwo, Override.Own, Usable, FieldSource;
    var l, r := MergeTwo(MergeTwo(a, b), c), MergeTwo(a, MergeTwo(b, c));
    forall f: Field
      ensures l.Get(f) == r.Get(f) && f in l.fieldSources && f in r.fieldSources
          && l.fieldSources[f] == r.fieldSources[f]
    {
      SameField(a, b, c, f);
    }
  }

  lemma SameField(a: Override, b: Override, c: Override, f: Field)
    requires Usable(a) && Usable(b) && Usable(c)
    ensures var l, r := MergeTwo(MergeTwo(a, b), c), MergeTwo(a, MergeTwo(b, c));
            l.Get(f) == r.Get(f) && f in l.fieldSources && f in r.fieldSources && l.fieldSources[f] == r.fieldSources[f]
  {
    hide MergeTwo, Override.Own, Usable;
    MergeUsable(a, b, f);
    MergeUsable(b, c, f);
    MergeUsable(MergeTwo(a, b), c, f);
    MergeUsable(a, MergeTwo(b, c), f);
  }

  /** A way to bracket a series of merges. */
  datatype Grouping = One(override: Override) | Both(left: Grouping, right: Grouping)

  function Leaves(g: Grouping): seq<Override> {
    match g
    case One(override) => [override]
    case Both(left, right) => Leaves(left) + Leaves(right)
  }

  function Evaluate(g: Grouping): Option<Override> {
    match g
    case One(override) => Some(override)
    case Both(left, right) => Merge(Evaluate(left), Evaluate(right))
  }

  predicate AllUsable(overrides: seq<Override>) {
    forall k | 0 <= k < |overrides| :: Usable(overrides[k])
  }

  lemma {:induction false} AppendSeries(left: seq<Override>, right: seq<Override>)
    requires left != [] && right != [] && AllUsable(left) && AllUsable(right)
    ensures MergeAll(left).Some? && Usable(MergeAll(left).value) && MergeAll(right).Some?
        && Usable(MergeAll(right).value)
    ensures MergeAll(left + right).Some? && Usable(MergeAll(left + right).value)
    ensures Similar(MergeAll(left + right).value, MergeTwo(MergeAll(left).value, MergeAll(right).value))
  {
    hide MergeTwo, Usable, Similar;
    var last := |right| - 1;
    LastSetWins(left, Model);
    LastSetWins(right, Model);
    LastSetWins(left + right, Model);
    assert (left + right)[..|left| + last] == left + right[..last];
    var l, x := MergeAll(left).value, right[last];
    if last == 0 {
      assert left + right[..0] == left && MergeAll(right[..0]) == None;
      MergeUsable(l, x, Model);
      SimilarToSelf(MergeTwo(l, x));
    } else {
      var front := right[..last];
      AppendSeries(left, front);
      var m := MergeAll(front).value;
      MergeUsable(m, x, Model);
      MergeUsable(MergeAll(left + front).value, x, Model);
      MergeUsable(l, m, Model);
      SimilarToSelf(x);
      SimilarOperands(MergeAll(left + front).value, MergeTwo(l, m), x, x);
      MergeAssociates(l, m, x);
      SimilarChain(MergeTwo(MergeAll(left + front).value, x), MergeTwo(MergeTwo(l, m), x), MergeTwo(l, MergeTwo(m, x)));
    }
  }

  lemma SimilarToSelf(a: Override)
    ensures Similar(a, a)
  {
  }

  lemma SimilarChain(a: Override, b: Override, c: Override)
    requires Similar(a, b) && Similar(b, c)
    ensures Similar(a, c) && Similar(b, a)
  {
    hide Recorded;
    forall f ensures a.Get(f) == c.Get(f) && b.Get(f) == a.Get(f) {
      assert a.Get(f) == b.Get(f) && b.Get(f) == c.Get(f);
    }
  }

  /** However a series of merges is bracketed, the fields, the source, the resumable flag, the attribution and the
      set of recorded sources come out the same as merging from the left. */
  lemma {:induction false} RegroupingChangesNothing(g: Grouping)
    requires AllUsable(Leaves(g))
    ensures Leaves(g) != [] && MergeAll(Leaves(g)).Some? && Evaluate(g).Some? && Usable(Evaluate(g).value)
    ensures Similar(Evaluate(g).value, MergeAll(Leaves(g)).value)
  {
    hide MergeTwo, Usable, Similar;
    match g
    case One(override) =>
      assert Leaves(g)[0] == override && MergeAll([override][..0]) == None;
      SimilarToSelf(override);
    case Both(left, right) =>
      var l, r := Leaves(left), Leaves(right);
      assert forall k | 0 <= k < |l| :: l[k] == Leaves(g)[k];
      assert forall k | 0 <= k < |r| :: r[k] == Leaves(g)[|l| + k];
      RegroupingChangesNothing(left);
      RegroupingChangesNothing(right);
      var a, b := Evaluate(left).value, Evaluate(right).value;
      var c, d := MergeAll(l).value, MergeAll(r).value;
      MergeUsable(a, b, Model);
      AppendSeries(l, r);
      SimilarOperands(a, c, b, d);
      var all := MergeAll(l + r).value;
      SimilarToSelf(MergeTwo(c, d));
      SimilarChain(all, MergeTwo(c, d), MergeTwo(c, d));
      SimilarChain(MergeTwo(a, b), MergeTwo(c, d), all);
  }

  // ---- the order of the recorded sources -----------------------------------------------------------

  /** The names a list of candidates adds to the known ones, in order. */
  function Added(known: seq<string>, candidates: seq<Option<string>>): seq<string> {
    if candidates == [] then []
    else
      var front, last := Added(known, candidates[..|candidates| - 1]), candidates[|candidates| - 1];
      var normalized := CoerceOptionalString(last);
      if normalized.None? || normalized.value in known || normalized.value in front then front
      else front + [normalized.value]
  }

  lemma AddedOne(known: seq<string>, candidates: seq<Option<string>>, last: Option<string>)
    ensures var front, normalized := Added(known, candidates), CoerceOptionalString(last);
            Added(known, candidates + [last]) ==
            if normalized.None? || normalized.value in known || normalized.value in front then front
            else front + [normalized.value]
  {
    hide CoerceOptionalString;
    assert (candidates + [last])[..|candidates|] == candidates;
  }

  lemma {:induction false} CollectIsAdded(candidates: seq<Option<string>>)
    ensures Collect(candidates) == Added([], candidates)
  {
    hide CoerceOptionalString;
    if candidates == [] {
    } else {
      CollectIsAdded(candidates[..|candidates| - 1]);
    }
  }

  lemma {:induction false} AddedSplit(known: seq<string>, xs: seq<Option<string>>, ys: seq<Option<string>>)
    ensures Added(known, xs + ys) == Added(known, xs) + Added(known + Added(known, xs), ys)
  {
    hide CoerceOptionalString;
    if ys == [] {
      assert xs + ys == xs && Added(known, xs) + [] == Added(known, xs);
    } else {
      var front, last := ys[..|ys| - 1], ys[|ys| - 1];
      assert xs + ys == (xs + front) + [last] && ys == front + [last];
      AddedSplit(known, xs, front);
      AddedOne(known, xs + front, last);
      AddedOne(known + Added(known, xs), front, last);
    }
  }

  lemma {:induction false} AddedMembers(known: seq<string>, candidates: seq<Option<string>>, s: string)
    ensures s in Added(known, candidates) <==>
            s !in known && exists k | 0 <= k < |candidates| :: CoerceOptionalString(candidates[k]) == Some(s)
  {
    hide CoerceOptionalString;
    if candidates == [] {
    } else {
      var last := |candidates| - 1;
      AddedMembers(known, candidates[..last], s);
      assert forall k | 0 <= k < last :: candidates[..last][k] == candidates[k];
    }
  }

  predicate Distinct(names: seq<string>) {
    forall i, j | 0 <= i < j < |names| :: names[i] != names[j]
  }

  lemma {:induction false} AddedDistinct(known: seq<string>, candidates: seq<Option<string>>)
    ensures Distinct(Added(known, candidates))
  {
    hide CoerceOptionalString;
    if candidates == [] {
    } else {
      AddedDistinct(known, candidates[..|candidates| - 1]);
    }
  }

  /** A candidate that is known, or repeated, adds nothing. */
  lemma AddedAgain(known: seq<string>, candidates: seq<Option<string>>, last: Option<string>)
    requires last in candidates || CoerceOptionalString(last).None? || CoerceOptionalString(last).value in known
    ensures Added(known, candidates + [last]) == Added(known, candidates)
  {
    AddedOne(known, candidates, last);
    if CoerceOptionalString(last).Some? {
      AddedMembers(known, candidates, CoerceOptionalString(last).value);
    }
  }

  /** A collected list adds what its candidates add. */
  lemma {:induction false} AddedOfCollected(known: seq<string>, candidates: seq<Option<string>>)
    ensures Added(known, Somes(Collect(candidates))) == Added(known, candidates)
  {
    hide CoerceOptionalString;
    if candidates == [] {
    } else {
      var front, last := candidates[..|candidates| - 1], candidates[|candidates| - 1];
      var normalized := CoerceOptionalString(last);
      assert candidates == front + [last];
      AddedOfCollected(known, front);
      AddedOne(known, front, last);
      if normalized.None? {
      } else if normalized.value in Collect(front) {
        CollectMembers(front, normalized.value);
        AddedMembers(known, front, normalized.value);
      } else {
        StripSettled(last, normalized.value);
        assert Somes(Collect(front) + [normalized.value]) == Somes(Collect(front)) + [Some(normalized.value)];
        AddedOne(known, Somes(Collect(front)), Some(normalized.value));
      }
    }
  }

  lemma NothingAdded(known: seq<string>, candidates: seq<Option<string>>)
    requires forall k | 0 <= k < |candidates| :: CoerceOptionalString(candidates[k]).None?
    ensures Added(known, candidates) == []
  {
    if Added(known, candidates) != [] {
      AddedMembers(known, candidates, Added(known, candidates)[0]);
    }
  }

  /** What a merged override has on record adds what its operands and their sources add. */
  lemma AddedOfListed(known: seq<string>, current: Override, incoming: Override)
    ensures Added(known, Somes(MergeTwo(current, incoming).ListedSources())) ==
        Added(known, Candidates(current, incoming))
  {
    hide CoerceOptionalString, MergedFieldSources;
    var candidates := Candidates(current, incoming);
    if Collect(candidates) != [] {
      AddedOfCollected(known, candidates);
    } else {
      forall k | 0 <= k < |candidates| ensures CoerceOptionalString(candidates[k]).None? {
        if CoerceOptionalString(candidates[k]).Some? {
          CollectMembers(candidates, CoerceOptionalString(candidates[k]).value);
        }
      }
      NothingAdded(known, candidates);
      var c, i := current.ListedSources(), incoming.ListedSources();
      assert forall k | 0 <= k < |c| :: Somes(c)[k] == candidates[k];
      assert forall k | 0 <= k < |i| :: Somes(i)[k] == candidates[|c| + k];
      NothingAdded(known, Somes(c));
      NothingAdded(known, Somes(i));
    }
  }

  function Without(names: seq<string>, gone: seq<string>): seq<string> {
    if names == [] then []
    else
      var last := |names| - 1;
      Without(names[..last], gone) + if names[last] in gone then [] else [names[last]]
  }

  lemma WithoutOne(names: seq<string>, last: string, gone: seq<string>)
    ensures Without(names + [last], gone) == Without(names, gone) + if last in gone then [] else [last]
  {
    assert (names + [last])[..|names|] == names;
  }

  lemma {:induction false} WithoutMembers(names: seq<string>, gone: seq<string>, s: string)
    ensures s in Without(names, gone) <==> s in names && s !in gone
  {
    if names == [] {
    } else {
      WithoutMembers(names[..|names| - 1], gone, s);
      assert names == names[..|names| - 1] + [names[|names| - 1]];
    }
  }

  lemma {:induction false} KnownMore(known: seq<string>, more: seq<string>, candidates: seq<Option<string>>)
    ensures Added(known + more, candidates) == Without(Added(known, candidates), more)
  {
    hide CoerceOptionalString;
    if candidates == [] {
    } else {
      var front, last := candidates[..|candidates| - 1], candidates[|candidates| - 1];
      assert candidates == front + [last];
      KnownMore(known, more, front);
      AddedOne(known, front, last);
      AddedOne(known + more, front, last);
      if CoerceOptionalString(last).Some? {
        var name := CoerceOptionalString(last).value;
        WithoutOne(Added(known, front), name, more);
        WithoutMembers(Added(known, front), more, name);
      }
    }
  }

  lemma {:induction false} WithoutPrefix(gone: seq<string>, rest: seq<string>)
    requires Distinct(gone + rest)
    ensures Without(gone + rest, gone) == rest
  {
    if rest == [] {
      assert gone + rest == gone;
      if Without(gone, gone) != [] {
        WithoutMembers(gone, gone, Without(gone, gone)[0]);
      }
    } else {
      var front, last := rest[..|rest| - 1], rest[|rest| - 1];
      var all := gone + rest;
      assert all == gone + front + [last] && rest == front + [last];
      assert forall k | 0 <= k < |gone + front| :: all[k] == (gone + front)[k];
      WithoutPrefix(gone, front);
      WithoutOne(gone + front, last, gone);
      forall k | 0 <= k < |gone| ensures gone[k] != last {
        assert all[k] == gone[k] && all[|all| - 1] == last;
      }
    }
  }

  /** What both groupings know first: the records of the first two operands. */
  function KnownFirst(a: Override, b: Override): seq<string> {
    Added([], Somes(a.ListedSources()) + Somes(b.ListedSources()))
  }

  lemma LeftSources(a: Override, b: Override, c: Override)
    requires Usable(a) && Usable(b) && Usable(c)
    ensures var known := KnownFirst(a, b);
            var first := Added(known, [a.source, b.source]);
            Collect(Candidates(MergeTwo(a, b), c)) ==
            known + first + Added(known + first, Somes(c.ListedSources()) + [b.source, c.source])
  {
    hide CoerceOptionalString, Collect, Added, MergedFieldSources, MergedMetadata, Override.Truthy;
    var ab := MergeTwo(a, b);
    var records := Somes(a.ListedSources()) + Somes(b.ListedSources());
    var later := Somes(c.ListedSources()) + [b.source, c.source];
    var known := KnownFirst(a, b);
    assert Candidates(ab, c) == Somes(ab.ListedSources()) + later;
    CollectIsAdded(Candidates(ab, c));
    AddedSplit([], Somes(ab.ListedSources()), later);
    AddedOfListed([], a, b);
    assert Candidates(a, b) == records + [a.source, b.source];
    AddedSplit([], records, [a.source, b.source]);
    var first := Added(known, [a.source, b.source]);
    assert [] + known == known && [] + (known + first) == known + first;
  }

  lemma RightSources(a: Override, b: Override, c: Override)
    requires Usable(a) && Usable(b) && Usable(c)
    ensures Collect(Candidates(a, MergeTwo(b, c))) ==
            KnownFirst(a, b) + Added(KnownFirst(a, b), Somes(c.ListedSources()) + [b.source, c.source, a.source])
  {
    hide CoerceOptionalString, Collect, Added, MergedFieldSources, MergedMetadata, Override.Truthy;
    var bc := MergeTwo(b, c);
    var own, listed, closing := Somes(a.ListedSources()), Somes(bc.ListedSources()), [a.source, c.source];
    var records, rest := Somes(b.ListedSources()), Somes(c.ListedSources()) + [b.source, c.source];
    assert Candidates(a, bc) == own + (listed + closing);
    CollectIsAdded(Candidates(a, bc));
    var k0 := Added([], own);
    assert [] + k0 == k0;
    AddedSplit([], own, listed + closing);
    AddedSplit(k0, listed, closing);
    AddedOfListed(k0, b, c);
    assert Candidates(b, c) == records + rest;
    AddedSplit(k0, records + rest, closing);
    assert records + rest + closing == records + (rest + closing);
    AddedSplit(k0, records, rest + closing);
    AddedSplit([], own, records);
    var known := KnownFirst(a, b);
    assert known == k0 + Added(k0, records);
    assert rest + closing == (rest + [a.source]) + [c.source];
    assert (rest + [a.source])[|rest| - 1] == c.source;
    AddedAgain(known, rest + [a.source], c.source);
    assert rest + [a.source] == Somes(c.ListedSources()) + [b.source, c.source, a.source];
  }

  /** Grouping to the left and to the right list the same sources in the same order exactly when the names of the
      first two operands, where they are new, also come first among the names the right grouping adds. */
  lemma SourcesOrderExact(a: Override, b: Override, c: Override)
    requires Usable(a) && Usable(b) && Usable(c)
    ensures var l, r := MergeTwo(MergeTwo(a, b), c), MergeTwo(a, MergeTwo(b, c));
            l.metadata.sources == r.metadata.sources <==>
            Added(KnownFirst(a, b), [a.source, b.source]) <=
            Added(KnownFirst(a, b), Somes(c.ListedSources()) + [b.source, c.source, a.source])
  {
    hide CoerceOptionalString, Collect, Added, MergedFieldSources, Override.Truthy, Candidates;
    var known, later := KnownFirst(a, b), Somes(c.ListedSources()) + [b.source, c.source];
    var first, right := Added(known, [a.source, b.source]), Added(known, later + [a.source]);
    assert later + [a.source] == Somes(c.ListedSources()) + [b.source, c.source, a.source];
    LeftSources(a, b, c);
    RightSources(a, b, c);
    SameListExact(known, [a.source, b.source], later);
    EmptyTogether(a, b, c);
    EmptyInner(a, b);
    EmptyInner(b, c);
  }

  lemma SameListExact(known: seq<string>, firstTwo: seq<Option<string>>, later: seq<Option<string>>)
    requires |firstTwo| == 2
    ensures var first, right := Added(known, firstTwo), Added(known, later + [firstTwo[0]]);
            known + first + Added(known + first, later) == known + right <==> first <= right
  {
    hide CoerceOptionalString, Added;
    var first, right := Added(known, firstTwo), Added(known, later + [firstTwo[0]]);
    if known + first + Added(known + first, later) == known + right {
      assert right == (known + right)[|known|..] == first + Added(known + first, later);
    }
    if first <= right {
      var rest := right[|first|..];
      assert right == first + rest;
      AddedDistinct(known, later + [firstTwo[0]]);
      WithoutPrefix(first, rest);
      KnownMore(known, first, later + [firstTwo[0]]);
      if CoerceOptionalString(firstTwo[0]).Some? {
        AddedMembers(known, firstTwo, CoerceOptionalString(firstTwo[0]).value);
      }
      AddedAgain(known + first, later, firstTwo[0]);
      assert known + first + rest == known + right;
    }
  }

  lemma SameNames(a: Override, b: Override, c: Override, s: string)
    requires Usable(a) && Usable(b) && Usable(c)
    ensures s in Collect(Candidates(MergeTwo(a, b), c)) <==> s in Collect(Candidates(a, MergeTwo(b, c)))
    ensures s in Collect(Candidates(a, b)) || s in Collect(Candidates(b, c)) ==>
        s in Collect(Candidates(MergeTwo(a, b), c))
  {
    hide CoerceOptionalString, Collect, MergedFieldSources, MergedMetadata, Recorded, Candidates, Override.Truthy;
    MergeRecords(a, b);
    MergeRecords(b, c);
    CollectedIn(MergeTwo(a, b), c, s);
    CollectedIn(a, MergeTwo(b, c), s);
    CollectedIn(a, b, s);
    CollectedIn(b, c, s);
  }

  /** The two lists hold the same names, so both are empty or neither is. */
  lemma EmptyTogether(a: Override, b: Override, c: Override)
    requires Usable(a) && Usable(b) && Usable(c)
    ensures Collect(Candidates(MergeTwo(a, b), c)) == [] <==> Collect(Candidates(a, MergeTwo(b, c))) == []
    ensures Collect(Candidates(MergeTwo(a, b), c)) == [] ==>
              Collect(Candidates(a, b)) == [] && Collect(Candidates(b, c)) == []
  {
    hide Collect, Candidates, MergeTwo, Usable;
    var left, right := Collect(Candidates(MergeTwo(a, b), c)), Collect(Candidates(a, MergeTwo(b, c)));
    var ab, bc := Collect(Candidates(a, b)), Collect(Candidates(b, c));
    if left != [] { SameNames(a, b, c, left[0]); }
    if right != [] { SameNames(a, b, c, right[0]); }
    if ab != [] { SameNames(a, b, c, ab[0]); }
    if bc != [] { SameNames(a, b, c, bc[0]); }
  }

  lemma EmptyInner(a: Override, b: Override)
    ensures Collect(Candidates(a, b)) == [] ==>
              MergeTwo(a, b).metadata.sources == Pick(b.metadata.sources, a.metadata.sources)
  {
  }

  function Bare(source: string): Override {
    Override(Some(TextValue("m")), None, None, None, None, Some(source), map[], false, Metadata(None, None, map[]))
  }

  /** A name in normal form is added unless it is known. */
  lemma AddedName(known: seq<string>, candidates: seq<Option<string>>, name: string)
    requires CoerceOptionalString(Some(name)) == Some(name)
    ensures Added(known, candidates + [Some(name)]) ==
            if name in known || name in Added(known, candidates) then Added(known, candidates)
            else Added(known, candidates) + [name]
  {
    AddedOne(known, candidates, Some(name));
  }

  predicate Normal(name: string) {
    name != "" && CoerceOptionalString(Some(name)) == Some(name)
  }

  lemma NormalStays(name: string)
    requires Normal(name)
    ensures CoerceOptionalString(Some(name)) == Some(name)
  {
    hide CoerceOptionalString;
  }

  lemma NewName(known: seq<string>, x: string)
    requires Normal(x)
    ensures Added(known, [Some(x)]) == if x in known then [] else [x]
  {
    assert Added(known, []) == [] && [] + [Some(x)] == [Some(x)];
    NormalStays(x);
    hide CoerceOptionalString, Added, Normal;
    AddedName(known, [], x);
  }

  lemma NewNames(known: seq<string>, x: string, y: string)
    requires Normal(x) && Normal(y) && x != y && y !in known
    ensures Added(known, [Some(x), Some(y)]) == if x in known then [y] else [x, y]
  {
    hide CoerceOptionalString, Added, Normal;
    NewName(known, x);
    NormalStays(y);
    assert [Some(x), Some(y)] == [Some(x)] + [Some(y)];
    AddedName(known, [Some(x)], y);
    if x in known {
      assert [] + [y] == [y];
    } else {
      assert [x] + [y] == [x, y];
    }
  }

  lemma OneMoreName(x: string, y: string, z: string)
    requires Normal(x) && Normal(y) && Normal(z) && x != y && y != z && z != x
    ensures Added([], [Some(x), Some(y), Some(z)]) == [x, y, z]
  {
    hide CoerceOptionalString, Added, Normal;
    NewNames([], x, y);
    NormalStays(z);
    assert [Some(x), Some(y), Some(z)] == [Some(x), Some(y)] + [Some(z)];
    AddedName([], [Some(x), Some(y)], z);
    assert [x, y] + [z] == [x, y, z];
  }

  lemma MergedSources(current: Override, incoming: Override)
    ensures var sources := Collect(Candidates(current, incoming));
            sources != [] ==> MergeTwo(current, incoming).metadata.sources == Some(sources)
  {
    hide Collect, Candidates, MergedFieldSources;
  }

  predicate Silent(o: Override, name: string) {
    Usable(o) && o.source == Some(name) && Normal(name) && o.ListedSources() == []
  }

  /** With nothing on record and three different sources the two groupings list them in different orders. */
  lemma SilentOrder(a: Override, b: Override, c: Override, x: string, y: string, z: string)
    requires Silent(a, x) && Silent(b, y) && Silent(c, z) && x != y && y != z && z != x
    ensures Collect(Candidates(MergeTwo(a, b), c)) == [x, y, z]
    ensures Collect(Candidates(a, MergeTwo(b, c))) == [y, z, x]
  {
    hide Normal, Collect, Added, Candidates, Usable, MergeTwo, CoerceOptionalString;
    NothingKnown(a, b, c);
    LeftSources(a, b, c);
    RightSources(a, b, c);
    hide Override.ListedSources, KnownFirst, Somes;
    NewNames([], x, y);
    assert [] + [x, y] == [x, y] && [x, y] + [z] == [x, y, z];
    NewNames([x, y], y, z);
    OneMoreName(y, z, x);
  }

  lemma SourcesOrderCounterexample(x: string, y: string, z: string)
    requires Normal(x) && Normal(y) && Normal(z) && x != y && y != z && z != x
    ensures Usable(Bare(x)) && Usable(Bare(y)) && Usable(Bare(z))
    ensures MergeTwo(MergeTwo(Bare(x), Bare(y)), Bare(z)).metadata.sources == Some([x, y, z])
    ensures MergeTwo(Bare(x), MergeTwo(Bare(y), Bare(z))).metadata.sources == Some([y, z, x])
  {
    var a, b, c := Bare(x), Bare(y), Bare(z);
    assert Silent(a, x) && Silent(b, y) && Silent(c, z);
    hide Silent, Collect, Candidates, Bare, MergeTwo, Normal;
    SilentOrder(a, b, c, x, y, z);
    MergedSources(MergeTwo(a, b), c);
    MergedSources(a, MergeTwo(b, c));
  }

  lemma NothingKnown(a: Override, b: Override, c: Override)
    requires a.ListedSources() == [] && b.ListedSources() == [] && c.ListedSources() == []
    ensures KnownFirst(a, b) == []
    ensures Somes(c.ListedSources()) + [b.source, c.source] == [b.source, c.source]
    ensures Somes(c.ListedSources()) + [b.source, c.source, a.source] == [b.source, c.source, a.source]
  {
    assert Somes(a.ListedSources()) + Somes(b.ListedSources()) == [];
  }

  /** Grouping can also change the recorded skill name. */
  lemma SourceSkillRegroups(a: Override, b: Override, c: Override)
    requires Usable(a) && Usable(b) && Usable(c)
    ensures var l, r := MergeTwo(MergeTwo(a, b), c), MergeTwo(a, MergeTwo(b, c));
            l.metadata.sourceSkill == r.metadata.sourceSkill <==>
            || c.metadata.sourceSkill.Some? || b.metadata.sourceSkill.Some?
            || (SkillOf(c.source).None? && (a.metadata.sourceSkill.Some? || SkillOf(b.source).None?))
            || (SkillOf(c.source).Some? && Pick(a.metadata.sourceSkill, SkillOf(b.source)) in [None, SkillOf(c.source)])
  {
    hide Collect, MergedFieldSources, SkillOf, Override.Truthy;
  }
}
