/** The durable form of a job: `serialize`, `from_payload` and the JSON-safe conversion of jobs.py. */
module JobProjection {
  import opened Text
  import opened JobRecords

  /** A dictionary key: a string, or something else that prints as `text`. */
  datatype Key = StrKey(text: string) | OtherKey(text: string)

  /** The values Python code may put into a result or into metadata. `PySeq` is a list and `PyTuple` any other sequence,
      which no list equals; `PyOther` prints as `text`. */
  datatype PyValue =
    | PyNone
    | PyStr(text: string)
    | PyInt(n: int)
    | PyFloat(x: real)
    | PyBool(b: bool)
    | PyDateTime(at: int)
    | PyDict(items: seq<Item>)
    | PySeq(values: seq<PyValue>)
    | PyTuple(values: seq<PyValue>)
    | PyOther(text: string)

  datatype Item = Item(key: Key, value: PyValue)

  /** ISO text for timestamps. */
  datatype Clock = Clock(iso: int -> string, parse: string -> Option<int>) {
    ghost predicate RoundTrips() {
      forall t :: parse(iso(t)) == Some(t)
    }
  }

  /** `d[key] = value`: replace in place, or append. */
  function Put(items: seq<Item>, item: Item): seq<Item> {
    if items == [] then [item]
    else if items[0].key == item.key then [item] + items[1..]
    else [items[0]] + Put(items[1..], item)
  }

  function JsonSafe(v: PyValue, clock: Clock): PyValue
    decreases v, 1
  {
    match v
    case PyDateTime(at) => PyStr(clock.iso(at))
    case PyDict(items) => PyDict(JsonSafeItems(items, clock))
    case PySeq(values) => PySeq(JsonSafeSeq(values, clock))
    case PyTuple(values) => PySeq(JsonSafeSeq(values, clock))
    case PyOther(text) => PyStr(text)
    case _ => v
  }

  /** The dictionary comprehension: keys become strings, later values win. */
  function JsonSafeItems(items: seq<Item>, clock: Clock): seq<Item>
    decreases items, 0
  {
    if items == [] then []
    else Put(JsonSafeItems(items[..|items| - 1], clock), JsonSafeItem(items[|items| - 1], clock))
  }

  function JsonSafeItem(item: Item, clock: Clock): Item
    decreases item, 0
  {
    Item(StrKey(item.key.text), JsonSafe(item.value, clock))
  }

  function JsonSafeSeq(values: seq<PyValue>, clock: Clock): seq<PyValue>
    decreases values, 0
  {
    if values == [] then []
    else JsonSafeSeq(values[..|values| - 1], clock) + [JsonSafe(values[|values| - 1], clock)]
  }

  /** The values JSON can hold: string keys, each once, at every depth. */
  ghost predicate IsJson(v: PyValue)
    decreases v, 1
  {
    match v
    case PyDateTime(_) => false
    case PyOther(_) => false
    case PyDict(items) => IsJsonDict(items)
    case PyTuple(_) => false
    case PySeq(values) => forall k | 0 <= k < |values| :: IsJson(values[k])
    case _ => true
  }

  ghost predicate IsJsonDict(items: seq<Item>)
    decreases items, 0
  {
    && (forall k | 0 <= k < |items| :: IsJsonItem(items[k]))
    && (forall j, k | 0 <= j < k < |items| :: items[j].key != items[k].key)
  }

  ghost predicate IsJsonItem(item: Item)
    decreases item, 0
  {
    item.key.StrKey? && IsJson(item.value)
  }

  lemma {:induction false} PutMembers(items: seq<Item>, item: Item)
    ensures forall i :: i in Put(items, item) ==> i == item || i in items
    ensures |Put(items, item)| >= 1
  {
    if items == [] {
    } else {
      PutMembers(items[1..], item);
      assert items == [items[0]] + items[1..];
    }
  }

  lemma {:induction false} PutKeepsJson(items: seq<Item>, item: Item)
    requires IsJsonDict(items) && IsJsonItem(item)
    ensures IsJsonDict(Put(items, item))
  {
    hide IsJsonItem;
    if items == [] {
    } else {
      var rest := items[1..];
      assert items == [items[0]] + rest;
      assert forall k | 0 <= k < |rest| :: rest[k] == items[k + 1];
      if items[0].key != item.key {
        PutKeepsJson(rest, item);
        PutMembers(rest, item);
        var tail := Put(rest, item);
        forall k | 0 <= k < |tail| ensures tail[k].key != items[0].key {
          assert tail[k] in tail;
          if tail[k] in rest {
            var m :| 0 <= m < |rest| && rest[m] == tail[k];
            assert items[m + 1] == tail[k];
          }
        }
      }
    }
  }

  lemma {:induction false} PutNewKey(items: seq<Item>, item: Item)
    requires forall k | 0 <= k < |items| :: items[k].key != item.key
    ensures Put(items, item) == items + [item]
  {
    if items == [] {
    } else {
      assert forall k | 0 <= k < |items[1..]| :: items[1..][k] == items[k + 1];
      PutNewKey(items[1..], item);
      assert items == [items[0]] + items[1..];
    }
  }

  lemma {:induction false} JsonSafeIsJson(v: PyValue, clock: Clock)
    ensures IsJson(JsonSafe(v, clock))
    decreases v, 1
  {
    match v
    case PyDict(items) => JsonSafeItemsIsJson(items, clock);
    case PySeq(values) => JsonSafeSeqIsJson(values, clock);
    case PyTuple(values) => JsonSafeSeqIsJson(values, clock);
    case _ =>
  }

  lemma {:induction false} JsonSafeItemsIsJson(items: seq<Item>, clock: Clock)
    ensures IsJsonDict(JsonSafeItems(items, clock))
    decreases items, 0
  {
    if items == [] {
    } else {
      var front, last := items[..|items| - 1], items[|items| - 1];
      JsonSafeItemsIsJson(front, clock);
      JsonSafeItemIsJson(last, clock);
      PutKeepsJson(JsonSafeItems(front, clock), JsonSafeItem(last, clock));
    }
  }

  lemma {:induction false} JsonSafeItemIsJson(item: Item, clock: Clock)
    ensures IsJsonItem(JsonSafeItem(item, clock))
    decreases item, 0
  {
    JsonSafeIsJson(item.value, clock);
  }

  lemma {:induction false} JsonSafeSeqIsJson(values: seq<PyValue>, clock: Clock)
    ensures forall k | 0 <= k < |JsonSafeSeq(values, clock)| :: IsJson(JsonSafeSeq(values, clock)[k])
    decreases values, 0
  {
    if values == [] {
    } else {
      JsonSafeSeqIsJson(values[..|values| - 1], clock);
      JsonSafeIsJson(values[|values| - 1], clock);
    }
  }

  /** The conversion leaves alone exactly the values JSON can hold. */
  lemma {:induction false} JsonIsFixed(v: PyValue, clock: Clock)
    requires IsJson(v)
    ensures JsonSafe(v, clock) == v
    decreases v, 1
  {
    match v
    case PyDict(items) => JsonItemsFixed(items, clock);
    case PySeq(values) => JsonSeqFixed(values, clock);
    case _ =>
  }

  lemma {:induction false} JsonItemsFixed(items: seq<Item>, clock: Clock)
    requires IsJsonDict(items)
    ensures JsonSafeItems(items, clock) == items
    decreases items, 0
  {
    if items == [] {
    } else {
      var front, last := items[..|items| - 1], items[|items| - 1];
      assert items == front + [last];
      JsonItemsFixed(front, clock);
      JsonItemFixed(last, clock);
      PutNewKey(front, last);
    }
  }

  lemma {:induction false} JsonItemFixed(item: Item, clock: Clock)
    requires IsJsonItem(item)
    ensures JsonSafeItem(item, clock) == item
    decreases item, 0
  {
    JsonIsFixed(item.value, clock);
  }

  lemma {:induction false} JsonSeqFixed(values: seq<PyValue>, clock: Clock)
    requires forall k | 0 <= k < |values| :: IsJson(values[k])
    ensures JsonSafeSeq(values, clock) == values
    decreases values, 0
  {
    if values == [] {
    } else {
      var front := values[..|values| - 1];
      assert values == front + [values[|values| - 1]];
      JsonSeqFixed(front, clock);
      JsonIsFixed(values[|values| - 1], clock);
    }
  }

  lemma JsonSafeIdempotent(v: PyValue, clock: Clock)
    ensures JsonSafe(JsonSafe(v, clock), clock) == JsonSafe(v, clock)
    ensures JsonSafe(v, clock) == v <==> IsJson(v)
  {
    JsonSafeIsJson(v, clock);
    JsonIsFixed(JsonSafe(v, clock), clock);
    if IsJson(v) {
      JsonIsFixed(v, clock);
    }
  }

  // ---- what the conversion does --------------------------------------------------------------------

  /** `d.get(key)`. */
  function Get(items: seq<Item>, key: Key): Option<PyValue> {
    if items == [] then None else if items[0].key == key then Some(items[0].value) else Get(items[1..], key)
  }

  lemma {:induction false} GetAfterPut(items: seq<Item>, item: Item, key: Key)
    ensures Get(Put(items, item), key) == if key == item.key then Some(item.value) else Get(items, key)
  {
    if items == [] {
      assert [item][1..] == [];
    } else if items[0].key == item.key {
      assert ([item] + items[1..])[1..] == items[1..];
    } else {
      GetAfterPut(items[1..], item, key);
      assert ([items[0]] + Put(items[1..], item))[1..] == Put(items[1..], item);
    }
  }

  lemma ConvertedOne(items: seq<Item>, text: string, clock: Clock)
    requires items != []
    ensures var front, last := items[..|items| - 1], items[|items| - 1];
            Get(JsonSafeItems(items, clock), StrKey(text)) ==
            if last.key.text == text then Some(JsonSafe(last.value, clock))
            else Get(JsonSafeItems(front, clock), StrKey(text))
  {
    hide JsonSafe, Put, Get;
    var front, last := items[..|items| - 1], items[|items| - 1];
    GetAfterPut(JsonSafeItems(front, clock), JsonSafeItem(last, clock), StrKey(text));
  }

  /** A text no key prints as is not in the converted dictionary. */
  lemma {:induction false} MissingLookup(items: seq<Item>, text: string, clock: Clock)
    requires forall k | 0 <= k < |items| :: items[k].key.text != text
    ensures Get(JsonSafeItems(items, clock), StrKey(text)) == None
  {
    if items == [] {
    } else {
      ConvertedOne(items, text, clock);
      hide Get, JsonSafeItems;
      MissingLookup(items[..|items| - 1], text, clock);
    }
  }

  /** Under each text the converted dictionary has the converted value of the last item whose key prints as it. */
  lemma {:induction false} ConvertedLookup(items: seq<Item>, text: string, clock: Clock, k: nat)
    requires k < |items| && items[k].key.text == text
    requires forall m | k < m < |items| :: items[m].key.text != text
    ensures Get(JsonSafeItems(items, clock), StrKey(text)) == Some(JsonSafe(items[k].value, clock))
  {
    hide JsonSafe, Get, JsonSafeItems;
    ConvertedOne(items, text, clock);
    if k < |items| - 1 {
      ConvertedLookup(items[..|items| - 1], text, clock, k);
    }
  }

  lemma {:induction false} ConvertedElements(values: seq<PyValue>, clock: Clock)
    ensures |JsonSafeSeq(values, clock)| == |values|
    ensures forall k | 0 <= k < |values| :: JsonSafeSeq(values, clock)[k] == JsonSafe(values[k], clock)
  {
    hide JsonSafe;
    if values == [] {
    } else {
      ConvertedElements(values[..|values| - 1], clock);
    }
  }

  /** Times become ISO text, sequences become lists element by element, anything unknown becomes its text, and the rest
      stays. */
  lemma ConversionMeaning(v: PyValue, clock: Clock)
    ensures match v
            case PyDateTime(at) => JsonSafe(v, clock) == PyStr(clock.iso(at))
            case PyOther(text) => JsonSafe(v, clock) == PyStr(text)
            case PyDict(items) => JsonSafe(v, clock) == PyDict(JsonSafeItems(items, clock))
            case PySeq(values) => JsonSafe(v, clock) == PySeq(JsonSafeSeq(values, clock))
            case PyTuple(values) => JsonSafe(v, clock) == PySeq(JsonSafeSeq(values, clock))
            case _ => JsonSafe(v, clock) == v
  {
  }

  // ---- records and payloads ------------------------------------------------------------------------

  datatype Sidecar = Sidecar(kind: string, ref: string, metadata: seq<Item>)

  /** Every field of `JobRecord`. */
  datatype Record = Record(
    jobId: string,
    executorKind: string,
    summary: string,
    description: Option<string>,
    status: JobStatus,
    stoppable: Option<bool>,
    stopRequested: bool,
    createdAt: int,
    updatedAt: int,
    startedAt: Option<int>,
    endedAt: Option<int>,
    links: Links,
    result: Option<seq<Item>>,
    error: Option<string>,
    metadata: seq<Item>,
    sidecarRefs: seq<Sidecar>)

  datatype Links = Links(
    sessionId: Option<string>,
    teamId: Option<string>,
    submittedBy: Option<string>,
    projectionKind: Option<string>,
    parentRunId: Option<string>,
    parentTurnId: Option<string>)

  /** The dictionary `serialize` writes, field by field. */
  datatype Payload = Payload(
    jobId: string,
    executorKind: string,
    summary: string,
    description: Option<string>,
    status: string,
    stoppable: Option<bool>,
    stopRequested: bool,
    createdAt: string,
    updatedAt: string,
    startedAt: Option<string>,
    endedAt: Option<string>,
    links: Links,
    result: PyValue,
    error: Option<string>,
    metadata: seq<Item>,
    sidecarRefs: seq<Sidecar>)

  function StatusValue(status: JobStatus): string {
    match status
    case Pending => "pending"
    case Running => "running"
    case Completed => "completed"
    case Failed => "failed"
    case Stopped => "stopped"
  }

  /** `_coerce_job_status(value) or PENDING`; None where the enumeration rejects the text. */
  function ParseStatus(value: string): Option<JobStatus> {
    var normalized := Strip(value);
    if normalized == "" || normalized == "pending" then Some(Pending)
    else if normalized == "running" then Some(Running)
    else if normalized == "completed" then Some(Completed)
    else if normalized == "failed" then Some(Failed)
    else if normalized == "stopped" then Some(Stopped)
    else None
  }

  function MapOption<A, B>(value: Option<A>, f: A -> B): Option<B> {
    if value.None? then None else Some(f(value.value))
  }

  function SaveSidecar(clock: Clock): Sidecar -> Sidecar {
    (s: Sidecar) => s.(metadata := JsonSafeItems(s.metadata, clock))
  }

  function MapSidecars(sidecars: seq<Sidecar>, f: Sidecar -> Sidecar): seq<Sidecar> {
    seq(|sidecars|, k requires 0 <= k < |sidecars| => f(sidecars[k]))
  }

  function Serialize(r: Record, clock: Clock): Payload {
    Payload(r.jobId, r.executorKind, r.summary, r.description, StatusValue(r.status), r.stoppable, r.stopRequested,
            clock.iso(r.createdAt), clock.iso(r.updatedAt),
            MapOption(r.startedAt, clock.iso), MapOption(r.endedAt, clock.iso),
            r.links, if r.result.None? then PyNone else PyDict(JsonSafeItems(r.result.value, clock)), r.error,
            JsonSafeItems(r.metadata, clock), MapSidecars(r.sidecarRefs, SaveSidecar(clock)))
  }

  function CoerceDateTime(value: Option<string>, clock: Clock): Option<int> {
    if value.None? || value.value == "" then None else clock.parse(value.value)
  }

  function CoerceLinks(links: Links): Links {
    Links(CoerceOptionalString(links.sessionId), CoerceOptionalString(links.teamId),
          CoerceOptionalString(links.submittedBy), CoerceOptionalString(links.projectionKind),
          CoerceOptionalString(links.parentRunId), CoerceOptionalString(links.parentTurnId))
  }

  /** `from_payload`; `freshId` and `now` stand for a new identifier and the current time. */
  function FromPayload(p: Payload, clock: Clock, freshId: string, now: int): Option<Record> {
    if ParseStatus(p.status).None? then None
    else Some(Record(
      if p.jobId == "" then freshId else p.jobId,
      if p.executorKind == "" then "legacy" else p.executorKind,
      p.summary,
      CoerceOptionalString(p.description),
      ParseStatus(p.status).value,
      p.stoppable,
      p.stopRequested,
      CoerceDateTime(Some(p.createdAt), clock).GetOr(now),
      CoerceDateTime(Some(p.updatedAt), clock).GetOr(now),
      CoerceDateTime(p.startedAt, clock),
      CoerceDateTime(p.endedAt, clock),
      CoerceLinks(p.links),
      if p.result.PyDict? then Some(JsonSafeItems(p.result.items, clock)) else None,
      CoerceOptionalString(p.error),
      JsonSafeItems(p.metadata, clock),
      MapSidecars(p.sidecarRefs, SaveSidecar(clock))))
  }

  /** What a save followed by a load makes of a record. */
  function Reload(r: Record, clock: Clock): Record {
    r.(executorKind := if r.executorKind == "" then "legacy" else r.executorKind,
       description := CoerceOptionalString(r.description),
       links := CoerceLinks(r.links),
       result := if r.result.None? then None else Some(JsonSafeItems(r.result.value, clock)),
       error := CoerceOptionalString(r.error),
       metadata := JsonSafeItems(r.metadata, clock),
       sidecarRefs := MapSidecars(r.sidecarRefs, SaveSidecar(clock)))
  }

  lemma StatusRoundTrips(status: JobStatus)
    ensures ParseStatus(StatusValue(status)) == Some(status)
  {
    var text := StatusValue(status);
    assert text != "" && !IsSpace(text[0]) && !IsSpace(text[|text| - 1]);
  }

  /** Each field is saved under its own name. */
  lemma SavedFields(r: Record, clock: Clock)
    ensures var p := Serialize(r, clock);
            && p.jobId == r.jobId && p.executorKind == r.executorKind && p.summary == r.summary
            && p.description == r.description && p.error == r.error && p.links == r.links
            && p.stoppable == r.stoppable && p.stopRequested == r.stopRequested
            && p.createdAt == clock.iso(r.createdAt) && p.updatedAt == clock.iso(r.updatedAt)
            && (p.startedAt.Some? <==> r.startedAt.Some?) && (p.endedAt.Some? <==> r.endedAt.Some?)
            && (r.startedAt.Some? ==> p.startedAt == Some(clock.iso(r.startedAt.value)))
            && (r.endedAt.Some? ==> p.endedAt == Some(clock.iso(r.endedAt.value)))
            && p.metadata == JsonSafeItems(r.metadata, clock) && (p.result == PyNone <==> r.result.None?)
  {
    hide JsonSafeItems;
  }

  /** The texts of the statuses. */
  lemma StatusTexts()
    ensures StatusValue(Pending) == "pending" && StatusValue(Running) == "running"
    ensures StatusValue(Completed) == "completed" && StatusValue(Failed) == "failed"
    ensures StatusValue(Stopped) == "stopped"
  {
  }

  /** A payload from elsewhere: an unknown status is refused; blank identity and kind, and unreadable times of creation
      and update, are replaced. */
  lemma ForeignPayload(p: Payload, clock: Clock, freshId: string, now: int)
    ensures var loaded := FromPayload(p, clock, freshId, now);
            && (loaded.None? <==> Strip(p.status) !in ["", "pending", "running", "completed", "failed", "stopped"])
            && (loaded.Some? ==>
                  && loaded.value.jobId == (if p.jobId == "" then freshId else p.jobId)
                  && loaded.value.executorKind == (if p.executorKind == "" then "legacy" else p.executorKind)
                  && (Strip(p.status) == "" ==> loaded.value.status.Pending?)
                  && (CoerceDateTime(Some(p.createdAt), clock).None? ==> loaded.value.createdAt == now)
                  && (CoerceDateTime(Some(p.updatedAt), clock).None? ==> loaded.value.updatedAt == now)
                  && (p.result.PyDict? <==> loaded.value.result.Some?))
  {
    hide CoerceDateTime, CoerceOptionalString, CoerceLinks, JsonSafeItems, MapSidecars, Strip;
  }

  lemma ItemsIdempotent(items: seq<Item>, clock: Clock)
    ensures JsonSafeItems(JsonSafeItems(items, clock), clock) == JsonSafeItems(items, clock)
  {
    JsonSafeItemsIsJson(items, clock);
    JsonItemsFixed(JsonSafeItems(items, clock), clock);
  }

  lemma SidecarsIdempotent(sidecars: seq<Sidecar>, clock: Clock)
    ensures MapSidecars(MapSidecars(sidecars, SaveSidecar(clock)), SaveSidecar(clock)) ==
        MapSidecars(sidecars, SaveSidecar(clock))
  {
    forall k | 0 <= k < |sidecars|
      ensures SaveSidecar(clock)(SaveSidecar(clock)(sidecars[k])) == SaveSidecar(clock)(sidecars[k])
    {
      ItemsIdempotent(sidecars[k].metadata, clock);
    }
  }

  lemma CoerceTwice(value: Option<string>)
    ensures CoerceOptionalString(CoerceOptionalString(value)) == CoerceOptionalString(value)
  {
  }

  lemma LinksTwice(links: Links)
    ensures CoerceLinks(CoerceLinks(links)) == CoerceLinks(links)
  {
    hide CoerceOptionalString;
    CoerceTwice(links.sessionId);
    CoerceTwice(links.teamId);
    CoerceTwice(links.submittedBy);
    CoerceTwice(links.projectionKind);
    CoerceTwice(links.parentRunId);
    CoerceTwice(links.parentTurnId);
  }

  /** Saving and loading never fails and does what `Reload` says: identity, status, flags and times survive. */
  lemma LoadAfterSave(r: Record, clock: Clock, freshId: string, now: int)
    requires r.jobId != "" && clock.RoundTrips() && forall t :: clock.iso(t) != ""
    ensures FromPayload(Serialize(r, clock), clock, freshId, now) == Some(Reload(r, clock))
  {
    hide CoerceOptionalString, JsonSafeItems, ParseStatus, StatusValue, MapSidecars;
    StatusRoundTrips(r.status);
    SidecarsIdempotent(r.sidecarRefs, clock);
    ItemsIdempotent(r.metadata, clock);
    if r.result.Some? {
      ItemsIdempotent(r.result.value, clock);
    }
    TimesRoundTrip(r, clock);
  }

  lemma TimeRoundTrips(time: Option<int>, clock: Clock)
    requires clock.RoundTrips() && forall t :: clock.iso(t) != ""
    ensures CoerceDateTime(MapOption(time, clock.iso), clock) == time
  {
    if time.Some? {
      var t := time.value;
      assert clock.parse(clock.iso(t)) == Some(t);
    }
  }

  lemma TimesRoundTrip(r: Record, clock: Clock)
    requires clock.RoundTrips() && forall t :: clock.iso(t) != ""
    ensures CoerceDateTime(Some(clock.iso(r.createdAt)), clock) == Some(r.createdAt)
    ensures CoerceDateTime(Some(clock.iso(r.updatedAt)), clock) == Some(r.updatedAt)
    ensures CoerceDateTime(MapOption(r.startedAt, clock.iso), clock) == r.startedAt
    ensures CoerceDateTime(MapOption(r.endedAt, clock.iso), clock) == r.endedAt
  {
    TimeRoundTrips(r.startedAt, clock);
    TimeRoundTrips(r.endedAt, clock);
  }

  /** The durable form is a projection: what one save and load produced, every further one reproduces. */
  lemma DurableFormIsProjection(r: Record, clock: Clock, freshId: string, now: int, laterId: string, later: int)
    requires r.jobId != "" && clock.RoundTrips() && forall t :: clock.iso(t) != ""
    ensures var once := FromPayload(Serialize(r, clock), clock, freshId, now);
            once.Some? && FromPayload(Serialize(once.value, clock), clock, laterId, later) == once
  {
    hide CoerceOptionalString, JsonSafeItems, CoerceLinks, MapSidecars, FromPayload, Serialize;
    LoadAfterSave(r, clock, freshId, now);
    var once := Reload(r, clock);
    LoadAfterSave(once, clock, laterId, later);
    SidecarsIdempotent(r.sidecarRefs, clock);
    ItemsIdempotent(r.metadata, clock);
    LinksTwice(r.links);
    CoerceTwice(r.description);
    CoerceTwice(r.error);
    if r.result.Some? {
      ItemsIdempotent(r.result.value, clock);
    }
  }

  /** A tuple in the metadata comes back as a list. */
  lemma TupleDoesNotSurvive(r: Record, key: string, values: seq<PyValue>, clock: Clock, freshId: string, now: int)
    requires r.jobId != "" && clock.RoundTrips() && forall t :: clock.iso(t) != ""
    requires r.metadata == [Item(StrKey(key), PyTuple(values))]
    ensures var loaded := FromPayload(Serialize(r, clock), clock, freshId, now);
            loaded.Some? && loaded != Some(r)
            && loaded.value.metadata == [Item(StrKey(key), PySeq(JsonSafeSeq(values, clock)))]
  {
    hide FromPayload, Serialize, CoerceOptionalString, CoerceLinks, MapSidecars;
    LoadAfterSave(r, clock, freshId, now);
    assert r.metadata[..0] == [] && r.metadata[|r.metadata| - 1] == r.metadata[0];
    assert JsonSafeItems(r.metadata, clock) == Put([], JsonSafeItem(r.metadata[0], clock));
  }

  /** A record survives a save unchanged exactly when it is canonical to begin with. */
  lemma SurvivesUnchanged(r: Record, clock: Clock, freshId: string, now: int)
    requires r.jobId != "" && clock.RoundTrips() && forall t :: clock.iso(t) != ""
    ensures FromPayload(Serialize(r, clock), clock, freshId, now) == Some(r) <==>
            && r.executorKind != "" && CoerceOptionalString(r.description) == r.description
            && CoerceLinks(r.links) == r.links && CoerceOptionalString(r.error) == r.error
            && (r.result.Some? ==> IsJsonDict(r.result.value)) && IsJsonDict(r.metadata)
            && forall k | 0 <= k < |r.sidecarRefs| :: IsJsonDict(r.sidecarRefs[k].metadata)
  {
    hide CoerceOptionalString, JsonSafeItems, CoerceLinks, FromPayload, Serialize, IsJsonDict;
    LoadAfterSave(r, clock, freshId, now);
    forall items ensures JsonSafeItems(items, clock) == items <==> IsJsonDict(items) {
      JsonSafeItemsIsJson(items, clock);
      if IsJsonDict(items) {
        JsonItemsFixed(items, clock);
      }
    }
    var mapped := MapSidecars(r.sidecarRefs, SaveSidecar(clock));
    forall k | 0 <= k < |r.sidecarRefs|
      ensures mapped[k] == r.sidecarRefs[k] <==> IsJsonDict(r.sidecarRefs[k].metadata)
    {
    }
    assert mapped == r.sidecarRefs <==> forall k | 0 <= k < |r.sidecarRefs| :: mapped[k] == r.sidecarRefs[k];
  }
}
