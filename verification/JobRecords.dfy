/** Job records and their lifecycle: the transition table and the record patches of jobs.py. */
module JobRecords {
  import opened Text

  datatype JobStatus = Pending | Running | Completed | Failed | Stopped {
    predicate Terminal() {
      Completed? || Failed? || Stopped?
    }

    function Rank(): nat {
      if Pending? then 0 else if Running? then 1 else 2
    }
  }

  datatype Phase = StartPhase | StopPhase | RecoveryPhase | CompatPhase

  type Payload = map<string, string>

  datatype JobRecord = JobRecord(
    jobId: string,
    executorKind: string,
    summary: string,
    status: JobStatus,
    stoppable: Option<bool>,
    stopRequested: bool,
    createdAt: int,
    updatedAt: int,
    startedAt: Option<int>,
    endedAt: Option<int>,
    result: Option<Payload>,
    error: Option<string>,
    metadata: Payload)

  /** What an executor reports back; `capabilities` and `stopRequested` matter only in the phases that use them. */
  datatype PhaseResult = PhaseResult(
    status: JobStatus,
    capabilities: Option<bool>,
    metadata: Payload,
    result: Option<Payload>,
    error: Option<string>,
    stopRequested: bool)

  /** The arguments of `update_compat`; an outer None means the argument was not given. */
  datatype CompatUpdate = CompatUpdate(
    status: Option<JobStatus>,
    result: Option<Option<Payload>>,
    error: Option<Option<string>>,
    metadata: Payload,
    stopRequested: Option<bool>)

  /** The table `allowed[phase][current]`. */
  function Allowed(phase: Phase, current: JobStatus): set<JobStatus> {
    match (phase, current)
    case (StartPhase, Pending) => {Running, Completed, Failed}
    case (StopPhase, Pending) => {Stopped}
    case (StopPhase, Running) => {Running, Stopped}
    case (RecoveryPhase, Running) => {Running, Completed, Failed, Stopped}
    case (CompatPhase, Pending) => {Pending, Running, Completed, Failed, Stopped}
    case (CompatPhase, Running) => {Running, Completed, Failed, Stopped}
    case _ => {}
  }

  /** The accepted status, or None where the source raises a lifecycle error. */
  function ValidateTransition(current: JobStatus, proposed: JobStatus, phase: Phase): (r: Option<JobStatus>)
    ensures r.Some? ==> r.value == proposed && current.Rank() <= proposed.Rank()
    ensures r.Some? && current.Terminal() ==> proposed == current
  {
    if current == proposed then Some(proposed)
    else if current.Terminal() then None
    else if proposed in Allowed(phase, current) then Some(proposed)
    else None
  }

  /** What the table says, by phase: a start leaves PENDING without stopping the job, a stop asks for STOPPED, a
      recovery ends a RUNNING job, a compat update moves forward. */
  lemma TransitionExact(current: JobStatus, proposed: JobStatus, phase: Phase)
    requires current != proposed
    ensures ValidateTransition(current, proposed, phase) == Some(proposed) <==>
            match phase
            case StartPhase => current.Pending? && !proposed.Stopped?
            case StopPhase => !current.Terminal() && proposed.Stopped?
            case RecoveryPhase => current.Running? && proposed.Terminal()
            case CompatPhase => current.Rank() < proposed.Rank()
    ensures ValidateTransition(current, proposed, phase) in [None, Some(proposed)]
    ensures ValidateTransition(current, current, phase) == Some(current)
  {
  }

  function Stamped(record: JobRecord, status: JobStatus, now: int): JobRecord {
    record.(
      status := status,
      updatedAt := now,
      startedAt := if status.Pending? || record.startedAt.Some? then record.startedAt else Some(now),
      endedAt := if status.Terminal() then Some(now) else record.endedAt)
  }

  function ApplyResultPatch(record: JobRecord, phase: Phase, r: PhaseResult, now: int): JobRecord {
    Stamped(record, r.status, now).(
      stoppable := if phase.StopPhase? then record.stoppable else r.capabilities,
      stopRequested := if phase.StopPhase? then r.stopRequested else record.stopRequested,
      result := r.result,
      error := CoerceOptionalString(r.error),
      metadata := record.metadata + r.metadata)
  }

  /** `apply_start_result`, `apply_stop_result` and `apply_recovery_result` on the current record. */
  function ApplyResult(record: JobRecord, phase: Phase, r: PhaseResult, now: int): Option<JobRecord> {
    if ValidateTransition(record.status, r.status, phase).None? then None
    else Some(ApplyResultPatch(record, phase, r, now))
  }

  function Lookup(metadata: Payload, key: string): Option<string> {
    if key in metadata then CoerceOptionalString(Some(metadata[key])) else None
  }

  function CompatExecutorKind(metadata: Payload, current: string): string {
    var explicit, kind := Lookup(metadata, "executor_kind"), Lookup(metadata, "kind");
    if explicit.Some? then explicit.value
    else if kind == Some("background_agent") then "agent"
    else if kind == Some("background_memory_extraction")
        || kind == Some("background_memory_consolidation") then "memory"
    else if kind == Some("teammate_projection") then "teammate_projection"
    else current
  }

  /** `update_compat` on the current record. */
  function ApplyCompat(record: JobRecord, u: CompatUpdate, hasHandler: bool, now: int): Option<JobRecord> {
    var next := if u.status.None? then Some(record.status)
        else ValidateTransition(record.status, u.status.value, CompatPhase);
    if next.None? then None
    else
      var merged := record.metadata + u.metadata;
      Some(Stamped(record, next.value, now).(
        executorKind := CompatExecutorKind(merged, record.executorKind),
        stoppable := Some(hasHandler),
        stopRequested := if u.stopRequested.None? then record.stopRequested else u.stopRequested.value,
        result := if u.result.None? then record.result else u.result.value,
        error := if u.error.None? then record.error else CoerceOptionalString(u.error.value),
        metadata := merged))
  }

  function NewRecord(jobId: string, executorKind: string, summary: string, stoppable: Option<bool>,
                     metadata: Payload, now: int): JobRecord
  {
    JobRecord(jobId, executorKind, summary, Pending, stoppable, false, now, now, None, None, None, None, metadata)
  }

  // ---- runs over one job ---------------------------------------------------------------------------

  /** The record states the lifecycle promises. */
  predicate Coherent(r: JobRecord) {
    && (r.startedAt.Some? <==> !r.status.Pending?)
    && (r.endedAt.Some? <==> r.status.Terminal())
    && r.createdAt <= r.updatedAt
    && (r.startedAt.Some? ==> r.createdAt <= r.startedAt.value <= r.updatedAt)
    && (r.endedAt.Some? ==> r.startedAt.Some? && r.startedAt.value <= r.endedAt.value <= r.updatedAt)
  }

  datatype JobOp =
    | Report(phase: Phase, result: PhaseResult)
    | Compat(update: CompatUpdate, hasHandler: bool)
    | HandlerRegistered

  function Perform(record: JobRecord, op: JobOp, now: int): Option<JobRecord> {
    match op
    case Report(phase, result) => ApplyResult(record, phase, result, now)
    case Compat(update, hasHandler) => ApplyCompat(record, update, hasHandler, now)
    case HandlerRegistered => Some(record.(stoppable := Some(true)))
  }

  /** A series of calls on one job; a call that raises leaves the record as it was. */
  function Run(record: JobRecord, ops: seq<(JobOp, int)>): JobRecord
    decreases |ops|
  {
    if ops == [] then record
    else
      var next := Perform(record, ops[0].0, ops[0].1);
      Run(if next.Some? then next.value else record, ops[1..])
  }

  predicate NonDecreasing(ops: seq<(JobOp, int)>, start: int) {
    (forall k | 0 <= k < |ops| :: start <= ops[k].1)
    && (forall k, m | 0 <= k < m < |ops| :: ops[k].1 <= ops[m].1)
  }

  /** What no call changes: who the job is and when it was created; metadata keys are never dropped. */
  predicate SameJob(before: JobRecord, after: JobRecord) {
    after.jobId == before.jobId && after.summary == before.summary && after.createdAt == before.createdAt
    && before.metadata.Keys <= after.metadata.Keys
  }

  lemma PerformKeepsCoherent(record: JobRecord, op: JobOp, now: int)
    requires Coherent(record) && record.updatedAt <= now && Perform(record, op, now).Some?
    ensures var next := Perform(record, op, now).value;
            Coherent(next) && next.updatedAt <= now && SameJob(record, next)
            && record.status.Rank() <= next.status.Rank()
            && (record.status.Terminal() ==> next.status == record.status)
            && (record.startedAt.Some? ==> next.startedAt == record.startedAt)
  {
  }

  /** Any run of a coherent job only moves forward, never leaves a terminal status, keeps its start time, and
      keeps every timestamp where the status says it belongs. */
  lemma {:induction false} RunsMoveForward(record: JobRecord, ops: seq<(JobOp, int)>)
    requires Coherent(record) && NonDecreasing(ops, record.updatedAt)
    ensures var last := Run(record, ops);
            Coherent(last) && SameJob(record, last)
            && record.status.Rank() <= last.status.Rank()
            && (record.status.Terminal() ==> last.status == record.status)
            && (record.startedAt.Some? ==> last.startedAt == record.startedAt)
    decreases |ops|
  {
    if ops == [] {
    } else {
      var next := Perform(record, ops[0].0, ops[0].1);
      assert forall k, m | 0 <= k < m < |ops[1..]| :: ops[1..][k].1 <= ops[1..][m].1;
      if next.Some? {
        PerformKeepsCoherent(record, ops[0].0, ops[0].1);
        RunsMoveForward(next.value, ops[1..]);
      } else {
        RunsMoveForward(record, ops[1..]);
      }
    }
  }

  // ---- what a record holds -------------------------------------------------------------------------

  /** The update's keys have the update's values and all other keys keep theirs. */
  ghost predicate Overlaid(before: Payload, update: Payload, after: Payload) {
    && (forall key | key in update :: key in after && after[key] == update[key])
    && (forall key | key !in update :: key in after <==> key in before)
    && (forall key | key in before && key !in update :: after[key] == before[key])
  }

  /** The times an accepted call leaves: updated now, started at the first status past PENDING, ended now if the status
      is terminal. */
  predicate TimedAt(before: JobRecord, after: JobRecord, now: int) {
    && after.updatedAt == now
    && after.startedAt == (if before.startedAt.Some? || after.status.Pending? then before.startedAt else Some(now))
    && after.endedAt == (if after.status.Terminal() then Some(now) else before.endedAt)
  }

  /** An accepted report stores its status, result, error and metadata; capabilities come from the report except in a
      stop, the stop request from the report only in a stop. */
  lemma ReportStores(record: JobRecord, phase: Phase, r: PhaseResult, now: int)
    requires ApplyResult(record, phase, r, now).Some?
    ensures var next := ApplyResult(record, phase, r, now).value;
            && next.status == r.status && next.result == r.result && next.error == CoerceOptionalString(r.error)
            && Overlaid(record.metadata, r.metadata, next.metadata)
            && next.stoppable == (if phase.StopPhase? then record.stoppable else r.capabilities)
            && next.stopRequested == (if phase.StopPhase? then r.stopRequested else record.stopRequested)
            && TimedAt(record, next, now)
            && next.jobId == record.jobId && next.executorKind == record.executorKind
            && next.summary == record.summary && next.createdAt == record.createdAt
  {
    hide CoerceOptionalString;
  }

  /** An accepted compat update stores what it was given and keeps the rest. */
  lemma CompatStores(record: JobRecord, u: CompatUpdate, hasHandler: bool, now: int)
    requires ApplyCompat(record, u, hasHandler, now).Some?
    ensures var next := ApplyCompat(record, u, hasHandler, now).value;
            && (u.status.Some? ==> Some(next.status) == u.status) && (u.status.None? ==> next.status == record.status)
            && (u.result.Some? ==> Some(next.result) == u.result) && (u.result.None? ==> next.result == record.result)
            && (u.error.Some? ==> next.error == CoerceOptionalString(u.error.value))
            && (u.error.None? ==> next.error == record.error)
            && (u.stopRequested.Some? ==> Some(next.stopRequested) == u.stopRequested)
            && (u.stopRequested.None? ==> next.stopRequested == record.stopRequested)
            && Overlaid(record.metadata, u.metadata, next.metadata)
            && next.stoppable == Some(hasHandler) && TimedAt(record, next, now)
            && next.jobId == record.jobId && next.summary == record.summary && next.createdAt == record.createdAt
  {
    hide CoerceOptionalString, CompatExecutorKind;
  }

  /** The executor of a compat job: the one its metadata names, else the one its kind belongs to, else as before. */
  lemma ExecutorKindMeaning(metadata: Payload, current: string)
    ensures var kind, explicit := Lookup(metadata, "kind"), Lookup(metadata, "executor_kind");
            var executor := CompatExecutorKind(metadata, current);
            && (explicit.Some? ==> Some(executor) == explicit)
            && (explicit.None? && kind == Some("background_agent") ==> executor == "agent")
            && (explicit.None? && kind == Some("background_memory_extraction") ==> executor == "memory")
            && (explicit.None? && kind == Some("background_memory_consolidation") ==> executor == "memory")
            && (explicit.None? && kind == Some("teammate_projection") ==> executor == "teammate_projection")
            && (explicit.None? && kind == None ==> executor == current)
            && (explicit.None? && kind == Some("background_shell") ==> executor == current)
            && (explicit.None? && kind == Some("shell_session") ==> executor == current)
  {
    hide Lookup;
  }

  /** What calls write and records hold: the result, the error, one metadata value. */
  datatype Slot = ResultSlot | ErrorSlot | MetadataSlot(key: string)

  datatype Held = HeldResult(result: Option<Payload>) | HeldText(text: Option<string>)

  function Holds(record: JobRecord, slot: Slot): Held {
    match slot
    case ResultSlot => HeldResult(record.result)
    case ErrorSlot => HeldText(record.error)
    case MetadataSlot(key) => HeldText(if key in record.metadata then Some(record.metadata[key]) else None)
  }

  function MetadataOf(op: JobOp): Payload {
    match op
    case Report(_, result) => result.metadata
    case Compat(update, _) => update.metadata
    case HandlerRegistered => map[]
  }

  /** What a call gives for a slot, or None where it leaves the slot alone. */
  function Gives(op: JobOp, slot: Slot): Option<Held> {
    match slot
    case MetadataSlot(key) =>
      if key in MetadataOf(op) then Some(HeldText(Some(MetadataOf(op)[key]))) else None
    case ResultSlot =>
      if op.Report? then Some(HeldResult(op.result.result))
      else if op.Compat? && op.update.result.Some? then Some(HeldResult(op.update.result.value))
      else None
    case ErrorSlot =>
      if op.Report? then Some(HeldText(CoerceOptionalString(op.result.error)))
      else if op.Compat? && op.update.error.Some? then Some(HeldText(CoerceOptionalString(op.update.error.value)))
      else None
  }

  lemma PerformGives(record: JobRecord, op: JobOp, now: int, slot: Slot)
    requires Perform(record, op, now).Some?
    ensures Holds(Perform(record, op, now).value, slot) == Gives(op, slot).GetOr(Holds(record, slot))
  {
    hide CoerceOptionalString, ApplyResult, ApplyCompat;
    match op
    case Report(phase, result) => ReportStores(record, phase, result, now);
    case Compat(update, hasHandler) => CompatStores(record, update, hasHandler, now);
    case HandlerRegistered =>
  }

  /** The call at this position of the run was accepted. */
  predicate AcceptedAt(record: JobRecord, ops: seq<(JobOp, int)>, k: nat)
    requires k < |ops|
  {
    Perform(Run(record, ops[..k]), ops[k].0, ops[k].1).Some?
  }

  predicate WritesAt(record: JobRecord, ops: seq<(JobOp, int)>, k: nat, slot: Slot)
    requires k < |ops|
  {
    AcceptedAt(record, ops, k) && Gives(ops[k].0, slot).Some?
  }

  /** No call of the run from the given position on writes the slot. */
  ghost predicate SilentFrom(record: JobRecord, ops: seq<(JobOp, int)>, start: nat, slot: Slot) {
    forall k | start <= k < |ops| :: !WritesAt(record, ops, k, slot)
  }

  /** One more call: it gives the slot its value, or is refused or silent and leaves it. */
  lemma OneMoreCall(record: JobRecord, front: seq<(JobOp, int)>, op: (JobOp, int), slot: Slot)
    ensures var ops := front + [op];
            && (forall k | 0 <= k < |front| :: WritesAt(record, front, k, slot) <==> WritesAt(record, ops, k, slot))
            && Holds(Run(record, ops), slot) ==
               if WritesAt(record, ops, |front|, slot) then Gives(op.0, slot).value else Holds(Run(record, front), slot)
  {
    hide Perform, Gives, Holds;
    var ops := front + [op];
    forall k | 0 <= k < |front| ensures WritesAt(record, front, k, slot) <==> WritesAt(record, ops, k, slot) {
      assert front[..k] == ops[..k];
    }
    assert ops[..|front|] == front;
    RunSnoc(record, front, op);
    hide Run;
    if AcceptedAt(record, ops, |front|) {
      PerformGives(Run(record, front), op.0, op.1, slot);
    }
  }

  /** A slot that no accepted call writes keeps its value over the run. */
  lemma {:induction false} UnwrittenSlotStays(record: JobRecord, ops: seq<(JobOp, int)>, slot: Slot)
    requires SilentFrom(record, ops, 0, slot)
    ensures Holds(Run(record, ops), slot) == Holds(record, slot)
  {
    hide Perform, Gives, Holds, WritesAt;
    if ops == [] {
    } else {
      var last := |ops| - 1;
      assert ops == ops[..last] + [ops[last]];
      hide Run;
      OneMoreCall(record, ops[..last], ops[last], slot);
      UnwrittenSlotStays(record, ops[..last], slot);
    }
  }

  /** After any run a slot holds what the last accepted call that wrote it gave. */
  lemma {:induction false} LastWriteWins(record: JobRecord, ops: seq<(JobOp, int)>, slot: Slot, k: nat)
    requires k < |ops| && WritesAt(record, ops, k, slot) && SilentFrom(record, ops, k + 1, slot)
    ensures Some(Holds(Run(record, ops), slot)) == Gives(ops[k].0, slot)
  {
    var last := |ops| - 1;
    assert Gives(ops[k].0, slot).Some?;
    hide Perform, Gives, Holds, WritesAt, Run;
    assert ops == ops[..last] + [ops[last]];
    OneMoreCall(record, ops[..last], ops[last], slot);
    if k < last {
      LastWriteWins(record, ops[..last], slot, k);
    }
  }

  lemma RunSnoc(record: JobRecord, ops: seq<(JobOp, int)>, op: (JobOp, int))
    ensures Run(record, ops + [op]) == Perform(Run(record, ops), op.0, op.1).GetOr(Run(record, ops))
  {
    hide Perform;
    RunAppend(record, ops, [op]);
    assert [op][1..] == [];
  }

  lemma {:induction false} RunAppend(record: JobRecord, first: seq<(JobOp, int)>, second: seq<(JobOp, int)>)
    ensures Run(record, first + second) == Run(Run(record, first), second)
    decreases |first|
  {
    if first == [] {
      assert first + second == second;
    } else {
      var next := Perform(record, first[0].0, first[0].1);
      assert (first + second)[1..] == first[1..] + second;
      RunAppend(if next.Some? then next.value else record, first[1..], second);
    }
  }

  /** From submission on: at any two moments of any run the later status is no lower, and a terminal one is final. */
  lemma SubmittedJobHistory(jobId: string, kind: string, summary: string, stoppable: Option<bool>, metadata: Payload,
                            created: int, ops: seq<(JobOp, int)>, m: nat, n: nat)
    requires m <= n <= |ops| && NonDecreasing(ops, created)
    ensures var job := NewRecord(jobId, kind, summary, stoppable, metadata, created);
            var earlier, later := Run(job, ops[..m]), Run(job, ops[..n]);
            Coherent(earlier) && Coherent(later) && SameJob(job, earlier) && SameJob(earlier, later)
            && earlier.status.Rank() <= later.status.Rank()
            && (earlier.status.Terminal() ==> later.status == earlier.status)
            && (earlier.startedAt.Some? ==> later.startedAt == earlier.startedAt)
  {
    hide Perform, Run;
    var job := NewRecord(jobId, kind, summary, stoppable, metadata, created);
    var first, second := ops[..m], ops[m..n];
    assert ops[..n] == first + second;
    SplitNonDecreasing(ops, created, m, n);
    RunsMoveForward(job, first);
    RunAppend(job, first, second);
    RunUpdatedAt(job, first, created);
    RunsMoveForward(Run(job, first), second);
  }

  lemma SplitNonDecreasing(ops: seq<(JobOp, int)>, start: int, m: nat, n: nat)
    requires m <= n <= |ops| && NonDecreasing(ops, start)
    ensures NonDecreasing(ops[..m], start)
    ensures forall bound | bound <= (if m == 0 then start else ops[m - 1].1) :: NonDecreasing(ops[m..n], bound)
  {
    assert forall k | 0 <= k < n - m :: ops[m..n][k] == ops[m + k];
  }

  lemma {:induction false} RunUpdatedAt(record: JobRecord, ops: seq<(JobOp, int)>, start: int)
    requires NonDecreasing(ops, start) && record.updatedAt <= start
    ensures Run(record, ops).updatedAt <= (if ops == [] then start else ops[|ops| - 1].1)
    decreases |ops|
  {
    if ops == [] {
    } else {
      var next := Perform(record, ops[0].0, ops[0].1);
      assert forall k, m | 0 <= k < m < |ops[1..]| :: ops[1..][k].1 <= ops[1..][m].1;
      RunUpdatedAt(if next.Some? then next.value else record, ops[1..], ops[0].1);
    }
  }

  // ---- stopping a job that only has a compat handler ------------------------------------------------

  /** What the handler's update_compat calls leave, and whether one of them raised (which ends the handler). */
  function HandlerRun(record: JobRecord, calls: seq<(CompatUpdate, int)>): (JobRecord, bool)
    decreases |calls|
  {
    if calls == [] then (record, false)
    else
      var next := ApplyCompat(record, calls[0].0, true, calls[0].1);
      if next.None? then (record, true) else HandlerRun(next.value, calls[1..])
  }

  const ACCEPT_STOP := (status: JobStatus) => PhaseResult(status, None, map[], None, None, true)

  /** The acceptance a compat stop records before it calls the handler. */
  function StopAccepted(record: JobRecord, now: int): JobRecord {
    ApplyResultPatch(record, StopPhase, ACCEPT_STOP(if record.status.Running? then Running else Stopped), now)
  }

  /** The acceptance records the request, keeps a RUNNING job RUNNING for its handler and stops one that is PENDING. */
  lemma StopAcceptedMeaning(record: JobRecord, now: int)
    ensures StopAccepted(record, now).stopRequested
    ensures StopAccepted(record, now).status == if record.status.Running? then Running else Stopped
    ensures StopAccepted(record, now).metadata == record.metadata && StopAccepted(record, now).result.None?
  {
    assert record.metadata + map[] == record.metadata;
  }

  /** What the stop does with the record the handler left. */
  function StopSettled(after: JobRecord, later: int): JobRecord {
    if after.status.Running? then ApplyResultPatch(after, StopPhase, ACCEPT_STOP(Stopped), later) else after
  }

  /** A compat stop: the record it leaves and whether the handler's error escapes. */
  function CompatStop(record: JobRecord, calls: seq<(CompatUpdate, int)>, now: int, later: int): (JobRecord, bool) {
    var (after, raised) := HandlerRun(StopAccepted(record, now), calls);
    if raised then (after, true) else (StopSettled(after, later), false)
  }

  function AsOps(calls: seq<(CompatUpdate, int)>): seq<(JobOp, int)> {
    seq(|calls|, k requires 0 <= k < |calls| => (Compat(calls[k].0, true), calls[k].1))
  }

  /** A compat stop whose handler catches refusals and goes on, as the shell stop handler does. */
  function CatchingStop(record: JobRecord, calls: seq<(CompatUpdate, int)>, now: int, later: int): JobRecord {
    StopSettled(Run(StopAccepted(record, now), AsOps(calls)), later)
  }

  lemma {:induction false} HandlerKeepsTerminal(record: JobRecord, calls: seq<(CompatUpdate, int)>)
    ensures record.status.Terminal() ==> HandlerRun(record, calls).0.status == record.status
    ensures record.status.Rank() <= HandlerRun(record, calls).0.status.Rank()
    ensures record.status.Terminal() ==>
              (HandlerRun(record, calls).1 <==> exists k | 0 <= k < |calls| ::
                 calls[k].0.status.Some? && calls[k].0.status != Some(record.status))
    decreases |calls|
  {
    if calls == [] {
    } else {
      var next := ApplyCompat(record, calls[0].0, true, calls[0].1);
      if next.Some? {
        HandlerKeepsTerminal(next.value, calls[1..]);
        assert forall k | 0 < k < |calls| :: calls[k] == calls[1..][k - 1];
      } else {
        assert calls[0].0.status.Some? && calls[0].0.status != Some(record.status);
      }
    }
  }

  /** Some call asks for PENDING, or for a status other than a terminal one that an earlier call asked for. */
  ghost predicate Conflicting(calls: seq<(CompatUpdate, int)>) {
    exists k | 0 <= k < |calls| :: ConflictingAt(calls, k)
  }

  ghost predicate ConflictingAt(calls: seq<(CompatUpdate, int)>, k: nat)
    requires k < |calls|
  {
    calls[k].0.status == Some(Pending)
    || (calls[k].0.status.Some?
        && exists j | 0 <= j < k :: Demands(calls[j].0) && calls[j].0.status != calls[k].0.status)
  }

  predicate Demands(u: CompatUpdate) {
    u.status.Some? && u.status.value.Terminal()
  }

  lemma ConflictAfterQuiet(calls: seq<(CompatUpdate, int)>)
    requires calls != [] && calls[0].0.status in [None, Some(JobStatus.Running)]
    ensures Conflicting(calls) <==> Conflicting(calls[1..])
  {
    var rest := calls[1..];
    assert forall k | 0 < k < |calls| :: calls[k] == rest[k - 1];
    if Conflicting(calls) {
      var k :| 0 <= k < |calls| && ConflictingAt(calls, k);
      if j :| 0 <= j < k && Demands(calls[j].0) && calls[j].0.status != calls[k].0.status {
        assert Demands(rest[j - 1].0) && rest[j - 1].0.status != rest[k - 1].0.status;
      }
      assert ConflictingAt(rest, k - 1);
    }
    if Conflicting(rest) {
      var k :| 0 <= k < |rest| && ConflictingAt(rest, k);
      if j :| 0 <= j < k && Demands(rest[j].0) && rest[j].0.status != rest[k].0.status {
        assert Demands(calls[j + 1].0) && calls[j + 1].0.status != calls[k + 1].0.status;
      }
      assert ConflictingAt(calls, k + 1);
    }
  }

  lemma ConflictAfterDemand(calls: seq<(CompatUpdate, int)>)
    requires calls != [] && Demands(calls[0].0)
    ensures Conflicting(calls) <==>
            exists k | 0 <= k < |calls[1..]| ::
              calls[1..][k].0.status.Some? && calls[1..][k].0.status != calls[0].0.status
  {
    var rest := calls[1..];
    assert forall k | 0 < k < |calls| :: calls[k] == rest[k - 1];
    if Conflicting(calls) {
      var k :| 0 <= k < |calls| && ConflictingAt(calls, k);
      assert k > 0 && rest[k - 1].0.status.Some?;
      if calls[k].0.status == calls[0].0.status {
        var j :| 0 <= j < k && Demands(calls[j].0) && calls[j].0.status != calls[k].0.status;
        assert rest[j - 1].0.status.Some?;
      }
    }
    if k :| 0 <= k < |rest| && rest[k].0.status.Some? && rest[k].0.status != calls[0].0.status {
      assert calls[0].0.status != calls[k + 1].0.status;
      assert ConflictingAt(calls, k + 1);
    }
  }

  /** A handler that starts on a RUNNING job raises exactly when its calls conflict. */
  lemma {:induction false} HandlerFromRunning(record: JobRecord, calls: seq<(CompatUpdate, int)>)
    requires record.status.Running?
    ensures HandlerRun(record, calls).1 <==> Conflicting(calls)
    decreases |calls|
  {
    hide Conflicting;
    if calls == [] {
      assert !Conflicting(calls) by { NoConflict(); }
    } else {
      var next := ApplyCompat(record, calls[0].0, true, calls[0].1);
      if calls[0].0.status == Some(Pending) {
        FirstConflicts(calls);
      } else if Demands(calls[0].0) {
        ConflictAfterDemand(calls);
        HandlerKeepsTerminal(next.value, calls[1..]);
      } else {
        ConflictAfterQuiet(calls);
        HandlerFromRunning(next.value, calls[1..]);
      }
    }
  }

  lemma NoConflict()
    ensures !Conflicting([])
  {
  }

  lemma FirstConflicts(calls: seq<(CompatUpdate, int)>)
    requires calls != [] && calls[0].0.status == Some(Pending)
    ensures Conflicting(calls)
  {
    assert ConflictingAt(calls, 0);
  }

  /** A compat stop that returns has finished the job. It fails to return exactly when the handler asks for a status
      other than STOPPED, from PENDING, and exactly when the handler's calls conflict, from RUNNING. */
  lemma CompatStopFinishes(record: JobRecord, calls: seq<(CompatUpdate, int)>, now: int, later: int)
    requires record.status.Pending? || record.status.Running?
    ensures var (after, raised) := CompatStop(record, calls, now, later);
            (!raised ==> after.status.Terminal())
            && (record.status.Pending? ==> after.status == Stopped)
            && (record.status.Pending? ==> (raised <==> exists k | 0 <= k < |calls| ::
                  calls[k].0.status.Some? && calls[k].0.status != Some(Stopped)))
            && (record.status.Running? ==> (raised <==> Conflicting(calls)))
  {
    hide Conflicting;
    var accepted := StopAccepted(record, now);
    HandlerKeepsTerminal(accepted, calls);
    if record.status.Running? {
      HandlerFromRunning(accepted, calls);
    }
  }

  lemma {:induction false} RunKeepsTerminal(record: JobRecord, ops: seq<(JobOp, int)>)
    ensures record.status.Rank() <= Run(record, ops).status.Rank()
    ensures record.status.Terminal() ==> Run(record, ops).status == record.status
    decreases |ops|
  {
    if ops == [] {
    } else {
      var next := Perform(record, ops[0].0, ops[0].1);
      RunKeepsTerminal(if next.Some? then next.value else record, ops[1..]);
    }
  }

  /** Whatever a handler asks for, as long as it catches the refusals the stop returns with the job finished; a job
      that had not started ends STOPPED. */
  lemma CatchingStopFinishes(record: JobRecord, calls: seq<(CompatUpdate, int)>, now: int, later: int)
    requires record.status.Pending? || record.status.Running?
    ensures var after := CatchingStop(record, calls, now, later);
            after.status.Terminal() && (record.status.Pending? ==> after.status == Stopped)
  {
    hide Run;
    RunKeepsTerminal(StopAccepted(record, now), AsOps(calls));
  }

  /** The clock of a stop: the acceptance, the handler's calls and the settlement in this order. */
  ghost predicate StopTimes(record: JobRecord, calls: seq<(CompatUpdate, int)>, now: int, later: int) {
    record.updatedAt <= now <= later && NonDecreasing(AsOps(calls), now)
    && forall k | 0 <= k < |calls| :: calls[k].1 <= later
  }

  /** A handler that gives up at a refusal makes a run of its calls up to there. */
  lemma {:induction false} HandlerIsRun(record: JobRecord, calls: seq<(CompatUpdate, int)>) returns (n: nat)
    ensures n <= |calls| && HandlerRun(record, calls).0 == Run(record, AsOps(calls)[..n])
    decreases |calls|
  {
    if calls == [] {
      return 0;
    }
    var next := ApplyCompat(record, calls[0].0, true, calls[0].1);
    if next.None? {
      return 0;
    }
    var m := HandlerIsRun(next.value, calls[1..]);
    n := m + 1;
    var ops := AsOps(calls)[..n];
    assert ops[0] == (Compat(calls[0].0, true), calls[0].1) && ops[1..] == AsOps(calls[1..])[..m];
  }

  lemma RunStaysCoherent(record: JobRecord, ops: seq<(JobOp, int)>, start: int, later: int)
    requires Coherent(record) && record.updatedAt <= start <= later && NonDecreasing(ops, start)
    requires forall k | 0 <= k < |ops| :: ops[k].1 <= later
    ensures Coherent(Run(record, ops)) && SameJob(record, Run(record, ops)) && Run(record, ops).updatedAt <= later
  {
    hide Run;
    RunsMoveForward(record, ops);
    RunUpdatedAt(record, ops, start);
  }

  lemma StopPartsCoherent(record: JobRecord, now: int)
    requires Coherent(record) && record.updatedAt <= now
    ensures record.status.Pending? || record.status.Running? ==>
              var accepted := StopAccepted(record, now);
              Coherent(accepted) && SameJob(record, accepted) && accepted.updatedAt == now
    ensures Coherent(StopSettled(record, now)) && SameJob(record, StopSettled(record, now))
  {
  }

  /** A compat stop keeps the lifecycle's promises, with either kind of handler and whether or not it returns. */
  lemma StopKeepsCoherent(record: JobRecord, calls: seq<(CompatUpdate, int)>, now: int, later: int)
    requires Coherent(record) && (record.status.Pending? || record.status.Running?)
    requires StopTimes(record, calls, now, later)
    ensures var after := CompatStop(record, calls, now, later).0; Coherent(after) && SameJob(record, after)
    ensures var after := CatchingStop(record, calls, now, later); Coherent(after) && SameJob(record, after)
  {
    hide Run, HandlerRun, StopAccepted, StopSettled, Coherent;
    var accepted := StopAccepted(record, now);
    StopPartsCoherent(record, now);
    RunStaysCoherent(accepted, AsOps(calls), now, later);
    StopPartsCoherent(Run(accepted, AsOps(calls)), later);
    var n := HandlerIsRun(accepted, calls);
    var ops := AsOps(calls)[..n];
    assert NonDecreasing(ops, now);
    RunStaysCoherent(accepted, ops, now, later);
    StopPartsCoherent(Run(accepted, ops), later);
  }
}
