/** `DefaultJobService` over an in-memory store: every call states the whole store it leaves. */
module JobServices {
  import opened Text
  import opened JobRecords

  datatype Saved =
    | Ok(record: JobRecord)
    | Missing
    | InvalidTransition(current: JobStatus, proposed: JobStatus)

  datatype StopOutcome =
    | Finished(record: JobRecord)
    | NotFound
    | NotRunning(status: JobStatus)
    | NotStoppable
    | HandlerRaised

  datatype SubmitAnswer = Started(result: PhaseResult) | SubmitRaised(error: string)

  function SubmitFailure(stoppable: Option<bool>, error: string): (r: PhaseResult)
    ensures r.status == Failed && r.error == Some(error) && r.capabilities == stoppable
    ensures r.result.None? && r.metadata.Keys == {"submit_failed"}
  {
    PhaseResult(Failed, stoppable, map["submit_failed" := "True"], None, Some(error), false)
  }

  class JobService {
    var records: map<string, JobRecord>
    var executors: set<string>
    var handlers: set<string>

    constructor (executors: set<string>)
      ensures records == map[] && handlers == {} && this.executors == executors
    {
      records, handlers, this.executors := map[], {}, executors;
    }

    /** The first stretch of `submit`: resolve the executor and store the pending record. */
    method BeginSubmit(jobId: string, kind: string, summary: string, stoppable: Option<bool>, metadata: Payload,
        now: int)
      returns (resolved: bool)
      modifies this`records
      ensures resolved == (kind in executors)
      ensures records == if resolved
                         then old(records)[jobId := NewRecord(jobId, kind, summary, stoppable, metadata, now)]
                         else old(records)
      ensures resolved ==>
                var job := records[jobId];
                && job.status.Pending? && !job.stopRequested && job.createdAt == job.updatedAt == now
                && job.jobId == jobId && job.executorKind == kind && job.summary == summary
                && job.stoppable == stoppable && job.metadata == metadata && job.result.None? && job.error.None?
    {
      if kind !in executors {
        return false;
      }
      records := records[jobId :=
          JobRecord(jobId, kind, summary, Pending, stoppable, false, now, now, None, None, None, None, metadata)];
      return true;
    }

    /** The last stretch of `submit`; an executor that raised leaves a failed record. */
    method FinishSubmit(jobId: string, stoppable: Option<bool>, answer: SubmitAnswer, now: int) returns (saved: Saved)
      modifies this`records
      ensures var result := if answer.Started? then answer.result else SubmitFailure(stoppable, answer.error);
              saved == SaveOutcome(old(records), jobId, StartPhase, result, now)
              && records == SavedRecords(old(records), saved)
    {
      match answer
      case Started(result) =>
        saved := ApplyPhase(jobId, StartPhase, result, now);
      case SubmitRaised(error) =>
        var result := PhaseResult(Failed, stoppable, map["submit_failed" := "True"], None, Some(error), false);
        saved := ApplyPhase(jobId, StartPhase, result, now);
    }

    /** `apply_start_result`, `apply_stop_result` and `apply_recovery_result`. */
    method ApplyPhase(jobId: string, phase: Phase, result: PhaseResult, now: int) returns (saved: Saved)
      modifies this`records
      ensures saved == SaveOutcome(old(records), jobId, phase, result, now)
      ensures records == SavedRecords(old(records), saved)
      ensures saved.Missing? <==> jobId !in old(records)
      ensures saved.InvalidTransition? ==>
                && saved.current == old(records)[jobId].status && saved.proposed == result.status
                && records == old(records)
      ensures saved.Ok? ==>
                && saved.record.status == result.status && saved.record.result == result.result
                && saved.record.error == CoerceOptionalString(result.error)
                && Overlaid(old(records)[jobId].metadata, result.metadata, saved.record.metadata)
                && records == old(records)[saved.record.jobId := saved.record]
    {
      if jobId !in records {
        return Missing;
      }
      var current := records[jobId];
      if ValidateTransition(current.status, result.status, phase).None? {
        return InvalidTransition(current.status, result.status);
      }
      var startedAt, endedAt := current.startedAt, current.endedAt;
      if !result.status.Pending? && startedAt.None? {
        startedAt := Some(now);
      }
      if result.status.Terminal() {
        endedAt := Some(now);
      }
      var updated := current.(
        status := result.status,
        stopRequested := if phase == StopPhase then result.stopRequested else current.stopRequested,
        stoppable := if phase == StopPhase then current.stoppable else result.capabilities,
        updatedAt := now, startedAt := startedAt, endedAt := endedAt,
        result := result.result, error := CoerceOptionalString(result.error),
        metadata := current.metadata + result.metadata);
      records := records[updated.jobId := updated];
      return Ok(updated);
    }

    method UpdateCompat(jobId: string, update: CompatUpdate, now: int) returns (saved: Saved)
      modifies this`records
      ensures saved == CompatOutcome(old(records), jobId, update, jobId in handlers, now)
      ensures records == SavedRecords(old(records), saved)
      ensures saved.Ok? ==> jobId in old(records)
    {
      hide ApplyCompat;
      if jobId !in records {
        return Missing;
      }
      var current := records[jobId];
      var updated := PatchCompat(current, update, jobId in handlers, now);
      if updated.None? {
        return InvalidTransition(current.status, if update.status.Some? then update.status.value else current.status);
      }
      records := records[updated.value.jobId := updated.value];
      return Ok(updated.value);
    }

    /** The record `update_compat` stores, or None where the proposed status is refused. */
    static method PatchCompat(current: JobRecord, update: CompatUpdate, hasHandler: bool, now: int)
      returns (updated: Option<JobRecord>)
      ensures updated == ApplyCompat(current, update, hasHandler, now)
    {
      hide CompatExecutorKind, CoerceOptionalString;
      var next := current.status;
      if update.status.Some? {
        if ValidateTransition(current.status, update.status.value, CompatPhase).None? {
          return None;
        }
        next := update.status.value;
      }
      var metadata := current.metadata + update.metadata;
      var startedAt, endedAt := current.startedAt, current.endedAt;
      if !next.Pending? && startedAt.None? {
        startedAt := Some(now);
      }
      if next.Terminal() {
        endedAt := Some(now);
      }
      return Some(current.(
        executorKind := CompatExecutorKind(metadata, current.executorKind),
        status := next,
        stoppable := Some(hasHandler),
        stopRequested := if update.stopRequested.Some? then update.stopRequested.value else current.stopRequested,
        updatedAt := now, startedAt := startedAt, endedAt := endedAt,
        result := if update.result.Some? then update.result.value else current.result,
        error := if update.error.Some? then CoerceOptionalString(update.error.value) else current.error,
        metadata := metadata));
    }

    /** Rewrites the whole record, keeping only the old timestamps, result and error: a creation step. */
    method CreateOrUpdateCompat(jobId: string, summary: string, metadata: Payload, now: int) returns (record: JobRecord)
      modifies this`records
      ensures records == old(records)[jobId := record]
      ensures var before := if jobId in old(records) then Some(old(records)[jobId]) else None;
              record == CompatRecord(before, jobId, summary, metadata, jobId in handlers, now)
      ensures record.status.Pending? && !record.stopRequested && record.updatedAt == now && record.metadata == metadata
      ensures record.jobId == jobId && record.summary == summary && record.stoppable == Some(jobId in handlers)
      ensures record.executorKind == CompatExecutorKind(metadata, "legacy")
      ensures jobId !in old(records) ==>
                record.createdAt == now && record.startedAt.None? && record.endedAt.None? && record.result.None?
                && record.error.None?
      ensures jobId in old(records) ==>
                var before := old(records)[jobId];
                && record.createdAt == before.createdAt && record.startedAt == before.startedAt
                && record.endedAt == before.endedAt && record.result == before.result && record.error == before.error
    {
      record := JobRecord(jobId, CompatExecutorKind(metadata, "legacy"), summary, Pending, Some(jobId in handlers),
                          false, now, now, None, None, None, None, metadata);
      if jobId in records {
        var existing := records[jobId];
        record := record.(createdAt := existing.createdAt, startedAt := existing.startedAt, endedAt := existing.endedAt,
                          result := existing.result, error := existing.error);
      }
      records := records[jobId := record];
    }

    method RegisterCompatStopHandler(jobId: string)
      modifies this`handlers, this`records
      ensures handlers == old(handlers) + {jobId}
      ensures records == WithHandler(old(records), jobId)
      ensures jobId in old(records) ==> records[jobId] == old(records)[jobId].(stoppable := Some(true))
    {
      handlers := handlers + {jobId};
      if jobId in records && records[jobId].stoppable != Some(true) {
        records := records[jobId := records[jobId].(stoppable := Some(true))];
      }
    }

    /** `stop` for a job whose executor is not registered. `calls` are the update_compat calls its handler makes; a
        handler that `catches` goes on after a refused call. */
    method StopWithoutExecutor(jobId: string, calls: seq<(CompatUpdate, int)>, catches: bool, now: int, later: int)
      returns (outcome: StopOutcome)
      requires jobId in records ==> records[jobId].executorKind !in executors && records[jobId].jobId == jobId
      modifies this`records
      ensures outcome.NotFound? <==> jobId !in old(records)
      ensures outcome.NotRunning? <==> jobId in old(records) && old(records)[jobId].status.Terminal()
      ensures outcome.NotStoppable? <==>
                jobId in old(records) && !old(records)[jobId].status.Terminal()
                && (old(records)[jobId].stoppable != Some(true) || jobId !in handlers)
      ensures outcome.NotFound? || outcome.NotRunning? ==> records == old(records)
      ensures outcome.NotStoppable? ==>
                records == if old(records)[jobId].stoppable == Some(true)
                           then old(records)[jobId := old(records)[jobId].(stoppable := Some(false))] else old(records)
      ensures outcome.Finished? || outcome.HandlerRaised? ==>
                var (after, raised) := StopResult(old(records)[jobId], calls, catches, now, later);
                records == old(records)[jobId := after] && outcome == if raised then HandlerRaised else Finished(after)
      ensures outcome.Finished? ==> outcome.record.status.Terminal()
      ensures outcome.Finished? || outcome.HandlerRaised? ==>
                Coherent(old(records)[jobId]) && StopTimes(old(records)[jobId], calls, now, later)
                ==> Coherent(records[jobId])
    {
      hide ApplyCompat, CoerceOptionalString, Coherent, StopTimes;
      if jobId !in records {
        return NotFound;
      }
      var record := records[jobId];
      if record.status.Terminal() {
        return NotRunning(record.status);
      }
      if record.stoppable != Some(true) {
        return NotStoppable;
      }
      if jobId !in handlers {
        records := records[jobId := record.(stoppable := Some(false))];
        return NotStoppable;
      }
      var request := PhaseResult(if record.status == Running then Running else Stopped, None, map[], None, None, true);
      var accepted := ApplyPhase(jobId, StopPhase, request, now);
      StopOutcomes(record, calls, catches, now, later);
      var raised := RunHandler(jobId, calls, catches);
      if raised {
        return HandlerRaised;
      }
      if records[jobId].status == Running {
        var finished := ApplyPhase(jobId, StopPhase, PhaseResult(Stopped, None, map[], None, None, true), later);
        return Finished(finished.record);
      }
      return Finished(records[jobId]);
    }

    /** The calls of a compat stop handler. */
    method RunHandler(jobId: string, calls: seq<(CompatUpdate, int)>, catches: bool) returns (raised: bool)
      requires jobId in records && records[jobId].jobId == jobId && jobId in handlers
      modifies this`records
      ensures var (after, refused) := Handled(old(records)[jobId], calls, catches);
              raised == refused && records == old(records)[jobId := after] && after.jobId == jobId
    {
      hide ApplyCompat, HandlerRun, Run;
      ghost var before, start := records, records[jobId];
      var k := 0;
      assert calls[0..] == calls;
      while k < |calls|
        invariant 0 <= k <= |calls|
        invariant jobId in records && records == before[jobId := records[jobId]] && records[jobId].jobId == jobId
        invariant Handled(start, calls, catches) == Handled(records[jobId], calls[k..], catches)
      {
        CompatKeepsId(records[jobId], calls[k].0, calls[k].1);
        NextCall(records[jobId], calls[k..]);
        assert calls[k..][1..] == calls[k + 1..];
        var saved := UpdateCompat(jobId, calls[k].0, calls[k].1);
        if !saved.Ok? && !catches {
          return true;
        }
        k := k + 1;
      }
      assert calls[k..] == [];
      NoMoreCalls(records[jobId]);
      return false;
    }
  }

  /** What a handler's calls leave, and whether a refusal escapes. */
  function Handled(record: JobRecord, calls: seq<(CompatUpdate, int)>, catches: bool): (JobRecord, bool) {
    if catches then (Run(record, AsOps(calls)), false) else HandlerRun(record, calls)
  }

  lemma NoMoreCalls(record: JobRecord)
    ensures HandlerRun(record, []) == (record, false) && Run(record, AsOps([])) == record
  {
  }

  /** What a compat stop leaves, and whether its handler's error escapes. */
  function StopResult(record: JobRecord, calls: seq<(CompatUpdate, int)>, catches: bool, now: int, later: int)
    : (JobRecord, bool)
  {
    if catches then (CatchingStop(record, calls, now, later), false) else CompatStop(record, calls, now, later)
  }

  lemma StopOutcomes(record: JobRecord, calls: seq<(CompatUpdate, int)>, catches: bool, now: int, later: int)
    requires record.status.Pending? || record.status.Running?
    ensures var (after, raised) := StopResult(record, calls, catches, now, later);
            && (!raised ==> after.status.Terminal())
            && (Coherent(record) && StopTimes(record, calls, now, later) ==> Coherent(after))
  {
    hide CompatStop, CatchingStop, Coherent, StopTimes, Conflicting;
    CompatStopFinishes(record, calls, now, later);
    CatchingStopFinishes(record, calls, now, later);
    if Coherent(record) && StopTimes(record, calls, now, later) {
      StopKeepsCoherent(record, calls, now, later);
    }
  }

  lemma NextCall(record: JobRecord, calls: seq<(CompatUpdate, int)>)
    requires calls != []
    ensures var next := ApplyCompat(record, calls[0].0, true, calls[0].1);
            && HandlerRun(record, calls) == (if next.None? then (record, true) else HandlerRun(next.value, calls[1..]))
            && Run(record, AsOps(calls)) == Run(if next.None? then record else next.value, AsOps(calls[1..]))
  {
    hide ApplyCompat;
    assert AsOps(calls)[1..] == AsOps(calls[1..]);
  }

  function SaveOutcome(records: map<string, JobRecord>, jobId: string, phase: Phase, result: PhaseResult,
      now: int): Saved {
    if jobId !in records then Missing
    else
      var patched := ApplyResult(records[jobId], phase, result, now);
      if patched.Some? then Ok(patched.value) else InvalidTransition(records[jobId].status, result.status)
  }

  lemma CompatKeepsId(record: JobRecord, update: CompatUpdate, now: int)
    ensures var updated := ApplyCompat(record, update, true, now); updated.Some? ==> updated.value.jobId == record.jobId
  {
  }

  function CompatOutcome(records: map<string, JobRecord>, jobId: string, update: CompatUpdate, hasHandler: bool,
      now: int): Saved {
    if jobId !in records then Missing
    else
      var patched := ApplyCompat(records[jobId], update, hasHandler, now);
      if patched.Some? then Ok(patched.value)
      else
        var proposed := if update.status.Some? then update.status.value else records[jobId].status;
        InvalidTransition(records[jobId].status, proposed)
  }

  function SavedRecords(records: map<string, JobRecord>, saved: Saved): map<string, JobRecord> {
    if saved.Ok? then records[saved.record.jobId := saved.record] else records
  }

  function WithHandler(records: map<string, JobRecord>, jobId: string): map<string, JobRecord> {
    if jobId in records && records[jobId].stoppable != Some(true)
    then records[jobId := records[jobId].(stoppable := Some(true))]
    else records
  }

  /** What `create_or_update_compat` stores: a pending record with the timestamps, result and error of the old one. */
  function CompatRecord(before: Option<JobRecord>, jobId: string, summary: string, metadata: Payload, hasHandler: bool,
      now: int)
    : JobRecord
  {
    var blank := NewRecord(jobId, CompatExecutorKind(metadata, "legacy"), summary, Some(hasHandler), metadata, now);
    if before.None? then blank
    else blank.(createdAt := before.value.createdAt, startedAt := before.value.startedAt,
                     endedAt := before.value.endedAt, result := before.value.result, error := before.value.error)
  }

  /** Rewriting is a creation step: it keeps the lifecycle exactly for a job that is new or has not started. A
      running or finished job becomes PENDING with a start time. */
  lemma CompatCreationExact(before: Option<JobRecord>, jobId: string, summary: string, metadata: Payload,
      hasHandler: bool, now: int)
    requires before.Some? ==> Coherent(before.value) && before.value.updatedAt <= now
    ensures Coherent(CompatRecord(before, jobId, summary, metadata, hasHandler, now)) <==>
            before.None? || before.value.status.Pending?
  {
    hide CompatExecutorKind;
  }
}
