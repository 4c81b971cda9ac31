/**
 * The background half of `AgentDispatcher` and `AgentJobExecutor`, in place: a job service, the table of
 * background tasks and the notification list. Every stretch of code between two awaits is one method, and every
 * method is one step of the protocol machine.
 */
module AgentDispatchers {
  import opened Text
  import opened JobRecords
  import opened JobServices
  import P = AgentProtocol

  datatype AgentSpec = AgentSpec(runId: string, turnId: string, agentName: string)

  function StatusText(status: P.AgentStatus): string {
    match status
    case AgentCompleted => "completed"
    case AgentMaxTurns => "max_turns"
    case AgentStopped => "stopped"
    case AgentDenied => "denied"
    case AgentFailed => "failed"
    case AgentOther(text) => text
  }

  function JobMetadata(spec: AgentSpec, agentStatus: string): Payload {
    map["run_id" := spec.runId, "kind" := "background_agent", "agent_status" := agentStatus, "turn_id" := spec.turnId]
  }

  function RunPayload(runId: string, turnId: string, agentStatus: string): Payload {
    map["agent_status" := agentStatus, "run_id" := runId, "turn_id" := turnId]
  }

  ghost function JobsOf(records: map<string, JobRecord>, runners: map<string, P.Runner>): (jobs: map<string, P.Job>)
    requires runners.Keys <= records.Keys
    ensures jobs.Keys == runners.Keys
  {
    map id | id in runners :: P.Job(records[id].status, runners[id])
  }

  /** The metadata names the run and gives its status. */
  predicate Says(record: JobRecord, spec: AgentSpec, agentStatus: string) {
    && {"run_id", "turn_id", "kind", "agent_status"} <= record.metadata.Keys
    && record.metadata["run_id"] == spec.runId && record.metadata["turn_id"] == spec.turnId
    && record.metadata["kind"] == "background_agent" && record.metadata["agent_status"] == agentStatus
  }

  /** The stored result gives the same. */
  predicate Shows(record: JobRecord, spec: AgentSpec, agentStatus: string) {
    record.result == Some(map["agent_status" := agentStatus, "run_id" := spec.runId, "turn_id" := spec.turnId])
  }

  lemma MetadataSays(before: Payload, spec: AgentSpec, agentStatus: string, record: JobRecord)
    requires Overlaid(before, JobMetadata(spec, agentStatus), record.metadata)
    ensures Says(record, spec, agentStatus)
  {
  }

  lemma PayloadShows(spec: AgentSpec, agentStatus: string)
    ensures RunPayload(spec.runId, spec.turnId, agentStatus) ==
            map["agent_status" := agentStatus, "run_id" := spec.runId, "turn_id" := spec.turnId]
  {
  }

  /** An agent job that has not ended can be stopped. */
  predicate Stoppable(record: JobRecord) {
    record.status.Terminal() || record.stoppable == Some(true)
  }

  /** A report that ends the job or confirms that it can be stopped. */
  predicate KeepsStoppable(phase: Phase, result: PhaseResult) {
    result.status.Terminal() || (!phase.StopPhase? && result.capabilities == Some(true))
  }

  class AgentDispatcher {
    const service: JobService
    /** One entry per agent job: where its coroutines stand, and whether `_background_tasks` holds its task. */
    var runners: map<string, P.Runner>
    var notifications: seq<(string, P.AgentStatus)>
    ghost var writes: seq<(string, JobStatus)>
    ghost var raised: seq<(string, JobStatus)>

    ghost predicate Valid()
      reads this, service
    {
      forall id | id in runners ::
        id in service.records && service.records[id].jobId == id && Stoppable(service.records[id])
    }

    ghost function View(): P.State
      reads this, service
      requires Valid()
    {
      P.State(JobsOf(service.records, runners), notifications, writes, raised)
    }

    constructor (service: JobService)
      ensures this.service == service && Valid() && View() == P.INITIAL
    {
      this.service := service;
      runners, notifications, writes, raised := map[], [], [], [];
    }

    /** `apply_*_result` with the two ghost logs kept beside it. */
    method Record(id: string, phase: Phase, result: PhaseResult, now: int) returns (accepted: bool)
      requires Valid() && id in runners && KeepsStoppable(phase, result)
      modifies this`writes, this`raised, service`records
      ensures Valid() && service.records.Keys == old(service.records).Keys
      ensures forall other | other in service.records && other != id ::
        service.records[other] == old(service.records)[other]
      ensures accepted == P.Accepts(old(View()), id, phase, result.status)
      ensures View() == P.Record(old(View()), id, phase, result.status)
      ensures !accepted ==> service.records == old(service.records)
      ensures accepted ==>
                && service.records[id].result == result.result
                && service.records[id].error == CoerceOptionalString(result.error)
                && Overlaid(old(service.records)[id].metadata, result.metadata, service.records[id].metadata)
    {
      hide JobsOf, ApplyResultPatch, CoerceOptionalString, Overlaid, SaveOutcome, SavedRecords;
      RecordView(service.records, runners, id, phase, result, now);
      var saved := service.ApplyPhase(id, phase, result, now);
      accepted := saved.Ok?;
      if !accepted {
        raised := raised + [(id, result.status)];
      } else if result.status.Terminal() {
        writes := writes + [(id, result.status)];
      }
    }

    method Submit(id: string, spec: AgentSpec, now: int) returns (resolved: bool)
      requires Valid() && id !in service.records
      modifies this`runners, service`records
      ensures Valid() && resolved == ("agent" in service.executors)
      ensures View() == if resolved then P.Apply(old(View()), P.Submit(id)) else old(View())
      ensures resolved ==>
                && id in service.records && service.records[id].executorKind == "agent"
                && service.records[id].summary == "agent:" + spec.agentName
                && service.records[id].metadata ==
                   map["run_id" := spec.runId, "kind" := "background_agent", "agent" := spec.agentName]
    {
      assert id !in runners;
      resolved := service.BeginSubmit(id, "agent", "agent:" + spec.agentName, Some(true),
        map["run_id" := spec.runId, "kind" := "background_agent", "agent" := spec.agentName], now);
      if resolved {
        runners := runners[id := P.Runner(true, None, false, 0)];
      }
    }

    /** The submit coroutine resumes: create the task, register it, report RUNNING. */
    method SubmitReturns(id: string, spec: AgentSpec, now: int)
      requires Valid() && P.Enabled(View(), P.SubmitReturns(id))
      modifies this, service`records
      ensures Valid() && View() == P.Apply(old(View()), P.SubmitReturns(id))
      ensures old(service.records)[id].status.Pending? ==>
                Says(service.records[id], spec, "running") && Shows(service.records[id], spec, "running")
                && service.records[id].error.None?
      ensures runners[id].registered && !runners[id].submitting && runners[id].task == Some(P.Fresh(false))
    {
      hide JobMetadata, RunPayload, JobsOf, Overlaid, Says;
      ghost var before := service.records[id].metadata;
      PayloadShows(spec, "running");
      SetRunnerView(service.records, runners, id,
          runners[id].(submitting := false, task := Some(P.Fresh(false)), registered := true));
      runners := runners[id := runners[id].(submitting := false, task := Some(P.Fresh(false)), registered := true)];
      var accepted := Record(id, StartPhase,
        PhaseResult(Running, Some(true), JobMetadata(spec, "running"),
            Some(RunPayload(spec.runId, spec.turnId, "running")), None, false),
        now);
      if accepted {
        MetadataSays(before, spec, "running", service.records[id]);
      }
    }

    method SubmitFails(id: string, error: string, now: int)
      requires Valid() && P.Enabled(View(), P.SubmitFails(id))
      modifies this, service`records
      ensures Valid() && View() == P.Apply(old(View()), P.SubmitFails(id))
      ensures old(service.records)[id].status.Pending? ==>
                service.records[id].error == CoerceOptionalString(Some(error)) && service.records[id].result.None?
    {
      hide SubmitFailure, JobsOf;
      SetRunnerView(service.records, runners, id, runners[id].(submitting := false));
      runners := runners[id := runners[id].(submitting := false)];
      var accepted := Record(id, StartPhase, SubmitFailure(Some(true), error), now);
    }

    method Notify(id: string, status: P.AgentStatus, arm: P.Arm)
      requires Valid() && id in runners
      modifies this`runners, this`notifications
      ensures Valid() && View() == P.SetTask(P.Notify(old(View()), id, status), id, P.Emitting(arm))
    {
      notifications := notifications + [(id, status)];
      runners := runners[id := runners[id].(task := Some(P.Emitting(arm)))];
    }

    method FailureArm(id: string, spec: AgentSpec, error: string, now: int)
      requires Valid() && id in runners
      modifies this, service`records
      ensures Valid() && View() == P.FailureArm(old(View()), id)
      ensures old(service.records)[id].status == Running ==>
                Says(service.records[id], spec, "failed") && service.records[id].result.None?
                && service.records[id].error == CoerceOptionalString(Some(error))
    {
      hide JobMetadata, JobsOf, Overlaid, Says, CoerceOptionalString;
      ghost var before := service.records[id].metadata;
      var result := PhaseResult(Failed, None, JobMetadata(spec, "failed"), None, Some(error), false);
      var accepted := Record(id, RecoveryPhase, result, now);
      if accepted {
        MetadataSays(before, spec, "failed", service.records[id]);
        Notify(id, P.AgentFailed, P.ErrorArm);
      } else {
        SetRunnerView(service.records, runners, id, runners[id].(task := Some(P.Done(true))));
        runners := runners[id := runners[id].(task := Some(P.Done(true)))];
      }
    }

    /** `run` returned: record the mapped status, notify, emit. A refused record falls into the failure arm. */
    method RunReturns(id: string, spec: AgentSpec, result: P.AgentStatus, error: Option<string>, now: int)
      requires Valid() && P.Enabled(View(), P.RunReturns(id, result))
      modifies this, service`records
      ensures Valid() && View() == P.Apply(old(View()), P.RunReturns(id, result))
      ensures old(service.records)[id].status == Running ==>
                var text := match result
                  case AgentCompleted => "completed"
                  case AgentMaxTurns => "max_turns"
                  case AgentStopped => "stopped"
                  case AgentDenied => "denied"
                  case AgentFailed => "failed"
                  case AgentOther(other) => other;
                Says(service.records[id], spec, text) && Shows(service.records[id], spec, text)
                && service.records[id].error == CoerceOptionalString(error)
    {
      var text := StatusText(result);
      P.ApplyRunReturns(View(), id, result);
      P.ResultIsAccepted(View(), id, result);
      SetRunnerView(service.records, runners, id, runners[id]);
      hide JobMetadata, RunPayload, JobsOf, Overlaid, Says, CoerceOptionalString, P.Apply, P.Enabled, P.JobStatusFor,
           P.Accepts;
      ghost var before := service.records[id].metadata;
      PayloadShows(spec, text);
      var accepted := Record(id, RecoveryPhase,
        PhaseResult(P.JobStatusFor(result), None, JobMetadata(spec, text),
            Some(RunPayload(spec.runId, spec.turnId, text)), error, false),
        now);
      if accepted {
        MetadataSays(before, spec, text, service.records[id]);
        Notify(id, result, P.ResultArm);
      } else {
        FailureArm(id, spec, "invalid_transition", now);
      }
    }

    method RunRaises(id: string, spec: AgentSpec, error: string, now: int)
      requires Valid() && P.Enabled(View(), P.RunRaises(id))
      modifies this, service`records
      ensures Valid() && View() == P.Apply(old(View()), P.RunRaises(id))
      ensures old(service.records)[id].status == Running ==>
                Says(service.records[id], spec, "failed") && service.records[id].result.None?
                && service.records[id].error == CoerceOptionalString(Some(error))
    {
      FailureArm(id, spec, error, now);
    }

    /** The terminal run record was written after a cancellation: record STOPPED, notify, emit. */
    method StoppedWritten(id: string, spec: AgentSpec, now: int)
      requires Valid() && P.Enabled(View(), P.StoppedWritten(id))
      modifies this, service`records
      ensures Valid() && View() == P.Apply(old(View()), P.StoppedWritten(id))
      ensures old(service.records)[id].status == Running ==>
                Says(service.records[id], spec, "stopped") && Shows(service.records[id], spec, "stopped")
                && service.records[id].error.None?
    {
      hide JobMetadata, RunPayload, JobsOf, Overlaid, Says;
      ghost var before := service.records[id].metadata;
      PayloadShows(spec, "stopped");
      var accepted := Record(id, RecoveryPhase,
        PhaseResult(Stopped, None, JobMetadata(spec, "stopped"), Some(RunPayload(spec.runId, spec.turnId, "stopped")),
            None, false),
        now);
      if accepted {
        MetadataSays(before, spec, "stopped", service.records[id]);
        Notify(id, P.AgentStopped, P.CancelArm);
      } else {
        SetRunnerView(service.records, runners, id, runners[id].(task := Some(P.Done(true))));
        runners := runners[id := runners[id].(task := Some(P.Done(true)))];
      }
    }

    /** `write_terminal_record` raised in the cancellation arm, which no other arm catches. */
    method WriteRaises(id: string)
      requires Valid() && P.Enabled(View(), P.WriteRaises(id))
      modifies this`runners
      ensures Valid() && View() == P.Apply(old(View()), P.WriteRaises(id))
    {
      runners := runners[id := runners[id].(task := Some(P.Done(true)))];
    }

    /** Emitting raised: after a result the failure arm takes over, in the other arms the task ends in the error. */
    method EmitRaises(id: string, spec: AgentSpec, error: string, now: int)
      requires Valid() && P.Enabled(View(), P.EmitRaises(id))
      modifies this, service`records
      ensures Valid() && View() == P.Apply(old(View()), P.EmitRaises(id))
    {
      if runners[id].task == Some(P.Emitting(P.ResultArm)) {
        FailureArm(id, spec, error, now);
      } else {
        runners := runners[id := runners[id].(task := Some(P.Done(true)))];
      }
    }

    function StopResult(record: JobRecord, error: Option<string>): (r: PhaseResult)
      ensures r.status == Stopped
    {
      PhaseResult(Stopped, None, record.metadata,
                  Some(map["agent_status" := "stopped", "run_id" := Lookup(record.metadata, "run_id").GetOr(""),
                           "turn_id" := Lookup(record.metadata, "turn_id").GetOr("")]),
                  error, true)
    }

    /** `stop` up to its first await: refuse a terminal job, finish at once, or cancel the task and wait for it. The
        job service's refusal of a job that is not stoppable never applies to an agent job. */
    method Stop(id: string, now: int) returns (refused: Option<JobStatus>, waiting: bool)
      requires Valid() && id in runners
      modifies this, service`records
      ensures Valid()
      ensures refused == if old(View()).jobs[id].status.Terminal() then Some(old(View()).jobs[id].status) else None
      ensures View() == P.Apply(old(View()), P.Stop(id))
      ensures waiting == (refused.None? && old(runners)[id].registered && old(runners)[id].Alive())
    {
      hide StopResult, P.Apply, JobsOf;
      var record := service.records[id];
      SetRunnerView(service.records, runners, id, runners[id]);
      P.ApplyStop(View(), id);
      if record.status != Pending && record.status != Running {
        return Some(record.status), false;
      }
      assert record.stoppable == Some(true);
      refused := None;
      var runner := runners[id];
      waiting := runner.registered && runner.task.Some? && !runner.task.value.Done?;
      if !runner.registered {
        var accepted := Record(id, StopPhase,
            StopResult(record, Some("Background agent handle was unavailable during stop")), now);
      } else if waiting {
        SetRunnerView(service.records, runners, id,
                      runner.(task := Some(P.WithCancel(runner.task.value)), stoppers := runner.stoppers + 1));
        runners := runners[id :=
            runner.(task := Some(P.WithCancel(runner.task.value)), stoppers := runner.stoppers + 1)];
      } else {
        var accepted := Record(id, StopPhase, StopResult(record, None), now);
      }
    }

    /** A stop whose task has ended resumes; a task that ended in an error passes the error on instead. */
    method StopResumes(id: string, listed: JobRecord, now: int) returns (finished: bool)
      requires Valid() && P.Enabled(View(), P.StopResumes(id))
      modifies this, service`records
      ensures Valid() && View() == P.Apply(old(View()), P.StopResumes(id))
    {
      var runner := runners[id];
      runners := runners[id := runner.(stoppers := runner.stoppers - 1)];
      assert View() == P.SetRunner(old(View()), id, runners[id]);
      if runner.task.value.failed {
        return false;
      }
      finished := Record(id, StopPhase, StopResult(listed, None), now);
    }

    /** `recover` and the recovery record, for a record taken from a listing. */
    method RecoverListed(id: string, listed: JobRecord, now: int) returns (accepted: bool)
      requires Valid() && id in runners
      modifies this`writes, this`raised, service`records
      ensures Valid() && forall other | other in service.records && other != id ::
                other in old(service.records) && service.records[other] == old(service.records)[other]
      ensures View() == P.RecoverJob(old(View()), id)
      ensures accepted == (View().raised == old(View()).raised)
      ensures accepted && !(runners[id].registered && runners[id].Alive()) ==>
                var record := service.records[id];
                && record.result.None?
                && record.error == CoerceOptionalString(Some("Background agent job was interrupted before recovery"))
                && Overlaid(old(service.records)[id].metadata,
                            listed.metadata["agent_status" := "stopped"]["recovery" := "lost_handle"], record.metadata)
    {
      hide Overlaid, CoerceOptionalString;
      var runner := runners[id];
      var result := if runner.registered && runner.Alive()
        then PhaseResult(Running, Some(true), listed.metadata, None, None, false)
        else PhaseResult(Stopped, Some(if listed.stoppable.Some? then listed.stoppable.value else true),
                         listed.metadata["agent_status" := "stopped"]["recovery" := "lost_handle"], None,
                         Some("Background agent job was interrupted before recovery"), false);
      accepted := Record(id, RecoveryPhase, result, now);
    }

    /** One recovery pass over a listing of agent jobs, without a suspension in it. */
    method RecoverInflight(listing: seq<string>, now: int)
      requires Valid() && forall k | 0 <= k < |listing| :: listing[k] in runners
      requires forall j, k | 0 <= j < k < |listing| :: listing[j] != listing[k]
      modifies this`writes, this`raised, service`records
      ensures Valid() && View() == P.Execute(old(View()), RecoverAll(listing))
    {
      hide P.Apply, P.RecoverJob, JobsOf, Stoppable, Overlaid, CoerceOptionalString;
      var snapshot := service.records;
      ghost var target := P.Execute(View(), RecoverAll(listing));
      var k := 0;
      while k < |listing|
        invariant 0 <= k <= |listing| && Valid()
        invariant forall m | k <= m < |listing| :: service.records[listing[m]] == snapshot[listing[m]]
        invariant P.Execute(View(), RecoverAll(listing[k..])) == target
      {
        var id := listing[k];
        SetRunnerView(service.records, runners, id, runners[id]);
        RecoverNext(View(), listing[k..]);
        assert listing[k..][1..] == listing[k + 1..];
        if snapshot[id].status == Running {
          var saved := RecoverListed(id, snapshot[id], now);
        }
        k := k + 1;
      }
    }

    /** `wait_for_background` drops the finished task from the table. */
    method ForgetFinished(id: string)
      requires Valid() && P.Enabled(View(), P.Forget(id))
      modifies this`runners
      ensures Valid() && View() == P.Apply(old(View()), P.Forget(id))
      ensures runners == old(runners)[id := old(runners)[id].(registered := false)]
    {
      runners := runners[id := runners[id].(registered := false)];
    }
  }

  function RecoverAll(listing: seq<string>): seq<P.Step> {
    if listing == [] then [] else [P.Recover(listing[0])] + RecoverAll(listing[1..])
  }

  lemma RecordView(records: map<string, JobRecord>, runners: map<string, P.Runner>, id: string, phase: Phase,
                   result: PhaseResult, now: int)
    requires runners.Keys <= records.Keys && id in runners && records[id].jobId == id
    ensures var saved := SaveOutcome(records, id, phase, result, now);
            var later := SavedRecords(records, saved);
            && runners.Keys <= later.Keys
            && id in JobsOf(records, runners) && JobsOf(records, runners)[id].status == records[id].status
            && (saved.Ok? <==> ValidateTransition(records[id].status, result.status, phase).Some?)
            && (saved.Ok? ==> saved.record.jobId == id)
            && (saved.Ok? && KeepsStoppable(phase, result) ==> Stoppable(saved.record))
            && (saved.Ok? ==>
                  JobsOf(later, runners) ==
                      JobsOf(records, runners)[id := P.Job(result.status, JobsOf(records, runners)[id].runner)])
  {
  }

  lemma SetRunnerView(records: map<string, JobRecord>, runners: map<string, P.Runner>, id: string, r: P.Runner)
    requires runners.Keys <= records.Keys && id in runners
    ensures id in JobsOf(records, runners) && JobsOf(records, runners)[id] == P.Job(records[id].status, runners[id])
    ensures JobsOf(records, runners[id := r]) == JobsOf(records, runners)[id := P.Job(records[id].status, r)]
  {
  }

  lemma RecoverNext(s: P.State, listing: seq<string>)
    requires listing != [] && listing[0] in s.jobs
    ensures P.Execute(s, RecoverAll(listing)) ==
            P.Execute(
              if s.jobs[listing[0]].status.Running? then P.RecoverJob(s, listing[0]) else s,
              RecoverAll(listing[1..]))
  {
    hide P.RecoverJob, P.Apply;
    P.ApplyRecover(s, listing[0]);
    assert RecoverAll(listing)[0] == P.Recover(listing[0]) && RecoverAll(listing)[1..] == RecoverAll(listing[1..]);
  }

  /** A whole recovery pass is a disciplined run, so no pass over agent jobs is ever refused. */
  lemma {:induction false} RecoveryPassSafe(s: P.State, listing: seq<string>)
    requires P.Invariant(s)
    ensures P.Invariant(P.Execute(s, RecoverAll(listing)))
    decreases |listing|
  {
    hide P.Invariant;
    if listing == [] {
    } else {
      P.StepKeepsInvariant(s, P.Recover(listing[0]));
      RecoveryPassSafe(P.Apply(s, P.Recover(listing[0])), listing[1..]);
      assert RecoverAll(listing)[1..] == RecoverAll(listing[1..]);
    }
  }
}
