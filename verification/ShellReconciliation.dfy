/** Reconciling shell jobs after a restart: builtin_overrides.py against the job service. */
module ShellReconciliation {
  import opened Text
  import opened JobRecords
  import opened JobServices

  datatype Snapshot = Snapshot(status: string, recoveryState: string)

  /** What the outside world says about one shell job: is its workspace known, is there a sidecar, does the broker
      describe it, is its process alive. */
  datatype Answer = Answer(workspaceKnown: bool, sidecar: Option<Snapshot>, broker: Option<Snapshot>, pidAlive: bool) {
    predicate BrokerReportsRunning() {
      workspaceKnown && sidecar.Some? && broker.Some? && broker.value.status == "running"
    }
  }

  type Oracle = string -> Answer

  function PayloadStatusToJobStatus(status: string): (r: JobStatus)
    ensures r.Terminal()
  {
    if status == "completed" then Completed
    else if status == "stopped" || status == "interrupted" then Stopped
    else Failed
  }

  function SnapshotAfterBrokerLoss(snapshot: Snapshot, pidAlive: bool): (r: Snapshot)
    ensures r.status != "running"
  {
    if snapshot.status != "running" then snapshot
    else if pidAlive then Snapshot("orphaned", "orphaned")
    else Snapshot("recovery_unavailable", "recovery_unavailable")
  }

  /** The snapshot the pass goes by, or None where it lacks the workspace or the sidecar. */
  function EffectiveSnapshot(answer: Answer): Option<Snapshot> {
    if !answer.workspaceKnown || answer.sidecar.None? then None
    else match answer.broker
      case Some(described) =>
        Some(if described.status == "running" then described.(recoveryState := "reattached") else described)
      case None => Some(SnapshotAfterBrokerLoss(answer.sidecar.value, answer.pidAlive))
  }

  predicate Reattaches(answer: Answer) {
    var snapshot := EffectiveSnapshot(answer);
    snapshot.Some? && snapshot.value.status == "running" && snapshot.value.recoveryState in ["attached", "reattached"]
  }

  function FinalPayloadStatus(answer: Answer): string {
    var snapshot := EffectiveSnapshot(answer);
    if snapshot.None? || snapshot.value.status == "" then "recovery_unavailable" else snapshot.value.status
  }

  function ErrorText(record: JobRecord, answer: Answer): string {
    if !answer.workspaceKnown then "Shell recovery metadata is missing the workspace root."
    else if answer.sidecar.None? then "Shell sidecar metadata is unavailable after runtime restart."
    else if Lookup(record.metadata, "kind") == Some("shell_session")
    then "Interactive shell session was reconciled explicitly after runtime restart."
    else "Background shell job was reconciled explicitly after runtime restart."
  }

  function ShellUpdate(record: JobRecord, status: JobStatus, shellStatus: string, error: Option<string>): CompatUpdate {
    CompatUpdate(Some(status), Some(Some(map["status" := shellStatus])), Some(error),
                 record.metadata["session_status" := shellStatus], None)
  }

  function Verdict(record: JobRecord, answer: Answer): CompatUpdate {
    if Reattaches(answer) then ShellUpdate(record, Running, "running", None)
    else
      var status := PayloadStatusToJobStatus(FinalPayloadStatus(answer));
      var error := if status.Failed? then Some(ErrorText(record, answer)) else None;
      ShellUpdate(record, status, FinalPayloadStatus(answer), error)
  }

  predicate IsShellJob(record: JobRecord) {
    Lookup(record.metadata, "kind") in [Some("background_shell"), Some("shell_session")]
  }

  predicate InScope(record: JobRecord, watched: bool) {
    IsShellJob(record) && !record.status.Terminal() && !watched
  }

  function Reconciled(record: JobRecord, watched: bool, answer: Answer, hasHandler: bool, now: int): JobRecord {
    if !InScope(record, watched) then record
    else
      var updated := ApplyCompat(record, Verdict(record, answer), Reattaches(answer) || hasHandler, now);
      if updated.Some? then updated.value else record
  }

  function ReconciledAll(records: map<string, JobRecord>, watches: set<string>, handlers: set<string>, oracle: Oracle,
      now: int)
    : map<string, JobRecord>
  {
    map id | id in records :: Reconciled(records[id], id in watches, oracle(id), id in handlers, now)
  }

  /** The jobs the pass reattaches. */
  function Reattached(records: map<string, JobRecord>, watches: set<string>, oracle: Oracle): set<string> {
    set id | id in records && InScope(records[id], id in watches) && Reattaches(oracle(id))
  }

  /** Watches are created only while an event loop is running. */
  function NewWatches(records: map<string, JobRecord>, watches: set<string>, oracle: Oracle,
      loopRunning: bool): set<string> {
    if loopRunning then watches + Reattached(records, watches, oracle) else watches
  }

  /** No verdict is ever refused by the transition table, and each updates the record it was made for. */
  lemma VerdictIsLegal(record: JobRecord, answer: Answer, hasHandler: bool, now: int)
    requires InScope(record, false)
    ensures var updated := ApplyCompat(record, Verdict(record, answer), hasHandler, now);
            updated.Some? && updated.value.jobId == record.jobId
  {
    hide ErrorText, CompatExecutorKind, IsShellJob, EffectiveSnapshot, FinalPayloadStatus, Reattaches,
        PayloadStatusToJobStatus;
  }

  lemma HandlerDoesNotMatter(record: JobRecord, update: CompatUpdate, hasHandler: bool, now: int)
    ensures ApplyCompat(record.(stoppable := Some(true)), update, hasHandler, now) ==
        ApplyCompat(record, update, hasHandler, now)
  {
  }

  /** One pass over a listing of the store. `watches` are the jobs with a live watch; a watch can only be created
      while an event loop is running. */
  method ReconcileBackgroundShellJobs(service: JobService, listing: seq<string>, watches: set<string>, oracle: Oracle,
                                      loopRunning: bool, now: int)
    returns (watching: set<string>)
    requires forall id | id in service.records :: service.records[id].jobId == id
    requires forall id :: id in listing <==> id in service.records
    requires forall j, k | 0 <= j < k < |listing| :: listing[j] != listing[k]
    modifies service`records, service`handlers
    ensures service.records == ReconciledAll(old(service.records), watches, old(service.handlers), oracle, now)
    ensures watching == NewWatches(old(service.records), watches, oracle, loopRunning)
    ensures service.handlers == old(service.handlers) + Reattached(old(service.records), watches, oracle)
  {
    hide Reconciled, InScope, Reattaches, ReconciledAll, NewWatches, ReconciledUpTo, Reattached;
    watching := watches;
    ghost var before, handlers := service.records, service.handlers;
    NothingReconciled(before, watches, handlers, oracle, now);
    for k := 0 to |listing|
      invariant service.records == ReconciledUpTo(listing[..k], before, watches, handlers, oracle, now)
      invariant forall id :: id in service.handlers <==>
        (id in handlers || (id in listing[..k] && InScope(before[id], id in watches) && Reattaches(oracle(id))))
      invariant forall id | id in service.records :: service.records[id].jobId == id
      invariant forall id :: id in watching <==>
        (id in watches || (loopRunning && id in listing[..k] && InScope(before[id], id in watches)
            && Reattaches(oracle(id))))
    {
      var id := listing[k];
      assert listing[..k + 1] == listing[..k] + [id] && id !in listing[..k];
      OneMoreReconciled(listing[..k], id, before, watches, handlers, oracle, now);
      var reattached := ReconcileOne(service, id, id in watches, oracle(id), now);
      if reattached && loopRunning {
        watching := watching + {id};
      }
    }
    assert listing[..|listing|] == listing;
    EverythingReconciled(listing, before, watches, handlers, oracle, now);
    ReattachedAre(before, watches, oracle);
    WatchesAreNew(before, watches, watching, oracle, loopRunning);
  }

  lemma ReattachedAre(before: map<string, JobRecord>, watches: set<string>, oracle: Oracle)
    ensures forall id :: id in Reattached(before, watches, oracle) <==>
      (id in before && InScope(before[id], id in watches) && Reattaches(oracle(id)))
  {
    hide InScope, Reattaches;
  }

  /** The pass reattaches exactly the open, unwatched shell jobs whose broker reports them running. */
  lemma ReattachedMeaning(records: map<string, JobRecord>, watches: set<string>, oracle: Oracle, id: string)
    ensures id in Reattached(records, watches, oracle) <==>
            && id in records && id !in watches && !records[id].status.Terminal()
            && (Lookup(records[id].metadata, "kind") == Some("background_shell")
                || Lookup(records[id].metadata, "kind") == Some("shell_session"))
            && oracle(id).BrokerReportsRunning()
  {
    hide Lookup, Reattaches, Answer.BrokerReportsRunning;
    ReattachesMeaning(oracle(id));
  }

  /** The store when the pass has dealt with the jobs in `done`. */
  ghost function ReconciledUpTo(done: seq<string>, records: map<string, JobRecord>, watches: set<string>,
      handlers: set<string>, oracle: Oracle, now: int): map<string, JobRecord>
  {
    map id | id in records ::
      if id in done then Reconciled(records[id], id in watches, oracle(id), id in handlers, now) else records[id]
  }

  lemma NothingReconciled(records: map<string, JobRecord>, watches: set<string>, handlers: set<string>, oracle: Oracle,
      now: int)
    ensures ReconciledUpTo([], records, watches, handlers, oracle, now) == records
  {
  }

  lemma OneMoreReconciled(done: seq<string>, id: string, records: map<string, JobRecord>, watches: set<string>,
                          handlers: set<string>, oracle: Oracle, now: int)
    requires id in records && id !in done
    ensures var before := ReconciledUpTo(done, records, watches, handlers, oracle, now);
            id in before && before[id] == records[id]
            && ReconciledUpTo(done + [id], records, watches, handlers, oracle, now) ==
               before[id := Reconciled(records[id], id in watches, oracle(id), id in handlers, now)]
  {
    hide Reconciled;
  }

  lemma EverythingReconciled(done: seq<string>, records: map<string, JobRecord>, watches: set<string>,
      handlers: set<string>, oracle: Oracle, now: int)
    requires forall id | id in records :: id in done
    ensures ReconciledUpTo(done, records, watches, handlers, oracle, now) ==
            ReconciledAll(records, watches, handlers, oracle, now)
  {
    hide Reconciled;
  }

  lemma WatchesAreNew(before: map<string, JobRecord>, watches: set<string>, watching: set<string>, oracle: Oracle,
      loopRunning: bool)
    requires forall id :: id in watching <==>
      (id in watches || (loopRunning && id in before && InScope(before[id], id in watches) && Reattaches(oracle(id))))
    ensures watching == NewWatches(before, watches, oracle, loopRunning)
  {
    hide InScope, Reattaches;
  }

  method ReconcileOne(service: JobService, id: string, watched: bool, answer: Answer, now: int)
      returns (reattached: bool)
    requires id in service.records && service.records[id].jobId == id
    modifies service`records, service`handlers
    ensures reattached == (InScope(old(service.records)[id], watched) && Reattaches(answer))
    ensures id in service.records && service.records[id].jobId == id
    ensures service.records == old(service.records)[id := service.records[id]]
    ensures service.handlers == if reattached then old(service.handlers) + {id} else old(service.handlers)
    ensures service.records[id] ==
        Reconciled(old(service.records)[id], watched, answer, id in old(service.handlers), now)
  {
    hide ApplyCompat, ShellUpdate, ErrorText;
    var record := service.records[id];
    var kind := Lookup(record.metadata, "kind");
    if kind != Some("background_shell") && kind != Some("shell_session") {
      return false;
    }
    if record.status.Terminal() || watched {
      return false;
    }
    var update;
    reattached, update := JudgeSnapshot(record, answer);
    if reattached {
      service.RegisterCompatStopHandler(id);
    }
    VerdictIsLegal(record, answer, reattached || id in service.handlers, now);
    HandlerDoesNotMatter(record, update, reattached || id in service.handlers, now);
    var saved := service.UpdateCompat(id, update, now);
  }

  /** The decision between refreshing the job and marking it, in the source's order. */
  method JudgeSnapshot(record: JobRecord, answer: Answer) returns (reattached: bool, update: CompatUpdate)
    ensures reattached == Reattaches(answer) && update == Verdict(record, answer)
  {
    hide ErrorText, ShellUpdate;
    if !answer.workspaceKnown || answer.sidecar.None? {
      return false, ShellUpdate(record, Failed, "recovery_unavailable", Some(ErrorText(record, answer)));
    }
    var snapshot := answer.sidecar.value;
    if answer.broker.Some? {
      snapshot := answer.broker.value;
      if snapshot.status == "running" {
        snapshot := snapshot.(recoveryState := "reattached");
      }
    } else {
      snapshot := SnapshotAfterBrokerLoss(snapshot, answer.pidAlive);
    }
    if snapshot.status == "running"
        && (snapshot.recoveryState == "attached" || snapshot.recoveryState == "reattached") {
      return true, ShellUpdate(record, Running, "running", None);
    }
    var payloadStatus := if snapshot.status == "" then "recovery_unavailable" else snapshot.status;
    var status := PayloadStatusToJobStatus(payloadStatus);
    var error := if status == Failed then Some(ErrorText(record, answer)) else None;
    return false, ShellUpdate(record, status, payloadStatus, error);
  }

  // ---- what a pass guarantees ----------------------------------------------------------------------

  lemma ReattachesMeaning(answer: Answer)
    ensures Reattaches(answer) <==> answer.BrokerReportsRunning()
    ensures !Reattaches(answer) ==> PayloadStatusToJobStatus(FinalPayloadStatus(answer)).Terminal()
  {
  }

  lemma ReconciledSettles(record: JobRecord, watched: bool, answer: Answer, hasHandler: bool, now: int)
    requires InScope(record, watched)
    ensures Reconciled(record, watched, answer, hasHandler, now).status ==
            if Reattaches(answer) then JobStatus.Running else PayloadStatusToJobStatus(FinalPayloadStatus(answer))
  {
    hide ErrorText, CompatExecutorKind, CoerceOptionalString, IsShellJob, EffectiveSnapshot, FinalPayloadStatus,
         Reattaches, PayloadStatusToJobStatus;
  }

  /** The shell status a pass settles on: what the broker describes, else what the sidecar says, where a running shell
      without a broker is orphaned or lost. */
  lemma SettledText(answer: Answer)
    requires !answer.BrokerReportsRunning()
    ensures var text := FinalPayloadStatus(answer);
            && (!answer.workspaceKnown || answer.sidecar.None? ==> text == "recovery_unavailable")
            && (answer.workspaceKnown && answer.sidecar.Some? ==>
                  var said := if answer.broker.Some? then answer.broker.value.status else answer.sidecar.value.status;
                  && (said == "" ==> text == "recovery_unavailable")
                  && (said != "" && said != "running" ==> text == said)
                  && (said == "running" ==> text == if answer.pidAlive then "orphaned" else "recovery_unavailable"))
  {
  }

  /** Why a job failed: its workspace is unknown, its sidecar is gone, or the restart itself, by kind of shell. */
  lemma ErrorMeaning(record: JobRecord, answer: Answer)
    ensures !answer.workspaceKnown ==>
              ErrorText(record, answer) == "Shell recovery metadata is missing the workspace root."
    ensures answer.workspaceKnown && answer.sidecar.None? ==>
              ErrorText(record, answer) == "Shell sidecar metadata is unavailable after runtime restart."
    ensures answer.workspaceKnown && answer.sidecar.Some? ==>
              var kind, text := Lookup(record.metadata, "kind"), ErrorText(record, answer);
              && (kind == Some("shell_session") ==>
                    text == "Interactive shell session was reconciled explicitly after runtime restart.")
              && (kind == Some("background_shell") ==>
                    text == "Background shell job was reconciled explicitly after runtime restart.")
  {
    hide Lookup;
  }

  /** What a pass makes of an open, unwatched shell job: RUNNING if the broker reports it running; otherwise COMPLETED,
      STOPPED or FAILED by its shell status, which is stored with it, and an error only if it failed. */
  lemma ReconciledMeaning(record: JobRecord, watched: bool, answer: Answer, hasHandler: bool, now: int)
    requires Lookup(record.metadata, "kind") == Some("background_shell")
             || Lookup(record.metadata, "kind") == Some("shell_session")
    requires !record.status.Terminal() && !watched
    ensures var after := Reconciled(record, watched, answer, hasHandler, now);
            var text := if answer.BrokerReportsRunning() then "running" else FinalPayloadStatus(answer);
            && after.jobId == record.jobId && after.result == Some(map["status" := text])
            && after.metadata == record.metadata["session_status" := text]
            && (after.status.Running? <==> answer.BrokerReportsRunning())
            && (after.status.Completed? <==> text == "completed")
            && (after.status.Stopped? <==> text == "stopped" || text == "interrupted")
            && (!after.status.Failed? ==> after.error.None?)
            && (after.status.Failed? ==> after.error == CoerceOptionalString(Some(ErrorText(record, answer))))
  {
    ReattachesMeaning(answer);
    if !answer.BrokerReportsRunning() {
      SettledText(answer);
    }
    assert InScope(record, watched);
    var text := if answer.BrokerReportsRunning() then "running" else FinalPayloadStatus(answer);
    var status := if answer.BrokerReportsRunning() then JobStatus.Running else PayloadStatusToJobStatus(text);
    var error := if status.Failed? then Some(ErrorText(record, answer)) else None;
    assert Verdict(record, answer) == ShellUpdate(record, status, text, error);
    NoError();
    ShellUpdateStores(record, status, text, error, Reattaches(answer) || hasHandler, now);
    hide ErrorText, Lookup, CoerceOptionalString, EffectiveSnapshot, FinalPayloadStatus, Reattaches, ApplyCompat,
         ShellUpdate, Verdict, InScope, Answer.BrokerReportsRunning;
  }

  lemma ShellUpdateStores(record: JobRecord, status: JobStatus, shellStatus: string, error: Option<string>,
                          hasHandler: bool, now: int)
    requires !record.status.Terminal() && !status.Pending?
    ensures var after := ApplyCompat(record, ShellUpdate(record, status, shellStatus, error), hasHandler, now);
            && after.Some? && after.value.status == status && after.value.jobId == record.jobId
            && after.value.result == Some(map["status" := shellStatus])
            && after.value.metadata == record.metadata["session_status" := shellStatus]
            && after.value.error == CoerceOptionalString(error)
  {
    hide CompatExecutorKind, CoerceOptionalString;
    assert record.metadata + record.metadata["session_status" := shellStatus] ==
      record.metadata["session_status" := shellStatus];
  }

  lemma NoError()
    ensures CoerceOptionalString(None) == None
  {
  }

  /** After one pass a shell job is still open exactly when it was open and either has a live watch or the broker
      reports it running; the pass touches no other job. */
  lemma PassSettlesShellJobs(records: map<string, JobRecord>, watches: set<string>, handlers: set<string>,
      oracle: Oracle, now: int, id: string)
    requires id in records
    ensures var record, after := records[id], ReconciledAll(records, watches, handlers, oracle, now)[id];
            && (!InScope(record, id in watches) ==> after == record)
            && (IsShellJob(record) ==>
                  (!after.status.Terminal() <==>
                     !record.status.Terminal() && (id in watches || oracle(id).BrokerReportsRunning())))
            && (InScope(record, id in watches) && !after.status.Terminal() ==> after.status.Running?)
  {
    hide ApplyCompat, Verdict, Reattaches, FinalPayloadStatus, IsShellJob;
    ReattachesMeaning(oracle(id));
    if InScope(records[id], id in watches) {
      ReconciledSettles(records[id], id in watches, oracle(id), id in handlers, now);
    }
  }

  lemma ReconciledStaysShell(record: JobRecord, watched: bool, answer: Answer, hasHandler: bool, now: int)
    ensures IsShellJob(Reconciled(record, watched, answer, hasHandler, now)) == IsShellJob(record)
  {
  }

  /** With the same answers a second pass changes no status. */
  lemma SecondPassChangesNoStatus(records: map<string, JobRecord>, watches: set<string>, handlers: set<string>,
      oracle: Oracle, loopRunning: bool, laterHandlers: set<string>, now: int, later: int, id: string)
    requires id in records
    ensures var first := ReconciledAll(records, watches, handlers, oracle, now);
            var watching := NewWatches(records, watches, oracle, loopRunning);
            ReconciledAll(first, watching, laterHandlers, oracle, later)[id].status == first[id].status
  {
    var first := ReconciledAll(records, watches, handlers, oracle, now);
    var watching := NewWatches(records, watches, oracle, loopRunning);
    ReconciledStaysShell(records[id], id in watches, oracle(id), id in handlers, now);
    hide Reattaches, IsShellJob, Reconciled;
    PassSettlesShellJobs(records, watches, handlers, oracle, now, id);
    PassSettlesShellJobs(first, watching, laterHandlers, oracle, later, id);
  }
}
