/**
 * Background agents: agent_dispatcher.py as a state machine. One step is one stretch of code between two
 * awaits. The machine also takes the steps the design rules out, so that what they break can be said exactly.
 */
module AgentProtocol {
  import opened Text
  import opened JobRecords

  datatype AgentStatus =
    | AgentCompleted
    | AgentMaxTurns
    | AgentStopped
    | AgentDenied
    | AgentFailed
    | AgentOther(text: string)

  function JobStatusFor(status: AgentStatus): JobStatus {
    match status
    case AgentCompleted => Completed
    case AgentMaxTurns => Stopped
    case AgentStopped => Stopped
    case _ => Failed
  }

  /** Which arm of the runner is emitting its notification. */
  datatype Arm = ResultArm | CancelArm | ErrorArm

  /** Where a runner task is suspended; `cancel` says that a cancellation is on its way to that point. */
  datatype Task =
    | Fresh(cancel: bool)
    | InRun(cancel: bool)
    | WritingStopped(cancel: bool)
    | Emitting(arm: Arm)
    | Done(failed: bool)

  /** The coroutines that belong to one job: its submit, its runner task, and stops that await the task.
      `registered` says that the task is in `_background_tasks`. */
  datatype Runner = Runner(submitting: bool, task: Option<Task>, registered: bool, stoppers: nat) {
    predicate Alive() {
      task.Some? && !task.value.Done?
    }
  }

  datatype Job = Job(status: JobStatus, runner: Runner)

  /** `writes` lists every terminal status that was recorded, `raised` every rejected transition. */
  datatype State = State(
    jobs: map<string, Job>,
    notes: seq<(string, AgentStatus)>,
    writes: seq<(string, JobStatus)>,
    raised: seq<(string, JobStatus)>)

  const INITIAL := State(map[], [], [], [])

  datatype Step =
    | Submit(id: string)
    | SubmitReturns(id: string)
    | SubmitFails(id: string)
    | RunBegins(id: string)
    | RunReturns(id: string, result: AgentStatus)
    | RunRaises(id: string)
    | CancelDelivered(id: string)
    | StoppedWritten(id: string)
    | WriteRaises(id: string)
    | Emitted(id: string)
    | EmitRaises(id: string)
    | Stop(id: string)
    | StopResumes(id: string)
    | Recover(id: string)
    | StaleRecover(id: string)
    | Forget(id: string)
    | Restart

  predicate Enabled(s: State, step: Step) {
    match step
    case Submit(id) => id !in s.jobs
    case SubmitReturns(id) => id in s.jobs && s.jobs[id].runner.submitting
    case SubmitFails(id) => id in s.jobs && s.jobs[id].runner.submitting
    case RunBegins(id) => id in s.jobs && s.jobs[id].runner.task == Some(Fresh(false))
    case RunReturns(id, _) => id in s.jobs && Running(s.jobs[id].runner)
    case RunRaises(id) => id in s.jobs && Running(s.jobs[id].runner)
    case CancelDelivered(id) => id in s.jobs && CancelPending(s.jobs[id].runner)
    case StoppedWritten(id) => id in s.jobs && Writing(s.jobs[id].runner)
    case WriteRaises(id) => id in s.jobs && Writing(s.jobs[id].runner)
    case Emitted(id) => id in s.jobs && s.jobs[id].runner.task.Some? && s.jobs[id].runner.task.value.Emitting?
    case EmitRaises(id) => id in s.jobs && s.jobs[id].runner.task.Some? && s.jobs[id].runner.task.value.Emitting?
    case Stop(id) => id in s.jobs && !s.jobs[id].status.Terminal()
    case StopResumes(id) =>
      id in s.jobs && s.jobs[id].runner.stoppers > 0 && s.jobs[id].runner.task.Some?
          && s.jobs[id].runner.task.value.Done?
    case Recover(id) => id in s.jobs && s.jobs[id].status == JobStatus.Running
    case StaleRecover(id) => id in s.jobs && s.jobs[id].status != Pending
    case Forget(id) =>
      id in s.jobs && s.jobs[id].runner.registered && s.jobs[id].runner.task.Some? && s.jobs[id].runner.task.value.Done?
    case Restart => true
  }

  /** The runner is inside `run`; a run that never awaits returns in the task's first stretch. */
  predicate Running(r: Runner) {
    r.task == Some(Fresh(false)) || (r.task.Some? && r.task.value.InRun?)
  }

  /** The runner is inside `write_terminal_record`, in its cancellation arm. */
  predicate Writing(r: Runner) {
    r.task.Some? && r.task.value.WritingStopped?
  }

  predicate CancelPending(r: Runner) {
    r.task == Some(Fresh(true)) || r.task == Some(InRun(true)) || r.task == Some(WritingStopped(true))
  }

  function SetRunner(s: State, id: string, r: Runner): State
    requires id in s.jobs
  {
    s.(jobs := s.jobs[id := s.jobs[id].(runner := r)])
  }

  predicate Accepts(s: State, id: string, phase: Phase, status: JobStatus)
    requires id in s.jobs
  {
    ValidateTransition(s.jobs[id].status, status, phase).Some?
  }

  /** One `apply_*_result`: the status is recorded, or the rejection is. */
  function Record(s: State, id: string, phase: Phase, status: JobStatus): State
    requires id in s.jobs
  {
    if Accepts(s, id, phase, status) then
      s.(jobs := s.jobs[id := s.jobs[id].(status := status)],
         writes := if status.Terminal() then s.writes + [(id, status)] else s.writes)
    else s.(raised := s.raised + [(id, status)])
  }

  function Notify(s: State, id: string, status: AgentStatus): State {
    s.(notes := s.notes + [(id, status)])
  }

  function SetTask(s: State, id: string, task: Task): State
    requires id in s.jobs
  {
    SetRunner(s, id, s.jobs[id].runner.(task := Some(task)))
  }

  /** The `except Exception` arm: record FAILED, notify, emit; a rejected record ends the task at once. */
  function FailureArm(s: State, id: string): State
    requires id in s.jobs
  {
    var recorded := Record(s, id, RecoveryPhase, Failed);
    if Accepts(s, id, RecoveryPhase, Failed) then SetTask(Notify(recorded, id, AgentFailed), id, Emitting(ErrorArm))
    else SetTask(recorded, id, Done(true))
  }

  /** The rest of the try arm after `run` returned. */
  function SuccessArm(s: State, id: string, result: AgentStatus): State
    requires id in s.jobs
  {
    var status := JobStatusFor(result);
    var recorded := Record(s, id, RecoveryPhase, status);
    if Accepts(s, id, RecoveryPhase, status) then SetTask(Notify(recorded, id, result), id, Emitting(ResultArm))
    else FailureArm(recorded, id)
  }

  function CancelledArm(s: State, id: string): State
    requires id in s.jobs
  {
    var recorded := Record(s, id, RecoveryPhase, Stopped);
    if Accepts(s, id, RecoveryPhase, Stopped) then SetTask(Notify(recorded, id, AgentStopped), id, Emitting(CancelArm))
    else SetTask(recorded, id, Done(true))
  }

  function WithCancel(task: Task): Task {
    match task
    case Fresh(_) => Fresh(true)
    case InRun(_) => InRun(true)
    case WritingStopped(_) => WritingStopped(true)
    case _ => task
  }

  function AfterCancel(task: Task): Task {
    match task
    case Fresh(_) => Done(false)
    case InRun(_) => WritingStopped(false)
    case _ => Done(false)
  }

  /** The executor's `recover`, then `apply_recovery_result`. */
  function RecoverJob(s: State, id: string): State
    requires id in s.jobs
  {
    var r := s.jobs[id].runner;
    Record(s, id, RecoveryPhase, if r.registered && r.Alive() then JobStatus.Running else Stopped)
  }

  /** `stop` of a job that is not terminal, up to its first await. */
  function StopJob(s: State, id: string): State
    requires id in s.jobs
  {
    var r := s.jobs[id].runner;
    if r.registered && r.Alive()
    then SetRunner(s, id, r.(task := Some(WithCancel(r.task.value)), stoppers := r.stoppers + 1))
    else Record(s, id, StopPhase, Stopped)
  }

  function Lost(job: Job): Job {
    job.(runner := Runner(false, None, false, 0))
  }

  function Apply(s: State, step: Step): State {
    if !Enabled(s, step) then s
    else match step
      case Submit(id) => s.(jobs := s.jobs[id := Job(Pending, Runner(true, None, false, 0))])
      case SubmitReturns(id) =>
        Record(SetRunner(s, id,
            s.jobs[id].runner.(submitting := false, task := Some(Fresh(false)), registered := true)),
               id, StartPhase, JobStatus.Running)
      case SubmitFails(id) => Record(SetRunner(s, id, s.jobs[id].runner.(submitting := false)), id, StartPhase, Failed)
      case RunBegins(id) => SetTask(s, id, InRun(false))
      case RunReturns(id, result) => SuccessArm(s, id, result)
      case RunRaises(id) => FailureArm(s, id)
      case CancelDelivered(id) => SetTask(s, id, AfterCancel(s.jobs[id].runner.task.value))
      case StoppedWritten(id) => CancelledArm(s, id)
      case Emitted(id) => SetTask(s, id, Done(s.jobs[id].runner.task.value.arm == ErrorArm))
      case WriteRaises(id) => SetTask(s, id, Done(true))
      case EmitRaises(id) =>
        if s.jobs[id].runner.task == Some(Emitting(ResultArm)) then FailureArm(s, id) else SetTask(s, id, Done(true))
      case Stop(id) => StopJob(s, id)
      case StopResumes(id) =>
        var r := s.jobs[id].runner;
        var resumed := SetRunner(s, id, r.(stoppers := r.stoppers - 1));
        if r.task.value.failed then resumed else Record(resumed, id, StopPhase, Stopped)
      case Recover(id) => RecoverJob(s, id)
      case StaleRecover(id) => RecoverJob(s, id)
      case Forget(id) => SetRunner(s, id, s.jobs[id].runner.(registered := false))
      case Restart => s.(jobs := map id | id in s.jobs :: Lost(s.jobs[id]))
  }

  lemma ApplyStop(s: State, id: string)
    requires id in s.jobs
    ensures Apply(s, Stop(id)) == if s.jobs[id].status.Terminal() then s else StopJob(s, id)
  {
  }

  lemma ApplyRunReturns(s: State, id: string, result: AgentStatus)
    requires Enabled(s, RunReturns(id, result))
    ensures id in s.jobs && Apply(s, RunReturns(id, result)) == SuccessArm(s, id, result)
  {
  }

  /** Every result ends the job, and a RUNNING job accepts it. */
  lemma ResultIsAccepted(s: State, id: string, result: AgentStatus)
    requires id in s.jobs
    ensures JobStatusFor(result).Terminal()
    ensures s.jobs[id].status.Running? ==> Accepts(s, id, RecoveryPhase, JobStatusFor(result))
  {
  }

  lemma ApplyRecover(s: State, id: string)
    requires id in s.jobs
    ensures Apply(s, Recover(id)) == if s.jobs[id].status.Running? then RecoverJob(s, id) else s
  {
  }

  /** The design's assumptions: no stop while the submit is still running, a cancelled `run` does not return a
      result, emitting the notification of a result does not raise, and recovery does not act on a stale listing. */
  predicate Disciplined(s: State, step: Step) {
    match step
    case RunReturns(id, _) => id in s.jobs ==> s.jobs[id].runner.task != Some(InRun(true))
    case Stop(id) => id in s.jobs ==> !s.jobs[id].runner.submitting
    case EmitRaises(id) => id in s.jobs ==> s.jobs[id].runner.task != Some(Emitting(ResultArm))
    case StaleRecover(_) => false
    case _ => true
  }

  function Execute(s: State, steps: seq<Step>): State
    decreases |steps|
  {
    if steps == [] then s else Execute(Apply(s, steps[0]), steps[1..])
  }

  predicate DisciplinedRun(s: State, steps: seq<Step>)
    decreases |steps|
  {
    steps == [] || (Disciplined(s, steps[0]) && DisciplinedRun(Apply(s, steps[0]), steps[1..]))
  }

  // ---- the invariant -------------------------------------------------------------------------------

  predicate JobInvariant(job: Job) {
    var r, status := job.runner, job.status;
    if r.submitting then status.Pending? && r.task.None? && !r.registered && r.stoppers == 0
    else if r.task.None? then !r.registered && r.stoppers == 0
    else match r.task.value
      case Fresh(cancel) => status.Running? && r.registered && (cancel <==> r.stoppers > 0)
      case InRun(cancel) => status.Running? && r.registered && (cancel <==> r.stoppers > 0)
      case WritingStopped(_) => status.Running? && r.registered && r.stoppers > 0
      case Emitting(arm) =>
        && status.Terminal() && r.registered
        && (arm.CancelArm? ==> status.Stopped?)
        && (arm.ErrorArm? ==> status.Failed?)
        && (r.stoppers > 0 ==> !arm.ResultArm?)
      case Done(failed) =>
        && (status.Terminal() || (status.Running? && (failed || r.stoppers > 0)))
        && (r.stoppers > 0 ==> status.Stopped? || status.Running? || failed)
  }

  function NoteCount(notes: seq<(string, AgentStatus)>, id: string): nat {
    if notes == [] then 0
    else NoteCount(notes[..|notes| - 1], id) + if notes[|notes| - 1].0 == id then 1 else 0
  }

  /** The runner has not yet reached a point where it notifies. */
  predicate BeforeNote(r: Runner) {
    r.submitting || (r.task.Some? && (r.task.value.Fresh? || r.task.value.InRun? || r.task.value.WritingStopped?))
  }

  predicate MustBeNoted(job: Job) {
    job.status.Completed? || (job.runner.task.Some? && job.runner.task.value.Emitting?)
  }

  predicate NotesInvariant(s: State) {
    && (forall k | 0 <= k < |s.notes| ::
          s.notes[k].0 in s.jobs && s.jobs[s.notes[k].0].status == JobStatusFor(s.notes[k].1))
    && (forall id | id in s.jobs ::
          && NoteCount(s.notes, id) <= 1
          && (BeforeNote(s.jobs[id].runner) ==> NoteCount(s.notes, id) == 0)
          && (MustBeNoted(s.jobs[id]) ==> NoteCount(s.notes, id) == 1))
  }

  predicate WritesInvariant(s: State) {
    forall k | 0 <= k < |s.writes| :: s.writes[k].0 in s.jobs && s.jobs[s.writes[k].0].status == s.writes[k].1
  }

  predicate Invariant(s: State) {
    && s.raised == []
    && (forall id | id in s.jobs :: JobInvariant(s.jobs[id]))
    && (forall k | 0 <= k < |s.writes| :: s.writes[k].1.Terminal())
    && WritesInvariant(s)
    && NotesInvariant(s)
  }

  // ---- every disciplined step keeps it -------------------------------------------------------------

  /** `later` differs from `s` in one job, whose terminal status is kept, and in the log of its terminal status. */
  ghost predicate OneJob(s: State, later: State, id: string, job: Job) {
    && later.jobs == s.jobs[id := job]
    && later.raised == s.raised
    && later.writes ==
        (if job.status.Terminal() && later.writes != s.writes then s.writes + [(id, job.status)] else s.writes)
    && (id in s.jobs && s.jobs[id].status.Terminal() ==> job.status == s.jobs[id].status)
  }

  lemma WritesKept(s: State, later: State, id: string, job: Job)
    requires Invariant(s) && OneJob(s, later, id, job)
    ensures WritesInvariant(later) && forall k | 0 <= k < |later.writes| :: later.writes[k].1.Terminal()
  {
    hide JobInvariant, NotesInvariant;
  }

  lemma QuietNotesKept(s: State, later: State, id: string, job: Job)
    requires NotesInvariant(s) && OneJob(s, later, id, job) && later.notes == s.notes
    requires id in s.jobs || job.runner.submitting
    requires id in s.jobs && BeforeNote(job.runner) ==> BeforeNote(s.jobs[id].runner)
    requires MustBeNoted(job) ==> id in s.jobs && MustBeNoted(s.jobs[id])
    ensures NotesInvariant(later)
  {
    NotedIsTerminal();
    hide BeforeNote, MustBeNoted, JobStatusFor, NoteCount;
    if id !in s.jobs {
      NeverNoted(s.notes, id);
    }
  }

  lemma NotedIsTerminal()
    ensures forall status: AgentStatus :: JobStatusFor(status).Terminal()
  {
  }

  lemma QuietStep(s: State, later: State, id: string, job: Job)
    requires Invariant(s) && OneJob(s, later, id, job) && later.notes == s.notes && JobInvariant(job)
    requires id in s.jobs || job.runner.submitting
    requires id in s.jobs && BeforeNote(job.runner) ==> BeforeNote(s.jobs[id].runner)
    requires MustBeNoted(job) ==> id in s.jobs && MustBeNoted(s.jobs[id])
    ensures Invariant(later)
  {
    hide JobInvariant, BeforeNote, MustBeNoted, NotesInvariant, WritesInvariant;
    WritesKept(s, later, id, job);
    QuietNotesKept(s, later, id, job);
  }

  /** The note is true of the job, and so are the older ones, none of which is about it. */
  lemma NotesStayTrue(s: State, later: State, id: string, job: Job, status: AgentStatus)
    requires NotesInvariant(s) && OneJob(s, later, id, job) && later.notes == s.notes + [(id, status)]
    requires id in s.jobs && BeforeNote(s.jobs[id].runner) && job.status == JobStatusFor(status)
    ensures forall k | 0 <= k < |later.notes| ::
              later.notes[k].0 in later.jobs
              && later.jobs[later.notes[k].0].status == JobStatusFor(later.notes[k].1)
  {
    hide BeforeNote, MustBeNoted, JobStatusFor, NoteCount;
    assert NoteCount(s.notes, id) == 0;
    forall k | 0 <= k < |s.notes| ensures s.notes[k].0 != id {
      if s.notes[k].0 == id {
        NotedOnce(s.notes, id, k);
      }
    }
  }

  lemma CountsStayTrue(s: State, later: State, id: string, job: Job, status: AgentStatus, other: string)
    requires NotesInvariant(s) && OneJob(s, later, id, job) && later.notes == s.notes + [(id, status)]
    requires id in s.jobs && BeforeNote(s.jobs[id].runner) && !BeforeNote(job.runner) && other in later.jobs
    ensures NoteCount(later.notes, other) <= 1
    ensures BeforeNote(later.jobs[other].runner) ==> NoteCount(later.notes, other) == 0
    ensures MustBeNoted(later.jobs[other]) ==> NoteCount(later.notes, other) == 1
  {
    hide BeforeNote, MustBeNoted, JobStatusFor, NoteCount;
    NoteCountAppend(s.notes, id, status, other);
    assert other in s.jobs;
  }

  lemma NotingStep(s: State, later: State, id: string, job: Job, status: AgentStatus)
    requires Invariant(s) && OneJob(s, later, id, job) && later.notes == s.notes + [(id, status)] && JobInvariant(job)
    requires id in s.jobs && BeforeNote(s.jobs[id].runner) && !BeforeNote(job.runner)
    requires job.status == JobStatusFor(status)
    ensures Invariant(later)
  {
    assert NotesInvariant(later) by {
      hide JobInvariant, BeforeNote, MustBeNoted, JobStatusFor, NoteCount, WritesInvariant;
      NotesStayTrue(s, later, id, job, status);
      forall other | other in later.jobs
        ensures NoteCount(later.notes, other) <= 1
        ensures BeforeNote(later.jobs[other].runner) ==> NoteCount(later.notes, other) == 0
        ensures MustBeNoted(later.jobs[other]) ==> NoteCount(later.notes, other) == 1
      {
        CountsStayTrue(s, later, id, job, status, other);
      }
    }
    hide JobInvariant, BeforeNote, NotesInvariant, WritesInvariant, JobStatusFor;
    WritesKept(s, later, id, job);
  }

  lemma NoteCountAppend(notes: seq<(string, AgentStatus)>, id: string, status: AgentStatus, other: string)
    ensures NoteCount(notes + [(id, status)], other) == NoteCount(notes, other) + if other == id then 1 else 0
  {
    assert (notes + [(id, status)])[..|notes|] == notes;
  }

  lemma {:induction false} NeverNoted(notes: seq<(string, AgentStatus)>, id: string)
    requires forall k | 0 <= k < |notes| :: notes[k].0 != id
    ensures NoteCount(notes, id) == 0
  {
    if notes == [] {
    } else {
      NeverNoted(notes[..|notes| - 1], id);
    }
  }

  lemma {:induction false} NotedOnce(notes: seq<(string, AgentStatus)>, id: string, k: nat)
    requires k < |notes| && notes[k].0 == id
    ensures NoteCount(notes, id) >= 1
  {
    if k < |notes| - 1 {
      NotedOnce(notes[..|notes| - 1], id, k);
    }
  }

  /** The status the runner notifies in a step that ends its work. */
  function NotedStatus(step: Step): AgentStatus {
    if step.RunReturns? then step.result else if step.RunRaises? then AgentFailed else AgentStopped
  }

  predicate IsNoting(step: Step) {
    step.RunReturns? || step.RunRaises? || step.StoppedWritten?
  }

  lemma NoteShape(s: State, step: Step)
    requires Enabled(s, step) && Disciplined(s, step) && IsNoting(step) && s.raised == []
    requires JobInvariant(s.jobs[step.id])
    ensures var later, id := Apply(s, step), step.id;
            id in later.jobs && OneJob(s, later, id, later.jobs[id]) && JobInvariant(later.jobs[id])
            && later.notes == s.notes + [(id, NotedStatus(step))]
            && BeforeNote(s.jobs[id].runner) && !BeforeNote(later.jobs[id].runner)
            && later.jobs[id].status == JobStatusFor(NotedStatus(step))
  {
    assert Accepts(s, step.id, RecoveryPhase, JobStatusFor(NotedStatus(step)));
  }

  lemma NoteStepKeeps(s: State, step: Step)
    requires Invariant(s) && Enabled(s, step) && Disciplined(s, step) && IsNoting(step)
    ensures Invariant(Apply(s, step))
  {
    assert step.id in s.jobs;
    hide Apply, Enabled, Disciplined, JobInvariant, NotesInvariant, WritesInvariant, BeforeNote, NotedStatus,
        JobStatusFor;
    NoteShape(s, step);
    NotingStep(s, Apply(s, step), step.id, Apply(s, step).jobs[step.id], NotedStatus(step));
  }

  predicate IsQuiet(step: Step) {
    !IsNoting(step) && !step.Restart?
  }

  lemma QuietShape(s: State, step: Step)
    requires Enabled(s, step) && Disciplined(s, step) && IsQuiet(step) && s.raised == []
    requires step.id in s.jobs ==> JobInvariant(s.jobs[step.id])
    ensures var later, id := Apply(s, step), step.id;
            id in later.jobs && OneJob(s, later, id, later.jobs[id]) && JobInvariant(later.jobs[id])
            && later.notes == s.notes
            && (id in s.jobs || later.jobs[id].runner.submitting)
            && (id in s.jobs && BeforeNote(later.jobs[id].runner) ==> BeforeNote(s.jobs[id].runner))
            && (MustBeNoted(later.jobs[id]) ==> id in s.jobs && MustBeNoted(s.jobs[id]))
  {
  }

  lemma QuietStepKeeps(s: State, step: Step)
    requires Invariant(s) && Enabled(s, step) && Disciplined(s, step) && IsQuiet(step)
    ensures Invariant(Apply(s, step))
  {
    hide Apply, Enabled, Disciplined, JobInvariant, NotesInvariant, WritesInvariant;
    QuietShape(s, step);
    QuietStep(s, Apply(s, step), step.id, Apply(s, step).jobs[step.id]);
  }

  lemma LostKeeps(job: Job)
    ensures JobInvariant(Lost(job)) && Lost(job).status == job.status && !BeforeNote(Lost(job).runner)
    ensures MustBeNoted(Lost(job)) ==> MustBeNoted(job)
  {
  }

  lemma RestartLoses(s: State)
    ensures Apply(s, Restart) == s.(jobs := map id | id in s.jobs :: Lost(s.jobs[id]))
  {
  }

  lemma RestartKeeps(s: State)
    requires Invariant(s)
    ensures Invariant(Apply(s, Restart))
  {
    hide Apply, JobInvariant, BeforeNote, MustBeNoted, NoteCount, Lost, JobStatusFor;
    RestartLoses(s);
    forall id | id in s.jobs
      ensures JobInvariant(Lost(s.jobs[id])) && Lost(s.jobs[id]).status == s.jobs[id].status
      ensures !BeforeNote(Lost(s.jobs[id]).runner) && (MustBeNoted(Lost(s.jobs[id])) ==> MustBeNoted(s.jobs[id]))
    {
      LostKeeps(s.jobs[id]);
    }
  }

  lemma StepKeepsInvariant(s: State, step: Step)
    requires Invariant(s) && Disciplined(s, step)
    ensures Invariant(Apply(s, step))
  {
    hide Invariant;
    if Enabled(s, step) {
      if step.Restart? {
        RestartKeeps(s);
      } else if IsNoting(step) {
        NoteStepKeeps(s, step);
      } else {
        QuietStepKeeps(s, step);
      }
    }
  }

  lemma {:induction false} RunKeepsInvariant(s: State, steps: seq<Step>)
    requires Invariant(s) && DisciplinedRun(s, steps)
    ensures Invariant(Execute(s, steps))
    decreases |steps|
  {
    hide Invariant, Apply, Disciplined;
    if steps == [] {
    } else {
      StepKeepsInvariant(s, steps[0]);
      RunKeepsInvariant(Apply(s, steps[0]), steps[1..]);
    }
  }

  // ---- what the protocol promises ------------------------------------------------------------------

  /** No interleaving of runners, stops, recoveries and restarts is ever refused a transition; everyone who
      records a terminal status for a job records the same one; a job is notified at most once, exactly once if
      it completed, and with the status it ended in. */
  lemma BackgroundProtocolSafe(steps: seq<Step>)
    requires DisciplinedRun(INITIAL, steps)
    ensures var s := Execute(INITIAL, steps);
            && s.raised == []
            && (forall i, j | 0 <= i < |s.writes| && 0 <= j < |s.writes| ::
                  s.writes[i].0 == s.writes[j].0 ==> s.writes[i].1 == s.writes[j].1)
            && (forall id | id in s.jobs ::
                  NoteCount(s.notes, id) <= 1 && (s.jobs[id].status.Completed? ==> NoteCount(s.notes, id) == 1))
            && (forall k | 0 <= k < |s.notes| ::
                  s.notes[k].0 in s.jobs && s.jobs[s.notes[k].0].status == JobStatusFor(s.notes[k].1))
  {
    hide Apply, Disciplined;
    RunKeepsInvariant(INITIAL, steps);
  }

  predicate Forward(before: JobStatus, after: JobStatus) {
    before.Rank() <= after.Rank() && (before.Terminal() ==> after == before)
  }

  lemma NotingMovesForward(s: State, step: Step, id: string)
    requires id in s.jobs && Enabled(s, step) && IsNoting(step)
    ensures id in Apply(s, step).jobs && Forward(s.jobs[id].status, Apply(s, step).jobs[id].status)
  {
  }

  lemma OtherMovesForward(s: State, step: Step, id: string)
    requires id in s.jobs && Enabled(s, step) && !IsNoting(step)
    ensures id in Apply(s, step).jobs && Forward(s.jobs[id].status, Apply(s, step).jobs[id].status)
  {
  }

  /** What a notification says about the job, in any run: COMPLETED for a completed run, STOPPED for one that was
      stopped or ran out of turns, FAILED for every other. */
  lemma NotedStatusExact(steps: seq<Step>, k: nat)
    requires DisciplinedRun(INITIAL, steps) && k < |Execute(INITIAL, steps).notes|
    ensures var s := Execute(INITIAL, steps);
            var (id, note) := s.notes[k];
            && id in s.jobs
            && (s.jobs[id].status.Completed? <==> note.AgentCompleted?)
            && (s.jobs[id].status.Stopped? <==> note.AgentMaxTurns? || note.AgentStopped?)
            && (s.jobs[id].status.Failed? <==> note.AgentDenied? || note.AgentFailed? || note.AgentOther?)
  {
    hide Apply, Disciplined;
    BackgroundProtocolSafe(steps);
  }

  /** A completed job has been notified as completed. */
  lemma CompletedIsNoted(steps: seq<Step>, id: string)
    requires DisciplinedRun(INITIAL, steps) && id in Execute(INITIAL, steps).jobs
    requires Execute(INITIAL, steps).jobs[id].status.Completed?
    ensures (id, AgentCompleted) in Execute(INITIAL, steps).notes
  {
    hide Apply, Disciplined;
    BackgroundProtocolSafe(steps);
    var notes := Execute(INITIAL, steps).notes;
    if forall k | 0 <= k < |notes| :: notes[k].0 != id {
      NeverNoted(notes, id);
    }
    var k :| 0 <= k < |notes| && notes[k].0 == id;
    NotedStatusExact(steps, k);
    assert notes[k] == (id, AgentCompleted);
  }

  /** What a returned run is reported as, whatever the other jobs do. */
  lemma ResultIsReported(s: State, id: string, result: AgentStatus)
    requires Invariant(s) && Enabled(s, RunReturns(id, result))
    ensures var later := Apply(s, RunReturns(id, result));
            && id in later.jobs && later.notes == s.notes + [(id, result)]
            && later.jobs[id].status == (if result.AgentCompleted? then Completed
                                         else if result.AgentMaxTurns? || result.AgentStopped? then Stopped
                                         else Failed)
  {
    assert JobInvariant(s.jobs[id]);
  }

  /** A run that raises is reported as failed. */
  lemma FailureIsReported(s: State, id: string)
    requires Invariant(s) && Enabled(s, RunRaises(id))
    ensures var later := Apply(s, RunRaises(id));
            id in later.jobs && later.notes == s.notes + [(id, AgentFailed)] && later.jobs[id].status.Failed?
  {
    assert JobInvariant(s.jobs[id]);
  }

  /** A stop that reaches a running agent ends the job STOPPED with one such notification. */
  lemma CancelledRunStops(s: State, id: string)
    requires Invariant(s) && id in s.jobs && s.jobs[id].runner.task == Some(InRun(true))
    ensures var written := Apply(Apply(s, CancelDelivered(id)), StoppedWritten(id));
            && written.raised == [] && written.notes == s.notes + [(id, AgentStopped)]
            && id in written.jobs && written.jobs[id].status.Stopped?
            && Apply(Apply(written, Emitted(id)), StopResumes(id)).raised == []
  {
    assert JobInvariant(s.jobs[id]);
    var writing := Apply(s, CancelDelivered(id));
    assert writing.jobs[id].runner.task == Some(WritingStopped(false)) && writing.raised == [];
    var written := Apply(writing, StoppedWritten(id));
    assert written.jobs[id].status.Stopped? && written.jobs[id].runner.task == Some(Emitting(CancelArm));
    var done := Apply(written, Emitted(id));
    assert done.jobs[id] == Job(Stopped, written.jobs[id].runner.(task := Some(Done(false))));
    LateStop(done, id);
  }

  /** No step of any kind, disciplined or not, moves a job backwards or out of a terminal status. */
  lemma StepMovesForward(s: State, step: Step, id: string)
    requires id in s.jobs
    ensures id in Apply(s, step).jobs && Forward(s.jobs[id].status, Apply(s, step).jobs[id].status)
  {
    if Enabled(s, step) {
      hide Apply, Enabled, Forward;
      if IsNoting(step) {
        NotingMovesForward(s, step, id);
      } else {
        OtherMovesForward(s, step, id);
      }
    }
  }

  lemma {:induction false} RunMovesForward(s: State, steps: seq<Step>, id: string)
    requires id in s.jobs
    ensures id in Execute(s, steps).jobs && Forward(s.jobs[id].status, Execute(s, steps).jobs[id].status)
    decreases |steps|
  {
    hide Apply;
    if steps == [] {
    } else {
      StepMovesForward(s, steps[0], id);
      RunMovesForward(Apply(s, steps[0]), steps[1..], id);
    }
  }

  predicate Accounted(job: Job) {
    job.runner.task.None? ==> job.runner.submitting || job.status.Terminal()
  }

  lemma StepAccounts(s: State, step: Step)
    requires Enabled(s, step) && Disciplined(s, step) && !step.Restart?
    requires step.id in s.jobs ==> JobInvariant(s.jobs[step.id]) && Accounted(s.jobs[step.id])
    ensures var later, id := Apply(s, step), step.id;
            id in later.jobs && later.jobs == s.jobs[id := later.jobs[id]] && Accounted(later.jobs[id])
  {
  }

  lemma StepKeepsAccounted(s: State, step: Step)
    requires Invariant(s) && Disciplined(s, step) && !step.Restart?
    requires forall id | id in s.jobs :: Accounted(s.jobs[id])
    ensures forall id | id in Apply(s, step).jobs :: Accounted(Apply(s, step).jobs[id])
  {
    if Enabled(s, step) {
      hide Apply, Enabled, Disciplined, Accounted, JobInvariant;
      StepAccounts(s, step);
    } else {
      assert Apply(s, step) == s;
    }
  }

  lemma {:induction false} RunKeepsAccounted(s: State, steps: seq<Step>)
    requires Invariant(s) && DisciplinedRun(s, steps) && Restart !in steps
    requires forall id | id in s.jobs :: Accounted(s.jobs[id])
    ensures forall id | id in Execute(s, steps).jobs :: Accounted(Execute(s, steps).jobs[id])
    decreases |steps|
  {
    hide Apply, Disciplined, Invariant;
    if steps == [] {
    } else {
      StepKeepsAccounted(s, steps[0]);
      StepKeepsInvariant(s, steps[0]);
      RunKeepsAccounted(Apply(s, steps[0]), steps[1..]);
    }
  }

  /** The job is finished, or something in the process will finish it. */
  predicate Attended(job: Job) {
    var r := job.runner;
    job.status.Terminal() || r.submitting || r.Alive() || (r.stoppers > 0 && r.task == Some(Done(false)))
  }

  /** A running job whose task ended in an error. */
  predicate LeftBehind(job: Job) {
    job.status.Running? && job.runner.task == Some(Done(true))
  }

  /** Within one process a job is unattended exactly when its task ended in an error that left it RUNNING. */
  lemma NoJobLeftBehind(steps: seq<Step>, id: string)
    requires DisciplinedRun(INITIAL, steps) && Restart !in steps
    requires id in Execute(INITIAL, steps).jobs
    ensures var job := Execute(INITIAL, steps).jobs[id]; Attended(job) <==> !LeftBehind(job)
  {
    hide Apply, Disciplined;
    RunKeepsInvariant(INITIAL, steps);
    RunKeepsAccounted(INITIAL, steps);
    assert JobInvariant(Execute(INITIAL, steps).jobs[id]);
  }

  lemma NotingLeavesNone(s: State, step: Step)
    requires Enabled(s, step) && IsNoting(step) && JobInvariant(s.jobs[step.id])
    ensures step.id in Apply(s, step).jobs && !LeftBehind(Apply(s, step).jobs[step.id])
  {
  }

  lemma OtherLeavesNone(s: State, step: Step)
    requires Enabled(s, step) && Disciplined(s, step) && IsQuiet(step) && !step.WriteRaises?
    requires step.id in s.jobs ==> JobInvariant(s.jobs[step.id]) && !LeftBehind(s.jobs[step.id])
    ensures step.id in Apply(s, step).jobs && !LeftBehind(Apply(s, step).jobs[step.id])
  {
  }

  lemma OtherJobsStay(s: State, step: Step, id: string)
    requires Enabled(s, step) && !step.Restart? && id != step.id
    ensures id in Apply(s, step).jobs <==> id in s.jobs
    ensures id in s.jobs ==> Apply(s, step).jobs[id] == s.jobs[id]
  {
  }

  /** Only a terminal run record that could not be written leaves a job behind. */
  lemma {:induction false} LeavingNeedsWriteRaises(s: State, steps: seq<Step>, id: string)
    requires Invariant(s) && DisciplinedRun(s, steps) && id in Execute(s, steps).jobs
    requires id in s.jobs ==> !LeftBehind(s.jobs[id])
    ensures LeftBehind(Execute(s, steps).jobs[id]) ==> WriteRaises(id) in steps
    decreases |steps|
  {
    hide Apply, Disciplined, Invariant, LeftBehind;
    if steps == [] {
    } else {
      var next := Apply(s, steps[0]);
      StepKeepsInvariant(s, steps[0]);
      if steps[0] != WriteRaises(id) {
        if id in next.jobs {
          StepLeaves(s, steps[0], id);
        }
        LeavingNeedsWriteRaises(next, steps[1..], id);
      }
    }
  }

  lemma StepLeaves(s: State, step: Step, id: string)
    requires Invariant(s) && Disciplined(s, step) && step != WriteRaises(id) && id in Apply(s, step).jobs
    requires id in s.jobs ==> !LeftBehind(s.jobs[id])
    ensures !LeftBehind(Apply(s, step).jobs[id])
  {
    if !Enabled(s, step) {
      assert Apply(s, step) == s;
    } else if step.Restart? {
      RestartLoses(s);
    } else {
      assert step.id in s.jobs ==> JobInvariant(s.jobs[step.id]);
      hide Apply, Enabled, Disciplined, JobInvariant, Invariant, LeftBehind;
      if id != step.id {
        OtherJobsStay(s, step, id);
      } else if IsNoting(step) {
        assert step.id in s.jobs by { NotingHasJob(s, step); }
        NotingLeavesNone(s, step);
      } else {
        OtherLeavesNone(s, step);
      }
    }
  }

  lemma NotingHasJob(s: State, step: Step)
    requires Enabled(s, step) && IsNoting(step)
    ensures step.id in s.jobs
  {
  }

  /** A job that was left behind is finished by the next stop and by the next recovery. */
  lemma LeftBehindIsFinishable(s: State, id: string)
    requires Invariant(s) && id in s.jobs && LeftBehind(s.jobs[id])
    ensures Apply(s, Stop(id)).raised == [] && Apply(s, Stop(id)).jobs[id].status == Stopped
    ensures Apply(s, Recover(id)).raised == [] && Apply(s, Recover(id)).jobs[id].status == Stopped
  {
  }

  /** After a restart the recovery pass finishes exactly the running jobs whose task is gone. */
  lemma RecoveryFinishesLostJobs(s: State, id: string)
    requires Invariant(s) && id in s.jobs && s.jobs[id].status == JobStatus.Running
    ensures var later := Apply(s, Recover(id));
            later.raised == []
                && later.jobs[id].status == (if s.jobs[id].runner.Alive() then JobStatus.Running else Stopped)
  {
    assert JobInvariant(s.jobs[id]);
  }

  /** Forgetting a finished task and restarting change no status; after a restart no job has a runner. */
  lemma ForgettingKeepsStatus(s: State, id: string)
    requires id in s.jobs
    ensures id in Apply(s, Forget(id)).jobs && Apply(s, Forget(id)).jobs[id].status == s.jobs[id].status
    ensures Enabled(s, Forget(id)) ==> !Apply(s, Forget(id)).jobs[id].runner.registered
    ensures id in Apply(s, Restart).jobs && Apply(s, Restart).jobs[id].status == s.jobs[id].status
    ensures !Apply(s, Restart).jobs[id].runner.Alive() && !Apply(s, Restart).jobs[id].runner.registered
  {
  }

  /** A stop finishes a started job whose runner is gone, at once and without a refusal. */
  lemma StopFinishesLostJobs(s: State, id: string)
    requires Invariant(s) && id in s.jobs && s.jobs[id].status == JobStatus.Running && !s.jobs[id].runner.Alive()
    ensures Apply(s, Stop(id)).raised == [] && Apply(s, Stop(id)).jobs[id].status == Stopped
  {
  }

  // ---- what each ruled-out step breaks -------------------------------------------------------------

  /** A notification that fails after a result is refused a transition unless the job had failed; then the job
      is notified a second time. */
  lemma EmitFailureBreaks(s: State, id: string)
    requires Invariant(s) && id in s.jobs && s.jobs[id].runner.task == Some(Emitting(ResultArm))
    ensures var later := Apply(s, EmitRaises(id));
            (later.raised == [] <==> s.jobs[id].status.Failed?)
            && (s.jobs[id].status.Failed? ==> NoteCount(later.notes, id) == 2)
  {
    var later := Apply(s, EmitRaises(id));
    assert JobInvariant(s.jobs[id]) && MustBeNoted(s.jobs[id]);
    if s.jobs[id].status.Failed? {
      assert later.notes[..|s.notes|] == s.notes;
    }
  }

  /** Recovery from a stale listing is refused exactly when the job ended meanwhile otherwise than STOPPED, or
      ended STOPPED while its runner is still emitting. */
  lemma StaleRecoveryBreaks(s: State, id: string)
    requires Invariant(s) && Enabled(s, StaleRecover(id))
    ensures Apply(s, StaleRecover(id)).raised == [] <==>
            (s.jobs[id].status.Running? || (s.jobs[id].status.Stopped? && !s.jobs[id].runner.Alive()))
  {
    assert JobInvariant(s.jobs[id]);
  }

  /** A stop that gets in before the submit ends makes the start result invalid, always, whether it is RUNNING or
      FAILED. */
  lemma StopDuringSubmitBreaks(s: State, id: string)
    requires Invariant(s) && id in s.jobs && s.jobs[id].runner.submitting
    ensures Apply(Apply(s, Stop(id)), SubmitReturns(id)).raised == [(id, JobStatus.Running)]
    ensures Apply(Apply(s, Stop(id)), SubmitFails(id)).raised == [(id, Failed)]
  {
    assert JobInvariant(s.jobs[id]);
  }

  /** A run that swallows its cancellation breaks the waiting stop unless its result counts as stopped. */
  lemma SwallowedCancelBreaks(s: State, id: string, result: AgentStatus)
    requires Invariant(s) && id in s.jobs && s.jobs[id].runner.task == Some(InRun(true))
    ensures Apply(Apply(Apply(s, RunReturns(id, result)), Emitted(id)), StopResumes(id)).raised == [] <==>
            JobStatusFor(result) == Stopped
  {
    assert JobInvariant(s.jobs[id]);
    SwallowedCancelEnds(s, id, result);
    hide Apply, JobInvariant, Invariant;
    var done := Apply(Apply(s, RunReturns(id, result)), Emitted(id));
    LateStop(done, id);
  }

  lemma SwallowedCancelEnds(s: State, id: string, result: AgentStatus)
    requires id in s.jobs && s.jobs[id].status.Running? && s.jobs[id].runner.task == Some(InRun(true)) && s.raised == []
    ensures var done := Apply(Apply(s, RunReturns(id, result)), Emitted(id));
            id in done.jobs && done.raised == []
            && done.jobs[id] == Job(JobStatusFor(result), s.jobs[id].runner.(task := Some(Done(false))))
  {
    var emitting := Apply(s, RunReturns(id, result));
    assert emitting.jobs[id].runner.task == Some(Emitting(ResultArm)) && emitting.raised == [];
  }

  lemma LateStop(done: State, id: string)
    requires id in done.jobs && done.raised == [] && done.jobs[id].status.Terminal()
    requires done.jobs[id].runner.task == Some(Done(false)) && done.jobs[id].runner.stoppers > 0
    ensures Apply(done, StopResumes(id)).raised == [] <==> done.jobs[id].status == Stopped
  {
  }

  /** A run that raises while it is being cancelled breaks nothing: the job fails, and the waiting stop passes the
      error on. */
  lemma CancelledRunMayRaise(s: State, id: string)
    requires Invariant(s) && id in s.jobs && s.jobs[id].runner.task == Some(InRun(true))
    ensures var last := Apply(Apply(Apply(s, RunRaises(id)), Emitted(id)), StopResumes(id));
            last.raised == [] && id in last.jobs && last.jobs[id].status.Failed?
  {
    assert JobInvariant(s.jobs[id]);
    var emitting := Apply(s, RunRaises(id));
    assert emitting.raised == [] && emitting.jobs[id].runner.task == Some(Emitting(ErrorArm));
    var done := Apply(emitting, Emitted(id));
    assert done.raised == [] && done.jobs[id].runner.task == Some(Done(true)) && done.jobs[id].status.Failed?;
  }

  // ---- runs that reach what was ruled out ----------------------------------------------------------

  /** The steps that bring a fresh job into `run`. */
  function Started(id: string): seq<Step> {
    [Submit(id), SubmitReturns(id), RunBegins(id)]
  }

  function OneJobState(id: string, job: Job): State {
    State(map[id := job], [], [], [])
  }

  function InRunJob(cancel: bool, stoppers: nat): Job {
    Job(JobStatus.Running, Runner(false, Some(InRun(cancel)), true, stoppers))
  }

  lemma {:induction false} ExecuteAppend(s: State, first: seq<Step>, second: seq<Step>)
    ensures Execute(s, first + second) == Execute(Execute(s, first), second)
    decreases |first|
  {
    hide Apply;
    if first == [] {
      assert first + second == second;
    } else {
      assert (first + second)[1..] == first[1..] + second;
      ExecuteAppend(Apply(s, first[0]), first[1..], second);
    }
  }

  lemma Execute1(s: State, a: Step)
    ensures Execute(s, [a]) == Apply(s, a)
    ensures DisciplinedRun(s, [a]) == Disciplined(s, a)
  {
    hide Apply, Disciplined;
    assert [a][1..] == [];
    assert Execute(Apply(s, a), []) == Apply(s, a) && DisciplinedRun(Apply(s, a), []);
  }

  lemma Execute2(s: State, a: Step, b: Step)
    ensures Execute(s, [a, b]) == Apply(Apply(s, a), b)
    ensures DisciplinedRun(s, [a, b]) == (Disciplined(s, a) && Disciplined(Apply(s, a), b))
  {
    hide Apply, Disciplined;
    assert [a, b][1..] == [b];
    Execute1(Apply(s, a), b);
  }

  lemma Execute3(s: State, a: Step, b: Step, c: Step)
    ensures Execute(s, [a, b, c]) == Apply(Apply(Apply(s, a), b), c)
    ensures DisciplinedRun(s, [a, b, c]) ==
            (Disciplined(s, a) && Disciplined(Apply(s, a), b) && Disciplined(Apply(Apply(s, a), b), c))
  {
    hide Apply, Disciplined;
    assert [a, b, c][1..] == [b, c];
    Execute2(Apply(s, a), b, c);
  }

  lemma StartedRuns(id: string)
    ensures Execute(INITIAL, Started(id)) == OneJobState(id, InRunJob(false, 0))
    ensures DisciplinedRun(INITIAL, Started(id))
  {
    var s1 := OneJobState(id, Job(Pending, Runner(true, None, false, 0)));
    var s2 := OneJobState(id, Job(JobStatus.Running, Runner(false, Some(Fresh(false)), true, 0)));
    assert Apply(INITIAL, Submit(id)) == s1;
    assert Apply(s1, SubmitReturns(id)) == s2;
    assert Apply(s2, RunBegins(id)) == OneJobState(id, InRunJob(false, 0));
    hide Apply;
    Execute3(INITIAL, Submit(id), SubmitReturns(id), RunBegins(id));
  }

  lemma StartedIsInvariant(id: string)
    ensures Invariant(OneJobState(id, InRunJob(false, 0)))
  {
    StartedRuns(id);
    hide Invariant, Apply;
    assert Invariant(INITIAL) by { NothingYet(); }
    RunKeepsInvariant(INITIAL, Started(id));
  }

  lemma NothingYet()
    ensures Invariant(INITIAL)
  {
  }

  function EndedState(id: string): State {
    State(map[id := Job(Completed, Runner(false, Some(Emitting(ResultArm)), true, 0))],
          [(id, AgentCompleted)], [(id, Completed)], [])
  }

  lemma RunEnds(id: string)
    ensures Apply(OneJobState(id, InRunJob(false, 0)), RunReturns(id, AgentCompleted)) == EndedState(id)
  {
  }

  lemma EndedIsInvariant(id: string)
    ensures Invariant(EndedState(id))
  {
    StartedIsInvariant(id);
    RunEnds(id);
    hide Apply, Invariant;
    StepKeepsInvariant(OneJobState(id, InRunJob(false, 0)), RunReturns(id, AgentCompleted));
  }

  lemma StartedThen(id: string, last: Step)
    ensures Execute(INITIAL, Started(id) + [RunReturns(id, AgentCompleted), last]) == Apply(EndedState(id), last)
  {
    StartedRuns(id);
    RunEnds(id);
    hide Apply;
    ExecuteAppend(INITIAL, Started(id), [RunReturns(id, AgentCompleted), last]);
    Execute2(OneJobState(id, InRunJob(false, 0)), RunReturns(id, AgentCompleted), last);
  }

  lemma EmitFailureReached(id: string)
    ensures Execute(INITIAL, Started(id) + [RunReturns(id, AgentCompleted), EmitRaises(id)]).raised != []
  {
    hide Apply, Invariant;
    StartedThen(id, EmitRaises(id));
    EndedIsInvariant(id);
    EmitFailureBreaks(EndedState(id), id);
  }

  lemma StaleRecoveryReached(id: string)
    ensures Execute(INITIAL, Started(id) + [RunReturns(id, AgentCompleted), StaleRecover(id)]).raised != []
  {
    hide Apply, Invariant;
    StartedThen(id, StaleRecover(id));
    EndedIsInvariant(id);
    StaleRecoveryBreaks(EndedState(id), id);
  }

  lemma StopDuringSubmitReached(id: string)
    ensures Execute(INITIAL, [Submit(id), Stop(id), SubmitReturns(id)]).raised != []
    ensures Execute(INITIAL, [Submit(id), Stop(id), SubmitFails(id)]).raised != []
  {
    Execute3(INITIAL, Submit(id), Stop(id), SubmitReturns(id));
    Execute3(INITIAL, Submit(id), Stop(id), SubmitFails(id));
    var submitted := OneJobState(id, Job(Pending, Runner(true, None, false, 0)));
    assert Apply(INITIAL, Submit(id)) == submitted;
    NothingYet();
    hide Apply, Invariant;
    StepKeepsInvariant(INITIAL, Submit(id));
    StopDuringSubmitBreaks(submitted, id);
  }

  lemma SwallowedCancelReached(id: string)
    ensures Execute(INITIAL, Started(id) + [Stop(id)] + [RunReturns(id, AgentCompleted), Emitted(id), StopResumes(id)])
            .raised != []
  {
    var rest := [RunReturns(id, AgentCompleted), Emitted(id), StopResumes(id)];
    var s, cancelled := OneJobState(id, InRunJob(false, 0)), OneJobState(id, InRunJob(true, 1));
    assert Apply(s, Stop(id)) == cancelled;
    hide Apply, Invariant;
    StartedRuns(id);
    ExecuteAppend(INITIAL, Started(id), [Stop(id)]);
    ExecuteAppend(INITIAL, Started(id) + [Stop(id)], rest);
    Execute1(s, Stop(id));
    Execute3(cancelled, RunReturns(id, AgentCompleted), Emitted(id), StopResumes(id));
    StartedIsInvariant(id);
    StepKeepsInvariant(s, Stop(id));
    SwallowedCancelBreaks(cancelled, id, AgentCompleted);
  }

  /** A run within the discipline that leaves a job behind, although a stop waits for it. */
  lemma LeftBehindReached(id: string)
    ensures var steps := Started(id) + [Stop(id)] + [CancelDelivered(id), WriteRaises(id)];
            var last := Execute(INITIAL, steps);
            DisciplinedRun(INITIAL, steps) && last.raised == [] && id in last.jobs && LeftBehind(last.jobs[id])
  {
    var s, cancelled := OneJobState(id, InRunJob(false, 0)), OneJobState(id, InRunJob(true, 1));
    var writing := OneJobState(id, Job(JobStatus.Running, Runner(false, Some(WritingStopped(false)), true, 1)));
    var left := OneJobState(id, Job(JobStatus.Running, Runner(false, Some(Done(true)), true, 1)));
    assert Apply(s, Stop(id)) == cancelled;
    assert Apply(cancelled, CancelDelivered(id)) == writing;
    assert Apply(writing, WriteRaises(id)) == left;
    hide Apply;
    StartedRuns(id);
    Execute1(s, Stop(id));
    Execute2(cancelled, CancelDelivered(id), WriteRaises(id));
    ExecuteAppend(INITIAL, Started(id), [Stop(id)]);
    ExecuteAppend(INITIAL, Started(id) + [Stop(id)], [CancelDelivered(id), WriteRaises(id)]);
    DisciplinedAppend(INITIAL, Started(id), [Stop(id)]);
    DisciplinedAppend(INITIAL, Started(id) + [Stop(id)], [CancelDelivered(id), WriteRaises(id)]);
  }

  lemma {:induction false} DisciplinedAppend(s: State, first: seq<Step>, second: seq<Step>)
    ensures DisciplinedRun(s, first + second) <==> DisciplinedRun(s, first) && DisciplinedRun(Execute(s, first), second)
    decreases |first|
  {
    hide Apply, Disciplined;
    if first == [] {
      assert first + second == second;
    } else {
      assert (first + second)[1..] == first[1..] + second;
      DisciplinedAppend(Apply(s, first[0]), first[1..], second);
    }
  }
}
