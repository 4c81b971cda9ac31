/**
 * The workflow ledger of the code assistant: which workspace revision is verified and which is reviewed, folded
 * from the session's tool results and then from its shell jobs.
 */
module WorkflowLedger {
  import opened Text

  /** The parts of a tool result the ledger reads. Command and description are lower-cased, the summary is lower-cased
      and stripped, the other texts are stripped. */
  datatype Content = Content(
    updated: Option<bool>,
    changed: Option<bool>,
    classification: string,
    command: string,
    description: string,
    shellStatus: string,
    exitCode: Option<int>,
    agent: string,
    summary: string)

  datatype ToolResult = ToolResult(toolName: string, status: string, content: Content)

  datatype Message = Message(createdAt: int, results: seq<ToolResult>)

  /** A job's times carry an offset. */
  datatype Job = Job(jobId: string, status: string, result: Option<Content>, endedAt: Option<int>,
      updatedAt: Option<int>)

  datatype WorkflowState = Clean | PendingVerification | PendingReview | ReadyToSummarize

  datatype Ledger = Ledger(
    changeRevision: nat,
    verifiedRevision: nat,
    reviewedRevision: nat,
    state: WorkflowState,
    lastVerificationPassed: Option<bool>,
    lastReviewPassed: Option<bool>)

  // ---- reading one tool result ---------------------------------------------------------------------

  predicate MateriallyChanged(toolName: string, content: Content) {
    if toolName == "edit" then content.updated.GetOr(true)
    else if toolName == "write" then content.changed.GetOr(true)
    else false
  }

  predicate Mentions(content: Content, marker: string) {
    Contains(content.command, marker) || Contains(content.description, marker)
  }

  predicate IsVerificationShell(content: Content) {
    content.classification in ["test", "build", "lint"]
    || Mentions(content, "pytest") || Mentions(content, "unittest") || Mentions(content, " test")
    || Mentions(content, " check") || Mentions(content, "verification")
  }

  predicate ShellPassed(content: Content) {
    content.shellStatus == "completed" && (content.exitCode.None? || content.exitCode.value == 0)
  }

  predicate PhasePassed(summary: string, phase: string) {
    if StartsWith(summary, phase + ": fail") then false
    else if StartsWith(summary, phase + ": pass") then true
    else if Contains(summary, " fail") || StartsWith(summary, "fail") then false
    else Contains(summary, "passed") || Contains(summary, "no issues") || Contains(summary, "pass")
  }

  predicate IsEdit(t: ToolResult) {
    t.toolName in ["edit", "write"] && t.status == "success" && MateriallyChanged(t.toolName, t.content)
  }

  predicate IsVerification(t: ToolResult) {
    (t.toolName == "bash" && IsVerificationShell(t.content)) || (t.toolName == "agent" && t.content.agent == "verifier")
  }

  predicate IsPassingVerification(t: ToolResult) {
    (t.toolName == "bash" && IsVerificationShell(t.content) && t.status == "success" && ShellPassed(t.content))
    || (t.toolName == "agent" && t.content.agent == "verifier" && PhasePassed(t.content.summary, "verification"))
  }

  predicate IsPassingReview(t: ToolResult) {
    t.toolName == "agent" && t.content.agent == "reviewer" && PhasePassed(t.content.summary, "review")
  }

  /** An edit is a successful `edit` or `write` that does not say it changed nothing. */
  lemma EditMeaning(t: ToolResult)
    ensures IsEdit(t) <==>
            && t.status == "success"
            && ((t.toolName == "edit" && t.content.updated != Some(false))
                || (t.toolName == "write" && t.content.changed != Some(false)))
  {
  }

  const MARKERS := ["pytest", "unittest", " test", " check", "verification"]

  /** A verification command is classified as one, or it or its description mentions a marker. */
  lemma VerificationShellMeaning(content: Content)
    ensures IsVerificationShell(content) <==>
            || content.classification == "test" || content.classification == "build" || content.classification == "lint"
            || exists marker | marker in MARKERS ::
                 Contains(content.command, marker) || Contains(content.description, marker)
  {
    hide Contains;
    assert MARKERS[0] == "pytest" && MARKERS[1] == "unittest" && MARKERS[2] == " test" && MARKERS[3] == " check"
      && MARKERS[4] == "verification";
    if marker :| marker in MARKERS && Mentions(content, marker) {
      assert marker in ["pytest", "unittest", " test", " check", "verification"];
    }
  }

  lemma VerdictsDiffer(summary: string, phase: string)
    ensures !(StartsWith(summary, phase + ": fail") && StartsWith(summary, phase + ": pass"))
  {
    var failed, passed := phase + ": fail", phase + ": pass";
    assert failed[|phase| + 2] == 'f' && passed[|phase| + 2] == 'p';
  }

  /** How a summary is read: its own verdict first, then any failure, then any word of success. */
  lemma PhaseMeaning(summary: string, phase: string)
    ensures StartsWith(summary, phase + ": fail") ==> !PhasePassed(summary, phase)
    ensures StartsWith(summary, phase + ": pass") ==> PhasePassed(summary, phase)
    ensures !StartsWith(summary, phase + ": fail") && !StartsWith(summary, phase + ": pass") ==>
              (PhasePassed(summary, phase) <==>
                 && !StartsWith(summary, "fail") && !Contains(summary, " fail")
                 && (Contains(summary, "pass") || Contains(summary, "no issues")))
  {
    VerdictsDiffer(summary, phase);
    if Contains(summary, "passed") {
      ContainsLonger(summary, "pass", "passed");
    }
    hide Contains;
  }

  /** What passes: a successful verification command that completed with no exit code or zero, or the summary of a
      verifier or reviewer; a job that completed likewise. */
  lemma PassingMeaning(t: ToolResult, job: Job)
    ensures IsPassingVerification(t) <==>
            || (t.toolName == "bash" && t.status == "success" && IsVerificationShell(t.content)
                && t.content.shellStatus == "completed" && (t.content.exitCode.None? || t.content.exitCode == Some(0)))
            || (t.toolName == "agent" && t.content.agent == "verifier"
                && PhasePassed(t.content.summary, "verification"))
    ensures IsPassingReview(t) <==>
            t.toolName == "agent" && t.content.agent == "reviewer" && PhasePassed(t.content.summary, "review")
    ensures job.result.Some? ==>
              var content := job.result.value;
              (JobPassed(job) <==>
                 && job.status == "completed" && content.shellStatus == "completed"
                 && (content.exitCode.None? || content.exitCode == Some(0)))
  {
    hide IsVerificationShell, PhasePassed;
  }

  // ---- the declarative side ------------------------------------------------------------------------

  /** A tool result and the time of its message. */
  type Event = (int, ToolResult)

  function EventsOf(message: Message, count: nat): seq<Event>
    requires count <= |message.results|
  {
    seq(count, k requires 0 <= k < count => (message.createdAt, message.results[k]))
  }

  function Events(messages: seq<Message>): seq<Event> {
    if messages == [] then []
    else
      var last := |messages| - 1;
      Events(messages[..last]) + EventsOf(messages[last], |messages[last].results|)
  }

  function EditTimes(events: seq<Event>): seq<int> {
    if events == [] then []
    else
      var last := |events| - 1;
      EditTimes(events[..last]) + if IsEdit(events[last].1) then [events[last].0] else []
  }

  function Edits(events: seq<Event>): nat {
    |EditTimes(events)|
  }

  function CoveredAt(times: seq<int>, at: int): (covered: nat)
    ensures covered <= |times|
    ensures covered == |times| <==> forall k | 0 <= k < |times| :: times[k] <= at
  {
    if times == [] then 0
    else CoveredAt(times[..|times| - 1], at) + if times[|times| - 1] <= at then 1 else 0
  }

  /** The edits no later than the time, counted. */
  lemma {:induction false} CoveredCounts(times: seq<int>, at: int)
    ensures CoveredAt(times, at) == |set k | 0 <= k < |times| && times[k] <= at|
  {
    var all := set k | 0 <= k < |times| && times[k] <= at;
    if times == [] {
      assert all == {};
    } else {
      var last := |times| - 1;
      var front := times[..last];
      CoveredCounts(front, at);
      var before := set k | 0 <= k < |front| && front[k] <= at;
      assert forall k | 0 <= k < last :: front[k] == times[k];
      assert all == before + if times[last] <= at then {last} else {};
    }
  }

  function JobEnd(job: Job): Option<int> {
    if job.endedAt.Some? then job.endedAt else job.updatedAt
  }

  /** A job the second pass looks at, when `times` are the edits so far. */
  predicate Counted(job: Job, times: seq<int>) {
    job.result.Some? && IsVerificationShell(job.result.value) && JobEnd(job).Some?
    && CoveredAt(times, JobEnd(job).value) >= 1
  }

  predicate JobPassed(job: Job)
    requires job.result.Some?
  {
    job.status == "completed" && ShellPassed(job.result.value)
  }

  predicate IsPassingJob(job: Job, times: seq<int>) {
    Counted(job, times) && JobPassed(job)
  }

  // ---- the two folds -------------------------------------------------------------------------------

  datatype Tally = Tally(
    change: nat,
    verified: nat,
    reviewed: nat,
    times: seq<int>,
    lastVerification: Option<bool>,
    lastReview: Option<bool>)

  function Max(a: nat, b: nat): nat {
    if a >= b then a else b
  }

  function Absorb(t: Tally, e: Event): Tally {
    var (at, r) := e;
    if IsEdit(r) then t.(change := t.change + 1, times := t.times + [at])
    else if IsVerification(r) then
      t.(lastVerification := Some(IsPassingVerification(r)),
         verified := if IsPassingVerification(r) then Max(t.verified, t.change) else t.verified)
    else if r.toolName == "agent" && r.content.agent == "reviewer" then
      t.(lastReview := Some(IsPassingReview(r)),
         reviewed := if IsPassingReview(r) then Max(t.reviewed, t.change) else t.reviewed)
    else t
  }

  function AbsorbAll(events: seq<Event>): Tally {
    if events == [] then Tally(0, 0, 0, [], None, None)
    else Absorb(AbsorbAll(events[..|events| - 1]), events[|events| - 1])
  }

  function AbsorbJob(t: Tally, job: Job): Tally {
    if !Counted(job, t.times) then t
    else t.(lastVerification := Some(JobPassed(job)),
            verified := if JobPassed(job) then Max(t.verified, CoveredAt(t.times, JobEnd(job).value)) else t.verified)
  }

  function AbsorbJobs(t: Tally, jobs: seq<Job>): Tally {
    if jobs == [] then t else AbsorbJob(AbsorbJobs(t, jobs[..|jobs| - 1]), jobs[|jobs| - 1])
  }

  function StateOf(change: nat, verified: nat, reviewed: nat): WorkflowState {
    if change == 0 then Clean
    else if verified < change then PendingVerification
    else if reviewed < change then PendingReview
    else ReadyToSummarize
  }

  function LedgerOf(t: Tally): Ledger {
    Ledger(t.change, t.verified, t.reviewed, StateOf(t.change, t.verified, t.reviewed), t.lastVerification,
        t.lastReview)
  }

  // ---- the order of the jobs -----------------------------------------------------------------------

  /** Comparing the naive minimum, which stands in for missing times, with a real time raises. */
  predicate Unsortable(jobs: seq<Job>) {
    exists a, b | a in jobs && b in jobs :: JobEnd(a).None? && JobEnd(b).Some?
  }

  /** The sort key: the job's end, then its id. */
  predicate JobLe(a: Job, b: Job) {
    match (JobEnd(a), JobEnd(b))
    case (None, None) => TextLe(a.jobId, b.jobId)
    case (None, Some(_)) => true
    case (Some(_), None) => false
    case (Some(x), Some(y)) => x < y || (x == y && TextLe(a.jobId, b.jobId))
  }

  /** A later end comes later, and among equal ends the later id. */
  lemma JobOrderMeaning(a: Job, b: Job)
    requires JobEnd(a).Some? && JobEnd(b).Some? && JobLe(a, b)
    ensures JobEnd(a).value <= JobEnd(b).value
    ensures JobEnd(a) == JobEnd(b) ==> TextLe(a.jobId, b.jobId)
  {
  }

  function InsertJob(jobs: seq<Job>, job: Job): (r: seq<Job>)
    ensures multiset(r) == multiset(jobs) + multiset{job}
  {
    if jobs == [] || JobLe(jobs[|jobs| - 1], job) then jobs + [job]
    else
      var last := |jobs| - 1;
      assert jobs == jobs[..last] + [jobs[last]];
      InsertJob(jobs[..last], job) + [jobs[last]]
  }

  /** A stable sort by end time and id. */
  function SortJobs(jobs: seq<Job>): (r: seq<Job>)
    ensures multiset(r) == multiset(jobs)
  {
    if jobs == [] then []
    else
      assert jobs == jobs[..|jobs| - 1] + [jobs[|jobs| - 1]];
      InsertJob(SortJobs(jobs[..|jobs| - 1]), jobs[|jobs| - 1])
  }

  function TallyOf(messages: seq<Message>, jobs: seq<Job>): Tally {
    AbsorbJobs(AbsorbAll(Events(messages)), SortJobs(jobs))
  }

  function BuildLedger(messages: seq<Message>, jobs: seq<Job>): Ledger {
    LedgerOf(TallyOf(messages, jobs))
  }

  // ---- the source's loops --------------------------------------------------------------------------

  method CoveredRevisionAt(revisionTimes: seq<int>, eventTime: int) returns (covered: nat)
    ensures covered == CoveredAt(revisionTimes, eventTime)
  {
    covered := 0;
    for k := 0 to |revisionTimes|
      invariant covered == CoveredAt(revisionTimes[..k], eventTime)
    {
      assert revisionTimes[..k + 1][..k] == revisionTimes[..k];
      if revisionTimes[k] <= eventTime {
        covered := covered + 1;
      }
    }
    assert revisionTimes[..|revisionTimes|] == revisionTimes;
  }

  /** One tool result of the first pass, with the source's order of tests. */
  method ReadToolResult(before: Tally, createdAt: int, r: ToolResult) returns (t: Tally)
    ensures t == Absorb(before, (createdAt, r))
  {
    t := before;
    var toolName, status, content := r.toolName, r.status, r.content;
    if (toolName == "edit" || toolName == "write") && status == "success" && MateriallyChanged(toolName, content) {
      return t.(change := t.change + 1, times := t.times + [createdAt]);
    }
    if toolName == "bash" && IsVerificationShell(content) {
      var passed := status == "success" && ShellPassed(content);
      t := t.(lastVerification := Some(passed));
      if passed {
        t := t.(verified := Max(t.verified, t.change));
      }
      return;
    }
    if toolName != "agent" {
      return;
    }
    if content.agent == "verifier" {
      var passed := PhasePassed(content.summary, "verification");
      t := t.(lastVerification := Some(passed));
      if passed {
        t := t.(verified := Max(t.verified, t.change));
      }
    } else if content.agent == "reviewer" {
      var passed := PhasePassed(content.summary, "review");
      t := t.(lastReview := Some(passed));
      if passed {
        t := t.(reviewed := Max(t.reviewed, t.change));
      }
    }
  }

  lemma OneMoreResult(before: seq<Event>, message: Message, k: nat)
    requires k < |message.results|
    ensures AbsorbAll(before + EventsOf(message, k + 1)) ==
            Absorb(AbsorbAll(before + EventsOf(message, k)), (message.createdAt, message.results[k]))
  {
    hide Absorb;
    var all := before + EventsOf(message, k + 1);
    assert all[..|all| - 1] == before + EventsOf(message, k);
  }

  method ReadMessage(ghost before: seq<Event>, start: Tally, message: Message) returns (t: Tally)
    requires start == AbsorbAll(before)
    ensures t == AbsorbAll(before + EventsOf(message, |message.results|))
  {
    assert before + EventsOf(message, 0) == before;
    hide Absorb, AbsorbAll, EventsOf;
    t := start;
    for k := 0 to |message.results|
      invariant t == AbsorbAll(before + EventsOf(message, k))
    {
      t := ReadToolResult(t, message.createdAt, message.results[k]);
      OneMoreResult(before, message, k);
    }
  }

  method ReadMessages(messages: seq<Message>) returns (t: Tally)
    ensures t == AbsorbAll(Events(messages))
  {
    hide Absorb, EventsOf;
    t := Tally(0, 0, 0, [], None, None);
    for m := 0 to |messages|
      invariant t == AbsorbAll(Events(messages[..m]))
    {
      assert messages[..m + 1][..m] == messages[..m];
      t := ReadMessage(Events(messages[..m]), t, messages[m]);
    }
    assert messages[..|messages|] == messages;
  }

  /** The ledger, or None where sorting the jobs raises. */
  method BuildWorkflowLedger(messages: seq<Message>, jobs: seq<Job>) returns (ledger: Option<Ledger>)
    ensures ledger == if Unsortable(jobs) then None else Some(BuildLedger(messages, jobs))
  {
    hide AbsorbJob, AbsorbAll, Events, SortJobs;
    var t := ReadMessages(messages);
    if Unsortable(jobs) {
      return None;
    }
    var sorted := SortJobs(jobs);
    ghost var first := t;
    for k := 0 to |sorted|
      invariant t == AbsorbJobs(first, sorted[..k])
    {
      assert sorted[..k + 1][..k] == sorted[..k];
      t := ReadJob(t, sorted[k]);
    }
    assert sorted[..|sorted|] == sorted;
    ledger := Some(LedgerOf(t));
  }

  method ReadJob(before: Tally, job: Job) returns (t: Tally)
    ensures t == AbsorbJob(before, job)
  {
    t := before;
    if job.result.None? || !IsVerificationShell(job.result.value) {
      return;
    }
    var endedAt := if job.endedAt.Some? then job.endedAt else job.updatedAt;
    if endedAt.None? {
      return;
    }
    var covered := CoveredRevisionAt(t.times, endedAt.value);
    if covered < 1 {
      return;
    }
    var passed := job.status == "completed" && ShellPassed(job.result.value);
    t := t.(lastVerification := Some(passed));
    if passed {
      t := t.(verified := Max(t.verified, covered));
    }
  }

  // ---- what the counters mean ----------------------------------------------------------------------

  /** Some event of the kind is preceded by at least `r` edits. */
  ghost predicate ReachedBy(events: seq<Event>, kind: ToolResult -> bool, r: nat) {
    exists k | 0 <= k < |events| :: kind(events[k].1) && Edits(events[..k]) >= r
  }

  lemma ReachedByAppend(events: seq<Event>, e: Event, kind: ToolResult -> bool, r: nat)
    ensures ReachedBy(events + [e], kind, r) <==> ReachedBy(events, kind, r) || (kind(e.1) && Edits(events) >= r)
  {
    var all := events + [e];
    assert forall k | 0 <= k <= |events| :: all[..k] == events[..k];
    assert events[..|events|] == events;
    if ReachedBy(events, kind, r) {
      var k :| 0 <= k < |events| && kind(events[k].1) && Edits(events[..k]) >= r;
      assert kind(all[k].1) && Edits(all[..k]) >= r;
    }
    if kind(e.1) && Edits(events) >= r {
      assert kind(all[|events|].1) && Edits(all[..|events|]) >= r;
    }
  }

  /** After the first pass each counter is the largest number of edits that some passing event follows. */
  lemma {:induction false} FirstPassMeaning(events: seq<Event>, r: nat)
    ensures var t := AbsorbAll(events);
            && t.times == EditTimes(events) && t.change == Edits(events)
            && (t.verified >= r <==> r == 0 || ReachedBy(events, IsPassingVerification, r))
            && (t.reviewed >= r <==> r == 0 || ReachedBy(events, IsPassingReview, r))
  {
    if events == [] {
    } else {
      var front, e := events[..|events| - 1], events[|events| - 1];
      assert events == front + [e];
      FirstPassMeaning(front, r);
      ReachedByAppend(front, e, IsPassingVerification, r);
      ReachedByAppend(front, e, IsPassingReview, r);
    }
  }

  predicate IsReview(t: ToolResult) {
    t.toolName == "agent" && t.content.agent == "reviewer"
  }

  /** The event is the last of its kind. */
  ghost predicate LastOfKind(events: seq<Event>, kind: ToolResult -> bool, k: nat) {
    k < |events| && kind(events[k].1) && forall m | k < m < |events| :: !kind(events[m].1)
  }

  lemma LastOfKindAppend(events: seq<Event>, e: Event, kind: ToolResult -> bool, k: nat)
    ensures LastOfKind(events + [e], kind, k) <==>
            if kind(e.1) then k == |events| else LastOfKind(events, kind, k)
  {
    var all := events + [e];
    assert all[|events|] == e && forall m | 0 <= m < |events| :: all[m] == events[m];
  }

  /** After the first pass each label is that of the last review and of the last verification, if there is one. */
  lemma {:induction false} FirstPassLabels(events: seq<Event>, k: nat)
    ensures LastOfKind(events, IsReview, k) ==> AbsorbAll(events).lastReview == Some(IsPassingReview(events[k].1))
    ensures LastOfKind(events, IsVerification, k) ==>
              AbsorbAll(events).lastVerification == Some(IsPassingVerification(events[k].1))
    ensures (forall m | 0 <= m < |events| :: !IsReview(events[m].1)) ==> AbsorbAll(events).lastReview.None?
    ensures (forall m | 0 <= m < |events| :: !IsVerification(events[m].1)) ==> AbsorbAll(events).lastVerification.None?
  {
    hide IsVerificationShell, PhasePassed, ShellPassed, MateriallyChanged;
    if events == [] {
    } else {
      var front, e := events[..|events| - 1], events[|events| - 1];
      assert events == front + [e];
      FirstPassLabels(front, k);
      LastOfKindAppend(front, e, IsReview, k);
      LastOfKindAppend(front, e, IsVerification, k);
      hide LastOfKind;
    }
  }

  lemma {:induction false} SecondPassMeaning(t: Tally, jobs: seq<Job>, r: nat)
    ensures var u := AbsorbJobs(t, jobs);
            && u.times == t.times && u.change == t.change && u.reviewed == t.reviewed && u.lastReview == t.lastReview
            && (u.verified >= r <==> t.verified >= r || exists job | job in jobs ::
                  IsPassingJob(job, t.times) && CoveredAt(t.times, JobEnd(job).value) >= r)
  {
    if jobs == [] {
    } else {
      var front, job := jobs[..|jobs| - 1], jobs[|jobs| - 1];
      assert jobs == front + [job];
      SecondPassMeaning(t, front, r);
    }
  }

  lemma SameMembers(a: seq<Job>, b: seq<Job>)
    requires multiset(a) == multiset(b)
    ensures forall job :: job in a <==> job in b
  {
    forall job ensures job in a <==> job in b {
      assert job in multiset(a) <==> job in multiset(b);
    }
  }

  /** The numbers of the ledger, stated without the folds: they determine all three revisions. */
  lemma LedgerMeaning(messages: seq<Message>, jobs: seq<Job>, r: nat)
    ensures var ledger, events := BuildLedger(messages, jobs), Events(messages);
            var times := EditTimes(events);
            && ledger.changeRevision == |times|
            && (ledger.reviewedRevision >= r <==> r == 0 || ReachedBy(events, IsPassingReview, r))
            && (ledger.verifiedRevision >= r <==>
                  r == 0 || ReachedBy(events, IsPassingVerification, r)
                  || exists job | job in jobs :: IsPassingJob(job, times) && CoveredAt(times, JobEnd(job).value) >= r)
  {
    hide IsPassingJob, ReachedBy, AbsorbAll, AbsorbJobs, SortJobs, Events, EditTimes;
    FirstPassMeaning(Events(messages), r);
    SecondPassMeaning(AbsorbAll(Events(messages)), SortJobs(jobs), r);
    SameMembers(SortJobs(jobs), jobs);
  }

  /** An event of the kind comes after the last edit. */
  ghost predicate FollowsLastEdit(events: seq<Event>, kind: ToolResult -> bool) {
    exists k | 0 <= k < |events| ::
      kind(events[k].1) && forall m | k <= m < |events| :: !IsEdit(events[m].1)
  }

  lemma {:induction false} NoEditsAfter(events: seq<Event>, k: nat)
    requires k <= |events|
    ensures Edits(events[..k]) <= Edits(events)
    ensures Edits(events[..k]) == Edits(events) <==> forall m | k <= m < |events| :: !IsEdit(events[m].1)
  {
    if k < |events| {
      var front := events[..|events| - 1];
      NoEditsAfter(front, k);
      assert front[..k] == events[..k];
      assert forall m | k <= m < |front| :: front[m] == events[m];
    } else {
      assert events[..k] == events;
    }
  }

  lemma ReachedAllEdits(events: seq<Event>, kind: ToolResult -> bool)
    requires forall t :: kind(t) ==> !IsEdit(t)
    ensures ReachedBy(events, kind, Edits(events)) <==> FollowsLastEdit(events, kind)
  {
    forall k | 0 <= k < |events|
      ensures Edits(events[..k]) >= Edits(events) <==> forall m | k <= m < |events| :: !IsEdit(events[m].1)
    {
      NoEditsAfter(events, k);
    }
  }

  lemma PassingNeverEdits()
    ensures forall t :: IsPassingReview(t) || IsPassingVerification(t) ==> !IsEdit(t)
  {
    hide IsVerificationShell, ShellPassed, PhasePassed, MateriallyChanged;
  }

  /** The workflow is ready exactly when there is an edit, a passing review follows the last edit, and either a
      passing verification follows it or a passing verification job ended no earlier than every edit. */
  lemma ReadyMeaning(messages: seq<Message>, jobs: seq<Job>)
    ensures var events := Events(messages);
            var times := EditTimes(events);
            BuildLedger(messages, jobs).state == ReadyToSummarize <==>
              times != []
              && FollowsLastEdit(events, IsPassingReview)
              && (FollowsLastEdit(events, IsPassingVerification)
                  || exists job | job in jobs ::
                       job.result.Some? && IsVerificationShell(job.result.value) && JobPassed(job) && JobEnd(job).Some?
                       && forall k | 0 <= k < |times| :: times[k] <= JobEnd(job).value)
  {
    var events := Events(messages);
    var times := EditTimes(events);
    PassingNeverEdits();
    hide Events, EditTimes, CoveredAt, FollowsLastEdit, ReachedBy, JobPassed, IsVerificationShell, JobEnd, IsEdit,
         IsPassingReview, IsPassingVerification, TallyOf;
    LedgerMeaning(messages, jobs, |times|);
    ReachedAllEdits(events, IsPassingReview);
    ReachedAllEdits(events, IsPassingVerification);
  }

  // ---- every state, and the words it is told in ----------------------------------------------------

  /** The job ended at the time, or was last updated then if it has no end. */
  predicate EndedAt(job: Job, at: int) {
    job.endedAt == Some(at) || (job.endedAt.None? && job.updatedAt == Some(at))
  }

  /** A passing verification job ended no earlier than every edit. */
  ghost predicate JobCoversEdits(jobs: seq<Job>, times: seq<int>) {
    exists job, at | job in jobs && EndedAt(job, at) ::
      job.result.Some? && IsVerificationShell(job.result.value) && JobPassed(job)
      && forall k | 0 <= k < |times| :: times[k] <= at
  }

  lemma JobEndsAt(job: Job, at: int)
    ensures JobEnd(job) == Some(at) <==> EndedAt(job, at)
  {
  }

  /** The state of the workflow, whichever it is: clean without an edit; otherwise pending verification unless a passing
      verification follows the last edit or a passing job covers every edit; otherwise pending review unless a passing
      review follows the last edit; otherwise ready. */
  lemma StateMeaning(messages: seq<Message>, jobs: seq<Job>)
    ensures var events := Events(messages);
            var times := EditTimes(events);
            var verified := FollowsLastEdit(events, IsPassingVerification) || JobCoversEdits(jobs, times);
            var reviewed := FollowsLastEdit(events, IsPassingReview);
            var state := BuildLedger(messages, jobs).state;
            && (state == Clean <==> times == [])
            && (state == PendingVerification <==> times != [] && !verified)
            && (state == PendingReview <==> times != [] && verified && !reviewed)
            && (state == ReadyToSummarize <==> times != [] && verified && reviewed)
  {
    hide BuildLedger, Events, EditTimes, FollowsLastEdit, JobCoversEdits;
    StateByCounters(messages, jobs);
    AllEditsCounted(messages, jobs);
  }

  lemma StateByCounters(messages: seq<Message>, jobs: seq<Job>)
    ensures var ledger := BuildLedger(messages, jobs);
            && ledger.verifiedRevision <= ledger.changeRevision && ledger.reviewedRevision <= ledger.changeRevision
            && (ledger.state == Clean <==> ledger.changeRevision == 0)
            && (ledger.state == PendingVerification <==>
                  ledger.changeRevision > 0 && ledger.verifiedRevision < ledger.changeRevision)
            && (ledger.state == PendingReview <==>
                  && ledger.changeRevision > 0 && ledger.verifiedRevision == ledger.changeRevision
                  && ledger.reviewedRevision < ledger.changeRevision)
            && (ledger.state == ReadyToSummarize <==>
                  && ledger.changeRevision > 0 && ledger.verifiedRevision == ledger.changeRevision
                  && ledger.reviewedRevision == ledger.changeRevision)
  {
    hide TallyOf;
    RevisionsBounded(messages, jobs);
  }

  lemma AllEditsCounted(messages: seq<Message>, jobs: seq<Job>)
    ensures var events := Events(messages);
            var ledger, times := BuildLedger(messages, jobs), EditTimes(events);
            && ledger.changeRevision == |times|
            && (times != [] ==>
                  && (ledger.verifiedRevision >= |times| <==>
                        FollowsLastEdit(events, IsPassingVerification) || JobCoversEdits(jobs, times))
                  && (ledger.reviewedRevision >= |times| <==> FollowsLastEdit(events, IsPassingReview)))
  {
    var events := Events(messages);
    var times := EditTimes(events);
    PassingNeverEdits();
    hide BuildLedger, Events, EditTimes, FollowsLastEdit, ReachedBy, JobCoversEdits, IsEdit, IsPassingJob,
         IsPassingReview, IsPassingVerification;
    LedgerMeaning(messages, jobs, |times|);
    ReachedAllEdits(events, IsPassingReview);
    ReachedAllEdits(events, IsPassingVerification);
    if times != [] {
      JobsCover(jobs, times);
    }
  }

  /** A job that passes and covers all edits, in the words of the second pass. */
  lemma JobsCover(jobs: seq<Job>, times: seq<int>)
    requires times != []
    ensures (exists job | job in jobs ::
               IsPassingJob(job, times) && CoveredAt(times, JobEnd(job).value) >= |times|) <==>
            JobCoversEdits(jobs, times)
  {
    hide IsVerificationShell, JobPassed;
    if job :| job in jobs && IsPassingJob(job, times) && CoveredAt(times, JobEnd(job).value) >= |times| {
      JobEndsAt(job, JobEnd(job).value);
      assert EndedAt(job, JobEnd(job).value);
    }
    if JobCoversEdits(jobs, times) {
      var job, at :| job in jobs && EndedAt(job, at) && job.result.Some? && IsVerificationShell(job.result.value)
        && JobPassed(job) && forall k | 0 <= k < |times| :: times[k] <= at;
      JobEndsAt(job, at);
      assert CoveredAt(times, at) == |times|;
    }
  }

  /** Neither revision runs ahead of the edits. */
  lemma RevisionsBounded(messages: seq<Message>, jobs: seq<Job>)
    ensures var ledger := BuildLedger(messages, jobs);
            ledger.verifiedRevision <= ledger.changeRevision && ledger.reviewedRevision <= ledger.changeRevision
  {
    var r := |EditTimes(Events(messages))| + 1;
    LedgerMeaning(messages, jobs, r);
    forall k | 0 <= k < |Events(messages)| ensures Edits(Events(messages)[..k]) < r {
      NoEditsAfter(Events(messages), k);
    }
  }

  // ---- stability -----------------------------------------------------------------------------------

  lemma {:induction false} EventsAppend(messages: seq<Message>, more: seq<Message>)
    ensures Events(messages) <= Events(messages + more)
  {
    if more == [] {
      assert messages + more == messages;
    } else {
      var last := |messages + more| - 1;
      assert (messages + more)[..last] == messages + more[..|more| - 1];
      EventsAppend(messages, more[..|more| - 1]);
    }
  }

  lemma {:induction false} TimesGrow(events: seq<Event>, k: nat)
    requires k <= |events|
    ensures EditTimes(events[..k]) <= EditTimes(events)
  {
    if k < |events| {
      TimesGrow(events[..|events| - 1], k);
      assert events[..|events| - 1][..k] == events[..k];
    } else {
      assert events[..k] == events;
    }
  }

  lemma {:induction false} CoverGrows(times: seq<int>, k: nat, at: int)
    requires k <= |times|
    ensures CoveredAt(times[..k], at) <= CoveredAt(times, at)
  {
    if k < |times| {
      CoverGrows(times[..|times| - 1], k, at);
      assert times[..|times| - 1][..k] == times[..k];
    } else {
      assert times[..k] == times;
    }
  }

  lemma ReachedGrows(events: seq<Event>, all: seq<Event>, kind: ToolResult -> bool, r: nat)
    requires events <= all && ReachedBy(events, kind, r)
    ensures ReachedBy(all, kind, r)
  {
    var k :| 0 <= k < |events| && kind(events[k].1) && Edits(events[..k]) >= r;
    assert all[..k] == events[..k];
    assert kind(all[k].1) && Edits(all[..k]) >= r;
  }

  /** Appending messages or jobs lowers none of the three revisions. */
  lemma RevisionsNeverFall(messages: seq<Message>, more: seq<Message>, jobs: seq<Job>, moreJobs: seq<Job>)
    ensures var before, after := BuildLedger(messages, jobs), BuildLedger(messages + more, jobs + moreJobs);
            before.changeRevision <= after.changeRevision
            && before.verifiedRevision <= after.verifiedRevision
            && before.reviewedRevision <= after.reviewedRevision
  {
    hide BuildLedger, ReachedBy, IsVerificationShell, JobPassed;
    var before := BuildLedger(messages, jobs);
    var events, all := Events(messages), Events(messages + more);
    var times, allTimes := EditTimes(events), EditTimes(all);
    EventsAppend(messages, more);
    TimesGrow(all, |events|);
    assert all[..|events|] == events && allTimes[..|times|] == times;
    forall r: nat
      ensures ReachedBy(events, IsPassingVerification, r) ==> ReachedBy(all, IsPassingVerification, r)
      ensures ReachedBy(events, IsPassingReview, r) ==> ReachedBy(all, IsPassingReview, r)
    {
      if ReachedBy(events, IsPassingVerification, r) { ReachedGrows(events, all, IsPassingVerification, r); }
      if ReachedBy(events, IsPassingReview, r) { ReachedGrows(events, all, IsPassingReview, r); }
    }
    forall at ensures CoveredAt(times, at) <= CoveredAt(allTimes, at) {
      CoverGrows(allTimes, |times|, at);
    }
    assert forall job | job in jobs :: job in jobs + moreJobs;
    LedgerMeaning(messages, jobs, before.verifiedRevision);
    LedgerMeaning(messages + more, jobs + moreJobs, before.verifiedRevision);
    LedgerMeaning(messages, jobs, before.reviewedRevision);
    LedgerMeaning(messages + more, jobs + moreJobs, before.reviewedRevision);
  }

  /** The order in which the jobs are listed changes no number and no state. */
  lemma NumbersIgnoreJobOrder(messages: seq<Message>, jobs: seq<Job>, permuted: seq<Job>)
    requires multiset(jobs) == multiset(permuted)
    ensures var a, b := BuildLedger(messages, jobs), BuildLedger(messages, permuted);
            a.changeRevision == b.changeRevision && a.verifiedRevision == b.verifiedRevision
            && a.reviewedRevision == b.reviewedRevision && a.state == b.state
                && a.lastReviewPassed == b.lastReviewPassed
  {
    SameMembers(jobs, permuted);
    var a, b := BuildLedger(messages, jobs), BuildLedger(messages, permuted);
    LedgerMeaning(messages, jobs, a.verifiedRevision);
    LedgerMeaning(messages, permuted, a.verifiedRevision);
    LedgerMeaning(messages, jobs, b.verifiedRevision);
    LedgerMeaning(messages, permuted, b.verifiedRevision);
    SecondPassMeaning(AbsorbAll(Events(messages)), SortJobs(jobs), 0);
    SecondPassMeaning(AbsorbAll(Events(messages)), SortJobs(permuted), 0);
  }

  // ---- the last label ------------------------------------------------------------------------------

  lemma JobOrder(a: Job, b: Job, c: Job)
    ensures JobLe(a, b) || JobLe(b, a)
    ensures JobLe(a, b) && JobLe(b, c) ==> JobLe(a, c)
  {
    TextOrder(a.jobId, b.jobId, c.jobId);
  }

  ghost predicate Sorted(jobs: seq<Job>) {
    forall i, j | 0 <= i < j < |jobs| :: JobLe(jobs[i], jobs[j])
  }

  lemma {:induction false} InsertSorted(jobs: seq<Job>, job: Job)
    requires Sorted(jobs)
    ensures Sorted(InsertJob(jobs, job))
  {
    hide JobLe;
    if jobs == [] {
    } else {
      var last := |jobs| - 1;
      if JobLe(jobs[last], job) {
        forall i | 0 <= i < last ensures JobLe(jobs[i], job) { JobOrder(jobs[i], jobs[last], job); }
      } else {
        JobOrder(jobs[last], job, job);
        InsertSorted(jobs[..last], job);
        var rest := InsertJob(jobs[..last], job);
        forall i | 0 <= i < |rest| ensures JobLe(rest[i], jobs[last]) {
          assert rest[i] in multiset(rest);
          assert rest[i] == job || rest[i] in jobs[..last];
        }
      }
    }
  }

  lemma {:induction false} SortJobsSorted(jobs: seq<Job>)
    ensures Sorted(SortJobs(jobs))
  {
    if jobs == [] {
    } else {
      SortJobsSorted(jobs[..|jobs| - 1]);
      InsertSorted(SortJobs(jobs[..|jobs| - 1]), jobs[|jobs| - 1]);
    }
  }

  lemma {:induction false} LabelFromJobs(t: Tally, jobs: seq<Job>)
    requires Sorted(jobs)
    ensures var outcome := AbsorbJobs(t, jobs).lastVerification;
            if exists job | job in jobs :: Counted(job, t.times)
            then exists job | job in jobs :: Counted(job, t.times) && outcome == Some(JobPassed(job))
                   && forall other | other in jobs && Counted(other, t.times) :: JobLe(other, job) || other == job
            else outcome == t.lastVerification
  {
    hide JobLe, Counted, JobPassed;
    if jobs == [] {
    } else {
      var front, job := jobs[..|jobs| - 1], jobs[|jobs| - 1];
      assert jobs == front + [job];
      LabelFromJobs(t, front);
      SecondPassMeaning(t, front, 0);
      forall other | other in front ensures JobLe(other, job) {
        var i :| 0 <= i < |front| && front[i] == other;
        assert JobLe(jobs[i], jobs[|jobs| - 1]);
      }
    }
  }

  /** The last verification label comes from the latest counted job, or from the messages if there is none. */
  lemma LastLabelMeaning(messages: seq<Message>, jobs: seq<Job>)
    ensures var t := AbsorbAll(Events(messages));
            var outcome := BuildLedger(messages, jobs).lastVerificationPassed;
            if exists job | job in jobs :: Counted(job, t.times)
            then exists job | job in jobs :: Counted(job, t.times) && outcome == Some(JobPassed(job))
                   && forall other | other in jobs && Counted(other, t.times) :: JobLe(other, job) || other == job
            else outcome == t.lastVerification
  {
    hide JobLe, Counted, JobPassed, AbsorbAll, AbsorbJobs, SortJobs, Events, Sorted;
    SortJobsSorted(jobs);
    LabelFromJobs(AbsorbAll(Events(messages)), SortJobs(jobs));
    SameMembers(SortJobs(jobs), jobs);
  }
}
