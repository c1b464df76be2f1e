/** What every event keeps: the shape of one job's steps, and first-come-first-served use of a workspace. */
module JobInvariants {
  import opened Wrappers

  import opened JobProtocol

  // ---- One job ----

  /** Read in step-number order: settled steps, then at most one step in progress, then untouched ones. */
  predicate InOrder(steps: seq<Step>) {
    forall a, b ::
      0 <= a < |steps| && 0 <= b < |steps| && steps[a].number < steps[b].number && steps[b].status != StepPending
      ==> IsSettled(steps[a].status)
  }

  /** Steps in progress are of the right type, and while the job lives no step failed, was cancelled or rejected. */
  predicate LiveSteps(job: Job) {
    forall i :: 0 <= i < |job.steps| ==>
      && job.steps[i].status in {StepPending, StepRunning, StepWaiting, StepCompleted, StepNotExecuted}
      && (job.steps[i].status == StepRunning ==> StepTypeOf(job.tcl, job.steps[i].number) !in {Approval, Skipped})
      && (job.steps[i].status == StepWaiting ==> StepTypeOf(job.tcl, job.steps[i].number) == Approval)
  }

  predicate Live(job: Job) {
    && LiveSteps(job)
    && InOrder(job.steps)
    && (Has(job.steps, {StepRunning}) <==> job.status == Running)
    && (Has(job.steps, {StepWaiting}) <==> job.status in {WaitingApproval, Approved})
  }

  predicate JobOk(job: Job) {
    && DistinctNumbers(job.steps)
    && (IsTerminal(job.status) ==> !Has(job.steps, {StepWaiting}))
    && (!IsTerminal(job.status) ==> Live(job))
  }

  /** A job has begun when it holds or has held the workspace and is not finished. */
  predicate Begun(job: Job) {
    IsActive(job.status) ||
        (job.status == Pending && exists i :: 0 <= i < |job.steps| && job.steps[i].status != StepPending)
  }

  lemma EarlierStepsSettled(job: Job, i: nat)
    requires JobOk(job) && job.status == Queue && FirstPending(job.steps) == Some(i)
    ensures forall k :: 0 <= k < |job.steps| ==>
              job.steps[k].status != StepRunning && job.steps[k].status != StepWaiting
    ensures forall a :: 0 <= a < |job.steps| && job.steps[a].number < job.steps[i].number
                        ==> job.steps[a].status in {StepCompleted, StepNotExecuted}
  {
    forall k | 0 <= k < |job.steps| ensures job.steps[k].status != StepRunning && job.steps[k].status != StepWaiting {
      assert !Has(job.steps, {StepRunning}) && !Has(job.steps, {StepWaiting});
      assert job.steps[k].status !in {StepRunning} && job.steps[k].status !in {StepWaiting};
    }
  }

  lemma SettingTheFirstPending(job: Job, i: nat, to: StepStatus, status: JobStatus)
    requires JobOk(job) && job.status == Queue && FirstPending(job.steps) == Some(i)
    requires
      || (to == StepRunning && StepTypeOf(job.tcl, job.steps[i].number) !in {Approval, Skipped} && status == Running)
      || (to == StepWaiting && StepTypeOf(job.tcl, job.steps[i].number) == Approval && status == WaitingApproval)
      || (to == StepNotExecuted && status == Queue)
    ensures JobOk(SetStep(job, i, to).(status := status))
  {
    EarlierStepsSettled(job, i);
    var after := SetStep(job, i, to).(status := status);
    assert after.steps[i].status == to;
    assert InOrder(after.steps);
    assert Has(after.steps, {StepRunning}) <==> to == StepRunning;
    assert Has(after.steps, {StepWaiting}) <==> to == StepWaiting;
  }

  lemma CompletingTheStep(job: Job, i: nat, status: JobStatus)
    requires JobOk(job) && !IsTerminal(job.status) && i < |job.steps|
    requires job.steps[i].status in {StepRunning, StepWaiting} && status in {Pending, Queue}
    ensures JobOk(SetStep(job, i, StepCompleted).(status := status))
  {
    var after := SetStep(job, i, StepCompleted).(status := status);
    forall k | 0 <= k < |job.steps| && k != i
      ensures after.steps[k] == job.steps[k] && after.steps[k].status !in {StepRunning, StepWaiting}
    {
      assert job.steps[k].number != job.steps[i].number;
    }
  }

  lemma PollKeepsOk(job: Job, older: bool, locked: bool, backend: bool)
    requires JobOk(job)
    ensures JobOk(PollEffect(job, older, locked, backend).job)
  {
    match job.status
    case Approved =>
      var i := FirstWaiting(job.steps).value;
      CompletingTheStep(job, i, Queue);
      var after := SetStep(job, i, StepCompleted);
      forall k | 0 <= k < |job.steps| ensures SetWhere(job.steps, {StepWaiting}, StepCompleted)[k] == after.steps[k] {
        assert k != i ==> job.steps[k].number != job.steps[i].number;
      }
      assert SetWhere(job.steps, {StepWaiting}, StepCompleted) == after.steps;
    case Queue =>
      assert !Has(job.steps, {StepRunning}) && !Has(job.steps, {StepWaiting});
      var first := FirstPending(job.steps);
      if first.Some? {
        var i := first.value;
        match StepTypeOf(job.tcl, job.steps[i].number)
        case Approval =>
          SettingTheFirstPending(job, i, if job.autoApply then StepNotExecuted else StepWaiting,
                                 if job.autoApply then Queue else WaitingApproval);
          if job.autoApply { AdvanceKeepsOk(SetStep(job, i, StepNotExecuted)); }
        case Skipped =>
          SettingTheFirstPending(job, i, StepNotExecuted, Queue);
          AdvanceKeepsOk(SetStep(job, i, StepNotExecuted));
        case _ =>
          SettingTheFirstPending(job, i, StepRunning, Running);
      }
    case _ =>
  }

  lemma AdvanceKeepsOk(job: Job)
    requires JobOk(job) && job.status == Queue
    ensures JobOk(AdvanceEffect(job).job)
  {
    if Has(job.steps, {StepWaiting}) { assert Has(job.steps, {StepPending, StepRunning, StepWaiting}); }
  }

  lemma ReportKeepsOk(job: Job, i: nat, report: Report)
    requires JobOk(job) && JobEnabled(job, Reported(i, report))
    ensures JobOk(ReportEffect(job, i, report).job)
  {
    assert !Has(job.steps, {StepWaiting});
    match report
    case Started =>
      assert SetStep(job, i, StepRunning).steps == job.steps;
    case PlanHasChanges => CompletingTheStep(job, i, Pending);
    case _ =>
  }

  lemma RequestsKeepOk(job: Job)
    requires JobOk(job)
    ensures JobOk(ApproveEffect(job).job)
    ensures JobOk(RejectEffect(job).job)
  {
    var w := FirstWaiting(job.steps);
    if w.Some? {
      CompletingTheStep(job, w.value, Queue);
      forall k | 0 <= k < |job.steps| && k != w.value ensures job.steps[k].status != StepWaiting {
        assert job.steps[k].number != job.steps[w.value].number;
      }
    }
  }

  lemma EndingKeepsOk(job: Job)
    requires JobOk(job)
    ensures JobOk(CancelRunEffect(job).job)
    ensures JobOk(DiscardEffect(job).job)
    ensures JobOk(PatchEffect(job, Cancelled).job)
    ensures JobOk(PatchEffect(job, Rejected).job)
  {
    if job.status in {Running, Queue, Pending} { assert !Has(job.steps, {StepWaiting}); }
  }

  /** Every event keeps a job's own invariant, and a terminal job stays terminal. */
  lemma EffectKeepsOk(job: Job, e: JobEvent, older: bool, locked: bool)
    requires JobOk(job) && JobEnabled(job, e)
    ensures JobOk(JobEffect(job, e, older, locked).job)
    ensures IsTerminal(job.status) ==> IsTerminal(JobEffect(job, e, older, locked).job.status)
  {
    match e
    case Poll(backend) => PollKeepsOk(job, older, locked, backend);
    case Reported(i, report) => ReportKeepsOk(job, i, report);
    case Approve => RequestsKeepOk(job);
    case Reject => RequestsKeepOk(job);
    case DispatchFailed(i) =>
      assert !Has(job.steps, {StepWaiting});
    case Patch(to) => EndingKeepsOk(job);
    case CancelRun => EndingKeepsOk(job);
    case DiscardRun => EndingKeepsOk(job);
  }

  // ---- All jobs of a database ----

  predicate Ok(db: Db) {
    && (forall id :: 0 <= id < |db.jobs| ==> JobOk(db.jobs[id]))
    && (forall id :: 0 <= id < |db.jobs| && Begun(db.jobs[id]) ==> !OlderActive(db, id))
  }

  /** A job only begins through a poll that saw every older job of the workspace finished. */
  lemma BeginningNeedsATurn(job: Job, e: JobEvent, older: bool, locked: bool)
    requires JobOk(job) && JobEnabled(job, e)
    requires Begun(JobEffect(job, e, older, locked).job) && !Begun(job)
    ensures !older
  {
    var after := JobEffect(job, e, older, locked).job;
    if IsTerminal(job.status) {
      EffectKeepsOk(job, e, older, locked);
      assert false;
    }
    assert job.status == Pending;
    assert !Has(job.steps, {StepWaiting});
  }

  lemma NextKeepsOk(db: Db, e: Event)
    requires Ok(db) && Enabled(db, e)
    ensures Ok(Next(db, e))
  {
    var after := Next(db, e);
    match e
    case On(id, what) =>
      var job := db.jobs[id];
      var older, locked := OlderActive(db, id), job.ws in db.locked;
      EffectKeepsOk(job, what, older, locked);
      EventStays(job, what, older, locked);
      forall k | 0 <= k < |db.jobs| && Begun(after.jobs[k]) ensures !OlderActive(after, k) {
        if k == id && !Begun(job) { BeginningNeedsATurn(job, what, older, locked); }
        assert !OlderActive(db, k);
      }
    case _ =>
      forall k | 0 <= k < |after.jobs| && Begun(after.jobs[k]) ensures !OlderActive(after, k) {
        assert k < |db.jobs| && !OlderActive(db, k);
      }
  }

  /** What no event ever changes about a job. */
  predicate SameJob(a: Job, b: Job) {
    && a.ws == b.ws && a.tcl == b.tcl && a.autoApply == b.autoApply && |a.steps| == |b.steps|
    && forall i :: 0 <= i < |a.steps| ==> a.steps[i].number == b.steps[i].number
  }

  lemma PollStays(job: Job, older: bool, locked: bool, backend: bool)
    ensures SameJob(job, PollEffect(job, older, locked, backend).job)
  {
  }

  lemma ReportStays(job: Job, i: nat, report: Report)
    requires i < |job.steps|
    ensures SameJob(job, ReportEffect(job, i, report).job)
  {
  }

  lemma EventStays(job: Job, e: JobEvent, older: bool, locked: bool)
    requires JobEnabled(job, e)
    ensures SameJob(job, JobEffect(job, e, older, locked).job)
  {
    match e
    case Poll(backend) => PollStays(job, older, locked, backend);
    case Reported(i, report) => ReportStays(job, i, report);
    case _ =>
  }
}
