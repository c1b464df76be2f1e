/** Claims about whole runs of the job protocol, from the empty database. */
module JobRuns {
  import opened Wrappers

  import opened JobProtocol
  import opened JobInvariants

  /** `states[k]` is the database before event `k`. */
  ghost predicate IsRun(states: seq<Db>, events: seq<Event>) {
    && |states| == |events| + 1
    && states[0] == Db([], {})
    && forall k :: 0 <= k < |events| ==> Enabled(states[k], events[k]) && states[k + 1] == Next(states[k], events[k])
  }

  lemma {:induction false} ReachableOk(states: seq<Db>, events: seq<Event>, k: nat)
    requires IsRun(states, events) && k < |states|
    ensures Ok(states[k])
  {
    if k > 0 {
      ReachableOk(states, events, k - 1);
      NextKeepsOk(states[k - 1], events[k - 1]);
    }
  }

  // ---- Exclusive use, in order of creation ----

  /** A workspace has at most one job between queueing and finishing, and every older job of it is finished. */
  lemma OneActiveJobPerWorkspace(states: seq<Db>, events: seq<Event>, k: nat, id: nat, other: nat)
    requires IsRun(states, events) && k < |states|
    requires id < |states[k].jobs| && other < |states[k].jobs|
    requires states[k].jobs[id].ws == states[k].jobs[other].ws && IsActive(states[k].jobs[id].status)
    ensures other < id ==> IsTerminal(states[k].jobs[other].status)
    ensures IsActive(states[k].jobs[other].status) ==> other == id
  {
    ReachableOk(states, events, k);
    assert Begun(states[k].jobs[id]) && !OlderActive(states[k], id);
    if IsActive(states[k].jobs[other].status) {
      assert Begun(states[k].jobs[other]) && !OlderActive(states[k], other);
    }
  }

  /** Jobs are never removed, and what identifies a job never changes. */
  lemma {:induction false} JobsStay(states: seq<Db>, events: seq<Event>, from: nat, to: nat, id: nat)
    requires IsRun(states, events) && from <= to < |states| && id < |states[from].jobs|
    ensures id < |states[to].jobs| && SameJob(states[from].jobs[id], states[to].jobs[id])
  {
    if from < to {
      JobsStay(states, events, from, to - 1, id);
      NextStays(states[to - 1], events[to - 1], id);
      assert states[to] == Next(states[to - 1], events[to - 1]);
      SameJobTransitive(states[from].jobs[id], states[to - 1].jobs[id], states[to].jobs[id]);
    }
  }

  lemma SameJobTransitive(a: Job, b: Job, c: Job)
    requires SameJob(a, b) && SameJob(b, c)
    ensures SameJob(a, c)
  {
  }

  lemma NextStays(db: Db, e: Event, id: nat)
    requires Enabled(db, e) && id < |db.jobs|
    ensures id < |Next(db, e).jobs| && SameJob(db.jobs[id], Next(db, e).jobs[id])
  {
    match e
    case On(j, what) => EventStays(db.jobs[j], what, OlderActive(db, j), db.jobs[j].ws in db.locked);
    case _ =>
  }

  /** A finished job is finished for good. */
  lemma {:induction false} FinishedStaysFinished(states: seq<Db>, events: seq<Event>, from: nat, to: nat, id: nat)
    requires IsRun(states, events) && from <= to < |states| && id < |states[from].jobs|
    requires IsTerminal(states[from].jobs[id].status)
    ensures id < |states[to].jobs| && IsTerminal(states[to].jobs[id].status)
  {
    if from < to {
      FinishedStaysFinished(states, events, from, to - 1, id);
      ReachableOk(states, events, to - 1);
      var db := states[to - 1];
      match events[to - 1]
      case On(j, what) => EffectKeepsOk(db.jobs[j], what, OlderActive(db, j), db.jobs[j].ws in db.locked);
      case _ =>
    }
  }

  // ---- The lock bit ----

  /** What clears the lock of a workspace under a job that runs there: a user, or the end of another of its jobs that
      comes from outside the scheduler's own order. */
  predicate UnlocksUnder(db: Db, id: nat, e: Event)
    requires id < |db.jobs|
  {
    || e == UserUnlock(db.jobs[id].ws)
    || (&& e.On? && e.id < |db.jobs| && e.id != id && db.jobs[e.id].ws == db.jobs[id].ws
        && (e.what in {Patch(Cancelled), Patch(Rejected), CancelRun, DiscardRun} || e.what.DispatchFailed?))
  }

  /** A running job's workspace is unlocked under it by these events and by no others. */
  lemma LocksAreClearedUnderRunningJobs(db: Db, e: Event, id: nat)
    requires Ok(db) && Enabled(db, e) && id < |db.jobs| && id < |Next(db, e).jobs|
    requires db.jobs[id].status == Running && Next(db, e).jobs[id].status == Running
    requires db.jobs[id].ws in db.locked
    ensures db.jobs[id].ws !in Next(db, e).locked <==> UnlocksUnder(db, id, e)
  {
    if e.On? && e.id != id && db.jobs[e.id].ws == db.jobs[id].ws {
      OthersOnlyEnd(db, id, e.id, e.what);
    }
  }

  /** A job beside a running one of its workspace does nothing to the lock but by the events above. */
  lemma OthersOnlyEnd(db: Db, id: nat, other: nat, what: JobEvent)
    requires Ok(db) && id < |db.jobs| && other < |db.jobs| && id != other && db.jobs[id].ws == db.jobs[other].ws
    requires db.jobs[id].status == Running && JobEnabled(db.jobs[other], what)
    ensures var eff := JobEffect(db.jobs[other], what, OlderActive(db, other), db.jobs[other].ws in db.locked);
            && eff.lock != Lock
            && (eff.lock == Unlock <==>
                  what in {Patch(Cancelled), Patch(Rejected), CancelRun, DiscardRun} || what.DispatchFailed?)
  {
    if Begun(db.jobs[other]) {
      BegunJobsAreAlone(db, id, other);
    }
    assert !IsActive(db.jobs[other].status);
    if db.jobs[other].status == Pending {
      assert !OlderActive(db, id);
      assert id < other && OlderActive(db, other);
    }
  }

  /** An unlocked workspace of a running job is locked again by a user only. */
  lemma OnlyUsersLockUnderRunningJobs(db: Db, e: Event, id: nat)
    requires Ok(db) && Enabled(db, e) && id < |db.jobs| && id < |Next(db, e).jobs|
    requires db.jobs[id].status == Running && Next(db, e).jobs[id].status == Running
    requires db.jobs[id].ws !in db.locked
    ensures db.jobs[id].ws in Next(db, e).locked <==> e == UserLock(db.jobs[id].ws)
  {
    if e.On? && e.id != id && db.jobs[e.id].ws == db.jobs[id].ws {
      OthersOnlyEnd(db, id, e.id, e.what);
    }
  }

  /** Event `n` clears the lock under the job, and no user locks the workspace again before state `k`. */
  ghost predicate ClearedFor(states: seq<Db>, events: seq<Event>, n: nat, k: nat, id: nat)
    requires k < |states| && |states| == |events| + 1
  {
    && n < k && id < |states[n].jobs| && UnlocksUnder(states[n], id, events[n])
    && forall u :: n < u < k ==> events[u] != UserLock(states[n].jobs[id].ws)
  }

  /** Since its dispatch at event `m`, a running job's workspace has been locked exactly if no such event came after the
      last lock a user took: the lock bit says whether nobody interfered, not whether somebody works here. */
  lemma {:induction false} RunningJobsAreLockedUnlessCleared(states: seq<Db>,
      events: seq<Event>, m: nat, k: nat, id: nat, i: nat)
    requires IsRun(states, events) && m < k < |states| && Starts(states[m], states[m + 1], id, i)
    requires forall n :: m < n <= k ==> id < |states[n].jobs| && states[n].jobs[id].status == Running
    ensures states[k].jobs[id].ws in states[k].locked <==> forall n :: m < n < k ==>
        !ClearedFor(states, events, n, k, id)
    decreases k
  {
    hide Next, Ok, UnlocksUnder, Enabled;
    if k == m + 1 {
      DispatchComesInTurn(states, events, m, id, i);
      JobsStay(states, events, m, k, id);
    } else {
      var db, e := states[k - 1], events[k - 1];
      RunningJobsAreLockedUnlessCleared(states, events, m, k - 1, id, i);
      ReachableOk(states, events, k - 1);
      assert states[k] == Next(db, e);
      forall n | m < n < k ensures states[n].jobs[id].ws == db.jobs[id].ws == states[k].jobs[id].ws {
        JobsStay(states, events, n, k - 1, id);
        JobsStay(states, events, k - 1, k, id);
      }
      var w := db.jobs[id].ws;
      forall n | m < n < k - 1
        ensures ClearedFor(states, events, n, k, id) <==> ClearedFor(states, events, n, k - 1, id) && e != UserLock(w)
      {}
      assert ClearedFor(states, events, k - 1, k, id) <==> UnlocksUnder(db, id, e);
      if w in db.locked {
        LocksAreClearedUnderRunningJobs(db, e, id);
      } else {
        OnlyUsersLockUnderRunningJobs(db, e, id);
        if e == UserLock(w) {
          UsersDoNotUnlockByLocking(db, e, id);
          forall n | m < n < k ensures !ClearedFor(states, events, n, k, id) {}
        } else {
          var n :| m < n < k - 1 && ClearedFor(states, events, n, k - 1, id);
          assert ClearedFor(states, events, n, k, id);
        }
      }
    }
  }

  lemma UsersDoNotUnlockByLocking(db: Db, e: Event, id: nat)
    requires id < |db.jobs| && e == UserLock(db.jobs[id].ws)
    ensures !UnlocksUnder(db, id, e)
  {
  }

  // ---- The order of steps ----

  /** While a job lives its steps are, in number order, settled ones, at most one in progress, and untouched ones. */
  lemma StepsRunInOrder(states: seq<Db>, events: seq<Event>, k: nat, id: nat, a: nat, b: nat)
    requires IsRun(states, events) && k < |states| && id < |states[k].jobs|
    requires !IsTerminal(states[k].jobs[id].status)
    requires a < |states[k].jobs[id].steps| && b < |states[k].jobs[id].steps| && a != b
    ensures var steps := states[k].jobs[id].steps;
            && steps[a].number != steps[b].number
            && (steps[a].number < steps[b].number && steps[b].status != StepPending ==> IsSettled(steps[a].status))
            && (steps[a].status in {StepRunning, StepWaiting} ==> steps[b].status !in {StepRunning, StepWaiting})
  {
    ReachableOk(states, events, k);
    assert JobOk(states[k].jobs[id]);
  }

  /** Between two states step `i` of job `id` is started. */
  ghost predicate Starts(before: Db, after: Db, id: nat, i: nat) {
    && id < |before.jobs| && i < |before.jobs[id].steps| && before.jobs[id].steps[i].status != StepRunning
    && id < |after.jobs| && i < |after.jobs[id].steps| && after.jobs[id].steps[i].status == StepRunning
  }

  lemma OnlyPollsStartSteps(job: Job, e: JobEvent, older: bool, locked: bool, i: nat, eff: Effect)
    requires JobOk(job) && JobEnabled(job, e) && eff == JobEffect(job, e, older, locked)
    requires i < |job.steps| == |eff.job.steps|
    requires eff.job.steps[i].status == StepRunning && job.steps[i].status != StepRunning
    ensures e.Poll? && job.status == Queue && !locked && FirstPending(job.steps) == Some(i)
    ensures StepTypeOf(job.tcl, job.steps[i].number) != Approval
    ensures eff == Effect(SetStep(job, i, StepRunning).(status := Running), Lock)
  {
    match e
    case Poll(backend) => PollStarts(job, older, locked, backend, i, eff);
    case Reported(s, report) => ReportsStartNothing(job, s, report, i);
    case _ =>
  }

  lemma ReportsStartNothing(job: Job, s: nat, report: Report, i: nat)
    requires s < |job.steps| && i < |job.steps| && job.steps[s].status == StepRunning
    ensures ReportEffect(job, s, report).job.steps[i].status == StepRunning ==> job.steps[i].status == StepRunning
  {
  }

  lemma PollStarts(job: Job, older: bool, locked: bool, backend: bool, i: nat, eff: Effect)
    requires eff == PollEffect(job, older, locked, backend) && i < |job.steps| == |eff.job.steps|
    requires job.steps[i].status != StepRunning && eff.job.steps[i].status == StepRunning
    ensures job.status == Queue && !locked && FirstPending(job.steps) == Some(i)
    ensures StepTypeOf(job.tcl, job.steps[i].number) != Approval
    ensures eff == Effect(SetStep(job, i, StepRunning).(status := Running), Lock)
  {
  }

  lemma OnlyOwnEventsMoveAJob(db: Db, e: Event, id: nat)
    requires Enabled(db, e) && id < |db.jobs| && Next(db, e).jobs[id] != db.jobs[id]
    ensures e.On? && e.id == id
  {
  }

  lemma JobAfter(db: Db, id: nat, what: JobEvent, eff: Effect)
    requires Enabled(db, On(id, what)) &&
        eff == JobEffect(db.jobs[id], what, OlderActive(db, id), db.jobs[id].ws in db.locked)
    ensures var after := Next(db, On(id, what));
            |after.jobs| == |db.jobs| && after.jobs[id] == eff.job &&
                after.locked == ApplyLock(db.locked, db.jobs[id].ws, eff.lock)
  {
  }

  /** A step is only started by a poll that takes the workspace lock, and only when every earlier step has settled
      and every older job of the workspace is finished. */
  lemma DispatchComesInTurn(states: seq<Db>, events: seq<Event>, k: nat, id: nat, i: nat)
    requires IsRun(states, events) && k < |events| && Starts(states[k], states[k + 1], id, i)
    ensures events[k].On? && events[k].id == id && events[k].what.Poll?
    ensures states[k].jobs[id].ws !in states[k].locked && states[k].jobs[id].ws in states[k + 1].locked
    ensures states[k].jobs[id].steps[i].status == StepPending && states[k].jobs[id].status == Queue
    ensures StepTypeOf(states[k].jobs[id].tcl, states[k].jobs[id].steps[i].number) != Approval &&
        !OlderActive(states[k], id)
    ensures forall a ::
              var steps := states[k].jobs[id].steps;
              0 <= a < |steps| && steps[a].number < steps[i].number ==>
                steps[a].status in {StepCompleted, StepNotExecuted}
  {
    hide JobEffect, Next;
    ReachableOk(states, events, k);
    var db, job := states[k], states[k].jobs[id];
    OnlyOwnEventsMoveAJob(db, events[k], id);
    var what, older, locked := events[k].what, OlderActive(db, id), job.ws in db.locked;
    var eff := JobEffect(job, what, older, locked);
    JobAfter(db, id, what, eff);
    EventStays(job, what, older, locked);
    OnlyPollsStartSteps(job, what, older, locked, i, eff);
    EarlierStepsSettled(states[k].jobs[id], i);
    assert Begun(states[k].jobs[id]);
  }

  /** Once a job has ended its steps can fall out of order, in one way: discarding or rejecting it while a step
      still runs marks later steps settled. No other event breaks the order. */
  lemma OrderIsBrokenOnlyByDiscarding(job: Job, e: JobEvent, older: bool, locked: bool)
    requires JobOk(job) && InOrder(job.steps) && JobEnabled(job, e)
    ensures InOrder(JobEffect(job, e, older, locked).job.steps)
            <==> !(e in {DiscardRun, Patch(Rejected)} && Has(job.steps, {StepRunning}) && Has(job.steps, {StepPending}))
  {
    EffectKeepsOk(job, e, older, locked);
    if e in {DiscardRun, Patch(Rejected)} {
      DiscardingBreaksOrder(job);
    } else if IsTerminal(JobEffect(job, e, older, locked).job.status) {
      EndingKeepsOrder(job, e, older, locked);
    }
  }

  /** Settling the pending steps under a running one, whatever happens to a waiting one. */
  lemma DiscardingBreaksOrder(job: Job)
    requires JobOk(job) && InOrder(job.steps)
    ensures InOrder(DiscardEffect(job).job.steps) <==> !(Has(job.steps, {StepRunning}) && Has(job.steps, {StepPending}))
    ensures InOrder(PatchEffect(job, Rejected).job.steps) <==>
        !(Has(job.steps, {StepRunning}) && Has(job.steps, {StepPending}))
  {
    SettlingPendingBreaksOrder(job.steps, DiscardEffect(job).job.steps);
    SettlingPendingBreaksOrder(job.steps, PatchEffect(job, Rejected).job.steps);
  }

  lemma SettlingPendingBreaksOrder(steps: seq<Step>, after: seq<Step>)
    requires DistinctNumbers(steps) && InOrder(steps) && |after| == |steps|
    requires forall k :: 0 <= k < |steps| ==> after[k].number == steps[k].number
    requires forall k :: 0 <= k < |steps| ==>
      if steps[k].status in {StepPending, StepWaiting} then IsSettled(after[k].status) else after[k] == steps[k]
    ensures InOrder(after) <==> !(Has(steps, {StepRunning}) && Has(steps, {StepPending}))
  {
    if Has(steps, {StepRunning}) && Has(steps, {StepPending}) {
      var a :| 0 <= a < |steps| && steps[a].status == StepRunning;
      var b :| 0 <= b < |steps| && steps[b].status == StepPending;
      assert steps[a].number != steps[b].number;
      assert steps[a].number < steps[b].number;
      assert after[a].status == StepRunning && IsSettled(after[b].status);
    } else {
      forall a, b | 0 <= a < |after| && 0 <= b < |after| && after[a].number < after[b].number &&
          after[b].status != StepPending
        ensures IsSettled(after[a].status)
      {
        if steps[a].status == StepRunning { assert false; }
      }
    }
  }

  lemma EndingKeepsOrder(job: Job, e: JobEvent, older: bool, locked: bool)
    requires JobOk(job) && InOrder(job.steps) && JobEnabled(job, e) && e !in {DiscardRun, Patch(Rejected)}
    requires IsTerminal(JobEffect(job, e, older, locked).job.status)
    ensures InOrder(JobEffect(job, e, older, locked).job.steps)
  {
    match e
    case Reject => RejectKeepsOrder(job);
    case Reported(i, report) => ReportKeepsOrder(job, i, report);
    case Poll(backend) => PollKeepsOrder(job, older, locked, backend);
    case _ =>
  }

  lemma RejectKeepsOrder(job: Job)
    requires JobOk(job) && InOrder(job.steps)
    ensures InOrder(RejectEffect(job).job.steps)
  {
    var w := FirstWaiting(job.steps);
    if w.Some? {
      forall k | 0 <= k < |job.steps| && k != w.value
        ensures RejectEffect(job).job.steps[k].status !in {StepPending, StepRunning, StepWaiting}
      {
        assert job.steps[k].number != job.steps[w.value].number;
      }
    }
  }

  lemma ReportKeepsOrder(job: Job, i: nat, report: Report)
    requires JobOk(job) && JobEnabled(job, Reported(i, report))
    requires report == Succeeded || report == Broke || report == PlanIsEmpty
    ensures InOrder(ReportEffect(job, i, report).job.steps)
  {
    var after := ReportEffect(job, i, report).job.steps;
    forall k | 0 <= k < |job.steps| && k != i
      ensures job.steps[k].status == StepPending || IsSettled(job.steps[k].status)
    {
      assert job.steps[k].number != job.steps[i].number;
    }
    if report == PlanIsEmpty {
      assert forall k :: 0 <= k < |after| ==> IsSettled(after[k].status);
    } else {
      assert after == job.steps[i := after[i]] && IsSettled(after[i].status);
    }
  }

  lemma PollKeepsOrder(job: Job, older: bool, locked: bool, backend: bool)
    requires JobOk(job) && InOrder(job.steps)
    requires IsTerminal(PollEffect(job, older, locked, backend).job.status)
    ensures InOrder(PollEffect(job, older, locked, backend).job.steps)
  {
    var first := FirstPending(job.steps);
    if job.status == Queue && first.Some? {
      SettlingTheFirstKeepsOrder(job, first.value, StepNotExecuted);
      SettlingTheFirstKeepsOrder(job, first.value, StepFailed);
    }
  }

  lemma SettlingTheFirstKeepsOrder(job: Job, i: nat, to: StepStatus)
    requires JobOk(job) && job.status == Queue && FirstPending(job.steps) == Some(i) && IsSettled(to)
    ensures InOrder(SetStep(job, i, to).steps)
  {
    EarlierStepsSettled(job, i);
  }

  // ---- The approval gate ----

  /** Event `m` is a person's approval of the gate, step `g` of job `id`, while it waits. */
  ghost predicate Approves(states: seq<Db>, events: seq<Event>, m: nat, id: nat, g: nat) {
    && m < |events| && m < |states|
    && id < |states[m].jobs| && g < |states[m].jobs[id].steps|
    && states[m].jobs[id].steps[g].status == StepWaiting
    && (events[m] == On(id, Approve) || events[m] == On(id, Patch(Approved)))
  }

  /** How a gate comes to be passed in one event. */
  lemma GateMoves(job: Job, e: JobEvent, older: bool, locked: bool, g: nat, after: Job)
    requires JobOk(job) && JobEnabled(job, e) && after == JobEffect(job, e, older, locked).job
    requires g < |job.steps| == |after.steps| && StepTypeOf(job.tcl, job.steps[g].number) == Approval
    ensures after.steps[g].status == StepCompleted && job.steps[g].status != StepCompleted ==>
              job.steps[g].status == StepWaiting && (e == Approve || job.status == Approved)
    ensures after.status == Approved && after.steps[g].status == StepWaiting ==>
              job.steps[g].status == StepWaiting && (job.status == Approved || e == Patch(Approved))
    ensures after.steps[g].status == StepNotExecuted && !IsTerminal(after.status) ==>
              job.autoApply || (job.steps[g].status == StepNotExecuted && !IsTerminal(job.status))
  {
    EffectKeepsOk(job, e, older, locked);
    match e
    case Poll(backend) => GatePolled(job, older, locked, backend, g, after);
    case Reported(i, report) => GateReported(job, i, report, g, after);
    case _ =>
  }

  lemma GateReported(job: Job, i: nat, report: Report, g: nat, after: Job)
    requires JobOk(job) && JobEnabled(job, Reported(i, report)) && after == ReportEffect(job, i, report).job
    requires g < |job.steps| && StepTypeOf(job.tcl, job.steps[g].number) == Approval
    ensures IsTerminal(after.status) || after.steps[g] == job.steps[g]
    ensures after.steps[g].status == StepCompleted ==> job.steps[g].status == StepCompleted
    ensures after.status != Approved
  {
    assert i != g;
  }

  lemma GatePolledInQueue(job: Job, older: bool, locked: bool, backend: bool, g: nat, after: Job)
    requires job.status == Queue && after == PollEffect(job, older, locked, backend).job
    requires g < |job.steps| == |after.steps| && StepTypeOf(job.tcl, job.steps[g].number) == Approval
    ensures after.steps[g].status == StepCompleted ==> job.steps[g].status == StepCompleted
    ensures after.status != Approved
    ensures after.steps[g].status == StepNotExecuted ==> job.autoApply || job.steps[g].status == StepNotExecuted
  {
    hide StepTypeOf;
  }

  lemma GatePolled(job: Job, older: bool, locked: bool, backend: bool, g: nat, after: Job)
    requires JobOk(job) && after == PollEffect(job, older, locked, backend).job
    requires g < |job.steps| == |after.steps| && StepTypeOf(job.tcl, job.steps[g].number) == Approval
    ensures after.steps[g].status == StepCompleted ==>
              job.steps[g].status == StepCompleted || (job.steps[g].status == StepWaiting && job.status == Approved)
    ensures after.status == Approved ==> after == job
    ensures after.steps[g].status == StepNotExecuted ==> job.autoApply || job.steps[g].status == StepNotExecuted
    ensures IsTerminal(job.status) ==> after == job
  {
    match job.status
    case Queue => GatePolledInQueue(job, older, locked, backend, g, after);
    case _ =>
  }

  ghost predicate GateHistory(states: seq<Db>, events: seq<Event>, k: nat, id: nat, g: nat)
    requires k < |states| && id < |states[k].jobs| && g < |states[k].jobs[id].steps|
  {
    var job := states[k].jobs[id];
    && (job.steps[g].status == StepCompleted ==> exists m :: 0 <= m < k && Approves(states, events, m, id, g))
    && (job.status == Approved && job.steps[g].status == StepWaiting ==>
        exists m :: 0 <= m < k && Approves(states, events, m, id, g))
    && (job.steps[g].status == StepNotExecuted && !IsTerminal(job.status) ==> job.autoApply)
  }

  lemma {:induction false} GatesHaveHistory(states: seq<Db>, events: seq<Event>, k: nat, id: nat, g: nat)
    requires IsRun(states, events) && k < |states| && id < |states[k].jobs| && g < |states[k].jobs[id].steps|
    requires StepTypeOf(states[k].jobs[id].tcl, states[k].jobs[id].steps[g].number) == Approval
    ensures GateHistory(states, events, k, id, g)
  {
    hide Next, Ok, StepTypeOf, Enabled;
    var db := states[k - 1];
    assert states[k] == Next(db, events[k - 1]);
    if id < |db.jobs| {
      ReachableOk(states, events, k - 1);
      JobsStay(states, events, k - 1, k, id);
      GatesHaveHistory(states, events, k - 1, id, g);
      GateMovesOn(db, events[k - 1], id, g);
      if db.jobs[id].steps[g].status == StepWaiting &&
          (events[k - 1] == On(id, Approve) || events[k - 1] == On(id, Patch(Approved))) {
        assert Approves(states, events, k - 1, id, g);
      }
    } else {
      NewGatesArePending(db, events[k - 1], id, g);
    }
  }

  lemma NewGatesArePending(db: Db, e: Event, id: nat, g: nat)
    requires Enabled(db, e) && |db.jobs| <= id < |Next(db, e).jobs| && g < |Next(db, e).jobs[id].steps|
    requires StepTypeOf(Next(db, e).jobs[id].tcl, Next(db, e).jobs[id].steps[g].number) == Approval
    ensures Next(db, e).jobs[id].status == Pending && Next(db, e).jobs[id].steps[g].status == StepPending
  {
  }

  lemma GateMovesOn(db: Db, e: Event, id: nat, g: nat)
    requires Ok(db) && Enabled(db, e) && id < |db.jobs| && g < |db.jobs[id].steps|
    requires id < |Next(db, e).jobs| && |Next(db, e).jobs[id].steps| == |db.jobs[id].steps|
    requires StepTypeOf(db.jobs[id].tcl, db.jobs[id].steps[g].number) == Approval
    ensures var job, after := db.jobs[id], Next(db, e).jobs[id];
            && (after.steps[g].status == StepCompleted && job.steps[g].status != StepCompleted ==>
                  job.steps[g].status == StepWaiting && (e == On(id, Approve) || job.status == Approved))
            && (after.status == Approved && after.steps[g].status == StepWaiting ==>
                  job.steps[g].status == StepWaiting && (job.status == Approved || e == On(id, Patch(Approved))))
            && (after.steps[g].status == StepNotExecuted && !IsTerminal(after.status) ==>
                  job.autoApply || (job.steps[g].status == StepNotExecuted && !IsTerminal(job.status)))
  {
    match e
    case On(j, what) =>
      if j == id {
        GateMoves(db.jobs[id], what, OlderActive(db, id), db.jobs[id].ws in db.locked, g, Next(db, e).jobs[id]);
      }
    case _ =>
  }

  /** Nothing behind an approval gate is started unless somebody approved the gate while it waited, or the job
      was created to apply automatically. */
  lemma GatesAreApproved(states: seq<Db>, events: seq<Event>, k: nat, id: nat, i: nat, g: nat)
    requires IsRun(states, events) && k < |events| && Starts(states[k], states[k + 1], id, i)
    requires g < |states[k].jobs[id].steps| && states[k].jobs[id].steps[g].number < states[k].jobs[id].steps[i].number
    requires StepTypeOf(states[k].jobs[id].tcl, states[k].jobs[id].steps[g].number) == Approval
    ensures states[k].jobs[id].autoApply || exists m :: 0 <= m < k && Approves(states, events, m, id, g)
  {
    DispatchComesInTurn(states, events, k, id, i);
    GatesHaveHistory(states, events, k, id, g);
  }

  // ---- Every job's run ends ----

  function StepWeight(s: StepStatus): nat {
    match s
    case StepPending => 4
    case StepRunning => 2
    case StepWaiting => 1
    case _ => 0
  }

  function StepsWeight(steps: seq<Step>): nat {
    if steps == [] then 0 else StepsWeight(steps[..|steps| - 1]) + StepWeight(steps[|steps| - 1].status)
  }

  function Rank(s: JobStatus): nat {
    match s
    case WaitingApproval => 3
    case Pending => 2
    case Approved => 2
    case Queue => 1
    case Running => 1
    case _ => 0
  }

  /** What is left to do; nothing for a finished job. */
  function Weight(job: Job): nat {
    if IsTerminal(job.status) then 0 else StepsWeight(job.steps) + Rank(job.status)
  }

  lemma {:induction false} UpdateWeight(steps: seq<Step>, i: nat, x: Step)
    requires i < |steps|
    ensures StepsWeight(steps[i := x]) == StepsWeight(steps) - StepWeight(steps[i].status) + StepWeight(x.status)
  {
    var n := |steps| - 1;
    if i < n {
      UpdateWeight(steps[..n], i, x);
      assert steps[i := x][..n] == steps[..n][i := x];
    } else {
      assert steps[i := x][..n] == steps[..n];
    }
  }

  lemma {:induction false} WeightAtMost(steps: seq<Step>)
    ensures StepsWeight(steps) <= 4 * |steps|
  {
    if steps != [] { WeightAtMost(steps[..|steps| - 1]); }
  }

  lemma WaitingCompleted(job: Job)
    requires JobOk(job) && Has(job.steps, {StepWaiting})
    ensures SetWhere(job.steps, {StepWaiting}, StepCompleted) ==
        SetStep(job, FirstWaiting(job.steps).value, StepCompleted).steps
  {
    var i := FirstWaiting(job.steps).value;
    var one := SetStep(job, i, StepCompleted);
    forall k | 0 <= k < |job.steps| ensures SetWhere(job.steps, {StepWaiting}, StepCompleted)[k] == one.steps[k] {
      assert k != i ==> job.steps[k].number != job.steps[i].number;
    }
  }

  lemma PollCosts(job: Job, older: bool, locked: bool, backend: bool)
    requires JobOk(job) && !IsTerminal(job.status)
    requires PollEffect(job, older, locked, backend).job != job
    ensures Weight(PollEffect(job, older, locked, backend).job) < Weight(job)
  {
    match job.status
    case Approved =>
      WaitingCompleted(job);
      UpdateWeight(job.steps, FirstWaiting(job.steps).value,
          job.steps[FirstWaiting(job.steps).value].(status := StepCompleted));
    case Queue =>
      var first := FirstPending(job.steps);
      if first.Some? { TakingAStepCosts(job, first.value); }
    case _ =>
  }

  lemma TakingAStepCosts(job: Job, i: nat)
    requires i < |job.steps| && job.steps[i].status == StepPending && job.status == Queue
    ensures Weight(AdvanceEffect(SetStep(job, i, StepNotExecuted)).job) < Weight(job)
    ensures Weight(SetStep(job, i, StepWaiting).(status := WaitingApproval)) < Weight(job)
    ensures Weight(SetStep(job, i, StepRunning).(status := Running)) < Weight(job)
  {
    UpdateWeight(job.steps, i, job.steps[i].(status := StepNotExecuted));
    UpdateWeight(job.steps, i, job.steps[i].(status := StepWaiting));
    UpdateWeight(job.steps, i, job.steps[i].(status := StepRunning));
  }

  lemma ReportCosts(job: Job, i: nat, report: Report)
    requires JobEnabled(job, Reported(i, report)) && ReportEffect(job, i, report).job != job
    ensures Weight(ReportEffect(job, i, report).job) < Weight(job)
  {
    assert job.steps[i := job.steps[i].(status := StepRunning)] == job.steps;
    UpdateWeight(job.steps, i, job.steps[i].(status := StepCompleted));
  }

  /** Every event that changes an unfinished job brings it closer to its end. */
  lemma EveryChangeCosts(job: Job, e: JobEvent, older: bool, locked: bool)
    requires JobOk(job) && JobEnabled(job, e) && !IsTerminal(job.status)
    requires JobEffect(job, e, older, locked).job != job
    ensures Weight(JobEffect(job, e, older, locked).job) < Weight(job)
  {
    match e
    case Poll(backend) => PollCosts(job, older, locked, backend);
    case Reported(i, report) => ReportCosts(job, i, report);
    case Approve =>
      var i := FirstWaiting(job.steps).value;
      UpdateWeight(job.steps, i, job.steps[i].(status := StepCompleted));
    case _ =>
  }

  /** How many of the first `k` events change job `id` while it is unfinished. */
  ghost function LiveChanges(states: seq<Db>, id: nat, k: nat): nat
    requires k < |states|
  {
    if k == 0 then 0
    else
      LiveChanges(states, id, k - 1) +
      (if id < |states[k - 1].jobs| && id < |states[k].jobs| && !IsTerminal(states[k - 1].jobs[id].status)
          && states[k].jobs[id] != states[k - 1].jobs[id] then 1 else 0)
  }

  /** A job with n steps changes at most 4n + 2 times before it is finished. */
  lemma {:induction false} JobsEnd(states: seq<Db>, events: seq<Event>, id: nat, k: nat)
    requires IsRun(states, events) && k < |states|
    ensures id >= |states[k].jobs| ==> LiveChanges(states, id, k) == 0
    ensures id < |states[k].jobs| ==>
              LiveChanges(states, id, k) + Weight(states[k].jobs[id]) <= 4 * |states[k].jobs[id].steps| + 2
  {
    if k > 0 {
      JobsEnd(states, events, id, k - 1);
      ReachableOk(states, events, k - 1);
      var db := states[k - 1];
      if id < |db.jobs| {
        JobsStay(states, events, k - 1, k, id);
        match events[k - 1]
        case On(j, what) =>
          if j == id {
            var older, locked := OlderActive(db, id), db.jobs[id].ws in db.locked;
            if IsTerminal(db.jobs[id].status) { EffectKeepsOk(db.jobs[id], what, older, locked); }
            else if states[k].jobs[id] != db.jobs[id] { EveryChangeCosts(db.jobs[id], what, older, locked); }
          }
        case _ =>
      } else if id < |states[k].jobs| {
        WeightAtMost(states[k].jobs[id].steps);
      }
    }
  }

  // ---- The lock, and progress ----

  /** A job that accounts for a locked workspace: its step runs, or has just ended and the next is not yet queued. */
  predicate Holds(job: Job) {
    job.status == Running || (job.status == Pending && Begun(job))
  }

  ghost predicate LocksAccounted(db: Db) {
    forall w :: w in db.locked ==> exists id :: 0 <= id < |db.jobs| && db.jobs[id].ws == w && Holds(db.jobs[id])
  }

  ghost predicate NoUserLocks(events: seq<Event>) {
    forall k :: 0 <= k < |events| ==> !events[k].UserLock?
  }

  lemma PollAccounts(job: Job, older: bool, locked: bool, backend: bool)
    requires JobOk(job)
    ensures var eff := PollEffect(job, older, locked, backend);
            && (eff.lock == Lock ==> Holds(eff.job))
            && (eff.lock == Keep && Holds(job) ==> Holds(eff.job))
  {
    if job.status == Queue && FirstPending(job.steps).Some? {
      var i := FirstPending(job.steps).value;
      assert !Has(job.steps, {StepRunning}) && !Has(job.steps, {StepWaiting});
    }
  }

  lemma EffectAccounts(job: Job, e: JobEvent, older: bool, locked: bool)
    requires JobOk(job) && JobEnabled(job, e)
    ensures var eff := JobEffect(job, e, older, locked);
            && (eff.lock == Lock ==> Holds(eff.job))
            && (eff.lock == Keep && Holds(job) ==> Holds(eff.job))
  {
    match e
    case Poll(backend) => PollAccounts(job, older, locked, backend);
    case Reported(i, report) =>
      var after := ReportEffect(job, i, report).job;
      assert after.steps[i].status != StepPending;
    case Approve =>
      assert job.status == Running ==> !Has(job.steps, {StepWaiting});
      assert job.status == Pending ==> !Has(job.steps, {StepWaiting});
    case _ =>
  }

  lemma {:induction false} LocksStayAccounted(states: seq<Db>, events: seq<Event>, k: nat)
    requires IsRun(states, events) && NoUserLocks(events) && k < |states|
    ensures LocksAccounted(states[k])
  {
    if k > 0 {
      LocksStayAccounted(states, events, k - 1);
      ReachableOk(states, events, k - 1);
      var db, after := states[k - 1], states[k];
      forall w | w in after.locked
        ensures exists id :: 0 <= id < |after.jobs| && after.jobs[id].ws == w && Holds(after.jobs[id])
      {
        match events[k - 1]
        case On(j, what) =>
          var job := db.jobs[j];
          var older, locked := OlderActive(db, j), job.ws in db.locked;
          EffectAccounts(job, what, older, locked);
          EventStays(job, what, older, locked);
          if w in db.locked {
            var id :| 0 <= id < |db.jobs| && db.jobs[id].ws == w && Holds(db.jobs[id]);
            assert after.jobs[id].ws == w;
            if id == j && !Holds(after.jobs[id]) { assert false; }
          } else {
            assert w == job.ws && Holds(after.jobs[j]);
          }
        case UserLock(_) => assert false;
        case _ =>
          var id :| 0 <= id < |db.jobs| && db.jobs[id].ws == w && Holds(db.jobs[id]);
          assert after.jobs[id] == db.jobs[id];
      }
    }
  }

  /** No lock is left behind: a workspace whose jobs are all finished is unlocked. */
  lemma FinishedWorkspacesAreUnlocked(states: seq<Db>, events: seq<Event>, k: nat, w: nat)
    requires IsRun(states, events) && NoUserLocks(events) && k < |states|
    requires forall id :: 0 <= id < |states[k].jobs| && states[k].jobs[id].ws == w ==>
        IsTerminal(states[k].jobs[id].status)
    ensures w !in states[k].locked
  {
    LocksStayAccounted(states, events, k);
  }

  lemma BegunJobsAreAlone(db: Db, id: nat, other: nat)
    requires Ok(db) && id < |db.jobs| && other < |db.jobs| && db.jobs[id].ws == db.jobs[other].ws
    requires Begun(db.jobs[id]) && Begun(db.jobs[other])
    ensures id == other
  {
    assert !OlderActive(db, id) && !OlderActive(db, other);
  }

  /** A queued job never waits for a lock that nobody will release: its workspace is unlocked. */
  lemma QueuedJobsFindTheWorkspaceUnlocked(states: seq<Db>, events: seq<Event>, k: nat, id: nat)
    requires IsRun(states, events) && NoUserLocks(events) && k < |states|
    requires id < |states[k].jobs| && states[k].jobs[id].status == Queue
    ensures states[k].jobs[id].ws !in states[k].locked
  {
    LocksStayAccounted(states, events, k);
    ReachableOk(states, events, k);
    var db := states[k];
    if db.jobs[id].ws in db.locked {
      var holder :| 0 <= holder < |db.jobs| && db.jobs[holder].ws == db.jobs[id].ws && Holds(db.jobs[holder]);
      BegunJobsAreAlone(db, id, holder);
    }
  }

  /** No unfinished job is stuck for ever: the oldest one of a workspace can always be moved on. */
  lemma TheOldestJobCanMove(states: seq<Db>, events: seq<Event>, k: nat, id: nat) returns (what: JobEvent)
    requires IsRun(states, events) && NoUserLocks(events) && k < |states|
    requires id < |states[k].jobs| && !IsTerminal(states[k].jobs[id].status) && !OlderActive(states[k], id)
    ensures Enabled(states[k], On(id, what)) && Next(states[k], On(id, what)).jobs[id] != states[k].jobs[id]
    ensures match states[k].jobs[id].status
            case Running => what.Reported?
            case WaitingApproval => what == Approve
            case _ => what.Poll?
  {
    ReachableOk(states, events, k);
    var db, job := states[k], states[k].jobs[id];
    what := Poll(true);
    match job.status
    case Queue =>
      QueuedJobsFindTheWorkspaceUnlocked(states, events, k, id);
      assert !Has(job.steps, {StepRunning}) && !Has(job.steps, {StepWaiting});
    case Running =>
      var i :| 0 <= i < |job.steps| && job.steps[i].status == StepRunning;
      what := Reported(i, Succeeded);
    case WaitingApproval =>
      what := Approve;
    case _ =>
  }

  // ---- Silent executors and late failures ----

  /** The events that take a running job on: its executor's word, or somebody's decision to end it. */
  predicate TakesOn(e: Event, id: nat) {
    e.On? && e.id == id && !(e.what.Poll? || e.what == Approve || e.what == Reject)
  }

  /** A job whose executor has nothing more to say stays running, with its step, until somebody ends it; meanwhile no
      other job of its workspace gets anywhere. */
  lemma {:induction false} SilentJobsStayRunning(states: seq<Db>, events: seq<Event>, first: nat, last: nat, id: nat)
    requires IsRun(states, events) && first <= last < |states| && id < |states[first].jobs|
    requires states[first].jobs[id].status == Running
    requires forall n :: first <= n < last ==> !TakesOn(events[n], id)
    ensures id < |states[last].jobs| && states[last].jobs[id] == states[first].jobs[id]
    ensures forall other :: 0 <= other < |states[last].jobs| && other != id && Begun(states[last].jobs[other]) ==>
              states[last].jobs[other].ws != states[last].jobs[id].ws
    decreases last
  {
    hide Next, Ok, Enabled;
    if first < last {
      SilentJobsStayRunning(states, events, first, last - 1, id);
      ReachableOk(states, events, last - 1);
      JobsStay(states, events, last - 1, last, id);
      assert states[last] == Next(states[last - 1], events[last - 1]);
      NothingMovesIt(states[last - 1], events[last - 1], id);
    }
    ReachableOk(states, events, last);
    forall other | 0 <= other < |states[last].jobs| && other != id &&
        states[last].jobs[other].ws == states[last].jobs[id].ws
      ensures !Begun(states[last].jobs[other])
    {
      if Begun(states[last].jobs[other]) {
        BegunJobsAreAlone(states[last], id, other);
      }
    }
  }

  lemma NothingMovesIt(db: Db, e: Event, id: nat)
    requires Ok(db) && Enabled(db, e) && id < |db.jobs| && id < |Next(db, e).jobs|
    requires db.jobs[id].status == Running && !TakesOn(e, id)
    ensures Next(db, e).jobs[id] == db.jobs[id]
  {
    assert !Has(db.jobs[id].steps, {StepWaiting});
  }

  /** A step other than step `i` waits for approval. */
  predicate WaitsElsewhere(steps: seq<Step>, i: nat) {
    exists k :: 0 <= k < |steps| && k != i && steps[k].status == StepWaiting
  }

  /** A hand-over failure noticed late is harmless exactly if no other step of the job waits for approval by then.
      Otherwise the job ends with its gate open, and approving the gate puts the failed job back into the queue. */
  lemma LateFailuresAreHarmlessUnlessAGateWaits(job: Job, i: nat)
    requires JobOk(job) && i < |job.steps|
    ensures IsTerminal(DispatchFailedEffect(job, i).job.status)
    ensures JobOk(DispatchFailedEffect(job, i).job) <==> !WaitsElsewhere(job.steps, i)
    ensures ApproveEffect(DispatchFailedEffect(job, i).job).job.status == Queue <==> WaitsElsewhere(job.steps, i)
  {
    var failed := DispatchFailedEffect(job, i).job;
    assert forall k :: 0 <= k < |job.steps| && k != i ==> failed.steps[k] == job.steps[k];
    assert failed.steps[i].status == StepFailed;
    assert Has(failed.steps, {StepWaiting}) <==> WaitsElsewhere(job.steps, i) by {
      if WaitsElsewhere(job.steps, i) {
        var k :| 0 <= k < |job.steps| && k != i && job.steps[k].status == StepWaiting;
        assert failed.steps[k].status in {StepWaiting};
      }
    }
  }

  /** Such a job exists: its plan was reported before the hand-over's failure was noticed. */
  lemma ALateFailureRevivesAJob() returns (job: Job)
    ensures JobOk(job) && job.status == WaitingApproval && |job.steps| == 2 && job.steps[0].status == StepCompleted
    ensures WaitsElsewhere(job.steps, 0)
  {
    job := Job(0, WaitingApproval, false, Parsed([FlowEntry(100, PLAN), FlowEntry(200, Approval)]),
               [Step(100, StepCompleted), Step(200, StepWaiting)]);
    assert job.steps[1].status == StepWaiting;
    assert FlowTypeOf(job.tcl.flow, 200) == Approval by { assert job.tcl.flow[1..] == [FlowEntry(200, Approval)]; }
  }
}
