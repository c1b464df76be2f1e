/** The scheduler's poll, the handlers and the reports as they run: statement by statement on the stored rows. */
module JobStore {
  import opened Wrappers

  import opened JobProtocol
  import opened JobInvariants
  import opened JobRuns
  import opened Polls

  predicate OthersStay(before: seq<Job>, after: seq<Job>, id: nat) {
    |after| == |before| && forall o :: 0 <= o < |before| && o != id ==> after[o] == before[o]
  }

  predicate HasStep(job: Job, wanted: set<StepStatus>) {
    exists k :: 0 <= k < |job.steps| && job.steps[k].status in wanted
  }

  predicate Waits(job: Job, i: nat) { i < |job.steps| && job.steps[i].status == StepWaiting }

  /** The first entry of a flow with a number. */
  predicate IsFirstEntry(flow: seq<FlowEntry>, number: int, k: nat)
    requires k < |flow|
  {
    flow[k].step == number && forall j :: 0 <= j < k ==> flow[j].step != number
  }

  /** The tables. */
  class Tables {
    var jobs: seq<Job>
    var locked: set<nat>

    ghost function View(): Db
      reads this
    {
      Db(jobs, locked)
    }

    constructor ()
      ensures View() == Db([], {})
    {
      jobs, locked := [], {};
    }

    // ---- Single statements ----

    method SetJobStatus(id: nat, to: JobStatus)
      requires id < |jobs|
      modifies this`jobs
      ensures jobs == old(jobs)[id := old(jobs)[id].(status := to)]
    {
      jobs := jobs[id := jobs[id].(status := to)];
    }

    method SetStepStatus(id: nat, i: nat, to: StepStatus)
      requires id < |jobs| && i < |jobs[id].steps|
      modifies this`jobs
      ensures jobs == old(jobs)[id := SetStep(old(jobs)[id], i, to)]
    {
      jobs := jobs[id := SetStep(jobs[id], i, to)];
    }

    method SetStepsWhere(id: nat, from: set<StepStatus>, to: StepStatus)
      requires id < |jobs|
      modifies this`jobs
      ensures jobs == old(jobs)[id := old(jobs)[id].(steps := SetWhere(old(jobs)[id].steps, from, to))]
    {
      jobs := jobs[id := jobs[id].(steps := SetWhere(jobs[id].steps, from, to))];
    }

    method CountSteps(id: nat, wanted: set<StepStatus>) returns (n: nat)
      requires id < |jobs|
      ensures n == 0 <==> !Has(jobs[id].steps, wanted)
    {
      n := 0;
      for i := 0 to |jobs[id].steps|
        invariant n == 0 <==> forall k :: 0 <= k < i ==> jobs[id].steps[k].status !in wanted
      {
        if jobs[id].steps[i].status in wanted { n := n + 1; }
      }
    }

    method CountOlderActive(id: nat) returns (n: nat)
      requires id < |jobs|
      ensures n == 0 <==> !OlderActive(View(), id)
      ensures n == 0 <==> !WaitsBehind(View(), id)
    {
      OlderOnesWait(View(), View(), id);
      n := 0;
      for k := 0 to id
        invariant n == 0 <==> forall o :: 0 <= o < k && jobs[o].ws == jobs[id].ws ==> IsTerminal(jobs[o].status)
      {
        if jobs[k].ws == jobs[id].ws && !IsTerminal(jobs[k].status) { n := n + 1; }
      }
    }

    method ResolveStepType(tcl: Tcl, number: int) returns (kind: StepType)
      ensures kind == StepTypeOf(tcl, number)
      ensures tcl.Parsed? ==> forall k :: 0 <= k < |tcl.flow| && IsFirstEntry(tcl.flow, number, k) ==>
                kind == if tcl.flow[k].kind == Unset then Execute("terraformPlan") else tcl.flow[k].kind
      ensures (tcl.Parsed? ==> forall k :: 0 <= k < |tcl.flow| ==> tcl.flow[k].step != number) ==>
                kind == Execute("terraformPlan")
    {
      match tcl
      case Parsed(flow) =>
        for i := 0 to |flow|
          invariant FlowTypeOf(flow, number) == FlowTypeOf(flow[i..], number)
          invariant forall k :: 0 <= k < i ==> flow[k].step != number
        {
          if flow[i].step == number {
            return if flow[i].kind == Unset then PLAN else flow[i].kind;
          }
        }
        return PLAN;
      case _ =>
        return PLAN;
    }

    // ---- Creating jobs ----

    /** A new job starts pending, with one pending step for every flow entry. */
    method CreateJob(ws: nat, autoApply: bool, tcl: Tcl) returns (id: nat)
      requires DistinctNumbers(InitialSteps(tcl))
      modifies this`jobs
      ensures id == |old(jobs)|
      ensures View() == Next(old(View()), Create(ws, autoApply, tcl))
      ensures |jobs| == id + 1 && jobs[..id] == old(jobs)
      ensures jobs[id].ws == ws && jobs[id].status == Pending && jobs[id].autoApply == autoApply && jobs[id].tcl == tcl
      ensures match tcl
              case NoTcl => jobs[id].steps == [Step(100, StepPending)]
              case Unparsable => jobs[id].steps == []
              case Parsed(flow) =>
                && |jobs[id].steps| == |flow|
                && forall k :: 0 <= k < |flow| ==> jobs[id].steps[k] == Step(flow[k].step, StepPending)
    {
      id := |jobs|;
      jobs := jobs + [Job(ws, Pending, autoApply, tcl, [])];
      InitJobSteps(id);
    }

    /** Inserting the steps of a flow; nothing happens when the job has steps already. */
    method InitJobSteps(id: nat)
      requires id < |jobs|
      modifies this`jobs
      ensures jobs == old(jobs)[id := old(jobs)[id].(steps :=
                if old(jobs)[id].steps == [] then InitialSteps(old(jobs)[id].tcl) else old(jobs)[id].steps)]
    {
      var flow := match jobs[id].tcl
        case NoTcl => [FlowEntry(100, PLAN)]
        case Unparsable => []
        case Parsed(entries) => entries;
      if |flow| == 0 || |jobs[id].steps| > 0 { return; }
      for i := 0 to |flow|
        invariant jobs == old(jobs)[id := old(jobs)[id].(steps := InitialSteps(Parsed(flow))[..i])]
      {
        assert InitialSteps(Parsed(flow))[..i + 1] ==
            InitialSteps(Parsed(flow))[..i] + [Step(flow[i].step, StepPending)];
        jobs := jobs[id := jobs[id].(steps := jobs[id].steps + [Step(flow[i].step, StepPending)])];
      }
      assert InitialSteps(Parsed(flow))[..|flow|] == InitialSteps(old(jobs)[id].tcl);
    }

    // ---- The poll ----

    method MaybeCompleteJob(id: nat)
      requires id < |jobs|
      modifies this
      ensures View() == ApplyEffect(old(View()), id, CompleteEffect(old(jobs)[id]))
      ensures OthersStay(old(jobs), jobs, id)
      ensures if HasStep(old(jobs)[id], {StepPending, StepRunning, StepWaiting}) then
                jobs[id] == old(jobs)[id] && locked == old(locked)
              else
                && jobs[id]
                   == old(jobs)[id].(status := if HasStep(old(jobs)[id], {StepFailed}) then Failed else Completed)
                && locked == old(locked) - {jobs[id].ws}
    {
      var open := CountSteps(id, {StepPending, StepRunning, StepWaiting});
      if open == 0 {
        var failed := CountSteps(id, {StepFailed});
        SetJobStatus(id, if failed > 0 then Failed else Completed);
        locked := locked - {jobs[id].ws};
      }
    }

    method AdvanceOrComplete(id: nat)
      requires id < |jobs|
      modifies this
      ensures View() == ApplyEffect(old(View()), id, AdvanceEffect(old(jobs)[id]))
    {
      var pending := CountSteps(id, {StepPending});
      if pending == 0 { MaybeCompleteJob(id); }
    }

    /** One row of the poll; `status` is the status the row was read with. */
    method ProcessRow(id: nat, status: JobStatus, backend: bool)
      requires id < |jobs| && jobs[id].status == status
      modifies this
      ensures View() == Next(old(View()), On(id, Poll(backend)))
      ensures |jobs| == |old(jobs)| && forall other :: 0 <= other < |jobs| && other != id ==>
          jobs[other] == old(jobs)[other]
    {
      if status == Pending {
        var olderActive := CountOlderActive(id);
        if olderActive > 0 { return; }
        SetJobStatus(id, Queue);
        locked := locked - {jobs[id].ws};
      } else if status == Approved {
        var olderActive := CountOlderActive(id);
        if olderActive > 0 { return; }
        SetJobStatus(id, Queue);
        SetStepsWhere(id, {StepWaiting}, StepCompleted);
        locked := locked - {jobs[id].ws};
      } else if status == Queue {
        match FirstPending(jobs[id].steps)
        case None => MaybeCompleteJob(id);
        case Some(i) => ProcessStep(id, i, backend);
      }
    }

    method ProcessStep(id: nat, i: nat, backend: bool)
      requires id < |jobs| && jobs[id].status == Queue && FirstPending(jobs[id].steps) == Some(i)
      modifies this
      ensures View() == ApplyEffect(old(View()), id,
          PollEffect(old(jobs)[id], false, old(jobs)[id].ws in old(locked), backend))
    {
      var kind := ResolveStepType(jobs[id].tcl, jobs[id].steps[i].number);
      if kind == Approval {
        if jobs[id].autoApply {
          SetStepStatus(id, i, StepNotExecuted);
          AdvanceOrComplete(id);
        } else {
          SetStepStatus(id, i, StepWaiting);
          SetJobStatus(id, WaitingApproval);
        }
        return;
      }
      if kind == Skipped {
        SetStepStatus(id, i, StepNotExecuted);
        AdvanceOrComplete(id);
        return;
      }
      SetStepStatus(id, i, StepRunning);
      if jobs[id].ws in locked {
        SetStepStatus(id, i, StepPending);
        assert jobs[id].steps == old(jobs)[id].steps;
        assert jobs == old(jobs);
        return;
      }
      locked := locked + {jobs[id].ws};
      SetJobStatus(id, Running);
      if !backend {
        SetStepStatus(id, i, StepFailed);
        SetJobStatus(id, Failed);
        locked := locked - {jobs[id].ws};
        assert jobs[id].steps == SetStep(old(jobs)[id], i, StepFailed).steps;
        assert locked == old(locked) - {jobs[id].ws};
      }
    }

    /** The hand-over of a started step failed. The handler looks at nothing before it writes. */
    method HandOverFailed(id: nat, i: nat)
      requires id < |jobs| && i < |jobs[id].steps|
      modifies this
      ensures View() == ApplyEffect(old(View()), id, DispatchFailedEffect(old(jobs)[id], i))
      ensures OthersStay(old(jobs), jobs, id) && locked == old(locked) - {jobs[id].ws}
      ensures IsJobWith(jobs[id], old(jobs)[id], Failed, (k, s) => if k == i then StepFailed else s)
      ensures JobEnabled(old(jobs)[id], DispatchFailed(i)) ==> View() == Next(old(View()), On(id, DispatchFailed(i)))
    {
      SetStepStatus(id, i, StepFailed);
      SetJobStatus(id, Failed);
      locked := locked - {jobs[id].ws};
    }

    /** A poll: select up to ten rows, then process each with the status it was read with. */
    method PollJobs(backends: set<nat>)
      modifies this
      ensures View() == PollAll(old(View()), PollRows(old(View()), 0, 10), backends)
      ensures Ok(old(View())) ==> IsPolled(old(View()), View(), backends)
    {
      PollsMoveTheReadyIfOk(View(), backends);
      hide Next, Selected, IsPolled, Ok, PollRows;
      var rows := PollRows(Db(jobs, locked), 0, 10);
      var statuses := seq(|rows|, r requires 0 <= r < |rows| reads this requires rows[r] < |jobs| =>
        jobs[rows[r]].status);
      ghost var start := View();
      for r := 0 to |rows|
        invariant View() == PollAll(start, rows[..r], backends)
        invariant forall k :: r <= k < |rows| ==> rows[k] < |jobs| && jobs[rows[k]].status == statuses[k]
      {
        assert rows[..r + 1][..r] == rows[..r];
        ProcessRow(rows[r], statuses[r], rows[r] in backends);
      }
      assert rows[..|rows|] == rows;
    }

    // ---- Status PATCHes and the reports built on them ----

    /** Updating the job row, then the hooks the new status triggers. */
    method UpdateJobStatus(id: nat, to: JobStatus)
      requires id < |jobs|
      modifies this
      ensures View() == ApplyEffect(old(View()), id, PatchEffect(old(jobs)[id], to))
      ensures OthersStay(old(jobs), jobs, id)
      ensures IsJobWith(jobs[id], old(jobs)[id], to, (k, s) =>
                if to == Cancelled && s in {StepPending, StepRunning, StepWaiting} then StepCancelled
                else if to == NoChanges && s in {StepPending, StepWaiting} then StepNotExecuted
                else if to == Rejected && s in {StepPending, StepWaiting} then StepFailed
                else s)
      ensures locked == if to in {Completed, Failed, Cancelled, Rejected, NoChanges} then old(locked) - {jobs[id].ws}
                        else old(locked)
    {
      SetJobStatus(id, to);
      if to == Cancelled {
        SetStepsWhere(id, {StepPending, StepRunning, StepWaiting}, StepCancelled);
      }
      if to == NoChanges {
        SetStepsWhere(id, {StepPending, StepWaiting}, StepNotExecuted);
      }
      if to == Rejected {
        SetStepsWhere(id, {StepPending, StepWaiting}, StepFailed);
      }
      match to {
        case Completed => locked := locked - {jobs[id].ws};
        case Failed => locked := locked - {jobs[id].ws};
        case NoChanges => locked := locked - {jobs[id].ws};
        case Rejected => locked := locked - {jobs[id].ws};
        case Cancelled => locked := locked - {jobs[id].ws};
        case _ =>
      }
    }

    method SendReport(id: nat, i: nat, report: Report)
      requires id < |jobs| && i < |jobs[id].steps|
      modifies this
      ensures View() == ApplyEffect(old(View()), id, ReportEffect(old(jobs)[id], i, report))
      ensures OthersStay(old(jobs), jobs, id)
      ensures match report
              case Started => IsJobWith(jobs[id], old(jobs)[id], Running, (k, s) => if k == i then StepRunning else s)
              case Succeeded =>
                IsJobWith(jobs[id], old(jobs)[id], Completed, (k, s) => if k == i then StepCompleted else s)
              case Broke => IsJobWith(jobs[id], old(jobs)[id], Failed, (k, s) => if k == i then StepFailed else s)
              case PlanHasChanges =>
                IsJobWith(jobs[id], old(jobs)[id], Pending, (k, s) => if k == i then StepCompleted else s)
              case PlanIsEmpty => IsJobWith(jobs[id], old(jobs)[id], NoChanges, (k, s) =>
                if k == i then StepCompleted else if s in {StepPending, StepWaiting} then StepNotExecuted else s)
      ensures locked == if report in {Succeeded, Broke, PlanIsEmpty} then old(locked) - {jobs[id].ws} else old(locked)
    {
      match report {
        case Started =>
          SetStepStatus(id, i, StepRunning);
          UpdateJobStatus(id, Running);
        case Succeeded =>
          SetStepStatus(id, i, StepCompleted);
          UpdateJobStatus(id, Completed);
        case Broke =>
          SetStepStatus(id, i, StepFailed);
          UpdateJobStatus(id, Failed);
        case PlanHasChanges =>
          SetStepStatus(id, i, StepCompleted);
          UpdateJobStatus(id, Pending);
        case PlanIsEmpty =>
          SetStepStatus(id, i, StepCompleted);
          UpdateJobStatus(id, NoChanges);
      }
    }

    // ---- Approval, cancel and discard requests ----

    /** `found` is false when the request is answered "not found". */
    method ApproveJob(id: nat) returns (found: bool)
      requires id < |jobs|
      modifies this`jobs
      ensures found <==> Has(old(jobs)[id].steps, {StepWaiting})
      ensures View() == Next(old(View()), On(id, Approve))
      ensures OthersStay(old(jobs), jobs, id)
      ensures !found ==> jobs == old(jobs)
      ensures found ==> exists i: nat :: Waits(old(jobs)[id], i) && IsJobWith(jobs[id], old(jobs)[id], Queue, (k, s) =>
                if k == i then StepCompleted else s)
    {
      match FirstWaiting(jobs[id].steps)
      case None => found := false;
      case Some(i) =>
        assert Waits(jobs[id], i);
        SetStepStatus(id, i, StepCompleted);
        SetJobStatus(id, Queue);
        found := true;
    }

    method RejectJob(id: nat) returns (found: bool)
      requires id < |jobs|
      modifies this
      ensures found <==> Has(old(jobs)[id].steps, {StepWaiting})
      ensures View() == Next(old(View()), On(id, Reject))
      ensures OthersStay(old(jobs), jobs, id)
      ensures !found ==> jobs == old(jobs) && locked == old(locked)
      ensures found ==> locked == old(locked) - {jobs[id].ws}
      ensures found ==>
                exists i: nat ::
                  && Waits(old(jobs)[id], i)
                  && IsJobWith(jobs[id], old(jobs)[id], Rejected, (k, s) =>
                       if k == i then StepRejected else if s == StepPending then StepNotExecuted else s)
    {
      match FirstWaiting(jobs[id].steps)
      case None => found := false;
      case Some(i) =>
        assert Waits(jobs[id], i);
        SetStepStatus(id, i, StepRejected);
        SetStepsWhere(id, {StepPending}, StepNotExecuted);
        SetJobStatus(id, Rejected);
        locked := locked - {jobs[id].ws};
        found := true;
    }

    method CancelTheRun(id: nat)
      requires id < |jobs|
      modifies this
      ensures View() == Next(old(View()), On(id, CancelRun))
      ensures OthersStay(old(jobs), jobs, id) && locked == old(locked) - {jobs[id].ws}
      ensures jobs[id] == if old(jobs)[id].status in {Running, Queue, Pending} then old(jobs)[id].(status := Cancelled)
                          else old(jobs)[id]
    {
      if jobs[id].status in {Running, Queue, Pending} { SetJobStatus(id, Cancelled); }
      locked := locked - {jobs[id].ws};
    }

    method DiscardTheRun(id: nat)
      requires id < |jobs|
      modifies this
      ensures View() == Next(old(View()), On(id, DiscardRun))
      ensures OthersStay(old(jobs), jobs, id) && locked == old(locked) - {jobs[id].ws}
      ensures IsJobWith(jobs[id], old(jobs)[id], Cancelled, (k, s) =>
                if s == StepWaiting then StepRejected else if s == StepPending then StepNotExecuted else s)
    {
      SetStepsWhere(id, {StepWaiting}, StepRejected);
      SetStepsWhere(id, {StepPending}, StepNotExecuted);
      SetJobStatus(id, Cancelled);
      locked := locked - {jobs[id].ws};
    }
  }
}
