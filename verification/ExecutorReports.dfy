/** Which reports an executor sends for a step, and what they mean for the steps behind it. */
module ExecutorReports {
  import opened JobProtocol
  import opened JobInvariants
  import opened JobRuns

  /** How the phases of an execution went; a phase that was not reached is not looked at. */
  datatype Execution = Execution(
    workspaceReady: bool, installed: bool, backendWritten: bool, credentialsWritten: bool, beforeInitWorked: bool,
    terraformWorked: bool, exitCode: int, scriptsWorked: bool)

  predicate IsPlanKind(kind: string) { kind == "terraformPlan" || kind == "terraformPlanDestroy" }

  predicate IsTerraformKind(kind: string) { IsPlanKind(kind) || kind == "terraformApply" || kind == "terraformDestroy" }

  predicate IsScriptKind(kind: string) { kind == "customScripts" || kind == "approval" }

  /** An execution that ends without a word: its step and its job stay running. */
  predicate EndsSilently(kind: string, x: Execution) {
    && IsTerraformKind(kind) && x.workspaceReady
    && (!x.installed || (x.backendWritten && x.credentialsWritten && !x.beforeInitWorked))
  }

  method ExecuteTerraform(kind: string, x: Execution) returns (reports: seq<Report>)
    requires IsTerraformKind(kind)
    ensures |reports| <= 1
    ensures reports == [] <==> !x.installed || (x.backendWritten && x.credentialsWritten && !x.beforeInitWorked)
    ensures PlanHasChanges in reports ==> IsPlanKind(kind) && x.exitCode == 2
    ensures PlanIsEmpty in reports ==> IsPlanKind(kind) && x.exitCode != 2
    ensures Succeeded in reports ==> !IsPlanKind(kind)
    ensures reports != [] && reports != [Broke] <==>
              x.installed && x.backendWritten && x.credentialsWritten && x.beforeInitWorked && x.terraformWorked
    ensures Started !in reports
    ensures reports == [Broke] <==>
              x.installed && (!x.backendWritten || !x.credentialsWritten || (x.beforeInitWorked && !x.terraformWorked))
    ensures reports == [PlanHasChanges] <==> AllWorked(x) && IsPlanKind(kind) && x.exitCode == 2
    ensures reports == [PlanIsEmpty] <==> AllWorked(x) && IsPlanKind(kind) && x.exitCode != 2
    ensures reports == [Succeeded] <==> AllWorked(x) && !IsPlanKind(kind)
  {
    if !x.installed {
      return [];
    }
    if !x.backendWritten || !x.credentialsWritten {
      return [Broke];
    }
    if !x.beforeInitWorked {
      return [];
    }
    if !x.terraformWorked {
      return [Broke];
    }
    if IsPlanKind(kind) && x.exitCode == 2 {
      reports := [PlanHasChanges];
    } else if IsPlanKind(kind) {
      reports := [PlanIsEmpty];
    } else {
      reports := [Succeeded];
    }
  }

  /** Every phase of a terraform execution went well. */
  predicate AllWorked(x: Execution) {
    x.installed && x.backendWritten && x.credentialsWritten && x.beforeInitWorked && x.terraformWorked
  }

  /** The reports of one execution, in order. A passed approval reports as a plan with changes does. */
  method ProcessJob(kind: string, x: Execution) returns (reports: seq<Report>)
    ensures 1 <= |reports| <= 2 && reports[0] == Started
    ensures |reports| == 1 <==> EndsSilently(kind, x)
    ensures |reports| == 2 ==> reports[1] != Started && MaySay(kind, reports[1])
    ensures |reports| == 2 && reports[1] == PlanHasChanges && kind != "approval" ==> IsPlanKind(kind) && x.exitCode == 2
    ensures |reports| == 1 <==>
              && x.workspaceReady
              && kind in {"terraformPlan", "terraformPlanDestroy", "terraformApply", "terraformDestroy"}
              && (!x.installed || (x.backendWritten && x.credentialsWritten && !x.beforeInitWorked))
    ensures |reports| == 2 && reports[1] == Broke <==>
              || !x.workspaceReady
              || kind !in {"terraformPlan", "terraformPlanDestroy", "terraformApply", "terraformDestroy",
                           "customScripts", "approval"}
              || (kind in {"customScripts", "approval"} && !x.scriptsWorked)
              || (&& kind in {"terraformPlan", "terraformPlanDestroy", "terraformApply", "terraformDestroy"}
                  && x.installed
                  && (!x.backendWritten || !x.credentialsWritten || (x.beforeInitWorked && !x.terraformWorked)))
    ensures |reports| == 2 && reports[1] == Succeeded <==>
              && x.workspaceReady
              && (|| (kind == "customScripts" && x.scriptsWorked)
                  || (kind in {"terraformApply", "terraformDestroy"} && AllWorked(x)))
    ensures |reports| == 2 && reports[1] == PlanHasChanges <==>
              && x.workspaceReady
              && (|| (kind == "approval" && x.scriptsWorked)
                  || (kind in {"terraformPlan", "terraformPlanDestroy"} && AllWorked(x) && x.exitCode == 2))
    ensures |reports| == 2 && reports[1] == PlanIsEmpty <==>
              && x.workspaceReady && kind in {"terraformPlan", "terraformPlanDestroy"}
              && AllWorked(x) && x.exitCode != 2
  {
    reports := [Started];
    if !x.workspaceReady {
      reports := reports + [Broke];
      return;
    }
    if IsTerraformKind(kind) {
      var more := ExecuteTerraform(kind, x);
      if |more| == 1 {
        assert more[0] in more;
      }
      reports := reports + more;
    } else if IsScriptKind(kind) {
      if !x.scriptsWorked {
        reports := reports + [Broke];
      } else if kind == "approval" {
        reports := reports + [PlanHasChanges];
      } else {
        reports := reports + [Succeeded];
      }
    } else {
      reports := reports + [Broke];
    }
  }

  /** The final reports an executor can send for a step of a kind. */
  predicate MaySay(kind: string, report: Report) {
    match report
    case Started => true
    case Broke => true
    case Succeeded => !IsPlanKind(kind)
    case PlanHasChanges => IsPlanKind(kind) || kind == "approval"
    case PlanIsEmpty => IsPlanKind(kind)
  }

  // ---- What lies behind an executed step ----

  /** A step that executed is completed, with its job still going on, by one kind of event only. */
  lemma OnlyAPlanWithChangesGoesOn(job: Job, e: JobEvent, older: bool, locked: bool, a: nat, after: Job)
    requires JobOk(job) && JobEnabled(job, e) && after == JobEffect(job, e, older, locked).job
    requires a < |job.steps| == |after.steps| && StepTypeOf(job.tcl, job.steps[a].number) != Approval
    requires !IsTerminal(job.status) && !IsTerminal(after.status)
    requires job.steps[a].status != StepCompleted && after.steps[a].status == StepCompleted
    ensures e == Reported(a, PlanHasChanges)
  {
    hide StepTypeOf;
    if e.Poll? {
      PollCompletesOnlyGates(job, older, locked, e.backend, a, after);
    } else if e == Approve {
      ApproveCompletesOnlyGates(job, a);
    }
  }

  lemma ApproveCompletesOnlyGates(job: Job, a: nat)
    requires JobOk(job) && !IsTerminal(job.status)
    requires a < |job.steps| && StepTypeOf(job.tcl, job.steps[a].number) != Approval
    ensures ApproveEffect(job).job.steps[a] == job.steps[a]
  {
    hide StepTypeOf;
    var w := FirstWaiting(job.steps);
    assert w.Some? ==> w.value != a;
  }

  lemma PollCompletesOnlyGates(job: Job, older: bool, locked: bool, backend: bool, a: nat, after: Job)
    requires JobOk(job) && after == PollEffect(job, older, locked, backend).job && !IsTerminal(job.status)
    requires a < |job.steps| == |after.steps| && StepTypeOf(job.tcl, job.steps[a].number) != Approval
    ensures after.steps[a].status == StepCompleted ==> job.steps[a].status == StepCompleted
  {
    hide StepTypeOf;
  }

  ghost predicate Reports(events: seq<Event>, m: nat, id: nat, a: nat, report: Report) {
    m < |events| && events[m] == On(id, Reported(a, report))
  }

  lemma {:induction false} CompletedStepsHadChanges(states: seq<Db>, events: seq<Event>, k: nat, id: nat, a: nat)
    requires IsRun(states, events) && k < |states| && id < |states[k].jobs| && a < |states[k].jobs[id].steps|
    requires StepTypeOf(states[k].jobs[id].tcl, states[k].jobs[id].steps[a].number) != Approval
    requires !IsTerminal(states[k].jobs[id].status) && states[k].jobs[id].steps[a].status == StepCompleted
    ensures exists m :: 0 <= m < k && Reports(events, m, id, a, PlanHasChanges)
  {
    hide Next, Ok, StepTypeOf, Enabled, JobEffect;
    var db, e := states[k - 1], events[k - 1];
    assert states[k] == Next(db, e);
    if id >= |db.jobs| {
      NewJobsHaveNothingCompleted(db, e, id, a);
      assert false;
    }
    ReachableOk(states, events, k - 1);
    JobsStay(states, events, k - 1, k, id);
    if IsTerminal(db.jobs[id].status) {
      FinishedStaysFinished(states, events, k - 1, k, id);
    } else if db.jobs[id].steps[a].status == StepCompleted {
      CompletedStepsHadChanges(states, events, k - 1, id, a);
    } else {
      JobCompletes(db, e, id, a);
      assert Reports(events, k - 1, id, a, PlanHasChanges);
    }
  }

  lemma NewJobsHaveNothingCompleted(db: Db, e: Event, id: nat, a: nat)
    requires Enabled(db, e) && |db.jobs| <= id < |Next(db, e).jobs| && a < |Next(db, e).jobs[id].steps|
    ensures IsTerminal(Next(db, e).jobs[id].status) || Next(db, e).jobs[id].steps[a].status == StepPending
  {
  }

  lemma JobCompletes(db: Db, e: Event, id: nat, a: nat)
    requires Ok(db) && Enabled(db, e) && id < |db.jobs| && id < |Next(db, e).jobs|
    requires a < |db.jobs[id].steps| == |Next(db, e).jobs[id].steps|
    requires StepTypeOf(db.jobs[id].tcl, db.jobs[id].steps[a].number) != Approval
    requires !IsTerminal(db.jobs[id].status) && !IsTerminal(Next(db, e).jobs[id].status)
    requires db.jobs[id].steps[a].status != StepCompleted && Next(db, e).jobs[id].steps[a].status == StepCompleted
    ensures e == On(id, Reported(a, PlanHasChanges))
  {
    hide StepTypeOf, JobEffect;
    OnlyOwnEventsMoveAJob(db, e, id);
    OnlyAPlanWithChangesGoesOn(db.jobs[id], e.what, OlderActive(db, id),
        db.jobs[id].ws in db.locked, a, Next(db, e).jobs[id]);
  }

  /** Over every run: a step is started only if every earlier step that is no gate was skipped or ended in the report of
      a plan with changes. Every other end of an executed step is the end of its job. */
  lemma LaterStepsFollowPlansWithChanges(states: seq<Db>, events: seq<Event>, k: nat, id: nat, i: nat, a: nat)
    requires IsRun(states, events) && k < |events| && Starts(states[k], states[k + 1], id, i)
    requires a < |states[k].jobs[id].steps| && states[k].jobs[id].steps[a].number < states[k].jobs[id].steps[i].number
    requires StepTypeOf(states[k].jobs[id].tcl, states[k].jobs[id].steps[a].number) != Approval
    ensures || states[k].jobs[id].steps[a].status == StepNotExecuted
            || exists m :: 0 <= m < k && Reports(events, m, id, a, PlanHasChanges)
  {
    DispatchComesInTurn(states, events, k, id, i);
    if states[k].jobs[id].steps[a].status == StepCompleted {
      CompletedStepsHadChanges(states, events, k, id, a);
    }
  }

  /** So a flow ends at its first apply: no step behind an executed apply, destroy or script is ever started. */
  lemma NothingRunsBehindAnApply(states: seq<Db>, events: seq<Event>, k: nat, id: nat, i: nat, a: nat, kind: string)
    requires IsRun(states, events) && k < |events| && Starts(states[k], states[k + 1], id, i)
    requires a < |states[k].jobs[id].steps| && states[k].jobs[id].steps[a].number < states[k].jobs[id].steps[i].number
    requires StepTypeOf(states[k].jobs[id].tcl, states[k].jobs[id].steps[a].number) == Execute(kind)
    requires kind == "terraformApply" || kind == "terraformDestroy" || kind == "customScripts"
    requires forall m, report :: 0 <= m < |events| && Reports(events, m, id, a, report) ==> MaySay(kind, report)
    ensures states[k].jobs[id].steps[a].status == StepNotExecuted
  {
    LaterStepsFollowPlansWithChanges(states, events, k, id, i, a);
    if m :| 0 <= m < k && Reports(events, m, id, a, PlanHasChanges) {
      assert MaySay(kind, PlanHasChanges);
    }
  }
}
