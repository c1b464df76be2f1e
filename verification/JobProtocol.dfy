/** The rows the scheduler, the approval handlers and the executor's reports work on, and the effect
    each of them has on one job. An effect is what all the statements of one poll row, one request or one
    report do together: the job's new row (with its step rows) and what happens to the workspace lock. */
module JobProtocol {
  import opened Wrappers

  datatype StepStatus =
    StepPending | StepRunning | StepWaiting | StepCompleted | StepFailed | StepCancelled | StepRejected
  | StepNotExecuted

  datatype JobStatus =
    Pending | Queue | Running | WaitingApproval | Approved
  | Completed | Failed | Cancelled | Rejected | NoChanges | NotExecuted

  /** The types a flow entry can name; `Unset` is an entry without a type. */
  datatype StepType = Unset | Approval | Skipped | Execute(name: string)

  datatype FlowEntry = FlowEntry(step: int, kind: StepType)

  /** A job's flow document: absent, not decodable, or decoded. */
  datatype Tcl = NoTcl | Unparsable | Parsed(flow: seq<FlowEntry>)

  datatype Step = Step(number: int, status: StepStatus)

  datatype Job = Job(ws: nat, status: JobStatus, autoApply: bool, tcl: Tcl, steps: seq<Step>)

  /** Job ids are drawn from a sequence, so a job's id is its index; `locked` holds the locked workspaces. */
  datatype Db = Db(jobs: seq<Job>, locked: set<nat>)

  datatype LockOp = Keep | Lock | Unlock

  datatype Effect = Effect(job: Job, lock: LockOp)

  predicate IsTerminal(s: JobStatus) {
    s in {Completed, Failed, Cancelled, Rejected, NoChanges, NotExecuted}
  }

  predicate IsActive(s: JobStatus) {
    s in {Queue, Running, WaitingApproval, Approved}
  }

  predicate IsSettled(s: StepStatus) {
    s !in {StepPending, StepRunning, StepWaiting}
  }

  const PLAN := Execute("terraformPlan")

  /** The type the scheduler acts on for a step number: the first flow entry with that number decides,
      and everything undecided is a plan. */
  function StepTypeOf(tcl: Tcl, number: int): StepType {
    match tcl
    case Parsed(flow) => FlowTypeOf(flow, number)
    case _ => PLAN
  }

  function FlowTypeOf(flow: seq<FlowEntry>, number: int): StepType {
    if flow == [] then PLAN
    else if flow[0].step == number then (if flow[0].kind == Unset then PLAN else flow[0].kind)
    else FlowTypeOf(flow[1..], number)
  }

  /** The steps a new job gets; a flow that cannot be decoded or is empty gives none. */
  function InitialSteps(tcl: Tcl): seq<Step> {
    match tcl
    case NoTcl => [Step(100, StepPending)]
    case Unparsable => []
    case Parsed(flow) => seq(|flow|, i requires 0 <= i < |flow| => Step(flow[i].step, StepPending))
  }

  predicate DistinctNumbers(steps: seq<Step>) {
    forall a, b :: 0 <= a < b < |steps| ==> steps[a].number != steps[b].number
  }

  predicate Has(steps: seq<Step>, wanted: set<StepStatus>) {
    exists i :: 0 <= i < |steps| && steps[i].status in wanted
  }

  /** `UPDATE step SET status = to WHERE job_id = … AND status IN (from)`. */
  function SetWhere(steps: seq<Step>, from: set<StepStatus>, to: StepStatus): seq<Step> {
    seq(|steps|, i requires 0 <= i < |steps| =>
      if steps[i].status in from then steps[i].(status := to) else steps[i])
  }

  function SetStep(job: Job, i: nat, to: StepStatus): Job
    requires i < |job.steps|
  {
    job.(steps := job.steps[i := job.steps[i].(status := to)])
  }

  /** The pending step with the smallest number, as `ORDER BY step_number ASC LIMIT 1` finds it. */
  function FirstPending(steps: seq<Step>): (r: Option<nat>)
    ensures r.None? <==> !Has(steps, {StepPending})
    ensures r.Some? ==> r.value < |steps| && steps[r.value].status == StepPending
    ensures r.Some? ==> forall k :: 0 <= k < |steps| && steps[k].status == StepPending ==>
        steps[r.value].number <= steps[k].number
  {
    if steps == [] then None
    else
      var n := |steps| - 1;
      var rest := FirstPending(steps[..n]);
      assert steps == steps[..n] + [steps[n]];
      if steps[n].status == StepPending && (rest.None? || steps[n].number < steps[rest.value].number) then
        assert forall k :: 0 <= k < n ==> steps[..n][k] == steps[k];
        Some(n)
      else
        assert forall k :: 0 <= k < n ==> steps[..n][k] == steps[k];
        rest
  }

  /** The first step that waits for approval, as `LIMIT 1` finds it. */
  function FirstWaiting(steps: seq<Step>): (r: Option<nat>)
    ensures r.None? <==> !Has(steps, {StepWaiting})
    ensures r.Some? ==> r.value < |steps| && steps[r.value].status == StepWaiting
  {
    if steps == [] then None
    else
      var n := |steps| - 1;
      var rest := FirstWaiting(steps[..n]);
      assert forall k :: 0 <= k < n ==> steps[..n][k] == steps[k];
      if rest.Some? then rest else if steps[n].status == StepWaiting then Some(n) else None
  }

  // ---- What the scheduler does with one poll row ----

  function CompleteEffect(job: Job): Effect {
    if Has(job.steps, {StepPending, StepRunning, StepWaiting}) then Effect(job, Keep)
    else Effect(job.(status := if Has(job.steps, {StepFailed}) then Failed else Completed), Unlock)
  }

  function AdvanceEffect(job: Job): Effect {
    if Has(job.steps, {StepPending}) then Effect(job, Keep) else CompleteEffect(job)
  }

  /** `older`: an older job of the workspace is not terminal; `locked`: the workspace is locked;
      `backend`: an agent or the ephemeral executor can take the step. */
  function PollEffect(job: Job, older: bool, locked: bool, backend: bool): Effect {
    match job.status
    case Pending =>
      if older then Effect(job, Keep) else Effect(job.(status := Queue), Unlock)
    case Approved =>
      if older then Effect(job, Keep)
      else Effect(job.(status := Queue, steps := SetWhere(job.steps, {StepWaiting}, StepCompleted)), Unlock)
    case Queue =>
      (match FirstPending(job.steps)
       case None => CompleteEffect(job)
       case Some(i) =>
         match StepTypeOf(job.tcl, job.steps[i].number)
         case Approval =>
           if job.autoApply then AdvanceEffect(SetStep(job, i, StepNotExecuted))
           else Effect(SetStep(job, i, StepWaiting).(status := WaitingApproval), Keep)
         case Skipped => AdvanceEffect(SetStep(job, i, StepNotExecuted))
         case _ =>
           if locked then Effect(job, Keep)
           else if backend then Effect(SetStep(job, i, StepRunning).(status := Running), Lock)
           else Effect(SetStep(job, i, StepFailed).(status := Failed), Unlock))
    case _ => Effect(job, Keep)
  }

  // ---- What a PATCH of the job's status does, and the reports built on it ----

  function PatchEffect(job: Job, to: JobStatus): Effect {
    match to
    case Cancelled =>
      Effect(job.(status := to, steps := SetWhere(job.steps, {StepPending, StepRunning, StepWaiting}, StepCancelled)),
          Unlock)
    case NoChanges =>
      Effect(job.(status := to, steps := SetWhere(job.steps, {StepPending, StepWaiting}, StepNotExecuted)), Unlock)
    case Rejected =>
      Effect(job.(status := to, steps := SetWhere(job.steps, {StepPending, StepWaiting}, StepFailed)), Unlock)
    case Completed => Effect(job.(status := to), Unlock)
    case Failed => Effect(job.(status := to), Unlock)
    case _ => Effect(job.(status := to), Keep)
  }

  datatype Report = Started | Succeeded | Broke | PlanHasChanges | PlanIsEmpty

  /** Every report is a step update followed by a job PATCH. */
  function ReportEffect(job: Job, i: nat, report: Report): Effect
    requires i < |job.steps|
  {
    match report
    case Started => PatchEffect(SetStep(job, i, StepRunning), Running)
    case Succeeded => PatchEffect(SetStep(job, i, StepCompleted), Completed)
    case Broke => PatchEffect(SetStep(job, i, StepFailed), Failed)
    case PlanHasChanges => PatchEffect(SetStep(job, i, StepCompleted), Pending)
    case PlanIsEmpty => PatchEffect(SetStep(job, i, StepCompleted), NoChanges)
  }

  // ---- What the approval, cancel and discard requests do ----

  function ApproveEffect(job: Job): Effect {
    match FirstWaiting(job.steps)
    case None => Effect(job, Keep)
    case Some(i) => Effect(SetStep(job, i, StepCompleted).(status := Queue), Keep)
  }

  function RejectEffect(job: Job): Effect {
    match FirstWaiting(job.steps)
    case None => Effect(job, Keep)
    case Some(i) =>
      var stepped := SetStep(job, i, StepRejected);
      Effect(stepped.(status := Rejected, steps := SetWhere(stepped.steps, {StepPending}, StepNotExecuted)), Unlock)
  }

  function CancelRunEffect(job: Job): Effect {
    Effect(if job.status in {Running, Queue, Pending} then job.(status := Cancelled) else job, Unlock)
  }

  function DiscardEffect(job: Job): Effect {
    var steps := SetWhere(SetWhere(job.steps, {StepWaiting}, StepRejected), {StepPending}, StepNotExecuted);
    Effect(job.(status := Cancelled, steps := steps), Unlock)
  }

  function DispatchFailedEffect(job: Job, i: nat): Effect
    requires i < |job.steps|
  {
    Effect(SetStep(job, i, StepFailed).(status := Failed), Unlock)
  }

  // ---- The transition system ----

  datatype JobEvent =
    Poll(backend: bool)
  | DispatchFailed(step: nat)
  | Reported(step: nat, report: Report)
  | Approve
  | Reject
  | Patch(to: JobStatus)
  | CancelRun
  | DiscardRun

  datatype Event =
    Create(ws: nat, autoApply: bool, tcl: Tcl)
  | UploadState(ws: nat)
  | On(id: nat, what: JobEvent)
  | UserLock(ws: nat)
  | UserUnlock(ws: nat)

  predicate OlderActive(db: Db, id: nat)
    requires id < |db.jobs|
  {
    exists k :: 0 <= k < id && db.jobs[k].ws == db.jobs[id].ws && !IsTerminal(db.jobs[k].status)
  }

  /** Which events can happen to a job. An executor reports on the step it runs and only while the job is
      running; a failed hand-over is noticed at any time after the step was dispatched, unless a step of the job
      waits for approval; the UI offers Approve on waiting jobs; Discard and Cancel are accepted at any time. */
  predicate JobEnabled(job: Job, e: JobEvent) {
    match e
    case DispatchFailed(i) =>
      && i < |job.steps| && job.steps[i].status !in {StepPending, StepWaiting}
      && !Has(job.steps, {StepWaiting})
    case Reported(i, _) => i < |job.steps| && job.status == Running && job.steps[i].status == StepRunning
    case Patch(to) => to in {Cancelled, Rejected} || (to == Approved && job.status == WaitingApproval)
    case _ => true
  }

  function JobEffect(job: Job, e: JobEvent, older: bool, locked: bool): Effect
    requires JobEnabled(job, e)
  {
    match e
    case Poll(backend) => PollEffect(job, older, locked, backend)
    case DispatchFailed(i) => DispatchFailedEffect(job, i)
    case Reported(i, report) => ReportEffect(job, i, report)
    case Approve => ApproveEffect(job)
    case Reject => RejectEffect(job)
    case Patch(to) => PatchEffect(job, to)
    case CancelRun => CancelRunEffect(job)
    case DiscardRun => DiscardEffect(job)
  }

  function ApplyLock(locked: set<nat>, ws: nat, op: LockOp): set<nat> {
    match op
    case Keep => locked
    case Lock => locked + {ws}
    case Unlock => locked - {ws}
  }

  function ApplyEffect(db: Db, id: nat, eff: Effect): Db
    requires id < |db.jobs|
  {
    Db(db.jobs[id := eff.job], ApplyLock(db.locked, db.jobs[id].ws, eff.lock))
  }

  predicate Enabled(db: Db, e: Event) {
    match e
    case Create(_, _, tcl) => DistinctNumbers(InitialSteps(tcl))
    case On(id, what) => id < |db.jobs| && JobEnabled(db.jobs[id], what)
    case _ => true
  }

  function Next(db: Db, e: Event): Db
    requires Enabled(db, e)
  {
    match e
    case Create(ws, autoApply, tcl) =>
      db.(jobs := db.jobs + [Job(ws, Pending, autoApply, tcl, InitialSteps(tcl))])
    case UploadState(ws) =>
      db.(jobs := db.jobs + [Job(ws, Completed, false, NoTcl, [Step(100, StepCompleted)])])
    case On(id, what) =>
      var job := db.jobs[id];
      ApplyEffect(db, id, JobEffect(job, what, OlderActive(db, id), job.ws in db.locked))
    case UserLock(ws) => db.(locked := db.locked + {ws})
    case UserUnlock(ws) => db.(locked := db.locked - {ws})
  }
}
