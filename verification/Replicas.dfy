/** The dispatch loop seen statement by statement: any number of API replicas interleave their SQL statements with each
    other and with every other writer of the step and workspace rows. A step is handed to an executor at most once. */
module Replicas {
  import opened JobProtocol

  /** Where a replica is in its dispatch of a step. */
  datatype Pc =
    Idle
  | HasRead(step: nat)       // the step was read as pending
  | HasClaimed(step: nat)    // the claiming UPDATE matched
  | HoldsLock(step: nat)     // the workspace UPDATE matched; the hand-over comes next
  | MustHandBack(step: nat)  // the workspace UPDATE did not match
  | MustRelease(step: nat)   // there was no executor; the workspace is unlocked next

  /** `rows[s]` is step s, `workspaceOf[s]` its workspace, `handedOver` the steps given to executors so far. */
  datatype World = World(rows: seq<StepStatus>, workspaceOf: seq<nat>, locked: set<nat>,
      pcs: seq<Pc>, handedOver: seq<nat>)

  datatype Statement =
    ReadPending(r: nat, s: nat)
  | ClaimStep(r: nat)
  | ClaimWorkspace(r: nat)
  | HandBack(r: nat)
  | HandOver(r: nat)
  | GiveUp(r: nat)                       // no executor can take the step
  | Release(r: nat)                      // the replica unlocks the workspace after giving up
  | ReleaseLate(s: nat)                  // the hand-over of a step failed: its workspace is unlocked in the background
  | Restart(r: nat)                      // the replica dies and starts over
  | Join                                 // another replica starts
  | Insert(ws: nat)                      // a new job brings a new pending step
  | Overwrite(s: nat, to: StepStatus)    // any other UPDATE of a step row: cancel, report, approval, discard, failure
  | SetLock(ws: nat, on: bool)           // any other UPDATE of a workspace row

  /** Only new rows and hand-backs ever make a step pending; no other statement of the platform does. */
  predicate Possible(w: World, e: Statement) {
    match e
    case ReadPending(r, s) => r < |w.pcs| && w.pcs[r] == Idle && s < |w.rows| && w.rows[s] == StepPending
    case ClaimStep(r) => r < |w.pcs| && w.pcs[r].HasRead? && w.pcs[r].step < |w.rows|
    case ClaimWorkspace(r) => r < |w.pcs| && w.pcs[r].HasClaimed? && w.pcs[r].step < |w.workspaceOf|
    case HandBack(r) => r < |w.pcs| && w.pcs[r].MustHandBack? && w.pcs[r].step < |w.rows|
    case HandOver(r) => r < |w.pcs| && w.pcs[r].HoldsLock? && w.pcs[r].step < |w.rows|
    case GiveUp(r) => r < |w.pcs| && w.pcs[r].HoldsLock? && w.pcs[r].step < |w.rows|
    case Release(r) => r < |w.pcs| && w.pcs[r].MustRelease? && w.pcs[r].step < |w.workspaceOf|
    case ReleaseLate(s) => s in w.handedOver && s < |w.workspaceOf|
    case Restart(r) => r < |w.pcs|
    case Overwrite(s, to) => s < |w.rows| && to != StepPending
    case _ => true
  }

  function Execute(w: World, e: Statement): World
    requires Possible(w, e)
  {
    match e
    case ReadPending(r, s) => w.(pcs := w.pcs[r := HasRead(s)])
    case ClaimStep(r) =>
      var s := w.pcs[r].step;
      if w.rows[s] == StepPending then w.(rows := w.rows[s := StepRunning], pcs := w.pcs[r := HasClaimed(s)])
      else w.(pcs := w.pcs[r := Idle])
    case ClaimWorkspace(r) =>
      var s := w.pcs[r].step;
      if w.workspaceOf[s] !in w.locked then
        w.(locked := w.locked + {w.workspaceOf[s]}, pcs := w.pcs[r := HoldsLock(s)])
      else w.(pcs := w.pcs[r := MustHandBack(s)])
    case HandBack(r) =>
      var s := w.pcs[r].step;
      w.(rows := if w.rows[s] == StepRunning then w.rows[s := StepPending] else w.rows, pcs := w.pcs[r := Idle])
    case HandOver(r) => w.(handedOver := w.handedOver + [w.pcs[r].step], pcs := w.pcs[r := Idle])
    case GiveUp(r) =>
      var s := w.pcs[r].step;
      w.(rows := w.rows[s := StepFailed], pcs := w.pcs[r := MustRelease(s)])
    case Release(r) => w.(locked := w.locked - {w.workspaceOf[w.pcs[r].step]}, pcs := w.pcs[r := Idle])
    case ReleaseLate(s) => w.(locked := w.locked - {w.workspaceOf[s]})
    case Restart(r) => w.(pcs := w.pcs[r := Idle])
    case Join => w.(pcs := w.pcs + [Idle])
    case Insert(ws) => w.(rows := w.rows + [StepPending], workspaceOf := w.workspaceOf + [ws])
    case Overwrite(s, to) => w.(rows := w.rows[s := to])
    case SetLock(ws, on) => w.(locked := if on then w.locked + {ws} else w.locked - {ws})
  }

  ghost predicate IsInterleaving(worlds: seq<World>, statements: seq<Statement>) {
    && |worlds| == |statements| + 1
    && worlds[0] == World([], [], {}, [], [])
    && forall k :: 0 <= k < |statements| ==>
         Possible(worlds[k], statements[k]) && worlds[k + 1] == Execute(worlds[k], statements[k])
  }

  /** The replica's claim on the step is in force. */
  predicate Owns(w: World, r: nat, s: nat) {
    r < |w.pcs| && (w.pcs[r] == HasClaimed(s) || w.pcs[r] == HoldsLock(s) || w.pcs[r] == MustHandBack(s))
  }

  /** A step is pending, or owned by one replica, or handed over once, or none of these: never two of them. */
  ghost predicate Safe(w: World) {
    && InRange(w)
    && (forall r: nat, s: nat :: Owns(w, r, s) ==> w.rows[s] != StepPending && s !in w.handedOver)
    && (forall q: nat, r: nat, s: nat :: Owns(w, q, s) && Owns(w, r, s) ==> q == r)
    && HandedOverOnce(w)
  }

  predicate InRange(w: World) {
    && |w.rows| == |w.workspaceOf|
    && (forall r :: 0 <= r < |w.pcs| && !w.pcs[r].Idle? ==> w.pcs[r].step < |w.rows|)
  }

  predicate HandedOverOnce(w: World) {
    && (forall i :: 0 <= i < |w.handedOver| ==> w.handedOver[i] < |w.rows| && w.rows[w.handedOver[i]] != StepPending)
    && (forall i, j :: 0 <= i < j < |w.handedOver| ==> w.handedOver[i] != w.handedOver[j])
  }

  lemma ExecuteKeepsRange(w: World, e: Statement)
    requires InRange(w) && Possible(w, e)
    ensures InRange(Execute(w, e))
  {
  }

  lemma ExecuteHandsOverOnce(w: World, e: Statement)
    requires Safe(w) && Possible(w, e)
    ensures HandedOverOnce(Execute(w, e))
  {
    match e
    case HandBack(h) => assert Owns(w, h, w.pcs[h].step);
    case HandOver(h) => assert Owns(w, h, w.pcs[h].step);
    case _ =>
  }

  lemma ExecuteKeepsSafe(w: World, e: Statement)
    requires Safe(w) && Possible(w, e)
    ensures Safe(Execute(w, e))
  {
    ExecuteKeepsRange(w, e);
    ExecuteHandsOverOnce(w, e);
    hide HandedOverOnce;
    var after := Execute(w, e);
    forall r: nat, s: nat | Owns(after, r, s) && !Owns(w, r, s) ensures e == ClaimStep(r) && w.rows[s] == StepPending {}
    match e
    case HandBack(h) =>
      assert Owns(w, h, w.pcs[h].step);
      assert !Owns(after, h, w.pcs[h].step);
    case HandOver(h) =>
      assert Owns(w, h, w.pcs[h].step);
      assert !Owns(after, h, w.pcs[h].step);
    case _ =>
  }

  lemma {:induction false} InterleavingsAreSafe(worlds: seq<World>, statements: seq<Statement>, k: nat)
    requires IsInterleaving(worlds, statements) && k < |worlds|
    ensures Safe(worlds[k])
  {
    if k > 0 {
      InterleavingsAreSafe(worlds, statements, k - 1);
      ExecuteKeepsSafe(worlds[k - 1], statements[k - 1]);
    }
  }

  /** Whatever the interleaving, no step is handed to an executor twice. */
  lemma AtMostOnceDispatch(worlds: seq<World>, statements: seq<Statement>, k: nat, i: nat, j: nat)
    requires IsInterleaving(worlds, statements) && k < |worlds|
    requires i < |worlds[k].handedOver| && j < |worlds[k].handedOver| &&
        worlds[k].handedOver[i] == worlds[k].handedOver[j]
    ensures i == j
  {
    InterleavingsAreSafe(worlds, statements, k);
  }

  /** Statement `m` is the replica's successful claim of the step. */
  ghost predicate Claims(worlds: seq<World>, statements: seq<Statement>, m: nat, r: nat, s: nat) {
    && m < |statements| && m + 1 < |worlds|
    && statements[m] == ClaimStep(r) && s < |worlds[m].rows| && worlds[m].rows[s] == StepPending
    && !Owns(worlds[m], r, s) && Owns(worlds[m + 1], r, s)
  }

  /** An owner has owned the step without a break since its own claim. */
  lemma {:induction false} OwnersClaimed(worlds: seq<World>, statements: seq<Statement>, k: nat, r: nat, s: nat)
    returns (m: nat)
    requires IsInterleaving(worlds, statements) && k < |worlds| && Owns(worlds[k], r, s)
    ensures m < k && Claims(worlds, statements, m, r, s)
    ensures forall n :: m < n <= k ==> Owns(worlds[n], r, s)
  {
    if Owns(worlds[k - 1], r, s) {
      m := OwnersClaimed(worlds, statements, k - 1, r, s);
    } else {
      m := k - 1;
      InterleavingsAreSafe(worlds, statements, k - 1);
    }
  }

  /** A hand-back that changes a row undoes the replica's own claim only: since that claim the step was never
      pending, so nobody else can have claimed it, and it has not been handed to an executor. */
  lemma HandBackUndoesItsOwnClaim(worlds: seq<World>, statements: seq<Statement>, k: nat, r: nat) returns (m: nat)
    requires IsInterleaving(worlds, statements) && k < |statements| && statements[k] == HandBack(r)
    ensures var s := worlds[k].pcs[r].step;
            && m < k && Claims(worlds, statements, m, r, s)
            && (forall n :: m < n <= k ==>
                  s < |worlds[n].rows| && worlds[n].rows[s] != StepPending && s !in worlds[n].handedOver)
            && (forall q: nat, n: nat :: m < n < k ==> !Claims(worlds, statements, n, q, s))
            && worlds[k + 1].rows ==
                (if worlds[k].rows[s] == StepRunning then worlds[k].rows[s := StepPending] else worlds[k].rows)
  {
    var s := worlds[k].pcs[r].step;
    m := OwnersClaimed(worlds, statements, k, r, s);
    forall n | m < n <= k
      ensures s < |worlds[n].rows| && worlds[n].rows[s] != StepPending && s !in worlds[n].handedOver
    {
      InterleavingsAreSafe(worlds, statements, n);
      assert Owns(worlds[n], r, s);
    }
  }

  /** Statement `m` takes the workspace's lock for a dispatch. */
  ghost predicate TakesWorkspace(worlds: seq<World>, statements: seq<Statement>, m: nat, ws: nat) {
    && m < |statements| && m < |worlds| && statements[m].ClaimWorkspace? && Possible(worlds[m], statements[m])
    && worlds[m].workspaceOf[worlds[m].pcs[statements[m].r].step] == ws && ws !in worlds[m].locked
  }

  /** A statement that unlocks the workspace: anybody's own, or that of a dispatch of one of its steps that failed. */
  predicate Unlocks(w: World, e: Statement, ws: nat)
    requires Possible(w, e)
  {
    || e == SetLock(ws, false)
    || (e.Release? && w.workspaceOf[w.pcs[e.r].step] == ws)
    || (e.ReleaseLate? && w.workspaceOf[e.s] == ws)
  }

  /** A lock is cleared by exactly these statements. */
  lemma LocksAreClearedBy(w: World, e: Statement, ws: nat)
    requires Possible(w, e) && ws in w.locked
    ensures ws !in Execute(w, e).locked <==> Unlocks(w, e, ws)
  {
  }

  /** A lock that was taken stays until such a statement, whatever the interleaving. */
  lemma {:induction false} LocksStayUntilReleased(worlds: seq<World>, statements: seq<Statement>,
      m: nat, n: nat, ws: nat)
    requires IsInterleaving(worlds, statements) && m < n < |worlds| && TakesWorkspace(worlds, statements, m, ws)
    ensures ws in worlds[n].locked || exists u :: m < u < n && Unlocks(worlds[u], statements[u], ws)
    decreases n
  {
    if n == m + 1 {
    } else {
      LocksStayUntilReleased(worlds, statements, m, n - 1, ws);
      assert worlds[n] == Execute(worlds[n - 1], statements[n - 1]);
      if ws in worlds[n - 1].locked {
        LocksAreClearedBy(worlds[n - 1], statements[n - 1], ws);
      }
    }
  }

  /** Two dispatches take the same workspace only if it was unlocked in between, whatever the interleaving. */
  lemma WorkspacesAreTakenInTurn(worlds: seq<World>, statements: seq<Statement>, m: nat, n: nat, ws: nat)
    requires IsInterleaving(worlds, statements) && m < n
    requires TakesWorkspace(worlds, statements, m, ws) && TakesWorkspace(worlds, statements, n, ws)
    ensures exists u :: m < u < n && Unlocks(worlds[u], statements[u], ws)
  {
    LocksStayUntilReleased(worlds, statements, m, n, ws);
  }

  /** A replica about to unlock after giving up has claimed the step and owned it without a break until it gave up: what
      it unlocks is the workspace of a step of its own. */
  lemma {:induction false} ReleasesFollowGivingUp(worlds: seq<World>, statements: seq<Statement>,
      k: nat, r: nat, s: nat)
    returns (g: nat, m: nat)
    requires IsInterleaving(worlds, statements) && k < |worlds|
    requires r < |worlds[k].pcs| && worlds[k].pcs[r] == MustRelease(s)
    ensures m < g < k && Claims(worlds, statements, m, r, s) && statements[g] == GiveUp(r)
    ensures forall n :: m < n <= g ==> Owns(worlds[n], r, s)
    ensures forall n :: g < n <= k ==> r < |worlds[n].pcs| && worlds[n].pcs[r] == MustRelease(s)
  {
    if r < |worlds[k - 1].pcs| && worlds[k - 1].pcs[r] == MustRelease(s) {
      g, m := ReleasesFollowGivingUp(worlds, statements, k - 1, r, s);
    } else {
      g := k - 1;
      assert worlds[k] == Execute(worlds[g], statements[g]);
      m := OwnersClaimed(worlds, statements, g, r, s);
    }
  }

  // ---- A dispatch by itself ----

  /** One replica's first statements: a step that can be dispatched is claimed, and then its workspace if it is free. */
  lemma UndisturbedClaims(w: World, r: nat, s: nat) returns (now: World)
    requires InRange(w) && r < |w.pcs| && w.pcs[r] == Idle && s < |w.rows| && w.rows[s] == StepPending
    ensures && Possible(w, ReadPending(r, s))
            && var w1 := Execute(w, ReadPending(r, s));
               && Possible(w1, ClaimStep(r))
               && var w2 := Execute(w1, ClaimStep(r));
                  Possible(w2, ClaimWorkspace(r)) && now == Execute(w2, ClaimWorkspace(r))
    ensures now == if w.workspaceOf[s] in w.locked then
                     w.(rows := w.rows[s := StepRunning], pcs := w.pcs[r := MustHandBack(s)])
                   else
                     w.(rows := w.rows[s := StepRunning], pcs := w.pcs[r := HoldsLock(s)],
                        locked := w.locked + {w.workspaceOf[s]})
  {
    var w1 := Execute(w, ReadPending(r, s));
    var w2 := Execute(w1, ClaimStep(r));
    now := Execute(w2, ClaimWorkspace(r));
  }

  /** A replica that nobody disturbs hands a pending step over and leaves it running and its workspace locked. If the
      workspace was locked it leaves everything as it was, and if there is no executor only the step has failed. */
  lemma UndisturbedDispatches(w: World, r: nat, s: nat) returns (now: World)
    requires InRange(w) && r < |w.pcs| && w.pcs[r] == Idle && s < |w.rows| && w.rows[s] == StepPending
    ensures now == Execute(Execute(Execute(w, ReadPending(r, s)), ClaimStep(r)), ClaimWorkspace(r))
    ensures w.workspaceOf[s] in w.locked ==> Possible(now, HandBack(r)) && Execute(now, HandBack(r)) == w
    ensures w.workspaceOf[s] !in w.locked ==>
              && Possible(now, HandOver(r))
              && Execute(now, HandOver(r))
                 == w.(rows := w.rows[s := StepRunning], locked := w.locked + {w.workspaceOf[s]},
                       handedOver := w.handedOver + [s])
              && Possible(now, GiveUp(r)) && Possible(Execute(now, GiveUp(r)), Release(r))
              && Execute(Execute(now, GiveUp(r)), Release(r)) == w.(rows := w.rows[s := StepFailed])
  {
    now := UndisturbedClaims(w, r, s);
    assert w.pcs[r := Idle] == w.pcs && w.rows[s := StepRunning][s := StepPending] == w.rows;
    assert now.rows[s := StepFailed] == w.rows[s := StepFailed];
    if w.workspaceOf[s] !in w.locked {
      assert now.locked - {w.workspaceOf[s]} == w.locked;
    }
  }
}
