/** A whole poll as a run of poll events, and what it does to every job and lock. */
module Polls {
  import opened Wrappers

  import opened JobProtocol
  import opened JobInvariants
  import opened JobRuns

  /** The ids a poll selects, oldest first, at most `limit` of them. */
  function PollRows(db: Db, from: nat, limit: nat): (rows: seq<nat>)
    requires from <= |db.jobs|
    ensures |rows| <= limit
    ensures forall k :: 0 <= k < |rows| ==> from <= rows[k] < |db.jobs| && Selected(db, rows[k])
    ensures forall a, b :: 0 <= a < b < |rows| ==> rows[a] < rows[b]
    ensures forall id :: from <= id < |db.jobs| && Selected(db, id) && id !in rows ==>
              |rows| == limit && forall k :: 0 <= k < |rows| ==> rows[k] < id
    decreases |db.jobs| - from
  {
    if from == |db.jobs| || limit == 0 then []
    else if Selected(db, from) then [from] + PollRows(db, from + 1, limit - 1)
    else PollRows(db, from + 1, limit)
  }

  predicate Selected(db: Db, id: nat)
    requires id < |db.jobs|
  {
    var job := db.jobs[id];
    job.status == Pending || job.status == Approved || (job.status == Queue && job.ws !in db.locked)
  }

  /** One poll event for each selected row, in row order. */
  function PollAll(db: Db, rows: seq<nat>, backends: set<nat>): (r: Db)
    requires forall k :: 0 <= k < |rows| ==> rows[k] < |db.jobs|
    ensures |r.jobs| == |db.jobs|
  {
    if rows == [] then db
    else
      var before := PollAll(db, rows[..|rows| - 1], backends);
      var id := rows[|rows| - 1];
      Next(before, On(id, Poll(id in backends)))
  }

  lemma {:induction false} PollAllTouchesOnlyItsRows(db: Db, rows: seq<nat>, backends: set<nat>, other: nat)
    requires forall k :: 0 <= k < |rows| ==> rows[k] < |db.jobs|
    requires other < |db.jobs| && forall k :: 0 <= k < |rows| ==> rows[k] != other
    ensures PollAll(db, rows, backends).jobs[other] == db.jobs[other]
  {
    if rows != [] { PollAllTouchesOnlyItsRows(db, rows[..|rows| - 1], backends, other); }
  }

  /** A whole poll is a run of poll events, so it keeps everything single events keep. */
  lemma {:induction false} PollAllKeepsOk(db: Db, rows: seq<nat>, backends: set<nat>)
    requires Ok(db) && forall k :: 0 <= k < |rows| ==> rows[k] < |db.jobs|
    ensures Ok(PollAll(db, rows, backends))
  {
    if rows != [] {
      PollAllKeepsOk(db, rows[..|rows| - 1], backends);
      var id := rows[|rows| - 1];
      NextKeepsOk(PollAll(db, rows[..|rows| - 1], backends), On(id, Poll(id in backends)));
    }
  }

  // ---- What a poll does, spelled out ----

  /** A job a poll would select: not yet queued, approved, or queued with nobody in its workspace. */
  predicate IsReady(db: Db, id: nat)
    requires id < |db.jobs|
  {
    || db.jobs[id].status in {Pending, Approved}
    || (db.jobs[id].status == Queue && db.jobs[id].ws !in db.locked)
  }

  /** It has its turn if fewer than ten older jobs are ready. */
  predicate HasTurn(db: Db, id: nat)
    requires id < |db.jobs|
  {
    IsReady(db, id) && |set k: nat | k < id && IsReady(db, k)| < 10
  }

  /** The same job with another status, and with another status for each step. */
  predicate IsJobWith(after: Job, before: Job, status: JobStatus, to: (nat, StepStatus) -> StepStatus) {
    && after.ws == before.ws && after.autoApply == before.autoApply && after.tcl == before.tcl
    && after.status == status && |after.steps| == |before.steps|
    && forall k :: 0 <= k < |before.steps| ==>
         after.steps[k] == Step(before.steps[k].number, to(k, before.steps[k].status))
  }

  /** An older job of the workspace is unfinished. */
  predicate WaitsBehind(db: Db, id: nat)
    requires id < |db.jobs|
  {
    exists k :: 0 <= k < id && db.jobs[k].ws == db.jobs[id].ws
                && db.jobs[k].status in {Pending, Queue, Running, WaitingApproval, Approved}
  }

  /** Step `i` is pending and no pending step has a smaller number. */
  predicate IsNext(job: Job, i: nat) {
    && i < |job.steps| && job.steps[i].status == StepPending
    && forall k :: 0 <= k < |job.steps| && job.steps[k].status == StepPending ==>
         job.steps[i].number <= job.steps[k].number
  }

  /** The status a queued job has once step `i`, or no step, is left out of the pending ones. */
  function StatusWithout(job: Job, i: int): JobStatus {
    if exists k :: 0 <= k < |job.steps| && k != i && job.steps[k].status == StepPending then Queue
    else if exists k :: 0 <= k < |job.steps| && job.steps[k].status == StepFailed then Failed
    else Completed
  }

  /** What becomes of a job that has its turn. */
  ghost predicate IsMoved(before: Job, after: Job, waits: bool, backend: bool) {
    match before.status
    case Pending => if waits then after == before else after == before.(status := Queue)
    case Approved =>
      if waits then after == before
      else IsJobWith(after, before, Queue, (k, s) => if s == StepWaiting then StepCompleted else s)
    case Queue =>
      && (forall i: nat :: IsNext(before, i) ==> IsTaken(before, after, i, backend))
      && ((forall k :: 0 <= k < |before.steps| ==> before.steps[k].status != StepPending) ==>
            after == before.(status := StatusWithout(before, -1)))
    case _ => false
  }

  /** What becomes of a queued job with step `i` next: an executed step is started or, with nobody to take it, failed; a
      gate waits unless the job approves itself; and a step that is passed over may be the last one. */
  ghost predicate IsTaken(before: Job, after: Job, i: nat, backend: bool)
    requires i < |before.steps|
  {
    var kind := StepTypeOf(before.tcl, before.steps[i].number);
    if kind == Approval && !before.autoApply then
      IsJobWith(after, before, WaitingApproval, (k, s) => if k == i then StepWaiting else s)
    else if kind in {Approval, Skipped} then
      IsJobWith(after, before, StatusWithout(before, i), (k, s) => if k == i then StepNotExecuted else s)
    else if backend then IsJobWith(after, before, Running, (k, s) => if k == i then StepRunning else s)
    else IsJobWith(after, before, Failed, (k, s) => if k == i then StepFailed else s)
  }

  /** A poll moves the ready jobs that have their turn and no others. It leaves a workspace locked if it started a job
      there, or if it was locked and no job of it was moved. */
  ghost predicate IsPolled(before: Db, after: Db, backends: set<nat>) {
    && |after.jobs| == |before.jobs|
    && (forall id: nat :: id < |before.jobs| ==>
          if HasTurn(before, id) then
            IsMoved(before.jobs[id], after.jobs[id], WaitsBehind(after, id), id in backends)
          else after.jobs[id] == before.jobs[id])
    && (forall w :: w in after.locked <==> StaysLocked(before, after, w))
  }

  ghost predicate StaysLocked(before: Db, after: Db, w: nat)
    requires |after.jobs| == |before.jobs|
  {
    || (exists id: nat :: id < |before.jobs| && before.jobs[id].ws == w && before.jobs[id].status == Queue
                          && after.jobs[id].status == Running)
    || (w in before.locked && forall id: nat :: id < |before.jobs| && before.jobs[id].ws == w ==>
                                      after.jobs[id] == before.jobs[id])
  }

  lemma PollEffectMoves(job: Job, older: bool, backend: bool)
    requires JobOk(job) && job.status in {Pending, Approved, Queue}
    ensures IsMoved(job, PollEffect(job, older, false, backend).job, older, backend)
  {
    match job.status
    case Queue =>
      assert !Has(job.steps, {StepRunning}) && !Has(job.steps, {StepWaiting});
      NothingInProgress(job);
      match FirstPending(job.steps) {
        case None => NothingPending(job);
        case Some(i) =>
          forall j: nat | IsNext(job, j) ensures j == i {
            assert job.steps[j].number == job.steps[i].number;
          }
          TakenStep(job, i, backend);
      }
    case _ =>
  }

  lemma NothingInProgress(job: Job)
    requires !Has(job.steps, {StepRunning}) && !Has(job.steps, {StepWaiting})
    ensures forall k :: 0 <= k < |job.steps| ==> job.steps[k].status !in {StepRunning, StepWaiting}
  {
    forall k | 0 <= k < |job.steps| ensures job.steps[k].status !in {StepRunning, StepWaiting} {
      assert job.steps[k].status !in {StepRunning} && job.steps[k].status !in {StepWaiting};
    }
  }

  lemma NothingPending(job: Job)
    requires !Has(job.steps, {StepPending})
    requires forall k :: 0 <= k < |job.steps| ==> job.steps[k].status !in {StepRunning, StepWaiting}
    ensures CompleteEffect(job).job == job.(status := StatusWithout(job, -1))
    ensures forall k :: 0 <= k < |job.steps| ==> job.steps[k].status != StepPending
  {
    forall k | 0 <= k < |job.steps| ensures job.steps[k].status != StepPending {
      assert job.steps[k].status !in {StepPending};
    }
  }

  lemma TakenStep(job: Job, i: nat, backend: bool)
    requires job.status == Queue && FirstPending(job.steps) == Some(i)
    requires forall k :: 0 <= k < |job.steps| ==> job.steps[k].status !in {StepRunning, StepWaiting}
    ensures IsTaken(job, PollEffect(job, false, false, backend).job, i, backend)
    ensures PollEffect(job, true, false, backend) == PollEffect(job, false, false, backend)
  {
    PassedStep(job, i);
  }

  lemma PassedStep(job: Job, i: nat)
    requires i < |job.steps| && job.steps[i].status == StepPending
    requires forall k :: 0 <= k < |job.steps| ==> job.steps[k].status !in {StepRunning, StepWaiting}
    ensures var steps := SetStep(job, i, StepNotExecuted).steps;
            && (Has(steps, {StepPending}) <==>
                  exists k :: 0 <= k < |job.steps| && k != i && job.steps[k].status == StepPending)
            && (Has(steps, {StepFailed}) <==> exists k :: 0 <= k < |job.steps| && job.steps[k].status == StepFailed)
            && (Has(steps, {StepPending, StepRunning, StepWaiting}) <==> Has(steps, {StepPending}))
  {
    var steps := SetStep(job, i, StepNotExecuted).steps;
    assert forall k :: 0 <= k < |steps| && k != i ==> steps[k] == job.steps[k];
    if k :| 0 <= k < |job.steps| && k != i && job.steps[k].status == StepPending {
      assert steps[k].status in {StepPending} && steps[k].status in {StepPending, StepRunning, StepWaiting};
    }
    if k :| 0 <= k < |job.steps| && job.steps[k].status == StepFailed {
      assert steps[k].status in {StepFailed};
    }
  }

  // ---- Whose turn it is ----

  lemma {:induction false} FewAreIn(s: seq<nat>)
    ensures |set x: nat | x in s| <= |s|
    ensures (forall i, j :: 0 <= i < j < |s| ==> s[i] < s[j]) ==> |set x: nat | x in s| == |s|
  {
    if s != [] {
      var n := |s| - 1;
      FewAreIn(s[..n]);
      assert s == s[..n] + [s[n]];
      assert (set x: nat | x in s) == (set x: nat | x in s[..n]) + {s[n]};
    }
  }

  lemma SmallerSets(a: set<nat>, b: set<nat>)
    requires a <= b
    ensures |a| <= |b|
  {
    assert b == a + (b - a);
  }

  /** Rows in order, among them every ready job that is not younger than all of them or they are ten. */
  predicate AreTheOldest(db: Db, rows: seq<nat>) {
    && |rows| <= 10
    && (forall k :: 0 <= k < |rows| ==> rows[k] < |db.jobs| && IsReady(db, rows[k]))
    && (forall a, b :: 0 <= a < b < |rows| ==> rows[a] < rows[b])
    && (forall id: nat :: id < |db.jobs| && IsReady(db, id) && id !in rows ==>
          |rows| == 10 && forall k :: 0 <= k < |rows| ==> rows[k] < id)
  }

  lemma OlderRowsComeFirst(db: Db, rows: seq<nat>, a: nat, k: nat)
    requires AreTheOldest(db, rows) && a < |rows| && k < rows[a] && IsReady(db, k)
    ensures k in rows[..a]
  {
    hide IsReady;
    assert k in rows;
    var b :| 0 <= b < |rows| && rows[b] == k;
    assert b < a;
    assert rows[..a][b] == k;
  }

  lemma RowsHaveTheirTurn(db: Db, rows: seq<nat>, a: nat)
    requires AreTheOldest(db, rows) && a < |rows|
    ensures HasTurn(db, rows[a])
  {
    hide IsReady;
    var older, those := set k: nat | k < rows[a] && IsReady(db, k), set x: nat | x in rows[..a];
    forall k | k in older ensures k in those {
      OlderRowsComeFirst(db, rows, a, k);
    }
    FewAreIn(rows[..a]);
    SmallerSets(older, those);
  }

  lemma OthersWaitForTheirTurn(db: Db, rows: seq<nat>, id: nat)
    requires AreTheOldest(db, rows) && id < |db.jobs| && id !in rows
    ensures !HasTurn(db, id)
  {
    hide IsReady;
    if IsReady(db, id) {
      var older, those := set k: nat | k < id && IsReady(db, k), set x: nat | x in rows;
      FewAreIn(rows);
      SmallerSets(those, older);
    }
  }

  /** The selected rows are the jobs that have their turn. */
  lemma TurnsAreTheRows(db: Db, id: nat)
    requires id < |db.jobs|
    ensures id in PollRows(db, 0, 10) <==> HasTurn(db, id)
  {
    var rows := PollRows(db, 0, 10);
    assert AreTheOldest(db, rows);
    hide PollRows, AreTheOldest, HasTurn;
    if id in rows {
      var a :| 0 <= a < |rows| && rows[a] == id;
      RowsHaveTheirTurn(db, rows, a);
    } else {
      OthersWaitForTheirTurn(db, rows, id);
    }
  }

  // ---- Row by row ----

  /** After the first `m` rows: whether the workspace is locked. */
  ghost predicate IsHeld(before: Db, now: Db, rows: seq<nat>, m: nat, w: nat)
    requires m <= |rows| && |before.jobs| == |now.jobs| && forall k :: 0 <= k < |rows| ==> rows[k] < |before.jobs|
  {
    || (exists a :: 0 <= a < m && before.jobs[rows[a]].ws == w && before.jobs[rows[a]].status == Queue
                    && now.jobs[rows[a]].status == Running)
    || (w in before.locked && forall a :: 0 <= a < m && before.jobs[rows[a]].ws == w ==>
                                now.jobs[rows[a]] == before.jobs[rows[a]])
  }

  ghost predicate IsPolledUpTo(before: Db, now: Db, rows: seq<nat>, m: nat, backends: set<nat>)
    requires m <= |rows| && |before.jobs| == |now.jobs| && forall k :: 0 <= k < |rows| ==> rows[k] < |before.jobs|
  {
    && (forall id: nat :: id < |before.jobs| && id !in rows[..m] ==> now.jobs[id] == before.jobs[id])
    && (forall a :: 0 <= a < m ==>
          IsMoved(before.jobs[rows[a]], now.jobs[rows[a]], WaitsBehind(now, rows[a]), rows[a] in backends))
    && (forall w :: w in now.locked <==> IsHeld(before, now, rows, m, w))
  }

  lemma {:induction false} PollsGoOn(db: Db, rows: seq<nat>, m: nat, backends: set<nat>)
    requires Ok(db) && rows == PollRows(db, 0, 10) && m <= |rows|
    ensures Ok(PollAll(db, rows[..m], backends))
    ensures IsPolledUpTo(db, PollAll(db, rows[..m], backends), rows, m, backends)
  {
    hide Next, PollRows, PollAll, IsMoved, Selected, WaitsBehind, IsHeld, Ok, IsPolledUpTo;
    PollAllKeepsOk(db, rows[..m], backends);
    if m == 0 {
      NothingPolledYet(db, rows, backends);
    }
    if m > 0 {
      PollsGoOn(db, rows, m - 1, backends);
      PollAllByOne(db, rows, m, backends);
      OneRowMore(db, PollAll(db, rows[..m - 1], backends), rows, m - 1, backends);
    }
  }

  lemma PollAllByOne(db: Db, rows: seq<nat>, m: nat, backends: set<nat>)
    requires 0 < m <= |rows| && forall k :: 0 <= k < |rows| ==> rows[k] < |db.jobs|
    ensures PollAll(db, rows[..m], backends)
         == Next(PollAll(db, rows[..m - 1], backends), On(rows[m - 1], Poll(rows[m - 1] in backends)))
  {
    hide Next;
    assert rows[..m][..m - 1] == rows[..m - 1] && rows[..m][m - 1] == rows[m - 1];
  }

  lemma NothingPolledYet(db: Db, rows: seq<nat>, backends: set<nat>)
    requires forall k :: 0 <= k < |rows| ==> rows[k] < |db.jobs|
    ensures PollAll(db, rows[..0], backends) == db && IsPolledUpTo(db, db, rows, 0, backends)
  {
  }

  lemma OneRowMore(db: Db, now: Db, rows: seq<nat>, m: nat, backends: set<nat>)
    requires Ok(db) && Ok(now) && m < |rows| && |now.jobs| == |db.jobs|
    requires forall k :: 0 <= k < |rows| ==> rows[k] < |db.jobs| && Selected(db, rows[k])
    requires forall a, b :: 0 <= a < b < |rows| ==> rows[a] < rows[b]
    requires IsPolledUpTo(db, now, rows, m, backends)
    ensures IsPolledUpTo(db, Next(now, On(rows[m], Poll(rows[m] in backends))), rows, m + 1, backends)
  {
    var id := rows[m];
    var job, backend := db.jobs[id], id in backends;
    var after := Next(now, On(id, Poll(backend)));
    assert id !in rows[..m] && now.jobs[id] == job;
    QueuedRowsAreUnlocked(db, now, rows, m, backends);
    var eff := PollEffect(job, OlderActive(now, id), job.ws in now.locked, backend);
    assert eff == PollEffect(job, OlderActive(now, id), false, backend);
    PollEffectMoves(job, OlderActive(now, id), backend);
    assert after.jobs == now.jobs[id := eff.job];
    hide PollEffect, Next;
    MovedKeepsWorkspace(job, eff.job, OlderActive(now, id), backend);
    OlderOnesWait(now, after, id);
    assert rows[..m + 1] == rows[..m] + [id];
    forall a | 0 <= a < m ensures WaitsBehind(after, rows[a]) <==> WaitsBehind(now, rows[a]) {
      SameWaits(now, after, rows[a]);
    }
    hide IsMoved, WaitsBehind, OlderActive;
    LocksAfterARow(db, now, after, rows, m, backends);
  }

  lemma QueuedRowsAreUnlocked(db: Db, now: Db, rows: seq<nat>, m: nat, backends: set<nat>)
    requires Ok(db) && Ok(now) && m < |rows| && |now.jobs| == |db.jobs|
    requires forall k :: 0 <= k < |rows| ==> rows[k] < |db.jobs| && Selected(db, rows[k])
    requires forall a, b :: 0 <= a < b < |rows| ==> rows[a] < rows[b]
    requires IsPolledUpTo(db, now, rows, m, backends)
    ensures db.jobs[rows[m]].status == Queue ==> db.jobs[rows[m]].ws !in now.locked
  {
    var id := rows[m];
    var w := db.jobs[id].ws;
    assert now.jobs[id] == db.jobs[id];
    if db.jobs[id].status == Queue && w in now.locked {
      assert IsHeld(db, now, rows, m, w);
      var a :| 0 <= a < m && db.jobs[rows[a]].ws == w && now.jobs[rows[a]].status == Running;
      MovedStays(db, now, rows, m, a, backends);
      BegunJobsAreAlone(now, id, rows[a]);
    }
  }

  lemma MovedStays(db: Db, now: Db, rows: seq<nat>, m: nat, a: nat, backends: set<nat>)
    requires a < m <= |rows| && |now.jobs| == |db.jobs|
    requires forall k :: 0 <= k < |rows| ==> rows[k] < |db.jobs|
    requires IsPolledUpTo(db, now, rows, m, backends)
    ensures now.jobs[rows[a]].ws == db.jobs[rows[a]].ws
  {
    hide IsMoved;
    var id := rows[a];
    MovedKeepsWorkspace(db.jobs[id], now.jobs[id], WaitsBehind(now, id), id in backends);
  }

  lemma MovedKeepsWorkspace(before: Job, after: Job, waits: bool, backend: bool)
    requires IsMoved(before, after, waits, backend)
    ensures after.ws == before.ws
  {
    if before.status == Queue {
      match FirstPending(before.steps)
      case Some(i) => assert IsNext(before, i);
      case None =>
        forall k | 0 <= k < |before.steps| ensures before.steps[k].status != StepPending {
          assert before.steps[k].status !in {StepPending};
        }
    }
  }

  lemma Unfinished(s: JobStatus)
    ensures !IsTerminal(s) <==> s in {Pending, Queue, Running, WaitingApproval, Approved}
  {
    match s
    case _ =>
  }

  lemma OlderOnesWait(now: Db, after: Db, id: nat)
    requires id < |now.jobs| == |after.jobs| && after.jobs[id].ws == now.jobs[id].ws
    requires forall k :: 0 <= k < id ==> after.jobs[k] == now.jobs[k]
    ensures OlderActive(now, id) <==> WaitsBehind(after, id)
  {
    if k :| 0 <= k < id && now.jobs[k].ws == now.jobs[id].ws && !IsTerminal(now.jobs[k].status) {
      Unfinished(now.jobs[k].status);
      assert after.jobs[k].status in {Pending, Queue, Running, WaitingApproval, Approved};
    }
    if k :| 0 <= k < id && after.jobs[k].ws == after.jobs[id].ws
            && after.jobs[k].status in {Pending, Queue, Running, WaitingApproval, Approved} {
      Unfinished(now.jobs[k].status);
      assert !IsTerminal(now.jobs[k].status);
    }
  }

  lemma SameWaits(now: Db, after: Db, id: nat)
    requires id < |now.jobs| == |after.jobs|
    requires forall k :: 0 <= k <= id ==> after.jobs[k] == now.jobs[k]
    ensures WaitsBehind(after, id) <==> WaitsBehind(now, id)
  {
  }

  lemma PollLocks(job: Job, older: bool, backend: bool)
    requires job.status in {Pending, Approved, Queue}
    ensures var eff := PollEffect(job, older, false, backend);
            && (eff.lock == Lock <==> job.status == Queue && eff.job.status == Running)
            && (eff.lock == Unlock ==> eff.job != job && (job.status in {Pending, Approved} ==> !older))
            && (eff.lock == Keep ==> eff.job == job || job.status == Queue)
            && (eff.job.status == Running ==> eff.lock == Lock)
  {
  }

  lemma LocksAfterARow(db: Db, now: Db, after: Db, rows: seq<nat>, m: nat, backends: set<nat>)
    requires Ok(db) && Ok(now) && m < |rows| && |now.jobs| == |db.jobs|
    requires forall k :: 0 <= k < |rows| ==> rows[k] < |db.jobs| && Selected(db, rows[k])
    requires forall a, b :: 0 <= a < b < |rows| ==> rows[a] < rows[b]
    requires IsPolledUpTo(db, now, rows, m, backends)
    requires var id := rows[m];
             var eff := PollEffect(db.jobs[id], OlderActive(now, id), false, id in backends);
             && now.jobs[id] == db.jobs[id] && after.jobs == now.jobs[id := eff.job]
             && after.locked == ApplyLock(now.locked, db.jobs[id].ws, eff.lock)
    ensures forall w :: w in after.locked <==> IsHeld(db, after, rows, m + 1, w)
  {
    var id := rows[m];
    var job, backend := db.jobs[id], id in backends;
    var eff := PollEffect(job, OlderActive(now, id), false, backend);
    PollLocks(job, OlderActive(now, id), backend);
    assert forall a :: 0 <= a < m ==> after.jobs[rows[a]] == now.jobs[rows[a]];
    hide PollEffect, IsMoved;
    forall w ensures w in after.locked <==> IsHeld(db, after, rows, m + 1, w) {
      assert w in now.locked <==> IsHeld(db, now, rows, m, w);
      if w == job.ws && eff.lock == Unlock {
        NobodyStarted(db, now, rows, m, backends);
      }
    }
  }

  /** Where a row unlocks its workspace, no row before it has started a job there. */
  lemma NobodyStarted(db: Db, now: Db, rows: seq<nat>, m: nat, backends: set<nat>)
    requires Ok(now) && m < |rows| && |now.jobs| == |db.jobs|
    requires forall k :: 0 <= k < |rows| ==> rows[k] < |db.jobs| && Selected(db, rows[k])
    requires forall a, b :: 0 <= a < b < |rows| ==> rows[a] < rows[b]
    requires IsPolledUpTo(db, now, rows, m, backends)
    requires now.jobs[rows[m]] == db.jobs[rows[m]]
    requires db.jobs[rows[m]].status in {Pending, Approved} ==> !OlderActive(now, rows[m])
    ensures forall a :: 0 <= a < m && db.jobs[rows[a]].ws == db.jobs[rows[m]].ws ==> now.jobs[rows[a]].status != Running
  {
    var id := rows[m];
    forall a | 0 <= a < m && db.jobs[rows[a]].ws == db.jobs[id].ws ensures now.jobs[rows[a]].status != Running {
      MovedStays(db, now, rows, m, a, backends);
      if now.jobs[rows[a]].status == Running {
        if db.jobs[id].status == Queue {
          BegunJobsAreAlone(now, id, rows[a]);
        }
      }
    }
  }

  lemma TurnsAreMoved(db: Db, after: Db, rows: seq<nat>, backends: set<nat>, id: nat)
    requires rows == PollRows(db, 0, 10) && |after.jobs| == |db.jobs| && id < |db.jobs|
    requires IsPolledUpTo(db, after, rows, |rows|, backends)
    ensures if HasTurn(db, id) then IsMoved(db.jobs[id], after.jobs[id], WaitsBehind(after, id), id in backends)
            else after.jobs[id] == db.jobs[id]
  {
    TurnsAreTheRows(db, id);
    assert rows[..|rows|] == rows;
    hide PollRows, IsMoved, HasTurn, WaitsBehind, IsHeld;
    if HasTurn(db, id) {
      var a :| 0 <= a < |rows| && rows[a] == id;
    }
  }

  /** What a poll does to the tables. */
  lemma {:induction false} PollsMoveTheReady(db: Db, backends: set<nat>)
    requires Ok(db)
    ensures IsPolled(db, PollAll(db, PollRows(db, 0, 10), backends), backends)
  {
    hide PollAll, PollRows, IsPolledUpTo, IsPolled, Selected, Ok;
    var rows := PollRows(db, 0, 10);
    PollsGoOn(db, rows, |rows|, backends);
    assert rows[..|rows|] == rows;
    PolledInTheEnd(db, PollAll(db, rows, backends), rows, backends);
  }

  lemma {:induction false} PolledInTheEnd(db: Db, after: Db, rows: seq<nat>, backends: set<nat>)
    requires rows == PollRows(db, 0, 10) && |after.jobs| == |db.jobs|
    requires IsPolledUpTo(db, after, rows, |rows|, backends)
    ensures IsPolled(db, after, backends)
  {
    hide PollRows, IsPolledUpTo, IsMoved, HasTurn, WaitsBehind, StaysLocked, Selected;
    forall id: nat | id < |db.jobs|
      ensures if HasTurn(db, id) then IsMoved(db.jobs[id], after.jobs[id], WaitsBehind(after, id), id in backends)
              else after.jobs[id] == db.jobs[id]
    {
      TurnsAreMoved(db, after, rows, backends, id);
    }
    forall w ensures w in after.locked <==> StaysLocked(db, after, w) {
      LocksInTheEnd(db, after, rows, backends, w);
    }
  }

  lemma LocksInTheEnd(db: Db, after: Db, rows: seq<nat>, backends: set<nat>, w: nat)
    requires |after.jobs| == |db.jobs| && forall k :: 0 <= k < |rows| ==> rows[k] < |db.jobs|
    requires IsPolledUpTo(db, after, rows, |rows|, backends)
    ensures w in after.locked <==> StaysLocked(db, after, w)
  {
    assert rows[..|rows|] == rows;
    hide IsMoved, WaitsBehind, IsHeld, StaysLocked;
    HeldInTheEnd(db, after, rows, w);
  }

  lemma HeldInTheEnd(db: Db, after: Db, rows: seq<nat>, w: nat)
    requires |after.jobs| == |db.jobs| && forall k :: 0 <= k < |rows| ==> rows[k] < |db.jobs|
    requires forall id: nat :: id < |db.jobs| && id !in rows ==> after.jobs[id] == db.jobs[id]
    ensures IsHeld(db, after, rows, |rows|, w) <==> StaysLocked(db, after, w)
  {
    if id: nat :| id < |db.jobs| && db.jobs[id].ws == w && db.jobs[id].status == Queue
                  && after.jobs[id].status == Running {
      assert id in rows;
      var a :| 0 <= a < |rows| && rows[a] == id;
    }
    if forall a :: 0 <= a < |rows| && db.jobs[rows[a]].ws == w ==> after.jobs[rows[a]] == db.jobs[rows[a]] {
      forall id: nat | id < |db.jobs| && db.jobs[id].ws == w ensures after.jobs[id] == db.jobs[id] {
        if id in rows {
          var a :| 0 <= a < |rows| && rows[a] == id;
        }
      }
    }
  }

  lemma PollsMoveTheReadyIfOk(db: Db, backends: set<nat>)
    ensures Ok(db) ==> IsPolled(db, PollAll(db, PollRows(db, 0, 10), backends), backends)
  {
    hide Ok, IsPolled, PollAll, PollRows;
    if Ok(db) {
      PollsMoveTheReady(db, backends);
    }
  }

  /** A queued job that has its turn is started: its first pending step, if it is one to execute and somebody can take
      it, is running afterwards, the job too, its workspace is locked, and the other steps are as they were. */
  lemma PollsStartTheFirstStep(db: Db, backends: set<nat>, id: nat, i: nat)
    requires Ok(db) && id < |db.jobs| && db.jobs[id].status == Queue && db.jobs[id].ws !in db.locked
    requires |set k: nat | k < id && IsReady(db, k)| < 10 && IsNext(db.jobs[id], i) && id in backends
    requires StepTypeOf(db.jobs[id].tcl, db.jobs[id].steps[i].number) !in {Approval, Skipped}
    ensures var before, after := db.jobs[id], PollAll(db, PollRows(db, 0, 10), backends);
            && after.jobs[id].status == Running && before.ws in after.locked
            && |after.jobs[id].steps| == |before.steps|
            && forall k :: 0 <= k < |before.steps| ==>
                 after.jobs[id].steps[k]
                 == before.steps[k].(status := if k == i then StepRunning else before.steps[k].status)
  {
    hide Ok, PollAll, PollRows;
    PollsMoveTheReady(db, backends);
    assert HasTurn(db, id);
  }

  /** A queued job of a locked workspace stays as it is. */
  lemma LockedJobsWait(db: Db, backends: set<nat>, id: nat)
    requires Ok(db) && id < |db.jobs| && db.jobs[id].status == Queue && db.jobs[id].ws in db.locked
    ensures PollAll(db, PollRows(db, 0, 10), backends).jobs[id] == db.jobs[id]
  {
    hide Ok, PollAll, PollRows;
    PollsMoveTheReady(db, backends);
    assert !HasTurn(db, id);
  }
}
