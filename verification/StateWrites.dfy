/** Uploading a workspace's state: copies first, then the history row, then the canonical state. Any number of requests
    take these steps in any order among each other, and every step may fail, with or without having taken effect. */
module StateWrites {
  import opened Wrappers

  type Bytes = seq<bv8>

  /** A request with the id drawn for its history row; `raw` is missing where the client uploads the state later. */
  datatype Request = Request(workspace: nat, historyId: nat, valid: bool, raw: Option<Bytes>, json: Bytes)

  datatype Pc = AtRawCopy | AtJsonCopy | AtCommit | AtCanonical | Ended(created: bool)

  datatype Outcome = Works | Fails | FailsAfterTheFact

  datatype Row = Row(workspace: nat, hasRaw: bool)

  datatype World = World(
    raws: map<nat, Bytes>, jsons: map<nat, Bytes>, rows: map<nat, Row>, canonical: map<nat, Bytes>, pcs: seq<Pc>)

  predicate TakesEffect(o: Outcome) { o != Fails }

  function Next(w: World, i: nat, o: Outcome, next: Pc): (after: World)
    requires i < |w.pcs|
    ensures |after.pcs| == |w.pcs|
  {
    w.(pcs := w.pcs[i := if o == Works then next else Ended(false)])
  }

  function RawStep(r: Request, w: World, i: nat, o: Outcome): (after: World)
    requires i < |w.pcs|
    ensures |after.pcs| == |w.pcs|
  {
    if r.raw.None? then Next(w, i, Works, AtJsonCopy)
    else Next(if TakesEffect(o) then w.(raws := w.raws[r.historyId := r.raw.value]) else w, i, o, AtJsonCopy)
  }

  function JsonStep(r: Request, w: World, i: nat, o: Outcome): (after: World)
    requires i < |w.pcs|
    ensures |after.pcs| == |w.pcs|
  {
    Next(if TakesEffect(o) then w.(jsons := w.jsons[r.historyId := r.json]) else w, i, o, AtCommit)
  }

  function CommitStep(r: Request, w: World, i: nat, o: Outcome): (after: World)
    requires i < |w.pcs|
    ensures |after.pcs| == |w.pcs|
  {
    var after := if TakesEffect(o) then w.(rows := w.rows[r.historyId := Row(r.workspace, r.raw.Some?)]) else w;
    Next(after, i, o, AtCanonical)
  }

  function CanonicalStep(r: Request, w: World, i: nat, o: Outcome): (after: World)
    requires i < |w.pcs|
    ensures |after.pcs| == |w.pcs|
  {
    if r.raw.None? then Next(w, i, Works, Ended(true))
    else Next(if TakesEffect(o) then w.(canonical := w.canonical[r.workspace := r.raw.value]) else w, i, o, Ended(true))
  }

  /** One request's next step. */
  function Execute(r: Request, w: World, i: nat, o: Outcome): (after: World)
    requires i < |w.pcs|
    ensures |after.pcs| == |w.pcs|
  {
    match w.pcs[i]
    case AtRawCopy => RawStep(r, w, i, o)
    case AtJsonCopy => JsonStep(r, w, i, o)
    case AtCommit => CommitStep(r, w, i, o)
    case AtCanonical => CanonicalStep(r, w, i, o)
    case Ended(_) => w
  }

  /** Requests that are not valid end before anything is touched. */
  function FirstPc(r: Request): Pc { if r.valid then AtRawCopy else Ended(false) }

  predicate FreshIds(requests: seq<Request>) {
    forall i, j :: 0 <= i < j < |requests| ==> requests[i].historyId != requests[j].historyId
  }

  /** Before the first request: whatever is stored, none of it under an id drawn later. */
  predicate Begins(requests: seq<Request>, w: World) {
    && FreshIds(requests)
    && |w.pcs| == |requests|
    && (forall i :: 0 <= i < |requests| ==> w.pcs[i] == FirstPc(requests[i]))
    && (forall i :: 0 <= i < |requests| ==>
          requests[i].historyId !in w.raws && requests[i].historyId !in w.jsons && requests[i].historyId !in w.rows)
  }

  datatype Turn = Turn(request: nat, outcome: Outcome)

  /** The world after any schedule of steps. */
  function Run(requests: seq<Request>, start: World, turns: seq<Turn>): (w: World)
    requires |start.pcs| == |requests|
    requires forall k :: 0 <= k < |turns| ==> turns[k].request < |requests|
    ensures |w.pcs| == |requests|
  {
    if turns == [] then start
    else
      var n := |turns| - 1;
      Execute(requests[turns[n].request], Run(requests, start, turns[..n]), turns[n].request, turns[n].outcome)
  }

  // ---- What every step keeps ----

  predicate RawIsStored(r: Request, w: World) {
    r.raw.Some? ==> r.historyId in w.raws && w.raws[r.historyId] == r.raw.value
  }

  predicate JsonIsStored(r: Request, w: World) { r.historyId in w.jsons && w.jsons[r.historyId] == r.json }

  /** How far a request has come is how much of it is stored. */
  predicate Progressed(r: Request, w: World, pc: Pc) {
    && (r.historyId in w.raws ==> r.raw.Some? && w.raws[r.historyId] == r.raw.value)
    && (pc == AtRawCopy ==> r.historyId !in w.rows)
    && (pc == AtJsonCopy ==> RawIsStored(r, w) && r.historyId !in w.rows)
    && (pc == AtCommit ==> RawIsStored(r, w) && JsonIsStored(r, w) && r.historyId !in w.rows)
    && (pc == AtCanonical || pc == Ended(true) ==> r.historyId in w.rows)
    && (r.historyId in w.rows ==>
          w.rows[r.historyId] == Row(r.workspace, r.raw.Some?) && RawIsStored(r, w) && JsonIsStored(r, w))
  }

  predicate AllProgressed(requests: seq<Request>, w: World) {
    |w.pcs| == |requests| && forall i :: 0 <= i < |requests| ==> Progressed(requests[i], w, w.pcs[i])
  }

  /** The canonical state is untouched or the raw copy of a committed row of its workspace. */
  predicate CanonicalOk(requests: seq<Request>, start: World, w: World, ws: nat) {
    || ((ws in w.canonical <==> ws in start.canonical) &&
        (ws in w.canonical ==> w.canonical[ws] == start.canonical[ws]))
    || (ws in w.canonical && exists i :: 0 <= i < |requests| && IsCopyOf(requests[i], w, ws))
  }

  predicate IsCopyOf(r: Request, w: World, ws: nat)
    requires ws in w.canonical
  {
    && r.historyId in w.rows && w.rows[r.historyId] == Row(ws, true)
    && r.historyId in w.raws && w.raws[r.historyId] == w.canonical[ws]
  }

  lemma RawStepProgresses(r: Request, w: World, i: nat, o: Outcome)
    requires i < |w.pcs| && w.pcs[i] == AtRawCopy && Progressed(r, w, AtRawCopy)
    ensures Progressed(r, RawStep(r, w, i, o), RawStep(r, w, i, o).pcs[i])
  {
  }

  lemma JsonStepProgresses(r: Request, w: World, i: nat, o: Outcome)
    requires i < |w.pcs| && w.pcs[i] == AtJsonCopy && Progressed(r, w, AtJsonCopy)
    ensures Progressed(r, JsonStep(r, w, i, o), JsonStep(r, w, i, o).pcs[i])
  {
  }

  lemma CommitStepProgresses(r: Request, w: World, i: nat, o: Outcome)
    requires i < |w.pcs| && w.pcs[i] == AtCommit && Progressed(r, w, AtCommit)
    ensures Progressed(r, CommitStep(r, w, i, o), CommitStep(r, w, i, o).pcs[i])
  {
  }

  lemma CanonicalStepProgresses(r: Request, w: World, i: nat, o: Outcome)
    requires i < |w.pcs| && w.pcs[i] == AtCanonical && Progressed(r, w, AtCanonical)
    ensures Progressed(r, CanonicalStep(r, w, i, o), CanonicalStep(r, w, i, o).pcs[i])
  {
  }

  lemma OwnStepProgresses(r: Request, w: World, i: nat, o: Outcome)
    requires i < |w.pcs| && Progressed(r, w, w.pcs[i])
    ensures Progressed(r, Execute(r, w, i, o), Execute(r, w, i, o).pcs[i])
  {
    hide Progressed, RawStep, JsonStep, CommitStep, CanonicalStep;
    match w.pcs[i]
    case AtRawCopy => RawStepProgresses(r, w, i, o);
    case AtJsonCopy => JsonStepProgresses(r, w, i, o);
    case AtCommit => CommitStepProgresses(r, w, i, o);
    case AtCanonical => CanonicalStepProgresses(r, w, i, o);
    case Ended(_) =>
  }

  /** What one request finds stored, and how far it is, is the same in two worlds. */
  predicate SameFor(w: World, after: World, id: nat, j: nat) {
    && j < |w.pcs| && j < |after.pcs| && after.pcs[j] == w.pcs[j]
    && (id in after.raws <==> id in w.raws) && (id in w.raws ==> after.raws[id] == w.raws[id])
    && (id in after.jsons <==> id in w.jsons) && (id in w.jsons ==> after.jsons[id] == w.jsons[id])
    && (id in after.rows <==> id in w.rows) && (id in w.rows ==> after.rows[id] == w.rows[id])
  }

  lemma RawStepStays(r: Request, w: World, i: nat, o: Outcome, id: nat, j: nat)
    requires i < |w.pcs| && j < |w.pcs| && i != j && id != r.historyId
    ensures SameFor(w, RawStep(r, w, i, o), id, j)
  {
  }

  lemma JsonStepStays(r: Request, w: World, i: nat, o: Outcome, id: nat, j: nat)
    requires i < |w.pcs| && j < |w.pcs| && i != j && id != r.historyId
    ensures SameFor(w, JsonStep(r, w, i, o), id, j)
  {
  }

  lemma CommitStepStays(r: Request, w: World, i: nat, o: Outcome, id: nat, j: nat)
    requires i < |w.pcs| && j < |w.pcs| && i != j && id != r.historyId
    ensures SameFor(w, CommitStep(r, w, i, o), id, j)
  {
  }

  lemma CanonicalStepStays(r: Request, w: World, i: nat, o: Outcome, id: nat, j: nat)
    requires i < |w.pcs| && j < |w.pcs| && i != j && id != r.historyId
    ensures SameFor(w, CanonicalStep(r, w, i, o), id, j)
  {
  }

  /** A step changes nothing for the other requests. */
  lemma OtherIdsStay(r: Request, w: World, i: nat, o: Outcome, id: nat, j: nat)
    requires i < |w.pcs| && j < |w.pcs| && i != j && id != r.historyId
    ensures SameFor(w, Execute(r, w, i, o), id, j)
  {
    hide RawStep, JsonStep, CommitStep, CanonicalStep;
    match w.pcs[i]
    case AtRawCopy => RawStepStays(r, w, i, o, id, j);
    case AtJsonCopy => JsonStepStays(r, w, i, o, id, j);
    case AtCommit => CommitStepStays(r, w, i, o, id, j);
    case AtCanonical => CanonicalStepStays(r, w, i, o, id, j);
    case Ended(_) =>
  }

  lemma OthersAreLeftAlone(r: Request, w: World, i: nat, o: Outcome, other: Request, j: nat)
    requires i < |w.pcs| && j < |w.pcs| && i != j && r.historyId != other.historyId && Progressed(other, w, w.pcs[j])
    ensures Progressed(other, Execute(r, w, i, o), Execute(r, w, i, o).pcs[j])
  {
    hide Execute;
    OtherIdsStay(r, w, i, o, other.historyId, j);
  }

  lemma ExecuteKeepsProgress(requests: seq<Request>, w: World, i: nat, o: Outcome)
    requires FreshIds(requests) && AllProgressed(requests, w) && i < |requests|
    ensures AllProgressed(requests, Execute(requests[i], w, i, o))
  {
    hide Progressed, Execute;
    var after := Execute(requests[i], w, i, o);
    forall j | 0 <= j < |requests| ensures Progressed(requests[j], after, after.pcs[j]) {
      assert Progressed(requests[j], w, w.pcs[j]);
      if j != i {
        assert requests[j].historyId != requests[i].historyId;
        OthersAreLeftAlone(requests[i], w, i, o, requests[j], j);
      } else {
        OwnStepProgresses(requests[i], w, i, o);
      }
    }
  }

  lemma CopyStays(r: Request, w: World, i: nat, o: Outcome, other: Request, ws: nat)
    requires i < |w.pcs| && ws in w.canonical && IsCopyOf(other, w, ws)
    requires r.historyId == other.historyId ==> Progressed(r, w, w.pcs[i])
    requires !(w.pcs[i] == AtCanonical && r.raw.Some? && TakesEffect(o) && r.workspace == ws)
    ensures ws in Execute(r, w, i, o).canonical && IsCopyOf(other, Execute(r, w, i, o), ws)
  {
  }

  /** A step changes a workspace's canonical state only if it is the step that writes it. */
  lemma OnlyItsWriteChangesIt(r: Request, w: World, i: nat, o: Outcome, ws: nat)
    requires i < |w.pcs|
    ensures var after := Execute(r, w, i, o);
            if w.pcs[i] == AtCanonical && r.raw.Some? && TakesEffect(o) && r.workspace == ws
            then ws in after.canonical && after.canonical[ws] == r.raw.value &&
                after.rows == w.rows && after.raws == w.raws
            else
              (ws in after.canonical <==> ws in w.canonical)
              && (ws in w.canonical ==> after.canonical[ws] == w.canonical[ws])
  {
  }

  lemma ExecuteKeepsCanonical(requests: seq<Request>, start: World, w: World, i: nat, o: Outcome, ws: nat)
    requires FreshIds(requests) && AllProgressed(requests, w) && i < |requests| && CanonicalOk(requests, start, w, ws)
    ensures CanonicalOk(requests, start, Execute(requests[i], w, i, o), ws)
  {
    hide Execute;
    var r := requests[i];
    var after := Execute(r, w, i, o);
    assert Progressed(r, w, w.pcs[i]);
    OnlyItsWriteChangesIt(r, w, i, o, ws);
    if w.pcs[i] == AtCanonical && r.raw.Some? && TakesEffect(o) && r.workspace == ws {
      assert IsCopyOf(r, after, ws);
    } else if ws in w.canonical && exists k :: 0 <= k < |requests| && IsCopyOf(requests[k], w, ws) {
      var k :| 0 <= k < |requests| && IsCopyOf(requests[k], w, ws);
      assert k != i ==> requests[k].historyId != r.historyId;
      CopyStays(r, w, i, o, requests[k], ws);
    }
  }

  lemma {:induction false} RunsAreSafe(requests: seq<Request>, start: World, turns: seq<Turn>, ws: nat)
    requires Begins(requests, start)
    requires forall k :: 0 <= k < |turns| ==> turns[k].request < |requests|
    ensures AllProgressed(requests, Run(requests, start, turns))
    ensures CanonicalOk(requests, start, Run(requests, start, turns), ws)
  {
    if turns != [] {
      var n := |turns| - 1;
      RunsAreSafe(requests, start, turns[..n], ws);
      hide Progressed, CanonicalOk, Execute;
      var w := Run(requests, start, turns[..n]);
      ExecuteKeepsProgress(requests, w, turns[n].request, turns[n].outcome);
      ExecuteKeepsCanonical(requests, start, w, turns[n].request, turns[n].outcome, ws);
    }
  }

  // ---- Claims ----

  /** At every moment of every schedule the canonical state is the one found at the start or, byte for byte, the raw
      copy stored for a history row that is already committed. */
  lemma {:induction false} CanonicalIsACommittedCopy(requests: seq<Request>, start: World, turns: seq<Turn>, ws: nat)
    requires Begins(requests, start)
    requires forall k :: 0 <= k < |turns| ==> turns[k].request < |requests|
    ensures var w := Run(requests, start, turns);
            || ((ws in w.canonical <==> ws in start.canonical) &&
                (ws in w.canonical ==> w.canonical[ws] == start.canonical[ws]))
            || (ws in w.canonical
                && exists id :: id in w.rows && w.rows[id] == Row(ws, true) &&
                    id in w.raws && w.raws[id] == w.canonical[ws])
  {
    RunsAreSafe(requests, start, turns, ws);
  }

  /** A committed row always has its copies, and a created version always has its row. */
  lemma RowsHaveTheirCopies(requests: seq<Request>, start: World, turns: seq<Turn>, i: nat)
    requires Begins(requests, start) && i < |requests|
    requires forall k :: 0 <= k < |turns| ==> turns[k].request < |requests|
    ensures var w, r := Run(requests, start, turns), requests[i];
            && (w.pcs[i] == Ended(true) ==> r.historyId in w.rows)
            && (r.historyId in w.rows ==>
                  w.rows[r.historyId] == Row(r.workspace, r.raw.Some?) && RawIsStored(r, w) && JsonIsStored(r, w))
  {
    RunsAreSafe(requests, start, turns, 0);
    var w := Run(requests, start, turns);
    assert Progressed(requests[i], w, w.pcs[i]);
  }

  /** Whether a turn writes a workspace's canonical state. */
  predicate WritesCanonical(requests: seq<Request>, start: World, turns: seq<Turn>, k: nat, ws: nat)
    requires |start.pcs| == |requests|
    requires forall j :: 0 <= j < |turns| ==> turns[j].request < |requests|
    requires k < |turns|
  {
    var r := requests[turns[k].request];
    && Run(requests, start, turns[..k]).pcs[turns[k].request] == AtCanonical
    && r.raw.Some? && r.workspace == ws && TakesEffect(turns[k].outcome)
  }

  lemma {:induction false} LastWriterWins(requests: seq<Request>, start: World, turns: seq<Turn>, ws: nat, k: nat)
    requires Begins(requests, start)
    requires forall j :: 0 <= j < |turns| ==> turns[j].request < |requests|
    requires k < |turns| && WritesCanonical(requests, start, turns, k, ws)
    requires forall j :: k < j < |turns| ==> !WritesCanonical(requests, start, turns, j, ws)
    ensures var w := Run(requests, start, turns);
            ws in w.canonical && w.canonical[ws] == requests[turns[k].request].raw.value
    decreases |turns|
  {
    hide Execute;
    var n := |turns| - 1;
    var r, before := requests[turns[n].request], Run(requests, start, turns[..n]);
    OnlyItsWriteChangesIt(r, before, turns[n].request, turns[n].outcome, ws);
    if k < n {
      var init := turns[..n];
      assert forall j :: 0 <= j < n ==> init[..j] == turns[..j] && init[j] == turns[j];
      assert WritesCanonical(requests, start, init, k, ws);
      forall j | k < j < n ensures !WritesCanonical(requests, start, init, j, ws) {
        assert !WritesCanonical(requests, start, turns, j, ws);
      }
      LastWriterWins(requests, start, init, ws, k);
      assert !WritesCanonical(requests, start, turns, n, ws);
    }
  }

  lemma OneTurnMore(requests: seq<Request>, start: World, turns: seq<Turn>, t: Turn)
    requires |start.pcs| == |requests| && t.request < |requests|
    requires forall k :: 0 <= k < |turns| ==> turns[k].request < |requests|
    ensures Run(requests, start, turns + [t]) ==
        Execute(requests[t.request], Run(requests, start, turns), t.request, t.outcome)
  {
    hide Execute;
    assert (turns + [t])[..|turns|] == turns;
  }

  /** A request's first three steps, all working. */
  lemma CopiesAndCommits(requests: seq<Request>, start: World, turns: seq<Turn>, i: nat)
    requires |start.pcs| == |requests| && i < |requests| && requests[i].raw.Some?
    requires forall k :: 0 <= k < |turns| ==> turns[k].request < |requests|
    requires Run(requests, start, turns).pcs[i] == AtRawCopy
    ensures var w, r, t := Run(requests, start, turns), requests[i], Turn(i, Works);
            Run(requests, start, turns + [t] + [t] + [t]) ==
            w.(raws := w.raws[r.historyId := r.raw.value], jsons := w.jsons[r.historyId := r.json],
               rows := w.rows[r.historyId := Row(r.workspace, true)], pcs := w.pcs[i := AtCanonical])
  {
    var t, r := Turn(i, Works), requests[i];
    OneTurnMore(requests, start, turns, t);
    OneTurnMore(requests, start, turns + [t], t);
    OneTurnMore(requests, start, turns + [t] + [t], t);
    hide Run;
    var w := Run(requests, start, turns);
    var w1, w2 := Execute(r, w, i, Works), Execute(r, Execute(r, w, i, Works), i, Works);
    assert w1.pcs[i] == AtJsonCopy;
    assert w2.pcs[i] == AtCommit && w2.pcs == w.pcs[i := AtCommit];
  }

  /** Two uploads that both succeed can leave the canonical state at the row committed first: the last write decides,
      not the last row. */
  lemma TheLatestRowMayNotBeCanonical(a: Bytes, b: Bytes)
    requires a != b
    ensures var requests := [Request(0, 1, true, Some(a), []), Request(0, 2, true, Some(b), [])];
            var start := World(map[], map[], map[], map[], [AtRawCopy, AtRawCopy]);
            var first, second := Turn(0, Works), Turn(1, Works);
            var early := [] + [first] + [first] + [first];
            var late := early + [second] + [second] + [second] + [second] + [first];
            && Begins(requests, start)
            && Run(requests, start, early).rows.Keys == {1}
            && Run(requests, start, late).rows.Keys == {1, 2}
            && Run(requests, start, late).pcs == [Ended(true), Ended(true)]
            && Run(requests, start, late).canonical == map[0 := a]
  {
    var requests := [Request(0, 1, true, Some(a), []), Request(0, 2, true, Some(b), [])];
    var start := World(map[], map[], map[], map[], [AtRawCopy, AtRawCopy]);
    var first, second := Turn(0, Works), Turn(1, Works);
    var early := [] + [first] + [first] + [first];
    var both := early + [second] + [second] + [second];
    CopiesAndCommits(requests, start, [], 0);
    CopiesAndCommits(requests, start, early, 1);
    OneTurnMore(requests, start, both, second);
    OneTurnMore(requests, start, both + [second], first);
    assert Run(requests, start, both).pcs == [AtCanonical, AtCanonical];
  }

  // ---- The latest row ----

  /** A turn commits a row of the workspace that has a raw copy. */
  predicate CommitsRaw(requests: seq<Request>, start: World, turns: seq<Turn>, c: nat, ws: nat)
    requires |start.pcs| == |requests|
    requires forall j :: 0 <= j < |turns| ==> turns[j].request < |requests|
    requires c < |turns|
  {
    var r := requests[turns[c].request];
    && Run(requests, start, turns[..c]).pcs[turns[c].request] == AtCommit
    && r.raw.Some? && r.workspace == ws && TakesEffect(turns[c].outcome)
  }

  /** The row committed last, among those of the workspace with a raw copy. */
  predicate IsLastCommit(requests: seq<Request>, start: World, turns: seq<Turn>, c: nat, ws: nat)
    requires |start.pcs| == |requests|
    requires forall j :: 0 <= j < |turns| ==> turns[j].request < |requests|
  {
    && c < |turns| && CommitsRaw(requests, start, turns, c, ws)
    && forall j :: c < j < |turns| ==> !CommitsRaw(requests, start, turns, j, ws)
  }

  predicate IsLastWrite(requests: seq<Request>, start: World, turns: seq<Turn>, k: nat, ws: nat)
    requires |start.pcs| == |requests|
    requires forall j :: 0 <= j < |turns| ==> turns[j].request < |requests|
  {
    && k < |turns| && WritesCanonical(requests, start, turns, k, ws)
    && forall j :: k < j < |turns| ==> !WritesCanonical(requests, start, turns, j, ws)
  }

  /** The canonical state is the raw copy of a request's row. */
  predicate IsCanonical(w: World, r: Request) {
    && r.workspace in w.canonical && r.historyId in w.raws
    && w.canonical[r.workspace] == w.raws[r.historyId]
  }

  lemma OneStepKeepsRows(r: Request, w: World, i: nat, o: Outcome, id: nat)
    requires i < |w.pcs| && id in w.rows
    ensures id in Execute(r, w, i, o).rows
  {
  }

  lemma {:induction false} RowsStay(requests: seq<Request>, start: World, turns: seq<Turn>, n: nat, id: nat)
    requires |start.pcs| == |requests| && n <= |turns|
    requires forall j :: 0 <= j < |turns| ==> turns[j].request < |requests|
    requires id in Run(requests, start, turns[..n]).rows
    ensures id in Run(requests, start, turns).rows
    decreases |turns|
  {
    hide Execute;
    if n == |turns| {
      assert turns[..n] == turns;
    } else {
      var init, t := turns[..|turns| - 1], turns[|turns| - 1];
      assert init[..n] == turns[..n];
      RowsStay(requests, start, init, n, id);
      OneStepKeepsRows(requests[t.request], Run(requests, start, init), t.request, t.outcome, id);
    }
  }

  lemma TurnByOne(requests: seq<Request>, start: World, turns: seq<Turn>, c: nat)
    requires |start.pcs| == |requests| && c < |turns|
    requires forall j :: 0 <= j < |turns| ==> turns[j].request < |requests|
    ensures Run(requests, start, turns[..c + 1])
         == Execute(requests[turns[c].request], Run(requests, start, turns[..c]), turns[c].request, turns[c].outcome)
  {
    hide Execute;
    assert turns[..c + 1] == turns[..c] + [turns[c]];
    OneTurnMore(requests, start, turns[..c], turns[c]);
  }

  lemma CommittedRowsAreThere(requests: seq<Request>, start: World, turns: seq<Turn>, c: nat, ws: nat)
    requires Begins(requests, start)
    requires forall j :: 0 <= j < |turns| ==> turns[j].request < |requests|
    requires c < |turns| && CommitsRaw(requests, start, turns, c, ws)
    ensures var w, r := Run(requests, start, turns), requests[turns[c].request];
            r.historyId in w.rows && w.rows[r.historyId] == Row(ws, true) && RawIsStored(r, w)
  {
    TurnByOne(requests, start, turns, c);
    RowsStay(requests, start, turns, c + 1, requests[turns[c].request].historyId);
    RowsHaveTheirCopies(requests, start, turns, turns[c].request);
  }

  /** The canonical state is the latest row's copy exactly if the request that wrote it last and the one that committed
      last uploaded the same bytes. */
  lemma TheLatestRowIsCanonicalIfItsBytesWereWrittenLast(requests: seq<Request>, start: World,
      turns: seq<Turn>, ws: nat, k: nat, c: nat)
    requires Begins(requests, start)
    requires forall j :: 0 <= j < |turns| ==> turns[j].request < |requests|
    requires IsLastWrite(requests, start, turns, k, ws) && IsLastCommit(requests, start, turns, c, ws)
    ensures IsCanonical(Run(requests, start, turns), requests[turns[c].request])
            <==> requests[turns[k].request].raw == requests[turns[c].request].raw
  {
    hide Run, WritesCanonical;
    LastWriterWins(requests, start, turns, ws, k);
    CommittedRowsAreThere(requests, start, turns, c, ws);
    WritersHaveBytes(requests, start, turns, k, ws);
  }

  lemma WritersHaveBytes(requests: seq<Request>, start: World, turns: seq<Turn>, k: nat, ws: nat)
    requires |start.pcs| == |requests|
    requires forall j :: 0 <= j < |turns| ==> turns[j].request < |requests|
    requires k < |turns| && WritesCanonical(requests, start, turns, k, ws)
    ensures requests[turns[k].request].raw.Some? && requests[turns[k].request].workspace == ws
  {
    hide Run;
  }

  /** Where nobody wrote, the canonical state is the one found, and it is the latest row's copy only if it happens to be
      the same. */
  lemma {:induction false} UnwrittenStaysAsFound(requests: seq<Request>, start: World, turns: seq<Turn>, ws: nat)
    requires |start.pcs| == |requests|
    requires forall j :: 0 <= j < |turns| ==> turns[j].request < |requests|
    requires forall j :: 0 <= j < |turns| ==> !WritesCanonical(requests, start, turns, j, ws)
    ensures var w := Run(requests, start, turns);
            (ws in w.canonical <==> ws in start.canonical) &&
                (ws in w.canonical ==> w.canonical[ws] == start.canonical[ws])
    decreases |turns|
  {
    hide Execute;
    if turns != [] {
      var n := |turns| - 1;
      var init := turns[..n];
      assert forall j :: 0 <= j < n ==> init[..j] == turns[..j] && init[j] == turns[j];
      forall j | 0 <= j < n ensures !WritesCanonical(requests, start, init, j, ws) {
        assert !WritesCanonical(requests, start, turns, j, ws);
      }
      UnwrittenStaysAsFound(requests, start, init, ws);
      assert !WritesCanonical(requests, start, turns, n, ws);
      OnlyItsWriteChangesIt(requests[turns[n].request], Run(requests, start, init),
          turns[n].request, turns[n].outcome, ws);
    }
  }

  // ---- Requests that do not overlap ----

  /** Between two turns of one request of a workspace no other request of that workspace has a turn. */
  predicate DoNotOverlap(requests: seq<Request>, turns: seq<Turn>, ws: nat)
    requires forall j :: 0 <= j < |turns| ==> turns[j].request < |requests|
  {
    forall a, b, c :: 0 <= a < b < c < |turns| && turns[a].request == turns[c].request
                      && requests[turns[a].request].workspace == ws && requests[turns[b].request].workspace == ws
                      ==> turns[b].request == turns[a].request
  }

  /** The step a request takes at a turn. */
  function StepAt(requests: seq<Request>, start: World, turns: seq<Turn>, n: nat): Pc
    requires |start.pcs| == |requests| && n < |turns|
    requires forall j :: 0 <= j < |turns| ==> turns[j].request < |requests|
  {
    Run(requests, start, turns[..n]).pcs[turns[n].request]
  }

  function Rank(pc: Pc): nat {
    match pc
    case AtRawCopy => 0
    case AtJsonCopy => 1
    case AtCommit => 2
    case AtCanonical => 3
    case Ended(_) => 4
  }

  /** Where a request is after its own step. */
  function After(r: Request, pc: Pc, o: Outcome): Pc {
    match pc
    case AtRawCopy => if o == Works || r.raw.None? then AtJsonCopy else Ended(false)
    case AtJsonCopy => if o == Works then AtCommit else Ended(false)
    case AtCommit => if o == Works then AtCanonical else Ended(false)
    case AtCanonical => if o == Works || r.raw.None? then Ended(true) else Ended(false)
    case Ended(_) => pc
  }

  lemma RawGoesOn(r: Request, w: World, i: nat, o: Outcome)
    requires i < |w.pcs|
    ensures RawStep(r, w, i, o).pcs == w.pcs[i := After(r, AtRawCopy, o)]
  {
  }

  lemma JsonGoesOn(r: Request, w: World, i: nat, o: Outcome)
    requires i < |w.pcs|
    ensures JsonStep(r, w, i, o).pcs == w.pcs[i := After(r, AtJsonCopy, o)]
  {
  }

  lemma CommitGoesOn(r: Request, w: World, i: nat, o: Outcome)
    requires i < |w.pcs|
    ensures CommitStep(r, w, i, o).pcs == w.pcs[i := After(r, AtCommit, o)]
  {
  }

  lemma CanonicalGoesOn(r: Request, w: World, i: nat, o: Outcome)
    requires i < |w.pcs|
    ensures CanonicalStep(r, w, i, o).pcs == w.pcs[i := After(r, AtCanonical, o)]
  {
  }

  lemma StepsGoOn(r: Request, w: World, i: nat, o: Outcome)
    requires i < |w.pcs|
    ensures Execute(r, w, i, o).pcs == w.pcs[i := After(r, w.pcs[i], o)]
  {
    hide RawStep, JsonStep, CommitStep, CanonicalStep;
    match w.pcs[i]
    case AtRawCopy => RawGoesOn(r, w, i, o);
    case AtJsonCopy => JsonGoesOn(r, w, i, o);
    case AtCommit => CommitGoesOn(r, w, i, o);
    case AtCanonical => CanonicalGoesOn(r, w, i, o);
    case Ended(_) =>
  }

  /** A request that has come further than a step has taken that step, and it worked. */
  lemma {:induction false} EarlierStepsWereTaken(requests: seq<Request>, start: World, turns: seq<Turn>, i: nat, pc: Pc)
    returns (n: nat)
    requires |start.pcs| == |requests| && i < |requests| && start.pcs[i] == AtRawCopy
    requires forall j :: 0 <= j < |turns| ==> turns[j].request < |requests|
    requires pc == AtCommit || (pc == AtCanonical && requests[i].raw.Some?)
    requires var now := Run(requests, start, turns).pcs[i]; now == Ended(true) || (now == AtCanonical && pc == AtCommit)
    ensures n < |turns| && turns[n].request == i && turns[n].outcome == Works
    ensures StepAt(requests, start, turns, n) == pc
    decreases |turns|
  {
    hide Execute;
    var last := |turns| - 1;
    assert turns != [];
    var init, t := turns[..last], turns[last];
    var before := Run(requests, start, init);
    StepsGoOn(requests[t.request], before, t.request, t.outcome);
    if t.request == i && before.pcs[i] == pc {
      n := last;
    } else {
      n := EarlierStepsWereTaken(requests, start, init, i, pc);
      assert init[..n] == turns[..n];
    }
  }

  lemma {:induction false} StepsComeInOrder(requests: seq<Request>, start: World,
      turns: seq<Turn>, m: nat, n: nat, i: nat)
    requires |start.pcs| == |requests| && i < |requests| && m <= n <= |turns|
    requires forall j :: 0 <= j < |turns| ==> turns[j].request < |requests|
    ensures Rank(Run(requests, start, turns[..m]).pcs[i]) <= Rank(Run(requests, start, turns[..n]).pcs[i])
    decreases n
  {
    hide Execute;
    if m < n {
      StepsComeInOrder(requests, start, turns, m, n - 1, i);
      TurnByOne(requests, start, turns, n - 1);
      StepsGoOn(requests[turns[n - 1].request], Run(requests, start, turns[..n - 1]), turns[n - 1].request,
                turns[n - 1].outcome);
    }
  }

  /** Requests of a workspace that do not overlap leave the latest row canonical if its request reported success. */
  lemma SuccessfulLatestRowsAreCanonical(requests: seq<Request>, start: World, turns: seq<Turn>, ws: nat, c: nat)
    requires Begins(requests, start)
    requires forall j :: 0 <= j < |turns| ==> turns[j].request < |requests|
    requires DoNotOverlap(requests, turns, ws) && IsLastCommit(requests, start, turns, c, ws)
    requires Run(requests, start, turns).pcs[turns[c].request] == Ended(true)
    ensures IsCanonical(Run(requests, start, turns), requests[turns[c].request])
  {
    hide Execute;
    var i := turns[c].request;
    BegunByCommitting(requests, start, turns, c, ws);
    var k := EarlierStepsWereTaken(requests, start, turns, i, AtCanonical);
    CommitComesFirst(requests, start, turns, c, k);
    forall j | k < j < |turns| ensures !WritesCanonical(requests, start, turns, j, ws) {
      if WritesCanonical(requests, start, turns, j, ws) {
        LaterWritersCommittedLast(requests, start, turns, ws, c, j);
        OneWriteEach(requests, start, turns, k, j);
      }
    }
    TheLatestRowIsCanonicalIfItsBytesWereWrittenLast(requests, start, turns, ws, k, c);
  }

  lemma BegunByCommitting(requests: seq<Request>, start: World, turns: seq<Turn>, c: nat, ws: nat)
    requires Begins(requests, start)
    requires forall j :: 0 <= j < |turns| ==> turns[j].request < |requests|
    requires c < |turns| && CommitsRaw(requests, start, turns, c, ws)
    ensures start.pcs[turns[c].request] == AtRawCopy
  {
    hide Execute;
    assert turns[..c][..0] == [] == turns[..0];
    StepsComeInOrder(requests, start, turns, 0, c, turns[c].request);
  }

  lemma CommitComesFirst(requests: seq<Request>, start: World, turns: seq<Turn>, c: nat, k: nat)
    requires |start.pcs| == |requests| && c < |turns| && k < |turns| && turns[c].request == turns[k].request
    requires forall j :: 0 <= j < |turns| ==> turns[j].request < |requests|
    requires StepAt(requests, start, turns, c) == AtCommit && StepAt(requests, start, turns, k) == AtCanonical
    ensures c < k
  {
    hide Run;
    if k <= c {
      StepsComeInOrder(requests, start, turns, k, c, turns[k].request);
    }
  }

  /** A request that writes after the latest row was committed is the one that committed it. */
  lemma LaterWritersCommittedLast(requests: seq<Request>, start: World, turns: seq<Turn>, ws: nat, c: nat, j: nat)
    requires Begins(requests, start)
    requires forall n :: 0 <= n < |turns| ==> turns[n].request < |requests|
    requires DoNotOverlap(requests, turns, ws) && IsLastCommit(requests, start, turns, c, ws)
    requires c < j < |turns| && WritesCanonical(requests, start, turns, j, ws)
    ensures turns[j].request == turns[c].request
  {
    hide Run;
    var n := WritersCommitted(requests, start, turns, ws, j);
    assert n <= c;
  }

  lemma WritersCommitted(requests: seq<Request>, start: World, turns: seq<Turn>, ws: nat, j: nat) returns (n: nat)
    requires Begins(requests, start)
    requires forall n :: 0 <= n < |turns| ==> turns[n].request < |requests|
    requires j < |turns| && WritesCanonical(requests, start, turns, j, ws)
    ensures n < j && turns[n].request == turns[j].request && CommitsRaw(requests, start, turns, n, ws)
  {
    hide Execute;
    var i := turns[j].request;
    assert turns[..j][..0] == [] == turns[..0];
    StepsComeInOrder(requests, start, turns, 0, j, i);
    n := EarlierStepsWereTaken(requests, start, turns[..j], i, AtCommit);
    assert turns[..j][..n] == turns[..n];
  }

  /** A request writes the canonical state once. */
  lemma OneWriteEach(requests: seq<Request>, start: World, turns: seq<Turn>, k: nat, j: nat)
    requires |start.pcs| == |requests| && k < j < |turns|
    requires forall n :: 0 <= n < |turns| ==> turns[n].request < |requests|
    requires turns[k].request == turns[j].request && StepAt(requests, start, turns, k) == AtCanonical
    ensures StepAt(requests, start, turns, j) != AtCanonical
  {
    hide Execute, Run;
    var i := turns[k].request;
    TurnByOne(requests, start, turns, k);
    StepsGoOn(requests[i], Run(requests, start, turns[..k]), i, turns[k].outcome);
    StepsComeInOrder(requests, start, turns, k + 1, j, i);
  }

  // ---- One request by itself ----

  function Turns(outcomes: seq<Outcome>): seq<Turn> {
    seq(|outcomes|, i requires 0 <= i < |outcomes| => Turn(0, outcomes[i]))
  }

  lemma TurnByTurn(r: Request, start: World, outcomes: seq<Outcome>)
    requires |start.pcs| == 1
    ensures Run([r], start, Turns(outcomes)[..0]) == start && Turns(outcomes)[..|outcomes|] == Turns(outcomes)
    ensures forall k :: 0 <= k < |outcomes| ==>
              Run([r], start, Turns(outcomes)[..k + 1]) ==
                  Execute(r, Run([r], start, Turns(outcomes)[..k]), 0, outcomes[k])
  {
    hide Execute;
    var turns := Turns(outcomes);
    forall k | 0 <= k < |outcomes|
      ensures Run([r], start, turns[..k + 1]) == Execute(r, Run([r], start, turns[..k]), 0, outcomes[k])
    {
      assert turns[..k + 1] == turns[..k] + [turns[k]];
      OneTurnMore([r], start, turns[..k], turns[k]);
    }
  }

  /** A lone request's row is committed exactly if both copies were stored and the commit took effect; it is then
      canonical exactly if the commit was known to have worked and the canonical write took effect, or the same bytes
      were there. */
  lemma LoneRequests(r: Request, start: World, outcomes: seq<Outcome>)
    requires |outcomes| == 4 && Begins([r], start) && r.valid && r.raw.Some?
    ensures var w := Run([r], start, Turns(outcomes));
            && (r.historyId in w.rows <==> outcomes[0] == Works && outcomes[1] == Works && TakesEffect(outcomes[2]))
            && (r.historyId in w.rows ==>
                  (IsCanonical(w, r) <==>
                     || (outcomes[2] == Works && TakesEffect(outcomes[3]))
                     || (r.workspace in start.canonical && start.canonical[r.workspace] == r.raw.value)))
  {
    hide Execute, Run, After, Progressed, RawIsStored, Begins;
    var turns := Turns(outcomes);
    LoneStart(r, start);
    TurnByTurn(r, start, outcomes);
    LoneTurn(r, Run([r], start, turns[..0]), outcomes[0]);
    LoneTurn(r, Run([r], start, turns[..1]), outcomes[1]);
    LoneTurn(r, Run([r], start, turns[..2]), outcomes[2]);
    LoneTurn(r, Run([r], start, turns[..3]), outcomes[3]);
    LonePcs(r, outcomes);
    assert forall k :: 0 <= k < 4 ==> turns[k] == Turn(0, outcomes[k]);
    LoneCopies(r, start, turns);
  }

  lemma LoneStart(r: Request, start: World)
    requires Begins([r], start) && r.valid
    ensures start.pcs == [AtRawCopy] && r.historyId !in start.rows
  {
    assert start.pcs[0] == FirstPc([r][0]) && [r][0].historyId !in start.rows;
  }

  lemma LoneCopies(r: Request, start: World, turns: seq<Turn>)
    requires Begins([r], start) && r.raw.Some?
    requires forall k :: 0 <= k < |turns| ==> turns[k].request < 1
    ensures var w := Run([r], start, turns);
            r.historyId in w.rows ==> r.historyId in w.raws && w.raws[r.historyId] == r.raw.value
  {
    hide Run;
    RowsHaveTheirCopies([r], start, turns, 0);
  }

  /** How far four outcomes take a request. */
  lemma LonePcs(r: Request, outcomes: seq<Outcome>)
    requires |outcomes| == 4 && r.raw.Some?
    ensures var p1 := After(r, AtRawCopy, outcomes[0]);
            var p2 := After(r, p1, outcomes[1]);
            var p3 := After(r, p2, outcomes[2]);
            && p1 != AtCommit && p1 != AtCanonical && p2 != AtCanonical
            && (p2 == AtCommit <==> outcomes[0] == Works && outcomes[1] == Works)
            && (p3 == AtCanonical <==> outcomes[0] == Works && outcomes[1] == Works && outcomes[2] == Works)
            && p3 != AtCommit
  {
  }

  lemma LoneTurn(r: Request, w: World, o: Outcome)
    requires |w.pcs| == 1 && r.raw.Some?
    ensures var after := Execute(r, w, 0, o);
            && after.pcs == [After(r, w.pcs[0], o)]
            && (r.historyId in after.rows <==> r.historyId in w.rows || (w.pcs[0] == AtCommit && TakesEffect(o)))
            && (if w.pcs[0] == AtCanonical && TakesEffect(o)
                then r.workspace in after.canonical && after.canonical[r.workspace] == r.raw.value
                else SameCanonical(w, after, r.workspace))
  {
    hide Execute, After;
    StepsGoOn(r, w, 0, o);
    OnlyCommitsAddRows(r, w, 0, o);
    OnlyItsWriteChangesIt(r, w, 0, o, r.workspace);
  }

  predicate SameCanonical(w: World, after: World, ws: nat) {
    (ws in after.canonical <==> ws in w.canonical) && (ws in w.canonical ==> after.canonical[ws] == w.canonical[ws])
  }

  lemma OnlyCommitsAddRows(r: Request, w: World, i: nat, o: Outcome)
    requires i < |w.pcs|
    ensures r.historyId in Execute(r, w, i, o).rows <==>
        r.historyId in w.rows || (w.pcs[i] == AtCommit && TakesEffect(o))
  {
  }

  // ---- The handler ----

  /** Once a request has ended, its turns do nothing. */
  lemma {:induction false} EndedStays(r: Request, start: World, outcomes: seq<Outcome>, k: nat)
    requires |start.pcs| == 1 && k <= |outcomes| && Run([r], start, Turns(outcomes)[..k]).pcs[0].Ended?
    ensures Run([r], start, Turns(outcomes)) == Run([r], start, Turns(outcomes)[..k])
    decreases |outcomes| - k
  {
    hide Run;
    TurnByTurn(r, start, outcomes);
    if k < |outcomes| {
      EndedStays(r, start, outcomes, k + 1);
    }
  }

  /** Blob storage and the history table, as one call of the handler changes them. */
  class StateStore {
    var raws: map<nat, Bytes>
    var jsons: map<nat, Bytes>
    var rows: map<nat, Row>
    var canonical: map<nat, Bytes>

    ghost function View(pc: Pc): (w: World)
      reads this
      ensures |w.pcs| == 1
    {
      World(raws, jsons, rows, canonical, [pc])
    }

    method StoreRawCopy(r: Request, o: Outcome) returns (pc: Pc)
      modifies this`raws
      ensures View(pc) == Execute(r, old(View(AtRawCopy)), 0, o)
      ensures pc == AtJsonCopy || pc == Ended(false)
      ensures pc == AtJsonCopy <==> r.raw.None? || o == Works
      ensures raws == if r.raw.Some? && o != Fails then old(raws)[r.historyId := r.raw.value] else old(raws)
    {
      if r.raw.None? {
        return AtJsonCopy;
      }
      if TakesEffect(o) {
        raws := raws[r.historyId := r.raw.value];
      }
      pc := if o == Works then AtJsonCopy else Ended(false);
    }

    method StoreJsonCopy(r: Request, o: Outcome) returns (pc: Pc)
      modifies this`jsons
      ensures View(pc) == Execute(r, old(View(AtJsonCopy)), 0, o)
      ensures pc == AtCommit || pc == Ended(false)
      ensures pc == AtCommit <==> o == Works
      ensures jsons == if o != Fails then old(jsons)[r.historyId := r.json] else old(jsons)
    {
      if TakesEffect(o) {
        jsons := jsons[r.historyId := r.json];
      }
      pc := if o == Works then AtCommit else Ended(false);
    }

    method CommitRow(r: Request, o: Outcome) returns (pc: Pc)
      modifies this`rows
      ensures View(pc) == Execute(r, old(View(AtCommit)), 0, o)
      ensures pc == AtCanonical || pc == Ended(false)
      ensures pc == AtCanonical <==> o == Works
      ensures rows == if o != Fails then old(rows)[r.historyId := Row(r.workspace, r.raw.Some?)] else old(rows)
    {
      if TakesEffect(o) {
        rows := rows[r.historyId := Row(r.workspace, r.raw.Some?)];
      }
      pc := if o == Works then AtCanonical else Ended(false);
    }

    method StoreCanonical(r: Request, o: Outcome) returns (pc: Pc)
      modifies this`canonical
      ensures View(pc) == Execute(r, old(View(AtCanonical)), 0, o)
      ensures pc.Ended? && (pc.created <==> r.raw.None? || o == Works)
      ensures canonical ==
              if r.raw.Some? && o != Fails then old(canonical)[r.workspace := r.raw.value] else old(canonical)
    {
      if r.raw.None? {
        return Ended(true);
      }
      if TakesEffect(o) {
        canonical := canonical[r.workspace := r.raw.value];
      }
      pc := if o == Works then Ended(true) else Ended(false);
    }

    /** A call that is not disturbed by others is one schedule of the steps above: four turns, of which those after a
        failure do nothing. */
    method CreateWorkspaceStateVersion(r: Request, outcomes: seq<Outcome>) returns (created: bool)
      requires |outcomes| == 4
      modifies this
      ensures View(Ended(created)) == Run([r], old(View(FirstPc(r))), Turns(outcomes))
      // each write is tried once those before it have worked, and is there unless it failed
      ensures var first := r.valid && r.raw.Some?;
              var second := r.valid && (r.raw.None? || outcomes[0] == Works);
              var third := second && outcomes[1] == Works;
              var last := third && outcomes[2] == Works;
              && raws == (if first && outcomes[0] != Fails then old(raws)[r.historyId := r.raw.value] else old(raws))
              && jsons == (if second && outcomes[1] != Fails then old(jsons)[r.historyId := r.json] else old(jsons))
              && rows == (if third && outcomes[2] != Fails
                          then old(rows)[r.historyId := Row(r.workspace, r.raw.Some?)] else old(rows))
              && canonical == (if last && r.raw.Some? && outcomes[3] != Fails
                               then old(canonical)[r.workspace := r.raw.value] else old(canonical))
              && (created <==> last && (r.raw.None? || outcomes[3] == Works))
    {
      hide Execute, Run;
      ghost var start := View(FirstPc(r));
      TurnByTurn(r, start, outcomes);
      if !r.valid {
        EndedStays(r, start, outcomes, 0);
        return false;
      }
      var pc := StoreRawCopy(r, outcomes[0]);
      if pc.Ended? {
        EndedStays(r, start, outcomes, 1);
        return pc.created;
      }
      pc := StoreJsonCopy(r, outcomes[1]);
      if pc.Ended? {
        EndedStays(r, start, outcomes, 2);
        return pc.created;
      }
      pc := CommitRow(r, outcomes[2]);
      if pc.Ended? {
        EndedStays(r, start, outcomes, 3);
        return pc.created;
      }
      pc := StoreCanonical(r, outcomes[3]);
      created := pc.created;
    }
  }
}
