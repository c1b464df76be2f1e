/** The lines of an apply's console output as events: a line on its own, or a whole error block. */
module ConsoleEvents {
  import opened Wrappers

  import opened Indices

  datatype Action = Create | Update | Delete | Replace | Read

  /** What a line says by itself. */
  datatype Meaning =
    Started(address: string, verb: Action)
  | Still(address: string, elapsed: string)
  | Finished(address: string, verb: Action, duration: string)
  | ErrorStart(message: string)
  | Other

  /** A trimmed line: whether it is framed as part of an error block, its text without the frame, the resource it names
      in a block's `with` line, and what it says by itself. */
  datatype Line = Line(text: string, boxed: bool, unboxed: string, with: Option<string>, meaning: Meaning)

  /** A line on its own, or a whole error block. */
  datatype Event = Progress(line: Line) | Failure(message: string, block: seq<Line>)

  // ---- From lines to events ----

  function BoxedRun(lines: seq<Line>): (n: nat)
    ensures n <= |lines|
  {
    if lines == [] || !lines[0].boxed then 0 else 1 + BoxedRun(lines[1..])
  }

  /** The events of a log: an error's start takes all the framed lines behind it with it. */
  function Split(lines: seq<Line>): seq<Event>
    decreases |lines|, 0
  {
    if lines == [] then []
    else
      match lines[0].meaning
      case Other => Split(lines[1..])
      case ErrorStart(message) => SplitBlock(message, [], lines[1..])
      case _ => [Progress(lines[0])] + Split(lines[1..])
  }

  /** The events of the rest of a log within a block of which some lines have been read. */
  function SplitBlock(message: string, block: seq<Line>, lines: seq<Line>): seq<Event>
    decreases |lines|, 1
  {
    var n := BoxedRun(lines);
    [Failure(message, block + lines[..n])] + Split(lines[n..])
  }

  /** A log stops within an error block if only framed lines follow its last error start. */
  predicate EndsInBlock(lines: seq<Line>)
    decreases |lines|
  {
    if lines == [] then false
    else if lines[0].meaning.ErrorStart? then
      var n := BoxedRun(lines[1..]);
      n == |lines| - 1 || EndsInBlock(lines[1 + n..])
    else EndsInBlock(lines[1..])
  }

  lemma {:induction false} RunsInParts(a: seq<Line>, b: seq<Line>)
    ensures BoxedRun(a + b) == if BoxedRun(a) == |a| then |a| + BoxedRun(b) else BoxedRun(a)
  {
    if a == [] {
      assert a + b == b;
    } else {
      assert (a + b)[1..] == a[1..] + b;
      RunsInParts(a[1..], b);
    }
  }

  lemma SameRest(e: Event, x: seq<Event>, y: seq<Event>, z: seq<Event>)
    ensures [e] + x == ([e] + y) + z <==> x == y + z
  {
    assert ([e] + y) + z == [e] + (y + z);
    assert ([e] + x)[1..] == x && ([e] + (y + z))[1..] == y + z;
  }

  lemma {:induction false} BlocksInParts(message: string, rest: seq<Line>, b: seq<Line>)
    ensures var n := BoxedRun(rest);
            SplitBlock(message, [], rest + b) ==
            if n == |rest| then [Failure(message, rest + b[..BoxedRun(b)])] + Split(b[BoxedRun(b)..])
            else [Failure(message, rest[..n])] + Split(rest[n..] + b)
    ensures SplitBlock(message, [], rest) == [Failure(message, rest[..BoxedRun(rest)])] + Split(rest[BoxedRun(rest)..])
  {
    hide Split;
    var n, k := BoxedRun(rest), BoxedRun(b);
    RunsInParts(rest, b);
    assert [] + rest[..n] == rest[..n];
    if n == |rest| {
      assert [] + (rest + b)[..n + k] == rest + b[..k] && (rest + b)[n + k..] == b[k..];
    } else {
      assert [] + (rest + b)[..n] == rest[..n] && (rest + b)[n..] == rest[n..] + b;
    }
  }

  lemma NothingSplit()
    ensures Split([]) == []
  {
  }

  /** A log can be cut anywhere but between the framed lines of an error block, or in front of the first of them. */
  lemma {:induction false} SplittingInParts(a: seq<Line>, b: seq<Line>)
    ensures Split(a + b) == Split(a) + Split(b) <==> !(EndsInBlock(a) && b != [] && b[0].boxed)
    decreases |a|
  {
    if a == [] {
      assert a + b == b;
    } else {
      var rest := a[1..];
      assert (a + b)[1..] == rest + b && (a + b)[0] == a[0];
      match a[0].meaning
      case Other => SplittingInParts(rest, b);
      case ErrorStart(message) => CutAfterErrorStart(a, b, message);
      case _ =>
        SplittingInParts(rest, b);
        SameRest(Progress(a[0]), Split(rest + b), Split(rest), Split(b));
    }
  }

  lemma {:induction false} CutAfterErrorStart(a: seq<Line>, b: seq<Line>, message: string)
    requires a != [] && a[0].meaning == ErrorStart(message)
    ensures Split(a + b) == Split(a) + Split(b) <==> !(EndsInBlock(a) && b != [] && b[0].boxed)
    decreases |a|, 0
  {
    hide Split, SplitBlock, EndsInBlock;
    var rest := a[1..];
    var n := BoxedRun(rest);
    assert (a + b)[1..] == rest + b && (a + b)[0] == a[0] && a[1 + n..] == rest[n..];
    AtErrorStart(a, message);
    AtErrorStart(a + b, message);
    BlocksInParts(message, rest, b);
    NothingSplit();
    if n == |rest| {
      BlockCut(message, rest, b);
    } else {
      SplittingInParts(rest[n..], b);
      SameRest(Failure(message, rest[..n]), Split(rest[n..] + b), Split(rest[n..]), Split(b));
    }
  }

  lemma {:induction false} AtErrorStart(lines: seq<Line>, message: string)
    requires lines != [] && lines[0].meaning == ErrorStart(message)
    ensures Split(lines) == SplitBlock(message, [], lines[1..])
    ensures var n := BoxedRun(lines[1..]); EndsInBlock(lines) <==> n == |lines| - 1 || EndsInBlock(lines[1 + n..])
  {
  }

  /** A block cut between its lines becomes two different blocks. */
  lemma {:induction false} BlockCut(message: string, rest: seq<Line>, b: seq<Line>)
    requires BoxedRun(rest) == |rest|
    ensures var k := BoxedRun(b);
            [Failure(message, rest + b[..k])] + Split(b[k..]) ==
                ([Failure(message, rest[..|rest|])] + Split(rest[|rest|..])) + Split(b)
            <==> !(b != [] && b[0].boxed)
  {
    NothingSplit();
    var k := BoxedRun(b);
    assert rest[..|rest|] == rest && rest[|rest|..] == [];
    if k == 0 {
      assert rest + b[..0] == rest && b[0..] == b;
    } else {
      assert |rest + b[..k]| > |rest|;
      DifferentFirst(Failure(message, rest + b[..k]), Split(b[k..]), Failure(message, rest), Split(b));
    }
  }

  lemma DifferentFirst(e: Event, x: seq<Event>, f: Event, y: seq<Event>)
    requires e != f
    ensures [e] + x != [f] + y
  {
    assert ([e] + x)[0] == e && ([f] + y)[0] == f;
  }

  lemma BlockGoesOn(message: string, block: seq<Line>, lines: seq<Line>)
    ensures SplitBlock(message, block, lines) ==
            if lines != [] && lines[0].boxed then SplitBlock(message, block + [lines[0]], lines[1..])
            else [Failure(message, block)] + Split(lines)
  {
    hide Split;
    if lines != [] && lines[0].boxed {
      var n := BoxedRun(lines[1..]);
      assert block + lines[..n + 1] == (block + [lines[0]]) + lines[1..][..n];
      assert lines[n + 1..] == lines[1..][n..];
    } else {
      assert block + lines[..0] == block && lines[0..] == lines;
    }
  }

  // ---- The events, spelled out on the lines ----

  /** A line opens an error block unless it is framed as part of another one. */
  ghost predicate OpensBlock(lines: seq<Line>, k: nat)
    requires k < |lines|
    decreases k, 1
  {
    lines[k].meaning.ErrorStart? && !InBlock(lines, k)
  }

  /** Nothing but framed lines stands between the opening of a block and a line of it. */
  ghost predicate InBlock(lines: seq<Line>, k: nat)
    requires k < |lines|
    decreases k, 0
  {
    exists j: nat :: j < k && OpensBlock(lines, j) && AreBoxed(lines, j + 1, k + 1)
  }

  predicate AreBoxed(lines: seq<Line>, from: nat, to: nat)
    requires to <= |lines|
  {
    forall i :: from <= i < to ==> lines[i].boxed
  }

  /** The event that begins with a line; a block goes on as far as the framed lines do. */
  predicate IsEventAt(lines: seq<Line>, k: nat, e: Event)
    requires k < |lines|
  {
    match e
    case Progress(line) => line == lines[k] && (line.meaning.Started? || line.meaning.Still? || line.meaning.Finished?)
    case Failure(message, block) =>
      var end := k + 1 + |block|;
      && lines[k].meaning == ErrorStart(message) && end <= |lines| && block == lines[k + 1..end]
      && AreBoxed(lines, k + 1, end) && (end < |lines| ==> !lines[end].boxed)
  }

  /** The events are those of the lines `at`, in order: all that are not part of a block and say something. */
  ghost predicate AreEvents(lines: seq<Line>, events: seq<Event>, at: seq<nat>) {
    BeginAt(lines, events, at) && Increase(at) && AreAllEvents(lines, at)
  }

  ghost predicate BeginAt(lines: seq<Line>, events: seq<Event>, at: seq<nat>) {
    && |at| == |events|
    && forall k :: 0 <= k < |at| ==>
         at[k] < |lines| && IsEventAt(lines, at[k], events[k]) && !InBlock(lines, at[k])
  }

  ghost predicate AreAllEvents(lines: seq<Line>, at: seq<nat>) {
    forall i: nat :: i < |lines| && !lines[i].meaning.Other? && !InBlock(lines, i) ==> i in at
  }

  /** Where no block is open, what follows can be looked at by itself. */
  ghost predicate IsBoundary(lines: seq<Line>, m: nat) {
    m <= |lines| && (m < |lines| ==> forall j: nat :: j < m && OpensBlock(lines, j) ==> !AreBoxed(lines, j + 1, m + 1))
  }

  lemma {:induction false} BlocksBehind(lines: seq<Line>, m: nat, k: nat)
    requires IsBoundary(lines, m) && m <= k < |lines|
    ensures InBlock(lines, k) <==> InBlock(lines[m..], k - m)
    decreases k
  {
    var rest := lines[m..];
    forall j: nat | m <= j < k
      ensures OpensBlock(lines, j) <==> OpensBlock(rest, j - m)
      ensures AreBoxed(lines, j + 1, k + 1) <==> AreBoxed(rest, j + 1 - m, k + 1 - m)
    {
      BlocksBehind(lines, m, j);
      BoxedBehind(lines, m, j + 1, k + 1);
    }
    hide AreBoxed;
    if InBlock(lines, k) {
      assert InBlock(lines, k);
      var j: nat :| j < k && OpensBlock(lines, j) && AreBoxed(lines, j + 1, k + 1);
      BoxedPart(lines, j + 1, m + 1, k + 1);
      assert OpensBlock(rest, j - m);
    }
    if InBlock(rest, k - m) {
      assert InBlock(rest, k - m);
      var j: nat :| j < k - m && OpensBlock(rest, j) && AreBoxed(rest, j + 1, k - m + 1);
      assert OpensBlock(lines, j + m);
    }
  }

  lemma BoxedBehind(lines: seq<Line>, m: nat, from: nat, to: nat)
    requires m <= from <= to <= |lines|
    ensures AreBoxed(lines, from, to) <==> AreBoxed(lines[m..], from - m, to - m)
  {
    if AreBoxed(lines[m..], from - m, to - m) {
      forall i | from <= i < to ensures lines[i].boxed {
        assert lines[m..][i - m].boxed;
      }
    }
  }

  lemma BoxedPart(lines: seq<Line>, from: nat, mid: nat, to: nat)
    requires mid <= to <= |lines| && AreBoxed(lines, from, to)
    ensures AreBoxed(lines, from, mid)
  {
  }

  lemma EventsBehind(lines: seq<Line>, m: nat, events: seq<Event>, at: seq<nat>)
    requires IsBoundary(lines, m) && BeginAt(lines[m..], events, at)
    ensures BeginAt(lines, events, Shifted(at, m)) && forall k :: 0 <= k < |at| ==> Shifted(at, m)[k] >= m
  {
    hide InBlock, IsEventAt, OpensBlock, AreBoxed;
    forall k | 0 <= k < |at|
      ensures at[k] + m < |lines| && IsEventAt(lines, at[k] + m, events[k]) && !InBlock(lines, at[k] + m)
    {
      EventBehind(lines, m, at[k], events[k]);
      BlocksBehind(lines, m, at[k] + m);
    }
  }

  lemma AllEventsBehind(lines: seq<Line>, m: nat, at: seq<nat>, i: nat)
    requires IsBoundary(lines, m) && AreAllEvents(lines[m..], at) && Increase(at)
    requires m <= i < |lines| && !lines[i].meaning.Other? && !InBlock(lines, i)
    ensures i in Shifted(at, m)
  {
    BlocksBehind(lines, m, i);
    ShiftedIncrease(at, m);
    hide InBlock, IsBoundary, Increase;
    assert lines[m..][i - m] == lines[i] && i - m in at;
    assert i - m + m in Shifted(at, m);
  }

  lemma EventBehind(lines: seq<Line>, m: nat, k: nat, e: Event)
    requires m <= |lines| && k < |lines| - m && IsEventAt(lines[m..], k, e)
    ensures IsEventAt(lines, k + m, e)
  {
    if e.Failure? {
      var end := k + 1 + |e.block|;
      BoxedBehind(lines, m, k + m + 1, end + m);
      assert lines[m..][k + 1..end] == lines[k + m + 1..end + m];
    }
  }

  lemma {:induction false} BoxedRunIsBoxed(lines: seq<Line>)
    ensures AreBoxed(lines, 0, BoxedRun(lines)) && (BoxedRun(lines) < |lines| ==> !lines[BoxedRun(lines)].boxed)
  {
    if lines != [] && lines[0].boxed {
      BoxedRunIsBoxed(lines[1..]);
      BoxedBehind(lines, 1, 1, BoxedRun(lines));
    }
  }

  lemma NothingBeforeTheFirst(lines: seq<Line>)
    requires lines != []
    ensures !InBlock(lines, 0)
    ensures !lines[0].meaning.ErrorStart? ==> IsBoundary(lines, 1)
  {
  }

  lemma BlocksEndThere(lines: seq<Line>, n: nat)
    requires lines != [] && lines[0].meaning.ErrorStart? && n == BoxedRun(lines[1..])
    ensures IsBoundary(lines, 1 + n) && forall k: nat :: 1 <= k <= n ==> InBlock(lines, k)
    ensures AreBoxed(lines, 1, 1 + n) && (1 + n < |lines| ==> !lines[1 + n].boxed)
  {
    BoxedRunIsBoxed(lines[1..]);
    BoxedBehind(lines, 1, 1, 1 + n);
    NothingBeforeTheFirst(lines);
    assert OpensBlock(lines, 0);
    forall k: nat | 1 <= k <= n ensures InBlock(lines, k) {
      BoxedPart(lines, 1, k + 1, 1 + n);
    }
  }

  /** The events of a log are its lines taken one by one, and its blocks. */
  lemma {:induction false} SplitGivesTheEvents(lines: seq<Line>) returns (at: seq<nat>)
    ensures AreEvents(lines, Split(lines), at)
    decreases |lines|
  {
    if lines == [] {
      at := [];
    } else {
      var m := if lines[0].meaning.ErrorStart? then 1 + BoxedRun(lines[1..]) else 1;
      hide InBlock, OpensBlock, IsBoundary, IsEventAt, AreEvents, SplitBlock, BoxedRun;
      var behind := SplitGivesTheEvents(lines[m..]);
      match lines[0].meaning
      case Other =>
        at := Shifted(behind, 1);
        NothingFirst(lines, Split(lines[1..]), behind);
      case ErrorStart(message) =>
        at := [0] + Shifted(behind, m);
        BlockFirst(lines, m - 1, message, Split(lines[m..]), behind);
      case _ =>
        at := [0] + Shifted(behind, 1);
        ProgressFirst(lines, Split(lines[1..]), behind);
    }
  }

  lemma NothingFirst(lines: seq<Line>, events: seq<Event>, behind: seq<nat>)
    requires lines != [] && lines[0].meaning.Other? && AreEvents(lines[1..], events, behind)
    ensures AreEvents(lines, events, Shifted(behind, 1))
  {
    hide InBlock, IsBoundary, IsEventAt, Increase, BeginAt;
    NothingBeforeTheFirst(lines);
    EventsBehind(lines, 1, events, behind);
    ShiftedIncrease(behind, 1);
    forall i: nat | i < |lines| && !lines[i].meaning.Other? && !InBlock(lines, i) ensures i in Shifted(behind, 1) {
      AllEventsBehind(lines, 1, behind, i);
    }
  }

  lemma ProgressFirst(lines: seq<Line>, events: seq<Event>, behind: seq<nat>)
    requires lines != [] && !lines[0].meaning.Other? && !lines[0].meaning.ErrorStart?
    requires AreEvents(lines[1..], events, behind)
    ensures AreEvents(lines, [Progress(lines[0])] + events, [0] + Shifted(behind, 1))
  {
    NothingBeforeTheFirst(lines);
    assert IsEventAt(lines, 0, Progress(lines[0]));
    hide InBlock, IsBoundary, IsEventAt, AreEvents;
    FirstAndBehind(lines, 1, Progress(lines[0]), events, behind);
  }

  lemma BlockIsEvent(lines: seq<Line>, n: nat, message: string)
    requires n < |lines| && lines[0].meaning == ErrorStart(message)
    requires AreBoxed(lines, 1, 1 + n) && (1 + n < |lines| ==> !lines[1 + n].boxed)
    ensures IsEventAt(lines, 0, Failure(message, lines[1..1 + n]))
  {
    hide AreBoxed;
  }

  lemma BlockFirst(lines: seq<Line>, n: nat, message: string, events: seq<Event>, behind: seq<nat>)
    requires lines != [] && lines[0].meaning == ErrorStart(message) && n == BoxedRun(lines[1..])
    requires AreEvents(lines[1 + n..], events, behind) && events == Split(lines[1 + n..])
    ensures AreEvents(lines, Split(lines), [0] + Shifted(behind, 1 + n))
  {
    hide InBlock, IsBoundary, IsEventAt, AreEvents, Split, SplitBlock, BoxedRun, AreBoxed;
    BlockSplit(lines, message);
    NothingBeforeTheFirst(lines);
    BlocksEndThere(lines, n);
    BlockIsEvent(lines, n, message);
    FirstAndBehind(lines, 1 + n, Failure(message, lines[1..1 + n]), events, behind);
  }

  lemma BlockSplit(lines: seq<Line>, message: string)
    requires lines != [] && lines[0].meaning == ErrorStart(message)
    ensures var n := BoxedRun(lines[1..]);
            Split(lines) == [Failure(message, lines[1..1 + n])] + Split(lines[1 + n..])
  {
    var n := BoxedRun(lines[1..]);
    assert [] + lines[1..][..n] == lines[1..1 + n] && lines[1..][n..] == lines[1 + n..];
  }

  lemma FirstAndBehind(lines: seq<Line>, m: nat, e: Event, events: seq<Event>, behind: seq<nat>)
    requires 0 < m <= |lines| && IsEventAt(lines, 0, e) && !InBlock(lines, 0)
    requires IsBoundary(lines, m) && AreEvents(lines[m..], events, behind)
    requires forall i: nat :: 1 <= i < m ==> lines[i].meaning.Other? || InBlock(lines, i)
    ensures AreEvents(lines, [e] + events, [0] + Shifted(behind, m))
  {
    var at := Shifted(behind, m);
    EventsBehind(lines, m, events, behind);
    ShiftedIncrease(behind, m);
    ZeroInFront(at);
    FirstBegins(lines, e, events, at);
    hide InBlock, IsBoundary, IsEventAt, Increase, BeginAt;
    forall i: nat | i < |lines| && !lines[i].meaning.Other? && !InBlock(lines, i) ensures i in [0] + at {
      if i >= m {
        AllEventsBehind(lines, m, behind, i);
      }
    }
  }

  lemma FirstBegins(lines: seq<Line>, e: Event, events: seq<Event>, at: seq<nat>)
    requires lines != [] && IsEventAt(lines, 0, e) && !InBlock(lines, 0) && BeginAt(lines, events, at)
    ensures BeginAt(lines, [e] + events, [0] + at)
  {
    hide InBlock, IsEventAt;
  }
}
