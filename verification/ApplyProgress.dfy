/** Reading the console output of an apply: lines become events, and every resource's record follows its own events. */
module ApplyProgress {
  import opened Wrappers

  import opened ConsoleEvents
  import opened Indices

  datatype State = Pending | Running | Done | Error

  datatype ApplyResource = ApplyResource(address: string, action: Action, state: State,
      detail: Option<string>, log: seq<string>)

  datatype PlannedResource = PlannedResource(address: string, action: Action)

  predicate Matches(s: string, text: string, k: nat) { k + |text| <= |s| && s[k..k + |text|] == text }

  /** A name with a part `data` before a dot. */
  predicate IsDataSource(address: string) {
    exists k :: 0 <= k < |address| && Matches(address, "data.", k) && (k == 0 || address[k - 1] == '.')
  }

  // ---- One resource's record ----

  function FailedAddress(block: seq<Line>): Option<string> {
    if block == [] then None
    else if block[0].with.Some? then block[0].with
    else FailedAddress(block[1..])
  }

  predicate Names(e: Event, address: string) {
    match e
    case Failure(_, block) => FailedAddress(block) == Some(address)
    case Progress(line) =>
      match line.meaning
      case Started(a, _) => a == address && !IsDataSource(a)
      case Still(a, _) => a == address
      case Finished(a, _, _) => a == address && !IsDataSource(a)
      case _ => false
  }

  function EventsOf(address: string, events: seq<Event>): seq<Event> {
    if events == [] then []
    else
      var n := |events| - 1;
      EventsOf(address, events[..n]) + if Names(events[n], address) then [events[n]] else []
  }

  /** A resource's entry, if there is one, and the number of completions seen. */
  datatype Rec = Rec(resource: Option<ApplyResource>, completions: nat)

  function Texts(block: seq<Line>): seq<string> { seq(|block|, i requires 0 <= i < |block| => block[i].unboxed) }

  function BlockTexts(message: string, block: seq<Line>): seq<string> { ["Error: " + message] + Texts(block) }

  function Present(r: Rec, address: string, action: Action): ApplyResource {
    if r.resource.Some? then r.resource.value else ApplyResource(address, action, Running, None, [])
  }

  /** What an event naming a resource does to its record. */
  function After(r: Rec, e: Event, address: string): Rec {
    match e
    case Failure(message, block) =>
      var current := Present(r, address, Create);
      Rec(Some(current.(state := Error, detail := Some(message), log := current.log + BlockTexts(message, block))),
          r.completions)
    case Progress(line) =>
      match line.meaning
      case Started(_, action) =>
        var again := r.resource.Some? && (|| r.resource.value.action == Replace
                                          || (r.resource.value.state != Pending && r.resource.value.action != action));
        Rec(Some(ApplyResource(address, if again then Replace else action, Running, None,
                               (if r.resource.Some? then r.resource.value.log else []) + [line.text])), r.completions)
      case Still(_, elapsed) =>
        if r.resource.None? then r
        else
          var current := r.resource.value;
          Rec(Some(current.(detail := Some(elapsed + " elapsed"), log := current.log + [line.text])), r.completions)
      case Finished(_, action, duration) =>
        var current := Present(r, address, action);
        var midReplace := current.action == Replace && r.completions + 1 < 2;
        Rec(Some(current.(state := if midReplace then Running else Done,
                          detail := if midReplace then current.detail else Some("after " + duration),
                          log := current.log + [line.text])), r.completions + 1)
      case _ => r
  }

  /** A resource's record after its own events, starting from the plan. */
  function Replay(start: Rec, events: seq<Event>, address: string): Rec {
    if events == [] then start
    else After(Replay(start, events[..|events| - 1], address), events[|events| - 1], address)
  }

  function Seed(planned: seq<PlannedResource>, address: string): Rec {
    if planned == [] then Rec(None, 0)
    else
      var p := planned[|planned| - 1];
      if p.address == address then Rec(Some(ApplyResource(address, p.action, Pending, None, [])), 0)
      else Seed(planned[..|planned| - 1], address)
  }

  function RecordOf(planned: seq<PlannedResource>, events: seq<Event>, address: string): Rec {
    Replay(Seed(planned, address), EventsOf(address, events), address)
  }

  // ---- The order of the list ----

  function Creates(e: Event): Option<string> {
    match e
    case Failure(_, block) => FailedAddress(block)
    case Progress(line) =>
      match line.meaning
      case Started(a, _) => if IsDataSource(a) then None else Some(a)
      case Finished(a, _, _) => if IsDataSource(a) then None else Some(a)
      case _ => None
  }

  function Append(order: seq<string>, address: string): seq<string> {
    if address in order then order else order + [address]
  }

  function PlannedOrder(planned: seq<PlannedResource>): seq<string> {
    if planned == [] then [] else Append(PlannedOrder(planned[..|planned| - 1]), planned[|planned| - 1].address)
  }

  /** Planned resources in plan order, then the others in the order of their first appearance. */
  function Order(planned: seq<PlannedResource>, events: seq<Event>): seq<string> {
    if events == [] then PlannedOrder(planned)
    else
      var before, e := Order(planned, events[..|events| - 1]), events[|events| - 1];
      if Creates(e).Some? then Append(before, Creates(e).value) else before
  }

  function Messages(events: seq<Event>): seq<string> {
    if events == [] then []
    else
      var e := events[|events| - 1];
      Messages(events[..|events| - 1]) + if e.Failure? then [e.message] else []
  }

  // ---- The parser ----

  /** The map of resources with the order in which its keys were first set, and the completions counted. */
  datatype Board = Board(order: seq<string>, resources: map<string, ApplyResource>, halves: map<string, nat>)

  function RecOf(board: Board, address: string): Rec {
    Rec(if address in board.resources then Some(board.resources[address]) else None,
        if address in board.halves then board.halves[address] else 0)
  }

  function Put(board: Board, r: ApplyResource): Board {
    Board(Append(board.order, r.address), board.resources[r.address := r], board.halves)
  }

  ghost predicate Shows(board: Board, planned: seq<PlannedResource>, events: seq<Event>) {
    && board.order == Order(planned, events)
    && (forall a :: a in board.order <==> a in board.resources)
    && (forall a :: RecOf(board, a) == RecordOf(planned, events, a))
  }

  /** The board before and after one event. */
  ghost predicate Advances(board: Board, next: Board, e: Event) {
    && next.order == (if Creates(e).Some? then Append(board.order, Creates(e).value) else board.order)
    && ((forall a :: a in board.order <==> a in board.resources) ==>
        (forall a :: a in next.order <==> a in next.resources))
    && (forall a :: RecOf(next, a) == if Names(e, a) then After(RecOf(board, a), e, a) else RecOf(board, a))
  }

  // ---- The board, spelled out ----

  /** The address of a data source or of something in one's module. */
  ghost predicate IsOfData(address: string) {
    (|address| >= 5 && address[..5] == "data.") || exists k: nat :: StandsAt(address, ".data.", k)
  }

  predicate StandsAt(s: string, text: string, k: nat) { k + |text| <= |s| && s[k..k + |text|] == text }

  /** One entry is set; one that was not there goes to the end of the list. */
  predicate Sets(board: Board, next: Board, address: string) {
    && address in next.resources && next.resources == board.resources[address := next.resources[address]]
    && next.order == if address in board.order then board.order else board.order + [address]
  }

  /** A log to which an error and the lines of its block, without their frame, are added. */
  predicate IsLonger(log: seq<string>, before: seq<string>, message: string, block: seq<Line>) {
    && |log| == |before| + 1 + |block| && log[..|before|] == before && log[|before|] == "Error: " + message
    && forall j :: 0 <= j < |block| ==> log[|before| + 1 + j] == block[j].unboxed
  }

  /** A resource's entry is set to the error. */
  predicate Fails(board: Board, next: Board, address: string, message: string, block: seq<Line>) {
    && Sets(board, next, address) && next.halves == board.halves
    && var isNew, r := address !in board.resources, next.resources[address];
       && r.address == address && r.state == Error && r.detail == Some(message)
       && r.action == (if isNew then Create else board.resources[address].action)
       && IsLonger(r.log, if isNew then [] else board.resources[address].log, message, block)
  }

  /** The first line of a block that names a resource. */
  predicate IsFirstNamed(block: seq<Line>, k: nat) {
    k < |block| && block[k].with.Some? && forall j :: 0 <= j < k ==> block[j].with.None?
  }

  /** An event that gives a resource an entry if it has none. */
  ghost predicate BringsIn(e: Event, address: string) {
    match e
    case Failure(_, block) => exists k: nat :: IsFirstNamed(block, k) && block[k].with == Some(address)
    case Progress(line) =>
      && (line.meaning.Started? || line.meaning.Finished?)
      && line.meaning.address == address && !IsOfData(address)
  }

  /** An address stands in a list in front of another one. */
  ghost predicate ComesBefore(planned: seq<PlannedResource>, events: seq<Event>, a: string, b: string) {
    || (exists i ::
          0 <= i < |planned| && planned[i].address == a && forall j :: 0 <= j <= i ==> planned[j].address != b)
    || (&& (forall j :: 0 <= j < |planned| ==> planned[j].address != b)
        && exists i ::
             0 <= i < |events| && BringsIn(events[i], a) && forall j :: 0 <= j <= i ==> !BringsIn(events[j], b))
  }

  lemma DataIsOfData(address: string)
    ensures IsDataSource(address) <==> IsOfData(address)
  {
    if k :| 0 <= k < |address| && Matches(address, "data.", k) && (k == 0 || address[k - 1] == '.') {
      if k > 0 {
        assert address[k - 1..k + 5] == [address[k - 1]] + address[k..k + 5] == ".data.";
        assert StandsAt(address, ".data.", k - 1);
      }
    }
    if |address| >= 5 && address[..5] == "data." {
      assert Matches(address, "data.", 0);
    }
    if k: nat :| StandsAt(address, ".data.", k) {
      assert address[k] == address[k..k + 6][0] && address[k + 1..k + 6] == address[k..k + 6][1..] == "data.";
      assert Matches(address, "data.", k + 1);
    }
  }

  lemma {:induction false} FirstNamedFails(block: seq<Line>)
    ensures match FailedAddress(block)
            case None => forall k :: 0 <= k < |block| ==> block[k].with.None?
            case Some(a) => exists k: nat :: IsFirstNamed(block, k) && block[k].with == Some(a)
  {
    if block != [] && block[0].with.None? {
      FirstNamedFails(block[1..]);
      var rest := FailedAddress(block[1..]);
      if rest.Some? {
        var k: nat :| IsFirstNamed(block[1..], k) && block[1..][k].with == rest;
        forall j | 0 <= j < k + 1 ensures block[j].with.None? {
          assert j > 0 ==> block[1..][j - 1] == block[j];
        }
        assert IsFirstNamed(block, k + 1);
      } else {
        forall k | 0 <= k < |block| ensures block[k].with.None? {
          assert k > 0 ==> block[1..][k - 1] == block[k];
        }
      }
    } else if block != [] {
      assert IsFirstNamed(block, 0);
    }
  }

  lemma NewEntries(e: Event, address: string)
    ensures Creates(e) == Some(address) <==> BringsIn(e, address)
    ensures Names(e, address) <==> BringsIn(e, address) || (IsStill(e) && e.line.meaning.address == address)
  {
    DataIsOfData(address);
    if e.Failure? {
      FirstNamedFails(e.block);
    }
    hide IsDataSource, IsOfData, FailedAddress;
  }

  lemma InAppended(order: seq<string>, address: string)
    ensures forall a :: a in Append(order, address) <==> a in order || a == address
  {
  }

  lemma {:induction false} PlannedAreListed(planned: seq<PlannedResource>, a: string)
    ensures a in PlannedOrder(planned) <==> exists i :: 0 <= i < |planned| && planned[i].address == a
  {
    hide Append;
    if planned != [] {
      var n := |planned| - 1;
      PlannedAreListed(planned[..n], a);
      InAppended(PlannedOrder(planned[..n]), planned[n].address);
      assert forall i :: 0 <= i < n ==> planned[..n][i] == planned[i];
    }
  }

  /** Everything planned is listed, and whatever an event brings in. */
  lemma {:induction false} AllAreListed(planned: seq<PlannedResource>, events: seq<Event>, a: string)
    ensures a in Order(planned, events)
            <==> (exists i :: 0 <= i < |planned| && planned[i].address == a)
                 || exists i :: 0 <= i < |events| && BringsIn(events[i], a)
  {
    hide Append, BringsIn, Creates;
    if events == [] {
      PlannedAreListed(planned, a);
    } else {
      var n := |events| - 1;
      AllAreListed(planned, events[..n], a);
      NewEntries(events[n], a);
      if Creates(events[n]).Some? {
        InAppended(Order(planned, events[..n]), Creates(events[n]).value);
      }
      assert forall i :: 0 <= i < n ==> events[..n][i] == events[i];
    }
  }

  ghost predicate IsInOrder(order: seq<string>, planned: seq<PlannedResource>, events: seq<Event>) {
    forall i, j :: 0 <= i < j < |order| ==> ComesBefore(planned, events, order[i], order[j])
  }

  lemma {:induction false} PlannedInOrder(planned: seq<PlannedResource>)
    ensures IsInOrder(PlannedOrder(planned), planned, [])
  {
    hide Append, ComesBefore;
    if planned != [] {
      var n := |planned| - 1;
      var order := PlannedOrder(planned[..n]);
      PlannedInOrder(planned[..n]);
      AppendedAtTheEnd(order);
      var more := PlannedOrder(planned);
      forall i, j | 0 <= i < j < |more| ensures ComesBefore(planned, [], more[i], more[j]) {
        if j < |order| {
          PlannedOrderStays(planned, order[i], order[j]);
        } else {
          NewPlannedComeLast(planned, more[i], more[j]);
        }
      }
    }
  }

  lemma PlannedOrderStays(planned: seq<PlannedResource>, a: string, b: string)
    requires planned != [] && ComesBefore(planned[..|planned| - 1], [], a, b)
    ensures ComesBefore(planned, [], a, b)
  {
    var n := |planned| - 1;
    var i :| 0 <= i < n && planned[..n][i].address == a && forall j :: 0 <= j <= i ==> planned[..n][j].address != b;
    assert planned[i].address == a;
    forall j | 0 <= j <= i ensures planned[j].address != b {
      assert planned[..n][j].address != b;
    }
  }

  lemma NewPlannedComeLast(planned: seq<PlannedResource>, a: string, b: string)
    requires planned != []
    requires a in PlannedOrder(planned[..|planned| - 1]) && b !in PlannedOrder(planned[..|planned| - 1])
    ensures ComesBefore(planned, [], a, b)
  {
    var n := |planned| - 1;
    PlannedAreListed(planned[..n], a);
    PlannedAreListed(planned[..n], b);
    hide PlannedOrder;
    var i :| 0 <= i < n && planned[..n][i].address == a;
    assert planned[i].address == a;
    forall j | 0 <= j <= i ensures planned[j].address != b {
      assert planned[..n][j].address != b;
    }
  }

  lemma OrderStays(planned: seq<PlannedResource>, events: seq<Event>, a: string, b: string)
    requires events != [] && ComesBefore(planned, events[..|events| - 1], a, b)
    ensures ComesBefore(planned, events, a, b)
  {
    hide BringsIn;
    var n := |events| - 1;
    assert forall i :: 0 <= i < n ==> events[..n][i] == events[i];
  }

  lemma NewOnesComeLast(planned: seq<PlannedResource>, events: seq<Event>, a: string, b: string)
    requires events != [] && a in Order(planned, events[..|events| - 1]) && b !in Order(planned, events[..|events| - 1])
    ensures ComesBefore(planned, events, a, b)
  {
    var n := |events| - 1;
    AllAreListed(planned, events[..n], a);
    AllAreListed(planned, events[..n], b);
    hide BringsIn, Order;
    assert forall i :: 0 <= i < n ==> events[..n][i] == events[i];
    if i :| 0 <= i < |planned| && planned[i].address == a {
    } else {
      var i :| 0 <= i < n && BringsIn(events[i], a);
      assert forall j :: 0 <= j < n ==> !BringsIn(events[..n][j], b);
    }
  }

  /** Planned resources come in plan order, then the others in the order in which they first appear. */
  lemma {:induction false} ListedInOrder(planned: seq<PlannedResource>, events: seq<Event>)
    ensures IsInOrder(Order(planned, events), planned, events)
  {
    hide Append, ComesBefore, Creates;
    if events == [] {
      PlannedInOrder(planned);
    } else {
      var n := |events| - 1;
      var order := Order(planned, events[..n]);
      ListedInOrder(planned, events[..n]);
      AppendedAtTheEnd(order);
      var more := Order(planned, events);
      forall i, j | 0 <= i < j < |more| ensures ComesBefore(planned, events, more[i], more[j]) {
        if j < |order| {
          OrderStays(planned, events, order[i], order[j]);
        } else {
          NewOnesComeLast(planned, events, more[i], more[j]);
        }
      }
    }
  }

  lemma AppendedAtTheEnd(order: seq<string>)
    ensures forall a :: Append(order, a) == order || (Append(order, a) == order + [a] && a !in order)
  {
  }

  lemma ShowsOneMore(board: Board, next: Board, planned: seq<PlannedResource>, events: seq<Event>, e: Event)
    requires Shows(board, planned, events) && Advances(board, next, e)
    ensures Shows(next, planned, events + [e])
  {
    hide After, Names, Creates, RecOf, Seed;
    var more := events + [e];
    assert more[..|more| - 1] == events;
    forall a ensures RecOf(next, a) == RecordOf(planned, more, a) {
      var mine := EventsOf(a, events);
      assert mine + [] == mine;
      assert (mine + [e])[..|mine|] == mine;
    }
  }

  /** A planned resource starts as what the last plan line for it says, and any other without an entry. */
  lemma {:induction false} SeedsAreTheLastPlanned(planned: seq<PlannedResource>, i: nat)
    requires i < |planned| && forall j :: i < j < |planned| ==> planned[j].address != planned[i].address
    ensures Seed(planned, planned[i].address)
            == Rec(Some(ApplyResource(planned[i].address, planned[i].action, Pending, None, [])), 0)
  {
    var n := |planned| - 1;
    if i < n {
      SeedsAreTheLastPlanned(planned[..n], i);
    }
  }

  lemma {:induction false} OthersHaveNoSeed(planned: seq<PlannedResource>, address: string)
    requires forall i :: 0 <= i < |planned| ==> planned[i].address != address
    ensures Seed(planned, address) == Rec(None, 0)
  {
    if planned != [] {
      OthersHaveNoSeed(planned[..|planned| - 1], address);
    }
  }

  method SeedBoard(planned: seq<PlannedResource>) returns (board: Board)
    ensures Shows(board, planned, [])
  {
    board := Board([], map[], map[]);
    for i := 0 to |planned|
      invariant board.order == PlannedOrder(planned[..i]) && board.halves == map[]
      invariant forall a :: a in board.order <==> a in board.resources
      invariant forall a :: RecOf(board, a) == Seed(planned[..i], a)
    {
      assert planned[..i + 1][..i] == planned[..i];
      var p := planned[i];
      board := Put(board, ApplyResource(p.address, p.action, Pending, None, []));
    }
    assert planned[..|planned|] == planned;
  }

  method OnStarted(board: Board, line: Line) returns (next: Board)
    requires line.meaning.Started?
    ensures Advances(board, next, Progress(line))
    ensures var address, verb := line.meaning.address, line.meaning.verb;
            if IsOfData(address) then next == board
            else
              && Sets(board, next, address) && next.halves == board.halves
              && if address !in board.resources then
                   next.resources[address] == ApplyResource(address, verb, Running, None, [line.text])
                 else
                   var was := board.resources[address];
                   var again := was.action == Replace || (was.state != Pending && was.action != verb);
                   next.resources[address]
                   == ApplyResource(address, if again then Replace else verb, Running, None, was.log + [line.text])
  {
    DataIsOfData(line.meaning.address);
    hide IsDataSource;
    var address, action := line.meaning.address, line.meaning.verb;
    if IsDataSource(address) {
      return board;
    }
    var merged, log := action, [];
    if address in board.resources {
      var previous := board.resources[address];
      log := previous.log;
      if previous.action == Replace || (previous.state != Pending && previous.action != action) {
        merged := Replace;
      }
    }
    next := Put(board, ApplyResource(address, merged, Running, None, log + [line.text]));
  }

  method OnStill(board: Board, line: Line) returns (next: Board)
    requires line.meaning.Still?
    ensures Advances(board, next, Progress(line))
    ensures var address := line.meaning.address;
            if address !in board.resources then next == board
            else
              && next.order == board.order && next.halves == board.halves && address in next.resources
              && next.resources == board.resources[address := next.resources[address]]
              && var was := board.resources[address];
                 next.resources[address]
                 == ApplyResource(was.address, was.action, was.state, Some(line.meaning.elapsed + " elapsed"),
                                  was.log + [line.text])
  {
    var address := line.meaning.address;
    next := board;
    if address in board.resources {
      var current := board.resources[address];
      next := board.(resources := board.resources[address := current.(
        detail := Some(line.meaning.elapsed + " elapsed"), log := current.log + [line.text])]);
    }
  }

  method OnFinished(board: Board, line: Line) returns (next: Board)
    requires line.meaning.Finished?
    requires forall a :: a in board.order <==> a in board.resources
    requires forall a :: a in board.resources ==> board.resources[a].address == a
    ensures Advances(board, next, Progress(line))
    ensures var address := line.meaning.address;
            if IsOfData(address) then next == board
            else
              && Sets(board, next, address) && address in next.halves
              && next.halves == board.halves[address := next.halves[address]]
              && next.halves[address] == (if address in board.halves then board.halves[address] else 0) + 1
              && var isNew := address !in board.resources;
                 var action := if isNew then line.meaning.verb else board.resources[address].action;
                 var half := action == Replace && next.halves[address] == 1;
                 next.resources[address]
                 == ApplyResource(address, action, if half then Running else Done,
                                  if !half then Some("after " + line.meaning.duration)
                                  else if isNew then None else board.resources[address].detail,
                                  (if isNew then [] else board.resources[address].log) + [line.text])
  {
    DataIsOfData(line.meaning.address);
    hide IsDataSource;
    var address := line.meaning.address;
    if IsDataSource(address) {
      return board;
    }
    var current := ApplyResource(address, line.meaning.verb, Running, None, []);
    if address in board.resources {
      current := board.resources[address];
    }
    var completions := (if address in board.halves then board.halves[address] else 0) + 1;
    var midReplace := current.action == Replace && completions < 2;
    next := Put(board.(halves := board.halves[address := completions]),
                current.(state := if midReplace then Running else Done,
                         detail := if midReplace then current.detail else Some("after " + line.meaning.duration),
                         log := current.log + [line.text]));
  }

  lemma OneIsFirst(block: seq<Line>, k: nat)
    requires k < |block| && block[k].with.Some? && forall j :: 0 <= j < k ==> block[j].with.None?
    ensures forall j: nat :: IsFirstNamed(block, j) <==> j == k
    ensures FailedAddress(block[k..]) == block[k].with
  {
  }

  lemma LongerByTheBlock(before: seq<string>, message: string, block: seq<Line>)
    ensures IsLonger(before + BlockTexts(message, block), before, message, block)
  {
  }

  lemma ErrorIsSet(board: Board, next: Board, current: ApplyResource, message: string, block: seq<Line>)
    requires if current.address in board.resources then current == board.resources[current.address]
             else current == ApplyResource(current.address, Create, Running, None, [])
    requires next == Put(board, current.(state := Error, detail := Some(message),
                                         log := current.log + BlockTexts(message, block)))
    ensures Fails(board, next, current.address, message, block)
  {
    LongerByTheBlock(current.log, message, block);
    hide IsLonger, BlockTexts;
  }

  method CloseErrorBlock(board: Board, message: string, block: seq<Line>) returns (next: Board)
    requires forall a :: a in board.resources ==> board.resources[a].address == a
    ensures Advances(board, next, Failure(message, block))
    ensures (forall k :: 0 <= k < |block| ==> block[k].with.None?) ==> next == board
    ensures forall k: nat :: IsFirstNamed(block, k) ==> Fails(board, next, block[k].with.value, message, block)
  {
    hide Fails;
    var k := 0;
    while k < |block| && block[k].with.None?
      invariant k <= |block|
      invariant FailedAddress(block[k..]) == FailedAddress(block)
      invariant forall j :: 0 <= j < k ==> block[j].with.None?
    {
      assert block[k..][1..] == block[k + 1..];
      k := k + 1;
    }
    if k == |block| {
      return board;
    }
    OneIsFirst(block, k);
    hide IsFirstNamed, IsLonger, BlockTexts, FailedAddress;
    var address := block[k].with.value;
    var current := ApplyResource(address, Create, Running, None, []);
    if address in board.resources {
      current := board.resources[address];
    }
    next := Put(board, current.(state := Error, detail := Some(message),
                                log := current.log + BlockTexts(message, block)));
    ErrorIsSet(board, next, current, message, block);
  }

  lemma {:induction false} RecordsKeepTheirAddress(start: Rec, events: seq<Event>, address: string)
    requires start.resource.Some? ==> start.resource.value.address == address
    ensures var r := Replay(start, events, address).resource; r.Some? ==> r.value.address == address
  {
    if events != [] {
      RecordsKeepTheirAddress(start, events[..|events| - 1], address);
    }
  }

  lemma {:induction false} SeedsKeepTheirAddress(planned: seq<PlannedResource>, address: string)
    ensures var r := Seed(planned, address).resource; r.Some? ==> r.value.address == address
  {
    if planned != [] {
      SeedsKeepTheirAddress(planned[..|planned| - 1], address);
    }
  }

  lemma BoardsKeepTheirAddresses(board: Board, planned: seq<PlannedResource>, events: seq<Event>)
    requires Shows(board, planned, events)
    ensures forall a :: a in board.resources ==> board.resources[a].address == a
  {
    hide Replay, Seed, EventsOf, Order;
    forall a | a in board.resources ensures board.resources[a].address == a {
      SeedsKeepTheirAddress(planned, a);
      RecordsKeepTheirAddress(Seed(planned, a), EventsOf(a, events), a);
      assert RecOf(board, a) == RecordOf(planned, events, a);
    }
  }

  /** The messages are those of the failures `at`, in order: of all of them. */
  ghost predicate AreMessages(errors: seq<string>, events: seq<Event>, at: seq<nat>) {
    SayThere(errors, events, at) && Increase(at) && AreAllFailures(events, at)
  }

  predicate SayThere(errors: seq<string>, events: seq<Event>, at: seq<nat>) {
    && |at| == |errors|
    && forall k :: 0 <= k < |at| ==>
         at[k] < |events| && events[at[k]].Failure? && events[at[k]].message == errors[k]
  }

  predicate AreAllFailures(events: seq<Event>, at: seq<nat>) {
    forall i: nat :: i < |events| && events[i].Failure? ==> i in at
  }

  lemma {:induction false} MessagesAreMessages(events: seq<Event>) returns (at: seq<nat>)
    ensures AreMessages(Messages(events), events, at)
  {
    at := [];
    if events != [] {
      hide SayThere, Increase, AreAllFailures;
      var n := |events| - 1;
      at := MessagesAreMessages(events[..n]);
      StillSaid(events, at);
      if events[n].Failure? {
        MessageBehind(events, at);
        at := at + [n];
      } else {
        AllFailuresStay(events, at);
        assert Messages(events[..n]) + [] == Messages(events[..n]);
      }
    }
  }

  lemma StillSaid(events: seq<Event>, at: seq<nat>)
    requires events != [] && SayThere(Messages(events[..|events| - 1]), events[..|events| - 1], at)
    ensures SayThere(Messages(events[..|events| - 1]), events, at)
    ensures forall k :: 0 <= k < |at| ==> at[k] < |events| - 1
  {
    hide Messages;
  }

  lemma MessageBehind(events: seq<Event>, at: seq<nat>)
    requires events != [] && events[|events| - 1].Failure? && Increase(at)
    requires SayThere(Messages(events[..|events| - 1]), events, at) && AreAllFailures(events[..|events| - 1], at)
    requires forall k :: 0 <= k < |at| ==> at[k] < |events| - 1
    ensures AreMessages(Messages(events), events, at + [|events| - 1])
  {
    var n := |events| - 1;
    assert Messages(events) == Messages(events[..n]) + [events[n].message];
    hide Messages, Increase, SayThere, AreAllFailures;
    OneMoreBehind(at, n);
    SaidBehind(Messages(events[..n]), events, at);
    FailuresBehind(events, at);
  }

  lemma SaidBehind(errors: seq<string>, events: seq<Event>, at: seq<nat>)
    requires events != [] && events[|events| - 1].Failure? && SayThere(errors, events, at)
    ensures SayThere(errors + [events[|events| - 1].message], events, at + [|events| - 1])
  {
  }

  lemma FailuresBehind(events: seq<Event>, at: seq<nat>)
    requires events != [] && AreAllFailures(events[..|events| - 1], at)
    ensures AreAllFailures(events, at + [|events| - 1])
  {
    var n := |events| - 1;
    forall i: nat | i < |events| && events[i].Failure? ensures i in at + [n] {
      assert i < n ==> events[..n][i] == events[i];
    }
  }

  lemma AllFailuresStay(events: seq<Event>, at: seq<nat>)
    requires events != [] && !events[|events| - 1].Failure? && AreAllFailures(events[..|events| - 1], at)
    ensures AreAllFailures(events, at)
  {
    var n := |events| - 1;
    forall i: nat | i < |events| && events[i].Failure? ensures i in at {
      assert events[..n][i] == events[i];
    }
  }

  lemma MessagesGrow(events: seq<Event>, e: Event)
    ensures Messages(events + [e]) == Messages(events) + if e.Failure? then [e.message] else []
  {
    assert (events + [e])[..|events|] == events;
  }

  lemma OneEventMore(done: seq<Event>, e: Event, rest: seq<Event>)
    ensures done + ([e] + rest) == (done + [e]) + rest
  {
  }

  method Step(board: Board, line: Line) returns (next: Board)
    requires line.meaning.Started? || line.meaning.Still? || line.meaning.Finished?
    requires forall a :: a in board.order <==> a in board.resources
    requires forall a :: a in board.resources ==> board.resources[a].address == a
    ensures Advances(board, next, Progress(line))
  {
    hide Advances;
    match line.meaning {
      case Started(_, _) => next := OnStarted(board, line);
      case Still(_, _) => next := OnStill(board, line);
      case Finished(_, _, _) => next := OnFinished(board, line);
    }
  }

  method ValuesOf(board: Board) returns (resources: seq<ApplyResource>)
    requires forall a :: a in board.order <==> a in board.resources
    ensures |resources| == |board.order|
    ensures forall i :: 0 <= i < |resources| ==> RecOf(board, board.order[i]).resource == Some(resources[i])
  {
    resources := [];
    for i := 0 to |board.order|
      invariant |resources| == i
      invariant forall k :: 0 <= k < i ==> RecOf(board, board.order[k]).resource == Some(resources[k])
    {
      resources := resources + [board.resources[board.order[i]]];
    }
  }

  /** Every resource's entry is its own replay, the list is in order, and the errors are the blocks' messages. */
  method ParseApplyProgress(log: Option<seq<Line>>, planned: seq<PlannedResource>)
    returns (resources: seq<ApplyResource>, errors: seq<string>)
    ensures var events := Split(if log.Some? then log.value else []);
            var order := Order(planned, events);
            && |resources| == |order|
            && (forall i :: 0 <= i < |order| ==> Some(resources[i]) == RecordOf(planned, events, order[i]).resource)
            && (forall a :: RecordOf(planned, events, a).resource.Some? <==> a in order)
            && errors == Messages(events)
            && IsInOrder(order, planned, events)
            && exists at :: AreMessages(errors, events, at)
    ensures log.Some? ==> exists at :: AreEvents(log.value, Split(log.value), at)
    ensures log.None? ==> Split([]) == []
  {
    hide RecordOf, Order, Split, SplitBlock, Advances, IsInOrder, AreEvents, AreMessages;
    var board := SeedBoard(planned);
    errors := [];
    ghost var done: seq<Event> := [];
    if log.Some? {
      var lines := log.value;
      board, errors, done := ReadLines(board, lines, planned);
    } else {
      assert Split([]) == [] by { NothingSplit(); }
    }
    resources := ValuesOf(board);
    ListedInOrder(planned, done);
    ghost var at := MessagesAreMessages(done);
    NothingSplit();
    if log.Some? {
      at := SplitGivesTheEvents(log.value);
    }
    assert forall a :: RecOf(board, a) == RecordOf(planned, done, a);
  }

  method ReadLines(start: Board, lines: seq<Line>, ghost planned: seq<PlannedResource>)
    returns (board: Board, errors: seq<string>, ghost done: seq<Event>)
    requires Shows(start, planned, [])
    ensures done == Split(lines) && Shows(board, planned, done) && errors == Messages(done)
  {
    hide RecordOf, Order, SplitBlock, Advances, Messages;
    board, errors, done := start, [], [];
    MessagesOfNothing();
    var errorBlock: Option<seq<Line>> := None;
    var pendingError := "";
    assert lines[0..] == lines;
    for i := 0 to |lines|
      invariant Shows(board, planned, done)
      invariant errors == Messages(done) + if errorBlock.Some? then [pendingError] else []
      invariant Split(lines) == done +
                (if errorBlock.Some? then SplitBlock(pendingError, errorBlock.value, lines[i..]) else Split(lines[i..]))
    {
      var line := lines[i];
      ghost var rest := lines[i..];
      assert rest[0] == line && rest[1..] == lines[i + 1..];
      if errorBlock.Some? {
        BlockGoesOn(pendingError, errorBlock.value, rest);
        if line.boxed {
          errorBlock := Some(errorBlock.value + [line]);
          continue;
        }
        board, done := EndBlock(board, pendingError, errorBlock.value, planned, done, Split(rest));
        errorBlock := None;
      }
      if line.meaning.ErrorStart? {
        pendingError := line.meaning.message;
        errors := errors + [pendingError];
        errorBlock := Some([]);
      } else if !line.meaning.Other? {
        BoardsKeepTheirAddresses(board, planned, done);
        var next := Step(board, line);
        ShowsOneMore(board, next, planned, done, Progress(line));
        MessagesGrow(done, Progress(line));
        OneEventMore(done, Progress(line), Split(rest[1..]));
        board, done := next, done + [Progress(line)];
      }
    }
    assert lines[|lines|..] == [];
    if errorBlock.Some? {
      BlockGoesOn(pendingError, errorBlock.value, []);
      board, done := EndBlock(board, pendingError, errorBlock.value, planned, done, []);
    }
  }

  /** Closing the open block, with its place in the events. */
  method EndBlock(board: Board, message: string, block: seq<Line>, ghost planned: seq<PlannedResource>,
                  ghost done: seq<Event>, ghost rest: seq<Event>)
    returns (next: Board, ghost now: seq<Event>)
    requires Shows(board, planned, done)
    ensures now == done + [Failure(message, block)] && Shows(next, planned, now)
    ensures Messages(now) == Messages(done) + [message]
    ensures done + ([Failure(message, block)] + rest) == now + rest
  {
    hide Shows, Advances, Messages;
    BoardsKeepTheirAddresses(board, planned, done);
    next := CloseErrorBlock(board, message, block);
    ShowsOneMore(board, next, planned, done, Failure(message, block));
    MessagesGrow(done, Failure(message, block));
    OneEventMore(done, Failure(message, block), rest);
    now := done + [Failure(message, block)];
  }

  lemma MessagesOfNothing()
    ensures Messages([]) == []
  {
  }

  // ---- Parallel resources ----

  /** `es` is `x` and `y` put together, each in its own order. */
  predicate IsInterleaving(es: seq<Event>, x: seq<Event>, y: seq<Event>)
    decreases |es|
  {
    if es == [] then x == [] && y == []
    else
      var n := |es| - 1;
      || (x != [] && x[|x| - 1] == es[n] && IsInterleaving(es[..n], x[..|x| - 1], y))
      || (y != [] && y[|y| - 1] == es[n] && IsInterleaving(es[..n], x, y[..|y| - 1]))
  }

  lemma {:induction false} InterleavingsKeepEvents(address: string, es: seq<Event>, x: seq<Event>, y: seq<Event>)
    requires IsInterleaving(es, x, y)
    requires forall i :: 0 <= i < |y| ==> !Names(y[i], address)
    ensures EventsOf(address, es) == EventsOf(address, x)
    decreases |es|
  {
    hide Names;
    if es != [] {
      var n := |es| - 1;
      if x != [] && x[|x| - 1] == es[n] && IsInterleaving(es[..n], x[..|x| - 1], y) {
        InterleavingsKeepEvents(address, es[..n], x[..|x| - 1], y);
      } else {
        InterleavingsKeepEvents(address, es[..n], x, y[..|y| - 1]);
        assert !Names(y[|y| - 1], address);
      }
    }
  }

  /** However the output of other resources falls between a resource's own events, its record is the same. */
  lemma ParallelResourcesDoNotMix(planned: seq<PlannedResource>, log: seq<Line>, own: seq<Line>, others: seq<Line>,
      address: string)
    requires IsInterleaving(Split(log), Split(own), Split(others))
    requires forall i :: 0 <= i < |Split(others)| ==> !Names(Split(others)[i], address)
    ensures RecordOf(planned, Split(log), address) == RecordOf(planned, Split(own), address)
  {
    InterleavingsKeepEvents(address, Split(log), Split(own), Split(others));
  }

  // ---- What decides a resource's state ----

  predicate IsStill(e: Event) { e.Progress? && e.line.meaning.Still? }

  predicate IsFinish(e: Event) { e.Progress? && e.line.meaning.Finished? }

  predicate IsStart(e: Event) { e.Progress? && e.line.meaning.Started? }

  function LastDecisive(events: seq<Event>): Option<Event> {
    if events == [] then None
    else
      var n := |events| - 1;
      if IsStill(events[n]) then LastDecisive(events[..n]) else Some(events[n])
  }

  function Finishes(events: seq<Event>): nat {
    if events == [] then 0
    else Finishes(events[..|events| - 1]) + if IsFinish(events[|events| - 1]) then 1 else 0
  }

  predicate OnlyNaming(address: string, events: seq<Event>) {
    forall i :: 0 <= i < |events| ==> Names(events[i], address)
  }

  lemma {:induction false} EventsOfOnlyName(address: string, events: seq<Event>)
    ensures OnlyNaming(address, EventsOf(address, events))
  {
    if events != [] {
      EventsOfOnlyName(address, events[..|events| - 1]);
    }
  }

  /** The lines of a resource's own events that are kept: a progress report before there is an entry goes nowhere. */
  function OwnLines(seeded: bool, events: seq<Event>): seq<string> {
    if events == [] then []
    else
      var n := |events| - 1;
      OwnLines(seeded, events[..n])
      + match events[n]
        case Failure(message, block) => BlockTexts(message, block)
        case Progress(line) =>
          if IsStill(events[n]) && !seeded && LastDecisive(events[..n]).None? then [] else [line.text]
  }

  /** A resource's state, completions and lines, read off its events: the last start, completion or failure decides. */
  ghost predicate IsDecided(seed: Rec, events: seq<Event>, address: string) {
    var r := Replay(seed, events, address);
    var last := LastDecisive(events);
    && r.completions == seed.completions + Finishes(events)
    && (r.resource.Some? <==> seed.resource.Some? || last.Some?)
    && (r.resource.None? ==> OwnLines(false, events) == [])
    && (r.resource.Some? ==>
          && r.resource.value.log ==
              (if seed.resource.Some? then seed.resource.value.log else []) + OwnLines(seed.resource.Some?, events)
          && r.resource.value.state ==
             if last.None? then seed.resource.value.state
             else if last.value.Failure? then Error
             else if IsStart(last.value) then Running
             else if r.resource.value.action == Replace && r.completions < 2 then Running
             else Done)
  }

  lemma {:induction false} TheLastEventDecides(seed: Rec, events: seq<Event>, address: string)
    requires OnlyNaming(address, events)
    ensures IsDecided(seed, events, address)
  {
    if events == [] {
    } else {
      var n := |events| - 1;
      TheLastEventDecides(seed, events[..n], address);
      OneMoreDecides(seed, events, address);
    }
  }

  lemma OneMoreDecides(seed: Rec, events: seq<Event>, address: string)
    requires events != [] && OnlyNaming(address, events) && IsDecided(seed, events[..|events| - 1], address)
    ensures IsDecided(seed, events, address)
  {
    hide IsDataSource, FailedAddress, BlockTexts;
    var n := |events| - 1;
    var r := Replay(seed, events[..n], address);
    var log := if seed.resource.Some? then seed.resource.value.log else [];
    assert Names(events[n], address);
    assert forall more: seq<string> ::
      (log + OwnLines(seed.resource.Some?, events[..n])) + more ==
          log + (OwnLines(seed.resource.Some?, events[..n]) + more);
  }

  lemma {:induction false} PlannedReplaceStays(seed: Rec, events: seq<Event>, address: string)
    requires seed.resource.Some? && seed.resource.value.action == Replace
    ensures var r := Replay(seed, events, address).resource; r.Some? && r.value.action == Replace
  {
    if events != [] {
      PlannedReplaceStays(seed, events[..|events| - 1], address);
    }
  }

  /** A planned replace is done exactly if its last start, completion or failure is a completion, and not the first. */
  lemma ReplaceNeedsBothHalves(planned: seq<PlannedResource>, log: seq<Line>, address: string)
    requires Seed(planned, address).resource.Some? && Seed(planned, address).resource.value.action == Replace
    ensures var own := EventsOf(address, Split(log));
            var r := RecordOf(planned, Split(log), address).resource;
            && r.Some?
            && (r.value.state == Done <==>
                  LastDecisive(own).Some? && IsFinish(LastDecisive(own).value) && Finishes(own) >= 2)
  {
    hide Split;
    var own := EventsOf(address, Split(log));
    EventsOfOnlyName(address, Split(log));
    SeedsArePending(planned, address);
    TheLastEventDecides(Seed(planned, address), own, address);
    PlannedReplaceStays(Seed(planned, address), own, address);
    LastNames(address, own);
  }

  lemma {:induction false} SeedsArePending(planned: seq<PlannedResource>, address: string)
    ensures var s := Seed(planned, address);
            s.completions == 0 && (s.resource.Some? ==> s.resource.value.state == Pending && s.resource.value.log == [])
  {
    if planned != [] {
      SeedsArePending(planned[..|planned| - 1], address);
    }
  }

  lemma {:induction false} LastNames(address: string, events: seq<Event>)
    requires OnlyNaming(address, events)
    ensures var last := LastDecisive(events);
            last.Some? ==> last.value.Failure? || IsStart(last.value) || IsFinish(last.value)
  {
    if events != [] {
      assert Names(events[|events| - 1], address);
      LastNames(address, events[..|events| - 1]);
    }
  }

  /** Every console line of a planned resource's events is in its log, in order, and no others are. */
  lemma PlannedResourcesKeepTheirLines(planned: seq<PlannedResource>, log: seq<Line>, address: string)
    requires Seed(planned, address).resource.Some?
    ensures var r := RecordOf(planned, Split(log), address).resource;
            r.Some? && r.value.log == OwnLines(true, EventsOf(address, Split(log)))
  {
    hide Replay, Seed, Split, EventsOf, OwnLines;
    EventsOfOnlyName(address, Split(log));
    SeedsArePending(planned, address);
    TheLastEventDecides(Seed(planned, address), EventsOf(address, Split(log)), address);
    var lines := OwnLines(true, EventsOf(address, Split(log)));
    assert [] + lines == lines;
  }
}
