/** The rows of a structured plan's diff, proved to list or count every leaf position once. */
module PlanDiff {
  import opened Wrappers

  import opened Indices
  import opened Ints
  import opened PlanPaths
  import opened PlanTree

  datatype DiffRow =
    Leaf(key: string, title: string, kind: Kind, before: Val, after: Val)
  | Group(key: string, title: string, children: seq<DiffRow>, hiddenCount: nat)

  function CountVisibleLeaves(rows: seq<DiffRow>): nat {
    if rows == [] then 0
    else
      var row := rows[|rows| - 1];
      CountVisibleLeaves(rows[..|rows| - 1])
      + if row.Leaf? || row.children == [] then 1 else CountVisibleLeaves(row.children)
  }

  /** The leaf rows in the order in which they are drawn. */
  function Flatten(rows: seq<DiffRow>): seq<DiffRow> {
    if rows == [] then []
    else
      var row := rows[|rows| - 1];
      Flatten(rows[..|rows| - 1]) + if row.Leaf? then [row] else Flatten(row.children)
  }

  predicate NoEmptyGroups(rows: seq<DiffRow>) {
    forall i :: 0 <= i < |rows| && rows[i].Group? ==> rows[i].children != [] && NoEmptyGroups(rows[i].children)
  }

  /** The leaf rows there ought to be: one for each position that is shown. */
  function Shown(spots: seq<Spot>): seq<DiffRow> {
    if spots == [] then []
    else
      var s := spots[|spots| - 1];
      Shown(spots[..|spots| - 1])
      + if IsShown(s.node) then [Leaf(s.title, s.title, KindOf(s.node), s.node.before, s.node.after)] else []
  }

  /** The number of positions that are not shown. */
  function HiddenIn(spots: seq<Spot>): nat {
    if spots == [] then 0
    else HiddenIn(spots[..|spots| - 1]) + if IsShown(spots[|spots| - 1].node) then 0 else 1
  }

  function ItemTitle(before: Val, after: Val, index: nat): string {
    var candidate := if IsObj(after) then after else before;
    if IsObj(candidate) && NamingKey(Fields(candidate), IDENTITY_KEYS).Some? then
      ItemLabel(index) + " " + TextUnder(Fields(candidate), NamingKey(Fields(candidate), IDENTITY_KEYS).value)
    else ItemLabel(index)
  }

  /** The key and the title of the group that holds what lies below a step. */
  function GroupKey(step: Step, k: nat): string {
    match step
    case AtKey(name) => name
    case AtIdentity(id) => id
    case AtIndex(_) => ItemLabel(k)
  }

  function GroupTitle(step: Step, child: Node, k: nat): string {
    if step.AtKey? then step.name else ItemTitle(child.before, child.after, k)
  }

  ghost predicate Describes(rows: seq<DiffRow>, hiddenCount: nat, spots: seq<Spot>) {
    Flatten(rows) == Shown(spots) && hiddenCount == HiddenIn(spots) && NoEmptyGroups(rows)
  }

  /** A record's field gets a group even for a single row if a list or a record stands on either side. */
  predicate MayStand(step: Step, child: Node) { step.AtKey? ==> IsPrimitive(child.before) && IsPrimitive(child.after) }

  /** Whether rows below the k-th step are the one row that needs no group. */
  predicate NeedNoGroup(rows: seq<DiffRow>, n: Node, k: nat)
    requires k < |Steps(n)|
  {
    && |rows| == 1 && rows[0].Leaf? && rows[0].title == StepLabel(Steps(n)[k], k)
    && MayStand(Steps(n)[k], Down(n, Steps(n)[k]))
  }

  /** A row stands for one step: alone, or as a group that is named after it and holds what lies below it, with the
      number hidden there as its count; so do the rows in it. */
  ghost predicate IsRowAt(row: DiffRow, n: Node, k: nat)
    decreases row, 0
  {
    && k < |Steps(n)|
    && match row
       case Leaf(_, _, _, _, _) => NeedNoGroup([row], n, k)
       case Group(key, title, children, hiddenCount) =>
         var step, child := Steps(n)[k], Down(n, Steps(n)[k]);
         && key == GroupKey(step, k) && title == GroupTitle(step, child, k)
         && Describes(children, hiddenCount, Positions(child, StepLabel(step, k)))
         && !NeedNoGroup(children, n, k)
         && RowsDescribe(children, child)
  }

  ghost predicate RowsDescribe(rows: seq<DiffRow>, n: Node)
    decreases rows, 2
  {
    && (IsLeaf(n) ==> forall i :: 0 <= i < |rows| ==> rows[i].Leaf?)
    && (!IsLeaf(n) ==> forall i :: 0 <= i < |rows| ==> HasStep(rows[i], n))
  }

  ghost predicate HasStep(row: DiffRow, n: Node)
    decreases row, 1
  {
    exists k: nat :: IsRowAt(row, n, k)
  }

  // ---- The rows spelled out ----

  predicate IsDrawn(n: Node) { MustHide(n) || n.unknown == Some(Bool(true)) || n.before != n.after }

  /** A leaf row is that of a position: it holds both its values, and its kind says how they differ. */
  predicate IsRowOf(row: DiffRow, s: Spot) {
    && row.Leaf? && row.key == s.title && row.title == s.title
    && row.before == s.node.before && row.after == s.node.after
    && (row.kind == Sensitive <==> MustHide(s.node))
    && (row.kind == Unknown <==> !MustHide(s.node) && s.node.unknown == Some(Bool(true)))
    && (row.kind == Added ==> row.before.None? && row.after.Some?)
    && (row.kind == Removed ==> row.before.Some? && row.after.None?)
    && (row.kind == Changed ==> row.before.Some? && row.after.Some? && row.before != row.after)
  }

  /** The rows are those of the positions `at`, in order: all of them that hide or await a value or hold two. */
  predicate Draws(leaves: seq<DiffRow>, spots: seq<Spot>, at: seq<nat>) {
    AreRowsOf(leaves, spots, at) && Increase(at) && AreAllDrawn(spots, at)
  }

  predicate AreRowsOf(leaves: seq<DiffRow>, spots: seq<Spot>, at: seq<nat>) {
    |at| == |leaves| && forall i :: 0 <= i < |at| ==> at[i] < |spots| && IsRowOf(leaves[i], spots[at[i]])
  }

  predicate AreAllDrawn(spots: seq<Spot>, at: seq<nat>) {
    forall k: nat :: k < |spots| ==> (k in at <==> IsDrawn(spots[k].node))
  }

  ghost predicate AreDrawn(leaves: seq<DiffRow>, spots: seq<Spot>) {
    exists at :: Draws(leaves, spots, at)
  }

  lemma {:induction false} ShownAreDrawn(spots: seq<Spot>) returns (at: seq<nat>)
    ensures Draws(Shown(spots), spots, at)
  {
    if spots == [] {
      at := [];
    } else {
      var n := |spots| - 1;
      var rest := ShownAreDrawn(spots[..n]);
      var leaves := Shown(spots[..n]);
      SpotIsDrawn(spots[n]);
      BelowTheLast(leaves, spots[..n], rest);
      hide AreRowsOf, AreAllDrawn, Increase, IsDrawn, IsRowOf, IsShown, KindOf;
      if IsShown(spots[n].node) {
        at := rest + [n];
        OneMoreRow(leaves, spots, rest, Shown(spots)[|leaves|]);
        OneMoreDrawn(spots, rest);
      } else {
        at := rest;
        OneLessRow(leaves, spots, rest);
        OneLessDrawn(spots, rest);
      }
    }
  }

  lemma BelowTheLast(leaves: seq<DiffRow>, spots: seq<Spot>, at: seq<nat>)
    requires AreRowsOf(leaves, spots, at) && Increase(at)
    ensures |leaves| == |at| && (forall k :: k in at ==> k < |spots|) && Increase(at + [|spots|])
  {
  }

  lemma OneMoreRow(leaves: seq<DiffRow>, spots: seq<Spot>, rest: seq<nat>, row: DiffRow)
    requires spots != [] && AreRowsOf(leaves, spots[..|spots| - 1], rest) && IsRowOf(row, spots[|spots| - 1])
    ensures AreRowsOf(leaves + [row], spots, rest + [|spots| - 1])
  {
    hide IsRowOf;
    var n := |spots| - 1;
    forall i | 0 <= i < |rest| ensures rest[i] < n && IsRowOf(leaves[i], spots[rest[i]]) {
      assert IsRowOf(leaves[i], spots[..n][rest[i]]);
    }
  }

  lemma OneLessRow(leaves: seq<DiffRow>, spots: seq<Spot>, rest: seq<nat>)
    requires spots != [] && AreRowsOf(leaves, spots[..|spots| - 1], rest)
    ensures AreRowsOf(leaves, spots, rest)
  {
    hide IsRowOf;
  }

  lemma OneMoreDrawn(spots: seq<Spot>, rest: seq<nat>)
    requires spots != [] && AreAllDrawn(spots[..|spots| - 1], rest) && IsDrawn(spots[|spots| - 1].node)
    ensures AreAllDrawn(spots, rest + [|spots| - 1])
  {
    hide IsDrawn;
    var n := |spots| - 1;
    forall k: nat | k < |spots| ensures k in rest + [n] <==> IsDrawn(spots[k].node) {
      assert k < n ==> spots[..n][k] == spots[k];
    }
  }

  lemma OneLessDrawn(spots: seq<Spot>, rest: seq<nat>)
    requires spots != [] && AreAllDrawn(spots[..|spots| - 1], rest) && !IsDrawn(spots[|spots| - 1].node)
    requires forall k :: k in rest ==> k < |spots| - 1
    ensures AreAllDrawn(spots, rest)
  {
    hide IsDrawn;
    var n := |spots| - 1;
    forall k: nat | k < |spots| ensures k in rest <==> IsDrawn(spots[k].node) {
      assert k < n ==> spots[..n][k] == spots[k];
    }
  }

  /** The rows in which a record or a list is shown: a group is named after one step and holds more than the one row it
      would be without a group; a single row stands for one step. */
  ghost predicate AreTitled(rows: seq<DiffRow>, n: Node)
    decreases rows, 2
  {
    !EndsHere(n) ==> forall i :: 0 <= i < |rows| ==> IsOfAStep(rows[i], n)
  }

  ghost predicate IsOfAStep(row: DiffRow, n: Node)
    decreases row, 1
  {
    exists step, steps, k, child :: IsBelow(n, step, steps, k, child) && IsTitled(row, step, k, child)
  }

  ghost predicate IsTitled(row: DiffRow, step: Step, k: nat, child: Node)
    decreases row, 0
  {
    var mayStand := step.AtKey? ==> !HoldsParts(child.before) && !HoldsParts(child.after);
    match row
    case Leaf(_, title, _, _, _) => title == LabelOf(step, k) && mayStand
    case Group(key, title, children, _) =>
      && key == (match step case AtKey(name) => name case AtIdentity(id) => id case AtIndex(_) => "[" + Digits(k) + "]")
      && (if step.AtKey? then title == step.name else IsItemTitle(title, child.before, child.after, k))
      && !(|children| == 1 && children[0].Leaf? && children[0].title == LabelOf(step, k) && mayStand)
      && AreTitled(children, child)
  }

  predicate HoldsParts(v: Val) { v.Some? && (v.value.Arr? || v.value.Obj?) }

  lemma {:induction false} DescribedRowsAreTitled(rows: seq<DiffRow>, n: Node)
    requires RowsDescribe(rows, n)
    ensures AreTitled(rows, n)
    decreases rows, 1
  {
    LeavesAreEnds(n);
    hide IsLeaf, EndsHere, IsBelow, Steps, Down, NeedNoGroup, Describes, GroupTitle, GroupKey, IsItemTitle;
    if !IsLeaf(n) {
      forall i | 0 <= i < |rows| ensures IsOfAStep(rows[i], n) {
        assert HasStep(rows[i], n);
        var k: nat :| IsRowAt(rows[i], n, k);
        DescribedRowIsTitled(rows[i], n, k);
        assert IsBelow(n, Steps(n)[k], Steps(n), k, Down(n, Steps(n)[k]));
      }
    }
  }

  lemma {:induction false} DescribedRowIsTitled(row: DiffRow, n: Node, k: nat)
    requires !IsLeaf(n) && IsRowAt(row, n, k)
    ensures k < |Steps(n)| && IsBelow(n, Steps(n)[k], Steps(n), k, Down(n, Steps(n)[k]))
    ensures IsTitled(row, Steps(n)[k], k, Down(n, Steps(n)[k]))
    decreases row, 0
  {
    hide IsBelow, Steps, Down, IsLeaf, Describes, Positions, IsItemTitle, ItemTitle, AreTitled, RowsDescribe;
    ChildIsBelow(n, k);
    var step := Steps(n)[k];
    var child := Down(n, step);
    ItemsAreTitled(child.before, child.after, k);
    assert MayStand(step, child)
           == (step.AtKey? ==> !HoldsParts(child.before) && !HoldsParts(child.after));
    if row.Group? {
      DescribedRowsAreTitled(row.children, child);
    }
  }

  lemma ItemsAreTitled(before: Val, after: Val, k: nat)
    ensures IsItemTitle(ItemTitle(before, after, k), before, after, k)
  {
    var fields := if after.Some? && after.value.Obj? then after.value.fields else RecordOf(before);
    hide IsTitleOf, NamingKey, TextUnder, NAMING, IDENTITY_KEYS;
    NothingNamesNothing(fields, IDENTITY_KEYS);
    assert fields == Fields(if IsObj(after) then after else before);
    TitlesAreTitles(fields, k);
  }

  lemma TitlesAreTitles(fields: seq<Field>, k: nat)
    ensures var key := NamingKey(fields, IDENTITY_KEYS);
            IsTitleOf(if key.Some? then ItemLabel(k) + " " + TextUnder(fields, key.value) else ItemLabel(k), fields, k)
  {
    hide IsNamedBy, NamingKey, TextUnder, NAMING, IDENTITY_KEYS;
    if NamingKey(fields, IDENTITY_KEYS).Some? {
      var m := NameIsFound(fields);
    } else {
      NoNameIsFound(fields);
    }
  }

  lemma {:induction false} NothingNamesNothing(fields: seq<Field>, keys: seq<string>)
    ensures fields == [] ==> NamingKey(fields, keys) == None
  {
    if keys != [] {
      NothingNamesNothing(fields, keys[1..]);
    }
  }

  lemma SpotIsDrawn(s: Spot)
    ensures IsShown(s.node) <==> IsDrawn(s.node)
    ensures IsShown(s.node) ==> IsRowOf(Leaf(s.title, s.title, KindOf(s.node), s.node.before, s.node.after), s)
  {
  }

  // ---- What is shown and what is counted, piece by piece ----

  lemma {:induction false} ShownInPieces(a: seq<Spot>, b: seq<Spot>)
    ensures Shown(a + b) == Shown(a) + Shown(b)
    ensures HiddenIn(a + b) == HiddenIn(a) + HiddenIn(b)
  {
    hide IsShown, KindOf;
    if b == [] {
      assert a + b == a;
    } else {
      var n := |b| - 1;
      ShownInPieces(a, b[..n]);
      assert (a + b)[..|a + b| - 1] == a + b[..n] && (a + b)[|a + b| - 1] == b[n];
    }
  }

  lemma {:induction false} ShownBehindAStep(step: Step, spots: seq<Spot>)
    ensures Shown(Prefixed(step, spots)) == Shown(spots) && HiddenIn(Prefixed(step, spots)) == HiddenIn(spots)
  {
    hide IsShown, KindOf;
    if spots != [] {
      var n := |spots| - 1;
      ShownBehindAStep(step, spots[..n]);
      assert Prefixed(step, spots)[..n] == Prefixed(step, spots[..n]);
    }
  }

  lemma OneStepMore(n: Node, k: nat)
    requires !IsLeaf(n) && k < |Steps(n)|
    ensures var child := Positions(Down(n, Steps(n)[k]), StepLabel(Steps(n)[k], k));
            && Shown(PositionsBelow(n, k + 1)) == Shown(PositionsBelow(n, k)) + Shown(child)
            && HiddenIn(PositionsBelow(n, k + 1)) == HiddenIn(PositionsBelow(n, k)) + HiddenIn(child)
  {
    hide IsLeaf, Steps, Down, StepLabel, Positions, Shown, HiddenIn;
    var step := Steps(n)[k];
    var child := Positions(Down(n, step), StepLabel(step, k));
    ShownBehindAStep(step, child);
    ShownInPieces(PositionsBelow(n, k), Prefixed(step, child));
  }

  lemma {:induction false} EveryPositionCounts(spots: seq<Spot>)
    ensures |Shown(spots)| + HiddenIn(spots) == |spots|
  {
    hide IsShown, KindOf;
    if spots != [] {
      EveryPositionCounts(spots[..|spots| - 1]);
    }
  }

  lemma {:induction false} LeavesAreCounted(rows: seq<DiffRow>)
    requires NoEmptyGroups(rows)
    ensures CountVisibleLeaves(rows) == |Flatten(rows)|
  {
    if rows != [] {
      LeavesAreCounted(rows[..|rows| - 1]);
      if rows[|rows| - 1].Group? {
        LeavesAreCounted(rows[|rows| - 1].children);
      }
    }
  }

  /** Visible and hidden together are all the leaf positions: nothing is dropped and nothing is counted twice. */
  lemma RowsAreConserved(rows: seq<DiffRow>, hiddenCount: nat, spots: seq<Spot>)
    requires Describes(rows, hiddenCount, spots)
    ensures CountVisibleLeaves(rows) + hiddenCount == |spots|
  {
    LeavesAreCounted(rows);
    EveryPositionCounts(spots);
  }

  // ---- Building the rows ----

  /** A child's rows join its parent's: not at all if there are none, as they are if the only one is the child itself,
      and in a group otherwise. */
  method AddChild(rows: seq<DiffRow>, childRows: seq<DiffRow>, childHidden: nat, key: string, title: string,
      groupTitle: string, mayStand: bool)
    returns (r: seq<DiffRow>)
    requires NoEmptyGroups(rows) && NoEmptyGroups(childRows)
    ensures Flatten(r) == Flatten(rows) + Flatten(childRows) && NoEmptyGroups(r)
    ensures r == if childRows == [] then rows
                 else if |childRows| == 1 && childRows[0].Leaf? && childRows[0].title == title && mayStand
                 then rows + childRows
                 else rows + [Group(key, groupTitle, childRows, childHidden)]
  {
    if |childRows| == 0 {
      return rows;
    }
    if |childRows| == 1 && childRows[0].Leaf? && childRows[0].title == title && mayStand {
      r := rows + [childRows[0]];
      assert childRows[..0] == [] && childRows[|childRows| - 1] == childRows[0];
    } else {
      r := rows + [Group(key, groupTitle, childRows, childHidden)];
    }
    assert r[..|r| - 1] == rows;
  }

  lemma RowsStillDescribe(rows: seq<DiffRow>, more: seq<DiffRow>, row: DiffRow, n: Node, k: nat)
    requires !IsLeaf(n) && RowsDescribe(rows, n) && (more == rows || more == rows + [row])
    requires more != rows ==> IsRowAt(row, n, k)
    ensures RowsDescribe(more, n)
  {
    forall i | 0 <= i < |more| ensures HasStep(more[i], n) {
      if i < |rows| {
        assert more[i] == rows[i];
      } else {
        assert more[i] == row;
      }
    }
  }

  datatype CollectionEntry = CollectionEntry(
    identity: string, value: Val, unknown: Val, beforeSensitive: Val, afterSensitive: Val, changedSensitive: Val)

  /** The entry of an identity: the last item that has it, with what the plan says at the item's place. */
  ghost function EntryOf(ids: seq<string>, id: string, values: seq<Json>, unknown: seq<Json>,
                         beforeSensitive: seq<Json>, afterSensitive: seq<Json>, changedSensitive: seq<Json>)
    : Option<CollectionEntry>
  {
    var k := IndexOf(ids, id);
    if k.None? then None
    else Some(CollectionEntry(id, ItemOf(values, k), ItemOf(unknown, k), ItemOf(beforeSensitive, k),
                              ItemOf(afterSensitive, k), ItemOf(changedSensitive, k)))
  }

  /** The entries of a collection by identity, and the identities in the order in which they were first set. */
  method BuildCollectionEntries(values: seq<Json>, unknown: seq<Json>, beforeSensitive: seq<Json>,
                                afterSensitive: seq<Json>, changedSensitive: seq<Json>)
    returns (order: seq<string>, entries: map<string, CollectionEntry>)
    ensures order == Dedup(Identities(values))
    ensures forall id :: (if id in entries then Some(entries[id]) else None)
                         == EntryOf(Identities(values), id, values, unknown,
                             beforeSensitive, afterSensitive, changedSensitive)
  {
    hide Identity;
    order, entries := [], map[];
    var ids := Identities(values);
    for i := 0 to |values|
      invariant order == Dedup(ids[..i])
      invariant forall id :: id in order <==> id in entries
      invariant forall id :: (if id in entries then Some(entries[id]) else None)
                             == EntryOf(ids[..i], id, values, unknown, beforeSensitive,
                                 afterSensitive, changedSensitive)
    {
      assert ids[..i + 1][..i] == ids[..i];
      var identity := ids[i];
      if identity !in entries {
        order := order + [identity];
      }
      var entry := CollectionEntry(identity, Some(values[i]), ItemAt(unknown, i), ItemAt(beforeSensitive, i),
                                   ItemAt(afterSensitive, i), ItemAt(changedSensitive, i));
      entries := entries[identity := entry];
    }
    assert ids[..|values|] == ids;
  }

  method BuildDiffRows(n: Node, title: string) returns (rows: seq<DiffRow>, hiddenCount: nat)
    ensures Describes(rows, hiddenCount, Positions(n, title))
    ensures RowsDescribe(rows, n)
    ensures CountVisibleLeaves(rows) + hiddenCount == |Positions(n, title)|
    ensures AreDrawn(Flatten(rows), Positions(n, title)) && AreSpots(n, title, Positions(n, title))
    ensures AreTitled(rows, n)
    decreases Total(n), 2
  {
    hide Steps, MatchesByIdentity;
    if RendersSensitive(n) {
      rows, hiddenCount := [Leaf(title, title, Sensitive, n.before, n.after)], 0;
      LeafDescribes(rows, hiddenCount, Spot([], title, n));
    } else if IsTrue(n.unknown) {
      rows, hiddenCount := [Leaf(title, title, Unknown, n.before, n.after)], 0;
      LeafDescribes(rows, hiddenCount, Spot([], title, n));
    } else if IsArr(n.before) || IsArr(n.after) {
      if MatchesByIdentity(n) {
        rows, hiddenCount := BuildByIdentity(n);
      } else {
        rows, hiddenCount := BuildByIndex(n);
      }
    } else if IsPrimitive(n.before) || IsPrimitive(n.after) {
      if n.before == n.after {
        rows, hiddenCount := [], 1;
      } else {
        var kind := Changed;
        if n.before.None? {
          kind := Added;
        } else if n.after.None? {
          kind := Removed;
        }
        rows, hiddenCount := [Leaf(title, title, kind, n.before, n.after)], 0;
      }
      LeafDescribes(rows, hiddenCount, Spot([], title, n));
    } else {
      rows, hiddenCount := BuildByKey(n);
    }
    RowsAreConserved(rows, hiddenCount, Positions(n, title));
    ghost var at := ShownAreDrawn(Positions(n, title));
    PositionsAreSpots(n, title);
    DescribedRowsAreTitled(rows, n);
  }

  lemma LeafDescribes(rows: seq<DiffRow>, hiddenCount: nat, s: Spot)
    requires if IsShown(s.node)
             then rows == [Leaf(s.title, s.title, KindOf(s.node), s.node.before, s.node.after)] && hiddenCount == 0
             else rows == [] && hiddenCount == 1
    ensures Describes(rows, hiddenCount, [s])
  {
    assert [s][..0] == [];
    assert Shown([]) == [] && HiddenIn([]) == 0;
    if rows != [] {
      assert rows[..0] == [] && Flatten([]) == [];
    }
  }

  method BuildByIdentity(n: Node) returns (rows: seq<DiffRow>, hiddenCount: nat)
    requires !IsLeaf(n) && IsArrayPair(n) && MatchesByIdentity(n)
    ensures Describes(rows, hiddenCount, PositionsBelow(n, |Steps(n)|)) && RowsDescribe(rows, n)
    decreases Total(n), 1
  {
    hide RendersSensitive, IsLeaf, MatchesByIdentity, Identity, Identities, IndexOf, Positions, Shown, HiddenIn,
        Flatten, Dedup, IsRowAt, Down, EntryOf;
    var before, after := Items(n.before), Items(n.after);
    var beforeOrder, beforeEntries := BuildCollectionEntries(before, [], Items(n.beforeSensitive), [], []);
    var afterOrder, afterEntries := BuildCollectionEntries(after, Items(n.unknown), [], Items(n.afterSensitive), []);
    var either := if |after| > 0 then after else before;
    var _, changed := BuildCollectionEntries(either, [], [], [], Items(n.changedSensitive));
    var identities := Dedup(beforeOrder + afterOrder);
    assert Steps(n) == ByIdentity(identities) by { StepsByIdentity(n); }
    hide Steps;
    rows, hiddenCount := [], 0;
    StartsEmpty(n);
    for index := 0 to |identities|
      invariant Describes(rows, hiddenCount, PositionsBelow(n, index)) && RowsDescribe(rows, n)
    {
      var identity := identities[index];
      assert Steps(n)[index] == AtIdentity(identity);
      var b := if identity in beforeEntries then Some(beforeEntries[identity]) else None;
      var a := if identity in afterEntries then Some(afterEntries[identity]) else None;
      var c := if identity in changed then Some(changed[identity]) else None;
      var child := Node(
        if b.Some? then b.value.value else None,
        if a.Some? then a.value.value else None,
        if a.Some? then a.value.unknown else None,
        if b.Some? then b.value.beforeSensitive else None,
        if a.Some? then a.value.afterSensitive else None,
        if c.Some? then c.value.changedSensitive else None);
      JoinedEntriesAreTheChild(n, identity, b, a, c);
      var title := ItemLabel(index);
      rows, hiddenCount := AddDescribed(n, index, rows, hiddenCount, child, title, identity,
                                        ItemTitle(child.before, child.after, index), true);
    }
  }

  /** The entries of one identity joined are the child it leads to. */
  lemma JoinedEntriesAreTheChild(n: Node, identity: string, b: Option<CollectionEntry>, a: Option<CollectionEntry>,
                                 c: Option<CollectionEntry>)
    requires var before, after := Items(n.before), Items(n.after);
             var either := if |after| > 0 then after else before;
             && b == EntryOf(Identities(before), identity, before, [], Items(n.beforeSensitive), [], [])
             && a == EntryOf(Identities(after), identity, after, Items(n.unknown), [], Items(n.afterSensitive), [])
             && c == EntryOf(Identities(either), identity, either, [], [], [], Items(n.changedSensitive))
    ensures Down(n, AtIdentity(identity))
         == Node(
              if b.Some? then b.value.value else None,
              if a.Some? then a.value.value else None,
              if a.Some? then a.value.unknown else None,
              if b.Some? then b.value.beforeSensitive else None,
              if a.Some? then a.value.afterSensitive else None,
              if c.Some? then c.value.changedSensitive else None)
  {
    hide Identity, Identities, IndexOf;
  }

  lemma StepsByIdentity(n: Node)
    requires IsArrayPair(n) && MatchesByIdentity(n)
    ensures Steps(n) == ByIdentity(Dedup(Dedup(Identities(Items(n.before))) + Dedup(Identities(Items(n.after)))))
  {
  }

  lemma StartsEmpty(n: Node)
    requires !IsLeaf(n)
    ensures Describes([], 0, PositionsBelow(n, 0)) && RowsDescribe([], n)
  {
  }

  method BuildByIndex(n: Node) returns (rows: seq<DiffRow>, hiddenCount: nat)
    requires !IsLeaf(n) && IsArrayPair(n) && !MatchesByIdentity(n)
    ensures Describes(rows, hiddenCount, PositionsBelow(n, |Steps(n)|)) && RowsDescribe(rows, n)
    decreases Total(n), 1
  {
    hide RendersSensitive, IsLeaf, MatchesByIdentity, Positions, Shown, HiddenIn, Flatten, IsRowAt, Describes,
        RowsDescribe;
    var maxLength := Max(|Items(n.before)|, |Items(n.after)|);
    assert Steps(n) == ByIndex(maxLength);
    hide Steps;
    rows, hiddenCount := [], 0;
    StartsEmpty(n);
    for index := 0 to maxLength
      invariant Describes(rows, hiddenCount, PositionsBelow(n, index)) && RowsDescribe(rows, n)
    {
      assert Steps(n)[index] == AtIndex(index);
      var child := Node(ItemAt(Items(n.before), index), ItemAt(Items(n.after), index), ItemAt(Items(n.unknown), index),
                        ItemAt(Items(n.beforeSensitive), index), ItemAt(Items(n.afterSensitive), index),
                        ItemAt(Items(n.changedSensitive), index));
      var title := ItemLabel(index);
      rows, hiddenCount := AddDescribed(n, index, rows, hiddenCount, child, title, title,
                                        ItemTitle(child.before, child.after, index), true);
    }
  }

  method BuildByKey(n: Node) returns (rows: seq<DiffRow>, hiddenCount: nat)
    requires !IsLeaf(n) && !IsArrayPair(n)
    ensures Describes(rows, hiddenCount, PositionsBelow(n, |Steps(n)|)) && RowsDescribe(rows, n)
    decreases Total(n), 1
  {
    hide RendersSensitive, IsLeaf, MatchesByIdentity, Positions, Shown, HiddenIn, Flatten, IsRowAt, Describes,
        RowsDescribe, Dedup, SortNames;
    var keys := SortNames(Dedup(NamesOf(Fields(n.before)) + NamesOf(Fields(n.after))));
    assert Steps(n) == ByKey(keys);
    hide Steps;
    rows, hiddenCount := [], 0;
    StartsEmpty(n);
    for index := 0 to |keys|
      invariant Describes(rows, hiddenCount, PositionsBelow(n, index)) && RowsDescribe(rows, n)
    {
      var key := keys[index];
      assert Steps(n)[index] == AtKey(key);
      var child := Node(Lookup(Fields(n.before), key), Lookup(Fields(n.after), key), Lookup(Fields(n.unknown), key),
                        Lookup(Fields(n.beforeSensitive), key), Lookup(Fields(n.afterSensitive), key),
                        Lookup(Fields(n.changedSensitive), key));
      rows, hiddenCount := AddDescribed(n, index, rows, hiddenCount, child, key, key, key,
                                        IsPrimitive(child.before) && IsPrimitive(child.after));
    }
  }

  /** One child more: its rows are built and join the ones so far. */
  method AddDescribed(n: Node, k: nat, rows: seq<DiffRow>, hiddenCount: nat, child: Node, title: string,
                      key: string, groupTitle: string, mayStand: bool)
    returns (more: seq<DiffRow>, hidden: nat)
    requires !IsLeaf(n) && k < |Steps(n)|
    requires child == Down(n, Steps(n)[k]) && title == StepLabel(Steps(n)[k], k)
    requires key == GroupKey(Steps(n)[k], k) && groupTitle == GroupTitle(Steps(n)[k], child, k)
    requires mayStand == MayStand(Steps(n)[k], child)
    requires Describes(rows, hiddenCount, PositionsBelow(n, k)) && RowsDescribe(rows, n)
    ensures Describes(more, hidden, PositionsBelow(n, k + 1)) && RowsDescribe(more, n)
    decreases Total(n), 0
  {
    hide RendersSensitive, IsLeaf, Steps, Positions, PositionsBelow, Shown, HiddenIn, Flatten, Down, StepLabel;
    GoingDownShrinks(n, Steps(n)[k]);
    var childRows, childHidden := BuildDiffRows(child, title);
    hide RowsDescribe, MayStand;
    hidden := hiddenCount + childHidden;
    more := AddChild(rows, childRows, childHidden, key, title, groupTitle, mayStand);
    OneStepMore(n, k);
    var alone := |childRows| == 1 && childRows[0].Leaf? && childRows[0].title == title && mayStand;
    assert alone ==> childRows == [childRows[0]];
    RowsStillDescribe(rows, more, if alone then childRows[0] else Group(key, groupTitle, childRows, childHidden), n, k);
  }
}
