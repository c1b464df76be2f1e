/** What the leaf positions keep of the two values compared. */
module PlanContent {
  import opened Wrappers

  import opened PlanTree

  /** The number of texts, numbers, booleans and nulls in a value. */
  function Atoms(j: Json): nat {
    match j
    case Arr(items) => AtomsOfItems(items)
    case Obj(fields) => AtomsOfFields(fields)
    case _ => 1
  }

  function AtomsOfItems(items: seq<Json>): nat {
    if items == [] then 0 else AtomsOfItems(items[..|items| - 1]) + Atoms(items[|items| - 1])
  }

  function AtomsOfFields(fields: seq<Field>): nat {
    if fields == [] then 0 else AtomsOfFields(fields[..|fields| - 1]) + Atoms(fields[|fields| - 1].value)
  }

  function AtomsIn(v: Val): nat { if v.None? then 0 else Atoms(v.value) }

  /** No record names a field twice. */
  predicate Proper(j: Json) {
    match j
    case Arr(items) => forall i :: 0 <= i < |items| ==> Proper(items[i])
    case Obj(fields) => Distinct(NamesOf(fields)) && forall i :: 0 <= i < |fields| ==> Proper(fields[i].value)
    case _ => true
  }

  predicate IsProper(v: Val) { v.Some? ==> Proper(v.value) }

  function Kept(spots: seq<Spot>): nat {
    if spots == [] then 0
    else Kept(spots[..|spots| - 1]) + AtomsIn(spots[|spots| - 1].node.before) + AtomsIn(spots[|spots| - 1].node.after)
  }

  /** Wherever one side is a list, the other side is one too or holds nothing. */
  predicate MatchingShape(n: Node)
    decreases Total(n)
  {
    IsLeaf(n)
    || (&& (IsArrayPair(n) && !IsArr(n.before) ==> AtomsIn(n.before) == 0)
        && (IsArrayPair(n) && !IsArr(n.after) ==> AtomsIn(n.after) == 0)
        && (forall k :: 0 <= k < |Steps(n)| ==>
              var child := Down(n, Steps(n)[k]);
              GoingDownShrinks(n, Steps(n)[k]);
              MatchingShape(child)))
  }

  // ---- Sums over names ----

  function Sum(weights: seq<nat>): nat {
    if weights == [] then 0 else Sum(weights[..|weights| - 1]) + weights[|weights| - 1]
  }

  function WeightOf(own: seq<string>, weights: seq<nat>, name: string): nat
    requires |own| == |weights|
  {
    var k := IndexOf(own, name);
    if k.Some? then weights[k.value] else 0
  }

  function WeightOfAll(own: seq<string>, weights: seq<nat>, names: seq<string>): nat
    requires |own| == |weights|
  {
    if names == [] then 0
    else WeightOfAll(own, weights, names[..|names| - 1]) + WeightOf(own, weights, names[|names| - 1])
  }

  lemma {:induction false} OneWeightMore(own: seq<string>, weights: seq<nat>, names: seq<string>)
    requires |own| == |weights| > 0 && Distinct(own) && Distinct(names)
    ensures var n := |own| - 1;
            WeightOfAll(own, weights, names)
            == WeightOfAll(own[..n], weights[..n], names) + if own[n] in names then weights[n] else 0
  {
    var n := |own| - 1;
    if names != [] {
      var m := |names| - 1;
      OneWeightMore(own, weights, names[..m]);
      assert names == names[..m] + [names[m]];
      assert own[n] !in own[..n];
      if names[m] == own[n] {
        assert own[n] !in names[..m];
      }
    }
  }

  lemma {:induction false} NothingWeighsNothing(names: seq<string>)
    ensures WeightOfAll([], [], names) == 0
  {
    if names != [] {
      NothingWeighsNothing(names[..|names| - 1]);
    }
  }

  /** Distinct names that cover all of one's own weigh what one's own weigh together. */
  lemma {:induction false} NamesCoverWeights(own: seq<string>, weights: seq<nat>, names: seq<string>)
    requires |own| == |weights| && Distinct(own) && Distinct(names) && forall x :: x in own ==> x in names
    ensures WeightOfAll(own, weights, names) == Sum(weights)
  {
    if own == [] {
      NothingWeighsNothing(names);
    } else {
      var n := |own| - 1;
      OneWeightMore(own, weights, names);
      NamesCoverWeights(own[..n], weights[..n], names);
      assert own[n] in own;
    }
  }

  // ---- One side of a pair ----

  function SideAt(v: Val, step: Step): Val {
    match step
    case AtIndex(i) => ItemAt(Items(v), i)
    case AtIdentity(id) => ItemOf(Items(v), IndexOf(Identities(Items(v)), id))
    case AtKey(name) => Lookup(Fields(v), name)
  }

  function SideSum(v: Val, steps: seq<Step>): nat {
    if steps == [] then 0 else SideSum(v, steps[..|steps| - 1]) + AtomsIn(SideAt(v, steps[|steps| - 1]))
  }

  function ItemWeights(items: seq<Json>): (w: seq<nat>)
    ensures |w| == |items|
  {
    seq(|items|, i requires 0 <= i < |items| => Atoms(items[i]))
  }

  function FieldWeights(fields: seq<Field>): (w: seq<nat>)
    ensures |w| == |fields|
  {
    seq(|fields|, i requires 0 <= i < |fields| => Atoms(fields[i].value))
  }

  lemma {:induction false} ItemWeightsAddUp(items: seq<Json>)
    ensures Sum(ItemWeights(items)) == AtomsOfItems(items)
  {
    if items != [] {
      var n := |items| - 1;
      ItemWeightsAddUp(items[..n]);
      assert ItemWeights(items)[..n] == ItemWeights(items[..n]);
    }
  }

  lemma {:induction false} FieldWeightsAddUp(fields: seq<Field>)
    ensures Sum(FieldWeights(fields)) == AtomsOfFields(fields)
  {
    if fields != [] {
      var n := |fields| - 1;
      FieldWeightsAddUp(fields[..n]);
      assert FieldWeights(fields)[..n] == FieldWeights(fields[..n]);
    }
  }

  lemma {:induction false} SumByIndex(v: Val, n: nat)
    ensures SideSum(v, ByIndex(n)) == AtomsOfItems(Items(v)[..if n < |Items(v)| then n else |Items(v)|])
  {
    var items := Items(v);
    if n > 0 {
      SumByIndex(v, n - 1);
      assert ByIndex(n)[..n - 1] == ByIndex(n - 1);
      if n <= |items| {
        assert items[..n][..n - 1] == items[..n - 1];
      }
    }
  }

  lemma {:induction false} SumByIdentity(v: Val, ids: seq<string>)
    ensures SideSum(v, ByIdentity(ids)) == WeightOfAll(Identities(Items(v)), ItemWeights(Items(v)), ids)
  {
    hide Identities, Identity, IndexOf, Atoms;
    if ids == [] {
      assert ByIdentity(ids) == [];
    } else {
      var n := |ids| - 1;
      SumByIdentity(v, ids[..n]);
      assert ByIdentity(ids)[..n] == ByIdentity(ids[..n]);
    }
  }

  lemma {:induction false} LookupFinds(fields: seq<Field>, name: string)
    requires Distinct(NamesOf(fields))
    ensures var k := IndexOf(NamesOf(fields), name);
            Lookup(fields, name) == if k.Some? then Some(fields[k.value].value) else None
  {
    var names := NamesOf(fields);
    var k := IndexOf(names, name);
    if fields != [] {
      assert names[0] == fields[0].name;
      if fields[0].name == name {
        assert name in names;
      } else {
        assert NamesOf(fields[1..]) == names[1..];
        LookupFinds(fields[1..], name);
        var r := IndexOf(names[1..], name);
        assert names == [names[0]] + names[1..];
        if r.Some? {
          assert names[r.value + 1] == name;
        }
      }
    }
  }

  lemma {:induction false} SumByKey(v: Val, names: seq<string>)
    requires Distinct(NamesOf(Fields(v)))
    ensures SideSum(v, ByKey(names)) == WeightOfAll(NamesOf(Fields(v)), FieldWeights(Fields(v)), names)
  {
    hide NamesOf, IndexOf, Atoms, Lookup;
    if names == [] {
      assert ByKey(names) == [];
    } else {
      var n := |names| - 1;
      SumByKey(v, names[..n]);
      assert ByKey(names)[..n] == ByKey(names[..n]);
      LookupFinds(Fields(v), names[n]);
    }
  }

  // ---- Both sides ----

  /** Going down every step from a list or record reaches everything in it. */
  lemma SideAddsUp(n: Node, v: Val)
    requires !IsLeaf(n) && v in [n.before, n.after] && IsProper(v)
    ensures SideSum(v, Steps(n)) + (if IsArrayPair(n) && !IsArr(v) then AtomsIn(v) else 0) == AtomsIn(v)
  {
    hide Identity, RendersSensitive, Dedup, SortNames, IndexOf;
    var items, fields := Items(v), Fields(v);
    if IsArrayPair(n) {
      if MatchesByIdentity(n) {
        var ids := OrderedIdentities(n);
        DedupKeepsNames(Identities(Items(n.before)));
        DedupKeepsNames(Identities(Items(n.after)));
        DedupKeepsNames(Dedup(Identities(Items(n.before))) + Dedup(Identities(Items(n.after))));
        SumByIdentity(v, ids);
        NamesCoverWeights(Identities(items), ItemWeights(items), ids);
        ItemWeightsAddUp(items);
      } else {
        SumByIndex(v, Max(|Items(n.before)|, |Items(n.after)|));
        assert items[..|items|] == items;
      }
    } else {
      var all := NamesOf(Fields(n.before)) + NamesOf(Fields(n.after));
      DedupKeepsNames(all);
      SortingKeepsNames(Dedup(all));
      SumByKey(v, OrderedKeys(n));
      NamesCoverWeights(NamesOf(fields), FieldWeights(fields), OrderedKeys(n));
      FieldWeightsAddUp(fields);
    }
  }

  /** What is under the first `k` steps. */
  function KeptBelow(n: Node, k: nat): nat
    requires !IsLeaf(n) && k <= |Steps(n)|
  {
    Kept(PositionsBelow(n, k))
  }

  lemma {:induction false} KeptInPieces(a: seq<Spot>, b: seq<Spot>)
    ensures Kept(a + b) == Kept(a) + Kept(b)
  {
    hide Atoms;
    if b == [] {
      assert a + b == a;
    } else {
      KeptInPieces(a, b[..|b| - 1]);
      assert (a + b)[..|a + b| - 1] == a + b[..|b| - 1];
    }
  }

  lemma {:induction false} KeptBehindAStep(step: Step, spots: seq<Spot>)
    ensures Kept(Prefixed(step, spots)) == Kept(spots)
  {
    hide Atoms;
    if spots != [] {
      var n := |spots| - 1;
      KeptBehindAStep(step, spots[..n]);
      assert Prefixed(step, spots)[..n] == Prefixed(step, spots[..n]);
    }
  }

  lemma PartsAreProper(v: Val, step: Step)
    requires IsProper(v)
    ensures IsProper(SideAt(v, step))
  {
    if step.AtKey? {
      FieldIsProper(Fields(v), step.name);
    }
  }

  lemma {:induction false} FieldIsProper(fields: seq<Field>, name: string)
    requires forall i :: 0 <= i < |fields| ==> Proper(fields[i].value)
    ensures IsProper(Lookup(fields, name))
  {
    if fields != [] {
      FieldIsProper(fields[1..], name);
    }
  }

  /** The shapes under the first `k` steps match. */
  predicate AllMatch(n: Node, k: nat)
    requires !IsLeaf(n) && k <= |Steps(n)|
  {
    forall j :: 0 <= j < k ==> MatchingShape(Down(n, Steps(n)[j]))
  }

  lemma OneMoreMatches(n: Node, k: nat)
    requires !IsLeaf(n) && 0 < k <= |Steps(n)|
    ensures AllMatch(n, k) <==> AllMatch(n, k - 1) && MatchingShape(Down(n, Steps(n)[k - 1]))
  {
    hide IsLeaf, Steps, Down, MatchingShape;
  }

  lemma {:induction false} BelowKeeps(n: Node, k: nat)
    requires !IsLeaf(n) && k <= |Steps(n)| && IsProper(n.before) && IsProper(n.after)
    ensures var all := SideSum(n.before, Steps(n)[..k]) + SideSum(n.after, Steps(n)[..k]);
            && KeptBelow(n, k) <= all
            && (KeptBelow(n, k) == all <==> AllMatch(n, k))
    decreases Total(n), 0, k
  {
    hide IsLeaf, Steps, Positions, MatchingShape, Kept, IsProper, Atoms, Total, StepLabel;
    if k == 0 {
      NothingKept();
    } else {
      BelowKeeps(n, k - 1);
      var step := Steps(n)[k - 1];
      var child := Down(n, step);
      GoingDownShrinks(n, step);
      PartsAreProper(n.before, step);
      PartsAreProper(n.after, step);
      PositionsKeep(child, StepLabel(step, k - 1));
      OneMoreKept(n, k);
      OneMoreOnBothSides(n, k);
      OneMoreMatches(n, k);
      hide KeptBelow, Down, SideSum, AllMatch;
    }
  }

  lemma OneMoreOnBothSides(n: Node, k: nat)
    requires !IsLeaf(n) && 0 < k <= |Steps(n)|
    ensures var child := Down(n, Steps(n)[k - 1]);
            && SideSum(n.before, Steps(n)[..k]) == SideSum(n.before, Steps(n)[..k - 1]) + AtomsIn(child.before)
            && SideSum(n.after, Steps(n)[..k]) == SideSum(n.after, Steps(n)[..k - 1]) + AtomsIn(child.after)
  {
    hide IsLeaf, Steps, Atoms;
    assert Steps(n)[..k][..k - 1] == Steps(n)[..k - 1];
  }

  lemma OneMoreKept(n: Node, k: nat)
    requires !IsLeaf(n) && 0 < k <= |Steps(n)|
    ensures var step := Steps(n)[k - 1];
            KeptBelow(n, k) == KeptBelow(n, k - 1) + Kept(Positions(Down(n, step), StepLabel(step, k - 1)))
  {
    hide IsLeaf, Steps, Positions, Kept, Down, StepLabel;
    var step := Steps(n)[k - 1];
    var spots := Positions(Down(n, step), StepLabel(step, k - 1));
    KeptInPieces(PositionsBelow(n, k - 1), Prefixed(step, spots));
    KeptBehindAStep(step, spots);
  }

  lemma NothingKept()
    ensures Kept([]) == 0
  {
  }

  /** The leaf positions hold the content of both values, all of it exactly if their shapes match. */
  lemma {:induction false} PositionsKeep(n: Node, title: string)
    requires IsProper(n.before) && IsProper(n.after)
    ensures Kept(Positions(n, title)) <= AtomsIn(n.before) + AtomsIn(n.after)
    ensures Kept(Positions(n, title)) == AtomsIn(n.before) + AtomsIn(n.after) <==> MatchingShape(n)
    decreases Total(n), 1, 0
  {
    hide Steps, PositionsBelow, IsProper, Atoms, IsArrayPair, RendersSensitive;
    if IsLeaf(n) {
      assert Positions(n, title)[..0] == [];
    } else {
      hide IsLeaf;
      SideAddsUp(n, n.before);
      SideAddsUp(n, n.after);
      BelowKeeps(n, |Steps(n)|);
      assert Steps(n)[..|Steps(n)|] == Steps(n);
    }
  }

  /** A list in place of a text: the text is neither listed nor counted. */
  lemma AListHidesAText(s: string)
    ensures Positions(Node(Some(Str(s)), Some(Arr([])), None, None, None, None), "resource") == []
    ensures !MatchingShape(Node(Some(Str(s)), Some(Arr([])), None, None, None, None))
  {
    var n := Node(Some(Str(s)), Some(Arr([])), None, None, None, None);
    assert Steps(n) == [];
  }
}
