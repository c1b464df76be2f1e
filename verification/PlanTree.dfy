/** The values of a structured plan, and where two of them are compared: the leaf positions of both taken together. */
module PlanTree {
  import opened Wrappers

  import opened Ints

  datatype Json = Null | Bool(on: bool) | Num(n: real) | Str(s: string) |
      Arr(items: seq<Json>) | Obj(fields: seq<Field>)

  datatype Field = Field(name: string, value: Json)

  /** A value, or nothing where the plan has none. */
  type Val = Option<Json>

  function SizeOf(j: Json): (n: nat)
    ensures n >= 1
  {
    match j
    case Arr(items) => 1 + SizeOfItems(items)
    case Obj(fields) => 1 + SizeOfFields(fields)
    case _ => 1
  }

  function SizeOfItems(items: seq<Json>): nat {
    if items == [] then 0 else SizeOf(items[0]) + SizeOfItems(items[1..])
  }

  function SizeOfFields(fields: seq<Field>): nat {
    if fields == [] then 0 else SizeOf(fields[0].value) + SizeOfFields(fields[1..])
  }

  function Size(v: Val): nat { if v.None? then 0 else SizeOf(v.value) }

  predicate IsArr(v: Val) { v.Some? && v.value.Arr? }

  predicate IsObj(v: Val) { v.Some? && v.value.Obj? }

  predicate IsPrimitive(v: Val) { !IsArr(v) && !IsObj(v) }

  predicate IsTrue(v: Val) { v == Some(Bool(true)) }

  function Items(v: Val): seq<Json> { if IsArr(v) then v.value.items else [] }

  function Fields(v: Val): seq<Field> { if IsObj(v) then v.value.fields else [] }

  function ItemAt(items: seq<Json>, i: nat): Val { if i < |items| then Some(items[i]) else None }

  function Lookup(fields: seq<Field>, name: string): Val {
    if fields == [] then None
    else if fields[0].name == name then Some(fields[0].value)
    else Lookup(fields[1..], name)
  }

  function NamesOf(fields: seq<Field>): (names: seq<string>)
    ensures |names| == |fields|
  {
    seq(|fields|, i requires 0 <= i < |fields| => fields[i].name)
  }

  /** The two values compared and what the plan says about them. */
  datatype Node = Node(before: Val, after: Val, unknown: Val, beforeSensitive: Val,
      afterSensitive: Val, changedSensitive: Val)

  /** Payloads without `changedSensitive` fall back to comparing the values themselves. */
  predicate RendersSensitive(n: Node) {
    || IsTrue(n.changedSensitive)
    || (&& (n.changedSensitive.None? || n.changedSensitive == Some(Null))
        && (IsTrue(n.beforeSensitive) || IsTrue(n.afterSensitive))
        && n.before != n.after)
  }

  predicate IsArrayPair(n: Node) { IsArr(n.before) || IsArr(n.after) }

  predicate IsLeaf(n: Node) {
    || RendersSensitive(n)
    || IsTrue(n.unknown)
    || (!IsArrayPair(n) && (IsPrimitive(n.before) || IsPrimitive(n.after)))
  }

  /** A leaf that is listed; the others are only counted. */
  predicate IsShown(n: Node) {
    RendersSensitive(n) || IsTrue(n.unknown) || n.before != n.after
  }

  datatype Kind = Added | Removed | Changed | Unknown | Sensitive

  function KindOf(n: Node): Kind {
    if RendersSensitive(n) then Sensitive
    else if IsTrue(n.unknown) then Unknown
    else if n.before.None? then Added
    else if n.after.None? then Removed
    else Changed
  }

  // ---- Names of collection items ----

  const IDENTITY_KEYS := ["name", "id", "key", "address", "resourceName", "resourceType"]

  function ItemLabel(i: nat): string { "[" + Digits(i) + "]" }

  predicate IsWhite(c: char) {
    c in " \t\n\r\U{b}\U{c}\U{a0}\U{1680}\U{2028}\U{2029}\U{202f}\U{205f}\U{3000}\U{feff}" ||
        '\U{2000}' <= c <= '\U{200a}'
  }

  predicate NamesSomething(v: Val) {
    v.Some? && v.value.Str? && exists k :: 0 <= k < |v.value.s| && !IsWhite(v.value.s[k])
  }

  /** The first of the keys under which a record holds a text that is not blank. */
  function NamingKey(fields: seq<Field>, keys: seq<string>): Option<string> {
    if keys == [] then None
    else if NamesSomething(Lookup(fields, keys[0])) then Some(keys[0])
    else NamingKey(fields, keys[1..])
  }

  function TextUnder(fields: seq<Field>, key: string): string {
    match Lookup(fields, key)
    case Some(Str(s)) => s
    case _ => ""
  }

  function Identity(j: Json, i: nat): string {
    if j.Obj? && NamingKey(j.fields, IDENTITY_KEYS).Some? then
      var key := NamingKey(j.fields, IDENTITY_KEYS).value;
      key + ":" + TextUnder(j.fields, key)
    else "index:" + Digits(i)
  }

  function Identities(items: seq<Json>): (ids: seq<string>)
    ensures |ids| == |items|
  {
    seq(|items|, i requires 0 <= i < |items| => Identity(items[i], i))
  }

  predicate Distinct<T(==)>(s: seq<T>) {
    forall i, j :: 0 <= i < j < |s| ==> s[i] != s[j]
  }

  predicate AllRecords(items: seq<Json>) {
    forall i :: 0 <= i < |items| ==> items[i].Obj?
  }

  /** Items are matched by identity only if every item on both sides is a record and no identity repeats on a side. */
  predicate MatchesByIdentity(n: Node) {
    && AllRecords(Items(n.before)) && AllRecords(Items(n.after))
    && Distinct(Identities(Items(n.before))) && Distinct(Identities(Items(n.after)))
  }

  function IndexOf(ids: seq<string>, id: string): (k: Option<nat>)
    ensures k.Some? ==> k.value < |ids| && ids[k.value] == id
    ensures k.None? ==> id !in ids
  {
    if ids == [] then None
    else if ids[|ids| - 1] == id then Some(|ids| - 1)
    else IndexOf(ids[..|ids| - 1], id)
  }

  function ItemOf(items: seq<Json>, k: Option<nat>): Val {
    if k.Some? then ItemAt(items, k.value) else None
  }

  function Dedup(names: seq<string>): seq<string> {
    if names == [] then []
    else
      var init := Dedup(names[..|names| - 1]);
      if names[|names| - 1] in init then init else init + [names[|names| - 1]]
  }

  predicate Before(a: string, b: string) {
    b != "" && (a == "" || a[0] < b[0] || (a[0] == b[0] && Before(a[1..], b[1..])))
  }

  function InsertName(name: string, names: seq<string>): seq<string> {
    if names == [] || !Before(names[0], name) then [name] + names else [names[0]] + InsertName(name, names[1..])
  }

  function SortNames(names: seq<string>): seq<string> {
    if names == [] then [] else InsertName(names[0], SortNames(names[1..]))
  }

  // ---- Positions ----

  datatype Step = AtIndex(index: nat) | AtIdentity(id: string) | AtKey(name: string)

  function Max(a: nat, b: nat): nat { if a < b then b else a }

  function ByIndex(n: nat): seq<Step> { seq(n, i requires 0 <= i < n => AtIndex(i)) }

  function ByIdentity(ids: seq<string>): seq<Step> { seq(|ids|, i requires 0 <= i < |ids| => AtIdentity(ids[i])) }

  function ByKey(names: seq<string>): seq<Step> { seq(|names|, i requires 0 <= i < |names| => AtKey(names[i])) }

  function OrderedIdentities(n: Node): seq<string> {
    Dedup(Dedup(Identities(Items(n.before))) + Dedup(Identities(Items(n.after))))
  }

  function OrderedKeys(n: Node): seq<string> {
    SortNames(Dedup(NamesOf(Fields(n.before)) + NamesOf(Fields(n.after))))
  }

  /** Where one can go from a pair that is not a leaf, in the order of the rows. */
  function Steps(n: Node): seq<Step> {
    if IsArrayPair(n) then
      if MatchesByIdentity(n) then ByIdentity(OrderedIdentities(n))
      else ByIndex(Max(|Items(n.before)|, |Items(n.after)|))
    else ByKey(OrderedKeys(n))
  }

  /** The pair one gets to. */
  function Down(n: Node, step: Step): Node {
    match step
    case AtIndex(i) =>
      Node(ItemAt(Items(n.before), i), ItemAt(Items(n.after), i), ItemAt(Items(n.unknown), i),
           ItemAt(Items(n.beforeSensitive), i), ItemAt(Items(n.afterSensitive), i),
               ItemAt(Items(n.changedSensitive), i))
    case AtIdentity(id) =>
      var before, after := Items(n.before), Items(n.after);
      var b, a := IndexOf(Identities(before), id), IndexOf(Identities(after), id);
      Node(ItemOf(before, b), ItemOf(after, a), ItemOf(Items(n.unknown), a),
           ItemOf(Items(n.beforeSensitive), b), ItemOf(Items(n.afterSensitive), a),
           ItemOf(Items(n.changedSensitive), if |after| > 0 then a else b))
    case AtKey(name) =>
      Node(Lookup(Fields(n.before), name), Lookup(Fields(n.after), name), Lookup(Fields(n.unknown), name),
           Lookup(Fields(n.beforeSensitive), name), Lookup(Fields(n.afterSensitive), name),
               Lookup(Fields(n.changedSensitive), name))
  }

  lemma {:induction false} ItemIsSmaller(items: seq<Json>, i: nat)
    requires i < |items|
    ensures SizeOf(items[i]) <= SizeOfItems(items)
  {
    if i > 0 {
      ItemIsSmaller(items[1..], i - 1);
    }
  }

  lemma {:induction false} FieldIsSmaller(fields: seq<Field>, name: string)
    ensures Size(Lookup(fields, name)) <= SizeOfFields(fields)
  {
    if fields != [] && fields[0].name != name {
      FieldIsSmaller(fields[1..], name);
    }
  }

  function Total(n: Node): nat { Size(n.before) + Size(n.after) }

  lemma SideShrinks(v: Val, i: nat, name: string)
    ensures Size(ItemAt(Items(v), i)) <= Size(v) && Size(Lookup(Fields(v), name)) <= Size(v)
    ensures v.Some? ==> Size(ItemAt(Items(v), i)) < Size(v) && Size(Lookup(Fields(v), name)) < Size(v)
  {
    if i < |Items(v)| {
      ItemIsSmaller(Items(v), i);
    }
    FieldIsSmaller(Fields(v), name);
  }

  /** Going down makes the two values together smaller, which is why comparing them ends. */
  lemma GoingDownShrinks(n: Node, step: Step)
    requires !IsLeaf(n)
    ensures Total(Down(n, step)) < Total(n)
  {
    hide RendersSensitive, MatchesByIdentity, IndexOf, Identities, Lookup, SizeOf;
    match step
    case AtIndex(i) =>
      SideShrinks(n.before, i, "");
      SideShrinks(n.after, i, "");
    case AtIdentity(id) =>
      var b, a := IndexOf(Identities(Items(n.before)), id), IndexOf(Identities(Items(n.after)), id);
      SideShrinks(n.before, if b.Some? then b.value else 0, "");
      SideShrinks(n.after, if a.Some? then a.value else 0, "");
    case AtKey(name) =>
      SideShrinks(n.before, 0, name);
      SideShrinks(n.after, 0, name);
  }

  datatype Spot = Spot(path: seq<Step>, title: string, node: Node)

  function StepLabel(step: Step, k: nat): string { if step.AtKey? then step.name else ItemLabel(k) }

  function Prefixed(step: Step, spots: seq<Spot>): (r: seq<Spot>)
    ensures |r| == |spots| && forall i :: 0 <= i < |r| ==> r[i] == spots[i].(path := [step] + spots[i].path)
  {
    seq(|spots|, i requires 0 <= i < |spots| => spots[i].(path := [step] + spots[i].path))
  }

  /** The leaf positions of the merged tree, in the order of the rows. */
  function Positions(n: Node, title: string): seq<Spot>
    decreases Total(n), 1, 0
  {
    if IsLeaf(n) then [Spot([], title, n)] else PositionsBelow(n, |Steps(n)|)
  }

  /** Those below the first `k` steps. */
  function PositionsBelow(n: Node, k: nat): seq<Spot>
    requires !IsLeaf(n) && k <= |Steps(n)|
    decreases Total(n), 0, k
  {
    if k == 0 then []
    else
      var step := Steps(n)[k - 1];
      GoingDownShrinks(n, step);
      PositionsBelow(n, k - 1) + Prefixed(step, Positions(Down(n, step), StepLabel(step, k - 1)))
  }

  /** A path leads to a leaf position if every step is one that can be taken and it ends at a leaf. */
  predicate LeadsToLeaf(n: Node, path: seq<Step>)
    decreases |path|
  {
    if path == [] then IsLeaf(n)
    else !IsLeaf(n) && path[0] in Steps(n) && LeadsToLeaf(Down(n, path[0]), path[1..])
  }

  /** The pair at the end of a path. */
  function Walk(n: Node, path: seq<Step>): Node
    decreases |path|
  {
    if path == [] then n else Walk(Down(n, path[0]), path[1..])
  }

  predicate HasPath(spots: seq<Spot>, path: seq<Step>) {
    exists i :: 0 <= i < |spots| && spots[i].path == path
  }

  // ---- Steps do not repeat ----

  lemma {:induction false} DedupKeepsNames(names: seq<string>)
    ensures Distinct(Dedup(names))
    ensures forall x :: x in Dedup(names) <==> x in names
  {
    if names != [] {
      DedupKeepsNames(names[..|names| - 1]);
      assert names == names[..|names| - 1] + [names[|names| - 1]];
    }
  }

  lemma {:induction false} InsertingKeepsNames(name: string, names: seq<string>)
    requires name !in names && Distinct(names)
    ensures Distinct(InsertName(name, names))
    ensures forall x :: x in InsertName(name, names) <==> x == name || x in names
  {
    hide Before;
    if names != [] && Before(names[0], name) {
      var rest := InsertName(name, names[1..]);
      InsertingKeepsNames(name, names[1..]);
      assert names == [names[0]] + names[1..];
      assert InsertName(name, names) == [names[0]] + rest;
      assert names[0] !in names[1..];
      assert names[0] !in rest;
    } else {
      assert InsertName(name, names) == [name] + names;
    }
  }

  lemma {:induction false} SortingKeepsNames(names: seq<string>)
    requires Distinct(names)
    ensures Distinct(SortNames(names))
    ensures forall x :: x in SortNames(names) <==> x in names
  {
    if names != [] {
      SortingKeepsNames(names[1..]);
      InsertingKeepsNames(names[0], SortNames(names[1..]));
      assert names == [names[0]] + names[1..];
    }
  }

  lemma StepsAreDistinct(n: Node)
    ensures Distinct(Steps(n))
  {
    hide IsArrayPair, MatchesByIdentity, Dedup, SortNames, Identities, NamesOf, Items, Fields;
    if IsArrayPair(n) {
      if MatchesByIdentity(n) {
        DedupKeepsNames(Dedup(Identities(Items(n.before))) + Dedup(Identities(Items(n.after))));
      }
    } else {
      DedupKeepsNames(NamesOf(Fields(n.before)) + NamesOf(Fields(n.after)));
      SortingKeepsNames(Dedup(NamesOf(Fields(n.before)) + NamesOf(Fields(n.after))));
    }
  }

  // ---- Every path once ----

  lemma {:induction false} BelowHasPaths(n: Node, k: nat, path: seq<Step>)
    requires !IsLeaf(n) && k <= |Steps(n)|
    ensures HasPath(PositionsBelow(n, k), path)
            <==> path != [] && exists j :: 0 <= j < k && Steps(n)[j] == path[0]
                                           && HasPath(Positions(Down(n, path[0]), StepLabel(path[0], j)), path[1..])
    decreases Total(n), 0, k
  {
    hide IsLeaf, Steps, Down, StepLabel, Positions;
    if k > 0 {
      BelowHasPaths(n, k - 1, path);
      var step := Steps(n)[k - 1];
      var first, last := PositionsBelow(n, k - 1), Positions(Down(n, step), StepLabel(step, k - 1));
      var more := Prefixed(step, last);
      JoinedPaths(first, more, path);
      PrefixedPaths(step, last, path);
    }
  }

  lemma JoinedPaths(a: seq<Spot>, b: seq<Spot>, path: seq<Step>)
    ensures HasPath(a + b, path) <==> HasPath(a, path) || HasPath(b, path)
  {
    if HasPath(a, path) {
      var i :| 0 <= i < |a| && a[i].path == path;
      assert (a + b)[i].path == path;
    }
    if HasPath(b, path) {
      var i :| 0 <= i < |b| && b[i].path == path;
      assert (a + b)[|a| + i].path == path;
    }
  }

  lemma PrefixedPaths(step: Step, spots: seq<Spot>, path: seq<Step>)
    ensures HasPath(Prefixed(step, spots), path) <==> path != [] && path[0] == step && HasPath(spots, path[1..])
  {
    var more := Prefixed(step, spots);
    if path != [] && path[0] == step && HasPath(spots, path[1..]) {
      var i :| 0 <= i < |spots| && spots[i].path == path[1..];
      assert more[i].path == path;
    }
    if HasPath(more, path) {
      var i :| 0 <= i < |more| && more[i].path == path;
      assert spots[i].path == path[1..];
    }
  }

  /** The positions are exactly the paths that lead to a leaf. */
  lemma {:induction false} PositionsAreThePaths(n: Node, title: string, path: seq<Step>)
    ensures HasPath(Positions(n, title), path) <==> LeadsToLeaf(n, path)
    decreases |path|
  {
    hide Steps, Down, StepLabel, PositionsBelow, IsLeaf;
    if IsLeaf(n) {
      assert Positions(n, title)[0].path == [];
    } else {
      BelowHasPaths(n, |Steps(n)|, path);
      if path != [] {
        forall j | 0 <= j < |Steps(n)| && Steps(n)[j] == path[0]
          ensures HasPath(Positions(Down(n, path[0]), StepLabel(path[0], j)), path[1..]) <==>
              LeadsToLeaf(Down(n, path[0]), path[1..])
        {
          PositionsAreThePaths(Down(n, path[0]), StepLabel(path[0], j), path[1..]);
        }
      }
    }
  }

  predicate PathsDiffer(spots: seq<Spot>) {
    forall i, j :: 0 <= i < j < |spots| ==> spots[i].path != spots[j].path
  }

  predicate EndWhereTheyLead(n: Node, spots: seq<Spot>) {
    forall i :: 0 <= i < |spots| ==> spots[i].node == Walk(n, spots[i].path)
  }

  lemma PrefixedDiffer(n: Node, step: Step, spots: seq<Spot>)
    requires PathsDiffer(spots) && EndWhereTheyLead(Down(n, step), spots)
    ensures PathsDiffer(Prefixed(step, spots)) && EndWhereTheyLead(n, Prefixed(step, spots))
  {
    hide Down;
    var more := Prefixed(step, spots);
    forall i | 0 <= i < |more| ensures more[i].path[1..] == spots[i].path &&
        more[i].path != [] && more[i].path[0] == step {}
    forall i, j | 0 <= i < j < |more| ensures more[i].path != more[j].path {
      assert more[i].path[1..] != more[j].path[1..];
    }
  }

  lemma {:induction false} BelowDiffer(n: Node, k: nat)
    requires !IsLeaf(n) && k <= |Steps(n)|
    ensures PathsDiffer(PositionsBelow(n, k)) && EndWhereTheyLead(n, PositionsBelow(n, k))
    ensures forall i :: 0 <= i < |PositionsBelow(n, k)| ==>
              PositionsBelow(n, k)[i].path != [] && PositionsBelow(n, k)[i].path[0] in Steps(n)[..k]
    decreases Total(n), 0, k
  {
    hide Steps, Down, StepLabel, IsLeaf, Walk, Total;
    if k > 0 {
      BelowDiffer(n, k - 1);
      var step := Steps(n)[k - 1];
      GoingDownShrinks(n, step);
      var last := Positions(Down(n, step), StepLabel(step, k - 1));
      PositionsDiffer(Down(n, step), StepLabel(step, k - 1));
      PrefixedDiffer(n, step, last);
      StepsAreDistinct(n);
      assert Steps(n)[..k] == Steps(n)[..k - 1] + [step];
      assert step !in Steps(n)[..k - 1];
    }
  }

  /** No path leads to two positions, and each position holds the pair its path leads to. */
  lemma {:induction false} PositionsDiffer(n: Node, title: string)
    ensures PathsDiffer(Positions(n, title)) && EndWhereTheyLead(n, Positions(n, title))
    decreases Total(n), 1, 0
  {
    hide Steps, PositionsBelow;
    if !IsLeaf(n) {
      BelowDiffer(n, |Steps(n)|);
    }
  }
}
