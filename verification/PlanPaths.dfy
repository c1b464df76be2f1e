/** Where two values of a plan are compared, spelled out on the values: which steps there are below a pair, in which
    order they come, and what each of them leads to. */
module PlanPaths {
  import opened Wrappers

  import opened Ints
  import opened PlanTree

  // ---- Values ----

  function ListOf(v: Val): seq<Json> { match v case Some(Arr(items)) => items case _ => [] }

  function RecordOf(v: Val): seq<Field> { match v case Some(Obj(fields)) => fields case _ => [] }

  /** The plan says that the values are not to be shown; without a word of its own on the change, that one of them is
      not and that they differ. */
  predicate MustHide(n: Node) {
    || n.changedSensitive == Some(Bool(true))
    || (&& (n.changedSensitive == None || n.changedSensitive == Some(Null))
        && (n.beforeSensitive == Some(Bool(true)) || n.afterSensitive == Some(Bool(true)))
        && n.before != n.after)
  }

  predicate ComparesLists(n: Node) { (n.before.Some? && n.before.value.Arr?) || (n.after.Some? && n.after.value.Arr?) }

  /** Lists are never compared as a whole, records only with something that is neither. */
  predicate EndsHere(n: Node) {
    || MustHide(n) || n.unknown == Some(Bool(true))
    || (!ComparesLists(n) && !(n.before.Some? && n.before.value.Obj? && n.after.Some? && n.after.value.Obj?))
  }

  // ---- What an item is called ----

  const NAMING := ["name", "id", "key", "address", "resourceName", "resourceType"]

  predicate IsBlank(s: string) {
    forall k :: 0 <= k < |s| ==>
      || s[k] in {' ', '\t', '\n', '\r', '\U{b}', '\U{c}', '\U{a0}', '\U{1680}', '\U{2028}', '\U{2029}', '\U{202f}'}
      || s[k] in {'\U{205f}', '\U{3000}', '\U{feff}'}
      || '\U{2000}' <= s[k] <= '\U{200a}'
  }

  /** The first field of that name is the value. */
  predicate IsFirstField(fields: seq<Field>, name: string, value: Json) {
    exists k ::
      0 <= k < |fields| && fields[k] == Field(name, value) && forall j :: 0 <= j < k ==> fields[j].name != name
  }

  predicate HoldsText(fields: seq<Field>, key: string, text: string) {
    IsFirstField(fields, key, Str(text)) && !IsBlank(text)
  }

  /** The first of the naming keys that holds a text. */
  ghost predicate IsNamedBy(fields: seq<Field>, m: nat, text: string) {
    m < |NAMING| && HoldsText(fields, NAMING[m], text) && forall j, t :: 0 <= j < m ==> !HoldsText(fields, NAMING[j], t)
  }

  ghost predicate IsIdentity(item: Json, i: nat, id: string) {
    || (item.Obj? && exists m: nat, text :: IsNamedBy(item.fields, m, text) && id == NAMING[m] + ":" + text)
    || ((item.Obj? ==> forall m: nat, text :: !IsNamedBy(item.fields, m, text)) && id == "index:" + Digits(i))
  }

  /** The title of the rows below an item: its place, and the name of what it becomes or else of what it was. */
  ghost predicate IsItemTitle(title: string, before: Val, after: Val, k: nat) {
    IsTitleOf(title, if after.Some? && after.value.Obj? then after.value.fields else RecordOf(before), k)
  }

  ghost predicate IsTitleOf(title: string, fields: seq<Field>, k: nat) {
    || (exists m: nat, text :: IsNamedBy(fields, m, text) && title == "[" + Digits(k) + "]" + " " + text)
    || ((forall m: nat, text :: !IsNamedBy(fields, m, text)) && title == "[" + Digits(k) + "]")
  }

  // ---- Steps ----

  /** Every item is a record and no two have the same identity. */
  ghost predicate AreToldApart(items: seq<Json>) {
    && (forall i :: 0 <= i < |items| ==> items[i].Obj?)
    && forall i: nat, j: nat, id :: i < j < |items| ==> !(IsIdentity(items[i], i, id) && IsIdentity(items[j], j, id))
  }

  /** The place of an identity, if there is one. */
  ghost predicate IsPlace(items: seq<Json>, id: string, p: Option<nat>) {
    match p
    case Some(k) => k < |items| && IsIdentity(items[k], k, id)
    case None => forall k: nat :: k < |items| ==> !IsIdentity(items[k], k, id)
  }

  ghost predicate CanGo(n: Node, step: Step) {
    var before, after := ListOf(n.before), ListOf(n.after);
    match step
    case AtIdentity(id) =>
      && ComparesLists(n) && AreToldApart(before) && AreToldApart(after)
      && !(IsPlace(before, id, None) && IsPlace(after, id, None))
    case AtIndex(i) =>
      ComparesLists(n) && !(AreToldApart(before) && AreToldApart(after)) && (i < |before| || i < |after|)
    case AtKey(name) =>
      && !ComparesLists(n)
      && ((exists k :: 0 <= k < |RecordOf(n.before)| && RecordOf(n.before)[k].name == name)
          || (exists k :: 0 <= k < |RecordOf(n.after)| && RecordOf(n.after)[k].name == name))
  }

  predicate ComesFirst(a: string, b: string) {
    exists k :: 0 <= k <= |a| && k <= |b| && a[..k] == b[..k]
                && ((k == |a| && k < |b|) || (k < |a| && k < |b| && a[k] < b[k]))
  }

  /** Items of the old list come in its order, then those that are new in the order of the new one. */
  predicate IsEarlier(p: Option<nat>, q: Option<nat>, newP: Option<nat>, newQ: Option<nat>) {
    if p.Some? then q.None? || p.value < q.value
    else q.None? && newP.Some? && newQ.Some? && newP.value < newQ.value
  }

  ghost predicate Precedes(n: Node, s: Step, t: Step) {
    match s
    case AtIndex(i) => t.AtIndex? && i < t.index
    case AtKey(a) => t.AtKey? && ComesFirst(a, t.name)
    case AtIdentity(a) =>
      t.AtIdentity? && exists p, q, newP, newQ ::
        && IsPlace(ListOf(n.before), a, p) && IsPlace(ListOf(n.before), t.id, q)
        && IsPlace(ListOf(n.after), a, newP) && IsPlace(ListOf(n.after), t.id, newQ)
        && IsEarlier(p, q, newP, newQ)
  }

  /** All steps there are, in order. */
  ghost predicate AreSteps(n: Node, steps: seq<Step>) {
    && (forall s :: s in steps <==> CanGo(n, s))
    && forall i, j :: 0 <= i < j < |steps| ==> Precedes(n, steps[i], steps[j])
  }

  // ---- What a step leads to ----

  predicate IsItemAt(part: Val, whole: Val, p: Option<nat>) {
    part == if p.Some? && p.value < |ListOf(whole)| then Some(ListOf(whole)[p.value]) else None
  }

  predicate IsFieldOf(part: Val, whole: Val, name: string) {
    match part
    case Some(value) => IsFirstField(RecordOf(whole), name, value)
    case None => forall k :: 0 <= k < |RecordOf(whole)| ==> RecordOf(whole)[k].name != name
  }

  /** What the plan says of the old item stands at its old place and what it says of the new one at its new place; what
      it says of the change goes by the new list if that has items. */
  predicate IsItemPair(n: Node, child: Node, p: Option<nat>, newP: Option<nat>) {
    && IsItemAt(child.before, n.before, p) && IsItemAt(child.beforeSensitive, n.beforeSensitive, p)
    && IsItemAt(child.after, n.after, newP) && IsItemAt(child.afterSensitive, n.afterSensitive, newP)
    && IsItemAt(child.unknown, n.unknown, newP)
    && IsItemAt(child.changedSensitive, n.changedSensitive, if ListOf(n.after) != [] then newP else p)
  }

  ghost predicate GoesTo(n: Node, step: Step, child: Node) {
    match step
    case AtIndex(i) => IsItemPair(n, child, Some(i), Some(i))
    case AtIdentity(id) =>
      exists p, newP ::
        IsPlace(ListOf(n.before), id, p) && IsPlace(ListOf(n.after), id, newP) && IsItemPair(n, child, p, newP)
    case AtKey(name) =>
      && IsFieldOf(child.before, n.before, name) && IsFieldOf(child.after, n.after, name)
      && IsFieldOf(child.unknown, n.unknown, name) && IsFieldOf(child.changedSensitive, n.changedSensitive, name)
      && IsFieldOf(child.beforeSensitive, n.beforeSensitive, name)
      && IsFieldOf(child.afterSensitive, n.afterSensitive, name)
  }

  function LabelOf(step: Step, k: nat): string { if step.AtKey? then step.name else "[" + Digits(k) + "]" }

  // ---- The functions agree ----

  lemma LeavesAreEnds(n: Node)
    ensures IsLeaf(n) <==> EndsHere(n)
  {
  }

  lemma {:induction false} FirstFieldIsFound(fields: seq<Field>, name: string)
    ensures match Lookup(fields, name)
            case Some(value) => IsFirstField(fields, name, value)
            case None => forall k :: 0 <= k < |fields| ==> fields[k].name != name
  {
    if fields != [] && fields[0].name != name {
      FirstFieldIsFound(fields[1..], name);
      var rest := Lookup(fields[1..], name);
      if rest.Some? {
        var k :| 0 <= k < |fields[1..]| && fields[1..][k] == Field(name, rest.value)
                 && forall j :: 0 <= j < k ==> fields[1..][j].name != name;
        assert fields[k + 1] == Field(name, rest.value);
        forall j | 0 <= j < k + 1 ensures fields[j].name != name {
          assert j > 0 ==> fields[1..][j - 1] == fields[j];
        }
      } else {
        forall k | 0 <= k < |fields| ensures fields[k].name != name {
          assert k > 0 ==> fields[1..][k - 1] == fields[k];
        }
      }
    }
  }

  lemma FieldIsFound(fields: seq<Field>, name: string, value: Json)
    ensures Lookup(fields, name) == Some(value) <==> IsFirstField(fields, name, value)
  {
    FirstFieldIsFound(fields, name);
  }

  lemma TextIsHeld(fields: seq<Field>, key: string, text: string)
    ensures NamesSomething(Lookup(fields, key)) && TextUnder(fields, key) == text <==> HoldsText(fields, key, text)
  {
    FieldIsFound(fields, key, Str(text));
    if NamesSomething(Lookup(fields, key)) {
      FieldIsFound(fields, key, Lookup(fields, key).value);
    }
    hide IsFirstField, Lookup;
  }

  lemma {:induction false} FirstKeyNames(fields: seq<Field>, keys: seq<string>)
    ensures match NamingKey(fields, keys)
            case Some(key) =>
              exists m: nat :: m < |keys| && keys[m] == key && NamesSomething(Lookup(fields, key))
                          && forall j :: 0 <= j < m ==> !NamesSomething(Lookup(fields, keys[j]))
            case None => forall j :: 0 <= j < |keys| ==> !NamesSomething(Lookup(fields, keys[j]))
  {
    hide NamesSomething, Lookup;
    if keys != [] && !NamesSomething(Lookup(fields, keys[0])) {
      FirstKeyNames(fields, keys[1..]);
      var rest := NamingKey(fields, keys[1..]);
      if rest.Some? {
        var m: nat :| m < |keys[1..]| && keys[1..][m] == rest.value
                 && forall j :: 0 <= j < m ==> !NamesSomething(Lookup(fields, keys[1..][j]));
        assert keys[m + 1] == rest.value;
        forall j | 0 <= j < m + 1 ensures !NamesSomething(Lookup(fields, keys[j])) {
          assert j > 0 ==> keys[1..][j - 1] == keys[j];
        }
      } else {
        forall j | 0 <= j < |keys| ensures !NamesSomething(Lookup(fields, keys[j])) {
          assert j > 0 ==> keys[1..][j - 1] == keys[j];
        }
      }
    }
  }

  /** A record's name is the one its naming key gives. */
  lemma NamesAreFound(fields: seq<Field>)
    ensures var key := NamingKey(fields, IDENTITY_KEYS);
            if key.None? then forall m: nat, text :: !IsNamedBy(fields, m, text)
            else exists m: nat :: IsNamedBy(fields, m, TextUnder(fields, key.value)) && NAMING[m] == key.value
    ensures forall m: nat, text :: IsNamedBy(fields, m, text) ==>
              var key := NamingKey(fields, IDENTITY_KEYS);
              key.Some? && key.value == NAMING[m] && TextUnder(fields, key.value) == text
  {
    FirstKeyNames(fields, IDENTITY_KEYS);
    assert IDENTITY_KEYS == NAMING;
    forall key, text
      ensures NamesSomething(Lookup(fields, key)) && TextUnder(fields, key) == text <==> HoldsText(fields, key, text)
    {
      TextIsHeld(fields, key, text);
    }
    hide HoldsText, NamesSomething, Lookup, TextUnder, NamingKey;
    var key := NamingKey(fields, IDENTITY_KEYS);
    if key.Some? {
      var m: nat :| m < |NAMING| && NAMING[m] == key.value && NamesSomething(Lookup(fields, key.value))
               && forall j :: 0 <= j < m ==> !NamesSomething(Lookup(fields, NAMING[j]));
      assert IsNamedBy(fields, m, TextUnder(fields, key.value));
      forall i: nat, text | IsNamedBy(fields, i, text) ensures i == m && text == TextUnder(fields, key.value) {
        assert NamesSomething(Lookup(fields, NAMING[i])) && HoldsText(fields, NAMING[m], TextUnder(fields, NAMING[m]));
      }
    } else {
      forall m: nat, text ensures !IsNamedBy(fields, m, text) {
        if m < |NAMING| {
          assert !NamesSomething(Lookup(fields, NAMING[m]));
        }
      }
    }
  }

  lemma NameIsFound(fields: seq<Field>) returns (m: nat)
    requires NamingKey(fields, IDENTITY_KEYS).Some?
    ensures IsNamedBy(fields, m, TextUnder(fields, NamingKey(fields, IDENTITY_KEYS).value))
  {
    NamesAreFound(fields);
    hide IsNamedBy, NamingKey, TextUnder;
    m :| IsNamedBy(fields, m, TextUnder(fields, NamingKey(fields, IDENTITY_KEYS).value));
  }

  lemma NoNameIsFound(fields: seq<Field>)
    requires NamingKey(fields, IDENTITY_KEYS).None?
    ensures forall m: nat, text :: !IsNamedBy(fields, m, text)
  {
    NamesAreFound(fields);
  }

  lemma IdentitiesAreNames(item: Json, i: nat, id: string)
    ensures Identity(item, i) == id <==> IsIdentity(item, i, id)
  {
    if item.Obj? {
      NamesAreFound(item.fields);
    }
    hide IsNamedBy, NamingKey, TextUnder, NAMING, IDENTITY_KEYS;
  }

  lemma IdentityAt(items: seq<Json>, i: nat, id: string)
    requires i < |items|
    ensures Identities(items)[i] == id <==> IsIdentity(items[i], i, id)
  {
    IdentitiesAreNames(items[i], i, id);
    hide Identity, IsIdentity;
  }

  lemma ListsAreToldApart(items: seq<Json>)
    ensures AllRecords(items) && Distinct(Identities(items)) <==> AreToldApart(items)
  {
    hide Identity, IsIdentity, Identities;
    var ids := Identities(items);
    forall i: nat, id | i < |items| ensures ids[i] == id <==> IsIdentity(items[i], i, id) {
      IdentityAt(items, i, id);
    }
    forall i: nat, j: nat | i < j < |items|
      ensures ids[i] != ids[j] <==> forall id :: !(IsIdentity(items[i], i, id) && IsIdentity(items[j], j, id))
    {
      assert IsIdentity(items[i], i, ids[i]) && IsIdentity(items[j], j, ids[j]);
    }
  }

  lemma PlacesAreFound(items: seq<Json>, id: string)
    ensures IsPlace(items, id, IndexOf(Identities(items), id))
    ensures id in Identities(items) <==> !IsPlace(items, id, None)
  {
    hide Identity, IsIdentity, Identities, IndexOf;
    var ids := Identities(items);
    forall i: nat | i < |items| ensures ids[i] == id <==> IsIdentity(items[i], i, id) {
      IdentityAt(items, i, id);
    }
    if id in ids {
      var k :| 0 <= k < |ids| && ids[k] == id;
    }
  }

  lemma MatchingIsToldApart(n: Node)
    ensures MatchesByIdentity(n) <==> AreToldApart(ListOf(n.before)) && AreToldApart(ListOf(n.after))
  {
    ListsAreToldApart(Items(n.before));
    ListsAreToldApart(Items(n.after));
    hide AreToldApart, AllRecords, Distinct, Identities;
  }

  lemma NamesAreThere(fields: seq<Field>, name: string)
    ensures name in NamesOf(fields) <==> exists k :: 0 <= k < |fields| && fields[k].name == name
  {
    var names := NamesOf(fields);
    if k :| 0 <= k < |fields| && fields[k].name == name {
      assert names[k] == name;
    }
  }

  lemma InByIdentity(ids: seq<string>, s: Step)
    ensures s in ByIdentity(ids) <==> s.AtIdentity? && s.id in ids
  {
    if s.AtIdentity? && s.id in ids {
      var k :| 0 <= k < |ids| && ids[k] == s.id;
      assert ByIdentity(ids)[k] == s;
    }
  }

  lemma InByIndex(n: nat, s: Step)
    ensures s in ByIndex(n) <==> s.AtIndex? && s.index < n
  {
    if s.AtIndex? && s.index < n {
      assert ByIndex(n)[s.index] == s;
    }
  }

  lemma InByKey(names: seq<string>, s: Step)
    ensures s in ByKey(names) <==> s.AtKey? && s.name in names
  {
    if s.AtKey? && s.name in names {
      var k :| 0 <= k < |names| && names[k] == s.name;
      assert ByKey(names)[k] == s;
    }
  }

  lemma StepsAreThere(n: Node, s: Step)
    requires !IsLeaf(n)
    ensures s in Steps(n) <==> CanGo(n, s)
  {
    MatchingIsToldApart(n);
    hide IsLeaf, MatchesByIdentity, AreToldApart, IsPlace, Identities, NamesOf, Dedup, SortNames;
    if IsArrayPair(n) {
      if MatchesByIdentity(n) {
        var before, after := Identities(Items(n.before)), Identities(Items(n.after));
        DedupKeepsNames(before);
        DedupKeepsNames(after);
        DedupKeepsNames(Dedup(before) + Dedup(after));
        if s.AtIdentity? {
          PlacesAreFound(Items(n.before), s.id);
          PlacesAreFound(Items(n.after), s.id);
        }
        InByIdentity(OrderedIdentities(n), s);
      } else {
        InByIndex(Max(|Items(n.before)|, |Items(n.after)|), s);
      }
    } else {
      var all := NamesOf(Fields(n.before)) + NamesOf(Fields(n.after));
      assert RecordOf(n.before) == Fields(n.before) && RecordOf(n.after) == Fields(n.after);
      DedupKeepsNames(all);
      SortingKeepsNames(Dedup(all));
      if s.AtKey? {
        NamesAreThere(Fields(n.before), s.name);
        NamesAreThere(Fields(n.after), s.name);
      }
      InByKey(OrderedKeys(n), s);
    }
  }

  // ---- Their order ----

  lemma {:induction false} BeforeMeansFirst(a: string, b: string)
    ensures Before(a, b) <==> ComesFirst(a, b)
  {
    forall k | 0 < k <= |a| && k <= |b| && a[..k] == b[..k] ensures a[0] == b[0] {
      assert a[..k][0] == a[0] && b[..k][0] == b[0];
    }
    if a != "" && b != "" && a[0] == b[0] {
      BeforeMeansFirst(a[1..], b[1..]);
      assert forall k :: 0 < k <= |a| && k <= |b| ==>
          a[..k] == [a[0]] + a[1..][..k - 1] && b[..k] == [b[0]] + b[1..][..k - 1];
      if ComesFirst(a[1..], b[1..]) {
        var k :| 0 <= k <= |a[1..]| && k <= |b[1..]| && a[1..][..k] == b[1..][..k]
                 && ((k == |a[1..]| && k < |b[1..]|) || (k < |a[1..]| && k < |b[1..]| && a[1..][k] < b[1..][k]));
        assert a[..k + 1] == b[..k + 1];
      }
      if ComesFirst(a, b) {
        var k :| 0 <= k <= |a| && k <= |b| && a[..k] == b[..k]
                 && ((k == |a| && k < |b|) || (k < |a| && k < |b| && a[k] < b[k]));
        assert k > 0;
        assert a[1..][..k - 1] == a[..k][1..] == b[..k][1..] == b[1..][..k - 1];
      }
    } else if Before(a, b) {
      assert a[..0] == b[..0];
    }
  }

  lemma {:induction false} NamesAreTotal(a: string, b: string)
    ensures a == b || Before(a, b) || Before(b, a)
  {
    if a != "" && b != "" && a[0] == b[0] {
      NamesAreTotal(a[1..], b[1..]);
      assert a == [a[0]] + a[1..] && b == [b[0]] + b[1..];
    }
  }

  lemma {:induction false} NamesChain(a: string, b: string, c: string)
    requires Before(a, b) && Before(b, c)
    ensures Before(a, c)
  {
    if a != "" && a[0] == b[0] && b[0] == c[0] {
      NamesChain(a[1..], b[1..], c[1..]);
    }
  }

  predicate IsAscending(names: seq<string>) { forall i, j :: 0 <= i < j < |names| ==> Before(names[i], names[j]) }

  lemma {:induction false} InsertingKeepsOrder(name: string, names: seq<string>)
    requires IsAscending(names) && name !in names
    ensures IsAscending(InsertName(name, names))
  {
    hide Before;
    if names != [] && Before(names[0], name) {
      InsertingKeepsOrder(name, names[1..]);
      InsertedNames(name, names[1..]);
      var rest := InsertName(name, names[1..]);
      assert forall x :: x in names[1..] ==> Before(names[0], x);
      assert forall x :: x in rest ==> Before(names[0], x);
      assert InsertName(name, names) == [names[0]] + rest;
    } else {
      assert InsertName(name, names) == [name] + names;
      forall x | x in names ensures Before(name, x) {
        NamesAreTotal(name, names[0]);
        var k :| 0 <= k < |names| && names[k] == x;
        if k > 0 {
          NamesChain(name, names[0], x);
        }
      }
    }
  }

  lemma {:induction false} InsertedNames(name: string, names: seq<string>)
    ensures forall x :: x in InsertName(name, names) <==> x == name || x in names
  {
    hide Before;
    if names != [] && Before(names[0], name) {
      InsertedNames(name, names[1..]);
      assert names == [names[0]] + names[1..];
    }
  }

  lemma {:induction false} SortedNamesAscend(names: seq<string>)
    requires Distinct(names)
    ensures IsAscending(SortNames(names))
  {
    if names != [] {
      SortedNamesAscend(names[1..]);
      SortingKeepsNames(names[1..]);
      hide Distinct, IsAscending;
      assert names[0] !in names[1..] by { FirstIsNoOther(names); }
      InsertingKeepsOrder(names[0], SortNames(names[1..]));
    }
  }

  lemma FirstIsNoOther(names: seq<string>)
    requires names != [] && Distinct(names)
    ensures names[0] !in names[1..] && Distinct(names[1..])
  {
  }

  /** What is left of a list keeps the order of first appearances. */
  lemma {:induction false} DedupKeepsOrder(names: seq<string>) returns (at: seq<nat>)
    ensures |at| == |Dedup(names)|
    ensures forall i :: 0 <= i < |at| ==> at[i] < |names| && names[at[i]] == Dedup(names)[i]
    ensures forall i, j :: 0 <= i < |at| && 0 <= j < at[i] ==> names[j] != Dedup(names)[i]
    ensures forall i, j :: 0 <= i < j < |at| ==> at[i] < at[j]
  {
    at := [];
    if names != [] {
      var n := |names| - 1;
      var first := DedupKeepsOrder(names[..n]);
      var order := Dedup(names[..n]);
      DedupKeepsNames(names[..n]);
      assert forall i :: 0 <= i < |first| ==> names[first[i]] == order[i];
      assert forall i, j :: 0 <= i < |first| && 0 <= j < first[i] ==> names[..n][j] == names[j] != order[i];
      at := first;
      if names[n] !in order {
        at := first + [n];
        assert names[n] !in names[..n];
        hide Dedup;
        forall j | 0 <= j < n ensures names[j] != names[n] {
          assert names[..n][j] == names[j];
        }
        assert order + [names[n]] == Dedup(names) by { DedupOneMore(names); }
      } else {
        assert order == Dedup(names) by { DedupOneMore(names); }
      }
    }
  }

  lemma DedupOneMore(names: seq<string>)
    requires names != []
    ensures var order := Dedup(names[..|names| - 1]);
            Dedup(names) == if names[|names| - 1] in order then order else order + [names[|names| - 1]]
  {
  }

  lemma IdentitiesInOrder(n: Node, i: nat, j: nat)
    requires MatchesByIdentity(n) && i < j < |OrderedIdentities(n)|
    ensures Precedes(n, AtIdentity(OrderedIdentities(n)[i]), AtIdentity(OrderedIdentities(n)[j]))
  {
    var before, after := Identities(Items(n.before)), Identities(Items(n.after));
    assert Distinct(before) && Distinct(after);
    assert OrderedIdentities(n) == Dedup(Dedup(before) + Dedup(after));
    DistinctStay(before);
    DistinctStay(after);
    hide *;
    var a, b := OrderedIdentities(n)[i], OrderedIdentities(n)[j];
    FirstPlaces(before, after, i, j);
    PlacesAreFound(Items(n.before), a);
    PlacesAreFound(Items(n.before), b);
    PlacesAreFound(Items(n.after), a);
    PlacesAreFound(Items(n.after), b);
    PlacesDecide(n, a, b, IndexOf(before, a), IndexOf(before, b), IndexOf(after, a), IndexOf(after, b));
  }

  lemma PlacesDecide(n: Node, a: string, b: string, p: Option<nat>, q: Option<nat>, newP: Option<nat>,
                     newQ: Option<nat>)
    requires IsPlace(Items(n.before), a, p) && IsPlace(Items(n.before), b, q)
    requires IsPlace(Items(n.after), a, newP) && IsPlace(Items(n.after), b, newQ) && IsEarlier(p, q, newP, newQ)
    ensures Precedes(n, AtIdentity(a), AtIdentity(b))
  {
    hide IsPlace, IsEarlier;
  }

  /** In two lists put together and without repetitions, the names of the first list come first. */
  lemma FirstPlaces(before: seq<string>, after: seq<string>, i: nat, j: nat)
    requires Distinct(before) && Distinct(after) && i < j < |Dedup(before + after)|
    ensures var a, b := Dedup(before + after)[i], Dedup(before + after)[j];
            IsEarlier(IndexOf(before, a), IndexOf(before, b), IndexOf(after, a), IndexOf(after, b))
  {
    hide Dedup, IndexOf, Distinct;
    var at := DedupKeepsOrder(before + after);
    var names := Dedup(before + after);
    PlaceInBoth(before, after, names[i], at[i]);
    PlaceInBoth(before, after, names[j], at[j]);
  }

  lemma {:induction false} DistinctStay(names: seq<string>)
    requires Distinct(names)
    ensures Dedup(names) == names
  {
    if names != [] {
      DistinctStay(names[..|names| - 1]);
    }
  }

  /** Where a name first stands in two lists put together. */
  lemma PlaceInBoth(before: seq<string>, after: seq<string>, id: string, k: nat)
    requires Distinct(before) && Distinct(after) && k < |before + after| && (before + after)[k] == id
    requires forall j :: 0 <= j < k ==> (before + after)[j] != id
    ensures if k < |before| then IndexOf(before, id) == Some(k)
            else IndexOf(before, id) == None && IndexOf(after, id) == Some(k - |before|)
  {
    assert forall j :: 0 <= j < |before| ==> (before + after)[j] == before[j];
    if k < |before| {
      assert before[k] == id;
    } else {
      assert after[k - |before|] == id;
    }
  }

  lemma StepsInOrder(n: Node, i: nat, j: nat)
    requires !IsLeaf(n) && i < j < |Steps(n)|
    ensures Precedes(n, Steps(n)[i], Steps(n)[j])
  {
    hide IsLeaf, MatchesByIdentity, Identities, NamesOf, Dedup, SortNames, IsPlace;
    if IsArrayPair(n) {
      if MatchesByIdentity(n) {
        IdentitiesInOrder(n, i, j);
      }
    } else {
      var all := NamesOf(Fields(n.before)) + NamesOf(Fields(n.after));
      DedupKeepsNames(all);
      SortedNamesAscend(Dedup(all));
      BeforeMeansFirst(OrderedKeys(n)[i], OrderedKeys(n)[j]);
    }
  }

  /** The steps of a pair are those there are, in order. */
  lemma StepsAreTheSteps(n: Node)
    requires !IsLeaf(n)
    ensures AreSteps(n, Steps(n))
  {
    hide IsLeaf, Steps, CanGo, Precedes;
    forall s ensures s in Steps(n) <==> CanGo(n, s) { StepsAreThere(n, s); }
    forall i, j | 0 <= i < j < |Steps(n)| ensures Precedes(n, Steps(n)[i], Steps(n)[j]) { StepsInOrder(n, i, j); }
  }

  // ---- What they lead to ----

  /** A step leads to the pair described, and to no other. */
  lemma StepsLeadDown(n: Node, step: Step, child: Node)
    requires CanGo(n, step)
    ensures GoesTo(n, step, child) <==> child == Down(n, step)
  {
    hide CanGo;
    match step
    case AtIndex(i) =>
    case AtKey(name) =>
      FieldsAreFound(n.before, name, child.before);
      FieldsAreFound(n.after, name, child.after);
      FieldsAreFound(n.unknown, name, child.unknown);
      FieldsAreFound(n.beforeSensitive, name, child.beforeSensitive);
      FieldsAreFound(n.afterSensitive, name, child.afterSensitive);
      FieldsAreFound(n.changedSensitive, name, child.changedSensitive);
    case AtIdentity(id) =>
      IdentityLeadsDown(n, id, child);
  }

  lemma FieldsAreFound(whole: Val, name: string, part: Val)
    ensures IsFieldOf(part, whole, name) <==> part == Lookup(Fields(whole), name)
  {
    FirstFieldIsFound(RecordOf(whole), name);
    if part.Some? {
      FieldIsFound(RecordOf(whole), name, part.value);
    }
    hide Lookup;
  }

  lemma IdentityLeadsDown(n: Node, id: string, child: Node)
    requires CanGo(n, AtIdentity(id))
    ensures GoesTo(n, AtIdentity(id), child) <==> child == Down(n, AtIdentity(id))
  {
    var p, newP := IndexOf(Identities(Items(n.before)), id), IndexOf(Identities(Items(n.after)), id);
    PlacesAreFound(Items(n.before), id);
    PlacesAreFound(Items(n.after), id);
    hide Identities, IsPlace, AreToldApart, IndexOf;
    PairIsDown(n, id, child);
    OnePlace(Items(n.before), id);
    OnePlace(Items(n.after), id);
    hide IsItemPair, Down;
    assert ListOf(n.before) == Items(n.before) && ListOf(n.after) == Items(n.after);
    if GoesTo(n, AtIdentity(id), child) {
      var q, newQ :| IsPlace(ListOf(n.before), id, q) && IsPlace(ListOf(n.after), id, newQ)
                     && IsItemPair(n, child, q, newQ);
      assert q == p && newQ == newP;
    }
  }

  lemma PairIsDown(n: Node, id: string, child: Node)
    requires CanGo(n, AtIdentity(id))
    ensures IsItemPair(n, child, IndexOf(Identities(Items(n.before)), id), IndexOf(Identities(Items(n.after)), id))
            <==> child == Down(n, AtIdentity(id))
  {
    hide Identities, IndexOf, CanGo;
  }

  lemma OnePlace(items: seq<Json>, id: string)
    requires AreToldApart(items)
    ensures forall p, q :: IsPlace(items, id, p) && IsPlace(items, id, q) ==> p == q
  {
    hide IsIdentity;
  }

  // ---- Positions ----

  ghost predicate IsBelow(n: Node, step: Step, steps: seq<Step>, k: nat, child: Node) {
    AreSteps(n, steps) && k < |steps| && steps[k] == step && GoesTo(n, step, child)
  }

  /** A position's path ends at a leaf, which is the position's pair; the last step gives the title. */
  ghost predicate Reaches(n: Node, title: string, spot: Spot)
    decreases |spot.path|
  {
    if spot.path == [] then EndsHere(n) && spot.node == n && spot.title == title
    else
      && !EndsHere(n)
      && exists steps, k, child ::
           && IsBelow(n, spot.path[0], steps, k, child)
           && Reaches(child, LabelOf(spot.path[0], k), spot.(path := spot.path[1..]))
  }

  /** A path that can be gone and ends at a leaf. */
  ghost predicate CanWalk(n: Node, path: seq<Step>)
    decreases |path|
  {
    if path == [] then EndsHere(n)
    else
      !EndsHere(n) && CanGo(n, path[0]) && exists child :: GoesTo(n, path[0], child) && CanWalk(child, path[1..])
  }

  /** Where two paths part, the first one takes the earlier step. */
  ghost predicate PartsEarlier(n: Node, p: seq<Step>, q: seq<Step>)
    decreases |p|
  {
    && p != [] && q != []
    && if p[0] == q[0] then exists child :: GoesTo(n, p[0], child) && PartsEarlier(child, p[1..], q[1..])
       else Precedes(n, p[0], q[0])
  }

  ghost predicate AreInOrder(n: Node, spots: seq<Spot>) {
    forall i, j :: 0 <= i < j < |spots| ==> PartsEarlier(n, spots[i].path, spots[j].path)
  }

  ghost predicate AreSpots(n: Node, title: string, spots: seq<Spot>) {
    && (forall i :: 0 <= i < |spots| ==> Reaches(n, title, spots[i]))
    && (forall path :: CanWalk(n, path) ==> HasPath(spots, path))
    && AreInOrder(n, spots)
  }

  lemma ChildIsBelow(n: Node, k: nat)
    requires !IsLeaf(n) && k < |Steps(n)|
    ensures IsBelow(n, Steps(n)[k], Steps(n), k, Down(n, Steps(n)[k]))
  {
    var step := Steps(n)[k];
    hide IsLeaf, Steps, Down, AreSteps, GoesTo, CanGo;
    StepsAreTheSteps(n);
    assert step in Steps(n);
    StepsAreThere(n, step);
    StepsLeadDown(n, step, Down(n, step));
  }

  lemma SpotBelow(n: Node, k: nat, spot: Spot, title: string)
    requires !IsLeaf(n) && k < |Steps(n)| && Reaches(Down(n, Steps(n)[k]), StepLabel(Steps(n)[k], k), spot)
    ensures Reaches(n, title, spot.(path := [Steps(n)[k]] + spot.path))
  {
    var step := Steps(n)[k];
    LeavesAreEnds(n);
    hide IsLeaf, EndsHere, Steps, Down, IsBelow, Reaches;
    ChildIsBelow(n, k);
    ReachedFromAbove(n, step, Steps(n), k, Down(n, step), spot, title);
  }

  lemma ReachedFromAbove(n: Node, step: Step, steps: seq<Step>, k: nat, child: Node, spot: Spot, title: string)
    requires !EndsHere(n) && IsBelow(n, step, steps, k, child) && Reaches(child, LabelOf(step, k), spot)
    ensures Reaches(n, title, spot.(path := [step] + spot.path))
  {
    var all := spot.(path := [step] + spot.path);
    assert all.path[0] == step && all.path[1..] == spot.path && all.(path := spot.path) == spot;
    hide EndsHere, IsBelow, LabelOf;
    assert IsBelow(n, all.path[0], steps, k, child)
           && Reaches(child, LabelOf(all.path[0], k), all.(path := all.path[1..]));
  }

  lemma {:induction false} BelowIsReached(n: Node, k: nat, title: string)
    requires !IsLeaf(n) && k <= |Steps(n)|
    ensures forall i :: 0 <= i < |PositionsBelow(n, k)| ==> Reaches(n, title, PositionsBelow(n, k)[i])
    decreases Total(n), 0, k
  {
    hide Steps, Down, StepLabel, IsLeaf, Positions, Reaches, Total;
    if k > 0 {
      BelowIsReached(n, k - 1, title);
      var step := Steps(n)[k - 1];
      GoingDownShrinks(n, step);
      var last := Positions(Down(n, step), StepLabel(step, k - 1));
      PositionsAreReached(Down(n, step), StepLabel(step, k - 1));
      forall i | 0 <= i < |last| ensures Reaches(n, title, Prefixed(step, last)[i]) {
        SpotBelow(n, k - 1, last[i], title);
      }
    }
  }

  lemma {:induction false} PositionsAreReached(n: Node, title: string)
    ensures forall i :: 0 <= i < |Positions(n, title)| ==> Reaches(n, title, Positions(n, title)[i])
    decreases Total(n), 1, 0
  {
    LeavesAreEnds(n);
    hide Steps, PositionsBelow, IsLeaf, EndsHere;
    if !IsLeaf(n) {
      hide Reaches;
      BelowIsReached(n, |Steps(n)|, title);
    }
  }

  lemma {:induction false} WalksLeadToLeaves(n: Node, path: seq<Step>)
    requires CanWalk(n, path)
    ensures LeadsToLeaf(n, path)
    decreases |path|
  {
    LeavesAreEnds(n);
    if path != [] {
      hide IsLeaf, EndsHere, Steps, Down, GoesTo, CanGo;
      var child :| GoesTo(n, path[0], child) && CanWalk(child, path[1..]);
      StepsAreThere(n, path[0]);
      StepsLeadDown(n, path[0], child);
      WalksLeadToLeaves(child, path[1..]);
    }
  }

  lemma {:induction false} BelowInOrder(n: Node, k: nat)
    requires !IsLeaf(n) && k <= |Steps(n)|
    ensures AreInOrder(n, PositionsBelow(n, k))
    decreases Total(n), 0, k
  {
    hide Steps, Down, StepLabel, IsLeaf, Positions, PartsEarlier, Total;
    if k > 0 {
      BelowInOrder(n, k - 1);
      BelowDiffer(n, k - 1);
      var step := Steps(n)[k - 1];
      GoingDownShrinks(n, step);
      var first, last := PositionsBelow(n, k - 1), Positions(Down(n, step), StepLabel(step, k - 1));
      var more := Prefixed(step, last);
      PositionsInOrder(Down(n, step), StepLabel(step, k - 1));
      var spots := first + more;
      forall i: nat, j: nat | i < j < |spots|
        ensures PartsEarlier(n, spots[i].path, spots[j].path)
      {
        if j >= |first| {
          if i < |first| {
            EarlierStepsFirst(n, first[i].path, more[j - |first|].path, k - 1);
          } else {
            var a, b := i - |first|, j - |first|;
            assert PartsEarlier(Down(n, step), last[a].path, last[b].path);
            SameStepFirst(n, k - 1, last[a].path, last[b].path);
          }
        }
      }
    }
  }

  lemma EarlierStepsFirst(n: Node, p: seq<Step>, q: seq<Step>, k: nat)
    requires !IsLeaf(n) && k < |Steps(n)| && p != [] && p[0] in Steps(n)[..k] && q != [] && q[0] == Steps(n)[k]
    ensures PartsEarlier(n, p, q)
  {
    StepsAreDistinct(n);
    var j :| 0 <= j < k && Steps(n)[j] == p[0];
    StepsInOrder(n, j, k);
    hide Steps, IsLeaf, Precedes;
  }

  lemma SameStepFirst(n: Node, k: nat, p: seq<Step>, q: seq<Step>)
    requires !IsLeaf(n) && k < |Steps(n)| && PartsEarlier(Down(n, Steps(n)[k]), p, q)
    ensures PartsEarlier(n, [Steps(n)[k]] + p, [Steps(n)[k]] + q)
  {
    var step := Steps(n)[k];
    assert step in Steps(n);
    StepsAreThere(n, step);
    StepsLeadDown(n, step, Down(n, step));
    hide Steps, IsLeaf, Down, GoesTo, CanGo;
    assert ([step] + p)[1..] == p && ([step] + q)[1..] == q;
  }

  lemma {:induction false} PositionsInOrder(n: Node, title: string)
    ensures AreInOrder(n, Positions(n, title))
    decreases Total(n), 1, 0
  {
    hide Steps, PositionsBelow, PartsEarlier, IsLeaf;
    if !IsLeaf(n) {
      BelowInOrder(n, |Steps(n)|);
      assert Positions(n, title) == PositionsBelow(n, |Steps(n)|);
    }
  }

  /** The positions are the ends of all paths there are, in order, each with the title of its last step. */
  lemma PositionsAreSpots(n: Node, title: string)
    ensures AreSpots(n, title, Positions(n, title))
  {
    hide Positions, Reaches, CanWalk, PartsEarlier, HasPath, LeadsToLeaf;
    PositionsAreReached(n, title);
    PositionsInOrder(n, title);
    forall path | CanWalk(n, path) ensures HasPath(Positions(n, title), path) {
      WalksLeadToLeaves(n, path);
      PositionsAreThePaths(n, title, path);
    }
  }
}
