/** Whole listings: the rows of a page or of a list of keys, each with its fields and relationships. */
module Fetching {
  import opened Wrappers

  import opened ColumnNames
  import opened Indices
  import opened Ints
  import opened Listings
  import opened QueryText
  import opened Repository
  import opened Resolver

  datatype Page = Page(size: int, number: int, sort: string)

  function Listing(page: Page, filters: Filters): ListParams {
    ListParams("", None, filters, page.sort, if page.size > 0 then page.size else 0,
               if page.size > 0 && page.number > 1 then Wrap64((page.number - 1) * page.size) else 0, {})
  }

  /** Every row with its own scalars and its own relationships. */
  ghost predicate AreResolved(db: Database, t: string, fields: seq<string>, rels: seq<Rel>, rows: seq<Row>,
      nodes: seq<Node>)
    requires WellFormed(db) && t in db.metas
  {
    |nodes| == |rows| && forall i :: 0 <= i < |rows| ==>
        nodes[i] == Resolved(db, t, rows[i], rels, Scalars(rows[i], fields))
  }

  lemma ListedRowsAreWhole(db: Database, t: string, p: ListParams)
    requires WellFormed(db) && t in db.metas && p.columns == {}
    ensures Listed(db, t, p).Some? ==> forall i :: 0 <= i < |Listed(db, t, p).value| ==>
        WholeRow(db, t, Listed(db, t, p).value[i])
  {
    hide WellFormed, OrderBy, Mentioned, KeyColumns, Plain;
    var meta := db.metas[t];
    HasTable(db, t);
    PlainColumns(db, t);
    var all := Ordered(db.rank, OrderBy(p.sort), Chosen(meta, WithinParent(p), p.filters, db.tables[t]));
    OrderedRowsAreWhole(db, t, WithinParent(p), p.filters, OrderBy(p.sort));
    assert all == Ordered(db.rank, OrderBy(p.sort), Chosen(meta, WithinParent(p), p.filters, db.tables[t]));
    var some := Window(all, NatOf(p.pageSize), NatOf(p.pageOffset));
    forall i | 0 <= i < |some| ensures some[i].Keys == meta.columns && WholeRow(db, t, some[i]) {
      assert some[i] in all;
      var j :| 0 <= j < |all| && all[j] == some[i];
      assert all[j] in db.tables[t] && all[j].Keys == meta.columns && At(all[j], meta.pk).Text?;
    }
    WholeRows(meta.columns, some);
  }

  ghost predicate WholeRow(db: Database, t: string, row: Row)
    requires WellFormed(db) && t in db.metas
  {
    row in db.tables[t] && At(row, db.metas[t].pk).Text? && forall c :: c in row ==> Plain(c)
  }

  // ---- What an answer shows, spelled out on the rows ----

  function RelNames(rels: seq<Rel>): set<string> { set k | 0 <= k < |rels| :: rels[k].name }

  /** Of the scalars of a row a node shows the requested fields that name a column, or the columns `all` where none is
      requested; and nothing beside these and the keys `others`. */
  predicate ShowsFields(row: Row, all: set<string>, fields: seq<string>, others: set<string>, node: Node) {
    if fields == [] then
      && (forall c :: c in all && c in row && Camel(c) !in others ==>
            Camel(c) in node && node[Camel(c)] == Scalar(row[c]))
      && (forall f :: f in node && f !in others ==> exists c :: c in all && f == Camel(c))
    else
      && (forall f, c :: f in fields && f !in others && c in row && (f == c || f == Camel(c)) ==>
            f in node && node[f] == Scalar(row[c]))
      && (forall f :: f in node && f !in others ==> f in fields)
  }

  predicate IsLastOf(rels: seq<Rel>, k: nat) {
    k < |rels| && forall j :: k < j < |rels| ==> rels[j].name != rels[k].name
  }

  /** A living row has that key. */
  predicate IsFoundBy(db: Database, t: string, id: string, row: Row)
    requires WellFormed(db) && t in db.metas
  {
    var meta := db.metas[t];
    row in db.tables[t] && meta.pk in row && row[meta.pk] == Text(id) && Passes(meta, map[], row)
  }

  /** The living row of another table that a foreign key points at. */
  predicate PointsAt(db: Database, row: Row, p: ParentRelation, parent: Row)
    requires WellFormed(db) && p.parentType in db.metas
  {
    p.fk in row && row[p.fk].Text? && IsFoundBy(db, p.parentType, row[p.fk].text, parent)
  }

  /** What a relationship's filter asks of its rows. */
  function FiltersAsked(db: Database, filter: string, meta: Meta): Filters {
    if filter == "" then map[] else db.readFilter(filter, meta)
  }

  /** Every field names a column in either spelling, and the filter's and the sort's columns are there. */
  predicate CanBeAsked(db: Database, meta: Meta, rel: Rel) {
    && (forall f :: f in rel.fields ==> exists c :: c in meta.columns && (f == c || f == Camel(c)))
    && IsAskable(meta, FiltersAsked(db, rel.filter, meta), rel.sort)
  }

  /** A node shows a row: its fields, and under the name of each relationship, the last one of a name, what it leads
      to. */
  ghost predicate Shows(db: Database, t: string, row: Row, all: set<string>, fields: seq<string>, rels: seq<Rel>,
                        node: Node)
    requires WellFormed(db) && t in db.metas
    decreases rels
  {
    && ShowsFields(row, all, fields, RelNames(rels), node)
    && forall k: nat :: IsLastOf(rels, k) ==> ShowsRelated(db, t, row, rels[k], node)
  }

  /** A foreign key leads to the row it points at, if there is one; a table of children to all rows that carry the
      parent's key and pass the filter, in the order asked for. */
  ghost predicate ShowsRelated(db: Database, t: string, row: Row, rel: Rel, node: Node)
    requires WellFormed(db) && t in db.metas
    decreases rel
  {
    var meta := db.metas[t];
    if rel.name in meta.parents then
      var p := meta.parents[rel.name];
      p.parentType in db.metas ==>
        && rel.name in node && node[rel.name].Edges?
        && var nodes := node[rel.name].nodes;
           || (nodes == [] && forall parent :: !PointsAt(db, row, p, parent))
           || (|nodes| == 1 && exists parent :: ShowsParent(db, row, p, parent, rel, nodes[0]))
    else if rel.name in meta.children then
      var c := meta.children[rel.name];
      c.childType in db.metas && CanBeAsked(db, db.metas[c.childType], rel) && meta.pk in row && row[meta.pk].Text? ==>
        && rel.name in node && node[rel.name].Edges?
        && exists rows :: ShowsChildren(db, c, row[meta.pk].text, rel, rows, node[rel.name].nodes)
    else true
  }

  ghost predicate ShowsParent(db: Database, row: Row, p: ParentRelation, parent: Row, rel: Rel, node: Node)
    requires WellFormed(db) && p.parentType in db.metas
    decreases rel, 0
  {
    && PointsAt(db, row, p, parent)
    && Shows(db, p.parentType, parent, db.metas[p.parentType].columns, rel.fields, rel.rels, node)
  }

  ghost predicate ShowsChildren(db: Database, c: ChildRelation, id: string, rel: Rel, rows: seq<Row>, nodes: seq<Node>)
    requires WellFormed(db) && c.childType in db.metas
    decreases rel, 0
  {
    var meta := db.metas[c.childType];
    && IsList(db, c.childType, Some((c.fk, id)), FiltersAsked(db, rel.filter, meta), rel.sort, rows)
    && |nodes| == |rows|
    && forall i :: 0 <= i < |rows| ==>
         Shows(db, c.childType, rows[i], LinksOf(meta, c.fk, rel.rels), rel.fields, rel.rels, nodes[i])
  }

  /** What a child shows where no field is requested: the columns that hold its place among other rows. */
  function LinksOf(meta: Meta, fk: string, rels: seq<Rel>): set<string> {
    {fk, meta.pk} + set k | 0 <= k < |rels| && rels[k].name in meta.parents :: meta.parents[rels[k].name].fk
  }

  // ---- Nodes resolved one by one show their rows ----

  lemma {:induction false} OtherKeysStay(db: Database, t: string, row: Row, rels: seq<Rel>, start: Node, f: string)
    requires WellFormed(db) && t in db.metas && f !in RelNames(rels)
    ensures f in Resolved(db, t, row, rels, start) <==> f in start
    ensures f in start ==> Resolved(db, t, row, rels, start)[f] == start[f]
    decreases |rels|
  {
    hide WellFormed, Related;
    if rels != [] {
      var n := |rels| - 1;
      assert rels[n].name in RelNames(rels);
      assert forall k :: 0 <= k < n ==> rels[k].name in RelNames(rels);
      OtherKeysStay(db, t, row, rels[..n], start, f);
    }
  }

  /** Under a relationship's name stands what the last one of that name leads to. */
  lemma {:induction false} LastOneStands(db: Database, t: string, row: Row, rels: seq<Rel>, start: Node, k: nat)
    requires WellFormed(db) && t in db.metas && IsLastOf(rels, k)
    ensures var node := Resolved(db, t, row, rels, start);
            var found := Related(db, t, row, rels[k]);
            found.Some? ==> rels[k].name in node && node[rels[k].name] == Edges(found.value)
    decreases |rels|
  {
    hide WellFormed, Related;
    var n := |rels| - 1;
    if k < n {
      assert IsLastOf(rels[..n], k);
      LastOneStands(db, t, row, rels[..n], start, k);
    }
  }

  lemma FieldsStayShown(row: Row, all: set<string>, fields: seq<string>, others: set<string>, start: Node, node: Node)
    requires ShowsFields(row, all, fields, {}, start)
    requires forall f :: f !in others ==> (f in node <==> f in start) && (f in start ==> node[f] == start[f])
    ensures ShowsFields(row, all, fields, others, node)
  {
  }

  lemma {:induction false} ResolvedShows(db: Database, t: string, row: Row, all: set<string>, fields: seq<string>,
                                         rels: seq<Rel>, start: Node)
    requires WellFormed(db) && t in db.metas && row in db.tables[t] && ShowsFields(row, all, fields, {}, start)
    ensures Shows(db, t, row, all, fields, rels, Resolved(db, t, row, rels, start))
    decreases rels
  {
    hide WellFormed, Related, Resolved, ShowsFields, RelNames, ShowsRelated;
    var node := Resolved(db, t, row, rels, start);
    forall f | f !in RelNames(rels)
      ensures (f in node <==> f in start) && (f in start ==> node[f] == start[f])
    {
      OtherKeysStay(db, t, row, rels, start, f);
    }
    FieldsStayShown(row, all, fields, RelNames(rels), start, node);
    forall k: nat | IsLastOf(rels, k) ensures ShowsRelated(db, t, row, rels[k], node) {
      LastOneStands(db, t, row, rels, start, k);
      RelatedIsShown(db, t, row, rels[k], node);
    }
  }

  lemma {:induction false} RelatedIsShown(db: Database, t: string, row: Row, rel: Rel, node: Node)
    requires WellFormed(db) && t in db.metas && row in db.tables[t]
    requires var found := Related(db, t, row, rel);
             found.Some? ==> rel.name in node && node[rel.name] == Edges(found.value)
    ensures ShowsRelated(db, t, row, rel, node)
    decreases rel
  {
    hide WellFormed, Resolved, ShowsFields, Shows, Scalars;
    var meta := db.metas[t];
    if rel.name in meta.parents {
      var p := meta.parents[rel.name];
      if p.parentType in db.metas {
        HasTable(db, p.parentType);
        OnlyOneIsPointedAt(db, t, row, p);
        var id := At(row, p.fk);
        if id != Null && FoundByID(db, p.parentType, Show(id)).Some? {
          var parent := FoundByID(db, p.parentType, Show(id)).value;
          ScalarsAreShown(db, p.parentType, parent, rel.fields);
          ResolvedShows(db, p.parentType, parent, db.metas[p.parentType].columns, rel.fields, rel.rels,
                        Scalars(parent, rel.fields));
          assert ShowsParent(db, row, p, parent, rel, node[rel.name].nodes[0]);
        }
      }
    } else if rel.name in meta.children {
      var c := meta.children[rel.name];
      if c.childType in db.metas && CanBeAsked(db, db.metas[c.childType], rel) && meta.pk in row && row[meta.pk].Text? {
        assert c.fk in db.metas[c.childType].columns by { ChildKeysAreThere(db, t, rel.name); }
        ChildrenAreShown(db, c, At(row, meta.pk).text, rel);
      }
    }
  }

  /** At most one row is found by a key, and it is the one the repository gives. */
  lemma OnlyOneIsFound(db: Database, t: string, id: string, row: Row)
    requires WellFormed(db) && t in db.metas && t in db.tables
    ensures IsFoundBy(db, t, id, row) <==> FoundByID(db, t, id) == Some(row)
  {
    FindingIsUnique(db, t, id, row);
    if row in db.tables[t] {
      TableRowsAreWhole(db, t, row);
      LivingRowsPass(db.metas[t], row);
    }
  }

  lemma OnlyOneIsPointedAt(db: Database, t: string, row: Row, p: ParentRelation)
    requires WellFormed(db) && p.parentType in db.metas && p.parentType in db.tables
    ensures forall parent ::
              PointsAt(db, row, p, parent)
              <==> At(row, p.fk) != Null && FoundByID(db, p.parentType, Show(At(row, p.fk))) == Some(parent)
  {
    hide WellFormed, FoundByID, IsFoundBy;
    forall parent
      ensures PointsAt(db, row, p, parent)
              <==> At(row, p.fk) != Null && FoundByID(db, p.parentType, Show(At(row, p.fk))) == Some(parent)
    {
      OnlyOneIsFound(db, p.parentType, Show(At(row, p.fk)), parent);
    }
  }

  lemma LivingRowsPass(meta: Meta, row: Row)
    requires meta.softDelete.Some? ==> meta.softDelete.value in row
    ensures Alive(meta, row) <==> Passes(meta, map[], row)
  {
  }

  lemma ScalarsAreShown(db: Database, t: string, row: Row, fields: seq<string>)
    requires WellFormed(db) && t in db.metas && row in db.tables[t]
    ensures ShowsFields(row, db.metas[t].columns, fields, {}, Scalars(row, fields))
  {
    hide Scalars, WellFormed, Camel, Plain, Snake;
    TableRowsAreWhole(db, t, row);
    PlainColumns(db, t);
    ScalarsHoldFields(row, fields);
  }

  lemma ChildKeysAreThere(db: Database, t: string, name: string)
    requires WellFormed(db) && t in db.metas && name in db.metas[t].children
    ensures var c := db.metas[t].children[name]; c.childType in db.metas ==> c.fk in db.metas[c.childType].columns
  {
  }

  lemma {:induction false} ChildrenAreShown(db: Database, c: ChildRelation, id: string, rel: Rel)
    requires WellFormed(db) && c.childType in db.metas && c.fk in db.metas[c.childType].columns
    requires CanBeAsked(db, db.metas[c.childType], rel)
    ensures var found := ChildRows(db, c, id, rel);
            found.Some? && ShowsChildren(db, c, id, rel, found.value, ResolvedAll(db, c, rel, found.value))
    decreases rel, 1
  {
    var meta := db.metas[c.childType];
    var filters := FiltersAsked(db, rel.filter, meta);
    ColumnsAreSafe(db, c.childType, c.fk);
    ListingsHoldTheList(db, c.childType, Some((c.fk, id)), filters, rel.sort, 0, 0);
    AllRowsAreTheList(db, c.childType, Some((c.fk, id)), filters, rel.sort);
    FieldsAreColumns(db, c.childType, rel);
    var rows := AllRows(db, c.childType, Some((c.fk, id)), filters, rel.sort);
    assert ParamsOf(Some((c.fk, id)), filters, rel.sort, 0, 0)
        == ListParams(c.fk, Some(id), FiltersOf(db, rel, meta), rel.sort, 0, 0, {});
    hide AllRows, Listed, IsList, Shows, WellFormed, Resolved, CanBeAsked, ChildScalars;
    assert ChildRows(db, c, id, rel) == Some(rows);
    forall i | 0 <= i < |rows|
      ensures Shows(db, c.childType, rows[i], LinksOf(meta, c.fk, rel.rels), rel.fields, rel.rels,
                    ResolvedAll(db, c, rel, rows)[i])
    {
      EachIsResolved(db, c, rel, rows, i);
      ChildScalarsAreShown(db, c, rel, rows[i]);
      ResolvedShows(db, c.childType, rows[i], LinksOf(meta, c.fk, rel.rels), rel.fields, rel.rels,
                    ChildScalars(meta, c.fk, rel, rows[i]));
    }
  }

  lemma ColumnsAreSafe(db: Database, t: string, c: string)
    requires WellFormed(db) && t in db.metas && c in db.metas[t].columns
    ensures IsPlainName(c)
  {
    assert TableOk(db.metas[t], db.tables[t]);
    assert IsSafe(c);
  }

  lemma FieldsAreColumns(db: Database, t: string, rel: Rel)
    requires WellFormed(db) && t in db.metas && CanBeAsked(db, db.metas[t], rel)
    ensures forall k :: 0 <= k < |rel.fields| ==> Snake(rel.fields[k]) in db.metas[t].columns
  {
    PlainColumns(db, t);
    forall k | 0 <= k < |rel.fields| ensures Snake(rel.fields[k]) in db.metas[t].columns {
      var f := rel.fields[k];
      assert f in rel.fields;
      var c :| c in db.metas[t].columns && (f == c || f == Camel(c));
      PlainNamesStay(c);
      SnakeUndoesCamel(c);
    }
  }

  lemma {:induction false} EachIsResolved(db: Database, c: ChildRelation, rel: Rel, rows: seq<Row>, i: nat)
    requires WellFormed(db) && c.childType in db.metas && i < |rows|
    ensures ResolvedAll(db, c, rel, rows)[i]
         == Resolved(db, c.childType, rows[i], rel.rels, ChildScalars(db.metas[c.childType], c.fk, rel, rows[i]))
    decreases |rows|
  {
    hide WellFormed, Resolved, ChildScalars;
    var n := |rows| - 1;
    if i < n {
      EachIsResolved(db, c, rel, rows[..n], i);
    }
  }

  lemma ChildScalarsAreShown(db: Database, c: ChildRelation, rel: Rel, row: Row)
    requires WellFormed(db) && c.childType in db.metas && c.fk in db.metas[c.childType].columns
    requires row in db.tables[c.childType]
    ensures var meta := db.metas[c.childType];
            ShowsFields(row, LinksOf(meta, c.fk, rel.rels), rel.fields, {}, ChildScalars(meta, c.fk, rel, row))
  {
    hide Scalars, WellFormed, Camel, Plain, Snake;
    var meta := db.metas[c.childType];
    TableRowsAreWhole(db, c.childType, row);
    PlainColumns(db, c.childType);
    LinksAreColumns(db, c, rel);
    var links := LinkColumns(meta, c.fk, rel.rels);
    assert links == LinksOf(meta, c.fk, rel.rels);
    if rel.fields == [] {
      var part := Project(links, row);
      ScalarsHoldFields(part, []);
      assert part.Keys == links && forall col :: col in links ==> part[col] == row[col];
    } else {
      ScalarsHoldFields(row, rel.fields);
    }
  }

  lemma LinksAreColumns(db: Database, c: ChildRelation, rel: Rel)
    requires WellFormed(db) && c.childType in db.metas && c.fk in db.metas[c.childType].columns
    ensures LinksOf(db.metas[c.childType], c.fk, rel.rels) <= db.metas[c.childType].columns
  {
    assert TableOk(db.metas[c.childType], db.tables[c.childType]);
  }

  // ---- Listings and lists of keys ----

  /** Where a page begins: behind whole pages, counted in 64 bits. */
  predicate BeginsAt(page: Page, start: int) {
    if page.size > 0 && page.number > 1 then
      && -0x8000_0000_0000_0000 <= start < 0x8000_0000_0000_0000
      && (start - (page.number - 1) * page.size) % 0x1_0000_0000_0000_0000 == 0
    else start == 0
  }

  ghost predicate AreShown(db: Database, t: string, rows: seq<Row>, fields: seq<string>, rels: seq<Rel>,
                           nodes: seq<Node>)
    requires WellFormed(db) && t in db.metas
  {
    |nodes| == |rows| && forall i :: 0 <= i < |rows| ==>
        rows[i] in db.tables[t] && Shows(db, t, rows[i], db.metas[t].columns, fields, rels, nodes[i])
  }

  /** A part of the list asked for, row by row with what is asked of each; nothing exactly where a column is not
      there. */
  ghost predicate IsPartOfList(db: Database, t: string, filters: Filters, sort: string, start: int, size: int,
                               fields: seq<string>, rels: seq<Rel>, nodes: Option<seq<Node>>)
    requires WellFormed(db) && t in db.metas
  {
    && (nodes.Some? <==> IsAskable(db.metas[t], filters, sort))
    && (nodes.Some? ==>
          exists all :: IsList(db, t, None, filters, sort, all)
                        && AreShown(db, t, Part(all, start, size), fields, rels, nodes.value))
  }

  /** The rows of the keys that have one, in the order of the keys; `at` tells where each row's key stands. */
  ghost predicate AreFound(db: Database, t: string, ids: seq<string>, rows: seq<Row>, at: seq<nat>)
    requires WellFormed(db) && t in db.metas
  {
    && |at| == |rows|
    && (forall k :: 0 <= k < |at| ==> at[k] < |ids| && IsFoundBy(db, t, ids[at[k]], rows[k]))
    && Increase(at)
    && (forall i, row :: 0 <= i < |ids| && IsFoundBy(db, t, ids[i], row) ==> i in at)
  }

  /** What a list of keys is answered with. */
  ghost predicate IsByKeys(db: Database, t: string, ids: seq<string>, fields: seq<string>, rels: seq<Rel>,
                           nodes: seq<Node>)
    requires WellFormed(db) && t in db.metas
  {
    exists rows, at :: AreFound(db, t, ids, rows, at) && AreShown(db, t, rows, fields, rels, nodes)
  }

  lemma ResolvedRowsAreShown(db: Database, t: string, rows: seq<Row>, fields: seq<string>, rels: seq<Rel>,
                             nodes: seq<Node>)
    requires WellFormed(db) && t in db.metas && AreResolved(db, t, fields, rels, rows, nodes)
    requires forall i :: 0 <= i < |rows| ==> rows[i] in db.tables[t]
    ensures AreShown(db, t, rows, fields, rels, nodes)
  {
    hide WellFormed, Resolved, Shows, Scalars, ShowsFields;
    forall i | 0 <= i < |rows| ensures Shows(db, t, rows[i], db.metas[t].columns, fields, rels, nodes[i]) {
      ScalarsAreShown(db, t, rows[i], fields);
      ResolvedShows(db, t, rows[i], db.metas[t].columns, fields, rels, Scalars(rows[i], fields));
    }
  }

  lemma WrapsRound(n: int)
    ensures -0x8000_0000_0000_0000 <= Wrap64(n) < 0x8000_0000_0000_0000
    ensures (Wrap64(n) - n) % 0x1_0000_0000_0000_0000 == 0
  {
    var m := n + MAX_INT + 1;
    assert Wrap64(n) - n == -(m / 0x1_0000_0000_0000_0000) * 0x1_0000_0000_0000_0000;
  }

  lemma OneNumberWraps(n: int, w: int)
    requires -0x8000_0000_0000_0000 <= w < 0x8000_0000_0000_0000 && (w - n) % 0x1_0000_0000_0000_0000 == 0
    ensures w == Wrap64(n)
  {
    WrapsRound(n);
    hide Wrap64;
  }

  /** A page is the part of the list that begins behind the whole pages before it. */
  lemma PagesAreParts(db: Database, t: string, page: Page, filters: Filters)
    requires WellFormed(db) && t in db.metas && t in db.tables
    ensures var listed := Listed(db, t, Listing(page, filters));
            && (listed.Some? <==> IsAskable(db.metas[t], filters, page.sort))
            && BeginsAt(page, Listing(page, filters).pageOffset)
            && (listed.Some? ==> listed.value == Part(AllRows(db, t, None, filters, page.sort),
                                                      Listing(page, filters).pageOffset, page.size))
  {
    hide WellFormed, Listed, IsAskable, AllRows, Wrap64;
    WrapsRound((page.number - 1) * page.size);
    var p := Listing(page, filters);
    ListingsHoldTheList(db, t, None, filters, page.sort, p.pageSize, p.pageOffset);
    assert p == ParamsOf(None, filters, page.sort, p.pageSize, p.pageOffset);
  }

  lemma {:induction false} ListedNodesAreShown(db: Database, t: string, fields: seq<string>, rels: seq<Rel>,
      page: Page, filters: Filters, nodes: Option<seq<Node>>)
    requires WellFormed(db) && t in db.metas
    requires var listed := Listed(db, t, Listing(page, filters));
             && (nodes.Some? <==> listed.Some?)
             && (nodes.Some? ==> AreResolved(db, t, fields, rels, listed.value, nodes.value))
    ensures exists start :: BeginsAt(page, start)
                            && IsPartOfList(db, t, filters, page.sort, start, page.size, fields, rels, nodes)
  {
    HasTable(db, t);
    hide WellFormed, Listed, IsAskable, AllRows, Listing, AreResolved, AreShown, IsList, BeginsAt, Part, IsPartOfList;
    PagesAreParts(db, t, page, filters);
    AllRowsAreTheList(db, t, None, filters, page.sort);
    var start := Listing(page, filters).pageOffset;
    var all := AllRows(db, t, None, filters, page.sort);
    if nodes.Some? {
      PartIsOfTheTable(db, t, all, start, page.size);
      ResolvedRowsAreShown(db, t, Part(all, start, page.size), fields, rels, nodes.value);
    }
    ShownPartIsOfList(db, t, filters, page.sort, start, page.size, fields, rels, nodes, all);
    assert BeginsAt(page, start) && IsPartOfList(db, t, filters, page.sort, start, page.size, fields, rels, nodes);
  }

  lemma PartIsOfTheTable(db: Database, t: string, all: seq<Row>, start: int, size: int)
    requires t in db.tables && forall i :: 0 <= i < |all| ==> all[i] in db.tables[t]
    ensures forall i :: 0 <= i < |Part(all, start, size)| ==> Part(all, start, size)[i] in db.tables[t]
  {
  }

  lemma {:induction false} ShownPartIsOfList(db: Database, t: string, filters: Filters, sort: string, start: int,
      size: int, fields: seq<string>, rels: seq<Rel>, nodes: Option<seq<Node>>, all: seq<Row>)
    requires WellFormed(db) && t in db.metas && t in db.tables
    requires nodes.Some? <==> IsAskable(db.metas[t], filters, sort)
    requires nodes.Some? ==> IsList(db, t, None, filters, sort, all)
                             && AreShown(db, t, Part(all, start, size), fields, rels, nodes.value)
    ensures IsPartOfList(db, t, filters, sort, start, size, fields, rels, nodes)
  {
    hide WellFormed, IsAskable, IsList, AreShown, Part;
  }

  lemma OneMoreFound(db: Database, t: string, ids: seq<string>, id: string, rows: seq<Row>, at: seq<nat>, row: Row)
    requires WellFormed(db) && t in db.metas && AreFound(db, t, ids, rows, at) && IsFoundBy(db, t, id, row)
    ensures AreFound(db, t, ids + [id], rows + [row], at + [|ids|])
  {
    hide WellFormed, IsFoundBy;
    var more, all := ids + [id], at + [|ids|];
    forall k | 0 <= k < |all| ensures all[k] < |more| && IsFoundBy(db, t, more[all[k]], (rows + [row])[k]) {
      if k < |at| {
        assert more[all[k]] == ids[at[k]];
      }
    }
    forall i | 0 <= i < |more| && exists r :: IsFoundBy(db, t, more[i], r) ensures i in all {
      if i < |ids| {
        var r :| IsFoundBy(db, t, more[i], r);
        assert more[i] == ids[i] && i in at;
      } else {
        assert all[|at|] == i;
      }
    }
  }

  lemma NoMoreFound(db: Database, t: string, ids: seq<string>, id: string, rows: seq<Row>, at: seq<nat>)
    requires WellFormed(db) && t in db.metas && AreFound(db, t, ids, rows, at)
    requires forall row :: !IsFoundBy(db, t, id, row)
    ensures AreFound(db, t, ids + [id], rows, at)
  {
    hide WellFormed, IsFoundBy;
    var more := ids + [id];
    forall k | 0 <= k < |at| ensures at[k] < |more| && IsFoundBy(db, t, more[at[k]], rows[k]) {
      assert more[at[k]] == ids[at[k]];
    }
    forall i, r | 0 <= i < |more| && IsFoundBy(db, t, more[i], r) ensures i in at {
      assert i < |ids| && more[i] == ids[i];
    }
  }

  /** A row stands for each key that has one, and none is left out. */
  lemma {:induction false} RowsOfKeysAreFound(db: Database, t: string, ids: seq<string>) returns (at: seq<nat>)
    requires WellFormed(db) && t in db.metas && t in db.tables
    ensures AreFound(db, t, ids, FoundInOrder(db, t, ids), at)
  {
    hide WellFormed, FoundByID, IsFoundBy, AreFound;
    at := [];
    if ids == [] {
      NoKeys(db, t);
    } else {
      var n := |ids| - 1;
      var before := RowsOfKeysAreFound(db, t, ids[..n]);
      forall row ensures IsFoundBy(db, t, ids[n], row) <==> FoundByID(db, t, ids[n]) == Some(row) {
        OnlyOneIsFound(db, t, ids[n], row);
      }
      var found := FoundByID(db, t, ids[n]);
      assert ids[..n] + [ids[n]] == ids;
      if found.Some? {
        OneMoreFound(db, t, ids[..n], ids[n], FoundInOrder(db, t, ids[..n]), before, found.value);
        at := before + [n];
      } else {
        NoMoreFound(db, t, ids[..n], ids[n], FoundInOrder(db, t, ids[..n]), before);
        at := before;
        assert FoundInOrder(db, t, ids[..n]) + [] == FoundInOrder(db, t, ids[..n]);
      }
    }
  }

  lemma NoKeys(db: Database, t: string)
    requires WellFormed(db) && t in db.metas
    ensures AreFound(db, t, [], [], [])
  {
    hide WellFormed;
  }

  lemma FoundNodesAreShown(db: Database, t: string, ids: seq<string>, fields: seq<string>, rels: seq<Rel>,
                           nodes: seq<Node>)
    requires WellFormed(db) && t in db.metas && AreResolved(db, t, fields, rels, FoundInOrder(db, t, ids), nodes)
    ensures IsByKeys(db, t, ids, fields, rels, nodes)
  {
    HasTable(db, t);
    hide WellFormed, FoundInOrder, AreResolved, AreShown;
    var at := RowsOfKeysAreFound(db, t, ids);
    ResolvedRowsAreShown(db, t, FoundInOrder(db, t, ids), fields, rels, nodes);
  }

  /** A listing resolved in batches is every listed row resolved on its own, with a query for each relationship. */
  method FetchAll(repo: GenericRepository, t: string, fields: seq<string>, rels: seq<Rel>, page: Page, filters: Filters)
    returns (nodes: Option<seq<Node>>)
    requires WellFormed(repo.db) && t in repo.db.metas
    modifies repo`queries
    ensures nodes.Some? <==> Listed(repo.db, t, Listing(page, filters)).Some?
    ensures nodes.Some? ==> AreResolved(repo.db, t, fields, rels,
        Listed(repo.db, t, Listing(page, filters)).value, nodes.value)
    ensures exists start :: BeginsAt(page, start)
              && IsPartOfList(repo.db, t, filters, page.sort, start, page.size, fields, rels, nodes)
    ensures old(repo.queries) <= repo.queries <= old(repo.queries) + 1 + Count(rels)
  {
    hide WellFormed, Resolved, Count, Listed, Scalars, Plain, At, BeginsAt, IsPartOfList;
    HasTable(repo.db, t);
    var size, offset := 0, 0;
    if page.size > 0 {
      size := page.size;
      if page.number > 1 {
        offset := Wrap64((page.number - 1) * page.size);
      }
    }
    var params := ListParams("", None, filters, page.sort, size, offset, {});
    var answer := repo.List(t, params);
    if answer.None? {
      ListedNodesAreShown(repo.db, t, fields, rels, page, filters, None);
      return None;
    }
    var rows := answer.value;
    ListedRowsAreWhole(repo.db, t, params);
    assert forall i :: 0 <= i < |rows| ==> WholeRow(repo.db, t, rows[i]);
    var ids := Printed(rows, repo.db.metas[t].pk);
    var found := NodesOf(rows, fields);
    FullRowsCarry(repo.db, t, ids, rows, rels);
    ResolveRelationshipsForRows(repo, t, ids, rows, rows, rels, found);
    nodes := Some(found[..]);
    ListedNodesAreShown(repo.db, t, fields, rels, page, filters, nodes);
  }

  /** The rows of a list of keys, in the order of the keys and without those not found. */
  ghost function FoundInOrder(db: Database, t: string, ids: seq<string>): seq<Row>
    requires WellFormed(db) && t in db.metas
  {
    if ids == [] then []
    else
      FoundInOrder(db, t, ids[..|ids| - 1])
      + match FoundByID(db, t, ids[|ids| - 1]) case None => [] case Some(row) => [row]
  }

  /** Rows asked for by key come back in the order asked for, each resolved on its own. */
  method FetchByIDs(repo: GenericRepository, t: string, ids: seq<string>, fields: seq<string>, rels: seq<Rel>)
    returns (nodes: seq<Node>)
    requires WellFormed(repo.db) && t in repo.db.metas
    modifies repo`queries
    ensures AreResolved(repo.db, t, fields, rels, FoundInOrder(repo.db, t, ids), nodes)
    ensures IsByKeys(repo.db, t, ids, fields, rels, nodes)
    ensures old(repo.queries) <= repo.queries <= old(repo.queries) + 1 + Count(rels)
  {
    hide WellFormed, Resolved, Count, Scalars, Plain, At, FoundByID, Chosen, IsByKeys;
    HasTable(repo.db, t);
    var answer := repo.FindByIDs(t, ids);
    var rows := answer.value;
    FoundRows(repo.db, t, ids);
    var byID := IndexByID(repo.db, t, ids, rows);
    var rowIDs: seq<string>, rowList: seq<Row> := [], [];
    for i := 0 to |ids|
      invariant rowList == FoundInOrder(repo.db, t, ids[..i])
      invariant |rowIDs| == |rowList|
      invariant forall k :: 0 <= k < |rowList| ==>
                  rowList[k] in rows && rowIDs[k] == Show(At(rowList[k], repo.db.metas[t].pk))
    {
      assert ids[..i + 1][..i] == ids[..i];
      if ids[i] in byID {
        rowIDs := rowIDs + [ids[i]];
        rowList := rowList + [byID[ids[i]]];
      }
    }
    assert ids[..|ids|] == ids;
    var found := NodesOf(rowList, fields);
    FullRowsCarry(repo.db, t, rowIDs, rowList, rels);
    ResolveRelationshipsForRows(repo, t, rowIDs, rowList, rowList, rels, found);
    nodes := found[..];
    FoundNodesAreShown(repo.db, t, ids, fields, rels, nodes);
  }

  method IndexByID(db: Database, t: string, ghost ids: seq<string>, rows: seq<Row>) returns (byID: map<string, Row>)
    requires WellFormed(db) && t in db.metas && t in db.tables
    requires forall k :: 0 <= k < |rows| ==> FoundByID(db, t, Show(At(rows[k], db.metas[t].pk))) == Some(rows[k])
    requires forall id :: id in ids && FoundByID(db, t, id).Some? ==>
               exists k :: 0 <= k < |rows| && Show(At(rows[k], db.metas[t].pk)) == id
    ensures forall id :: id in ids ==> FoundByID(db, t, id) == if id in byID then Some(byID[id]) else None
    ensures forall id :: id in byID ==> byID[id] in rows && Show(At(byID[id], db.metas[t].pk)) == id
  {
    hide WellFormed, FoundByID, At;
    byID := map[];
    for i := 0 to |rows|
      invariant forall id :: id in byID ==> byID[id] in rows && Show(At(byID[id], db.metas[t].pk)) == id
      invariant forall k :: 0 <= k < i ==> Show(At(rows[k], db.metas[t].pk)) in byID
    {
      byID := byID[Show(At(rows[i], db.metas[t].pk)) := rows[i]];
    }
  }
}
