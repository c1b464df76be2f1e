/** Resolving the relationships of a whole listing with one query each, against looking them up row by row. */
module Resolver {
  import opened Wrappers

  import opened ColumnNames
  import opened Ints
  import opened QueryText
  import opened Repository

  type Node = map<string, NodeValue>

  datatype NodeValue = Scalar(value: Value) | Edges(nodes: seq<Node>)

  function Show(v: Value): string {
    match v case Null => "<nil>" case Text(text) => text
  }

  // ---- Row by row ----

  /** The scalar part of a node: the requested columns that exist, or every column where none is requested. */
  function Scalars(row: Row, fields: seq<string>): Node {
    if fields == [] then Renamed(row) else Requested(row, fields)
  }

  function Requested(row: Row, fields: seq<string>): Node {
    map f | f in fields && Snake(f) in row :: Scalar(row[Snake(f)])
  }

  lemma OneFieldMore(row: Row, fields: seq<string>, f: string)
    ensures Requested(row, fields + [f])
            == if Snake(f) in row then Requested(row, fields)[f := Scalar(row[Snake(f)])] else Requested(row, fields)
  {
    hide Snake;
  }

  function Renamed(row: Row): Node {
    assert forall a, b :: Plain(a) && Plain(b) && Camel(a) == Camel(b) ==> a == b by {
      forall a, b | Plain(a) && Plain(b) && Camel(a) == Camel(b) ensures a == b { CamelTellsColumnsApart(a, b); }
    }
    map c | c in row && Plain(c) :: Camel(c) := Scalar(row[c])
  }

  function FiltersOf(db: Database, rel: Rel, meta: Meta): Filters {
    if rel.filter == "" then map[] else db.readFilter(rel.filter, meta)
  }

  /** The columns that hold a child row's place among other rows. */
  function LinkColumns(meta: Meta, fk: string, rels: seq<Rel>): set<string> {
    {fk, meta.pk} + set k | 0 <= k < |rels| && rels[k].name in meta.parents :: meta.parents[rels[k].name].fk
  }

  /** A child's scalars; a selection without any gets the linking columns. */
  function ChildScalars(meta: Meta, fk: string, rel: Rel, row: Row): Node {
    Scalars(if rel.fields == [] then Project(LinkColumns(meta, fk, rel.rels), row) else row, rel.fields)
  }

  /** One parent's children by one listing of whole rows; asking for a column the children lack is an error. */
  ghost function ChildRows(db: Database, c: ChildRelation, id: string, rel: Rel): Option<seq<Row>>
    requires WellFormed(db)
  {
    if c.childType !in db.metas then None
    else
      var meta := db.metas[c.childType];
      if exists k :: 0 <= k < |rel.fields| && Snake(rel.fields[k]) !in meta.columns then None
      else Listed(db, c.childType, ListParams(c.fk, Some(id), FiltersOf(db, rel, meta), rel.sort, 0, 0, {}))
  }

  /** What one relationship of one row leads to, or nothing where it cannot be resolved. */
  ghost function Related(db: Database, t: string, row: Row, rel: Rel): Option<seq<Node>>
    requires WellFormed(db) && t in db.metas
    decreases rel, 1
  {
    var meta := db.metas[t];
    if rel.name in meta.parents then
      var p := meta.parents[rel.name];
      if p.parentType !in db.metas then None
      else if At(row, p.fk) == Null then Some([])
      else
        match FoundByID(db, p.parentType, Show(At(row, p.fk)))
        case None => Some([])
        case Some(parent) => Some([Resolved(db, p.parentType, parent, rel.rels, Scalars(parent, rel.fields))])
    else if rel.name in meta.children then
      var c := meta.children[rel.name];
      match ChildRows(db, c, Show(At(row, meta.pk)), rel)
      case None => None
      case Some(rows) => Some(ResolvedAll(db, c, rel, rows))
    else None
  }

  ghost function ResolvedAll(db: Database, c: ChildRelation, rel: Rel, rows: seq<Row>): (nodes: seq<Node>)
    requires WellFormed(db) && c.childType in db.metas
    ensures |nodes| == |rows|
    decreases rel, 0, |rows|
  {
    if rows == [] then []
    else
      var row := rows[|rows| - 1];
      ResolvedAll(db, c, rel, rows[..|rows| - 1])
      + [Resolved(db, c.childType, row, rel.rels, ChildScalars(db.metas[c.childType], c.fk, rel, row))]
  }

  /** A node with its relationships added one after the other; one that cannot be resolved is left out. */
  ghost function Resolved(db: Database, t: string, row: Row, rels: seq<Rel>, node: Node): Node
    requires WellFormed(db) && t in db.metas
    decreases rels, 2
  {
    if rels == [] then node
    else
      var rel := rels[|rels| - 1];
      var before := Resolved(db, t, row, rels[..|rels| - 1], node);
      match Related(db, t, row, rel)
      case None => before
      case Some(nodes) => before[rel.name := Edges(nodes)]
  }

  /** The number of relationships in a selection. */
  function Count(rels: seq<Rel>): nat
    decreases rels
  {
    if rels == [] then 0
    else Count(rels[..|rels| - 1]) + 1 + Count(rels[|rels| - 1].rels)
  }

  // ---- In batches ----

  lemma {:induction false} PlainNamesAreSnake(s: string)
    requires PlainTail(s)
    ensures SnakeTail(s) == s
  {
    if s != "" {
      PlainNamesAreSnake(s[1..]);
    }
  }

  lemma PlainNamesStay(s: string)
    requires Plain(s)
    ensures Snake(s) == s
  {
    if s != "" {
      PlainNamesAreSnake(s[1..]);
    }
  }

  /** What the scalar part of a node must hold: each requested field that names a column, in either spelling, with the
      row's value, or every column in the query's spelling where no field is requested; and nothing else. */
  predicate HoldsFields(row: Row, fields: seq<string>, node: Node) {
    if fields == [] then
      && (forall c :: c in row ==> Camel(c) in node && node[Camel(c)] == Scalar(row[c]))
      && (forall f :: f in node ==> exists c :: c in row && f == Camel(c))
    else
      && (forall f, c :: f in fields && c in row && (f == c || f == Camel(c)) ==>
            f in node && node[f] == Scalar(row[c]))
      && (forall f :: f in node ==> f in fields && Snake(f) in row)
  }

  lemma ScalarsHoldFields(row: Row, fields: seq<string>)
    requires forall c :: c in row ==> Plain(c)
    ensures HoldsFields(row, fields, Scalars(row, fields))
  {
    forall f, c | f in fields && c in row && (f == c || f == Camel(c)) ensures Snake(f) == c {
      PlainNamesStay(c);
      SnakeUndoesCamel(c);
    }
    hide Snake, Plain;
    forall a, b | a in row && b in row && Camel(a) == Camel(b) ensures a == b { CamelTellsColumnsApart(a, b); }
  }

  method RenameFields(row: Row) returns (result: Node)
    requires forall c :: c in row ==> Plain(c)
    ensures result == Renamed(row)
  {
    hide Camel, Plain;
    result := map[];
    var left := row.Keys;
    while left != {}
      invariant left <= row.Keys
      invariant forall c :: c in row && c !in left ==> Camel(c) in result && result[Camel(c)] == Scalar(row[c])
      invariant forall key :: key in result ==> exists c :: c in row && c !in left && Camel(c) == key
    {
      var k :| k in left;
      left := left - {k};
      var key := SnakeToCamel(k);
      forall c | c in row && c !in left && Camel(c) == key ensures c == k { CamelTellsColumnsApart(c, k); }
      result := result[key := Scalar(row[k])];
    }
  }

  lemma NothingRequested(row: Row)
    ensures Requested(row, []) == map[]
  {
  }

  method FilterFields(row: Row, fields: seq<string>) returns (result: Node)
    requires forall c :: c in row ==> Plain(c)
    ensures result == Scalars(row, fields)
    ensures HoldsFields(row, fields, result)
  {
    ScalarsHoldFields(row, fields);
    hide Renamed, Plain, Snake, HoldsFields, Requested;
    if |fields| == 0 {
      result := RenameFields(row);
      return;
    }
    result := map[];
    NothingRequested(row);
    for i := 0 to |fields|
      invariant result == Requested(row, fields[..i])
    {
      var f := fields[i];
      OneFieldMore(row, fields[..i], f);
      assert fields[..i + 1] == fields[..i] + [f];
      if f in row {
        PlainNamesStay(f);
        result := result[f := Scalar(row[f])];
      } else {
        var snake := CamelToSnake(f);
        if snake in row {
          result := result[f := Scalar(row[snake])];
        }
      }
    }
    assert fields[..|fields|] == fields;
  }

  method NodesOf(rows: seq<Row>, fields: seq<string>) returns (nodes: array<Node>)
    requires forall k, c :: 0 <= k < |rows| && c in rows[k] ==> Plain(c)
    ensures fresh(nodes) && nodes.Length == |rows|
    ensures forall k :: 0 <= k < |rows| ==> nodes[k] == Scalars(rows[k], fields)
  {
    hide *;
    nodes := new Node[|rows|](_ => map[]);
    for i := 0 to |rows|
      modifies nodes
      invariant forall k :: 0 <= k < i ==> nodes[k] == Scalars(rows[k], fields)
    {
      nodes[i] := FilterFields(rows[i], fields);
    }
  }

  method Printed(rows: seq<Row>, column: string) returns (texts: seq<string>)
    ensures |texts| == |rows| && forall k :: 0 <= k < |rows| ==> texts[k] == Show(At(rows[k], column))
  {
    texts := [];
    for i := 0 to |rows|
      invariant |texts| == i && forall k :: 0 <= k < i ==> texts[k] == Show(At(rows[k], column))
    {
      texts := texts + [Show(At(rows[i], column))];
    }
  }

  /** `rows` may hold fewer columns than the table; what relationships are found by must be among them. */
  ghost predicate Carries(meta: Meta, rel: Rel, row: Row, full: Row) {
    rel.name in meta.parents ==> At(row, meta.parents[rel.name].fk) == At(full, meta.parents[rel.name].fk)
  }

  ghost predicate IsBatch(db: Database, t: string, ids: seq<string>, full: seq<Row>)
    requires WellFormed(db) && t in db.metas
  {
    && |ids| == |full|
    && forall i :: 0 <= i < |full| ==> full[i] in db.tables[t] && At(full[i], db.metas[t].pk) == Text(ids[i])
  }

  lemma SameIdSameRow(db: Database, t: string, ids: seq<string>, full: seq<Row>, i: int, j: int)
    requires WellFormed(db) && t in db.metas && IsBatch(db, t, ids, full)
    requires 0 <= i < |ids| && 0 <= j < |ids| && ids[i] == ids[j]
    ensures full[i] == full[j]
  {
  }

  /** A map from ids gives every row of the batch its relationship; an id it lacks has no related rows. */
  ghost predicate Answers(db: Database, t: string, ids: seq<string>, full: seq<Row>, rel: Rel,
      found: Option<map<string, seq<Node>>>)
    requires WellFormed(db) && t in db.metas && |ids| == |full|
  {
    forall i :: 0 <= i < |ids| ==>
      Related(db, t, full[i], rel) ==
      if found.None? then None else if ids[i] in found.value then Some(found.value[ids[i]]) else Some([])
  }

  method ResolveRelationshipsForRows(repo: GenericRepository, t: string, ids: seq<string>, rows: seq<Row>,
      ghost full: seq<Row>, rels: seq<Rel>, nodes: array<Node>)
    requires WellFormed(repo.db) && t in repo.db.metas
    requires |ids| == |rows| == nodes.Length && IsBatch(repo.db, t, ids, full)
    requires forall k, i :: 0 <= k < |rels| && 0 <= i < |rows| ==> Carries(repo.db.metas[t], rels[k], rows[i], full[i])
    modifies repo`queries, nodes
    ensures forall i :: 0 <= i < nodes.Length ==> nodes[i] == Resolved(repo.db, t, full[i], rels, old(nodes[i]))
    ensures old(repo.queries) <= repo.queries <= old(repo.queries) + Count(rels)
    decreases rels, 3
  {
    hide WellFormed, Related, Resolved, Count;
    NothingToResolve(repo.db, t);
    if |ids| == 0 {
      return;
    }
    for r := 0 to |rels|
      invariant forall i :: 0 <= i < nodes.Length ==>
          nodes[i] == Resolved(repo.db, t, full[i], rels[..r], old(nodes[i]))
      invariant old(repo.queries) <= repo.queries <= old(repo.queries) + Count(rels[..r])
    {
      var perParent := ResolveRelationshipBatch(repo, t, ids, rows, full, rels[r]);
      OneMoreRelationship(repo.db, t, rels, r);
      if perParent.Some? {
        SetRelationship(nodes, ids, rels[r].name, perParent.value);
      }
    }
    assert rels[..|rels|] == rels;
  }

  method SetRelationship(nodes: array<Node>, ids: seq<string>, name: string, perParent: map<string, seq<Node>>)
    requires |ids| == nodes.Length
    modifies nodes
    ensures forall i :: 0 <= i < nodes.Length ==>
              nodes[i] == old(nodes[i])[name := Edges(if ids[i] in perParent then perParent[ids[i]] else [])]
  {
    for i := 0 to |ids|
      invariant forall k :: 0 <= k < i ==>
                  nodes[k] == old(nodes[k])[name := Edges(if ids[k] in perParent then perParent[ids[k]] else [])]
      invariant forall k :: i <= k < nodes.Length ==> nodes[k] == old(nodes[k])
    {
      if ids[i] in perParent {
        nodes[i] := nodes[i][name := Edges(perParent[ids[i]])];
      } else {
        nodes[i] := nodes[i][name := Edges([])];
      }
    }
  }

  lemma NothingToResolve(db: Database, t: string)
    requires WellFormed(db) && t in db.metas
    ensures Count([]) == 0 && forall row, node :: Resolved(db, t, row, [], node) == node
  {
    hide WellFormed;
  }

  lemma OneMoreRelationship(db: Database, t: string, rels: seq<Rel>, r: nat)
    requires WellFormed(db) && t in db.metas && r < |rels|
    ensures Count(rels[..r + 1]) == Count(rels[..r]) + 1 + Count(rels[r].rels)
    ensures forall row, node ::
              Resolved(db, t, row, rels[..r + 1], node) ==
              match Related(db, t, row, rels[r])
              case None => Resolved(db, t, row, rels[..r], node)
              case Some(nodes) => Resolved(db, t, row, rels[..r], node)[rels[r].name := Edges(nodes)]
  {
    hide WellFormed, Related;
    assert rels[..r + 1][..r] == rels[..r] && rels[..r + 1][r] == rels[r];
  }

  method ResolveRelationshipBatch(repo: GenericRepository, t: string, ids: seq<string>, rows: seq<Row>,
      ghost full: seq<Row>, rel: Rel)
    returns (found: Option<map<string, seq<Node>>>)
    requires WellFormed(repo.db) && t in repo.db.metas
    requires |ids| == |rows| > 0 && IsBatch(repo.db, t, ids, full)
    requires forall i :: 0 <= i < |rows| ==> Carries(repo.db.metas[t], rel, rows[i], full[i])
    modifies repo`queries
    ensures Answers(repo.db, t, ids, full, rel, found)
    ensures old(repo.queries) <= repo.queries <= old(repo.queries) + 1 + Count(rel.rels)
    decreases rel, 2
  {
    var meta := repo.db.metas[t];
    if rel.name in meta.parents {
      found := ResolveToOneBatch(repo, t, ids, rows, full, meta.parents[rel.name], rel);
    } else if rel.name in meta.children {
      found := ResolveToManyBatch(repo, t, ids, full, meta.children[rel.name], rel);
    } else {
      found := None;
    }
  }

  method ResolveToOneBatch(repo: GenericRepository, t: string, ids: seq<string>, rows: seq<Row>, ghost full: seq<Row>,
                           toOne: ParentRelation, rel: Rel)
    returns (found: Option<map<string, seq<Node>>>)
    requires WellFormed(repo.db) && t in repo.db.metas
    requires |ids| == |rows| && IsBatch(repo.db, t, ids, full)
    requires rel.name in repo.db.metas[t].parents && toOne == repo.db.metas[t].parents[rel.name]
    requires forall i :: 0 <= i < |rows| ==> Carries(repo.db.metas[t], rel, rows[i], full[i])
    modifies repo`queries
    ensures Answers(repo.db, t, ids, full, rel, found)
    ensures old(repo.queries) <= repo.queries <= old(repo.queries) + 1 + Count(rel.rels)
    decreases rel, 1
  {
    hide WellFormed, Resolved, Related, Chosen, FoundByID, Scalars, Plain, PointedAt, Grouped, Count, At;
    var db, u := repo.db, toOne.parentType;
    if u !in db.metas {
      ToOneOfUnknownType(db, t, ids, full, rel);
      return None;
    }
    CarriedKeys(db, t, ids, rows, full, rel);
    var fkToParents, fkValues := GroupByKey(ids, rows, toOne.fk);
    if |fkValues| == 0 {
      ToOneAnswers(db, t, ids, rows, full, rel, fkToParents, fkValues, [], [], [], map[]);
      return Some(map[]);
    }
    var answer := repo.FindByIDs(u, fkValues);
    var relRows := answer.value;
    FoundRows(db, u, fkValues);
    var relIDs := Printed(relRows, db.metas[u].pk);
    var relNodes := NodesOf(relRows, rel.fields);
    assert forall k :: 0 <= k < |relRows| ==> relIDs[k] in fkToParents;
    FullRowsCarry(db, u, relIDs, relRows, rel.rels);
    ResolveRelationshipsForRows(repo, u, relIDs, relRows, relRows, rel.rels, relNodes);
    var result := SpreadToParents(relIDs, relNodes[..], fkToParents);
    ToOneAnswers(db, t, ids, rows, full, rel, fkToParents, fkValues, relIDs, relRows, relNodes[..], result);
    found := Some(result);
  }

  /** Which parents point at which key. */
  method GroupByKey(ids: seq<string>, rows: seq<Row>, fk: string)
    returns (fkToParents: map<string, seq<string>>, fkValues: seq<string>)
    requires |ids| == |rows|
    requires forall i, j :: 0 <= i < |ids| && 0 <= j < |ids| && ids[i] == ids[j] ==> At(rows[i], fk) == At(rows[j], fk)
    ensures Grouped(ids, rows, fk, fkToParents, fkValues, |ids|)
  {
    fkToParents, fkValues := map[], [];
    for i := 0 to |ids|
      invariant Grouped(ids, rows, fk, fkToParents, fkValues, i)
    {
      var fkVal := At(rows[i], fk);
      if fkVal != Null {
        var f := Show(fkVal);
        if f !in fkToParents {
          fkValues := fkValues + [f];
          fkToParents := fkToParents[f := []];
        }
        fkToParents := fkToParents[f := fkToParents[f] + [ids[i]]];
      }
    }
  }

  ghost predicate Grouped(ids: seq<string>, rows: seq<Row>, fk: string, fkToParents: map<string, seq<string>>,
      fkValues: seq<string>, n: nat)
    requires |ids| == |rows| && n <= |ids|
  {
    && (forall f :: f in fkToParents <==> f in fkValues)
    && (forall f, q, j :: f in fkToParents && 0 <= q < |fkToParents[f]| && 0 <= j < |ids| && ids[j] == fkToParents[f][q]
          ==> At(rows[j], fk) == Text(f))
    && (forall j :: 0 <= j < n && At(rows[j], fk).Text? ==>
          At(rows[j], fk).text in fkToParents && ids[j] in fkToParents[At(rows[j], fk).text])
  }

  /** Every parent of a found row gets its node. */
  method SpreadToParents(relIDs: seq<string>, relNodes: seq<Node>, fkToParents: map<string, seq<string>>)
    returns (result: map<string, seq<Node>>)
    requires |relIDs| == |relNodes|
    requires forall k :: 0 <= k < |relIDs| ==> relIDs[k] in fkToParents
    ensures forall pid :: pid in result ==> PointedAt(relIDs, relNodes, fkToParents, pid, result[pid])
    ensures forall k, q :: 0 <= k < |relIDs| && 0 <= q < |fkToParents[relIDs[k]]| ==>
        fkToParents[relIDs[k]][q] in result
  {
    result := map[];
    for i := 0 to |relIDs|
      invariant forall pid :: pid in result ==> PointedAt(relIDs, relNodes, fkToParents, pid, result[pid])
      invariant forall k, q :: 0 <= k < i && 0 <= q < |fkToParents[relIDs[k]]| ==> fkToParents[relIDs[k]][q] in result
    {
      var pids := fkToParents[relIDs[i]];
      for p := 0 to |pids|
        invariant forall pid :: pid in result ==> PointedAt(relIDs, relNodes, fkToParents, pid, result[pid])
        invariant forall k, q :: 0 <= k < i && 0 <= q < |fkToParents[relIDs[k]]| ==> fkToParents[relIDs[k]][q] in result
        invariant forall q :: 0 <= q < p ==> pids[q] in result
      {
        result := result[pids[p] := [relNodes[i]]];
      }
    }
  }

  ghost predicate PointedAt(relIDs: seq<string>, relNodes: seq<Node>, fkToParents: map<string, seq<string>>,
      pid: string, edges: seq<Node>)
    requires |relIDs| == |relNodes|
  {
    exists k, q :: 0 <= k < |relIDs| && relIDs[k] in fkToParents && 0 <= q < |fkToParents[relIDs[k]]|
                   && fkToParents[relIDs[k]][q] == pid && edges == [relNodes[k]]
  }

  lemma ToOneOfUnknownType(db: Database, t: string, ids: seq<string>, full: seq<Row>, rel: Rel)
    requires WellFormed(db) && t in db.metas && |ids| == |full|
    requires rel.name in db.metas[t].parents && db.metas[t].parents[rel.name].parentType !in db.metas
    ensures Answers(db, t, ids, full, rel, None)
  {
    hide WellFormed;
  }

  lemma CarriedKeys(db: Database, t: string, ids: seq<string>, rows: seq<Row>, full: seq<Row>, rel: Rel)
    requires WellFormed(db) && t in db.metas && |ids| == |rows| && IsBatch(db, t, ids, full)
    requires rel.name in db.metas[t].parents
    requires forall i :: 0 <= i < |rows| ==> Carries(db.metas[t], rel, rows[i], full[i])
    ensures var fk := db.metas[t].parents[rel.name].fk;
            && (forall i :: 0 <= i < |rows| ==> At(rows[i], fk) == At(full[i], fk))
            && (forall i, j :: 0 <= i < |ids| && 0 <= j < |ids| && ids[i] == ids[j] ==>
                At(rows[i], fk) == At(rows[j], fk))
  {
    forall i, j | 0 <= i < |ids| && 0 <= j < |ids| && ids[i] == ids[j] ensures full[i] == full[j] {
      SameIdSameRow(db, t, ids, full, i, j);
    }
  }

  /** The rows found by a list of keys are whole rows, and each is the row of its key. */
  lemma FoundRows(db: Database, u: string, keys: seq<string>)
    requires WellFormed(db) && u in db.metas
    ensures var rows := Chosen(db.metas[u], Among(db.metas[u].pk, keys), map[], db.tables[u]);
            forall k :: 0 <= k < |rows| ==>
              && rows[k] in db.tables[u] && rows[k].Keys == db.metas[u].columns
              && (forall c :: c in rows[k] ==> Plain(c))
              && At(rows[k], db.metas[u].pk).Text?
              && Show(At(rows[k], db.metas[u].pk)) in keys
              && FoundByID(db, u, Show(At(rows[k], db.metas[u].pk))) == Some(rows[k])
    ensures var rows := Chosen(db.metas[u], Among(db.metas[u].pk, keys), map[], db.tables[u]);
            forall f :: f in keys && FoundByID(db, u, f).Some? ==>
              exists k :: 0 <= k < |rows| && Show(At(rows[k], db.metas[u].pk)) == f
  {
    hide Chosen, FoundByID, Plain, IsSafe;
    var meta := db.metas[u];
    var rows := Chosen(meta, Among(meta.pk, keys), map[], db.tables[u]);
    forall k | 0 <= k < |rows|
      ensures && rows[k] in db.tables[u] && rows[k].Keys == db.metas[u].columns
              && (forall c :: c in rows[k] ==> Plain(c))
              && At(rows[k], meta.pk).Text? && Show(At(rows[k], meta.pk)) in keys
              && FoundByID(db, u, Show(At(rows[k], meta.pk))) == Some(rows[k])
    {
      ChosenMembers(meta, Among(meta.pk, keys), map[], db.tables[u], rows[k]);
      FindingIsUnique(db, u, Show(At(rows[k], meta.pk)), rows[k]);
    }
    forall f | f in keys && FoundByID(db, u, f).Some?
      ensures exists k :: 0 <= k < |rows| && Show(At(rows[k], db.metas[u].pk)) == f
    {
      var row := FoundByID(db, u, f).value;
      FindingIsUnique(db, u, f, row);
      ChosenMembers(meta, Among(meta.pk, keys), map[], db.tables[u], row);
      var k :| 0 <= k < |rows| && rows[k] == row;
    }
  }

  lemma FullRowsCarry(db: Database, u: string, ids: seq<string>, rows: seq<Row>, rels: seq<Rel>)
    requires WellFormed(db) && u in db.metas && |ids| == |rows|
    requires forall k :: 0 <= k < |rows| ==>
               rows[k] in db.tables[u] && At(rows[k], db.metas[u].pk).Text? &&
                   ids[k] == Show(At(rows[k], db.metas[u].pk))
    ensures IsBatch(db, u, ids, rows)
    ensures forall r, i :: 0 <= r < |rels| && 0 <= i < |rows| ==> Carries(db.metas[u], rels[r], rows[i], rows[i])
  {
    hide WellFormed;
  }

  lemma HasTable(db: Database, u: string)
    requires WellFormed(db) && u in db.metas
    ensures u in db.tables
  {
  }

  lemma ToOneAnswers(db: Database, t: string, ids: seq<string>, rows: seq<Row>, full: seq<Row>, rel: Rel,
                     fkToParents: map<string, seq<string>>, fkValues: seq<string>,
                     relIDs: seq<string>, relRows: seq<Row>, relNodes: seq<Node>, result: map<string, seq<Node>>)
    requires WellFormed(db) && t in db.metas && |ids| == |rows| == |full| && |relIDs| == |relRows| == |relNodes|
    requires rel.name in db.metas[t].parents && db.metas[t].parents[rel.name].parentType in db.metas
    requires var fk := db.metas[t].parents[rel.name].fk;
             && (forall i :: 0 <= i < |rows| ==> At(rows[i], fk) == At(full[i], fk))
             && Grouped(ids, rows, fk, fkToParents, fkValues, |ids|)
    requires var u := db.metas[t].parents[rel.name].parentType;
             && (forall k :: 0 <= k < |relRows| ==>
                   && FoundByID(db, u, relIDs[k]) == Some(relRows[k])
                   && relNodes[k] == Resolved(db, u, relRows[k], rel.rels, Scalars(relRows[k], rel.fields)))
             && (forall f :: f in fkValues && FoundByID(db, u, f).Some? ==> f in relIDs)
    requires forall k :: 0 <= k < |relIDs| ==> relIDs[k] in fkToParents
    requires forall pid :: pid in result ==> PointedAt(relIDs, relNodes, fkToParents, pid, result[pid])
    requires forall k, q :: 0 <= k < |relIDs| && 0 <= q < |fkToParents[relIDs[k]]| ==>
        fkToParents[relIDs[k]][q] in result
    ensures Answers(db, t, ids, full, rel, Some(result))
  {
    hide WellFormed, FoundByID, Resolved, Scalars;
    var fk, u := db.metas[t].parents[rel.name].fk, db.metas[t].parents[rel.name].parentType;
    HasTable(db, u);
    forall j | 0 <= j < |ids|
      ensures Related(db, t, full[j], rel) == if ids[j] in result then Some(result[ids[j]]) else Some([])
    {
      var v := At(full[j], fk);
      if v.Text? && v.text in relIDs {
        assert v.text in fkToParents && ids[j] in fkToParents[v.text];
        var k :| 0 <= k < |relIDs| && relIDs[k] == v.text;
        var q :| 0 <= q < |fkToParents[v.text]| && fkToParents[v.text][q] == ids[j];
        assert ids[j] in result;
      }
      if ids[j] in result {
        var k, q :| 0 <= k < |relIDs| && relIDs[k] in fkToParents && 0 <= q < |fkToParents[relIDs[k]]|
                    && fkToParents[relIDs[k]][q] == ids[j] && result[ids[j]] == [relNodes[k]];
        assert At(rows[j], fk) == Text(relIDs[k]);
        assert FoundByID(db, u, relIDs[k]) == Some(relRows[k]);
      } else if v.Text? {
        assert v.text in fkToParents;
      }
    }
  }

  method ResolveToManyBatch(repo: GenericRepository, t: string, ids: seq<string>, ghost full: seq<Row>,
      c: ChildRelation, rel: Rel)
    returns (found: Option<map<string, seq<Node>>>)
    requires WellFormed(repo.db) && t in repo.db.metas
    requires |ids| > 0 && IsBatch(repo.db, t, ids, full)
    requires rel.name in repo.db.metas[t].children && c == repo.db.metas[t].children[rel.name]
    requires rel.name !in repo.db.metas[t].parents
    modifies repo`queries
    ensures Answers(repo.db, t, ids, full, rel, found)
    ensures old(repo.queries) <= repo.queries <= old(repo.queries) + 1 + Count(rel.rels)
    decreases rel, 1
  {
    hide WellFormed, Resolved, Related, Chosen, Ordered, Asked, Selected, OrderBy, LinkColumns, Scalars, ChildScalars,
        Plain, Bucket,
      CanList, Count, At, Project, Answers, Snake, IsSafe, Carries;
    var db, u := repo.db, c.childType;
    var childMeta := if u in db.metas then Some(db.metas[u]) else None;
    var cols := ChildColumns(childMeta, c.fk, rel);
    var filters: Filters := map[];
    if childMeta.Some? && rel.filter != "" {
      filters := db.readFilter(rel.filter, childMeta.value);
    }
    var answer := repo.ListByParentFKs(u, c.fk, ids, cols, rel.sort, filters);
    ChildTypeColumns(db, t, rel.name);
    if answer.None? {
      ToManyFails(db, t, ids, full, c, rel, cols, filters);
      return None;
    }
    var meta, childRows := childMeta.value, answer.value;
    ghost var batch := ChildBatch(db, c, ids, rel);
    ToManyRows(db, c, ids, rel, cols, filters);
    var childIDs := Printed(childRows, meta.pk);
    var childNodes := NodesOf(childRows, rel.fields);
    var parentOf := Printed(childRows, c.fk);
    if |childRows| == 0 {
      assert childNodes[..] == [];
      ToManyAnswers(db, t, ids, full, c, rel, [], [], map[]);
      return Some(map[]);
    }
    if |rel.rels| > 0 {
      ResolveRelationshipsForRows(repo, u, childIDs, childRows, batch, rel.rels, childNodes);
    } else {
      assert rel.rels == [];
      NothingToResolve(db, u);
    }
    var byParent := BucketByParent(parentOf, childNodes[..]);
    ToManyAnswers(db, t, ids, full, c, rel, parentOf, childNodes[..], byParent);
    found := Some(byParent);
  }

  function Bucket(parentOf: seq<string>, nodes: seq<Node>, pid: string): seq<Node>
    requires |parentOf| == |nodes|
  {
    if parentOf == [] then []
    else
      var n := |parentOf| - 1;
      Bucket(parentOf[..n], nodes[..n], pid) + if parentOf[n] == pid then [nodes[n]] else []
  }

  method BucketByParent(parentOf: seq<string>, nodes: seq<Node>) returns (byParent: map<string, seq<Node>>)
    requires |parentOf| == |nodes|
    ensures forall pid :: (if pid in byParent then byParent[pid] else []) == Bucket(parentOf, nodes, pid)
  {
    byParent := map[];
    for i := 0 to |nodes|
      invariant forall pid :: (if pid in byParent then byParent[pid] else []) == Bucket(parentOf[..i], nodes[..i], pid)
    {
      var siblings := if parentOf[i] in byParent then byParent[parentOf[i]] else [];
      assert parentOf[..i + 1][..i] == parentOf[..i] && nodes[..i + 1][..i] == nodes[..i];
      byParent := byParent[parentOf[i] := siblings + [nodes[i]]];
    }
    assert parentOf[..|nodes|] == parentOf && nodes[..|nodes|] == nodes;
  }

  /** All the parents' children, as the one query gives them but with every column. */
  ghost function ChildBatch(db: Database, c: ChildRelation, ids: seq<string>, rel: Rel): seq<Row>
    requires WellFormed(db) && c.childType in db.metas
  {
    var meta := db.metas[c.childType];
    Ordered(db.rank, [Key(c.fk, false)] + OrderBy(rel.sort),
            Chosen(meta, Among(c.fk, ids), FiltersOf(db, rel, meta), db.tables[c.childType]))
  }

  lemma ChildTypeColumns(db: Database, t: string, name: string)
    requires WellFormed(db) && t in db.metas && name in db.metas[t].children
    ensures var c := db.metas[t].children[name];
            c.childType in db.metas ==>
              c.fk in db.metas[c.childType].columns && IsSafe(c.fk) && c.childType in db.tables
  {
    hide Plain, IsSafe;
  }

  /** The one condition under which children can be listed, for a batch as for one parent. */
  ghost predicate CanList(meta: Meta, filters: Filters, rel: Rel) {
    && (forall k :: 0 <= k < |rel.fields| ==> Snake(rel.fields[k]) in meta.columns)
    && Mentioned(filters) + KeyColumns(OrderBy(rel.sort)) <= meta.columns
  }

  lemma LinksExist(db: Database, u: string, fk: string, rels: seq<Rel>)
    requires WellFormed(db) && u in db.metas && fk in db.metas[u].columns
    ensures fk in LinkColumns(db.metas[u], fk, rels)
    ensures LinkColumns(db.metas[u], fk, rels) <= db.metas[u].columns
  {
    hide Plain, IsSafe;
  }

  lemma BatchQueryWorks(db: Database, c: ChildRelation, ids: seq<string>, rel: Rel, cols: set<string>, filters: Filters)
    requires WellFormed(db) && c.childType in db.metas && c.fk in db.metas[c.childType].columns
    requires cols == LinkColumns(db.metas[c.childType], c.fk, rel.rels) + set f | f in rel.fields :: Snake(f)
    ensures var meta := db.metas[c.childType];
            Selected(meta, cols) + Asked(Among(c.fk, ids), filters, OrderBy(rel.sort)) <= meta.columns <==>
                CanList(meta, filters, rel)
    ensures Selected(db.metas[c.childType], cols) == cols
  {
    hide WellFormed, OrderBy, KeyColumns, Mentioned, Snake, LinkColumns;
    var meta := db.metas[c.childType];
    LinksExist(db, c.childType, c.fk, rel.rels);
    assert c.fk in cols;
    if CanList(meta, filters, rel) {
      forall f | f in rel.fields ensures Snake(f) in meta.columns {
        var k :| 0 <= k < |rel.fields| && rel.fields[k] == f;
      }
    } else if forall k :: 0 <= k < |rel.fields| ==> Snake(rel.fields[k]) in meta.columns {
    } else {
      var k :| 0 <= k < |rel.fields| && Snake(rel.fields[k]) !in meta.columns;
      assert Snake(rel.fields[k]) in cols;
    }
  }

  /** One listing per parent gives that parent's part of the batch. */
  lemma ChildRowsOfBatch(db: Database, c: ChildRelation, id: string, ids: seq<string>, rel: Rel)
    requires WellFormed(db) && c.childType in db.metas && c.fk in db.metas[c.childType].columns &&
        IsSafe(c.fk) && id in ids
    ensures var meta := db.metas[c.childType];
            ChildRows(db, c, id, rel) ==
            if CanList(meta, FiltersOf(db, rel, meta), rel)
                then Some(OfParent(c.fk, id, ChildBatch(db, c, ids, rel))) else None
  {
    hide WellFormed, OfParent, Ordered, Chosen, OrderBy, FiltersOf, Mentioned, KeyColumns, Snake, Projected;
    var u := c.childType;
    var meta := db.metas[u];
    var filters, keys := FiltersOf(db, rel, meta), OrderBy(rel.sort);
    HasTable(db, u);
    BatchHoldsEveryParentsList(db, meta, c.fk, id, ids, filters, keys, db.tables[u]);
    OrderedRowsAreWhole(db, u, Among(c.fk, [id]), filters, keys);
    WholeRows(meta.columns, Ordered(db.rank, keys, Chosen(meta, Among(c.fk, [id]), filters, db.tables[u])));
  }

  lemma OrderedRowsAreWhole(db: Database, u: string, within: Within, filters: Filters, keys: seq<Key>)
    requires WellFormed(db) && u in db.metas
    ensures var meta := db.metas[u];
            var rows := Ordered(db.rank, keys, Chosen(meta, within, filters, db.tables[u]));
            forall i :: 0 <= i < |rows| ==>
              rows[i] in db.tables[u] && rows[i].Keys == meta.columns &&
                  At(rows[i], meta.pk).Text? && Lies(within, rows[i])
  {
    hide Chosen, Ordered, Plain, IsSafe;
    var meta := db.metas[u];
    var chosen := Chosen(meta, within, filters, db.tables[u]);
    var rows := Ordered(db.rank, keys, chosen);
    OrderingSorts(db.rank, keys, chosen);
    forall i | 0 <= i < |rows|
      ensures rows[i] in db.tables[u] && rows[i].Keys == meta.columns &&
          At(rows[i], meta.pk).Text? && Lies(within, rows[i])
    {
      assert rows[i] in multiset(rows) && rows[i] in chosen;
      ChosenMembers(meta, within, filters, db.tables[u], rows[i]);
    }
  }

  lemma ToManyFails(db: Database, t: string, ids: seq<string>, full: seq<Row>, c: ChildRelation, rel: Rel,
      cols: set<string>, filters: Filters)
    requires WellFormed(db) && t in db.metas && IsBatch(db, t, ids, full)
    requires rel.name in db.metas[t].children && c == db.metas[t].children[rel.name] && rel.name !in db.metas[t].parents
    requires c.childType in db.metas ==>
               && IsSafe(c.fk) && c.fk in db.metas[c.childType].columns
               && cols == LinkColumns(db.metas[c.childType], c.fk, rel.rels) + (set f | f in rel.fields :: Snake(f))
               && filters == FiltersOf(db, rel, db.metas[c.childType])
               && !(Selected(db.metas[c.childType], cols) + Asked(Among(c.fk, ids), filters, OrderBy(rel.sort)) <=
                   db.metas[c.childType].columns)
    ensures Answers(db, t, ids, full, rel, None)
  {
    hide WellFormed, Selected, Asked, OrderBy, FiltersOf, CanList, LinkColumns;
    forall i | 0 <= i < |ids| ensures Related(db, t, full[i], rel) == None {
      assert Show(At(full[i], db.metas[t].pk)) == ids[i];
      if c.childType in db.metas {
        BatchQueryWorks(db, c, ids, rel, cols, filters);
        ChildRowsOfBatch(db, c, ids[i], ids, rel);
      }
    }
  }

  /** What the rows of the one query have in common with the whole rows behind them. */
  lemma ToManyRows(db: Database, c: ChildRelation, ids: seq<string>, rel: Rel, cols: set<string>, filters: Filters)
    requires WellFormed(db) && c.childType in db.metas && IsSafe(c.fk) && c.fk in db.metas[c.childType].columns
    requires cols == LinkColumns(db.metas[c.childType], c.fk, rel.rels) + (set f | f in rel.fields :: Snake(f))
    requires filters == FiltersOf(db, rel, db.metas[c.childType])
    requires Selected(db.metas[c.childType], cols) + Asked(Among(c.fk, ids), filters, OrderBy(rel.sort)) <=
        db.metas[c.childType].columns
    ensures var meta := db.metas[c.childType];
            && CanList(meta, filters, rel)
            && Selected(meta, cols) == cols
            && (forall i :: 0 <= i < |ChildBatch(db, c, ids, rel)| ==>
                  ChildRowOk(db, c, rel, ids, Project(cols, ChildBatch(db, c, ids, rel)[i]),
                      ChildBatch(db, c, ids, rel)[i]))
  {
    hide WellFormed, Ordered, Chosen, OrderBy, FiltersOf, CanList, LinkColumns, Selected, Asked, Snake, ChildRowOk;
    var meta, batch := db.metas[c.childType], ChildBatch(db, c, ids, rel);
    BatchQueryWorks(db, c, ids, rel, cols, filters);
    OrderedRowsAreWhole(db, c.childType, Among(c.fk, ids), filters, [Key(c.fk, false)] + OrderBy(rel.sort));
    HasTable(db, c.childType);
    assert batch == Ordered(db.rank, [Key(c.fk, false)] + OrderBy(rel.sort),
                            Chosen(meta, Among(c.fk, ids), filters, db.tables[c.childType]));
    forall i | 0 <= i < |batch| ensures ChildRowOk(db, c, rel, ids, Project(cols, batch[i]), batch[i]) {
      SelectedChildRow(db, c, rel, ids, cols, filters, batch[i]);
    }
  }

  ghost predicate ChildRowOk(db: Database, c: ChildRelation, rel: Rel, ids: seq<string>, row: Row, full: Row)
    requires WellFormed(db) && c.childType in db.metas
  {
    var meta := db.metas[c.childType];
    && full in db.tables[c.childType]
    && At(row, meta.pk) == At(full, meta.pk) && At(full, meta.pk).Text?
    && At(row, c.fk) == At(full, c.fk) && At(full, c.fk).Text?
    && (forall k :: 0 <= k < |rel.rels| ==> Carries(meta, rel.rels[k], row, full))
    && (forall col :: col in row ==> Plain(col))
    && Scalars(row, rel.fields) == ChildScalars(meta, c.fk, rel, full)
  }

  lemma SelectedChildRow(db: Database, c: ChildRelation, rel: Rel, ids: seq<string>, cols: set<string>,
      filters: Filters, full: Row)
    requires WellFormed(db) && c.childType in db.metas && c.fk in db.metas[c.childType].columns
    requires cols == LinkColumns(db.metas[c.childType], c.fk, rel.rels) + (set f | f in rel.fields :: Snake(f))
    requires CanList(db.metas[c.childType], filters, rel)
    requires full in db.tables[c.childType] && full.Keys == db.metas[c.childType].columns
    requires At(full, db.metas[c.childType].pk).Text? && Lies(Among(c.fk, ids), full)
    ensures ChildRowOk(db, c, rel, ids, Project(cols, full), full)
  {
    hide Snake, Renamed, IsSafe, OrderBy, Mentioned, KeyColumns, TableOk;
    var meta, row := db.metas[c.childType], Project(cols, full);
    LinksExist(db, c.childType, c.fk, rel.rels);
    forall f | f in rel.fields ensures Snake(f) in meta.columns {
      var k :| 0 <= k < |rel.fields| && rel.fields[k] == f;
    }
    PlainColumns(db, c.childType);
    if rel.fields == [] {
      assert cols == LinkColumns(meta, c.fk, rel.rels);
    } else {
      assert Scalars(row, rel.fields) == Scalars(full, rel.fields);
    }
  }

  lemma PlainColumns(db: Database, u: string)
    requires WellFormed(db) && u in db.metas
    ensures forall col :: col in db.metas[u].columns ==> Plain(col)
  {
    hide Plain, IsSafe;
  }

  lemma {:induction false} BucketsAreResolved(db: Database, c: ChildRelation, rel: Rel, batch: seq<Row>,
      parentOf: seq<string>, nodes: seq<Node>, id: string)
    requires WellFormed(db) && c.childType in db.metas && |batch| == |parentOf| == |nodes|
    requires forall i :: 0 <= i < |batch| ==>
               && At(batch[i], c.fk) == Text(parentOf[i])
               && nodes[i] == Resolved(db, c.childType, batch[i], rel.rels,
                   ChildScalars(db.metas[c.childType], c.fk, rel, batch[i]))
    ensures Bucket(parentOf, nodes, id) == ResolvedAll(db, c, rel, OfParent(c.fk, id, batch))
  {
    hide WellFormed, Resolved, ChildScalars, OfParent;
    if batch == [] {
      OfNothing(c.fk, id);
    } else {
      var n := |batch| - 1;
      BucketsAreResolved(db, c, rel, batch[..n], parentOf[..n], nodes[..n], id);
      assert batch == batch[..n] + [batch[n]];
      OfParentGrows(c.fk, id, batch[..n], batch[n]);
      var mine := OfParent(c.fk, id, batch[..n]);
      if parentOf[n] == id {
        assert (mine + [batch[n]])[..|mine|] == mine;
      } else {
        assert mine + [] == mine;
      }
    }
  }

  lemma OfNothing(fk: string, id: string)
    ensures OfParent(fk, id, []) == []
  {
  }

  lemma ToManyAnswers(db: Database, t: string, ids: seq<string>, full: seq<Row>, c: ChildRelation, rel: Rel,
                      parentOf: seq<string>, nodes: seq<Node>, byParent: map<string, seq<Node>>)
    requires WellFormed(db) && t in db.metas && IsBatch(db, t, ids, full)
    requires rel.name in db.metas[t].children && c == db.metas[t].children[rel.name] && rel.name !in db.metas[t].parents
    requires c.childType in db.metas && IsSafe(c.fk) && c.fk in db.metas[c.childType].columns
    requires CanList(db.metas[c.childType], FiltersOf(db, rel, db.metas[c.childType]), rel)
    requires var batch := ChildBatch(db, c, ids, rel);
             && |parentOf| == |nodes| == |batch|
             && forall i :: 0 <= i < |batch| ==>
                  && At(batch[i], c.fk) == Text(parentOf[i])
                  && nodes[i] == Resolved(db, c.childType, batch[i], rel.rels,
                      ChildScalars(db.metas[c.childType], c.fk, rel, batch[i]))
    requires (parentOf == [] && byParent == map[])
             || forall pid :: (if pid in byParent then byParent[pid] else []) == Bucket(parentOf, nodes, pid)
    ensures Answers(db, t, ids, full, rel, Some(byParent))
  {
    hide WellFormed, Resolved, ResolvedAll, ChildScalars, OfParent, Bucket, ChildBatch, ChildRows, CanList, FiltersOf,
        IsSafe, FoundByID;
    var batch := ChildBatch(db, c, ids, rel);
    forall i | 0 <= i < |ids|
      ensures Related(db, t, full[i], rel) == if ids[i] in byParent then Some(byParent[ids[i]]) else Some([])
    {
      assert Show(At(full[i], db.metas[t].pk)) == ids[i];
      ChildRowsOfBatch(db, c, ids[i], ids, rel);
      BucketsAreResolved(db, c, rel, batch, parentOf, nodes, ids[i]);
      EmptyBucket(ids[i]);
    }
  }

  lemma EmptyBucket(id: string)
    ensures Bucket([], [], id) == []
  {
  }

  method ChildColumns(childMeta: Option<Meta>, fk: string, rel: Rel) returns (cols: set<string>)
    ensures childMeta.Some? ==> cols == LinkColumns(childMeta.value, fk, rel.rels) + set f | f in rel.fields :: Snake(f)
  {
    hide Snake;
    cols := {fk};
    if childMeta.Some? {
      cols := cols + {childMeta.value.pk};
    }
    ghost var start := cols;
    for i := 0 to |rel.fields|
      invariant cols == start + set f | f in rel.fields[..i] :: Snake(f)
    {
      var snake := CamelToSnake(rel.fields[i]);
      assert rel.fields[..i + 1] == rel.fields[..i] + [rel.fields[i]];
      cols := cols + {snake};
    }
    assert rel.fields[..|rel.fields|] == rel.fields;
    if childMeta.Some? {
      var more := ForeignKeys(childMeta.value, rel.rels);
      cols := cols + more;
    }
  }

  method ForeignKeys(meta: Meta, rels: seq<Rel>) returns (cols: set<string>)
    ensures cols == set k | 0 <= k < |rels| && rels[k].name in meta.parents :: meta.parents[rels[k].name].fk
  {
    cols := {};
    for n := 0 to |rels|
      invariant cols == set k | 0 <= k < n && rels[k].name in meta.parents :: meta.parents[rels[k].name].fk
    {
      if rels[n].name in meta.parents {
        cols := cols + {meta.parents[rels[n].name].fk};
      }
    }
  }
}
