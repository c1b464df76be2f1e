/** Queries over registered tables: what each repository call asks the database, and what it gets back. */
module Repository {
  import opened Wrappers

  import opened ColumnNames

  /** A column's value, told apart from others by how it prints. */
  datatype Value = Null | Text(text: string)

  type Row = map<string, Value>

  /** What a filter asks of a column: one value, or any value of a list. */
  datatype Wanted = Is(value: string) | AnyOf(values: seq<string>)

  type Filters = map<string, Wanted>

  datatype ParentRelation = ParentRelation(fk: string, parentType: string)

  datatype ChildRelation = ChildRelation(childType: string, fk: string)

  datatype Meta = Meta(
    pk: string, columns: set<string>, softDelete: Option<string>,
    parents: map<string, ParentRelation>, children: map<string, ChildRelation>)

  /** The registered types, their tables, the database's order on values and the reader of filter expressions. */
  datatype Database = Database(
    metas: map<string, Meta>, tables: map<string, seq<Row>>,
    rank: Value -> int, readFilter: (string, Meta) -> Filters)

  function At(row: Row, column: string): Value {
    if column in row then row[column] else Null
  }

  predicate TableOk(meta: Meta, rows: seq<Row>) {
    && meta.pk in meta.columns
    && (forall c :: c in meta.columns ==> Plain(c) && IsSafe(c))
    && (meta.softDelete.Some? ==> meta.softDelete.value in meta.columns)
    && (forall name :: name in meta.parents ==> meta.parents[name].fk in meta.columns)
    && (forall i :: 0 <= i < |rows| ==> rows[i].Keys == meta.columns && At(rows[i], meta.pk).Text?)
    && (forall i, j :: 0 <= i < |rows| && 0 <= j < |rows| && At(rows[i], meta.pk) == At(rows[j], meta.pk) ==>
        rows[i] == rows[j])
  }

  /** The registry describes the tables, and primary keys are set and tell rows apart. */
  predicate WellFormed(db: Database) {
    && (forall t :: t in db.metas ==> t in db.tables && TableOk(db.metas[t], db.tables[t]))
    && (forall t, name :: t in db.metas && name in db.metas[t].children ==>
          var c := db.metas[t].children[name];
          c.childType in db.metas ==> c.fk in db.metas[c.childType].columns)
  }

  // ---- What is asked for ----

  datatype Within = Anywhere | Among(column: string, ids: seq<string>)

  predicate Fits(w: Wanted, v: Value) {
    v.Text? && match w case Is(value) => v.text == value case AnyOf(values) => v.text in values
  }

  /** The filters that take part: unsafe column names and empty lists are passed over. */
  function Mentioned(filters: Filters): set<string> {
    set c | c in filters && IsSafe(c) && filters[c] != AnyOf([])
  }

  predicate Satisfies(filters: Filters, columns: set<string>, row: Row) {
    forall c :: c in columns && c in Mentioned(filters) ==> Fits(filters[c], At(row, c))
  }

  predicate Alive(meta: Meta, row: Row) {
    meta.softDelete.Some? ==> At(row, meta.softDelete.value) != Text("true")
  }

  predicate Lies(within: Within, row: Row) {
    within.Among? ==> At(row, within.column).Text? && At(row, within.column).text in within.ids
  }

  predicate Wants(meta: Meta, within: Within, filters: Filters, row: Row) {
    Alive(meta, row) && Lies(within, row) && Satisfies(filters, filters.Keys, row)
  }

  function Chosen(meta: Meta, within: Within, filters: Filters, rows: seq<Row>): seq<Row> {
    if rows == [] then []
    else (if Wants(meta, within, filters, rows[0]) then [rows[0]] else []) + Chosen(meta, within, filters, rows[1..])
  }

  lemma {:induction false} ChosenMembers(meta: Meta, within: Within, filters: Filters, rows: seq<Row>, row: Row)
    ensures row in Chosen(meta, within, filters, rows) <==> row in rows && Wants(meta, within, filters, row)
  {
    if rows != [] {
      ChosenMembers(meta, within, filters, rows[1..], row);
    }
  }

  lemma {:induction false} NothingChosen(meta: Meta, column: string, filters: Filters, rows: seq<Row>)
    ensures Chosen(meta, Among(column, []), filters, rows) == []
  {
    if rows != [] {
      NothingChosen(meta, column, filters, rows[1..]);
    }
  }

  // ---- ORDER BY ----

  datatype Key = Key(column: string, descending: bool)

  function Weight(rank: Value -> int, key: Key, row: Row): int {
    var w := rank(At(row, key.column));
    if key.descending then -w else w
  }

  predicate NotAfter(rank: Value -> int, keys: seq<Key>, a: Row, b: Row) {
    keys == []
    || Weight(rank, keys[0], a) < Weight(rank, keys[0], b)
    || (Weight(rank, keys[0], a) == Weight(rank, keys[0], b) && NotAfter(rank, keys[1..], a, b))
  }

  function Insert(rank: Value -> int, keys: seq<Key>, row: Row, rows: seq<Row>): seq<Row> {
    if rows == [] || NotAfter(rank, keys, row, rows[0]) then [row] + rows
    else [rows[0]] + Insert(rank, keys, row, rows[1..])
  }

  /** ORDER BY as a stable sort. */
  function Ordered(rank: Value -> int, keys: seq<Key>, rows: seq<Row>): seq<Row> {
    if rows == [] then [] else Insert(rank, keys, rows[0], Ordered(rank, keys, rows[1..]))
  }

  predicate IsOrdered(rank: Value -> int, keys: seq<Key>, rows: seq<Row>) {
    forall i, j :: 0 <= i < j < |rows| ==> NotAfter(rank, keys, rows[i], rows[j])
  }

  lemma {:induction false} NotAfterIsTotal(rank: Value -> int, keys: seq<Key>, a: Row, b: Row)
    ensures NotAfter(rank, keys, a, b) || NotAfter(rank, keys, b, a)
  {
    if keys != [] {
      NotAfterIsTotal(rank, keys[1..], a, b);
    }
  }

  lemma {:induction false} NotAfterChains(rank: Value -> int, keys: seq<Key>, a: Row, b: Row, c: Row)
    requires NotAfter(rank, keys, a, b) && NotAfter(rank, keys, b, c)
    ensures NotAfter(rank, keys, a, c)
  {
    if keys != [] && Weight(rank, keys[0], a) == Weight(rank, keys[0], c) {
      NotAfterChains(rank, keys[1..], a, b, c);
    }
  }

  lemma {:induction false} InsertKeepsRows(rank: Value -> int, keys: seq<Key>, row: Row, rows: seq<Row>)
    ensures multiset(Insert(rank, keys, row, rows)) == multiset(rows) + multiset{row}
  {
    hide NotAfter;
    if rows != [] && !NotAfter(rank, keys, row, rows[0]) {
      InsertKeepsRows(rank, keys, row, rows[1..]);
      assert rows == [rows[0]] + rows[1..];
    }
  }

  lemma {:induction false} InsertKeepsOrder(rank: Value -> int, keys: seq<Key>, row: Row, rows: seq<Row>)
    requires IsOrdered(rank, keys, rows)
    ensures IsOrdered(rank, keys, Insert(rank, keys, row, rows))
    ensures multiset(Insert(rank, keys, row, rows)) == multiset(rows) + multiset{row}
  {
    hide NotAfter;
    var all := Insert(rank, keys, row, rows);
    InsertKeepsRows(rank, keys, row, rows);
    if rows == [] {
    } else if NotAfter(rank, keys, row, rows[0]) {
      forall j | 0 < j < |rows| ensures NotAfter(rank, keys, row, rows[j]) {
        NotAfterChains(rank, keys, row, rows[0], rows[j]);
      }
    } else {
      NotAfterIsTotal(rank, keys, row, rows[0]);
      InsertKeepsOrder(rank, keys, row, rows[1..]);
      forall j | 0 < j < |all| ensures NotAfter(rank, keys, all[0], all[j]) {
        assert all[j] in multiset(rows[1..]) + multiset{row};
      }
    }
  }

  /** The rows come out in the order asked for, and they are the same rows. */
  lemma {:induction false} OrderingSorts(rank: Value -> int, keys: seq<Key>, rows: seq<Row>)
    ensures IsOrdered(rank, keys, Ordered(rank, keys, rows))
    ensures multiset(Ordered(rank, keys, rows)) == multiset(rows)
  {
    if rows != [] {
      OrderingSorts(rank, keys, rows[1..]);
      InsertKeepsOrder(rank, keys, rows[0], Ordered(rank, keys, rows[1..]));
      assert rows == [rows[0]] + rows[1..];
    }
  }

  // ---- One parent's rows out of a batch ----

  function OfParent(fk: string, id: string, rows: seq<Row>): seq<Row> {
    if rows == [] then []
    else (if At(rows[0], fk) == Text(id) then [rows[0]] else []) + OfParent(fk, id, rows[1..])
  }

  lemma {:induction false} OfParentGrows(fk: string, id: string, rows: seq<Row>, row: Row)
    ensures OfParent(fk, id, rows + [row]) == OfParent(fk, id, rows) + if At(row, fk) == Text(id) then [row] else []
  {
    if rows == [] {
      assert rows + [row] == [row];
    } else {
      OfParentGrows(fk, id, rows[1..], row);
      assert (rows + [row])[1..] == rows[1..] + [row];
    }
  }

  lemma {:induction false} OfParentIsTheParents(fk: string, id: string, rows: seq<Row>)
    ensures forall k :: 0 <= k < |OfParent(fk, id, rows)| ==> At(OfParent(fk, id, rows)[k], fk) == Text(id)
    ensures forall r :: r in OfParent(fk, id, rows) ==> r in rows
  {
    if rows != [] {
      OfParentIsTheParents(fk, id, rows[1..]);
    }
  }

  lemma {:induction false} OfParentOfChosen(meta: Meta, fk: string, id: string, ids: seq<string>, filters: Filters,
      rows: seq<Row>)
    requires id in ids
    ensures OfParent(fk, id, Chosen(meta, Among(fk, ids), filters, rows)) ==
        Chosen(meta, Among(fk, [id]), filters, rows)
  {
    if rows != [] {
      var rest := Chosen(meta, Among(fk, ids), filters, rows[1..]);
      OfParentOfChosen(meta, fk, id, ids, filters, rows[1..]);
      if Wants(meta, Among(fk, ids), filters, rows[0]) {
        assert ([rows[0]] + rest)[1..] == rest;
        assert Chosen(meta, Among(fk, ids), filters, rows) == [rows[0]] + rest;
      } else {
        assert Chosen(meta, Among(fk, ids), filters, rows) == rest;
      }
    }
  }

  lemma {:induction false} OfParentOfInsert(rank: Value -> int, keys: seq<Key>, fk: string, id: string, row: Row,
      rows: seq<Row>)
    requires IsOrdered(rank, keys, rows)
    ensures OfParent(fk, id, Insert(rank, keys, row, rows))
         == if At(row, fk) == Text(id) then Insert(rank, keys, row, OfParent(fk, id, rows)) else OfParent(fk, id, rows)
  {
    if rows == [] {
    } else if NotAfter(rank, keys, row, rows[0]) {
      assert ([row] + rows)[1..] == rows;
      var mine := OfParent(fk, id, rows);
      OfParentIsTheParents(fk, id, rows);
      if mine != [] {
        assert mine[0] in rows;
        var j :| 0 <= j < |rows| && rows[j] == mine[0];
        if j > 0 {
          NotAfterChains(rank, keys, row, rows[0], rows[j]);
        }
        assert NotAfter(rank, keys, row, mine[0]);
      }
      assert Insert(rank, keys, row, mine) == [row] + mine;
      assert [] + mine == mine;
    } else {
      var rest := Insert(rank, keys, row, rows[1..]);
      OfParentOfInsert(rank, keys, fk, id, row, rows[1..]);
      var mine := OfParent(fk, id, rows[1..]);
      assert ([rows[0]] + rest)[1..] == rest;
      if At(rows[0], fk) == Text(id) {
        assert OfParent(fk, id, rows) == [rows[0]] + mine && ([rows[0]] + mine)[1..] == mine;
        assert OfParent(fk, id, [rows[0]] + rest) == [rows[0]] + OfParent(fk, id, rest);
      } else {
        assert OfParent(fk, id, rows) == mine;
        assert OfParent(fk, id, [rows[0]] + rest) == OfParent(fk, id, rest);
      }
    }
  }

  /** Ordering a batch orders every parent's rows. */
  lemma {:induction false} OfParentOfOrdered(rank: Value -> int, keys: seq<Key>, fk: string, id: string, rows: seq<Row>)
    ensures OfParent(fk, id, Ordered(rank, keys, rows)) == Ordered(rank, keys, OfParent(fk, id, rows))
  {
    if rows != [] {
      OfParentOfOrdered(rank, keys, fk, id, rows[1..]);
      OrderingSorts(rank, keys, rows[1..]);
      OfParentOfInsert(rank, keys, fk, id, rows[0], Ordered(rank, keys, rows[1..]));
      var mine := OfParent(fk, id, rows[1..]);
      if At(rows[0], fk) == Text(id) {
        assert ([rows[0]] + mine)[1..] == mine && OfParent(fk, id, rows) == [rows[0]] + mine;
      } else {
        assert OfParent(fk, id, rows) == mine;
      }
    }
  }

  lemma {:induction false} InsertIgnoresEqualKey(rank: Value -> int, key: Key, keys: seq<Key>, row: Row, rows: seq<Row>)
    requires forall i :: 0 <= i < |rows| ==> At(rows[i], key.column) == At(row, key.column)
    ensures Insert(rank, [key] + keys, row, rows) == Insert(rank, keys, row, rows)
  {
    assert ([key] + keys)[1..] == keys;
    if rows != [] && !NotAfter(rank, keys, row, rows[0]) {
      InsertIgnoresEqualKey(rank, key, keys, row, rows[1..]);
    }
  }

  lemma {:induction false} OrderingIgnoresEqualKey(rank: Value -> int, key: Key,
      keys: seq<Key>, v: Value, rows: seq<Row>)
    requires forall i :: 0 <= i < |rows| ==> At(rows[i], key.column) == v
    ensures Ordered(rank, [key] + keys, rows) == Ordered(rank, keys, rows)
  {
    if rows != [] {
      OrderingIgnoresEqualKey(rank, key, keys, v, rows[1..]);
      var rest := Ordered(rank, keys, rows[1..]);
      OrderingSorts(rank, keys, rows[1..]);
      forall i | 0 <= i < |rest| ensures At(rest[i], key.column) == v {
        assert rest[i] in multiset(rest) && rest[i] in rows[1..];
      }
      InsertIgnoresEqualKey(rank, key, keys, rows[0], rest);
    }
  }

  /** One parent's rows within a batch ordered by parent are that parent's rows in the order asked for. */
  lemma BatchHoldsEveryParentsList(db: Database, meta: Meta, fk: string, id: string, ids: seq<string>,
                                   filters: Filters, keys: seq<Key>, rows: seq<Row>)
    requires id in ids
    ensures OfParent(fk, id, Ordered(db.rank, [Key(fk, false)] + keys, Chosen(meta, Among(fk, ids), filters, rows)))
         == Ordered(db.rank, keys, Chosen(meta, Among(fk, [id]), filters, rows))
  {
    var batch := Chosen(meta, Among(fk, ids), filters, rows);
    OfParentOfOrdered(db.rank, [Key(fk, false)] + keys, fk, id, batch);
    OfParentIsTheParents(fk, id, batch);
    OrderingIgnoresEqualKey(db.rank, Key(fk, false), keys, Text(id), OfParent(fk, id, batch));
    OfParentOfChosen(meta, fk, id, ids, filters, rows);
  }

  // ---- Statements ----

  datatype Condition = IsNotTrue(column: string) | OneOf(column: string, values: seq<string>)

  /** A SELECT; a limit of 0 stands for none. */
  datatype Select = Select(columns: set<string>, where: seq<Condition>, order: seq<Key>, limit: nat, offset: nat)

  predicate Holds(c: Condition, row: Row) {
    match c
    case IsNotTrue(column) => At(row, column) != Text("true")
    case OneOf(column, values) => At(row, column).Text? && At(row, column).text in values
  }

  predicate Meets(where: seq<Condition>, row: Row) {
    where == [] || (Meets(where[..|where| - 1], row) && Holds(where[|where| - 1], row))
  }

  function Where(where: seq<Condition>, rows: seq<Row>): seq<Row> {
    if rows == [] then []
    else (if Meets(where, rows[0]) then [rows[0]] else []) + Where(where, rows[1..])
  }

  function Named(where: seq<Condition>): set<string> {
    if where == [] then {} else Named(where[..|where| - 1]) + {where[|where| - 1].column}
  }

  function KeyColumns(keys: seq<Key>): set<string> { set i | 0 <= i < |keys| :: keys[i].column }

  function Project(columns: set<string>, row: Row): Row { map c | c in columns :: At(row, c) }

  function Projected(columns: set<string>, rows: seq<Row>): (r: seq<Row>)
    ensures |r| == |rows| && forall i :: 0 <= i < |rows| ==> r[i] == Project(columns, rows[i])
  {
    seq(|rows|, i requires 0 <= i < |rows| => Project(columns, rows[i]))
  }

  function Window(rows: seq<Row>, limit: nat, offset: nat): seq<Row> {
    if limit == 0 then rows
    else
      var from := if offset < |rows| then offset else |rows|;
      rows[from..if from + limit < |rows| then from + limit else |rows|]
  }

  /** What the database answers; a column the table does not have is an error. */
  function Answer(db: Database, t: string, q: Select): Option<seq<Row>>
    requires t in db.metas && t in db.tables
  {
    if q.columns + Named(q.where) + KeyColumns(q.order) <= db.metas[t].columns then
      Some(Projected(q.columns, Window(Ordered(db.rank, q.order, Where(q.where, db.tables[t])), q.limit, q.offset)))
    else None
  }

  lemma {:induction false} MeetsEach(where: seq<Condition>, row: Row)
    ensures Meets(where, row) <==> forall c :: c in where ==> Holds(c, row)
  {
    if where != [] {
      MeetsEach(where[..|where| - 1], row);
      assert where == where[..|where| - 1] + [where[|where| - 1]];
    }
  }

  lemma {:induction false} NamedEach(where: seq<Condition>)
    ensures forall c :: c in Named(where) <==> exists i :: 0 <= i < |where| && where[i].column == c
  {
    if where != [] {
      NamedEach(where[..|where| - 1]);
    }
  }

  lemma {:induction false} WhereIsChosen(where: seq<Condition>, meta: Meta, within: Within, filters: Filters,
      rows: seq<Row>)
    requires forall row :: Meets(where, row) <==> Wants(meta, within, filters, row)
    ensures Where(where, rows) == Chosen(meta, within, filters, rows)
  {
    if rows != [] {
      WhereIsChosen(where, meta, within, filters, rows[1..]);
    }
  }

  /** The conditions every query carries besides its filters. */
  function Fixed(meta: Meta, within: Within): set<Condition> {
    (if meta.softDelete.Some? then {IsNotTrue(meta.softDelete.value)} else {})
    + (if within.Among? then {OneOf(within.column, within.ids)} else {})
  }

  lemma FixedSay(meta: Meta, within: Within, fixed: seq<Condition>, row: Row)
    requires forall c :: c in fixed <==> c in Fixed(meta, within)
    ensures Meets(fixed, row) <==> Alive(meta, row) && Lies(within, row)
  {
    MeetsEach(fixed, row);
    if meta.softDelete.Some? {
      assert IsNotTrue(meta.softDelete.value) in fixed;
    }
    if within.Among? {
      assert OneOf(within.column, within.ids) in fixed;
    }
  }

  lemma FixedName(meta: Meta, within: Within, fixed: seq<Condition>)
    requires forall c :: c in fixed <==> c in Fixed(meta, within)
    ensures Named(fixed) == (if meta.softDelete.Some? then {meta.softDelete.value} else {})
                          + (if within.Among? then {within.column} else {})
  {
    NamedEach(fixed);
    var fixedSet := Fixed(meta, within);
    forall c | c in Named(fixed)
      ensures (meta.softDelete.Some? && c == meta.softDelete.value) || (within.Among? && c == within.column)
    {
      var i :| 0 <= i < |fixed| && fixed[i].column == c;
      assert fixed[i] in fixedSet;
    }
    if meta.softDelete.Some? {
      assert IsNotTrue(meta.softDelete.value) in fixed;
    }
    if within.Among? {
      assert OneOf(within.column, within.ids) in fixed;
    }
  }

  /** A statement made of the fixed conditions and the filters' asks for exactly the rows wanted. */
  lemma StatementsAskForTheChosen(db: Database, t: string, q: Select, within: Within, filters: Filters,
      fixed: seq<Condition>)
    requires WellFormed(db) && t in db.metas
    requires forall c :: c in fixed <==> c in Fixed(db.metas[t], within)
    requires Named(q.where) == Named(fixed) + Mentioned(filters)
    requires forall row :: Meets(q.where, row) <==> Meets(fixed, row) && Satisfies(filters, filters.Keys, row)
    ensures var meta := db.metas[t];
            Answer(db, t, q) ==
            if q.columns + Asked(within, filters, q.order) <= meta.columns then
              Some(Projected(q.columns,
                  Window(Ordered(db.rank, q.order, Chosen(meta, within, filters, db.tables[t])), q.limit, q.offset)))
            else None
  {
    hide Meets, Named, Window, Ordered, Chosen, Projected, KeyColumns, Mentioned, Satisfies, Fixed;
    var meta := db.metas[t];
    FixedName(meta, within, fixed);
    forall row ensures Meets(q.where, row) <==> Wants(meta, within, filters, row) {
      FixedSay(meta, within, fixed, row);
    }
    WhereIsChosen(q.where, meta, within, filters, db.tables[t]);
  }

  // ---- Meaning of the repository's calls ----

  /** A sort argument: a leading minus turns the order round, and an unsafe name is passed over. */
  function OrderBy(sort: string): (keys: seq<Key>)
    ensures |keys| <= 1
  {
    var descending := sort != "" && sort[0] == '-';
    var column := Snake(if descending then sort[1..] else sort);
    if sort != "" && IsSafe(column) then [Key(column, descending)] else []
  }

  datatype ListParams = ListParams(
    parentFK: string, parentID: Option<string>, filters: Filters, sort: string,
    pageSize: int, pageOffset: int, columns: set<string>)

  function WithinParent(p: ListParams): Within {
    if p.parentFK != "" && p.parentID.Some? && IsSafe(p.parentFK) then Among(p.parentFK, [p.parentID.value])
    else Anywhere
  }

  function Selected(meta: Meta, columns: set<string>): set<string> {
    if columns == {} then meta.columns else columns
  }

  /** The columns a call names beside those it selects. */
  function Asked(within: Within, filters: Filters, keys: seq<Key>): set<string> {
    (if within.Among? then {within.column} else {}) + Mentioned(filters) + KeyColumns(keys)
  }

  function NatOf(n: int): nat { if n > 0 then n else 0 }

  /** The rows a listing gives, or nothing where the query fails. */
  function Listed(db: Database, t: string, p: ListParams): Option<seq<Row>>
    requires t in db.metas ==> t in db.tables
  {
    if t !in db.metas then None
    else
      var meta := db.metas[t];
      var within := WithinParent(p);
      if Selected(meta, p.columns) + Asked(within, p.filters, OrderBy(p.sort)) <= meta.columns then
        Some(Projected(Selected(meta, p.columns),
                       Window(Ordered(db.rank, OrderBy(p.sort), Chosen(meta, within, p.filters, db.tables[t])),
                              NatOf(p.pageSize), NatOf(p.pageOffset))))
      else None
  }

  /** The row with the given primary key. */
  function FoundByID(db: Database, t: string, id: string): Option<Row>
    requires t in db.metas && t in db.tables
  {
    var rows := Chosen(db.metas[t], Among(db.metas[t].pk, [id]), map[], db.tables[t]);
    if rows == [] then None else Some(rows[0])
  }

  /** A row is found by its key exactly if it is there and not deleted. */
  lemma FindingIsUnique(db: Database, t: string, id: string, row: Row)
    requires WellFormed(db) && t in db.metas
    ensures FoundByID(db, t, id) == Some(row)
            <==> row in db.tables[t] && Alive(db.metas[t], row) && At(row, db.metas[t].pk) == Text(id)
  {
    var meta := db.metas[t];
    var rows := Chosen(meta, Among(meta.pk, [id]), map[], db.tables[t]);
    ChosenMembers(meta, Among(meta.pk, [id]), map[], db.tables[t], row);
    if rows != [] {
      ChosenMembers(meta, Among(meta.pk, [id]), map[], db.tables[t], rows[0]);
    }
  }

  /** Selecting every column changes nothing. */
  lemma {:induction false} WholeRows(columns: set<string>, rows: seq<Row>)
    requires forall i :: 0 <= i < |rows| ==> rows[i].Keys == columns
    ensures Projected(columns, rows) == rows
  {
    forall i | 0 <= i < |rows| ensures Project(columns, rows[i]) == rows[i] {
      assert Project(columns, rows[i]).Keys == rows[i].Keys;
    }
  }

  class GenericRepository {
    const db: Database
    /** How many statements have been sent so far. */
    var queries: nat

    constructor (db: Database)
      ensures this.db == db && queries == 0
    {
      this.db := db;
      queries := 0;
    }

    method Query(t: string, q: Select) returns (rows: Option<seq<Row>>)
      requires t in db.metas && t in db.tables
      modifies this`queries
      ensures queries == old(queries) + 1 && rows == Answer(db, t, q)
    {
      queries := queries + 1;
      rows := Answer(db, t, q);
    }

    /** One condition per filter that takes part; the order in which the map is walked does not matter. */
    static method AddFilters(where: seq<Condition>, filters: Filters) returns (conditions: seq<Condition>)
      ensures Named(conditions) == Named(where) + Mentioned(filters)
      ensures forall row :: Meets(conditions, row) <==> Meets(where, row) && Satisfies(filters, filters.Keys, row)
    {
      conditions := where;
      var left := filters.Keys;
      while left != {}
        invariant left <= filters.Keys
        invariant Named(conditions) == Named(where) + (Mentioned(filters) - left)
        invariant forall row :: Meets(conditions, row) <==>
            Meets(where, row) && Satisfies(filters, filters.Keys - left, row)
      {
        var col :| col in left;
        ghost var before, done := conditions, filters.Keys - left;
        left := left - {col};
        assert filters.Keys - left == done + {col};
        if IsSafe(col) && filters[col] != AnyOf([]) {
          var values := if filters[col].Is? then [filters[col].value] else filters[col].values;
          conditions := conditions + [OneOf(col, values)];
          assert conditions[..|conditions| - 1] == before;
          forall row ensures Satisfies(filters, filters.Keys - left, row)
                             <==> Satisfies(filters, done, row) && Holds(OneOf(col, values), row)
          {
            assert Fits(filters[col], At(row, col)) <==> Holds(OneOf(col, values), row);
          }
        } else {
          forall row ensures Satisfies(filters, filters.Keys - left, row) <==> Satisfies(filters, done, row) {}
        }
      }
      assert filters.Keys - left == filters.Keys;
    }

    method List(t: string, p: ListParams) returns (rows: Option<seq<Row>>)
      requires WellFormed(db)
      modifies this`queries
      ensures old(queries) <= queries <= old(queries) + 1
      ensures rows == Listed(db, t, p)
    {
      if t !in db.metas {
        return None;
      }
      hide Answer, Chosen, Ordered, Projected, Window, Meets, Named, Satisfies, WellFormed, Mentioned, KeyColumns,
          OrderBy, Asked, Selected, Fixed, WithinParent;
      var meta := db.metas[t];
      var where := ParentConditions(meta, p);
      ghost var fixed := where;
      where := AddFilters(where, p.filters);
      var keys := ReadSort(p.sort);
      var limit: nat, offset: nat := 0, 0;
      if p.pageSize > 0 {
        limit := p.pageSize;
        if p.pageOffset > 0 {
          offset := p.pageOffset;
        }
      }
      var q := Select(Selected(meta, p.columns), where, keys, limit, offset);
      StatementsAskForTheChosen(db, t, q, WithinParent(p), p.filters, fixed);
      rows := Query(t, q);
      NoLimitNoOffset(Ordered(db.rank, keys, Chosen(meta, WithinParent(p), p.filters, db.tables[t])),
          NatOf(p.pageOffset));
    }

    static method ParentConditions(meta: Meta, p: ListParams) returns (where: seq<Condition>)
      ensures forall c :: c in where <==> c in Fixed(meta, WithinParent(p))
    {
      hide IsSafe;
      where := [];
      if meta.softDelete.Some? {
        where := where + [IsNotTrue(meta.softDelete.value)];
      }
      if p.parentFK != "" && p.parentID.Some? && IsSafe(p.parentFK) {
        where := where + [OneOf(p.parentFK, [p.parentID.value])];
      }
    }

    static lemma NoLimitNoOffset(rows: seq<Row>, offset: nat)
      ensures Window(rows, 0, offset) == Window(rows, 0, 0) == rows
    {
    }

    static method ReadSort(sort: string) returns (keys: seq<Key>)
      ensures keys == OrderBy(sort)
    {
      keys := [];
      if sort != "" {
        var descending := sort[0] == '-';
        var col := CamelToSnake(if descending then sort[1..] else sort);
        if IsSafe(col) {
          keys := [Key(col, descending)];
        }
      }
    }

    method FindByIDs(t: string, ids: seq<string>) returns (rows: Option<seq<Row>>)
      requires WellFormed(db)
      modifies this`queries
      ensures old(queries) <= queries <= old(queries) + 1
      ensures rows == if t !in db.metas then None
                      else Some(Chosen(db.metas[t], Among(db.metas[t].pk, ids), map[], db.tables[t]))
    {
      if t !in db.metas {
        return None;
      }
      var meta := db.metas[t];
      ghost var within := Among(meta.pk, ids);
      ghost var chosen := Chosen(meta, within, map[], db.tables[t]);
      forall i | 0 <= i < |chosen| ensures chosen[i].Keys == meta.columns {
        ChosenMembers(meta, within, map[], db.tables[t], chosen[i]);
      }
      if |ids| == 0 {
        NothingChosen(meta, meta.pk, map[], db.tables[t]);
        return Some([]);
      }
      hide Answer, Chosen, Ordered, Projected, Window, Meets, Named;
      var where := [OneOf(meta.pk, ids)];
      if meta.softDelete.Some? {
        where := where + [IsNotTrue(meta.softDelete.value)];
      }
      var q := Select(meta.columns, where, [], 0, 0);
      assert Mentioned(map[]) == {} && KeyColumns([]) == {};
      StatementsAskForTheChosen(db, t, q, within, map[], where);
      rows := Query(t, q);
      UnorderedStays(db.rank, chosen);
      NoLimitNoOffset(chosen, 0);
      WholeRows(meta.columns, chosen);
    }

    static lemma {:induction false} UnorderedStays(rank: Value -> int, rows: seq<Row>)
      ensures Ordered(rank, [], rows) == rows
    {
      if rows != [] {
        UnorderedStays(rank, rows[1..]);
      }
    }

    /** The rows of all the given parents at once, parent by parent. */
    method ListByParentFKs(t: string, fk: string, parentIDs: seq<string>, columns: set<string>, sort: string,
        filters: Filters)
      returns (rows: Option<seq<Row>>)
      requires WellFormed(db)
      modifies this`queries
      ensures old(queries) <= queries <= old(queries) + 1
      ensures rows ==
              if t !in db.metas then None
              else if parentIDs == [] then Some([])
              else if !IsSafe(fk) then None
              else
                var meta := db.metas[t];
                var cols := Selected(meta, columns);
                if cols + Asked(Among(fk, parentIDs), filters, OrderBy(sort)) <= meta.columns then
                  Some(Projected(cols, Ordered(db.rank, [Key(fk, false)] + OrderBy(sort),
                                               Chosen(meta, Among(fk, parentIDs), filters, db.tables[t]))))
                else None
    {
      if t !in db.metas {
        return None;
      }
      if |parentIDs| == 0 {
        return Some([]);
      }
      if !IsSafe(fk) {
        return None;
      }
      hide Answer, Chosen, Ordered, Projected, Window, Meets, Named, Satisfies, WellFormed, Mentioned, OrderBy;
      var meta := db.metas[t];
      ghost var within := Among(fk, parentIDs);
      var where := [OneOf(fk, parentIDs)];
      if meta.softDelete.Some? {
        where := where + [IsNotTrue(meta.softDelete.value)];
      }
      ghost var fixed := where;
      where := AddFilters(where, filters);
      var keys := ReadSort(sort);
      ParentKeyFirst(fk, keys);
      keys := [Key(fk, false)] + keys;
      var q := Select(Selected(meta, columns), where, keys, 0, 0);
      StatementsAskForTheChosen(db, t, q, within, filters, fixed);
      rows := Query(t, q);
      NoLimitNoOffset(Ordered(db.rank, keys, Chosen(meta, within, filters, db.tables[t])), 0);
    }

    static lemma ParentKeyFirst(fk: string, keys: seq<Key>)
      ensures KeyColumns([Key(fk, false)] + keys) == {fk} + KeyColumns(keys)
    {
      var all := [Key(fk, false)] + keys;
      assert all[0].column == fk && forall i :: 0 <= i < |keys| ==> all[i + 1] == keys[i];
      assert forall i :: 0 < i < |all| ==> all[i] == keys[i - 1];
    }
  }
}
