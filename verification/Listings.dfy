/** What a listing holds, spelled out on the rows: which rows, how often, in which order, and which part of them. */
module Listings {
  import opened Wrappers

  import opened ColumnNames
  import opened Repository

  predicate IsPlainName(c: string) {
    c != "" && forall k :: 0 <= k < |c| ==> 'a' <= c[k] <= 'z' || '0' <= c[k] <= '9' || c[k] == '_'
  }

  /** A row is alive and has one of the wanted values in every column a filter names. */
  predicate Passes(meta: Meta, filters: Filters, row: Row) {
    && (meta.softDelete.Some? && meta.softDelete.value in row ==> row[meta.softDelete.value] != Text("true"))
    && forall c :: c in filters && IsPlainName(c) && filters[c] != AnyOf([]) ==>
         && c in row && row[c].Text?
         && row[c].text in (match filters[c] case Is(value) => [value] case AnyOf(values) => values)
  }

  /** A row belongs to a parent if one is given. */
  predicate BelongsTo(parent: Option<(string, string)>, row: Row) {
    parent.Some? ==> parent.value.0 in row && row[parent.value.0] == Text(parent.value.1)
  }

  predicate IsDescending(sort: string) { sort != "" && sort[0] == '-' }

  function SortColumn(sort: string): string { Snake(if IsDescending(sort) then sort[1..] else sort) }

  /** In the order of the sort argument's column; without one, or with one that is no plain name, in any. */
  predicate IsSorted(rank: Value -> int, sort: string, rows: seq<Row>) {
    sort != "" && IsPlainName(SortColumn(sort)) ==>
      forall i, j :: 0 <= i < j < |rows| ==>
        if IsDescending(sort) then rank(At(rows[i], SortColumn(sort))) >= rank(At(rows[j], SortColumn(sort)))
        else rank(At(rows[i], SortColumn(sort))) <= rank(At(rows[j], SortColumn(sort)))
  }

  /** All rows of the table that pass and belong to the parent, each as often as it is there, in the order asked for. */
  ghost predicate IsList(db: Database, t: string, parent: Option<(string, string)>, filters: Filters, sort: string,
                         rows: seq<Row>)
    requires t in db.metas && t in db.tables
  {
    && (forall row :: multiset(rows)[row] ==
          if Passes(db.metas[t], filters, row) && BelongsTo(parent, row) then multiset(db.tables[t])[row] else 0)
    && IsSorted(db.rank, sort, rows)
  }

  /** Every column named is there. */
  predicate IsAskable(meta: Meta, filters: Filters, sort: string) {
    && (forall c :: c in filters && IsPlainName(c) && filters[c] != AnyOf([]) ==> c in meta.columns)
    && (sort != "" && IsPlainName(SortColumn(sort)) ==> SortColumn(sort) in meta.columns)
  }

  /** The rows from `start` on, at most `size` of them; a size of 0 stands for all rows. */
  function Part(rows: seq<Row>, start: int, size: int): seq<Row> {
    if size <= 0 then rows
    else
      var from := if start <= 0 then 0 else if start < |rows| then start else |rows|;
      rows[from..if from + size < |rows| then from + size else |rows|]
  }

  lemma {:induction false} ChosenCounts(meta: Meta, within: Within, filters: Filters, rows: seq<Row>, row: Row)
    ensures multiset(Chosen(meta, within, filters, rows))[row]
         == if Wants(meta, within, filters, row) then multiset(rows)[row] else 0
  {
    hide Wants;
    if rows != [] {
      ChosenCounts(meta, within, filters, rows[1..], row);
      assert rows == [rows[0]] + rows[1..];
    }
  }

  function WithinOf(parent: Option<(string, string)>): Within {
    if parent.Some? then Among(parent.value.0, [parent.value.1]) else Anywhere
  }

  lemma WantedRowsPass(meta: Meta, parent: Option<(string, string)>, filters: Filters, row: Row)
    requires meta.softDelete.Some? ==> meta.softDelete.value in row
    ensures Wants(meta, WithinOf(parent), filters, row) <==> Passes(meta, filters, row) && BelongsTo(parent, row)
  {
    forall c ensures IsSafe(c) <==> IsPlainName(c) {}
    hide IsSafe, IsPlainName;
    forall c | c in filters && IsPlainName(c) && filters[c] != AnyOf([])
      ensures Fits(filters[c], At(row, c)) <==>
              c in row && row[c].Text?
              && row[c].text in (match filters[c] case Is(value) => [value] case AnyOf(values) => values)
    {}
  }

  lemma OrderedRowsAreSorted(rank: Value -> int, sort: string, rows: seq<Row>)
    requires IsOrdered(rank, OrderBy(sort), rows)
    ensures IsSorted(rank, sort, rows)
  {
    assert IsSafe(SortColumn(sort)) <==> IsPlainName(SortColumn(sort));
    if sort != "" && IsPlainName(SortColumn(sort)) {
      var key := Key(SortColumn(sort), IsDescending(sort));
      assert OrderBy(sort) == [key];
      forall i, j | 0 <= i < j < |rows|
        ensures if IsDescending(sort) then rank(At(rows[i], SortColumn(sort))) >= rank(At(rows[j], SortColumn(sort)))
                else rank(At(rows[i], SortColumn(sort))) <= rank(At(rows[j], SortColumn(sort)))
      {
        assert NotAfter(rank, [key], rows[i], rows[j]);
        assert Weight(rank, key, rows[i]) <= Weight(rank, key, rows[j]);
      }
    }
  }

  function ParamsOf(parent: Option<(string, string)>, filters: Filters, sort: string, size: int, offset: int)
    : ListParams
  {
    ListParams(if parent.Some? then parent.value.0 else "", if parent.Some? then Some(parent.value.1) else None,
               filters, sort, size, offset, {})
  }

  /** The rows a query is about, before a part of them is taken. */
  function AllRows(db: Database, t: string, parent: Option<(string, string)>, filters: Filters, sort: string): seq<Row>
    requires t in db.metas && t in db.tables
  {
    Ordered(db.rank, OrderBy(sort), Chosen(db.metas[t], WithinOf(parent), filters, db.tables[t]))
  }

  lemma RowsThatPassCount(db: Database, t: string, parent: Option<(string, string)>, filters: Filters, row: Row)
    requires WellFormed(db) && t in db.metas && t in db.tables
    ensures multiset(Chosen(db.metas[t], WithinOf(parent), filters, db.tables[t]))[row] ==
            if Passes(db.metas[t], filters, row) && BelongsTo(parent, row) then multiset(db.tables[t])[row] else 0
  {
    hide WellFormed, Chosen, Passes, BelongsTo, Wants;
    ChosenCounts(db.metas[t], WithinOf(parent), filters, db.tables[t], row);
    if row in db.tables[t] {
      TableRowsAreWhole(db, t, row);
      WantedRowsPass(db.metas[t], parent, filters, row);
    } else {
      assert multiset(db.tables[t])[row] == 0;
    }
  }

  lemma AllRowsAreTheList(db: Database, t: string, parent: Option<(string, string)>, filters: Filters, sort: string)
    requires WellFormed(db) && t in db.metas
    ensures IsList(db, t, parent, filters, sort, AllRows(db, t, parent, filters, sort))
    ensures forall i :: 0 <= i < |AllRows(db, t, parent, filters, sort)| ==>
              AllRows(db, t, parent, filters, sort)[i] in db.tables[t]
  {
    var meta, table := db.metas[t], db.tables[t];
    var chosen := Chosen(meta, WithinOf(parent), filters, table);
    var rows := Ordered(db.rank, OrderBy(sort), chosen);
    OrderingSorts(db.rank, OrderBy(sort), chosen);
    hide Chosen, Ordered, OrderBy, IsOrdered, Passes, BelongsTo, IsSorted, Wants;
    assert AllRows(db, t, parent, filters, sort) == rows;
    OrderedRowsAreSorted(db.rank, sort, rows);
    forall row ensures multiset(rows)[row] ==
                       if Passes(meta, filters, row) && BelongsTo(parent, row) then multiset(table)[row] else 0
    {
      RowsThatPassCount(db, t, parent, filters, row);
    }
    forall i | 0 <= i < |rows| ensures rows[i] in table {
      ChosenMembers(meta, WithinOf(parent), filters, table, rows[i]);
      assert rows[i] in multiset(rows) && rows[i] in multiset(chosen);
    }
  }

  lemma TableRowsAreWhole(db: Database, t: string, row: Row)
    requires WellFormed(db) && t in db.metas && row in db.tables[t]
    ensures row.Keys == db.metas[t].columns
    ensures db.metas[t].softDelete.Some? ==> db.metas[t].softDelete.value in row
  {
    assert TableOk(db.metas[t], db.tables[t]);
    var i :| 0 <= i < |db.tables[t]| && db.tables[t][i] == row;
  }

  /** A listing gives the part asked for of the list asked for, or fails exactly where a column named is not there. */
  lemma ListingsHoldTheList(db: Database, t: string, parent: Option<(string, string)>, filters: Filters, sort: string,
                            size: int, offset: int)
    requires WellFormed(db) && t in db.metas && (parent.Some? ==> IsPlainName(parent.value.0))
    ensures var listed := Listed(db, t, ParamsOf(parent, filters, sort, size, offset));
            && (listed.Some? <==>
                  IsAskable(db.metas[t], filters, sort) && (parent.Some? ==> parent.value.0 in db.metas[t].columns))
            && (listed.Some? ==> listed.value == Part(AllRows(db, t, parent, filters, sort), offset, size))
  {
    var meta := db.metas[t];
    var p := ParamsOf(parent, filters, sort, size, offset);
    var rows := AllRows(db, t, parent, filters, sort);
    AllRowsAreTheList(db, t, parent, filters, sort);
    assert t in db.tables && WithinParent(p) == WithinOf(parent) && Selected(meta, {}) == meta.columns;
    AskedColumns(meta, parent, filters, sort);
    hide Chosen, Ordered, OrderBy, IsList, Asked, IsAskable, WithinParent, IsPlainName;
    var part := Window(rows, NatOf(size), NatOf(offset));
    assert part == Part(rows, offset, size);
    forall i | 0 <= i < |part| ensures part[i].Keys == meta.columns {
      assert part[i] in rows;
      TableRowsAreWhole(db, t, part[i]);
    }
    WholeRows(meta.columns, part);
  }

  lemma AskedColumns(meta: Meta, parent: Option<(string, string)>, filters: Filters, sort: string)
    ensures meta.columns + Asked(WithinOf(parent), filters, OrderBy(sort)) <= meta.columns
            <==> IsAskable(meta, filters, sort) && (parent.Some? ==> parent.value.0 in meta.columns)
  {
    forall c ensures IsSafe(c) <==> IsPlainName(c) {}
    var keys := OrderBy(sort);
    assert KeyColumns(keys) == if sort != "" && IsSafe(SortColumn(sort)) then {SortColumn(sort)} else {} by {
      if sort != "" && IsSafe(SortColumn(sort)) {
        assert keys[0].column == SortColumn(sort);
      }
    }
    hide IsSafe, IsPlainName;
    assert forall c :: c in Mentioned(filters) <==> c in filters && IsPlainName(c) && filters[c] != AnyOf([]);
  }

  /** A listing that names columns gives the same rows with these columns only; asking for others is an error. */
  lemma ChosenColumnsAreGiven(db: Database, t: string, p: ListParams)
    requires WellFormed(db) && t in db.metas && t in db.tables && p.columns != {}
    ensures var whole, listed := Listed(db, t, p.(columns := {})), Listed(db, t, p);
            && (listed.Some? ==> p.columns <= db.metas[t].columns && whole.Some?)
            && (whole.Some? && p.columns <= db.metas[t].columns ==> listed.Some?)
            && (listed.Some? ==>
                  && |listed.value| == |whole.value|
                  && forall i :: 0 <= i < |whole.value| ==>
                       && listed.value[i].Keys == p.columns <= whole.value[i].Keys
                       && forall c :: c in p.columns ==> listed.value[i][c] == whole.value[i][c])
  {
    var meta := db.metas[t];
    OrderedRowsAreOfTheTable(db, t, WithinParent(p), p.filters, OrderBy(p.sort));
    hide Chosen, Ordered, OrderBy, Asked, WithinParent, WellFormed;
    var rows := Ordered(db.rank, OrderBy(p.sort), Chosen(meta, WithinParent(p), p.filters, db.tables[t]));
    var part := Window(rows, NatOf(p.pageSize), NatOf(p.pageOffset));
    forall i | 0 <= i < |part| ensures part[i].Keys == meta.columns {
      assert part[i] in rows;
    }
    WholeRows(meta.columns, part);
  }

  lemma OrderedRowsAreOfTheTable(db: Database, t: string, within: Within, filters: Filters, keys: seq<Key>)
    requires WellFormed(db) && t in db.metas && t in db.tables
    ensures forall row :: row in Ordered(db.rank, keys, Chosen(db.metas[t], within, filters, db.tables[t])) ==>
              row.Keys == db.metas[t].columns
  {
    var chosen := Chosen(db.metas[t], within, filters, db.tables[t]);
    var rows := Ordered(db.rank, keys, chosen);
    OrderingSorts(db.rank, keys, chosen);
    hide Chosen, Ordered, WellFormed, IsOrdered;
    forall row | row in rows ensures row.Keys == db.metas[t].columns {
      assert row in multiset(rows) && row in multiset(chosen);
      ChosenMembers(db.metas[t], within, filters, db.tables[t], row);
      TableRowsAreWhole(db, t, row);
    }
  }
}
