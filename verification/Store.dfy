/**
 The tables, edges and rows behind the Account queries, and the meaning of one
 SQL select over them: filter, stable order, offset, limit, projection.
 */
module Store {
  import opened Collections

  datatype Table = Accounts | Groups | Proxies | UsageLogs | AccountGroups

  /** A column; those that carry no key are told apart by name. */
  datatype Column = Id | ProxyId | ParentAccountId | AccountId | GroupId | Attr(name: string)

  /** A row maps its non-NULL columns to values; keys are integers, other values stay opaque codes. */
  type Row = map<Column, int>

  datatype Edge = ToGroups | ToProxy | ToParent | ToChildren | ToUsageLogs | ToAccountGroups | ToAccount | ToGroup

  datatype Shape = M2O | O2M | M2M

  // Schema ------------------------------------------------------------------

  /** The edges of a table in the order in which `sqlAll` loads them. */
  function EdgesOf(t: Table): (r: seq<Edge>) {
    match t
    case Accounts => [ToGroups, ToProxy, ToParent, ToChildren, ToUsageLogs, ToAccountGroups]
    case AccountGroups => [ToAccount, ToGroup]
    case _ => []
  }

  function Target(e: Edge): (r: Table) {
    match e
    case ToGroups => Groups
    case ToProxy => Proxies
    case ToParent => Accounts
    case ToChildren => Accounts
    case ToUsageLogs => UsageLogs
    case ToAccountGroups => AccountGroups
    case ToAccount => Accounts
    case ToGroup => Groups
  }

  function ShapeOf(e: Edge): (r: Shape) {
    match e
    case ToGroups => M2M
    case ToProxy => M2O
    case ToParent => M2O
    case ToChildren => O2M
    case ToUsageLogs => O2M
    case ToAccountGroups => O2M
    case ToAccount => M2O
    case ToGroup => M2O
  }

  /** The foreign key of an edge: on the owner for M2O, on the target for O2M. */
  function FkOf(e: Edge): (r: Column) {
    match e
    case ToGroups => GroupId
    case ToProxy => ProxyId
    case ToParent => ParentAccountId
    case ToChildren => ParentAccountId
    case ToUsageLogs => AccountId
    case ToAccountGroups => AccountId
    case ToAccount => AccountId
    case ToGroup => GroupId
  }

  /** Whether the entity field holding the foreign key is a pointer, so that NULL is told from zero. */
  predicate NullableFk(e: Edge) {
    e in {ToProxy, ToParent, ToChildren}
  }

  /** All tables but the membership table have an id column. */
  predicate HasId(t: Table) {
    t != AccountGroups
  }

  function KeyColumns(t: Table): (r: seq<Column>) {
    match t
    case Accounts => [Id, ProxyId, ParentAccountId]
    case UsageLogs => [Id, AccountId]
    case AccountGroups => [AccountId, GroupId]
    case Groups => [Id]
    case Proxies => [Id]
  }

  /** The columns that the entity's package lists: its keys, and the plain ones named in `attrs`. */
  predicate ValidColumn(t: Table, attrs: set<string>, c: Column) {
    c in KeyColumns(t) || (c.Attr? && c.name in attrs)
  }

  // Entity fields read by the loaders ---------------------------------------

  /** A non-pointer int64 field: zero when the column is NULL or was not selected. */
  function IdOf(row: Row): (r: int) {
    if Id in row then row[Id] else 0
  }

  /** The foreign key field of a loaded entity: nil only when the field is a pointer. */
  function FkValue(e: Edge, row: Row): (r: Option<int>) {
    if FkOf(e) in row then Some(row[FkOf(e)])
    else if NullableFk(e) then None
    else Some(0)
  }

  function IdKeys(rows: seq<Row>): (r: seq<Option<int>>)
    ensures |r| == |rows| && forall i :: 0 <= i < |rows| ==> r[i] == Some(IdOf(rows[i]))
  {
    seq(|rows|, i requires 0 <= i < |rows| => Some(IdOf(rows[i])))
  }

  function FkKeys(e: Edge, rows: seq<Row>): (r: seq<Option<int>>)
    ensures |r| == |rows| && forall i :: 0 <= i < |rows| ==> r[i] == FkValue(e, rows[i])
  {
    seq(|rows|, i requires 0 <= i < |rows| => FkValue(e, rows[i]))
  }

  // Select ------------------------------------------------------------------

  datatype Database = Database(rows: map<Table, seq<Row>>) {
    function Of(t: Table): (r: seq<Row>) {
      if t in rows then rows[t] else []
    }
  }

  /** A condition of the WHERE clause: the caller's own, or `col IN (keys)`; NULL is in no list. */
  datatype Pred = Where(test: Row -> bool) | KeyIn(col: Column, keys: seq<int>)

  predicate Sat(p: Pred, r: Row) {
    match p
    case Where(test) => test(r)
    case KeyIn(col, keys) => col in r && r[col] in keys
  }

  predicate Keep(ps: seq<Pred>, r: Row) {
    forall i :: 0 <= i < |ps| ==> Sat(ps[i], r)
  }

  function Filter(ps: seq<Pred>, rows: seq<Row>): (r: seq<Row>)
  {
    if rows == [] then []
    else
      var n := |rows| - 1;
      var f := Filter(ps, rows[..n]);
      if Keep(ps, rows[n]) then f + [rows[n]] else f
  }

  /** DISTINCT: each row once. */
  function Once(rows: seq<Row>): (r: seq<Row>) {
    if rows == [] then []
    else
      var n := |rows| - 1;
      if rows[n] in rows[..n] then Once(rows[..n]) else Once(rows[..n]) + [rows[n]]
  }

  /** ORDER BY: rank functions compared lexicographically. */
  type Order = seq<Row -> int>

  predicate Leq(o: Order, a: Row, b: Row) {
    o == [] || o[0](a) < o[0](b) || (o[0](a) == o[0](b) && Leq(o[1..], a, b))
  }

  function Insert(o: Order, sorted: seq<Row>, r: Row): (res: seq<Row>) {
    var n := |sorted| - 1;
    if sorted == [] || Leq(o, sorted[n], r) then sorted + [r]
    else Insert(o, sorted[..n], r) + [sorted[n]]
  }

  /** Stable sort: rows of equal rank keep the table's order. */
  function Sort(o: Order, rows: seq<Row>): (r: seq<Row>) {
    if rows == [] then []
    else Insert(o, Sort(o, rows[..|rows| - 1]), rows[|rows| - 1])
  }

  /** OFFSET then LIMIT; the zero value of either means that it is absent from the spec. */
  function Window<T>(limit: Option<nat>, offset: Option<nat>, xs: seq<T>): (r: seq<T>)
    ensures |r| <= |xs|
    ensures limit.Some? && limit.value > 0 ==> |r| <= limit.value
  {
    var from := if offset.Some? then if offset.value < |xs| then offset.value else |xs| else 0;
    var ys := xs[from..];
    if limit.Some? && 0 < limit.value < |ys| then ys[..limit.value] else ys
  }

  /** What scanning a row with the given columns leaves in the entity. */
  function Scan(row: Row, cols: seq<Column>): (r: Row) {
    map c | c in cols && c in row :: row[c]
  }

  // Laws --------------------------------------------------------------------

  lemma {:induction false} LeqTotal(o: Order, a: Row, b: Row)
    ensures Leq(o, a, b) || Leq(o, b, a)
  {
    if o != [] { LeqTotal(o[1..], a, b); }
  }

  lemma {:induction false} LeqTransitive(o: Order, a: Row, b: Row, c: Row)
    requires Leq(o, a, b) && Leq(o, b, c)
    ensures Leq(o, a, c)
  {
    if o != [] && o[0](a) == o[0](b) == o[0](c) { LeqTransitive(o[1..], a, b, c); }
  }

  ghost predicate Sorted(o: Order, rows: seq<Row>) {
    forall i, j :: 0 <= i < j < |rows| ==> Leq(o, rows[i], rows[j])
  }

  lemma {:induction false} InsertMembers(o: Order, sorted: seq<Row>, r: Row)
    ensures multiset(Insert(o, sorted, r)) == multiset(sorted) + multiset{r}
    ensures forall x :: x in Insert(o, sorted, r) <==> x == r || x in sorted
  {
    if sorted != [] {
      var n := |sorted| - 1;
      assert sorted == sorted[..n] + [sorted[n]];
      InsertMembers(o, sorted[..n], r);
    }
  }

  lemma {:induction false} InsertSorted(o: Order, sorted: seq<Row>, r: Row)
    requires Sorted(o, sorted)
    ensures Sorted(o, Insert(o, sorted, r))
  {
    var n := |sorted| - 1;
    if sorted == [] {
    } else if Leq(o, sorted[n], r) {
      forall i | 0 <= i < n ensures Leq(o, sorted[i], r) { LeqTransitive(o, sorted[i], sorted[n], r); }
    } else {
      InsertSorted(o, sorted[..n], r);
      InsertMembers(o, sorted[..n], r);
      var s := Insert(o, sorted[..n], r);
      LeqTotal(o, sorted[n], r);
      forall i | 0 <= i < |s| ensures Leq(o, s[i], sorted[n]) { assert s[i] in s; }
    }
  }

  /** The sort orders the rows and neither adds nor loses any. */
  lemma {:induction false} SortSorts(o: Order, rows: seq<Row>)
    ensures Sorted(o, Sort(o, rows))
    ensures multiset(Sort(o, rows)) == multiset(rows)
    ensures |Sort(o, rows)| == |rows|
  {
    if rows != [] {
      var n := |rows| - 1;
      SortSorts(o, rows[..n]);
      InsertSorted(o, Sort(o, rows[..n]), rows[n]);
      InsertMembers(o, Sort(o, rows[..n]), rows[n]);
      assert rows == rows[..n] + [rows[n]];
    }
    assert |multiset(Sort(o, rows))| == |multiset(rows)|;
  }

  lemma FilterSnoc(ps: seq<Pred>, rows: seq<Row>, r: Row)
    ensures Filter(ps, rows + [r]) == if Keep(ps, r) then Filter(ps, rows) + [r] else Filter(ps, rows)
  {
    assert (rows + [r])[..|rows|] == rows;
  }

  lemma SortSnoc(o: Order, rows: seq<Row>, r: Row)
    ensures Sort(o, rows + [r]) == Insert(o, Sort(o, rows), r)
  {
    assert (rows + [r])[..|rows|] == rows;
  }

  lemma {:induction false} FilterInsert(ps: seq<Pred>, o: Order, sorted: seq<Row>, r: Row)
    requires Sorted(o, sorted)
    ensures Filter(ps, Insert(o, sorted, r))
         == if Keep(ps, r) then Insert(o, Filter(ps, sorted), r) else Filter(ps, sorted)
  {
    var n := |sorted| - 1;
    if sorted == [] || Leq(o, sorted[n], r) {
      FilterSnoc(ps, sorted, r);
      if sorted != [] && Keep(ps, r) { InsertLast(ps, o, sorted, r); }
    } else {
      FilterInsert(ps, o, sorted[..n], r);
      FilterSnoc(ps, Insert(o, sorted[..n], r), sorted[n]);
      if Keep(ps, sorted[n]) {
        var f := Filter(ps, sorted[..n]);
        assert Filter(ps, sorted) == f + [sorted[n]];
        assert (f + [sorted[n]])[..|f|] == f;
      }
    }
  }

  /** A row that follows every sorted row is inserted last, also after filtering. */
  lemma {:induction false} InsertLast(ps: seq<Pred>, o: Order, sorted: seq<Row>, r: Row)
    requires sorted != [] && Sorted(o, sorted) && Leq(o, sorted[|sorted| - 1], r)
    ensures Insert(o, Filter(ps, sorted), r) == Filter(ps, sorted) + [r]
  {
    var f := Filter(ps, sorted);
    if f != [] {
      FilterMembers(ps, sorted);
      assert f[|f| - 1] in f;
      var i :| 0 <= i < |sorted| && sorted[i] == f[|f| - 1];
      if i < |sorted| - 1 { LeqTransitive(o, sorted[i], sorted[|sorted| - 1], r); }
    }
  }

  lemma {:induction false} FilterMembers(ps: seq<Pred>, rows: seq<Row>)
    ensures forall r :: r in Filter(ps, rows) <==> r in rows && Keep(ps, r)
  {
    if rows != [] {
      var n := |rows| - 1;
      FilterMembers(ps, rows[..n]);
      assert rows == rows[..n] + [rows[n]];
    }
  }

  /** Filtering an ordered result is ordering the filtered rows. */
  lemma {:induction false} FilterSort(ps: seq<Pred>, o: Order, rows: seq<Row>)
    ensures Filter(ps, Sort(o, rows)) == Sort(o, Filter(ps, rows))
  {
    if rows != [] {
      var n := |rows| - 1;
      var s := Sort(o, rows[..n]);
      SortSorts(o, rows[..n]);
      FilterSort(ps, o, rows[..n]);
      FilterInsert(ps, o, s, rows[n]);
      SortSnoc(o, Filter(ps, rows[..n]), rows[n]);
    }
  }

  /** Filtering twice is filtering once by both lists. */
  lemma {:induction false} FilterFilter(ps: seq<Pred>, qs: seq<Pred>, rows: seq<Row>)
    ensures Filter(qs, Filter(ps, rows)) == Filter(ps + qs, rows)
  {
    if rows != [] {
      var n := |rows| - 1;
      FilterFilter(ps, qs, rows[..n]);
      KeepBoth(ps, qs, rows[n]);
      FilterSnoc(qs, Filter(ps, rows[..n]), rows[n]);
    }
  }

  lemma KeepBoth(ps: seq<Pred>, qs: seq<Pred>, r: Row)
    ensures Keep(ps + qs, r) <==> Keep(ps, r) && Keep(qs, r)
  {
    if Keep(ps + qs, r) {
      forall i | 0 <= i < |ps| ensures Sat(ps[i], r) { assert (ps + qs)[i] == ps[i]; }
      forall i | 0 <= i < |qs| ensures Sat(qs[i], r) { assert (ps + qs)[|ps| + i] == qs[i]; }
    }
  }

  /** Filters that agree on every row give the same rows. */
  lemma {:induction false} FilterAgree(ps: seq<Pred>, qs: seq<Pred>, rows: seq<Row>)
    requires forall r :: r in rows ==> (Keep(ps, r) <==> Keep(qs, r))
    ensures Filter(ps, rows) == Filter(qs, rows)
  {
    if rows != [] { FilterAgree(ps, qs, rows[..|rows| - 1]); }
  }

  lemma {:induction false} OnceMembers(rows: seq<Row>)
    ensures forall r :: r in Once(rows) <==> r in rows
    ensures forall i, j :: 0 <= i < j < |Once(rows)| ==> Once(rows)[i] != Once(rows)[j]
  {
    if rows != [] {
      var n := |rows| - 1;
      OnceMembers(rows[..n]);
      assert rows == rows[..n] + [rows[n]];
    }
  }

  lemma {:induction false} OnceDistinct(rows: seq<Row>)
    requires DistinctIds(rows)
    ensures Once(rows) == rows
  {
    if rows != [] {
      var n := |rows| - 1;
      OnceDistinct(rows[..n]);
      assert rows[n] !in rows[..n];
      assert rows == rows[..n] + [rows[n]];
    }
  }

  lemma OnceSnoc(rows: seq<Row>, r: Row)
    ensures Once(rows + [r]) == if r in rows then Once(rows) else Once(rows) + [r]
  {
    assert (rows + [r])[..|rows|] == rows;
  }

  /** DISTINCT can be applied before the WHERE clause. */
  lemma {:induction false} OnceFilter(ps: seq<Pred>, rows: seq<Row>)
    ensures Once(Filter(ps, rows)) == Filter(ps, Once(rows))
  {
    if rows != [] {
      var n := |rows| - 1;
      OnceFilter(ps, rows[..n]);
      FilterMembers(ps, rows[..n]);
      OnceSnoc(Filter(ps, rows[..n]), rows[n]);
      FilterSnoc(ps, Once(rows[..n]), rows[n]);
    }
  }

  lemma {:induction false} SortMembers(o: Order, rows: seq<Row>)
    ensures forall r :: r in Sort(o, rows) <==> r in rows
  {
    SortSorts(o, rows);
    forall r ensures r in Sort(o, rows) <==> r in rows {
      assert r in Sort(o, rows) <==> r in multiset(Sort(o, rows));
      assert r in rows <==> r in multiset(rows);
    }
  }

  /** And before the ORDER BY clause. */
  lemma {:induction false} OnceSort(o: Order, rows: seq<Row>)
    ensures Once(Sort(o, rows)) == Sort(o, Once(rows))
  {
    if rows != [] {
      var n := |rows| - 1;
      var s := Sort(o, rows[..n]);
      OnceSort(o, rows[..n]);
      SortSorts(o, rows[..n]);
      SortMembers(o, rows[..n]);
      SortSnoc(o, Once(rows[..n]), rows[n]);
      if rows[n] in rows[..n] { OnceInsertOld(o, s, rows[n]); } else { OnceInsertNew(o, s, rows[n]); }
    }
  }

  lemma {:induction false} OnceInsertOld(o: Order, sorted: seq<Row>, r: Row)
    requires Sorted(o, sorted) && r in sorted
    ensures Once(Insert(o, sorted, r)) == Once(sorted)
  {
    hide *;
    var n := |sorted| - 1;
    InsertSteps(o, sorted, r);
    if Leq(o, sorted[n], r) {
      OnceSnoc(sorted, r);
    } else {
      LeqTotal(o, r, r);
      assert r in sorted[..n];
      OnceInsertOld(o, sorted[..n], r);
      InsertMembers(o, sorted[..n], r);
      OnceSnoc(Insert(o, sorted[..n], r), sorted[n]);
      OnceSnoc(sorted[..n], sorted[n]);
      assert sorted == sorted[..n] + [sorted[n]];
    }
  }

  lemma InsertSteps(o: Order, sorted: seq<Row>, r: Row)
    requires sorted != [] && Sorted(o, sorted)
    ensures var n := |sorted| - 1;
      && Sorted(o, sorted[..n])
      && Insert(o, sorted, r) == if Leq(o, sorted[n], r) then sorted + [r] else Insert(o, sorted[..n], r) + [sorted[n]]
  {
    hide Leq;
  }

  lemma {:induction false} OnceInsertNew(o: Order, sorted: seq<Row>, r: Row)
    requires Sorted(o, sorted) && r !in sorted
    ensures Once(Insert(o, sorted, r)) == Insert(o, Once(sorted), r)
  {
    if sorted == [] {
      OnceSnoc([], r);
    } else {
      var n := |sorted| - 1;
      OnceMembers(sorted);
      if Leq(o, sorted[n], r) {
        OnceSnoc(sorted, r);
        OnceLastLeq(o, sorted, r);
      } else {
        OnceInsertNew(o, sorted[..n], r);
        InsertMembers(o, sorted[..n], r);
        OnceSnoc(Insert(o, sorted[..n], r), sorted[n]);
        if sorted[n] !in sorted[..n] { InsertBefore(o, Once(sorted[..n]), sorted[n], r); }
      }
    }
  }

  /** Everything in a sorted list goes before what its last row goes before. */
  lemma OnceLastLeq(o: Order, sorted: seq<Row>, r: Row)
    requires sorted != [] && Sorted(o, sorted) && Leq(o, sorted[|sorted| - 1], r)
    ensures Insert(o, Once(sorted), r) == Once(sorted) + [r]
  {
    OnceMembers(sorted);
    var s := Once(sorted);
    if s != [] {
      assert s[|s| - 1] in s;
      var i :| 0 <= i < |sorted| && sorted[i] == s[|s| - 1];
      if i < |sorted| - 1 { LeqTransitive(o, sorted[i], sorted[|sorted| - 1], r); }
    }
  }

  lemma InsertBefore(o: Order, sorted: seq<Row>, last: Row, r: Row)
    requires !Leq(o, last, r)
    ensures Insert(o, sorted + [last], r) == Insert(o, sorted, r) + [last]
  {
    assert (sorted + [last])[..|sorted|] == sorted;
  }

  lemma {:induction false} FilterNone(rows: seq<Row>)
    ensures Filter([], rows) == rows
  {
    if rows != [] { FilterNone(rows[..|rows| - 1]); }
  }

  lemma {:induction false} SortNone(rows: seq<Row>)
    ensures Sort([], rows) == rows
  {
    if rows != [] { SortNone(rows[..|rows| - 1]); }
  }

  /** Rows with distinct ids keep distinct ids when filtered or sorted. */
  ghost predicate DistinctIds(rows: seq<Row>) {
    forall i, j :: 0 <= i < j < |rows| ==> IdOf(rows[i]) != IdOf(rows[j])
  }
}
