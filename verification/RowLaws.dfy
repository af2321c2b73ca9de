/**
 What a select returns, in terms of its rows: their order by every ranking, their number, the ones that
 a window skips, and the columns that a projection keeps.
 */
module RowLaws {
  import opened Collections
  import opened Store
  import opened Plan
  import opened PlanLaws
  import opened EagerLaws

  // Order -------------------------------------------------------------------

  /** No ranking tells the two rows apart. */
  ghost predicate Tied(o: Order, a: Row, b: Row) {
    forall k :: 0 <= k < |o| ==> o[k](a) == o[k](b)
  }

  /** At the first ranking that tells them apart, `a` ranks lower. */
  ghost predicate Before(o: Order, a: Row, b: Row) {
    exists n :: 0 <= n < |o| && o[n](a) < o[n](b) && forall k :: 0 <= k < n ==> o[k](a) == o[k](b)
  }

  lemma {:induction false} LeqExact(o: Order, a: Row, b: Row)
    ensures Leq(o, a, b) <==> Tied(o, a, b) || Before(o, a, b)
  {
    if o != [] {
      var rest := o[1..];
      LeqExact(rest, a, b);
      assert forall k :: 0 <= k < |rest| ==> rest[k] == o[k + 1];
      if o[0](a) == o[0](b) {
        if Tied(rest, a, b) {
          forall k | 0 <= k < |o| ensures o[k](a) == o[k](b) { if k > 0 { assert rest[k - 1](a) == rest[k - 1](b); } }
        }
        if Tied(o, a, b) {
          forall k | 0 <= k < |rest| ensures rest[k](a) == rest[k](b) { assert o[k + 1](a) == o[k + 1](b); }
        }
        if Before(rest, a, b) {
          var n :| 0 <= n < |rest| && rest[n](a) < rest[n](b) && forall k :: 0 <= k < n ==> rest[k](a) == rest[k](b);
          forall k | 0 <= k < n + 1 ensures o[k](a) == o[k](b) { if k > 0 { assert rest[k - 1](a) == rest[k - 1](b); } }
          assert o[n + 1](a) < o[n + 1](b);
        }
        if Before(o, a, b) {
          var n :| 0 <= n < |o| && o[n](a) < o[n](b) && forall k :: 0 <= k < n ==> o[k](a) == o[k](b);
          forall k | 0 <= k < n - 1 ensures rest[k](a) == rest[k](b) { assert o[k + 1](a) == o[k + 1](b); }
          assert rest[n - 1](a) < rest[n - 1](b);
        }
      } else if o[0](a) < o[0](b) {
        assert Before(o, a, b);
      } else {
        assert !Tied(o, a, b);
        forall n | 0 <= n < |o| && o[n](a) < o[n](b) ensures exists k :: 0 <= k < n && o[k](a) != o[k](b) {
          assert o[0](a) != o[0](b);
        }
      }
    }
  }

  /** The selected rows are in the order of all rankings, the first one first. */
  lemma SelectOrdered(db: Database, h: Head)
    ensures var rows := SelectRows(db, h);
      forall i, j :: 0 <= i < j < |rows| ==> Tied(h.order, rows[i], rows[j]) || Before(h.order, rows[i], rows[j])
  {
    var all := Sort(h.order, Filter(h.preds, Drawn(db, h)));
    SortSorts(h.order, Filter(h.preds, Drawn(db, h)));
    hide Sort, Filter, Drawn;
    var rows := SelectRows(db, h);
    var from := if h.offset.Some? then if h.offset.value < |all| then h.offset.value else |all| else 0;
    forall i, j | 0 <= i < j < |rows| ensures Tied(h.order, rows[i], rows[j]) || Before(h.order, rows[i], rows[j]) {
      assert rows[i] == all[from + i] && rows[j] == all[from + j];
      LeqExact(h.order, all[from + i], all[from + j]);
    }
  }

  // Conditions ------------------------------------------------------------------

  /** A row is kept when it passes every test of the caller and its key is in every IN list. */
  lemma KeepExact(ps: seq<Pred>, r: Row)
    ensures Keep(ps, r) <==>
      && (forall i :: 0 <= i < |ps| && ps[i].Where? ==> ps[i].test(r))
      && forall i :: 0 <= i < |ps| && ps[i].KeyIn? ==> ps[i].col in r && r[ps[i].col] in ps[i].keys
  {
    forall i | 0 <= i < |ps|
      ensures Sat(ps[i], r) <==> (ps[i].Where? ==> ps[i].test(r)) && (ps[i].KeyIn? ==> ps[i].col in r && r[ps[i].col] in ps[i].keys)
    {
    }
    if Keep(ps, r) {
      forall i | 0 <= i < |ps| ensures Sat(ps[i], r) {}
    }
  }

  /** Without a window every source row that meets the conditions is selected. */
  lemma SelectHas(db: Database, h: Head, r: Row)
    requires Open(h) && r in Source(db, h) && Keep(h.preds, r)
    ensures r in SelectRows(db, h)
  {
    OnceMembers(Source(db, h));
    FilterMembers(h.preds, Drawn(db, h));
    SortMembers(h.order, Filter(h.preds, Drawn(db, h)));
    OpenWindow(h, Sort(h.order, Filter(h.preds, Drawn(db, h))));
  }

  /** Selecting with one condition more. */
  lemma SelectWith(db: Database, h: Head, ps: seq<Pred>, p: Pred)
    requires Open(h) && h.preds == ps + [p]
    ensures forall r :: r in SelectRows(db, h) <==> r in Source(db, h) && Keep(ps, r) && Sat(p, r)
  {
    SelectMembers(db, h);
    hide SelectRows, Source, Sat;
    forall r ensures Keep(h.preds, r) <==> Keep(ps, r) && Sat(p, r) { KeepLast(ps, p, r); }
    forall r | r in Source(db, h) && Keep(h.preds, r) ensures r in SelectRows(db, h) { SelectHas(db, h, r); }
  }

  lemma KeepLast(ps: seq<Pred>, p: Pred, r: Row)
    ensures Keep(ps + [p], r) <==> Keep(ps, r) && Sat(p, r)
  {
    KeepBoth(ps, [p], r);
    assert Keep([p], r) <==> Sat([p][0], r);
  }

  // Counting and windows --------------------------------------------------------

  lemma {:induction false} FilterCounts(ps: seq<Pred>, rows: seq<Row>, r: Row)
    ensures multiset(Filter(ps, rows))[r] == if Keep(ps, r) then multiset(rows)[r] else 0
  {
    if rows != [] {
      var n := |rows| - 1;
      FilterCounts(ps, rows[..n], r);
      FilterSnoc(ps, rows[..n], rows[n]);
      assert rows == rows[..n] + [rows[n]];
    }
  }

  /** Without a window each row comes back as often as it is there, if it meets the conditions; once with DISTINCT. */
  lemma SelectCounts(db: Database, h: Head, r: Row)
    requires Open(h)
    ensures multiset(SelectRows(db, h))[r]
      == if !Keep(h.preds, r) then 0
         else if h.unique == Some(true) || (h.unique.None? && h.from.Some?) then if r in Source(db, h) then 1 else 0
         else multiset(Source(db, h))[r]
  {
    var drawn := Drawn(db, h);
    OpenSelect(db, h);
    SortSorts(h.order, Filter(h.preds, drawn));
    FilterCounts(h.preds, drawn, r);
    if DistinctOn(h) { OnceCounts(Source(db, h), r); }
  }

  lemma OnceCounts(rows: seq<Row>, r: Row)
    ensures multiset(Once(rows))[r] == if r in rows then 1 else 0
  {
    OnceMembers(rows);
    hide Once;
    DistinctCounts(Once(rows), r);
  }

  lemma {:induction false} DistinctCounts(rows: seq<Row>, r: Row)
    requires forall i, j :: 0 <= i < j < |rows| ==> rows[i] != rows[j]
    ensures multiset(rows)[r] == if r in rows then 1 else 0
  {
    if rows != [] {
      var n := |rows| - 1;
      DistinctCounts(rows[..n], r);
      assert rows == rows[..n] + [rows[n]];
      if r == rows[n] { assert r !in rows[..n]; }
    }
  }

  /** An offset skips that many of the first rows, and a positive limit bounds the rest. */
  lemma SelectWindow(db: Database, h: Head)
    ensures var all, rows := SelectRows(db, h.(limit := None, offset := None)), SelectRows(db, h);
      var skipped := if h.offset.Some? then h.offset.value else 0;
      var left := if skipped < |all| then |all| - skipped else 0;
      && |rows| == (if h.limit.Some? && 0 < h.limit.value < left then h.limit.value else left)
      && forall i :: 0 <= i < |rows| ==> rows[i] == all[skipped + i]
  {
    hide Sort, Filter, Once;
    assert Drawn(db, h.(limit := None, offset := None)) == Drawn(db, h);
  }

  /** The scanning path likewise, but a zero limit returns nothing and an offset brings a limit along. */
  lemma ScanSkips(db: Database, h: Head)
    ensures var all, rows := ScanRows(db, h.(limit := None, offset := None)), ScanRows(db, h);
      var skipped := if h.offset.Some? then h.offset.value else 0;
      var left := if skipped < |all| then |all| - skipped else 0;
      var bound := if h.limit.Some? then h.limit.value else if h.offset.Some? then 2147483647 else left;
      && |rows| == (if bound < left then bound else left)
      && forall i :: 0 <= i < |rows| ==> rows[i] == all[skipped + i]
  {
    hide Sort, Filter, Once;
  }

  // Projection ----------------------------------------------------------------------

  /** A foreign key that a loaded edge needs on the node itself. */
  predicate NeededKey(t: Table, loaded: set<Edge>, c: Column) {
    || (t == Accounts && ((c == ProxyId && ToProxy in loaded) || (c == ParentAccountId && ToParent in loaded)))
    || (t == AccountGroups && ((c == AccountId && ToAccount in loaded) || (c == GroupId && ToGroup in loaded)))
  }

  /** A projected row holds the values of the table's row in exactly the columns that were asked for, the id
      and the foreign keys that loaded edges need. */
  lemma ProjectKeeps(h: Head, loaded: set<Edge>, raw: Row)
    ensures var row := Project(h, loaded, raw);
      && (forall c :: c in row ==> c in raw && row[c] == raw[c])
      && forall c :: c in raw ==>
        (c in row <==> h.fields == [] || c in h.fields || (c == Id && HasId(h.table)) || NeededKey(h.table, loaded, c))
  {
    if h.fields != [] {
      var cols := if HasId(h.table) then [Id] + WithoutId(h.fields) else h.fields;
      assert HasId(h.table) ==> cols[0] == Id;
      forall c ensures c in cols <==> c in h.fields || (c == Id && HasId(h.table)) {}
      forall c ensures c in SelectColumns(h, loaded) <==> c in cols || NeededKey(h.table, loaded, c) {
        AddedFks(cols, loaded, EdgesOf(h.table), c);
        NeedsKey(h.table, loaded, c);
      }
    }
  }

  lemma {:induction false} AddedFks(cols: seq<Column>, loaded: set<Edge>, es: seq<Edge>, c: Column)
    ensures c in AddFks(cols, loaded, es) <==> c in cols || exists e :: e in es && e in loaded && ShapeOf(e) == M2O && c == FkOf(e)
  {
    if es != [] {
      var n := |es| - 1;
      AddedFks(cols, loaded, es[..n], c);
      assert es == es[..n] + [es[n]];
    }
  }

  lemma NeedsKey(t: Table, loaded: set<Edge>, c: Column)
    ensures (exists e :: e in EdgesOf(t) && e in loaded && ShapeOf(e) == M2O && c == FkOf(e)) <==> NeededKey(t, loaded, c)
  {
    if NeededKey(t, loaded, c) {
      var e := if t == Accounts then if c == ProxyId then ToProxy else ToParent else if c == AccountId then ToAccount else ToGroup;
      assert EdgesOf(Accounts)[1] == ToProxy && EdgesOf(Accounts)[2] == ToParent;
      assert EdgesOf(AccountGroups)[0] == ToAccount && EdgesOf(AccountGroups)[1] == ToGroup;
      assert e in EdgesOf(t);
    }
  }

  /** A column that the table does not have. */
  predicate Foreign(t: Table, attrs: set<string>, c: Column) {
    match c
    case Attr(name) => name !in attrs
    case Id => t == AccountGroups
    case ProxyId => t != Accounts
    case ParentAccountId => t != Accounts
    case AccountId => t != UsageLogs && t != AccountGroups
    case GroupId => t != AccountGroups
  }

  ghost predicate FirstForeignAt(h: Head, i: nat) {
    i < |h.fields| && Foreign(h.table, h.attrs, h.fields[i]) && forall j :: 0 <= j < i ==> !Foreign(h.table, h.attrs, h.fields[j])
  }

  /** A query is refused for the first selected field that is no column of its table, and for no other reason. */
  lemma RefusedExact(db: Database, q: Query)
    ensures (forall c :: c in q.head.fields ==> !Foreign(q.head.table, q.head.attrs, c)) ==> BadField(q.head).None?
    ensures forall i: nat :: FirstForeignAt(q.head, i) ==> Run(db, q) == Err(InvalidField(q.head.fields[i]))
  {
    forall c ensures ValidColumn(q.head.table, q.head.attrs, c) <==> !Foreign(q.head.table, q.head.attrs, c) {}
    forall i: nat | FirstForeignAt(q.head, i) ensures Run(db, q) == Err(InvalidField(q.head.fields[i])) {
      FirstForeign(q.head.table, q.head.attrs, q.head.fields, i);
    }
  }

  lemma {:induction false} FirstForeign(t: Table, attrs: set<string>, fields: seq<Column>, i: nat)
    requires i < |fields| && !ValidColumn(t, attrs, fields[i]) && forall j :: 0 <= j < i ==> ValidColumn(t, attrs, fields[j])
    ensures FirstBad(t, attrs, fields) == Some(fields[i])
  {
    if i > 0 {
      forall j | 0 <= j < i - 1 ensures ValidColumn(t, attrs, fields[1..][j]) { assert fields[1..][j] == fields[j + 1]; }
      FirstForeign(t, attrs, fields[1..], i - 1);
    }
  }

  // Runs ----------------------------------------------------------------------------

  /** The entities of a run are in the order of all rankings of their rows. */
  lemma RunOrdered(db: Database, q: Query)
    requires Run(db, q).Ok? && q.head.fields == []
    ensures var ts := Run(db, q).value;
      forall i, j :: 0 <= i < j < |ts| ==> Tied(q.head.order, ts[i].row, ts[j].row) || Before(q.head.order, ts[i].row, ts[j].row)
  {
    SelectOrdered(db, q.head);
    RunRows(db, q);
    hide SelectRows, Run, Tied, Before;
    var ts, rows := Run(db, q).value, SelectRows(db, q.head);
    forall i | 0 <= i < |ts| ensures ts[i].row == rows[i] { assert RowsOf(ts)[i] == ts[i].row; }
  }

  /** No row that meets the conditions comes before this one. */
  ghost predicate Least(db: Database, h: Head, raw: Row) {
    forall r :: r in Source(db, h) && Keep(h.preds, r) ==> !Before(h.order, r, raw)
  }

  /** Without an offset `First` returns a row that meets the conditions, and none that does comes before it. */
  lemma FirstLeast(db: Database, q: Query)
    requires Run(db, Limited(q, Some(1))).Ok? && q.head.offset in {None, Some(0)}
    ensures var ts := Run(db, Limited(q, Some(1))).value;
      if ts == [] then forall r :: r in Source(db, q.head) ==> !Keep(q.head.preds, r)
      else exists raw :: raw in Source(db, q.head) && Keep(q.head.preds, raw) && Least(db, q.head, raw) && ts[0].row == Project(q.head, q.with.Keys, raw)
  {
    var p := Limited(q, Some(1));
    RunRows(db, p);
    SelectMembers(db, p.head);
    LeastFirst(db, q.head);
    hide SelectRows, Run, Before, Keep;
    var ts, rows := Run(db, p).value, SelectRows(db, p.head);
    assert |ts| == |rows|;
    if ts != [] {
      assert RowsOf(ts)[0] == ts[0].row;
      assert ts[0].row == Project(p.head, p.with.Keys, rows[0]);
      assert Project(p.head, p.with.Keys, rows[0]) == Project(q.head, q.with.Keys, rows[0]);
      assert rows[0] in rows;
      assert Source(db, p.head) == Source(db, q.head);
    }
  }

  lemma LeastFirst(db: Database, h: Head)
    requires h.offset in {None, Some(0)}
    ensures var rows := SelectRows(db, h.(limit := Some(1)));
      forall r :: r in Source(db, h) && Keep(h.preds, r) ==> rows != [] && !Before(h.order, r, rows[0])
  {
    var drawn := Drawn(db, h);
    OnceMembers(Source(db, h));
    FilterMembers(h.preds, drawn);
    SortMembers(h.order, Filter(h.preds, drawn));
    SortSorts(h.order, Filter(h.preds, drawn));
    assert Drawn(db, h.(limit := Some(1))) == drawn;
    hide Sort, Filter, Drawn, Once;
    var all, rows := Sort(h.order, Filter(h.preds, drawn)), SelectRows(db, h.(limit := Some(1)));
    forall r | r in Source(db, h) && Keep(h.preds, r) ensures rows != [] && !Before(h.order, r, rows[0]) {
      assert r in all;
      var i :| 0 <= i < |all| && all[i] == r;
      assert rows[0] == all[0];
      if i > 0 { LeqExact(h.order, all[0], r); }
      NotBoth(h.order, all[0], r);
    }
  }

  lemma NotBoth(o: Order, a: Row, b: Row)
    ensures Tied(o, a, b) || Before(o, a, b) ==> !Before(o, b, a)
    ensures !Before(o, a, a)
  {
    if Before(o, a, b) {
      var n :| 0 <= n < |o| && o[n](a) < o[n](b) && forall k :: 0 <= k < n ==> o[k](a) == o[k](b);
      forall m | 0 <= m < |o| && o[m](b) < o[m](a) ensures exists k :: 0 <= k < m && o[k](b) != o[k](a) {
        assert m != n;
        assert m > n;
      }
    }
  }
}
