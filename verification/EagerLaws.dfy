/** Properties of eager loading: projection, partition, limits, many-to-many order, and builder reuse. */
module EagerLaws {
  import opened Collections
  import opened Store
  import opened Plan
  import opened PlanLaws

  // Projection --------------------------------------------------------------

  lemma {:induction false} AddFksLaws(cols: seq<Column>, loaded: set<Edge>, es: seq<Edge>)
    ensures forall i :: |cols| <= i < |AddFks(cols, loaded, es)| ==> AddFks(cols, loaded, es)[i] != Id
  {
    if es != [] {
      AddFksLaws(cols, loaded, es[..|es| - 1]);
    }
  }

  /** A projected query selects the id first and once, the asked-for columns, and the keys its M2O edges follow. */
  lemma SelectColumnsLaws(h: Head, loaded: set<Edge>)
    requires HasId(h.table)
    ensures var cols := SelectColumns(h, loaded);
      && cols[0] == Id && (forall i :: 1 <= i < |cols| ==> cols[i] != Id)
      && (forall c :: c in h.fields ==> c in cols)
      && forall e :: e in EdgesOf(h.table) && e in loaded && ShapeOf(e) == M2O ==> FkOf(e) in cols
  {
    var w := [Id] + WithoutId(h.fields);
    var cols := SelectColumns(h, loaded);
    AddFksLaws(w, loaded, EdgesOf(h.table));
    assert w <= cols;
    assert w[0] == Id;
    forall i | 1 <= i < |cols| ensures cols[i] != Id {
      if i < |w| { assert w[i] == WithoutId(h.fields)[i - 1] && w[i] in WithoutId(h.fields); }
    }
    forall c | c in h.fields ensures c in cols {
      assert c in w;
    }
  }

  ghost function Unprojected(q: Query): (r: Query) {
    q.(head := q.head.(fields := []))
  }

  /** The keys that the loaders read are those of the table, whatever was projected. */
  lemma KeysSurvive(db: Database, q: Query)
    requires forall e :: e in q.with ==> e in EdgesOf(q.head.table)
    ensures var rows, full := NodeRows(db, q.head, q.with.Keys), NodeRows(db, Unprojected(q).head, q.with.Keys);
      && |rows| == |full|
      && (HasId(q.head.table) ==> Ids(rows) == Ids(full))
      && forall e :: e in q.with && ShapeOf(e) == M2O ==> FkKeys(e, rows) == FkKeys(e, full)
  {
    var raws := SelectRows(db, q.head);
    var rows, full := NodeRows(db, q.head, q.with.Keys), NodeRows(db, Unprojected(q).head, q.with.Keys);
    assert full == raws;
    if HasId(q.head.table) {
      forall i | 0 <= i < |raws| ensures Ids(rows)[i] == Ids(full)[i] { ProjectId(q.head, q.with.Keys, raws[i]); }
    }
    forall e | e in q.with && ShapeOf(e) == M2O ensures FkKeys(e, rows) == FkKeys(e, full) {
      forall i | 0 <= i < |raws| ensures FkKeys(e, rows)[i] == FkKeys(e, full)[i] { ProjectFk(q.head, q.with.Keys, raws[i], e); }
    }
  }

  /** An edge's batch and shares depend on the nodes' keys only. */
  lemma SameKeysSameLinks(db: Database, c: Query, e: Edge, rows: seq<Row>, full: seq<Row>)
    requires |rows| == |full|
    requires ShapeOf(e) == M2O ==> FkKeys(e, rows) == FkKeys(e, full)
    requires ShapeOf(e) != M2O ==> Ids(rows) == Ids(full)
    ensures Neighbors(db, c, rows, e) == Neighbors(db, c, full, e)
    ensures forall ts, i :: 0 <= i < |rows| ==> LinkFor(db, c, rows, e, ts, i) == LinkFor(db, c, full, e, ts, i)
  {
    forall ts, i | 0 <= i < |rows| ensures LinkFor(db, c, rows, e, ts, i) == LinkFor(db, c, full, e, ts, i) {
      if ShapeOf(e) == M2O {
        assert FkKeys(e, rows)[i] == FkKeys(e, full)[i];
      } else {
        forall j | 0 <= j < |rows| ensures IdOf(rows[j]) == IdOf(full[j]) { assert Ids(rows)[j] == Ids(full)[j]; }
      }
    }
  }

  lemma {:induction false} SameKeysSameLoads(db: Database, q: Query, p: Query, rows: seq<Row>, full: seq<Row>, es: seq<Edge>)
    requires p.with == q.with
    requires forall e :: e in q.with ==> Neighbors(db, q.with[e], rows, e) == Neighbors(db, q.with[e], full, e)
    ensures Loads(db, q, rows, es) == Loads(db, p, full, es)
  {
    if es != [] { SameKeysSameLoads(db, q, p, rows, full, es[..|es| - 1]); }
  }

  ghost predicate SameEdges(ts: seq<Tree>, us: seq<Tree>) {
    |ts| == |us| && forall i :: 0 <= i < |ts| ==> ts[i].edges == us[i].edges
  }

  /** Selecting fields at the root changes no loaded edge, whatever windows the edge queries have. */
  lemma ProjectionKeepsEdges(db: Database, q: Query)
    requires BadField(q.head).None?
    requires forall e :: e in q.with ==> e in EdgesOf(q.head.table)
    ensures match (Run(db, q), Run(db, Unprojected(q)))
            case (Ok(ts), Ok(us)) => SameEdges(ts, us)
            case (Err(x), Err(y)) => x == y
            case _ => false
  {
    hide Neighbors, LinkFor, NodeRows, Loads;
    var p := Unprojected(q);
    var rows, full := NodeRows(db, q.head, q.with.Keys), NodeRows(db, p.head, q.with.Keys);
    KeysSurvive(db, q);
    forall e | e in q.with
      ensures Neighbors(db, q.with[e], rows, e) == Neighbors(db, q.with[e], full, e)
      ensures forall ts, i :: 0 <= i < |rows| ==> LinkFor(db, q.with[e], rows, e, ts, i) == LinkFor(db, q.with[e], full, e, ts, i)
    {
      assert e in EdgesOf(q.head.table);
      SameKeysSameLinks(db, q.with[e], e, rows, full);
    }
    SameKeysSameLoads(db, q, p, rows, full, EdgesOf(q.head.table));
    if rows != [] && Loads(db, q, rows, EdgesOf(q.head.table)).Ok? {
      var m := Loads(db, q, rows, EdgesOf(q.head.table)).value;
      forall i | 0 <= i < |rows| ensures Assemble(db, q, rows, m, i).edges == Assemble(db, p, full, m, i).edges {}
    }
  }

  // One-to-many -------------------------------------------------------------

  /** The lengths of the owners' lists, added up. */
  ghost function Total<T>(xs: seq<T>, keys: seq<Option<int>>, owners: seq<int>): (r: nat)
    requires |xs| == |keys|
  {
    if owners == [] then 0
    else Total(xs, keys, owners[..|owners| - 1]) + |PickIn(xs, keys, {owners[|owners| - 1]})|
  }

  lemma {:induction false} TotalSnoc<T>(xs: seq<T>, keys: seq<Option<int>>, x: T, k: int, owners: seq<int>)
    requires |xs| == |keys| && Distinct(owners)
    ensures Total(xs + [x], keys + [Some(k)], owners) == Total(xs, keys, owners) + if k in owners then 1 else 0
  {
    assert (xs + [x])[..|xs|] == xs && (keys + [Some(k)])[..|keys|] == keys;
    if owners != [] {
      var n := |owners| - 1;
      TotalSnoc(xs, keys, x, k, owners[..n]);
      assert owners == owners[..n] + [owners[n]];
    }
  }

  /** With distinct owners every neighbour is in exactly one owner's list. */
  lemma {:induction false} Partition<T>(xs: seq<T>, keys: seq<Option<int>>, owners: seq<int>)
    requires |xs| == |keys| && Distinct(owners)
    requires forall j :: 0 <= j < |keys| ==> keys[j].Some? && keys[j].value in owners
    ensures Total(xs, keys, owners) == |xs|
  {
    if xs == [] {
      TotalNone(xs, keys, owners);
    } else {
      var n := |xs| - 1;
      Partition(xs[..n], keys[..n], owners);
      TotalSnoc(xs[..n], keys[..n], xs[n], keys[n].value, owners);
      assert xs == xs[..n] + [xs[n]] && keys == keys[..n] + [Some(keys[n].value)];
    }
  }

  lemma {:induction false} TotalNone<T>(xs: seq<T>, keys: seq<Option<int>>, owners: seq<int>)
    requires xs == [] && keys == []
    ensures Total(xs, keys, owners) == 0
  {
    if owners != [] { TotalNone(xs, keys, owners[..|owners| - 1]); }
  }

  /** The list lengths of an O2M edge add up to the rows that its one query returned,
      so a limit on that query bounds the sum over all nodes and not each list. */
  lemma ManyPartition(db: Database, c: Query, e: Edge, rows: seq<Row>)
    requires ShapeOf(e) == O2M && c.head.table == Target(e)
    requires DistinctIds(rows) && Neighbors(db, c, rows, e).Ok?
    ensures var ts := Neighbors(db, c, rows, e).value;
      && (forall i :: 0 <= i < |rows| ==>
            LinkFor(db, c, rows, e, ts, i) == Many(PickIn(ts, FkKeys(e, RowsOf(ts)), {IdOf(rows[i])})))
      && Total(ts, FkKeys(e, RowsOf(ts)), Ids(rows)) == |ts|
      && (c.head.limit.Some? && c.head.limit.value > 0 ==> |ts| <= c.head.limit.value)
  {
    var ids := Ids(rows);
    var b := LinkMany(c, e, ids);
    var ts := Run(db, b).value;
    LinkManyFks(db, c, e, ids);
    RunRows(db, b);
    assert |ts| == |SelectRows(db, b.head)|;
    Partition(ts, FkKeys(e, RowsOf(ts)), ids);
    forall i | 0 <= i < |rows| ensures LastOwner(rows, i) {}
  }

  // A limit on an edge's query ----------------------------------------------

  function Take(k: nat, rows: seq<Row>): (r: seq<Row>) {
    if k < |rows| then rows[..k] else rows
  }

  ghost predicate AllKey(col: Column, rows: seq<Row>, k: int) {
    forall i :: 0 <= i < |rows| ==> col in rows[i] && rows[i][col] == k
  }

  function Of(col: Column, k: int, rows: seq<Row>): (r: seq<Row>) {
    Filter([KeyIn(col, [k])], rows)
  }

  lemma OfSnoc(col: Column, k: int, rows: seq<Row>, r: Row)
    ensures Of(col, k, rows + [r]) == if col in r && r[col] == k then Of(col, k, rows) + [r] else Of(col, k, rows)
  {
    FilterSnoc([KeyIn(col, [k])], rows, r);
    assert Keep([KeyIn(col, [k])], r) <==> Sat([KeyIn(col, [k])][0], r);
  }

  lemma {:induction false} OfAll(col: Column, k: int, rows: seq<Row>)
    ensures |Of(col, k, rows)| <= |rows|
    ensures AllKey(col, rows, k) <==> |Of(col, k, rows)| == |rows|
    ensures AllKey(col, rows, k) ==> Of(col, k, rows) == rows
  {
    if rows != [] {
      var n := |rows| - 1;
      OfAll(col, k, rows[..n]);
      OfSnoc(col, k, rows[..n], rows[n]);
      assert rows == rows[..n] + [rows[n]];
      if AllKey(col, rows, k) {
        assert AllKey(col, rows[..n], k);
      } else if AllKey(col, rows[..n], k) {
        assert !(col in rows[n] && rows[n][col] == k);
      }
    }
  }

  lemma {:induction false} OfConcat(col: Column, k: int, a: seq<Row>, b: seq<Row>)
    ensures Of(col, k, a + b) == Of(col, k, a) + Of(col, k, b)
  {
    hide *;
    if b == [] {
      assert a + b == a;
      OfNothing(col, k);
    } else {
      var n := |b| - 1;
      OfConcat(col, k, a, b[..n]);
      assert a + b == (a + b[..n]) + [b[n]] && b == b[..n] + [b[n]];
      OfSnoc(col, k, a + b[..n], b[n]);
      OfSnoc(col, k, b[..n], b[n]);
    }
  }

  lemma OfNothing(col: Column, k: int)
    ensures Of(col, k, []) == []
  {}

  /** Cutting the shared result to k rows and cutting every owner's rows to k agree exactly
      when nothing is cut off or all rows belong to one owner. */
  lemma TakeAgrees(col: Column, k: nat, rows: seq<Row>, owners: seq<int>)
    requires 0 < k
    requires forall i :: 0 <= i < |rows| ==> col in rows[i] && rows[i][col] in owners
    ensures (forall p :: p in owners ==> Of(col, p, Take(k, rows)) == Take(k, Of(col, p, rows)))
      <==> |rows| <= k || exists p :: p in owners && AllKey(col, rows, p)
    ensures (forall p :: p in owners ==> |Of(col, p, Take(k, rows))| == |Take(k, Of(col, p, rows))|)
      ==> |rows| <= k || exists p :: p in owners && AllKey(col, rows, p)
  {
    if |rows| > k {
      if p1 :| p1 in owners && AllKey(col, rows, p1) {
        forall q | q in owners ensures Of(col, q, Take(k, rows)) == Take(k, Of(col, q, rows)) { OneOwner(col, k, rows, p1, q); }
      } else {
        var p := TakeLoses(col, k, rows, owners);
      }
    } else {
      forall p | p in owners ensures Of(col, p, Take(k, rows)) == Take(k, Of(col, p, rows)) { OfAll(col, p, rows); }
    }
  }

  /** Where something is cut off and there are several owners, some owner loses rows. */
  lemma TakeLoses(col: Column, k: nat, rows: seq<Row>, owners: seq<int>) returns (q: int)
    requires 0 < k < |rows| && !exists p :: p in owners && AllKey(col, rows, p)
    requires forall i :: 0 <= i < |rows| ==> col in rows[i] && rows[i][col] in owners
    ensures q in owners && |Of(col, q, Take(k, rows))| != |Take(k, Of(col, q, rows))|
  {
    hide Of, Take;
    var a, b := rows[..k], rows[k..];
    assert rows == a + b && Take(k, rows) == a by { TakeIs(k, rows); }
    var p := rows[k][col];
    OfAll(col, p, a);
    if AllKey(col, a, p) {
      // some later row has another owner, whose share of the cut result is empty
      var i :| k <= i < |rows| && rows[i][col] != p;
      q := rows[i][col];
      OfNone(col, q, a, p);
      OfConcat(col, q, a, b);
      OfMember(col, q, b, i - k);
      TakeIs(k, Of(col, q, rows));
    } else {
      q := p;
      OfConcat(col, p, a, b);
      OfHead(col, p, b);
      TakeIs(k, Of(col, p, rows));
    }
  }

  lemma TakeIs(k: nat, xs: seq<Row>)
    ensures Take(k, xs) == if k < |xs| then xs[..k] else xs
  {
  }

  lemma OfHead(col: Column, k: int, rows: seq<Row>)
    requires rows != [] && col in rows[0] && rows[0][col] == k
    ensures Of(col, k, rows) != []
  {
    OfMember(col, k, rows, 0);
  }

  lemma {:induction false} OfMember(col: Column, k: int, rows: seq<Row>, i: nat)
    requires i < |rows| && col in rows[i] && rows[i][col] == k
    ensures Of(col, k, rows) != []
  {
    var n := |rows| - 1;
    OfSnoc(col, k, rows[..n], rows[n]);
    assert rows == rows[..n] + [rows[n]];
    if i < n { OfMember(col, k, rows[..n], i); }
  }

  lemma {:induction false} OfNone(col: Column, q: int, rows: seq<Row>, p: int)
    requires AllKey(col, rows, p) && p != q
    ensures Of(col, q, rows) == []
  {
    if rows != [] {
      var n := |rows| - 1;
      OfNone(col, q, rows[..n], p);
      OfSnoc(col, q, rows[..n], rows[n]);
      assert rows == rows[..n] + [rows[n]];
    }
  }

  lemma OneOwner(col: Column, k: nat, rows: seq<Row>, p: int, q: int)
    requires AllKey(col, rows, p)
    ensures Of(col, q, Take(k, rows)) == Take(k, Of(col, q, rows))
  {
    if p == q {
      OfAll(col, p, rows);
      OfAll(col, p, Take(k, rows));
    } else {
      OfNone(col, q, rows, p);
      OfNone(col, q, Take(k, rows), p);
    }
  }

  ghost function Unlimited(h: Head): (r: Head) {
    h.(limit := None, offset := None)
  }

  /** An O2M edge with a limit gives every node what a limited query of its own would give
      exactly when the batch stays within the limit or has only one owner. */
  lemma LimitAgrees(db: Database, h: Head, e: Edge, owners: seq<int>)
    requires ShapeOf(e) == O2M && h.limit.Some? && h.limit.value > 0 && h.offset in {None, Some(0)}
    ensures var batch := SelectRows(db, LinkManyHead(Unlimited(h), e, owners));
      (forall p :: p in owners ==>
         Of(FkOf(e), p, SelectRows(db, LinkManyHead(h, e, owners))) == SelectRows(db, LinkManyHead(h, e, [p])))
      <==> |batch| <= h.limit.value || exists p :: p in owners && AllKey(FkOf(e), batch, p)
    ensures var batch := SelectRows(db, LinkManyHead(Unlimited(h), e, owners));
      (forall p :: p in owners ==>
         |Of(FkOf(e), p, SelectRows(db, LinkManyHead(h, e, owners)))| == |SelectRows(db, LinkManyHead(h, e, [p]))|)
      ==> |batch| <= h.limit.value || exists p :: p in owners && AllKey(FkOf(e), batch, p)
  {
    hide SelectRows, Of, AllKey, Take;
    var col, k := FkOf(e), h.limit.value;
    var batch := SelectRows(db, LinkManyHead(Unlimited(h), e, owners));
    BatchKeys(db, h, e, owners);
    LimitCuts(db, h, e, owners);
    forall p | p in owners ensures SelectRows(db, LinkManyHead(h, e, [p])) == Take(k, Of(col, p, batch)) {
      LimitCuts(db, h, e, [p]);
      OwnBatch(db, h, e, owners, p);
    }
    TakeAgrees(col, k, batch, owners);
  }

  /** Every row of the batch belongs to one of its owners. */
  lemma BatchKeys(db: Database, h: Head, e: Edge, owners: seq<int>)
    ensures var batch := SelectRows(db, LinkManyHead(Unlimited(h), e, owners));
      forall i :: 0 <= i < |batch| ==> FkOf(e) in batch[i] && batch[i][FkOf(e)] in owners
  {
    hide SelectRows;
    var u := LinkManyHead(Unlimited(h), e, owners);
    var batch := SelectRows(db, u);
    SelectMembers(db, u);
    forall i | 0 <= i < |batch| ensures FkOf(e) in batch[i] && batch[i][FkOf(e)] in owners {
      assert batch[i] in batch;
      assert Sat(u.preds[|h.preds|], batch[i]);
    }
  }

  lemma LimitCuts(db: Database, h: Head, e: Edge, owners: seq<int>)
    requires h.limit.Some? && h.limit.value > 0 && h.offset in {None, Some(0)}
    ensures SelectRows(db, LinkManyHead(h, e, owners)) == Take(h.limit.value, SelectRows(db, LinkManyHead(Unlimited(h), e, owners)))
  {
    hide Filter, Sort;
  }

  /** The unlimited query of one owner is its share of the batch. */
  lemma OwnBatch(db: Database, h: Head, e: Edge, owners: seq<int>, p: int)
    requires p in owners
    ensures SelectRows(db, LinkManyHead(Unlimited(h), e, [p])) == Of(FkOf(e), p, SelectRows(db, LinkManyHead(Unlimited(h), e, owners)))
  {
    hide SelectRows, Filter;
    var col, u := FkOf(e), Unlimited(h);
    var narrow := KeyIn(col, [p]);
    forall r {:trigger Sat(narrow, r)} | Sat(narrow, r) ensures Keep([KeyIn(col, owners)], r) { KeyInSat(col, owners, p, r); }
    var w := u.(fields := LinkManyHead(u, e, owners).fields);
    SelectNarrow(db, w, [KeyIn(col, owners)], narrow);
    assert w.(preds := w.preds + [KeyIn(col, owners)]) == LinkManyHead(u, e, owners);
    assert w.(preds := w.preds + [narrow]) == LinkManyHead(u, e, [p]);
  }

  // Many-to-many ------------------------------------------------------------

  lemma FirstAtSnoc(pairs: seq<(int, Row)>, id: int)
    requires pairs != []
    ensures var n := |pairs| - 1;
      FirstAt(pairs[..n], id) < n ==> FirstAt(pairs, id) == FirstAt(pairs[..n], id)
  {}

  /** The hook keeps the groups in the order in which the rows first show them. */
  lemma {:induction false} FirstRowsOrder(pairs: seq<(int, Row)>)
    ensures ByFirst(pairs, Ids(FirstRows(pairs)))
    ensures forall k :: k in Ids(FirstRows(pairs)) ==> FirstAt(pairs, k) < |pairs|
  {
    if pairs != [] {
      var n := |pairs| - 1;
      var f, id := Ids(FirstRows(pairs[..n])), IdOf(pairs[n].1);
      FirstRowsOrder(pairs[..n]);
      forall k | k in f ensures FirstAt(pairs, k) == FirstAt(pairs[..n], k) < n { FirstAtSnoc(pairs, k); }
      if id !in f {
        assert Ids(FirstRows(pairs)) == f + [id];
        FirstRowsLaws(pairs[..n]);
        forall k | 0 <= k < n ensures IdOf(pairs[..n][k].1) != id { assert IdOf(pairs[..n][k].1) in f; }
        assert FirstAt(pairs, id) == n;
        ByFirstSnoc(pairs, f, id);
      } else {
        assert Ids(FirstRows(pairs)) == f;
        assert forall i :: 0 <= i < |f| ==> f[i] in f;
      }
    }
  }

  lemma ByFirstSnoc(pairs: seq<(int, Row)>, ids: seq<int>, id: int)
    requires pairs != [] && ByFirst(pairs[..|pairs| - 1], ids)
    requires forall k :: k in ids ==> FirstAt(pairs, k) == FirstAt(pairs[..|pairs| - 1], k) < FirstAt(pairs, id)
    ensures ByFirst(pairs, ids + [id])
  {
    hide FirstAt;
    var all := ids + [id];
    forall i, j | 0 <= i < j < |all| ensures FirstAt(pairs, all[i]) < FirstAt(pairs, all[j]) {
      assert all[i] == ids[i] && ids[i] in ids;
      if j < |ids| { assert ids[j] in ids; }
    }
  }

  ghost function TreeIds(ts: seq<Tree>): (r: seq<int>)
    ensures |r| == |ts| && forall i :: 0 <= i < |ts| ==> r[i] == IdOf(ts[i].row)
  {
    seq(|ts|, i requires 0 <= i < |ts| => IdOf(ts[i].row))
  }

  function Somes(ids: seq<int>): (r: seq<Option<int>>)
    ensures |r| == |ids| && forall i :: 0 <= i < |ids| ==> r[i] == Some(ids[i])
  {
    seq(|ids|, i requires 0 <= i < |ids| => Some(ids[i]))
  }

  /** The wanted ids among `ids`, in order. */
  function Wanting(ids: seq<int>, want: set<int>): (r: seq<int>) {
    if ids == [] then []
    else
      var n := |ids| - 1;
      var r := Wanting(ids[..n], want);
      if ids[n] in want then r + [ids[n]] else r
  }

  lemma {:induction false} WantingMembers(ids: seq<int>, want: set<int>)
    ensures forall k :: k in Wanting(ids, want) <==> k in ids && k in want
  {
    if ids != [] {
      var n := |ids| - 1;
      WantingMembers(ids[..n], want);
      assert ids == ids[..n] + [ids[n]];
    }
  }

  lemma {:induction false} WantingOrder(pairs: seq<(int, Row)>, ids: seq<int>, want: set<int>)
    requires ByFirst(pairs, ids)
    ensures ByFirst(pairs, Wanting(ids, want))
  {
    hide FirstAt;
    if ids != [] {
      var n := |ids| - 1;
      var r := Wanting(ids[..n], want);
      WantingOrder(pairs, ids[..n], want);
      WantingMembers(ids[..n], want);
      forall i | 0 <= i < |r| ensures FirstAt(pairs, r[i]) < FirstAt(pairs, ids[n]) {
        assert r[i] in r;
        var k :| 0 <= k < n && ids[..n][k] == r[i];
        assert ids[k] == r[i];
      }
    }
  }

  /** Picking trees by id picks the wanted ids. */
  lemma {:induction false} PickWanting(ts: seq<Tree>, keys: seq<Option<int>>, want: set<int>)
    requires keys == Somes(TreeIds(ts))
    ensures TreeIds(PickIn(ts, keys, want)) == Wanting(TreeIds(ts), want)
  {
    if ts != [] {
      var n := |ts| - 1;
      assert TreeIds(ts[..n]) == TreeIds(ts)[..n];
      assert keys[..n] == Somes(TreeIds(ts[..n]));
      PickWanting(ts[..n], keys[..n], want);
      var us := PickIn(ts[..n], keys[..n], want);
      assert TreeIds(us + [ts[n]]) == TreeIds(us) + [IdOf(ts[n].row)];
    }
  }

  /** What one account receives from the hook's groups, in terms of the join rows. */
  lemma HookShares(pairs: seq<(int, Row)>, a: int)
    ensures var gs := Wanting(Ids(FirstRows(pairs)), Wanted(pairs, a));
      && ByFirst(pairs, gs)
      && forall g :: g in gs <==> exists p :: p in pairs && p.0 == a && IdOf(p.1) == g
  {
    var ids := Ids(FirstRows(pairs));
    FirstRowsOrder(pairs);
    FirstRowsLaws(pairs);
    WantingOrder(pairs, ids, Wanted(pairs, a));
    WantingMembers(ids, Wanted(pairs, a));
    forall p | p in pairs ensures IdOf(p.1) in ids {
      var k :| 0 <= k < |pairs| && pairs[k] == p;
    }
  }

  /** In the batched meaning: the last account with an id ends with exactly its joined groups, each once,
      in the order in which the rows of the whole batch first show them. */
  lemma GroupsOnce(db: Database, c: Query, rows: seq<Row>, i: int)
    requires c.head.table == Groups && c.with == map[] && BadField(c.head).None?
    requires 0 <= i < |rows| && LastOwner(rows, i)
    ensures Neighbors(db, c, rows, ToGroups).Ok?
    ensures var pairs := JoinSelect(db, c.head, Ids(rows));
      var l := LinkFor(db, c, rows, ToGroups, Neighbors(db, c, rows, ToGroups).value, i);
      && l.Many? && ByFirst(pairs, TreeIds(l.trees))
      && forall g :: g in TreeIds(l.trees) <==> exists p :: p in pairs && p.0 == IdOf(rows[i]) && IdOf(p.1) == g
  {
    hide FirstAt, FirstRows, Wanted, JoinSelect;
    var pairs := JoinSelect(db, c.head, Ids(rows));
    RunJoined(db, c, Ids(rows));
    var ts := LeafTrees(c.head, FirstRows(pairs));
    assert Neighbors(db, c, rows, ToGroups) == Ok(ts);
    LeafIds(c.head, FirstRows(pairs));
    assert IdKeys(RowsOf(ts)) == Somes(TreeIds(ts));
    PickWanting(ts, IdKeys(RowsOf(ts)), Wanted(pairs, IdOf(rows[i])));
    HookShares(pairs, IdOf(rows[i]));
  }

  lemma LeafIds(h: Head, raws: seq<Row>)
    requires HasId(h.table)
    ensures TreeIds(LeafTrees(h, raws)) == Ids(raws)
  {
    forall j | 0 <= j < |raws| ensures TreeIds(LeafTrees(h, raws))[j] == Ids(raws)[j] { ProjectId(h, {}, raws[j]); }
  }

  // Builders that run more than once ----------------------------------------

  /** Queries with the same rows, projection and neighbours have the same result. */
  lemma SameRun(db: Database, p: Query, q: Query)
    requires p.head.table == q.head.table && p.head.attrs == q.head.attrs && p.head.fields == q.head.fields && p.with.Keys == q.with.Keys
    requires SelectRows(db, p.head) == SelectRows(db, q.head)
    requires var rows := NodeRows(db, q.head, q.with.Keys);
      rows != [] ==> forall e :: e in q.with ==>
        && Neighbors(db, p.with[e], rows, e) == Neighbors(db, q.with[e], rows, e)
        && forall ts, i :: 0 <= i < |rows| ==> LinkFor(db, p.with[e], rows, e, ts, i) == LinkFor(db, q.with[e], rows, e, ts, i)
    ensures Run(db, p) == Run(db, q)
  {
    hide LinkFor, Neighbors;
    var rows := NodeRows(db, q.head, q.with.Keys);
    assert NodeRows(db, p.head, p.with.Keys) == rows;
    if BadField(q.head).None? && rows != [] {
      var es := EdgesOf(q.head.table);
      SameLoads(db, p, q, rows, es);
      if Loads(db, q, rows, es).Ok? {
        var m := Loads(db, q, rows, es).value;
        forall i | 0 <= i < |rows| ensures Assemble(db, p, rows, m, i) == Assemble(db, q, rows, m, i) {
          SameAssembled(db, p, q, rows, m, i);
        }
        hide Loads, Assemble, NodeRows;
        assert Run(db, p).value == Run(db, q).value;
      }
    }
  }

  lemma SameAssembled(db: Database, p: Query, q: Query, rows: seq<Row>, m: map<Edge, seq<Tree>>, i: int)
    requires 0 <= i < |rows| && p.with.Keys == q.with.Keys && m.Keys <= q.with.Keys
    requires forall e, ts :: e in q.with ==> LinkFor(db, p.with[e], rows, e, ts, i) == LinkFor(db, q.with[e], rows, e, ts, i)
    ensures Assemble(db, p, rows, m, i) == Assemble(db, q, rows, m, i)
  {
    hide LinkFor;
    assert Assemble(db, p, rows, m, i).edges == Assemble(db, q, rows, m, i).edges;
  }

  lemma {:induction false} SameLoads(db: Database, p: Query, q: Query, rows: seq<Row>, es: seq<Edge>)
    requires p.with.Keys == q.with.Keys
    requires forall e :: e in q.with ==> Neighbors(db, p.with[e], rows, e) == Neighbors(db, q.with[e], rows, e)
    ensures Loads(db, p, rows, es) == Loads(db, q, rows, es)
  {
    hide Neighbors;
    if es != [] { SameLoads(db, p, q, rows, es[..|es| - 1]); }
  }

  /** The settings matter only through the rows and the projection. */
  lemma SameRunHead(db: Database, q: Query, h: Head)
    requires h.table == q.head.table && h.attrs == q.head.attrs && h.fields == q.head.fields && SelectRows(db, h) == SelectRows(db, q.head)
    ensures Run(db, q.(head := h)) == Run(db, q)
  {
    SameRun(db, q.(head := h), q);
  }

  /** Adding an IN list a second time selects the same rows. */
  lemma SelectTwice(db: Database, h: Head, p: Pred)
    ensures SelectRows(db, h.(preds := h.preds + [p] + [p])) == SelectRows(db, h.(preds := h.preds + [p]))
  {
    var source := Drawn(db, h);
    forall r | r in source ensures Keep(h.preds + [p] + [p], r) <==> Keep(h.preds + [p], r) {
      KeepBoth(h.preds + [p], [p], r);
      KeepBoth(h.preds, [p], r);
    }
    FilterAgree(h.preds + [p] + [p], h.preds + [p], source);
  }

  ghost predicate NoJoins(q: Query)
    decreases q
  {
    forall e :: e in q.with ==> ShapeOf(e) != M2M && NoJoins(q.with[e])
  }

  /** Running the same builder again over unchanged data gives the same result, although the first
      run has left its IN lists and key columns in the edge builders.  (The M2M loader would join twice.) */
  lemma {:induction false} Rerun(db: Database, q: Query)
    requires NoJoins(q)
    ensures Run(db, After(db, q)) == Run(db, q)
    decreases Height(q), 1
  {
    var rows := NodeRows(db, q.head, q.with.Keys);
    if rows != [] {
      var p := After(db, q);
      forall e | e in q.with
        ensures Neighbors(db, p.with[e], rows, e) == Neighbors(db, q.with[e], rows, e)
        ensures forall ts, i :: 0 <= i < |rows| ==> LinkFor(db, p.with[e], rows, e, ts, i) == LinkFor(db, q.with[e], rows, e, ts, i)
      {
        HeightChild(q, e);
        RerunEdge(db, q.with[e], AfterEdge(db, q.with[e], rows, e), rows, e);
      }
      SameRun(db, p, q);
    }
  }

  lemma RerunEdge(db: Database, c: Query, after: Query, rows: seq<Row>, e: Edge)
    requires NoJoins(c) && ShapeOf(e) != M2M && after == AfterEdge(db, c, rows, e)
    ensures Neighbors(db, after, rows, e) == Neighbors(db, c, rows, e)
    decreases Height(c), 2
  {
    if ShapeOf(e) == M2O {
      var ids := FirstSeen(FkKeys(e, rows));
      if ids != [] {
        var b := LinkOne(c, ids);
        HeightHead(c, b.head);
        Rerun(db, b);
        SelectTwice(db, c.head, KeyIn(Id, ids));
        SameRunHead(db, After(db, b), LinkOneHead(b.head, ids));
      }
    } else {
      var ids := Ids(rows);
      var b := LinkMany(c, e, ids);
      HeightHead(c, b.head);
      Rerun(db, b);
      var h := c.head.(fields := b.head.fields);
      SelectTwice(db, h, KeyIn(FkOf(e), ids));
      assert h.(preds := h.preds + [KeyIn(FkOf(e), ids)]) == b.head;
      assert h.(preds := h.preds + [KeyIn(FkOf(e), ids)] + [KeyIn(FkOf(e), ids)]) == LinkManyHead(b.head, e, ids);
      SameRunHead(db, After(db, b), LinkManyHead(b.head, e, ids));
    }
  }

  /** Running a builder for other nodes is not a fresh load: an O2M edge then returns what a fresh
      builder would exactly when every row of the fresh load already belongs to the earlier nodes. */
  lemma ReuseIff(db: Database, h: Head, e: Edge, earlier: seq<int>, now: seq<int>)
    requires ShapeOf(e) == O2M && Open(h)
    ensures SelectRows(db, LinkManyHead(LinkManyHead(h, e, earlier), e, now)) == SelectRows(db, LinkManyHead(h, e, now))
      <==> forall r :: r in SelectRows(db, LinkManyHead(h, e, now)) ==> FkOf(e) in r && r[FkOf(e)] in earlier
    ensures |SelectRows(db, LinkManyHead(LinkManyHead(h, e, earlier), e, now))| == |SelectRows(db, LinkManyHead(h, e, now))|
      ==> SelectRows(db, LinkManyHead(LinkManyHead(h, e, earlier), e, now)) == SelectRows(db, LinkManyHead(h, e, now))
  {
    var anew, again := LinkManyHead(h, e, now), LinkManyHead(LinkManyHead(h, e, earlier), e, now);
    RestrictTwice(db, anew, again, h.preds, KeyIn(FkOf(e), earlier), KeyIn(FkOf(e), now));
  }

  /** The same for a to-one edge and the ids its loads ask for. */
  lemma ReuseOneIff(db: Database, h: Head, earlier: seq<int>, now: seq<int>)
    requires Open(h)
    ensures SelectRows(db, LinkOneHead(LinkOneHead(h, earlier), now)) == SelectRows(db, LinkOneHead(h, now))
      <==> forall r :: r in SelectRows(db, LinkOneHead(h, now)) ==> Id in r && r[Id] in earlier
    ensures |SelectRows(db, LinkOneHead(LinkOneHead(h, earlier), now))| == |SelectRows(db, LinkOneHead(h, now))|
      ==> SelectRows(db, LinkOneHead(LinkOneHead(h, earlier), now)) == SelectRows(db, LinkOneHead(h, now))
  {
    RestrictTwice(db, LinkOneHead(h, now), LinkOneHead(LinkOneHead(h, earlier), now), h.preds, KeyIn(Id, earlier), KeyIn(Id, now));
  }

  lemma RestrictTwice(db: Database, anew: Head, again: Head, ps: seq<Pred>, a: Pred, b: Pred)
    requires Open(anew) && again == anew.(preds := again.preds, fields := again.fields)
    requires anew.preds == ps + [b] && again.preds == ps + [a] + [b]
    ensures SelectRows(db, again) == SelectRows(db, anew) <==> forall r :: r in SelectRows(db, anew) ==> Sat(a, r)
    ensures |SelectRows(db, again)| == |SelectRows(db, anew)| ==> SelectRows(db, again) == SelectRows(db, anew)
  {
    var source := Drawn(db, anew);
    OpenWindow(anew, Sort(anew.order, Filter(anew.preds, source)));
    OpenWindow(anew, Sort(anew.order, Filter(again.preds, source)));
    forall r | r in source ensures Keep(again.preds, r) <==> Keep(anew.preds + [a], r) {
      KeepBoth(ps, [a], r);
      KeepBoth(ps + [a], [b], r);
      KeepBoth(ps, [b], r);
      KeepBoth(anew.preds, [a], r);
    }
    FilterAgree(again.preds, anew.preds + [a], source);
    FilterFilter(anew.preds, [a], source);
    FilterSort([a], anew.order, Filter(anew.preds, source));
    assert SelectRows(db, again) == Filter([a], SelectRows(db, anew));
    FilterShortens(a, SelectRows(db, anew));
  }

  lemma {:induction false} FilterShortens(a: Pred, rows: seq<Row>)
    ensures |Filter([a], rows)| <= |rows|
    ensures Filter([a], rows) == rows <==> forall r :: r in rows ==> Sat(a, r)
    ensures |Filter([a], rows)| == |rows| ==> Filter([a], rows) == rows
  {
    if rows != [] {
      var n := |rows| - 1;
      FilterShortens(a, rows[..n]);
      assert rows == rows[..n] + [rows[n]];
      assert Keep([a], rows[n]) <==> Sat([a][0], rows[n]);
    }
  }

  // Clones ------------------------------------------------------------------

  /** No lock modifier at any level. */
  ghost predicate Unlocked(q: Query)
    decreases q
  {
    q.head.locks == [] && forall e :: e in q.with ==> Unlocked(q.with[e])
  }

  /** A clone is the same query exactly when there is no lock to lose. */
  lemma {:induction false} ClonedSame(q: Query)
    ensures Cloned(q) == q <==> Unlocked(q)
    decreases q
  {
    forall e | e in q.with ensures Cloned(q.with[e]) == q.with[e] <==> Unlocked(q.with[e]) { ClonedSame(q.with[e]); }
    if Cloned(q) == q {
      forall e | e in q.with ensures Cloned(q.with[e]) == q.with[e] { assert Cloned(q).with[e] == Cloned(q.with[e]); }
    }
    if Unlocked(q) { assert Cloned(q).with == q.with; }
  }

  lemma ClonedHead(q: Query, h: Head)
    ensures Cloned(q.(head := h)) == Cloned(q).(head := h.(locks := []))
  {}

  /** A clone denotes the same rows and edges; only locking is lost. */
  lemma {:induction false} CloneRuns(db: Database, q: Query)
    ensures Run(db, Cloned(q)) == Run(db, q)
    decreases Height(q), 1, 0
  {
    var rows := NodeRows(db, q.head, q.with.Keys);
    assert SelectRows(db, Cloned(q).head) == SelectRows(db, q.head);
    forall e | e in q.with
      ensures Neighbors(db, Cloned(q.with[e]), rows, e) == Neighbors(db, q.with[e], rows, e)
      ensures forall ts, i :: 0 <= i < |rows| ==> LinkFor(db, Cloned(q).with[e], rows, e, ts, i) == LinkFor(db, q.with[e], rows, e, ts, i)
    {
      HeightChild(q, e);
      CloneNeighbors(db, q.with[e], rows, e);
      assert JoinSelect(db, Cloned(q.with[e]).head, Ids(rows)) == JoinSelect(db, q.with[e].head, Ids(rows));
    }
    SameRun(db, Cloned(q), q);
  }

  lemma CloneNeighbors(db: Database, c: Query, rows: seq<Row>, e: Edge)
    ensures Neighbors(db, Cloned(c), rows, e) == Neighbors(db, c, rows, e)
    decreases Height(c), 2
  {
    match ShapeOf(e)
    case M2O =>
      var ids := FirstSeen(FkKeys(e, rows));
      CloneLinked(db, c, LinkOneHead(c.head, ids));
    case O2M =>
      CloneLinked(db, c, LinkManyHead(c.head, e, Ids(rows)));
    case M2M =>
      assert JoinSelect(db, Cloned(c).head, Ids(rows)) == JoinSelect(db, c.head, Ids(rows));
      CloneLinked(db, c, JoinedHead(db, c.head, Ids(rows)));
  }

  lemma CloneLinked(db: Database, c: Query, h: Head)
    ensures Run(db, Cloned(c).(head := h.(locks := []))) == Run(db, c.(head := h))
    decreases Height(c), 1, 1
  {
    HeightHead(c, h);
    ClonedHead(c, h);
    CloneRuns(db, c.(head := h));
  }

  // Terminal operations -----------------------------------------------------

  lemma FirstBadSnoc(t: Table, attrs: set<string>, fields: seq<Column>)
    requires HasId(t)
    ensures FirstBad(t, attrs, fields + [Id]) == FirstBad(t, attrs, fields)
  {
    if fields == [] {
      assert FirstBad(t, attrs, [Id][1..]) == None;
    } else {
      assert (fields + [Id])[1..] == fields[1..] + [Id];
      if ValidColumn(t, attrs, fields[0]) { FirstBadSnoc(t, attrs, fields[1..]); }
    }
  }

  lemma ScanExact(db: Database, q: Query)
    requires HasId(q.head.table)
    ensures ScanIds(db, IdSelected(q).head) == Scanned(db, q)
  {
    hide Sort, Filter, FirstBad;
    FirstBadSnoc(q.head.table, q.head.attrs, q.head.fields);
    var h := IdSelected(q).head;
    if q.head.fields == [] { assert ScanRows(db, h) == Seen(q.head, SelectRows(db, q.head)); }
  }

  /** An id operation returns the ids of the entities that `All` would return exactly when a zero limit or
      an offset without a limit does not set the two paths apart. */
  lemma ScanIsRun(db: Database, q: Query)
    requires HasId(q.head.table) && q.head.fields == [] && Run(db, q).Ok?
    ensures var ts := Run(db, q).value;
      Scanned(db, q) == Ok(TreeIds(ts)) <==>
        (q.head.limit == Some(0) ==> ts == []) && (q.head.limit.None? && q.head.offset.Some? ==> |ts| <= MAX_INT32)
  {
    hide SelectRows, Loads;
    var ts, rows := Run(db, q).value, SelectRows(db, q.head);
    RunRows(db, q);
    assert |ts| == |rows|;
    forall j | 0 <= j < |rows| ensures TreeIds(ts)[j] == Ids(rows)[j] {
      assert RowsOf(ts)[j] == ts[j].row;
      ProjectId(q.head, q.with.Keys, rows[j]);
    }
    assert TreeIds(ts) == Ids(rows);
  }

  /** A second id operation on the same builder finds two columns selected and fails. */
  lemma ScanTwice(db: Database, q: Query, k: Option<nat>)
    requires HasId(q.head.table) && BadField(q.head).None?
    ensures ScanIds(db, IdSelected(Limited(IdSelected(q), k)).head) == Err(ColumnMismatch)
  {
    FirstBadSnoc(q.head.table, q.head.attrs, q.head.fields);
    ScanExact(db, Limited(IdSelected(q), k));
  }

  /** The loaders never fail on a key: only a field that is not a column of its table is refused. */
  lemma {:induction false} RunErrors(db: Database, q: Query)
    ensures Run(db, q).Err? ==> Run(db, q).error.InvalidField?
    decreases Height(q), 1, 0
  {
    if BadField(q.head).None? {
      LoadErrors(db, q, NodeRows(db, q.head, q.with.Keys), EdgesOf(q.head.table));
    }
  }

  lemma {:induction false} LoadErrors(db: Database, q: Query, rows: seq<Row>, es: seq<Edge>)
    ensures Loads(db, q, rows, es).Err? ==> Loads(db, q, rows, es).error.InvalidField?
    decreases Height(q), 0, |es|
  {
    if es != [] {
      var n := |es| - 1;
      LoadErrors(db, q, rows, es[..n]);
      if es[n] in q.with {
        var c := q.with[es[n]];
        HeightChild(q, es[n]);
        match ShapeOf(es[n])
        case M2O =>
          HeightHead(c, LinkOneHead(c.head, FirstSeen(FkKeys(es[n], rows))));
          RunErrors(db, LinkOne(c, FirstSeen(FkKeys(es[n], rows))));
        case O2M =>
          HeightHead(c, LinkManyHead(c.head, es[n], Ids(rows)));
          RunErrors(db, LinkMany(c, es[n], Ids(rows)));
        case M2M =>
          HeightHead(c, JoinedHead(db, c.head, Ids(rows)));
          RunErrors(db, c.(head := JoinedHead(db, c.head, Ids(rows))));
      }
    }
  }
}
