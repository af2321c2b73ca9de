/**
 Limits, duplicates and reused builders, in terms of what each node receives.
 */
module LimitLaws {
  import opened Collections
  import opened Store
  import opened Plan
  import opened PlanLaws
  import opened EagerLaws

  // A limit on the root -------------------------------------------------------

  /** A limit on the root gives a prefix of the unlimited result, with the same edges on each node, exactly
      when no node that the cut makes the last with its id has to-many neighbours. */
  lemma PrefixIff(db: Database, q: Query, k: nat)
    requires Sound(db, q) && 0 < k
    ensures Run(db, Limited(q, None)).Ok? && Run(db, Limited(q, Some(k))).Ok?
    ensures var all, raws := Run(db, Limited(q, None)).value, SelectRows(db, Limited(q, None).head);
      var cut := if k < |raws| then raws[..k] else raws;
      |all| == |raws| &&
      (Run(db, Limited(q, Some(k))).value == (if k < |all| then all[..k] else all) <==>
        forall i :: 0 <= i < |cut| && LastOwner(cut, i) && !LastOwner(raws, i) ==> NoneToMany(NestTree(db, q, raws[i])))
  {
    hide *;
    var p, u := Limited(q, Some(k)), Limited(q, None);
    LimitedAgrees(db, q, Some(k));
    LimitedAgrees(db, q, None);
    CutRows(db, q, k);
    var raws, cut := SelectRows(db, u.head), SelectRows(db, p.head);
    var all, some := Run(db, u).value, Run(db, p).value;
    forall i | 0 <= i < |cut|
      ensures some[i] == all[i] <==> (LastOwner(cut, i) && !LastOwner(raws, i) ==> NoneToMany(NestTree(db, q, raws[i])))
    {
      assert some[i] == Shown(db, p, i) && all[i] == Shown(db, u, i);
      ShownCut(db, q, k, i);
    }
    var want := if k < |all| then all[..k] else all;
    assert |want| == |cut| && forall i :: 0 <= i < |cut| ==> want[i] == all[i];
    assert some == want <==> forall i :: 0 <= i < |cut| ==> some[i] == want[i];
  }

  /** A node shows the same with and without the cut, unless the cut uncovers it. */
  lemma ShownCut(db: Database, q: Query, k: nat, i: int)
    requires 0 < k
    requires var raws := SelectRows(db, Limited(q, None).head);
      0 <= i < |raws| && i < |SelectRows(db, Limited(q, Some(k)).head)|
    ensures var raws, cut := SelectRows(db, Limited(q, None).head), SelectRows(db, Limited(q, Some(k)).head);
      (Shown(db, Limited(q, Some(k)), i) == Shown(db, Limited(q, None), i)) <==>
        (LastOwner(cut, i) && !LastOwner(raws, i) ==> NoneToMany(NestTree(db, q, raws[i])))
  {
    CutRows(db, q, k);
    hide SelectRows, Hollow, NestTree, NoneToMany;
    var raws, cut := SelectRows(db, Limited(q, None).head), SelectRows(db, Limited(q, Some(k)).head);
    NestTreeHead(db, q, Limited(q, Some(k)).head, raws[i]);
    NestTreeHead(db, q, Limited(q, None).head, raws[i]);
    HollowSame(NestTree(db, q, raws[i]));
    assert LastOwner(raws, i) ==> LastOwner(cut, i);
  }

  lemma LimitedAgrees(db: Database, q: Query, limit: Option<nat>)
    requires Sound(db, q)
    ensures var p := Limited(q, limit);
      && Run(db, p).Ok? && |Run(db, p).value| == |SelectRows(db, p.head)|
      && forall i :: 0 <= i < |SelectRows(db, p.head)| ==> Run(db, p).value[i] == Shown(db, p, i)
  {
    hide Run, SelectRows, Shown, Height;
    SoundHead(db, q, Limited(q, limit).head);
    BatchedIsNested(db, Limited(q, limit));
  }

  lemma CutRows(db: Database, q: Query, k: nat)
    requires 0 < k
    ensures var raws := SelectRows(db, Limited(q, None).head);
      SelectRows(db, Limited(q, Some(k)).head) == if k < |raws| then raws[..k] else raws
  {
    hide Sort, Filter;
  }

  lemma LimitIsPrefix(db: Database, q: Query, k: nat)
    requires Sound(db, q) && 0 < k
    requires HasId(q.head.table) ==> DistinctIds(SelectRows(db, Limited(q, None).head))
    ensures Run(db, Limited(q, None)).Ok? && Run(db, Limited(q, Some(k))).Ok?
    ensures var all := Run(db, Limited(q, None)).value;
      Run(db, Limited(q, Some(k))).value == if k < |all| then all[..k] else all
  {
    PrefixIff(db, q, k);
    var raws := SelectRows(db, Limited(q, None).head);
    forall i | 0 <= i < |raws| && !LastOwner(raws, i) ensures NoneToMany(NestTree(db, q, raws[i])) {
      assert !HasId(q.head.table);
      HollowMember(db, q, raws[i]);
      HollowSame(NestTree(db, q, raws[i]));
    }
  }

  // A limit on an edge --------------------------------------------------------

  /** Every node of a to-many edge with a limit receives what a limited query of its own would return,
      exactly when the whole batch fits the limit or belongs to one node. */
  lemma LimitedLists(db: Database, c: Query, e: Edge, rows: seq<Row>)
    requires Sound(db, c) && ShapeOf(e) == O2M && c.head.table == Target(e) && c.head.from.None?
    requires c.head.limit.Some? && c.head.limit.value > 0 && c.head.offset in {None, Some(0)} && DistinctIds(rows)
    ensures Neighbors(db, c, rows, e).Ok?
    ensures var batch := SelectRows(db, LinkManyHead(Unlimited(c.head), e, Ids(rows)));
      (forall i :: 0 <= i < |rows| ==>
         LinkFor(db, c, rows, e, Neighbors(db, c, rows, e).value, i) == Many(Nested(db, LinkMany(c, e, [IdOf(rows[i])]))))
      <==> |batch| <= c.head.limit.value || exists p :: p in Ids(rows) && AllKey(FkOf(e), batch, p)
  {
    hide Sound, Nested, SelectRows, Project, AllKey, Of, Height, Neighbors, LinkFor;
    var ids := Ids(rows);
    LinkedRun(db, c, e, ids);
    ManyNeighbors(db, c, e, rows);
    LimitAgrees(db, c.head, e, ids);
    var cut := SelectRows(db, LinkManyHead(c.head, e, ids));
    forall i | 0 <= i < |rows|
      ensures ids[i] == IdOf(rows[i])
      ensures var x, y := Of(FkOf(e), ids[i], cut), SelectRows(db, LinkManyHead(c.head, e, [ids[i]]));
        var same := LinkFor(db, c, rows, e, Neighbors(db, c, rows, e).value, i) == Many(Nested(db, LinkMany(c, e, [ids[i]])));
        (x == y ==> same) && (same ==> |x| == |y|)
    {
      ManyListIs(db, c, e, rows, i);
    }
  }

  lemma LinkedRun(db: Database, c: Query, e: Edge, ids: seq<int>)
    requires Sound(db, c) && ShapeOf(e) == O2M && c.head.table == Target(e) && c.head.from.None?
    ensures Run(db, LinkMany(c, e, ids)) == Ok(Nested(db, LinkMany(c, e, ids)))
  {
    hide Nested, SelectRows, Run, Height;
    var h := LinkManyHead(c.head, e, ids);
    LinkFields(c.head, e, ids);
    SoundHead(db, c, h);
    if HasId(h.table) { SelectDistinct(db, h); }
    BatchedIsNestedDistinct(db, LinkMany(c, e, ids));
  }

  lemma ManyNeighbors(db: Database, c: Query, e: Edge, rows: seq<Row>)
    requires ShapeOf(e) == O2M
    ensures Neighbors(db, c, rows, e) == Run(db, LinkMany(c, e, Ids(rows)))
    ensures forall ts, i :: 0 <= i < |rows| ==>
      LinkFor(db, c, rows, e, ts, i) == Many(if LastOwner(rows, i) then PickIn(ts, FkKeys(e, RowsOf(ts)), {IdOf(rows[i])}) else [])
  {}

  lemma ManyListIs(db: Database, c: Query, e: Edge, rows: seq<Row>, i: int)
    requires ShapeOf(e) == O2M && c.head.table == Target(e) && DistinctIds(rows) && 0 <= i < |rows|
    requires Run(db, LinkMany(c, e, Ids(rows))) == Ok(Nested(db, LinkMany(c, e, Ids(rows))))
    ensures var x, y := Of(FkOf(e), IdOf(rows[i]), SelectRows(db, LinkManyHead(c.head, e, Ids(rows)))), SelectRows(db, LinkManyHead(c.head, e, [IdOf(rows[i])]));
      var same := LinkFor(db, c, rows, e, Neighbors(db, c, rows, e).value, i) == Many(Nested(db, LinkMany(c, e, [IdOf(rows[i])])));
      (x == y ==> same) && (same ==> |x| == |y|)
  {
    var id := IdOf(rows[i]);
    var b, s := LinkMany(c, e, Ids(rows)), LinkMany(c, e, [id]);
    ManyNeighbors(db, c, e, rows);
    ManyShare(db, c, e, Ids(rows), id);
    assert LastOwner(rows, i);
    hide Project, SelectRows, Run, Neighbors, LinkFor, Filter;
    var y := SelectRows(db, s.head);
    SameTrees(db, b, s, y);
    assert NestAll(db, s, y) == Nested(db, s);
  }

  /** A to-one edge by a query of its own. */
  ghost function OwnOne(db: Database, c: Query, key: Option<int>): (l: Link) {
    match key
    case None => Nil
    case Some(k) => if Nested(db, LinkOne(c, [k])) == [] then Nil else One(Nested(db, LinkOne(c, [k]))[0])
  }

  /** Every node of a to-one edge with a limit receives what a limited query of its own would return, exactly
      when all referenced rows fit the limit together. */
  lemma LimitedOnes(db: Database, c: Query, e: Edge, rows: seq<Row>)
    requires Sound(db, c) && ShapeOf(e) == M2O && HasId(c.head.table) && c.head.from.None?
    requires c.head.limit.Some? && c.head.limit.value > 0 && c.head.offset in {None, Some(0)}
    ensures Neighbors(db, c, rows, e).Ok?
    ensures var batch := SelectRows(db, LinkOneHead(Unlimited(c.head), FirstSeen(FkKeys(e, rows))));
      (forall i :: 0 <= i < |rows| ==> LinkFor(db, c, rows, e, Neighbors(db, c, rows, e).value, i) == OwnOne(db, c, FkValue(e, rows[i])))
      <==> |batch| <= c.head.limit.value
  {
    hide Sound, Nested, SelectRows, Project, AllKey, Of, Take, Height, Neighbors, LinkFor, OwnOne, LinkOneHead;
    var keys := FkKeys(e, rows);
    var ids, k := FirstSeen(keys), c.head.limit.value;
    var batch := SelectRows(db, LinkOneHead(Unlimited(c.head), ids));
    OneNeighbors(db, c, e, rows);
    OneBatch(db, c, ids);
    TakeAgrees(Id, k, batch, ids);
    OneKeyFew(batch);
    var ts := Neighbors(db, c, rows, e).value;
    forall i | 0 <= i < |rows| && keys[i].None? ensures LinkFor(db, c, rows, e, ts, i) == OwnOne(db, c, keys[i]) {
      NoLink(db, c, e, rows, ts, i);
    }
    forall i | 0 <= i < |rows| && keys[i].Some?
      ensures var p := keys[i].value;
        var x, y := Of(Id, p, Take(k, batch)), Take(k, Of(Id, p, batch));
        var same := LinkFor(db, c, rows, e, ts, i) == OwnOne(db, c, keys[i]);
        p in ids && (x == y ==> same) && (same ==> |x| == |y|)
    {
      assert keys[i] in keys;
      OneLimited(db, c, ids, keys[i].value);
      OneLinkIs(db, c, e, rows, ids, i, keys[i].value);
    }
    forall p | p in ids ensures exists i :: 0 <= i < |rows| && keys[i] == Some(p) {
      assert Some(p) in keys;
    }
  }

  lemma NoLink(db: Database, c: Query, e: Edge, rows: seq<Row>, ts: seq<Tree>, i: int)
    requires ShapeOf(e) == M2O && 0 <= i < |rows| && FkValue(e, rows[i]).None?
    ensures LinkFor(db, c, rows, e, ts, i) == Nil && OwnOne(db, c, FkValue(e, rows[i])) == Nil
  {}

  /** Links from one share of rows are equal if the rows are, and only if there are equally many. */
  lemma OneLinkIs(db: Database, c: Query, e: Edge, rows: seq<Row>, ids: seq<int>, i: int, p: int)
    requires Sound(db, c) && ShapeOf(e) == M2O && HasId(c.head.table) && c.head.from.None?
    requires 0 <= i < |rows| && FkValue(e, rows[i]) == Some(p)
    ensures var same := LinkFor(db, c, rows, e, Nested(db, LinkOne(c, ids)), i) == OwnOne(db, c, Some(p));
      var x, y := Of(Id, p, SelectRows(db, LinkOneHead(c.head, ids))), SelectRows(db, LinkOneHead(c.head, [p]));
      (x == y ==> same) && (same ==> |x| == |y|)
  {
    hide *;
    OneLinkCases(db, c, e, rows, Nested(db, LinkOne(c, ids)), i, p);
    OneShareOf(db, c, ids, p);
    OneEach(db, c, ids, p);
    OneEach(db, c, [p], p);
    OwnAll(db, c, ids, p);
  }

  lemma OneLinkCases(db: Database, c: Query, e: Edge, rows: seq<Row>, ts: seq<Tree>, i: int, p: int)
    requires ShapeOf(e) == M2O && 0 <= i < |rows| && FkValue(e, rows[i]) == Some(p)
    ensures var hits, mine := PickIn(ts, IdKeys(RowsOf(ts)), {p}), Nested(db, LinkOne(c, [p]));
      && LinkFor(db, c, rows, e, ts, i) == (if hits == [] then Nil else One(hits[|hits| - 1]))
      && OwnOne(db, c, Some(p)) == if mine == [] then Nil else One(mine[0])
  {
    hide Nested, RowsOf;
  }

  lemma OneShareOf(db: Database, c: Query, ids: seq<int>, p: int)
    requires HasId(c.head.table)
    ensures var ts := Nested(db, LinkOne(c, ids));
      PickIn(ts, IdKeys(RowsOf(ts)), {p}) == NestAll(db, LinkOne(c, ids), Of(Id, p, SelectRows(db, LinkOneHead(c.head, ids))))
  {
    OneShare(db, c, ids, p);
  }

  lemma OwnAll(db: Database, c: Query, ids: seq<int>, p: int)
    ensures Nested(db, LinkOne(c, [p])) == NestAll(db, LinkOne(c, ids), SelectRows(db, LinkOneHead(c.head, [p])))
  {
    hide SelectRows;
    var y := SelectRows(db, LinkOneHead(c.head, [p]));
    SameTrees(db, LinkOne(c, ids), LinkOne(c, [p]), y);
    assert NestAll(db, LinkOne(c, [p]), y) == Nested(db, LinkOne(c, [p]));
  }

  /** At most one row has a given id. */
  lemma OneEach(db: Database, c: Query, ids: seq<int>, p: int)
    requires Sound(db, c) && HasId(c.head.table) && c.head.from.None?
    ensures |Of(Id, p, SelectRows(db, LinkOneHead(c.head, ids)))| <= 1
    ensures ids == [p] ==> |SelectRows(db, LinkOneHead(c.head, ids))| <= 1
  {
    var h := LinkOneHead(c.head, ids);
    SelectDistinct(db, h);
    hide SelectRows, Sound;
    FilterDistinct([KeyIn(Id, [p])], SelectRows(db, h));
    FewWithId(Of(Id, p, SelectRows(db, h)), p);
    if ids == [p] {
      assert h.preds[|c.head.preds|] == KeyIn(Id, [p]);
      SingleHit(db, h, p);
    }
  }

  lemma FewWithId(rows: seq<Row>, p: int)
    requires DistinctIds(rows) && exists all :: rows == Of(Id, p, all)
    ensures |rows| <= 1
  {
    var all :| rows == Of(Id, p, all);
    FilterMembers([KeyIn(Id, [p])], all);
    hide Filter;
    var first := if |rows| > 0 then IdOf(rows[0]) else p;
    var second := if |rows| > 1 then IdOf(rows[1]) else p;
    forall i | 0 <= i < |rows| ensures IdOf(rows[i]) == p {
      assert rows[i] in rows;
      assert Sat([KeyIn(Id, [p])][0], rows[i]);
    }
    assert first == second;
  }

  lemma OneNeighbors(db: Database, c: Query, e: Edge, rows: seq<Row>)
    requires Sound(db, c) && ShapeOf(e) == M2O && HasId(c.head.table) && c.head.from.None?
    ensures var ids := FirstSeen(FkKeys(e, rows));
      Neighbors(db, c, rows, e) == Ok(if ids == [] then [] else Nested(db, LinkOne(c, ids)))
  {
    hide Nested, SelectRows, Height, Run;
    var ids := FirstSeen(FkKeys(e, rows));
    SoundHead(db, c, LinkOneHead(c.head, ids));
    SelectDistinct(db, LinkOneHead(c.head, ids));
    BatchedIsNestedDistinct(db, LinkOne(c, ids));
  }

  /** The rows of a to-one batch: distinct ids, all of them asked for. */
  lemma OneBatch(db: Database, c: Query, ids: seq<int>)
    requires Sound(db, c) && HasId(c.head.table) && c.head.from.None?
    ensures var batch := SelectRows(db, LinkOneHead(Unlimited(c.head), ids));
      DistinctIds(batch) && forall i :: 0 <= i < |batch| ==> Id in batch[i] && batch[i][Id] in ids
  {
    var h := LinkOneHead(Unlimited(c.head), ids);
    SelectDistinct(db, h);
    SelectMembers(db, h);
    hide SelectRows, Sound;
    var batch := SelectRows(db, h);
    forall i | 0 <= i < |batch| ensures Id in batch[i] && batch[i][Id] in ids {
      assert batch[i] in batch;
      assert Sat(h.preds[|c.head.preds|], batch[i]);
    }
  }

  lemma OneKeyFew(batch: seq<Row>)
    requires DistinctIds(batch)
    ensures forall p :: AllKey(Id, batch, p) ==> |batch| <= 1
  {
    forall p | AllKey(Id, batch, p) ensures |batch| <= 1 {
      var first := if |batch| > 0 then IdOf(batch[0]) else 0;
      var second := if |batch| > 1 then IdOf(batch[1]) else first;
      assert first == second;
    }
  }

  lemma OneLimited(db: Database, c: Query, ids: seq<int>, p: int)
    requires c.head.limit.Some? && c.head.limit.value > 0 && c.head.offset in {None, Some(0)} && p in ids
    ensures var k, batch := c.head.limit.value, SelectRows(db, LinkOneHead(Unlimited(c.head), ids));
      && SelectRows(db, LinkOneHead(c.head, ids)) == Take(k, batch)
      && SelectRows(db, LinkOneHead(c.head, [p])) == Take(k, Of(Id, p, batch))
  {
    var u, narrow := Unlimited(c.head), KeyIn(Id, [p]);
    OneCut(db, c.head, ids);
    OneCut(db, c.head, [p]);
    hide SelectRows, Filter, Take;
    forall r {:trigger Sat(narrow, r)} | Sat(narrow, r) ensures Keep([KeyIn(Id, ids)], r) { KeyInSat(Id, ids, p, r); }
    SelectNarrow(db, u, [KeyIn(Id, ids)], narrow);
  }

  lemma OneCut(db: Database, h: Head, ids: seq<int>)
    requires h.limit.Some? && h.limit.value > 0 && h.offset in {None, Some(0)}
    ensures SelectRows(db, LinkOneHead(h, ids)) == Take(h.limit.value, SelectRows(db, LinkOneHead(Unlimited(h), ids)))
  {
    hide Filter, Sort;
  }

  // A builder that has been loaded before -----------------------------------------

  /** An O2M builder that has been loaded for other nodes gives every node the list of a fresh one exactly
      when each row of the fresh load already belongs to one of those. */
  lemma ReusedLists(db: Database, c: Query, e: Edge, earlier: seq<int>, rows: seq<Row>)
    requires Sound(db, c) && ShapeOf(e) == O2M && c.head.table == Target(e) && c.head.from.None? && Open(c.head) && DistinctIds(rows)
    ensures var used := LinkMany(c, e, earlier);
      Neighbors(db, used, rows, e).Ok? && Neighbors(db, c, rows, e).Ok? &&
      ((forall i :: 0 <= i < |rows| ==>
          LinkFor(db, used, rows, e, Neighbors(db, used, rows, e).value, i) == LinkFor(db, c, rows, e, Neighbors(db, c, rows, e).value, i))
       <==> forall r :: r in SelectRows(db, LinkManyHead(c.head, e, Ids(rows))) ==> FkOf(e) in r && r[FkOf(e)] in earlier)
  {
    hide Sound, Nested, SelectRows, Project, Height;
    var used, ids := LinkMany(c, e, earlier), Ids(rows);
    UsedSound(db, c, e, earlier);
    LinkedRun(db, c, e, ids);
    LinkedRun(db, used, e, ids);
    var a, b := Nested(db, LinkMany(used, e, ids)), Nested(db, LinkMany(c, e, ids));
    ReuseIff(db, c.head, e, earlier, ids);
    var again, anew := SelectRows(db, LinkMany(used, e, ids).head), SelectRows(db, LinkMany(c, e, ids).head);
    hide Run;
    ManyNeighbors(db, used, e, rows);
    ManyNeighbors(db, c, e, rows);
    if again == anew {
      SameNested(db, LinkMany(used, e, ids), LinkMany(c, e, ids));
    }
    if forall i :: 0 <= i < |rows| ==> LinkFor(db, used, rows, e, a, i) == LinkFor(db, c, rows, e, b, i) {
      SameTotals(db, used, c, e, rows, a, b);
      assert |again| == |anew|;
    }
  }

  lemma UsedSound(db: Database, c: Query, e: Edge, ids: seq<int>)
    requires Sound(db, c) && ShapeOf(e) == O2M && c.head.table == Target(e) && c.head.from.None?
    ensures var used := LinkMany(c, e, ids);
      Sound(db, used) && used.head.table == c.head.table && used.head.from.None?
      && used.head.fields == LinkManyHead(used.head, e, ids).fields
  {
    LinkFields(c.head, e, ids);
    SoundHead(db, c, LinkManyHead(c.head, e, ids));
  }

  lemma SameNested(db: Database, p: Query, q: Query)
    requires p.head.table == q.head.table && p.head.fields == q.head.fields && p.with == q.with
    requires SelectRows(db, p.head) == SelectRows(db, q.head)
    ensures Nested(db, p) == Nested(db, q)
  {
    var raws := SelectRows(db, q.head);
    SameTrees(db, p, q, raws);
    assert Nested(db, p) == NestAll(db, p, raws) && Nested(db, q) == NestAll(db, q, raws);
  }

  /** Equal lists for all owners come from equally many rows. */
  lemma SameTotals(db: Database, p: Query, q: Query, e: Edge, rows: seq<Row>, a: seq<Tree>, b: seq<Tree>)
    requires ShapeOf(e) == O2M && p.head.table == q.head.table == Target(e) && DistinctIds(rows)
    requires Neighbors(db, p, rows, e) == Ok(a) && Neighbors(db, q, rows, e) == Ok(b)
    requires forall i :: 0 <= i < |rows| ==> LinkFor(db, p, rows, e, a, i) == LinkFor(db, q, rows, e, b, i)
    ensures |a| == |b|
  {
    hide LinkFor, Neighbors;
    ManyPartition(db, p, e, rows);
    ManyPartition(db, q, e, rows);
    forall k | k in Ids(rows) ensures |PickIn(a, FkKeys(e, RowsOf(a)), {k})| == |PickIn(b, FkKeys(e, RowsOf(b)), {k})| {
      var i :| 0 <= i < |rows| && Ids(rows)[i] == k;
      assert LinkFor(db, p, rows, e, a, i) == LinkFor(db, q, rows, e, b, i);
    }
    TotalSame(a, FkKeys(e, RowsOf(a)), b, FkKeys(e, RowsOf(b)), Ids(rows));
  }

  lemma {:induction false} TotalSame<T>(xs: seq<T>, ks: seq<Option<int>>, ys: seq<T>, ls: seq<Option<int>>, owners: seq<int>)
    requires |xs| == |ks| && |ys| == |ls|
    requires forall k :: k in owners ==> |PickIn(xs, ks, {k})| == |PickIn(ys, ls, {k})|
    ensures Total(xs, ks, owners) == Total(ys, ls, owners)
  {
    if owners != [] {
      var n := |owners| - 1;
      var k := owners[n];
      assert k in owners && |PickIn(xs, ks, {k})| == |PickIn(ys, ls, {k})|;
      TotalSame(xs, ks, ys, ls, owners[..n]);
    }
  }

  /** A to-one builder that has been loaded for other ids gives every node the neighbour of a fresh one exactly
      when each row of the fresh load is among the earlier ids. */
  lemma ReusedOnes(db: Database, c: Query, e: Edge, earlier: seq<int>, rows: seq<Row>)
    requires Sound(db, c) && ShapeOf(e) == M2O && HasId(c.head.table) && c.head.from.None? && Open(c.head)
    ensures var used := LinkOne(c, earlier);
      Neighbors(db, used, rows, e).Ok? && Neighbors(db, c, rows, e).Ok? &&
      ((forall i :: 0 <= i < |rows| ==>
          LinkFor(db, used, rows, e, Neighbors(db, used, rows, e).value, i) == LinkFor(db, c, rows, e, Neighbors(db, c, rows, e).value, i))
       <==> forall r :: r in SelectRows(db, LinkOneHead(c.head, FirstSeen(FkKeys(e, rows)))) ==> Id in r && r[Id] in earlier)
  {
    hide Sound, Nested, SelectRows, Project, Height, Run, Of, Neighbors, LinkFor;
    var used, keys := LinkOne(c, earlier), FkKeys(e, rows);
    var ids := FirstSeen(keys);
    UsedOneSound(db, c, earlier);
    OneNeighbors(db, c, e, rows);
    OneNeighbors(db, used, e, rows);
    ReuseOneIff(db, c.head, earlier, ids);
    var again, anew := SelectRows(db, LinkOneHead(used.head, ids)), SelectRows(db, LinkOneHead(c.head, ids));
    var a, b := Neighbors(db, used, rows, e).value, Neighbors(db, c, rows, e).value;
    if again == anew {
      SameNested(db, LinkOne(used, ids), LinkOne(c, ids));
      SameLinks(db, used, c, e, rows, b);
    }
    if forall i :: 0 <= i < |rows| ==> LinkFor(db, used, rows, e, a, i) == LinkFor(db, c, rows, e, b, i) {
      RowsWithIds(db, c, ids);
      forall r | r in anew ensures Id in r && r[Id] in earlier {
        var i :| 0 <= i < |rows| && keys[i] == Some(r[Id]);
        assert LinkFor(db, used, rows, e, a, i) == LinkFor(db, c, rows, e, b, i);
        LinkHits(db, used, e, rows, i, r[Id]);
        LinkHits(db, c, e, rows, i, r[Id]);
        OfHas(r[Id], anew, r);
        EarlierIds(db, c, earlier, ids, r[Id]);
      }
    }
  }

  lemma UsedOneSound(db: Database, c: Query, ids: seq<int>)
    requires Sound(db, c) && c.head.from.None?
    ensures Sound(db, LinkOne(c, ids))
  {
    SoundHead(db, c, LinkOneHead(c.head, ids));
  }

  lemma SameLinks(db: Database, p: Query, q: Query, e: Edge, rows: seq<Row>, ts: seq<Tree>)
    requires ShapeOf(e) == M2O
    ensures forall i :: 0 <= i < |rows| ==> LinkFor(db, p, rows, e, ts, i) == LinkFor(db, q, rows, e, ts, i)
  {}

  lemma RowsWithIds(db: Database, c: Query, ids: seq<int>)
    ensures forall r :: r in SelectRows(db, LinkOneHead(c.head, ids)) ==> Id in r && r[Id] in ids
  {
    var h := LinkOneHead(c.head, ids);
    SelectMembers(db, h);
    hide SelectRows;
    forall r | r in SelectRows(db, h) ensures Id in r && r[Id] in ids { assert Sat(h.preds[|c.head.preds|], r); }
  }

  /** A to-one link is nil exactly when the batch has no row with the key. */
  lemma LinkHits(db: Database, c: Query, e: Edge, rows: seq<Row>, i: int, p: int)
    requires Sound(db, c) && ShapeOf(e) == M2O && HasId(c.head.table) && c.head.from.None? && 0 <= i < |rows|
    requires FkKeys(e, rows)[i] == Some(p)
    ensures Neighbors(db, c, rows, e).Ok?
    ensures LinkFor(db, c, rows, e, Neighbors(db, c, rows, e).value, i) == Nil
      <==> Of(Id, p, SelectRows(db, LinkOneHead(c.head, FirstSeen(FkKeys(e, rows))))) == []
  {
    hide Sound, Nested, SelectRows, Project, Height, Run, Of, Neighbors;
    OneNeighbors(db, c, e, rows);
    OneShareOf(db, c, FirstSeen(FkKeys(e, rows)), p);
    assert p in FirstSeen(FkKeys(e, rows));
  }

  lemma OfHas(p: int, rows: seq<Row>, r: Row)
    requires r in rows && Id in r && r[Id] == p
    ensures Of(Id, p, rows) != []
  {
    var i :| 0 <= i < |rows| && rows[i] == r;
    OfMember(Id, p, rows, i);
  }

  lemma EarlierIds(db: Database, c: Query, earlier: seq<int>, ids: seq<int>, p: int)
    ensures Of(Id, p, SelectRows(db, LinkOneHead(LinkOneHead(c.head, earlier), ids))) != [] ==> p in earlier
  {
    var h := LinkOneHead(LinkOneHead(c.head, earlier), ids);
    var rows := SelectRows(db, h);
    SelectMembers(db, h);
    FilterMembers([KeyIn(Id, [p])], rows);
    hide SelectRows, Filter;
    if Of(Id, p, rows) != [] {
      var r := Of(Id, p, rows)[0];
      assert r in Of(Id, p, rows) && r in rows;
      assert Sat([KeyIn(Id, [p])][0], r) && Sat(h.preds[|c.head.preds|], r);
    }
  }
}
