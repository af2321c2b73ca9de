/**
 Which rows the edges of a loaded tree hold, column by column.
 */
module KeyLaws {
  import opened Collections
  import opened Store
  import opened Plan
  import opened PlanLaws
  import opened EagerLaws
  import opened RowLaws

  /** The table that an edge leads to. */
  function Behind(e: Edge): (t: Table) {
    if e in {ToParent, ToChildren, ToAccount} then Accounts
    else if e in {ToGroups, ToGroup} then Groups
    else if e == ToProxy then Proxies
    else if e == ToUsageLogs then UsageLogs
    else AccountGroups
  }

  /** The keys by which a row is the owner's neighbour along an edge. */
  ghost predicate Refers(db: Database, e: Edge, owner: Row, r: Row) {
    match e
    case ToProxy => ProxyId in owner && Id in r && r[Id] == owner[ProxyId]
    case ToParent => ParentAccountId in owner && Id in r && r[Id] == owner[ParentAccountId]
    case ToAccount => AccountId in owner && Id in r && r[Id] == owner[AccountId]
    case ToGroup => GroupId in owner && Id in r && r[Id] == owner[GroupId]
    case ToChildren => Id in owner && ParentAccountId in r && r[ParentAccountId] == owner[Id]
    case ToUsageLogs => Id in owner && AccountId in r && r[AccountId] == owner[Id]
    case ToAccountGroups => Id in owner && AccountId in r && r[AccountId] == owner[Id]
    case ToGroups => Id in owner && Id in r && Linked(db.Of(AccountGroups), owner[Id], r[Id])
  }

  /** Some membership row pairs the account with the group. */
  ghost predicate Linked(members: seq<Row>, account: int, group: int) {
    exists m :: m in members && AccountId in m && GroupId in m && m[AccountId] == account && m[GroupId] == group
  }

  /** The row holds values of a row of the table. */
  ghost predicate Holds(db: Database, t: Table, row: Row) {
    exists raw :: raw in db.Of(t) && forall c :: c in row ==> c in raw && row[c] == raw[c]
  }

  /** Every node below holds a row of the table its edge leads to, with the key that its owner has. */
  ghost predicate Follows(db: Database, t: Tree)
    decreases t, 1
  {
    forall e :: e in t.edges ==> LinkFollows(db, e, t.row, t.edges[e])
  }

  ghost predicate LinkFollows(db: Database, e: Edge, owner: Row, l: Link)
    decreases l, 0
  {
    match l
    case Nil => true
    case One(t) => Refers(db, e, owner, t.row) && Holds(db, Behind(e), t.row) && Follows(db, t)
    case Many(ts) => forall i :: 0 <= i < |ts| ==> Refers(db, e, owner, ts[i].row) && Holds(db, Behind(e), ts[i].row) && Follows(db, ts[i])
  }

  // Rows ----------------------------------------------------------------------------

  /** The rows of one level: projected rows of the source, with the keys that tables always have. */
  lemma LevelRows(db: Database, h: Head, loaded: set<Edge>)
    requires ValidDb(db) && h.from.None?
    ensures forall row :: row in NodeRows(db, h, loaded) ==> Holds(db, h.table, row) && (HasId(h.table) ==> Id in row)
  {
    SelectMembers(db, h);
    hide SelectRows, Project;
    forall row | row in NodeRows(db, h, loaded) ensures Holds(db, h.table, row) && (HasId(h.table) ==> Id in row) {
      var i :| 0 <= i < |SelectRows(db, h)| && NodeRows(db, h, loaded)[i] == row;
      var raw := SelectRows(db, h)[i];
      assert raw in SelectRows(db, h);
      assert raw in db.Of(h.table);
      ProjectKeeps(h, loaded, raw);
      assert RowOk(h.table, raw);
    }
  }

  /** The owners' rows: their ids, and the keys that their to-one edges follow. */
  lemma OwnerRows(db: Database, q: Query, e: Edge, i: int)
    requires ValidDb(db) && Ready(q) && e in q.with && 0 <= i < |NodeRows(db, q.head, q.with.Keys)|
    ensures var row := NodeRows(db, q.head, q.with.Keys)[i];
      && (HasId(q.head.table) ==> Id in row)
      && (ShapeOf(e) == M2O ==> (FkValue(e, row).Some? <==> FkOf(e) in row))
  {
    SelectMembers(db, q.head);
    hide SelectRows, Project;
    var raw := SelectRows(db, q.head)[i];
    assert raw in SelectRows(db, q.head);
    assert RowOk(q.head.table, raw) by {
      if q.head.from.None? { assert raw in db.Of(q.head.table); }
    }
    ProjectKeeps(q.head, q.with.Keys, raw);
    if ShapeOf(e) == M2O { KeyKept(q.head, q.with.Keys, raw, e); }
  }

  lemma KeyKept(h: Head, loaded: set<Edge>, raw: Row, e: Edge)
    requires e in loaded && e in EdgesOf(h.table) && ShapeOf(e) == M2O && RowOk(h.table, raw)
    ensures FkOf(e) in raw ==> FkOf(e) in Project(h, loaded, raw)
    ensures !NullableFk(e) ==> FkOf(e) in raw
  {
    assert h.fields != [] ==> FkOf(e) in SelectColumns(h, loaded);
  }

  // Runs ----------------------------------------------------------------------------

  /** Whatever a run returns follows the keys, at every depth, under all windows, projections and conditions. */
  lemma {:induction false} RunFollows(db: Database, q: Query)
    requires ValidDb(db) && Ready(q) && Run(db, q).Ok?
    ensures forall i :: 0 <= i < |Run(db, q).value| ==> Follows(db, Run(db, q).value[i])
    decreases Height(q), 2
  {
    var rows := NodeRows(db, q.head, q.with.Keys);
    if rows != [] {
      var es := EdgesOf(q.head.table);
      var m := Loads(db, q, rows, es).value;
      var ts := Run(db, q).value;
      forall e | e in m
        ensures Neighbors(db, q.with[e], rows, e) == Ok(m[e])
        ensures forall i :: 0 <= i < |rows| ==> LinkFollows(db, e, rows[i], LinkFor(db, q.with[e], rows, e, m[e], i))
      {
        LoadsHas(db, q, rows, es, e);
        EdgeFollows(db, q, e, m[e]);
      }
      hide LinkFor, LinkFollows, Neighbors, Loads, NodeRows;
      forall i | 0 <= i < |ts| ensures Follows(db, ts[i]) {
        assert ts[i] == Assemble(db, q, rows, m, i);
      }
    }
  }

  lemma {:induction false} LoadsHas(db: Database, q: Query, rows: seq<Row>, es: seq<Edge>, e: Edge)
    requires Loads(db, q, rows, es).Ok? && e in Loads(db, q, rows, es).value
    ensures e in q.with && Neighbors(db, q.with[e], rows, e) == Ok(Loads(db, q, rows, es).value[e])
  {
    hide Neighbors;
    if es != [] {
      var n := |es| - 1;
      if e in Loads(db, q, rows, es[..n]).value { LoadsHas(db, q, rows, es[..n], e); }
    }
  }

  lemma EdgeFollows(db: Database, q: Query, e: Edge, ts: seq<Tree>)
    requires ValidDb(db) && Ready(q) && e in q.with && Neighbors(db, q.with[e], NodeRows(db, q.head, q.with.Keys), e) == Ok(ts)
    ensures var rows := NodeRows(db, q.head, q.with.Keys);
      forall i :: 0 <= i < |rows| ==> LinkFollows(db, e, rows[i], LinkFor(db, q.with[e], rows, e, ts, i))
    decreases Height(q), 1
  {
    match ShapeOf(e)
    case M2O => OneFollows(db, q, e, ts);
    case O2M => ManyFollows(db, q, e, ts);
    case M2M => GroupsFollow(db, q, e, ts);
  }

  lemma BehindIs(e: Edge)
    ensures Target(e) == Behind(e)
    ensures ShapeOf(e) == M2O ==> HasId(Behind(e))
  {}

  lemma ChildReady(q: Query, e: Edge, h: Head)
    requires Ready(q) && e in q.with && h.table == q.with[e].head.table && h.joins == [] && h.from.None?
    ensures Ready(q.with[e].(head := h)) && Height(q.with[e].(head := h)) < Height(q)
    ensures q.with[e].head.table == Behind(e) && q.with[e].head.from.None? && q.with[e].head.joins == []
  {
    HeightChild(q, e);
    HeightHead(q.with[e], h);
    BehindIs(e);
  }

  lemma ChildHead(q: Query, e: Edge)
    requires Ready(q) && e in q.with
    ensures q.with[e].head.table == Behind(e) && q.with[e].head.from.None? && q.with[e].head.joins == []
  {
    BehindIs(e);
  }

  /** What a batch brings: rows of its table. */
  lemma BatchRows(db: Database, c: Query, h: Head, ts: seq<Tree>)
    requires ValidDb(db) && h.from.None? && Run(db, c.(head := h)) == Ok(ts)
    ensures forall j :: 0 <= j < |ts| ==> Holds(db, h.table, ts[j].row) && (HasId(h.table) ==> Id in ts[j].row)
  {
    RunRows(db, c.(head := h));
    LevelRows(db, h, c.with.Keys);
    hide Run, NodeRows, Holds;
    forall j | 0 <= j < |ts| ensures ts[j].row in RowsOf(ts) { assert RowsOf(ts)[j] == ts[j].row; }
  }

  lemma OneParts(h: Head, ids: seq<int>)
    ensures var g := LinkOneHead(h, ids); g.table == h.table && g.joins == h.joins && g.from == h.from
  {}

  lemma ManyParts(h: Head, e: Edge, ids: seq<int>)
    ensures var g := LinkManyHead(h, e, ids); g.table == h.table && g.joins == h.joins && g.from == h.from
  {}

  lemma OneBatchIs(db: Database, c: Query, rows: seq<Row>, e: Edge)
    requires ShapeOf(e) == M2O
    ensures var ids := FirstSeen(FkKeys(e, rows));
      Neighbors(db, c, rows, e) == if ids == [] then Ok([]) else Run(db, c.(head := LinkOneHead(c.head, ids)))
  {
    hide Run, Height;
  }

  lemma ManyBatchIs(db: Database, c: Query, rows: seq<Row>, e: Edge)
    requires ShapeOf(e) == O2M
    ensures Neighbors(db, c, rows, e) == Run(db, c.(head := LinkManyHead(c.head, e, Ids(rows))))
  {
    hide Run, Height;
  }

  lemma ReadyHas(q: Query, e: Edge)
    requires Ready(q) && e in q.with
    ensures e in EdgesOf(q.head.table)
  {}

  lemma OneFollows(db: Database, q: Query, e: Edge, ts: seq<Tree>)
    requires ValidDb(db) && Ready(q) && e in q.with && ShapeOf(e) == M2O
    requires Neighbors(db, q.with[e], NodeRows(db, q.head, q.with.Keys), e) == Ok(ts)
    ensures var rows := NodeRows(db, q.head, q.with.Keys);
      forall i :: 0 <= i < |rows| ==> LinkFollows(db, e, rows[i], LinkFor(db, q.with[e], rows, e, ts, i))
    decreases Height(q), 0
  {
    hide *;
    var c, rows := q.with[e], NodeRows(db, q.head, q.with.Keys);
    var ids := FirstSeen(FkKeys(e, rows));
    var h := LinkOneHead(c.head, ids);
    ChildHead(q, e);
    OneParts(c.head, ids);
    ChildReady(q, e, h);
    OneBatchIs(db, c, rows, e);
    BehindIs(e);
    if ids != [] {
      RunFollows(db, c.(head := h));
      BatchRows(db, c, h, ts);
    }
    forall i | 0 <= i < |rows| ensures LinkFollows(db, e, rows[i], LinkFor(db, c, rows, e, ts, i)) {
      OwnerRows(db, q, e, i);
      OneLink(db, c, rows, e, ts, i);
    }
  }

  /** A to-one link out of rows that have ids. */
  lemma OneLink(db: Database, c: Query, rows: seq<Row>, e: Edge, ts: seq<Tree>, i: int)
    requires 0 <= i < |rows| && ShapeOf(e) == M2O && (FkValue(e, rows[i]).Some? <==> FkOf(e) in rows[i])
    requires forall j :: 0 <= j < |ts| ==> Follows(db, ts[j]) && Holds(db, Behind(e), ts[j].row) && Id in ts[j].row
    ensures LinkFollows(db, e, rows[i], LinkFor(db, c, rows, e, ts, i))
  {
    hide Follows, Holds;
    if FkValue(e, rows[i]).Some? {
      var k := FkValue(e, rows[i]).value;
      var keys := IdKeys(RowsOf(ts));
      var hits := PickIn(ts, keys, {k});
      if hits != [] {
        var j := PickedAt(ts, keys, {k}, |hits| - 1);
        assert RowsOf(ts)[j] == ts[j].row;
        KeyIs(e, rows[i], ts[j].row);
        assert Refers(db, e, rows[i], ts[j].row);
      }
    }
  }

  lemma KeyIs(e: Edge, owner: Row, r: Row)
    requires ShapeOf(e) == M2O && FkOf(e) in owner && Id in r && IdOf(r) == owner[FkOf(e)]
    ensures forall db :: Refers(db, e, owner, r)
  {}

  lemma ManyFollows(db: Database, q: Query, e: Edge, ts: seq<Tree>)
    requires ValidDb(db) && Ready(q) && e in q.with && ShapeOf(e) == O2M
    requires Neighbors(db, q.with[e], NodeRows(db, q.head, q.with.Keys), e) == Ok(ts)
    ensures var rows := NodeRows(db, q.head, q.with.Keys);
      forall i :: 0 <= i < |rows| ==> LinkFollows(db, e, rows[i], LinkFor(db, q.with[e], rows, e, ts, i))
    decreases Height(q), 0
  {
    hide *;
    var c, rows := q.with[e], NodeRows(db, q.head, q.with.Keys);
    var ids := Ids(rows);
    var h := LinkManyHead(c.head, e, ids);
    ChildHead(q, e);
    LinkManyIs(c, e, ids);
    ManyParts(c.head, e, ids);
    ChildReady(q, e, h);
    ManyBatchIs(db, c, rows, e);
    BehindIs(e);
    RunFollows(db, c.(head := h));
    BatchRows(db, c, h, ts);
    ManyKeys(db, c, e, ids);
    ReadyHas(q, e);
    OwnerTable(q.head.table, e);
    forall i | 0 <= i < |rows| ensures LinkFollows(db, e, rows[i], LinkFor(db, c, rows, e, ts, i)) {
      OwnerRows(db, q, e, i);
      ManyLink(db, c, rows, e, ts, i);
    }
  }

  /** The rows of a to-many batch have the key they were selected by. */
  lemma ManyKeys(db: Database, c: Query, e: Edge, ids: seq<int>)
    requires ShapeOf(e) == O2M && c.head.table == Target(e) && Run(db, LinkMany(c, e, ids)).Ok?
    ensures var ts := Run(db, LinkMany(c, e, ids)).value;
      forall j :: 0 <= j < |ts| ==> FkOf(e) in ts[j].row
  {
    var h := LinkManyHead(c.head, e, ids);
    var raws := SelectRows(db, h);
    var ts := Run(db, LinkMany(c, e, ids)).value;
    RunRows(db, LinkMany(c, e, ids));
    SelectMembers(db, h);
    hide Run, SelectRows;
    forall j | 0 <= j < |ts| ensures FkOf(e) in ts[j].row {
      assert RowsOf(ts)[j] == ts[j].row;
      assert raws[j] in raws;
      assert Sat(h.preds[|c.head.preds|], raws[j]);
      ProjectKeeps(h, c.with.Keys, raws[j]);
    }
  }

  lemma ManyLink(db: Database, c: Query, rows: seq<Row>, e: Edge, ts: seq<Tree>, i: int)
    requires 0 <= i < |rows| && ShapeOf(e) == O2M && Id in rows[i]
    requires forall j :: 0 <= j < |ts| ==> Follows(db, ts[j]) && Holds(db, Behind(e), ts[j].row) && FkOf(e) in ts[j].row
    ensures LinkFollows(db, e, rows[i], LinkFor(db, c, rows, e, ts, i))
  {
    hide Follows, Holds;
    var keys := FkKeys(e, RowsOf(ts));
    var want := {IdOf(rows[i])};
    var us := PickIn(ts, keys, want);
    forall p | 0 <= p < |us| ensures Refers(db, e, rows[i], us[p].row) && Holds(db, Behind(e), us[p].row) && Follows(db, us[p]) {
      var j := PickedAt(ts, keys, want, p);
      assert RowsOf(ts)[j] == ts[j].row;
    }
  }

  lemma GroupsFollow(db: Database, q: Query, e: Edge, ts: seq<Tree>)
    requires ValidDb(db) && Ready(q) && e in q.with && ShapeOf(e) == M2M
    requires Neighbors(db, q.with[e], NodeRows(db, q.head, q.with.Keys), e) == Ok(ts)
    ensures var rows := NodeRows(db, q.head, q.with.Keys);
      forall i :: 0 <= i < |rows| ==> LinkFollows(db, e, rows[i], LinkFor(db, q.with[e], rows, e, ts, i))
  {
    var c, rows := q.with[e], NodeRows(db, q.head, q.with.Keys);
    var ids := Ids(rows);
    ChildHead(q, e);
    OwnerTable(q.head.table, e);
    GroupsLeaf(c);
    RunJoined(db, c, ids);
    var pairs := JoinSelect(db, c.head, ids);
    assert ts == LeafTrees(c.head, FirstRows(pairs));
    JoinMembers(db, c.head, ids);
    GroupTrees(db, c.head, ids);
    hide Run, NodeRows, Neighbors, Follows, Holds, Ready, Height, JoinSelect, FirstRows, Project;
    forall i | 0 <= i < |rows| ensures LinkFollows(db, e, rows[i], LinkFor(db, c, rows, e, ts, i)) {
      OwnerRows(db, q, e, i);
      GroupLinks(db, c, rows, e, ts, i);
    }
  }

  lemma GroupsLeaf(c: Query)
    requires c.head.table == Groups && Ready(c)
    ensures c.with == map[]
  {
    forall e ensures e !in c.with { assert e !in EdgesOf(Groups); }
    assert c.with.Keys == {};
  }

  /** A join row comes from a membership of its account, and with a row of the group table. */
  lemma JoinMembers(db: Database, h: Head, ids: seq<int>)
    requires ValidDb(db)
    ensures forall p :: p in JoinSelect(db, h, ids) ==>
      p.1 in db.Of(Groups) && Id in p.1 && Linked(db.Of(AccountGroups), p.0, p.1[Id])
  {
    var members, groups := db.Of(AccountGroups), Sort(h.order, Filter(h.preds, db.Of(Groups)));
    var all, pairs := JoinRows(members, ids, groups), JoinSelect(db, h, ids);
    JoinRowsLaws(members, ids, groups);
    SortMembers(h.order, Filter(h.preds, db.Of(Groups)));
    FilterMembers(h.preds, db.Of(Groups));
    WindowMembers(h, all);
    hide JoinRows, Sort, Filter, Window;
    forall p | p in pairs ensures p.1 in db.Of(Groups) && Id in p.1 && Linked(members, p.0, p.1[Id]) {
      assert p in all;
      assert p.1 in groups;
      assert RowOk(Groups, p.1);
      var m :| m in members && AccountId in m && m[AccountId] == p.0 && GroupId in m && m[GroupId] == IdOf(p.1);
    }
  }

  lemma WindowMembers<T>(h: Head, xs: seq<T>)
    ensures forall x :: x in Window(h.limit, h.offset, xs) ==> x in xs
  {}

  /** The group objects: rows of the group table. */
  lemma GroupTrees(db: Database, h: Head, ids: seq<int>)
    requires ValidDb(db) && h.table == Groups
    ensures var ts := LeafTrees(h, FirstRows(JoinSelect(db, h, ids)));
      forall j :: 0 <= j < |ts| ==> Follows(db, ts[j]) && Holds(db, Groups, ts[j].row) && Id in ts[j].row
  {
    var pairs := JoinSelect(db, h, ids);
    var raws := FirstRows(pairs);
    FirstRowsLaws(pairs);
    JoinMembers(db, h, ids);
    hide JoinSelect, FirstRows, Project, Linked;
    var ts := LeafTrees(h, raws);
    forall j | 0 <= j < |ts| ensures Follows(db, ts[j]) && Holds(db, Groups, ts[j].row) && Id in ts[j].row {
      var k :| 0 <= k < |pairs| && raws[j] == pairs[k].1;
      assert pairs[k] in pairs;
      ProjectKeeps(h, {}, raws[j]);
      assert ts[j] == Tree(Project(h, {}, raws[j]), map[]);
    }
  }

  lemma GroupLinks(db: Database, c: Query, rows: seq<Row>, e: Edge, ts: seq<Tree>, i: int)
    requires 0 <= i < |rows| && ShapeOf(e) == M2M && Id in rows[i]
    requires forall j :: 0 <= j < |ts| ==> Follows(db, ts[j]) && Holds(db, Groups, ts[j].row) && Id in ts[j].row
    requires forall p :: p in JoinSelect(db, c.head, Ids(rows)) ==> Id in p.1 && Linked(db.Of(AccountGroups), p.0, p.1[Id])
    ensures LinkFollows(db, e, rows[i], LinkFor(db, c, rows, e, ts, i))
  {
    hide Follows, Holds, JoinSelect, Linked;
    var pairs := JoinSelect(db, c.head, Ids(rows));
    var keys := IdKeys(RowsOf(ts));
    var want := Wanted(pairs, IdOf(rows[i]));
    var us := PickIn(ts, keys, want);
    forall p | 0 <= p < |us| ensures Refers(db, e, rows[i], us[p].row) && Holds(db, Behind(e), us[p].row) && Follows(db, us[p]) {
      var j := PickedAt(ts, keys, want, p);
      assert RowsOf(ts)[j] == ts[j].row;
      var pair :| pair in pairs && pair.0 == IdOf(rows[i]) && IdOf(pair.1) == keys[j].value;
      assert Linked(db.Of(AccountGroups), rows[i][Id], us[p].row[Id]);
    }
  }

  // What is loaded ------------------------------------------------------------------

  /** The table whose entities have the edge. */
  function OwnerOf(e: Edge): (t: Table) {
    if e in {ToAccount, ToGroup} then AccountGroups else Accounts
  }

  /** A run that returns has loaded every edge that was asked for, and no other, on every node. */
  lemma RunLoads(db: Database, q: Query, t: Tree)
    requires (forall e :: e in q.with ==> OwnerOf(e) == q.head.table) && Run(db, q).Ok? && t in Run(db, q).value
    ensures t.edges.Keys == q.with.Keys
  {
    forall e | e in q.with ensures e in EdgesOf(q.head.table) { EdgeListed(e); }
    var rows := NodeRows(db, q.head, q.with.Keys);
    hide NodeRows, LinkFor;
    if rows != [] {
      var m := Loads(db, q, rows, EdgesOf(q.head.table)).value;
      assert m.Keys == q.with.Keys;
      var i :| 0 <= i < |rows| && t == Assemble(db, q, rows, m, i);
    }
  }

  lemma EdgeListed(e: Edge)
    ensures e in EdgesOf(OwnerOf(e))
  {
    match e
    case ToGroups => assert EdgesOf(Accounts)[0] == e;
    case ToProxy => assert EdgesOf(Accounts)[1] == e;
    case ToParent => assert EdgesOf(Accounts)[2] == e;
    case ToChildren => assert EdgesOf(Accounts)[3] == e;
    case ToUsageLogs => assert EdgesOf(Accounts)[4] == e;
    case ToAccountGroups => assert EdgesOf(Accounts)[5] == e;
    case ToAccount => assert EdgesOf(AccountGroups)[0] == e;
    case ToGroup => assert EdgesOf(AccountGroups)[1] == e;
  }

  // What is found -------------------------------------------------------------------

  predicate ToOne(e: Edge) {
    e in {ToProxy, ToParent, ToAccount, ToGroup}
  }

  /** A link that misses nothing: a to-one link is nil only if no row has the key and meets the conditions `ps`
      of the edge, and a to-many link holds every such row. */
  ghost predicate Complete(db: Database, e: Edge, owner: Row, l: Link, ps: seq<Pred>, h: Head, loaded: set<Edge>) {
    && (ToOne(e) ==> !l.Many? && (l == Nil <==> forall r :: r in db.Of(Behind(e)) && Refers(db, e, owner, r) ==> !Keep(ps, r)))
    && (!ToOne(e) ==> l.Many? && forall r :: r in db.Of(Behind(e)) && Refers(db, e, owner, r) && Keep(ps, r) ==>
          exists i :: 0 <= i < |l.trees| && l.trees[i].row == Project(h, loaded, r))
  }

  /** The query that an edge's rows are scanned by: a child keeps its key in a projection. */
  function ScannedBy(h: Head, e: Edge): (r: Head) {
    if e in {ToChildren, ToUsageLogs, ToAccountGroups} then LinkManyHead(h, e, []) else h
  }

  lemma ValidSound(db: Database, q: Query)
    requires Sound(db, q)
    ensures ValidDb(db)
  {}

  /** The nested lookup misses nothing. */
  lemma NestComplete(db: Database, q: Query, e: Edge, raw: Row)
    requires Sound(db, q) && e in q.with && RowOk(q.head.table, raw)
    ensures Complete(db, e, raw, NestLink(db, q, e, raw), q.with[e].head.preds, ScannedBy(q.with[e].head, e), q.with[e].with.Keys)
  {
    ChildSound(db, q, e);
    BehindIs(e);
    ValidSound(db, q);
    hide Sound, Complete, NestLink, RowOk, ScannedBy, Open;
    match ShapeOf(e)
    case M2O => OneComplete(db, q, e, raw);
    case O2M => ManyComplete(db, q, e, raw);
    case M2M => GroupsComplete(db, q, e, raw);
  }

  lemma OneComplete(db: Database, q: Query, e: Edge, raw: Row)
    requires e in q.with && ShapeOf(e) == M2O && q.with[e].head.table == Behind(e) && q.with[e].head.from.None? && Open(q.with[e].head)
    requires e in EdgesOf(q.head.table) && RowOk(q.head.table, raw)
    ensures Complete(db, e, raw, NestLink(db, q, e, raw), q.with[e].head.preds, ScannedBy(q.with[e].head, e), q.with[e].with.Keys)
  {
    hide *;
    var c := q.with[e];
    OneCases(db, q, e, raw);
    if FkOf(e) in raw {
      var k := raw[FkOf(e)];
      var h := LinkOneHead(c.head, [k]);
      OneHead(db, c.head, k);
      SelectWith(db, h, c.head.preds, KeyIn(Id, [k]));
      forall r ensures Sat(KeyIn(Id, [k]), r) <==> Refers(db, e, raw, r) { OneKey(db, e, raw, r); }
      var rows := SelectRows(db, h);
      assert rows == [] <==> forall r :: r in db.Of(Behind(e)) && Refers(db, e, raw, r) ==> !Keep(c.head.preds, r) by {
        if rows != [] { assert rows[0] in rows; }
      }
    } else {
      forall r ensures !Refers(db, e, raw, r) { NoKey(db, e, raw, r); }
    }
    OneIs(db, e, raw, NestLink(db, q, e, raw), c);
  }

  lemma OneIs(db: Database, e: Edge, raw: Row, l: Link, c: Query)
    requires ShapeOf(e) == M2O && !l.Many?
    requires l == Nil <==> forall r :: r in db.Of(Behind(e)) && Refers(db, e, raw, r) ==> !Keep(c.head.preds, r)
    ensures Complete(db, e, raw, l, c.head.preds, ScannedBy(c.head, e), c.with.Keys)
  {
    hide Refers, Keep;
  }

  lemma OneHead(db: Database, h: Head, k: int)
    requires Open(h) && h.from.None?
    ensures var g := LinkOneHead(h, [k]); Open(g) && g.preds == h.preds + [KeyIn(Id, [k])] && Source(db, g) == db.Of(h.table)
  {}

  lemma OneCases(db: Database, q: Query, e: Edge, raw: Row)
    requires e in q.with && ShapeOf(e) == M2O && e in EdgesOf(q.head.table) && RowOk(q.head.table, raw)
    ensures !NestLink(db, q, e, raw).Many?
    ensures FkOf(e) !in raw ==> NestLink(db, q, e, raw) == Nil
    ensures FkOf(e) in raw ==> (NestLink(db, q, e, raw) == Nil <==> SelectRows(db, LinkOneHead(q.with[e].head, [raw[FkOf(e)]])) == [])
  {
    hide SelectRows, Height;
    if FkOf(e) in raw {
      var hits := Nested(db, LinkOne(q.with[e], [raw[FkOf(e)]]));
      assert |hits| == |SelectRows(db, LinkOneHead(q.with[e].head, [raw[FkOf(e)]]))|;
      hide Nested;
      assert NestLink(db, q, e, raw) == if hits == [] then Nil else One(hits[0]);
    } else {
      assert FkValue(e, raw).None?;
    }
  }

  lemma OneKey(db: Database, e: Edge, owner: Row, r: Row)
    requires ShapeOf(e) == M2O && FkOf(e) in owner
    ensures Sat(KeyIn(Id, [owner[FkOf(e)]]), r) <==> Refers(db, e, owner, r)
  {}

  lemma NoKey(db: Database, e: Edge, owner: Row, r: Row)
    requires ShapeOf(e) == M2O && FkOf(e) !in owner
    ensures !Refers(db, e, owner, r)
  {}

  lemma ManyComplete(db: Database, q: Query, e: Edge, raw: Row)
    requires e in q.with && ShapeOf(e) == O2M && q.with[e].head.table == Behind(e) && q.with[e].head.from.None? && Open(q.with[e].head)
    requires e in EdgesOf(q.head.table) && RowOk(q.head.table, raw)
    ensures Complete(db, e, raw, NestLink(db, q, e, raw), q.with[e].head.preds, ScannedBy(q.with[e].head, e), q.with[e].with.Keys)
  {
    hide *;
    var c := q.with[e];
    OwnerTable(q.head.table, e);
    OwnId(q.head.table, raw);
    var h := LinkManyHead(c.head, e, [raw[Id]]);
    ManyHead(db, c.head, e, raw[Id]);
    SelectWith(db, h, c.head.preds, KeyIn(FkOf(e), [raw[Id]]));
    forall r ensures Sat(KeyIn(FkOf(e), [raw[Id]]), r) <==> Refers(db, e, raw, r) { ManyKey(db, e, raw, r); }
    ManyCase(db, q, e, raw);
    ManyIs(db, e, raw, c, h);
  }

  lemma OwnId(t: Table, raw: Row)
    requires HasId(t) && RowOk(t, raw)
    ensures Id in raw && IdOf(raw) == raw[Id]
  {}

  lemma ManyHead(db: Database, h: Head, e: Edge, id: int)
    requires Open(h) && h.from.None? && ShapeOf(e) == O2M
    ensures var g := LinkManyHead(h, e, [id]);
      && Open(g) && g.preds == h.preds + [KeyIn(FkOf(e), [id])] && Source(db, g) == db.Of(h.table)
      && g.table == ScannedBy(h, e).table && g.fields == ScannedBy(h, e).fields
  {}

  lemma ManyKey(db: Database, e: Edge, owner: Row, r: Row)
    requires ShapeOf(e) == O2M && Id in owner
    ensures Sat(KeyIn(FkOf(e), [owner[Id]]), r) <==> Refers(db, e, owner, r)
  {}

  lemma ManyCase(db: Database, q: Query, e: Edge, raw: Row)
    requires e in q.with && ShapeOf(e) == O2M && Id in raw
    ensures NestLink(db, q, e, raw) == Many(Nested(db, q.with[e].(head := LinkManyHead(q.with[e].head, e, [raw[Id]]))))
  {
    hide Nested, Height;
  }

  /** A to-many link of the selected rows, when those are the rows that refer to the owner. */
  lemma ManyIs(db: Database, e: Edge, raw: Row, c: Query, h: Head)
    requires ShapeOf(e) != M2O && h.table == ScannedBy(c.head, e).table && h.fields == ScannedBy(c.head, e).fields
    requires forall r :: r in db.Of(Behind(e)) && Refers(db, e, raw, r) && Keep(c.head.preds, r) ==> r in SelectRows(db, h)
    ensures Complete(db, e, raw, Many(Nested(db, c.(head := h))), c.head.preds, ScannedBy(c.head, e), c.with.Keys)
  {
    hide SelectRows, Refers, Keep, Height, ScannedBy;
    var ts := Nested(db, c.(head := h));
    forall r | r in db.Of(Behind(e)) && Refers(db, e, raw, r) && Keep(c.head.preds, r)
      ensures exists i :: 0 <= i < |ts| && ts[i].row == Project(ScannedBy(c.head, e), c.with.Keys, r)
    {
      var i :| 0 <= i < |SelectRows(db, h)| && SelectRows(db, h)[i] == r;
      assert ts[i] == NestTree(db, c.(head := h), r);
      SameProject(ScannedBy(c.head, e), h, c.with.Keys, r);
    }
  }

  lemma GroupsComplete(db: Database, q: Query, e: Edge, raw: Row)
    requires e in q.with && ShapeOf(e) == M2M && q.with[e].head.table == Behind(e) && q.with[e].head.from.None? && Open(q.with[e].head)
    requires e in EdgesOf(q.head.table) && RowOk(q.head.table, raw) && ValidDb(db)
    ensures Complete(db, e, raw, NestLink(db, q, e, raw), q.with[e].head.preds, ScannedBy(q.with[e].head, e), q.with[e].with.Keys)
  {
    hide *;
    var c := q.with[e];
    OwnerTable(q.head.table, e);
    OwnId(q.head.table, raw);
    var h := MemberHead(db, c.head, raw[Id]);
    var mine := MemberPred(db.Of(AccountGroups), raw[Id]);
    OpenMember(db, c.head, raw[Id], e);
    SelectWith(db, h, c.head.preds, mine);
    forall r | Refers(db, e, raw, r) ensures Sat(mine, r) { LinkedJoins(db, e, raw, r); }
    GroupCase(db, q, e, raw);
    ManyIs(db, e, raw, c, h);
  }

  lemma GroupCase(db: Database, q: Query, e: Edge, raw: Row)
    requires e in q.with && ShapeOf(e) == M2M && Id in raw
    ensures NestLink(db, q, e, raw) == Many(Nested(db, q.with[e].(head := MemberHead(db, q.with[e].head, raw[Id]))))
  {
    hide Nested, Height;
  }

  lemma SameProject(h: Head, g: Head, loaded: set<Edge>, r: Row)
    requires h.table == g.table && h.fields == g.fields
    ensures Project(h, loaded, r) == Project(g, loaded, r)
  {}

  lemma OpenMember(db: Database, h: Head, a: int, e: Edge)
    requires Open(h) && h.from.None? && ShapeOf(e) == M2M
    ensures var m := MemberHead(db, h, a);
      && Open(m) && Source(db, m) == db.Of(h.table) && m.preds == h.preds + [MemberPred(db.Of(AccountGroups), a)]
      && m.table == ScannedBy(h, e).table && m.fields == ScannedBy(h, e).fields
  {}

  lemma LinkedJoins(db: Database, e: Edge, owner: Row, g: Row)
    requires ShapeOf(e) == M2M && Refers(db, e, owner, g) && Id in owner
    ensures Sat(MemberPred(db.Of(AccountGroups), owner[Id]), g)
  {}

  /** In a run without duplicate roots every edge misses nothing, in terms of the node's own row. */
  lemma RunComplete(db: Database, q: Query, e: Edge)
    requires Sound(db, q) && e in q.with && (HasId(q.head.table) ==> DistinctIds(SelectRows(db, q.head)))
    ensures Run(db, q).Ok?
    ensures forall i :: 0 <= i < |Run(db, q).value| ==> e in Run(db, q).value[i].edges
    ensures forall i :: 0 <= i < |Run(db, q).value| ==>
      Complete(db, e, Run(db, q).value[i].row, Run(db, q).value[i].edges[e], q.with[e].head.preds, ScannedBy(q.with[e].head, e), q.with[e].with.Keys)
  {
    BatchedIsNestedDistinct(db, q);
    SelectMembers(db, q.head);
    ReadyEdge(db, q, e);
    hide SelectRows, Nested, Run, Complete, Sound, Project, NestLink;
    var ts, raws := Nested(db, q), SelectRows(db, q.head);
    forall i | 0 <= i < |ts| ensures e in ts[i].edges &&
      Complete(db, e, ts[i].row, ts[i].edges[e], q.with[e].head.preds, ScannedBy(q.with[e].head, e), q.with[e].with.Keys)
    {
      assert ts[i] == NestTree(db, q, raws[i]);
      assert raws[i] in raws;
      NestComplete(db, q, e, raws[i]);
      SameRefers(db, q.head, q.with.Keys, raws[i], e);
      CompleteFor(db, e, raws[i], ts[i].row, ts[i].edges[e], q.with[e].head.preds, ScannedBy(q.with[e].head, e), q.with[e].with.Keys);
    }
  }

  lemma ReadyEdge(db: Database, q: Query, e: Edge)
    requires Sound(db, q) && e in q.with
    ensures e in EdgesOf(q.head.table)
    ensures forall r :: r in Source(db, q.head) ==> RowOk(q.head.table, r)
  {}

  /** A projected node refers to the same rows. */
  lemma SameRefers(db: Database, h: Head, loaded: set<Edge>, raw: Row, e: Edge)
    requires e in loaded && e in EdgesOf(h.table) && RowOk(h.table, raw)
    ensures forall r :: Refers(db, e, Project(h, loaded, raw), r) <==> Refers(db, e, raw, r)
  {
    ProjectKeeps(h, loaded, raw);
    if ShapeOf(e) == M2O { KeyKept(h, loaded, raw, e); }
    hide Project, Linked;
  }

  lemma CompleteFor(db: Database, e: Edge, a: Row, b: Row, l: Link, ps: seq<Pred>, h: Head, loaded: set<Edge>)
    requires Complete(db, e, a, l, ps, h, loaded) && forall r :: Refers(db, e, b, r) <==> Refers(db, e, a, r)
    ensures Complete(db, e, b, l, ps, h, loaded)
  {
    hide Refers, Project, Keep;
  }
}
