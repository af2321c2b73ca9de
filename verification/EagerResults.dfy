/**
 What a caller of `All` gets: the objects are the nested lookup's trees, and the edge accessors
 read exactly those trees.
 */
module EagerResults {
  import opened Collections
  import opened Store
  import opened Plan
  import opened PlanLaws
  import opened EagerLaws
  import opened Loaders
  import opened Eager
  import opened RowLaws
  import opened KeyLaws

  /** For every sound eager-load tree with distinct root ids, the objects that `All` returns are the
      trees that a lookup per node would build; nothing fails. */
  lemma AllBuildsNested(db: Database, q: Query, after: Query, r: Result<seq<Node>, LoadError>, kids: set<Node>, b: QueryBuilder)
    requires Sound(db, q) && (HasId(q.head.table) ==> DistinctIds(SelectRows(db, q.head)))
    requires b.Valid() && Outcome(Run(db, q), after, r, kids, b)
    ensures r.Ok? && RepAll(r.value, Nested(db, q), kids)
  {
    BatchedIsNestedDistinct(db, q);
  }

  /** The loaders check every returned key: a nil key and an id that no node has are errors.  No run ever
      reports one of them, at whatever depth; the only error is a selected field that is no column. */
  lemma NoKeyErrors(db: Database, q: Query, after: Query, r: Result<seq<Node>, LoadError>, kids: set<Node>, b: QueryBuilder)
    requires b.Valid() && Outcome(Run(db, q), after, r, kids, b)
    ensures r.Err? ==> r.error.InvalidField?
  {
    RunErrors(db, q);
  }

  /** The neighbours of a loaded object, by key columns: a to-one edge follows the object's own foreign key,
      a to-many edge holds rows with its id, and the group edge goes through a membership.  All of them are
      rows of the table the edge leads to, and the same is true below them. */
  lemma NodeFollows(db: Database, n: Node, t: Tree, kids: set<Node>, e: Edge)
    requires Rep(n, t, kids) && Follows(db, t)
    ensures e in n.one ==> Refers(db, e, n.row, n.one[e].row) && Holds(db, Behind(e), n.one[e].row)
    ensures e in n.many ==> forall x :: x in n.many[e] ==> Refers(db, e, n.row, x.row) && Holds(db, Behind(e), x.row)
    ensures e in n.one && e in t.edges && t.edges[e].One? ==> Rep(n.one[e], t.edges[e].tree, kids) && Follows(db, t.edges[e].tree)
    ensures e in n.many && e in t.edges && t.edges[e].Many? ==>
      |n.many[e]| == |t.edges[e].trees| && forall i :: 0 <= i < |n.many[e]| ==>
        Rep(n.many[e][i], t.edges[e].trees[i], kids) && Follows(db, t.edges[e].trees[i])
  {
    hide Refers, Holds;
    if e in t.edges {
      EdgeMaps(n, t, kids, e);
      assert LinkFollows(db, e, t.row, t.edges[e]);
      match t.edges[e]
      case Nil =>
      case One(u) => RowOf(n.one[e], u, kids);
      case Many(us) =>
        forall i | 0 <= i < |us| ensures n.many[e][i].row == us[i].row { RowOf(n.many[e][i], us[i], kids); }
    } else {
      assert e !in n.one.Keys + n.many.Keys;
    }
  }

  lemma RowOf(n: Node, t: Tree, kids: set<Node>)
    requires Rep(n, t, kids)
    ensures n.row == t.row
  {}

  lemma EdgeMaps(n: Node, t: Tree, kids: set<Node>, e: Edge)
    requires Rep(n, t, kids) && e in t.edges
    ensures RepAt(n.one, n.many, e, t.edges[e], kids) && n.row == t.row
    ensures t.edges[e].One? ==> e !in n.many
    ensures t.edges[e].Many? ==> e !in n.one
    ensures t.edges[e].Nil? ==> e !in n.one && e !in n.many
  {}

  /** So it is for every object that `All` returns. */
  lemma AllFollows(db: Database, q: Query, after: Query, r: Result<seq<Node>, LoadError>, kids: set<Node>, b: QueryBuilder, n: Node, e: Edge)
    requires ValidDb(db) && Ready(q) && b.Valid() && r.Ok? && n in r.value && Outcome(Run(db, q), after, r, kids, b)
    ensures e in n.one ==> Refers(db, e, n.row, n.one[e].row) && Holds(db, Behind(e), n.one[e].row)
    ensures e in n.many ==> forall x :: x in n.many[e] ==> Refers(db, e, n.row, x.row) && Holds(db, Behind(e), x.row)
  {
    RunFollows(db, q);
    var i :| 0 <= i < |r.value| && r.value[i] == n;
    NodeFollows(db, n, Run(db, q).value[i], kids, e);
  }

  /** And nothing is missed: without duplicate roots and edge windows, a to-one edge is missing only if no row of
      its table has the key and meets the edge's conditions, and a to-many edge holds every row that does. */
  lemma AllComplete(db: Database, q: Query, after: Query, r: Result<seq<Node>, LoadError>, kids: set<Node>, b: QueryBuilder, n: Node, e: Edge)
    requires Sound(db, q) && e in q.with && (HasId(q.head.table) ==> DistinctIds(SelectRows(db, q.head)))
    requires b.Valid() && r.Ok? && n in r.value && Outcome(Run(db, q), after, r, kids, b)
    ensures ToOne(e) ==> (e !in n.one <==>
      forall x :: x in db.Of(Behind(e)) && Refers(db, e, n.row, x) ==> !Keep(q.with[e].head.preds, x))
    ensures !ToOne(e) ==> e in n.many && forall x :: x in db.Of(Behind(e)) && Refers(db, e, n.row, x) && Keep(q.with[e].head.preds, x) ==>
      exists y :: y in n.many[e] && y.row == Project(ScannedBy(q.with[e].head, e), q.with[e].with.Keys, x)
  {
    RunComplete(db, q, e);
    var i :| 0 <= i < |r.value| && r.value[i] == n;
    var t := Run(db, q).value[i];
    EdgeMaps(n, t, kids, e);
    CompleteNode(db, n, t.edges[e], kids, e, q.with[e].head.preds, ScannedBy(q.with[e].head, e), q.with[e].with.Keys);
  }

  lemma CompleteNode(db: Database, n: Node, l: Link, kids: set<Node>, e: Edge, ps: seq<Pred>, h: Head, loaded: set<Edge>)
    requires RepAt(n.one, n.many, e, l, kids) && Complete(db, e, n.row, l, ps, h, loaded)
    ensures ToOne(e) ==> (e !in n.one <==> forall x :: x in db.Of(Behind(e)) && Refers(db, e, n.row, x) ==> !Keep(ps, x))
    ensures !ToOne(e) ==> e in n.many && forall x :: x in db.Of(Behind(e)) && Refers(db, e, n.row, x) && Keep(ps, x) ==>
      exists y :: y in n.many[e] && y.row == Project(h, loaded, x)
  {
    hide Refers, Keep, Project, Rep;
    if !ToOne(e) {
      forall x | x in db.Of(Behind(e)) && Refers(db, e, n.row, x) && Keep(ps, x) ensures exists y :: y in n.many[e] && y.row == Project(h, loaded, x) {
        var j :| 0 <= j < |l.trees| && l.trees[j].row == Project(h, loaded, x);
        RowOf(n.many[e][j], l.trees[j], kids);
        assert n.many[e][j] in n.many[e];
      }
    }
  }

  /** Two memberships of one account below any accounts of the result hold the same account object. */
  lemma MembershipsShare(db: Database, q: Query, after: Query, r: Result<seq<Node>, LoadError>, kids: set<Node>, b: QueryBuilder,
                         x: Node, m: Node, y: Node, n: Node)
    requires b.Valid() && r.Ok? && Outcome(Run(db, q), after, r, kids, b)
    requires ToAccountGroups in after.with && ToAccount in after.with[ToAccountGroups].with
    requires x in r.value && ToAccountGroups in x.many && m in x.many[ToAccountGroups]
    requires y in r.value && ToAccountGroups in y.many && n in y.many[ToAccountGroups]
    requires AccountId in m.row && AccountId in n.row && m.row[AccountId] == n.row[AccountId]
    ensures (ToAccount in m.one <==> ToAccount in n.one) && (ToAccount in m.one ==> m.one[ToAccount] == n.one[ToAccount])
  {
    hide Rep, SharedAt, SharedTree, Run, QueryBuilder.Val, QueryBuilder.Valid, Alike;
    SharesBelow(Elems(r.value), after, kids, ToAccountGroups, ToAccount, m, n);
    AlikeOne(m, n, ToAccount);
  }

  lemma SharesBelow(ns: set<Node>, q: Query, kids: set<Node>, e: Edge, f: Edge, x: Node, y: Node)
    requires SharedTree(ns, q, kids) && e in q.with && f in q.with[e].with && x in Below(ns, e) && y in Below(ns, e)
    ensures Alike(x.row, x.one, x.many, y.row, y.one, y.many, f)
  {
    hide Alike;
    assert SharedTree(Below(ns, e), q.with[e], kids);
    assert SharedAt(Below(ns, e), f);
  }

  lemma AlikeOne(x: Node, y: Node, f: Edge)
    requires ShapeOf(f) == M2O && FkValue(f, x.row) == FkValue(f, y.row)
    requires Alike(x.row, x.one, x.many, y.row, y.one, y.many, f)
    ensures (f in x.one <==> f in y.one) && (f in x.one ==> x.one[f] == y.one[f])
  {}

  /** The accessors of a loaded object tell apart an edge that was not asked for, a neighbour that
      does not exist, and the neighbours of the tree. */
  lemma AccessorsRead(n: Node, t: Tree, kids: set<Node>, e: Edge)
    requires Rep(n, t, kids)
    ensures e !in t.edges ==> n.OneOrErr(e) == Err(NotLoaded) && n.ManyOrErr(e) == Err(NotLoaded)
    ensures e in t.edges && t.edges[e].Nil? ==> n.OneOrErr(e) == Err(NotFound)
    ensures e in t.edges && t.edges[e].One? ==> n.OneOrErr(e).Ok? && Rep(n.OneOrErr(e).value, t.edges[e].tree, kids)
    ensures e in t.edges && t.edges[e].Many? ==> n.ManyOrErr(e).Ok? && RepAll(n.ManyOrErr(e).value, t.edges[e].trees, kids)
  {
    if e in t.edges {
      assert RepAt(n.one, n.many, e, t.edges[e], kids);
    } else {
      assert e !in n.one.Keys + n.many.Keys;
    }
  }
}
