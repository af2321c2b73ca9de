/**
 The query builders themselves, over the heap, with fields that loaders and terminal operations
 change in place.
 */
module Eager {
  import opened Collections
  import opened Store
  import opened Plan
  import opened PlanLaws
  import opened EagerLaws
  import opened Loaders

  // Builders ----------------------------------------------------------------

  /** A query builder.  Loaders and terminal operations change its fields in place. */
  class QueryBuilder {
    const table: Table
    const attrs: set<string>
    var from: Option<seq<Row>>
    var unique: Option<bool>
    var fields: seq<Column>
    var preds: seq<Pred>
    var joins: seq<seq<int>>
    var order: Order
    var limit: Option<nat>
    var offset: Option<nat>
    var locks: seq<string>
    var eager: map<Edge, QueryBuilder>
    ghost var Repr: set<QueryBuilder>

    /** The builders of a query form a tree. */
    ghost predicate Valid()
      reads this, Repr
      decreases Repr
      ensures Valid() ==> this in Repr
    {
      && this in Repr
      && (forall e :: e in eager ==> eager[e] in Repr && eager[e].Repr <= Repr && this !in eager[e].Repr && eager[e].Valid())
      && forall e, f :: e in eager && f in eager && e != f ==> eager[e].Repr !! eager[f].Repr
    }

    function Settings(): (r: Head)
      reads this
    {
      Head(table, attrs, from, unique, fields, preds, joins, order, limit, offset, locks)
    }

    ghost function Val(): (q: Query)
      requires Valid()
      reads this, Repr
      decreases Repr
      ensures q.head == Settings() && q.with.Keys == eager.Keys
    {
      Query(Settings(), map e | e in eager :: eager[e].Val())
    }

    /** Changing a builder's own settings leaves the builders of its edges alone. */
    twostate lemma OwnSettings()
      requires old(Valid()) && eager == old(eager) && Repr == old(Repr)
      requires forall b :: b in Repr && b != this ==> unchanged(b)
      ensures Valid() && Val() == old(Val()).(head := Settings())
    {
      forall e | e in eager ensures eager[e].Valid() && eager[e].Val() == old(eager[e].Val()) {
        assert forall b :: b in eager[e].Repr ==> unchanged(b);
      }
      assert Val().with == old(Val()).with;
    }

    method Where(p: Pred)
      requires Valid()
      modifies this
      ensures Valid() && Repr == old(Repr) && eager == old(eager)
      ensures Val() == old(Val()).(head := old(Settings()).(preds := old(preds) + [p]))
    {
      preds := preds + [p];
      OwnSettings();
    }

    /** The selector modification of an M2M loader. */
    method Join(ids: seq<int>)
      requires Valid()
      modifies this
      ensures Valid() && Repr == old(Repr) && eager == old(eager)
      ensures Val() == old(Val()).(head := old(Val()).head.(joins := old(Val()).head.joins + [ids]))
    {
      joins := joins + [ids];
      OwnSettings();
    }

    method AppendFieldOnce(c: Column)
      requires Valid()
      modifies this
      ensures Valid() && Repr == old(Repr) && eager == old(eager)
      ensures Val() == old(Val()).(head := old(Settings()).(fields := AddOnce(old(fields), c)))
    {
      fields := AddOnce(fields, c);
      OwnSettings();
    }

    // Terminal operations -----------------------------------------------------

    method Limit(k: nat)
      requires Valid()
      modifies this
      ensures Valid() && Repr == old(Repr) && Val() == Limited(old(Val()), Some(k))
    {
      limit := Some(k);
      OwnSettings();
    }

    /** The first entity; the builder keeps the limit. */
    method First(db: Database) returns (r: Result<Node, QueryError>, ghost kids: set<Node>)
      requires Valid() && Ready(Val()) && ValidDb(db)
      modifies Repr
      ensures Valid() && Repr == old(Repr)
      ensures Val().head == Limited(old(Val()), Some(1)).head
      ensures match Run(db, Limited(old(Val()), Some(1)))
              case Err(x) => r == Err(Load(x))
              case Ok(ts) =>
                && Val() == After(db, Limited(old(Val()), Some(1)))
                && if ts == [] then r == Err(NoRow) else r.Ok? && Rep(r.value, ts[0], kids)
    {
      ghost var q := Val();
      ReadyHead(q, Limited(q, Some(1)).head);
      Limit(1);
      var nodes;
      nodes, kids := All(db);
      r := match nodes case Err(x) => Err(Load(x)) case Ok(ns) => if ns == [] then Err(NoRow) else Ok(ns[0]);
    }

    /** The only entity, or an error that tells none from many. */
    method Only(db: Database) returns (r: Result<Node, QueryError>, ghost kids: set<Node>)
      requires Valid() && Ready(Val()) && ValidDb(db)
      modifies Repr
      ensures Valid() && Repr == old(Repr)
      ensures Val().head == Limited(old(Val()), Some(2)).head
      ensures match Run(db, Limited(old(Val()), Some(2)))
              case Err(x) => r == Err(Load(x))
              case Ok(ts) =>
                && Val() == After(db, Limited(old(Val()), Some(2)))
                && (|ts| == 1 ==> r.Ok? && Rep(r.value, ts[0], kids))
                && (ts == [] ==> r == Err(NoRow)) && (|ts| > 1 ==> r == Err(ManyRows))
    {
      ghost var q := Val();
      ReadyHead(q, Limited(q, Some(2)).head);
      Limit(2);
      var nodes;
      nodes, kids := All(db);
      r := match nodes
           case Err(x) => Err(Load(x))
           case Ok(ns) => if |ns| == 1 then Ok(ns[0]) else if ns == [] then Err(NoRow) else Err(ManyRows);
    }

    /** The ids of the selected rows; the id stays in the field list. */
    method IDs(db: Database) returns (r: Result<seq<int>, QueryError>)
      requires Valid() && HasId(table)
      modifies this
      ensures Valid() && Repr == old(Repr) && Val() == IdSelected(old(Val()))
      ensures r == Scanned(db, old(Val()))
    {
      ScanExact(db, Val());
      if unique.None? && from.Some? {
        unique := Some(true);
      }
      fields := fields + [Id];
      OwnSettings();
      r := ScanIds(db, Settings());
    }

    method FirstID(db: Database) returns (r: Result<int, QueryError>)
      requires Valid() && HasId(table)
      modifies this
      ensures Valid() && Repr == old(Repr) && Val() == IdSelected(Limited(old(Val()), Some(1)))
      ensures match Scanned(db, Limited(old(Val()), Some(1)))
              case Err(x) => r == Err(x)
              case Ok(ids) => if ids == [] then r == Err(NoRow) else r == Ok(ids[0])
    {
      Limit(1);
      var ids := IDs(db);
      r := match ids case Err(x) => Err(x) case Ok(xs) => if |xs| == 0 then Err(NoRow) else Ok(xs[0]);
    }

    method OnlyID(db: Database) returns (r: Result<int, QueryError>)
      requires Valid() && HasId(table)
      modifies this
      ensures Valid() && Repr == old(Repr) && Val() == IdSelected(Limited(old(Val()), Some(2)))
      ensures match Scanned(db, Limited(old(Val()), Some(2)))
              case Err(x) => r == Err(x)
              case Ok(ids) => (|ids| == 1 ==> r == Ok(ids[0])) && (|ids| == 0 ==> r == Err(NoRow)) && (|ids| > 1 ==> r == Err(ManyRows))
    {
      Limit(2);
      var ids := IDs(db);
      if ids.Err? {
        return Err(ids.error);
      }
      var xs := ids.value;
      if |xs| == 1 {
        r := Ok(xs[0]);
      } else if |xs| == 0 {
        r := Err(NoRow);
      } else {
        r := Err(ManyRows);
      }
    }

    /** Whether the query has a row; a missing row is an answer here and not an error. */
    method Exist(db: Database) returns (r: Result<bool, QueryError>)
      requires Valid() && HasId(table)
      modifies this
      ensures Valid() && Repr == old(Repr) && Val() == IdSelected(Limited(old(Val()), Some(1)))
      ensures match Scanned(db, Limited(old(Val()), Some(1)))
              case Err(x) => r == Err(x)
              case Ok(ids) => r == Ok(ids != [])
    {
      var id := FirstID(db);
      r := match id case Err(NoRow) => Ok(false) case Err(x) => Err(x) case Ok(_) => Ok(true);
    }

    // Clone -------------------------------------------------------------------

    /** A copy of the whole builder tree; the lock modifiers stay behind. */
    method Clone() returns (c: QueryBuilder)
      requires Valid()
      ensures c.Valid() && fresh(c.Repr) && c.Val() == Cloned(Val())
      decreases Repr, 1
    {
      hide *;
      ghost var q := Val();
      Opened(this);
      var copies;
      ghost var reprs;
      copies, reprs := CloneEdges();
      CopiedIs(q, copies, reprs);
      c := new QueryBuilder(table, attrs, from, unique, fields, preds, joins, order, limit, offset, copies, reprs);
      CloneDone(q, c, copies);
    }

    /** The copies of the edge builders. */
    method CloneEdges() returns (copies: map<Edge, QueryBuilder>, ghost reprs: set<QueryBuilder>)
      requires Valid()
      ensures copies.Keys == Val().with.Keys && fresh(reprs) && Copied(Val(), copies, reprs)
      decreases Repr, 0
    {
      hide *;
      ghost var q := Val();
      Opened(this);
      Unfolded(this);
      ChildVals(this);
      copies, reprs := map[], {};
      NoneCopied(q);
      var todo := eager.Keys;
      while todo != {}
        invariant todo <= eager.Keys && copies.Keys == eager.Keys - todo
        invariant fresh(reprs)
        invariant Copied(q, copies, reprs)
        decreases todo
      {
        var e :| e in todo;
        var d := eager[e].Clone();
        assert Copied(q, copies, reprs);
        CopiedNext(q, copies, reprs, e, d);
        copies := copies[e := d];
        reprs := reprs + d.Repr;
        todo := todo - {e};
      }
    }

    constructor (table: Table, attrs: set<string>, from: Option<seq<Row>>, unique: Option<bool>, fields: seq<Column>,
                 preds: seq<Pred>, joins: seq<seq<int>>, order: Order, limit: Option<nat>, offset: Option<nat>, eager: map<Edge, QueryBuilder>, ghost reprs: set<QueryBuilder>)
      requires forall e :: e in eager ==> eager[e].Valid() && eager[e].Repr <= reprs
      requires forall e, f :: e in eager && f in eager && e != f ==> eager[e].Repr !! eager[f].Repr
      ensures Valid() && Repr == reprs + {this} && this.eager == eager
      ensures Settings() == Head(table, attrs, from, unique, fields, preds, joins, order, limit, offset, [])
      ensures forall e :: e in eager ==> eager[e].Val() == old(eager[e].Val())
    {
      this.table, this.attrs, this.from, this.unique := table, attrs, from, unique;
      this.fields, this.preds, this.joins := fields, preds, joins;
      this.order, this.limit, this.offset, this.locks := order, limit, offset, [];
      this.eager := eager;
      Repr := reprs + {this};
    }

    /** A terminal call on a clone leaves the original builder as it was, so its later results are its own. */
    method FirstOfClone(db: Database) returns (r: Result<Node, QueryError>, ghost kids: set<Node>)
      requires Valid() && Ready(Val()) && ValidDb(db)
      ensures Valid() && Repr == old(Repr) && Val() == old(Val())
      ensures match Run(db, Limited(old(Val()), Some(1)))
              case Err(x) => r == Err(Load(x))
              case Ok(ts) => if ts == [] then r == Err(NoRow) else r.Ok? && Rep(r.value, ts[0], kids)
    {
      hide *;
      ghost var q := Val();
      var c := Clone();
      ClonedReady(q);
      ClonedFirst(db, q);
      r, kids := c.First(db);
    }

    // Loading -----------------------------------------------------------------

    /** What an M2O loader does to the edge's builder. */
    method RestrictToIds(ids: seq<int>)
      requires Valid() && Ready(Val())
      modifies this
      ensures Valid() && Repr == old(Repr)
      ensures Val() == LinkOne(old(Val()), ids) && Ready(Val())
    {
      ReadyHead(Val(), LinkOneHead(Val().head, ids));
      Where(KeyIn(Id, ids));
    }

    /** What an O2M loader does to it. */
    method RestrictToOwners(e: Edge, ids: seq<int>)
      requires Valid() && Ready(Val())
      modifies this
      ensures Valid() && Repr == old(Repr)
      ensures Val() == LinkMany(old(Val()), e, ids) && Ready(Val())
    {
      ReadyHead(Val(), LinkManyHead(Val().head, e, ids));
      if fields != [] {
        AppendFieldOnce(FkOf(e));
      }
      Where(KeyIn(FkOf(e), ids));
    }

    /** Runs the query and its eager loads. */
    method All(db: Database) returns (r: Result<seq<Node>, LoadError>, ghost kids: set<Node>)
      requires Valid() && Ready(Val()) && ValidDb(db)
      modifies Repr
      ensures Valid() && Repr == old(Repr)
      ensures Outcome(Run(db, old(Val())), After(db, old(Val())), r, kids, this)
      ensures fresh(kids) && (r.Ok? ==> fresh(set n | n in r.value))
      ensures r.Err? ==> r.error.InvalidField?
      decreases Repr, 1
    {
      hide *;
      RunErrors(db, Val());
      ghost var q := Val();
      Opened(this);
      kids := {};
      var bad := BadField(Settings());
      if bad.Some? {
        Refused(db, q, kids, this);
        return Err(InvalidField(bad.value)), kids;
      }
      ghost var rows := NodeRows(db, q.head, q.with.Keys);
      var nodes := MakeNodes(NodeRows(db, Settings(), eager.Keys), eager.Keys);
      if nodes == [] {
        NoNodes(db, q, kids, this);
        return Ok([]), kids;
      }
      var es := EdgesOf(table);
      ghost var m: map<Edge, seq<Tree>> := map[];
      Started(db, q, rows, nodes, this);
      for k := 0 to |es|
        invariant Repr == old(Repr) && eager == old(eager) && Settings() == q.head
        invariant fresh(kids) && Loading(db, q, rows, es[..k], m, nodes, kids)
      {
        TakeNext(es, k);
        if es[k] in eager {
          EdgeOnce(q.head.table, k);
          StillOpen(db, q, rows, es[..k], m, nodes, kids, this);
          ghost var below, loaded;
          var failed;
          failed, below, loaded := NextLoad(db, q, rows, es[..k], es[k], m, nodes, kids);
          kids, m := below, loaded;
          if failed.Some? {
            LoadFailed(db, q, rows, es, k + 1, {}, failed.value, this);
            return Err(failed.value), {};
          }
        } else {
          SkipEdge(db, q, rows, es[..k], es[k], m, nodes, kids, this);
        }
      }
      assert es[..|es|] == es;
      RunDone(db, q, rows, m, nodes, kids, this);
      return Ok(nodes), kids;
    }

    /** Runs the loader of one edge; the builders of the other edges are left alone. */
    method RunEdge(db: Database, e: Edge, nodes: seq<Node>) returns (r: Option<LoadError>, ghost kids: set<Node>)
      requires Valid() && ValidDb(db) && e in eager && Ready(eager[e].Val())
      requires eager[e].Val().head.table == Target(e) && Distinct(nodes)
      requires forall n :: n in nodes ==> e !in n.one && e !in n.many
      modifies eager[e].Repr, nodes
      ensures Valid() && Repr == old(Repr) && eager == old(eager) && Settings() == old(Settings())
      ensures forall f :: f in eager ==> f == e || eager[f].Val() == old(eager[f].Val())
      ensures Loaded(db, old(eager[e].Val()), e, nodes, r, kids, eager[e])
      ensures r.None? ==> fresh(kids) && forall n :: n in nodes ==> OnlyAt(old(n.one), n.one, e) && OnlyAt(old(n.many), n.many, e)
      decreases Repr, 0, 0
    {
      hide *;
      Unfolded(this);
      r, kids := LoadEdge(db, eager[e], e, nodes);
      Folded(this);
    }

    /** Loads one more edge. */
    method NextLoad(db: Database, ghost q: Query, ghost rows: seq<Row>, ghost done: seq<Edge>, e: Edge,
                    ghost m: map<Edge, seq<Tree>>, nodes: seq<Node>, ghost kids: set<Node>)
      returns (failed: Option<LoadError>, ghost all: set<Node>, ghost m': map<Edge, seq<Tree>>)
      requires Ready(q) && ValidDb(db) && e in eager && e !in done
      requires Loading(db, q, rows, done, m, nodes, kids)
      modifies eager[e].Repr, nodes
      ensures Valid() && Repr == old(Repr) && eager == old(eager)
      ensures Settings() == old(Settings())
      ensures failed.Some? ==> Loads(db, q, rows, done + [e]) == Err(failed.value)
      ensures failed.None? ==> Loading(db, q, rows, done + [e], m', nodes, all) && fresh(all - kids)
      decreases Repr, 0, 1
    {
      hide *;
      LoadsSnoc(db, q, rows, done, e);
      FilledSnapshot(db, q, rows, done, m, nodes, kids, this);
      ghost var ones, manys := Ones(nodes), Manys(nodes);
      Unvalued(db, q, rows, done, m, nodes, kids, this);
      NextReady(db, q, rows, done, e, m, nodes, kids, this);
      ghost var below;
      failed, below := RunEdge(db, e, nodes);
      Unfolded(this);
      LoadedIs(db, q.with[e], rows, e, nodes, failed, below, eager[e]);
      all, m' := kids, m;
      if failed.None? {
        all := kids + below;
        ghost var ts := Neighbors(db, q.with[e], rows, e).value;
        m' := m[e := ts];
        NextFilled(db, q, rows, m, nodes, ones, manys, e, ts, kids, below);
        NextLoading(db, q, rows, done, e, m, ts, nodes, all, this);
      }
    }

    /** The state between two edges. */
    ghost predicate Loading(db: Database, q: Query, rows: seq<Row>, done: seq<Edge>, m: map<Edge, seq<Tree>>,
                            nodes: seq<Node>, kids: set<Node>)
      reads this, Repr, nodes, kids
    {
      && Valid() && Progress(db, q, rows, done) && Loads(db, q, rows, done) == Ok(m)
      && Filled(db, q, rows, m, nodes, kids) && forall n :: n in nodes ==> n !in kids
    }

    /** Which edge builders have run. */
    ghost predicate Progress(db: Database, q: Query, rows: seq<Row>, done: seq<Edge>)
      requires Valid()
      reads this, Repr
    {
      && Settings() == q.head && eager.Keys == q.with.Keys
      && forall e :: e in eager ==>
        eager[e].Val() == if e in done then AfterEdge(db, q.with[e], rows, e) else q.with[e]
    }
  }

  /** `Loaded`, taken apart. */
  lemma LoadedIs(db: Database, c: Query, rows: seq<Row>, e: Edge, nodes: seq<Node>, r: Option<LoadError>, kids: set<Node>, query: QueryBuilder)
    requires query.Valid() && Rows(nodes) == rows && Loaded(db, c, e, nodes, r, kids, query)
    ensures r.Some? ==> Neighbors(db, c, rows, e) == Err(r.value)
    ensures r.None? ==> Neighbors(db, c, rows, e).Ok? && query.Val() == AfterEdge(db, c, rows, e) && Shared(nodes, e)
    ensures r.None? ==> DeepAt(Ones(nodes), Manys(nodes), e, AfterEdge(db, c, rows, e), kids)
    ensures r.None? ==> forall i :: 0 <= i < |nodes| ==>
      RepLink(nodes[i], e, LinkFor(db, c, rows, e, Neighbors(db, c, rows, e).value, i), kids)
  {}

  lemma Unfolded(b: QueryBuilder)
    requires b.Valid()
    ensures b in b.Repr
    ensures forall e :: e in b.eager ==>
      b.eager[e] in b.Repr && b.eager[e].Repr <= b.Repr && b !in b.eager[e].Repr && b.eager[e].Valid()
    ensures forall e, f :: e in b.eager && f in b.eager && e != f ==> b.eager[e].Repr !! b.eager[f].Repr
  {}

  lemma Folded(b: QueryBuilder)
    requires b in b.Repr
    requires forall e :: e in b.eager ==>
      b.eager[e] in b.Repr && b.eager[e].Repr <= b.Repr && b !in b.eager[e].Repr && b.eager[e].Valid()
    requires forall e, f :: e in b.eager && f in b.eager && e != f ==> b.eager[e].Repr !! b.eager[f].Repr
    ensures b.Valid()
  {}

  lemma Unvalued(db: Database, q: Query, rows: seq<Row>, done: seq<Edge>, m: map<Edge, seq<Tree>>,
                 nodes: seq<Node>, kids: set<Node>, b: QueryBuilder)
    requires b.Loading(db, q, rows, done, m, nodes, kids)
    ensures b.Valid() && Loads(db, q, rows, done) == Ok(m) && forall n :: n in nodes ==> n !in kids
    ensures b.Settings() == q.head && b.eager.Keys == q.with.Keys
    ensures forall f :: f in b.eager ==>
      b.eager[f].Valid() && b.eager[f].Val() == if f in done then AfterEdge(db, q.with[f], rows, f) else q.with[f]
  {}

  lemma NextLoading(db: Database, q: Query, rows: seq<Row>, done: seq<Edge>, e: Edge, m: map<Edge, seq<Tree>>, ts: seq<Tree>,
                    nodes: seq<Node>, all: set<Node>, b: QueryBuilder)
    requires b.Valid() && e in b.eager && b.Settings() == q.head && b.eager.Keys == q.with.Keys
    requires forall f :: f in b.eager ==>
      f == e || b.eager[f].Val() == if f in done then AfterEdge(db, q.with[f], rows, f) else q.with[f]
    requires b.eager[e].Val() == AfterEdge(db, q.with[e], rows, e)
    requires Loads(db, q, rows, done + [e]) == Ok(m[e := ts])
    requires Filled(db, q, rows, m[e := ts], nodes, all) && forall n :: n in nodes ==> n !in all
    ensures b.Loading(db, q, rows, done + [e], m[e := ts], nodes, all)
  {
    hide Filled, Loads, AfterEdge, QueryBuilder.Val, QueryBuilder.Valid, QueryBuilder.Settings;
  }

  /** What the loader of the next edge needs. */
  lemma NextReady(db: Database, q: Query, rows: seq<Row>, done: seq<Edge>, e: Edge, m: map<Edge, seq<Tree>>,
                  nodes: seq<Node>, kids: set<Node>, b: QueryBuilder)
    requires Ready(q) && e in b.eager && e !in done && b.Loading(db, q, rows, done, m, nodes, kids)
    ensures e in q.with && e !in m && Rows(nodes) == rows && Distinct(nodes)
    ensures b.eager[e].Valid() && b.eager[e].Repr <= b.Repr && b.eager[e] in b.Repr && b !in b.eager[e].Repr
    ensures b.eager[e].Val() == q.with[e] && Ready(q.with[e]) && q.with[e].head.table == Target(e)
    ensures forall n :: n in nodes ==> e !in n.one && e !in n.many && n.loaded == q.with.Keys
  {
    forall n | n in nodes ensures e !in n.one && e !in n.many {
      var i :| 0 <= i < |nodes| && nodes[i] == n;
      assert RepEdges(nodes[i], Assemble(db, q, rows, m, i).edges, kids);
    }
  }

  lemma FilledSnapshot(db: Database, q: Query, rows: seq<Row>, done: seq<Edge>, m: map<Edge, seq<Tree>>,
                       nodes: seq<Node>, kids: set<Node>, b: QueryBuilder)
    requires b.Loading(db, q, rows, done, m, nodes, kids)
    ensures b.Valid()
    ensures WereFilled(db, q, rows, m, Ones(nodes), Manys(nodes), kids)
  {
    forall i | 0 <= i < |rows| ensures FilledAt(db, q, rows, m, i, nodes[i].one, nodes[i].many, kids) {
      assert RepEdges(nodes[i], Assemble(db, q, rows, m, i).edges, kids);
      forall f | f in m ensures RepAt(nodes[i].one, nodes[i].many, f, Assemble(db, q, rows, m, i).edges[f], kids) {
        assert RepLink(nodes[i], f, Assemble(db, q, rows, m, i).edges[f], kids);
      }
    }
    forall f ensures SharedIn(rows, Ones(nodes), Manys(nodes), f) {
      assert Shared(nodes, f);
    }
  }

  lemma SkipEdge(db: Database, q: Query, rows: seq<Row>, done: seq<Edge>, e: Edge, m: map<Edge, seq<Tree>>,
                 nodes: seq<Node>, kids: set<Node>, b: QueryBuilder)
    requires b.Loading(db, q, rows, done, m, nodes, kids) && e !in b.eager
    ensures b.Loading(db, q, rows, done + [e], m, nodes, kids)
  {
    LoadsSnoc(db, q, rows, done, e);
  }

  lemma Opened(b: QueryBuilder)
    requires b.Valid()
    ensures b.table == b.Val().head.table && b.Settings() == b.Val().head && b.eager.Keys == b.Val().with.Keys
    ensures b.Val().head == Head(b.table, b.attrs, b.from, b.unique, b.fields, b.preds, b.joins, b.order, b.limit, b.offset, b.locks)
  {}

  lemma StillOpen(db: Database, q: Query, rows: seq<Row>, done: seq<Edge>, m: map<Edge, seq<Tree>>,
                  nodes: seq<Node>, kids: set<Node>, b: QueryBuilder)
    requires b.Loading(db, q, rows, done, m, nodes, kids)
    ensures b.Valid() && forall e :: e in b.eager ==> b.eager[e].Repr <= b.Repr
  {}

  lemma Refused(db: Database, q: Query, kids: set<Node>, b: QueryBuilder)
    requires b.Valid() && b.Val() == q && BadField(q.head).Some?
    ensures Outcome(Run(db, q), After(db, q), Err(InvalidField(BadField(q.head).value)), kids, b)
  {
    hide After;
  }

  lemma LoadFailed(db: Database, q: Query, rows: seq<Row>, es: seq<Edge>, k: nat, kids: set<Node>, x: LoadError, b: QueryBuilder)
    requires b.Valid() && BadField(q.head).None? && rows == NodeRows(db, q.head, q.with.Keys) && rows != []
    requires b.Settings() == q.head && b.eager.Keys == q.with.Keys
    requires es == EdgesOf(q.head.table) && k <= |es| && Loads(db, q, rows, es[..k]) == Err(x)
    ensures Outcome(Run(db, q), After(db, q), Err(x), kids, b)
  {
    LoadsFail(db, q, rows, es, k);
  }

  lemma Started(db: Database, q: Query, rows: seq<Row>, nodes: seq<Node>, b: QueryBuilder)
    requires b.Valid() && b.Val() == q && Rows(nodes) == rows && Distinct(nodes)
    requires forall n :: n in nodes ==> n.loaded == q.with.Keys && n.one == map[] && n.many == map[]
    ensures b.Loading(db, q, rows, [], map[], nodes, {})
  {
    hide Filled, AfterEdge;
    StartedFilled(db, q, rows, nodes);
  }

  lemma NoNodes(db: Database, q: Query, kids: set<Node>, b: QueryBuilder)
    requires b.Valid() && b.Val() == q && BadField(q.head).None? && NodeRows(db, q.head, q.with.Keys) == []
    ensures Outcome(Run(db, q), After(db, q), Ok([]), kids, b)
  {
    SharedNone(q, kids);
    assert Elems([]) == {};
  }

  lemma RunDone(db: Database, q: Query, rows: seq<Row>, m: map<Edge, seq<Tree>>, nodes: seq<Node>, kids: set<Node>, b: QueryBuilder)
    requires Ready(q) && BadField(q.head).None? && rows == NodeRows(db, q.head, q.with.Keys) && rows != []
    requires b.Loading(db, q, rows, EdgesOf(q.head.table), m, nodes, kids)
    ensures b.Valid() && Outcome(Run(db, q), After(db, q), Ok(nodes), kids, b)
  {
    hide LinkFor, Filled, AfterEdge;
    assert m.Keys == q.with.Keys;
    FilledRep(db, q, rows, m, nodes, kids);
    var ts := seq(|rows|, i requires 0 <= i < |rows| => Assemble(db, q, rows, m, i));
    assert Run(db, q) == Ok(ts);
    assert RepAll(nodes, ts, kids);
    ProgressAfter(db, q, rows, b);
    FilledShared(db, q, rows, m, nodes, kids, After(db, q));
  }

  lemma ProgressAfter(db: Database, q: Query, rows: seq<Row>, b: QueryBuilder)
    requires Ready(q) && rows == NodeRows(db, q.head, q.with.Keys) && rows != []
    requires b.Valid() && b.Progress(db, q, rows, EdgesOf(q.head.table))
    ensures b.Val() == After(db, q)
  {
    hide AfterEdge;
    assert b.Val().with == After(db, q).with;
  }

  /** A run returns the expected trees, in objects that are shared at every depth, or the expected error,
      and leaves its builder as expected; after an error the builder's own settings are as expected. */
  ghost predicate Outcome(expected: Result<seq<Tree>, LoadError>, after: Query,
                          r: Result<seq<Node>, LoadError>, kids: set<Node>, b: QueryBuilder)
    requires b.Valid()
    reads b, b.Repr, kids, if r.Ok? then set n | n in r.value else {}
  {
    && b.Settings() == after.head && b.eager.Keys == after.with.Keys
    && match expected
       case Err(x) => r == Err(x)
       case Ok(ts) => r.Ok? && b.Val() == after && Delivered(r.value, ts, kids) && SharedTree(Elems(r.value), after, kids)
  }

  method LoadEdge(db: Database, query: QueryBuilder, e: Edge, nodes: seq<Node>)
    returns (r: Option<LoadError>, ghost kids: set<Node>)
    requires query.Valid() && Ready(query.Val()) && ValidDb(db)
    requires query.Val().head.table == Target(e) && Distinct(nodes)
    requires forall n :: n in nodes ==> e !in n.one && e !in n.many
    modifies query.Repr, nodes
    ensures query.Valid() && query.Repr == old(query.Repr)
    ensures Loaded(db, old(query.Val()), e, nodes, r, kids, query)
    ensures r.None? ==> fresh(kids) && forall n :: n in nodes ==> OnlyAt(old(n.one), n.one, e) && OnlyAt(old(n.many), n.many, e)
    decreases query.Repr, 4
  {
    match ShapeOf(e) {
      case M2O => r, kids := LoadOne(db, query, e, nodes);
      case O2M => r, kids := LoadMany(db, query, e, nodes);
      case M2M => r, kids := LoadJoined(db, query, e, nodes);
    }
  }

  /** The outcome of loading one edge, in terms of the batched meaning of its query. */
  ghost predicate Loaded(db: Database, c: Query, e: Edge, nodes: seq<Node>, r: Option<LoadError>, kids: set<Node>, query: QueryBuilder)
    requires query.Valid()
    reads nodes, kids, query, query.Repr
  {
    match Neighbors(db, c, Rows(nodes), e)
    case Err(x) => r == Some(x)
    case Ok(ts) =>
      && r == None
      && query.Val() == AfterEdge(db, c, Rows(nodes), e)
      && (forall i :: 0 <= i < |nodes| ==> RepLink(nodes[i], e, LinkFor(db, c, Rows(nodes), e, ts, i), kids))
      && Shared(nodes, e)
      && DeepAt(Ones(nodes), Manys(nodes), e, query.Val(), kids)
  }

  /** M2O: one query for all referenced ids; none when nothing is referenced. */
  method FetchOne(db: Database, query: QueryBuilder, e: Edge, nodes: seq<Node>)
    returns (res: Result<seq<Node>, LoadError>, nodeids: map<int, seq<Node>>, ghost kids: set<Node>)
    requires query.Valid() && Ready(query.Val()) && ValidDb(db) && ShapeOf(e) == M2O
    requires HasId(query.Val().head.table)
    modifies query.Repr
    ensures query.Valid() && query.Repr == old(query.Repr)
    ensures forall k :: k in nodeids ==> nodeids[k] == PickIn(nodes, FkKeys(e, Rows(nodes)), {k})
    ensures Outcome(Neighbors(db, old(query.Val()), Rows(nodes), e), AfterEdge(db, old(query.Val()), Rows(nodes), e), res, kids, query)
    ensures fresh(kids) && (res.Ok? ==> fresh(set n | n in res.value))
    ensures res.Ok? ==> forall x :: x in res.value ==> IdOf(x.row) in nodeids
    decreases query.Repr, 2
  {
    hide *;
    ghost var c := query.Val();
    kids := {};
    var ids;
    ids, nodeids := IndexByFk(nodes, e);
    IndexedKeys(ids, nodeids, nodes, e);
    OneStep(db, c, Rows(nodes), e, ids);
    if ids == [] {
      res := Ok([]);
      NothingFetched(c, kids, query);
    } else {
      query.RestrictToIds(ids);
      res, kids := query.All(db);
      FetchedIds(db, c, ids, res, kids, query);
    }
  }

  lemma NothingFetched(c: Query, kids: set<Node>, query: QueryBuilder)
    requires query.Valid() && query.Val() == c
    ensures Outcome(Ok([]), c, Ok([]), kids, query)
  {
    SharedNone(c, kids);
    assert Elems([]) == {};
  }

  lemma FetchedIds(db: Database, c: Query, ids: seq<int>, res: Result<seq<Node>, LoadError>, kids: set<Node>, query: QueryBuilder)
    requires query.Valid() && HasId(c.head.table)
    requires Outcome(Run(db, LinkOne(c, ids)), After(db, LinkOne(c, ids)), res, kids, query)
    ensures res.Ok? ==> forall x :: x in res.value ==> IdOf(x.row) in ids
  {
    if res.Ok? {
      LinkOneIds(db, c, ids);
      DeliveredIds(res.value, Run(db, LinkOne(c, ids)).value, kids, ids);
    }
  }

  method LoadOne(db: Database, query: QueryBuilder, e: Edge, nodes: seq<Node>)
    returns (r: Option<LoadError>, ghost kids: set<Node>)
    requires query.Valid() && Ready(query.Val()) && ValidDb(db) && ShapeOf(e) == M2O
    requires HasId(query.Val().head.table)
    requires forall n :: n in nodes ==> e !in n.one && e !in n.many
    modifies query.Repr, nodes
    ensures query.Valid() && query.Repr == old(query.Repr)
    ensures Loaded(db, old(query.Val()), e, nodes, r, kids, query)
    ensures r.None? ==> fresh(kids) && forall n :: n in nodes ==> OnlyAt(old(n.one), n.one, e) && OnlyAt(old(n.many), n.many, e)
    decreases query.Repr, 3
  {
    hide *;
    ghost var c := query.Val();
    ghost var before := seq(|nodes|, i requires 0 <= i < |nodes| reads nodes => nodes[i].one);
    var res, nodeids;
    res, nodeids, kids := FetchOne(db, query, e, nodes);
    if res.Err? {
      r := Some(res.error);
      FetchFailed(db, c, e, nodes, res, kids, query);
    } else {
      r := AssignOne(nodes, nodeids, res.value, e);
      assert Outcome(Neighbors(db, c, Rows(nodes), e), AfterEdge(db, c, Rows(nodes), e), res, kids, query);
      OneFilled(db, c, e, nodes, before, res.value, kids, query);
      forall n | n in nodes ensures OnlyAt(old(n.one), n.one, e) && OnlyAt(old(n.many), n.many, e) {
        AssignedOnly(old(n.one), e, FkValue(e, n.row), res.value);
        OnlySame(n.many, e);
      }
      ElemsAre(res.value);
      kids := kids + Elems(res.value);
    }
  }

  lemma FetchFailed(db: Database, c: Query, e: Edge, nodes: seq<Node>, res: Result<seq<Node>, LoadError>, kids: set<Node>, query: QueryBuilder)
    requires query.Valid() && res.Err?
    requires Outcome(Neighbors(db, c, Rows(nodes), e), AfterEdge(db, c, Rows(nodes), e), res, kids, query)
    ensures Loaded(db, c, e, nodes, Some(res.error), kids, query)
  {}

  lemma OneFilled(db: Database, c: Query, e: Edge, nodes: seq<Node>, before: seq<map<Edge, Node>>,
                  neighbors: seq<Node>, kids: set<Node>, query: QueryBuilder)
    requires ShapeOf(e) == M2O && |before| == |nodes| && query.Valid()
    requires Outcome(Neighbors(db, c, Rows(nodes), e), AfterEdge(db, c, Rows(nodes), e), Ok(neighbors), kids, query)
    requires forall i :: 0 <= i < |nodes| ==> e !in nodes[i].many
    requires forall i :: 0 <= i < |nodes| ==>
      e !in before[i] && nodes[i].one == Assigned(before[i], e, FkValue(e, nodes[i].row), neighbors)
    ensures Loaded(db, c, e, nodes, None, kids + Elems(neighbors), query)
  {
    hide RepLink, LinkFor, Shared, DeepAt, Neighbors, AfterEdge;
    forall i | 0 <= i < |nodes| && e in nodes[i].one ensures nodes[i].one[e] in neighbors {
      AssignedFrom(before[i], e, FkValue(e, nodes[i].row), neighbors);
    }
    DeepFrom(nodes, e, neighbors, query.Val(), kids);
    RepOne(db, c, e, nodes, before, neighbors, Neighbors(db, c, Rows(nodes), e).value, kids);
  }

  /** The edge builders copied so far: fresh trees of builders, apart from one another. */
  ghost predicate Copied(q: Query, copies: map<Edge, QueryBuilder>, reprs: set<QueryBuilder>)
    reads reprs, set e | e in copies :: copies[e]
  {
    && copies.Keys <= q.with.Keys
    && (forall e :: e in copies ==> copies[e] in reprs && copies[e].Repr <= reprs && copies[e].Valid())
    && (forall e :: e in copies ==> copies[e].Val() == Cloned(q.with[e]))
    && forall e, f :: e in copies && f in copies && e != f ==> copies[e].Repr !! copies[f].Repr
  }

  lemma NoneCopied(q: Query)
    ensures Copied(q, map[], {})
  {}

  lemma CopiedNext(q: Query, copies: map<Edge, QueryBuilder>, reprs: set<QueryBuilder>, e: Edge, d: QueryBuilder)
    requires Copied(q, copies, reprs) && e in q.with && e !in copies
    requires d.Valid() && d.Repr !! reprs && d.Val() == Cloned(q.with[e])
    ensures Copied(q, copies[e := d], reprs + d.Repr)
  {
    hide Cloned, QueryBuilder.Val;
    var m := copies[e := d];
    forall f | f in m
      ensures m[f] in reprs + d.Repr && m[f].Repr <= reprs + d.Repr && m[f].Valid() && m[f].Val() == Cloned(q.with[f])
    {
      if f == e {
        Unfolded(d);
      } else {
        assert f in copies;
      }
    }
    forall f, g | f in m && g in m && f != g ensures m[f].Repr !! m[g].Repr {
      assert f != e ==> copies[f].Repr <= reprs;
      assert g != e ==> copies[g].Repr <= reprs;
    }
  }

  lemma CopiedIs(q: Query, copies: map<Edge, QueryBuilder>, reprs: set<QueryBuilder>)
    requires Copied(q, copies, reprs)
    ensures forall e :: e in copies ==> copies[e].Valid() && copies[e].Repr <= reprs && e in q.with && copies[e].Val() == Cloned(q.with[e])
    ensures forall e, f :: e in copies && f in copies && e != f ==> copies[e].Repr !! copies[f].Repr
  {}

  lemma ChildVals(b: QueryBuilder)
    requires b.Valid()
    ensures forall e :: e in b.eager ==> e in b.Val().with && b.eager[e].Valid() && b.eager[e].Val() == b.Val().with[e]
  {}

  lemma CloneDone(q: Query, c: QueryBuilder, copies: map<Edge, QueryBuilder>)
    requires c.Valid() && c.eager == copies && copies.Keys == q.with.Keys
    requires c.Settings() == Head(q.head.table, q.head.attrs, q.head.from, q.head.unique, q.head.fields, q.head.preds, q.head.joins, q.head.order, q.head.limit, q.head.offset, [])
    requires forall e :: e in copies ==> copies[e].Valid() && copies[e].Val() == Cloned(q.with[e])
    ensures c.Val() == Cloned(q)
  {
    assert c.Val().with == Cloned(q).with;
  }

  /** O2M: every returned key is found in the id map. */
  lemma FetchedFks(db: Database, c: Query, e: Edge, nodes: seq<Node>, nodeids: map<int, Node>,
                   res: Result<seq<Node>, LoadError>, kids: set<Node>, query: QueryBuilder)
    requires query.Valid() && ShapeOf(e) == O2M && c.head.table == Target(e) && ById(nodeids, nodes)
    requires Outcome(Neighbors(db, c, Rows(nodes), e), AfterEdge(db, c, Rows(nodes), e), res, kids, query)
    ensures res.Ok? ==> Keyed(res.value, e, nodeids)
  {
    ManyStep(db, c, Rows(nodes), e);
    if res.Ok? {
      LinkManyFks(db, c, e, Ids(Rows(nodes)));
      FksKeyed(e, nodes, nodeids, res.value, Run(db, LinkMany(c, e, Ids(Rows(nodes)))).value);
    }
  }

  method LoadMany(db: Database, query: QueryBuilder, e: Edge, nodes: seq<Node>)
    returns (r: Option<LoadError>, ghost kids: set<Node>)
    requires query.Valid() && Ready(query.Val()) && ValidDb(db) && ShapeOf(e) == O2M
    requires query.Val().head.table == Target(e) && Distinct(nodes)
    requires forall n :: n in nodes ==> e !in n.one && e !in n.many
    modifies query.Repr, nodes
    ensures query.Valid() && query.Repr == old(query.Repr)
    ensures Loaded(db, old(query.Val()), e, nodes, r, kids, query)
    ensures r.None? ==> fresh(kids) && forall n :: n in nodes ==> OnlyAt(old(n.one), n.one, e) && OnlyAt(old(n.many), n.many, e)
    decreases query.Repr, 3
  {
    hide *;
    ghost var c := query.Val();
    var fks, nodeids := IndexById(nodes, e);
    assert query.Valid() && query.Val() == c;
    ManyStep(db, c, Rows(nodes), e);
    query.RestrictToOwners(e, fks);
    var res;
    res, kids := query.All(db);
    if res.Err? {
      r := Some(res.error);
      FetchFailed(db, c, e, nodes, res, kids, query);
    } else {
      FetchedFks(db, c, e, nodes, nodeids, res, kids, query);
      r := AppendMany(nodes, nodeids, res.value, e);
      assert Outcome(Neighbors(db, c, Rows(nodes), e), AfterEdge(db, c, Rows(nodes), e), res, kids, query);
      ManyFilled(db, c, e, nodes, res.value, kids, query);
      forall n | n in nodes ensures OnlyAt(old(n.one), n.one, e) && OnlyAt(old(n.many), n.many, e) {
        var i :| 0 <= i < |nodes| && nodes[i] == n;
        var share := Share(nodes, i, res.value, FkKeys(e, Rows(res.value)));
        SharedOnly(old(n.many), e, share);
        OnlySame(n.one, e);
      }
      ElemsAre(res.value);
      kids := kids + Elems(res.value);
    }
  }

  lemma ManyFilled(db: Database, c: Query, e: Edge, nodes: seq<Node>, neighbors: seq<Node>, kids: set<Node>, query: QueryBuilder)
    requires ShapeOf(e) == O2M && query.Valid()
    requires Outcome(Neighbors(db, c, Rows(nodes), e), AfterEdge(db, c, Rows(nodes), e), Ok(neighbors), kids, query)
    requires forall i :: 0 <= i < |nodes| ==> e !in nodes[i].one
    requires forall i :: 0 <= i < |nodes| ==> e in nodes[i].many && nodes[i].many[e] == Share(nodes, i, neighbors, FkKeys(e, Rows(neighbors)))
    ensures Loaded(db, c, e, nodes, None, kids + Elems(neighbors), query)
  {
    hide RepLink, LinkFor, DeepAt, Neighbors, AfterEdge, Share;
    forall i, x | 0 <= i < |nodes| && x in nodes[i].many[e] ensures x in neighbors {
      ShareFrom(nodes, i, neighbors, FkKeys(e, Rows(neighbors)));
    }
    DeepFrom(nodes, e, neighbors, query.Val(), kids);
    RepMany(db, c, e, nodes, neighbors, Neighbors(db, c, Rows(nodes), e).value, kids);
    assert Shared(nodes, e);
  }

  method LoadJoined(db: Database, query: QueryBuilder, e: Edge, nodes: seq<Node>)
    returns (r: Option<LoadError>, ghost kids: set<Node>)
    requires query.Valid() && ShapeOf(e) == M2M
    requires query.Val().head.table == Groups && query.Val().with == map[] && Distinct(nodes)
    requires forall n :: n in nodes ==> e !in n.one && e !in n.many
    modifies query.Repr, nodes
    ensures query.Valid() && query.Repr == old(query.Repr)
    ensures Loaded(db, old(query.Val()), e, nodes, r, kids, query)
    ensures r.None? ==> JoinedOnce(nodes, e, JoinSelect(db, old(query.Val()).head, Ids(Rows(nodes))))
    ensures r.None? ==> fresh(kids) && forall n :: n in nodes ==> OnlyAt(old(n.one), n.one, e) && OnlyAt(old(n.many), n.many, e)
    decreases query.Repr, 3
  {
    hide *;
    ghost var c := query.Val();
    var edgeIds, byId := IndexById(nodes, e);
    assert query.Valid() && query.Val() == c;
    query.Join(edgeIds);
    kids := {};
    Opened(query);
    var h := query.Settings();
    JoinStep(db, c, h, edgeIds);
    var bad := BadField(h);
    if bad.Some? {
      r := Some(InvalidField(bad.value));
      JoinFailed(db, c, e, nodes, kids, query);
    } else {
      var pairs := JoinSelect(db, h, edgeIds);
      OutsOwned(db, c.head, nodes, byId);
      var groups;
      r, groups := AttachJoined(nodes, e, pairs, byId, h);
      MadeAlike(groups, h, c.head, pairs);
      JoinFilled(db, c, e, nodes, groups, query);
      forall n | n in nodes ensures OnlyAt(old(n.one), n.one, e) && OnlyAt(old(n.many), n.many, e) {
        var i :| 0 <= i < |nodes| && nodes[i] == n;
        SharedOnly(old(n.many), e, Joined(nodes, i, groups, pairs));
        OnlySame(n.one, e);
      }
      ElemsAre(groups);
      kids := Elems(groups);
    }
  }

  /** The added join changes neither the columns nor the rows that the hook sees. */
  lemma JoinStep(db: Database, c: Query, h: Head, ids: seq<int>)
    requires h == c.head.(joins := h.joins) && c.head.table == Groups
    ensures BadField(h) == BadField(c.head) && JoinSelect(db, h, ids) == JoinSelect(db, c.head, ids) && HasId(h.table)
  {}

  lemma MadeAlike(groups: seq<Node>, h: Head, h': Head, pairs: seq<(int, Row)>)
    requires MadeOf(groups, h, pairs) && h == h'.(joins := h.joins)
    ensures MadeOf(groups, h', pairs)
  {
    hide FirstRows;
    assert ProjectAll(h, {}, FirstRows(pairs)) == ProjectAll(h', {}, FirstRows(pairs));
  }

  lemma JoinFailed(db: Database, c: Query, e: Edge, nodes: seq<Node>, kids: set<Node>, query: QueryBuilder)
    requires query.Valid() && ShapeOf(e) == M2M && c.head.table == Groups && c.with == map[] && BadField(c.head).Some?
    ensures Loaded(db, c, e, nodes, Some(InvalidField(BadField(c.head).value)), kids, query)
  {
    RunJoined(db, c, Ids(Rows(nodes)));
  }

  lemma JoinFilled(db: Database, c: Query, e: Edge, nodes: seq<Node>, groups: seq<Node>, query: QueryBuilder)
    requires ShapeOf(e) == M2M && c.head.table == Groups && c.with == map[] && BadField(c.head).None?
    requires query.Valid() && query.Val() == c.(head := c.head.(joins := c.head.joins + [Ids(Rows(nodes))]))
    requires forall i :: 0 <= i < |nodes| ==> e !in nodes[i].one
    requires var pairs := JoinSelect(db, c.head, Ids(Rows(nodes)));
      && MadeOf(groups, c.head, pairs) && JoinedOnce(nodes, e, pairs)
      && forall i :: 0 <= i < |nodes| ==> e in nodes[i].many && nodes[i].many[e] == Joined(nodes, i, groups, pairs)
    ensures Loaded(db, c, e, nodes, None, Elems(groups), query)
  {
    hide RepLink, LinkFor, Shared, DeepAt, JoinSelect, FirstRows, MadeOf, JoinedOnce, Joined;
    var pairs := JoinSelect(db, c.head, Ids(Rows(nodes)));
    RunJoined(db, c, Ids(Rows(nodes)));
    assert Neighbors(db, c, Rows(nodes), e) == Ok(LeafTrees(c.head, FirstRows(pairs)));
    JoinLinks(db, c, e, nodes, groups);
    JoinedShared(nodes, e, pairs);
    forall i, x | 0 <= i < |nodes| && x in nodes[i].many[e] ensures x in groups {
      JoinedFrom(nodes, i, groups, pairs);
    }
    assert SharedTree(Elems(groups), query.Val(), {});
    DeepFrom(nodes, e, groups, query.Val(), {});
    assert {} + Elems(groups) == Elems(groups);
  }
}
