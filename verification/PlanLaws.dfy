/** The batched loaders build what the per-node queries would build. */
module PlanLaws {
  import opened Collections
  import opened Store
  import opened Plan

  /** Neither limit nor offset; a zero is the same as an absent value. */
  predicate Open(h: Head) {
    h.limit in {None, Some(0)} && h.offset in {None, Some(0)}
  }

  /** No edge query is cut to a window; the root may be. */
  ghost predicate Unwindowed(q: Query)
    decreases q
  {
    forall e :: e in q.with ==> Open(q.with[e].head) && Unwindowed(q.with[e])
  }

  ghost predicate FieldsOk(q: Query)
    decreases q
  {
    BadField(q.head).None? && forall e :: e in q.with ==> FieldsOk(q.with[e])
  }

  ghost function HollowLink(l: Link): (r: Link) {
    if l.Many? then Many([]) else l
  }

  /** The to-many edges of a shadowed duplicate are loaded but empty. */
  ghost function Hollow(t: Tree): (r: Tree) {
    Tree(t.row, map e | e in t.edges :: HollowLink(t.edges[e]))
  }

  // Projection --------------------------------------------------------------

  /** A node keeps the foreign keys that its own M2O edges follow. */
  lemma ProjectFk(h: Head, loaded: set<Edge>, raw: Row, e: Edge)
    requires e in loaded && e in EdgesOf(h.table) && ShapeOf(e) == M2O
    ensures FkValue(e, Project(h, loaded, raw)) == FkValue(e, raw)
  {
    assert h.fields != [] ==> FkOf(e) in SelectColumns(h, loaded);
  }

  /** A child query keeps the key by which its rows are shared out. */
  lemma ProjectChildFk(h: Head, e: Edge, ids: seq<int>, loaded: set<Edge>, raw: Row)
    requires ShapeOf(e) == O2M && h.table == Target(e)
    ensures FkValue(e, Project(LinkManyHead(h, e, ids), loaded, raw)) == FkValue(e, raw)
  {
    var l := LinkManyHead(h, e, ids);
    if l.fields != [] {
      assert FkOf(e) in l.fields;
      var cols := if HasId(l.table) then [Id] + WithoutId(l.fields) else l.fields;
      assert FkOf(e) in cols;
      assert cols <= SelectColumns(l, loaded);
    }
  }

  // Selection ---------------------------------------------------------------

  lemma OpenWindow<T>(h: Head, xs: seq<T>)
    requires Open(h)
    ensures Window(h.limit, h.offset, xs) == xs
  {}

  /** Every selected row is a source row that meets the conditions. */
  lemma SelectMembers(db: Database, h: Head)
    ensures forall r :: r in SelectRows(db, h) ==>
      r in Source(db, h) && Keep(h.preds, r)
  {
    var source := Drawn(db, h);
    OnceMembers(Source(db, h));
    FilterMembers(h.preds, source);
    SortMembers(h.order, Filter(h.preds, source));
  }

  lemma {:induction false} FilterDistinct(ps: seq<Pred>, rows: seq<Row>)
    requires DistinctIds(rows)
    ensures DistinctIds(Filter(ps, rows))
  {
    if rows != [] {
      var n := |rows| - 1;
      FilterDistinct(ps, rows[..n]);
      FilterMembers(ps, rows[..n]);
      var f := Filter(ps, rows[..n]);
      forall i | 0 <= i < |f| ensures IdOf(f[i]) != IdOf(rows[n]) {
        assert f[i] in f;
        assert f[i] in rows[..n];
      }
    }
  }

  lemma {:induction false} SortDistinct(o: Order, rows: seq<Row>)
    requires DistinctIds(rows)
    ensures DistinctIds(Sort(o, rows))
  {
    if rows != [] {
      var n := |rows| - 1;
      SortDistinct(o, rows[..n]);
      SortMembers(o, rows[..n]);
      var s := Sort(o, rows[..n]);
      forall i | 0 <= i < |s| ensures IdOf(s[i]) != IdOf(rows[n]) {
        assert s[i] in s;
        assert s[i] in rows[..n];
      }
      InsertDistinct(o, s, rows[n]);
    }
  }

  lemma {:induction false} InsertDistinct(o: Order, sorted: seq<Row>, r: Row)
    requires DistinctIds(sorted) && forall i :: 0 <= i < |sorted| ==> IdOf(sorted[i]) != IdOf(r)
    ensures DistinctIds(Insert(o, sorted, r))
  {
    var n := |sorted| - 1;
    if sorted != [] && !Leq(o, sorted[n], r) {
      InsertDistinct(o, sorted[..n], r);
      InsertMembers(o, sorted[..n], r);
      var s := Insert(o, sorted[..n], r);
      forall i | 0 <= i < |s| ensures IdOf(s[i]) != IdOf(sorted[n]) {
        assert s[i] in s;
        if s[i] != r { assert s[i] in sorted[..n]; }
      }
    }
  }

  lemma SelectDistinct(db: Database, h: Head)
    requires h.from.Some? ==> DistinctIds(h.from.value)
    requires h.from.None? ==> DistinctIds(db.Of(h.table))
    ensures DistinctIds(SelectRows(db, h))
  {
    var source := Drawn(db, h);
    OnceDistinct(Source(db, h));
    FilterDistinct(h.preds, source);
    SortDistinct(h.order, Filter(h.preds, source));
  }

  /** Restricting the batch's rows further gives the rows of the more restricted query. */
  lemma SelectNarrow(db: Database, h: Head, wide: seq<Pred>, narrow: Pred)
    requires Open(h)
    requires forall r {:trigger Sat(narrow, r)} :: Sat(narrow, r) ==> Keep(wide, r)
    ensures Filter([narrow], SelectRows(db, h.(preds := h.preds + wide)))
         == SelectRows(db, h.(preds := h.preds + [narrow]))
  {
    hide *;
    OpenPreds(h, h.preds + wide);
    OpenPreds(h, h.preds + [narrow]);
    OpenSelect(db, h.(preds := h.preds + wide));
    OpenSelect(db, h.(preds := h.preds + [narrow]));
    SameDrawn(db, h, h.preds + wide);
    SameDrawn(db, h, h.preds + [narrow]);
    NarrowRows(Drawn(db, h), h.order, h.preds, wide, narrow);
  }

  lemma OpenSelect(db: Database, h: Head)
    requires Open(h)
    ensures SelectRows(db, h) == Sort(h.order, Filter(h.preds, Drawn(db, h)))
  {
    hide Drawn, Sort, Filter;
    OpenWindow(h, Sort(h.order, Filter(h.preds, Drawn(db, h))));
  }

  lemma OpenPreds(h: Head, ps: seq<Pred>)
    requires Open(h)
    ensures Open(h.(preds := ps))
  {}

  lemma SameDrawn(db: Database, h: Head, ps: seq<Pred>)
    ensures Drawn(db, h.(preds := ps)) == Drawn(db, h)
  {}

  lemma NarrowRows(source: seq<Row>, o: Order, ps: seq<Pred>, wide: seq<Pred>, narrow: Pred)
    requires forall r {:trigger Sat(narrow, r)} :: Sat(narrow, r) ==> Keep(wide, r)
    ensures Filter([narrow], Sort(o, Filter(ps + wide, source))) == Sort(o, Filter(ps + [narrow], source))
  {
    hide Filter, Sort;
    FilterSort([narrow], o, Filter(ps + wide, source));
    FilterFilter(ps + wide, [narrow], source);
    forall r | r in source ensures Keep(ps + wide + [narrow], r) <==> Keep(ps + [narrow], r) {
      KeepBoth(ps + wide, [narrow], r);
      KeepBoth(ps, wide, r);
      KeepBoth(ps, [narrow], r);
      if Keep([narrow], r) { assert Sat([narrow][0], r); }
    }
    FilterAgree(ps + wide + [narrow], ps + [narrow], source);
  }

  // Sharing out -------------------------------------------------------------

  /** The trees of a level depend on its rows, its projection and its edges only. */
  lemma NestTreeHead(db: Database, q: Query, h: Head, raw: Row)
    requires h.table == q.head.table && h.fields == q.head.fields
    ensures NestTree(db, q.(head := h), raw) == NestTree(db, q, raw)
  {
    var p := q.(head := h);
    forall e | e in q.with ensures NestLink(db, p, e, raw) == NestLink(db, q, e, raw) { NestLinkHead(db, q, h, e, raw); }
    hide NestLink, Nested;
    assert NestTree(db, p, raw).edges == NestTree(db, q, raw).edges;
  }

  lemma NestLinkHead(db: Database, q: Query, h: Head, e: Edge, raw: Row)
    requires e in q.with
    ensures NestLink(db, q.(head := h), e, raw) == NestLink(db, q, e, raw)
  {
    hide Nested, SelectRows, Height;
  }

  ghost function NestAll(db: Database, q: Query, raws: seq<Row>): (r: seq<Tree>)
    ensures |r| == |raws| && forall i :: 0 <= i < |raws| ==> r[i] == NestTree(db, q, raws[i])
  {
    seq(|raws|, i requires 0 <= i < |raws| => NestTree(db, q, raws[i]))
  }

  /** Picking a node's neighbours out of the batch is filtering the batch's rows. */
  lemma {:induction false} PickIsFilter(db: Database, q: Query, raws: seq<Row>, ts: seq<Tree>, keys: seq<Option<int>>,
                                       want: set<int>, ps: seq<Pred>)
    requires |ts| == |raws| == |keys|
    requires forall j :: 0 <= j < |raws| ==> ts[j] == NestTree(db, q, raws[j])
    requires forall j :: 0 <= j < |raws| ==> ((keys[j].Some? && keys[j].value in want) <==> Keep(ps, raws[j]))
    ensures PickIn(ts, keys, want) == NestAll(db, q, Filter(ps, raws))
  {
    if ts != [] {
      var n := |ts| - 1;
      PickIsFilter(db, q, raws[..n], ts[..n], keys[..n], want, ps);
    }
  }

  // Many-to-many ------------------------------------------------------------

  predicate JoinsAny(members: seq<Row>, ids: seq<int>, g: Row) {
    exists m :: m in members && AccountId in m && m[AccountId] in ids && GroupId in m && m[GroupId] == IdOf(g)
  }

  lemma {:induction false} PairsOfLaws(members: seq<Row>, ids: seq<int>, g: Row)
    ensures forall k :: 0 <= k < |PairsOf(members, ids, g)| ==>
      PairsOf(members, ids, g)[k].1 == g && PairsOf(members, ids, g)[k].0 in ids && Joins(members, PairsOf(members, ids, g)[k].0, g)
    ensures forall a :: a in ids && Joins(members, a, g) ==> (a, g) in PairsOf(members, ids, g)
    ensures PairsOf(members, ids, g) != [] <==> JoinsAny(members, ids, g)
  {
    if members != [] {
      var n := |members| - 1;
      PairsOfLaws(members[..n], ids, g);
      assert members == members[..n] + [members[n]];
    }
  }

  /** The join rows: exactly the wanted (account, group) memberships. */
  lemma {:induction false} JoinRowsLaws(members: seq<Row>, ids: seq<int>, groups: seq<Row>)
    ensures forall p :: p in JoinRows(members, ids, groups) <==> p.1 in groups && p.0 in ids && Joins(members, p.0, p.1)
  {
    if groups != [] {
      var n := |groups| - 1;
      JoinRowsLaws(members, ids, groups[..n]);
      PairsOfLaws(members, ids, groups[n]);
      var a, b := JoinRows(members, ids, groups[..n]), PairsOf(members, ids, groups[n]);
      assert groups == groups[..n] + [groups[n]];
      forall p ensures p in a + b <==> p in a || p in b {}
      forall p | p in b ensures p.1 == groups[n] && p.0 in ids && Joins(members, p.0, groups[n]) {
        var k :| 0 <= k < |b| && b[k] == p;
      }
    }
  }

  lemma FirstRowsSnoc(pairs: seq<(int, Row)>, x: (int, Row))
    ensures FirstRows(pairs + [x]) == if IdOf(x.1) in Ids(FirstRows(pairs)) then FirstRows(pairs) else FirstRows(pairs) + [x.1]
  {
    assert (pairs + [x])[..|pairs|] == pairs;
  }

  /** Further join rows of one group add at most that group. */
  lemma {:induction false} FirstRowsAppend(pairs: seq<(int, Row)>, more: seq<(int, Row)>, g: Row)
    requires forall k :: 0 <= k < |more| ==> more[k].1 == g
    requires IdOf(g) !in Ids(FirstRows(pairs))
    ensures FirstRows(pairs + more) == if more == [] then FirstRows(pairs) else FirstRows(pairs) + [g]
  {
    hide *;
    if more == [] {
      assert pairs + more == pairs;
    } else {
      var n := |more| - 1;
      FirstRowsAppend(pairs, more[..n], g);
      assert pairs + more == (pairs + more[..n]) + [more[n]];
      FirstRowsSnoc(pairs + more[..n], more[n]);
      LastId(FirstRows(pairs), g);
    }
  }

  lemma LastId(rows: seq<Row>, g: Row)
    ensures IdOf(g) in Ids(rows + [g])
  {
    assert Ids(rows + [g])[|rows|] == IdOf(g);
  }

  /** Deduplicating the join rows leaves the groups that some wanted account belongs to, in their order. */
  lemma {:induction false} FirstRowsJoin(members: seq<Row>, ids: seq<int>, groups: seq<Row>)
    requires DistinctIds(groups)
    ensures FirstRows(JoinRows(members, ids, groups)) == Filter([Where(g => JoinsAny(members, ids, g))], groups)
  {
    if groups != [] {
      var n := |groups| - 1;
      var g := groups[n];
      var ps := [Where(x => JoinsAny(members, ids, x))];
      FirstRowsJoin(members, ids, groups[..n]);
      assert Keep(ps, g) <==> JoinsAny(members, ids, g) by { assert Keep(ps, g) <==> Sat(ps[0], g); }
      var a, b := JoinRows(members, ids, groups[..n]), PairsOf(members, ids, g);
      assert JoinRows(members, ids, groups) == a + b;
      assert groups == groups[..n] + [g];
      hide *;
      FilterSnoc(ps, groups[..n], g);
      PairsOfLaws(members, ids, g);
      NewId(ps, groups);
      FirstRowsAppend(a, b, g);
    }
  }

  lemma NewId(ps: seq<Pred>, groups: seq<Row>)
    requires groups != [] && DistinctIds(groups)
    ensures var n := |groups| - 1; DistinctIds(groups[..n]) && IdOf(groups[n]) !in Ids(Filter(ps, groups[..n]))
  {
    var n := |groups| - 1;
    FilterMembers(ps, groups[..n]);
    hide Filter;
    var f := Filter(ps, groups[..n]);
    forall i | 0 <= i < |f| ensures Ids(f)[i] != IdOf(groups[n]) {
      assert f[i] in f;
      assert f[i] in groups[..n];
    }
  }

  // The theorem -------------------------------------------------------------

  /** The tree of node i: the simple one, with its to-many edges emptied when a later node has its id. */
  ghost function Shown(db: Database, q: Query, i: int): (r: Tree)
    requires 0 <= i < |SelectRows(db, q.head)|
  {
    var raws := SelectRows(db, q.head);
    if LastOwner(raws, i) then NestTree(db, q, raws[i]) else Hollow(NestTree(db, q, raws[i]))
  }

  ghost predicate Agrees(db: Database, q: Query) {
    Run(db, q).Ok?
    && |Run(db, q).value| == |SelectRows(db, q.head)|
    && forall i :: 0 <= i < |SelectRows(db, q.head)| ==> Run(db, q).value[i] == Shown(db, q, i)
  }

  ghost predicate Sound(db: Database, q: Query) {
    KeyedDb(db) && Ready(q) && FieldsOk(q) && Unwindowed(q)
  }

  /** Where rows have no ids there are no to-many edges, so nothing to empty. */
  lemma HollowMember(db: Database, q: Query, raw: Row)
    requires Ready(q) && !HasId(q.head.table)
    ensures Hollow(NestTree(db, q, raw)) == NestTree(db, q, raw)
  {
    hide Project, Nested, NestLink;
    var t := NestTree(db, q, raw);
    forall e | e in t.edges ensures !t.edges[e].Many? {
      assert e in EdgesOf(AccountGroups) && ShapeOf(e) == M2O;
      ToOneLink(db, q, e, raw);
    }
    assert Hollow(t).edges == t.edges;
  }

  lemma ToOneLink(db: Database, q: Query, e: Edge, raw: Row)
    requires e in q.with && ShapeOf(e) == M2O
    ensures !NestLink(db, q, e, raw).Many?
  {
    hide Nested, Project;
  }

  /** With distinct ids every node is the last one with its id. */
  lemma AgreesNested(db: Database, q: Query)
    requires Agrees(db, q) && Ready(q)
    requires HasId(q.head.table) ==> DistinctIds(SelectRows(db, q.head))
    ensures Run(db, q) == Ok(Nested(db, q))
  {
    var raws := SelectRows(db, q.head);
    var ts := Run(db, q).value;
    forall i | 0 <= i < |raws| ensures ts[i] == NestTree(db, q, raws[i]) {
      assert ts[i] == Shown(db, q, i);
      if !HasId(q.head.table) {
        HollowMember(db, q, raws[i]);
      }
    }
    assert ts == Nested(db, q);
  }

  /** A loader that changes a builder's own settings leaves it well-formed. */
  lemma SoundHead(db: Database, q: Query, h: Head)
    requires Sound(db, q)
    requires h.table == q.head.table && h.joins == [] && BadField(h).None?
    requires h.from.Some? ==> forall r :: r in h.from.value ==> RowOk(h.table, r)
    ensures Sound(db, q.(head := h)) && Height(q.(head := h)) == Height(q)
  {
    HeightHead(q, h);
  }

  lemma ChildSound(db: Database, q: Query, e: Edge)
    requires Sound(db, q) && e in q.with
    ensures Sound(db, q.with[e]) && Open(q.with[e].head) && Height(q.with[e]) < Height(q)
    ensures q.with[e].head.table == Target(e) && q.with[e].head.from.None? && q.with[e].head.joins == []
    ensures e in EdgesOf(q.head.table) && BadField(q.with[e].head).None?
  {
    HeightChild(q, e);
  }

  /** The column that an O2M loader adds is a column of its table. */
  lemma LinkFields(h: Head, e: Edge, ids: seq<int>)
    requires BadField(h).None?
    ensures BadField(LinkOneHead(h, ids)).None?
    ensures ShapeOf(e) == O2M && h.table == Target(e) ==> BadField(LinkManyHead(h, e, ids)).None?
  {}

  /** The id lists of the loaders are restrictions of the same builder. */
  lemma LinkedSound(db: Database, q: Query, e: Edge, ids: seq<int>)
    requires Sound(db, q) && e in q.with
    ensures ShapeOf(e) == M2O ==> Sound(db, LinkOne(q.with[e], ids)) && Height(LinkOne(q.with[e], ids)) < Height(q)
    ensures ShapeOf(e) == O2M ==> Sound(db, LinkMany(q.with[e], e, ids)) && Height(LinkMany(q.with[e], e, ids)) < Height(q)
  {
    hide Sound, Height, BadField, AddOnce;
    ChildSound(db, q, e);
    var c := q.with[e];
    LinkFields(c.head, e, ids);
    SoundHead(db, c, LinkOneHead(c.head, ids));
    if ShapeOf(e) == O2M { SoundHead(db, c, LinkManyHead(c.head, e, ids)); }
  }

  lemma KeyInSat(col: Column, ids: seq<int>, k: int, r: Row)
    requires k in ids
    ensures Sat(KeyIn(col, [k]), r) ==> Keep([KeyIn(col, ids)], r)
  {}

  /** Picking by id out of the rows fetched for several ids is a lookup by that id. */
  lemma OneHits(db: Database, c: Query, ids: seq<int>, k: int)
    requires HasId(c.head.table) && Open(c.head) && k in ids
    ensures PickIn(Nested(db, LinkOne(c, ids)), IdKeys(RowsOf(Nested(db, LinkOne(c, ids)))), {k}) == Nested(db, LinkOne(c, [k]))
  {
    var b, s := LinkOne(c, ids), LinkOne(c, [k]);
    var narrow := KeyIn(Id, [k]);
    OneShare(db, c, ids, k);
    forall r {:trigger Sat(narrow, r)} | Sat(narrow, r) ensures Keep([KeyIn(Id, ids)], r) { KeyInSat(Id, ids, k, r); }
    SelectNarrow(db, c.head, [KeyIn(Id, ids)], narrow);
    SameTrees(db, b, s, SelectRows(db, s.head));
    assert NestAll(db, s, SelectRows(db, s.head)) == Nested(db, s);
  }

  /** The neighbours with one id are the batch's rows with that id, whatever the batch's window. */
  lemma OneShare(db: Database, c: Query, ids: seq<int>, k: int)
    requires HasId(c.head.table)
    ensures var b := LinkOne(c, ids);
      PickIn(Nested(db, b), IdKeys(RowsOf(Nested(db, b))), {k}) == NestAll(db, b, Filter([KeyIn(Id, [k])], SelectRows(db, b.head)))
  {
    var b := LinkOne(c, ids);
    var raws := SelectRows(db, b.head);
    var ts := Nested(db, b);
    var keys := IdKeys(RowsOf(ts));
    var narrow := KeyIn(Id, [k]);
    SelectMembers(db, b.head);
    forall j | 0 <= j < |raws| ensures (keys[j].Some? && keys[j].value in {k}) <==> Keep([narrow], raws[j]) {
      ProjectId(b.head, b.with.Keys, raws[j]);
      assert raws[j] in raws;
      assert Sat(b.head.preds[|c.head.preds|], raws[j]);
      assert Sat([narrow][0], raws[j]) == Sat(narrow, raws[j]);
    }
    PickIsFilter(db, b, raws, ts, keys, {k}, [narrow]);
  }

  ghost function FirstLink(hits: seq<Tree>): (r: Link) {
    if hits == [] then Nil else One(hits[0])
  }

  lemma OneLinkFor(db: Database, q: Query, rows: seq<Row>, e: Edge, i: int, ts: seq<Tree>, hits: seq<Tree>)
    requires e in q.with && ShapeOf(e) == M2O && 0 <= i < |rows| && FkValue(e, rows[i]).Some?
    requires PickIn(ts, IdKeys(RowsOf(ts)), {FkValue(e, rows[i]).value}) == hits && |hits| <= 1
    ensures LinkFor(db, q.with[e], rows, e, ts, i) == FirstLink(hits)
  {}

  lemma OneNestLink(db: Database, q: Query, e: Edge, raw: Row)
    requires e in q.with && ShapeOf(e) == M2O && FkValue(e, raw).Some?
    ensures NestLink(db, q, e, raw) == FirstLink(Nested(db, LinkOne(q.with[e], [FkValue(e, raw).value])))
  {}

  /** M2O: the batch's row with the node's foreign key is the row that a lookup by that key finds. */
  lemma OneAgrees(db: Database, q: Query, rows: seq<Row>, e: Edge, i: int, raw: Row, ts: seq<Tree>)
    requires e in q.with && ShapeOf(e) == M2O && HasId(q.with[e].head.table) && Open(q.with[e].head)
    requires 0 <= i < |rows| && FkValue(e, rows[i]) == FkValue(e, raw)
    requires FkValue(e, raw).Some? ==> ts == Nested(db, LinkOne(q.with[e], FirstSeen(FkKeys(e, rows))))
    requires forall k :: |SelectRows(db, LinkOneHead(q.with[e].head, [k]))| <= 1
    ensures LinkFor(db, q.with[e], rows, e, ts, i) == NestLink(db, q, e, raw)
  {
    match FkValue(e, raw)
    case None =>
    case Some(k) =>
      var ids := FirstSeen(FkKeys(e, rows));
      var c := q.with[e];
      assert FkKeys(e, rows)[i] == Some(k);
      OneHits(db, c, ids, k);
      var hits := Nested(db, LinkOne(c, [k]));
      assert |SelectRows(db, LinkOneHead(c.head, [k]))| <= 1;
      OneLinkFor(db, q, rows, e, i, ts, hits);
      OneNestLink(db, q, e, raw);
  }

  /** A lookup by id returns at most one row. */
  lemma OneSingle(db: Database, c: Query)
    requires KeyedDb(db) && HasId(c.head.table) && c.head.from.None?
    ensures forall k :: |SelectRows(db, LinkOneHead(c.head, [k]))| <= 1
  {
    hide SelectRows;
    forall k ensures |SelectRows(db, LinkOneHead(c.head, [k]))| <= 1 {
      var h := LinkOneHead(c.head, [k]);
      SelectDistinct(db, h);
      assert h.preds[|c.head.preds|] == KeyIn(Id, [k]);
      SingleHit(db, h, k);
    }
  }

  lemma SameTrees(db: Database, p: Query, q: Query, raws: seq<Row>)
    requires p.head.table == q.head.table && p.head.fields == q.head.fields && p.with == q.with
    ensures NestAll(db, p, raws) == NestAll(db, q, raws)
  {
    forall i | 0 <= i < |raws| ensures NestTree(db, p, raws[i]) == NestTree(db, q, raws[i]) {
      NestTreeHead(db, q, p.head, raws[i]);
      assert q.(head := p.head) == p;
    }
  }

  /** A lookup by primary key finds at most one row. */
  lemma SingleHit(db: Database, h: Head, k: int)
    requires DistinctIds(SelectRows(db, h))
    requires KeyIn(Id, [k]) in h.preds
    ensures |SelectRows(db, h)| <= 1
  {
    var raws := SelectRows(db, h);
    var first := if |raws| > 0 then IdOf(raws[0]) else k;
    var second := if |raws| > 1 then IdOf(raws[1]) else k;
    SelectMembers(db, h);
    var j :| 0 <= j < |h.preds| && h.preds[j] == KeyIn(Id, [k]);
    forall i | 0 <= i < |raws| ensures IdOf(raws[i]) == k {
      assert raws[i] in raws;
      assert Sat(h.preds[j], raws[i]);
    }
    assert first == second;
  }

  /** O2M: the batch's rows that carry the owner's id are the rows of a query for that owner. */
  lemma ManyHits(db: Database, c: Query, e: Edge, ids: seq<int>, k: int)
    requires ShapeOf(e) == O2M && c.head.table == Target(e) && Open(c.head) && k in ids
    ensures var ts := Nested(db, LinkMany(c, e, ids));
      PickIn(ts, FkKeys(e, RowsOf(ts)), {k}) == Nested(db, LinkMany(c, e, [k]))
  {
    var b, s := LinkMany(c, e, ids), LinkMany(c, e, [k]);
    var narrow := KeyIn(FkOf(e), [k]);
    ManyShare(db, c, e, ids, k);
    forall r {:trigger Sat(narrow, r)} | Sat(narrow, r) ensures Keep([KeyIn(FkOf(e), ids)], r) { KeyInSat(FkOf(e), ids, k, r); }
    var h := c.head.(fields := b.head.fields);
    SelectNarrow(db, h, [KeyIn(FkOf(e), ids)], narrow);
    assert h.(preds := h.preds + [narrow]) == s.head;
    assert h.(preds := h.preds + [KeyIn(FkOf(e), ids)]) == b.head;
    SameTrees(db, b, s, SelectRows(db, s.head));
    assert NestAll(db, s, SelectRows(db, s.head)) == Nested(db, s);
  }

  /** The neighbours with one key are the batch's rows with that key, whatever the batch's window. */
  lemma ManyShare(db: Database, c: Query, e: Edge, ids: seq<int>, k: int)
    requires ShapeOf(e) == O2M && c.head.table == Target(e)
    ensures var b := LinkMany(c, e, ids);
      PickIn(Nested(db, b), FkKeys(e, RowsOf(Nested(db, b))), {k}) == NestAll(db, b, Filter([KeyIn(FkOf(e), [k])], SelectRows(db, b.head)))
  {
    var b := LinkMany(c, e, ids);
    var raws := SelectRows(db, b.head);
    var ts := Nested(db, b);
    var keys := FkKeys(e, RowsOf(ts));
    var narrow := KeyIn(FkOf(e), [k]);
    SelectMembers(db, b.head);
    forall j | 0 <= j < |raws| ensures (keys[j].Some? && keys[j].value in {k}) <==> Keep([narrow], raws[j]) {
      ProjectChildFk(c.head, e, ids, b.with.Keys, raws[j]);
      assert raws[j] in raws;
      assert Sat(b.head.preds[|c.head.preds|], raws[j]);
      assert Sat([narrow][0], raws[j]) == Sat(narrow, raws[j]);
    }
    PickIsFilter(db, b, raws, ts, keys, {k}, [narrow]);
  }

  /** The head that the group query has after the join returns the joined groups once each. */
  lemma JoinedRows(db: Database, h: Head, ids: seq<int>)
    requires h.table == Groups && h.from.None? && !DistinctOn(h) && Open(h) && DistinctIds(db.Of(Groups))
    ensures SelectRows(db, JoinedHead(db, h, ids))
         == Filter([Where(g => JoinsAny(db.Of(AccountGroups), ids, g))], SelectRows(db, h))
  {
    var groups := Sort(h.order, Filter(h.preds, db.Of(Groups)));
    OpenWindow(h, groups);
    OpenWindow(h, JoinRows(db.Of(AccountGroups), ids, groups));
    SelectDistinct(db, h);
    FirstRowsJoin(db.Of(AccountGroups), ids, groups);
    var j := JoinedHead(db, h, ids);
    FilterNone(j.from.value);
    SortNone(j.from.value);
  }

  /** The id set that the join rows give to an account names its groups. */
  lemma WantedJoins(members: seq<Row>, ids: seq<int>, groups: seq<Row>, k: int, g: Row)
    requires DistinctIds(groups) && g in groups && k in ids
    ensures IdOf(g) in Wanted(JoinRows(members, ids, groups), k) <==> Joins(members, k, g)
  {
    JoinRowsLaws(members, ids, groups);
    var pairs := JoinRows(members, ids, groups);
    if IdOf(g) in Wanted(pairs, k) {
      var p :| p in pairs && p.0 == k && IdOf(p.1) == IdOf(g);
      var x :| 0 <= x < |groups| && groups[x] == p.1;
      var y :| 0 <= y < |groups| && groups[y] == g;
      assert x == y;
    }
    if Joins(members, k, g) {
      assert (k, g) in pairs;
    }
  }

  lemma JoinNarrow(db: Database, h: Head, ids: seq<int>, k: int)
    requires h.table == Groups && h.from.None? && h.unique == Some(false) && Open(h) && k in ids
    ensures var any, mine := Where(g => JoinsAny(db.Of(AccountGroups), ids, g)), MemberPred(db.Of(AccountGroups), k);
      Filter([mine], Filter([any], SelectRows(db, h))) == SelectRows(db, MemberHead(db, h, k))
  {
    var members := db.Of(AccountGroups);
    var any, mine := Where(g => JoinsAny(members, ids, g)), MemberPred(members, k);
    FilterFilter([any], [mine], SelectRows(db, h));
    forall r ensures Keep([any] + [mine], r) <==> Keep([mine], r) {
      KeepBoth([any], [mine], r);
      if Keep([mine], r) { assert Sat([mine][0], r); }
    }
    FilterAgree([any] + [mine], [mine], SelectRows(db, h));
    SelectNarrow(db, h, [], mine);
    assert h.preds + [] == h.preds;
    assert h.(preds := h.preds) == h;
  }

  /** M2M: picking an account's wanted groups out of the joined groups is a join for that account alone. */
  lemma JoinHits(db: Database, c: Query, ids: seq<int>, k: int)
    requires c.head.table == Groups && c.head.from.None? && Open(c.head) && k in ids && DistinctIds(db.Of(Groups))
    ensures var ts := Nested(db, c.(head := JoinedHead(db, c.head, ids)));
      PickIn(ts, IdKeys(RowsOf(ts)), Wanted(JoinSelect(db, c.head, ids), k)) == Nested(db, c.(head := MemberHead(db, c.head, k)))
  {
    var members := db.Of(AccountGroups);
    var b, s := c.(head := JoinedHead(db, c.head, ids)), c.(head := MemberHead(db, c.head, k));
    var mine := MemberPred(members, k);
    var raws := SelectRows(db, b.head);
    var ts := Nested(db, b);
    var keys := IdKeys(RowsOf(ts));
    var want := Wanted(JoinSelect(db, c.head, ids), k);
    var h := c.head.(unique := Some(false));
    var groups := SelectRows(db, h);
    JoinedRows(db, h, ids);
    SelectDistinct(db, h);
    OpenJoin(db, c.head, ids);
    FilterMembers([Where(g => JoinsAny(members, ids, g))], groups);
    hide SelectRows, Drawn, Project, JoinRows, Wanted, JoinSelect, JoinedHead, MemberHead, Filter;
    forall j | 0 <= j < |raws| ensures (keys[j].Some? && keys[j].value in want) <==> Keep([mine], raws[j]) {
      ProjectId(b.head, b.with.Keys, raws[j]);
      assert raws[j] in raws;
      WantedJoins(members, ids, groups, k, raws[j]);
      assert Sat([mine][0], raws[j]) == Joins(members, k, raws[j]);
    }
    PickIsFilter(db, b, raws, ts, keys, want, [mine]);
    JoinNarrow(db, h, ids, k);
    SameTrees(db, b, s, SelectRows(db, s.head));
    assert NestAll(db, s, SelectRows(db, s.head)) == Nested(db, s);
  }

  /** Without a window the join rows are those of the groups that the query selects. */
  lemma OpenJoin(db: Database, h: Head, ids: seq<int>)
    requires h.table == Groups && h.from.None? && Open(h)
    ensures JoinSelect(db, h, ids) == JoinRows(db.Of(AccountGroups), ids, SelectRows(db, h.(unique := Some(false))))
  {
    hide JoinRows, Sort, Filter;
    var groups := Sort(h.order, Filter(h.preds, db.Of(Groups)));
    OpenWindow(h, groups);
    OpenWindow(h, JoinRows(db.Of(AccountGroups), ids, groups));
  }

  /** The last owner's id is among the ids of the batch. */
  lemma IdInIds(rows: seq<Row>, i: int)
    requires 0 <= i < |rows|
    ensures IdOf(rows[i]) in Ids(rows)
  {
    assert Ids(rows)[i] == IdOf(rows[i]);
  }

  /** One edge of the theorem: the batch answers, and each node's share is what its own query returns. */
  ghost predicate EdgeAgrees(db: Database, q: Query, e: Edge)
    requires e in q.with
  {
    var raws := SelectRows(db, q.head);
    var rows := NodeRows(db, q.head, q.with.Keys);
    Neighbors(db, q.with[e], rows, e).Ok?
    && forall i :: 0 <= i < |rows| ==>
      LinkFor(db, q.with[e], rows, e, Neighbors(db, q.with[e], rows, e).value, i)
      == if LastOwner(raws, i) then NestLink(db, q, e, raws[i]) else HollowLink(NestLink(db, q, e, raws[i]))
  }

  lemma EdgeOne(db: Database, q: Query, e: Edge)
    requires Sound(db, q) && e in q.with && ShapeOf(e) == M2O
    ensures EdgeAgrees(db, q, e)
    decreases Height(q), 0
  {
    hide *;
    var c := q.with[e];
    var ids := FirstSeen(FkKeys(e, NodeRows(db, q.head, q.with.Keys)));
    ChildSound(db, q, e);
    SoundParts(db, q);
    TargetTable(e);
    LinkedSound(db, q, e, ids);
    BatchedIsNested(db, LinkOne(c, ids));
    SoundParts(db, LinkOne(c, ids));
    LinkOneIs(c, ids);
    HeadReady(db, c, LinkOneHead(c.head, ids));
    OneSingle(db, c);
    EdgeOneShares(db, q, e);
  }

  /** To-one edges lead to tables with ids. */
  lemma TargetTable(e: Edge)
    requires ShapeOf(e) == M2O
    ensures HasId(Target(e))
  {}

  lemma LinkOneIs(c: Query, ids: seq<int>)
    ensures LinkOne(c, ids) == c.(head := LinkOneHead(c.head, ids)) && LinkOneHead(c.head, ids).from == c.head.from
  {}

  lemma EdgeOneShares(db: Database, q: Query, e: Edge)
    requires e in q.with && e in EdgesOf(q.head.table) && ShapeOf(e) == M2O
    requires HasId(q.with[e].head.table) && Open(q.with[e].head)
    requires var b := LinkOne(q.with[e], FirstSeen(FkKeys(e, NodeRows(db, q.head, q.with.Keys)))); Run(db, b) == Ok(Nested(db, b))
    requires forall k :: |SelectRows(db, LinkOneHead(q.with[e].head, [k]))| <= 1
    ensures EdgeAgrees(db, q, e)
  {
    var raws := SelectRows(db, q.head);
    var rows := NodeRows(db, q.head, q.with.Keys);
    var ts := Neighbors(db, q.with[e], rows, e).value;
    forall i | 0 <= i < |rows| ensures LinkFor(db, q.with[e], rows, e, ts, i) == NestLink(db, q, e, raws[i]) {
      ProjectFk(q.head, q.with.Keys, raws[i], e);
      assert FkKeys(e, rows)[i] == FkValue(e, rows[i]);
      OneAgrees(db, q, rows, e, i, raws[i], ts);
    }
    forall i | 0 <= i < |rows| ensures HollowLink(NestLink(db, q, e, raws[i])) == NestLink(db, q, e, raws[i]) {}
  }

  /** The ids by which to-many rows are shared out are those of the table. */
  lemma SameOwners(h: Head, loaded: set<Edge>, raws: seq<Row>, i: int)
    requires HasId(h.table) && 0 <= i < |raws|
    ensures var rows := ProjectAll(h, loaded, raws);
      IdOf(rows[i]) == IdOf(raws[i]) && (LastOwner(rows, i) <==> LastOwner(raws, i))
  {
    var rows := ProjectAll(h, loaded, raws);
    forall j | 0 <= j < |raws| ensures IdOf(rows[j]) == IdOf(raws[j]) { ProjectId(h, loaded, raws[j]); }
  }

  lemma EdgeMany(db: Database, q: Query, e: Edge)
    requires Sound(db, q) && e in q.with && ShapeOf(e) == O2M
    ensures EdgeAgrees(db, q, e)
    decreases Height(q), 0
  {
    hide *;
    var ids := Ids(NodeRows(db, q.head, q.with.Keys));
    var c := q.with[e];
    ChildSound(db, q, e);
    SoundParts(db, q);
    OwnerTable(q.head.table, e);
    LinkedSound(db, q, e, ids);
    BatchedIsNested(db, LinkMany(c, e, ids));
    SoundParts(db, LinkMany(c, e, ids));
    LinkManyIs(c, e, ids);
    HeadReady(db, c, LinkManyHead(c.head, e, ids));
    EdgeManyShares(db, q, e);
  }

  lemma SoundParts(db: Database, q: Query)
    requires Sound(db, q)
    ensures KeyedDb(db) && Ready(q)
  {}

  /** To-many edges start from tables with ids. */
  lemma OwnerTable(t: Table, e: Edge)
    requires e in EdgesOf(t) && ShapeOf(e) != M2O
    ensures HasId(t)
  {}

  lemma LinkManyIs(c: Query, e: Edge, ids: seq<int>)
    ensures LinkMany(c, e, ids) == c.(head := LinkManyHead(c.head, e, ids)) && LinkManyHead(c.head, e, ids).from == c.head.from
  {}

  lemma HeadReady(db: Database, c: Query, h: Head)
    requires KeyedDb(db) && h.from.None? && Ready(c.(head := h)) && Agrees(db, c.(head := h))
    ensures Run(db, c.(head := h)) == Ok(Nested(db, c.(head := h)))
  {
    if HasId(h.table) { SelectDistinct(db, h); }
    AgreesNested(db, c.(head := h));
  }

  lemma EdgeManyShares(db: Database, q: Query, e: Edge)
    requires e in q.with && HasId(q.head.table) && ShapeOf(e) == O2M
    requires q.with[e].head.table == Target(e) && Open(q.with[e].head)
    requires var b := LinkMany(q.with[e], e, Ids(NodeRows(db, q.head, q.with.Keys))); Run(db, b) == Ok(Nested(db, b))
    ensures EdgeAgrees(db, q, e)
  {
    var raws := SelectRows(db, q.head);
    var rows := NodeRows(db, q.head, q.with.Keys);
    var ids := Ids(rows);
    var ts := Neighbors(db, q.with[e], rows, e).value;
    forall i | 0 <= i < |rows|
      ensures LinkFor(db, q.with[e], rows, e, ts, i)
        == if LastOwner(raws, i) then NestLink(db, q, e, raws[i]) else HollowLink(NestLink(db, q, e, raws[i]))
    {
      SameOwners(q.head, q.with.Keys, raws, i);
      IdInIds(rows, i);
      ManyHits(db, q.with[e], e, ids, IdOf(rows[i]));
    }
  }

  lemma JoinedSound(db: Database, q: Query, e: Edge, ids: seq<int>)
    requires Sound(db, q) && e in q.with && ShapeOf(e) == M2M
    ensures var b := q.with[e].(head := JoinedHead(db, q.with[e].head, ids));
      Sound(db, b) && Height(b) < Height(q) && DistinctIds(SelectRows(db, b.head))
  {
    ChildSound(db, q, e);
    var c := q.with[e];
    var h := JoinedHead(db, c.head, ids);
    var pairs := JoinSelect(db, c.head, ids);
    var groups := Sort(c.head.order, Filter(c.head.preds, db.Of(Groups)));
    OpenWindow(c.head, groups);
    OpenWindow(c.head, JoinRows(db.Of(AccountGroups), ids, groups));
    JoinRowsLaws(db.Of(AccountGroups), ids, groups);
    FirstRowsLaws(pairs);
    SelectMembers(db, c.head.(unique := Some(false)));
    forall r | r in h.from.value ensures RowOk(Groups, r) {
      var x :| 0 <= x < |h.from.value| && h.from.value[x] == r;
      var k :| 0 <= k < |pairs| && h.from.value[x] == pairs[k].1;
      assert pairs[k] in pairs;
      assert r in groups;
    }
    SoundHead(db, c, h);
    SelectDistinct(db, h);
  }

  lemma EdgeJoin(db: Database, q: Query, e: Edge)
    requires Sound(db, q) && e in q.with && ShapeOf(e) == M2M
    ensures EdgeAgrees(db, q, e)
    decreases Height(q), 0
  {
    hide *;
    var ids := Ids(NodeRows(db, q.head, q.with.Keys));
    ChildSound(db, q, e);
    SoundParts(db, q);
    OwnerTable(q.head.table, e);
    JoinedSound(db, q, e, ids);
    var b := q.with[e].(head := JoinedHead(db, q.with[e].head, ids));
    BatchedIsNested(db, b);
    SoundParts(db, b);
    AgreesNested(db, b);
    EdgeJoinShares(db, q, e);
  }

  lemma EdgeJoinShares(db: Database, q: Query, e: Edge)
    requires KeyedDb(db) && e in q.with && HasId(q.head.table) && ShapeOf(e) == M2M
    requires q.with[e].head.table == Target(e) && Open(q.with[e].head) && q.with[e].head.from.None?
    requires var b := q.with[e].(head := JoinedHead(db, q.with[e].head, Ids(NodeRows(db, q.head, q.with.Keys)))); Run(db, b) == Ok(Nested(db, b))
    ensures EdgeAgrees(db, q, e)
  {
    hide Project, SelectRows, Nested, Run, JoinedHead;
    var raws := SelectRows(db, q.head);
    var rows := NodeRows(db, q.head, q.with.Keys);
    var ids := Ids(rows);
    var ts := Neighbors(db, q.with[e], rows, e).value;
    forall i | 0 <= i < |rows|
      ensures LinkFor(db, q.with[e], rows, e, ts, i)
        == if LastOwner(raws, i) then NestLink(db, q, e, raws[i]) else HollowLink(NestLink(db, q, e, raws[i]))
    {
      SameOwners(q.head, q.with.Keys, raws, i);
      IdInIds(rows, i);
      JoinHits(db, q.with[e], ids, IdOf(rows[i]));
    }
  }

  lemma {:induction false} LoadsAll(db: Database, q: Query, rows: seq<Row>, es: seq<Edge>)
    requires forall e :: e in es && e in q.with ==> Neighbors(db, q.with[e], rows, e).Ok?
    ensures Loads(db, q, rows, es).Ok?
    ensures forall e :: e in Loads(db, q, rows, es).value ==>
      e in q.with && Loads(db, q, rows, es).value[e] == Neighbors(db, q.with[e], rows, e).value
  {
    if es != [] {
      var n := |es| - 1;
      assert es == es[..n] + [es[n]];
      LoadsAll(db, q, rows, es[..n]);
    }
  }

  /** Batched loading agrees with a query per node and edge, at every depth, for every
      projection, filter and order of the edge queries.  The root may be windowed and may
      return duplicates: only the last duplicate then receives the to-many edges. */
  lemma {:induction false} BatchedIsNested(db: Database, q: Query)
    requires Sound(db, q)
    ensures Agrees(db, q)
    decreases Height(q), 1
  {
    var raws := SelectRows(db, q.head);
    var rows := NodeRows(db, q.head, q.with.Keys);
    forall e | e in q.with ensures EdgeAgrees(db, q, e) {
      match ShapeOf(e)
      case M2O => EdgeOne(db, q, e);
      case O2M => EdgeMany(db, q, e);
      case M2M => EdgeJoin(db, q, e);
    }
    if rows != [] {
      var es := EdgesOf(q.head.table);
      LoadsAll(db, q, rows, es);
      var m := Loads(db, q, rows, es).value;
      assert m.Keys == q.with.Keys;
      forall i | 0 <= i < |rows| ensures Assemble(db, q, rows, m, i) == Shown(db, q, i) {
        ShownEdges(db, q, m, i);
      }
    }
  }

  lemma ShownEdges(db: Database, q: Query, m: map<Edge, seq<Tree>>, i: int)
    requires m.Keys == q.with.Keys
    requires 0 <= i < |SelectRows(db, q.head)|
    requires forall e :: e in q.with ==> EdgeAgrees(db, q, e) && m[e] == Neighbors(db, q.with[e], NodeRows(db, q.head, q.with.Keys), e).value
    ensures Assemble(db, q, NodeRows(db, q.head, q.with.Keys), m, i) == Shown(db, q, i)
  {
    hide LinkFor, NestLink, Neighbors, LastOwner, SelectRows, Project, HollowLink;
    var raws := SelectRows(db, q.head);
    var rows := NodeRows(db, q.head, q.with.Keys);
    var a, b := Assemble(db, q, rows, m, i), Shown(db, q, i);
    forall e | e in q.with ensures a.edges[e] == b.edges[e] {
      assert EdgeAgrees(db, q, e);
    }
    assert a.edges == b.edges;
  }

  /** With distinct root ids the batched run is exactly the nested one. */
  lemma BatchedIsNestedDistinct(db: Database, q: Query)
    requires Sound(db, q)
    requires HasId(q.head.table) ==> DistinctIds(SelectRows(db, q.head))
    ensures Run(db, q) == Ok(Nested(db, q))
  {
    BatchedIsNested(db, q);
    AgreesNested(db, q);
  }

  // Duplicate roots -----------------------------------------------------------

  ghost predicate NoneToMany(t: Tree) {
    forall e :: e in t.edges && t.edges[e].Many? ==> t.edges[e].trees == []
  }

  lemma HollowSame(t: Tree)
    ensures Hollow(t) == t <==> NoneToMany(t)
  {
    if Hollow(t) == t {
      forall e | e in t.edges && t.edges[e].Many? ensures t.edges[e].trees == [] {
        assert t.edges[e] == Hollow(t).edges[e];
      }
    }
    if NoneToMany(t) {
      assert Hollow(t).edges == t.edges;
    }
  }

  /** Batched loading is exactly the nested lookup if and only if no root row that a later one shadows
      has a to-many neighbour. */
  lemma NestedIff(db: Database, q: Query)
    requires Sound(db, q)
    ensures var raws := SelectRows(db, q.head);
      Run(db, q) == Ok(Nested(db, q)) <==>
        forall i :: 0 <= i < |raws| && !LastOwner(raws, i) ==> NoneToMany(NestTree(db, q, raws[i]))
  {
    BatchedIsNested(db, q);
    hide SelectRows, Run, Hollow, NestTree, NoneToMany;
    var raws := SelectRows(db, q.head);
    var ts := Run(db, q).value;
    forall i | 0 <= i < |raws|
      ensures ts[i] == Nested(db, q)[i] <==> LastOwner(raws, i) || NoneToMany(NestTree(db, q, raws[i]))
    {
      assert ts[i] == Shown(db, q, i);
      HollowSame(NestTree(db, q, raws[i]));
    }
    if forall i :: 0 <= i < |raws| ==> ts[i] == Nested(db, q)[i] {
      assert ts == Nested(db, q);
    } else {
      assert exists i :: 0 <= i < |raws| && ts[i] != Nested(db, q)[i];
    }
  }

  /** A DISTINCT root has no duplicates: along a traversal path that is the default. */
  lemma DistinctRoot(db: Database, h: Head)
    requires KeyedDb(db) && HasId(h.table) && (h.from.Some? ==> DistinctOn(h) && forall r :: r in h.from.value ==> r in db.Of(h.table))
    ensures DistinctIds(SelectRows(db, h))
  {
    var rows := Drawn(db, h);
    OnceMembers(Source(db, h));
    OnceDistinct(db.Of(h.table));
    forall i, j | 0 <= i < j < |rows| ensures IdOf(rows[i]) != IdOf(rows[j]) {
      assert rows[i] in rows && rows[j] in rows;
      if h.from.Some? {
        var x :| 0 <= x < |db.Of(h.table)| && db.Of(h.table)[x] == rows[i];
        var y :| 0 <= y < |db.Of(h.table)| && db.Of(h.table)[y] == rows[j];
        assert rows[i] != rows[j] && x != y;
      }
    }
    FilterDistinct(h.preds, rows);
    SortDistinct(h.order, Filter(h.preds, rows));
  }

  /** So unless DISTINCT is switched off on a traversal path, batched loading is exactly the nested lookup. */
  lemma GuardedIsNested(db: Database, q: Query)
    requires Sound(db, q) && (q.head.from.Some? ==> q.head.unique != Some(false))
    requires q.head.from.Some? ==> forall r :: r in q.head.from.value ==> r in db.Of(q.head.table)
    ensures Run(db, q) == Ok(Nested(db, q))
  {
    if HasId(q.head.table) { DistinctRoot(db, q.head); }
    BatchedIsNestedDistinct(db, q);
  }

  /** DISTINCT can as well be applied last, to the rows that were filtered and sorted. */
  lemma DistinctLast(db: Database, h: Head)
    ensures SelectRows(db, h)
      == var rows := Sort(h.order, Filter(h.preds, Source(db, h)));
         Window(h.limit, h.offset, if DistinctOn(h) then Once(rows) else rows)
  {
    OnceSort(h.order, Filter(h.preds, Source(db, h)));
    OnceFilter(h.preds, Source(db, h));
  }

  function PlainHead(t: Table, from: Option<seq<Row>>, unique: Option<bool>): (h: Head) {
    Head(t, {}, from, unique, [], [], [], [], None, None, [])
  }

  /** An account with a child, and a root query that has DISTINCT switched off, meets the account twice along
      its traversal path and loads children: the first of the two objects misses the child. */
  lemma DuplicatesDiffer()
    ensures var parent, child := map[Id := 1], map[Id := 2, ParentAccountId := 1];
      var db := Database(map[Accounts := [parent, child]]);
      var q := Query(PlainHead(Accounts, Some([parent, parent]), Some(false)), map[ToChildren := Query(PlainHead(Accounts, None, None), map[])]);
      Sound(db, q) && Run(db, q) != Ok(Nested(db, q))
  {
    var parent: Row, child: Row := map[Id := 1], map[Id := 2, ParentAccountId := 1];
    var db := Database(map[Accounts := [parent, child]]);
    var c := Query(PlainHead(Accounts, None, None), map[]);
    var q := Query(PlainHead(Accounts, Some([parent, parent]), Some(false)), map[ToChildren := c]);
    PlainSound(db, parent, child, q, c);
    PlainRows(db, q.head, [parent, parent]);
    NestedIff(db, q);
    OneChild(db, parent, child, q, c);
    hide *;
    assert SelectRows(db, q.head) == [parent, parent];
    NotLast(parent);
  }

  lemma PlainSound(db: Database, parent: Row, child: Row, q: Query, c: Query)
    requires parent == map[Id := 1] && child == map[Id := 2, ParentAccountId := 1]
    requires db == Database(map[Accounts := [parent, child]])
    requires c == Query(PlainHead(Accounts, None, None), map[])
    requires q == Query(PlainHead(Accounts, Some([parent, parent]), Some(false)), map[ToChildren := c])
    ensures Sound(db, q)
  {
    assert EdgesOf(Accounts)[3] == ToChildren;
    assert Ready(c) && FieldsOk(c) && Unwindowed(c);
    assert db.Of(Accounts) == [parent, child];
    forall t | t != Accounts ensures db.Of(t) == [] {}
  }

  /** A plain query returns its source. */
  lemma PlainRows(db: Database, h: Head, source: seq<Row>)
    requires h.preds == [] && h.order == [] && h.limit == None && h.offset == None && h.from == Some(source) && !DistinctOn(h)
    ensures SelectRows(db, h) == source
  {
    FilterNone(source);
    SortNone(source);
  }

  lemma NotLast(r: Row)
    ensures !LastOwner([r, r], 0)
  {
    assert IdOf([r, r][1]) == IdOf([r, r][0]);
  }

  lemma OneChild(db: Database, parent: Row, child: Row, q: Query, c: Query)
    requires parent == map[Id := 1] && child == map[Id := 2, ParentAccountId := 1]
    requires db == Database(map[Accounts := [parent, child]])
    requires c == Query(PlainHead(Accounts, None, None), map[]) && q.with == map[ToChildren := c]
    ensures !NoneToMany(NestTree(db, q, parent))
  {
    var h := LinkManyHead(c.head, ToChildren, [1]);
    var kept := Filter(h.preds, [parent, child]);
    FilterMembers(h.preds, [parent, child]);
    SortNone(kept);
    assert Keep(h.preds, child) by { assert h.preds == [KeyIn(ParentAccountId, [1])]; }
    assert child in kept;
    assert db.Of(Accounts) == [parent, child];
    assert SelectRows(db, h) == kept;
    assert NestLink(db, q, ToChildren, parent) == Many(Nested(db, LinkMany(c, ToChildren, [1])));
    assert NestTree(db, q, parent).edges[ToChildren].trees != [];
  }

  // What the loaders rely on --------------------------------------------------

  lemma RunRows(db: Database, q: Query)
    requires Run(db, q).Ok?
    ensures RowsOf(Run(db, q).value) == NodeRows(db, q.head, q.with.Keys)
  {}

  /** An M2O loader finds every returned id in its map. */
  lemma LinkOneIds(db: Database, c: Query, ids: seq<int>)
    requires HasId(c.head.table) && Run(db, LinkOne(c, ids)).Ok?
    ensures forall j :: 0 <= j < |Run(db, LinkOne(c, ids)).value| ==> IdOf(Run(db, LinkOne(c, ids)).value[j].row) in ids
  {
    var h := LinkOneHead(c.head, ids);
    var raws := SelectRows(db, h);
    var ts := Run(db, LinkOne(c, ids)).value;
    RunRows(db, LinkOne(c, ids));
    SelectMembers(db, h);
    forall j | 0 <= j < |ts| ensures IdOf(ts[j].row) in ids {
      assert RowsOf(ts)[j] == ts[j].row;
      assert raws[j] in raws;
      assert Sat(h.preds[|c.head.preds|], raws[j]);
      ProjectId(h, c.with.Keys, raws[j]);
    }
  }

  /** An O2M loader finds every returned key: none is nil, and each is the id of a node. */
  lemma LinkManyFks(db: Database, c: Query, e: Edge, ids: seq<int>)
    requires ShapeOf(e) == O2M && c.head.table == Target(e) && Run(db, LinkMany(c, e, ids)).Ok?
    ensures var ts := Run(db, LinkMany(c, e, ids)).value;
      forall j :: 0 <= j < |ts| ==> FkValue(e, ts[j].row).Some? && FkValue(e, ts[j].row).value in ids
  {
    var h := LinkManyHead(c.head, e, ids);
    var raws := SelectRows(db, h);
    var ts := Run(db, LinkMany(c, e, ids)).value;
    RunRows(db, LinkMany(c, e, ids));
    SelectMembers(db, h);
    forall j | 0 <= j < |ts| ensures FkValue(e, ts[j].row).Some? && FkValue(e, ts[j].row).value in ids {
      assert RowsOf(ts)[j] == ts[j].row;
      assert raws[j] in raws;
      assert Sat(h.preds[|c.head.preds|], raws[j]);
      ProjectChildFk(c.head, e, ids, c.with.Keys, raws[j]);
    }
  }

  /** The join returns accounts of the batch only. */
  lemma JoinOuts(db: Database, h: Head, ids: seq<int>)
    ensures forall p :: 0 <= p < |JoinSelect(db, h, ids)| ==> JoinSelect(db, h, ids)[p].0 in ids
  {
    var groups := Sort(h.order, Filter(h.preds, db.Of(Groups)));
    var all := JoinRows(db.Of(AccountGroups), ids, groups);
    JoinRowsLaws(db.Of(AccountGroups), ids, groups);
    var pairs := JoinSelect(db, h, ids);
    forall p | 0 <= p < |pairs| ensures pairs[p].0 in ids {
      assert pairs[p] in all;
    }
  }

  ghost function LeafTrees(h: Head, raws: seq<Row>): (r: seq<Tree>)
    ensures |r| == |raws| && forall i :: 0 <= i < |raws| ==> r[i] == Tree(Project(h, {}, raws[i]), map[])
  {
    seq(|raws|, i requires 0 <= i < |raws| => Tree(Project(h, {}, raws[i]), map[]))
  }

  /** A query without edges scans its rows. */
  lemma RunLeaf(db: Database, q: Query)
    requires q.with == map[] && EdgesOf(q.head.table) == []
    ensures Run(db, q)
      == match BadField(q.head)
         case Some(x) => Err(InvalidField(x))
         case None => Ok(LeafTrees(q.head, SelectRows(db, q.head)))
  {
    if BadField(q.head).None? {
      var raws := SelectRows(db, q.head);
      var rows := NodeRows(db, q.head, {});
      assert q.with.Keys == {};
      assert Loads(db, q, rows, EdgesOf(q.head.table)) == Ok(map[]);
      var ts := Run(db, q).value;
      forall i | 0 <= i < |raws| ensures ts[i] == LeafTrees(q.head, raws)[i] {
        assert ts[i] == Assemble(db, q, rows, map[], i);
      }
      assert ts == LeafTrees(q.head, raws);
    }
  }

  /** The group query of an M2M edge has no edges of its own. */
  lemma RunJoined(db: Database, c: Query, ids: seq<int>)
    requires c.head.table == Groups && c.with == map[]
    ensures Run(db, c.(head := JoinedHead(db, c.head, ids)))
      == match BadField(c.head)
         case Some(x) => Err(InvalidField(x))
         case None => Ok(LeafTrees(c.head, FirstRows(JoinSelect(db, c.head, ids))))
  {
    var h := JoinedHead(db, c.head, ids);
    var raws := FirstRows(JoinSelect(db, c.head, ids));
    FilterNone(raws);
    SortNone(raws);
    RunLeaf(db, c.(head := h));
    assert BadField(h) == BadField(c.head);
    assert LeafTrees(h, raws) == LeafTrees(c.head, raws);
  }
}
