/**
 Eager-loading queries as values, and two meanings for them.

 `Run` is what the batched loaders compute: one query for the nodes of a level and one
 query per enabled edge, shared out to the nodes by key.  `Nested` is the simple form: a
 separate query per node and edge.  `After` is the state in which a run leaves the builders,
 since every loader adds its IN list (and sometimes a column) to the edge's own builder.
 */
module Plan {
  import opened Collections
  import opened Store

  /** The fields of one query builder.  `attrs` are the plain columns of its entity; `from` holds the rows of
      a traversal path, if there is one; `unique` is what was asked for about DISTINCT, if anything was. */
  datatype Head = Head(
    table: Table,
    attrs: set<string>,
    from: Option<seq<Row>>,
    unique: Option<bool>,
    fields: seq<Column>,
    preds: seq<Pred>,
    joins: seq<seq<int>>,
    order: Order,
    limit: Option<nat>,
    offset: Option<nat>,
    locks: seq<string>)

  datatype Query = Query(head: Head, with: map<Edge, Query>)

  /** A loaded entity; `edges` has a link for each edge that was asked for. */
  datatype Tree = Tree(row: Row, edges: map<Edge, Link>)
  datatype Link = Nil | One(tree: Tree) | Many(trees: seq<Tree>)

  datatype LoadError = InvalidField(column: Column) | NilKey(edge: Edge) | Unexpected(edge: Edge)

  // Projection --------------------------------------------------------------

  function AddOnce(cols: seq<Column>, c: Column): (r: seq<Column>) {
    if c in cols then cols else cols + [c]
  }

  function WithoutId(fields: seq<Column>): (r: seq<Column>)
    ensures forall c :: c in r <==> c in fields && c != Id
  {
    if fields == [] then []
    else if fields[0] == Id then WithoutId(fields[1..]) else [fields[0]] + WithoutId(fields[1..])
  }

  /** The foreign keys that the enabled M2O edges read from the node itself. */
  function AddFks(cols: seq<Column>, loaded: set<Edge>, es: seq<Edge>): (r: seq<Column>)
    ensures cols <= r
    ensures forall e :: e in es && e in loaded && ShapeOf(e) == M2O ==> FkOf(e) in r
  {
    if es == [] then cols
    else
      var n := |es| - 1;
      var r := AddFks(cols, loaded, es[..n]);
      if es[n] in loaded && ShapeOf(es[n]) == M2O then AddOnce(r, FkOf(es[n])) else r
  }

  /** The columns that `querySpec` selects for a non-empty field list. */
  function SelectColumns(h: Head, loaded: set<Edge>): (r: seq<Column>) {
    var cols := if HasId(h.table) then [Id] + WithoutId(h.fields) else h.fields;
    AddFks(cols, loaded, EdgesOf(h.table))
  }

  /** What scanning leaves of a row; without a field list every column is selected. */
  function Project(h: Head, loaded: set<Edge>, row: Row): (r: Row) {
    if h.fields == [] then row else Scan(row, SelectColumns(h, loaded))
  }

  lemma ProjectId(h: Head, loaded: set<Edge>, raw: Row)
    requires HasId(h.table)
    ensures IdOf(Project(h, loaded, raw)) == IdOf(raw)
  {
    if h.fields != [] {
      assert ([Id] + WithoutId(h.fields))[0] == Id;
      assert Id in SelectColumns(h, loaded);
    }
  }

  function BadField(h: Head): (r: Option<Column>)
    ensures r.None? <==> forall c :: c in h.fields ==> ValidColumn(h.table, h.attrs, c)
    ensures r.Some? ==> r.value in h.fields && !ValidColumn(h.table, h.attrs, r.value)
  {
    FirstBad(h.table, h.attrs, h.fields)
  }

  function FirstBad(t: Table, attrs: set<string>, fields: seq<Column>): (r: Option<Column>)
    ensures r.None? <==> forall c :: c in fields ==> ValidColumn(t, attrs, c)
    ensures r.Some? ==> r.value in fields && !ValidColumn(t, attrs, r.value)
  {
    if fields == [] then None
    else if !ValidColumn(t, attrs, fields[0]) then Some(fields[0])
    else FirstBad(t, attrs, fields[1..])
  }

  // One level ---------------------------------------------------------------

  /** Is the entity query a SELECT DISTINCT?  A query along a traversal path is unless it was told not to be. */
  predicate DistinctOn(h: Head) {
    if h.unique.Some? then h.unique.value else h.from.Some?
  }

  function Source(db: Database, h: Head): (r: seq<Row>) {
    if h.from.Some? then h.from.value else db.Of(h.table)
  }

  /** The rows to select from; DISTINCT commutes with WHERE and ORDER BY. */
  function Drawn(db: Database, h: Head): (r: seq<Row>) {
    if DistinctOn(h) then Once(Source(db, h)) else Source(db, h)
  }

  /** The raw rows that the query of one level returns. */
  function SelectRows(db: Database, h: Head): (r: seq<Row>) {
    Window(h.limit, h.offset, Sort(h.order, Filter(h.preds, Drawn(db, h))))
  }

  function ProjectAll(h: Head, loaded: set<Edge>, rows: seq<Row>): (r: seq<Row>)
    ensures |r| == |rows| && forall i :: 0 <= i < |rows| ==> r[i] == Project(h, loaded, rows[i])
  {
    seq(|rows|, i requires 0 <= i < |rows| => Project(h, loaded, rows[i]))
  }

  function NodeRows(db: Database, h: Head, loaded: set<Edge>): (r: seq<Row>) {
    ProjectAll(h, loaded, SelectRows(db, h))
  }

  function Ids(rows: seq<Row>): (r: seq<int>)
    ensures |r| == |rows| && forall i :: 0 <= i < |rows| ==> r[i] == IdOf(rows[i])
  {
    seq(|rows|, i requires 0 <= i < |rows| => IdOf(rows[i]))
  }

  /** An M2O loader restricts the edge's query to the referenced ids. */
  function LinkOneHead(h: Head, ids: seq<int>): (r: Head) {
    h.(preds := h.preds + [KeyIn(Id, ids)])
  }

  /** An O2M loader restricts it to the owners' ids and makes sure that a projection keeps the key. */
  function LinkManyHead(h: Head, e: Edge, ids: seq<int>): (r: Head) {
    h.(fields := if h.fields == [] then [] else AddOnce(h.fields, FkOf(e)),
       preds := h.preds + [KeyIn(FkOf(e), ids)])
  }

  function LinkOne(q: Query, ids: seq<int>): (r: Query) {
    q.(head := LinkOneHead(q.head, ids))
  }

  function LinkMany(q: Query, e: Edge, ids: seq<int>): (r: Query) {
    q.(head := LinkManyHead(q.head, e, ids))
  }

  // Many-to-many ------------------------------------------------------------

  /** The join rows of one group: its id paired with each wanted account of its memberships. */
  function PairsOf(members: seq<Row>, ids: seq<int>, g: Row): (r: seq<(int, Row)>) {
    if members == [] then []
    else
      var n := |members| - 1;
      var r := PairsOf(members[..n], ids, g);
      if AccountId in members[n] && members[n][AccountId] in ids && GroupId in members[n] && members[n][GroupId] == IdOf(g)
      then r + [(members[n][AccountId], g)] else r
  }

  function JoinRows(members: seq<Row>, ids: seq<int>, groups: seq<Row>): (r: seq<(int, Row)>) {
    if groups == [] then []
    else
      var n := |groups| - 1;
      JoinRows(members, ids, groups[..n]) + PairsOf(members, ids, groups[n])
  }

  /** The rows of the joined query: (account id, group row), ordered by the group's ORDER BY. */
  function JoinSelect(db: Database, h: Head, ids: seq<int>): (r: seq<(int, Row)>) {
    Window(h.limit, h.offset, JoinRows(db.Of(AccountGroups), ids, Sort(h.order, Filter(h.preds, db.Of(Groups)))))
  }

  /** Each group of the join rows once, in order of first appearance. */
  function FirstRows(pairs: seq<(int, Row)>): (r: seq<Row>) {
    if pairs == [] then []
    else
      var n := |pairs| - 1;
      var r := FirstRows(pairs[..n]);
      if IdOf(pairs[n].1) in Ids(r) then r else r + [pairs[n].1]
  }

  /** The groups that the join rows give to one account. */
  function Wanted(pairs: seq<(int, Row)>, account: int): (r: set<int>) {
    set p | p in pairs && p.0 == account :: IdOf(p.1)
  }

  /** The first join row of a group; the number of rows when there is none. */
  ghost function FirstAt(pairs: seq<(int, Row)>, id: int): (r: nat)
    ensures r <= |pairs|
    ensures r < |pairs| ==> IdOf(pairs[r].1) == id
    ensures forall p :: 0 <= p < r ==> IdOf(pairs[p].1) != id
  {
    if pairs == [] then 0
    else
      var n := |pairs| - 1;
      var r := FirstAt(pairs[..n], id);
      if r < n || IdOf(pairs[n].1) == id then r else n + 1
  }

  ghost predicate ByFirst(pairs: seq<(int, Row)>, ids: seq<int>) {
    forall i, j :: 0 <= i < j < |ids| ==> FirstAt(pairs, ids[i]) < FirstAt(pairs, ids[j])
  }

  /** Which groups are kept: one for each id that occurs, each a row that was returned. */
  lemma {:induction false} FirstRowsLaws(pairs: seq<(int, Row)>)
    ensures DistinctIds(FirstRows(pairs))
    ensures forall i :: 0 <= i < |FirstRows(pairs)| ==>
      exists k :: 0 <= k < |pairs| && FirstRows(pairs)[i] == pairs[k].1
    ensures forall k :: 0 <= k < |pairs| ==> IdOf(pairs[k].1) in Ids(FirstRows(pairs))
  {
    if pairs != [] {
      var n := |pairs| - 1;
      FirstRowsLaws(pairs[..n]);
      var a, r := FirstRows(pairs[..n]), FirstRows(pairs);
      forall i | 0 <= i < |r| ensures exists k :: 0 <= k < |pairs| && r[i] == pairs[k].1 {
        if i < |a| {
          var k :| 0 <= k < n && a[i] == pairs[..n][k].1;
          assert r[i] == pairs[k].1;
        } else {
          assert r[i] == pairs[n].1;
        }
      }
      forall i | 0 <= i < |a| ensures IdOf(a[i]) in Ids(r) && Ids(a)[i] == Ids(r)[i] {
        assert Ids(r)[i] == IdOf(a[i]);
      }
      forall k | 0 <= k < |pairs| ensures IdOf(pairs[k].1) in Ids(r) {
        if k < n {
          assert IdOf(pairs[..n][k].1) in Ids(a);
          var i :| 0 <= i < |a| && Ids(a)[i] == IdOf(pairs[k].1);
          assert Ids(r)[i] == Ids(a)[i];
        } else if |a| < |r| {
          assert Ids(r)[|a|] == IdOf(pairs[n].1);
        }
      }
      if |a| < |r| {
        forall i | 0 <= i < |a| ensures IdOf(a[i]) != IdOf(pairs[n].1) { assert Ids(a)[i] == IdOf(a[i]); }
      }
    }
  }

  // Heights -----------------------------------------------------------------

  const EDGES: seq<Edge> := [ToGroups, ToProxy, ToParent, ToChildren, ToUsageLogs, ToAccountGroups, ToAccount, ToGroup]

  /** The height of an eager-load tree, which bounds the recursion of the loaders. */
  ghost function Height(q: Query): (r: nat)
    decreases q, 1
  {
    1 + HeightOver(q, EDGES)
  }

  ghost function HeightOver(q: Query, es: seq<Edge>): (h: nat)
    ensures forall e :: e in es && e in q.with ==> Height(q.with[e]) <= h
    decreases q, 0, |es|
  {
    if es == [] then 0
    else
      var r := HeightOver(q, es[1..]);
      var h := if es[0] in q.with then Height(q.with[es[0]]) else 0;
      if h > r then h else r
  }

  lemma HeightChild(q: Query, e: Edge)
    requires e in q.with
    ensures Height(q.with[e]) < Height(q)
  {
    assert e in EDGES by {
      match e
      case ToGroups => assert EDGES[0] == e;
      case ToProxy => assert EDGES[1] == e;
      case ToParent => assert EDGES[2] == e;
      case ToChildren => assert EDGES[3] == e;
      case ToUsageLogs => assert EDGES[4] == e;
      case ToAccountGroups => assert EDGES[5] == e;
      case ToAccount => assert EDGES[6] == e;
      case ToGroup => assert EDGES[7] == e;
    }
  }

  /** The height depends on the shape of the tree only. */
  lemma HeightHead(q: Query, h: Head)
    ensures Height(q.(head := h)) == Height(q)
  {
    HeightOverHead(q, h, EDGES);
  }

  lemma {:induction false} HeightOverHead(q: Query, h: Head, es: seq<Edge>)
    ensures HeightOver(q.(head := h), es) == HeightOver(q, es)
  {
    if es != [] { HeightOverHead(q, h, es[1..]); }
  }

  // Well-formed queries -----------------------------------------------------

  /** The non-nullable key columns. */
  predicate RowOk(t: Table, r: Row) {
    (HasId(t) ==> Id in r) && (t in {UsageLogs, AccountGroups} ==> AccountId in r) && (t == AccountGroups ==> GroupId in r)
  }

  ghost predicate ValidDb(db: Database) {
    forall t, r :: r in db.Of(t) ==> RowOk(t, r)
  }

  /** Ids are primary keys. */
  ghost predicate KeyedDb(db: Database) {
    ValidDb(db) && forall t :: HasId(t) ==> DistinctIds(db.Of(t))
  }

  /** What the builders' types guarantee: edges of the right tables; the edge builders have no traversal
      path, and no M2M loader has yet added its join to one of them. */
  ghost predicate Ready(q: Query)
    decreases q
  {
    && q.head.joins == []
    && (q.head.from.Some? ==> forall r :: r in q.head.from.value ==> RowOk(q.head.table, r))
    && (forall e :: e in q.with ==> e in EdgesOf(q.head.table))
    && forall e :: e in q.with ==>
      q.with[e].head.table == Target(e) && q.with[e].head.from.None? && Ready(q.with[e])
  }

  // The batched meaning -----------------------------------------------------

  /** The last node with an id is the one that the id maps of the O2M and M2M loaders hold. */
  ghost predicate LastOwner(rows: seq<Row>, i: int)
    requires 0 <= i < |rows|
  {
    forall j :: i < j < |rows| ==> IdOf(rows[j]) != IdOf(rows[i])
  }

  ghost function RowsOf(ts: seq<Tree>): (r: seq<Row>)
    ensures |r| == |ts| && forall i :: 0 <= i < |ts| ==> r[i] == ts[i].row
  {
    seq(|ts|, i requires 0 <= i < |ts| => ts[i].row)
  }

  ghost function Run(db: Database, q: Query): (r: Result<seq<Tree>, LoadError>)
    decreases Height(q), 1, 0
  {
    match BadField(q.head)
    case Some(c) => Err(InvalidField(c))
    case None =>
      var rows := NodeRows(db, q.head, q.with.Keys);
      if rows == [] then Ok([])
      else
        match Loads(db, q, rows, EdgesOf(q.head.table))
        case Err(x) => Err(x)
        case Ok(m) => Ok(seq(|rows|, i requires 0 <= i < |rows| => Assemble(db, q, rows, m, i)))
  }

  /** The neighbours of all enabled edges among `es`, or the first error. */
  ghost function Loads(db: Database, q: Query, rows: seq<Row>, es: seq<Edge>): (r: Result<map<Edge, seq<Tree>>, LoadError>)
    ensures r.Ok? ==> r.value.Keys == set e | e in es && e in q.with
    decreases Height(q), 0, |es|
  {
    if es == [] then Ok(map[])
    else
      var n := |es| - 1;
      assert es == es[..n] + [es[n]];
      match Loads(db, q, rows, es[..n])
      case Err(x) => Err(x)
      case Ok(m) =>
        if es[n] !in q.with then Ok(m)
        else
          HeightChild(q, es[n]);
          match Neighbors(db, q.with[es[n]], rows, es[n])
          case Err(x) => Err(x)
          case Ok(ts) => Ok(m[es[n] := ts])
  }

  /** The one query of an edge, for all nodes together; `c` is the edge's own builder. */
  ghost function Neighbors(db: Database, c: Query, rows: seq<Row>, e: Edge): (r: Result<seq<Tree>, LoadError>)
    decreases Height(c), 2, 0
  {
    match ShapeOf(e)
    case M2O =>
      var ids := FirstSeen(FkKeys(e, rows));
      HeightHead(c, LinkOneHead(c.head, ids));
      if ids == [] then Ok([]) else Run(db, LinkOne(c, ids))
    case O2M =>
      HeightHead(c, LinkManyHead(c.head, e, Ids(rows)));
      Run(db, LinkMany(c, e, Ids(rows)))
    case M2M =>
      var h := JoinedHead(db, c.head, Ids(rows));
      HeightHead(c, h);
      Run(db, c.(head := h))
  }

  /** After the join the group nodes are the deduplicated group rows. */
  ghost function JoinedHead(db: Database, h: Head, ids: seq<int>): (r: Head) {
    h.(from := Some(FirstRows(JoinSelect(db, h, ids))), unique := Some(false), preds := [], order := [], limit := None, offset := None)
  }

  ghost function Assemble(db: Database, q: Query, rows: seq<Row>, m: map<Edge, seq<Tree>>, i: int): (r: Tree)
    requires 0 <= i < |rows|
    requires m.Keys <= q.with.Keys
  {
    Tree(rows[i], map e | e in m :: LinkFor(db, q.with[e], rows, e, m[e], i))
  }

  /** Node i's share of an edge's neighbours. */
  ghost function LinkFor(db: Database, c: Query, rows: seq<Row>, e: Edge, ts: seq<Tree>, i: int): (r: Link)
    requires 0 <= i < |rows|
  {
    match ShapeOf(e)
    case M2O =>
      (match FkValue(e, rows[i])
       case None => Nil
       case Some(k) =>
         var hits := PickIn(ts, IdKeys(RowsOf(ts)), {k});
         if hits == [] then Nil else One(hits[|hits| - 1]))
    case O2M =>
      Many(if LastOwner(rows, i) then PickIn(ts, FkKeys(e, RowsOf(ts)), {IdOf(rows[i])}) else [])
    case M2M =>
      var pairs := JoinSelect(db, c.head, Ids(rows));
      Many(if LastOwner(rows, i) then PickIn(ts, IdKeys(RowsOf(ts)), Wanted(pairs, IdOf(rows[i]))) else [])
  }

  // The builders after a run ------------------------------------------------

  ghost function After(db: Database, q: Query): (r: Query)
    ensures r.head == q.head && r.with.Keys == q.with.Keys
    decreases Height(q), 1
  {
    var rows := NodeRows(db, q.head, q.with.Keys);
    if rows == [] then q
    else q.(with := map e | e in q.with :: HeightChild(q, e); AfterEdge(db, q.with[e], rows, e))
  }

  ghost function AfterEdge(db: Database, c: Query, rows: seq<Row>, e: Edge): (r: Query)
    decreases Height(c), 2
  {
    match ShapeOf(e)
    case M2O =>
      var ids := FirstSeen(FkKeys(e, rows));
      HeightHead(c, LinkOneHead(c.head, ids));
      if ids == [] then c else After(db, LinkOne(c, ids))
    case O2M =>
      HeightHead(c, LinkManyHead(c.head, e, Ids(rows)));
      After(db, LinkMany(c, e, Ids(rows)))
    case M2M =>
      c.(head := c.head.(joins := c.head.joins + [Ids(rows)]))
  }

  // The simple meaning ------------------------------------------------------

  ghost function Nested(db: Database, q: Query): (r: seq<Tree>)
    ensures |r| == |SelectRows(db, q.head)|
    ensures forall i :: 0 <= i < |r| ==> r[i] == NestTree(db, q, SelectRows(db, q.head)[i])
    decreases Height(q), 1
  {
    var rows := SelectRows(db, q.head);
    seq(|rows|, i requires 0 <= i < |rows| => NestTree(db, q, rows[i]))
  }

  ghost function NestTree(db: Database, q: Query, raw: Row): (t: Tree)
    ensures t.row == Project(q.head, q.with.Keys, raw)
    decreases Height(q), 0, 1
  {
    Tree(Project(q.head, q.with.Keys, raw), map e | e in q.with :: NestLink(db, q, e, raw))
  }

  /** One node's edge by a query of its own. */
  ghost function NestLink(db: Database, q: Query, e: Edge, raw: Row): (r: Link)
    requires e in q.with
    decreases Height(q), 0, 0
  {
    var c := q.with[e];
    HeightChild(q, e);
    match ShapeOf(e)
    case M2O =>
      (match FkValue(e, raw)
       case None => Nil
       case Some(k) =>
         HeightHead(c, LinkOneHead(c.head, [k]));
         var hits := Nested(db, LinkOne(c, [k]));
         if hits == [] then Nil else One(hits[0]))
    case O2M =>
      HeightHead(c, LinkManyHead(c.head, e, [IdOf(raw)]));
      Many(Nested(db, LinkMany(c, e, [IdOf(raw)])))
    case M2M =>
      var h := MemberHead(db, c.head, IdOf(raw));
      HeightHead(c, h);
      Many(Nested(db, c.(head := h)))
  }

  predicate Joins(members: seq<Row>, account: int, g: Row) {
    exists m :: m in members && AccountId in m && m[AccountId] == account && GroupId in m && m[GroupId] == IdOf(g)
  }

  function MemberPred(members: seq<Row>, account: int): (r: Pred) {
    Where(g => Joins(members, account, g))
  }

  /** The groups that have a membership row of the account; the M2M loader switches DISTINCT off. */
  ghost function MemberHead(db: Database, h: Head, account: int): (r: Head) {
    h.(unique := Some(false), preds := h.preds + [MemberPred(db.Of(AccountGroups), account)])
  }

  // Clones and terminal operations ------------------------------------------------

  /** `Clone` copies everything but the lock modifiers, at every level. */
  ghost function Cloned(q: Query): (r: Query)
    ensures r.head == q.head.(locks := []) && r.with.Keys == q.with.Keys
    decreases q
  {
    Query(q.head.(locks := []), map e | e in q.with :: Cloned(q.with[e]))
  }

  ghost function Limited(q: Query, limit: Option<nat>): (r: Query) {
    q.(head := q.head.(limit := limit))
  }

  datatype QueryError = Load(cause: LoadError) | NoRow | ManyRows | ColumnMismatch

  const MAX_INT32: nat := 0x7fff_ffff

  /** OFFSET and LIMIT as the scanning path writes them: a zero limit is a limit, and an offset brings one along. */
  function ScanWindow<T>(limit: Option<nat>, offset: Option<nat>, xs: seq<T>): (r: seq<T>) {
    var from := if offset.Some? then if offset.value < |xs| then offset.value else |xs| else 0;
    var cut := if limit.Some? then limit.value else if offset.Some? then MAX_INT32 else |xs|;
    var ys := xs[from..];
    if cut < |ys| then ys[..cut] else ys
  }

  /** The scanning path is DISTINCT only when asked to be. */
  function ScanRows(db: Database, h: Head): (r: seq<Row>) {
    var source := if h.unique == Some(true) then Once(Source(db, h)) else Source(db, h);
    ScanWindow(h.limit, h.offset, Sort(h.order, Filter(h.preds, source)))
  }

  /** Scanning into a list of ids takes a result of one column. */
  function ScanIds(db: Database, h: Head): (r: Result<seq<int>, QueryError>) {
    match BadField(h)
    case Some(c) => Err(Load(InvalidField(c)))
    case None => if |h.fields| != 1 then Err(ColumnMismatch) else Ok(Ids(ScanRows(db, h)))
  }

  /** `IDs` appends the id to the builder's own field list, and asks for DISTINCT along a traversal path. */
  ghost function IdSelected(q: Query): (r: Query) {
    q.(head := q.head.(fields := q.head.fields + [Id], unique := AskedUnique(q.head)))
  }

  function AskedUnique(h: Head): (r: Option<bool>) {
    if h.unique.None? && h.from.Some? then Some(true) else h.unique
  }

  /** What scanning sees of the rows of the entity query: a zero limit is a limit here, and an offset alone
      brings along the largest 32-bit one. */
  function Seen(h: Head, rows: seq<Row>): (r: seq<Row>) {
    if h.limit == Some(0) then []
    else if h.limit.None? && h.offset.Some? && MAX_INT32 < |rows| then rows[..MAX_INT32]
    else rows
  }

  /** What the id operations return: the ids of the rows of the entity query, as far as scanning sees them.
      A builder that already has fields selects a second column. */
  function Scanned(db: Database, q: Query): (r: Result<seq<int>, QueryError>) {
    match BadField(q.head)
    case Some(c) => Err(Load(InvalidField(c)))
    case None => if q.head.fields != [] then Err(ColumnMismatch) else Ok(Ids(Seen(q.head, SelectRows(db, q.head))))
  }
}
