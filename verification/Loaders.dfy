/**
 Entity objects on the heap and the in-memory joins of the loaders: the id maps, the assign
 callbacks that fill edges in place, and what the objects then are.
 One template serves every entity; an edge's shape selects its loader.
 */
module Loaders {
  import opened Collections
  import opened Store
  import opened Plan
  import opened PlanLaws
  import opened EagerLaws

  datatype EdgeError = NotLoaded | NotFound

  /** A loaded entity.  A to-one edge that is nil has no entry in `one`. */
  class Node {
    const row: Row
    const loaded: set<Edge>
    var one: map<Edge, Node>
    var many: map<Edge, seq<Node>>

    constructor (row: Row, loaded: set<Edge>)
      ensures this.row == row && this.loaded == loaded && one == map[] && many == map[]
    {
      this.row, this.loaded := row, loaded;
      one, many := map[], map[];
    }

    /** The `<Edge>OrErr` accessor of a to-one edge. */
    function OneOrErr(e: Edge): (r: Result<Node, EdgeError>)
      reads this
    {
      if e in one then Ok(one[e]) else if e in loaded then Err(NotFound) else Err(NotLoaded)
    }

    /** The `<Edge>OrErr` accessor of a to-many edge. */
    function ManyOrErr(e: Edge): (r: Result<seq<Node>, EdgeError>)
      reads this
    {
      if e in loaded then Ok(if e in many then many[e] else []) else Err(NotLoaded)
    }
  }

  function Rows(nodes: seq<Node>): (r: seq<Row>)
    ensures |r| == |nodes| && forall i :: 0 <= i < |nodes| ==> r[i] == nodes[i].row
  {
    seq(|nodes|, i requires 0 <= i < |nodes| => nodes[i].row)
  }

  // Objects and trees -------------------------------------------------------

  /** The object `n` is the tree `t`; `kids` holds every object below it. */
  ghost predicate Rep(n: Node, t: Tree, kids: set<Node>)
    reads n, kids
    decreases t, 1
  {
    && n.row == t.row && n.loaded == t.edges.Keys
    && n.one.Keys + n.many.Keys <= t.edges.Keys
    && forall e :: e in t.edges ==> RepAt(n.one, n.many, e, t.edges[e], kids)
  }

  /** The entries of the edge maps at `e` are the link `l`. */
  ghost predicate RepAt(one: map<Edge, Node>, many: map<Edge, seq<Node>>, e: Edge, l: Link, kids: set<Node>)
    reads kids
    decreases l, 0
  {
    match l
    case Nil => e !in one && e !in many
    case One(t) => e !in many && e in one && one[e] in kids && Rep(one[e], t, kids)
    case Many(ts) =>
      e !in one && e in many && |many[e]| == |ts|
      && forall i :: 0 <= i < |ts| ==> many[e][i] in kids && Rep(many[e][i], ts[i], kids)
  }

  ghost predicate RepLink(n: Node, e: Edge, l: Link, kids: set<Node>)
    reads n, kids
  {
    RepAt(n.one, n.many, e, l, kids)
  }

  /** The edges loaded so far. */
  ghost predicate RepEdges(n: Node, edges: map<Edge, Link>, kids: set<Node>)
    reads n, kids
  {
    n.one.Keys + n.many.Keys <= edges.Keys && forall e :: e in edges ==> RepLink(n, e, edges[e], kids)
  }

  ghost predicate RepAll(ns: seq<Node>, ts: seq<Tree>, kids: set<Node>)
    reads ns, kids
  {
    |ns| == |ts| && forall i :: 0 <= i < |ts| ==> Rep(ns[i], ts[i], kids)
  }

  lemma {:induction false} RepMono(n: Node, t: Tree, kids: set<Node>, more: set<Node>)
    requires Rep(n, t, kids) && kids <= more
    ensures Rep(n, t, more)
    decreases t, 1
  {
    forall e | e in t.edges ensures RepAt(n.one, n.many, e, t.edges[e], more) {
      RepAtMono(n.one, n.many, e, t.edges[e], kids, more);
    }
  }

  lemma {:induction false} RepAtMono(one: map<Edge, Node>, many: map<Edge, seq<Node>>, e: Edge, l: Link, kids: set<Node>, more: set<Node>)
    requires RepAt(one, many, e, l, kids) && kids <= more
    ensures RepAt(one, many, e, l, more)
    decreases l, 0
  {
    match l
    case Nil =>
    case One(t) => RepMono(one[e], t, kids, more);
    case Many(ts) => forall i | 0 <= i < |ts| ensures Rep(many[e][i], ts[i], more) { RepMono(many[e][i], ts[i], kids, more); }
  }

  /** One more edge is loaded: the others keep their entries, and the objects below them are untouched. */
  lemma NextEdge(n: Node, one: map<Edge, Node>, many: map<Edge, seq<Node>>, edges: map<Edge, Link>, e: Edge, l: Link,
                 kids: set<Node>, below: set<Node>)
    requires one.Keys + many.Keys <= edges.Keys && forall f :: f in edges ==> RepAt(one, many, f, edges[f], kids)
    requires e !in edges && OnlyAt(one, n.one, e) && OnlyAt(many, n.many, e) && RepLink(n, e, l, below)
    ensures RepEdges(n, edges[e := l], kids + below)
  {
    var all := edges[e := l];
    forall f | f in all ensures RepLink(n, f, all[f], kids + below) {
      if f == e {
        RepAtMono(n.one, n.many, e, l, below, kids + below);
      } else {
        assert RepAt(n.one, n.many, f, edges[f], kids);
        RepAtMono(n.one, n.many, f, edges[f], kids, kids + below);
      }
    }
    forall f | f in n.one.Keys + n.many.Keys ensures f in all {
      if f != e { assert f in one.Keys + many.Keys; }
    }
  }

  /** Picking the same places of represented trees. */
  lemma PickRep(ns: seq<Node>, ts: seq<Tree>, kids: set<Node>, keys: seq<Option<int>>, want: set<int>)
    requires RepAll(ns, ts, kids) && |keys| == |ns|
    ensures RepAll(PickIn(ns, keys, want), PickIn(ts, keys, want), kids)
    ensures forall x :: x in PickIn(ns, keys, want) ==> x in ns
  {
    PickParallel(ns, ts, keys, want);
  }

  // Loader steps ------------------------------------------------------------

  function Last<T>(xs: seq<T>): (r: T)
    requires xs != []
  {
    xs[|xs| - 1]
  }

  lemma {:induction false} PickNodes(nodes: seq<Node>, keys: seq<Option<int>>, want: set<int>)
    requires |keys| == |nodes|
    ensures forall i :: 0 <= i < |nodes| && keys[i].Some? && keys[i].value in want ==> nodes[i] in PickIn(nodes, keys, want)
    ensures forall x :: x in PickIn(nodes, keys, want) ==> exists i :: 0 <= i < |nodes| && nodes[i] == x && keys[i].Some? && keys[i].value in want
  {
    if nodes != [] {
      var n := |nodes| - 1;
      PickNodes(nodes[..n], keys[..n], want);
      var r := PickIn(nodes[..n], keys[..n], want);
      forall x | x in PickIn(nodes, keys, want)
        ensures exists i :: 0 <= i < |nodes| && nodes[i] == x && keys[i].Some? && keys[i].value in want
      {
        if x in r {
          var i :| 0 <= i < n && nodes[..n][i] == x && keys[..n][i].Some? && keys[..n][i].value in want;
          assert nodes[i] == x && keys[i].Some?;
        }
      }
    }
  }

  /** The id map of an M2O loader: each referenced id once, with the nodes that reference it. */
  ghost predicate Indexed(ids: seq<int>, nodeids: map<int, seq<Node>>, nodes: seq<Node>, keys: seq<Option<int>>)
    requires |keys| == |nodes|
  {
    && ids == FirstSeen(keys)
    && (forall k :: k in nodeids <==> k in ids)
    && forall k :: k in nodeids ==> nodeids[k] == PickIn(nodes, keys, {k})
  }

  lemma FirstSeenAppend(keys: seq<Option<int>>, key: Option<int>)
    ensures FirstSeen(keys + [key])
      == if key.Some? && key.value !in FirstSeen(keys) then FirstSeen(keys) + [key.value] else FirstSeen(keys)
  {
    assert (keys + [key])[..|keys|] == keys;
  }

  function IndexStep(nodeids: map<int, seq<Node>>, n: Node, key: Option<int>): (r: map<int, seq<Node>>) {
    match key
    case None => nodeids
    case Some(fk) => if fk !in nodeids then nodeids[fk := [n]] else nodeids[fk := nodeids[fk] + [n]]
  }

  lemma IndexedSnoc(ids: seq<int>, nodeids: map<int, seq<Node>>, nodes: seq<Node>, keys: seq<Option<int>>, n: Node, key: Option<int>)
    requires |keys| == |nodes| && Indexed(ids, nodeids, nodes, keys)
    ensures Indexed(FirstSeen(keys + [key]), IndexStep(nodeids, n, key), nodes + [n], keys + [key])
  {
    FirstSeenAppend(keys, key);
    var m := IndexStep(nodeids, n, key);
    forall k | k in m ensures m[k] == PickIn(nodes + [n], keys + [key], {k}) {
      PickAppend(nodes, keys, n, key, {k});
      if k !in nodeids {
        PickAbsent(nodes, keys, k);
        assert [] + [n] == [n];
      }
    }
  }

  /** M2O, first half. */
  method IndexByFk(nodes: seq<Node>, e: Edge) returns (ids: seq<int>, nodeids: map<int, seq<Node>>)
    ensures Indexed(ids, nodeids, nodes, FkKeys(e, Rows(nodes)))
  {
    ids, nodeids := [], map[];
    for i := 0 to |nodes|
      invariant Indexed(ids, nodeids, nodes[..i], FkKeys(e, Rows(nodes[..i])))
    {
      hide PickIn, FirstSeen, FkValue, FkKeys, Rows;
      var key := FkValue(e, nodes[i].row);
      ghost var keys := FkKeys(e, Rows(nodes[..i]));
      KeysSnoc(nodes, i, e);
      IndexedSnoc(ids, nodeids, nodes[..i], keys, nodes[i], key);
      FirstSeenAppend(keys, key);
      if key.Some? {
        var fk := key.value;
        if fk !in nodeids {
          ids := ids + [fk];
          nodeids := nodeids[fk := [nodes[i]]];
        } else {
          nodeids := nodeids[fk := nodeids[fk] + [nodes[i]]];
        }
      }
    }
    assert nodes[..|nodes|] == nodes;
  }

  lemma {:induction false} PickAbsent<T>(xs: seq<T>, keys: seq<Option<int>>, k: int)
    requires |keys| == |xs| && Some(k) !in keys
    ensures PickIn(xs, keys, {k}) == []
  {
    if xs != [] { PickAbsent(xs[..|xs| - 1], keys[..|xs| - 1], k); }
  }

  /** The to-one edges of a node after the neighbours were assigned: the last one with its key. */
  function Assigned(one: map<Edge, Node>, e: Edge, key: Option<int>, neighbors: seq<Node>): (r: map<Edge, Node>) {
    match key
    case None => one
    case Some(k) =>
      var hits := PickIn(neighbors, IdKeys(Rows(neighbors)), {k});
      if hits == [] then one else one[e := Last(hits)]
  }

  /** The assign callback of a to-one edge, for all nodes that reference `x`. */
  method AssignAll(owners: seq<Node>, e: Edge, x: Node)
    modifies owners
    ensures forall n :: n in owners ==> n.one == old(n.one)[e := x] && n.many == old(n.many)
  {
    for i := 0 to |owners|
      invariant forall n :: n in owners ==> n.many == old(n.many)
      invariant forall n :: n in owners ==> n.one == if n in owners[..i] then old(n.one)[e := x] else old(n.one)
    {
      owners[i].one := owners[i].one[e := x];
    }
  }

  lemma AssignedSnoc(one: map<Edge, Node>, e: Edge, key: Option<int>, neighbors: seq<Node>, x: Node)
    ensures Assigned(one, e, key, neighbors + [x])
      == if key == Some(IdOf(x.row)) then Assigned(one, e, key, neighbors)[e := x] else Assigned(one, e, key, neighbors)
  {
    if key.Some? {
      PickAppend(neighbors, IdKeys(Rows(neighbors)), x, Some(IdOf(x.row)), {key.value});
      assert IdKeys(Rows(neighbors + [x])) == IdKeys(Rows(neighbors)) + [Some(IdOf(x.row))];
    }
  }

  /** M2O, second half. */
  method AssignOne(nodes: seq<Node>, nodeids: map<int, seq<Node>>, neighbors: seq<Node>, e: Edge)
    returns (r: Option<LoadError>)
    requires forall k :: k in nodeids ==> nodeids[k] == PickIn(nodes, FkKeys(e, Rows(nodes)), {k})
    modifies nodes
    ensures r.None? <==> forall x :: x in neighbors ==> IdOf(x.row) in nodeids
    ensures r.Some? ==> r.value == Unexpected(e)
    ensures r.None? ==> forall n :: n in nodes ==>
      n.many == old(n.many) && n.one == Assigned(old(n.one), e, FkValue(e, n.row), neighbors)
  {
    for j := 0 to |neighbors|
      invariant forall x :: x in neighbors[..j] ==> IdOf(x.row) in nodeids
      invariant forall n :: n in nodes ==> n.many == old(n.many)
      invariant forall n :: n in nodes ==> n.one == Assigned(old(n.one), e, FkValue(e, n.row), neighbors[..j])
    {
      var x := neighbors[j];
      if IdOf(x.row) !in nodeids {
        return Some(Unexpected(e));
      }
      var owners := nodeids[IdOf(x.row)];
      OwnersOf(nodes, e, IdOf(x.row));
      assert neighbors[..j + 1] == neighbors[..j] + [x];
      assert forall i :: 0 <= i < |owners| ==> owners[i] in nodes;
      forall n | n in nodes
        ensures Assigned(old(n.one), e, FkValue(e, n.row), neighbors[..j + 1])
          == if n in owners then Assigned(old(n.one), e, FkValue(e, n.row), neighbors[..j])[e := x]
             else Assigned(old(n.one), e, FkValue(e, n.row), neighbors[..j])
      {
        AssignedSnoc(old(n.one), e, FkValue(e, n.row), neighbors[..j], x);
      }
      AssignAll(owners, e, x);
    }
    assert neighbors[..|neighbors|] == neighbors;
    return None;
  }

  /** The nodes listed under an id are those that reference it. */
  lemma OwnersOf(nodes: seq<Node>, e: Edge, k: int)
    ensures forall n :: n in PickIn(nodes, FkKeys(e, Rows(nodes)), {k}) <==> n in nodes && FkValue(e, n.row) == Some(k)
  {
    PickNodes(nodes, FkKeys(e, Rows(nodes)), {k});
  }

  /** The id map of the O2M and M2M loaders: for each id the last node that has it. */
  ghost predicate ById(nodeids: map<int, Node>, nodes: seq<Node>) {
    && (forall i :: 0 <= i < |nodes| ==> IdOf(nodes[i].row) in nodeids)
    && forall k :: k in nodeids ==>
      exists i :: 0 <= i < |nodes| && nodeids[k] == nodes[i] && IdOf(nodes[i].row) == k && LastOwner(Rows(nodes), i)
  }

  /** The owner that the map holds for an id. */
  lemma OwnerOf(nodeids: map<int, Node>, nodes: seq<Node>, k: int) returns (i: nat)
    requires ById(nodeids, nodes) && k in nodeids
    ensures i < |nodes| && nodeids[k] == nodes[i] && IdOf(nodes[i].row) == k && LastOwner(Rows(nodes), i)
    ensures forall j :: 0 <= j < |nodes| && LastOwner(Rows(nodes), j) && IdOf(nodes[j].row) == k ==> j == i
  {
    i :| 0 <= i < |nodes| && nodeids[k] == nodes[i] && IdOf(nodes[i].row) == k && LastOwner(Rows(nodes), i);
    forall j | 0 <= j < |nodes| && LastOwner(Rows(nodes), j) && IdOf(nodes[j].row) == k ensures j == i {
      assert IdOf(Rows(nodes)[i]) == IdOf(Rows(nodes)[j]);
    }
  }

  lemma ByIdSnoc(nodeids: map<int, Node>, nodes: seq<Node>, n: Node)
    requires ById(nodeids, nodes)
    ensures ById(nodeids[IdOf(n.row) := n], nodes + [n])
  {
    var m, ns := nodeids[IdOf(n.row) := n], nodes + [n];
    forall k | k in m
      ensures exists i :: 0 <= i < |ns| && m[k] == ns[i] && IdOf(ns[i].row) == k && LastOwner(Rows(ns), i)
    {
      if k == IdOf(n.row) {
        assert m[k] == ns[|nodes|] && LastOwner(Rows(ns), |nodes|);
      } else {
        var i := OwnerOf(nodeids, nodes, k);
        assert m[k] == ns[i] && IdOf(ns[i].row) == k;
        forall j | i < j < |ns| ensures IdOf(Rows(ns)[j]) != IdOf(Rows(ns)[i]) {
          if j < |nodes| { assert Rows(ns)[j] == Rows(nodes)[j]; }
        }
      }
    }
  }

  /** O2M and M2M, first half: the id map, and every node's list started empty. */
  method IndexById(nodes: seq<Node>, e: Edge) returns (ids: seq<int>, nodeids: map<int, Node>)
    modifies nodes
    ensures ids == Ids(Rows(nodes)) && ById(nodeids, nodes)
    ensures forall n :: n in nodes ==> n.one == old(n.one) && n.many == old(n.many)[e := []]
    ensures forall n :: n in nodes ==> e in n.many && n.many[e] == []
  {
    ids, nodeids := [], map[];
    for i := 0 to |nodes|
      invariant ids == Ids(Rows(nodes[..i])) && ById(nodeids, nodes[..i])
      invariant forall n :: n in nodes ==> n.one == old(n.one)
      invariant forall n :: n in nodes ==> n.many == if n in nodes[..i] then old(n.many)[e := []] else old(n.many)
    {
      assert nodes[..i + 1] == nodes[..i] + [nodes[i]];
      ByIdSnoc(nodeids, nodes[..i], nodes[i]);
      ids := ids + [IdOf(nodes[i].row)];
      nodeids := nodeids[IdOf(nodes[i].row) := nodes[i]];
      nodes[i].many := nodes[i].many[e := []];
    }
    assert nodes[..|nodes|] == nodes;
  }

  /** Node i's share of the neighbours: those with its id, unless a later node has the id as well. */
  ghost function Share(nodes: seq<Node>, i: int, neighbors: seq<Node>, keys: seq<Option<int>>): (r: seq<Node>)
    requires 0 <= i < |nodes| && |keys| == |neighbors|
  {
    if LastOwner(Rows(nodes), i) then PickIn(neighbors, keys, {IdOf(nodes[i].row)}) else []
  }

  lemma KeysSnoc(nodes: seq<Node>, j: nat, e: Edge)
    requires j < |nodes|
    ensures nodes[..j + 1] == nodes[..j] + [nodes[j]]
    ensures FkKeys(e, Rows(nodes[..j + 1])) == FkKeys(e, Rows(nodes[..j])) + [FkValue(e, nodes[j].row)]
  {}

  ghost function Shares(nodes: seq<Node>, neighbors: seq<Node>, keys: seq<Option<int>>): (r: seq<seq<Node>>)
    requires |keys| == |neighbors|
    ensures |r| == |nodes| && forall i :: 0 <= i < |nodes| ==> r[i] == Share(nodes, i, neighbors, keys)
  {
    seq(|nodes|, i requires 0 <= i < |nodes| => Share(nodes, i, neighbors, keys))
  }

  lemma SharesSnoc(nodes: seq<Node>, neighbors: seq<Node>, keys: seq<Option<int>>, x: Node, fk: int, o: nat)
    requires |keys| == |neighbors| && o < |nodes| && LastOwner(Rows(nodes), o) && IdOf(nodes[o].row) == fk
    requires forall j :: 0 <= j < |nodes| && LastOwner(Rows(nodes), j) && IdOf(nodes[j].row) == fk ==> j == o
    ensures Shares(nodes, neighbors + [x], keys + [Some(fk)])
      == Shares(nodes, neighbors, keys)[o := Share(nodes, o, neighbors, keys) + [x]]
  {
    forall i | 0 <= i < |nodes|
      ensures Share(nodes, i, neighbors + [x], keys + [Some(fk)])
        == if i == o then Share(nodes, i, neighbors, keys) + [x] else Share(nodes, i, neighbors, keys)
    {
      PickAppend(neighbors, keys, x, Some(fk), {IdOf(nodes[i].row)});
    }
  }

  lemma UpdateTwice<K, V>(m: map<K, V>, k: K, a: V, b: V)
    ensures m[k := a][k := b] == m[k := b]
  {}

  ghost function Ones(nodes: seq<Node>): (r: seq<map<Edge, Node>>)
    reads nodes
    ensures |r| == |nodes| && forall i :: 0 <= i < |nodes| ==> r[i] == nodes[i].one
  {
    seq(|nodes|, i requires 0 <= i < |nodes| reads nodes => nodes[i].one)
  }

  ghost function Manys(nodes: seq<Node>): (r: seq<map<Edge, seq<Node>>>)
    reads nodes
    ensures |r| == |nodes| && forall i :: 0 <= i < |nodes| ==> r[i] == nodes[i].many
  {
    seq(|nodes|, i requires 0 <= i < |nodes| reads nodes => nodes[i].many)
  }

  /** Every node has its list so far, and is otherwise as it was. */
  ghost predicate Listed(nodes: seq<Node>, ones: seq<map<Edge, Node>>, manys: seq<map<Edge, seq<Node>>>, e: Edge, shares: seq<seq<Node>>)
    reads nodes
  {
    |ones| == |manys| == |shares| == |nodes|
    && forall i :: 0 <= i < |nodes| ==> nodes[i].one == ones[i] && nodes[i].many == manys[i][e := shares[i]]
  }

  /** The assign callback of a to-many edge. */
  method Append(node: Node, e: Edge, x: Node, ghost nodes: seq<Node>, ghost o: nat, ghost ones: seq<map<Edge, Node>>,
                ghost manys: seq<map<Edge, seq<Node>>>, ghost shares: seq<seq<Node>>)
    requires Distinct(nodes) && o < |nodes| && nodes[o] == node && Listed(nodes, ones, manys, e, shares)
    modifies node`many
    ensures Listed(nodes, ones, manys, e, shares[o := shares[o] + [x]])
  {
    assert node.many == manys[o][e := shares[o]];
    UpdateTwice(manys[o], e, shares[o], shares[o] + [x]);
    node.many := node.many[e := node.many[e] + [x]];
    assert forall i :: 0 <= i < |nodes| && i != o ==> nodes[i] != node;
  }

  ghost predicate Keyed(neighbors: seq<Node>, e: Edge, nodeids: map<int, Node>) {
    forall j :: 0 <= j < |neighbors| ==> FkValue(e, neighbors[j].row).Some? && FkValue(e, neighbors[j].row).value in nodeids
  }

  lemma KeyedSnoc(neighbors: seq<Node>, e: Edge, nodeids: map<int, Node>, x: Node)
    requires Keyed(neighbors, e, nodeids) && FkValue(e, x.row).Some? && FkValue(e, x.row).value in nodeids
    ensures Keyed(neighbors + [x], e, nodeids)
  {}

  /** O2M, second half. */
  method AppendMany(nodes: seq<Node>, nodeids: map<int, Node>, neighbors: seq<Node>, e: Edge)
    returns (r: Option<LoadError>)
    requires Distinct(nodes) && ById(nodeids, nodes)
    requires forall n :: n in nodes ==> e in n.many && n.many[e] == []
    modifies nodes
    ensures r.None? <==> Keyed(neighbors, e, nodeids)
    ensures r.Some? ==> r.value in {NilKey(e), Unexpected(e)}
    ensures r.None? ==> forall i :: 0 <= i < |nodes| ==>
      && nodes[i].one == old(nodes[i].one)
      && nodes[i].many == old(nodes[i].many)[e := Share(nodes, i, neighbors, FkKeys(e, Rows(neighbors)))]
  {
    ghost var shares := Shares(nodes, [], []);
    ghost var ones, manys := Ones(nodes), Manys(nodes);
    StartListed(nodes, e);
    for j := 0 to |neighbors|
      invariant Keyed(neighbors[..j], e, nodeids)
      invariant shares == Shares(nodes, neighbors[..j], FkKeys(e, Rows(neighbors[..j])))
      invariant Listed(nodes, ones, manys, e, shares)
    {
      hide Listed, Keyed, Share;
      var x := neighbors[j];
      var key := FkValue(e, x.row);
      KeysSnoc(neighbors, j, e);
      if key.None? {
        Unkeyed(neighbors, e, nodeids, j);
        return Some(NilKey(e));
      }
      var fk := key.value;
      if fk !in nodeids {
        Unkeyed(neighbors, e, nodeids, j);
        return Some(Unexpected(e));
      }
      var node := nodeids[fk];
      ghost var o := OwnerOf(nodeids, nodes, fk);
      KeyedSnoc(neighbors[..j], e, nodeids, x);
      SharesSnoc(nodes, neighbors[..j], FkKeys(e, Rows(neighbors[..j])), x, fk, o);
      Append(node, e, x, nodes, o, ones, manys, shares);
      shares := shares[o := shares[o] + [x]];
    }
    assert neighbors[..|neighbors|] == neighbors;
    return None;
  }

  lemma StartListed(nodes: seq<Node>, e: Edge)
    requires forall n :: n in nodes ==> e in n.many && n.many[e] == []
    ensures Listed(nodes, Ones(nodes), Manys(nodes), e, Shares(nodes, [], []))
  {
    forall i | 0 <= i < |nodes| ensures Share(nodes, i, [], []) == [] && nodes[i].many == nodes[i].many[e := []] {
      assert nodes[i] in nodes;
    }
  }

  lemma Unkeyed(neighbors: seq<Node>, e: Edge, nodeids: map<int, Node>, j: nat)
    requires j < |neighbors| && !(FkValue(e, neighbors[j].row).Some? && FkValue(e, neighbors[j].row).value in nodeids)
    ensures !Keyed(neighbors, e, nodeids)
  {}

  // M2M ---------------------------------------------------------------------

  ghost predicate Owned(pairs: seq<(int, Row)>, byId: map<int, Node>) {
    forall p :: 0 <= p < |pairs| ==> pairs[p].0 in byId
  }

  /** The accounts that the join rows attach to group `k`. */
  ghost function Members(pairs: seq<(int, Row)>, byId: map<int, Node>, k: int): (r: set<Node>)
    requires Owned(pairs, byId)
  {
    if pairs == [] then {}
    else
      var n := |pairs| - 1;
      var r := Members(pairs[..n], byId, k);
      if IdOf(pairs[n].1) == k then r + {byId[pairs[n].0]} else r
  }

  /** State of the row hook: which groups have been seen, and with which accounts. */
  ghost predicate Hooked(nids: map<int, set<Node>>, pairs: seq<(int, Row)>, byId: map<int, Node>)
    requires Owned(pairs, byId)
  {
    && (forall k :: k in nids <==> k in Ids(FirstRows(pairs)))
    && forall k :: k in nids ==> nids[k] == Members(pairs, byId, k)
  }

  lemma IdsSnoc(rows: seq<Row>, r: Row)
    ensures Ids(rows + [r]) == Ids(rows) + [IdOf(r)]
  {}

  lemma {:induction false} MembersAbsent(pairs: seq<(int, Row)>, byId: map<int, Node>, k: int)
    requires Owned(pairs, byId) && k !in Ids(FirstRows(pairs))
    ensures Members(pairs, byId, k) == {}
  {
    if pairs != [] {
      var n := |pairs| - 1;
      var f := FirstRows(pairs[..n]);
      IdsSnoc(f, pairs[n].1);
      MembersAbsent(pairs[..n], byId, k);
    }
  }

  /** One row through the hook: a new group, or one more account of a known group. */
  function HookStep(nids: map<int, set<Node>>, n: Node, k: int): (r: map<int, set<Node>>) {
    if k !in nids then nids[k := {n}] else nids[k := nids[k] + {n}]
  }

  lemma HookedSnoc(nids: map<int, set<Node>>, pairs: seq<(int, Row)>, byId: map<int, Node>, x: (int, Row))
    requires Owned(pairs + [x], byId) && Owned(pairs, byId) && Hooked(nids, pairs, byId) && x.0 in byId
    ensures Hooked(HookStep(nids, byId[x.0], IdOf(x.1)), pairs + [x], byId)
    ensures FirstRows(pairs + [x]) == if IdOf(x.1) in nids then FirstRows(pairs) else FirstRows(pairs) + [x.1]
  {
    var ps := pairs + [x];
    var id := IdOf(x.1);
    assert ps[..|pairs|] == pairs;
    IdsSnoc(FirstRows(pairs), x.1);
    var m := HookStep(nids, byId[x.0], id);
    forall k | k in m ensures m[k] == Members(ps, byId, k) {
      if k !in nids { MembersAbsent(pairs, byId, k); }
    }
  }

  lemma PairsSnoc(pairs: seq<(int, Row)>, p: nat)
    requires p < |pairs|
    ensures pairs[..p + 1] == pairs[..p] + [pairs[p]]
  {}

  /** The objects that the hook makes of the join rows. */
  ghost predicate MadeOf(groups: seq<Node>, h: Head, pairs: seq<(int, Row)>)
    reads groups
  {
    && Rows(groups) == ProjectAll(h, {}, FirstRows(pairs))
    && forall g :: g in groups ==> g.loaded == {} && g.one == map[] && g.many == map[]
  }

  /** The query with the row hook: a group object for the first row of each group. */
  method ScanJoined(pairs: seq<(int, Row)>, byId: map<int, Node>, head: Head)
    returns (groups: seq<Node>, nids: map<int, set<Node>>)
    requires Owned(pairs, byId) && HasId(head.table)
    ensures Hooked(nids, pairs, byId) && fresh(set g | g in groups) && MadeOf(groups, head, pairs)
  {
    groups, nids := [], map[];
    for p := 0 to |pairs|
      invariant Owned(pairs[..p], byId) && Hooked(nids, pairs[..p], byId)
      invariant fresh(set g | g in groups) && MadeOf(groups, head, pairs[..p])
    {
      hide *;
      PairsSnoc(pairs, p);
      OwnedSnoc(pairs, byId, p);
      HookedSnoc(nids, pairs[..p], byId, pairs[p]);
      var row := Project(head, {}, pairs[p].1);
      ProjectId(head, {}, pairs[p].1);
      var outValue, inValue := pairs[p].0, IdOf(row);
      HookStepIs(nids, byId[outValue], inValue);
      if inValue !in nids {
        nids := nids[inValue := {byId[outValue]}];
        var g := new Node(row, {});
        groups := groups + [g];
        MadeNew(groups, head, pairs[..p], pairs[p]);
      } else {
        nids := nids[inValue := nids[inValue] + {byId[outValue]}];
        MadeSame(groups, head, pairs[..p], pairs[p]);
      }
    }
    assert pairs[..|pairs|] == pairs;
  }

  lemma HookStepIs(nids: map<int, set<Node>>, n: Node, k: int)
    ensures HookStep(nids, n, k) == if k !in nids then nids[k := {n}] else nids[k := nids[k] + {n}]
  {}

  lemma OwnedSnoc(pairs: seq<(int, Row)>, byId: map<int, Node>, p: nat)
    requires Owned(pairs, byId) && p < |pairs|
    ensures pairs[p].0 in byId && Owned(pairs[..p], byId) && Owned(pairs[..p] + [pairs[p]], byId)
  {}

  lemma MadeNew(groups: seq<Node>, h: Head, pairs: seq<(int, Row)>, x: (int, Row))
    requires groups != [] && MadeOf(groups[..|groups| - 1], h, pairs) && FirstRows(pairs + [x]) == FirstRows(pairs) + [x.1]
    requires var g := groups[|groups| - 1]; g.row == Project(h, {}, x.1) && g.loaded == {} && g.one == map[] && g.many == map[]
    ensures MadeOf(groups, h, pairs + [x])
  {
    hide FirstRows, Project;
    var n := |groups| - 1;
    assert groups == groups[..n] + [groups[n]];
    assert Rows(groups) == Rows(groups[..n]) + [groups[n].row];
    assert ProjectAll(h, {}, FirstRows(pairs) + [x.1]) == ProjectAll(h, {}, FirstRows(pairs)) + [Project(h, {}, x.1)];
  }

  lemma MadeSame(groups: seq<Node>, h: Head, pairs: seq<(int, Row)>, x: (int, Row))
    requires MadeOf(groups, h, pairs) && FirstRows(pairs + [x]) == FirstRows(pairs)
    ensures MadeOf(groups, h, pairs + [x])
  {}

  /** The assign callback for every account of a group, in whatever order the inner map yields them. */
  method AppendAll(accounts: set<Node>, e: Edge, x: Node)
    requires forall n :: n in accounts ==> e in n.many
    modifies accounts
    ensures forall n :: n in accounts ==> n.one == old(n.one) && n.many == old(n.many)[e := old(n.many[e]) + [x]]
  {
    var todo := accounts;
    while todo != {}
      invariant todo <= accounts
      invariant forall n :: n in accounts ==> n.one == old(n.one)
      invariant forall n :: n in accounts ==>
        n.many == if n in todo then old(n.many) else old(n.many)[e := old(n.many[e]) + [x]]
      decreases todo
    {
      var kn :| kn in todo;
      kn.many := kn.many[e := kn.many[e] + [x]];
      todo := todo - {kn};
    }
  }

  /** The groups that have `n` among their accounts. */
  ghost function GroupsOf(groups: seq<Node>, nids: map<int, set<Node>>, n: Node): (r: seq<Node>) {
    if groups == [] then []
    else
      var k := |groups| - 1;
      var r := GroupsOf(groups[..k], nids, n);
      var id := IdOf(groups[k].row);
      if id in nids && n in nids[id] then r + [groups[k]] else r
  }

  lemma GroupsSnoc(groups: seq<Node>, k: nat)
    requires k < |groups|
    ensures groups[..k + 1] == groups[..k] + [groups[k]]
    ensures groups[..k + 1][..k] == groups[..k]
  {}

  /** M2M, second half. */
  method AssignJoined(nodes: seq<Node>, groups: seq<Node>, nids: map<int, set<Node>>, e: Edge)
    returns (r: Option<LoadError>)
    requires forall k, n :: k in nids && n in nids[k] ==> n in nodes
    requires forall n :: n in nodes ==> e in n.many && n.many[e] == []
    modifies nodes
    ensures r.None? <==> forall g :: g in groups ==> IdOf(g.row) in nids
    ensures r.Some? ==> r.value == Unexpected(e)
    ensures r.None? ==> forall n :: n in nodes ==>
      n.one == old(n.one) && n.many == old(n.many)[e := GroupsOf(groups, nids, n)]
  {
    for k := 0 to |groups|
      invariant forall g :: g in groups[..k] ==> IdOf(g.row) in nids
      invariant forall n :: n in nodes ==> n.one == old(n.one)
      invariant forall n :: n in nodes ==> n.many == old(n.many)[e := GroupsOf(groups[..k], nids, n)]
    {
      var g := groups[k];
      GroupsSnoc(groups, k);
      if IdOf(g.row) !in nids {
        return Some(Unexpected(e));
      }
      forall n | n in nodes
        ensures old(n.many)[e := GroupsOf(groups[..k + 1], nids, n)]
          == if n in nids[IdOf(g.row)] then old(n.many)[e := GroupsOf(groups[..k], nids, n)][e := GroupsOf(groups[..k], nids, n) + [g]]
             else old(n.many)[e := GroupsOf(groups[..k], nids, n)]
      {
        UpdateTwice(old(n.many), e, GroupsOf(groups[..k], nids, n), GroupsOf(groups[..k], nids, n) + [g]);
      }
      assert forall n :: n in nids[IdOf(g.row)] ==> n in nodes;
      AppendAll(nids[IdOf(g.row)], e, g);
    }
    assert groups[..|groups|] == groups;
    return None;
  }

  lemma {:induction false} MembersIff(pairs: seq<(int, Row)>, byId: map<int, Node>, k: int, nodes: seq<Node>, i: int)
    requires Owned(pairs, byId) && ById(byId, nodes) && Distinct(nodes) && 0 <= i < |nodes|
    ensures nodes[i] in Members(pairs, byId, k) <==> LastOwner(Rows(nodes), i) && k in Wanted(pairs, IdOf(nodes[i].row))
  {
    if pairs != [] {
      var n := |pairs| - 1;
      MembersIff(pairs[..n], byId, k, nodes, i);
      var o := OwnerOf(byId, nodes, pairs[n].0);
      assert nodes[o] in nodes;
      WantedSnoc(pairs, IdOf(nodes[i].row));
    }
  }

  lemma {:induction false} MembersIn(pairs: seq<(int, Row)>, byId: map<int, Node>, k: int, nodes: seq<Node>)
    requires Owned(pairs, byId) && ById(byId, nodes)
    ensures forall n :: n in Members(pairs, byId, k) ==> n in nodes
  {
    if pairs != [] {
      MembersIn(pairs[..|pairs| - 1], byId, k, nodes);
      var o := OwnerOf(byId, nodes, pairs[|pairs| - 1].0);
      assert nodes[o] in nodes;
    }
  }

  lemma WantedSnoc(pairs: seq<(int, Row)>, a: int)
    requires pairs != []
    ensures var n := |pairs| - 1;
      Wanted(pairs, a) == if pairs[n].0 == a then Wanted(pairs[..n], a) + {IdOf(pairs[n].1)} else Wanted(pairs[..n], a)
  {
    assert pairs == pairs[..|pairs| - 1] + [pairs[|pairs| - 1]];
  }

  /** The groups appended to node i are the ones that the join rows give it, if it is the last with its id. */
  lemma {:induction false} GroupsShare(nodes: seq<Node>, i: int, groups: seq<Node>, pairs: seq<(int, Row)>,
                                      byId: map<int, Node>, nids: map<int, set<Node>>)
    requires Owned(pairs, byId) && ById(byId, nodes) && Distinct(nodes) && 0 <= i < |nodes|
    requires Hooked(nids, pairs, byId) && forall g :: g in groups ==> IdOf(g.row) in nids
    ensures GroupsOf(groups, nids, nodes[i])
      == if LastOwner(Rows(nodes), i) then PickIn(groups, IdKeys(Rows(groups)), Wanted(pairs, IdOf(nodes[i].row))) else []
  {
    if groups != [] {
      var k := |groups| - 1;
      GroupsShare(nodes, i, groups[..k], pairs, byId, nids);
      MembersIff(pairs, byId, IdOf(groups[k].row), nodes, i);
      assert IdKeys(Rows(groups))[..k] == IdKeys(Rows(groups[..k]));
      assert groups[k] in groups;
    }
  }

  // Edge maps -------------------------------------------------------------

  /** The two edge maps differ at `e` only. */
  ghost predicate OnlyAt<T>(m: map<Edge, T>, m': map<Edge, T>, e: Edge) {
    forall f :: f != e ==> (f in m' <==> f in m) && (f in m' ==> m'[f] == m[f])
  }

  lemma OnlySame<T>(m: map<Edge, T>, e: Edge)
    ensures OnlyAt(m, m, e)
  {}

  /** Setting one edge of a to-one map leaves every other edge. */
  lemma AssignedOnly(one: map<Edge, Node>, e: Edge, key: Option<int>, neighbors: seq<Node>)
    ensures OnlyAt(one, Assigned(one, e, key, neighbors), e)
  {}

  lemma SharedOnly(many: map<Edge, seq<Node>>, e: Edge, share: seq<Node>)
    ensures OnlyAt(many, many[e := []][e := share], e)
  {}

  // Shared objects --------------------------------------------------------

  ghost predicate SameObjects(xs: seq<Node>, ys: seq<Node>) {
    forall a, b :: 0 <= a < |xs| && 0 <= b < |ys| && IdOf(xs[a].row) == IdOf(ys[b].row) ==> xs[a] == ys[b]
  }

  /** Two nodes share at an edge: if they reference the same id they hold the same object, and so they
      do for every group that both list. */
  ghost predicate Alike(a: Row, one: map<Edge, Node>, many: map<Edge, seq<Node>>,
                        b: Row, one': map<Edge, Node>, many': map<Edge, seq<Node>>, f: Edge)
  {
    && (ShapeOf(f) == M2O && FkValue(f, a) == FkValue(f, b) ==> (f in one <==> f in one') && (f in one ==> one[f] == one'[f]))
    && (ShapeOf(f) == M2M && f in many && f in many' ==> SameObjects(many[f], many'[f]))
  }

  ghost predicate SharedIn(rows: seq<Row>, ones: seq<map<Edge, Node>>, manys: seq<map<Edge, seq<Node>>>, f: Edge)
    requires |ones| == |manys| == |rows|
  {
    forall i, j :: 0 <= i < |rows| && 0 <= j < |rows| ==> Alike(rows[i], ones[i], manys[i], rows[j], ones[j], manys[j], f)
  }

  ghost predicate Shared(nodes: seq<Node>, f: Edge)
    reads nodes
  {
    SharedIn(Rows(nodes), Ones(nodes), Manys(nodes), f)
  }

  lemma NextShared(nodes: seq<Node>, ones: seq<map<Edge, Node>>, manys: seq<map<Edge, seq<Node>>>, e: Edge, f: Edge)
    requires |ones| == |manys| == |nodes| && f != e && SharedIn(Rows(nodes), ones, manys, f)
    requires forall i :: 0 <= i < |nodes| ==> OnlyAt(ones[i], nodes[i].one, e) && OnlyAt(manys[i], nodes[i].many, e)
    ensures Shared(nodes, f)
  {
    hide SameObjects, FkValue;
    var rows := Rows(nodes);
    forall i, j | 0 <= i < |nodes| && 0 <= j < |nodes|
      ensures Alike(rows[i], nodes[i].one, nodes[i].many, rows[j], nodes[j].one, nodes[j].many, f)
    {
      assert Alike(rows[i], ones[i], manys[i], rows[j], ones[j], manys[j], f);
      assert OnlyAt(ones[i], nodes[i].one, e) && OnlyAt(manys[i], nodes[i].many, e);
      assert OnlyAt(ones[j], nodes[j].one, e) && OnlyAt(manys[j], nodes[j].many, e);
    }
  }

  function Elems(nodes: seq<Node>): (r: set<Node>) {
    set n | n in nodes
  }

  lemma ElemsAre(nodes: seq<Node>)
    ensures Elems(nodes) == set n | n in nodes
  {}

  ghost predicate SharedAt(ns: set<Node>, f: Edge)
    reads ns
  {
    forall x, y :: x in ns && y in ns ==> Alike(x.row, x.one, x.many, y.row, y.one, y.many, f)
  }

  /** The neighbours of some nodes along an edge. */
  ghost function Below(ns: set<Node>, e: Edge): (r: set<Node>)
    reads ns
  {
    (set n | n in ns && e in n.one :: n.one[e]) + (set n, x | n in ns && e in n.many && x in n.many[e] :: x)
  }

  /** Sharing at every depth: the nodes share at each edge of the query, and so do, along each edge, the
      neighbours of all of them together. */
  ghost predicate SharedTree(ns: set<Node>, q: Query, kids: set<Node>)
    reads ns, kids
    decreases q
  {
    forall e :: e in q.with ==>
      SharedAt(ns, e) && Below(ns, e) <= kids && SharedTree(Below(ns, e), q.with[e], kids)
  }

  lemma {:induction false} SharedSome(ns: set<Node>, all: set<Node>, q: Query, kids: set<Node>, more: set<Node>)
    requires SharedTree(all, q, kids) && ns <= all && kids <= more
    ensures SharedTree(ns, q, more)
    decreases q
  {
    forall e | e in q.with ensures SharedAt(ns, e) && Below(ns, e) <= more && SharedTree(Below(ns, e), q.with[e], more) {
      SharedSome(Below(ns, e), Below(all, e), q.with[e], kids, more);
    }
  }

  lemma {:induction false} SharedNone(q: Query, kids: set<Node>)
    ensures SharedTree({}, q, kids)
    decreases q
  {
    forall e | e in q.with ensures SharedAt({}, e) && Below({}, e) <= kids && SharedTree(Below({}, e), q.with[e], kids) {
      assert Below({}, e) == {};
      SharedNone(q.with[e], kids);
    }
  }

  /** The neighbours of a list of nodes, from the entries of their edge maps. */
  ghost function BelowIn(ones: seq<map<Edge, Node>>, manys: seq<map<Edge, seq<Node>>>, e: Edge): (r: set<Node>) {
    (set i | 0 <= i < |ones| && e in ones[i] :: ones[i][e]) + (set i, x | 0 <= i < |manys| && e in manys[i] && x in manys[i][e] :: x)
  }

  /** The neighbours along `e` share at every depth of their query `c`. */
  ghost predicate DeepAt(ones: seq<map<Edge, Node>>, manys: seq<map<Edge, seq<Node>>>, e: Edge, c: Query, kids: set<Node>)
    reads kids
  {
    BelowIn(ones, manys, e) <= kids && SharedTree(BelowIn(ones, manys, e), c, kids)
  }

  lemma BelowSame(nodes: seq<Node>, e: Edge)
    ensures Below(Elems(nodes), e) == BelowIn(Ones(nodes), Manys(nodes), e)
  {
    var a, b := Below(Elems(nodes), e), BelowIn(Ones(nodes), Manys(nodes), e);
    forall x | x in a ensures x in b {
      var n :| n in nodes && ((e in n.one && n.one[e] == x) || (e in n.many && x in n.many[e]));
      var i :| 0 <= i < |nodes| && nodes[i] == n;
      assert Ones(nodes)[i] == n.one && Manys(nodes)[i] == n.many;
    }
    forall x | x in b ensures x in a {
      var i :| 0 <= i < |nodes| && ((e in Ones(nodes)[i] && Ones(nodes)[i][e] == x) || (e in Manys(nodes)[i] && x in Manys(nodes)[i][e]));
      assert nodes[i] in nodes;
    }
  }

  /** Loading another edge leaves the neighbours along this one. */
  lemma DeepKept(nodes: seq<Node>, ones: seq<map<Edge, Node>>, manys: seq<map<Edge, seq<Node>>>, e: Edge, f: Edge,
                 c: Query, kids: set<Node>, more: set<Node>)
    requires |ones| == |manys| == |nodes| && f != e && DeepAt(ones, manys, f, c, kids) && kids <= more
    requires forall i :: 0 <= i < |nodes| ==> OnlyAt(ones[i], nodes[i].one, e) && OnlyAt(manys[i], nodes[i].many, e)
    ensures DeepAt(Ones(nodes), Manys(nodes), f, c, more)
  {
    var ones', manys' := Ones(nodes), Manys(nodes);
    forall i | 0 <= i < |nodes|
      ensures (f in ones'[i] <==> f in ones[i]) && (f in ones[i] ==> ones'[i][f] == ones[i][f])
      ensures (f in manys'[i] <==> f in manys[i]) && (f in manys[i] ==> manys'[i][f] == manys[i][f])
    {
      assert OnlyAt(ones[i], nodes[i].one, e) && OnlyAt(manys[i], nodes[i].many, e);
    }
    assert BelowIn(ones', manys', f) == BelowIn(ones, manys, f);
    SharedSome(BelowIn(ones, manys, f), BelowIn(ones, manys, f), c, kids, more);
  }

  /** Neighbours that were handed out from one batch. */
  lemma DeepFrom(nodes: seq<Node>, e: Edge, neighbors: seq<Node>, c: Query, kids: set<Node>)
    requires SharedTree(Elems(neighbors), c, kids)
    requires forall i :: 0 <= i < |nodes| ==> (e in nodes[i].one ==> nodes[i].one[e] in neighbors)
    requires forall i, x :: 0 <= i < |nodes| && e in nodes[i].many && x in nodes[i].many[e] ==> x in neighbors
    ensures DeepAt(Ones(nodes), Manys(nodes), e, c, kids + Elems(neighbors))
  {
    var b := BelowIn(Ones(nodes), Manys(nodes), e);
    assert b <= Elems(neighbors);
    SharedSome(b, Elems(neighbors), c, kids, kids + Elems(neighbors));
  }

  // Nodes while their edges are loaded ------------------------------------

  method MakeNodes(rows: seq<Row>, loaded: set<Edge>) returns (nodes: seq<Node>)
    ensures Rows(nodes) == rows && Distinct(nodes) && fresh(set n | n in nodes)
    ensures forall n :: n in nodes ==> n.loaded == loaded && n.one == map[] && n.many == map[]
  {
    nodes := [];
    for i := 0 to |rows|
      invariant Rows(nodes) == rows[..i] && Distinct(nodes) && fresh(set n | n in nodes)
      invariant forall n :: n in nodes ==> n.loaded == loaded && n.one == map[] && n.many == map[]
    {
      var n := new Node(rows[i], loaded);
      nodes := nodes + [n];
    }
    assert rows[..|rows|] == rows;
  }

  /** What a run hands over: distinct objects, each the tree of its place, disjoint from all below. */
  ghost predicate Delivered(nodes: seq<Node>, ts: seq<Tree>, kids: set<Node>)
    reads nodes, kids
  {
    Distinct(nodes) && (forall n :: n in nodes ==> n !in kids) && RepAll(nodes, ts, kids)
  }

  lemma DeliveredIds(nodes: seq<Node>, ts: seq<Tree>, kids: set<Node>, ids: seq<int>)
    requires Delivered(nodes, ts, kids) && forall j :: 0 <= j < |ts| ==> IdOf(ts[j].row) in ids
    ensures forall x :: x in nodes ==> IdOf(x.row) in ids
  {}

  /** The objects as far as the edges in `m` have been loaded. */
  ghost predicate Filled(db: Database, q: Query, rows: seq<Row>, m: map<Edge, seq<Tree>>, nodes: seq<Node>, kids: set<Node>)
    reads nodes, kids
  {
    && Rows(nodes) == rows && m.Keys <= q.with.Keys && Distinct(nodes)
    && (forall i :: 0 <= i < |nodes| ==>
      nodes[i].loaded == q.with.Keys && RepEdges(nodes[i], Assemble(db, q, rows, m, i).edges, kids))
    && (forall e :: Shared(nodes, e))
    && forall e :: e in m ==> DeepAt(Ones(nodes), Manys(nodes), e, AfterEdge(db, q.with[e], rows, e), kids)
  }

  /** The entries of one node before its next edge. */
  ghost predicate FilledAt(db: Database, q: Query, rows: seq<Row>, m: map<Edge, seq<Tree>>, i: int,
                           one: map<Edge, Node>, many: map<Edge, seq<Node>>, kids: set<Node>)
    requires 0 <= i < |rows| && m.Keys <= q.with.Keys
    reads kids
  {
    one.Keys + many.Keys <= m.Keys && forall f :: f in m ==> RepAt(one, many, f, Assemble(db, q, rows, m, i).edges[f], kids)
  }

  ghost predicate WereFilled(db: Database, q: Query, rows: seq<Row>, m: map<Edge, seq<Tree>>,
                             ones: seq<map<Edge, Node>>, manys: seq<map<Edge, seq<Node>>>, kids: set<Node>)
    reads kids
  {
    && m.Keys <= q.with.Keys && |ones| == |manys| == |rows|
    && (forall i :: 0 <= i < |rows| ==> FilledAt(db, q, rows, m, i, ones[i], manys[i], kids))
    && (forall f :: SharedIn(rows, ones, manys, f))
    && forall f :: f in m ==> DeepAt(ones, manys, f, AfterEdge(db, q.with[f], rows, f), kids)
  }

  lemma StartedFilled(db: Database, q: Query, rows: seq<Row>, nodes: seq<Node>)
    requires Rows(nodes) == rows && Distinct(nodes)
    requires forall n :: n in nodes ==> n.loaded == q.with.Keys && n.one == map[] && n.many == map[]
    ensures Filled(db, q, rows, map[], nodes, {})
  {
    hide LinkFor, RepAt, FkValue, ShapeOf;
    forall i | 0 <= i < |nodes| ensures RepEdges(nodes[i], Assemble(db, q, rows, map[], i).edges, {}) {}
  }

  lemma AssembleNext(db: Database, q: Query, rows: seq<Row>, m: map<Edge, seq<Tree>>, i: int, e: Edge, ts: seq<Tree>)
    requires 0 <= i < |rows| && m.Keys <= q.with.Keys && e in q.with
    ensures Assemble(db, q, rows, m[e := ts], i).edges
      == Assemble(db, q, rows, m, i).edges[e := LinkFor(db, q.with[e], rows, e, ts, i)]
  {
    hide LinkFor;
  }

  lemma NextFilledAt(db: Database, q: Query, rows: seq<Row>, m: map<Edge, seq<Tree>>, i: int, n: Node,
                     one: map<Edge, Node>, many: map<Edge, seq<Node>>, e: Edge, ts: seq<Tree>, kids: set<Node>, below: set<Node>)
    requires 0 <= i < |rows| && m.Keys <= q.with.Keys && e in q.with && e !in m
    requires FilledAt(db, q, rows, m, i, one, many, kids)
    requires OnlyAt(one, n.one, e) && OnlyAt(many, n.many, e) && RepLink(n, e, LinkFor(db, q.with[e], rows, e, ts, i), below)
    ensures RepEdges(n, Assemble(db, q, rows, m[e := ts], i).edges, kids + below)
  {
    hide LinkFor;
    var edges := Assemble(db, q, rows, m, i).edges;
    NextEdge(n, one, many, edges, e, LinkFor(db, q.with[e], rows, e, ts, i), kids, below);
    AssembleNext(db, q, rows, m, i, e, ts);
  }

  lemma NextFilled(db: Database, q: Query, rows: seq<Row>, m: map<Edge, seq<Tree>>, nodes: seq<Node>,
                   ones: seq<map<Edge, Node>>, manys: seq<map<Edge, seq<Node>>>, e: Edge, ts: seq<Tree>, kids: set<Node>, below: set<Node>)
    requires Rows(nodes) == rows && Distinct(nodes) && e in q.with && e !in m
    requires WereFilled(db, q, rows, m, ones, manys, kids)
    requires forall n :: n in nodes ==> n.loaded == q.with.Keys
    requires forall i :: 0 <= i < |nodes| ==>
      && OnlyAt(ones[i], nodes[i].one, e) && OnlyAt(manys[i], nodes[i].many, e)
      && RepLink(nodes[i], e, LinkFor(db, q.with[e], rows, e, ts, i), below)
    requires Shared(nodes, e) && DeepAt(Ones(nodes), Manys(nodes), e, AfterEdge(db, q.with[e], rows, e), below)
    ensures Filled(db, q, rows, m[e := ts], nodes, kids + below)
  {
    hide FilledAt, RepEdges, RepLink, DeepAt, AfterEdge, LinkFor, SharedIn, Shared, OnlyAt;
    forall i | 0 <= i < |nodes| ensures RepEdges(nodes[i], Assemble(db, q, rows, m[e := ts], i).edges, kids + below) {
      NextFilledAt(db, q, rows, m, i, nodes[i], ones[i], manys[i], e, ts, kids, below);
    }
    forall f ensures Shared(nodes, f) {
      if f != e { NextShared(nodes, ones, manys, e, f); }
    }
    forall f | f in m[e := ts] ensures DeepAt(Ones(nodes), Manys(nodes), f, AfterEdge(db, q.with[f], rows, f), kids + below) {
      if f == e {
        DeepMore(nodes, e, AfterEdge(db, q.with[e], rows, e), below, kids + below);
      } else {
        DeepKept(nodes, ones, manys, e, f, AfterEdge(db, q.with[f], rows, f), kids, kids + below);
      }
    }
  }

  lemma DeepMore(nodes: seq<Node>, e: Edge, c: Query, kids: set<Node>, more: set<Node>)
    requires DeepAt(Ones(nodes), Manys(nodes), e, c, kids) && kids <= more
    ensures DeepAt(Ones(nodes), Manys(nodes), e, c, more)
  {
    var b := BelowIn(Ones(nodes), Manys(nodes), e);
    SharedSome(b, b, c, kids, more);
  }

  lemma FilledRep(db: Database, q: Query, rows: seq<Row>, m: map<Edge, seq<Tree>>, nodes: seq<Node>, kids: set<Node>)
    requires Filled(db, q, rows, m, nodes, kids) && m.Keys == q.with.Keys
    ensures |nodes| == |rows| && Distinct(nodes)
    ensures forall i :: 0 <= i < |nodes| ==> Rep(nodes[i], Assemble(db, q, rows, m, i), kids)
  {
    hide LinkFor, DeepAt, SharedIn, AfterEdge;
    forall i | 0 <= i < |nodes| ensures Rep(nodes[i], Assemble(db, q, rows, m, i), kids) {
      var t := Assemble(db, q, rows, m, i);
      assert Rows(nodes)[i] == nodes[i].row;
      assert RepEdges(nodes[i], t.edges, kids);
      forall e | e in t.edges ensures RepAt(nodes[i].one, nodes[i].many, e, t.edges[e], kids) {
        assert RepLink(nodes[i], e, t.edges[e], kids);
      }
    }
  }

  /** When all edges are loaded the nodes share at every depth. */
  lemma FilledShared(db: Database, q: Query, rows: seq<Row>, m: map<Edge, seq<Tree>>, nodes: seq<Node>, kids: set<Node>, after: Query)
    requires Filled(db, q, rows, m, nodes, kids) && m.Keys == q.with.Keys == after.with.Keys
    requires forall e :: e in q.with ==> after.with[e] == AfterEdge(db, q.with[e], rows, e)
    ensures SharedTree(Elems(nodes), after, kids)
  {
    hide AfterEdge, LinkFor, Alike, RepEdges;
    var ns := Elems(nodes);
    forall e | e in after.with ensures SharedAt(ns, e) && Below(ns, e) <= kids && SharedTree(Below(ns, e), after.with[e], kids) {
      SharedElems(nodes, e);
      BelowSame(nodes, e);
      assert DeepAt(Ones(nodes), Manys(nodes), e, AfterEdge(db, q.with[e], rows, e), kids);
    }
  }

  lemma SharedElems(nodes: seq<Node>, f: Edge)
    requires Shared(nodes, f)
    ensures SharedAt(Elems(nodes), f)
  {
    hide Alike;
    var rows := Rows(nodes);
    forall x, y | x in nodes && y in nodes ensures Alike(x.row, x.one, x.many, y.row, y.one, y.many, f) {
      var i :| 0 <= i < |nodes| && nodes[i] == x;
      var j :| 0 <= j < |nodes| && nodes[j] == y;
      assert Alike(rows[i], Ones(nodes)[i], Manys(nodes)[i], rows[j], Ones(nodes)[j], Manys(nodes)[j], f);
    }
  }

  // Links -----------------------------------------------------------------

  /** Neighbours that were picked for a node, in the footprint that includes them. */
  lemma RepPicked(neighbors: seq<Node>, ts: seq<Tree>, kids: set<Node>, keys: seq<Option<int>>, want: set<int>)
    requires RepAll(neighbors, ts, kids) && |keys| == |neighbors|
    ensures var all, ns, us := kids + Elems(neighbors), PickIn(neighbors, keys, want), PickIn(ts, keys, want);
      |ns| == |us| && forall p :: 0 <= p < |ns| ==> ns[p] in all && Rep(ns[p], us[p], all)
  {
    var all, ns, us := kids + Elems(neighbors), PickIn(neighbors, keys, want), PickIn(ts, keys, want);
    PickRep(neighbors, ts, kids, keys, want);
    forall p | 0 <= p < |ns| ensures ns[p] in all && Rep(ns[p], us[p], all) {
      assert ns[p] in neighbors;
      RepMono(ns[p], us[p], kids, all);
    }
  }

  lemma IndexedKeys(ids: seq<int>, nodeids: map<int, seq<Node>>, nodes: seq<Node>, e: Edge)
    requires Indexed(ids, nodeids, nodes, FkKeys(e, Rows(nodes)))
    ensures ids == FirstSeen(FkKeys(e, Rows(nodes)))
    ensures forall k :: k in ids ==> k in nodeids
    ensures forall k :: k in nodeids ==> nodeids[k] == PickIn(nodes, FkKeys(e, Rows(nodes)), {k})
  {}

  lemma OneStep(db: Database, c: Query, rows: seq<Row>, e: Edge, ids: seq<int>)
    requires ShapeOf(e) == M2O && ids == FirstSeen(FkKeys(e, rows))
    ensures ids == [] ==> Neighbors(db, c, rows, e) == Ok([]) && AfterEdge(db, c, rows, e) == c
    ensures ids != [] ==> Neighbors(db, c, rows, e) == Run(db, LinkOne(c, ids)) && AfterEdge(db, c, rows, e) == After(db, LinkOne(c, ids))
  {}

  lemma RepOne(db: Database, c: Query, e: Edge, nodes: seq<Node>, before: seq<map<Edge, Node>>,
               neighbors: seq<Node>, ts: seq<Tree>, kids: set<Node>)
    requires forall i :: 0 <= i < |nodes| ==> e !in nodes[i].many
    requires ShapeOf(e) == M2O && RepAll(neighbors, ts, kids) && |before| == |nodes|
    requires forall i :: 0 <= i < |nodes| ==>
      e !in before[i] && nodes[i].one == Assigned(before[i], e, FkValue(e, nodes[i].row), neighbors)
    ensures forall i :: 0 <= i < |nodes| ==>
      RepLink(nodes[i], e, LinkFor(db, c, Rows(nodes), e, ts, i), kids + Elems(neighbors))
    ensures Shared(nodes, e)
  {
    var all := kids + Elems(neighbors);
    forall i | 0 <= i < |nodes| ensures RepLink(nodes[i], e, LinkFor(db, c, Rows(nodes), e, ts, i), all) {
      var n := nodes[i];
      assert n in nodes;
      if FkValue(e, n.row).Some? {
        var k := FkValue(e, n.row).value;
        var keys := IdKeys(Rows(neighbors));
        assert IdKeys(RowsOf(ts)) == keys;
        PickRep(neighbors, ts, kids, keys, {k});
        var hits, links := PickIn(neighbors, keys, {k}), PickIn(ts, keys, {k});
        if hits != [] {
          RepMono(Last(hits), Last(links), kids, all);
        }
      }
    }
  }

  lemma ManyStep(db: Database, c: Query, rows: seq<Row>, e: Edge)
    requires ShapeOf(e) == O2M
    ensures Neighbors(db, c, rows, e) == Run(db, LinkMany(c, e, Ids(rows)))
    ensures AfterEdge(db, c, rows, e) == After(db, LinkMany(c, e, Ids(rows)))
  {}

  lemma FksKeyed(e: Edge, nodes: seq<Node>, nodeids: map<int, Node>, neighbors: seq<Node>, ts: seq<Tree>)
    requires ById(nodeids, nodes) && |neighbors| == |ts|
    requires forall j :: 0 <= j < |ts| ==> neighbors[j].row == ts[j].row
    requires forall j :: 0 <= j < |ts| ==> FkValue(e, ts[j].row).Some? && FkValue(e, ts[j].row).value in Ids(Rows(nodes))
    ensures Keyed(neighbors, e, nodeids)
  {
    forall j | 0 <= j < |neighbors| ensures FkValue(e, neighbors[j].row).Some? && FkValue(e, neighbors[j].row).value in nodeids {
      var i :| 0 <= i < |nodes| && Ids(Rows(nodes))[i] == FkValue(e, ts[j].row).value;
      assert IdOf(nodes[i].row) in nodeids;
    }
  }

  lemma RepMany(db: Database, c: Query, e: Edge, nodes: seq<Node>, neighbors: seq<Node>, ts: seq<Tree>, kids: set<Node>)
    requires forall i :: 0 <= i < |nodes| ==> e !in nodes[i].one
    requires ShapeOf(e) == O2M && RepAll(neighbors, ts, kids)
    requires forall i :: 0 <= i < |nodes| ==> e in nodes[i].many && nodes[i].many[e] == Share(nodes, i, neighbors, FkKeys(e, Rows(neighbors)))
    ensures forall i :: 0 <= i < |nodes| ==>
      RepLink(nodes[i], e, LinkFor(db, c, Rows(nodes), e, ts, i), kids + Elems(neighbors))
  {
    var all := kids + Elems(neighbors);
    var keys := FkKeys(e, Rows(neighbors));
    assert FkKeys(e, RowsOf(ts)) == keys;
    forall i | 0 <= i < |nodes| ensures RepLink(nodes[i], e, LinkFor(db, c, Rows(nodes), e, ts, i), all) {
      RepPicked(neighbors, ts, kids, keys, {IdOf(nodes[i].row)});
    }
  }

  lemma OutsOwned(db: Database, h: Head, nodes: seq<Node>, byId: map<int, Node>)
    requires ById(byId, nodes)
    ensures Owned(JoinSelect(db, h, Ids(Rows(nodes))), byId)
  {
    var ids := Ids(Rows(nodes));
    var pairs := JoinSelect(db, h, ids);
    JoinOuts(db, h, ids);
    forall p | 0 <= p < |pairs| ensures pairs[p].0 in byId {
      var i :| 0 <= i < |nodes| && ids[i] == pairs[p].0;
      assert IdOf(nodes[i].row) in byId;
    }
  }

  // Attaching joined rows -----------------------------------------------------

  /** What the hook and the assign loop give to node i. */
  ghost function Joined(nodes: seq<Node>, i: int, groups: seq<Node>, pairs: seq<(int, Row)>): (r: seq<Node>)
    requires 0 <= i < |nodes|
  {
    if LastOwner(Rows(nodes), i) then PickIn(groups, IdKeys(Rows(groups)), Wanted(pairs, IdOf(nodes[i].row))) else []
  }

  /** The groups of the last node with an id are exactly those that the join rows pair with the id, each
      once, in order of first appearance; earlier duplicates have none; and a group is one object for all. */
  ghost predicate JoinedOnce(nodes: seq<Node>, e: Edge, pairs: seq<(int, Row)>)
    reads nodes
  {
    && (forall i :: 0 <= i < |nodes| ==> e in nodes[i].many && OwnGroups(nodes, i, Ids(Rows(nodes[i].many[e])), pairs))
    && forall i, j :: 0 <= i < |nodes| && 0 <= j < |nodes| && e in nodes[i].many && e in nodes[j].many ==>
      SameObjects(nodes[i].many[e], nodes[j].many[e])
  }

  ghost predicate OwnGroups(nodes: seq<Node>, i: int, ids: seq<int>, pairs: seq<(int, Row)>)
    requires 0 <= i < |nodes|
  {
    if LastOwner(Rows(nodes), i) then
      ByFirst(pairs, ids) && forall g :: g in ids <==> exists p :: p in pairs && p.0 == IdOf(nodes[i].row) && IdOf(p.1) == g
    else ids == []
  }

  lemma MadeIds(groups: seq<Node>, h: Head, pairs: seq<(int, Row)>)
    requires HasId(h.table) && MadeOf(groups, h, pairs)
    ensures Ids(Rows(groups)) == Ids(FirstRows(pairs))
    ensures forall a, b :: 0 <= a < |groups| && 0 <= b < |groups| && IdOf(groups[a].row) == IdOf(groups[b].row) ==> a == b
  {
    hide Project, FirstRows;
    var raws := FirstRows(pairs);
    FirstRowsLaws(pairs);
    forall j | 0 <= j < |groups| ensures IdOf(groups[j].row) == IdOf(raws[j]) && Ids(Rows(groups))[j] == Ids(raws)[j] {
      assert Rows(groups)[j] == groups[j].row;
      ProjectId(h, {}, raws[j]);
    }
  }

  /** Every account that the hook recorded is a node of the batch, and every group is recorded. */
  lemma HookedAccounts(nodes: seq<Node>, byId: map<int, Node>, nids: map<int, set<Node>>, groups: seq<Node>, h: Head, pairs: seq<(int, Row)>)
    requires HasId(h.table) && ById(byId, nodes) && Owned(pairs, byId) && Hooked(nids, pairs, byId) && MadeOf(groups, h, pairs)
    ensures forall k, n :: k in nids && n in nids[k] ==> n in nodes
    ensures forall g :: g in groups ==> IdOf(g.row) in nids
  {
    hide Members, FirstRows;
    forall k, n | k in nids && n in nids[k] ensures n in nodes {
      MembersIn(pairs, byId, k, nodes);
    }
    MadeIds(groups, h, pairs);
    forall g | g in groups ensures IdOf(g.row) in nids {
      var j :| 0 <= j < |groups| && groups[j] == g;
      assert Ids(Rows(groups))[j] == IdOf(g.row);
    }
  }

  /** The row hook and the assign loop together, for whatever join rows come back, in any interleaving
      and with any repetition. */
  method AttachJoined(nodes: seq<Node>, e: Edge, pairs: seq<(int, Row)>, byId: map<int, Node>, h: Head)
    returns (r: Option<LoadError>, groups: seq<Node>)
    requires HasId(h.table) && Distinct(nodes) && ById(byId, nodes) && Owned(pairs, byId)
    requires forall n :: n in nodes ==> e in n.many && n.many[e] == []
    modifies nodes
    ensures r == None && fresh(Elems(groups)) && MadeOf(groups, h, pairs)
    ensures forall i :: 0 <= i < |nodes| ==>
      nodes[i].one == old(nodes[i].one) && nodes[i].many == old(nodes[i].many)[e := Joined(nodes, i, groups, pairs)]
    ensures JoinedOnce(nodes, e, pairs)
  {
    hide Members, FirstRows, Hooked, ById, Owned, GroupsOf, PickIn, Wanted, LastOwner, JoinedOnce;
    var nids;
    groups, nids := ScanJoined(pairs, byId, h);
    HookedAccounts(nodes, byId, nids, groups, h, pairs);
    r := AssignJoined(nodes, groups, nids, e);
    forall i | 0 <= i < |nodes| ensures nodes[i] in nodes && GroupsOf(groups, nids, nodes[i]) == Joined(nodes, i, groups, pairs) {
      GroupsShare(nodes, i, groups, pairs, byId, nids);
    }
    OnceEach(nodes, e, groups, h, pairs);
  }

  lemma OnceEach(nodes: seq<Node>, e: Edge, groups: seq<Node>, h: Head, pairs: seq<(int, Row)>)
    requires HasId(h.table) && MadeOf(groups, h, pairs)
    requires forall i :: 0 <= i < |nodes| ==> e in nodes[i].many && nodes[i].many[e] == Joined(nodes, i, groups, pairs)
    ensures JoinedOnce(nodes, e, pairs)
  {
    hide FirstRows, Wanted, ByFirst, LastOwner, MadeOf;
    MadeIds(groups, h, pairs);
    var keys := IdKeys(Rows(groups));
    forall i | 0 <= i < |nodes| ensures OwnGroups(nodes, i, Ids(Rows(nodes[i].many[e])), pairs) {
      if LastOwner(Rows(nodes), i) {
        var want := Wanted(pairs, IdOf(nodes[i].row));
        PickGroupIds(groups, want);
        HookShares(pairs, IdOf(nodes[i].row));
      }
    }
    forall i, j | 0 <= i < |nodes| && 0 <= j < |nodes| ensures SameObjects(nodes[i].many[e], nodes[j].many[e]) {
      JoinedFrom(nodes, i, groups, pairs);
      JoinedFrom(nodes, j, groups, pairs);
      OneEach(groups, nodes[i].many[e], nodes[j].many[e]);
    }
  }

  lemma OneEach(groups: seq<Node>, xs: seq<Node>, ys: seq<Node>)
    requires forall a, b :: 0 <= a < |groups| && 0 <= b < |groups| && IdOf(groups[a].row) == IdOf(groups[b].row) ==> a == b
    requires (forall x :: x in xs ==> x in groups) && forall y :: y in ys ==> y in groups
    ensures SameObjects(xs, ys)
  {
    forall a, b | 0 <= a < |xs| && 0 <= b < |ys| && IdOf(xs[a].row) == IdOf(ys[b].row) ensures xs[a] == ys[b] {
      assert xs[a] in xs && ys[b] in ys;
      var i :| 0 <= i < |groups| && groups[i] == xs[a];
      var j :| 0 <= j < |groups| && groups[j] == ys[b];
    }
  }

  lemma JoinedFrom(nodes: seq<Node>, i: int, groups: seq<Node>, pairs: seq<(int, Row)>)
    requires 0 <= i < |nodes|
    ensures forall x :: x in Joined(nodes, i, groups, pairs) ==> x in groups
  {
    PickNodes(groups, IdKeys(Rows(groups)), Wanted(pairs, IdOf(nodes[i].row)));
  }

  lemma {:induction false} PickGroupIds(groups: seq<Node>, want: set<int>)
    ensures Ids(Rows(PickIn(groups, IdKeys(Rows(groups)), want))) == Wanting(Ids(Rows(groups)), want)
  {
    if groups != [] {
      var n := |groups| - 1;
      PickGroupIds(groups[..n], want);
      assert IdKeys(Rows(groups))[..n] == IdKeys(Rows(groups[..n])) && Ids(Rows(groups))[..n] == Ids(Rows(groups[..n]));
      var picked := PickIn(groups[..n], IdKeys(Rows(groups[..n])), want);
      assert Ids(Rows(picked + [groups[n]])) == Ids(Rows(picked)) + [IdOf(groups[n].row)];
    }
  }

  lemma MadeReps(groups: seq<Node>, h: Head, pairs: seq<(int, Row)>)
    requires MadeOf(groups, h, pairs)
    ensures RepAll(groups, LeafTrees(h, FirstRows(pairs)), {}) && RowsOf(LeafTrees(h, FirstRows(pairs))) == Rows(groups)
  {
    hide Project, FirstRows;
    var ts := LeafTrees(h, FirstRows(pairs));
    forall j | 0 <= j < |groups| ensures Rep(groups[j], ts[j], {}) && groups[j].row == ts[j].row {
      assert groups[j] in groups;
      assert Rows(groups)[j] == groups[j].row;
    }
  }

  /** The attached groups are the links of the batched meaning. */
  lemma JoinLinks(db: Database, c: Query, e: Edge, nodes: seq<Node>, groups: seq<Node>)
    requires forall i :: 0 <= i < |nodes| ==> e !in nodes[i].one
    requires ShapeOf(e) == M2M && HasId(c.head.table)
    requires var pairs := JoinSelect(db, c.head, Ids(Rows(nodes)));
      && MadeOf(groups, c.head, pairs)
      && forall i :: 0 <= i < |nodes| ==> e in nodes[i].many && nodes[i].many[e] == Joined(nodes, i, groups, pairs)
    ensures var pairs := JoinSelect(db, c.head, Ids(Rows(nodes)));
      forall i :: 0 <= i < |nodes| ==>
        RepLink(nodes[i], e, LinkFor(db, c, Rows(nodes), e, LeafTrees(c.head, FirstRows(pairs)), i), Elems(groups))
  {
    hide JoinSelect, FirstRows, Wanted, LastOwner, Project;
    var pairs := JoinSelect(db, c.head, Ids(Rows(nodes)));
    var ts := LeafTrees(c.head, FirstRows(pairs));
    var kids := Elems(groups);
    MadeReps(groups, c.head, pairs);
    hide MadeOf, Rep;
    var keys := IdKeys(Rows(groups));
    assert IdKeys(RowsOf(ts)) == keys;
    forall i | 0 <= i < |nodes| ensures RepLink(nodes[i], e, LinkFor(db, c, Rows(nodes), e, ts, i), kids) {
      RepPicked(groups, ts, {}, keys, Wanted(pairs, IdOf(nodes[i].row)));
      assert {} + kids == kids;
    }
  }

  /** Nodes with equal keys, or with common groups, hold common objects. */
  lemma JoinedShared(nodes: seq<Node>, e: Edge, pairs: seq<(int, Row)>)
    requires ShapeOf(e) == M2M && JoinedOnce(nodes, e, pairs)
    ensures Shared(nodes, e)
  {
    hide SameObjects, OwnGroups;
  }

  lemma AssignedFrom(one: map<Edge, Node>, e: Edge, key: Option<int>, neighbors: seq<Node>)
    requires e !in one
    ensures e in Assigned(one, e, key, neighbors) ==> Assigned(one, e, key, neighbors)[e] in neighbors
  {
    if key.Some? {
      PickNodes(neighbors, IdKeys(Rows(neighbors)), {key.value});
      var hits := PickIn(neighbors, IdKeys(Rows(neighbors)), {key.value});
      assert hits != [] ==> Last(hits) in hits;
    }
  }

  lemma ShareFrom(nodes: seq<Node>, i: int, neighbors: seq<Node>, keys: seq<Option<int>>)
    requires 0 <= i < |nodes| && |keys| == |neighbors|
    ensures forall x :: x in Share(nodes, i, neighbors, keys) ==> x in neighbors
  {
    PickNodes(neighbors, keys, {IdOf(nodes[i].row)});
  }

  // Loads in order --------------------------------------------------------

  lemma TakeNext(es: seq<Edge>, k: nat)
    requires k < |es|
    ensures es[..k + 1] == es[..k] + [es[k]]
  {}

  lemma LoadsSnoc(db: Database, q: Query, rows: seq<Row>, done: seq<Edge>, e: Edge)
    ensures Loads(db, q, rows, done + [e])
      == match Loads(db, q, rows, done)
         case Err(x) => Err(x)
         case Ok(m) =>
           if e !in q.with then Ok(m)
           else match Neighbors(db, q.with[e], rows, e)
             case Err(x) => Err(x)
             case Ok(ts) => Ok(m[e := ts])
  {
    assert (done + [e])[..|done|] == done;
  }

  /** The first failing edge decides. */
  lemma {:induction false} LoadsFail(db: Database, q: Query, rows: seq<Row>, es: seq<Edge>, k: nat)
    requires k <= |es| && Loads(db, q, rows, es[..k]).Err?
    ensures Loads(db, q, rows, es) == Loads(db, q, rows, es[..k])
    decreases |es| - k
  {
    if k == |es| {
      assert es[..k] == es;
    } else {
      TakeNext(es, k);
      LoadsSnoc(db, q, rows, es[..k], es[k]);
      LoadsFail(db, q, rows, es, k + 1);
    }
  }

  lemma EdgeOnce(t: Table, k: nat)
    requires k < |EdgesOf(t)|
    ensures EdgesOf(t)[k] !in EdgesOf(t)[..k]
  {}

  // Queries ---------------------------------------------------------------

  lemma ReadyHead(q: Query, h: Head)
    requires Ready(q) && h.table == q.head.table && h.joins == [] && h.from == q.head.from
    ensures Ready(q.(head := h))
  {}

  lemma {:induction false} ClonedReady(q: Query)
    requires Ready(q)
    ensures Ready(Cloned(q))
    decreases q
  {
    forall e | e in q.with ensures Ready(Cloned(q.with[e])) { ClonedReady(q.with[e]); }
  }

  lemma ClonedFirst(db: Database, q: Query)
    ensures Run(db, Limited(Cloned(q), Some(1))) == Run(db, Limited(q, Some(1)))
  {
    CloneRuns(db, Limited(q, Some(1)));
    ClonedHead(q, Limited(q, Some(1)).head);
  }
}
