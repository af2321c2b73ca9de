/**
 A limit on the many-to-many edge: it cuts join rows, while a query of one account's own is cut to groups.
 */
module GroupLimits {
  import opened Collections
  import opened Store
  import opened Plan
  import opened PlanLaws
  import opened EagerLaws

  type Pairs = seq<(int, Row)>

  // One account's join rows -------------------------------------------------------

  function Own(pairs: Pairs, a: int): (r: Pairs) {
    if pairs == [] then []
    else
      var n := |pairs| - 1;
      if pairs[n].0 == a then Own(pairs[..n], a) + [pairs[n]] else Own(pairs[..n], a)
  }

  /** Join rows come group by group, and a group id stands for one row. */
  ghost predicate Grouped(pairs: Pairs) {
    forall i, j :: 0 <= i < j < |pairs| && IdOf(pairs[i].1) == IdOf(pairs[j].1) ==>
      pairs[i].1 == pairs[j].1 && IdOf(pairs[j - 1].1) == IdOf(pairs[j].1)
  }

  lemma {:induction false} JoinGrouped(members: seq<Row>, ids: seq<int>, groups: seq<Row>)
    requires DistinctIds(groups)
    ensures Grouped(JoinRows(members, ids, groups))
  {
    if groups != [] {
      var n := |groups| - 1;
      JoinGrouped(members, ids, groups[..n]);
      JoinRowsLaws(members, ids, groups[..n]);
      PairsOfLaws(members, ids, groups[n]);
      var a, b := JoinRows(members, ids, groups[..n]), PairsOf(members, ids, groups[n]);
      assert JoinRows(members, ids, groups) == a + b;
      hide JoinRows, PairsOf;
      forall i | 0 <= i < |a| ensures IdOf(a[i].1) != IdOf(groups[n]) {
        assert a[i] in a;
        var x :| 0 <= x < n && groups[..n][x] == a[i].1;
        assert groups[x] == a[i].1;
      }
      JoinTwo(a, b, groups[n]);
    }
  }

  lemma JoinTwo(a: Pairs, b: Pairs, g: Row)
    requires Grouped(a) && forall i :: 0 <= i < |a| ==> IdOf(a[i].1) != IdOf(g)
    requires forall i :: 0 <= i < |b| ==> b[i].1 == g
    ensures Grouped(a + b)
  {
    var all := a + b;
    forall i, j | 0 <= i < j < |all| && IdOf(all[i].1) == IdOf(all[j].1)
      ensures all[i].1 == all[j].1 && IdOf(all[j - 1].1) == IdOf(all[j].1)
    {
      if j < |a| {
        assert all[i] == a[i] && all[j] == a[j] && all[j - 1] == a[j - 1];
      } else {
        assert all[j].1 == g && i >= |a| && j - 1 >= |a|;
      }
    }
  }

  lemma GroupedPrefix(pairs: Pairs, k: nat)
    requires Grouped(pairs) && k <= |pairs|
    ensures Grouped(pairs[..k])
  {
    var p := pairs[..k];
    forall i, j | 0 <= i < j < |p| && IdOf(p[i].1) == IdOf(p[j].1) ensures p[i].1 == p[j].1 && IdOf(p[j - 1].1) == IdOf(p[j].1) {
      assert IdOf(pairs[i].1) == IdOf(pairs[j].1) && p[j - 1] == pairs[j - 1];
    }
  }

  lemma OwnSnoc(pairs: Pairs, x: (int, Row), a: int)
    ensures Own(pairs + [x], a) == if x.0 == a then Own(pairs, a) + [x] else Own(pairs, a)
  {
    assert (pairs + [x])[..|pairs|] == pairs;
  }

  lemma {:induction false} OwnMembers(pairs: Pairs, a: int)
    ensures forall p :: p in Own(pairs, a) <==> p in pairs && p.0 == a
    ensures |Own(pairs, a)| <= |pairs|
    ensures |Own(pairs, a)| == |pairs| ==> Own(pairs, a) == pairs
  {
    if pairs != [] {
      var n := |pairs| - 1;
      OwnMembers(pairs[..n], a);
      assert pairs == pairs[..n] + [pairs[n]];
    }
  }

  lemma {:induction false} OwnConcat(x: Pairs, y: Pairs, a: int)
    ensures Own(x + y, a) == Own(x, a) + Own(y, a)
  {
    if y == [] {
      assert x + y == x;
    } else {
      var n := |y| - 1;
      OwnConcat(x, y[..n], a);
      assert x + y == (x + y[..n]) + [y[n]] && y == y[..n] + [y[n]];
      OwnSnoc(x + y[..n], y[n], a);
      OwnSnoc(y[..n], y[n], a);
    }
  }

  /** More join rows only add groups at the end. */
  lemma {:induction false} FirstRowsPrefix(x: Pairs, y: Pairs)
    ensures FirstRows(x) <= FirstRows(x + y)
  {
    if y == [] {
      assert x + y == x;
    } else {
      var n := |y| - 1;
      FirstRowsPrefix(x, y[..n]);
      assert x + y == (x + y[..n]) + [y[n]];
      FirstRowsSnoc(x + y[..n], y[n]);
    }
  }

  // Groups by account ---------------------------------------------------------------

  function Chosen(rows: seq<Row>, want: set<int>): (r: seq<Row>) {
    PickIn(rows, IdKeys(rows), want)
  }

  lemma ChosenSnoc(rows: seq<Row>, x: Row, want: set<int>)
    ensures Chosen(rows + [x], want) == if IdOf(x) in want then Chosen(rows, want) + [x] else Chosen(rows, want)
  {
    var all := rows + [x];
    assert all[..|rows|] == rows && IdKeys(all)[..|rows|] == IdKeys(rows) && IdKeys(all)[|rows|] == Some(IdOf(x));
  }

  lemma {:induction false} ChosenSame(rows: seq<Row>, want: set<int>, more: set<int>)
    requires forall r :: r in rows ==> (IdOf(r) in want <==> IdOf(r) in more)
    ensures Chosen(rows, want) == Chosen(rows, more)
  {
    if rows != [] {
      var n := |rows| - 1;
      assert rows == rows[..n] + [rows[n]];
      ChosenSame(rows[..n], want, more);
      ChosenSnoc(rows[..n], rows[n], want);
      ChosenSnoc(rows[..n], rows[n], more);
    }
  }

  lemma {:induction false} ChosenFilter(rows: seq<Row>, want: set<int>, ps: seq<Pred>)
    requires forall r :: r in rows ==> (IdOf(r) in want <==> Keep(ps, r))
    ensures Chosen(rows, want) == Filter(ps, rows)
  {
    if rows != [] {
      var n := |rows| - 1;
      assert rows == rows[..n] + [rows[n]];
      ChosenFilter(rows[..n], want, ps);
      ChosenSnoc(rows[..n], rows[n], want);
      FilterSnoc(ps, rows[..n], rows[n]);
    }
  }

  lemma WantedAfter(pairs: Pairs, x: (int, Row), a: int)
    ensures Wanted(pairs + [x], a) == if x.0 == a then Wanted(pairs, a) + {IdOf(x.1)} else Wanted(pairs, a)
  {}

  lemma IdIn(rows: seq<Row>, id: int)
    ensures id in Ids(rows) <==> exists r :: r in rows && IdOf(r) == id
  {
    if id in Ids(rows) {
      var i :| 0 <= i < |rows| && Ids(rows)[i] == id;
      assert rows[i] in rows;
    }
    if r :| r in rows && IdOf(r) == id {
      var i :| 0 <= i < |rows| && rows[i] == r;
      assert Ids(rows)[i] == id;
    }
  }

  lemma SeenAt(pairs: Pairs, id: int) returns (k: nat)
    requires id in Ids(FirstRows(pairs))
    ensures k < |pairs| && IdOf(pairs[k].1) == id
  {
    FirstRowsLaws(pairs);
    hide FirstRows;
    var f := FirstRows(pairs);
    var x :| 0 <= x < |f| && Ids(f)[x] == id;
    k :| 0 <= k < |pairs| && f[x] == pairs[k].1;
  }

  /** In join rows that come group by group the last group that has been seen is that of the last row. */
  lemma {:induction false} LastGroup(pairs: Pairs)
    requires pairs != [] && Grouped(pairs)
    ensures var f := FirstRows(pairs); f != [] && f[|f| - 1] == pairs[|pairs| - 1].1
  {
    hide FirstRows;
    var n := |pairs| - 1;
    var q := pairs[..n];
    assert pairs == q + [pairs[n]];
    FirstRowsSnoc(q, pairs[n]);
    if IdOf(pairs[n].1) in Ids(FirstRows(q)) {
      var k := SeenAt(q, IdOf(pairs[n].1));
      GroupedPrefix(pairs, n);
      LastGroup(q);
      assert IdOf(pairs[k].1) == IdOf(pairs[n].1);
      assert IdOf(pairs[n - 1].1) == IdOf(pairs[n].1);
      assert q[n - 1].1 == pairs[n].1;
    }
  }

  /** The groups that the loader gives to an account are those of its own join rows. */
  lemma {:induction false} OwnGroups(pairs: Pairs, a: int)
    requires Grouped(pairs)
    ensures Chosen(FirstRows(pairs), Wanted(pairs, a)) == FirstRows(Own(pairs, a))
    ensures forall g :: g in Ids(FirstRows(Own(pairs, a))) <==> g in Wanted(pairs, a)
  {
    if pairs != [] {
      var n := |pairs| - 1;
      var q, x := pairs[..n], pairs[n];
      assert pairs == q + [x];
      GroupedPrefix(pairs, n);
      OwnGroups(q, a);
      OwnSnoc(q, x, a);
      WantedAfter(q, x, a);
      FirstRowsSnoc(q, x);
      FirstRowsSnoc(Own(q, a), x);
      IdsSnoc(FirstRows(Own(q, a)), x.1);
      if IdOf(x.1) in Ids(FirstRows(q)) {
        OldGroup(pairs, a);
      } else {
        NewGroup(q, x, a);
      }
    }
  }

  lemma IdsSnoc(rows: seq<Row>, r: Row)
    ensures Ids(rows + [r]) == Ids(rows) + [IdOf(r)]
  {}

  lemma NewGroup(q: Pairs, x: (int, Row), a: int)
    requires IdOf(x.1) !in Ids(FirstRows(q))
    ensures Chosen(FirstRows(q) + [x.1], Wanted(q + [x], a))
      == if x.0 == a then Chosen(FirstRows(q), Wanted(q, a)) + [x.1] else Chosen(FirstRows(q), Wanted(q, a))
    ensures IdOf(x.1) !in Wanted(q, a)
  {
    FirstRowsLaws(q);
    WantedAfter(q, x, a);
    ChosenSnoc(FirstRows(q), x.1, Wanted(q + [x], a));
    forall r | r in FirstRows(q) ensures IdOf(r) in Wanted(q, a) <==> IdOf(r) in Wanted(q + [x], a) {
      IdIn(FirstRows(q), IdOf(r));
    }
    ChosenSame(FirstRows(q), Wanted(q, a), Wanted(q + [x], a));
    forall p | p in q && p.0 == a ensures IdOf(p.1) != IdOf(x.1) {
      var k :| 0 <= k < |q| && q[k] == p;
      assert IdOf(q[k].1) in Ids(FirstRows(q));
    }
  }

  lemma OldGroup(pairs: Pairs, a: int)
    requires pairs != [] && Grouped(pairs)
    requires var n := |pairs| - 1; IdOf(pairs[n].1) in Ids(FirstRows(pairs[..n]))
    ensures var n := |pairs| - 1;
      var f, want, x := FirstRows(pairs[..n]), Wanted(pairs[..n], a), pairs[n].1;
      Chosen(f, want + {IdOf(x)}) == if IdOf(x) in want then Chosen(f, want) else Chosen(f, want) + [x]
  {
    hide FirstRows, Wanted, Chosen;
    var n := |pairs| - 1;
    var q := pairs[..n];
    assert pairs == q + [pairs[n]];
    FirstRowsSnoc(q, pairs[n]);
    LastGroup(pairs);
    FirstRowsLaws(q);
    ChosenLast(FirstRows(q), Wanted(q, a));
  }

  lemma ChosenLast(f: seq<Row>, want: set<int>)
    requires f != [] && DistinctIds(f)
    ensures var x := f[|f| - 1];
      Chosen(f, want + {IdOf(x)}) == if IdOf(x) in want then Chosen(f, want) else Chosen(f, want) + [x]
  {
    hide Chosen;
    var m := |f| - 1;
    var x := f[m];
    assert f == f[..m] + [x];
    if IdOf(x) in want {
      assert want + {IdOf(x)} == want;
    } else {
      forall r | r in f[..m] ensures IdOf(r) != IdOf(x) {
        var i :| 0 <= i < m && f[..m][i] == r;
        assert f[i] == r;
      }
      ChosenSame(f[..m], want, want + {IdOf(x)});
      ChosenSnoc(f[..m], x, want);
      ChosenSnoc(f[..m], x, want + {IdOf(x)});
    }
  }

  // Counting ------------------------------------------------------------------------

  function Cut(k: nat, pairs: Pairs): (r: Pairs) {
    if k < |pairs| then pairs[..k] else pairs
  }

  /** The groups of one account among the join rows. */
  function GroupsOf(pairs: Pairs, a: int): (r: seq<Row>) {
    FirstRows(Own(pairs, a))
  }

  /** The first k join rows hold every join row; or all join rows are one account's and the first k do not repeat. */
  ghost predicate Fits(pairs: Pairs, k: nat) {
    || (forall p :: p in pairs ==> p in Cut(k, pairs))
    || exists a :: OneAccount(pairs, a) && Distinct(Cut(k, pairs))
  }

  ghost predicate OneAccount(pairs: Pairs, a: int) {
    forall p :: p in pairs ==> p.0 == a
  }

  lemma {:induction false} FirstRowsShort(pairs: Pairs)
    ensures |FirstRows(pairs)| <= |pairs|
    ensures |FirstRows(pairs)| == |pairs| ==> Distinct(pairs)
  {
    hide FirstRows;
    if pairs == [] {
      NoRows();
    } else {
      var n := |pairs| - 1;
      var q := pairs[..n];
      FirstRowsShort(q);
      assert pairs == q + [pairs[n]];
      FirstRowsSnoc(q, pairs[n]);
      if |FirstRows(pairs)| == |pairs| {
        FirstRowsLaws(q);
        NewPair(q, pairs[n]);
      }
    }
  }

  lemma NewPair(q: Pairs, x: (int, Row))
    requires Distinct(q) && IdOf(x.1) !in Ids(FirstRows(q)) && forall k :: 0 <= k < |q| ==> IdOf(q[k].1) in Ids(FirstRows(q))
    ensures Distinct(q + [x])
  {
    hide FirstRows;
    forall i | 0 <= i < |q| ensures q[i] != x { assert IdOf(q[i].1) in Ids(FirstRows(q)); }
  }

  /** Rows of one account that do not repeat are of different groups. */
  lemma {:induction false} NoRepeat(pairs: Pairs, a: int)
    requires Grouped(pairs) && OneAccount(pairs, a) && Distinct(pairs)
    ensures |FirstRows(pairs)| == |pairs|
  {
    if pairs != [] {
      hide FirstRows;
      var n := |pairs| - 1;
      var q := pairs[..n];
      assert pairs == q + [pairs[n]];
      GroupedPrefix(pairs, n);
      forall p | p in q ensures p.0 == a { assert p in pairs; }
      forall i, j | 0 <= i < j < n ensures q[i] != q[j] { assert pairs[i] != pairs[j]; }
      NoRepeat(q, a);
      FirstRowsSnoc(q, pairs[n]);
      NewLast(pairs, a);
    } else {
      NoRows();
    }
  }

  lemma NoRows()
    ensures FirstRows([]) == []
  {}

  lemma NewLast(pairs: Pairs, a: int)
    requires pairs != [] && Grouped(pairs) && OneAccount(pairs, a) && Distinct(pairs)
    ensures IdOf(pairs[|pairs| - 1].1) !in Ids(FirstRows(pairs[..|pairs| - 1]))
  {
    hide FirstRows;
    var n := |pairs| - 1;
    FirstRowsLaws(pairs[..n]);
    var f := FirstRows(pairs[..n]);
    forall x | 0 <= x < |f| ensures Ids(f)[x] != IdOf(pairs[n].1) {
      var k :| 0 <= k < n && f[x] == pairs[..n][k].1;
      assert pairs[k] in pairs && pairs[n] in pairs;
      assert pairs[k] != pairs[n];
    }
  }

  lemma CutPrefix(pairs: Pairs, k: nat, a: int)
    ensures GroupsOf(Cut(k, pairs), a) <= GroupsOf(pairs, a)
    ensures |GroupsOf(Cut(k, pairs), a)| <= |Own(Cut(k, pairs), a)| <= |Cut(k, pairs)| <= k
  {
    var x := Cut(k, pairs);
    var y := pairs[|x|..];
    assert pairs == x + y;
    OwnConcat(x, y, a);
    FirstRowsPrefix(Own(x, a), Own(y, a));
    FirstRowsShort(Own(x, a));
    OwnMembers(x, a);
  }

  lemma PrefixWhole(f: seq<Row>, g: seq<Row>)
    requires f <= g && DistinctIds(g) && forall r :: r in g ==> IdOf(r) in Ids(f)
    ensures f == g
  {
    if |f| < |g| { NotBefore(f, g, |f|); }
  }

  lemma NotBefore(f: seq<Row>, g: seq<Row>, j: nat)
    requires f <= g && DistinctIds(g) && |f| <= j < |g|
    ensures IdOf(g[j]) !in Ids(f) && g[j] in g
  {
    forall y | 0 <= y < |f| ensures Ids(f)[y] != IdOf(g[j]) { assert f[y] == g[y]; }
  }

  lemma {:induction false} OwnNone(pairs: Pairs, a: int)
    requires forall p :: p in pairs ==> p.0 != a
    ensures Own(pairs, a) == []
  {
    if pairs != [] {
      var n := |pairs| - 1;
      assert pairs == pairs[..n] + [pairs[n]] && pairs[n] in pairs;
      OwnNone(pairs[..n], a);
    }
  }

  /** With all join rows among the first k nothing is lost. */
  lemma NothingLost(pairs: Pairs, k: nat, a: int)
    requires forall p :: p in pairs ==> p in Cut(k, pairs)
    ensures GroupsOf(Cut(k, pairs), a) == GroupsOf(pairs, a)
  {
    CutPrefix(pairs, k, a);
    var x := Own(Cut(k, pairs), a);
    OwnMembers(Cut(k, pairs), a);
    OwnMembers(pairs, a);
    FirstRowsLaws(x);
    FirstRowsLaws(Own(pairs, a));
    hide FirstRows, Own, Cut;
    var all := Own(pairs, a);
    var f, g := FirstRows(x), FirstRows(all);
    forall r | r in g ensures IdOf(r) in Ids(f) {
      var y :| 0 <= y < |g| && g[y] == r;
      var m :| 0 <= m < |all| && g[y] == all[m].1;
      assert all[m] in all;
      var n :| 0 <= n < |x| && x[n] == all[m];
      assert IdOf(x[n].1) in Ids(f);
    }
    PrefixWhole(f, g);
  }

  /** Each account gets as many groups as a limited query of its own exactly when the join rows fit. */
  lemma CountsFit(pairs: Pairs, k: nat, ids: seq<int>)
    requires 0 < k && Grouped(pairs) && forall p :: p in pairs ==> p.0 in ids
    ensures (forall a :: a in ids ==> |GroupsOf(Cut(k, pairs), a)| == if k < |GroupsOf(pairs, a)| then k else |GroupsOf(pairs, a)|)
      <==> Fits(pairs, k)
  {
    hide GroupsOf, Own, FirstRows, Grouped;
    if forall p :: p in pairs ==> p in Cut(k, pairs) {
      forall a ensures |GroupsOf(Cut(k, pairs), a)| == |GroupsOf(pairs, a)| <= k {
        NothingLost(pairs, k, a);
        CutPrefix(pairs, k, a);
      }
    } else {
      var p :| p in pairs && p !in Cut(k, pairs);
      assert k < |pairs|;
      if o :| OneAccount(pairs, o) && Distinct(Cut(k, pairs)) {
        forall a ensures |GroupsOf(Cut(k, pairs), a)| == if k < |GroupsOf(pairs, a)| then k else |GroupsOf(pairs, a)| {
          OneCounts(pairs, k, o, a);
        }
      }
      if forall a :: a in ids ==> |GroupsOf(Cut(k, pairs), a)| == if k < |GroupsOf(pairs, a)| then k else |GroupsOf(pairs, a)| {
        LostOne(pairs, k, p);
        AllOfOne(pairs, k, p.0, ids);
      }
    }
  }

  lemma OneCounts(pairs: Pairs, k: nat, o: int, a: int)
    requires k < |pairs| && Grouped(pairs) && OneAccount(pairs, o) && Distinct(Cut(k, pairs))
    ensures |GroupsOf(Cut(k, pairs), a)| == if k < |GroupsOf(pairs, a)| then k else |GroupsOf(pairs, a)|
  {
    CutPrefix(pairs, k, a);
    OwnMembers(pairs, a);
    hide FirstRows, Own, Grouped;
    if a == o {
      var x := Cut(k, pairs);
      GroupedPrefix(pairs, k);
      forall q | q in x ensures q.0 == o { assert q in pairs; }
      AllOwn(x, o);
      NoRepeat(x, o);
    } else {
      OwnNone(pairs, a);
      NoRows();
    }
  }

  lemma {:induction false} AllOwn(pairs: Pairs, a: int)
    requires OneAccount(pairs, a)
    ensures Own(pairs, a) == pairs
  {
    if pairs != [] {
      var n := |pairs| - 1;
      assert pairs == pairs[..n] + [pairs[n]] && pairs[n] in pairs;
      forall p | p in pairs[..n] ensures p.0 == a { assert p in pairs; }
      AllOwn(pairs[..n], a);
    }
  }

  /** An account that loses a join row altogether loses the group, unless its first rows fill the limit. */
  lemma LostOne(pairs: Pairs, k: nat, p: (int, Row))
    requires Grouped(pairs) && p in pairs && p !in Cut(k, pairs)
    ensures |GroupsOf(Cut(k, pairs), p.0)| < |GroupsOf(pairs, p.0)|
  {
    hide *;
    var x, a, g := Cut(k, pairs), p.0, IdOf(p.1);
    CutPrefix(pairs, k, a);
    CutIs(pairs, k);
    GroupedCut(pairs, k);
    OwnGroups(pairs, a);
    OwnGroups(x, a);
    GroupsAre(pairs, a);
    GroupsAre(x, a);
    WantedIff(pairs, a, g);
    WantedIff(x, a, g);
    SamePairs(pairs, x, p);
    assert g in Ids(GroupsOf(pairs, a)) && g !in Ids(GroupsOf(x, a));
    assert GroupsOf(x, a) != GroupsOf(pairs, a);
  }

  lemma CutIs(pairs: Pairs, k: nat)
    ensures Cut(k, pairs) <= pairs
  {}

  lemma WantedIff(pairs: Pairs, a: int, g: int)
    ensures g in Wanted(pairs, a) <==> exists p :: p in pairs && p.0 == a && IdOf(p.1) == g
  {}

  lemma SamePairs(pairs: Pairs, x: Pairs, p: (int, Row))
    requires Grouped(pairs) && x <= pairs && p in pairs
    ensures forall q :: q in x && q.0 == p.0 && IdOf(q.1) == IdOf(p.1) ==> q == p
  {
    hide Grouped;
    forall q | q in x && q.0 == p.0 && IdOf(q.1) == IdOf(p.1) ensures q == p {
      var i :| 0 <= i < |x| && x[i] == q;
      var j :| 0 <= j < |pairs| && pairs[j] == p;
      assert pairs[i] == q;
      SameGroup(pairs, i, j);
    }
  }

  lemma SameGroup(pairs: Pairs, i: nat, j: nat)
    requires Grouped(pairs) && i < |pairs| && j < |pairs| && IdOf(pairs[i].1) == IdOf(pairs[j].1)
    ensures pairs[i].1 == pairs[j].1
  {}

  /** If the limit is filled by one account's groups, all join rows must be that account's. */
  lemma AllOfOne(pairs: Pairs, k: nat, o: int, ids: seq<int>)
    requires 0 < k < |pairs| && (forall p :: p in pairs ==> p.0 in ids) && o in ids
    requires |GroupsOf(Cut(k, pairs), o)| < |GroupsOf(pairs, o)|
    requires forall a :: a in ids ==> |GroupsOf(Cut(k, pairs), a)| == if k < |GroupsOf(pairs, a)| then k else |GroupsOf(pairs, a)|
    ensures OneAccount(pairs, o) && Distinct(Cut(k, pairs))
  {
    var x := Cut(k, pairs);
    CutPrefix(pairs, k, o);
    OwnMembers(x, o);
    FirstRowsShort(x);
    hide FirstRows, Own;
    assert Own(x, o) == x;
    forall p | p in pairs ensures p.0 == o {
      if p.0 != o {
        SomeGroup(pairs, p);
        OwnNone(x, p.0);
        NoRows();
      }
    }
  }

  lemma SomeGroup(pairs: Pairs, p: (int, Row))
    requires p in pairs
    ensures GroupsOf(pairs, p.0) != []
  {
    OwnMembers(pairs, p.0);
    FirstRowsLaws(Own(pairs, p.0));
    hide FirstRows, Own;
    var i :| 0 <= i < |Own(pairs, p.0)| && Own(pairs, p.0)[i] == p;
    assert IdOf(p.1) in Ids(FirstRows(Own(pairs, p.0)));
  }

  // The edge ------------------------------------------------------------------------

  /** Every account of a limited group edge receives the groups of its own limited query exactly when the
      join rows of the batch fit the limit: a repeated membership uses it up without adding a group. */
  lemma LimitedGroups(db: Database, c: Query, rows: seq<Row>)
    requires KeyedDb(db) && c.head.table == Groups && c.with == map[] && c.head.from.None? && BadField(c.head).None?
    requires c.head.limit.Some? && c.head.limit.value > 0 && c.head.offset in {None, Some(0)} && DistinctIds(rows)
    ensures Neighbors(db, c, rows, ToGroups).Ok?
    ensures (forall i :: 0 <= i < |rows| ==>
        LinkFor(db, c, rows, ToGroups, Neighbors(db, c, rows, ToGroups).value, i) == OwnMany(db, c, IdOf(rows[i])))
      <==> Fits(JoinSelect(db, Unlimited(c.head), Ids(rows)), c.head.limit.value)
  {
    hide *;
    var ids, k := Ids(rows), c.head.limit.value;
    var pairs := JoinSelect(db, Unlimited(c.head), ids);
    RunGroups(db, c, rows);
    PlainUnlimited(db, c.head);
    JoinAll(db, Unlimited(c.head), ids);
    CountsFit(pairs, k, ids);
    forall i | 0 <= i < |rows|
      ensures ids[i] in ids
      ensures LinkFor(db, c, rows, ToGroups, Neighbors(db, c, rows, ToGroups).value, i) == OwnMany(db, c, ids[i])
        <==> |GroupsOf(Cut(k, pairs), ids[i])| == if k < |GroupsOf(pairs, ids[i])| then k else |GroupsOf(pairs, ids[i])|
    {
      GroupLink(db, c, rows, i);
      CutPrefix(pairs, k, ids[i]);
      LeavesApart(c.head, GroupsOf(Cut(k, pairs), ids[i]), GroupsOf(pairs, ids[i]), k);
    }
    forall a | a in ids ensures exists i :: 0 <= i < |rows| && ids[i] == a {}
  }

  /** An account's groups by a query of its own. */
  ghost function OwnMany(db: Database, c: Query, account: int): (l: Link) {
    Many(Nested(db, c.(head := MemberHead(db, c.head, account))))
  }

  lemma RunGroups(db: Database, c: Query, rows: seq<Row>)
    requires c.head.table == Groups && c.with == map[] && BadField(c.head).None?
    ensures Neighbors(db, c, rows, ToGroups) == Ok(LeafTrees(c.head, FirstRows(JoinSelect(db, c.head, Ids(rows)))))
  {
    RunJoined(db, c, Ids(rows));
  }

  lemma JoinAll(db: Database, h: Head, ids: seq<int>)
    requires h.table == Groups && h.from.None? && Open(h) && DistinctIds(db.Of(Groups))
    ensures Grouped(JoinSelect(db, h, ids))
    ensures forall p :: p in JoinSelect(db, h, ids) ==> p.0 in ids
  {
    hide Drawn, SelectRows, JoinRows, JoinSelect, Grouped;
    var plain := h.(unique := Some(false));
    var groups := SelectRows(db, plain);
    OpenJoin(db, h, ids);
    SelectDistinct(db, plain);
    JoinGrouped(db.Of(AccountGroups), ids, groups);
    JoinRowsLaws(db.Of(AccountGroups), ids, groups);
  }

  /** Trees of a prefix are the trees of the first k rows exactly when they are as many. */
  lemma LeavesApart(h: Head, f: seq<Row>, g: seq<Row>, k: nat)
    requires f <= g
    ensures LeafTrees(h, f) == LeafTrees(h, if k < |g| then g[..k] else g) <==> |f| == if k < |g| then k else |g|
  {
    hide Project;
    var want := if k < |g| then g[..k] else g;
    if |f| == |want| { assert f == want; }
    assert |LeafTrees(h, f)| == |f| && |LeafTrees(h, want)| == |want|;
  }

  lemma GroupLink(db: Database, c: Query, rows: seq<Row>, i: int)
    requires KeyedDb(db) && c.head.table == Groups && c.with == map[] && c.head.from.None? && BadField(c.head).None?
    requires c.head.limit.Some? && c.head.limit.value > 0 && c.head.offset in {None, Some(0)} && DistinctIds(rows) && 0 <= i < |rows|
    ensures var k, pairs, a := c.head.limit.value, JoinSelect(db, Unlimited(c.head), Ids(rows)), IdOf(rows[i]);
      var ts := LeafTrees(c.head, FirstRows(JoinSelect(db, c.head, Ids(rows))));
      && LinkFor(db, c, rows, ToGroups, ts, i) == Many(LeafTrees(c.head, GroupsOf(Cut(k, pairs), a)))
      && OwnMany(db, c, a)
        == Many(LeafTrees(c.head, if k < |GroupsOf(pairs, a)| then GroupsOf(pairs, a)[..k] else GroupsOf(pairs, a)))
  {
    hide *;
    var k, ids, a := c.head.limit.value, Ids(rows), IdOf(rows[i]);
    var pairs, cut := JoinSelect(db, Unlimited(c.head), ids), JoinSelect(db, c.head, ids);
    JoinCut(db, c.head, ids);
    PlainUnlimited(db, c.head);
    JoinAll(db, Unlimited(c.head), ids);
    GroupedCut(pairs, k);
    OwnGroups(cut, a);
    GroupsAre(cut, a);
    PickLeaves(c.head, FirstRows(cut), Wanted(cut, a));
    LastGroups(db, c, rows, LeafTrees(c.head, FirstRows(cut)), i);
    assert ids[i] in ids;
    OwnRows(db, c.head, ids, a);
    OwnQuery(db, c, a);
  }

  lemma GroupsAre(pairs: Pairs, a: int)
    ensures GroupsOf(pairs, a) == FirstRows(Own(pairs, a))
  {}

  lemma LastGroups(db: Database, c: Query, rows: seq<Row>, ts: seq<Tree>, i: int)
    requires DistinctIds(rows) && 0 <= i < |rows|
    ensures LinkFor(db, c, rows, ToGroups, ts, i)
      == Many(PickIn(ts, IdKeys(RowsOf(ts)), Wanted(JoinSelect(db, c.head, Ids(rows)), IdOf(rows[i]))))
  {
    hide JoinSelect, Wanted, PickIn;
    assert LastOwner(rows, i);
  }

  lemma JoinCut(db: Database, h: Head, ids: seq<int>)
    requires h.limit.Some? && h.limit.value > 0 && h.offset in {None, Some(0)}
    ensures JoinSelect(db, h, ids) == Cut(h.limit.value, JoinSelect(db, Unlimited(h), ids))
    ensures Open(Unlimited(h)) && Unlimited(h).table == h.table && Unlimited(h).from == h.from
  {
    hide JoinRows, Sort, Filter;
  }

  lemma GroupedCut(pairs: Pairs, k: nat)
    requires Grouped(pairs)
    ensures Grouped(Cut(k, pairs))
  {
    if k < |pairs| { GroupedPrefix(pairs, k); }
  }

  lemma LeafSnoc(h: Head, q: seq<Row>, x: Row)
    ensures LeafTrees(h, q + [x]) == LeafTrees(h, q) + [Tree(Project(h, {}, x), map[])]
    ensures IdKeys(RowsOf(LeafTrees(h, q + [x]))) == IdKeys(RowsOf(LeafTrees(h, q))) + [Some(IdOf(Project(h, {}, x)))]
  {
    hide Project;
  }

  lemma NoLeaves(h: Head, want: set<int>)
    ensures PickIn(LeafTrees(h, []), IdKeys(RowsOf(LeafTrees(h, []))), want) == LeafTrees(h, Chosen([], want))
  {}

  lemma {:induction false} PickLeaves(h: Head, raws: seq<Row>, want: set<int>)
    requires HasId(h.table)
    ensures PickIn(LeafTrees(h, raws), IdKeys(RowsOf(LeafTrees(h, raws))), want) == LeafTrees(h, Chosen(raws, want))
  {
    hide *;
    if raws == [] {
      NoLeaves(h, want);
    } else {
      var n := |raws| - 1;
      var q, x := raws[..n], raws[n];
      PickLeaves(h, q, want);
      ProjectId(h, {}, x);
      assert raws == q + [x];
      ChosenSnoc(q, x, want);
      LeafSnoc(h, q, x);
      LeafSnoc(h, Chosen(q, want), x);
      PickAppend(LeafTrees(h, q), IdKeys(RowsOf(LeafTrees(h, q))), Tree(Project(h, {}, x), map[]), Some(IdOf(x)), want);
    }
  }

  /** An account's own query returns the first of its groups among all join rows. */
  lemma OwnQuery(db: Database, c: Query, a: int)
    requires c.with == map[]
    ensures OwnMany(db, c, a) == Many(LeafTrees(c.head, SelectRows(db, MemberHead(db, c.head, a))))
  {
    hide SelectRows, Height;
    var h := MemberHead(db, c.head, a);
    var s := c.(head := h);
    var raws := SelectRows(db, h);
    var ts := Nested(db, s);
    forall j | 0 <= j < |raws| ensures ts[j] == LeafTrees(c.head, raws)[j] {
      assert ts[j] == NestTree(db, s, raws[j]);
      assert Project(h, {}, raws[j]) == Project(c.head, {}, raws[j]);
      assert NestTree(db, s, raws[j]).edges == map[];
      assert s.with.Keys == {};
    }
    assert ts == LeafTrees(c.head, raws);
  }

  lemma OwnRows(db: Database, h: Head, ids: seq<int>, a: int)
    requires KeyedDb(db) && h.table == Groups && h.from.None? && a in ids
    requires h.limit.Some? && h.limit.value > 0 && h.offset in {None, Some(0)}
    ensures var g := GroupsOf(JoinSelect(db, Unlimited(h), ids), a);
      SelectRows(db, MemberHead(db, h, a)) == if h.limit.value < |g| then g[..h.limit.value] else g
  {
    MemberCut(db, h, a);
    hide *;
    var u := Unlimited(h).(unique := Some(false));
    var members, groups := db.Of(AccountGroups), SelectRows(db, u);
    var pairs := JoinRows(members, ids, groups);
    PlainUnlimited(db, h);
    OpenJoin(db, Unlimited(h), ids);
    JoinAll(db, Unlimited(h), ids);
    SelectDistinct(db, u);
    OwnGroups(pairs, a);
    GroupsAre(pairs, a);
    FirstRowsJoin(members, ids, groups);
    MineOf(members, ids, groups, a);
    JoinNarrow(db, u, ids, a);
    SameMember(db, h, a);
  }

  lemma PlainUnlimited(db: Database, h: Head)
    requires KeyedDb(db) && h.table == Groups && h.from.None?
    ensures var u := Unlimited(h).(unique := Some(false));
      Open(Unlimited(h)) && Unlimited(h).table == Groups && Unlimited(h).from.None? && DistinctIds(db.Of(Groups))
      && Open(u) && u.table == Groups && u.from.None? && HasId(Groups)
  {}

  lemma SameMember(db: Database, h: Head, a: int)
    ensures MemberHead(db, Unlimited(h).(unique := Some(false)), a) == Unlimited(MemberHead(db, h, a))
  {}

  lemma MemberCut(db: Database, h: Head, a: int)
    requires h.limit.Some? && h.limit.value > 0 && h.offset in {None, Some(0)}
    ensures var all := SelectRows(db, Unlimited(MemberHead(db, h, a)));
      SelectRows(db, MemberHead(db, h, a)) == if h.limit.value < |all| then all[..h.limit.value] else all
  {
    hide Sort, Filter;
  }

  /** The groups chosen for an account are its own, taken from the groups of the batch. */
  lemma MineOf(members: seq<Row>, ids: seq<int>, groups: seq<Row>, a: int)
    requires DistinctIds(groups) && a in ids
    ensures var any, mine := Where(g => JoinsAny(members, ids, g)), MemberPred(members, a);
      Chosen(Filter([any], groups), Wanted(JoinRows(members, ids, groups), a)) == Filter([mine], Filter([any], groups))
  {
    var any, mine := Where(g => JoinsAny(members, ids, g)), MemberPred(members, a);
    FilterMembers([any], groups);
    hide Chosen, Filter, JoinRows, Wanted;
    var kept := Filter([any], groups);
    forall r | r in kept ensures IdOf(r) in Wanted(JoinRows(members, ids, groups), a) <==> Keep([mine], r) {
      WantedJoins(members, ids, groups, a, r);
      assert Sat([mine][0], r) == Joins(members, a, r);
    }
    ChosenFilter(kept, Wanted(JoinRows(members, ids, groups), a), [mine]);
  }
}
