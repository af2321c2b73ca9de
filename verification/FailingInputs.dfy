/**
 Inputs at which limits, reused builders and scans part from what one would expect: two accounts with one
 child each.
 */
module FailingInputs {
  import opened Collections
  import opened Store
  import opened Plan
  import opened PlanLaws
  import opened EagerLaws
  import opened RowLaws
  import opened LimitLaws
  import opened GroupLimits

  function Parent(id: int): (r: Row) {
    map[Id := id]
  }

  function Child(id: int, parent: int): (r: Row) {
    map[Id := id, ParentAccountId := parent]
  }

  function Family(): (db: Database) {
    Database(map[Accounts := [Parent(1), Parent(2), Child(3, 1), Child(4, 2)]])
  }

  function AllAccounts(limit: Option<nat>): (q: Query) {
    Query(PlainHead(Accounts, None, None).(limit := limit), map[])
  }

  lemma FamilySound(limit: Option<nat>)
    ensures Sound(Family(), AllAccounts(limit))
    ensures Family().Of(Accounts) == [Parent(1), Parent(2), Child(3, 1), Child(4, 2)]
  {
    var db, q := Family(), AllAccounts(limit);
    var rows := db.Of(Accounts);
    assert rows == [Parent(1), Parent(2), Child(3, 1), Child(4, 2)];
    forall t | t != Accounts ensures db.Of(t) == [] {}
    forall i | 0 <= i < 4 ensures Id in rows[i] && IdOf(rows[i]) == i + 1 {}
    assert DistinctIds(rows);
    assert Ready(q) && FieldsOk(q) && Unwindowed(q);
  }

  lemma BatchHas(limit: Option<nat>, p: Pred, r: Row)
    requires r in Family().Of(Accounts) && Sat(p, r)
    ensures var h := Unlimited(AllAccounts(limit).head); r in SelectRows(Family(), h.(preds := h.preds + [p]))
  {
    var h := Unlimited(AllAccounts(limit).head);
    SelectHas(Family(), h.(preds := h.preds + [p]), r);
  }

  /** A limit of 1 on the children of two accounts: one of them misses its child. */
  lemma LimitedListsDiffer()
    ensures var db, c, rows := Family(), AllAccounts(Some(1)), [Parent(1), Parent(2)];
      Neighbors(db, c, rows, ToChildren).Ok? &&
      exists i :: 0 <= i < |rows|
        && LinkFor(db, c, rows, ToChildren, Neighbors(db, c, rows, ToChildren).value, i) != Many(Nested(db, LinkMany(c, ToChildren, [IdOf(rows[i])])))
  {
    var db, c, rows := Family(), AllAccounts(Some(1)), [Parent(1), Parent(2)];
    FamilySound(Some(1));
    assert IdOf(rows[0]) == 1 && IdOf(rows[1]) == 2;
    var ids := Ids(rows);
    assert ids == [1, 2];
    BatchHas(Some(1), KeyIn(ParentAccountId, ids), db.Of(Accounts)[2]);
    BatchHas(Some(1), KeyIn(ParentAccountId, ids), db.Of(Accounts)[3]);
    LimitedLists(db, c, ToChildren, rows);
    hide SelectRows, Sound, Neighbors, LinkFor, Nested, Family;
    var batch := SelectRows(db, LinkManyHead(Unlimited(c.head), ToChildren, ids));
    assert Child(3, 1) in batch && Child(4, 2) in batch;
    TwoOwners(batch);
  }

  lemma TwoOwners(batch: seq<Row>)
    requires Child(3, 1) in batch && Child(4, 2) in batch
    ensures |batch| > 1 && !exists p :: AllKey(ParentAccountId, batch, p)
  {
    var i :| 0 <= i < |batch| && batch[i] == Child(3, 1);
    var j :| 0 <= j < |batch| && batch[j] == Child(4, 2);
    assert batch[i][ParentAccountId] == 1 && batch[j][ParentAccountId] == 2;
  }

  /** A limit of 1 on the parents of two accounts: one of them misses its parent. */
  lemma LimitedOnesDiffer()
    ensures var db, c, rows := Family(), AllAccounts(Some(1)), [Child(3, 1), Child(4, 2)];
      Neighbors(db, c, rows, ToParent).Ok? &&
      exists i :: 0 <= i < |rows|
        && LinkFor(db, c, rows, ToParent, Neighbors(db, c, rows, ToParent).value, i) != OwnOne(db, c, FkValue(ToParent, rows[i]))
  {
    var db, c, rows := Family(), AllAccounts(Some(1)), [Child(3, 1), Child(4, 2)];
    FamilySound(Some(1));
    var ids := ParentIds();
    BatchHas(Some(1), KeyIn(Id, ids), db.Of(Accounts)[0]);
    BatchHas(Some(1), KeyIn(Id, ids), db.Of(Accounts)[1]);
    LimitedOnes(db, c, ToParent, rows);
    hide SelectRows, Sound, Neighbors, LinkFor, Nested, Family, OwnOne, FirstSeen;
    var batch := SelectRows(db, LinkOneHead(Unlimited(c.head), ids));
    assert Parent(1) in batch && Parent(2) in batch;
    TwoRows(batch);
  }

  lemma ParentIds() returns (ids: seq<int>)
    ensures ids == FirstSeen(FkKeys(ToParent, [Child(3, 1), Child(4, 2)])) && 1 in ids && 2 in ids
  {
    var keys := FkKeys(ToParent, [Child(3, 1), Child(4, 2)]);
    ids := FirstSeen(keys);
    assert keys[0] == Some(1) && keys[1] == Some(2);
    assert Some(1) in keys && Some(2) in keys;
  }

  lemma TwoRows(batch: seq<Row>)
    requires Parent(1) in batch && Parent(2) in batch
    ensures |batch| > 1
  {
    var i :| 0 <= i < |batch| && batch[i] == Parent(1);
    var j :| 0 <= j < |batch| && batch[j] == Parent(2);
    assert batch[i][Id] != batch[j][Id];
  }

  /** A builder loaded for the children of account 1 misses those of account 2. */
  lemma ReusedListsDiffer()
    ensures var db, c, rows := Family(), AllAccounts(None), [Parent(2)];
      var used := LinkMany(c, ToChildren, [1]);
      Neighbors(db, used, rows, ToChildren).Ok? && Neighbors(db, c, rows, ToChildren).Ok? &&
      exists i :: 0 <= i < |rows|
        && LinkFor(db, used, rows, ToChildren, Neighbors(db, used, rows, ToChildren).value, i)
          != LinkFor(db, c, rows, ToChildren, Neighbors(db, c, rows, ToChildren).value, i)
  {
    var db, c, rows := Family(), AllAccounts(None), [Parent(2)];
    FamilySound(None);
    assert IdOf(rows[0]) == 2;
    assert Ids(rows) == [2];
    BatchHas(None, KeyIn(ParentAccountId, [2]), db.Of(Accounts)[3]);
    ReusedLists(db, c, ToChildren, [1], rows);
    hide SelectRows, Sound, Neighbors, LinkFor, Nested, Family, LinkMany;
    assert Child(4, 2) in SelectRows(db, LinkManyHead(c.head, ToChildren, [2]));
    assert Child(4, 2)[ParentAccountId] == 2;
  }

  /** A builder loaded for parent 1 misses parent 2. */
  lemma ReusedOnesDiffer()
    ensures var db, c, rows := Family(), AllAccounts(None), [Child(4, 2)];
      var used := LinkOne(c, [1]);
      Neighbors(db, used, rows, ToParent).Ok? && Neighbors(db, c, rows, ToParent).Ok? &&
      exists i :: 0 <= i < |rows|
        && LinkFor(db, used, rows, ToParent, Neighbors(db, used, rows, ToParent).value, i)
          != LinkFor(db, c, rows, ToParent, Neighbors(db, c, rows, ToParent).value, i)
  {
    var db, c, rows := Family(), AllAccounts(None), [Child(4, 2)];
    FamilySound(None);
    var keys := FkKeys(ToParent, rows);
    assert keys[0] == Some(2) && Some(2) in keys;
    var ids := FirstSeen(keys);
    BatchHas(None, KeyIn(Id, ids), db.Of(Accounts)[1]);
    ReusedOnes(db, c, ToParent, [1], rows);
    hide SelectRows, Sound, Neighbors, LinkFor, Nested, Family, LinkOne, FirstSeen;
    assert Parent(2) in SelectRows(db, LinkOneHead(c.head, ids));
    assert Parent(2)[Id] == 2;
  }

  /** With a zero limit `All` returns every account and `IDs` none. */
  lemma ScanDiffers()
    ensures var db, q := Family(), AllAccounts(Some(0));
      Run(db, q).Ok? && Run(db, q).value != [] && Scanned(db, q) == Ok([])
  {
    var db, q := Family(), AllAccounts(Some(0));
    FamilySound(Some(0));
    BatchedIsNested(db, q);
    SelectHas(db, q.head, db.Of(Accounts)[0]);
    hide SelectRows, Run, Family;
    assert Ids(Seen(q.head, SelectRows(db, q.head))) == [];
  }

  function Group(id: int): (r: Row) {
    map[Id := id]
  }

  function Membership(account: int, group: int): (r: Row) {
    map[AccountId := account, GroupId := group]
  }

  function Club(): (db: Database) {
    Database(map[Groups := [Group(1), Group(2)], AccountGroups := [Membership(1, 1), Membership(2, 2)]])
  }

  /** A limit of 1 on the groups of two accounts with one group each: one of them misses its group. */
  lemma LimitedGroupsDiffer(db: Database, c: Query, rows: seq<Row>)
    requires db == Club() && c == Query(PlainHead(Groups, None, None).(limit := Some(1)), map[]) && rows == [Parent(1), Parent(2)]
    ensures Neighbors(db, c, rows, ToGroups).Ok? &&
      exists i :: 0 <= i < |rows|
        && LinkFor(db, c, rows, ToGroups, Neighbors(db, c, rows, ToGroups).value, i) != OwnMany(db, c, IdOf(rows[i]))
  {
    ClubRows();
    assert IdOf(rows[0]) == 1 && IdOf(rows[1]) == 2;
    var ids := Ids(rows);
    assert ids[0] == 1 && ids[1] == 2;
    LimitedGroups(db, c, rows);
    ClubPairs(c.head, ids);
    hide JoinSelect, Neighbors, LinkFor, OwnMany, Club, KeyedDb;
    TwoAccounts(JoinSelect(db, Unlimited(c.head), ids));
  }

  lemma ClubRows()
    ensures KeyedDb(Club())
    ensures Club().Of(Groups) == [Group(1), Group(2)] && Club().Of(AccountGroups) == [Membership(1, 1), Membership(2, 2)]
  {
    var db := Club();
    forall t | t != Groups && t != AccountGroups ensures db.Of(t) == [] {}
    assert IdOf(Group(1)) == 1 && IdOf(Group(2)) == 2;
  }

  lemma ClubPairs(h: Head, ids: seq<int>)
    requires h == PlainHead(Groups, None, None).(limit := Some(1)) && 1 in ids && 2 in ids
    ensures var pairs := JoinSelect(Club(), Unlimited(h), ids); (1, Group(1)) in pairs && (2, Group(2)) in pairs
  {
    ClubRows();
    var db, u := Club(), Unlimited(h).(unique := Some(false));
    var members := db.Of(AccountGroups);
    SelectHas(db, u, db.Of(Groups)[0]);
    SelectHas(db, u, db.Of(Groups)[1]);
    OpenJoin(db, Unlimited(h), ids);
    JoinRowsLaws(members, ids, SelectRows(db, u));
    hide SelectRows, JoinSelect, JoinRows, Club;
    assert members[0] in members && members[1] in members;
    assert Joins(members, 1, Group(1)) && Joins(members, 2, Group(2));
  }

  lemma TwoAccounts(pairs: Pairs)
    requires (1, Group(1)) in pairs && (2, Group(2)) in pairs
    ensures !Fits(pairs, 1)
  {
    var p, q := (1, Group(1)), (2, Group(2));
    var i :| 0 <= i < |pairs| && pairs[i] == p;
    var j :| 0 <= j < |pairs| && pairs[j] == q;
    assert i != j;
    var first := Cut(1, pairs);
    assert |first| == 1;
    assert p in first ==> first[0] == p;
    assert q in first ==> first[0] == q;
    assert p.0 != q.0;
  }
}
