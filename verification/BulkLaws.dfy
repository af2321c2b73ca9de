/**
 What a bulk save comes to, for all builders, hooks, checks and insert answers.
 */
module BulkLaws {
  import opened Collections
  import opened Codec
  import opened Create
  import opened BulkPlan

  /** The first builder from k on that is not ready; their number if all are. */
  function Stop(p: Plan, k: nat): (s: nat)
    requires k <= |p.builders|
    ensures k <= s <= |p.builders| && (forall j :: k <= j < s ==> Ready(p, j)) && (s < |p.builders| ==> !Ready(p, s))
    decreases |p.builders| - k
  {
    if k == |p.builders| || !Ready(p, k) then k else Stop(p, k + 1)
  }

  /** What goes wrong at the bottom of the chain: in the insert if all builders are ready, else at
      builder s, where a hook that returns without an error hides that nothing was inserted. */
  function Fault(p: Plan, s: nat): (r: Option<SaveError>)
    requires s < |p.builders| ==> !Ready(p, s)
  {
    if s >= |p.builders| then InsertError(p.insert)
    else
      match At(p, s)
      case Stopped(h, failed) => if failed then Some(HookFailed(s, h)) else None
      case Reached(_, own) => Some(Unchecked(s, Check(p.env, own).value))
  }

  /** No hook of builder j that has called next fails afterwards. */
  ghost predicate Quiet(p: Plan, j: nat)
    requires j < |p.builders|
  {
    forall h :: 0 <= h < (if At(p, j).Stopped? then At(p, j).hook else |p.builders[j].hooks|) ==> !p.builders[j].hooks[h].failsAfter
  }

  ghost predicate QuietBetween(p: Plan, lo: nat, s: nat) {
    forall j :: lo <= j <= s && j < |p.builders| ==> Quiet(p, j)
  }

  /** Hook h of builder j has called next. */
  predicate Called(p: Plan, j: nat, h: nat)
    requires j < |p.builders|
  {
    h < if At(p, j).Stopped? then At(p, j).hook else |p.builders[j].hooks|
  }

  /** Hook h of builder j fails after its next, and none further in does. */
  ghost predicate Innermost(p: Plan, s: nat, j: nat, h: nat) {
    && j < |p.builders| && j <= s && Called(p, j, h) && p.builders[j].hooks[h].failsAfter
    && (forall g :: h < g && Called(p, j, g) ==> !p.builders[j].hooks[g].failsAfter)
    && QuietBetween(p, j + 1, s)
  }

  lemma {:induction false} UnwindExact(k: nat, hooks: seq<Hook>, lo: nat, hi: nat, r: Option<SaveError>)
    requires lo <= hi <= |hooks|
    ensures r.Some? ==> Unwind(k, hooks, lo, hi, r) == r
    ensures r.None? ==> (Unwind(k, hooks, lo, hi, r) == None <==> forall h :: lo <= h < hi ==> !hooks[h].failsAfter)
    ensures r.None? ==> forall e :: Unwind(k, hooks, lo, hi, r) == Some(e) ==>
      e.HookFailed? && e.builder == k && lo <= e.hook < hi && hooks[e.hook].failsAfter && forall h :: e.hook < h < hi ==> !hooks[h].failsAfter
    decreases hi - lo
  {
    if lo < hi { UnwindExact(k, hooks, lo + 1, hi, r); }
  }

  /** The error is that of the last hook of builder k that fails after its next. */
  ghost predicate LateAt(p: Plan, k: nat, e: SaveError)
    requires k < |p.builders|
  {
    && e.HookFailed? && e.builder == k && Called(p, k, e.hook) && p.builders[k].hooks[e.hook].failsAfter
    && forall g :: e.hook < g && Called(p, k, g) ==> !p.builders[k].hooks[g].failsAfter
  }

  lemma ResultAtStop(p: Plan, k: nat)
    requires k < |p.builders| && !Ready(p, k)
    ensures Fault(p, k).Some? ==> ResultFrom(p, k, 0) == Fault(p, k)
    ensures Fault(p, k).None? ==> (ResultFrom(p, k, 0) == None <==> Quiet(p, k))
    ensures Fault(p, k).None? ==> forall e :: ResultFrom(p, k, 0) == Some(e) ==> LateAt(p, k, e)
  {
    hide Descend, Check;
    var hooks := p.builders[k].hooks;
    match At(p, k)
    case Stopped(h, failed) => UnwindExact(k, hooks, 0, h, if failed then Some(HookFailed(k, h)) else None);
    case Reached(_, _) => UnwindExact(k, hooks, 0, |hooks|, BaseResult(p, k));
  }

  lemma ResultPast(p: Plan, k: nat)
    requires k < |p.builders| && Ready(p, k)
    ensures RestResult(p, k).Some? ==> ResultFrom(p, k, 0) == RestResult(p, k)
    ensures RestResult(p, k).None? ==> (ResultFrom(p, k, 0) == None <==> Quiet(p, k))
    ensures RestResult(p, k).None? ==> forall e :: ResultFrom(p, k, 0) == Some(e) ==> LateAt(p, k, e)
  {
    hide Descend, Check, RestResult;
    UnwindExact(k, p.builders[k].hooks, 0, |p.builders[k].hooks|, BaseResult(p, k));
  }

  /** The result of builder k's mutator, whose part of the chain ends at s. */
  lemma {:induction false} ResultExact(p: Plan, k: nat)
    requires k < |p.builders|
    ensures var s := Stop(p, k);
      && (Fault(p, s).Some? ==> ResultFrom(p, k, 0) == Fault(p, s))
      && (Fault(p, s).None? ==> (ResultFrom(p, k, 0) == None <==> QuietBetween(p, k, s)))
      && (Fault(p, s).None? ==> forall e :: ResultFrom(p, k, 0) == Some(e) ==> e.HookFailed? && e.builder >= k && Innermost(p, s, e.builder, e.hook))
    decreases |p.builders| - k
  {
    hide Ready, ResultFrom, Quiet, Called;
    var s := Stop(p, k);
    if Ready(p, k) {
      ResultPast(p, k);
      if k < |p.builders| - 1 { ResultExact(p, k + 1); }
      assert QuietBetween(p, k, s) <==> Quiet(p, k) && QuietBetween(p, k + 1, s);
    } else {
      ResultAtStop(p, k);
      assert QuietBetween(p, k, s) <==> Quiet(p, k);
    }
  }

  /** The outcome of a save, exactly: a failed hook, check or insert is reported and leaves every
      mutation not done; otherwise the only errors are those of hooks after their next has succeeded,
      and a mutation is done unless one of those hooks lies further in. */
  lemma SaveExact(p: Plan)
    requires p.builders != []
    ensures var s := Stop(p, 0);
      && (Fault(p, s).Some? ==> Outcome(p) == Fault(p, s) && forall k :: 0 <= k < |p.builders| ==> !Done(p, k))
      && (Fault(p, s).None? ==>
            && (Outcome(p) == None <==> QuietBetween(p, 0, s))
            && forall k :: 0 <= k < |p.builders| ==> (Done(p, k) <==> k < s && QuietBetween(p, k + 1, s)))
  {
    var s := Stop(p, 0);
    ResultExact(p, 0);
    forall k | 0 <= k < |p.builders|
      ensures Done(p, k) <==> Fault(p, s).None? && k < s && QuietBetween(p, k + 1, s)
    {
      DoneExact(p, k);
    }
  }

  lemma DoneExact(p: Plan, k: nat)
    requires k < |p.builders|
    ensures var s := Stop(p, 0);
      Done(p, k) <==> Fault(p, s).None? && k < s && QuietBetween(p, k + 1, s)
  {
    hide Ready, ResultFrom, Quiet;
    var s := Stop(p, 0);
    assert Passed(p, k) <==> k < s by { if s <= k { assert !Ready(p, s); } }
    if k < s {
      StopSkips(p, 0, k + 1);
      if k < |p.builders| - 1 { ResultExact(p, k + 1); }
    }
  }

  lemma {:induction false} StopSkips(p: Plan, lo: nat, k: nat)
    requires lo <= k <= |p.builders| && k <= Stop(p, lo)
    ensures Stop(p, k) == Stop(p, lo)
    decreases k - lo
  {
    if lo < k { StopSkips(p, lo + 1, k); }
  }

  /** Every error that a save can report, and exactly when: the insert's refusal, of its kind, when all
      builders are ready; the first failing check; a hook that fails instead of calling next; or, where
      nothing fails on the way in, the innermost hook that fails after its next. */
  lemma ErrorsExact(p: Plan)
    ensures Outcome(p) == Some(Constraint) <==> p.builders != [] && AllReady(p) && p.insert == Refused(true)
    ensures Outcome(p) == Some(InsertFailed) <==> p.builders != [] && AllReady(p) && p.insert == Refused(false)
    ensures forall k: nat, c :: Outcome(p) == Some(Unchecked(k, c)) <==> FailsCheck(p, k, c)
    ensures forall k: nat, h: nat :: Outcome(p) == Some(HookFailed(k, h)) <==> FailsIn(p, k, h) || FailsOut(p, k, h)
  {
    if p.builders != [] {
      var s := Stop(p, 0);
      ResultExact(p, 0);
      assert AllReady(p) <==> s == |p.builders|;
      forall k: nat, c ensures Outcome(p) == Some(Unchecked(k, c)) <==> FailsCheck(p, k, c) {
        hide Check, Descend, Outcome;
        if FailsCheck(p, k, c) { assert k == s by { assert !Ready(p, k); } }
      }
      forall k: nat, h: nat ensures Outcome(p) == Some(HookFailed(k, h)) <==> FailsIn(p, k, h) || FailsOut(p, k, h) {
        HooksExact(p, k, h);
      }
    }
  }

  lemma HooksExact(p: Plan, k: nat, h: nat)
    requires p.builders != []
    ensures Outcome(p) == Some(HookFailed(k, h)) <==> FailsIn(p, k, h) || FailsOut(p, k, h)
  {
    var s := Stop(p, 0);
    ResultExact(p, 0);
    hide Check, Descend, Outcome, Stop, Innermost;
    if FailsIn(p, k, h) { assert k == s by { assert !Ready(p, k); } }
    if t: nat :| EndsQuietly(p, t) && Innermost(p, t, k, h) {
      EndsAtStop(p, t);
      InnermostFails(p, s, k, h);
      InnermostOnce(p, s, k, h, Outcome(p).value.builder, Outcome(p).value.hook);
    }
    if Outcome(p) == Some(HookFailed(k, h)) && Fault(p, s).None? { assert EndsQuietly(p, s); }
  }

  lemma EndsAtStop(p: Plan, t: nat)
    requires EndsQuietly(p, t)
    ensures t == Stop(p, 0)
  {
    assert t < |p.builders| ==> !Ready(p, t);
    var s := Stop(p, 0);
    assert s < |p.builders| ==> !Ready(p, s);
  }

  lemma InnermostFails(p: Plan, s: nat, k: nat, h: nat)
    requires Innermost(p, s, k, h)
    ensures !QuietBetween(p, 0, s)
  {
    assert !Quiet(p, k);
  }

  lemma InnermostOnce(p: Plan, s: nat, k: nat, h: nat, k': nat, h': nat)
    requires Innermost(p, s, k, h) && Innermost(p, s, k', h')
    ensures k == k' && h == h'
  {
    assert !Quiet(p, k) && !Quiet(p, k');
  }

  /** The check of builder k is reached and fails. */
  ghost predicate FailsCheck(p: Plan, k: nat, c: CheckError) {
    k < |p.builders| && (forall j :: 0 <= j < k ==> Ready(p, j)) && At(p, k).Reached? && Check(p.env, At(p, k).own) == Some(c)
  }

  /** Hook h of builder k is reached and fails instead of calling next. */
  ghost predicate FailsIn(p: Plan, k: nat, h: nat) {
    k < |p.builders| && (forall j :: 0 <= j < k ==> Ready(p, j)) && At(p, k) == Stopped(h, true)
  }

  /** Nothing fails on the way in: up to a hook of builder s that returns at once, or to an insert that succeeds. */
  ghost predicate EndsQuietly(p: Plan, s: nat) {
    && (forall j :: 0 <= j < s && j < |p.builders| ==> Ready(p, j))
    && if s < |p.builders| then At(p, s).Stopped? && !At(p, s).failed else s == |p.builders| && p.insert.Inserted?
  }

  /** Nothing fails on the way in, and h is the innermost hook that fails on the way out. */
  ghost predicate FailsOut(p: Plan, k: nat, h: nat) {
    exists s: nat :: EndsQuietly(p, s) && Innermost(p, s, k, h)
  }

  /** Success: under hooks that pass on what next returns, when every builder is ready and the insert
      succeeds, every mutation is done and its node is the created one with the id of its position. */
  lemma AllDone(p: Plan)
    requires p.builders != [] && AllReady(p) && p.insert.Inserted?
    requires forall j, h :: 0 <= j < |p.builders| && 0 <= h < |p.builders[j].hooks| ==> !p.builders[j].hooks[h].failsAfter
    ensures Outcome(p) == None
    ensures forall k :: 0 <= k < |p.builders| ==> At(p, k).Reached? && Done(p, k)
    ensures forall k :: 0 <= k < |p.builders| && k < |p.insert.ids| && p.insert.ids[k].Some? ==> NodeAt(p, k) == Created(At(p, k).passed, p.insert.ids[k].value)
  {
    assert Stop(p, 0) == |p.builders|;
    SaveExact(p);
    forall k | 0 <= k < |p.builders| ensures At(p, k).Reached? { assert Ready(p, k); }
  }

  /** A save that reports success has inserted its batch exactly when no hook has returned without
      calling next; behind such a hook the earlier mutations can be done although nothing was inserted. */
  lemma SilentSkip(p: Plan)
    requires p.builders != [] && Outcome(p) == None
    ensures InsertedOk(p) <==> forall k :: 0 <= k < |p.builders| ==> At(p, k).Reached?
    ensures !InsertedOk(p) ==> var s := Stop(p, 0);
      && s < |p.builders| && At(p, s).Stopped? && !At(p, s).failed
      && forall k :: 0 <= k < |p.builders| ==> (Done(p, k) <==> k < s) && IdAt(p, k) == None
  {
    var s := Stop(p, 0);
    SaveExact(p);
    if s == |p.builders| {
      assert p.insert.Inserted?;
      forall k | 0 <= k < |p.builders| ensures At(p, k).Reached? { assert Ready(p, k); }
    }
  }

  /** One builder whose hook returns at once: the save reports success and inserts nothing. */
  lemma SkipsSilently(env: Env, own: Fields, insert: InsertAnswer)
    ensures var p := Plan(env, [BuilderPlan(own, [Hook(Return, false)])], insert);
      Outcome(p) == None && !InsertedOk(p) && Trace(p) == [Enter(0, 0), Leave(0, 0)]
  {
    var p := Plan(env, [BuilderPlan(own, [Hook(Return, false)])], insert);
    assert At(p, 0) == Stopped(0, false);
    assert !Ready(p, 0);
    var down := DownFrom(p, 0, 0);
    assert down == [Enter(0, 0)];
    assert Leaves(down[1..]) == [];
  }

  // What is checked and what is inserted ---------------------------------------

  ghost predicate NoSwap(hooks: seq<Hook>) {
    forall h :: 0 <= h < |hooks| && hooks[h].action.Next? ==> !hooks[h].action.swap
  }

  /** How far a builder's hooks let the call through: to the first that does not call next, and not without
      an error exactly if that one fails.  Passed on in the end are the last hook's fields; the builder's own
      mutation has the fields set before a hook passed on another one. */
  lemma AtExact(p: Plan, k: nat)
    requires k < |p.builders|
    ensures var hooks, d := p.builders[k].hooks, At(p, k);
      && (d.Reached? <==> AllNext(hooks, 0, |hooks|))
      && (d.Stopped? ==> AllNext(hooks, 0, d.hook) && !hooks[d.hook].action.Next? && (d.failed <==> hooks[d.hook].action.Fail?))
      && (d.Reached? ==> d.passed == FieldsAfter(hooks, |hooks|, p.builders[k].own))
      && (d.Reached? ==> forall n :: FirstSwap(hooks, 0, n) ==> d.own == FieldsAfter(hooks, n, p.builders[k].own))
  {
    DescendExact(p.builders[k].hooks, 0, p.builders[k].own, p.builders[k].own, true);
  }

  ghost predicate AllNext(hooks: seq<Hook>, lo: nat, hi: nat) {
    forall g :: lo <= g < hi && g < |hooks| ==> hooks[g].action.Next?
  }

  /** From `lo` on, hook n is the first to pass on a mutation of its own; their number if none does. */
  ghost predicate FirstSwap(hooks: seq<Hook>, lo: nat, n: nat) {
    && lo <= n <= |hooks|
    && (forall g :: lo <= g < n && hooks[g].action.Next? ==> !hooks[g].action.swap)
    && (n < |hooks| ==> hooks[n].action.Next? && hooks[n].action.swap)
  }

  /** The fields that hook n - 1 sets. */
  function FieldsAfter(hooks: seq<Hook>, n: nat, start: Fields): (r: Fields)
    requires n <= |hooks|
  {
    if n > 0 && hooks[n - 1].action.Next? then hooks[n - 1].action.fields else start
  }

  lemma {:induction false} DescendExact(hooks: seq<Hook>, h: nat, passed: Fields, own: Fields, same: bool)
    requires h <= |hooks|
    ensures var d := Descend(hooks, h, passed, own, same);
      && (d.Reached? <==> AllNext(hooks, h, |hooks|))
      && (d.Stopped? ==> AllNext(hooks, h, d.hook) && !hooks[d.hook].action.Next? && (d.failed <==> hooks[d.hook].action.Fail?))
      && (d.Reached? ==> d.passed == if h == |hooks| then passed else FieldsAfter(hooks, |hooks|, passed))
      && (d.Reached? && same ==> forall n :: FirstSwap(hooks, h, n) ==> d.own == if n == h then own else FieldsAfter(hooks, n, own))
      && (d.Reached? && !same ==> d.own == own)
    decreases |hooks| - h
  {
    if h < |hooks| && hooks[h].action.Next? {
      var a := hooks[h].action;
      DescendExact(hooks, h + 1, a.fields, if same && !a.swap then a.fields else own, same && !a.swap);
      if !a.swap {
        forall n ensures FirstSwap(hooks, h, n) <==> FirstSwap(hooks, h + 1, n) {}
      } else {
        forall n ensures FirstSwap(hooks, h, n) <==> n == h {}
      }
    }
  }

  lemma {:induction false} SameDescent(hooks: seq<Hook>, h: nat, m: Fields)
    requires h <= |hooks| && NoSwap(hooks)
    ensures var d := Descend(hooks, h, m, m, true); d.Reached? ==> d.passed == d.own
    decreases |hooks| - h
  {
    if h < |hooks| && hooks[h].action.Next? { SameDescent(hooks, h + 1, hooks[h].action.fields); }
  }

  /** The check looks at the builder's mutation before the one passed on replaces it.  When hooks pass
      on the mutation they were given, every spec of the insert comes from fields that have passed. */
  lemma InsertChecked(p: Plan, i: nat)
    requires i < |Trace(p)| && Trace(p)[i].Insert? && forall k :: 0 <= k < |p.builders| ==> NoSwap(p.builders[k].hooks)
    ensures |Trace(p)[i].specs| == |p.builders|
    ensures forall k :: 0 <= k < |p.builders| ==> At(p, k).Reached? && Check(p.env, At(p, k).passed) == None
    ensures forall k :: 0 <= k < |p.builders| ==> Trace(p)[i].specs[k] == Some(CreateSpec(At(p, k).passed).1)
    ensures forall k, f :: 0 <= k < |p.builders| && Required(f) ==> ColumnOf(Trace(p)[i].specs[k].value.columns, f).Some?
  {
    InsertOnce(p);
    assert p.builders != [] && AllReady(p);
    forall k | 0 <= k < |p.builders|
      ensures At(p, k).Reached? && Check(p.env, At(p, k).passed) == None
      ensures forall f :: Required(f) ==> ColumnOf(CreateSpec(At(p, k).passed).1.columns, f).Some?
    {
      assert Ready(p, k);
      SameDescent(p.builders[k].hooks, 0, p.builders[k].own);
      CheckExact(p.env, At(p, k).passed);
      RequiredColumns(At(p, k).passed);
    }
  }

  /** At the insert the resolver of `UpdateNewValues` keeps the created_at of an existing row exactly when
      some passed mutation has one; one builder whose hooks pass on what they got is enough for that. */
  lemma NewValuesKeepCreation(p: Plan, i: nat)
    requires i < |Trace(p)| && Trace(p)[i].Insert?
    ensures Trace(p)[i].keepsCreation <==>
      exists k :: 0 <= k < |p.builders| && At(p, k).Reached? && CreatedAt in At(p, k).passed
    ensures (exists k :: 0 <= k < |p.builders| && NoSwap(p.builders[k].hooks)) ==> Trace(p)[i].keepsCreation
  {
    InsertOnce(p);
    if k :| 0 <= k < |p.builders| && NoSwap(p.builders[k].hooks) {
      assert Ready(p, k);
      SameDescent(p.builders[k].hooks, 0, p.builders[k].own);
      CheckExact(p.env, At(p, k).passed);
      assert Required(CreatedAt);
    }
  }

  /** When the hooks pass on mutations of their own it can be lost: one builder, one hook, an empty mutation. */
  lemma NewValuesLoseCreation(env: Env, own: Fields, insert: InsertAnswer)
    requires Check(env, own) == None
    ensures var p := Plan(env, [BuilderPlan(own, [Hook(Next(map[], true), false)])], insert);
      exists i :: 0 <= i < |Trace(p)| && Trace(p)[i].Insert? && !Trace(p)[i].keepsCreation
  {
    var hooks := [Hook(Next(map[], true), false)];
    var p := Plan(env, [BuilderPlan(own, hooks)], insert);
    assert Descend(hooks, 1, map[], own, false) == Reached(map[], own);
    assert At(p, 0) == Reached(map[], own);
    hide Descend, Check, Trace;
    InsertOnce(p);
    var i :| 0 <= i < |Trace(p)| && Trace(p)[i].Insert?;
    assert !CreationPassed(p);
  }

  /** The columns of a spec whose mutation had the fields `before` and then took the defaults. */
  ghost predicate DefaultColumns(env: Env, before: Fields, columns: seq<(Field, Value)>) {
    && (CreatedAt !in before ==> env.createdAt.Some? && ColumnOf(columns, CreatedAt) == Some(Time(env.createdAt.value)))
    && (UpdatedAt !in before ==> env.updatedAt.Some? && ColumnOf(columns, UpdatedAt) == Some(Time(env.updatedAt.value)))
    && (Credentials !in before ==> env.credentials.Some? && ColumnOf(columns, Credentials) == Some(Json(env.credentials.value)))
    && (Extra !in before ==> env.extra.Some? && ColumnOf(columns, Extra) == Some(Json(env.extra.value)))
    && (Concurrency !in before ==> ColumnOf(columns, Concurrency) == Some(Int(env.concurrency)))
    && (Priority !in before ==> ColumnOf(columns, Priority) == Some(Int(env.priority)))
    && (RateMultiplier !in before ==> ColumnOf(columns, RateMultiplier) == Some(Float(env.rateMultiplier)))
    && (Status !in before ==> ColumnOf(columns, Status) == Some(Str(env.status)))
    && (AutoPauseOnExpired !in before ==> ColumnOf(columns, AutoPauseOnExpired) == Some(Bool(env.autoPauseOnExpired)))
    && (Schedulable !in before ==> ColumnOf(columns, Schedulable) == Some(Bool(env.schedulable)))
    && (QuotaDimension !in before ==> ColumnOf(columns, QuotaDimension) == Some(Str("global")))
    && forall f :: Required(f) && f in before ==> ColumnOf(columns, f) == Some(before[f])
  }

  ghost predicate DefaultsSent(env: Env, before: Fields, trace: seq<Event>, k: nat) {
    forall i :: 0 <= i < |trace| && trace[i].Insert? ==>
      k < |trace[i].specs| && trace[i].specs[k].Some? && DefaultColumns(env, before, trace[i].specs[k].value.columns)
  }

  /** The defaults reach the insert: the spec of a builder without hooks has each field that was set, and
      for one that was not, its default.  That `defaults` has reported no error needs no assuming. */
  lemma DefaultsInserted(p: Plan, k: nat, before: Fields, err: Option<Field>)
    requires k < |p.builders| && p.builders[k].hooks == [] && DefaultsRan(p.env, before, p.builders[k].own, err)
    ensures DefaultsSent(p.env, before, Trace(p), k)
  {
    if err.Some? {
      DroppedErrorBlocks(p, k, before, err.value);
      hide *;
    } else {
      InsertOnce(p);
      if Ready(p, k) { ReadyColumns(p, k, before); }
      hide Trace, DefaultColumns, DefaultsRan, Ready, CreateSpec, At, TheInsert;
    }
  }

  lemma ReadyColumns(p: Plan, k: nat, before: Fields)
    requires k < |p.builders| && p.builders[k].hooks == [] && DefaultsRan(p.env, before, p.builders[k].own, None) && Ready(p, k)
    ensures At(p, k).Reached? && DefaultColumns(p.env, before, CreateSpec(At(p, k).passed).1.columns)
  {
    var own := p.builders[k].own;
    NoHooks(p, k);
    DefaultsByField(p.env, before, own);
    CheckExact(p.env, own);
    hide DefaultsRan, FunctionsGiven, ConstantsGiven, OthersKept, DefaultColumns, CreateSpec, At, Check, Required;
    OwnColumns(p.env, before, own);
  }

  lemma NoHooks(p: Plan, k: nat)
    requires k < |p.builders| && p.builders[k].hooks == []
    ensures At(p, k) == Reached(p.builders[k].own, p.builders[k].own)
  {
  }

  lemma OwnColumns(env: Env, before: Fields, own: Fields)
    requires FunctionsGiven(env, before, own) && ConstantsGiven(env, before, own) && OthersKept(before, own)
    requires forall f :: Required(f) ==> f in own
    ensures DefaultColumns(env, before, CreateSpec(own).1.columns)
  {
    RequiredColumns(own);
    hide CreateSpec, ColumnOf;
    assert Required(CreatedAt) && Required(UpdatedAt) && Required(Credentials) && Required(Extra);
    assert Required(Concurrency) && Required(Priority) && Required(RateMultiplier) && Required(Status);
    assert Required(AutoPauseOnExpired) && Required(Schedulable) && Required(QuotaDimension);
    hide Required;
  }

  lemma RequiredColumns(m: Fields)
    requires forall f :: Required(f) ==> f in m
    ensures forall f :: Required(f) ==> ColumnOf(CreateSpec(m).1.columns, f) == Some(m[f])
  {
    hide SpecOver, ColumnOf;
    forall f | Required(f) ensures ColumnOf(CreateSpec(m).1.columns, f) == Some(m[f]) {
      SpecFieldsAll(f);
      ColumnIn(m, SPEC_FIELDS, f);
    }
  }

  lemma ColumnIn(m: Fields, fs: seq<Field>, f: Field)
    requires f in fs && f in m
    ensures ColumnOf(SpecOver(m, fs).1.columns, f) == Some(m[f])
  {
    CopiedColumns(m, fs);
    EdgesApart(m, fs);
  }

  lemma EdgesApart(m: Fields, fs: seq<Field>)
    ensures SpecOver(m, fs).1.columns == CopyFields(m, fs, ZeroEntity(), Spec([], [])).1.columns
  {
  }

  /** Hooks from `from` on that call next set no field at all. */
  function Emptied(hooks: seq<Hook>, from: nat): (r: seq<Hook>)
    ensures |r| == |hooks|
    ensures forall h :: 0 <= h < |hooks| ==> r[h] == if h >= from && hooks[h].action.Next? then hooks[h].(action := Next(map[], hooks[h].action.swap)) else hooks[h]
  {
    seq(|hooks|, h requires 0 <= h < |hooks| => if h >= from && hooks[h].action.Next? then hooks[h].(action := Next(map[], hooks[h].action.swap)) else hooks[h])
  }

  lemma {:induction false} EmptiedDescent(hooks: seq<Hook>, from: nat, h: nat, passed: Fields, own: Fields, same: bool)
    requires h <= |hooks| && from < |hooks| && hooks[from].action.Next? && hooks[from].action.swap
    requires h > from ==> !same
    ensures var d, e := Descend(hooks, h, passed, own, same), Descend(Emptied(hooks, from), h, if h > from then map[] else passed, own, same);
      d.Reached? ==> e == Reached(map[], d.own)
    decreases |hooks| - h
  {
    if h < |hooks| && hooks[h].action.Next? {
      var a := hooks[h].action;
      EmptiedDescent(hooks, from, h + 1, a.fields, if same && !a.swap then a.fields else own, same && !a.swap);
    }
  }

  /** With a hook that passes on a mutation of its own this is lost, whatever the hooks: let it and
      the hooks behind it set nothing, and the check still passes while the fields for the insert do not. */
  lemma SwapEvades(env: Env, hooks: seq<Hook>, from: nat, own: Fields)
    requires from < |hooks| && hooks[from].action.Next? && hooks[from].action.swap
    requires var d := Descend(hooks, 0, own, own, true); d.Reached? && Check(env, d.own) == None
    ensures var e := Descend(Emptied(hooks, from), 0, own, own, true);
      e.Reached? && Check(env, e.own) == None && Check(env, e.passed) != None
  {
    EmptiedDescent(hooks, from, 0, own, own, true);
  }

  /** The same for a whole save: with the hooks of builder k emptied from the swapping one on, the insert
      still takes place, and the spec of position k lacks a required column. */
  lemma SwapInserts(p: Plan, k: nat, from: nat)
    requires AllReady(p) && k < |p.builders| && from < |p.builders[k].hooks|
    requires p.builders[k].hooks[from].action.Next? && p.builders[k].hooks[from].action.swap
    ensures var p' := p.(builders := p.builders[k := p.builders[k].(hooks := Emptied(p.builders[k].hooks, from))]);
      exists i :: 0 <= i < |Trace(p')| && Trace(p')[i].Insert?
        && k < |Trace(p')[i].specs| && Trace(p')[i].specs[k].Some? && ColumnOf(Trace(p')[i].specs[k].value.columns, CreatedAt) == None
  {
    var hooks, own := p.builders[k].hooks, p.builders[k].own;
    var p' := p.(builders := p.builders[k := p.builders[k].(hooks := Emptied(hooks, from))]);
    assert Ready(p, k);
    EmptiedDescent(hooks, from, 0, own, own, true);
    forall j | 0 <= j < |p.builders| ensures Ready(p', j) {
      assert Ready(p, j);
      if j != k { assert At(p', j) == At(p, j); }
    }
    assert At(p', k).passed == map[];
    hide Descend, Check, Trace, CreateSpec, ColumnOf, Emptied, Ready, At;
    InsertOnce(p');
    NothingSent();
    var i :| 0 <= i < |Trace(p')| && Trace(p')[i].Insert?;
  }

  lemma NothingSent()
    ensures ColumnOf(CreateSpec(map[]).1.columns, CreatedAt) == None
  {
    NoneSent(SPEC_FIELDS, CreatedAt);
  }

  lemma NoneSent(fs: seq<Field>, f: Field)
    ensures ColumnOf(SpecOver(map[], fs).1.columns, f) == None
  {
    CopiedColumns(map[], fs);
    EdgesApart(map[], fs);
  }

  /** An error of `defaults` that the save has dropped never lets a batch through, unless a hook sets the field. */
  lemma DroppedErrorBlocks(p: Plan, k: nat, before: Fields, f: Field)
    requires k < |p.builders| && DefaultsRan(p.env, before, p.builders[k].own, Some(f))
    requires forall h :: 0 <= h < |p.builders[k].hooks| && p.builders[k].hooks[h].action.Next? ==> f !in p.builders[k].hooks[h].action.fields
    ensures !Ready(p, k) && forall i :: 0 <= i < |Trace(p)| ==> !Trace(p)[i].Insert?
  {
    Unset(p.builders[k].hooks, 0, p.builders[k].own, p.builders[k].own, true, f);
    if At(p, k).Reached? { CheckExact(p.env, At(p, k).own); }
    InsertOnce(p);
  }

  lemma {:induction false} Unset(hooks: seq<Hook>, h: nat, passed: Fields, own: Fields, same: bool, f: Field)
    requires h <= |hooks| && f !in own
    requires forall i :: 0 <= i < |hooks| && hooks[i].action.Next? ==> f !in hooks[i].action.fields
    ensures var d := Descend(hooks, h, passed, own, same); d.Reached? ==> f !in d.own
    decreases |hooks| - h
  {
    if h < |hooks| && hooks[h].action.Next? {
      var a := hooks[h].action;
      Unset(hooks, h + 1, a.fields, if same && !a.swap then a.fields else own, same && !a.swap, f);
    }
  }
}
