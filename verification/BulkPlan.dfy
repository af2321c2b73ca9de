/**
 Bulk create as a value: what each builder's hooks will do, what the checks and the insert will
 answer, and from these the events and the results of the whole chain of mutators.

 During one save every hook runs at most once, so a hook is given by what it does in that run:
 edit the mutation and call next (perhaps with a mutation object of its own), return without
 calling next, or fail; and whether it fails after next has succeeded.  Errors of next are passed on.
 */
module BulkPlan {
  import opened Collections
  import opened Codec
  import opened Create

  datatype Action = Next(fields: Fields, swap: bool) | Return | Fail

  datatype Hook = Hook(action: Action, failsAfter: bool)

  datatype InsertAnswer = Inserted(ids: seq<Option<int>>) | Refused(constraint: bool)

  datatype SaveError = Unchecked(builder: nat, cause: CheckError) | Constraint | InsertFailed | HookFailed(builder: nat, hook: nat)

  /** An insert comes with its specs, and with what the conflict resolver of `UpdateNewValues` decides when
      the insert calls it: whether an existing row keeps its created_at. */
  datatype Event = Enter(builder: nat, hook: nat) | Leave(builder: nat, hook: nat) | Checked(builder: nat, ok: bool) | Insert(specs: seq<Option<Spec>>, keepsCreation: bool)

  /** One builder: the fields of its mutation after `defaults`, and its hooks, outermost first. */
  datatype BuilderPlan = BuilderPlan(own: Fields, hooks: seq<Hook>)

  datatype Plan = Plan(env: Env, builders: seq<BuilderPlan>, insert: InsertAnswer)

  /** How far the hooks of one builder let the call through, and with which fields: those of the
      mutation that was passed on, and those of the builder's own mutation, which `check` looks at. */
  datatype Descent = Reached(passed: Fields, own: Fields) | Stopped(hook: nat, failed: bool)

  function Descend(hooks: seq<Hook>, h: nat, passed: Fields, own: Fields, same: bool): (d: Descent)
    requires h <= |hooks|
    ensures d.Stopped? ==> h <= d.hook < |hooks|
    decreases |hooks| - h
  {
    if h == |hooks| then Reached(passed, own)
    else
      match hooks[h].action
      case Fail => Stopped(h, true)
      case Return => Stopped(h, false)
      case Next(fields, swap) =>
        Descend(hooks, h + 1, fields, if same && !swap then fields else own, same && !swap)
  }

  function At(p: Plan, k: nat): (d: Descent)
    requires k < |p.builders|
    ensures d.Stopped? ==> d.hook < |p.builders[k].hooks|
  {
    var b := p.builders[k];
    Descend(b.hooks, 0, b.own, b.own, true)
  }

  predicate Ready(p: Plan, k: nat)
    requires k < |p.builders|
  {
    At(p, k).Reached? && Check(p.env, At(p, k).own) == None
  }

  predicate AllReady(p: Plan) {
    forall k :: 0 <= k < |p.builders| ==> Ready(p, k)
  }

  function SpecOf(p: Plan, k: nat): (r: Option<Spec>)
    requires k < |p.builders|
  {
    if At(p, k).Reached? then Some(CreateSpec(At(p, k).passed).1) else None
  }

  function AllSpecs(p: Plan): (r: seq<Option<Spec>>)
    ensures |r| == |p.builders| && forall k :: 0 <= k < |r| ==> r[k] == SpecOf(p, k)
  {
    seq(|p.builders|, k requires 0 <= k < |p.builders| => SpecOf(p, k))
  }

  /** Some mutation that was passed on has a created_at. */
  predicate CreationPassed(p: Plan) {
    exists k :: 0 <= k < |p.builders| && At(p, k).Reached? && CreatedAt in At(p, k).passed
  }

  function TheInsert(p: Plan): (e: Event)
    ensures e.Insert?
  {
    Insert(AllSpecs(p), CreationPassed(p))
  }

  // Results -----------------------------------------------------------------

  function InsertError(a: InsertAnswer): (r: Option<SaveError>) {
    match a
    case Inserted(_) => None
    case Refused(true) => Some(Constraint)
    case Refused(false) => Some(InsertFailed)
  }

  /** The result `r` on its way out through the hooks `lo`..`hi` of builder k. */
  function Unwind(k: nat, hooks: seq<Hook>, lo: nat, hi: nat, r: Option<SaveError>): (res: Option<SaveError>)
    requires lo <= hi <= |hooks|
    decreases hi - lo
  {
    if lo == hi then r
    else
      var inner := Unwind(k, hooks, lo + 1, hi, r);
      if inner.None? && hooks[lo].failsAfter then Some(HookFailed(k, lo)) else inner
  }

  /** The result inside all hooks of builder k: the check, then the rest of the chain. */
  function BaseResult(p: Plan, k: nat): (r: Option<SaveError>)
    requires k < |p.builders| && At(p, k).Reached?
    decreases |p.builders| - k, 0
  {
    match Check(p.env, At(p, k).own)
    case Some(e) => Some(Unchecked(k, e))
    case None => RestResult(p, k)
  }

  function RestResult(p: Plan, k: nat): (r: Option<SaveError>)
    requires k < |p.builders|
    decreases |p.builders| - k - 1, 3
  {
    if k == |p.builders| - 1 then InsertError(p.insert) else ResultFrom(p, k + 1, 0)
  }

  /** The result of builder k's mutator from hook h inwards. */
  function ResultFrom(p: Plan, k: nat, h: nat): (r: Option<SaveError>)
    requires k < |p.builders| && (At(p, k).Stopped? ==> h <= At(p, k).hook) && h <= |p.builders[k].hooks|
    decreases |p.builders| - k, 2
  {
    var hooks := p.builders[k].hooks;
    match At(p, k)
    case Stopped(s, failed) => Unwind(k, hooks, h, s, if failed then Some(HookFailed(k, s)) else None)
    case Reached(_, _) => Unwind(k, hooks, h, |hooks|, BaseResult(p, k))
  }

  /** The error of the whole save. */
  function Outcome(p: Plan): (r: Option<SaveError>) {
    if p.builders == [] then None else ResultFrom(p, 0, 0)
  }

  // Events ------------------------------------------------------------------

  function Enters(k: nat, lo: nat, hi: nat): (r: seq<Event>)
    requires lo <= hi
    ensures |r| == hi - lo && forall i :: 0 <= i < |r| ==> r[i] == Enter(k, lo + i)
  {
    seq(hi - lo, i requires 0 <= i < hi - lo => Enter(k, lo + i))
  }

  /** The events on the way in, from hook h of builder k. */
  function DownFrom(p: Plan, k: nat, h: nat): (r: seq<Event>)
    requires k < |p.builders| && (At(p, k).Stopped? ==> h <= At(p, k).hook) && h <= |p.builders[k].hooks|
    decreases |p.builders| - k, 1
  {
    match At(p, k)
    case Stopped(s, _) => Enters(k, h, s + 1)
    case Reached(_, _) => Enters(k, h, |p.builders[k].hooks|) + BaseEvents(p, k)
  }

  function BaseEvents(p: Plan, k: nat): (r: seq<Event>)
    requires k < |p.builders|
    decreases |p.builders| - k, 0
  {
    if !Ready(p, k) then [Checked(k, false)]
    else if k == |p.builders| - 1 then [Checked(k, true), TheInsert(p)]
    else [Checked(k, true)] + DownFrom(p, k + 1, 0)
  }

  /** The events on the way out: the entered hooks are left in reverse order. */
  function Leaves(down: seq<Event>): (r: seq<Event>) {
    if down == [] then []
    else Leaves(down[1..]) + if down[0].Enter? then [Leave(down[0].builder, down[0].hook)] else []
  }

  function Trace(p: Plan): (r: seq<Event>) {
    if p.builders == [] then [] else DownFrom(p, 0, 0) + Leaves(DownFrom(p, 0, 0))
  }

  // Done flags --------------------------------------------------------------

  predicate Passed(p: Plan, k: nat)
    requires k < |p.builders|
  {
    forall j :: 0 <= j <= k ==> Ready(p, j)
  }

  /** The mutations that are marked done and given their node's id. */
  predicate Done(p: Plan, k: nat)
    requires k < |p.builders|
  {
    Passed(p, k) && RestResult(p, k) == None
  }

  predicate InsertedOk(p: Plan) {
    AllReady(p) && p.builders != [] && p.insert.Inserted?
  }

  /** The id that the insert produced for position k, if it ran. */
  function IdAt(p: Plan, k: nat): (r: Option<int>)
    requires k < |p.builders|
  {
    if InsertedOk(p) && k < |p.insert.ids| then p.insert.ids[k] else None
  }

  function NodeAt(p: Plan, k: nat): (r: Entity)
    requires k < |p.builders| && At(p, k).Reached?
  {
    WithId(CreateSpec(At(p, k).passed).0, IdAt(p, k))
  }

  /** A node given its id, if it has one. */
  function WithId(node: Entity, id: Option<int>): (r: Entity) {
    match id
    case None => node
    case Some(n) => node.(slots := node.slots[ID := Plain(Int(n))])
  }

  // Laws --------------------------------------------------------------------

  /** Reading the events with a stack of open hooks: None when a hook is left that is not the innermost open one. */
  function Close(trace: seq<Event>, stack: seq<(nat, nat)>): (r: Option<seq<(nat, nat)>>)
    decreases |trace|
  {
    if trace == [] then Some(stack)
    else
      match trace[0]
      case Enter(k, h) => Close(trace[1..], stack + [(k, h)])
      case Leave(k, h) =>
        if stack != [] && stack[|stack| - 1] == (k, h) then Close(trace[1..], stack[..|stack| - 1]) else None
      case _ => Close(trace[1..], stack)
  }

  ghost predicate NoLeaves(down: seq<Event>) {
    forall i :: 0 <= i < |down| ==> !down[i].Leave?
  }

  lemma {:induction false} Brackets(down: seq<Event>, rest: seq<Event>, stack: seq<(nat, nat)>)
    requires NoLeaves(down)
    ensures Close(down + Leaves(down) + rest, stack) == Close(rest, stack)
  {
    if down == [] {
      assert down + Leaves(down) + rest == rest;
    } else {
      var e := down[0];
      var tail := if e.Enter? then [Leave(e.builder, e.hook)] else [];
      var whole := down + Leaves(down) + rest;
      assert whole[1..] == down[1..] + Leaves(down[1..]) + (tail + rest);
      if e.Enter? {
        Brackets(down[1..], tail + rest, stack + [(e.builder, e.hook)]);
        assert (tail + rest)[1..] == rest && (stack + [(e.builder, e.hook)])[..|stack|] == stack;
      } else {
        Brackets(down[1..], tail + rest, stack);
        assert tail + rest == rest;
      }
    }
  }

  lemma {:induction false} DownNoLeaves(p: Plan, k: nat)
    requires k < |p.builders|
    ensures NoLeaves(DownFrom(p, k, 0))
    decreases |p.builders| - k
  {
    DownParts(p, k);
    if Ready(p, k) && k < |p.builders| - 1 { DownNoLeaves(p, k + 1); }
    hide DownFrom, Ready, At, TheInsert;
  }

  /** A builder's events on the way in: its hooks up to the one that stops, and only if none does its check,
      and behind that the insert or the next builder's events. */
  lemma DownParts(p: Plan, k: nat)
    requires k < |p.builders|
    ensures DownFrom(p, k, 0) == Enters(k, 0, if At(p, k).Stopped? then At(p, k).hook + 1 else |p.builders[k].hooks|)
      + (if At(p, k).Stopped? then []
         else if !Ready(p, k) then [Checked(k, false)]
         else [Checked(k, true)] + if k == |p.builders| - 1 then [TheInsert(p)] else DownFrom(p, k + 1, 0))
  {
    hide At, TheInsert;
    var n := if At(p, k).Stopped? then At(p, k).hook + 1 else |p.builders[k].hooks|;
    assert DownFrom(p, k, 0) == Enters(k, 0, n) + if At(p, k).Stopped? then [] else BaseEvents(p, k);
  }

  /** Hooks are entered and left like brackets, builder 0's first hook outermost. */
  lemma WellBracketed(p: Plan)
    ensures Close(Trace(p), []) == Some([])
    ensures p.builders != [] && p.builders[0].hooks != [] ==>
      Trace(p) != [] && Trace(p)[0] == Enter(0, 0) && Trace(p)[|Trace(p)| - 1] == Leave(0, 0)
  {
    if p.builders != [] {
      var down := DownFrom(p, 0, 0);
      DownNoLeaves(p, 0);
      Brackets(down, [], []);
      assert down + Leaves(down) + [] == Trace(p);
      if p.builders[0].hooks != [] {
        assert down[0] == Enter(0, 0);
        assert Leaves(down)[|Leaves(down)| - 1] == Leave(0, 0);
      }
    }
  }

  /** No event but the last is an insert; the last one is if `inserts`, and then it is `insert`. */
  ghost predicate InsertLast(down: seq<Event>, inserts: bool, insert: Event) {
    && (forall i :: 0 <= i < |down| - 1 ==> !down[i].Insert?)
    && ((down != [] && down[|down| - 1].Insert?) <==> inserts)
    && (inserts ==> down != [] && down[|down| - 1] == insert)
  }

  lemma InsertLastAfter(a: seq<Event>, b: seq<Event>, inserts: bool, insert: Event)
    requires InsertLast(b, inserts, insert) && b != [] && forall i :: 0 <= i < |a| ==> !a[i].Insert?
    ensures InsertLast(a + b, inserts, insert)
  {
    forall i | 0 <= i < |a + b| - 1 ensures !(a + b)[i].Insert? {
      if i >= |a| { assert (a + b)[i] == b[i - |a|]; }
    }
  }

  predicate ReadyFrom(p: Plan, k: nat) {
    forall j :: k <= j < |p.builders| ==> Ready(p, j)
  }

  /** The insert, if it happens from builder k on, is the last event on the way in. */
  lemma {:induction false} DownInsert(p: Plan, k: nat)
    requires k < |p.builders|
    ensures DownFrom(p, k, 0) != [] && InsertLast(DownFrom(p, k, 0), ReadyFrom(p, k), TheInsert(p))
    decreases |p.builders| - k, 1
  {
    hide TheInsert;
    match At(p, k)
    case Stopped(s, _) =>
      assert !Ready(p, k) && !ReadyFrom(p, k);
    case Reached(_, _) =>
      BaseInsert(p, k);
      InsertLastAfter(Enters(k, 0, |p.builders[k].hooks|), BaseEvents(p, k), ReadyFrom(p, k), TheInsert(p));
  }

  lemma BaseInsert(p: Plan, k: nat)
    requires k < |p.builders|
    ensures BaseEvents(p, k) != [] && InsertLast(BaseEvents(p, k), ReadyFrom(p, k), TheInsert(p))
    decreases |p.builders| - k, 0
  {
    if Ready(p, k) && k < |p.builders| - 1 {
      DownInsert(p, k + 1);
      hide DownFrom, TheInsert, Ready, InsertLast;
      assert BaseEvents(p, k) == [Checked(k, true)] + DownFrom(p, k + 1, 0);
      assert ReadyFrom(p, k) <==> ReadyFrom(p, k + 1);
      InsertLastAfter([Checked(k, true)], DownFrom(p, k + 1, 0), ReadyFrom(p, k + 1), TheInsert(p));
    } else {
      LastInsert(p, k);
    }
  }

  lemma LastInsert(p: Plan, k: nat)
    requires k < |p.builders| && (k == |p.builders| - 1 || !Ready(p, k))
    ensures BaseEvents(p, k) != [] && InsertLast(BaseEvents(p, k), ReadyFrom(p, k), TheInsert(p))
  {
    hide DownFrom, TheInsert, Ready;
    assert ReadyFrom(p, k) <==> Ready(p, k);
    assert BaseEvents(p, k) == if Ready(p, k) then [Checked(k, true), TheInsert(p)] else [Checked(k, false)];
  }

  lemma {:induction false} LeavesOnly(down: seq<Event>)
    ensures forall i :: 0 <= i < |Leaves(down)| ==> Leaves(down)[i].Leave?
  {
    if down != [] { LeavesOnly(down[1..]); }
  }

  /** The batch insert happens at most once; it happens exactly when there is a builder, every hook
      calls next and every check passes; and it then receives all specs, in builder order. */
  lemma InsertOnce(p: Plan)
    ensures forall i, j :: 0 <= i < |Trace(p)| && 0 <= j < |Trace(p)| && Trace(p)[i].Insert? && Trace(p)[j].Insert? ==> i == j
    ensures (exists i :: 0 <= i < |Trace(p)| && Trace(p)[i].Insert?) <==> p.builders != [] && AllReady(p)
    ensures forall i :: 0 <= i < |Trace(p)| && Trace(p)[i].Insert? ==>
      && Trace(p)[i].specs == AllSpecs(p) && Trace(p)[i].keepsCreation == CreationPassed(p)
      && forall k :: 0 <= k < |p.builders| ==> At(p, k).Reached? && AllSpecs(p)[k] == Some(CreateSpec(At(p, k).passed).1)
  {
    if p.builders != [] {
      var down := DownFrom(p, 0, 0);
      DownInsert(p, 0);
      LeavesOnly(down);
      forall i | |down| <= i < |Trace(p)| ensures !Trace(p)[i].Insert? { assert Trace(p)[i] == Leaves(down)[i - |down|]; }
      forall i | 0 <= i < |down| ensures Trace(p)[i] == down[i] {}
      assert ReadyFrom(p, 0) <==> AllReady(p);
      if AllReady(p) {
        forall k | 0 <= k < |p.builders| ensures At(p, k).Reached? { assert Ready(p, k); }
      }
    }
  }
}
