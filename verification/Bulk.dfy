/**
 Saving many Accounts at once.  Builder i's mutator checks and specs builder i and then calls the
 mutator of builder i + 1; the last one inserts the whole batch; ids and done flags are filled in
 on the way back.  The hooks of a builder wrap its mutator.
 */
module Bulk {
  import opened Collections
  import opened Codec
  import opened Create
  import opened BulkPlan
  import opened BulkLaws

  class Builder {
    var mutation: Mutation
    const hooks: seq<Hook>

    constructor (mutation: Mutation, hooks: seq<Hook>)
      ensures this.mutation == mutation && this.hooks == hooks
    {
      this.mutation, this.hooks := mutation, hooks;
    }
  }

  /** What the mutators of one save share. */
  class Batch {
    const env: Env
    const insert: InsertAnswer
    const builders: seq<Builder>
    const specs: array<Option<Spec>>
    const nodes: array<Account?>
    /** The ids that the insert has put into the specs. */
    var ids: seq<Option<int>>

    constructor (env: Env, insert: InsertAnswer, builders: seq<Builder>)
      ensures this.env == env && this.insert == insert && this.builders == builders
      ensures fresh(specs) && specs.Length == |builders| && forall k :: 0 <= k < |builders| ==> specs[k] == None
      ensures fresh(nodes) && nodes.Length == |builders| && forall k :: 0 <= k < |builders| ==> nodes[k] == null
      ensures ids == []
    {
      this.env, this.insert, this.builders := env, insert, builders;
      specs := new Option<Spec>[|builders|](_ => None);
      nodes := new Account?[|builders|](_ => null);
      ids := [];
    }

    /** The conflict resolver of `UpdateNewValues`, when the insert calls it: is created_at kept? */
    method KeepsCreatedAt() returns (kept: bool)
      ensures kept <==> exists k :: 0 <= k < |builders| && CreatedAt in builders[k].mutation.fields
    {
      kept := false;
      for i := 0 to |builders|
        invariant kept <==> exists k :: 0 <= k < i && CreatedAt in builders[k].mutation.fields
      {
        if CreatedAt in builders[i].mutation.fields {
          kept := true;
        }
      }
    }

    /** The plan is of this batch. */
    ghost predicate Fits(p: Plan) {
      && p.env == env && p.insert == insert && |p.builders| == |builders| == nodes.Length == specs.Length
      && (forall k :: 0 <= k < |builders| ==> p.builders[k].hooks == builders[k].hooks)
      && forall j, k :: 0 <= j < k < |builders| ==> builders[j] != builders[k]
    }

    /** Builder k's mutator has not been called: its mutation is the one it came with. */
    ghost predicate Waiting(p: Plan, muts: seq<Mutation>, starts: seq<bool>, k: nat)
      requires Fits(p) && |muts| == |starts| == |builders| && k < |builders|
      reads builders[k], muts[k], nodes, specs
    {
      && builders[k].mutation == muts[k] && muts[k].fields == p.builders[k].own
      && (muts[k].done ==> starts[k])
      && nodes[k] == null && specs[k] == None
    }

    /** Builder j has taken over the mutation that its hooks passed on, which is none of those still to come. */
    ghost predicate Current(p: Plan, muts: seq<Mutation>, from: nat, j: nat)
      requires Fits(p) && |muts| == |builders| && j < |builders|
      reads builders[j], builders[j].mutation
    {
      && At(p, j).Reached? && builders[j].mutation.fields == At(p, j).passed
      && forall k :: from <= k < |builders| ==> builders[j].mutation != muts[k]
    }

    ghost predicate AllCurrent(p: Plan, muts: seq<Mutation>, n: nat)
      requires Fits(p) && |muts| == |builders|
      reads builders, set k | 0 <= k < |builders| :: builders[k].mutation
    {
      forall j :: 0 <= j < n && j < |builders| ==> Current(p, muts, n, j)
    }

    ghost predicate AllWaiting(p: Plan, muts: seq<Mutation>, starts: seq<bool>, from: nat)
      requires Fits(p) && |muts| == |starts| == |builders|
      reads builders, muts, nodes, specs
    {
      forall k :: from <= k < |builders| ==> Waiting(p, muts, starts, k)
    }

    /** What builder k's mutator leaves behind. */
    ghost predicate Finished(p: Plan, starts: seq<bool>, k: nat)
      requires Fits(p) && |starts| == |builders| && k < |builders|
      reads builders[k], builders[k].mutation, nodes, nodes[k], specs
    {
      && (Passed(p, k) ==>
            && Ready(p, k)
            && nodes[k] != null && specs[k] == SpecOf(p, k)
            && nodes[k].Val() == if Done(p, k) then NodeAt(p, k) else CreateSpec(At(p, k).passed).0)
      && (!Passed(p, k) ==> nodes[k] == null && specs[k] == None)
      && (Done(p, k) ==> builders[k].mutation.done && builders[k].mutation.id == nodes[k])
      && (builders[k].mutation.done ==> starts[k] || Done(p, k))
    }

    ghost predicate AllFinished(p: Plan, starts: seq<bool>, from: nat)
      requires Fits(p) && |starts| == |builders|
      reads builders, set k | 0 <= k < |builders| :: builders[k].mutation, nodes, set k | 0 <= k < nodes.Length :: nodes[k], specs
    {
      forall k :: from <= k < |builders| ==> Finished(p, starts, k)
    }

    /** Builders that are not reached stay as they were. */
    lemma Idle(p: Plan, muts: seq<Mutation>, starts: seq<bool>, i: nat)
      requires Fits(p) && |muts| == |starts| == |builders| && i < |builders| && !Ready(p, i)
      requires (muts[i].done ==> starts[i]) && nodes[i] == null && specs[i] == None && builders[i].mutation == muts[i]
      requires AllWaiting(p, muts, starts, i + 1)
      ensures AllFinished(p, starts, i)
      ensures forall k :: i < k < |builders| ==> builders[k].mutation == muts[k] && nodes[k] == null
    {
      NotPassed(p, i);
      hide Passed, Done, Ready, NodeAt;
      forall k | i <= k < |builders| ensures Finished(p, starts, k) && builders[k].mutation == muts[k] && nodes[k] == null {
        if k > i { assert Waiting(p, muts, starts, k); }
      }
    }

    /** Builder i's mutator from hook h inwards, called with mutation m. */
    method Mutate(i: nat, h: nat, m: Mutation, ghost p: Plan, ghost muts: seq<Mutation>, ghost starts: seq<bool>) returns (r: Option<SaveError>, ghost events: seq<Event>)
      requires Fits(p) && |muts| == |starts| == |builders| && i < |builders| && h <= |builders[i].hooks|
      requires forall j :: 0 <= j < i ==> Ready(p, j)
      requires Descend(builders[i].hooks, h, m.fields, builders[i].mutation.fields, m == builders[i].mutation) == At(p, i)
      requires builders[i].mutation == muts[i]
      requires (m.done ==> starts[i]) && (muts[i].done ==> starts[i]) && nodes[i] == null && specs[i] == None && ids == []
      requires AllWaiting(p, muts, starts, i + 1)
      requires forall j, k :: i <= j < k < |builders| ==> muts[j] != muts[k]
      requires forall k :: i < k < |builders| ==> m != muts[k]
      requires forall k :: 0 <= k < i ==> specs[k] == SpecOf(p, k)
      requires AllCurrent(p, muts, i) && forall j :: 0 <= j < i ==> builders[j].mutation != m
      modifies this`ids, specs, nodes, m
      modifies set k | i <= k < |builders| :: builders[k]
      modifies set k | i <= k < |builders| :: muts[k]
      ensures At(p, i).Stopped? ==> h <= At(p, i).hook
      ensures r == ResultFrom(p, i, h)
      ensures events == DownFrom(p, i, h) + Leaves(DownFrom(p, i, h))
      ensures ids == if InsertedOk(p) then p.insert.ids else []
      ensures forall k :: 0 <= k < i ==> nodes[k] == old(nodes[k]) && specs[k] == old(specs[k])
      ensures AllFinished(p, starts, i)
      ensures builders[i].mutation == m || builders[i].mutation == muts[i] || fresh(builders[i].mutation)
      ensures forall k :: i < k < |builders| ==> builders[k].mutation == muts[k] || fresh(builders[k].mutation)
      ensures forall k :: i <= k < |builders| && nodes[k] != null ==> fresh(nodes[k])
      decreases |builders| - i, |builders[i].hooks| - h + 3
    {
      hide At, Ready, DownFrom, Leaves, ResultFrom, Unwind, BaseResult, BaseEvents, Check, InsertedOk, Finished, AllFinished;
      hide Passed, Done, NodeAt, SpecOf, CreateSpec, WithId;
      var hooks := builders[i].hooks;
      if h == |hooks| {
        r, events := Base(i, m, p, muts, starts);
        AtBase(p, i);
        return;
      }
      HookTrace(p, i, h);
      HookResult(p, i, h);
      NotPassed(p, i);
      events := [];
      match hooks[h].action {
        case Fail =>
          Idle(p, muts, starts, i);
          r := Some(HookFailed(i, h));
        case Return =>
          Idle(p, muts, starts, i);
          r := None;
        case Next(fields, swap) =>
          var passed := m;
          if swap {
            passed := new Mutation(fields);
          } else {
            m.fields := fields;
          }
          r, events := Mutate(i, h + 1, passed, p, muts, starts);
          if r.None? && hooks[h].failsAfter {
            r := Some(HookFailed(i, h));
          }
      }
      events := [Enter(i, h)] + events + [Leave(i, h)];
    }

    /** Inside all hooks of builder i: the check, then the spec and the rest of the chain. */
    method Base(i: nat, m: Mutation, ghost p: Plan, ghost muts: seq<Mutation>, ghost starts: seq<bool>) returns (r: Option<SaveError>, ghost events: seq<Event>)
      requires Fits(p) && |muts| == |starts| == |builders| && i < |builders|
      requires forall j :: 0 <= j < i ==> Ready(p, j)
      requires At(p, i) == Reached(m.fields, builders[i].mutation.fields)
      requires builders[i].mutation == muts[i]
      requires (m.done ==> starts[i]) && (muts[i].done ==> starts[i]) && nodes[i] == null && specs[i] == None && ids == []
      requires AllWaiting(p, muts, starts, i + 1)
      requires forall j, k :: i <= j < k < |builders| ==> muts[j] != muts[k]
      requires forall k :: i < k < |builders| ==> m != muts[k]
      requires forall k :: 0 <= k < i ==> specs[k] == SpecOf(p, k)
      requires AllCurrent(p, muts, i) && forall j :: 0 <= j < i ==> builders[j].mutation != m
      modifies this`ids, specs, nodes, m
      modifies set k | i <= k < |builders| :: builders[k]
      modifies set k | i <= k < |builders| :: muts[k]
      ensures r == BaseResult(p, i)
      ensures events == BaseEvents(p, i) + Leaves(BaseEvents(p, i))
      ensures ids == if InsertedOk(p) then p.insert.ids else []
      ensures forall k :: 0 <= k < i ==> nodes[k] == old(nodes[k]) && specs[k] == old(specs[k])
      ensures AllFinished(p, starts, i)
      ensures builders[i].mutation == m || builders[i].mutation == muts[i]
      ensures forall k :: i < k < |builders| ==> builders[k].mutation == muts[k] || fresh(builders[k].mutation)
      ensures forall k :: i <= k < |builders| && nodes[k] != null ==> fresh(nodes[k])
      decreases |builders| - i, 2
    {
      hide At, Ready, Check, Descend, CreateSpec, DownFrom, Leaves, ResultFrom, NodeAt, WithId, SpecOf, Passed, Done, BaseEvents, RestTrace, InsertedOk, RestResult, BaseResult;
      BaseFacts(p, i);
      var failure := Check(env, builders[i].mutation.fields);
      if failure.Some? {
        Idle(p, muts, starts, i);
        return Some(Unchecked(i, failure.value)), [Checked(i, false)];
      }
      r, events := Passing(i, m, p, muts, starts);
      events := [Checked(i, true)] + events;
    }

    /** The check has passed. */
    method Passing(i: nat, m: Mutation, ghost p: Plan, ghost muts: seq<Mutation>, ghost starts: seq<bool>) returns (r: Option<SaveError>, ghost events: seq<Event>)
      requires Fits(p) && |muts| == |starts| == |builders| && i < |builders|
      requires forall j :: 0 <= j <= i ==> Ready(p, j)
      requires At(p, i) == Reached(m.fields, builders[i].mutation.fields)
      requires builders[i].mutation == muts[i]
      requires (m.done ==> starts[i]) && (muts[i].done ==> starts[i]) && nodes[i] == null && specs[i] == None && ids == []
      requires AllWaiting(p, muts, starts, i + 1)
      requires forall j, k :: i <= j < k < |builders| ==> muts[j] != muts[k]
      requires forall k :: i < k < |builders| ==> m != muts[k]
      requires forall k :: 0 <= k < i ==> specs[k] == SpecOf(p, k)
      requires AllCurrent(p, muts, i) && forall j :: 0 <= j < i ==> builders[j].mutation != m
      modifies this`ids, specs, nodes, m
      modifies set k | i <= k < |builders| :: builders[k]
      modifies set k | i <= k < |builders| :: muts[k]
      ensures r == RestResult(p, i)
      ensures events == RestTrace(p, i)
      ensures ids == if InsertedOk(p) then p.insert.ids else []
      ensures forall k :: 0 <= k < i ==> nodes[k] == old(nodes[k]) && specs[k] == old(specs[k])
      ensures AllFinished(p, starts, i)
      ensures builders[i].mutation == m || builders[i].mutation == muts[i]
      ensures forall k :: i < k < |builders| ==> builders[k].mutation == muts[k] || fresh(builders[k].mutation)
      ensures forall k :: i <= k < |builders| && nodes[k] != null ==> fresh(nodes[k])
      decreases |builders| - i, 1
    {
      hide At, Ready, Check, Descend, CreateSpec, DownFrom, Leaves, ResultFrom, NodeAt, WithId, SpecOf, Passed, Done, BaseEvents, RestTrace, InsertedOk, RestResult, BaseResult;
      BaseFacts(p, i);
      var created := Describe(i, m);
      forall k | i < k < |builders| ensures Waiting(p, muts, starts, k) {
        assert old(Waiting(p, muts, starts, k));
      }
      ghost var next := i + 1;
      forall j | 0 <= j < next ensures Current(p, muts, next, j) {
        if j < i { assert old(Current(p, muts, i, j)); }
      }
      r, events := Rest(i, p, muts, starts);
      if r.Some? {
        assert Finished(p, starts, i);
        return;
      }
      label returned:
      Fill(i, m, created);
      forall k | i < k < |builders| ensures Finished(p, starts, k) {
        assert old@returned(Finished(p, starts, k));
      }
      assert Finished(p, starts, i);
    }

    /** Node and spec of position i. */
    method Describe(i: nat, m: Mutation) returns (created: Account)
      requires i < |builders| == nodes.Length == specs.Length
      modifies builders[i], nodes, specs
      ensures builders[i].mutation == m && fresh(created) && nodes[i] == created
      ensures created.Val() == CreateSpec(m.fields).0 && specs[i] == Some(CreateSpec(m.fields).1)
      ensures forall k :: 0 <= k < |builders| && k != i ==> nodes[k] == old(nodes[k]) && specs[k] == old(specs[k])
    {
      hide CreateSpec;
      var builder := builders[i];
      builder.mutation := m;
      var (node, spec) := CreateSpec(m.fields);
      created := new Account.Of(node);
      nodes[i] := created;
      specs[i] := Some(spec);
    }

    /** The id and the done flag, on the way back. */
    method Fill(i: nat, m: Mutation, node: Account)
      modifies m`id, m`done, node`slots
      ensures m.done && m.id == node
      ensures node.Val() == WithId(old(node.Val()), if i < |ids| then ids[i] else None)
    {
      m.id := node;
      if i < |ids| && ids[i].Some? {
        node.slots := node.slots[ID := Plain(Int(ids[i].value))];
      }
      m.done := true;
    }

    /** What the resolver finds at the insert is what the hooks have passed on. */
    lemma KeptIs(p: Plan, muts: seq<Mutation>, kept: bool)
      requires Fits(p) && |muts| == |builders| && AllCurrent(p, muts, |builders|)
      requires kept <==> exists k :: 0 <= k < |builders| && CreatedAt in builders[k].mutation.fields
      ensures TheInsert(p) == Insert(AllSpecs(p), kept)
    {
      hide At;
      if kept {
        var k :| 0 <= k < |builders| && CreatedAt in builders[k].mutation.fields;
        assert Current(p, muts, |builders|, k);
      } else {
        forall k | 0 <= k < |builders| ensures At(p, k).Reached? && CreatedAt !in At(p, k).passed { assert Current(p, muts, |builders|, k); }
      }
    }

    /** The rest of the chain behind builder i, or the insert behind the last one. */
    method Rest(i: nat, ghost p: Plan, ghost muts: seq<Mutation>, ghost starts: seq<bool>) returns (r: Option<SaveError>, ghost events: seq<Event>)
      requires Fits(p) && |muts| == |starts| == |builders| && i < |builders|
      requires forall j :: 0 <= j <= i ==> Ready(p, j) && specs[j] == SpecOf(p, j)
      requires ids == []
      requires AllWaiting(p, muts, starts, i + 1)
      requires AllCurrent(p, muts, i + 1)
      requires forall j, k :: i < j < k < |builders| ==> muts[j] != muts[k]
      modifies this`ids, specs, nodes
      modifies set k | i < k < |builders| :: builders[k]
      modifies set k | i < k < |builders| :: muts[k]
      ensures r == RestResult(p, i)
      ensures events == RestTrace(p, i)
      ensures ids == if InsertedOk(p) then p.insert.ids else []
      ensures forall k :: 0 <= k <= i ==> nodes[k] == old(nodes[k]) && specs[k] == old(specs[k])
      ensures AllFinished(p, starts, i + 1)
      ensures forall k :: i < k < |builders| ==> builders[k].mutation == muts[k] || fresh(builders[k].mutation)
      ensures forall k :: i < k < |builders| && nodes[k] != null ==> fresh(nodes[k])
      decreases |builders| - i, 0
    {
      hide Check, DownFrom, Leaves, ResultFrom, Finished;
      if i < |builders| - 1 {
        assert Waiting(p, muts, starts, i + 1);
        forall j | 0 <= j <= i ensures builders[j].mutation != muts[i + 1] {
          assert Current(p, muts, i + 1, j);
        }
        r, events := Mutate(i + 1, 0, builders[i + 1].mutation, p, muts, starts);
      } else {
        assert specs[..] == AllSpecs(p);
        var kept := KeepsCreatedAt();
        KeptIs(p, muts, kept);
        events := [Insert(specs[..], kept)];
        match insert {
          case Inserted(given) => ids := given; r := None;
          case Refused(constraint) => r := Some(if constraint then Constraint else InsertFailed);
        }
      }
    }
  }

  class CreateBulk {
    const err: Option<SaveError>
    const builders: seq<Builder>

    constructor (err: Option<SaveError>, builders: seq<Builder>)
      ensures this.err == err && this.builders == builders
    {
      this.err, this.builders := err, builders;
    }

    /** No builder and no mutation occurs twice. */
    ghost predicate Apart()
      reads builders
    {
      forall j, k :: 0 <= j < k < |builders| ==> builders[j] != builders[k] && builders[j].mutation != builders[k].mutation
    }

    /** Saves all builders; the errors of `defaults` are dropped.  The plan is what the builders come to
        after `defaults`, and what happens is what the plan says. */
    method Save(env: Env, insert: InsertAnswer) returns (r: Result<seq<Account?>, SaveError>, ghost p: Plan, ghost errs: seq<Option<Field>>, ghost trace: seq<Event>)
      requires Apart()
      modifies builders, set k | 0 <= k < |builders| :: builders[k].mutation
      ensures err.Some? ==> r == Err(err.value) && forall k :: 0 <= k < |builders| ==> unchanged(builders[k]) && unchanged(old(builders[k].mutation))
      ensures err.None? ==> Planned(env, insert, p) && |errs| == |builders|
      ensures err.None? ==> forall k :: 0 <= k < |builders| ==> DefaultsRan(env, old(builders[k].mutation.fields), p.builders[k].own, errs[k])
      ensures err.None? ==> trace == Trace(p)
      ensures err.None? ==> match Outcome(p)
                            case Some(e) => r == Err(e)
                            case None => r.Ok? && |r.value| == |builders| && forall k :: 0 <= k < |builders| ==> Returned(p, k, r.value[k])
      ensures err.None? ==> (r == Err(Constraint) <==> builders != [] && AllReady(p) && insert == Refused(true))
      ensures err.None? ==> (r == Err(InsertFailed) <==> builders != [] && AllReady(p) && insert == Refused(false))
      ensures err.None? ==> forall k :: 0 <= k < |builders| && builders[k].hooks == [] ==> DefaultsSent(env, old(builders[k].mutation.fields), trace, k)
      ensures err.None? ==> forall k :: 0 <= k < |builders| && Done(p, k) ==> builders[k].mutation.done && (r.Ok? ==> builders[k].mutation.id == r.value[k])
      ensures err.None? ==> forall k :: 0 <= k < |builders| && builders[k].mutation.done ==> Done(p, k) || old(builders[k].mutation.done)
    {
      p, errs, trace := Plan(env, [], insert), [], [];
      if err.Some? {
        return Err(err.value), p, errs, trace;
      }
      ghost var plans, muts, starts;
      plans, errs, muts, starts := AllDefaults(env);
      p := Plan(env, plans, insert);
      var e, nodes;
      e, nodes, trace := Run(env, insert, p, muts, starts);
      r := match e case Some(x) => Err(x) case None => Ok(nodes);
      ErrorsExact(p);
      forall k | 0 <= k < |builders| && builders[k].hooks == [] ensures DefaultsSent(env, old(builders[k].mutation.fields), trace, k) {
        DefaultsInserted(p, k, old(builders[k].mutation.fields), errs[k]);
      }
    }

    ghost predicate Planned(env: Env, insert: InsertAnswer, p: Plan) {
      && p.env == env && p.insert == insert && |p.builders| == |builders|
      && forall k :: 0 <= k < |builders| ==> p.builders[k].hooks == builders[k].hooks
    }

    /** The chain of mutators. */
    method Run(env: Env, insert: InsertAnswer, ghost p: Plan, ghost muts: seq<Mutation>, ghost starts: seq<bool>)
      returns (e: Option<SaveError>, nodes: seq<Account?>, ghost trace: seq<Event>)
      requires Apart() && Planned(env, insert, p) && |muts| == |starts| == |builders|
      requires forall k :: 0 <= k < |builders| ==> builders[k].mutation == muts[k] && muts[k].fields == p.builders[k].own && starts[k] == muts[k].done
      modifies builders, muts
      ensures e == Outcome(p) && trace == Trace(p) && |nodes| == |builders|
      ensures forall k :: 0 <= k < |builders| ==> Returned(p, k, nodes[k])
      ensures forall k :: 0 <= k < |builders| && Done(p, k) ==> builders[k].mutation.done && builders[k].mutation.id == nodes[k]
      ensures forall k :: 0 <= k < |builders| && builders[k].mutation.done ==> Done(p, k) || starts[k]
    {
      var batch := new Batch(env, insert, builders);
      if |builders| == 0 {
        return None, [], [];
      }
      hide At, Ready, Done, NodeAt, CreateSpec, SpecOf, ResultFrom, DownFrom, Leaves, InsertedOk, Passed;
      e, trace := batch.Mutate(0, 0, builders[0].mutation, p, muts, starts);
      nodes := batch.nodes[..];
      forall k | 0 <= k < |builders|
        ensures Returned(p, k, nodes[k])
        ensures Done(p, k) ==> builders[k].mutation.done && builders[k].mutation.id == nodes[k]
        ensures builders[k].mutation.done ==> Done(p, k) || starts[k]
      {
        assert batch.Finished(p, starts, k);
      }
    }

    /** The defaults of all builders, before any mutator runs. */
    method AllDefaults(env: Env) returns (ghost plans: seq<BuilderPlan>, ghost errs: seq<Option<Field>>, ghost muts: seq<Mutation>, ghost starts: seq<bool>)
      requires Apart()
      modifies set k | 0 <= k < |builders| :: builders[k].mutation`fields
      ensures |plans| == |errs| == |muts| == |starts| == |builders|
      ensures forall k :: 0 <= k < |builders| ==> builders[k].mutation == muts[k] && starts[k] == muts[k].done
      ensures forall k :: 0 <= k < |builders| ==> plans[k] == BuilderPlan(muts[k].fields, builders[k].hooks)
      ensures forall k :: 0 <= k < |builders| ==> DefaultsRan(env, old(builders[k].mutation.fields), plans[k].own, errs[k])
    {
      plans, errs, muts, starts := [], [], [], [];
      for i := 0 to |builders|
        invariant |plans| == |errs| == |muts| == |starts| == i
        invariant forall k :: 0 <= k < i ==> builders[k].mutation == muts[k] && starts[k] == muts[k].done
        invariant forall k :: i <= k < |builders| ==> builders[k].mutation.fields == old(builders[k].mutation.fields)
        invariant forall k :: 0 <= k < i ==> plans[k] == BuilderPlan(muts[k].fields, builders[k].hooks)
        invariant forall k :: 0 <= k < i ==> DefaultsRan(env, old(builders[k].mutation.fields), plans[k].own, errs[k])
      {
        var mutation := builders[i].mutation;
        var dropped := mutation.Defaults(env);
        plans := plans + [BuilderPlan(mutation.fields, builders[i].hooks)];
        errs, muts, starts := errs + [dropped], muts + [mutation], starts + [mutation.done];
      }
    }
  }

  /** The node that a save returns at position k. */
  ghost predicate Returned(p: Plan, k: nat, node: Account?)
    requires k < |p.builders|
    reads node
  {
    && (node != null <==> Passed(p, k))
    && (node != null ==> Ready(p, k) && node.Val() == if Done(p, k) then NodeAt(p, k) else CreateSpec(At(p, k).passed).0)
  }

  /** The events behind a builder that is ready. */
  ghost function RestTrace(p: Plan, i: nat): (r: seq<Event>)
    requires i < |p.builders|
  {
    if i == |p.builders| - 1 then [TheInsert(p)]
    else DownFrom(p, i + 1, 0) + Leaves(DownFrom(p, i + 1, 0))
  }

  lemma BaseTrace(p: Plan, i: nat)
    requires i < |p.builders| && Ready(p, i)
    ensures BaseEvents(p, i) + Leaves(BaseEvents(p, i)) == [Checked(i, true)] + RestTrace(p, i)
  {
    hide At, Ready, DownFrom, AllSpecs;
    var e := BaseEvents(p, i);
    if i == |p.builders| - 1 {
      assert Leaves(e[1..][1..]) == [];
      assert Leaves(e[1..]) == [];
    } else {
      assert e[1..] == DownFrom(p, i + 1, 0);
    }
  }

  /** One hook more around a builder's events. */
  lemma HookTrace(p: Plan, i: nat, h: nat)
    requires i < |p.builders| && h < |p.builders[i].hooks| && (At(p, i).Stopped? ==> h <= At(p, i).hook)
    ensures var down := DownFrom(p, i, h);
      if At(p, i).Stopped? && h == At(p, i).hook then down + Leaves(down) == [Enter(i, h)] + [] + [Leave(i, h)]
      else
        var inner := DownFrom(p, i, h + 1);
        down + Leaves(down) == [Enter(i, h)] + (inner + Leaves(inner)) + [Leave(i, h)]
  {
    hide At, BaseEvents;
    var down := DownFrom(p, i, h);
    if At(p, i).Stopped? && h == At(p, i).hook {
      assert Leaves(down[1..]) == [];
    } else {
      assert down == [Enter(i, h)] + DownFrom(p, i, h + 1);
      assert down[1..] == DownFrom(p, i, h + 1);
    }
  }

  /** One hook more around a builder's result. */
  lemma HookResult(p: Plan, i: nat, h: nat)
    requires i < |p.builders| && h < |p.builders[i].hooks| && (At(p, i).Stopped? ==> h <= At(p, i).hook)
    ensures ResultFrom(p, i, h) ==
      if At(p, i).Stopped? && h == At(p, i).hook then if At(p, i).failed then Some(HookFailed(i, h)) else None
      else
        var inner := ResultFrom(p, i, h + 1);
        if inner.None? && p.builders[i].hooks[h].failsAfter then Some(HookFailed(i, h)) else inner
  {
    hide At, BaseResult;
  }

  /** No hook left. */
  lemma AtBase(p: Plan, i: nat)
    requires i < |p.builders| && At(p, i).Reached?
    ensures var h := |p.builders[i].hooks|;
      ResultFrom(p, i, h) == BaseResult(p, i) && DownFrom(p, i, h) == BaseEvents(p, i)
  {
    hide At, BaseResult, BaseEvents;
    assert Enters(i, |p.builders[i].hooks|, |p.builders[i].hooks|) == [];
  }

  /** What a mutator does inside its hooks when the earlier builders have passed. */
  lemma BaseFacts(p: Plan, i: nat)
    requires i < |p.builders| && At(p, i).Reached? && forall j :: 0 <= j < i ==> Ready(p, j)
    ensures Ready(p, i) <==> Passed(p, i)
    ensures Ready(p, i) <==> Check(p.env, At(p, i).own) == None
    ensures !Ready(p, i) ==>
      && BaseResult(p, i) == Some(Unchecked(i, Check(p.env, At(p, i).own).value))
      && BaseEvents(p, i) == [Checked(i, false)] && Leaves(BaseEvents(p, i)) == []
      && !InsertedOk(p)
    ensures Ready(p, i) ==>
      && BaseEvents(p, i) + Leaves(BaseEvents(p, i)) == [Checked(i, true)] + RestTrace(p, i)
      && BaseResult(p, i) == RestResult(p, i)
      && (Done(p, i) <==> RestResult(p, i) == None)
    ensures SpecOf(p, i) == Some(CreateSpec(At(p, i).passed).1)
    ensures var ids := if InsertedOk(p) then p.insert.ids else [];
      NodeAt(p, i) == WithId(CreateSpec(At(p, i).passed).0, if i < |ids| then ids[i] else None)
  {
    if Ready(p, i) {
      BaseTrace(p, i);
    } else {
      NotPassed(p, i);
      assert Leaves(BaseEvents(p, i)[1..]) == [];
    }
  }

  /** Behind a builder that is not ready nothing happens. */
  lemma NotPassed(p: Plan, i: nat)
    requires i < |p.builders|
    ensures At(p, i).Stopped? ==> !Ready(p, i)
    ensures !Ready(p, i) ==> !InsertedOk(p) && forall k :: i <= k < |p.builders| ==> !Passed(p, k) && !Done(p, k)
  {
  }
}
