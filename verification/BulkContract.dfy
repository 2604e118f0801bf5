/** What a caller of a bulk create can rely on, in terms of the options its builders hold,
    the defaults and validators of the schema, and what the database answers. */
module BulkContract {
  import opened BulkCreate
  import opened BulkLaws
  import opened BulkSave
  import opened CreateChecks
  import opened MutatorChain
  import opened RowMapping
  import opened Schema
  import opened Wrappers

  /** The options the builders hold, in order. */
  ghost function OptionsOf(bs: seq<Builder>): seq<Options>
    reads bs, Held(bs)
  {
    seq(|bs|, k requires 0 <= k < |bs| reads bs, Held(bs) => bs[k].mutation.options)
  }

  /** The same once defaults has completed them. */
  function Completed(all: seq<Options>, env: Env): seq<Options> {
    seq(|all|, k requires 0 <= k < |all| => Defaults(all[k], env).0)
  }

  function SpecsOf(all: seq<Options>): seq<Spec> {
    seq(|all|, k requires 0 <= k < |all| => SpecOf(all[k]))
  }

  ghost predicate AllAccepted(all: seq<Options>, env: Env) {
    forall k :: 0 <= k < |all| ==> Check(all[k], env) == None
  }

  /** The node is what createSpec makes of the options, with the identity the database
      reported for its row, or none if it reported none. */
  ghost predicate IsNodeOf(node: APIKey?, o: Options, ids: seq<Option<int>>, k: nat)
    reads if node == null then {} else {node}
  {
    && node != null
    && node.data.(id := 0) == NodeOf(o)
    && node.data.id == (if k < |ids| && ids[k].Some? then ids[k].value else 0)
  }

  /** With hooks that only wrap, what stops a save is the check of the first builder that
      fails it. */
  lemma {:induction false} FirstFailure(bs: seq<Builder>, i: nat, cur: map<Builder, Mutation>,
                                        opts: map<Mutation, Options>, fx: Effects)
    requires i < |bs| && Known(bs, cur, opts) && OnlyWrap(bs)
    ensures Block(PlanAt(bs, i, cur, opts, fx)).Some? ==>
      exists k :: i <= k < |bs| && Block(PlanAt(bs, i, cur, opts, fx)) == fx.check(opts[cur[bs[k]]])
                  && forall j :: i <= j < k ==> fx.check(opts[cur[bs[j]]]) == None
    decreases |bs| - i
  {
    assert bs[i] in bs && !HandsOn(bs[i].hooks);
    NothingHanded(bs[i].hooks, 0, cur[bs[i]]);
    assert cur[bs[i] := cur[bs[i]]] == cur;
    PlanParts(bs, i, cur, opts, fx);
    var frames, base := HookFrames(i, bs[i].hooks, 0), Base(i, cur[bs[i]], cur[bs[i]], opts, fx);
    var rest := if i + 1 < |bs| then PlanAt(bs, i + 1, cur, opts, fx) else [];
    BlockConcat(frames + [base], rest);
    BlockConcat(frames, [base]);
    HooksBlock(i, bs[i].hooks);
    if fx.check(opts[cur[bs[i]]]) == None && i + 1 < |bs| {
      FirstFailure(bs, i + 1, cur, opts, fx);
    }
  }

  /** e is what check says of the first options that fail it. */
  ghost predicate IsFirstFailing(all: seq<Options>, env: Env, e: CreateError) {
    exists k :: 0 <= k < |all| && Check(all[k], env) == Some(e) && forall j :: 0 <= j < k ==> Check(all[j], env) == None
  }

  ghost function Mutations(bs: seq<Builder>): seq<Mutation>
    reads bs
  {
    seq(|bs|, k requires 0 <= k < |bs| reads bs => bs[k].mutation)
  }

  /** What Exec has done for builders that held these mutations with these options, when
      marks and log were these. The database is asked when every builder's completed
      options pass check, once, with the specs of exactly those options. Exec succeeds
      when the insert does too, and otherwise reports the first failing check or the
      database's error. On success every node and mutation is as its builder asked; on an
      error no mutation is newly done. */
  ghost predicate Executed(create: APIKeyCreateBulk, env: Env, given: seq<Options>, held: seq<Mutation>, was: Snapshot,
                           log: seq<BatchCall>, err: Option<CreateError>, nodes: seq<APIKey?>)
    reads create.driver`log, held, was.done.Keys, set n: APIKey | n in nodes
  {
    var all := Completed(given, env);
    var answer := create.driver.respond(SpecsOf(all));
    && |held| == |given|
    && create.driver.log
      == log + (if AllAccepted(all, env) then [BatchCall(SpecsOf(all), create.conflict)] else [])
    && (err == None <==> AllAccepted(all, env) && answer.Success?)
    && (!AllAccepted(all, env) ==> err.Some? && IsFirstFailing(all, env, err.value))
    && (AllAccepted(all, env) && answer.Failure? ==> err == match answer.error
          case ConstraintViolation(code) => Some(Constraint(code))
          case OtherDbError(code) => Some(Database(code)))
    && (err == None ==>
          && |nodes| == |held|
          && (forall k :: 0 <= k < |held| ==> IsNodeOf(nodes[k], all[k], answer.value, k) && held[k].done)
          && (forall k :: 0 <= k < |held| && held[k] !in held[..k] ==> held[k].idOf == nodes[k]))
    && (err.Some? ==> forall x :: x in was.done ==> x in was.ids && x.done == was.done[x] && x.idOf == was.ids[x])
  }

  /** Exec: a save whose nodes are dropped; they are kept here to say what they were. With
      hooks that only wrap it does what Executed says, starting from the options, marks
      and log at the call. */
  method Exec(create: APIKeyCreateBulk, env: Env) returns (err: Option<CreateError>, ghost nodes: seq<APIKey?>)
    modifies Held(create.builders)`options, (set b | b in create.builders)`mutation, Reachable(create.builders)`done,
      Reachable(create.builders)`idOf, create.driver`log
    ensures create.err == None && create.builders != [] && OnlyWrap(create.builders) ==>
      Executed(create, env, old(OptionsOf(create.builders)), old(Mutations(create.builders)),
               old(Marking(create.builders)), old(create.driver.log), err, nodes)
  {
    ghost var bs := create.builders;
    ghost var cur, opts, was := Pointers(bs), OptionsAfter(bs, Filling(env)), Marking(bs);
    ghost var given, held, log := OptionsOf(bs), Mutations(bs), create.driver.log;
    BeforeExec(bs, env);
    var r, trace, final := create.Save(env);
    err := if r.Failure? then Some(r.error) else None;
    nodes := if r.Success? then r.value else [];
    if create.err == None && bs != [] && OnlyWrap(bs) {
      ExecMeans(create, final.value, r, trace, cur, opts, was, log, given, held, env, err, nodes);
    }
  }

  /** How a save sees the builders it is given. */
  lemma BeforeExec(bs: seq<Builder>, env: Env)
    ensures Holding(bs, Pointers(bs), OptionsAfter(bs, Filling(env)), OptionsOf(bs), Mutations(bs), env)
    ensures Marking(bs).done.Keys == OptionsAfter(bs, Filling(env)).Keys
  {
    PointersHold(bs, Filling(env));
    CompletedIs(OptionsOf(bs), env);
    forall k | 0 <= k < |bs|
      ensures Pointers(bs)[bs[k]] == Mutations(bs)[k]
      ensures OptionsAfter(bs, Filling(env))[bs[k].mutation] == Completed(OptionsOf(bs), env)[k]
    {
      assert OptionsOf(bs)[k] == bs[k].mutation.options;
    }
  }

  lemma PointersHold(bs: seq<Builder>, fill: Options -> Options)
    ensures OptionsAfter(bs, fill).Keys == Marking(bs).done.Keys
    ensures forall k :: 0 <= k < |bs| ==>
      && bs[k] in Pointers(bs) && Pointers(bs)[bs[k]] == bs[k].mutation && bs[k].mutation in OptionsAfter(bs, fill)
      && OptionsAfter(bs, fill)[bs[k].mutation] == fill(bs[k].mutation.options)
  {
    forall k | 0 <= k < |bs|
      ensures bs[k].mutation in Held(bs)
    {
      assert bs[k] in bs;
    }
  }

  lemma CompletedIs(all: seq<Options>, env: Env)
    ensures |Completed(all, env)| == |all|
    ensures forall k :: 0 <= k < |all| ==> Completed(all, env)[k] == Filling(env)(all[k])
  {
  }

  ghost predicate Holding(bs: seq<Builder>, cur: map<Builder, Mutation>, opts: map<Mutation, Options>,
                          given: seq<Options>, held: seq<Mutation>, env: Env)
  {
    && Hold(bs, cur, opts, Completed(given, env))
    && |held| == |given| && forall k :: 0 <= k < |held| ==> held[k] == cur[bs[k]]
  }

  lemma ExecMeans(create: APIKeyCreateBulk, final: Saving, r: Result<seq<APIKey?>, CreateError>, trace: seq<Event>,
                  cur: map<Builder, Mutation>, opts: map<Mutation, Options>, was: Snapshot, log: seq<BatchCall>,
                  given: seq<Options>, held: seq<Mutation>, env: Env, err: Option<CreateError>, nodes: seq<APIKey?>)
    requires create.builders != [] && Known(create.builders, cur, opts)
    requires Holding(create.builders, cur, opts, given, held, env)
    requires err == (if r.Failure? then Some(r.error) else None) && nodes == if r.Success? then r.value else []
    requires create.Finished(final, r, trace, cur, opts, was, log) && OnlyWrap(create.builders)
    requires final.fx == EffectsOf(env) && was.done.Keys == opts.Keys
    ensures Executed(create, env, given, held, was, log, err, nodes)
  {
    var all := Completed(given, env);
    ExecCalls(create, final, r, trace, cur, opts, was, log, all, env);
    if r.Success? {
      ExecNodes(create, final, r, trace, cur, opts, was, log, all, env);
      forall k | 0 <= k < |held| && held[k] !in held[..k]
        ensures held[k].idOf == r.value[k]
      {
        assert forall j :: 0 <= j < k ==> held[j] in held[..k];
      }
    } else {
      forall x | x in opts
        ensures x in was.ids && x.done == was.done[x] && x.idOf == was.ids[x]
      {
        WrappedFailure(create, final, r, trace, cur, opts, was, log, x);
      }
    }
  }

  /** The run's options are these, builder by builder. */
  ghost predicate Hold(bs: seq<Builder>, cur: map<Builder, Mutation>, opts: map<Mutation, Options>, all: seq<Options>) {
    |all| == |bs| && forall k :: 0 <= k < |bs| ==> bs[k] in cur && cur[bs[k]] in opts && opts[cur[bs[k]]] == all[k]
  }

  lemma ExecCalls(create: APIKeyCreateBulk, final: Saving, r: Result<seq<APIKey?>, CreateError>, trace: seq<Event>,
                  cur: map<Builder, Mutation>, opts: map<Mutation, Options>, was: Snapshot, log: seq<BatchCall>,
                  all: seq<Options>, env: Env)
    requires create.builders != [] && Known(create.builders, cur, opts) && Hold(create.builders, cur, opts, all)
    requires create.Finished(final, r, trace, cur, opts, was, log) && OnlyWrap(create.builders)
    requires final.fx == EffectsOf(env)
    ensures var passes, answer := AllAccepted(all, env), create.driver.respond(SpecsOf(all));
      && create.driver.log == log + (if passes then [BatchCall(SpecsOf(all), create.conflict)] else [])
      && (r.Success? <==> passes && answer.Success?)
      && (!passes ==> r.Failure? && IsFirstFailing(all, env, r.error))
      && (passes && answer.Failure? ==> r == Failure(match answer.error
            case ConstraintViolation(code) => Constraint(code)
            case OtherDbError(code) => Database(code)))
  {
    var bs, fx, insert := create.builders, final.fx, Inserting(create.driver.respond);
    var plan := WholePlan(bs, cur, opts, fx);
    WrappedSave(create, final, r, trace, cur, opts, was, log);
    assert OwnSpecs(bs, cur, opts, fx) == SpecsOf(all);
    assert forall k :: 0 <= k < |bs| ==> bs[k] in bs && fx.check(opts[cur[bs[k]]]) == Check(all[k], env);
    assert AllPass(bs, cur, opts, fx) <==> AllAccepted(all, env);
    PassThroughBulk(bs, cur, opts, fx, insert);
    RunError(plan, [], insert);
    assert [] + Specs(plan) == Specs(plan);
    FirstFailure(bs, 0, cur, opts, fx);
  }

  lemma ExecNodes(create: APIKeyCreateBulk, final: Saving, r: Result<seq<APIKey?>, CreateError>, trace: seq<Event>,
                  cur: map<Builder, Mutation>, opts: map<Mutation, Options>, was: Snapshot, log: seq<BatchCall>,
                  all: seq<Options>, env: Env)
    requires create.builders != [] && Known(create.builders, cur, opts) && Hold(create.builders, cur, opts, all)
    requires create.Finished(final, r, trace, cur, opts, was, log) && OnlyWrap(create.builders) && r.Success?
    requires final.fx == EffectsOf(env) && create.driver.respond(SpecsOf(all)).Success?
    ensures var bs, ids := create.builders, create.driver.respond(SpecsOf(all)).value;
      && |r.value| == |bs|
      && (forall k :: 0 <= k < |bs| ==> IsNodeOf(r.value[k], all[k], ids, k) && cur[bs[k]].done)
      && (forall k :: 0 <= k < |bs| && (forall j :: 0 <= j < k ==> cur[bs[j]] != cur[bs[k]]) ==>
            cur[bs[k]].idOf == r.value[k])
  {
    var bs, fx, ids := create.builders, final.fx, create.driver.respond(SpecsOf(all)).value;
    assert OwnSpecs(bs, cur, opts, fx) == SpecsOf(all);
    forall k | 0 <= k < |bs|
      ensures |r.value| == |bs| && IsNodeOf(r.value[k], all[k], ids, k) && cur[bs[k]].done
      ensures (forall j :: 0 <= j < k ==> cur[bs[j]] != cur[bs[k]]) ==> cur[bs[k]].idOf == r.value[k]
    {
      WrappedSuccess(create, final, r, trace, cur, opts, was, log, k);
    }
    WrappedSuccess(create, final, r, trace, cur, opts, was, log, 0);
  }

  /** So builders that set a user, a key and a name are saved whenever every default is
      initialised and the validators pass what is set and what the defaults give: all
      their completed options are accepted. */
  lemma CompleteBuildersAreAccepted(all: seq<Options>, env: Env)
    requires forall c :: env.default(c).Some? && env.invalid(c, env.default(c).value) == None
    requires forall k :: 0 <= k < |all| ==> all[k].user.Some? && Key in all[k].fields && Name in all[k].fields
    requires forall k, c :: 0 <= k < |all| && c in all[k].fields ==> env.invalid(c, all[k].fields[c]) == None
    ensures AllAccepted(Completed(all, env), env)
  {
    forall k | 0 <= k < |all|
      ensures Check(Completed(all, env)[k], env) == None
    {
      CompletedPasses(all[k], env);
    }
  }
}
