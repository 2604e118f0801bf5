/** The public entry points of bulk creation, APIKeyCreateBulk.Save and
    APIKeyUpsertBulk.Exec, and what a plan means builder by builder. */
module BulkCreate {
  import opened BulkSave
  import opened CreateChecks
  import opened MutatorChain
  import opened RowMapping
  import opened Schema
  import opened Wrappers

  // ---- what decides a bulk save ------------------------------------------------

  ghost function Held(bs: seq<Builder>): set<Mutation>
    reads bs
  {
    set b | b in bs :: b.mutation
  }

  ghost function HandOns(bs: seq<Builder>): set<Mutation> {
    set b, j | b in bs && 0 <= j < |b.hooks| && b.hooks[j].HandOn? :: b.hooks[j].m
  }

  ghost function Reachable(bs: seq<Builder>): set<Mutation>
    reads bs
  {
    Held(bs) + HandOns(bs)
  }

  ghost function Pointers(bs: seq<Builder>): map<Builder, Mutation>
    reads bs
  {
    map b | b in bs :: b.mutation
  }

  /** The options every mutation has once the builders' defaults have run. */
  ghost function OptionsAfter(bs: seq<Builder>, fill: Options -> Options): map<Mutation, Options>
    reads bs, Reachable(bs)
  {
    map x | x in Reachable(bs) :: if x in Held(bs) then fill(x.options) else x.options
  }

  ghost function Marking(bs: seq<Builder>): Snapshot
    reads bs, Reachable(bs)
  {
    Snapshot(map x | x in Reachable(bs) :: x.done, map x | x in Reachable(bs) :: x.idOf)
  }

  /** Runs defaults on every builder; errors are dropped, as Save drops them. A
      mutation several builders share is filled more than once. */
  method FillAll(bs: seq<Builder>, fill: Options -> Options)
    requires forall o :: fill(fill(o)) == fill(o)
    modifies Held(bs)`options
    ensures forall x :: x in Held(bs) ==> x.options == fill(old(x.options))
  {
    ghost var held, seen := Held(bs), {};
    for i := 0 to |bs|
      invariant seen <= held && forall k :: 0 <= k < i ==> bs[k].mutation in seen
      invariant forall x :: x in held ==> x.options == if x in seen then fill(old(x.options)) else old(x.options)
    {
      var m := bs[i].mutation;
      m.options := fill(m.options);
      seen := seen + {m};
    }
  }

  /** FillAll, with what it leaves as maps. */
  method RunDefaults(bs: seq<Builder>, fill: Options -> Options)
    returns (ghost cur: map<Builder, Mutation>, ghost opts: map<Mutation, Options>, ghost was: Snapshot)
    requires forall o :: fill(fill(o)) == fill(o)
    modifies Held(bs)`options
    ensures was == old(Marking(bs))
    ensures forall x :: x in opts ==>
      x in was.done && x in was.ids && x.done == was.done[x] && x.idOf == was.ids[x]
    ensures cur == Pointers(bs) && opts == old(OptionsAfter(bs, fill)) && Known(bs, cur, opts)
    ensures forall x :: x in opts ==> x.options == opts[x]
  {
    cur, opts, was := Pointers(bs), OptionsAfter(bs, fill), Marking(bs);
    FillAll(bs, fill);
  }

  // ---- a plan, builder by builder -------------------------------------------------

  /** The plan has a frame for builder j. */
  ghost predicate HasBuilder(plan: seq<Frame<Mutation>>, j: nat) {
    exists k :: 0 <= k < |plan| && plan[k].BaseFrame? && plan[k].i == j
  }

  lemma HasBuilderTail(f: Frame<Mutation>, rest: seq<Frame<Mutation>>, j: nat)
    requires (f.BaseFrame? && f.i == j) || HasBuilder(rest, j)
    ensures HasBuilder([f] + rest, j)
  {
    var plan := [f] + rest;
    if f.BaseFrame? && f.i == j {
      assert plan[0] == f;
    } else {
      var k :| 0 <= k < |rest| && rest[k].BaseFrame? && rest[k].i == j;
      assert plan[k + 1] == rest[k];
    }
  }

  /** A plan holds every builder from i on and ends in a builder. */
  lemma {:induction false} PlanCovers(bs: seq<Builder>, i: nat, h: nat, m: Mutation, cur: map<Builder, Mutation>,
                                      opts: map<Mutation, Options>, fx: Effects)
    requires i < |bs| && Known(bs, cur, opts) && m in opts && h <= |bs[i].hooks|
    ensures var plan := Plan(bs, i, h, m, cur, opts, fx);
      && plan != [] && plan[|plan| - 1].BaseFrame?
      && forall j :: i <= j < |bs| ==> HasBuilder(plan, j)
    decreases |bs| - i, |bs[i].hooks| - h
  {
    var plan := Plan(bs, i, h, m, cur, opts, fx);
    var rest;
    if h < |bs[i].hooks| {
      rest := Plan(bs, i, h + 1, HandedBy(bs[i].hooks[h], m), cur, opts, fx);
      PlanCovers(bs, i, h + 1, HandedBy(bs[i].hooks[h], m), cur, opts, fx);
    } else {
      var next := cur[bs[i] := m];
      rest := Plan(bs, i + 1, 0, if i + 1 < |bs| then next[bs[i + 1]] else m, next, opts, fx);
      if i + 1 < |bs| {
        PlanCovers(bs, i + 1, 0, next[bs[i + 1]], next, opts, fx);
      }
    }
    assert plan == [plan[0]] + rest;
    forall j | i <= j < |bs|
      ensures HasBuilder(plan, j)
    {
      HasBuilderTail(plan[0], rest, j);
    }
  }

  /** A successful run leaves every builder of the plan done. */
  lemma SuccessIsDone(plan: seq<Frame<Mutation>>, insert: seq<Spec> -> Option<CreateError>, n: nat)
    requires Run(plan, [], insert).err == None
    requires forall j :: 0 <= j < n ==> HasBuilder(plan, j)
    ensures forall j: nat :: j < n ==> j in Run(plan, [], insert).done
  {
    RunError(plan, [], insert);
    RunDone(plan, [], insert);
    forall j: nat | j < n
      ensures DoneAt(plan, j)
    {
      assert HasBuilder(plan, j);
      var k :| 0 <= k < |plan| && plan[k].BaseFrame? && plan[k].i == j;
      UndoInside(plan, k + 1);
    }
  }

  // ---- Save ---------------------------------------------------------------------

  class APIKeyCreateBulk {
    const err: Option<int>
    const builders: seq<Builder>
    const conflict: seq<int>
    const driver: Driver

    constructor (err: Option<int>, builders: seq<Builder>, conflict: seq<int>, driver: Driver)
      ensures this.err == err && this.builders == builders && this.conflict == conflict && this.driver == driver
    {
      this.err, this.builders, this.conflict, this.driver := err, builders, conflict, driver;
    }

    /** The plan a Save of these builders follows. */
    ghost function ThePlan(cur: map<Builder, Mutation>, opts: map<Mutation, Options>, fx: Effects)
      : seq<Frame<Mutation>>
      requires builders != [] && Known(builders, cur, opts)
    {
      WholePlan(builders, cur, opts, fx)
    }

    /** What a save that started with these pointers, options and marks has done: it
        followed the plan, called the database at most once and only when nothing
        stopped the descent, returned the nodes or the run's error, and marked
        exactly the mutations the run left done. */
    ghost predicate Finished(final: Saving, r: Result<seq<APIKey?>, CreateError>, trace: seq<Event>,
                             cur: map<Builder, Mutation>, opts: map<Mutation, Options>, was: Snapshot,
                             log: seq<BatchCall>)
      requires builders != [] && Known(builders, cur, opts)
      reads driver`log, final`nodes, opts.Keys`done, opts.Keys`idOf, final.NodeSet()`data
    {
      var plan := ThePlan(cur, opts, final.fx);
      var out := Run(plan, [], Inserting(driver.respond));
      && trace == out.trace
      && driver.log == log + (if Block(plan) == None then [BatchCall(Specs(plan), conflict)] else [])
      && r == (match out.err case Some(e) => Failure(e) case None => Success(final.nodes))
      && |final.nodes| == |builders|
      && final.MutationsMarked(was, plan, out.done, opts)
      && final.NodesCreated(plan, out.done, driver.respond(Specs(plan)), opts)
    }

    ghost predicate OptionsAre(opts: map<Mutation, Options>)
      reads opts.Keys`options
    {
      forall x :: x in opts ==> x.options == opts[x]
    }

    /** Calls mutator 0 with builder 0's mutation. */
    method Start(saving: Saving, ghost cur: map<Builder, Mutation>, ghost opts: map<Mutation, Options>,
                 ghost was: Snapshot)
      returns (failed: Option<CreateError>, trace: seq<Event>)
      requires builders != [] && saving.builders == builders && saving.driver == driver && saving.conflict == conflict
      requires saving.Filled(0, []) && saving.Holding(cur, opts) && saving.Unmarked(was, opts)
      modifies saving`specs, saving`nodes, (set b | b in builders)`mutation, opts.Keys`done, opts.Keys`idOf, driver`log
      ensures saving.Sized() && OptionsAre(opts)
      ensures var plan := ThePlan(cur, opts, saving.fx);
        var out := Run(plan, [], Inserting(driver.respond));
        && trace == out.trace && failed == out.err
        && driver.log == old(driver.log) + (if Block(plan) == None then [BatchCall(Specs(plan), conflict)] else [])
        && saving.MutationsMarked(was, plan, out.done, opts)
        && saving.NodesCreated(plan, out.done, driver.respond(Specs(plan)), opts)
    {
      ghost var plan := ThePlan(cur, opts, saving.fx);
      assert [] + Specs(plan) == Specs(plan);
      ghost var done;
      failed, trace, done := saving.Mutate(0, 0, builders[0].mutation, cur, opts, [], plan, Specs(plan), was);
    }

    /** Save with the given check, createSpec and defaults. */
    method SaveWith(fx: Effects, fill: Options -> Options)
      returns (r: Result<seq<APIKey?>, CreateError>, trace: seq<Event>, ghost final: Saving)
      requires err == None && builders != []
      requires forall o :: fill(fill(o)) == fill(o)
      modifies Held(builders)`options, (set b | b in builders)`mutation, Reachable(builders)`done,
        Reachable(builders)`idOf, driver`log
      ensures Known(builders, old(Pointers(builders)), old(OptionsAfter(builders, fill)))
      ensures fresh(final) && final.fx == fx
      ensures OptionsAre(old(OptionsAfter(builders, fill)))
      ensures Finished(final, r, trace, old(Pointers(builders)), old(OptionsAfter(builders, fill)),
                       old(Marking(builders)), old(driver.log))
    {
      ghost var cur, opts, was := RunDefaults(builders, fill);
      var saving := new Saving(builders, driver, conflict, fx);
      var failed;
      failed, trace := Start(saving, cur, opts, was);
      final := saving;
      r := match failed case Some(e) => Failure(e) case None => Success(saving.nodes);
    }

    /** Save: a stored error is returned as it is, no builders means no call. */
    method Save(env: Env)
      returns (r: Result<seq<APIKey?>, CreateError>, trace: seq<Event>, ghost final: Option<Saving>)
      modifies Held(builders)`options, (set b | b in builders)`mutation, Reachable(builders)`done,
        Reachable(builders)`idOf, driver`log
      ensures err.Some? || builders == [] ==>
        && r == (if err.Some? then Failure(BuilderError(err.value)) else Success([]))
        && trace == [] && driver.log == old(driver.log)
        && Pointers(builders) == old(Pointers(builders)) && Marking(builders) == old(Marking(builders))
        && OptionsAfter(builders, o => o) == old(OptionsAfter(builders, o => o))
      ensures err == None ==>
        && (forall x :: x in old(Held(builders)) ==> x.options == Defaults(old(x.options), env).0)
        && (forall x :: x in old(Reachable(builders)) && x !in old(Held(builders)) ==> x.options == old(x.options))
      ensures err == None && builders != [] ==>
        && Known(builders, old(Pointers(builders)), old(OptionsAfter(builders, Filling(env))))
        && final.Some? && final.value.fx == EffectsOf(env)
        && OptionsAre(old(OptionsAfter(builders, Filling(env))))
        && Finished(final.value, r, trace, old(Pointers(builders)), old(OptionsAfter(builders, Filling(env))),
                    old(Marking(builders)), old(driver.log))
    {
      trace, final := [], None;
      if err.Some? {
        return Failure(BuilderError(err.value)), trace, final;
      }
      if builders == [] {
        return Success([]), trace, final;
      }
      FillingIdempotent(env);
      ghost var saving;
      r, trace, saving := SaveWith(EffectsOf(env), Filling(env));
      final := Some(saving);
    }
  }

  /** What running defaults leaves of the options. */
  function Filling(env: Env): Options -> Options {
    o => Defaults(o, env).0
  }

  lemma FillingIdempotent(env: Env)
    ensures forall o :: Filling(env)(Filling(env)(o)) == Filling(env)(o)
  {
    forall o
      ensures Filling(env)(Filling(env)(o)) == Filling(env)(o)
    {
      FillIdempotent(DEFAULTED, o, env);
    }
  }

  // ---- upsert ---------------------------------------------------------------------

  datatype UpsertError = Builders(code: int) | ConflictOnBuilder(i: nat) | MissingOptions | Saving(e: CreateError)

  class APIKeyUpsertBulk {
    const create: APIKeyCreateBulk

    constructor (create: APIKeyCreateBulk)
      ensures this.create == create
    {
      this.create := create;
    }

    /** Builder i is the first with conflict options of its own. */
    predicate FirstConflict(i: nat) {
      && i < |create.builders| && create.builders[i].conflict != []
      && forall k :: 0 <= k < i ==> create.builders[k].conflict == []
    }

    /** The bulk has conflict options and none of its builders has any. */
    predicate Open() {
      && create.err == None && create.conflict != []
      && forall b :: b in create.builders ==> b.conflict == []
    }

    /** Exec is Save behind this test. When the test fails nothing is touched and the
        first builder with options of its own is reported. */
    method Exec(env: Env)
      returns (error: Option<UpsertError>, trace: seq<Event>, ghost r: Result<seq<APIKey?>, CreateError>,
               ghost final: Option<Saving>)
      modifies Held(create.builders)`options, (set b | b in create.builders)`mutation,
        Reachable(create.builders)`done, Reachable(create.builders)`idOf, create.driver`log
      ensures Open() ==> error == match r case Failure(e) => Some(UpsertError.Saving(e)) case Success(_) => None
      ensures Open() && create.builders != [] ==>
        && Known(create.builders, old(Pointers(create.builders)), old(OptionsAfter(create.builders, Filling(env))))
        && final.Some? && final.value.fx == EffectsOf(env)
        && create.Finished(final.value, r, trace, old(Pointers(create.builders)),
                           old(OptionsAfter(create.builders, Filling(env))), old(Marking(create.builders)),
                           old(create.driver.log))
      ensures !Open() || create.builders == [] ==> create.driver.log == old(create.driver.log)
      ensures !Open() ==>
        && Marking(create.builders) == old(Marking(create.builders))
        && Pointers(create.builders) == old(Pointers(create.builders))
        && OptionsAfter(create.builders, o => o) == old(OptionsAfter(create.builders, o => o))
      ensures !Open() ==> error.Some? && match error.value
        case Builders(code) => create.err == Some(code)
        case ConflictOnBuilder(i) => create.err == None && FirstConflict(i)
        case MissingOptions => create.err == None && create.conflict == []
        case Saving(_) => false
    {
      trace, r, final := [], Success([]), None;
      if create.err.Some? {
        return Some(Builders(create.err.value)), trace, r, final;
      }
      for i := 0 to |create.builders|
        invariant forall k :: 0 <= k < i ==> create.builders[k].conflict == []
      {
        if |create.builders[i].conflict| != 0 {
          return Some(ConflictOnBuilder(i)), trace, r, final;
        }
      }
      if |create.conflict| == 0 {
        return Some(MissingOptions), trace, r, final;
      }
      var saved;
      saved, trace, final := create.Save(env);
      r := saved;
      error := if saved.Failure? then Some(UpsertError.Saving(saved.error)) else None;
    }
  }
}
