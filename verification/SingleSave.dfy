/** APIKeyCreate.Save of backend/ent/apikey_create.go with withHooks of
    backend/ent/ent.go, and how it compares to a bulk save of one builder. A single
    insert is a batch insert of one spec. */
module SingleSave {
  import opened BulkCreate
  import opened BulkLaws
  import opened BulkSave
  import opened CreateChecks
  import opened MutatorChain
  import opened RowMapping
  import opened Schema
  import opened Wrappers

  /** Options for every mutation a builder's hooks hand on, and for its own. */
  ghost predicate KnownTo(hooks: seq<Hook>, own: Mutation, opts: map<Mutation, Options>) {
    own in opts && forall j :: 0 <= j < |hooks| && hooks[j].HandOn? ==> hooks[j].m in opts
  }

  lemma {:induction false} HandedIn(hooks: seq<Hook>, h: nat, m: Mutation, own: Mutation, opts: map<Mutation, Options>)
    requires h <= |hooks| && m in opts && KnownTo(hooks, own, opts)
    ensures Handed(hooks, h, m) in opts
    decreases |hooks| - h
  {
    if h < |hooks| {
      HandedIn(hooks, h + 1, HandedBy(hooks[h], m), own, opts);
    }
  }

  /** The builder's own frame: whatever its hooks hand on is copied into its own
      mutation before the check. */
  ghost function OwnFrame(own: Mutation, o: Options, fx: Effects): Frame<Mutation> {
    BaseFrame(0, fx.check(o), own, fx.spec(o))
  }

  ghost function SinglePlan(hooks: seq<Hook>, h: nat, own: Mutation, o: Options, fx: Effects): seq<Frame<Mutation>>
    requires h <= |hooks|
  {
    HookFrames(0, hooks, h) + [OwnFrame(own, o, fx)]
  }

  /** No hook from h on refuses before its inner call. */
  ghost predicate Reached(hooks: seq<Hook>, h: nat)
    requires h <= |hooks|
  {
    forall j :: h <= j < |hooks| ==> !hooks[j].RejectBefore?
  }

  /** A single insert that succeeds reports an identity. */
  ghost predicate Identifies(respond: seq<Spec> -> Result<seq<Option<int>>, DbError>) {
    forall s :: respond([s]).Success? ==> IdAt(respond([s]).value, 0).Some?
  }

  /** check, createSpec, insert, then mark the builder's own mutation. */
  method SqlSave(own: Mutation, conflict: seq<int>, driver: Driver, fx: Effects)
    returns (err: Option<CreateError>, trace: seq<Event>, node: APIKey?)
    requires Identifies(driver.respond)
    modifies own`idOf, own`done, driver`log
    ensures var o := old(own.options);
      var failed := Inserting(driver.respond)([fx.spec(o)]);
      && err == (if fx.check(o).Some? then fx.check(o) else failed)
      && trace == (if fx.check(o) == None then [Insert([fx.spec(o)])] else [])
      && driver.log == old(driver.log) + (if fx.check(o) == None then [BatchCall([fx.spec(o)], conflict)] else [])
      && (err == None ==>
            && node != null && fresh(node) && own.idOf == node && own.done
            && node.data == WithId(fx.node(o), NewId(driver.respond([fx.spec(o)]), 0)))
      && (err.Some? ==> own.idOf == old(own.idOf) && own.done == old(own.done))
  {
    node, trace := null, [];
    err := fx.check(own.options);
    if err.Some? {
      return;
    }
    var created := new APIKey();
    created.data := fx.node(own.options);
    var spec := new SpecObject(fx.spec(own.options));
    assert SpecValues([spec]) == [fx.spec(own.options)];
    var failed := driver.BatchCreate([spec], conflict);
    trace := [Insert(SpecValues([spec]))];
    if failed.Some? {
      return Some(Wrapped(failed.value)), trace, null;
    }
    assert [spec][0].id.Some?;
    created.data := created.data.(id := spec.id.value);
    own.idOf := created;
    own.done := true;
    node := created;
  }

  lemma OwnFrameRuns(base: Frame<Mutation>, insert: seq<Spec> -> Option<CreateError>)
    requires base.BaseFrame?
    ensures Block([base]) == base.failure && Specs([base]) == [base.spec]
    ensures Run([base], [], insert) ==
      if base.failure.Some? then Outcome(base.failure, [], {})
      else Outcome(insert([base.spec]), [Insert([base.spec])], if insert([base.spec]) == None then {base.i} else {})
  {
    assert [base][1..] == [];
    assert [] + [base.spec] == [base.spec];
  }

  /** The hooks from h on around the save, given mutation m. */
  method Mutate(hooks: seq<Hook>, h: nat, own: Mutation, m: Mutation, conflict: seq<int>, driver: Driver, fx: Effects,
                ghost opts: map<Mutation, Options>, ghost plan: seq<Frame<Mutation>>)
    returns (err: Option<CreateError>, trace: seq<Event>, node: APIKey?, ghost done: set<nat>)
    requires Identifies(driver.respond)
    requires h <= |hooks| && m in opts && KnownTo(hooks, own, opts)
    requires forall x :: x in opts ==> x.options == opts[x]
    requires Handed(hooks, h, m) in opts && plan == SinglePlan(hooks, h, own, opts[Handed(hooks, h, m)], fx)
    modifies own, driver`log
    ensures Run(plan, [], Inserting(driver.respond)) == Outcome(err, trace, done)
    ensures driver.log == old(driver.log) + (if Block(plan) == None then [BatchCall(Specs(plan), conflict)] else [])
    ensures own.options == if Reached(hooks, h) then opts[Handed(hooks, h, m)] else old(own.options)
    ensures done <= {0}
    ensures 0 in done ==>
      && node != null && fresh(node) && own.idOf == node && own.done
      && node.data == WithId(fx.node(opts[Handed(hooks, h, m)]), NewId(driver.respond(Specs(plan)), 0))
    ensures 0 !in done ==>
      && err.Some?
      && own.done == if Reached(hooks, h) then old(Handed(hooks, h, m).done) else old(own.done)
    decreases |hooks| - h
  {
    if h == |hooks| {
      own.options, own.idOf, own.done := m.options, m.idOf, m.done;
      err, trace, node := SqlSave(own, conflict, driver, fx);
      ghost var base := OwnFrame(own, opts[m], fx);
      assert plan == [base];
      OwnFrameRuns(base, Inserting(driver.respond));
      done := if err == None then {0} else {};
    } else {
      var hook := hooks[h];
      ghost var f := HookFrame(0, h, KindOfHook(hook));
      ghost var rest := SinglePlan(hooks, h + 1, own, opts[Handed(hooks, h, m)], fx);
      assert plan == [f] + rest;
      HookRuns(f, rest, [], Inserting(driver.respond));
      node := null;
      if hook.RejectBefore? {
        return Some(Rejected(hook.code)), [Enter(0, h), Exit(0, h)], null, {};
      }
      err, trace, node, done := Mutate(hooks, h + 1, own, HandedBy(hook, m), conflict, driver, fx, opts, rest);
      trace := [Enter(0, h)] + trace + [Exit(0, h)];
      if err == None && hook.RejectAfter? {
        err := Some(Rejected(hook.code));
      }
    }
  }

  /** What a single save that ran its plan has done: it returned the run's error and
      node, called the database at most once and only when nothing stopped the descent,
      and marked its own mutation exactly when the run left the builder done. was tells
      whether the mutation that is copied, or kept, was done before. */
  ghost predicate Concluded(hooks: seq<Hook>, own: Mutation, conflict: seq<int>, driver: Driver, fx: Effects,
                            opts: map<Mutation, Options>, was: bool, log: seq<BatchCall>,
                            err: Option<CreateError>, trace: seq<Event>, node: APIKey?, done: set<nat>)
    requires own in opts && Handed(hooks, 0, own) in opts
    reads own, driver`log, if node == null then {} else {node}
  {
    var saved := Handed(hooks, 0, own);
    var plan := SinglePlan(hooks, 0, own, opts[saved], fx);
    && Run(plan, [], Inserting(driver.respond)) == Outcome(err, trace, done)
    && driver.log == log + (if Block(plan) == None then [BatchCall(Specs(plan), conflict)] else [])
    && own.options == (if Reached(hooks, 0) then opts[saved] else opts[own])
    && done <= {0}
    && (0 in done ==>
          && node != null && own.idOf == node && own.done
          && node.data == WithId(fx.node(opts[saved]), NewId(driver.respond(Specs(plan)), 0)))
    && (0 !in done ==> err.Some? && own.done == was)
  }

  /** Save: an error of defaults is returned, keeping what was filled before it. */
  method Save(b: Builder, driver: Driver, env: Env, ghost opts: map<Mutation, Options>)
    returns (err: Option<CreateError>, trace: seq<Event>, node: APIKey?, ghost done: set<nat>)
    requires Identifies(driver.respond)
    requires KnownTo(b.hooks, b.mutation, opts)
    requires forall x :: x in opts ==> opts[x] == if x == b.mutation then Defaults(x.options, env).0 else x.options
    requires Handed(b.hooks, 0, b.mutation) in opts
    modifies b.mutation, driver`log
    ensures b.mutation == old(b.mutation)
    ensures var own, failed := b.mutation, Defaults(old(b.mutation.options), env).1;
      failed.Some? ==>
        && err == failed && driver.log == old(driver.log)
        && own.options == opts[own] && own.done == old(own.done) && own.idOf == old(own.idOf)
    ensures var own, saved := b.mutation, Handed(b.hooks, 0, b.mutation);
      Defaults(old(b.mutation.options), env).1 == None ==>
        Concluded(b.hooks, own, b.conflict, driver, EffectsOf(env), opts,
                  if Reached(b.hooks, 0) then old(saved.done) else old(own.done), old(driver.log),
                  err, trace, node, done)
  {
    var filled := Defaults(b.mutation.options, env);
    b.mutation.options := filled.0;
    err, trace, node, done := filled.1, [], null, {};
    if err == None {
      ghost var plan := SinglePlan(b.hooks, 0, b.mutation, opts[Handed(b.hooks, 0, b.mutation)], EffectsOf(env));
      err, trace, node, done := Mutate(b.hooks, 0, b.mutation, b.mutation, b.conflict, driver,
                                       EffectsOf(env), opts, plan);
    }
  }

  // ---- one builder, saved alone and in bulk -----------------------------------------

  /** Hooks turn two inner runs into equal runs exactly when one of them refuses first
      or the inner runs are equal, if an inner run that differs shows in its trace or
      in its error. */
  lemma {:induction false} HooksAround(hooks: seq<Hook>, h: nat, x: seq<Frame<Mutation>>, y: seq<Frame<Mutation>>,
                                       insert: seq<Spec> -> Option<CreateError>)
    requires h <= |hooks|
    requires var a, b := Run(x, [], insert), Run(y, [], insert);
      a == b || a.trace != b.trace || (a.err.Some? && b.err.Some? && a.err != b.err)
    ensures var a, b := Run(HookFrames(0, hooks, h) + x, [], insert), Run(HookFrames(0, hooks, h) + y, [], insert);
      && (a == b || a.trace != b.trace || (a.err.Some? && b.err.Some? && a.err != b.err))
      && (a == b <==> !Reached(hooks, h) || Run(x, [], insert) == Run(y, [], insert))
    decreases |hooks| - h
  {
    if h == |hooks| {
      assert HookFrames(0, hooks, h) + x == x && HookFrames(0, hooks, h) + y == y;
    } else {
      var f := HookFrame(0, h, KindOfHook(hooks[h]));
      var restX, restY := HookFrames(0, hooks, h + 1) + x, HookFrames(0, hooks, h + 1) + y;
      assert HookFrames(0, hooks, h) + x == [f] + restX;
      assert HookFrames(0, hooks, h) + y == [f] + restY;
      HooksAround(hooks, h + 1, x, y, insert);
      HookRuns(f, restX, [], insert);
      HookRuns(f, restY, [], insert);
      var a, b := Run(restX, [], insert), Run(restY, [], insert);
      SameMiddle(Enter(0, h), a.trace, b.trace, Exit(0, h));
    }
  }

  lemma SameMiddle(first: Event, a: seq<Event>, b: seq<Event>, last: Event)
    ensures [first] + a + [last] == [first] + b + [last] <==> a == b
  {
    assert ([first] + a + [last])[1..|a| + 1] == a;
    assert ([first] + b + [last])[1..|b| + 1] == b;
  }

  /** A bulk save of one builder and that builder's own save run alike, with the same
      error, trace and database call, exactly when some hook refuses first or check says
      the same of the mutation the builder holds and of the one its hooks hand on: bulk
      checks the former, the single save the latter. */
  lemma BulkOfOneAgrees(b: Builder, own: Mutation, opts: map<Mutation, Options>, fx: Effects,
                        insert: seq<Spec> -> Option<CreateError>)
    requires Known([b], map[b := own], opts)
    ensures var saved := Handed(b.hooks, 0, own);
      && saved in opts
      && (Run(SinglePlan(b.hooks, 0, own, opts[saved], fx), [], insert)
            == Run(WholePlan([b], map[b := own], opts, fx), [], insert) <==>
          !Reached(b.hooks, 0) || fx.check(opts[own]) == fx.check(opts[saved]))
      && Specs(SinglePlan(b.hooks, 0, own, opts[saved], fx)) == Specs(WholePlan([b], map[b := own], opts, fx))
  {
    var cur := map[b := own];
    assert b in [b] && cur[b] == own;
    HooksThenBuilder([b], 0, 0, own, cur, opts, fx);
    var saved := Handed(b.hooks, 0, own);
    var x, y := OwnFrame(own, opts[saved], fx), Base(0, own, saved, opts, fx);
    assert WholePlan([b], cur, opts, fx) == HookFrames(0, b.hooks, 0) + [y];
    OwnFrameRuns(x, insert);
    OwnFrameRuns(y, insert);
    HooksAround(b.hooks, 0, [x], [y], insert);
    BlockConcat(HookFrames(0, b.hooks, 0), [x]);
    BlockConcat(HookFrames(0, b.hooks, 0), [y]);
  }

  /** Runs that agree still mark different mutations: the single save its own, bulk the
      one that was handed on. They mark the builder's own mutation alike exactly when
      nothing is marked or nothing else was handed on. */
  lemma BulkOfOneMarks(b: Builder, own: Mutation, opts: map<Mutation, Options>, fx: Effects,
                       insert: seq<Spec> -> Option<CreateError>)
    requires Known([b], map[b := own], opts)
    ensures var saved := Handed(b.hooks, 0, own);
      && saved in opts
      && var single, bulk := SinglePlan(b.hooks, 0, own, opts[saved], fx), WholePlan([b], map[b := own], opts, fx);
         var out := Run(single, [], insert);
         Run(bulk, [], insert) == out ==>
           ((Marked(single, out.done, own) <==> Marked(bulk, out.done, own)) <==> (0 !in out.done || saved == own))
  {
    var cur := map[b := own];
    assert b in [b] && cur[b] == own;
    HooksThenBuilder([b], 0, 0, own, cur, opts, fx);
    var saved := Handed(b.hooks, 0, own);
    var x, y := OwnFrame(own, opts[saved], fx), Base(0, own, saved, opts, fx);
    assert WholePlan([b], cur, opts, fx) == HookFrames(0, b.hooks, 0) + [y];
    var done := Run(SinglePlan(b.hooks, 0, own, opts[saved], fx), [], insert).done;
    OneMarks(b.hooks, x, done, own);
    OneMarks(b.hooks, y, done, own);
  }

  lemma OneMarks(hooks: seq<Hook>, base: Frame<Mutation>, done: set<nat>, x: Mutation)
    requires base.BaseFrame?
    ensures Marked(HookFrames(0, hooks, 0) + [base], done, x) <==> base.i in done && base.m == x
  {
    var plan := HookFrames(0, hooks, 0) + [base];
    assert forall k :: 0 <= k < |hooks| ==> plan[k].HookFrame?;
    assert plan[|hooks|] == base;
  }

  // Two builders with the same hooks and equal options, one saved alone and one in bulk.

  /** Both builders' mutations, and the mutations their hooks hand on, hold equal options. */
  ghost predicate SameOptions(hooks: seq<Hook>, a: Mutation, opts: map<Mutation, Options>, b: Mutation,
                              others: map<Mutation, Options>)
    requires KnownTo(hooks, a, opts) && KnownTo(hooks, b, others)
  {
    && opts[a] == others[b]
    && forall j :: 0 <= j < |hooks| && hooks[j].HandOn? ==> opts[hooks[j].m] == others[hooks[j].m]
  }

  lemma {:induction false} HandedAlike(hooks: seq<Hook>, h: nat, a: Mutation, opts: map<Mutation, Options>, b: Mutation,
                                       others: map<Mutation, Options>, m: Mutation, n: Mutation)
    requires h <= |hooks| && KnownTo(hooks, a, opts) && KnownTo(hooks, b, others)
    requires SameOptions(hooks, a, opts, b, others)
    requires m in opts && n in others && opts[m] == others[n]
    ensures Handed(hooks, h, m) in opts && Handed(hooks, h, n) in others
    ensures opts[Handed(hooks, h, m)] == others[Handed(hooks, h, n)]
    decreases |hooks| - h
  {
    if h < |hooks| {
      HandedAlike(hooks, h + 1, a, opts, b, others, HandedBy(hooks[h], m), HandedBy(hooks[h], n));
    }
  }

  /** The plan of a single save depends on its mutation only through the options that
      are handed on, and on nothing else where it runs. */
  lemma SamePlanRuns(hooks: seq<Hook>, a: Mutation, b: Mutation, o: Options, fx: Effects,
                     insert: seq<Spec> -> Option<CreateError>)
    ensures Run(SinglePlan(hooks, 0, a, o, fx), [], insert) == Run(SinglePlan(hooks, 0, b, o, fx), [], insert)
    ensures Specs(SinglePlan(hooks, 0, a, o, fx)) == Specs(SinglePlan(hooks, 0, b, o, fx))
  {
    var x, y := OwnFrame(a, o, fx), OwnFrame(b, o, fx);
    OwnFrameRuns(x, insert);
    OwnFrameRuns(y, insert);
    HooksAround(hooks, 0, [x], [y], insert);
    BlockConcat(HookFrames(0, hooks, 0), [x]);
    BlockConcat(HookFrames(0, hooks, 0), [y]);
  }

  /** A single save: the mutation of its builder, the options after defaults, whether the
      mutation it copies was done, and what Save returned and logged. */
  datatype Alone = Alone(own: Mutation, opts: map<Mutation, Options>, was: bool, conflict: seq<int>, driver: Driver,
                         log: seq<BatchCall>, err: Option<CreateError>, trace: seq<Event>, node: APIKey?, done: set<nat>)

  ghost predicate SavedAlone(hooks: seq<Hook>, fx: Effects, s: Alone)
    reads s.own, s.driver`log, if s.node == null then {} else {s.node}
  {
    && KnownTo(hooks, s.own, s.opts) && Handed(hooks, 0, s.own) in s.opts
    && Concluded(hooks, s.own, s.conflict, s.driver, fx, s.opts, s.was, s.log, s.err, s.trace, s.node, s.done)
  }

  /** A bulk save of one builder, in the same way. */
  datatype Bulk = Bulk(own: Mutation, opts: map<Mutation, Options>, was: Snapshot, create: APIKeyCreateBulk,
                       final: Saving, log: seq<BatchCall>, r: Result<seq<APIKey?>, CreateError>, trace: seq<Event>)

  ghost predicate SavedInBulk(b: Builder, fx: Effects, s: Bulk)
    reads s.create.driver`log, s.final`nodes, s.opts.Keys`done, s.opts.Keys`idOf, s.final.NodeSet()`data
  {
    && s.create.builders == [b] && s.final.fx == fx
    && Known([b], map[b := s.own], s.opts) && KnownTo(b.hooks, s.own, s.opts)
    && s.create.Finished(s.final, s.r, s.trace, map[b := s.own], s.opts, s.was, s.log)
  }

  /** The insert was made, and it succeeded. */
  ghost predicate InsertSucceeds(plan: seq<Frame<Mutation>>, driver: Driver) {
    Block(plan) == None && driver.respond(Specs(plan)).Success?
  }

  /** A builder saved alone and one with the same hooks and options saved in bulk, where
      check says the same of what is held and of what is handed on. They have the same
      success or error and the same trace. Where the insert is made and succeeds, also if
      a hook then refuses, their nodes have the same contents and identity; alone, the
      builder's own mutation is done and refers to its node, and in bulk the one handed
      on does, so the builder's own only if it is the same. Otherwise nothing is marked. */
  lemma AloneOrInBulk(b: Builder, fx: Effects, alone: Alone, bulk: Bulk)
    requires SavedAlone(b.hooks, fx, alone) && SavedInBulk(b, fx, bulk)
    requires SameOptions(b.hooks, alone.own, alone.opts, bulk.own, bulk.opts)
    requires alone.driver.respond == bulk.create.driver.respond
    requires Handed(b.hooks, 0, bulk.own) in bulk.opts
    requires !Reached(b.hooks, 0)
      || fx.check(bulk.opts[bulk.own]) == fx.check(bulk.opts[Handed(b.hooks, 0, bulk.own)])
    ensures bulk.trace == alone.trace
    ensures match bulk.r case Success(nodes) => alone.err == None && nodes == bulk.final.nodes
                         case Failure(e) => alone.err == Some(e)
    ensures alone.err == None ==> 0 in alone.done
    ensures 0 in alone.done <==> InsertSucceeds(WholePlan([b], map[b := bulk.own], bulk.opts, fx), bulk.create.driver)
    ensures bulk.own in bulk.was.done && Handed(b.hooks, 0, bulk.own) in bulk.was.done
    ensures 0 in alone.done ==>
      && |bulk.final.nodes| == 1 && alone.node != null && bulk.final.nodes[0] != null
      && bulk.final.nodes[0].data == alone.node.data
      && alone.own.done && alone.own.idOf == alone.node
      && var saved := Handed(b.hooks, 0, bulk.own);
         && saved.done && saved.idOf == bulk.final.nodes[0]
         && (bulk.own.done <==> bulk.was.done[bulk.own] || saved == bulk.own)
    ensures 0 !in alone.done ==>
      && alone.own.done == alone.was
      && bulk.own.done == bulk.was.done[bulk.own]
      && Handed(b.hooks, 0, bulk.own).done == bulk.was.done[Handed(b.hooks, 0, bulk.own)]
  {
    var insert, saved := Inserting(alone.driver.respond), Handed(b.hooks, 0, bulk.own);
    HandedAlike(b.hooks, 0, alone.own, alone.opts, bulk.own, bulk.opts, alone.own, bulk.own);
    SamePlanRuns(b.hooks, alone.own, bulk.own, bulk.opts[saved], fx, insert);
    BulkOfOneAgrees(b, bulk.own, bulk.opts, fx, insert);
    DoneOfOne(b, bulk.own, bulk.opts, fx, bulk.create.driver);
    MarkedInBulk(b, fx, bulk);
  }

  /** The builder of a bulk of one is done exactly when its insert is made and succeeds. */
  lemma DoneOfOne(b: Builder, own: Mutation, opts: map<Mutation, Options>, fx: Effects, driver: Driver)
    requires Known([b], map[b := own], opts)
    ensures var plan := WholePlan([b], map[b := own], opts, fx);
      var out := Run(plan, [], Inserting(driver.respond));
      && (0 in out.done <==> InsertSucceeds(plan, driver))
      && (out.err == None ==> 0 in out.done)
  {
    var cur, insert := map[b := own], Inserting(driver.respond);
    var plan := WholePlan([b], cur, opts, fx);
    assert b in [b] && cur[b] == own;
    HooksThenBuilder([b], 0, 0, own, cur, opts, fx);
    var base := Base(0, own, Handed(b.hooks, 0, own), opts, fx);
    assert plan == HookFrames(0, b.hooks, 0) + [base];
    assert plan[|b.hooks|] == base && plan[|b.hooks| + 1..] == [];
    assert DoneAt(plan, 0);
    RunError(plan, [], insert);
    RunDone(plan, [], insert);
    assert [] + Specs(plan) == Specs(plan);
  }

  lemma MarkedInBulk(b: Builder, fx: Effects, s: Bulk)
    requires SavedInBulk(b, fx, s) && Handed(b.hooks, 0, s.own) in s.opts
    ensures var plan := WholePlan([b], map[b := s.own], s.opts, fx);
      var done := Run(plan, [], Inserting(s.create.driver.respond)).done;
      var saved := Handed(b.hooks, 0, s.own);
      && s.own in s.was.done && saved in s.was.done
      && (s.own.done <==> s.was.done[s.own] || (0 in done && saved == s.own))
      && (saved.done <==> s.was.done[saved] || 0 in done)
      && (0 in done ==>
            && |s.final.nodes| == 1 && saved.idOf == s.final.nodes[0]
            && IsCreated(s.final.nodes[0], s.opts[saved], fx, NewId(s.create.driver.respond(Specs(plan)), 0)))
  {
    var cur, saved := map[b := s.own], Handed(b.hooks, 0, s.own);
    var plan := WholePlan([b], cur, s.opts, fx);
    var done := Run(plan, [], Inserting(s.create.driver.respond)).done;
    assert b in [b] && cur[b] == s.own;
    MarksOfOne(b, s.own, s.opts, fx, done);
    assert s.final.MutationMarked(s.was, plan, done, saved);
    assert s.final.MutationMarked(s.was, plan, done, s.own);
    if 0 in done {
      NodeOfOne(b, s.own, s.opts, fx, s.final, s.was, done, s.create.driver.respond(Specs(plan)));
    }
  }

  lemma NodeOfOne(b: Builder, own: Mutation, opts: map<Mutation, Options>, fx: Effects, final: Saving, was: Snapshot,
                  done: set<nat>, answer: Result<seq<Option<int>>, DbError>)
    requires Known([b], map[b := own], opts) && 0 in done && final.fx == fx && Handed(b.hooks, 0, own) in opts
    requires var plan := WholePlan([b], map[b := own], opts, fx);
      final.NodesCreated(plan, done, answer, opts) && final.MutationsMarked(was, plan, done, opts)
    ensures |final.nodes| > 0 && Handed(b.hooks, 0, own).idOf == final.nodes[0]
    ensures IsCreated(final.nodes[0], opts[Handed(b.hooks, 0, own)], fx, NewId(answer, 0))
  {
    var cur, saved := map[b := own], Handed(b.hooks, 0, own);
    var plan := WholePlan([b], cur, opts, fx);
    assert b in [b] && cur[b] == own && Saved([b], 0, cur, 0) == saved;
    PlanInOrder([b], 0, cur, opts, fx);
    PlanCovers([b], 0, 0, own, cur, opts, fx);
    MarksOfOne(b, own, opts, fx, done);
    NodeOfFrame(final, plan, [b], cur, opts, was, done, answer, 0);
    OwnerIsLeast(plan, [b], cur, done, 0);
  }

  /** A bulk of one marks the mutation that was handed on, and no other. */
  lemma MarksOfOne(b: Builder, other: Mutation, others: map<Mutation, Options>, fx: Effects, done: set<nat>)
    requires Known([b], map[b := other], others)
    ensures forall x ::
      (Marked(WholePlan([b], map[b := other], others, fx), done, x) <==> 0 in done && x == Handed(b.hooks, 0, other))
  {
    var cur := map[b := other];
    assert b in [b] && cur[b] == other;
    HooksThenBuilder([b], 0, 0, other, cur, others, fx);
    var y := Base(0, other, Handed(b.hooks, 0, other), others, fx);
    assert WholePlan([b], cur, others, fx) == HookFrames(0, b.hooks, 0) + [y];
    forall x
      ensures Marked(WholePlan([b], cur, others, fx), done, x) <==> 0 in done && x == Handed(b.hooks, 0, other)
    {
      OneMarks(b.hooks, y, done, x);
    }
  }

  /** In particular they agree when no hook hands on another mutation; then both mark
      the mutation the builder holds. */
  lemma BulkOfOneSameMutation(b: Builder, own: Mutation, opts: map<Mutation, Options>, fx: Effects,
                              insert: seq<Spec> -> Option<CreateError>)
    requires Known([b], map[b := own], opts) && !HandsOn(b.hooks)
    ensures var cur := map[b := own];
      && b in cur && own in opts
      && SinglePlan(b.hooks, 0, own, opts[own], fx) == WholePlan([b], cur, opts, fx)
  {
    var cur := map[b := own];
    assert b in [b] && cur[b] == own;
    NothingHanded(b.hooks, 0, own);
    HooksThenBuilder([b], 0, 0, own, cur, opts, fx);
  }

  /** When defaults fails, both saves fail, but bulk reports another error. */
  lemma DefaultErrorsDiffer(b: Builder, own: Mutation, o: Options, opts: map<Mutation, Options>, env: Env,
                            insert: seq<Spec> -> Option<CreateError>)
    requires Known([b], map[b := own], opts) && own in opts && opts[own] == Defaults(o, env).0
    requires Defaults(o, env).1.Some?
    ensures var out := Run(WholePlan([b], map[b := own], opts, EffectsOf(env)), [], insert);
      out.err.Some? && out.err != Defaults(o, env).1 && out.done == {}
  {
    var cur, fx := map[b := own], EffectsOf(env);
    assert b in [b] && cur[b] == own;
    DroppedDefaultErrorIsCaught(o, env);
    FillSpec(DEFAULTED, o, env);
    var plan := WholePlan([b], cur, opts, fx);
    HooksThenBuilder([b], 0, 0, own, cur, opts, fx);
    var y := Base(0, own, Handed(b.hooks, 0, own), opts, fx);
    assert plan == HookFrames(0, b.hooks, 0) + [y];
    BlockConcat(HookFrames(0, b.hooks, 0), [y]);
    OwnFrameRuns(y, insert);
    RunError(plan, [], insert);
    RunDone(plan, [], insert);
    HooksOnlyReject(0, b.hooks, 0);
    CheckNeverUninitialized(Defaults(o, env).0, env);
  }

  lemma {:induction false} HooksOnlyReject(i: nat, hooks: seq<Hook>, h: nat)
    requires h <= |hooks|
    ensures Block(HookFrames(i, hooks, h)).Some? ==> Block(HookFrames(i, hooks, h)).value.Rejected?
    decreases |hooks| - h
  {
    if h < |hooks| {
      assert HookFrames(i, hooks, h) == [HookFrame(i, h, KindOfHook(hooks[h]))] + HookFrames(i, hooks, h + 1);
      HooksOnlyReject(i, hooks, h + 1);
    }
  }

  lemma CheckNeverUninitialized(o: Options, env: Env)
    ensures Check(o, env).Some? ==> !Check(o, env).value.Uninitialized?
  {
    FirstErrorSpec(RULES, o, env);
  }

  // ---- hooks that only wrap -----------------------------------------------------------

  /** Around a builder's own frame, hooks that only wrap change neither what stops the
      save nor what is inserted. */
  lemma WrappedPlan(hooks: seq<Hook>, base: Frame<Mutation>, insert: seq<Spec> -> Option<CreateError>)
    requires base.BaseFrame? && forall j :: 0 <= j < |hooks| ==> hooks[j] == Pass
    ensures var plan := HookFrames(0, hooks, 0) + [base];
      && Block(plan) == base.failure && Specs(plan) == [base.spec]
      && Run(plan, [], insert).err == (if base.failure.Some? then base.failure else insert([base.spec]))
      && (0 in Run(plan, [], insert).done <==> base.i == 0 && Run(plan, [], insert).err == None)
  {
    var frames := HookFrames(0, hooks, 0);
    var plan := frames + [base];
    HooksBlock(0, hooks);
    HooksUndo(0, hooks);
    NoSpecs(frames);
    BlockConcat(frames, [base]);
    UndoConcat(frames, [base]);
    OwnFrameRuns(base, insert);
    RunError(plan, [], insert);
    RunDone(plan, [], insert);
    assert [] + Specs(plan) == Specs(plan);
    assert plan[|hooks|] == base && plan[|hooks| + 1..] == [];
  }

  /** A single save with hooks that only wrap, under the rules of check: the database is
      asked, once and with the spec of the options, exactly when they pass check; the save
      succeeds exactly when the insert does too, and else reports check's complaint or the
      database's. On success the node is createSpec's with the identity the database
      reported, and the builder's own mutation is done and refers to it; on an error it is
      done only if it was before. */
  lemma WrappedSingle(hooks: seq<Hook>, env: Env, s: Alone)
    requires SavedAlone(hooks, EffectsOf(env), s) && forall j :: 0 <= j < |hooks| ==> hooks[j] == Pass
    ensures s.own in s.opts
    ensures var o := s.opts[s.own];
      var refused, answer := Check(o, env), s.driver.respond([SpecOf(o)]);
      && s.driver.log == s.log + (if refused == None then [BatchCall([SpecOf(o)], s.conflict)] else [])
      && s.err == (if refused.Some? then refused
                   else match answer
                     case Success(_) => None
                     case Failure(ConstraintViolation(code)) => Some(Constraint(code))
                     case Failure(OtherDbError(code)) => Some(Database(code)))
      && (s.err == None ==>
            && s.node != null && s.own.done && s.own.idOf == s.node
            && s.node.data.(id := 0) == NodeOf(o)
            && (answer.value != [] && answer.value[0].Some? ==> s.node.data.id == answer.value[0].value))
      && (s.err.Some? ==> s.own.done == s.was)
  {
    var o, fx, insert := s.opts[s.own], EffectsOf(env), Inserting(s.driver.respond);
    NothingHanded(hooks, 0, s.own);
    WrappedPlan(hooks, OwnFrame(s.own, o, fx), insert);
  }
}
