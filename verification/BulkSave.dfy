/** APIKeyCreateBulk.Save of backend/ent/apikey_create.go on builder, mutation, spec
    and node objects. Closures become a method that is told which builder and which
    of its hooks it is in; what it does is the run of the chain's plan. */
module BulkSave {
  import opened CreateChecks
  import opened MutatorChain
  import opened RowMapping
  import opened Schema
  import opened Wrappers

  /** idOf is the node whose ID field the mutation's id pointer refers to. */
  class Mutation {
    var options: Options
    var idOf: APIKey?
    var done: bool

    constructor (options: Options)
      ensures this.options == options && idOf == null && !done
    {
      this.options, idOf, done := options, null, false;
    }
  }

  /** Hooks: wrap only, refuse before or after the inner call, or hand another
      mutation of the same type to the inner call. The hook the repository registers for
      API keys lets creates pass. */
  datatype Hook = Pass | RejectBefore(code: int) | RejectAfter(code: int) | HandOn(m: Mutation)

  function KindOfHook(h: Hook): HookKind {
    match h
    case RejectBefore(code) => Before(code)
    case RejectAfter(code) => After(code)
    case _ => Through
  }

  function HandedBy(h: Hook, m: Mutation): Mutation {
    if h.HandOn? then h.m else m
  }

  class Builder {
    var mutation: Mutation
    const hooks: seq<Hook>
    const conflict: seq<int>

    constructor (mutation: Mutation, hooks: seq<Hook>, conflict: seq<int>)
      ensures this.mutation == mutation && this.hooks == hooks && this.conflict == conflict
    {
      this.mutation, this.hooks, this.conflict := mutation, hooks, conflict;
    }
  }

  /** A spec under construction; the insert fills in its identity. */
  class SpecObject {
    const spec: Spec
    var id: Option<int>

    constructor (spec: Spec)
      ensures this.spec == spec && id == None
    {
      this.spec, id := spec, None;
    }
  }

  function SpecValues(objects: seq<SpecObject>): seq<Spec> {
    seq(|objects|, k requires 0 <= k < |objects| => objects[k].spec)
  }

  function IdAt(ids: seq<Option<int>>, k: nat): Option<int> {
    if k < |ids| then ids[k] else None
  }

  datatype BatchCall = BatchCall(specs: seq<Spec>, conflict: seq<int>)

  /** The database: respond says what a batch insert answers, log what was asked. */
  class Driver {
    const respond: seq<Spec> -> Result<seq<Option<int>>, DbError>
    var log: seq<BatchCall>

    constructor (respond: seq<Spec> -> Result<seq<Option<int>>, DbError>)
      ensures this.respond == respond && log == []
    {
      this.respond, log := respond, [];
    }

    method BatchCreate(objects: seq<SpecObject>, conflict: seq<int>) returns (err: Option<DbError>)
      requires Distinct(objects)
      modifies this`log, (set o | o in objects)`id
      ensures log == old(log) + [BatchCall(SpecValues(objects), conflict)]
      ensures match respond(SpecValues(objects))
        case Failure(e) => err == Some(e)
        case Success(ids) => err == None && forall k :: 0 <= k < |objects| ==> objects[k].id == IdAt(ids, k)
    {
      log := log + [BatchCall(SpecValues(objects), conflict)];
      var answer := respond(SpecValues(objects));
      if answer.Failure? {
        return Some(answer.error);
      }
      for k := 0 to |objects|
        invariant log == old(log) + [BatchCall(SpecValues(objects), conflict)]
        invariant forall j :: 0 <= j < k ==> objects[j].id == IdAt(answer.value, j)
      {
        objects[k].id := IdAt(answer.value, k);
      }
      err := None;
    }
  }

  /** What check reports for, and createSpec makes of, the options of a mutation. The
      chain is proved for any such functions; Save runs it with check's rules and
      createSpec's results. */
  datatype Effects = Effects(check: Options -> Option<CreateError>, spec: Options -> Spec, node: Options -> Entity)

  function EffectsOf(env: Env): Effects {
    Effects(o => Check(o, env), SpecOf, NodeOf)
  }

  /** The pointers and options that decide a save: which mutation each builder holds
      and what is set on every mutation that can be handed on. */
  ghost predicate Known(bs: seq<Builder>, cur: map<Builder, Mutation>, opts: map<Mutation, Options>) {
    && (forall b :: b in bs ==> b in cur && cur[b] in opts)
    && (forall b, j :: b in bs && 0 <= j < |b.hooks| && b.hooks[j].HandOn? ==> b.hooks[j].m in opts)
  }

  /** The frames from hook h of builder i on, when that hook is given mutation m. A
      builder is checked on the mutation it holds and then takes the one it is given. */
  ghost function Plan(bs: seq<Builder>, i: nat, h: nat, m: Mutation, cur: map<Builder, Mutation>,
                      opts: map<Mutation, Options>, fx: Effects): seq<Frame<Mutation>>
    requires i <= |bs| && Known(bs, cur, opts) && m in opts
    requires i < |bs| ==> h <= |bs[i].hooks|
    decreases |bs| - i, if i < |bs| then |bs[i].hooks| - h else 0
  {
    if i == |bs| then []
    else if h < |bs[i].hooks| then
      [HookFrame(i, h, KindOfHook(bs[i].hooks[h]))]
      + Plan(bs, i, h + 1, HandedBy(bs[i].hooks[h], m), cur, opts, fx)
    else
      var next := cur[bs[i] := m];
      [BaseFrame(i, fx.check(opts[cur[bs[i]]]), m, fx.spec(opts[m]))]
      + Plan(bs, i + 1, 0, if i + 1 < |bs| then next[bs[i + 1]] else m, next, opts, fx)
  }

  /** The whole chain starts at builder 0's first hook with builder 0's mutation. */
  ghost function WholePlan(bs: seq<Builder>, cur: map<Builder, Mutation>, opts: map<Mutation, Options>, fx: Effects)
    : seq<Frame<Mutation>>
    requires bs != [] && Known(bs, cur, opts)
  {
    Plan(bs, 0, 0, cur[bs[0]], cur, opts, fx)
  }

  /** A builder of the plan that is in done was handed mutation x. */
  ghost predicate Marks(f: Frame<Mutation>, done: set<nat>, x: Mutation) {
    f.BaseFrame? && f.i in done && f.m == x
  }

  ghost predicate Marked(plan: seq<Frame<Mutation>>, done: set<nat>, x: Mutation) {
    exists k :: 0 <= k < |plan| && Marks(plan[k], done, x)
  }

  /** The outermost builder that marks x; its node is the one x.id points to. */
  ghost function Owner(plan: seq<Frame<Mutation>>, done: set<nat>, x: Mutation): nat
    requires Marked(plan, done, x)
  {
    if Marks(plan[0], done, x) then plan[0].i
    else
      MarkedTail(plan, done, x);
      Owner(plan[1..], done, x)
  }

  lemma MarkedTail(plan: seq<Frame<Mutation>>, done: set<nat>, x: Mutation)
    requires plan != []
    ensures Marked(plan, done, x) <==> Marks(plan[0], done, x) || Marked(plan[1..], done, x)
  {
    assert forall k :: 0 <= k < |plan| - 1 ==> plan[1..][k] == plan[k + 1];
    assert forall k :: 0 < k < |plan| ==> plan[k] == plan[1..][k - 1];
  }

  /** Frames of builders lo and later only. */
  ghost predicate From(plan: seq<Frame<Mutation>>, lo: nat, n: nat) {
    forall k :: 0 <= k < |plan| ==> lo <= plan[k].i < n
  }

  lemma {:induction false} PlanFrom(bs: seq<Builder>, i: nat, h: nat, m: Mutation, cur: map<Builder, Mutation>,
                                    opts: map<Mutation, Options>, fx: Effects)
    requires i <= |bs| && Known(bs, cur, opts) && m in opts
    requires i < |bs| ==> h <= |bs[i].hooks|
    ensures From(Plan(bs, i, h, m, cur, opts, fx), i, |bs|)
    decreases |bs| - i, if i < |bs| then |bs[i].hooks| - h else 0
  {
    if i < |bs| {
      if h < |bs[i].hooks| {
        PlanFrom(bs, i, h + 1, HandedBy(bs[i].hooks[h], m), cur, opts, fx);
      } else {
        var next := cur[bs[i] := m];
        PlanFrom(bs, i + 1, 0, if i + 1 < |bs| then next[bs[i + 1]] else m, next, opts, fx);
      }
    }
  }

  lemma {:induction false} DoneFrom(plan: seq<Frame<Mutation>>, lo: nat, n: nat, filled: seq<Spec>,
                                    insert: seq<Spec> -> Option<CreateError>)
    requires From(plan, lo, n)
    ensures forall i :: i in Run(plan, filled, insert).done ==> lo <= i < n
  {
    if plan != [] {
      assert From(plan[1..], lo, n);
      DoneFrom(plan[1..], lo, n, if plan[0].BaseFrame? then filled + [plan[0].spec] else filled, insert);
    }
  }

  /** Marks of a plan whose first frame marks nothing are those of the rest. */
  lemma MarksBehind(f: Frame<Mutation>, rest: seq<Frame<Mutation>>, done: set<nat>, x: Mutation)
    requires !Marks(f, done, x)
    ensures Marked([f] + rest, done, x) <==> Marked(rest, done, x)
    ensures Marked(rest, done, x) ==> Owner([f] + rest, done, x) == Owner(rest, done, x)
  {
    MarkedTail([f] + rest, done, x);
    assert ([f] + rest)[1..] == rest;
  }

  /** When builder i becomes done too, it owns its mutation and changes no other. */
  lemma MarksBase(f: Frame<Mutation>, rest: seq<Frame<Mutation>>, done: set<nat>, n: nat, x: Mutation)
    requires f.BaseFrame? && From(rest, f.i + 1, n)
    ensures var all := [f] + rest; var more := done + {f.i};
      && (Marked(all, more, x) <==> x == f.m || Marked(rest, done, x))
      && (Marked(all, more, x) ==> Owner(all, more, x) == if x == f.m then f.i else Owner(rest, done, x))
  {
    var all, more := [f] + rest, done + {f.i};
    MarkedTail(all, more, x);
    assert all[1..] == rest;
    SameMarks(rest, done, f.i, n, x);
  }

  lemma {:induction false} SameMarks(rest: seq<Frame<Mutation>>, done: set<nat>, i: nat, n: nat, x: Mutation)
    requires From(rest, i + 1, n)
    ensures Marked(rest, done + {i}, x) <==> Marked(rest, done, x)
    ensures Marked(rest, done, x) ==> Owner(rest, done + {i}, x) == Owner(rest, done, x)
  {
    if rest != [] {
      MarkedTail(rest, done, x);
      MarkedTail(rest, done + {i}, x);
      assert From(rest[1..], i + 1, n);
      SameMarks(rest[1..], done, i, n, x);
    }
  }

  /** The done flags and id pointers of the mutations when a run starts. */
  datatype Snapshot = Snapshot(done: map<Mutation, bool>, ids: map<Mutation, APIKey?>)

  /** The node once its identity, if any, is known. */
  function WithId(e: Entity, id: Option<int>): Entity {
    if id.Some? then e.(id := id.value) else e
  }

  /** The identity a batch answer gives to position k. */
  function NewId(answer: Result<seq<Option<int>>, DbError>, k: nat): Option<int> {
    match answer case Failure(_) => None case Success(ids) => IdAt(ids, k)
  }

  /** How Save reports the answer to a batch insert. */
  function Inserting(respond: seq<Spec> -> Result<seq<Option<int>>, DbError>): seq<Spec> -> Option<CreateError> {
    specs => match respond(specs) case Failure(e) => Some(Wrapped(e)) case Success(_) => None
  }

  /** One running Save: the slices the closures share, updated by index. */
  class Saving {
    const builders: seq<Builder>
    var specs: seq<SpecObject?>
    var nodes: seq<APIKey?>
    const driver: Driver
    const conflict: seq<int>
    const fx: Effects

    constructor (builders: seq<Builder>, driver: Driver, conflict: seq<int>, fx: Effects)
      ensures this.builders == builders && this.driver == driver && this.conflict == conflict && this.fx == fx
      ensures |specs| == |nodes| == |builders| && forall k :: 0 <= k < |nodes| ==> nodes[k] == null
    {
      this.builders, this.driver, this.conflict, this.fx := builders, driver, conflict, fx;
      this.specs := seq(|builders|, k => null);
      this.nodes := seq(|builders|, k => null);
    }

    /** The first i specs are distinct objects holding these specs, and the nodes
        from i on are still nil. */
    ghost predicate Filled(i: nat, filled: seq<Spec>)
      reads this`specs, this`nodes
    {
      && i <= |specs| == |nodes| == |builders| && |filled| == i
      && (forall k :: 0 <= k < i ==> specs[k] != null && specs[k].spec == filled[k])
      && (forall j, k :: 0 <= j < k < i ==> specs[j] != specs[k])
      && (forall k :: i <= k < |nodes| ==> nodes[k] == null)
    }

    ghost predicate Sized()
      reads this`specs, this`nodes
    {
      |specs| == |nodes| == |builders|
    }

    /** The slots of the builders before i still hold these objects. */
    ghost predicate Same(i: nat, ss: seq<SpecObject?>, ns: seq<APIKey?>)
      reads this`specs, this`nodes
    {
      && i <= |specs| == |ss| && i <= |nodes| == |ns|
      && forall k :: 0 <= k < i ==> specs[k] == ss[k] && nodes[k] == ns[k]
    }

    ghost function SpecSet(i: nat): set<SpecObject?>
      requires i <= |specs|
      reads this`specs
    {
      set k | 0 <= k < i && specs[k] != null :: specs[k]
    }

    ghost predicate Holding(cur: map<Builder, Mutation>, opts: map<Mutation, Options>)
      reads builders, opts.Keys
    {
      && Known(builders, cur, opts)
      && (forall b :: b in builders ==> b.mutation == cur[b])
      && (forall x :: x in opts ==> x.options == opts[x])
    }

    /** The insert a run makes, if it gets that far. */
    ghost function Calls(plan: seq<Frame<Mutation>>, all: seq<Spec>): seq<BatchCall> {
      if Block(plan) == None then [BatchCall(all, conflict)] else []
    }

    /** Nothing has been marked since the snapshot. */
    ghost predicate Unmarked(was: Snapshot, opts: map<Mutation, Options>)
      reads opts.Keys`done, opts.Keys`idOf
    {
      forall x :: x in opts ==>
        x in was.done && x in was.ids && x.done == was.done[x] && x.idOf == was.ids[x]
    }

    /** Exactly the mutations handed to builders in done became done, and their id
        pointers refer to the node of the outermost builder that marked them. */
    ghost predicate MutationsMarked(was: Snapshot, plan: seq<Frame<Mutation>>, done: set<nat>,
                                    opts: map<Mutation, Options>)
      reads opts.Keys`done, opts.Keys`idOf, this`nodes
    {
      forall x :: x in opts ==> MutationMarked(was, plan, done, x)
    }

    ghost predicate MutationMarked(was: Snapshot, plan: seq<Frame<Mutation>>, done: set<nat>, x: Mutation)
      reads x`done, x`idOf, this`nodes
    {
      && x in was.done && x in was.ids
      && (x.done <==> was.done[x] || Marked(plan, done, x))
      && (if Marked(plan, done, x)
          then Owner(plan, done, x) < |nodes| && x.idOf == nodes[Owner(plan, done, x)]
          else x.idOf == was.ids[x])
    }

    ghost function NodeSet(): set<APIKey?>
      reads this`nodes
    {
      set k | 0 <= k < |nodes| :: nodes[k]
    }

    /** Every builder in done has a node holding what createSpec built from the
        mutation it was handed, with the identity the insert assigned. */
    ghost predicate NodesCreated(plan: seq<Frame<Mutation>>, done: set<nat>,
                                 answer: Result<seq<Option<int>>, DbError>, opts: map<Mutation, Options>)
      reads this`nodes, NodeSet()`data
    {
      forall k :: 0 <= k < |plan| && plan[k].BaseFrame? && plan[k].i in done ==>
        && plan[k].i < |nodes| && nodes[plan[k].i] != null && plan[k].m in opts
        && nodes[plan[k].i].data == WithId(fx.node(opts[plan[k].m]), NewId(answer, plan[k].i))
    }

    /** After a successful insert every spec object holds its new identity. */
    ghost predicate IdsAssigned(answer: Result<seq<Option<int>>, DbError>)
      reads this`specs, SpecSet(|specs|)`id
    {
      answer.Success? ==> forall k :: 0 <= k < |specs| ==> specs[k] != null && specs[k].id == NewId(answer, k)
    }

    /** The run of a plan gave this error, this trace and these done builders. */
    ghost predicate Ran(plan: seq<Frame<Mutation>>, filled: seq<Spec>, err: Option<CreateError>, trace: seq<Event>,
                        done: set<nat>)
    {
      Run(plan, filled, Inserting(driver.respond)) == Outcome(err, trace, done)
    }

    /** What a descent with these frames leaves: the run's error, trace and done builders,
        identities on all specs if the insert was reached, a node for every builder that
        is done, and the marks of their mutations. */
    ghost predicate Descended(plan: seq<Frame<Mutation>>, filled: seq<Spec>, all: seq<Spec>,
                              opts: map<Mutation, Options>, was: Snapshot,
                              err: Option<CreateError>, trace: seq<Event>, done: set<nat>)
      reads this`specs, this`nodes, SpecSet(|specs|)`id, NodeSet()`data, opts.Keys`done, opts.Keys`idOf
    {
      && Sized() && Ran(plan, filled, err, trace, done)
      && (Block(plan) == None ==> IdsAssigned(driver.respond(all)))
      && NodesCreated(plan, done, driver.respond(all), opts)
      && MutationsMarked(was, plan, done, opts)
    }

    /** A frame that marks nothing leaves the marking as it is. */
    lemma MarksStay(f: Frame<Mutation>, rest: seq<Frame<Mutation>>, done: set<nat>, was: Snapshot,
                    opts: map<Mutation, Options>)
      requires f.HookFrame? || f.i !in done
      requires MutationsMarked(was, rest, done, opts)
      ensures MutationsMarked(was, [f] + rest, done, opts)
    {
      forall x | x in opts
        ensures MutationMarked(was, [f] + rest, done, x)
      {
        assert MutationMarked(was, rest, done, x);
        MarksBehind(f, rest, done, x);
      }
    }

    lemma HookNodes(f: Frame<Mutation>, rest: seq<Frame<Mutation>>, done: set<nat>,
                    answer: Result<seq<Option<int>>, DbError>, opts: map<Mutation, Options>)
      requires NodesCreated(rest, done, answer, opts)
      requires f.HookFrame? || f.i !in done
      ensures NodesCreated([f] + rest, done, answer, opts)
    {
      var plan := [f] + rest;
      assert forall k :: 0 < k < |plan| ==> plan[k] == rest[k - 1];
    }

    /** Slot i has a node with these contents that no other slot has. */
    ghost predicate OwnNode(i: nat, data: Entity)
      reads this`nodes, NodeSet()`data
    {
      && i < |nodes| && nodes[i] != null && nodes[i].data == data
      && forall k :: 0 <= k < |nodes| && k != i ==> nodes[k] != nodes[i]
    }

    /** The innermost step: BatchCreate on the filled specs. */
    method Finish(ghost filled: seq<Spec>) returns (err: Option<CreateError>, trace: seq<Event>)
      requires Filled(|builders|, filled)
      modifies SpecSet(|builders|)`id, driver`log
      ensures err == Inserting(driver.respond)(filled) && trace == [Insert(filled)]
      ensures driver.log == old(driver.log) + [BatchCall(filled, conflict)]
      ensures IdsAssigned(driver.respond(filled))
    {
      var objects: seq<SpecObject> := specs;
      assert SpecValues(objects) == filled;
      var failed := driver.BatchCreate(objects, conflict);
      err := if failed.Some? then Some(Wrapped(failed.value)) else None;
      trace := [Insert(SpecValues(objects))];
    }

    /** Mutator i from its hook h on, given mutation m. */
    method Mutate(i: nat, h: nat, m: Mutation, ghost cur: map<Builder, Mutation>, ghost opts: map<Mutation, Options>,
      ghost filled: seq<Spec>, ghost plan: seq<Frame<Mutation>>, ghost all: seq<Spec>, ghost was: Snapshot)
      returns (err: Option<CreateError>, trace: seq<Event>, ghost done: set<nat>)
      requires i < |builders| && h <= |builders[i].hooks|
      requires Filled(i, filled)
      requires Holding(cur, opts) && Unmarked(was, opts)
      requires m in opts && all == filled + Specs(plan)
      requires plan == Plan(builders, i, h, m, cur, opts, fx)
      modifies this`specs, this`nodes, (set b | b in builders)`mutation, opts.Keys`done, opts.Keys`idOf,
        SpecSet(i)`id, driver`log
      ensures Descended(plan, filled, all, opts, was, err, trace, done)
      ensures driver.log == old(driver.log) + Calls(plan, all) && Same(i, old(specs), old(nodes))
      ensures forall k :: i <= k < |nodes| ==> nodes[k] == null || fresh(nodes[k])
      decreases |builders| - i, 5 + 2 * (|builders[i].hooks| - h)
    {
      if h < |builders[i].hooks| {
        err, trace, done := MutateHook(i, h, m, cur, opts, filled, plan, all, was);
      } else {
        err, trace, done := MutateBase(i, m, cur, opts, filled, plan, all, was);
      }
    }

    /** One hook around the mutator it wraps. */
    method MutateHook(i: nat, h: nat, m: Mutation, ghost cur: map<Builder, Mutation>, ghost opts: map<Mutation, Options>,
      ghost filled: seq<Spec>, ghost plan: seq<Frame<Mutation>>, ghost all: seq<Spec>, ghost was: Snapshot)
      returns (err: Option<CreateError>, trace: seq<Event>, ghost done: set<nat>)
      requires i < |builders| && h < |builders[i].hooks|
      requires Filled(i, filled)
      requires Holding(cur, opts) && Unmarked(was, opts)
      requires m in opts && all == filled + Specs(plan)
      requires plan == Plan(builders, i, h, m, cur, opts, fx)
      modifies this`specs, this`nodes, (set b | b in builders)`mutation, opts.Keys`done, opts.Keys`idOf,
        SpecSet(i)`id, driver`log
      ensures Descended(plan, filled, all, opts, was, err, trace, done)
      ensures driver.log == old(driver.log) + Calls(plan, all) && Same(i, old(specs), old(nodes))
      ensures forall k :: i <= k < |nodes| ==> nodes[k] == null || fresh(nodes[k])
      decreases |builders| - i, 4 + 2 * (|builders[i].hooks| - h)
    {
      var hook := builders[i].hooks[h];
      ghost var f := HookFrame(i, h, KindOfHook(hook));
      ghost var rest := Plan(builders, i, h + 1, HandedBy(hook, m), cur, opts, fx);
      assert plan == [f] + rest;
      HookRuns(f, rest, filled, Inserting(driver.respond));
      if hook.RejectBefore? {
        return Some(Rejected(hook.code)), [Enter(i, h), Exit(i, h)], {};
      }
      err, trace, done := Mutate(i, h + 1, HandedBy(hook, m), cur, opts, filled, rest, all, was);
      MarksStay(f, rest, done, was, opts);
      HookNodes(f, rest, done, driver.respond(all), opts);
      trace := [Enter(i, h)] + trace + [Exit(i, h)];
      if err == None && hook.RejectAfter? {
        err := Some(Rejected(hook.code));
      }
    }

    /** The frames inside builder i once it holds mutation m. */
    ghost function Rest(i: nat, m: Mutation, cur: map<Builder, Mutation>, opts: map<Mutation, Options>)
      : seq<Frame<Mutation>>
      requires i < |builders| && Known(builders, cur, opts) && m in opts
    {
      var next := cur[builders[i] := m];
      Plan(builders, i + 1, 0, if i + 1 < |builders| then next[builders[i + 1]] else m, next, opts, fx)
    }

    /** Builder i itself: check, then descend. */
    method MutateBase(i: nat, m: Mutation, ghost cur: map<Builder, Mutation>, ghost opts: map<Mutation, Options>,
      ghost filled: seq<Spec>, ghost plan: seq<Frame<Mutation>>, ghost all: seq<Spec>, ghost was: Snapshot)
      returns (err: Option<CreateError>, trace: seq<Event>, ghost done: set<nat>)
      requires i < |builders|
      requires Filled(i, filled)
      requires Holding(cur, opts) && Unmarked(was, opts)
      requires m in opts && all == filled + Specs(plan)
      requires plan == Plan(builders, i, |builders[i].hooks|, m, cur, opts, fx)
      modifies this`specs, this`nodes, (set b | b in builders)`mutation, opts.Keys`done, opts.Keys`idOf,
        SpecSet(i)`id, driver`log
      ensures Descended(plan, filled, all, opts, was, err, trace, done)
      ensures driver.log == old(driver.log) + Calls(plan, all) && Same(i, old(specs), old(nodes))
      ensures forall k :: i <= k < |nodes| ==> nodes[k] == null || fresh(nodes[k])
      decreases |builders| - i, 3
    {
      ghost var rest := Rest(i, m, cur, opts);
      ghost var f := BaseFrame(i, fx.check(opts[cur[builders[i]]]), m, fx.spec(opts[m]));
      assert plan == [f] + rest && plan[1..] == rest;
      err := fx.check(builders[i].mutation.options);
      trace, done := [], {};
      if err.Some? {
        BaseBlocked(f, rest, filled, Inserting(driver.respond));
      } else {
        err, trace, done := MutateChecked(i, m, cur, opts, filled, f, rest, all, was);
      }
    }

    /** Builder i once its check has passed. */
    method MutateChecked(i: nat, m: Mutation, ghost cur: map<Builder, Mutation>, ghost opts: map<Mutation, Options>,
      ghost filled: seq<Spec>, ghost f: Frame<Mutation>, ghost rest: seq<Frame<Mutation>>,
      ghost all: seq<Spec>, ghost was: Snapshot)
      returns (err: Option<CreateError>, trace: seq<Event>, ghost done: set<nat>)
      requires i < |builders|
      requires Filled(i, filled)
      requires Holding(cur, opts) && Unmarked(was, opts)
      requires m in opts && all == filled + Specs([f] + rest)
      requires rest == Rest(i, m, cur, opts) && f == BaseFrame(i, None, m, fx.spec(opts[m]))
      modifies this`specs, this`nodes, (set b | b in builders)`mutation, opts.Keys`done, opts.Keys`idOf,
        SpecSet(i)`id, driver`log
      ensures Descended([f] + rest, filled, all, opts, was, err, trace, done)
      ensures driver.log == old(driver.log) + Calls([f] + rest, all) && Same(i, old(specs), old(nodes))
      ensures forall k :: i <= k < |nodes| ==> nodes[k] == null || fresh(nodes[k])
      decreases |builders| - i, 2
    {
      InnerIsFrom(i, m, cur, opts);
      BaseRuns(f, rest, filled, Inserting(driver.respond));
      DoneFrom(rest, i + 1, |builders|, filled + [f.spec], Inserting(driver.respond));
      RunError(rest, filled + [f.spec], Inserting(driver.respond));
      err, trace, done := Descend(i, m, cur, opts, filled + [f.spec], filled, rest, all, was);
      ghost var inner := done;
      done := Leave(i, m, nodes[i], opts, was, f, rest, inner, driver.respond(all), err);
    }

    lemma InnerIsFrom(i: nat, m: Mutation, cur: map<Builder, Mutation>, opts: map<Mutation, Options>)
      requires i < |builders| && Known(builders, cur, opts) && m in opts
      ensures From(Rest(i, m, cur, opts), i + 1, |builders|)
    {
      var next := cur[builders[i] := m];
      PlanFrom(builders, i + 1, 0, if i + 1 < |builders| then next[builders[i + 1]] else m, next, opts, fx);
    }

    /** The end of builder i's closure: an error is passed on, success is marked. */
    method Leave(i: nat, m: Mutation, node: APIKey, ghost opts: map<Mutation, Options>, ghost was: Snapshot,
                 ghost f: Frame<Mutation>, ghost rest: seq<Frame<Mutation>>, ghost done: set<nat>,
                 ghost answer: Result<seq<Option<int>>, DbError>, err: Option<CreateError>)
      returns (ghost next: set<nat>)
      requires i < |builders| && Sized() && m in opts && i !in done
      requires f.BaseFrame? && f.i == i && f.m == m && From(rest, i + 1, |builders|)
      requires nodes[i] == node && node.data == fx.node(opts[m])
      requires forall k :: 0 <= k < |nodes| && k != i ==> nodes[k] != node
      requires err == None ==> IdsAssigned(answer) && answer.Success?
      requires NodesCreated(rest, done, answer, opts)
      requires MutationsMarked(was, rest, done, opts)
      modifies m`idOf, m`done, node`data
      ensures next == if err == None then done + {i} else done
      ensures NodesCreated([f] + rest, next, answer, opts)
      ensures MutationsMarked(was, [f] + rest, next, opts)
    {
      if err.Some? {
        MarksStay(f, rest, done, was, opts);
        HookNodes(f, rest, done, answer, opts);
        next := done;
      } else {
        Mark(i, m, node, opts, was, f, rest, done, answer);
        next := done + {i};
      }
    }

    /** What builder i does once the inner call has succeeded: its mutation's id points
        at its node, the node gets the identity of its spec, the mutation is done. */
    method Mark(i: nat, m: Mutation, node: APIKey, ghost opts: map<Mutation, Options>, ghost was: Snapshot,
                ghost f: Frame<Mutation>, ghost rest: seq<Frame<Mutation>>, ghost done: set<nat>,
                ghost answer: Result<seq<Option<int>>, DbError>)
      requires i < |builders| && Sized() && m in opts
      requires f.BaseFrame? && f.i == i && f.m == m && From(rest, i + 1, |builders|)
      requires nodes[i] == node && node.data == fx.node(opts[m])
      requires forall k :: 0 <= k < |nodes| && k != i ==> nodes[k] != node
      requires IdsAssigned(answer) && answer.Success?
      requires NodesCreated(rest, done, answer, opts)
      requires MutationsMarked(was, rest, done, opts)
      modifies m`idOf, m`done, node`data
      ensures NodesCreated([f] + rest, done + {i}, answer, opts)
      ensures MutationsMarked(was, [f] + rest, done + {i}, opts)
    {
      m.idOf := nodes[i];
      Complete(i, opts[m], node, f, rest, done, answer, opts);
      m.done := true;
      forall x | x in opts
        ensures MutationMarked(was, [f] + rest, done + {i}, x)
      {
        MarksBase(f, rest, done, |builders|, x);
      }
    }

    /** The node gets the identity the insert assigned. */
    method Complete(i: nat, ghost o: Options, node: APIKey, ghost f: Frame<Mutation>, ghost rest: seq<Frame<Mutation>>,
                    ghost done: set<nat>, ghost answer: Result<seq<Option<int>>, DbError>,
                    ghost opts: map<Mutation, Options>)
      requires i < |builders| && Sized()
      requires f.BaseFrame? && f.i == i && f.m in opts && opts[f.m] == o && From(rest, i + 1, |builders|)
      requires nodes[i] == node && node.data == fx.node(o)
      requires forall k :: 0 <= k < |nodes| && k != i ==> nodes[k] != node
      requires IdsAssigned(answer) && answer.Success?
      requires NodesCreated(rest, done, answer, opts)
      modifies node`data
      ensures NodesCreated([f] + rest, done + {i}, answer, opts)
    {
      if specs[i].id.Some? {
        node.data := node.data.(id := specs[i].id.value);
      }
      ghost var plan := [f] + rest;
      assert forall k :: 0 < k < |plan| ==> plan[k] == rest[k - 1] && plan[k].i != i;
    }

    /** Takes the handed mutation and fills slot i of the shared slices. */
    method Create(i: nat, b: Builder, m: Mutation, ghost cur: map<Builder, Mutation>,
                  ghost opts: map<Mutation, Options>, ghost filled: seq<Spec>)
      requires i < |builders| && builders[i] == b
      requires Filled(i, filled)
      requires Holding(cur, opts)
      requires m in opts
      modifies this`specs, this`nodes, b`mutation
      ensures Filled(i + 1, filled + [fx.spec(opts[m])])
      ensures Holding(cur[b := m], opts)
      ensures Same(i, old(specs), old(nodes))
      ensures fresh(specs[i])
      ensures nodes[i] != null && fresh(nodes[i]) && nodes[i].data == fx.node(opts[m])
    {
      b.mutation := m;
      var node := new APIKey();
      node.data := fx.node(b.mutation.options);
      nodes := nodes[i := node];
      var created := new SpecObject(fx.spec(b.mutation.options));
      specs := specs[i := created];
    }

    /** Takes the handed mutation, creates node and spec, and calls the next mutator
        or the insert. */
    method Descend(i: nat, m: Mutation, ghost cur: map<Builder, Mutation>, ghost opts: map<Mutation, Options>,
                   ghost more: seq<Spec>, ghost filled: seq<Spec>, ghost rest: seq<Frame<Mutation>>,
                   ghost all: seq<Spec>, ghost was: Snapshot)
      returns (err: Option<CreateError>, trace: seq<Event>, ghost done: set<nat>)
      requires i < |builders|
      requires Filled(i, filled)
      requires Holding(cur, opts) && Unmarked(was, opts)
      requires m in opts && more == filled + [fx.spec(opts[m])] && all == more + Specs(rest)
      requires rest == Rest(i, m, cur, opts)
      modifies this`specs, this`nodes, (set b | b in builders)`mutation, opts.Keys`done, opts.Keys`idOf,
        SpecSet(i)`id, driver`log
      ensures Descended(rest, more, all, opts, was, err, trace, done)
      ensures driver.log == old(driver.log) + Calls(rest, all) && Same(i, old(specs), old(nodes))
      ensures OwnNode(i, fx.node(opts[m]))
      ensures forall k :: i <= k < |nodes| ==> nodes[k] == null || fresh(nodes[k])
      decreases |builders| - i, 1
    {
      Create(i, builders[i], m, cur, opts, filled);
      ghost var node := nodes[i];
      err, trace, done := Next(i, m, cur[builders[i] := m], opts, more, rest, all, was);
      assert nodes[i] == node;
    }

    /** The next mutator if there is one, else the insert. */
    method Next(i: nat, ghost m: Mutation, ghost cur: map<Builder, Mutation>, ghost opts: map<Mutation, Options>,
                ghost filled: seq<Spec>, ghost plan: seq<Frame<Mutation>>, ghost all: seq<Spec>, ghost was: Snapshot)
      returns (err: Option<CreateError>, trace: seq<Event>, ghost done: set<nat>)
      requires i < |builders|
      requires Filled(i + 1, filled)
      requires Holding(cur, opts) && Unmarked(was, opts)
      requires m in opts && all == filled + Specs(plan)
      requires plan == Plan(builders, i + 1, 0, if i + 1 < |builders| then cur[builders[i + 1]] else m, cur, opts, fx)
      modifies this`specs, this`nodes, (set b | b in builders)`mutation, opts.Keys`done, opts.Keys`idOf,
        SpecSet(i + 1)`id, driver`log
      ensures Descended(plan, filled, all, opts, was, err, trace, done)
      ensures driver.log == old(driver.log) + Calls(plan, all) && Same(i + 1, old(specs), old(nodes))
      ensures forall k :: i + 1 <= k < |nodes| ==> nodes[k] == null || fresh(nodes[k])
      decreases |builders| - i, 0
    {
      done := {};
      if i < |builders| - 1 {
        err, trace, done := Mutate(i + 1, 0, builders[i + 1].mutation, cur, opts, filled, plan, all, was);
      } else {
        err, trace := Finish(filled);
        assert plan == [] && filled + Specs(plan) == filled;
      }
    }
  }

  /** A hook adds its entry and exit to the trace of what it wraps. */
  lemma HookRuns(f: Frame<Mutation>, rest: seq<Frame<Mutation>>, filled: seq<Spec>,
                 insert: seq<Spec> -> Option<CreateError>)
    requires f.HookFrame?
    ensures Run([f] + rest, filled, insert) ==
      if f.kind.Before? then Outcome(Some(Rejected(f.kind.code)), [Enter(f.i, f.h), Exit(f.i, f.h)], {})
      else var r := Run(rest, filled, insert);
        Outcome(if r.err == None && f.kind.After? then Some(Rejected(f.kind.code)) else r.err,
                [Enter(f.i, f.h)] + r.trace + [Exit(f.i, f.h)], r.done)
    ensures Block([f] + rest) == if f.kind.Before? then Some(Rejected(f.kind.code)) else Block(rest)
    ensures Specs([f] + rest) == Specs(rest)
  {
    assert ([f] + rest)[1..] == rest;
  }

  lemma BaseBlocked(f: Frame<Mutation>, rest: seq<Frame<Mutation>>, filled: seq<Spec>,
                    insert: seq<Spec> -> Option<CreateError>)
    requires f.BaseFrame? && f.failure.Some?
    ensures Run([f] + rest, filled, insert) == Outcome(f.failure, [], {})
    ensures Block([f] + rest) == f.failure
  {
  }

  /** A builder that passes its check adds its spec, and itself when all goes well. */
  lemma BaseRuns(f: Frame<Mutation>, rest: seq<Frame<Mutation>>, filled: seq<Spec>,
                 insert: seq<Spec> -> Option<CreateError>)
    requires f.BaseFrame? && f.failure == None
    ensures var inner := Run(rest, filled + [f.spec], insert);
      Run([f] + rest, filled, insert)
        == Outcome(inner.err, inner.trace, if inner.err == None then inner.done + {f.i} else inner.done)
    ensures Block([f] + rest) == Block(rest)
    ensures filled + Specs([f] + rest) == filled + [f.spec] + Specs(rest)
  {
    assert ([f] + rest)[1..] == rest;
  }
}
