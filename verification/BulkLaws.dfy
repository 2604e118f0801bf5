/** What a bulk save means builder by builder: the order of its frames, which
    mutation each builder is checked on and which one it saves. */
module BulkLaws {
  import opened BulkCreate
  import opened BulkSave
  import opened CreateChecks
  import opened MutatorChain
  import opened RowMapping
  import opened Schema
  import opened Wrappers

  /** What hooks h and later of a builder hand on in the end. */
  ghost function Handed(hooks: seq<Hook>, h: nat, m: Mutation): Mutation
    requires h <= |hooks|
    decreases |hooks| - h
  {
    if h == |hooks| then m else Handed(hooks, h + 1, HandedBy(hooks[h], m))
  }

  lemma {:induction false} HandedKnown(bs: seq<Builder>, i: nat, h: nat, m: Mutation, cur: map<Builder, Mutation>,
                                       opts: map<Mutation, Options>)
    requires i < |bs| && Known(bs, cur, opts) && m in opts && h <= |bs[i].hooks|
    ensures Handed(bs[i].hooks, h, m) in opts
    decreases |bs[i].hooks| - h
  {
    if h < |bs[i].hooks| {
      HandedKnown(bs, i, h + 1, HandedBy(bs[i].hooks[h], m), cur, opts);
    }
  }

  /** The pointers once builder i has taken what its hooks hand on. */
  ghost function Taken(bs: seq<Builder>, i: nat, cur: map<Builder, Mutation>): map<Builder, Mutation>
    requires i < |bs| && bs[i] in cur
  {
    cur[bs[i] := Handed(bs[i].hooks, 0, cur[bs[i]])]
  }

  ghost predicate Holds(bs: seq<Builder>, cur: map<Builder, Mutation>) {
    forall b :: b in bs ==> b in cur
  }

  /** The mutation builder k holds when its turn comes, from builder i on. */
  ghost function Own(bs: seq<Builder>, i: nat, cur: map<Builder, Mutation>, k: nat): Mutation
    requires i <= k < |bs| && Holds(bs, cur)
    decreases k - i
  {
    if i == k then cur[bs[k]] else Own(bs, i + 1, Taken(bs, i, cur), k)
  }

  /** The mutation builder k saves. */
  ghost function Saved(bs: seq<Builder>, i: nat, cur: map<Builder, Mutation>, k: nat): Mutation
    requires i <= k < |bs| && Holds(bs, cur)
  {
    Handed(bs[k].hooks, 0, Own(bs, i, cur, k))
  }

  ghost function HookFrames(i: nat, hooks: seq<Hook>, h: nat): seq<Frame<Mutation>>
    requires h <= |hooks|
  {
    seq(|hooks| - h, j requires 0 <= j < |hooks| - h => HookFrame(i, h + j, KindOfHook(hooks[h + j])))
  }

  ghost function Base(i: nat, own: Mutation, saved: Mutation, opts: map<Mutation, Options>, fx: Effects): Frame<Mutation>
    requires own in opts && saved in opts
  {
    BaseFrame(i, fx.check(opts[own]), saved, fx.spec(opts[saved]))
  }

  lemma TakenKnown(bs: seq<Builder>, i: nat, cur: map<Builder, Mutation>, opts: map<Mutation, Options>)
    requires i < |bs| && Known(bs, cur, opts)
    ensures Handed(bs[i].hooks, 0, cur[bs[i]]) in opts && Known(bs, Taken(bs, i, cur), opts)
  {
    HandedKnown(bs, i, 0, cur[bs[i]], cur, opts);
  }

  /** The frames from builder i on. */
  ghost function PlanAt(bs: seq<Builder>, i: nat, cur: map<Builder, Mutation>, opts: map<Mutation, Options>, fx: Effects)
    : seq<Frame<Mutation>>
    requires i < |bs| && Known(bs, cur, opts)
  {
    Plan(bs, i, 0, cur[bs[i]], cur, opts, fx)
  }

  /** Builder i itself, once it has been handed a mutation, and the plan of the next. */
  ghost function BuilderOn(bs: seq<Builder>, i: nat, saved: Mutation, cur: map<Builder, Mutation>,
                           opts: map<Mutation, Options>, fx: Effects): seq<Frame<Mutation>>
    requires i < |bs| && Known(bs, cur, opts) && saved in opts
  {
    [Base(i, cur[bs[i]], saved, opts, fx)]
    + if i + 1 < |bs| then PlanAt(bs, i + 1, cur[bs[i] := saved], opts, fx) else []
  }

  lemma BuilderNext(bs: seq<Builder>, i: nat, m: Mutation, cur: map<Builder, Mutation>,
                    opts: map<Mutation, Options>, fx: Effects)
    requires i < |bs| && Known(bs, cur, opts) && m in opts
    ensures Plan(bs, i, |bs[i].hooks|, m, cur, opts, fx) == BuilderOn(bs, i, m, cur, opts, fx)
  {
  }

  lemma HookNext(bs: seq<Builder>, i: nat, h: nat, m: Mutation, cur: map<Builder, Mutation>,
                 opts: map<Mutation, Options>, fx: Effects)
    requires i < |bs| && Known(bs, cur, opts) && m in opts && h < |bs[i].hooks|
    ensures Plan(bs, i, h, m, cur, opts, fx)
      == [HookFrame(i, h, KindOfHook(bs[i].hooks[h]))]
         + Plan(bs, i, h + 1, HandedBy(bs[i].hooks[h], m), cur, opts, fx)
  {
  }

  /** A plan is builder i's hooks from index h inwards, then builder i, then the plan
      of the next builder. */
  lemma {:induction false} HooksThenBuilder(bs: seq<Builder>, i: nat, h: nat, m: Mutation,
                                            cur: map<Builder, Mutation>, opts: map<Mutation, Options>, fx: Effects)
    requires i < |bs| && Known(bs, cur, opts) && m in opts && h <= |bs[i].hooks|
    ensures var saved := Handed(bs[i].hooks, h, m);
      && saved in opts
      && Plan(bs, i, h, m, cur, opts, fx)
        == HookFrames(i, bs[i].hooks, h) + BuilderOn(bs, i, saved, cur, opts, fx)
    decreases |bs[i].hooks| - h
  {
    HandedKnown(bs, i, h, m, cur, opts);
    var hooks, saved := bs[i].hooks, Handed(bs[i].hooks, h, m);
    if h < |hooks| {
      HooksThenBuilder(bs, i, h + 1, HandedBy(hooks[h], m), cur, opts, fx);
      HookNext(bs, i, h, m, cur, opts, fx);
      HookInFront(i, hooks, h, BuilderOn(bs, i, saved, cur, opts, fx));
    } else {
      BuilderNext(bs, i, m, cur, opts, fx);
      assert HookFrames(i, hooks, h) == [];
    }
  }

  lemma HookInFront(i: nat, hooks: seq<Hook>, h: nat, rest: seq<Frame<Mutation>>)
    requires h < |hooks|
    ensures [HookFrame(i, h, KindOfHook(hooks[h]))] + (HookFrames(i, hooks, h + 1) + rest)
      == HookFrames(i, hooks, h) + rest
  {
    assert HookFrames(i, hooks, h) == [HookFrame(i, h, KindOfHook(hooks[h]))] + HookFrames(i, hooks, h + 1);
  }

  /** The plan from builder i on, split around that builder. */
  lemma PlanParts(bs: seq<Builder>, i: nat, cur: map<Builder, Mutation>, opts: map<Mutation, Options>, fx: Effects)
    requires i < |bs| && Known(bs, cur, opts)
    ensures var saved := Handed(bs[i].hooks, 0, cur[bs[i]]);
      && saved in opts
      && PlanAt(bs, i, cur, opts, fx)
        == HookFrames(i, bs[i].hooks, 0) + [Base(i, cur[bs[i]], saved, opts, fx)]
           + (if i + 1 < |bs| then PlanAt(bs, i + 1, cur[bs[i] := saved], opts, fx) else [])
  {
    HooksThenBuilder(bs, i, 0, cur[bs[i]], cur, opts, fx);
    var saved := Handed(bs[i].hooks, 0, cur[bs[i]]);
    Associate(HookFrames(i, bs[i].hooks, 0), [Base(i, cur[bs[i]], saved, opts, fx)],
              if i + 1 < |bs| then PlanAt(bs, i + 1, cur[bs[i] := saved], opts, fx) else []);
  }

  lemma Associate(a: seq<Frame<Mutation>>, b: seq<Frame<Mutation>>, c: seq<Frame<Mutation>>)
    ensures a + (b + c) == a + b + c
  {
  }

  lemma {:induction false} BlockConcat(a: seq<Frame<Mutation>>, b: seq<Frame<Mutation>>)
    ensures Block(a + b) == if Block(a).Some? then Block(a) else Block(b)
    ensures Specs(a + b) == Specs(a) + Specs(b)
  {
    if a == [] {
      assert a + b == b;
    } else {
      assert (a + b)[0] == a[0] && (a + b)[1..] == a[1..] + b;
      BlockConcat(a[1..], b);
      if a[0].BaseFrame? {
        assert [a[0].spec] + (Specs(a[1..]) + Specs(b)) == [a[0].spec] + Specs(a[1..]) + Specs(b);
      }
    }
  }

  ghost predicate Refuses(hooks: seq<Hook>) {
    exists j :: 0 <= j < |hooks| && hooks[j].RejectBefore?
  }

  ghost predicate FailsLate(hooks: seq<Hook>) {
    exists j :: 0 <= j < |hooks| && hooks[j].RejectAfter?
  }

  lemma {:induction false} NoSpecs(a: seq<Frame<Mutation>>)
    requires forall k :: 0 <= k < |a| ==> a[k].HookFrame?
    ensures Specs(a) == []
  {
    if a != [] {
      NoSpecs(a[1..]);
    }
  }

  /** What a plan's hooks and builders mean for the descent and for the insert: each
      builder is checked on the mutation it holds when its turn comes and its spec is
      made of the mutation its hooks hand on. */
  lemma {:induction false} PlanMeaning(bs: seq<Builder>, i: nat, cur: map<Builder, Mutation>,
                                       opts: map<Mutation, Options>, fx: Effects)
    requires i < |bs| && Known(bs, cur, opts)
    ensures forall k :: i <= k < |bs| ==> Own(bs, i, cur, k) in opts && Saved(bs, i, cur, k) in opts
    ensures Block(PlanAt(bs, i, cur, opts, fx)) == None <==>
      forall k :: i <= k < |bs| ==> !Refuses(bs[k].hooks) && fx.check(opts[Own(bs, i, cur, k)]) == None
    ensures Specs(PlanAt(bs, i, cur, opts, fx))
      == seq(|bs| - i, k requires 0 <= k < |bs| - i => fx.spec(opts[Saved(bs, i, cur, i + k)]))
    decreases |bs| - i
  {
    TakenKnown(bs, i, cur, opts);
    var hooks, next := bs[i].hooks, Taken(bs, i, cur);
    var frames := HookFrames(i, hooks, 0);
    var base := Base(i, cur[bs[i]], next[bs[i]], opts, fx);
    PlanParts(bs, i, cur, opts, fx);
    var rest := if i + 1 < |bs| then PlanAt(bs, i + 1, next, opts, fx) else [];
    if i + 1 < |bs| {
      PlanMeaning(bs, i + 1, next, opts, fx);
    }
    BlockConcat(frames + [base], rest);
    BlockConcat(frames, [base]);
    NoSpecs(frames);
    HooksBlock(i, hooks);
    forall k | i < k < |bs|
      ensures Own(bs, i, cur, k) == Own(bs, i + 1, next, k)
    {
    }
  }

  lemma HooksBlock(i: nat, hooks: seq<Hook>)
    ensures Block(HookFrames(i, hooks, 0)) == None <==> !Refuses(hooks)
  {
    var frames := HookFrames(i, hooks, 0);
    BlockSpec(frames);
    assert forall j :: 0 <= j < |hooks| ==> frames[j].HookFrame? && (frames[j].kind.Before? <==> hooks[j].RejectBefore?);
  }

  lemma {:induction false} UndoConcat(a: seq<Frame<Mutation>>, b: seq<Frame<Mutation>>)
    ensures Undo(a + b) == if Undo(b).Some? then Undo(b) else Undo(a)
  {
    if a == [] {
      assert a + b == b;
    } else {
      assert (a + b)[1..] == a[1..] + b;
      UndoConcat(a[1..], b);
    }
  }

  lemma HooksUndo(i: nat, hooks: seq<Hook>)
    ensures Undo(HookFrames(i, hooks, 0)) == None <==> !FailsLate(hooks)
  {
    var frames := HookFrames(i, hooks, 0);
    UndoSpec(frames);
    assert forall j :: 0 <= j < |hooks| ==> frames[j].HookFrame? && (frames[j].kind.After? <==> hooks[j].RejectAfter?);
  }

  /** Something fails on the way out exactly when some builder has a hook that refuses
      after the inner call. */
  lemma {:induction false} PlanUndo(bs: seq<Builder>, i: nat, cur: map<Builder, Mutation>,
                                    opts: map<Mutation, Options>, fx: Effects)
    requires i < |bs| && Known(bs, cur, opts)
    ensures Undo(PlanAt(bs, i, cur, opts, fx)) == None <==> forall k :: i <= k < |bs| ==> !FailsLate(bs[k].hooks)
    decreases |bs| - i
  {
    TakenKnown(bs, i, cur, opts);
    var hooks, next := bs[i].hooks, Taken(bs, i, cur);
    var frames := HookFrames(i, hooks, 0);
    var base := Base(i, cur[bs[i]], next[bs[i]], opts, fx);
    PlanParts(bs, i, cur, opts, fx);
    var rest := if i + 1 < |bs| then PlanAt(bs, i + 1, next, opts, fx) else [];
    if i + 1 < |bs| {
      PlanUndo(bs, i + 1, next, opts, fx);
    }
    UndoConcat(frames + [base], rest);
    UndoConcat(frames, [base]);
    HooksUndo(i, hooks);
  }

  /** Frame k of a plan belongs to builder i or a later one, is that builder's frame
      if it is a builder's, and builders' frames come in order. */
  ghost predicate InOrder(plan: seq<Frame<Mutation>>, bs: seq<Builder>, i: nat, cur: map<Builder, Mutation>)
    requires Holds(bs, cur)
  {
    && From(plan, i, |bs|)
    && (forall k :: 0 <= k < |plan| && plan[k].BaseFrame? ==> plan[k].m == Saved(bs, i, cur, plan[k].i))
    && (forall j, k :: 0 <= j < k < |plan| && plan[j].BaseFrame? && plan[k].BaseFrame? ==> plan[j].i < plan[k].i)
  }

  lemma {:induction false} PlanInOrder(bs: seq<Builder>, i: nat, cur: map<Builder, Mutation>,
                                       opts: map<Mutation, Options>, fx: Effects)
    requires i < |bs| && Known(bs, cur, opts)
    ensures InOrder(PlanAt(bs, i, cur, opts, fx), bs, i, cur)
    decreases |bs| - i
  {
    TakenKnown(bs, i, cur, opts);
    var next := Taken(bs, i, cur);
    var head := HookFrames(i, bs[i].hooks, 0) + [Base(i, cur[bs[i]], next[bs[i]], opts, fx)];
    PlanParts(bs, i, cur, opts, fx);
    if i + 1 < |bs| {
      var rest := PlanAt(bs, i + 1, next, opts, fx);
      PlanInOrder(bs, i + 1, next, opts, fx);
      OrderedConcat(head, rest, bs, i, cur);
    } else {
      assert PlanAt(bs, i, cur, opts, fx) == head;
    }
  }

  lemma OrderedConcat(head: seq<Frame<Mutation>>, rest: seq<Frame<Mutation>>, bs: seq<Builder>, i: nat,
                      cur: map<Builder, Mutation>)
    requires i + 1 < |bs| && Holds(bs, cur)
    requires From(head, i, i + 1) && InOrder(rest, bs, i + 1, Taken(bs, i, cur))
    requires forall k :: 0 <= k < |head| && head[k].BaseFrame? ==>
      k == |head| - 1 && head[k].m == Saved(bs, i, cur, i)
    ensures InOrder(head + rest, bs, i, cur)
  {
    var plan := head + rest;
    forall k | 0 <= k < |plan|
      ensures i <= plan[k].i < |bs| && (plan[k].BaseFrame? ==> plan[k].m == Saved(bs, i, cur, plan[k].i))
    {
      assert plan[k] == if k < |head| then head[k] else rest[k - |head|];
    }
    forall j, k | 0 <= j < k < |plan| && plan[j].BaseFrame? && plan[k].BaseFrame?
      ensures plan[j].i < plan[k].i
    {
      assert plan[j] == if j < |head| then head[j] else rest[j - |head|];
      assert k >= |head| && plan[k] == rest[k - |head|];
    }
  }

  /** The owner of a mutation is the first builder in done that was handed it. */
  lemma {:induction false} OwnerIsFirst(plan: seq<Frame<Mutation>>, done: set<nat>, x: Mutation)
    requires Marked(plan, done, x)
    ensures exists q :: 0 <= q < |plan| && Marks(plan[q], done, x) && plan[q].i == Owner(plan, done, x)
              && forall p :: 0 <= p < q ==> !Marks(plan[p], done, x)
  {
    MarkedTail(plan, done, x);
    if Marks(plan[0], done, x) {
    } else {
      OwnerIsFirst(plan[1..], done, x);
      var rest := plan[1..];
      var q :| 0 <= q < |rest| && Marks(rest[q], done, x) && rest[q].i == Owner(rest, done, x)
               && forall p :: 0 <= p < q ==> !Marks(rest[p], done, x);
      assert plan[q + 1] == rest[q];
      assert forall p :: 0 < p < q + 1 ==> plan[p] == rest[p - 1];
    }
  }

  // ---- the order of the hooks -------------------------------------------------------------

  function HooksOf(i: nat, n: nat): seq<(nat, nat)> {
    seq(n, h requires 0 <= h < n => (i, h))
  }

  /** Builder i's hooks from index 0 inwards, then builder i + 1's, to the last. */
  function AllHooks(bs: seq<Builder>, i: nat): seq<(nat, nat)>
    requires i <= |bs|
    decreases |bs| - i
  {
    if i == |bs| then [] else HooksOf(i, |bs[i].hooks|) + AllHooks(bs, i + 1)
  }

  lemma {:induction false} EnteredConcat(a: seq<Frame<Mutation>>, b: seq<Frame<Mutation>>)
    ensures Entered(a + b) == Entered(a) + if Block(a).Some? then [] else Entered(b)
  {
    if a == [] {
      assert a + b == b;
    } else {
      assert (a + b)[1..] == a[1..] + b;
      EnteredConcat(a[1..], b);
    }
  }

  /** One more hook in front of what is entered. */
  lemma OneEntered(i: nat, h: nat, kind: HookKind, rest: seq<Frame<Mutation>>)
    ensures var f := HookFrame(i, h, kind);
      && Entered([f] + rest) == [(i, h)] + (if kind.Before? then [] else Entered(rest))
      && Block([f] + rest) == (if kind.Before? then Some(Rejected(kind.code)) else Block(rest))
  {
    assert ([HookFrame(i, h, kind)] + rest)[1..] == rest;
  }

  lemma PrefixNext(a: seq<(nat, nat)>, x: (nat, nat), b: seq<(nat, nat)>, all: seq<(nat, nat)>)
    requires a + [x] + b <= all
    ensures a + ([x] + b) == a + [x] + b && a + ([x] + []) <= all
  {
    assert a + [x] <= a + [x] + b;
    assert [x] + [] == [x];
  }

  lemma {:induction false} HooksEntered(i: nat, hooks: seq<Hook>, h: nat)
    requires h <= |hooks|
    ensures HooksOf(i, h) + Entered(HookFrames(i, hooks, h)) <= HooksOf(i, |hooks|)
    ensures Block(HookFrames(i, hooks, h)) == None ==>
      HooksOf(i, h) + Entered(HookFrames(i, hooks, h)) == HooksOf(i, |hooks|)
    decreases |hooks| - h
  {
    if h == |hooks| {
      assert HookFrames(i, hooks, h) == [];
      assert HooksOf(i, h) + [] == HooksOf(i, h);
    } else {
      var rest := HookFrames(i, hooks, h + 1);
      assert HookFrames(i, hooks, h) == [HookFrame(i, h, KindOfHook(hooks[h]))] + rest;
      OneEntered(i, h, KindOfHook(hooks[h]), rest);
      HooksEntered(i, hooks, h + 1);
      assert HooksOf(i, h) + [(i, h)] == HooksOf(i, h + 1);
      PrefixNext(HooksOf(i, h), (i, h), Entered(rest), HooksOf(i, |hooks|));
    }
  }

  /** The hooks a save enters are (0, 0), (0, 1), ... of builder 0, then builder 1's, and
      so on: all of them when the descent reaches the insert, and in any case the first
      so many. */
  lemma {:induction false} HooksEnteredInOrder(bs: seq<Builder>, i: nat, cur: map<Builder, Mutation>,
                                               opts: map<Mutation, Options>, fx: Effects)
    requires i < |bs| && Known(bs, cur, opts)
    ensures Entered(PlanAt(bs, i, cur, opts, fx)) <= AllHooks(bs, i)
    ensures Block(PlanAt(bs, i, cur, opts, fx)) == None ==> Entered(PlanAt(bs, i, cur, opts, fx)) == AllHooks(bs, i)
    decreases |bs| - i
  {
    TakenKnown(bs, i, cur, opts);
    var hooks, next := bs[i].hooks, Taken(bs, i, cur);
    var frames, base := HookFrames(i, hooks, 0), Base(i, cur[bs[i]], next[bs[i]], opts, fx);
    var rest := if i + 1 < |bs| then PlanAt(bs, i + 1, next, opts, fx) else [];
    PlanParts(bs, i, cur, opts, fx);
    Associate(frames, [base], rest);
    EnteredConcat(frames, [base] + rest);
    EnteredConcat([base], rest);
    BlockConcat(frames, [base] + rest);
    BlockConcat([base], rest);
    HooksEntered(i, hooks, 0);
    assert HooksOf(i, 0) + Entered(frames) == Entered(frames);
    assert [base][1..] == [] && Entered([base]) == [];
    if i + 1 < |bs| {
      HooksEnteredInOrder(bs, i + 1, next, opts, fx);
    }
  }

  // ---- the meaning of a bulk save ----------------------------------------------------

  /** The specs a save inserts. */
  ghost function SavedSpecs(bs: seq<Builder>, cur: map<Builder, Mutation>, opts: map<Mutation, Options>, fx: Effects)
    : seq<Spec>
    requires Known(bs, cur, opts) && forall k :: 0 <= k < |bs| ==> Saved(bs, 0, cur, k) in opts
  {
    seq(|bs|, k requires 0 <= k < |bs| => fx.spec(opts[Saved(bs, 0, cur, k)]))
  }

  /** No hook refuses before its inner call and every check passes. */
  ghost predicate Reaches(bs: seq<Builder>, cur: map<Builder, Mutation>, opts: map<Mutation, Options>, fx: Effects)
    requires Known(bs, cur, opts) && forall k :: 0 <= k < |bs| ==> Own(bs, 0, cur, k) in opts
  {
    forall k :: 0 <= k < |bs| ==> !Refuses(bs[k].hooks) && fx.check(opts[Own(bs, 0, cur, k)]) == None
  }

  /** For any builders, and hooks that wrap, refuse or hand on: the database is asked
      exactly when every check passes and no hook refuses first, with builder k's spec at
      position k. The save succeeds
      exactly when, further, the insert succeeds and no hook refuses afterwards; then
      every builder is done with its mutation marked. It is all-or-nothing exactly when
      it is not the case that a hook refuses after an insert that succeeded. */
  lemma BulkSaveMeans(bs: seq<Builder>, cur: map<Builder, Mutation>, opts: map<Mutation, Options>, fx: Effects,
                      insert: seq<Spec> -> Option<CreateError>)
    requires bs != [] && Known(bs, cur, opts)
    ensures forall k :: 0 <= k < |bs| ==> Own(bs, 0, cur, k) in opts && Saved(bs, 0, cur, k) in opts
    ensures var plan := WholePlan(bs, cur, opts, fx);
      var out := Run(plan, [], insert);
      var specs := SavedSpecs(bs, cur, opts, fx);
      && (Block(plan) == None <==> Reaches(bs, cur, opts, fx))
      && Specs(plan) == specs
      && (out.err == None <==>
            Reaches(bs, cur, opts, fx) && insert(specs) == None && forall k :: 0 <= k < |bs| ==> !FailsLate(bs[k].hooks))
      && (AllOrNothing(plan, out) <==>
            !(Reaches(bs, cur, opts, fx) && insert(specs) == None && exists k :: 0 <= k < |bs| && FailsLate(bs[k].hooks)))
      && (out.err == None ==> forall k :: 0 <= k < |bs| ==> k in out.done && Marked(plan, out.done, Saved(bs, 0, cur, k)))
  {
    var plan := WholePlan(bs, cur, opts, fx);
    PlanMeaning(bs, 0, cur, opts, fx);
    PlanUndo(bs, 0, cur, opts, fx);
    RunError(plan, [], insert);
    assert [] + Specs(plan) == Specs(plan) == SavedSpecs(bs, cur, opts, fx);
    PlanCovers(bs, 0, 0, cur[bs[0]], cur, opts, fx);
    AllOrNothingExactly(plan, insert);
    UndoSpec(plan);
    if Run(plan, [], insert).err == None {
      SuccessIsDone(plan, insert, |bs|);
      forall k | 0 <= k < |bs|
        ensures Marked(plan, Run(plan, [], insert).done, Saved(bs, 0, cur, k))
      {
        SavedIsMarked(bs, cur, opts, fx, Run(plan, [], insert).done, k);
      }
    }
  }

  lemma SavedIsMarked(bs: seq<Builder>, cur: map<Builder, Mutation>, opts: map<Mutation, Options>, fx: Effects,
                      done: set<nat>, k: nat)
    requires k < |bs| && Known(bs, cur, opts) && k in done
    requires HasBuilder(WholePlan(bs, cur, opts, fx), k)
    ensures Marked(WholePlan(bs, cur, opts, fx), done, Saved(bs, 0, cur, k))
  {
    var plan := WholePlan(bs, cur, opts, fx);
    PlanInOrder(bs, 0, cur, opts, fx);
    var q :| 0 <= q < |plan| && plan[q].BaseFrame? && plan[q].i == k;
    assert Marks(plan[q], done, Saved(bs, 0, cur, k));
  }

  /** After a successful save the id pointer of the mutation builder k saved refers to
      node k exactly when no earlier builder saved the same mutation. */
  lemma PointsToOwnNode(bs: seq<Builder>, cur: map<Builder, Mutation>, opts: map<Mutation, Options>, fx: Effects,
                        insert: seq<Spec> -> Option<CreateError>, k: nat)
    requires k < |bs| && Known(bs, cur, opts)
    requires Run(WholePlan(bs, cur, opts, fx), [], insert).err == None
    ensures var plan := WholePlan(bs, cur, opts, fx);
      var done := Run(plan, [], insert).done;
      && Marked(plan, done, Saved(bs, 0, cur, k))
      && (Owner(plan, done, Saved(bs, 0, cur, k)) == k <==>
            forall j :: 0 <= j < k ==> Saved(bs, 0, cur, j) != Saved(bs, 0, cur, k))
  {
    var plan := WholePlan(bs, cur, opts, fx);
    BulkSaveMeans(bs, cur, opts, fx, insert);
    PlanInOrder(bs, 0, cur, opts, fx);
    PlanCovers(bs, 0, 0, cur[bs[0]], cur, opts, fx);
    OwnerIsLeast(plan, bs, cur, Run(plan, [], insert).done, k);
  }

  /** When all builders of a plan are done, a mutation belongs to the first that saved it. */
  lemma OwnerIsLeast(plan: seq<Frame<Mutation>>, bs: seq<Builder>, cur: map<Builder, Mutation>, done: set<nat>, k: nat)
    requires Holds(bs, cur) && InOrder(plan, bs, 0, cur) && k < |bs|
    requires forall j :: 0 <= j < |bs| ==> HasBuilder(plan, j) && j in done
    requires Marked(plan, done, Saved(bs, 0, cur, k))
    ensures Owner(plan, done, Saved(bs, 0, cur, k)) == k <==>
      forall j :: 0 <= j < k ==> Saved(bs, 0, cur, j) != Saved(bs, 0, cur, k)
  {
    var x := Saved(bs, 0, cur, k);
    OwnerIsFirst(plan, done, x);
    var q :| 0 <= q < |plan| && Marks(plan[q], done, x) && plan[q].i == Owner(plan, done, x)
             && forall p :: 0 <= p < q ==> !Marks(plan[p], done, x);
    forall j | 0 <= j < |bs| && Saved(bs, 0, cur, j) == x
      ensures plan[q].i <= j
    {
      assert HasBuilder(plan, j);
      var p :| 0 <= p < |plan| && plan[p].BaseFrame? && plan[p].i == j;
      assert Marks(plan[p], done, x);
    }
  }

  // ---- which mutation is checked and which is saved ------------------------------------

  /** A builder listed once is checked on the mutation it holds at the start. */
  lemma {:induction false} OwnOfDistinct(bs: seq<Builder>, i: nat, cur: map<Builder, Mutation>, k: nat)
    requires i <= k < |bs| && Holds(bs, cur)
    requires forall j :: i <= j < k ==> bs[j] != bs[k]
    ensures Own(bs, i, cur, k) == cur[bs[k]]
    decreases k - i
  {
    if i < k {
      OwnOfDistinct(bs, i + 1, Taken(bs, i, cur), k);
    }
  }

  ghost predicate HandsOn(hooks: seq<Hook>) {
    exists j :: 0 <= j < |hooks| && hooks[j].HandOn?
  }

  lemma {:induction false} NothingHanded(hooks: seq<Hook>, h: nat, m: Mutation)
    requires h <= |hooks| && !HandsOn(hooks)
    ensures Handed(hooks, h, m) == m
    decreases |hooks| - h
  {
    if h < |hooks| {
      assert !hooks[h].HandOn?;
      NothingHanded(hooks, h + 1, m);
    }
  }

  /** What a builder saves is what the last hook that hands on a mutation hands on. */
  lemma {:induction false} LastHandsOn(hooks: seq<Hook>, h: nat, m: Mutation, j: nat)
    requires h <= j < |hooks| && hooks[j].HandOn? && forall l :: j < l < |hooks| ==> !hooks[l].HandOn?
    ensures Handed(hooks, h, m) == hooks[j].m
    decreases j - h
  {
    if h == j {
      LastPart(hooks, j + 1, hooks[j].m);
    } else {
      LastHandsOn(hooks, h + 1, HandedBy(hooks[h], m), j);
    }
  }

  lemma {:induction false} LastPart(hooks: seq<Hook>, h: nat, m: Mutation)
    requires h <= |hooks| && forall l :: h <= l < |hooks| ==> !hooks[l].HandOn?
    ensures Handed(hooks, h, m) == m
    decreases |hooks| - h
  {
    if h < |hooks| {
      LastPart(hooks, h + 1, m);
    }
  }

  /** Without hooks that hand on another mutation, every builder is checked on and
      saves the mutation it holds, however often it is listed. */
  lemma {:induction false} OwnIsSaved(bs: seq<Builder>, i: nat, cur: map<Builder, Mutation>, k: nat)
    requires i <= k < |bs| && Holds(bs, cur)
    requires forall b :: b in bs ==> !HandsOn(b.hooks)
    ensures Own(bs, i, cur, k) == Saved(bs, i, cur, k) == cur[bs[k]]
    decreases k - i
  {
    NothingHanded(bs[k].hooks, 0, Own(bs, i, cur, k));
    if i < k {
      NothingHanded(bs[i].hooks, 0, cur[bs[i]]);
      assert Taken(bs, i, cur) == cur;
      OwnIsSaved(bs, i + 1, cur, k);
    }
  }

  /** All hooks only wrap. */
  ghost predicate OnlyWrap(bs: seq<Builder>) {
    forall b, j :: b in bs && 0 <= j < |b.hooks| ==> b.hooks[j] == Pass
  }

  ghost predicate AllPass(bs: seq<Builder>, cur: map<Builder, Mutation>, opts: map<Mutation, Options>, fx: Effects)
    requires Known(bs, cur, opts)
  {
    forall b :: b in bs ==> fx.check(opts[cur[b]]) == None
  }

  function OwnSpecs(bs: seq<Builder>, cur: map<Builder, Mutation>, opts: map<Mutation, Options>, fx: Effects): seq<Spec>
    requires forall b :: b in bs ==> b in cur && cur[b] in opts
  {
    seq(|bs|, k requires 0 <= k < |bs| => fx.spec(opts[cur[bs[k]]]))
  }

  /** With hooks that only wrap, a bulk save succeeds exactly when every builder's
      mutation passes its check and the insert of their specs succeeds. Then every
      mutation is marked; otherwise none is. */
  lemma PassThroughBulk(bs: seq<Builder>, cur: map<Builder, Mutation>, opts: map<Mutation, Options>, fx: Effects,
                        insert: seq<Spec> -> Option<CreateError>)
    requires bs != [] && Known(bs, cur, opts)
    requires OnlyWrap(bs)
    ensures var plan := WholePlan(bs, cur, opts, fx);
      var out := Run(plan, [], insert);
      var specs, passes := OwnSpecs(bs, cur, opts, fx), AllPass(bs, cur, opts, fx);
      && Specs(plan) == specs
      && (Block(plan) == None <==> passes)
      && (out.err == None <==> passes && insert(specs) == None)
      && (out.err == None ==> forall b :: b in bs ==> Marked(plan, out.done, cur[b]))
      && (out.err.Some? ==> forall x :: !Marked(plan, out.done, x))
  {
    BulkSaveMeans(bs, cur, opts, fx, insert);
    forall k | 0 <= k < |bs|
      ensures Own(bs, 0, cur, k) == Saved(bs, 0, cur, k) == cur[bs[k]]
      ensures !Refuses(bs[k].hooks) && !FailsLate(bs[k].hooks)
    {
      OwnIsSaved(bs, 0, cur, k);
      assert bs[k] in bs;
    }
    assert SavedSpecs(bs, cur, opts, fx) == OwnSpecs(bs, cur, opts, fx);
  }

  /** Hook j is the last that hands on a mutation. */
  ghost predicate IsLastHandOn(hooks: seq<Hook>, j: int) {
    0 <= j < |hooks| && hooks[j].HandOn? && forall l :: j < l < |hooks| ==> !hooks[l].HandOn?
  }

  lemma {:induction false} LastHandOnExists(hooks: seq<Hook>)
    ensures HandsOn(hooks) ==> exists j :: IsLastHandOn(hooks, j)
  {
    if hooks != [] {
      var n := |hooks| - 1;
      if hooks[n].HandOn? {
        assert IsLastHandOn(hooks, n);
      } else if HandsOn(hooks) {
        assert HandsOn(hooks[..n]);
        LastHandOnExists(hooks[..n]);
        var j :| IsLastHandOn(hooks[..n], j);
        assert IsLastHandOn(hooks, j);
      }
    }
  }

  /** What builder k saves passes check exactly when its own mutation does or, if its
      hooks hand one on, the last handed one does. */
  lemma SavedPasses(bs: seq<Builder>, cur: map<Builder, Mutation>, opts: map<Mutation, Options>, fx: Effects, k: nat)
    requires k < |bs| && Known(bs, cur, opts)
    requires Own(bs, 0, cur, k) in opts && Saved(bs, 0, cur, k) in opts
    requires fx.check(opts[Own(bs, 0, cur, k)]) == None
    ensures fx.check(opts[Saved(bs, 0, cur, k)]) == None <==>
      forall j :: IsLastHandOn(bs[k].hooks, j) ==> fx.check(opts[bs[k].hooks[j].m]) == None
  {
    var hooks, own := bs[k].hooks, Own(bs, 0, cur, k);
    assert bs[k] in bs;
    if HandsOn(hooks) {
      LastHandOnExists(hooks);
      var last :| IsLastHandOn(hooks, last);
      LastHandsOn(hooks, 0, own, last);
    } else {
      NothingHanded(hooks, 0, own);
    }
  }

  /** check runs on the mutation a builder holds and not on the one it saves. So a save
      that reaches the insert inserts only options that pass check exactly when every
      mutation that is the last handed on to some builder passes check: something to
      test before the save. */
  lemma SavesOnlyChecked(bs: seq<Builder>, cur: map<Builder, Mutation>, opts: map<Mutation, Options>, fx: Effects)
    requires bs != [] && Known(bs, cur, opts)
    ensures forall k :: 0 <= k < |bs| ==> Own(bs, 0, cur, k) in opts && Saved(bs, 0, cur, k) in opts
    ensures Reaches(bs, cur, opts, fx) ==>
      ((forall k :: 0 <= k < |bs| ==> fx.check(opts[Saved(bs, 0, cur, k)]) == None) <==>
       (forall k, j :: 0 <= k < |bs| && IsLastHandOn(bs[k].hooks, j) ==> fx.check(opts[bs[k].hooks[j].m]) == None))
  {
    PlanMeaning(bs, 0, cur, opts, fx);
    if Reaches(bs, cur, opts, fx) {
      forall k | 0 <= k < |bs|
        ensures fx.check(opts[Saved(bs, 0, cur, k)]) == None <==>
          forall j :: IsLastHandOn(bs[k].hooks, j) ==> fx.check(opts[bs[k].hooks[j].m]) == None
      {
        SavedPasses(bs, cur, opts, fx, k);
      }
    }
  }

  /** A builder whose hook hands on a mutation that fails its check still saves it. */
  lemma HandedOnUnchecked(b: Builder, own: Mutation, other: Mutation, good: Options, bad: Options, fx: Effects,
                          insert: seq<Spec> -> Option<CreateError>)
    requires own != other && b.hooks == [HandOn(other)]
    requires fx.check(good) == None && insert([fx.spec(bad)]) == None
    ensures Run(WholePlan([b], map[b := own], map[own := good, other := bad], fx), [], insert)
      == Outcome(None, [Enter(0, 0), Insert([fx.spec(bad)]), Exit(0, 0)], {0})
  {
    var cur, opts := map[b := own], map[own := good, other := bad];
    HooksThenBuilder([b], 0, 0, own, cur, opts, fx);
    LastHandsOn(b.hooks, 0, own, 0);
    var hook, base := HookFrame(0, 0, Through), Base(0, own, other, opts, fx);
    assert WholePlan([b], cur, opts, fx) == [hook, base];
    assert [hook, base][1..] == [base] && [base][1..] == [];
    assert Run<Mutation>([], [fx.spec(bad)], insert) == Outcome(None, [Insert([fx.spec(bad)])], {});
    assert [] + [fx.spec(bad)] == [fx.spec(bad)];
  }

  // An input of that kind under the rules of check itself: every default is the zero
  // value of its column, and the one thing a validator refuses is an empty name.

  const EXAMPLE_ENV := Env((c: Column) => Some(ZeroValue(FieldKind(c))),
                           (c: Column, v: Value) => if c == Name && v == VString("") then Some(1) else None)

  const NAMED := Options(map[Key := VString("k"), Name := VString("n")], Some(1), None, None, [], [])

  /** Options that are complete, and the same with an empty name. */
  const GOOD := Defaults(NAMED, EXAMPLE_ENV).0
  const BAD := GOOD.(fields := GOOD.fields[Name := VString("")])

  lemma GoodIsComplete()
    ensures Name in GOOD.fields && GOOD.fields[Name] == VString("n")
    ensures GOOD.user == Some(1)
    ensures forall c :: Required(c) in RULES ==> c in GOOD.fields
  {
    assert Key in NAMED.fields && Name in NAMED.fields && NAMED.fields[Name] == VString("n");
    DefaultsComplete(NAMED, EXAMPLE_ENV);
  }

  lemma GoodPassesBadFails()
    ensures Check(GOOD, EXAMPLE_ENV) == None && Check(BAD, EXAMPLE_ENV).Some?
  {
    GoodIsComplete();
    FirstErrorSpec(RULES, GOOD, EXAMPLE_ENV);
    FirstErrorSpec(RULES, BAD, EXAMPLE_ENV);
    forall rule | rule in RULES
      ensures RuleError(rule, GOOD, EXAMPLE_ENV) == None
    {
    }
    NameIsValidated();
    assert RuleError(Validated(Name), BAD, EXAMPLE_ENV) == Some(Invalid(Name, 1));
  }

  lemma NameIsValidated()
    ensures Validated(Name) in RULES
  {
    assert RULES_1[7] == Validated(Name);
    assert RULES_1[7] in RULES_1;
  }

  /** With those rules, a save of a builder that holds good options, whose hook hands on
      the bad ones, succeeds and inserts the row that check would have refused. */
  lemma UncheckedMutationIsSaved(b: Builder, own: Mutation, other: Mutation)
    requires own != other && b.hooks == [HandOn(other)]
    ensures Check(BAD, EXAMPLE_ENV).Some?
    ensures Run(WholePlan([b], map[b := own], map[own := GOOD, other := BAD], EffectsOf(EXAMPLE_ENV)), [],
                (specs: seq<Spec>) => None)
      == Outcome(None, [Enter(0, 0), Insert([SpecOf(BAD)]), Exit(0, 0)], {0})
  {
    GoodPassesBadFails();
    HandedOnUnchecked(b, own, other, GOOD, BAD, EffectsOf(EXAMPLE_ENV), (specs: seq<Spec>) => None);
  }

  // ---- defaults that fail ------------------------------------------------------------------

  /** The first position of a builder. */
  lemma {:induction false} FirstListing(bs: seq<Builder>, k: nat) returns (i: nat)
    requires k < |bs|
    ensures i <= k && bs[i] == bs[k] && forall j :: 0 <= j < i ==> bs[j] != bs[k]
    decreases k
  {
    if j :| 0 <= j < k && bs[j] == bs[k] {
      i := FirstListing(bs, j);
    } else {
      i := k;
    }
  }

  /** Bulk save drops the errors of defaults, yet a builder whose defaults fail, with any
      hooks and however often it is listed, stops the whole save before anything is
      inserted or marked. */
  lemma DefaultErrorStopsBulk(bs: seq<Builder>, cur: map<Builder, Mutation>, opts: map<Mutation, Options>, env: Env,
                              insert: seq<Spec> -> Option<CreateError>, k: nat, o: Options)
    requires k < |bs| && Known(bs, cur, opts)
    requires opts[cur[bs[k]]] == Defaults(o, env).0 && Defaults(o, env).1.Some?
    ensures var plan := WholePlan(bs, cur, opts, EffectsOf(env));
      var out := Run(plan, [], insert);
      && Block(plan).Some? && out.err == Block(plan) && out.done == {}
      && forall x :: !Marked(plan, out.done, x)
  {
    var i := FirstListing(bs, k);
    OwnOfDistinct(bs, 0, cur, i);
    DroppedDefaultErrorIsCaught(o, env);
    PlanMeaning(bs, 0, cur, opts, EffectsOf(env));
    assert EffectsOf(env).check(opts[Own(bs, 0, cur, i)]) == Check(Defaults(o, env).0, env);
    var plan := WholePlan(bs, cur, opts, EffectsOf(env));
    RunError(plan, [], insert);
    RunDone(plan, [], insert);
  }

  // ---- a bulk save on the heap -----------------------------------------------------------

  /** Node k as a successful save leaves it. */
  ghost predicate IsCreated(node: APIKey?, o: Options, fx: Effects, id: Option<int>)
    reads if node == null then {} else {node}
  {
    node != null && node.data == WithId(fx.node(o), id)
  }

  /** A successful save returns, at position k, the node of the mutation builder k
      saved, with the identity the insert gave to row k, and that mutation is done. */
  lemma NodeOfBuilder(create: APIKeyCreateBulk, final: Saving, r: Result<seq<APIKey?>, CreateError>, trace: seq<Event>,
                      cur: map<Builder, Mutation>, opts: map<Mutation, Options>, was: Snapshot,
                      log: seq<BatchCall>, k: nat)
    requires create.builders != [] && Known(create.builders, cur, opts) && k < |create.builders|
    requires create.Finished(final, r, trace, cur, opts, was, log) && r.Success?
    ensures var bs, fx := create.builders, final.fx;
      var specs := Specs(WholePlan(bs, cur, opts, fx));
      && |r.value| == |bs| && Saved(bs, 0, cur, k) in opts
      && IsCreated(r.value[k], opts[Saved(bs, 0, cur, k)], fx, NewId(create.driver.respond(specs), k))
      && Saved(bs, 0, cur, k).done
  {
    var bs, fx := create.builders, final.fx;
    var plan := WholePlan(bs, cur, opts, fx);
    var done := Run(plan, [], Inserting(create.driver.respond)).done;
    BulkSaveMeans(bs, cur, opts, fx, Inserting(create.driver.respond));
    PlanInOrder(bs, 0, cur, opts, fx);
    PlanCovers(bs, 0, 0, cur[bs[0]], cur, opts, fx);
    NodeOfFrame(final, plan, bs, cur, opts, was, done, create.driver.respond(Specs(plan)), k);
  }

  lemma NodeOfFrame(final: Saving, plan: seq<Frame<Mutation>>, bs: seq<Builder>, cur: map<Builder, Mutation>,
                    opts: map<Mutation, Options>, was: Snapshot, done: set<nat>,
                    answer: Result<seq<Option<int>>, DbError>, k: nat)
    requires Holds(bs, cur) && InOrder(plan, bs, 0, cur) && HasBuilder(plan, k) && k < |bs| && k in done
    requires final.NodesCreated(plan, done, answer, opts) && final.MutationsMarked(was, plan, done, opts)
    requires Marked(plan, done, Saved(bs, 0, cur, k)) && Saved(bs, 0, cur, k) in opts
    ensures k < |final.nodes|
    ensures IsCreated(final.nodes[k], opts[Saved(bs, 0, cur, k)], final.fx, NewId(answer, k))
    ensures Saved(bs, 0, cur, k).done
    ensures var owner := Owner(plan, done, Saved(bs, 0, cur, k));
      owner < |final.nodes| && Saved(bs, 0, cur, k).idOf == final.nodes[owner]
  {
    var q :| 0 <= q < |plan| && plan[q].BaseFrame? && plan[q].i == k;
    assert plan[q].m == Saved(bs, 0, cur, k);
    assert final.MutationMarked(was, plan, done, Saved(bs, 0, cur, k));
  }

  /** A bulk save with hooks that only wrap, as its caller sees it: the database is asked
      once, with every builder's spec in order, when all checks pass, and never
      otherwise; the save succeeds when, further, the insert does. */
  lemma WrappedSave(create: APIKeyCreateBulk, final: Saving, r: Result<seq<APIKey?>, CreateError>, trace: seq<Event>,
                    cur: map<Builder, Mutation>, opts: map<Mutation, Options>, was: Snapshot, log: seq<BatchCall>)
    requires create.builders != [] && Known(create.builders, cur, opts)
    requires create.Finished(final, r, trace, cur, opts, was, log) && OnlyWrap(create.builders)
    ensures var specs := OwnSpecs(create.builders, cur, opts, final.fx);
      var passes := AllPass(create.builders, cur, opts, final.fx);
      && create.driver.log == log + (if passes then [BatchCall(specs, create.conflict)] else [])
      && (r.Success? <==> passes && create.driver.respond(specs).Success?)
  {
    PassThroughBulk(create.builders, cur, opts, final.fx, Inserting(create.driver.respond));
  }

  /** On success node k is what createSpec built from builder k's mutation with the
      identity the insert gave to row k; that mutation is done and, if no earlier
      builder shares it, refers to node k. */
  lemma WrappedSuccess(create: APIKeyCreateBulk, final: Saving, r: Result<seq<APIKey?>, CreateError>, trace: seq<Event>,
                       cur: map<Builder, Mutation>, opts: map<Mutation, Options>, was: Snapshot,
                       log: seq<BatchCall>, k: nat)
    requires create.builders != [] && Known(create.builders, cur, opts) && k < |create.builders|
    requires create.Finished(final, r, trace, cur, opts, was, log) && OnlyWrap(create.builders) && r.Success?
    ensures var mine := cur[create.builders[k]];
      var specs := OwnSpecs(create.builders, cur, opts, final.fx);
      && |r.value| == |create.builders|
      && IsCreated(r.value[k], opts[mine], final.fx, NewId(create.driver.respond(specs), k))
      && mine.done
      && ((forall j :: 0 <= j < k ==> cur[create.builders[j]] != mine) ==> mine.idOf == r.value[k])
  {
    var bs, fx, insert := create.builders, final.fx, Inserting(create.driver.respond);
    var plan := WholePlan(bs, cur, opts, fx);
    PassThroughBulk(bs, cur, opts, fx, insert);
    WrappedSaved(bs, cur);
    NodeOfBuilder(create, final, r, trace, cur, opts, was, log, k);
    PointsToOwnNode(bs, cur, opts, fx, insert, k);
    assert final.MutationMarked(was, plan, Run(plan, [], insert).done, cur[bs[k]]);
  }

  lemma WrappedSaved(bs: seq<Builder>, cur: map<Builder, Mutation>)
    requires Holds(bs, cur) && OnlyWrap(bs)
    ensures forall k :: 0 <= k < |bs| ==> Saved(bs, 0, cur, k) == cur[bs[k]]
  {
    forall k | 0 <= k < |bs|
      ensures Saved(bs, 0, cur, k) == cur[bs[k]]
    {
      OwnIsSaved(bs, 0, cur, k);
    }
  }

  /** On an error no mutation is newly done and no id pointer has moved. */
  lemma WrappedFailure(create: APIKeyCreateBulk, final: Saving, r: Result<seq<APIKey?>, CreateError>, trace: seq<Event>,
                       cur: map<Builder, Mutation>, opts: map<Mutation, Options>, was: Snapshot, log: seq<BatchCall>,
                       x: Mutation)
    requires create.builders != [] && Known(create.builders, cur, opts) && x in opts
    requires create.Finished(final, r, trace, cur, opts, was, log) && OnlyWrap(create.builders) && r.Failure?
    ensures x in was.done && x in was.ids && x.done == was.done[x] && x.idOf == was.ids[x]
  {
    var plan := WholePlan(create.builders, cur, opts, final.fx);
    PassThroughBulk(create.builders, cur, opts, final.fx, Inserting(create.driver.respond));
    assert final.MutationMarked(was, plan, Run(plan, [], Inserting(create.driver.respond)).done, x);
  }

  /** A save with a builder whose defaults failed: an error, no call to the database, and
      no mutation newly done or pointing anywhere else. */
  lemma DefaultErrorOutcome(create: APIKeyCreateBulk, final: Saving, r: Result<seq<APIKey?>, CreateError>,
                            trace: seq<Event>, cur: map<Builder, Mutation>, opts: map<Mutation, Options>, was: Snapshot,
                            log: seq<BatchCall>, env: Env, k: nat, o: Options)
    requires create.builders != [] && Known(create.builders, cur, opts) && k < |create.builders|
    requires create.Finished(final, r, trace, cur, opts, was, log) && final.fx == EffectsOf(env)
    requires opts[cur[create.builders[k]]] == Defaults(o, env).0 && Defaults(o, env).1.Some?
    ensures r.Failure? && create.driver.log == log
    ensures forall x :: x in opts ==>
      x in was.done && x in was.ids && x.done == was.done[x] && x.idOf == was.ids[x]
  {
    var insert := Inserting(create.driver.respond);
    DefaultErrorStopsBulk(create.builders, cur, opts, env, insert, k, o);
    var plan := WholePlan(create.builders, cur, opts, final.fx);
    assert log + [] == log;
    forall x | x in opts
      ensures x in was.done && x in was.ids && x.done == was.done[x] && x.idOf == was.ids[x]
    {
      assert final.MutationMarked(was, plan, Run(plan, [], insert).done, x);
    }
  }

  // ---- failures, whatever the hooks --------------------------------------------------------

  /** The insert was made and succeeded, and then some hook refused. */
  ghost predicate LateRefusal(bs: seq<Builder>, cur: map<Builder, Mutation>, opts: map<Mutation, Options>, fx: Effects,
                              respond: seq<Spec> -> Result<seq<Option<int>>, DbError>)
    requires Known(bs, cur, opts)
    requires forall k :: 0 <= k < |bs| ==> Own(bs, 0, cur, k) in opts && Saved(bs, 0, cur, k) in opts
  {
    && Reaches(bs, cur, opts, fx) && respond(SavedSpecs(bs, cur, opts, fx)).Success?
    && exists k :: 0 <= k < |bs| && FailsLate(bs[k].hooks)
  }

  /** A save that fails marks some mutation exactly when its insert succeeded and a hook
      refused afterwards; a failure of any other kind leaves all marks as they were. */
  lemma FailureMarks(create: APIKeyCreateBulk, final: Saving, r: Result<seq<APIKey?>, CreateError>, trace: seq<Event>,
                     cur: map<Builder, Mutation>, opts: map<Mutation, Options>, was: Snapshot, log: seq<BatchCall>)
    requires create.builders != [] && Known(create.builders, cur, opts)
    requires create.Finished(final, r, trace, cur, opts, was, log) && r.Failure?
    ensures var bs, fx, respond := create.builders, final.fx, create.driver.respond;
      var plan := WholePlan(bs, cur, opts, fx);
      var done := Run(plan, [], Inserting(respond)).done;
      && (forall k :: 0 <= k < |bs| ==> Own(bs, 0, cur, k) in opts && Saved(bs, 0, cur, k) in opts)
      && ((exists x :: x in opts && Marked(plan, done, x)) <==> LateRefusal(bs, cur, opts, fx, respond))
      && (!LateRefusal(bs, cur, opts, fx, respond) ==> forall x :: x in opts ==>
            x in was.done && x in was.ids && x.done == was.done[x] && x.idOf == was.ids[x])
  {
    var bs, fx, insert := create.builders, final.fx, Inserting(create.driver.respond);
    var plan := WholePlan(bs, cur, opts, fx);
    var done := Run(plan, [], insert).done;
    BulkSaveMeans(bs, cur, opts, fx, insert);
    FailedRunMarks(bs, cur, opts, fx, insert);
    forall x | x in opts && !Marked(plan, done, x)
      ensures x in was.done && x in was.ids && x.done == was.done[x] && x.idOf == was.ids[x]
    {
      assert final.MutationMarked(was, plan, done, x);
    }
  }

  lemma FailedRunMarks(bs: seq<Builder>, cur: map<Builder, Mutation>, opts: map<Mutation, Options>, fx: Effects,
                       insert: seq<Spec> -> Option<CreateError>)
    requires bs != [] && Known(bs, cur, opts)
    requires Run(WholePlan(bs, cur, opts, fx), [], insert).err.Some?
    ensures forall k :: 0 <= k < |bs| ==> Own(bs, 0, cur, k) in opts && Saved(bs, 0, cur, k) in opts
    ensures var plan := WholePlan(bs, cur, opts, fx);
      var done := Run(plan, [], insert).done;
      (exists x :: x in opts && Marked(plan, done, x)) <==>
        (Reaches(bs, cur, opts, fx) && insert(SavedSpecs(bs, cur, opts, fx)) == None
         && exists k :: 0 <= k < |bs| && FailsLate(bs[k].hooks))
  {
    var plan := WholePlan(bs, cur, opts, fx);
    var out := Run(plan, [], insert);
    BulkSaveMeans(bs, cur, opts, fx, insert);
    if out.done != {} {
      // Builder j is done, so the mutation it saved is marked.
      var j :| j in out.done;
      RunDone(plan, [], insert);
      var q :| 0 <= q < |plan| && plan[q].BaseFrame? && plan[q].i == j && Undo(plan[q + 1..]) == None;
      PlanInOrder(bs, 0, cur, opts, fx);
      assert Marks(plan[q], out.done, plan[q].m);
      assert Marked(plan, out.done, Saved(bs, 0, cur, j));
    }
  }

  /** The failing input, as a builder: its only hook refuses after the inner call, its
      check and the insert succeed, and so the row exists and its mutation is marked
      although an error is returned. */
  lemma LateRefusalIsNotAtomic(b: Builder, own: Mutation, o: Options, fx: Effects, code: int,
                               insert: seq<Spec> -> Option<CreateError>)
    requires b.hooks == [RejectAfter(code)] && fx.check(o) == None && insert([fx.spec(o)]) == None
    ensures var plan := WholePlan([b], map[b := own], map[own := o], fx);
      var out := Run(plan, [], insert);
      && out == Outcome(Some(Rejected(code)), [Enter(0, 0), Insert([fx.spec(o)]), Exit(0, 0)], {0})
      && Marked(plan, out.done, own) && !AllOrNothing(plan, out)
  {
    var cur, opts := map[b := own], map[own := o];
    HooksThenBuilder([b], 0, 0, own, cur, opts, fx);
    NothingHanded(b.hooks, 0, own);
    LateRefusalRuns(own, fx.spec(o), code, insert);
    var hook, base := HookFrame(0, 0, After(code)), Base(0, own, own, opts, fx);
    assert HookFrames(0, b.hooks, 0) == [hook];
    var plan := WholePlan([b], cur, opts, fx);
    assert plan == [hook, base];
    assert Marks(plan[1], {0}, own);
  }
}
