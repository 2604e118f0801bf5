/** The control flow of a save: hooks wrapped around builders, each builder calling
    the next and the last one inserting. A chain is the flat list of frames the call
    goes through, outermost first; running it gives the error, the trace of hook
    entries and exits, and which builders end up marked done. */
module MutatorChain {
  import opened CreateChecks
  import opened RowMapping
  import opened Schema
  import opened Wrappers

  /** What a hook does around the mutator it wraps: call it, refuse before calling
      it, or call it and then turn success into an error. */
  datatype HookKind = Through | Before(code: int) | After(code: int)

  /** A hook of builder i, or builder i itself: the error its check reports, the
      mutation it was handed and the spec it creates. */
  datatype Frame<M> = HookFrame(i: nat, h: nat, kind: HookKind)
                    | BaseFrame(i: nat, failure: Option<CreateError>, m: M, spec: Spec)

  datatype Event = Enter(i: nat, h: nat) | Exit(i: nat, h: nat) | Insert(specs: seq<Spec>)

  datatype Outcome = Outcome(err: Option<CreateError>, trace: seq<Event>, done: set<nat>)

  /** Runs the frames; filled holds the specs of the builders before them. */
  function Run<M>(frames: seq<Frame<M>>, filled: seq<Spec>, insert: seq<Spec> -> Option<CreateError>): Outcome {
    if frames == [] then Outcome(insert(filled), [Insert(filled)], {})
    else match frames[0]
      case HookFrame(i, h, kind) =>
        if kind.Before? then Outcome(Some(Rejected(kind.code)), [Enter(i, h), Exit(i, h)], {})
        else
          var r := Run(frames[1..], filled, insert);
          Outcome(if r.err == None && kind.After? then Some(Rejected(kind.code)) else r.err,
                  [Enter(i, h)] + r.trace + [Exit(i, h)], r.done)
      case BaseFrame(i, failure, _, spec) =>
        if failure.Some? then Outcome(failure, [], {})
        else
          var r := Run(frames[1..], filled + [spec], insert);
          Outcome(r.err, r.trace, if r.err == None then r.done + {i} else r.done)
  }

  // ---- independent reading of a run -----------------------------------------

  /** The error of the outermost frame that stops the descent. */
  function Block<M>(frames: seq<Frame<M>>): Option<CreateError> {
    if frames == [] then None
    else match frames[0]
      case HookFrame(_, _, kind) => if kind.Before? then Some(Rejected(kind.code)) else Block(frames[1..])
      case BaseFrame(_, failure, _, _) => if failure.Some? then failure else Block(frames[1..])
  }

  /** The error of the innermost hook that fails on the way out. */
  function Undo<M>(frames: seq<Frame<M>>): Option<CreateError> {
    if frames == [] then None
    else
      var inner := Undo(frames[1..]);
      if inner.Some? then inner
      else if frames[0].HookFrame? && frames[0].kind.After? then Some(Rejected(frames[0].kind.code))
      else None
  }

  /** The specs of the builders in the chain. */
  function Specs<M>(frames: seq<Frame<M>>): seq<Spec> {
    if frames == [] then []
    else if frames[0].BaseFrame? then [frames[0].spec] + Specs(frames[1..])
    else Specs(frames[1..])
  }

  /** The hooks entered, in order: all up to the frame that stops the descent. */
  function Entered<M>(frames: seq<Frame<M>>): seq<(nat, nat)> {
    if frames == [] then []
    else match frames[0]
      case HookFrame(i, h, kind) => [(i, h)] + (if kind.Before? then [] else Entered(frames[1..]))
      case BaseFrame(_, failure, _, _) => if failure.Some? then [] else Entered(frames[1..])
  }

  function Enters(hooks: seq<(nat, nat)>): seq<Event> {
    seq(|hooks|, j requires 0 <= j < |hooks| => Enter(hooks[j].0, hooks[j].1))
  }

  /** Exits in exact reverse order. */
  function Exits(hooks: seq<(nat, nat)>): seq<Event> {
    seq(|hooks|, j requires 0 <= j < |hooks| => Exit(hooks[|hooks| - 1 - j].0, hooks[|hooks| - 1 - j].1))
  }

  /** The trace is well nested: the hooks are entered in order, the insert happens
      exactly once and innermost when nothing stops the descent and with every
      builder's spec, and the same hooks are left in exact reverse order. */
  lemma {:induction false} TraceNested<M>(frames: seq<Frame<M>>, filled: seq<Spec>,
                                          insert: seq<Spec> -> Option<CreateError>)
    ensures Run(frames, filled, insert).trace
      == Enters(Entered(frames))
         + (if Block(frames) == None then [Insert(filled + Specs(frames))] else [])
         + Exits(Entered(frames))
  {
    if frames == [] {
      assert filled + Specs(frames) == filled;
    } else {
      var rest := frames[1..];
      match frames[0]
      case HookFrame(i, h, kind) =>
        if kind.Before? {
        } else {
          TraceNested(rest, filled, insert);
          assert Enters([(i, h)] + Entered(rest)) == [Enter(i, h)] + Enters(Entered(rest));
          assert Exits([(i, h)] + Entered(rest)) == Exits(Entered(rest)) + [Exit(i, h)];
        }
      case BaseFrame(i, failure, _, spec) =>
        if failure == None {
          TraceNested(rest, filled + [spec], insert);
          assert filled + [spec] + Specs(rest) == filled + Specs(frames);
        }
    }
  }

  /** What the insert of a whole chain reports. */
  function Inserted<M>(frames: seq<Frame<M>>, filled: seq<Spec>, insert: seq<Spec> -> Option<CreateError>)
    : Option<CreateError>
  {
    insert(filled + Specs(frames))
  }

  /** The error of a run: what stops the descent, else what the insert reports, else
      the innermost hook that fails on the way out. */
  lemma {:induction false} RunError<M>(frames: seq<Frame<M>>, filled: seq<Spec>,
                                       insert: seq<Spec> -> Option<CreateError>)
    ensures Run(frames, filled, insert).err ==
      if Block(frames).Some? then Block(frames)
      else if Inserted(frames, filled, insert).Some? then Inserted(frames, filled, insert)
      else Undo(frames)
  {
    if frames == [] {
      assert filled + Specs(frames) == filled;
    } else {
      var rest := frames[1..];
      match frames[0]
      case HookFrame(i, h, kind) =>
        RunError(rest, filled, insert);
      case BaseFrame(i, failure, _, spec) =>
        RunError(rest, filled + [spec], insert);
        assert filled + [spec] + Specs(rest) == filled + Specs(frames);
    }
  }

  /** Builder i is in the chain and no hook inside it fails on the way out. */
  ghost predicate DoneAt<M>(frames: seq<Frame<M>>, i: nat) {
    exists k :: 0 <= k < |frames| && frames[k].BaseFrame? && frames[k].i == i && Undo(frames[k + 1..]) == None
  }

  /** A builder ends up done exactly when the insert succeeded and no hook inside it
      failed on the way out. */
  lemma {:induction false} RunDone<M>(frames: seq<Frame<M>>, filled: seq<Spec>,
                                      insert: seq<Spec> -> Option<CreateError>)
    ensures forall i: nat :: i in Run(frames, filled, insert).done <==>
      Block(frames) == None && Inserted(frames, filled, insert) == None && DoneAt(frames, i)
  {
    if frames != [] {
      var rest := frames[1..];
      var next := if frames[0].BaseFrame? then filled + [frames[0].spec] else filled;
      RunDone(rest, next, insert);
      RunError(rest, next, insert);
      assert next + Specs(rest) == filled + Specs(frames);
      forall i: nat
        ensures DoneAt(frames, i) <==>
          (frames[0].BaseFrame? && frames[0].i == i && Undo(rest) == None) || DoneAt(rest, i)
      {
        DoneSplit(frames, i);
      }
    }
  }

  lemma DoneSplit<M>(frames: seq<Frame<M>>, i: nat)
    requires frames != []
    ensures DoneAt(frames, i) <==>
      (frames[0].BaseFrame? && frames[0].i == i && Undo(frames[1..]) == None) || DoneAt(frames[1..], i)
  {
    var rest := frames[1..];
    assert forall k :: 0 <= k < |rest| ==> frames[k + 1] == rest[k] && frames[k + 2..] == rest[k + 1..];
    if DoneAt(frames, i) {
      var k :| 0 <= k < |frames| && frames[k].BaseFrame? && frames[k].i == i && Undo(frames[k + 1..]) == None;
      if k > 0 {
        assert rest[k - 1] == frames[k] && rest[k..] == frames[k + 1..];
      }
    }
    if DoneAt(rest, i) {
      var k :| 0 <= k < |rest| && rest[k].BaseFrame? && rest[k].i == i && Undo(rest[k + 1..]) == None;
      assert frames[k + 1] == rest[k] && frames[k + 2..] == rest[k + 1..];
    }
  }

  // ---- all or nothing ----------------------------------------------------------

  /** A run is all-or-nothing when an error leaves no builder done and success leaves
      every builder of the chain done. */
  ghost predicate AllOrNothing<M>(frames: seq<Frame<M>>, out: Outcome) {
    && (out.err.Some? ==> out.done == {})
    && (out.err == None ==> forall k :: 0 <= k < |frames| && frames[k].BaseFrame? ==> frames[k].i in out.done)
  }

  lemma {:induction false} UndoInside<M>(frames: seq<Frame<M>>, k: nat)
    requires k <= |frames| && Undo(frames) == None
    ensures Undo(frames[k..]) == None
  {
    if k > 0 {
      UndoInside(frames[1..], k - 1);
      assert frames[1..][k - 1..] == frames[k..];
    } else {
      assert frames[0..] == frames;
    }
  }

  lemma {:induction false} UndoSpec<M>(frames: seq<Frame<M>>)
    ensures Undo(frames).Some? <==> exists k :: 0 <= k < |frames| && frames[k].HookFrame? && frames[k].kind.After?
  {
    if frames != [] {
      UndoSpec(frames[1..]);
      assert forall k :: 0 <= k < |frames| - 1 ==> frames[1..][k] == frames[k + 1];
      if Undo(frames[1..]).Some? {
        var k :| 0 <= k < |frames[1..]| && frames[1..][k].HookFrame? && frames[1..][k].kind.After?;
        assert frames[k + 1].HookFrame? && frames[k + 1].kind.After?;
      }
    }
  }

  /** Saving a chain that ends in a builder is all-or-nothing exactly when the run is
      not one whose insert succeeds and some hook then refuses: in that case rows
      exist and the innermost builder is marked done although an error is returned. */
  lemma AllOrNothingExactly<M>(frames: seq<Frame<M>>, insert: seq<Spec> -> Option<CreateError>)
    requires frames != [] && frames[|frames| - 1].BaseFrame?
    ensures AllOrNothing(frames, Run(frames, [], insert)) <==>
      !(Block(frames) == None && Inserted(frames, [], insert) == None
        && exists k :: 0 <= k < |frames| && frames[k].HookFrame? && frames[k].kind.After?)
  {
    RunError(frames, [], insert);
    RunDone(frames, [], insert);
    UndoSpec(frames);
    var last := |frames| - 1;
    assert Undo(frames[last + 1..]) == None;
    assert DoneAt(frames, frames[last].i);
    if Undo(frames) == None {
      forall k | 0 <= k < |frames| && frames[k].BaseFrame?
        ensures DoneAt(frames, frames[k].i)
      {
        UndoInside(frames, k + 1);
      }
    }
  }

  /** One builder behind one hook that refuses after the inner call. Its check and the
      insert succeed, so the builder is done, and yet an error is returned. */
  lemma LateRefusalRuns<M>(m: M, spec: Spec, code: int, insert: seq<Spec> -> Option<CreateError>)
    requires insert([spec]) == None
    ensures var frames := [HookFrame(0, 0, After(code)), BaseFrame(0, None, m, spec)];
      && Run(frames, [], insert) == Outcome(Some(Rejected(code)), [Enter(0, 0), Insert([spec]), Exit(0, 0)], {0})
      && !AllOrNothing(frames, Run(frames, [], insert))
  {
    var base := BaseFrame(0, None, m, spec);
    var frames := [HookFrame(0, 0, After(code)), base];
    assert frames[1..] == [base] && [base][1..] == [];
    assert [] + [spec] == [spec];
    assert Run([base], [], insert) == Outcome(None, [Insert([spec])], {0});
  }

  /** Hooks that only wrap: nothing is refused before or after the inner call. */
  ghost predicate PassThrough<M>(frames: seq<Frame<M>>) {
    forall k :: 0 <= k < |frames| && frames[k].HookFrame? ==> frames[k].kind == Through
  }

  lemma {:induction false} BlockSpec<M>(frames: seq<Frame<M>>)
    ensures Block(frames) == None <==>
      forall k :: 0 <= k < |frames| ==>
        !(frames[k].HookFrame? && frames[k].kind.Before?) && !(frames[k].BaseFrame? && frames[k].failure.Some?)
  {
    if frames != [] {
      BlockSpec(frames[1..]);
      assert forall k :: 0 <= k < |frames| - 1 ==> frames[1..][k] == frames[k + 1];
      assert forall k :: 0 < k < |frames| ==> frames[k] == frames[1..][k - 1];
    }
  }

  /** With pass-through hooks a save succeeds exactly when every check passes and the
      insert succeeds; then every builder is done, and otherwise none is. */
  lemma PassThroughSave<M>(frames: seq<Frame<M>>, insert: seq<Spec> -> Option<CreateError>)
    requires frames != [] && frames[|frames| - 1].BaseFrame? && PassThrough(frames)
    ensures var out := Run(frames, [], insert);
      && AllOrNothing(frames, out)
      && (out.err == None <==>
            (forall k :: 0 <= k < |frames| && frames[k].BaseFrame? ==> frames[k].failure == None)
            && insert(Specs(frames)) == None)
  {
    AllOrNothingExactly(frames, insert);
    RunError(frames, [], insert);
    BlockSpec(frames);
    UndoSpec(frames);
    assert [] + Specs(frames) == Specs(frames);
  }
}
