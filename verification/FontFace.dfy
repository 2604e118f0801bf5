/** The font-face hook of frontend/postcss.config.js, on rules that hold their
    declarations as mutable objects. */
module FontFace {
  import opened UnicodeRange
  import opened Wrappers

  /** A declaration's property name; only `unicode-range` matters here. */
  datatype Property = RangeProperty | OtherProperty(name: string)

  class Declaration {
    const prop: Property
    var value: string

    constructor (prop: Property, value: string)
      ensures this.prop == prop && this.value == value
    {
      this.prop, this.value := prop, value;
    }
  }

  class FontFaceRule {
    const source: string
    var nodes: seq<Declaration>
    var removed: bool

    constructor (source: string, nodes: seq<Declaration>)
      ensures this.source == source && this.nodes == nodes && !removed
    {
      this.source, this.nodes, removed := source, nodes, false;
    }
  }

  predicate Contains(s: string, t: string) {
    exists i :: 0 <= i <= |s| && t <= s[i..]
  }

  /** notoSansScCssPattern: either kind of path separator, in both places. */
  predicate IsNotoSource(source: string) {
    || Contains(source, "@fontsource-variable/noto-sans-sc/")
    || Contains(source, "@fontsource-variable/noto-sans-sc\\")
    || Contains(source, "@fontsource-variable\\noto-sans-sc/")
    || Contains(source, "@fontsource-variable\\noto-sans-sc\\")
  }

  predicate IsSeparator(c: char) {
    c == '/' || c == '\\'
  }

  /** A path matches exactly when somewhere in it the two directory names follow each
      other, each followed by a separator of either kind. */
  lemma NotoSourceIs(source: string)
    ensures IsNotoSource(source) <==>
      exists before, a, b, after :: IsSeparator(a) && IsSeparator(b)
        && source == NotoPath(before, a, b, after)
  {
    MiddleIs('/', '/');
    MiddleIs('/', '\\');
    MiddleIs('\\', '/');
    MiddleIs('\\', '\\');
    if IsNotoSource(source) {
      var a, b :| IsSeparator(a) && IsSeparator(b) && Contains(source, Middle(a, b));
      ContainsIs(source, Middle(a, b));
      var before, after :| source == before + Middle(a, b) + after;
      assert source == NotoPath(before, a, b, after);
    }
    if before, a, b, after :| IsSeparator(a) && IsSeparator(b) && source == NotoPath(before, a, b, after) {
      ContainsIs(source, Middle(a, b));
      MiddleIs(a, b);
    }
  }

  /** The two directory names with their separators. */
  function Middle(a: char, b: char): string {
    "@fontsource-variable" + [a] + "noto-sans-sc" + [b]
  }

  function NotoPath(before: string, a: char, b: char, after: string): string {
    before + Middle(a, b) + after
  }

  lemma MiddleIs(a: char, b: char)
    requires IsSeparator(a) && IsSeparator(b)
    ensures Middle(a, b) ==
      if a == '/' && b == '/' then "@fontsource-variable/noto-sans-sc/"
      else if a == '/' then "@fontsource-variable/noto-sans-sc\\"
      else if b == '/' then "@fontsource-variable\\noto-sans-sc/"
      else "@fontsource-variable\\noto-sans-sc\\"
  {
  }

  lemma ContainsIs(s: string, t: string)
    ensures Contains(s, t) <==> exists before, after :: s == before + t + after
  {
    if i :| 0 <= i <= |s| && t <= s[i..] {
      assert s == s[..i] + t + s[i + |t|..];
    }
    if before, after :| s == before + t + after {
      assert s[|before|..] == t + after;
    }
  }

  predicate IsRange(d: Declaration) { d.prop == RangeProperty }

  /** What becomes of a unicode-range text: the hook throws, nothing is left, or
      it is replaced. */
  datatype Outcome = Thrown | Emptied | Replaced(text: string)

  ghost function OutcomeOf(text: string, emoji: int -> bool): Outcome {
    if Throws(ParseUnicodeRange(text)) then Thrown
    else if Rewrite(text, emoji) == None then Emptied
    else Replaced(Rewrite(text, emoji).value)
  }

  /** What becomes of every text, as a function. */
  ghost function Rewriter(emoji: int -> bool): string -> Outcome {
    text => OutcomeOf(text, emoji)
  }

  /** outcome gives these outcomes. The walk is proved for any function that does, so that
      its proof need not look at what becomes of a text. */
  ghost predicate Rewrites(outcome: string -> Outcome, emoji: int -> bool) {
    forall text {:trigger OutcomeOf(text, emoji)} :: OutcomeOf(text, emoji) == outcome(text)
  }

  /** The outcome for one declaration; None for other properties. */
  ghost function At(d: Declaration, text: string, outcome: string -> Outcome): Option<Outcome> {
    if IsRange(d) then Some(outcome(text)) else None
  }

  /** The position of the first declaration that makes the hook throw, or the end. */
  ghost function Stop(nodes: seq<Declaration>, was: seq<string>, outcome: string -> Outcome): (n: nat)
    requires |nodes| == |was|
    ensures n <= |nodes|
  {
    if nodes == [] || At(nodes[0], was[0], outcome) == Some(Thrown) then 0
    else 1 + Stop(nodes[1..], was[1..], outcome)
  }

  lemma {:induction false} StopIs(nodes: seq<Declaration>, was: seq<string>, outcome: string -> Outcome, n: nat)
    requires n <= |nodes| == |was|
    requires forall i :: 0 <= i < n ==> At(nodes[i], was[i], outcome) != Some(Thrown)
    requires n < |nodes| ==> At(nodes[n], was[n], outcome) == Some(Thrown)
    ensures Stop(nodes, was, outcome) == n
  {
    if n > 0 {
      StopIs(nodes[1..], was[1..], outcome, n - 1);
    }
  }

  /** The text of a declaration that was visited: its replacement, or its former text
      when there is none. */
  ghost function Adjusted(d: Declaration, text: string, outcome: string -> Outcome): string {
    var o := At(d, text, outcome);
    if o.Some? && o.value.Replaced? then o.value.text else text
  }

  /** The texts once the declarations before position n have been visited. */
  ghost function Walked(nodes: seq<Declaration>, was: seq<string>, outcome: string -> Outcome, n: nat): seq<string>
    requires n <= |nodes| == |was|
  {
    seq(|nodes|, i requires 0 <= i < |nodes| => if i < n then Adjusted(nodes[i], was[i], outcome) else was[i])
  }

  lemma WalkedNext(nodes: seq<Declaration>, was: seq<string>, outcome: string -> Outcome, n: nat)
    requires n < |nodes| == |was|
    ensures Walked(nodes, was, outcome, n + 1)
      == Walked(nodes, was, outcome, n)[n := Adjusted(nodes[n], was[n], outcome)]
    ensures EmptiedBefore(nodes, was, outcome, n + 1)
      <==> EmptiedBefore(nodes, was, outcome, n) || At(nodes[n], was[n], outcome) == Some(Emptied)
  {
  }

  /** The rule goes when some declaration before position n keeps nothing. */
  ghost predicate EmptiedBefore(nodes: seq<Declaration>, was: seq<string>, outcome: string -> Outcome, n: nat)
    requires n <= |nodes| == |was|
  {
    exists i :: 0 <= i < n && At(nodes[i], was[i], outcome) == Some(Emptied)
  }

  ghost function Texts(nodes: seq<Declaration>): (texts: seq<string>)
    reads nodes
  {
    seq(|nodes|, i requires 0 <= i < |nodes| reads nodes => nodes[i].value)
  }

  method AllocatePairs(rs: seq<Interval>) returns (pairs: seq<Pair>)
    ensures Contents(pairs) == rs && fresh(Objects(pairs))
  {
    pairs := [];
    for i := 0 to |rs|
      invariant |pairs| == i && fresh(Objects(pairs))
      invariant Contents(pairs) == rs[..i]
    {
      var p := new Pair(rs[i].start, rs[i].end);
      assert Objects(pairs + [p]) == Objects(pairs) + {p};
      pairs := pairs + [p];
    }
  }

  /** One unicode-range declaration: parse, filter, and print unless nothing is left. */
  method AdjustDeclaration(decl: Declaration, emoji: int -> bool) returns (thrown: Option<int>, empty: bool)
    modifies decl`value
    ensures thrown.Some? <==> OutcomeOf(old(decl.value), emoji) == Thrown
    ensures thrown.Some? ==> FirstBad(Covered(old(decl.value)), thrown.value)
    ensures empty <==> OutcomeOf(old(decl.value), emoji) == Emptied
    ensures decl.value == match OutcomeOf(old(decl.value), emoji) case Replaced(t) => t case _ => old(decl.value)
  {
    thrown, empty := None, false;
    var parsed := AllocatePairs(ParseUnicodeRange(decl.value));
    var ranges := RemoveEmojiCodePoints(parsed, emoji);
    if ranges.Failure? {
      thrown := Some(ranges.error);
    } else if ranges.value == [] {
      empty := true;
    } else {
      decl.value := FormatUnicodeRange(Contents(ranges.value));
    }
  }

  /** One step of the walk: any other declaration is left alone. */
  method VisitDeclaration(decl: Declaration, emoji: int -> bool, ghost outcome: string -> Outcome)
    returns (thrown: Option<int>, empty: bool)
    requires Rewrites(outcome, emoji)
    modifies decl`value
    ensures thrown.Some? <==> At(decl, old(decl.value), outcome) == Some(Thrown)
    ensures thrown.Some? ==> FirstBad(Covered(old(decl.value)), thrown.value)
    ensures empty <==> At(decl, old(decl.value), outcome) == Some(Emptied)
    ensures decl.value == Adjusted(decl, old(decl.value), outcome)
  {
    thrown, empty := None, false;
    if IsRange(decl) {
      assert OutcomeOf(decl.value, emoji) == outcome(decl.value);
      thrown, empty := AdjustDeclaration(decl, emoji);
    }
  }

  /** The same, seen in the list of texts. */
  method VisitAt(nodes: seq<Declaration>, i: nat, emoji: int -> bool, ghost outcome: string -> Outcome)
    returns (thrown: Option<int>, empty: bool)
    requires i < |nodes| && Distinct(nodes) && Rewrites(outcome, emoji)
    modifies {nodes[i]}`value
    ensures thrown.Some? <==> At(nodes[i], old(nodes[i].value), outcome) == Some(Thrown)
    ensures thrown.Some? ==>
      FirstBad(Covered(old(nodes[i].value)), thrown.value) && Texts(nodes) == old(Texts(nodes))
    ensures empty <==> At(nodes[i], old(nodes[i].value), outcome) == Some(Emptied)
    ensures Texts(nodes) == old(Texts(nodes))[i := Adjusted(nodes[i], old(nodes[i].value), outcome)]
  {
    thrown, empty := VisitDeclaration(nodes[i], emoji, outcome);
  }

  /** The walk over the declarations of a rule, up to the first that throws. */
  method Walk(rule: FontFaceRule, nodes: seq<Declaration>, emoji: int -> bool, ghost was: seq<string>,
              ghost outcome: string -> Outcome)
    returns (thrown: Option<int>)
    requires rule.nodes == nodes && Distinct(nodes) && was == Texts(nodes) && Rewrites(outcome, emoji)
    modifies rule`removed, (set d | d in nodes)`value
    ensures var n := Stop(nodes, was, outcome);
      && (thrown.Some? <==> n < |nodes|)
      && (thrown.Some? ==> FirstBad(Covered(was[n]), thrown.value))
      && Texts(nodes) == Walked(nodes, was, outcome, n)
      && (rule.removed <==> old(rule.removed) || EmptiedBefore(nodes, was, outcome, n))
  {
    thrown := None;
    assert Walked(nodes, was, outcome, 0) == was;
    for i := 0 to |nodes|
      invariant thrown == None
      invariant forall j :: 0 <= j < i ==> At(nodes[j], was[j], outcome) != Some(Thrown)
      invariant Texts(nodes) == Walked(nodes, was, outcome, i)
      invariant rule.removed <==> old(rule.removed) || EmptiedBefore(nodes, was, outcome, i)
    {
      WalkedNext(nodes, was, outcome, i);
      assert nodes[i].value == Texts(nodes)[i] == was[i];
      var empty;
      thrown, empty := VisitAt(nodes, i, emoji, outcome);
      if thrown.Some? {
        StopIs(nodes, was, outcome, i);
        return;
      }
      if empty {
        rule.removed := true;
      }
    }
    StopIs(nodes, was, outcome, |nodes|);
  }

  /** Rewrites every unicode-range declaration of a matching rule in place and removes
      the rule when one of them keeps nothing. A number that is not a code point makes
      the hook throw: the declarations before it have been rewritten, it and the later
      ones have not. Other rules are left alone. */
  method AdjustFontFace(rule: FontFaceRule, emoji: int -> bool) returns (thrown: Option<int>)
    requires Distinct(rule.nodes)
    modifies rule`removed, (set d | d in rule.nodes)`value
    ensures !IsNotoSource(rule.source) ==>
      thrown == None && rule.removed == old(rule.removed) && Texts(rule.nodes) == old(Texts(rule.nodes))
    ensures IsNotoSource(rule.source) ==>
      var nodes, was := rule.nodes, old(Texts(rule.nodes));
      var n := Stop(nodes, was, Rewriter(emoji));
      && (thrown.Some? <==> n < |nodes|)
      && (thrown.Some? ==> FirstBad(Covered(was[n]), thrown.value))
      && Texts(nodes) == Walked(nodes, was, Rewriter(emoji), n)
      && (rule.removed <==> old(rule.removed) || EmptiedBefore(nodes, was, Rewriter(emoji), n))
  {
    var applies := IsNotoSource(rule.source);
    if applies {
      thrown := Walk(rule, rule.nodes, emoji, Texts(rule.nodes), Rewriter(emoji));
    } else {
      thrown := None;
    }
  }

  // ---- running the hook again --------------------------------------------------------------

  /** A replacement is replaced by itself. */
  ghost predicate Settles(outcome: string -> Outcome) {
    forall text :: outcome(text).Replaced? ==> outcome(outcome(text).text) == outcome(text)
  }

  lemma RewriterSettles(emoji: int -> bool)
    ensures Settles(Rewriter(emoji))
  {
    forall text | OutcomeOf(text, emoji).Replaced?
      ensures OutcomeOf(OutcomeOf(text, emoji).text, emoji) == OutcomeOf(text, emoji)
    {
      RewriteCoverage(text, emoji);
      RewriteKeepsCodePoints(text, emoji);
    }
  }

  lemma {:induction false} StopSpec(nodes: seq<Declaration>, was: seq<string>, outcome: string -> Outcome)
    requires |nodes| == |was|
    ensures var n := Stop(nodes, was, outcome);
      && (forall i :: 0 <= i < n ==> At(nodes[i], was[i], outcome) != Some(Thrown))
      && (n < |nodes| ==> At(nodes[n], was[n], outcome) == Some(Thrown))
  {
    if nodes != [] && At(nodes[0], was[0], outcome) != Some(Thrown) {
      StopSpec(nodes[1..], was[1..], outcome);
    }
  }

  /** The outcome of a visited declaration is the same when it is visited again. */
  lemma SameOutcome(d: Declaration, text: string, outcome: string -> Outcome)
    requires Settles(outcome)
    ensures At(d, Adjusted(d, text, outcome), outcome) == At(d, text, outcome)
    ensures Adjusted(d, Adjusted(d, text, outcome), outcome) == Adjusted(d, text, outcome)
  {
  }

  lemma WalkedAgain(nodes: seq<Declaration>, was: seq<string>, outcome: string -> Outcome)
    requires |nodes| == |was| && Settles(outcome)
    ensures var n := Stop(nodes, was, outcome);
      var now := Walked(nodes, was, outcome, n);
      && Stop(nodes, now, outcome) == n && Walked(nodes, now, outcome, n) == now
      && (EmptiedBefore(nodes, now, outcome, n) <==> EmptiedBefore(nodes, was, outcome, n))
  {
    var n := Stop(nodes, was, outcome);
    var now := Walked(nodes, was, outcome, n);
    StopSpec(nodes, was, outcome);
    forall i | 0 <= i < |nodes|
      ensures At(nodes[i], now[i], outcome) == At(nodes[i], was[i], outcome)
      ensures i < n ==> Adjusted(nodes[i], now[i], outcome) == now[i]
    {
      SameOutcome(nodes[i], was[i], outcome);
    }
    StopIs(nodes, now, outcome, n);
  }

  /** A processor visits a rule again when its declarations change. Run on the texts a
      first run left, whether that ended or threw, the hook changes no text, ends or
      throws at the same declaration, and removes the rule in the same cases. */
  lemma SecondRunChangesNothing(nodes: seq<Declaration>, was: seq<string>, emoji: int -> bool)
    requires |nodes| == |was|
    ensures var outcome := Rewriter(emoji);
      var n := Stop(nodes, was, outcome);
      var now := Walked(nodes, was, outcome, n);
      && Stop(nodes, now, outcome) == n && Walked(nodes, now, outcome, n) == now
      && (EmptiedBefore(nodes, now, outcome, n) <==> EmptiedBefore(nodes, was, outcome, n))
  {
    RewriterSettles(emoji);
    WalkedAgain(nodes, was, Rewriter(emoji));
  }

  // ---- a rule, declaration by declaration -----------------------------------------------------

  /** What the hook does to a matching rule: it stops at the first range declaration whose
      text makes it throw; each range declaration before that has its text replaced if there
      is a replacement, and every other text stays; the rule goes when one of those before
      keeps nothing. */
  lemma RuleMeans(nodes: seq<Declaration>, was: seq<string>, emoji: int -> bool)
    requires |nodes| == |was|
    ensures var n := Stop(nodes, was, Rewriter(emoji));
      && (forall i :: 0 <= i < n ==> !(nodes[i].prop == RangeProperty && OutcomeOf(was[i], emoji) == Thrown))
      && (n < |nodes| ==> nodes[n].prop == RangeProperty && OutcomeOf(was[n], emoji) == Thrown)
    ensures var n := Stop(nodes, was, Rewriter(emoji));
      var texts := Walked(nodes, was, Rewriter(emoji), n);
      forall i :: 0 <= i < |nodes| ==>
        texts[i] == if i < n && nodes[i].prop == RangeProperty && OutcomeOf(was[i], emoji).Replaced?
                    then OutcomeOf(was[i], emoji).text else was[i]
    ensures var n := Stop(nodes, was, Rewriter(emoji));
      EmptiedBefore(nodes, was, Rewriter(emoji), n) <==>
      exists i :: 0 <= i < n && nodes[i].prop == RangeProperty && OutcomeOf(was[i], emoji) == Emptied
  {
    StopSpec(nodes, was, Rewriter(emoji));
    forall i | 0 <= i < |nodes|
      ensures At(nodes[i], was[i], Rewriter(emoji))
        == if nodes[i].prop == RangeProperty then Some(OutcomeOf(was[i], emoji)) else None
    {
    }
  }
}
