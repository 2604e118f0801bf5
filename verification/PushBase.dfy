/** push_base and default_base of tools/check_changed.py: one comparison base for a push
    of many references, over a history of commits. Git is a parameter: which commits and
    names exist, and what merge-base answers. */
module PushBase {
  import opened Wrappers

  type Commit = string

  const ZERO_OID := "0000000000000000000000000000000000000000"
  const EMPTY_TREE := "4b825dc642cb6eb9a060e54bf8d69288fbee4904"

  /** parents holds every commit that is available; refs what names resolve to. */
  datatype Git = Git(parents: map<Commit, seq<Commit>>, refs: map<string, Commit>,
                     mergeBase: seq<Commit> -> Option<Commit>)

  // ---- history -------------------------------------------------------------------------

  /** A path from a commit to an ancestor, one parent at a time. */
  ghost predicate Path(git: Git, path: seq<Commit>) {
    && path != [] && path[|path| - 1] in git.parents
    && forall k :: 0 <= k < |path| - 1 ==> path[k] in git.parents && path[k + 1] in git.parents[path[k]]
  }

  ghost predicate PathBetween(git: Git, path: seq<Commit>, from: Commit, to: Commit) {
    Path(git, path) && path[0] == from && path[|path| - 1] == to
  }

  /** to is in the history of from, which includes from itself. */
  ghost predicate Reaches(git: Git, from: Commit, to: Commit) {
    exists path :: PathBetween(git, path, from, to)
  }

  lemma ReachesTransitive(git: Git, a: Commit, b: Commit, c: Commit)
    requires Reaches(git, a, b) && Reaches(git, b, c)
    ensures Reaches(git, a, c)
  {
    var p :| PathBetween(git, p, a, b);
    var q :| PathBetween(git, q, b, c);
    var n := |p| - 1;
    var path := p + q[1..];
    forall k | 0 <= k < |path| - 1
      ensures path[k] in git.parents && path[k + 1] in git.parents[path[k]]
    {
      if k >= n {
        assert path[k] == q[k - n] && path[k + 1] == q[k + 1 - n];
      }
    }
    assert path[|path| - 1] == q[|q| - 1];
    assert PathBetween(git, path, a, c);
  }

  /** Histories do not run in circles: every commit is younger than its parents. */
  ghost predicate Aged(git: Git, age: Commit -> nat) {
    forall c, k :: c in git.parents && 0 <= k < |git.parents[c]| ==> age(git.parents[c][k]) < age(c)
  }

  lemma {:induction false} PathAges(git: Git, age: Commit -> nat, path: seq<Commit>)
    requires Aged(git, age) && Path(git, path)
    ensures age(path[|path| - 1]) <= age(path[0])
    ensures path[|path| - 1] != path[0] ==> age(path[|path| - 1]) < age(path[0])
  {
    if |path| > 1 {
      var k :| 0 <= k < |git.parents[path[0]]| && git.parents[path[0]][k] == path[1];
      PathAges(git, age, path[1..]);
    }
  }

  ghost predicate Common(git: Git, c: Commit, tips: seq<Commit>) {
    c in git.parents && forall k :: 0 <= k < |tips| ==> Reaches(git, tips[k], c)
  }

  /** A best common ancestor: no other common ancestor descends from it. */
  ghost predicate Best(git: Git, c: Commit, tips: seq<Commit>) {
    Common(git, c, tips) && forall d :: Common(git, d, tips) && Reaches(git, d, c) ==> d == c
  }

  /** merge-base answers with a best common ancestor and fails when there is none. The
      object name of the empty tree is not a commit's. */
  ghost predicate Faithful(git: Git) {
    && EMPTY_TREE !in git.parents
    && forall tips :: tips != [] ==>
         match git.mergeBase(tips)
         case Some(c) => Best(git, c, tips)
         case None => forall c :: !Common(git, c, tips)
  }

  /** The assumption on merge-base can be met: in a history without circles, commits with
      a common ancestor have a best one. */
  lemma BestExists(git: Git, age: Commit -> nat, tips: seq<Commit>, c: Commit) returns (best: Commit)
    requires Aged(git, age) && tips != [] && Common(git, c, tips)
    ensures Best(git, best, tips)
    decreases age(tips[0]) - age(c)
  {
    CommonAge(git, age, tips, c);
    if d :| Common(git, d, tips) && Reaches(git, d, c) && d != c {
      var p :| PathBetween(git, p, d, c);
      PathAges(git, age, p);
      CommonAge(git, age, tips, d);
      best := BestExists(git, age, tips, d);
    } else {
      best := c;
    }
  }

  lemma CommonAge(git: Git, age: Commit -> nat, tips: seq<Commit>, c: Commit)
    requires Aged(git, age) && tips != [] && Common(git, c, tips)
    ensures age(c) <= age(tips[0])
  {
    assert Reaches(git, tips[0], c);
    var p :| PathBetween(git, p, tips[0], c);
    PathAges(git, age, p);
  }

  // ---- default_base ----------------------------------------------------------------------

  function Candidates(remote: string): seq<string> {
    ["@{upstream}", remote + "/HEAD", remote + "/main"]
  }

  /** The commit of the first name that resolves. */
  function FirstResolved(names: seq<string>, refs: map<string, Commit>): Option<Commit> {
    if names == [] then None
    else if names[0] in refs then Some(refs[names[0]])
    else FirstResolved(names[1..], refs)
  }

  /** default_base; None where merge-base fails and the program raises. */
  function DefaultBaseOf(git: Git, rev: Commit, remote: string): Option<Commit> {
    match FirstResolved(Candidates(remote), git.refs)
    case Some(c) => git.mergeBase([rev, c])
    case None => Some(EMPTY_TREE)
  }

  /** The name at position k is the first that resolves. */
  predicate IsFirst(names: seq<string>, refs: map<string, Commit>, k: int) {
    0 <= k < |names| && names[k] in refs && forall j :: 0 <= j < k ==> names[j] !in refs
  }

  lemma {:induction false} FirstResolvedIs(names: seq<string>, refs: map<string, Commit>)
    ensures FirstResolved(names, refs) == None <==> forall k :: 0 <= k < |names| ==> names[k] !in refs
    ensures forall k :: IsFirst(names, refs, k) ==> FirstResolved(names, refs) == Some(refs[names[k]])
    ensures FirstResolved(names, refs).Some? ==> exists k :: IsFirst(names, refs, k)
  {
    if names != [] {
      var rest := names[1..];
      FirstResolvedIs(rest, refs);
      if names[0] in refs {
        assert IsFirst(names, refs, 0);
      } else {
        assert forall k :: 0 <= k < |rest| ==> rest[k] == names[k + 1];
        forall k | IsFirst(names, refs, k)
          ensures FirstResolved(names, refs) == Some(refs[names[k]])
        {
          assert IsFirst(rest, refs, k - 1);
        }
        if k :| IsFirst(rest, refs, k) {
          assert IsFirst(names, refs, k + 1);
        }
      }
    }
  }

  /** The default base: the empty tree exactly when no name resolves; otherwise a best
      common ancestor with the first name that does, so a commit in the revision's own
      history; and it fails exactly when the two share no history. */
  lemma DefaultBaseMeans(git: Git, rev: Commit, remote: string)
    requires Faithful(git)
    ensures DefaultBaseOf(git, rev, remote) == Some(EMPTY_TREE) <==>
      forall k :: 0 <= k < |Candidates(remote)| ==> Candidates(remote)[k] !in git.refs
    ensures forall k :: IsFirst(Candidates(remote), git.refs, k) ==>
      var tip := git.refs[Candidates(remote)[k]];
      match DefaultBaseOf(git, rev, remote)
      case Some(c) => Best(git, c, [rev, tip]) && Reaches(git, rev, c) && Reaches(git, tip, c)
      case None => forall c :: !Common(git, c, [rev, tip])
  {
    FirstResolvedIs(Candidates(remote), git.refs);
    forall k | IsFirst(Candidates(remote), git.refs, k)
      ensures var tip := git.refs[Candidates(remote)[k]];
        match DefaultBaseOf(git, rev, remote)
        case Some(c) => Best(git, c, [rev, tip]) && Reaches(git, rev, c) && Reaches(git, tip, c)
        case None => forall c :: !Common(git, c, [rev, tip])
    {
      var tips := [rev, git.refs[Candidates(remote)[k]]];
      assert tips[0] == rev && tips[1] == git.refs[Candidates(remote)[k]];
    }
  }

  /** Asks for the first name that resolves, and no further. */
  method DefaultBase(git: Git, rev: Commit, remote: string) returns (base: Option<Commit>)
    ensures base == DefaultBaseOf(git, rev, remote)
    ensures (forall k :: 0 <= k < |Candidates(remote)| ==> Candidates(remote)[k] !in git.refs) ==>
      base == Some(EMPTY_TREE)
    ensures forall k :: IsFirst(Candidates(remote), git.refs, k) ==>
      base == git.mergeBase([rev, git.refs[Candidates(remote)[k]]])
  {
    var names := Candidates(remote);
    FirstResolvedIs(names, git.refs);
    for i := 0 to |names|
      invariant FirstResolved(names, git.refs) == FirstResolved(names[i..], git.refs)
    {
      if names[i] in git.refs {
        return git.mergeBase([rev, git.refs[names[i]]]);
      }
    }
    base := Some(EMPTY_TREE);
  }

  // ---- push_base -----------------------------------------------------------------------------

  /** The words of a line on standard input: local name, local commit, remote name,
      remote commit. */
  type Line = seq<string>

  datatype Answer = Raises | NoChecks | Base(oid: Commit)

  predicate IsDeletion(line: Line)
    requires |line| == 4
  {
    line[1] == ZERO_OID
  }

  /** A pushed reference's own base: its remote commit where that is available, else its
      default base. */
  function OwnBase(git: Git, line: Line, remote: string): Option<Commit>
    requires |line| == 4
  {
    if line[3] != ZERO_OID && line[3] in git.parents then Some(line[3])
    else DefaultBaseOf(git, line[1], remote)
  }

  /** Every line has four words and every reference that is not deleted a base. */
  predicate Readable(git: Git, lines: seq<Line>, remote: string) {
    forall k :: 0 <= k < |lines| ==>
      |lines[k]| == 4 && (!IsDeletion(lines[k]) ==> OwnBase(git, lines[k], remote).Some?)
  }

  /** The bases of the references that are not deleted, in order. */
  function Bases(git: Git, lines: seq<Line>, remote: string): seq<Commit>
    requires Readable(git, lines, remote)
  {
    if lines == [] then []
    else
      var n := |lines| - 1;
      Bases(git, lines[..n], remote)
      + if IsDeletion(lines[n]) then [] else [OwnBase(git, lines[n], remote).value]
  }

  /** A base of some reference is a base of the push, and the other way round. */
  lemma {:induction false} BasesAre(git: Git, lines: seq<Line>, remote: string, base: Commit)
    requires Readable(git, lines, remote)
    ensures base in Bases(git, lines, remote) <==>
      exists k :: 0 <= k < |lines| && !IsDeletion(lines[k]) && OwnBase(git, lines[k], remote) == Some(base)
  {
    if lines != [] {
      var n := |lines| - 1;
      BasesAre(git, lines[..n], remote, base);
      assert forall k :: 0 <= k < n ==> lines[..n][k] == lines[k];
    }
  }

  /** What a push is compared with. */
  function AnswerOf(git: Git, lines: seq<Line>, remote: string): Answer {
    if !Readable(git, lines, remote) then Raises
    else
      var bases := Bases(git, lines, remote);
      if bases == [] then NoChecks
      else if EMPTY_TREE in bases then Base(EMPTY_TREE)
      else match git.mergeBase(bases) case Some(c) => Base(c) case None => Raises
  }

  method PushBase(git: Git, lines: seq<Line>, remote: string) returns (r: Answer)
    ensures r == AnswerOf(git, lines, remote)
  {
    var bases := [];
    for i := 0 to |lines|
      invariant Readable(git, lines[..i], remote)
      invariant bases == Bases(git, lines[..i], remote)
    {
      var line := lines[i];
      assert lines[..i + 1][..i] == lines[..i];
      if |line| != 4 {
        return Raises;
      }
      if line[1] == ZERO_OID {
        continue;
      }
      var base := Some(line[3]);
      if line[3] == ZERO_OID || line[3] !in git.parents {
        base := DefaultBase(git, line[1], remote);
      }
      if base.None? {
        return Raises;
      }
      bases := bases + [base.value];
    }
    assert lines[..|lines|] == lines;
    if bases == [] {
      return NoChecks;
    }
    if EMPTY_TREE in bases {
      return Base(EMPTY_TREE);
    }
    var common := git.mergeBase(bases);
    r := if common.Some? then Base(common.value) else Raises;
  }

  // ---- what the base is good for ------------------------------------------------------------

  /** Line k pushes a reference whose own base is this one. */
  ghost predicate HasBase(git: Git, lines: seq<Line>, remote: string, k: int, base: Commit)
    requires Readable(git, lines, remote)
  {
    0 <= k < |lines| && !IsDeletion(lines[k]) && OwnBase(git, lines[k], remote) == Some(base)
  }

  lemma BasesHave(git: Git, lines: seq<Line>, remote: string)
    requires Readable(git, lines, remote)
    ensures forall base :: base in Bases(git, lines, remote) <==> exists k :: HasBase(git, lines, remote, k, base)
  {
    forall base
      ensures base in Bases(git, lines, remote) <==> exists k :: HasBase(git, lines, remote, k, base)
    {
      BasesAre(git, lines, remote, base);
      if k :| HasBase(git, lines, remote, k, base) {
      }
      if base in Bases(git, lines, remote) {
        var k :| 0 <= k < |lines| && !IsDeletion(lines[k]) && OwnBase(git, lines[k], remote) == Some(base);
        assert HasBase(git, lines, remote, k, base);
      }
    }
  }

  /** The commit c is in the history of every pushed reference's own base. */
  ghost predicate UnderAll(git: Git, lines: seq<Line>, remote: string, c: Commit)
    requires Readable(git, lines, remote)
  {
    c in git.parents && forall k, base :: HasBase(git, lines, remote, k, base) ==> Reaches(git, base, c)
  }

  lemma CommonIsUnderAll(git: Git, lines: seq<Line>, remote: string, c: Commit)
    requires Readable(git, lines, remote)
    ensures Common(git, c, Bases(git, lines, remote)) <==> UnderAll(git, lines, remote, c)
  {
    BasesHave(git, lines, remote);
    var bases := Bases(git, lines, remote);
    if UnderAll(git, lines, remote, c) {
      forall j | 0 <= j < |bases|
        ensures Reaches(git, bases[j], c)
      {
        assert bases[j] in bases;
      }
    }
    if Common(git, c, bases) {
      forall k, base | HasBase(git, lines, remote, k, base)
        ensures Reaches(git, base, c)
      {
        assert base in bases;
      }
    }
  }

  /** The four outcomes, line by line. No checks: only deletions. The empty tree: some
      reference needs it. A commit: a best common ancestor of every reference's own
      base. An error: a line that is not four words, a reference without a base, or own
      bases that share no history. */
  lemma AnswerMeans(git: Git, lines: seq<Line>, remote: string)
    requires Faithful(git)
    ensures AnswerOf(git, lines, remote) == NoChecks <==>
      forall k :: 0 <= k < |lines| ==> |lines[k]| == 4 && IsDeletion(lines[k])
    ensures AnswerOf(git, lines, remote) == Base(EMPTY_TREE) <==>
      Readable(git, lines, remote) && exists k :: HasBase(git, lines, remote, k, EMPTY_TREE)
    ensures AnswerOf(git, lines, remote) == Raises <==>
      (Readable(git, lines, remote) ==>
        && (exists k, base :: HasBase(git, lines, remote, k, base))
        && (forall k :: !HasBase(git, lines, remote, k, EMPTY_TREE))
        && (forall c :: !UnderAll(git, lines, remote, c)))
    ensures forall c :: AnswerOf(git, lines, remote) == Base(c) && c != EMPTY_TREE ==>
      Readable(git, lines, remote) && Best(git, c, Bases(git, lines, remote))
  {
    if Readable(git, lines, remote) {
      BasesHave(git, lines, remote);
      forall c
        ensures Common(git, c, Bases(git, lines, remote)) <==> UnderAll(git, lines, remote, c)
      {
        CommonIsUnderAll(git, lines, remote, c);
      }
      var bases := Bases(git, lines, remote);
      if bases != [] {
        assert bases[0] in bases;
      }
      if k :| 0 <= k < |lines| && !IsDeletion(lines[k]) {
        var own := OwnBase(git, lines[k], remote).value;
        assert HasBase(git, lines, remote, k, own);
        assert own in bases;
      }
    }
  }

  /** Nothing that is newly pushed is missed: a commit that a pushed reference reaches but
      its own base does not reach is outside the history of the base that is returned. */
  lemma NewCommitsAreOutside(git: Git, lines: seq<Line>, remote: string, k: nat, own: Commit, c: Commit, base: Commit)
    requires Faithful(git) && AnswerOf(git, lines, remote) == Base(base)
    requires Readable(git, lines, remote) && HasBase(git, lines, remote, k, own)
    requires Reaches(git, lines[k][1], c) && !Reaches(git, own, c)
    ensures !Reaches(git, base, c)
  {
    AnswerMeans(git, lines, remote);
    if Reaches(git, base, c) {
      if base == EMPTY_TREE {
        OnlyCommitsReach(git, base, c);
      } else {
        CommonIsUnderAll(git, lines, remote, base);
        ReachesTransitive(git, own, base, c);
      }
    }
  }

  lemma OnlyCommitsReach(git: Git, from: Commit, to: Commit)
    requires Reaches(git, from, to)
    ensures from in git.parents
  {
    var p :| PathBetween(git, p, from, to);
    assert p[0] == from;
  }

  /** The base is no older than it must be: when one of the own bases is in the history
      of all of them, it is the base. So a push of one reference uses its own base. */
  lemma OldestOwnBase(git: Git, lines: seq<Line>, remote: string, k: nat, own: Commit)
    requires Faithful(git) && Readable(git, lines, remote)
    requires HasBase(git, lines, remote, k, own) && own in git.parents
    requires UnderAll(git, lines, remote, own)
    requires forall j :: !HasBase(git, lines, remote, j, EMPTY_TREE)
    ensures AnswerOf(git, lines, remote) == Base(own)
  {
    AnswerMeans(git, lines, remote);
    CommonIsUnderAll(git, lines, remote, own);
    var answer := AnswerOf(git, lines, remote);
    assert answer.Base? && answer.oid != EMPTY_TREE;
    var base := answer.oid;
    CommonIsUnderAll(git, lines, remote, base);
    assert Reaches(git, own, base);
  }

  predicate Live(line: Line) {
    |line| == 4 && !IsDeletion(line)
  }

  /** Deleted references change nothing. */
  lemma DeletionsChangeNothing(git: Git, lines: seq<Line>, remote: string)
    requires forall k :: 0 <= k < |lines| ==> |lines[k]| == 4
    ensures AnswerOf(git, Filter(lines, Live), remote) == AnswerOf(git, lines, remote)
  {
    SameBases(git, lines, remote);
  }

  lemma {:induction false} SameBases(git: Git, lines: seq<Line>, remote: string)
    requires forall k :: 0 <= k < |lines| ==> |lines[k]| == 4
    ensures Readable(git, Filter(lines, Live), remote) <==> Readable(git, lines, remote)
    ensures Readable(git, lines, remote) ==> Bases(git, Filter(lines, Live), remote) == Bases(git, lines, remote)
  {
    if lines != [] {
      var n := |lines| - 1;
      var before, last := lines[..n], lines[n];
      var kept := Filter(before, Live);
      assert lines == before + [last];
      FilterSnoc(before, last, Live);
      SameBases(git, before, remote);
      OneMoreLine(git, before, last, remote);
      if Live(last) {
        OneMoreLine(git, kept, last, remote);
        assert Filter(lines, Live) == kept + [last];
      } else {
        assert Filter(lines, Live) == kept;
      }
    }
  }

  lemma OneMoreLine(git: Git, lines: seq<Line>, line: Line, remote: string)
    requires |line| == 4
    ensures Readable(git, lines + [line], remote) <==>
      Readable(git, lines, remote) && (IsDeletion(line) || OwnBase(git, line, remote).Some?)
    ensures Readable(git, lines + [line], remote) ==>
      Bases(git, lines + [line], remote)
        == Bases(git, lines, remote) + if IsDeletion(line) then [] else [OwnBase(git, line, remote).value]
  {
    var all := lines + [line];
    assert all[..|lines|] == lines && all[|lines|] == line;
    if Readable(git, all, remote) {
      forall k | 0 <= k < |lines|
        ensures |lines[k]| == 4 && (!IsDeletion(lines[k]) ==> OwnBase(git, lines[k], remote).Some?)
      {
        assert all[k] == lines[k];
      }
    }
  }
}
