/** What a push is compared with, in terms of the words of its lines, of the names that
    resolve and of what merge-base answers. */
module PushContract {
  import opened PushBase
  import opened Wrappers

  /** Forty zeros stand for no commit. */
  predicate IsZero(oid: string) {
    |oid| == 40 && forall i :: 0 <= i < 40 ==> oid[i] == '0'
  }

  lemma ZeroIs(oid: string)
    ensures oid == ZERO_OID <==> IsZero(oid)
  {
    assert |ZERO_OID| == 40;
    assert forall i :: 0 <= i < 40 ==> ZERO_OID[i] == '0';
  }

  /** The line pushes a reference that is not deleted. */
  predicate IsPush(line: Line) {
    |line| == 4 && !IsZero(line[1])
  }

  /** The remote commit is known here. */
  predicate KnowsRemote(git: Git, line: Line)
    requires |line| == 4
  {
    !IsZero(line[3]) && line[3] in git.parents
  }

  /** The commit a new reference is compared with: that of the upstream, else of the
      remote's head, else of its main branch. */
  function Default(git: Git, remote: string): Option<Commit> {
    if "@{upstream}" in git.refs then Some(git.refs["@{upstream}"])
    else if remote + "/HEAD" in git.refs then Some(git.refs[remote + "/HEAD"])
    else if remote + "/main" in git.refs then Some(git.refs[remote + "/main"])
    else None
  }

  /** The line's own base: its remote commit if that is known, else what merge-base answers
      for the local commit and the default, or the empty tree when there is no default. */
  predicate IsOwnBase(git: Git, line: Line, remote: string, base: Commit)
    requires |line| == 4
  {
    if KnowsRemote(git, line) then base == line[3]
    else if Default(git, remote).None? then base == "4b825dc642cb6eb9a060e54bf8d69288fbee4904"
    else git.mergeBase([line[1], Default(git, remote).value]) == Some(base)
  }

  /** These are the own bases of the pushed references, in order. */
  ghost predicate AreBases(git: Git, lines: seq<Line>, remote: string, bases: seq<Commit>) {
    var pushed := Filter(lines, IsPush);
    && |bases| == |pushed|
    && forall i :: 0 <= i < |pushed| ==> |pushed[i]| == 4 && IsOwnBase(git, pushed[i], remote, bases[i])
  }

  lemma DefaultIs(git: Git, rev: Commit, remote: string)
    ensures DefaultBaseOf(git, rev, remote) ==
      if Default(git, remote).None? then Some("4b825dc642cb6eb9a060e54bf8d69288fbee4904")
      else git.mergeBase([rev, Default(git, remote).value])
  {
    var names := Candidates(remote);
    FirstResolvedIs(names, git.refs);
    assert names[0] == "@{upstream}" && names[1] == remote + "/HEAD" && names[2] == remote + "/main" && |names| == 3;
    if names[0] in git.refs {
      assert PushBase.IsFirst(names, git.refs, 0);
    } else if names[1] in git.refs {
      assert PushBase.IsFirst(names, git.refs, 1);
    } else if names[2] in git.refs {
      assert PushBase.IsFirst(names, git.refs, 2);
    }
    assert EMPTY_TREE == "4b825dc642cb6eb9a060e54bf8d69288fbee4904";
  }

  lemma OwnBaseIs(git: Git, line: Line, remote: string)
    requires |line| == 4
    ensures forall base :: OwnBase(git, line, remote) == Some(base) <==> IsOwnBase(git, line, remote, base)
    ensures IsDeletion(line) <==> !IsPush(line)
  {
    ZeroIs(line[1]);
    ZeroIs(line[3]);
    DefaultIs(git, line[1], remote);
  }

  /** One more line. */
  lemma AreBasesNext(git: Git, before: seq<Line>, last: Line, remote: string, bases: seq<Commit>)
    requires |last| == 4
    ensures AreBases(git, before + [last], remote, bases) <==>
      if IsPush(last) then
        bases != [] && AreBases(git, before, remote, bases[..|bases| - 1])
        && IsOwnBase(git, last, remote, bases[|bases| - 1])
      else AreBases(git, before, remote, bases)
  {
    FilterSnoc(before, last, IsPush);
    var pushed, all := Filter(before, IsPush), Filter(before + [last], IsPush);
    if IsPush(last) {
      assert all == pushed + [last];
      assert all[|pushed|] == last && forall i :: 0 <= i < |pushed| ==> all[i] == pushed[i];
    } else {
      assert all == pushed;
    }
  }

  lemma {:induction false} BasesOf(git: Git, lines: seq<Line>, remote: string, bases: seq<Commit>)
    requires forall k :: 0 <= k < |lines| ==> |lines[k]| == 4
    ensures AreBases(git, lines, remote, bases) <==>
      Readable(git, lines, remote) && bases == Bases(git, lines, remote)
  {
    if lines != [] {
      var n := |lines| - 1;
      var before, last := lines[..n], lines[n];
      assert lines == before + [last];
      AreBasesNext(git, before, last, remote, bases);
      OneMoreLine(git, before, last, remote);
      OwnBaseIs(git, last, remote);
      if IsPush(last) && bases != [] {
        var m := |bases| - 1;
        BasesOf(git, before, remote, bases[..m]);
        assert bases == bases[..m] + [bases[m]];
      } else {
        BasesOf(git, before, remote, bases);
      }
    }
  }

  /** The answer for any lines: no checks exactly when every line has four words and deletes
      its reference; a base exactly when every line has four words and every pushed reference
      an own base, and then the empty tree if that is one of them, else what merge-base
      answers for all of them. */
  lemma PushMeans(git: Git, lines: seq<Line>, remote: string)
    ensures AnswerOf(git, lines, remote) == NoChecks <==>
      forall k :: 0 <= k < |lines| ==> |lines[k]| == 4 && IsZero(lines[k][1])
    ensures forall c :: AnswerOf(git, lines, remote) == Base(c) <==>
      (&& (forall k :: 0 <= k < |lines| ==> |lines[k]| == 4)
       && exists bases :: AreBases(git, lines, remote, bases) && IsChosen(git, bases, c))
  {
    if forall k :: 0 <= k < |lines| ==> |lines[k]| == 4 {
      forall bases
        ensures AreBases(git, lines, remote, bases) <==>
          Readable(git, lines, remote) && bases == Bases(git, lines, remote)
      {
        BasesOf(git, lines, remote, bases);
      }
      NoPushes(git, lines, remote);
      if Readable(git, lines, remote) {
        assert AreBases(git, lines, remote, Bases(git, lines, remote));
      }
    }
  }

  lemma NoPushes(git: Git, lines: seq<Line>, remote: string)
    requires forall k :: 0 <= k < |lines| ==> |lines[k]| == 4
    ensures AnswerOf(git, lines, remote) == NoChecks <==> forall k :: 0 <= k < |lines| ==> IsZero(lines[k][1])
  {
    forall k | 0 <= k < |lines|
      ensures IsDeletion(lines[k]) <==> IsZero(lines[k][1])
    {
      ZeroIs(lines[k][1]);
    }
    if Readable(git, lines, remote) {
      var bases := Bases(git, lines, remote);
      if bases != [] {
        BasesAre(git, lines, remote, bases[0]);
      }
      if k :| 0 <= k < |lines| && !IsDeletion(lines[k]) {
        BasesAre(git, lines, remote, OwnBase(git, lines[k], remote).value);
      }
    }
  }

  ghost predicate IsChosen(git: Git, bases: seq<Commit>, c: Commit) {
    && bases != []
    && if "4b825dc642cb6eb9a060e54bf8d69288fbee4904" in bases then c == "4b825dc642cb6eb9a060e54bf8d69288fbee4904"
       else git.mergeBase(bases) == Some(c)
  }

  /** A commit that is answered lies in the history of each pushed reference's known remote
      commit, or else of its local commit and of the default. */
  lemma BaseIsBehind(git: Git, lines: seq<Line>, remote: string, k: nat, c: Commit)
    requires Faithful(git) && AnswerOf(git, lines, remote) == Base(c) && c in git.parents
    requires k < |lines| && |lines[k]| == 4 && !IsZero(lines[k][1])
    ensures if !IsZero(lines[k][3]) && lines[k][3] in git.parents then Reaches(git, lines[k][3], c)
            else Default(git, remote).Some? && Reaches(git, lines[k][1], c) && Reaches(git, Default(git, remote).value, c)
  {
    AnswerMeans(git, lines, remote);
    CommonIsUnderAll(git, lines, remote, c);
    OwnBaseIs(git, lines[k], remote);
    var own := OwnBase(git, lines[k], remote).value;
    assert HasBase(git, lines, remote, k, own);
    assert Reaches(git, own, c);
    if !KnowsRemote(git, lines[k]) {
      OnlyCommitsReach(git, own, c);
      var tips := [lines[k][1], Default(git, remote).value];
      assert git.mergeBase(tips) == Some(own);
      assert Best(git, own, tips) && tips[0] == lines[k][1] && tips[1] == Default(git, remote).value;
      ReachesTransitive(git, lines[k][1], own, c);
      ReachesTransitive(git, Default(git, remote).value, own, c);
    }
  }

  /** A push of one reference whose remote commit is known is compared with just that. */
  lemma OnePush(git: Git, line: Line, remote: string)
    requires Faithful(git) && |line| == 4 && !IsZero(line[1]) && !IsZero(line[3]) && line[3] in git.parents
    ensures AnswerOf(git, [line], remote) == Base(line[3])
  {
    var own := line[3];
    OwnBaseIs(git, line, remote);
    assert OwnBase(git, line, remote) == Some(own);
    assert HasBase(git, [line], remote, 0, own);
    assert PathBetween(git, [own], own, own);
    OldestOwnBase(git, [line], remote, 0, own);
  }
}
