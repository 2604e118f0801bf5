/** What the loaders' specification means: which neighbor or neighbors a node ends
    with, which keys are asked for, when loading fails, and that no neighbor is
    lost or duplicated. */
module JoinLaws {
  import opened EagerLoad
  import opened Schema
  import opened Wrappers

  // ---- the keys asked for --------------------------------------------------

  /** x occurs in keys at a position before which, and at which, y has not occurred. */
  ghost predicate OccursBefore(keys: seq<Option<int>>, x: int, y: int) {
    exists i :: 0 <= i < |keys| && keys[i] == Some(x) && Some(y) !in keys[..i + 1]
  }

  /** The ids a many-to-one query is restricted to are exactly the non-nil keys,
      without repetition, in order of first occurrence. */
  lemma {:induction false} FirstKeysSpec(keys: seq<Option<int>>)
    ensures Distinct(FirstKeys(keys))
    ensures forall k :: k in FirstKeys(keys) <==> Some(k) in keys
    ensures forall a, b :: 0 <= a < b < |FirstKeys(keys)| ==>
      OccursBefore(keys, FirstKeys(keys)[a], FirstKeys(keys)[b])
  {
    if keys != [] {
      var front, last := keys[..|keys| - 1], keys[|keys| - 1];
      FirstKeysSpec(front);
      assert keys == front + [last];
      forall a, b | 0 <= a < b < |FirstKeys(keys)|
        ensures OccursBefore(keys, FirstKeys(keys)[a], FirstKeys(keys)[b])
      {
        var x, y := FirstKeys(keys)[a], FirstKeys(keys)[b];
        if b < |FirstKeys(front)| {
          assert OccursBefore(front, x, y);
          var i :| 0 <= i < |front| && front[i] == Some(x) && Some(y) !in front[..i + 1];
          assert keys[..i + 1] == front[..i + 1];
          assert keys[i] == Some(x);
        } else {
          assert x in FirstKeys(front) && y !in FirstKeys(front);
          var i :| 0 <= i < |front| && front[i] == Some(x);
          assert keys[..i + 1] == front[..i + 1];
          assert keys[i] == Some(x);
        }
      }
    }
  }

  // ---- when loading fails ------------------------------------------------

  /** Loading meets an unusable neighbor exactly when some neighbor's key is nil or
      was not asked for. */
  lemma {:induction false} CheckSpec<T(!new)>(ns: seq<T>, keyOf: T -> Option<int>, idOf: T -> int, asked: seq<int>)
    ensures Check(ns, keyOf, idOf, asked) == None
      <==> forall n :: n in ns ==> keyOf(n).Some? && keyOf(n).value in asked
  {
    if ns != [] {
      var front, last := ns[..|ns| - 1], ns[|ns| - 1];
      CheckSpec(front, keyOf, idOf, asked);
      assert ns == front + [last];
      assert last in ns;
    }
  }

  // ---- many-to-one ---------------------------------------------------------

  /** The last neighbor with the given key. */
  function LastMatch<T(!new)>(ns: seq<T>, keyOf: T -> Option<int>, key: Option<int>): Option<T> {
    if ns == [] || key == None then None
    else if keyOf(ns[|ns| - 1]) == key then Some(ns[|ns| - 1])
    else LastMatch(ns[..|ns| - 1], keyOf, key)
  }

  lemma {:induction false} LastMatchSpec<T(!new)>(ns: seq<T>, keyOf: T -> Option<int>, key: Option<int>)
    ensures LastMatch(ns, keyOf, key) == None <==> key == None || forall n :: n in ns ==> keyOf(n) != key
    ensures LastMatch(ns, keyOf, key).Some? ==>
      exists i :: 0 <= i < |ns| && LastMatch(ns, keyOf, key) == Some(ns[i]) && keyOf(ns[i]) == key
        && forall j :: i < j < |ns| ==> keyOf(ns[j]) != key
  {
    if ns != [] && key != None {
      var front, last := ns[..|ns| - 1], ns[|ns| - 1];
      assert ns == front + [last];
      if keyOf(last) != key {
        LastMatchSpec(front, keyOf, key);
      } else {
        assert last in ns;
      }
    }
  }

  /** A later assignment replaces an earlier one, as setting a pointer field does. */
  ghost predicate Overwrites<T(!new)>(assign: (Edges, T) -> Edges) {
    forall e, a, b :: assign(assign(e, a), b) == assign(e, b)
  }

  /** A node with a key ends with the last neighbor that has its key; a node that
      no neighbor matches, or whose key is nil, is left as it was. */
  lemma {:induction false} ToOneKeepsLast<T(!new)>(e: Edges, key: Option<int>, ns: seq<T>, keyOf: T -> Option<int>,
                                                   assign: (Edges, T) -> Edges)
    requires Overwrites(assign)
    ensures Nested(e, key, ns, keyOf, assign) ==
      match LastMatch(ns, keyOf, key) case Some(n) => assign(e, n) case None => e
  {
    if ns != [] {
      ToOneKeepsLast(e, key, ns[..|ns| - 1], keyOf, assign);
    }
  }

  // The callbacks sqlAll passes for the three many-to-one edges.

  function UserKey(u: User): Option<int> { Some(u.id) }
  function UserId(u: User): int { u.id }
  function SetUser(e: Edges, u: User): Edges { e.(user := Some(u)) }
  function GroupKey(g: Group): Option<int> { Some(g.id) }
  function GroupId(g: Group): int { g.id }
  function SetGroup(e: Edges, g: Group): Edges { e.(group := Some(g)) }
  function TeamKey(t: Team): Option<int> { Some(t.id) }
  function TeamId(t: Team): int { t.id }
  function SetTeam(e: Edges, t: Team): Edges { e.(team := Some(t)) }

  // ---- one-to-many ---------------------------------------------------------

  function KeyIs<T(!new)>(keyOf: T -> Option<int>, key: Option<int>): T -> bool {
    n => key.Some? && keyOf(n) == key
  }

  /** The neighbors with the given key, in order. */
  function Matches<T(!new)>(ns: seq<T>, keyOf: T -> Option<int>, key: Option<int>): seq<T> {
    Filter(ns, KeyIs(keyOf, key))
  }

  lemma MatchesNext<T(!new)>(ns: seq<T>, n: T, keyOf: T -> Option<int>, key: Option<int>)
    ensures var front := Matches(ns, keyOf, key);
      Matches(ns + [n], keyOf, key) == if key.Some? && keyOf(n) == key then front + [n] else front
  {
    var p := KeyIs(keyOf, key);
    FilterConcat(ns, [n], p);
    assert p(n) == (key.Some? && keyOf(n) == key);
    assert [n][1..] == [];
    assert Filter([n], p) == if p(n) then [n] else [];
    assert Filter(ns, p) + [] == Filter(ns, p);
  }

  // The callbacks sqlAll passes for the two one-to-many edges.

  function LogKey(l: UsageLog): Option<int> { l.apiKeyID }
  function LogId(l: UsageLog): int { l.id }
  function InitLogs(e: Edges): Edges { e.(usageLogs := Some([])) }
  function AddLog(e: Edges, l: UsageLog): Edges { e.(usageLogs := Some(e.usageLogs.Or([]) + [l])) }
  function CompositeKey(g: CompositeGroup): Option<int> { Some(g.apiKeyID) }
  function CompositeId(g: CompositeGroup): int { g.id }
  function InitComposites(e: Edges): Edges { e.(compositeGroups := Some([])) }
  function AddComposite(e: Edges, g: CompositeGroup): Edges {
    e.(compositeGroups := Some(e.compositeGroups.Or([]) + [g]))
  }

  /** A node's usage logs are exactly the neighbors with its key, in order. */
  lemma {:induction false} LogsAreMatches(e: Edges, key: Option<int>, ns: seq<UsageLog>)
    ensures Nested(InitLogs(e), key, ns, LogKey, AddLog) == e.(usageLogs := Some(Matches(ns, LogKey, key)))
  {
    if ns != [] {
      var front := ns[..|ns| - 1];
      LogsAreMatches(e, key, front);
      assert ns == front + [ns[|ns| - 1]];
      MatchesNext(front, ns[|ns| - 1], LogKey, key);
    }
  }

  lemma {:induction false} CompositesAreMatches(e: Edges, key: Option<int>, ns: seq<CompositeGroup>)
    ensures Nested(InitComposites(e), key, ns, CompositeKey, AddComposite)
      == e.(compositeGroups := Some(Matches(ns, CompositeKey, key)))
  {
    if ns != [] {
      var front := ns[..|ns| - 1];
      CompositesAreMatches(e, key, front);
      assert ns == front + [ns[|ns| - 1]];
      MatchesNext(front, ns[|ns| - 1], CompositeKey, key);
    }
  }

  // ---- no neighbor is lost or duplicated ----------------------------------

  /** All neighbors handed out, node by node, with multiplicity. */
  ghost function HandedOut<T(!new)>(ns: seq<T>, keyOf: T -> Option<int>, keys: seq<Option<int>>): multiset<T> {
    if keys == [] then multiset{}
    else HandedOut(ns, keyOf, keys[..|keys| - 1]) + multiset(Matches(ns, keyOf, keys[|keys| - 1]))
  }

  lemma {:induction false} FilterCount<T(!new)>(s: seq<T>, p: T -> bool, x: T)
    ensures multiset(Filter(s, p))[x] == if p(x) then multiset(s)[x] else 0
  {
    if s != [] {
      FilterCount(s[1..], p, x);
      assert s == [s[0]] + s[1..];
      assert multiset(s) == multiset([s[0]]) + multiset(s[1..]);
      if p(s[0]) {
        assert multiset(Filter(s, p)) == multiset([s[0]]) + multiset(Filter(s[1..], p));
      }
    }
  }

  /** No non-nil key occurs twice. */
  ghost predicate DistinctKeys(keys: seq<Option<int>>) {
    forall p, q :: 0 <= p < q < |keys| && keys[p].Some? ==> keys[p] != keys[q]
  }

  lemma {:induction false} HandedOutCount<T(!new)>(ns: seq<T>, keyOf: T -> Option<int>, keys: seq<Option<int>>, x: T)
    requires DistinctKeys(keys)
    ensures HandedOut(ns, keyOf, keys)[x] == if keyOf(x).Some? && keyOf(x) in keys then multiset(ns)[x] else 0
  {
    if keys != [] {
      var front, last := keys[..|keys| - 1], keys[|keys| - 1];
      HandedOutCount(ns, keyOf, front, x);
      FilterCount(ns, KeyIs(keyOf, last), x);
      assert keys == front + [last];
      if last.Some? && keyOf(x) == last {
        assert last !in front;
      }
    }
  }

  lemma {:induction false} LastKeysSpec(ids: seq<int>)
    ensures DistinctKeys(LastKeys(ids))
    ensures forall k :: Some(k) in LastKeys(ids) <==> k in ids
  {
    forall p, q | 0 <= p < q < |ids| && LastOf(ids, p)
      ensures ids[p] != ids[q]
    {
      assert ids[p + 1..][q - p - 1] == ids[q];
    }
    forall k | k in ids
      ensures Some(k) in LastKeys(ids)
    {
      var p := LastIndex(ids, k);
      assert LastKeys(ids)[p] == Some(k);
    }
  }

  lemma {:induction false} LastIndex(ids: seq<int>, k: int) returns (p: nat)
    requires k in ids
    ensures p < |ids| && ids[p] == k && LastOf(ids, p)
    decreases |ids|
  {
    if ids[0] == k && k !in ids[1..] {
      p := 0;
    } else {
      assert ids == [ids[0]] + ids[1..];
      p := LastIndex(ids[1..], k);
      assert ids[1..][p + 1..] == ids[p + 2..];
      p := p + 1;
    }
  }

  /** Conservation: when one-to-many loading succeeds, the nodes' lists together
      hold every returned neighbor exactly as often as it was returned, even when
      several nodes share an id. */
  lemma EveryNeighborLandsOnce<T(!new)>(ids: seq<int>, ns: seq<T>, keyOf: T -> Option<int>, idOf: T -> int)
    requires Check(ns, keyOf, idOf, ids) == None
    ensures HandedOut(ns, keyOf, LastKeys(ids)) == multiset(ns)
  {
    CheckSpec(ns, keyOf, idOf, ids);
    LastKeysSpec(ids);
    forall n | n in ns
      ensures keyOf(n).Some? && keyOf(n) in LastKeys(ids)
    {
      var k := keyOf(n).value;
      assert k in ids;
      assert Some(k) in LastKeys(ids);
    }
    HandedOutAll(ns, keyOf, LastKeys(ids));
  }

  lemma HandedOutAll<T(!new)>(ns: seq<T>, keyOf: T -> Option<int>, keys: seq<Option<int>>)
    requires DistinctKeys(keys)
    requires forall n :: n in ns ==> keyOf(n).Some? && keyOf(n) in keys
    ensures HandedOut(ns, keyOf, keys) == multiset(ns)
  {
    forall x
      ensures HandedOut(ns, keyOf, keys)[x] == multiset(ns)[x]
    {
      HandedOutCount(ns, keyOf, keys, x);
    }
  }

  // ---- repeated ids ---------------------------------------------------------

  /** One-to-many loading equals the nested-loop join, node by node, exactly when
      no neighbor belongs to an id that a later node repeats. */
  lemma ToManyIsNestedLoop<T(!new)>(ids: seq<int>, ns: seq<T>, keyOf: T -> Option<int>)
    ensures (forall p :: 0 <= p < |ids| ==>
              Matches(ns, keyOf, LastKeys(ids)[p]) == Matches(ns, keyOf, Some(ids[p])))
      <==> (forall p :: 0 <= p < |ids| && !LastOf(ids, p) ==> forall n :: n in ns ==> keyOf(n) != Some(ids[p]))
  {
    forall p | 0 <= p < |ids|
      ensures Matches(ns, keyOf, LastKeys(ids)[p]) == Matches(ns, keyOf, Some(ids[p]))
        <==> (!LastOf(ids, p) ==> forall n :: n in ns ==> keyOf(n) != Some(ids[p]))
    {
      NoMatches(ns, keyOf, None);
      NoMatches(ns, keyOf, Some(ids[p]));
    }
  }

  lemma NoMatches<T(!new)>(ns: seq<T>, keyOf: T -> Option<int>, key: Option<int>)
    ensures Matches(ns, keyOf, key) == [] <==> key == None || forall n :: n in ns ==> keyOf(n) != key
  {
    var p := KeyIs(keyOf, key);
    var m := Filter(ns, p);
    FilterMembers(ns, p);
    if m == [] {
      forall n | n in ns && key != None
        ensures keyOf(n) != key
      {
        assert p(n) == (key.Some? && keyOf(n) == key);
      }
    } else {
      var n := m[0];
      assert n in Filter(ns, p);
      assert n in ns && p(n);
      assert keyOf(n) == key;
    }
  }

  /** With distinct ids every node gets its full list. */
  lemma DistinctIdsJoin(ids: seq<int>)
    requires Distinct(ids)
    ensures forall p :: 0 <= p < |ids| ==> LastKeys(ids)[p] == Some(ids[p])
  {
    forall p | 0 <= p < |ids|
      ensures LastOf(ids, p)
    {
      var rest := ids[p + 1..];
      assert forall q :: 0 <= q < |rest| ==> rest[q] == ids[p + 1 + q] != ids[p];
    }
  }

  /** Two nodes with the same id: the first gets nothing although a log is its own. */
  lemma RepeatedIdLosesLogs()
    ensures var ids, ns := [7, 7], [UsageLog(1, Some(7))];
      && Matches(ns, LogKey, LastKeys(ids)[0]) == []
      && Matches(ns, LogKey, Some(ids[0])) == ns
  {
    var ids := [7, 7];
    assert ids[1..] == [7];
    assert LastKeys(ids)[0] == None;
    var log := UsageLog(1, Some(7));
    MatchesNext([], log, LogKey, Some(7));
    MatchesNext([], log, LogKey, None);
    assert [] + [log] == [log];
  }
}
