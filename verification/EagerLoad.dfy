/** The eager loaders of backend/ent/apikey_query.go. Each loader is a hash join:
    it indexes the loaded nodes by key, fetches the neighbors of those keys and
    hands every neighbor to the nodes its key leads to. The specification is the
    nested-loop join, which offers every neighbor to every node. */
module EagerLoad {
  import opened Schema
  import opened Wrappers

  datatype LoadError = QueryFailed(code: int) | NilKey(neighbor: int) | UnexpectedKey(key: int)

  // ---- the nested-loop join ----------------------------------------------

  /** What one node's edges become when the neighbors are offered in order and
      those with the node's key are assigned. A nil key matches nothing. */
  function Nested<T>(e: Edges, key: Option<int>, ns: seq<T>, keyOf: T -> Option<int>, assign: (Edges, T) -> Edges)
    : Edges
  {
    if ns == [] then e
    else
      var front, n := Nested(e, key, ns[..|ns| - 1], keyOf, assign), ns[|ns| - 1];
      if key.Some? && keyOf(n) == key then assign(front, n) else front
  }

  /** The error the first unusable neighbor causes: its key is nil or not asked for. */
  function Check<T>(ns: seq<T>, keyOf: T -> Option<int>, idOf: T -> int, asked: seq<int>): Option<LoadError> {
    if ns == [] then None
    else
      var earlier, n := Check(ns[..|ns| - 1], keyOf, idOf, asked), ns[|ns| - 1];
      if earlier.Some? then earlier
      else if keyOf(n).None? then Some(NilKey(idOf(n)))
      else if keyOf(n).value !in asked then Some(UnexpectedKey(keyOf(n).value))
      else None
  }

  /** The distinct non-nil keys in order of first occurrence. */
  function FirstKeys(keys: seq<Option<int>>): seq<int> {
    if keys == [] then []
    else
      var front, k := FirstKeys(keys[..|keys| - 1]), keys[|keys| - 1];
      if k.None? || k.value in front then front else front + [k.value]
  }

  function NestedAll<T>(es: seq<Edges>, keys: seq<Option<int>>, ns: seq<T>, keyOf: T -> Option<int>,
                        assign: (Edges, T) -> Edges): seq<Edges>
    requires |es| == |keys|
  {
    seq(|es|, p requires 0 <= p < |es| => Nested(es[p], keys[p], ns, keyOf, assign))
  }

  /** Many-to-one loading of nodes with the given edges and foreign keys. */
  function ToOne<T>(es: seq<Edges>, keys: seq<Option<int>>, fetch: seq<int> -> Result<seq<T>, int>,
                    keyOf: T -> Option<int>, idOf: T -> int, assign: (Edges, T) -> Edges)
    : Result<seq<Edges>, LoadError>
    requires |es| == |keys|
  {
    var ids := FirstKeys(keys);
    if ids == [] then Success(es)
    else match fetch(ids)
      case Failure(code) => Failure(QueryFailed(code))
      case Success(ns) => ToOneJoin(es, keys, ns, keyOf, idOf, assign)
  }

  function ToOneJoin<T>(es: seq<Edges>, keys: seq<Option<int>>, ns: seq<T>, keyOf: T -> Option<int>,
                        idOf: T -> int, assign: (Edges, T) -> Edges)
    : Result<seq<Edges>, LoadError>
    requires |es| == |keys|
  {
    var bad := Check(ns, keyOf, idOf, FirstKeys(keys));
    if bad.Some? then Failure(bad.value)
    else Success(NestedAll(es, keys, ns, keyOf, assign))
  }

  /** Whether position p is the last one holding its id. */
  predicate LastOf(ids: seq<int>, p: nat)
    requires p < |ids|
  {
    ids[p] !in ids[p + 1..]
  }

  /** One-to-many loading: every node is initialised, and the neighbors of an id go
      to the last node with that id. */
  function ToMany<T>(es: seq<Edges>, ids: seq<int>, fetch: seq<int> -> Result<seq<T>, int>,
                     keyOf: T -> Option<int>, idOf: T -> int, init: Edges -> Edges, assign: (Edges, T) -> Edges)
    : Result<seq<Edges>, LoadError>
    requires |es| == |ids|
  {
    match fetch(ids)
    case Failure(code) => Failure(QueryFailed(code))
    case Success(ns) => ToManyJoin(es, ids, ns, keyOf, idOf, init, assign)
  }

  function ToManyJoin<T>(es: seq<Edges>, ids: seq<int>, ns: seq<T>, keyOf: T -> Option<int>, idOf: T -> int,
                         init: Edges -> Edges, assign: (Edges, T) -> Edges)
    : Result<seq<Edges>, LoadError>
    requires |es| == |ids|
  {
    var bad := Check(ns, keyOf, idOf, ids);
    if bad.Some? then Failure(bad.value)
    else Success(NestedAll(InitAll(es, init), LastKeys(ids), ns, keyOf, assign))
  }

  function InitAll(es: seq<Edges>, init: Edges -> Edges): seq<Edges> {
    seq(|es|, p requires 0 <= p < |es| => init(es[p]))
  }

  /** The key each position answers to: its id, or nothing when a later position has
      the same id. */
  function LastKeys(ids: seq<int>): seq<Option<int>> {
    seq(|ids|, p requires 0 <= p < |ids| => if LastOf(ids, p) then Some(ids[p]) else None)
  }

  // ---- the loaders on node objects ----------------------------------------

  function Keys(nodes: seq<APIKey>, fk: Entity -> Option<int>): seq<Option<int>>
    reads nodes
  {
    seq(|nodes|, i requires 0 <= i < |nodes| reads nodes => fk(nodes[i].data))
  }

  function IDs(nodes: seq<APIKey>): seq<int>
    reads nodes
  {
    seq(|nodes|, i requires 0 <= i < |nodes| reads nodes => nodes[i].data.id)
  }

  function EdgesOf(nodes: seq<APIKey>): seq<Edges>
    reads nodes
  {
    seq(|nodes|, i requires 0 <= i < |nodes| reads nodes => nodes[i].edges)
  }

  ghost function Objects(nodes: seq<APIKey>): set<APIKey> {
    set n | n in nodes
  }

  /** list holds exactly the nodes whose key is k, each once. */
  ghost predicate HasKey(list: seq<APIKey>, nodes: seq<APIKey>, keys: seq<Option<int>>, k: int)
    requires |nodes| == |keys|
  {
    && Distinct(list)
    && (forall p :: 0 <= p < |nodes| ==> (nodes[p] in list <==> keys[p] == Some(k)))
    && (forall n :: n in list ==> n in nodes)
  }

  lemma HasKeyOther(list: seq<APIKey>, nodes: seq<APIKey>, keys: seq<Option<int>>, i: nat, k: int)
    requires i < |nodes| == |keys| && Distinct(nodes)
    requires HasKey(list, nodes[..i], keys[..i], k) && keys[i] != Some(k)
    ensures HasKey(list, nodes[..i + 1], keys[..i + 1], k)
  {
    assert nodes[i] !in nodes[..i];
    assert forall p :: 0 <= p < i ==> nodes[..i + 1][p] == nodes[..i][p] && keys[..i + 1][p] == keys[..i][p];
  }

  lemma HasKeySame(list: seq<APIKey>, nodes: seq<APIKey>, keys: seq<Option<int>>, i: nat, k: int)
    requires i < |nodes| == |keys| && Distinct(nodes)
    requires HasKey(list, nodes[..i], keys[..i], k) && keys[i] == Some(k)
    ensures HasKey(list + [nodes[i]], nodes[..i + 1], keys[..i + 1], k)
  {
    assert nodes[i] !in nodes[..i];
    assert forall p :: 0 <= p < i ==>
      nodes[..i + 1][p] == nodes[..i][p] && keys[..i + 1][p] == keys[..i][p] && nodes[p] != nodes[i];
    assert nodes[..i + 1] == nodes[..i] + [nodes[i]];
  }

  lemma HasKeyNone(nodes: seq<APIKey>, keys: seq<Option<int>>, k: int)
    requires |nodes| == |keys| && Some(k) !in keys
    ensures HasKey([], nodes, keys, k)
  {
    assert forall p :: 0 <= p < |nodes| ==> keys[p] in keys;
  }

  lemma {:induction false} FirstKeysMember(keys: seq<Option<int>>, k: int)
    ensures k in FirstKeys(keys) <==> Some(k) in keys
  {
    if keys != [] {
      FirstKeysMember(keys[..|keys| - 1], k);
      assert keys == keys[..|keys| - 1] + [keys[|keys| - 1]];
    }
  }

  /** Builds the list of distinct keys and the index from key to nodes. */
  method IndexByKey(nodes: seq<APIKey>, fk: Entity -> Option<int>)
    returns (ids: seq<int>, index: map<int, seq<APIKey>>)
    requires Distinct(nodes)
    ensures ids == FirstKeys(Keys(nodes, fk))
    ensures forall k :: k in index <==> k in ids
    ensures forall k :: k in index ==> HasKey(index[k], nodes, Keys(nodes, fk), k)
  {
    ids, index := [], map[];
    ghost var keys := Keys(nodes, fk);
    for i := 0 to |nodes|
      invariant ids == FirstKeys(keys[..i])
      invariant forall k :: k in index <==> k in ids
      invariant forall k :: k in index ==> HasKey(index[k], nodes[..i], keys[..i], k)
    {
      var key := fk(nodes[i].data);
      assert keys[..i + 1][..i] == keys[..i];
      ghost var before := index;
      forall k | k in before && keys[i] != Some(k)
        ensures HasKey(before[k], nodes[..i + 1], keys[..i + 1], k)
      {
        HasKeyOther(before[k], nodes, keys, i, k);
      }
      if key.Some? {
        var k := key.value;
        if k !in index {
          FirstKeysMember(keys[..i], k);
          HasKeyNone(nodes[..i], keys[..i], k);
          HasKeySame([], nodes, keys, i, k);
          assert [] + [nodes[i]] == [nodes[i]];
          ids := ids + [k];
          index := index[k := [nodes[i]]];
        } else {
          HasKeySame(index[k], nodes, keys, i, k);
          index := index[k := index[k] + [nodes[i]]];
        }
      }
    }
    assert nodes[..|nodes|] == nodes && keys[..|nodes|] == keys;
  }

  /** Hands one neighbor to every node the index lists under its key. */
  method AssignTo<T>(targets: seq<APIKey>, n: T, assign: (Edges, T) -> Edges,
                     ghost nodes: seq<APIKey>, ghost keys: seq<Option<int>>, ghost k: int)
    requires |nodes| == |keys| && HasKey(targets, nodes, keys, k)
    modifies Objects(nodes)`edges
    ensures forall p :: 0 <= p < |nodes| ==>
      nodes[p].edges == if keys[p] == Some(k) then assign(old(nodes[p].edges), n) else old(nodes[p].edges)
  {
    for i := 0 to |targets|
      invariant forall j :: 0 <= j < |targets| ==>
        targets[j].edges == if j < i then assign(old(targets[j].edges), n) else old(targets[j].edges)
      invariant forall m :: m in nodes && m !in targets ==> m.edges == old(m.edges)
    {
      targets[i].edges := assign(targets[i].edges, n);
    }
    assert forall t :: t in targets ==> t.edges == assign(old(t.edges), n);
  }

  lemma NestedNext<T>(es: seq<Edges>, keys: seq<Option<int>>, ns: seq<T>, j: nat, keyOf: T -> Option<int>,
                      assign: (Edges, T) -> Edges)
    requires |es| == |keys| && j < |ns|
    ensures forall p :: 0 <= p < |es| ==>
      var front := NestedAll(es, keys, ns[..j], keyOf, assign)[p];
      NestedAll(es, keys, ns[..j + 1], keyOf, assign)[p]
        == if keys[p].Some? && keyOf(ns[j]) == keys[p] then assign(front, ns[j]) else front
  {
    assert ns[..j + 1][..j] == ns[..j];
  }

  /** The join loop: looks every neighbor's key up in the index. */
  method JoinToOne<T>(nodes: seq<APIKey>, index: map<int, seq<APIKey>>, ns: seq<T>, keyOf: T -> Option<int>,
                      idOf: T -> int, assign: (Edges, T) -> Edges,
                      ghost keys: seq<Option<int>>, ghost asked: seq<int>)
    returns (err: Option<LoadError>)
    requires |nodes| == |keys|
    requires forall k :: k in index <==> k in asked
    requires forall k :: k in index ==> HasKey(index[k], nodes, keys, k)
    modifies Objects(nodes)`edges
    ensures err == Check(ns, keyOf, idOf, asked)
    ensures err == None ==> EdgesOf(nodes) == NestedAll(old(EdgesOf(nodes)), keys, ns, keyOf, assign)
  {
    ghost var before := EdgesOf(nodes);
    for j := 0 to |ns|
      invariant EdgesOf(nodes) == NestedAll(before, keys, ns[..j], keyOf, assign)
      invariant Check(ns[..j], keyOf, idOf, asked) == None
    {
      CheckNext(ns, j, keyOf, idOf, asked);
      NestedNext(before, keys, ns, j, keyOf, assign);
      var key := keyOf(ns[j]);
      if key.None? {
        return Some(NilKey(idOf(ns[j])));
      }
      if key.value !in index {
        return Some(UnexpectedKey(key.value));
      }
      ghost var was := EdgesOf(nodes);
      AssignTo(index[key.value], ns[j], assign, nodes, keys, key.value);
    }
    assert ns[..|ns|] == ns;
    err := None;
  }

  /** loadUser, loadGroup and loadTeam: fk reads the foreign key of a node, and
      asked is the list of keys the query is restricted to. */
  method LoadToOne<T>(nodes: seq<APIKey>, fk: Entity -> Option<int>, fetch: seq<int> -> Result<seq<T>, int>,
                      keyOf: T -> Option<int>, idOf: T -> int, assign: (Edges, T) -> Edges)
    returns (asked: seq<int>, err: Option<LoadError>)
    requires Distinct(nodes)
    modifies Objects(nodes)`edges
    ensures asked == FirstKeys(Keys(nodes, fk))
    ensures match ToOne(old(EdgesOf(nodes)), Keys(nodes, fk), fetch, keyOf, idOf, assign)
      case Success(es) => err == None && EdgesOf(nodes) == es
      case Failure(e) => err == Some(e)
  {
    var index;
    asked, index := IndexByKey(nodes, fk);
    if asked == [] {
      return asked, None;
    }
    var fetched := fetch(asked);
    if fetched.Failure? {
      return asked, Some(QueryFailed(fetched.error));
    }
    ghost var keys := Keys(nodes, fk);
    err := JoinToOne(nodes, index, fetched.value, keyOf, idOf, assign, keys, asked);
    assert Keys(nodes, fk) == keys;
  }

  /** One more neighbor: its own error, if any, or none so far. */
  lemma CheckNext<T>(ns: seq<T>, j: nat, keyOf: T -> Option<int>, idOf: T -> int, asked: seq<int>)
    requires j < |ns| && Check(ns[..j], keyOf, idOf, asked) == None
    ensures var bad := if keyOf(ns[j]).None? then Some(NilKey(idOf(ns[j])))
        else if keyOf(ns[j]).value !in asked then Some(UnexpectedKey(keyOf(ns[j]).value)) else None;
      && Check(ns[..j + 1], keyOf, idOf, asked) == bad
      && (bad.Some? ==> Check(ns, keyOf, idOf, asked) == bad)
  {
    assert ns[..j + 1][..j] == ns[..j];
    if Check(ns[..j + 1], keyOf, idOf, asked).Some? {
      CheckStays(ns, j + 1, keyOf, idOf, asked);
    }
  }

  lemma {:induction false} CheckStays<T>(ns: seq<T>, j: nat, keyOf: T -> Option<int>, idOf: T -> int, asked: seq<int>)
    requires j <= |ns| && Check(ns[..j], keyOf, idOf, asked).Some?
    ensures Check(ns, keyOf, idOf, asked) == Check(ns[..j], keyOf, idOf, asked)
    decreases |ns| - j
  {
    if j < |ns| {
      assert ns[..j + 1][..j] == ns[..j];
      CheckStays(ns, j + 1, keyOf, idOf, asked);
    } else {
      assert ns[..j] == ns;
    }
  }

  /** node holds the last position of id k. */
  ghost predicate IsLast(node: APIKey, nodes: seq<APIKey>, ids: seq<int>, k: int)
    requires |nodes| == |ids|
  {
    exists p :: 0 <= p < |nodes| && nodes[p] == node && ids[p] == k && LastOf(ids, p)
  }

  lemma IsLastNext(node: APIKey, nodes: seq<APIKey>, ids: seq<int>, i: nat, k: int)
    requires i < |nodes| == |ids|
    requires if ids[i] == k then node == nodes[i] else IsLast(node, nodes[..i], ids[..i], k)
    ensures IsLast(node, nodes[..i + 1], ids[..i + 1], k)
  {
    var ids' := ids[..i + 1];
    if ids[i] == k {
      assert nodes[..i + 1][i] == node && ids'[i] == k && ids'[i + 1..] == [];
    } else {
      var p :| 0 <= p < i && nodes[..i][p] == node && ids[..i][p] == k && LastOf(ids[..i], p);
      assert ids'[p + 1..] == ids[..i][p + 1..] + [ids[i]];
      assert nodes[..i + 1][p] == node && ids'[p] == k && LastOf(ids', p);
    }
  }

  /** Collects the ids, keeps the last node of each id, and initialises every node. */
  method IndexById(nodes: seq<APIKey>, init: Edges -> Edges) returns (asked: seq<int>, index: map<int, APIKey>)
    requires Distinct(nodes)
    modifies Objects(nodes)`edges
    ensures asked == IDs(nodes)
    ensures forall k :: k in index <==> k in asked
    ensures forall k :: k in index ==> IsLast(index[k], nodes, asked, k)
    ensures EdgesOf(nodes) == InitAll(old(EdgesOf(nodes)), init)
  {
    asked, index := [], map[];
    ghost var ids := IDs(nodes);
    for i := 0 to |nodes|
      invariant asked == ids[..i]
      invariant forall k :: k in index <==> k in asked
      invariant forall k :: k in index ==> IsLast(index[k], nodes[..i], ids[..i], k)
      invariant forall p :: 0 <= p < |nodes| ==>
        nodes[p].edges == if p < i then init(old(nodes[p].edges)) else old(nodes[p].edges)
    {
      asked := asked + [nodes[i].data.id];
      index := index[nodes[i].data.id := nodes[i]];
      nodes[i].edges := init(nodes[i].edges);
      forall k | k in index
        ensures IsLast(index[k], nodes[..i + 1], ids[..i + 1], k)
      {
        IsLastNext(index[k], nodes, ids, i, k);
      }
    }
    assert ids[..|nodes|] == ids && nodes[..|nodes|] == nodes;
  }

  /** loadUsageLogs and loadCompositeGroups: the index keeps one node per id. */
  method LoadToMany<T>(nodes: seq<APIKey>, fetch: seq<int> -> Result<seq<T>, int>, keyOf: T -> Option<int>,
                       idOf: T -> int, init: Edges -> Edges, assign: (Edges, T) -> Edges)
    returns (asked: seq<int>, err: Option<LoadError>)
    requires Distinct(nodes)
    modifies Objects(nodes)`edges
    ensures asked == IDs(nodes)
    ensures match ToMany(old(EdgesOf(nodes)), IDs(nodes), fetch, keyOf, idOf, init, assign)
      case Success(es) => err == None && EdgesOf(nodes) == es
      case Failure(e) => err == Some(e)
  {
    var index: map<int, APIKey>;
    asked, index := IndexById(nodes, init);
    var fetched := fetch(asked);
    if fetched.Failure? {
      return asked, Some(QueryFailed(fetched.error));
    }
    err := JoinToMany(nodes, index, fetched.value, keyOf, idOf, assign, asked);
  }

  method JoinToMany<T>(nodes: seq<APIKey>, index: map<int, APIKey>, ns: seq<T>, keyOf: T -> Option<int>,
                       idOf: T -> int, assign: (Edges, T) -> Edges, ghost asked: seq<int>)
    returns (err: Option<LoadError>)
    requires Distinct(nodes) && |nodes| == |asked|
    requires forall k :: k in index <==> k in asked
    requires forall k :: k in index ==> IsLast(index[k], nodes, asked, k)
    modifies Objects(nodes)`edges
    ensures err == Check(ns, keyOf, idOf, asked)
    ensures err == None ==> EdgesOf(nodes) == NestedAll(old(EdgesOf(nodes)), LastKeys(asked), ns, keyOf, assign)
  {
    ghost var before, keys := EdgesOf(nodes), LastKeys(asked);
    for j := 0 to |ns|
      invariant EdgesOf(nodes) == NestedAll(before, keys, ns[..j], keyOf, assign)
      invariant Check(ns[..j], keyOf, idOf, asked) == None
    {
      CheckNext(ns, j, keyOf, idOf, asked);
      NestedNext(before, keys, ns, j, keyOf, assign);
      var key := keyOf(ns[j]);
      if key.None? {
        return Some(NilKey(idOf(ns[j])));
      }
      if key.value !in index {
        return Some(UnexpectedKey(key.value));
      }
      var node := index[key.value];
      ghost var at := LastPosition(node, nodes, asked, key.value);
      node.edges := assign(node.edges, ns[j]);
    }
    assert ns[..|ns|] == ns;
    err := None;
  }

  /** The one position that answers to key k. */
  lemma LastPosition(node: APIKey, nodes: seq<APIKey>, ids: seq<int>, k: int) returns (at: nat)
    requires |nodes| == |ids| && IsLast(node, nodes, ids, k)
    ensures at < |nodes| && nodes[at] == node
    ensures forall p :: 0 <= p < |nodes| ==> (LastKeys(ids)[p] == Some(k) <==> p == at)
  {
    at :| 0 <= at < |nodes| && nodes[at] == node && ids[at] == k && LastOf(ids, at);
    forall lo, hi {:trigger ids[lo], ids[hi]} | 0 <= lo < hi < |ids|
      ensures ids[hi] in ids[lo + 1..]
    {
      assert ids[lo + 1..][hi - lo - 1] == ids[hi];
    }
  }
}
