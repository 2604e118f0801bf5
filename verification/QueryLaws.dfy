/** What a whole query returns: every loaded edge as a nested-loop join over the
    returned neighbors, what the edge accessors report, when loading fails, and why
    selecting fewer columns does not change the edges. */
module QueryLaws {
  import opened EagerLoad
  import opened JoinLaws
  import opened RowMapping
  import opened Schema
  import opened SqlAll
  import opened Wrappers

  // ---- the neighbors each requested edge was given ---------------------------

  /** Neighbors of a many-to-one query; none is asked for when every key is nil. */
  function OneNeighbors<T>(keys: seq<Option<int>>, fetch: Option<seq<int> -> Result<seq<T>, int>>): seq<T> {
    if fetch.None? || FirstKeys(keys) == [] then []
    else match fetch.value(FirstKeys(keys)) case Success(ns) => ns case Failure(_) => []
  }

  function ManyNeighbors<T(!new)>(ids: seq<int>, child: Option<ChildQuery<T>>): seq<T> {
    if child.None? then []
    else match ChildFetch(child.value)(ids) case Success(ns) => ns case Failure(_) => []
  }

  function Users(q: Query, datas: seq<Entity>): seq<User> { OneNeighbors(KeysOf(datas, UserFK), q.withUser) }
  function Groups(q: Query, datas: seq<Entity>): seq<Group> { OneNeighbors(KeysOf(datas, GroupFK), q.withGroup) }
  function Teams(q: Query, datas: seq<Entity>): seq<Team> { OneNeighbors(KeysOf(datas, TeamFK), q.withTeam) }
  function Logs(q: Query, datas: seq<Entity>): seq<UsageLog> { ManyNeighbors(IdsOf(datas), q.withUsageLogs) }
  function Composites(q: Query, datas: seq<Entity>): seq<CompositeGroup> {
    ManyNeighbors(IdsOf(datas), q.withCompositeGroups)
  }

  // ---- the loaded edges ----------------------------------------------------

  /** The edges of the node at position p, stated as joins over the neighbors. */
  function JoinedEdges(q: Query, datas: seq<Entity>, p: nat): Edges
    requires p < |datas|
  {
    Edges(LastMatch(Users(q, datas), UserKey, Some(datas[p].userID)),
          LastMatch(Groups(q, datas), GroupKey, datas[p].groupID),
          if q.withUsageLogs.None? then None
          else Some(Matches(Logs(q, datas), LogKey, LastKeys(IdsOf(datas))[p])),
          if q.withCompositeGroups.None? then None
          else Some(Matches(Composites(q, datas), CompositeKey, LastKeys(IdsOf(datas))[p])),
          LastMatch(Teams(q, datas), TeamKey, datas[p].teamID),
          LoadedTypes(q))
  }

  lemma ToOneStep<T(!new)>(es: seq<Edges>, keys: seq<Option<int>>, fetch: seq<int> -> Result<seq<T>, int>,
                           keyOf: T -> Option<int>, idOf: T -> int, assign: (Edges, T) -> Edges, p: nat)
    requires |es| == |keys| && p < |es| && Overwrites(assign)
    requires ToOne(es, keys, fetch, keyOf, idOf, assign).Success?
    ensures ToOne(es, keys, fetch, keyOf, idOf, assign).value[p] ==
      match LastMatch(OneNeighbors(keys, Some(fetch)), keyOf, keys[p])
      case Some(n) => assign(es[p], n)
      case None => es[p]
  {
    ToOneKeepsLast(es[p], keys[p], OneNeighbors(keys, Some(fetch)), keyOf, assign);
  }

  lemma UserStep(q: Query, datas: seq<Entity>, es: seq<Edges>, p: nat)
    requires |es| == |datas| && p < |es| && LoadUsers(q, datas, es).Success? && es[p].user == None
    ensures LoadUsers(q, datas, es).value[p]
      == es[p].(user := LastMatch(Users(q, datas), UserKey, Some(datas[p].userID)))
  {
    if q.withUser.Some? {
      var keys := KeysOf(datas, UserFK);
      ToOneStep(es, keys, q.withUser.value, UserKey, UserId, SetUser, p);
      assert keys[p] == Some(datas[p].userID) && Users(q, datas) == OneNeighbors(keys, Some(q.withUser.value));
    } else {
      assert LastMatch(Users(q, datas), UserKey, Some(datas[p].userID)) == None;
    }
  }

  lemma GroupStep(q: Query, datas: seq<Entity>, es: seq<Edges>, p: nat)
    requires |es| == |datas| && p < |es| && LoadGroups(q, datas, es).Success? && es[p].group == None
    ensures LoadGroups(q, datas, es).value[p]
      == es[p].(group := LastMatch(Groups(q, datas), GroupKey, datas[p].groupID))
  {
    if q.withGroup.Some? {
      var keys := KeysOf(datas, GroupFK);
      ToOneStep(es, keys, q.withGroup.value, GroupKey, GroupId, SetGroup, p);
      assert keys[p] == datas[p].groupID && Groups(q, datas) == OneNeighbors(keys, Some(q.withGroup.value));
    } else {
      assert LastMatch(Groups(q, datas), GroupKey, datas[p].groupID) == None;
    }
  }

  lemma TeamStep(q: Query, datas: seq<Entity>, es: seq<Edges>, p: nat)
    requires |es| == |datas| && p < |es| && LoadTeams(q, datas, es).Success? && es[p].team == None
    ensures LoadTeams(q, datas, es).value[p]
      == es[p].(team := LastMatch(Teams(q, datas), TeamKey, datas[p].teamID))
  {
    if q.withTeam.Some? {
      var keys := KeysOf(datas, TeamFK);
      ToOneStep(es, keys, q.withTeam.value, TeamKey, TeamId, SetTeam, p);
      assert keys[p] == datas[p].teamID && Teams(q, datas) == OneNeighbors(keys, Some(q.withTeam.value));
    } else {
      assert LastMatch(Teams(q, datas), TeamKey, datas[p].teamID) == None;
    }
  }

  lemma LogStep(q: Query, datas: seq<Entity>, es: seq<Edges>, p: nat)
    requires |es| == |datas| && p < |es| && LoadLogs(q, datas, es).Success? && es[p].usageLogs == None
    ensures LoadLogs(q, datas, es).value[p] == es[p].(usageLogs :=
      if q.withUsageLogs.None? then None else Some(Matches(Logs(q, datas), LogKey, LastKeys(IdsOf(datas))[p])))
  {
    if q.withUsageLogs.Some? {
      LogsAreMatches(es[p], LastKeys(IdsOf(datas))[p], Logs(q, datas));
    }
  }

  lemma CompositeStep(q: Query, datas: seq<Entity>, es: seq<Edges>, p: nat)
    requires |es| == |datas| && p < |es| && LoadComposites(q, datas, es).Success? && es[p].compositeGroups == None
    ensures LoadComposites(q, datas, es).value[p] == es[p].(compositeGroups :=
      if q.withCompositeGroups.None? then None
      else Some(Matches(Composites(q, datas), CompositeKey, LastKeys(IdsOf(datas))[p])))
  {
    if q.withCompositeGroups.Some? {
      CompositesAreMatches(es[p], LastKeys(IdsOf(datas))[p], Composites(q, datas));
    }
  }

  /** When loading succeeds, every node's edges are the joins over the returned
      neighbors: the last match for a many-to-one edge, all matches in order for a
      one-to-many edge, and nothing for an edge that was not requested. */
  lemma LoadedEdgesAreJoins(q: Query, datas: seq<Entity>, p: nat)
    requires p < |datas| && LoadEdges(q, datas).Success?
    ensures LoadEdges(q, datas).value[p] == JoinedEdges(q, datas, p)
  {
    var es0 := FreshEdges(q, |datas|);
    UserStep(q, datas, es0, p);
    var es1 := LoadUsers(q, datas, es0).value;
    GroupStep(q, datas, es1, p);
    var es2 := LoadGroups(q, datas, es1).value;
    LogStep(q, datas, es2, p);
    var es3 := LoadLogs(q, datas, es2).value;
    CompositeStep(q, datas, es3, p);
    var es4 := LoadComposites(q, datas, es3).value;
    TeamStep(q, datas, es4, p);
  }

  /** When the rows have distinct identities, every node's lists are all the returned
      neighbors with its identity, in order. */
  lemma DistinctRowsGetAll(q: Query, datas: seq<Entity>, p: nat)
    requires p < |datas| && LoadEdges(q, datas).Success? && Distinct(IdsOf(datas))
    ensures var e := LoadEdges(q, datas).value[p];
      && (q.withUsageLogs.Some? ==> e.usageLogs == Some(Matches(Logs(q, datas), LogKey, Some(datas[p].id))))
      && (q.withCompositeGroups.Some? ==>
            e.compositeGroups == Some(Matches(Composites(q, datas), CompositeKey, Some(datas[p].id))))
  {
    LoadedEdgesAreJoins(q, datas, p);
    DistinctIdsJoin(IdsOf(datas));
  }

  // Conservation: the nodes' lists together hold what was returned.

  /** The lists of all nodes together, with multiplicity; a nil list holds nothing. */
  ghost function Together<T>(es: seq<Edges>, list: Edges -> Option<seq<T>>): multiset<T> {
    if es == [] then multiset{}
    else Together(es[..|es| - 1], list) + multiset(list(es[|es| - 1]).Or([]))
  }

  lemma {:induction false} TogetherIsHandedOut<T(!new)>(es: seq<Edges>, list: Edges -> Option<seq<T>>, ns: seq<T>,
                                                        keyOf: T -> Option<int>, keys: seq<Option<int>>)
    requires |es| == |keys|
    requires forall p :: 0 <= p < |es| ==> list(es[p]) == Some(Matches(ns, keyOf, keys[p]))
    ensures Together(es, list) == HandedOut(ns, keyOf, keys)
  {
    if es != [] {
      var n := |es| - 1;
      TogetherIsHandedOut(es[..n], list, ns, keyOf, keys[..n]);
    }
  }

  /** After a successful load the usage logs of all nodes together are exactly the
      returned ones, each as often as it was returned, and so are the composite groups:
      no neighbor is lost, duplicated or handed to two nodes, even when nodes repeat an
      identity. */
  lemma LoadConserves(q: Query, datas: seq<Entity>)
    requires datas != [] && LoadEdges(q, datas).Success?
    ensures var es := LoadEdges(q, datas).value;
      && (q.withUsageLogs.Some? ==> Together(es, (e: Edges) => e.usageLogs) == multiset(Logs(q, datas)))
      && (q.withCompositeGroups.Some? ==>
            Together(es, (e: Edges) => e.compositeGroups) == multiset(Composites(q, datas)))
  {
    var es, ids := LoadEdges(q, datas).value, IdsOf(datas);
    LoadSucceeds(q, datas);
    forall p | 0 <= p < |datas|
      ensures es[p] == JoinedEdges(q, datas, p)
    {
      LoadedEdgesAreJoins(q, datas, p);
    }
    if q.withUsageLogs.Some? {
      CheckSpec(Logs(q, datas), LogKey, LogId, ids);
      EveryNeighborLandsOnce(ids, Logs(q, datas), LogKey, LogId);
      TogetherIsHandedOut(es, (e: Edges) => e.usageLogs, Logs(q, datas), LogKey, LastKeys(ids));
    }
    if q.withCompositeGroups.Some? {
      CheckSpec(Composites(q, datas), CompositeKey, CompositeId, ids);
      EveryNeighborLandsOnce(ids, Composites(q, datas), CompositeKey, CompositeId);
      TogetherIsHandedOut(es, (e: Edges) => e.compositeGroups, Composites(q, datas), CompositeKey, LastKeys(ids));
    }
  }

  // ---- when loading fails ----------------------------------------------------

  /** A many-to-one edge loads: not requested, nothing to ask for, or every returned
      neighbor is one of those asked for. */
  ghost predicate OneLoads<T(!new)>(keys: seq<Option<int>>, fetch: Option<seq<int> -> Result<seq<T>, int>>,
                              keyOf: T -> Option<int>)
  {
    fetch.Some? && FirstKeys(keys) != [] ==>
      && fetch.value(FirstKeys(keys)).Success?
      && forall n :: n in fetch.value(FirstKeys(keys)).value ==> keyOf(n).Some? && keyOf(n) in keys
  }

  ghost predicate ManyLoads<T(!new)>(ids: seq<int>, child: Option<ChildQuery<T>>, keyOf: T -> Option<int>) {
    child.Some? ==>
      && ChildFetch(child.value)(ids).Success?
      && forall n :: n in ChildFetch(child.value)(ids).value ==> keyOf(n).Some? && keyOf(n).value in ids
  }

  lemma ToOneLoads<T(!new)>(es: seq<Edges>, keys: seq<Option<int>>, fetch: seq<int> -> Result<seq<T>, int>,
                            keyOf: T -> Option<int>, idOf: T -> int, assign: (Edges, T) -> Edges)
    requires |es| == |keys|
    ensures ToOne(es, keys, fetch, keyOf, idOf, assign).Success? <==> OneLoads(keys, Some(fetch), keyOf)
  {
    var ids := FirstKeys(keys);
    if ids != [] && fetch(ids).Success? {
      var ns := fetch(ids).value;
      CheckSpec(ns, keyOf, idOf, ids);
      FirstKeysSpec(keys);
      forall n | n in ns && keyOf(n).Some?
        ensures keyOf(n).value in ids <==> keyOf(n) in keys
      {
        var k := keyOf(n).value;
        assert k in ids <==> Some(k) in keys;
      }
    }
  }

  lemma ToManyLoads<T(!new)>(es: seq<Edges>, ids: seq<int>, child: ChildQuery<T>, keyOf: T -> Option<int>,
                             idOf: T -> int, init: Edges -> Edges, assign: (Edges, T) -> Edges)
    requires |es| == |ids|
    ensures ToMany(es, ids, ChildFetch(child), keyOf, idOf, init, assign).Success?
      <==> ManyLoads(ids, Some(child), keyOf)
  {
    if ChildFetch(child)(ids).Success? {
      CheckSpec(ChildFetch(child)(ids).value, keyOf, idOf, ids);
    }
  }

  lemma UsersLoad(q: Query, datas: seq<Entity>, es: seq<Edges>)
    requires |es| == |datas|
    ensures LoadUsers(q, datas, es).Success? <==> OneLoads(KeysOf(datas, UserFK), q.withUser, UserKey)
  {
    if q.withUser.Some? {
      ToOneLoads(es, KeysOf(datas, UserFK), q.withUser.value, UserKey, UserId, SetUser);
    }
  }

  lemma GroupsLoad(q: Query, datas: seq<Entity>, es: seq<Edges>)
    requires |es| == |datas|
    ensures LoadGroups(q, datas, es).Success? <==> OneLoads(KeysOf(datas, GroupFK), q.withGroup, GroupKey)
  {
    if q.withGroup.Some? {
      ToOneLoads(es, KeysOf(datas, GroupFK), q.withGroup.value, GroupKey, GroupId, SetGroup);
    }
  }

  lemma TeamsLoad(q: Query, datas: seq<Entity>, es: seq<Edges>)
    requires |es| == |datas|
    ensures LoadTeams(q, datas, es).Success? <==> OneLoads(KeysOf(datas, TeamFK), q.withTeam, TeamKey)
  {
    if q.withTeam.Some? {
      ToOneLoads(es, KeysOf(datas, TeamFK), q.withTeam.value, TeamKey, TeamId, SetTeam);
    }
  }

  lemma LogsLoad(q: Query, datas: seq<Entity>, es: seq<Edges>)
    requires |es| == |datas|
    ensures LoadLogs(q, datas, es).Success? <==> ManyLoads(IdsOf(datas), q.withUsageLogs, LogKey)
  {
    if q.withUsageLogs.Some? {
      ToManyLoads(es, IdsOf(datas), q.withUsageLogs.value, LogKey, LogId, InitLogs, AddLog);
    }
  }

  lemma CompositesLoad(q: Query, datas: seq<Entity>, es: seq<Edges>)
    requires |es| == |datas|
    ensures LoadComposites(q, datas, es).Success? <==> ManyLoads(IdsOf(datas), q.withCompositeGroups, CompositeKey)
  {
    if q.withCompositeGroups.Some? {
      ToManyLoads(es, IdsOf(datas), q.withCompositeGroups.value, CompositeKey, CompositeId, InitComposites, AddComposite);
    }
  }

  /** Loading a non-empty result succeeds exactly when each requested edge's query
      succeeds and returns only neighbors that belong to some node. */
  lemma LoadSucceeds(q: Query, datas: seq<Entity>)
    requires datas != []
    ensures LoadEdges(q, datas).Success? <==>
      (&& OneLoads(KeysOf(datas, UserFK), q.withUser, UserKey)
       && OneLoads(KeysOf(datas, GroupFK), q.withGroup, GroupKey)
       && ManyLoads(IdsOf(datas), q.withUsageLogs, LogKey)
       && ManyLoads(IdsOf(datas), q.withCompositeGroups, CompositeKey)
       && OneLoads(KeysOf(datas, TeamFK), q.withTeam, TeamKey))
  {
    var es0 := FreshEdges(q, |datas|);
    var r1 := LoadUsers(q, datas, es0);
    UsersLoad(q, datas, es0);
    if r1.Success? {
      var r2 := LoadGroups(q, datas, r1.value);
      GroupsLoad(q, datas, r1.value);
      if r2.Success? {
        var r3 := LoadLogs(q, datas, r2.value);
        LogsLoad(q, datas, r2.value);
        if r3.Success? {
          var r4 := LoadComposites(q, datas, r3.value);
          CompositesLoad(q, datas, r3.value);
          if r4.Success? {
            TeamsLoad(q, datas, r4.value);
          }
        }
      }
    }
  }

  // ---- the edge accessors ------------------------------------------------------

  datatype EdgeError = NotFound | NotLoaded

  function PointerOrErr<T>(edge: Option<T>, loaded: bool): Result<T, EdgeError> {
    if edge.Some? then Success(edge.value) else if loaded then Failure(NotFound) else Failure(NotLoaded)
  }

  /** A slice; nil and empty look the same to the caller. */
  function SliceOrErr<T>(edge: Option<seq<T>>, loaded: bool): Result<seq<T>, EdgeError> {
    if loaded then Success(edge.Or([])) else Failure(NotLoaded)
  }

  predicate FiveTypes(e: Edges) { |e.loadedTypes| == 5 }

  function UserOrErr(e: Edges): Result<User, EdgeError>
    requires FiveTypes(e)
  { PointerOrErr(e.user, e.loadedTypes[0]) }

  function GroupOrErr(e: Edges): Result<Group, EdgeError>
    requires FiveTypes(e)
  { PointerOrErr(e.group, e.loadedTypes[1]) }

  function UsageLogsOrErr(e: Edges): Result<seq<UsageLog>, EdgeError>
    requires FiveTypes(e)
  { SliceOrErr(e.usageLogs, e.loadedTypes[2]) }

  function CompositeGroupsOrErr(e: Edges): Result<seq<CompositeGroup>, EdgeError>
    requires FiveTypes(e)
  { SliceOrErr(e.compositeGroups, e.loadedTypes[3]) }

  function TeamOrErr(e: Edges): Result<Team, EdgeError>
    requires FiveTypes(e)
  { PointerOrErr(e.team, e.loadedTypes[4]) }

  lemma OneAccessor<T(!new)>(keys: seq<Option<int>>, fetch: Option<seq<int> -> Result<seq<T>, int>>,
                             keyOf: T -> Option<int>, key: Option<int>)
    ensures var ns := OneNeighbors(keys, fetch);
      var r := PointerOrErr(LastMatch(ns, keyOf, key), fetch.Some?);
      && (r == Failure(NotLoaded) <==> fetch.None?)
      && (r == Failure(NotFound) <==> fetch.Some? && (key == None || forall n :: n in ns ==> keyOf(n) != key))
      && (r.Success? ==> r.value in ns && keyOf(r.value) == key)
  {
    LastMatchSpec(OneNeighbors(keys, fetch), keyOf, key);
  }

  /** The accessors on joined edges. */
  lemma JoinedAccessors(q: Query, datas: seq<Entity>, p: nat)
    requires p < |datas|
    ensures var e := JoinedEdges(q, datas, p);
      && FiveTypes(e)
      && UserOrErr(e) == PointerOrErr(LastMatch(Users(q, datas), UserKey, Some(datas[p].userID)), q.withUser.Some?)
      && GroupOrErr(e) == PointerOrErr(LastMatch(Groups(q, datas), GroupKey, datas[p].groupID), q.withGroup.Some?)
      && TeamOrErr(e) == PointerOrErr(LastMatch(Teams(q, datas), TeamKey, datas[p].teamID), q.withTeam.Some?)
      && UsageLogsOrErr(e) == (if q.withUsageLogs.None? then Failure(NotLoaded)
           else Success(Matches(Logs(q, datas), LogKey, LastKeys(IdsOf(datas))[p])))
      && CompositeGroupsOrErr(e) == (if q.withCompositeGroups.None? then Failure(NotLoaded)
           else Success(Matches(Composites(q, datas), CompositeKey, LastKeys(IdsOf(datas))[p])))
  {
  }

  /** After a successful load, an accessor reports "not loaded" exactly when its
      edge was not requested, and a requested single edge reports "not found"
      exactly when no returned neighbor has the node's key. */
  lemma AccessorsReport(q: Query, datas: seq<Entity>, p: nat)
    requires p < |datas| && LoadEdges(q, datas).Success?
    ensures var e := LoadEdges(q, datas).value[p];
      && FiveTypes(e)
      && (UserOrErr(e) == Failure(NotLoaded) <==> q.withUser.None?)
      && (GroupOrErr(e) == Failure(NotLoaded) <==> q.withGroup.None?)
      && (TeamOrErr(e) == Failure(NotLoaded) <==> q.withTeam.None?)
      && (UserOrErr(e) == Failure(NotFound) <==>
            q.withUser.Some? && forall u :: u in Users(q, datas) ==> u.id != datas[p].userID)
      && (GroupOrErr(e) == Failure(NotFound) <==>
            q.withGroup.Some? && forall g :: g in Groups(q, datas) ==> Some(g.id) != datas[p].groupID)
      && (TeamOrErr(e) == Failure(NotFound) <==>
            q.withTeam.Some? && forall t :: t in Teams(q, datas) ==> Some(t.id) != datas[p].teamID)
      && UsageLogsOrErr(e) == (if q.withUsageLogs.None? then Failure(NotLoaded)
           else Success(Matches(Logs(q, datas), LogKey, LastKeys(IdsOf(datas))[p])))
      && CompositeGroupsOrErr(e) == (if q.withCompositeGroups.None? then Failure(NotLoaded)
           else Success(Matches(Composites(q, datas), CompositeKey, LastKeys(IdsOf(datas))[p])))
  {
    LoadedEdgesAreJoins(q, datas, p);
    JoinedAccessors(q, datas, p);
    OneAccessor(KeysOf(datas, UserFK), q.withUser, UserKey, Some(datas[p].userID));
    OneAccessor(KeysOf(datas, GroupFK), q.withGroup, GroupKey, datas[p].groupID);
    OneAccessor(KeysOf(datas, TeamFK), q.withTeam, TeamKey, datas[p].teamID);
    if q.withUser.Some? {
      assert forall u :: u in Users(q, datas) ==> (UserKey(u) != Some(datas[p].userID) <==> u.id != datas[p].userID);
    }
  }

  // ---- selecting fewer columns ------------------------------------------------

  /** The integer a row holds in a column, if any. */
  function RowInt(row: Row, c: Column): Option<int> {
    if c in row && row[c].VInt? then Some(row[c].n) else None
  }

  /** What reading columns gives for the four keys: each depends only on whether
      its own column was selected. */
  lemma {:induction false} KeysRead(columns: seq<Column>, row: Row, n: nat, marshal: Json -> string,
                                    unmarshal: string -> Option<Json>)
    requires n <= |columns|
    requires AssignAll(EMPTY, columns, ScanRow(columns, row, marshal), n, unmarshal).Success?
    ensures var e := AssignAll(EMPTY, columns, ScanRow(columns, row, marshal), n, unmarshal).value;
      && e.id == (if ID in columns[..n] then RowInt(row, ID).Or(0) else 0)
      && e.userID == (if UserID in columns[..n] then RowInt(row, UserID).Or(0) else 0)
      && e.groupID == (if GroupID in columns[..n] then RowInt(row, GroupID) else None)
      && e.teamID == (if TeamID in columns[..n] then RowInt(row, TeamID) else None)
  {
    if n > 0 {
      KeysRead(columns, row, n - 1, marshal, unmarshal);
      assert columns[..n] == columns[..n - 1] + [columns[n - 1]];
      var e := AssignAll(EMPTY, columns, ScanRow(columns, row, marshal), n - 1, unmarshal).value;
      KeysStep(e, columns[n - 1], row, marshal, unmarshal);
    }
  }

  lemma KeysStep(e: Entity, c: Column, row: Row, marshal: Json -> string, unmarshal: string -> Option<Json>)
    requires AssignOne(e, c, Fill(ScanKind(c), Lookup(row, c), marshal), unmarshal).Success?
    ensures var r := AssignOne(e, c, Fill(ScanKind(c), Lookup(row, c), marshal), unmarshal).value;
      && r.id == (if c == ID then RowInt(row, ID).Or(0) else e.id)
      && r.userID == (if c == UserID && RowInt(row, UserID).Some? then RowInt(row, UserID).value else e.userID)
      && r.groupID == (if c == GroupID && RowInt(row, GroupID).Some? then RowInt(row, GroupID) else e.groupID)
      && r.teamID == (if c == TeamID && RowInt(row, TeamID).Some? then RowInt(row, TeamID) else e.teamID)
  {
    KindsAgree(c);
  }

  lemma ColumnsComplete(c: Column)
    ensures c in COLUMNS <==> !c.Selected?
  {
    assert c in COLUMNS <==> c in COLUMNS_1 || c in COLUMNS_2 || c in COLUMNS_3 || c in COLUMNS_4;
  }

  lemma FilterNotID(fields: seq<Column>, c: Column)
    ensures c in [ID] + Filter(fields, NotID()) <==> c == ID || c in fields
  {
    FilterMembers(fields, NotID());
  }

  /** Whatever fields are selected, the query's columns are exactly the identity,
      the selected fields and the foreign keys of the requested many-to-one edges;
      without a selection they are all table columns. */
  lemma QueryColumnsExact(q: Query, c: Column)
    ensures c in QueryColumns(q) <==>
      if q.fields == [] then !c.Selected?
      else (c == ID || c in q.fields || (c == UserID && q.withUser.Some?) || (c == GroupID && q.withGroup.Some?)
            || (c == TeamID && q.withTeam.Some?))
  {
    if q.fields == [] {
      ColumnsComplete(c);
    } else {
      SelectedColumnsExact(q, c);
    }
  }

  lemma SelectedColumnsExact(q: Query, c: Column)
    ensures c in SelectedColumns(q) <==>
      (c == ID || c in q.fields || (c == UserID && q.withUser.Some?) || (c == GroupID && q.withGroup.Some?)
       || (c == TeamID && q.withTeam.Some?))
  {
    FilterNotID(q.fields, c);
    WithKeysExact([ID] + Filter(q.fields, NotID()), q, c);
  }

  lemma WithKeysExact(selected: seq<Column>, q: Query, c: Column)
    ensures c in WithKeys(selected, q) <==>
      (c in selected || (c == UserID && q.withUser.Some?) || (c == GroupID && q.withGroup.Some?)
       || (c == TeamID && q.withTeam.Some?))
  {
  }

  /** Whether a cell makes assignValues fail, whatever the receiver holds. */
  predicate CellFails(c: Column, cell: Cell, unmarshal: string -> Option<Json>) {
    AssignOne(EMPTY, c, cell, unmarshal).Failure?
  }

  lemma CellFailsAlways(e: Entity, c: Column, cell: Cell, unmarshal: string -> Option<Json>)
    ensures AssignOne(e, c, cell, unmarshal).Failure? <==> CellFails(c, cell, unmarshal)
  {
  }

  /** What the driver leaves for a column of a row. */
  function RowCell(row: Row, marshal: Json -> string): Column -> Cell {
    c => Fill(ScanKind(c), Lookup(row, c), marshal)
  }

  /** Reading a row succeeds exactly when no selected column's cell fails. */
  lemma ReadsIff(columns: seq<Column>, row: Row, marshal: Json -> string, unmarshal: string -> Option<Json>)
    ensures ReadEntity(columns, row, marshal, unmarshal).Success? <==>
      forall c :: c in columns ==> !CellFails(c, RowCell(row, marshal)(c), unmarshal)
  {
    AssignsIff(EMPTY, columns, ScanRow(columns, row, marshal), |columns|, RowCell(row, marshal), unmarshal);
    assert columns[..|columns|] == columns;
  }

  lemma {:induction false} AssignsIff(e: Entity, columns: seq<Column>, values: seq<Cell>, n: nat, cells: Column -> Cell,
                                      unmarshal: string -> Option<Json>)
    requires n <= |columns| == |values| && forall i :: 0 <= i < |columns| ==> values[i] == cells(columns[i])
    ensures AssignAll(e, columns, values, n, unmarshal).Success? <==>
      forall c :: c in columns[..n] ==> !CellFails(c, cells(c), unmarshal)
  {
    if n > 0 {
      AssignsIff(e, columns, values, n - 1, cells, unmarshal);
      var last := columns[n - 1];
      assert columns[..n] == columns[..n - 1] + [last];
      var r := AssignAll(e, columns, values, n - 1, unmarshal);
      if r.Success? {
        CellFailsAlways(r.value, last, cells(last), unmarshal);
      }
    }
  }

  /** columns hold every key the query's loaders read. */
  ghost predicate HoldsKeys(q: Query, columns: seq<Column>) {
    && ID in columns
    && (q.withUser.Some? ==> UserID in columns)
    && (q.withGroup.Some? ==> GroupID in columns)
    && (q.withTeam.Some? ==> TeamID in columns)
  }

  lemma QueryHoldsKeys(q: Query)
    ensures HoldsKeys(q, QueryColumns(q))
  {
    QueryColumnsExact(q, ID);
    QueryColumnsExact(q, UserID);
    QueryColumnsExact(q, GroupID);
    QueryColumnsExact(q, TeamID);
  }

  /** Every table column among some is also among all. */
  ghost predicate Covers(all: seq<Column>, some: seq<Column>) {
    forall c: Column :: c in some && !c.Selected? ==> c in all
  }

  /** One row read with fewer columns: it reads whenever the full row does, and the
      keys that the requested loaders use are the same. */
  lemma ProjectedRow(q: Query, all: seq<Column>, some: seq<Column>, row: Row, marshal: Json -> string,
                     unmarshal: string -> Option<Json>)
    requires Covers(all, some) && HoldsKeys(q, all) && HoldsKeys(q, some)
    requires ReadEntity(all, row, marshal, unmarshal).Success?
    ensures ReadEntity(some, row, marshal, unmarshal).Success?
    ensures SameKeys(q, ReadEntity(some, row, marshal, unmarshal).value, ReadEntity(all, row, marshal, unmarshal).value)
  {
    ReadsIff(all, row, marshal, unmarshal);
    ReadsIff(some, row, marshal, unmarshal);
    assert all[..|all|] == all && some[..|some|] == some;
    forall c | c in some
      ensures !CellFails(c, RowCell(row, marshal)(c), unmarshal)
    {
      SelectedNeverFails(c, RowCell(row, marshal)(c), unmarshal);
    }
    KeysRead(all, row, |all|, marshal, unmarshal);
    KeysRead(some, row, |some|, marshal, unmarshal);
  }

  lemma SelectedNeverFails(c: Column, cell: Cell, unmarshal: string -> Option<Json>)
    ensures c.Selected? ==> !CellFails(c, cell, unmarshal)
  {
  }

  /** Two entities agree on every key the query's loaders read. */
  ghost predicate SameKeys(q: Query, a: Entity, b: Entity) {
    && a.id == b.id
    && (q.withUser.Some? ==> a.userID == b.userID)
    && (q.withGroup.Some? ==> a.groupID == b.groupID)
    && (q.withTeam.Some? ==> a.teamID == b.teamID)
  }

  /** The loaders see nothing of an entity but these keys. */
  lemma SameKeysSameEdges(q: Query, a: seq<Entity>, b: seq<Entity>)
    requires |a| == |b| && forall p :: 0 <= p < |a| ==> SameKeys(q, a[p], b[p])
    ensures LoadEdges(q, a) == LoadEdges(q.(fields := []), b)
  {
    assert IdsOf(a) == IdsOf(b);
    assert q.withUser.Some? ==> KeysOf(a, UserFK) == KeysOf(b, UserFK);
    assert q.withGroup.Some? ==> KeysOf(a, GroupFK) == KeysOf(b, GroupFK);
    assert q.withTeam.Some? ==> KeysOf(a, TeamFK) == KeysOf(b, TeamFK);
    assert FreshEdges(q, |a|) == FreshEdges(q.(fields := []), |b|);
  }

  lemma {:induction false} ProjectedRows(q: Query, all: seq<Column>, some: seq<Column>, rows: seq<Row>,
                                         marshal: Json -> string, unmarshal: string -> Option<Json>)
    requires Covers(all, some) && HoldsKeys(q, all) && HoldsKeys(q, some)
    requires ReadRows(all, rows, marshal, unmarshal).Success?
    ensures ReadRows(some, rows, marshal, unmarshal).Success?
    ensures var a := ReadRows(some, rows, marshal, unmarshal).value;
      var b := ReadRows(all, rows, marshal, unmarshal).value;
      forall p :: 0 <= p < |rows| ==> SameKeys(q, a[p], b[p])
  {
    if rows != [] {
      ProjectedRows(q, all, some, rows[..|rows| - 1], marshal, unmarshal);
      ProjectedRow(q, all, some, rows[|rows| - 1], marshal, unmarshal);
    }
  }

  /** Column projection never changes the edges: if the unprojected query reads the
      rows, so does the projected one, and it loads the same edges or fails with the
      same error. */
  lemma ProjectionKeepsEdges(q: Query, rows: seq<Row>, marshal: Json -> string, unmarshal: string -> Option<Json>)
    requires ReadRows(QueryColumns(q.(fields := [])), rows, marshal, unmarshal).Success?
    ensures ReadRows(QueryColumns(q), rows, marshal, unmarshal).Success?
    ensures LoadEdges(q, ReadRows(QueryColumns(q), rows, marshal, unmarshal).value)
      == LoadEdges(q.(fields := []), ReadRows(QueryColumns(q.(fields := [])), rows, marshal, unmarshal).value)
  {
    var all, some := QueryColumns(q.(fields := [])), QueryColumns(q);
    QueryHoldsKeys(q);
    QueryHoldsKeys(q.(fields := []));
    forall c: Column | c in some && !c.Selected?
      ensures c in all
    {
      QueryColumnsExact(q.(fields := []), c);
    }
    ProjectedRows(q, all, some, rows, marshal, unmarshal);
    SameKeysSameEdges(q, ReadRows(some, rows, marshal, unmarshal).value, ReadRows(all, rows, marshal, unmarshal).value);
  }

  /** A usage-log query that selects fields leaves the key nil unless it is selected. */
  function ProjectLogs(fields: seq<ChildField>, r: Result<seq<UsageLog>, int>): Result<seq<UsageLog>, int> {
    if fields == [] || APIKeyIDField in fields then r
    else match r
      case Failure(code) => Failure(code)
      case Success(ns) => Success(seq(|ns|, i requires 0 <= i < |ns| => ns[i].(apiKeyID := None)))
  }

  /** A composite-group query leaves the key zero unless it is selected. */
  function ProjectComposites(fields: seq<ChildField>, r: Result<seq<CompositeGroup>, int>)
    : Result<seq<CompositeGroup>, int>
  {
    if fields == [] || APIKeyIDField in fields then r
    else match r
      case Failure(code) => Failure(code)
      case Success(ns) => Success(seq(|ns|, i requires 0 <= i < |ns| => ns[i].(apiKeyID := 0)))
  }

  /** The child queries answer as if the database projected their results. */
  ghost predicate Projects(q: Query) {
    && (q.withUsageLogs.Some? ==>
          forall fields, ids :: q.withUsageLogs.value.all(fields, ids)
            == ProjectLogs(fields, q.withUsageLogs.value.all([], ids)))
    && (q.withCompositeGroups.Some? ==>
          forall fields, ids :: q.withCompositeGroups.value.all(fields, ids)
            == ProjectComposites(fields, q.withCompositeGroups.value.all([], ids)))
  }

  /** The same query with nothing selected, neither on the API keys nor on the children. */
  function Unprojected(q: Query): Query {
    q.(fields := [],
       withUsageLogs := if q.withUsageLogs.Some? then Some(q.withUsageLogs.value.(fields := [])) else None,
       withCompositeGroups :=
         if q.withCompositeGroups.Some? then Some(q.withCompositeGroups.value.(fields := [])) else None)
  }

  /** Selecting fields of a child query does not change what its loader is given, because
      the loader adds the key back to the API key. */
  lemma ChildProjectionKeepsKeys(q: Query, ids: seq<int>)
    requires Projects(q)
    ensures q.withUsageLogs.Some? ==>
      ChildFetch(q.withUsageLogs.value)(ids) == ChildFetch(Unprojected(q).withUsageLogs.value)(ids)
    ensures q.withCompositeGroups.Some? ==>
      ChildFetch(q.withCompositeGroups.value)(ids) == ChildFetch(Unprojected(q).withCompositeGroups.value)(ids)
  {
    if q.withUsageLogs.Some? && q.withUsageLogs.value.fields != [] {
      var fields := AddOnce(q.withUsageLogs.value.fields, APIKeyIDField);
      assert APIKeyIDField in fields;
      assert q.withUsageLogs.value.all(fields, ids) == ProjectLogs(fields, q.withUsageLogs.value.all([], ids));
    }
    if q.withCompositeGroups.Some? && q.withCompositeGroups.value.fields != [] {
      var fields := AddOnce(q.withCompositeGroups.value.fields, APIKeyIDField);
      assert APIKeyIDField in fields;
      assert q.withCompositeGroups.value.all(fields, ids)
        == ProjectComposites(fields, q.withCompositeGroups.value.all([], ids));
    }
  }

  lemma ChildrenLoadSame(q: Query, datas: seq<Entity>, es: seq<Edges>)
    requires Projects(q) && |es| == |datas|
    ensures LoadLogs(q, datas, es) == LoadLogs(Unprojected(q), datas, es)
    ensures LoadComposites(q, datas, es) == LoadComposites(Unprojected(q), datas, es)
  {
    ChildProjectionKeepsKeys(q, IdsOf(datas));
  }

  lemma ChildrenUnprojected(q: Query, datas: seq<Entity>)
    requires Projects(q)
    ensures LoadEdges(q, datas) == LoadEdges(Unprojected(q), datas)
  {
    var plain, es0 := Unprojected(q), FreshEdges(q, |datas|);
    assert es0 == FreshEdges(plain, |datas|);
    var r1 := LoadUsers(q, datas, es0);
    assert r1 == LoadUsers(plain, datas, es0);
    if r1.Success? {
      var r2 := LoadGroups(q, datas, r1.value);
      assert r2 == LoadGroups(plain, datas, r1.value);
      if r2.Success? {
        ChildrenLoadSame(q, datas, r2.value);
        var r3 := LoadLogs(q, datas, r2.value);
        if r3.Success? {
          ChildrenLoadSame(q, datas, r3.value);
        }
      }
    }
  }

  /** Projection on every level: selecting fewer columns of the API keys and fewer fields
      of both child queries loads the same edges as selecting nothing, or fails with the
      same error. */
  lemma FullProjectionKeepsEdges(q: Query, rows: seq<Row>, marshal: Json -> string, unmarshal: string -> Option<Json>)
    requires Projects(q)
    requires ReadRows(QueryColumns(Unprojected(q)), rows, marshal, unmarshal).Success?
    ensures ReadRows(QueryColumns(q), rows, marshal, unmarshal).Success?
    ensures LoadEdges(q, ReadRows(QueryColumns(q), rows, marshal, unmarshal).value)
      == LoadEdges(Unprojected(q), ReadRows(QueryColumns(Unprojected(q)), rows, marshal, unmarshal).value)
  {
    ProjectionKeepsEdges(q, rows, marshal, unmarshal);
    var bare := q.(fields := []);
    assert Unprojected(bare) == Unprojected(q);
    ChildrenUnprojected(bare, ReadRows(QueryColumns(bare), rows, marshal, unmarshal).value);
  }
}
