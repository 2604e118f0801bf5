/** What a caller of a query can rely on, in terms of the rows' fields, what the neighbor
    queries answer and the neighbors' own key fields. */
module QueryContract {
  import opened EagerLoad
  import opened JoinLaws
  import opened QueryLaws
  import opened RowMapping
  import opened Schema
  import opened SqlAll
  import opened Wrappers

  // ---- what is asked ---------------------------------------------------------------------

  function UserIDs(datas: seq<Entity>): seq<int> {
    FirstKeys(seq(|datas|, p requires 0 <= p < |datas| => Some(datas[p].userID)))
  }

  function GroupIDs(datas: seq<Entity>): seq<int> {
    FirstKeys(seq(|datas|, p requires 0 <= p < |datas| => datas[p].groupID))
  }

  function TeamIDs(datas: seq<Entity>): seq<int> {
    FirstKeys(seq(|datas|, p requires 0 <= p < |datas| => datas[p].teamID))
  }

  /** A one-to-many query is run once, for the identities of all rows in their order; when
      it selects fields, the key back to the API key is selected too. */
  function Children<T>(child: ChildQuery<T>, datas: seq<Entity>): Result<seq<T>, int> {
    child.all(if child.fields == [] || APIKeyIDField in child.fields then child.fields
              else child.fields + [APIKeyIDField],
              seq(|datas|, p requires 0 <= p < |datas| => datas[p].id))
  }

  // ---- when loading fails ------------------------------------------------------------------

  /** e is what the first bad neighbor causes. */
  ghost predicate FirstBad<T(!new)>(e: LoadError, ns: seq<T>, bad: T -> Option<LoadError>) {
    exists i :: 0 <= i < |ns| && bad(ns[i]) == Some(e) && forall j :: 0 <= j < i ==> bad(ns[j]) == None
  }

  /** A loader whose query answered this ends with this error, or with none. */
  ghost predicate Reports<T(!new)>(e: Option<LoadError>, answer: Result<seq<T>, int>, bad: T -> Option<LoadError>) {
    match answer
    case Failure(code) => e == Some(QueryFailed(code))
    case Success(ns) =>
      match e
      case None => forall n :: n in ns ==> bad(n) == None
      case Some(f) => FirstBad(f, ns, bad)
  }

  // A neighbor is bad when its key is nil or no row's.

  ghost function BadUser(datas: seq<Entity>): User -> Option<LoadError> {
    (u: User) => if exists d :: d in datas && d.userID == u.id then None else Some(UnexpectedKey(u.id))
  }

  ghost function BadGroup(datas: seq<Entity>): Group -> Option<LoadError> {
    (g: Group) => if exists d :: d in datas && d.groupID == Some(g.id) then None else Some(UnexpectedKey(g.id))
  }

  ghost function BadTeam(datas: seq<Entity>): Team -> Option<LoadError> {
    (t: Team) => if exists d :: d in datas && d.teamID == Some(t.id) then None else Some(UnexpectedKey(t.id))
  }

  ghost function BadLog(datas: seq<Entity>): UsageLog -> Option<LoadError> {
    (l: UsageLog) =>
      if l.apiKeyID == None then Some(NilKey(l.id))
      else if exists d :: d in datas && Some(d.id) == l.apiKeyID then None
      else Some(UnexpectedKey(l.apiKeyID.value))
  }

  ghost function BadComposite(datas: seq<Entity>): CompositeGroup -> Option<LoadError> {
    (g: CompositeGroup) => if exists d :: d in datas && d.id == g.apiKeyID then None else Some(UnexpectedKey(g.apiKeyID))
  }

  ghost predicate UsersReport(e: Option<LoadError>, q: Query, datas: seq<Entity>) {
    if q.withUser.None? || UserIDs(datas) == [] then e == None
    else Reports(e, q.withUser.value(UserIDs(datas)), BadUser(datas))
  }

  ghost predicate GroupsReport(e: Option<LoadError>, q: Query, datas: seq<Entity>) {
    if q.withGroup.None? || GroupIDs(datas) == [] then e == None
    else Reports(e, q.withGroup.value(GroupIDs(datas)), BadGroup(datas))
  }

  ghost predicate TeamsReport(e: Option<LoadError>, q: Query, datas: seq<Entity>) {
    if q.withTeam.None? || TeamIDs(datas) == [] then e == None
    else Reports(e, q.withTeam.value(TeamIDs(datas)), BadTeam(datas))
  }

  ghost predicate LogsReport(e: Option<LoadError>, q: Query, datas: seq<Entity>) {
    if q.withUsageLogs.None? then e == None
    else Reports(e, Children(q.withUsageLogs.value, datas), BadLog(datas))
  }

  ghost predicate CompositesReport(e: Option<LoadError>, q: Query, datas: seq<Entity>) {
    if q.withCompositeGroups.None? then e == None
    else Reports(e, Children(q.withCompositeGroups.value, datas), BadComposite(datas))
  }

  /** Users, groups, usage logs, composite groups, teams: the first of them that fails
      decides the error. */
  ghost predicate LoadReports(r: EdgeLists, q: Query, datas: seq<Entity>) {
    match r
    case Success(_) =>
      && UsersReport(None, q, datas) && GroupsReport(None, q, datas) && LogsReport(None, q, datas)
      && CompositesReport(None, q, datas) && TeamsReport(None, q, datas)
    case Failure(e) =>
      || UsersReport(Some(e), q, datas)
      || (UsersReport(None, q, datas) && GroupsReport(Some(e), q, datas))
      || (UsersReport(None, q, datas) && GroupsReport(None, q, datas) && LogsReport(Some(e), q, datas))
      || (UsersReport(None, q, datas) && GroupsReport(None, q, datas) && LogsReport(None, q, datas)
          && CompositesReport(Some(e), q, datas))
      || (UsersReport(None, q, datas) && GroupsReport(None, q, datas) && LogsReport(None, q, datas)
          && CompositesReport(None, q, datas) && TeamsReport(Some(e), q, datas))
  }

  lemma {:induction false} CheckReports<T(!new)>(ns: seq<T>, keyOf: T -> Option<int>, idOf: T -> int, asked: seq<int>,
                                                 bad: T -> Option<LoadError>)
    requires forall n :: bad(n) == if keyOf(n).None? then Some(NilKey(idOf(n)))
                                   else if keyOf(n).value !in asked then Some(UnexpectedKey(keyOf(n).value)) else None
    ensures Reports(EagerLoad.Check(ns, keyOf, idOf, asked), Success(ns), bad)
  {
    if ns != [] {
      var front, last := ns[..|ns| - 1], ns[|ns| - 1];
      CheckReports(front, keyOf, idOf, asked, bad);
      assert ns == front + [last];
      var earlier := EagerLoad.Check(front, keyOf, idOf, asked);
      if earlier.Some? {
        var i :| 0 <= i < |front| && bad(front[i]) == earlier && forall j :: 0 <= j < i ==> bad(front[j]) == None;
        assert bad(ns[i]) == earlier && forall j :: 0 <= j < i ==> bad(ns[j]) == None;
      } else {
        assert forall j :: 0 <= j < |front| ==> front[j] in front && bad(ns[j]) == None;
        assert bad(ns[|front|]) == bad(last);
      }
    }
  }

  function ErrorOf(r: EdgeLists): Option<LoadError> {
    match r case Success(_) => None case Failure(e) => Some(e)
  }

  lemma UsersReported(q: Query, datas: seq<Entity>, es: seq<Edges>)
    requires |es| == |datas|
    ensures UsersReport(ErrorOf(LoadUsers(q, datas, es)), q, datas)
  {
    var keys := seq(|datas|, p requires 0 <= p < |datas| => Some(datas[p].userID));
    assert KeysOf(datas, UserFK) == keys;
    if q.withUser.Some? && UserIDs(datas) != [] && q.withUser.value(UserIDs(datas)).Success? {
      forall u: User
        ensures (exists d :: d in datas && d.userID == u.id) <==> u.id in UserIDs(datas)
      {
        FirstKeysMember(keys, u.id);
        assert forall p :: 0 <= p < |datas| ==> keys[p] == Some(datas[p].userID) && datas[p] in datas;
      }
      CheckReports(q.withUser.value(UserIDs(datas)).value, UserKey, UserId, UserIDs(datas), BadUser(datas));
    }
  }

  lemma GroupsReported(q: Query, datas: seq<Entity>, es: seq<Edges>)
    requires |es| == |datas|
    ensures GroupsReport(ErrorOf(LoadGroups(q, datas, es)), q, datas)
  {
    var keys := seq(|datas|, p requires 0 <= p < |datas| => datas[p].groupID);
    assert KeysOf(datas, GroupFK) == keys;
    if q.withGroup.Some? && GroupIDs(datas) != [] && q.withGroup.value(GroupIDs(datas)).Success? {
      forall g: Group
        ensures (exists d :: d in datas && d.groupID == Some(g.id)) <==> g.id in GroupIDs(datas)
      {
        FirstKeysMember(keys, g.id);
        assert forall p :: 0 <= p < |datas| ==> keys[p] == datas[p].groupID && datas[p] in datas;
      }
      CheckReports(q.withGroup.value(GroupIDs(datas)).value, GroupKey, GroupId, GroupIDs(datas), BadGroup(datas));
    }
  }

  lemma TeamsReported(q: Query, datas: seq<Entity>, es: seq<Edges>)
    requires |es| == |datas|
    ensures TeamsReport(ErrorOf(LoadTeams(q, datas, es)), q, datas)
  {
    var keys := seq(|datas|, p requires 0 <= p < |datas| => datas[p].teamID);
    assert KeysOf(datas, TeamFK) == keys;
    if q.withTeam.Some? && TeamIDs(datas) != [] && q.withTeam.value(TeamIDs(datas)).Success? {
      forall t: Team
        ensures (exists d :: d in datas && d.teamID == Some(t.id)) <==> t.id in TeamIDs(datas)
      {
        FirstKeysMember(keys, t.id);
        assert forall p :: 0 <= p < |datas| ==> keys[p] == datas[p].teamID && datas[p] in datas;
      }
      CheckReports(q.withTeam.value(TeamIDs(datas)).value, TeamKey, TeamId, TeamIDs(datas), BadTeam(datas));
    }
  }

  lemma InIds(datas: seq<Entity>)
    ensures forall k :: k in IdsOf(datas) <==> exists d :: d in datas && d.id == k
  {
    forall k
      ensures k in IdsOf(datas) <==> exists d :: d in datas && d.id == k
    {
      assert forall p :: 0 <= p < |datas| ==> IdsOf(datas)[p] == datas[p].id && datas[p] in datas;
    }
  }

  lemma ChildrenFetched<T(!new)>(child: ChildQuery<T>, datas: seq<Entity>)
    ensures ChildFetch(child)(IdsOf(datas)) == Children(child, datas)
  {
    assert IdsOf(datas) == seq(|datas|, p requires 0 <= p < |datas| => datas[p].id);
  }

  lemma LogsReported(q: Query, datas: seq<Entity>, es: seq<Edges>)
    requires |es| == |datas|
    ensures LogsReport(ErrorOf(LoadLogs(q, datas, es)), q, datas)
  {
    if q.withUsageLogs.Some? {
      ChildrenFetched(q.withUsageLogs.value, datas);
      InIds(datas);
      var answer, ids := Children(q.withUsageLogs.value, datas), IdsOf(datas);
      if answer.Success? {
        forall l: UsageLog | l.apiKeyID.Some?
          ensures (exists d :: d in datas && Some(d.id) == l.apiKeyID) <==> l.apiKeyID.value in ids
        {
          assert forall d: Entity :: Some(d.id) == l.apiKeyID <==> d.id == l.apiKeyID.value;
        }
        CheckReports(answer.value, LogKey, LogId, ids, BadLog(datas));
      }
    }
  }

  lemma CompositesReported(q: Query, datas: seq<Entity>, es: seq<Edges>)
    requires |es| == |datas|
    ensures CompositesReport(ErrorOf(LoadComposites(q, datas, es)), q, datas)
  {
    if q.withCompositeGroups.Some? {
      ChildrenFetched(q.withCompositeGroups.value, datas);
      InIds(datas);
      var answer, ids := Children(q.withCompositeGroups.value, datas), IdsOf(datas);
      if answer.Success? {
        CheckReports(answer.value, CompositeKey, CompositeId, ids, BadComposite(datas));
      }
    }
  }

  /** Loading a non-empty result ends as the neighbors' fields say. */
  lemma LoadingReports(q: Query, datas: seq<Entity>)
    requires datas != []
    ensures LoadReports(LoadEdges(q, datas), q, datas)
  {
    var es0 := FreshEdges(q, |datas|);
    UsersReported(q, datas, es0);
    var r1 := LoadUsers(q, datas, es0);
    if r1.Success? {
      GroupsReported(q, datas, r1.value);
      var r2 := LoadGroups(q, datas, r1.value);
      if r2.Success? {
        LogsReported(q, datas, r2.value);
        var r3 := LoadLogs(q, datas, r2.value);
        if r3.Success? {
          CompositesReported(q, datas, r3.value);
          var r4 := LoadComposites(q, datas, r3.value);
          if r4.Success? {
            TeamsReported(q, datas, r4.value);
          }
        }
      }
    }
  }

  // ---- the edges of the nodes --------------------------------------------------------------

  /** n is the last of ns that is mine, if any is. */
  ghost predicate IsLastOf<T(!new)>(n: Option<T>, ns: seq<T>, mine: T -> bool) {
    match n
    case None => forall x :: x in ns ==> !mine(x)
    case Some(x) => exists i :: 0 <= i < |ns| && ns[i] == x && mine(x) && forall j :: i < j < |ns| ==> !mine(ns[j])
  }

  function OfUser(d: Entity): User -> bool { (u: User) => u.id == d.userID }
  function OfGroup(d: Entity): Group -> bool { (g: Group) => Some(g.id) == d.groupID }
  function OfTeam(d: Entity): Team -> bool { (t: Team) => Some(t.id) == d.teamID }
  function OfLog(d: Entity): UsageLog -> bool { (l: UsageLog) => l.apiKeyID == Some(d.id) }
  function OfComposite(d: Entity): CompositeGroup -> bool { (g: CompositeGroup) => g.apiKeyID == d.id }

  ghost predicate UserIs(u: Option<User>, q: Query, datas: seq<Entity>, p: nat)
    requires p < |datas|
  {
    if q.withUser.None? then u == None
    else var answer := q.withUser.value(UserIDs(datas));
      answer.Success? && IsLastOf(u, answer.value, OfUser(datas[p]))
  }

  ghost predicate GroupIs(g: Option<Group>, q: Query, datas: seq<Entity>, p: nat)
    requires p < |datas|
  {
    if q.withGroup.None? || datas[p].groupID.None? then g == None
    else var answer := q.withGroup.value(GroupIDs(datas));
      answer.Success? && IsLastOf(g, answer.value, OfGroup(datas[p]))
  }

  ghost predicate TeamIs(t: Option<Team>, q: Query, datas: seq<Entity>, p: nat)
    requires p < |datas|
  {
    if q.withTeam.None? || datas[p].teamID.None? then t == None
    else var answer := q.withTeam.value(TeamIDs(datas));
      answer.Success? && IsLastOf(t, answer.value, OfTeam(datas[p]))
  }

  /** No later row has the identity of row p. */
  ghost predicate LastOfIdentity(datas: seq<Entity>, p: nat)
    requires p < |datas|
  {
    forall r :: p < r < |datas| ==> datas[r].id != datas[p].id
  }

  ghost predicate LogsAre(list: Option<seq<UsageLog>>, q: Query, datas: seq<Entity>, p: nat)
    requires p < |datas|
  {
    if q.withUsageLogs.None? then list == None
    else var answer := Children(q.withUsageLogs.value, datas);
      && answer.Success?
      && list == Some(if LastOfIdentity(datas, p) then Filter(answer.value, OfLog(datas[p])) else [])
  }

  ghost predicate CompositesAre(list: Option<seq<CompositeGroup>>, q: Query, datas: seq<Entity>, p: nat)
    requires p < |datas|
  {
    if q.withCompositeGroups.None? then list == None
    else var answer := Children(q.withCompositeGroups.value, datas);
      && answer.Success?
      && list == Some(if LastOfIdentity(datas, p) then Filter(answer.value, OfComposite(datas[p])) else [])
  }

  ghost predicate EdgesAre(e: Edges, q: Query, datas: seq<Entity>, p: nat)
    requires p < |datas|
  {
    && UserIs(e.user, q, datas, p) && GroupIs(e.group, q, datas, p) && TeamIs(e.team, q, datas, p)
    && LogsAre(e.usageLogs, q, datas, p) && CompositesAre(e.compositeGroups, q, datas, p)
    && e.loadedTypes == [q.withUser.Some?, q.withGroup.Some?, q.withUsageLogs.Some?, q.withCompositeGroups.Some?,
                         q.withTeam.Some?]
  }

  lemma LastMatchIs<T(!new)>(ns: seq<T>, keyOf: T -> Option<int>, key: Option<int>, mine: T -> bool)
    requires key.Some? && forall n :: mine(n) <==> keyOf(n) == key
    ensures IsLastOf(LastMatch(ns, keyOf, key), ns, mine)
  {
    LastMatchSpec(ns, keyOf, key);
  }

  lemma {:induction false} FilterSame<T(!new)>(s: seq<T>, p: T -> bool, r: T -> bool)
    requires forall x :: p(x) <==> r(x)
    ensures Filter(s, p) == Filter(s, r)
  {
    if s != [] {
      FilterSame(s[1..], p, r);
    }
  }

  /** The filtered list, seen from the key a position answers to. */
  lemma MatchesAre<T(!new)>(ns: seq<T>, keyOf: T -> Option<int>, datas: seq<Entity>, p: nat, mine: T -> bool)
    requires p < |datas| && forall n :: mine(n) <==> keyOf(n) == Some(datas[p].id)
    ensures Matches(ns, keyOf, LastKeys(IdsOf(datas))[p]) == if LastOfIdentity(datas, p) then Filter(ns, mine) else []
  {
    var ids := IdsOf(datas);
    assert LastOf(ids, p) <==> LastOfIdentity(datas, p) by {
      var rest := ids[p + 1..];
      assert forall r :: p < r < |datas| ==> rest[r - p - 1] == datas[r].id;
      assert forall k :: 0 <= k < |rest| ==> rest[k] == datas[p + 1 + k].id;
    }
    if LastOfIdentity(datas, p) {
      FilterSame(ns, KeyIs(keyOf, Some(ids[p])), mine);
    } else {
      NoMatches(ns, keyOf, None);
    }
  }

  lemma UserJoined(q: Query, datas: seq<Entity>, p: nat)
    requires p < |datas| && OneLoads(KeysOf(datas, UserFK), q.withUser, UserKey)
    ensures UserIs(LastMatch(Users(q, datas), UserKey, Some(datas[p].userID)), q, datas, p)
  {
    var keys := seq(|datas|, r requires 0 <= r < |datas| => Some(datas[r].userID));
    assert KeysOf(datas, UserFK) == keys;
    if q.withUser.Some? {
      assert keys[p] in keys;
      FirstKeysMember(keys, datas[p].userID);
      LastMatchIs(Users(q, datas), UserKey, Some(datas[p].userID), OfUser(datas[p]));
    }
  }

  lemma GroupJoined(q: Query, datas: seq<Entity>, p: nat)
    requires p < |datas| && OneLoads(KeysOf(datas, GroupFK), q.withGroup, GroupKey)
    ensures GroupIs(LastMatch(Groups(q, datas), GroupKey, datas[p].groupID), q, datas, p)
  {
    var keys := seq(|datas|, r requires 0 <= r < |datas| => datas[r].groupID);
    assert KeysOf(datas, GroupFK) == keys;
    if q.withGroup.Some? && datas[p].groupID.Some? {
      assert keys[p] in keys;
      FirstKeysMember(keys, datas[p].groupID.value);
      LastMatchIs(Groups(q, datas), GroupKey, datas[p].groupID, OfGroup(datas[p]));
    }
  }

  lemma TeamJoined(q: Query, datas: seq<Entity>, p: nat)
    requires p < |datas| && OneLoads(KeysOf(datas, TeamFK), q.withTeam, TeamKey)
    ensures TeamIs(LastMatch(Teams(q, datas), TeamKey, datas[p].teamID), q, datas, p)
  {
    var keys := seq(|datas|, r requires 0 <= r < |datas| => datas[r].teamID);
    assert KeysOf(datas, TeamFK) == keys;
    if q.withTeam.Some? && datas[p].teamID.Some? {
      assert keys[p] in keys;
      FirstKeysMember(keys, datas[p].teamID.value);
      LastMatchIs(Teams(q, datas), TeamKey, datas[p].teamID, OfTeam(datas[p]));
    }
  }

  lemma LogsJoined(q: Query, datas: seq<Entity>, p: nat)
    requires p < |datas| && ManyLoads(IdsOf(datas), q.withUsageLogs, LogKey)
    ensures LogsAre(if q.withUsageLogs.None? then None
                    else Some(Matches(Logs(q, datas), LogKey, LastKeys(IdsOf(datas))[p])), q, datas, p)
  {
    if q.withUsageLogs.Some? {
      ChildrenFetched(q.withUsageLogs.value, datas);
      MatchesAre(Logs(q, datas), LogKey, datas, p, OfLog(datas[p]));
    }
  }

  lemma CompositesJoined(q: Query, datas: seq<Entity>, p: nat)
    requires p < |datas| && ManyLoads(IdsOf(datas), q.withCompositeGroups, CompositeKey)
    ensures CompositesAre(if q.withCompositeGroups.None? then None
                          else Some(Matches(Composites(q, datas), CompositeKey, LastKeys(IdsOf(datas))[p])), q, datas, p)
  {
    if q.withCompositeGroups.Some? {
      ChildrenFetched(q.withCompositeGroups.value, datas);
      MatchesAre(Composites(q, datas), CompositeKey, datas, p, OfComposite(datas[p]));
    }
  }

  /** After a successful load every node has the last user, group and team with its key,
      and all usage logs and composite groups that refer to it, in order, unless a later
      node has its identity. */
  lemma LoadedEdges(q: Query, datas: seq<Entity>, p: nat)
    requires p < |datas| && LoadEdges(q, datas).Success?
    ensures EdgesAre(LoadEdges(q, datas).value[p], q, datas, p)
  {
    LoadSucceeds(q, datas);
    LoadedEdgesAreJoins(q, datas, p);
    UserJoined(q, datas, p);
    GroupJoined(q, datas, p);
    TeamJoined(q, datas, p);
    LogsJoined(q, datas, p);
    CompositesJoined(q, datas, p);
  }

  // ---- the columns asked for, and rows that createSpec wrote ---------------------------------

  /** A foreign key that a requested edge needs and that was not selected. */
  function IsAdded(q: Query): Column -> bool {
    (c: Column) =>
      && c !in q.fields
      && ((c == UserID && q.withUser.Some?) || (c == GroupID && q.withGroup.Some?) || (c == TeamID && q.withTeam.Some?))
  }

  function IsNotID(): Column -> bool { (c: Column) => !c.ID? }

  /** A query with a selection asks for the identity, the other selected fields as they were
      selected, and then the foreign keys that are missing, each once. */
  lemma SelectedColumnsAre(q: Query)
    requires q.fields != []
    ensures QueryColumns(q) == [ID] + Filter(q.fields, IsNotID()) + Filter([UserID, GroupID, TeamID], IsAdded(q))
  {
    var own := [ID] + Filter(q.fields, NotID());
    FilterSame(q.fields, NotID(), IsNotID());
    FilterNotID(q.fields, UserID);
    FilterNotID(q.fields, GroupID);
    FilterNotID(q.fields, TeamID);
    FilterThree(UserID, GroupID, TeamID, IsAdded(q));
    KeysAppended(own, q);
  }

  lemma FilterThree(a: Column, b: Column, c: Column, p: Column -> bool)
    ensures Filter([a, b, c], p)
      == (if p(a) then [a] else []) + (if p(b) then [b] else []) + (if p(c) then [c] else [])
  {
    assert [a, b, c] == [a] + [b] + [c];
    FilterConcat([a] + [b], [c], p);
    FilterConcat([a], [b], p);
    FilterOne(a, p);
    FilterOne(b, p);
    FilterOne(c, p);
  }

  lemma FilterOne(c: Column, p: Column -> bool)
    ensures Filter([c], p) == if p(c) then [c] else []
  {
    assert [c][1..] == [];
  }

  lemma KeysAppended(own: seq<Column>, q: Query)
    requires (UserID in own <==> UserID in q.fields) && (GroupID in own <==> GroupID in q.fields)
    requires TeamID in own <==> TeamID in q.fields
    ensures WithKeys(own, q) == own + (Added(UserID, q) + Added(GroupID, q) + Added(TeamID, q))
  {
    var u := own + Added(UserID, q);
    var g := u + Added(GroupID, q);
    KeyAppended(own, UserID, q.withUser.Some?, q);
    assert GroupID in u <==> GroupID in own;
    KeyAppended(u, GroupID, q.withGroup.Some?, q);
    assert TeamID in g <==> TeamID in own;
    KeyAppended(g, TeamID, q.withTeam.Some?, q);
    KeysInTurn(own, q, u, g);
    Regroup(own, Added(UserID, q), Added(GroupID, q), Added(TeamID, q));
  }

  lemma Regroup(a: seq<Column>, b: seq<Column>, c: seq<Column>, d: seq<Column>)
    ensures a + b + c + d == a + (b + c + d)
  {
  }

  lemma KeysInTurn(own: seq<Column>, q: Query, u: seq<Column>, g: seq<Column>)
    requires u == (if q.withUser.Some? then AddOnce(own, UserID) else own)
    requires g == if q.withGroup.Some? then AddOnce(u, GroupID) else u
    ensures WithKeys(own, q) == if q.withTeam.Some? then AddOnce(g, TeamID) else g
  {
  }

  function Added(c: Column, q: Query): seq<Column> { if IsAdded(q)(c) then [c] else [] }

  lemma KeyAppended(s: seq<Column>, c: Column, wanted: bool, q: Query)
    requires (c in s <==> c in q.fields) && (IsAdded(q)(c) <==> wanted && c !in q.fields)
    ensures (if wanted then AddOnce(s, c) else s) == s + Added(c, q)
  {
  }

  /** The column is one that the query asks for. */
  predicate IsAsked(q: Query, c: Column) {
    || q.fields == [] || c == ID || c in q.fields || (c == UserID && q.withUser.Some?)
    || (c == GroupID && q.withGroup.Some?) || (c == TeamID && q.withTeam.Some?)
  }

  /** The struct fields that may be nil. */
  predicate Nullable(c: Column) {
    || c == DeletedAt || c == TeamID || c == GroupID || c == PreferredSubscriptionID || c == LastUsedAt || c == ExpiresAt
    || c == Window5hStart || c == Window1dStart || c == Window7dStart || c == ManagedBy
  }

  /** A field that nothing was read into: nil, or the zero of its type. */
  function Unset(c: Column): Field {
    if Nullable(c) then Ptr(None)
    else match FieldKind(c)
      case KTime => Plain(VTime(0))
      case KBool => Plain(VBool(false))
      case KInt => Plain(VInt(0))
      case KFloat => Plain(VFloat(0.0))
      case KString => Plain(VString(""))
      case _ => Plain(VJson(Nil))
  }

  lemma UnsetIsZero(c: Column)
    ensures Unset(c) == ZeroField(c) && (Nullable(c) <==> IsPointer(c))
  {
  }

  /** The field of a created key that has these options and this identity. */
  function FieldSet(o: Options, id: int, c: Column): Field {
    match c
    case ID => Plain(VInt(id))
    case UserID => Plain(VInt(o.user.Or(0)))
    case GroupID => if o.group.Some? then Ptr(Some(VInt(o.group.value))) else Ptr(None)
    case TeamID => if o.team.Some? then Ptr(Some(VInt(o.team.value))) else Ptr(None)
    case _ => if c !in o.fields then Unset(c) else if Nullable(c) then Ptr(Some(o.fields[c])) else Plain(o.fields[c])
  }

  /** The entity holds what was created in each column asked for, and zero values elsewhere. */
  ghost predicate ReadsBack(e: Entity, q: Query, o: Options, id: int) {
    && (forall c: Column :: !c.Selected? ==> Get(e, c) == if IsAsked(q, c) then FieldSet(o, id, c) else Unset(c))
    && e.id == id
    && (IsAsked(q, UserID) ==> e.userID == o.user.Or(0))
    && (IsAsked(q, GroupID) ==> e.groupID == o.group)
    && (IsAsked(q, TeamID) ==> e.teamID == o.team)
  }

  /** The rows that inserts of these options left. */
  function RowsOf(os: seq<Options>, ids: seq<int>): seq<Row>
    requires |os| == |ids|
  {
    seq(|os|, k requires 0 <= k < |os| => Store(SpecOf(os[k]), ids[k]))
  }

  lemma FieldIsSet(o: Options, id: int, c: Column)
    requires !c.Selected?
    ensures FieldOf(c, RowValue(o, id, c)) == FieldSet(o, id, c)
  {
    UnsetIsZero(c);
    if IsAttr(c) {
      RowValueOfAttr(o, id, c);
    }
  }

  lemma FieldReadsBack(q: Query, o: Options, id: int, e: Entity, target: Entity, c: Column)
    requires !c.Selected? && Rebuilt(e, target, QueryColumns(q)) && Get(target, c) == FieldOf(c, RowValue(o, id, c))
    ensures Get(e, c) == if IsAsked(q, c) then FieldSet(o, id, c) else Unset(c)
  {
    QueryColumnsExact(q, c);
    FieldIsSet(o, id, c);
    UnsetIsZero(c);
  }

  /** Reading this row gives what was created with these options and this identity. */
  ghost predicate RowReadsBack(row: Row, q: Query, o: Options, id: int, marshal: Json -> string,
                               unmarshal: string -> Option<Json>)
  {
    var r := ReadEntity(QueryColumns(q), row, marshal, unmarshal);
    r.Success? && ReadsBack(r.value, q, o, id)
  }

  lemma EntityReadsBack(q: Query, o: Options, id: int, marshal: Json -> string, unmarshal: string -> Option<Json>)
    requires WellTyped(o) && Inverse(marshal, unmarshal)
    ensures RowReadsBack(Store(SpecOf(o), id), q, o, id, marshal, unmarshal)
  {
    RowRoundTrip(o, id, QueryColumns(q), marshal, unmarshal);
    var e, target := ReadEntity(QueryColumns(q), Store(SpecOf(o), id), marshal, unmarshal).value, Created(o, id);
    assert Rebuilt(e, target, QueryColumns(q));
    forall c: Column | !c.Selected?
      ensures Get(e, c) == if IsAsked(q, c) then FieldSet(o, id, c) else Unset(c)
    {
      CreatedHolds(o, id, c);
      FieldReadsBack(q, o, id, e, target, c);
    }
    KeysGet(e, q, o, id);
  }

  lemma KeysGet(e: Entity, q: Query, o: Options, id: int)
    requires forall c: Column :: !c.Selected? ==> Get(e, c) == if IsAsked(q, c) then FieldSet(o, id, c) else Unset(c)
    ensures ReadsBack(e, q, o, id)
  {
    assert Get(e, ID) == FieldSet(o, id, ID);
    assert Get(e, UserID) == if IsAsked(q, UserID) then FieldSet(o, id, UserID) else Unset(UserID);
    assert Get(e, GroupID) == if IsAsked(q, GroupID) then FieldSet(o, id, GroupID) else Unset(GroupID);
    assert Get(e, TeamID) == if IsAsked(q, TeamID) then FieldSet(o, id, TeamID) else Unset(TeamID);
  }

  lemma {:induction false} AllRead(columns: seq<Column>, rows: seq<Row>, holds: (Entity, nat) -> bool,
                                   marshal: Json -> string, unmarshal: string -> Option<Json>)
    requires forall k: nat :: k < |rows| ==>
      var r := ReadEntity(columns, rows[k], marshal, unmarshal); r.Success? && holds(r.value, k)
    ensures var r := ReadRows(columns, rows, marshal, unmarshal);
      r.Success? && forall k: nat :: k < |rows| ==> holds(r.value[k], k)
  {
    if rows != [] {
      AllRead(columns, rows[..|rows| - 1], holds, marshal, unmarshal);
    }
  }

  ghost predicate AllReadBack(es: seq<Entity>, q: Query, os: seq<Options>, ids: seq<int>) {
    |es| == |os| == |ids| && forall k :: 0 <= k < |os| ==> ReadsBack(es[k], q, os[k], ids[k])
  }

  /** A query over rows that creates wrote reads every row, and the nodes hold what was
      created: all of it without a selection, otherwise the columns asked for. */
  lemma CreatedRowsComeBack(q: Query, os: seq<Options>, ids: seq<int>, marshal: Json -> string,
                            unmarshal: string -> Option<Json>)
    requires |os| == |ids| && (forall k :: 0 <= k < |os| ==> WellTyped(os[k])) && Inverse(marshal, unmarshal)
    ensures var r := ReadRows(QueryColumns(q), RowsOf(os, ids), marshal, unmarshal);
      r.Success? && AllReadBack(r.value, q, os, ids)
  {
    var holds := (e: Entity, k: nat) => k < |os| && ReadsBack(e, q, os[k], ids[k]);
    forall k: nat | k < |os|
      ensures var r := ReadEntity(QueryColumns(q), RowsOf(os, ids)[k], marshal, unmarshal);
        r.Success? && holds(r.value, k)
    {
      EntityReadsBack(q, os[k], ids[k], marshal, unmarshal);
    }
    AllRead(QueryColumns(q), RowsOf(os, ids), holds, marshal, unmarshal);
  }
}
