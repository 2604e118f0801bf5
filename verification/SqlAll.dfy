/** sqlAll and querySpec of backend/ent/apikey_query.go and the edge accessors of
    backend/ent/apikey.go: a whole query, from selected columns to loaded edges. */
module SqlAll {
  import opened EagerLoad
  import opened JoinLaws
  import opened RowMapping
  import opened Schema
  import opened Wrappers

  // ---- queries --------------------------------------------------------------

  /** Selected fields of a child query; only the key back to the API key matters. */
  datatype ChildField = APIKeyIDField | OtherField(name: string)

  /** A one-to-many neighbor query: its selected fields and what running it with
      given fields for given foreign keys returns. */
  datatype ChildQuery<T> = ChildQuery(fields: seq<ChildField>,
                                      all: (seq<ChildField>, seq<int>) -> Result<seq<T>, int>)

  datatype Query = Query(
    fields: seq<Column>,
    withUser: Option<seq<int> -> Result<seq<User>, int>>,
    withGroup: Option<seq<int> -> Result<seq<Group>, int>>,
    withUsageLogs: Option<ChildQuery<UsageLog>>,
    withCompositeGroups: Option<ChildQuery<CompositeGroup>>,
    withTeam: Option<seq<int> -> Result<seq<Team>, int>>)

  // ---- querySpec --------------------------------------------------------------

  /** All table columns, as the schema package lists them. */
  const COLUMNS: seq<Column> := COLUMNS_1 + COLUMNS_2 + COLUMNS_3 + COLUMNS_4

  const COLUMNS_1 := [ID, CreatedAt, UpdatedAt, DeletedAt, UserID, TeamID, TeamOwnerDisabled, Key, Name]
  const COLUMNS_2 := [GroupID, IsComposite, Status, FastModePolicy, BillingMode, PreferredSubscriptionID, ModelMapping,
                      LastUsedAt, IPWhitelist]
  const COLUMNS_3 := [IPBlacklist, Quota, QuotaUsed, ExpiresAt, ConcurrencyLimit, RpmLimit, RateLimit5h, RateLimit1d,
                      RateLimit7d]
  const COLUMNS_4 := [Usage5h, Usage1d, Usage7d, Window5hStart, Window1dStart, Window7dStart,
                      FallbackWhenGroupUnavailable, ManagedBy]

  function AddOnce<T(==, !new)>(s: seq<T>, x: T): (r: seq<T>)
    ensures forall y :: y in r <==> y in s || y == x
    ensures s <= r
  {
    if x in s then s else s + [x]
  }

  function NotID(): Column -> bool { c => c != ID }

  /** The columns a query selects. */
  function QueryColumns(q: Query): seq<Column> {
    if q.fields == [] then COLUMNS else SelectedColumns(q)
  }

  function SelectedColumns(q: Query): seq<Column> {
    WithKeys([ID] + Filter(q.fields, NotID()), q)
  }

  /** The columns with the foreign keys of the requested many-to-one edges added. */
  function WithKeys(selected: seq<Column>, q: Query): seq<Column> {
    var u := if q.withUser.Some? then AddOnce(selected, UserID) else selected;
    var g := if q.withGroup.Some? then AddOnce(u, GroupID) else u;
    if q.withTeam.Some? then AddOnce(g, TeamID) else g
  }

  /** querySpec's column loop: the identity first, then the other selected fields. */
  method SelectFields(fields: seq<Column>) returns (columns: seq<Column>)
    ensures columns == [ID] + Filter(fields, NotID())
  {
    columns := [ID];
    for i := 0 to |fields|
      invariant columns == [ID] + Filter(fields[..i], NotID())
    {
      FilterSnoc(fields[..i], fields[i], NotID());
      assert fields[..i + 1] == fields[..i] + [fields[i]];
      if fields[i] != ID {
        columns := columns + [fields[i]];
      }
    }
    assert fields[..|fields|] == fields;
  }

  method QuerySpec(q: Query) returns (columns: seq<Column>)
    ensures columns == QueryColumns(q)
  {
    columns := COLUMNS;
    if q.fields != [] {
      columns := AddForeignKeys(q);
    }
  }

  method AddForeignKeys(q: Query) returns (columns: seq<Column>)
    ensures columns == SelectedColumns(q)
  {
    columns := SelectFields(q.fields);
    if q.withUser.Some? {
      columns := AddOnce(columns, UserID);
    }
    if q.withGroup.Some? {
      columns := AddOnce(columns, GroupID);
    }
    if q.withTeam.Some? {
      columns := AddOnce(columns, TeamID);
    }
  }

  /** The neighbor query a one-to-many loader runs: with fields selected, the key
      back to the API key is added. */
  function ChildFetch<T(!new)>(child: ChildQuery<T>): seq<int> -> Result<seq<T>, int> {
    fks => child.all(if child.fields == [] then [] else AddOnce(child.fields, APIKeyIDField), fks)
  }

  // ---- the edges of a whole query ----------------------------------------------

  function LoadedTypes(q: Query): seq<bool> {
    [q.withUser.Some?, q.withGroup.Some?, q.withUsageLogs.Some?, q.withCompositeGroups.Some?, q.withTeam.Some?]
  }

  function UserFK(e: Entity): Option<int> { Some(e.userID) }
  function GroupFK(e: Entity): Option<int> { e.groupID }
  function TeamFK(e: Entity): Option<int> { e.teamID }

  function KeysOf(datas: seq<Entity>, fk: Entity -> Option<int>): seq<Option<int>> {
    seq(|datas|, i requires 0 <= i < |datas| => fk(datas[i]))
  }

  function IdsOf(datas: seq<Entity>): seq<int> {
    seq(|datas|, i requires 0 <= i < |datas| => datas[i].id)
  }

  type EdgeLists = Result<seq<Edges>, LoadError>

  function LoadUsers(q: Query, datas: seq<Entity>, es: seq<Edges>): EdgeLists
    requires |es| == |datas|
  {
    if q.withUser.None? then Success(es)
    else ToOne(es, KeysOf(datas, UserFK), q.withUser.value, UserKey, UserId, SetUser)
  }

  function LoadGroups(q: Query, datas: seq<Entity>, es: seq<Edges>): EdgeLists
    requires |es| == |datas|
  {
    if q.withGroup.None? then Success(es)
    else ToOne(es, KeysOf(datas, GroupFK), q.withGroup.value, GroupKey, GroupId, SetGroup)
  }

  function LoadTeams(q: Query, datas: seq<Entity>, es: seq<Edges>): EdgeLists
    requires |es| == |datas|
  {
    if q.withTeam.None? then Success(es)
    else ToOne(es, KeysOf(datas, TeamFK), q.withTeam.value, TeamKey, TeamId, SetTeam)
  }

  function LoadLogs(q: Query, datas: seq<Entity>, es: seq<Edges>): EdgeLists
    requires |es| == |datas|
  {
    if q.withUsageLogs.None? then Success(es)
    else ToMany(es, IdsOf(datas), ChildFetch(q.withUsageLogs.value), LogKey, LogId, InitLogs, AddLog)
  }

  function LoadComposites(q: Query, datas: seq<Entity>, es: seq<Edges>): EdgeLists
    requires |es| == |datas|
  {
    if q.withCompositeGroups.None? then Success(es)
    else ToMany(es, IdsOf(datas), ChildFetch(q.withCompositeGroups.value), CompositeKey, CompositeId,
                InitComposites, AddComposite)
  }

  function FreshEdges(q: Query, n: nat): seq<Edges> {
    seq(n, i => NO_EDGES.(loadedTypes := LoadedTypes(q)))
  }

  /** The five loaders in sqlAll's order; a query without rows loads nothing. */
  function LoadEdges(q: Query, datas: seq<Entity>): (r: EdgeLists)
    ensures r.Success? ==> |r.value| == |datas|
  {
    var es0 := FreshEdges(q, |datas|);
    if datas == [] then Success(es0)
    else match LoadUsers(q, datas, es0)
      case Failure(e) => Failure(e)
      case Success(es1) =>
        match LoadGroups(q, datas, es1)
        case Failure(e) => Failure(e)
        case Success(es2) =>
          match LoadLogs(q, datas, es2)
          case Failure(e) => Failure(e)
          case Success(es3) =>
            match LoadComposites(q, datas, es3)
            case Failure(e) => Failure(e)
            case Success(es4) => LoadTeams(q, datas, es4)
  }

  // ---- sqlAll -----------------------------------------------------------------

  datatype QueryError = DriverError(code: int) | Assign(a: AssignError) | Load(l: LoadError)

  /** A new entity filled from a row. */
  function ReadEntity(columns: seq<Column>, row: Row, marshal: Json -> string, unmarshal: string -> Option<Json>)
    : Result<Entity, AssignError>
  {
    AssignAll(EMPTY, columns, ScanRow(columns, row, marshal), |columns|, unmarshal)
  }

  /** The entities of the scanned rows, in order, up to the first row that fails. */
  function ReadRows(columns: seq<Column>, rows: seq<Row>, marshal: Json -> string, unmarshal: string -> Option<Json>)
    : (r: Result<seq<Entity>, AssignError>)
    ensures r.Success? ==> |r.value| == |rows|
  {
    if rows == [] then Success([])
    else match ReadRows(columns, rows[..|rows| - 1], marshal, unmarshal)
      case Failure(e) => Failure(e)
      case Success(front) =>
        match ReadEntity(columns, rows[|rows| - 1], marshal, unmarshal)
        case Failure(e) => Failure(e)
        case Success(last) => Success(front + [last])
  }

  function Datas(nodes: seq<APIKey>): seq<Entity>
    reads nodes
  {
    seq(|nodes|, i requires 0 <= i < |nodes| reads nodes => nodes[i].data)
  }

  lemma {:induction false} ReadRowsStays(columns: seq<Column>, rows: seq<Row>, i: nat,
                                         marshal: Json -> string, unmarshal: string -> Option<Json>)
    requires i <= |rows| && ReadRows(columns, rows[..i], marshal, unmarshal).Failure?
    ensures ReadRows(columns, rows, marshal, unmarshal) == ReadRows(columns, rows[..i], marshal, unmarshal)
    decreases |rows| - i
  {
    if i < |rows| {
      assert rows[..i + 1][..i] == rows[..i];
      ReadRowsStays(columns, rows, i + 1, marshal, unmarshal);
    } else {
      assert rows[..i] == rows;
    }
  }

  /** The Assign callback for one row: a new node, filled from the row. */
  method ScanNode(q: Query, columns: seq<Column>, row: Row, marshal: Json -> string, unmarshal: string -> Option<Json>)
    returns (node: APIKey, err: Option<AssignError>)
    ensures fresh(node) && node.edges == NO_EDGES.(loadedTypes := LoadedTypes(q))
    ensures match ReadEntity(columns, row, marshal, unmarshal)
      case Failure(e) => err == Some(e)
      case Success(data) => err == None && node.data == data
  {
    node := new APIKey();
    node.edges := node.edges.(loadedTypes := LoadedTypes(q));
    err := AssignValues(node, columns, ScanRow(columns, row, marshal), unmarshal);
  }

  lemma ReadNext(columns: seq<Column>, rows: seq<Row>, i: nat, marshal: Json -> string, unmarshal: string -> Option<Json>)
    requires i < |rows| && ReadRows(columns, rows[..i], marshal, unmarshal).Success?
    ensures var r := ReadRows(columns, rows[..i + 1], marshal, unmarshal);
      match ReadEntity(columns, rows[i], marshal, unmarshal)
      case Failure(e) => r == Failure(e) && ReadRows(columns, rows, marshal, unmarshal) == r
      case Success(data) => r == Success(ReadRows(columns, rows[..i], marshal, unmarshal).value + [data])
  {
    assert rows[..i + 1][..i] == rows[..i];
    if ReadRows(columns, rows[..i + 1], marshal, unmarshal).Failure? {
      ReadRowsStays(columns, rows, i + 1, marshal, unmarshal);
    }
  }

  /** One new node per row. */
  method ScanNodes(q: Query, columns: seq<Column>, rows: seq<Row>, marshal: Json -> string,
                   unmarshal: string -> Option<Json>)
    returns (nodes: seq<APIKey>, err: Option<AssignError>)
    ensures match ReadRows(columns, rows, marshal, unmarshal)
      case Failure(e) => err == Some(e)
      case Success(datas) => err == None && Datas(nodes) == datas
    ensures Distinct(nodes) && fresh(Objects(nodes))
    ensures err == None ==> EdgesOf(nodes) == FreshEdges(q, |rows|)
  {
    nodes := [];
    assert rows[..0] == [] && Datas(nodes) == [];
    for i := 0 to |rows|
      invariant |nodes| == i && Distinct(nodes) && fresh(Objects(nodes))
      invariant ReadRows(columns, rows[..i], marshal, unmarshal) == Success(Datas(nodes))
      invariant forall p :: 0 <= p < i ==> nodes[p].edges == NO_EDGES.(loadedTypes := LoadedTypes(q))
    {
      ReadNext(columns, rows, i, marshal, unmarshal);
      ghost var before, datas := nodes, Datas(nodes);
      var node;
      node, err := ScanNode(q, columns, rows[i], marshal, unmarshal);
      nodes := nodes + [node];
      assert Objects(nodes) == Objects(before) + {node};
      if err.Some? {
        return;
      }
      assert Datas(nodes) == datas + [node.data];
    }
    assert rows[..|rows|] == rows;
    err := None;
  }

  /** A whole query. On success the returned nodes are new objects holding the
      rows' entities and the loaded edges; on any error no node is returned. */
  method SqlAll(q: Query, rows: Result<seq<Row>, int>, marshal: Json -> string, unmarshal: string -> Option<Json>)
    returns (r: Result<seq<APIKey>, QueryError>)
    ensures rows.Failure? ==> r == Failure(DriverError(rows.error))
    ensures rows.Success? ==> match ReadRows(QueryColumns(q), rows.value, marshal, unmarshal)
      case Failure(a) => r == Failure(Assign(a))
      case Success(datas) =>
        match LoadEdges(q, datas)
        case Failure(l) => r == Failure(Load(l))
        case Success(es) => r.Success? && Datas(r.value) == datas && EdgesOf(r.value) == es
    ensures r.Success? ==> Distinct(r.value) && fresh(Objects(r.value))
  {
    var columns := QuerySpec(q);
    if rows.Failure? {
      return Failure(DriverError(rows.error));
    }
    var nodes, failed := ScanNodes(q, columns, rows.value, marshal, unmarshal);
    if failed.Some? {
      return Failure(Assign(failed.value));
    }
    if nodes == [] {
      return Success(nodes);
    }
    var err := LoadAll(q, nodes);
    r := if err.Some? then Failure(Load(err.value)) else Success(nodes);
  }

  lemma KeysAreKeysOf(nodes: seq<APIKey>, fk: Entity -> Option<int>)
    ensures Keys(nodes, fk) == KeysOf(Datas(nodes), fk)
    ensures IDs(nodes) == IdsOf(Datas(nodes))
  {
  }

  method LoadUser(q: Query, nodes: seq<APIKey>) returns (err: Option<LoadError>)
    requires Distinct(nodes)
    modifies Objects(nodes)`edges
    ensures Datas(nodes) == old(Datas(nodes))
    ensures Outcome(LoadUsers(q, Datas(nodes), old(EdgesOf(nodes))), nodes, err)
  {
    err := None;
    if q.withUser.Some? {
      ghost var asked;
      asked, err := LoadToOne(nodes, UserFK, q.withUser.value, UserKey, UserId, SetUser);
      KeysAreKeysOf(nodes, UserFK);
      assert Datas(nodes) == old(Datas(nodes));
    }
  }

  method LoadGroup(q: Query, nodes: seq<APIKey>) returns (err: Option<LoadError>)
    requires Distinct(nodes)
    modifies Objects(nodes)`edges
    ensures Datas(nodes) == old(Datas(nodes))
    ensures Outcome(LoadGroups(q, Datas(nodes), old(EdgesOf(nodes))), nodes, err)
  {
    err := None;
    if q.withGroup.Some? {
      ghost var asked;
      asked, err := LoadToOne(nodes, GroupFK, q.withGroup.value, GroupKey, GroupId, SetGroup);
      KeysAreKeysOf(nodes, GroupFK);
      assert Datas(nodes) == old(Datas(nodes));
    }
  }

  method LoadTeam(q: Query, nodes: seq<APIKey>) returns (err: Option<LoadError>)
    requires Distinct(nodes)
    modifies Objects(nodes)`edges
    ensures Datas(nodes) == old(Datas(nodes))
    ensures Outcome(LoadTeams(q, Datas(nodes), old(EdgesOf(nodes))), nodes, err)
  {
    err := None;
    if q.withTeam.Some? {
      ghost var asked;
      asked, err := LoadToOne(nodes, TeamFK, q.withTeam.value, TeamKey, TeamId, SetTeam);
      KeysAreKeysOf(nodes, TeamFK);
      assert Datas(nodes) == old(Datas(nodes));
    }
  }

  method LoadUsageLogs(q: Query, nodes: seq<APIKey>) returns (err: Option<LoadError>)
    requires Distinct(nodes)
    modifies Objects(nodes)`edges
    ensures Datas(nodes) == old(Datas(nodes))
    ensures Outcome(LoadLogs(q, Datas(nodes), old(EdgesOf(nodes))), nodes, err)
  {
    err := None;
    if q.withUsageLogs.Some? {
      ghost var asked;
      asked, err := LoadToMany(nodes, ChildFetch(q.withUsageLogs.value), LogKey, LogId, InitLogs, AddLog);
      KeysAreKeysOf(nodes, UserFK);
      assert Datas(nodes) == old(Datas(nodes));
    }
  }

  method LoadCompositeGroups(q: Query, nodes: seq<APIKey>) returns (err: Option<LoadError>)
    requires Distinct(nodes)
    modifies Objects(nodes)`edges
    ensures Datas(nodes) == old(Datas(nodes))
    ensures Outcome(LoadComposites(q, Datas(nodes), old(EdgesOf(nodes))), nodes, err)
  {
    err := None;
    if q.withCompositeGroups.Some? {
      ghost var asked;
      asked, err := LoadToMany(nodes, ChildFetch(q.withCompositeGroups.value), CompositeKey, CompositeId,
                               InitComposites, AddComposite);
      KeysAreKeysOf(nodes, UserFK);
      assert Datas(nodes) == old(Datas(nodes));
    }
  }

  /** A loader did what its specification says: it failed with that error, or the
      nodes hold those edges. */
  ghost predicate Outcome(spec: EdgeLists, nodes: seq<APIKey>, err: Option<LoadError>)
    reads nodes
  {
    match spec
    case Failure(l) => err == Some(l)
    case Success(es) => err == None && EdgesOf(nodes) == es
  }

  /** The five loaders in order, each on the nodes the previous ones left. */
  method LoadAll(q: Query, nodes: seq<APIKey>) returns (err: Option<LoadError>)
    requires Distinct(nodes) && nodes != []
    requires EdgesOf(nodes) == FreshEdges(q, |nodes|)
    modifies Objects(nodes)`edges
    ensures Datas(nodes) == old(Datas(nodes))
    ensures Outcome(LoadEdges(q, Datas(nodes)), nodes, err)
  {
    err := LoadUser(q, nodes);
    if err == None {
      err := LoadGroup(q, nodes);
    }
    if err == None {
      err := LoadUsageLogs(q, nodes);
    }
    if err == None {
      err := LoadCompositeGroups(q, nodes);
    }
    if err == None {
      err := LoadTeam(q, nodes);
    }
  }
}
