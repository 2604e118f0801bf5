/** createSpec of backend/ent/apikey_create.go and scanValues / assignValues of
    backend/ent/apikey.go: what a create writes to a row and what reading the
    row's columns back gives. */
module RowMapping {
  import opened Schema
  import opened Wrappers

  // ---- createSpec --------------------------------------------------------

  /** The options set on an APIKeyMutation. The generated setters give every
      field its Go type, which WellTyped states. */
  datatype Options = Options(fields: map<Column, Value>, user: Option<int>, group: Option<int>,
                             team: Option<int>, usageLogs: seq<int>, compositeGroups: seq<int>)

  ghost predicate WellTyped(o: Options) {
    forall c :: c in o.fields ==> IsAttr(c) && KindOf(o.fields[c]) == FieldKind(c)
  }

  /** The scalar fields in the order createSpec visits them. */
  const SPEC_COLUMNS: seq<Column> := SPEC_1 + SPEC_2 + SPEC_3 + SPEC_4

  const SPEC_1 := [CreatedAt, UpdatedAt, DeletedAt, TeamOwnerDisabled, Key, Name, IsComposite, Status]
  const SPEC_2 := [FastModePolicy, BillingMode, PreferredSubscriptionID, ModelMapping, LastUsedAt, IPWhitelist,
                   IPBlacklist, Quota]
  const SPEC_3 := [QuotaUsed, ExpiresAt, ConcurrencyLimit, RpmLimit, RateLimit5h, RateLimit1d, RateLimit7d, Usage5h]
  const SPEC_4 := [Usage1d, Usage7d, Window5hStart, Window1dStart, Window7dStart, FallbackWhenGroupUnavailable,
                   ManagedBy]

  datatype FieldSpec = FieldSpec(column: Column, value: Value)

  datatype Rel = M2O | O2M

  datatype EdgeSpec = EdgeSpec(rel: Rel, edge: Edge, targets: seq<int>)

  datatype Edge = UserEdge | GroupEdge | UsageLogsEdge | CompositeGroupsEdge | TeamEdge

  /** A sqlgraph.CreateSpec without its identity value, which the insert fills in. */
  datatype Spec = Spec(fields: seq<FieldSpec>, edges: seq<EdgeSpec>)

  function SpecFields(columns: seq<Column>, set_: map<Column, Value>): seq<FieldSpec> {
    if columns == [] then []
    else if columns[|columns| - 1] in set_ then
      SpecFields(columns[..|columns| - 1], set_) + [FieldSpec(columns[|columns| - 1], set_[columns[|columns| - 1]])]
    else SpecFields(columns[..|columns| - 1], set_)
  }

  function Unique(edge: Edge, id: Option<int>): seq<EdgeSpec> {
    if id.Some? then [EdgeSpec(M2O, edge, [id.value])] else []
  }

  function Many(edge: Edge, ids: seq<int>): seq<EdgeSpec> {
    if ids != [] then [EdgeSpec(O2M, edge, ids)] else []
  }

  function SpecOf(o: Options): Spec {
    Spec(SpecFields(SPEC_COLUMNS, o.fields), SpecEdges(o))
  }

  function SpecEdges(o: Options): seq<EdgeSpec> {
    Unique(UserEdge, o.user) + Unique(GroupEdge, o.group) + Many(UsageLogsEdge, o.usageLogs)
    + Many(CompositeGroupsEdge, o.compositeGroups) + Unique(TeamEdge, o.team)
  }

  /** The node createSpec returns; its identity is still zero. */
  function NodeOf(o: Options): Entity {
    Entity(0, o.user.Or(0), o.group, o.team,
           SpecAttrs(SPEC_COLUMNS, o.fields), map[])
  }

  function SpecAttrs(columns: seq<Column>, set_: map<Column, Value>): map<Column, Field> {
    map c | c in set_ && c in columns :: Stored(c, set_[c])
  }

  /** The scalar part of createSpec: one pass growing the spec and the node together. */
  method SetFields(columns: seq<Column>, o: Options, node: APIKey) returns (fields: seq<FieldSpec>)
    requires node.data.attrs == map[]
    modifies node`data
    ensures fields == SpecFields(columns, o.fields)
    ensures node.data == old(node.data).(attrs := SpecAttrs(columns, o.fields))
  {
    fields := [];
    for i := 0 to |columns|
      invariant fields == SpecFields(columns[..i], o.fields)
      invariant node.data == old(node.data).(attrs := SpecAttrs(columns[..i], o.fields))
    {
      var c := columns[i];
      NextColumn(columns, i);
      if c in o.fields {
        fields := fields + [FieldSpec(c, o.fields[c])];
        node.data := node.data.(attrs := node.data.attrs[c := Stored(c, o.fields[c])]);
      }
    }
    assert columns[..|columns|] == columns;
  }

  /** createSpec itself: the scalar fields, then the five edges. */
  method CreateSpec(o: Options) returns (node: APIKey, spec: Spec)
    ensures fresh(node) && node.data == NodeOf(o) && node.edges == NO_EDGES
    ensures spec == SpecOf(o)
  {
    node := new APIKey();
    var fields := SetFields(SPEC_COLUMNS, o, node);
    var edges := Unique(UserEdge, o.user);
    if o.user.Some? {
      node.data := node.data.(userID := o.user.value);
    }
    edges := edges + Unique(GroupEdge, o.group);
    node.data := node.data.(groupID := o.group);
    edges := edges + Many(UsageLogsEdge, o.usageLogs);
    edges := edges + Many(CompositeGroupsEdge, o.compositeGroups);
    edges := edges + Unique(TeamEdge, o.team);
    node.data := node.data.(teamID := o.team);
    spec := Spec(fields, edges);
  }

  lemma NextColumn(columns: seq<Column>, i: nat)
    requires i < |columns|
    ensures columns[..i + 1] == columns[..i] + [columns[i]]
    ensures columns[..i + 1][..i] == columns[..i]
  {
  }

  // ---- the stored row ----------------------------------------------------

  /** A row; columns that are absent are NULL. */
  type Row = map<Column, Value>

  function StoreFields(fields: seq<FieldSpec>): Row {
    if fields == [] then map[]
    else StoreFields(fields[..|fields| - 1])[fields[|fields| - 1].column := fields[|fields| - 1].value]
  }

  /** The foreign-key column a many-to-one edge writes. */
  function EdgeColumn(e: Edge): Option<Column> {
    match e
    case UserEdge => Some(UserID)
    case GroupEdge => Some(GroupID)
    case TeamEdge => Some(TeamID)
    case _ => None
  }

  function StoreEdges(row: Row, edges: seq<EdgeSpec>): Row
    decreases |edges|
  {
    if edges == [] then row else StoreEdges(StoreEdge(row, edges[0]), edges[1..])
  }

  function StoreEdge(row: Row, e: EdgeSpec): Row {
    if e.rel == M2O && e.targets != [] && EdgeColumn(e.edge).Some?
    then row[EdgeColumn(e.edge).value := VInt(e.targets[0])] else row
  }

  /** The row an insert of the spec leaves in the table, with its new identity. */
  function Store(spec: Spec, id: int): Row {
    StoreEdges(StoreFields(spec.fields)[ID := VInt(id)], spec.edges)
  }

  // ---- scanValues --------------------------------------------------------

  /** The destination scanValues allocates for a column. */
  function ScanKind(c: Column): Kind {
    match c
    case ModelMapping | IPWhitelist | IPBlacklist => KJson
    case TeamOwnerDisabled | IsComposite | FallbackWhenGroupUnavailable => KBool
    case Quota | QuotaUsed | RateLimit5h | RateLimit1d | RateLimit7d | Usage5h | Usage1d | Usage7d => KFloat
    case ID | UserID | TeamID | GroupID | PreferredSubscriptionID | ConcurrencyLimit | RpmLimit => KInt
    case Key | Name | Status | FastModePolicy | BillingMode | ManagedBy => KString
    case CreatedAt | UpdatedAt | DeletedAt | LastUsedAt | ExpiresAt | Window5hStart | Window1dStart | Window7dStart =>
      KTime
    case Selected(_) => KUnknown
  }

  method ScanValues(columns: seq<Column>) returns (values: array<Kind>)
    ensures fresh(values) && values.Length == |columns|
    ensures forall i :: 0 <= i < |columns| ==> values[i] == ScanKind(columns[i])
  {
    values := new Kind[|columns|](i => KUnknown);
    for i := 0 to |columns|
      invariant forall j :: 0 <= j < i ==> values[j] == ScanKind(columns[j])
    {
      values[i] := ScanKind(columns[i]);
    }
  }

  /** What the driver puts into a destination: a value of the destination's kind,
      JSON as text, and nothing for NULL or for a value of another kind. */
  function Fill(kind: Kind, stored: Option<Value>, marshal: Json -> string): Cell {
    if kind == KJson then
      Bytes(if stored.Some? && stored.value.VJson? then Some(marshal(stored.value.j)) else None)
    else Cell(kind, if stored.Some? && KindOf(stored.value) == kind then stored else None)
  }

  function Lookup(row: Row, c: Column): Option<Value> {
    if c in row then Some(row[c]) else None
  }

  function ScanRow(columns: seq<Column>, row: Row, marshal: Json -> string): (cells: seq<Cell>)
    ensures |cells| == |columns|
  {
    seq(|columns|, i requires 0 <= i < |columns| => Fill(ScanKind(columns[i]), Lookup(row, columns[i]), marshal))
  }

  // ---- assignValues ------------------------------------------------------

  datatype AssignError =
    | Mismatch(values: nat, columns: nat) | UnexpectedType(c: Column) | BadJson(c: Column)

  /** The type assignValues asserts for a column. */
  function AssertedKind(c: Column): Kind {
    match c
    case ID => KInt case CreatedAt => KTime case UpdatedAt => KTime case DeletedAt => KTime
    case UserID => KInt case TeamID => KInt case TeamOwnerDisabled => KBool case Key => KString
    case Name => KString case GroupID => KInt case IsComposite => KBool case Status => KString
    case FastModePolicy => KString case BillingMode => KString case PreferredSubscriptionID => KInt
    case ModelMapping => KJson case LastUsedAt => KTime case IPWhitelist => KJson case IPBlacklist => KJson
    case Quota => KFloat case QuotaUsed => KFloat case ExpiresAt => KTime case ConcurrencyLimit => KInt
    case RpmLimit => KInt case RateLimit5h => KFloat case RateLimit1d => KFloat case RateLimit7d => KFloat
    case Usage5h => KFloat case Usage1d => KFloat case Usage7d => KFloat case Window5hStart => KTime
    case Window1dStart => KTime case Window7dStart => KTime case FallbackWhenGroupUnavailable => KBool
    case ManagedBy => KString
    case Selected(_) => KUnknown
  }

  function CellKind(cell: Cell): Kind {
    match cell case Cell(k, _) => k case Bytes(_) => KJson
  }

  /** What one column does to the entity. */
  function AssignOne(e: Entity, c: Column, cell: Cell, unmarshal: string -> Option<Json>)
    : Result<Entity, AssignError>
  {
    if c.Selected? then Success(e.(selected := e.selected[c.name := cell]))
    else if CellKind(cell) != AssertedKind(c) then Failure(UnexpectedType(c))
    else match cell
      case Bytes(text) =>
        if text.None? || text.value == "" then Success(e)
        else (match unmarshal(text.value)
          case None => Failure(BadJson(c))
          case Some(j) => Success(e.(attrs := e.attrs[c := Plain(VJson(j))])))
      case Cell(_, value) =>
        if c == ID then Success(e.(id := if value.Some? && value.value.VInt? then value.value.n else 0))
        else if value.None? then Success(e)
        else Success(SetField(e, c, value.value))
  }

  function SetField(e: Entity, c: Column, v: Value): Entity {
    if c == UserID && v.VInt? then e.(userID := v.n)
    else if c == GroupID && v.VInt? then e.(groupID := Some(v.n))
    else if c == TeamID && v.VInt? then e.(teamID := Some(v.n))
    else e.(attrs := e.attrs[c := Stored(c, v)])
  }

  /** Assigning the first n columns in order, stopping at the first error. */
  function AssignAll(e: Entity, columns: seq<Column>, values: seq<Cell>, n: nat, unmarshal: string -> Option<Json>)
    : Result<Entity, AssignError>
    requires n <= |columns| <= |values|
  {
    if n == 0 then Success(e)
    else match AssignAll(e, columns, values, n - 1, unmarshal)
      case Failure(err) => Failure(err)
      case Success(e') => AssignOne(e', columns[n - 1], values[n - 1], unmarshal)
  }

  /** On an error the receiver keeps what the columns before it assigned. */
  method AssignValues(node: APIKey, columns: seq<Column>, values: seq<Cell>, unmarshal: string -> Option<Json>)
    returns (err: Option<AssignError>)
    modifies node`data
    ensures |values| < |columns| ==> err == Some(Mismatch(|values|, |columns|)) && node.data == old(node.data)
    ensures |values| >= |columns| ==>
      match AssignAll(old(node.data), columns, values, |columns|, unmarshal)
      case Success(e) => err == None && node.data == e
      case Failure(f) => err == Some(f)
  {
    if |values| < |columns| {
      return Some(Mismatch(|values|, |columns|));
    }
    for i := 0 to |columns|
      invariant AssignAll(old(node.data), columns, values, i, unmarshal) == Success(node.data)
    {
      var next := AssignOne(node.data, columns[i], values[i], unmarshal);
      if next.Failure? {
        FailureStays(old(node.data), columns, values, i + 1, unmarshal);
        return Some(next.error);
      }
      node.data := next.value;
    }
    err := None;
  }

  lemma {:induction false} FailureStays(e: Entity, columns: seq<Column>, values: seq<Cell>, n: nat,
                                        unmarshal: string -> Option<Json>)
    requires n <= |columns| <= |values|
    requires AssignAll(e, columns, values, n, unmarshal).Failure?
    ensures AssignAll(e, columns, values, |columns|, unmarshal) == AssignAll(e, columns, values, n, unmarshal)
    decreases |columns| - n
  {
    if n < |columns| {
      FailureStays(e, columns, values, n + 1, unmarshal);
    }
  }

  // ---- reading back what was written -------------------------------------

  /** Marshalled JSON is never empty and unmarshals to what was marshalled. */
  ghost predicate Inverse(marshal: Json -> string, unmarshal: string -> Option<Json>) {
    forall j :: marshal(j) != "" && unmarshal(marshal(j)) == Some(j)
  }

  /** The destination scanValues allocates is the one assignValues asserts, and it
      is the kind of the struct field. */
  lemma KindsAgree(c: Column)
    ensures ScanKind(c) == AssertedKind(c) == FieldKind(c)
  {
  }

  /** Reading any row back through the destinations scanValues allocated never
      fails with an unexpected type. */
  lemma {:induction false} NeverUnexpected(e: Entity, columns: seq<Column>, row: Row, n: nat,
                                           marshal: Json -> string, unmarshal: string -> Option<Json>)
    requires n <= |columns|
    ensures var r := AssignAll(e, columns, ScanRow(columns, row, marshal), n, unmarshal);
      r.Failure? ==> r.error.BadJson?
  {
    if n > 0 {
      NeverUnexpected(e, columns, row, n - 1, marshal, unmarshal);
      KindsAgree(columns[n - 1]);
    }
  }

  /** createSpec handles every scalar column once: SPEC_COLUMNS lists exactly the
      columns other than the identity and the three foreign keys. */
  lemma SpecColumnsComplete(c: Column)
    ensures c in SPEC_COLUMNS <==> IsAttr(c)
  {
    SpecParts(c);
    assert c in SPEC_COLUMNS <==> c in SPEC_1 || c in SPEC_2 || c in SPEC_3 || c in SPEC_4;
  }

  lemma SpecParts(c: Column)
    ensures c in SPEC_1 || c in SPEC_2 || c in SPEC_3 || c in SPEC_4 <==> IsAttr(c)
  {
    SpecPart1(c);
    SpecPart2(c);
    SpecPart3(c);
    SpecPart4(c);
  }

  lemma SpecPart1(c: Column)
    ensures c in SPEC_1 <==> (c.CreatedAt? || c.UpdatedAt? || c.DeletedAt? || c.TeamOwnerDisabled? || c.Key? || c.Name?
      || c.IsComposite? || c.Status?)
  {
  }

  lemma SpecPart2(c: Column)
    ensures c in SPEC_2 <==> (c.FastModePolicy? || c.BillingMode? || c.PreferredSubscriptionID? || c.ModelMapping?
      || c.LastUsedAt? || c.IPWhitelist? || c.IPBlacklist? || c.Quota?)
  {
  }

  lemma SpecPart3(c: Column)
    ensures c in SPEC_3 <==> (c.QuotaUsed? || c.ExpiresAt? || c.ConcurrencyLimit? || c.RpmLimit? || c.RateLimit5h?
      || c.RateLimit1d? || c.RateLimit7d? || c.Usage5h?)
  {
  }

  lemma SpecPart4(c: Column)
    ensures c in SPEC_4 <==> (c.Usage1d? || c.Usage7d? || c.Window5hStart? || c.Window1dStart? || c.Window7dStart?
      || c.FallbackWhenGroupUnavailable? || c.ManagedBy?)
  {
  }

  /** Storing one more field. */
  lemma StoreOne(fields: seq<FieldSpec>, f: FieldSpec, c: Column)
    ensures Lookup(StoreFields(fields + [f]), c)
      == if c == f.column then Some(f.value) else Lookup(StoreFields(fields), c)
  {
    assert (fields + [f])[..|fields|] == fields;
  }

  lemma {:induction false} StoreFieldsLookup(columns: seq<Column>, set_: map<Column, Value>, c: Column)
    ensures Lookup(StoreFields(SpecFields(columns, set_)), c)
      == if c in columns && c in set_ then Some(set_[c]) else None
  {
    if columns != [] {
      var front, last := columns[..|columns| - 1], columns[|columns| - 1];
      StoreFieldsLookup(front, set_, c);
      InFront(front, last, c);
      assert columns == front + [last];
      if last in set_ {
        StoreOne(SpecFields(front, set_), FieldSpec(last, set_[last]), c);
      }
    }
  }

  lemma InFront(front: seq<Column>, last: Column, c: Column)
    ensures c in front + [last] <==> c in front || c == last
  {
  }

  lemma {:induction false} StoreEdgesAppend(row: Row, a: seq<EdgeSpec>, b: seq<EdgeSpec>)
    ensures StoreEdges(row, a + b) == StoreEdges(StoreEdges(row, a), b)
    decreases |a|
  {
    if a == [] {
      assert a + b == b;
    } else {
      assert (a + b)[1..] == a[1..] + b;
      StoreEdgesAppend(StoreEdge(row, a[0]), a[1..], b);
    }
  }

  function IntValue(p: Option<int>): Option<Value> {
    if p.Some? then Some(VInt(p.value)) else None
  }

  /** What the row of a created entity holds in each table column. */
  function RowValue(o: Options, id: int, c: Column): Option<Value> {
    match c
    case ID => Some(VInt(id))
    case UserID => IntValue(o.user)
    case GroupID => IntValue(o.group)
    case TeamID => IntValue(o.team)
    case _ => Lookup(o.fields, c)
  }

  /** The row with a foreign key, if there is one. */
  function Keyed(row: Row, c: Column, id: Option<int>): Row {
    if id.Some? then row[c := VInt(id.value)] else row
  }

  lemma UniqueStores(row: Row, edge: Edge, id: Option<int>)
    requires EdgeColumn(edge).Some?
    ensures StoreEdges(row, Unique(edge, id)) == Keyed(row, EdgeColumn(edge).value, id)
  {
    if id.Some? {
      var e := EdgeSpec(M2O, edge, [id.value]);
      assert [e][1..] == [];
    }
  }

  lemma ManyStores(row: Row, edge: Edge, ids: seq<int>)
    ensures StoreEdges(row, Many(edge, ids)) == row
  {
    if ids != [] {
      assert [EdgeSpec(O2M, edge, ids)][1..] == [];
    }
  }

  /** Of the five edges, the three many-to-one ones write a foreign key each. */
  lemma EdgesStore(o: Options, row: Row)
    ensures StoreEdges(row, SpecEdges(o)) == Keyed(Keyed(Keyed(row, UserID, o.user), GroupID, o.group), TeamID, o.team)
  {
    var u, g := Unique(UserEdge, o.user), Unique(GroupEdge, o.group);
    var l, k := Many(UsageLogsEdge, o.usageLogs), Many(CompositeGroupsEdge, o.compositeGroups);
    FiveParts(row, u, g, l, k, Unique(TeamEdge, o.team));
    var withUser := Keyed(row, UserID, o.user);
    var withGroup := Keyed(withUser, GroupID, o.group);
    UniqueStores(row, UserEdge, o.user);
    UniqueStores(withUser, GroupEdge, o.group);
    ManyStores(withGroup, UsageLogsEdge, o.usageLogs);
    ManyStores(withGroup, CompositeGroupsEdge, o.compositeGroups);
    UniqueStores(withGroup, TeamEdge, o.team);
  }

  lemma FiveParts(row: Row, u: seq<EdgeSpec>, g: seq<EdgeSpec>, l: seq<EdgeSpec>, k: seq<EdgeSpec>, t: seq<EdgeSpec>)
    ensures StoreEdges(row, u + g + l + k + t)
      == StoreEdges(StoreEdges(StoreEdges(StoreEdges(StoreEdges(row, u), g), l), k), t)
  {
    StoreEdgesAppend(row, u + g + l + k, t);
    StoreEdgesAppend(row, u + g + l, k);
    StoreEdgesAppend(row, u + g, l);
    StoreEdgesAppend(row, u, g);
  }

  lemma StoreHolds(o: Options, id: int, c: Column)
    requires WellTyped(o)
    ensures Lookup(Store(SpecOf(o), id), c) == RowValue(o, id, c)
  {
    SpecColumnsComplete(c);
    ColumnsStore(SPEC_COLUMNS, o, id, c);
  }

  lemma ColumnsStore(columns: seq<Column>, o: Options, id: int, c: Column)
    requires WellTyped(o) && (c in columns <==> IsAttr(c))
    ensures Lookup(Store(Spec(SpecFields(columns, o.fields), SpecEdges(o)), id), c) == RowValue(o, id, c)
  {
    var scalars := StoreFields(SpecFields(columns, o.fields));
    var row := scalars[ID := VInt(id)];
    EdgesStore(o, row);
    StoreFieldsLookup(columns, o.fields, c);
    KeyedLookup(row, o, c);
    assert Lookup(row, c) == if c == ID then Some(VInt(id)) else Lookup(scalars, c);
    if IsAttr(c) {
      RowValueOfAttr(o, id, c);
    } else {
      NoAttr(o, id, c);
    }
  }

  /** Other names have no value, and the keys come from the edges. */
  lemma NoAttr(o: Options, id: int, c: Column)
    requires WellTyped(o) && !IsAttr(c)
    ensures RowValue(o, id, c) ==
      if c == ID then Some(VInt(id)) else if c == UserID then IntValue(o.user)
      else if c == GroupID then IntValue(o.group) else if c == TeamID then IntValue(o.team) else None
  {
  }

  lemma KeyedLookup(row: Row, o: Options, c: Column)
    ensures Lookup(Keyed(Keyed(Keyed(row, UserID, o.user), GroupID, o.group), TeamID, o.team), c) ==
      if c.UserID? && o.user.Some? then Some(VInt(o.user.value))
      else if c.GroupID? && o.group.Some? then Some(VInt(o.group.value))
      else if c.TeamID? && o.team.Some? then Some(VInt(o.team.value))
      else Lookup(row, c)
  {
  }

  /** The entity createSpec returned, once its identity is known. */
  function Created(o: Options, id: int): Entity {
    NodeOf(o).(id := id)
  }

  /** A stored value of a field, or the zero value where the row has none. */
  function FieldOf(c: Column, v: Option<Value>): Field {
    if v.Some? then Stored(c, v.value) else ZeroField(c)
  }

  lemma CreatedHolds(o: Options, id: int, c: Column)
    requires WellTyped(o) && !c.Selected?
    ensures Get(Created(o, id), c) == FieldOf(c, RowValue(o, id, c))
  {
    SpecColumnsComplete(c);
    ColumnsCreated(SPEC_COLUMNS, o, id, c);
  }

  lemma ColumnsCreated(columns: seq<Column>, o: Options, id: int, c: Column)
    requires WellTyped(o) && !c.Selected? && (c in columns <==> IsAttr(c))
    ensures Get(Entity(id, o.user.Or(0), o.group, o.team, SpecAttrs(columns, o.fields), map[]), c)
      == FieldOf(c, RowValue(o, id, c))
  {
    if IsAttr(c) {
      var attrs := SpecAttrs(columns, o.fields);
      AttrOf(Entity(id, o.user.Or(0), o.group, o.team, attrs, map[]), c);
      RowValueOfAttr(o, id, c);
      assert c in attrs <==> c in o.fields;
    }
  }

  lemma AttrOf(e: Entity, c: Column)
    requires IsAttr(c)
    ensures Get(e, c) == if c in e.attrs then e.attrs[c] else ZeroField(c)
  {
  }

  lemma RowValueOfAttr(o: Options, id: int, c: Column)
    requires IsAttr(c)
    ensures RowValue(o, id, c) == Lookup(o.fields, c)
  {
  }

  lemma RowValueKind(o: Options, id: int, c: Column)
    requires WellTyped(o)
    ensures RowValue(o, id, c).Some? ==> KindOf(RowValue(o, id, c).value) == FieldKind(c)
  {
  }

  /** A row holds values of the right kinds, and those of the entity. */
  ghost predicate Represents(stored: Column -> Option<Value>, e: Entity) {
    && stored(ID).Some?
    && forall c: Column :: !c.Selected? ==>
         && (stored(c).Some? ==> KindOf(stored(c).value) == FieldKind(c))
         && Get(e, c) == FieldOf(c, stored(c))
  }

  /** Reading one column back sets that field to what was stored and leaves the
      others; it never fails. */
  lemma AssignBack(stored: Column -> Option<Value>, target: Entity, e: Entity, c: Column,
                   marshal: Json -> string, unmarshal: string -> Option<Json>)
    requires Represents(stored, target) && Inverse(marshal, unmarshal)
    requires Get(e, c) == ZeroField(c) || Get(e, c) == Get(target, c) || c.Selected?
    ensures var r := AssignOne(e, c, Fill(ScanKind(c), stored(c), marshal), unmarshal);
      && r.Success?
      && (!c.Selected? ==> Get(r.value, c) == Get(target, c))
      && forall d: Column :: d != c && !d.Selected? ==> Get(r.value, d) == Get(e, d)
  {
    if !c.Selected? {
      KindsAgree(c);
      AssignFilled(e, c, stored(c), marshal, unmarshal);
    }
  }

  /** Reading a stored value of the right kind into a table column. */
  lemma AssignFilled(e: Entity, c: Column, v: Option<Value>, marshal: Json -> string, unmarshal: string -> Option<Json>)
    requires Inverse(marshal, unmarshal) && !c.Selected?
    requires v.Some? ==> KindOf(v.value) == FieldKind(c)
    requires c == ID ==> v.Some?
    ensures var r := AssignOne(e, c, Fill(FieldKind(c), v, marshal), unmarshal);
      && r.Success?
      && Get(r.value, c) == (if v.Some? then Stored(c, v.value) else Get(e, c))
      && forall d: Column :: d != c && !d.Selected? ==> Get(r.value, d) == Get(e, d)
  {
    KindsAgree(c);
    if FieldKind(c) == KJson {
      assert IsAttr(c) && !IsPointer(c);
      if v.Some? {
        assert unmarshal(marshal(v.value.j)) == Some(v.value.j);
      }
    } else if v.Some? && c != ID {
      SetFieldGet(e, c, v.value);
    }
  }

  lemma SetFieldGet(e: Entity, c: Column, v: Value)
    requires !c.Selected? && KindOf(v) == FieldKind(c) && c != ID
    ensures Get(SetField(e, c, v), c) == Stored(c, v)
    ensures forall d: Column :: d != c && !d.Selected? ==> Get(SetField(e, c, v), d) == Get(e, d)
  {
  }

  /** The fields of the listed columns are those of the target, the others zero. */
  ghost predicate Rebuilt(e: Entity, target: Entity, columns: seq<Column>) {
    forall c: Column :: !c.Selected? ==> Get(e, c) == if c in columns then Get(target, c) else ZeroField(c)
  }

  /** Storing what createSpec emits and reading any list of columns back, in any
      order and with repetitions, never fails and rebuilds exactly those fields of
      the created entity; the other fields keep their zero value. */
  lemma RowRoundTrip(o: Options, id: int, columns: seq<Column>,
                     marshal: Json -> string, unmarshal: string -> Option<Json>)
    requires WellTyped(o) && Inverse(marshal, unmarshal)
    ensures var cells := ScanRow(columns, Store(SpecOf(o), id), marshal);
      var r := AssignAll(EMPTY, columns, cells, |columns|, unmarshal);
      r.Success? && Rebuilt(r.value, Created(o, id), columns)
  {
    var row, stored := Store(SpecOf(o), id), (c: Column) => RowValue(o, id, c);
    forall c
      ensures Lookup(row, c) == stored(c)
    {
      StoreHolds(o, id, c);
    }
    forall c: Column | !c.Selected?
      ensures stored(c).Some? ==> KindOf(stored(c).value) == FieldKind(c)
      ensures Get(Created(o, id), c) == FieldOf(c, stored(c))
    {
      RowValueKind(o, id, c);
      CreatedHolds(o, id, c);
    }
    ReadRow(stored, Created(o, id), row, columns, marshal, unmarshal);
  }

  lemma ReadRow(stored: Column -> Option<Value>, target: Entity, row: Row, columns: seq<Column>,
                marshal: Json -> string, unmarshal: string -> Option<Json>)
    requires Represents(stored, target) && Inverse(marshal, unmarshal)
    requires forall c :: Lookup(row, c) == stored(c)
    ensures var r := AssignAll(EMPTY, columns, ScanRow(columns, row, marshal), |columns|, unmarshal);
      r.Success? && Rebuilt(r.value, target, columns)
  {
    ReadBack(stored, target, columns, ScanRow(columns, row, marshal), |columns|, marshal, unmarshal);
    assert columns[..|columns|] == columns;
  }

  lemma {:induction false} ReadBack(stored: Column -> Option<Value>, target: Entity, columns: seq<Column>,
                                    cells: seq<Cell>, n: nat,
                                    marshal: Json -> string, unmarshal: string -> Option<Json>)
    requires Represents(stored, target) && Inverse(marshal, unmarshal) && n <= |columns| == |cells|
    requires forall i :: 0 <= i < |columns| ==> cells[i] == Fill(ScanKind(columns[i]), stored(columns[i]), marshal)
    ensures var r := AssignAll(EMPTY, columns, cells, n, unmarshal);
      r.Success? && Rebuilt(r.value, target, columns[..n])
  {
    if n == 0 {
      EmptyRebuilt(target);
    } else {
      ReadBack(stored, target, columns, cells, n - 1, marshal, unmarshal);
      var e := AssignAll(EMPTY, columns, cells, n - 1, unmarshal).value;
      ReadOne(stored, target, e, columns[..n - 1], columns[n - 1], marshal, unmarshal);
      assert columns[..n] == columns[..n - 1] + [columns[n - 1]];
    }
  }

  lemma EmptyRebuilt(target: Entity)
    ensures Rebuilt(EMPTY, target, [])
  {
    forall c: Column | !c.Selected?
      ensures Get(EMPTY, c) == ZeroField(c)
    {
      EmptyIsZero(c);
    }
  }

  /** One more column. */
  lemma ReadOne(stored: Column -> Option<Value>, target: Entity, e: Entity, columns: seq<Column>, c: Column,
                marshal: Json -> string, unmarshal: string -> Option<Json>)
    requires Represents(stored, target) && Inverse(marshal, unmarshal) && Rebuilt(e, target, columns)
    ensures var r := AssignOne(e, c, Fill(ScanKind(c), stored(c), marshal), unmarshal);
      r.Success? && Rebuilt(r.value, target, columns + [c])
  {
    AssignBack(stored, target, e, c, marshal, unmarshal);
  }

  // ---- edges and other names ---------------------------------------------------------------

  /** An edge of a spec: a single target for a key that is set, all identities of a list
      that is not empty. */
  ghost predicate IsEdgeOf(e: EdgeSpec, o: Options) {
    match e.edge
    case UserEdge => e.rel == M2O && o.user.Some? && e.targets == [o.user.value]
    case GroupEdge => e.rel == M2O && o.group.Some? && e.targets == [o.group.value]
    case TeamEdge => e.rel == M2O && o.team.Some? && e.targets == [o.team.value]
    case UsageLogsEdge => e.rel == O2M && o.usageLogs != [] && e.targets == o.usageLogs
    case CompositeGroupsEdge => e.rel == O2M && o.compositeGroups != [] && e.targets == o.compositeGroups
  }

  function Rank(e: Edge): int {
    match e
    case UserEdge => 0 case GroupEdge => 1 case UsageLogsEdge => 2 case CompositeGroupsEdge => 3 case TeamEdge => 4
  }

  /** The edges stand in this order, so each at most once. */
  ghost predicate InOrder(edges: seq<EdgeSpec>) {
    forall i, j :: 0 <= i < j < |edges| ==> Rank(edges[i].edge) < Rank(edges[j].edge)
  }

  /** The spec of a create has exactly the edges that are set, each once and with exactly
      its identities, one-to-many edges included. */
  lemma SpecEdgesAre(o: Options)
    ensures forall e :: e in SpecOf(o).edges <==> IsEdgeOf(e, o)
    ensures InOrder(SpecOf(o).edges)
  {
    var u, g := Unique(UserEdge, o.user), Unique(GroupEdge, o.group);
    var l, k := Many(UsageLogsEdge, o.usageLogs), Many(CompositeGroupsEdge, o.compositeGroups);
    var t := Unique(TeamEdge, o.team);
    forall e
      ensures e in u + g + l + k + t <==> IsEdgeOf(e, o)
    {
      InFive(u, g, l, k, t, e);
      UniqueIs(UserEdge, o.user, e);
      UniqueIs(GroupEdge, o.group, e);
      ManyIs(UsageLogsEdge, o.usageLogs, e);
      ManyIs(CompositeGroupsEdge, o.compositeGroups, e);
      UniqueIs(TeamEdge, o.team, e);
    }
    InTurn(u, g, l, k, t);
  }

  lemma InFive(u: seq<EdgeSpec>, g: seq<EdgeSpec>, l: seq<EdgeSpec>, k: seq<EdgeSpec>, t: seq<EdgeSpec>, e: EdgeSpec)
    ensures e in u + g + l + k + t <==> e in u || e in g || e in l || e in k || e in t
  {
  }

  lemma UniqueIs(edge: Edge, id: Option<int>, e: EdgeSpec)
    ensures e in Unique(edge, id) <==> id.Some? && e == EdgeSpec(M2O, edge, [id.value])
  {
  }

  lemma ManyIs(edge: Edge, ids: seq<int>, e: EdgeSpec)
    ensures e in Many(edge, ids) <==> ids != [] && e == EdgeSpec(O2M, edge, ids)
  {
  }

  /** The list has at most one edge, of this rank. */
  ghost predicate AtMostOne(edges: seq<EdgeSpec>, rank: int) {
    |edges| <= 1 && forall e :: e in edges ==> Rank(e.edge) == rank
  }

  lemma InTurn(u: seq<EdgeSpec>, g: seq<EdgeSpec>, l: seq<EdgeSpec>, k: seq<EdgeSpec>, t: seq<EdgeSpec>)
    requires AtMostOne(u, 0) && AtMostOne(g, 1) && AtMostOne(l, 2) && AtMostOne(k, 3) && AtMostOne(t, 4)
    ensures InOrder(u + g + l + k + t)
  {
    Ascending(u, g, 0, 1);
    Ascending(u + g, l, 1, 2);
    Ascending(u + g + l, k, 2, 3);
    Ascending(u + g + l + k, t, 3, 4);
  }

  /** One more edge of a higher rank. */
  lemma Ascending(a: seq<EdgeSpec>, b: seq<EdgeSpec>, low: int, high: int)
    requires InOrder(a) && InOrder(b) && low < high
    requires forall e :: e in a ==> Rank(e.edge) <= low
    requires forall e :: e in b ==> Rank(e.edge) == high
    ensures InOrder(a + b) && forall e :: e in a + b ==> Rank(e.edge) <= high
  {
    assert forall i :: 0 <= i < |a| ==> a[i] in a;
    assert forall i :: 0 <= i < |b| ==> b[i] in b;
  }

  /** The cell a selected name was read into last, if it was read. */
  ghost predicate IsLastCell(cell: Option<Cell>, columns: seq<Column>, values: seq<Cell>, n: nat, name: string)
    requires n <= |columns| <= |values|
  {
    match cell
    case None => forall i :: 0 <= i < n ==> columns[i] != Selected(name)
    case Some(v) =>
      exists i :: 0 <= i < n && columns[i] == Selected(name) && values[i] == v
                  && forall j :: i < j < n ==> columns[j] != Selected(name)
  }

  /** Every other name that was selected can be looked up afterwards and gives the cell that
      was read for it; no further name can. */
  lemma {:induction false} SelectedAreKept(columns: seq<Column>, values: seq<Cell>, n: nat,
                                           unmarshal: string -> Option<Json>, name: string)
    requires n <= |columns| <= |values| && AssignAll(EMPTY, columns, values, n, unmarshal).Success?
    ensures var kept := AssignAll(EMPTY, columns, values, n, unmarshal).value.selected;
      IsLastCell(if name in kept then Some(kept[name]) else None, columns, values, n, name)
  {
    if n > 0 {
      SelectedAreKept(columns, values, n - 1, unmarshal, name);
      var before := AssignAll(EMPTY, columns, values, n - 1, unmarshal).value;
      OneSelected(before, columns[n - 1], values[n - 1], unmarshal);
    }
  }

  lemma OneSelected(e: Entity, c: Column, cell: Cell, unmarshal: string -> Option<Json>)
    requires AssignOne(e, c, cell, unmarshal).Success?
    ensures AssignOne(e, c, cell, unmarshal).value.selected
      == if c.Selected? then e.selected[c.name := cell] else e.selected
  {
  }

  /** The cell has the type that the struct field of the column needs. */
  predicate Fits(c: Column, cell: Cell) {
    match cell
    case Bytes(_) => FieldKind(c) == KJson
    case Cell(kind, _) => FieldKind(c) == kind
  }

  /** What the cell says about the field: NULL says nothing, except that an identity is then
      zero, and nor does empty JSON. */
  function SaidBy(c: Column, cell: Cell, unmarshal: string -> Option<Json>): Option<Field> {
    match cell
    case Bytes(text) =>
      if text.Or("") == "" || unmarshal(text.value).None? then None else Some(Plain(VJson(unmarshal(text.value).value)))
    case Cell(_, None) => if c == ID then Some(Plain(VInt(0))) else None
    case Cell(_, Some(v)) => Some(if IsPointer(c) then Ptr(Some(v)) else Plain(v))
  }

  /** The error of a column: the cell is of another type, or is text that is no JSON. */
  predicate IsErrorOf(err: Option<AssignError>, c: Column, cell: Cell, unmarshal: string -> Option<Json>) {
    if !Fits(c, cell) then err == Some(UnexpectedType(c))
    else if cell.Bytes? && cell.text.Or("") != "" && unmarshal(cell.text.value) == None then err == Some(BadJson(c))
    else err == None
  }

  /** Of the fields only c's has changed, to what was said, if anything was. */
  ghost predicate Changed(e': Entity, e: Entity, c: Column, said: Option<Field>) {
    && Get(e', c) == said.Or(Get(e, c)) && e'.selected == e.selected
    && forall d: Column :: d != c && !d.Selected? ==> Get(e', d) == Get(e, d)
  }

  /** Assigning one table column, whatever cell is given: it fails on a cell of another type
      or on text that is no JSON, and otherwise sets the column's field to what the cell
      says, if anything, and no other. */
  lemma OneColumn(e: Entity, c: Column, cell: Cell, unmarshal: string -> Option<Json>)
    requires !c.Selected?
    requires cell.Cell? && cell.value.Some? ==> KindOf(cell.value.value) == cell.kind != KJson
    ensures match AssignOne(e, c, cell, unmarshal)
      case Failure(err) => IsErrorOf(Some(err), c, cell, unmarshal)
      case Success(e') => IsErrorOf(None, c, cell, unmarshal) && Changed(e', e, c, SaidBy(c, cell, unmarshal))
  {
    KindsAgree(c);
    if Fits(c, cell) {
      match cell
      case Bytes(text) => JsonColumn(e, c, text, unmarshal);
      case Cell(kind, value) => TypedColumn(e, c, kind, value, unmarshal);
    }
  }

  lemma JsonColumn(e: Entity, c: Column, text: Option<string>, unmarshal: string -> Option<Json>)
    requires AssertedKind(c) == FieldKind(c) == KJson
    ensures var r := AssignOne(e, c, Bytes(text), unmarshal);
      && IsErrorOf(if r.Failure? then Some(r.error) else None, c, Bytes(text), unmarshal)
      && (r.Success? ==> Changed(r.value, e, c, SaidBy(c, Bytes(text), unmarshal)))
  {
    JsonIsAttr(c);
    if text.Or("") != "" && unmarshal(text.value).Some? {
      AttrSet(e, c, Plain(VJson(unmarshal(text.value).value)));
    }
  }

  lemma JsonIsAttr(c: Column)
    requires FieldKind(c) == KJson
    ensures IsAttr(c) && c != ID && !c.Selected?
  {
  }

  lemma AttrSet(e: Entity, c: Column, f: Field)
    requires IsAttr(c)
    ensures Changed(e.(attrs := e.attrs[c := f]), e, c, Some(f))
  {
  }

  lemma TypedColumn(e: Entity, c: Column, kind: Kind, value: Option<Value>, unmarshal: string -> Option<Json>)
    requires !c.Selected? && AssertedKind(c) == FieldKind(c) == kind
    requires value.Some? ==> KindOf(value.value) == kind
    ensures var r := AssignOne(e, c, Cell(kind, value), unmarshal);
      r.Success? && Changed(r.value, e, c, SaidBy(c, Cell(kind, value), unmarshal))
  {
    if c != ID && value.Some? {
      SetFieldGet(e, c, value.value);
      SelectedStays(e, c, value.value);
    }
  }

  lemma SelectedStays(e: Entity, c: Column, v: Value)
    ensures SetField(e, c, v).selected == e.selected
  {
  }
}
