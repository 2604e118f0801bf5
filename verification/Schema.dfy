/** The APIKey entity: its columns, field values, loaded edges and the object
    that queries fill and builders return. */
module Schema {
  import opened Wrappers

  /** The 35 table columns; Selected is any other name a query may select. */
  datatype Column =
    | ID | CreatedAt | UpdatedAt | DeletedAt | UserID | TeamID | TeamOwnerDisabled
    | Key | Name | GroupID | IsComposite | Status | FastModePolicy | BillingMode
    | PreferredSubscriptionID | ModelMapping | LastUsedAt | IPWhitelist | IPBlacklist
    | Quota | QuotaUsed | ExpiresAt | ConcurrencyLimit | RpmLimit
    | RateLimit5h | RateLimit1d | RateLimit7d | Usage5h | Usage1d | Usage7d
    | Window5hStart | Window1dStart | Window7dStart
    | FallbackWhenGroupUnavailable | ManagedBy
    | Selected(name: string)

  /** The Go values of the two JSON shapes the table stores. */
  datatype Json = Nil | Mapping(m: map<string, string>) | Strings(s: seq<string>)

  datatype Value =
    | VTime(t: int) | VBool(b: bool) | VInt(n: int) | VFloat(x: real) | VString(s: string) | VJson(j: Json)

  datatype Kind = KTime | KBool | KInt | KFloat | KString | KJson | KUnknown

  function KindOf(v: Value): Kind {
    match v
    case VTime(_) => KTime
    case VBool(_) => KBool
    case VInt(_) => KInt
    case VFloat(_) => KFloat
    case VString(_) => KString
    case VJson(_) => KJson
  }

  /** A struct field: a plain value, or a pointer that may be nil. */
  datatype Field = Plain(v: Value) | Ptr(p: Option<Value>)

  /** The kind of a column's struct field. */
  function FieldKind(c: Column): Kind {
    match c
    case CreatedAt => KTime case UpdatedAt => KTime case DeletedAt => KTime case LastUsedAt => KTime
    case ExpiresAt => KTime case Window5hStart => KTime case Window1dStart => KTime case Window7dStart => KTime
    case ID => KInt case UserID => KInt case TeamID => KInt case GroupID => KInt
    case PreferredSubscriptionID => KInt case ConcurrencyLimit => KInt case RpmLimit => KInt
    case TeamOwnerDisabled => KBool case IsComposite => KBool case FallbackWhenGroupUnavailable => KBool
    case Key => KString case Name => KString case Status => KString case FastModePolicy => KString
    case BillingMode => KString case ManagedBy => KString
    case ModelMapping => KJson case IPWhitelist => KJson case IPBlacklist => KJson
    case Quota => KFloat case QuotaUsed => KFloat case RateLimit5h => KFloat case RateLimit1d => KFloat
    case RateLimit7d => KFloat case Usage5h => KFloat case Usage1d => KFloat case Usage7d => KFloat
    case Selected(_) => KUnknown
  }

  /** Whether the struct field is a pointer. */
  predicate IsPointer(c: Column) {
    || c.DeletedAt? || c.TeamID? || c.GroupID? || c.PreferredSubscriptionID? || c.LastUsedAt? || c.ExpiresAt?
    || c.Window5hStart? || c.Window1dStart? || c.Window7dStart? || c.ManagedBy?
  }

  const ZERO_TIME := 0

  function ZeroValue(k: Kind): Value {
    match k
    case KTime => VTime(ZERO_TIME)
    case KBool => VBool(false)
    case KInt => VInt(0)
    case KFloat => VFloat(0.0)
    case KString => VString("")
    case KJson => VJson(Nil)
    case KUnknown => VJson(Nil)
  }

  /** The zero value of a column's struct field. */
  function ZeroField(c: Column): Field {
    if IsPointer(c) then Ptr(None) else Plain(ZeroValue(FieldKind(c)))
  }

  function Stored(c: Column, v: Value): Field {
    if IsPointer(c) then Ptr(Some(v)) else Plain(v)
  }

  /** A cell scanned for a column that is not a table column, or a typed cell. */
  datatype Cell = Cell(kind: Kind, value: Option<Value>) | Bytes(text: Option<string>)

  /** The scalar part of an APIKey. Fields missing from attrs hold their zero value. */
  datatype Entity = Entity(id: int, userID: int, groupID: Option<int>, teamID: Option<int>,
                           attrs: map<Column, Field>, selected: map<string, Cell>)

  const EMPTY := Entity(0, 0, None, None, map[], map[])

  function PtrInt(p: Option<int>): Field {
    if p.Some? then Ptr(Some(VInt(p.value))) else Ptr(None)
  }

  /** The struct field of a table column. */
  function Get(e: Entity, c: Column): Field {
    match c
    case ID => Plain(VInt(e.id))
    case UserID => Plain(VInt(e.userID))
    case GroupID => PtrInt(e.groupID)
    case TeamID => PtrInt(e.teamID)
    case _ => if c in e.attrs then e.attrs[c] else ZeroField(c)
  }

  /** Columns whose field lives in attrs. */
  predicate IsAttr(c: Column) {
    c != ID && c != UserID && c != GroupID && c != TeamID && !c.Selected?
  }

  lemma EmptyIsZero(c: Column)
    ensures Get(EMPTY, c) == ZeroField(c)
  {
  }

  // Neighbors of an APIKey. Only the key that joins them matters here.

  datatype User = User(id: int, email: string)
  datatype Group = Group(id: int, name: string)
  datatype Team = Team(id: int, name: string)
  datatype UsageLog = UsageLog(id: int, apiKeyID: Option<int>)
  datatype CompositeGroup = CompositeGroup(id: int, apiKeyID: int)

  /** Loaded relations; a slice is None while it is nil. */
  datatype Edges = Edges(user: Option<User>, group: Option<Group>, usageLogs: Option<seq<UsageLog>>,
                         compositeGroups: Option<seq<CompositeGroup>>, team: Option<Team>,
                         loadedTypes: seq<bool>)

  const NO_EDGES := Edges(None, None, None, None, None, [false, false, false, false, false])

  class APIKey {
    var data: Entity
    var edges: Edges

    constructor ()
      ensures data == EMPTY && edges == NO_EDGES
    {
      data, edges := EMPTY, NO_EDGES;
    }
  }
}
