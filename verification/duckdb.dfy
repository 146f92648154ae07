/** The DuckDB connection registry: opening a file or in-memory database,
    disconnecting, and shaping query results into rows of JSON values. */
module DuckDb {
  import opened Wrappers
  import opened Primitives
  import opened Decimal
  import opened Json
  import Base64

  // ---------------------------------------------------------------------------
  // Values.

  /** The composite and temporal variants, which are reported through their
      debug rendering. */
  datatype RenderedKind = Time64 | Timestamp | Interval | List | Enum | Struct | Map | Array | Union

  /** A value as the database hands it over.  Integer variants carry their value;
      a decimal carries its text; text carries its raw bytes; a composite or
      temporal value carries its debug rendering. */
  datatype ValueRef =
    | Null
    | Boolean(b: bool)
    | TinyInt(i: int)
    | SmallInt(i: int)
    | Int(i: int)
    | BigInt(i: int)
    | HugeInt(i: int)
    | UTinyInt(i: int)
    | USmallInt(i: int)
    | UInt(i: int)
    | UBigInt(i: int)
    | DecimalValue(text: string)
    | Text(bytes: Bytes)
    | Blob(bytes: Bytes)
    | Date32(days: int)
    | Rendered(kind: RenderedKind, debug: string)

  /** The integer variants that become JSON numbers (128-bit integers excluded). */
  predicate IsNumericVariant(v: ValueRef) {
    v.TinyInt? || v.SmallInt? || v.Int? || v.BigInt? || v.UTinyInt? || v.USmallInt? || v.UInt? || v.UBigInt?
  }

  /** The JSON value for one database value.  `lossy` is the UTF-8 decoding that
      replaces invalid sequences, left abstract. */
  function ConvertValue(v: ValueRef, lossy: Bytes -> string): (j: Json)
    ensures j == JNull <==> v.Null?
    ensures KindOf(j) == BoolKind <==> v.Boolean?
    ensures KindOf(j) == NumberKind <==> IsNumericVariant(v) || v.Date32?
    ensures KindOf(j) == StringKind <==> v.HugeInt? || v.DecimalValue? || v.Text? || v.Blob? || v.Rendered?
    ensures KindOf(j) != ObjectKind
    ensures IsNumericVariant(v) ==> j == JNumber(v.i)
  {
    match v
    case Null => JNull
    case Boolean(b) => JBool(b)
    case TinyInt(i) => JNumber(i)
    case SmallInt(i) => JNumber(i)
    case Int(i) => JNumber(i)
    case BigInt(i) => JNumber(i)
    case HugeInt(i) => JString(IntToString(i))
    case UTinyInt(i) => JNumber(i)
    case USmallInt(i) => JNumber(i)
    case UInt(i) => JNumber(i)
    case UBigInt(i) => JNumber(i)
    case DecimalValue(text) => JString(text)
    case Text(bytes) => JString(lossy(bytes))
    case Blob(bytes) => JString(Base64.Encode(bytes))
    case Date32(days) => JNumber(days)
    case Rendered(_, debug) => JString(debug)
  }

  /** A 128-bit integer is sent as its decimal text, which reads back as the same
      number. */
  lemma HugeIntReadsBack(i: int, lossy: Bytes -> string)
    ensures ConvertValue(HugeInt(i), lossy).JString?
    ensures ParseInt(ConvertValue(HugeInt(i), lossy).s) == Some(i)
  {
    IntRoundTrip(i);
  }

  /** A blob is sent as standard base64, which decodes back to the same bytes. */
  lemma BlobReadsBack(b: Bytes, lossy: Bytes -> string)
    ensures ConvertValue(Blob(b), lossy).JString?
    ensures Base64.Decode(ConvertValue(Blob(b), lossy).s) == Some(b)
  {
    Base64.DecodeEncode(b);
  }

  /** Different blobs give different strings. */
  lemma BlobsStayDistinct(a: Bytes, b: Bytes, lossy: Bytes -> string)
    requires a != b
    ensures ConvertValue(Blob(a), lossy) != ConvertValue(Blob(b), lossy)
  {
    Base64.EncodeInjective(a, b);
  }

  // ---------------------------------------------------------------------------
  // The registry.

  /** The database a path names: the empty path and `:memory:` both mean a fresh
      in-memory database. */
  datatype Database = InMemory | File(path: string)

  function DatabaseFor(path: string): (d: Database)
    ensures d == InMemory <==> path == ":memory:" || path == ""
    ensures d.File? ==> d.path == path
  {
    if path == ":memory:" || |path| == 0 then InMemory else File(path)
  }

  /** Which databases open: an in-memory one when `memoryOpens`, a file when its
      path is in `openableFiles`. */
  datatype DuckWorld = DuckWorld(memoryOpens: bool, openableFiles: set<string>)

  predicate Opens(d: Database, world: DuckWorld) {
    match d
    case InMemory => world.memoryOpens
    case File(path) => path in world.openableFiles
  }

  /** The errors a command reports: an unknown id (reported as "Connection not
      found"), or whatever the database library reports. */
  datatype DuckError = ConnectionNotFound | DatabaseError

  datatype DuckState = DuckState(connections: map<string, Database>)

  const Initial := DuckState(map[])

  const DuckPrefix := "duckdb-"

  datatype Step<R> = Step(reply: Result<R, DuckError>, state: DuckState)

  /** Opens the database `path` names and files it under `duckdb-` followed by the
      freshly generated `uuid`. */
  function Connect(s: DuckState, path: string, world: DuckWorld, uuid: string): (r: Step<string>)
    ensures r.reply.Success? <==> Opens(DatabaseFor(path), world)
    ensures r.reply.Failure? ==> r == Step(Failure(DatabaseError), s)
    ensures r.reply.Success? ==>
              && r.reply.value == DuckPrefix + uuid
              && r.state.connections == s.connections[r.reply.value := DatabaseFor(path)]
  {
    var d := DatabaseFor(path);
    if !Opens(d, world) then Step(Failure(DatabaseError), s)
    else
      var id := DuckPrefix + uuid;
      Step(Success(id), DuckState(s.connections[id := d]))
  }

  /** Opens the database `path` names and drops it again. */
  function Test(path: string, world: DuckWorld): (r: Result<(), DuckError>)
    ensures r.Success? <==> Opens(DatabaseFor(path), world)
  {
    if Opens(DatabaseFor(path), world) then Success(()) else Failure(DatabaseError)
  }

  /** Testing a path succeeds exactly when connecting to it would. */
  lemma TestAgreesWithConnect(s: DuckState, path: string, world: DuckWorld, uuid: string)
    ensures Test(path, world).Success? <==> Connect(s, path, world, uuid).reply.Success?
  {
  }

  /** With a fresh id, a connect adds exactly one entry and keeps the others. */
  lemma ConnectAddsOneEntry(s: DuckState, path: string, world: DuckWorld, uuid: string)
    requires DuckPrefix + uuid !in s.connections
    requires Opens(DatabaseFor(path), world)
    ensures |Connect(s, path, world, uuid).state.connections| == |s.connections| + 1
    ensures forall id | id in s.connections :: Connect(s, path, world, uuid).state.connections[id] == s.connections[id]
  {
  }

  /** Disconnecting always succeeds; an unknown id is no error. */
  function Disconnect(s: DuckState, id: string): (r: Step<()>)
    ensures r.reply.Success?
    ensures r.state.connections == s.connections - {id}
    ensures id !in s.connections ==> r.state == s
  {
    Step(Success(()), DuckState(s.connections - {id}))
  }

  // ---------------------------------------------------------------------------
  // Queries.

  /** What running a statement reports: whether it prepares and executes, the
      column count (`None` when the executed statement is unavailable), the names
      that can be read, the rows (each as many values as the database row holds),
      and whether fetching after the last row fails. */
  datatype QueryFacts = QueryFacts(
    prepares: bool,
    executes: bool,
    columnCount: Option<nat>,
    columnNames: map<nat, string>,
    rows: seq<seq<ValueRef>>,
    fetchFailsAtEnd: bool)

  datatype QueryResult = QueryResult(columns: seq<string>, rows: seq<seq<Json>>)

  function Width(q: QueryFacts): nat {
    q.columnCount.GetOr(0)
  }

  function ColumnName(q: QueryFacts, i: nat): string {
    if i in q.columnNames then q.columnNames[i] else ""
  }

  /** True iff every database row holds a value for each column. */
  predicate RowsWideEnough(q: QueryFacts) {
    forall i | 0 <= i < |q.rows| :: Width(q) <= |q.rows[i]|
  }

  /** Converts the first `width` values of a row. */
  method ShapeRow(row: seq<ValueRef>, width: nat, lossy: Bytes -> string) returns (r: Option<seq<Json>>)
    ensures r.Some? <==> width <= |row|
    ensures r.Some? ==> |r.value| == width && forall j | 0 <= j < width :: r.value[j] == ConvertValue(row[j], lossy)
  {
    var values: seq<Json> := [];
    for j := 0 to width
      invariant j == 0 || j <= |row|
      invariant |values| == j
      invariant forall k | 0 <= k < j :: k < |row| && values[k] == ConvertValue(row[k], lossy)
    {
      if j >= |row| {
        return None;
      }
      values := values + [ConvertValue(row[j], lossy)];
    }
    return Some(values);
  }

  method Query(s: DuckState, id: string, q: QueryFacts, lossy: Bytes -> string) returns (r: Result<QueryResult, DuckError>)
    ensures r == Failure(ConnectionNotFound) <==> id !in s.connections
    ensures id in s.connections && r.Failure? ==> r == Failure(DatabaseError)
    ensures r.Success? <==> id in s.connections && q.prepares && q.executes && RowsWideEnough(q) && !q.fetchFailsAtEnd
    ensures r.Success? ==>
              && |r.value.columns| == Width(q)
              && (forall i | 0 <= i < Width(q) :: r.value.columns[i] == ColumnName(q, i))
              && |r.value.rows| == |q.rows|
              && (forall i | 0 <= i < |q.rows| :: |r.value.rows[i]| == Width(q))
              && (forall i, j | 0 <= i < |q.rows| && 0 <= j < Width(q) ::
                    r.value.rows[i][j] == ConvertValue(q.rows[i][j], lossy))
  {
    if id !in s.connections {
      return Failure(ConnectionNotFound);
    }
    if !q.prepares || !q.executes {
      return Failure(DatabaseError);
    }
    var width := Width(q);
    var columns := seq(width, i requires 0 <= i < width => ColumnName(q, i));
    var rows: seq<seq<Json>> := [];
    for i := 0 to |q.rows|
      invariant |rows| == i
      invariant forall k | 0 <= k < i :: width <= |q.rows[k]|
      invariant forall k | 0 <= k < i :: |rows[k]| == width
      invariant forall k, j | 0 <= k < i && 0 <= j < width :: rows[k][j] == ConvertValue(q.rows[k][j], lossy)
    {
      var shaped := ShapeRow(q.rows[i], width, lossy);
      if shaped.None? {
        return Failure(DatabaseError);
      }
      rows := rows + [shaped.value];
    }
    if q.fetchFailsAtEnd {
      return Failure(DatabaseError);
    }
    return Success(QueryResult(columns, rows));
  }

  function Execute(s: DuckState, id: string, affected: Option<nat>): (r: Result<nat, DuckError>)
    ensures r == Failure(ConnectionNotFound) <==> id !in s.connections
    ensures id in s.connections ==> r == (if affected.Some? then Success(affected.value) else Failure(DatabaseError))
  {
    if id !in s.connections then Failure(ConnectionNotFound)
    else if affected.None? then Failure(DatabaseError)
    else Success(affected.value)
  }

  // ---------------------------------------------------------------------------
  // Sessions.

  /** A connect (with what the database reports and the uuid it is filed under)
      or a disconnect. */
  datatype DuckCommand =
    | ConnectCmd(path: string, world: DuckWorld, uuid: string)
    | DisconnectCmd(id: string)

  function RunCommand(s: DuckState, c: DuckCommand): DuckState {
    match c
    case ConnectCmd(path, world, uuid) => Connect(s, path, world, uuid).state
    case DisconnectCmd(id) => Disconnect(s, id).state
  }

  function RunCommands(s: DuckState, cmds: seq<DuckCommand>): DuckState
    decreases |cmds|
  {
    if |cmds| == 0 then s else RunCommand(RunCommands(s, cmds[..|cmds| - 1]), cmds[|cmds| - 1])
  }

  /** What the latest command concerning `id` did to it: `Some(true)` for a
      successful connect filed under `id`, `Some(false)` for a disconnect of `id`,
      `None` when no command concerned it. */
  function LatestWord(cmds: seq<DuckCommand>, id: string): Option<bool>
    decreases |cmds|
  {
    if |cmds| == 0 then None
    else
      var c := cmds[|cmds| - 1];
      if c.DisconnectCmd? && c.id == id then Some(false)
      else if c.ConnectCmd? && DuckPrefix + c.uuid == id && Opens(DatabaseFor(c.path), c.world) then Some(true)
      else LatestWord(cmds[..|cmds| - 1], id)
  }

  /** After any session, an id is registered (so queries and statements on it do
      not report "Connection not found") exactly when the latest command concerning
      it was a successful connect, or, if none did, when it was registered before. */
  lemma {:induction false} RegisteredIffLatestConnect(s: DuckState, cmds: seq<DuckCommand>, id: string)
    ensures id in RunCommands(s, cmds).connections <==> LatestWord(cmds, id).GetOr(id in s.connections)
    ensures Execute(RunCommands(s, cmds), id, None) == Failure(ConnectionNotFound)
            <==> !LatestWord(cmds, id).GetOr(id in s.connections)
    decreases |cmds|
  {
    if |cmds| > 0 {
      RegisteredIffLatestConnect(s, cmds[..|cmds| - 1], id);
      var c := cmds[|cmds| - 1];
      match c
      case ConnectCmd(path, world, uuid) =>
        var t := RunCommands(s, cmds[..|cmds| - 1]);
        assert RunCommands(s, cmds) == Connect(t, path, world, uuid).state;
      case DisconnectCmd(x) =>
    }
  }
}
