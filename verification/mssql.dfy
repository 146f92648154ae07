/** The SQL Server connection registry: connecting (with TLS unless it is
    switched off), disconnecting, and the shape of query and execute results.
    The network, TLS and the database are represented by what they report. */
module Mssql {
  import opened Wrappers
  import opened Primitives
  import opened Decimal
  import opened Json

  datatype MssqlConfig = MssqlConfig(
    host: string,
    port: Port,
    database: string,
    username: string,
    password: string,
    encrypt: Option<bool>,
    trustCert: Option<bool>)

  datatype MssqlError =
    | Timeout
    | ConnectionError
    | TcpError
    | TlsError
    | AuthError
    | ConnectionNotFound
    | QueryError
    | ExecuteError

  function Code(e: MssqlError): string {
    match e
    case Timeout => "TIMEOUT"
    case ConnectionError => "CONNECTION_ERROR"
    case TcpError => "TCP_ERROR"
    case TlsError => "TLS_ERROR"
    case AuthError => "AUTH_ERROR"
    case ConnectionNotFound => "CONNECTION_NOT_FOUND"
    case QueryError => "QUERY_ERROR"
    case ExecuteError => "EXECUTE_ERROR"
  }

  /** A registered client; `encrypted` says whether it talks through TLS. */
  datatype ConnectionHandle = ConnectionHandle(encrypted: bool)

  datatype MssqlManager = MssqlManager(connections: map<string, ConnectionHandle>, nextId: nat)

  const Initial := MssqlManager(map[], 1)

  const MssqlPrefix := "mssql-"

  function ConnectionId(n: nat): string {
    FormatId(MssqlPrefix, n)
  }

  // ---------------------------------------------------------------------------
  // Connecting.

  datatype TcpOutcome = TcpTimedOut | TcpFailed | TcpConnected

  /** What the network and the server report: the TCP connect, switching off
      Nagle's algorithm, whether a TLS handshake would succeed and whether the
      server's certificate is valid, and whether the login is accepted. */
  datatype MssqlServer = MssqlServer(
    tcp: TcpOutcome,
    nodelayOk: bool,
    tlsHandshakeOk: bool,
    certificateValid: bool,
    loginOk: bool)

  /** Encryption is on unless the configuration switches it off. */
  predicate UseEncryption(config: MssqlConfig) {
    config.encrypt.GetOr(true)
  }

  /** Invalid certificates are accepted unless the configuration says not to. */
  predicate AcceptInvalidCerts(config: MssqlConfig) {
    config.trustCert.GetOr(true)
  }

  /** The TLS handshake succeeds when the server completes it and its certificate
      is valid or invalid certificates are accepted. */
  predicate TlsSucceeds(config: MssqlConfig, server: MssqlServer) {
    server.tlsHandshakeOk && (server.certificateValid || AcceptInvalidCerts(config))
  }

  datatype Step<R> = Step(reply: Result<R, MssqlError>, manager: MssqlManager)

  function Connect(m: MssqlManager, config: MssqlConfig, server: MssqlServer): (r: Step<string>)
    ensures server.tcp == TcpTimedOut ==> r.reply == Failure(Timeout)
    ensures server.tcp == TcpFailed ==> r.reply == Failure(ConnectionError)
    ensures server.tcp == TcpConnected && !server.nodelayOk ==> r.reply == Failure(TcpError)
    ensures (server.tcp == TcpConnected && server.nodelayOk && UseEncryption(config)
             && !TlsSucceeds(config, server)) ==> r.reply == Failure(TlsError)
    ensures r.reply == Failure(AuthError) <==>
              && server.tcp == TcpConnected && server.nodelayOk
              && (UseEncryption(config) ==> TlsSucceeds(config, server)) && !server.loginOk
    // Explicitly switching encryption off bypasses TLS entirely.
    ensures config.encrypt == Some(false) && server.tcp == TcpConnected && server.nodelayOk ==>
              r.reply.Success? == server.loginOk
    ensures r.reply.Success? <==>
              && server.tcp == TcpConnected && server.nodelayOk
              && (UseEncryption(config) ==> TlsSucceeds(config, server)) && server.loginOk
    ensures r.reply.Failure? ==> r.manager == m
    ensures r.reply.Success? ==>
              && r.reply.value == ConnectionId(m.nextId)
              && r.manager.nextId == m.nextId + 1
              && r.manager.connections == m.connections[r.reply.value := ConnectionHandle(UseEncryption(config))]
  {
    match server.tcp
    case TcpTimedOut => Step(Failure(Timeout), m)
    case TcpFailed => Step(Failure(ConnectionError), m)
    case TcpConnected =>
      if !server.nodelayOk then Step(Failure(TcpError), m)
      else
        var encrypted := UseEncryption(config);
        if encrypted && !TlsSucceeds(config, server) then Step(Failure(TlsError), m)
        else if !server.loginOk then Step(Failure(AuthError), m)
        else
          var id := ConnectionId(m.nextId);
          Step(Success(id), MssqlManager(m.connections[id := ConnectionHandle(encrypted)], m.nextId + 1))
  }

  function Disconnect(m: MssqlManager, id: string): (r: Step<()>)
    ensures id in m.connections ==> r.reply.Success? && r.manager.connections == m.connections - {id}
    ensures id !in m.connections ==> r == Step(Failure(ConnectionNotFound), m)
    ensures r.manager.nextId == m.nextId
    ensures id !in r.manager.connections
  {
    if id in m.connections then Step(Success(()), m.(connections := m.connections - {id}))
    else Step(Failure(ConnectionNotFound), m)
  }

  // ---------------------------------------------------------------------------
  // Query and execute results.

  /** One column of a result row, with the value the type probing produced. */
  datatype Column = Column(name: string, value: Json)

  type Row = seq<Column>

  /** The value read for `name`: a lookup by column name finds the first column
      of that name, and a name no column carries reads as null. */
  function ValueByName(row: Row, name: string): Json
    decreases |row|
  {
    if |row| == 0 then JNull
    else if row[0].name == name then row[0].value
    else ValueByName(row[1..], name)
  }

  /** The object after inserting the first `k` columns, each under its name with
      the value read back by that name. */
  function InsertColumns(row: Row, k: nat): map<string, Json>
    requires k <= |row|
    decreases k
  {
    if k == 0 then map[]
    else InsertColumns(row, k - 1)[row[k - 1].name := ValueByName(row, row[k - 1].name)]
  }

  /** A row as a JSON object: every column inserted in order. */
  function RowObject(row: Row): map<string, Json> {
    InsertColumns(row, |row|)
  }

  function ColumnNames(row: Row): (names: seq<string>)
    ensures |names| == |row|
    ensures forall i | 0 <= i < |row| :: names[i] == row[i].name
  {
    seq(|row|, i requires 0 <= i < |row| => row[i].name)
  }

  /** True iff no column before position `i` has the same name as column `i`. */
  predicate FirstWithName(row: Row, i: int)
    requires 0 <= i < |row|
  {
    forall j | 0 <= j < i :: row[j].name != row[i].name
  }

  /** The set of column names of a row. */
  function NameSet(row: Row): set<string> {
    set i | 0 <= i < |row| :: row[i].name
  }

  lemma NameSetOfInit(row: Row)
    requires |row| > 0
    ensures NameSet(row) == NameSet(row[..|row| - 1]) + {row[|row| - 1].name}
  {
    var init := row[..|row| - 1];
    forall x | x in NameSet(row)
      ensures x in NameSet(init) + {row[|row| - 1].name}
    {
      var i :| 0 <= i < |row| && row[i].name == x;
      if i < |init| {
        assert init[i].name == x;
      }
    }
    forall x | x in NameSet(init)
      ensures x in NameSet(row)
    {
      var i :| 0 <= i < |init| && init[i].name == x;
      assert row[i].name == x;
    }
  }

  lemma {:induction false} InsertColumnsSpec(row: Row, k: nat)
    requires k <= |row|
    ensures InsertColumns(row, k).Keys == NameSet(row[..k])
    ensures forall n | n in InsertColumns(row, k) :: InsertColumns(row, k)[n] == ValueByName(row, n)
    decreases k
  {
    if k > 0 {
      InsertColumnsSpec(row, k - 1);
      NameSetOfInit(row[..k]);
      assert row[..k][..k - 1] == row[..k - 1];
    }
  }

  /** The object has one key per distinct column name. */
  lemma RowObjectKeys(row: Row)
    ensures RowObject(row).Keys == NameSet(row)
  {
    InsertColumnsSpec(row, |row|);
    assert row[..|row|] == row;
  }

  /** Reading by name finds the first column of that name. */
  lemma {:induction false} ValueByNameFindsFirst(row: Row, i: int)
    requires 0 <= i < |row| && FirstWithName(row, i)
    ensures ValueByName(row, row[i].name) == row[i].value
    decreases i
  {
    if i > 0 {
      assert row[0].name != row[i].name;
      assert row[1..][i - 1] == row[i];
      ValueByNameFindsFirst(row[1..], i - 1);
    }
  }

  /** Each key holds the value of the first column of that name, so a repeated
      name shows the first column's value in every position. */
  lemma RowObjectKeepsFirstColumn(row: Row)
    ensures forall i | 0 <= i < |row| :: row[i].name in RowObject(row)
    ensures forall i | 0 <= i < |row| && FirstWithName(row, i) :: RowObject(row)[row[i].name] == row[i].value
  {
    RowObjectKeys(row);
    InsertColumnsSpec(row, |row|);
    forall i | 0 <= i < |row|
      ensures row[i].name in RowObject(row)
    {
      assert row[i].name in NameSet(row);
    }
    forall i | 0 <= i < |row| && FirstWithName(row, i)
      ensures RowObject(row)[row[i].name] == row[i].value
    {
      ValueByNameFindsFirst(row, i);
    }
  }

  datatype QueryResult = QueryResult(columns: seq<string>, rows: seq<Json>, rowsAffected: nat)

  /** What the server answers to a statement. */
  datatype QueryOutcome = QueryFailed | Rows(rows: seq<Row>)
  datatype ExecuteOutcome = ExecuteFailed | Affected(counts: seq<nat>)

  function Sum(counts: seq<nat>): nat
    decreases |counts|
  {
    if |counts| == 0 then 0 else counts[0] + Sum(counts[1..])
  }

  function Query(m: MssqlManager, id: string, outcome: QueryOutcome): (r: Result<QueryResult, MssqlError>)
    ensures id !in m.connections ==> r == Failure(ConnectionNotFound)
    ensures id in m.connections && outcome.QueryFailed? ==> r == Failure(QueryError)
    ensures id in m.connections && outcome.Rows? ==> r.Success?
    ensures r.Success? ==>
              && id in m.connections && outcome.Rows?
              && r.value.rowsAffected == 0
              && |r.value.rows| == |outcome.rows|
              && (forall i | 0 <= i < |outcome.rows| :: r.value.rows[i] == JObject(RowObject(outcome.rows[i])))
              && (if |outcome.rows| == 0 then r.value.columns == [] else r.value.columns == ColumnNames(outcome.rows[0]))
  {
    if id !in m.connections then Failure(ConnectionNotFound)
    else
      match outcome
      case QueryFailed => Failure(QueryError)
      case Rows(rows) =>
        var columns := if |rows| == 0 then [] else ColumnNames(rows[0]);
        Success(QueryResult(columns, seq(|rows|, i requires 0 <= i < |rows| => JObject(RowObject(rows[i]))), 0))
  }

  function Execute(m: MssqlManager, id: string, outcome: ExecuteOutcome): (r: Result<QueryResult, MssqlError>)
    ensures id !in m.connections ==> r == Failure(ConnectionNotFound)
    ensures id in m.connections && outcome.ExecuteFailed? ==> r == Failure(ExecuteError)
    ensures id in m.connections && outcome.Affected? ==> r.Success?
    ensures r.Success? ==>
              && id in m.connections && outcome.Affected?
              && r.value.columns == [] && r.value.rows == []
              && r.value.rowsAffected == Sum(outcome.counts)
  {
    if id !in m.connections then Failure(ConnectionNotFound)
    else
      match outcome
      case ExecuteFailed => Failure(ExecuteError)
      case Affected(counts) => Success(QueryResult([], [], Sum(counts)))
  }

  /** Each statement's count contributes to the total, so the total is at least as
      large as any one of them. */
  lemma {:induction false} SumBoundsEachCount(counts: seq<nat>, i: nat)
    requires i < |counts|
    ensures counts[i] <= Sum(counts)
    decreases |counts|
  {
    if i > 0 {
      SumBoundsEachCount(counts[1..], i - 1);
    }
  }

  // ---------------------------------------------------------------------------
  // The registry over a sequence of commands.

  /** Every registered id is `mssql-<n>` for a counter value already handed out. */
  ghost predicate Valid(m: MssqlManager) {
    && 1 <= m.nextId
    && forall id | id in m.connections ::
         ParseId(MssqlPrefix, id).Some? && 1 <= ParseId(MssqlPrefix, id).value < m.nextId
  }

  /** The next id is never already registered. */
  lemma FreshIdUnused(m: MssqlManager)
    requires Valid(m)
    ensures ConnectionId(m.nextId) !in m.connections
  {
    IdRoundTrip(MssqlPrefix, m.nextId);
  }

  datatype Command =
    | ConnectCommand(config: MssqlConfig, server: MssqlServer)
    | DisconnectCommand(id: string)

  /** The registry after a sequence of commands, and the ids handed out, in order. */
  datatype Session = Session(manager: MssqlManager, issued: seq<string>)

  function RunCommand(s: Session, c: Command): Session {
    match c
    case ConnectCommand(config, server) =>
      var step := Connect(s.manager, config, server);
      Session(step.manager, s.issued + if step.reply.Success? then [step.reply.value] else [])
    case DisconnectCommand(id) => Session(Disconnect(s.manager, id).manager, s.issued)
  }

  function Run(cs: seq<Command>): Session
    decreases |cs|
  {
    if |cs| == 0 then Session(Initial, []) else RunCommand(Run(cs[..|cs| - 1]), cs[|cs| - 1])
  }

  ghost predicate SessionInvariant(s: Session) {
    && Valid(s.manager)
    && s.manager.nextId == |s.issued| + 1
    && (forall i | 0 <= i < |s.issued| :: s.issued[i] == ConnectionId(i + 1))
    && forall id | id in s.manager.connections :: id in s.issued
  }

  lemma CommandKeepsInvariant(s: Session, c: Command)
    requires SessionInvariant(s)
    ensures SessionInvariant(RunCommand(s, c))
  {
    var m := s.manager;
    match c
    case ConnectCommand(config, server) =>
      var step := Connect(m, config, server);
      if step.reply.Success? {
        var id := ConnectionId(m.nextId);
        IdRoundTrip(MssqlPrefix, m.nextId);
        forall x | x in step.manager.connections
          ensures ParseId(MssqlPrefix, x).Some? && 1 <= ParseId(MssqlPrefix, x).value < step.manager.nextId
        {
        }
        var t := RunCommand(s, c);
        forall i | 0 <= i < |t.issued|
          ensures t.issued[i] == ConnectionId(i + 1)
        {
          if i < |s.issued| {
            assert t.issued[i] == s.issued[i];
          }
        }
      }
    case DisconnectCommand(id) =>
  }

  /** After any sequence of commands, the n-th id handed out is `mssql-<n>` and
      every registered id is one of them. */
  lemma {:induction false} RunKeepsInvariant(cs: seq<Command>)
    ensures SessionInvariant(Run(cs))
    decreases |cs|
  {
    if |cs| > 0 {
      RunKeepsInvariant(cs[..|cs| - 1]);
      CommandKeepsInvariant(Run(cs[..|cs| - 1]), cs[|cs| - 1]);
    }
  }

  /** No id is ever handed out twice, even after the connection holding it is
      dropped. */
  lemma IdsNeverReused(cs: seq<Command>, i: nat, j: nat)
    requires i < j < |Run(cs).issued|
    ensures Run(cs).issued[i] != Run(cs).issued[j]
  {
    RunKeepsInvariant(cs);
    FormatIdInjective(MssqlPrefix, i + 1, j + 1);
  }
}
