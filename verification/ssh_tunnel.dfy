/** The SSH tunnel manager: a registry from tunnel identifier to tunnel handle
    (local port and one-shot shutdown sender) plus the counter the identifiers are
    drawn from, and the commands that open, close, inspect and drain it.

    Everything the manager asks of the outside world (the TCP connect with its
    deadline, the SSH handshake, reading a private key, the server's answer to
    authentication, binding the loopback listener) is an input of type `SshWorld`:
    the model decides what the manager does with each answer, not how the answer
    comes about.  Each command is modelled as one step.  Opening a tunnel in
    fact draws the counter under one lock and inserts the handle under a
    second, so concurrent opens can interleave; the model takes the two as one
    step (see "Left out" in the README). */
module SshTunnel {
  import opened Wrappers
  import opened Primitives
  import Decimal

  datatype TunnelConfig = TunnelConfig(
    sshHost: string,
    sshPort: Port,
    sshUsername: string,
    authMethod: string,
    password: Option<string>,
    keyPath: Option<string>,
    keyPassphrase: Option<string>,
    remoteHost: string,
    remotePort: Port)

  /** The error codes a tunnel command can report. */
  datatype TunnelError =
    | Timeout
    | ConnectionError
    | AuthError
    | AuthFailed
    | KeyNotFound
    | KeyLoadError
    | InvalidAuthMethod
    | BindError
    | TunnelNotFound

  /** The stable code string the caller sees. */
  function Code(e: TunnelError): string {
    match e
    case Timeout => "TIMEOUT"
    case ConnectionError => "CONNECTION_ERROR"
    case AuthError => "AUTH_ERROR"
    case AuthFailed => "AUTH_FAILED"
    case KeyNotFound => "KEY_NOT_FOUND"
    case KeyLoadError => "KEY_LOAD_ERROR"
    case InvalidAuthMethod => "INVALID_AUTH_METHOD"
    case BindError => "BIND_ERROR"
    case TunnelNotFound => "TUNNEL_NOT_FOUND"
  }

  /** The sending half of a tunnel's one-shot shutdown channel.  A channel is
      created once per successful open; it is named here by the counter value the
      open drew, which makes "the same sender" something the model can compare. */
  datatype ShutdownSender = ShutdownSender(channel: nat)

  datatype TunnelHandle = TunnelHandle(shutdownTx: Option<ShutdownSender>, localPort: Port)

  datatype TunnelManager = TunnelManager(tunnels: map<string, TunnelHandle>, nextId: nat)

  datatype TunnelResult = TunnelResult(tunnelId: string, localPort: Port)

  /** A freshly created manager: no tunnels, and the counter at 1. */
  const Initial := TunnelManager(map[], 1)

  const TunnelPrefix := "tunnel-"

  /** The identifier `tunnel-<n>` issued for counter value `n`. */
  function TunnelId(n: nat): string {
    Decimal.FormatId(TunnelPrefix, n)
  }

  // ---------------------------------------------------------------------------
  // The outside world, as seen by one open request.

  /** The TCP connect and SSH handshake, raced against the 30-second deadline. */
  datatype ConnectOutcome = ConnectTimedOut | ConnectRefused | Connected

  /** The session's answer to an authentication request: the call itself may fail,
      or it completes with the server's verdict. */
  datatype AuthReply = AuthCallFailed | AuthAnswered(accepted: bool)

  /** Binding `127.0.0.1:0`, then reading back the listener's address. */
  datatype BindOutcome = BindFailed | LocalAddrFailed | Bound(port: Port)

  /** An existing private-key file, described by the passphrase arguments
      (including "no passphrase") with which it decodes. */
  datatype KeyFile = KeyFile(opensWith: set<Option<string>>)

  datatype SshWorld = SshWorld(
    connect: ConnectOutcome,
    keyFiles: map<string, KeyFile>,
    authReply: AuthReply,
    bind: BindOutcome)

  datatype PrivateKey = PrivateKey(path: string, passphrase: Option<string>)

  /** Loads a private key: a missing file and a file that does not decode with the
      given passphrase are reported under different codes. */
  function LoadPrivateKey(keyPath: string, passphrase: Option<string>, files: map<string, KeyFile>): (r: Result<PrivateKey, TunnelError>)
    ensures r == Failure(KeyNotFound) <==> keyPath !in files
    ensures r == Failure(KeyLoadError) <==> keyPath in files && passphrase !in files[keyPath].opensWith
    ensures r.Success? <==> keyPath in files && passphrase in files[keyPath].opensWith
    ensures r.Success? ==> r.value == PrivateKey(keyPath, passphrase)
  {
    if keyPath !in files then Failure(KeyNotFound)
    else if passphrase !in files[keyPath].opensWith then Failure(KeyLoadError)
    else Success(PrivateKey(keyPath, passphrase))
  }

  /** An authentication call that fails outright is reported as AUTH_FAILED;
      otherwise the server's verdict is handed on. */
  function AuthCall(reply: AuthReply): Result<bool, TunnelError> {
    match reply
    case AuthCallFailed => Failure(AuthFailed)
    case AuthAnswered(accepted) => Success(accepted)
  }

  /** True iff the configuration carries what its method needs, and for key
      authentication the key loads. */
  predicate CredentialsUsable(config: TunnelConfig, world: SshWorld) {
    || (config.authMethod == "password" && config.password.Some?)
    || (&& config.authMethod == "key" && config.keyPath.Some?
        && LoadPrivateKey(config.keyPath.value, config.keyPassphrase, world.keyFiles).Success?)
  }

  /** The authentication dispatch on the configured method.  Success carries the
      `authenticated` flag the session reported. */
  function Authenticate(config: TunnelConfig, world: SshWorld): (r: Result<bool, TunnelError>)
    ensures config.authMethod != "password" && config.authMethod != "key" ==> r == Failure(InvalidAuthMethod)
    ensures config.authMethod == "password" && config.password.None? ==> r == Failure(AuthError)
    ensures config.authMethod == "key" && config.keyPath.None? ==> r == Failure(AuthError)
    ensures (config.authMethod == "key" && config.keyPath.Some? && config.keyPath.value !in world.keyFiles) ==>
              r == Failure(KeyNotFound)
    ensures (&& config.authMethod == "key" && config.keyPath.Some? && config.keyPath.value in world.keyFiles
             && config.keyPassphrase !in world.keyFiles[config.keyPath.value].opensWith) ==>
              r == Failure(KeyLoadError)
    ensures CredentialsUsable(config, world) ==> r == AuthCall(world.authReply)
    ensures r.Success? <==> CredentialsUsable(config, world) && world.authReply.AuthAnswered?
  {
    if config.authMethod == "password" then
      if config.password.None? then Failure(AuthError)
      else AuthCall(world.authReply)
    else if config.authMethod == "key" then
      if config.keyPath.None? then Failure(AuthError)
      else
        var _ :- LoadPrivateKey(config.keyPath.value, config.keyPassphrase, world.keyFiles);
        AuthCall(world.authReply)
    else
      Failure(InvalidAuthMethod)
  }

  // ---------------------------------------------------------------------------
  // Commands on the registry.

  datatype Reply =
    | Created(result: TunnelResult)
    | Closed
    | Active(active: bool)
    | Listed(ids: set<string>)

  /** What one command hands back, the registry it leaves, and the shutdown
      senders it fires. */
  datatype Step = Step(reply: Result<Reply, TunnelError>, manager: TunnelManager, fired: set<ShutdownSender>)

  /** The handle an open stores: the bound port and a fresh, unfired sender. */
  function FreshHandle(n: nat, port: Port): TunnelHandle {
    TunnelHandle(Some(ShutdownSender(n)), port)
  }

  /** Opens a tunnel.  The SSH connect comes first, then the credential dispatch,
      then the server's verdict, then the bind; only when all of them succeed is an
      identifier drawn and the handle stored. */
  function Establish(m: TunnelManager, config: TunnelConfig, world: SshWorld): (r: Step)
    ensures r.fired == {}
    ensures r.reply.Failure? ==> r.manager == m
    ensures world.connect == ConnectTimedOut ==> r.reply == Failure(Timeout)
    ensures world.connect == ConnectRefused ==> r.reply == Failure(ConnectionError)
    ensures (world.connect == Connected && Authenticate(config, world).Failure?) ==>
              r.reply == Failure(Authenticate(config, world).error)
    ensures (world.connect == Connected && Authenticate(config, world) == Success(false)) ==>
              r.reply == Failure(AuthFailed)
    ensures (world.connect == Connected && Authenticate(config, world) == Success(true) && !world.bind.Bound?) ==>
              r.reply == Failure(BindError)
    ensures r.reply.Success? <==>
              world.connect == Connected && Authenticate(config, world) == Success(true) && world.bind.Bound?
    ensures r.reply.Success? ==>
              && r.reply.value == Created(TunnelResult(TunnelId(m.nextId), world.bind.port))
              && r.manager.nextId == m.nextId + 1
              && TunnelId(m.nextId) in r.manager.tunnels
              && r.manager.tunnels[TunnelId(m.nextId)] == FreshHandle(m.nextId, world.bind.port)
              && (forall id | id in m.tunnels && id != TunnelId(m.nextId) ::
                    id in r.manager.tunnels && r.manager.tunnels[id] == m.tunnels[id])
              && r.manager.tunnels.Keys == m.tunnels.Keys + {TunnelId(m.nextId)}
  {
    match world.connect
    case ConnectTimedOut => Step(Failure(Timeout), m, {})
    case ConnectRefused => Step(Failure(ConnectionError), m, {})
    case Connected =>
      match Authenticate(config, world)
      case Failure(e) => Step(Failure(e), m, {})
      case Success(authenticated) =>
        if !authenticated then Step(Failure(AuthFailed), m, {})
        else
          match world.bind
          case BindFailed => Step(Failure(BindError), m, {})
          case LocalAddrFailed => Step(Failure(BindError), m, {})
          case Bound(port) =>
            var id := TunnelId(m.nextId);
            var m' := TunnelManager(m.tunnels[id := FreshHandle(m.nextId, port)], m.nextId + 1);
            Step(Success(Created(TunnelResult(id, port))), m', {})
  }

  /** Closes one tunnel: removing the entry is the single gate, so its sender is
      fired once and a second close of the same identifier finds nothing. */
  function Close(m: TunnelManager, id: string): (r: Step)
    ensures id in m.tunnels ==>
              && r.reply == Success(Closed)
              && r.manager.nextId == m.nextId
              && r.manager.tunnels.Keys == m.tunnels.Keys - {id}
              && (forall k | k in r.manager.tunnels :: r.manager.tunnels[k] == m.tunnels[k])
              && r.fired == (if m.tunnels[id].shutdownTx.Some? then {m.tunnels[id].shutdownTx.value} else {})
    ensures id !in m.tunnels ==> r.reply == Failure(TunnelNotFound) && r.manager == m && r.fired == {}
    ensures id !in r.manager.tunnels
  {
    if id in m.tunnels then
      var handle := m.tunnels[id];
      var fired := match handle.shutdownTx
        case Some(tx) => {tx}
        case None => {};
      Step(Success(Closed), TunnelManager(m.tunnels - {id}, m.nextId), fired)
    else
      Step(Failure(TunnelNotFound), m, {})
  }

  /** The senders still held by a registry. */
  function PendingSenders(tunnels: map<string, TunnelHandle>): set<ShutdownSender> {
    set id | id in tunnels && tunnels[id].shutdownTx.Some? :: tunnels[id].shutdownTx.value
  }

  /** Drains the registry, firing every sender still present. */
  function CloseAll(m: TunnelManager): (r: Step)
    ensures r.reply == Success(Closed)
    ensures r.manager.tunnels == map[] && r.manager.nextId == m.nextId
    ensures forall id | id in m.tunnels && m.tunnels[id].shutdownTx.Some? :: m.tunnels[id].shutdownTx.value in r.fired
    ensures forall tx | tx in r.fired :: exists id | id in m.tunnels :: m.tunnels[id].shutdownTx == Some(tx)
  {
    Step(Success(Closed), TunnelManager(map[], m.nextId), PendingSenders(m.tunnels))
  }

  /** Reports whether an identifier is registered; reads only. */
  function Status(m: TunnelManager, id: string): (r: Step)
    ensures r.reply.Success? && r.reply.value.Active?
    ensures r.reply.value.active <==> id in m.tunnels
    ensures r.manager == m && r.fired == {}
  {
    Step(Success(Active(id in m.tunnels)), m, {})
  }

  /** Reports the registered identifiers; reads only.  The source returns them as
      a vector in hash-map order, which carries no meaning, so the model returns
      the set. */
  function List(m: TunnelManager): (r: Step)
    ensures r.reply.Success? && r.reply.value.Listed?
    ensures forall id :: id in r.reply.value.ids <==> id in m.tunnels
    ensures r.manager == m && r.fired == {}
  {
    Step(Success(Listed(m.tunnels.Keys)), m, {})
  }

  // ---------------------------------------------------------------------------
  // Histories of commands.

  datatype Request =
    | Create(config: TunnelConfig, world: SshWorld)
    | CloseTunnel(id: string)
    | CloseEverything
    | CheckStatus(id: string)
    | ListTunnels

  function Apply(m: TunnelManager, req: Request): Step {
    match req
    case Create(config, world) => Establish(m, config, world)
    case CloseTunnel(id) => Close(m, id)
    case CloseEverything => CloseAll(m)
    case CheckStatus(id) => Status(m, id)
    case ListTunnels => List(m)
  }

  /** The identifier a step issued, if it opened a tunnel. */
  function IssuedBy(s: Step): seq<string> {
    if s.reply.Success? && s.reply.value.Created? then [s.reply.value.result.tunnelId] else []
  }

  /** The state after a sequence of commands on a fresh manager, with the
      identifiers issued so far and every shutdown signal sent so far. */
  datatype History = History(manager: TunnelManager, issued: seq<string>, fired: multiset<ShutdownSender>)

  /** One more command on top of a history. */
  function Next(h: History, req: Request): History {
    var s := Apply(h.manager, req);
    History(s.manager, h.issued + IssuedBy(s), h.fired + multiset(s.fired))
  }

  function Replay(reqs: seq<Request>): History
    decreases |reqs|
  {
    if |reqs| == 0 then History(Initial, [], multiset{})
    else Next(Replay(reqs[..|reqs| - 1]), reqs[|reqs| - 1])
  }

  /** Every registered identifier is `tunnel-<c>` for the channel `c` of its own
      sender, and `c` was drawn from the counter before its current value. */
  ghost predicate Valid(m: TunnelManager) {
    && 1 <= m.nextId
    && forall id | id in m.tunnels ::
      && m.tunnels[id].shutdownTx.Some?
      && 1 <= m.tunnels[id].shutdownTx.value.channel < m.nextId
      && id == TunnelId(m.tunnels[id].shutdownTx.value.channel)
  }

  /** What a history maintains: a valid registry, identifiers issued in counter
      order, no signal sent twice, and no sender still in the registry already
      used. */
  ghost predicate HistoryInvariant(h: History) {
    && Valid(h.manager)
    && h.manager.nextId == |h.issued| + 1
    && (forall i | 0 <= i < |h.issued| :: h.issued[i] == TunnelId(i + 1))
    && (forall tx | tx in h.fired :: h.fired[tx] == 1 && tx.channel < h.manager.nextId)
    && (forall id | id in h.manager.tunnels :: h.manager.tunnels[id].shutdownTx.value !in h.fired)
  }

  /** The identifier an open is about to draw is not already registered. */
  lemma FreshIdUnused(m: TunnelManager)
    requires Valid(m)
    ensures TunnelId(m.nextId) !in m.tunnels
  {
    if TunnelId(m.nextId) in m.tunnels {
      var c := m.tunnels[TunnelId(m.nextId)].shutdownTx.value.channel;
      Decimal.FormatIdInjective(TunnelPrefix, c, m.nextId);
    }
  }

  /** A successful open grows the registry by exactly one entry and keeps the
      registry valid; a failed one leaves it as it was. */
  lemma EstablishAddsOneEntry(m: TunnelManager, config: TunnelConfig, world: SshWorld)
    requires Valid(m)
    ensures Valid(Establish(m, config, world).manager)
    ensures Establish(m, config, world).reply.Success? ==>
              |Establish(m, config, world).manager.tunnels| == |m.tunnels| + 1
    ensures Establish(m, config, world).reply.Failure? ==> Establish(m, config, world).manager == m
  {
    var r := Establish(m, config, world);
    if r.reply.Success? {
      var id := TunnelId(m.nextId);
      FreshIdUnused(m);
      assert r.manager.tunnels.Keys == m.tunnels.Keys + {id};
      assert |r.manager.tunnels.Keys| == |m.tunnels.Keys| + 1;
      forall k | k in r.manager.tunnels
        ensures && r.manager.tunnels[k].shutdownTx.Some?
                && 1 <= r.manager.tunnels[k].shutdownTx.value.channel < r.manager.nextId
                && k == TunnelId(r.manager.tunnels[k].shutdownTx.value.channel)
      {
        if k != id {
          assert k in m.tunnels;
        }
      }
    }
  }

  /** Distinct registered identifiers hold distinct senders. */
  lemma SendersDistinct(m: TunnelManager, a: string, b: string)
    requires Valid(m) && a in m.tunnels && b in m.tunnels && a != b
    ensures m.tunnels[a].shutdownTx != m.tunnels[b].shutdownTx
  {
  }

  /** Storing a fresh handle under the next identifier keeps a history's
      invariant. */
  lemma InsertKeepsInvariant(h: History, port: Port)
    requires HistoryInvariant(h)
    ensures HistoryInvariant(History(
              TunnelManager(h.manager.tunnels[TunnelId(h.manager.nextId) := FreshHandle(h.manager.nextId, port)],
                            h.manager.nextId + 1),
              h.issued + [TunnelId(h.manager.nextId)],
              h.fired))
  {
    var n := h.manager.nextId;
    var id := TunnelId(n);
    var m' := TunnelManager(h.manager.tunnels[id := FreshHandle(n, port)], n + 1);
    var issued' := h.issued + [id];
    FreshIdUnused(h.manager);
    forall k | k in m'.tunnels
      ensures && m'.tunnels[k].shutdownTx.Some?
              && 1 <= m'.tunnels[k].shutdownTx.value.channel < m'.nextId
              && k == TunnelId(m'.tunnels[k].shutdownTx.value.channel)
              && m'.tunnels[k].shutdownTx.value !in h.fired
    {
      if k != id {
        assert k in h.manager.tunnels;
      }
    }
    forall i | 0 <= i < |issued'|
      ensures issued'[i] == TunnelId(i + 1)
    {
      if i < |h.issued| {
        assert issued'[i] == h.issued[i];
      }
    }
  }

  lemma CreateKeepsInvariant(h: History, config: TunnelConfig, world: SshWorld)
    requires HistoryInvariant(h)
    ensures HistoryInvariant(Next(h, Create(config, world)))
  {
    var s := Establish(h.manager, config, world);
    assert multiset(s.fired) == multiset{};
    if s.reply.Success? {
      var n := h.manager.nextId;
      var port := world.bind.port;
      assert s.manager == TunnelManager(h.manager.tunnels[TunnelId(n) := FreshHandle(n, port)], n + 1);
      assert IssuedBy(s) == [TunnelId(n)];
      InsertKeepsInvariant(h, port);
    } else {
      assert Next(h, Create(config, world)) == h;
    }
  }

  lemma CloseKeepsInvariant(h: History, id: string)
    requires HistoryInvariant(h)
    ensures HistoryInvariant(Next(h, CloseTunnel(id)))
  {
    var h' := Next(h, CloseTunnel(id));
    if id in h.manager.tunnels {
      var tx := h.manager.tunnels[id].shutdownTx.value;
      assert h'.fired == h.fired + multiset{tx};
      forall k | k in h'.manager.tunnels
        ensures h'.manager.tunnels[k].shutdownTx.value !in h'.fired
      {
        SendersDistinct(h.manager, k, id);
      }
    }
  }

  lemma CloseAllKeepsInvariant(h: History)
    requires HistoryInvariant(h)
    ensures HistoryInvariant(Next(h, CloseEverything))
  {
    var s := CloseAll(h.manager);
    var h' := Next(h, CloseEverything);
    forall tx | tx in h'.fired
      ensures h'.fired[tx] == 1 && tx.channel < h'.manager.nextId
    {
      if tx in s.fired {
        var id :| id in h.manager.tunnels && h.manager.tunnels[id].shutdownTx == Some(tx);
        assert tx !in h.fired;
      }
    }
  }

  lemma StepKeepsInvariant(h: History, req: Request)
    requires HistoryInvariant(h)
    ensures HistoryInvariant(Next(h, req))
  {
    match req
    case Create(config, world) => CreateKeepsInvariant(h, config, world);
    case CloseTunnel(id) => CloseKeepsInvariant(h, id);
    case CloseEverything => CloseAllKeepsInvariant(h);
    case CheckStatus(id) =>
    case ListTunnels =>
  }

  lemma {:induction false} ReplayKeepsInvariant(reqs: seq<Request>)
    ensures HistoryInvariant(Replay(reqs))
    decreases |reqs|
  {
    if |reqs| > 0 {
      ReplayKeepsInvariant(reqs[..|reqs| - 1]);
      StepKeepsInvariant(Replay(reqs[..|reqs| - 1]), reqs[|reqs| - 1]);
    }
  }

  /** The n-th identifier ever issued is `tunnel-<n>`: the counter starts at 1 and
      moves only on a successful open. */
  lemma IssuedIdsFollowCounter(reqs: seq<Request>)
    ensures forall i | 0 <= i < |Replay(reqs).issued| :: Replay(reqs).issued[i] == TunnelId(i + 1)
    ensures Replay(reqs).manager.nextId == |Replay(reqs).issued| + 1
  {
    ReplayKeepsInvariant(reqs);
  }

  /** Identifiers are never reused within a manager's lifetime. */
  lemma IssuedIdsDistinct(reqs: seq<Request>)
    ensures Distinct(Replay(reqs).issued)
  {
    var issued := Replay(reqs).issued;
    IssuedIdsFollowCounter(reqs);
    forall i, j | 0 <= i < j < |issued|
      ensures issued[i] != issued[j]
    {
      Decimal.FormatIdInjective(TunnelPrefix, i + 1, j + 1);
    }
  }

  /** No shutdown sender is ever fired twice, whatever the order of opens, closes
      and drains. */
  lemma ShutdownFiredAtMostOnce(reqs: seq<Request>)
    ensures forall tx | tx in Replay(reqs).fired :: Replay(reqs).fired[tx] == 1
  {
    ReplayKeepsInvariant(reqs);
  }

  /** Closing a tunnel makes it inactive and unlisted, leaves the other tunnels
      listed, and a second close of it is refused. */
  lemma CloseThenInspect(m: TunnelManager, id: string)
    requires id in m.tunnels
    ensures Close(m, id).reply.Success?
    ensures Status(Close(m, id).manager, id).reply == Success(Active(false))
    ensures List(Close(m, id).manager).reply == Success(Listed(m.tunnels.Keys - {id}))
    ensures Close(Close(m, id).manager, id).reply == Failure(TunnelNotFound)
  {
  }
}
