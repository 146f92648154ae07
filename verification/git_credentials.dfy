/** The credential callback installed for fetch and push: given the kinds of
    credential the server allows and the user name in the remote URL (if any), it
    tries the SSH agent, the configured key file, the default key files and a
    plaintext user name and password, in that order, and falls back to the
    library's default credential. */
module GitCredentials {
  import opened Wrappers

  /** The kinds of credential a server may allow. */
  datatype CredentialKind = SshKey | UserPassPlaintext | DefaultKind

  /** The credentials a caller may pass along with a fetch or push. */
  datatype GitCredentials = GitCredentials(
    username: Option<string>,
    password: Option<string>,
    sshKeyPath: Option<string>,
    sshPassphrase: Option<string>)

  /** A credential handed to the library. */
  datatype Credential =
    | AgentKey(user: string)
    | KeyFile(user: string, keyPath: string, passphrase: Option<string>)
    | UserPass(user: string, password: string)
    | DefaultCredential

  /** Building a key-file credential failed for this path. */
  datatype CredentialFailure = KeyCredentialFailed(keyPath: string)

  /** What the machine reports: whether the SSH agent yields a credential for the
      URL's user, the home directory (if known), which files exist, and the key
      paths for which building a key-file credential succeeds. */
  datatype CredentialHost = CredentialHost(
    agentAccepts: bool,
    home: Option<string>,
    existing: set<string>,
    keyBuilds: set<string>)

  /** The user name key-based credentials carry: the URL's, or `git`. */
  function KeyUser(urlUser: Option<string>): string {
    urlUser.GetOr("git")
  }

  function Ed25519Path(home: string): string {
    home + "/.ssh/id_ed25519"
  }

  function RsaPath(home: string): string {
    home + "/.ssh/id_rsa"
  }

  /** Building a key-file credential for `path`. */
  function BuildKeyFile(user: string, path: string, passphrase: Option<string>, host: CredentialHost): Result<Credential, CredentialFailure> {
    if path in host.keyBuilds then Success(KeyFile(user, path, passphrase)) else Failure(KeyCredentialFailed(path))
  }

  /** True iff the default key file `path` exists and yields a credential. */
  predicate DefaultKeyUsable(path: string, host: CredentialHost) {
    path in host.existing && path in host.keyBuilds
  }

  /** The SSH-key stage: an answer when one of the key sources decides, `None` when
      the callback moves on to the next stage. */
  function TrySshKeys(urlUser: Option<string>, creds: Option<GitCredentials>, host: CredentialHost): Option<Result<Credential, CredentialFailure>> {
    if urlUser.Some? && host.agentAccepts then Some(Success(AgentKey(urlUser.value)))
    else if creds.Some? && creds.value.sshKeyPath.Some? then
      Some(BuildKeyFile(KeyUser(urlUser), creds.value.sshKeyPath.value, creds.value.sshPassphrase, host))
    else if host.home.Some? && DefaultKeyUsable(Ed25519Path(host.home.value), host) then
      Some(Success(KeyFile(KeyUser(urlUser), Ed25519Path(host.home.value), None)))
    else if host.home.Some? && DefaultKeyUsable(RsaPath(host.home.value), host) then
      Some(Success(KeyFile(KeyUser(urlUser), RsaPath(host.home.value), None)))
    else None
  }

  /** True iff the caller supplied both a user name and a password. */
  predicate HasUserPass(creds: Option<GitCredentials>) {
    creds.Some? && creds.value.username.Some? && creds.value.password.Some?
  }

  function AcquireCredential(allowed: set<CredentialKind>, urlUser: Option<string>, creds: Option<GitCredentials>, host: CredentialHost): (r: Result<Credential, CredentialFailure>)
    // The agent wins whenever keys are allowed, the URL names a user and the agent answers.
    ensures (SshKey in allowed && urlUser.Some? && host.agentAccepts) ==> r == Success(AgentKey(urlUser.value))
    ensures r.Success? && r.value.AgentKey? ==> SshKey in allowed && urlUser == Some(r.value.user) && host.agentAccepts
    // A configured key path is final: its outcome is returned even when it fails.
    ensures (&& SshKey in allowed && !(urlUser.Some? && host.agentAccepts)
             && creds.Some? && creds.value.sshKeyPath.Some?) ==>
              r == BuildKeyFile(KeyUser(urlUser), creds.value.sshKeyPath.value, creds.value.sshPassphrase, host)
    // The only failure is the configured key file's.
    ensures r.Failure? ==>
              && SshKey in allowed && creds.Some? && creds.value.sshKeyPath == Some(r.error.keyPath)
              && r.error.keyPath !in host.keyBuilds
    // Key files carry the URL's user name, or `git`.
    ensures r.Success? && r.value.KeyFile? ==> SshKey in allowed && r.value.user == KeyUser(urlUser)
    // The RSA key is only used when the Ed25519 key is not usable.
    ensures (&& r.Success? && r.value.KeyFile? && host.home.Some?
             && r.value.keyPath == RsaPath(host.home.value) && r.value.passphrase.None?
             && !(creds.Some? && creds.value.sshKeyPath.Some?)) ==>
              !DefaultKeyUsable(Ed25519Path(host.home.value), host)
    // A user name and password are used only when allowed, and only when no key source decided.
    ensures r.Success? && r.value.UserPass? ==>
              && UserPassPlaintext in allowed && HasUserPass(creds)
              && r.value == UserPass(creds.value.username.value, creds.value.password.value)
              && (SshKey in allowed ==> TrySshKeys(urlUser, creds, host).None?)
    ensures (&& UserPassPlaintext in allowed && HasUserPass(creds)
             && (SshKey !in allowed || TrySshKeys(urlUser, creds, host).None?)) ==>
              r == Success(UserPass(creds.value.username.value, creds.value.password.value))
    // Otherwise the library's default credential.
    ensures r == Success(DefaultCredential) <==>
              && (SshKey !in allowed || TrySshKeys(urlUser, creds, host).None?)
              && !(UserPassPlaintext in allowed && HasUserPass(creds))
  {
    var keyed := if SshKey in allowed then TrySshKeys(urlUser, creds, host) else None;
    if keyed.Some? then keyed.value
    else if UserPassPlaintext in allowed && HasUserPass(creds) then
      Success(UserPass(creds.value.username.value, creds.value.password.value))
    else Success(DefaultCredential)
  }

  // ---------------------------------------------------------------------------
  // The same callback as an ordered list of candidates.

  /** A credential source: whether it is tried at all, what trying it yields, and
      whether its answer is final even when it fails. */
  datatype Candidate = Candidate(tried: bool, outcome: Result<Credential, CredentialFailure>, final: bool)

  /** The sources in the order the callback tries them. */
  function Candidates(allowed: set<CredentialKind>, urlUser: Option<string>, creds: Option<GitCredentials>, host: CredentialHost): seq<Candidate> {
    var keys := SshKey in allowed;
    var user := KeyUser(urlUser);
    var configured := creds.Some? && creds.value.sshKeyPath.Some?;
    var home := host.home.GetOr("");
    [ Candidate(keys && urlUser.Some?,
                if host.agentAccepts then Success(AgentKey(urlUser.GetOr(""))) else Failure(KeyCredentialFailed("")),
                false),
      Candidate(keys && configured,
                if configured then BuildKeyFile(user, creds.value.sshKeyPath.value, creds.value.sshPassphrase, host)
                else Failure(KeyCredentialFailed("")),
                true),
      Candidate(keys && host.home.Some? && Ed25519Path(home) in host.existing,
                BuildKeyFile(user, Ed25519Path(home), None, host), false),
      Candidate(keys && host.home.Some? && RsaPath(home) in host.existing,
                BuildKeyFile(user, RsaPath(home), None, host), false),
      Candidate(UserPassPlaintext in allowed && HasUserPass(creds),
                if HasUserPass(creds) then Success(UserPass(creds.value.username.value, creds.value.password.value))
                else Success(DefaultCredential),
                true),
      Candidate(true, Success(DefaultCredential), true) ]
  }

  /** The answer of the first candidate that is tried and either succeeds or is
      final. */
  function Decide(cs: seq<Candidate>): Option<Result<Credential, CredentialFailure>>
    decreases |cs|
  {
    if |cs| == 0 then None
    else if cs[0].tried && (cs[0].outcome.Success? || cs[0].final) then Some(cs[0].outcome)
    else Decide(cs[1..])
  }

  /** The callback answers exactly as the first deciding candidate in the list. */
  lemma AcquireFollowsCandidateOrder(allowed: set<CredentialKind>, urlUser: Option<string>, creds: Option<GitCredentials>, host: CredentialHost)
    ensures Decide(Candidates(allowed, urlUser, creds, host)) == Some(AcquireCredential(allowed, urlUser, creds, host))
  {
    var cs := Candidates(allowed, urlUser, creds, host);
    DecideStep(cs, 0);
    DecideStep(cs, 1);
    DecideStep(cs, 2);
    DecideStep(cs, 3);
    DecideStep(cs, 4);
    DecideStep(cs, 5);
    assert cs[6..] == [];
  }

  /** One step of the search, stated on suffixes. */
  lemma DecideStep(cs: seq<Candidate>, i: nat)
    requires i < |cs|
    ensures Decide(cs[i..]) ==
              if cs[i].tried && (cs[i].outcome.Success? || cs[i].final) then Some(cs[i].outcome) else Decide(cs[i + 1..])
  {
    assert cs[i..][1..] == cs[i + 1..];
  }
}
