# Seaquel desktop backend — a Dafny model

This project models the decision logic of Seaquel's Tauri backend and proves
properties of it. Seaquel is a desktop database client. The model covers four
parts:

- **SSH tunnels** (`ssh_tunnel.rs`). This is the main part. It covers:
  - the tunnel manager's registry, which maps a tunnel id to its local port and its one-shot shutdown sender, plus an id counter;
  - opening a tunnel, with the order in which its errors are reported;
  - closing one tunnel or all of them, and status and list;
  - the forwarding task's accept loop;
  - the relay that copies bytes both ways between a local connection and an SSH channel.
- **Git commands** (`git.rs`). The model covers these rules:
  - how status entries are classified;
  - the fallbacks for the branch name and the ahead/behind counts;
  - the order in which credentials are tried;
  - the order in which a pull's outcomes are dispatched;
  - the refspec a push sends;
  - which conflict record the conflict-content command reads.
- **SQL Server connections** (`mssql.rs`). The model covers:
  - the registry and its `mssql-<n>` ids;
  - the encryption and certificate-trust defaults;
  - the connect error codes;
  - how query and execute results are shaped.
- **DuckDB connections** (`duckdb_commands.rs`). The model covers:
  - the in-memory path rule;
  - the registry, including the disconnect that always succeeds;
  - the row width of query results;
  - how each value variant maps to a JSON kind.

Every library the backend calls is represented only by what it reports. This
covers russh, tokio's listener and timers, git2, tiberius, TLS and duckdb. Each
such report is a value of a datatype passed in as an argument, for example
`SshWorld`, `StatusFacts`, `PullFacts`, `MssqlServer` and `QueryFacts`. The
model decides what the backend does with each report. It does not decide how
the report comes about. Each registry command is modelled as one step. In the
source, opening a tunnel and connecting to SQL Server draw the counter under one
lock and insert under a second one, so concurrent opens can interleave; the model
does not (see "Left out"). Concurrency appears only as traces of events:

- `ListenerEvent` for the accept loop;
- `RelayEvent` for the relay.

Modules, one per file:

| file | module | models |
|---|---|---|
| wrappers.dfy | Wrappers | `Option`, `Result` |
| primitives.dfy | Primitives | bytes and ports |
| decimal.dfy | Decimal | decimal rendering of counters, and `prefix-<n>` ids |
| base64.dfy | Base64 | the standard base64 encoder (RFC 4648, section 4) and a decoder for it |
| json.dfy | Json | the JSON values the database commands return |
| ssh_tunnel.dfy | SshTunnel | the tunnel registry, opening, closing, status and list |
| tunnel_accept.dfy | TunnelAcceptLoop | the accept loop of the forwarding task |
| tunnel_relay.dfy | TunnelRelay | the relay of one accepted connection |
| git_common.dfy | GitCommon | git error codes, HEAD states, sync results, conflict records |
| git_status.dfy | GitStatus | the status command and the ahead/behind calculation |
| git_credentials.dfy | GitCredentials | the credential callback |
| git_sync.dfy | GitSync | pull and push |
| git_conflicts.dfy | GitConflicts | the conflict-content command |
| mssql.dfy | Mssql | the SQL Server registry and result shapes |
| duckdb.dfy | DuckDb | the DuckDB registry, query shaping and value conversion |

Two behaviours of the code that a reader might not expect, and that the model
keeps:

- Opening a tunnel connects to the SSH server before it checks for a missing
  password or key path. An open with missing credentials therefore reports
  TIMEOUT or CONNECTION_ERROR first when the server is unreachable
  (src-tauri/src/ssh_tunnel.rs:121-134 connects; the credential match starts
  at line 136).
- DuckDB `Date32` values become a JSON number (the day count). They are not a
  string.

## Model

| member | source | states |
|---|---|---|
| SshTunnel.LoadPrivateKey | src-tauri/src/ssh_tunnel.rs:96-110 | a missing key file gives KEY_NOT_FOUND; an existing file that does not decode with the passphrase gives KEY_LOAD_ERROR; the key loads exactly when the file exists and decodes with the passphrase |
| SshTunnel.Authenticate | src-tauri/src/ssh_tunnel.rs:136-173 | dispatch on the auth method: "password" without a password and "key" without a key path give AUTH_ERROR; the key-load errors pass through; any other method gives INVALID_AUTH_METHOD; a failing auth call gives AUTH_FAILED; success exactly when the credentials are usable and the server answered |
| SshTunnel.Establish | src-tauri/src/ssh_tunnel.rs:112-261 | error order TIMEOUT, CONNECTION_ERROR, credential errors, AUTH_FAILED (rejected), BIND_ERROR; every failure leaves the registry unchanged; success exactly when all steps succeed, and then id `tunnel-<counter>` is inserted with the bound port and a fresh sender, the counter rises by one, the other entries are unchanged and the result carries the same id and port |
| SshTunnel.Close | src-tauri/src/ssh_tunnel.rs:321-339 | a present id is removed, its sender fired, the others kept, Ok returned; an absent id gives TUNNEL_NOT_FOUND and changes nothing; afterwards the id is absent |
| SshTunnel.CloseAll | src-tauri/src/ssh_tunnel.rs:64-71 | the registry is emptied, and exactly the senders still present are fired |
| SshTunnel.Status | src-tauri/src/ssh_tunnel.rs:341-348 | true exactly when the id is registered; nothing changes |
| SshTunnel.List | src-tauri/src/ssh_tunnel.rs:350-356 | exactly the registered ids; nothing changes |
| SshTunnel.FreshIdUnused | src-tauri/src/ssh_tunnel.rs:199-204 | the id an open is about to draw is never already registered |
| SshTunnel.EstablishAddsOneEntry | src-tauri/src/ssh_tunnel.rs:210-219 | a successful open adds exactly one entry and keeps every id matched to its own sender's counter value |
| SshTunnel.ReplayKeepsInvariant | src-tauri/src/ssh_tunnel.rs:56-71 | after any sequence of commands from a new manager: ids follow the counter, every registered id owns an unfired sender, and no sender has fired twice |
| SshTunnel.IssuedIdsFollowCounter | src-tauri/src/ssh_tunnel.rs:199-204 | the n-th id ever issued is `tunnel-<n>`, and the counter equals the number issued plus one |
| SshTunnel.IssuedIdsDistinct | src-tauri/src/ssh_tunnel.rs:199-204 | no id is issued twice, even after closes |
| SshTunnel.ShutdownFiredAtMostOnce | src-tauri/src/ssh_tunnel.rs:326-338 | across any interleaving of opens, closes and drains, no shutdown sender fires twice |
| SshTunnel.CloseThenInspect | src-tauri/src/ssh_tunnel.rs:321-356 | after a close the id is inactive and unlisted, the others stay listed, and a second close fails with TUNNEL_NOT_FOUND |
| TunnelAcceptLoop.UntilShutdown | src-tauri/src/ssh_tunnel.rs:228-231 | the events acted on are the longest prefix without a shutdown signal |
| TunnelAcceptLoop.RunAcceptLoop | src-tauri/src/ssh_tunnel.rs:226-255 | the loop stops exactly when a shutdown signal arrives; before it, each accepted connection spawns exactly one relay, in order, and each accept error is logged without ending the loop |
| TunnelAcceptLoop.ShutdownEndsLoop | src-tauri/src/ssh_tunnel.rs:228-231 | nothing after the shutdown signal is acted on |
| TunnelRelay.FirstEnd | src-tauri/src/ssh_tunnel.rs:280-308 | the relay stops at the first ending event: an empty read, a read error, a failed forward or write, or the channel reporting end of stream or yielding no further message (a channel close message is ignored) |
| TunnelRelay.HandleConnection | src-tauri/src/ssh_tunnel.rs:264-311 | if the channel does not open, the run is an error with nothing copied; otherwise the frames sent are what the non-empty local reads before the first ending event returned, in order; the chunks written locally are the channel's data messages, verbatim and in order; other channel messages are ignored; the ending event decides how the relay ends |
| TunnelRelay.FramesCarryLocalBytes | src-tauri/src/ssh_tunnel.rs:277-287 | every frame sent is non-empty, no longer than the 32768-byte read buffer, and the start of the bytes one read found waiting |
| Decimal.FormatIdInjective | src-tauri/src/ssh_tunnel.rs:201 | two counter values render to the same `prefix-<n>` id only if they are equal |
| Decimal.IdRoundTrip | src-tauri/src/mssql.rs:215 | the counter can be read back from the id it was rendered into |
| GitStatus.ClassifyStatuses | src-tauri/src/git.rs:477-491 | the status loop's two lists are exactly the filters "new in the working tree" and "otherwise modified or deleted in the working tree, or modified, new or deleted in the index", with input order kept |
| GitStatus.BucketsPartitionEntries | src-tauri/src/git.rs:481-490 | each entry is counted in exactly one of untracked, modified or unlisted |
| GitStatus.CalculateAheadBehind | src-tauri/src/git.rs:833-873 | no local branch or commit gives nothing; with an upstream, the library's answer; with no upstream and no origin, nothing; with origin and `refs/remotes/origin/<b>`, the library's answer against that ref once it peels to a commit; with origin but no such ref, (commits reachable from local, 0); a non-zero behind count needs a tracking reference |
| GitStatus.AheadBehindFollowsTrackedRef | src-tauri/src/git.rs:833-873 | for a local branch that peels, the counts are the library's answer against the first tracking reference that exists (the upstream, then `refs/remotes/origin/<b>` when origin exists); with none, every reachable commit is ahead when origin exists, and there are no counts otherwise |
| GitStatus.GetRepoStatus | src-tauri/src/git.rs:436-519 | error codes in order REPO_OPEN_ERROR, REPO_ERROR (HEAD), REPO_ERROR (statuses), INDEX_ERROR; the lists are the classification; pending_changes is the sum of their lengths; is_clean holds exactly when nothing is pending and there are no conflicts; an unborn HEAD reports init.defaultBranch or "main" with (0,0); otherwise HEAD's short name or "HEAD" with the calculated counts or (0,0) |
| GitStatus.CleanMeansNothingPending | src-tauri/src/git.rs:493-510 | clean exactly when both lists are empty and there are no conflicts |
| GitCredentials.AcquireCredential | src-tauri/src/git.rs:54-99 | the agent wins when keys are allowed, the URL names a user and the agent answers; a configured key path is final even when it fails, and it is the only source of failure; key credentials carry the URL's user or "git"; id_rsa is used only when id_ed25519 is unusable; user and password are used only when allowed, both are present, and no key source decided; otherwise the default credential |
| GitCredentials.AcquireFollowsCandidateOrder | src-tauri/src/git.rs:54-99 | the callback's answer equals the first deciding entry of the ordered list agent, configured key, id_ed25519, id_rsa, user and password, default |
| GitSync.OurPathsExactly | src-tauri/src/git.rs:295-303 | a path is reported as conflicted exactly when a readable conflict record's our side carries it |
| GitSync.CommitMerge | src-tauri/src/git.rs:313-365 | recording the merge succeeds exactly when every step succeeds; the first failing step in the order signature, HEAD, peel, write tree, find tree, commit, cleanup decides the code: COMMIT_ERROR for signature, tree and commit, REPO_ERROR for HEAD, peel and cleanup |
| GitSync.Pull | src-tauri/src/git.rs:137-372 | dispatch order: REPO_OPEN_ERROR; an unborn HEAD succeeds with "no commits yet"; REPO_ERROR; REMOTE_ERROR; PULL_ERROR on fetch; no FETCH_HEAD and no tracking ref succeeds with "no remote changes" (exactly then); an unreadable FETCH_HEAD, or with FETCH_HEAD absent an unreadable tracking ref, gives PULL_ERROR; after the analysis: up to date, then fast-forward, then normal merge, else MERGE_ERROR; only conflicts give success=false, listing our sides' paths |
| GitSync.FetchHeadTakesPrecedence | src-tauri/src/git.rs:188-217 | when FETCH_HEAD exists the tracking branch is never consulted, and an unreadable FETCH_HEAD fails the pull |
| GitSync.RefspecRoundTrip | src-tauri/src/git.rs:420 | the refspec splits at its colon into `refs/heads/<b>` on both sides |
| GitSync.RefspecInjective | src-tauri/src/git.rs:420 | different branches push different refspecs |
| GitSync.Push | src-tauri/src/git.rs:374-434 | an unborn HEAD gives success=false and pushes nothing; the error codes come in order REPO_OPEN_ERROR, REPO_ERROR, REMOTE_ERROR, PUSH_ERROR; a push is attempted exactly when a branch and origin are found, and it sends `refs/heads/<b>:refs/heads/<b>` |
| GitConflicts.SelectConflict | src-tauri/src/git.rs:729-771 | the iteration stops at the first record that is unreadable or filed (our path, else their path, else "") under the requested path |
| GitConflicts.GetConflictContent | src-tauri/src/git.rs:712-774 | the answer is taken from the record where the iteration stops: an unreadable record gives CONFLICT_ERROR, a match gives its base, ours and theirs (each "" when absent or unreadable), and no match gives three empty strings |
| GitConflicts.FirstMatchWins | src-tauri/src/git.rs:745-770 | a matching record is used whatever follows it |
| Mssql.Connect | src-tauri/src/mssql.rs:137-227 | error order TIMEOUT, CONNECTION_ERROR, TCP_ERROR, TLS_ERROR (only when encrypting), AUTH_ERROR; encryption unless `encrypt` is explicitly false; invalid certificates accepted unless `trust_cert` is false; success exactly when TCP connects, nodelay is set, TLS (when encrypting) succeeds and the login is accepted; a failure leaves the registry unchanged; success inserts `mssql-<counter>` and raises the counter |
| Mssql.Disconnect | src-tauri/src/mssql.rs:229-244 | a present id is removed and Ok returned; an absent id gives CONNECTION_NOT_FOUND and changes nothing |
| Mssql.RowObjectKeys | src-tauri/src/mssql.rs:101-135 | a row's JSON object has exactly one key per distinct column name |
| Mssql.RowObjectKeepsFirstColumn | src-tauri/src/mssql.rs:101-135 | every column's name is a key; since each column is read back by its name, and a lookup by name finds the first column of that name, each key holds the value of the first column of that name |
| Mssql.Query | src-tauri/src/mssql.rs:246-282 | unknown id gives CONNECTION_NOT_FOUND, a failed query QUERY_ERROR, and a registered id with rows succeeds; columns are the first row's names, or none without rows; one object per row; rows_affected is 0 |
| Mssql.Execute | src-tauri/src/mssql.rs:284-307 | unknown id gives CONNECTION_NOT_FOUND, a failure EXECUTE_ERROR, and a registered id with counts succeeds; no columns or rows; rows_affected is the sum of the per-statement counts |
| Mssql.SumBoundsEachCount | src-tauri/src/mssql.rs:305 | the reported total is at least each statement's count |
| Mssql.FreshIdUnused | src-tauri/src/mssql.rs:212-224 | the id a connect is about to draw is never already registered |
| Mssql.RunKeepsInvariant | src-tauri/src/mssql.rs:86-93 | after any sequence of connects and disconnects from a new manager, the n-th id issued is `mssql-<n>` and every registered id is one of the issued ids |
| Mssql.IdsNeverReused | src-tauri/src/mssql.rs:212-218 | no id is issued twice |
| DuckDb.ConvertValue | src-tauri/src/duckdb_commands.rs:149-178 | Null gives JSON null; Boolean gives a bool; the 8/16/32/64-bit integers and Date32 give numbers (the integers unchanged); HugeInt, Decimal, Text, Blob and the composite or temporal variants give strings; nothing gives an object |
| DuckDb.HugeIntReadsBack | src-tauri/src/duckdb_commands.rs:157 | a 128-bit integer's string parses back to the same integer |
| DuckDb.BlobReadsBack | src-tauri/src/duckdb_commands.rs:166 | a blob's base64 string decodes back to the same bytes |
| DuckDb.BlobsStayDistinct | src-tauri/src/duckdb_commands.rs:166 | different blobs give different strings |
| Base64.Encode | src-tauri/src/duckdb_commands.rs:166 | the encoding has 4 characters per started group of 3 bytes |
| Base64.EncodeAlphabet | src-tauri/src/duckdb_commands.rs:166 | the encoding uses only the standard alphabet, with '=' only in the last two positions |
| Base64.DecodeEncode | src-tauri/src/duckdb_commands.rs:166 | decoding the encoding gives back the bytes |
| Base64.EncodeInjective | src-tauri/src/duckdb_commands.rs:166 | different byte sequences encode to different strings, and equal ones to equal strings |
| DuckDb.DatabaseFor | src-tauri/src/duckdb_commands.rs:43-47 | ":memory:" and "" open in memory; any other path opens that file |
| DuckDb.Connect | src-tauri/src/duckdb_commands.rs:38-58 | succeeds exactly when the database the path names opens, and then files it under `duckdb-<uuid>`; a failure changes nothing |
| DuckDb.ConnectAddsOneEntry | src-tauri/src/duckdb_commands.rs:50-55 | with a fresh uuid, a connect adds exactly one entry and keeps the others |
| DuckDb.Test | src-tauri/src/duckdb_commands.rs:135-146 | succeeds exactly when the database the path names opens |
| DuckDb.TestAgreesWithConnect | src-tauri/src/duckdb_commands.rs:138-142 | testing a path succeeds exactly when connecting to it would |
| DuckDb.Disconnect | src-tauri/src/duckdb_commands.rs:60-72 | always Ok; the id is removed if present, and an unknown id changes nothing |
| DuckDb.ShapeRow | src-tauri/src/duckdb_commands.rs:106-111 | a row converts exactly when it holds a value for every column, and then gives one converted value per column, in order |
| DuckDb.Query | src-tauri/src/duckdb_commands.rs:74-116 | "Connection not found" exactly for an unknown id, and any failure on a known id is the database's error; success exactly when the statement prepares and runs, every row is wide enough and fetching does not fail; then there is one column name per column ("" when unreadable), and every row has exactly column_count converted values, in column order |
| DuckDb.RegisteredIffLatestConnect | src-tauri/src/duckdb_commands.rs:44-72 | after any sequence of connects and disconnects, an id is registered (so execute does not report "Connection not found") exactly when the latest command concerning it was a successful connect filed under it, or, with none, when it was registered before |
| DuckDb.Execute | src-tauri/src/duckdb_commands.rs:118-133 | "Connection not found" exactly for an unknown id; otherwise the affected-row count or the database's error |

## Left out

- The SSH wire protocol, TCP connect, bind and accept, the 30-second timeouts and host-key checking are not modelled (the host-key check accepts every key). Connect, authentication, bind, key loading and channel opening are inputs.
- The tokio tasks, `select!` and the mutexes are not modelled. Each registry command is taken as one atomic step.
- Opening a tunnel (src-tauri/src/ssh_tunnel.rs:199-204, then 210-219) and connecting to SQL Server (src-tauri/src/mssql.rs:213-218, then 221-224) draw the counter and insert the handle under two separate locks. The model takes the two as one step. Under concurrency, two opens can register in the reverse order of their ids, and a list can run between the two steps. So SshTunnel.IssuedIdsFollowCounter and the "n-th id issued is `mssql-<n>`" half of Mssql.RunKeepsInvariant hold only for commands that do not overlap. The accept loop and the relay consume finite traces of the resolutions of their `select!`.
- The shutdown receiver also resolves when its sender is dropped without sending. Every path in the source that removes a handle sends first, so the trace has one shutdown event for both cases.
- The u64 counters of the tunnel and SQL Server managers are unbounded integers. Their overflow after 2^64 opens is not modelled.
- Mssql.Execute: the sum of the affected-row counts is not reduced modulo 2^64. An overflow of `iter().sum()` is not modelled.
- Human-readable messages are not modelled. Errors are their codes. Pull and push outcomes are a message kind plus the success flag.
- `lib.rs` is not part of this model: menus, clipboard, the updater, opener, environment and file reading. `close_all` is modelled as a manager operation although nothing in `lib.rs` calls it.
- The git2 operations themselves are inputs: open, HEAD lookup, statuses, merge analysis, merge, checkout, index writes, commit, revwalk and `graph_ahead_behind`. Clone, init, commit, stage and the other git commands outside the rules above are not modelled.
- GitCredentials.AcquireCredential: building the user/password and default credentials is taken to succeed. The library also fails the user/password credential when the username or password holds a NUL byte, and the callback then ends with that error; that failure is not modelled. The default key paths are formed as `<home>/.ssh/<name>`, which assumes the home path has no trailing separator.
- The tiberius type probing in `row_to_json` is left out. Each column carries the JSON value that probing would produce for it, and its floating-point, binary and NULL arms are not modelled. The model does read each value back by the column's name, as the code does.
- Executing SQL through tiberius and duckdb is not modelled. The results are inputs.
- DuckDB `Float` and `Double` values are not modelled, because JSON numbers here are integers.
- DuckDB `Decimal` text and the debug rendering of composite and temporal values are carried as given strings. UTF-8 lossy decoding of text is an abstract function argument.
- DuckDb.Connect: the connection id is `duckdb-` followed by an input uuid. Generating it is left out, and a colliding uuid overwrites the existing entry, as `HashMap::insert` does.
- The integer widths of the DuckDB variants are not enforced. Conversion keeps each value unchanged, so the width does not affect the result.
- A poisoned DuckDB mutex, which turns any command into an error, is not modelled.
