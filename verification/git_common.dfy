/** Types shared by the version-control commands: their error codes, what a
    lookup of HEAD can report, the result of a pull or push, and the index's
    conflict records.  Every fact these commands learn from the repository library
    arrives as a value of one of these types. */
module GitCommon {
  import opened Wrappers

  /** The error codes the version-control commands report. */
  datatype GitError =
    | RepoOpenError
    | RepoError
    | RemoteError
    | PullError
    | MergeError
    | IndexError
    | ConflictError
    | CommitError
    | PushError

  function Code(e: GitError): string {
    match e
    case RepoOpenError => "REPO_OPEN_ERROR"
    case RepoError => "REPO_ERROR"
    case RemoteError => "REMOTE_ERROR"
    case PullError => "PULL_ERROR"
    case MergeError => "MERGE_ERROR"
    case IndexError => "INDEX_ERROR"
    case ConflictError => "CONFLICT_ERROR"
    case CommitError => "COMMIT_ERROR"
    case PushError => "PUSH_ERROR"
  }

  /** What looking up HEAD reports: a reference (with its short name, if it has
      one), an unborn branch (a repository without commits), or another error. */
  datatype HeadState = HeadOk(shorthand: Option<string>) | HeadUnborn | HeadFailed

  /** What a pull or push reports on success; the human-readable message is
      reduced to which outcome it announces. */
  datatype SyncMessage =
    | NoCommitsYet
    | NoRemoteChanges
    | AlreadyUpToDate
    | FastForwarded
    | Merged
    | ConflictsDetected
    | Pushed

  datatype SyncResult = SyncResult(success: bool, message: SyncMessage, conflicts: seq<string>, filesChanged: seq<string>)

  /** One side of a conflict as the index records it. */
  datatype IndexEntry = IndexEntry(path: string, blob: nat)

  /** A conflict record: the common ancestor, our side and their side, each of
      which may be missing. */
  datatype Conflict = Conflict(ancestor: Option<IndexEntry>, our: Option<IndexEntry>, their: Option<IndexEntry>)

  /** The conflict iterator's items; `None` is an item that could not be read. */
  type ConflictItems = seq<Option<Conflict>>

  /** The remote-tracking reference of `branch` on `origin`. */
  function RemoteTrackingRef(branch: string): string {
    "refs/remotes/origin/" + branch
  }
}
