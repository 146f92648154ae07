/** The repository status command: how status entries are sorted into modified
    and untracked files, how the branch name and ahead/behind counts fall back,
    and how `is_clean` and `pending_changes` are derived. */
module GitStatus {
  import opened Wrappers
  import opened GitCommon

  /** The status bits the library reports for one path. */
  datatype StatusFlags = StatusFlags(
    indexNew: bool,
    indexModified: bool,
    indexDeleted: bool,
    indexRenamed: bool,
    indexTypechange: bool,
    wtNew: bool,
    wtModified: bool,
    wtDeleted: bool,
    wtTypechange: bool,
    wtRenamed: bool,
    ignored: bool,
    conflicted: bool)

  /** A status entry; its path may be missing (not valid UTF-8). */
  datatype StatusEntry = StatusEntry(path: Option<string>, flags: StatusFlags)

  /** The list a status entry is reported in, if any. */
  datatype Bucket = Untracked | Modified | Unlisted

  /** New in the working tree means untracked, whatever else is set; otherwise a
      change in the working tree or the index (other than a rename or type change)
      means modified. */
  function BucketOf(f: StatusFlags): Bucket {
    if f.wtNew then Untracked
    else if f.wtModified || f.wtDeleted || f.indexModified || f.indexNew || f.indexDeleted then Modified
    else Unlisted
  }

  /** A missing path is reported as the empty string. */
  function EntryPath(e: StatusEntry): string {
    e.path.GetOr("")
  }

  /** The paths of the entries in bucket `b`, in status order. */
  function PathsIn(entries: seq<StatusEntry>, b: Bucket): seq<string>
    decreases |entries|
  {
    if |entries| == 0 then []
    else (if BucketOf(entries[0].flags) == b then [EntryPath(entries[0])] else []) + PathsIn(entries[1..], b)
  }

  lemma {:induction false} PathsInAppend(a: seq<StatusEntry>, e: StatusEntry, b: Bucket)
    ensures PathsIn(a + [e], b) == PathsIn(a, b) + (if BucketOf(e.flags) == b then [EntryPath(e)] else [])
    decreases |a|
  {
    if |a| == 0 {
      assert a + [e] == [e];
    } else {
      assert (a + [e])[1..] == a[1..] + [e];
      PathsInAppend(a[1..], e, b);
    }
  }

  /** The status loop: one pass over the entries, pushing each path onto at most
      one of the two lists. */
  method ClassifyStatuses(entries: seq<StatusEntry>) returns (modified: seq<string>, untracked: seq<string>)
    ensures modified == PathsIn(entries, Modified)
    ensures untracked == PathsIn(entries, Untracked)
  {
    modified, untracked := [], [];
    for i := 0 to |entries|
      invariant modified == PathsIn(entries[..i], Modified)
      invariant untracked == PathsIn(entries[..i], Untracked)
    {
      var e := entries[i];
      assert entries[..i + 1] == entries[..i] + [e];
      PathsInAppend(entries[..i], e, Modified);
      PathsInAppend(entries[..i], e, Untracked);
      if e.flags.wtNew {
        untracked := untracked + [EntryPath(e)];
      } else if e.flags.wtModified || e.flags.wtDeleted || e.flags.indexModified || e.flags.indexNew || e.flags.indexDeleted {
        modified := modified + [EntryPath(e)];
      }
    }
    assert entries[..|entries|] == entries;
  }

  /** Every entry lands in exactly one bucket, so the two lists together never
      report more paths than there are entries, and report all of them exactly
      when no entry is unlisted. */
  lemma {:induction false} BucketsPartitionEntries(entries: seq<StatusEntry>)
    ensures |PathsIn(entries, Modified)| + |PathsIn(entries, Untracked)| + |PathsIn(entries, Unlisted)| == |entries|
    decreases |entries|
  {
    if |entries| > 0 {
      BucketsPartitionEntries(entries[1..]);
    }
  }

  // ---------------------------------------------------------------------------
  // Ahead/behind counts.

  /** A branch reference: whether it resolves to a commit, and the library's
      ahead/behind answer against the local commit (`None` when that call fails). */
  datatype TrackingRef = TrackingRef(peels: bool, aheadBehind: Option<(nat, nat)>)

  /** What the repository reports about the current branch.
      `reachable` is the number of commits a walk from the local commit visits,
      or `None` when the walk cannot be set up. */
  datatype BranchFacts = BranchFacts(
    localFound: bool,
    localPeels: bool,
    upstream: Option<TrackingRef>,
    originExists: bool,
    references: map<string, TrackingRef>,
    reachable: Option<nat>)

  /** Ahead/behind of the local branch.  With an upstream, the library's answer;
      without one, the same against `origin`'s branch of that name if it exists, or
      every local commit counted as ahead when `origin` lacks the branch; nothing
      when there is no `origin` at all. */
  function CalculateAheadBehind(branch: string, f: BranchFacts): (r: Option<(nat, nat)>)
    ensures !f.localFound || !f.localPeels ==> r == None
    ensures (f.localFound && f.localPeels && f.upstream.Some?) ==>
              r == (if f.upstream.value.peels then f.upstream.value.aheadBehind else None)
    ensures f.upstream.None? && !f.originExists ==> r == None
    ensures (&& f.localFound && f.localPeels && f.upstream.None? && f.originExists
             && RemoteTrackingRef(branch) !in f.references) ==>
              r == (if f.reachable.Some? then Some((f.reachable.value, 0)) else None)
    ensures (&& f.localFound && f.localPeels && f.upstream.None? && f.originExists
             && RemoteTrackingRef(branch) in f.references) ==>
              r == (if f.references[RemoteTrackingRef(branch)].peels
                    then f.references[RemoteTrackingRef(branch)].aheadBehind else None)
    ensures (r.Some? && r.value.1 != 0) ==>
              f.upstream.Some? || (f.originExists && RemoteTrackingRef(branch) in f.references)
  {
    if !f.localFound || !f.localPeels then None
    else
      match f.upstream
      case Some(up) => if up.peels then up.aheadBehind else None
      case None =>
        if !f.originExists then None
        else
          var name := RemoteTrackingRef(branch);
          if name in f.references then
            (if f.references[name].peels then f.references[name].aheadBehind else None)
          else
            match f.reachable
            case Some(count) => Some((count, 0))
            case None => None
  }

  /** The reference the counts are taken against: the upstream if there is one,
      else `origin`'s branch of that name when `origin` exists and has it. */
  function TrackedRef(branch: string, f: BranchFacts): Option<TrackingRef> {
    if f.upstream.Some? then f.upstream
    else if f.originExists && RemoteTrackingRef(branch) in f.references then Some(f.references[RemoteTrackingRef(branch)])
    else None
  }

  /** The library's answer against one reference, provided it resolves to a commit. */
  function CountsAgainst(t: TrackingRef): Option<(nat, nat)> {
    if t.peels then t.aheadBehind else None
  }

  /** The counts are the library's answer against the first tracking reference
      that exists; with none, every reachable commit is ahead when `origin` exists,
      and there are no counts at all otherwise. */
  lemma AheadBehindFollowsTrackedRef(branch: string, f: BranchFacts)
    requires f.localFound && f.localPeels
    ensures TrackedRef(branch, f).Some? ==>
              CalculateAheadBehind(branch, f) == CountsAgainst(TrackedRef(branch, f).value)
    ensures TrackedRef(branch, f).None? ==>
              CalculateAheadBehind(branch, f)
              == (if f.originExists && f.reachable.Some? then Some((f.reachable.value, 0)) else None)
  {
  }

  // ---------------------------------------------------------------------------
  // The status command.

  datatype RepoStatus = RepoStatus(
    isClean: bool,
    pendingChanges: nat,
    aheadBy: nat,
    behindBy: nat,
    hasConflicts: bool,
    currentBranch: string,
    modifiedFiles: seq<string>,
    untrackedFiles: seq<string>)

  /** What the repository reports to the status command: whether it opens, HEAD,
      the `init.defaultBranch` setting, the status entries (`None` if listing them
      fails), the branch facts, and whether the index has conflicts (`None` if
      the index cannot be read). */
  datatype StatusFacts = StatusFacts(
    opens: bool,
    head: HeadState,
    defaultBranch: Option<string>,
    statuses: Option<seq<StatusEntry>>,
    branch: BranchFacts,
    index: Option<bool>)

  /** The branch name the status reports: HEAD's short name (or `HEAD`), or for an
      unborn branch the configured default branch (or `main`). */
  function CurrentBranch(f: StatusFacts): string
    requires !f.head.HeadFailed?
  {
    if f.head.HeadUnborn? then f.defaultBranch.GetOr("main") else f.head.shorthand.GetOr("HEAD")
  }

  function GetRepoStatus(f: StatusFacts): (r: Result<RepoStatus, GitError>)
    ensures !f.opens ==> r == Failure(RepoOpenError)
    ensures f.opens && f.head.HeadFailed? ==> r == Failure(RepoError)
    ensures f.opens && !f.head.HeadFailed? && f.statuses.None? ==> r == Failure(RepoError)
    ensures (f.opens && !f.head.HeadFailed? && f.statuses.Some? && f.index.None?) ==> r == Failure(IndexError)
    ensures r.Success? <==> f.opens && !f.head.HeadFailed? && f.statuses.Some? && f.index.Some?
    ensures r.Success? ==>
              && r.value.modifiedFiles == PathsIn(f.statuses.value, Modified)
              && r.value.untrackedFiles == PathsIn(f.statuses.value, Untracked)
              && r.value.pendingChanges == |r.value.modifiedFiles| + |r.value.untrackedFiles|
              && r.value.hasConflicts == f.index.value
              && (r.value.isClean <==> r.value.pendingChanges == 0 && !r.value.hasConflicts)
    ensures (r.Success? && f.head.HeadUnborn?) ==>
              && r.value.currentBranch == f.defaultBranch.GetOr("main")
              && r.value.aheadBy == 0 && r.value.behindBy == 0
    ensures (r.Success? && f.head.HeadOk?) ==>
              && r.value.currentBranch == f.head.shorthand.GetOr("HEAD")
              && (r.value.aheadBy, r.value.behindBy)
                 == CalculateAheadBehind(r.value.currentBranch, f.branch).GetOr((0, 0))
  {
    if !f.opens then Failure(RepoOpenError)
    else if f.head.HeadFailed? then Failure(RepoError)
    else
      var branch := CurrentBranch(f);
      match f.statuses
      case None => Failure(RepoError)
      case Some(entries) =>
        var modified, untracked := PathsIn(entries, Modified), PathsIn(entries, Untracked);
        var pending := |modified| + |untracked|;
        var counts := if f.head.HeadUnborn? then (0, 0) else CalculateAheadBehind(branch, f.branch).GetOr((0, 0));
        match f.index
        case None => Failure(IndexError)
        case Some(hasConflicts) =>
          Success(RepoStatus(pending == 0 && !hasConflicts, pending, counts.0, counts.1, hasConflicts,
                             branch, modified, untracked))
  }

  /** A clean repository reports no modified and no untracked path, and a status
      with no changes and no conflicts is clean. */
  lemma CleanMeansNothingPending(f: StatusFacts)
    requires GetRepoStatus(f).Success?
    ensures GetRepoStatus(f).value.isClean <==>
              GetRepoStatus(f).value.modifiedFiles == [] && GetRepoStatus(f).value.untrackedFiles == []
              && !GetRepoStatus(f).value.hasConflicts
  {
  }
}
