/** Pull and push against `origin`: the order in which a pull's outcomes are
    dispatched (unborn branch, nothing fetched, up to date, fast-forward, merge,
    conflicts), the error code each failing step reports, and the refspec a push
    sends. */
module GitSync {
  import opened Wrappers
  import opened GitCommon

  // ---------------------------------------------------------------------------
  // Conflicted paths.

  /** The paths a pull reports as conflicted: for each readable conflict record
      that has our side, our side's path, in index order.  Unreadable records and
      records without our side are skipped. */
  function OurPaths(items: ConflictItems): seq<string>
    decreases |items|
  {
    if |items| == 0 then []
    else
      (if items[0].Some? && items[0].value.our.Some? then [items[0].value.our.value.path] else [])
      + OurPaths(items[1..])
  }

  /** A path is reported exactly when some readable record's our side carries it,
      and no more paths are reported than there are records. */
  lemma {:induction false} OurPathsExactly(items: ConflictItems, p: string)
    ensures p in OurPaths(items) <==>
              exists i | 0 <= i < |items| :: items[i].Some? && items[i].value.our.Some? && items[i].value.our.value.path == p
    ensures |OurPaths(items)| <= |items|
    decreases |items|
  {
    if |items| > 0 {
      OurPathsExactly(items[1..], p);
      if p in OurPaths(items[1..]) {
        var i :| 0 <= i < |items[1..]| && items[1..][i].Some? && items[1..][i].value.our.Some? && items[1..][i].value.our.value.path == p;
        assert items[i + 1] == items[1..][i];
      }
      if exists i | 0 <= i < |items| :: items[i].Some? && items[i].value.our.Some? && items[i].value.our.value.path == p {
        var i :| 0 <= i < |items| && items[i].Some? && items[i].value.our.Some? && items[i].value.our.value.path == p;
        if i > 0 {
          assert items[1..][i - 1] == items[i];
        }
      }
    }
  }

  // ---------------------------------------------------------------------------
  // Pull.

  /** The library's merge analysis of the fetched commit against HEAD. */
  datatype MergeAnalysis = MergeAnalysis(upToDate: bool, fastForward: bool, normal: bool)

  /** The fast-forward steps: finding the branch reference, moving it, pointing
      HEAD at it, and checking it out. */
  datatype FastForwardFacts = FastForwardFacts(refFound: bool, targetSet: bool, headSet: bool, checkedOut: bool)

  /** After a merge: the index (`None` if it cannot be read), whether it has
      conflicts, and its conflict records (`None` if they cannot be listed). */
  datatype MergedIndex = MergedIndex(hasConflicts: bool, conflicts: Option<ConflictItems>)

  /** The steps that record a merge commit, in order: a signature (from the
      configuration or the fallback identity), HEAD, its commit, writing the tree,
      finding it, committing, and clearing the merge state. */
  datatype CommitFacts = CommitFacts(
    signature: bool,
    head: bool,
    peel: bool,
    writeTree: bool,
    findTree: bool,
    commit: bool,
    cleanup: bool)

  /** What the repository and the remote report to a pull.
      `refs` holds the references that exist, each mapped to whether it can be
      turned into an annotated commit; `FETCH_HEAD` is one of its possible keys. */
  datatype PullFacts = PullFacts(
    opens: bool,
    head: HeadState,
    originFound: bool,
    fetchSucceeds: bool,
    refs: map<string, bool>,
    analysis: Option<MergeAnalysis>,
    fastForward: FastForwardFacts,
    fetchedCommitFound: bool,
    mergeSucceeds: bool,
    index: Option<MergedIndex>,
    commit: CommitFacts)

  const FetchHead := "FETCH_HEAD"

  function LocalBranchRef(branch: string): string {
    "refs/heads/" + branch
  }

  function Succeeded(message: SyncMessage): Result<SyncResult, GitError> {
    Success(SyncResult(true, message, [], []))
  }

  /** Recording the merge commit: the code of the first failing step, if any. */
  function CommitMerge(c: CommitFacts): (r: Result<SyncResult, GitError>)
    ensures r.Success? <==> c.signature && c.head && c.peel && c.writeTree && c.findTree && c.commit && c.cleanup
    ensures r.Success? ==> r == Succeeded(Merged)
    // Each step's failure is reported under its own code once the steps before it succeeded.
    ensures !c.signature ==> r == Failure(CommitError)
    ensures c.signature && !c.head ==> r == Failure(RepoError)
    ensures c.signature && c.head && !c.peel ==> r == Failure(RepoError)
    ensures c.signature && c.head && c.peel && !c.writeTree ==> r == Failure(CommitError)
    ensures c.signature && c.head && c.peel && c.writeTree && !c.findTree ==> r == Failure(CommitError)
    ensures c.signature && c.head && c.peel && c.writeTree && c.findTree && !c.commit ==> r == Failure(CommitError)
    ensures c.signature && c.head && c.peel && c.writeTree && c.findTree && c.commit && !c.cleanup ==>
              r == Failure(RepoError)
    ensures r.Failure? && r.error == RepoError ==> c.signature && !(c.head && c.peel && c.cleanup)
    ensures r.Failure? ==> r.error == CommitError || r.error == RepoError
  {
    if !c.signature then Failure(CommitError)
    else if !c.head || !c.peel then Failure(RepoError)
    else if !c.writeTree || !c.findTree || !c.commit then Failure(CommitError)
    else if !c.cleanup then Failure(RepoError)
    else Succeeded(Merged)
  }

  /** The fast-forward branch of a pull. */
  function FastForward(ff: FastForwardFacts): Result<SyncResult, GitError> {
    if ff.refFound && ff.targetSet && ff.headSet && ff.checkedOut then Succeeded(FastForwarded)
    else Failure(PullError)
  }

  /** The normal-merge branch of a pull. */
  function NormalMerge(f: PullFacts): Result<SyncResult, GitError> {
    if !f.fetchedCommitFound || !f.mergeSucceeds then Failure(MergeError)
    else
      match f.index
      case None => Failure(IndexError)
      case Some(idx) =>
        if idx.hasConflicts then
          match idx.conflicts
          case None => Failure(ConflictError)
          case Some(items) => Success(SyncResult(false, ConflictsDetected, OurPaths(items), []))
        else CommitMerge(f.commit)
  }

  /** True iff the pull reached the merge analysis: the repository opened, HEAD
      named a branch, `origin` was found, the fetch succeeded and a fetched commit
      was located. */
  predicate ReachesAnalysis(f: PullFacts) {
    && f.opens && f.head.HeadOk? && f.head.shorthand.Some? && f.originFound && f.fetchSucceeds
    && (if FetchHead in f.refs then f.refs[FetchHead]
        else RemoteTrackingRef(f.head.shorthand.value) in f.refs && f.refs[RemoteTrackingRef(f.head.shorthand.value)])
  }

  function Pull(f: PullFacts): (r: Result<SyncResult, GitError>)
    ensures !f.opens ==> r == Failure(RepoOpenError)
    ensures f.opens && f.head.HeadUnborn? ==> r == Succeeded(NoCommitsYet)
    ensures (f.opens && (f.head.HeadFailed? || (f.head.HeadOk? && f.head.shorthand.None?))) ==> r == Failure(RepoError)
    ensures (f.opens && f.head.HeadOk? && f.head.shorthand.Some? && !f.originFound) ==> r == Failure(RemoteError)
    ensures (f.opens && f.head.HeadOk? && f.head.shorthand.Some? && f.originFound && !f.fetchSucceeds) ==> r == Failure(PullError)
    // Nothing fetched and no remote-tracking branch: nothing to pull.
    ensures r == Succeeded(NoRemoteChanges) <==>
              && f.opens && f.head.HeadOk? && f.head.shorthand.Some? && f.originFound && f.fetchSucceeds
              && FetchHead !in f.refs && RemoteTrackingRef(f.head.shorthand.value) !in f.refs
    // A fetched commit that cannot be read fails the pull.
    ensures (&& f.opens && f.head.HeadOk? && f.head.shorthand.Some? && f.originFound && f.fetchSucceeds
             && FetchHead in f.refs && !f.refs[FetchHead]) ==> r == Failure(PullError)
    ensures (&& f.opens && f.head.HeadOk? && f.head.shorthand.Some? && f.originFound && f.fetchSucceeds
             && FetchHead !in f.refs && RemoteTrackingRef(f.head.shorthand.value) in f.refs
             && !f.refs[RemoteTrackingRef(f.head.shorthand.value)]) ==> r == Failure(PullError)
    // After the analysis: up to date, then fast-forward, then normal merge, else MERGE_ERROR.
    ensures ReachesAnalysis(f) && f.analysis.None? ==> r == Failure(MergeError)
    ensures (ReachesAnalysis(f) && f.analysis.Some? && f.analysis.value.upToDate) ==> r == Succeeded(AlreadyUpToDate)
    ensures (&& ReachesAnalysis(f) && f.analysis.Some? && !f.analysis.value.upToDate
             && f.analysis.value.fastForward) ==> r == FastForward(f.fastForward)
    ensures (&& ReachesAnalysis(f) && f.analysis.Some? && !f.analysis.value.upToDate
             && !f.analysis.value.fastForward && f.analysis.value.normal) ==> r == NormalMerge(f)
    ensures (&& ReachesAnalysis(f) && f.analysis.Some? && !f.analysis.value.upToDate
             && !f.analysis.value.fastForward && !f.analysis.value.normal) ==> r == Failure(MergeError)
    // Only conflicts make a pull unsuccessful without an error, and they report our sides' paths.
    ensures r.Success? && !r.value.success ==>
              && ReachesAnalysis(f) && f.index.Some? && f.index.value.hasConflicts && f.index.value.conflicts.Some?
              && r.value == SyncResult(false, ConflictsDetected, OurPaths(f.index.value.conflicts.value), [])
    ensures r.Success? && r.value.success ==> r.value.conflicts == []
    ensures r.Success? ==> r.value.filesChanged == []
  {
    if !f.opens then Failure(RepoOpenError)
    else
      match f.head
      case HeadUnborn => Succeeded(NoCommitsYet)
      case HeadFailed => Failure(RepoError)
      case HeadOk(shorthand) =>
        if shorthand.None? then Failure(RepoError)
        else if !f.originFound then Failure(RemoteError)
        else if !f.fetchSucceeds then Failure(PullError)
        else
          var tracking := RemoteTrackingRef(shorthand.value);
          if FetchHead !in f.refs && tracking !in f.refs then Succeeded(NoRemoteChanges)
          else if FetchHead in f.refs && !f.refs[FetchHead] then Failure(PullError)
          else if FetchHead !in f.refs && !f.refs[tracking] then Failure(PullError)
          else
            match f.analysis
            case None => Failure(MergeError)
            case Some(a) =>
              if a.upToDate then Succeeded(AlreadyUpToDate)
              else if a.fastForward then FastForward(f.fastForward)
              else if a.normal then NormalMerge(f)
              else Failure(MergeError)
  }

  /** An existing FETCH_HEAD is always used: the remote-tracking branch is consulted
      only when FETCH_HEAD is missing, so a FETCH_HEAD that cannot be read fails
      the pull whatever the tracking branch says. */
  lemma FetchHeadTakesPrecedence(f: PullFacts, tracking: bool)
    requires f.opens && f.head.HeadOk? && f.head.shorthand.Some? && f.originFound && f.fetchSucceeds
    requires FetchHead in f.refs
    ensures Pull(f) == Pull(f.(refs := f.refs[RemoteTrackingRef(f.head.shorthand.value) := tracking]))
    ensures !f.refs[FetchHead] ==> Pull(f) == Failure(PullError)
  {
    // FETCH_HEAD is not under refs/remotes/, so the update leaves it alone.
    assert RemoteTrackingRef(f.head.shorthand.value)[0] != FetchHead[0];
    var g := f.(refs := f.refs[RemoteTrackingRef(f.head.shorthand.value) := tracking]);
    assert g.refs[FetchHead] == f.refs[FetchHead];
    assert ReachesAnalysis(g) == ReachesAnalysis(f);
  }

  // ---------------------------------------------------------------------------
  // Push.

  /** The refspec a push of `branch` sends: the local branch onto the remote branch
      of the same name. */
  function Refspec(branch: string): string {
    LocalBranchRef(branch) + ":" + LocalBranchRef(branch)
  }

  /** Splits a refspec at its first colon into source and destination. */
  function ParseRefspec(s: string): (r: Option<(string, string)>)
    ensures r.Some? ==> s == r.value.0 + ":" + r.value.1 && ':' !in r.value.0
    ensures r.None? <==> ':' !in s
    decreases |s|
  {
    if |s| == 0 then None
    else if s[0] == ':' then Some(([], s[1..]))
    else
      match ParseRefspec(s[1..])
      case None => None
      case Some(parts) => Some(([s[0]] + parts.0, parts.1))
  }

  /** A branch name without a colon (which git forbids in reference names)
      survives the refspec: it parses back into the local branch as both source
      and destination. */
  lemma RefspecRoundTrip(branch: string)
    requires ':' !in branch
    ensures ParseRefspec(Refspec(branch)) == Some((LocalBranchRef(branch), LocalBranchRef(branch)))
  {
    var src := LocalBranchRef(branch);
    assert ':' !in src by {
      assert forall i | 0 <= i < |src| :: src[i] == ("refs/heads/" + branch)[i];
    }
    SplitAtFirstColon(src, src);
  }

  lemma {:induction false} SplitAtFirstColon(a: string, b: string)
    requires ':' !in a
    ensures ParseRefspec(a + ":" + b) == Some((a, b))
    decreases |a|
  {
    if |a| == 0 {
      assert a + ":" + b == [':'] + b;
      assert (a + ":" + b)[1..] == b;
    } else {
      assert (a + ":" + b)[1..] == a[1..] + ":" + b;
      assert ':' !in a[1..] by {
        forall c | c in a[1..] ensures c != ':' {
          assert c in a;
        }
      }
      SplitAtFirstColon(a[1..], b);
      assert [a[0]] + a[1..] == a;
    }
  }

  /** Different branches push different refspecs. */
  lemma RefspecInjective(a: string, b: string)
    requires Refspec(a) == Refspec(b)
    ensures a == b
  {
    var n := |LocalBranchRef(a)|;
    assert |a| == |b|;
    assert LocalBranchRef(a) == Refspec(a)[..n] == Refspec(b)[..n] == LocalBranchRef(b);
    assert a == LocalBranchRef(a)[11..] == LocalBranchRef(b)[11..] == b;
  }

  /** What the repository and the remote report to a push. */
  datatype PushFacts = PushFacts(opens: bool, head: HeadState, originFound: bool, pushSucceeds: bool)

  /** A push's reply, and the refspec sent to the remote if a push was attempted. */
  datatype PushRun = PushRun(reply: Result<SyncResult, GitError>, pushed: Option<string>)

  function Push(f: PushFacts): (run: PushRun)
    ensures !f.opens ==> run == PushRun(Failure(RepoOpenError), None)
    // An unborn branch is a reply, not an error, and nothing is pushed.
    ensures f.opens && f.head.HeadUnborn? ==> run == PushRun(Success(SyncResult(false, NoCommitsYet, [], [])), None)
    ensures (f.opens && (f.head.HeadFailed? || (f.head.HeadOk? && f.head.shorthand.None?))) ==> run == PushRun(Failure(RepoError), None)
    ensures (f.opens && f.head.HeadOk? && f.head.shorthand.Some? && !f.originFound) ==> run == PushRun(Failure(RemoteError), None)
    // Whenever something is pushed, it is the current branch onto its namesake.
    ensures run.pushed.Some? <==> f.opens && f.head.HeadOk? && f.head.shorthand.Some? && f.originFound
    ensures run.pushed.Some? ==> run.pushed.value == Refspec(f.head.shorthand.value)
    ensures run.pushed.Some? ==>
              run.reply == (if f.pushSucceeds then Success(SyncResult(true, Pushed, [], [])) else Failure(PushError))
  {
    if !f.opens then PushRun(Failure(RepoOpenError), None)
    else
      match f.head
      case HeadUnborn => PushRun(Success(SyncResult(false, NoCommitsYet, [], [])), None)
      case HeadFailed => PushRun(Failure(RepoError), None)
      case HeadOk(shorthand) =>
        if shorthand.None? then PushRun(Failure(RepoError), None)
        else if !f.originFound then PushRun(Failure(RemoteError), None)
        else
          var spec := Refspec(shorthand.value);
          PushRun(if f.pushSucceeds then Success(SyncResult(true, Pushed, [], [])) else Failure(PushError), Some(spec))
  }
}
