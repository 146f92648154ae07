/** The conflict-content command: the three versions (base, ours, theirs) of one
    conflicted file, taken from the first conflict record for that path. */
module GitConflicts {
  import opened Wrappers
  import opened GitCommon

  datatype ConflictContent = ConflictContent(base: string, ours: string, theirs: string)

  const NoContent := ConflictContent("", "", "")

  /** What the repository reports: whether it opens, whether its index can be read,
      the index's conflict records (`None` if they cannot be listed), and the text
      of each blob that can be found. */
  datatype ConflictFacts = ConflictFacts(
    opens: bool,
    indexReadable: bool,
    conflicts: Option<ConflictItems>,
    blobs: map<nat, string>)

  /** The path a conflict record is filed under: our side's, else their side's,
      else the empty string. */
  function ConflictPath(c: Conflict): string {
    if c.our.Some? then c.our.value.path
    else if c.their.Some? then c.their.value.path
    else ""
  }

  /** The text of one side: its blob's text, or empty when the side is absent or
      its blob cannot be found. */
  function SideText(side: Option<IndexEntry>, blobs: map<nat, string>): string {
    if side.Some? && side.value.blob in blobs then blobs[side.value.blob] else ""
  }

  function ContentOf(c: Conflict, blobs: map<nat, string>): ConflictContent {
    ConflictContent(SideText(c.ancestor, blobs), SideText(c.our, blobs), SideText(c.their, blobs))
  }

  /** True iff the iteration stops at this item: it cannot be read, or it is filed
      under `filePath`. */
  predicate StopsAt(item: Option<Conflict>, filePath: string) {
    item.None? || ConflictPath(item.value) == filePath
  }

  /** The position where the iteration stops, or the number of items if it runs
      through all of them. */
  function SelectConflict(items: ConflictItems, filePath: string): (k: nat)
    ensures k <= |items|
    ensures forall i | 0 <= i < k :: !StopsAt(items[i], filePath)
    ensures k < |items| ==> StopsAt(items[k], filePath)
    decreases |items|
  {
    if |items| == 0 then 0
    else if StopsAt(items[0], filePath) then 0
    else 1 + SelectConflict(items[1..], filePath)
  }

  /** The command's answer as a function of where the iteration stops. */
  function ConflictContentSpec(f: ConflictFacts, filePath: string): Result<ConflictContent, GitError> {
    if !f.opens then Failure(RepoOpenError)
    else if !f.indexReadable then Failure(IndexError)
    else if f.conflicts.None? then Failure(ConflictError)
    else
      var items := f.conflicts.value;
      var k := SelectConflict(items, filePath);
      if k == |items| then Success(NoContent)
      else if items[k].None? then Failure(ConflictError)
      else Success(ContentOf(items[k].value, f.blobs))
  }

  /** The command, record by record: unreadable records before the match fail it,
      records filed under other paths are skipped, and the first match is used. */
  method GetConflictContent(f: ConflictFacts, filePath: string) returns (r: Result<ConflictContent, GitError>)
    ensures r == ConflictContentSpec(f, filePath)
    ensures r.Success? && r != Success(NoContent) ==>
              exists i | 0 <= i < |f.conflicts.value| ::
                f.conflicts.value[i].Some? && ConflictPath(f.conflicts.value[i].value) == filePath
  {
    if !f.opens {
      return Failure(RepoOpenError);
    }
    if !f.indexReadable {
      return Failure(IndexError);
    }
    if f.conflicts.None? {
      return Failure(ConflictError);
    }
    var items := f.conflicts.value;
    ghost var k := SelectConflict(items, filePath);
    var i := 0;
    while i < |items|
      invariant i <= k
      decreases |items| - i
    {
      match items[i] {
        case None =>
          return Failure(ConflictError);
        case Some(c) =>
          if ConflictPath(c) == filePath {
            return Success(ContentOf(c, f.blobs));
          }
      }
      i := i + 1;
    }
    return Success(NoContent);
  }

  /** A record filed under the requested path is never shadowed by a later one,
      and records for other paths before it do not matter. */
  lemma {:induction false} FirstMatchWins(skipped: ConflictItems, c: Conflict, rest: ConflictItems, filePath: string)
    requires forall i | 0 <= i < |skipped| :: skipped[i].Some? && ConflictPath(skipped[i].value) != filePath
    requires ConflictPath(c) == filePath
    ensures SelectConflict(skipped + [Some(c)] + rest, filePath) == |skipped|
    decreases |skipped|
  {
    var items := skipped + [Some(c)] + rest;
    if |skipped| == 0 {
      assert items[0] == Some(c);
    } else {
      assert items[0] == skipped[0];
      assert items[1..] == skipped[1..] + [Some(c)] + rest;
      FirstMatchWins(skipped[1..], c, rest, filePath);
    }
  }
}
