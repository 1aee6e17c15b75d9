/**
 * What the three earlier registries share: the same directory walk, keeping
 * every file, and the same lookup, both reporting `ExecError`s.
 */
module ExecRegistry {
  import opened Wrappers
  import opened Errors
  import opened FileSystem

  /** `read_templates_dir` of the earlier registries: every file below `at`, a failure a read/write error. */
  function ExecWalk(dir: Listing, at: Path): Result<seq<Path>, ExecError> {
    var r := ListingPaths(dir, at, false);
    if r.Ok? then Ok(r.value) else Err(ExecFileReadWriteError(r.error))
  }

  /** `read_templates_dir` as the loop the source runs. */
  method ExecTemplatePaths(dir: Listing, at: Path) returns (r: Result<seq<Path>, ExecError>)
    ensures r == ExecWalk(dir, at)
  {
    var walked := FileSystem.ReadTemplatesDir(dir, at, false);
    if walked.Err? {
      return Err(ExecFileReadWriteError(walked.error));
    }
    return Ok(walked.value);
  }

  /** `get(id)` on a set of the earlier registries, a miss naming the id and the kind. */
  function ExecFind<T>(m: map<string, T>, id: string, kind: string): (r: Result<T, ExecError>)
    ensures r.Ok? <==> id in m
    ensures r.Ok? ==> r.value == m[id]
    ensures r.Err? ==> r.error == ExecIdNotFoundError("\"" + id + "\" (" + kind + ")")
  {
    if id in m then Ok(m[id]) else Err(ExecIdNotFoundError("\"" + id + "\" (" + kind + ")"))
  }

  /** An unreadable root is an empty directory: nothing is found and nothing fails. */
  lemma UnreadableRootEmpty(at: Path)
    ensures ExecWalk(Unreadable, at) == Ok([])
  {
  }

  /** The walk fails exactly when some reachable entry cannot be read, and finds exactly the reachable files. */
  lemma ExecWalkComplete(dir: Listing, at: Path)
    ensures ExecWalk(dir, at).Err? <==> FaultIn(dir)
    ensures ExecWalk(dir, at).Ok? ==> forall p :: p in ExecWalk(dir, at).value <==> InListing(dir, at, p) && p != []
  {
    ListingPathsComplete(dir, at, false);
  }
}
