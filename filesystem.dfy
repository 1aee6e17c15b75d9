/**
 * The filesystem as the template registries see it: directory trees as
 * `read_dir` lists them, and file contents as `read_to_string` returns them.
 * Directory walking is defined once here; every registry iteration uses it.
 */
module FileSystem {
  import opened Wrappers
  import opened Text

  /** A path, as its components. */
  type Path = seq<string>

  /**
   * One entry of a directory listing, as its metadata classifies it.
   * `Special` is neither a file nor a directory (a symbolic link, a
   * socket); `Faulty` is an entry whose listing or metadata could not be
   * read, with the operating system's message.
   */
  datatype Entry =
    | File(name: string)
    | Dir(name: string, listing: Listing)
    | Special(name: string)
    | Faulty(message: string)

  /** A directory's contents; `Unreadable` when `read_dir` fails (a missing directory included). */
  datatype Listing = Unreadable | Listed(entries: seq<Entry>)

  /** `read_to_string`: the contents of a file, or the operating system's message. */
  type Reader = Path -> Result<string, string>

  /** The name a project template's manifest must have. */
  const PROJECT_MANIFEST: string := "templaterc.yml"

  /** `Path::file_name`: the last component; an empty path or one ending in `..` has none. */
  function FileName(p: Path): Option<string> {
    if p == [] || p[|p| - 1] == ".." then None else Some(p[|p| - 1])
  }

  /** `Path::parent`: all components but the last; an empty path has no parent. */
  function Parent(p: Path): Option<Path> {
    if p == [] then None else Some(p[..|p| - 1])
  }

  /** `Path::display`: the components joined by '/'. */
  function Display(p: Path): string {
    Join(p, "/")
  }

  /** Whether the walk keeps a file of that name: every file, or in project mode only manifests. */
  predicate Kept(name: string, projects: bool) {
    !projects || name == PROJECT_MANIFEST
  }

  /** Whether a path names a kept file. */
  predicate KeptPath(p: Path, projects: bool) {
    p != [] && Kept(p[|p| - 1], projects)
  }

  /**
   * `read_templates_dir` of the directory at `at` with contents `l`: an
   * unreadable directory yields nothing; otherwise the entries in listing
   * order, each subdirectory walked in its place.
   */
  function ListingPaths(l: Listing, at: Path, projects: bool): Result<seq<Path>, string>
    decreases l, 1
  {
    match l
    case Unreadable => Ok([])
    case Listed(es) => EntriesPaths(es, at, projects)
  }

  /** The paths of the entries `es` of the directory at `at`, the first failing entry aborting. */
  function EntriesPaths(es: seq<Entry>, at: Path, projects: bool): Result<seq<Path>, string>
    decreases es, 0
  {
    if es == [] then Ok([])
    else
      var here :- EntryPaths(es[0], at, projects);
      var rest :- EntriesPaths(es[1..], at, projects);
      Ok(here + rest)
  }

  /** The paths one entry contributes. */
  function EntryPaths(e: Entry, at: Path, projects: bool): Result<seq<Path>, string>
    decreases e, 2
  {
    match e
    case Faulty(m) => Err(m)
    case Dir(n, sub) => ListingPaths(sub, at + [n], projects)
    case File(n) => Ok(if Kept(n, projects) then [at + [n]] else [])
    case Special(_) => Ok([])
  }

  /** `read_templates_dir` as the loop the source runs, recursing into subdirectories. */
  method ReadTemplatesDir(l: Listing, at: Path, projects: bool) returns (r: Result<seq<Path>, string>)
    ensures r == ListingPaths(l, at, projects)
    decreases l
  {
    if l.Unreadable? {
      return Ok([]);
    }
    var es := l.entries;
    var buf: seq<Path> := [];
    assert es[0..] == es;
    var whole := EntriesPaths(es, at, projects);
    assert whole.Ok? ==> [] + whole.value == whole.value;
    for i := 0 to |es|
      invariant ListingPaths(l, at, projects) == Prepend(buf, EntriesPaths(es[i..], at, projects))
    {
      var e := es[i];
      EntriesPathsCons(es[i..], at, projects);
      assert es[i..][0] == e && es[i..][1..] == es[i + 1..];
      match e {
        case Faulty(m) =>
          return Err(m);
        case Dir(n, sub) =>
          var subdir := ReadTemplatesDir(sub, at + [n], projects);
          if subdir.Err? {
            return Err(subdir.error);
          }
          assert EntryPaths(e, at, projects) == subdir;
          PrependPrepend(buf, subdir.value, EntriesPaths(es[i + 1..], at, projects));
          buf := buf + subdir.value;
        case File(n) =>
          assert EntryPaths(e, at, projects) == Ok(if Kept(n, projects) then [at + [n]] else []);
          if Kept(n, projects) {
            PrependPrepend(buf, [at + [n]], EntriesPaths(es[i + 1..], at, projects));
            buf := buf + [at + [n]];
          } else {
            PrependPrepend(buf, [], EntriesPaths(es[i + 1..], at, projects));
            assert buf + [] == buf;
          }
        case Special(_) =>
          assert EntryPaths(e, at, projects) == Ok([]);
          PrependPrepend(buf, [], EntriesPaths(es[i + 1..], at, projects));
          assert buf + [] == buf;
      }
    }
    assert es[|es|..] == [];
    assert buf + [] == buf;
    return Ok(buf);
  }

  /** One step of the walk: the first entry's paths, then the rest's. */
  lemma EntriesPathsCons(es: seq<Entry>, at: Path, projects: bool)
    requires es != []
    ensures EntriesPaths(es, at, projects)
      == if EntryPaths(es[0], at, projects).Err? then Err(EntryPaths(es[0], at, projects).error)
         else Prepend(EntryPaths(es[0], at, projects).value, EntriesPaths(es[1..], at, projects))
  {
  }

  // ---------------------------------------------------------------------
  // What the walk finds
  // ---------------------------------------------------------------------

  /** `p` names a file reachable from the directory at `at` through readable directories. */
  ghost predicate InListing(l: Listing, at: Path, p: Path)
    decreases l, 1
  {
    l.Listed? && InEntries(l.entries, at, p)
  }

  ghost predicate InEntries(es: seq<Entry>, at: Path, p: Path)
    decreases es, 0
  {
    es != [] && (InEntry(es[0], at, p) || InEntries(es[1..], at, p))
  }

  ghost predicate InEntry(e: Entry, at: Path, p: Path)
    decreases e, 2
  {
    match e
    case File(n) => p == at + [n]
    case Dir(n, sub) => InListing(sub, at + [n], p)
    case _ => false
  }

  /** Some entry reachable through readable directories could not be read. */
  ghost predicate FaultIn(l: Listing)
    decreases l, 1
  {
    l.Listed? && FaultInEntries(l.entries)
  }

  ghost predicate FaultInEntries(es: seq<Entry>)
    decreases es, 0
  {
    es != [] && (FaultInEntry(es[0]) || FaultInEntries(es[1..]))
  }

  ghost predicate FaultInEntry(e: Entry)
    decreases e, 2
  {
    match e
    case Faulty(_) => true
    case Dir(_, sub) => FaultIn(sub)
    case _ => false
  }

  /**
   * The walk fails exactly when some reachable entry cannot be read, and
   * otherwise yields exactly the reachable files the mode keeps.
   */
  lemma {:induction false} ListingPathsComplete(l: Listing, at: Path, projects: bool)
    ensures ListingPaths(l, at, projects).Err? <==> FaultIn(l)
    ensures ListingPaths(l, at, projects).Ok? ==>
      forall p :: p in ListingPaths(l, at, projects).value <==> InListing(l, at, p) && KeptPath(p, projects)
    decreases l, 1
  {
    if l.Listed? {
      EntriesPathsComplete(l.entries, at, projects);
    }
  }

  lemma {:induction false} EntriesPathsComplete(es: seq<Entry>, at: Path, projects: bool)
    ensures EntriesPaths(es, at, projects).Err? <==> FaultInEntries(es)
    ensures EntriesPaths(es, at, projects).Ok? ==>
      forall p :: p in EntriesPaths(es, at, projects).value <==> InEntries(es, at, p) && KeptPath(p, projects)
    decreases es, 0
  {
    if es != [] {
      EntryPathsComplete(es[0], at, projects);
      EntriesPathsComplete(es[1..], at, projects);
    }
  }

  lemma {:induction false} EntryPathsComplete(e: Entry, at: Path, projects: bool)
    ensures EntryPaths(e, at, projects).Err? <==> FaultInEntry(e)
    ensures EntryPaths(e, at, projects).Ok? ==>
      forall p :: p in EntryPaths(e, at, projects).value <==> InEntry(e, at, p) && KeptPath(p, projects)
    decreases e, 2
  {
    match e {
      case Dir(n, sub) =>
        ListingPathsComplete(sub, at + [n], projects);
      case File(n) =>
        assert (at + [n])[|at + [n]| - 1] == n;
      case _ =>
    }
  }

  /** Every path the walk yields lies strictly below the directory walked. */
  lemma {:induction false} ListingPathsBelow(l: Listing, at: Path, projects: bool)
    ensures ListingPaths(l, at, projects).Ok? ==>
      forall p :: p in ListingPaths(l, at, projects).value ==> |p| > |at| && p[..|at|] == at
    decreases l, 1
  {
    if l.Listed? {
      EntriesPathsBelow(l.entries, at, projects);
    }
  }

  lemma {:induction false} EntriesPathsBelow(es: seq<Entry>, at: Path, projects: bool)
    ensures EntriesPaths(es, at, projects).Ok? ==>
      forall p :: p in EntriesPaths(es, at, projects).value ==> |p| > |at| && p[..|at|] == at
    decreases es, 0
  {
    if es != [] {
      EntriesPathsBelow(es[1..], at, projects);
      match es[0] {
        case Dir(n, sub) =>
          ListingPathsBelow(sub, at + [n], projects);
          if ListingPaths(sub, at + [n], projects).Ok? {
            forall p | p in ListingPaths(sub, at + [n], projects).value ensures p[..|at|] == at {
              assert p[..|at|] == p[..|at| + 1][..|at|];
            }
          }
        case File(n) =>
          assert (at + [n])[..|at|] == at;
        case _ =>
      }
    }
  }

  /** The manifests among `ps`, in order. */
  function Manifests(ps: seq<Path>): (ms: seq<Path>)
    ensures forall p :: p in ms <==> p in ps && KeptPath(p, true)
  {
    if ps == [] then []
    else (if KeptPath(ps[0], true) then [ps[0]] else []) + Manifests(ps[1..])
  }

  /** The manifests of a walk's result, its error passed through. */
  function ManifestsOf(r: Result<seq<Path>, string>): Result<seq<Path>, string> {
    if r.Ok? then Ok(Manifests(r.value)) else r
  }

  lemma {:induction false} ManifestsConcat(a: seq<Path>, b: seq<Path>)
    ensures Manifests(a + b) == Manifests(a) + Manifests(b)
  {
    if a == [] {
      assert a + b == b;
    } else {
      assert (a + b)[1..] == a[1..] + b && (a + b)[0] == a[0];
      ManifestsConcat(a[1..], b);
    }
  }

  /**
   * The project-mode walk is the file-mode walk with only the manifests
   * kept, in the same order; both fail alike.
   */
  lemma {:induction false} ProjectWalkFilters(l: Listing, at: Path)
    ensures ListingPaths(l, at, true) == ManifestsOf(ListingPaths(l, at, false))
    decreases l, 1
  {
    if l.Listed? {
      EntriesWalkFilters(l.entries, at);
    }
  }

  lemma {:induction false} EntriesWalkFilters(es: seq<Entry>, at: Path)
    ensures EntriesPaths(es, at, true) == ManifestsOf(EntriesPaths(es, at, false))
    decreases es, 0
  {
    if es != [] {
      EntriesWalkFilters(es[1..], at);
      match es[0] {
        case Dir(n, sub) =>
          ProjectWalkFilters(sub, at + [n]);
        case File(n) =>
          assert (at + [n])[|at + [n]| - 1] == n;
        case _ =>
      }
      var here := EntryPaths(es[0], at, false);
      var rest := EntriesPaths(es[1..], at, false);
      if here.Ok? && rest.Ok? {
        ManifestsConcat(here.value, rest.value);
      }
    }
  }
}
