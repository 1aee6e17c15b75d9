/**
 * The converged template registry: one shared engine, the file templates
 * and the project templates, each set filled by walking a directory and
 * loading every template found, the first of each name kept.
 */
module TemplateSets {
  import opened Wrappers
  import opened Errors
  import opened TeraAst
  import opened TemplateContext
  import opened FileSystem
  import FirstWins
  import FileTemplates
  import ProjectTemplates

  /** `read_templates_dir`: the walk, a listing or metadata failure becoming a read/write error. */
  function Walk(dir: Listing, at: Path, projects: bool): Result<seq<Path>, DevinitError> {
    var r := ListingPaths(dir, at, projects);
    if r.Ok? then Ok(r.value) else Err(FileReadWriteError(r.error))
  }

  /** `read_templates_dir` with its error as the registry reports it. */
  method TemplatePaths(dir: Listing, at: Path, projects: bool) returns (r: Result<seq<Path>, DevinitError>)
    ensures r == Walk(dir, at, projects)
  {
    var walked := FileSystem.ReadTemplatesDir(dir, at, projects);
    if walked.Err? {
      return Err(FileReadWriteError(walked.error));
    }
    return Ok(walked.value);
  }

  // ---------------------------------------------------------------------
  // The loaders, their keys and what they change in the engine
  // ---------------------------------------------------------------------

  function FileLoader(read: Reader, parse: Parser): Path -> Result<FileTemplates.FileTemplate, DevinitError> {
    (p: Path) => FileTemplates.Load(p, read, parse)
  }

  function FileKey(): FileTemplates.FileTemplate -> string {
    (t: FileTemplates.FileTemplate) => t.name
  }

  function FileStep(read: Reader, parse: Parser): (Registry, Path) -> Registry {
    (reg: Registry, p: Path) => FileTemplates.Registered(reg, p, read, parse)
  }

  function ProjectLoader(manifests: ProjectTemplates.ManifestReader, read: Reader, parse: Parser)
    : Path -> Result<ProjectTemplates.ProjectTemplate, DevinitError>
  {
    (p: Path) => ProjectTemplates.Load(p, manifests, read, parse)
  }

  function ProjectKey(): ProjectTemplates.ProjectTemplate -> string {
    (t: ProjectTemplates.ProjectTemplate) => t.name
  }

  function ProjectStep(manifests: ProjectTemplates.ManifestReader, read: Reader, parse: Parser): (Registry, Path) -> Registry {
    (reg: Registry, p: Path) => ProjectTemplates.Registered(reg, p, manifests, read, parse)
  }

  // ---------------------------------------------------------------------
  // What loading a directory yields
  // ---------------------------------------------------------------------

  /**
   * `load_file_templates` on the directory at `at`: every file below it
   * loaded in walk order into `kept`, the first of each name kept; the
   * walk's error or the first failing load aborts.
   */
  function LoadFiles(kept: map<string, FileTemplates.FileTemplate>, dir: Listing, at: Path, read: Reader, parse: Parser)
    : Result<map<string, FileTemplates.FileTemplate>, DevinitError>
  {
    var paths :- Walk(dir, at, false);
    FirstWins.LoadAll(kept, paths, FileLoader(read, parse), FileKey())
  }

  /** The file set the load leaves in place, up to the first failure (the set itself is then dropped). */
  function FilesKept(kept: map<string, FileTemplates.FileTemplate>, dir: Listing, at: Path, read: Reader, parse: Parser)
    : map<string, FileTemplates.FileTemplate>
  {
    var w := Walk(dir, at, false);
    if w.Err? then kept
    else FirstWins.Effects(kept, w.value, FileLoader(read, parse), FirstWins.Inserter(FileLoader(read, parse), FileKey()))
  }

  /** The engine after `load_file_templates`: each file registered in walk order up to the first failure. */
  function FilesRegistered(reg: Registry, dir: Listing, at: Path, read: Reader, parse: Parser): Registry {
    var w := Walk(dir, at, false);
    if w.Err? then reg else FirstWins.Effects(reg, w.value, FileLoader(read, parse), FileStep(read, parse))
  }

  /** `load_project_templates`: every manifest below `at` loaded in walk order, the first of each name kept. */
  function LoadProjects(kept: map<string, ProjectTemplates.ProjectTemplate>, dir: Listing, at: Path,
                        manifests: ProjectTemplates.ManifestReader, read: Reader, parse: Parser)
    : Result<map<string, ProjectTemplates.ProjectTemplate>, DevinitError>
  {
    var paths :- Walk(dir, at, true);
    FirstWins.LoadAll(kept, paths, ProjectLoader(manifests, read, parse), ProjectKey())
  }

  function ProjectsKept(kept: map<string, ProjectTemplates.ProjectTemplate>, dir: Listing, at: Path,
                        manifests: ProjectTemplates.ManifestReader, read: Reader, parse: Parser)
    : map<string, ProjectTemplates.ProjectTemplate>
  {
    var w := Walk(dir, at, true);
    var load := ProjectLoader(manifests, read, parse);
    if w.Err? then kept else FirstWins.Effects(kept, w.value, load, FirstWins.Inserter(load, ProjectKey()))
  }

  function ProjectsRegistered(reg: Registry, dir: Listing, at: Path,
                              manifests: ProjectTemplates.ManifestReader, read: Reader, parse: Parser): Registry
  {
    var w := Walk(dir, at, true);
    if w.Err? then reg else FirstWins.Effects(reg, w.value, ProjectLoader(manifests, read, parse), ProjectStep(manifests, read, parse))
  }

  /** `get(id)` on a set, its miss reported with the id and the kind of template. */
  function Find<T>(m: map<string, T>, id: string, kind: string): (r: Result<T, DevinitError>)
    ensures r.Ok? <==> id in m
    ensures r.Ok? ==> r.value == m[id]
    ensures r.Err? ==> r.error == IdNotFoundError("\"" + id + "\" (" + kind + ")")
  {
    if id in m then Ok(m[id]) else Err(IdNotFoundError("\"" + id + "\" (" + kind + ")"))
  }

  /**
   * `iter().collect()` on a set: its templates, each exactly once, in an
   * order the set does not promise.
   */
  method Entries<T>(m: map<string, T>) returns (ts: seq<T>, ghost ks: seq<string>)
    ensures |ts| == |m| == |ks|
    ensures forall i :: 0 <= i < |ks| ==> ks[i] in m && ts[i] == m[ks[i]]
    ensures forall i, j :: 0 <= i < j < |ks| ==> ks[i] != ks[j]
    ensures forall n :: n in m ==> n in ks
  {
    var left := m.Keys;
    ts, ks := [], [];
    while left != {}
      invariant left <= m.Keys
      invariant |ts| == |ks| && |ks| + |left| == |m.Keys|
      invariant forall i :: 0 <= i < |ks| ==> ks[i] in m && ks[i] !in left && ts[i] == m[ks[i]]
      invariant forall i, j :: 0 <= i < j < |ks| ==> ks[i] != ks[j]
      invariant forall n :: n in m ==> n in left || n in ks
      decreases left
    {
      var k :| k in left;
      ts, ks := ts + [m[k]], ks + [k];
      left := left - {k};
    }
    assert |m.Keys| == |m|;
  }

  // ---------------------------------------------------------------------
  // The registry
  // ---------------------------------------------------------------------

  class TemplateSet {
    /** The shared engine every template's bodies are registered in. */
    const ctx: Context
    /** The file templates by name. */
    var fileTemplates: map<string, FileTemplates.FileTemplate>
    /** The project templates by name. */
    var projectTemplates: map<string, ProjectTemplates.ProjectTemplate>

    /** Every template of each set is filed under its own name. */
    ghost predicate Valid()
      reads this
    {
      FirstWins.KeyedBy(fileTemplates, FileKey()) && FirstWins.KeyedBy(projectTemplates, ProjectKey())
    }

    /** `TemplateSet::new`: a fresh engine and two empty sets. */
    constructor (parse: Parser, render: Renderer)
      ensures Valid() && fresh(ctx)
      ensures ctx.templates == map[] && ctx.parse == parse && ctx.render == render
      ensures fileTemplates == map[] && projectTemplates == map[]
    {
      ctx := new Context(parse, render);
      fileTemplates := map[];
      projectTemplates := map[];
    }

    /** `load_file_templates`: the walk, then the loop of `load_templates_from_path_list`. */
    method LoadFileTemplates(dir: Listing, at: Path, read: Reader) returns (r: Result<(), DevinitError>)
      requires Valid()
      modifies this, ctx
      ensures Valid()
      ensures r.Ok? <==> LoadFiles(old(fileTemplates), dir, at, read, ctx.parse).Ok?
      ensures r.Ok? ==> LoadFiles(old(fileTemplates), dir, at, read, ctx.parse) == Ok(fileTemplates)
      ensures r.Err? ==> r.error == LoadFiles(old(fileTemplates), dir, at, read, ctx.parse).error
      ensures fileTemplates == FilesKept(old(fileTemplates), dir, at, read, ctx.parse)
      ensures ctx.templates == FilesRegistered(old(ctx.templates), dir, at, read, ctx.parse)
      ensures projectTemplates == old(projectTemplates)
    {
      var walk := TemplatePaths(dir, at, false);
      if walk.Err? {
        return Err(walk.error);
      }
      var paths := walk.value;
      var load := FileLoader(read, ctx.parse);
      var insert := FirstWins.Inserter(load, FileKey());
      var step := FileStep(read, ctx.parse);
      FirstWins.LoadAllEffects(fileTemplates, paths, load, FileKey());
      FirstWins.EffectsKeyed(fileTemplates, paths, load, FileKey());
      assert paths[0..] == paths;
      for i := 0 to |paths|
        invariant FirstWins.LoadAll(old(fileTemplates), paths, load, FileKey())
          == FirstWins.LoadAll(fileTemplates, paths[i..], load, FileKey())
        invariant FirstWins.Effects(old(fileTemplates), paths, load, insert)
          == FirstWins.Effects(fileTemplates, paths[i..], load, insert)
        invariant FirstWins.Effects(old(ctx.templates), paths, load, step)
          == FirstWins.Effects(ctx.templates, paths[i..], load, step)
        invariant projectTemplates == old(projectTemplates)
      {
        assert paths[i..][0] == paths[i] && paths[i..][1..] == paths[i + 1..];
        FirstWins.EffectsStep(fileTemplates, paths[i..], load, insert);
        FirstWins.EffectsStep(ctx.templates, paths[i..], load, step);
        var t := FileTemplates.LoadInto(paths[i], read, ctx);
        assert t == load(paths[i]);
        if t.Err? {
          return Err(t.error);
        }
        if t.value.name !in fileTemplates {
          fileTemplates := fileTemplates[t.value.name := t.value];
        }
      }
      assert paths[|paths|..] == [];
      return Ok(());
    }

    /** `load_project_templates`: the project-mode walk, then the same loop with the project loader. */
    method LoadProjectTemplates(dir: Listing, at: Path, manifests: ProjectTemplates.ManifestReader, read: Reader)
      returns (r: Result<(), DevinitError>)
      requires Valid()
      modifies this, ctx
      ensures Valid()
      ensures r.Ok? <==> LoadProjects(old(projectTemplates), dir, at, manifests, read, ctx.parse).Ok?
      ensures r.Ok? ==> LoadProjects(old(projectTemplates), dir, at, manifests, read, ctx.parse) == Ok(projectTemplates)
      ensures r.Err? ==> r.error == LoadProjects(old(projectTemplates), dir, at, manifests, read, ctx.parse).error
      ensures projectTemplates == ProjectsKept(old(projectTemplates), dir, at, manifests, read, ctx.parse)
      ensures ctx.templates == ProjectsRegistered(old(ctx.templates), dir, at, manifests, read, ctx.parse)
      ensures fileTemplates == old(fileTemplates)
    {
      var walk := TemplatePaths(dir, at, true);
      if walk.Err? {
        return Err(walk.error);
      }
      var paths := walk.value;
      var load := ProjectLoader(manifests, read, ctx.parse);
      var insert := FirstWins.Inserter(load, ProjectKey());
      var step := ProjectStep(manifests, read, ctx.parse);
      FirstWins.LoadAllEffects(projectTemplates, paths, load, ProjectKey());
      FirstWins.EffectsKeyed(projectTemplates, paths, load, ProjectKey());
      assert paths[0..] == paths;
      for i := 0 to |paths|
        invariant FirstWins.LoadAll(old(projectTemplates), paths, load, ProjectKey())
          == FirstWins.LoadAll(projectTemplates, paths[i..], load, ProjectKey())
        invariant FirstWins.Effects(old(projectTemplates), paths, load, insert)
          == FirstWins.Effects(projectTemplates, paths[i..], load, insert)
        invariant FirstWins.Effects(old(ctx.templates), paths, load, step)
          == FirstWins.Effects(ctx.templates, paths[i..], load, step)
        invariant fileTemplates == old(fileTemplates)
      {
        assert paths[i..][0] == paths[i] && paths[i..][1..] == paths[i + 1..];
        FirstWins.EffectsStep(projectTemplates, paths[i..], load, insert);
        FirstWins.EffectsStep(ctx.templates, paths[i..], load, step);
        var t := ProjectTemplates.LoadInto(paths[i], manifests, read, ctx);
        assert t == load(paths[i]);
        if t.Err? {
          return Err(t.error);
        }
        if t.value.name !in projectTemplates {
          projectTemplates := projectTemplates[t.value.name := t.value];
        }
      }
      assert paths[|paths|..] == [];
      return Ok(());
    }

    /** `get_file_template`: the file template of that name, or an id-not-found error naming it. */
    function GetFileTemplate(id: string): (r: Result<FileTemplates.FileTemplate, DevinitError>)
      reads this
      ensures r.Ok? <==> id in fileTemplates
      ensures Valid() && r.Ok? ==> r.value.name == id
      ensures r.Err? ==> r.error == IdNotFoundError("\"" + id + "\" (FILE)")
    {
      Find(fileTemplates, id, "FILE")
    }

    /** `get_project_template`: the project template of that name, or an id-not-found error naming it. */
    function GetProjectTemplate(id: string): (r: Result<ProjectTemplates.ProjectTemplate, DevinitError>)
      reads this
      ensures r.Ok? <==> id in projectTemplates
      ensures Valid() && r.Ok? ==> r.value.name == id
      ensures r.Err? ==> r.error == IdNotFoundError("\"" + id + "\" (PROJECT)")
    {
      Find(projectTemplates, id, "PROJECT")
    }

    /** `get_file_templates_all`: every file template once; their names are distinct. */
    method GetFileTemplatesAll() returns (ts: seq<FileTemplates.FileTemplate>)
      ensures |ts| == |fileTemplates|
      ensures forall i :: 0 <= i < |ts| ==> ts[i] in fileTemplates.Values
      ensures forall n :: n in fileTemplates ==> fileTemplates[n] in ts
      ensures Valid() ==> forall i, j :: 0 <= i < j < |ts| ==> ts[i].name != ts[j].name
    {
      ghost var ks;
      ts, ks := Entries(fileTemplates);
      forall n | n in fileTemplates ensures fileTemplates[n] in ts {
        var i :| 0 <= i < |ks| && ks[i] == n;
      }
    }

    /** `get_project_templates_all`: every project template once; their names are distinct. */
    method GetProjectTemplatesAll() returns (ts: seq<ProjectTemplates.ProjectTemplate>)
      ensures |ts| == |projectTemplates|
      ensures forall i :: 0 <= i < |ts| ==> ts[i] in projectTemplates.Values
      ensures forall n :: n in projectTemplates ==> projectTemplates[n] in ts
      ensures Valid() ==> forall i, j :: 0 <= i < j < |ts| ==> ts[i].name != ts[j].name
    {
      ghost var ks;
      ts, ks := Entries(projectTemplates);
      forall n | n in projectTemplates ensures projectTemplates[n] in ts {
        var i :| 0 <= i < |ks| && ks[i] == n;
      }
    }
  }

  // ---------------------------------------------------------------------
  // What a load promises
  // ---------------------------------------------------------------------

  /**
   * A file set loads exactly when the walk succeeds and every file found
   * loads; the set then holds the names it had and those of the files, the
   * earlier entries unchanged.
   */
  lemma LoadFilesKeys(kept: map<string, FileTemplates.FileTemplate>, dir: Listing, at: Path, read: Reader, parse: Parser)
    ensures LoadFiles(kept, dir, at, read, parse).Ok? <==>
      Walk(dir, at, false).Ok? && forall k :: 0 <= k < |Walk(dir, at, false).value| ==>
        FileTemplates.Load(Walk(dir, at, false).value[k], read, parse).Ok?
    ensures LoadFiles(kept, dir, at, read, parse).Ok? ==>
      var m := LoadFiles(kept, dir, at, read, parse).value;
      var ps := Walk(dir, at, false).value;
      && (forall n :: n in kept ==> n in m && m[n] == kept[n])
      && (forall n :: n in m <==> n in kept || exists k :: 0 <= k < |ps| && FileName(ps[k]) == Some(n))
  {
    var w := Walk(dir, at, false);
    if w.Ok? {
      var load := FileLoader(read, parse);
      assert forall k :: 0 <= k < |w.value| ==> load(w.value[k]) == FileTemplates.Load(w.value[k], read, parse);
      FirstWins.LoadAllTwoPhase(kept, w.value, load, FileKey());
      var all := MapAll(load, w.value);
      if all.Ok? {
        FirstWins.InsertAllKeys(kept, all.value, FileKey());
        LoadedNames(w.value, all.value, read, parse);
      }
    }
  }

  /** The templates loaded from `ps` are named exactly by the file names of `ps`. */
  lemma LoadedNames(ps: seq<Path>, all: seq<FileTemplates.FileTemplate>, read: Reader, parse: Parser)
    requires MapAll(FileLoader(read, parse), ps) == Ok(all)
    ensures forall n :: FirstWins.NamedIn(all, FileKey(), n) <==> exists k :: 0 <= k < |ps| && FileName(ps[k]) == Some(n)
  {
    forall k | 0 <= k < |ps| ensures k < |all| && FileName(ps[k]) == Some(FileKey()(all[k])) {
      LoadedName(ps, all, read, parse, k);
    }
    NamedByPaths(ps, all);
  }

  /** Templates named by the file names of `ps`, index by index, have exactly those names. */
  lemma NamedByPaths(ps: seq<Path>, all: seq<FileTemplates.FileTemplate>)
    requires |all| == |ps| && forall k :: 0 <= k < |ps| ==> FileName(ps[k]) == Some(FileKey()(all[k]))
    ensures forall n :: FirstWins.NamedIn(all, FileKey(), n) <==> exists k :: 0 <= k < |ps| && FileName(ps[k]) == Some(n)
  {
    forall n ensures FirstWins.NamedIn(all, FileKey(), n) <==> exists k :: 0 <= k < |ps| && FileName(ps[k]) == Some(n) {
      if FirstWins.NamedIn(all, FileKey(), n) {
        var k :| 0 <= k < |all| && FileKey()(all[k]) == n;
        assert FileName(ps[k]) == Some(n);
      }
      if exists k :: 0 <= k < |ps| && FileName(ps[k]) == Some(n) {
        var k :| 0 <= k < |ps| && FileName(ps[k]) == Some(n);
        assert FileKey()(all[k]) == n;
      }
    }
  }

  /** The template loaded from `ps[k]` is named by that file's name. */
  lemma LoadedName(ps: seq<Path>, all: seq<FileTemplates.FileTemplate>, read: Reader, parse: Parser, k: nat)
    requires MapAll(FileLoader(read, parse), ps) == Ok(all) && k < |ps|
    ensures k < |all| && FileName(ps[k]) == Some(FileKey()(all[k]))
  {
    var load := FileLoader(read, parse);
    assert load(ps[k]) == Ok(all[k]);
    assert FileTemplates.Load(ps[k], read, parse) == Ok(all[k]);
  }

  /**
   * Of several files of one name, the set keeps the first one the walk
   * finds: its source is that file's path.
   */
  lemma LoadFilesFirstWins(kept: map<string, FileTemplates.FileTemplate>, dir: Listing, at: Path, read: Reader, parse: Parser, k: nat)
    requires LoadFiles(kept, dir, at, read, parse).Ok?
    requires var ps := Walk(dir, at, false).value;
      && k < |ps| && FileName(ps[k]).Some? && FileName(ps[k]).value !in kept
      && forall j :: 0 <= j < k ==> FileName(ps[j]) != FileName(ps[k])
    ensures var ps := Walk(dir, at, false).value;
      var m := LoadFiles(kept, dir, at, read, parse).value;
      FileName(ps[k]).value in m && m[FileName(ps[k]).value].source == Display(ps[k])
  {
    var ps := Walk(dir, at, false).value;
    var load := FileLoader(read, parse);
    FirstWins.LoadAllTwoPhase(kept, ps, load, FileKey());
    var ts := MapAll(load, ps).value;
    forall j | 0 <= j <= k ensures Some(FileKey()(ts[j])) == FileName(ps[j]) {
      assert load(ps[j]) == Ok(ts[j]);
    }
    assert load(ps[k]) == Ok(ts[k]);
    FirstWins.InsertAllFirstWins(kept, ts, FileKey(), k);
  }

  /**
   * Two files of one name, both loading: the set keeps the first, but the
   * engine ends up holding the second's body under that name, since each
   * load registers its body before the duplicate check.
   */
  lemma DuplicateFileShadowed(kept: map<string, FileTemplates.FileTemplate>, reg: Registry, p1: Path, p2: Path, read: Reader, parse: Parser)
    requires FileTemplates.Load(p1, read, parse).Ok? && FileTemplates.Load(p2, read, parse).Ok?
    requires p1[|p1| - 1] == p2[|p2| - 1] && p1[|p1| - 1] !in kept
    ensures var n := p1[|p1| - 1];
      && FirstWins.LoadAll(kept, [p1, p2], FileLoader(read, parse), FileKey()) == Ok(kept[n := FileTemplates.Load(p1, read, parse).value])
      && FirstWins.Effects(reg, [p1, p2], FileLoader(read, parse), FileStep(read, parse)) == reg[n := parse(read(p2).value).value]
  {
    var load := FileLoader(read, parse);
    var step := FileStep(read, parse);
    var n := p1[|p1| - 1];
    var t1 := FileTemplates.Load(p1, read, parse).value;
    var t2 := FileTemplates.Load(p2, read, parse).value;
    assert [p1, p2][0] == p1 && [p1, p2][1..] == [p2] && [p2][0] == p2 && [p2][1..] == [];
    assert load(p1) == Ok(t1) && load(p2) == Ok(t2) && t2.name == n;
    assert FirstWins.Insert(kept, t1, FileKey()) == kept[n := t1];
    assert FirstWins.Insert(kept[n := t1], t2, FileKey()) == kept[n := t1];
    assert FirstWins.LoadAll(kept, [p1, p2], load, FileKey()) == FirstWins.LoadAll(kept[n := t1], [p2], load, FileKey());
    assert FirstWins.LoadAll(kept[n := t1], [p2], load, FileKey()) == FirstWins.LoadAll(kept[n := t1], [], load, FileKey());
    var a1, a2 := parse(read(p1).value).value, parse(read(p2).value).value;
    FirstWins.EffectsStep(reg, [p1, p2], load, step);
    FirstWins.EffectsStep(reg[n := a1], [p2], load, step);
    assert step(reg, p1) == reg[n := a1] && step(reg[n := a1], p2) == reg[n := a1][n := a2];
    assert FirstWins.Effects(reg[n := a1][n := a2], [], load, step) == reg[n := a1][n := a2];
    assert reg[n := a1][n := a2] == reg[n := a2];
  }

  /** A project set loads exactly when the walk succeeds and every manifest found loads. */
  lemma LoadProjectsAllOrNothing(kept: map<string, ProjectTemplates.ProjectTemplate>, dir: Listing, at: Path,
                                 manifests: ProjectTemplates.ManifestReader, read: Reader, parse: Parser)
    ensures LoadProjects(kept, dir, at, manifests, read, parse).Ok? <==>
      Walk(dir, at, true).Ok? && forall k :: 0 <= k < |Walk(dir, at, true).value| ==>
        ProjectTemplates.Load(Walk(dir, at, true).value[k], manifests, read, parse).Ok?
    ensures LoadProjects(kept, dir, at, manifests, read, parse).Ok? ==>
      forall n :: n in kept ==> n in LoadProjects(kept, dir, at, manifests, read, parse).value
  {
    var w := Walk(dir, at, true);
    if w.Ok? {
      var load := ProjectLoader(manifests, read, parse);
      assert forall k :: 0 <= k < |w.value| ==> load(w.value[k]) == ProjectTemplates.Load(w.value[k], manifests, read, parse);
      FirstWins.LoadAllTwoPhase(kept, w.value, load, ProjectKey());
      if MapAll(load, w.value).Ok? {
        FirstWins.InsertAllKeys(kept, MapAll(load, w.value).value, ProjectKey());
      }
    }
  }

  /** The project walk finds only manifests: every project template comes from a `templaterc.yml`. */
  lemma ProjectsFromManifests(dir: Listing, at: Path)
    ensures Walk(dir, at, true).Ok? <==> Walk(dir, at, false).Ok?
    ensures Walk(dir, at, true).Ok? ==> forall p :: p in Walk(dir, at, true).value ==>
      p != [] && p[|p| - 1] == PROJECT_MANIFEST && p in Walk(dir, at, false).value
  {
    ProjectWalkFilters(dir, at);
  }
}
