/**
 * The templater's first registry: file templates registered in a shared
 * engine as they load, and project templates that are not implemented.
 */
module LegacyTemplates {
  import opened Wrappers
  import opened Errors
  import opened TeraAst
  import opened TemplateContext
  import opened FileSystem
  import opened ExecRegistry
  import FirstWins
  import FileTemplates

  /** `FileTemplate`: its name (the file name) and its raw text. */
  datatype FileTemplate = FileTemplate(name: string, literal: string)

  /**
   * `ProjectTemplate`: its loader is `todo!()`, so none is ever built;
   * the set of them stays empty.
   */
  datatype ProjectTemplate = Unimplemented

  /** The panic of the unimplemented `ProjectTemplate::load`. */
  const ProjectLoadPanic := Panic(ProjectLoadTodo)

  /**
   * `FileTemplate::load`, its result: the name is the path's last
   * component and the literal the raw file text; a path without a file
   * name or an unreadable file is a read/write error, and a body the engine
   * cannot parse is a parse error.
   */
  function Load(p: Path, read: Reader, parse: Parser): (r: Result<FileTemplate, ExecError>)
    ensures r.Ok? <==> FileName(p).Some? && read(p).Ok? && parse(read(p).value).Ok?
    ensures r.Ok? ==> r.value == FileTemplate(p[|p| - 1], read(p).value)
    ensures FileName(p).None? ==> r == Err(ExecFileReadWriteError("Failed to extract filename from path " + FileTemplates.DebugPath(p)))
    ensures FileName(p).Some? && read(p).Err? ==> r == Err(ExecFileReadWriteError(read(p).error))
    ensures FileName(p).Some? && read(p).Ok? && parse(read(p).value).Err? ==>
      r == Err(ExecTemplateParseError(parse(read(p).value).error))
  {
    if FileName(p).None? then Err(ExecFileReadWriteError("Failed to extract filename from path " + FileTemplates.DebugPath(p)))
    else if read(p).Err? then Err(ExecFileReadWriteError(read(p).error))
    else if parse(read(p).value).Err? then Err(ExecTemplateParseError(parse(read(p).value).error))
    else Ok(FileTemplate(FileName(p).value, read(p).value))
  }

  /** `FileTemplate::load`, registering the raw body in the shared context under the name. */
  method LoadInto(p: Path, read: Reader, ctx: Context) returns (r: Result<FileTemplate, ExecError>)
    modifies ctx
    ensures r == Load(p, read, ctx.parse)
    ensures ctx.templates == FileTemplates.Registered(old(ctx.templates), p, read, ctx.parse)
  {
    var name := FileName(p);
    if name.None? {
      return Err(ExecFileReadWriteError("Failed to extract filename from path " + FileTemplates.DebugPath(p)));
    }
    var literal := read(p);
    if literal.Err? {
      return Err(ExecFileReadWriteError(literal.error));
    }
    var added := ctx.AddRawTemplate(name.value, literal.value);
    if added.Err? {
      return Err(ExecTemplateParseError(added.error));
    }
    return Ok(FileTemplate(name.value, literal.value));
  }

  /**
   * This loader and the converged one accept the same paths, register the
   * same body under the same name, and differ only in the error type and
   * in keeping the text rather than the path.
   */
  lemma LoadAgreesWithConverged(p: Path, read: Reader, parse: Parser)
    ensures Load(p, read, parse).Ok? <==> FileTemplates.Load(p, read, parse).Ok?
    ensures Load(p, read, parse).Ok? ==> Load(p, read, parse).value.name == FileTemplates.Load(p, read, parse).value.name
  {
  }

  function FileLoader(read: Reader, parse: Parser): Path -> Result<FileTemplate, ExecError> {
    (p: Path) => Load(p, read, parse)
  }

  function FileKey(): FileTemplate -> string {
    (t: FileTemplate) => t.name
  }

  function FileStep(read: Reader, parse: Parser): (Registry, Path) -> Registry {
    (reg: Registry, p: Path) => FileTemplates.Registered(reg, p, read, parse)
  }

  /** `ProjectTemplate::load`: it panics on every path. */
  function ProjectLoader(): Path -> Result<ProjectTemplate, ExecError> {
    (p: Path) => Err(ProjectLoadPanic)
  }

  /** The project template's name: `todo!()` as well; never reached, since no project template is built. */
  function ProjectKey(): ProjectTemplate -> string {
    (t: ProjectTemplate) => ""
  }

  /** `load_file_templates`: every file found loaded in walk order, the first of each name kept. */
  function LoadFiles(kept: map<string, FileTemplate>, dir: Listing, at: Path, read: Reader, parse: Parser)
    : Result<map<string, FileTemplate>, ExecError>
  {
    var paths :- ExecWalk(dir, at);
    FirstWins.LoadAll(kept, paths, FileLoader(read, parse), FileKey())
  }

  function FilesKept(kept: map<string, FileTemplate>, dir: Listing, at: Path, read: Reader, parse: Parser)
    : map<string, FileTemplate>
  {
    var w := ExecWalk(dir, at);
    if w.Err? then kept
    else FirstWins.Effects(kept, w.value, FileLoader(read, parse), FirstWins.Inserter(FileLoader(read, parse), FileKey()))
  }

  function FilesRegistered(reg: Registry, dir: Listing, at: Path, read: Reader, parse: Parser): Registry {
    var w := ExecWalk(dir, at);
    if w.Err? then reg else FirstWins.Effects(reg, w.value, FileLoader(read, parse), FileStep(read, parse))
  }

  /** `load_project_templates`: every file found is loaded as a project template. */
  function LoadProjects(kept: map<string, ProjectTemplate>, dir: Listing, at: Path): Result<map<string, ProjectTemplate>, ExecError> {
    var paths :- ExecWalk(dir, at);
    FirstWins.LoadAll(kept, paths, ProjectLoader(), ProjectKey())
  }

  /** Loading project templates succeeds only on a directory with no files, and then adds nothing. */
  lemma LoadProjectsPanics(kept: map<string, ProjectTemplate>, dir: Listing, at: Path)
    ensures ExecWalk(dir, at).Ok? && ExecWalk(dir, at).value != [] ==> LoadProjects(kept, dir, at) == Err(ProjectLoadPanic)
    ensures LoadProjects(kept, dir, at).Ok? ==> ExecWalk(dir, at) == Ok([]) && LoadProjects(kept, dir, at).value == kept
  {
    var w := ExecWalk(dir, at);
    if w.Ok? && w.value != [] {
      FirstWins.LoadAllFirstError(kept, w.value, ProjectLoader(), ProjectKey(), 0);
    }
  }

  /** The first file of each name the walk finds is the one kept, with its own text. */
  lemma LoadFilesFirstWins(kept: map<string, FileTemplate>, dir: Listing, at: Path, read: Reader, parse: Parser, k: nat)
    requires LoadFiles(kept, dir, at, read, parse).Ok?
    requires var ps := ExecWalk(dir, at).value;
      && k < |ps| && FileName(ps[k]).Some? && FileName(ps[k]).value !in kept
      && forall j :: 0 <= j < k ==> FileName(ps[j]) != FileName(ps[k])
    ensures var ps := ExecWalk(dir, at).value;
      var m := LoadFiles(kept, dir, at, read, parse).value;
      FileName(ps[k]).value in m && read(ps[k]).Ok? && m[FileName(ps[k]).value].literal == read(ps[k]).value
  {
    var ps := ExecWalk(dir, at).value;
    var load := FileLoader(read, parse);
    FirstWins.LoadAllTwoPhase(kept, ps, load, FileKey());
    var ts := MapAll(load, ps).value;
    forall j | 0 <= j <= k ensures Some(FileKey()(ts[j])) == FileName(ps[j]) {
      assert load(ps[j]) == Ok(ts[j]);
    }
    assert load(ps[k]) == Ok(ts[k]);
    FirstWins.InsertAllFirstWins(kept, ts, FileKey(), k);
  }

  /** The registry. */
  class TemplateSet {
    const ctx: Context
    var fileTemplates: map<string, FileTemplate>
    var projectTemplates: map<string, ProjectTemplate>

    ghost predicate Valid()
      reads this
    {
      FirstWins.KeyedBy(fileTemplates, FileKey())
    }

    /** `TemplateSet::new`: a fresh engine and two empty sets. */
    constructor (parse: Parser, render: Renderer)
      ensures Valid() && fresh(ctx)
      ensures ctx.templates == map[] && ctx.parse == parse && ctx.render == render
      ensures fileTemplates == map[] && projectTemplates == map[]
    {
      ctx := new Context(parse, render);
      fileTemplates := map[];
      projectTemplates := map[];
    }

    /** `load_file_templates`: the walk, then the loop of `load_templates_from_path_list`. */
    method LoadFileTemplates(dir: Listing, at: Path, read: Reader) returns (r: Result<(), ExecError>)
      requires Valid()
      modifies this, ctx
      ensures Valid()
      ensures r.Ok? <==> LoadFiles(old(fileTemplates), dir, at, read, ctx.parse).Ok?
      ensures r.Ok? ==> LoadFiles(old(fileTemplates), dir, at, read, ctx.parse) == Ok(fileTemplates)
      ensures r.Err? ==> r.error == LoadFiles(old(fileTemplates), dir, at, read, ctx.parse).error
      ensures fileTemplates == FilesKept(old(fileTemplates), dir, at, read, ctx.parse)
      ensures ctx.templates == FilesRegistered(old(ctx.templates), dir, at, read, ctx.parse)
      ensures projectTemplates == old(projectTemplates)
    {
      var walk := ExecTemplatePaths(dir, at);
      if walk.Err? {
        return Err(walk.error);
      }
      var paths := walk.value;
      var load := FileLoader(read, ctx.parse);
      var insert := FirstWins.Inserter(load, FileKey());
      var step := FileStep(read, ctx.parse);
      FirstWins.LoadAllEffects(fileTemplates, paths, load, FileKey());
      FirstWins.EffectsKeyed(fileTemplates, paths, load, FileKey());
      assert paths[0..] == paths;
      for i := 0 to |paths|
        invariant FirstWins.LoadAll(old(fileTemplates), paths, load, FileKey())
          == FirstWins.LoadAll(fileTemplates, paths[i..], load, FileKey())
        invariant FirstWins.Effects(old(fileTemplates), paths, load, insert)
          == FirstWins.Effects(fileTemplates, paths[i..], load, insert)
        invariant FirstWins.Effects(old(ctx.templates), paths, load, step)
          == FirstWins.Effects(ctx.templates, paths[i..], load, step)
        invariant projectTemplates == old(projectTemplates)
      {
        assert paths[i..][0] == paths[i] && paths[i..][1..] == paths[i + 1..];
        FirstWins.EffectsStep(fileTemplates, paths[i..], load, insert);
        FirstWins.EffectsStep(ctx.templates, paths[i..], load, step);
        var t := LoadInto(paths[i], read, ctx);
        assert t == load(paths[i]);
        if t.Err? {
          return Err(t.error);
        }
        if t.value.name !in fileTemplates {
          fileTemplates := fileTemplates[t.value.name := t.value];
        }
      }
      assert paths[|paths|..] == [];
      return Ok(());
    }

    /** `load_project_templates`: the walk, then the loop with the panicking loader. */
    method LoadProjectTemplates(dir: Listing, at: Path) returns (r: Result<(), ExecError>)
      modifies this
      ensures r.Ok? <==> LoadProjects(old(projectTemplates), dir, at).Ok?
      ensures r.Ok? ==> LoadProjects(old(projectTemplates), dir, at) == Ok(projectTemplates)
      ensures r.Err? ==> r.error == LoadProjects(old(projectTemplates), dir, at).error
      ensures projectTemplates == old(projectTemplates) && fileTemplates == old(fileTemplates)
    {
      var walk := ExecTemplatePaths(dir, at);
      if walk.Err? {
        return Err(walk.error);
      }
      var kept;
      r, kept := FirstWins.LoadEach(projectTemplates, walk.value, ProjectLoader(), ProjectKey());
      LoadProjectsPanics(projectTemplates, dir, at);
      if walk.value != [] {
        FirstWins.EffectsStep(projectTemplates, walk.value, ProjectLoader(), FirstWins.Inserter(ProjectLoader(), ProjectKey()));
      }
      projectTemplates := kept;
    }

    /** `get_file_template`: the file template of that name, or an id-not-found error naming it. */
    function GetFileTemplate(id: string): (r: Result<FileTemplate, ExecError>)
      reads this
      ensures r.Ok? <==> id in fileTemplates
      ensures Valid() && r.Ok? ==> r.value.name == id
      ensures r.Err? ==> r.error == ExecIdNotFoundError("\"" + id + "\" (FILE)")
    {
      ExecFind(fileTemplates, id, "FILE")
    }

    /** `get_project_template`: always the id-not-found error once loading has succeeded, since the set stays empty. */
    function GetProjectTemplate(id: string): (r: Result<ProjectTemplate, ExecError>)
      reads this
      ensures r.Ok? <==> id in projectTemplates
      ensures r.Err? ==> r.error == ExecIdNotFoundError("\"" + id + "\" (PROJECT)")
    {
      ExecFind(projectTemplates, id, "PROJECT")
    }
  }
}
