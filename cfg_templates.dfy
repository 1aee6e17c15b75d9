/**
 * A registry of preprocessed file templates: each file's id is the name
 * its `SPECIFY NAME` directive gives, and its literal the text with
 * directives and comments stripped. Project templates are not implemented.
 */
module CfgTemplates {
  import opened Wrappers
  import opened Errors
  import opened FileSystem
  import opened ExecRegistry
  import FirstWins
  import EnginePreprocessor

  /** `FileTemplate`: the preprocessor's id and the cleaned text. */
  datatype FileTemplate = FileTemplate(id: string, literal: string)

  /** `ProjectTemplate`: its loader is `todo!()`, so none is ever built. */
  datatype ProjectTemplate = Unimplemented

  /** The panic of the unimplemented `ProjectTemplate::load`. */
  const ProjectLoadPanic := Panic(ProjectLoadTodo)

  /**
   * `FileTemplate::load`: the file read, then preprocessed; an unreadable
   * file is a read/write error and a preprocessing error aborts the load.
   */
  function Load(p: Path, read: Reader): (r: Result<FileTemplate, ExecError>)
    ensures r.Ok? <==> read(p).Ok? && EnginePreprocessor.Run(read(p).value).Ok?
    ensures read(p).Err? ==> r == Err(ExecFileReadWriteError(read(p).error))
    ensures read(p).Ok? && EnginePreprocessor.Run(read(p).value).Err? ==> r == Err(EnginePreprocessor.Run(read(p).value).error)
    ensures r.Ok? ==> var pre := EnginePreprocessor.Run(read(p).value).value;
      r.value == FileTemplate(pre.id, pre.cleanLiteral)
  {
    var literal :- if read(p).Ok? then Ok(read(p).value) else Err(ExecFileReadWriteError(read(p).error));
    var preproc :- EnginePreprocessor.Run(literal);
    Ok(FileTemplate(preproc.id, preproc.cleanLiteral))
  }

  /** `FileTemplate::load` as the source runs it, through the preprocessor's loop. */
  method LoadTemplate(p: Path, read: Reader) returns (r: Result<FileTemplate, ExecError>)
    ensures r == Load(p, read)
  {
    var literal := read(p);
    if literal.Err? {
      return Err(ExecFileReadWriteError(literal.error));
    }
    var preproc := EnginePreprocessor.RunPreprocessor(literal.value);
    if preproc.Err? {
      return Err(preproc.error);
    }
    return Ok(FileTemplate(preproc.value.id, preproc.value.cleanLiteral));
  }

  /**
   * A file none of whose directives sets `NAME` loads with the empty id;
   * all such files share it, and of those the set keeps only the first.
   */
  lemma NoNameDirectiveEmptyId(p: Path, read: Reader)
    requires Load(p, read).Ok?
    requires var ss := EnginePreprocessor.Run(read(p).value).value.statements;
      var ds := MapAll(EnginePreprocessor.TokeniseDirective, ss);
      ds.Ok? && forall j :: 0 <= j < |ds.value| ==> ds.value[j].key != "NAME"
    ensures Load(p, read).value.id == ""
  {
    EnginePreprocessor.RunResult(read(p).value);
    var ss := EnginePreprocessor.Run(read(p).value).value.statements;
    EnginePreprocessor.LastNameNone(MapAll(EnginePreprocessor.TokeniseDirective, ss).value, "");
  }

  function FileLoader(read: Reader): Path -> Result<FileTemplate, ExecError> {
    (p: Path) => Load(p, read)
  }

  function FileKey(): FileTemplate -> string {
    (t: FileTemplate) => t.id
  }

  /** `ProjectTemplate::load`: it panics on every path. */
  function ProjectLoader(): Path -> Result<ProjectTemplate, ExecError> {
    (p: Path) => Err(ProjectLoadPanic)
  }

  /** The project template's id: `todo!()` as well; never reached, since no project template is built. */
  function ProjectKey(): ProjectTemplate -> string {
    (t: ProjectTemplate) => ""
  }

  /** `load_file_templates`: every file found loaded in walk order, the first of each id kept. */
  function LoadFiles(kept: map<string, FileTemplate>, dir: Listing, at: Path, read: Reader): Result<map<string, FileTemplate>, ExecError> {
    var paths :- ExecWalk(dir, at);
    FirstWins.LoadAll(kept, paths, FileLoader(read), FileKey())
  }

  function FilesKept(kept: map<string, FileTemplate>, dir: Listing, at: Path, read: Reader): map<string, FileTemplate> {
    var w := ExecWalk(dir, at);
    if w.Err? then kept else FirstWins.Effects(kept, w.value, FileLoader(read), FirstWins.Inserter(FileLoader(read), FileKey()))
  }

  /** `load_project_templates`: every file found is loaded as a project template. */
  function LoadProjects(kept: map<string, ProjectTemplate>, dir: Listing, at: Path): Result<map<string, ProjectTemplate>, ExecError> {
    var paths :- ExecWalk(dir, at);
    FirstWins.LoadAll(kept, paths, ProjectLoader(), ProjectKey())
  }

  /** Loading project templates succeeds only on a directory with no files, and then adds nothing. */
  lemma LoadProjectsPanics(kept: map<string, ProjectTemplate>, dir: Listing, at: Path)
    ensures ExecWalk(dir, at).Ok? && ExecWalk(dir, at).value != [] ==> LoadProjects(kept, dir, at) == Err(ProjectLoadPanic)
    ensures LoadProjects(kept, dir, at).Ok? ==> ExecWalk(dir, at) == Ok([]) && LoadProjects(kept, dir, at).value == kept
  {
    var w := ExecWalk(dir, at);
    if w.Ok? && w.value != [] {
      FirstWins.LoadAllFirstError(kept, w.value, ProjectLoader(), ProjectKey(), 0);
    }
  }

  /**
   * Two files that both load with the same id, the first one's id new: the
   * set keeps the first and drops the second. Files without a name directive
   * all have the empty id, so of those only the first is ever kept.
   */
  lemma SameIdSecondDropped(kept: map<string, FileTemplate>, p1: Path, p2: Path, read: Reader)
    requires Load(p1, read).Ok? && Load(p2, read).Ok?
    requires Load(p1, read).value.id == Load(p2, read).value.id && Load(p1, read).value.id !in kept
    ensures FirstWins.LoadAll(kept, [p1, p2], FileLoader(read), FileKey())
      == Ok(kept[Load(p1, read).value.id := Load(p1, read).value])
  {
    var load := FileLoader(read);
    var t1, t2 := Load(p1, read).value, Load(p2, read).value;
    assert [p1, p2][0] == p1 && [p1, p2][1..] == [p2] && [p2][0] == p2 && [p2][1..] == [];
    assert load(p1) == Ok(t1) && load(p2) == Ok(t2);
    assert FirstWins.Insert(kept, t1, FileKey()) == kept[t1.id := t1];
    assert FirstWins.Insert(kept[t1.id := t1], t2, FileKey()) == kept[t1.id := t1];
    assert FirstWins.LoadAll(kept[t1.id := t1], [p2], load, FileKey()) == FirstWins.LoadAll(kept[t1.id := t1], [], load, FileKey());
  }

  /** The registry: two sets, no engine. */
  class TemplateSet {
    var fileTemplates: map<string, FileTemplate>
    var projectTemplates: map<string, ProjectTemplate>

    ghost predicate Valid()
      reads this
    {
      FirstWins.KeyedBy(fileTemplates, FileKey())
    }

    /** `TemplateSet::new`: two empty sets. */
    constructor ()
      ensures Valid() && fileTemplates == map[] && projectTemplates == map[]
    {
      fileTemplates := map[];
      projectTemplates := map[];
    }

    /** `load_file_templates`: the walk, then `load_templates_from_path_list` with the file loader. */
    method LoadFileTemplates(dir: Listing, at: Path, read: Reader) returns (r: Result<(), ExecError>)
      requires Valid()
      modifies this
      ensures Valid()
      ensures r.Ok? <==> LoadFiles(old(fileTemplates), dir, at, read).Ok?
      ensures r.Ok? ==> LoadFiles(old(fileTemplates), dir, at, read) == Ok(fileTemplates)
      ensures r.Err? ==> r.error == LoadFiles(old(fileTemplates), dir, at, read).error
      ensures fileTemplates == FilesKept(old(fileTemplates), dir, at, read)
      ensures projectTemplates == old(projectTemplates)
    {
      var walk := ExecTemplatePaths(dir, at);
      if walk.Err? {
        return Err(walk.error);
      }
      FirstWins.EffectsKeyed(fileTemplates, walk.value, FileLoader(read), FileKey());
      r, fileTemplates := FirstWins.LoadEach(fileTemplates, walk.value, FileLoader(read), FileKey());
    }

    /** `load_project_templates`: the walk, then the loop with the panicking loader. */
    method LoadProjectTemplates(dir: Listing, at: Path) returns (r: Result<(), ExecError>)
      modifies this
      ensures r.Ok? <==> LoadProjects(old(projectTemplates), dir, at).Ok?
      ensures r.Ok? ==> LoadProjects(old(projectTemplates), dir, at) == Ok(projectTemplates)
      ensures r.Err? ==> r.error == LoadProjects(old(projectTemplates), dir, at).error
      ensures projectTemplates == old(projectTemplates) && fileTemplates == old(fileTemplates)
    {
      var walk := ExecTemplatePaths(dir, at);
      if walk.Err? {
        return Err(walk.error);
      }
      var kept;
      r, kept := FirstWins.LoadEach(projectTemplates, walk.value, ProjectLoader(), ProjectKey());
      LoadProjectsPanics(projectTemplates, dir, at);
      if walk.value != [] {
        FirstWins.EffectsStep(projectTemplates, walk.value, ProjectLoader(), FirstWins.Inserter(ProjectLoader(), ProjectKey()));
      }
      projectTemplates := kept;
    }

    /** `get_file_template`: the file template of that id, or an id-not-found error naming it. */
    function GetFileTemplate(id: string): (r: Result<FileTemplate, ExecError>)
      reads this
      ensures r.Ok? <==> id in fileTemplates
      ensures Valid() && r.Ok? ==> r.value.id == id
      ensures r.Err? ==> r.error == ExecIdNotFoundError("\"" + id + "\" (FILE)")
    {
      ExecFind(fileTemplates, id, "FILE")
    }

    /** `get_project_template`. */
    function GetProjectTemplate(id: string): (r: Result<ProjectTemplate, ExecError>)
      reads this
      ensures r.Ok? <==> id in projectTemplates
      ensures r.Err? ==> r.error == ExecIdNotFoundError("\"" + id + "\" (PROJECT)")
    {
      ExecFind(projectTemplates, id, "PROJECT")
    }
  }
}
