/**
 * The earliest registry: every template, file or project, is one file
 * whose id its `SPECIFY NAME` directive gives and whose raw text is kept
 * unstripped; both sets are filled by the same loader.
 */
module CfgTemplateSet {
  import opened Wrappers
  import opened Errors
  import opened FileSystem
  import opened ExecRegistry
  import FirstWins
  import EnginePreprocessor
  import CfgTemplates

  /** `Template`: the preprocessor's id and the raw text. */
  datatype Template = Template(id: string, literal: string)

  /**
   * `Template::load`: the file read, then preprocessed for its id; the
   * stored literal is the text as read.
   */
  function Load(p: Path, read: Reader): (r: Result<Template, ExecError>)
    ensures r.Ok? <==> read(p).Ok? && EnginePreprocessor.Run(read(p).value).Ok?
    ensures read(p).Err? ==> r == Err(ExecFileReadWriteError(read(p).error))
    ensures read(p).Ok? && EnginePreprocessor.Run(read(p).value).Err? ==> r == Err(EnginePreprocessor.Run(read(p).value).error)
    ensures r.Ok? ==> r.value == Template(EnginePreprocessor.Run(read(p).value).value.id, read(p).value)
  {
    var literal :- if read(p).Ok? then Ok(read(p).value) else Err(ExecFileReadWriteError(read(p).error));
    var preproc :- EnginePreprocessor.Run(literal);
    Ok(Template(preproc.id, literal))
  }

  /** `Template::load` as the source runs it, through the preprocessor's loop. */
  method LoadTemplate(p: Path, read: Reader) returns (r: Result<Template, ExecError>)
    ensures r == Load(p, read)
  {
    var literal := read(p);
    if literal.Err? {
      return Err(ExecFileReadWriteError(literal.error));
    }
    var preproc := EnginePreprocessor.RunPreprocessor(literal.value);
    if preproc.Err? {
      return Err(preproc.error);
    }
    return Ok(Template(preproc.value.id, literal.value));
  }

  /**
   * This loader and the preprocessed one accept the same files and give
   * them the same id; only the stored text differs, raw here and cleaned
   * there.
   */
  lemma LoadAgreesWithCfgTemplates(p: Path, read: Reader)
    ensures Load(p, read).Ok? <==> CfgTemplates.Load(p, read).Ok?
    ensures Load(p, read).Err? ==> Load(p, read).error == CfgTemplates.Load(p, read).error
    ensures Load(p, read).Ok? ==>
      && Load(p, read).value.id == CfgTemplates.Load(p, read).value.id
      && Load(p, read).value.literal == read(p).value
      && CfgTemplates.Load(p, read).value.literal == EnginePreprocessor.Run(read(p).value).value.cleanLiteral
  {
  }

  function Loader(read: Reader): Path -> Result<Template, ExecError> {
    (p: Path) => Load(p, read)
  }

  function Key(): Template -> string {
    (t: Template) => t.id
  }

  /** `load_file_templates` and `load_project_templates` alike: every file found loaded, the first of each id kept. */
  function LoadDir(kept: map<string, Template>, dir: Listing, at: Path, read: Reader): Result<map<string, Template>, ExecError> {
    var paths :- ExecWalk(dir, at);
    FirstWins.LoadAll(kept, paths, Loader(read), Key())
  }

  function DirKept(kept: map<string, Template>, dir: Listing, at: Path, read: Reader): map<string, Template> {
    var w := ExecWalk(dir, at);
    if w.Err? then kept else FirstWins.Effects(kept, w.value, Loader(read), FirstWins.Inserter(Loader(read), Key()))
  }

  /**
   * The first file with each id is the one kept, with its text as read;
   * every id in the set is an earlier one or that of a file found.
   */
  lemma LoadDirFirstWins(kept: map<string, Template>, dir: Listing, at: Path, read: Reader, k: nat)
    requires LoadDir(kept, dir, at, read).Ok?
    requires var ps := ExecWalk(dir, at).value;
      && k < |ps| && Load(ps[k], read).Ok? && Load(ps[k], read).value.id !in kept
      && forall j :: 0 <= j < k ==> Load(ps[j], read).Ok? && Load(ps[j], read).value.id != Load(ps[k], read).value.id
    ensures var ps := ExecWalk(dir, at).value;
      var m := LoadDir(kept, dir, at, read).value;
      var id := Load(ps[k], read).value.id;
      id in m && read(ps[k]).Ok? && m[id].literal == read(ps[k]).value
  {
    var ps := ExecWalk(dir, at).value;
    var load := Loader(read);
    FirstWins.LoadAllTwoPhase(kept, ps, load, Key());
    var ts := MapAll(load, ps).value;
    forall j | 0 <= j <= k ensures ts[j] == Load(ps[j], read).value {
      assert load(ps[j]) == Ok(ts[j]);
    }
    FirstWins.InsertAllFirstWins(kept, ts, Key(), k);
  }

  /** The registry: two sets of the same kind of template, no engine. */
  class TemplateSet {
    var fileTemplates: map<string, Template>
    var projectTemplates: map<string, Template>

    ghost predicate Valid()
      reads this
    {
      FirstWins.KeyedBy(fileTemplates, Key()) && FirstWins.KeyedBy(projectTemplates, Key())
    }

    /** `TemplateSet::new`: two empty sets. */
    constructor ()
      ensures Valid() && fileTemplates == map[] && projectTemplates == map[]
    {
      fileTemplates := map[];
      projectTemplates := map[];
    }

    /** `load_file_templates`. */
    method LoadFileTemplates(dir: Listing, at: Path, read: Reader) returns (r: Result<(), ExecError>)
      requires Valid()
      modifies this
      ensures Valid()
      ensures r.Ok? <==> LoadDir(old(fileTemplates), dir, at, read).Ok?
      ensures r.Ok? ==> LoadDir(old(fileTemplates), dir, at, read) == Ok(fileTemplates)
      ensures r.Err? ==> r.error == LoadDir(old(fileTemplates), dir, at, read).error
      ensures fileTemplates == DirKept(old(fileTemplates), dir, at, read)
      ensures projectTemplates == old(projectTemplates)
    {
      var walk := ExecTemplatePaths(dir, at);
      if walk.Err? {
        return Err(walk.error);
      }
      FirstWins.EffectsKeyed(fileTemplates, walk.value, Loader(read), Key());
      r, fileTemplates := FirstWins.LoadEach(fileTemplates, walk.value, Loader(read), Key());
    }

    /** `load_project_templates`: the same loader, into the other set. */
    method LoadProjectTemplates(dir: Listing, at: Path, read: Reader) returns (r: Result<(), ExecError>)
      requires Valid()
      modifies this
      ensures Valid()
      ensures r.Ok? <==> LoadDir(old(projectTemplates), dir, at, read).Ok?
      ensures r.Ok? ==> LoadDir(old(projectTemplates), dir, at, read) == Ok(projectTemplates)
      ensures r.Err? ==> r.error == LoadDir(old(projectTemplates), dir, at, read).error
      ensures projectTemplates == DirKept(old(projectTemplates), dir, at, read)
      ensures fileTemplates == old(fileTemplates)
    {
      var walk := ExecTemplatePaths(dir, at);
      if walk.Err? {
        return Err(walk.error);
      }
      FirstWins.EffectsKeyed(projectTemplates, walk.value, Loader(read), Key());
      r, projectTemplates := FirstWins.LoadEach(projectTemplates, walk.value, Loader(read), Key());
    }
  }
}
