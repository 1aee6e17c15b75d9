/**
 * Project templates of the converged registry: a directory of member files
 * named by a `templaterc.yml` manifest, each member registered in the
 * shared engine under `<project name>/<output path>`.
 */
module ProjectTemplates {
  import opened Wrappers
  import opened Text
  import opened Errors
  import opened TeraAst
  import opened TemplateContext
  import opened FileSystem
  import FirstWins

  /** No two entries share an output path. */
  predicate DistinctKeys(fs: seq<(string, Path)>) {
    forall i, j :: 0 <= i < j < |fs| ==> fs[i].0 != fs[j].0
  }

  /**
   * A manifest's `files` map, output path to member file, in the map's
   * iteration order: a map visits each key once.
   */
  type ManifestFiles = fs: seq<(string, Path)> | DistinctKeys(fs)

  /** The project configuration: the project's name and its files. */
  datatype Manifest = Manifest(name: string, files: ManifestFiles)

  /**
   * `ProjectTemplateYamlBuilder::new` followed by `build`, on the manifest's
   * path: the configuration, or the error reading or parsing it.
   */
  type ManifestReader = Path -> Result<Manifest, DevinitError>

  /** `ProjectTemplate`: name, output path to literal, source path, and the engine ids of the members. */
  datatype ProjectTemplate = ProjectTemplate(
    name: string, literals: map<string, string>, source: string, fileTemplateNames: seq<string>)

  /** The engine id of the member rendered to `outpath`. */
  function MemberId(name: string, outpath: string): string {
    name + "/" + outpath
  }

  lemma MemberIdInjective(name: string, a: string, b: string)
    requires MemberId(name, a) == MemberId(name, b)
    ensures a == b
  {
    var n := |name| + 1;
    assert a == MemberId(name, a)[n..] && b == MemberId(name, b)[n..];
  }

  /** One member of the project in `folder`: its literal, or the error reading or parsing it. */
  function Member(folder: Path, e: (string, Path), read: Reader, parse: Parser): (r: Result<string, DevinitError>)
    ensures read(folder + e.1).Err? ==> r == Err(FileReadWriteError(read(folder + e.1).error))
    ensures read(folder + e.1).Ok? && parse(read(folder + e.1).value).Err? ==>
      r == Err(TemplateParseError(parse(read(folder + e.1).value).error))
    ensures r.Ok? <==> read(folder + e.1).Ok? && parse(read(folder + e.1).value).Ok?
    ensures r.Ok? ==> read(folder + e.1) == Ok(r.value)
  {
    var lit := read(folder + e.1);
    if lit.Err? then Err(FileReadWriteError(lit.error))
    else if parse(lit.value).Err? then Err(TemplateParseError(parse(lit.value).error))
    else Ok(lit.value)
  }

  /** What registering one member leaves in the engine: its body under its id once read and parsed. */
  function MemberRegistered(reg: Registry, name: string, folder: Path, e: (string, Path), read: Reader, parse: Parser): Registry {
    var lit := read(folder + e.1);
    if lit.Ok? && parse(lit.value).Ok? then reg[MemberId(name, e.0) := parse(lit.value).value] else reg
  }

  /** `Member` for the project in `folder`, as the loader of each entry. */
  function MemberLoader(folder: Path, read: Reader, parse: Parser): ((string, Path)) -> Result<string, DevinitError> {
    (e: (string, Path)) => Member(folder, e, read, parse)
  }

  /** `MemberRegistered` for the project `name` in `folder`, as the engine change of each entry. */
  function MemberStep(name: string, folder: Path, read: Reader, parse: Parser): (Registry, (string, Path)) -> Registry {
    (r: Registry, e: (string, Path)) => MemberRegistered(r, name, folder, e, read, parse)
  }

  /** The literals map built entry by entry. */
  function LiteralsOf(fs: seq<(string, Path)>, lits: seq<string>): map<string, string>
    requires |lits| == |fs|
  {
    if fs == [] then map[]
    else LiteralsOf(fs[..|fs| - 1], lits[..|fs| - 1])[fs[|fs| - 1].0 := lits[|fs| - 1]]
  }

  /** The member ids in entry order. */
  function IdsOf(name: string, fs: seq<(string, Path)>): (ids: seq<string>)
    ensures |ids| == |fs| && forall i :: 0 <= i < |fs| ==> ids[i] == MemberId(name, fs[i].0)
  {
    if fs == [] then [] else IdsOf(name, fs[..|fs| - 1]) + [MemberId(name, fs[|fs| - 1].0)]
  }

  /** The literals and member ids of a project's entries, or the first member's error. */
  function Members(name: string, folder: Path, fs: seq<(string, Path)>, read: Reader, parse: Parser)
    : Result<(map<string, string>, seq<string>), DevinitError>
  {
    var lits :- MapAll(MemberLoader(folder, read, parse), fs);
    Ok((LiteralsOf(fs, lits), IdsOf(name, fs)))
  }

  /**
   * `ProjectTemplate::load`, its result: a configuration path without a
   * parent is a missing-directory error; otherwise the manifest's members
   * are read from the project directory, the first failure aborting.
   */
  function Load(p: Path, manifests: ManifestReader, read: Reader, parse: Parser): Result<ProjectTemplate, DevinitError> {
    if Parent(p).None? then Err(MissingProjectDirError(Display(p)))
    else
      var folder := Parent(p).value;
      var cfg :- manifests(folder + [PROJECT_MANIFEST]);
      var members :- Members(cfg.name, folder, cfg.files, read, parse);
      Ok(ProjectTemplate(cfg.name, members.0, Display(p), members.1))
  }

  /**
   * What `ProjectTemplate::load` leaves in the engine: the members
   * registered one by one up to the first failing one; the registrations
   * before a failure stay.
   */
  function Registered(reg: Registry, p: Path, manifests: ManifestReader, read: Reader, parse: Parser): Registry {
    if Parent(p).None? || manifests(Parent(p).value + [PROJECT_MANIFEST]).Err? then reg
    else
      var folder := Parent(p).value;
      var cfg := manifests(folder + [PROJECT_MANIFEST]).value;
      FirstWins.Effects(reg, cfg.files, MemberLoader(folder, read, parse), MemberStep(cfg.name, folder, read, parse))
  }

  /** `ProjectTemplate::load`, registering each member in the shared context. */
  method LoadInto(p: Path, manifests: ManifestReader, read: Reader, ctx: Context) returns (r: Result<ProjectTemplate, DevinitError>)
    modifies ctx
    ensures r == Load(p, manifests, read, ctx.parse)
    ensures ctx.templates == Registered(old(ctx.templates), p, manifests, read, ctx.parse)
  {
    var dir := Parent(p);
    if dir.None? {
      return Err(MissingProjectDirError(Display(p)));
    }
    var folder := dir.value;
    var built := manifests(folder + [PROJECT_MANIFEST]);
    if built.Err? {
      return Err(built.error);
    }
    var cfg := built.value;
    var members := LoadMembers(cfg.name, folder, cfg.files, read, ctx);
    if members.Err? {
      return Err(members.error);
    }
    return Ok(ProjectTemplate(cfg.name, members.value.0, Display(p), members.value.1));
  }

  /** The loop of `ProjectTemplate::load` over the manifest's files. */
  method LoadMembers(name: string, folder: Path, fs: seq<(string, Path)>, read: Reader, ctx: Context)
    returns (r: Result<(map<string, string>, seq<string>), DevinitError>)
    modifies ctx
    ensures r == Members(name, folder, fs, read, ctx.parse)
    ensures ctx.templates == FirstWins.Effects(old(ctx.templates), fs, MemberLoader(folder, read, ctx.parse), MemberStep(name, folder, read, ctx.parse))
  {
    var member := MemberLoader(folder, read, ctx.parse);
    var step := MemberStep(name, folder, read, ctx.parse);
    ghost var whole := MapAll(member, fs);
    ghost var effects := FirstWins.Effects(ctx.templates, fs, member, step);
    ghost var done: seq<string> := [];
    var fileTemplateNames: seq<string> := [];
    var literals: map<string, string> := map[];
    assert fs[0..] == fs && fs[..0] == [];
    assert whole.Ok? ==> done + whole.value == whole.value;
    for i := 0 to |fs|
      invariant |done| == i
      invariant whole == Prepend(done, MapAll(member, fs[i..]))
      invariant effects == FirstWins.Effects(ctx.templates, fs[i..], member, step)
      invariant literals == LiteralsOf(fs[..i], done)
      invariant fileTemplateNames == IdsOf(name, fs[..i])
    {
      var e := fs[i];
      assert fs[i..][0] == e && fs[i..][1..] == fs[i + 1..];
      FirstWins.EffectsStep(ctx.templates, fs[i..], member, step);
      var lit := LoadMember(name, folder, e, read, ctx);
      if lit.Err? {
        return Err(lit.error);
      }
      MembersGrow(name, fs, i, done, lit.value);
      literals := literals[e.0 := lit.value];
      fileTemplateNames := fileTemplateNames + [MemberId(name, e.0)];
      MapAllStep(member, fs, i, done, lit.value);
      done := done + [lit.value];
    }
    assert fs[..|fs|] == fs && fs[|fs|..] == [];
    assert done + [] == done;
    return Ok((literals, fileTemplateNames));
  }

  /** The literals and ids after one more entry. */
  lemma MembersGrow(name: string, fs: seq<(string, Path)>, i: nat, done: seq<string>, lit: string)
    requires i < |fs| && |done| == i
    ensures LiteralsOf(fs[..i + 1], done + [lit]) == LiteralsOf(fs[..i], done)[fs[i].0 := lit]
    ensures IdsOf(name, fs[..i + 1]) == IdsOf(name, fs[..i]) + [MemberId(name, fs[i].0)]
  {
    assert fs[..i + 1][..i] == fs[..i] && fs[..i + 1][i] == fs[i];
    assert (done + [lit])[..i] == done;
  }

  /** One iteration: read the member, then register it under its id. */
  method LoadMember(name: string, folder: Path, e: (string, Path), read: Reader, ctx: Context)
    returns (r: Result<string, DevinitError>)
    modifies ctx
    ensures r == MemberLoader(folder, read, ctx.parse)(e)
    ensures ctx.templates == MemberStep(name, folder, read, ctx.parse)(old(ctx.templates), e)
  {
    var lit := read(folder + e.1);
    if lit.Err? {
      return Err(FileReadWriteError(lit.error));
    }
    var added := ctx.AddRawTemplate(MemberId(name, e.0), lit.value);
    if added.Err? {
      return Err(TemplateParseError(added.error));
    }
    return Ok(lit.value);
  }

  // ---------------------------------------------------------------------
  // What a loaded project holds
  // ---------------------------------------------------------------------

  /** The literals map has one key per entry, holding that entry's literal. */
  lemma {:induction false} LiteralsOfEntries(fs: seq<(string, Path)>, lits: seq<string>)
    requires |lits| == |fs| && DistinctKeys(fs)
    ensures forall i :: 0 <= i < |fs| ==> fs[i].0 in LiteralsOf(fs, lits) && LiteralsOf(fs, lits)[fs[i].0] == lits[i]
    ensures forall k :: k in LiteralsOf(fs, lits) ==> exists i :: 0 <= i < |fs| && fs[i].0 == k
  {
    if fs != [] {
      var n := |fs| - 1;
      var fs', lits' := fs[..n], lits[..n];
      assert DistinctKeys(fs') by {
        forall i, j | 0 <= i < j < n ensures fs'[i].0 != fs'[j].0 {
          assert fs'[i] == fs[i] && fs'[j] == fs[j];
        }
      }
      LiteralsOfEntries(fs', lits');
      var m := LiteralsOf(fs, lits);
      assert m == LiteralsOf(fs', lits')[fs[n].0 := lits[n]];
      forall k | k in m ensures exists i :: 0 <= i < |fs| && fs[i].0 == k {
        if k != fs[n].0 {
          var i :| 0 <= i < |fs'| && fs'[i].0 == k;
          assert fs[i].0 == k;
        }
      }
      forall i | 0 <= i < n ensures fs[i].0 in m && m[fs[i].0] == lits[i] {
        assert fs'[i] == fs[i] && lits'[i] == lits[i];
      }
    }
  }

  /**
   * A project template is consistent: the member ids are distinct, and
   * there is one exactly for each output path of its literals.
   */
  predicate Consistent(t: ProjectTemplate) {
    && (forall i, j :: 0 <= i < j < |t.fileTemplateNames| ==> t.fileTemplateNames[i] != t.fileTemplateNames[j])
    && (forall k :: k in t.literals ==> MemberId(t.name, k) in t.fileTemplateNames)
    && (forall i :: 0 <= i < |t.fileTemplateNames| ==>
          exists k :: k in t.literals && t.fileTemplateNames[i] == MemberId(t.name, k))
  }

  /** The ids of entries with distinct output paths are distinct. */
  lemma IdsDistinct(name: string, fs: seq<(string, Path)>)
    requires DistinctKeys(fs)
    ensures forall i, j :: 0 <= i < j < |fs| ==> IdsOf(name, fs)[i] != IdsOf(name, fs)[j]
  {
    var ids := IdsOf(name, fs);
    forall i, j | 0 <= i < j < |fs| ensures ids[i] != ids[j] {
      if ids[i] == ids[j] {
        MemberIdInjective(name, fs[i].0, fs[j].0);
      }
    }
  }

  /** The member ids are exactly those of the literals' output paths. */
  lemma IdsCoverLiterals(name: string, fs: seq<(string, Path)>, lits: seq<string>)
    requires |lits| == |fs| && DistinctKeys(fs)
    ensures forall k :: k in LiteralsOf(fs, lits) ==> MemberId(name, k) in IdsOf(name, fs)
    ensures forall i :: 0 <= i < |fs| ==>
      exists k :: k in LiteralsOf(fs, lits) && IdsOf(name, fs)[i] == MemberId(name, k)
  {
    var ids := IdsOf(name, fs);
    var m := LiteralsOf(fs, lits);
    LiteralsOfEntries(fs, lits);
    forall k | k in m ensures MemberId(name, k) in ids {
      var i :| 0 <= i < |fs| && fs[i].0 == k;
      assert ids[i] == MemberId(name, k);
    }
    forall i | 0 <= i < |fs| ensures exists k :: k in m && ids[i] == MemberId(name, k) {
      assert fs[i].0 in m;
    }
  }

  /** Each entry's literal is the member file's contents as read. */
  lemma MembersRead(folder: Path, fs: ManifestFiles, read: Reader, parse: Parser)
    requires MapAll(MemberLoader(folder, read, parse), fs).Ok?
    ensures var lits := MapAll(MemberLoader(folder, read, parse), fs).value;
      forall i :: 0 <= i < |fs| ==> read(folder + fs[i].1) == Ok(lits[i])
  {
    var member := MemberLoader(folder, read, parse);
    var lits := MapAll(member, fs).value;
    forall i | 0 <= i < |fs| ensures read(folder + fs[i].1) == Ok(lits[i]) {
      assert member(fs[i]) == Ok(lits[i]);
    }
  }

  /** What `Members` yields: each entry's literal as read, and distinct ids, one per output path. */
  lemma MembersConsistent(name: string, folder: Path, fs: ManifestFiles, read: Reader, parse: Parser)
    requires Members(name, folder, fs, read, parse).Ok?
    ensures var ms := Members(name, folder, fs, read, parse).value;
      && Consistent(ProjectTemplate(name, ms.0, "", ms.1))
      && (forall i :: 0 <= i < |fs| ==> fs[i].0 in ms.0 && read(folder + fs[i].1) == Ok(ms.0[fs[i].0]))
      && (forall k :: k in ms.0 ==> exists i :: 0 <= i < |fs| && fs[i].0 == k)
  {
    var done := MapAll(MemberLoader(folder, read, parse), fs).value;
    assert Members(name, folder, fs, read, parse).value == (LiteralsOf(fs, done), IdsOf(name, fs));
    LiteralsOfEntries(fs, done);
    MembersRead(folder, fs, read, parse);
    ConsistentOf(name, fs, done);
  }

  /** The literals and ids built from the same distinct entries make a consistent template. */
  lemma ConsistentOf(name: string, fs: seq<(string, Path)>, lits: seq<string>)
    requires |lits| == |fs| && DistinctKeys(fs)
    ensures Consistent(ProjectTemplate(name, LiteralsOf(fs, lits), "", IdsOf(name, fs)))
  {
    IdsDistinct(name, fs);
    IdsCoverLiterals(name, fs, lits);
  }

  /**
   * A loaded project template is consistent, its literals are exactly the
   * manifest's members as read from the project directory, and its name
   * and source are the manifest's name and the configuration path.
   */
  lemma LoadConsistent(p: Path, manifests: ManifestReader, read: Reader, parse: Parser)
    requires Load(p, manifests, read, parse).Ok?
    ensures Parent(p).Some? && manifests(Parent(p).value + [PROJECT_MANIFEST]).Ok?
    ensures var t := Load(p, manifests, read, parse).value;
      var folder := Parent(p).value;
      var cfg := manifests(folder + [PROJECT_MANIFEST]).value;
      && Consistent(t) && t.name == cfg.name && t.source == Display(p)
      && (forall i :: 0 <= i < |cfg.files| ==>
            cfg.files[i].0 in t.literals && read(folder + cfg.files[i].1) == Ok(t.literals[cfg.files[i].0]))
      && (forall k :: k in t.literals ==> exists i :: 0 <= i < |cfg.files| && cfg.files[i].0 == k)
  {
    var folder := Parent(p).value;
    var cfg := manifests(folder + [PROJECT_MANIFEST]).value;
    MembersConsistent(cfg.name, folder, cfg.files, read, parse);
  }

  /** A member that fails, every earlier one loading, is the error of the whole load. */
  lemma LoadFirstBadMember(p: Path, manifests: ManifestReader, read: Reader, parse: Parser, k: nat)
    requires Parent(p).Some? && manifests(Parent(p).value + [PROJECT_MANIFEST]).Ok?
    requires var folder := Parent(p).value;
      var fs := manifests(folder + [PROJECT_MANIFEST]).value.files;
      k < |fs| && Member(folder, fs[k], read, parse).Err?
      && forall j :: 0 <= j < k ==> Member(folder, fs[j], read, parse).Ok?
    ensures var folder := Parent(p).value;
      var fs := manifests(folder + [PROJECT_MANIFEST]).value.files;
      Load(p, manifests, read, parse) == Err(Member(folder, fs[k], read, parse).error)
  {
    var folder := Parent(p).value;
    var fs := manifests(folder + [PROJECT_MANIFEST]).value.files;
    var member := MemberLoader(folder, read, parse);
    assert forall j :: 0 <= j <= k ==> member(fs[j]) == Member(folder, fs[j], read, parse);
    MapAllFirstError(member, fs, k);
  }

  /** The engine id of each entry, for the project `name`. */
  function MemberKey(name: string): ((string, Path)) -> string {
    (e: (string, Path)) => MemberId(name, e.0)
  }

  /** The parsed body of each entry of the project in `folder` (empty when it does not load). */
  function MemberAst(folder: Path, read: Reader, parse: Parser): ((string, Path)) -> Ast {
    (e: (string, Path)) =>
      var lit := read(folder + e.1);
      if lit.Ok? && parse(lit.value).Ok? then parse(lit.value).value else []
  }

  /**
   * After every member has loaded, each member's body is registered under
   * its id, and every other template of the engine is as it was.
   */
  lemma EffectsRegisterAll(reg: Registry, name: string, folder: Path, fs: ManifestFiles, read: Reader, parse: Parser)
    requires MapAll(MemberLoader(folder, read, parse), fs).Ok?
    ensures var after := FirstWins.Effects(reg, fs, MemberLoader(folder, read, parse), MemberStep(name, folder, read, parse));
      && (forall i :: 0 <= i < |fs| ==>
            MemberId(name, fs[i].0) in after && after[MemberId(name, fs[i].0)] == MemberAst(folder, read, parse)(fs[i]))
      && (forall id :: id in reg && id !in IdsOf(name, fs) ==> id in after && after[id] == reg[id])
  {
    var member := MemberLoader(folder, read, parse);
    var step := MemberStep(name, folder, read, parse);
    var key := MemberKey(name);
    var ast := MemberAst(folder, read, parse);
    forall m: Registry, k | 0 <= k < |fs| ensures step(m, fs[k]) == m[key(fs[k]) := ast(fs[k])] {
      assert member(fs[k]).Ok?;
    }
    IdsDistinct(name, fs);
    assert forall i, j :: 0 <= i < j < |fs| ==> key(fs[i]) != key(fs[j]) by {
      forall i, j | 0 <= i < j < |fs| ensures key(fs[i]) != key(fs[j]) {
        assert IdsOf(name, fs)[i] != IdsOf(name, fs)[j];
      }
    }
    FirstWins.EffectsUpdates(reg, fs, member, step, key, ast);
    forall id | id in reg && id !in IdsOf(name, fs) ensures forall k :: 0 <= k < |fs| ==> key(fs[k]) != id {
      forall k | 0 <= k < |fs| ensures key(fs[k]) != id {
        assert IdsOf(name, fs)[k] == key(fs[k]);
      }
    }
  }

  /**
   * After a successful load each member's body is registered under its id,
   * and every other template of the engine is as it was.
   */
  lemma LoadRegistersMembers(reg: Registry, p: Path, manifests: ManifestReader, read: Reader, parse: Parser)
    requires Load(p, manifests, read, parse).Ok?
    ensures var t := Load(p, manifests, read, parse).value;
      var after := Registered(reg, p, manifests, read, parse);
      && (forall k :: k in t.literals ==> parse(t.literals[k]).Ok?)
      && (forall k :: k in t.literals ==> MemberId(t.name, k) in after && after[MemberId(t.name, k)] == parse(t.literals[k]).value)
      && (forall id :: id in reg && id !in t.fileTemplateNames ==> id in after && after[id] == reg[id])
  {
    var t := Load(p, manifests, read, parse).value;
    var folder := Parent(p).value;
    var cfg := manifests(folder + [PROJECT_MANIFEST]).value;
    var member := MemberLoader(folder, read, parse);
    var after := Registered(reg, p, manifests, read, parse);
    MembersConsistent(cfg.name, folder, cfg.files, read, parse);
    EffectsRegisterAll(reg, cfg.name, folder, cfg.files, read, parse);
    assert after == FirstWins.Effects(reg, cfg.files, member, MemberStep(cfg.name, folder, read, parse));
    forall k | k in t.literals
      ensures parse(t.literals[k]).Ok? && MemberId(t.name, k) in after && after[MemberId(t.name, k)] == parse(t.literals[k]).value
    {
      var i :| 0 <= i < |cfg.files| && cfg.files[i].0 == k;
      assert member(cfg.files[i]).Ok?;
      assert read(folder + cfg.files[i].1) == Ok(t.literals[k]);
    }
  }

  // ---------------------------------------------------------------------
  // Equality and ordering: by name only
  // ---------------------------------------------------------------------

  /** `PartialEq for ProjectTemplate`. */
  predicate Same(a: ProjectTemplate, b: ProjectTemplate) {
    a.name == b.name
  }

  /** `Ord for ProjectTemplate`. */
  function Compare(a: ProjectTemplate, b: ProjectTemplate): Ordering {
    CompareStrings(a.name, b.name)
  }

  /** The order agrees with the equality and is antisymmetric; members and source are never consulted. */
  lemma CompareByName(a: ProjectTemplate, b: ProjectTemplate)
    ensures Compare(a, b) == Equal <==> Same(a, b)
    ensures Compare(a, b) == Reverse(Compare(b, a))
    ensures Compare(a, b) == Compare(a.(literals := b.literals, source := b.source, fileTemplateNames := b.fileTemplateNames), b)
  {
    CompareStringsOrder(a.name, b.name);
  }
}
