/**
 * File templates of the converged registry: a template made from one file,
 * registered in the shared engine under its file name.
 */
module FileTemplates {
  import opened Wrappers
  import opened Text
  import opened Errors
  import opened TeraAst
  import opened TemplateContext
  import opened FileSystem

  /** `FileTemplate`: its name (the file name) and its source (the path it came from). */
  datatype FileTemplate = FileTemplate(name: string, source: string)

  /** `Path`'s `{:?}` rendering: the path in double quotes. */
  function DebugPath(p: Path): string {
    "\"" + Display(p) + "\""
  }

  /** The error of a path that has no file name. */
  function NoFileNameError(p: Path): DevinitError {
    FileReadWriteError("Failed to extract filename from path " + DebugPath(p))
  }

  /**
   * `FileTemplate::load`, its result: the name is the path's last
   * component, the source its display string; a path without a file name or
   * a file that cannot be read is a read/write error, and a body the engine
   * cannot parse is a parse error.
   */
  function Load(p: Path, read: Reader, parse: Parser): (r: Result<FileTemplate, DevinitError>)
    ensures r.Ok? <==> FileName(p).Some? && read(p).Ok? && parse(read(p).value).Ok?
    ensures r.Ok? ==> r.value.name == p[|p| - 1] && r.value.source == Display(p)
    ensures FileName(p).None? ==> r == Err(NoFileNameError(p))
    ensures FileName(p).Some? && read(p).Err? ==> r == Err(FileReadWriteError(read(p).error))
    ensures FileName(p).Some? && read(p).Ok? && parse(read(p).value).Err? ==>
      r == Err(TemplateParseError(parse(read(p).value).error))
  {
    if FileName(p).None? then Err(NoFileNameError(p))
    else if read(p).Err? then Err(FileReadWriteError(read(p).error))
    else if parse(read(p).value).Err? then Err(TemplateParseError(parse(read(p).value).error))
    else Ok(FileTemplate(FileName(p).value, Display(p)))
  }

  /**
   * What `FileTemplate::load` leaves in the engine: once the name and the
   * body are read, the raw body is registered under the name, replacing any
   * template of that name; on any failure the engine is as it was.
   */
  function Registered(reg: Registry, p: Path, read: Reader, parse: Parser): (reg': Registry)
    ensures Load(p, read, parse).Ok? ==> reg' == reg[p[|p| - 1] := parse(read(p).value).value]
    ensures Load(p, read, parse).Err? ==> reg' == reg
  {
    if FileName(p).Some? && read(p).Ok? && parse(read(p).value).Ok? then
      reg[FileName(p).value := parse(read(p).value).value]
    else reg
  }

  /** `FileTemplate::load`, registering the body in the shared context. */
  method LoadInto(p: Path, read: Reader, ctx: Context) returns (r: Result<FileTemplate, DevinitError>)
    modifies ctx
    ensures r == Load(p, read, ctx.parse)
    ensures ctx.templates == Registered(old(ctx.templates), p, read, ctx.parse)
  {
    var name := FileName(p);
    if name.None? {
      return Err(NoFileNameError(p));
    }
    var literal := read(p);
    if literal.Err? {
      return Err(FileReadWriteError(literal.error));
    }
    var added := ctx.AddRawTemplate(name.value, literal.value);
    if added.Err? {
      return Err(TemplateParseError(added.error));
    }
    return Ok(FileTemplate(name.value, Display(p)));
  }

  // ---------------------------------------------------------------------
  // Equality and ordering: by name only
  // ---------------------------------------------------------------------

  /** `PartialEq for FileTemplate`. */
  predicate Same(a: FileTemplate, b: FileTemplate) {
    a.name == b.name
  }

  /** `Ord for FileTemplate`. */
  function Compare(a: FileTemplate, b: FileTemplate): Ordering {
    CompareStrings(a.name, b.name)
  }

  /** The order agrees with the equality and is antisymmetric; the source is never consulted. */
  lemma CompareByName(a: FileTemplate, b: FileTemplate)
    ensures Compare(a, b) == Equal <==> Same(a, b)
    ensures Compare(a, b) == Reverse(Compare(b, a))
    ensures Compare(a, b) == Compare(a.(source := b.source), b)
  {
    CompareStringsOrder(a.name, b.name);
  }
}
