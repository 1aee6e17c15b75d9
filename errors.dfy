/**
 * The two error taxonomies of the tool: `DevinitError` (the converged one,
 * with its exit codes and its reporting) and `ExecError` (the one the
 * preprocessor, the `$var` evaluator and the earlier registries return).
 */
module Errors {
  import opened Wrappers
  import opened Text

  datatype DevinitError =
    | FileReadWriteError(message: string)
    | NoConfigError
    | InvalidConfigError(message: string)
    | IdNotFoundError(message: string)
    | TemplateParseError(message: string)
    | TemplateRenderError(message: string)
    | MissingProjectDirError(message: string)
    | InvalidProjectConfigError(message: string)

  /** `From<&DevinitError> for i32`: the process exit code of each error kind. */
  function ExitCode(e: DevinitError): (code: int)
    ensures 1 <= code <= 8
  {
    match e
    case FileReadWriteError(_) => 1
    case NoConfigError => 2
    case InvalidConfigError(_) => 3
    case IdNotFoundError(_) => 4
    case TemplateParseError(_) => 5
    case TemplateRenderError(_) => 6
    case MissingProjectDirError(_) => 7
    case InvalidProjectConfigError(_) => 8
  }

  /** Two errors of the same kind, whatever their payloads. */
  predicate SameKind(a: DevinitError, b: DevinitError) {
    || (a.FileReadWriteError? && b.FileReadWriteError?)
    || (a.NoConfigError? && b.NoConfigError?)
    || (a.InvalidConfigError? && b.InvalidConfigError?)
    || (a.IdNotFoundError? && b.IdNotFoundError?)
    || (a.TemplateParseError? && b.TemplateParseError?)
    || (a.TemplateRenderError? && b.TemplateRenderError?)
    || (a.MissingProjectDirError? && b.MissingProjectDirError?)
    || (a.InvalidProjectConfigError? && b.InvalidProjectConfigError?)
  }

  /** Exit codes identify the error kind exactly: equal codes iff equal kinds. */
  lemma ExitCodeIdentifiesKind(a: DevinitError, b: DevinitError)
    ensures ExitCode(a) == ExitCode(b) <==> SameKind(a, b)
  {
  }

  /** A representative error of each code, so every code in 1..8 is used. */
  function KindOfCode(code: int): (e: DevinitError)
    requires 1 <= code <= 8
    ensures ExitCode(e) == code
  {
    if code == 1 then FileReadWriteError("")
    else if code == 2 then NoConfigError
    else if code == 3 then InvalidConfigError("")
    else if code == 4 then IdNotFoundError("")
    else if code == 5 then TemplateParseError("")
    else if code == 6 then TemplateRenderError("")
    else if code == 7 then MissingProjectDirError("")
    else InvalidProjectConfigError("")
  }

  /** `base_handle_fn`: the line logged at error level for each kind. */
  function Report(e: DevinitError): string {
    match e
    case FileReadWriteError(s) => "File read/write error: " + s + "\n"
    case NoConfigError => "No configuration file found - validate your devinit installation or use --config\n"
    case InvalidConfigError(s) => "Invalid or malformed config syntax: " + s + "\n"
    case IdNotFoundError(s) => "No template was found with id " + s + "\n"
    case TemplateParseError(s) => "Error when parsing template, more information below:\n" + s
    case TemplateRenderError(s) => "Error when rendering template, more information below:\n" + s
    case MissingProjectDirError(s) => "Failed to get parent of project config file at " + s + "\n"
    case InvalidProjectConfigError(s) => "Invalid or malformed project template config syntax: " + s + "\n"
  }

  /** What handling an error does to the process, after logging `logged`. */
  datatype Handling = Handling(logged: string, exit: ProcessExit)
  datatype ProcessExit = Exits(code: int) | KeepsRunning

  /** `handle`: report, then terminate with the error's exit code. */
  function Handle(e: DevinitError): (h: Handling)
    ensures h.exit.Exits? && h.exit.code != 0
    ensures h.exit.code == ExitCode(e) && h.logged == Report(e)
  {
    Handling(Report(e), Exits(ExitCode(e)))
  }

  /** `handle_safe`: the same report, and the process goes on. */
  function HandleSafe(e: DevinitError): (h: Handling)
    ensures h.exit.KeepsRunning? && h.logged == Handle(e).logged
  {
    Handling(Report(e), KeepsRunning)
  }

  /**
   * The `ExecError` variants, as the files that return them construct them.
   * `TemplateInvalidTokenError` is built with one message by the
   * preprocessor and with (token, template id) by the evaluator; the
   * template id is optional here to admit both.
   * `Panic` is not a variant of the source: it stands for the Rust panic
   * (an index out of range, an `unwrap` of `None`) that aborts the process,
   * and names the place that panics.
   */
  datatype ExecError =
    | ExecFileReadWriteError(message: string)
    | ExecIdNotFoundError(message: string)
    | ExecTemplateParseError(message: string)
    | TemplateSyntaxError(message: string)
    | TemplateIncorrectArgsError(message: string)
    | TemplateInvalidTokenError(token: string, inTemplate: Option<string>)
    | TemplateUnknownVariableError(variable: string, templateId: string)
    | TemplateMalformedExpressionError(literal: string)
    | Panic(site: PanicSite)

  /** Where the source panics. */
  datatype PanicSite =
    | NewlineIndexOutOfRange  // a byte index past the end in `has_newline_at_index`
    | OffsetUnderflow         // `mat.start() - rem_amt` below zero in `remove_all_incl_newlines`
    | RangeOutOfBounds        // `replace_range` outside the text in `remove_all_incl_newlines`
    | NoTokenStrs             // `token_strs[0]` of a statement without text
    | EmptyDirective          // `token_strs[0]` of an empty directive in `tokenise_directives`
    | LiteralUnwrap           // `unwrap` of a missing expression literal in `Evaluator::run`
    | ProjectLoadTodo         // the `todo!()` of `ProjectTemplate::load`

  /** " on line N", the suffix every preprocessor diagnostic ends with. */
  function OnLine(line: nat): string {
    " on line " + NatToString(line)
  }
}
