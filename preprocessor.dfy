/**
 * The preprocessor of the templating engine: it finds a template's
 * `{: … :}` directives, turns each into a `SPECIFY key value` command,
 * strips directives and comments from the text, and takes the
 * template's id from the last `SPECIFY NAME …`.
 */
module EnginePreprocessor {
  import opened Wrappers
  import opened Text
  import opened Errors
  import opened Patterns
  import TemplaterParser
  import opened EngineParser
  import Tokenizer

  /** The one command a directive can hold: `SPECIFY key value`. */
  datatype PreprocessorDirective = Specify(key: string, value: string)

  /** What preprocessing a template yields. */
  datatype Preprocessor = Preprocessor(statements: seq<EngineParser.Statement>, id: string, cleanLiteral: string)

  function SpecifyArgsError(line: nat): ExecError {
    TemplateIncorrectArgsError("SPECIFY expression expects 2 arguments" + OnLine(line))
  }

  function InvalidOpcodeError(opcode: string, line: nat): ExecError {
    TemplateInvalidTokenError("\"" + opcode + "\"" + OnLine(line), None)
  }

  /** The panic of `token_strs[0]` on a directive with no tokens, such as `{: :}`. */
  const EmptyDirectivePanic := Panic(EmptyDirective)

  /**
   * One directive as a command: the opcode is its first token and the
   * operands the rest; `SPECIFY` takes exactly two operands, and no other
   * opcode exists.
   */
  function TokeniseDirective(e: EngineParser.Statement): (r: Result<PreprocessorDirective, ExecError>)
    ensures e.tokenStrs == [] ==> r == Err(EmptyDirectivePanic)
    ensures r.Ok? <==> |e.tokenStrs| == 3 && e.tokenStrs[0] == "SPECIFY"
    ensures r.Ok? ==> r.value == Specify(e.tokenStrs[1], e.tokenStrs[2])
    ensures e.tokenStrs != [] && e.tokenStrs[0] == "SPECIFY" && |e.tokenStrs| != 3 ==> r == Err(SpecifyArgsError(e.lineNumber))
    ensures e.tokenStrs != [] && e.tokenStrs[0] != "SPECIFY" ==> r == Err(InvalidOpcodeError(e.tokenStrs[0], e.lineNumber))
  {
    if e.tokenStrs == [] then Err(EmptyDirectivePanic)
    else
      var opcode := e.tokenStrs[0];
      var operands := e.tokenStrs[1..];
      if opcode == "SPECIFY" then
        if |operands| != 2 then Err(SpecifyArgsError(e.lineNumber))
        else Ok(Specify(operands[0], operands[1]))
      else Err(InvalidOpcodeError(opcode, e.lineNumber))
  }

  /** `tokenise_directives`: every directive as a command, or the first failure. */
  method TokeniseDirectives(expressions: seq<EngineParser.Statement>) returns (r: Result<seq<PreprocessorDirective>, ExecError>)
    ensures r == MapAll(TokeniseDirective, expressions)
  {
    var com := [];
    assert expressions[0..] == expressions;
    ghost var whole := MapAll(TokeniseDirective, expressions);
    assert whole.Ok? ==> [] + whole.value == whole.value;
    for i := 0 to |expressions|
      invariant whole == Prepend(com, MapAll(TokeniseDirective, expressions[i..]))
    {
      var d := TokeniseDirective(expressions[i]);
      if d.Err? {
        assert expressions[i..][0] == expressions[i];
        return Err(d.error);
      }
      MapAllStep(TokeniseDirective, expressions, i, com, d.value);
      com := com + [d.value];
    }
    assert expressions[|expressions|..] == [];
    assert com + [] == com;
    return Ok(com);
  }

  /** `evaluate_expression`: `SPECIFY NAME v` sets the id to `v`; any other key is ignored. */
  function EvaluateExpression(r: Preprocessor, expr: PreprocessorDirective): (r': Preprocessor)
    ensures r'.statements == r.statements && r'.cleanLiteral == r.cleanLiteral
    ensures r'.id == if expr.key == "NAME" then expr.value else r.id
  {
    if expr.key == "NAME" then r.(id := expr.value) else r
  }

  /** The commands evaluated in order. */
  function EvaluateAll(r: Preprocessor, ds: seq<PreprocessorDirective>): Preprocessor
    decreases |ds|
  {
    if ds == [] then r else EvaluateAll(EvaluateExpression(r, ds[0]), ds[1..])
  }

  /** The value of the last `SPECIFY NAME` of `ds`, or `dflt` if there is none. */
  function LastName(ds: seq<PreprocessorDirective>, dflt: string): string {
    if ds == [] then dflt
    else if ds[|ds| - 1].key == "NAME" then ds[|ds| - 1].value
    else LastName(ds[..|ds| - 1], dflt)
  }

  /** Evaluating sets the id to the last `SPECIFY NAME` and touches nothing else. */
  lemma {:induction false} EvaluateAllLastName(r: Preprocessor, ds: seq<PreprocessorDirective>)
    ensures EvaluateAll(r, ds) == r.(id := LastName(ds, r.id))
    decreases |ds|
  {
    if ds != [] {
      var r1 := EvaluateExpression(r, ds[0]);
      EvaluateAllLastName(r1, ds[1..]);
      LastNameCons(ds[0], ds[1..], r.id);
      assert [ds[0]] + ds[1..] == ds;
    }
  }

  lemma {:induction false} LastNameCons(d: PreprocessorDirective, ds: seq<PreprocessorDirective>, dflt: string)
    ensures LastName([d] + ds, dflt) == LastName(ds, if d.key == "NAME" then d.value else dflt)
    decreases |ds|
  {
    if ds != [] {
      assert ([d] + ds)[..|ds|] == [d] + ds[..|ds| - 1];
      LastNameCons(d, ds[..|ds| - 1], dflt);
    } else {
      assert [d] + ds == [d] && [d][..0] == [];
    }
  }

  /** The id is the value of the `SPECIFY NAME` at `k` when no later directive sets the name. */
  lemma {:induction false} LastNameIs(ds: seq<PreprocessorDirective>, dflt: string, k: nat)
    requires k < |ds| && ds[k].key == "NAME"
    requires forall j :: k < j < |ds| ==> ds[j].key != "NAME"
    ensures LastName(ds, dflt) == ds[k].value
  {
    if k < |ds| - 1 {
      var ds' := ds[..|ds| - 1];
      assert ds'[k] == ds[k];
      assert forall j :: k < j < |ds'| ==> ds'[j] == ds[j];
      LastNameIs(ds', dflt, k);
    }
  }

  /** With no `SPECIFY NAME` the default stands. */
  lemma {:induction false} LastNameNone(ds: seq<PreprocessorDirective>, dflt: string)
    requires forall j :: 0 <= j < |ds| ==> ds[j].key != "NAME"
    ensures LastName(ds, dflt) == dflt
  {
    if ds != [] {
      var ds' := ds[..|ds| - 1];
      assert forall j :: 0 <= j < |ds'| ==> ds'[j] == ds[j];
      LastNameNone(ds', dflt);
    }
  }

  /** A directive with a key other than `NAME` changes nothing. */
  lemma OtherKeyIgnored(r: Preprocessor, d: PreprocessorDirective)
    requires d.key != "NAME"
    ensures EvaluateExpression(r, d) == r
  {
  }

  /**
   * `Preprocessor::run`: the statements, the commands they hold (the first
   * bad one aborts), the text with directives and then comments stripped,
   * and the id the commands set, starting from the empty string.
   */
  function Run(literal: string): Result<Preprocessor, ExecError> {
    var statements :- MapAll(TokeniseStatement, EngineParser.Scanned(Lines(literal)));
    var directives :- MapAll(TokeniseDirective, statements);
    var stripped :- TemplaterParser.RemoveAll(literal, DirectiveRegex);
    var clean :- TemplaterParser.RemoveAll(stripped, CommentRegex);
    Ok(EvaluateAll(Preprocessor(statements, "", clean), directives))
  }

  /** `Preprocessor::run` as the loop the source runs. */
  method RunPreprocessor(literal: string) returns (res: Result<Preprocessor, ExecError>)
    ensures res == Run(literal)
  {
    var statements := EngineParser.FindStatements(literal);
    if statements.Err? {
      return Err(statements.error);
    }
    var directives := TokeniseDirectives(statements.value);
    if directives.Err? {
      return Err(directives.error);
    }
    var stripped := TemplaterParser.StripPreprocessorDirectives(literal);
    if stripped.Err? {
      return Err(stripped.error);
    }
    var clean := TemplaterParser.StripComments(stripped.value);
    if clean.Err? {
      return Err(clean.error);
    }
    var r := EvaluateDirectives(Preprocessor(statements.value, "", clean.value), directives.value);
    res := Ok(r);
  }

  /** The last loop of `Preprocessor::run`: every command evaluated on the result, in order. */
  method EvaluateDirectives(r0: Preprocessor, ds: seq<PreprocessorDirective>) returns (r: Preprocessor)
    ensures r == EvaluateAll(r0, ds)
  {
    r := r0;
    for i := 0 to |ds|
      invariant EvaluateAll(r0, ds) == EvaluateAll(r, ds[i..])
    {
      assert ds[i..][0] == ds[i] && ds[i..][1..] == ds[i + 1..];
      r := EvaluateExpression(r, ds[i]);
    }
    assert ds[|ds|..] == [];
  }

  /**
   * What a successful run yields: the parsed statements, the text with
   * directives and comments stripped, and as id the value of the last
   * `SPECIFY NAME`, or the empty string if there is none.
   */
  lemma RunResult(literal: string)
    requires Run(literal).Ok?
    ensures var statements := MapAll(TokeniseStatement, EngineParser.Scanned(Lines(literal)));
      var directives := MapAll(TokeniseDirective, statements.value);
      var stripped := TemplaterParser.RemoveAll(literal, DirectiveRegex);
      statements.Ok? && directives.Ok? && stripped.Ok?
      && Run(literal) == Ok(Preprocessor(statements.value, LastName(directives.value, ""), TemplaterParser.RemoveAll(stripped.value, CommentRegex).value))
  {
    var statements := MapAll(TokeniseStatement, EngineParser.Scanned(Lines(literal)));
    var directives := MapAll(TokeniseDirective, statements.value);
    var stripped := TemplaterParser.RemoveAll(literal, DirectiveRegex);
    var clean := TemplaterParser.RemoveAll(stripped.value, CommentRegex);
    EvaluateAllLastName(Preprocessor(statements.value, "", clean.value), directives.value);
  }

  /** The first bad directive is the error of the whole run. */
  lemma RunFirstBadDirective(literal: string, k: nat)
    requires MapAll(TokeniseStatement, EngineParser.Scanned(Lines(literal))).Ok?
    requires var ss := MapAll(TokeniseStatement, EngineParser.Scanned(Lines(literal))).value;
      k < |ss| && TokeniseDirective(ss[k]).Err? && forall j :: 0 <= j < k ==> TokeniseDirective(ss[j]).Ok?
    ensures Run(literal) == Err(TokeniseDirective(MapAll(TokeniseStatement, EngineParser.Scanned(Lines(literal))).value[k]).error)
  {
    MapAllFirstError(TokeniseDirective, MapAll(TokeniseStatement, EngineParser.Scanned(Lines(literal))).value, k);
  }

  /** The template `{: :}` is one line holding one directive with empty text ... */
  lemma EmptyDirectiveScanned()
    ensures EngineParser.Scanned(Lines("{: :}")) == [EngineParser.Statement(Directive, [[]], 1)]
  {
    var t := "{: :}";
    assert IndexOfChar(t, '\n').None?;
    assert Lines(t) == [t];
    assert t[0..2] == "{:" && t[2..] == " :}" && LeadingWhitespace(t[2..]) == 1;
    assert t[3..5] == ":}" && FindFrom(t, ":}", 3) == Some(3);
    assert TrimEnd(t[3..3]) == [];
    assert MatchAt(DirectiveRegex, t, 0) == Some(Match(0, 5, []));
    assert FindIter(DirectiveRegex, t, 0) == [Match(0, 5, [])];
    var none: seq<string> := [];
    assert [t][..0] == none;
  }

  lemma EmptyTextNoTokens()
    ensures TokeniseStatement(EngineParser.Statement(Directive, [[]], 1)) == Ok(EngineParser.Statement(Directive, [], 1))
  {
    assert Words([]) == [];
    assert Tokenizer.Tokenise([], [], 1) == Ok([]);
  }

  /** ... which has no tokens at all. */
  lemma EmptyDirectiveStatements()
    ensures MapAll(TokeniseStatement, EngineParser.Scanned(Lines("{: :}"))) == Ok([EngineParser.Statement(Directive, [], 1)])
  {
    EmptyDirectiveScanned();
    EmptyTextNoTokens();
    MapAllSingle(TokeniseStatement, EngineParser.Statement(Directive, [[]], 1));
  }

  /** So the template `{: :}` makes the run panic. */
  lemma EmptyDirectivePanics()
    ensures Run("{: :}") == Err(EmptyDirectivePanic)
  {
    EmptyDirectiveStatements();
  }
}
