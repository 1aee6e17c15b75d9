/**
 * The templater's first evaluator: every `{{ $x }}` expression statement
 * of a preprocessed template is replaced, in order, by the value of the
 * variable `x`.
 */
module LegacyEvaluator {
  import opened Wrappers
  import opened Text
  import opened Errors
  import TemplaterParser

  /**
   * What the templater's preprocessor hands over: its statements, the
   * template's id and its text. (That preprocessor is not part of this
   * model; only the three fields the evaluator reads are.)
   */
  datatype Preprocessed = Preprocessed(statements: seq<TemplaterParser.Statement>, id: string, literal: string)

  /** An expression statement: the text it stands for and its tokens. */
  datatype Expression = Expression(literal: string, tokens: seq<string>)

  /** What evaluation yields: the variables it was given and the substituted text. */
  datatype Evaluator = Evaluator(state: map<string, string>, evalLiteral: string)

  /** The panic of unwrapping the text of an expression statement that has none. */
  const NoLiteralPanic := Panic(LiteralUnwrap)

  /** The expression statements of `ss`, in order. */
  function ExpressionsOf(ss: seq<TemplaterParser.Statement>): (es: seq<TemplaterParser.Statement>)
    ensures forall k :: 0 <= k < |es| ==> es[k].stype.Expression? && es[k] in ss
  {
    if ss == [] then []
    else
      var rest := ExpressionsOf(ss[..|ss| - 1]);
      assert forall k :: 0 <= k < |rest| ==> rest[k] in ss by {
        forall k | 0 <= k < |rest| ensures rest[k] in ss {
          assert rest[k] in ss[..|ss| - 1];
        }
      }
      rest + if ss[|ss| - 1].stype.Expression? then [ss[|ss| - 1]] else []
  }

  /** One expression statement as an expression, unwrapping its text. */
  function ToExpression(s: TemplaterParser.Statement): (r: Result<Expression, ExecError>)
    ensures r.Err? <==> s.literal.None?
    ensures r.Err? ==> r.error == NoLiteralPanic
    ensures r.Ok? ==> r.value == Expression(s.literal.value, s.tokenStrs)
  {
    if s.literal.None? then Err(NoLiteralPanic) else Ok(Expression(s.literal.value, s.tokenStrs))
  }

  predicate IsVariable(t: string) {
    |t| > 0 && t[0] == '$'
  }

  /**
   * `evaluate_expression`: only the first token counts. `$x` reads the
   * variable `x`; any other token is invalid; no token at all is a
   * malformed expression.
   */
  function EvaluateExpression(e: Expression, state: map<string, string>, templateId: string): (r: Result<string, ExecError>)
    ensures e.tokens == [] ==> r == Err(TemplateMalformedExpressionError(e.literal))
    ensures e.tokens != [] && IsVariable(e.tokens[0]) && e.tokens[0][1..] in state ==> r == Ok(state[e.tokens[0][1..]])
    ensures e.tokens != [] && IsVariable(e.tokens[0]) && e.tokens[0][1..] !in state ==>
      r == Err(TemplateUnknownVariableError(e.tokens[0][1..], templateId))
    ensures e.tokens != [] && !IsVariable(e.tokens[0]) ==> r == Err(TemplateInvalidTokenError(e.tokens[0], Some(templateId)))
    ensures r.Ok? ==> r.value in state.Values
  {
    if e.tokens == [] then Err(TemplateMalformedExpressionError(e.literal))
    else
      var t := e.tokens[0];
      if IsVariable(t) then
        if t[1..] in state then Ok(state[t[1..]])
        else Err(TemplateUnknownVariableError(t[1..], templateId))
      else Err(TemplateInvalidTokenError(t, Some(templateId)))
  }

  /** Tokens after the first are never looked at. */
  lemma LaterTokensIgnored(e: Expression, rest: seq<string>, state: map<string, string>, templateId: string)
    requires e.tokens != []
    ensures EvaluateExpression(e.(tokens := e.tokens + rest), state, templateId) == EvaluateExpression(e, state, templateId)
  {
    assert (e.tokens + rest)[0] == e.tokens[0];
  }

  /**
   * The loop of `Evaluator::run`: each expression evaluated, in order, and
   * the first occurrence of its text in the current text replaced by its
   * value; the first failure aborts.
   */
  function Substitute(text: string, es: seq<Expression>, state: map<string, string>, templateId: string): Result<string, ExecError>
    decreases |es|
  {
    if es == [] then Ok(text)
    else
      var v :- EvaluateExpression(es[0], state, templateId);
      Substitute(ReplaceFirst(text, es[0].literal, v), es[1..], state, templateId)
  }

  /** The texts replaced one after another, each first occurrence by its value. */
  function ReplaceEach(text: string, es: seq<Expression>, vs: seq<string>): string
    requires |vs| == |es|
    decreases |es|
  {
    if es == [] then text else ReplaceEach(ReplaceFirst(text, es[0].literal, vs[0]), es[1..], vs[1..])
  }

  /** Every expression evaluated on its own, with the variables and the id given. */
  function Values(es: seq<Expression>, state: map<string, string>, templateId: string): Result<seq<string>, ExecError> {
    MapAll((e: Expression) => EvaluateExpression(e, state, templateId), es)
  }

  /**
   * Evaluating and substituting one expression at a time is the same as
   * evaluating them all first and then substituting the values in order:
   * a substitution never changes what a later expression evaluates to.
   */
  lemma {:induction false} SubstituteTwoPhase(text: string, es: seq<Expression>, state: map<string, string>, templateId: string)
    ensures Values(es, state, templateId).Err? ==> Substitute(text, es, state, templateId) == Err(Values(es, state, templateId).error)
    ensures Values(es, state, templateId).Ok? ==>
      Substitute(text, es, state, templateId) == Ok(ReplaceEach(text, es, Values(es, state, templateId).value))
    decreases |es|
  {
    if es != [] {
      var f := (e: Expression) => EvaluateExpression(e, state, templateId);
      var v := EvaluateExpression(es[0], state, templateId);
      assert f(es[0]) == v;
      if v.Ok? {
        SubstituteTwoPhase(ReplaceFirst(text, es[0].literal, v.value), es[1..], state, templateId);
        var rest := Values(es[1..], state, templateId);
        assert Values(es, state, templateId) == if rest.Ok? then Ok([v.value] + rest.value) else Err(rest.error);
        if rest.Ok? {
          var vs := [v.value] + rest.value;
          assert vs[0] == v.value && vs[1..] == rest.value;
        }
      }
    }
  }

  /** The first expression that does not evaluate is the error of the whole substitution. */
  lemma SubstituteFirstError(text: string, es: seq<Expression>, state: map<string, string>, templateId: string, k: nat)
    requires k < |es| && EvaluateExpression(es[k], state, templateId).Err?
    requires forall j :: 0 <= j < k ==> EvaluateExpression(es[j], state, templateId).Ok?
    ensures Substitute(text, es, state, templateId) == Err(EvaluateExpression(es[k], state, templateId).error)
  {
    var f := (e: Expression) => EvaluateExpression(e, state, templateId);
    assert forall j :: 0 <= j <= k ==> f(es[j]) == EvaluateExpression(es[j], state, templateId);
    MapAllFirstError(f, es, k);
    SubstituteTwoPhase(text, es, state, templateId);
  }

  /**
   * `Evaluator::run`: the expressions of the preprocessed template
   * substituted into its text; the variables are copied and come back
   * unchanged.
   */
  function Run(preproc: Preprocessed, state: map<string, string>): (r: Result<Evaluator, ExecError>)
    ensures r.Ok? ==> r.value.state == state
  {
    var exprs :- MapAll(ToExpression, ExpressionsOf(preproc.statements));
    var literal :- Substitute(preproc.literal, exprs, state, preproc.id);
    Ok(Evaluator(state, literal))
  }

  /** A template without expression statements comes back as it is. */
  lemma NoExpressionsUnchanged(preproc: Preprocessed, state: map<string, string>)
    requires forall k :: 0 <= k < |preproc.statements| ==> preproc.statements[k].stype.Directive?
    ensures Run(preproc, state) == Ok(Evaluator(state, preproc.literal))
  {
  }

  /** `Evaluator::run` as the loop the source runs. */
  method RunEvaluator(preproc: Preprocessed, state: map<string, string>) returns (r: Result<Evaluator, ExecError>)
    ensures r == Run(preproc, state)
  {
    var exprs := MapAll(ToExpression, ExpressionsOf(preproc.statements));
    if exprs.Err? {
      return Err(exprs.error);
    }
    var es := exprs.value;
    var res := Evaluator(state, preproc.literal);
    for i := 0 to |es|
      invariant res.state == state
      invariant Substitute(preproc.literal, es, state, preproc.id) == Substitute(res.evalLiteral, es[i..], state, preproc.id)
    {
      assert es[i..][0] == es[i] && es[i..][1..] == es[i + 1..];
      var v := EvaluateExpression(es[i], state, preproc.id);
      if v.Err? {
        return Err(v.error);
      }
      res := res.(evalLiteral := ReplaceFirst(res.evalLiteral, es[i].literal, v.value));
    }
    assert es[|es|..] == [];
    return Ok(res);
  }
}
