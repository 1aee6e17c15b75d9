/**
 * The directive parser of the templating engine, an iteration that knows
 * only `{: … :}` directives. It shares its scanner and its tokenizer with
 * the templater's parser.
 */
module EngineParser {
  import opened Wrappers
  import opened Text
  import opened Errors
  import opened Patterns
  import opened Tokenizer
  import TemplaterParser

  /** Only directives exist in this iteration. */
  datatype StatementType = Directive

  /** A directive found in a template: its tokens and its 1-based line. */
  datatype Statement = Statement(stype: StatementType, tokenStrs: seq<string>, lineNumber: nat)

  /** The statements of one line, one per `{: … :}` capture, before tokenising. */
  function LineDirectives(ms: seq<Match>, number: nat): (ss: seq<Statement>)
    ensures |ss| == |ms|
    ensures forall k :: 0 <= k < |ms| ==> ss[k] == Statement(Directive, [ms[k].inner], number)
  {
    if ms == [] then []
    else LineDirectives(ms[..|ms| - 1], number) + [Statement(Directive, [ms[|ms| - 1].inner], number)]
  }

  /** The statements of `lines`, line by line, before tokenising; lines are numbered from 1. */
  function Scanned(lines: seq<string>): (ss: seq<Statement>)
    ensures forall k :: 0 <= k < |ss| ==> 1 <= ss[k].lineNumber <= |lines|
  {
    if lines == [] then []
    else Scanned(lines[..|lines| - 1]) + LineDirectives(FindIter(DirectiveRegex, lines[|lines| - 1], 0), |lines|)
  }

  /** Statements come in line order. */
  lemma {:induction false} ScannedInOrder(lines: seq<string>)
    ensures forall a, b :: 0 <= a < b < |Scanned(lines)| ==> Scanned(lines)[a].lineNumber <= Scanned(lines)[b].lineNumber
  {
    if lines != [] {
      var n := |lines|;
      var prev := Scanned(lines[..n - 1]);
      var here := LineDirectives(FindIter(DirectiveRegex, lines[n - 1], 0), n);
      ScannedInOrder(lines[..n - 1]);
      var ss := prev + here;
      assert Scanned(lines) == ss;
      forall a, b | 0 <= a < b < |ss| ensures ss[a].lineNumber <= ss[b].lineNumber {
        if b < |prev| {
          assert ss[a] == prev[a] && ss[b] == prev[b];
        } else {
          assert ss[b] == here[b - |prev|];
          if a >= |prev| { assert ss[a] == here[a - |prev|]; }
        }
      }
    }
  }

  /** Scanning more lines only adds statements at the end. */
  lemma {:induction false} ScannedPrefix(lines: seq<string>, i: nat)
    requires i <= |lines|
    ensures Scanned(lines[..i]) <= Scanned(lines)
    decreases |lines| - i
  {
    if i < |lines| {
      ScannedPrefix(lines, i + 1);
      assert lines[..i + 1][..i] == lines[..i];
    } else {
      assert lines[..i] == lines;
    }
  }

  /** The statements numbered `n` are the captures of line `n`, left to right. */
  lemma ScannedLine(lines: seq<string>, n: nat)
    requires 1 <= n <= |lines|
    ensures |Scanned(lines[..n - 1])| <= |Scanned(lines[..n])| <= |Scanned(lines)|
    ensures Scanned(lines)[|Scanned(lines[..n - 1])|..|Scanned(lines[..n])|]
      == LineDirectives(FindIter(DirectiveRegex, lines[n - 1], 0), n)
  {
    ScannedPrefix(lines, n);
    var ls := lines[..n];
    assert ls[..n - 1] == lines[..n - 1] && ls[n - 1] == lines[n - 1];
    var a := Scanned(lines[..n - 1]);
    var l := LineDirectives(FindIter(DirectiveRegex, lines[n - 1], 0), n);
    var p := Scanned(ls);
    var x := Scanned(lines);
    assert p == a + l;
    assert x[..|p|] == p;
    assert x[|a|..|p|] == x[..|p|][|a|..];
    assert p[|a|..] == l;
  }

  /** The statement with its text split into tokens. */
  function TokeniseStatement(s: Statement): (r: Result<Statement, ExecError>)
    ensures r.Ok? ==> r.value == s.(tokenStrs := r.value.tokenStrs)
  {
    if s.tokenStrs == [] then Err(Panic(NoTokenStrs))
    else
      var tokens :- Tokenise(Words(s.tokenStrs[0]), [], s.lineNumber);
      Ok(s.(tokenStrs := tokens))
  }

  /** `find_statements`: scan every line for directives, then split each one's text into tokens. */
  method FindStatements(literal: string) returns (r: Result<seq<Statement>, ExecError>)
    ensures r == MapAll(TokeniseStatement, Scanned(Lines(literal)))
  {
    var statements := ScanLines(Lines(literal));
    r := TokeniseStatements(statements);
  }

  /** The first loop of `find_statements`: the raw statements, line by line. */
  method ScanLines(lines: seq<string>) returns (statements: seq<Statement>)
    ensures statements == Scanned(lines)
  {
    statements := [];
    for i := 0 to |lines|
      invariant statements == Scanned(lines[..i])
    {
      assert lines[..i + 1][..i] == lines[..i] && lines[..i + 1][i] == lines[i];
      var dss := ScanLine(lines[i], i + 1);
      statements := statements + dss;
    }
    assert lines[..|lines|] == lines;
  }

  /** The inner loop of `find_statements`, over one line's `{: … :}` captures. */
  method ScanLine(s: string, number: nat) returns (dss: seq<Statement>)
    ensures dss == LineDirectives(FindIter(DirectiveRegex, s, 0), number)
  {
    var ds := FindIter(DirectiveRegex, s, 0);
    dss := [];
    for j := 0 to |ds|
      invariant dss == LineDirectives(ds[..j], number)
    {
      assert ds[..j + 1][..j] == ds[..j];
      dss := dss + [Statement(Directive, [ds[j].inner], number)];
    }
    assert ds[..|ds|] == ds;
  }

  /** The second loop of `find_statements`: each statement's tokens replaced in place. */
  method TokeniseStatements(raw: seq<Statement>) returns (r: Result<seq<Statement>, ExecError>)
    ensures r == MapAll(TokeniseStatement, raw)
  {
    var statements := raw;
    assert raw[0..] == raw;
    var whole := MapAll(TokeniseStatement, raw);
    assert whole.Ok? ==> [] + whole.value == whole.value;
    var k := 0;
    while k < |statements|
      invariant k <= |statements| == |raw| && statements[k..] == raw[k..]
      invariant whole == Prepend(statements[..k], MapAll(TokeniseStatement, raw[k..]))
    {
      var s := statements[k];
      assert raw[k..][0] == s;
      if s.tokenStrs == [] {
        return Err(Panic(NoTokenStrs));
      }
      var tokens := SplitStatementTokenStrs(s.tokenStrs[0], s.lineNumber);
      if tokens.Err? {
        return Err(tokens.error);
      }
      var prefix := statements[..k];
      var t := s.(tokenStrs := tokens.value);
      MapAllStep(TokeniseStatement, raw, k, prefix, t);
      UpdateSplit(statements, k, t);
      statements := statements[k := t];
      k := k + 1;
    }
    assert raw[k..] == [] && statements[..k] == statements;
    assert statements + [] == statements;
    return Ok(statements);
  }

  // ---------------------------------------------------------------------
  // Agreement with the templater's parser
  // ---------------------------------------------------------------------

  /** The templater's directive statements, as statements of this iteration. */
  function DirectivesOf(ss: seq<TemplaterParser.Statement>): (ds: seq<Statement>)
    ensures |ds| <= |ss|
  {
    if ss == [] then []
    else
      var last := ss[|ss| - 1];
      DirectivesOf(ss[..|ss| - 1])
        + (if last.stype.Directive? then [Statement(Directive, last.tokenStrs, last.lineNumber)] else [])
  }

  lemma {:induction false} DirectivesOfConcat(a: seq<TemplaterParser.Statement>, b: seq<TemplaterParser.Statement>)
    ensures DirectivesOf(a + b) == DirectivesOf(a) + DirectivesOf(b)
    decreases |b|
  {
    if b == [] {
      assert a + b == a;
    } else {
      var b' := b[..|b| - 1];
      var last := b[|b| - 1];
      var tail := if last.stype.Directive? then [Statement(Directive, last.tokenStrs, last.lineNumber)] else [];
      DirectivesOfConcat(a, b');
      assert (a + b)[..|a + b| - 1] == a + b' && (a + b)[|a + b| - 1] == last;
      assert DirectivesOf(a + b) == DirectivesOf(a + b') + tail;
      assert DirectivesOf(b) == DirectivesOf(b') + tail;
      assert (DirectivesOf(a) + DirectivesOf(b')) + tail == DirectivesOf(a) + (DirectivesOf(b') + tail);
    }
  }

  lemma {:induction false} DirectivesOfDirectives(ms: seq<Match>, n: nat)
    ensures DirectivesOf(TemplaterParser.DirectiveStatements(ms, n)) == LineDirectives(ms, n)
    decreases |ms|
  {
    if ms != [] {
      var ss := TemplaterParser.DirectiveStatements(ms, n);
      DirectivesOfDirectives(ms[..|ms| - 1], n);
      assert ss[..|ss| - 1] == TemplaterParser.DirectiveStatements(ms[..|ms| - 1], n);
    }
  }

  lemma {:induction false} DirectivesOfExpressions(line: string, ms: seq<Match>, n: nat)
    requires forall k :: 0 <= k < |ms| ==> ms[k].start <= ms[k].end <= |line|
    ensures DirectivesOf(TemplaterParser.ExpressionStatements(line, ms, n)) == []
    decreases |ms|
  {
    if ms != [] {
      var ss := TemplaterParser.ExpressionStatements(line, ms, n);
      DirectivesOfExpressions(line, ms[..|ms| - 1], n);
      assert ss[..|ss| - 1] == TemplaterParser.ExpressionStatements(line, ms[..|ms| - 1], n);
    }
  }

  /**
   * Before tokenising, this iteration finds exactly the directive
   * statements the templater's parser finds, with the same texts and lines.
   */
  lemma {:induction false} ScannedAgrees(lines: seq<string>)
    ensures Scanned(lines) == DirectivesOf(TemplaterParser.Scanned(lines))
  {
    if lines != [] {
      var n := |lines|;
      var line := lines[n - 1];
      ScannedAgrees(lines[..n - 1]);
      var ds := TemplaterParser.DirectiveStatements(FindIter(DirectiveRegex, line, 0), n);
      var es := TemplaterParser.ExpressionStatements(line, FindIter(ExpressionRegex, line, 0), n);
      assert TemplaterParser.Scanned(lines) == TemplaterParser.Scanned(lines[..n - 1]) + (ds + es);
      assert Scanned(lines) == Scanned(lines[..n - 1]) + LineDirectives(FindIter(DirectiveRegex, line, 0), n);
      DirectivesOfConcat(TemplaterParser.Scanned(lines[..n - 1]), ds + es);
      DirectivesOfConcat(ds, es);
      DirectivesOfDirectives(FindIter(DirectiveRegex, line, 0), n);
      DirectivesOfExpressions(line, FindIter(ExpressionRegex, line, 0), n);
    }
  }
}
