/**
 * The directive and expression parser of the templater, with the two
 * strippers that cut directives and comments out of a template's text.
 */
module TemplaterParser {
  import opened Wrappers
  import opened Text
  import opened Errors
  import opened Patterns
  import opened Tokenizer

  datatype StatementType = Directive | Expression

  /**
   * A statement found in a template: its tokens, the text an expression
   * statement is to be replaced in (`{{`, the expression, `}}`, with the
   * whitespace between them), and its 1-based line.
   */
  datatype Statement = Statement(stype: StatementType, tokenStrs: seq<string>, literal: Option<string>, lineNumber: nat)

  /** The directive statements of one line, from its `{: … :}` matches, before tokenising. */
  function DirectiveStatements(ms: seq<Match>, number: nat): (ss: seq<Statement>)
    ensures |ss| == |ms|
    ensures forall k :: 0 <= k < |ms| ==> ss[k] == Statement(Directive, [ms[k].inner], None, number)
  {
    if ms == [] then []
    else DirectiveStatements(ms[..|ms| - 1], number) + [Statement(Directive, [ms[|ms| - 1].inner], None, number)]
  }

  /** The expression statements of one line, from its `{{ … }}` matches, before tokenising. */
  function ExpressionStatements(line: string, ms: seq<Match>, number: nat): (ss: seq<Statement>)
    requires forall k :: 0 <= k < |ms| ==> ms[k].start <= ms[k].end <= |line|
    ensures |ss| == |ms|
    ensures forall k :: 0 <= k < |ms| ==>
      ss[k] == Statement(Expression, [ms[k].inner], Some(line[ms[k].start..ms[k].end]), number)
  {
    if ms == [] then []
    else
      var m := ms[|ms| - 1];
      ExpressionStatements(line, ms[..|ms| - 1], number) + [Statement(Expression, [m.inner], Some(line[m.start..m.end]), number)]
  }

  /** The statements of the line numbered `number`: its directives, then its expressions. */
  function LineStatements(line: string, number: nat): seq<Statement> {
    DirectiveStatements(FindIter(DirectiveRegex, line, 0), number)
      + ExpressionStatements(line, FindIter(ExpressionRegex, line, 0), number)
  }

  /** The statements of `lines`, line by line, before tokenising; lines are numbered from 1. */
  function Scanned(lines: seq<string>): (ss: seq<Statement>)
    ensures forall k :: 0 <= k < |ss| ==> 1 <= ss[k].lineNumber <= |lines|
  {
    if lines == [] then []
    else Scanned(lines[..|lines| - 1]) + LineStatements(lines[|lines| - 1], |lines|)
  }

  /** `a` may come before `b`: an earlier line, or the same line and not an expression before a directive. */
  predicate Before(a: Statement, b: Statement) {
    a.lineNumber < b.lineNumber || (a.lineNumber == b.lineNumber && (a.stype == Expression ==> b.stype == Expression))
  }

  predicate InOrder(ss: seq<Statement>) {
    forall a, b :: 0 <= a < b < |ss| ==> Before(ss[a], ss[b])
  }

  /** Line by line, and within a line every directive before every expression. */
  lemma {:induction false} ScannedInOrder(lines: seq<string>)
    ensures InOrder(Scanned(lines))
  {
    if lines != [] {
      var n := |lines|;
      ScannedInOrder(lines[..n - 1]);
      LineInOrder(lines[n - 1], n);
      InOrderConcat(Scanned(lines[..n - 1]), LineStatements(lines[n - 1], n), n);
    }
  }

  /** One line's statements all carry its number, directives first. */
  lemma LineInOrder(line: string, n: nat)
    ensures var here := LineStatements(line, n);
      InOrder(here) && forall k :: 0 <= k < |here| ==> here[k].lineNumber == n
  {
    var ds := DirectiveStatements(FindIter(DirectiveRegex, line, 0), n);
    var es := ExpressionStatements(line, FindIter(ExpressionRegex, line, 0), n);
    var here := ds + es;
    forall k | 0 <= k < |here| ensures here[k].lineNumber == n && (here[k].stype == Expression <==> |ds| <= k) {
      if k < |ds| { assert here[k] == ds[k]; } else { assert here[k] == es[k - |ds|]; }
    }
    BlockInOrder(here, |ds|, n);
  }

  /** Statements of one line, directives up to `d` and expressions from there, are in order. */
  lemma BlockInOrder(here: seq<Statement>, d: nat, n: nat)
    requires forall k :: 0 <= k < |here| ==> here[k].lineNumber == n
    requires forall k :: 0 <= k < |here| ==> (here[k].stype == Expression <==> d <= k)
    ensures InOrder(here)
  {
    forall a, b | 0 <= a < b < |here| ensures Before(here[a], here[b]) {
      assert here[a].lineNumber == n && here[b].lineNumber == n;
    }
  }

  /** Statements in order, then statements of a later line in order, are in order. */
  lemma InOrderConcat(prev: seq<Statement>, here: seq<Statement>, n: nat)
    requires InOrder(prev) && InOrder(here)
    requires forall k :: 0 <= k < |prev| ==> prev[k].lineNumber < n
    requires forall k :: 0 <= k < |here| ==> here[k].lineNumber == n
    ensures InOrder(prev + here)
  {
    var ss := prev + here;
    forall a, b | 0 <= a < b < |ss| ensures Before(ss[a], ss[b]) {
      if b < |prev| {
        assert ss[a] == prev[a] && ss[b] == prev[b];
      } else if a < |prev| {
        assert ss[a] == prev[a] && ss[b] == here[b - |prev|];
      } else {
        assert ss[a] == here[a - |prev|] && ss[b] == here[b - |prev|];
      }
    }
  }

  /** Each statement comes from the line its number names. */
  lemma {:induction false} ScannedFromItsLine(lines: seq<string>, k: nat)
    requires k < |Scanned(lines)|
    ensures Scanned(lines)[k] in LineStatements(lines[Scanned(lines)[k].lineNumber - 1], Scanned(lines)[k].lineNumber)
  {
    var n := |lines|;
    var prev := Scanned(lines[..n - 1]);
    var here := LineStatements(lines[n - 1], n);
    assert Scanned(lines) == prev + here;
    if k < |prev| {
      ScannedFromItsLine(lines[..n - 1], k);
      assert lines[prev[k].lineNumber - 1] == lines[..n - 1][prev[k].lineNumber - 1];
    } else {
      var ds := DirectiveStatements(FindIter(DirectiveRegex, lines[n - 1], 0), n);
      assert Scanned(lines)[k] == here[k - |prev|];
      assert here[k - |prev|].lineNumber == n by {
        if k - |prev| < |ds| { assert here[k - |prev|] == ds[k - |prev|]; }
      }
    }
  }

  /** One statement with its text split into tokens. */
  function TokeniseStatement(s: Statement): (r: Result<Statement, ExecError>)
    ensures r.Ok? ==> r.value == s.(tokenStrs := r.value.tokenStrs)
  {
    if s.tokenStrs == [] then Err(Panic(NoTokenStrs))
    else
      var tokens :- Tokenise(Words(s.tokenStrs[0]), [], s.lineNumber);
      Ok(s.(tokenStrs := tokens))
  }

  /**
   * `find_statements`: scan every line for directives and then
   * expressions, then split each statement's text into tokens.
   */
  method FindStatements(literal: string) returns (r: Result<seq<Statement>, ExecError>)
    ensures r == MapAll(TokeniseStatement, Scanned(Lines(literal)))
  {
    var statements := ScanLines(Lines(literal));
    r := TokeniseStatements(statements);
  }

  /** The first loop of `find_statements`: the raw statements, line by line. */
  method ScanLines(lines: seq<string>) returns (statements: seq<Statement>)
    ensures statements == Scanned(lines)
  {
    statements := [];
    for i := 0 to |lines|
      invariant statements == Scanned(lines[..i])
    {
      var s := lines[i];
      assert lines[..i + 1][..i] == lines[..i] && lines[..i + 1][i] == s;
      var dss := LineDirectives(s, i + 1);
      var ess := LineExpressions(s, i + 1);
      statements := statements + (dss + ess);
    }
    assert lines[..|lines|] == lines;
  }

  /** The directive loop over one line's `{: … :}` captures. */
  method LineDirectives(s: string, number: nat) returns (dss: seq<Statement>)
    ensures dss == DirectiveStatements(FindIter(DirectiveRegex, s, 0), number)
  {
    var ds := FindIter(DirectiveRegex, s, 0);
    dss := [];
    for j := 0 to |ds|
      invariant dss == DirectiveStatements(ds[..j], number)
    {
      assert ds[..j + 1][..j] == ds[..j];
      dss := dss + [Statement(Directive, [ds[j].inner], None, number)];
    }
    assert ds[..|ds|] == ds;
  }

  /** The expression loop over one line's `{{ … }}` captures. */
  method LineExpressions(s: string, number: nat) returns (ess: seq<Statement>)
    ensures ess == ExpressionStatements(s, FindIter(ExpressionRegex, s, 0), number)
  {
    var es := FindIter(ExpressionRegex, s, 0);
    ess := [];
    for j := 0 to |es|
      invariant ess == ExpressionStatements(s, es[..j], number)
    {
      assert es[..j + 1][..j] == es[..j];
      var m := es[j];
      ess := ess + [Statement(Expression, [m.inner], Some(s[m.start..m.end]), number)];
    }
    assert es[..|es|] == es;
  }

  /** The second loop of `find_statements`: each statement's tokens replaced in place. */
  method TokeniseStatements(raw: seq<Statement>) returns (r: Result<seq<Statement>, ExecError>)
    ensures r == MapAll(TokeniseStatement, raw)
  {
    var statements := raw;
    assert raw[0..] == raw;
    var whole := MapAll(TokeniseStatement, raw);
    assert whole.Ok? ==> [] + whole.value == whole.value;
    var k := 0;
    while k < |statements|
      invariant k <= |statements| == |raw| && statements[k..] == raw[k..]
      invariant whole == Prepend(statements[..k], MapAll(TokeniseStatement, raw[k..]))
    {
      var s := statements[k];
      assert raw[k..][0] == s;
      if s.tokenStrs == [] {
        return Err(Panic(NoTokenStrs));
      }
      var tokens := SplitStatementTokenStrs(s.tokenStrs[0], s.lineNumber);
      if tokens.Err? {
        return Err(tokens.error);
      }
      var prefix := statements[..k];
      var t := s.(tokenStrs := tokens.value);
      MapAllStep(TokeniseStatement, raw, k, prefix, t);
      UpdateSplit(statements, k, t);
      statements := statements[k := t];
      k := k + 1;
    }
    assert raw[k..] == [] && statements[..k] == statements;
    assert statements + [] == statements;
    return Ok(statements);
  }

  // ---------------------------------------------------------------------
  // Stripping directives and comments
  // ---------------------------------------------------------------------

  /** The panic of a byte index past the end of the text (or of `0 - 1`) in `has_newline_at_index`. */
  const HasNewlinePanic := Panic(NewlineIndexOutOfRange)

  /** The panic of `mat.start() - rem_amt` going below zero. */
  const OffsetPanic := Panic(OffsetUnderflow)

  /** The panic of `replace_range` given a range outside the text. */
  const RangePanic := Panic(RangeOutOfBounds)

  /** A line break: LF, or CR followed by LF. */
  predicate IsBreak(s: string) {
    s == "\n" || s == "\r\n"
  }

  /** The line break found at `at`, `len` characters long. */
  datatype Break = Break(at: nat, len: nat)

  /**
   * `has_newline_at_index(t, i, t.len())`: whether removing a span at `i`
   * has left an empty line, and where the line break to drop is. Within
   * the first two bytes or at the very end, one break at `i` or, at the
   * end, just before it; elsewhere two breaks in a row around `i`, of
   * which the first goes. Rust indexes the bytes, so an index past the
   * end panics.
   */
  function HasNewlineAtIndex(t: string, i: nat): (r: Result<Option<Break>, ExecError>)
    ensures r.Err? ==> r.error == HasNewlinePanic
    ensures r.Ok? && r.value.Some? ==> BreakAround(t, i, r.value.value)
  {
    if i > |t| then Err(HasNewlinePanic)
    else if ByteLen(t[..i]) < 2 || i == |t| then
      if i == 0 && i == |t| then Err(HasNewlinePanic)
      else
        var ii := if i == |t| then i - 1 else i;
        if t[ii] == '\n' then LineBreak(t, ii, 1, i)
        else if t[ii] == '\r' then
          if ii + 1 >= |t| then Err(HasNewlinePanic)
          else if t[ii + 1] == '\n' then LineBreak(t, ii, 2, i)
          else Ok(None)
        else Ok(None)
    else if t[i - 1] == '\n' && t[i] == '\n' then LineBreak(t, i - 1, 1, i)
    else if i >= 2 && t[i - 2] == '\r' && t[i - 1] == '\n' && t[i] == '\r' then
      if i + 1 >= |t| then Err(HasNewlinePanic)
      else if t[i + 1] == '\n' then LineBreak(t, i - 2, 2, i)
      else Ok(None)
    else Ok(None)
  }

  /**
   * When `has_newline_at_index` panics, and which breaks it reports: one
   * at the removal point within the first two bytes, one just before the
   * end, or the first of two in a row around the removal point.
   */
  lemma HasNewlineCases(t: string, i: nat)
    // the panics: past the end, an empty text, or a CR with nothing after it
    ensures HasNewlineAtIndex(t, i).Err? ==> i > |t| || t == [] || t[|t| - 1] == '\r'
    ensures i > |t| || (i == |t| && (t == [] || t[|t| - 1] == '\r')) ==> HasNewlineAtIndex(t, i).Err?
    // a break at the removal point, within the first two bytes
    ensures i < |t| && ByteLen(t[..i]) < 2 && t[i] == '\n' ==> HasNewlineAtIndex(t, i) == Ok(Some(Break(i, 1)))
    ensures i + 1 < |t| && ByteLen(t[..i]) < 2 && t[i..i + 2] == "\r\n" ==> HasNewlineAtIndex(t, i) == Ok(Some(Break(i, 2)))
    // a break just before the removal point, at the end of the text
    ensures 0 < i == |t| && t[i - 1] == '\n' ==> HasNewlineAtIndex(t, i) == Ok(Some(Break(i - 1, 1)))
    // two breaks in a row around the removal point: the first goes
    ensures 1 <= i < |t| && ByteLen(t[..i]) >= 2 && t[i - 1] == '\n' && t[i] == '\n' ==> HasNewlineAtIndex(t, i) == Ok(Some(Break(i - 1, 1)))
    ensures 2 <= i && i + 1 < |t| && ByteLen(t[..i]) >= 2 && t[i - 2..i + 2] == "\r\n\r\n" ==> HasNewlineAtIndex(t, i) == Ok(Some(Break(i - 2, 2)))
  {
    if i + 1 < |t| && t[i..i + 2] == "\r\n" {
      assert t[i] == t[i..i + 2][0] && t[i + 1] == t[i..i + 2][1];
    }
    if 2 <= i && i + 1 < |t| && t[i - 2..i + 2] == "\r\n\r\n" {
      assert t[i - 2] == t[i - 2..i + 2][0] && t[i - 1] == t[i - 2..i + 2][1];
      assert t[i] == t[i - 2..i + 2][2] && t[i + 1] == t[i - 2..i + 2][3];
    }
  }

  /** The break `b` is a line break of `t` that starts or ends at `i`. */
  predicate BreakAround(t: string, i: nat, b: Break) {
    b.at + b.len <= |t| && IsBreak(t[b.at..b.at + b.len]) && (b.at == i || b.at + b.len == i)
  }

  function LineBreak(t: string, x: nat, n: nat, i: nat): (r: Result<Option<Break>, ExecError>)
    requires x + n <= |t| && (n == 1 ==> t[x] == '\n') && (n == 2 ==> t[x] == '\r' && t[x + 1] == '\n')
    requires n == 1 || n == 2
    requires x == i || x + n == i
    ensures r.Ok? && r.value.Some? && BreakAround(t, i, r.value.value)
  {
    assert n == 1 ==> t[x..x + n] == [t[x]];
    assert n == 2 ==> t[x..x + n] == [t[x], t[x + 1]];
    Ok(Some(Break(x, n)))
  }

  /** The text being cut down, with how many characters have gone from it so far. */
  datatype Progress = Progress(text: string, removed: nat)

  /** The text with `r[x..x + n]` cut out (with the bounds checks of a Rust `replace_range`). */
  function Cut(r: string, x: nat, n: nat): (c: string)
    requires x + n <= |r|
    ensures |c| == |r| - n && c[..x] == r[..x] && c[x..] == r[x + n..]
  {
    r[..x] + r[x + n..]
  }

  /** After a cut at `s`: the line break that cut left empty goes too, if any. */
  function DropBreak(cut: string, s: nat, removed: nat): Result<Progress, ExecError> {
    var nl :- HasNewlineAtIndex(cut, s);
    if nl.None? then Ok(Progress(cut, removed))
    else Ok(Progress(Cut(cut, nl.value.at, nl.value.len), removed + nl.value.len))
  }

  /**
   * One pass of the loop of `remove_all_incl_newlines`: the match `m`,
   * found in the original text, is cut out of the current text, of which
   * `st.removed` characters have gone already; then the line break the cut
   * leaves empty, if any, goes too.
   */
  function RemoveStep(st: Progress, m: Match): Result<Progress, ExecError> {
    if m.start < st.removed || m.end < st.removed then Err(OffsetPanic)
    else if m.end < m.start then Err(RangePanic)
    else CutSpan(st.text, m.start - st.removed, m.end - m.start, st.removed)
  }

  /**
   * The shifted span `text[s..s + n]` cut out of a text of which `removed`
   * characters have gone, past whose end `replace_range` panics.
   */
  function CutSpan(text: string, s: nat, n: nat, removed: nat): Result<Progress, ExecError> {
    if s + n > |text| then Err(RangePanic)
    else DropBreak(Cut(text, s, n), s, removed + n)
  }

  /** The loop of `remove_all_incl_newlines` over the matches `ms` still to remove. */
  function RemoveFrom(st: Progress, ms: seq<Match>): Result<string, ExecError>
    decreases |ms|
  {
    if ms == [] then Ok(st.text)
    else
      var next := RemoveStep(st, ms[0]);
      if next.Err? then Err(next.error) else RemoveFrom(next.value, ms[1..])
  }

  /** What `remove_all_incl_newlines(text, p)` returns, or the panic that aborts it. */
  function RemoveAll(text: string, p: Pattern): Result<string, ExecError> {
    RemoveFrom(Progress(text, 0), FindIter(p, text, 0))
  }

  /**
   * `remove_all_incl_newlines`: every match of `p` in the original text
   * removed, left to right, each with the line break it leaves empty.
   */
  method RemoveAllInclNewlines(text: string, p: Pattern) returns (r: Result<string, ExecError>)
    ensures r == RemoveAll(text, p)
  {
    var ms := FindIter(p, text, 0);
    var rStr := text;
    var remAmt: nat := 0;
    for k := 0 to |ms|
      invariant RemoveAll(text, p) == RemoveFrom(Progress(rStr, remAmt), ms[k..])
    {
      assert ms[k..][0] == ms[k] && ms[k..][1..] == ms[k + 1..];
      var next := RemoveMatch(rStr, remAmt, ms[k]);
      if next.Err? {
        return Err(next.error);
      }
      rStr, remAmt := next.value.text, next.value.removed;
    }
    assert ms[|ms|..] == [];
    r := Ok(rStr);
  }

  /** The body of the loop of `remove_all_incl_newlines`, for one match. */
  method RemoveMatch(rStr: string, remAmt: nat, mat: Match) returns (next: Result<Progress, ExecError>)
    ensures next == RemoveStep(Progress(rStr, remAmt), mat)
  {
    ghost var st := Progress(rStr, remAmt);
    if mat.start < remAmt || mat.end < remAmt {
      assert RemoveStep(st, mat) == Err(OffsetPanic);
      return Err(OffsetPanic);
    }
    var s := mat.start - remAmt;
    var e := mat.end - remAmt;
    if e < s || e > |rStr| {
      assert RemoveStep(st, mat) == Err(RangePanic);
      return Err(RangePanic);
    }
    CutStep(st, mat, s, e - s);
    var cut := Cut(rStr, s, e - s);
    next := DropNewline(cut, s, remAmt + (e - s));
  }

  /** The end of that body: the line break the cut at `s` left empty, if any, removed too. */
  method DropNewline(cut: string, s: nat, removed: nat) returns (next: Result<Progress, ExecError>)
    ensures next == DropBreak(cut, s, removed)
  {
    var nl := HasNewlineAtIndex(cut, s);
    if nl.Err? {
      return Err(nl.error);
    }
    if nl.value.Some? {
      next := Ok(Progress(Cut(cut, nl.value.value.at, nl.value.value.len), removed + nl.value.value.len));
    } else {
      next := Ok(Progress(cut, removed));
    }
  }

  /** `strip_preprocessor_directives` */
  method StripPreprocessorDirectives(literal: string) returns (r: Result<string, ExecError>)
    ensures r == RemoveAll(literal, DirectiveRegex)
  {
    r := RemoveAllInclNewlines(literal, DirectiveRegex);
  }

  /** `strip_comments` */
  method StripComments(literal: string) returns (r: Result<string, ExecError>)
    ensures r == RemoveAll(literal, CommentRegex)
  {
    r := RemoveAllInclNewlines(literal, CommentRegex);
  }

  // ---------------------------------------------------------------------
  // What the stripping guarantees
  // ---------------------------------------------------------------------

  /**
   * `st` is the text `str` cut down with `st.removed` characters gone, all
   * of them before index `c` of `str`: from `c` on the two agree.
   */
  ghost predicate Aligned(str: string, st: Progress, c: nat) {
    st.removed <= c <= |str| && |st.text| + st.removed == |str| && st.text[c - st.removed..] == str[c..]
  }

  /** The matches still to remove lie in order in `str`, from `c` on, each opening with '{'. */
  ghost predicate Pending(str: string, ms: seq<Match>, c: nat)
    decreases |ms|
  {
    ms == [] ||
    (c <= ms[0].start && ms[0].start + 4 <= ms[0].end <= |str| && str[ms[0].start] == '{'
     && Pending(str, ms[1..], ms[0].end))
  }

  lemma SuffixShift(str: string, text: string, d: nat, c: nat, x: nat)
    requires d <= c <= |str| && |text| + d == |str| && text[c - d..] == str[c..] && c <= x <= |str|
    ensures text[x - d..] == str[x..]
  {
    assert text[x - d..] == text[c - d..][x - c..];
    assert str[x..] == str[c..][x - c..];
  }

  /** Cutting the match `m`, `n` characters long, keeps the texts aligned from the match's end on. */
  lemma CutAligned(str: string, st: Progress, m: Match, c: nat, n: nat)
    requires Aligned(str, st, c) && c <= m.start <= m.end <= |str| && n == m.end - m.start
    ensures Aligned(str, Progress(Cut(st.text, m.start - st.removed, n), st.removed + n), m.end)
  {
    var s := m.start - st.removed;
    var cut := Cut(st.text, s, n);
    SuffixShift(str, st.text, st.removed, c, m.end);
    assert m.end - (st.removed + n) == s;
    assert cut[s..] == st.text[s + n..];
  }

  /**
   * A match that lies in the current text, once shifted by what has gone,
   * is cut out of it, its `n` characters counted as removed, and then a
   * break at the cut may go.
   */
  lemma CutStep(st: Progress, m: Match, s: nat, n: nat)
    requires st.removed <= m.start <= m.end && st.removed <= m.end
    requires s == m.start - st.removed && n == m.end - m.start
    ensures RemoveStep(st, m) == CutSpan(st.text, s, n, st.removed)
  {
  }

  lemma CutSpanInRange(text: string, s: nat, n: nat, removed: nat)
    requires s + n <= |text|
    ensures CutSpan(text, s, n, removed) == DropBreak(Cut(text, s, n), s, removed + n)
  {
  }

  /**
   * Dropping the line break found around the cut at index `s` keeps the
   * texts aligned, from a point past the break if the break came after
   * the cut; everything skipped over is part of the break.
   */
  lemma BreakAligned(str: string, st: Progress, s: nat, b: Break, c: nat)
    requires Aligned(str, st, c) && s == c - st.removed && BreakAround(st.text, s, b)
    ensures var c' := if b.at == s then c + b.len else c;
      Aligned(str, Progress(Cut(st.text, b.at, b.len), st.removed + b.len), c')
      && forall j :: c <= j < c' ==> str[j] == '\n' || str[j] == '\r'
  {
    var t := st.text;
    var cut := Cut(t, b.at, b.len);
    assert IsBreak(t[b.at..b.at + b.len]);
    if b.at == s {
      SuffixShift(str, t, st.removed, c, c + b.len);
      assert cut[s..] == t[s + b.len..];
      forall j | c <= j < c + b.len ensures str[j] == '\n' || str[j] == '\r' {
        var w := t[b.at..b.at + b.len];
        assert str[j] == str[c..][j - c] == t[s..][j - c] == w[j - c];
        BreakChars(w, j - c);
      }
    } else {
      assert cut[s - b.len..] == t[s..];
    }
  }

  /** A line break is made of LF and CR characters. */
  lemma BreakChars(w: string, k: nat)
    requires IsBreak(w) && k < |w|
    ensures w[k] == '\n' || w[k] == '\r'
  {
  }

  /** `DropBreak` on an aligned text keeps it aligned; what it skips over is line breaks. */
  lemma DropAligned(str: string, text: string, removed: nat, s: nat, c: nat) returns (c': nat)
    requires Aligned(str, Progress(text, removed), c) && s == c - removed
    ensures Stepped(str, DropBreak(text, s, removed), c, c')
  {
    var st := Progress(text, removed);
    c' := c;
    var nl := HasNewlineAtIndex(st.text, s);
    if nl.Ok? && nl.value.Some? {
      var b := nl.value.value;
      BreakAligned(str, st, s, b, c);
      if b.at == s {
        c' := c + b.len;
      }
    }
  }

  /**
   * A pass that removed everything up to `c` of `str` and then only line
   * breaks up to `c'` ends aligned with `str` from `c'` on, or in the
   * panic of `has_newline_at_index`.
   */
  ghost predicate Stepped(str: string, r: Result<Progress, ExecError>, c: nat, c': nat) {
    match r
    case Err(e) => e == HasNewlinePanic && Skipped(str, c, c')
    case Ok(v) => Aligned(str, v, c') && Skipped(str, c, c')
  }

  ghost predicate Skipped(str: string, c: nat, c': nat) {
    && c <= c' <= |str|
    && (forall j :: c <= j < c' ==> str[j] == '\n' || str[j] == '\r')
  }

  /**
   * One step of the loop on an aligned text: the offsets never underflow
   * and the ranges stay in bounds, so the only way it fails is the panic
   * of `has_newline_at_index`; and the texts stay aligned.
   */
  lemma StepAligned(str: string, st: Progress, m: Match, c: nat) returns (c': nat)
    requires Aligned(str, st, c) && c <= m.start && m.start + 4 <= m.end <= |str|
    ensures Stepped(str, RemoveStep(st, m), m.end, c')
  {
    var s := m.start - st.removed;
    var n := m.end - m.start;
    CutAligned(str, st, m, c, n);
    CutStep(st, m, s, n);
    CutSpanInRange(st.text, s, n, st.removed);
    c' := DropAligned(str, Cut(st.text, s, n), st.removed + n, s, m.end);
  }

  /** The matches after the first lie past what the first step removed. */
  lemma PendingTail(str: string, ms: seq<Match>, c: nat, c': nat)
    requires ms != [] && Pending(str, ms, c) && ms[0].end <= c' <= |str|
    requires forall j :: ms[0].end <= j < c' ==> str[j] == '\n' || str[j] == '\r'
    ensures Pending(str, ms[1..], c')
  {
    if |ms| > 1 {
      assert ms[1..][0] == ms[1];
    }
  }

  /** The whole loop on an aligned text fails only with the panic of `has_newline_at_index`. */
  lemma {:induction false} RemoveFromAligned(str: string, st: Progress, ms: seq<Match>, c: nat)
    requires Aligned(str, st, c) && Pending(str, ms, c)
    ensures RemoveFrom(st, ms).Err? ==> RemoveFrom(st, ms).error == HasNewlinePanic
    decreases |ms|
  {
    if ms != [] {
      var c' := StepAligned(str, st, ms[0], c);
      var next := RemoveStep(st, ms[0]);
      if next.Ok? {
        PendingTail(str, ms, c, c');
        RemoveFromAligned(str, next.value, ms[1..], c');
      }
    }
  }

  /** What `find_iter` reports is pending from where the search starts. */
  lemma {:induction false} FindIterPending(p: Pattern, t: string, i: nat)
    requires i <= |t|
    ensures Pending(t, FindIter(p, t, i), i)
    decreases |t| - i
  {
    if i < |t| {
      match MatchAt(p, t, i)
      case Some(m) =>
        FindIterFound(p, t, i, m);
        MatchAtShape(p, t, i, m);
        assert FindIter(p, t, i)[1..] == FindIter(p, t, m.end);
        assert t[i] == t[i..i + 2][0] == Opener(p)[0];
        FindIterPending(p, t, m.end);
      case None =>
        FindIterSkip(p, t, i);
        FindIterPending(p, t, i + 1);
        PendingFrom(t, FindIter(p, t, i + 1), i, i + 1);
    }
  }

  lemma PendingFrom(str: string, ms: seq<Match>, c: nat, d: nat)
    requires c <= d && Pending(str, ms, d)
    ensures Pending(str, ms, c)
  {
  }

  /**
   * Stripping never underflows an offset nor cuts outside the text: if it
   * panics, it is in `has_newline_at_index`.
   */
  lemma RemoveAllPanicsOnlyAtBreaks(text: string, p: Pattern)
    ensures RemoveAll(text, p).Err? ==> RemoveAll(text, p).error == HasNewlinePanic
  {
    FindIterPending(p, text, 0);
    assert text[0..] == text;
    RemoveFromAligned(text, Progress(text, 0), FindIter(p, text, 0), 0);
  }

  /** With no match anywhere, the text comes back unchanged. */
  lemma NoMatchUnchanged(text: string, p: Pattern)
    requires forall j :: 0 <= j <= |text| ==> MatchAt(p, text, j).None?
    ensures RemoveAll(text, p) == Ok(text)
  {
    FindIterEmptyIff(p, text, 0);
  }

  /**
   * A text that is nothing but one match, with no line break after it,
   * panics: the cut leaves the empty string, and `has_newline_at_index`
   * then reads before its start.
   */
  lemma LoneMatchPanics(text: string, p: Pattern)
    requires |text| > 0 && MatchAt(p, text, 0).Some? && MatchAt(p, text, 0).value.end == |text|
    ensures RemoveAll(text, p) == Err(HasNewlinePanic)
  {
    var m := MatchAt(p, text, 0).value;
    assert FindIter(p, text, 0) == [m] + FindIter(p, text, |text|);
    assert FindIter(p, text, 0) == [m];
    var st := Progress(text, 0);
    assert Cut(text, 0, |text|) == [];
    assert HasNewlineAtIndex([], 0) == Err(HasNewlinePanic);
    assert RemoveStep(st, m) == DropBreak([], 0, |text|) == Err(HasNewlinePanic);
    assert RemoveFrom(st, [m]) == Err(HasNewlinePanic);
  }

  /** So a template that is a single comment, `{# note #}`, makes `strip_comments` panic. */
  lemma LoneCommentPanics()
    ensures RemoveAll("{# note #}", CommentRegex) == Err(HasNewlinePanic)
  {
    var t := "{# note #}";
    assert OccursAt(t, "{#", 0) && OccursAt(t, "#}", 8);
    assert LineEnd(t, 2) == 10;
    assert LastIn(t, "#}", 2, 10) == Some(8);
    LoneMatchPanics(t, CommentRegex);
  }

  /** Past the last '{' of the text no pattern matches. */
  lemma {:induction false} NoOpenerNoMatches(p: Pattern, t: string, i: nat)
    requires i <= |t| && forall j :: i <= j < |t| ==> t[j] != '{'
    ensures FindIter(p, t, i) == []
    decreases |t| - i
  {
    if i < |t| {
      NoOpenerNoMatches(p, t, i + 1);
    }
  }

  /** The directive `{:a:}` sits at index 1 of `{{:a:}:b:}`, and nothing follows it. */
  lemma JoinedMatches()
    ensures FindIter(DirectiveRegex, "{{:a:}:b:}\n", 0) == [Match(1, 6, "a")]
  {
    var p := DirectiveRegex;
    var t := "{{:a:}:b:}\n";
    assert t[0..2] == "{{";
    JoinedMatchAt();
    NoOpenerNoMatches(p, t, 6);
  }

  lemma JoinedMatchAt()
    ensures MatchAt(DirectiveRegex, "{{:a:}:b:}\n", 1) == Some(Match(1, 6, "a"))
  {
    JoinedLazyAt();
    assert "{{:a:}:b:}\n"[1..3] == "{:";
    assert Opener(DirectiveRegex) == "{:" && Closer(DirectiveRegex) == ":}";
  }

  lemma JoinedLazyAt()
    ensures LazyAt("{{:a:}:b:}\n", 1, ":}") == Some(Match(1, 6, "a"))
  {
    var t := "{{:a:}:b:}\n";
    assert t[3] == 'a' && LeadingWhitespace(t[3..]) == 0;
    assert t[3..5] == "a:" && t[4..6] == ":}";
    assert FindFrom(t, ":}", 3) == Some(4);
    assert TrimEnd(t[3..4]) == "a";
  }

  /** Cutting `{:a:}` out of `{{:a:}:b:}` leaves `{:b:}`. */
  lemma JoinedCut()
    ensures Cut("{{:a:}:b:}\n", 1, 5) == "{:b:}\n"
  {
    var t := "{{:a:}:b:}\n";
    assert t[..1] == "{";
    assert t[6..] == ":b:}\n";
  }

  /**
   * Stripping is not idempotent: removing the directive `{:a:}` out of
   * `{{:a:}:b:}` joins what is left into a new directive ...
   */
  lemma StripDirectivesJoins()
    ensures RemoveAll("{{:a:}:b:}\n", DirectiveRegex) == Ok("{:b:}\n")
  {
    var t := "{{:a:}:b:}\n";
    var m := Match(1, 6, "a");
    JoinedMatches();
    JoinedStep();
    assert RemoveAll(t, DirectiveRegex) == RemoveFrom(Progress(t, 0), [m]);
    assert [m][1..] == [];
  }

  /** The one step of that pass: the cut leaves no empty line. */
  lemma JoinedStep()
    ensures RemoveStep(Progress("{{:a:}:b:}\n", 0), Match(1, 6, "a")) == Ok(Progress("{:b:}\n", 5))
  {
    JoinedCut();
    JoinedNoBreak();
  }

  lemma JoinedNoBreak()
    ensures HasNewlineAtIndex("{:b:}\n", 1) == Ok(None)
  {
    var t' := "{:b:}\n";
    assert t'[..1] == "{" && ByteLen(t'[..1]) == 1 && t'[1] == ':';
  }

  /** ... which a second pass removes, line break and all. */
  lemma StripDirectivesAgain()
    ensures RemoveAll("{:b:}\n", DirectiveRegex) == Ok("")
  {
    var t := "{:b:}\n";
    var m := Match(0, 5, "b");
    AgainMatches();
    AgainStep();
    assert RemoveAll(t, DirectiveRegex) == RemoveFrom(Progress(t, 0), [m]);
    assert [m][1..] == [];
  }

  /** `{:b:}` is the one directive of `{:b:}` and a line break. */
  lemma AgainMatches()
    ensures FindIter(DirectiveRegex, "{:b:}\n", 0) == [Match(0, 5, "b")]
  {
    var p := DirectiveRegex;
    var t := "{:b:}\n";
    assert t[0..2] == "{:";
    assert t[2] == 'b' && LeadingWhitespace(t[2..]) == 0;
    assert t[2..4] == "b:" && t[3..5] == ":}";
    assert FindFrom(t, ":}", 2) == Some(3);
    assert TrimEnd(t[2..3]) == "b";
    assert MatchAt(p, t, 0) == Some(Match(0, 5, "b"));
    NoOpenerNoMatches(p, t, 5);
  }

  /** Cutting it leaves an empty line, whose break goes too. */
  lemma AgainStep()
    ensures RemoveStep(Progress("{:b:}\n", 0), Match(0, 5, "b")) == Ok(Progress("", 6))
  {
    var t := "{:b:}\n";
    assert t[5..] == "\n";
    assert Cut(t, 0, 5) == "\n";
    assert HasNewlineAtIndex("\n", 0) == Ok(Some(Break(0, 1)));
    assert Cut("\n", 0, 1) == "";
  }
}
