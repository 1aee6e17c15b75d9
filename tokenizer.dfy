/**
 * `split_statement_token_strs`, which both generations of the directive
 * parser carry in identical form: a statement's text is split at
 * whitespace, and a quoted run of words (from a word that opens a quote to
 * the first word that closes one) is glued back into one token, its words
 * joined by single spaces and every quotation mark removed.
 */
module Tokenizer {
  import opened Wrappers
  import opened Text
  import opened Errors

  /** The error for a word made of quotation marks only. */
  function IsolatedQuoteError(line: nat): ExecError {
    TemplateSyntaxError("Illegal isolated quotation mark" + OnLine(line))
  }

  /**
   * The tokens of `words` read with the quoted run `overflow` open
   * (`overflow` is empty when no run is open), word by word as the loop
   * reads them.
   */
  function Tokenise(words: seq<string>, overflow: string, line: nat): Result<seq<string>, ExecError>
    decreases |words|
  {
    if words == [] then Ok([])
    else
      var o := words[0];
      if overflow != [] || StartsWithQuote(o) then
        var bare := RemoveQuotes(o);
        if bare == [] then Err(IsolatedQuoteError(line))
        else if EndsWithQuote(o) then Prepend([overflow + bare], Tokenise(words[1..], [], line))
        else Tokenise(words[1..], overflow + bare + " ", line)
      else Prepend([o], Tokenise(words[1..], [], line))
  }

  /** The statement text `text`, found on line `line`, as tokens. */
  method SplitStatementTokenStrs(text: string, line: nat) returns (r: Result<seq<string>, ExecError>)
    ensures r == Tokenise(Words(text), [], line)
  {
    var words := Words(text);
    var tokens: seq<string> := [];
    var overflow: string := [];
    assert words[0..] == words;
    var whole := Tokenise(words, [], line);
    assert whole.Ok? ==> [] + whole.value == whole.value;
    for i := 0 to |words|
      invariant Tokenise(words, [], line) == Prepend(tokens, Tokenise(words[i..], overflow, line))
    {
      var o := words[i];
      assert words[i..][0] == o && words[i..][1..] == words[i + 1..];
      var overflowStart := StartsWithQuote(o);
      var overflowEnd := EndsWithQuote(o);
      if overflow != [] || overflowStart {
        var bare := RemoveQuotes(o);
        if |bare| <= 0 {
          return Err(IsolatedQuoteError(line));
        }
        overflow := overflow + bare;
        if overflowEnd {
          PrependPrepend(tokens, [overflow], Tokenise(words[i + 1..], [], line));
          tokens := tokens + [overflow];
          overflow := [];
        } else {
          overflow := overflow + " ";
        }
        continue;
      }
      PrependPrepend(tokens, [o], Tokenise(words[i + 1..], [], line));
      tokens := tokens + [o];
    }
    assert words[|words|..] == [];
    assert tokens + [] == tokens;
    return Ok(tokens);
  }

  /** The index of the first word that ends with a quotation mark: where a run closes. */
  function RunEnd(words: seq<string>): (k: Option<nat>)
    ensures k.Some? ==> k.value < |words| && EndsWithQuote(words[k.value])
    ensures k.Some? ==> forall j :: 0 <= j < k.value ==> !EndsWithQuote(words[j])
    ensures k.None? ==> forall j :: 0 <= j < |words| ==> !EndsWithQuote(words[j])
  {
    if words == [] then None
    else if EndsWithQuote(words[0]) then Some(0)
    else match RunEnd(words[1..])
      case None => None
      case Some(k) => Some(k + 1)
  }

  /** Some word of `ws` is nothing but quotation marks. */
  predicate HasIsolatedQuote(ws: seq<string>) {
    exists j :: 0 <= j < |ws| && RemoveQuotes(ws[j]) == []
  }

  /** The words with their quotation marks removed. */
  function Unquoted(ws: seq<string>): (us: seq<string>)
    ensures |us| == |ws| && forall j :: 0 <= j < |ws| ==> us[j] == RemoveQuotes(ws[j])
  {
    seq(|ws|, j requires 0 <= j < |ws| => RemoveQuotes(ws[j]))
  }

  /**
   * The tokens run by run: a word that opens no quote is a token as it
   * stands; a quoted run becomes one token, the run's words without their
   * quotation marks joined by spaces; a run never closed is dropped; and
   * a word of quotation marks only inside a run is an error.
   */
  function RunTokens(words: seq<string>, line: nat): Result<seq<string>, ExecError>
    decreases |words|
  {
    if words == [] then Ok([])
    else if !StartsWithQuote(words[0]) then Prepend([words[0]], RunTokens(words[1..], line))
    else match RunEnd(words)
      case None => if HasIsolatedQuote(words) then Err(IsolatedQuoteError(line)) else Ok([])
      case Some(k) =>
        if HasIsolatedQuote(words[..k + 1]) then Err(IsolatedQuoteError(line))
        else Prepend([Join(Unquoted(words[..k + 1]), " ")], RunTokens(words[k + 1..], line))
  }

  lemma IsolatedCons(o: string, ws: seq<string>)
    ensures HasIsolatedQuote([o] + ws) <==> RemoveQuotes(o) == [] || HasIsolatedQuote(ws)
  {
    var all := [o] + ws;
    if HasIsolatedQuote(all) {
      var j :| 0 <= j < |all| && RemoveQuotes(all[j]) == [];
      if j > 0 { assert ws[j - 1] == all[j]; }
    }
    if RemoveQuotes(o) == [] {
      assert all[0] == o;
    }
    if HasIsolatedQuote(ws) {
      var j :| 0 <= j < |ws| && RemoveQuotes(ws[j]) == [];
      assert all[j + 1] == ws[j];
    }
  }

  lemma UnquotedCons(o: string, ws: seq<string>)
    requires ws != []
    ensures Join(Unquoted([o] + ws), " ") == RemoveQuotes(o) + " " + Join(Unquoted(ws), " ")
  {
    assert Unquoted([o] + ws) == [RemoveQuotes(o)] + Unquoted(ws);
  }

  /**
   * What the loop yields once a run is open with `overflow` read so far:
   * the run up to its closing word as one token, then the loop afresh.
   */
  function OpenRunTokens(words: seq<string>, overflow: string, line: nat): Result<seq<string>, ExecError> {
    match RunEnd(words)
    case None => if HasIsolatedQuote(words) then Err(IsolatedQuoteError(line)) else Ok([])
    case Some(k) =>
      if HasIsolatedQuote(words[..k + 1]) then Err(IsolatedQuoteError(line))
      else Prepend([overflow + Join(Unquoted(words[..k + 1]), " ")], Tokenise(words[k + 1..], [], line))
  }

  /** The loop with the run `overflow` open, read as a whole run. */
  lemma {:induction false} OpenRun(words: seq<string>, overflow: string, line: nat)
    requires overflow != [] || (words != [] && StartsWithQuote(words[0]))
    ensures Tokenise(words, overflow, line) == OpenRunTokens(words, overflow, line)
    decreases |words|
  {
    if words != [] {
      var o := words[0];
      var rest := words[1..];
      assert words == [o] + rest;
      var bare := RemoveQuotes(o);
      if bare == [] {
        IsolatedCons(o, rest);
        if RunEnd(words).Some? {
          var k := RunEnd(words).value;
          assert words[..k + 1] == [o] + words[1..k + 1];
          IsolatedCons(o, words[1..k + 1]);
        }
      } else if EndsWithQuote(o) {
        assert words[..1] == [o];
        IsolatedCons(o, []);
        assert Unquoted(words[..1]) == [bare];
      } else {
        OpenRunTail(words, overflow, line);
      }
    }
  }

  /** `OpenRun` when the first word neither is bare quotes nor closes the run. */
  lemma {:induction false} OpenRunTail(words: seq<string>, overflow: string, line: nat)
    requires overflow != [] || (words != [] && StartsWithQuote(words[0]))
    requires words != [] && RemoveQuotes(words[0]) != [] && !EndsWithQuote(words[0])
    ensures Tokenise(words, overflow, line) == OpenRunTokens(words, overflow, line)
    decreases |words|, 0
  {
    var o := words[0];
    var rest := words[1..];
    assert words == [o] + rest;
    var ov := overflow + RemoveQuotes(o) + " ";
    assert Tokenise(words, overflow, line) == Tokenise(rest, ov, line);
    OpenRun(rest, ov, line);
    OpenRunTokensCons(o, rest, overflow, line);
  }

  /** A word that neither is bare quotes nor closes the run moves into the open run. */
  lemma OpenRunTokensCons(o: string, rest: seq<string>, overflow: string, line: nat)
    requires RemoveQuotes(o) != [] && !EndsWithQuote(o)
    ensures OpenRunTokens([o] + rest, overflow, line) == OpenRunTokens(rest, overflow + RemoveQuotes(o) + " ", line)
  {
    var words := [o] + rest;
    assert words[0] == o && words[1..] == rest;
    IsolatedCons(o, rest);
    if RunEnd(rest).Some? {
      OpenRunClosedCons(o, rest, overflow, line);
    }
  }

  /** `OpenRunTokensCons` when the rest of the words close the run. */
  lemma OpenRunClosedCons(o: string, rest: seq<string>, overflow: string, line: nat)
    requires RemoveQuotes(o) != [] && !EndsWithQuote(o) && RunEnd(rest).Some?
    ensures OpenRunTokens([o] + rest, overflow, line) == OpenRunTokens(rest, overflow + RemoveQuotes(o) + " ", line)
  {
    var k' := RunEnd(rest).value;
    var k := k' + 1;
    var run' := rest[..k' + 1];
    RunEndCons(o, rest, k');
    RunSlices(o, rest, k', k);
    IsolatedCons(o, run');
    UnquotedCons(o, run');
    GlueRun(overflow, RemoveQuotes(o), Join(Unquoted(run'), " "));
    OpenRunTokensAt([o] + rest, overflow, line, k);
    OpenRunTokensAt(rest, overflow + RemoveQuotes(o) + " ", line, k');
  }

  /** A word that does not close the run moves the run's end one further. */
  lemma RunEndCons(o: string, rest: seq<string>, k': nat)
    requires !EndsWithQuote(o) && RunEnd(rest) == Some(k')
    ensures RunEnd([o] + rest) == Some(k' + 1)
  {
    var words := [o] + rest;
    assert words[1..] == rest;
    assert !EndsWithQuote(words[0]);
  }

  /** The run and what follows it, with one word in front. */
  lemma RunSlices(o: string, rest: seq<string>, k': nat, k: nat)
    requires k' < |rest| && k == k' + 1
    ensures ([o] + rest)[..k + 1] == [o] + rest[..k' + 1]
    ensures ([o] + rest)[k + 1..] == rest[k' + 1..]
  {
  }

  /** `OpenRunTokens` once the run is known to close at `k`. */
  lemma OpenRunTokensAt(words: seq<string>, overflow: string, line: nat, k: nat)
    requires RunEnd(words) == Some(k)
    ensures OpenRunTokens(words, overflow, line) ==
      if HasIsolatedQuote(words[..k + 1]) then Err(IsolatedQuoteError(line))
      else Prepend([overflow + Join(Unquoted(words[..k + 1]), " ")], Tokenise(words[k + 1..], [], line))
  {
  }

  lemma GlueRun(overflow: string, bare: string, joined: string)
    ensures overflow + (bare + " " + joined) == overflow + bare + " " + joined
  {
  }

  /** The word-by-word loop and the run-by-run reading give the same tokens. */
  lemma {:induction false} TokeniseByRuns(words: seq<string>, line: nat)
    ensures Tokenise(words, [], line) == RunTokens(words, line)
    decreases |words|
  {
    if words != [] {
      if !StartsWithQuote(words[0]) {
        TokeniseByRuns(words[1..], line);
      } else {
        OpenRun(words, [], line);
        if RunEnd(words).Some? {
          var k := RunEnd(words).value;
          TokeniseByRuns(words[k + 1..], line);
          assert [] + Join(Unquoted(words[..k + 1]), " ") == Join(Unquoted(words[..k + 1]), " ");
        }
      }
    }
  }

  /** Every token the tokenizer yields is non-empty. */
  lemma {:induction false} RunTokensNonEmpty(words: seq<string>, line: nat)
    requires forall j :: 0 <= j < |words| ==> IsWord(words[j])
    requires RunTokens(words, line).Ok?
    ensures forall j :: 0 <= j < |RunTokens(words, line).value| ==> RunTokens(words, line).value[j] != []
    decreases |words|
  {
    if words != [] {
      if !StartsWithQuote(words[0]) {
        RunTokensNonEmpty(words[1..], line);
      } else if RunEnd(words).Some? {
        var k := RunEnd(words).value;
        var us := Unquoted(words[..k + 1]);
        assert us[0] == RemoveQuotes(words[0]) && us[0] != [] by {
          assert !HasIsolatedQuote(words[..k + 1]);
          assert words[..k + 1][0] == words[0];
        }
        JoinNonEmpty(us, " ");
        RunTokensNonEmpty(words[k + 1..], line);
      }
    }
  }

  lemma {:induction false} JoinNonEmpty(xs: seq<string>, sep: string)
    requires xs != [] && xs[0] != []
    ensures Join(xs, sep) != []
  {
  }

  /** The tokens of a statement's text are non-empty words or glued runs. */
  lemma TokensNonEmpty(text: string, line: nat)
    requires Tokenise(Words(text), [], line).Ok?
    ensures forall j :: 0 <= j < |Tokenise(Words(text), [], line).value| ==> Tokenise(Words(text), [], line).value[j] != []
  {
    TokeniseByRuns(Words(text), line);
    RunTokensNonEmpty(Words(text), line);
  }
}
