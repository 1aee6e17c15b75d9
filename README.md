# devinit template pipeline in Dafny

devinit is a command-line tool that scaffolds files and projects from
templates. A template is a text file written for the Tera engine, with two
extras that devinit handles itself: `{: … :}` directives (`SPECIFY NAME x`
gives the template an id) and `{# … #}` comments. A file template is one
such file. A project template is a directory whose `templaterc.yml`
manifest maps output paths to member files. Templates are found by walking
a directory tree, registered in one shared Tera instance, and rendered with
user variables plus a `BUILTIN` record. Before rendering, devinit can list
the variables a template reads but never sets.

The repository holds several generations of the same subsystems side by
side. This model covers the template pipeline around the engine, one Dafny
module per source file (or per concept the files share):

- `AstTraverse`, over the `TeraAst` syntax tree: the missing-variable
  analyser. It takes the include/extends closure, collects variable
  references and `set` keys, and gives the sorted, de-duplicated base names
  that are read but never set.
- The directive pipeline, in four modules:
  - `Patterns` writes the three regular expressions out as scanners.
  - `Tokenizer` holds the quote-aware tokenizer.
  - `TemplaterParser` and `EngineParser` hold the two generations of
    statement finding. Only `TemplaterParser` strips spans, since
    src/templating_engine/parser.rs has no strip function.
  - `EnginePreprocessor` turns directives into commands and takes the
    template's id.
- `LegacyEvaluator`: the first `{{ $x }}` substitution evaluator.
- The registries, in four generations:
  - `LegacyTemplates` (src/templater/templates.rs);
  - `CfgTemplates` (src/cfg/templates.rs);
  - `CfgTemplateSet` (src/cfg/template_set.rs);
  - the converged `TemplateSets`, with `FileTemplates`, `ProjectTemplates`
    and `Renderers`.
  They share `FileSystem` (the directory walk), `ExecRegistry` and
  `FirstWins` (load in path order; the first template of each name is
  kept).
- `LanguageSpecifics`: the extension, file-name and comment-style tables.
- `Errors`: exit codes and error reporting.
- `VscodeRunner`: the editor extension's command builder.

`Wrappers`, `Text`, `BuiltIns` and `TemplateContext` hold shared
definitions.

State that the source updates in place is modelled as Dafny classes:
- the shared engine (`TemplateContext.Context`);
- the registries' sets;
- the renderers' variables;
- the editor extension's `Runner`.

Each loop of the source is a method with loop invariants. That method is
proved equal to a functional definition, and the properties are lemmas
about that definition. The Tera engine's parser and renderer are given
functions, fixed when a context is made. The filesystem is a tree value
plus a reader function. Panics of the source (`unwrap`, an index out of
range, `todo!()`) are modelled as the error `ExecError.Panic`. Rust's
`HashSet`s of templates, which compare entries by name, are maps from
that name.

Where the model departs from what a reader might expect:

- `src/cfg/templates.rs` calls a `templater::Preprocessor` that is not part
  of this model. Its loaders use the templating engine's preprocessor
  (`EnginePreprocessor`, src/templating_engine/preprocessor.rs) in its
  place. It provides the `id` and `clean_literal` fields that the loaders
  read.
- src/templating_engine/preprocessor.rs:13 imports `strip_comments` and
  `strip_preprocessor_directives` from its own module, which defines
  neither. `EnginePreprocessor.Run` strips with the functions of the same
  names in src/templater/parser.rs (`TemplaterParser.RemoveAll`,
  `StripPreprocessorDirectives` and `StripComments`) in their place.
- The evaluator reads `preproc.literal`, a field the templating engine's
  preprocessor does not have. It is modelled on a `Preprocessed` value
  with the fields it reads: statements, id and literal.
- Engine registration (`add_raw_template`) is assumed to replace the entry
  for that name on success and leave the engine unchanged on failure.
- An include cycle reachable from the analysed template makes
  `get_templates_recursive` recurse forever. The model asks for a ghost
  rank that decreases along references, but only on the templates the
  analysed one reaches. Cycles elsewhere in the registry are allowed.

## Model

| member | source | states |
|---|---|---|
| Errors.ExitCode | src/error.rs:67-80 | every error kind maps to an exit code in 1..8 |
| Errors.ExitCodeIdentifiesKind | src/error.rs:67-80 | two errors have the same exit code iff they are of the same kind, whatever their payloads (so the eight codes are distinct) |
| Errors.KindOfCode | src/error.rs:67-80 | every code in 1..8 is the exit code of some error kind |
| Errors.Handle | src/error.rs:55-60 | `handle` logs the kind's report and terminates with that error's non-zero exit code |
| Errors.HandleSafe | src/error.rs:62-64 | `handle_safe` logs the same report as `handle` and does not terminate |
| TemplateContext.Context.constructor | src/templater/context.rs:22-32 | a new context holds no templates |
| TemplateContext.Context.AddRawTemplate | src/templater/tpl_objects/file_tpl.rs:60-65 | registering a body under a name succeeds iff it parses, and then replaces that name's entry; a parse failure leaves the registry unchanged (an assumption about the engine) |
| AstTraverse.FindAllMatchesNode | src/templater/ast_traverse.rs:114-170 | `find_all_matches_node` never fails and returns the matches of the node, in walk order |
| AstTraverse.FindAllMatchesSeq | src/templater/ast_traverse.rs:120-122 | one body loop appends each child's matches, in order, to what was collected |
| AstTraverse.FindAllMatches | src/templater/ast_traverse.rs:102-111 | `find_all_matches` never fails and returns the matches of each top-level node, in order |
| AstTraverse.NodeMatchesIff | src/templater/ast_traverse.rs:114-170 | a node is among a node's matches iff it is a non-container reached through macro, filter, block, for (body and empty body) and if (every branch and else) bodies, and satisfies the predicate |
| AstTraverse.SeqMatchesIff | src/templater/ast_traverse.rs:102-111 | the same for a whole template: exactly the reachable non-container nodes that satisfy the predicate |
| AstTraverse.BranchMatchesIff | src/templater/ast_traverse.rs:148-154 | the matches of the if-arms are exactly the predicate's nodes found in some arm's body |
| AstTraverse.InNodeIsLeaf | src/templater/ast_traverse.rs:162-166 | a found node is never a container: only the other node kinds are put to the predicate |
| AstTraverse.InSeqIsLeaf | src/templater/ast_traverse.rs:162-166 | the same for a node list |
| AstTraverse.CutAt | src/templater/ast_traverse.rs:89-90 | the prefix of a string up to its first occurrence of a character, which it then does not contain |
| AstTraverse.FirstAccessorDelim | src/templater/ast_traverse.rs:215 | the index of the first '.' or '[' of an identifier, or its length |
| AstTraverse.SplitAccessors | src/templater/ast_traverse.rs:215 | splitting at '.' and '[' gives at least one segment, the first being the text before the first delimiter, and no segment holds a delimiter |
| AstTraverse.IdentPath | src/templater/ast_traverse.rs:214-218 | an identifier's access path has one segment per split piece, each cut at its first ']' |
| AstTraverse.BaseName | src/templater/ast_traverse.rs:214-218 | the variable an identifier reads is its path's first segment, free of '.', '[' and ']' (the `BUILTIN` filter is at line 46) |
| AstTraverse.ExprIdents | src/templater/ast_traverse.rs:210-245 | every reported access path is non-empty |
| AstTraverse.ArgsIdents | src/templater/ast_traverse.rs:219-233 | every path reported for an argument list is non-empty |
| AstTraverse.DropBuiltins | src/templater/ast_traverse.rs:237-242 | the filter keeps exactly the paths whose first segment is not `BUILTIN` |
| AstTraverse.GetExprVariableIdents | src/templater/ast_traverse.rs:210-245 | `get_expr_variable_idents`, with its loops, returns the functional definition's paths |
| AstTraverse.GetArgsVariableIdents | src/templater/ast_traverse.rs:220-222 | one argument loop returns the concatenated paths of the arguments |
| AstTraverse.ExprIdentsComplete | src/templater/ast_traverse.rs:210-235 | every identifier an expression mentions, through macro-call and function-call arguments and array items, is reported, unless it is a dropped built-in |
| AstTraverse.ArgsIdentsComplete | src/templater/ast_traverse.rs:219-233 | the same for an argument list |
| AstTraverse.ExprIdentsSound | src/templater/ast_traverse.rs:210-245 | every reported path is that of a mentioned identifier, and not the built-in when built-ins are dropped; other expression kinds contribute nothing |
| AstTraverse.ArgsIdentsSound | src/templater/ast_traverse.rs:219-233 | the same for an argument list |
| AstTraverse.BaseNames | src/templater/ast_traverse.rs:46-47 | `.map(\|v\| v[0])` keeps one name per path |
| AstTraverse.ExprVariablesIff | src/templater/ast_traverse.rs:210-242 | an expression reads `x` iff `x` is not `BUILTIN` and is the base of an identifier it mentions (the `BUILTIN` filter is at lines 44-47) |
| AstTraverse.BlockGets | src/templater/ast_traverse.rs:36-54 | the variables of the `{{ }}` blocks are exactly those some block's expression reads |
| AstTraverse.SetGets | src/templater/ast_traverse.rs:63-69 | the variables pushed for the `set`s are exactly those some set's value reads |
| AstTraverse.SetKeys | src/templater/ast_traverse.rs:58-77 | `set_vars` gets exactly the keys of the `set`s |
| AstTraverse.TemplateGetsIff | src/templater/ast_traverse.rs:36-77 | one template adds `x` to `get_vars` iff some node found in its tree reads `x` |
| AstTraverse.TemplateSetsIff | src/templater/ast_traverse.rs:58-77 | one template adds `x` to `set_vars` iff some `set` found in its tree has key `x` |
| AstTraverse.AllGetsIff | src/templater/ast_traverse.rs:33-78 | over the template list, `get_vars` holds exactly the variables some template reads |
| AstTraverse.AllSetsIff | src/templater/ast_traverse.rs:33-78 | over the template list, `set_vars` holds exactly the keys some template sets |
| AstTraverse.Insert | src/templater/ast_traverse.rs:82-83 | inserting into a strictly ascending list keeps it strictly ascending and adds exactly that element |
| AstTraverse.SortDedup | src/templater/ast_traverse.rs:81-83 | `sort` then `dedup` gives a strictly ascending list with the same elements |
| AstTraverse.AscendingUnique | src/templater/ast_traverse.rs:82-83 | two strictly ascending lists with the same elements are equal, so the sorted, de-duplicated list is unique |
| AstTraverse.VarBase | src/templater/ast_traverse.rs:89-90 | the base variable of a name is a prefix of it |
| AstTraverse.Unset | src/templater/ast_traverse.rs:85-98 | the final filter keeps exactly the names whose base is not set, and keeps them in ascending order |
| AstTraverse.VarBaseOfPlainName | src/templater/ast_traverse.rs:89-90 | a name without '.' or '[' is its own base |
| AstTraverse.ReadVarIsPlain | src/templater/ast_traverse.rs:210-242 | a read variable is never `BUILTIN` and holds no '.', '[' or ']' (the `BUILTIN` filter is at line 46) |
| AstTraverse.MissingVarsSpec | src/templater/ast_traverse.rs:30-98 | for a template list, the result is strictly ascending and holds exactly the variables some template reads and no template sets, none of them `BUILTIN` or carrying an accessor |
| AstTraverse.GetTemplatesRecursive | src/templater/ast_traverse.rs:173-203 | `get_templates_recursive`, with its loops, returns the functional definition's closure, when no include cycle is reachable from the template |
| AstTraverse.HandleDirective | src/templater/ast_traverse.rs:190-199 | one pass of the directive loop: an `include` appends each id's closure in order, an `extends` its parent's, any other node nothing; a failure there is the failure of the whole closure, and otherwise the whole closure is what is accumulated followed by the closures of the remaining directives |
| AstTraverse.AppendClosures | src/templater/ast_traverse.rs:191-195 | the include-id loop appends each id's closure in order, the first error aborting |
| AstTraverse.ClosureOfAppend | src/templater/ast_traverse.rs:190-199 | the closures of two concatenated id lists are the first list's followed by the second's, the first error winning |
| AstTraverse.ClosureShape | src/templater/ast_traverse.rs:178-202 | a successful closure ends with the requested template, lists only registry entries, and lists every include and extends target before the template that names it |
| AstTraverse.ClosureOfShape | src/templater/ast_traverse.rs:190-199 | a successful closure of an id list lists only registry entries, each reference before its referrer, and every id of the list |
| AstTraverse.ClosureReachable | src/templater/ast_traverse.rs:178-199 | every template of a successful closure is reachable from the requested one; a failure is an `IdNotFoundError` naming a reachable, unregistered template |
| AstTraverse.ClosureOfReachable | src/templater/ast_traverse.rs:190-199 | the same for an id list |
| AstTraverse.PathListed | src/templater/ast_traverse.rs:190-200 | along a chain of references from a listed template, every template is listed |
| AstTraverse.ClosureOkIff | src/templater/ast_traverse.rs:173-203 | the closure succeeds iff every template reachable from the requested one is registered, and then it lists exactly the reachable templates |
| AstTraverse.PathRanked | src/templater/ast_traverse.rs:173-203 | along a reference chain from a ranked template, every registered template is ranked, and ranked lower than the start |
| AstTraverse.NoRankedCycle | src/templater/ast_traverse.rs:173-203 | the rank excludes only the include cycles that a ranked template reaches |
| AstTraverse.UnrelatedCycleIgnored | src/templater/ast_traverse.rs:173-203 | with an `a`/`b` include cycle in the registry, an unrelated `c` is still analysed, and its closure is `c` alone |
| AstTraverse.RefsOfInclude | src/templater/ast_traverse.rs:184-195 | a template that is a single `include` refers to exactly the names it lists |
| AstTraverse.GetMissingTemplateVars | src/templater/ast_traverse.rs:19-99 | `get_missing_template_vars`, with its loops, returns the functional definition's result |
| AstTraverse.BlockVariables | src/templater/ast_traverse.rs:36-54 | the `{{ }}` loop collects the functional definition's variables |
| AstTraverse.SetVariables | src/templater/ast_traverse.rs:58-77 | the `set` loop collects the functional definition's variables and keys |
| AstTraverse.TemplateVariables | src/templater/ast_traverse.rs:30-77 | one template contributes the variables its `{{ }}` blocks read, then those its `set` values read, and the keys of its `set`s |
| AstTraverse.TreeVarsIff | src/templater/ast_traverse.rs:26-78 | reading or setting in a list that holds exactly the reachable templates is reading or setting somewhere in the include tree |
| AstTraverse.MissingTemplateVarsSpec | src/templater/ast_traverse.rs:19-99 | the analysis fails iff the include tree reaches an unregistered name, and then reports that name; otherwise it returns, strictly ascending, exactly the variables some template of the tree reads and none sets |
| Wrappers.MapAll | src/templater/parser.rs:67-69 | a `?` loop over a list succeeds iff every element does, and then yields each element's result in order |
| Wrappers.MapAllFirstError | src/templating_engine/parser.rs:45-47 | a failing `?` loop fails with the error of its first failing element |
| Text.Words | src/templater/parser.rs:78-81 | `split_whitespace` yields non-empty words free of whitespace |
| Text.Lines | src/templater/parser.rs:39 | `lines()` yields lines free of '\n' |
| Text.RemoveQuotes | src/templater/parser.rs:91 | removing the quotation marks leaves a word without any, no longer, and still free of whitespace |
| Text.NatToString | src/templater/parser.rs:94-97 | a line number renders as a non-empty string of decimal digits |
| Text.ParseNatToString | src/templater/parser.rs:94-97 | the rendered line number reads back as the number |
| Text.CompareStringsOrder | src/templater/tpl_objects/file_tpl.rs:29-44 | the string order used by the name-based `Ord` is total: equal only on equal strings, and antisymmetric |
| Text.LessTransitive | src/templater/ast_traverse.rs:82 | the order `sort` uses is transitive |
| Text.LessTotal | src/templater/ast_traverse.rs:82 | two different strings are ordered one way or the other |
| Patterns.LineEnd | src/templater/parser.rs:19 | `.*` can reach exactly to the next '\n' |
| Patterns.LastIn | src/templater/parser.rs:19 | the last occurrence of a string within a range, or none |
| Patterns.CommentAt | src/templater/parser.rs:19 | a comment match starts at `{#`, ends just after a `#}`, and does not cross a line |
| Patterns.LazyAt | src/templater/parser.rs:15-17 | after a directive or expression opener, the match ends just after a closer, and its captured group is trimmed and holds no '\n' |
| Patterns.MatchAt | src/templater/parser.rs:15-19 | a match of any of the three patterns starts where it is looked for, lies inside the text and spans at least four characters |
| Patterns.MatchAtShape | src/templater/parser.rs:15-19 | a match opens with its pattern's opener and closes with its closer; a comment match captures the whole match, a directive or expression match its trimmed group, and none crosses a line |
| Patterns.FindIter | src/templater/parser.rs:127-146 | every match `captures_iter` / `find_iter` reports lies within the text, after where the search starts (the same scan serves lines 41 and 51) |
| Patterns.Scan | src/templater/parser.rs:127-146 | the left-to-right search for matches, over any way of matching at an index: what it reports lies within the text, after where it starts |
| Patterns.ScanMatches | src/templater/parser.rs:127-146 | each reported match is the match found at its start |
| Patterns.ScanOrdered | src/templater/parser.rs:127-146 | each reported match ends before the next one starts |
| Patterns.ScanCovers | src/templater/parser.rs:127-146 | every index where a match is found starts or lies inside a reported match |
| Patterns.MatchesOf | src/templater/parser.rs:15-19 | a pattern's matches over a text start where they are looked for and lie inside the text |
| Patterns.FindIterIsScan | src/templater/parser.rs:127-146 | the regex iteration is the left-to-right search over the pattern's matches |
| Patterns.FindIterOrdered | src/templater/parser.rs:127-146 | reported matches come in order and do not overlap (the same scan serves lines 41 and 51) |
| Patterns.FindIterMatches | src/templater/parser.rs:127-146 | every reported match is the pattern's match at its start (the same scan serves lines 41 and 51) |
| Patterns.FindIterCovers | src/templater/parser.rs:127-146 | the scan misses nothing: every index where the pattern matches starts or lies inside a reported match (the same scan serves lines 41 and 51) |
| Patterns.FindIterEmptyIff | src/templater/parser.rs:127-146 | nothing is reported iff the pattern matches nowhere (the same scan serves lines 41 and 51) |
| Tokenizer.SplitStatementTokenStrs | src/templater/parser.rs:75-116 | `split_statement_token_strs`, with its loop, returns the functional definition's tokens of the statement's words |
| Tokenizer.RunEnd | src/templater/parser.rs:89-102 | a quoted run closes at the first word that ends with a quote |
| Tokenizer.Unquoted | src/templater/parser.rs:91 | every word of a run loses its quotation marks |
| Tokenizer.OpenRun | src/templater/parser.rs:86-110 | once a run is open, the loop yields the run up to its closing word as one token, then reads on afresh |
| Tokenizer.OpenRunTail | src/templater/parser.rs:100-108 | a run word that is neither bare quotes nor closing is added with a space and the run stays open |
| Tokenizer.TokeniseByRuns | src/templater/parser.rs:86-115 | the word-by-word loop yields exactly the run-by-run tokens: unquoted words verbatim, each quoted run as one token of its words without quotes joined by single spaces, an unclosed run dropped, a bare-quotes word opening or inside a run a `TemplateSyntaxError` naming the line |
| Tokenizer.RunTokensNonEmpty | src/templater/parser.rs:79-97 | every token of the run-by-run reading is non-empty |
| Tokenizer.TokensNonEmpty | src/templater/parser.rs:79-97 | every token a statement yields is non-empty |
| TemplaterParser.DirectiveStatements | src/templater/parser.rs:41-48 | one directive statement per `{: :}` capture, carrying the trimmed inner text and the line number |
| TemplaterParser.ExpressionStatements | src/templater/parser.rs:51-63 | one expression statement per `{{ }}` capture, carrying the expression and, as its literal, the whole matched text (`pre + expr + post`) |
| TemplaterParser.Scanned | src/templater/parser.rs:39-64 | every statement's line number is 1-based and within the text |
| TemplaterParser.ScannedInOrder | src/templater/parser.rs:39-64 | statements come line by line, and within a line every directive precedes every expression |
| TemplaterParser.ScannedFromItsLine | src/templater/parser.rs:39-64 | each statement is one of the statements of the line its number names |
| TemplaterParser.TokeniseStatement | src/templater/parser.rs:67-69 | tokenising a statement changes only its tokens |
| TemplaterParser.FindStatements | src/templater/parser.rs:36-72 | `find_statements` scans every line, then tokenises each statement; the first tokenizer error aborts |
| TemplaterParser.ScanLines | src/templater/parser.rs:39-64 | the scanning loop yields the functional definition's statements |
| TemplaterParser.LineDirectives | src/templater/parser.rs:41-48 | the directive loop of one line yields its directive statements |
| TemplaterParser.LineExpressions | src/templater/parser.rs:51-63 | the expression loop of one line yields its expression statements |
| TemplaterParser.TokeniseStatements | src/templater/parser.rs:67-69 | the rewriting loop tokenises every statement in place, the first error aborting |
| TemplaterParser.HasNewlineAtIndex | src/templater/parser.rs:151-188 | `has_newline_at_index` either panics on an out-of-range byte index or reports a line break that starts or ends at the removal point |
| TemplaterParser.HasNewlineCases | src/templater/parser.rs:156-181 | it panics exactly past the end, on an empty text or on a final '\r'; within the first two bytes it reports the LF or CRLF at the removal point; at the end it reports the LF before it; elsewhere it reports the first of two LF or two CRLF in a row around it |
| TemplaterParser.LineBreak | src/templater/parser.rs:164-177 | a break found at or just before the removal point is reported as lying around it |
| TemplaterParser.Cut | src/templater/parser.rs:135-140 | `replace_range(x..x+n, "")` removes exactly those characters |
| TemplaterParser.RemoveAllInclNewlines | src/templater/parser.rs:127-146 | `remove_all_incl_newlines`, with its loop and running offset, returns the functional definition's result |
| TemplaterParser.RemoveMatch | src/templater/parser.rs:132-142 | one pass of the loop cuts the match at its shifted position, then the break that cut left empty |
| TemplaterParser.DropNewline | src/templater/parser.rs:139-142 | the line break that a cut at index `s` leaves empty, as `has_newline_at_index` finds it, is removed and counted; its panic is the result |
| TemplaterParser.StripPreprocessorDirectives | src/templater/parser.rs:118-120 | the directive pattern's matches removed |
| TemplaterParser.StripComments | src/templater/parser.rs:122-124 | the comment pattern's matches removed |
| TemplaterParser.CutAligned | src/templater/parser.rs:132-136 | cutting a match, shifted by what was removed before it, removes exactly that match of the original text |
| TemplaterParser.BreakAligned | src/templater/parser.rs:139-142 | dropping a break keeps the text aligned with the original past that break |
| TemplaterParser.DropAligned | src/templater/parser.rs:139-142 | the dropped break is made of line-break characters of the original, and may only panic in `has_newline_at_index` |
| TemplaterParser.StepAligned | src/templater/parser.rs:131-143 | one pass never underflows the offset nor cuts out of range; its only failure is the panic of `has_newline_at_index` |
| TemplaterParser.RemoveFromAligned | src/templater/parser.rs:131-143 | the whole loop fails only with the panic of `has_newline_at_index` |
| TemplaterParser.FindIterPending | src/templater/parser.rs:131 | the matches are found in the original text, in order, without overlap |
| TemplaterParser.RemoveAllPanicsOnlyAtBreaks | src/templater/parser.rs:127-146 | stripping never underflows an offset nor cuts outside the text: any panic is in `has_newline_at_index` |
| TemplaterParser.NoMatchUnchanged | src/templater/parser.rs:127-146 | a text with no match comes back unchanged |
| TemplaterParser.LoneMatchPanics | src/templater/parser.rs:135-164 | a text that is exactly one match panics, since the cut empties it and the index check then reads before the start |
| TemplaterParser.LoneCommentPanics | src/templater/parser.rs:122-124 | so `strip_comments` of a template that is a single comment `{# note #}` panics |
| TemplaterParser.NoOpenerNoMatches | src/templater/parser.rs:15-19 | past the last '{' no pattern matches |
| TemplaterParser.JoinedMatches | src/templater/parser.rs:15 | in `{{:a:}:b:}` the one directive match is `{:a:}` at index 1 |
| TemplaterParser.JoinedMatchAt | src/templater/parser.rs:15 | the directive pattern matches at index 1 of `{{:a:}:b:}` |
| TemplaterParser.JoinedCut | src/templater/parser.rs:135 | cutting `{:a:}` out of `{{:a:}:b:}` leaves `{:b:}` |
| TemplaterParser.StripDirectivesJoins | src/templater/parser.rs:118-146 | stripping is not idempotent: `{{:a:}:b:}` strips to the new directive `{:b:}` |
| TemplaterParser.StripDirectivesAgain | src/templater/parser.rs:118-146 | which a second strip removes, line break and all |
| EngineParser.LineDirectives | src/templating_engine/parser.rs:35-41 | one statement per `{: :}` capture of a line, with the captured text and the line number |
| EngineParser.Scanned | src/templating_engine/parser.rs:33-42 | every line number is 1-based and within the text |
| EngineParser.ScannedInOrder | src/templating_engine/parser.rs:33-42 | statements come in line order |
| EngineParser.ScannedPrefix | src/templating_engine/parser.rs:33-42 | scanning more lines only adds statements at the end |
| EngineParser.ScannedLine | src/templating_engine/parser.rs:33-42 | the statements numbered `n` are exactly line `n`'s captures, left to right |
| EngineParser.TokeniseStatement | src/templating_engine/parser.rs:45-47 | tokenising changes only a statement's tokens |
| EngineParser.FindStatements | src/templating_engine/parser.rs:30-50 | `find_statements` scans each line for directives, then tokenises each; the first tokenizer error aborts |
| EngineParser.ScanLines | src/templating_engine/parser.rs:33-42 | the scanning loop yields the functional definition's statements |
| EngineParser.ScanLine | src/templating_engine/parser.rs:35-41 | the inner loop yields one line's directive statements |
| EngineParser.TokeniseStatements | src/templating_engine/parser.rs:45-47 | the rewriting loop tokenises every statement in place, the first error aborting |
| EngineParser.DirectivesOf | src/templating_engine/parser.rs:18-21 | only directive statements exist in this iteration |
| EngineParser.DirectivesOfConcat | src/templating_engine/parser.rs:18-21 | keeping the directives distributes over concatenation |
| EngineParser.DirectivesOfDirectives | src/templating_engine/parser.rs:35-41 | the templater's directive statements of a line are this iteration's |
| EngineParser.DirectivesOfExpressions | src/templating_engine/parser.rs:18-21 | the templater's expression statements have no counterpart here |
| EngineParser.ScannedAgrees | src/templating_engine/parser.rs:30-42 | before tokenising, this iteration finds exactly the directive statements of the templater's parser, with the same texts and lines |
| EnginePreprocessor.TokeniseDirective | src/templating_engine/preprocessor.rs:59-83 | a directive with no tokens panics at `token_strs[0]`; it becomes a command iff it is `SPECIFY` with exactly two operands; `SPECIFY` with another count is an incorrect-arguments error naming the line; any other opcode is an invalid-token error naming the opcode and line |
| EnginePreprocessor.TokeniseDirectives | src/templating_engine/preprocessor.rs:56-87 | `tokenise_directives`, with its loop, turns every directive into a command, the first failure aborting |
| EnginePreprocessor.EvaluateExpression | src/templating_engine/preprocessor.rs:89-99 | `SPECIFY NAME v` sets the id to `v`, any other key leaves it, and nothing else changes |
| EnginePreprocessor.EvaluateAllLastName | src/templating_engine/preprocessor.rs:49-51 | evaluating the commands in order sets the id to the value of the last `SPECIFY NAME` and touches nothing else |
| EnginePreprocessor.LastNameCons | src/templating_engine/preprocessor.rs:91-94 | the last name of a command list, read from its first command on (the id is read at lines 49-51) |
| EnginePreprocessor.LastNameIs | src/templating_engine/preprocessor.rs:91-94 | the id is the value of a `SPECIFY NAME` that no later command overrides (the id is read at lines 49-51) |
| EnginePreprocessor.LastNameNone | src/templating_engine/preprocessor.rs:44-51 | with no `SPECIFY NAME` the starting id, the empty string, stands |
| EnginePreprocessor.OtherKeyIgnored | src/templating_engine/preprocessor.rs:95 | `SPECIFY` with a key other than `NAME` changes nothing |
| EnginePreprocessor.RunPreprocessor | src/templating_engine/preprocessor.rs:29-54 | `Preprocessor::run`, with its loops, returns the functional definition's result |
| EnginePreprocessor.EvaluateDirectives | src/templating_engine/preprocessor.rs:49-51 | the evaluation loop applies every command in order |
| EnginePreprocessor.RunResult | src/templating_engine/preprocessor.rs:29-54 | a successful run holds the parsed statements, the text with directives and then comments stripped, and the last `SPECIFY NAME` value as id, or the empty string if there is none |
| EnginePreprocessor.RunFirstBadDirective | src/templating_engine/preprocessor.rs:32-38 | the first bad directive is the error of the whole run, with no partial result (the `?` at line 83) |
| EnginePreprocessor.EmptyDirectiveScanned | src/templating_engine/parser.rs:33-41 | `{: :}` is one line holding one directive with empty text |
| EnginePreprocessor.EmptyTextNoTokens | src/templating_engine/parser.rs:56-59 | an empty directive text has no tokens |
| EnginePreprocessor.EmptyDirectiveStatements | src/templating_engine/parser.rs:30-50 | so `{: :}` parses to one directive without tokens |
| EnginePreprocessor.EmptyDirectivePanics | src/templating_engine/preprocessor.rs:60 | and preprocessing `{: :}` panics at `token_strs[0]` |
| LegacyEvaluator.ExpressionsOf | src/templater/evaluator.rs:32-35 | the filter keeps only expression statements, drawn from the preprocessed statements |
| LegacyEvaluator.ToExpression | src/templater/evaluator.rs:36-39 | an expression statement becomes its text and tokens; one without text is the panic of unwrapping it |
| LegacyEvaluator.EvaluateExpression | src/templater/evaluator.rs:56-83 | only the first token counts: `$x` gives `state[x]`, or an unknown-variable error naming `x` and the template id; any other first token is an invalid-token error; no token at all is a malformed-expression error carrying the text; a value always comes from the state |
| LegacyEvaluator.LaterTokensIgnored | src/templater/evaluator.rs:61-78 | tokens after the first never change the result |
| LegacyEvaluator.SubstituteTwoPhase | src/templater/evaluator.rs:48-51 | substituting one expression at a time equals evaluating them all and then replacing, in statement order, the first occurrence of each text in the current text by its value |
| LegacyEvaluator.SubstituteFirstError | src/templater/evaluator.rs:48-51 | the first expression that does not evaluate is the error of the whole run |
| LegacyEvaluator.Run | src/templater/evaluator.rs:31-54 | a successful run hands back a copy of the variables, unchanged |
| LegacyEvaluator.NoExpressionsUnchanged | src/templater/evaluator.rs:31-54 | a template with no expression statements comes back as it is |
| LegacyEvaluator.RunEvaluator | src/templater/evaluator.rs:31-54 | `Evaluator::run`, with its loop, returns the functional definition's result |
| FileSystem.ReadTemplatesDir | src/templater/tpl_objects/tpl_set.rs:86-111 | `read_templates_dir`, with its loop and recursion, returns the functional definition's walk |
| FileSystem.EntriesPathsCons | src/templater/tpl_objects/tpl_set.rs:92-108 | one step of the loop: the first entry's paths, then the rest's, the first error aborting |
| FileSystem.ListingPathsComplete | src/templater/tpl_objects/tpl_set.rs:86-111 | an unreadable or missing root yields nothing; the walk fails with a read/write error exactly when some reachable entry or its metadata cannot be read, and otherwise yields exactly the reachable files the mode keeps (every file, or only `templaterc.yml` in project mode), subdirectories included |
| FileSystem.EntriesPathsComplete | src/templater/tpl_objects/tpl_set.rs:92-108 | the same for a directory's entries |
| FileSystem.EntryPathsComplete | src/templater/tpl_objects/tpl_set.rs:94-107 | the same for one entry: a directory is walked, a file is kept by the mode, anything else contributes nothing |
| FileSystem.ListingPathsBelow | src/templater/tpl_objects/tpl_set.rs:100-105 | every path found lies strictly below the directory walked |
| FileSystem.EntriesPathsBelow | src/templater/tpl_objects/tpl_set.rs:100-105 | the same for a directory's entries |
| FileSystem.Manifests | src/templater/tpl_objects/tpl_set.rs:104 | the project filter keeps exactly the paths named `templaterc.yml` |
| FileSystem.ManifestsConcat | src/templater/tpl_objects/tpl_set.rs:101-105 | the filter distributes over concatenation |
| FileSystem.ProjectWalkFilters | src/templater/tpl_objects/tpl_set.rs:99-107 | the project-mode walk is the file-mode walk with only the manifests kept, in the same order, and both fail alike |
| FileSystem.EntriesWalkFilters | src/templater/tpl_objects/tpl_set.rs:99-107 | the same for a directory's entries |
| ExecRegistry.ExecTemplatePaths | src/cfg/templates.rs:133-156 | the earlier registries' `read_templates_dir`, with its loop, is the walk that keeps every file |
| ExecRegistry.ExecFind | src/cfg/templates.rs:177-193 | lookup succeeds iff the id is in the set, giving its template; a miss is an id-not-found error `"id" (FILE)` or `"id" (PROJECT)` |
| ExecRegistry.UnreadableRootEmpty | src/cfg/templates.rs:135-137 | an unreadable or missing root yields an empty path list, not an error |
| ExecRegistry.ExecWalkComplete | src/cfg/template_set.rs:99-122 | the walk fails exactly when some reachable entry cannot be read, and otherwise finds exactly the reachable files, subdirectories included |
| FirstWins.InsertAllKeys | src/templater/tpl_objects/tpl_set.rs:124-133 | inserting keeps every name already present with its template, and adds exactly the names of the new templates |
| FirstWins.InsertAllFirstWins | src/templater/tpl_objects/tpl_set.rs:127-132 | the first template of each new name is the one kept for it; later same-name templates are skipped |
| FirstWins.LoadAllTwoPhase | src/templater/tpl_objects/tpl_set.rs:124-133 | loading fails iff some load fails, with the first such error; otherwise the set is every template inserted in path order |
| FirstWins.LoadAllFirstError | src/templater/tpl_objects/tpl_set.rs:125 | a failing load with every earlier load succeeding is the error of the whole load |
| FirstWins.EffectsStep | src/templater/tpl_objects/tpl_set.rs:124-125 | one step of the loop: the first path's change, then the rest |
| FirstWins.EffectsUpdates | src/templater/tpl_objects/project_tpl.rs:74-89 | when every load succeeds and each step sets one key, the keys being distinct, every key holds its value and every other key keeps its own |
| FirstWins.LoadAllEffects | src/templater/tpl_objects/tpl_set.rs:124-133 | a successful load's set is what the insertions leave, path by path |
| FirstWins.EffectsKeyed | src/templater/tpl_objects/tpl_set.rs:125-132 | however far the loop gets, every template is filed under its own name |
| FirstWins.LoadEach | src/templater/tpl_objects/tpl_set.rs:115-134 | the loop of `load_templates_from_path_list` succeeds iff the functional definition's load does, and leaves the set the functional definition's insertions leave, up to the first failure |
| CfgTemplates.Load | src/cfg/templates.rs:38-47 | loading succeeds iff the file reads and preprocesses; an unreadable file is a read/write error, a preprocessing error is passed on, and a loaded template has the preprocessor's id and its cleaned text |
| CfgTemplates.LoadTemplate | src/cfg/templates.rs:38-47 | the method returns the functional definition's result |
| CfgTemplates.NoNameDirectiveEmptyId | src/cfg/templates.rs:38-45 | a file none of whose directives has key `NAME` (none at all, or only other keys such as `SPECIFY AUTHOR x`) loads with the empty id |
| CfgTemplates.LoadProjectsPanics | src/cfg/templates.rs:123-130 | loading project templates panics on any directory holding a file, and otherwise adds nothing (the loader at lines 64-66 is `todo!()`) |
| CfgTemplates.SameIdSecondDropped | src/cfg/templates.rs:165-174 | of two files with the same new id the first is kept and the second dropped; so of the files without `SPECIFY NAME`, all with id `""`, only the first is kept |
| CfgTemplates.TemplateSet.LoadFileTemplates | src/cfg/templates.rs:114-121 | the walk, then the load loop: the result and the new file set are the functional definition's, the set stays keyed by id, the project set is unchanged |
| CfgTemplates.TemplateSet.LoadProjectTemplates | src/cfg/templates.rs:123-130 | the walk, then the panicking load loop: the result is the functional definition's and neither set changes |
| CfgTemplates.TemplateSet.GetFileTemplate | src/cfg/templates.rs:177-184 | lookup succeeds iff the id is in the file set, giving the template of that id; a miss is an id-not-found error `"id" (FILE)` |
| CfgTemplates.TemplateSet.GetProjectTemplate | src/cfg/templates.rs:186-193 | lookup succeeds iff the id is in the project set; a miss is an id-not-found error `"id" (PROJECT)` |
| CfgTemplates.TemplateSet.constructor | src/cfg/templates.rs:107-112 | a new registry has two empty sets |
| CfgTemplateSet.Load | src/cfg/template_set.rs:28-40 | loading succeeds iff the file reads and preprocesses; a loaded template has the preprocessor's id but the raw, unstripped text |
| CfgTemplateSet.LoadTemplate | src/cfg/template_set.rs:28-36 | the method returns the functional definition's result |
| CfgTemplateSet.LoadAgreesWithCfgTemplates | src/cfg/template_set.rs:28-36 | this loader and the preprocessed one of `src/cfg/templates.rs` accept the same files with the same ids and errors; only the stored text differs, raw here and cleaned there |
| CfgTemplateSet.LoadDirFirstWins | src/cfg/template_set.rs:128-137 | the first file of each new id is the one kept, with its text as read |
| CfgTemplateSet.TemplateSet.constructor | src/cfg/template_set.rs:78-83 | a new registry has two empty sets |
| CfgTemplateSet.TemplateSet.LoadFileTemplates | src/cfg/template_set.rs:85-90 | the walk, then the load loop: the result and the new file set are the functional definition's, keyed by id; the project set is unchanged |
| CfgTemplateSet.TemplateSet.LoadProjectTemplates | src/cfg/template_set.rs:92-97 | the same loader into the project set; the file set is unchanged |
| LegacyTemplates.Load | src/templater/templates.rs:46-72 | loading succeeds iff the path has a file name, the file reads and the engine parses it; the name is the last path component and the literal the raw text; no file name or an unreadable file is a read/write error, a parse failure a parse error |
| LegacyTemplates.LoadInto | src/templater/templates.rs:46-72 | the loader returns the functional definition's result and registers the raw body in the shared context under the name, before the registry's duplicate check |
| LegacyTemplates.LoadAgreesWithConverged | src/templater/templates.rs:46-72 | this loader and the converged one accept the same paths and give the same names |
| LegacyTemplates.LoadProjectsPanics | src/templater/templates.rs:172-180 | loading project templates panics on any directory holding a file, and otherwise adds nothing (the loader at lines 101-103 is `todo!()`) |
| LegacyTemplates.LoadFilesFirstWins | src/templater/templates.rs:219-228 | the first file of each new name is the one kept, with its own text; later duplicates are skipped |
| LegacyTemplates.TemplateSet.constructor | src/templater/templates.rs:154-160 | a new registry has a fresh engine with no templates and two empty sets |
| LegacyTemplates.TemplateSet.LoadFileTemplates | src/templater/templates.rs:162-170 | the walk, then the loop: the result, the new file set and the engine's new templates are the functional definition's; the set stays keyed by name; the project set is unchanged (the loop is at lines 210-229) |
| LegacyTemplates.TemplateSet.LoadProjectTemplates | src/templater/templates.rs:172-180 | the walk, then the panicking loop: the result is the functional definition's and no set changes |
| LegacyTemplates.TemplateSet.GetFileTemplate | src/templater/templates.rs:231-238 | lookup succeeds iff the name is in the file set, giving the template of that name; a miss is an id-not-found error `"id" (FILE)` |
| LegacyTemplates.TemplateSet.GetProjectTemplate | src/templater/templates.rs:240-247 | lookup succeeds iff the name is in the project set; a miss is an id-not-found error `"id" (PROJECT)` |
| FileTemplates.Load | src/templater/tpl_objects/file_tpl.rs:50-72 | loading succeeds iff the path has a file name, the file reads and its body parses; the name is the last path component and the source the path's display string; no file name is a read/write error naming the path in quotes, a read failure a read/write error carrying the OS message, an engine rejection a parse error |
| FileTemplates.Registered | src/templater/tpl_objects/file_tpl.rs:60-65 | on a successful load the engine gains the parsed body under the file name, replacing any template of that name; on any failure the engine is unchanged |
| FileTemplates.LoadInto | src/templater/tpl_objects/file_tpl.rs:50-72 | the step-by-step load returns exactly `Load`'s result and leaves the shared engine exactly as `Registered` describes |
| FileTemplates.CompareByName | src/templater/tpl_objects/file_tpl.rs:28-44 | two file templates compare Equal iff their names are equal; comparison is antisymmetric; the source never affects it |
| ProjectTemplates.MemberIdInjective | src/templater/tpl_objects/project_tpl.rs:80 | within one project, the id `name/outpath` determines the output path |
| ProjectTemplates.Member | src/templater/tpl_objects/project_tpl.rs:76-87 | a member loads iff its file (relative to the project directory) reads and parses, giving the text as read; a read failure is a read/write error, a rejected body a parse error |
| ProjectTemplates.IdsOf | src/templater/tpl_objects/project_tpl.rs:80-89 | the id list has one id per manifest entry, in entry order, each `name/outpath` |
| ProjectTemplates.LoadInto | src/templater/tpl_objects/project_tpl.rs:58-99 | the step-by-step load returns exactly `Load`'s result and leaves the engine exactly as `Registered` describes, including the members registered before a failing one |
| ProjectTemplates.LoadMembers | src/templater/tpl_objects/project_tpl.rs:72-90 | the loop over the manifest's files returns the literals and ids `Members` specifies, or the first member's error, and its engine changes are those of the members processed |
| ProjectTemplates.MembersGrow | src/templater/tpl_objects/project_tpl.rs:78-89 | one more entry adds its literal under its output path and appends its id |
| ProjectTemplates.LoadMember | src/templater/tpl_objects/project_tpl.rs:76-87 | one iteration gives `Member`'s result and registers the body under its id only when it reads and parses |
| ProjectTemplates.LiteralsOfEntries | src/templater/tpl_objects/project_tpl.rs:73-78 | with distinct output paths, the literals map has exactly the entries' output paths as keys, each holding that entry's literal |
| ProjectTemplates.IdsDistinct | src/templater/tpl_objects/project_tpl.rs:80-89 | entries with distinct output paths get distinct ids |
| ProjectTemplates.IdsCoverLiterals | src/templater/tpl_objects/project_tpl.rs:78-89 | the ids are exactly the ids of the literals' output paths, in both directions |
| ProjectTemplates.MembersRead | src/templater/tpl_objects/project_tpl.rs:76-77 | each loaded literal is the contents of the member file as read from the project directory |
| ProjectTemplates.MembersConsistent | src/templater/tpl_objects/project_tpl.rs:72-90 | the loop's result is consistent (distinct ids, one per output path and back), holds each entry's file contents under its output path and has no other keys |
| ProjectTemplates.LoadConsistent | src/templater/tpl_objects/project_tpl.rs:58-99 | a loaded project template is consistent, its literals are exactly the manifest's members as read from the project directory, its name the manifest's name and its source the configuration path's display string |
| ProjectTemplates.LoadFirstBadMember | src/templater/tpl_objects/project_tpl.rs:74-90 | when every earlier member loads, the first member that fails gives the error of the whole load |
| ProjectTemplates.EffectsRegisterAll | src/templater/tpl_objects/project_tpl.rs:82-87 | after a successful loop every member's parsed body is in the engine under its id, and every other template is untouched |
| ProjectTemplates.LoadRegistersMembers | src/templater/tpl_objects/project_tpl.rs:58-99 | after a successful load every literal parses and sits in the engine under `name/outpath`; templates with other ids are untouched |
| ProjectTemplates.CompareByName | src/templater/tpl_objects/project_tpl.rs:36-52 | two project templates compare Equal iff their names are equal; comparison is antisymmetric; literals, source and member ids never affect it |
| TemplateSets.TemplatePaths | src/templater/tpl_objects/tpl_set.rs:86-111 | the recursive walk returns the paths `Walk` specifies, a listing or metadata failure becoming a read/write error |
| TemplateSets.Find | src/templater/tpl_objects/tpl_set.rs:137-155 | lookup succeeds iff the id is in the set, giving the template filed under it; a miss is an id-not-found error `"id" (KIND)` |
| TemplateSets.Entries | src/templater/tpl_objects/tpl_set.rs:158-165 | collecting a set yields every template exactly once, one per name |
| TemplateSets.TemplateSet.constructor | src/templater/tpl_objects/tpl_set.rs:57-63 | a new registry has a fresh engine with no templates and two empty sets |
| TemplateSets.TemplateSet.LoadFileTemplates | src/templater/tpl_objects/tpl_set.rs:65-73 | the walk, then the loop: the result, the new file set and the engine's templates are those `LoadFiles`, `FilesKept` and `FilesRegistered` specify; the set stays filed by name; the project set is unchanged (the loop is at lines 115-134) |
| TemplateSets.TemplateSet.LoadProjectTemplates | src/templater/tpl_objects/tpl_set.rs:75-83 | the manifest-only walk, then the same loop with the project loader: result, project set and engine as `LoadProjects`, `ProjectsKept` and `ProjectsRegistered` specify; the file set is unchanged (the loop is at lines 115-134) |
| TemplateSets.TemplateSet.GetFileTemplate | src/templater/tpl_objects/tpl_set.rs:137-143 | succeeds iff a file template of that name is loaded, and then returns the one with that name; a miss is an id-not-found error `"id" (FILE)` |
| TemplateSets.TemplateSet.GetProjectTemplate | src/templater/tpl_objects/tpl_set.rs:146-155 | succeeds iff a project template of that name is loaded, and then returns the one with that name; a miss is an id-not-found error `"id" (PROJECT)` |
| TemplateSets.TemplateSet.GetFileTemplatesAll | src/templater/tpl_objects/tpl_set.rs:158-160 | every loaded file template appears, nothing else does, and no name appears twice |
| TemplateSets.TemplateSet.GetProjectTemplatesAll | src/templater/tpl_objects/tpl_set.rs:163-165 | every loaded project template appears, nothing else does, and no name appears twice |
| TemplateSets.LoadFilesKeys | src/templater/tpl_objects/tpl_set.rs:124-133 | a file set loads iff the walk succeeds and every file found loads; earlier entries are kept unchanged, and the names afterwards are exactly the earlier ones plus the file names found (called from lines 65-73) |
| TemplateSets.LoadFilesFirstWins | src/templater/tpl_objects/tpl_set.rs:124-133 | of several files with one name, the set keeps the first the walk finds: its source is that file's path |
| TemplateSets.DuplicateFileShadowed | src/templater/tpl_objects/tpl_set.rs:124-133 | of two loadable files with one name the set keeps the first, yet the engine holds the second's body under that name, since each load registers its body before the duplicate check |
| TemplateSets.LoadProjectsAllOrNothing | src/templater/tpl_objects/tpl_set.rs:124-133 | a project set loads iff the walk succeeds and every manifest found loads; the names loaded before are kept (called from lines 75-83) |
| TemplateSets.ProjectsFromManifests | src/templater/tpl_objects/tpl_set.rs:99-106 | the project walk succeeds iff the plain walk does, and finds only files named `templaterc.yml`, each of which the plain walk also finds |
| Renderers.WithVariable | src/templater/renderer.rs:61-63 | after adding a variable, its key holds the value as text and every other key is bound exactly as before (the project renderer repeats it at lines 106-108) |
| Renderers.WithBuiltins | src/templater/renderer.rs:110-113 | after setting the built-ins, `BUILTIN` holds them and every other key is bound exactly as before (the file renderer inserts without removing, lines 65-67, to the same effect) |
| Renderers.AsRenderError | src/templater/renderer.rs:76-77 | an engine render succeeds iff the engine's does, with the same text; an engine error becomes a render error carrying its message (the project renderer repeats it at lines 130-131) |
| Renderers.BuiltinsShadowVariable | src/templater/renderer.rs:61-67 | a user variable named `BUILTIN` is overwritten once the built-ins are set |
| Renderers.VariablesCommute | src/templater/renderer.rs:61-63 | variables with different names may be added in either order |
| Renderers.FileRenderer.constructor | src/templater/renderer.rs:53-59 | a new file renderer holds its template and the shared engine and no variables |
| Renderers.FileRenderer.AddVariable | src/templater/renderer.rs:61-63 | the renderer's variables become `WithVariable` of the old ones |
| Renderers.FileRenderer.SetBuiltinVariables | src/templater/renderer.rs:65-67 | the renderer's variables become `WithBuiltins` of the old ones |
| Renderers.FileRenderer.Render | src/templater/renderer.rs:70-78 | rendering succeeds iff the engine renders the template registered under the file template's name with the renderer's variables, giving that text; otherwise a render error |
| Renderers.ProjectRenderer.constructor | src/templater/renderer.rs:98-104 | a new project renderer holds its template and the shared engine and no variables |
| Renderers.ProjectRenderer.AddVariable | src/templater/renderer.rs:106-108 | the renderer's variables become `WithVariable` of the old ones |
| Renderers.ProjectRenderer.SetBuiltinVariables | src/templater/renderer.rs:110-113 | removing then re-inserting `BUILTIN` leaves the variables as `WithBuiltins` of the old ones |
| Renderers.ProjectRenderer.Render | src/templater/renderer.rs:115-135 | rendering succeeds iff every output path's member `name/outpath` renders; the result has exactly the template's output paths, each mapped to its member's rendering; a failure is the render error of some member |
| LanguageSpecifics.FileName | src/templater/functions/language_specifics.rs:91 | a path's file name, when it has one, is a non-empty last component other than `.` and `..` with no `/` in it |
| LanguageSpecifics.LastDot | src/templater/functions/language_specifics.rs:91 | the index found holds a `.` with no `.` after it; no index means no `.` at all |
| LanguageSpecifics.NameExtension | src/templater/functions/language_specifics.rs:91 | a file name has no extension iff it is `..` or has no `.` after its first character; otherwise the extension has no `.`, follows a `.` and ends the name |
| LanguageSpecifics.DottedExtension | src/templater/functions/language_specifics.rs:91 | `stem.ext`, with a stem other than `` and `.` and an extension without `.`, has extension `ext` |
| LanguageSpecifics.PlainNameNoExtension | src/templater/functions/language_specifics.rs:91 | a name with neither `/` nor `.` has no extension |
| LanguageSpecifics.LowerIdempotent | src/templater/functions/language_specifics.rs:102 | lower-casing twice is lower-casing once |
| LanguageSpecifics.FromExt | src/templater/functions/language_specifics.rs:101-104 | no language iff no entry has the lower-cased extension; otherwise the language of the first entry that has it |
| LanguageSpecifics.NonAsciiUnrecognised | src/templater/functions/language_specifics.rs:101-104 | an extension with a non-ASCII character other than the Kelvin sign names no language, because every key is ASCII |
| LanguageSpecifics.KelvinSignKotlin | src/templater/functions/language_specifics.rs:101-104 | `to_lowercase` turns the Kelvin sign into `k`, so `<stem>.\u{212A}t` is a Kotlin file |
| LanguageSpecifics.KtIsKotlin | src/templater/functions/language_specifics.rs:54 | the first `kt` entry is Kotlin's |
| LanguageSpecifics.FromStandardFilename | src/templater/functions/language_specifics.rs:107-112 | no language iff no entry has exactly this name (case-sensitive); otherwise the language of an entry with this name |
| LanguageSpecifics.LangIdOfDottedName | src/templater/functions/language_specifics.rs:89-98 | a name with an extension is looked up by that extension alone, and the extension's case does not matter |
| LanguageSpecifics.LangIdOfPlainName | src/templater/functions/language_specifics.rs:89-98 | a name without `.` is looked up, exactly as written, in the standard name table |
| LanguageSpecifics.JsxRepeated | src/templater/functions/language_specifics.rs:48-49 | the extension table lists `jsx` twice in a row |
| LanguageSpecifics.FindSkipsRepeat | src/templater/functions/language_specifics.rs:103 | dropping an entry that repeats the one before it changes no first-match lookup |
| LanguageSpecifics.JsxRepeatHarmless | src/templater/functions/language_specifics.rs:101-104 | the extension lookup is the same without the repeated `jsx` entry (the repeated entries are lines 48-49) |
| LanguageSpecifics.BinarySearch | src/templater/functions/language_specifics.rs:175-180 | on strictly ascending keys, a found index lies in the range and holds the key, and nothing is found iff no entry in the range has the key |
| LanguageSpecifics.BinarySearchIsFind | src/templater/functions/language_specifics.rs:175-180 | on strictly ascending keys, binary search and first-match search give the same entry |
| LanguageSpecifics.CommentTableAscending | src/templater/functions/language_specifics.rs:128-172 | the comment table's ids are strictly ascending, which binary search needs |
| LanguageSpecifics.CommentStyleFromLang | src/templater/functions/language_specifics.rs:175-180 | no style iff no entry has the id; otherwise the style of the entry with that id |
| LanguageSpecifics.CommentStyleIsFirstMatch | src/templater/functions/language_specifics.rs:128-180 | the binary search finds exactly what a linear first-match search of the table would |
| LanguageSpecifics.NoTxtEntry | src/templater/functions/language_specifics.rs:13-82 | no extension entry is `txt` |
| LanguageSpecifics.CMakeListsUnrecognised | src/templater/functions/language_specifics.rs:86-98 | `CMakeLists.txt` is in the standard name table, yet looking it up gives no language, since its extension `txt` is used instead |
| LanguageSpecifics.IntendedRecognisesStandardNames | src/templater/functions/language_specifics.rs:85-98 | with the standard name table consulted first, every standard name gets the language of its entry |
| LanguageSpecifics.IntendedAgreesElsewhere | src/templater/functions/language_specifics.rs:89-98 | on every name outside the standard table, the corrected lookup agrees with the original |
| LanguageSpecifics.IntendedCMakeLists | src/templater/functions/language_specifics.rs:86 | with the correction, `CMakeLists.txt` is a CMake file |
| VscodeRunner.SetVar | integration/vscode-ext/src/runner.ts:152-156 | setting a variable never shortens the map or reorders its keys |
| VscodeRunner.SetVarDistinct | integration/vscode-ext/src/runner.ts:152-156 | setting a variable keeps the keys distinct |
| VscodeRunner.DistinctFind | integration/vscode-ext/src/runner.ts:152 | in a map with distinct keys, looking up an entry's key gives that entry's value |
| VscodeRunner.SetVarGet | integration/vscode-ext/src/runner.ts:152-156 | after setting, the key holds the new value and every other key its old one; a new key is appended last |
| VscodeRunner.SetVarOverwrites | integration/vscode-ext/src/runner.ts:152-156 | setting a key twice is setting it once, to the later value |
| VscodeRunner.Defines | integration/vscode-ext/src/runner.ts:90-92 | one `-D"key"="value"` per variable, in map order |
| VscodeRunner.CountOutputFlagsAppend | integration/vscode-ext/src/runner.ts:78-88 | output options in a concatenation add up |
| VscodeRunner.NotOutputFlag | integration/vscode-ext/src/runner.ts:68-94 | any argument that does not start with `--d`, `--l` or `--p` is not an output option |
| VscodeRunner.NoOutputFlags | integration/vscode-ext/src/runner.ts:78-88 | arguments none of which is an output option count none |
| VscodeRunner.ArgsConfigFirst | integration/vscode-ext/src/runner.ts:68-70 | `--config="…"` leads the arguments iff a configuration file is set, and then names it |
| VscodeRunner.ArgsOfList | integration/vscode-ext/src/runner.ts:72-76 | listing templates passes only the configuration file and `list` |
| VscodeRunner.ArgsOfRender | integration/vscode-ext/src/runner.ts:72-94 | any other subcommand is followed by the output option, then the variables in map order, then the quoted template name, `""` when unset |
| VscodeRunner.ArgsOutputFlags | integration/vscode-ext/src/runner.ts:74-88 | exactly one output option is passed for `file` and `project`, none for `list` |
| VscodeRunner.CommandSplits | integration/vscode-ext/src/runner.ts:41 | when neither the executable path nor any argument has a space, splitting the command at spaces gives back the quoted executable and the arguments |
| VscodeRunner.ArgsNonEmpty | integration/vscode-ext/src/runner.ts:72 | the subcommand is always among the arguments |
| VscodeRunner.PushDefines | integration/vscode-ext/src/runner.ts:90-92 | the loop appends exactly the variables' definitions, in map order |
| VscodeRunner.Runner.constructor | integration/vscode-ext/src/runner.ts:102-162 | a new runner has an empty executable path, the `file` subcommand, output to a path and nothing else set |
| VscodeRunner.Runner.SetExecPath | integration/vscode-ext/src/runner.ts:102-106 | sets the executable path, changes no other option and returns the same runner |
| VscodeRunner.Runner.SetConfigPath | integration/vscode-ext/src/runner.ts:111-115 | sets the configuration path, changes no other option and returns the same runner |
| VscodeRunner.Runner.SetSubcommand | integration/vscode-ext/src/runner.ts:121-125 | sets the subcommand, changes no other option and returns the same runner |
| VscodeRunner.Runner.SetOutputType | integration/vscode-ext/src/runner.ts:131-135 | sets the output type, changes no other option and returns the same runner |
| VscodeRunner.Runner.SetOutputPath | integration/vscode-ext/src/runner.ts:142-146 | sets the output path, changes no other option and returns the same runner |
| VscodeRunner.Runner.SetVariable | integration/vscode-ext/src/runner.ts:152-156 | the variables become `SetVar` of the old ones, their keys stay distinct, nothing else changes and the same runner is returned |
| VscodeRunner.Runner.SetTemplateName | integration/vscode-ext/src/runner.ts:162-166 | sets the template name, changes no other option and returns the same runner |
| VscodeRunner.Runner.BuildArgs | integration/vscode-ext/src/runner.ts:65-97 | the arguments pushed step by step are exactly `Args` of the runner's options |
| VscodeRunner.Runner.Run | integration/vscode-ext/src/runner.ts:37-59 | the command returned is the quoted executable path, a space and the arguments joined by single spaces |
| VscodeRunner.DefaultArgs | integration/vscode-ext/src/runner.ts:65-97 | a fresh runner's arguments are `file`, `--path=""` and `""` (with the initial field values at lines 102-166) |
| Text.ReplaceFirst | src/templater/evaluator.rs:50 | `replacen(pat, v, 1)`: without an occurrence the text is unchanged; otherwise the first occurrence, and only it, is replaced by `v` |
| Text.Split | src/templater/functions/language_specifics.rs:91 | splitting at a character yields at least one piece, none containing that character |
| Text.JoinSplit | src/templater/functions/language_specifics.rs:91 | joining the pieces with the separator gives back the text |
| Text.SplitJoin | integration/vscode-ext/src/runner.ts:41 | pieces free of the separator, joined with it and split again, come back unchanged |
| Text.FindIndex | src/templater/functions/language_specifics.rs:103 | the index found is the first entry with the key; none iff no entry has it |
| Text.Find | src/templater/functions/language_specifics.rs:103-111 | `iter().find(…).map(…)`: the value of the first entry with the key; none iff no entry has it |
| Text.Utf8Width | src/templater/parser.rs:139-151 | a character takes one to four UTF-8 bytes, one exactly when it is ASCII |

## Left out

- The Tera engine itself is not modelled. Parsing template text into a syntax tree and rendering are functions fixed for each context. Registering functions into the engine (src/templater/context.rs, src/templater/functions/mod.rs) is foreign-crate wiring.
- `TemplateContext.Context.AddRawTemplate` assumes the engine replaces a template of the same name and leaves itself unchanged on a parse failure. The engine's real behaviour on a repeated name is outside the model.
- The project manifest is given as a function from the manifest path to a name and an ordered list of entries. The YAML builder (src/files/templaterc.rs) and configuration discovery are file-format and I/O code. The member folder is the configuration file's directory.
- OS error messages (`e.to_string()`) and engine diagnostics are opaque strings supplied by the reader, the parser and the renderer.
- The `{:?}` form of a path is modelled as its display string in double quotes, and the escaping of special characters in it is left out. The `to_str` step after `file_name` fails only on non-UTF-8 names, which `seq<char>` paths cannot express.
- Unix paths only: a path is a sequence of components. `Path::file_name`, `parent` and `extension` are modelled as Unix `Path::components` gives them. Windows prefixes are left out. So is the absolute root: `ProjectTemplates.Member` reads a member at the folder's components followed by the entry's, whereas `cfg_builder.folder().join(&v)` in src/templater/tpl_objects/project_tpl.rs discards the folder when a manifest entry's path is absolute.
- LanguageSpecifics.FromExt: `to_lowercase` is modelled one character at a time. `LowerChar` maps ASCII letters and U+212A KELVIN SIGN, the one non-ASCII character whose lower case is ASCII (`k`). It keeps every other character. Rust lower-cases those other non-ASCII characters to non-ASCII text, which can equal no key, since every key is ASCII. So the lookup result is the same either way (`NonAsciiUnrecognised`, `KelvinSignKotlin`). What the model does not reproduce is the lower-cased text itself, for example the final-sigma rule or multi-character expansions such as U+0130.
- HashMap and HashSet iteration order is unspecified. Tera's macro and function-call arguments are searched as a sequence, and the project renderer visits output paths in an arbitrary order. `TemplateSets.Entries` and the `get_*_all` methods promise membership and uniqueness, not order.
- When a registry load fails, the source drops the registry (`load_*` consumes `self`). The model still states the partial set and engine state this leaves, but nothing reads them afterwards.
- `CfgTemplates.ProjectKey` is a placeholder. The source's `ProjectTemplate` there is `todo!()`, so no project template is ever built and its id is never read.
- `Arc<Mutex<…>>` locking, `lock().unwrap()` and the `context()`/`template()` accessors are left out: there is no concurrency, and the context is passed explicitly. The `RendererVariant` wrapper and `make_renderer` only box the two renderers.
- Logging (`error!` on a duplicate template id, and the logging in `handle`) and the process exit are recorded as the report text and the exit code only.
- `LanguageSpecifics.BinarySearch` models the result of `binary_search_by_key` (found iff present, with the matching entry), not the exact probe sequence of Rust's implementation.
- `child_process.exec` in `Runner.run` and the callbacks it invokes are left out: the model returns the command string that would be run.
- `AstTraverse.GetTemplatesRecursive`, `AstTraverse.GetMissingTemplateVars` and the other closure members require that no include cycle is reachable from the analysed template. This is expressed by `Ranked` plus `HasRank` on that template. On such a cycle the source recurses without end, which a terminating model cannot reproduce. Cycles among templates the analysed one never reaches are allowed, because they need no rank (`UnrelatedCycleIgnored`). The model does not prove that every acyclic reachable part has a rank; callers supply one.
- The claim that every language id the extension and file-name tables produce has a comment style is not stated. Checking it means one search of the 43-entry comment table for each of the 70 entries, which would cost far more verification than the other table properties combined.

## Findings

| source | as written | input that shows it | evidently intended | confidence | as-written member | corrected member |
|---|---|---|---|---|---|---|
| src/templater/functions/language_specifics.rs:86-97 | the standard file-name table is consulted only for names without an extension, so its `CMakeLists.txt` entry can never match | `lang_id_from_filename("CMakeLists.txt")` gives no language, since `txt` is in no extension entry | `CMakeLists.txt` is recognised as `cmake`: a standard name is looked up before its extension | high; not executed | LanguageSpecifics.CMakeListsUnrecognised | LanguageSpecifics.IntendedRecognisesStandardNames |

`LanguageSpecifics.LangIdFromFilenameIntended` is the corrected lookup. It
tries the standard file-name table first and falls back to the original
lookup. `LanguageSpecifics.IntendedAgreesElsewhere` shows it agrees with the
original on every other name. `LanguageSpecifics.IntendedCMakeLists` proves
that it maps `CMakeLists.txt` to `cmake`.
