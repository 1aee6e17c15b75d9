/**
 * Walking a template's syntax tree: collecting the nodes a predicate selects,
 * following `include`/`extends` references through the registry, and the
 * resulting list of variables a template reads but never sets.
 */
module AstTraverse {
  import opened Wrappers
  import opened Text
  import opened Errors
  import opened TeraAst
  import opened BuiltIns
  import opened TemplateContext

  /* ---------- node search ---------- */

  /** The node kinds whose bodies the search descends into. */
  predicate IsContainer(n: Node) {
    n.MacroDefinition? || n.FilterSection? || n.Block? || n.Forloop? || n.If?
  }

  /** What `find_all_matches_node` returns for `n`, in walk order. */
  function NodeMatches(n: Node, pred: Node -> bool): seq<Node> {
    match n
    case MacroDefinition(body) => SeqMatches(body, pred)
    case FilterSection(body) => SeqMatches(body, pred)
    case Block(body) => SeqMatches(body, pred)
    case Forloop(body, empty) => SeqMatches(body, pred) + OptMatches(empty, pred)
    case If(conds, otherwise) => BranchMatches(conds, pred) + OptMatches(otherwise, pred)
    case _ => if pred(n) then [n] else []
  }

  function OptMatches(o: OptionalBody, pred: Node -> bool): seq<Node> {
    if o.Present? then SeqMatches(o.nodes, pred) else []
  }

  /** The matches of a node list: each node's matches, in order. */
  function SeqMatches(ns: seq<Node>, pred: Node -> bool): seq<Node> {
    if ns == [] then [] else SeqMatches(ns[..|ns| - 1], pred) + NodeMatches(ns[|ns| - 1], pred)
  }

  function BranchMatches(cs: seq<Branch>, pred: Node -> bool): seq<Node> {
    if cs == [] then [] else BranchMatches(cs[..|cs| - 1], pred) + SeqMatches(cs[|cs| - 1].body, pred)
  }

  /** `x` is a non-container node found in `n` through container bodies. */
  ghost predicate InNode(n: Node, x: Node) {
    match n
    case MacroDefinition(body) => InSeq(body, x)
    case FilterSection(body) => InSeq(body, x)
    case Block(body) => InSeq(body, x)
    case Forloop(body, empty) => InSeq(body, x) || InOpt(empty, x)
    case If(conds, otherwise) => (exists k :: 0 <= k < |conds| && InSeq(conds[k].body, x)) || InOpt(otherwise, x)
    case _ => x == n
  }

  ghost predicate InOpt(o: OptionalBody, x: Node) {
    o.Present? && InSeq(o.nodes, x)
  }

  ghost predicate InSeq(ns: seq<Node>, x: Node) {
    exists k :: 0 <= k < |ns| && InNode(ns[k], x)
  }

  lemma InSeqSplit(ns: seq<Node>, x: Node)
    requires ns != []
    ensures InSeq(ns, x) <==> InSeq(ns[..|ns| - 1], x) || InNode(ns[|ns| - 1], x)
  {
    if InSeq(ns, x) {
      var k :| 0 <= k < |ns| && InNode(ns[k], x);
      if k < |ns| - 1 {
        assert ns[..|ns| - 1][k] == ns[k];
      }
    }
    if InSeq(ns[..|ns| - 1], x) {
      var k :| 0 <= k < |ns| - 1 && InNode(ns[..|ns| - 1][k], x);
      assert ns[k] == ns[..|ns| - 1][k];
    }
  }

  lemma {:induction false} NodeMatchesIff(n: Node, pred: Node -> bool, x: Node)
    ensures x in NodeMatches(n, pred) <==> InNode(n, x) && pred(x)
    decreases n, 2
  {
    match n
    case MacroDefinition(body) => SeqMatchesIff(body, pred, x);
    case FilterSection(body) => SeqMatchesIff(body, pred, x);
    case Block(body) => SeqMatchesIff(body, pred, x);
    case Forloop(body, empty) =>
      SeqMatchesIff(body, pred, x);
      if empty.Present? { SeqMatchesIff(empty.nodes, pred, x); }
    case If(conds, otherwise) =>
      BranchMatchesIff(conds, pred, x);
      if otherwise.Present? { SeqMatchesIff(otherwise.nodes, pred, x); }
    case _ =>
  }

  /**
   * The search finds exactly the non-container nodes reachable through
   * container bodies that satisfy the predicate.
   */
  lemma {:induction false} SeqMatchesIff(ns: seq<Node>, pred: Node -> bool, x: Node)
    ensures x in SeqMatches(ns, pred) <==> InSeq(ns, x) && pred(x)
    decreases ns, 1
  {
    if ns != [] {
      SeqMatchesIff(ns[..|ns| - 1], pred, x);
      NodeMatchesIff(ns[|ns| - 1], pred, x);
      InSeqSplit(ns, x);
    }
  }

  lemma {:induction false} BranchMatchesIff(cs: seq<Branch>, pred: Node -> bool, x: Node)
    ensures x in BranchMatches(cs, pred) <==> (exists k :: 0 <= k < |cs| && InSeq(cs[k].body, x)) && pred(x)
    decreases cs, 1
  {
    if cs != [] {
      var last := cs[|cs| - 1];
      var init := cs[..|cs| - 1];
      BranchMatchesIff(init, pred, x);
      SeqMatchesIff(last.body, pred, x);
      if exists k :: 0 <= k < |cs| && InSeq(cs[k].body, x) {
        var k :| 0 <= k < |cs| && InSeq(cs[k].body, x);
        if k < |cs| - 1 {
          assert init[k] == cs[k];
        }
      }
      if exists k :: 0 <= k < |init| && InSeq(init[k].body, x) {
        var k :| 0 <= k < |init| && InSeq(init[k].body, x);
        assert cs[k] == init[k];
      }
    }
  }

  /** A found node is never a container: the predicate is only put to the other kinds. */
  lemma {:induction false} InNodeIsLeaf(n: Node, x: Node)
    requires InNode(n, x)
    ensures !IsContainer(x)
    decreases n, 1
  {
    match n
    case MacroDefinition(body) => InSeqIsLeaf(body, x);
    case FilterSection(body) => InSeqIsLeaf(body, x);
    case Block(body) => InSeqIsLeaf(body, x);
    case Forloop(body, empty) =>
      if InSeq(body, x) { InSeqIsLeaf(body, x); } else { InSeqIsLeaf(empty.nodes, x); }
    case If(conds, otherwise) =>
      if exists k :: 0 <= k < |conds| && InSeq(conds[k].body, x) {
        var k :| 0 <= k < |conds| && InSeq(conds[k].body, x);
        InSeqIsLeaf(conds[k].body, x);
      } else {
        InSeqIsLeaf(otherwise.nodes, x);
      }
    case _ =>
  }

  lemma {:induction false} InSeqIsLeaf(ns: seq<Node>, x: Node)
    requires InSeq(ns, x)
    ensures !IsContainer(x)
    decreases ns, 0
  {
    var k :| 0 <= k < |ns| && InNode(ns[k], x);
    InNodeIsLeaf(ns[k], x);
  }

  /** `find_all_matches_node`: it never fails. */
  method FindAllMatchesNode(node: Node, pred: Node -> bool) returns (r: Result<seq<Node>, DevinitError>)
    ensures r == Ok(NodeMatches(node, pred))
    decreases node
  {
    var ret: seq<Node> := [];
    match node {
      case MacroDefinition(body) =>
        var sub := FindAllMatchesSeq(body, ret, pred);
        ret := sub.value;
        assert ret == NodeMatches(node, pred);
      case FilterSection(body) =>
        var sub := FindAllMatchesSeq(body, ret, pred);
        ret := sub.value;
        assert ret == NodeMatches(node, pred);
      case Block(body) =>
        var sub := FindAllMatchesSeq(body, ret, pred);
        ret := sub.value;
        assert ret == NodeMatches(node, pred);
      case Forloop(body, empty) =>
        var sub := FindAllMatchesSeq(body, ret, pred);
        ret := sub.value;
        if empty.Present? {
          sub := FindAllMatchesSeq(empty.nodes, ret, pred);
          ret := sub.value;
        }
        assert ret == NodeMatches(node, pred);
      case If(conds, otherwise) =>
        var j := 0;
        while j < |conds|
          invariant 0 <= j <= |conds|
          invariant ret == BranchMatches(conds[..j], pred)
        {
          var sub := FindAllMatchesSeq(conds[j].body, ret, pred);
          ret := sub.value;
          assert conds[..j + 1][..j] == conds[..j];
          j := j + 1;
        }
        assert conds[..j] == conds;
        if otherwise.Present? {
          var sub := FindAllMatchesSeq(otherwise.nodes, ret, pred);
          ret := sub.value;
        }
        assert ret == NodeMatches(node, pred);
      case _ =>
        if pred(node) {
          ret := ret + [node];
        }
        assert ret == NodeMatches(node, pred);
    }
    return Ok(ret);
  }

  /** One `for n in body { ret.append(&mut find_all_matches_node(n)?) }` loop, appending to `acc`. */
  method FindAllMatchesSeq(body: seq<Node>, acc: seq<Node>, pred: Node -> bool)
    returns (r: Result<seq<Node>, DevinitError>)
    ensures r == Ok(acc + SeqMatches(body, pred))
    decreases body
  {
    var ret := acc;
    var i := 0;
    while i < |body|
      invariant 0 <= i <= |body|
      invariant ret == acc + SeqMatches(body[..i], pred)
    {
      var sub := FindAllMatchesNode(body[i], pred);
      assert body[..i + 1][..i] == body[..i];
      ret := ret + sub.value;
      i := i + 1;
    }
    assert body[..i] == body;
    return Ok(ret);
  }

  /** `find_all_matches`: the matches of each top-level node, in order; it never fails. */
  method FindAllMatches(template: Template, pred: Node -> bool) returns (r: Result<seq<Node>, DevinitError>)
    ensures r == Ok(SeqMatches(template.ast, pred))
  {
    var sub := FindAllMatchesSeq(template.ast, [], pred);
    assert [] + SeqMatches(template.ast, pred) == SeqMatches(template.ast, pred);
    return Ok(sub.value);
  }

  /* ---------- variable identifiers of an expression ---------- */

  /** `&s[..s.find(c).unwrap_or(s.len())]`: `s` up to its first `c`. */
  function CutAt(s: string, c: char): (r: string)
    ensures r <= s && c !in r
    ensures |r| < |s| ==> s[|r|] == c
  {
    match IndexOfChar(s, c)
    case None => s
    case Some(i) => s[..i]
  }

  predicate IsAccessorDelim(c: char) {
    c == '.' || c == '['
  }

  /** The index of the first '.' or '[' in `s`, or `|s|`. */
  function FirstAccessorDelim(s: string): (i: nat)
    ensures i <= |s| && (i < |s| ==> IsAccessorDelim(s[i]))
    ensures forall k :: 0 <= k < i ==> !IsAccessorDelim(s[k])
  {
    if s == [] then 0
    else if IsAccessorDelim(s[0]) then 0
    else 1 + FirstAccessorDelim(s[1..])
  }

  /** `s.split(&['.', '['])`. */
  function SplitAccessors(s: string): (segs: seq<string>)
    ensures |segs| >= 1 && segs[0] == s[..FirstAccessorDelim(s)]
    ensures forall k, c :: 0 <= k < |segs| && c in segs[k] ==> !IsAccessorDelim(c)
    decreases |s|
  {
    var i := FirstAccessorDelim(s);
    if i == |s| then [s] else [s[..i]] + SplitAccessors(s[i + 1..])
  }

  /** The access path of an identifier: `foo.bar[0]` is `["foo", "bar", "0"]`. */
  function IdentPath(id: string): (path: seq<string>)
    ensures |path| == |SplitAccessors(id)|
  {
    var segs := SplitAccessors(id);
    seq(|segs|, k requires 0 <= k < |segs| => CutAt(segs[k], ']'))
  }

  /** The variable an identifier reads: the first segment of its path. */
  function BaseName(id: string): (x: string)
    ensures x == IdentPath(id)[0]
    ensures forall c :: c in x ==> c != '.' && c != '[' && c != ']'
  {
    CutAt(id[..FirstAccessorDelim(id)], ']')
  }

  /** `get_expr_variable_idents`: the access paths of the identifiers `e` reads. */
  function ExprIdents(e: Expr, ignoreBuiltins: bool): (paths: seq<seq<string>>)
    ensures forall k :: 0 <= k < |paths| ==> |paths[k]| >= 1
  {
    var raw := match e
      case Ident(id) => [IdentPath(id)]
      case MacroCall(args) => ArgsIdents(args, ignoreBuiltins)
      case FunctionCall(args) => ArgsIdents(args, ignoreBuiltins)
      case Array(items) => ArgsIdents(items, ignoreBuiltins)
      case OtherExpr => [];
    if ignoreBuiltins then DropBuiltins(raw) else raw
  }

  function ArgsIdents(es: seq<Expr>, ignoreBuiltins: bool): (paths: seq<seq<string>>)
    ensures forall k :: 0 <= k < |paths| ==> |paths[k]| >= 1
  {
    if es == [] then []
    else ArgsIdents(es[..|es| - 1], ignoreBuiltins) + ExprIdents(es[|es| - 1], ignoreBuiltins)
  }

  /** The filter `s[0] != BUILTIN_VARIABLES_IDENT`. */
  function DropBuiltins(paths: seq<seq<string>>): (r: seq<seq<string>>)
    requires forall k :: 0 <= k < |paths| ==> |paths[k]| >= 1
    ensures forall k :: 0 <= k < |r| ==> |r[k]| >= 1
    ensures forall p :: p in r <==> p in paths && p[0] != BUILTIN_VARIABLES_IDENT
  {
    if paths == [] then []
    else
      var last := paths[|paths| - 1];
      DropBuiltins(paths[..|paths| - 1]) + (if last[0] == BUILTIN_VARIABLES_IDENT then [] else [last])
  }

  /** `e` contains the identifier `id`, through call arguments and array items. */
  ghost predicate Mentions(e: Expr, id: string) {
    match e
    case Ident(name) => name == id
    case MacroCall(args) => exists k :: 0 <= k < |args| && Mentions(args[k], id)
    case FunctionCall(args) => exists k :: 0 <= k < |args| && Mentions(args[k], id)
    case Array(items) => exists k :: 0 <= k < |items| && Mentions(items[k], id)
    case OtherExpr => false
  }

  /** `get_expr_variable_idents`. */
  method GetExprVariableIdents(expr: Expr, ignoreBuiltins: bool) returns (ret: seq<seq<string>>)
    ensures ret == ExprIdents(expr, ignoreBuiltins)
    decreases expr
  {
    ret := [];
    match expr {
      case Ident(id) =>
        ret := ret + [IdentPath(id)];
      case MacroCall(args) =>
        ret := GetArgsVariableIdents(args, ignoreBuiltins);
      case FunctionCall(args) =>
        ret := GetArgsVariableIdents(args, ignoreBuiltins);
      case Array(items) =>
        ret := GetArgsVariableIdents(items, ignoreBuiltins);
      case OtherExpr =>
    }
    if ignoreBuiltins {
      ret := DropBuiltins(ret);
    }
  }

  /** One `for arg in args { ret.append(&mut get_expr_variable_idents(arg, ..)) }` loop. */
  method GetArgsVariableIdents(args: seq<Expr>, ignoreBuiltins: bool) returns (ret: seq<seq<string>>)
    ensures ret == ArgsIdents(args, ignoreBuiltins)
    decreases args
  {
    ret := [];
    var i := 0;
    while i < |args|
      invariant 0 <= i <= |args|
      invariant ret == ArgsIdents(args[..i], ignoreBuiltins)
    {
      var sub := GetExprVariableIdents(args[i], ignoreBuiltins);
      assert args[..i + 1][..i] == args[..i];
      ret := ret + sub;
      i := i + 1;
    }
    assert args[..i] == args;
  }

  /** Every identifier `e` mentions is reported, unless a built-in is being dropped. */
  lemma {:induction false} ExprIdentsComplete(e: Expr, ignoreBuiltins: bool, id: string)
    requires Mentions(e, id) && (ignoreBuiltins ==> BaseName(id) != BUILTIN_VARIABLES_IDENT)
    ensures IdentPath(id) in ExprIdents(e, ignoreBuiltins)
    decreases e, 1
  {
    match e
    case Ident(name) =>
    case MacroCall(args) =>
      var k :| 0 <= k < |args| && Mentions(args[k], id);
      ArgsIdentsComplete(args, ignoreBuiltins, id, k);
    case FunctionCall(args) =>
      var k :| 0 <= k < |args| && Mentions(args[k], id);
      ArgsIdentsComplete(args, ignoreBuiltins, id, k);
    case Array(items) =>
      var k :| 0 <= k < |items| && Mentions(items[k], id);
      ArgsIdentsComplete(items, ignoreBuiltins, id, k);
  }

  lemma {:induction false} ArgsIdentsComplete(es: seq<Expr>, ignoreBuiltins: bool, id: string, k: nat)
    requires k < |es| && Mentions(es[k], id) && (ignoreBuiltins ==> BaseName(id) != BUILTIN_VARIABLES_IDENT)
    ensures IdentPath(id) in ArgsIdents(es, ignoreBuiltins)
    decreases es, 0
  {
    if k == |es| - 1 {
      ExprIdentsComplete(es[k], ignoreBuiltins, id);
    } else {
      assert es[..|es| - 1][k] == es[k];
      ArgsIdentsComplete(es[..|es| - 1], ignoreBuiltins, id, k);
    }
  }

  /** Every reported path is that of an identifier `e` mentions, and no built-in when they are dropped. */
  lemma {:induction false} ExprIdentsSound(e: Expr, ignoreBuiltins: bool, p: seq<string>)
    requires p in ExprIdents(e, ignoreBuiltins)
    ensures ignoreBuiltins ==> p[0] != BUILTIN_VARIABLES_IDENT
    ensures exists id :: Mentions(e, id) && p == IdentPath(id)
    decreases e, 1
  {
    match e
    case Ident(name) =>
      assert Mentions(e, name);
    case MacroCall(args) =>
      ArgsIdentsSound(args, ignoreBuiltins, p);
    case FunctionCall(args) =>
      ArgsIdentsSound(args, ignoreBuiltins, p);
    case Array(items) =>
      ArgsIdentsSound(items, ignoreBuiltins, p);
  }

  lemma {:induction false} ArgsIdentsSound(es: seq<Expr>, ignoreBuiltins: bool, p: seq<string>)
    requires p in ArgsIdents(es, ignoreBuiltins)
    ensures ignoreBuiltins ==> p[0] != BUILTIN_VARIABLES_IDENT
    ensures exists k, id :: 0 <= k < |es| && Mentions(es[k], id) && p == IdentPath(id)
    decreases es, 0
  {
    var init := es[..|es| - 1];
    if p in ArgsIdents(init, ignoreBuiltins) {
      ArgsIdentsSound(init, ignoreBuiltins, p);
      var k, id :| 0 <= k < |init| && Mentions(init[k], id) && p == IdentPath(id);
      assert es[k] == init[k];
    } else {
      ExprIdentsSound(es[|es| - 1], ignoreBuiltins, p);
    }
  }

  /** The variable names of some access paths: `.map(|v| v[0])`. */
  function BaseNames(paths: seq<seq<string>>): (names: seq<string>)
    requires forall k :: 0 <= k < |paths| ==> |paths[k]| >= 1
    ensures |names| == |paths|
  {
    seq(|paths|, k requires 0 <= k < |paths| => paths[k][0])
  }

  /** The variables an expression reads, built-ins dropped. */
  function ExprVariables(e: Expr): seq<string> {
    BaseNames(ExprIdents(e, true))
  }

  /** An expression reads variable `x` exactly when it mentions an identifier on `x` that is not the built-in. */
  lemma ExprVariablesIff(e: Expr, x: string)
    ensures x in ExprVariables(e) <==>
      x != BUILTIN_VARIABLES_IDENT && exists id :: Mentions(e, id) && BaseName(id) == x
  {
    if x in ExprVariables(e) {
      ExprVariablesSound(e, x);
    }
    if x != BUILTIN_VARIABLES_IDENT && exists id :: Mentions(e, id) && BaseName(id) == x {
      var id :| Mentions(e, id) && BaseName(id) == x;
      ExprVariablesComplete(e, id);
    }
  }

  lemma ExprVariablesSound(e: Expr, x: string)
    requires x in ExprVariables(e)
    ensures x != BUILTIN_VARIABLES_IDENT && exists id :: Mentions(e, id) && BaseName(id) == x
  {
    var paths := ExprIdents(e, true);
    var k :| 0 <= k < |paths| && ExprVariables(e)[k] == x;
    assert paths[k][0] == x;
    ExprIdentsSound(e, true, paths[k]);
    var id :| Mentions(e, id) && paths[k] == IdentPath(id);
    assert BaseName(id) == x;
  }

  lemma ExprVariablesComplete(e: Expr, id: string)
    requires Mentions(e, id) && BaseName(id) != BUILTIN_VARIABLES_IDENT
    ensures BaseName(id) in ExprVariables(e)
  {
    var paths := ExprIdents(e, true);
    ExprIdentsComplete(e, true, id);
    var k :| 0 <= k < |paths| && paths[k] == IdentPath(id);
    assert ExprVariables(e)[k] == BaseName(id);
  }

  /* ---------- variables read and set ---------- */

  predicate IsVariableBlock(n: Node) {
    n.VariableBlock?
  }

  predicate IsSet(n: Node) {
    n.Set?
  }

  /** A `{{ }}` block or a `set` whose expression reads variable `x`. */
  ghost predicate NodeReads(n: Node, x: string) {
    (n.VariableBlock? && x in ExprVariables(n.expr)) || (n.Set? && x in ExprVariables(n.value))
  }

  /** The variables read by the `{{ }}` blocks among `ms`. */
  function BlockGets(ms: seq<Node>): (xs: seq<string>)
    ensures forall x :: x in xs <==> exists n :: n in ms && n.VariableBlock? && NodeReads(n, x)
  {
    if ms == [] then []
    else
      var last := ms[|ms| - 1];
      assert forall n :: n in ms <==> n in ms[..|ms| - 1] || n == last;
      BlockGets(ms[..|ms| - 1]) + (if last.VariableBlock? then ExprVariables(last.expr) else [])
  }

  /** The variables read by the values of the `set`s among `ms`. */
  function SetGets(ms: seq<Node>): (xs: seq<string>)
    ensures forall x :: x in xs <==> exists n :: n in ms && n.Set? && NodeReads(n, x)
  {
    if ms == [] then []
    else
      var last := ms[|ms| - 1];
      assert forall n :: n in ms <==> n in ms[..|ms| - 1] || n == last;
      SetGets(ms[..|ms| - 1]) + (if last.Set? then ExprVariables(last.value) else [])
  }

  /** The keys of the `set`s among `ms`. */
  function SetKeys(ms: seq<Node>): (ks: seq<string>)
    ensures forall x :: x in ks <==> exists n :: n in ms && n.Set? && n.key == x
  {
    if ms == [] then []
    else
      var last := ms[|ms| - 1];
      assert forall n :: n in ms <==> n in ms[..|ms| - 1] || n == last;
      SetKeys(ms[..|ms| - 1]) + (if last.Set? then [last.key] else [])
  }

  /** What one template adds to `get_vars`. */
  function TemplateGets(t: Template): seq<string> {
    BlockGets(SeqMatches(t.ast, IsVariableBlock)) + SetGets(SeqMatches(t.ast, IsSet))
  }

  /** What one template adds to `set_vars`. */
  function TemplateSets(t: Template): seq<string> {
    SetKeys(SeqMatches(t.ast, IsSet))
  }

  function AllGets(ts: seq<Template>): seq<string> {
    if ts == [] then [] else AllGets(ts[..|ts| - 1]) + TemplateGets(ts[|ts| - 1])
  }

  function AllSets(ts: seq<Template>): seq<string> {
    if ts == [] then [] else AllSets(ts[..|ts| - 1]) + TemplateSets(ts[|ts| - 1])
  }

  /** Some node of some template reads `x`. */
  ghost predicate ReadsVar(ts: seq<Template>, x: string) {
    exists j, n :: 0 <= j < |ts| && InSeq(ts[j].ast, n) && NodeReads(n, x)
  }

  /** Some template has a `set` of `x`. */
  ghost predicate SetsVar(ts: seq<Template>, x: string) {
    exists j, n :: 0 <= j < |ts| && InSeq(ts[j].ast, n) && n.Set? && n.key == x
  }

  lemma TemplateGetsIff(t: Template, x: string)
    ensures x in TemplateGets(t) <==> exists n :: InSeq(t.ast, n) && NodeReads(n, x)
  {
    if exists n :: InSeq(t.ast, n) && NodeReads(n, x) {
      var n :| InSeq(t.ast, n) && NodeReads(n, x);
      SeqMatchesIff(t.ast, IsVariableBlock, n);
      SeqMatchesIff(t.ast, IsSet, n);
    }
    if x in TemplateGets(t) {
      if x in BlockGets(SeqMatches(t.ast, IsVariableBlock)) {
        var n :| n in SeqMatches(t.ast, IsVariableBlock) && n.VariableBlock? && NodeReads(n, x);
        SeqMatchesIff(t.ast, IsVariableBlock, n);
      } else {
        var n :| n in SeqMatches(t.ast, IsSet) && n.Set? && NodeReads(n, x);
        SeqMatchesIff(t.ast, IsSet, n);
      }
    }
  }

  lemma TemplateSetsIff(t: Template, x: string)
    ensures x in TemplateSets(t) <==> exists n :: InSeq(t.ast, n) && n.Set? && n.key == x
  {
    if exists n :: InSeq(t.ast, n) && n.Set? && n.key == x {
      var n :| InSeq(t.ast, n) && n.Set? && n.key == x;
      SeqMatchesIff(t.ast, IsSet, n);
    }
    if x in TemplateSets(t) {
      var n :| n in SeqMatches(t.ast, IsSet) && n.Set? && n.key == x;
      SeqMatchesIff(t.ast, IsSet, n);
    }
  }

  /** `get_vars` holds exactly the variables some template reads. */
  lemma {:induction false} AllGetsIff(ts: seq<Template>, x: string)
    ensures x in AllGets(ts) <==> ReadsVar(ts, x)
  {
    if ts != [] {
      var init := ts[..|ts| - 1];
      AllGetsIff(init, x);
      TemplateGetsIff(ts[|ts| - 1], x);
      if ReadsVar(ts, x) {
        var j, n :| 0 <= j < |ts| && InSeq(ts[j].ast, n) && NodeReads(n, x);
        if j < |ts| - 1 {
          assert init[j] == ts[j];
        }
      }
      if ReadsVar(init, x) {
        var j, n :| 0 <= j < |init| && InSeq(init[j].ast, n) && NodeReads(n, x);
        assert ts[j] == init[j];
      }
    }
  }

  /** `set_vars` holds exactly the keys some template sets. */
  lemma {:induction false} AllSetsIff(ts: seq<Template>, x: string)
    ensures x in AllSets(ts) <==> SetsVar(ts, x)
  {
    if ts != [] {
      var init := ts[..|ts| - 1];
      AllSetsIff(init, x);
      TemplateSetsIff(ts[|ts| - 1], x);
      if SetsVar(ts, x) {
        var j, n :| 0 <= j < |ts| && InSeq(ts[j].ast, n) && n.Set? && n.key == x;
        if j < |ts| - 1 {
          assert init[j] == ts[j];
        }
      }
      if SetsVar(init, x) {
        var j, n :| 0 <= j < |init| && InSeq(init[j].ast, n) && n.Set? && n.key == x;
        assert ts[j] == init[j];
      }
    }
  }

  /* ---------- sort, dedup and the final filter ---------- */

  /** Insert `x` into a strictly ascending list, unless it is already there. */
  function Insert(x: string, ys: seq<string>): (r: seq<string>)
    requires StrictlyAscending(ys)
    ensures StrictlyAscending(r)
    ensures forall z :: z in r <==> z == x || z in ys
  {
    if ys == [] then [x]
    else if x == ys[0] then ys
    else if Less(x, ys[0]) then
      assert forall j :: 0 < j < |ys| ==> Less(ys[0], ys[j]);
      forall j | 0 < j < |ys| ensures Less(x, ys[j]) { LessTransitive(x, ys[0], ys[j]); }
      [x] + ys
    else
      LessTotal(x, ys[0]);
      var rest := Insert(x, ys[1..]);
      assert forall z :: z in ys[1..] ==> Less(ys[0], z);
      [ys[0]] + rest
  }

  /** `v.sort(); v.dedup();`: the elements of `xs`, ascending, each once. */
  function SortDedup(xs: seq<string>): (r: seq<string>)
    ensures StrictlyAscending(r)
    ensures forall z :: z in r <==> z in xs
  {
    if xs == [] then []
    else
      assert forall z :: z in xs <==> z in xs[..|xs| - 1] || z == xs[|xs| - 1];
      Insert(xs[|xs| - 1], SortDedup(xs[..|xs| - 1]))
  }

  /**
   * A strictly ascending list is fixed by its elements, so `SortDedup` is
   * the one result of sorting and removing adjacent duplicates.
   */
  lemma {:induction false} AscendingUnique(a: seq<string>, b: seq<string>)
    requires StrictlyAscending(a) && StrictlyAscending(b)
    requires forall z :: z in a <==> z in b
    ensures a == b
  {
    if a != [] {
      assert a[0] in b;
    }
    if b != [] {
      assert b[0] in a;
    }
    if a != [] && b != [] {
      if a[0] != b[0] {
        assert b[0] in a && a[0] in b;
        var i :| 0 <= i < |a| && a[i] == b[0];
        var j :| 0 <= j < |b| && b[j] == a[0];
        assert i != 0 && j != 0;
        assert Less(a[0], a[i]) && Less(b[0], b[j]);
        LessAsymmetric(a[0], b[0]);
        assert false;
      }
      forall z ensures z in a[1..] <==> z in b[1..] {
        if z in a[1..] {
          var i :| 1 <= i < |a| && a[i] == z;
          assert Less(a[0], z);
          assert z in a && z in b;
          var j :| 0 <= j < |b| && b[j] == z;
          if j == 0 {
            LessIrreflexive(z);
            assert false;
          }
          assert b[1..][j - 1] == z;
        }
        if z in b[1..] {
          var j :| 1 <= j < |b| && b[j] == z;
          assert Less(b[0], z);
          assert z in b && z in a;
          var i :| 0 <= i < |a| && a[i] == z;
          if i == 0 {
            LessIrreflexive(z);
            assert false;
          }
          assert a[1..][i - 1] == z;
        }
      }
      AscendingUnique(a[1..], b[1..]);
      assert a == [a[0]] + a[1..] && b == [b[0]] + b[1..];
    }
  }

  /** The base variable of a reported name: cut at the first '.', then at the first '['. */
  function VarBase(k: string): (base: string)
    ensures base <= k
  {
    CutAt(CutAt(k, '.'), '[')
  }

  /** The final `filter_map`: keep the names whose base variable is not in `sets`, in order. */
  function Unset(names: seq<string>, sets: seq<string>): (r: seq<string>)
    ensures forall x :: x in r <==> x in names && VarBase(x) !in sets
    ensures StrictlyAscending(names) ==> StrictlyAscending(r)
  {
    if names == [] then []
    else
      var init := names[..|names| - 1];
      var last := names[|names| - 1];
      assert forall x :: x in names <==> x in init || x == last;
      var r := Unset(init, sets);
      if VarBase(last) in sets then r
      else
        assert StrictlyAscending(names) ==> StrictlyAscending(r + [last]) by {
          if StrictlyAscending(names) {
            forall x | x in r ensures Less(x, last) {
              var i :| 0 <= i < |init| && init[i] == x;
              assert names[i] == x;
            }
            AscendingSnoc(r, last);
          }
        }
        r + [last]
  }

  /** A name above all of an ascending list may follow it. */
  lemma AscendingSnoc(r: seq<string>, last: string)
    requires StrictlyAscending(r) && forall x :: x in r ==> Less(x, last)
    ensures StrictlyAscending(r + [last])
  {
    var s := r + [last];
    forall i, j | 0 <= i < j < |s| ensures Less(s[i], s[j]) {
      assert s[i] == r[i];
      if j < |r| { assert s[j] == r[j]; }
    }
  }

  /** The result of `get_missing_template_vars` for the template list `ts`. */
  function MissingVars(ts: seq<Template>): seq<string> {
    Unset(SortDedup(AllGets(ts)), AllSets(ts))
  }

  /** A name that contains no accessor is its own base variable. */
  lemma VarBaseOfPlainName(x: string)
    requires forall c :: c in x ==> c != '.' && c != '['
    ensures VarBase(x) == x
  {
    assert '.' !in x && '[' !in x;
    assert CutAt(x, '.') == x;
  }

  /** A read variable is the base of an identifier: it holds no '.', '[' or ']' and is not the built-in. */
  lemma ReadVarIsPlain(ts: seq<Template>, x: string)
    requires ReadsVar(ts, x)
    ensures x != BUILTIN_VARIABLES_IDENT
    ensures forall c :: c in x ==> c != '.' && c != '[' && c != ']'
  {
    var j, n :| 0 <= j < |ts| && InSeq(ts[j].ast, n) && NodeReads(n, x);
    if n.VariableBlock? && x in ExprVariables(n.expr) {
      ExprVariablesIff(n.expr, x);
    } else {
      ExprVariablesIff(n.value, x);
    }
  }

  /**
   * The missing variables of `ts`: in strictly ascending order, and exactly
   * the variables some template reads and no template sets; none of them
   * is the built-in object or carries an accessor.
   */
  lemma MissingVarsSpec(ts: seq<Template>)
    ensures StrictlyAscending(MissingVars(ts))
    ensures forall x :: x in MissingVars(ts) <==> ReadsVar(ts, x) && !SetsVar(ts, x)
    ensures forall x :: x in MissingVars(ts) ==>
      x != BUILTIN_VARIABLES_IDENT && forall c :: c in x ==> c != '.' && c != '[' && c != ']'
  {
    forall x
      ensures x in MissingVars(ts) <==> ReadsVar(ts, x) && !SetsVar(ts, x)
      ensures x in MissingVars(ts) ==>
        x != BUILTIN_VARIABLES_IDENT && forall c :: c in x ==> c != '.' && c != '[' && c != ']'
    {
      AllGetsIff(ts, x);
      AllSetsIff(ts, x);
      if ReadsVar(ts, x) {
        ReadVarIsPlain(ts, x);
        VarBaseOfPlainName(x);
      }
    }
  }

  /* ---------- the include tree ---------- */

  /** The directives that bring in other templates. */
  predicate IsImport(n: Node) {
    n.Include? || n.Extends?
  }

  /** The template names one directive refers to. */
  function ImportIds(n: Node): seq<string> {
    match n
    case Include(ids) => ids
    case Extends(parent) => [parent]
    case _ => []
  }

  function DirectiveRefs(ds: seq<Node>): seq<string> {
    if ds == [] then [] else ImportIds(ds[0]) + DirectiveRefs(ds[1..])
  }

  /** The names a template refers to, in the order `get_templates_recursive` visits them. */
  function Refs(ast: Ast): seq<string> {
    DirectiveRefs(SeqMatches(ast, IsImport))
  }

  /**
   * Every name a ranked registered template refers to is ranked lower, when
   * it is registered: the ranked templates form no include cycle. Templates
   * left unranked are unconstrained, so a cycle among templates that the
   * analysed one never reaches is allowed (`UnrelatedCycleIgnored`). On a
   * cycle it does reach the source recurses without end, so callers rank
   * that template (`HasRank`).
   */
  ghost predicate Ranked(reg: Registry, rank: map<string, nat>) {
    forall t {:trigger RankedAt(reg, rank, t)} :: t in reg && t in rank ==> RankedAt(reg, rank, t)
  }

  /** A registered `id` is ranked. */
  ghost predicate HasRank(reg: Registry, rank: map<string, nat>, id: string) {
    id in reg ==> id in rank
  }

  /** Registered template `t` has a rank above that of every registered template it refers to. */
  ghost predicate RankedAt(reg: Registry, rank: map<string, nat>, t: string)
    requires t in reg
  {
    t in rank && forall r :: r in Refs(reg[t]) && r in reg ==> r in rank && rank[r] < rank[t]
  }

  ghost function Measure(reg: Registry, rank: map<string, nat>, id: string): nat
    requires Ranked(reg, rank)
  {
    if id in reg && id in rank then rank[id] + 1 else 0
  }

  /** Name `id` is ranked, when registered, and measures below `bound`. */
  ghost predicate Below(reg: Registry, rank: map<string, nat>, id: string, bound: nat)
    requires Ranked(reg, rank)
  {
    HasRank(reg, rank, id) && Measure(reg, rank, id) < bound
  }

  /** Every name of `ids` is `Below` the bound. */
  ghost predicate Bounded(reg: Registry, rank: map<string, nat>, ids: seq<string>, bound: nat)
    requires Ranked(reg, rank)
  {
    forall k :: 0 <= k < |ids| ==> Below(reg, rank, ids[k], bound)
  }

  lemma BoundedTail(reg: Registry, rank: map<string, nat>, ids: seq<string>, bound: nat)
    requires Ranked(reg, rank) && Bounded(reg, rank, ids, bound) && ids != []
    ensures Below(reg, rank, ids[0], bound) && Bounded(reg, rank, ids[1..], bound)
  {
    forall k | 0 <= k < |ids| - 1 ensures Below(reg, rank, ids[1..][k], bound) {
      assert ids[1..][k] == ids[k + 1];
    }
  }

  lemma BoundedAppend(reg: Registry, rank: map<string, nat>, a: seq<string>, b: seq<string>, bound: nat)
    requires Ranked(reg, rank) && Bounded(reg, rank, a + b, bound)
    ensures Bounded(reg, rank, a, bound) && Bounded(reg, rank, b, bound)
  {
    forall k | 0 <= k < |a| ensures Below(reg, rank, a[k], bound) {
      assert a[k] == (a + b)[k];
    }
    forall k | 0 <= k < |b| ensures Below(reg, rank, b[k], bound) {
      assert b[k] == (a + b)[|a| + k];
    }
  }

  /** Every name `id` refers to measures below `id`. */
  lemma RefsBelow(reg: Registry, rank: map<string, nat>, id: string)
    requires Ranked(reg, rank) && id in reg && id in rank
    ensures Bounded(reg, rank, Refs(reg[id]), Measure(reg, rank, id))
  {
    assert RankedAt(reg, rank, id);
    forall k | 0 <= k < |Refs(reg[id])|
      ensures Below(reg, rank, Refs(reg[id])[k], Measure(reg, rank, id))
    {
      assert Refs(reg[id])[k] in Refs(reg[id]);
    }
  }

  /**
   * What `get_templates_recursive` returns: the templates each reference
   * brings in, depth first, then the template itself; the first
   * unregistered name reached is an `IdNotFoundError`.
   */
  function Closure(reg: Registry, id: string, ghost rank: map<string, nat>): Result<seq<Template>, DevinitError>
    requires Ranked(reg, rank) && HasRank(reg, rank, id)
    decreases Measure(reg, rank, id), 1
  {
    if id !in reg then Err(IdNotFoundError(id))
    else
      RefsBelow(reg, rank, id);
      var sub :- ClosureOf(reg, Refs(reg[id]), rank, Measure(reg, rank, id));
      Ok(sub + [Template(id, reg[id])])
  }

  /** The closures of `ids`, concatenated; the first error wins. */
  function ClosureOf(reg: Registry, ids: seq<string>, ghost rank: map<string, nat>, ghost bound: nat)
    : Result<seq<Template>, DevinitError>
    requires Ranked(reg, rank)
    requires Bounded(reg, rank, ids, bound)
    decreases bound, 0, |ids|
  {
    if ids == [] then Ok([])
    else
      BoundedTail(reg, rank, ids, bound);
      var first :- Closure(reg, ids[0], rank);
      var rest :- ClosureOf(reg, ids[1..], rank, bound);
      Ok(first + rest)
  }

  /** One reference processed: its closure joins the accumulated list. */
  lemma ClosureOfStep(reg: Registry, refs: seq<string>, rank: map<string, nat>, bound: nat, pos: nat,
                      whole: Result<seq<Template>, DevinitError>, ret: seq<Template>, sub: Result<seq<Template>, DevinitError>)
    requires Ranked(reg, rank)
    requires Bounded(reg, rank, refs, bound)
    requires pos < |refs| && sub == Closure(reg, refs[pos], rank)
    requires whole == Prepend(ret, ClosureOf(reg, refs[pos..], rank, bound))
    ensures sub.Err? ==> whole == Err(sub.error)
    ensures sub.Ok? ==> whole == Prepend(ret + sub.value, ClosureOf(reg, refs[pos + 1..], rank, bound))
  {
    var tail := refs[pos..];
    assert tail[0] == refs[pos];
    assert tail[1..] == refs[pos + 1..];
    var rest := ClosureOf(reg, tail[1..], rank, bound);
    if sub.Err? {
      assert ClosureOf(reg, tail, rank, bound) == Err(sub.error);
    } else if rest.Err? {
      assert ClosureOf(reg, tail, rank, bound) == rest;
    } else {
      assert ClosureOf(reg, tail, rank, bound) == Ok(sub.value + rest.value);
      assert ret + (sub.value + rest.value) == (ret + sub.value) + rest.value;
    }
  }

  function Then(first: Result<seq<Template>, DevinitError>, rest: Result<seq<Template>, DevinitError>)
    : Result<seq<Template>, DevinitError>
  {
    if first.Err? then first else Prepend(first.value, rest)
  }

  /** The closures of `a + b` are those of `a` followed by those of `b`. */
  lemma {:induction false} ClosureOfAppend(reg: Registry, a: seq<string>, b: seq<string>, rank: map<string, nat>, bound: nat)
    requires Ranked(reg, rank)
    requires Bounded(reg, rank, a + b, bound)
    ensures Bounded(reg, rank, a, bound) && Bounded(reg, rank, b, bound)
    ensures ClosureOf(reg, a + b, rank, bound) == Then(ClosureOf(reg, a, rank, bound), ClosureOf(reg, b, rank, bound))
  {
    BoundedAppend(reg, rank, a, b, bound);
    if a == [] {
      assert a + b == b;
      var rb := ClosureOf(reg, b, rank, bound);
      if rb.Ok? {
        assert [] + rb.value == rb.value;
      }
    } else {
      assert (a + b)[0] == a[0] && (a + b)[1..] == a[1..] + b;
      BoundedTail(reg, rank, a + b, bound);
      ClosureOfAppend(reg, a[1..], b, rank, bound);
      var first := Closure(reg, a[0], rank);
      var ra := ClosureOf(reg, a[1..], rank, bound);
      var rb := ClosureOf(reg, b, rank, bound);
      if first.Ok? && ra.Ok? && rb.Ok? {
        assert first.value + (ra.value + rb.value) == (first.value + ra.value) + rb.value;
      }
    }
  }

  lemma AdvanceDirective(whole: Result<seq<Template>, DevinitError>, ret: seq<Template>,
                          first: Result<seq<Template>, DevinitError>, rest: Result<seq<Template>, DevinitError>)
    requires whole == Prepend(ret, Then(first, rest))
    ensures first.Err? ==> whole == Err(first.error)
    ensures first.Ok? ==> whole == Prepend(ret + first.value, rest)
  {
    if first.Ok? && rest.Ok? {
      assert ret + (first.value + rest.value) == (ret + first.value) + rest.value;
    }
  }

  /** What handling directive `d` does to the accumulated closures. */
  lemma DirectiveStep(reg: Registry, rank: map<string, nat>, bound: nat, all: Result<seq<Template>, DevinitError>,
                      ret: seq<Template>, ds: seq<Node>, d: nat)
    requires Ranked(reg, rank) && d < |ds|
    requires Bounded(reg, rank, DirectiveRefs(ds[d..]), bound)
    requires all == Prepend(ret, ClosureOf(reg, DirectiveRefs(ds[d..]), rank, bound))
    ensures Bounded(reg, rank, ImportIds(ds[d]), bound) && Bounded(reg, rank, DirectiveRefs(ds[d + 1..]), bound)
    ensures ds[d].Include? ==> Prepend(ret, ClosureOf(reg, ds[d].ids, rank, bound)).Err? ==>
      all == Prepend(ret, ClosureOf(reg, ds[d].ids, rank, bound))
    ensures ds[d].Include? ==> Prepend(ret, ClosureOf(reg, ds[d].ids, rank, bound)).Ok? ==>
      all == Prepend(Prepend(ret, ClosureOf(reg, ds[d].ids, rank, bound)).value, ClosureOf(reg, DirectiveRefs(ds[d + 1..]), rank, bound))
    ensures ds[d].Extends? ==> Closure(reg, ds[d].parent, rank).Err? ==>
      all == Err(Closure(reg, ds[d].parent, rank).error)
    ensures ds[d].Extends? ==> Closure(reg, ds[d].parent, rank).Ok? ==>
      all == Prepend(ret + Closure(reg, ds[d].parent, rank).value, ClosureOf(reg, DirectiveRefs(ds[d + 1..]), rank, bound))
    ensures !ds[d].Include? && !ds[d].Extends? ==>
      all == Prepend(ret, ClosureOf(reg, DirectiveRefs(ds[d + 1..]), rank, bound))
  {
    var ids := ImportIds(ds[d]);
    var rest := DirectiveRefs(ds[d + 1..]);
    assert ds[d..][1..] == ds[d + 1..];
    assert DirectiveRefs(ds[d..]) == ids + rest;
    ClosureOfAppend(reg, ids, rest, rank, bound);
    var cIds := ClosureOf(reg, ids, rank, bound);
    AdvanceDirective(all, ret, cIds, ClosureOf(reg, rest, rank, bound));
    if ds[d].Extends? {
      var sub := Closure(reg, ds[d].parent, rank);
      assert cIds == Then(sub, Ok([]));
      if sub.Ok? {
        assert sub.value + [] == sub.value;
      }
    } else if !ds[d].Include? {
      assert ret + [] == ret;
    }
  }

  /** `get_templates_recursive`. */
  method GetTemplatesRecursive(tera: Registry, tplName: string, ghost rank: map<string, nat>)
    returns (r: Result<seq<Template>, DevinitError>)
    requires Ranked(tera, rank) && HasRank(tera, rank, tplName)
    ensures r == Closure(tera, tplName, rank)
    decreases Measure(tera, rank, tplName), 2
  {
    if tplName !in tera {
      return Err(IdNotFoundError(tplName));
    }
    var template := Template(tplName, tera[tplName]);
    var found := FindAllMatches(template, IsImport);
    var directives := found.value;
    ghost var bound := Measure(tera, rank, tplName);
    RefsBelow(tera, rank, tplName);
    ghost var all := ClosureOf(tera, Refs(template.ast), rank, bound);
    assert Closure(tera, tplName, rank) == if all.Err? then Err(all.error) else Ok(all.value + [template]);
    var ret := [];
    assert directives[0..] == directives;
    if all.Ok? {
      assert [] + all.value == all.value;
    }
    var d := 0;
    while d < |directives|
      invariant 0 <= d <= |directives|
      invariant Bounded(tera, rank, DirectiveRefs(directives[d..]), bound)
      invariant all == Prepend(ret, ClosureOf(tera, DirectiveRefs(directives[d..]), rank, bound))
    {
      var next := HandleDirective(tera, rank, bound, all, ret, directives, d);
      if next.Err? {
        return Err(next.error);
      }
      ret := next.value;
      d := d + 1;
    }
    assert ret + [] == ret;
    ret := ret + [template];
    return Ok(ret);
  }

  /**
   * One pass of the directive loop of `get_templates_recursive`: the
   * closures of directive `d` appended to `ret`, or the first error.
   */
  method HandleDirective(tera: Registry, ghost rank: map<string, nat>, ghost bound: nat, ghost all: Result<seq<Template>, DevinitError>,
                         ret: seq<Template>, directives: seq<Node>, d: nat)
    returns (r: Result<seq<Template>, DevinitError>)
    requires Ranked(tera, rank) && d < |directives|
    requires Bounded(tera, rank, DirectiveRefs(directives[d..]), bound)
    requires all == Prepend(ret, ClosureOf(tera, DirectiveRefs(directives[d..]), rank, bound))
    ensures Bounded(tera, rank, DirectiveRefs(directives[d + 1..]), bound)
    ensures r.Err? ==> all == Err(r.error)
    ensures r.Ok? ==> all == Prepend(r.value, ClosureOf(tera, DirectiveRefs(directives[d + 1..]), rank, bound))
    decreases bound, 1
  {
    DirectiveStep(tera, rank, bound, all, ret, directives, d);
    var dir := directives[d];
    if dir.Include? {
      r := AppendClosures(tera, dir.ids, ret, rank, bound);
    } else if dir.Extends? {
      var sub := GetTemplatesRecursive(tera, dir.parent, rank);
      if sub.Err? {
        return Err(sub.error);
      }
      r := Ok(ret + sub.value);
    } else {
      r := Ok(ret);
    }
  }

  /** The loop `for id in ids { ret.append(&mut get_templates_recursive(tera, id)?) }`, appending to `acc`. */
  method AppendClosures(tera: Registry, ids: seq<string>, acc: seq<Template>, ghost rank: map<string, nat>, ghost bound: nat)
    returns (r: Result<seq<Template>, DevinitError>)
    requires Ranked(tera, rank)
    requires Bounded(tera, rank, ids, bound)
    ensures r == Prepend(acc, ClosureOf(tera, ids, rank, bound))
    decreases bound, 0
  {
    var ret := acc;
    var k := 0;
    assert ids[k..] == ids;
    while k < |ids|
      invariant 0 <= k <= |ids|
      invariant Prepend(acc, ClosureOf(tera, ids, rank, bound)) == Prepend(ret, ClosureOf(tera, ids[k..], rank, bound))
    {
      var sub := GetTemplatesRecursive(tera, ids[k], rank);
      ClosureOfStep(tera, ids, rank, bound, k, Prepend(acc, ClosureOf(tera, ids, rank, bound)), ret, sub);
      if sub.Err? {
        return Err(sub.error);
      }
      ret := ret + sub.value;
      k := k + 1;
    }
    assert ids[k..] == [];
    assert ret + [] == ret;
    return Ok(ret);
  }

  /* ---------- what the include closure contains ---------- */

  /** Every listed template is the registry's entry under its name. */
  ghost predicate Registered(reg: Registry, ts: seq<Template>) {
    forall t :: t in ts ==> t.name in reg && reg[t.name] == t.ast
  }

  /** Every name a listed template refers to is the name of a template listed before it. */
  ghost predicate RefsEarlier(ts: seq<Template>) {
    forall j, r :: 0 <= j < |ts| && r in Refs(ts[j].ast) ==> exists i :: 0 <= i < j && ts[i].name == r
  }

  ghost predicate Listed(ts: seq<Template>, x: string) {
    exists i :: 0 <= i < |ts| && ts[i].name == x
  }

  lemma RefsEarlierAppend(a: seq<Template>, b: seq<Template>)
    requires RefsEarlier(a) && RefsEarlier(b)
    ensures RefsEarlier(a + b)
  {
    var ab := a + b;
    forall j, r | 0 <= j < |ab| && r in Refs(ab[j].ast)
      ensures exists i :: 0 <= i < j && ab[i].name == r
    {
      if j < |a| {
        assert ab[j] == a[j];
        var i :| 0 <= i < j && a[i].name == r;
        assert ab[i] == a[i];
      } else {
        assert ab[j] == b[j - |a|];
        var i :| 0 <= i < j - |a| && b[i].name == r;
        assert ab[|a| + i] == b[i];
      }
    }
  }

  /**
   * A successful closure ends with the requested template, lists only
   * registry entries, and lists every name a template refers to before
   * that template.
   */
  lemma {:induction false} ClosureShape(reg: Registry, id: string, rank: map<string, nat>)
    requires Ranked(reg, rank) && HasRank(reg, rank, id)
    ensures Closure(reg, id, rank).Ok? ==>
      var ts := Closure(reg, id, rank).value;
      id in reg && ts != [] && ts[|ts| - 1] == Template(id, reg[id]) && Registered(reg, ts) && RefsEarlier(ts)
    decreases Measure(reg, rank, id), 1
  {
    if id in reg {
      RefsBelow(reg, rank, id);
      var refs := Refs(reg[id]);
      var bound := Measure(reg, rank, id);
      var sub := ClosureOf(reg, refs, rank, bound);
      ClosureOfShape(reg, refs, rank, bound);
      if sub.Ok? {
        var ts := sub.value + [Template(id, reg[id])];
        forall r | r in refs ensures exists i :: 0 <= i < |ts| - 1 && ts[i].name == r {
          var k :| 0 <= k < |refs| && refs[k] == r;
          var i :| 0 <= i < |sub.value| && sub.value[i].name == refs[k];
          assert ts[i] == sub.value[i];
        }
        forall j, r | 0 <= j < |ts| && r in Refs(ts[j].ast)
          ensures exists i :: 0 <= i < j && ts[i].name == r
        {
          if j < |sub.value| {
            assert ts[j] == sub.value[j];
            var i :| 0 <= i < j && sub.value[i].name == r;
            assert ts[i] == sub.value[i];
          } else {
            assert Refs(ts[j].ast) == refs;
          }
        }
      }
    }
  }

  lemma {:induction false} ClosureOfShape(reg: Registry, ids: seq<string>, rank: map<string, nat>, bound: nat)
    requires Ranked(reg, rank) && Bounded(reg, rank, ids, bound)
    ensures ClosureOf(reg, ids, rank, bound).Ok? ==>
      var ts := ClosureOf(reg, ids, rank, bound).value;
      Registered(reg, ts) && RefsEarlier(ts) && forall k :: 0 <= k < |ids| ==> Listed(ts, ids[k])
    decreases bound, 0, |ids|
  {
    if ids != [] {
      BoundedTail(reg, rank, ids, bound);
      ClosureShape(reg, ids[0], rank);
      ClosureOfShape(reg, ids[1..], rank, bound);
      var first := Closure(reg, ids[0], rank);
      var rest := ClosureOf(reg, ids[1..], rank, bound);
      if first.Ok? && rest.Ok? {
        var ts := first.value + rest.value;
        RefsEarlierAppend(first.value, rest.value);
        forall k | 0 <= k < |ids| ensures Listed(ts, ids[k]) {
          if k == 0 {
            assert ts[|first.value| - 1] == first.value[|first.value| - 1];
          } else {
            assert ids[1..][k - 1] == ids[k];
            var i :| 0 <= i < |rest.value| && rest.value[i].name == ids[k];
            assert ts[|first.value| + i] == rest.value[i];
          }
        }
      }
    }
  }

  /** `p` is a chain of references: each element is registered and refers to the next. */
  ghost predicate IsPath(reg: Registry, p: seq<string>) {
    |p| >= 1 && forall k :: 0 <= k < |p| - 1 ==> p[k] in reg && p[k + 1] in Refs(reg[p[k]])
  }

  /** Template `id` refers to `x`, directly or through other templates (or `x` is `id`). */
  ghost predicate Reachable(reg: Registry, id: string, x: string) {
    exists p :: IsPath(reg, p) && p[0] == id && p[|p| - 1] == x
  }

  lemma ReachableStep(reg: Registry, id: string, r: string, x: string)
    requires id in reg && r in Refs(reg[id]) && Reachable(reg, r, x)
    ensures Reachable(reg, id, x)
  {
    var p :| IsPath(reg, p) && p[0] == r && p[|p| - 1] == x;
    var q := [id] + p;
    assert forall k :: 0 < k < |q| ==> q[k] == p[k - 1];
    assert IsPath(reg, q);
  }

  /**
   * Every template of a successful closure is reachable from the requested
   * one, and a failed closure names a reachable template that is not
   * registered.
   */
  lemma {:induction false} ClosureReachable(reg: Registry, id: string, rank: map<string, nat>)
    requires Ranked(reg, rank) && HasRank(reg, rank, id)
    ensures Closure(reg, id, rank).Ok? ==>
      forall t :: t in Closure(reg, id, rank).value ==> Reachable(reg, id, t.name)
    ensures Closure(reg, id, rank).Err? ==>
      var e := Closure(reg, id, rank).error;
      e.IdNotFoundError? && e.message !in reg && Reachable(reg, id, e.message)
    decreases Measure(reg, rank, id), 1
  {
    if id !in reg {
      assert IsPath(reg, [id]);
    } else {
      RefsBelow(reg, rank, id);
      var refs := Refs(reg[id]);
      var bound := Measure(reg, rank, id);
      ClosureOfReachable(reg, refs, rank, bound);
      var sub := ClosureOf(reg, refs, rank, bound);
      if sub.Ok? {
        forall t | t in sub.value + [Template(id, reg[id])] ensures Reachable(reg, id, t.name) {
          if t in sub.value {
            var k :| 0 <= k < |refs| && Reachable(reg, refs[k], t.name);
            ReachableStep(reg, id, refs[k], t.name);
          } else {
            assert IsPath(reg, [id]);
          }
        }
      } else {
        var k :| 0 <= k < |refs| && Reachable(reg, refs[k], sub.error.message);
        ReachableStep(reg, id, refs[k], sub.error.message);
      }
    }
  }

  lemma {:induction false} ClosureOfReachable(reg: Registry, ids: seq<string>, rank: map<string, nat>, bound: nat)
    requires Ranked(reg, rank) && Bounded(reg, rank, ids, bound)
    ensures ClosureOf(reg, ids, rank, bound).Ok? ==>
      forall t :: t in ClosureOf(reg, ids, rank, bound).value ==>
        exists k :: 0 <= k < |ids| && Reachable(reg, ids[k], t.name)
    ensures ClosureOf(reg, ids, rank, bound).Err? ==>
      var e := ClosureOf(reg, ids, rank, bound).error;
      e.IdNotFoundError? && e.message !in reg && exists k :: 0 <= k < |ids| && Reachable(reg, ids[k], e.message)
    decreases bound, 0, |ids|
  {
    if ids != [] {
      BoundedTail(reg, rank, ids, bound);
      ClosureReachable(reg, ids[0], rank);
      ClosureOfReachable(reg, ids[1..], rank, bound);
      var first := Closure(reg, ids[0], rank);
      var rest := ClosureOf(reg, ids[1..], rank, bound);
      if first.Ok? && rest.Ok? {
        forall t | t in first.value + rest.value ensures exists k :: 0 <= k < |ids| && Reachable(reg, ids[k], t.name) {
          if t in first.value {
            assert Reachable(reg, ids[0], t.name);
          } else {
            var k :| 0 <= k < |ids[1..]| && Reachable(reg, ids[1..][k], t.name);
            assert ids[1..][k] == ids[k + 1];
          }
        }
      } else if first.Err? {
        assert Reachable(reg, ids[0], first.error.message);
      } else {
        var k :| 0 <= k < |ids[1..]| && Reachable(reg, ids[1..][k], rest.error.message);
        assert ids[1..][k] == ids[k + 1];
      }
    }
  }

  /** Along a reference chain from the requested template, every name is listed in a successful closure. */
  lemma {:induction false} PathListed(reg: Registry, ts: seq<Template>, p: seq<string>, k: nat)
    requires Registered(reg, ts) && RefsEarlier(ts)
    requires IsPath(reg, p) && Listed(ts, p[0]) && k < |p|
    ensures Listed(ts, p[k])
  {
    if k > 0 {
      PathListed(reg, ts, p, k - 1);
      var j :| 0 <= j < |ts| && ts[j].name == p[k - 1];
      assert ts[j] in ts;
      assert p[k] in Refs(ts[j].ast);
    }
  }

  /**
   * The closure succeeds exactly when every template reachable from the
   * requested one is registered, and then it lists exactly the reachable
   * templates.
   */
  lemma ClosureOkIff(reg: Registry, id: string, rank: map<string, nat>)
    requires Ranked(reg, rank) && HasRank(reg, rank, id)
    ensures Closure(reg, id, rank).Ok? <==> forall x :: Reachable(reg, id, x) ==> x in reg
    ensures Closure(reg, id, rank).Ok? ==>
      forall x :: Listed(Closure(reg, id, rank).value, x) <==> Reachable(reg, id, x)
  {
    ClosureShape(reg, id, rank);
    ClosureReachable(reg, id, rank);
    var r := Closure(reg, id, rank);
    if r.Ok? {
      var ts := r.value;
      assert ts[|ts| - 1].name == id;
      forall x | Reachable(reg, id, x) ensures Listed(ts, x) && x in reg {
        var p :| IsPath(reg, p) && p[0] == id && p[|p| - 1] == x;
        PathListed(reg, ts, p, |p| - 1);
        var i :| 0 <= i < |ts| && ts[i].name == x;
        assert ts[i] in ts;
      }
      forall x | Listed(ts, x) ensures Reachable(reg, id, x) {
        var i :| 0 <= i < |ts| && ts[i].name == x;
        assert ts[i] in ts;
      }
    }
  }

  /**
   * An include cycle between `a` and `b` elsewhere in the registry does not
   * stop the analysis of `c`, which refers to neither: ranking `c` alone
   * meets `Ranked`, and the closure of `c` is `c` itself.
   */
  lemma UnrelatedCycleIgnored()
    ensures
      var reg: Registry := map["a" := [Include(["b"])], "b" := [Include(["a"])], "c" := []];
      var rank := map["c" := 0];
      && Ranked(reg, rank) && HasRank(reg, rank, "c")
      && Reachable(reg, "a", "b") && Reachable(reg, "b", "a")
      && Closure(reg, "c", rank) == Ok([Template("c", [])])
  {
    var reg: Registry := map["a" := [Include(["b"])], "b" := [Include(["a"])], "c" := []];
    var rank := map["c" := 0];
    assert Refs(reg["c"]) == [];
    assert RankedAt(reg, rank, "c");
    RefsOfInclude(["b"]);
    RefsOfInclude(["a"]);
    assert IsPath(reg, ["a", "b"]) && IsPath(reg, ["b", "a"]);
    assert ClosureOf(reg, [], rank, 1) == Ok([]);
    assert [] + [Template("c", [])] == [Template("c", [])];
  }

  /**
   * Along a reference chain from a ranked template, every registered name is
   * ranked, and ranked lower than where the chain starts.
   */
  lemma {:induction false} PathRanked(reg: Registry, rank: map<string, nat>, p: seq<string>, k: nat)
    requires Ranked(reg, rank) && IsPath(reg, p) && p[0] in rank && k < |p|
    ensures p[k] in reg ==> p[k] in rank && (k > 0 ==> rank[p[k]] < rank[p[0]])
  {
    if k > 0 {
      PathRanked(reg, rank, p, k - 1);
      assert RankedAt(reg, rank, p[k - 1]);
    }
  }

  /** The only cycles `Ranked` rules out are those a ranked template reaches. */
  lemma NoRankedCycle(reg: Registry, rank: map<string, nat>, p: seq<string>)
    requires Ranked(reg, rank) && IsPath(reg, p) && |p| >= 2 && p[0] in rank
    ensures p[|p| - 1] != p[0]
  {
    PathRanked(reg, rank, p, |p| - 1);
  }

  /** A template that is one `include` refers to exactly its names. */
  lemma RefsOfInclude(ids: seq<string>)
    ensures Refs([Include(ids)]) == ids
  {
    var ns := [Include(ids)];
    assert ns[..0] == [];
    assert SeqMatches(ns, IsImport) == [Include(ids)];
    assert DirectiveRefs([Include(ids)]) == ids + DirectiveRefs([]);
  }

  /* ---------- get_missing_template_vars ---------- */

  /** What `get_missing_template_vars` returns for template `id` of `reg`. */
  function MissingTemplateVars(reg: Registry, id: string, ghost rank: map<string, nat>): Result<seq<string>, DevinitError>
    requires Ranked(reg, rank) && HasRank(reg, rank, id)
  {
    var ts :- Closure(reg, id, rank);
    Ok(MissingVars(ts))
  }

  /** `get_missing_template_vars`. */
  method GetMissingTemplateVars(context: Context, tplName: string, ghost rank: map<string, nat>)
    returns (r: Result<seq<string>, DevinitError>)
    requires Ranked(context.templates, rank) && HasRank(context.templates, rank, tplName)
    ensures r == MissingTemplateVars(context.templates, tplName, rank)
  {
    var tera := context.templates;
    var templates :- GetTemplatesRecursive(tera, tplName, rank);
    var getVars: seq<string> := [];
    var setVars: seq<string> := [];
    for i := 0 to |templates|
      invariant getVars == AllGets(templates[..i])
      invariant setVars == AllSets(templates[..i])
    {
      var gets, keys := TemplateVariables(templates[i]);
      assert templates[..i + 1][..i] == templates[..i] && templates[..i + 1][i] == templates[i];
      getVars := getVars + gets;
      setVars := setVars + keys;
    }
    assert templates[..|templates|] == templates;
    var sorted := SortDedup(getVars);
    return Ok(Unset(sorted, setVars));
  }

  /** One pass of that loop: what one template reads, then what it sets. */
  method TemplateVariables(template: Template) returns (gets: seq<string>, keys: seq<string>)
    ensures gets == TemplateGets(template) && keys == TemplateSets(template)
  {
    var blocks := FindAllMatches(template, IsVariableBlock);
    var blockGets := BlockVariables(blocks.value);
    var sets := FindAllMatches(template, IsSet);
    var setGets;
    setGets, keys := SetVariables(sets.value);
    gets := blockGets + setGets;
  }

  /** The `filter_map` over the `{{ }}` blocks: the variables their expressions read. */
  method BlockVariables(blocks: seq<Node>) returns (gets: seq<string>)
    ensures gets == BlockGets(blocks)
  {
    gets := [];
    for j := 0 to |blocks|
      invariant gets == BlockGets(blocks[..j])
    {
      var n := blocks[j];
      assert blocks[..j + 1][..j] == blocks[..j];
      if n.VariableBlock? {
        var idents := GetExprVariableIdents(n.expr, true);
        gets := gets + BaseNames(idents);
      }
    }
    assert blocks[..|blocks|] == blocks;
  }

  /** The `filter_map` over the `set`s: the variables their values read, and their keys. */
  method SetVariables(sets: seq<Node>) returns (gets: seq<string>, keys: seq<string>)
    ensures gets == SetGets(sets) && keys == SetKeys(sets)
  {
    gets := [];
    keys := [];
    for j := 0 to |sets|
      invariant gets == SetGets(sets[..j])
      invariant keys == SetKeys(sets[..j])
    {
      var n := sets[j];
      assert sets[..j + 1][..j] == sets[..j];
      if n.Set? {
        var idents := GetExprVariableIdents(n.value, true);
        gets := gets + BaseNames(idents);
        keys := keys + [n.key];
      }
    }
    assert sets[..|sets|] == sets;
  }

  /** Some template reachable from `id` has a node that reads `x`. */
  ghost predicate ReadInTree(reg: Registry, id: string, x: string) {
    exists y, n :: Reachable(reg, id, y) && y in reg && InSeq(reg[y], n) && NodeReads(n, x)
  }

  /** Some template reachable from `id` has a `set` of `x`. */
  ghost predicate SetInTree(reg: Registry, id: string, x: string) {
    exists y, n :: Reachable(reg, id, y) && y in reg && InSeq(reg[y], n) && n.Set? && n.key == x
  }

  /** Reading and setting in a closure's list is reading and setting somewhere in the include tree. */
  lemma TreeVarsIff(reg: Registry, id: string, ts: seq<Template>)
    requires Registered(reg, ts)
    requires forall x :: Listed(ts, x) <==> Reachable(reg, id, x)
    ensures forall x :: ReadsVar(ts, x) <==> ReadInTree(reg, id, x)
    ensures forall x :: SetsVar(ts, x) <==> SetInTree(reg, id, x)
  {
    forall x ensures ReadsVar(ts, x) <==> ReadInTree(reg, id, x) {
      if ReadsVar(ts, x) {
        var j, n :| 0 <= j < |ts| && InSeq(ts[j].ast, n) && NodeReads(n, x);
        assert ts[j] in ts && Listed(ts, ts[j].name);
      }
      if ReadInTree(reg, id, x) {
        var y, n :| Reachable(reg, id, y) && y in reg && InSeq(reg[y], n) && NodeReads(n, x);
        var j :| 0 <= j < |ts| && ts[j].name == y;
        assert ts[j] in ts;
      }
    }
    forall x ensures SetsVar(ts, x) <==> SetInTree(reg, id, x) {
      if SetsVar(ts, x) {
        var j, n :| 0 <= j < |ts| && InSeq(ts[j].ast, n) && n.Set? && n.key == x;
        assert ts[j] in ts && Listed(ts, ts[j].name);
      }
      if SetInTree(reg, id, x) {
        var y, n :| Reachable(reg, id, y) && y in reg && InSeq(reg[y], n) && n.Set? && n.key == x;
        var j :| 0 <= j < |ts| && ts[j].name == y;
        assert ts[j] in ts;
      }
    }
  }

  /**
   * The contract of `get_missing_template_vars`: it fails exactly when the
   * include tree reaches an unregistered name, which it reports; otherwise
   * it returns, strictly ascending, exactly the variables that some
   * template of the include tree reads and none sets.
   */
  lemma MissingTemplateVarsSpec(reg: Registry, id: string, rank: map<string, nat>)
    requires Ranked(reg, rank) && HasRank(reg, rank, id)
    ensures MissingTemplateVars(reg, id, rank).Ok? <==> forall x :: Reachable(reg, id, x) ==> x in reg
    ensures MissingTemplateVars(reg, id, rank).Err? ==>
      var e := MissingTemplateVars(reg, id, rank).error;
      e.IdNotFoundError? && e.message !in reg && Reachable(reg, id, e.message)
    ensures MissingTemplateVars(reg, id, rank).Ok? ==>
      var vs := MissingTemplateVars(reg, id, rank).value;
      StrictlyAscending(vs) &&
      forall x :: x in vs <==> ReadInTree(reg, id, x) && !SetInTree(reg, id, x)
  {
    ClosureOkIff(reg, id, rank);
    ClosureShape(reg, id, rank);
    ClosureReachable(reg, id, rank);
    var c := Closure(reg, id, rank);
    if c.Ok? {
      var ts := c.value;
      MissingVarsSpec(ts);
      TreeVarsIff(reg, id, ts);
    }
  }
}
