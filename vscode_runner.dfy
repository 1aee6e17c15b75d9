/**
 * The editor extension's command builder: a runner collects the options of
 * one `devinit` invocation through chained setters and turns them into the
 * command line that is run.
 */
module VscodeRunner {
  import opened Wrappers
  import opened Text

  /** `RunnerSubcommandVariant`. */
  datatype Subcommand = File | Project | List

  /** The subcommand as it is written on the command line. */
  function SubcommandText(s: Subcommand): string {
    match s
    case File => "file"
    case Project => "project"
    case List => "list"
  }

  /** `RunnerOutputType`. */
  datatype OutputType = ToPath | DryRun | ListVars

  /* ---------- the variables: an insertion-ordered map ---------- */

  /** A `Map<string, string>`: its entries in the order their keys were first set. */
  type Variables = Table<string>

  predicate DistinctKeys(v: Variables) {
    forall i, j :: 0 <= i < j < |v| ==> v[i].0 != v[j].0
  }

  /**
   * `Map.set`: a key already present keeps its place and takes the new
   * value; a new key is appended.
   */
  function SetVar(v: Variables, key: string, val: string): (v': Variables)
    ensures |v| <= |v'| && forall i :: 0 <= i < |v| ==> v'[i].0 == v[i].0
  {
    match FindIndex(v, key)
    case Some(i) => v[i := (key, val)]
    case None => v + [(key, val)]
  }

  /** Setting keeps the keys distinct. */
  lemma SetVarDistinct(v: Variables, key: string, val: string)
    requires DistinctKeys(v)
    ensures DistinctKeys(SetVar(v, key, val))
  {
  }

  /** In a table with distinct keys, the entry of a key is the one found. */
  lemma DistinctFind(v: Variables, i: nat)
    requires DistinctKeys(v) && i < |v|
    ensures Find(v, v[i].0) == Some(v[i].1)
  {
    var k := FindIndex(v, v[i].0);
    assert k.Some? && k.value <= i;
  }

  /**
   * After setting, the key has the new value and every other key its old
   * one; an existing key keeps its place and a new one comes last.
   */
  lemma SetVarGet(v: Variables, key: string, val: string, other: string)
    requires DistinctKeys(v)
    ensures Find(SetVar(v, key, val), key) == Some(val)
    ensures other != key ==> Find(SetVar(v, key, val), other) == Find(v, other)
    ensures Find(v, key).None? ==> SetVar(v, key, val)[|v|] == (key, val)
  {
    var v' := SetVar(v, key, val);
    SetVarDistinct(v, key, val);
    var f := FindIndex(v, key);
    var i := if f.Some? then f.value else |v|;
    assert v'[i] == (key, val);
    DistinctFind(v', i);
    if other != key {
      var g, g' := FindIndex(v, other), FindIndex(v', other);
      if g.Some? {
        assert v'[g.value].0 == other;
      }
      if g'.Some? && g'.value < |v| {
        assert v[g'.value].0 == other;
      }
    }
  }

  /** Setting a key twice is setting it once, to the later value. */
  lemma SetVarOverwrites(v: Variables, key: string, val: string, val': string)
    ensures SetVar(SetVar(v, key, val), key, val') == SetVar(v, key, val')
  {
    var once := SetVar(v, key, val);
    var f := FindIndex(v, key);
    if f.Some? {
      assert FindIndex(once, key) == f by {
        assert once[f.value].0 == key;
      }
    } else {
      assert FindIndex(once, key) == Some(|v|) by {
        assert once[|v|].0 == key;
      }
    }
  }

  /* ---------- the arguments ---------- */

  /** The options a runner holds, other than the executable. */
  datatype Settings = Settings(
    configPath: Option<string>,
    subcommand: Subcommand,
    outputType: OutputType,
    outputPath: Option<string>,
    variables: Variables,
    templateName: Option<string>)

  /** A text in double quotes: `"…"`. */
  function Quoted(s: string): string {
    "\"" + s + "\""
  }

  /** `x ?? ""`. */
  function OrEmpty(x: Option<string>): string {
    if x.Some? then x.value else ""
  }

  /** `--config="…"`. */
  function ConfigArg(path: string): string {
    "--config=" + Quoted(path)
  }

  /** `--path="…"`, `--dry-run` or `--list-vars`. */
  function OutputArg(t: OutputType, path: Option<string>): string {
    match t
    case ToPath => "--path=" + Quoted(OrEmpty(path))
    case DryRun => "--dry-run"
    case ListVars => "--list-vars"
  }

  /** `-D"key"="value"`. */
  function Define(e: (string, string)): string {
    "-D" + Quoted(e.0) + "=" + Quoted(e.1)
  }

  function Defines(v: Variables): (ds: seq<string>)
    ensures |ds| == |v| && forall k :: 0 <= k < |v| ==> ds[k] == Define(v[k])
  {
    if v == [] then [] else Defines(v[..|v| - 1]) + [Define(v[|v| - 1])]
  }

  function ConfigArgs(c: Option<string>): seq<string> {
    if c.Some? then [ConfigArg(c.value)] else []
  }

  /**
   * The arguments `buildArgs` gives: the configuration file if one is set,
   * the subcommand, and unless it lists templates, the output option, one
   * definition per variable and the template name.
   */
  function Args(s: Settings): seq<string> {
    ConfigArgs(s.configPath) + [SubcommandText(s.subcommand)]
    + if s.subcommand == List then []
      else [OutputArg(s.outputType, s.outputPath)] + Defines(s.variables) + [Quoted(OrEmpty(s.templateName))]
  }

  /** The arguments that choose the output: a path, a dry run or the variable listing. */
  predicate IsOutputFlag(a: string) {
    a == "--dry-run" || a == "--list-vars" || (|a| >= 7 && a[..7] == "--path=")
  }

  function CountOutputFlags(args: seq<string>): nat {
    if args == [] then 0 else (if IsOutputFlag(args[0]) then 1 else 0) + CountOutputFlags(args[1..])
  }

  lemma {:induction false} CountOutputFlagsAppend(a: seq<string>, b: seq<string>)
    ensures CountOutputFlags(a + b) == CountOutputFlags(a) + CountOutputFlags(b)
  {
    if a == [] {
      assert a + b == b;
    } else {
      assert (a + b)[0] == a[0] && (a + b)[1..] == a[1..] + b;
      CountOutputFlagsAppend(a[1..], b);
    }
  }

  /** Only arguments starting `--` followed by `d`, `l` or `p` can choose the output. */
  lemma NotOutputFlag(a: string)
    requires |a| < 3 || a[0] != '-' || a[1] != '-' || (a[2] != 'd' && a[2] != 'l' && a[2] != 'p')
    ensures !IsOutputFlag(a)
  {
  }

  lemma {:induction false} NoOutputFlags(args: seq<string>)
    requires forall k :: 0 <= k < |args| ==> !IsOutputFlag(args[k])
    ensures CountOutputFlags(args) == 0
  {
    if args != [] {
      NoOutputFlags(args[1..]);
    }
  }

  /** A configuration argument starts with `--config=`. */
  predicate IsConfigArg(a: string) {
    |a| >= 9 && a[..9] == "--config="
  }

  /** `--config="…"` comes first exactly when a configuration file is set. */
  lemma ArgsConfigFirst(s: Settings)
    ensures IsConfigArg(Args(s)[0]) <==> s.configPath.Some?
    ensures s.configPath.Some? ==> Args(s)[0] == ConfigArg(s.configPath.value)
  {
    if s.configPath.None? {
      assert Args(s)[0] == SubcommandText(s.subcommand);
    } else {
      assert Args(s)[0] == ConfigArg(s.configPath.value);
      assert Args(s)[0][..9] == "--config=";
    }
  }

  /** Listing templates takes no option but the configuration file. */
  lemma ArgsOfList(s: Settings)
    requires s.subcommand == List
    ensures s.configPath.None? ==> Args(s) == ["list"]
    ensures s.configPath.Some? ==> Args(s) == [ConfigArg(s.configPath.value), "list"]
  {
    assert Args(s) == ConfigArgs(s.configPath) + ["list"];
  }

  /**
   * Any other subcommand: the output option right after it, the variables'
   * definitions in map order, the template name (`""` when unset) last.
   */
  lemma ArgsOfRender(s: Settings)
    requires s.subcommand != List
    ensures var c := |ConfigArgs(s.configPath)|;
      && |Args(s)| == c + 3 + |s.variables|
      && Args(s)[c] == SubcommandText(s.subcommand)
      && Args(s)[c + 1] == OutputArg(s.outputType, s.outputPath)
      && (forall k :: 0 <= k < |s.variables| ==> Args(s)[c + 2 + k] == Define(s.variables[k]))
      && Args(s)[|Args(s)| - 1] == Quoted(OrEmpty(s.templateName))
  {
    var c := |ConfigArgs(s.configPath)|;
    var tail := [OutputArg(s.outputType, s.outputPath)] + Defines(s.variables) + [Quoted(OrEmpty(s.templateName))];
    assert Args(s) == ConfigArgs(s.configPath) + [SubcommandText(s.subcommand)] + tail;
    forall k | 0 <= k < |s.variables| ensures Args(s)[c + 2 + k] == Define(s.variables[k]) {
      assert Args(s)[c + 2 + k] == tail[1 + k] == Defines(s.variables)[k];
    }
  }

  /**
   * Exactly one output option is passed for a subcommand that renders, and
   * none for the listing.
   */
  lemma ArgsOutputFlags(s: Settings)
    ensures CountOutputFlags(Args(s)) == if s.subcommand == List then 0 else 1
  {
    var cs := ConfigArgs(s.configPath);
    var sub := [SubcommandText(s.subcommand)];
    forall k | 0 <= k < |cs| ensures !IsOutputFlag(cs[k]) {
      assert cs[k][2] == 'c';
      NotOutputFlag(cs[k]);
    }
    NotOutputFlag(sub[0]);
    NoOutputFlags(cs);
    NoOutputFlags(sub);
    CountOutputFlagsAppend(cs, sub);
    if s.subcommand != List {
      var out := [OutputArg(s.outputType, s.outputPath)];
      var ds := Defines(s.variables);
      var name := [Quoted(OrEmpty(s.templateName))];
      assert IsOutputFlag(out[0]) by {
        if s.outputType == ToPath { assert out[0][..7] == "--path="; }
      }
      assert CountOutputFlags(out) == 1 by { assert out[1..] == []; }
      forall k | 0 <= k < |ds| ensures !IsOutputFlag(ds[k]) {
        assert ds[k][1] == 'D';
        NotOutputFlag(ds[k]);
      }
      NoOutputFlags(ds);
      assert name[0][0] == '"';
      NotOutputFlag(name[0]);
      NoOutputFlags(name);
      CountOutputFlagsAppend(cs + sub, out + ds + name);
      CountOutputFlagsAppend(out + ds, name);
      CountOutputFlagsAppend(out, ds);
      assert Args(s) == (cs + sub) + (out + ds + name);
    } else {
      assert Args(s) == cs + sub;
    }
  }

  /* ---------- the command ---------- */

  /** The command `run` executes: the quoted executable, then the arguments joined by single spaces. */
  function Command(execPath: string, args: seq<string>): string {
    Quoted(execPath) + " " + Join(args, " ")
  }

  /** Without spaces inside the executable's path or any argument, the command splits back into them. */
  lemma CommandSplits(execPath: string, args: seq<string>)
    requires args != [] && ' ' !in execPath && forall k :: 0 <= k < |args| ==> ' ' !in args[k]
    ensures Split(Command(execPath, args), ' ') == [Quoted(execPath)] + args
  {
    var parts := [Quoted(execPath)] + args;
    assert parts[0] == Quoted(execPath) && parts[1..] == args && |parts| > 1;
    assert Join(parts, " ") == Command(execPath, args);
    forall k | 0 <= k < |parts| ensures ' ' !in parts[k] {
      if k > 0 { assert parts[k] == args[k - 1]; }
    }
    SplitJoin(parts, ' ');
  }

  /** The arguments are never empty: the subcommand is always there. */
  lemma ArgsNonEmpty(s: Settings)
    ensures |Args(s)| >= 1 && SubcommandText(s.subcommand) in Args(s)
  {
    assert Args(s)[|ConfigArgs(s.configPath)|] == SubcommandText(s.subcommand);
  }

  /** `variables.forEach(… args.push(…))`: one definition per entry, in map order. */
  method PushDefines(args: seq<string>, vars: Variables) returns (args': seq<string>)
    ensures args' == args + Defines(vars)
  {
    args' := args;
    var i := 0;
    while i < |vars|
      invariant 0 <= i <= |vars|
      invariant args' == args + Defines(vars[..i])
    {
      assert vars[..i + 1][..i] == vars[..i];
      args' := args' + [Define(vars[i])];
      i := i + 1;
    }
    assert vars[..i] == vars;
  }

  /** `Runner`: the options of one invocation, set one at a time. */
  class Runner {
    var execPath: string
    var configPath: Option<string>
    var subcommand: Subcommand
    var outputType: OutputType
    var outputPath: Option<string>
    var variables: Variables
    var templateName: Option<string>

    ghost predicate Valid()
      reads this
    {
      DistinctKeys(variables)
    }

    function ToSettings(): Settings
      reads this
    {
      Settings(configPath, subcommand, outputType, outputPath, variables, templateName)
    }

    /** The field initialisers: empty executable path, `file`, output to a path, nothing else set. */
    constructor ()
      ensures Valid() && execPath == ""
      ensures ToSettings() == Settings(None, File, ToPath, None, [], None)
    {
      execPath := "";
      configPath := None;
      subcommand := File;
      outputType := ToPath;
      outputPath := None;
      variables := [];
      templateName := None;
    }

    method SetExecPath(path: string) returns (r: Runner)
      modifies this
      ensures r == this && execPath == path && ToSettings() == old(ToSettings())
    {
      execPath := path;
      r := this;
    }

    method SetConfigPath(path: string) returns (r: Runner)
      modifies this
      ensures r == this && execPath == old(execPath)
      ensures ToSettings() == old(ToSettings()).(configPath := Some(path))
    {
      configPath := Some(path);
      r := this;
    }

    method SetSubcommand(subcommand: Subcommand) returns (r: Runner)
      modifies this
      ensures r == this && execPath == old(execPath)
      ensures ToSettings() == old(ToSettings()).(subcommand := subcommand)
    {
      this.subcommand := subcommand;
      r := this;
    }

    method SetOutputType(t: OutputType) returns (r: Runner)
      modifies this
      ensures r == this && execPath == old(execPath)
      ensures ToSettings() == old(ToSettings()).(outputType := t)
    {
      outputType := t;
      r := this;
    }

    method SetOutputPath(path: string) returns (r: Runner)
      modifies this
      ensures r == this && execPath == old(execPath)
      ensures ToSettings() == old(ToSettings()).(outputPath := Some(path))
    {
      outputPath := Some(path);
      r := this;
    }

    /** `setVariable`: `Map.set` on the variables. */
    method SetVariable(id: string, val: string) returns (r: Runner)
      requires Valid()
      modifies this
      ensures Valid() && r == this && execPath == old(execPath)
      ensures ToSettings() == old(ToSettings()).(variables := SetVar(old(variables), id, val))
    {
      SetVarDistinct(variables, id, val);
      variables := SetVar(variables, id, val);
      r := this;
    }

    method SetTemplateName(name: string) returns (r: Runner)
      modifies this
      ensures r == this && execPath == old(execPath)
      ensures ToSettings() == old(ToSettings()).(templateName := Some(name))
    {
      templateName := Some(name);
      r := this;
    }

    /** `buildArgs`: the arguments pushed one by one, the variables in map order. */
    method BuildArgs() returns (args: seq<string>)
      ensures args == Args(ToSettings())
    {
      args := [];
      if configPath.Some? {
        args := args + [ConfigArg(configPath.value)];
      }
      args := args + [SubcommandText(subcommand)];
      if subcommand == List {
        return;
      }
      args := args + [OutputArg(outputType, outputPath)];
      args := PushDefines(args, variables);
      args := args + [Quoted(OrEmpty(templateName))];
    }

    /** `run`: the command line built; starting the process is not part of the model. */
    method Run() returns (cmd: string)
      ensures cmd == Command(execPath, Args(ToSettings()))
    {
      var args := BuildArgs();
      cmd := Quoted(execPath) + " " + Join(args, " ");
    }
  }

  /** A fresh runner renders with `file`, an empty output path and an empty template name. */
  lemma DefaultArgs()
    ensures Args(Settings(None, File, ToPath, None, [], None)) == ["file", "--path=\"\"", "\"\""]
  {
    assert Quoted("") == "\"\"";
    assert OutputArg(ToPath, None) == "--path=\"\"";
  }
}
