/**
 * The part of the Tera engine's syntax tree that the missing-variable
 * analyser inspects. Tera's parser is outside the model: a template is
 * given as its parsed node list. Positions, whitespace control, filters and
 * the condition expressions of `if` are dropped because the analyser never
 * reads them.
 */
module TeraAst {
  /** `ExprVal`, reduced to the kinds the analyser distinguishes. */
  datatype Expr =
    | Ident(name: string)
    | MacroCall(args: seq<Expr>)
    | FunctionCall(args: seq<Expr>)
    | Array(items: seq<Expr>)
    | OtherExpr

  /** `Node`, reduced to the kinds the analyser distinguishes. */
  datatype Node =
    | VariableBlock(expr: Expr)
    | Set(key: string, value: Expr)
    | Include(ids: seq<string>)
    | Extends(parent: string)
    | MacroDefinition(body: seq<Node>)
    | FilterSection(body: seq<Node>)
    | Block(body: seq<Node>)
    | Forloop(body: seq<Node>, emptyBody: OptionalBody)
    | If(conditions: seq<Branch>, otherwise: OptionalBody)
    | OtherNode

  /** One `if`/`elif` arm: its condition (not modelled) and its body. */
  datatype Branch = Branch(body: seq<Node>)

  /** The `Option<Vec<Node>>` of a `for`'s empty body or an `if`'s `else`. */
  datatype OptionalBody = Absent | Present(nodes: seq<Node>)

  /** A parsed template: `Template::ast`. */
  type Ast = seq<Node>

  /** A template of the engine's registry: its name and its tree. */
  datatype Template = Template(name: string, ast: Ast)

  /** The engine's registry of parsed templates (`Tera::templates`). */
  type Registry = map<string, Ast>
}
