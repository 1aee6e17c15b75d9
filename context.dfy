/**
 * The shared templating context: one Tera instance holding every template
 * that has been loaded. Tera's parser and renderer are outside the model and
 * enter as functions fixed when the context is made.
 */
module TemplateContext {
  import opened Wrappers
  import opened TeraAst
  import opened BuiltIns

  /** A value bound in a Tera rendering context. */
  datatype Value = Str(s: string) | Builtins(b: BuiltinVariables)

  /** A Tera rendering context: variable name to value. */
  type Bindings = map<string, Value>

  /** Tera's template parser: the tree of a source text, or the parse error. */
  type Parser = string -> Result<Ast, string>

  /** Tera's renderer: render the named template of a registry with some bindings. */
  type Renderer = (Registry, string, Bindings) -> Result<string, string>

  class Context {
    /** `Tera::templates`, by template name. */
    var templates: Registry
    const parse: Parser
    const render: Renderer

    /** `Context::new`: an engine with no templates. */
    constructor (parse: Parser, render: Renderer)
      ensures templates == map[]
      ensures this.parse == parse && this.render == render
    {
      templates := map[];
      this.parse := parse;
      this.render := render;
    }

    /**
     * `Tera::add_raw_template`: parse `content` and register it under
     * `name`, replacing any template of that name; on a parse error the
     * registry is left as it was.
     */
    method AddRawTemplate(name: string, content: string) returns (r: Result<(), string>)
      modifies this
      ensures parse(content).Ok? ==> r == Ok(()) && templates == old(templates)[name := parse(content).value]
      ensures parse(content).Err? ==> r == Err(parse(content).error) && templates == old(templates)
    {
      var parsed := parse(content);
      if parsed.Err? {
        return Err(parsed.error);
      }
      templates := templates[name := parsed.value];
      return Ok(());
    }

    /** `Tera::render` of template `name` against the current registry. */
    function Render(name: string, bindings: Bindings): Result<string, string>
      reads this
    {
      render(templates, name, bindings)
    }
  }
}
