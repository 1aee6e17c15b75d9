/**
 * Renderers of the converged registry: a renderer holds one template, the
 * shared engine and its own variables, and renders the template's bodies
 * from the engine.
 */
module Renderers {
  import opened Wrappers
  import opened Errors
  import opened BuiltIns
  import opened TemplateContext
  import FileTemplates
  import ProjectTemplates

  /** The variables with `key` bound to the text `val`, replacing any earlier binding. */
  function WithVariable(b: Bindings, key: string, val: string): (b': Bindings)
    ensures key in b' && b'[key] == Str(val)
    ensures forall k :: k != key ==> (k in b' <==> k in b) && (k in b ==> b'[k] == b[k])
  {
    b[key := Str(val)]
  }

  /** The variables with the built-ins bound under `BUILTIN`, replacing any earlier binding. */
  function WithBuiltins(b: Bindings, defs: BuiltinVariables): (b': Bindings)
    ensures BUILTIN_VARIABLES_IDENT in b' && b'[BUILTIN_VARIABLES_IDENT] == Builtins(defs)
    ensures forall k :: k != BUILTIN_VARIABLES_IDENT ==> (k in b' <==> k in b) && (k in b ==> b'[k] == b[k])
  {
    b[BUILTIN_VARIABLES_IDENT := Builtins(defs)]
  }

  /** An engine render, its error reported as a render error. */
  function AsRenderError(r: Result<string, string>): (r': Result<string, DevinitError>)
    ensures r'.Ok? <==> r.Ok?
    ensures r.Ok? ==> r'.value == r.value
    ensures r.Err? ==> r'.error == TemplateRenderError(r.error)
  {
    if r.Ok? then Ok(r.value) else Err(TemplateRenderError(r.error))
  }

  /** A user variable named `BUILTIN` is replaced by the built-ins once they are set. */
  lemma BuiltinsShadowVariable(b: Bindings, val: string, defs: BuiltinVariables)
    ensures WithBuiltins(WithVariable(b, BUILTIN_VARIABLES_IDENT, val), defs) == WithBuiltins(b, defs)
  {
  }

  /** Variables of different names can be added in either order. */
  lemma VariablesCommute(b: Bindings, k1: string, v1: string, k2: string, v2: string)
    requires k1 != k2
    ensures WithVariable(WithVariable(b, k1, v1), k2, v2) == WithVariable(WithVariable(b, k2, v2), k1, v1)
  {
  }

  /** A renderer for file templates. */
  class FileRenderer {
    const ctx: Context
    const template: FileTemplates.FileTemplate
    /** The renderer's own variables (`var_context`). */
    var bindings: Bindings

    /** `FileRenderer::new`: no variables yet; it cannot fail. */
    constructor (template: FileTemplates.FileTemplate, ctx: Context)
      ensures this.template == template && this.ctx == ctx && bindings == map[]
    {
      this.template := template;
      this.ctx := ctx;
      bindings := map[];
    }

    /** `add_variable`. */
    method AddVariable(key: string, val: string)
      modifies this
      ensures bindings == WithVariable(old(bindings), key, val)
    {
      bindings := bindings[key := Str(val)];
    }

    /** `set_builtin_variables`. */
    method SetBuiltinVariables(defs: BuiltinVariables)
      modifies this
      ensures bindings == WithBuiltins(old(bindings), defs)
    {
      bindings := bindings[BUILTIN_VARIABLES_IDENT := Builtins(defs)];
    }

    /**
     * `render`: the engine's template named after the file template,
     * rendered with the renderer's variables; an engine error is a render
     * error.
     */
    function Render(): (r: Result<string, DevinitError>)
      reads this, ctx
      ensures r.Ok? <==> ctx.Render(template.name, bindings).Ok?
      ensures r.Ok? ==> r.value == ctx.Render(template.name, bindings).value
      ensures r.Err? ==> r.error == TemplateRenderError(ctx.Render(template.name, bindings).error)
    {
      AsRenderError(ctx.Render(template.name, bindings))
    }
  }

  /** A renderer for project templates. */
  class ProjectRenderer {
    const ctx: Context
    const template: ProjectTemplates.ProjectTemplate
    /** The renderer's own variables (`var_context`). */
    var bindings: Bindings

    /** `ProjectRenderer::new`: no variables yet; it cannot fail. */
    constructor (template: ProjectTemplates.ProjectTemplate, ctx: Context)
      ensures this.template == template && this.ctx == ctx && bindings == map[]
    {
      this.template := template;
      this.ctx := ctx;
      bindings := map[];
    }

    /** `add_variable`. */
    method AddVariable(key: string, val: string)
      modifies this
      ensures bindings == WithVariable(old(bindings), key, val)
    {
      bindings := bindings[key := Str(val)];
    }

    /** `set_builtin_variables`: the previous built-ins removed, then the new ones bound. */
    method SetBuiltinVariables(defs: BuiltinVariables)
      modifies this
      ensures bindings == WithBuiltins(old(bindings), defs)
    {
      bindings := bindings - {BUILTIN_VARIABLES_IDENT};
      bindings := bindings[BUILTIN_VARIABLES_IDENT := Builtins(defs)];
    }

    /** The rendering of the member that is written to `outpath`. */
    function RenderOutput(outpath: string): (r: Result<string, DevinitError>)
      reads this, ctx
    {
      AsRenderError(ctx.Render(ProjectTemplates.MemberId(template.name, outpath), bindings))
    }

    /**
     * `render`: every output path of the template's literals rendered from
     * its member, in the map's own order, the first failure aborting. The
     * result has exactly the template's output paths; it fails exactly when
     * some member does not render, and then with one such member's error.
     */
    method Render() returns (r: Result<map<string, string>, DevinitError>)
      ensures r.Ok? <==> forall k :: k in template.literals ==> RenderOutput(k).Ok?
      ensures r.Ok? ==> r.value.Keys == template.literals.Keys
      ensures r.Ok? ==> forall k :: k in r.value ==> RenderOutput(k) == Ok(r.value[k])
      ensures r.Err? ==> exists k :: k in template.literals && RenderOutput(k) == Err(r.error)
    {
      var left := template.literals.Keys;
      var out: map<string, string> := map[];
      while left != {}
        invariant left <= template.literals.Keys
        invariant out.Keys == template.literals.Keys - left
        invariant forall k :: k in out ==> RenderOutput(k) == Ok(out[k])
        decreases left
      {
        var outpath :| outpath in left;
        var rendered := RenderOutput(outpath);
        if rendered.Err? {
          return Err(rendered.error);
        }
        out := out[outpath := rendered.value];
        left := left - {outpath};
      }
      return Ok(out);
    }
  }
}
