/** The built-in variables a renderer provides to every template. */
module BuiltIns {
  /** The identifier under which templates reach the built-in variables. */
  const BUILTIN_VARIABLES_IDENT: string := "BUILTIN"

  /** `BuiltinVariables`: the output file's name and its previous contents. */
  datatype BuiltinVariables = BuiltinVariables(fileName: string, fileContents: string)
}
