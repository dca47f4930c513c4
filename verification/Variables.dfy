/** Names of data that stand for the value of a parameter: "$x" for what x is set to. */
module Variables {
  import opened Options

  /** The parameters' variables, when there are parameters; an unset variable is the empty string. */
  type Vars = Option<string -> string>

  predicate IsVar(vars: Vars, id: string) {
    id != "" && id[0] == '$' && vars.Some?
  }

  function VarOf(vars: Vars, id: string): string
    requires IsVar(vars, id)
  {
    vars.value(id[1..])
  }
}
