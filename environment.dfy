/** The process environment, given as a map from variable names to values. */
module Environment {

  /** `str(os.getenv(name))`: the variable's value, or the text "None" when it is unset. */
  function HomeDirectory(env: map<string, string>, name: string): (h: string)
    ensures name in env ==> h == env[name]
    ensures name !in env ==> h == "None"
  {
    if name in env then env[name] else "None"
  }
}
