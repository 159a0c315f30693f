/** The process environment as the program sees it through `os.environ`:
    a finite map from variable names to their (possibly empty) values. */
module Environment {

  datatype Option<T> = None | Some(value: T)

  type Env = map<string, string>

  /** `os.environ.get(name, default)`. */
  function GetOr(env: Env, name: string, default: string): string
  {
    if name in env then env[name] else default
  }

  /** Python truthiness of an optional string: None and "" are both false. */
  predicate Truthy(v: Option<string>)
  {
    v.Some? && v.value != ""
  }

  /** The variable is set to a non-empty value. */
  predicate IsSet(env: Env, name: string)
  {
    name in env && env[name] != ""
  }
}
