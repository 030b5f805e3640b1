/** The process environment as `os.getenv` sees it. */
module Environment {
  import opened Wrappers

  type Env = map<string, string>

  /** `os.getenv(name)`. */
  function GetEnv(env: Env, name: string): (r: Option<string>)
    ensures r.Some? <==> name in env
    ensures r.Some? ==> r.value == env[name]
  {
    if name in env then Some(env[name]) else None
  }

  /** `os.getenv(name, default)`: a variable set to the empty string still wins over the default. */
  function GetEnvOr(env: Env, name: string, default: string): (r: string)
    ensures name in env ==> r == env[name]
    ensures name !in env ==> r == default
  {
    GetEnv(env, name).GetOr(default)
  }

  /** Python truthiness of an optional string: present and non-empty. */
  predicate Truthy(s: Option<string>) {
    s.Some? && |s.value| > 0
  }

  /** `if os.getenv(name):` */
  predicate IsSet(env: Env, name: string) {
    Truthy(GetEnv(env, name))
  }

  /** Python's `a or b` on optional strings. */
  function OrElse(a: Option<string>, b: Option<string>): (r: Option<string>)
    ensures Truthy(a) ==> r == a
    ensures !Truthy(a) ==> r == b
  {
    if Truthy(a) then a else b
  }
}
