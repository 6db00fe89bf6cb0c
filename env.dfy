/** The process environment as both services read it: `os.Getenv` gives
    `""` for a variable that is unset, so unset and set-to-empty cannot be
    told apart, and the sync service's `getEnv` falls back on a default in
    both cases. */
module Env {

  type Environment = map<string, string>

  /** `os.Getenv`. */
  function Getenv(env: Environment, name: string): string
  {
    if name in env then env[name] else ""
  }

  /** `getEnv(key, fallback)`: the variable's value when it is non-empty,
      the fallback otherwise. */
  function GetEnv(env: Environment, key: string, fallback: string): (v: string)
    ensures Getenv(env, key) != "" ==> v == env[key]
    ensures Getenv(env, key) == "" ==> v == fallback
    ensures v == "" ==> fallback == ""
  {
    var value := Getenv(env, key);
    if value != "" then value else fallback
  }

  /** An empty variable reads like a missing one. */
  lemma EmptyIsUnset(env: Environment, key: string, fallback: string)
    requires key in env && env[key] == ""
    ensures GetEnv(env, key, fallback) == GetEnv(env - {key}, key, fallback)
  {
  }
}
