/** The sync service's `config.Load`: the database URL is required, the
    port and the environment name have defaults. */
module SyncConfig {
  import opened Wrappers
  import opened Env

  datatype Config = Config(databaseURL: string, port: string, environment: string)

  const DatabaseURLRequired: string := "DATABASE_URL environment variable is required"

  /** `Load`: fails exactly when `DATABASE_URL` is empty or unset; otherwise
      every field is non-empty, the URL is the variable's value, and the
      port and the environment come from `PORT` and `ENVIRONMENT` or fall
      back on `"3001"` and `"development"`. */
  function Load(env: Environment): (r: Result<Config, string>)
    ensures r.Failure? <==> Getenv(env, "DATABASE_URL") == ""
    ensures r.Failure? ==> r.error == DatabaseURLRequired
    ensures r.Success? ==>
      && r.value.databaseURL == env["DATABASE_URL"]
      && r.value.port == GetEnv(env, "PORT", "3001")
      && r.value.environment == GetEnv(env, "ENVIRONMENT", "development")
      && r.value.port != "" && r.value.environment != ""
  {
    var databaseURL := Getenv(env, "DATABASE_URL");
    if databaseURL == "" then Failure(DatabaseURLRequired)
    else Success(Config(databaseURL, GetEnv(env, "PORT", "3001"), GetEnv(env, "ENVIRONMENT", "development")))
  }

  /** With only the database URL set, both defaults apply. */
  lemma DefaultsWhenUnset(url: string)
    requires url != ""
    ensures Load(map["DATABASE_URL" := url]) == Success(Config(url, "3001", "development"))
  {
    var env := map["DATABASE_URL" := url];
    assert "PORT" !in env && "ENVIRONMENT" !in env;
  }
}
