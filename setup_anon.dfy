/** The anonymous-key setup script: it reads the project URL and the public anon key from
    `.env.local` with the same line parser as the admin script and exits unless both are
    set. */
module SetupAnon {
  import opened Wrappers
  import opened EnvFile
  import opened Text

  const URL_VAR := "NEXT_PUBLIC_SUPABASE_URL"
  const ANON_KEY_VAR := "NEXT_PUBLIC_SUPABASE_ANON_KEY"

  /** Reads the credentials, or `None` where the script exits with "Missing Supabase
      environment variables". */
  method LoadConfig(content: string) returns (config: Option<(string, string)>)
    ensures var env := ParseEnv(content);
      config.Some? <==> HasValue(env, URL_VAR) && HasValue(env, ANON_KEY_VAR)
    ensures var env := ParseEnv(content);
      config.Some? ==> config.value == (env[URL_VAR], env[ANON_KEY_VAR])
  {
    var env := LoadEnv(content);
    config := RequireVars(env, URL_VAR, ANON_KEY_VAR);
  }

  /** The script goes on when the last line assigning each variable gives it a non-empty
      value, whatever the earlier lines said. */
  lemma ProceedsOnLastAssignments(content: string, j: nat, url: string, k: nat, anonKey: string)
    requires var lines := Split(content, '\n');
      j < |lines| && ParseLine(lines[j]) == Some((URL_VAR, url)) && url != "" &&
      (forall m :: j < m < |lines| ==> !AssignsKey(Entries(lines), m, URL_VAR)) &&
      k < |lines| && ParseLine(lines[k]) == Some((ANON_KEY_VAR, anonKey)) && anonKey != "" &&
      (forall m :: k < m < |lines| ==> !AssignsKey(Entries(lines), m, ANON_KEY_VAR))
    ensures RequireVars(ParseEnv(content), URL_VAR, ANON_KEY_VAR) == Some((url, anonKey))
  {
    ValueFromLastLine(content, j, URL_VAR, url);
    ValueFromLastLine(content, k, ANON_KEY_VAR, anonKey);
  }
}
