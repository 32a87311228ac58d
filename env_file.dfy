/** The `.env.local` format read by the setup scripts: one `KEY=value` assignment per line,
    blank lines and `#` comments ignored, key and value trimmed, the last assignment of a
    key winning. The file's contents are a parameter; reading the file is not modelled. */
module EnvFile {
  import opened Wrappers
  import opened Text

  /** The assignment a line makes, if any: `trimmed.split('=')` gives the key and the
      value parts, and the value parts are joined back with `=`. */
  function ParseLine(line: string): Option<(string, string)> {
    var trimmed := Trim(line);
    if trimmed != "" && !StartsWith(trimmed, "#") then
      var parts := Split(trimmed, '=');
      var key := parts[0];
      var valueParts := parts[1..];
      if key != "" && |valueParts| > 0 then
        Some((Trim(key), Trim(Join(valueParts, "="))))
      else
        None
    else
      None
  }

  /** What a line means: nothing for a blank line, a comment, a line without `=` or a line
      whose first `=` comes first; otherwise the trimmed text before the first `=` is the
      key and the trimmed text after it, later `=` included, is the value. */
  lemma ParseLineMeaning(line: string)
    ensures var t := Trim(line);
      ParseLine(line) ==
        if t == "" || StartsWith(t, "#") || '=' !in t || IndexOf(t, '=') == 0 then None
        else Some((Trim(t[..IndexOf(t, '=')]), Trim(t[IndexOf(t, '=') + 1..])))
  {
    var t := Trim(line);
    if t != "" && !StartsWith(t, "#") {
      var parts := Split(t, '=');
      SplitFirst(t, '=');
      if '=' !in t {
        assert multiset(t)['='] == 0;
        assert |parts[1..]| == 0;
      } else {
        var i := IndexOf(t, '=');
        assert multiset(t)['='] > 0;
        assert |parts[1..]| > 0;
        assert parts[0] == t[..i];
        SplitRest(t, '=');
        assert Join(parts[1..], "=") == t[i + 1..];
      }
    }
  }

  /** Keys are non-empty and contain no `=`; keys and values are trimmed. */
  lemma ParsedLineShape(line: string)
    requires ParseLine(line).Some?
    ensures var (key, value) := ParseLine(line).value;
      key != "" && '=' !in key && IsTrimmed(key) && IsTrimmed(value)
  {
    ParseLineMeaning(line);
    var t := Trim(line);
    var i := IndexOf(t, '=');
    assert !IsSpace(t[..i][0]);
    assert Trim(t[..i]) != "";
  }

  /** The assignment of each line, in file order. */
  function Entries(lines: seq<string>): (r: seq<Option<(string, string)>>)
    ensures |r| == |lines| && forall j :: 0 <= j < |lines| ==> r[j] == ParseLine(lines[j])
  {
    seq(|lines|, j requires 0 <= j < |lines| => ParseLine(lines[j]))
  }

  /** `env` after one line's assignment, if it makes one. */
  function Apply(env: map<string, string>, entry: Option<(string, string)>): map<string, string> {
    match entry
    case Some((key, value)) => env[key := value]
    case None => env
  }

  /** The map after the given assignments, applied first to last. */
  function EnvOf(entries: seq<Option<(string, string)>>): map<string, string>
  {
    if entries == [] then map[]
    else Apply(EnvOf(entries[..|entries| - 1]), entries[|entries| - 1])
  }

  /** `loadEnv` on the file's contents. */
  function ParseEnv(content: string): map<string, string> {
    EnvOf(Entries(Split(content, '\n')))
  }

  /** Entry `j` assigns `key`. */
  predicate AssignsKey(entries: seq<Option<(string, string)>>, j: int, key: string) {
    0 <= j < |entries| && entries[j].Some? && entries[j].value.0 == key
  }

  /** A key is defined exactly when some line assigns it. */
  lemma {:induction false} EnvKeys(entries: seq<Option<(string, string)>>, key: string)
    ensures key in EnvOf(entries) <==> exists j :: AssignsKey(entries, j, key)
  {
    if entries != [] {
      var init := entries[..|entries| - 1];
      var last := |entries| - 1;
      EnvKeys(init, key);
      if key in EnvOf(entries) {
        if !AssignsKey(entries, last, key) {
          var j :| AssignsKey(init, j, key);
          assert AssignsKey(entries, j, key);
        }
      } else {
        forall j | AssignsKey(entries, j, key)
          ensures false
        {
          assert j < last;
          assert AssignsKey(init, j, key);
        }
      }
    }
  }

  /** The last line that assigns a key decides its value. */
  lemma {:induction false} LastAssignmentWins(entries: seq<Option<(string, string)>>, j: nat, key: string, value: string)
    requires j < |entries| && entries[j] == Some((key, value))
    requires forall m :: j < m < |entries| ==> !AssignsKey(entries, m, key)
    ensures key in EnvOf(entries) && EnvOf(entries)[key] == value
  {
    var init := entries[..|entries| - 1];
    var last := |entries| - 1;
    if j < last {
      assert init[j] == entries[j];
      forall m | j < m < |init|
        ensures !AssignsKey(init, m, key)
      {
        assert init[m] == entries[m] && !AssignsKey(entries, m, key);
      }
      LastAssignmentWins(init, j, key, value);
      assert !AssignsKey(entries, last, key);
    }
  }

  /** A key that is non-empty and trimmed, with a trimmed value. */
  predicate TrimmedEntry(key: string, value: string) {
    key != "" && IsTrimmed(key) && IsTrimmed(value)
  }

  /** Every entry of `env` has a non-empty trimmed key and a trimmed value. */
  predicate AllTrimmed(env: map<string, string>) {
    forall key :: key in env ==> TrimmedEntry(key, env[key])
  }

  /** Applying trimmed assignments only ever stores trimmed entries. */
  lemma {:induction false} EnvOfTrimmed(entries: seq<Option<(string, string)>>)
    requires forall j :: 0 <= j < |entries| && entries[j].Some? ==> TrimmedEntry(entries[j].value.0, entries[j].value.1)
    ensures AllTrimmed(EnvOf(entries))
  {
    if entries != [] {
      var init := entries[..|entries| - 1];
      assert forall j :: 0 <= j < |init| ==> init[j] == entries[j];
      EnvOfTrimmed(init);
      var last := entries[|entries| - 1];
      if last.Some? {
        assert TrimmedEntry(last.value.0, last.value.1);
      }
    }
  }

  /** Every key `loadEnv` stores is non-empty and trimmed, and so is its value. */
  lemma EnvEntriesTrimmed(content: string)
    ensures AllTrimmed(ParseEnv(content))
  {
    var lines := Split(content, '\n');
    var entries := Entries(Split(content, '\n'));
    forall j | 0 <= j < |entries| && entries[j].Some?
      ensures TrimmedEntry(entries[j].value.0, entries[j].value.1)
    {
      assert entries[j] == ParseLine(lines[j]);
      ParsedLineShape(lines[j]);
    }
    EnvOfTrimmed(entries);
    assert ParseEnv(content) == EnvOf(entries);
  }

  /** `env.KEY` is truthy: the key is defined with a non-empty value. */
  predicate HasValue(env: map<string, string>, key: string) {
    key in env && env[key] != ""
  }

  /** The map after the first `i` lines is the map after `i - 1` lines with line `i - 1`
      applied. */
  lemma EnvOfStep(lines: seq<string>, i: nat)
    requires i < |lines|
    ensures EnvOf(Entries(lines[..i + 1])) == Apply(EnvOf(Entries(lines[..i])), ParseLine(lines[i]))
  {
    assert Entries(lines[..i + 1])[..i] == Entries(lines[..i]);
  }

  /** `loadEnv`: each line of the file is parsed in turn and its assignment, if any, is
      written into `env`. */
  method LoadEnv(content: string) returns (env: map<string, string>)
    ensures env == ParseEnv(content)
  {
    var lines := Split(content, '\n');
    env := map[];
    for i := 0 to |lines|
      invariant env == EnvOf(Entries(lines[..i]))
    {
      var trimmed := Trim(lines[i]);
      if trimmed != "" && !StartsWith(trimmed, "#") {
        var parts := Split(trimmed, '=');
        var key := parts[0];
        var valueParts := parts[1..];
        if key != "" && |valueParts| > 0 {
          env := env[Trim(key) := Trim(Join(valueParts, "="))];
        }
      }
      EnvOfStep(lines, i);
    }
    assert lines[..|lines|] == lines;
  }

  /** The value a file gives a key is the one on the last line that assigns it. */
  lemma ValueFromLastLine(content: string, j: nat, key: string, value: string)
    requires var lines := Split(content, '\n');
      j < |lines| && ParseLine(lines[j]) == Some((key, value)) &&
      forall m :: j < m < |lines| ==> !AssignsKey(Entries(lines), m, key)
    ensures key in ParseEnv(content) && ParseEnv(content)[key] == value
  {
    LastAssignmentWins(Entries(Split(content, '\n')), j, key, value);
  }

  /** The guard `if (!a || !b) process.exit(1)`: both variables present with non-empty
      values, which the script then uses. */
  function RequireVars(env: map<string, string>, a: string, b: string): (r: Option<(string, string)>)
    ensures r.Some? <==> HasValue(env, a) && HasValue(env, b)
    ensures r.Some? ==> r.value.0 != "" && r.value.1 != "" && r.value == (env[a], env[b])
  {
    if a in env && env[a] != "" && b in env && env[b] != "" then Some((env[a], env[b])) else None
  }
}
