/**
 * The environment checker script: which required variables are set, how a
 * set value is displayed, and the exit status. The environment is a map from
 * variable name to value; the console output and the process exit are
 * returned as values.
 */
module CheckEnv {
  import opened Seqs

  datatype EnvVar = EnvVar(key: string, description: string)

  /** The required variables, in the order they are checked and reported. */
  const RequiredEnvVars: seq<EnvVar> := [
    EnvVar("FIREBASE_PROJECT_ID", "Firebase project ID"),
    EnvVar("FIREBASE_CLIENT_EMAIL", "Firebase service account email"),
    EnvVar("FIREBASE_PRIVATE_KEY", "Firebase private key"),
    EnvVar("NEXT_PUBLIC_FIREBASE_API_KEY", "Firebase API key"),
    EnvVar("NEXT_PUBLIC_FIREBASE_AUTH_DOMAIN", "Firebase auth domain"),
    EnvVar("NEXT_PUBLIC_FIREBASE_PROJECT_ID", "Firebase project ID (client)"),
    EnvVar("NEXT_PUBLIC_FIREBASE_STORAGE_BUCKET", "Firebase storage bucket"),
    EnvVar("NEXT_PUBLIC_FIREBASE_MESSAGING_SENDER_ID", "Firebase messaging sender ID"),
    EnvVar("NEXT_PUBLIC_FIREBASE_APP_ID", "Firebase app ID"),
    EnvVar("NEXT_PUBLIC_VAPI_WEB_TOKEN", "Vapi web token"),
    EnvVar("NEXT_PUBLIC_VAPI_WORKFLOW_ID", "Vapi workflow ID"),
    EnvVar("GOOGLE_GENERATIVE_AI_API_KEY", "Google Gemini API key"),
    EnvVar("NEXT_PUBLIC_BASE_URL", "Application base URL")
  ]

  /** `!value`: the variable is unset or the empty string. */
  predicate IsMissing(env: map<string, string>, key: string) {
    key !in env || env[key] == ""
  }

  function MissingIn(env: map<string, string>): EnvVar -> bool {
    (v: EnvVar) => IsMissing(env, v.key)
  }

  function SetIn(env: map<string, string>): EnvVar -> bool {
    (v: EnvVar) => !IsMissing(env, v.key)
  }

  /** `part` occurs in `s` starting at index `i`. */
  predicate OccursAt(s: string, part: string, i: int) {
    0 <= i && i + |part| <= |s| && s[i..i + |part|] == part
  }

  /** `String.prototype.includes`. */
  function Includes(s: string, part: string): (b: bool)
    ensures b <==> exists i :: OccursAt(s, part, i)
  {
    if |part| > |s| then false
    else if s[..|part|] == part then
      assert OccursAt(s, part, 0);
      true
    else
      var b := Includes(s[1..], part);
      assert b ==> exists i :: OccursAt(s, part, i) by {
        if b {
          var j :| OccursAt(s[1..], part, j);
          assert s[1..][j..j + |part|] == s[j + 1..j + 1 + |part|];
          assert OccursAt(s, part, j + 1);
        }
      }
      assert (exists i :: OccursAt(s, part, i)) ==> b by {
        if exists i :: OccursAt(s, part, i) {
          var i :| OccursAt(s, part, i);
          assert i != 0;
          assert s[1..][i - 1..i - 1 + |part|] == s[i..i + |part|];
          assert OccursAt(s[1..], part, i - 1);
        }
      }
      b
  }

  /** A variable whose name contains "KEY" or "TOKEN" is shown masked. */
  predicate IsSecretKey(key: string) {
    Includes(key, "KEY") || Includes(key, "TOKEN")
  }

  /** `value.substring(0, n)` for a non-negative `n`. */
  function Prefix(value: string, n: nat): string {
    if n < |value| then value[..n] else value
  }

  /**
   * The value as printed: secrets as their first ten characters and "...",
   * even when shorter; other values longer than 30 characters as their first
   * 30 and "..."; anything else as it is.
   */
  function DisplayValue(key: string, value: string): (r: string)
    ensures IsSecretKey(key) ==> 3 <= |r| <= 13 && r[|r| - 3..] == "..." && r[..|r| - 3] <= value
    ensures IsSecretKey(key) && |value| <= 10 ==> r == value + "..."
    ensures IsSecretKey(key) && |value| > 10 ==> r == value[..10] + "..."
    ensures !IsSecretKey(key) && |value| <= 30 ==> r == value
    ensures !IsSecretKey(key) && |value| > 30 ==> |r| == 33 && r[..30] == value[..30] && r[30..] == "..."
  {
    if IsSecretKey(key) then Prefix(value, 10) + "..."
    else if |value| > 30 then value[..30] + "..."
    else value
  }

  /** The names of the given variables. */
  function KeysOf(vars: seq<EnvVar>): (r: seq<string>)
    ensures |r| == |vars|
  {
    seq(|vars|, i requires 0 <= i < |vars| => vars[i].key)
  }

  /** The name and displayed value of each of the given variables. */
  function ShownOf(vars: seq<EnvVar>, env: map<string, string>): (r: seq<(string, string)>)
    ensures |r| == |vars|
  {
    seq(|vars|, i requires 0 <= i < |vars| =>
      (vars[i].key, DisplayValue(vars[i].key, if vars[i].key in env then env[vars[i].key] else "")))
  }

  lemma KeysOfAppend(vars: seq<EnvVar>, v: EnvVar)
    ensures KeysOf(vars + [v]) == KeysOf(vars) + [v.key]
  {
    assert forall i :: 0 <= i < |vars| ==> (vars + [v])[i] == vars[i];
  }

  lemma ShownOfAppend(vars: seq<EnvVar>, v: EnvVar, env: map<string, string>)
    requires v.key in env
    ensures ShownOf(vars + [v], env) == ShownOf(vars, env) + [(v.key, DisplayValue(v.key, env[v.key]))]
  {
    assert forall i :: 0 <= i < |vars| ==> (vars + [v])[i] == vars[i];
  }

  /** A variable's name is among the present names exactly when it is set. */
  lemma PresentKeyIff(vars: seq<EnvVar>, env: map<string, string>, i: int)
    requires 0 <= i < |vars|
    ensures vars[i].key in KeysOf(Filter(vars, SetIn(env))) <==> !IsMissing(env, vars[i].key)
  {
    var present := Filter(vars, SetIn(env));
    FilterMember(vars, SetIn(env), vars[i]);
    if vars[i].key in KeysOf(present) {
      var k :| 0 <= k < |present| && KeysOf(present)[k] == vars[i].key;
      assert SetIn(env)(present[k]);
    }
    if !IsMissing(env, vars[i].key) {
      var k :| 0 <= k < |present| && present[k] == vars[i];
      assert KeysOf(present)[k] == vars[i].key;
    }
  }

  /**
   * Every checked variable is reported exactly once: as missing when it is
   * unset or empty, and by name among the present ones otherwise; the two
   * counts add up to the number checked.
   */
  lemma PartitionOfChecked(vars: seq<EnvVar>, env: map<string, string>)
    ensures |Filter(vars, MissingIn(env))| + |KeysOf(Filter(vars, SetIn(env)))| == |vars|
    ensures forall i :: 0 <= i < |vars| ==> (vars[i] in Filter(vars, MissingIn(env)) <==> IsMissing(env, vars[i].key))
    ensures forall i :: 0 <= i < |vars| ==> (vars[i].key in KeysOf(Filter(vars, SetIn(env))) <==> !IsMissing(env, vars[i].key))
  {
    FilterSplitLength(vars, SetIn(env), MissingIn(env));
    forall i | 0 <= i < |vars|
      ensures vars[i] in Filter(vars, MissingIn(env)) <==> IsMissing(env, vars[i].key)
    {
      FilterMember(vars, MissingIn(env), vars[i]);
    }
    forall i | 0 <= i < |vars|
      ensures vars[i].key in KeysOf(Filter(vars, SetIn(env))) <==> !IsMissing(env, vars[i].key)
    {
      PresentKeyIff(vars, env, i);
    }
  }

  /** One more variable checked: it joins exactly one of the two lists. */
  lemma CheckStep(vars: seq<EnvVar>, i: int, env: map<string, string>)
    requires 0 <= i < |vars|
    ensures Filter(vars[..i + 1], MissingIn(env))
         == Filter(vars[..i], MissingIn(env)) + (if IsMissing(env, vars[i].key) then [vars[i]] else [])
    ensures Filter(vars[..i + 1], SetIn(env))
         == Filter(vars[..i], SetIn(env)) + (if IsMissing(env, vars[i].key) then [] else [vars[i]])
  {
    assert vars[..i + 1] == vars[..i] + [vars[i]];
    FilterSnoc(vars[..i], vars[i], MissingIn(env));
    FilterSnoc(vars[..i], vars[i], SetIn(env));
  }

  /**
   * The script: check each variable of `vars` (run on `RequiredEnvVars`) in
   * order, collecting the missing ones and the present names with their
   * displayed values, then exit with status 1 when any is missing and 0
   * otherwise.
   */
  method CheckEnvironment(vars: seq<EnvVar>, env: map<string, string>)
    returns (missing: seq<EnvVar>, present: seq<string>, shown: seq<(string, string)>, exitCode: int)
    ensures missing == Filter(vars, MissingIn(env))
    ensures present == KeysOf(Filter(vars, SetIn(env)))
    ensures shown == ShownOf(Filter(vars, SetIn(env)), env)
    ensures |present| + |missing| == |vars|
    ensures exitCode == 1 <==> |missing| > 0
    ensures exitCode == 0 <==> |missing| == 0
  {
    missing, present, shown := [], [], [];
    ghost var setVars := [];
    for i := 0 to |vars|
      invariant missing == Filter(vars[..i], MissingIn(env))
      invariant setVars == Filter(vars[..i], SetIn(env))
      invariant present == KeysOf(setVars)
      invariant shown == ShownOf(setVars, env)
      invariant |setVars| + |missing| == i
    {
      var v := vars[i];
      CheckStep(vars, i, env);
      if !(v.key in env) || env[v.key] == "" {
        missing := missing + [v];
      } else {
        KeysOfAppend(setVars, v);
        ShownOfAppend(setVars, v, env);
        setVars := setVars + [v];
        present := present + [v.key];
        shown := shown + [(v.key, DisplayValue(v.key, env[v.key]))];
      }
    }
    assert vars[..|vars|] == vars;
    exitCode := if |missing| > 0 then 1 else 0;
  }

  /**
   * Thirteen variables are required, and the four credentials among them are
   * shown masked.
   */
  lemma SecretRequiredKeys()
    ensures |RequiredEnvVars| == 13
    ensures RequiredEnvVars[2].key == "FIREBASE_PRIVATE_KEY"
    ensures RequiredEnvVars[3].key == "NEXT_PUBLIC_FIREBASE_API_KEY"
    ensures RequiredEnvVars[9].key == "NEXT_PUBLIC_VAPI_WEB_TOKEN"
    ensures RequiredEnvVars[11].key == "GOOGLE_GENERATIVE_AI_API_KEY"
    ensures IsSecretKey("FIREBASE_PRIVATE_KEY")
    ensures IsSecretKey("NEXT_PUBLIC_FIREBASE_API_KEY")
    ensures IsSecretKey("NEXT_PUBLIC_VAPI_WEB_TOKEN")
    ensures IsSecretKey("GOOGLE_GENERATIVE_AI_API_KEY")
  {
    assert OccursAt("FIREBASE_PRIVATE_KEY", "KEY", 17);
    assert OccursAt("NEXT_PUBLIC_FIREBASE_API_KEY", "KEY", 25);
    assert OccursAt("NEXT_PUBLIC_VAPI_WEB_TOKEN", "TOKEN", 21);
    assert OccursAt("GOOGLE_GENERATIVE_AI_API_KEY", "KEY", 25);
  }
}
