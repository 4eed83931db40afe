/** The `${NAME}` placeholder convention and the process environment as a map. */
module Env {
  import opened Wrappers
  import opened Text

  type Environment = map<string, string>

  /** `os.getenv(name)`. */
  function GetEnv(env: Environment, name: string): Option<string> {
    if name in env then Some(env[name]) else None
  }

  /** `s.startswith("${") and s.endswith("}")`. */
  predicate IsPlaceholder(s: string) {
    StartsWith(s, "${") && EndsWith(s, "}")
  }

  /** `s[2:-1]` of a placeholder. */
  function PlaceholderName(s: string): string
    requires IsPlaceholder(s)
  {
    assert s[1] == '{' && s[|s| - 1] == '}';
    s[2..|s| - 1]
  }

  /** Every placeholder is `${` + its name + `}`, and every such string is a placeholder of that name. */
  lemma PlaceholderRoundTrip(s: string, name: string)
    ensures IsPlaceholder(s) ==> s == "${" + PlaceholderName(s) + "}"
    ensures IsPlaceholder("${" + name + "}") && PlaceholderName("${" + name + "}") == name
  {
    var t := "${" + name + "}";
    assert t[..2] == "${" && t[|t| - 1..] == "}";
    assert t[2..|t| - 1] == name;
    if IsPlaceholder(s) {
      assert s[1] == '{' && s[|s| - 1] == '}';
      assert |s| >= 3;
      assert s[..2] == "${" && s[|s| - 1..] == "}";
      assert s == s[..2] + s[2..|s| - 1] + s[|s| - 1..];
    }
  }

  /** A placeholder has a given name exactly when it is that name wrapped in `${` and `}`. */
  lemma PlaceholderNamed(s: string, name: string)
    requires IsPlaceholder(s)
    ensures PlaceholderName(s) == name <==> s == "${" + name + "}"
  {
    PlaceholderRoundTrip(s, name);
  }
}
