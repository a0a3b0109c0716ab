/** Binding environment variables to command-line options: the option name
    is derived from the variable's name, and a non-empty value is appended to
    the process's argument vector as that option. */
module EnvArgs {
  import opened Types

  /** `str.lower()` on one character (ASCII letters only). */
  function LowerChar(c: char): (d: char)
    ensures 'A' <= c <= 'Z' ==> 'a' <= d <= 'z' && d as int - c as int == 32
    ensures !('A' <= c <= 'Z') ==> d == c
  {
    if 'A' <= c <= 'Z' then (c as int + 32) as char else c
  }

  /** `str.upper()` on one character (ASCII letters only). */
  function UpperChar(c: char): (d: char)
    ensures 'a' <= c <= 'z' ==> 'A' <= d <= 'Z' && c as int - d as int == 32
    ensures !('a' <= c <= 'z') ==> d == c
  {
    if 'a' <= c <= 'z' then (c as int - 32) as char else c
  }

  /** One character of `re.sub('_', '-', name).lower()`. */
  function KebabChar(c: char): char {
    LowerChar(if c == '_' then '-' else c)
  }

  /** `re.sub('_', '-', name).lower()`: every underscore becomes a dash, every
      letter is lowered. */
  function Kebab(name: string): string {
    seq(|name|, k requires 0 <= k < |name| => KebabChar(name[k]))
  }

  /** The long option derived from an environment variable's name. */
  function FlagName(envVar: string): (flag: string)
    ensures |flag| == |envVar| + 2 && flag[..2] == "--"
    ensures forall k :: 2 <= k < |flag| ==> flag[k] != '_'
  {
    "--" + Kebab(envVar)
  }

  /** A conventional environment variable name: upper-case letters, digits
      and underscores, as in CI_API_V4_URL. */
  predicate IsEnvVarName(name: string) {
    forall k :: 0 <= k < |name| ==> 'A' <= name[k] <= 'Z' || '0' <= name[k] <= '9' || name[k] == '_'
  }

  /** The environment variable an option name stands for: the reverse
      transformation, for options that start with "--". */
  function EnvVarOf(flag: string): string {
    var body := if |flag| >= 2 && flag[..2] == "--" then flag[2..] else flag;
    seq(|body|, k requires 0 <= k < |body| => if body[k] == '-' then '_' else UpperChar(body[k]))
  }

  /** The option is "--" followed by the name, character by character, with
      each underscore replaced by a dash and each upper-case letter lowered;
      no underscore and no upper-case letter is left after the dashes. */
  lemma FlagNameShape(envVar: string)
    ensures |FlagName(envVar)| == |envVar| + 2
    ensures FlagName(envVar)[..2] == "--"
    ensures forall k :: 0 <= k < |envVar| ==>
              FlagName(envVar)[k + 2] == (if envVar[k] == '_' then '-' else LowerChar(envVar[k]))
    ensures forall k :: 2 <= k < |FlagName(envVar)| ==>
              FlagName(envVar)[k] != '_' && !('A' <= FlagName(envVar)[k] <= 'Z')
  {
  }

  /** Turning a conventional variable name into its option and back gives
      the name again. */
  lemma FlagNameRoundTrip(envVar: string)
    requires IsEnvVarName(envVar)
    ensures EnvVarOf(FlagName(envVar)) == envVar
  {
    var flag := FlagName(envVar);
    assert flag[..2] == "--" && flag[2..] == Kebab(envVar);
    var back := EnvVarOf(flag);
    assert |back| == |envVar|;
    forall k | 0 <= k < |envVar| ensures back[k] == envVar[k] {
      var c := envVar[k];
      var d := Kebab(envVar)[k];
      assert d == KebabChar(c);
      assert back[k] == if d == '-' then '_' else UpperChar(d);
      if 'A' <= c <= 'Z' {
        assert 'a' <= d <= 'z' && d as int == c as int + 32;
        assert UpperChar(d) as int == c as int;
      }
    }
  }

  /** Distinct conventional variable names give distinct options. */
  lemma FlagNameInjective(a: string, b: string)
    requires IsEnvVarName(a) && IsEnvVarName(b)
    requires FlagName(a) == FlagName(b)
    ensures a == b
  {
    FlagNameRoundTrip(a);
    FlagNameRoundTrip(b);
  }

  /** The examples given where the binding is documented. */
  lemma FlagNameExamples()
    ensures FlagName("CI_API_V4_URL") == "--ci-api-v4-url"
    ensures FlagName("CI_PROJECT_ID") == "--ci-project-id"
  {
  }

  /** The process state the binding touches: the argument vector it extends
      and the environment it reads. */
  class Process {
    var argv: seq<string>
    const environ: map<string, string>

    constructor (argv: seq<string>, environ: map<string, string>)
      ensures this.argv == argv && this.environ == environ
    {
      this.argv := argv;
      this.environ := environ;
    }

    /** Returns the option strings to register (the derived option first,
        then the caller's aliases). When the variable is set to a non-empty
        value, the option and the value are appended to the argument vector,
        after everything already there; otherwise it is left as it was. */
    method EnvVarAsArg(envVar: string, aliases: seq<string>) returns (options: seq<string>)
      modifies this
      ensures options == [FlagName(envVar)] + aliases
      ensures argv == if envVar in environ && environ[envVar] != ""
                      then old(argv) + [FlagName(envVar), environ[envVar]]
                      else old(argv)
      ensures old(argv) <= argv && |argv| - |old(argv)| in {0, 2}
    {
      options := [FlagName(envVar)] + aliases;
      var default := if envVar in environ then Some(environ[envVar]) else None;
      if default.Some? && default.value != "" {
        argv := argv + [options[0], default.value];
      }
    }
  }
}
