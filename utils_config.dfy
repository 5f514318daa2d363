/**
 * Locating the configuration file (GetConfigFile of utils/config.go): the
 * --config flag, then $XDG_CONFIG_HOME/<name>/config.yml, $HOME/.<name>.yml
 * and $HOME/.<name>.yaml; the first that is set and exists wins.
 */
module UtilsConfig {
  import opened Support

  /** The inputs GetConfigFile reads; an unset variable reads as "". */
  datatype Env = Env(flag: string, xdgConfigHome: string, home: string)

  /** path.Join of non-empty parts, without path.Clean's normalisation. */
  function PathJoin(dir: string, file: string): string
  {
    dir + "/" + file
  }

  /** The XDG candidate: "" when XDG_CONFIG_HOME is unset. */
  function XdgCandidate(name: string, env: Env): string
  {
    if env.xdgConfigHome != "" then PathJoin(PathJoin(env.xdgConfigHome, name), "config.yml") else ""
  }

  /** A home candidate with the given extension: "" when HOME is unset. */
  function HomeCandidate(name: string, env: Env, ext: string): string
  {
    if env.home != "" then PathJoin(env.home, "." + name + ext) else ""
  }

  /** tryFiles: the four candidates in the order they are tried. */
  function Candidates(name: string, env: Env): (c: seq<string>)
    ensures |c| == 4 && c[0] == env.flag
    ensures c[1] == (if env.xdgConfigHome == "" then "" else env.xdgConfigHome + "/" + name + "/config.yml")
    ensures c[2] == (if env.home == "" then "" else env.home + "/." + name + ".yml")
    ensures c[3] == (if env.home == "" then "" else env.home + "/." + name + ".yaml")
  {
    [env.flag, XdgCandidate(name, env), HomeCandidate(name, env, ".yml"), HomeCandidate(name, env, ".yaml")]
  }

  /** A candidate is tried only if it is non-empty, and used if it exists. */
  predicate Usable(file: string, present: string -> bool)
  {
    file != "" && present(file)
  }

  /** The first usable candidate, if any. */
  function FirstUsable(cands: seq<string>, present: string -> bool): Option<string>
  {
    if cands == [] then None
    else if Usable(cands[0], present) then Some(cands[0])
    else FirstUsable(cands[1..], present)
  }

  /** Nothing usable: the XDG path when XDG_CONFIG_HOME is set, else the .yml home path (possibly ""). */
  function Fallback(name: string, env: Env): string
  {
    if env.xdgConfigHome != "" then XdgCandidate(name, env) else HomeCandidate(name, env, ".yml")
  }

  /** What GetConfigFile returns. */
  function ConfigFile(name: string, env: Env, present: string -> bool): string
  {
    match FirstUsable(Candidates(name, env), present)
    case Some(file) => file
    case None => Fallback(name, env)
  }

  /** GetConfigFile: build the candidates in locals, then search them in order. */
  method GetConfigFile(name: string, env: Env, present: string -> bool) returns (file: string)
    ensures file == ConfigFile(name, env, present)
  {
    var flag := env.flag;
    var xdg := env.xdgConfigHome;
    if xdg != "" {
      xdg := PathJoin(PathJoin(xdg, name), "config.yml");
    }
    var home := env.home;
    var homeyml := "";
    var homeyaml := "";
    if home != "" {
      homeyml := PathJoin(home, "." + name + ".yml");
      homeyaml := PathJoin(home, "." + name + ".yaml");
    }
    var tryFiles := [flag, xdg, homeyml, homeyaml];
    assert tryFiles == Candidates(name, env);
    var i := 0;
    while i < |tryFiles|
      invariant 0 <= i <= |tryFiles|
      invariant FirstUsable(tryFiles[i..], present) == FirstUsable(tryFiles, present)
    {
      if tryFiles[i] != "" {
        if present(tryFiles[i]) {
          return tryFiles[i];
        }
      }
      assert tryFiles[i..][1..] == tryFiles[i + 1..];
      i := i + 1;
    }
    if env.xdgConfigHome != "" {
      return xdg;
    } else {
      return homeyml;
    }
  }

  /** FirstUsable picks the earliest usable candidate, and finds none exactly when none is usable. */
  lemma {:induction false} FirstUsableSpec(cands: seq<string>, present: string -> bool)
    ensures FirstUsable(cands, present).None? <==> forall k :: 0 <= k < |cands| ==> !Usable(cands[k], present)
    ensures FirstUsable(cands, present).Some? ==>
              exists k :: 0 <= k < |cands| && cands[k] == FirstUsable(cands, present).value &&
                          Usable(cands[k], present) && forall j :: 0 <= j < k ==> !Usable(cands[j], present)
  {
    if cands != [] && !Usable(cands[0], present) {
      var rest := cands[1..];
      FirstUsableSpec(rest, present);
      assert forall k :: 1 <= k < |cands| ==> cands[k] == rest[k - 1];
      if FirstUsable(rest, present).Some? {
        var k :| 0 <= k < |rest| && rest[k] == FirstUsable(rest, present).value &&
                 Usable(rest[k], present) && forall j :: 0 <= j < k ==> !Usable(rest[j], present);
        assert cands[k + 1] == rest[k];
        assert forall j :: 0 <= j < k + 1 ==> !Usable(cands[j], present);
      }
    }
  }

  /** The result is a usable candidate, earlier ones unusable, or the fallback when none is usable. */
  lemma ConfigFileSpec(name: string, env: Env, present: string -> bool)
    ensures var c := Candidates(name, env);
            (exists k :: 0 <= k < 4 && Usable(c[k], present) && ConfigFile(name, env, present) == c[k] &&
                         forall j :: 0 <= j < k ==> !Usable(c[j], present)) ||
            ((forall k :: 0 <= k < 4 ==> !Usable(c[k], present)) && ConfigFile(name, env, present) == Fallback(name, env))
  {
    FirstUsableSpec(Candidates(name, env), present);
  }

  /** An existing --config path wins over every other candidate. */
  lemma FlagWins(name: string, env: Env, present: string -> bool)
    requires env.flag != "" && present(env.flag)
    ensures ConfigFile(name, env, present) == env.flag
  {
  }

  /** Existence is only asked about non-empty candidates: two checks agreeing there give the same file. */
  lemma {:induction false} EmptyNeverChecked(name: string, env: Env, ex1: string -> bool, ex2: string -> bool)
    requires forall f :: f in Candidates(name, env) && f != "" ==> ex1(f) == ex2(f)
    ensures ConfigFile(name, env, ex1) == ConfigFile(name, env, ex2)
  {
    var c := Candidates(name, env);
    assert forall k :: 0 <= k < |c| ==> Usable(c[k], ex1) == Usable(c[k], ex2);
    FirstUsableAgree(c, ex1, ex2);
  }

  lemma {:induction false} FirstUsableAgree(cands: seq<string>, ex1: string -> bool, ex2: string -> bool)
    requires forall k :: 0 <= k < |cands| ==> Usable(cands[k], ex1) == Usable(cands[k], ex2)
    ensures FirstUsable(cands, ex1) == FirstUsable(cands, ex2)
  {
    if cands != [] {
      assert forall k :: 0 <= k < |cands| - 1 ==> cands[1..][k] == cands[k + 1];
      FirstUsableAgree(cands[1..], ex1, ex2);
    }
  }

  /** With nothing usable: the XDG path if XDG_CONFIG_HOME is set, else $HOME/.<name>.yml, which is "" without HOME. */
  lemma FallbackSpec(name: string, env: Env, present: string -> bool)
    requires forall k :: 0 <= k < 4 ==> !Usable(Candidates(name, env)[k], present)
    ensures env.xdgConfigHome != "" ==> ConfigFile(name, env, present) == env.xdgConfigHome + "/" + name + "/config.yml"
    ensures env.xdgConfigHome == "" && env.home != "" ==> ConfigFile(name, env, present) == env.home + "/." + name + ".yml"
    ensures env.xdgConfigHome == "" && env.home == "" ==> ConfigFile(name, env, present) == ""
  {
    FirstUsableSpec(Candidates(name, env), present);
  }
}
