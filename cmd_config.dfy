/**
 * The command's own configuration handling (cmd/config.go): locating the
 * file under the fixed name osem_notify, and validating the email settings
 * when email notifications are due.
 */
module CmdConfig {
  import opened Support
  import UC = UtilsConfig

  const AppName := "osem_notify"

  /** getConfigFile: utils/config.go's search written out again for the fixed name. */
  method GetConfigFile(env: UC.Env, present: string -> bool) returns (file: string)
    ensures file == UC.ConfigFile(AppName, env, present)
  {
    var flag := env.flag;
    var xdg := env.xdgConfigHome;
    if xdg != "" {
      xdg := UC.PathJoin(UC.PathJoin(xdg, "osem_notify"), "config.yml");
    }
    var home := env.home;
    var homeyml := "";
    var homeyaml := "";
    if home != "" {
      homeyml := UC.PathJoin(home, ".osem_notify.yml");
      homeyaml := UC.PathJoin(home, ".osem_notify.yaml");
    }
    var tryFiles := [flag, xdg, homeyml, homeyaml];
    assert "." + AppName + ".yml" == ".osem_notify.yml";
    assert "." + AppName + ".yaml" == ".osem_notify.yaml";
    assert tryFiles == UC.Candidates(AppName, env);
    var i := 0;
    while i < |tryFiles|
      invariant 0 <= i <= |tryFiles|
      invariant UC.FirstUsable(tryFiles[i..], present) == UC.FirstUsable(tryFiles, present)
    {
      if tryFiles[i] != "" {
        if present(tryFiles[i]) {
          return tryFiles[i];
        }
      }
      assert tryFiles[i..][1..] == tryFiles[i + 1..];
      i := i + 1;
    }
    if env.xdgConfigHome != "" {
      return xdg;
    } else {
      return homeyml;
    }
  }

  /** The settings read under email.* in the configuration. */
  datatype EmailSettings = EmailSettings(host: string, port: string, user: string, pass: string, from: string)

  /** The settings email submission needs, in the order they are checked. */
  function Required(email: EmailSettings): seq<string>
  {
    [email.host, email.port, email.user, email.pass, email.from]
  }

  /**
   * validateConfig: only with notifications on and "email" as the default
   * transport, warn about an empty recipient list, then exit fatally
   * (reported here as `fatal`) on the first missing email setting.
   */
  method ValidateConfig(notify: bool, transport: string, recipients: seq<string>, email: EmailSettings)
    returns (warn: bool, fatal: bool)
    ensures warn <==> notify && transport == "email" && |recipients| == 0
    ensures fatal <==> notify && transport == "email" &&
                       (email.host == "" || email.port == "" || email.user == "" || email.pass == "" || email.from == "")
  {
    warn, fatal := false, false;
    if notify && transport == "email" {
      if |recipients| == 0 {
        warn := true;
      }
      var required := Required(email);
      for i := 0 to |required|
        invariant forall j :: 0 <= j < i ==> required[j] != ""
      {
        if required[i] == "" {
          fatal := true;
          return;
        }
      }
      assert required[0] != "" && required[1] != "" && required[2] != "" && required[3] != "" && required[4] != "";
    }
  }
}
