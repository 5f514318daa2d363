/**
 * What the check and watch commands share (cmd/shared.go): the argument
 * validator, the per-box configuration lookup, and the mapping of the
 * "notify" setting onto the statuses that are sent.
 */
module CmdShared {
  import opened Support
  import opened OsemApi
  import HC = HealthChecks
  import CmdArgs

  /**
   * BoxIdValidator of cmd/shared.go: the same rule as cmd/args.go, walked as
   * a search loop that returns on the first invalid id.
   */
  method BoxIdValidator(args: seq<string>) returns (err: Option<string>)
    ensures err == CmdArgs.BoxIdValidator(args)
  {
    if |args| < 1 {
      return Some("requires at least 1 argument");
    }
    var i := 0;
    while i < |args|
      invariant 0 <= i <= |args|
      invariant CmdArgs.FirstInvalid(args[i..]) == CmdArgs.FirstInvalid(args)
    {
      if !CmdArgs.IsValidBoxId(args[i]) {
        return Some("invalid boxId specified: " + args[i]);
      }
      assert args[i..][1..] == args[i + 1..];
      i := i + 1;
    }
    return None;
  }

  /** unicode.ToLower restricted to ASCII letters. */
  function LowerChar(c: char): (d: char)
    ensures 'A' <= c <= 'Z' ==> 'a' <= d <= 'z' && d as int == c as int + 32
    ensures !('A' <= c <= 'Z') ==> d == c
  {
    if 'A' <= c <= 'Z' then (c as int + 32) as char else c
  }

  /** strings.ToLower: every character lowered, the length kept. */
  function ToLower(s: string): (r: string)
    ensures |r| == |s| && forall i :: 0 <= i < |s| ==> r[i] == LowerChar(s[i])
  {
    if s == [] then [] else ToLower(s[..|s| - 1]) + [LowerChar(s[|s| - 1])]
  }

  /** Lowering twice is lowering once. */
  lemma ToLowerIdempotent(s: string)
    ensures ToLower(ToLower(s)) == ToLower(s)
  {
  }

  /** What the command does after checking: send nothing, or send the results with these statuses. */
  datatype Plan = NoNotify | Send(types: seq<string>)

  /** The "notify" switch: case-insensitive; empty means no notifications, an unknown word is an error. */
  function NotifyPlan(notify: string): (r: Result<Plan>)
    ensures r == Ok(NoNotify) <==> notify == ""
    ensures r == Ok(Send([HC.CheckErr, HC.CheckOk])) <==> ToLower(notify) == "all"
    ensures r == Ok(Send([HC.CheckErr])) <==> ToLower(notify) in {"error", "err"}
    ensures r == Ok(Send([HC.CheckOk])) <==> ToLower(notify) == "ok"
    ensures r.Err? <==> ToLower(notify) !in {"", "all", "error", "err", "ok"}
    ensures r.Err? ==> r.msg == "invalid value " + ToLower(notify) + " for \"notify\""
  {
    var lower := ToLower(notify);
    if lower == "" then Ok(NoNotify)
    else if lower == "all" then Ok(Send([HC.CheckErr, HC.CheckOk]))
    else if lower == "error" || lower == "err" then Ok(Send([HC.CheckErr]))
    else if lower == "ok" then Ok(Send([HC.CheckOk]))
    else Err("invalid value " + lower + " for \"notify\"")
  }

  /** Spellings that differ only in letter case mean the same plan. */
  lemma {:induction false} NotifyPlanIgnoresCase(a: string, b: string)
    requires |a| == |b| && forall i :: 0 <= i < |a| ==> LowerChar(a[i]) == LowerChar(b[i])
    ensures NotifyPlan(a) == NotifyPlan(b)
  {
    assert ToLower(a) == ToLower(b);
  }

  /** For instance "ALL", "Error" and "OK" are accepted. */
  lemma UpperCaseAccepted()
    ensures NotifyPlan("ALL") == Ok(Send([HC.CheckErr, HC.CheckOk]))
    ensures NotifyPlan("Error") == Ok(Send([HC.CheckErr]))
    ensures NotifyPlan("OK") == Ok(Send([HC.CheckOk]))
  {
    assert ToLower("ALL") == "all";
    assert ToLower("Error") == "error";
    assert ToLower("OK") == "ok";
  }

  /** The per-box configurations of the ids, one entry per distinct id. */
  function ConfigMap(getConf: string -> Result<NotifyConfig>, ids: seq<string>): map<string, NotifyConfig>
  {
    map id | id in ids && getConf(id).Ok? :: getConf(id).value
  }

  /** The configurations checkAndNotify collects: the first lookup error aborts, otherwise one entry per id. */
  function Configs(getConf: string -> Result<NotifyConfig>, ids: seq<string>): Result<map<string, NotifyConfig>>
  {
    match EvalAll(getConf, ids)
    case Err(msg) => Err(msg)
    case Ok(_) => Ok(ConfigMap(getConf, ids))
  }

  /** The lookup loop of checkAndNotify. */
  method CollectConfigs(getConf: string -> Result<NotifyConfig>, ids: seq<string>)
    returns (r: Result<map<string, NotifyConfig>>)
    ensures r == Configs(getConf, ids)
  {
    var confs: map<string, NotifyConfig> := map[];
    for i := 0 to |ids|
      invariant EvalAll(getConf, ids[..i]).Ok?
      invariant confs == ConfigMap(getConf, ids[..i])
    {
      assert ids[..i + 1][..i] == ids[..i];
      match getConf(ids[i])
      case Err(msg) =>
        EvalAllErrPrefix(getConf, ids[..i + 1], ids[i + 1..]);
        assert ids[..i + 1] + ids[i + 1..] == ids;
        return Err(msg);
      case Ok(c) =>
        confs := confs[ids[i] := c];
        assert confs == ConfigMap(getConf, ids[..i + 1]);
    }
    assert ids[..|ids|] == ids;
    return Ok(confs);
  }

  /** The lookup fails exactly when some id's lookup fails, with the first failure's message; otherwise every id has its entry. */
  lemma ConfigsOutcome(getConf: string -> Result<NotifyConfig>, ids: seq<string>)
    ensures Configs(getConf, ids).Err? <==> exists k :: 0 <= k < |ids| && getConf(ids[k]).Err?
    ensures Configs(getConf, ids).Err? ==>
              exists k :: 0 <= k < |ids| && getConf(ids[k]) == Err(Configs(getConf, ids).msg) &&
                          forall j :: 0 <= j < k ==> getConf(ids[j]).Ok?
    ensures Configs(getConf, ids).Ok? ==>
              Configs(getConf, ids).value.Keys == set id | id in ids &&
              forall k :: 0 <= k < |ids| ==> Configs(getConf, ids).value[ids[k]] == getConf(ids[k]).value
  {
    EvalAllOk(getConf, ids);
    if EvalAll(getConf, ids).Err? {
      EvalAllErr(getConf, ids);
    }
  }

  /**
   * checkAndNotify. Loading the API client, checking the boxes and sending
   * are collaborators. Besides the error it reports the map the boxes were
   * checked with and the statuses and cache flag notifications were sent
   * with, None where that step was not reached.
   */
  method CheckAndNotify<R>(getConf: string -> Result<NotifyConfig>, ids: seq<string>,
                           checkBoxes: map<string, NotifyConfig> -> Result<R>,
                           notify: string, noCache: bool,
                           send: (R, seq<string>, bool) -> Option<string>)
    returns (err: Option<string>, checkedWith: Option<map<string, NotifyConfig>>, sentWith: Option<(seq<string>, bool)>)
    ensures Configs(getConf, ids).Err? ==> err == Some(Configs(getConf, ids).msg) && checkedWith.None? && sentWith.None?
    ensures Configs(getConf, ids).Ok? ==> checkedWith == Some(Configs(getConf, ids).value)
    ensures checkedWith.Some? && checkBoxes(checkedWith.value).Err? ==>
              err == Some(checkBoxes(checkedWith.value).msg) && sentWith.None?
    ensures checkedWith.Some? && checkBoxes(checkedWith.value).Ok? ==>
              match NotifyPlan(notify)
              case Err(msg) => err == Some(msg) && sentWith.None?
              case Ok(NoNotify) => err.None? && sentWith.None?
              case Ok(Send(types)) =>
                sentWith == Some((types, !noCache)) && err == send(checkBoxes(checkedWith.value).value, types, !noCache)
  {
    checkedWith, sentWith := None, None;
    var confs := CollectConfigs(getConf, ids);
    if confs.Err? {
      return Some(confs.msg), checkedWith, sentWith;
    }
    checkedWith := Some(confs.value);
    var results := checkBoxes(confs.value);
    if results.Err? {
      return Some(results.msg), checkedWith, sentWith;
    }
    var plan := NotifyPlan(notify);
    match plan
    case Err(msg) =>
      err := Some(msg);
    case Ok(NoNotify) =>
      err := None;
    case Ok(Send(types)) =>
      var useCache := !noCache;
      sentWith := Some((types, useCache));
      err := send(results.value, types, useCache);
  }
}
