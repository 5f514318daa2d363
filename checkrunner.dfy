/**
 * Running the checks of several boxes (core/checkrunner.go): fetch each
 * box, give it the default configuration when it has none, run the engine,
 * and collect the results of the boxes that succeed and the errors of the
 * ones that do not, carrying on past failures.
 */
module CheckRunner {
  import opened Support
  import opened OsemApi
  import HC = HealthChecks

  /** One entry of the Go map from box to its results. */
  datatype BoxResults = BoxResults(box: Box, results: seq<HC.CheckResult>)

  /**
   * The Go map keyed by *Box. Each fetched box is a fresh pointer, so keys
   * never collide; the model keeps the entries in insertion order.
   */
  type BoxCheckResults = seq<BoxResults>

  /** The number of results over all boxes. */
  function TotalSize(results: BoxCheckResults): nat
  {
    if results == [] then 0
    else TotalSize(results[..|results| - 1]) + |results[|results| - 1].results|
  }

  lemma {:induction false} TotalSizeAppend(a: BoxCheckResults, b: BoxCheckResults)
    ensures TotalSize(a + b) == TotalSize(a) + TotalSize(b)
    decreases |b|
  {
    if b != [] {
      var ab := a + b;
      assert ab[..|ab| - 1] == a + b[..|b| - 1];
      TotalSizeAppend(a, b[..|b| - 1]);
    } else {
      assert a + b == a;
    }
  }

  /** BoxCheckResults.Size of core/checkrunner.go; the dispatcher revision's copy is BoxCheckResults.Size. */
  method Size(results: BoxCheckResults) returns (size: int)
    ensures size == TotalSize(results)
  {
    size := 0;
    for i := 0 to |results|
      invariant size == TotalSize(results[..i])
    {
      assert results[..i + 1][..i] == results[..i];
      size := size + |results[i].results|;
    }
    assert results[..|results|] == results;
  }

  /** The number of results whose status is not OK. */
  function CountErr(rs: seq<HC.CheckResult>): nat
  {
    if rs == [] then 0
    else CountErr(rs[..|rs| - 1]) + (if rs[|rs| - 1].status == HC.CheckOk then 0 else 1)
  }

  /** No non-OK result is counted exactly when every result is OK. */
  lemma {:induction false} CountErrZero(rs: seq<HC.CheckResult>)
    ensures CountErr(rs) == 0 <==> forall k :: 0 <= k < |rs| ==> rs[k].status == HC.CheckOk
  {
    if rs != [] {
      CountErrZero(rs[..|rs| - 1]);
      assert forall k :: 0 <= k < |rs| - 1 ==> rs[..|rs| - 1][k] == rs[k];
    }
  }

  /**
   * BoxCheckResults.Log without the log lines: for each box, whether
   * "all is fine!" is logged, which happens iff none of its results is non-OK.
   */
  method Log(results: BoxCheckResults) returns (allFine: seq<bool>)
    ensures |allFine| == |results|
    ensures forall b :: 0 <= b < |results| ==>
              (allFine[b] <==> forall k :: 0 <= k < |results[b].results| ==> results[b].results[k].status == HC.CheckOk)
  {
    allFine := [];
    for b := 0 to |results|
      invariant |allFine| == b
      invariant forall c :: 0 <= c < b ==>
                  (allFine[c] <==> forall k :: 0 <= k < |results[c].results| ==> results[c].results[k].status == HC.CheckOk)
    {
      var boxResults := results[b].results;
      var countErr := 0;
      for k := 0 to |boxResults|
        invariant countErr == CountErr(boxResults[..k])
      {
        assert boxResults[..k + 1][..k] == boxResults[..k];
        if boxResults[k].status != HC.CheckOk {
          countErr := countErr + 1;
        }
      }
      assert boxResults[..|boxResults|] == boxResults;
      CountErrZero(boxResults);
      allFine := allFine + [countErr == 0];
    }
  }

  /** What checkBox yields for one id: the fetch error, the engine's error, or the box with its results. */
  function BoxOutcome(rt: Runtime, fetch: string -> Result<Box>, defaultConf: NotifyConfig, boxId: string): Result<BoxResults>
  {
    match fetch(boxId)
    case Err(msg) => Err(msg)
    case Ok(fetched) =>
      var box := WithDefault(fetched, defaultConf);
      match HC.Checks(rt, box.notifyConf.value.events, box.sensors)
      case Err(msg) => Err(msg)
      case Ok(rs) => Ok(BoxResults(box, rs))
  }

  /** checkBox; `fetch` stands for the API client's GetBox. */
  method CheckBox(rt: Runtime, fetch: string -> Result<Box>, boxId: string, defaultConf: NotifyConfig)
    returns (r: Result<BoxResults>)
    ensures r == BoxOutcome(rt, fetch, defaultConf, boxId)
  {
    var fetched := fetch(boxId);
    if fetched.Err? {
      return Err(fetched.msg);
    }
    var box := fetched.value;
    if box.notifyConf.None? {
      box := box.(notifyConf := Some(defaultConf));
    }
    var results := HC.RunChecks(rt, box);
    if results.Err? {
      return Err(results.msg);
    }
    return Ok(BoxResults(box, results.value));
  }

  /** A box without a configuration is checked against the default one; any other keeps its own. */
  lemma DefaultConfSubstituted(rt: Runtime, fetch: string -> Result<Box>, defaultConf: NotifyConfig, boxId: string)
    requires fetch(boxId).Ok?
    ensures var fetched := fetch(boxId).value;
            var events := if fetched.notifyConf.Some? then fetched.notifyConf.value.events else defaultConf.events;
            BoxOutcome(rt, fetch, defaultConf, boxId) ==
              match HC.Checks(rt, events, fetched.sensors)
              case Err(msg) => Err(msg)
              case Ok(rs) => Ok(BoxResults(WithDefault(fetched, defaultConf), rs))
  {
  }

  /** The successful outcomes' values and the error messages, in input order. */
  function Gather<T>(outcome: string -> Result<T>, ids: seq<string>): (seq<T>, seq<string>)
  {
    if ids == [] then ([], [])
    else
      var (rs, errs) := Gather(outcome, ids[..|ids| - 1]);
      match outcome(ids[|ids| - 1])
      case Err(msg) => (rs, errs + [msg])
      case Ok(v) => (rs + [v], errs)
  }

  /** The successful boxes' entries and the error messages, in input order. */
  function Collect(rt: Runtime, fetch: string -> Result<Box>, defaultConf: NotifyConfig, boxIds: seq<string>)
    : (BoxCheckResults, seq<string>)
  {
    Gather(BoxRule(rt, fetch, defaultConf), boxIds)
  }

  /** checkBox as a function of the box id. */
  function BoxRule(rt: Runtime, fetch: string -> Result<Box>, defaultConf: NotifyConfig): string -> Result<BoxResults>
  {
    id => BoxOutcome(rt, fetch, defaultConf, id)
  }

  /**
   * CheckBoxes: the results of every box that succeeded, and, when any box
   * failed, an error whose text is the failures' messages joined by newlines.
   * The results are returned in both cases.
   */
  method CheckBoxes(rt: Runtime, fetch: string -> Result<Box>, boxIds: seq<string>, defaultConf: NotifyConfig)
    returns (results: BoxCheckResults, err: Option<string>)
    ensures results == Collect(rt, fetch, defaultConf, boxIds).0
    ensures var errs := Collect(rt, fetch, defaultConf, boxIds).1;
            err == if |errs| == 0 then None else Some(Join(errs, "\n"))
  {
    results := [];
    var errs: seq<string> := [];
    for i := 0 to |boxIds|
      invariant (results, errs) == Collect(rt, fetch, defaultConf, boxIds[..i])
    {
      assert boxIds[..i + 1][..i] == boxIds[..i];
      var res := CheckBox(rt, fetch, boxIds[i], defaultConf);
      if res.Err? {
        errs := errs + [res.msg];
        continue;
      }
      results := results + [res.value];
    }
    assert boxIds[..|boxIds|] == boxIds;
    if |errs| != 0 {
      return results, Some(Join(errs, "\n"));
    }
    return results, None;
  }

  /** The outcome of each id, in input order. */
  function Outcomes<T>(outcome: string -> Result<T>, ids: seq<string>): (os: seq<Result<T>>)
    ensures |os| == |ids| && forall k :: 0 <= k < |ids| ==> os[k] == outcome(ids[k])
  {
    if ids == [] then [] else Outcomes(outcome, ids[..|ids| - 1]) + [outcome(ids[|ids| - 1])]
  }

  /** Values wrapped back into successful outcomes. */
  function Oks<T>(vs: seq<T>): seq<Result<T>>
  {
    if vs == [] then [] else Oks(vs[..|vs| - 1]) + [Ok(vs[|vs| - 1])]
  }

  /** Messages wrapped back into failed outcomes. */
  function Errs<T>(ms: seq<string>): seq<Result<T>>
  {
    if ms == [] then [] else Errs(ms[..|ms| - 1]) + [Err(ms[|ms| - 1])]
  }

  /**
   * Gather keeps input order: the values, as successes, and the messages, as
   * failures, each appear among the ids' outcomes in the order of the ids.
   */
  lemma {:induction false} GatherOrder<T>(outcome: string -> Result<T>, ids: seq<string>)
    ensures IsSubsequence(Oks(Gather(outcome, ids).0), Outcomes(outcome, ids))
    ensures IsSubsequence(Errs<T>(Gather(outcome, ids).1), Outcomes(outcome, ids))
  {
    if ids != [] {
      var init := ids[..|ids| - 1];
      GatherOrder(outcome, init);
      var (rs, errs) := Gather(outcome, init);
      var last := outcome(ids[|ids| - 1]);
      assert Outcomes(outcome, ids) == Outcomes(outcome, init) + [last];
      match last
      case Ok(v) =>
        assert Gather(outcome, ids) == (rs + [v], errs);
        assert (rs + [v])[..|rs|] == rs;
        assert Oks(rs + [v]) == Oks(rs) + [Ok(v)];
        SubsequenceExtend(Oks(rs), Outcomes(outcome, init), last, true);
        SubsequenceExtend(Errs<T>(errs), Outcomes(outcome, init), last, false);
      case Err(m) =>
        assert Gather(outcome, ids) == (rs, errs + [m]);
        assert (errs + [m])[..|errs|] == errs;
        assert Errs<T>(errs + [m]) == Errs<T>(errs) + [Err(m)];
        SubsequenceExtend(Oks(rs), Outcomes(outcome, init), last, false);
        SubsequenceExtend(Errs<T>(errs), Outcomes(outcome, init), last, true);
    }
  }

  /**
   * Every id ends up in exactly one of the two lists: a box that succeeds
   * contributes its own entry, a box that fails its message.
   */
  lemma CollectPartition(rt: Runtime, fetch: string -> Result<Box>, defaultConf: NotifyConfig, boxIds: seq<string>)
    ensures var (rs, errs) := Collect(rt, fetch, defaultConf, boxIds);
            |rs| + |errs| == |boxIds| &&
            (forall br :: br in rs <==> exists i :: 0 <= i < |boxIds| && BoxOutcome(rt, fetch, defaultConf, boxIds[i]) == Ok(br)) &&
            (forall m :: m in errs <==> exists i :: 0 <= i < |boxIds| && BoxOutcome(rt, fetch, defaultConf, boxIds[i]) == Err(m))
  {
    var outcome := BoxRule(rt, fetch, defaultConf);
    GatherPartition(outcome, boxIds);
    assert forall i :: 0 <= i < |boxIds| ==> outcome(boxIds[i]) == BoxOutcome(rt, fetch, defaultConf, boxIds[i]);
  }

  /** Gather puts every id in exactly one list, with its own value or message. */
  lemma {:induction false} GatherPartition<T>(outcome: string -> Result<T>, ids: seq<string>)
    ensures |Gather(outcome, ids).0| + |Gather(outcome, ids).1| == |ids|
    ensures forall v :: v in Gather(outcome, ids).0 <==> exists i :: 0 <= i < |ids| && outcome(ids[i]) == Ok(v)
    ensures forall m :: m in Gather(outcome, ids).1 <==> exists i :: 0 <= i < |ids| && outcome(ids[i]) == Err(m)
  {
    if ids != [] {
      var init := ids[..|ids| - 1];
      GatherPartition(outcome, init);
      var last := outcome(ids[|ids| - 1]);
      var (rs0, errs0) := Gather(outcome, init);
      assert forall i :: 0 <= i < |init| ==> init[i] == ids[i];
      forall v ensures v in Gather(outcome, ids).0 <==> exists i :: 0 <= i < |ids| && outcome(ids[i]) == Ok(v)
      {
        if exists i :: 0 <= i < |ids| && outcome(ids[i]) == Ok(v) {
          var i :| 0 <= i < |ids| && outcome(ids[i]) == Ok(v);
          if i < |init| {
            assert outcome(init[i]) == Ok(v);
          }
        }
      }
      forall m ensures m in Gather(outcome, ids).1 <==> exists i :: 0 <= i < |ids| && outcome(ids[i]) == Err(m)
      {
        if exists i :: 0 <= i < |ids| && outcome(ids[i]) == Err(m) {
          var i :| 0 <= i < |ids| && outcome(ids[i]) == Err(m);
          if i < |init| {
            assert outcome(init[i]) == Err(m);
          }
        }
      }
    }
  }

  /** The results and the error messages keep the order of the box ids. */
  lemma CollectOrder(rt: Runtime, fetch: string -> Result<Box>, defaultConf: NotifyConfig, boxIds: seq<string>)
    ensures var (rs, errs) := Collect(rt, fetch, defaultConf, boxIds);
            var outcomes := Outcomes(BoxRule(rt, fetch, defaultConf), boxIds);
            IsSubsequence(Oks(rs), outcomes) && IsSubsequence(Errs<BoxResults>(errs), outcomes)
  {
    GatherOrder(BoxRule(rt, fetch, defaultConf), boxIds);
  }

  /** CheckBoxes reports an error iff at least one box failed. */
  lemma ErrorIffSomeBoxFailed(rt: Runtime, fetch: string -> Result<Box>, defaultConf: NotifyConfig, boxIds: seq<string>)
    ensures |Collect(rt, fetch, defaultConf, boxIds).1| != 0 <==>
            exists i :: 0 <= i < |boxIds| && BoxOutcome(rt, fetch, defaultConf, boxIds[i]).Err?
  {
    CollectPartition(rt, fetch, defaultConf, boxIds);
    var errs := Collect(rt, fetch, defaultConf, boxIds).1;
    if exists i :: 0 <= i < |boxIds| && BoxOutcome(rt, fetch, defaultConf, boxIds[i]).Err? {
      var i :| 0 <= i < |boxIds| && BoxOutcome(rt, fetch, defaultConf, boxIds[i]).Err?;
      assert BoxOutcome(rt, fetch, defaultConf, boxIds[i]).msg in errs;
    }
    if |errs| != 0 {
      assert errs[0] in errs;
    }
  }

  /** Every box in the results carries a configuration, and its results are the engine's run on that configuration. */
  lemma ResultsAreOwnChecks(rt: Runtime, fetch: string -> Result<Box>, defaultConf: NotifyConfig, boxIds: seq<string>, br: BoxResults)
    requires br in Collect(rt, fetch, defaultConf, boxIds).0
    ensures br.box.notifyConf.Some?
    ensures HC.Checks(rt, br.box.notifyConf.value.events, br.box.sensors) == Ok(br.results)
    ensures exists i :: 0 <= i < |boxIds| && fetch(boxIds[i]).Ok? && br.box == WithDefault(fetch(boxIds[i]).value, defaultConf)
  {
    CollectPartition(rt, fetch, defaultConf, boxIds);
    var i :| 0 <= i < |boxIds| && BoxOutcome(rt, fetch, defaultConf, boxIds[i]) == Ok(br);
  }
}
