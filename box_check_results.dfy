/**
 * The dispatcher revision of core/BoxCheckResults.go: a five-field
 * CheckResult, a filter that keeps only changed results and writes every
 * current status to the global store, the notification dispatch that stops
 * at the first failure, and a box-checking loop that aborts on the first
 * failing box.
 */
module BoxCheckResults {
  import opened Support
  import opened OsemApi
  import HC = HealthChecks

  datatype CheckResult = CheckResult(status: string, event: string, target: string, value: string, threshold: string)

  /** The cache key: a hash of Event, Target and Threshold written one after the other. */
  function EventID(hash: string -> string, r: CheckResult): string
  {
    hash(r.event + r.target + r.threshold)
  }

  /** EventID never looks at Status or Value. */
  lemma EventIDIgnoresOutcome(hash: string -> string, r: CheckResult, status: string, value: string)
    ensures EventID(hash, r.(status := status, value := value)) == EventID(hash, r)
  {
  }

  /** What fmt prints for a verb that has no argument left. */
  const Missing := "%!s(MISSING)"

  /**
   * CheckResult.String. The failing form fills the three-verb message of the
   * event type with only Target and Value, so the third verb prints as
   * Missing. For a type without a message the surplus arguments fmt would
   * append are not modelled.
   */
  function Text(r: CheckResult): (t: string)
    ensures |t| > 0 && t[|t| - 1] == '\n'
  {
    if r.status == HC.CheckOk then
      r.event + " " + r.status + " (on sensor " + r.target + " with value " + r.value + ")\n"
    else
      r.status + ": " + HC.Description(r.event, r.target, r.value, Missing) + "\n"
  }

  /**
   * An OK line starts with the event and names the target and the value. A
   * failing line of a type with a message starts with its status, and its
   * message holds the target, the value and Missing in the three verb slots.
   */
  lemma TextNamesTarget(r: CheckResult)
    ensures r.status == HC.CheckOk ==>
              r.event + " " <= Text(r) && Contains(Text(r), r.target) && Contains(Text(r), r.value)
    ensures r.status != HC.CheckOk && HC.HasDescription(r.event) ==>
              r.status + ": " <= Text(r) &&
              Contains(Text(r), r.target) && Contains(Text(r), r.value) && Contains(Text(r), Missing)
  {
    if r.status == HC.CheckOk {
      OkTextNamesTarget(r);
    } else if HC.HasDescription(r.event) {
      FailingTextNamesTarget(r);
    }
  }

  lemma OkTextNamesTarget(r: CheckResult)
    requires r.status == HC.CheckOk
    ensures r.event + " " <= Text(r) && Contains(Text(r), r.target) && Contains(Text(r), r.value)
  {
    var head := r.event + " ";
    var p0 := head + r.status + " (on sensor ";
    var p1 := p0 + r.target;
    var p2 := p1 + " with value ";
    var p3 := p2 + r.value;
    var t := p3 + ")\n";
    assert Text(r) == t;
    StartsWith(head, r.status + " (on sensor " + r.target + " with value " + r.value + ")\n");
    assert head + (r.status + " (on sensor " + r.target + " with value " + r.value + ")\n") == t;
    ContainsSuffix(p0, r.target);
    ContainsAppend(p1, " with value ", r.target);
    ContainsAppend(p2, r.value, r.target);
    ContainsAppend(p3, ")\n", r.target);
    ContainsSuffix(p2, r.value);
    ContainsAppend(p3, ")\n", r.value);
  }

  lemma StartsWith(head: string, rest: string)
    ensures head <= head + rest
  {
  }

  lemma FailingTextNamesTarget(r: CheckResult)
    requires r.status != HC.CheckOk && HC.HasDescription(r.event)
    ensures r.status + ": " <= Text(r)
    ensures Contains(Text(r), r.target) && Contains(Text(r), r.value) && Contains(Text(r), Missing)
  {
    var head := r.status + ": ";
    var d := HC.Description(r.event, r.target, r.value, Missing);
    assert Text(r) == head + d + "\n";
    HC.DescriptionNamesSensor(r.event, r.target, r.value, Missing);
    InLine(head, d, r.target);
    InLine(head, d, r.value);
    InLine(head, d, Missing);
  }

  /** What occurs in the middle of a line occurs in the line. */
  lemma InLine(head: string, d: string, t: string)
    requires Contains(d, t)
    ensures head <= head + d + "\n" && Contains(head + d + "\n", t)
  {
    ContainsWithin(head, d, "\n", t);
  }

  /** The String() of each result, in order; HealthChecks.Texts is the same over the six-field result. */
  function Texts(rs: seq<CheckResult>): (ts: seq<string>)
    ensures |ts| == |rs| && forall k :: 0 <= k < |rs| ==> ts[k] == Text(rs[k])
  {
    if rs == [] then [] else Texts(rs[..|rs| - 1]) + [Text(rs[|rs| - 1])]
  }

  datatype BoxResults = BoxResults(box: Box, results: seq<CheckResult>)

  /** The Go map keyed by *Box, in insertion order. */
  type Results = seq<BoxResults>

  function TotalSize(results: Results): nat
  {
    if results == [] then 0
    else TotalSize(results[..|results| - 1]) + |results[|results| - 1].results|
  }

  /** A zero total means every box's list is empty. */
  lemma {:induction false} TotalSizeZero(results: Results)
    ensures TotalSize(results) == 0 <==> forall k :: 0 <= k < |results| ==> results[k].results == []
  {
    if results != [] {
      var init := results[..|results| - 1];
      TotalSizeZero(init);
      assert forall k :: 0 <= k < |init| ==> init[k] == results[k];
    }
  }

  /** BoxCheckResults.Size of this revision; core/checkrunner.go's copy is CheckRunner.Size. */
  method Size(results: Results) returns (size: int)
    ensures size == TotalSize(results)
  {
    size := 0;
    for i := 0 to |results|
      invariant size == TotalSize(results[..i])
    {
      assert results[..i + 1][..i] == results[..i];
      size := size + |results[i].results|;
    }
    assert results[..|results|] == results;
  }

  /** (box id, EventID) to the last status; the "watchcache" part of the global configuration store. */
  type Store = map<(string, string), string>

  /** The result should be reported: its status changed, and it is not OK unless OK results are wanted. */
  predicate Due(store: Store, hash: string -> string, boxId: string, r: CheckResult, keepOk: bool)
  {
    var key := (boxId, EventID(hash, r));
    (key !in store || store[key] != r.status) && (r.status != HC.CheckOk || keepOk)
  }

  function KeepDue(store: Store, hash: string -> string, boxId: string, rs: seq<CheckResult>, keepOk: bool): seq<CheckResult>
  {
    if rs == [] then []
    else
      KeepDue(store, hash, boxId, rs[..|rs| - 1], keepOk) +
        (if Due(store, hash, boxId, rs[|rs| - 1], keepOk) then [rs[|rs| - 1]] else [])
  }

  function Filter(store: Store, hash: string -> string, results: Results, keepOk: bool): Results
  {
    if results == [] then []
    else
      var b := results[|results| - 1];
      Filter(store, hash, results[..|results| - 1], keepOk) + [BoxResults(b.box, KeepDue(store, hash, b.box.id, b.results, keepOk))]
  }

  /** The writes of one box's results, in order: each key with the status stored under it. */
  function BoxWrites(hash: string -> string, boxId: string, rs: seq<CheckResult>): seq<((string, string), string)>
  {
    if rs == [] then []
    else BoxWrites(hash, boxId, rs[..|rs| - 1]) + [((boxId, EventID(hash, rs[|rs| - 1])), rs[|rs| - 1].status)]
  }

  /** All writes of the cache-update loop, boxes outer, results inner. */
  function Writes(hash: string -> string, results: Results): seq<((string, string), string)>
  {
    if results == [] then []
    else
      var b := results[|results| - 1];
      Writes(hash, results[..|results| - 1]) + BoxWrites(hash, b.box.id, b.results)
  }

  function Apply(store: Store, ws: seq<((string, string), string)>): Store
  {
    if ws == [] then store
    else Apply(store, ws[..|ws| - 1])[ws[|ws| - 1].0 := ws[|ws| - 1].1]
  }

  /** The global viper store, of which only the cache entries are modelled. */
  class ViperStore {
    var entries: Store

    constructor()
      ensures entries == map[]
    {
      entries := map[];
    }
  }

  /** The first loop of FilterChangedFromCache: the due results of every box, judged against `store`. */
  method DueResults(store: Store, hash: string -> string, results: Results, keepOk: bool) returns (remaining: Results)
    ensures remaining == Filter(store, hash, results, keepOk)
  {
    remaining := [];
    for i := 0 to |results|
      invariant remaining == Filter(store, hash, results[..i], keepOk)
    {
      assert results[..i + 1][..i] == results[..i];
      var box, boxResults := results[i].box, results[i].results;
      var kept: seq<CheckResult> := [];
      for j := 0 to |boxResults|
        invariant kept == KeepDue(store, hash, box.id, boxResults[..j], keepOk)
      {
        assert boxResults[..j + 1][..j] == boxResults[..j];
        var result := boxResults[j];
        var key := (box.id, EventID(hash, result));
        if key !in store || result.status != store[key] {
          if result.status != HC.CheckOk || keepOk {
            kept := kept + [result];
          }
        }
      }
      assert boxResults[..|boxResults|] == boxResults;
      remaining := remaining + [BoxResults(box, kept)];
    }
    assert results[..|results|] == results;
  }

  /** The second loop of FilterChangedFromCache: every result's status written under its key, in order. */
  method WriteStatuses(viper: ViperStore, hash: string -> string, results: Results)
    modifies viper
    ensures viper.entries == Apply(old(viper.entries), Writes(hash, results))
  {
    ghost var start := viper.entries;
    for i := 0 to |results|
      invariant viper.entries == Apply(start, Writes(hash, results[..i]))
    {
      assert results[..i + 1][..i] == results[..i];
      var box, boxResults := results[i].box, results[i].results;
      ghost var done := Writes(hash, results[..i]);
      assert BoxWrites(hash, box.id, boxResults[..0]) == [];
      assert done + [] == done;
      for j := 0 to |boxResults|
        invariant viper.entries == Apply(start, done + BoxWrites(hash, box.id, boxResults[..j]))
      {
        assert boxResults[..j + 1][..j] == boxResults[..j];
        var w := ((box.id, EventID(hash, boxResults[j])), boxResults[j].status);
        ghost var ws := done + BoxWrites(hash, box.id, boxResults[..j]);
        assert done + BoxWrites(hash, box.id, boxResults[..j + 1]) == ws + [w];
        assert (ws + [w])[..|ws|] == ws;
        viper.entries := viper.entries[w.0 := w.1];
      }
      assert boxResults[..|boxResults|] == boxResults;
    }
    assert results[..|results|] == results;
  }

  /**
   * FilterChangedFromCache: the due results of every box, judged against the
   * store as it was, and afterwards the store holds the status of every input
   * result, due or not.
   */
  method FilterChangedFromCache(viper: ViperStore, hash: string -> string, results: Results, keepOk: bool)
    returns (remaining: Results)
    modifies viper
    ensures remaining == Filter(old(viper.entries), hash, results, keepOk)
    ensures viper.entries == Apply(old(viper.entries), Writes(hash, results))
  {
    remaining := DueResults(viper.entries, hash, results, keepOk);
    WriteStatuses(viper, hash, results);
  }

  /** Each box's due results, in order, and only those. */
  lemma {:induction false} KeepDueMembers(store: Store, hash: string -> string, boxId: string, rs: seq<CheckResult>, keepOk: bool)
    ensures forall r :: r in KeepDue(store, hash, boxId, rs, keepOk) <==> r in rs && Due(store, hash, boxId, r, keepOk)
    ensures IsSubsequence(KeepDue(store, hash, boxId, rs, keepOk), rs)
  {
    if rs != [] {
      var init, last := rs[..|rs| - 1], rs[|rs| - 1];
      KeepDueMembers(store, hash, boxId, init, keepOk);
      assert rs == init + [last];
      var keep := Due(store, hash, boxId, last, keepOk);
      var k0 := KeepDue(store, hash, boxId, init, keepOk);
      assert KeepDue(store, hash, boxId, rs, keepOk) == if keep then k0 + [last] else k0;
      SubsequenceExtend(k0, init, last, keep);
    }
  }

  /** Filtering keeps every box in its place and holds, for each, exactly its due results. */
  lemma {:induction false} FilterShape(store: Store, hash: string -> string, results: Results, keepOk: bool)
    ensures |Filter(store, hash, results, keepOk)| == |results|
    ensures forall k :: 0 <= k < |results| ==>
              Filter(store, hash, results, keepOk)[k] ==
                BoxResults(results[k].box, KeepDue(store, hash, results[k].box.id, results[k].results, keepOk))
  {
    if results != [] {
      var init := results[..|results| - 1];
      FilterShape(store, hash, init, keepOk);
      assert forall k :: 0 <= k < |init| ==> init[k] == results[k];
    }
  }

  /** Writes with the same key agree on the status. */
  predicate Consistent(ws: seq<((string, string), string)>)
  {
    forall i, j :: 0 <= i < |ws| && 0 <= j < |ws| && ws[i].0 == ws[j].0 ==> ws[i].1 == ws[j].1
  }

  /** After consistent writes, every written key holds its status. */
  lemma {:induction false} ApplyHolds(store: Store, ws: seq<((string, string), string)>)
    requires Consistent(ws)
    ensures forall w :: w in ws ==> w.0 in Apply(store, ws) && Apply(store, ws)[w.0] == w.1
  {
    if ws != [] {
      var init, last := ws[..|ws| - 1], ws[|ws| - 1];
      assert forall i :: 0 <= i < |init| ==> init[i] == ws[i];
      assert Consistent(init);
      ApplyHolds(store, init);
      forall w | w in ws ensures w.0 in Apply(store, ws) && Apply(store, ws)[w.0] == w.1 {
        if w != last {
          var i :| 0 <= i < |init| && init[i] == w;
          assert ws[i] == w && ws[|ws| - 1] == last;
        }
      }
    }
  }

  /** Every input result is written under its box id and EventID. */
  lemma {:induction false} BoxWritesMembers(hash: string -> string, boxId: string, rs: seq<CheckResult>)
    ensures forall r :: r in rs ==> ((boxId, EventID(hash, r)), r.status) in BoxWrites(hash, boxId, rs)
  {
    if rs != [] {
      assert rs == rs[..|rs| - 1] + [rs[|rs| - 1]];
      BoxWritesMembers(hash, boxId, rs[..|rs| - 1]);
    }
  }

  lemma {:induction false} WritesMembers(hash: string -> string, results: Results)
    ensures forall k, r :: 0 <= k < |results| && r in results[k].results ==>
              ((results[k].box.id, EventID(hash, r)), r.status) in Writes(hash, results)
  {
    if results != [] {
      var init := results[..|results| - 1];
      WritesMembers(hash, init);
      BoxWritesMembers(hash, results[|results| - 1].box.id, results[|results| - 1].results);
      assert forall k :: 0 <= k < |init| ==> init[k] == results[k];
    }
  }

  /**
   * Once the store holds the status of every result, nothing is due: filtering
   * the same input a second time yields only empty lists, provided no two
   * results with the same box id and EventID disagree on their status.
   */
  lemma SecondFilterEmpty(store: Store, hash: string -> string, results: Results, keepOk: bool)
    requires Consistent(Writes(hash, results))
    ensures var again := Filter(Apply(store, Writes(hash, results)), hash, results, keepOk);
            |again| == |results| &&
            forall k :: 0 <= k < |results| ==> again[k] == BoxResults(results[k].box, [])
  {
    var after := Apply(store, Writes(hash, results));
    ApplyHolds(store, Writes(hash, results));
    WritesMembers(hash, results);
    FilterShape(after, hash, results, keepOk);
    forall k | 0 <= k < |results| ensures KeepDue(after, hash, results[k].box.id, results[k].results, keepOk) == [] {
      KeepDueNone(after, hash, results[k].box.id, results[k].results, keepOk);
    }
  }

  lemma {:induction false} KeepDueNone(store: Store, hash: string -> string, boxId: string, rs: seq<CheckResult>, keepOk: bool)
    requires forall r :: r in rs ==> (boxId, EventID(hash, r)) in store && store[(boxId, EventID(hash, r))] == r.status
    ensures KeepDue(store, hash, boxId, rs, keepOk) == []
  {
    if rs != [] {
      assert forall r :: r in rs[..|rs| - 1] ==> r in rs;
      assert rs[|rs| - 1] in rs;
      KeepDueNone(store, hash, boxId, rs[..|rs| - 1], keepOk);
    }
  }

  /** Without OK results wanted, only non-OK results are ever due. */
  lemma DueWithoutOkIsNotOk(store: Store, hash: string -> string, results: Results)
    ensures |Filter(store, hash, results, false)| == |results|
    ensures forall k, r :: 0 <= k < |results| && r in Filter(store, hash, results, false)[k].results ==>
              r.status != HC.CheckOk && r in results[k].results
  {
    FilterShape(store, hash, results, false);
    forall k, r | 0 <= k < |results| && r in Filter(store, hash, results, false)[k].results
      ensures r.status != HC.CheckOk && r in results[k].results
    {
      KeepDueMembers(store, hash, results[k].box.id, results[k].results, false);
    }
  }

  /**
   * The notification loop over the due results: boxes with nothing due are
   * skipped; for each other box its notifier is looked up, the notification
   * composed and submitted; the first lookup or submission error ends the
   * loop. The outcome is that error, if any, and the notifications submitted.
   */
  function Dispatch<N, M>(due: Results, notifierOf: Box -> Result<N>, compose: (N, Box, seq<CheckResult>) -> M,
                          submit: (N, M) -> Option<string>): (Option<string>, seq<M>)
  {
    if due == [] then (None, [])
    else
      var (err, sent) := Dispatch(due[..|due| - 1], notifierOf, compose, submit);
      var b := due[|due| - 1];
      if err.Some? || b.results == [] then (err, sent)
      else
        match notifierOf(b.box)
        case Err(msg) => (Some(msg), sent)
        case Ok(n) =>
          var msg := compose(n, b.box, b.results);
          (submit(n, msg), sent + [msg])
  }

  /** After an error no further box is notified. */
  lemma {:induction false} DispatchStopsAtError<N, M>(a: Results, b: Results, notifierOf: Box -> Result<N>,
                                                       compose: (N, Box, seq<CheckResult>) -> M, submit: (N, M) -> Option<string>)
    requires Dispatch(a, notifierOf, compose, submit).0.Some?
    ensures Dispatch(a + b, notifierOf, compose, submit) == Dispatch(a, notifierOf, compose, submit)
    decreases |b|
  {
    if b == [] {
      assert a + b == a;
    } else {
      var ab := a + b;
      assert ab[..|ab| - 1] == a + b[..|b| - 1];
      DispatchStopsAtError(a, b[..|b| - 1], notifierOf, compose, submit);
    }
  }

  /** With nothing due there is no error and no notifier is consulted. */
  lemma {:induction false} DispatchNothingDue<N, M>(due: Results, notifierOf: Box -> Result<N>,
                                                    compose: (N, Box, seq<CheckResult>) -> M, submit: (N, M) -> Option<string>)
    requires TotalSize(due) == 0
    ensures Dispatch(due, notifierOf, compose, submit) == (None, [])
  {
    if due != [] {
      DispatchNothingDue(due[..|due| - 1], notifierOf, compose, submit);
    }
  }

  /** The dispatch succeeds iff every box with something due has a notifier that accepts its notification. */
  lemma {:induction false} DispatchSucceeds<N, M>(due: Results, notifierOf: Box -> Result<N>,
                                                  compose: (N, Box, seq<CheckResult>) -> M, submit: (N, M) -> Option<string>)
    ensures Dispatch(due, notifierOf, compose, submit).0.None? <==>
            forall k :: 0 <= k < |due| && due[k].results != [] ==>
              notifierOf(due[k].box).Ok? &&
              submit(notifierOf(due[k].box).value, compose(notifierOf(due[k].box).value, due[k].box, due[k].results)).None?
    ensures |Dispatch(due, notifierOf, compose, submit).1| <= |due|
  {
    if due != [] {
      var init := due[..|due| - 1];
      DispatchSucceeds(init, notifierOf, compose, submit);
      assert forall k :: 0 <= k < |init| ==> init[k] == due[k];
    }
  }

  /**
   * SendNotifications: filters against the store (writing every current
   * status to it first), returns nil when nothing is due, else dispatches.
   * `notifierOf` stands for Box.GetNotifier, `compose` for the notifier's
   * ComposeNotification and `submit` for its Submit; the second output lists
   * the notifications handed to `submit`.
   */
  method SendNotifications<N, M>(viper: ViperStore, hash: string -> string, results: Results, notifierOf: Box -> Result<N>,
                                 compose: (N, Box, seq<CheckResult>) -> M, submit: (N, M) -> Option<string>)
    returns (err: Option<string>, sent: seq<M>)
    modifies viper
    ensures viper.entries == Apply(old(viper.entries), Writes(hash, results))
    ensures (err, sent) == Dispatch(Filter(old(viper.entries), hash, results, false), notifierOf, compose, submit)
  {
    var due := FilterChangedFromCache(viper, hash, results, false);
    var n := Size(due);
    if n == 0 {
      DispatchNothingDue(due, notifierOf, compose, submit);
      return None, [];
    }
    err, sent := None, [];
    for i := 0 to |due|
      invariant (err, sent) == Dispatch(due[..i], notifierOf, compose, submit)
      invariant err.None?
    {
      assert due[..i + 1][..i] == due[..i];
      var box, resultsDue := due[i].box, due[i].results;
      if |resultsDue| == 0 {
        continue;
      }
      var notifier := notifierOf(box);
      if notifier.Err? {
        assert due == due[..i + 1] + due[i + 1..];
        DispatchStopsAtError(due[..i + 1], due[i + 1..], notifierOf, compose, submit);
        return Some(notifier.msg), sent;
      }
      var notification := compose(notifier.value, box, resultsDue);
      sent := sent + [notification];
      var e := submit(notifier.value, notification);
      if e.Some? {
        assert due == due[..i + 1] + due[i + 1..];
        DispatchStopsAtError(due[..i + 1], due[i + 1..], notifierOf, compose, submit);
        return e, sent;
      }
    }
    assert due[..|due|] == due;
  }

  /**
   * checkBox: fetch the box, give it the default configuration when it has
   * none, run its checks. `fetch` stands for the API client's GetBox and
   * `runChecks` for Box.RunChecks of this revision, which is not part of
   * this model.
   */
  function BoxOutcome(fetch: string -> Result<Box>, runChecks: Box -> Result<seq<CheckResult>>,
                      defaultConf: NotifyConfig, boxId: string): (r: Result<BoxResults>)
    ensures r.Err? <==> fetch(boxId).Err? || runChecks(WithDefault(fetch(boxId).value, defaultConf)).Err?
    ensures r.Ok? ==> r == Ok(BoxResults(WithDefault(fetch(boxId).value, defaultConf),
                                         runChecks(WithDefault(fetch(boxId).value, defaultConf)).value))
  {
    match fetch(boxId)
    case Err(msg) => Err(msg)
    case Ok(fetched) =>
      var box := if fetched.notifyConf.None? then fetched.(notifyConf := Some(defaultConf)) else fetched;
      match runChecks(box)
      case Err(msg) => Err(msg)
      case Ok(rs) => Ok(BoxResults(box, rs))
  }

  function BoxRule(fetch: string -> Result<Box>, runChecks: Box -> Result<seq<CheckResult>>,
                   defaultConf: NotifyConfig): string -> Result<BoxResults>
  {
    id => BoxOutcome(fetch, runChecks, defaultConf, id)
  }

  /** CheckBoxes: every box's results, or nothing but the first failing box's error. */
  method CheckBoxes(fetch: string -> Result<Box>, runChecks: Box -> Result<seq<CheckResult>>,
                    boxIds: seq<string>, defaultConf: NotifyConfig) returns (r: Result<Results>)
    ensures r == EvalAll(BoxRule(fetch, runChecks, defaultConf), boxIds)
  {
    var results: Results := [];
    for i := 0 to |boxIds|
      invariant EvalAll(BoxRule(fetch, runChecks, defaultConf), boxIds[..i]) == Ok(results)
    {
      assert boxIds[..i + 1][..i] == boxIds[..i];
      var res := BoxOutcome(fetch, runChecks, defaultConf, boxIds[i]);
      if res.Err? {
        assert boxIds == boxIds[..i + 1] + boxIds[i + 1..];
        EvalAllErrPrefix(BoxRule(fetch, runChecks, defaultConf), boxIds[..i + 1], boxIds[i + 1..]);
        return Err(res.msg);
      }
      results := results + [res.value];
    }
    assert boxIds[..|boxIds|] == boxIds;
    r := Ok(results);
  }

  /**
   * CheckBoxes fails iff some box fails, and then with the first failing
   * box's error; otherwise it holds one entry per id, in order.
   */
  lemma CheckBoxesOutcome(fetch: string -> Result<Box>, runChecks: Box -> Result<seq<CheckResult>>,
                          boxIds: seq<string>, defaultConf: NotifyConfig)
    ensures var r := EvalAll(BoxRule(fetch, runChecks, defaultConf), boxIds);
            (r.Ok? <==> forall i :: 0 <= i < |boxIds| ==> BoxOutcome(fetch, runChecks, defaultConf, boxIds[i]).Ok?) &&
            (r.Ok? ==> |r.value| == |boxIds| &&
                       forall i :: 0 <= i < |boxIds| ==> r.value[i] == BoxOutcome(fetch, runChecks, defaultConf, boxIds[i]).value) &&
            (r.Err? ==> exists i :: 0 <= i < |boxIds| &&
                          BoxOutcome(fetch, runChecks, defaultConf, boxIds[i]) == Err(r.msg) &&
                          forall j :: 0 <= j < i ==> BoxOutcome(fetch, runChecks, defaultConf, boxIds[j]).Ok?)
  {
    var f := BoxRule(fetch, runChecks, defaultConf);
    EvalAllOk(f, boxIds);
    assert forall i :: 0 <= i < |boxIds| ==> f(boxIds[i]) == BoxOutcome(fetch, runChecks, defaultConf, boxIds[i]);
    if EvalAll(f, boxIds).Err? {
      EvalAllErr(f, boxIds);
    }
  }
}
