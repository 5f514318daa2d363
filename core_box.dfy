/**
 * The older check engine of core/Box.go. It enumerates the same (event,
 * sensor) pairs as core/healthchecks.go, but only the four event types it
 * knows produce a result, the failing status is "ERROR" and the lookup rule
 * is called measurement_suspicious. Its Box, Sensor and NotifyConfig records
 * have fewer fields than the osem_api ones reused here; the extra fields
 * (phenomenon, name, notifications) are never read.
 */
module CoreBox {
  import opened Support
  import opened OsemApi
  import HC = HealthChecks

  const CheckOk := "OK"
  const CheckErr := "ERROR"
  const EventMeasurementAge := "measurement_age"
  const EventMeasurementValMin := "measurement_min"
  const EventMeasurementValMax := "measurement_max"
  const EventMeasurementValSuspicious := "measurement_suspicious"

  datatype SuspiciousValue = SuspiciousValue(sensor: string, val: real)

  const SuspiciousVals: set<SuspiciousValue> := {
    SuspiciousValue("BMP280", 0.0),
    SuspiciousValue("HDC1008", 0.0),
    SuspiciousValue("HDC1008", -40.0),
    SuspiciousValue("SDS 011", 0.0)
  }

  datatype CheckResult = CheckResult(status: string, event: string, target: string, value: string)

  /** CheckResult.String */
  function Text(r: CheckResult): (t: string)
    ensures |t| > 0 && t[|t| - 1] == '\n'
  {
    "check " + r.event + " on sensor " + r.target + ": " + r.status + " with value " + r.value + "\n"
  }

  /** The line names the event type and the sensor, and quotes the status and the value. */
  lemma TextNamesAll(r: CheckResult)
    ensures Contains(Text(r), r.event) && Contains(Text(r), r.target) &&
            Contains(Text(r), r.status) && Contains(Text(r), r.value)
  {
    var p0 := "check " + r.event;
    var p1 := p0 + " on sensor " + r.target;
    var p2 := p1 + ": " + r.status;
    var p3 := p2 + " with value " + r.value;
    assert Text(r) == p3 + "\n";
    ContainsSuffix("check ", r.event);
    ContainsAppend(p0, " on sensor ", r.event);
    ContainsAppend(p0 + " on sensor ", r.target, r.event);
    ContainsSuffix(p0 + " on sensor ", r.target);
    ContainsAppend(p1, ": ", r.event);
    ContainsAppend(p1, ": ", r.target);
    ContainsAppend(p1 + ": ", r.status, r.event);
    ContainsAppend(p1 + ": ", r.status, r.target);
    ContainsSuffix(p1 + ": ", r.status);
    ContainsAppend(p2, " with value ", r.event);
    ContainsAppend(p2, " with value ", r.target);
    ContainsAppend(p2, " with value ", r.status);
    ContainsAppend(p2 + " with value ", r.value, r.event);
    ContainsAppend(p2 + " with value ", r.value, r.target);
    ContainsAppend(p2 + " with value ", r.value, r.status);
    ContainsSuffix(p2 + " with value ", r.value);
    ContainsAppend(p3, "\n", r.event);
    ContainsAppend(p3, "\n", r.target);
    ContainsAppend(p3, "\n", r.status);
    ContainsAppend(p3, "\n", r.value);
  }

  /** The event types the switch has a case for. */
  predicate KnownType(t: string)
  {
    t in {EventMeasurementAge, EventMeasurementValMin, EventMeasurementValMax, EventMeasurementValSuspicious}
  }

  /** The targeted pairs whose event type has a case, order kept. */
  function Known(ms: seq<HC.Match>): seq<HC.Match>
  {
    if ms == [] then []
    else Known(ms[..|ms| - 1]) + (if KnownType(ms[|ms| - 1].event.eventType) then [ms[|ms| - 1]] else [])
  }

  /** The pairs this engine evaluates. */
  function Matches(events: seq<NotifyEvent>, sensors: seq<Sensor>): seq<HC.Match>
  {
    Known(HC.Matches(events, sensors))
  }

  /**
   * One pair of a known type (Matches drops the others, so the last branch
   * is the measurement_suspicious case): the rule's result or a parse error.
   */
  function Evaluate(rt: Runtime, m: HC.Match): (r: Result<CheckResult>)
    ensures r.Ok? ==> r.value.event == m.event.eventType && r.value.target == m.sensor.id
    ensures r.Ok? ==> r.value.status in {CheckOk, CheckErr}
  {
    var e, s, lm := m.event, m.sensor, m.measurement;
    if e.eventType == EventMeasurementAge then
      match rt.parseDuration(e.threshold)
      case Err(msg) => Err(msg)
      case Ok(thresh) =>
        Ok(CheckResult(if rt.now - lm.date > thresh then CheckErr else CheckOk, e.eventType, s.id, rt.formatTime(lm.date)))
    else if e.eventType == EventMeasurementValMin || e.eventType == EventMeasurementValMax then
      match rt.parseFloat(e.threshold)
      case Err(msg) => Err(msg)
      case Ok(thresh) =>
        match rt.parseFloat(lm.value)
        case Err(msg) => Err(msg)
        case Ok(val) =>
          var failed := (e.eventType == EventMeasurementValMax && val > thresh) ||
                        (e.eventType == EventMeasurementValMin && val < thresh);
          Ok(CheckResult(if failed then CheckErr else CheckOk, e.eventType, s.id, lm.value))
    else
      match rt.parseFloat(lm.value)
      case Err(msg) => Err(msg)
      case Ok(val) =>
        Ok(CheckResult(if SuspiciousValue(s.sensorType, val) in SuspiciousVals then CheckErr else CheckOk,
                       e.eventType, s.id, lm.value))
  }

  function Rule(rt: Runtime): HC.Match -> Result<CheckResult>
  {
    m => Evaluate(rt, m)
  }

  /** What RunChecks computes: every known-type pair evaluated, the first parse error aborting. */
  function Checks(rt: Runtime, events: seq<NotifyEvent>, sensors: seq<Sensor>): Result<seq<CheckResult>>
  {
    EvalAll(Rule(rt), Matches(events, sensors))
  }

  /** Box.RunChecks (a nil NotifyConf makes the Go code panic). */
  method RunChecks(rt: Runtime, box: Box) returns (r: Result<seq<CheckResult>>)
    requires box.notifyConf.Some?
    ensures r == Checks(rt, box.notifyConf.value.events, box.sensors)
  {
    var events, sensors := box.notifyConf.value.events, box.sensors;
    var results: seq<CheckResult> := [];
    for i := 0 to |events|
      invariant EvalAll(Rule(rt), Known(HC.Matches(events[..i], sensors))) == Ok(results)
    {
      var event := events[i];
      var target := event.target;
      HC.EventStep(events, sensors, i);
      for j := 0 to |sensors|
        invariant EvalAll(Rule(rt), Known(HC.Matches(events[..i], sensors) + HC.SensorMatches(event, sensors[..j]))) == Ok(results)
      {
        var s := sensors[j];
        ghost var before := HC.Matches(events[..i], sensors) + HC.SensorMatches(event, sensors[..j]);
        ghost var after := HC.Matches(events[..i], sensors) + HC.SensorMatches(event, sensors[..j + 1]);
        HC.SensorStep(events, sensors, i, j);
        if s.lastMeasurement.None? {
          continue;
        }
        var lm := s.lastMeasurement.value;
        if target == HC.EventTargetAll || target == s.id {
          Step(rt, before, HC.Match(event, s, lm), results);
          var c := CheckPair(rt, HC.Match(event, s, lm));
          if c.Some? {
            if c.value.Err? {
              AbortRest(rt, events, sensors, i, j, after);
              return Err(c.value.msg);
            }
            results := results + [c.value.value];
          }
        }
      }
    }
    assert events[..|events|] == events;
    r := Ok(results);
  }

  /**
   * The switch on the event type for one targeted sensor that has reported:
   * no outcome for a type without a case, else the result or the parse error.
   */
  method CheckPair(rt: Runtime, m: HC.Match) returns (r: Option<Result<CheckResult>>)
    ensures r == if KnownType(m.event.eventType) then Some(Evaluate(rt, m)) else None
  {
    var event, s, lm := m.event, m.sensor, m.measurement;
    r := None;
    if event.eventType == EventMeasurementAge {
      var status := CheckOk;
      var thresh := rt.parseDuration(event.threshold);
      if thresh.Err? {
        return Some(Err(thresh.msg));
      }
      if rt.now - lm.date > thresh.value {
        status := CheckErr;
      }
      r := Some(Ok(CheckResult(status, event.eventType, s.id, rt.formatTime(lm.date))));
    } else if event.eventType == EventMeasurementValMin || event.eventType == EventMeasurementValMax {
      var status := CheckOk;
      var thresh := rt.parseFloat(event.threshold);
      if thresh.Err? {
        return Some(Err(thresh.msg));
      }
      var val := rt.parseFloat(lm.value);
      if val.Err? {
        return Some(Err(val.msg));
      }
      if (event.eventType == EventMeasurementValMax && val.value > thresh.value) ||
         (event.eventType == EventMeasurementValMin && val.value < thresh.value) {
        status := CheckErr;
      }
      r := Some(Ok(CheckResult(status, event.eventType, s.id, lm.value)));
    } else if event.eventType == EventMeasurementValSuspicious {
      var status := CheckOk;
      var val := rt.parseFloat(lm.value);
      if val.Err? {
        return Some(Err(val.msg));
      }
      if SuspiciousValue(s.sensorType, val.value) in SuspiciousVals {
        status := CheckErr;
      }
      r := Some(Ok(CheckResult(status, event.eventType, s.id, lm.value)));
    }
  }

  /** Evaluating one more pair: skipped if its type is unknown, else its result appended or its error returned. */
  lemma Step(rt: Runtime, before: seq<HC.Match>, m: HC.Match, results: seq<CheckResult>)
    requires EvalAll(Rule(rt), Known(before)) == Ok(results)
    ensures EvalAll(Rule(rt), Known(before + [m])) ==
            if !KnownType(m.event.eventType) then Ok(results)
            else match Evaluate(rt, m)
                 case Err(msg) => Err(msg)
                 case Ok(c) => Ok(results + [c])
  {
    KnownAppend(before, [m]);
    assert [m][..0] == [];
    if KnownType(m.event.eventType) {
      assert Known(before + [m]) == Known(before) + [m];
    } else {
      assert Known(before + [m]) == Known(before);
    }
  }

  /** Once the known pairs up to sensor `j` of event `i` end in an error, the whole run ends in it. */
  lemma AbortRest(rt: Runtime, events: seq<NotifyEvent>, sensors: seq<Sensor>, i: nat, j: nat, done: seq<HC.Match>)
    requires i < |events| && j < |sensors|
    requires done == HC.Matches(events[..i], sensors) + HC.SensorMatches(events[i], sensors[..j + 1])
    requires EvalAll(Rule(rt), Known(done)).Err?
    ensures Checks(rt, events, sensors) == EvalAll(Rule(rt), Known(done))
  {
    var rest := HC.MatchesAt(events, sensors, i, j);
    KnownAppend(done, rest);
    EvalAllErrPrefix(Rule(rt), Known(done), Known(rest));
  }

  lemma {:induction false} KnownAppend(a: seq<HC.Match>, b: seq<HC.Match>)
    ensures Known(a + b) == Known(a) + Known(b)
    decreases |b|
  {
    if b != [] {
      var ab := a + b;
      assert ab[..|ab| - 1] == a + b[..|b| - 1];
      KnownAppend(a, b[..|b| - 1]);
    } else {
      assert a + b == a;
    }
  }

  /** Known keeps exactly the pairs of a known type, and no more of them than there were pairs. */
  lemma {:induction false} KnownMembers(ms: seq<HC.Match>, m: HC.Match)
    ensures m in Known(ms) <==> m in ms && KnownType(m.event.eventType)
    ensures |Known(ms)| <= |ms|
  {
    if ms != [] {
      KnownMembers(ms[..|ms| - 1], m);
      assert ms == ms[..|ms| - 1] + [ms[|ms| - 1]];
    }
  }

  /**
   * The results of a successful run: one per targeted pair of a known type
   * whose sensor has reported, in order, each echoing its event type and
   * sensor id; at most |events|·|sensors| of them.
   */
  lemma ChecksResults(rt: Runtime, events: seq<NotifyEvent>, sensors: seq<Sensor>)
    requires Checks(rt, events, sensors).Ok?
    ensures var rs, ms := Checks(rt, events, sensors).value, Matches(events, sensors);
            |rs| == |ms| <= |events| * |sensors| &&
            forall k :: 0 <= k < |rs| ==>
              Evaluate(rt, ms[k]).Ok? && rs[k] == Evaluate(rt, ms[k]).value &&
              rs[k].event == ms[k].event.eventType && rs[k].target == ms[k].sensor.id &&
              KnownType(rs[k].event) && ms[k].event in events && ms[k].sensor in sensors &&
              HC.Selects(ms[k].event, ms[k].sensor)
  {
    var all := HC.Matches(events, sensors);
    var ms := Matches(events, sensors);
    EvalAllOk(Rule(rt), ms);
    HC.MatchesBound(events, sensors);
    if ms != [] {
      KnownMembers(all, ms[0]);
    }
    forall k | 0 <= k < |ms|
      ensures KnownType(ms[k].event.eventType) && ms[k].event in events && ms[k].sensor in sensors &&
              HC.Selects(ms[k].event, ms[k].sensor)
    {
      KnownMembers(all, ms[k]);
      HC.MatchesMembers(events, sensors, ms[k]);
    }
  }

  /** If no configured event has a known type, a run yields no results and no error. */
  lemma NoKnownTypeNoResults(rt: Runtime, events: seq<NotifyEvent>, sensors: seq<Sensor>)
    requires forall e :: e in events ==> !KnownType(e.eventType)
    ensures Checks(rt, events, sensors) == Ok([])
  {
    var all := HC.Matches(events, sensors);
    if Matches(events, sensors) != [] {
      var m := Matches(events, sensors)[0];
      KnownMembers(all, m);
      HC.MatchesMembers(events, sensors, m);
      assert false;
    }
  }

  /** One event and one sensor it selects: the run is that single pair's evaluation. */
  lemma SinglePair(rt: Runtime, e: NotifyEvent, s: Sensor)
    requires HC.Selects(e, s) && KnownType(e.eventType)
    ensures var m := HC.Match(e, s, s.lastMeasurement.value);
            Checks(rt, [e], [s]) == match Evaluate(rt, m) case Err(msg) => Err(msg) case Ok(c) => Ok([c])
  {
    var m := HC.Match(e, s, s.lastMeasurement.value);
    HC.SingleMatch(e, s);
    assert [m][..0] == [];
    assert Known([m]) == [m];
    assert Rule(rt)(m) == Evaluate(rt, m);
    assert Matches([e], [s]) == [m];
    match Evaluate(rt, m)
    case Err(msg) =>
      assert EvalAll(Rule(rt), [m][..0]) == Ok([]);
      assert Rule(rt)([m][0]) == Err(msg);
      assert EvalAll(Rule(rt), [m]) == Err(msg);
    case Ok(c) =>
      assert EvalAll(Rule(rt), [m][..0]) == Ok([]);
      assert Rule(rt)([m][0]) == Ok(c);
      assert [] + [c] == [c];
      assert EvalAll(Rule(rt), [m]) == Ok([c]);
  }

  /**
   * A run fails exactly when some evaluated pair fails to parse, and then with
   * the first such error. HealthChecks.ChecksError is the same fact for the newer engine.
   */
  lemma ChecksError(rt: Runtime, events: seq<NotifyEvent>, sensors: seq<Sensor>)
    ensures Checks(rt, events, sensors).Err? <==>
            exists k :: 0 <= k < |Matches(events, sensors)| && Evaluate(rt, Matches(events, sensors)[k]).Err?
    ensures Checks(rt, events, sensors).Err? ==>
              exists k :: 0 <= k < |Matches(events, sensors)| &&
                          Evaluate(rt, Matches(events, sensors)[k]) == Err(Checks(rt, events, sensors).msg) &&
                          forall j :: 0 <= j < k ==> Evaluate(rt, Matches(events, sensors)[j]).Ok?
  {
    var ms := Matches(events, sensors);
    EvalAllOk(Rule(rt), ms);
    assert forall k :: 0 <= k < |ms| ==> Rule(rt)(ms[k]) == Evaluate(rt, ms[k]);
    if Checks(rt, events, sensors).Err? {
      EvalAllErr(Rule(rt), ms);
      var k :| 0 <= k < |ms| && Rule(rt)(ms[k]) == Err(Checks(rt, events, sensors).msg) &&
               forall j :: 0 <= j < k ==> Rule(rt)(ms[j]).Ok?;
      assert Evaluate(rt, ms[k]).Err?;
      assert exists k :: 0 <= k < |Matches(events, sensors)| && Evaluate(rt, Matches(events, sensors)[k]).Err?;
      assert Checks(rt, events, sensors).Err? <==>
            exists k :: 0 <= k < |Matches(events, sensors)| && Evaluate(rt, Matches(events, sensors)[k]).Err?;
    }
  }

  /**
   * On age, min and max the older engine and the one of core/healthchecks.go
   * agree: the same errors, the same value, and "ERROR" exactly where the
   * newer one says "FAILED".
   */
  lemma AgreesWithEngine(rt: Runtime, m: HC.Match)
    requires m.event.eventType in {EventMeasurementAge, EventMeasurementValMin, EventMeasurementValMax}
    ensures Evaluate(rt, m).Err? <==> HC.Evaluate(rt, m).Err?
    ensures Evaluate(rt, m).Err? ==> Evaluate(rt, m).msg == HC.Evaluate(rt, m).msg
    ensures Evaluate(rt, m).Ok? ==>
              Evaluate(rt, m).value.value == HC.Evaluate(rt, m).value.value &&
              (Evaluate(rt, m).value.status == CheckErr <==> HC.Evaluate(rt, m).value.status == HC.CheckErr)
  {
  }

  /** measurement_suspicious fails iff (sensor type, value) is in its table, which is the faulty table under another name. */
  lemma SuspiciousRule(rt: Runtime, m: HC.Match)
    requires m.event.eventType == EventMeasurementValSuspicious
    ensures Evaluate(rt, m).Err? <==> rt.parseFloat(m.measurement.value).Err?
    ensures Evaluate(rt, m).Ok? ==>
              Evaluate(rt, m).value.value == m.measurement.value &&
              (Evaluate(rt, m).value.status == CheckErr <==>
                 HC.FaultyValue(m.sensor.sensorType, rt.parseFloat(m.measurement.value).value) in HC.FaultyVals)
    ensures |SuspiciousVals| == 4
  {
  }
}
