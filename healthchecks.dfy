/**
 * The check engine of core/healthchecks.go: every configured event is
 * applied to every sensor that has reported and that the event targets,
 * producing one CheckResult per (event, sensor) pair.
 */
module HealthChecks {
  import opened Support
  import opened OsemApi

  const CheckOk := "OK"
  const CheckErr := "FAILED"
  const EventMeasurementAge := "measurement_age"
  const EventMeasurementValMin := "measurement_min"
  const EventMeasurementValMax := "measurement_max"
  const EventMeasurementValFaulty := "measurement_faulty"
  const EventTargetAll := "all"

  /** A (sensor type, reading) pair known to mean a broken or disconnected sensor. */
  datatype FaultyValue = FaultyValue(sensor: string, val: real)

  const FaultyVals: set<FaultyValue> := {
    FaultyValue("BMP280", 0.0),
    FaultyValue("HDC1008", 0.0),
    FaultyValue("HDC1008", -40.0),
    FaultyValue("SDS 011", 0.0)
  }

  datatype CheckResult = CheckResult(
    status: string,
    event: string,
    target: string,
    targetName: string,
    value: string,
    threshold: string)

  /** The cache key of a rule instance: a hash of Event, Target and Threshold written one after the other. */
  function EventID(hash: string -> string, r: CheckResult): string
  {
    hash(r.event + r.target + r.threshold)
  }

  /** The EventID never looks at Status, Value or TargetName. */
  lemma EventIDIgnoresOutcome(hash: string -> string, r: CheckResult, r': CheckResult)
    requires r.event + r.target + r.threshold == r'.event + r'.target + r'.threshold
    ensures EventID(hash, r) == EventID(hash, r')
  {
  }

  /** The message template of `checkTypes`, filled with three arguments; "" for an unknown type. */
  function Description(event: string, a: string, b: string, c: string): string
  {
    if event == EventMeasurementAge then "No measurement from " + a + " (" + b + ") since " + c
    else if event == EventMeasurementValMin then "Sensor " + a + " (" + b + ") reads low value of " + c
    else if event == EventMeasurementValMax then "Sensor " + a + " (" + b + ") reads high value of " + c
    else if event == EventMeasurementValFaulty then "Sensor " + a + " (" + b + ") reads presumably faulty value of " + c
    else ""
  }

  /** CheckResult.String: one text line per result. */
  function Text(r: CheckResult): (t: string)
    ensures |t| > 0 && t[|t| - 1] == '\n'
  {
    if r.status == CheckOk then
      r.event + " " + r.status + " (on sensor " + r.targetName + " (" + r.target + ") with value " + r.value + ")\n"
    else
      r.status + ": " + Description(r.event, r.targetName, r.target, r.value) + "\n"
  }

  /** The event types that have a message in the check-type table. */
  predicate HasDescription(event: string)
  {
    event in {EventMeasurementAge, EventMeasurementValMin, EventMeasurementValMax, EventMeasurementValFaulty}
  }

  /** A type's message names the sensor by name and id and quotes the value. */
  lemma DescriptionNamesSensor(event: string, a: string, b: string, c: string)
    requires HasDescription(event)
    ensures Contains(Description(event, a, b, c), a) && Contains(Description(event, a, b, c), b) &&
            Contains(Description(event, a, b, c), c)
  {
    var head := if event == EventMeasurementAge then "No measurement from " else "Sensor ";
    var tail := if event == EventMeasurementAge then ") since "
                else if event == EventMeasurementValMin then ") reads low value of "
                else if event == EventMeasurementValMax then ") reads high value of "
                else ") reads presumably faulty value of ";
    assert Description(event, a, b, c) == head + a + " (" + b + tail + c;
    ContainsSuffix(head, a);
    ContainsAppend(head + a, " (", a);
    ContainsAppend(head + a + " (", b, a);
    ContainsAppend(head + a + " (" + b, tail, a);
    ContainsAppend(head + a + " (" + b + tail, c, a);
    ContainsSuffix(head + a + " (", b);
    ContainsAppend(head + a + " (" + b, tail, b);
    ContainsAppend(head + a + " (" + b + tail, c, b);
    ContainsSuffix(head + a + " (" + b + tail, c);
  }

  /**
   * Every OK line, and every failing line of a type with a message, names
   * the sensor by id and by phenomenon and quotes the value.
   */
  lemma TextNamesSensor(r: CheckResult)
    requires r.status == CheckOk || HasDescription(r.event)
    ensures Contains(Text(r), r.target) && Contains(Text(r), r.targetName) && Contains(Text(r), r.value)
  {
    if r.status == CheckOk {
      var p0 := r.event + " " + r.status + " (on sensor ";
      var p1 := p0 + r.targetName;
      var p2 := p1 + " (";
      var p3 := p2 + r.target;
      var p4 := p3 + ") with value ";
      var p5 := p4 + r.value;
      assert Text(r) == p5 + ")\n";
      ContainsSuffix(p0, r.targetName);
      ContainsAppend(p1, " (", r.targetName);
      ContainsAppend(p2, r.target, r.targetName);
      ContainsAppend(p3, ") with value ", r.targetName);
      ContainsAppend(p4, r.value, r.targetName);
      ContainsAppend(p5, ")\n", r.targetName);
      ContainsSuffix(p2, r.target);
      ContainsAppend(p3, ") with value ", r.target);
      ContainsAppend(p4, r.value, r.target);
      ContainsAppend(p5, ")\n", r.target);
      ContainsSuffix(p4, r.value);
      ContainsAppend(p5, ")\n", r.value);
    } else {
      var d := Description(r.event, r.targetName, r.target, r.value);
      DescriptionNamesSensor(r.event, r.targetName, r.target, r.value);
      assert Text(r) == r.status + ": " + d + "\n";
      ContainsPrepend(r.status + ": ", d, r.target);
      ContainsAppend(r.status + ": " + d, "\n", r.target);
      ContainsPrepend(r.status + ": ", d, r.targetName);
      ContainsAppend(r.status + ": " + d, "\n", r.targetName);
      ContainsPrepend(r.status + ": ", d, r.value);
      ContainsAppend(r.status + ": " + d, "\n", r.value);
    }
  }

  /** The String() of each result, in order; BoxCheckResults.Texts is the same over the five-field result. */
  function Texts(rs: seq<CheckResult>): (ts: seq<string>)
    ensures |ts| == |rs| && forall k :: 0 <= k < |rs| ==> ts[k] == Text(rs[k])
  {
    if rs == [] then [] else Texts(rs[..|rs| - 1]) + [Text(rs[|rs| - 1])]
  }

  /** A configured event paired with a sensor it applies to and that sensor's last reading. */
  datatype Match = Match(event: NotifyEvent, sensor: Sensor, measurement: Measurement)

  /** The sensor has reported and the event targets it, by id or through "all". */
  predicate Selects(e: NotifyEvent, s: Sensor)
  {
    s.lastMeasurement.Some? && (e.target == EventTargetAll || e.target == s.id)
  }

  /** The (event, sensor) pairs one event produces, in sensor order. */
  function SensorMatches(e: NotifyEvent, sensors: seq<Sensor>): seq<Match>
  {
    if sensors == [] then []
    else
      var s := sensors[|sensors| - 1];
      SensorMatches(e, sensors[..|sensors| - 1]) +
        (if Selects(e, s) then [Match(e, s, s.lastMeasurement.value)] else [])
  }

  /** All pairs the engine evaluates: events outer, sensors inner. */
  function Matches(events: seq<NotifyEvent>, sensors: seq<Sensor>): seq<Match>
  {
    if events == [] then []
    else Matches(events[..|events| - 1], sensors) + SensorMatches(events[|events| - 1], sensors)
  }

  /** One (event, sensor) pair: the rule for its event type, or a parse error. */
  function Evaluate(rt: Runtime, m: Match): (r: Result<CheckResult>)
    ensures r.Ok? ==> r.value.event == m.event.eventType && r.value.threshold == m.event.threshold &&
                      r.value.target == m.sensor.id && r.value.targetName == m.sensor.phenomenon
    ensures r.Ok? ==> r.value.status in {CheckOk, CheckErr}
  {
    var e, s, lm := m.event, m.sensor, m.measurement;
    var result := (status: string, value: string) => CheckResult(status, e.eventType, s.id, s.phenomenon, value, e.threshold);
    if e.eventType == EventMeasurementAge then
      match rt.parseDuration(e.threshold)
      case Err(msg) => Err(msg)
      case Ok(thresh) =>
        Ok(result(if rt.now - lm.date > thresh then CheckErr else CheckOk, rt.formatTime(lm.date)))
    else if e.eventType == EventMeasurementValMin || e.eventType == EventMeasurementValMax then
      match rt.parseFloat(e.threshold)
      case Err(msg) => Err(msg)
      case Ok(thresh) =>
        match rt.parseFloat(lm.value)
        case Err(msg) => Err(msg)
        case Ok(val) =>
          var failed := (e.eventType == EventMeasurementValMax && val > thresh) ||
                        (e.eventType == EventMeasurementValMin && val < thresh);
          Ok(result(if failed then CheckErr else CheckOk, lm.value))
    else if e.eventType == EventMeasurementValFaulty then
      match rt.parseFloat(lm.value)
      case Err(msg) => Err(msg)
      case Ok(val) =>
        Ok(result(if FaultyValue(s.sensorType, val) in FaultyVals then CheckErr else CheckOk, lm.value))
    else
      Ok(result(CheckOk, ""))
  }

  function Rule(rt: Runtime): Match -> Result<CheckResult>
  {
    m => Evaluate(rt, m)
  }

  /** What RunChecks computes for a box: every pair evaluated, the first parse error aborting. */
  function Checks(rt: Runtime, events: seq<NotifyEvent>, sensors: seq<Sensor>): Result<seq<CheckResult>>
  {
    EvalAll(Rule(rt), Matches(events, sensors))
  }

  /** Box.RunChecks. The box must carry a config (a nil NotifyConf makes the Go code panic). */
  method RunChecks(rt: Runtime, box: Box) returns (r: Result<seq<CheckResult>>)
    requires box.notifyConf.Some?
    ensures r == Checks(rt, box.notifyConf.value.events, box.sensors)
  {
    var events, sensors := box.notifyConf.value.events, box.sensors;
    var results: seq<CheckResult> := [];
    for i := 0 to |events|
      invariant EvalAll(Rule(rt), Matches(events[..i], sensors)) == Ok(results)
    {
      var event := events[i];
      EventStep(events, sensors, i);
      for j := 0 to |sensors|
        invariant EvalAll(Rule(rt), Matches(events[..i], sensors) + SensorMatches(event, sensors[..j])) == Ok(results)
      {
        var s := sensors[j];
        ghost var before := Matches(events[..i], sensors) + SensorMatches(event, sensors[..j]);
        ghost var after := Matches(events[..i], sensors) + SensorMatches(event, sensors[..j + 1]);
        SensorStep(events, sensors, i, j);
        if s.lastMeasurement.None? {
          continue;
        }
        var lm := s.lastMeasurement.value;
        if event.target == EventTargetAll || event.target == s.id {
          EvalAllAppend(Rule(rt), before, [Match(event, s, lm)]);
          var res := EvaluatePair(rt, Match(event, s, lm));
          if res.Err? {
            AbortRest(rt, events, sensors, i, j, after);
            return Err(res.msg);
          }
          results := results + [res.value];
        }
      }
    }
    assert events[..|events|] == events;
    r := Ok(results);
  }

  /** Starting event `i`: the pairs so far are those of the earlier events, and its own pairs are appended to them. */
  lemma EventStep(events: seq<NotifyEvent>, sensors: seq<Sensor>, i: nat)
    requires i < |events|
    ensures Matches(events[..i], sensors) + SensorMatches(events[i], sensors[..0]) == Matches(events[..i], sensors)
    ensures Matches(events[..i + 1], sensors) == Matches(events[..i], sensors) + SensorMatches(events[i], sensors[..|sensors|])
  {
    assert events[..i + 1][..i] == events[..i];
    assert sensors[..|sensors|] == sensors;
  }

  /** Sensor `j` adds its pair to the event's pairs so far iff the event selects it. */
  lemma SensorMatchesStep(e: NotifyEvent, sensors: seq<Sensor>, j: nat)
    requires j < |sensors|
    ensures SensorMatches(e, sensors[..j + 1]) ==
            SensorMatches(e, sensors[..j]) + (if Selects(e, sensors[j]) then [Match(e, sensors[j], sensors[j].lastMeasurement.value)] else [])
  {
    assert sensors[..j + 1][..j] == sensors[..j];
  }

  /** The same step seen from the whole run: sensor `j` of event `i` adds its pair iff the event selects it. */
  lemma SensorStep(events: seq<NotifyEvent>, sensors: seq<Sensor>, i: nat, j: nat)
    requires i < |events| && j < |sensors|
    ensures var e, s, done := events[i], sensors[j], Matches(events[..i], sensors);
            Selects(e, s) ==>
              done + SensorMatches(e, sensors[..j + 1]) == done + SensorMatches(e, sensors[..j]) + [Match(e, s, s.lastMeasurement.value)]
    ensures var e, s, done := events[i], sensors[j], Matches(events[..i], sensors);
            !Selects(e, s) ==> done + SensorMatches(e, sensors[..j + 1]) == done + SensorMatches(e, sensors[..j])
  {
    var e, s, done := events[i], sensors[j], Matches(events[..i], sensors);
    SensorMatchesStep(e, sensors, j);
    if Selects(e, s) {
      var m := Match(e, s, s.lastMeasurement.value);
      assert done + (SensorMatches(e, sensors[..j]) + [m]) == done + SensorMatches(e, sensors[..j]) + [m];
    } else {
      assert SensorMatches(e, sensors[..j]) + [] == SensorMatches(e, sensors[..j]);
    }
  }

  /** One event and one sensor it selects make exactly one pair. */
  lemma SingleMatch(e: NotifyEvent, s: Sensor)
    requires Selects(e, s)
    ensures Matches([e], [s]) == [Match(e, s, s.lastMeasurement.value)]
  {
    assert [e][..0] == [];
    assert [s][..0] == [];
    assert SensorMatches(e, [s]) == [Match(e, s, s.lastMeasurement.value)];
  }

  /** The body of RunChecks for one selected pair: the switch over the event type, with an early return on a parse error. */
  method EvaluatePair(rt: Runtime, m: Match) returns (r: Result<CheckResult>)
    ensures r == Evaluate(rt, m)
  {
    var event, s, lm := m.event, m.sensor, m.measurement;
    var status := CheckOk;
    var target := s.id;
    var targetName := s.phenomenon;
    var value := "";
    if event.eventType == EventMeasurementAge {
      var thresh := rt.parseDuration(event.threshold);
      if thresh.Err? {
        return Err(thresh.msg);
      }
      if rt.now - lm.date > thresh.value {
        status := CheckErr;
      }
      value := rt.formatTime(lm.date);
    } else if event.eventType == EventMeasurementValMin || event.eventType == EventMeasurementValMax {
      var thresh := rt.parseFloat(event.threshold);
      if thresh.Err? {
        return Err(thresh.msg);
      }
      var val := rt.parseFloat(lm.value);
      if val.Err? {
        return Err(val.msg);
      }
      if (event.eventType == EventMeasurementValMax && val.value > thresh.value) ||
         (event.eventType == EventMeasurementValMin && val.value < thresh.value) {
        status := CheckErr;
      }
      value := lm.value;
    } else if event.eventType == EventMeasurementValFaulty {
      var val := rt.parseFloat(lm.value);
      if val.Err? {
        return Err(val.msg);
      }
      if FaultyValue(s.sensorType, val.value) in FaultyVals {
        status := CheckErr;
      }
      value := lm.value;
    }
    return Ok(CheckResult(status, event.eventType, target, targetName, value, event.threshold));
  }

  /**
   * Once the pairs up to sensor `j` of event `i` end in an error, the
   * evaluation of all pairs ends in that same error.
   */
  lemma AbortRest(rt: Runtime, events: seq<NotifyEvent>, sensors: seq<Sensor>, i: nat, j: nat, done: seq<Match>)
    requires i < |events| && j < |sensors|
    requires done == Matches(events[..i], sensors) + SensorMatches(events[i], sensors[..j + 1])
    requires EvalAll(Rule(rt), done).Err?
    ensures Checks(rt, events, sensors) == EvalAll(Rule(rt), done)
  {
    var rest := MatchesAt(events, sensors, i, j);
    EvalAllErrPrefix(Rule(rt), done, rest);
  }

  /** The pairs up to sensor `j` of event `i` are a prefix of all pairs. */
  lemma MatchesAt(events: seq<NotifyEvent>, sensors: seq<Sensor>, i: nat, j: nat) returns (rest: seq<Match>)
    requires i < |events| && j < |sensors|
    ensures Matches(events, sensors) ==
            (Matches(events[..i], sensors) + SensorMatches(events[i], sensors[..j + 1])) + rest
  {
    var a, b, c := Matches(events[..i], sensors), SensorMatches(events[i], sensors), Matches(events[i + 1..], sensors);
    MatchesSplit(events, sensors, i);
    var b1, b2 := SensorMatches(events[i], sensors[..j + 1]), SensorMatches(events[i], sensors[j + 1..]);
    SensorMatchesAppend(events[i], sensors[..j + 1], sensors[j + 1..]);
    assert sensors[..j + 1] + sensors[j + 1..] == sensors;
    assert b == b1 + b2;
    rest := b2 + c;
    assert a + b + c == (a + b1) + rest;
  }

  lemma {:induction false} SensorMatchesAppend(e: NotifyEvent, a: seq<Sensor>, b: seq<Sensor>)
    ensures SensorMatches(e, a + b) == SensorMatches(e, a) + SensorMatches(e, b)
    decreases |b|
  {
    if b != [] {
      var ab := a + b;
      assert ab[..|ab| - 1] == a + b[..|b| - 1];
      SensorMatchesAppend(e, a, b[..|b| - 1]);
    } else {
      assert a + b == a;
    }
  }

  lemma {:induction false} MatchesAppend(a: seq<NotifyEvent>, b: seq<NotifyEvent>, sensors: seq<Sensor>)
    ensures Matches(a + b, sensors) == Matches(a, sensors) + Matches(b, sensors)
    decreases |b|
  {
    if b != [] {
      var ab := a + b;
      assert ab[..|ab| - 1] == a + b[..|b| - 1];
      MatchesAppend(a, b[..|b| - 1], sensors);
    } else {
      assert a + b == a;
    }
  }

  /** Splitting the event list at event `i`. */
  lemma MatchesSplit(events: seq<NotifyEvent>, sensors: seq<Sensor>, i: nat)
    requires i < |events|
    ensures Matches(events, sensors) ==
            Matches(events[..i], sensors) + SensorMatches(events[i], sensors) + Matches(events[i + 1..], sensors)
  {
    assert events == events[..i] + ([events[i]] + events[i + 1..]);
    MatchesAppend(events[..i], [events[i]] + events[i + 1..], sensors);
    MatchesAppend([events[i]], events[i + 1..], sensors);
    assert ([] + [events[i]])[..0] == [];
    assert Matches([events[i]], sensors) == SensorMatches(events[i], sensors);
  }

  /**
   * The evaluated pairs are exactly the (event, sensor) pairs of the
   * configuration where the sensor has a last measurement and the event
   * targets it.
   */
  lemma {:induction false} SensorMatchesMembers(e: NotifyEvent, sensors: seq<Sensor>, m: Match)
    ensures m in SensorMatches(e, sensors) <==>
            m.event == e && m.sensor in sensors && Selects(e, m.sensor) &&
            m.sensor.lastMeasurement == Some(m.measurement)
  {
    if sensors != [] {
      SensorMatchesMembers(e, sensors[..|sensors| - 1], m);
      assert sensors == sensors[..|sensors| - 1] + [sensors[|sensors| - 1]];
    }
  }

  lemma {:induction false} MatchesMembers(events: seq<NotifyEvent>, sensors: seq<Sensor>, m: Match)
    ensures m in Matches(events, sensors) <==>
            m.event in events && m.sensor in sensors && Selects(m.event, m.sensor) &&
            m.sensor.lastMeasurement == Some(m.measurement)
  {
    if events != [] {
      var last := events[|events| - 1];
      MatchesMembers(events[..|events| - 1], sensors, m);
      SensorMatchesMembers(last, sensors, m);
      assert events == events[..|events| - 1] + [last];
    }
  }

  lemma {:induction false} SensorMatchesBound(e: NotifyEvent, sensors: seq<Sensor>)
    ensures |SensorMatches(e, sensors)| <= |sensors|
  {
    if sensors != [] {
      SensorMatchesBound(e, sensors[..|sensors| - 1]);
    }
  }

  /** At most one result per (event, sensor) pair. */
  lemma {:induction false} MatchesBound(events: seq<NotifyEvent>, sensors: seq<Sensor>)
    ensures |Matches(events, sensors)| <= |events| * |sensors|
  {
    if events != [] {
      MatchesBound(events[..|events| - 1], sensors);
      SensorMatchesBound(events[|events| - 1], sensors);
      assert (|events| - 1) * |sensors| + |sensors| == |events| * |sensors|;
    }
  }

  /**
   * The results of a successful run: one per evaluated pair, in order, each
   * echoing its event and sensor; a sensor without a last measurement, or
   * one the event does not target, contributes none.
   */
  lemma ChecksResults(rt: Runtime, events: seq<NotifyEvent>, sensors: seq<Sensor>)
    requires Checks(rt, events, sensors).Ok?
    ensures var rs, ms := Checks(rt, events, sensors).value, Matches(events, sensors);
            |rs| == |ms| <= |events| * |sensors| &&
            forall k :: 0 <= k < |rs| ==>
              Evaluate(rt, ms[k]).Ok? && rs[k] == Evaluate(rt, ms[k]).value &&
              rs[k].event == ms[k].event.eventType && rs[k].threshold == ms[k].event.threshold &&
              rs[k].target == ms[k].sensor.id && rs[k].targetName == ms[k].sensor.phenomenon &&
              ms[k].event in events && ms[k].sensor in sensors && Selects(ms[k].event, ms[k].sensor)
  {
    var ms := Matches(events, sensors);
    EvalAllOk(Rule(rt), ms);
    MatchesBound(events, sensors);
    forall k | 0 <= k < |ms|
      ensures ms[k].event in events && ms[k].sensor in sensors && Selects(ms[k].event, ms[k].sensor)
    {
      MatchesMembers(events, sensors, ms[k]);
    }
  }

  /**
   * A run fails exactly when some evaluated pair fails to parse, and then with
   * the first such error. CoreBox.ChecksError is the same fact for core/Box.go's engine.
   */
  lemma ChecksError(rt: Runtime, events: seq<NotifyEvent>, sensors: seq<Sensor>)
    ensures Checks(rt, events, sensors).Err? <==>
            exists k :: 0 <= k < |Matches(events, sensors)| && Evaluate(rt, Matches(events, sensors)[k]).Err?
    ensures Checks(rt, events, sensors).Err? ==>
              exists k :: 0 <= k < |Matches(events, sensors)| &&
                          Evaluate(rt, Matches(events, sensors)[k]) == Err(Checks(rt, events, sensors).msg) &&
                          forall j :: 0 <= j < k ==> Evaluate(rt, Matches(events, sensors)[j]).Ok?
  {
    var ms := Matches(events, sensors);
    EvalAllOk(Rule(rt), ms);
    assert forall k :: 0 <= k < |ms| ==> Rule(rt)(ms[k]) == Evaluate(rt, ms[k]);
    if Checks(rt, events, sensors).Err? {
      EvalAllErr(Rule(rt), ms);
      var k :| 0 <= k < |ms| && Rule(rt)(ms[k]) == Err(Checks(rt, events, sensors).msg) &&
               forall j :: 0 <= j < k ==> Rule(rt)(ms[j]).Ok?;
      assert Evaluate(rt, ms[k]).Err?;
      assert exists k :: 0 <= k < |Matches(events, sensors)| && Evaluate(rt, Matches(events, sensors)[k]).Err?;
      assert Checks(rt, events, sensors).Err? <==>
            exists k :: 0 <= k < |Matches(events, sensors)| && Evaluate(rt, Matches(events, sensors)[k]).Err?;
    }
  }

  /** A sensor that never reported yields no result for any event. */
  lemma SilentSensorIgnored(rt: Runtime, events: seq<NotifyEvent>, sensors: seq<Sensor>, s: Sensor)
    requires Checks(rt, events, sensors).Ok?
    requires s.lastMeasurement.None?
    ensures forall m :: m in Matches(events, sensors) ==> m.sensor != s
  {
    forall m | m in Matches(events, sensors) ensures m.sensor != s {
      MatchesMembers(events, sensors, m);
    }
  }

  /** measurement_age fails iff the reading is strictly older than the threshold. */
  lemma AgeRule(rt: Runtime, m: Match)
    requires m.event.eventType == EventMeasurementAge
    ensures Evaluate(rt, m).Err? <==> rt.parseDuration(m.event.threshold).Err?
    ensures Evaluate(rt, m).Ok? ==>
              Evaluate(rt, m).value.value == rt.formatTime(m.measurement.date) &&
              (Evaluate(rt, m).value.status == CheckErr <==>
                 rt.now - m.measurement.date > rt.parseDuration(m.event.threshold).value)
  {
  }

  /** measurement_max fails iff value > threshold, measurement_min iff value < threshold. */
  lemma MinMaxRule(rt: Runtime, m: Match)
    requires m.event.eventType in {EventMeasurementValMin, EventMeasurementValMax}
    ensures Evaluate(rt, m).Err? <==>
              rt.parseFloat(m.event.threshold).Err? || rt.parseFloat(m.measurement.value).Err?
    ensures Evaluate(rt, m).Ok? ==>
              var t, v := rt.parseFloat(m.event.threshold).value, rt.parseFloat(m.measurement.value).value;
              Evaluate(rt, m).value.value == m.measurement.value &&
              (Evaluate(rt, m).value.status == CheckErr <==>
                 if m.event.eventType == EventMeasurementValMax then v > t else v < t)
  {
  }

  /** measurement_faulty fails iff (sensor type, value) is in the table; the threshold is not read. */
  lemma FaultyRule(rt: Runtime, m: Match)
    requires m.event.eventType == EventMeasurementValFaulty
    ensures Evaluate(rt, m).Err? <==> rt.parseFloat(m.measurement.value).Err?
    ensures Evaluate(rt, m).Ok? ==>
              Evaluate(rt, m).value.value == m.measurement.value &&
              (Evaluate(rt, m).value.status == CheckErr <==>
                 FaultyValue(m.sensor.sensorType, rt.parseFloat(m.measurement.value).value) in FaultyVals)
  {
  }

  /** An unrecognised event type still yields a result: status OK, empty value. */
  lemma UnknownTypeIsOk(rt: Runtime, m: Match)
    requires m.event.eventType !in {EventMeasurementAge, EventMeasurementValMin, EventMeasurementValMax, EventMeasurementValFaulty}
    ensures Evaluate(rt, m) == Ok(CheckResult(CheckOk, m.event.eventType, m.sensor.id, m.sensor.phenomenon, "", m.event.threshold))
  {
  }

  /** Results of the same event on the same sensor share their EventID, whatever their outcome. */
  lemma SameRuleSameEventID(hash: string -> string, rt: Runtime, rt': Runtime, m: Match)
    requires Evaluate(rt, m).Ok? && Evaluate(rt', m).Ok?
    ensures EventID(hash, Evaluate(rt, m).value) == EventID(hash, Evaluate(rt', m).value)
  {
  }
}
