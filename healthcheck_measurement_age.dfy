/**
 * The refactored measurement_age validator (core/healthcheck_measurement_age.go):
 * the same rule as the engine's, packaged as a check type with a name, a
 * message and a check function returning a result and an error side by side.
 */
module MeasurementAge {
  import opened Support
  import opened OsemApi
  import HC = HealthChecks

  const Name := "measurement_age"

  /** The check type's message: the check-type table's text for measurement_age. */
  function ToString(r: HC.CheckResult): (m: string)
    ensures m == HC.Description(Name, r.targetName, r.target, r.value)
  {
    "No measurement from " + r.targetName + " (" + r.target + ") since " + r.value
  }

  /** The zero CheckResult: every field empty. */
  const Zero := HC.CheckResult("", "", "", "", "", "")

  /**
   * checkFunc: FAILED iff the last measurement is strictly older than the
   * threshold duration; an unparsable threshold yields the zero result and
   * the parser's error. The sensor must have a last measurement (the Go code
   * dereferences it).
   */
  function CheckFunc(rt: Runtime, e: NotifyEvent, s: Sensor, b: Box): (r: (HC.CheckResult, Option<string>))
    requires s.lastMeasurement.Some?
    ensures r.1.Some? <==> rt.parseDuration(e.threshold).Err?
    ensures r.1.Some? ==> r.0 == Zero && r.1.value == rt.parseDuration(e.threshold).msg
    ensures r.1.None? ==>
              r.0.event == e.eventType && r.0.target == s.id && r.0.targetName == s.phenomenon &&
              r.0.threshold == e.threshold && r.0.value == rt.formatTime(s.lastMeasurement.value.date) &&
              (r.0.status == HC.CheckErr <==>
                 rt.now - s.lastMeasurement.value.date > rt.parseDuration(e.threshold).value) &&
              (r.0.status != HC.CheckErr ==> r.0.status == HC.CheckOk)
  {
    var lm := s.lastMeasurement.value;
    var result := HC.CheckResult(HC.CheckOk, e.eventType, s.id, s.phenomenon, rt.formatTime(lm.date), e.threshold);
    match rt.parseDuration(e.threshold)
    case Err(msg) => (Zero, Some(msg))
    case Ok(thresh) =>
      (if rt.now - lm.date > thresh then result.(status := HC.CheckErr) else result, None)
  }

  /** The validator and the engine's measurement_age rule agree on every sensor the engine evaluates. */
  lemma AgreesWithEngine(rt: Runtime, e: NotifyEvent, s: Sensor, b: Box)
    requires e.eventType == Name && s.lastMeasurement.Some?
    ensures var m := HC.Match(e, s, s.lastMeasurement.value);
            CheckFunc(rt, e, s, b) ==
              match HC.Evaluate(rt, m)
              case Ok(r) => (r, None)
              case Err(msg) => (Zero, Some(msg))
  {
  }

  /** The outcome depends neither on the box nor on the measured value. */
  lemma IgnoresBoxAndValue(rt: Runtime, e: NotifyEvent, s: Sensor, b: Box, b': Box, v: string)
    requires s.lastMeasurement.Some?
    ensures var s' := s.(lastMeasurement := Some(s.lastMeasurement.value.(value := v)));
            CheckFunc(rt, e, s, b) == CheckFunc(rt, e, s', b')
  {
  }
}
