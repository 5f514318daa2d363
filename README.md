# osem_notify health checks, in Dafny

osem_notify watches senseBoxes on openSenseMap. For each box it evaluates health-check rules against every sensor's last measurement. The rules are: measurement age, minimum, maximum, and faulty or suspicious values. It remembers each rule instance's last status in a cache keyed by box id and EventID. When a status changes, it sends a notification by e-mail or XMPP.

This project models the core of that program, revision by revision as the repository keeps them:

- **Check engines.** These are `Box.RunChecks` of core/healthchecks.go (statuses OK/FAILED) and of the older core/Box.go (OK/ERROR, `measurement_suspicious`). Each is a method with nested loops, proved equal to a specification function, `Checks`. `Checks` evaluates every (event, sensor) pair the configuration selects, in order, and the first parse error aborts the run.
- **Validators.** The per-type check functions of core/healthcheck_measurement_*.go. Each is proved to agree with the engine's rule for its type.
- **Check runners.** `CheckBoxes`, `checkBox`, `Size` and `Log` of core/checkrunner.go and core/BoxCheckResults.go. The older runner collects errors and joins them. The newer one aborts on the first failing box.
- **Result caches.** These are core/cache.go, and the `FilterChangedFromCache`/`SendNotifications` pair of core/BoxCheckResults.go.
  - The caches are classes over a `map<(string, string), string>` from (box id, EventID) to the last status.
  - They come with lemmas about what is due, what is written, and that filtering again after the update finds nothing.
- **Notifiers.** Construction from transport options, and the composed subject and body. These are core/notifiers.go, core/notifier_email.go and core/notifier_xmpp.go.
- **Commands.** The box id validator, the built-in default configuration, the "notify" switch, the per-box configuration lookup, the config-file search, and the email-settings check. These are in cmd/args.go, cmd/shared.go, cmd/config.go and utils/config.go.

Parameters stand in for everything outside the core:

- the clock, `time.ParseDuration`, `strconv.ParseFloat` and time formatting are fields of `Support.Runtime`; instants and durations are integers in nanoseconds;
- SHA-256 is `hash`;
- the API's `GetBox` is `fetch`;
- file existence is `present`;
- the environment is `UtilsConfig.Env`;
- notifier lookup, composition and submission are `notifierOf`, `compose` and `submit`.

A Go map keyed by `*Box` becomes a sequence of (box, results) entries in insertion order.

A few behaviours of the code are easy to miss from the command help and the names alone; the model has them as the code does:

- A malformed threshold or value aborts the whole run with that error; it does not skip the one check.
- In core/healthchecks.go an unknown event type still yields a result: OK, with an empty value. In core/Box.go it yields none.
- There is no retry of a failed submission.
- `FilterChangedFromCache` writes every status to the store before anything is sent, so a failed submission is not sent again.
- A notifier error ends `SendNotifications`; later boxes are not notified.
- `CheckBoxes` in core/BoxCheckResults.go stops at the first failing box.

## Model

| member | source | states |
|---|---|---|
| HealthChecks.EventID | core/healthchecks.go:51-56 | The cache key is the hash of Event, Target and Threshold written one after the other; the hash is a parameter standing for SHA-256 in hex. |
| HealthChecks.EventIDIgnoresOutcome | core/healthchecks.go:51-56 | The EventID depends only on Event, Target and Threshold concatenated; two results agreeing there have the same id. |
| HealthChecks.SameRuleSameEventID | core/healthchecks.go:51-56 | Two evaluations of the same (event, sensor) pair under any clocks and parsers share their EventID, so the cache tracks one rule instance across runs. |
| HealthChecks.Text | core/healthchecks.go:58-64 | Every String() is a non-empty line ending in a newline. |
| HealthChecks.DescriptionNamesSensor | core/healthchecks.go:23-28 | Each message of the check-type table names the sensor by phenomenon and id and quotes the value. |
| HealthChecks.TextNamesSensor | core/healthchecks.go:58-64 | An OK line, and a failing line of a type in the table, names the sensor by id and phenomenon and quotes the value. |
| HealthChecks.Texts | core/healthchecks.go:58-64 | One String() per result, same length, position by position. |
| HealthChecks.Evaluate | core/healthchecks.go:77-136 | A successful evaluation echoes the event type, threshold, sensor id and phenomenon, and its status is OK or FAILED. |
| HealthChecks.RunChecks | core/healthchecks.go:66-142 | The nested event/sensor loop returns exactly `Checks`: every selected pair evaluated in order, the first parse error returned instead. |
| HealthChecks.EvaluatePair | core/healthchecks.go:77-136 | The imperative switch over the event type, with its early return on a parse error, yields exactly `Evaluate` of the pair. |
| HealthChecks.SingleMatch | core/healthchecks.go:68-84 | One event with one sensor it selects forms exactly one pair, carrying the sensor's last measurement. |
| HealthChecks.AbortRest | core/healthchecks.go:88-91 | Once the pairs evaluated so far end in an error, the whole run's outcome is that error; later pairs are never evaluated. |
| HealthChecks.MatchesMembers | core/healthchecks.go:69-84 | A pair is evaluated iff its event is configured, its sensor belongs to the box and has reported, and the event targets that sensor by id or by "all". |
| HealthChecks.MatchesBound | core/healthchecks.go:69-70 | At most one result per (event, sensor) pair. |
| HealthChecks.ChecksResults | core/healthchecks.go:66-142 | A successful run has one result per evaluated pair, in order, each the pair's evaluation, echoing its event and sensor; no more than events × sensors. |
| HealthChecks.ChecksError | core/healthchecks.go:88-91 | A run fails iff some selected pair fails to parse, and then with the first such pair's error, every earlier pair succeeding. |
| HealthChecks.SilentSensorIgnored | core/healthchecks.go:71-74 | A sensor that never reported yields no result for any event. |
| HealthChecks.AgeRule | core/healthchecks.go:87-96 | measurement_age fails to evaluate iff the duration does not parse; otherwise FAILED iff now − measured > threshold, with the formatted date as value. |
| HealthChecks.MinMaxRule | core/healthchecks.go:98-112 | measurement_min/max fail to evaluate iff threshold or value does not parse; otherwise FAILED iff value > threshold for max, value < threshold for min; the raw value is echoed. |
| HealthChecks.FaultyRule | core/healthchecks.go:114-126 | measurement_faulty fails to evaluate iff the value does not parse; otherwise FAILED iff (sensor type, value) is in the faulty table. |
| HealthChecks.UnknownTypeIsOk | core/healthchecks.go:77-86 | An unrecognised event type yields status OK with an empty value; it is not skipped. |
| MeasurementAge.ToString | core/healthcheck_measurement_age.go:10-12 | The type's own toString renders the engine's table message for measurement_age. |
| MeasurementAge.CheckFunc | core/healthcheck_measurement_age.go:13-35 | Error iff the threshold is no duration, and then the zero result; else the event and sensor echoed, the formatted date, FAILED iff older than the threshold. |
| MeasurementAge.AgreesWithEngine | core/healthcheck_measurement_age.go:13-35 | The validator and the engine's measurement_age case agree: both fail with the same error or give the same result. |
| MeasurementAge.IgnoresBoxAndValue | core/healthcheck_measurement_age.go:13-35 | The outcome depends neither on the box nor on the measured value. |
| MeasurementMinMax.MinToString | core/healthcheck_measurement_minmax.go:15-17 | The measurement_min toString renders the engine's table message for that type. |
| MeasurementMinMax.MaxToString | core/healthcheck_measurement_minmax.go:23-25 | The measurement_max toString renders the engine's table message for that type. |
| MeasurementMinMax.ValidateMeasurementMinMax | core/healthcheck_measurement_minmax.go:29-55 | The prefilled result is kept except for its status; error iff threshold or value does not parse; FAILED iff above the max or below the min. |
| MeasurementMinMax.OtherTypeStaysOk | core/healthcheck_measurement_minmax.go:49-51 | For an event type that is neither min nor max the status stays OK. |
| MeasurementMinMax.AgreesWithEngine | core/healthcheck_measurement_minmax.go:29-55 | On min and max events the validator and the engine fail together and otherwise give the same result. |
| MeasurementFaulty.ToString | core/healthcheck_measurement_faulty.go:10-12 | The type's own toString renders the engine's table message for measurement_faulty. |
| MeasurementFaulty.CheckFunc | core/healthcheck_measurement_faulty.go:13-36 | Prefilled result kept except for its status; error iff the value does not parse; FAILED iff (sensor type, value) is in the table. |
| MeasurementFaulty.TableShape | core/healthcheck_measurement_faulty.go:44-49 | The table has four entries; an entry needs both sensor type and value to match. |
| MeasurementFaulty.ThresholdNeverParsed | core/healthcheck_measurement_faulty.go:13-36 | Changing the threshold or the duration parser changes nothing but the echoed threshold. |
| MeasurementFaulty.AgreesWithEngine | core/healthcheck_measurement_faulty.go:13-36 | The validator and the engine's measurement_faulty case agree. |
| CoreBox.Text | core/Box.go:38-40 | Every String() is a non-empty line ending in a newline. |
| CoreBox.TextNamesAll | core/Box.go:38-40 | The line names the event type and the sensor id and quotes the status and the value. |
| CoreBox.Evaluate | core/Box.go:79-140 | A successful evaluation echoes event type and sensor id, and its status is OK or ERROR. |
| CoreBox.RunChecks | core/Box.go:65-146 | The nested loop returns exactly `Checks`: the known-type selected pairs evaluated in order, the first parse error returned instead. |
| CoreBox.CheckPair | core/Box.go:79-140 | The switch: no result for an event type without a case, otherwise that pair's evaluation. |
| CoreBox.Step | core/Box.go:79-140 | One more pair extends the run: skipped if its type is unknown, else its result appended or its error returned. |
| CoreBox.AbortRest | core/Box.go:83-86 | An error among the pairs so far is the outcome of the whole run. |
| CoreBox.KnownMembers | core/Box.go:79-140 | Exactly the pairs of a known event type are evaluated, and no more than were selected. |
| CoreBox.ChecksResults | core/Box.go:65-146 | A successful run has one result per known-type selected pair, in order, echoing its event and sensor. |
| CoreBox.NoKnownTypeNoResults | core/Box.go:79-140 | If no configured event has a known type, a run yields no results and no error. |
| CoreBox.SinglePair | core/Box.go:65-146 | One event and one sensor it selects: the run is that pair's evaluation, or its error. |
| CoreBox.ChecksError | core/Box.go:83-86 | A run fails iff some evaluated pair fails to parse, with the first such error. |
| CoreBox.AgreesWithEngine | core/Box.go:80-118 | For age, min and max the older engine fails with the same error as core/healthchecks.go, or gives the same status, target and value. |
| CoreBox.SuspiciousRule | core/Box.go:24-29 | measurement_suspicious fails iff (sensor type, value) is in its table; the table is the faulty table of core/healthchecks.go. |
| CheckRunner.TotalSizeAppend | core/checkrunner.go:13-19 | The result count of two lists of boxes is the sum of their counts. |
| CheckRunner.Size | core/checkrunner.go:13-19 | Size is the number of results over all boxes. |
| CheckRunner.CountErrZero | core/checkrunner.go:26-41 | No non-OK result is counted iff every result is OK. |
| CheckRunner.Log | core/checkrunner.go:21-45 | A box is reported "all is fine" iff every one of its results is OK. |
| CheckRunner.CheckBox | core/checkrunner.go:73-95 | checkBox yields the fetch error, or the engine's error, or the box (default config put in when it has none) with its results. |
| CheckRunner.DefaultConfSubstituted | core/checkrunner.go:83-86 | A fetched box without a configuration is checked against the default one; any other keeps its own. |
| CheckRunner.CheckBoxes | core/checkrunner.go:47-71 | The successful boxes in input order, and an error iff some box failed, its message all failures joined by newlines. |
| CheckRunner.CollectPartition | core/checkrunner.go:54-65 | The two lists together are as long as the ids; a box is among the results iff some id checks successfully to it, a message among the errors iff some id fails with it. |
| CheckRunner.GatherPartition | core/checkrunner.go:54-65 | For any per-id outcome: the two lists together are as long as the ids, a value is listed iff some id succeeds with it, a message iff some id fails with it. |
| CheckRunner.GatherOrder | core/checkrunner.go:54-65 | For any per-id outcome: the values, as successes, and the messages, as failures, are each a subsequence of the ids' outcomes, so input order is kept. |
| CheckRunner.CollectOrder | core/checkrunner.go:54-65 | The kept boxes and the error messages that are joined into the error each appear in the order of the box ids. |
| CheckRunner.ErrorIffSomeBoxFailed | core/checkrunner.go:67-70 | The run reports an error iff at least one box failed. |
| CheckRunner.ResultsAreOwnChecks | core/checkrunner.go:47-95 | Every box among the results carries a configuration, came from one of the ids, and its results are the engine's run on it. |
| ResultCache.Cache.FilterChangedFromCache | core/cache.go:38-54 | Reads the store without changing it, returning exactly `Filter`: every box, each with the results whose status differs from the stored one. |
| ResultCache.Cache.UpdateCache | core/cache.go:56-62 | The new store is the old one with each result's status written under (box id, EventID), in order. |
| ResultCache.KeepChangedMembers | core/cache.go:45-49 | A result is kept iff its status differs from the stored one; what is kept is a subsequence of the input. |
| ResultCache.FilterKeepsBoxes | core/cache.go:41-51 | Every input box appears in the output in its place, possibly with no results. |
| ResultCache.UpdatedOtherKeys | core/cache.go:56-62 | Keys of other boxes or other EventIDs are untouched by an update. |
| ResultCache.UpdatedLastWins | core/cache.go:57-60 | A key written several times holds the status of the last result written under it. |
| ResultCache.UpdatedHoldsAll | core/cache.go:56-62 | After updating with a consistent list, no result of the list counts as changed. |
| ResultCache.KeepNoneUnchanged | core/cache.go:45-49 | Results whose stored status equals their own are all filtered out. |
| ResultCache.FilterAfterUpdateIsEmpty | core/cache.go:38-62 | Filtering a box's results right after storing them finds nothing to notify. |
| ResultCache.DistinctIsConsistent | core/cache.go:56-62 | Results with pairwise distinct EventIDs form a consistent list. |
| BoxCheckResults.EventID | core/BoxCheckResults.go:20-25 | The cache key is the hash of Event, Target and Threshold written one after the other; the hash is a parameter. |
| BoxCheckResults.EventIDIgnoresOutcome | core/BoxCheckResults.go:20-25 | The EventID does not depend on status or value. |
| BoxCheckResults.Text | core/BoxCheckResults.go:27-33 | Every String() is a non-empty line ending in a newline. |
| BoxCheckResults.TextNamesTarget | core/BoxCheckResults.go:27-33 | An OK line starts with the event and holds target and value; a failing line of a type with a message starts with its status and holds target, value and `%!s(MISSING)`, since the four-verb format gets only three arguments. |
| BoxCheckResults.Texts | core/BoxCheckResults.go:27-33 | One String() per result, position by position. |
| BoxCheckResults.TotalSizeZero | core/BoxCheckResults.go:37-43 | The total is zero iff every box's list is empty. |
| BoxCheckResults.Size | core/BoxCheckResults.go:37-43 | Size is the number of results over all boxes. |
| BoxCheckResults.DueResults | core/BoxCheckResults.go:113-129 | The first loop returns `Filter`: per box, the changed results that are not OK unless OK results are wanted. |
| BoxCheckResults.WriteStatuses | core/BoxCheckResults.go:132-138 | The second loop writes each result's status under (box id, EventID), boxes outer, results inner. |
| BoxCheckResults.FilterChangedFromCache | core/BoxCheckResults.go:110-141 | The due results are judged against the store as it was before the call, and every status is written afterwards. |
| BoxCheckResults.KeepDueMembers | core/BoxCheckResults.go:117-123 | Exactly the due results are kept, in order. |
| BoxCheckResults.FilterShape | core/BoxCheckResults.go:113-129 | Every box stays in its place and holds exactly its due results. |
| BoxCheckResults.ApplyHolds | core/BoxCheckResults.go:132-138 | After consistent writes every written key holds its status. |
| BoxCheckResults.BoxWritesMembers | core/BoxCheckResults.go:133-137 | Every result of a box is written under its box id and EventID. |
| BoxCheckResults.WritesMembers | core/BoxCheckResults.go:132-138 | Every result of every box is written under its key. |
| BoxCheckResults.SecondFilterEmpty | core/BoxCheckResults.go:110-141 | A second filtering of the same results right after the first finds nothing due. |
| BoxCheckResults.KeepDueNone | core/BoxCheckResults.go:117-123 | Results whose stored status equals their own are never due. |
| BoxCheckResults.DueWithoutOkIsNotOk | core/BoxCheckResults.go:120-122 | Without OK results wanted, which is how SendNotifications filters, only non-OK results are due. |
| BoxCheckResults.DispatchStopsAtError | core/BoxCheckResults.go:93-103 | After a notifier or submission error no further box is notified. |
| BoxCheckResults.DispatchNothingDue | core/BoxCheckResults.go:74-78 | With nothing due there is no error and nothing is sent. |
| BoxCheckResults.DispatchSucceeds | core/BoxCheckResults.go:82-107 | Sending succeeds iff every box with due results has a notifier and its submission succeeds; at most one notification per box. |
| BoxCheckResults.SendNotifications | core/BoxCheckResults.go:71-108 | The store ends up holding every status, and the error and the notifications sent are the dispatch of the due non-OK results judged against the old store. |
| BoxCheckResults.BoxOutcome | core/BoxCheckResults.go:158-182 | checkBox fails iff the fetch or the run fails; otherwise the fetched box with the default config put in, and its run's results. |
| BoxCheckResults.CheckBoxes | core/BoxCheckResults.go:143-156 | The loop returns every box's outcome in order, or the first failing box's error. |
| BoxCheckResults.CheckBoxesOutcome | core/BoxCheckResults.go:143-156 | The run fails iff some box fails, with the first failure; otherwise one entry per id, in order. |
| Notifiers.RegistryIsEmailOnly | core/notifiers.go:13-15 | The registry knows exactly the "email" transport. |
| Notifiers.New | core/notifiers.go:33-43 | Succeeds iff the options are an EmailNotifier with a non-nil recipient list, returning exactly those recipients; otherwise "Invalid EmailNotifier options". |
| Notifiers.NoMapFallback | core/notifiers.go:34-38 | A decoded map with a recipient list is refused. |
| Notifiers.SubjectNamesOnlyTheBox | core/notifiers.go:51-52 | The subject depends on nothing but the box name. |
| Notifiers.BodyContents | core/notifiers.go:51-54 | The body names the box, links its page by id and contains every check's text. |
| Notifiers.ComposeNotification | core/notifiers.go:45-56 | The notification is the layout over one String() per check, in order. |
| OsemApi.Strings | core/notifier_email.go:32-35 | The copied recipients are the list's strings, same length, in order. |
| OsemApi.CopyRecipients | core/notifier_email.go:32-35 | The copy loop returns exactly the list's strings, in order. |
| OsemApi.WithDefault | core/checkrunner.go:83-86 | The box gets the default configuration iff it has none; a box with one is unchanged. |
| NotifierEmail.New | core/notifier_email.go:18-47 | Options with recipients give exactly those; else a decoded map's "recipients" list gives its strings; else "Invalid EmailNotifier options". |
| NotifierEmail.ComposeNotification | core/notifier_email.go:49-60 | The notification is the e-mail layout over one String() per check, in order. |
| NotifierEmail.BodyListsEveryCheck | core/notifier_email.go:49-60 | The body contains every check's String(), the box name and its page link. |
| NotifierXmpp.New | core/notifier_xmpp.go:18-47 | Options with recipients give exactly those; else a decoded map's "recipients" list gives its strings; else "Invalid XmppNotifier options". |
| NotifierXmpp.Partition | core/notifier_xmpp.go:52-58 | Every check lands in exactly one list: FAILED ones among new issues, the others among resolved ones, order kept. |
| NotifierXmpp.ComposeNotification | core/notifier_xmpp.go:49-79 | The notification is the layout over the texts of the FAILED checks and of the remaining ones. |
| NotifierXmpp.SectionsPresent | core/notifier_xmpp.go:65-72 | The new-issues section is present iff some check is FAILED, the resolved section iff some check is not. |
| NotifierXmpp.SubjectSaysResolved | core/notifier_xmpp.go:68-75 | The subject begins "Issues resolved " iff there is no new issue. |
| NotifierXmpp.BodyLayout | core/notifier_xmpp.go:65-77 | The body holds the new-issues section right before the resolved one, names the box, links its page, and contains every failing and every resolved text. |
| NotifierXmpp.InSection | core/notifier_xmpp.go:65-70 | Every text of a section occurs in that section. |
| CmdArgs.IsValidBoxId | cmd/args.go:10-14 | A box id is exactly 24 characters, each a hexadecimal digit in either case, as the anchored regular expression demands. |
| CmdArgs.BoxIdValidator | cmd/args.go:16-26 | No arguments is an error; otherwise the first invalid id's error, or none (see CmdArgs.BoxIdValidatorSpec). |
| CmdArgs.FirstInvalidSpec | cmd/args.go:20-24 | The loop finds no invalid id iff every id is valid; otherwise it names the first invalid one. |
| CmdArgs.LaterIdsIgnored | cmd/args.go:20-24 | Ids after the first invalid one are never examined. |
| CmdArgs.BoxIdValidatorSpec | cmd/args.go:10-26 | The validator accepts exactly the non-empty lists of 24-character hexadecimal ids; an empty list gets "requires at least 1 argument". |
| CmdArgs.DefaultConfShape | cmd/args.go:29-43 | The default configuration holds one event, of type "measurementAge", threshold "5h", targeting a valid box id. |
| CmdArgs.DefaultConfNeverChecksOld | cmd/args.go:36-42 | As written, the core/Box.go engine never produces a result for the default configuration. |
| CmdArgs.DefaultConfNeverFails | cmd/args.go:36-42 | As written, the core/healthchecks.go engine reports every result of the default configuration as OK with an empty value. |
| CmdArgs.DefaultConfIntendedChecksAge | cmd/args.go:36-42 | Corrected to "measurement_age", the default rule checks the targeted sensor's age: ERROR iff older than five hours. |
| CmdShared.BoxIdValidator | cmd/shared.go:24-34 | The search loop returns exactly the argument validator's verdict. |
| CmdShared.LowerChar | cmd/shared.go:54 | ASCII upper-case letters are lowered, every other character kept. |
| CmdShared.ToLower | cmd/shared.go:54 | Lowering keeps the length and lowers each character. |
| CmdShared.ToLowerIdempotent | cmd/shared.go:54 | Lowering twice is lowering once. |
| CmdShared.NotifyPlan | cmd/shared.go:54-66 | Empty sends nothing; "all" sends FAILED and OK, "error"/"err" FAILED, "ok" OK, in any letter case; any other value is the "invalid value" error naming the lowered value. |
| CmdShared.NotifyPlanIgnoresCase | cmd/shared.go:54 | Values that differ only in letter case give the same plan. |
| CmdShared.UpperCaseAccepted | cmd/shared.go:54-63 | "ALL", "Error" and "OK" are accepted. |
| CmdShared.CollectConfigs | cmd/shared.go:37-44 | The lookup loop returns the first lookup error, or the map from each id to its configuration. |
| CmdShared.ConfigsOutcome | cmd/shared.go:37-44 | The lookup fails iff some id's lookup fails, with the first failure; otherwise every id has its configuration. |
| CmdShared.CheckAndNotify | cmd/shared.go:36-72 | A lookup failure aborts before any box is checked. A check failure is returned before notify is read. An invalid notify value is reported only after the check. Sending gets the mapped statuses with useCache = !no-cache. |
| UtilsConfig.Candidates | utils/config.go:24-45 | The candidates in order: the flag, $XDG_CONFIG_HOME/name/config.yml, $HOME/.name.yml, $HOME/.name.yaml; each is "" when its variable is unset. |
| UtilsConfig.GetConfigFile | utils/config.go:23-62 | The search returns `ConfigFile`: the first usable candidate, else the fallback. |
| UtilsConfig.FirstUsableSpec | utils/config.go:48-54 | The search picks the earliest candidate that is non-empty and exists, and finds none iff none is. |
| UtilsConfig.ConfigFileSpec | utils/config.go:40-61 | The file is a usable candidate, every earlier one unusable, or, when none is usable, the fallback. |
| UtilsConfig.FlagWins | utils/config.go:24-53 | An existing --config path wins over every other candidate. |
| UtilsConfig.EmptyNeverChecked | utils/config.go:49 | Existence is only asked of non-empty candidates: checks that agree on those give the same file. |
| UtilsConfig.FallbackSpec | utils/config.go:57-61 | With nothing usable: the XDG path if XDG_CONFIG_HOME is set, else $HOME/.name.yml, which is "" without HOME. |
| CmdConfig.GetConfigFile | cmd/config.go:22-61 | The command's own search is the same as utils/config.go's for the fixed name osem_notify. |
| CmdConfig.ValidateConfig | cmd/config.go:90-111 | Warn iff notify is on, the transport is email and there are no recipients. Fatal iff notify is on, the transport is email and one of host, port, user, pass, from is empty. |

## Left out

- HTTP: `GetBox`/`GetAllBoxes` and the API clients (core/osem_api.go, core/OsemClient.go, OsemClient.go) are the `fetch` parameter; only the records are modelled.
- Network sessions: the SMTP and XMPP `Submit` methods, and core/notifier_slack.go, are the `submit` parameter.
- `box.GetNotifier` is not part of this model; it is the `notifierOf` parameter.
- CheckAndNotify: the revisions of `core.CheckBoxes` taking a map of configurations, and of `SendNotifications` taking statuses and a cache flag, are not part of this model. They are the `checkBoxes` and `send` parameters, so what they do with the statuses and the flag is not captured.
- `getNotifyConf` is not part of this model; it is the `getConf` parameter of CmdShared.
- Cache persistence: reading and writing the YAML file (core/cache.go:24-36, 61), `ClearCache` and `PrintCache` are left out. Viper's folding of keys to lower case is left out too; keys are compared exactly.
- Logging: the log lines of `Log` are left out; only the per-box "all is fine" decision is modelled. `BoxCheckResults.Log` in core/BoxCheckResults.go:45-69 is the same loop as `CheckRunner.Log` and is not repeated.
- Floating point: `strconv.ParseFloat` returns a `real`; NaN, −0 and rounding play no part. The faulty and suspicious tables compare exact reals.
- Time: `time.Since` is `now − date` on integer nanoseconds; `time.Time.String` and the minute rounding of the notification stamp are the `formatTime` parameter and the `stamp` argument.
- Formatting artefacts: Go's `%!(EXTRA …)` suffixes are left out; a verb without an argument is modelled as `%!s(MISSING)`. `fmt.Errorf` treating the joined error text as a format string is also left out.
- CmdShared.ToLower: lowers ASCII letters only, because the Unicode case tables are left out.
- CmdShared.LowerChar: the per-character step of CmdShared.ToLower, ASCII only for the same reason.
- UtilsConfig.PathJoin: concatenates with "/" without `path.Clean`'s normalisation (doubled or trailing slashes).
- UtilsConfig.Candidates: its paths are built with UtilsConfig.PathJoin, so they are not normalised either.
- The viper conversions `GetBool("notify")`, `GetString` and `GetStringSlice` are left out; the model receives their results.
- Map iteration order: Go iterates maps in an unspecified order; the model uses insertion order.
- `int` overflow in `Size` and the error counts is left out; the counts are unbounded.
- Nil pointers: `RunChecks` on a box without a configuration and a nil `defaultConf` panic in Go. The engines require a configuration; the default is a value. The check functions of the validators (MeasurementAge.CheckFunc, MeasurementMinMax.ValidateMeasurementMinMax, MeasurementFaulty.CheckFunc and their Prefilled helpers) dereference the last measurement and panic without one; they require it to be present. The engine only evaluates sensors that have one.
- A decoded "recipients" list holding a non-string panics on Go's type assertion. NotifierEmail.New and NotifierXmpp.New require string items.
- `initConfig` and the cobra commands (cmd/cmd_*.go, cmd/root.go, cmd/check.go, cmd/watch.go, cmd/debug.go, main.go) are left out. So are the prototype loops of core/jobs.go and cmd/jobs.go, which call functions that do not exist.
- BoxCheckResults.BoxOutcome: `Box.RunChecks` of the revision behind core/BoxCheckResults.go:172, which returns the five-field result, is not part of this model. It is the `runChecks` parameter, so nothing ties these results to the validators or to either engine.
- BoxCheckResults.CheckBoxes: runs the boxes through the same `runChecks` parameter as BoxCheckResults.BoxOutcome (via BoxCheckResults.BoxRule), with the same gap.
- `utils.ParseFloat` (space trimming before parsing) is behind the `parseFloat` parameter.

## Findings

| source | as written | input that shows it | evidently intended | confidence | as-written member | corrected member |
|---|---|---|---|---|---|---|
| cmd/args.go:38 | The default rule's type is "measurementAge". Neither engine knows that name; both spell it "measurement_age". | A box without its own configuration whose sensor 593bcd656ccf3b0011791f5d last reported a day ago. core/Box.go reports nothing. core/healthchecks.go reports OK with an empty value. | The measurement_age rule with threshold "5h" on that sensor: ERROR once its last measurement is older than five hours. | not executed | CmdArgs.DefaultConfNeverChecksOld, CmdArgs.DefaultConfNeverFails (over CmdArgs.DefaultConf) | CmdArgs.DefaultConfIntendedChecksAge (over CmdArgs.DefaultConfIntended) |
