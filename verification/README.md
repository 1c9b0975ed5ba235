# System Wrangler: a verified model

System Wrangler watches a fleet of machines. This project models, in Dafny, the parts of its backend whose
correctness depends on more than one function at a time, and proves what they promise:

- **Alerting, from the evaluator to the recipient** (`Alerts`, `AlertHistory`, `Delivery`, `Flush`, `DeliveryLaw`,
  `Recipient`, `QuietPeriod`, `QuietRuns`, `QuietHours`). Each tick moves every (rule, system) pair between absent,
  pending and firing; the dispatcher sends, suppresses or defers each transition; the flusher releases what was
  deferred once quiet hours are over. The main results: the stored instances are a function of the breach history;
  exactly when transitions alternate and when the last one emitted is the true state; what policies, windows,
  routings and channel lists make of a batch and of a flush, in the log and in the table; and, for every interleaving
  of ticks and flushes with writes failing anywhere, exactly when a channel believes what is true.
- **Label selectors** (`Labels`, `SelectorTokens`, `SelectorParser`, `SelectorGrammar`, `Selector`, with `Sql`).
  Which texts parse and to what, which systems they choose, which make the parser index past its tokens, and that the
  in-memory evaluator and the generated SQL agree.
- **The audit log's query layer** (`AuditLike`, `AuditQuery`, `AuditPaging`, with `Sql` and `Ordering`). The WHERE
  clause with positional arguments, LIKE escaping, visibility, and keyset pagination.
- **Authentication state machines** (`SecondFactor`, `Lockout`, `Throttle`, `Rotation`). Exactly which one-time
  codes and recovery codes are accepted under any interleaving, epochs and trusted devices, doubling locks, the
  sliding window, and restartable key rotation.
- **Metrics scoping and target regeneration** (`PromScope`, `Debounce`). Restricting a query to the allowed systems,
  and the debounced loop behind a channel of capacity one: no event lost, one write for a window.

Reading the model: SQL tables are maps, rows are values, and a statement is one atomic step. Time is an integer
(nanoseconds, or milliseconds in the audit log). A Go map is iterated in an arbitrary order, chosen by `:|`.
Failing reads and writes, clock readings, fresh ids, the cipher, the one-time-password generator, the query engine,
the zone database and the breach query are parameters. Errors are results. Characters stand for bytes. Code that
updates state is a class or a method with its loops; each such method is tied to a specification function, and the
theorems are about those functions and the states they describe.

## Where the code and its documentation part ways

The model follows the code. Each of these has a lemma with the exact condition or a concrete case.

- `collapses` (internal/notifications/flusher.go:111-125) takes "fired and resolved both occur" to mean that the
  episode is over. An odd number of three or more deferred changes is dropped although the state did change:
  `QuietPeriod.QuietPeriodIff`, `QuietPeriod.Period`; `QuietRuns.ThreeDropped` is such a night.
- The flusher looks once a minute (flusher.go:12-14). A change between the end of quiet hours and the flush is told at
  once, and the flush then sends the older row on top of it: `QuietPeriod.AfterFlush`, `QuietRuns.LateFlush`.
- Processed rows are said to be removed (flusher.go:23-24). When the delete fails (105-107) they stay, and the next
  flush sends the old news again: `QuietPeriod.AfterFlush`, `QuietRuns.ToldTwice`.
- A rule's error discards its transitions although some rows were already written (evaluator.go:100-104, 157-159).
  The last thing emitted about a system is its true state iff an even number of changes has gone unannounced since:
  `AlertHistory.LastWordIff`. In `AlertHistory.FailureLosesFiring` and `AlertHistory.ThenOnlyResolved` a system fires
  and is announced only as "resolved".
- A rule that becomes disabled is said to have its instances cleared (alerts/sqlite_store.go:142-143). The evaluator may
  have loaded them before (evaluator.go:91, 127) and writes on: `Alerts.DisablingClearsIff`, `Alerts.DisabledYetFiring`.
- Disabling a rule deletes its instances without a "resolved" (alerts/sqlite_store.go:172-176). "Fired" follows "fired"
  iff the system fires again: `AlertHistory.ClearsBreakAlternation`, `AlertHistory.DisablingBreaksAlternation`.
- Raising the epoch is said to make every existing trusted-device cookie fail (auth/store.go:520-521, 661-662). A login
  that had read the state before the reset (auth/handler.go:431, 443) still honours a cookie whose row was inserted
  after it (auth/totp_handler.go:289, 376-392): `SecondFactor.HonouredIff` is the exact condition,
  `SecondFactor.ResetsRevokeDevices` says that this race is the only way, `SecondFactor.LateHonour` is such a run.
- A validated window from "24:00" to "00:00" never silences anything (policy.go:95-130, 155-171).
  `QuietHours.ValidWindowIsLive`.
- After a comma inside a value list the selector parser peeks without a test for the end of input
  (labels/selector.go:404, 419): `k in (a,` panics. `SelectorGrammar.RunsOutIff`, `SelectorGrammar.CommaThenNothing`.
- The comment on the skew loop of `VerifyTOTPCode` says that a code consumes the highest step it matches at; the loop
  tries the current step first (totp.go:94-114). `SecondFactor.HighestStepIff`.
- `runRotate` promises partial counts after an error; `rotateColumn` returns zeros (rotate.go:102-162). The reported
  counts are then the true ones iff the failing column had re-sealed nothing: `Rotation.Table.RunRotate`,
  `Rotation.FailureReportsZero`.
- The shutdown function of `Run` is said to flush pending work (promtargets.go:207-208). The loop may return first
  (231-232, 244-248): work outstanding at the cancellation is sure to be written iff the loop is committed to a write by
  then. `Debounce.ShutdownFlushesIff`, `Debounce.ShutdownDoesNotFlush`.
- The step returned by `VerifyTOTPCode` is meant to rule out replays (auth/totp.go:74-76). The confirmation of an
  enrolment drops it (auth/totp_handler.go:130, auth/store.go:644), so that the same code can log in afterwards:
  `SecondFactor.ConfirmedAgainIff`, `SecondFactor.EnrolmentCodeTwice`.
- The enforcer's matcher is said to be evaluated like any of the caller's (metrics/enforce.go:30-36). `absent()` turns
  equality matchers into labels, so that with one allowed system `absent(up)` gains a label: exactly which queries keep
  their meaning is `PromScope.LabelsAreSeen` with `PromScope.SpelledIff`.
- `IsVisibleTo` is said to mirror the list's clause. They differ on a group row without a target, for a caller one of
  whose groups has the empty id (audit/store.go:206-248, 437-454). No caller the program produces has one, its groups
  being references to system_groups (rbac/store.go:52), so that the two agree on those; the condition covers direct
  calls too. `AuditQuery.VisibilityAgreesIff`.
- A trailing `*` in the action filter becomes a LIKE pattern without escaping (audit/store.go:376-380): a prefix test
  only for prefixes without `%` and `_`. `AuditLike.ActionPrefixIff`.
- A page that ends at a row with a time of zero or less yields a cursor that is refused or ignored
  (audit/handler.go:108-111, audit/store.go:405). `AuditPaging.UnusableCursors`.
- The throttle's wait is exact up to its end for any bucket, but a bucket over its limit can make the caller wait
  again afterwards (throttle.go:47-63). `Throttle.WaitIsLeast`, `Throttle.WaitIsFinal`. With a limit of zero or less
  `Check` indexes an empty bucket.

## Model

| member | source | states |
|---|---|---|
| `Alerts.InstanceStore.PutInstance` | internal/alerts/sqlite_store.go:229-245 | an upsert of one row of one rule, or nothing when the write is refused; other rules keep their rows |
| `Alerts.InstanceStore.DeleteInstance` | internal/alerts/sqlite_store.go:248-255 | removes one row, or nothing when the write is refused |
| `Alerts.InstanceStore.ClearInstances` | internal/alerts/sqlite_store.go:172-190 | disabling or deleting a rule empties its instances and no others |
| `Alerts.AnyOrderReconciles` | internal/alerts/evaluator.go:140-195 | every iteration order of the two maps gives the same rows, the same transitions per system, and a change flag that is set iff the set of (system, state) pairs changed |
| `Alerts.AdvanceOne` | internal/alerts/evaluator.go:140-177 | one breaching system: the row written, on top of a disabling if that falls just before, and the transition and change flag that the state change calls for |
| `Alerts.ResolveOne` | internal/alerts/evaluator.go:182-195 | one cleared system: its row goes, and it is announced iff it was firing |
| `Alerts.AdvanceBreaching` | internal/alerts/evaluator.go:136-177 | after any number of iterations, also when a write fails, rows, transitions and flag are those of the systems reached |
| `Alerts.ResolveCleared` | internal/alerts/evaluator.go:182-196 | the same for the second loop; together they reach every system once |
| `Alerts.EvaluateRule` | internal/alerts/evaluator.go:122-197 | without error: rows are the breach set reconciled and, in figures, for every system: pending or firing with the values and instants written, firing iff it was or its breach began forSeconds seconds (times 1,000,000,000 ns) ago, and announced with the value and instant that LeftAs and Said spell out; with one: other rules untouched, a failed query writes nothing; when the rule is disabled between the load and a write: the same transitions, and the rows of the systems dealt with later |
| `Alerts.TickMeans` | internal/alerts/evaluator.go:136-195 | what reconciling and announcing mean for each system, from the row before, the breach and the clock alone: state, value, first breach, firing time and last evaluation of the row; kind, value and instant of what is said |
| `Alerts.TooEarly` | internal/alerts/evaluator.go:136-165 | a rule of sixty seconds finds a system in breach for the first time: pending, nothing said |
| `Alerts.HeldForAMinute` | internal/alerts/evaluator.go:136-165 | its next tick: "fired" iff that is at least 60,000,000,000 ns later |
| `Alerts.DisablingClearsIff` | internal/alerts/sqlite_store.go:142-176 | of a rule disabled while it is evaluated exactly the breaching systems written after that keep a row, the one they would have had; none iff all were written before |
| `Alerts.DisabledYetFiring` | internal/alerts/evaluator.go:122-161 | such a tick: the rule is disabled, its instance is created, fires and is announced |
| `Alerts.EvaluateOne` | internal/alerts/evaluator.go:97-108 | one rule of a tick: unseen and untouched, cut short with exactly the rows of the systems reached and nothing announced, or reconciled and announced in full; the change flag survives only in the last case |
| `Alerts.EvaluateOnce` | internal/alerts/evaluator.go:90-116 | every enabled rule has one of those three outcomes, a rule's failure losing its own transitions only; the rules not enabled are untouched; the broadcast flag is set iff some completed rule has a system in another state than before |
| `AlertHistory.ChangeAt` | internal/alerts/evaluator.go:140-195 | however a tick is cut short, a system's instance depends on its own share of the tick only |
| `AlertHistory.FailedTicksChangeNothing` | internal/alerts/evaluator.go:122-130 | a system's instance after a history is that after the history without the ticks that failed before getting to it |
| `AlertHistory.InstanceIsHistory` | internal/alerts/evaluator.go:140-195 | a row exists iff the system breached at the last tick; FirstBreachAt begins the maximal breaching suffix; firing iff some tick of it found it due, FiredAt being the first such tick |
| `AlertHistory.FiringMeansHeldLongEnough` | internal/alerts/evaluator.go:136-177 | under a rising clock, with failed and interrupted ticks anywhere: firing iff at the last tick that got to the system it was in breach, without a break, since a tick at least forSeconds * 1,000,000,000 ns earlier |
| `AlertHistory.LastWordIff` | internal/alerts/evaluator.go:100-104 | in every history, with failures and disablings anywhere: the kind last emitted for a system is its true state iff an even number of changes has gone unannounced since the last one that was |
| `AlertHistory.AlternationIff` | internal/alerts/evaluator.go:90-116 | in every history the kinds emitted for a system strictly alternate iff none was emitted while an odd number of changes had gone unannounced |
| `AlertHistory.AlternatesBetweenClears` | internal/alerts/evaluator.go:140-195 | without clears the kinds emitted for a system strictly alternate, fired first, and their parity is the true state |
| `AlertHistory.ClearsBreakAlternation` | internal/alerts/sqlite_store.go:172-176 | when no write fails they alternate iff the rule was never disabled under a firing system that fired again later |
| `AlertHistory.DisablingBreaksAlternation` | internal/alerts/sqlite_store.go:172-176 | fire, disable, fire again: "fired" twice running |
| `AlertHistory.FailureLosesFiring` | internal/alerts/evaluator.go:100-104 | a tick of the evaluator whose second write is refused: in the store it leaves a system is firing, and nothing was emitted |
| `AlertHistory.ThenOnlyResolved` | internal/alerts/evaluator.go:182-195 | the next tick, all having cleared: "resolved" is all that was ever said of that system |
| `AlertHistory.Take` | internal/alerts/evaluator.go:90-116 | one tick of all rules, or one clearing, with writes refused anywhere, is for a given rule exactly one event of its history |
| `AlertHistory.Replay` | internal/alerts/evaluator.go:90-197 | over every run, with writes refused anywhere, the stored rows and emitted kinds of a rule are functions of a history of that run, which is known beforehand if none is refused; so that the lemmas above are about the evaluator |
| `QuietHours.ParseIff` | internal/notifications/policy.go:195-212 | a text is read as n minutes iff it is two numbers around a colon that are a time of day, "24:00" included, n minutes after midnight |
| `QuietHours.SignsMean` | internal/notifications/policy.go:195-206 | a number is digits with at most one sign, and a minus makes it negative, so that no time of day has one but before zero |
| `QuietHours.ParseReadsBack` | internal/notifications/policy.go:195-212 | the two-digit rendering of every minute of the day, "24:00" included, is read back as that minute |
| `QuietHours.DayCovered` | internal/notifications/policy.go:177-187 | membership, an empty list covering every day |
| `QuietHours.InQuietHours` | internal/notifications/policy.go:134-174 | true iff some window silences the minute: its two texts tell two different times, and the minute is between them on a day it lists, or before midnight on such a day or after midnight on the day after one; equally iff it lies on a cyclic interval of the 10080-minute week that starts on a covered day |
| `QuietHours.QuietMeans` | internal/notifications/policy.go:134-174 | the two readings agree: intervals of the week, and times of today and yesterday |
| `QuietHours.OtherDaysAreLoud` | internal/notifications/policy.go:146-172 | windows whose days name neither today nor yesterday never silence now |
| `QuietHours.WindowIsArc` | internal/notifications/policy.go:146-172 | testing today and yesterday finds exactly those intervals, across midnight and the Saturday-Sunday seam |
| `QuietHours.ValidateWindows` | internal/notifications/policy.go:110-129 | accepts iff every window parses, is not empty and names weekdays 0-6 |
| `QuietHours.ValidWindowIsLive` | internal/notifications/policy.go:110-128 | a validated window silences some minute of the week iff it is not "24:00" to "00:00" |
| `Delivery.RoutedMeans` | internal/notifications/dispatcher.go:231-242 | a channel gets a rule's notifications iff it is enabled and the rule goes everywhere or selected it |
| `Delivery.IndexById` | internal/notifications/dispatcher.go:219-225 | the channels by id, a later one replacing an earlier |
| `Delivery.TargetsFor` | internal/notifications/dispatcher.go:231-242 | the routed channels, in the order of selection; what that means for channels and ids is DeliveryLaw.TargetsReceive |
| `Delivery.Dispatcher.Enqueue` | internal/notifications/dispatcher.go:246-256 | one fresh row for the transition and owner, and a record of the deferral; neither if the insert is refused; no released row comes back |
| `Delivery.Dispatcher.RoutedTargets` | internal/notifications/dispatcher.go:205-217 | with the batch's cache, the same targets as a fresh read |
| `Delivery.Dispatcher.UserPolicy` | internal/notifications/dispatcher.go:177-188 | with the cache, the user's policy or the default when it cannot be read |
| `Delivery.Dispatcher.UserChannels` | internal/notifications/dispatcher.go:190-201 | with the cache, the user's channels or none |
| `Delivery.Dispatcher.DispatchShared` | internal/notifications/dispatcher.go:111-123 | carries out the shared owner's verdict: suppress, defer or send to the routed channels |
| `Delivery.Dispatcher.DispatchUser` | internal/notifications/dispatcher.go:142-154 | carries out one user's verdict under that user's own policy |
| `Delivery.Dispatcher.DispatchPersonal` | internal/notifications/dispatcher.go:132-156 | one verdict for every interested user, in order; none without a resolver |
| `Delivery.Dispatcher.Emit` | internal/notifications/dispatcher.go:92-127 | a batch does exactly what reading every policy, routing and channel list afresh for each transition and owner would; nothing when the channels cannot be listed |
| `Delivery.Dispatcher.ReleaseAndDelete` | internal/notifications/flusher.go:103-107 | the fan-outs are logged and exactly the processed rows deleted; while deletes succeed no row is released twice |
| `Delivery.Dispatcher.StoredKeeps` | internal/notifications/sqlite_store.go:569-589 | carrying out decisions never removes a row |
| `DeliveryLaw.TargetsReceive` | internal/notifications/dispatcher.go:190-242 | where an owner's notifications go: a user's to exactly the channels stored for that user, or nowhere if they cannot be read; the shared owner's to every enabled channel, or, if the rule selects, to one enabled channel for each selected id, in that order |
| `DeliveryLaw.VerdictTreats` | internal/notifications/policy.go:81-89 | what becomes of a transition for an owner: "dashboard" only notes it, "always" sends it whatever the windows, "quiet" defers it iff some window silences now; a missing or unknown mode is "dashboard" for info, "always" for critical and "quiet" otherwise; the message carries kind, rule, severity, system, value and instant |
| `DeliveryLaw.DecisionsTreat` | internal/notifications/dispatcher.go:108-156 | a batch has one such action for the shared owner and one for each subscriber of every transition, in order |
| `DeliveryLaw.LoggedAre` | internal/notifications/dispatcher.go:246-256 | what is recorded of a list of actions is all of it but the deferrals whose inserts were refused |
| `DeliveryLaw.StoredGains` | internal/notifications/sqlite_store.go:569-589 | the table gains one row for each deferral whose insert was not refused, with its owner, rule, system, kind, message and the clock of its insert, and no others; it loses none |
| `DeliveryLaw.Batch` | internal/notifications/dispatcher.go:92-127 | Emit, end to end: every owner's share of every transition is treated as that owner's policy says, the log gains exactly what was carried out and the table exactly the rows of the deferrals; nothing when the channels cannot be listed |
| `Flush.ListPending` | internal/notifications/sqlite_store.go:592-622 | every row exactly once, ordered by (enqueued_at, id) |
| `Flush.BothKinds` | internal/notifications/flusher.go:114-125 | whether both kinds occur |
| `Flush.Group` | internal/notifications/flusher.go:37-46 | the rows of each (user, rule, system) in list order, and the keys in order of first appearance |
| `Flush.ReleaseGroup` | internal/notifications/flusher.go:76-103 | one group: left alone while its owner is quiet, otherwise marked whole and its newest row sent unless both kinds occur |
| `Flush.ReleaseGroups` | internal/notifications/flusher.go:75-104 | all groups, in order |
| `Flush.EveryRowHasOneFate` | internal/notifications/flusher.go:75-108 | every listed row is kept, collapsed, superseded or sent; exactly the last three are marked for deletion; what goes out is exactly the rows whose fate is "sent", each once |
| `Flush.NewestIsSent` | internal/notifications/flusher.go:85-103 | a group whose owner is not quiet has a sent row iff it does not collapse |
| `Flush.ReleasesAre` | internal/notifications/flusher.go:75-104 | what goes out for any list of groups is exactly their rows of fate "sent" |
| `Flush.ReleasesOnce` | internal/notifications/flusher.go:75-108 | no row is released twice in a flush and every released row is among those deleted |
| `Flush.FlushPending` | internal/notifications/flusher.go:25-109 | with a batch emitted between the list and the delete: the releases are those of the listed rows, exactly the processed ones go, and no row enqueued meanwhile is lost |
| `DeliveryLaw.ReleasesFlush` | internal/notifications/flusher.go:75-104 | released once each, and nothing else: the rows whose owner is out of quiet hours, that are the newest of their user, rule and system, and whose like are all of one kind; to the owner's channels with the stored message |
| `DeliveryLaw.FlushOnce` | internal/notifications/flusher.go:25-109 | FlushPending, end to end: exactly the rows due are released, after whatever a batch meanwhile recorded; a listed row stays iff its owner is quiet or a statement failed |
| `Recipient.DecisionsFor` | internal/notifications/dispatcher.go:108-126 | of a batch with at most one transition of a pair, what a channel is told and what is deferred for an owner, from that owner's policy, audience and channels alone |
| `Recipient.LoggedTells` | internal/notifications/dispatcher.go:246-256 | refused inserts change nothing about what a channel is told, and lose deferrals only |
| `Recipient.StoredTracks` | internal/notifications/sqlite_store.go:569-589 | the rows for a key are one fresh row per recorded deferral and no others |
| `Recipient.StoredMinus` | internal/notifications/flusher.go:103-107 | deleting rows listed earlier and inserting new ones commute |
| `Recipient.ReleasesTell` | internal/notifications/flusher.go:75-104 | after a flush a channel's belief about a key is that of its group's released row, or unchanged |
| `Recipient.WaitingGroup` | internal/notifications/flusher.go:37-46 | the group of a key is dropped iff changes of both parities wait, and otherwise carries the kind of the newest |
| `Recipient.TurnTells` | internal/alerts/evaluator.go:90-116 | the batch of one tick takes the channel's belief and the waiting rows to those after the pair's one change, if there was one |
| `Recipient.FlushIs` | internal/notifications/flusher.go:25-109 | a flush takes them to those of the machine's flush step, a batch emitted meanwhile and failing statements included |
| `Recipient.MakeMove` | internal/notifications/dispatcher.go:92-127 | evaluator and dispatcher together make the machine's step |
| `Recipient.MakeFlush` | internal/notifications/flusher.go:25-109 | so does the flusher, with a tick's batch emitted between its list and its delete |
| `Recipient.RunAll` | internal/notifications/flusher.go:25-109 | in every interleaving of ticks, disablings and flushes, in or out of quiet hours, with any instance write, row insert, list or delete failing, store, table and log are those of a four-field machine |
| `Recipient.Run` | internal/notifications/flusher.go:20-25 | at the end of every such run what the channel was last told is the true state iff an even number of changes came after the one it was last told of |
| `QuietPeriod.AfterFlush` | internal/notifications/flusher.go:81-107 | end to end, after one flush with whatever fails and a tick inside it: what the channel believes is true iff an even number of changes came after the row it was told of, or, told of none, after the change last told |
| `QuietPeriod.KeepsUp` | internal/notifications/flusher.go:81-103 | as long as every change is deferred or told with nothing waiting, and every flush that gets to waiting rows finds one, reaches the channel and deletes it, the channel is behind by exactly the rows that wait |
| `QuietPeriod.QuietPeriodIff` | internal/notifications/flusher.go:111-125 | after a quiet period and the flush that ends it belief is truth iff the number of deferred changes is one or even |
| `QuietPeriod.Period` | internal/notifications/flusher.go:25-109 | the same, end to end on evaluator, dispatcher and flusher |
| `QuietRuns.LateFlush` | internal/notifications/flusher.go:12-14 | fired in quiet hours, resolved after them and told, then flushed: the channel ends up believing that the system fires |
| `QuietRuns.ThreeDropped` | internal/notifications/flusher.go:111-125 | fired, resolved and fired in quiet hours: all three dropped, and the channel not told of a firing system |
| `QuietRuns.ToldTwice` | internal/notifications/flusher.go:105-107 | a delete that fails: the old "fired" is sent again after the "resolved" |
| `QuietRuns.OneNight` | internal/notifications/policy.go:134-174 | the three runs under a policy with quiet hours from 22:00 to 06:00 |
| `Labels.ValidKeyIsIdent` | internal/labels/label.go:57-79 | a valid key is a non-empty identifier with at most one slash, neither first nor last |
| `Labels.KeyMeans` | internal/labels/label.go:57-79 | a key is valid iff it is one segment, or two around a slash, of 1 to 63 ASCII letters, digits, dots, underscores and hyphens |
| `Labels.CallersKeysAre` | internal/labels/label.go:70-72 | a caller may use exactly those that do not begin with system-wrangler.io/ |
| `Labels.ValueMeans` | internal/labels/label.go:81-93 | a value is valid iff it is empty or one such segment |
| `SelectorTokens.ReadIdent` | internal/labels/selector.go:238-243 | the end of the longest run of identifier characters |
| `SelectorTokens.ReadToken` | internal/labels/selector.go:213-246 | whitespace, the longest token, or neither, at a position |
| `SelectorTokens.Tokenize` | internal/labels/selector.go:209-249 | the tokens of the whole text, or the first unexpected character and its offset |
| `SelectorTokens.LexReads` | internal/labels/selector.go:209-249 | tokens spelled with any whitespace around them, and some where two would run together, are read back |
| `SelectorTokens.LexIsSpelling` | internal/labels/selector.go:209-249 | every text that lexes is such a spelling of its tokens |
| `SelectorTokens.LexMeans` | internal/labels/selector.go:209-249 | both directions: exactly which texts give which tokens |
| `SelectorTokens.BlanksAre` | internal/labels/selector.go:215 | the characters between tokens are space, tab, line feed and carriage return |
| `SelectorParser.Parser.Expect` | internal/labels/selector.go:276-282 | consumes the token iff it is next |
| `SelectorParser.Parser.ParseValue` | internal/labels/selector.go:374-391 | the value at the position, empty before a comma or the end; nothing else is consumed |
| `SelectorParser.Parser.ParseListValue` | internal/labels/selector.go:425-442 | the list value at the position |
| `SelectorParser.Parser.ParseValueList` | internal/labels/selector.go:393-423 | the list, its error, or the index past the tokens; the loop terminates |
| `SelectorParser.Parser.ParseOperator` | internal/labels/selector.go:330-368 | what follows a key |
| `SelectorParser.Parser.ParseRequirement` | internal/labels/selector.go:304-369 | one requirement and the tokens left |
| `SelectorParser.RequirementShrinks` | internal/labels/selector.go:304-369 | every requirement consumes a token, so the loop of ParseSelector ends |
| `SelectorParser.ParseSelector` | internal/labels/selector.go:164-188 | the loop computes the parse of the whole text, whose meaning the grammar lemmas state |
| `SelectorGrammar.ItemsAccept` | internal/labels/selector.go:393-423 | the spelling of a list of valid values with a non-empty last one is read back |
| `SelectorGrammar.ItemsAre` | internal/labels/selector.go:393-423 | every list accepted is the spelling of such a list |
| `SelectorGrammar.RequirementAccepts` | internal/labels/selector.go:304-369 | the spelling of a well-formed requirement, before a comma or the end, parses to it |
| `SelectorGrammar.RequirementIs` | internal/labels/selector.go:304-369 | every parsed requirement is well formed, its arity included, and was spelled by the tokens consumed |
| `SelectorGrammar.SelectorAccepted` | internal/labels/selector.go:164-188 | the spelling of a well-formed selector parses to it |
| `SelectorGrammar.SelectorIs` | internal/labels/selector.go:164-188 | every parsed selector is well formed and spelled by exactly these tokens |
| `SelectorGrammar.ParseMeans` | internal/labels/selector.go:164-188 | a text parses to a selector iff the selector is well formed and the text is one of its spellings |
| `SelectorGrammar.TextParses` | internal/labels/selector.go:164-188 | every well-formed selector has a canonical text that parses back to it |
| `SelectorGrammar.KeyAlone` | internal/labels/selector.go:304-329 | a key with any blanks around it parses to its presence, for exactly the texts that are valid keys |
| `SelectorGrammar.PresenceChooses` | internal/labels/selector.go:66-102 | from text to meaning: `key` chooses the systems with the label, `!key` the others |
| `SelectorGrammar.ComparisonChooses` | internal/labels/selector.go:66-102 | `key=value` chooses the systems whose label has that value, `key!=value` all others, those without the label included |
| `SelectorGrammar.MembershipChooses` | internal/labels/selector.go:66-102 | `key in (value,value)` chooses the systems whose label has one of the values, `notin` all others |
| `SelectorGrammar.RunsOutIff` | internal/labels/selector.go:403-422 | the parser indexes past its tokens iff the text is complete requirements, each with its comma, and then a value list that stops right after a comma |
| `SelectorGrammar.CommaThenNothing` | internal/labels/selector.go:403-422 | `k in (a,` is such a text |
| `Selector.MatchesRequirement` | internal/labels/selector.go:66-102 | the documented meaning of each operator, NULL values and absent keys included |
| `Selector.Matches` | internal/labels/selector.go:53-64 | true iff every requirement holds of the labels by key |
| `Selector.RequirementSQL` | internal/labels/selector.go:125-158 | one argument to a placeholder, and the fragment holds of a system iff the requirement does, on every table |
| `Selector.FragmentMeans` | internal/labels/sqlite_store.go:28-34 | with (system, key) the primary key, EXISTS speaks of the one row of that key, with three-valued comparison |
| `Selector.SQL` | internal/labels/selector.go:109-123 | as many arguments as placeholders, taken left to right, and the conjunction holds iff the selector does |
| `Selector.ListingIsRows` | internal/labels/selector.go:53-57 | indexing a listing of a system's rows by key gives back the rows |
| `Selector.EvaluatorsAgree` | internal/labels/selector.go:49-158 | the in-memory verdict on a system's labels is that of the generated SQL on its rows |
| `Ordering.LessIsTotalOrder` | internal/audit/store.go:346-353 | (occurred_at, id) is a strict total order, text compared character by character |
| `Ordering.BeforeMeans` | internal/audit/store.go:346-353 | a text is before another iff it is a proper beginning of it or has the smaller character where they first differ |
| `Ordering.Sort` | internal/audit/store.go:346-353 | every key once, in ascending order |
| `AuditLike.EscapedIsLiteral` | internal/audit/store.go:426-429 | an escaped text followed by any pattern matches that text literally and then the pattern |
| `AuditLike.SearchIsSubstring` | internal/audit/store.go:372-396 | the search matches iff the text contains the searched one as a literal substring up to ASCII case, whatever its characters |
| `AuditLike.ContainsMeans` | internal/audit/store.go:372-396 | containing means standing at some position, character by character, A to Z being the same as a to z |
| `AuditLike.PrefixMeans` | internal/audit/store.go:376-380 | a prefix without wildcards is matched iff it stands at the beginning |
| `AuditLike.ActionPrefixIff` | internal/audit/store.go:376-380 | the action filter with a star is a prefix test iff the prefix holds no wildcard |
| `AuditQuery.ScopeClause` | internal/audit/store.go:437-454 | one argument to a placeholder, and true iff the row's target resolves to one of the groups |
| `AuditQuery.IsVisibleTo` | internal/audit/store.go:218-248 | the single-record rule |
| `AuditQuery.VisibilityAgreesIff` | internal/audit/store.go:206-248 | it agrees with the list's clause on a stored row iff that is not a group row without target for a caller with the empty group id |
| `AuditQuery.AddMentions` | internal/audit/store.go:372-375 | the substring clause and its argument conjoin exactly that filter |
| `AuditQuery.AddNames` | internal/audit/store.go:385-404 | an equality clause and its argument conjoin exactly that filter |
| `AuditQuery.AddCursor` | internal/audit/store.go:405-408 | the cursor clause and its three arguments select exactly the rows below the cursor |
| `AuditQuery.BuildWhere` | internal/audit/store.go:355-418 | the clause takes exactly the arguments built with it and selects exactly the rows the query asks for: from since on and before until, with the actor, target, outcome and request named, the labels containing the texts, the action or its prefix, below the cursor and within the groups |
| `AuditQuery.WantedMeans` | internal/audit/store.go:355-418 | the twelve filters together, on the columns of a row |
| `AuditPaging.Select` | internal/audit/store.go:346-353 | at most n answers, newest first, every other answer being older; fewer than n only when there are no others |
| `AuditPaging.ListQuery` | internal/audit/store.go:304-341 | a page of at most the limit, 50 if none was given and 500 at most, newest first, every answer beyond it being older; hasMore iff there is one |
| `AuditPaging.ListingIsUnique` | internal/audit/store.go:346-353 | there is only one newest-first listing of the answers |
| `AuditPaging.List` | internal/audit/handler.go:108-129 | half a cursor is refused; otherwise the page and the cursor of its last record when more remain |
| `AuditPaging.FirstPage` | internal/audit/handler.go:112-129 | a page asked for without a cursor is the beginning of the answers, with a cursor iff more remain |
| `AuditPaging.RestFromCursor` | internal/audit/store.go:405-408 | the answers below a cursor are the rest of the first listing, although newer rows have come in |
| `AuditPaging.NextPage` | internal/audit/handler.go:100-129 | the next page is the next stretch of that listing |
| `AuditPaging.FollowPages` | internal/audit/handler.go:63-130 | following cursors with any page sizes while newer rows are inserted ends, having returned the rows that answered at the start, each exactly once, newest first, and nothing else: all of them, or those down to a row whose cursor cannot be used |
| `AuditPaging.PageNow` | internal/audit/handler.go:63-130 | one page of the table as it is now, with or without a cursor: all the answers left, or a proper beginning of them with the cursor of its last row |
| `AuditPaging.PageGoesOn` | internal/audit/store.go:405-408 | such a page keeps: newest first without repetition, every row seen answered when it was read, and no row that answered all along is left out above the cursor |
| `AuditPaging.FollowWhileChanging` | internal/audit/handler.go:63-130 | the same while rows are inserted and deleted anywhere and systems change group, as long as the table settles at some time: every row that answered all along is seen exactly once, newest first, and whatever is seen answered when it was read |
| `AuditPaging.FollowWhileGrowing` | internal/audit/handler.go:63-130 | while rows are only inserted, but anywhere: every row that answered at the start is seen exactly once, newest first, and whatever is seen answers still |
| `AuditPaging.UnusableCursors` | internal/audit/handler.go:108-111 | a cursor is refused iff just one of its time and its id is missing, as for a row of time zero; otherwise it is usable iff its time is positive, and if not it is ignored: the answers are those from the beginning |
| `SecondFactor.VerifyTOTPCode` | internal/auth/totp.go:80-117 | an accepted step is above the floor, within one of the current thirty seconds and generates the code, being the first tried that does; a refused code is generated by no candidate |
| `SecondFactor.HighestStepIff` | internal/auth/totp.go:94-98 | the accepted step is the highest match iff the code is not also the next step's |
| `SecondFactor.StepsNeverRepeat` | internal/auth/store.go:762-778 | under any interleaving the steps accepted between two resets of the floor strictly increase, each within one of its verifier's step |
| `SecondFactor.AcceptedIff` | internal/auth/store.go:762-778 | a held step is accepted iff it is later than every step accepted since the floor was last reset |
| `SecondFactor.FloorIsLatest` | internal/auth/store.go:762-778 | in every run the stored floor is below exactly the steps later than all accepted since the last enrolment or reset |
| `SecondFactor.StepAcceptedIff` | internal/auth/totp.go:80-117 | in every run, from its events: the code of a step is accepted iff the step is within one of the current one and no step as late was accepted since the last enrolment or reset, neither when the request read the state nor when it consumes the step |
| `SecondFactor.ConfirmedAgainIff` | internal/auth/totp_handler.go:130-150 | the step that confirmed the enrolment is accepted once more iff no step as late was accepted since |
| `SecondFactor.EnrolmentCodeTwice` | internal/auth/store.go:639-648 | enrolled and logged in with the code of one and the same step |
| `SecondFactor.CodesNeverRepeat` | internal/auth/store.go:846-896 | under any interleaving no recovery code is consumed twice between two replacements |
| `SecondFactor.OpenIsOnOffer` | internal/auth/store.go:783-896 | a code is stored and unused iff the newest enrolment or replacement issued it and nothing has spent it since |
| `SecondFactor.CodeAcceptedIff` | internal/auth/store.go:846-896 | in every run, from its events: a recovery code is accepted iff it matches, was on offer when the request listed the codes and still is |
| `SecondFactor.CodeWorks` | internal/auth/store.go:846-896 | the unused code of an enrolment is accepted if it matches and refused if not |
| `SecondFactor.EpochIsCount` | internal/auth/store.go:688-716 | the epoch is the number of disables and resets |
| `SecondFactor.RequestsAreRead` | internal/auth/handler.go:425-443 | the epoch every request holds is the one at its own read of the user's state |
| `SecondFactor.CookiesAreKept` | internal/auth/totp_handler.go:376-392 | every cookie carries the epoch its minting request read, and its row is there iff neither a reset nor a revocation came after the insert |
| `SecondFactor.EpochNeverFalls` | internal/auth/store.go:525-560 | the epoch never falls and every disable or admin reset raises it |
| `SecondFactor.EnabledIff` | internal/auth/store.go:639-716 | the factor is on iff there was no disable or reset since some enrolment |
| `SecondFactor.BeginsIff` | internal/auth/handler.go:425-443 | verifications and logins by cookie begin exactly then: none after a reset until the next enrolment |
| `SecondFactor.HonouredIff` | internal/auth/handler.go:460-494 | a cookie lets a login through iff it was issued and has not expired, no reset came between the two reads of the user's state, and its row was not removed since its insert |
| `SecondFactor.HonoursAre` | internal/auth/handler.go:460-494 | so it was for every login let through in any run, at the moment it was |
| `SecondFactor.ResetsRevokeDevices` | internal/auth/store.go:518-560 | a cookie read for before a reset is honoured after it only by a login that had read the state before it too, and only if its row was inserted after it |
| `SecondFactor.ReadsShareAGeneration` | internal/auth/handler.go:460-494 | a login that reads the state after a reset honours no cookie read for before it |
| `SecondFactor.StaleDeviceRow` | internal/auth/totp_handler.go:376-392 | a device row can be inserted after the reset that should have removed it, under an earlier epoch, which is what the epoch test is for |
| `SecondFactor.LateHonour` | internal/auth/handler.go:431-443 | a run in which a login racing with the reset as well honours that row's cookie after the reset |
| `Lockout.LockDurationDoubles` | internal/auth/handler.go:97-110 | the lock after n failures is min(2^(n-5), 15) minutes; capping the shift changes nothing |
| `Lockout.LocksAre` | internal/auth/handler.go:87-110 | in nanoseconds: none for four failures, then 1, 2, 4, 8 and 15 minutes, and 15 from the ninth on |
| `Lockout.LockedIff` | internal/auth/store.go:437-470 | an account is locked iff five failures or more were counted in a row and the lock of the last one has not run out |
| `Lockout.Accounts.HandleLogin` | internal/auth/handler.go:362-454 | for each reply exactly when it is given, a session included; the account after it: cleared, one more failure, or as it was, failing writes included |
| `Lockout.Accounts.HandleTOTPVerify` | internal/auth/totp_handler.go:197-305 | the same at the second step, with its different order of tests |
| `Lockout.Accounts.RecordLoginFailure` | internal/auth/handler.go:137-166 | counter and lock become those of one more failure, or stay when the write fails |
| `Lockout.Accounts.ClearLoginFailures` | internal/auth/store.go:475-491 | counter and lock are cleared for that account alone |
| `Lockout.AccountedGrows` | internal/auth/store.go:437-470 | counter n >= 5 always means a lock of the right length from the last counted failure, and every failure after the fifth came after its predecessor's lock |
| `Lockout.GuessingIsSlow` | internal/auth/handler.go:82-110 | in every run every counted failure after the ninth comes at least fifteen minutes after the one before it, whichever step they hit, and the time since the fifth adds up accordingly |
| `Throttle.Throttle.Prune` | internal/auth/throttle.go:77-92 | the bucket is the whole recorded history filtered to the window, and other keys keep theirs |
| `Throttle.Throttle.DropExpired` | internal/auth/throttle.go:80-86 | dropping the expired prefix filters the history |
| `Throttle.Throttle.Check` | internal/auth/throttle.go:47-63 | the answer is that for the filtered history, the panic of a limit of zero or less included |
| `Throttle.Throttle.Record` | internal/auth/throttle.go:67-75 | the failure is appended and the invariant kept |
| `Throttle.AnswerMeans` | internal/auth/throttle.go:47-63 | from the history itself: zero while fewer failures than the limit are no older than the window, and then the time until the oldest of those is |
| `Throttle.WaitIsLeast` | internal/auth/throttle.go:54-62 | absent new records the wait is the least time after which a check answers zero, counting down until then |
| `Throttle.WaitIsFinal` | internal/auth/throttle.go:54-62 | it goes on answering zero iff there is an event at every instant from the oldest to the limit-th newest; in particular for a bucket that holds exactly the limit |
| `Rotation.SafeKeepsPlaintexts` | internal/auth/rotate.go:135-162 | however often interrupted, every row opens to its original plaintext and unopenable rows are untouched |
| `Rotation.ScanRotatable` | internal/auth/rotate.go:176-206 | exactly the stale rows, once each, in any order; listed plus skipped is the number of versioned rows |
| `Rotation.Table.ResealOne` | internal/auth/rotate.go:144-160 | one row to the current version with its plaintext, or nothing |
| `Rotation.Table.RotateColumn` | internal/auth/rotate.go:135-162 | safe wherever it stops; succeeds iff every stale row opens and no step is refused, leaving none stale with rotated plus skipped the number of versioned rows; reports zeros otherwise |
| `Rotation.Table.RunRotate` | internal/auth/rotate.go:102-130 | both columns: safe wherever it stops, ok iff every stale row opens and no step is refused; on success all current and the counts true; on failure the reported counts are the true ones iff the failing column had re-sealed nothing; on fresh rows it changes nothing |
| `Rotation.Table.RotateUntilDone` | internal/auth/rotate.go:106-162 | any number of failed attempts and then a success: all on the current version, plaintexts kept, counts adding up |
| `Rotation.FailureReportsZero` | internal/auth/rotate.go:102-105 | a run that finds two stale rows, re-seals one and fails reports zero for everything |
| `PromScope.JoinParses` | internal/metrics/enforce.go:76-80 | the escaped, joined pattern parses to exactly the ids as literal alternatives |
| `PromScope.NeverMatches` | internal/metrics/enforce.go:66-72 | ".^" matches nothing |
| `PromScope.SystemIDMatcher` | internal/metrics/enforce.go:65-81 | for any list of ids the matcher accepts a series iff its label "system_id" is one of them |
| `PromScope.RestrictMeansFilter` | internal/metrics/enforce.go:50-56 | for every query tree and engine: the restricted query on all series is the original on the accepted ones, if no absent() of a selector gets other labels |
| `PromScope.RestrictReadsOnly` | internal/metrics/enforce.go:30-38 | for every query tree and engine, absent() included: the restricted query depends on the accepted series alone |
| `PromScope.SpelledAre` | internal/metrics/enforce.go:50-56 | which labels an absent() has, as Prometheus documents it: a name other than "__name__" whose last matcher is its first equality |
| `PromScope.SpelledIff` | internal/metrics/enforce.go:65-81 | the matcher leaves the labels of an absent() alone iff it has none for system_id and, the matcher being an equality, already had an equality on it |
| `PromScope.LabelsAreSeen` | internal/metrics/enforce.go:50-56 | no weaker condition will do: an engine that records what it is asked tells the two queries apart otherwise, on any data |
| `PromScope.AbsentTells` | internal/metrics/enforce.go:73-75 | `absent(up)` and one allowed id: the label system_id is added |
| `PromScope.AppendedIsRestrict` | internal/metrics/enforce.go:50-55 | appending in place to every selector's list is the restriction of the query |
| `PromScope.ParsedQuery.Inspect` | internal/metrics/enforce.go:50-55 | exactly the selectors of the subtree gain the matcher, once each |
| `PromScope.ParsedQuery.EnforceSystemID` | internal/metrics/enforce.go:41-57 | afterwards the query reads the allowed systems' series only, and evaluates as the original on those, for every engine, iff each absent() of a selector keeps its labels |
| `Debounce.NoLostWakeUp` | internal/promtargets/promtargets.go:209-256 | in every reachable state a relevant event since the last write began has a token waiting or a write committed, unless the loop was cancelled |
| `Debounce.CleanMeansSeen` | internal/promtargets/promtargets.go:209-256 | the state's flag says exactly that no relevant event is without a later write |
| `Debounce.QuietMeansUpToDate` | internal/promtargets/promtargets.go:209-256 | when the loop rests with an empty channel every relevant event was followed by a write that began after it |
| `Debounce.WriteWithinBound` | internal/promtargets/promtargets.go:228-254 | an outstanding event leaves the loop able to move, and at most five loop steps, plus one per new arrival, pass before a write begins |
| `Debounce.WritesBounded` | internal/promtargets/promtargets.go:228-254 | at most one write per relevant event, plus the one at start-up, whatever the windows |
| `Debounce.WindowThenWrite` | internal/promtargets/promtargets.go:233-254 | in every run, between a token and the next write the timer of a window fires |
| `Debounce.OneWriteForAWindow` | internal/promtargets/promtargets.go:199-200 | all events from a token to the firing of its timer are covered by one and the same write, after that firing |
| `Debounce.WritesAreWindows` | internal/promtargets/promtargets.go:199-200 | at most one write per window, plus the one at start-up |
| `Debounce.TwoEventsOneWrite` | internal/promtargets/promtargets.go:233-254 | two events in one window share a write |
| `Debounce.ShutdownFlushesIff` | internal/promtargets/promtargets.go:206-261 | from a cancellation on, without further events: every way to return has written after every event iff at the cancellation nothing was outstanding or the loop was committed to a write |
| `Debounce.CanReturn` | internal/promtargets/promtargets.go:219-254 | from any cancelled state the loop can return, and without writing unless it was committed to a write |
| `Debounce.ShutdownDoesNotFlush` | internal/promtargets/promtargets.go:206-261 | an event arrives while the loop waits, the context is cancelled and the loop sees that first: the event is lost |

## Left out

- Lockout.Accounts.HandleLogin: handlers run one after another; concurrent failures on one account, which read the counter before incrementing it, are not modelled.
- Lockout.Accounts.HandleTOTPVerify: likewise sequential; which code was right is an input, its consumption being the subject of SecondFactor.
- Delivery.Dispatcher.Emit: what a sender does with a message, its retries, time-outs and detached goroutines; a fan-out is the record of message and channels.
- Flush.FlushPending: message kinds other than fired and resolved, and a database that fails half-way through the list.
- AuditPaging.FollowPages: the client stops at a cursor that cannot be used, of which UnusableCursors says what would become; deletions and changes of group are the subject of FollowWhileChanging.
- AuditPaging.FollowWhileChanging: the table settles at some time, since a client may otherwise be kept busy for ever.
- AlertHistory.Replay: a disabling falls between two ticks; inside one, it is the subject of Alerts.EvaluateRule, which says what is left of one rule, not of whole histories.
- Recipient.Run: the rule is not edited during the run, user ids are not empty, and a user is named at most once in an audience, as the primary key of the subscriptions has it; a channel is told when a message is fanned out to it.
- QuietPeriod.Period: a statement about one quiet period in which nothing fails, beside Recipient.Run, which is about every run.
- Debounce.WriteWithinBound: a bound in loop steps, not in milliseconds; the timer and the regeneration itself take arbitrary time, and one that fails is not repeated before the next event.
- SecondFactor.HonouredIff: device ids are fresh, whether a cookie and its row have expired is an input, and the row is read in one step.
- SecondFactor.VerifyTOTPCode: the empty secret, and the length test before the constant-time comparison, which the comparison of the codes covers.
- PromScope.ParsedQuery.EnforceSystemID: the engine, which is Prometheus and a parameter here, with the labels of absent() and absent_over_time() as it documents them; the PromQL parser and the printing of the rewritten tree, regular expressions beyond literals, ".", "^", "$" and alternation.
- Throttle.Throttle.Check: a nil throttle, which always allows, and the mutex, every method being one atomic step.
- The query that decides which systems breach (internal/alerts/evaluator.go:206-252): its result is an input.
- Rule editing while instances exist, other than disabling and deleting: a rule in a history never changes.
- The delivery log, message texts, channel secrets, subscriptions and the user policy store beyond what a batch reads.
- Policy JSON, time zone names and severity keys in Validate; the zone database is a function to local weekday and minute.
- bcrypt, HMAC, AES-GCM and the one-time-password algorithm: opening undoes sealing, a code matches or not.
- Sessions, cookies, CSRF, OIDC, HTTP routing, JSON decoding, audit writing and backup.
- The wording of the selector's errors; key and value errors carry no reason.
- The stores for groups, exclusions, holds, host keys, label styles and exporters: single-table reads and writes that would add only easy members.
