# capi-watcher: the readiness check and its dispatch, in Dafny

capi-watcher watches Cluster API `Cluster` objects. For every add or update
notification the watch delivers, it runs a status checker. The checker looks
for the condition `Ready` in `status.conditions`, ignoring case. If that
condition's status is `True`, also ignoring case, it records one Kubernetes
event on the cluster: type `Normal`, reason `ClusterReady`, message
`Cluster <name> is Ready`. Delete notifications never reach the checker.

This project models that decision and its wiring as pure functions over an
immutable document value, and proves properties about them.

- `fold.dfy` (`Fold`): the case-insensitive comparison (`EqualFold`), with a
  reference definition (fold both strings, then compare) and proofs that it
  is an equivalence.
- `documents.dfy` (`Documents`): the watched object as a JSON-like tree
  (`Value`, `Unstructured`), and path lookup with a tagged result
  `Found | NotFound | WrongType`. `NestedSlice`, `NestedString` and `GetName`
  stand in for the apimachinery helpers the checker calls. A `null` met
  before the end of a path counts as "not found". A `null` found where a list
  or string is expected is a shape error.
- `status_checker.dfy` (`StatusChecker`): `NewStatusChecker`,
  `checkCondition` (`CheckCondition` and its loop `Scan`) and `Handle`.
  `checkCondition`'s `(bool, error)` result is `Returned(ok, failed)`. A
  condition entry that is not a map makes the unchecked type assertion panic:
  that is the separate outcome `Panicked`, not a skipped entry.
- `watcher.dfy` (`Watcher`): the `OnAdd`, `OnUpdate` and `OnDelete`
  callbacks, and `HandlerCalls`, which maps a notification trace to the
  sequence of handler calls.
- `pipeline.dfy` (`Pipeline`): callbacks and checker composed. `Run` maps a
  trace to the events recorded and the number of panics. It also holds the
  end-to-end properties: no deduplication, deletes add nothing, and the
  add / update / update / delete scenario.

In four places the code does not behave as the system's design intends. The model follows the code:

- The design says a malformed condition entry is skipped. The code asserts
  each entry is a map without checking (`internal/handler/status_checker.go:82`),
  so a non-map entry panics. The model has a `Panicked` outcome.
- The design says a handler fault is caught at the loop boundary and the next
  notification is still processed. The only recovery in the code is
  `defer utilruntime.HandleCrash()` in `Run` (`internal/watcher/watcher.go:57`).
  That runs on `Run`'s own goroutine, not the ones that deliver
  notifications, and by default it re-raises the panic. Both readings are
  therefore modelled. `CrashPolicy.Halt` means a panic ends processing; this
  is the program's default. `CrashPolicy.Skip` means the notification that
  panicked is lost and processing continues.
- The design says deletes are only logged. `OnDelete` does log only, but with
  debug logging on it first converts the delivered value to `Unstructured`
  without checking (`internal/watcher/watcher.go:99`). A delete that carries a
  tombstone (an object whose deletion the watch missed) therefore panics. The
  model's `DeletedObject` has a `Tombstone` case, and `OnDelete` returns
  `CallbackPanicked` for it when debug is on. It never calls the handler.
- The design describes a stream deduplicated by resource version. Nothing in
  the code deduplicates: every delivery of a ready object yields one call to
  the event recorder.

## Model

| member | source | states |
|---|---|---|
| Fold.EqualFoldIsFoldedEquality | internal/handler/status_checker.go:84 | the rune-by-rune case-insensitive comparison holds exactly when both strings have the same case fold |
| Fold.EqualFoldReflexive | internal/handler/status_checker.go:84 | every string matches itself ignoring case |
| Fold.EqualFoldSymmetric | internal/handler/status_checker.go:93 | the comparison of type or status against the configured value does not depend on argument order |
| Fold.EqualFoldTransitive | internal/handler/status_checker.go:93 | matching ignoring case is transitive, so it is an equivalence |
| Fold.EqualFoldIgnoresCase | internal/handler/status_checker.go:93 | a string matches its lower-cased form: "TRUE", "true" and "True" all match |
| Fold.EqualFoldSameLength | internal/handler/status_checker.go:84 | strings of different lengths never match ignoring case |
| Documents.NestedFieldAppend | internal/handler/status_checker.go:71 | looking up status.conditions walks status, then conditions; a miss or shape error at status is final |
| Documents.NestedStringField | internal/handler/status_checker.go:83 | a one-field string lookup is found exactly when the key is present with a string value; it is not found exactly when the key is absent |
| Documents.GetNameOf | internal/handler/status_checker.go:67 | the object's name is read from metadata.name |
| StatusChecker.NewStatusChecker | internal/handler/status_checker.go:22-29 | the checker keeps the configured condition name and status unchanged |
| StatusChecker.Scan | internal/handler/status_checker.go:81-96 | the loop over conditions never returns an error: per-entry lookup errors are swallowed |
| StatusChecker.CheckCondition | internal/handler/status_checker.go:70-97 | an error result is always paired with false |
| StatusChecker.CheckConditionByShape | internal/handler/status_checker.go:71-79 | missing status or status.conditions (or a null status) gives false with no error; a status that is not a map, or conditions that is not a list, gives false with an error; a list is scanned |
| StatusChecker.CheckConditionFails | internal/handler/status_checker.go:71-75 | an error is reported exactly when the conditions lookup hits the wrong shape |
| StatusChecker.ScanSkips | internal/handler/status_checker.go:83-91 | a map entry whose type is missing, not a string or not matching, or whose matching type has no string status, is skipped and scanning goes on |
| StatusChecker.ScanIsFirstStopVerdict | internal/handler/status_checker.go:81-96 | the first entry that is either a non-map or a matching entry with a string status decides: a non-map panics, a matching entry returns whether its status matches ignoring case; with no such entry the result is false with no error |
| StatusChecker.ScanAppend | internal/handler/status_checker.go:81-94 | entries after the deciding one are never consulted; entries before it have no influence |
| StatusChecker.SingleConditionReady | internal/handler/status_checker.go:81-94 | with the fixed Ready/True checker, a lone condition is ready exactly when its type is "Ready" and its status "True", each in any case |
| StatusChecker.SingleConditionCannotPanic | internal/handler/status_checker.go:82 | a conditions list whose only entry is a map never panics |
| StatusChecker.ReadyMessageNamesObject | internal/handler/status_checker.go:67 | the event message "Cluster <name> is Ready" contains the object's name, which can be read back from it |
| StatusChecker.Handle | internal/handler/status_checker.go:38-67 | an event is emitted exactly when checkCondition returned true; it has type Normal, reason ClusterReady, the message naming the object and the converted cluster as target; an error result emits nothing; a panic in checkCondition is a panic of Handle |
| StatusChecker.HandleIgnoresConversionFailure | internal/handler/status_checker.go:57-67 | whether the event is emitted, and its type, reason and message, do not depend on the converter; a ready object whose conversion failed still gets its event, against the partially filled cluster |
| Watcher.OnAdd | internal/watcher/watcher.go:70-80 | an add calls the handler once, with a copy equal to the added object |
| Watcher.OnUpdate | internal/watcher/watcher.go:82-92 | an update calls the handler once, with a copy equal to the new object |
| Watcher.OnUpdateIgnoresOld | internal/watcher/watcher.go:82-92 | the old object of an update has no influence |
| Watcher.OnDelete | internal/watcher/watcher.go:94-106 | a delete never calls the handler; it panics exactly when debug logging is on and it carries a tombstone |
| Watcher.HandlerCallsOfOne | internal/watcher/watcher.go:70-106 | one notification yields the added object, the new object of an update, or no call for a delete |
| Watcher.HandlerCallsAppend | internal/watcher/watcher.go:70-106 | dispatch keeps no state: the calls of a concatenated trace are the concatenated calls |
| Watcher.HandlerCallsIgnoreDebug | internal/watcher/watcher.go:94-97 | the debug setting has no influence on which calls reach the handler |
| Watcher.HandlerCallsFromAddsAndUpdates | internal/watcher/watcher.go:70-92 | every handler call carries an object delivered by an add or an update |
| Pipeline.StepOf | internal/handler/status_checker.go:38-67 | one notification yields at most one event, and none if it panics |
| Pipeline.Collect | internal/watcher/watcher.go:57 | when a panic ends processing, at most one panic is ever observed |
| Pipeline.StepOfNotification | internal/watcher/watcher.go:70-106 | an add or update yields the ready event exactly when the delivered (new) object is ready; a delete yields no event, whatever the object and debug setting |
| Pipeline.RunAppend | internal/watcher/watcher.go:70-106 | a run over two trace parts is the two runs joined, unless the first part panicked and panics end processing |
| Pipeline.SkipKeepsLaterEvents | internal/watcher/watcher.go:57 | if panics are contained, a panic in one notification never stops the events of later ones |
| Pipeline.RunIsDispatchThenCheck | internal/watcher/watcher.go:70-106 | with no panics, the recorded events are one ready event per handler call whose object is ready, in delivery order |
| Pipeline.SkipRunIsDispatchThenCheck | internal/watcher/watcher.go:70-106 | when panics are contained, every trace (panicking or not) records exactly one ready event per handler call whose object is ready, in delivery order |
| Pipeline.RunIsPrefixOfDispatchThenCheck | internal/watcher/watcher.go:70-106 | under either crash policy the recorded events are a prefix of one ready event per ready handler call: a panic only cuts the sequence short |
| Pipeline.EventsAreReadyEvents | internal/handler/status_checker.go:38-67 | every event a run records, under either crash policy and with or without panics, is a Normal ClusterReady event about a ready object that an add, or the new side of an update, in the trace delivered |
| Pipeline.NoDeduplicationOfAdds | internal/watcher/watcher.go:70-80 | adding the same ready object n times records n identical events |
| Pipeline.NoDeduplicationOfUpdates | internal/watcher/watcher.go:82-92 | redelivering an unchanged ready object as an update n times records n identical events |
| Pipeline.DeleteAddsNothing | internal/watcher/watcher.go:94-106 | appending a delete never adds an event; with debug off it changes nothing |
| Pipeline.TombstoneUnderDebugHalts | internal/watcher/watcher.go:99 | with debug on, a tombstone delete panics, and when panics end processing nothing after it is handled |
| Pipeline.ReadyFlapThenDelete | internal/watcher/watcher.go:70-106 | add ready A, update it to not ready, update it back, delete it (a tombstone too when debug is off): exactly two events, both A's ready event |
| Pipeline.AddUpdateUpdateDelete | internal/watcher/watcher.go:70-106 | with the program's Ready/True checker, the add/update/update/delete scenario records exactly two ClusterReady events naming A, with no panic, for any converter, debug setting and crash policy |

## Left out

- `New` and `Run` in `internal/watcher/watcher.go:35-68`: informer construction, waiting for the cache to sync, stop-channel blocking and goroutine lifecycle. These are client library machinery, not sequential logic. The only trace of them in the model is `CrashPolicy`, which says what happens after a panic.
- `main.go`: flags, environment variables, kubeconfig loading, the signal handler, the wait group and the exit status. These are process wiring. The fixed configuration at `main.go:90-95` is the constant `StatusChecker.ReadyChecker`.
- Resync cadence: `main.go` never sets `ResyncInterval`. Redelivery is modelled only as the same object arriving again, as `Added` or `Updated`.
- `internal/recorder/recorder.go`: the event broadcaster and client set. The recorder is the sequence of `Event` values a run returns, one per recorder call. Behind those calls, client-go's event correlator merges identical events into one event with a count and limits the rate of events per object. That is not modelled, so the model counts recorder calls, not the events stored in the cluster.
- The converter to the typed `Cluster` is a library call, so it is the parameter `convert`, which may fail. The typed cluster is reduced to its apiVersion, kind, namespace and name. The recorder's object reference also reads the uid and resource version, which are not modelled.
- Logging has no effect on outcomes and is left out. The one exception is the debug flag's effect on `OnDelete`, which is modelled.
- Fold.EqualFold: folds ASCII letters only and compares every other character exactly. Unicode simple folding (for example the Kelvin sign against `k`) is not modelled.
- Watcher.DeepCopy: values cannot alias, so the copy is the value itself. The isolation the deep copy buys holds by construction, not by a proof.
- Documents.NestedSlice: a shape error carries no message text. JSON numbers and booleans collapse into one `Other` value, because the checker never inspects them.
- Ordering across object identities and concurrent delivery are not modelled. A trace is one sequential delivery order.
