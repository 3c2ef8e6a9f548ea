/**
 The watcher wired to the status checker: a trace of notifications becomes
 the sequence of events the recorder receives.
 */
module Pipeline {
  import opened Fold
  import opened Documents
  import opened StatusChecker
  import opened Watcher

  /** What happens after a callback panics. `Halt`: the panic ends the
      process, so nothing after it is processed. `Skip`: the panic is
      contained, only the offending notification is lost. */
  datatype CrashPolicy = Halt | Skip

  /** Everything the run depends on besides the trace. */
  datatype Wiring = Wiring(
    checker: StatusChecker,
    convert: map<string, Value> -> Conversion,
    debug: bool,
    policy: CrashPolicy)

  /** The events one notification produces, and whether it panicked. */
  datatype Step = Step(events: seq<Event>, panicked: bool)

  /** The events recorded over a run, and how many notifications panicked. */
  datatype Outcome = Outcome(events: seq<Event>, panics: nat)

  function StepOf(w: Wiring, n: Notification): (s: Step)
    ensures |s.events| <= 1
    ensures s.panicked ==> s.events == []
  {
    match React(w.debug, n)
    case Invoke(u) =>
      (match Handle(w.checker, w.convert, u)
       case Quiet => Step([], false)
       case Emitted(e) => Step([e], false)
       case HandlerPanicked => Step([], true))
    case Ignored => Step([], false)
    case CallbackPanicked => Step([], true)
  }

  /** The step of each notification, in delivery order. */
  function Steps(w: Wiring, trace: seq<Notification>): seq<Step>
  {
    seq(|trace|, i requires 0 <= i < |trace| => StepOf(w, trace[i]))
  }

  /** Gathers the events of a sequence of steps under a crash policy. */
  function Collect(policy: CrashPolicy, steps: seq<Step>): (r: Outcome)
    ensures r.panics <= |steps|
    ensures policy == Halt ==> r.panics <= 1
    decreases |steps|
  {
    if |steps| == 0 then Outcome([], 0)
    else if steps[0].panicked && policy == Halt then Outcome([], 1)
    else
      var rest := Collect(policy, steps[1..]);
      Outcome(steps[0].events + rest.events, (if steps[0].panicked then 1 else 0) + rest.panics)
  }

  /** Processes the trace in delivery order. */
  function Run(w: Wiring, trace: seq<Notification>): Outcome
  {
    Collect(w.policy, Steps(w, trace))
  }

  /** A run takes the first notification's step, then the rest of the trace,
      unless that step panicked under `Halt`. */
  lemma RunCons(w: Wiring, trace: seq<Notification>)
    requires |trace| > 0
    ensures var s := StepOf(w, trace[0]);
            Run(w, trace) ==
              if s.panicked && w.policy == Halt then Outcome([], 1)
              else Outcome(s.events + Run(w, trace[1..]).events,
                           (if s.panicked then 1 else 0) + Run(w, trace[1..]).panics)
  {
    assert Steps(w, trace)[0] == StepOf(w, trace[0]);
    assert Steps(w, trace)[1..] == Steps(w, trace[1..]);
  }

  /** A one-notification run records that notification's events. */
  lemma RunOne(w: Wiring, n: Notification)
    ensures Run(w, [n]) == Outcome(StepOf(w, n).events, if StepOf(w, n).panicked then 1 else 0)
  {
    RunCons(w, [n]);
    assert [n][1..] == [];
    assert Steps(w, []) == [];
  }

  /** No notification of the trace panics on its own. */
  predicate NoPanics(w: Wiring, trace: seq<Notification>)
  {
    forall i :: 0 <= i < |trace| ==> !StepOf(w, trace[i]).panicked
  }

  /** The events the status checker emits for one handler call that returns. */
  function CallEvents(w: Wiring, u: Unstructured): seq<Event>
  {
    if IsReady(w.checker, u) then [ReadyEvent(w.convert, u)] else []
  }

  /** The events the status checker emits for a sequence of handler calls. */
  function EventsFor(w: Wiring, calls: seq<Unstructured>): seq<Event>
    decreases |calls|
  {
    if |calls| == 0 then []
    else CallEvents(w, calls[0]) + EventsFor(w, calls[1..])
  }

  // ---------------------------------------------------------------------------
  // One notification
  // ---------------------------------------------------------------------------

  /** An add or an update yields one "ClusterReady" event exactly when the
      delivered (new) object is ready; a delete yields none, whatever the
      object and whatever the debug setting. */
  lemma StepOfNotification(w: Wiring, n: Notification)
    ensures n.Added? ==>
              StepOf(w, n).panicked == CheckCondition(w.checker, n.obj).Panicked? &&
              StepOf(w, n).events == (if IsReady(w.checker, n.obj) then [ReadyEvent(w.convert, n.obj)] else [])
    ensures n.Updated? ==>
              StepOf(w, n).panicked == CheckCondition(w.checker, n.newObj).Panicked? &&
              StepOf(w, n).events == (if IsReady(w.checker, n.newObj) then [ReadyEvent(w.convert, n.newObj)] else [])
    ensures n.Deleted? ==> StepOf(w, n).events == []
    ensures n.Deleted? && !w.debug ==> !StepOf(w, n).panicked
  {
  }

  // ---------------------------------------------------------------------------
  // Whole traces
  // ---------------------------------------------------------------------------

  /** A run over a concatenated trace: under `Halt` a panic in the first part
      ends the run there; otherwise the two parts are processed
      independently, with no state carried from one to the other. */
  lemma {:induction false} CollectAppend(policy: CrashPolicy, a: seq<Step>, b: seq<Step>)
    ensures Collect(policy, a + b) ==
              if policy == Halt && Collect(policy, a).panics > 0 then Collect(policy, a)
              else Outcome(Collect(policy, a).events + Collect(policy, b).events,
                           Collect(policy, a).panics + Collect(policy, b).panics)
    decreases |a|
  {
    if |a| == 0 {
      assert a + b == b;
    } else {
      assert (a + b)[0] == a[0] && (a + b)[1..] == a[1..] + b;
      CollectAppend(policy, a[1..], b);
    }
  }

  lemma RunAppend(w: Wiring, a: seq<Notification>, b: seq<Notification>)
    ensures Run(w, a + b) ==
              if w.policy == Halt && Run(w, a).panics > 0 then Run(w, a)
              else Outcome(Run(w, a).events + Run(w, b).events, Run(w, a).panics + Run(w, b).panics)
  {
    assert Steps(w, a + b) == Steps(w, a) + Steps(w, b);
    CollectAppend(w.policy, Steps(w, a), Steps(w, b));
  }

  /** Under `Skip`, a panic while handling one notification never prevents
      the later notifications from being handled. */
  lemma SkipKeepsLaterEvents(w: Wiring, a: seq<Notification>, b: seq<Notification>)
    requires w.policy == Skip
    ensures Run(w, a + b).events == Run(w, a).events + Run(w, b).events
  {
    RunAppend(w, a, b);
  }

  /** When nothing panics, the run is exactly the dispatch rule followed by
      the status checker: one event per handler call whose object is ready,
      in delivery order, whatever the crash policy. */
  lemma {:induction false} RunIsDispatchThenCheck(w: Wiring, trace: seq<Notification>)
    requires NoPanics(w, trace)
    ensures Run(w, trace) == Outcome(EventsFor(w, HandlerCalls(w.debug, trace)), 0)
    decreases |trace|
  {
    if |trace| != 0 {
      assert !StepOf(w, trace[0]).panicked;
      assert NoPanics(w, trace[1..]) by {
        forall i | 0 <= i < |trace[1..]| ensures !StepOf(w, trace[1..][i]).panicked {
          assert trace[1..][i] == trace[i + 1];
        }
      }
      RunIsDispatchThenCheck(w, trace[1..]);
      RunCons(w, trace);
      HandlerCallsAppend(w.debug, [trace[0]], trace[1..]);
      assert [trace[0]] + trace[1..] == trace;
      HandlerCallsOfOne(w.debug, trace[0]);
      StepOfNotification(w, trace[0]);
      EventsForAppend(w, HandlerCalls(w.debug, [trace[0]]), HandlerCalls(w.debug, trace[1..]));
      assert [] + HandlerCalls(w.debug, trace[1..]) == HandlerCalls(w.debug, trace[1..]);
      assert EventsFor(w, []) == [];
    }
  }

  lemma {:induction false} EventsForAppend(w: Wiring, a: seq<Unstructured>, b: seq<Unstructured>)
    ensures EventsFor(w, a + b) == EventsFor(w, a) + EventsFor(w, b)
    decreases |a|
  {
    if |a| == 0 {
      assert a + b == b;
    } else {
      assert (a + b)[0] == a[0] && (a + b)[1..] == a[1..] + b;
      EventsForAppend(w, a[1..], b);
    }
  }

  /** Whatever happens in a notification, panic or not, its events are the
      checker's events for the handler calls its callback makes: a panic in
      checkCondition comes from an object that is not ready, and a panicking
      delete makes no handler call. */
  lemma StepEventsAreEventsForCalls(w: Wiring, n: Notification)
    ensures StepOf(w, n).events == EventsFor(w, HandlerCalls(w.debug, [n]))
  {
    HandlerCallsOfOne(w.debug, n);
    StepOfNotification(w, n);
    match n
    case Added(u) =>
      assert [u][1..] == [];
    case Updated(_, u) =>
      assert [u][1..] == [];
    case Deleted(_) =>
  }

  /** When panics are contained, every trace, panicking or not, records
      exactly the dispatch rule followed by the status checker: one event per
      handler call whose object is ready, in delivery order. */
  lemma {:induction false} SkipRunIsDispatchThenCheck(w: Wiring, trace: seq<Notification>)
    requires w.policy == Skip
    ensures Run(w, trace).events == EventsFor(w, HandlerCalls(w.debug, trace))
    decreases |trace|
  {
    if |trace| != 0 {
      SkipRunIsDispatchThenCheck(w, trace[1..]);
      RunCons(w, trace);
      StepEventsAreEventsForCalls(w, trace[0]);
      HandlerCallsAppend(w.debug, [trace[0]], trace[1..]);
      assert [trace[0]] + trace[1..] == trace;
      EventsForAppend(w, HandlerCalls(w.debug, [trace[0]]), HandlerCalls(w.debug, trace[1..]));
    }
  }

  /** Under either crash policy, the recorded events are a prefix of what
      dispatch followed by the checker would record: a panic can only cut the
      sequence short, never change or add an event. */
  lemma {:induction false} RunIsPrefixOfDispatchThenCheck(w: Wiring, trace: seq<Notification>)
    ensures Run(w, trace).events <= EventsFor(w, HandlerCalls(w.debug, trace))
    decreases |trace|
  {
    if |trace| != 0 {
      RunCons(w, trace);
      var s := StepOf(w, trace[0]);
      if !(s.panicked && w.policy == Halt) {
        RunIsPrefixOfDispatchThenCheck(w, trace[1..]);
        StepEventsAreEventsForCalls(w, trace[0]);
        HandlerCallsAppend(w.debug, [trace[0]], trace[1..]);
        assert [trace[0]] + trace[1..] == trace;
        EventsForAppend(w, HandlerCalls(w.debug, [trace[0]]), HandlerCalls(w.debug, trace[1..]));
      }
    }
  }

  /** Every event the checker emits for a list of handler calls comes from
      the events of one of those calls. */
  lemma {:induction false} EventsForFromCalls(w: Wiring, calls: seq<Unstructured>, i: nat)
    requires i < |EventsFor(w, calls)|
    ensures exists j :: 0 <= j < |calls| && EventsFor(w, calls)[i] in CallEvents(w, calls[j])
    decreases |calls|
  {
    var here := CallEvents(w, calls[0]);
    var rest := EventsFor(w, calls[1..]);
    assert EventsFor(w, calls) == here + rest;
    if i < |here| {
      assert EventsFor(w, calls)[i] in CallEvents(w, calls[0]);
    } else {
      EventsForFromCalls(w, calls[1..], i - |here|);
      var j :| 0 <= j < |calls[1..]| && rest[i - |here|] in CallEvents(w, calls[1..][j]);
      assert calls[1..][j] == calls[j + 1];
    }
  }

  /** Every recorded event, under either crash policy and whether or not
      anything panicked, is a "ClusterReady" event of type Normal about an
      object that some add, or the new side of some update, delivered and
      that satisfies the condition. */
  lemma EventsAreReadyEvents(w: Wiring, trace: seq<Notification>, i: nat)
    requires i < |Run(w, trace).events|
    ensures Run(w, trace).events[i].eventType == EventTypeNormal
    ensures Run(w, trace).events[i].reason == ReasonClusterReady
    ensures exists j :: 0 <= j < |trace| &&
              ((trace[j].Added? && IsReady(w.checker, trace[j].obj) &&
                Run(w, trace).events[i] == ReadyEvent(w.convert, trace[j].obj)) ||
               (trace[j].Updated? && IsReady(w.checker, trace[j].newObj) &&
                Run(w, trace).events[i] == ReadyEvent(w.convert, trace[j].newObj)))
  {
    var calls := HandlerCalls(w.debug, trace);
    RunIsPrefixOfDispatchThenCheck(w, trace);
    assert Run(w, trace).events[i] == EventsFor(w, calls)[i];
    EventsForFromCalls(w, calls, i);
    var k :| 0 <= k < |calls| && EventsFor(w, calls)[i] in CallEvents(w, calls[k]);
    assert IsReady(w.checker, calls[k]) && EventsFor(w, calls)[i] == ReadyEvent(w.convert, calls[k]);
    HandlerCallsFromAddsAndUpdates(w.debug, trace, k);
    var j :| 0 <= j < |trace| &&
             ((trace[j].Added? && trace[j].obj == calls[k]) ||
              (trace[j].Updated? && trace[j].newObj == calls[k]));
  }

  // ---------------------------------------------------------------------------
  // Redelivery and deletes
  // ---------------------------------------------------------------------------

  function Repeat<T>(x: T, n: nat): (xs: seq<T>)
    ensures |xs| == n
    ensures forall i :: 0 <= i < n ==> xs[i] == x
  {
    if n == 0 then [] else [x] + Repeat(x, n - 1)
  }

  /** There is no deduplication: delivering the same ready object n times by
      add yields n identical events. */
  lemma {:induction false} NoDeduplicationOfAdds(w: Wiring, u: Unstructured, n: nat)
    requires IsReady(w.checker, u)
    ensures Run(w, Repeat(Added(u), n)) == Outcome(Repeat(ReadyEvent(w.convert, u), n), 0)
  {
    if n != 0 {
      NoDeduplicationOfAdds(w, u, n - 1);
      assert Repeat(Added(u), n)[0] == Added(u);
      assert Repeat(Added(u), n)[1..] == Repeat(Added(u), n - 1);
      RunCons(w, Repeat(Added(u), n));
      StepOfNotification(w, Added(u));
    }
  }

  /** The same for updates: an unchanged ready object delivered again as an
      update n times yields n identical events, one per delivery. */
  lemma {:induction false} NoDeduplicationOfUpdates(w: Wiring, u: Unstructured, n: nat)
    requires IsReady(w.checker, u)
    ensures Run(w, Repeat(Updated(u, u), n)) == Outcome(Repeat(ReadyEvent(w.convert, u), n), 0)
  {
    if n != 0 {
      NoDeduplicationOfUpdates(w, u, n - 1);
      assert Repeat(Updated(u, u), n)[0] == Updated(u, u);
      assert Repeat(Updated(u, u), n)[1..] == Repeat(Updated(u, u), n - 1);
      RunCons(w, Repeat(Updated(u, u), n));
      StepOfNotification(w, Updated(u, u));
    }
  }

  /** Appending a delete never adds an event, and with debug logging off it
      leaves the run unchanged altogether. */
  lemma DeleteAddsNothing(w: Wiring, trace: seq<Notification>, gone: DeletedObject)
    ensures Run(w, trace + [Deleted(gone)]).events == Run(w, trace).events
    ensures !w.debug ==> Run(w, trace + [Deleted(gone)]) == Run(w, trace)
  {
    RunAppend(w, trace, [Deleted(gone)]);
    RunOne(w, Deleted(gone));
    StepOfNotification(w, Deleted(gone));
  }

  /** With debug logging on, a delete that carries a tombstone panics in the
      callback; under `Halt` nothing after it is processed. */
  lemma TombstoneUnderDebugHalts(w: Wiring, key: string, last: Unstructured, rest: seq<Notification>)
    requires w.debug && w.policy == Halt
    ensures Run(w, [Deleted(Tombstone(key, last))] + rest) == Outcome([], 1)
  {
    var t := [Deleted(Tombstone(key, last))] + rest;
    assert t[0] == Deleted(Tombstone(key, last));
    RunCons(w, t);
  }

  // ---------------------------------------------------------------------------
  // The program's scenario
  // ---------------------------------------------------------------------------

  /** Add A while ready, update it to not ready, update it back, delete
      it: exactly two events, both the ready event of A. */
  lemma ReadyFlapThenDelete(w: Wiring, a: Unstructured, b: Unstructured, gone: DeletedObject)
    requires IsReady(w.checker, a) && !IsReady(w.checker, b)
    requires !CheckCondition(w.checker, b).Panicked?
    requires !w.debug || gone.Final?
    ensures Run(w, [Added(a), Updated(a, b), Updated(b, a), Deleted(gone)])
            == Outcome([ReadyEvent(w.convert, a), ReadyEvent(w.convert, a)], 0)
  {
    var e := ReadyEvent(w.convert, a);
    StepOfNotification(w, Added(a));
    StepOfNotification(w, Updated(a, b));
    StepOfNotification(w, Updated(b, a));
    StepOfNotification(w, Deleted(gone));
    RunOne(w, Added(a));
    RunOne(w, Updated(a, b));
    RunOne(w, Updated(b, a));
    RunOne(w, Deleted(gone));
    assert Run(w, [Added(a)]) == Outcome([e], 0);
    assert Run(w, [Updated(a, b)]) == Outcome([], 0);
    assert Run(w, [Updated(b, a)]) == Outcome([e], 0);
    assert Run(w, [Deleted(gone)]) == Outcome([], 0);
    RunAppend(w, [Updated(b, a)], [Deleted(gone)]);
    assert [Updated(b, a)] + [Deleted(gone)] == [Updated(b, a), Deleted(gone)];
    assert Run(w, [Updated(b, a), Deleted(gone)]) == Outcome([e], 0);
    RunAppend(w, [Updated(a, b)], [Updated(b, a), Deleted(gone)]);
    assert [Updated(a, b)] + [Updated(b, a), Deleted(gone)] == [Updated(a, b), Updated(b, a), Deleted(gone)];
    assert Run(w, [Updated(a, b), Updated(b, a), Deleted(gone)]) == Outcome([e], 0);
    RunAppend(w, [Added(a)], [Updated(a, b), Updated(b, a), Deleted(gone)]);
    assert [Added(a)] + [Updated(a, b), Updated(b, a), Deleted(gone)]
        == [Added(a), Updated(a, b), Updated(b, a), Deleted(gone)];
  }

  /** A cluster named `name` whose one condition is Ready with status `status`. */
  function ClusterDoc(name: string, status: string): Unstructured
  {
    SingleCondition(name, "Ready", status)
  }

  /** With the program's checker: add A (Ready=True), update A to
      Ready=False, update A back to Ready=True, delete A. Exactly two events
      are recorded, both "ClusterReady" and both naming A; nothing panics,
      whatever the converter, debug setting and crash policy. */
  lemma AddUpdateUpdateDelete(convert: map<string, Value> -> Conversion, debug: bool, policy: CrashPolicy, name: string)
    ensures var w := Wiring(ReadyChecker, convert, debug, policy);
            var a, b := ClusterDoc(name, "True"), ClusterDoc(name, "False");
            var r := Run(w, [Added(a), Updated(a, b), Updated(b, a), Deleted(Final(a))]);
            && r.panics == 0
            && |r.events| == 2
            && r.events[0] == r.events[1] == ReadyEvent(convert, a)
            && r.events[0].reason == "ClusterReady"
            && r.events[0].message == "Cluster " + name + " is Ready"
  {
    var w := Wiring(ReadyChecker, convert, debug, policy);
    var a, b := ClusterDoc(name, "True"), ClusterDoc(name, "False");
    SingleConditionReady(name, "Ready", "True");
    SingleConditionReady(name, "Ready", "False");
    EqualFoldReflexive("Ready");
    EqualFoldReflexive("True");
    assert !EqualFold("False", "True");
    SingleConditionCannotPanic(name, "Ready", "False");
    ReadyFlapThenDelete(w, a, b, Final(a));
  }
}
