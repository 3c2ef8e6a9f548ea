/**
 The watcher's notification callbacks: which notifications reach the
 handler, and with which object.
 */
module Watcher {
  import opened Documents

  /** What a delete notification carries: the object as last seen, or a
      tombstone when the watch missed the deletion and the object was found
      gone on a later relist. A tombstone is not an Unstructured value. */
  datatype DeletedObject = Final(obj: Unstructured) | Tombstone(key: string, last: Unstructured)

  datatype Notification =
    | Added(obj: Unstructured)
    | Updated(oldObj: Unstructured, newObj: Unstructured)
    | Deleted(gone: DeletedObject)

  /** What a callback does: call the handler once with an object, do nothing,
      or panic before reaching the handler. */
  datatype Reaction = Invoke(arg: Unstructured) | Ignored | CallbackPanicked

  /** A deep copy. Values here cannot alias, so the copy is the value itself
      and nothing the handler does can reach the object the watch delivered. */
  function DeepCopy(u: Unstructured): Unstructured
  {
    u
  }

  /** An add calls the handler once, with a copy equal to the added object. */
  function OnAdd(obj: Unstructured): (r: Reaction)
    ensures r.Invoke? && r.arg == obj
  {
    Invoke(DeepCopy(obj))
  }

  /** An update calls the handler once, with a copy of the new object; the
      old object plays no part. */
  function OnUpdate(oldObj: Unstructured, newObj: Unstructured): (r: Reaction)
    ensures r.Invoke? && r.arg == newObj
  {
    Invoke(DeepCopy(newObj))
  }

  /** Whatever the old object was, an update reacts the same way. */
  lemma OnUpdateIgnoresOld(old1: Unstructured, old2: Unstructured, newObj: Unstructured)
    ensures OnUpdate(old1, newObj) == OnUpdate(old2, newObj)
  {
  }

  /** A delete never calls the handler. With debug logging off it returns at
      once; with it on, the unchecked conversion to Unstructured panics on a
      tombstone. */
  function OnDelete(debug: bool, gone: DeletedObject): (r: Reaction)
    ensures !r.Invoke?
    ensures r.CallbackPanicked? <==> debug && gone.Tombstone?
  {
    if !debug then Ignored
    else match gone
      case Final(_) => Ignored
      case Tombstone(_, _) => CallbackPanicked
  }

  /** The callback the watch runs for one notification. */
  function React(debug: bool, n: Notification): Reaction
  {
    match n
    case Added(obj) => OnAdd(obj)
    case Updated(oldObj, newObj) => OnUpdate(oldObj, newObj)
    case Deleted(gone) => OnDelete(debug, gone)
  }

  /** The handler calls a notification trace produces, in delivery order. */
  function HandlerCalls(debug: bool, trace: seq<Notification>): (calls: seq<Unstructured>)
    ensures |calls| <= |trace|
    decreases |trace|
  {
    if |trace| == 0 then []
    else
      var first := match React(debug, trace[0]) case Invoke(u) => [u] case _ => [];
      first + HandlerCalls(debug, trace[1..])
  }

  /** The handler calls of one notification: the added object, the new object
      of an update, and nothing for a delete. */
  lemma HandlerCallsOfOne(debug: bool, n: Notification)
    ensures n.Added? ==> HandlerCalls(debug, [n]) == [n.obj]
    ensures n.Updated? ==> HandlerCalls(debug, [n]) == [n.newObj]
    ensures n.Deleted? ==> HandlerCalls(debug, [n]) == []
  {
    assert [n][1..] == [];
  }

  /** The dispatch keeps no state between notifications: the calls of a
      concatenated trace are the concatenated calls. Together with
      HandlerCallsOfOne this pins HandlerCalls down on every trace. */
  lemma {:induction false} HandlerCallsAppend(debug: bool, a: seq<Notification>, b: seq<Notification>)
    ensures HandlerCalls(debug, a + b) == HandlerCalls(debug, a) + HandlerCalls(debug, b)
    decreases |a|
  {
    if |a| == 0 {
      assert a + b == b;
    } else {
      assert (a + b)[0] == a[0] && (a + b)[1..] == a[1..] + b;
      HandlerCallsAppend(debug, a[1..], b);
    }
  }

  /** Debug logging has no influence on which calls the handler receives. */
  lemma {:induction false} HandlerCallsIgnoreDebug(trace: seq<Notification>)
    ensures HandlerCalls(false, trace) == HandlerCalls(true, trace)
    decreases |trace|
  {
    if |trace| != 0 {
      HandlerCallsIgnoreDebug(trace[1..]);
    }
  }

  /** Every handler call carries an object some add or update delivered. */
  lemma {:induction false} HandlerCallsFromAddsAndUpdates(debug: bool, trace: seq<Notification>, i: nat)
    requires i < |HandlerCalls(debug, trace)|
    ensures exists j :: 0 <= j < |trace| &&
              ((trace[j].Added? && trace[j].obj == HandlerCalls(debug, trace)[i]) ||
               (trace[j].Updated? && trace[j].newObj == HandlerCalls(debug, trace)[i]))
    decreases |trace|
  {
    var calls := HandlerCalls(debug, trace);
    var rest := HandlerCalls(debug, trace[1..]);
    var first := calls[..|calls| - |rest|];
    assert calls == first + rest;
    if i < |first| {
      assert i == 0 && trace[0].Added? ==> calls[i] == trace[0].obj;
      assert 0 <= 0 < |trace|;
    } else {
      HandlerCallsFromAddsAndUpdates(debug, trace[1..], i - |first|);
      var j :| 0 <= j < |trace[1..]| &&
              ((trace[1..][j].Added? && trace[1..][j].obj == rest[i - |first|]) ||
               (trace[1..][j].Updated? && trace[1..][j].newObj == rest[i - |first|]));
      assert trace[j + 1] == trace[1..][j];
    }
  }
}
