/**
 The status checker: decides whether a watched object carries the configured
 condition with the configured status, and if so emits one event about it.
 */
module StatusChecker {
  import opened Fold
  import opened Documents

  /** The options the checker is built from (logger and recorder left out). */
  datatype StatusCheckerOpts = StatusCheckerOpts(conditionName: string, conditionStatus: string)

  datatype StatusChecker = StatusChecker(conditionName: string, conditionStatus: string)

  /** The checker keeps the configured condition name and status unchanged. */
  function NewStatusChecker(o: StatusCheckerOpts): (h: StatusChecker)
    ensures h.conditionName == o.conditionName
    ensures h.conditionStatus == o.conditionStatus
  {
    StatusChecker(o.conditionName, o.conditionStatus)
  }

  /** The checker the program builds: condition "Ready" with status "True". */
  const ReadyChecker: StatusChecker := NewStatusChecker(StatusCheckerOpts("Ready", "True"))

  /** The `(bool, error)` pair checkCondition returns, or the panic raised by
      an entry of the conditions list that is not a map. */
  datatype Check = Returned(ok: bool, failed: bool) | Panicked

  // ---------------------------------------------------------------------------
  // One entry of status.conditions
  // ---------------------------------------------------------------------------

  /** The entry's `type` is a string equal to the condition name, ignoring case. */
  predicate TypeMatches(h: StatusChecker, co: map<string, Value>)
  {
    match NestedString(co, ["type"])
    case Found(name) => EqualFold(name, h.conditionName)
    case _ => false
  }

  /** An entry that ends the scan with a verdict: a map whose type matches and
      whose `status` is a string. */
  predicate Decides(h: StatusChecker, el: Value)
  {
    el.Obj? && TypeMatches(h, el.fields) && NestedString(el.fields, ["status"]).Found?
  }

  /** An entry that ends the scan: a deciding entry, or one that is not a map at all. */
  predicate StopsScan(h: StatusChecker, el: Value)
  {
    !el.Obj? || Decides(h, el)
  }

  /** What an entry that ends the scan makes the scan return. */
  function Verdict(h: StatusChecker, el: Value): Check
    requires StopsScan(h, el)
  {
    if el.Obj? then Returned(EqualFold(NestedString(el.fields, ["status"]).value, h.conditionStatus), false)
    else Panicked
  }

  // ---------------------------------------------------------------------------
  // checkCondition
  // ---------------------------------------------------------------------------

  /** The loop over status.conditions. Per-entry lookup errors are never
      returned: the scan either panics or returns without an error. */
  function Scan(h: StatusChecker, conds: seq<Value>): (r: Check)
    ensures r.Returned? ==> !r.failed
    decreases |conds|
  {
    if |conds| == 0 then Returned(false, false)
    else match conds[0]
      case Obj(co) =>
        (match NestedString(co, ["type"])
         case Found(name) =>
           if !EqualFold(name, h.conditionName) then Scan(h, conds[1..])
           else (match NestedString(co, ["status"])
                 case Found(status) => Returned(EqualFold(status, h.conditionStatus), false)
                 case _ => Scan(h, conds[1..]))
         case _ => Scan(h, conds[1..]))
      case _ => Panicked
  }

  function CheckCondition(h: StatusChecker, u: Unstructured): (r: Check)
    ensures r.Returned? && r.failed ==> !r.ok
  {
    match NestedSlice(u.content, ["status", "conditions"])
    case WrongType => Returned(false, true)
    case NotFound => Returned(false, false)
    case Found(conds) => Scan(h, conds)
  }

  /** The object satisfies the configured condition. */
  predicate IsReady(h: StatusChecker, u: Unstructured)
  {
    CheckCondition(h, u) == Returned(true, false)
  }

  /** Index of the first entry that ends the scan, or |conds| when none does. */
  function FirstStop(h: StatusChecker, conds: seq<Value>): (k: nat)
    ensures k <= |conds|
    ensures forall j :: 0 <= j < k ==> !StopsScan(h, conds[j])
    ensures k < |conds| ==> StopsScan(h, conds[k])
    decreases |conds|
  {
    if |conds| == 0 || StopsScan(h, conds[0]) then 0 else 1 + FirstStop(h, conds[1..])
  }

  /** An entry that does not end the scan is skipped: a map whose type is
      missing, is not a string or does not match, or whose type matches but
      whose status is missing or not a string. */
  lemma ScanSkips(h: StatusChecker, el: Value, rest: seq<Value>)
    requires !StopsScan(h, el)
    ensures Scan(h, [el] + rest) == Scan(h, rest)
  {
    assert ([el] + rest)[0] == el && ([el] + rest)[1..] == rest;
  }

  /** The first entry that ends the scan decides the result, and if none does
      the result is "false, no error". */
  lemma {:induction false} ScanIsFirstStopVerdict(h: StatusChecker, conds: seq<Value>)
    ensures var k := FirstStop(h, conds);
            Scan(h, conds) == if k == |conds| then Returned(false, false) else Verdict(h, conds[k])
    decreases |conds|
  {
    if |conds| != 0 && !StopsScan(h, conds[0]) {
      ScanIsFirstStopVerdict(h, conds[1..]);
      assert conds == [conds[0]] + conds[1..];
      ScanSkips(h, conds[0], conds[1..]);
    }
  }

  /** Entries after the first one that ends the scan are never consulted;
      when no entry of `a` ends the scan, `a` has no influence at all. */
  lemma {:induction false} ScanAppend(h: StatusChecker, a: seq<Value>, b: seq<Value>)
    ensures Scan(h, a + b) == if FirstStop(h, a) < |a| then Scan(h, a) else Scan(h, b)
    decreases |a|
  {
    if |a| == 0 {
      assert a + b == b;
    } else {
      assert (a + b)[0] == a[0] && (a + b)[1..] == a[1..] + b;
      if !StopsScan(h, a[0]) {
        ScanAppend(h, a[1..], b);
        assert a + b == [a[0]] + (a[1..] + b);
        ScanSkips(h, a[0], a[1..] + b);
        assert a == [a[0]] + a[1..];
        ScanSkips(h, a[0], a[1..]);
      }
    }
  }

  /** checkCondition by the shape of the document: a missing `status` or
      `status.conditions` (or a null `status`) gives "false, no error"; a
      `status` that is not a map, or `conditions` that is not a list, gives
      "false, error"; a list is scanned. */
  lemma CheckConditionByShape(h: StatusChecker, u: Unstructured)
    ensures "status" !in u.content ==> CheckCondition(h, u) == Returned(false, false)
    ensures "status" in u.content && u.content["status"].Null? ==> CheckCondition(h, u) == Returned(false, false)
    ensures "status" in u.content && !u.content["status"].Null? && !u.content["status"].Obj? ==>
              CheckCondition(h, u) == Returned(false, true)
    ensures "status" in u.content && u.content["status"].Obj? ==>
              var st := u.content["status"].fields;
              && ("conditions" !in st ==> CheckCondition(h, u) == Returned(false, false))
              && ("conditions" in st && st["conditions"].Arr? ==> CheckCondition(h, u) == Scan(h, st["conditions"].items))
              && ("conditions" in st && !st["conditions"].Arr? ==> CheckCondition(h, u) == Returned(false, true))
  {
    var p: seq<string> := ["status", "conditions"];
    assert p[0] == "status" && p[1..] == ["conditions"];
    assert p[1..][0] == "conditions" && p[1..][1..] == [];
  }

  /** checkCondition reports an error exactly when `status` or
      `status.conditions` has the wrong shape; otherwise the error is nil. */
  lemma CheckConditionFails(h: StatusChecker, u: Unstructured)
    ensures CheckCondition(h, u).Returned? && CheckCondition(h, u).failed <==>
            NestedSlice(u.content, ["status", "conditions"]).WrongType?
  {
  }

  // ---------------------------------------------------------------------------
  // Handle
  // ---------------------------------------------------------------------------

  /** The typed cluster object the event is recorded against, reduced to its
      type and name fields (the recorder's object reference also reads the
      uid and resource version, which are not modelled). */
  datatype Cluster = Cluster(apiVersion: string, kind: string, namespace: string, name: string)

  /** The result of converting the document to a typed cluster. On failure
      `cluster` holds whatever the converter filled in before it failed. */
  datatype Conversion = Conversion(cluster: Cluster, failed: bool)

  datatype Event = Event(target: Cluster, eventType: string, reason: string, message: string)

  const EventTypeNormal: string := "Normal"
  const ReasonClusterReady: string := "ClusterReady"

  function ReadyMessage(name: string): string
  {
    "Cluster " + name + " is Ready"
  }

  /** The message names the object: the name can be read back out of it, so
      two objects with different names never get the same message. */
  lemma ReadyMessageNamesObject(name: string)
    ensures |ReadyMessage(name)| == |name| + 17
    ensures ReadyMessage(name)[8..|ReadyMessage(name)| - 9] == name
  {
    var m := ReadyMessage(name);
    assert m == "Cluster " + (name + " is Ready");
    assert m[8..] == name + " is Ready";
    assert m[8..|m| - 9] == m[8..][..|name|];
  }

  /** The event emitted for an object that satisfies the condition. */
  function ReadyEvent(convert: map<string, Value> -> Conversion, u: Unstructured): Event
  {
    Event(convert(u.content).cluster, EventTypeNormal, ReasonClusterReady, ReadyMessage(GetName(u)))
  }

  datatype Handled = Quiet | Emitted(event: Event) | HandlerPanicked

  /** One handler call. `convert` stands for the converter to the typed
      cluster, which may fail. */
  function Handle(h: StatusChecker, convert: map<string, Value> -> Conversion, u: Unstructured): (r: Handled)
    ensures r.Emitted? <==> IsReady(h, u)
    ensures r.Emitted? ==> r.event.eventType == "Normal" && r.event.reason == "ClusterReady"
    ensures r.Emitted? ==> r.event.message == "Cluster " + GetName(u) + " is Ready"
    ensures r.Emitted? ==> r.event.target == convert(u.content).cluster
    ensures CheckCondition(h, u).Returned? && CheckCondition(h, u).failed ==> r.Quiet?
    ensures r.HandlerPanicked? <==> CheckCondition(h, u).Panicked?
  {
    match CheckCondition(h, u)
    case Panicked => HandlerPanicked
    case Returned(ok, _) => if ok then Emitted(ReadyEvent(convert, u)) else Quiet
  }

  /** A failed conversion never suppresses the event: whether an event is
      emitted, and its type, reason and message, do not depend on the
      converter at all, and a ready object whose conversion failed still gets
      its event, against the partially filled cluster. */
  lemma HandleIgnoresConversionFailure(h: StatusChecker, c1: map<string, Value> -> Conversion,
                                       c2: map<string, Value> -> Conversion, u: Unstructured)
    ensures Handle(h, c1, u).Emitted? <==> Handle(h, c2, u).Emitted?
    ensures Handle(h, c1, u).Emitted? ==>
              var e1, e2 := Handle(h, c1, u).event, Handle(h, c2, u).event;
              e1.eventType == e2.eventType && e1.reason == e2.reason && e1.message == e2.message
    ensures c1(u.content).failed && IsReady(h, u) ==>
              Handle(h, c1, u).Emitted? && Handle(h, c1, u).event.target == c1(u.content).cluster
  {
  }

  // ---------------------------------------------------------------------------
  // The fixed Ready/True policy
  // ---------------------------------------------------------------------------

  /** A document whose only condition has the given type and status. */
  function SingleCondition(name: string, condType: string, condStatus: string): Unstructured
  {
    Unstructured(map[
      "metadata" := Obj(map["name" := Str(name)]),
      "status" := Obj(map["conditions" := Arr([Obj(map["type" := Str(condType), "status" := Str(condStatus)])])])])
  }

  /** With the program's checker, a lone condition is ready exactly when its
      type is "Ready" and its status is "True", each in any mix of case. */
  lemma SingleConditionReady(name: string, condType: string, condStatus: string)
    ensures IsReady(ReadyChecker, SingleCondition(name, condType, condStatus)) <==>
            EqualFold(condType, "Ready") && EqualFold(condStatus, "True")
    ensures GetName(SingleCondition(name, condType, condStatus)) == name
  {
    var u := SingleCondition(name, condType, condStatus);
    var el := Obj(map["type" := Str(condType), "status" := Str(condStatus)]);
    CheckConditionByShape(ReadyChecker, u);
    NestedStringField(el.fields, "type");
    NestedStringField(el.fields, "status");
    ScanIsFirstStopVerdict(ReadyChecker, [el]);
    ScanIsFirstStopVerdict(ReadyChecker, []);
    GetNameOf(u, map["name" := Str(name)], name);
  }

  /** A document whose one condition is a map never makes the checker panic. */
  lemma SingleConditionCannotPanic(name: string, condType: string, condStatus: string)
    ensures !CheckCondition(ReadyChecker, SingleCondition(name, condType, condStatus)).Panicked?
  {
    var u := SingleCondition(name, condType, condStatus);
    var el := Obj(map["type" := Str(condType), "status" := Str(condStatus)]);
    CheckConditionByShape(ReadyChecker, u);
    ScanIsFirstStopVerdict(ReadyChecker, [el]);
  }
}
