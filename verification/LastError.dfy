/** The last error of an object: how long one operation has been failing, and when that makes the object failed. */
module LastError {
  import opened Basics

  /** The landscaper's record of an error; times are readings of the clock. */
  datatype ErrorRecord = ErrorRecord(
    operation: string,
    reason: string,
    message: string,
    codes: seq<string>,
    lastTransitionTime: int,
    lastUpdateTime: int)

  /** A host language error: the landscaper's own, one that wraps another, or neither. */
  datatype GoError =
    | Landscaper(operation: string, reason: string, message: string, codes: seq<string>, wrapped: Option<GoError>)
    | Foreign(wrapped: Option<GoError>)

  /** The landscaper error an error is or wraps. */
  function IsError(err: Option<GoError>): (r: Option<GoError>)
    ensures r.Some? ==> r.value.Landscaper?
  {
    match err
    case None => None
    case Some(Landscaper(_, _, _, _, _)) => err
    case Some(Foreign(wrapped)) => IsError(wrapped)
  }

  /** The error itself, the error it wraps, and so on. */
  function Layers(err: Option<GoError>): seq<GoError> {
    if err.None? then [] else [err.value] + Layers(err.value.wrapped)
  }

  predicate OutermostAt(layers: seq<GoError>, k: int) {
    0 <= k < |layers| && layers[k].Landscaper? && forall j :: 0 <= j < k ==> !layers[j].Landscaper?
  }

  /** A landscaper error is the outermost one; below another error, the outermost one is that of the layers below. */
  lemma OutermostBelow(e: GoError, below: seq<GoError>)
    ensures e.Landscaper? ==> forall k :: OutermostAt([e] + below, k) ==> k == 0
    ensures !e.Landscaper? ==>
      forall k :: OutermostAt([e] + below, k) ==> OutermostAt(below, k - 1) && ([e] + below)[k] == below[k - 1]
    ensures (forall k :: 0 <= k < |[e] + below| ==> !([e] + below)[k].Landscaper?) <==>
      !e.Landscaper? && forall k :: 0 <= k < |below| ==> !below[k].Landscaper?
  {
    var layers := [e] + below;
    assert layers[0] == e;
    assert forall k :: 0 <= k < |below| ==> below[k] == layers[k + 1];
  }

  /**
   What is found is the outermost layer that is a landscaper error, however deep it is; nothing is found only
   if no layer is one.
   */
  lemma {:induction false} IsErrorIsOutermost(err: Option<GoError>)
    ensures IsError(err).None? <==> forall k :: 0 <= k < |Layers(err)| ==> !Layers(err)[k].Landscaper?
    ensures forall k :: OutermostAt(Layers(err), k) ==> IsError(err) == Some(Layers(err)[k])
    decreases err
  {
    if err.Some? {
      IsErrorIsOutermost(err.value.wrapped);
      OutermostBelow(err.value, Layers(err.value.wrapped));
      assert Layers(err) == [err.value] + Layers(err.value.wrapped);
      assert Layers(err)[0] == err.value;
    }
  }

  function Updated(last: Option<ErrorRecord>, e: GoError, first: int, second: int): ErrorRecord
    requires e.Landscaper?
  {
    var start := if last.Some? && last.value.operation == e.operation then last.value.lastTransitionTime else first;
    ErrorRecord(e.operation, e.reason, e.message, e.codes, start, second)
  }

  /** `first` and `second` are the two readings of the clock that the update makes, in this order. */
  method UpdatedError(last: Option<ErrorRecord>, e: GoError, first: int, second: int) returns (r: ErrorRecord)
    requires e.Landscaper?
    ensures r == Updated(last, e, first, second)
  {
    r := ErrorRecord(e.operation, e.reason, e.message, e.codes, first, second);
    if last.Some? && last.value.operation == e.operation {
      r := r.(lastTransitionTime := last.value.lastTransitionTime);
    }
  }

  function NextError(last: Option<ErrorRecord>, err: Option<GoError>, first: int, second: int): Option<ErrorRecord> {
    var e := IsError(err);
    if e.None? then None else Some(Updated(last, e.value, first, second))
  }

  method TryUpdateError(last: Option<ErrorRecord>, err: Option<GoError>, first: int, second: int)
    returns (r: Option<ErrorRecord>)
    ensures r == NextError(last, err, first, second)
  {
    if err.None? {
      return None;
    }
    var intErr := IsError(err);
    if intErr.Some? {
      var updated := UpdatedError(last, intErr.value, first, second);
      return Some(updated);
    }
    return None;
  }

  // ---------- The phase ----------

  const FAILED := "Failed"

  const UNRECOVERABLE_ERROR_CODES: seq<string> :=
    ["ERR_CONFIGURATION_PROBLEM", "ERR_INTERNAL_PROBLEM", "ERR_READINESS_CHECK_TIMEOUT", "ERR_TIMEOUT"]

  method HasErrorCode(codes: seq<string>, expected: string) returns (found: bool)
    ensures found <==> expected in codes
  {
    for i := 0 to |codes|
      invariant expected !in codes[..i]
    {
      if codes[i] == expected {
        return true;
      }
    }
    return false;
  }

  predicate AnyIn(codes: seq<string>, expected: seq<string>) {
    exists c :: c in expected && c in codes
  }

  method ContainsAnyErrorCode(codes: seq<string>, expected: seq<string>) returns (found: bool)
    ensures found <==> AnyIn(codes, expected)
  {
    for i := 0 to |expected|
      invariant forall c :: c in expected[..i] ==> c !in codes
    {
      var has := HasErrorCode(codes, expected[i]);
      if has {
        return true;
      }
    }
    return false;
  }

  function PhaseFor(phase: string, last: Option<ErrorRecord>, d: int): string {
    if last.None? then phase
    else if phase == "" then FAILED
    else if AnyIn(last.value.codes, UNRECOVERABLE_ERROR_CODES) then FAILED
    else if last.value.lastUpdateTime - last.value.lastTransitionTime > d then FAILED
    else phase
  }

  method GetPhaseForLastError(phase: string, last: Option<ErrorRecord>, d: int) returns (r: string)
    ensures r == PhaseFor(phase, last, d)
  {
    if last.None? {
      return phase;
    }
    if |phase| == 0 {
      return FAILED;
    }
    var unrecoverable := ContainsAnyErrorCode(last.value.codes, UNRECOVERABLE_ERROR_CODES);
    if unrecoverable {
      return FAILED;
    }
    if last.value.lastUpdateTime - last.value.lastTransitionTime > d {
      return FAILED;
    }
    return phase;
  }

  // ---------- Whole runs ----------

  /** One reconciliation: the error it ended with, if any, and the clock readings of the update. */
  datatype Event = Event(err: Option<GoError>, first: int, second: int)

  ghost predicate Clocked(events: seq<Event>) {
    && (forall i :: 0 <= i < |events| ==> events[i].first <= events[i].second)
    && (forall i, j :: 0 <= i < j < |events| ==> events[i].second <= events[j].first)
  }

  function LastErrorAfter(events: seq<Event>): Option<ErrorRecord> {
    if events == [] then None
    else
      var e := events[|events| - 1];
      NextError(LastErrorAfter(events[..|events| - 1]), e.err, e.first, e.second)
  }

  /** The operation that failed in an event. */
  function OperationOf(e: Event): Option<string> {
    var ls := IsError(e.err);
    if ls.None? then None else Some(ls.value.operation)
  }

  /** The events from `j` on are the unbroken run of failures of one operation that the last event belongs to. */
  ghost predicate RunStart(events: seq<Event>, j: int) {
    && 0 <= j < |events|
    && var op := OperationOf(events[|events| - 1]);
    && op.Some?
    && (forall k :: j <= k < |events| ==> OperationOf(events[k]) == op)
    && (j > 0 ==> OperationOf(events[j - 1]) != op)
  }

  /** A failure of the operation that failed just before continues the run it belonged to. */
  lemma RunContinues(events: seq<Event>, j: int)
    requires |events| >= 2 && OperationOf(events[|events| - 1]) == OperationOf(events[|events| - 2])
    ensures RunStart(events, j) <==> RunStart(events[..|events| - 1], j)
  {
    var n := |events|;
    var before := events[..n - 1];
    if RunStart(events, j) && j == n - 1 {
      assert false;
    }
    assert forall k :: 0 <= k < n - 1 ==> before[k] == events[k];
  }

  /** Any other failure starts one. */
  lemma RunBegins(events: seq<Event>, j: int)
    requires events != [] && OperationOf(events[|events| - 1]).Some?
    requires |events| >= 2 ==> OperationOf(events[|events| - 1]) != OperationOf(events[|events| - 2])
    ensures RunStart(events, j) <==> j == |events| - 1
  {
  }

  /** What the record says about the last event. */
  lemma RecordOfLast(events: seq<Event>)
    ensures LastErrorAfter(events).Some? <==> events != [] && OperationOf(events[|events| - 1]).Some?
    ensures LastErrorAfter(events).Some? ==>
      var r, last := LastErrorAfter(events).value, events[|events| - 1];
      var e := IsError(last.err);
      && e.Some? && r.operation == e.value.operation && r.reason == e.value.reason && r.message == e.value.message
      && r.codes == e.value.codes && r.lastUpdateTime == last.second && Some(r.operation) == OperationOf(last)
  {
  }

  /** The record tells when the current run began: at the first reading of its first event. */
  lemma {:induction false} StreakInvariant(events: seq<Event>)
    requires LastErrorAfter(events).Some?
    ensures exists j :: RunStart(events, j)
    ensures forall j :: RunStart(events, j) ==> LastErrorAfter(events).value.lastTransitionTime == events[j].first
    decreases |events|
  {
    var n := |events|;
    var before, last := events[..n - 1], events[n - 1];
    RecordOfLast(events);
    RecordOfLast(before);
    if n > 1 && OperationOf(before[n - 2]) == OperationOf(last) {
      StreakInvariant(before);
      forall j ensures RunStart(events, j) <==> RunStart(before, j) {
        RunContinues(events, j);
      }
      forall j | RunStart(events, j) ensures LastErrorAfter(events).value.lastTransitionTime == events[j].first {
        assert RunStart(before, j) && before[j] == events[j];
      }
    } else {
      forall j ensures RunStart(events, j) <==> j == n - 1 {
        RunBegins(events, j);
      }
      assert RunStart(events, n - 1);
    }
  }

  /** Under a clock that does not run backwards the run never starts after the last update. */
  lemma TransitionBeforeUpdate(events: seq<Event>)
    requires Clocked(events)
    ensures var r := LastErrorAfter(events); r.Some? ==> r.value.lastTransitionTime <= r.value.lastUpdateTime
  {
    RecordOfLast(events);
    if LastErrorAfter(events).Some? {
      StreakInvariant(events);
      var j :| RunStart(events, j);
    }
  }

  /** The current run has lasted longer than `d`. */
  ghost predicate FailingLongerThan(events: seq<Event>, d: int) {
    exists j :: RunStart(events, j) && events[|events| - 1].second - events[j].first > d
  }

  lemma FailingLongerIff(events: seq<Event>, d: int)
    ensures FailingLongerThan(events, d) <==>
      var r := LastErrorAfter(events); r.Some? && r.value.lastUpdateTime - r.value.lastTransitionTime > d
  {
    RecordOfLast(events);
    if LastErrorAfter(events).Some? {
      StreakInvariant(events);
    }
  }

  predicate Unrecoverable(codes: seq<string>) {
    || "ERR_CONFIGURATION_PROBLEM" in codes || "ERR_INTERNAL_PROBLEM" in codes
    || "ERR_READINESS_CHECK_TIMEOUT" in codes || "ERR_TIMEOUT" in codes
  }

  lemma UnrecoverableIff(codes: seq<string>)
    ensures AnyIn(codes, UNRECOVERABLE_ERROR_CODES) <==> Unrecoverable(codes)
  {
    var all := UNRECOVERABLE_ERROR_CODES;
    assert all[0] in all && all[1] in all && all[2] in all && all[3] in all;
  }

  /**
   The phase after a run of events is failed exactly when it was before, or the last event failed with a landscaper
   error and there was no phase yet, or the error is unrecoverable, or the current run lasts longer than `d`.
   Otherwise the phase stays.
   */
  lemma FailedIff(events: seq<Event>, phase: string, d: int)
    ensures PhaseFor(phase, LastErrorAfter(events), d) == "Failed" <==>
      || phase == "Failed"
      || (&& events != [] && IsError(events[|events| - 1].err).Some?
          && (|| phase == ""
              || Unrecoverable(IsError(events[|events| - 1].err).value.codes)
              || FailingLongerThan(events, d)))
    ensures PhaseFor(phase, LastErrorAfter(events), d) in {phase, "Failed"}
  {
    RecordOfLast(events);
    if LastErrorAfter(events).Some? {
      UnrecoverableIff(LastErrorAfter(events).value.codes);
    }
    FailingLongerIff(events, d);
  }

  lemma LongIsFailed(events: seq<Event>, phase: string, d: int)
    requires FailingLongerThan(events, d)
    ensures PhaseFor(phase, LastErrorAfter(events), d) == FAILED
  {
    FailingLongerIff(events, d);
  }

  lemma StillFailing(events: seq<Event>, d: int)
    requires Clocked(events) && |events| >= 2
    requires OperationOf(events[|events| - 1]) == OperationOf(events[|events| - 2])
    requires FailingLongerThan(events[..|events| - 1], d)
    ensures FailingLongerThan(events, d)
  {
    var before := events[..|events| - 1];
    var j :| RunStart(before, j) && before[|before| - 1].second - before[j].first > d;
    RunContinues(events, j);
    assert events[|before| - 1].second <= events[|before|].first;
  }

  lemma {:induction false} FailingUntilRunBreaks(events: seq<Event>, n: nat, d: int)
    requires Clocked(events) && 0 < n <= |events| && FailingLongerThan(events[..n], d)
    requires forall k :: n <= k < |events| ==> OperationOf(events[k]) == OperationOf(events[n - 1])
    ensures FailingLongerThan(events, d)
    decreases |events|
  {
    if n == |events| {
      assert events[..n] == events;
    } else {
      var before := events[..|events| - 1];
      assert before[..n] == events[..n];
      FailingUntilRunBreaks(before, n, d);
      StillFailing(events, d);
    }
  }

  /**
   Once an operation has failed for longer than `d`, every further failure of it keeps the object failed,
   whatever its phase was set to.
   */
  lemma FailedUntilRunBreaks(events: seq<Event>, n: nat, phase: string, d: int)
    requires Clocked(events) && 0 < n <= |events| && FailingLongerThan(events[..n], d)
    requires forall k :: n <= k < |events| ==> OperationOf(events[k]) == OperationOf(events[n - 1])
    ensures FailingLongerThan(events, d)
    ensures PhaseFor(phase, LastErrorAfter(events), d) == FAILED
  {
    FailingUntilRunBreaks(events, n, d);
    LongIsFailed(events, phase, d);
  }

  /** And the first event without that operation starts over: the duration counts from its own readings. */
  lemma RunBreaks(events: seq<Event>)
    requires |events| >= 2 && OperationOf(events[|events| - 1]) != OperationOf(events[|events| - 2])
    ensures var r, last := LastErrorAfter(events), events[|events| - 1];
      if OperationOf(last).None? then r == None
      else r.Some? && r.value.lastUpdateTime - r.value.lastTransitionTime == last.second - last.first
  {
    RecordOfLast(events);
    if OperationOf(events[|events| - 1]).Some? {
      RunBegins(events, |events| - 1);
      StreakInvariant(events);
    }
  }
}
