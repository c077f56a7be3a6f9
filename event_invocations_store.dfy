/** The invocation validator: a metrics-event listener that counts the calls
    made for every event type and keeps, per event type, every check those
    calls failed, in the order they failed. */
module EventInvocations {
  import opened MetricEvents
  import opened InvocationRules

  /** What the validator has recorded: the invocation count per event type
      and the failed checks per event type. */
  datatype Ledger = Ledger(invocations: map<EventType, nat>, invalid: map<EventType, seq<Violation>>)

  /** The counts after one more call for `t`. */
  function Bump(counts: map<EventType, nat>, t: EventType): map<EventType, nat>
  {
    if t !in counts then counts[t := 1] else counts[t := counts[t] + 1]
  }

  /** One more call for `t` counts 1 for a type not seen before and one more
      than before otherwise, and leaves every other count as it was. */
  lemma BumpCounts(counts: map<EventType, nat>, t: EventType)
    ensures Bump(counts, t).Keys == counts.Keys + {t}
    ensures Bump(counts, t)[t] == (if t in counts then counts[t] else 0) + 1
    ensures forall u :: u in counts && u != t ==> Bump(counts, t)[u] == counts[u]
  {
  }

  /** The violation lists after `found` was found for `t`: the list of `t`
      grows by `found`, and it is stored only when it is not empty. */
  function Append(invalid: map<EventType, seq<Violation>>, t: EventType, found: seq<Violation>)
    : map<EventType, seq<Violation>>
  {
    var errors := (if t in invalid then invalid[t] else []) + found;
    if errors != [] then invalid[t := errors] else invalid
  }

  /** Finding nothing changes nothing; finding something extends the list of
      `t` by exactly that, stored even if `t` had no list before; every other
      list is left as it was. */
  lemma AppendLists(invalid: map<EventType, seq<Violation>>, t: EventType, found: seq<Violation>)
    ensures found == [] ==> Append(invalid, t, found) == invalid
    ensures forall u :: u != t ==>
      (u in Append(invalid, t, found) <==> u in invalid) &&
      (u in invalid ==> Append(invalid, t, found)[u] == invalid[u])
    ensures t in Append(invalid, t, found) <==> t in invalid || found != []
    ensures t in Append(invalid, t, found) ==>
      Append(invalid, t, found)[t] == (if t in invalid then invalid[t] else []) + found
  {
    if found == [] && t in invalid {
      assert invalid[t] + found == invalid[t];
    }
  }

  /** What one `onEvent` call does to the ledger. */
  function Step(l: Ledger, o: Occurrence): Ledger
  {
    Ledger(Bump(l.invocations, o.eventType), Append(l.invalid, o.eventType, Violations(o)))
  }

  /** A call leaves the violation lists as they were exactly when it conforms
      to its event type; its count is raised by one either way. */
  lemma StepConforming(l: Ledger, o: Occurrence)
    ensures ConformsTo(o) <==> Step(l, o).invalid == l.invalid
    ensures Step(l, o).invocations[o.eventType] ==
      (if o.eventType in l.invocations then l.invocations[o.eventType] else 0) + 1
  {
    var t := o.eventType;
    var r := Step(l, o).invalid;
    BumpCounts(l.invocations, t);
    ViolationsShape(o);
    AppendLists(l.invalid, t, Violations(o));
    if !ConformsTo(o) {
      assert t in r;
      if t in l.invalid {
        assert |r[t]| == |l.invalid[t]| + |Violations(o)| > |l.invalid[t]|;
      }
    }
  }

  /** Proof step for `Record`, not a property of the store: the three checks
      appended in turn give the call's violations (associativity of `+`). */
  lemma ChecksInTurn(before: seq<Violation>, o: Occurrence)
    ensures before + ErrorCheck(o.eventType, o.throwable) + TimingCheck(o.eventType, o.duration, o.timeUnit)
              + PayloadCheck(o.eventType, o.value) == before + Violations(o)
  {
  }

  /** Proof step for `Record`, not a property of the store: `Step` unfolded
      into the two map updates that `Record` performs. */
  lemma OneStep(l: Ledger, o: Occurrence, counts: map<EventType, nat>, errors: seq<Violation>)
    requires counts == if o.eventType !in l.invocations then l.invocations[o.eventType := 1]
                       else l.invocations[o.eventType := l.invocations[o.eventType] + 1]
    requires errors == (if o.eventType in l.invalid then l.invalid[o.eventType] else []) + Violations(o)
    ensures Step(l, o) == Ledger(counts, if errors != [] then l.invalid[o.eventType := errors] else l.invalid)
  {
  }

  /** The ledger after a sequence of calls, starting from an empty store. */
  function Replay(calls: seq<Occurrence>): Ledger
  {
    if calls == [] then Ledger(map[], map[])
    else Step(Replay(calls[..|calls| - 1]), calls[|calls| - 1])
  }

  /** How many of the calls were for event type `t`. */
  function CallsFor(calls: seq<Occurrence>, t: EventType): nat
  {
    if calls == [] then 0
    else CallsFor(calls[..|calls| - 1], t) + (if calls[|calls| - 1].eventType == t then 1 else 0)
  }

  /** The failed checks of all the calls for `t`, in call order. */
  function ViolationsFor(calls: seq<Occurrence>, t: EventType): seq<Violation>
  {
    if calls == [] then []
    else
      var last := calls[|calls| - 1];
      ViolationsFor(calls[..|calls| - 1], t) + (if last.eventType == t then Violations(last) else [])
  }

  /** The invariant of every ledger the validator can reach: every counted
      type was called at least once, every stored list is non-empty, and only
      types that were called have violations. */
  predicate WellFormed(l: Ledger)
  {
    (forall t :: t in l.invocations ==> l.invocations[t] >= 1) &&
    (forall t :: t in l.invalid ==> l.invalid[t] != []) &&
    l.invalid.Keys <= l.invocations.Keys
  }

  /** One call keeps the ledger well formed. */
  lemma StepWellFormed(l: Ledger, o: Occurrence)
    requires WellFormed(l)
    ensures WellFormed(Step(l, o))
  {
  }

  /** Violations only accumulate: a call never removes or rewrites a
      violation already recorded for any type. */
  lemma StepExtends(l: Ledger, o: Occurrence, t: EventType)
    requires t in l.invalid
    ensures t in Step(l, o).invalid && l.invalid[t] <= Step(l, o).invalid[t]
  {
  }

  lemma ReplaySnoc(calls: seq<Occurrence>, o: Occurrence)
    ensures Replay(calls + [o]) == Step(Replay(calls), o)
  {
  }

  /** The count of a type is the number of calls made for it, and a type is
      counted exactly when it was called. */
  lemma {:induction false} ReplayCounts(calls: seq<Occurrence>, t: EventType)
    ensures t in Replay(calls).invocations <==> CallsFor(calls, t) > 0
    ensures t in Replay(calls).invocations ==> Replay(calls).invocations[t] == CallsFor(calls, t)
  {
    if calls != [] {
      ReplayCounts(calls[..|calls| - 1], t);
    }
  }

  /** The violation list of a type is the failed checks of all its calls in
      call order, and it is stored exactly when that is not empty. */
  lemma {:induction false} ReplayViolations(calls: seq<Occurrence>, t: EventType)
    ensures t in Replay(calls).invalid <==> ViolationsFor(calls, t) != []
    ensures t in Replay(calls).invalid ==> Replay(calls).invalid[t] == ViolationsFor(calls, t)
  {
    if calls != [] {
      ReplayViolations(calls[..|calls| - 1], t);
    }
  }

  /** Every reachable ledger is well formed. */
  lemma {:induction false} ReplayWellFormed(calls: seq<Occurrence>)
    ensures WellFormed(Replay(calls))
  {
    if calls != [] {
      ReplayWellFormed(calls[..|calls| - 1]);
      StepWellFormed(Replay(calls[..|calls| - 1]), calls[|calls| - 1]);
    }
  }

  /** The sum of the counts of a map. */
  ghost function Total(m: map<EventType, nat>): nat
    decreases |m|
  {
    if m == map[] then 0
    else
      var k :| k in m;
      m[k] + Total(m - {k})
  }

  /** Total does not depend on the key it picks first. */
  lemma {:induction false} TotalRemove(m: map<EventType, nat>, k: EventType)
    requires k in m
    ensures Total(m) == m[k] + Total(m - {k})
    decreases |m|
  {
    var j :| j in m && Total(m) == m[j] + Total(m - {j});
    if j != k {
      TotalRemove(m - {j}, k);
      TotalRemove(m - {k}, j);
      assert m - {j} - {k} == m - {k} - {j};
    }
  }

  /** Raising one count by one raises the total by one. */
  lemma TotalBump(m: map<EventType, nat>, t: EventType)
    ensures Total(Bump(m, t)) == Total(m) + 1
  {
    var b := Bump(m, t);
    TotalRemove(b, t);
    assert b - {t} == m - {t};
    if t in m {
      TotalRemove(m, t);
    } else {
      assert m - {t} == m;
    }
  }

  /** The counts add up to the number of calls. */
  lemma {:induction false} ReplayTotal(calls: seq<Occurrence>)
    ensures Total(Replay(calls).invocations) == |calls|
  {
    if calls != [] {
      var init := calls[..|calls| - 1];
      ReplayTotal(init);
      TotalBump(Replay(init).invocations, calls[|calls| - 1].eventType);
    }
  }

  /** The error check of one call: appends a missing or an unexpected error
      to `errors`. */
  method AddErrorViolations(errors: seq<Violation>, t: EventType, throwable: Option<Throwable>)
    returns (r: seq<Violation>)
    ensures r == errors + ErrorCheck(t, throwable)
  {
    r := errors;
    if t.isError && throwable.None? {
      r := r + [NoError];
    } else if !t.isError && throwable.Some? {
      r := r + [ErrorForNonError];
    }
  }

  /** The timing check of one call: appends, each on its own, a missing
      duration and a missing time unit for a timed type, or a present one for
      a type that is not timed. */
  method AddTimingViolations(errors: seq<Violation>, t: EventType, duration: Option<int>, timeUnit: Option<TimeUnit>)
    returns (r: seq<Violation>)
    ensures r == errors + TimingCheck(t, duration, timeUnit)
  {
    r := errors;
    if t.isTimed {
      if duration.None? {
        r := r + [NoDuration];
      }
      if timeUnit.None? {
        r := r + [NoTimeUnit];
      }
    } else {
      if duration.Some? {
        r := r + [DurationForNonTimed];
      }
      if timeUnit.Some? {
        r := r + [TimeUnitForNonTimed];
      }
    }
  }

  /** The payload check of one call, run only when the type declares a data
      type other than `Void`: appends a missing value or a value whose class
      is not exactly the declared one. */
  method AddPayloadViolations(errors: seq<Violation>, t: EventType, value: Option<Value>)
    returns (r: seq<Violation>)
    ensures r == errors + PayloadCheck(t, value)
  {
    r := errors;
    var optionalDataType := t.optionalDataType;
    if optionalDataType.Some? && optionalDataType.value != VoidClass {
      if value.None? {
        r := r + [NoValue];
      } else if value.value.cls != optionalDataType.value {
        r := r + [InvalidValue(optionalDataType.value, value.value.cls)];
      }
    }
  }

  /** The body of `onEvent` on the two maps of the store: raises the count
      of the event type, then runs the checks in turn on the type's list and
      stores the list only if it is not empty. */
  method Record(invocations: map<EventType, nat>, invalid: map<EventType, seq<Violation>>,
                event: EventType, duration: Option<int>, timeUnit: Option<TimeUnit>,
                throwable: Option<Throwable>, value: Option<Value>)
    returns (invocations': map<EventType, nat>, invalid': map<EventType, seq<Violation>>)
    ensures Ledger(invocations', invalid') ==
            Step(Ledger(invocations, invalid), Occurrence(event, duration, timeUnit, throwable, value))
  {
    ghost var o := Occurrence(event, duration, timeUnit, throwable, value);
    if event !in invocations {
      invocations' := invocations[event := 1];
    } else {
      invocations' := invocations[event := invocations[event] + 1];
    }

    var errors: seq<Violation> := [];
    if event in invalid {
      errors := invalid[event];
    }
    ghost var before := errors;

    errors := AddErrorViolations(errors, event, throwable);
    errors := AddTimingViolations(errors, event, duration, timeUnit);
    errors := AddPayloadViolations(errors, event, value);
    ChecksInTurn(before, o);

    invalid' := invalid;
    if errors != [] {
      invalid' := invalid[event := errors];
    }
    OneStep(Ledger(invocations, invalid), o, invocations', errors);
  }

  /** The validator. It never rejects a call: it records it. */
  class EventInvocationsStore {
    var eventTypeVsInvocations: map<EventType, nat>
    var eventTypeVsInvalidInvocations: map<EventType, seq<Violation>>
    /** The `onEvent` calls made so far, oldest first. */
    ghost var calls: seq<Occurrence>

    /** The recorded state, as a value. */
    function Snapshot(): Ledger
      reads this
    {
      Ledger(eventTypeVsInvocations, eventTypeVsInvalidInvocations)
    }

    /** The recorded state is the ledger of the calls made so far. */
    ghost predicate Valid()
      reads this
    {
      Snapshot() == Replay(calls)
    }

    /** A new store has recorded nothing. */
    constructor ()
      ensures Valid() && calls == []
      ensures eventTypeVsInvocations == map[] && eventTypeVsInvalidInvocations == map[]
    {
      eventTypeVsInvocations := map[];
      eventTypeVsInvalidInvocations := map[];
      calls := [];
    }

    /** The counts: a type is present exactly when it was called, with the
        number of calls made for it, and the counts add up to the number of
        calls. */
    function GetEventTypeVsInvocations(): (m: map<EventType, nat>)
      reads this
      requires Valid()
      ensures forall t :: t in m <==> CallsFor(calls, t) > 0
      ensures forall t :: t in m ==> m[t] == CallsFor(calls, t) >= 1
      ensures Total(m) == |calls|
    {
      ReplayTotal(calls);
      assert forall t :: ((t in eventTypeVsInvocations <==> CallsFor(calls, t) > 0) &&
        (t in eventTypeVsInvocations ==> eventTypeVsInvocations[t] == CallsFor(calls, t))) by {
        forall t { ReplayCounts(calls, t); }
      }
      eventTypeVsInvocations
    }

    /** The violation messages, rendered from the recorded violations: a type
        is present exactly when its calls failed some check, with the messages
        of all those failures in call order; only counted types appear. */
    function GetEventTypeVsInvalidInvocations(): (m: map<EventType, seq<string>>)
      reads this
      requires Valid()
      ensures forall t :: t in m <==> ViolationsFor(calls, t) != []
      ensures forall t :: t in m ==> m[t] == Messages(ViolationsFor(calls, t))
      ensures m.Keys <= eventTypeVsInvocations.Keys
    {
      ReplayWellFormed(calls);
      assert forall t :: ((t in eventTypeVsInvalidInvocations <==> ViolationsFor(calls, t) != []) &&
        (t in eventTypeVsInvalidInvocations ==> eventTypeVsInvalidInvocations[t] == ViolationsFor(calls, t))) by {
        forall t { ReplayViolations(calls, t); }
      }

      map t | t in eventTypeVsInvalidInvocations :: Messages(eventTypeVsInvalidInvocations[t])
    }

    /** Records one call: counts it for its event type, runs the error,
        timing and payload checks in that order, and appends each failed check
        to the type's violation list. */
    method OnEvent(event: EventType, duration: Option<int>, timeUnit: Option<TimeUnit>,
                   throwable: Option<Throwable>, value: Option<Value>)
      requires Valid()
      modifies this
      ensures Valid()
      ensures calls == old(calls) + [Occurrence(event, duration, timeUnit, throwable, value)]
      ensures Snapshot() == Step(old(Snapshot()), Occurrence(event, duration, timeUnit, throwable, value))
    {
      ghost var o := Occurrence(event, duration, timeUnit, throwable, value);
      ghost var recorded := Snapshot();
      var invocations, invalid := Record(eventTypeVsInvocations, eventTypeVsInvalidInvocations,
                                         event, duration, timeUnit, throwable, value);
      ghost var next := Ledger(invocations, invalid);
      ReplaySnoc(calls, o);
      assert next == Replay(calls + [o]);
      eventTypeVsInvocations, eventTypeVsInvalidInvocations := invocations, invalid;
      calls := calls + [o];
      assert Snapshot() == next;
    }

    /** The end of the event stream changes nothing. */
    method OnCompleted()
      requires Valid()
      ensures Valid() && Snapshot() == old(Snapshot())
    {
    }

    /** Subscription changes nothing. */
    method OnSubscribe()
      requires Valid()
      ensures Valid() && Snapshot() == old(Snapshot())
    {
    }
  }
}
