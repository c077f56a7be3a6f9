/** The checks `EventInvocationsStore.onEvent` runs on the arguments of one
    call, in the order it runs them: error, duration, time unit, payload.
    Each failing check reports one violation, rendered as a fixed message. */
module InvocationRules {
  import opened MetricEvents

  /** One failed check of an `onEvent` call. */
  datatype Violation =
    | NoError
    | ErrorForNonError
    | NoDuration
    | DurationForNonTimed
    | NoTimeUnit
    | TimeUnitForNonTimed
    | NoValue
    | InvalidValue(expected: Tag, got: Tag)

  /** Which check reports a violation: 0 error, 1 duration, 2 time unit, 3 payload. */
  function Stage(v: Violation): nat
  {
    match v
    case NoError | ErrorForNonError => 0
    case NoDuration | DurationForNonTimed => 1
    case NoTimeUnit | TimeUnitForNonTimed => 2
    case NoValue | InvalidValue(_, _) => 3
  }

  /** The human-readable text the store records for a violation. */
  function Message(v: Violation): string
  {
    match v
    case NoError => "No error passed."
    case ErrorForNonError => "Error passed for non-error event."
    case NoDuration => "No duration provided for timed event."
    case DurationForNonTimed => "Duration provided for non-timed event."
    case NoTimeUnit => "No time unit provided for timed event."
    case TimeUnitForNonTimed => "Timeunit provided for non-timed event."
    case NoValue => "No value provided for the event."
    case InvalidValue(expected, got) =>
      "Invalid value provided. Expected: " + ClassText(expected) + ", got: " + ClassText(got)
  }

  /** The texts of a list of violations, in order. */
  function Messages(vs: seq<Violation>): seq<string>
  {
    seq(|vs|, i requires 0 <= i < |vs| => Message(vs[i]))
  }

  /** The violations appear in the order the checks run. */
  predicate InCheckOrder(r: seq<Violation>)
  {
    forall i, j :: 0 <= i < j < |r| ==> Stage(r[i]) < Stage(r[j])
  }

  /** The error check: an error type needs an error, any other type must not have one. */
  function ErrorCheck(t: EventType, throwable: Option<Throwable>): (r: seq<Violation>)
    ensures r == [] <==> (t.isError <==> throwable.Some?)
    ensures r != [] ==> r == [if t.isError then NoError else ErrorForNonError]
    ensures forall i :: 0 <= i < |r| ==> Stage(r[i]) == 0
  {
    if t.isError && throwable.None? then [NoError]
    else if !t.isError && throwable.Some? then [ErrorForNonError]
    else []
  }

  /** The timing check: a timed type needs a duration and a time unit, a
      non-timed type must have neither; each one wrong is reported on its own. */
  function TimingCheck(t: EventType, duration: Option<int>, timeUnit: Option<TimeUnit>): (r: seq<Violation>)
    ensures r == [] <==> (t.isTimed <==> duration.Some?) && (t.isTimed <==> timeUnit.Some?)
    ensures |r| <= 2 && InCheckOrder(r)
    ensures forall i :: 0 <= i < |r| ==> Stage(r[i]) == 1 || Stage(r[i]) == 2
  {
    if t.isTimed then
      (if duration.None? then [NoDuration] else []) +
      (if timeUnit.None? then [NoTimeUnit] else [])
    else
      (if duration.Some? then [DurationForNonTimed] else []) +
      (if timeUnit.Some? then [TimeUnitForNonTimed] else [])
  }

  /** The payload check, run only when a data type other than `Void` is
      declared: the value must be there and be of exactly that class. */
  function PayloadCheck(t: EventType, value: Option<Value>): (r: seq<Violation>)
    ensures r == [] <==> (DeclaresPayload(t) ==> value.Some? && value.value.cls == t.optionalDataType.value)
    ensures !DeclaresPayload(t) ==> r == []
    ensures |r| <= 1 && forall i :: 0 <= i < |r| ==> Stage(r[i]) == 3
  {
    if t.optionalDataType.Some? && t.optionalDataType.value != VoidClass then
      if value.None? then [NoValue]
      else if value.value.cls != t.optionalDataType.value then
        [InvalidValue(t.optionalDataType.value, value.value.cls)]
      else []
    else []
  }

  /** The condition under which a call has violation `v`, stated per
      violation and independently of the order the checks run in. */
  predicate Fails(o: Occurrence, v: Violation)
  {
    var t := o.eventType;
    match v
    case NoError => t.isError && o.throwable.None?
    case ErrorForNonError => !t.isError && o.throwable.Some?
    case NoDuration => t.isTimed && o.duration.None?
    case DurationForNonTimed => !t.isTimed && o.duration.Some?
    case NoTimeUnit => t.isTimed && o.timeUnit.None?
    case TimeUnitForNonTimed => !t.isTimed && o.timeUnit.Some?
    case NoValue => DeclaresPayload(t) && o.value.None?
    case InvalidValue(expected, got) =>
      DeclaresPayload(t) && expected == t.optionalDataType.value && o.value == Some(Value(got)) && got != expected
  }

  /** Everything one call reports: the error, timing and payload checks in turn. */
  function Violations(o: Occurrence): seq<Violation>
  {
    ErrorCheck(o.eventType, o.throwable) + TimingCheck(o.eventType, o.duration, o.timeUnit) + PayloadCheck(o.eventType, o.value)
  }

  /** A call reports its violations in check order, at most one per check,
      none at all exactly when the occurrence conforms to its event type, and
      nothing from the payload check when no payload is declared. */
  lemma ViolationsShape(o: Occurrence)
    ensures |Violations(o)| <= 4
    ensures InCheckOrder(Violations(o))
    ensures Violations(o) == [] <==> ConformsTo(o)
    ensures !DeclaresPayload(o.eventType) ==> forall i :: 0 <= i < |Violations(o)| ==> Stage(Violations(o)[i]) < 3
  {
  }

  /** A call reports a violation exactly when that violation's condition holds. */
  lemma ViolationsExactly(o: Occurrence, v: Violation)
    ensures v in Violations(o) <==> Fails(o, v)
  {
    var e, m, p := ErrorCheck(o.eventType, o.throwable), TimingCheck(o.eventType, o.duration, o.timeUnit), PayloadCheck(o.eventType, o.value);
    assert Violations(o) == e + m + p;
    assert v in e + m + p <==> v in e || v in m || v in p;
    // each check reports only violations of its own stage
    if Stage(v) == 0 {
      assert v !in m && v !in p;
    } else if Stage(v) == 3 {
      assert v !in e && v !in m;
    } else {
      assert v !in e && v !in p;
      if o.eventType.isTimed {
        assert m == (if o.duration.None? then [NoDuration] else []) + (if o.timeUnit.None? then [NoTimeUnit] else []);
      } else {
        assert m == (if o.duration.Some? then [DurationForNonTimed] else []) + (if o.timeUnit.Some? then [TimeUnitForNonTimed] else []);
      }
    }
  }

  /** A fixed message (any but the invalid-value text) is the text of exactly
      one violation. */
  lemma FixedMessageIdentifies(v: Violation, w: Violation)
    requires !v.InvalidValue?
    ensures Message(w) == Message(v) ==> w == v
  {
  }

  /** The recorded text of a call holds a fixed message exactly when the call
      has that violation; with the contract of Violations this gives, for
      example, that "No error passed." is recorded exactly for an error type
      called without an error. */
  lemma FixedMessageRecorded(o: Occurrence, v: Violation)
    requires !v.InvalidValue?
    ensures Message(v) in Messages(Violations(o)) <==> v in Violations(o)
  {
    var vs := Violations(o);
    if Message(v) in Messages(vs) {
      var i :| 0 <= i < |vs| && Messages(vs)[i] == Message(v);
      FixedMessageIdentifies(v, vs[i]);
    }
    if v in vs {
      var i :| 0 <= i < |vs| && vs[i] == v;
      assert Messages(vs)[i] == Message(v);
    }
  }

  /** The invalid-value text names both classes as `Class.toString()` does: a
      type declaring `long.class` that receives a boxed `Long` reports the
      primitive by its bare name and the boxed class with "class ". */
  lemma PrimitiveExpectedText()
    ensures Message(InvalidValue(Tag("long", Primitive), Tag("java.lang.Long", OrdinaryClass)))
      == "Invalid value provided. Expected: long, got: class java.lang.Long"
  {
  }
}
