/** The metrics event contract that the invocation validator checks against.
    These are the collaborators of EventInvocationsStore: the event-type
    contract (isError, isTimed, getOptionalDataType), the argument sentinels
    of a listener call, and the runtime classes of payloads. */
module MetricEvents {

  /** `None` stands for a listener sentinel (NO_ERROR, NO_DURATION,
      NO_TIME_UNIT, NO_VALUE) or for a `null` declared data type. */
  datatype Option<+T> = None | Some(value: T)

  /** What `Class.isInterface()` and `Class.isPrimitive()` tell about a class. */
  datatype ClassKind = Interface | Primitive | OrdinaryClass

  /** A runtime class, known by its name (`Class.getName()`) and its kind, and
      compared by identity (as `Class` objects are). */
  datatype Tag = Tag(name: string, kind: ClassKind)

  /** `Void.class`: a declared data type that means "no payload". */
  const VoidClass: Tag := Tag("java.lang.Void", OrdinaryClass)

  /** The text a class contributes to a message, as `Class.toString()` gives
      it: "interface " before an interface's name, the bare name of a
      primitive type, and "class " before the name of any other class. */
  function ClassText(t: Tag): string
  {
    match t.kind
    case Interface => "interface " + t.name
    case Primitive => t.name
    case OrdinaryClass => "class " + t.name
  }

  /** java.util.concurrent.TimeUnit. */
  datatype TimeUnit =
    | Nanoseconds | Microseconds | Milliseconds | Seconds | Minutes | Hours | Days

  /** An error object passed with an event, known by its class. */
  datatype Throwable = Throwable(cls: Tag)

  /** A payload object passed with an event, known by its runtime class
      (what `value.getClass()` returns). */
  datatype Value = Value(cls: Tag)

  /** One constant of an event-type enumeration: its name gives it its
      identity, the other fields are the shape it declares. */
  datatype EventType = EventType(
    name: string,
    isError: bool,
    isTimed: bool,
    optionalDataType: Option<Tag>)

  /** The arguments of one `onEvent` call. */
  datatype Occurrence = Occurrence(
    eventType: EventType,
    duration: Option<int>,
    timeUnit: Option<TimeUnit>,
    throwable: Option<Throwable>,
    value: Option<Value>)

  /** The event type declares a payload that must be checked: its data type
      is neither absent (`null`) nor `Void.class`. */
  predicate DeclaresPayload(t: EventType)
  {
    t.optionalDataType.Some? && t.optionalDataType.value != VoidClass
  }

  /** The shape an occurrence must have to agree with its event type: an error
      exactly for error types, a duration and a time unit exactly for timed
      types, and a payload of exactly the declared class when one is declared. */
  predicate ConformsTo(o: Occurrence)
  {
    var t := o.eventType;
    (t.isError <==> o.throwable.Some?) &&
    (t.isTimed <==> o.duration.Some?) &&
    (t.isTimed <==> o.timeUnit.Some?) &&
    (DeclaresPayload(t) ==> o.value.Some? && o.value.value.cls == t.optionalDataType.value)
  }
}
