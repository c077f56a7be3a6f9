# EventInvocationsStore: a verified model of the metrics-event invocation validator

RxNetty publishes metrics as events. Each event type declares a shape:
- whether it is an error event, which carries a throwable;
- whether it is timed, which carries a duration and a time unit;
- which payload class, if any, its value must have.

`EventInvocationsStore` is a listener that tests use to check that publishers honour those shapes. Each `onEvent` call does two things:
- It raises the invocation count of the event's type.
- It runs three checks in turn: error, timing (duration, then time unit) and payload. Each failed check appends a human-readable message to the violation list of that type. Seven of the messages are fixed texts. The eighth, for a payload of the wrong class, names the expected and the actual class. The list is stored only when it is not empty.

This project models that class in Dafny and proves what it records.

- `metric_events.dfy` (module `MetricEvents`) holds the collaborators of the store:
  - the event-type contract: `isError`, `isTimed` and `getOptionalDataType`;
  - the argument sentinels `NO_ERROR`, `NO_DURATION`, `NO_TIME_UNIT` and `NO_VALUE`, modelled as `None`;
  - runtime classes, modelled as `Tag`s compared by identity, with `VoidClass` for `Void.class`;
  - `ClassText`, the text `Class.toString()` gives a class: an interface, a primitive type or any other class;
  - the shape an occurrence must have to conform to its type (`ConformsTo`).
- `invocation_rules.dfy` (module `InvocationRules`) holds the three checks as functions over a `Violation` datatype and the exact message of each violation. It proves:
  - the checks run in order and report at most four violations;
  - they report none exactly for a conforming call;
  - they report each violation exactly under its own condition;
  - each fixed message identifies its violation.
- `event_invocations_store.dfy` (module `EventInvocations`) holds the class `EventInvocationsStore`, with the two maps of the Java class as fields.
  - `OnEvent` updates the two fields through `Record`, the method that carries the body of `onEvent`: `Record` returns the new maps and `OnEvent` assigns them.
  - `Record` is proved against `Step`, a function giving what one call does to a `Ledger`, the value form of the two maps.
  - A ghost field `calls` keeps the calls made so far. The invariant `Valid()` states that the maps are `Replay(calls)`.
  - Lemmas about `Step` and `Replay` give the per-type counts, the sum of the counts, the accumulated violations, and the well-formedness of every reachable state. The getters state these facts about the history of calls.

The store keeps the failed checks as `Violation` values. `GetEventTypeVsInvalidInvocations` renders them into the message strings that the Java class stores. The class names are rendered by `ClassText`, so they are exact as far as a `Tag` carries the name and kind of a class.

## Model

| member | source | states |
|---|---|---|
| MetricEvents.ClassText | rx-netty/src/test/java/io/reactivex/netty/metrics/EventInvocationsStore.java:77-78 | a class renders as `Class.toString()` renders it: "interface " and the name for an interface, the bare name for a primitive type, "class " and the name otherwise |
| InvocationRules.Message | rx-netty/src/test/java/io/reactivex/netty/metrics/EventInvocationsStore.java:50-80 | each violation has its own message text: the seven fixed texts of the error, timing and payload checks, and "Invalid value provided. Expected: …, got: …" with the rendered expected and actual classes |
| InvocationRules.PrimitiveExpectedText | rx-netty/src/test/java/io/reactivex/netty/metrics/EventInvocationsStore.java:76-78 | a type declaring `long.class` that receives a `Long` records "Invalid value provided. Expected: long, got: class java.lang.Long" |
| InvocationRules.Violations | rx-netty/src/test/java/io/reactivex/netty/metrics/EventInvocationsStore.java:50-80 | a call's violations are those of the error check, then the timing check, then the payload check (its properties are `ViolationsShape` and `ViolationsExactly`) |
| EventInvocations.Bump | rx-netty/src/test/java/io/reactivex/netty/metrics/EventInvocationsStore.java:38-43 | the count map after one call: 1 for a type not yet counted, one more than before otherwise (its properties are `BumpCounts` and `TotalBump`) |
| EventInvocations.Append | rx-netty/src/test/java/io/reactivex/netty/metrics/EventInvocationsStore.java:45-84 | the violation map after one call: the type's stored list, or the empty list, followed by the call's violations, stored only if not empty (its properties are `AppendLists`) |
| EventInvocations.Step | rx-netty/src/test/java/io/reactivex/netty/metrics/EventInvocationsStore.java:38-84 | one whole `onEvent` call on the two maps: `Bump` of the counts and `Append` of the call's violations (its properties are `StepConforming`, `StepWellFormed` and `StepExtends`) |
| InvocationRules.ErrorCheck | rx-netty/src/test/java/io/reactivex/netty/metrics/EventInvocationsStore.java:50-54 | the error check reports nothing exactly when an error is passed iff the type is an error type; otherwise it reports the one violation for the missing or the unexpected error |
| InvocationRules.TimingCheck | rx-netty/src/test/java/io/reactivex/netty/metrics/EventInvocationsStore.java:56-71 | the timing check reports nothing exactly when duration and time unit are each present iff the type is timed; it reports at most two violations, duration before time unit |
| InvocationRules.PayloadCheck | rx-netty/src/test/java/io/reactivex/netty/metrics/EventInvocationsStore.java:73-80 | the payload check reports nothing exactly when a declared non-Void data type is matched by a value of exactly that class; it never reports for an absent or Void data type, and reports at most one violation |
| InvocationRules.ViolationsShape | rx-netty/src/test/java/io/reactivex/netty/metrics/EventInvocationsStore.java:50-80 | one call reports at most four violations, in check order (error, duration, time unit, payload), none exactly when the call conforms to its type, and no payload violation when no payload is declared |
| InvocationRules.ViolationsExactly | rx-netty/src/test/java/io/reactivex/netty/metrics/EventInvocationsStore.java:50-80 | a call reports a given violation if and only if that violation's own condition holds, independently of the other checks |
| InvocationRules.FixedMessageIdentifies | rx-netty/src/test/java/io/reactivex/netty/metrics/EventInvocationsStore.java:51-75 | the seven fixed messages are pairwise distinct and distinct from every invalid-value message |
| InvocationRules.FixedMessageRecorded | rx-netty/src/test/java/io/reactivex/netty/metrics/EventInvocationsStore.java:50-80 | the messages of a call contain a fixed text (e.g. "No error passed.") exactly when the call has that violation |
| EventInvocations.BumpCounts | rx-netty/src/test/java/io/reactivex/netty/metrics/EventInvocationsStore.java:38-43 | a call sets its type's count to 1 if the type was unseen and to one more otherwise, adds only that key, and leaves every other count unchanged |
| EventInvocations.AppendLists | rx-netty/src/test/java/io/reactivex/netty/metrics/EventInvocationsStore.java:45-84 | a type's list after a call is its previous list followed by the new violations, stored only when non-empty; other lists are untouched; finding nothing changes nothing |
| EventInvocations.StepConforming | rx-netty/src/test/java/io/reactivex/netty/metrics/EventInvocationsStore.java:38-84 | a call leaves the violation map unchanged if and only if it conforms to its type, while its type's count is raised by exactly one (from 0 if unseen) either way |
| EventInvocations.StepWellFormed | rx-netty/src/test/java/io/reactivex/netty/metrics/EventInvocationsStore.java:38-84 | one call preserves the invariant: counts at least 1, stored lists non-empty, violation keys among the counted keys |
| EventInvocations.StepExtends | rx-netty/src/test/java/io/reactivex/netty/metrics/EventInvocationsStore.java:45-51 | violations only accumulate: a recorded list is a prefix of the list after any later call |
| EventInvocations.ReplayCounts | rx-netty/src/test/java/io/reactivex/netty/metrics/EventInvocationsStore.java:38-43 | after any sequence of calls a type is counted exactly when it was called, with the number of calls made for it |
| EventInvocations.ReplayViolations | rx-netty/src/test/java/io/reactivex/netty/metrics/EventInvocationsStore.java:45-84 | after any sequence of calls a type's list is the violations of all its calls in call order, stored exactly when that is non-empty |
| EventInvocations.ReplayWellFormed | rx-netty/src/test/java/io/reactivex/netty/metrics/EventInvocationsStore.java:18-84 | every state reachable from a new store satisfies the invariant |
| EventInvocations.TotalBump | rx-netty/src/test/java/io/reactivex/netty/metrics/EventInvocationsStore.java:38-43 | raising one count raises the sum of the counts by exactly one |
| EventInvocations.ReplayTotal | rx-netty/src/test/java/io/reactivex/netty/metrics/EventInvocationsStore.java:38-43 | the counts add up to the number of calls made |
| EventInvocations.AddErrorViolations | rx-netty/src/test/java/io/reactivex/netty/metrics/EventInvocationsStore.java:50-54 | appending the error check's violations to a list leaves the list followed by exactly `ErrorCheck` |
| EventInvocations.AddTimingViolations | rx-netty/src/test/java/io/reactivex/netty/metrics/EventInvocationsStore.java:56-71 | appending the timing check's violations leaves the list followed by exactly `TimingCheck` |
| EventInvocations.AddPayloadViolations | rx-netty/src/test/java/io/reactivex/netty/metrics/EventInvocationsStore.java:73-80 | appending the payload check's violations leaves the list followed by exactly `PayloadCheck` |
| EventInvocations.Record | rx-netty/src/test/java/io/reactivex/netty/metrics/EventInvocationsStore.java:33-84 | the body of `onEvent` on the two maps yields exactly one `Step` of the ledger |
| EventInvocations.EventInvocationsStore.constructor | rx-netty/src/test/java/io/reactivex/netty/metrics/EventInvocationsStore.java:18-21 | a new store has both maps empty and no calls recorded |
| EventInvocations.EventInvocationsStore.GetEventTypeVsInvocations | rx-netty/src/test/java/io/reactivex/netty/metrics/EventInvocationsStore.java:23-25 | the count map holds a type exactly when it was called, with the number of its calls, and the counts add up to the number of calls |
| EventInvocations.EventInvocationsStore.GetEventTypeVsInvalidInvocations | rx-netty/src/test/java/io/reactivex/netty/metrics/EventInvocationsStore.java:27-29 | the message map holds a type exactly when its calls failed some check, with the messages of all those failures in call order, and only counted types appear |
| EventInvocations.EventInvocationsStore.OnEvent | rx-netty/src/test/java/io/reactivex/netty/metrics/EventInvocationsStore.java:31-85 | a call is appended to the history, the maps become one `Step` of the previous maps, and the invariant is kept |
| EventInvocations.EventInvocationsStore.OnCompleted | rx-netty/src/test/java/io/reactivex/netty/metrics/EventInvocationsStore.java:87-89 | completion changes neither map |
| EventInvocations.EventInvocationsStore.OnSubscribe | rx-netty/src/test/java/io/reactivex/netty/metrics/EventInvocationsStore.java:91-93 | subscription changes neither map |

## Left out

- The pipeline configurator (`RxRequiredConfigurator`) and the websocket metrics handlers are not part of this model. They only forward to Netty and to the metrics subject, whose code is not available.
- Concurrency: the store is modelled as used from one thread, as the Java class (with unsynchronised maps) assumes.
- The `MetricsEvent` wrapper: `onEvent` only reads its type, so `OnEvent` takes the event type directly. The `Class<E>` constructor argument and the enum typing of the maps are replaced by maps keyed by `EventType` values.
- Java reflection: a class is a `Tag` holding only its name and whether it is an interface, a primitive type or another class. Class identity is `Tag` equality, and nothing else of `Class` is modelled.
- The sentinels are `None`. Java compares a duration with `NO_DURATION` by value, so a real duration equal to that constant counts as absent there; the model has no such collision.
- The store keeps `Violation` values rather than strings. The getter renders them into the strings that the Java class keeps.
- Aliasing:
  - The Java getters return the live maps, which a caller may modify. Here the getters return values.
  - Java updates the `EnumMap`s and the stored `ArrayList` in place. Here `OnEvent` assigns new map and sequence values to the two fields, so the sharing of the stored list between the map and the local `errors` is not modelled.
- OnEvent: does not model the wrap-around of the `Integer` count after 2^31-1 calls of one type; counts are unbounded naturals.
