# Counters subscriber

This is a Dafny model of the counters subscriber in the `tracing` examples
(`examples/examples/counters.rs`). The subscriber keeps a shared map from
counter name to an atomic 64-bit word.

- **Callsites.** Registering a callsite creates a counter at zero for every
  field name that contains `"count"` and has no counter yet; existing
  counters keep their values. A callsite with such a name is always
  interesting, any other never.
- **Visits.** The visitor `Count` is run over the fields of every new span,
  span record and event. It adds each integer field to the counter of the
  same name, if there is one. Every other kind of value is ignored.
- **Span ids.** New spans take consecutive ids from an atomic generator that
  starts at 1.

The model is sequential. Each callback is one atomic step on a `State`, made
of the counter store and the id generator. The atomics' wrap-around is
written out as arithmetic modulo 2^64.

Modules:

- `Wrapping`: 64-bit words, `i64` values, and the wrapping add/sub of the
  atomics.
- `Substring`: `str::contains`.
- `Counters`: field values, the visitor and a visit pass.
- `VisitProperties`: what a pass does to each counter, stated against a
  reference sum.
- `Subscriber`: the callbacks, a single `Step`, and `Run` over a trace of
  callbacks.
- `SubscriberProperties`: properties that relate several callbacks.
- `Scenarios`: the accumulation scenarios and the demo program's whole run.

`fetch_add`/`fetch_sub` on an `AtomicUsize` wrap around modulo 2^64, so a
decrement below zero wraps; the model does the same.

## Model

| member | source | states |
|---|---|---|
| Wrapping.WrappingAddIsReduce | examples/examples/counters.rs:35 | `fetch_add` on the counter word leaves the sum modulo 2^64 |
| Wrapping.WrappingSubIsReduce | examples/examples/counters.rs:37 | `fetch_sub` on the counter word leaves the difference modulo 2^64 |
| Wrapping.BitsIsReduce | examples/examples/counters.rs:35 | casting a signed value to the word type keeps it modulo 2^64 (two's complement) |
| Wrapping.SubMagnitudeIsAddBits | examples/examples/counters.rs:34-38 | subtracting the magnitude of a non-positive `i64` (other than `i64::MIN`) is adding the value modulo 2^64, so both branches of `record_i64` add the signed value |
| Wrapping.SubUndoesAdd | examples/examples/counters.rs:35-37 | a `fetch_sub(d)` after a `fetch_add(d)` restores the counter exactly, even across wrap-around |
| Wrapping.WrappingAddAssociates | examples/examples/counters.rs:35 | successive `fetch_add`s may be grouped either way |
| Wrapping.WrappingAddCommutes | examples/examples/counters.rs:35 | two `fetch_add`s on one counter commute |
| Substring.Contains | examples/examples/counters.rs:66 | `name.contains("count")` holds exactly when the pattern occurs at some position of the name |
| Counters.Value.Delta | examples/examples/counters.rs:32-50 | the word an integer value adds is its signed amount modulo 2^64; non-integer values add nothing |
| Counters.VisitField | examples/examples/counters.rs:32-50 | one visitor call: the counter set is unchanged and only the counter named by the field changes; an integer field adds its signed amount modulo 2^64 to that counter if it exists; bool, str and debug values change nothing |
| Counters.Visit | examples/examples/counters.rs:89-95 | a visit pass offers the fields to the visitor in order and never adds or removes a counter |
| Counters.VisitFrame | examples/examples/counters.rs:33-45 | after a pass, every counter that no integer field of the pass names keeps its value |
| VisitProperties.WordSumIsReducedSum | examples/examples/counters.rs:32-46 | wrapping after every update gives the same word as reducing the exact signed sum once |
| VisitProperties.VisitAddsWordSum | examples/examples/counters.rs:32-46 | after a pass each counter holds its start value plus the wrapped sum of the fields named after it |
| VisitProperties.VisitAccumulates | examples/examples/counters.rs:32-46 | after a pass each counter holds its start value plus the signed sum of the integer fields named after it, modulo 2^64; updates accumulate and never overwrite |
| VisitProperties.VisitUnfold | examples/examples/counters.rs:89-95 | a pass is its first visitor call followed by the pass over the remaining fields |
| VisitProperties.VisitAppend | examples/examples/counters.rs:89-95 | two passes in a row equal one pass over both field lists |
| VisitProperties.WordSumPermutation | examples/examples/counters.rs:35-44 | the wrapped sum of the updates to a counter does not depend on their order |
| VisitProperties.VisitOrderIrrelevant | examples/examples/counters.rs:35-44 | any reordering of the same fields yields the same store, so interleaved atomic updates reach the same final counters |
| Subscriber.Enabled | examples/examples/counters.rs:97-99 | `enabled` holds exactly when some field name of the callsite contains `"count"` |
| Subscriber.RegisterFrom | examples/examples/counters.rs:64-75 | the registration loop adds exactly the counter names among the remaining fields, new ones at 0 and existing ones untouched, and sets the interest to always exactly if one of them is a counter name |
| Subscriber.RegisterCallsite | examples/examples/counters.rs:62-77 | the counters become the old counters plus the callsite's counter names; new counters start at 0; existing counters keep their values; the interest is always exactly when the callsite has a counter name, never otherwise; the id generator is untouched |
| Subscriber.Event | examples/examples/counters.rs:93-95 | an event keeps the counter set and the id generator, and leaves every counter its integer fields do not name unchanged |
| Subscriber.Record | examples/examples/counters.rs:89-91 | recording values on a span acts exactly as an event with those fields; the span id plays no part |
| Subscriber.NewSpan | examples/examples/counters.rs:79-83 | the new span's fields update the counters as an event's would; the span gets the generator's value and the generator advances by one, wrapping to 0 after 2^64 - 1 |
| Subscriber.Step | examples/examples/counters.rs:61-103 | no callback removes a counter; only registration adds any, and only counter names at 0; only `new_span` moves the id generator; `enabled`, `record_follows_from`, `enter` and `exit` change nothing |
| Subscriber.Run | examples/examples/counters.rs:61-103 | over a trace of callbacks the counter set only grows, every added counter is a counter name, and one id is handed out per span created |
| SubscriberProperties.RegisterIdempotent | examples/examples/counters.rs:71-72 | registering a callsite a second time changes nothing and yields the same interest, because `or_insert_with` never resets a counter |
| SubscriberProperties.EnabledAgreesWithInterest | examples/examples/counters.rs:97-99 | `enabled` answers true exactly for callsites that `register_callsite` marks always, and false exactly for those it marks never |
| SubscriberProperties.VisitUnknownNames | examples/examples/counters.rs:33 | fields that name no existing counter leave the store unchanged |
| SubscriberProperties.RunIdsConsecutive | examples/examples/counters.rs:81-82 | while the generator does not wrap, the spans of a run get consecutive ids from the generator's start value |
| SubscriberProperties.FreshIdsFromInit | examples/examples/counters.rs:115 | from `Counters::new`, with fewer than 2^64 - 1 spans, every id is at least 1 and ids strictly increase, so none repeats |
| Scenarios.CounterNameFoo | examples/examples/counters.rs:128 | `foo_count` is a counter name |
| Scenarios.CounterNameYak | examples/examples/counters.rs:130 | `yak_count` is a counter name |
| Scenarios.CounterNameBaz | examples/examples/counters.rs:135 | `baz_count` is a counter name |
| Scenarios.NotCounterNames | examples/examples/counters.rs:130 | `yak_shaved` and `message` (and `shaved`) are not counter names |
| Scenarios.RegisterOneNew | examples/examples/counters.rs:64-75 | a callsite whose only new counter name is `c` adds exactly that counter at 0 |
| Scenarios.RegisterNoneNew | examples/examples/counters.rs:64-75 | a callsite whose counter names all exist leaves the state as it was |
| Scenarios.VisitCounter | examples/examples/counters.rs:33-45 | an integer field that names an existing counter updates that counter and no other |
| Scenarios.EventsCancel | examples/examples/counters.rs:130-138 | an event adding 1 and another adding -1 to the same counter leave it at 0 |
| Scenarios.OppositeEventsCancel | examples/examples/counters.rs:34-38 | in any state, an event adding a positive `v` to an existing counter followed by one adding `-v` restores the whole state, because `fetch_sub(v)` undoes `fetch_add(v)` even across wrap-around |
| Scenarios.SpanThenRecordAccumulates | examples/examples/counters.rs:79-91 | a span created with a counter field of 2 and then recorded with 3 leaves the counter at 5: `record` adds to what `new_span` counted, and the span has id 1 |
| Scenarios.OnlyCounterNamesCounted | examples/examples/counters.rs:131-136 | among a callsite's fields only the counter name gets a counter; a boolean field is ignored |
| Scenarios.DemoNamesHold | examples/examples/counters.rs:127-138 | the demo's field names split into three distinct counter names and two names that are not counters |
| Scenarios.DemoRegisterFirstSpan | examples/examples/counters.rs:128 | registering the first span's callsite creates `foo_count` at 0 |
| Scenarios.DemoFirstSpan | examples/examples/counters.rs:127-128 | creating the first span with `foo_count = 2` takes that counter to 2 and moves the generator to 2 |
| Scenarios.DemoRegisterInfo | examples/examples/counters.rs:130 | registering the info event's callsite creates `yak_count` at 0 and nothing else |
| Scenarios.DemoInfoEvent | examples/examples/counters.rs:130 | the info event takes `yak_count` from 0 to 1 and ignores `yak_shaved` and `message` |
| Scenarios.DemoRegisterSecondSpan | examples/examples/counters.rs:131-136 | registering the second span's callsite creates `baz_count` at 0 and leaves `foo_count` at its value |
| Scenarios.DemoSecondSpan | examples/examples/counters.rs:131-136 | creating the second span adds 3 to `foo_count` and 5 to `baz_count` and moves the generator to 3 |
| Scenarios.DemoRegisterWarn | examples/examples/counters.rs:138 | registering the warning's callsite finds `yak_count` present and changes nothing |
| Scenarios.DemoWarnEvent | examples/examples/counters.rs:138 | the warning takes `yak_count` from 1 back to 0 |
| Scenarios.DemoSecondSpanBody | examples/examples/counters.rs:137-140 | the callbacks inside the second span, up to both exits, end with `foo_count` 5, `yak_count` 0, `baz_count` 5 and create no span |
| Scenarios.DemoFirstSpanBody | examples/examples/counters.rs:130-140 | the callbacks inside the first span end with `foo_count` 5, `yak_count` 0, `baz_count` 5 and create one span, with id 2 |
| Scenarios.DemoRun | examples/examples/counters.rs:122-143 | the demo program's callbacks are admissible, give its spans ids 1 and 2, and end with `foo_count` 5, `yak_count` 0 and `baz_count` 5 |

## Left out

- `print_counters` and `main`'s printing are left out because they are I/O. `main`'s sequence of spans and events is modelled as `Scenarios.DemoTrace`.
- The `RwLock`, the `Arc` sharing, lock poisoning (`unwrap` on a poisoned lock) and the memory orderings of the atomics are left out. The model is sequential, and each callback is one atomic step. `VisitOrderIrrelevant` covers the reorderings that concurrent `fetch_add`/`fetch_sub` calls can produce.
- The host framework is left out: callsite registration caching, span context and `set_global_default`. A callsite is modelled as the list of its field names, and a span, record or event as the list of its fields in order.
- `Counters.VisitField` requires that an `i64::MIN` value does not reach an existing counter. In that case `-value` overflows, which panics in a debug build and wraps in a release build. Every visit, event, record, span and run inherits this precondition through `SafeField`.
- `Subscriber.NewSpan` does not model the panic of `Id::from_u64(0)` in the host framework. After 2^64 - 1 spans the generator wraps to 0. The model yields id 0 there, and the id properties are proved only below that bound.
- The model assumes a 64-bit target: `usize` is 64 bits, so `value as usize` keeps all 64 bits.
- The model has no `Interest::sometimes`, because the subscriber only ever returns always or never.
- The subscriber trait's default callbacks, which the file does not override, are left out.
- `Counters::new` is the function `Subscriber.Init`. It has no contract of its own; its initial state is what `FreshIdsFromInit` starts from.
- `main` passes `foo` by reference and increments it between the two spans. The model uses the values the visitor sees: 2 for the first span and 3 for the second.
