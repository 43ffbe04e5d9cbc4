/**
 The counters subscriber (`CounterSubscriber`) as a sequential state
 machine. Its state is the counter store and the span id generator; each
 callback of the host framework is one atomic step over that state.
 */
module Subscriber {
  import opened Wrapping
  import opened Substring
  import opened Counters

  /** A field whose name contains this marker is a counter. */
  const COUNTER_MARK: string := "count"

  predicate IsCounterName(name: string) {
    Contains(name, COUNTER_MARK)
  }

  /** The counter names among a callsite's field names. */
  function CounterNames(names: seq<string>): set<string> {
    set n | n in names && IsCounterName(n)
  }

  /** Whether the host framework should ever deliver a callsite's spans and events. */
  datatype Interest = Never | Always

  /** The counter store and the next span id the generator hands out. */
  datatype State = State(counters: Store, nextId: Word)

  /** `Counters::new`: no counters, and span ids start at 1. */
  function Init(): State {
    State(map[], 1)
  }

  /** `enabled`: some field name of the callsite contains the marker. */
  function Enabled(names: seq<string>): (b: bool)
    ensures b <==> exists n :: n in names && IsCounterName(n)
    decreases |names|
  {
    if names == [] then false
    else
      assert forall n :: n in names[1..] ==> n in names;
      assert names == [names[0]] + names[1..];
      IsCounterName(names[0]) || Enabled(names[1..])
  }

  /** `or_insert_with(|| 0)`: a counter that already exists keeps its value. */
  function InsertIfAbsent(m: Store, name: string): Store {
    if name in m then m else m[name := 0]
  }

  /** The state after registering a callsite, and the interest it answers. */
  datatype Registration = Registration(state: State, interest: Interest)

  /**
   The loop of `register_callsite` over the remaining field `names`, with
   the interest decided so far.
   */
  function RegisterFrom(s: State, names: seq<string>, interest: Interest): (r: Registration)
    ensures r.state.nextId == s.nextId
    ensures r.state.counters.Keys == s.counters.Keys + CounterNames(names)
    ensures forall k :: k in s.counters ==> r.state.counters[k] == s.counters[k]
    ensures forall k :: k in r.state.counters && k !in s.counters ==> r.state.counters[k] == 0
    ensures r.interest == Always <==> interest == Always || exists n :: n in names && IsCounterName(n)
    decreases |names|
  {
    if names == [] then Registration(s, interest)
    else
      assert names == [names[0]] + names[1..];
      assert CounterNames(names) == CounterNames([names[0]]) + CounterNames(names[1..]);
      if IsCounterName(names[0]) then
        RegisterFrom(State(InsertIfAbsent(s.counters, names[0]), s.nextId), names[1..], Always)
      else
        RegisterFrom(s, names[1..], interest)
  }

  /**
   `register_callsite`: every counter name of the callsite gets a counter,
   starting at zero if it is new; no other counter appears and none is
   reset. The callsite is always interesting if it has a counter name and
   never otherwise.
   */
  function RegisterCallsite(s: State, names: seq<string>): (r: Registration)
    ensures r.state.nextId == s.nextId
    ensures r.state.counters.Keys == s.counters.Keys + CounterNames(names)
    ensures forall k :: k in s.counters ==> r.state.counters[k] == s.counters[k]
    ensures forall k :: k in r.state.counters && k !in s.counters ==> r.state.counters[k] == 0
    ensures r.interest == Always <==> exists n :: n in names && IsCounterName(n)
  {
    RegisterFrom(s, names, Never)
  }

  /** `event`: the event's fields are visited; the id generator is untouched. */
  function Event(s: State, fields: seq<Field>): (r: State)
    requires SafeFields(s.counters.Keys, fields)
    ensures r.nextId == s.nextId
    ensures r.counters.Keys == s.counters.Keys
    ensures forall k :: k in s.counters && !Updates(fields, k) ==> r.counters[k] == s.counters[k]
  {
    VisitFrame(s.counters, fields);
    State(Visit(s.counters, fields), s.nextId)
  }

  /** `record`: like an event; the span id plays no part, counters are global. */
  function Record(s: State, span: Word, fields: seq<Field>): (r: State)
    requires SafeFields(s.counters.Keys, fields)
    ensures r == Event(s, fields)
  {
    State(Visit(s.counters, fields), s.nextId)
  }

  datatype SpanCreated = SpanCreated(state: State, id: Word)

  /**
   `new_span`: the initial fields are visited as an event's would be, then
   the generator's current value becomes the span id and the generator
   moves on by one, wrapping as an atomic word does.
   */
  function NewSpan(s: State, fields: seq<Field>): (r: SpanCreated)
    requires SafeFields(s.counters.Keys, fields)
    ensures r.id == s.nextId
    ensures r.state.nextId == if s.nextId + 1 < WORD_MODULUS then s.nextId + 1 else 0
    ensures r.state.counters == Event(s, fields).counters
  {
    var visited := Visit(s.counters, fields);
    SpanCreated(State(visited, WrappingAdd(s.nextId, 1)), s.nextId)
  }

  /** The callbacks the host framework makes on the subscriber. */
  datatype Callback =
    | OnRegisterCallsite(names: seq<string>)
    | OnEnabled(names: seq<string>)
    | OnNewSpan(fields: seq<Field>)
    | OnRecord(span: Word, fields: seq<Field>)
    | OnEvent(fields: seq<Field>)
    | OnFollowsFrom(span: Word, follows: Word)
    | OnEnter(span: Word)
    | OnExit(span: Word)

  /** The callback does not negate `i64::MIN` when applied in state `s`. */
  predicate Admissible(s: State, c: Callback) {
    match c
    case OnNewSpan(fields) => SafeFields(s.counters.Keys, fields)
    case OnRecord(_, fields) => SafeFields(s.counters.Keys, fields)
    case OnEvent(fields) => SafeFields(s.counters.Keys, fields)
    case _ => true
  }

  /**
   The effect of one callback on the state. `enabled` only answers a
   question, and `record_follows_from`, `enter` and `exit` do nothing.
   */
  function Step(s: State, c: Callback): (r: State)
    requires Admissible(s, c)
    ensures s.counters.Keys <= r.counters.Keys
    ensures forall k :: k in r.counters && k !in s.counters ==> IsCounterName(k) && r.counters[k] == 0
    ensures !c.OnRegisterCallsite? ==> r.counters.Keys == s.counters.Keys
    ensures r.nextId == if !c.OnNewSpan? then s.nextId else if s.nextId + 1 < WORD_MODULUS then s.nextId + 1 else 0
    ensures c.OnEnabled? || c.OnFollowsFrom? || c.OnEnter? || c.OnExit? ==> r == s
  {
    match c
    case OnRegisterCallsite(names) => RegisterCallsite(s, names).state
    case OnEnabled(_) => s
    case OnNewSpan(fields) => NewSpan(s, fields).state
    case OnRecord(span, fields) => Record(s, span, fields)
    case OnEvent(fields) => Event(s, fields)
    case OnFollowsFrom(_, _) => s
    case OnEnter(_) => s
    case OnExit(_) => s
  }

  /** Every callback of `trace` is admissible in the state it meets. */
  predicate AdmissibleTrace(s: State, trace: seq<Callback>)
    decreases |trace|
  {
    trace == [] || (Admissible(s, trace[0]) && AdmissibleTrace(Step(s, trace[0]), trace[1..]))
  }

  /** The number of spans a trace creates. */
  function SpanCount(trace: seq<Callback>): nat
    decreases |trace|
  {
    if trace == [] then 0
    else (if trace[0].OnNewSpan? then 1 else 0) + SpanCount(trace[1..])
  }

  /** The final state and the ids of the spans created, in order. */
  datatype Outcome = Outcome(state: State, ids: seq<Word>)

  /**
   A run of callbacks. Counters are only ever added, and only for counter
   names, starting at zero; one id is handed out per span created.
   */
  function Run(s: State, trace: seq<Callback>): (r: Outcome)
    requires AdmissibleTrace(s, trace)
    ensures s.counters.Keys <= r.state.counters.Keys
    ensures forall k :: k in r.state.counters && k !in s.counters ==> IsCounterName(k)
    ensures |r.ids| == SpanCount(trace)
    decreases |trace|
  {
    if trace == [] then Outcome(s, [])
    else
      var c := trace[0];
      var rest := Run(Step(s, c), trace[1..]);
      if c.OnNewSpan? then Outcome(rest.state, [s.nextId] + rest.ids) else rest
  }
}
