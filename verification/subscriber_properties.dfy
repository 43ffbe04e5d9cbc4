/**
 Properties of the subscriber that relate several callbacks: registration
 is idempotent and agrees with `enabled`, and the span ids of a run are
 consecutive, so distinct and never zero while the generator has not
 wrapped around.
 */
module SubscriberProperties {
  import opened Wrapping
  import opened Counters
  import opened Subscriber

  /**
   Registering the same callsite again changes nothing and gives the same
   interest: the counters it created are neither reset nor duplicated.
   */
  lemma RegisterIdempotent(s: State, names: seq<string>)
    ensures RegisterCallsite(RegisterCallsite(s, names).state, names) == RegisterCallsite(s, names)
  {
    var once := RegisterCallsite(s, names);
    var twice := RegisterCallsite(once.state, names);
    assert twice.state.counters.Keys == once.state.counters.Keys;
    assert twice.state.counters == once.state.counters;
  }

  /** `enabled` says yes exactly for the callsites `register_callsite` marks always interesting. */
  lemma EnabledAgreesWithInterest(s: State, names: seq<string>)
    ensures Enabled(names) <==> RegisterCallsite(s, names).interest == Always
    ensures !Enabled(names) <==> RegisterCallsite(s, names).interest == Never
  {
  }

  /** A visit whose fields name no existing counter leaves the store as it was. */
  lemma VisitUnknownNames(m: Store, fields: seq<Field>)
    requires forall i :: 0 <= i < |fields| ==> fields[i].name !in m
    ensures SafeFields(m.Keys, fields)
    ensures Visit(m, fields) == m
  {
  }

  /**
   While the generator does not wrap, the spans of a run get the
   consecutive ids starting at the generator's value.
   */
  lemma {:induction false} RunIdsConsecutive(s: State, trace: seq<Callback>)
    requires AdmissibleTrace(s, trace)
    requires s.nextId + SpanCount(trace) < WORD_MODULUS
    ensures Run(s, trace).state.nextId == s.nextId + SpanCount(trace)
    ensures forall i :: 0 <= i < |Run(s, trace).ids| ==> Run(s, trace).ids[i] == s.nextId + i
    decreases |trace|
  {
    if trace != [] {
      var c := trace[0];
      var s' := Step(s, c);
      assert SpanCount(trace) == (if c.OnNewSpan? then 1 else 0) + SpanCount(trace[1..]);
      assert s'.nextId == s.nextId + (if c.OnNewSpan? then 1 else 0);
      RunIdsConsecutive(s', trace[1..]);
    }
  }

  /**
   From the initial state, as long as fewer than 2^64 - 1 spans are
   created, every span id is at least 1 (never the reserved 0) and ids
   strictly increase, so no id is handed out twice.
   */
  lemma FreshIdsFromInit(trace: seq<Callback>)
    requires AdmissibleTrace(Init(), trace)
    requires SpanCount(trace) < WORD_MODULUS - 1
    ensures forall i :: 0 <= i < |Run(Init(), trace).ids| ==> Run(Init(), trace).ids[i] >= 1
    ensures forall i, j :: 0 <= i < j < |Run(Init(), trace).ids| ==> Run(Init(), trace).ids[i] < Run(Init(), trace).ids[j]
  {
    RunIdsConsecutive(Init(), trace);
  }
}
