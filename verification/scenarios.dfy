/**
 Runs of the subscriber: the scenarios of accumulation across
 callbacks and the demo program's sequence of spans and events. The
 scenarios are stated for any field names with the right relation to the
 counting marker; the lemmas at the top show which of the demo's own names
 are counter names.
 */
module Scenarios {
  import opened Wrapping
  import opened Substring
  import opened Counters
  import opened Subscriber
  import opened VisitProperties

  lemma CounterNameFoo()
    ensures IsCounterName("foo_count")
  {
    assert OccursAt("foo_count", COUNTER_MARK, 4);
  }

  lemma CounterNameYak()
    ensures IsCounterName("yak_count")
  {
    assert OccursAt("yak_count", COUNTER_MARK, 4);
  }

  lemma CounterNameBaz()
    ensures IsCounterName("baz_count")
  {
    assert OccursAt("baz_count", COUNTER_MARK, 4);
  }

  /** A name without the marker's first letter cannot contain the marker. */
  lemma NoMarkLetter(name: string)
    requires COUNTER_MARK[0] !in name
    ensures !IsCounterName(name)
  {
  }

  lemma NotCounterNames()
    ensures !IsCounterName("yak_shaved")
    ensures !IsCounterName("shaved")
    ensures !IsCounterName("message")
  {
    NoMarkLetter("yak_shaved");
    NoMarkLetter("shaved");
    NoMarkLetter("message");
  }

  /** A pass over one, two or three fields is that many single field visits. */
  lemma VisitOne(m: Store, f: Field)
    requires SafeField(m.Keys, f)
    ensures SafeFields(m.Keys, [f])
    ensures Visit(m, [f]) == VisitField(m, f)
  {
    VisitUnfold(m, [f]);
    assert [f][1..] == [];
  }

  lemma VisitTwo(m: Store, f0: Field, f1: Field)
    requires SafeField(m.Keys, f0) && SafeField(m.Keys, f1)
    ensures SafeFields(m.Keys, [f0, f1])
    ensures Visit(m, [f0, f1]) == VisitField(VisitField(m, f0), f1)
  {
    VisitUnfold(m, [f0, f1]);
    assert [f0, f1][1..] == [f1];
    VisitOne(VisitField(m, f0), f1);
  }

  lemma VisitThree(m: Store, f0: Field, f1: Field, f2: Field)
    requires SafeField(m.Keys, f0) && SafeField(m.Keys, f1) && SafeField(m.Keys, f2)
    ensures SafeFields(m.Keys, [f0, f1, f2])
    ensures Visit(m, [f0, f1, f2]) == VisitField(VisitField(VisitField(m, f0), f1), f2)
  {
    VisitUnfold(m, [f0, f1, f2]);
    assert [f0, f1, f2][1..] == [f1, f2];
    VisitTwo(VisitField(m, f0), f1, f2);
  }

  /** Registering a callsite whose only field is the counter name `c`. */
  lemma RegisterSingle(s: State, c: string)
    requires IsCounterName(c)
    ensures RegisterCallsite(s, [c]).state.counters == if c in s.counters then s.counters else s.counters[c := 0]
    ensures RegisterCallsite(s, [c]).state.nextId == s.nextId
  {
    assert CounterNames([c]) == {c};
  }

  /** Two events on a counter `c`, of 1 and then -1, leave it at 0 (`yak_count` in the demo). */
  lemma EventsCancel(c: string)
    requires IsCounterName(c)
    ensures var s0 := RegisterCallsite(Init(), [c]).state;
            var s1 := Event(s0, [Field(c, I64(1))]);
            var s2 := Event(s1, [Field(c, I64(-1))]);
            s1.counters == map[c := 1] && s2.counters == map[c := 0]
  {
    RegisterSingle(Init(), c);
    var s0 := RegisterCallsite(Init(), [c]).state;
    VisitOne(s0.counters, Field(c, I64(1)));
    OppositeEventsCancel(s0, c, 1);
  }

  /**
   An event adding a positive `v` to an existing counter, followed by one
   adding `-v`, restores the whole state: the `fetch_sub(v)` of the second
   undoes the `fetch_add(v)` of the first, even across wrap-around.
   */
  lemma OppositeEventsCancel(s: State, c: string, v: I64)
    requires c in s.counters && 0 < v
    ensures Event(Event(s, [Field(c, I64(v))]), [Field(c, I64(-v))]) == s
  {
    var m := s.counters;
    VisitOne(m, Field(c, I64(v)));
    var m1 := m[c := WrappingAdd(m[c], v)];
    VisitOne(m1, Field(c, I64(-v)));
    assert VisitField(m1, Field(c, I64(-v))) == m1[c := WrappingSub(m1[c], v)];
    SubUndoesAdd(m[c], v);
    assert m1[c := m[c]] == m;
  }

  /**
   A span created with `c = 2` and then recorded with `c = 3` leaves the
   counter at 5 (`foo_count` in the demo): the amounts add up.
   */
  lemma SpanThenRecordAccumulates(c: string)
    requires IsCounterName(c)
    ensures var s0 := RegisterCallsite(Init(), [c]).state;
            var span := NewSpan(s0, [Field(c, U64(2))]);
            var s2 := Record(span.state, span.id, [Field(c, U64(3))]);
            span.id == 1 && span.state.counters == map[c := 2] && s2.counters == map[c := 5]
  {
    RegisterSingle(Init(), c);
    var s0 := RegisterCallsite(Init(), [c]).state;
    VisitOne(s0.counters, Field(c, U64(2)));
    var span := NewSpan(s0, [Field(c, U64(2))]);
    VisitOne(span.state.counters, Field(c, U64(3)));
  }

  /**
   An event carrying a counter field `c = 5` and a boolean field `n` that
   is not a counter name (`baz_count` and `shaved`): only `c` gets a
   counter, and it holds 5.
   */
  lemma OnlyCounterNamesCounted(c: string, n: string)
    requires IsCounterName(c) && !IsCounterName(n)
    ensures var reg := RegisterCallsite(Init(), [c, n]);
            var s1 := Event(reg.state, [Field(c, I64(5)), Field(n, Bool(true))]);
            reg.interest == Always && s1.counters == map[c := 5]
  {
    var reg := RegisterCallsite(Init(), [c, n]);
    assert CounterNames([c, n]) == {c};
    assert reg.state.counters == map[c := 0];
    assert c in [c, n];
    VisitTwo(reg.state.counters, Field(c, I64(5)), Field(n, Bool(true)));
  }

  /**
   The field names of the demo program: three counters (`foo_count`,
   `yak_count`, `baz_count`) and two names that are not counters
   (`yak_shaved` and the event's `message`).
   */
  predicate DemoNames(foo: string, yak: string, baz: string, shaved: string, msg: string) {
    IsCounterName(foo) && IsCounterName(yak) && IsCounterName(baz)
    && !IsCounterName(shaved) && !IsCounterName(msg)
    && foo != yak && foo != baz && yak != baz
  }

  lemma DemoNamesHold()
    ensures DemoNames("foo_count", "yak_count", "baz_count", "yak_shaved", "message")
  {
    CounterNameFoo();
    CounterNameYak();
    CounterNameBaz();
    NotCounterNames();
  }

  /** One callback of a run, taken on its own, when its effect `next` is known. */
  lemma RunStep(s: State, c: Callback, next: State, t: seq<Callback>)
    requires Admissible(s, c) && Step(s, c) == next && AdmissibleTrace(next, t)
    ensures AdmissibleTrace(s, [c] + t)
    ensures Run(s, [c] + t) ==
      if c.OnNewSpan? then Outcome(Run(next, t).state, [s.nextId] + Run(next, t).ids)
      else Run(next, t)
  {
    assert ([c] + t)[0] == c;
    assert ([c] + t)[1..] == t;
  }

  /** A callsite whose only new counter name is `c` adds that one counter at zero. */
  lemma RegisterOneNew(s: State, names: seq<string>, c: string)
    requires c in CounterNames(names) && c !in s.counters
    requires CounterNames(names) <= s.counters.Keys + {c}
    ensures RegisterCallsite(s, names).state == State(s.counters[c := 0], s.nextId)
  {
  }

  /** A callsite whose counter names all exist already changes nothing. */
  lemma RegisterNoneNew(s: State, names: seq<string>)
    requires CounterNames(names) <= s.counters.Keys
    ensures RegisterCallsite(s, names).state == s
  {
  }

  /** An integer field naming an existing counter updates exactly that counter. */
  lemma VisitCounter(m: Store, f: Field)
    requires f.name in m && f.value.IsInteger() && SafeField(m.Keys, f)
    ensures VisitField(m, f) == m[f.name := WrappingAdd(m[f.name], f.value.Delta())]
  {
  }

  /** The demo's callbacks inside the second span, up to both spans' exits. */
  function DemoInSecondSpan(yak: string, shaved: string, msg: string): seq<Callback> {
    [OnRegisterCallsite([msg, shaved, yak])] +
    ([OnEvent([Field(msg, Debug), Field(shaved, Bool(false)), Field(yak, I64(-1))])] +
    ([OnExit(2)] + [OnExit(1)]))
  }

  /** The demo's callbacks inside the first span, from its first event on. */
  function DemoInFirstSpan(foo: string, yak: string, baz: string, shaved: string, msg: string): seq<Callback> {
    [OnRegisterCallsite([msg, shaved, yak])] +
    ([OnEvent([Field(msg, Debug), Field(shaved, Bool(true)), Field(yak, I64(1))])] +
    ([OnRegisterCallsite([foo, baz])] +
    ([OnNewSpan([Field(foo, U64(3)), Field(baz, I64(5))])] +
    ([OnEnter(2)] + DemoInSecondSpan(yak, shaved, msg)))))
  }

  /**
   The callbacks the demo program causes, in order: the first span on
   `foo_count` is created and entered, and everything else happens inside it.
   */
  function DemoTrace(foo: string, yak: string, baz: string, shaved: string, msg: string): seq<Callback> {
    [OnRegisterCallsite([foo])] +
    ([OnNewSpan([Field(foo, U64(2))])] +
    ([OnEnter(1)] + DemoInFirstSpan(foo, yak, baz, shaved, msg)))
  }

  /** Registering the first span's callsite creates `foo_count` at 0. */
  lemma DemoRegisterFirstSpan(foo: string, yak: string, baz: string, shaved: string, msg: string)
    requires DemoNames(foo, yak, baz, shaved, msg)
    ensures Step(Init(), OnRegisterCallsite([foo])) == State(map[foo := 0], 1)
  {
    assert CounterNames([foo]) == {foo};
    RegisterOneNew(Init(), [foo], foo);
  }

  /** Registering the info event's callsite creates `yak_count` at 0. */
  lemma DemoRegisterInfo(foo: string, yak: string, baz: string, shaved: string, msg: string)
    requires DemoNames(foo, yak, baz, shaved, msg)
    ensures Step(State(map[foo := 2], 2), OnRegisterCallsite([msg, shaved, yak])) == State(map[foo := 2, yak := 0], 2)
  {
    assert CounterNames([msg, shaved, yak]) == {yak};
    RegisterOneNew(State(map[foo := 2], 2), [msg, shaved, yak], yak);
  }

  /** Registering the second span's callsite creates `baz_count` and leaves `foo_count` as it is. */
  lemma DemoRegisterSecondSpan(foo: string, yak: string, baz: string, shaved: string, msg: string)
    requires DemoNames(foo, yak, baz, shaved, msg)
    ensures Step(State(map[foo := 2, yak := 1], 2), OnRegisterCallsite([foo, baz]))
            == State(map[foo := 2, yak := 1, baz := 0], 2)
  {
    assert CounterNames([foo, baz]) == {foo, baz};
    RegisterOneNew(State(map[foo := 2, yak := 1], 2), [foo, baz], baz);
  }

  /** Registering the warning's callsite finds `yak_count` already there and changes nothing. */
  lemma DemoRegisterWarn(foo: string, yak: string, baz: string, shaved: string, msg: string)
    requires DemoNames(foo, yak, baz, shaved, msg)
    ensures var s := State(map[foo := 5, yak := 1, baz := 5], 3);
            Step(s, OnRegisterCallsite([msg, shaved, yak])) == s
  {
    assert CounterNames([msg, shaved, yak]) == {yak};
    RegisterNoneNew(State(map[foo := 5, yak := 1, baz := 5], 3), [msg, shaved, yak]);
  }

  /** Creating the first span starts `foo_count` at 2 and hands out id 1. */
  lemma DemoFirstSpan(foo: string, yak: string, baz: string, shaved: string, msg: string)
    requires DemoNames(foo, yak, baz, shaved, msg)
    ensures var c := OnNewSpan([Field(foo, U64(2))]);
            var s := State(map[foo := 0], 1);
            Admissible(s, c) && Step(s, c) == State(map[foo := 2], 2)
  {
    var f := Field(foo, U64(2));
    VisitOne(map[foo := 0], f);
    VisitCounter(map[foo := 0], f);
  }

  /** The info event inside the first span takes `yak_count` from 0 to 1. */
  lemma DemoInfoEvent(foo: string, yak: string, baz: string, shaved: string, msg: string)
    requires DemoNames(foo, yak, baz, shaved, msg)
    ensures var c := OnEvent([Field(msg, Debug), Field(shaved, Bool(true)), Field(yak, I64(1))]);
            var s := State(map[foo := 2, yak := 0], 2);
            Admissible(s, c) && Step(s, c) == State(map[foo := 2, yak := 1], 2)
  {
    var m := map[foo := 2, yak := 0];
    var f0, f1, f2 := Field(msg, Debug), Field(shaved, Bool(true)), Field(yak, I64(1));
    VisitThree(m, f0, f1, f2);
    VisitCounter(m, f2);
  }

  /** The second span adds 3 to `foo_count` and 5 to `baz_count`. */
  lemma DemoSecondSpan(foo: string, yak: string, baz: string, shaved: string, msg: string)
    requires DemoNames(foo, yak, baz, shaved, msg)
    ensures var c := OnNewSpan([Field(foo, U64(3)), Field(baz, I64(5))]);
            var s := State(map[foo := 2, yak := 1, baz := 0], 2);
            Admissible(s, c) && Step(s, c) == State(map[foo := 5, yak := 1, baz := 5], 3)
  {
    var m := map[foo := 2, yak := 1, baz := 0];
    var g0, g1 := Field(foo, U64(3)), Field(baz, I64(5));
    VisitTwo(m, g0, g1);
    VisitCounter(m, g0);
    VisitCounter(VisitField(m, g0), g1);
    assert m[foo := 5][baz := 5] == map[foo := 5, yak := 1, baz := 5];
  }

  /** The warning inside the second span takes `yak_count` from 1 back to 0. */
  lemma DemoWarnEvent(foo: string, yak: string, baz: string, shaved: string, msg: string)
    requires DemoNames(foo, yak, baz, shaved, msg)
    ensures var c := OnEvent([Field(msg, Debug), Field(shaved, Bool(false)), Field(yak, I64(-1))]);
            var s := State(map[foo := 5, yak := 1, baz := 5], 3);
            Admissible(s, c) && Step(s, c) == State(map[foo := 5, yak := 0, baz := 5], 3)
  {
    var m := map[foo := 5, yak := 1, baz := 5];
    var f0, f1, f2 := Field(msg, Debug), Field(shaved, Bool(false)), Field(yak, I64(-1));
    VisitThree(m, f0, f1, f2);
    VisitCounter(m, f2);
    assert m[yak := 0] == map[foo := 5, yak := 0, baz := 5];
  }

  /** Inside the second span the warning takes `yak_count` back to 0. */
  lemma {:induction false} DemoSecondSpanBody(foo: string, yak: string, baz: string, shaved: string, msg: string)
    requires DemoNames(foo, yak, baz, shaved, msg)
    ensures AdmissibleTrace(State(map[foo := 5, yak := 1, baz := 5], 3), DemoInSecondSpan(yak, shaved, msg))
    ensures Run(State(map[foo := 5, yak := 1, baz := 5], 3), DemoInSecondSpan(yak, shaved, msg)).state
            == State(map[foo := 5, yak := 0, baz := 5], 3)
    ensures Run(State(map[foo := 5, yak := 1, baz := 5], 3), DemoInSecondSpan(yak, shaved, msg)).ids == []
  {
    var s := State(map[foo := 5, yak := 1, baz := 5], 3);
    var s' := State(map[foo := 5, yak := 0, baz := 5], 3);
    var names := [msg, shaved, yak];
    DemoRegisterWarn(foo, yak, baz, shaved, msg);
    DemoWarnEvent(foo, yak, baz, shaved, msg);
    var warn := OnEvent([Field(msg, Debug), Field(shaved, Bool(false)), Field(yak, I64(-1))]);
    var t := [OnExit(2)] + [OnExit(1)];
    RunStep(s', OnExit(1), s', []);
    assert [OnExit(1)] == [OnExit(1)] + [];
    RunStep(s', OnExit(2), s', [OnExit(1)]);
    RunStep(s, warn, s', t);
    RunStep(s, OnRegisterCallsite(names), s, [warn] + t);
  }

  /**
   Inside the first span the info event takes `yak_count` to 1 and the
   second span adds 3 to `foo_count` and 5 to the new `baz_count`; the
   second span gets id 2.
   */
  lemma {:induction false} DemoFirstSpanBody(foo: string, yak: string, baz: string, shaved: string, msg: string)
    requires DemoNames(foo, yak, baz, shaved, msg)
    ensures AdmissibleTrace(State(map[foo := 2], 2), DemoInFirstSpan(foo, yak, baz, shaved, msg))
    ensures Run(State(map[foo := 2], 2), DemoInFirstSpan(foo, yak, baz, shaved, msg)).state
            == State(map[foo := 5, yak := 0, baz := 5], 3)
    ensures Run(State(map[foo := 2], 2), DemoInFirstSpan(foo, yak, baz, shaved, msg)).ids == [2]
  {
    var s0 := State(map[foo := 2], 2);
    var s1 := State(map[foo := 2, yak := 0], 2);
    var s2 := State(map[foo := 2, yak := 1], 2);
    var s3 := State(map[foo := 2, yak := 1, baz := 0], 2);
    var s4 := State(map[foo := 5, yak := 1, baz := 5], 3);
    DemoSecondSpanBody(foo, yak, baz, shaved, msg);
    var t4 := [OnEnter(2)] + DemoInSecondSpan(yak, shaved, msg);
    RunStep(s4, OnEnter(2), s4, DemoInSecondSpan(yak, shaved, msg));

    DemoSecondSpan(foo, yak, baz, shaved, msg);
    var span := OnNewSpan([Field(foo, U64(3)), Field(baz, I64(5))]);
    RunStep(s3, span, s4, t4);
    var t3 := [span] + t4;

    DemoRegisterSecondSpan(foo, yak, baz, shaved, msg);
    RunStep(s2, OnRegisterCallsite([foo, baz]), s3, t3);
    var t2 := [OnRegisterCallsite([foo, baz])] + t3;

    DemoInfoEvent(foo, yak, baz, shaved, msg);
    var info := OnEvent([Field(msg, Debug), Field(shaved, Bool(true)), Field(yak, I64(1))]);
    RunStep(s1, info, s2, t2);
    var t1 := [info] + t2;

    DemoRegisterInfo(foo, yak, baz, shaved, msg);
    RunStep(s0, OnRegisterCallsite([msg, shaved, yak]), s1, t1);
  }
  /**
   The demo program from start to end: the spans get ids 1 and 2, and the
   counters finish at `foo_count` 5, `yak_count` 0 and `baz_count` 5.
   */
  lemma {:induction false} DemoRun(foo: string, yak: string, baz: string, shaved: string, msg: string)
    requires DemoNames(foo, yak, baz, shaved, msg)
    ensures AdmissibleTrace(Init(), DemoTrace(foo, yak, baz, shaved, msg))
    ensures Run(Init(), DemoTrace(foo, yak, baz, shaved, msg)).state == State(map[foo := 5, yak := 0, baz := 5], 3)
    ensures Run(Init(), DemoTrace(foo, yak, baz, shaved, msg)).ids == [1, 2]
  {
    var s1 := State(map[foo := 0], 1);
    var s2 := State(map[foo := 2], 2);
    var rest := DemoInFirstSpan(foo, yak, baz, shaved, msg);
    DemoFirstSpanBody(foo, yak, baz, shaved, msg);
    RunStep(s2, OnEnter(1), s2, rest);
    var f := Field(foo, U64(2));
    DemoFirstSpan(foo, yak, baz, shaved, msg);
    RunStep(s1, OnNewSpan([f]), s2, [OnEnter(1)] + rest);
    DemoRegisterFirstSpan(foo, yak, baz, shaved, msg);
    RunStep(Init(), OnRegisterCallsite([foo]), s1, [OnNewSpan([f])] + ([OnEnter(1)] + rest));
  }
}
