/**
 The counter store and the field visitor (`Count`) of the counters
 subscriber. The store maps a counter name to a 64-bit word; visiting an
 integer field updates the counter whose name equals the field name, if
 there is one, and every other kind of value is ignored.
 */
module Counters {
  import opened Wrapping

  /** The value kinds a field can offer its visitor. */
  datatype Value =
    | I64(i: I64)
    | U64(u: Word)
    | Bool(b: bool)
    | Str(s: string)
    | Debug
  {
    /** Only integer values ever reach a counter. */
    predicate IsInteger() {
      I64? || U64?
    }

    /** The signed amount the value contributes to a counter. */
    function Amount(): int {
      match this
      case I64(v) => v
      case U64(v) => v
      case _ => 0
    }

    /** The amount as the word the atomic counter adds, modulo 2^64. */
    function Delta(): (d: Word)
      ensures d == Reduce(Amount())
    {
      match this
      case I64(v) => BitsIsReduce(v); Bits(v)
      case U64(v) => v
      case _ => 0
    }
  }

  /** A named field of a span or an event. */
  datatype Field = Field(name: string, value: Value)

  /** The shared map from counter name to counter value. */
  type Store = map<string, Word>

  /**
   Visiting `f` does not negate `i64::MIN`: the negation happens only when
   a counter named `f.name` exists and the value is not positive.
   */
  predicate SafeField(keys: set<string>, f: Field) {
    !(f.name in keys && f.value == I64(I64_MIN))
  }

  predicate SafeFields(keys: set<string>, fields: seq<Field>) {
    forall i :: 0 <= i < |fields| ==> SafeField(keys, fields[i])
  }

  /** Some integer field in `fields` is named `k`. */
  ghost predicate Updates(fields: seq<Field>, k: string) {
    exists i :: 0 <= i < |fields| && fields[i].name == k && fields[i].value.IsInteger()
  }

  /**
   One `record_*` call of the visitor. A positive `i64` is added, a zero or
   negative one has its magnitude subtracted, a `u64` is added, and the
   arithmetic wraps as the atomic word does; booleans, strings and debug
   values are dropped.
   */
  function VisitField(m: Store, f: Field): (r: Store)
    requires SafeField(m.Keys, f)
    ensures r.Keys == m.Keys
    ensures forall k :: k in m && k != f.name ==> r[k] == m[k]
    ensures f.name in m ==> r[f.name] == WrappingAdd(m[f.name], f.value.Delta())
    ensures !f.value.IsInteger() ==> r == m
  {
    match f.value
    case I64(v) =>
      if f.name !in m then m
      else if v > 0 then m[f.name := WrappingAdd(m[f.name], v)]
      else
        SubMagnitudeIsAddBits(m[f.name], v);
        m[f.name := WrappingSub(m[f.name], -v)]
    case U64(v) =>
      if f.name !in m then m
      else m[f.name := WrappingAdd(m[f.name], v)]
    case Bool(_) => m
    case Str(_) => m
    case Debug => m
  }

  /**
   A visit pass: the host framework offers the fields to the visitor one
   after another, in order. The set of counters never changes.
   */
  function Visit(m: Store, fields: seq<Field>): (r: Store)
    requires SafeFields(m.Keys, fields)
    ensures r.Keys == m.Keys
    decreases |fields|
  {
    if fields == [] then m
    else
      var m' := VisitField(m, fields[0]);
      assert SafeFields(m'.Keys, fields[1..]) by {
        assert forall i :: 0 <= i < |fields[1..]| ==> fields[1..][i] == fields[i + 1];
      }
      Visit(m', fields[1..])
  }

  /** A counter that no integer field of the pass names keeps its value. */
  lemma {:induction false} VisitFrame(m: Store, fields: seq<Field>)
    requires SafeFields(m.Keys, fields)
    ensures forall k :: k in m && !Updates(fields, k) ==> Visit(m, fields)[k] == m[k]
    decreases |fields|
  {
    if fields != [] {
      var m' := VisitField(m, fields[0]);
      assert forall i :: 0 <= i < |fields[1..]| ==> fields[1..][i] == fields[i + 1];
      VisitFrame(m', fields[1..]);
      assert forall k :: Updates(fields[1..], k) ==> Updates(fields, k) by {
        forall k | Updates(fields[1..], k)
          ensures Updates(fields, k)
        {
          var i :| 0 <= i < |fields[1..]| && fields[1..][i].name == k && fields[1..][i].value.IsInteger();
          assert fields[i + 1] == fields[1..][i];
        }
      }
      assert fields[0].value.IsInteger() ==> Updates(fields, fields[0].name);
    }
  }
}
