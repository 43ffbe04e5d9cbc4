/**
 What a visit pass does to a counter, stated against an independent
 reference: the signed sum of the integer values of the fields named after
 it, reduced modulo 2^64. From that sum follow accumulation across passes
 and independence from the order in which updates arrive.
 */
module VisitProperties {
  import opened Wrapping
  import opened Counters

  /** The signed amount `f` contributes to the counter named `k`. */
  function AmountFor(f: Field, k: string): int {
    if f.name == k then f.value.Amount() else 0
  }

  /** The signed sum of all amounts `fields` contribute to the counter named `k`. */
  function SumFor(fields: seq<Field>, k: string): int
    decreases |fields|
  {
    if fields == [] then 0 else AmountFor(fields[0], k) + SumFor(fields[1..], k)
  }

  /** The word `f` adds to the counter named `k`. */
  function DeltaFor(f: Field, k: string): Word {
    if f.name == k then f.value.Delta() else 0
  }

  /** The same sum computed with wrap-around after every term. */
  function WordSumFor(fields: seq<Field>, k: string): Word
    decreases |fields|
  {
    if fields == [] then 0 else WrappingAdd(DeltaFor(fields[0], k), WordSumFor(fields[1..], k))
  }

  /** Wrapping after every term or once at the end gives the same word. */
  lemma {:induction false} WordSumIsReducedSum(fields: seq<Field>, k: string)
    ensures WordSumFor(fields, k) == Reduce(SumFor(fields, k))
    decreases |fields|
  {
    if fields != [] {
      WordSumIsReducedSum(fields[1..], k);
      var f := fields[0];
      assert DeltaFor(f, k) == Reduce(AmountFor(f, k));
      WrappingAddOfReduce(AmountFor(f, k), SumFor(fields[1..], k));
    }
  }

  lemma {:induction false} WordSumAppend(a: seq<Field>, b: seq<Field>, k: string)
    ensures WordSumFor(a + b, k) == WrappingAdd(WordSumFor(a, k), WordSumFor(b, k))
    decreases |a|
  {
    if a == [] {
      assert a + b == b;
    } else {
      assert (a + b)[1..] == a[1..] + b;
      WordSumAppend(a[1..], b, k);
      WrappingAddAssociates(DeltaFor(a[0], k), WordSumFor(a[1..], k), WordSumFor(b, k));
    }
  }

  /** The first step of a pass, taken on its own. */
  lemma VisitUnfold(m: Store, fields: seq<Field>)
    requires SafeFields(m.Keys, fields)
    requires fields != []
    ensures SafeFields(VisitField(m, fields[0]).Keys, fields[1..])
    ensures Visit(m, fields) == Visit(VisitField(m, fields[0]), fields[1..])
  {
    assert forall i :: 0 <= i < |fields[1..]| ==> fields[1..][i] == fields[i + 1];
  }

  lemma {:induction false} VisitAddsWordSum(m: Store, fields: seq<Field>, k: string)
    requires SafeFields(m.Keys, fields)
    requires k in m
    ensures Visit(m, fields)[k] == WrappingAdd(m[k], WordSumFor(fields, k))
    decreases |fields|
  {
    if fields != [] {
      var m' := VisitField(m, fields[0]);
      VisitUnfold(m, fields);
      VisitAddsWordSum(m', fields[1..], k);
      assert m'[k] == WrappingAdd(m[k], DeltaFor(fields[0], k));
      WrappingAddAssociates(m[k], DeltaFor(fields[0], k), WordSumFor(fields[1..], k));
    }
  }

  /**
   Amounts are summed, never overwritten: after a visit pass each counter
   holds its start value plus the signed sum of the integer fields named
   after it, modulo 2^64.
   */
  lemma {:induction false} VisitAccumulates(m: Store, fields: seq<Field>, k: string)
    requires SafeFields(m.Keys, fields)
    requires k in m
    ensures Visit(m, fields)[k] == WrappingAdd(m[k], Reduce(SumFor(fields, k)))
  {
    VisitAddsWordSum(m, fields, k);
    WordSumIsReducedSum(fields, k);
  }

  /** Two stores with the same counters holding the same values are equal. */
  lemma SameStore(l: Store, r: Store)
    requires l.Keys == r.Keys
    requires forall k :: k in l ==> l[k] == r[k]
    ensures l == r
  {
  }

  /** Two passes in a row act as one pass over both field lists. */
  lemma {:induction false} VisitAppend(m: Store, a: seq<Field>, b: seq<Field>)
    requires SafeFields(m.Keys, a + b)
    ensures SafeFields(m.Keys, a) && SafeFields(Visit(m, a).Keys, b)
    ensures Visit(m, a + b) == Visit(Visit(m, a), b)
  {
    assert forall i :: 0 <= i < |a| ==> a[i] == (a + b)[i];
    assert forall i :: 0 <= i < |b| ==> b[i] == (a + b)[|a| + i];
    var left := Visit(m, a + b);
    var right := Visit(Visit(m, a), b);
    forall k | k in m
      ensures left[k] == right[k]
    {
      VisitAppendAt(m, a, b, k);
    }
    SameStore(left, right);
  }

  lemma {:induction false} VisitAppendAt(m: Store, a: seq<Field>, b: seq<Field>, k: string)
    requires SafeFields(m.Keys, a + b)
    requires SafeFields(m.Keys, a) && SafeFields(m.Keys, b)
    requires k in m
    ensures Visit(m, a + b)[k] == Visit(Visit(m, a), b)[k]
  {
    var mid := Visit(m, a);
    VisitAddsWordSum(m, a + b, k);
    VisitAddsWordSum(m, a, k);
    VisitAddsWordSum(mid, b, k);
    WordSumAppend(a, b, k);
    WrappingAddAssociates(m[k], WordSumFor(a, k), WordSumFor(b, k));
  }

  lemma {:induction false} WordSumPermutation(fs: seq<Field>, gs: seq<Field>, k: string)
    requires multiset(fs) == multiset(gs)
    ensures WordSumFor(fs, k) == WordSumFor(gs, k)
    decreases |fs|
  {
    if fs == [] {
      assert |gs| == |multiset(gs)| == 0;
    } else {
      var j := IndexIn(fs[0], fs, gs);
      var rest := RemoveAt(gs, j, k);
      TailMultiset(fs);
      WordSumPermutation(fs[1..], rest, k);
    }
  }

  /** An element of `fs` has a position in any permutation `gs` of it. */
  lemma IndexIn(x: Field, fs: seq<Field>, gs: seq<Field>) returns (j: int)
    requires x in fs
    requires multiset(fs) == multiset(gs)
    ensures 0 <= j < |gs| && gs[j] == x
  {
    assert x in multiset(fs);
    assert x in gs;
    j :| 0 <= j < |gs| && gs[j] == x;
  }

  lemma TailMultiset(fs: seq<Field>)
    requires fs != []
    ensures multiset(fs[1..]) == multiset(fs) - multiset{fs[0]}
  {
    assert fs == [fs[0]] + fs[1..];
  }

  /** `gs` without its element at `j`, which contributes its word to the sum separately. */
  lemma {:induction false} RemoveAt(gs: seq<Field>, j: int, k: string) returns (rest: seq<Field>)
    requires 0 <= j < |gs|
    ensures multiset(rest) == multiset(gs) - multiset{gs[j]}
    ensures WordSumFor(gs, k) == WrappingAdd(DeltaFor(gs[j], k), WordSumFor(rest, k))
  {
    rest := gs[..j] + gs[j + 1..];
    var before := gs[..j];
    var after := gs[j + 1..];
    assert gs == before + ([gs[j]] + after);
    WordSumAppend(before, [gs[j]] + after, k);
    WordSumAppend(before, after, k);
    assert ([gs[j]] + after)[1..] == after;
    var x := WordSumFor(before, k);
    var d := DeltaFor(gs[j], k);
    var y := WordSumFor(after, k);
    WrappingAddAssociates(x, d, y);
    WrappingAddCommutes(x, d);
    WrappingAddAssociates(d, x, y);
  }

  /**
   Any reordering of the same updates leaves the store in the same state:
   concurrent `fetch_add`/`fetch_sub` calls may interleave in any order and
   the final counters are the same.
   */
  lemma {:induction false} VisitOrderIrrelevant(m: Store, fs: seq<Field>, gs: seq<Field>)
    requires multiset(fs) == multiset(gs)
    requires SafeFields(m.Keys, fs)
    ensures SafeFields(m.Keys, gs)
    ensures Visit(m, fs) == Visit(m, gs)
  {
    forall i | 0 <= i < |gs|
      ensures SafeField(m.Keys, gs[i])
    {
      assert gs[i] in multiset(fs);
    }
    var left := Visit(m, fs);
    var right := Visit(m, gs);
    forall k | k in m
      ensures left[k] == right[k]
    {
      VisitAddsWordSum(m, fs, k);
      VisitAddsWordSum(m, gs, k);
      WordSumPermutation(fs, gs, k);
    }
    SameStore(left, right);
  }
}
