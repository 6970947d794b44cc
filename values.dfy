/** Python's `None`-or-value and the exceptions a call may raise, as values. */
module Values {

  /** A value that Python may leave as `None`. */
  datatype Option<+T> = None | Some(value: T)

  /** The outcome of a Python call: its return value or the exception it raises. */
  datatype Result<+T, +E> = Ok(value: T) | Err(error: E) {
    predicate IsFailure() { Err? }

    function PropagateFailure<U>(): Result<U, E>
      requires Err?
    {
      Err(error)
    }

    function Extract(): T
      requires Ok?
    {
      value
    }
  }

  /** Python truthiness of an optional string: present and not empty. */
  predicate TruthyText(s: Option<string>) {
    s.Some? && s.value != ""
  }

  /** Python truthiness of an optional int: present and not zero. */
  predicate TruthyInt(n: Option<int>) {
    n.Some? && n.value != 0
  }

  /** Python truthiness of an optional list: present and not empty. */
  predicate TruthyList<T>(xs: Option<seq<T>>) {
    xs.Some? && xs.value != []
  }

  /** `d.get(k)` on a dictionary whose values may themselves be `None`. */
  function GetOrNone<K, V>(d: map<K, Option<V>>, k: K): Option<V> {
    if k in d then d[k] else None
  }

  /** `filter(p, xs)` as a list: the elements that satisfy `p`, in order. */
  function Filter<T>(p: T -> bool, xs: seq<T>): (r: seq<T>)
    ensures |r| <= |xs|
    decreases |xs|
  {
    if xs == [] then []
    else Filter(p, xs[..|xs| - 1]) + (if p(xs[|xs| - 1]) then [xs[|xs| - 1]] else [])
  }

  /** Filtering keeps every element that satisfies `p`. */
  lemma {:induction false} FilterKeeps<T>(p: T -> bool, xs: seq<T>, x: T)
    requires x in xs && p(x)
    ensures x in Filter(p, xs)
    decreases |xs|
  {
    var init := xs[..|xs| - 1];
    if x != xs[|xs| - 1] {
      assert xs == init + [xs[|xs| - 1]];
      FilterKeeps(p, init, x);
    }
  }

  /** Filtering a concatenation filters each part, keeping their order. */
  lemma {:induction false} FilterAppend<T>(p: T -> bool, xs: seq<T>, ys: seq<T>)
    ensures Filter(p, xs + ys) == Filter(p, xs) + Filter(p, ys)
    decreases |ys|
  {
    if ys != [] {
      var init := ys[..|ys| - 1];
      assert (xs + ys)[..|xs + ys| - 1] == xs + init;
      FilterAppend(p, xs, init);
    } else {
      assert xs + ys == xs;
    }
  }

  /** Filtering by a predicate every element satisfies keeps everything. */
  lemma {:induction false} FilterAll<T>(p: T -> bool, xs: seq<T>)
    requires forall i | 0 <= i < |xs| :: p(xs[i])
    ensures Filter(p, xs) == xs
    decreases |xs|
  {
    if xs != [] {
      FilterAll(p, xs[..|xs| - 1]);
    }
  }

  /** Filtering by a predicate no element satisfies keeps nothing. */
  lemma {:induction false} FilterNone<T>(p: T -> bool, xs: seq<T>)
    requires forall i | 0 <= i < |xs| :: !p(xs[i])
    ensures Filter(p, xs) == []
    decreases |xs|
  {
    if xs != [] {
      FilterNone(p, xs[..|xs| - 1]);
    }
  }

  /** Filtering by a predicate and by its negation splits a sequence: every
      element lands in exactly one of the two parts. */
  lemma {:induction false} FilterPartition<T>(p: T -> bool, q: T -> bool, xs: seq<T>)
    requires forall x :: q(x) == !p(x)
    ensures multiset(Filter(p, xs)) + multiset(Filter(q, xs)) == multiset(xs)
    decreases |xs|
  {
    if xs != [] {
      var init := xs[..|xs| - 1];
      FilterPartition(p, q, init);
      assert xs == init + [xs[|xs| - 1]];
    }
  }

  /** What filtering keeps comes from the input and satisfies the predicate. */
  lemma {:induction false} FilterSubset<T>(p: T -> bool, xs: seq<T>)
    ensures forall x | x in Filter(p, xs) :: x in xs && p(x)
    decreases |xs|
  {
    if xs != [] {
      var init := xs[..|xs| - 1];
      FilterSubset(p, init);
      assert forall x | x in init :: x in xs;
    }
  }

  /** Filtering keeps nothing only when no element satisfies the predicate. */
  lemma FilterEmpty<T>(p: T -> bool, xs: seq<T>)
    requires Filter(p, xs) == []
    ensures forall i | 0 <= i < |xs| :: !p(xs[i])
  {
    forall i | 0 <= i < |xs| && p(xs[i])
      ensures false
    {
      FilterKeeps(p, xs, xs[i]);
    }
  }

  /** Filtering keeps exactly a middle block that alone satisfies `p`. */
  lemma FilterMiddle<T>(p: T -> bool, a: seq<T>, b: seq<T>, c: seq<T>)
    requires forall i | 0 <= i < |a| :: !p(a[i])
    requires forall i | 0 <= i < |b| :: p(b[i])
    requires forall i | 0 <= i < |c| :: !p(c[i])
    ensures Filter(p, a + b + c) == b
  {
    FilterAppend(p, a, b);
    FilterNone(p, a);
    FilterAll(p, b);
    assert Filter(p, a + b) == b;
    FilterAppend(p, a + b, c);
    FilterNone(p, c);
  }

  /** Filtering drops exactly a middle block that alone fails `p`. */
  lemma FilterOutside<T>(p: T -> bool, a: seq<T>, b: seq<T>, c: seq<T>)
    requires forall i | 0 <= i < |a| :: p(a[i])
    requires forall i | 0 <= i < |b| :: !p(b[i])
    requires forall i | 0 <= i < |c| :: p(c[i])
    ensures Filter(p, a + b + c) == a + c
  {
    FilterAppend(p, a, b);
    FilterAll(p, a);
    FilterNone(p, b);
    assert Filter(p, a + b) == a;
    FilterAppend(p, a + b, c);
    FilterAll(p, c);
  }

  /** A sequence is its three slices at `i` and `j`, one after the other. */
  lemma SliceThree<T>(xs: seq<T>, i: nat, j: nat)
    requires i <= j <= |xs|
    ensures xs[..i] + xs[i..j] + xs[j..] == xs
  {
    assert xs[..i] + xs[i..j] == xs[..j];
  }
}
