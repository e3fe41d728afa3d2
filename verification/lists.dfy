/** Kotlin's `List.filter`, which every filter of the app is built on, and
    the facts about it that the filters inherit. */
module Lists {
  import opened Wrappers

  /** `s.filter(p)`: the elements satisfying `p`, in their original order. */
  function Filter<T>(s: seq<T>, p: T -> bool): (r: seq<T>)
    ensures |r| <= |s|
    ensures forall i :: 0 <= i < |r| ==> p(r[i]) && r[i] in s
  {
    if |s| == 0 then []
    else (if p(s[0]) then [s[0]] else []) + Filter(s[1..], p)
  }

  /** `a` can be obtained from `b` by deleting elements. */
  predicate IsSubsequence<T(==)>(a: seq<T>, b: seq<T>)
    decreases |b|
  {
    |a| == 0 ||
    (|b| > 0 && ((a[0] == b[0] && IsSubsequence(a[1..], b[1..])) || IsSubsequence(a, b[1..])))
  }

  lemma {:induction false} FilterIsSubsequence<T>(s: seq<T>, p: T -> bool)
    ensures IsSubsequence(Filter(s, p), s)
  {
    if |s| > 0 {
      FilterIsSubsequence(s[1..], p);
      if p(s[0]) {
        assert Filter(s, p)[1..] == Filter(s[1..], p);
      } else {
        assert Filter(s, p) == Filter(s[1..], p);
      }
    }
  }

  /** An element survives the filter exactly when it is in the input and satisfies `p`. */
  lemma {:induction false} FilterMembership<T>(s: seq<T>, p: T -> bool, x: T)
    ensures x in Filter(s, p) <==> x in s && p(x)
  {
    if |s| > 0 {
      FilterMembership(s[1..], p, x);
      assert x in s <==> x == s[0] || x in s[1..];
    }
  }

  /** Filtering keeps the input unchanged when every element passes. */
  lemma {:induction false} FilterAllPass<T>(s: seq<T>, p: T -> bool)
    requires forall i :: 0 <= i < |s| ==> p(s[i])
    ensures Filter(s, p) == s
  {
    if |s| > 0 {
      FilterAllPass(s[1..], p);
      assert [s[0]] + s[1..] == s;
    }
  }

  /** Filtering twice with two predicates is filtering once with their
      conjunction `both`. */
  lemma {:induction false} FilterTwice<T>(s: seq<T>, p: T -> bool, q: T -> bool, both: T -> bool)
    requires forall x :: both(x) == (p(x) && q(x))
    ensures Filter(Filter(s, p), q) == Filter(s, both)
  {
    if |s| > 0 {
      FilterTwice(s[1..], p, q, both);
      var head := if p(s[0]) then [s[0]] else [];
      FilterAppend(head, Filter(s[1..], p), q);
      if p(s[0]) {
        assert Filter(head, q) == if q(s[0]) then [s[0]] else [];
      }
    }
  }

  lemma {:induction false} FilterAppend<T>(a: seq<T>, b: seq<T>, p: T -> bool)
    ensures Filter(a + b, p) == Filter(a, p) + Filter(b, p)
  {
    if |a| > 0 {
      assert (a + b)[1..] == a[1..] + b;
      FilterAppend(a[1..], b, p);
    } else {
      assert a + b == b;
    }
  }

  /** Predicates that agree on every element filter alike. */
  lemma {:induction false} FilterExtensional<T>(s: seq<T>, p: T -> bool, q: T -> bool)
    requires forall x :: p(x) == q(x)
    ensures Filter(s, p) == Filter(s, q)
  {
    if |s| > 0 {
      FilterExtensional(s[1..], p, q);
    }
  }

  /** Filtering twice with the same predicate is the same as filtering once. */
  lemma FilterIdempotent<T>(s: seq<T>, p: T -> bool)
    ensures Filter(Filter(s, p), p) == Filter(s, p)
  {
    FilterAllPass(Filter(s, p), p);
  }

  /** The values of the elements of `records` that `decode` accepts. */
  ghost function DecodedSet<T, E>(records: set<string>, decode: string -> Result<T, E>): set<T>
  {
    set s | s in records && decode(s).Success? :: decode(s).value
  }

  /** `order` lists every element of `records` exactly once. */
  ghost predicate Enumerates(order: seq<string>, records: set<string>)
  {
    && |order| == |records|
    && (forall s :: s in order <==> s in records)
    && (forall i, j :: 0 <= i < j < |order| ==> order[i] != order[j])
  }

  /** `values[i]` is what `decode` reads from `order[i]`, position by position. */
  ghost predicate DecodedInOrder<T, E>(order: seq<string>, decode: string -> Result<T, E>, values: seq<T>)
  {
    |values| == |order| && forall i :: 0 <= i < |order| ==> decode(order[i]) == Success(values[i])
  }

  /** Visiting one more, new, record extends the enumeration. */
  lemma EnumeratesSnoc(order: seq<string>, visited: set<string>, s: string)
    requires Enumerates(order, visited) && s !in visited
    ensures Enumerates(order + [s], visited + {s})
  {
    assert |visited + {s}| == |visited| + 1;
  }

  /** Decoding one more record extends the positional decoding. */
  lemma DecodedInOrderSnoc<T, E>(order: seq<string>, decode: string -> Result<T, E>, values: seq<T>, s: string, t: T)
    requires DecodedInOrder(order, decode, values) && decode(s) == Success(t)
    ensures DecodedInOrder(order + [s], decode, values + [t])
  {
  }

  /** A positional decoding of an enumeration holds exactly the decoded values of the set. */
  lemma DecodedInOrderValues<T, E>(order: seq<string>, records: set<string>, decode: string -> Result<T, E>, values: seq<T>)
    requires Enumerates(order, records) && DecodedInOrder(order, decode, values)
    ensures forall x :: x in values <==> x in DecodedSet(records, decode)
  {
    forall x | x in DecodedSet(records, decode) ensures x in values {
      var s :| s in records && decode(s).Success? && x == decode(s).value;
      var i :| 0 <= i < |order| && order[i] == s;
      assert values[i] == x;
    }
  }

  /** `records.map(decode)` over a string set, where `decode` may throw: the
      elements are visited in the set's own (unspecified) order, recorded in
      `order`, each once, and the first failure ends the whole call. On
      success the i-th value is the decoding of the i-th visited record. */
  method MapSet<T, E>(records: set<string>, decode: string -> Result<T, E>)
    returns (r: Result<seq<T>, E>, ghost order: seq<string>)
    ensures r.Success? <==> forall s :: s in records ==> decode(s).Success?
    ensures r.Failure? ==> exists s :: s in records && decode(s) == Failure(r.error)
    ensures r.Success? ==> Enumerates(order, records) && DecodedInOrder(order, decode, r.value)
    ensures r.Success? ==> |r.value| == |records|
    ensures r.Success? ==> forall x :: x in r.value <==> x in DecodedSet(records, decode)
  {
    var remaining := records;
    var mapped: seq<T> := [];
    order := [];
    while remaining != {}
      invariant remaining <= records
      invariant forall s :: s in records - remaining ==> decode(s).Success?
      invariant Enumerates(order, records - remaining)
      invariant DecodedInOrder(order, decode, mapped)
      decreases remaining
    {
      var s :| s in remaining;
      match decode(s)
      case Failure(e) =>
        return Failure(e), order;
      case Success(t) =>
        assert records - (remaining - {s}) == (records - remaining) + {s};
        EnumeratesSnoc(order, records - remaining, s);
        DecodedInOrderSnoc(order, decode, mapped, s, t);
        mapped := mapped + [t];
        order := order + [s];
        remaining := remaining - {s};
    }
    assert records - remaining == records;
    DecodedInOrderValues(order, records, decode, mapped);
    r := Success(mapped);
  }
}
