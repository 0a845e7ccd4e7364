/** Failure-compatible wrappers and a few sequence utilities shared by every
    other module of the model. */
module Base {

  /** A value that may be missing: SQL NULL, an absent JSON field, `undefined`. */
  datatype Option<+T> = None | Some(value: T) {
    function GetOr(default: T): T {
      match this
      case Some(v) => v
      case None => default
    }
  }

  /** The outcome of an operation that can fail with an error of type E. */
  datatype Result<+T, +E> = Ok(value: T) | Err(error: E)

  /** JavaScript truthiness of an optional string: `undefined`, `null` and `""` are falsy. */
  predicate PresentText(s: Option<string>) {
    s.Some? && |s.value| > 0
  }

  /** JavaScript truthiness of an optional integer: `undefined`, `null` and `0` are falsy. */
  predicate PresentId(n: Option<int>) {
    n.Some? && n.value != 0
  }

  /** A survey score: an integer from 1 to 10, the range both the schema's
      CHECK constraints and every handler's validation demand. */
  predicate InScoreRange(n: int) {
    1 <= n <= 10
  }

  /** `s || null` for a string: the empty string collapses to NULL. */
  function OrNull(s: Option<string>): (r: Option<string>)
    ensures r.Some? <==> PresentText(s)
    ensures r.Some? ==> r == s
  {
    if PresentText(s) then s else None
  }

  /** `s || fallback` for a string. */
  function OrDefault(s: Option<string>, fallback: string): (r: string)
    ensures PresentText(s) ==> r == s.value
    ensures !PresentText(s) ==> r == fallback
  {
    if PresentText(s) then s.value else fallback
  }

  /** The elements of `s` that satisfy `p`, in their original order. */
  function Filter<T(!new)>(s: seq<T>, p: T -> bool): (r: seq<T>)
    ensures |r| <= |s|
    ensures forall x :: x in r <==> x in s && p(x)
  {
    if |s| == 0 then []
    else
      assert s == [s[0]] + s[1..];
      if p(s[0]) then [s[0]] + Filter(s[1..], p) else Filter(s[1..], p)
  }

  /** Filtering only drops elements: it never repeats one. */
  lemma {:induction false} FilterSubMultiset<T(!new)>(s: seq<T>, p: T -> bool)
    ensures multiset(Filter(s, p)) <= multiset(s)
  {
    if |s| > 0 {
      FilterSubMultiset(s[1..], p);
      assert s == [s[0]] + s[1..];
    }
  }

  /** Filtering distributes over concatenation. */
  lemma {:induction false} FilterAppend<T(!new)>(a: seq<T>, b: seq<T>, p: T -> bool)
    ensures Filter(a + b, p) == Filter(a, p) + Filter(b, p)
  {
    if |a| == 0 {
      assert a + b == b;
    } else {
      assert (a + b)[1..] == a[1..] + b;
      FilterAppend(a[1..], b, p);
    }
  }

  /** The number of elements of `s` that satisfy `p`. */
  function Count<T(!new)>(s: seq<T>, p: T -> bool): (n: nat)
    ensures n == |Filter(s, p)|
    ensures n <= |s|
  {
    if |s| == 0 then 0
    else (if p(s[0]) then 1 else 0) + Count(s[1..], p)
  }

  /** Predicates that agree on every element filter alike. */
  lemma {:induction false} FilterSame<T(!new)>(s: seq<T>, p: T -> bool, q: T -> bool)
    requires forall x :: x in s ==> p(x) == q(x)
    ensures Filter(s, p) == Filter(s, q)
  {
    if |s| > 0 {
      assert s[0] in s;
      assert forall x :: x in s[1..] ==> x in s;
      FilterSame(s[1..], p, q);
    }
  }

  /** Some element satisfies `p` exactly when the count is positive. */
  lemma CountPositive<T(!new)>(s: seq<T>, p: T -> bool)
    ensures Count(s, p) > 0 <==> exists x :: x in s && p(x)
  {
    var f := Filter(s, p);
    if |f| > 0 {
      assert f[0] in f;
    }
  }

  /** Two sequences with the same multiset hold the same elements. */
  lemma SameMembers<T>(a: seq<T>, b: seq<T>)
    requires multiset(a) == multiset(b)
    ensures forall x :: x in a <==> x in b
  {
    forall x
      ensures x in a <==> x in b
    {
      assert x in a <==> x in multiset(a);
      assert x in b <==> x in multiset(b);
    }
  }

  /** The sum of `f` over the elements of `s`. */
  function Sum<T>(s: seq<T>, f: T -> int): int
  {
    if |s| == 0 then 0 else f(s[0]) + Sum(s[1..], f)
  }

  /** A sum of terms that are all at least zero is at least any one of them. */
  lemma {:induction false} SumAtLeastMember<T>(s: seq<T>, f: T -> int, x: T)
    requires forall y :: y in s ==> f(y) >= 0
    requires x in s
    ensures Sum(s, f) >= f(x)
  {
    if s[0] != x {
      SumAtLeastMember(s[1..], f, x);
    } else {
      SumNonNegative(s[1..], f);
    }
  }

  /** A sum of terms that are all at least zero is at least zero. */
  lemma {:induction false} SumNonNegative<T>(s: seq<T>, f: T -> int)
    requires forall y :: y in s ==> f(y) >= 0
    ensures Sum(s, f) >= 0
  {
    if |s| > 0 {
      SumNonNegative(s[1..], f);
    }
  }

  /** Filtering on a stronger condition sums no more, when every term the
      weaker condition keeps is at least zero. */
  lemma {:induction false} SumFilterMono<T(!new)>(s: seq<T>, p: T -> bool, q: T -> bool, f: T -> int)
    requires forall x :: x in s && q(x) ==> p(x)
    requires forall x :: x in s && p(x) ==> f(x) >= 0
    ensures Sum(Filter(s, q), f) <= Sum(Filter(s, p), f)
  {
    if |s| > 0 {
      assert s == [s[0]] + s[1..];
      SumFilterMono(s[1..], p, q, f);
      var fp, fq := Filter(s[1..], p), Filter(s[1..], q);
      assert ([s[0]] + fp)[1..] == fp;
      assert ([s[0]] + fq)[1..] == fq;
    }
  }

  /** Filtering keeps a key that was distinct across the sequence distinct. */
  lemma {:induction false} FilterDistinct<T(!new), K>(s: seq<T>, key: T -> K, p: T -> bool)
    requires forall i, j :: 0 <= i < j < |s| ==> key(s[i]) != key(s[j])
    ensures forall i, j :: 0 <= i < j < |Filter(s, p)| ==> key(Filter(s, p)[i]) != key(Filter(s, p)[j])
  {
    if |s| > 0 {
      FilterDistinct(s[1..], key, p);
      var t := Filter(s[1..], p);
      if p(s[0]) {
        var r := Filter(s, p);
        assert r == [s[0]] + t;
        forall j | 0 < j < |r|
          ensures key(r[0]) != key(r[j])
        {
          assert r[j] in t;
          var k :| 0 <= k < |s[1..]| && s[1..][k] == r[j];
          assert s[k + 1] == r[j];
        }
        forall i, j | 0 < i < j < |r|
          ensures key(r[i]) != key(r[j])
        {
          assert r[i] == t[i - 1] && r[j] == t[j - 1];
          assert 0 <= i - 1 < j - 1 < |t|;
        }
      }
    }
  }
}
