/** List helpers shared by the parsers and the aggregations. */
module Lists {

  /** Python's `[y for x in xs for y in f(x)]`: each element's results, in order. */
  function FlatMap<A, B>(f: A -> seq<B>, xs: seq<A>): seq<B> {
    if xs == [] then [] else f(xs[0]) + FlatMap(f, xs[1..])
  }

  lemma {:induction false} FlatMapAppend<A, B>(f: A -> seq<B>, xs: seq<A>, x: A)
    ensures FlatMap(f, xs + [x]) == FlatMap(f, xs) + f(x)
  {
    if xs == [] {
      assert FlatMap(f, [x]) == f(x) + FlatMap(f, []);
    } else {
      FlatMapAppend(f, xs[1..], x);
      assert (xs + [x])[1..] == xs[1..] + [x];
    }
  }

  /** When each element yields exactly `ys[k]`, the whole list yields `ys`. */
  lemma {:induction false} FlatMapPointwise<A, B>(f: A -> seq<B>, xs: seq<A>, ys: seq<B>)
    requires |xs| == |ys|
    requires forall k | 0 <= k < |xs| :: f(xs[k]) == [ys[k]]
    ensures FlatMap(f, xs) == ys
  {
    if xs != [] {
      FlatMapPointwise(f, xs[1..], ys[1..]);
    }
  }

  /** When each element yields at most one result, there are no more results than elements. */
  lemma {:induction false} FlatMapAtMostOne<A, B>(f: A -> seq<B>, xs: seq<A>)
    requires forall k | 0 <= k < |xs| :: |f(xs[k])| <= 1
    ensures |FlatMap(f, xs)| <= |xs|
  {
    if xs != [] {
      FlatMapAtMostOne(f, xs[1..]);
    }
  }

  /** When no element yields anything, the result is empty. */
  lemma {:induction false} FlatMapNone<A, B>(f: A -> seq<B>, xs: seq<A>)
    requires forall k | 0 <= k < |xs| :: f(xs[k]) == []
    ensures FlatMap(f, xs) == []
  {
    if xs != [] {
      FlatMapNone(f, xs[1..]);
    }
  }

  predicate Distinct<T(==)>(xs: seq<T>) {
    forall a, b | 0 <= a < b < |xs| :: xs[a] != xs[b]
  }

  /** In a list without repeats every value occurs at most once. */
  lemma {:induction false} DistinctCount<T>(xs: seq<T>, v: T)
    requires Distinct(xs)
    ensures multiset(xs)[v] <= 1
  {
    if xs != [] {
      assert xs == [xs[0]] + xs[1..];
      assert Distinct(xs[1..]) by {
        forall a, b | 0 <= a < b < |xs| - 1 ensures xs[1..][a] != xs[1..][b] {
          assert xs[1..][a] == xs[a + 1] && xs[1..][b] == xs[b + 1];
        }
      }
      DistinctCount(xs[1..], v);
      if xs[0] == v {
        assert v !in xs[1..] by {
          forall k | 0 <= k < |xs| - 1 ensures xs[1..][k] != v {
            assert xs[1..][k] == xs[k + 1];
          }
        }
      }
    }
  }

  /** A rearrangement of a list without repeats has none either. */
  lemma DistinctPermutation<T>(xs: seq<T>, ys: seq<T>)
    requires Distinct(xs) && multiset(xs) == multiset(ys)
    ensures Distinct(ys)
  {
    forall a, b | 0 <= a < b < |ys| ensures ys[a] != ys[b] {
      if ys[a] == ys[b] {
        var v := ys[a];
        assert ys == ys[..a] + [v] + ys[a + 1..b] + [v] + ys[b + 1..];
        assert multiset(ys)[v] >= 2;
        DistinctCount(xs, v);
      }
    }
  }
}
