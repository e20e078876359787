/**
 * Python's ordering of strings (lexicographic by character code) and
 * `sorted(...)` over a list of strings, written as insertion sort.
 */
module Order {

  /** `a <= b` on Python strings. */
  predicate LessEq(a: string, b: string)
    decreases |a|
  {
    a == [] || (b != [] && (a[0] < b[0] || (a[0] == b[0] && LessEq(a[1..], b[1..]))))
  }

  lemma {:induction false} LessEqRefl(a: string)
    ensures LessEq(a, a)
    decreases |a|
  {
    if a != [] {
      LessEqRefl(a[1..]);
    }
  }

  lemma {:induction false} LessEqAntisym(a: string, b: string)
    requires LessEq(a, b) && LessEq(b, a)
    ensures a == b
    decreases |a|
  {
    if a != [] {
      LessEqAntisym(a[1..], b[1..]);
      assert a == [a[0]] + a[1..] && b == [b[0]] + b[1..];
    }
  }

  lemma {:induction false} LessEqTrans(a: string, b: string, c: string)
    requires LessEq(a, b) && LessEq(b, c)
    ensures LessEq(a, c)
    decreases |a|
  {
    if a != [] && a[0] == b[0] && b[0] == c[0] {
      LessEqTrans(a[1..], b[1..], c[1..]);
    }
  }

  lemma {:induction false} LessEqTotal(a: string, b: string)
    ensures LessEq(a, b) || LessEq(b, a)
    decreases |a|
  {
    if a != [] && b != [] && a[0] == b[0] {
      LessEqTotal(a[1..], b[1..]);
    }
  }

  predicate SortedStrings(xs: seq<string>) {
    forall i, j | 0 <= i < j < |xs| :: LessEq(xs[i], xs[j])
  }

  /** Insert `x` into a sorted list in front of the first element it precedes. */
  function Insert(x: string, xs: seq<string>): (r: seq<string>)
    requires SortedStrings(xs)
    ensures SortedStrings(r)
    ensures multiset(r) == multiset(xs) + multiset{x}
  {
    if xs == [] then [x]
    else if LessEq(x, xs[0]) then
      InsertFront(x, xs);
      [x] + xs
    else
      LessEqTotal(x, xs[0]);
      var rest := Insert(x, xs[1..]);
      assert xs == [xs[0]] + xs[1..];
      InsertBehind(xs[0], rest, xs[1..], x);
      [xs[0]] + rest
  }

  lemma InsertFront(x: string, xs: seq<string>)
    requires SortedStrings(xs) && xs != [] && LessEq(x, xs[0])
    ensures SortedStrings([x] + xs)
  {
    var r := [x] + xs;
    forall i, j | 0 <= i < j < |r| ensures LessEq(r[i], r[j]) {
      if i == 0 && j > 1 {
        LessEqTrans(x, xs[0], xs[j - 1]);
      }
    }
  }

  lemma InsertBehind(y: string, rest: seq<string>, xs: seq<string>, x: string)
    requires SortedStrings(rest) && SortedStrings([y] + xs) && LessEq(y, x)
    requires multiset(rest) == multiset(xs) + multiset{x}
    ensures SortedStrings([y] + rest)
  {
    var r := [y] + rest;
    forall i, j | 0 <= i < j < |r| ensures LessEq(r[i], r[j]) {
      if i == 0 {
        var z := rest[j - 1];
        assert z in multiset(rest);
        if z != x {
          assert z in multiset(xs);
          var m :| 0 <= m < |xs| && xs[m] == z;
          assert ([y] + xs)[0] == y && ([y] + xs)[m + 1] == z;
          assert LessEq(([y] + xs)[0], ([y] + xs)[m + 1]);
        }
        assert LessEq(y, z);
      } else {
        assert r[i] == rest[i - 1] && r[j] == rest[j - 1];
      }
    }
  }

  /** `sorted(xs)`: the same strings in ascending order. */
  function Sort(xs: seq<string>): (r: seq<string>)
    ensures SortedStrings(r)
    ensures multiset(r) == multiset(xs)
  {
    if xs == [] then []
    else
      assert xs == [xs[0]] + xs[1..];
      Insert(xs[0], Sort(xs[1..]))
  }

  /** The first element of a sorted list is at most every element of it. */
  lemma FirstIsLeast(xs: seq<string>, z: string)
    requires SortedStrings(xs) && z in xs
    ensures LessEq(xs[0], z)
  {
    var i :| 0 <= i < |xs| && xs[i] == z;
    if i == 0 {
      LessEqRefl(z);
    }
  }

  lemma SortedTail(xs: seq<string>)
    requires SortedStrings(xs) && xs != []
    ensures SortedStrings(xs[1..])
  {
    forall i, j | 0 <= i < j < |xs| - 1 ensures LessEq(xs[1..][i], xs[1..][j]) {
      assert xs[1..][i] == xs[i + 1] && xs[1..][j] == xs[j + 1];
    }
  }

  /** Two sorted arrangements of the same strings are the same list. */
  lemma {:induction false} SortedUnique(xs: seq<string>, ys: seq<string>)
    requires SortedStrings(xs) && SortedStrings(ys) && multiset(xs) == multiset(ys)
    ensures xs == ys
    decreases |xs|
  {
    if xs != [] {
      assert |ys| == |multiset(ys)| == |xs|;
      assert xs[0] in multiset(ys) && ys[0] in multiset(xs);
      FirstIsLeast(ys, xs[0]);
      FirstIsLeast(xs, ys[0]);
      LessEqAntisym(xs[0], ys[0]);
      var a, xt, yt := xs[0], xs[1..], ys[1..];
      assert xs == [a] + xt && ys == [a] + yt;
      assert multiset(xs) == multiset{a} + multiset(xt);
      assert multiset(ys) == multiset{a} + multiset(yt);
      forall z ensures multiset(xt)[z] == multiset(yt)[z] {
        assert multiset(xs)[z] == multiset{a}[z] + multiset(xt)[z];
        assert multiset(ys)[z] == multiset{a}[z] + multiset(yt)[z];
      }
      assert multiset(xt) == multiset(yt);
      SortedTail(xs);
      SortedTail(ys);
      SortedUnique(xt, yt);
    }
  }
}
