/**
 * Python's `str.strip()`, `str.split(sep)`, `sep.join(xs)` and
 * `str.replace(a, b)` on strings modelled as `seq<char>`, for the
 * one-character separators the dashboards use.
 */
module Text {

  /**
   * The ASCII characters Python's `str.isspace` accepts: space, tab, the
   * line and page breaks, and the four separators U+001C to U+001F.
   */
  predicate IsSpace(c: char) {
    c == ' ' || c == '\t' || c == '\n' || c == '\r' || c == '\U{000B}' || c == '\U{000C}' ||
    ('\U{001C}' <= c <= '\U{001F}')
  }

  predicate AllSpace(s: string) {
    forall i | 0 <= i < |s| :: IsSpace(s[i])
  }

  /** True when `s` has no whitespace at either end (what `strip` leaves). */
  predicate IsStripped(s: string) {
    s == [] || (!IsSpace(s[0]) && !IsSpace(s[|s| - 1]))
  }

  /** `s.lstrip()`: drops leading whitespace only. */
  function LStrip(s: string): (r: string)
    ensures |r| <= |s|
    ensures r == [] || !IsSpace(r[0])
  {
    if s != [] && IsSpace(s[0]) then LStrip(s[1..]) else s
  }

  /** What `lstrip` drops is whitespace, and what it keeps is a suffix. */
  lemma {:induction false} LStripShape(s: string)
    ensures LStrip(s) == s[|s| - |LStrip(s)|..]
    ensures AllSpace(s[..|s| - |LStrip(s)|])
  {
    if s != [] && IsSpace(s[0]) {
      LStripShape(s[1..]);
      var n := |s| - |LStrip(s)|;
      assert s[1..][n - 1..] == s[n..];
      assert forall k | 1 <= k < n :: s[k] == s[1..][..n - 1][k - 1];
    }
  }

  /** A string is the whitespace `lstrip` drops followed by what it keeps. */
  lemma LStripSplit(s: string)
    ensures s == s[..|s| - |LStrip(s)|] + LStrip(s) && AllSpace(s[..|s| - |LStrip(s)|])
  {
    LStripShape(s);
  }

  /** `s.rstrip()`: drops trailing whitespace only. */
  function RStrip(s: string): (r: string)
    ensures |r| <= |s|
    ensures r == [] || !IsSpace(r[|r| - 1])
  {
    if s != [] && IsSpace(s[|s| - 1]) then RStrip(s[..|s| - 1]) else s
  }

  /** What `rstrip` drops is whitespace, and what it keeps is a prefix. */
  lemma {:induction false} RStripShape(s: string)
    ensures RStrip(s) == s[..|RStrip(s)|]
    ensures AllSpace(s[|RStrip(s)|..])
  {
    if s != [] && IsSpace(s[|s| - 1]) {
      var t := s[..|s| - 1];
      RStripShape(t);
      var n := |RStrip(s)|;
      assert t[..n] == s[..n];
      assert forall k | n <= k < |s| - 1 :: s[k] == t[n..][k - n];
    }
  }

  /** A string is what `rstrip` keeps followed by the whitespace it drops. */
  lemma RStripSplit(s: string)
    ensures s == RStrip(s) + s[|RStrip(s)|..] && AllSpace(s[|RStrip(s)|..])
  {
    RStripShape(s);
  }

  /** `s.strip()`. */
  function Strip(s: string): (r: string)
    ensures IsStripped(r)
  {
    RStripShape(LStrip(s));
    RStrip(LStrip(s))
  }

  /** LStrip removes exactly the whitespace before the first non-space character. */
  lemma {:induction false} LStripAt(s: string, i: nat)
    requires i <= |s| && AllSpace(s[..i])
    requires i < |s| ==> !IsSpace(s[i])
    ensures LStrip(s) == s[i..]
  {
    if i > 0 {
      assert IsSpace(s[..i][0]);
      assert s[1..][..i - 1] == s[..i][1..];
      LStripAt(s[1..], i - 1);
      assert s[1..][i - 1..] == s[i..];
    }
  }

  /** RStrip removes exactly the whitespace after the last non-space character. */
  lemma {:induction false} RStripAt(s: string, j: nat)
    requires j <= |s| && AllSpace(s[j..])
    requires 0 < j ==> !IsSpace(s[j - 1])
    ensures RStrip(s) == s[..j]
  {
    if j < |s| {
      assert IsSpace(s[j..][|s| - 1 - j]);
      var t := s[..|s| - 1];
      assert t[j..] == s[j..][..|s| - 1 - j];
      RStripAt(t, j);
      assert t[..j] == s[..j];
    }
  }

  lemma AllSpaceConcat(a: string, b: string)
    requires AllSpace(a) && AllSpace(b)
    ensures AllSpace(a + b)
  {
    forall k | 0 <= k < |a + b| ensures IsSpace((a + b)[k]) {
      if k >= |a| { assert (a + b)[k] == b[k - |a|]; }
    }
  }

  lemma StripTail(s: string, i: nat, j: nat)
    requires i < j <= |s| && AllSpace(s[j..])
    requires !IsSpace(s[j - 1])
    ensures RStrip(s[i..]) == s[i..j]
  {
    var t := s[i..];
    assert t[j - i..] == s[j..];
    assert t[j - i - 1] == s[j - 1];
    RStripAt(t, j - i);
    assert t[..j - i] == s[i..j];
  }

  /**
   * Reference characterisation of `strip`: if `s[..i]` and `s[j..]` are
   * whitespace and `s[i..j]` has no whitespace at either end, then
   * `strip(s)` is exactly `s[i..j]`.
   */
  lemma StripSlice(s: string, i: nat, j: nat)
    requires i <= j <= |s|
    requires AllSpace(s[..i]) && AllSpace(s[j..])
    requires IsStripped(s[i..j])
    ensures Strip(s) == s[i..j]
  {
    if i == j {
      StripAllSpace(s, i);
    } else {
      LStripAt(s, i);
      StripTail(s, i, j);
    }
  }

  lemma StripAllSpace(s: string, i: nat)
    requires i <= |s| && AllSpace(s[..i]) && AllSpace(s[i..])
    ensures Strip(s) == []
  {
    AllSpaceConcat(s[..i], s[i..]);
    assert s[..i] + s[i..] == s[..|s|];
    LStripAt(s, |s|);
  }

  /** Where `strip` cuts: whitespace before `i` and from `j` on. */
  lemma StripBounds(s: string) returns (i: nat, j: nat)
    ensures i <= j <= |s| && Strip(s) == s[i..j]
    ensures AllSpace(s[..i]) && AllSpace(s[j..])
  {
    var l := LStrip(s);
    LStripShape(s);
    RStripShape(l);
    i := |s| - |l|;
    j := i + |RStrip(l)|;
    assert l[|RStrip(l)|..] == s[j..];
    assert l[..|RStrip(l)|] == s[i..j];
  }

  /** Whitespace added after a string does not change what `strip` keeps. */
  lemma StripPadRight(r: string, t: string)
    requires AllSpace(t)
    ensures Strip(r + t) == Strip(r)
  {
    var i, j := StripBounds(r);
    var s := r + t;
    assert s[..i] == r[..i];
    assert s[j..] == r[j..] + t;
    AllSpaceConcat(r[j..], t);
    assert s[i..j] == r[i..j];
    StripSlice(s, i, j);
  }

  /** Whitespace added before a string does not change what `strip` keeps. */
  lemma StripPadLeft(t: string, r: string)
    requires AllSpace(t)
    ensures Strip(t + r) == Strip(r)
  {
    var i, j := StripBounds(r);
    var s := t + r;
    assert s[..|t| + i] == t + r[..i];
    AllSpaceConcat(t, r[..i]);
    assert s[|t| + j..] == r[j..];
    assert s[|t| + i..|t| + j] == r[i..j];
    StripSlice(s, |t| + i, |t| + j);
  }

  /** `strip` of whitespace, a stripped middle, and whitespace is the middle. */
  lemma StripMiddle(x: string, m: string, y: string)
    requires AllSpace(x) && IsStripped(m) && AllSpace(y)
    ensures Strip(x + m + y) == m
  {
    assert x + m + y == x + (m + y);
    StripPadLeft(x, m + y);
    StripPadRight(m, y);
    StripStripped(m);
  }

  /** `strip` only removes characters: whatever it keeps was in the string. */
  lemma StripKeeps(s: string, c: char)
    requires c in Strip(s)
    ensures c in s
  {
    var i, j := StripBounds(s);
    var k :| 0 <= k < |s[i..j]| && s[i..j][k] == c;
    assert s[i + k] == c;
  }

  /** ... and it keeps every character that is not whitespace. */
  lemma StripKeepsVisible(s: string, c: char)
    requires c in s && !IsSpace(c)
    ensures c in Strip(s)
  {
    var i, j := StripBounds(s);
    var k :| 0 <= k < |s| && s[k] == c;
    if i <= k < j {
      assert s[i..j][k - i] == c;
    }
  }

  /** A character in neither the parts nor the separator is not in the join. */
  lemma {:induction false} JoinAvoids(xs: seq<string>, sep: string, c: char)
    requires c !in sep
    requires forall k | 0 <= k < |xs| :: c !in xs[k]
    ensures c !in Join(xs, sep)
  {
    if |xs| > 1 {
      JoinAvoids(xs[1..], sep, c);
    }
  }

  /** Every part after the first, with `t` put in front. */
  function Prefixed(t: string, ys: seq<string>): (r: seq<string>)
    ensures |r| == |ys| && forall k | 0 <= k < |ys| :: r[k] == t + ys[k]
  {
    seq(|ys|, k requires 0 <= k < |ys| => t + ys[k])
  }

  lemma {:induction false} PrefixedJoin(t: string, ys: seq<string>, c: char)
    requires |ys| >= 1
    ensures t + Join(ys, [c] + t) == Join(Prefixed(t, ys), [c])
  {
    if |ys| > 1 {
      PrefixedJoin(t, ys[1..], c);
      assert Prefixed(t, ys)[1..] == Prefixed(t, ys[1..]);
      assert t + Join(ys, [c] + t) == (t + ys[0]) + [c] + (t + Join(ys[1..], [c] + t));
    }
  }

  /**
   * Joining with a two-character separator `c` + `t` is joining with `c`
   * alone, every part after the first starting with `t`.
   */
  lemma JoinWideSeparator(xs: seq<string>, c: char, t: string)
    requires |xs| >= 2
    ensures Join(xs, [c] + t) == Join([xs[0]] + Prefixed(t, xs[1..]), [c])
  {
    PrefixedJoin(t, xs[1..], c);
    var ps := [xs[0]] + Prefixed(t, xs[1..]);
    assert ps[1..] == Prefixed(t, xs[1..]);
    assert Join(xs, [c] + t) == xs[0] + [c] + (t + Join(xs[1..], [c] + t));
  }

  /** A string with no whitespace at its ends is left unchanged by `strip`. */
  lemma StripStripped(s: string)
    requires IsStripped(s)
    ensures Strip(s) == s
  {
    assert s[..0] == [] && s[|s|..] == [] && s[0..|s|] == s;
    StripSlice(s, 0, |s|);
  }

  /** `strip` leaves nothing exactly when the string is all whitespace. */
  lemma StripEmptyIffBlank(s: string)
    ensures Strip(s) == [] <==> AllSpace(s)
  {
    if AllSpace(s) {
      assert s[..|s|] == s && s[|s|..] == [];
      StripSlice(s, |s|, |s|);
    } else {
      var k :| 0 <= k < |s| && !IsSpace(s[k]);
      var l := LStrip(s);
      LStripShape(s);
      RStripShape(l);
    }
  }

  /** Position of the first occurrence of `c` in `s`. */
  function FirstIndex(s: string, c: char): (i: nat)
    requires c in s
    ensures i < |s| && s[i] == c && c !in s[..i]
  {
    if s[0] == c then 0 else 1 + FirstIndex(s[1..], c)
  }

  /** `s.split(c)`: the pieces between occurrences of `c`, empty pieces kept. */
  function Split(s: string, c: char): (pieces: seq<string>)
    ensures |pieces| >= 1
    ensures forall k | 0 <= k < |pieces| :: c !in pieces[k]
    decreases |s|
  {
    if c !in s then [s]
    else
      var i := FirstIndex(s, c);
      [s[..i]] + Split(s[i + 1..], c)
  }

  /** `sep.join(xs)`. */
  function Join(xs: seq<string>, sep: string): string {
    if |xs| == 0 then ""
    else if |xs| == 1 then xs[0]
    else xs[0] + sep + Join(xs[1..], sep)
  }

  /** `s.replace(a, b)` for single characters. */
  function Replace(s: string, a: char, b: char): (r: string)
    ensures |r| == |s|
    ensures forall k | 0 <= k < |s| && s[k] == a :: r[k] == b
    ensures forall k | 0 <= k < |s| && s[k] != a :: r[k] == s[k]
    ensures a != b ==> a !in r
  {
    seq(|s|, k requires 0 <= k < |s| => if s[k] == a then b else s[k])
  }

  /** Number of occurrences of `c` in `s`. */
  function Occurrences(s: string, c: char): nat {
    if s == [] then 0 else (if s[0] == c then 1 else 0) + Occurrences(s[1..], c)
  }

  lemma {:induction false} OccurrencesAppend(a: string, b: string, c: char)
    ensures Occurrences(a + b, c) == Occurrences(a, c) + Occurrences(b, c)
  {
    if a == [] {
      assert a + b == b;
    } else {
      assert (a + b)[0] == a[0];
      assert (a + b)[1..] == a[1..] + b;
      OccurrencesAppend(a[1..], b, c);
    }
  }

  lemma {:induction false} OccurrencesAbsent(s: string, c: char)
    requires c !in s
    ensures Occurrences(s, c) == 0
  {
    if s != [] {
      OccurrencesAbsent(s[1..], c);
    }
  }

  /** A join holds the parts' occurrences of `c` and no more when the separator has none. */
  lemma {:induction false} JoinOccurrences(xs: seq<string>, sep: string, c: char, m: nat)
    requires c !in sep
    requires forall k | 0 <= k < |xs| :: Occurrences(xs[k], c) == m
    ensures Occurrences(Join(xs, sep), c) == m * |xs|
  {
    if |xs| > 1 {
      var rest := xs[1..];
      assert forall k | 0 <= k < |rest| :: rest[k] == xs[k + 1];
      JoinOccurrences(rest, sep, c, m);
      var tail := Join(rest, sep);
      assert Join(xs, sep) == xs[0] + sep + tail;
      OccurrencesAppend(xs[0] + sep, tail, c);
      OccurrencesAppend(xs[0], sep, c);
      OccurrencesAbsent(sep, c);
      MulSucc(m, |rest|);
    }
  }

  lemma MulSucc(m: nat, n: nat)
    ensures m * (n + 1) == m + m * n
  {
  }

  /** Splitting at the first separator. */
  lemma SplitAtFirst(a: string, b: string, c: char)
    requires c !in a
    ensures Split(a + [c] + b, c) == [a] + Split(b, c)
  {
    var s := a + [c] + b;
    assert s[|a|] == c;
    var i := FirstIndex(s, c);
    assert s[..i] == a;
    assert s[i + 1..] == b;
  }

  /** `split` yields one piece more than there are separators. */
  lemma {:induction false} SplitLength(s: string, c: char)
    ensures |Split(s, c)| == Occurrences(s, c) + 1
    decreases |s|
  {
    if c !in s {
      OccurrencesAbsent(s, c);
    } else {
      var i := FirstIndex(s, c);
      assert s == s[..i] + [c] + s[i + 1..];
      OccurrencesAppend(s[..i] + [c], s[i + 1..], c);
      OccurrencesAppend(s[..i], [c], c);
      OccurrencesAbsent(s[..i], c);
      SplitLength(s[i + 1..], c);
    }
  }

  /** Joining the pieces of `split` with the same separator gives back the string. */
  lemma {:induction false} JoinSplit(s: string, c: char)
    ensures Join(Split(s, c), [c]) == s
    decreases |s|
  {
    if c in s {
      var i := FirstIndex(s, c);
      var rest := Split(s[i + 1..], c);
      JoinSplit(s[i + 1..], c);
      assert Split(s, c) == [s[..i]] + rest;
      assert ([s[..i]] + rest)[1..] == rest;
      assert s == s[..i] + [c] + s[i + 1..];
    }
  }

  /** Splitting a join recovers the parts when no part holds the separator. */
  lemma {:induction false} SplitJoin(xs: seq<string>, c: char)
    requires |xs| >= 1
    requires forall k | 0 <= k < |xs| :: c !in xs[k]
    ensures Split(Join(xs, [c]), c) == xs
  {
    if |xs| > 1 {
      SplitJoin(xs[1..], c);
      SplitAtFirst(xs[0], Join(xs[1..], [c]), c);
      assert Join(xs, [c]) == xs[0] + [c] + Join(xs[1..], [c]);
      assert xs == [xs[0]] + xs[1..];
    }
  }

  /** The text before the first `c` (the whole string when there is none). */
  function Before(s: string, c: char): (r: string)
    ensures r == Split(s, c)[0]
  {
    if c in s then s[..FirstIndex(s, c)] else s
  }

  /** Replacing a character that does not occur changes nothing. */
  lemma ReplaceAbsent(s: string, a: char, b: char)
    requires a !in s
    ensures Replace(s, a, b) == s
  {
  }
}
