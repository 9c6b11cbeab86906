/** The array operations of the handlers, on sequences: `slice` with its
    clamping of negative and large indices, `filter`, the reversed view of
    a descending store query, and `sort()` without a comparator. `slice`
    works the same on strings, which are sequences of characters here. */
module JsSeqs {
  import opened JsStrings

  function Min(a: int, b: int): int { if a <= b then a else b }

  /** How `slice` turns an argument into a position: a negative one counts
      from the end, and both ends clamp to `0..len`. */
  function RelativeIndex(k: int, len: nat): (i: nat)
    ensures i <= len
    ensures 0 <= k ==> i == Min(k, len)
  {
    if k < 0 then (if len + k < 0 then 0 else len + k)
    else if k > len then len
    else k
  }

  /** `s.slice(start, end)`. */
  function Slice<T>(s: seq<T>, start: int, end: int): (r: seq<T>)
    ensures |r| <= |s|
  {
    var from := RelativeIndex(start, |s|);
    var to := RelativeIndex(end, |s|);
    if from < to then s[from..to] else []
  }

  /** With non-negative arguments, `slice` is the sub-sequence between the
      clamped positions. */
  lemma SliceNonNegative<T>(s: seq<T>, start: int, end: int)
    requires 0 <= start <= end
    ensures Slice(s, start, end) == s[Min(start, |s|)..Min(end, |s|)]
  {
  }

  /** `s.filter(keep)`. */
  function Filter<T>(s: seq<T>, keep: T -> bool): (r: seq<T>)
    ensures |r| <= |s|
    ensures forall x :: x in r ==> x in s && keep(x)
    ensures forall x :: x in s && keep(x) ==> x in r
  {
    if s == [] then [] else (if keep(s[0]) then [s[0]] else []) + Filter(s[1..], keep)
  }

  lemma {:induction false} FilterAppend<T>(a: seq<T>, b: seq<T>, keep: T -> bool)
    ensures Filter(a + b, keep) == Filter(a, keep) + Filter(b, keep)
  {
    if a == [] {
      assert a + b == b;
    } else {
      assert (a + b)[1..] == a[1..] + b;
      FilterAppend(a[1..], b, keep);
    }
  }

  /** Keeping every element changes nothing. */
  lemma {:induction false} FilterAll<T>(s: seq<T>, keep: T -> bool)
    requires forall i :: 0 <= i < |s| ==> keep(s[i])
    ensures Filter(s, keep) == s
  {
    if s != [] {
      FilterAll(s[1..], keep);
      assert s == [s[0]] + s[1..];
    }
  }

  /** Keeping no element leaves nothing. */
  lemma {:induction false} FilterNone<T>(s: seq<T>, keep: T -> bool)
    requires forall i :: 0 <= i < |s| ==> !keep(s[i])
    ensures Filter(s, keep) == []
  {
    if s != [] {
      FilterNone(s[1..], keep);
    }
  }

  /** Filtering a run that fails followed by a run that passes keeps the second run. */
  lemma FilterPassingSuffix<T>(a: seq<T>, b: seq<T>, keep: T -> bool)
    requires forall i :: 0 <= i < |a| ==> !keep(a[i])
    requires forall i :: 0 <= i < |b| ==> keep(b[i])
    ensures Filter(a + b, keep) == b
  {
    FilterAppend(a, b, keep);
    FilterNone(a, keep);
    FilterAll(b, keep);
  }

  /** The position of the first element that `p` holds for, or `|s|`. */
  function FirstWhere<T>(s: seq<T>, p: T -> bool): (k: nat)
    ensures k <= |s|
    ensures forall i :: 0 <= i < k ==> !p(s[i])
    ensures k < |s| ==> p(s[k])
  {
    if s == [] then 0 else if p(s[0]) then 0 else 1 + FirstWhere(s[1..], p)
  }

  /** Once `p` holds for an element it holds for every later one. */
  predicate UpwardClosed<T>(s: seq<T>, p: T -> bool) {
    forall i, j :: 0 <= i < j < |s| && p(s[i]) ==> p(s[j])
  }

  /** Filtering by a predicate that, once true, stays true along the
      sequence keeps exactly a suffix: everything from its first match on. */
  lemma {:induction false} FilterUpwardClosed<T>(s: seq<T>, p: T -> bool)
    requires UpwardClosed(s, p)
    ensures Filter(s, p) == s[FirstWhere(s, p)..]
  {
    if s != [] {
      if p(s[0]) {
        forall i | 0 <= i < |s| ensures p(s[i]) {
          if i > 0 {
            assert p(s[0]);
          }
        }
        FilterAll(s, p);
      } else {
        var rest := s[1..];
        assert UpwardClosed(rest, p) by {
          forall i, j | 0 <= i < j < |rest| && p(rest[i]) ensures p(rest[j]) {
            assert rest[i] == s[i + 1] && rest[j] == s[j + 1];
          }
        }
        FilterUpwardClosed(rest, p);
        assert rest[FirstWhere(rest, p)..] == s[FirstWhere(s, p)..];
      }
    }
  }

  /** The first `n` elements, or all of them when there are fewer
      (what a store query's `limit(n)` keeps). */
  function Take<T>(s: seq<T>, n: nat): (r: seq<T>)
    ensures |r| == Min(n, |s|) && r == s[..|r|]
  {
    if n <= |s| then s[..n] else s
  }

  function Reverse<T>(s: seq<T>): (r: seq<T>)
    ensures |r| == |s|
    ensures forall i :: 0 <= i < |s| ==> r[i] == s[|s| - 1 - i]
  {
    if s == [] then [] else Reverse(s[1..]) + [s[0]]
  }

  // The default sort

  /** Places `x` before the first element whose key is greater than its own,
      so after every element with an equal key. */
  function InsertByKey<T>(x: T, s: seq<T>, key: T -> string): (r: seq<T>)
    ensures multiset(r) == multiset(s) + multiset{x}
  {
    if s == [] then [x]
    else if LexLess(key(x), key(s[0])) then [x] + s
    else
      assert s == [s[0]] + s[1..];
      [s[0]] + InsertByKey(x, s[1..], key)
  }

  /** `xs.sort()` with no comparator: a stable sort of the elements by the
      string each converts to (`key`), compared character by character. */
  function SortByKey<T>(xs: seq<T>, key: T -> string): (r: seq<T>)
    ensures multiset(r) == multiset(xs)
  {
    if xs == [] then []
    else
      assert xs == xs[..|xs| - 1] + [xs[|xs| - 1]];
      InsertByKey(xs[|xs| - 1], SortByKey(xs[..|xs| - 1], key), key)
  }

  ghost predicate SortedByKey<T>(s: seq<T>, key: T -> string) {
    forall i, j :: 0 <= i < j < |s| ==> !LexLess(key(s[j]), key(s[i]))
  }

  lemma {:induction false} InsertByKeySorted<T>(x: T, s: seq<T>, key: T -> string)
    requires SortedByKey(s, key)
    ensures SortedByKey(InsertByKey(x, s, key), key)
  {
    if s == [] {
    } else if LexLess(key(x), key(s[0])) {
      var r := [x] + s;
      forall i, j | 0 <= i < j < |r| ensures !LexLess(key(r[j]), key(r[i])) {
        if i == 0 {
          if LexLess(key(s[j - 1]), key(x)) {
            LexLessTransitive(key(s[j - 1]), key(x), key(s[0]));
            if j - 1 == 0 { LexLessIrreflexive(key(s[0])); }
          }
        }
      }
    } else {
      var tail := InsertByKey(x, s[1..], key);
      InsertByKeySorted(x, s[1..], key);
      var r := [s[0]] + tail;
      forall i, j | 0 <= i < j < |r| ensures !LexLess(key(r[j]), key(r[i])) {
        if i == 0 {
          assert r[j] in multiset(tail);
          if r[j] != x {
            assert r[j] in multiset(s[1..]);
            var m :| 0 <= m < |s[1..]| && s[1..][m] == r[j];
            assert s[m + 1] == r[j];
          }
        }
      }
    }
  }

  /** The default sort orders the elements by key. */
  lemma {:induction false} SortByKeySorted<T>(xs: seq<T>, key: T -> string)
    ensures SortedByKey(SortByKey(xs, key), key)
  {
    if xs != [] {
      SortByKeySorted(xs[..|xs| - 1], key);
      InsertByKeySorted(xs[|xs| - 1], SortByKey(xs[..|xs| - 1], key), key);
    }
  }

  lemma {:induction false} InsertByKeyOfEqualKeys<T>(x: T, s: seq<T>, key: T -> string)
    requires forall i :: 0 <= i < |s| ==> key(s[i]) == key(x)
    ensures InsertByKey(x, s, key) == s + [x]
  {
    if s != [] {
      LexLessIrreflexive(key(x));
      InsertByKeyOfEqualKeys(x, s[1..], key);
      assert s == [s[0]] + s[1..];
    }
  }

  /** When every element converts to the same string, the default sort
      leaves the order as it was. */
  lemma {:induction false} SortByKeyOfEqualKeys<T>(xs: seq<T>, key: T -> string, k: string)
    requires forall i :: 0 <= i < |xs| ==> key(xs[i]) == k
    ensures SortByKey(xs, key) == xs
  {
    if xs != [] {
      var front := xs[..|xs| - 1];
      SortByKeyOfEqualKeys(front, key, k);
      InsertByKeyOfEqualKeys(xs[|xs| - 1], front, key);
      assert xs == front + [xs[|xs| - 1]];
    }
  }
}
