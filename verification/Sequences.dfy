/** Sums and removals over sequences, shared by every queue of the model. */
module Sequences {
  type pos = n: nat | 0 < n witness 1

  datatype Option<+T> = None | Some(value: T)

  function RemoveAt<T>(s: seq<T>, i: nat): (r: seq<T>)
    requires i < |s|
    ensures |r| == |s| - 1
  {
    s[..i] + s[i + 1..]
  }

  lemma SplitAt<T>(s: seq<T>, i: nat)
    requires i < |s|
    ensures s == (s[..i] + [s[i]]) + s[i + 1..]
  {
  }

  /** All but the last of two sequences together. */
  lemma InitOfConcat<T>(a: seq<T>, b: seq<T>)
    requires b != []
    ensures (a + b)[..|a + b| - 1] == a + b[..|b| - 1] && (a + b)[|a + b| - 1] == b[|b| - 1]
  {
  }

  lemma ConcatAssociates<T>(a: seq<T>, b: seq<T>, c: seq<T>)
    ensures (a + b) + c == a + (b + c)
  {
  }

  function Sum<T>(f: T -> int, s: seq<T>): int {
    if s == [] then 0 else f(s[0]) + Sum(f, s[1..])
  }

  lemma {:induction false} SumConcat<T>(f: T -> int, a: seq<T>, b: seq<T>)
    ensures Sum(f, a + b) == Sum(f, a) + Sum(f, b)
  {
    if a == [] {
      assert a + b == b;
    } else {
      assert (a + b)[1..] == a[1..] + b;
      SumConcat(f, a[1..], b);
    }
  }

  lemma SumAppend<T>(f: T -> int, s: seq<T>, x: T)
    ensures Sum(f, s + [x]) == Sum(f, s) + f(x)
  {
    SumConcat(f, s, [x]);
    assert Sum(f, [x]) == f(x) + Sum(f, []);
  }

  lemma SumRemoveAt<T>(f: T -> int, s: seq<T>, i: nat)
    requires i < |s|
    ensures Sum(f, RemoveAt(s, i)) == Sum(f, s) - f(s[i])
  {
    hide Sum;
    SplitAt(s, i);
    SumConcat(f, s[..i] + [s[i]], s[i + 1..]);
    SumAppend(f, s[..i], s[i]);
    SumConcat(f, s[..i], s[i + 1..]);
  }

  lemma SumUpdate<T>(f: T -> int, s: seq<T>, i: nat, x: T)
    requires i < |s|
    ensures Sum(f, s[i := x]) == Sum(f, s) - f(s[i]) + f(x)
  {
    hide Sum;
    SplitAt(s, i);
    SplitAt(s[i := x], i);
    assert s[i := x][..i] == s[..i] && s[i := x][i + 1..] == s[i + 1..];
    SumConcat(f, s[..i] + [x], s[i + 1..]);
    SumConcat(f, s[..i] + [s[i]], s[i + 1..]);
    SumAppend(f, s[..i], x);
    SumAppend(f, s[..i], s[i]);
  }

  /** A sum does not depend on the order of its terms. */
  lemma {:induction false} SumUnordered<T>(f: T -> int, a: seq<T>, b: seq<T>)
    requires multiset(a) == multiset(b)
    ensures Sum(f, a) == Sum(f, b)
  {
    if a == [] {
      assert |multiset(b)| == 0;
    } else {
      assert a[0] in multiset(b);
      var i :| 0 <= i < |b| && b[i] == a[0];
      assert a == [a[0]] + a[1..];
      assert b == b[..i] + [b[i]] + b[i + 1..];
      assert multiset(RemoveAt(b, i)) == multiset(b) - multiset{a[0]};
      assert multiset(a[1..]) == multiset(a) - multiset{a[0]};
      SumUnordered(f, a[1..], RemoveAt(b, i));
      SumRemoveAt(f, b, i);
    }
  }

  lemma {:induction false} SumBounds<T>(f: T -> int, s: seq<T>)
    requires forall x <- s :: 0 <= f(x)
    ensures 0 <= Sum(f, s)
    ensures forall x <- s :: f(x) <= Sum(f, s)
  {
    if s != [] {
      SumBounds(f, s[1..]);
      forall x <- s ensures f(x) <= Sum(f, s) {
        assert x == s[0] || x in s[1..];
      }
    }
  }

  lemma {:induction false} RangeCardinality(s: set<nat>, n: nat)
    requires forall x <- s :: x < n
    ensures |s| <= n
    ensures (exists x: nat :: x < n && x !in s) ==> |s| < n
  {
    if n == 0 {
      assert s == {};
    } else {
      var t := s - {n - 1};
      RangeCardinality(t, n - 1);
      if n - 1 in s {
        assert s == t + {n - 1};
        if x: nat :| x < n && x !in s {
          assert x < n - 1 && x !in t;
        }
      } else {
        assert s == t;
      }
    }
  }
}
