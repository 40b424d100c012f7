/** Sequence helpers standing in for Python list operations. */
module Seqs {

  /** No element occurs twice. */
  predicate Distinct<T(==)>(s: seq<T>) {
    forall i, j :: 0 <= i < j < |s| ==> s[i] != s[j]
  }

  /** Python's `s.index(x)`: the position of the first `x`. */
  function IndexOf<T(==)>(s: seq<T>, x: T): (i: nat)
    requires x in s
    ensures i < |s| && s[i] == x && x !in s[..i]
  {
    if s[0] == x then 0 else 1 + IndexOf(s[1..], x)
  }

  /** Python's `if x in s: s.remove(x)`: drop the first `x`, keep the order of the rest. */
  function RemoveFirst<T(==)>(s: seq<T>, x: T): (r: seq<T>)
    ensures x !in s ==> r == s
    ensures x in s ==> r == s[..IndexOf(s, x)] + s[IndexOf(s, x) + 1..]
  {
    if |s| == 0 then []
    else if s[0] == x then
      assert s[..0] + s[1..] == s[1..];
      s[1..]
    else
      var r := RemoveFirst(s[1..], x);
      RemoveFirstStep(s, x, r);
      [s[0]] + r
  }

  /** Cutting out the first `x` commutes with putting a different head in front. */
  lemma {:induction false} RemoveFirstStep<T>(s: seq<T>, x: T, r: seq<T>)
    requires |s| > 0 && s[0] != x
    requires x !in s[1..] ==> r == s[1..]
    requires x in s[1..] ==> r == s[1..][..IndexOf(s[1..], x)] + s[1..][IndexOf(s[1..], x) + 1..]
    ensures x !in s ==> [s[0]] + r == s
    ensures x in s ==> [s[0]] + r == s[..IndexOf(s, x)] + s[IndexOf(s, x) + 1..]
  {
    var t := s[1..];
    assert s == [s[0]] + t;
    if x in s {
      assert x in t;
      var i := IndexOf(t, x);
      assert IndexOf(s, x) == i + 1;
      ConsCut(s[0], t, i);
    }
  }

  /** Cutting out position `i + 1` of `[h] + t` is cutting out position `i` of `t`. */
  lemma {:induction false} ConsCut<T>(h: T, t: seq<T>, i: nat)
    requires i < |t|
    ensures ([h] + t)[..i + 1] + ([h] + t)[i + 2..] == [h] + (t[..i] + t[i + 1..])
  {
    var s := [h] + t;
    assert s[..i + 1] == [h] + t[..i];
    assert s[i + 2..] == t[i + 1..];
  }

  /** Removing the first `x` takes exactly one `x` out of the multiset, if there is one. */
  lemma {:induction false} RemoveFirstMultiset<T>(s: seq<T>, x: T)
    ensures multiset(RemoveFirst(s, x)) == multiset(s) - multiset{x}
  {
    if x in s {
      var i := IndexOf(s, x);
      assert s == s[..i] + [x] + s[i + 1..];
    }
  }

  /** Removing an element adds nothing. */
  lemma {:induction false} RemoveFirstSubset<T>(s: seq<T>, x: T)
    ensures forall k :: k in RemoveFirst(s, x) ==> k in s
  {
    RemoveFirstMultiset(s, x);
    forall k | k in RemoveFirst(s, x) ensures k in s {
      assert k in multiset(RemoveFirst(s, x));
    }
  }

  /** The number of distinct elements of a duplicate-free sequence is its length. */
  lemma {:induction false} DistinctCardinality<T>(s: seq<T>)
    requires Distinct(s)
    ensures |set x | x in s| == |s|
  {
    if |s| > 0 {
      var t := s[1..];
      assert Distinct(t) by {
        forall i, j | 0 <= i < j < |t| ensures t[i] != t[j] {
          assert t[i] == s[i + 1] && t[j] == s[j + 1];
        }
      }
      DistinctCardinality(t);
      assert (set x | x in s) == {s[0]} + (set x | x in t);
      assert s[0] !in t;
    }
  }

  /** Python's `[f(x) for x in s]`. */
  function Map<A, B>(f: A -> B, s: seq<A>): (r: seq<B>)
    ensures |r| == |s| && forall i :: 0 <= i < |s| ==> r[i] == f(s[i])
  {
    seq(|s|, i requires 0 <= i < |s| => f(s[i]))
  }

  /** Mapping distributes over concatenation. */
  lemma {:induction false} MapAppend<A, B>(f: A -> B, a: seq<A>, b: seq<A>)
    ensures Map(f, a + b) == Map(f, a) + Map(f, b)
  {
    var l, r := Map(f, a + b), Map(f, a) + Map(f, b);
    forall i | 0 <= i < |l| ensures l[i] == r[i] {
      if i < |a| {
        assert (a + b)[i] == a[i];
      } else {
        assert (a + b)[i] == b[i - |a|];
      }
    }
  }

  /** The pieces of a suffix are slices of the whole. */
  lemma {:induction false} SuffixSlices<T>(s: seq<T>, i: nat, n: nat)
    requires i + n <= |s|
    ensures s[i..][..n] == s[i..i + n] && s[i..][n..] == s[i + n..]
  {
  }

  lemma {:induction false} AppendAssoc<T>(a: seq<T>, b: seq<T>, c: seq<T>)
    ensures a + (b + c) == (a + b) + c
  {
  }

  /** Regrouping a five-part concatenation around its middle part. */
  lemma {:induction false} Regroup<T>(a: seq<T>, x: seq<T>, m: seq<T>, y: seq<T>, b: seq<T>)
    ensures a + (x + m + y) + b == (a + x) + m + (y + b)
  {
  }
}
