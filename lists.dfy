/** Sequence operations shared by the page models: the JavaScript array
    idioms `filter`, `reverse` and "remove every copy if present, else append". */
module Lists {

  /** `a` is an order-preserving sublist of `b`: `b` with some elements dropped. */
  ghost predicate IsSublist<T>(a: seq<T>, b: seq<T>)
    decreases |b|
  {
    if a == [] then true
    else if b == [] then false
    else (a[0] == b[0] && IsSublist(a[1..], b[1..])) || IsSublist(a, b[1..])
  }

  /** Every sequence is a sublist of itself. */
  lemma {:induction false} SublistRefl<T>(s: seq<T>)
    ensures IsSublist(s, s)
    decreases |s|
  {
    if s != [] {
      SublistRefl(s[1..]);
    }
  }

  /** The elements of a sublist are elements of the whole. */
  lemma {:induction false} SublistMembers<T>(a: seq<T>, b: seq<T>, k: nat)
    requires IsSublist(a, b) && k < |a|
    ensures a[k] in b
    decreases |b|
  {
    if a[0] == b[0] && IsSublist(a[1..], b[1..]) {
      if k > 0 {
        SublistMembers(a[1..], b[1..], k - 1);
      }
    } else {
      SublistMembers(a, b[1..], k);
    }
  }

  /** No two positions of `s` carry the same key. */
  ghost predicate DistinctKeys<T, K>(s: seq<T>, key: T -> K)
  {
    forall i, j :: 0 <= i < j < |s| ==> key(s[i]) != key(s[j])
  }

  /** Dropping elements cannot create a duplicate key. */
  lemma SublistKeepsDistinct<T, K>(a: seq<T>, b: seq<T>, key: T -> K)
    requires IsSublist(a, b)
    ensures DistinctKeys(b, key) ==> DistinctKeys(a, key)
  {
    if DistinctKeys(b, key) {
      SublistKeepsDistinctRec(a, b, key);
    }
  }

  lemma {:induction false} SublistKeepsDistinctRec<T, K>(a: seq<T>, b: seq<T>, key: T -> K)
    requires IsSublist(a, b) && DistinctKeys(b, key)
    ensures DistinctKeys(a, key)
    decreases |b|
  {
    if a == [] {
    } else {
      assert DistinctKeys(b[1..], key) by {
        forall i, j | 0 <= i < j < |b[1..]| ensures key(b[1..][i]) != key(b[1..][j]) {
          assert b[1..][i] == b[i + 1] && b[1..][j] == b[j + 1];
        }
      }
      if a[0] == b[0] && IsSublist(a[1..], b[1..]) {
        SublistKeepsDistinctRec(a[1..], b[1..], key);
        forall j | 0 < j < |a| ensures key(a[0]) != key(a[j]) {
          SublistMembers(a[1..], b[1..], j - 1);
          var k :| 0 <= k < |b[1..]| && b[1..][k] == a[j];
          assert b[k + 1] == a[j];
        }
        forall i, j | 0 <= i < j < |a| ensures key(a[i]) != key(a[j]) {
          if i > 0 {
            assert a[i] == a[1..][i - 1] && a[j] == a[1..][j - 1];
          }
        }
      } else {
        SublistKeepsDistinctRec(a, b[1..], key);
      }
    }
  }

  /** `Array.prototype.filter`: the elements of `s` that satisfy `p`, in order. */
  function Filter<T>(s: seq<T>, p: T -> bool): (r: seq<T>)
    ensures |r| <= |s|
    ensures forall i :: 0 <= i < |r| ==> p(r[i])
    ensures IsSublist(r, s)
    decreases |s|
  {
    if s == [] then []
    else if p(s[0]) then
      var r := [s[0]] + Filter(s[1..], p);
      assert r[1..] == Filter(s[1..], p);
      r
    else
      Filter(s[1..], p)
  }

  /** Everything `filter` returns comes from the input. */
  lemma FilterMembers<T>(s: seq<T>, p: T -> bool)
    ensures forall i :: 0 <= i < |Filter(s, p)| ==> Filter(s, p)[i] in s
  {
    forall i | 0 <= i < |Filter(s, p)| ensures Filter(s, p)[i] in s {
      SublistMembers(Filter(s, p), s, i);
    }
  }

  /** Every element of the input that satisfies the predicate is kept. */
  lemma {:induction false} FilterKeeps<T>(s: seq<T>, p: T -> bool)
    ensures forall i :: 0 <= i < |s| && p(s[i]) ==> s[i] in Filter(s, p)
    decreases |s|
  {
    if s != [] {
      FilterKeeps(s[1..], p);
      forall i | 0 < i < |s| && p(s[i]) ensures s[i] in Filter(s, p) {
        assert s[1..][i - 1] == s[i];
      }
    }
  }

  /** When every element satisfies the predicate, `filter` returns the input. */
  lemma {:induction false} FilterKeepsAll<T>(s: seq<T>, p: T -> bool)
    requires forall i :: 0 <= i < |s| ==> p(s[i])
    ensures Filter(s, p) == s
    decreases |s|
  {
    if s != [] {
      assert forall i :: 0 <= i < |s[1..]| ==> p(s[1..][i]) by {
        forall i | 0 <= i < |s[1..]| ensures p(s[1..][i]) {
          assert s[1..][i] == s[i + 1];
        }
      }
      FilterKeepsAll(s[1..], p);
    }
  }

  /** When some element fails the predicate, `filter` returns a shorter sequence. */
  lemma {:induction false} FilterShrinks<T>(s: seq<T>, p: T -> bool, k: nat)
    requires k < |s| && !p(s[k])
    ensures |Filter(s, p)| < |s|
    decreases |s|
  {
    if k > 0 {
      assert s[1..][k - 1] == s[k];
      FilterShrinks(s[1..], p, k - 1);
    }
  }

  /** `filter` keeps every copy of each satisfying value and no copy of any other. */
  lemma {:induction false} FilterCounts<T>(s: seq<T>, p: T -> bool)
    ensures forall y :: multiset(Filter(s, p))[y] == if p(y) then multiset(s)[y] else 0
    decreases |s|
  {
    if s != [] {
      FilterCounts(s[1..], p);
      assert s == [s[0]] + s[1..];
      assert multiset(s) == multiset{s[0]} + multiset(s[1..]);
      if p(s[0]) {
        assert multiset(Filter(s, p)) == multiset{s[0]} + multiset(Filter(s[1..], p));
      }
    }
  }

  /** The facts about `filter` that its callers use, in one place. */
  lemma FilterFacts<T>(s: seq<T>, p: T -> bool)
    ensures forall i :: 0 <= i < |Filter(s, p)| ==> Filter(s, p)[i] in s
    ensures forall i :: 0 <= i < |s| && p(s[i]) ==> s[i] in Filter(s, p)
    ensures (forall i :: 0 <= i < |s| ==> p(s[i])) ==> Filter(s, p) == s
    ensures (exists i :: 0 <= i < |s| && !p(s[i])) ==> |Filter(s, p)| < |s|
    ensures forall y :: multiset(Filter(s, p))[y] == if p(y) then multiset(s)[y] else 0
  {
    FilterCounts(s, p);
    FilterMembers(s, p);
    FilterKeeps(s, p);
    if forall i :: 0 <= i < |s| ==> p(s[i]) {
      FilterKeepsAll(s, p);
    }
    if exists i :: 0 <= i < |s| && !p(s[i]) {
      var k :| 0 <= k < |s| && !p(s[k]);
      FilterShrinks(s, p, k);
    }
  }

  /** Filtering distributes over concatenation. */
  lemma {:induction false} FilterAppend<T>(a: seq<T>, b: seq<T>, p: T -> bool)
    ensures Filter(a + b, p) == Filter(a, p) + Filter(b, p)
    decreases |a|
  {
    if a == [] {
      assert a + b == b;
    } else {
      assert (a + b)[1..] == a[1..] + b;
      FilterAppend(a[1..], b, p);
    }
  }

  /** The predicate "differs from `x`", for removing every copy of `x`. */
  function NotEqual<T(==)>(x: T): T -> bool
  {
    y => y != x
  }

  /** `s` without any copy of `x`, order kept. */
  function RemoveAll<T(==,!new)>(s: seq<T>, x: T): (r: seq<T>)
    ensures x !in r
    ensures forall i :: 0 <= i < |r| ==> r[i] in s
    ensures forall i :: 0 <= i < |s| && s[i] != x ==> s[i] in r
    ensures IsSublist(r, s)
    ensures x !in s ==> r == s
    ensures x in s ==> |r| < |s|
    ensures forall y :: multiset(r)[y] == if y == x then 0 else multiset(s)[y]
  {
    FilterFacts(s, NotEqual(x));
    assert x in s ==> exists i :: 0 <= i < |s| && !NotEqual(x)(s[i]);
    Filter(s, NotEqual(x))
  }

  /** Remove every copy of `x` when `s` holds it, otherwise append `x` at the end. */
  function ToggleMember<T(==,!new)>(s: seq<T>, x: T): (r: seq<T>)
    ensures x in r <==> x !in s
    ensures forall i :: 0 <= i < |r| && r[i] != x ==> r[i] in s
    ensures forall i :: 0 <= i < |s| && s[i] != x ==> s[i] in r
    ensures x !in s ==> r == s + [x]
    ensures x in s ==> IsSublist(r, s) && |r| < |s|
    ensures x in s ==> forall y :: multiset(r)[y] == if y == x then 0 else multiset(s)[y]
  {
    if x in s then RemoveAll(s, x) else s + [x]
  }

  /** Toggling a value that is absent, twice, gives back the original sequence. */
  lemma ToggleMemberTwiceAbsent<T(!new)>(s: seq<T>, x: T)
    requires x !in s
    ensures ToggleMember(ToggleMember(s, x), x) == s
  {
    FilterAppend(s, [x], NotEqual(x));
    FilterKeepsAll(s, NotEqual(x));
    assert Filter([x], NotEqual(x)) == [];
  }

  /** `Array.prototype.reverse`. */
  function Reverse<T>(s: seq<T>): (r: seq<T>)
    ensures |r| == |s|
    ensures forall i :: 0 <= i < |s| ==> r[i] == s[|s| - 1 - i]
    decreases |s|
  {
    if s == [] then [] else Reverse(s[1..]) + [s[0]]
  }
}
