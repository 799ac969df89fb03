/** Sequence helpers for the array idioms the handlers use on follow lists:
    `includes`, `indexOf` followed by `splice(i, 1)`, and `push` after a
    membership check. */
module Seqs {

  /** Every element occurs at most once. */
  ghost predicate NoDup<T>(s: seq<T>) {
    forall i, j | 0 <= i < j < |s| :: s[i] != s[j]
  }

  /** The set of elements of `s`. */
  ghost function Elems<T>(s: seq<T>): set<T> {
    set x | x in s
  }

  /** `Array.prototype.indexOf` for an element known to be present: the
      position of its first occurrence. */
  function IndexOf<T(==)>(s: seq<T>, x: T): (i: nat)
    requires x in s
    ensures i < |s| && s[i] == x
    ensures x !in s[..i]
  {
    if s[0] == x then 0
    else
      var j := IndexOf(s[1..], x);
      assert s[..j + 1] == [s[0]] + s[1..][..j];
      1 + j
  }

  /** `if (s.includes(x)) s.splice(s.indexOf(x), 1)`: drop the first
      occurrence of `x`, keep every other element in its order. */
  function RemoveFirst<T(==)>(s: seq<T>, x: T): (r: seq<T>)
    ensures x !in s ==> r == s
    ensures x in s ==> |r| == |s| - 1 && multiset(r) == multiset(s) - multiset{x}
  {
    if x in s then
      var i := IndexOf(s, x);
      assert s == s[..i] + [x] + s[i + 1..];
      s[..i] + s[i + 1..]
    else s
  }

  /** Removal keeps the order of the remaining elements: everything before
      the first occurrence stays in place, everything after shifts left by
      one. */
  lemma RemoveFirstKeepsOrder<T>(s: seq<T>, x: T)
    requires x in s
    ensures forall k | 0 <= k < |RemoveFirst(s, x)| ::
              RemoveFirst(s, x)[k] == (if k < IndexOf(s, x) then s[k] else s[k + 1])
  {
    var i := IndexOf(s, x);
    assert RemoveFirst(s, x) == s[..i] + s[i + 1..];
  }

  /** Appending an absent element and then removing its first occurrence
      gives the original sequence back. */
  lemma RemoveFirstOfAppended<T>(s: seq<T>, x: T)
    requires x !in s
    ensures RemoveFirst(s + [x], x) == s
  {
    var t := s + [x];
    var i := IndexOf(t, x);
    assert forall k | 0 <= k < |s| :: t[k] == s[k];
    assert i == |s|;
    assert t[..i] == s;
  }

  /** Appending an absent element keeps a duplicate-free sequence
      duplicate-free. */
  lemma AppendNoDup<T>(s: seq<T>, x: T)
    requires NoDup(s) && x !in s
    ensures NoDup(s + [x])
  {
    var t := s + [x];
    forall i, j | 0 <= i < j < |t|
      ensures t[i] != t[j]
    {
      if j == |s| {
        assert t[i] == s[i];
      }
    }
  }

  /** On a duplicate-free sequence, removing the first occurrence of `x`
      removes `x` altogether, keeps every other element, and stays
      duplicate-free. */
  lemma RemoveFirstNoDup<T>(s: seq<T>, x: T)
    requires NoDup(s)
    ensures NoDup(RemoveFirst(s, x))
    ensures x !in RemoveFirst(s, x)
    ensures forall y | y != x :: y in RemoveFirst(s, x) <==> y in s
  {
    var r := RemoveFirst(s, x);
    if x in s {
      var i := IndexOf(s, x);
      assert r == s[..i] + s[i + 1..];
      forall a, b | 0 <= a < b < |r|
        ensures r[a] != r[b]
      {
        var a' := if a < i then a else a + 1;
        var b' := if b < i then b else b + 1;
        assert r[a] == s[a'] && r[b] == s[b'] && a' < b';
      }
      forall k | 0 <= k < |r|
        ensures r[k] != x
      {
        if k < i {
          assert r[k] == s[..i][k];
        } else {
          assert r[k] == s[k + 1] && s[i] == x;
        }
      }
      forall y | y != x
        ensures y in r <==> y in s
      {
        if y in s {
          var k :| 0 <= k < |s| && s[k] == y;
          assert k != i;
          assert r[if k < i then k else k - 1] == y;
        }
        if y in r {
          var k :| 0 <= k < |r| && r[k] == y;
          assert s[if k < i then k else k + 1] == y;
        }
      }
    }
  }

  /** A duplicate-free sequence has exactly as many distinct elements as
      positions. */
  lemma {:induction false} DistinctCard<T>(s: seq<T>)
    requires NoDup(s)
    ensures |Elems(s)| == |s|
  {
    if |s| > 0 {
      var t := s[1..];
      assert NoDup(t) by {
        forall i, j | 0 <= i < j < |t|
          ensures t[i] != t[j]
        {
          assert t[i] == s[i + 1] && t[j] == s[j + 1];
        }
      }
      DistinctCard(t);
      assert s[0] !in Elems(t) by {
        forall k | 0 <= k < |t|
          ensures t[k] != s[0]
        {
          assert t[k] == s[k + 1];
        }
      }
      assert Elems(s) == {s[0]} + Elems(t) by {
        assert s == [s[0]] + t;
      }
    }
  }
}
