/** Optional values and results, and the few facts about sequences the other modules share. */
module Wrappers {
  datatype Option<+T> = None | Some(value: T)

  datatype Result<+T, +E> = Ok(value: T) | Err(error: E)

  lemma OneTaken<T>(s: seq<T>, i: nat)
    requires i < |s|
    ensures multiset(s) == multiset{s[i]} + multiset(s[..i] + s[i + 1..])
  {
    assert s == s[..i] + ([s[i]] + s[i + 1..]);
  }

  /** The first element of a sequence has a place in every permutation of it; taking it out of
      both leaves permutations. */
  lemma TakeFirst<T>(a: seq<T>, b: seq<T>) returns (i: nat)
    requires |a| > 0 && multiset(a) == multiset(b)
    ensures i < |b| && b[i] == a[0]
    ensures multiset(a[1..]) == multiset(b[..i] + b[i + 1..])
  {
    assert a[0] in multiset(b);
    i :| 0 <= i < |b| && b[i] == a[0];
    OneTaken(a, 0);
    OneTaken(b, i);
    assert a[..0] + a[1..] == a[1..];
    assert multiset(a) - multiset{a[0]} == multiset(a[1..]);
  }

  /** Permutations have as many elements. */
  lemma SameLength<T>(a: seq<T>, b: seq<T>)
    requires multiset(a) == multiset(b)
    ensures |a| == |b|
  {
    assert |multiset(a)| == |a| && |multiset(b)| == |b|;
  }

  /** Two steps, as a run of them. */
  lemma Chain<L, A>(links: (L, A, L) -> bool, l0: L, a: A, l1: L, b: A, l2: L) returns (ls: seq<L>, acts: seq<A>)
    requires links(l0, a, l1) && links(l1, b, l2)
    ensures ls == [l0, l1, l2] && acts == [a, b]
    ensures forall i :: 0 <= i < |acts| ==> links(ls[i], acts[i], ls[i + 1])
  {
    ls, acts := [l0, l1, l2], [a, b];
  }

  /** And three. */
  lemma Chain3<L, A>(links: (L, A, L) -> bool, l0: L, a: A, l1: L, b: A, l2: L, c: A, l3: L)
    returns (ls: seq<L>, acts: seq<A>)
    requires links(l0, a, l1) && links(l1, b, l2) && links(l2, c, l3)
    ensures ls == [l0, l1, l2, l3] && acts == [a, b, c]
    ensures forall i :: 0 <= i < |acts| ==> links(ls[i], acts[i], ls[i + 1])
  {
    ls, acts := [l0, l1, l2, l3], [a, b, c];
  }

  /** What `f` makes of those elements of a sequence for which `p` holds, in order. */
  function Chosen<T, U>(s: seq<T>, p: T -> bool, f: T -> U): seq<U> {
    if s == [] then [] else (if p(s[0]) then [f(s[0])] else []) + Chosen(s[1..], p, f)
  }

  /** Where in a sequence a condition holds. */
  ghost function Places<T>(s: seq<T>, p: T -> bool): set<int> {
    set k | 0 <= k < |s| && p(s[k])
  }

  ghost function Shifted(a: set<int>): set<int> {
    set k | k in a :: k + 1
  }

  lemma {:induction false} ShiftSize(a: set<int>)
    ensures |Shifted(a)| == |a|
    decreases |a|
  {
    if |a| == 0 {
      assert Shifted(a) == {};
    } else {
      assert exists x :: x in a by {
        assert (forall x :: x !in a) ==> a == {};
      }
      var x :| x in a;
      assert x + 1 in Shifted(a);
      assert Shifted(a) - {x + 1} == Shifted(a - {x}) by {
        forall y | y in Shifted(a) - {x + 1}
          ensures y in Shifted(a - {x})
        {
          assert y - 1 in a - {x};
        }
      }
      ShiftSize(a - {x});
    }
  }

  /** The places are counted from the front. */
  lemma PlacesStep<T>(s: seq<T>, p: T -> bool)
    requires s != []
    ensures |Places(s, p)| == (if p(s[0]) then 1 else 0) + |Places(s[1..], p)|
  {
    var rest := Places(s[1..], p);
    var shifted := Shifted(rest);
    ShiftSize(rest);
    var first := if p(s[0]) then {0} else {};
    assert Places(s, p) == first + shifted by {
      forall k | k in Places(s, p)
        ensures k in first + shifted
      {
        if k > 0 {
          assert s[1..][k - 1] == s[k] && k - 1 in rest;
        }
      }
    }
  }

  ghost predicate Distinct<T>(s: seq<T>) {
    forall i, j :: 0 <= i < j < |s| ==> s[i] != s[j]
  }
}
