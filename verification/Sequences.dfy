/** Duplicate-free lists and the two ways the contract derives one list from another. */
module Sequences {
  import opened Types

  predicate NoDup<T(==)>(xs: seq<T>) {
    forall i, j :: 0 <= i < j < |xs| ==> xs[i] != xs[j]
  }

  function Elems<T>(xs: seq<T>): set<T> { set x | x in xs }

  /** `xs` without any occurrence of `x`: what every remove loop rebuilds. */
  function Without<T(==)>(xs: seq<T>, x: T): seq<T> {
    if xs == [] then []
    else if xs[0] == x then Without(xs[1..], x)
    else [xs[0]] + Without(xs[1..], x)
  }

  /** Append to, and remove from, one list of a stored map of lists. */
  function Push(m: map<Address, seq<Id>>, k: Address, id: Id): map<Address, seq<Id>> {
    m[k := Read(m, k) + [id]]
  }

  function Drop(m: map<Address, seq<Id>>, k: Address, id: Id): map<Address, seq<Id>> {
    m[k := Without(Read(m, k), id)]
  }

  /** The members of `xs` that lie in `keep`, in order. */
  function Restrict<T>(xs: seq<T>, keep: set<T>): seq<T> {
    if xs == [] then []
    else if xs[0] in keep then [xs[0]] + Restrict(xs[1..], keep)
    else Restrict(xs[1..], keep)
  }

  lemma {:induction false} RestrictAppend<T>(xs: seq<T>, ys: seq<T>, keep: set<T>)
    ensures Restrict(xs + ys, keep) == Restrict(xs, keep) + Restrict(ys, keep)
  {
    if xs == [] {
      assert xs + ys == ys;
    } else {
      assert (xs + ys)[1..] == xs[1..] + ys;
      RestrictAppend(xs[1..], ys, keep);
    }
  }

  lemma {:induction false} RestrictMembers<T>(xs: seq<T>, keep: set<T>)
    ensures forall x :: x in Restrict(xs, keep) <==> x in xs && x in keep
  {
    if xs != [] {
      RestrictMembers(xs[1..], keep);
      assert forall x :: x in xs <==> x == xs[0] || x in xs[1..];
    }
  }

  lemma {:induction false} RestrictNoDup<T>(xs: seq<T>, keep: set<T>)
    requires NoDup(xs)
    ensures NoDup(Restrict(xs, keep))
  {
    if xs != [] {
      RestrictNoDup(xs[1..], keep);
      RestrictMembers(xs[1..], keep);
    }
  }

  /** Only the part of `keep` that occurs in `xs` matters. */
  lemma {:induction false} RestrictSame<T>(xs: seq<T>, keep: set<T>, keep': set<T>)
    requires forall x :: x in xs ==> (x in keep <==> x in keep')
    ensures Restrict(xs, keep) == Restrict(xs, keep')
  {
    if xs != [] {
      RestrictSame(xs[1..], keep, keep');
    }
  }

  lemma {:induction false} RestrictTwice<T>(xs: seq<T>, a: set<T>, b: set<T>)
    ensures Restrict(Restrict(xs, a), b) == Restrict(xs, a * b)
  {
    if xs != [] {
      RestrictTwice(xs[1..], a, b);
      if xs[0] in a {
        assert Restrict(xs, a)[1..] == Restrict(xs[1..], a);
      }
    }
  }

  lemma {:induction false} RestrictAll<T>(xs: seq<T>, keep: set<T>)
    requires forall x :: x in xs ==> x in keep
    ensures Restrict(xs, keep) == xs
  {
    if xs != [] {
      RestrictAll(xs[1..], keep);
    }
  }

  /** Removing from a derived list is deriving from a smaller set. */
  lemma {:induction false} WithoutRestrict<T>(xs: seq<T>, keep: set<T>, x: T)
    ensures Without(Restrict(xs, keep), x) == Restrict(xs, keep - {x})
  {
    if xs != [] {
      WithoutRestrict(xs[1..], keep, x);
      if xs[0] in keep {
        assert Restrict(xs, keep)[1..] == Restrict(xs[1..], keep);
      }
    }
  }

  lemma {:induction false} WithoutMembers<T>(xs: seq<T>, x: T)
    ensures forall y :: y in Without(xs, x) <==> y in xs && y != x
    ensures x !in xs ==> Without(xs, x) == xs
  {
    if xs != [] {
      WithoutMembers(xs[1..], x);
      assert forall y :: y in xs <==> y == xs[0] || y in xs[1..];
    }
  }

  lemma {:induction false} WithoutNoDup<T>(xs: seq<T>, x: T)
    requires NoDup(xs)
    ensures NoDup(Without(xs, x))
  {
    if xs != [] {
      WithoutNoDup(xs[1..], x);
      WithoutMembers(xs[1..], x);
      assert xs[0] !in xs[1..];
    }
  }

  lemma {:induction false} WithoutAppend<T>(xs: seq<T>, ys: seq<T>, x: T)
    ensures Without(xs + ys, x) == Without(xs, x) + Without(ys, x)
  {
    if xs == [] {
      assert xs + ys == ys;
    } else {
      assert (xs + ys)[1..] == xs[1..] + ys;
      WithoutAppend(xs[1..], ys, x);
    }
  }

  lemma {:induction false} NoDupCardinality<T>(xs: seq<T>)
    ensures NoDup(xs) ==> |Elems(xs)| == |xs|
  {
    if xs != [] && NoDup(xs) {
      NoDupCardinality(xs[1..]);
      assert Elems(xs) == {xs[0]} + Elems(xs[1..]);
    }
  }

  /** The loop shared by every `remove_*` in src/storage.rs: copy all entries but one. */
  method RemoveFromList<T(==)>(existing: seq<T>, x: T) returns (updated: seq<T>)
    ensures updated == Without(existing, x)
    ensures forall y :: y in updated <==> y in existing && y != x
    ensures NoDup(existing) ==> NoDup(updated)
  {
    updated := [];
    for i := 0 to |existing|
      invariant updated == Without(existing[..i], x)
    {
      assert existing[..i + 1] == existing[..i] + [existing[i]];
      WithoutAppend(existing[..i], [existing[i]], x);
      if existing[i] != x {
        updated := updated + [existing[i]];
      }
    }
    assert existing[..|existing|] == existing;
    WithoutMembers(existing, x);
    if NoDup(existing) {
      WithoutNoDup(existing, x);
    }
  }
}
