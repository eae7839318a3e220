/** Offset pagination: `paginate` of src/storage.rs. */
module Pagination {
  import opened Types

  /** The entries [start, start + limit) of a list, cut off at its end. */
  function Slice<T>(xs: seq<T>, start: nat, limit: nat): seq<T> {
    xs[Min(start, |xs|) .. Min(start + limit, |xs|)]
  }

  /** `paginate`. The sum `start + limit` is a checked u32 addition, reached only inside the list. */
  method Paginate<T>(list: seq<T>, start: nat, limit: nat) returns (result: seq<T>)
    requires start < |list| ==> start + limit <= U32_MAX
    ensures result == Slice(list, start, limit)
  {
    result := [];
    if start >= |list| {
      return;
    }
    var end := Min(start + limit, |list|);
    for i := start to end
      invariant result == list[start..i]
    {
      result := result + [list[i]];
    }
  }

  /** The first `k` pages of size `l`, one after the other. */
  function Pages<T>(xs: seq<T>, l: nat, k: nat): seq<T> {
    if k == 0 then [] else Pages(xs, l, k - 1) + Slice(xs, (k - 1) * l, l)
  }

  function PageCount(n: nat, l: nat): nat
    requires l > 0
  {
    (n + l - 1) / l
  }

  lemma {:induction false} PagesPrefix<T>(xs: seq<T>, l: nat, k: nat)
    ensures Pages(xs, l, k) == xs[..Min(k * l, |xs|)]
  {
    if k > 0 {
      PagesPrefix(xs, l, k - 1);
      assert k * l == (k - 1) * l + l;
      var a, b := Min((k - 1) * l, |xs|), Min(k * l, |xs|);
      assert xs[..b] == xs[..a] + xs[a..b];
    }
  }

  lemma DivBounds(m: nat, l: nat)
    requires l > 0
    ensures m / l * l <= m < m / l * l + l
  {
    assert m == m / l * l + m % l;
  }

  lemma MulMonotone(a: nat, b: nat, l: nat)
    requires a <= b
    ensures a * l <= b * l
  {
    assert b * l == a * l + (b - a) * l;
  }

  lemma PageCountBounds(n: nat, l: nat, k: nat)
    requires l > 0
    ensures k < PageCount(n, l) <==> k * l < n
  {
    var c := PageCount(n, l);
    DivBounds(n + l - 1, l);
    if k < c {
      MulMonotone(k, c - 1, l);
      assert (c - 1) * l == c * l - l;
    } else {
      MulMonotone(c, k, l);
    }
  }

  /** Pages at 0, l, 2l, ... tile the list: the first ceil(n / l) are non-empty and concatenate to it,
      all later ones are empty. */
  lemma PagesTile<T>(xs: seq<T>, l: nat)
    requires l > 0
    ensures Pages(xs, l, PageCount(|xs|, l)) == xs
    ensures forall k: nat :: Slice(xs, k * l, l) != [] <==> k < PageCount(|xs|, l)
  {
    PagesPrefix(xs, l, PageCount(|xs|, l));
    PageCountBounds(|xs|, l, PageCount(|xs|, l));
    forall k: nat ensures Slice(xs, k * l, l) != [] <==> k < PageCount(|xs|, l) {
      PageCountBounds(|xs|, l, k);
    }
  }
}
