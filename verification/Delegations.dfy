/** Delegated issuance rights: src/admin.rs and the delegator index of src/storage.rs. */
module Delegations {
  import opened Types
  import opened Sequences
  import opened Ledger
  import opened Worlds
  import opened Pagination

  type Pair = (Address, ClaimType)

  function IndexOf(w: World, delegator: Address): seq<Pair> {
    if delegator in w.delegatorIndex then w.delegatorIndex[delegator] else []
  }

  /** `delegate_claim_type`. */
  function Grant(w: World, env: Env, issuer: Address, delegate: Address, claimType: ClaimType,
                 expiration: Option<nat>): Result<World>
  {
    var index, entry := IndexOf(w, issuer), (delegate, claimType);
    if issuer !in env.issuers then Err(Unauthorized)
    else if issuer == delegate then Err(CannotDelegateToSelf)
    else if !FutureOrNone(expiration, env.now) then Err(InvalidExpiration)
    else
      Ok(w.(delegations := w.delegations[(issuer, delegate, claimType) := Delegation(issuer, delegate, claimType, expiration)],
            delegatorIndex := if entry in index then w.delegatorIndex else w.delegatorIndex[issuer := index + [entry]]))
  }

  /** `revoke_delegation`. */
  function Withdraw(w: World, env: Env, issuer: Address, delegate: Address, claimType: ClaimType): Result<World> {
    if issuer !in env.issuers then Err(Unauthorized)
    else if (issuer, delegate, claimType) !in w.delegations then Err(NotFound)
    else
      Ok(w.(delegations := w.delegations - {(issuer, delegate, claimType)},
            delegatorIndex := w.delegatorIndex[issuer := Without(IndexOf(w, issuer), (delegate, claimType))]))
  }

  /** The index of a delegator lists each existing delegation exactly once. */
  ghost predicate DelegationsOk(w: World) {
    && (forall k: (Address, Address, ClaimType) :: k in w.delegations ==>
          w.delegations[k].delegator == k.0 && w.delegations[k].delegate == k.1 && w.delegations[k].claimType == k.2)
    && (forall issuer :: NoDup(IndexOf(w, issuer)))
    && (forall issuer, delegate, claimType ::
          (delegate, claimType) in IndexOf(w, issuer) <==> (issuer, delegate, claimType) in w.delegations)
  }

  lemma GrantKeepsDelegations(w: World, env: Env, issuer: Address, delegate: Address, claimType: ClaimType, expiration: Option<nat>)
    requires DelegationsOk(w)
    ensures var r := Grant(w, env, issuer, delegate, claimType, expiration); r.Ok? ==> DelegationsOk(r.value)
  {
    var r := Grant(w, env, issuer, delegate, claimType, expiration);
    if r.Ok? {
      forall x ensures NoDup(IndexOf(r.value, x)) {
        assert NoDup(IndexOf(w, x));
      }
    }
  }

  lemma WithdrawKeepsDelegations(w: World, env: Env, issuer: Address, delegate: Address, claimType: ClaimType)
    requires DelegationsOk(w)
    ensures var r := Withdraw(w, env, issuer, delegate, claimType); r.Ok? ==> DelegationsOk(r.value)
  {
    var r := Withdraw(w, env, issuer, delegate, claimType);
    if r.Ok? {
      WithoutMembers(IndexOf(w, issuer), (delegate, claimType));
      WithoutNoDup(IndexOf(w, issuer), (delegate, claimType));
      forall x ensures NoDup(IndexOf(r.value, x)) {
        assert NoDup(IndexOf(w, x));
      }
    }
  }

  /** A grant stores the delegation with the expiration given, to somebody else, and changes no other. */
  lemma GrantStores(w: World, env: Env, issuer: Address, delegate: Address, claimType: ClaimType, expiration: Option<nat>)
    requires Grant(w, env, issuer, delegate, claimType, expiration).Ok?
    ensures var w1, k := Grant(w, env, issuer, delegate, claimType, expiration).value, (issuer, delegate, claimType);
      && issuer != delegate && w1 == w.(delegations := w1.delegations, delegatorIndex := w1.delegatorIndex)
      && k in w1.delegations && w1.delegations[k] == Delegation(issuer, delegate, claimType, expiration)
      && (forall x: (Address, Address, ClaimType) :: x != k ==>
            (x in w1.delegations <==> x in w.delegations) && (x in w.delegations ==> w1.delegations[x] == w.delegations[x]))
      && (forall x :: IndexOf(w, x) <= IndexOf(w1, x))
  {
  }

  /** A withdrawal removes exactly that delegation. */
  lemma WithdrawRemoves(w: World, env: Env, issuer: Address, delegate: Address, claimType: ClaimType)
    requires Withdraw(w, env, issuer, delegate, claimType).Ok?
    ensures var w1, k := Withdraw(w, env, issuer, delegate, claimType).value, (issuer, delegate, claimType);
      && k in w.delegations && w1 == w.(delegations := w1.delegations, delegatorIndex := w1.delegatorIndex)
      && (forall x: (Address, Address, ClaimType) ::
            (x in w1.delegations <==> x in w.delegations && x != k) && (x in w1.delegations ==> w1.delegations[x] == w.delegations[x]))
  {
    hide Without;
  }

  // ---------------------------------------------------------------- listing

  predicate Active(w: World, now: nat, delegator: Address, entry: Pair) {
    var k := (delegator, entry.0, entry.1);
    k in w.delegations && FutureOrNone(w.delegations[k].expiration, now)
  }

  /** The unexpired delegations of an index, in index order. */
  function ActiveList(w: World, now: nat, delegator: Address, index: seq<Pair>): seq<Delegation> {
    if index == [] then []
    else
      var n := |index| - 1;
      ActiveList(w, now, delegator, index[..n]) +
      if Active(w, now, delegator, index[n]) then [w.delegations[(delegator, index[n].0, index[n].1)]] else []
  }

  lemma {:induction false} ActivePrefix(w: World, now: nat, delegator: Address, index: seq<Pair>, i: nat)
    requires i <= |index|
    ensures ActiveList(w, now, delegator, index[..i]) <= ActiveList(w, now, delegator, index)
    decreases |index|
  {
    var n := |index| - 1;
    if i <= n {
      ActivePrefix(w, now, delegator, index[..n], i);
      assert index[..n][..i] == index[..i];
    } else {
      assert index[..i] == index;
    }
  }

  lemma {:induction false} ActiveMembers(w: World, now: nat, delegator: Address, index: seq<Pair>)
    ensures forall d :: d in ActiveList(w, now, delegator, index) <==>
      exists entry :: entry in index && Active(w, now, delegator, entry) && w.delegations[(delegator, entry.0, entry.1)] == d
  {
    if index != [] {
      var n := |index| - 1;
      ActiveMembers(w, now, delegator, index[..n]);
      assert forall entry :: entry in index <==> entry in index[..n] || entry == index[n];
    }
  }

  /** What a delegator can list: exactly its stored delegations that have not expired. */
  lemma ActiveForDelegator(w: World, now: nat, delegator: Address)
    requires DelegationsOk(w)
    ensures forall d :: d in ActiveList(w, now, delegator, IndexOf(w, delegator)) <==>
      var k := (delegator, d.delegate, d.claimType);
      k in w.delegations && w.delegations[k] == d && (d.expiration.None? || now < d.expiration.value)
  {
    var index := IndexOf(w, delegator);
    ActiveMembers(w, now, delegator, index);
    forall d
      ensures d in ActiveList(w, now, delegator, index) <==>
        var k := (delegator, d.delegate, d.claimType);
        k in w.delegations && w.delegations[k] == d && (d.expiration.None? || now < d.expiration.value)
    {
      var k, entry := (delegator, d.delegate, d.claimType), (d.delegate, d.claimType);
      if k in w.delegations && w.delegations[k] == d && (d.expiration.None? || now < d.expiration.value) {
        assert entry in index && Active(w, now, delegator, entry);
      }
    }
  }

  /** They are listed in the order of the index. */
  lemma {:induction false} ActiveInOrder(w: World, now: nat, delegator: Address, index: seq<Pair>, active: set<Pair>)
    requires DelegationsOk(w) && forall entry :: entry in index ==> (entry in active <==> Active(w, now, delegator, entry))
    ensures var ds := ActiveList(w, now, delegator, index);
      Restrict(index, active) == seq(|ds|, i requires 0 <= i < |ds| => (ds[i].delegate, ds[i].claimType))
  {
    if index != [] {
      var n := |index| - 1;
      ActiveInOrder(w, now, delegator, index[..n], active);
      assert index == index[..n] + [index[n]] && [index[n]][1..] == [];
      RestrictAppend(index[..n], [index[n]], active);
      assert index[n] in index;
    }
  }

  lemma NoneActive(w: World, now: nat, delegator: Address)
    ensures ActiveList(w, now, delegator, []) == []
  {
  }

  lemma ActiveSnoc(w: World, now: nat, delegator: Address, index: seq<Pair>, i: nat)
    requires i < |index|
    ensures ActiveList(w, now, delegator, index[..i + 1])
         == ActiveList(w, now, delegator, index[..i]) +
            if Active(w, now, delegator, index[i]) then [w.delegations[(delegator, index[i].0, index[i].1)]] else []
  {
    assert index[..i + 1][..i] == index[..i];
  }

  /** `list_delegations_by_delegator`: one pass that skips, filters and takes at once. */
  method List(w: World, now: nat, delegator: Address, start: nat, limit: nat) returns (result: seq<Delegation>)
    ensures result == Slice(ActiveList(w, now, delegator, IndexOf(w, delegator)), start, limit)
  {
    hide ActiveList;
    var index := IndexOf(w, delegator);
    NoneActive(w, now, delegator);
    ghost var all := ActiveList(w, now, delegator, index);
    result := [];
    var count, skipped := 0, 0;
    for i := 0 to |index|
      invariant skipped == Min(start, |ActiveList(w, now, delegator, index[..i])|)
      invariant count == |result| <= limit
      invariant skipped < start ==> result == []
      invariant skipped + count == |ActiveList(w, now, delegator, index[..i])|
      invariant result == ActiveList(w, now, delegator, index[..i])[skipped..]
    {
      ActivePrefix(w, now, delegator, index, i);
      ActivePrefix(w, now, delegator, index, i + 1);
      ActiveSnoc(w, now, delegator, index, i);
      if Active(w, now, delegator, index[i]) {
        var d := w.delegations[(delegator, index[i].0, index[i].1)];
        if skipped < start {
          skipped := skipped + 1;
          continue;
        }
        if count >= limit {
          break;
        }
        result := result + [d];
        count := count + 1;
      }
    }
    assert index[..|index|] == index;
  }
}
