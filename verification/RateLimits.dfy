/** Issuance rate limiting over whole runs: `check_rate_limit` of src/attestation.rs. */
module RateLimits {
  import opened Types
  import opened Sequences
  import opened Worlds
  import opened Runs
  import opened Calls
  import L = Ledger
  import B = Batches

  /** A successful creation: its time and the interval in force for its claim type. */
  datatype Issuance = Issuance(time: nat, interval: nat)

  predicate IsIssuance(w: World, c: Call, issuer: Address) {
    && Attempt(w, c).Ok? && (c.action.Create? || c.action.CreateBatch?) && c.action.issuer == issuer
  }

  /** The successful single and batch creations of an issuer along a run. */
  function Issuances(w: World, calls: seq<Call>, issuer: Address): seq<Issuance>
    decreases |calls|
  {
    if calls == [] then []
    else
      var rest := Issuances(Apply(w, calls[0]), calls[1..], issuer);
      if IsIssuance(w, calls[0], issuer)
      then [Issuance(calls[0].env.now, L.Interval(calls[0].env, calls[0].action.claimType))] + rest
      else rest
  }

  function Sum(xs: seq<Issuance>): nat {
    if xs == [] then 0 else xs[0].interval + Sum(xs[1..])
  }

  /** Ledger time never goes back. */
  predicate Monotone(calls: seq<Call>) {
    forall i, j :: 0 <= i < j < |calls| ==> calls[i].env.now <= calls[j].env.now
  }

  lemma {:induction false} SnapshotsKeepTime(l: L.Ledger, env: Env, issuer: Address, batch: seq<Attestation>, reason: Option<string>)
    ensures L.RevokeSnapshots(l, env, issuer, batch, reason).lastIssued == l.lastIssued
    decreases |batch|
  {
    if batch != [] {
      SnapshotsKeepTime(L.RevokeSnapshot(l, env, issuer, batch[0], reason), env, issuer, batch[1..], reason);
    }
  }

  /** The claim type's own interval comes first, then the global one, then none. */
  lemma IntervalIs(env: Env, claimType: ClaimType)
    ensures claimType in env.claimInterval ==> L.Interval(env, claimType) == env.claimInterval[claimType]
    ensures claimType !in env.claimInterval && env.globalInterval.Some? ==> L.Interval(env, claimType) == env.globalInterval.value
    ensures claimType !in env.claimInterval && env.globalInterval.None? ==> L.Interval(env, claimType) == 0
  {
  }

  lemma CreateClock(l: L.Ledger, env: Env, issuer: Address, subject: Address, claimType: ClaimType,
                    expiration: Option<nat>, metadata: Option<string>, validFrom: Option<nat>)
    requires L.Create(l, env, issuer, subject, claimType, expiration, metadata, validFrom).Ok?
    ensures L.RateAllows(l, env, issuer, claimType)
    ensures L.Create(l, env, issuer, subject, claimType, expiration, metadata, validFrom).value.lastIssued == l.lastIssued[issuer := env.now]
  {
    hide L.RateAllows, Push;
  }

  lemma BatchClock(l: L.Ledger, env: Env, issuer: Address, subjects: seq<Address>, claimType: ClaimType, expiration: Option<nat>)
    requires L.CreateBatch(l, env, issuer, subjects, claimType, expiration).Ok?
    ensures L.RateAllows(l, env, issuer, claimType)
    ensures L.CreateBatch(l, env, issuer, subjects, claimType, expiration).value.lastIssued == l.lastIssued[issuer := env.now]
  {
    hide L.BatchLoop, L.RateAllows;
    B.LoopKeepsIssuerSide(l, env, issuer, subjects, claimType, expiration);
  }

  /** An issuance comes once the configured interval has passed, and sets the issuer's clock. */
  lemma IssuanceStep(w: World, c: Call, issuer: Address)
    requires IsIssuance(w, c, issuer)
    ensures L.RateAllows(w.ledger, c.env, issuer, c.action.claimType)
    ensures Rested(w.ledger.lastIssued, c.env, issuer, c.action.claimType)
    ensures Apply(w, c).ledger.lastIssued == w.ledger.lastIssued[issuer := c.env.now]
  {
    hide L.Create, L.CreateBatch, L.RateAllows, Rested;
    var a := c.action;
    RestedIff(w.ledger, c.env, issuer, a.claimType);
    if a.CreateBatch? {
      BatchClock(w.ledger, c.env, issuer, a.subjects, a.claimType, a.expiration);
    } else {
      CreateClock(w.ledger, c.env, issuer, a.subject, a.claimType, a.expiration, a.metadata, a.validFrom);
    }
  }

  lemma CreationKeepsTime(w: World, c: Call)
    requires c.action.Import? || c.action.Bridge? || c.action.CreateAsDelegate?
    ensures Apply(w, c).ledger.lastIssued == w.ledger.lastIssued
  {
    hide Push, Count;
  }

  lemma MultisigKeepsTime(w: World, c: Call)
    requires c.action.Propose? || c.action.Cosign?
    ensures Apply(w, c).ledger.lastIssued == w.ledger.lastIssued
  {
    hide L.Put, UncheckedRecord;
    if Attempt(w, c).Ok? {
      if c.action.Propose? { ProposeStores(w, c); } else { CosignStores(w, c); }
    }
  }

  lemma ChangeKeepsTime(w: World, c: Call)
    requires c.action.Revoke? || c.action.Renew? || c.action.UpdateExpiration? || c.action.Transfer? || c.action.Delete?
    ensures Apply(w, c).ledger.lastIssued == w.ledger.lastIssued
  {
    hide Push, Drop, Count;
  }

  lemma RevokeBatchKeepsTime(w: World, c: Call)
    requires c.action.RevokeBatch?
    ensures Apply(w, c).ledger.lastIssued == w.ledger.lastIssued
  {
    hide L.Gather, L.RevokeSnapshots;
    if L.Gather(w.ledger, c.action.issuer, c.action.ids, []).Ok? {
      SnapshotsKeepTime(w.ledger, c.env, c.action.issuer, L.Gather(w.ledger, c.action.issuer, c.action.ids, []).value, c.action.reason);
    }
  }

  lemma OtherCallKeepsTime(w: World, c: Call)
    requires c.action.Submit? || c.action.Reject? || c.action.Cancel? || c.action.Grant? || c.action.Withdraw?
    ensures Apply(w, c).ledger.lastIssued == w.ledger.lastIssued
  {
    hide Push, Drop;
  }

  lemma FulfillKeepsTime(w: World, c: Call)
    requires c.action.Fulfill?
    ensures Apply(w, c).ledger.lastIssued == w.ledger.lastIssued
  {
    hide Push, Drop, Count;
  }

  /** No other call touches the issuer's clock. */
  lemma ClockKept(w: World, c: Call, issuer: Address)
    requires !IsIssuance(w, c, issuer)
    ensures issuer in Apply(w, c).ledger.lastIssued <==> issuer in w.ledger.lastIssued
    ensures issuer in w.ledger.lastIssued ==> Apply(w, c).ledger.lastIssued[issuer] == w.ledger.lastIssued[issuer]
  {
    hide Apply;
    assert Attempt(w, c).Err? ==> Apply(w, c) == w by { Rejected(w, c); }
    match c.action
    case Create(i, _, _, _, _, _) => if Attempt(w, c).Ok? { IssuanceStep(w, c, i); }
    case CreateBatch(i, _, _, _) => if Attempt(w, c).Ok? { IssuanceStep(w, c, i); }
    case Import(_, _, _, _, _, _) => CreationKeepsTime(w, c);
    case Bridge(_, _, _, _, _) => CreationKeepsTime(w, c);
    case CreateAsDelegate(_, _, _, _, _, _) => CreationKeepsTime(w, c);
    case Propose(_, _, _, _, _) => MultisigKeepsTime(w, c);
    case Cosign(_, _) => MultisigKeepsTime(w, c);
    case Revoke(_, _, _) => ChangeKeepsTime(w, c);
    case RevokeBatch(_, _, _) => RevokeBatchKeepsTime(w, c);
    case Renew(_, _, _) => ChangeKeepsTime(w, c);
    case UpdateExpiration(_, _, _) => ChangeKeepsTime(w, c);
    case Transfer(_, _, _) => ChangeKeepsTime(w, c);
    case Delete(_, _) => ChangeKeepsTime(w, c);
    case Fulfill(_, _, _) => FulfillKeepsTime(w, c);
    case _ => OtherCallKeepsTime(w, c);
  }

  lemma Rejected(w: World, c: Call)
    ensures Attempt(w, c).Err? ==> Apply(w, c) == w
  {
  }

  /** Once the clock of an issuer is set, its later issuances lie at least the sum of their intervals
      after it. */
  lemma {:induction false} IssuancesSpaced(w: World, calls: seq<Call>, issuer: Address)
    requires Monotone(calls) && issuer in w.ledger.lastIssued
    requires calls != [] ==> w.ledger.lastIssued[issuer] <= calls[0].env.now
    ensures var xs := Issuances(w, calls, issuer);
      xs != [] ==> xs[|xs| - 1].time - w.ledger.lastIssued[issuer] >= Sum(xs)
    decreases |calls|
  {
    hide Apply, Attempt;
    if calls != [] {
      var c, w1, rest := calls[0], Apply(w, calls[0]), calls[1..];
      if IsIssuance(w, c, issuer) {
        IssuanceStep(w, c, issuer);
      } else {
        ClockKept(w, c, issuer);
      }
      IssuancesSpaced(w1, rest, issuer);
      var xs, ys := Issuances(w, calls, issuer), Issuances(w1, rest, issuer);
      if IsIssuance(w, c, issuer) {
        assert xs[1..] == ys;
      }
    }
  }

  /** The rate limit telescopes: the time from the first to the last issuance of a run is at least the
      sum of the intervals of all but the first. */
  lemma {:induction false} RateLimitTelescopes(w: World, calls: seq<Call>, issuer: Address)
    requires Monotone(calls)
    ensures var xs := Issuances(w, calls, issuer);
      xs != [] ==> xs[|xs| - 1].time - xs[0].time >= Sum(xs[1..])
    decreases |calls|
  {
    hide Apply, Attempt;
    if calls != [] {
      var c, w1, rest := calls[0], Apply(w, calls[0]), calls[1..];
      var xs, ys := Issuances(w, calls, issuer), Issuances(w1, rest, issuer);
      if IsIssuance(w, c, issuer) {
        IssuanceStep(w, c, issuer);
        IssuancesSpaced(w1, rest, issuer);
        assert xs[1..] == ys;
      } else {
        RateLimitTelescopes(w1, rest, issuer);
      }
    }
  }

  lemma {:induction false} SumConstant(xs: seq<Issuance>, d: nat)
    requires forall i :: 0 <= i < |xs| ==> xs[i].interval == d
    ensures Sum(xs) == |xs| * d
  {
    if xs != [] {
      SumConstant(xs[1..], d);
      assert |xs| * d == d + (|xs| - 1) * d;
    }
  }

  /** With one interval `d` throughout, `n` issuances take at least `(n - 1) * d` seconds. */
  lemma SingleInterval(w: World, calls: seq<Call>, issuer: Address, d: nat)
    requires Monotone(calls)
    requires forall i :: 0 <= i < |Issuances(w, calls, issuer)| ==> Issuances(w, calls, issuer)[i].interval == d
    ensures var xs := Issuances(w, calls, issuer);
      xs != [] ==> (|xs| - 1) * d <= xs[|xs| - 1].time - xs[0].time
  {
    var xs := Issuances(w, calls, issuer);
    RateLimitTelescopes(w, calls, issuer);
    if xs != [] {
      SumConstant(xs[1..], d);
    }
  }

  /** The creations of the issuer are all limited to one per `d` seconds, by the claim type's own limit or, where
      it has none, by the global one. */
  predicate Configured(calls: seq<Call>, issuer: Address, d: nat) {
    forall i :: 0 <= i < |calls| && (calls[i].action.Create? || calls[i].action.CreateBatch?) && calls[i].action.issuer == issuer ==>
      var env, claimType := calls[i].env, calls[i].action.claimType;
      || (claimType in env.claimInterval && env.claimInterval[claimType] == d)
      || (claimType !in env.claimInterval && env.globalInterval == Some(d))
  }

  lemma {:induction false} ConfiguredIntervals(w: World, calls: seq<Call>, issuer: Address, d: nat)
    requires Configured(calls, issuer, d)
    ensures forall i :: 0 <= i < |Issuances(w, calls, issuer)| ==> Issuances(w, calls, issuer)[i].interval == d
    decreases |calls|
  {
    hide Apply, Attempt;
    if calls != [] {
      assert forall i :: 0 <= i < |calls[1..]| ==> calls[1..][i] == calls[i + 1];
      ConfiguredIntervals(Apply(w, calls[0]), calls[1..], issuer, d);
      if IsIssuance(w, calls[0], issuer) {
        IntervalIs(calls[0].env, calls[0].action.claimType);
      }
    }
  }

  /** Under such a configuration `n` issuances take at least `(n - 1) * d` seconds. */
  lemma ConfiguredSpacing(w: World, calls: seq<Call>, issuer: Address, d: nat)
    requires Monotone(calls) && Configured(calls, issuer, d)
    ensures var xs := Issuances(w, calls, issuer);
      xs != [] ==> (|xs| - 1) * d <= xs[|xs| - 1].time - xs[0].time
  {
    hide Apply, Attempt, Issuances;
    ConfiguredIntervals(w, calls, issuer, d);
    SingleInterval(w, calls, issuer, d);
  }
}
