/** Every run of the contract: any sequence of calls, each in its own environment. */
module Runs {
  import opened Types
  import opened Sequences
  import opened Coherence
  import opened Evolution
  import opened Worlds
  import L = Ledger
  import B = Batches
  import M = Multisig
  import R = Requests
  import D = Delegations

  datatype Action =
    | Create(issuer: Address, subject: Address, claimType: ClaimType, expiration: Option<nat>,
             metadata: Option<string>, validFrom: Option<nat>)
    | Import(admin: Address, issuer: Address, subject: Address, claimType: ClaimType, timestamp: nat, expiration: Option<nat>)
    | Bridge(bridge: Address, subject: Address, claimType: ClaimType, chain: string, tx: string)
    | CreateBatch(issuer: Address, subjects: seq<Address>, claimType: ClaimType, expiration: Option<nat>)
    | CreateAsDelegate(delegate: Address, delegator: Address, subject: Address, claimType: ClaimType,
                       expiration: Option<nat>, metadata: Option<string>)
    | Revoke(issuer: Address, id: Id, reason: Option<string>)
    | RevokeBatch(issuer: Address, ids: seq<Id>, reason: Option<string>)
    | Renew(issuer: Address, id: Id, expiration: Option<nat>)
    | UpdateExpiration(issuer: Address, id: Id, expiration: Option<nat>)
    | Transfer(admin: Address, id: Id, newIssuer: Address)
    | Delete(subject: Address, id: Id)
    | Propose(proposer: Address, subject: Address, claimType: ClaimType, requiredSigners: seq<Address>, threshold: nat)
    | Cosign(issuer: Address, id: Id)
    | Submit(subject: Address, issuer: Address, claimType: ClaimType)
    | Fulfill(issuer: Address, id: Id, expiration: Option<nat>)
    | Reject(issuer: Address, id: Id, reason: Option<string>)
    | Cancel(subject: Address, id: Id)
    | Grant(issuer: Address, delegate: Address, claimType: ClaimType, expiration: Option<nat>)
    | Withdraw(issuer: Address, delegate: Address, claimType: ClaimType)

  datatype Call = Call(env: Env, action: Action)

  function Lookup(w: World, delegator: Address, delegate: Address, claimType: ClaimType): Option<Delegation> {
    if (delegator, delegate, claimType) in w.delegations then Some(w.delegations[(delegator, delegate, claimType)]) else None
  }

  /** The calls that touch nothing but the ledger. */
  function OnLedger(w: World, env: Env, a: Action): Option<Result<L.Ledger>> {
    match a
    case Create(i, s, c, e, m, v) => Some(L.Create(w.ledger, env, i, s, c, e, m, v))
    case Import(ad, i, s, c, t, e) => Some(L.Import(w.ledger, env, ad, i, s, c, t, e))
    case Bridge(b, s, c, chain, tx) => Some(L.Bridge(w.ledger, env, b, s, c, chain, tx))
    case CreateBatch(i, ss, c, e) => Some(L.CreateBatch(w.ledger, env, i, ss, c, e))
    case CreateAsDelegate(d, i, s, c, e, m) => Some(L.CreateAsDelegate(w.ledger, env, Lookup(w, i, d, c), d, i, s, c, e, m))
    case Revoke(i, id, r) => Some(L.Revoke(w.ledger, env, i, id, r))
    case RevokeBatch(i, ids, r) => Some(L.RevokeBatch(w.ledger, env, i, ids, r))
    case Renew(i, id, e) => Some(L.SetExpiration(w.ledger, env, i, id, e, Renewed))
    case UpdateExpiration(i, id, e) => Some(L.SetExpiration(w.ledger, env, i, id, e, Updated))
    case Transfer(ad, id, n) => Some(L.Transfer(w.ledger, env, ad, id, n))
    case Delete(s, id) => Some(L.Delete(w.ledger, env, s, id))
    case _ => None
  }

  /** The calls of the protocols on top. */
  function OnWorld(w: World, env: Env, a: Action): Result<World>
    requires OnLedger(w, env, a).None?
  {
    match a
    case Propose(p, s, c, rs, t) => M.Propose(w, env, p, s, c, rs, t)
    case Cosign(i, id) => M.Cosign(w, env, i, id)
    case Submit(s, i, c) => R.Submit(w, env, s, i, c)
    case Fulfill(i, id, e) => R.Fulfill(w, env, i, id, e)
    case Reject(i, id, r) => R.Reject(w, env, i, id, r)
    case Cancel(s, id) => R.Cancel(w, env, s, id)
    case Grant(i, d, c, e) => D.Grant(w, env, i, d, c, e)
    case Withdraw(i, d, c) => D.Withdraw(w, env, i, d, c)
  }

  function Attempt(w: World, c: Call): Result<World> {
    match OnLedger(w, c.env, c.action)
    case Some(Ok(l)) => Ok(w.(ledger := l))
    case Some(Err(e)) => Err(e)
    case None => OnWorld(w, c.env, c.action)
  }

  /** A rejected call is rolled back. */
  function Apply(w: World, c: Call): World {
    match Attempt(w, c)
    case Ok(w1) => w1
    case Err(_) => w
  }

  function Run(w: World, calls: seq<Call>): World
    decreases |calls|
  {
    if calls == [] then w else Run(Apply(w, calls[0]), calls[1..])
  }

  lemma RunSplit(w: World, c: Call, calls: seq<Call>)
    ensures Run(w, [c] + calls) == Run(Apply(w, c), calls)
  {
    hide Apply;
    assert ([c] + calls)[1..] == calls;
  }

  // ---------------------------------------------------------------- the freshness hypothesis

  /** The record a successful call stores without checking that its id is unused, if there is one:
      only the two storing paths of src/multisig.rs do that. */
  function UncheckedRecord(w: World, c: Call): Option<Attestation> {
    if Attempt(w, c).Err? then None
    else
      match c.action
      case Propose(p, s, ct, _, _) =>
        if M.Bypasses(c.env, p, ct)
        then Some(L.NewRecord(c.env.attestationId(p, s, ct, c.env.now), p, s, ct, c.env.now, None))
        else None
      case Cosign(_, id) =>
        if id in w.proposals && |w.proposals[id].signers| + 1 >= w.proposals[id].threshold
        then Some(M.FinalRecord(c.env, w.proposals[id]))
        else None
      case _ => None
  }

  predicate FreshCall(w: World, c: Call) {
    var a := UncheckedRecord(w, c);
    a.None? || a.value.id !in w.ledger.records
  }

  /** Along the run, no multisig path stores an id that is already in use. */
  predicate FreshRun(w: World, calls: seq<Call>)
    decreases |calls|
  {
    calls == [] || (FreshCall(w, calls[0]) && FreshRun(Apply(w, calls[0]), calls[1..]))
  }

  // ---------------------------------------------------------------- one call

  /** What the protocols on top of the ledger keep. */
  ghost predicate ProtocolsOk(w: World) {
    M.ProposalsOk(w) && R.RequestsOk(w) && D.DelegationsOk(w)
  }

  ghost predicate WorldOk(w: World) {
    Coherent(w.ledger) && ProtocolsOk(w)
  }

  ghost predicate LedgerKept(l: L.Ledger, l1: L.Ledger) { Coherent(l1) && Evolves(l, l1) }

  lemma PutKeeps(l: L.Ledger, a: Attestation, actor: Address)
    requires Coherent(l) && FreshRecord(a) && a.id !in l.records
    ensures L.Put(l, a).Ok? ==> LedgerKept(l, L.Put(l, a).value)
    ensures L.PutLogged(l, a, actor).Ok? ==> LedgerKept(l, L.PutLogged(l, a, actor).value)
  {
    hide Coherent, Evolves;
    StoreCoherent(l, a);
    StoreEvolves(l, a);
    var l1 := B.StoreLogged(l, a, L.CreatedBy(actor, a.timestamp));
  }

  lemma LastIssuedKeeps(l: L.Ledger, l1: L.Ledger, last: map<Address, nat>)
    requires LedgerKept(l, l1)
    ensures LedgerKept(l, l1.(lastIssued := last))
  {
    SameRecords(l1, l1.(lastIssued := last));
  }

  lemma CreateKeeps(l: L.Ledger, env: Env, issuer: Address, subject: Address, claimType: ClaimType,
                    expiration: Option<nat>, metadata: Option<string>, validFrom: Option<nat>)
    requires Coherent(l)
    ensures var r := L.Create(l, env, issuer, subject, claimType, expiration, metadata, validFrom);
      r.Ok? ==> LedgerKept(l, r.value)
  {
    hide Coherent, Evolves;
    var r := L.Create(l, env, issuer, subject, claimType, expiration, metadata, validFrom);
    if r.Ok? {
      var id := env.attestationId(issuer, subject, claimType, env.now);
      var a := L.NewRecord(id, issuer, subject, claimType, env.now, expiration).(metadata := metadata, validFrom := validFrom);
      PutKeeps(l, a, issuer);
      var l1 := L.PutLogged(l, a, issuer).value;
      LastIssuedKeeps(l, l1, l1.lastIssued[issuer := env.now]);
    }
  }

  lemma ImportKeeps(l: L.Ledger, env: Env, admin: Address, issuer: Address, subject: Address, claimType: ClaimType,
                    timestamp: nat, expiration: Option<nat>)
    requires Coherent(l)
    ensures var r := L.Import(l, env, admin, issuer, subject, claimType, timestamp, expiration);
      r.Ok? ==> LedgerKept(l, r.value)
  {
    hide Coherent, Evolves;
    if L.Import(l, env, admin, issuer, subject, claimType, timestamp, expiration).Ok? {
      var id := env.attestationId(issuer, subject, claimType, timestamp);
      PutKeeps(l, L.NewRecord(id, issuer, subject, claimType, timestamp, expiration).(origin := Imported), admin);
    }
  }

  lemma BridgeKeeps(l: L.Ledger, env: Env, bridge: Address, subject: Address, claimType: ClaimType, chain: string, tx: string)
    requires Coherent(l)
    ensures var r := L.Bridge(l, env, bridge, subject, claimType, chain, tx); r.Ok? ==> LedgerKept(l, r.value)
  {
    hide Coherent, Evolves;
    if L.Bridge(l, env, bridge, subject, claimType, chain, tx).Ok? {
      var id := env.bridgeId(bridge, subject, claimType, chain, tx, env.now);
      PutKeeps(l, L.NewRecord(id, bridge, subject, claimType, env.now, None).(origin := Bridged(chain, tx)), bridge);
    }
  }

  lemma CreateAsDelegateKeeps(l: L.Ledger, env: Env, delegation: Option<Delegation>, delegate: Address, delegator: Address,
                              subject: Address, claimType: ClaimType, expiration: Option<nat>, metadata: Option<string>)
    requires Coherent(l)
    ensures var r := L.CreateAsDelegate(l, env, delegation, delegate, delegator, subject, claimType, expiration, metadata);
      r.Ok? ==> LedgerKept(l, r.value)
  {
    hide Coherent, Evolves;
    if L.CreateAsDelegate(l, env, delegation, delegate, delegator, subject, claimType, expiration, metadata).Ok? {
      var id := env.attestationId(delegator, subject, claimType, env.now);
      PutKeeps(l, L.NewRecord(id, delegator, subject, claimType, env.now, expiration).(metadata := metadata), delegate);
    }
  }

  lemma KeyedLedger(l: L.Ledger)
    requires Coherent(l)
    ensures Keyed(l)
  {
  }

  lemma RevokeKeeps(l: L.Ledger, env: Env, issuer: Address, id: Id, reason: Option<string>)
    requires Coherent(l)
    ensures var r := L.Revoke(l, env, issuer, id, reason); r.Ok? ==> LedgerKept(l, r.value)
  {
    hide Coherent, Evolves, L.RevokeOne;
    if L.Revoke(l, env, issuer, id, reason).Ok? {
      KeyedLedger(l);
      RevokeOneCoherent(l, env, issuer, id, reason);
      RevokeOneEvolves(l, env, issuer, id, reason);
    }
  }

  lemma TransferKeeps(l: L.Ledger, env: Env, admin: Address, id: Id, newIssuer: Address)
    requires Coherent(l)
    ensures var r := L.Transfer(l, env, admin, id, newIssuer); r.Ok? ==> LedgerKept(l, r.value)
  {
    hide Coherent, Evolves, L.Move;
    EvolvesReflexive(l);
    KeyedLedger(l);
    if id in l.records && l.records[id].issuer != newIssuer {
      MoveCoherent(l, env, admin, id, newIssuer);
      MoveEvolves(l, env, admin, id, newIssuer);
    }
  }

  lemma DeleteKeeps(l: L.Ledger, env: Env, subject: Address, id: Id)
    requires Coherent(l)
    ensures var r := L.Delete(l, env, subject, id); r.Ok? ==> LedgerKept(l, r.value)
  {
    hide Coherent, Evolves, L.Erase;
    KeyedLedger(l);
    if id in l.records {
      EraseCoherent(l, env, id);
      EraseEvolves(l, env, id);
    }
  }

  lemma OnLedgerKeeps(w: World, env: Env, a: Action)
    requires Coherent(w.ledger)
    ensures var r := OnLedger(w, env, a); r.Some? && r.value.Ok? ==> LedgerKept(w.ledger, r.value.value)
  {
    hide Coherent, Evolves, L.Create, L.Import, L.Bridge, L.CreateBatch, L.CreateAsDelegate, L.Revoke, L.RevokeBatch, L.SetExpiration,
         L.Transfer, L.Delete;
    KeyedLedger(w.ledger);
    var l := w.ledger;
    match a
    case Create(i, s, c, e, m, v) => CreateKeeps(l, env, i, s, c, e, m, v);
    case Import(ad, i, s, c, t, e) => ImportKeeps(l, env, ad, i, s, c, t, e);
    case Bridge(b, s, c, chain, tx) => BridgeKeeps(l, env, b, s, c, chain, tx);
    case CreateBatch(i, ss, c, e) =>
      if L.CreateBatch(l, env, i, ss, c, e).Ok? { B.CreateBatchKeeps(l, env, i, ss, c, e); }
    case CreateAsDelegate(d, i, s, c, e, m) => CreateAsDelegateKeeps(l, env, Lookup(w, i, d, c), d, i, s, c, e, m);
    case Revoke(i, id, r) => RevokeKeeps(l, env, i, id, r);
    case RevokeBatch(i, ids, r) =>
      if L.RevokeBatch(l, env, i, ids, r).Ok? { B.RevokeBatchKeeps(l, env, i, ids, r); }
    case Renew(i, id, e) =>
      SetExpirationCoherent(l, env, i, id, e, Renewed);
      SetExpirationEvolves(l, env, i, id, e, Renewed);
    case UpdateExpiration(i, id, e) =>
      SetExpirationCoherent(l, env, i, id, e, Updated);
      SetExpirationEvolves(l, env, i, id, e, Updated);
    case Transfer(ad, id, n) => TransferKeeps(l, env, ad, id, n);
    case Delete(s, id) => DeleteKeeps(l, env, s, id);
    case _ =>
  }

  /** Multisig calls touch the ledger only by storing their unchecked record. */
  ghost predicate StoresOnly(w: World, w1: World, a: Option<Attestation>) {
    && w1.ledger == (if a.None? then w.ledger else L.Store(w.ledger, a.value))
    && (a.Some? ==> FreshRecord(a.value))
    && w1.requests == w.requests && w1.pending == w.pending
    && w1.delegations == w.delegations && w1.delegatorIndex == w.delegatorIndex
  }

  lemma ProposeStores(w: World, c: Call)
    requires c.action.Propose? && Attempt(w, c).Ok?
    ensures StoresOnly(w, Apply(w, c), UncheckedRecord(w, c))
  {
    hide L.Store, M.Propose;
    var a := c.action;
    M.ProposeFrame(w, c.env, a.proposer, a.subject, a.claimType, a.requiredSigners, a.threshold);
  }

  lemma CosignStores(w: World, c: Call)
    requires c.action.Cosign? && Attempt(w, c).Ok?
    ensures StoresOnly(w, Apply(w, c), UncheckedRecord(w, c))
  {
    hide L.Store;
  }

  lemma MultisigKeepsLedger(w: World, c: Call)
    requires Coherent(w.ledger) && (c.action.Propose? || c.action.Cosign?) && Attempt(w, c).Ok?
    ensures FreshCall(w, c) ==> LedgerKept(w.ledger, Apply(w, c).ledger)
    ensures !FreshCall(w, c) ==> !Coherent(Apply(w, c).ledger)
  {
    hide Coherent, Evolves, Apply, UncheckedRecord, L.Store;
    EvolvesReflexive(w.ledger);
    if c.action.Propose? { ProposeStores(w, c); } else { CosignStores(w, c); }
    var a := UncheckedRecord(w, c);
    if a.Some? {
      if a.value.id !in w.ledger.records {
        StoreCoherent(w.ledger, a.value);
        StoreEvolves(w.ledger, a.value);
      } else {
        StoreCoherentIff(w.ledger, a.value);
      }
    }
  }

  lemma FulfillKeepsLedger(w: World, env: Env, issuer: Address, id: Id, expiration: Option<nat>)
    requires Coherent(w.ledger)
    ensures var r := R.Fulfill(w, env, issuer, id, expiration); r.Ok? ==> LedgerKept(w.ledger, r.value.ledger)
  {
    hide Coherent, Evolves, L.Put;
    if R.Fulfill(w, env, issuer, id, expiration).Ok? {
      var q := w.requests[id];
      PutKeeps(w.ledger, L.NewRecord(env.attestationId(issuer, q.subject, q.claimType, env.now), issuer, q.subject,
                                     q.claimType, env.now, expiration), issuer);
    }
  }

  /** One call keeps the ledger coherent, exactly when it does not store an id already in use. */
  lemma ApplyKeepsLedger(w: World, c: Call)
    requires Coherent(w.ledger)
    ensures FreshCall(w, c) ==> LedgerKept(w.ledger, Apply(w, c).ledger)
    ensures Coherent(Apply(w, c).ledger) <==> FreshCall(w, c)
  {
    hide Coherent, Evolves, R.Fulfill, M.Propose, M.Cosign;
    EvolvesReflexive(w.ledger);
    if Attempt(w, c).Ok? {
      match c.action
      case Propose(_, _, _, _, _) => MultisigKeepsLedger(w, c);
      case Cosign(_, _) => MultisigKeepsLedger(w, c);
      case Fulfill(i, id, e) => FulfillKeepsLedger(w, c.env, i, id, e);
      case _ => OnLedgerKeeps(w, c.env, c.action);
    }
  }

  // ---------------------------------------------------------------- one call, seen by the protocols

  lemma SameProposals(w: World, w1: World)
    requires M.ProposalsOk(w) && w1.proposals == w.proposals
    ensures M.ProposalsOk(w1)
  {
  }

  /** Same delegations, same index. */
  lemma SameDelegations(w: World, w1: World)
    requires D.DelegationsOk(w) && w1.delegations == w.delegations && w1.delegatorIndex == w.delegatorIndex
    ensures D.DelegationsOk(w1)
  {
    forall x ensures D.IndexOf(w1, x) == D.IndexOf(w, x) {
    }
  }

  lemma MultisigKeepsProtocols(w: World, c: Call)
    requires ProtocolsOk(w) && (c.action.Propose? || c.action.Cosign?) && Attempt(w, c).Ok?
    ensures ProtocolsOk(Apply(w, c)) && R.RequestsEvolve(w, Apply(w, c))
  {
    hide M.ProposalsOk, R.RequestsOk, D.DelegationsOk, R.RequestsEvolve, UncheckedRecord, M.Propose, M.Cosign;
    match c.action {
      case Propose(p, s, ct, rs, t) =>
        ProposeStores(w, c);
        M.ProposeKeepsProposals(w, c.env, p, s, ct, rs, t);
      case Cosign(i, id) =>
        CosignStores(w, c);
        M.CosignKeepsProposals(w, c.env, i, id);
    }
    R.SameRequests(w, Apply(w, c));
    R.RequestsEvolveSame(w, Apply(w, c));
    SameDelegations(w, Apply(w, c));
  }

  lemma FulfillKeepsProtocols(w: World, env: Env, issuer: Address, id: Id, expiration: Option<nat>)
    requires ProtocolsOk(w)
    ensures var r := R.Fulfill(w, env, issuer, id, expiration); r.Ok? ==> ProtocolsOk(r.value) && R.RequestsEvolve(w, r.value)
  {
    hide M.ProposalsOk, R.RequestsOk, D.DelegationsOk, R.RequestsEvolve, L.Put;
    var r := R.Fulfill(w, env, issuer, id, expiration);
    if r.Ok? {
      var w0 := w.(ledger := r.value.ledger);
      R.SameRequests(w, w0);
      R.RequestKeyed(w, id);
      R.CloseKeepsRequests(w0, id, Fulfilled, w.requests[id].rejectionReason);
      R.RequestsEvolveSame(w, w0);
      R.CloseEvolves(w0, id, Fulfilled, w.requests[id].rejectionReason);
      R.RequestsEvolveTransitive(w, w0, r.value);
      SameDelegations(w, r.value);
      SameProposals(w, r.value);
    }
  }

  lemma RequestCallKeeps(w: World, c: Call)
    requires ProtocolsOk(w) && (c.action.Submit? || c.action.Reject? || c.action.Cancel?) && Attempt(w, c).Ok?
    ensures ProtocolsOk(Apply(w, c)) && R.RequestsEvolve(w, Apply(w, c))
  {
    hide M.ProposalsOk, R.RequestsOk, D.DelegationsOk, R.RequestsEvolve;
    SameDelegations(w, Apply(w, c));
    SameProposals(w, Apply(w, c));
    match c.action
    case Submit(s, i, ct) =>
      R.SubmitKeepsRequests(w, c.env, s, i, ct);
      R.SubmitEvolves(w, c.env, s, i, ct);
    case Reject(i, id, r) =>
      R.RequestKeyed(w, id);
      R.CloseKeepsRequests(w, id, Rejected, r);
      R.CloseEvolves(w, id, Rejected, r);
    case Cancel(s, id) =>
      R.RequestKeyed(w, id);
      R.CloseKeepsRequests(w, id, Cancelled, w.requests[id].rejectionReason);
      R.CloseEvolves(w, id, Cancelled, w.requests[id].rejectionReason);
  }

  lemma DelegationCallKeeps(w: World, c: Call)
    requires ProtocolsOk(w) && (c.action.Grant? || c.action.Withdraw?) && Attempt(w, c).Ok?
    ensures ProtocolsOk(Apply(w, c)) && R.RequestsEvolve(w, Apply(w, c))
  {
    hide M.ProposalsOk, R.RequestsOk, D.DelegationsOk, R.RequestsEvolve;
    R.SameRequests(w, Apply(w, c));
    R.RequestsEvolveSame(w, Apply(w, c));
    SameProposals(w, Apply(w, c));
    match c.action
    case Grant(i, d, ct, e) => D.GrantKeepsDelegations(w, c.env, i, d, ct, e);
    case Withdraw(i, d, ct) => D.WithdrawKeepsDelegations(w, c.env, i, d, ct);
  }

  lemma LedgerCallKeepsProtocols(w: World, c: Call)
    requires ProtocolsOk(w) && OnLedger(w, c.env, c.action).Some?
    ensures ProtocolsOk(Apply(w, c)) && R.RequestsEvolve(w, Apply(w, c))
  {
    hide M.ProposalsOk, R.RequestsOk, D.DelegationsOk, R.RequestsEvolve, OnLedger;
    R.SameRequests(w, Apply(w, c));
    R.RequestsEvolveSame(w, Apply(w, c));
    SameDelegations(w, Apply(w, c));
    SameProposals(w, Apply(w, c));
  }

  /** Proposals, requests and delegations keep their invariants whatever is called. */
  lemma ApplyKeepsProtocols(w: World, c: Call)
    requires ProtocolsOk(w)
    ensures ProtocolsOk(Apply(w, c)) && R.RequestsEvolve(w, Apply(w, c))
  {
    hide M.ProposalsOk, R.RequestsOk, D.DelegationsOk, R.RequestsEvolve;
    R.RequestsEvolveSame(w, w);
    if Attempt(w, c).Ok? {
      match c.action
      case Propose(_, _, _, _, _) => MultisigKeepsProtocols(w, c);
      case Cosign(_, _) => MultisigKeepsProtocols(w, c);
      case Fulfill(i, id, e) => FulfillKeepsProtocols(w, c.env, i, id, e);
      case Submit(_, _, _) => RequestCallKeeps(w, c);
      case Reject(_, _, _) => RequestCallKeeps(w, c);
      case Cancel(_, _) => RequestCallKeeps(w, c);
      case Grant(_, _, _, _) => DelegationCallKeeps(w, c);
      case Withdraw(_, _, _) => DelegationCallKeeps(w, c);
      case _ => LedgerCallKeepsProtocols(w, c);
    }
  }

  // ---------------------------------------------------------------- every run

  lemma InitialOk()
    ensures WorldOk(INITIAL)
  {
    EmptyCoherent();
    forall x ensures Elems(Read(INITIAL.pending, x)) == R.WaitingFor(INITIAL, x) {
      assert R.WaitingFor(INITIAL, x) == {};
    }
  }

  /** Over every run: requests, proposals and delegations keep their invariants, and requests only
      ever move forward. */
  lemma {:induction false} RunKeepsProtocols(w: World, calls: seq<Call>)
    requires ProtocolsOk(w)
    ensures ProtocolsOk(Run(w, calls)) && R.RequestsEvolve(w, Run(w, calls))
    decreases |calls|
  {
    hide ProtocolsOk, R.RequestsEvolve, Apply;
    if calls == [] {
      R.RequestsEvolveSame(w, w);
    } else {
      var w1 := Apply(w, calls[0]);
      ApplyKeepsProtocols(w, calls[0]);
      RunKeepsProtocols(w1, calls[1..]);
      R.RequestsEvolveTransitive(w, w1, Run(w, calls));
    }
  }

  /** Over every run without an id collision in the multisig paths: the ledger stays coherent, and no
      record or log entry is lost or rewritten. */
  lemma {:induction false} RunKeepsLedger(w: World, calls: seq<Call>)
    requires Coherent(w.ledger) && FreshRun(w, calls)
    ensures Coherent(Run(w, calls).ledger) && Evolves(w.ledger, Run(w, calls).ledger)
    decreases |calls|
  {
    hide Coherent, Evolves, Apply, FreshCall;
    if calls == [] {
      EvolvesReflexive(w.ledger);
    } else {
      var w1 := Apply(w, calls[0]);
      ApplyKeepsLedger(w, calls[0]);
      RunKeepsLedger(w1, calls[1..]);
      EvolvesTransitive(w.ledger, w1.ledger, Run(w, calls).ledger);
    }
  }

  /** Every reachable state. */
  lemma ReachableOk(calls: seq<Call>)
    ensures ProtocolsOk(Run(INITIAL, calls))
    ensures FreshRun(INITIAL, calls) ==> Coherent(Run(INITIAL, calls).ledger)
  {
    hide ProtocolsOk, Coherent;
    InitialOk();
    RunKeepsProtocols(INITIAL, calls);
    if FreshRun(INITIAL, calls) {
      RunKeepsLedger(INITIAL, calls);
    }
  }
}
