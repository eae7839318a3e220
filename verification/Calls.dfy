/** Every call against every stored record and request: what it may change, who may make it, and when it
    succeeds. */
module Calls {
  import opened Types
  import opened Sequences
  import opened Worlds
  import opened Runs
  import opened Coherence
  import opened Effects
  import L = Ledger
  import B = Batches
  import M = Multisig
  import R = Requests
  import Decimal

  // ---------------------------------------------------------------- what a call names

  predicate Revokes(c: Call, id: Id) {
    (c.action.Revoke? && c.action.id == id) || (c.action.RevokeBatch? && id in c.action.ids)
  }

  predicate SetsExpiration(c: Call, id: Id) {
    (c.action.Renew? || c.action.UpdateExpiration?) && c.action.id == id
  }

  predicate Moves(c: Call, id: Id) { c.action.Transfer? && c.action.id == id }

  predicate Deletes(c: Call, id: Id) { c.action.Delete? && c.action.id == id }

  /** What a successful call makes of a stored record. */
  function Reached(a: Attestation, c: Call, id: Id): Attestation {
    if Revokes(c, id) then a.(revoked := true, revocationReason := c.action.reason)
    else if SetsExpiration(c, id) then a.(expiration := c.action.expiration)
    else if Moves(c, id) then a.(issuer := c.action.newIssuer)
    else if Deletes(c, id) then a.(deleted := true)
    else a
  }

  /** What it appends to the record's audit log. */
  function Trail(a: Attestation, c: Call, id: Id): seq<AuditEntry> {
    if Revokes(c, id) then [AuditEntry(Revoked, c.action.issuer, c.env.now, c.action.reason)]
    else if SetsExpiration(c, id) then
      var action := if c.action.Renew? then Renewed else Updated;
      var details := if c.action.Renew? && c.action.expiration.Some? then Some(Decimal.Numeral(c.action.expiration.value)) else None;
      [AuditEntry(action, c.action.issuer, c.env.now, details)]
    else if Moves(c, id) && c.action.newIssuer != a.issuer then
      [AuditEntry(Transferred(c.action.newIssuer), c.action.admin, c.env.now, None)]
    else if Deletes(c, id) then [AuditEntry(Deleted, c.action.subject, c.env.now, None)]
    else []
  }

  /** Who may make it: the issuer of an unrevoked record revokes it and sets its expiration, an administrator
      moves it, its subject deletes it. */
  predicate Entitled(a: Attestation, c: Call, id: Id) {
    && (Revokes(c, id) || SetsExpiration(c, id) ==> c.action.issuer == a.issuer && !a.revoked)
    && (Moves(c, id) ==> c.env.council.Some? && c.action.admin in c.env.council.value)
    && (Deletes(c, id) ==> c.action.subject == a.subject)
  }

  ghost predicate StepOk(l: L.Ledger, l1: L.Ledger, c: Call, id: Id)
    requires id in l.records
  {
    && id in l1.records && l1.records[id] == Reached(l.records[id], c, id)
    && L.LogOf(l1.logs, id) == L.LogOf(l.logs, id) + Trail(l.records[id], c, id)
    && Entitled(l.records[id], c, id)
  }

  // ---------------------------------------------------------------- one call, one record

  predicate Names(c: Call, id: Id) { Revokes(c, id) || SetsExpiration(c, id) || Moves(c, id) || Deletes(c, id) }

  lemma Unnamed(l: L.Ledger, l1: L.Ledger, c: Call, id: Id)
    requires id in l.records && !Names(c, id) && id in l1.records && l1.records[id] == l.records[id]
    requires L.LogOf(l1.logs, id) == L.LogOf(l.logs, id)
    ensures StepOk(l, l1, c, id)
  {
    assert L.LogOf(l.logs, id) + [] == L.LogOf(l.logs, id);
  }

  lemma AddsLeaves(l: L.Ledger, l1: L.Ledger, a: Attestation, entry: AuditEntry, id: Id)
    requires Adds(l, l1, a) && Logs(l, l1, a.id, entry) && id in l.records
    ensures id in l1.records && l1.records[id] == l.records[id] && L.LogOf(l1.logs, id) == L.LogOf(l.logs, id)
  {
  }

  lemma CreationStep(w: World, c: Call, id: Id)
    requires id in w.ledger.records && Attempt(w, c).Ok?
    requires c.action.Create? || c.action.Import? || c.action.Bridge? || c.action.CreateAsDelegate?
    ensures StepOk(w.ledger, Apply(w, c).ledger, c, id)
  {
    hide L.Create, L.Import, L.Bridge, L.CreateAsDelegate, Adds, Logs, StepOk;
    var l, l1, env := w.ledger, Apply(w, c).ledger, c.env;
    match c.action {
      case Create(i, s, ct, e, m, v) =>
        CreateAdds(l, env, i, s, ct, e, m, v);
        var aid := env.attestationId(i, s, ct, env.now);
        AddsLeaves(l, l1, Attestation(aid, i, s, ct, env.now, e, v, Native, m, false, None, false), AuditEntry(Created, i, env.now, None), id);
      case Import(ad, i, s, ct, t, e) =>
        ImportAdds(l, env, ad, i, s, ct, t, e);
        var aid := env.attestationId(i, s, ct, t);
        AddsLeaves(l, l1, Attestation(aid, i, s, ct, t, e, None, Imported, None, false, None, false), AuditEntry(Created, ad, t, None), id);
      case Bridge(b, s, ct, chain, tx) =>
        BridgeAdds(l, env, b, s, ct, chain, tx);
        var aid := env.bridgeId(b, s, ct, chain, tx, env.now);
        AddsLeaves(l, l1, Attestation(aid, b, s, ct, env.now, None, None, Bridged(chain, tx), None, false, None, false),
                   AuditEntry(Created, b, env.now, None), id);
      case CreateAsDelegate(d, i, s, ct, e, m) =>
        DelegateAdds(l, env, Lookup(w, i, d, ct), d, i, s, ct, e, m);
        var aid := env.attestationId(i, s, ct, env.now);
        AddsLeaves(l, l1, Attestation(aid, i, s, ct, env.now, e, None, Native, m, false, None, false), AuditEntry(Created, d, env.now, None), id);
    }
    Unnamed(l, l1, c, id);
  }

  lemma BatchStep(w: World, c: Call, id: Id)
    requires id in w.ledger.records && Attempt(w, c).Ok? && c.action.CreateBatch?
    ensures StepOk(w.ledger, Apply(w, c).ledger, c, id)
  {
    hide L.CreateBatch, StepOk;
    CreateBatchAdds(w.ledger, c.env, c.action.issuer, c.action.subjects, c.action.claimType, c.action.expiration);
    Unnamed(w.ledger, Apply(w, c).ledger, c, id);
  }

  lemma RevokeBatchStep(w: World, c: Call, id: Id)
    requires Keyed(w.ledger) && id in w.ledger.records && Attempt(w, c).Ok? && c.action.RevokeBatch?
    ensures StepOk(w.ledger, Apply(w, c).ledger, c, id)
  {
    hide L.RevokeBatch;
    RevokeBatchChanges(w.ledger, c.env, c.action.issuer, c.action.ids, c.action.reason);
    if id !in c.action.ids {
      Unnamed(w.ledger, Apply(w, c).ledger, c, id);
    }
  }

  lemma ChangesLeaves(l: L.Ledger, l1: L.Ledger, a: Attestation, entry: AuditEntry, id: Id)
    requires Changes(l, l1, a, entry) && id in l.records
    ensures id in l1.records && l1.records[id] == if id == a.id then a else l.records[id]
    ensures L.LogOf(l1.logs, id) == if id == a.id then L.LogOf(l.logs, id) + [entry] else L.LogOf(l.logs, id)
  {
  }

  lemma ExpirationStep(w: World, c: Call, id: Id)
    requires Keyed(w.ledger) && id in w.ledger.records && Attempt(w, c).Ok? && (c.action.Renew? || c.action.UpdateExpiration?)
    ensures StepOk(w.ledger, Apply(w, c).ledger, c, id)
  {
    hide L.SetExpiration, Changes;
    var l, a, x := w.ledger, c.action, c.action.id;
    var action := if a.Renew? then Renewed else Updated;
    var details := SetExpirationChanges(l, c.env, a.issuer, x, a.expiration, action);
    if details.Some? {
      Decimal.ParseRoundTrip(details.value);
    }
    ChangesLeaves(l, Apply(w, c).ledger, l.records[x].(expiration := a.expiration), AuditEntry(action, a.issuer, c.env.now, details), id);
    if id != x {
      Unnamed(l, Apply(w, c).ledger, c, id);
    }
  }

  lemma ChangeStep(w: World, c: Call, id: Id)
    requires Keyed(w.ledger) && id in w.ledger.records && Attempt(w, c).Ok? && (c.action.Revoke? || c.action.Delete?)
    ensures StepOk(w.ledger, Apply(w, c).ledger, c, id)
  {
    hide L.Revoke, L.Delete, Changes;
    var l, a, x := w.ledger, c.action, c.action.id;
    if a.Revoke? {
      RevokeChanges(l, c.env, a.issuer, x, a.reason);
      ChangesLeaves(l, Apply(w, c).ledger, l.records[x].(revoked := true, revocationReason := a.reason),
                    AuditEntry(Revoked, a.issuer, c.env.now, a.reason), id);
    } else {
      DeleteChanges(l, c.env, a.subject, x);
      ChangesLeaves(l, Apply(w, c).ledger, l.records[x].(deleted := true), AuditEntry(Deleted, a.subject, c.env.now, None), id);
    }
    if id != x {
      Unnamed(l, Apply(w, c).ledger, c, id);
    }
  }

  lemma TransferStep(w: World, c: Call, id: Id)
    requires Keyed(w.ledger) && id in w.ledger.records && Attempt(w, c).Ok? && c.action.Transfer?
    ensures StepOk(w.ledger, Apply(w, c).ledger, c, id)
  {
    hide L.Transfer, Changes;
    var l, a, x := w.ledger, c.action, c.action.id;
    TransferChanges(l, c.env, a.admin, x, a.newIssuer);
    if l.records[x].issuer != a.newIssuer {
      ChangesLeaves(l, Apply(w, c).ledger, l.records[x].(issuer := a.newIssuer),
                    AuditEntry(Transferred(a.newIssuer), a.admin, c.env.now, None), id);
    }
    if id != x {
      Unnamed(l, Apply(w, c).ledger, c, id);
    } else {
      assert L.LogOf(l.logs, id) + [] == L.LogOf(l.logs, id);
    }
  }

  lemma StoreLeaves(l: L.Ledger, a: Attestation, id: Id)
    requires a.id !in l.records && id in l.records
    ensures id in L.Store(l, a).records && L.Store(l, a).records[id] == l.records[id] && L.Store(l, a).logs == l.logs
  {
  }

  lemma ProtocolStep(w: World, c: Call, id: Id)
    requires id in w.ledger.records && Attempt(w, c).Ok? && FreshCall(w, c) && OnLedger(w, c.env, c.action).None?
    ensures StepOk(w.ledger, Apply(w, c).ledger, c, id)
  {
    hide StepOk, L.Store, UncheckedRecord, Drop, Push, R.Fulfill;
    if c.action.Propose? || c.action.Cosign? {
      if c.action.Propose? { ProposeStores(w, c); } else { CosignStores(w, c); }
      var a := UncheckedRecord(w, c);
      if a.Some? {
        StoreLeaves(w.ledger, a.value, id);
      }
    } else if c.action.Fulfill? {
      FulfillLeaves(w, c, id);
    }
    Unnamed(w.ledger, Apply(w, c).ledger, c, id);
  }

  lemma FulfillLeaves(w: World, c: Call, id: Id)
    requires id in w.ledger.records && Attempt(w, c).Ok? && c.action.Fulfill?
    ensures var l1 := Apply(w, c).ledger; id in l1.records && l1.records[id] == w.ledger.records[id] && l1.logs == w.ledger.logs
  {
    hide L.Store, Drop;
    var q := w.requests[c.action.id];
    StoreLeaves(w.ledger, L.NewRecord(c.env.attestationId(c.action.issuer, q.subject, q.claimType, c.env.now),
                                      c.action.issuer, q.subject, q.claimType, c.env.now, c.action.expiration), id);
  }

  /** A successful call that reuses no id does to a stored record, and to its log, exactly what its name says,
      and was made by whoever is entitled to make it. Every other field of every record stays. */
  lemma RecordStep(w: World, c: Call, id: Id)
    requires Keyed(w.ledger) && id in w.ledger.records && Attempt(w, c).Ok? && FreshCall(w, c)
    ensures StepOk(w.ledger, Apply(w, c).ledger, c, id)
  {
    hide StepOk, Attempt, FreshCall, Apply, Keyed;
    match c.action
    case Create(_, _, _, _, _, _) => CreationStep(w, c, id);
    case Import(_, _, _, _, _, _) => CreationStep(w, c, id);
    case Bridge(_, _, _, _, _) => CreationStep(w, c, id);
    case CreateAsDelegate(_, _, _, _, _, _) => CreationStep(w, c, id);
    case CreateBatch(_, _, _, _) => BatchStep(w, c, id);
    case Revoke(_, _, _) => ChangeStep(w, c, id);
    case RevokeBatch(_, _, _) => RevokeBatchStep(w, c, id);
    case Renew(_, _, _) => ExpirationStep(w, c, id);
    case UpdateExpiration(_, _, _) => ExpirationStep(w, c, id);
    case Transfer(_, _, _) => TransferStep(w, c, id);
    case Delete(_, _) => ChangeStep(w, c, id);
    case _ => ProtocolStep(w, c, id);
  }

  // ---------------------------------------------------------------- one call, one request

  predicate Closes(c: Call, id: Id) { (c.action.Fulfill? || c.action.Reject? || c.action.Cancel?) && c.action.id == id }

  /** What a successful call makes of a stored request. */
  function Closed(q: Request, c: Call, id: Id): Request {
    if !Closes(c, id) then q
    else if c.action.Fulfill? then q.(status := Fulfilled)
    else if c.action.Reject? then q.(status := Rejected, rejectionReason := c.action.reason)
    else q.(status := Cancelled)
  }

  /** Who may make it: the issuer asked, in time, or the subject who asked; and only while it waits. */
  predicate EntitledToClose(q: Request, c: Call, id: Id) {
    Closes(c, id) ==>
      && q.status == Waiting
      && (c.action.Cancel? ==> c.action.subject == q.subject)
      && (!c.action.Cancel? ==> c.action.issuer == q.issuer && c.env.now < q.expiresAt)
  }

  ghost predicate RequestStepOk(w: World, w1: World, c: Call, id: Id)
    requires id in w.requests
  {
    && id in w1.requests && w1.requests[id] == Closed(w.requests[id], c, id)
    && EntitledToClose(w.requests[id], c, id)
  }

  lemma ClosingStep(w: World, c: Call, id: Id)
    requires R.RequestsOk(w) && id in w.requests && Attempt(w, c).Ok?
    requires c.action.Fulfill? || c.action.Reject? || c.action.Cancel?
    ensures RequestStepOk(w, Apply(w, c), c, id)
  {
    hide L.Put, Drop;
    R.RequestKeyed(w, c.action.id);
    hide R.RequestsOk;
  }

  lemma OtherRequestStep(w: World, c: Call, id: Id)
    requires id in w.requests && Attempt(w, c).Ok? && (c.action.Submit? || c.action.Grant? || c.action.Withdraw?)
    ensures RequestStepOk(w, Apply(w, c), c, id)
  {
    hide Push, Without;
  }

  lemma LedgerRequestStep(w: World, c: Call, id: Id)
    requires id in w.requests && Attempt(w, c).Ok? && OnLedger(w, c.env, c.action).Some?
    ensures Apply(w, c).requests == w.requests
  {
    hide OnLedger;
  }

  /** A successful call does to a stored request exactly what its name says, and was made by whoever is
      entitled to make it. */
  lemma RequestStep(w: World, c: Call, id: Id)
    requires R.RequestsOk(w) && id in w.requests && Attempt(w, c).Ok?
    ensures RequestStepOk(w, Apply(w, c), c, id)
  {
    hide Attempt, Apply, R.RequestsOk;
    match c.action
    case Fulfill(_, _, _) => ClosingStep(w, c, id);
    case Reject(_, _, _) => ClosingStep(w, c, id);
    case Cancel(_, _) => ClosingStep(w, c, id);
    case Submit(_, _, _) => OtherRequestStep(w, c, id);
    case Grant(_, _, _, _) => OtherRequestStep(w, c, id);
    case Withdraw(_, _, _) => OtherRequestStep(w, c, id);
    case Propose(_, _, _, _, _) => ProposeStores(w, c);
    case Cosign(_, _) => CosignStores(w, c);
    case _ => LedgerRequestStep(w, c, id);
  }

  // ---------------------------------------------------------------- when a call succeeds

  predicate Future(t: Option<nat>, now: nat) { t.None? || now < t.value }

  predicate Short(reason: Option<string>) { reason.None? || |reason.value| <= 128 }

  /** The claim type's own interval, else the global one, has passed since the issuer last issued. */
  predicate Rested(last: map<Address, nat>, env: Env, issuer: Address, claimType: ClaimType) {
    issuer in last ==>
      && (claimType in env.claimInterval ==> env.claimInterval[claimType] == 0 || last[issuer] + env.claimInterval[claimType] <= env.now)
      && (claimType !in env.claimInterval && env.globalInterval.Some? ==>
            env.globalInterval.value == 0 || last[issuer] + env.globalInterval.value <= env.now)
  }

  predicate Room(l: L.Ledger, env: Env, issuer: Address, subject: Address) {
    |Read(l.byIssuer, issuer)| < env.limits.perIssuer && |Read(l.bySubject, subject)| < env.limits.perSubject
  }

  predicate Countable(l: L.Ledger, issuer: Address) { Count(l.issued, issuer) < 0xFFFF_FFFF_FFFF_FFFF }

  predicate OwnUnrevoked(l: L.Ledger, issuer: Address, id: Id) {
    id in l.records && l.records[id].issuer == issuer && !l.records[id].revoked
  }

  predicate Admin(env: Env, who: Address) { env.council.Some? && who in env.council.value }

  predicate Issuer(env: Env, who: Address) { !env.paused && who in env.issuers }

  /** Everything a call on the ledger needs in order to succeed. */
  ghost predicate LedgerPermits(w: World, env: Env, a: Action)
    requires OnLedger(w, env, a).Some?
  {
    var l := w.ledger;
    match a
    case Create(i, s, ct, e, _, v) =>
      && Issuer(env, i) && i != s && Future(e, env.now) && Future(v, env.now) && Rested(l.lastIssued, env, i, ct)
      && Room(l, env, i, s) && env.attestationId(i, s, ct, env.now) !in l.records && Countable(l, i)
    case Import(ad, i, s, ct, t, e) =>
      && Admin(env, ad) && Issuer(env, i) && t <= env.now && Future(e, t)
      && env.attestationId(i, s, ct, t) !in l.records && Countable(l, i)
    case Bridge(b, s, ct, chain, tx) =>
      && !env.paused && b in env.bridges && 1 <= |chain| <= 32 && 1 <= |tx| <= 128
      && env.bridgeId(b, s, ct, chain, tx, env.now) !in l.records && Countable(l, b)
    case CreateAsDelegate(d, i, s, ct, e, _) =>
      && Issuer(env, i) && i != s && Future(e, env.now) && Room(l, env, i, s)
      && (i, d, ct) in w.delegations && Future(w.delegations[(i, d, ct)].expiration, env.now)
      && env.attestationId(i, s, ct, env.now) !in l.records && Countable(l, i)
    case CreateBatch(i, ss, ct, e) =>
      && Issuer(env, i) && Future(e, env.now) && Rested(l.lastIssued, env, i, ct)
      && Min(|Read(l.byIssuer, i)| + |ss|, 0xFFFF_FFFF) <= env.limits.perIssuer
      && (forall j :: 0 <= j < |ss| ==> |Read(l.bySubject, ss[j])| < env.limits.perSubject)
      && (forall j :: 0 <= j < |ss| ==> env.attestationId(i, ss[j], ct, env.now) !in l.records)
      && (forall j, k :: 0 <= j < k < |ss| ==> env.attestationId(i, ss[j], ct, env.now) != env.attestationId(i, ss[k], ct, env.now))
    case Revoke(i, id, reason) => Issuer(env, i) && Short(reason) && OwnUnrevoked(l, i, id)
    case RevokeBatch(i, ids, reason) =>
      && Issuer(env, i) && Short(reason) && |ids| <= 50 && NoDup(ids)
      && (forall j :: 0 <= j < |ids| ==> OwnUnrevoked(l, i, ids[j]))
    case Renew(i, id, e) => Issuer(env, i) && Future(e, env.now) && OwnUnrevoked(l, i, id)
    case UpdateExpiration(i, id, e) => Issuer(env, i) && Future(e, env.now) && OwnUnrevoked(l, i, id)
    case Transfer(ad, id, n) => Admin(env, ad) && n in env.issuers && id in l.records
    case Delete(s, id) => id in l.records && l.records[id].subject == s
  }

  /** Everything a call of the protocols needs. */
  ghost predicate ProtocolPermits(w: World, env: Env, a: Action)
    requires OnLedger(w, env, a).None?
  {
    match a
    case Propose(p, s, ct, rs, t) =>
      && Issuer(env, p)
      && (if ct == "ACCREDITED_INVESTOR" && p in env.premium then Countable(w.ledger, p)
          else (forall x :: x in rs ==> x in env.issuers) && 1 <= t <= |rs| && env.now + 604800 <= 0xFFFF_FFFF_FFFF_FFFF)
    case Cosign(i, id) =>
      && Issuer(env, i) && id in w.proposals
      && var p := w.proposals[id];
         && !p.finalized && env.now < p.expiresAt && i in p.requiredSigners && i !in p.signers
         && (|p.signers| + 1 >= p.threshold ==> Countable(w.ledger, p.proposer))
    case Submit(s, i, ct) =>
      Issuer(env, i) && env.requestId(s, i, ct, env.now) !in w.requests && env.now + 604800 <= 0xFFFF_FFFF_FFFF_FFFF
    case Fulfill(i, id, e) =>
      && Issuer(env, i) && id in w.requests
      && var q := w.requests[id];
         && q.issuer == i && q.status == Waiting && env.now < q.expiresAt && Future(e, env.now) && Room(w.ledger, env, i, q.subject)
         && env.attestationId(i, q.subject, q.claimType, env.now) !in w.ledger.records && Countable(w.ledger, i)
    case Reject(i, id, reason) =>
      && Issuer(env, i) && Short(reason) && id in w.requests
      && w.requests[id].issuer == i && w.requests[id].status == Waiting && env.now < w.requests[id].expiresAt
    case Cancel(s, id) => !env.paused && id in w.requests && w.requests[id].subject == s && w.requests[id].status == Waiting
    case Grant(i, d, ct, e) => i in env.issuers && i != d && Future(e, env.now)
    case Withdraw(i, d, ct) => i in env.issuers && (i, d, ct) in w.delegations
  }

  ghost predicate Permitted(w: World, c: Call) {
    if OnLedger(w, c.env, c.action).Some? then LedgerPermits(w, c.env, c.action) else ProtocolPermits(w, c.env, c.action)
  }

  lemma RestedIff(l: L.Ledger, env: Env, issuer: Address, claimType: ClaimType)
    ensures L.RateAllows(l, env, issuer, claimType) <==> Rested(l.lastIssued, env, issuer, claimType)
  {
  }

  lemma CreationPermitted(w: World, c: Call)
    requires c.action.Create? || c.action.Import? || c.action.Bridge? || c.action.CreateAsDelegate?
    ensures Attempt(w, c).Ok? <==> LedgerPermits(w, c.env, c.action)
  {
    hide L.Store, L.RateAllows, Rested;
    if c.action.Create? {
      RestedIff(w.ledger, c.env, c.action.issuer, c.action.claimType);
    }
  }

  lemma BatchPermitted(w: World, c: Call)
    requires c.action.CreateBatch?
    ensures Attempt(w, c).Ok? <==> LedgerPermits(w, c.env, c.action)
  {
    hide L.CreateBatch, L.RateAllows, Rested;
    var a := c.action;
    RestedIff(w.ledger, c.env, a.issuer, a.claimType);
    B.CreateBatchSucceedsIff(w.ledger, c.env, a.issuer, a.subjects, a.claimType, a.expiration);
  }

  lemma RevokeBatchPermitted(w: World, c: Call)
    requires c.action.RevokeBatch?
    ensures Attempt(w, c).Ok? <==> LedgerPermits(w, c.env, c.action)
  {
    hide L.Gather, L.RevokeSnapshots;
    B.GatherIff(w.ledger, c.action.issuer, c.action.ids, []);
  }

  lemma ChangePermitted(w: World, c: Call)
    requires c.action.Revoke? || c.action.Renew? || c.action.UpdateExpiration? || c.action.Transfer? || c.action.Delete?
    ensures Attempt(w, c).Ok? <==> LedgerPermits(w, c.env, c.action)
  {
    hide L.RevokeOne, L.Move, L.Erase;
  }

  lemma MultisigPermitted(w: World, c: Call)
    requires c.action.Propose? || c.action.Cosign?
    ensures Attempt(w, c).Ok? <==> ProtocolPermits(w, c.env, c.action)
  {
    hide L.Store, M.NewProposal;
  }

  lemma RequestPermitted(w: World, c: Call)
    requires c.action.Submit? || c.action.Fulfill? || c.action.Reject? || c.action.Cancel?
    ensures Attempt(w, c).Ok? <==> ProtocolPermits(w, c.env, c.action)
  {
    hide L.Store, R.Close, Push;
  }

  lemma DelegationPermitted(w: World, c: Call)
    requires c.action.Grant? || c.action.Withdraw?
    ensures Attempt(w, c).Ok? <==> ProtocolPermits(w, c.env, c.action)
  {
    hide Without;
  }

  /** A call succeeds exactly when it is permitted. */
  lemma SucceedsIff(w: World, c: Call)
    ensures Attempt(w, c).Ok? <==> Permitted(w, c)
  {
    hide Attempt, LedgerPermits, ProtocolPermits;
    match c.action
    case Create(_, _, _, _, _, _) => CreationPermitted(w, c);
    case Import(_, _, _, _, _, _) => CreationPermitted(w, c);
    case Bridge(_, _, _, _, _) => CreationPermitted(w, c);
    case CreateAsDelegate(_, _, _, _, _, _) => CreationPermitted(w, c);
    case CreateBatch(_, _, _, _) => BatchPermitted(w, c);
    case RevokeBatch(_, _, _) => RevokeBatchPermitted(w, c);
    case Propose(_, _, _, _, _) => MultisigPermitted(w, c);
    case Cosign(_, _) => MultisigPermitted(w, c);
    case Submit(_, _, _) => RequestPermitted(w, c);
    case Fulfill(_, _, _) => RequestPermitted(w, c);
    case Reject(_, _, _) => RequestPermitted(w, c);
    case Cancel(_, _) => RequestPermitted(w, c);
    case Grant(_, _, _, _) => DelegationPermitted(w, c);
    case Withdraw(_, _, _) => DelegationPermitted(w, c);
    case _ => ChangePermitted(w, c);
  }
}
