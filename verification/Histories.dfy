/** What a record or a request says about the calls of a run, and what a run says about a claim. */
module Histories {
  import opened Types
  import opened Sequences
  import opened Worlds
  import opened Runs
  import opened Coherence
  import opened Evolution
  import opened Effects
  import opened Calls
  import L = Ledger
  import M = Multisig
  import R = Requests
  import P = Proposals
  import Q = Queries

  /** Some successful call of the run satisfies `p`. */
  predicate Happens(w: World, calls: seq<Call>, p: Call -> bool)
    decreases |calls|
  {
    calls != [] && ((Attempt(w, calls[0]).Ok? && p(calls[0])) || Happens(Apply(w, calls[0]), calls[1..], p))
  }

  // ---------------------------------------------------------------- a record over a run

  lemma OneCall(w: World, c: Call, id: Id)
    requires Coherent(w.ledger) && id in w.ledger.records && FreshCall(w, c)
    ensures Coherent(Apply(w, c).ledger) && id in Apply(w, c).ledger.records
    ensures var a := w.ledger.records[id];
      Apply(w, c).ledger.records[id] == (if Attempt(w, c).Ok? then Reached(a, c, id) else a)
      && L.LogOf(Apply(w, c).ledger.logs, id) == L.LogOf(w.ledger.logs, id) + (if Attempt(w, c).Ok? then Trail(a, c, id) else [])
    ensures Attempt(w, c).Ok? ==> Entitled(w.ledger.records[id], c, id)
  {
    hide Coherent, FreshCall, Apply, Attempt, Reached, Trail, Entitled;
    ApplyKeepsLedger(w, c);
    if Attempt(w, c).Ok? {
      assert Keyed(w.ledger) by { KeyedLedger(w.ledger); }
      RecordStep(w, c, id);
    } else {
      Unchanged(w, c);
      assert L.LogOf(w.ledger.logs, id) + [] == L.LogOf(w.ledger.logs, id);
    }
  }

  lemma Unchanged(w: World, c: Call)
    requires Attempt(w, c).Err?
    ensures Apply(w, c) == w
  {
  }

  /** A record is deleted exactly when its own subject has asked for it. */
  lemma {:induction false} DeletedIff(w: World, calls: seq<Call>, id: Id)
    requires Coherent(w.ledger) && id in w.ledger.records && FreshRun(w, calls)
    ensures id in Run(w, calls).ledger.records
    ensures Run(w, calls).ledger.records[id].deleted <==>
      w.ledger.records[id].deleted || Happens(w, calls, (c: Call) => c.action == Delete(w.ledger.records[id].subject, id))
    decreases |calls|
  {
    hide Coherent, FreshCall, Apply, Attempt;
    if calls != [] {
      OneCall(w, calls[0], id);
      DeletedIff(Apply(w, calls[0]), calls[1..], id);
    }
  }

  /** It is revoked exactly when a revocation named it. */
  lemma {:induction false} RevokedIff(w: World, calls: seq<Call>, id: Id)
    requires Coherent(w.ledger) && id in w.ledger.records && FreshRun(w, calls)
    ensures id in Run(w, calls).ledger.records
    ensures Run(w, calls).ledger.records[id].revoked <==>
      w.ledger.records[id].revoked || Happens(w, calls, (c: Call) => Revokes(c, id))
    decreases |calls|
  {
    hide Coherent, FreshCall, Apply, Attempt;
    if calls != [] {
      OneCall(w, calls[0], id);
      RevokedIff(Apply(w, calls[0]), calls[1..], id);
    }
  }

  /** The expiration the successful renewals and updates of a run leave behind. */
  function LastSet(w: World, calls: seq<Call>, id: Id, expiration: Option<nat>): Option<nat>
    decreases |calls|
  {
    if calls == [] then expiration
    else
      LastSet(Apply(w, calls[0]), calls[1..], id,
              if Attempt(w, calls[0]).Ok? && SetsExpiration(calls[0], id) then calls[0].action.expiration else expiration)
  }

  /** A record expires when the last renewal or update said, or as it was created. */
  lemma {:induction false} ExpirationIsLastSet(w: World, calls: seq<Call>, id: Id)
    requires Coherent(w.ledger) && id in w.ledger.records && FreshRun(w, calls)
    ensures id in Run(w, calls).ledger.records
    ensures Run(w, calls).ledger.records[id].expiration == LastSet(w, calls, id, w.ledger.records[id].expiration)
    decreases |calls|
  {
    hide Coherent, FreshCall, Apply, Attempt;
    if calls != [] {
      OneCall(w, calls[0], id);
      assert Revokes(calls[0], id) ==> !SetsExpiration(calls[0], id);
      ExpirationIsLastSet(Apply(w, calls[0]), calls[1..], id);
    }
  }

  predicate Touches(c: Call, id: Id) { Revokes(c, id) || SetsExpiration(c, id) || Deletes(c, id) }

  /** Nothing but its issuer changes in a record that no call revokes, deletes or gives another expiration. */
  lemma {:induction false} Untouched(w: World, calls: seq<Call>, id: Id)
    requires Coherent(w.ledger) && id in w.ledger.records && FreshRun(w, calls)
    requires !Happens(w, calls, (c: Call) => Touches(c, id))
    ensures var l := Run(w, calls).ledger;
      Coherent(l) && id in l.records && l.records[id] == w.ledger.records[id].(issuer := l.records[id].issuer)
    decreases |calls|
  {
    hide Coherent, FreshCall, Apply, Attempt;
    if calls != [] {
      OneCall(w, calls[0], id);
      Untouched(Apply(w, calls[0]), calls[1..], id);
    }
  }

  // ---------------------------------------------------------------- a claim over a run

  /** From a successful creation on, as long as nobody revokes, deletes or re-dates the attestation, its subject
      holds the claim at every time from `validFrom` up to the expiration, and the query says so. */
  lemma HeldWhileInForce(w: World, c: Call, calls: seq<Call>, t: nat)
    requires Coherent(w.ledger) && c.action.Create? && Attempt(w, c).Ok? && FreshRun(Apply(w, c), calls)
    requires var id := c.env.attestationId(c.action.issuer, c.action.subject, c.action.claimType, c.env.now);
      !Happens(Apply(w, c), calls, (x: Call) => Touches(x, id))
    requires (c.action.validFrom.None? || c.action.validFrom.value <= t) && (c.action.expiration.None? || t < c.action.expiration.value)
    ensures Q.InValidList(Run(Apply(w, c), calls).ledger, t, c.action.subject, c.action.claimType)
  {
    hide Coherent, Attempt, Apply, Happens, FreshRun;
    var a, w1, l := c.action, Apply(w, c), Run(Apply(w, c), calls).ledger;
    var id := c.env.attestationId(a.issuer, a.subject, a.claimType, c.env.now);
    CreateStored(w, c);
    Untouched(w1, calls, id);
    assert Q.Hit(l.records, t, id, a.claimType);
    assert Q.HoldsClaim(l, t, a.subject, a.claimType);
    Q.ValidListAnswers(l, t, a.subject, a.claimType);
  }

  lemma CreateStored(w: World, c: Call)
    requires Coherent(w.ledger) && c.action.Create? && Attempt(w, c).Ok?
    ensures var l1, a := Apply(w, c).ledger, c.action;
      var id := c.env.attestationId(a.issuer, a.subject, a.claimType, c.env.now);
      && Coherent(l1) && id in l1.records
      && l1.records[id] == Attestation(id, a.issuer, a.subject, a.claimType, c.env.now, a.expiration, a.validFrom, Native, a.metadata,
                                       false, None, false)
  {
    hide Coherent, L.Create;
    var a := c.action;
    CreateAdds(w.ledger, c.env, a.issuer, a.subject, a.claimType, a.expiration, a.metadata, a.validFrom);
    ApplyKeepsLedger(w, c);
  }

  /** Once all of the subject's attestations of the type have expired, in any coherent ledger, the query says no. */
  lemma NotHeldOnceExpired(l: L.Ledger, t: nat, subject: Address, claimType: ClaimType)
    requires Coherent(l)
    requires forall id :: id in l.records && l.records[id].subject == subject && l.records[id].claimType == claimType ==>
      l.records[id].expiration.Some? && l.records[id].expiration.value <= t
    ensures !Q.InValidList(l, t, subject, claimType)
  {
    hide Coherent;
    Q.ValidListAnswers(l, t, subject, claimType);
  }

  // ---------------------------------------------------------------- a request over a run

  lemma OneRequestCall(w: World, c: Call, id: Id)
    requires ProtocolsOk(w) && id in w.requests
    ensures ProtocolsOk(Apply(w, c)) && id in Apply(w, c).requests
    ensures Apply(w, c).requests[id] == if Attempt(w, c).Ok? then Closed(w.requests[id], c, id) else w.requests[id]
    ensures Attempt(w, c).Ok? ==> EntitledToClose(w.requests[id], c, id)
  {
    hide M.ProposalsOk, R.RequestsOk, Apply, Attempt, Closed, EntitledToClose;
    ApplyKeepsProtocols(w, c);
    if Attempt(w, c).Ok? {
      RequestStep(w, c, id);
    } else {
      Unchanged(w, c);
    }
  }

  predicate Cancels(c: Call, subject: Address, id: Id) { c.action == Cancel(subject, id) }

  predicate Fulfils(c: Call, issuer: Address, id: Id) { c.action.Fulfill? && c.action.issuer == issuer && c.action.id == id }

  predicate Rejects(c: Call, issuer: Address, id: Id) { c.action.Reject? && c.action.issuer == issuer && c.action.id == id }

  /** How a waiting request ends says who ended it: cancelled by the subject who asked, fulfilled or rejected by
      the issuer asked, still waiting if none of them did. */
  lemma {:induction false} EndsAs(w: World, calls: seq<Call>, id: Id)
    requires ProtocolsOk(w) && id in w.requests && w.requests[id].status == Waiting
    ensures id in Run(w, calls).requests
    ensures var q, status := w.requests[id], Run(w, calls).requests[id].status;
      && (status == Cancelled ==> Happens(w, calls, (c: Call) => Cancels(c, q.subject, id)))
      && (status == Fulfilled ==> Happens(w, calls, (c: Call) => Fulfils(c, q.issuer, id)))
      && (status == Rejected ==> Happens(w, calls, (c: Call) => Rejects(c, q.issuer, id)))
      && (status == Waiting <==> !Happens(w, calls, (c: Call) => Closes(c, id)))
    decreases |calls|
  {
    hide M.ProposalsOk, R.RequestsOk, Apply, Attempt;
    if calls != [] {
      var c, w1 := calls[0], Apply(w, calls[0]);
      OneRequestCall(w, c, id);
      if w1.requests[id].status == Waiting {
        EndsAs(w1, calls[1..], id);
      } else {
        RunKeepsProtocols(w1, calls[1..]);
      }
    }
  }

  // ---------------------------------------------------------------- protocols leave attestations behind

  /** The issuer a log leads to, from the one who issued the record. */
  function IssuerAfter(log: seq<AuditEntry>, first: Address): Address {
    if log == [] then first
    else
      var last := log[|log| - 1].action;
      if last.Transferred? then last.newIssuer else IssuerAfter(log[..|log| - 1], first)
  }

  lemma IssuerAfterOne(log: seq<AuditEntry>, entry: AuditEntry, first: Address)
    ensures IssuerAfter(log + [entry], first) == if entry.action.Transferred? then entry.action.newIssuer else IssuerAfter(log, first)
  {
    assert (log + [entry])[..|log|] == log;
  }

  /** A native record of the claim type about the subject, issued by `first` but for the transfers in its log. */
  predicate Backs(l: L.Ledger, aid: Id, subject: Address, claimType: ClaimType, timestamp: nat, first: Address) {
    && aid in l.records
    && var a := l.records[aid];
       && a.subject == subject && a.claimType == claimType && a.timestamp == timestamp
       && a.origin == Native && a.validFrom.None? && a.metadata.None?
       && a.issuer == IssuerAfter(L.LogOf(l.logs, aid), first)
  }

  lemma BacksStays(w: World, c: Call, aid: Id, subject: Address, claimType: ClaimType, timestamp: nat, first: Address)
    requires Coherent(w.ledger) && FreshCall(w, c) && Backs(w.ledger, aid, subject, claimType, timestamp, first)
    ensures Backs(Apply(w, c).ledger, aid, subject, claimType, timestamp, first)
  {
    hide Coherent, FreshCall, Apply, Attempt, IssuerAfter;
    OneCall(w, c, aid);
    var a, log := w.ledger.records[aid], L.LogOf(w.ledger.logs, aid);
    if Attempt(w, c).Ok? && Trail(a, c, aid) != [] {
      var entry := Trail(a, c, aid)[0];
      assert Trail(a, c, aid) == [entry];
      IssuerAfterOne(log, entry, first);
    } else {
      assert log + [] == log;
    }
  }

  /** A record just stored under a fresh id backs what it was stored for. */
  lemma NewBacks(l: L.Ledger, l1: L.Ledger, a: Attestation)
    requires Coherent(l) && a.id !in l.records && Writes(l, l1, a) && SameLogs(l, l1)
    requires a.origin == Native && a.validFrom.None? && a.metadata.None?
    ensures Backs(l1, a.id, a.subject, a.claimType, a.timestamp, a.issuer)
  {
    hide OrderOk, SubjectListsOk, IssuerListsOk, IssuedOk, Keyed;
    assert L.LogOf(l1.logs, a.id) == L.LogOf(l.logs, a.id) == [];
  }

  ghost predicate ProposalBacked(l: L.Ledger, p: Proposal) {
    exists aid :: Backs(l, aid, p.subject, p.claimType, p.createdAt, p.proposer)
  }

  /** Every finalized proposal has its attestation: of its claim type, about its subject, dated when it was
      proposed, issued by its proposer. */
  ghost predicate ProposalsBacked(w: World) {
    forall id :: id in w.proposals && w.proposals[id].finalized ==> ProposalBacked(w.ledger, w.proposals[id])
  }

  ghost predicate RequestBacked(l: L.Ledger, q: Request) {
    exists aid, t: nat :: Backs(l, aid, q.subject, q.claimType, t, q.issuer) && t < q.expiresAt
  }

  /** Every fulfilled request has its attestation: of its claim type, about the subject who asked, issued by the
      issuer asked before the request expired. */
  ghost predicate RequestsBacked(w: World) {
    forall id :: id in w.requests && w.requests[id].status == Fulfilled ==> RequestBacked(w.ledger, w.requests[id])
  }

  lemma ProposalStaysBacked(w: World, c: Call, p: Proposal)
    requires Coherent(w.ledger) && FreshCall(w, c) && ProposalBacked(w.ledger, p)
    ensures ProposalBacked(Apply(w, c).ledger, p)
  {
    hide Coherent, FreshCall, Apply, Backs;
    var aid :| Backs(w.ledger, aid, p.subject, p.claimType, p.createdAt, p.proposer);
    BacksStays(w, c, aid, p.subject, p.claimType, p.createdAt, p.proposer);
  }

  lemma FinalizingBacks(w: World, c: Call)
    requires M.ProposalsOk(w) && Coherent(w.ledger) && c.action.Cosign? && Attempt(w, c).Ok? && FreshCall(w, c)
    ensures c.action.id in w.proposals && c.action.id in Apply(w, c).proposals
    ensures forall id :: id != c.action.id ==>
      (id in Apply(w, c).proposals <==> id in w.proposals) && (id in w.proposals ==> Apply(w, c).proposals[id] == w.proposals[id])
    ensures var p := Apply(w, c).proposals[c.action.id]; p.finalized ==> ProposalBacked(Apply(w, c).ledger, p)
  {
    hide Coherent, M.ProposalsOk, M.Cosign, Writes, SameLogs, Backs;
    M.CosignWrites(w, c.env, c.action.issuer, c.action.id);
    var p := w.proposals[c.action.id];
    if |p.signers| + 1 >= p.threshold {
      var aid := c.env.attestationId(p.proposer, p.subject, p.claimType, p.createdAt);
      var a := Attestation(aid, p.proposer, p.subject, p.claimType, p.createdAt, None, None, Native, None, false, None, false);
      NewBacks(w.ledger, Apply(w, c).ledger, a);
    }
  }

  lemma ProposalsStayBacked(w: World, c: Call)
    requires ProtocolsOk(w) && Coherent(w.ledger) && FreshCall(w, c) && ProposalsBacked(w)
    ensures ProposalsBacked(Apply(w, c))
  {
    hide Coherent, FreshCall, Apply, Attempt, ProposalBacked, M.ProposalsOk, R.RequestsOk, P.Proposed;
    var w1 := Apply(w, c);
    if Attempt(w, c).Err? {
      Unchanged(w, c);
    } else if c.action.Cosign? {
      FinalizingBacks(w, c);
    } else if c.action.Propose? {
      P.ProposeWrites(w, c);
      P.ProposedFresh(w, c);
    } else {
      P.OthersLeaveProposals(w, c);
    }
    forall id | id in w1.proposals && w1.proposals[id].finalized ensures ProposalBacked(w1.ledger, w1.proposals[id]) {
      if id in w.proposals && w.proposals[id] == w1.proposals[id] {
        ProposalStaysBacked(w, c, w.proposals[id]);
      }
    }
  }

  lemma RequestStaysBacked(w: World, c: Call, q: Request)
    requires Coherent(w.ledger) && FreshCall(w, c) && RequestBacked(w.ledger, q)
    ensures RequestBacked(Apply(w, c).ledger, q)
  {
    hide Coherent, FreshCall, Apply, Backs;
    var aid, t: nat :| Backs(w.ledger, aid, q.subject, q.claimType, t, q.issuer) && t < q.expiresAt;
    BacksStays(w, c, aid, q.subject, q.claimType, t, q.issuer);
  }

  lemma FulfillingBacks(w: World, c: Call)
    requires R.RequestsOk(w) && Coherent(w.ledger) && c.action.Fulfill? && Attempt(w, c).Ok?
    ensures c.action.id in w.requests
    ensures Apply(w, c).requests == w.requests[c.action.id := w.requests[c.action.id].(status := Fulfilled)]
    ensures RequestBacked(Apply(w, c).ledger, Apply(w, c).requests[c.action.id])
  {
    hide Coherent, R.RequestsOk, R.Fulfill, Writes, SameLogs, Backs;
    R.FulfillFacts(w, c.env, c.action.issuer, c.action.id, c.action.expiration);
    var q := w.requests[c.action.id];
    var aid := c.env.attestationId(q.issuer, q.subject, q.claimType, c.env.now);
    var a := Attestation(aid, q.issuer, q.subject, q.claimType, c.env.now, c.action.expiration, None, Native, None, false, None, false);
    NewBacks(w.ledger, Apply(w, c).ledger, a);
    assert Backs(Apply(w, c).ledger, aid, q.subject, q.claimType, c.env.now, q.issuer);
  }

  lemma SubmittedWaits(w: World, c: Call)
    requires c.action.Submit? && Attempt(w, c).Ok?
    ensures forall id :: id in Apply(w, c).requests && id !in w.requests ==> Apply(w, c).requests[id].status == Waiting
    ensures forall id :: id in w.requests ==> id in Apply(w, c).requests && Apply(w, c).requests[id] == w.requests[id]
  {
    hide Push;
  }

  lemma RequestsStayBacked(w: World, c: Call)
    requires ProtocolsOk(w) && Coherent(w.ledger) && FreshCall(w, c) && RequestsBacked(w)
    ensures RequestsBacked(Apply(w, c))
  {
    hide Coherent, FreshCall, Apply, Attempt, RequestBacked, M.ProposalsOk, R.RequestsOk;
    var w1 := Apply(w, c);
    if Attempt(w, c).Err? {
      Unchanged(w, c);
    } else if c.action.Fulfill? {
      FulfillingBacks(w, c);
    } else if c.action.Submit? {
      SubmittedWaits(w, c);
    } else {
      NoNewRequests(w, c);
    }
    forall id | id in w1.requests && w1.requests[id].status == Fulfilled ensures RequestBacked(w1.ledger, w1.requests[id]) {
      if id in w.requests {
        OneRequestCall(w, c, id);
        if w.requests[id].status == Fulfilled {
          RequestStaysBacked(w, c, w.requests[id]);
        }
      }
    }
  }

  lemma NoNewRequests(w: World, c: Call)
    requires ProtocolsOk(w) && Attempt(w, c).Ok? && !c.action.Submit? && !c.action.Fulfill?
    ensures forall id :: id in Apply(w, c).requests ==> id in w.requests
  {
    hide M.ProposalsOk, L.Put, Drop, Without, OnLedger;
    if c.action.Propose? {
      ProposeStores(w, c);
    } else if c.action.Cosign? {
      CosignStores(w, c);
    } else if c.action.Reject? || c.action.Cancel? {
      ClosingAddsNone(w, c);
    } else if OnLedger(w, c.env, c.action).None? {
      DelegationAddsNone(w, c);
    }
  }

  lemma ClosingAddsNone(w: World, c: Call)
    requires R.RequestsOk(w) && Attempt(w, c).Ok? && (c.action.Reject? || c.action.Cancel?)
    ensures forall id :: id in Apply(w, c).requests ==> id in w.requests
  {
    hide Drop;
  }

  lemma DelegationAddsNone(w: World, c: Call)
    requires OnLedger(w, c.env, c.action).None? && Attempt(w, c).Ok?
    requires !c.action.Submit? && !c.action.Fulfill? && !c.action.Propose? && !c.action.Cosign? && !c.action.Reject? && !c.action.Cancel?
    ensures Apply(w, c).requests == w.requests
  {
    hide Without;
  }

  /** Over every run without id reuse: every finalized proposal and every fulfilled request has left the
      attestation it was about, and transfers are the only thing that can have changed its issuer. */
  lemma {:induction false} ProtocolsBacked(w: World, calls: seq<Call>)
    requires ProtocolsOk(w) && Coherent(w.ledger) && FreshRun(w, calls) && ProposalsBacked(w) && RequestsBacked(w)
    ensures ProposalsBacked(Run(w, calls)) && RequestsBacked(Run(w, calls))
    decreases |calls|
  {
    hide Coherent, FreshCall, Apply, ProposalsBacked, RequestsBacked, ProtocolsOk;
    if calls != [] {
      ApplyKeepsLedger(w, calls[0]);
      ApplyKeepsProtocols(w, calls[0]);
      ProposalsStayBacked(w, calls[0]);
      RequestsStayBacked(w, calls[0]);
      ProtocolsBacked(Apply(w, calls[0]), calls[1..]);
    }
  }

  /** In particular from an empty contract. */
  lemma ReachableBacked(calls: seq<Call>)
    requires FreshRun(INITIAL, calls)
    ensures ProposalsBacked(Run(INITIAL, calls)) && RequestsBacked(Run(INITIAL, calls))
  {
    InitialOk();
    ProtocolsBacked(INITIAL, calls);
  }
}
