/** Why calls are rejected: every error code tells the truth about the call it answers. */
module Rejections {
  import opened Types
  import opened Sequences
  import opened Worlds
  import opened Runs
  import opened Calls
  import L = Ledger
  import B = Batches
  import M = Multisig
  import R = Requests

  predicate HasExpiration(a: Action) {
    a.Create? || a.Import? || a.CreateBatch? || a.CreateAsDelegate? || a.Renew? || a.UpdateExpiration? || a.Fulfill? || a.Grant?
  }

  predicate NamesOne(a: Action) { a.Revoke? || a.Renew? || a.UpdateExpiration? || a.Transfer? || a.Delete? }

  /** What the code claims is the case. */
  ghost predicate Explains(w: World, c: Call, e: Error) {
    var l, env, a := w.ledger, c.env, c.action;
    match e
    case ContractPaused => env.paused
    case NotInitialized => env.council.None?
    case InvalidExpiration => HasExpiration(a) && !Future(a.expiration, if a.Import? then a.timestamp else env.now)
    case InvalidValidFrom => a.Create? && !Future(a.validFrom, env.now)
    case InvalidTimestamp => a.Import? && env.now < a.timestamp
    case InvalidSourceReference => a.Bridge? && (a.chain == "" || a.tx == "")
    case MetadataTooLong => a.Bridge? && (|a.chain| > 32 || |a.tx| > 128)
    case ReasonTooLong => (a.Revoke? || a.RevokeBatch? || a.Reject?) && !Short(a.reason)
    case RateLimited => (a.Create? || a.CreateBatch?) && !Rested(l.lastIssued, env, a.issuer, a.claimType)
    case AlreadyRevoked =>
      || (NamesOne(a) && a.id in l.records && l.records[a.id].revoked)
      || (a.RevokeBatch? && exists i :: 0 <= i < |a.ids| && a.ids[i] in l.records && l.records[a.ids[i]].revoked)
    case NotFound =>
      || (NamesOne(a) && a.id !in l.records)
      || (a.RevokeBatch? && exists i :: 0 <= i < |a.ids| && a.ids[i] !in l.records)
      || (a.Cosign? && a.id !in w.proposals)
      || ((a.Fulfill? || a.Reject? || a.Cancel?) && a.id !in w.requests)
      || (a.Withdraw? && (a.issuer, a.delegate, a.claimType) !in w.delegations)
    case DuplicateAttestation => Reuses(w, c) || (a.RevokeBatch? && !NoDup(a.ids))
    case LimitExceeded =>
      || (a.Create? && !Room(l, env, a.issuer, a.subject))
      || (a.CreateAsDelegate? && !Room(l, env, a.delegator, a.subject))
      || (a.Fulfill? && a.id in w.requests && !Room(l, env, a.issuer, w.requests[a.id].subject))
      || (a.RevokeBatch? && |a.ids| > 50)
      || (a.CreateBatch? && !BatchRoom(l, env, a.issuer, a.subjects))
    case InvalidThreshold => a.Propose? && !(1 <= a.threshold <= |a.requiredSigners|)
    case ProposalFinalized => a.Cosign? && a.id in w.proposals && w.proposals[a.id].finalized
    case ProposalExpired => a.Cosign? && a.id in w.proposals && w.proposals[a.id].expiresAt <= env.now
    case NotRequiredSigner => a.Cosign? && a.id in w.proposals && a.issuer !in w.proposals[a.id].requiredSigners
    case AlreadySigned => a.Cosign? && a.id in w.proposals && a.issuer in w.proposals[a.id].signers
    case CannotDelegateToSelf => a.Grant? && a.issuer == a.delegate
    case DuplicateRequest => a.Submit? && env.requestId(a.subject, a.issuer, a.claimType, env.now) in w.requests
    case RequestAlreadyProcessed => (a.Fulfill? || a.Reject? || a.Cancel?) && a.id in w.requests && w.requests[a.id].status != Waiting
    case RequestExpired => (a.Fulfill? || a.Reject?) && a.id in w.requests && w.requests[a.id].expiresAt <= env.now
    case Unauthorized => NotAuthorized(w, c)
    case Trap => Overflows(w, c)
  }

  /** The id the call would store is in use; in a batch, or twice among the ids themselves. */
  ghost predicate Reuses(w: World, c: Call) {
    var l, env := w.ledger, c.env;
    match c.action
    case Create(i, s, ct, _, _, _) => env.attestationId(i, s, ct, env.now) in l.records
    case Import(_, i, s, ct, t, _) => env.attestationId(i, s, ct, t) in l.records
    case Bridge(b, s, ct, chain, tx) => env.bridgeId(b, s, ct, chain, tx, env.now) in l.records
    case CreateAsDelegate(_, i, s, ct, _, _) => env.attestationId(i, s, ct, env.now) in l.records
    case CreateBatch(i, ss, ct, _) => !BatchFresh(l, env, i, ss, ct)
    case Fulfill(i, id, _) => id in w.requests && env.attestationId(i, w.requests[id].subject, w.requests[id].claimType, env.now) in l.records
    case _ => false
  }

  ghost predicate BatchFresh(l: L.Ledger, env: Env, issuer: Address, subjects: seq<Address>, claimType: ClaimType) {
    var ids := L.BatchIds(env, issuer, subjects, claimType);
    NoDup(ids) && forall i :: 0 <= i < |ids| ==> ids[i] !in l.records
  }

  ghost predicate BatchRoom(l: L.Ledger, env: Env, issuer: Address, subjects: seq<Address>) {
    && Min(|Read(l.byIssuer, issuer)| + |subjects|, 0xFFFF_FFFF) <= env.limits.perIssuer
    && forall i :: 0 <= i < |subjects| ==> |Read(l.bySubject, subjects[i])| < env.limits.perSubject
  }

  /** Somebody the call depends on is not registered, or the caller is not the one entitled. */
  ghost predicate NotAuthorized(w: World, c: Call) {
    var l, env := w.ledger, c.env;
    match c.action
    case Create(i, s, _, _, _, _) => i !in env.issuers || i == s
    case Import(ad, i, _, _, _, _) => !Admin(env, ad) || i !in env.issuers
    case Bridge(b, _, _, _, _) => b !in env.bridges
    case CreateBatch(i, _, _, _) => i !in env.issuers
    case CreateAsDelegate(d, i, s, ct, _, _) =>
      i !in env.issuers || i == s || (i, d, ct) !in w.delegations || !Future(w.delegations[(i, d, ct)].expiration, env.now)
    case Revoke(i, id, _) => i !in env.issuers || (id in l.records && l.records[id].issuer != i)
    case RevokeBatch(i, ids, _) => i !in env.issuers || exists j :: 0 <= j < |ids| && ids[j] in l.records && l.records[ids[j]].issuer != i
    case Renew(i, id, _) => i !in env.issuers || (id in l.records && l.records[id].issuer != i)
    case UpdateExpiration(i, id, _) => i !in env.issuers || (id in l.records && l.records[id].issuer != i)
    case Transfer(ad, _, n) => !Admin(env, ad) || n !in env.issuers
    case Delete(s, id) => id in l.records && l.records[id].subject != s
    case Propose(p, _, _, rs, _) => p !in env.issuers || exists x :: x in rs && x !in env.issuers
    case Cosign(i, _) => i !in env.issuers
    case Submit(_, i, _) => i !in env.issuers
    case Fulfill(i, id, _) => i !in env.issuers || (id in w.requests && w.requests[id].issuer != i)
    case Reject(i, id, _) => i !in env.issuers || (id in w.requests && w.requests[id].issuer != i)
    case Cancel(s, id) => id in w.requests && w.requests[id].subject != s
    case Grant(i, _, _, _) => i !in env.issuers
    case Withdraw(i, _, _) => i !in env.issuers
  }

  /** A counter or a deadline would not fit its integer type. */
  ghost predicate Overflows(w: World, c: Call) {
    match c.action
    case Create(i, _, _, _, _, _) => !Countable(w.ledger, i)
    case Import(_, i, _, _, _, _) => !Countable(w.ledger, i)
    case Bridge(b, _, _, _, _) => !Countable(w.ledger, b)
    case CreateAsDelegate(_, i, _, _, _, _) => !Countable(w.ledger, i)
    case Fulfill(i, _, _) => !Countable(w.ledger, i)
    case Propose(p, _, _, _, _) => !Countable(w.ledger, p) || c.env.now + 604800 > 0xFFFF_FFFF_FFFF_FFFF
    case Cosign(_, id) => id in w.proposals && !Countable(w.ledger, w.proposals[id].proposer)
    case Submit(_, _, _) => c.env.now + 604800 > 0xFFFF_FFFF_FFFF_FFFF
    case _ => false
  }

  // ---------------------------------------------------------------- the two loops

  lemma {:induction false} GatherExplains(l: L.Ledger, issuer: Address, ids: seq<Id>, seen: seq<Id>)
    requires L.Gather(l, issuer, ids, seen).Err?
    ensures match L.Gather(l, issuer, ids, seen).error
      case DuplicateAttestation => !NoDup(seen + ids)
      case NotFound => exists i :: 0 <= i < |ids| && ids[i] !in l.records
      case Unauthorized => exists i :: 0 <= i < |ids| && ids[i] in l.records && l.records[ids[i]].issuer != issuer
      case AlreadyRevoked => exists i :: 0 <= i < |ids| && ids[i] in l.records && l.records[ids[i]].revoked
      case _ => false
  {
    var all := seen + ids;
    assert all[|seen|] == ids[0];
    if ids[0] in seen {
      var i :| 0 <= i < |seen| && seen[i] == ids[0];
      assert all[i] == all[|seen|];
    } else if L.OwnedAndLive(l, issuer, ids[0]).None? {
      GatherExplains(l, issuer, ids[1..], seen + [ids[0]]);
      assert (seen + [ids[0]]) + ids[1..] == all;
      assert forall i :: 0 <= i < |ids[1..]| ==> ids[1..][i] == ids[i + 1];
    }
  }

  lemma {:induction false} LoopExplains(l: L.Ledger, env: Env, issuer: Address, subjects: seq<Address>, claimType: ClaimType, expiration: Option<nat>)
    requires L.BatchLoop(l, env, issuer, subjects, claimType, expiration).Err?
    ensures match L.BatchLoop(l, env, issuer, subjects, claimType, expiration).error
      case DuplicateAttestation => !BatchFresh(l, env, issuer, subjects, claimType)
      case LimitExceeded => exists i :: 0 <= i < |subjects| && FullSubject(l, env, issuer, subjects[i], claimType)
      case _ => false
    decreases |subjects|
  {
    hide BatchFresh, FullSubject;
    var s, rest := subjects[0], subjects[1..];
    var id := env.attestationId(issuer, s, claimType, env.now);
    if id in l.records {
      UsedFirst(l, env, issuer, subjects, claimType);
    } else if |Read(l.bySubject, s)| >= env.limits.perSubject {
      assert FullSubject(l, env, issuer, subjects[0], claimType) by { FullNow(l, env, issuer, s, claimType); }
    } else {
      var l1 := L.Append(L.StoreForSubject(l, B.BatchRecord(env, issuer, s, claimType, expiration)), id, L.CreatedBy(issuer, env.now));
      LoopExplains(l1, env, issuer, rest, claimType, expiration);
      FreshLater(l, l1, env, issuer, subjects, claimType);
      forall i | 0 <= i < |rest| && FullSubject(l1, env, issuer, rest[i], claimType)
        ensures FullSubject(l, env, issuer, subjects[i + 1], claimType)
      {
        FullBefore(l, l1, env, issuer, s, rest[i], claimType);
      }
    }
  }

  /** A subject without room whose id is not in use. */
  predicate FullSubject(l: L.Ledger, env: Env, issuer: Address, subject: Address, claimType: ClaimType) {
    |Read(l.bySubject, subject)| >= env.limits.perSubject && env.attestationId(issuer, subject, claimType, env.now) !in l.records
  }

  lemma FullNow(l: L.Ledger, env: Env, issuer: Address, subject: Address, claimType: ClaimType)
    requires |Read(l.bySubject, subject)| >= env.limits.perSubject && env.attestationId(issuer, subject, claimType, env.now) !in l.records
    ensures FullSubject(l, env, issuer, subject, claimType)
  {
  }

  lemma UsedFirst(l: L.Ledger, env: Env, issuer: Address, subjects: seq<Address>, claimType: ClaimType)
    requires subjects != [] && env.attestationId(issuer, subjects[0], claimType, env.now) in l.records
    ensures !BatchFresh(l, env, issuer, subjects, claimType)
  {
    assert L.BatchIds(env, issuer, subjects, claimType)[0] in l.records;
  }

  /** The state after the first record of a batch. */
  ghost predicate Stored(l: L.Ledger, l1: L.Ledger, subject: Address, id: Id) {
    l1.records.Keys == l.records.Keys + {id} && l1.bySubject == Push(l.bySubject, subject, id)
  }

  lemma FreshLater(l: L.Ledger, l1: L.Ledger, env: Env, issuer: Address, subjects: seq<Address>, claimType: ClaimType)
    requires subjects != [] && Stored(l, l1, subjects[0], env.attestationId(issuer, subjects[0], claimType, env.now))
    ensures BatchFresh(l, env, issuer, subjects, claimType) ==> BatchFresh(l1, env, issuer, subjects[1..], claimType)
  {
    var ids := L.BatchIds(env, issuer, subjects, claimType);
    assert L.BatchIds(env, issuer, subjects[1..], claimType) == ids[1..];
    if BatchFresh(l, env, issuer, subjects, claimType) {
      forall i | 0 <= i < |ids[1..]| ensures ids[1..][i] !in l1.records {
        assert ids[0] != ids[i + 1];
      }
    }
  }

  lemma FullBefore(l: L.Ledger, l1: L.Ledger, env: Env, issuer: Address, first: Address, subject: Address, claimType: ClaimType)
    requires Stored(l, l1, first, env.attestationId(issuer, first, claimType, env.now)) && FullSubject(l1, env, issuer, subject, claimType)
    ensures FullSubject(l, env, issuer, subject, claimType)
  {
  }

  // ---------------------------------------------------------------- every rejection

  lemma CreationRejected(w: World, c: Call)
    requires c.action.Create? || c.action.Import? || c.action.Bridge? || c.action.CreateAsDelegate?
    ensures Attempt(w, c).Err? ==> Explains(w, c, Attempt(w, c).error)
  {
    hide L.Store, L.RateAllows, Rested;
    if c.action.Create? {
      RestedIff(w.ledger, c.env, c.action.issuer, c.action.claimType);
    }
  }

  lemma BatchRejected(w: World, c: Call)
    requires c.action.CreateBatch?
    ensures Attempt(w, c).Err? ==> Explains(w, c, Attempt(w, c).error)
  {
    hide L.BatchLoop, L.RateAllows, Rested, BatchFresh;
    var a := c.action;
    RestedIff(w.ledger, c.env, a.issuer, a.claimType);
    if L.BatchLoop(w.ledger, c.env, a.issuer, a.subjects, a.claimType, a.expiration).Err? {
      LoopExplains(w.ledger, c.env, a.issuer, a.subjects, a.claimType, a.expiration);
    }
  }

  lemma RevokeBatchRejected(w: World, c: Call)
    requires c.action.RevokeBatch?
    ensures Attempt(w, c).Err? ==> Explains(w, c, Attempt(w, c).error)
  {
    hide L.Gather, L.RevokeSnapshots, NoDup;
    var a := c.action;
    if L.Gather(w.ledger, a.issuer, a.ids, []).Err? {
      GatherExplains(w.ledger, a.issuer, a.ids, []);
      assert [] + a.ids == a.ids;
    }
  }

  lemma ChangeRejected(w: World, c: Call)
    requires c.action.Revoke? || c.action.Renew? || c.action.UpdateExpiration? || c.action.Transfer? || c.action.Delete?
    ensures Attempt(w, c).Err? ==> Explains(w, c, Attempt(w, c).error)
  {
    hide L.RevokeOne, L.Move, L.Erase;
  }

  lemma MultisigRejected(w: World, c: Call)
    requires c.action.Propose? || c.action.Cosign?
    ensures Attempt(w, c).Err? ==> Explains(w, c, Attempt(w, c).error)
  {
    hide L.Store, M.NewProposal;
  }

  lemma RequestRejected(w: World, c: Call)
    requires c.action.Submit? || c.action.Fulfill? || c.action.Reject? || c.action.Cancel?
    ensures Attempt(w, c).Err? ==> Explains(w, c, Attempt(w, c).error)
  {
    hide L.Store, R.Close, Push;
  }

  lemma DelegationRejected(w: World, c: Call)
    requires c.action.Grant? || c.action.Withdraw?
    ensures Attempt(w, c).Err? ==> Explains(w, c, Attempt(w, c).error)
  {
    hide Without;
  }

  /** Whatever is called, the error returned holds of the call and of the state it met. */
  lemma ErrorsAreTrue(w: World, c: Call)
    ensures Attempt(w, c).Err? ==> Explains(w, c, Attempt(w, c).error)
  {
    hide Attempt, Explains;
    match c.action
    case Create(_, _, _, _, _, _) => CreationRejected(w, c);
    case Import(_, _, _, _, _, _) => CreationRejected(w, c);
    case Bridge(_, _, _, _, _) => CreationRejected(w, c);
    case CreateAsDelegate(_, _, _, _, _, _) => CreationRejected(w, c);
    case CreateBatch(_, _, _, _) => BatchRejected(w, c);
    case RevokeBatch(_, _, _) => RevokeBatchRejected(w, c);
    case Propose(_, _, _, _, _) => MultisigRejected(w, c);
    case Cosign(_, _) => MultisigRejected(w, c);
    case Submit(_, _, _) => RequestRejected(w, c);
    case Fulfill(_, _, _) => RequestRejected(w, c);
    case Reject(_, _, _) => RequestRejected(w, c);
    case Cancel(_, _) => RequestRejected(w, c);
    case Grant(_, _, _, _) => DelegationRejected(w, c);
    case Withdraw(_, _, _) => DelegationRejected(w, c);
    case _ => ChangeRejected(w, c);
  }
}
