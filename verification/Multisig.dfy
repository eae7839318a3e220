/** M-of-N proposals: src/multisig.rs. */
module Multisig {
  import opened Types
  import opened Sequences
  import opened Ledger
  import opened Worlds
  import opened Effects

  /** Does this proposal bypass the protocol? */
  predicate Bypasses(env: Env, proposer: Address, claimType: ClaimType) {
    claimType == ACCREDITED && proposer in env.premium
  }

  /** `propose_attestation`. Neither generated id is checked for being unused. */
  function Propose(w: World, env: Env, proposer: Address, subject: Address, claimType: ClaimType,
                   requiredSigners: seq<Address>, threshold: nat): Result<World>
  {
    if proposer !in env.issuers then Err(Unauthorized)
    else if env.paused then Err(ContractPaused)
    else if Bypasses(env, proposer, claimType) then
      var id := env.attestationId(proposer, subject, claimType, env.now);
      match Put(w.ledger, NewRecord(id, proposer, subject, claimType, env.now, None))
      case Err(e) => Err(e)
      case Ok(l) => Ok(w.(ledger := l))
    else if !(forall i :: 0 <= i < |requiredSigners| ==> requiredSigners[i] in env.issuers) then Err(Unauthorized)
    else if threshold == 0 || threshold > |requiredSigners| then Err(InvalidThreshold)
    else if env.now + SEVEN_DAYS > U64_MAX then Err(Trap)
    else
      var p := NewProposal(env, proposer, subject, claimType, requiredSigners, threshold);
      Ok(w.(proposals := w.proposals[p.id := p]))
  }

  function NewProposal(env: Env, proposer: Address, subject: Address, claimType: ClaimType,
                       requiredSigners: seq<Address>, threshold: nat): Proposal
  {
    Proposal(env.proposalId(proposer, subject, claimType, env.now), proposer, subject, claimType, requiredSigners,
             threshold, [proposer], env.now, env.now + SEVEN_DAYS, false)
  }

  /** What a successful proposal does to the rest of the state: nothing, or one store when it bypasses. */
  lemma ProposeFrame(w: World, env: Env, proposer: Address, subject: Address, claimType: ClaimType,
                     requiredSigners: seq<Address>, threshold: nat)
    ensures var r := Propose(w, env, proposer, subject, claimType, requiredSigners, threshold);
      r.Ok? ==>
        && r.value == w.(ledger := r.value.ledger, proposals := r.value.proposals)
        && r.value.ledger == if Bypasses(env, proposer, claimType)
             then Store(w.ledger, NewRecord(env.attestationId(proposer, subject, claimType, env.now), proposer, subject, claimType, env.now, None))
             else w.ledger
  {
    hide Store, NewProposal;
  }

  /** The record a finalized proposal stores. */
  function FinalRecord(env: Env, p: Proposal): Attestation {
    NewRecord(env.attestationId(p.proposer, p.subject, p.claimType, p.createdAt),
              p.proposer, p.subject, p.claimType, p.createdAt, None)
  }

  /** `cosign_attestation`. */
  function Cosign(w: World, env: Env, issuer: Address, id: Id): Result<World> {
    if issuer !in env.issuers then Err(Unauthorized)
    else if env.paused then Err(ContractPaused)
    else if id !in w.proposals then Err(NotFound)
    else
      var p := w.proposals[id];
      if p.finalized then Err(ProposalFinalized)
      else if env.now >= p.expiresAt then Err(ProposalExpired)
      else if issuer !in p.requiredSigners then Err(NotRequiredSigner)
      else if issuer in p.signers then Err(AlreadySigned)
      else
        var signed := p.(signers := p.signers + [issuer]);
        if |signed.signers| >= p.threshold then
          match Put(w.ledger, FinalRecord(env, p))
          case Err(e) => Err(e)
          case Ok(l) => Ok(w.(ledger := l, proposals := w.proposals[p.id := signed.(finalized := true)]))
        else
          Ok(w.(proposals := w.proposals[p.id := signed]))
  }

  // ---------------------------------------------------------------- what every proposal satisfies

  /** The proposer's own signature never finalizes, so at least two signatures are needed. */
  function Quorum(p: Proposal): nat { if p.threshold < 2 then 2 else p.threshold }

  ghost predicate ProposalOk(p: Proposal) {
    && 1 <= p.threshold <= |p.requiredSigners|
    && NoDup(p.signers) && |p.signers| >= 1 && p.signers[0] == p.proposer
    && (forall i :: 1 <= i < |p.signers| ==> p.signers[i] in p.requiredSigners)
    && (if p.finalized then |p.signers| == Quorum(p) else |p.signers| == 1 || |p.signers| < p.threshold)
  }

  ghost predicate ProposalsOk(w: World) {
    forall id :: id in w.proposals ==> w.proposals[id].id == id && ProposalOk(w.proposals[id])
  }

  lemma ProposeKeepsProposals(w: World, env: Env, proposer: Address, subject: Address, claimType: ClaimType,
                              requiredSigners: seq<Address>, threshold: nat)
    requires ProposalsOk(w)
    ensures var r := Propose(w, env, proposer, subject, claimType, requiredSigners, threshold);
      r.Ok? ==> ProposalsOk(r.value)
  {
    hide Store;
  }

  /** A proposal is stored on the proposer's terms with its signature, open for seven days; the bypass stores
      the attestation itself instead. */
  lemma ProposeWrites(w: World, env: Env, proposer: Address, subject: Address, claimType: ClaimType,
                      requiredSigners: seq<Address>, threshold: nat)
    requires Propose(w, env, proposer, subject, claimType, requiredSigners, threshold).Ok?
    ensures var w1 := Propose(w, env, proposer, subject, claimType, requiredSigners, threshold).value;
      if claimType == "ACCREDITED_INVESTOR" && proposer in env.premium then
        var id := env.attestationId(proposer, subject, claimType, env.now);
        && w1 == w.(ledger := w1.ledger) && SameLogs(w.ledger, w1.ledger)
        && Writes(w.ledger, w1.ledger, Attestation(id, proposer, subject, claimType, env.now, None, None, Native, None, false, None, false))
      else
        var id := env.proposalId(proposer, subject, claimType, env.now);
        && w1 == w.(proposals := w1.proposals)
        && w1.proposals == w.proposals[id := Proposal(id, proposer, subject, claimType, requiredSigners, threshold, [proposer],
                                                      env.now, env.now + 604800, false)]
  {
    hide Put, Writes, SameLogs;
    if claimType == "ACCREDITED_INVESTOR" && proposer in env.premium {
      var id := env.attestationId(proposer, subject, claimType, env.now);
      PutWrites(w.ledger, Attestation(id, proposer, subject, claimType, env.now, None, None, Native, None, false, None, false));
    }
  }

  /** A cosignature adds one signature. If it meets the threshold, the proposal is finalized and the attestation
      it proposed is stored: the proposer's, about the proposed subject, dated when it was proposed, without
      expiration. */
  lemma CosignWrites(w: World, env: Env, issuer: Address, id: Id)
    requires ProposalsOk(w) && Cosign(w, env, issuer, id).Ok?
    ensures id in w.proposals
    ensures var w1, p := Cosign(w, env, issuer, id).value, w.proposals[id];
      var aid, done := env.attestationId(p.proposer, p.subject, p.claimType, p.createdAt), |p.signers| + 1 >= p.threshold;
      && !p.finalized && w1 == w.(ledger := w1.ledger, proposals := w1.proposals)
      && w1.proposals == w.proposals[id := p.(signers := p.signers + [issuer], finalized := done)]
      && (if done then
            && SameLogs(w.ledger, w1.ledger)
            && Writes(w.ledger, w1.ledger,
                      Attestation(aid, p.proposer, p.subject, p.claimType, p.createdAt, None, None, Native, None, false, None, false))
          else w1.ledger == w.ledger)
  {
    hide Put, Writes, SameLogs;
    var p := w.proposals[id];
    assert p.id == id;
    hide ProposalOk, ProposalsOk;
    if |p.signers| + 1 >= p.threshold {
      var aid := env.attestationId(p.proposer, p.subject, p.claimType, p.createdAt);
      PutWrites(w.ledger, Attestation(aid, p.proposer, p.subject, p.claimType, p.createdAt, None, None, Native, None, false, None, false));
    }
  }

  lemma SignKeeps(p: Proposal, issuer: Address)
    requires ProposalOk(p) && !p.finalized && issuer in p.requiredSigners && issuer !in p.signers
    ensures ProposalOk(p.(signers := p.signers + [issuer], finalized := |p.signers| + 1 >= p.threshold))
  {
    var signers := p.signers + [issuer];
    assert NoDup(signers);
    assert forall i :: 1 <= i < |signers| ==> signers[i] in p.requiredSigners;
  }

  lemma CosignKeepsProposals(w: World, env: Env, issuer: Address, id: Id)
    requires ProposalsOk(w)
    ensures var r := Cosign(w, env, issuer, id); r.Ok? ==> ProposalsOk(r.value)
  {
    var r := Cosign(w, env, issuer, id);
    if r.Ok? {
      var p := w.proposals[id];
      assert p.id == id;
      SignKeeps(p, issuer);
      assert r.value.proposals[id] == p.(signers := p.signers + [issuer], finalized := |p.signers| + 1 >= p.threshold);
    }
  }

  // ---------------------------------------------------------------- how a proposal is finalized

  /** Cosign calls in order; a rejected call changes nothing. */
  function CosignAll(w: World, calls: seq<(Env, Address)>, id: Id): World {
    if calls == [] then w
    else
      var n := |calls| - 1;
      var before := CosignAll(w, calls[..n], id);
      match Cosign(before, calls[n].0, calls[n].1, id)
      case Ok(after) => after
      case Err(_) => before
  }

  predicate Eligible(p: Proposal, env: Env, issuer: Address) {
    && issuer in env.issuers && !env.paused && env.now < p.expiresAt
    && issuer in p.requiredSigners && issuer != p.proposer
  }

  ghost function Callers(calls: seq<(Env, Address)>): (cs: seq<Address>)
    ensures |cs| == |calls| && forall i :: 0 <= i < |cs| ==> cs[i] == calls[i].1
  {
    seq(|calls|, i requires 0 <= i < |calls| => calls[i].1)
  }

  ghost predicate JustProposed(w: World, id: Id) {
    && ProposalsOk(w) && id in w.proposals && !w.proposals[id].finalized
    && w.proposals[id].signers == [w.proposals[id].proposer]
  }

  /** The state `k` distinct eligible cosign calls lead to. */
  ghost predicate After(w: World, w1: World, calls: seq<(Env, Address)>, id: Id)
    requires JustProposed(w, id)
  {
    var p, q := w.proposals[id], Quorum(w.proposals[id]) - 1;
    var done := |calls| >= q;
    && w1.proposals == w.proposals[id := p.(signers := [p.proposer] + Callers(calls)[..Min(|calls|, q)], finalized := done)]
    && w1.ledger == if done then Store(w.ledger, FinalRecord(calls[q - 1].0, p)) else w.ledger
  }

  /** One call short of the quorum: the signature is added, and the last one finalizes. */
  lemma SigningStep(w: World, w1: World, calls: seq<(Env, Address)>, id: Id)
    requires JustProposed(w, id) && 0 < |calls| < Quorum(w.proposals[id]) && NoDup(Callers(calls))
    requires Count(w.ledger.issued, w.proposals[id].proposer) < U64_MAX
    requires var last := calls[|calls| - 1]; Eligible(w.proposals[id], last.0, last.1)
    requires forall i :: 0 <= i < |calls| ==> calls[i].1 != w.proposals[id].proposer
    requires After(w, w1, calls[..|calls| - 1], id)
    ensures var r := Cosign(w1, calls[|calls| - 1].0, calls[|calls| - 1].1, id); r.Ok? && After(w, r.value, calls, id)
  {
    var n, p, q := |calls| - 1, w.proposals[id], Quorum(w.proposals[id]) - 1;
    assert p.id == id && p.threshold >= 1;
    hide ProposalOk, ProposalsOk, Store;
    var p1, issuer := w1.proposals[id], calls[n].1;
    var cs := Callers(calls);
    assert Callers(calls[..n])[..Min(n, q)] == cs[..n];
    assert p1.signers == [p.proposer] + cs[..n];
    assert issuer !in p1.signers by {
      assert forall i :: 0 <= i < n ==> cs[i] != cs[n];
    }
    assert p1.signers + [issuer] == [p.proposer] + cs[..Min(|calls|, q)];
    var r := Cosign(w1, calls[n].0, issuer, id);
    var p2 := p.(signers := p1.signers + [issuer], finalized := |calls| >= q);
    assert r.Ok? && r.value.proposals == w1.proposals[id := p2];
    assert w1.proposals[id := p2] == w.proposals[id := p2];
  }

  /** Distinct eligible cosigners, in any order: the proposal is finalized by call number
      `Quorum - 1`, the attestation is stored by that call, and later calls change nothing. */
  lemma {:induction false} CosignersFinalize(w: World, calls: seq<(Env, Address)>, id: Id)
    requires JustProposed(w, id) && NoDup(Callers(calls))
    requires Count(w.ledger.issued, w.proposals[id].proposer) < U64_MAX
    requires forall i :: 0 <= i < |calls| ==> Eligible(w.proposals[id], calls[i].0, calls[i].1)
    ensures After(w, CosignAll(w, calls, id), calls, id)
  {
    var p, n := w.proposals[id], |calls| - 1;
    if calls == [] {
      assert [p.proposer] + Callers(calls)[..0] == p.signers;
      assert w.proposals[id := p] == w.proposals;
    } else {
      var front := calls[..n];
      assert Callers(front) == Callers(calls)[..n];
      CosignersFinalize(w, front, id);
      hide ProposalOk, ProposalsOk, Store;
      var w1 := CosignAll(w, front, id);
      if |calls| < Quorum(p) {
        SigningStep(w, w1, calls, id);
      } else {
        assert w1.proposals[id].finalized;
        var q := Quorum(p) - 1;
        assert Callers(front)[..q] == Callers(calls)[..q];
      }
    }
  }

  lemma CosignFrame(w: World, env: Env, issuer: Address, id: Id)
    requires id in w.proposals && w.proposals[id].id == id
    ensures var r := Cosign(w, env, issuer, id); r.Ok? ==>
      && id in r.value.proposals
      && r.value.proposals[id] == w.proposals[id].(signers := r.value.proposals[id].signers, finalized := r.value.proposals[id].finalized)
  {
  }

  lemma {:induction false} CosignAllKeeps(w: World, calls: seq<(Env, Address)>, id: Id)
    requires ProposalsOk(w) && id in w.proposals
    ensures
      var w1 := CosignAll(w, calls, id);
      && ProposalsOk(w1) && id in w1.proposals
      && w1.proposals[id] == w.proposals[id].(signers := w1.proposals[id].signers, finalized := w1.proposals[id].finalized)
  {
    hide ProposalOk, Cosign;
    if calls != [] {
      var n := |calls| - 1;
      CosignAllKeeps(w, calls[..n], id);
      CosignKeepsProposals(CosignAll(w, calls[..n], id), calls[n].0, calls[n].1, id);
      CosignFrame(CosignAll(w, calls[..n], id), calls[n].0, calls[n].1, id);
    }
  }

  ghost function OtherSigners(p: Proposal): set<Address> { Elems(p.requiredSigners) - {p.proposer} }

  lemma SignersBound(p: Proposal)
    requires ProposalOk(p)
    ensures |OtherSigners(p)| >= |p.signers| - 1
  {
    var rest := p.signers[1..];
    NoDupCardinality(rest);
    assert Elems(rest) <= OtherSigners(p);
    assert OtherSigners(p) == Elems(rest) + (OtherSigners(p) - Elems(rest));
  }

  lemma {:induction false} PickDistinct<T>(s: set<T>, k: nat) returns (xs: seq<T>)
    requires k <= |s|
    ensures |xs| == k && NoDup(xs) && forall i :: 0 <= i < k ==> xs[i] in s
    decreases k
  {
    if k == 0 {
      xs := [];
    } else {
      var x :| x in s;
      var rest := PickDistinct(s - {x}, k - 1);
      xs := [x] + rest;
    }
  }

  ghost predicate Finalizes(w: World, calls: seq<(Env, Address)>, id: Id) {
    id in CosignAll(w, calls, id).proposals && CosignAll(w, calls, id).proposals[id].finalized
  }

  lemma FinalizedNamesEnough(w: World, calls: seq<(Env, Address)>, id: Id)
    requires JustProposed(w, id) && Finalizes(w, calls, id)
    ensures |OtherSigners(w.proposals[id])| >= Quorum(w.proposals[id]) - 1
  {
    CosignAllKeeps(w, calls, id);
    SignersBound(CosignAll(w, calls, id).proposals[id]);
  }

  lemma EnoughNamedFinalizes(w: World, env: Env, id: Id) returns (calls: seq<(Env, Address)>)
    requires JustProposed(w, id) && Count(w.ledger.issued, w.proposals[id].proposer) < U64_MAX
    requires !env.paused && env.now < w.proposals[id].expiresAt
    requires forall x :: x in w.proposals[id].requiredSigners ==> x in env.issuers
    requires |OtherSigners(w.proposals[id])| >= Quorum(w.proposals[id]) - 1
    ensures Finalizes(w, calls, id)
  {
    var p := w.proposals[id];
    var xs := PickDistinct(OtherSigners(p), Quorum(p) - 1);
    calls := seq(|xs|, i requires 0 <= i < |xs| => (env, xs[i]));
    assert Callers(calls) == xs;
    CosignersFinalize(w, calls, id);
    assert After(w, CosignAll(w, calls, id), calls, id);
  }

  /** A proposal that names nobody but its proposer is accepted with threshold one, and no sequence of
      cosign calls ever finalizes it. */
  lemma SelfSignedStuck(w: World, env: Env, proposer: Address, subject: Address, claimType: ClaimType, calls: seq<(Env, Address)>)
    requires ProposalsOk(w) && proposer in env.issuers && !env.paused && !Bypasses(env, proposer, claimType)
    requires env.now + SEVEN_DAYS <= U64_MAX
    ensures var r := Propose(w, env, proposer, subject, claimType, [proposer], 1);
      r.Ok? && !Finalizes(r.value, calls, env.proposalId(proposer, subject, claimType, env.now))
  {
    var w1 := Propose(w, env, proposer, subject, claimType, [proposer], 1).value;
    var id := env.proposalId(proposer, subject, claimType, env.now);
    ProposeKeepsProposals(w, env, proposer, subject, claimType, [proposer], 1);
    assert OtherSigners(w1.proposals[id]) == {};
    if Finalizes(w1, calls, id) {
      FinalizedNamesEnough(w1, calls, id);
    }
  }

  /** The threshold is validated against the length of the signer list, repetitions and proposer
      included; a proposal can be finalized at all iff it names enough distinct other signers. */
  lemma FinalizableIff(w: World, env: Env, id: Id)
    requires JustProposed(w, id) && Count(w.ledger.issued, w.proposals[id].proposer) < U64_MAX
    requires !env.paused && env.now < w.proposals[id].expiresAt
    requires forall x :: x in w.proposals[id].requiredSigners ==> x in env.issuers
    ensures (exists calls :: Finalizes(w, calls, id))
       <==> |OtherSigners(w.proposals[id])| >= Quorum(w.proposals[id]) - 1
  {
    if |OtherSigners(w.proposals[id])| >= Quorum(w.proposals[id]) - 1 {
      var calls := EnoughNamedFinalizes(w, env, id);
    }
    forall calls | Finalizes(w, calls, id)
      ensures |OtherSigners(w.proposals[id])| >= Quorum(w.proposals[id]) - 1
    {
      FinalizedNamesEnough(w, calls, id);
    }
  }
}
