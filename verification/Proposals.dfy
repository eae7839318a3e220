/** Multisig proposals over whole runs: src/multisig.rs with any other calls in between. */
module Proposals {
  import opened Types
  import opened Sequences
  import opened Worlds
  import opened Runs
  import L = Ledger
  import M = Multisig

  // ---------------------------------------------------------------- how a proposal changes

  /** Terms never change, signers are only added at the end, and a finalized proposal stays as it is. */
  predicate ProposalEvolves(p: Proposal, p1: Proposal) {
    && p1 == p.(signers := p1.signers, finalized := p1.finalized)
    && p.signers <= p1.signers && (p.finalized ==> p1 == p)
  }

  ghost predicate ProposalsEvolve(w: World, w1: World) {
    forall id :: id in w.proposals ==> id in w1.proposals && ProposalEvolves(w.proposals[id], w1.proposals[id])
  }

  lemma ProposalsEvolveTransitive(a: World, b: World, c: World)
    requires ProposalsEvolve(a, b) && ProposalsEvolve(b, c)
    ensures ProposalsEvolve(a, c)
  {
    forall id | id in a.proposals ensures id in c.proposals && ProposalEvolves(a.proposals[id], c.proposals[id]) {
      assert ProposalEvolves(a.proposals[id], b.proposals[id]) && ProposalEvolves(b.proposals[id], c.proposals[id]);
    }
  }

  /** The proposal a call writes, if it is a successful proposing one that does not bypass the protocol. */
  function Proposed(w: World, c: Call): Option<Proposal> {
    match c.action
    case Propose(p, s, ct, rs, t) =>
      if M.Propose(w, c.env, p, s, ct, rs, t).Ok? && !M.Bypasses(c.env, p, ct)
      then Some(M.NewProposal(c.env, p, s, ct, rs, t)) else None
    case _ => None
  }

  /** The call replaces a stored proposal by a different one: the generated id is not checked. */
  predicate Overwrites(w: World, c: Call) {
    var p := Proposed(w, c);
    p.Some? && p.value.id in w.proposals && w.proposals[p.value.id] != p.value
  }

  predicate CosignsOn(c: Call, id: Id) { c.action.Cosign? && c.action.id == id }

  lemma ProposeWrites(w: World, c: Call)
    requires c.action.Propose?
    ensures var p := Proposed(w, c);
      Apply(w, c).proposals == if p.Some? then w.proposals[p.value.id := p.value] else w.proposals
  {
    hide L.Put, M.NewProposal;
  }

  /** A successful cosignature adds one signature to an unfinalized proposal, and finalizes it at the threshold. */
  lemma CosignWrites(w: World, c: Call)
    requires M.ProposalsOk(w) && c.action.Cosign?
    ensures Attempt(w, c).Err? ==> Apply(w, c) == w
    ensures Attempt(w, c).Ok? ==>
      && c.action.id in w.proposals
      && var p := w.proposals[c.action.id];
         && !p.finalized
         && Apply(w, c).proposals == w.proposals[c.action.id :=
              p.(signers := p.signers + [c.action.issuer], finalized := |p.signers| + 1 >= p.threshold)]
  {
    hide L.Put, M.ProposalOk, M.FinalRecord;
    assert c.action.id in w.proposals ==> w.proposals[c.action.id].id == c.action.id;
  }

  lemma LedgerCallsLeaveProposals(w: World, c: Call)
    requires OnLedger(w, c.env, c.action).Some?
    ensures Apply(w, c).proposals == w.proposals
  {
    hide OnLedger;
  }

  lemma OthersLeaveProposals(w: World, c: Call)
    requires !c.action.Propose? && !c.action.Cosign?
    ensures Apply(w, c).proposals == w.proposals
  {
    hide L.Put, Push, Drop, Without, Apply;
    if OnLedger(w, c.env, c.action).Some? {
      LedgerCallsLeaveProposals(w, c);
    } else {
      ProtocolsLeaveProposals(w, c);
    }
  }

  lemma ProtocolsLeaveProposals(w: World, c: Call)
    requires c.action.Submit? || c.action.Fulfill? || c.action.Reject? || c.action.Cancel? || c.action.Grant? || c.action.Withdraw?
    ensures Apply(w, c).proposals == w.proposals
  {
    hide L.Put, Push, Drop, Without;
  }

  /** A proposal only moves forward under a call, unless the call proposes under the same id with other
      terms or after others have signed: exactly then it is reset. */
  lemma ProposalKeptIff(w: World, c: Call, id: Id)
    requires M.ProposalsOk(w) && id in w.proposals
    ensures id in Apply(w, c).proposals
    ensures ProposalEvolves(w.proposals[id], Apply(w, c).proposals[id]) <==> !(Overwrites(w, c) && Proposed(w, c).value.id == id)
  {
    hide Apply, Proposed;
    if c.action.Propose? {
      ProposeWrites(w, c);
      ProposedFresh(w, c);
      assert M.ProposalOk(w.proposals[id]);
    } else if c.action.Cosign? {
      CosignWrites(w, c);
      NotProposed(w, c);
    } else {
      OthersLeaveProposals(w, c);
      NotProposed(w, c);
    }
  }

  lemma ProposedFresh(w: World, c: Call)
    ensures var p := Proposed(w, c); p.Some? ==> p.value.signers == [p.value.proposer] && !p.value.finalized
  {
    hide L.Put;
  }

  lemma NotProposed(w: World, c: Call)
    requires !c.action.Propose?
    ensures Proposed(w, c).None?
  {
  }

  /** Along the run no call replaces a stored proposal. */
  predicate NoOverwrites(w: World, calls: seq<Call>)
    decreases |calls|
  {
    calls == [] || (!Overwrites(w, calls[0]) && NoOverwrites(Apply(w, calls[0]), calls[1..]))
  }

  lemma ApplyEvolvesProposals(w: World, c: Call)
    requires M.ProposalsOk(w)
    ensures ProposalsEvolve(w, Apply(w, c)) <==> !Overwrites(w, c)
  {
    hide M.ProposalsOk, ProposalEvolves, Apply, Proposed;
    forall id | id in w.proposals
      ensures id in Apply(w, c).proposals
      ensures ProposalEvolves(w.proposals[id], Apply(w, c).proposals[id]) <==> !(Overwrites(w, c) && Proposed(w, c).value.id == id)
    {
      ProposalKeptIff(w, c, id);
    }
  }

  /** Over every run that replaces no proposal: terms stay, signers only grow, finalization sticks. */
  lemma {:induction false} RunEvolvesProposals(w: World, calls: seq<Call>)
    requires ProtocolsOk(w) && NoOverwrites(w, calls)
    ensures ProposalsEvolve(w, Run(w, calls))
    decreases |calls|
  {
    hide M.ProposalsOk, Apply, Overwrites;
    if calls != [] {
      var w1 := Apply(w, calls[0]);
      ApplyEvolvesProposals(w, calls[0]);
      ApplyKeepsProtocols(w, calls[0]);
      RunEvolvesProposals(w1, calls[1..]);
      ProposalsEvolveTransitive(w, w1, Run(w, calls));
    }
  }

  // ---------------------------------------------------------------- one attestation per proposal

  predicate IsFinal(w: World, id: Id) { id in w.proposals && w.proposals[id].finalized }

  /** The call is the cosignature that finalizes the proposal, and so stores its attestation. */
  predicate Finalizing(w: World, c: Call, id: Id) { CosignsOn(c, id) && UncheckedRecord(w, c).Some? }

  /** How many calls of a run store an attestation for the proposal. */
  function Finalizings(w: World, calls: seq<Call>, id: Id): nat
    decreases |calls|
  {
    if calls == [] then 0
    else (if Finalizing(w, calls[0], id) then 1 else 0) + Finalizings(Apply(w, calls[0]), calls[1..], id)
  }

  lemma CosignFinalizes(w: World, c: Call, id: Id)
    requires M.ProposalsOk(w) && CosignsOn(c, id)
    ensures Finalizing(w, c, id) ==> !IsFinal(w, id) && IsFinal(Apply(w, c), id)
    ensures !Finalizing(w, c, id) && !IsFinal(w, id) ==> !IsFinal(Apply(w, c), id)
  {
    hide Apply, Attempt, M.ProposalsOk;
    CosignWrites(w, c);
  }

  lemma FinalizingStep(w: World, c: Call, id: Id)
    requires M.ProposalsOk(w) && !Overwrites(w, c)
    ensures Finalizing(w, c, id) ==> !IsFinal(w, id) && IsFinal(Apply(w, c), id)
    ensures !Finalizing(w, c, id) ==> (IsFinal(Apply(w, c), id) <==> IsFinal(w, id))
  {
    hide Apply, Proposed, M.ProposalsOk, UncheckedRecord;
    if id in w.proposals {
      ProposalKeptIff(w, c, id);
    }
    if CosignsOn(c, id) {
      CosignFinalizes(w, c, id);
    } else if c.action.Cosign? {
      OtherCosign(w, c, id);
    } else if c.action.Propose? {
      ProposeWrites(w, c);
      ProposedFresh(w, c);
    } else {
      OthersLeaveProposals(w, c);
    }
  }

  lemma OtherCosign(w: World, c: Call, id: Id)
    requires M.ProposalsOk(w) && c.action.Cosign? && c.action.id != id
    ensures id in Apply(w, c).proposals <==> id in w.proposals
    ensures id in w.proposals ==> Apply(w, c).proposals[id] == w.proposals[id]
  {
    hide Apply, Attempt, M.ProposalsOk;
    CosignWrites(w, c);
  }

  /** Over any run that replaces no proposal, each one stores at most one attestation, and its finalized
      flag says whether it did. */
  lemma {:induction false} FinalizedAtMostOnce(w: World, calls: seq<Call>, id: Id)
    requires ProtocolsOk(w) && NoOverwrites(w, calls)
    ensures Finalizings(w, calls, id) == if !IsFinal(w, id) && IsFinal(Run(w, calls), id) then 1 else 0
    ensures IsFinal(w, id) ==> IsFinal(Run(w, calls), id)
    decreases |calls|
  {
    hide M.ProposalsOk, Apply, Overwrites, Finalizing;
    if calls != [] {
      ApplyKeepsProtocols(w, calls[0]);
      FinalizingStep(w, calls[0], id);
      FinalizedAtMostOnce(Apply(w, calls[0]), calls[1..], id);
    }
  }

  // ---------------------------------------------------------------- cosigners among other calls

  /** The issuers of a run's cosign calls on one proposal, in order. */
  function Cosigners(calls: seq<Call>, id: Id): seq<Address> {
    if calls == [] then []
    else (if CosignsOn(calls[0], id) then [calls[0].action.issuer] else []) + Cosigners(calls[1..], id)
  }

  /** Each of those calls comes from an eligible cosigner in time, and does not overflow the proposer's counter. */
  predicate CosignersEligible(w: World, calls: seq<Call>, id: Id)
    decreases |calls|
  {
    calls == [] ||
    ((CosignsOn(calls[0], id) ==>
        && id in w.proposals && M.Eligible(w.proposals[id], calls[0].env, calls[0].action.issuer)
        && Count(w.ledger.issued, w.proposals[id].proposer) < U64_MAX)
     && CosignersEligible(Apply(w, calls[0]), calls[1..], id))
  }

  /** A proposal after the given further cosigners: they sign until the quorum is reached. */
  function SignedBy(p: Proposal, cosigners: seq<Address>): Proposal
    requires |p.signers| <= M.Quorum(p)
  {
    var missing := M.Quorum(p) - |p.signers|;
    p.(signers := p.signers + cosigners[..Min(|cosigners|, missing)], finalized := |cosigners| >= missing)
  }

  lemma SignersFit(p: Proposal)
    requires M.ProposalOk(p)
    ensures |p.signers| <= M.Quorum(p) && (p.finalized <==> |p.signers| == M.Quorum(p))
  {
  }

  lemma CosignOkIff(w: World, c: Call)
    requires c.action.Cosign? && c.action.id in w.proposals
    requires M.Eligible(w.proposals[c.action.id], c.env, c.action.issuer)
    requires c.action.issuer !in w.proposals[c.action.id].signers
    requires Count(w.ledger.issued, w.proposals[c.action.id].proposer) < U64_MAX
    ensures Attempt(w, c).Ok? <==> !w.proposals[c.action.id].finalized
  {
    hide L.Store;
  }

  lemma OneCosigner(w: World, c: Call, id: Id)
    requires M.ProposalsOk(w) && id in w.proposals && CosignsOn(c, id)
    requires M.Eligible(w.proposals[id], c.env, c.action.issuer) && Count(w.ledger.issued, w.proposals[id].proposer) < U64_MAX
    requires c.action.issuer !in w.proposals[id].signers
    ensures id in Apply(w, c).proposals && |w.proposals[id].signers| <= M.Quorum(w.proposals[id])
    ensures Apply(w, c).proposals[id] == SignedBy(w.proposals[id], [c.action.issuer])
  {
    var p, xs := w.proposals[id], [c.action.issuer];
    assert M.ProposalOk(p);
    SignersFit(p);
    hide M.ProposalOk, M.ProposalsOk, Apply, Attempt;
    CosignWrites(w, c);
    CosignOkIff(w, c);
    assert p.signers + xs[..0] == p.signers;
    assert xs[..1] == xs;
  }

  /** Signing by one and then by others is signing by all. */
  lemma SignedByMore(p: Proposal, first: Address, rest: seq<Address>)
    requires |p.signers| <= M.Quorum(p)
    ensures |SignedBy(p, [first]).signers| <= M.Quorum(p)
    ensures SignedBy(SignedBy(p, [first]), rest) == SignedBy(p, [first] + rest)
  {
    var p1, all, missing := SignedBy(p, [first]), [first] + rest, M.Quorum(p) - |p.signers|;
    if missing == 0 {
      assert [first][..0] == [] && p1.signers == p.signers;
    } else {
      assert [first][..1] == [first];
      assert all[..Min(|all|, missing)] == [first] + rest[..Min(|rest|, missing - 1)];
    }
  }

  lemma SignedByNone(p: Proposal)
    requires M.ProposalOk(p)
    ensures |p.signers| <= M.Quorum(p) && SignedBy(p, []) == p
  {
    SignersFit(p);
    assert p.signers + [] == p.signers;
  }

  lemma NotACosigner(w: World, c: Call, id: Id)
    requires M.ProposalsOk(w) && id in w.proposals && !CosignsOn(c, id) && !Overwrites(w, c)
    ensures id in Apply(w, c).proposals && Apply(w, c).proposals[id] == w.proposals[id]
  {
    hide Apply, Proposed, M.ProposalsOk;
    if c.action.Cosign? {
      OtherCosign(w, c, id);
    } else if c.action.Propose? {
      ProposeWrites(w, c);
    } else {
      OthersLeaveProposals(w, c);
    }
  }

  /** Any run, with whatever other calls in between: distinct eligible cosigners, in any order, sign the
      proposal until `Quorum` signatures are reached, the one that reaches it finalizes, and later ones
      change nothing. From a new proposal that is cosign call number `Quorum - 1`. */
  lemma {:induction false} CosignersFinalizeInRuns(w: World, calls: seq<Call>, id: Id)
    requires ProtocolsOk(w) && id in w.proposals && NoOverwrites(w, calls) && CosignersEligible(w, calls, id)
    requires NoDup(Cosigners(calls, id)) && forall x :: x in Cosigners(calls, id) ==> x !in w.proposals[id].signers
    ensures |w.proposals[id].signers| <= M.Quorum(w.proposals[id]) && id in Run(w, calls).proposals
    ensures Run(w, calls).proposals[id] == SignedBy(w.proposals[id], Cosigners(calls, id))
    decreases |calls|
  {
    hide Apply, Overwrites, M.Eligible, SignedBy, NoDup;
    var p, cs := w.proposals[id], Cosigners(calls, id);
    SignedByNone(p);
    if calls != [] {
      var c, w1, rest := calls[0], Apply(w, calls[0]), Cosigners(calls[1..], id);
      ApplyKeepsProtocols(w, c);
      hide M.ProposalsOk, ProtocolsOk;
      assert M.ProposalsOk(w) by { ProtocolsProposals(w); }
      if CosignsOn(c, id) {
        assert cs[0] == c.action.issuer && cs == [c.action.issuer] + rest;
        assert c.action.issuer in cs;
        OneCosigner(w, c, id);
        SignedByMore(p, c.action.issuer, rest);
        RestDistinct(p, c.action.issuer, rest);
        CosignersFinalizeInRuns(w1, calls[1..], id);
      } else {
        assert cs == rest;
        NotACosigner(w, c, id);
        CosignersFinalizeInRuns(w1, calls[1..], id);
      }
    }
  }

  lemma ProtocolsProposals(w: World)
    requires ProtocolsOk(w)
    ensures M.ProposalsOk(w)
  {
  }

  lemma RestDistinct(p: Proposal, first: Address, rest: seq<Address>)
    requires NoDup([first] + rest) && |p.signers| <= M.Quorum(p)
    requires forall x :: x in [first] + rest ==> x !in p.signers
    ensures NoDup(rest) && forall x :: x in rest ==> x !in SignedBy(p, [first]).signers
  {
    var all := [first] + rest;
    assert forall i :: 0 <= i < |rest| ==> rest[i] == all[i + 1];
    assert rest == all[1..];
    forall x | x in rest ensures x !in SignedBy(p, [first]).signers {
      var i :| 0 <= i < |rest| && rest[i] == x;
      assert all[0] != all[i + 1];
      assert x in all;
    }
  }

  // ---------------------------------------------------------------- the hypothesis is needed

  /** Propose, cosign, propose again within one ledger second: the finalized proposal is reset to its
      proposer's signature, although no id of an attestation was reused; and the next cosignature then
      stores the attestation a second time. */
  lemma ReproposalResets(env: Env, proposer: Address, cosigner: Address, subject: Address, claimType: ClaimType)
    requires proposer in env.issuers && cosigner in env.issuers && proposer != cosigner && !env.paused
    requires !M.Bypasses(env, proposer, claimType) && env.now + SEVEN_DAYS <= U64_MAX
    ensures
      var propose := Call(env, Propose(proposer, subject, claimType, [cosigner], 1));
      var id := env.proposalId(proposer, subject, claimType, env.now);
      var cosign := Call(env, Cosign(cosigner, id));
      var w2, w3 := Run(INITIAL, [propose, cosign]), Run(INITIAL, [propose, cosign, propose]);
      && id in w2.proposals && w2.proposals[id].finalized && w2.proposals[id].signers == [proposer, cosigner]
      && id in w3.proposals && !w3.proposals[id].finalized && w3.proposals[id].signers == [proposer]
      && FreshRun(INITIAL, [propose, cosign, propose]) && !NoOverwrites(INITIAL, [propose, cosign, propose])
      && Attempt(w3, cosign).Ok? && !FreshCall(w3, cosign)
  {
    hide L.Store;
    var propose := Call(env, Propose(proposer, subject, claimType, [cosigner], 1));
    var p := M.NewProposal(env, proposer, subject, claimType, [cosigner], 1);
    var cosign := Call(env, Cosign(cosigner, p.id));
    var w1 := INITIAL.(proposals := map[p.id := p]);
    var a := M.FinalRecord(env, p);
    var l := L.Store(L.EMPTY, a);
    var w2 := w1.(ledger := l, proposals := map[p.id := p.(signers := [proposer, cosigner], finalized := true)]);
    var w3 := w2.(proposals := map[p.id := p]);
    ProposeOk(INITIAL, propose);
    ProposeOk(w2, propose);
    CosignOnce(w1, env, cosigner, p, w2);
    RunThree(INITIAL, propose, cosign, propose);
    assert a.id in l.records by { Stored(a); }
    assert Attempt(w3, cosign).Ok? by { StillRoom(a); }
  }

  lemma CosignOnce(w: World, env: Env, cosigner: Address, p: Proposal, w1: World)
    requires cosigner in env.issuers && !env.paused && env.now < p.expiresAt && cosigner in p.requiredSigners
    requires w.proposals == map[p.id := p] && !p.finalized && p.signers == [p.proposer] && p.threshold == 1
    requires cosigner != p.proposer && w.ledger == L.EMPTY
    requires w1 == w.(ledger := L.Store(L.EMPTY, M.FinalRecord(env, p)),
                      proposals := map[p.id := p.(signers := [p.proposer, cosigner], finalized := true)])
    ensures Attempt(w, Call(env, Cosign(cosigner, p.id))) == Ok(w1)
  {
    hide L.Store;
    assert p.signers + [cosigner] == [p.proposer, cosigner];
    assert w.proposals[p.id := w1.proposals[p.id]] == w1.proposals;
  }

  lemma ProposeOk(w: World, c: Call)
    requires c.action.Propose? && !M.Bypasses(c.env, c.action.proposer, c.action.claimType)
    requires M.Propose(w, c.env, c.action.proposer, c.action.subject, c.action.claimType, c.action.requiredSigners, c.action.threshold).Ok?
    ensures Proposed(w, c).Some? && UncheckedRecord(w, c).None?
    ensures Attempt(w, c) == Ok(w.(proposals := w.proposals[Proposed(w, c).value.id := Proposed(w, c).value]))
  {
    hide L.Put;
  }

  lemma Stored(a: Attestation)
    ensures a.id in L.Store(L.EMPTY, a).records
  {
  }

  lemma StillRoom(a: Attestation)
    ensures Count(L.Store(L.EMPTY, a).issued, a.issuer) < U64_MAX
  {
  }

  lemma RunCons(w: World, c: Call, cs: seq<Call>)
    ensures Run(w, [c] + cs) == Run(Apply(w, c), cs)
    ensures FreshRun(w, [c] + cs) <==> FreshCall(w, c) && FreshRun(Apply(w, c), cs)
    ensures NoOverwrites(w, [c] + cs) <==> !Overwrites(w, c) && NoOverwrites(Apply(w, c), cs)
  {
    hide Apply, FreshCall, Overwrites;
    RunSplit(w, c, cs);
    assert ([c] + cs)[1..] == cs;
  }

  lemma RunThree(w: World, a: Call, b: Call, c: Call)
    ensures Run(w, [a, b]) == Apply(Apply(w, a), b)
    ensures Run(w, [a, b, c]) == Apply(Apply(Apply(w, a), b), c)
    ensures FreshRun(w, [a, b, c]) <==> FreshCall(w, a) && FreshCall(Apply(w, a), b) && FreshCall(Apply(Apply(w, a), b), c)
    ensures NoOverwrites(w, [a, b, c]) <==> !Overwrites(w, a) && !Overwrites(Apply(w, a), b) && !Overwrites(Apply(Apply(w, a), b), c)
  {
    hide Apply, FreshCall, Overwrites;
    var w1, w2 := Apply(w, a), Apply(Apply(w, a), b);
    assert [a, b, c] == [a] + [b, c] && [b, c] == [b] + [c] && [c] == [c] + [] && [a, b] == [a] + [b] && [b] == [b] + [];
    RunCons(w, a, [b, c]);
    RunCons(w1, b, [c]);
    RunCons(w2, c, []);
    RunCons(w, a, [b]);
    RunCons(w1, b, []);
  }
}
