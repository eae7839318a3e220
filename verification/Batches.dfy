/** The batch entry points against the single ones: `create_attestations_batch` and
    `revoke_attestations_batch` of src/attestation.rs. */
module Batches {
  import opened Types
  import opened Sequences
  import opened Ledger
  import opened Coherence
  import opened Evolution

  // ---------------------------------------------------------------- batch creation

  ghost predicate AlikeButIssued(a: Ledger, b: Ledger) {
    && a.records == b.records && a.logs == b.logs && a.attestations == b.attestations
    && a.revocations == b.revocations && a.order == b.order && a.stale == b.stale && a.lastIssued == b.lastIssued
    && (forall x ::
          && Read(a.bySubject, x) == Read(b.bySubject, x)
          && Read(a.valid, x) == Read(b.valid, x)
          && Read(a.subjectChunks, x) == Read(b.subjectChunks, x)
          && Read(a.byIssuer, x) == Read(b.byIssuer, x)
          && Read(a.issuerChunks, x) == Read(b.issuerChunks, x))
  }

  /** Two ledgers that every getter reads alike. */
  ghost predicate ReadsAlike(a: Ledger, b: Ledger) {
    AlikeButIssued(a, b) && forall x :: Count(a.issued, x) == Count(b.issued, x)
  }

  function BatchRecord(env: Env, issuer: Address, subject: Address, claimType: ClaimType, expiration: Option<nat>): Attestation {
    NewRecord(env.attestationId(issuer, subject, claimType, env.now), issuer, subject, claimType, env.now, expiration)
  }

  /** The reference: `store_attestation` and its audit entry once per subject, in order. */
  function StoreEach(l: Ledger, env: Env, issuer: Address, subjects: seq<Address>, claimType: ClaimType,
                     expiration: Option<nat>): Ledger
    decreases |subjects|
  {
    if subjects == [] then l
    else
      var a := BatchRecord(env, issuer, subjects[0], claimType, expiration);
      StoreEach(Append(Store(l, a), a.id, CreatedBy(issuer, env.now)), env, issuer, subjects[1..], claimType, expiration)
  }

  /** List map `s` is list map `b` with `done` appended to the list of `issuer`. */
  ghost predicate Extends(b: map<Address, seq<Id>>, s: map<Address, seq<Id>>, issuer: Address, done: seq<Id>) {
    forall x :: Read(s, x) == Read(b, x) + if x == issuer then done else []
  }

  lemma ExtendsPush(b: map<Address, seq<Id>>, s: map<Address, seq<Id>>, issuer: Address, done: seq<Id>, id: Id)
    requires Extends(b, s, issuer, done)
    ensures Extends(b, Push(s, issuer, id), issuer, done + [id])
  {
    forall x ensures Read(Push(s, issuer, id), x) == Read(b, x) + if x == issuer then done + [id] else [] {
      assert Read(s, x) == Read(b, x) + if x == issuer then done else [];
      if x == issuer {
        assert Read(b, x) + done + [id] == Read(b, x) + (done + [id]);
      }
    }
  }

  ghost predicate SameSubjectSide(b: Ledger, s: Ledger) {
    && b.records == s.records && b.bySubject == s.bySubject && b.valid == s.valid
    && b.subjectChunks == s.subjectChunks && b.logs == s.logs && b.revocations == s.revocations
    && b.lastIssued == s.lastIssued && b.order == s.order && b.stale == s.stale
  }

  /** `s` is ahead of the batch state `b` by exactly the issuer-side writes of the ids in `done`. */
  ghost predicate Ahead(b: Ledger, s: Ledger, issuer: Address, done: seq<Id>) {
    && SameSubjectSide(b, s)
    && Extends(b.byIssuer, s.byIssuer, issuer, done)
    && Extends(b.issuerChunks, s.issuerChunks, issuer, done)
    && (forall x :: Count(s.issued, x) == Count(b.issued, x) + if x == issuer then |done| else 0)
    && s.attestations == SaturatingAdd(b.attestations, |done|)
  }

  lemma AheadStep(b: Ledger, s: Ledger, issuer: Address, done: seq<Id>, a: Attestation, entry: AuditEntry)
    requires Ahead(b, s, issuer, done) && a.issuer == issuer && b.attestations <= U64_MAX
    ensures Ahead(Append(StoreForSubject(b, a), a.id, entry), Append(Store(s, a), a.id, entry), issuer, done + [a.id])
  {
    ExtendsPush(b.byIssuer, s.byIssuer, issuer, done, a.id);
    ExtendsPush(b.issuerChunks, s.issuerChunks, issuer, done, a.id);
  }

  lemma IdsUnfold(env: Env, issuer: Address, subjects: seq<Address>, claimType: ClaimType, done: seq<Id>)
    requires subjects != []
    ensures done + BatchIds(env, issuer, subjects, claimType)
         == done + [env.attestationId(issuer, subjects[0], claimType, env.now)] + BatchIds(env, issuer, subjects[1..], claimType)
  {
  }

  lemma LoopUnfold(b: Ledger, env: Env, issuer: Address, subjects: seq<Address>, claimType: ClaimType, expiration: Option<nat>)
    requires subjects != [] && BatchLoop(b, env, issuer, subjects, claimType, expiration).Ok?
    ensures
      var a := BatchRecord(env, issuer, subjects[0], claimType, expiration);
      BatchLoop(b, env, issuer, subjects, claimType, expiration)
      == BatchLoop(Append(StoreForSubject(b, a), a.id, CreatedBy(issuer, env.now)), env, issuer, subjects[1..], claimType, expiration)
  {
  }

  lemma {:induction false} LoopAhead(b: Ledger, s: Ledger, env: Env, issuer: Address, subjects: seq<Address>,
                                     claimType: ClaimType, expiration: Option<nat>, done: seq<Id>)
    requires Ahead(b, s, issuer, done) && b.attestations <= U64_MAX
    requires BatchLoop(b, env, issuer, subjects, claimType, expiration).Ok?
    ensures Ahead(BatchLoop(b, env, issuer, subjects, claimType, expiration).value,
                  StoreEach(s, env, issuer, subjects, claimType, expiration),
                  issuer, done + BatchIds(env, issuer, subjects, claimType))
    decreases |subjects|
  {
    if subjects == [] {
      assert done + BatchIds(env, issuer, subjects, claimType) == done;
    } else {
      var a := BatchRecord(env, issuer, subjects[0], claimType, expiration);
      var entry := CreatedBy(issuer, env.now);
      AheadStep(b, s, issuer, done, a, entry);
      LoopUnfold(b, env, issuer, subjects, claimType, expiration);
      IdsUnfold(env, issuer, subjects, claimType, done);
      LoopAhead(Append(StoreForSubject(b, a), a.id, entry), Append(Store(s, a), a.id, entry), env, issuer,
                subjects[1..], claimType, expiration, done + [a.id]);
    }
  }

  lemma FinishCatchesUp(b: Ledger, s: Ledger, env: Env, issuer: Address, ids: seq<Id>)
    requires Ahead(b, s, issuer, ids)
    ensures
      var finished, s1 := FinishBatch(b, env, issuer, ids), s.(lastIssued := s.lastIssued[issuer := env.now]);
      AlikeButIssued(finished, s1) && (Count(b.issued, issuer) + |ids| <= U64_MAX ==> ReadsAlike(finished, s1))
  {
    hide AlikeButIssued;
    FinishLists(b, s, env, issuer, ids);
  }

  lemma FinishList(b: map<Address, seq<Id>>, s: map<Address, seq<Id>>, issuer: Address, ids: seq<Id>)
    requires Extends(b, s, issuer, ids)
    ensures forall x :: Read(b[issuer := Read(b, issuer) + ids], x) == Read(s, x)
    ensures ids == [] ==> forall x :: Read(b, x) == Read(s, x)
  {
    assert forall x :: Read(b, x) + [] == Read(b, x);
  }

  lemma FinishLists(b: Ledger, s: Ledger, env: Env, issuer: Address, ids: seq<Id>)
    requires Ahead(b, s, issuer, ids)
    ensures AlikeButIssued(FinishBatch(b, env, issuer, ids), s.(lastIssued := s.lastIssued[issuer := env.now]))
  {
    hide Extends, Read;
    FinishList(b.byIssuer, s.byIssuer, issuer, ids);
    FinishList(b.issuerChunks, s.issuerChunks, issuer, ids);
  }

  lemma AheadOfItself(l: Ledger, issuer: Address)
    requires l.attestations <= U64_MAX
    ensures Ahead(l, l, issuer, [])
  {
    assert forall x :: Read(l.byIssuer, x) + [] == Read(l.byIssuer, x);
    assert forall x :: Read(l.issuerChunks, x) + [] == Read(l.issuerChunks, x);
  }

  /** One deferred write per structure reads like one write per subject, below the u64 bound. */
  lemma CreateBatchIsStoreEach(l: Ledger, env: Env, issuer: Address, subjects: seq<Address>, claimType: ClaimType,
                               expiration: Option<nat>)
    requires CreateBatch(l, env, issuer, subjects, claimType, expiration).Ok? && l.attestations <= U64_MAX
    ensures
      var batch := CreateBatch(l, env, issuer, subjects, claimType, expiration).value;
      var each := StoreEach(l, env, issuer, subjects, claimType, expiration);
      var each1 := each.(lastIssued := each.lastIssued[issuer := env.now]);
      AlikeButIssued(batch, each1) && (Count(l.issued, issuer) + |subjects| <= U64_MAX ==> ReadsAlike(batch, each1))
  {
    var ids := BatchIds(env, issuer, subjects, claimType);
    var b := BatchLoop(l, env, issuer, subjects, claimType, expiration).value;
    AheadOfItself(l, issuer);
    LoopAhead(l, l, env, issuer, subjects, claimType, expiration, []);
    assert [] + ids == ids;
    LoopKeepsIssuerSide(l, env, issuer, subjects, claimType, expiration);
    FinishCatchesUp(b, StoreEach(l, env, issuer, subjects, claimType, expiration), env, issuer, ids);
  }

  lemma {:induction false} LoopKeepsIssuerSide(l: Ledger, env: Env, issuer: Address, subjects: seq<Address>,
                                               claimType: ClaimType, expiration: Option<nat>)
    ensures var r := BatchLoop(l, env, issuer, subjects, claimType, expiration);
      r.Ok? ==> r.value.byIssuer == l.byIssuer && r.value.issuerChunks == l.issuerChunks
                && r.value.issued == l.issued && r.value.attestations == l.attestations
                && r.value.revocations == l.revocations && r.value.lastIssued == l.lastIssued
    decreases |subjects|
  {
    if subjects != [] {
      var a := BatchRecord(env, issuer, subjects[0], claimType, expiration);
      LoopKeepsIssuerSide(Append(StoreForSubject(l, a), a.id, CreatedBy(issuer, env.now)), env, issuer,
                          subjects[1..], claimType, expiration);
    }
  }

  /** When a batch goes through: the generated ids are unused and pairwise distinct, and every subject
      has room. All of it can be read off the state before the call. */
  ghost predicate BatchAdmissible(l: Ledger, env: Env, issuer: Address, subjects: seq<Address>, claimType: ClaimType) {
    var ids := BatchIds(env, issuer, subjects, claimType);
    && NoDup(ids)
    && (forall i :: 0 <= i < |ids| ==> ids[i] !in l.records)
    && (forall i :: 0 <= i < |subjects| ==> |Read(l.bySubject, subjects[i])| < env.limits.perSubject)
  }

  lemma {:induction false} LoopSucceedsIff(l: Ledger, env: Env, issuer: Address, subjects: seq<Address>,
                                           claimType: ClaimType, expiration: Option<nat>)
    ensures BatchLoop(l, env, issuer, subjects, claimType, expiration).Ok?
        <==> BatchAdmissible(l, env, issuer, subjects, claimType)
    decreases |subjects|
  {
    if subjects != [] {
      var ids, rest := BatchIds(env, issuer, subjects, claimType), BatchIds(env, issuer, subjects[1..], claimType);
      assert rest == ids[1..];
      var a := BatchRecord(env, issuer, subjects[0], claimType, expiration);
      var l1 := Append(StoreForSubject(l, a), a.id, CreatedBy(issuer, env.now));
      LoopSucceedsIff(l1, env, issuer, subjects[1..], claimType, expiration);
      if a.id !in l.records && |Read(l.bySubject, subjects[0])| < env.limits.perSubject {
        AdmissibleStep(l, l1, env, issuer, subjects, claimType);
      }
    }
  }

  lemma AdmissibleStep(l: Ledger, l1: Ledger, env: Env, issuer: Address, subjects: seq<Address>, claimType: ClaimType)
    requires subjects != []
    requires var id := env.attestationId(issuer, subjects[0], claimType, env.now);
      && id !in l.records && l1.records.Keys == l.records.Keys + {id}
      && l1.bySubject == Push(l.bySubject, subjects[0], id)
    requires |Read(l.bySubject, subjects[0])| < env.limits.perSubject
    ensures BatchAdmissible(l1, env, issuer, subjects[1..], claimType) <==> BatchAdmissible(l, env, issuer, subjects, claimType)
  {
    var ids, rest := BatchIds(env, issuer, subjects, claimType), BatchIds(env, issuer, subjects[1..], claimType);
    assert forall i :: 0 <= i < |rest| ==> rest[i] == ids[i + 1] && subjects[1..][i] == subjects[i + 1];
    if BatchAdmissible(l, env, issuer, subjects, claimType) {
      forall i | 0 <= i < |rest|
        ensures rest[i] !in l1.records
        ensures |Read(l1.bySubject, subjects[1..][i])| < env.limits.perSubject
      {
        assert ids[0] != ids[i + 1];
      }
    }
    if BatchAdmissible(l1, env, issuer, subjects[1..], claimType) {
      forall i, j | 0 <= i < j < |ids| ensures ids[i] != ids[j] {
        assert ids[j] == rest[j - 1];
        if i > 0 {
          assert ids[i] == rest[i - 1];
        }
      }
      forall i | 0 <= i < |ids|
        ensures ids[i] !in l.records
        ensures |Read(l.bySubject, subjects[i])| < env.limits.perSubject
      {
        if i > 0 {
          assert ids[i] == rest[i - 1] && subjects[i] == subjects[1..][i - 1];
          assert rest[i - 1] !in l1.records;
        }
      }
    }
  }

  /** `create_attestations_batch` is all or nothing, and this is when it is all. */
  lemma CreateBatchSucceedsIff(l: Ledger, env: Env, issuer: Address, subjects: seq<Address>, claimType: ClaimType,
                               expiration: Option<nat>)
    ensures CreateBatch(l, env, issuer, subjects, claimType, expiration).Ok? <==>
      && BatchGuard(l, env, issuer, subjects, claimType, expiration).None?
      && BatchAdmissible(l, env, issuer, subjects, claimType)
  {
    LoopSucceedsIff(l, env, issuer, subjects, claimType, expiration);
  }

  // ---------------------------------------------------------------- batch creation keeps the invariant

  lemma {:induction false} StoreEachKeeps(l: Ledger, env: Env, issuer: Address, subjects: seq<Address>,
                                          claimType: ClaimType, expiration: Option<nat>)
    requires Coherent(l) && BatchAdmissible(l, env, issuer, subjects, claimType)
    ensures Coherent(StoreEach(l, env, issuer, subjects, claimType, expiration))
    ensures Evolves(l, StoreEach(l, env, issuer, subjects, claimType, expiration))
    ensures |StoreEach(l, env, issuer, subjects, claimType, expiration).records| == |l.records| + |subjects|
    decreases |subjects|
  {
    if subjects != [] {
      var a := BatchRecord(env, issuer, subjects[0], claimType, expiration);
      var entry := CreatedBy(issuer, env.now);
      assert a.id == BatchIds(env, issuer, subjects, claimType)[0];
      var l1 := StoreLogged(l, a, entry);
      AdmissibleStep(l, l1, env, issuer, subjects, claimType);
      StoreEachKeeps(l1, env, issuer, subjects[1..], claimType, expiration);
      EvolvesTransitive(l, l1, StoreEach(l1, env, issuer, subjects[1..], claimType, expiration));
    }
  }

  lemma StoreLogged(l: Ledger, a: Attestation, entry: AuditEntry) returns (l1: Ledger)
    requires Coherent(l) && FreshRecord(a) && a.id !in l.records && entry.action.Created?
    ensures l1 == Append(Store(l, a), a.id, entry)
    ensures Coherent(l1) && Evolves(l, l1) && l1.records.Keys == l.records.Keys + {a.id}
    ensures |l1.records| == |l.records| + 1 && l1.bySubject == Push(l.bySubject, a.subject, a.id)
  {
    hide Coherent, Evolves;
    l1 := Append(Store(l, a), a.id, entry);
    StoreLoggedCoherent(l, a, entry);
    StoreLoggedEvolves(l, a, entry);
    StoreSize(l, a);
  }

  lemma StoreLoggedCoherent(l: Ledger, a: Attestation, entry: AuditEntry)
    requires Coherent(l) && FreshRecord(a) && a.id !in l.records && entry.action.Created?
    ensures Coherent(Append(Store(l, a), a.id, entry))
  {
    StoreCoherent(l, a);
    AppendCoherent(Store(l, a), a.id, entry);
  }

  lemma StoreLoggedEvolves(l: Ledger, a: Attestation, entry: AuditEntry)
    requires a.id !in l.records
    ensures Evolves(l, Append(Store(l, a), a.id, entry))
  {
    StoreEvolves(l, a);
    AppendEvolves(Store(l, a), a.id, entry);
    EvolvesTransitive(l, Store(l, a), Append(Store(l, a), a.id, entry));
  }

  lemma AlikeKeeps(a: Ledger, b: Ledger)
    requires AlikeButIssued(a, b) && Coherent(b)
    ensures Keyed(a) && OrderOk(a) && SubjectListsOk(a) && IssuerListsOk(a) && LogsOk(a)
    ensures AttestationsOk(a) && RevocationsOk(a)
    ensures (|a.records| <= U64_MAX ==> ReadsAlike(a, b)) ==> IssuedOk(a)
  {
    SameRecords(b, a);
  }

  lemma AlikeEvolves(l: Ledger, a: Ledger, b: Ledger)
    requires Evolves(l, b) && a.records == b.records && a.logs == b.logs && a.order == b.order
    ensures Evolves(l, a)
  {
  }

  /** Below the bound on records no issuer counter saturates. */
  lemma BatchBelowBound(l: Ledger, issuer: Address, n: nat)
    requires Coherent(l) && |l.records| + n <= U64_MAX
    ensures Count(l.issued, issuer) + n <= U64_MAX
  {
    OwnedBound(l, issuer);
  }

  lemma CreateBatchKeeps(l: Ledger, env: Env, issuer: Address, subjects: seq<Address>, claimType: ClaimType,
                         expiration: Option<nat>)
    requires Coherent(l) && CreateBatch(l, env, issuer, subjects, claimType, expiration).Ok?
    ensures var l1 := CreateBatch(l, env, issuer, subjects, claimType, expiration).value; Coherent(l1) && Evolves(l, l1)
  {
    hide CreateBatch, StoreEach, SubjectListsOk, IssuerListsOk, LogsOk, Keyed, OrderOk, IssuedOk, BatchAdmissible, Evolves;
    var batch := CreateBatch(l, env, issuer, subjects, claimType, expiration).value;
    var each := StoreEach(l, env, issuer, subjects, claimType, expiration);
    var each1 := each.(lastIssued := each.lastIssued[issuer := env.now]);
    CreateBatchSucceedsIff(l, env, issuer, subjects, claimType, expiration);
    StoreEachKeeps(l, env, issuer, subjects, claimType, expiration);
    CreateBatchIsStoreEach(l, env, issuer, subjects, claimType, expiration);
    LastIssuedCoherent(each, each1.lastIssued);
    if |batch.records| <= U64_MAX {
      BatchBelowBound(l, issuer, |subjects|);
    }
    AlikeKeeps(batch, each1);
    AlikeEvolves(l, batch, each);
  }

  // ---------------------------------------------------------------- batch revocation

  /** The reference: `revoke_attestation` once per id, in order, stopping at the first error. */
  function RevokeEach(l: Ledger, env: Env, issuer: Address, ids: seq<Id>, reason: Option<string>): Result<Ledger>
    decreases |ids|
  {
    if ids == [] then Ok(l)
    else
      match Revoke(l, env, issuer, ids[0], reason)
      case Err(e) => Err(e)
      case Ok(l1) => RevokeEach(l1, env, issuer, ids[1..], reason)
  }

  /** The ids are distinct and each could be revoked on its own. */
  ghost predicate AllRevocable(l: Ledger, issuer: Address, ids: seq<Id>) {
    NoDup(ids) && forall i :: 0 <= i < |ids| ==> OwnedAndLive(l, issuer, ids[i]).None?
  }

  function Snapshots(l: Ledger, ids: seq<Id>): seq<Attestation>
    requires forall i :: 0 <= i < |ids| ==> ids[i] in l.records
  {
    seq(|ids|, i requires 0 <= i < |ids| => l.records[ids[i]])
  }

  lemma {:induction false} GatherIff(l: Ledger, issuer: Address, ids: seq<Id>, seen: seq<Id>)
    ensures Gather(l, issuer, ids, seen).Ok? <==>
      AllRevocable(l, issuer, ids) && forall i :: 0 <= i < |ids| ==> ids[i] !in seen
    ensures Gather(l, issuer, ids, seen).Ok? ==>
      && (forall i :: 0 <= i < |ids| ==> ids[i] in l.records)
      && Gather(l, issuer, ids, seen).value == Snapshots(l, ids)
    decreases |ids|
  {
    if ids != [] {
      var rest := ids[1..];
      GatherIff(l, issuer, rest, seen + [ids[0]]);
      assert forall i :: 0 <= i < |rest| ==> rest[i] == ids[i + 1];
      assert forall i :: 0 < i < |ids| ==> ids[i] == rest[i - 1];
    }
  }

  /** Revoking one id disturbs no other id of the batch. */
  lemma RevocableStep(l: Ledger, l1: Ledger, issuer: Address, ids: seq<Id>)
    requires ids != [] && OwnedAndLive(l, issuer, ids[0]).None?
    requires l1.records.Keys == l.records.Keys && l1.records[ids[0]].revoked
    requires l1.records[ids[0]].issuer == l.records[ids[0]].issuer
    requires forall id :: id in l.records && id != ids[0] ==> l1.records[id] == l.records[id]
    ensures AllRevocable(l1, issuer, ids[1..]) <==> AllRevocable(l, issuer, ids)
  {
    var rest := ids[1..];
    assert forall i :: 0 <= i < |rest| ==> rest[i] == ids[i + 1];
    if AllRevocable(l1, issuer, rest) {
      forall i, j | 0 <= i < j < |ids| ensures ids[i] != ids[j] {
        assert OwnedAndLive(l1, issuer, rest[j - 1]).None?;
        if i > 0 {
          assert rest[i - 1] != rest[j - 1];
        }
      }
      forall i | 0 < i < |ids| ensures OwnedAndLive(l, issuer, ids[i]).None? {
        assert OwnedAndLive(l1, issuer, rest[i - 1]).None?;
      }
    }
    if AllRevocable(l, issuer, ids) {
      forall i | 0 <= i < |rest| ensures OwnedAndLive(l1, issuer, rest[i]).None? {
        assert ids[0] != ids[i + 1];
      }
    }
  }

  lemma RevokeOneRecords(l: Ledger, env: Env, issuer: Address, id: Id, reason: Option<string>)
    requires Keyed(l) && id in l.records
    ensures var a := l.records[id];
      && RevokeOne(l, env, issuer, id, reason).records == RevokeSnapshot(l, env, issuer, a, reason).records
      && RevokeOne(l, env, issuer, id, reason).records == l.records[id := a.(revoked := true, revocationReason := reason)]
      && RevokeOne(l, env, issuer, id, reason).records.Keys == l.records.Keys
      && Keyed(RevokeOne(l, env, issuer, id, reason))
  {
  }

  lemma {:induction false} RevokeEachIff(l: Ledger, env: Env, issuer: Address, ids: seq<Id>, reason: Option<string>)
    requires Keyed(l) && RevokeGuard(env, issuer, reason).None?
    ensures RevokeEach(l, env, issuer, ids, reason).Ok? <==> AllRevocable(l, issuer, ids)
    decreases |ids|
  {
    if ids != [] && OwnedAndLive(l, issuer, ids[0]).None? {
      var l1 := RevokeOne(l, env, issuer, ids[0], reason);
      RevokeOneRecords(l, env, issuer, ids[0], reason);
      RevokeEachIff(l1, env, issuer, ids[1..], reason);
      RevocableStep(l, l1, issuer, ids);
    }
  }

  /** The parts of the ledger that single and batch revocation treat alike. */
  ghost predicate SameCore(a: Ledger, b: Ledger) {
    a.records == b.records && a.bySubject == b.bySubject && a.byIssuer == b.byIssuer && a.logs == b.logs
  }

  lemma SameCoreStep(b: Ledger, s: Ledger, env: Env, issuer: Address, id: Id, reason: Option<string>)
    requires SameCore(b, s) && Keyed(s) && id in s.records
    ensures SameCore(RevokeSnapshot(b, env, issuer, s.records[id], reason), RevokeOne(s, env, issuer, id, reason))
    ensures RevokeSnapshot(b, env, issuer, s.records[id], reason).revocations == b.revocations
    ensures RevokeOne(s, env, issuer, id, reason).revocations == SaturatingAdd(s.revocations, 1)
  {
  }

  /** The snapshots of the first loop are still current when the second loop uses them. */
  lemma {:induction false} SnapshotsTrackSingles(b: Ledger, s: Ledger, env: Env, issuer: Address, ids: seq<Id>, reason: Option<string>)
    requires SameCore(b, s) && Keyed(s) && RevokeGuard(env, issuer, reason).None? && AllRevocable(s, issuer, ids)
    ensures RevokeEach(s, env, issuer, ids, reason).Ok?
    ensures
      var batch := RevokeSnapshots(b, env, issuer, Snapshots(s, ids), reason);
      var each := RevokeEach(s, env, issuer, ids, reason).value;
      && SameCore(batch, each) && batch.revocations == b.revocations
      && each.revocations == if ids == [] then s.revocations else SaturatingAdd(s.revocations, |ids|)
    decreases |ids|
  {
    hide SameCore, RevokeOne, RevokeSnapshot;
    RevokeEachIff(s, env, issuer, ids, reason);
    if ids != [] {
      var a, rest := s.records[ids[0]], ids[1..];
      var b1, s1 := RevokeSnapshot(b, env, issuer, a, reason), RevokeOne(s, env, issuer, ids[0], reason);
      SameCoreStep(b, s, env, issuer, ids[0], reason);
      RevokeOneRecords(s, env, issuer, ids[0], reason);
      RevocableStep(s, s1, issuer, ids);
      assert Snapshots(s, ids)[0] == a;
      assert Snapshots(s, ids)[1..] == Snapshots(s1, rest);
      SnapshotsTrackSingles(b1, s1, env, issuer, rest, reason);
    }
  }

  /** A batch revocation succeeds exactly when revoking one by one would, and then leaves the same
      records, flat lists, logs and revocation count. */
  lemma RevokeBatchIsRevokeEach(l: Ledger, env: Env, issuer: Address, ids: seq<Id>, reason: Option<string>)
    requires Keyed(l) && 0 < |ids| <= 50
    ensures RevokeBatch(l, env, issuer, ids, reason).Ok? <==> RevokeEach(l, env, issuer, ids, reason).Ok?
    ensures RevokeBatch(l, env, issuer, ids, reason).Ok? ==>
      var batch, each := RevokeBatch(l, env, issuer, ids, reason).value, RevokeEach(l, env, issuer, ids, reason).value;
      SameCore(batch, each) && batch.revocations == each.revocations
  {
    if RevokeGuard(env, issuer, reason).None? {
      GatherIff(l, issuer, ids, []);
      RevokeEachIff(l, env, issuer, ids, reason);
      if AllRevocable(l, issuer, ids) {
        SnapshotsTrackSingles(l, l, env, issuer, ids, reason);
      }
    }
  }

  lemma SnapshotStep(l: Ledger, env: Env, issuer: Address, ids: seq<Id>, reason: Option<string>) returns (l1: Ledger)
    requires Keyed(l) && ids != [] && AllRevocable(l, issuer, ids)
    ensures l1 == RevokeSnapshot(l, env, issuer, l.records[ids[0]], reason)
    ensures Keyed(l1) && AllRevocable(l1, issuer, ids[1..])
    ensures RevokeSnapshots(l, env, issuer, Snapshots(l, ids), reason)
         == RevokeSnapshots(l1, env, issuer, Snapshots(l1, ids[1..]), reason)
  {
    l1 := RevokeSnapshot(l, env, issuer, l.records[ids[0]], reason);
    RevokeOneRecords(l, env, issuer, ids[0], reason);
    RevocableStep(l, l1, issuer, ids);
    assert Snapshots(l, ids)[0] == l.records[ids[0]];
    assert Snapshots(l, ids)[1..] == Snapshots(l1, ids[1..]);
  }

  lemma {:induction false} RevokeSnapshotsEvolve(l: Ledger, env: Env, issuer: Address, ids: seq<Id>, reason: Option<string>)
    requires Keyed(l) && AllRevocable(l, issuer, ids)
    ensures Evolves(l, RevokeSnapshots(l, env, issuer, Snapshots(l, ids), reason))
    decreases |ids|
  {
    if ids != [] {
      var l1 := SnapshotStep(l, env, issuer, ids, reason);
      RevokeSnapshotEvolves(l, env, issuer, l.records[ids[0]], reason);
      RevokeSnapshotsEvolve(l1, env, issuer, ids[1..], reason);
      EvolvesTransitive(l, l1, RevokeSnapshots(l1, env, issuer, Snapshots(l1, ids[1..]), reason));
    }
  }

  lemma {:induction false} RevokeSnapshotsKeep(l: Ledger, env: Env, issuer: Address, ids: seq<Id>, reason: Option<string>)
    requires CoherentButRevocations(l) && AllRevocable(l, issuer, ids)
    ensures
      var l1 := RevokeSnapshots(l, env, issuer, Snapshots(l, ids), reason);
      && CoherentButRevocations(l1) && |RevokedIds(l1)| == |RevokedIds(l)| + |ids|
      && l1.revocations == l.revocations
    decreases |ids|
  {
    if ids != [] {
      var l1 := SnapshotStep(l, env, issuer, ids, reason);
      RevokeSnapshotCoherent(l, env, issuer, ids[0], reason);
      RevokeSnapshotsKeep(l1, env, issuer, ids[1..], reason);
    }
  }

  lemma CountedCoherent(l: Ledger, revocations: nat)
    requires CoherentButRevocations(l) && revocations == Min(|RevokedIds(l)|, U64_MAX)
    ensures Coherent(l.(revocations := revocations))
  {
    SameRecords(l, l.(revocations := revocations));
  }

  lemma RevokeBatchKeeps(l: Ledger, env: Env, issuer: Address, ids: seq<Id>, reason: Option<string>)
    requires Coherent(l) && RevokeBatch(l, env, issuer, ids, reason).Ok?
    ensures var l1 := RevokeBatch(l, env, issuer, ids, reason).value; Coherent(l1) && Evolves(l, l1)
  {
    hide SubjectListsOk, IssuerListsOk, LogsOk, Keyed, OrderOk, IssuedOk, Evolves, RevokeSnapshots, Gather, RevokedIds;
    GatherIff(l, issuer, ids, []);
    RevokeSnapshotsKeep(l, env, issuer, ids, reason);
    RevokeSnapshotsEvolve(l, env, issuer, ids, reason);
    var l0, l1 := RevokeSnapshots(l, env, issuer, Snapshots(l, ids), reason), RevokeBatch(l, env, issuer, ids, reason).value;
    CountedCoherent(l0, l1.revocations);
    AlikeEvolves(l, l1, l0);
  }
}
