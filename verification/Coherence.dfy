/** The relation every index, counter and log keeps with the records, and the primitive writes
    that preserve it. */
module Coherence {
  import opened Types
  import opened Sequences
  import opened Ledger
  import Decimal

  // ---------------------------------------------------------------- the relation

  /** The unrevoked, undeleted records of a subject. */
  ghost function Live(l: Ledger, subject: Address): set<Id> {
    set id | id in l.records && l.records[id].subject == subject && !l.records[id].revoked && !l.records[id].deleted
  }

  /** What the "valid" list holds: the live records and the undeleted ones revoked in a batch. */
  ghost function Indexed(l: Ledger, subject: Address): set<Id> {
    set id | id in l.records && l.records[id].subject == subject && !l.records[id].deleted
             && (l.records[id].revoked ==> id in l.stale)
  }

  ghost function RevokedIds(l: Ledger): set<Id> { set id | id in l.records && l.records[id].revoked }

  ghost function Owned(l: Ledger, issuer: Address): set<Id> {
    set id | id in l.records && l.records[id].issuer == issuer
  }

  ghost predicate Keyed(l: Ledger) {
    forall id :: id in l.records ==> l.records[id].id == id
  }

  ghost predicate OrderOk(l: Ledger) {
    && NoDup(l.order)
    && (forall id :: id in l.order <==> id in l.records)
    && l.stale <= RevokedIds(l)
  }

  /** The flat list, the valid list and the chunked list of each subject, as sequences. */
  ghost predicate SubjectListsOk(l: Ledger) {
    forall subject ::
      && Read(l.bySubject, subject) == Restrict(l.order, Live(l, subject))
      && Read(l.valid, subject) == Restrict(l.order, Indexed(l, subject))
      && Read(l.subjectChunks, subject) == Read(l.valid, subject)
  }

  /** Flat issuer lists: each id at most once, only under its current issuer, unrevoked ones always. */
  ghost predicate IssuerListsOk(l: Ledger) {
    forall issuer ::
      && NoDup(Read(l.byIssuer, issuer))
      && (forall id :: id in Read(l.byIssuer, issuer) ==> id in Owned(l, issuer))
      && (forall id :: id in Owned(l, issuer) && !l.records[id].revoked ==> id in Read(l.byIssuer, issuer))
  }

  /** A log has exactly one `Revoked` entry if the record is revoked, followed only by transfers and
      deletions, and none otherwise. */
  ghost predicate WellLogged(log: seq<AuditEntry>, revoked: bool) {
    if revoked then
      exists k :: 0 <= k < |log| && log[k].action.Revoked?
        && (forall j :: 0 <= j < k ==> !log[j].action.Revoked?)
        && (forall j :: k < j < |log| ==> log[j].action.Transferred? || log[j].action.Deleted?)
    else
      forall j :: 0 <= j < |log| ==> !log[j].action.Revoked?
  }

  ghost predicate LogsOk(l: Ledger) {
    forall id ::
      && WellLogged(LogOf(l.logs, id), id in RevokedIds(l))
      && (id !in l.records ==> LogOf(l.logs, id) == [])
  }

  ghost predicate IssuedOk(l: Ledger) {
    |l.records| <= U64_MAX ==> forall issuer :: Count(l.issued, issuer) == |Owned(l, issuer)|
  }

  ghost predicate AttestationsOk(l: Ledger) { l.attestations == Min(|l.records|, U64_MAX) }

  ghost predicate RevocationsOk(l: Ledger) { l.revocations == Min(|RevokedIds(l)|, U64_MAX) }

  ghost predicate Coherent(l: Ledger) {
    && Keyed(l) && OrderOk(l) && SubjectListsOk(l) && IssuerListsOk(l) && LogsOk(l)
    && IssuedOk(l) && AttestationsOk(l) && RevocationsOk(l)
  }

  lemma EmptyCoherent()
    ensures Coherent(EMPTY)
  {
    assert RevokedIds(EMPTY) == {};
    forall issuer ensures |Owned(EMPTY, issuer)| == 0 {
      assert Owned(EMPTY, issuer) == {};
    }
  }

  // ---------------------------------------------------------------- storing a record

  predicate FreshRecord(a: Attestation) { !a.revoked && !a.deleted }

  lemma KeepNew(order: seq<Id>, keep: set<Id>, id: Id)
    requires id !in order
    ensures Restrict(order + [id], keep + {id}) == Restrict(order, keep) + [id]
    ensures id !in keep ==> Restrict(order + [id], keep) == Restrict(order, keep)
  {
    RestrictAppend(order, [id], keep + {id});
    RestrictAppend(order, [id], keep);
    RestrictSame(order, keep, keep + {id});
  }

  lemma StoreSubjectLists(l: Ledger, a: Attestation)
    requires OrderOk(l) && SubjectListsOk(l) && FreshRecord(a) && a.id !in l.records
    ensures SubjectListsOk(Store(l, a))
  {
    hide Live, Indexed, Restrict, NoDup;
    var l1 := Store(l, a);
    forall subject
      ensures Read(l1.bySubject, subject) == Restrict(l1.order, Live(l1, subject))
      ensures Read(l1.valid, subject) == Restrict(l1.order, Indexed(l1, subject))
      ensures Read(l1.subjectChunks, subject) == Read(l1.valid, subject)
    {
      StoreSets(l, a, subject);
      KeepNew(l.order, Live(l, subject), a.id);
      KeepNew(l.order, Indexed(l, subject), a.id);
    }
  }

  lemma StoreSets(l: Ledger, a: Attestation, subject: Address)
    requires FreshRecord(a) && a.id !in l.records
    ensures Live(Store(l, a), subject) == if subject == a.subject then Live(l, subject) + {a.id} else Live(l, subject)
    ensures Indexed(Store(l, a), subject) == if subject == a.subject then Indexed(l, subject) + {a.id} else Indexed(l, subject)
    ensures a.id !in Live(l, subject) && a.id !in Indexed(l, subject)
  {
  }

  lemma StoreOwned(l: Ledger, a: Attestation, issuer: Address)
    requires a.id !in l.records
    ensures Owned(Store(l, a), issuer) == if issuer == a.issuer then Owned(l, issuer) + {a.id} else Owned(l, issuer)
    ensures a.id !in Owned(l, issuer)
  {
  }

  lemma StoreIssuerLists(l: Ledger, a: Attestation)
    requires IssuerListsOk(l) && a.id !in l.records
    ensures IssuerListsOk(Store(l, a))
  {
    var l1 := Store(l, a);
    forall issuer
      ensures NoDup(Read(l1.byIssuer, issuer))
      ensures forall id :: id in Read(l1.byIssuer, issuer) ==> id in Owned(l1, issuer)
      ensures forall id :: id in Owned(l1, issuer) && !l1.records[id].revoked ==> id in Read(l1.byIssuer, issuer)
    {
      StoreOwned(l, a, issuer);
      assert forall id :: id in Read(l.byIssuer, issuer) ==> id in Owned(l, issuer);
    }
  }

  lemma StoreIssued(l: Ledger, a: Attestation)
    requires IssuedOk(l) && a.id !in l.records
    ensures IssuedOk(Store(l, a))
  {
    assert Store(l, a).records.Keys == l.records.Keys + {a.id};
    forall issuer { StoreOwned(l, a, issuer); }
  }

  lemma StoreRevoked(l: Ledger, a: Attestation)
    requires FreshRecord(a) && a.id !in l.records
    ensures RevokedIds(Store(l, a)) == RevokedIds(l)
  {
  }

  lemma StoreSize(l: Ledger, a: Attestation)
    requires a.id !in l.records
    ensures Store(l, a).records.Keys == l.records.Keys + {a.id} && |Store(l, a).records| == |l.records| + 1
  {
  }

  lemma StoreOrder(l: Ledger, a: Attestation)
    requires Keyed(l) && OrderOk(l) && FreshRecord(a) && a.id !in l.records
    ensures Keyed(Store(l, a)) && OrderOk(Store(l, a))
  {
    StoreRevoked(l, a);
  }

  lemma StoreLogs(l: Ledger, a: Attestation)
    requires LogsOk(l) && FreshRecord(a) && a.id !in l.records
    ensures LogsOk(Store(l, a))
  {
    StoreRevoked(l, a);
    StoreSize(l, a);
    forall id
      ensures WellLogged(LogOf(l.logs, id), id in RevokedIds(l)) && (id !in l.records ==> LogOf(l.logs, id) == [])
    {
    }
  }

  lemma StoreCoherent(l: Ledger, a: Attestation)
    requires Coherent(l) && FreshRecord(a) && a.id !in l.records
    ensures Coherent(Store(l, a))
  {
    hide OrderOk, SubjectListsOk, IssuerListsOk, LogsOk, IssuedOk, Keyed, RevokedIds;
    StoreOrder(l, a);
    StoreSubjectLists(l, a);
    StoreIssuerLists(l, a);
    StoreIssued(l, a);
    StoreLogs(l, a);
    StoreRevoked(l, a);
    StoreSize(l, a);
  }

  /** An id stored again has two places in the order of creation. */
  lemma StoreAgain(l: Ledger, a: Attestation)
    requires OrderOk(l) && a.id in l.records
    ensures !OrderOk(Store(l, a))
  {
    var n := |l.order|;
    var i :| 0 <= i < n && l.order[i] == a.id;
    var order := Store(l, a).order;
    assert order[i] == order[n];
  }

  /** The freshness check is exactly what storing needs. */
  lemma StoreCoherentIff(l: Ledger, a: Attestation)
    requires Coherent(l) && FreshRecord(a)
    ensures Coherent(Store(l, a)) <==> a.id !in l.records
  {
    hide OrderOk, SubjectListsOk, IssuerListsOk, LogsOk, IssuedOk, Keyed, RevokedIds;
    if a.id !in l.records {
      StoreCoherent(l, a);
    } else {
      StoreAgain(l, a);
    }
  }

  // ---------------------------------------------------------------- appending to a log

  predicate Appendable(l: Ledger, id: Id, entry: AuditEntry) {
    && id in l.records && !entry.action.Revoked?
    && (l.records[id].revoked ==> entry.action.Transferred? || entry.action.Deleted?)
  }

  lemma WellLoggedAppend(log: seq<AuditEntry>, revoked: bool, entry: AuditEntry)
    requires WellLogged(log, revoked) && !entry.action.Revoked?
    requires revoked ==> entry.action.Transferred? || entry.action.Deleted?
    ensures WellLogged(log + [entry], revoked)
  {
    if revoked {
      var k :| 0 <= k < |log| && log[k].action.Revoked?
        && (forall j :: 0 <= j < k ==> !log[j].action.Revoked?)
        && (forall j :: k < j < |log| ==> log[j].action.Transferred? || log[j].action.Deleted?);
      assert (log + [entry])[k].action.Revoked?;
    }
  }

  lemma WellLoggedRevoke(log: seq<AuditEntry>, entry: AuditEntry)
    requires WellLogged(log, false) && entry.action.Revoked?
    ensures WellLogged(log + [entry], true)
  {
    assert (log + [entry])[|log|].action.Revoked?;
  }

  lemma AppendCoherent(l: Ledger, id: Id, entry: AuditEntry)
    requires Coherent(l) && Appendable(l, id, entry)
    ensures Coherent(Append(l, id, entry))
  {
    var l1 := Append(l, id, entry);
    SameRecords(l, l1);
    WellLoggedAppend(LogOf(l.logs, id), id in RevokedIds(l), entry);
  }

  /** The derived sets depend on the records and the batch history alone. */
  lemma SameRecords(l: Ledger, l1: Ledger)
    requires l1.records == l.records && l1.stale == l.stale
    ensures RevokedIds(l1) == RevokedIds(l)
    ensures forall x :: Live(l1, x) == Live(l, x) && Indexed(l1, x) == Indexed(l, x) && Owned(l1, x) == Owned(l, x)
  {
  }

  /** Recording an issuance time touches nothing else. */
  lemma LastIssuedCoherent(l: Ledger, last: map<Address, nat>)
    requires Coherent(l)
    ensures Coherent(l.(lastIssued := last))
  {
    SameRecords(l, l.(lastIssued := last));
  }

  // ---------------------------------------------------------------- revocation and deletion

  /** Dropping one id from its subject's lists; a batch revocation keeps the valid lists as they are. */
  lemma DropSubjectLists(l: Ledger, l1: Ledger, subject: Address, id: Id, fromValid: bool)
    requires SubjectListsOk(l) && l1.order == l.order && l1.bySubject == Drop(l.bySubject, subject, id)
    requires fromValid ==> l1.valid == Drop(l.valid, subject, id) && l1.subjectChunks == Drop(l.subjectChunks, subject, id)
    requires !fromValid ==> l1.valid == l.valid && l1.subjectChunks == l.subjectChunks
    requires forall x :: Live(l1, x) == Live(l, x) - {id}
    requires forall x :: Indexed(l1, x) == if fromValid then Indexed(l, x) - {id} else Indexed(l, x)
    requires forall x :: x != subject ==> id !in Live(l, x) && id !in Indexed(l, x)
    ensures SubjectListsOk(l1)
  {
    forall x
      ensures Read(l1.bySubject, x) == Restrict(l1.order, Live(l1, x))
      ensures Read(l1.valid, x) == Restrict(l1.order, Indexed(l1, x))
      ensures Read(l1.subjectChunks, x) == Read(l1.valid, x)
    {
      WithoutRestrict(l.order, Live(l, x), id);
      WithoutRestrict(l.order, Indexed(l, x), id);
      if x != subject {
        assert Live(l, x) - {id} == Live(l, x) && Indexed(l, x) - {id} == Indexed(l, x);
      }
    }
  }

  lemma DropIssuerLists(l: Ledger, l1: Ledger, issuer: Address, id: Id)
    requires IssuerListsOk(l) && l1.byIssuer == Drop(l.byIssuer, issuer, id)
    requires id in Owned(l, issuer)
    requires forall x :: Owned(l1, x) == Owned(l, x)
    requires RevokedIds(l1) == RevokedIds(l) + {id}
    ensures IssuerListsOk(l1)
  {
    forall x
      ensures NoDup(Read(l1.byIssuer, x))
      ensures forall y :: y in Read(l1.byIssuer, x) ==> y in Owned(l1, x)
      ensures forall y :: y in Owned(l1, x) && !l1.records[y].revoked ==> y in Read(l1.byIssuer, x)
    {
      WithoutMembers(Read(l.byIssuer, x), id);
      WithoutNoDup(Read(l.byIssuer, x), id);
      forall y | y in Owned(l1, x) && !l1.records[y].revoked
        ensures y in Owned(l, x) && !l.records[y].revoked && y != id
      {
        assert y !in RevokedIds(l1);
      }
    }
  }

  lemma RevokeLogs(l: Ledger, l1: Ledger, id: Id, entry: AuditEntry)
    requires LogsOk(l) && id in l.records && !l.records[id].revoked && entry.action.Revoked?
    requires l1.records.Keys == l.records.Keys && RevokedIds(l1) == RevokedIds(l) + {id}
    requires l1.logs == l.logs[id := LogOf(l.logs, id) + [entry]]
    ensures LogsOk(l1)
  {
    WellLoggedRevoke(LogOf(l.logs, id), entry);
    forall x
      ensures WellLogged(LogOf(l1.logs, x), x in RevokedIds(l1))
      ensures x !in l1.records ==> LogOf(l1.logs, x) == []
    {
      assert WellLogged(LogOf(l.logs, x), x in RevokedIds(l));
      assert x !in l.records ==> LogOf(l.logs, x) == [];
    }
  }

  lemma RevokeOneSets(l: Ledger, env: Env, issuer: Address, id: Id, reason: Option<string>)
    requires Keyed(l) && l.stale <= RevokedIds(l) && id in l.records && !l.records[id].revoked
    ensures var l1 := RevokeOne(l, env, issuer, id, reason);
      && RevokedIds(l1) == RevokedIds(l) + {id}
      && (forall x :: Live(l1, x) == Live(l, x) - {id} && Indexed(l1, x) == Indexed(l, x) - {id} && Owned(l1, x) == Owned(l, x))
  {
    assert id !in l.stale;
  }

  lemma RevokeSnapshotSets(l: Ledger, env: Env, issuer: Address, id: Id, reason: Option<string>)
    requires Keyed(l) && id in l.records && !l.records[id].revoked
    ensures var l1 := RevokeSnapshot(l, env, issuer, l.records[id], reason);
      && RevokedIds(l1) == RevokedIds(l) + {id}
      && (forall x :: Live(l1, x) == Live(l, x) - {id} && Indexed(l1, x) == Indexed(l, x) && Owned(l1, x) == Owned(l, x))
  {
  }

  lemma RevokeOneLists(l: Ledger, env: Env, issuer: Address, id: Id, reason: Option<string>)
    requires Keyed(l) && OrderOk(l) && SubjectListsOk(l) && OwnedAndLive(l, issuer, id).None?
    ensures SubjectListsOk(RevokeOne(l, env, issuer, id, reason))
  {
    RevokeOneSets(l, env, issuer, id, reason);
    DropSubjectLists(l, RevokeOne(l, env, issuer, id, reason), l.records[id].subject, id, true);
  }

  lemma RevokeOneIssuer(l: Ledger, env: Env, issuer: Address, id: Id, reason: Option<string>)
    requires Keyed(l) && OrderOk(l) && IssuerListsOk(l) && OwnedAndLive(l, issuer, id).None?
    ensures IssuerListsOk(RevokeOne(l, env, issuer, id, reason))
  {
    RevokeOneSets(l, env, issuer, id, reason);
    DropIssuerLists(l, RevokeOne(l, env, issuer, id, reason), issuer, id);
  }

  lemma RevokeOneLogs(l: Ledger, env: Env, issuer: Address, id: Id, reason: Option<string>)
    requires Keyed(l) && OrderOk(l) && LogsOk(l) && OwnedAndLive(l, issuer, id).None?
    ensures LogsOk(RevokeOne(l, env, issuer, id, reason))
  {
    var l1 := RevokeOne(l, env, issuer, id, reason);
    assert l1.records.Keys == l.records.Keys;
    RevokeOneSets(l, env, issuer, id, reason);
    RevokeLogs(l, l1, id, RevokedEntry(env, issuer, reason));
  }

  lemma RevokeOneCounts(l: Ledger, env: Env, issuer: Address, id: Id, reason: Option<string>)
    requires Keyed(l) && OrderOk(l) && IssuedOk(l) && AttestationsOk(l) && RevocationsOk(l)
    requires OwnedAndLive(l, issuer, id).None?
    ensures var l1 := RevokeOne(l, env, issuer, id, reason);
      Keyed(l1) && OrderOk(l1) && IssuedOk(l1) && AttestationsOk(l1) && RevocationsOk(l1)
  {
    var l1 := RevokeOne(l, env, issuer, id, reason);
    assert l1.records.Keys == l.records.Keys;
    RevokeOneSets(l, env, issuer, id, reason);
  }

  lemma RevokeOneCoherent(l: Ledger, env: Env, issuer: Address, id: Id, reason: Option<string>)
    requires Coherent(l) && OwnedAndLive(l, issuer, id).None?
    ensures Coherent(RevokeOne(l, env, issuer, id, reason))
  {
    hide OrderOk, SubjectListsOk, IssuerListsOk, LogsOk, IssuedOk, Keyed, RevokeOne, AttestationsOk, RevocationsOk;
    RevokeOneLists(l, env, issuer, id, reason);
    RevokeOneIssuer(l, env, issuer, id, reason);
    RevokeOneLogs(l, env, issuer, id, reason);
    RevokeOneCounts(l, env, issuer, id, reason);
  }

  /** Everything but the deferred revocation counter. */
  ghost predicate CoherentButRevocations(l: Ledger) {
    && Keyed(l) && OrderOk(l) && SubjectListsOk(l) && IssuerListsOk(l) && LogsOk(l)
    && IssuedOk(l) && AttestationsOk(l)
  }

  lemma RevokeSnapshotLists(l: Ledger, env: Env, issuer: Address, id: Id, reason: Option<string>)
    requires Keyed(l) && SubjectListsOk(l) && OwnedAndLive(l, issuer, id).None?
    ensures SubjectListsOk(RevokeSnapshot(l, env, issuer, l.records[id], reason))
  {
    RevokeSnapshotSets(l, env, issuer, id, reason);
    DropSubjectLists(l, RevokeSnapshot(l, env, issuer, l.records[id], reason), l.records[id].subject, id, false);
  }

  lemma RevokeSnapshotIssuer(l: Ledger, env: Env, issuer: Address, id: Id, reason: Option<string>)
    requires Keyed(l) && IssuerListsOk(l) && OwnedAndLive(l, issuer, id).None?
    ensures IssuerListsOk(RevokeSnapshot(l, env, issuer, l.records[id], reason))
  {
    RevokeSnapshotSets(l, env, issuer, id, reason);
    DropIssuerLists(l, RevokeSnapshot(l, env, issuer, l.records[id], reason), issuer, id);
  }

  lemma RevokeSnapshotLogs(l: Ledger, env: Env, issuer: Address, id: Id, reason: Option<string>)
    requires Keyed(l) && LogsOk(l) && OwnedAndLive(l, issuer, id).None?
    ensures LogsOk(RevokeSnapshot(l, env, issuer, l.records[id], reason))
  {
    var l1 := RevokeSnapshot(l, env, issuer, l.records[id], reason);
    assert l1.records.Keys == l.records.Keys;
    RevokeSnapshotSets(l, env, issuer, id, reason);
    RevokeLogs(l, l1, id, RevokedEntry(env, issuer, reason));
  }

  lemma RevokeSnapshotCounts(l: Ledger, env: Env, issuer: Address, id: Id, reason: Option<string>)
    requires Keyed(l) && OrderOk(l) && IssuedOk(l) && AttestationsOk(l) && OwnedAndLive(l, issuer, id).None?
    ensures var l1 := RevokeSnapshot(l, env, issuer, l.records[id], reason);
      && Keyed(l1) && OrderOk(l1) && IssuedOk(l1) && AttestationsOk(l1)
      && |RevokedIds(l1)| == |RevokedIds(l)| + 1
  {
    var l1 := RevokeSnapshot(l, env, issuer, l.records[id], reason);
    assert l1.records.Keys == l.records.Keys;
    RevokeSnapshotSets(l, env, issuer, id, reason);
  }

  lemma RevokeSnapshotCoherent(l: Ledger, env: Env, issuer: Address, id: Id, reason: Option<string>)
    requires CoherentButRevocations(l) && OwnedAndLive(l, issuer, id).None?
    ensures CoherentButRevocations(RevokeSnapshot(l, env, issuer, l.records[id], reason))
    ensures |RevokedIds(RevokeSnapshot(l, env, issuer, l.records[id], reason))| == |RevokedIds(l)| + 1
  {
    hide OrderOk, SubjectListsOk, IssuerListsOk, LogsOk, IssuedOk, Keyed, RevokeSnapshot, AttestationsOk, RevokedIds;
    RevokeSnapshotLists(l, env, issuer, id, reason);
    RevokeSnapshotIssuer(l, env, issuer, id, reason);
    RevokeSnapshotLogs(l, env, issuer, id, reason);
    RevokeSnapshotCounts(l, env, issuer, id, reason);
  }

  lemma EraseLists(l: Ledger, env: Env, id: Id)
    requires Keyed(l)
    requires SubjectListsOk(l) && id in l.records
    ensures SubjectListsOk(Erase(l, env, id))
  {
    EraseSets(l, env, id);
    DropSubjectLists(l, Erase(l, env, id), l.records[id].subject, id, true);
  }

  /** A write that leaves every record's issuer and revocation flag alone keeps the issuer side. */
  lemma IssuerSideKept(l: Ledger, l1: Ledger)
    requires OrderOk(l) && IssuerListsOk(l) && IssuedOk(l) && AttestationsOk(l) && RevocationsOk(l)
    requires l1.records.Keys == l.records.Keys && RevokedIds(l1) == RevokedIds(l)
    requires forall x :: Owned(l1, x) == Owned(l, x)
    requires l1 == l.(records := l1.records, logs := l1.logs, bySubject := l1.bySubject, valid := l1.valid,
                      subjectChunks := l1.subjectChunks)
    ensures OrderOk(l1) && IssuerListsOk(l1) && IssuedOk(l1) && AttestationsOk(l1) && RevocationsOk(l1)
  {
    forall x, y | y in Owned(l1, x) && !l1.records[y].revoked ensures y in Read(l1.byIssuer, x) {
      assert y !in RevokedIds(l1);
    }
  }

  lemma LogsAppended(l: Ledger, l1: Ledger, id: Id, entry: AuditEntry)
    requires LogsOk(l) && Appendable(l, id, entry)
    requires l1.records.Keys == l.records.Keys && RevokedIds(l1) == RevokedIds(l)
    requires l1.logs == l.logs[id := LogOf(l.logs, id) + [entry]]
    ensures LogsOk(l1)
  {
    WellLoggedAppend(LogOf(l.logs, id), id in RevokedIds(l), entry);
    forall x
      ensures WellLogged(LogOf(l1.logs, x), x in RevokedIds(l1))
      ensures x !in l1.records ==> LogOf(l1.logs, x) == []
    {
      assert WellLogged(LogOf(l.logs, x), x in RevokedIds(l));
      assert x !in l.records ==> LogOf(l.logs, x) == [];
    }
  }

  lemma EraseRest(l: Ledger, env: Env, id: Id)
    requires Coherent(l) && id in l.records
    ensures var l1 := Erase(l, env, id);
      && Keyed(l1) && OrderOk(l1) && IssuerListsOk(l1) && LogsOk(l1)
      && IssuedOk(l1) && AttestationsOk(l1) && RevocationsOk(l1)
  {
    hide SubjectListsOk, IssuerListsOk, IssuedOk, LogsOk;
    var l1 := Erase(l, env, id);
    assert l1.records.Keys == l.records.Keys;
    EraseSets(l, env, id);
    IssuerSideKept(l, l1);
    LogsAppended(l, l1, id, AuditEntry(Deleted, l.records[id].subject, env.now, None));
  }

  lemma EraseCoherent(l: Ledger, env: Env, id: Id)
    requires Coherent(l) && id in l.records
    ensures Coherent(Erase(l, env, id))
  {
    hide OrderOk, SubjectListsOk, IssuerListsOk, LogsOk, IssuedOk, Keyed, Erase, AttestationsOk, RevocationsOk;
    EraseLists(l, env, id);
    EraseRest(l, env, id);
  }

  lemma EraseSets(l: Ledger, env: Env, id: Id)
    requires Keyed(l)
    requires id in l.records
    ensures var l1 := Erase(l, env, id);
      && RevokedIds(l1) == RevokedIds(l)
      && (forall x :: Live(l1, x) == Live(l, x) - {id} && Indexed(l1, x) == Indexed(l, x) - {id} && Owned(l1, x) == Owned(l, x))
  {
  }

  // ---------------------------------------------------------------- renewal and transfer

  lemma ExpirationSets(l: Ledger, id: Id, expiration: Option<nat>)
    requires id in l.records
    ensures var l1 := l.(records := l.records[id := l.records[id].(expiration := expiration)]);
      && RevokedIds(l1) == RevokedIds(l)
      && (forall x :: Live(l1, x) == Live(l, x) && Indexed(l1, x) == Indexed(l, x) && Owned(l1, x) == Owned(l, x))
  {
  }

  lemma ExpirationCoherent(l: Ledger, id: Id, expiration: Option<nat>)
    requires Coherent(l) && id in l.records
    ensures Coherent(l.(records := l.records[id := l.records[id].(expiration := expiration)]))
  {
    var l1 := l.(records := l.records[id := l.records[id].(expiration := expiration)]);
    assert l1.records.Keys == l.records.Keys;
    ExpirationSets(l, id, expiration);
    IssuerSideKept(l, l1);
  }

  lemma SetExpirationCoherent(l: Ledger, env: Env, issuer: Address, id: Id, expiration: Option<nat>, action: AuditAction)
    requires Coherent(l) && (action.Renewed? || action.Updated?)
    ensures var r := SetExpiration(l, env, issuer, id, expiration, action); r.Ok? ==> Coherent(r.value)
  {
    if SetExpiration(l, env, issuer, id, expiration, action).Ok? {
      ExpirationCoherent(l, id, expiration);
      var details := if action.Renewed? && expiration.Some? then Some(Decimal.Numeral(expiration.value)) else None;
      AppendCoherent(l.(records := l.records[id := l.records[id].(expiration := expiration)]), id,
                     AuditEntry(action, issuer, env.now, details));
    }
  }

  lemma MoveSets(l: Ledger, env: Env, admin: Address, id: Id, newIssuer: Address)
    requires Keyed(l)
    requires id in l.records && l.records[id].issuer != newIssuer
    ensures var l1 := Move(l, env, admin, id, newIssuer);
      && RevokedIds(l1) == RevokedIds(l)
      && (forall x :: Live(l1, x) == Live(l, x) && Indexed(l1, x) == Indexed(l, x))
  {
  }

  lemma MoveOwned(l: Ledger, env: Env, admin: Address, id: Id, newIssuer: Address)
    requires Keyed(l)
    requires id in l.records && l.records[id].issuer != newIssuer
    ensures var l1 := Move(l, env, admin, id, newIssuer);
      && (forall x :: Owned(l1, x) == if x == newIssuer then Owned(l, x) + {id} else Owned(l, x) - {id})
      && (forall y :: y in l1.records ==> y in l.records && l1.records[y].revoked == l.records[y].revoked)
  {
  }

  lemma MoveListIs(l: Ledger, env: Env, admin: Address, id: Id, newIssuer: Address, x: Address)
    requires id in l.records && l.records[id].issuer != newIssuer
    ensures Read(Move(l, env, admin, id, newIssuer).byIssuer, x)
         == var list := Read(l.byIssuer, x);
            if x == newIssuer then list + [id] else if x == l.records[id].issuer then Without(list, id) else list
  {
    hide Without;
  }

  lemma MoveIssuerList(l: Ledger, env: Env, admin: Address, id: Id, newIssuer: Address, x: Address)
    requires IssuerListsOk(l) && id in l.records && l.records[id].issuer != newIssuer
    ensures
      var list := Read(Move(l, env, admin, id, newIssuer).byIssuer, x);
      && NoDup(list)
      && (forall y :: y in list <==> (y in Read(l.byIssuer, x) && y != id) || (y == id && x == newIssuer))
  {
    hide Move;
    var list := Read(l.byIssuer, x);
    MoveListIs(l, env, admin, id, newIssuer, x);
    assert NoDup(list) && (id in list ==> id in Owned(l, x));
    WithoutMembers(list, id);
    WithoutNoDup(list, id);
  }

  lemma MoveIssuerLists(l: Ledger, env: Env, admin: Address, id: Id, newIssuer: Address)
    requires Keyed(l)
    requires IssuerListsOk(l) && id in l.records && l.records[id].issuer != newIssuer
    ensures IssuerListsOk(Move(l, env, admin, id, newIssuer))
  {
    hide Move, NoDup;
    var l1 := Move(l, env, admin, id, newIssuer);
    MoveOwned(l, env, admin, id, newIssuer);
    forall x
      ensures NoDup(Read(l1.byIssuer, x))
      ensures forall y :: y in Read(l1.byIssuer, x) ==> y in Owned(l1, x)
      ensures forall y :: y in Owned(l1, x) && !l1.records[y].revoked ==> y in Read(l1.byIssuer, x)
    {
      MoveIssuerList(l, env, admin, id, newIssuer, x);
    }
  }

  /** Each counter moves by one, and the decrement never clips. */
  lemma MoveIssued(l: Ledger, env: Env, admin: Address, id: Id, newIssuer: Address)
    requires Keyed(l)
    requires IssuedOk(l) && id in l.records && l.records[id].issuer != newIssuer
    ensures IssuedOk(Move(l, env, admin, id, newIssuer))
    ensures |l.records| <= U64_MAX ==> Count(l.issued, l.records[id].issuer) >= 1
  {
    hide Owned, Move;
    var was, l1 := l.records[id].issuer, Move(l, env, admin, id, newIssuer);
    assert l1.records.Keys == l.records.Keys by { MoveKeys(l, env, admin, id, newIssuer); }
    if |l.records| <= U64_MAX {
      forall x ensures Count(l1.issued, x) == |Owned(l1, x)| {
        assert Count(l.issued, x) == |Owned(l, x)|;
        MoveCount(l, env, admin, id, newIssuer, x);
      }
      assert Count(l.issued, was) == |Owned(l, was)|;
      MoveCount(l, env, admin, id, newIssuer, was);
    }
  }

  lemma MoveKeys(l: Ledger, env: Env, admin: Address, id: Id, newIssuer: Address)
    requires Keyed(l) && id in l.records
    ensures Move(l, env, admin, id, newIssuer).records.Keys == l.records.Keys
  {
  }

  /** One counter before and after a transfer. */
  lemma MoveCount(l: Ledger, env: Env, admin: Address, id: Id, newIssuer: Address, x: Address)
    requires Keyed(l) && id in l.records && l.records[id].issuer != newIssuer && |l.records| <= U64_MAX
    requires Count(l.issued, x) == |Owned(l, x)|
    ensures Count(Move(l, env, admin, id, newIssuer).issued, x) == |Owned(Move(l, env, admin, id, newIssuer), x)|
    ensures x == l.records[id].issuer ==> Count(l.issued, x) >= 1
  {
    var was, l1 := l.records[id].issuer, Move(l, env, admin, id, newIssuer);
    MoveOwned(l, env, admin, id, newIssuer);
    MovedCounter(l, env, admin, id, newIssuer, x);
    assert id in Owned(l, x) <==> x == was;
    hide Move, Owned, Count;
    if x == newIssuer {
      assert |Owned(l1, x)| == |Owned(l, x)| + 1;
      OwnedBound(l1, x);
      MoveKeys(l, env, admin, id, newIssuer);
      assert |l1.records| == |l1.records.Keys| == |l.records|;
    } else if x == was {
      assert |Owned(l1, x)| == |Owned(l, x)| - 1;
    } else {
      assert Owned(l1, x) == Owned(l, x);
    }
  }

  lemma MovedCounter(l: Ledger, env: Env, admin: Address, id: Id, newIssuer: Address, x: Address)
    requires id in l.records && l.records[id].issuer != newIssuer
    ensures Count(Move(l, env, admin, id, newIssuer).issued, x)
         == var n := Count(l.issued, x);
            if x == newIssuer then SaturatingAdd(n, 1) else if x == l.records[id].issuer then SaturatingSub(n, 1) else n
  {
    hide Push, Drop;
  }

  lemma OwnedBound(l: Ledger, issuer: Address)
    ensures |Owned(l, issuer)| <= |l.records|
  {
    assert Owned(l, issuer) <= l.records.Keys;
    SubsetSize(Owned(l, issuer), l.records.Keys);
  }

  lemma SubsetSize<T>(a: set<T>, b: set<T>)
    requires a <= b
    ensures |a| <= |b|
  {
    assert b == a + (b - a);
  }

  lemma MoveRest(l: Ledger, env: Env, admin: Address, id: Id, newIssuer: Address)
    requires Coherent(l) && id in l.records && l.records[id].issuer != newIssuer
    ensures var l1 := Move(l, env, admin, id, newIssuer);
      Keyed(l1) && OrderOk(l1) && SubjectListsOk(l1) && AttestationsOk(l1) && RevocationsOk(l1)
  {
    hide IssuerListsOk, LogsOk, IssuedOk;
    var l1 := Move(l, env, admin, id, newIssuer);
    assert l1.records.Keys == l.records.Keys;
    MoveSets(l, env, admin, id, newIssuer);
  }

  lemma MoveLogs(l: Ledger, env: Env, admin: Address, id: Id, newIssuer: Address)
    requires Keyed(l)
    requires LogsOk(l) && id in l.records && l.records[id].issuer != newIssuer
    ensures LogsOk(Move(l, env, admin, id, newIssuer))
  {
    var l1 := Move(l, env, admin, id, newIssuer);
    assert l1.records.Keys == l.records.Keys;
    MoveSets(l, env, admin, id, newIssuer);
    LogsAppended(l, l1, id, AuditEntry(Transferred(newIssuer), admin, env.now, None));
  }

  lemma MoveCoherent(l: Ledger, env: Env, admin: Address, id: Id, newIssuer: Address)
    requires Coherent(l) && id in l.records && l.records[id].issuer != newIssuer
    ensures Coherent(Move(l, env, admin, id, newIssuer))
  {
    hide OrderOk, SubjectListsOk, IssuerListsOk, LogsOk, IssuedOk, Keyed, RevokedIds, Move, AttestationsOk, RevocationsOk;
    MoveRest(l, env, admin, id, newIssuer);
    MoveLogs(l, env, admin, id, newIssuer);
    MoveIssuerLists(l, env, admin, id, newIssuer);
    MoveIssued(l, env, admin, id, newIssuer);
  }
}
