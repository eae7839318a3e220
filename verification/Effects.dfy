/** What each successful call adds or changes, field by field: the stored record, its place in the lists and
    its audit entry, and nothing else. */
module Effects {
  import opened Types
  import opened Sequences
  import opened Ledger
  import opened Coherence
  import B = Batches
  import Decimal

  // ---------------------------------------------------------------- creations

  /** The record is stored and last in the flat lists of its subject and its issuer, and every other record
      and list is as before. */
  ghost predicate Writes(l: Ledger, l1: Ledger, a: Attestation) {
    && l1.records == l.records[a.id := a]
    && (forall x :: Read(l1.bySubject, x) == if x == a.subject then Read(l.bySubject, x) + [a.id] else Read(l.bySubject, x))
    && (forall x :: Read(l1.byIssuer, x) == if x == a.issuer then Read(l.byIssuer, x) + [a.id] else Read(l.byIssuer, x))
  }

  /** One record more. */
  ghost predicate Adds(l: Ledger, l1: Ledger, a: Attestation) { a.id !in l.records && Writes(l, l1, a) }

  ghost predicate SameLogs(l: Ledger, l1: Ledger) { forall id :: LogOf(l1.logs, id) == LogOf(l.logs, id) }

  /** The log of `id` is longer by the entry, every other log is as before. */
  ghost predicate Logs(l: Ledger, l1: Ledger, id: Id, entry: AuditEntry) {
    forall x :: LogOf(l1.logs, x) == if x == id then LogOf(l.logs, x) + [entry] else LogOf(l.logs, x)
  }

  lemma PutWrites(l: Ledger, a: Attestation)
    requires Put(l, a).Ok?
    ensures Writes(l, Put(l, a).value, a) && SameLogs(l, Put(l, a).value)
  {
  }

  lemma PutLoggedAdds(l: Ledger, a: Attestation, actor: Address)
    requires PutLogged(l, a, actor).Ok? && a.id !in l.records
    ensures var l1 := PutLogged(l, a, actor).value;
      Adds(l, l1, a) && Logs(l, l1, a.id, AuditEntry(Created, actor, a.timestamp, None))
  {
    hide Writes;
    PutWrites(l, a);
    AppendAdds(l, Put(l, a).value, a, CreatedBy(actor, a.timestamp));
  }

  lemma AppendAdds(l: Ledger, l1: Ledger, a: Attestation, entry: AuditEntry)
    requires Adds(l, l1, a) && SameLogs(l, l1)
    ensures Adds(l, Append(l1, a.id, entry), a) && Logs(l, Append(l1, a.id, entry), a.id, entry)
  {
  }

  /** A native attestation: its fields are the caller's, it starts now, and its issuer logs it. */
  lemma CreateAdds(l: Ledger, env: Env, issuer: Address, subject: Address, claimType: ClaimType,
                   expiration: Option<nat>, metadata: Option<string>, validFrom: Option<nat>)
    requires Create(l, env, issuer, subject, claimType, expiration, metadata, validFrom).Ok?
    ensures var l1 := Create(l, env, issuer, subject, claimType, expiration, metadata, validFrom).value;
      var id := env.attestationId(issuer, subject, claimType, env.now);
      && Adds(l, l1, Attestation(id, issuer, subject, claimType, env.now, expiration, validFrom, Native, metadata, false, None, false))
      && Logs(l, l1, id, AuditEntry(Created, issuer, env.now, None))
  {
    hide PutLogged, Adds, Logs, RateAllows;
    var id := env.attestationId(issuer, subject, claimType, env.now);
    var a := Attestation(id, issuer, subject, claimType, env.now, expiration, validFrom, Native, metadata, false, None, false);
    PutLoggedAdds(l, a, issuer);
    ClockOnly(l, PutLogged(l, a, issuer).value, Create(l, env, issuer, subject, claimType, expiration, metadata, validFrom).value,
              a, AuditEntry(Created, issuer, env.now, None));
  }

  lemma ClockOnly(l: Ledger, l1: Ledger, l2: Ledger, a: Attestation, entry: AuditEntry)
    requires Adds(l, l1, a) && Logs(l, l1, a.id, entry) && l2 == l1.(lastIssued := l2.lastIssued)
    ensures Adds(l, l2, a) && Logs(l, l2, a.id, entry)
  {
  }

  /** An import: the historical timestamp, origin `Imported`, and the administrator in the log. */
  lemma ImportAdds(l: Ledger, env: Env, admin: Address, issuer: Address, subject: Address, claimType: ClaimType,
                   timestamp: nat, expiration: Option<nat>)
    requires Import(l, env, admin, issuer, subject, claimType, timestamp, expiration).Ok?
    ensures var l1 := Import(l, env, admin, issuer, subject, claimType, timestamp, expiration).value;
      var id := env.attestationId(issuer, subject, claimType, timestamp);
      && Adds(l, l1, Attestation(id, issuer, subject, claimType, timestamp, expiration, None, Imported, None, false, None, false))
      && Logs(l, l1, id, AuditEntry(Created, admin, timestamp, None))
  {
    hide PutLogged, Adds, Logs;
    var id := env.attestationId(issuer, subject, claimType, timestamp);
    PutLoggedAdds(l, Attestation(id, issuer, subject, claimType, timestamp, expiration, None, Imported, None, false, None, false), admin);
  }

  /** A bridged attestation: issued by the bridge, without expiration, with its source. */
  lemma BridgeAdds(l: Ledger, env: Env, bridge: Address, subject: Address, claimType: ClaimType, chain: string, tx: string)
    requires Bridge(l, env, bridge, subject, claimType, chain, tx).Ok?
    ensures var l1 := Bridge(l, env, bridge, subject, claimType, chain, tx).value;
      var id := env.bridgeId(bridge, subject, claimType, chain, tx, env.now);
      && Adds(l, l1, Attestation(id, bridge, subject, claimType, env.now, None, None, Bridged(chain, tx), None, false, None, false))
      && Logs(l, l1, id, AuditEntry(Created, bridge, env.now, None))
  {
    hide PutLogged, Adds, Logs;
    var id := env.bridgeId(bridge, subject, claimType, chain, tx, env.now);
    PutLoggedAdds(l, Attestation(id, bridge, subject, claimType, env.now, None, None, Bridged(chain, tx), None, false, None, false), bridge);
  }

  /** A delegate's attestation is the delegator's; the delegate appears in the log only. */
  lemma DelegateAdds(l: Ledger, env: Env, delegation: Option<Delegation>, delegate: Address, delegator: Address,
                     subject: Address, claimType: ClaimType, expiration: Option<nat>, metadata: Option<string>)
    requires CreateAsDelegate(l, env, delegation, delegate, delegator, subject, claimType, expiration, metadata).Ok?
    ensures var l1 := CreateAsDelegate(l, env, delegation, delegate, delegator, subject, claimType, expiration, metadata).value;
      var id := env.attestationId(delegator, subject, claimType, env.now);
      && Adds(l, l1, Attestation(id, delegator, subject, claimType, env.now, expiration, None, Native, metadata, false, None, false))
      && Logs(l, l1, id, AuditEntry(Created, delegate, env.now, None))
    ensures delegation.Some? && (delegation.value.expiration.None? || env.now < delegation.value.expiration.value)
  {
    hide PutLogged, Adds, Logs;
    var id := env.attestationId(delegator, subject, claimType, env.now);
    PutLoggedAdds(l, Attestation(id, delegator, subject, claimType, env.now, expiration, None, Native, metadata, false, None, false), delegate);
  }

  // ---------------------------------------------------------------- batch creation

  /** The records of a batch: one per subject, all else as before. */
  ghost predicate AddsAll(l: Ledger, l1: Ledger, env: Env, issuer: Address, subjects: seq<Address>, claimType: ClaimType, expiration: Option<nat>) {
    && (forall i :: 0 <= i < |subjects| ==>
          var id := env.attestationId(issuer, subjects[i], claimType, env.now);
          && id !in l.records && id in l1.records
          && l1.records[id] == Attestation(id, issuer, subjects[i], claimType, env.now, expiration, None, Native, None, false, None, false)
          && LogOf(l1.logs, id) == LogOf(l.logs, id) + [AuditEntry(Created, issuer, env.now, None)])
    && (forall id :: id in l.records ==>
          id in l1.records && l1.records[id] == l.records[id] && LogOf(l1.logs, id) == LogOf(l.logs, id))
    && (forall id :: id in l1.records && id !in l.records ==>
          exists i :: 0 <= i < |subjects| && id == env.attestationId(issuer, subjects[i], claimType, env.now))
  }

  lemma BatchStepAdds(l: Ledger, env: Env, issuer: Address, subject: Address, claimType: ClaimType, expiration: Option<nat>) returns (l1: Ledger)
    requires env.attestationId(issuer, subject, claimType, env.now) !in l.records
    ensures l1 == Append(StoreForSubject(l, B.BatchRecord(env, issuer, subject, claimType, expiration)),
                         env.attestationId(issuer, subject, claimType, env.now), CreatedBy(issuer, env.now))
    ensures var id := env.attestationId(issuer, subject, claimType, env.now);
      && l1.records == l.records[id := Attestation(id, issuer, subject, claimType, env.now, expiration, None, Native, None, false, None, false)]
      && Logs(l, l1, id, AuditEntry(Created, issuer, env.now, None))
  {
    l1 := Append(StoreForSubject(l, B.BatchRecord(env, issuer, subject, claimType, expiration)),
                 env.attestationId(issuer, subject, claimType, env.now), CreatedBy(issuer, env.now));
  }

  lemma {:induction false} LoopAdds(l: Ledger, env: Env, issuer: Address, subjects: seq<Address>, claimType: ClaimType, expiration: Option<nat>)
    requires BatchLoop(l, env, issuer, subjects, claimType, expiration).Ok?
    ensures AddsAll(l, BatchLoop(l, env, issuer, subjects, claimType, expiration).value, env, issuer, subjects, claimType, expiration)
    decreases |subjects|
  {
    if subjects != [] {
      var l1 := BatchStepAdds(l, env, issuer, subjects[0], claimType, expiration);
      LoopAdds(l1, env, issuer, subjects[1..], claimType, expiration);
      var end := BatchLoop(l1, env, issuer, subjects[1..], claimType, expiration).value;
      AddsOneMore(l, l1, end, env, issuer, subjects, claimType, expiration);
    }
  }

  lemma AddsOneMore(l: Ledger, l1: Ledger, end: Ledger, env: Env, issuer: Address, subjects: seq<Address>, claimType: ClaimType, expiration: Option<nat>)
    requires subjects != [] && AddsAll(l1, end, env, issuer, subjects[1..], claimType, expiration)
    requires var id := env.attestationId(issuer, subjects[0], claimType, env.now);
      && id !in l.records && Logs(l, l1, id, AuditEntry(Created, issuer, env.now, None))
      && l1.records == l.records[id := Attestation(id, issuer, subjects[0], claimType, env.now, expiration, None, Native, None, false, None, false)]
    ensures AddsAll(l, end, env, issuer, subjects, claimType, expiration)
  {
    var rest, first := subjects[1..], env.attestationId(issuer, subjects[0], claimType, env.now);
    assert forall i :: 0 < i < |subjects| ==> subjects[i] == rest[i - 1];
    assert first in l1.records;
    forall i | 0 <= i < |subjects|
      ensures var id := env.attestationId(issuer, subjects[i], claimType, env.now);
        && id !in l.records && id in end.records
        && end.records[id] == Attestation(id, issuer, subjects[i], claimType, env.now, expiration, None, Native, None, false, None, false)
        && LogOf(end.logs, id) == LogOf(l.logs, id) + [AuditEntry(Created, issuer, env.now, None)]
    {
      if i > 0 {
        assert env.attestationId(issuer, rest[i - 1], claimType, env.now) !in l1.records;
      }
    }
    forall id | id in end.records && id !in l.records
      ensures exists i :: 0 <= i < |subjects| && id == env.attestationId(issuer, subjects[i], claimType, env.now)
    {
      if id != first {
        assert id !in l1.records;
        var i :| 0 <= i < |rest| && id == env.attestationId(issuer, rest[i], claimType, env.now);
        assert id == env.attestationId(issuer, subjects[i + 1], claimType, env.now);
      }
    }
  }

  /** A batch adds exactly one native attestation per subject, each logged by the issuer. */
  lemma CreateBatchAdds(l: Ledger, env: Env, issuer: Address, subjects: seq<Address>, claimType: ClaimType, expiration: Option<nat>)
    requires CreateBatch(l, env, issuer, subjects, claimType, expiration).Ok?
    ensures AddsAll(l, CreateBatch(l, env, issuer, subjects, claimType, expiration).value, env, issuer, subjects, claimType, expiration)
  {
    hide BatchLoop, BatchGuard;
    LoopAdds(l, env, issuer, subjects, claimType, expiration);
  }

  // ---------------------------------------------------------------- changes

  /** One record changed to `a`, its log longer by one entry, all other records and logs as before. */
  ghost predicate Changes(l: Ledger, l1: Ledger, a: Attestation, entry: AuditEntry) {
    a.id in l.records && l1.records == l.records[a.id := a] && Logs(l, l1, a.id, entry)
  }

  /** A renewal or update sets the expiration to the one given and nothing else; the entry of a renewal spells
      the new expiration out in decimal. */
  lemma SetExpirationChanges(l: Ledger, env: Env, issuer: Address, id: Id, expiration: Option<nat>, action: AuditAction) returns (details: Option<string>)
    requires Keyed(l) && SetExpiration(l, env, issuer, id, expiration, action).Ok?
    ensures id in l.records && l.records[id].issuer == issuer && !l.records[id].revoked
    ensures Changes(l, SetExpiration(l, env, issuer, id, expiration, action).value, l.records[id].(expiration := expiration),
                    AuditEntry(action, issuer, env.now, details))
    ensures details.Some? <==> action.Renewed? && expiration.Some?
    ensures details.Some? ==> Decimal.Canonical(details.value) && Decimal.Parse(details.value) == expiration.value
  {
    details := if action.Renewed? && expiration.Some? then Some(Decimal.Numeral(expiration.value)) else None;
    if details.Some? {
      Decimal.NumeralRoundTrip(expiration.value);
    }
  }

  /** A revocation by the issuer of the record, with its reason. */
  lemma RevokeChanges(l: Ledger, env: Env, issuer: Address, id: Id, reason: Option<string>)
    requires Keyed(l) && Revoke(l, env, issuer, id, reason).Ok?
    ensures id in l.records && l.records[id].issuer == issuer && !l.records[id].revoked
    ensures Changes(l, Revoke(l, env, issuer, id, reason).value, l.records[id].(revoked := true, revocationReason := reason),
                    AuditEntry(Revoked, issuer, env.now, reason))
  {
    hide Drop;
  }

  /** A transfer by an administrator moves the id to the end of the new issuer's list; to the same issuer it
      changes nothing. */
  lemma TransferChanges(l: Ledger, env: Env, admin: Address, id: Id, newIssuer: Address)
    requires Keyed(l) && Transfer(l, env, admin, id, newIssuer).Ok?
    ensures id in l.records && env.council.Some? && admin in env.council.value && newIssuer in env.issuers
    ensures var l1, was := Transfer(l, env, admin, id, newIssuer).value, l.records[id].issuer;
      if was == newIssuer then l1 == l
      else
        && Changes(l, l1, l.records[id].(issuer := newIssuer), AuditEntry(Transferred(newIssuer), admin, env.now, None))
        && Read(l1.byIssuer, newIssuer) == Read(l.byIssuer, newIssuer) + [id]
        && Read(l1.byIssuer, was) == Without(Read(l.byIssuer, was), id)
  {
    hide Without;
  }

  /** A deletion by the subject of the record. */
  lemma DeleteChanges(l: Ledger, env: Env, subject: Address, id: Id)
    requires Keyed(l) && Delete(l, env, subject, id).Ok?
    ensures id in l.records && l.records[id].subject == subject
    ensures Changes(l, Delete(l, env, subject, id).value, l.records[id].(deleted := true), AuditEntry(Deleted, subject, env.now, None))
  {
    hide Drop;
  }

  // ---------------------------------------------------------------- batch revocation

  /** The given ids revoked, each with its log entry, all other records and logs as before. */
  ghost predicate RevokesAll(l: Ledger, l1: Ledger, ids: seq<Id>, reason: Option<string>, entry: AuditEntry) {
    && l1.records.Keys == l.records.Keys
    && (forall id :: id in l.records ==>
          l1.records[id] == if id in ids then l.records[id].(revoked := true, revocationReason := reason) else l.records[id])
    && (forall id :: LogOf(l1.logs, id) == if id in ids then LogOf(l.logs, id) + [entry] else LogOf(l.logs, id))
  }

  lemma {:induction false} SnapshotsRevoke(l: Ledger, env: Env, issuer: Address, ids: seq<Id>, reason: Option<string>)
    requires Keyed(l) && B.AllRevocable(l, issuer, ids)
    ensures RevokesAll(l, RevokeSnapshots(l, env, issuer, B.Snapshots(l, ids), reason), ids, reason, AuditEntry(Revoked, issuer, env.now, reason))
    decreases |ids|
  {
    if ids != [] {
      var l1 := B.SnapshotStep(l, env, issuer, ids, reason);
      SnapshotsRevoke(l1, env, issuer, ids[1..], reason);
      OneRevoked(l, env, issuer, ids[0], reason);
      RevokesOneMore(l, l1, RevokeSnapshots(l1, env, issuer, B.Snapshots(l1, ids[1..]), reason), ids, reason, AuditEntry(Revoked, issuer, env.now, reason));
    }
  }

  lemma OneRevoked(l: Ledger, env: Env, issuer: Address, id: Id, reason: Option<string>)
    requires Keyed(l) && id in l.records
    ensures Changes(l, RevokeSnapshot(l, env, issuer, l.records[id], reason), l.records[id].(revoked := true, revocationReason := reason),
                    AuditEntry(Revoked, issuer, env.now, reason))
  {
    hide Drop;
  }

  lemma RevokesOneMore(l: Ledger, l1: Ledger, end: Ledger, ids: seq<Id>, reason: Option<string>, entry: AuditEntry)
    requires Keyed(l) && ids != [] && NoDup(ids) && ids[0] in l.records
    requires Changes(l, l1, l.records[ids[0]].(revoked := true, revocationReason := reason), entry)
    requires RevokesAll(l1, end, ids[1..], reason, entry)
    ensures RevokesAll(l, end, ids, reason, entry)
  {
    var rest := ids[1..];
    assert ids[0] !in rest;
    assert forall id :: id in ids <==> id == ids[0] || id in rest;
  }

  /** A batch revokes exactly the ids it names, all of them the issuer's own, distinct and unrevoked, and at most
      fifty. */
  lemma RevokeBatchChanges(l: Ledger, env: Env, issuer: Address, ids: seq<Id>, reason: Option<string>)
    requires Keyed(l) && RevokeBatch(l, env, issuer, ids, reason).Ok?
    ensures |ids| <= 50 && NoDup(ids)
    ensures forall id :: id in ids ==> id in l.records && l.records[id].issuer == issuer && !l.records[id].revoked
    ensures RevokesAll(l, RevokeBatch(l, env, issuer, ids, reason).value, ids, reason, AuditEntry(Revoked, issuer, env.now, reason))
  {
    hide Gather, RevokeSnapshots, RevokeSnapshot;
    B.GatherIff(l, issuer, ids, []);
    SnapshotsRevoke(l, env, issuer, ids, reason);
  }
}
