/** How a record and its audit log may change over time. */
module Evolution {
  import opened Types
  import opened Ledger
  import opened Coherence

  /** What a later version `b` of a record `a` may differ in: its issuer; its expiration while
      unrevoked; and the two flags, which only ever go up. */
  predicate RecordEvolves(a: Attestation, b: Attestation) {
    && b == a.(issuer := b.issuer, expiration := b.expiration, revoked := b.revoked,
               revocationReason := b.revocationReason, deleted := b.deleted)
    && (a.revoked ==> b.revoked && b.expiration == a.expiration && b.revocationReason == a.revocationReason)
    && (a.deleted ==> b.deleted)
  }

  /** No record disappears or changes in any other way, and audit logs only grow at the end. */
  ghost predicate Evolves(l: Ledger, l1: Ledger) {
    && (forall id :: id in l.records ==> id in l1.records && RecordEvolves(l.records[id], l1.records[id]))
    && (forall id :: LogOf(l.logs, id) <= LogOf(l1.logs, id))
    && l.order <= l1.order
  }

  lemma EvolvesReflexive(l: Ledger)
    ensures Evolves(l, l)
  {
  }

  lemma EvolvesTransitive(a: Ledger, b: Ledger, c: Ledger)
    requires Evolves(a, b) && Evolves(b, c)
    ensures Evolves(a, c)
  {
    forall id | id in a.records
      ensures id in c.records && RecordEvolves(a.records[id], c.records[id])
    {
      assert RecordEvolves(a.records[id], b.records[id]) && RecordEvolves(b.records[id], c.records[id]);
    }
    forall id ensures LogOf(a.logs, id) <= LogOf(c.logs, id) {
      assert LogOf(a.logs, id) <= LogOf(b.logs, id) <= LogOf(c.logs, id);
    }
  }

  lemma AppendEvolves(l: Ledger, id: Id, entry: AuditEntry)
    ensures Evolves(l, Append(l, id, entry))
  {
  }

  lemma StoreEvolves(l: Ledger, a: Attestation)
    requires a.id !in l.records
    ensures Evolves(l, Store(l, a)) && Evolves(l, StoreForSubject(l, a))
  {
  }

  lemma RevokeOneEvolves(l: Ledger, env: Env, issuer: Address, id: Id, reason: Option<string>)
    requires Keyed(l) && id in l.records && !l.records[id].revoked
    ensures Evolves(l, RevokeOne(l, env, issuer, id, reason))
  {
  }

  lemma RevokeSnapshotEvolves(l: Ledger, env: Env, issuer: Address, a: Attestation, reason: Option<string>)
    requires a.id in l.records && l.records[a.id] == a && !a.revoked
    ensures Evolves(l, RevokeSnapshot(l, env, issuer, a, reason))
  {
  }

  lemma SetExpirationEvolves(l: Ledger, env: Env, issuer: Address, id: Id, expiration: Option<nat>, action: AuditAction)
    requires Keyed(l)
    ensures var r := SetExpiration(l, env, issuer, id, expiration, action); r.Ok? ==> Evolves(l, r.value)
  {
  }

  lemma MoveEvolves(l: Ledger, env: Env, admin: Address, id: Id, newIssuer: Address)
    requires Keyed(l) && id in l.records
    ensures Evolves(l, Move(l, env, admin, id, newIssuer))
  {
  }

  lemma EraseEvolves(l: Ledger, env: Env, id: Id)
    requires Keyed(l) && id in l.records
    ensures Evolves(l, Erase(l, env, id))
  {
  }
}
