/** The flat and the chunked issuer index. Storing a record writes both, but not every later write
    does: exactly which calls set them apart. */
module IssuerIndexes {
  import opened Types
  import opened Sequences
  import opened Coherence
  import opened Worlds
  import opened Runs
  import L = Ledger
  import B = Batches

  /** Every issuer's chunked list reads like its flat list. */
  ghost predicate Agree(l: L.Ledger) {
    forall x :: Read(l.issuerChunks, x) == Read(l.byIssuer, x)
  }

  /** The successful calls that write one index and not the other: a transfer to another issuer, and a
      batch revocation of at least one record. */
  predicate SetsApart(w: World, c: Call) {
    Attempt(w, c).Ok? &&
    match c.action
    case Transfer(_, id, newIssuer) => id in w.ledger.records && w.ledger.records[id].issuer != newIssuer
    case RevokeBatch(_, ids, _) => ids != []
    case _ => false
  }

  /** Writing the same list to both indexes. */
  lemma SameWrite(l: L.Ledger, l1: L.Ledger, issuer: Address, list: seq<Id>)
    requires Agree(l)
    requires forall x :: Read(l1.byIssuer, x) == if x == issuer then list else Read(l.byIssuer, x)
    requires forall x :: Read(l1.issuerChunks, x) == if x == issuer then list else Read(l.issuerChunks, x)
    ensures Agree(l1)
  {
    forall x ensures Read(l1.issuerChunks, x) == Read(l1.byIssuer, x) {
      assert Read(l.issuerChunks, x) == Read(l.byIssuer, x);
    }
  }

  lemma StoreAgrees(l: L.Ledger, a: Attestation)
    requires Agree(l)
    ensures Agree(L.Store(l, a))
  {
    assert Read(l.issuerChunks, a.issuer) == Read(l.byIssuer, a.issuer);
    SameWrite(l, L.Store(l, a), a.issuer, Read(l.byIssuer, a.issuer) + [a.id]);
  }

  lemma SameLists(l: L.Ledger, l1: L.Ledger)
    requires Agree(l) && l1.byIssuer == l.byIssuer && l1.issuerChunks == l.issuerChunks
    ensures Agree(l1)
  {
  }

  lemma CreationAgrees(w: World, c: Call)
    requires Agree(w.ledger) && Attempt(w, c).Ok?
    requires c.action.Create? || c.action.Import? || c.action.Bridge? || c.action.CreateAsDelegate?
    ensures Agree(Apply(w, c).ledger)
  {
    hide Agree, L.Store, L.RateAllows, Read;
    var env := c.env;
    match c.action {
      case Create(i, s, ct, e, m, v) =>
        var a := L.NewRecord(env.attestationId(i, s, ct, env.now), i, s, ct, env.now, e).(metadata := m, validFrom := v);
        StoreAgrees(w.ledger, a);
        SameLists(L.Store(w.ledger, a), Apply(w, c).ledger);
      case Import(_, i, s, ct, t, e) =>
        var a := L.NewRecord(env.attestationId(i, s, ct, t), i, s, ct, t, e).(origin := Imported);
        StoreAgrees(w.ledger, a);
        SameLists(L.Store(w.ledger, a), Apply(w, c).ledger);
      case Bridge(b, s, ct, chain, tx) =>
        var a := L.NewRecord(env.bridgeId(b, s, ct, chain, tx, env.now), b, s, ct, env.now, None).(origin := Bridged(chain, tx));
        StoreAgrees(w.ledger, a);
        SameLists(L.Store(w.ledger, a), Apply(w, c).ledger);
      case CreateAsDelegate(d, i, s, ct, e, m) =>
        var a := L.NewRecord(env.attestationId(i, s, ct, env.now), i, s, ct, env.now, e).(metadata := m);
        StoreAgrees(w.ledger, a);
        SameLists(L.Store(w.ledger, a), Apply(w, c).ledger);
    }
  }

  lemma BatchAgrees(w: World, c: Call)
    requires Agree(w.ledger) && Attempt(w, c).Ok? && c.action.CreateBatch?
    ensures Agree(Apply(w, c).ledger)
  {
    hide L.BatchLoop, L.BatchGuard, L.BatchIds;
    var a := c.action;
    B.LoopKeepsIssuerSide(w.ledger, c.env, a.issuer, a.subjects, a.claimType, a.expiration);
    assert Read(w.ledger.issuerChunks, a.issuer) == Read(w.ledger.byIssuer, a.issuer);
    var ids := L.BatchIds(c.env, a.issuer, a.subjects, a.claimType);
    assert ids == [] ==> Read(w.ledger.byIssuer, a.issuer) + ids == Read(w.ledger.byIssuer, a.issuer);
    SameWrite(w.ledger, Apply(w, c).ledger, a.issuer, Read(w.ledger.byIssuer, a.issuer) + ids);
  }

  lemma RevokeAgrees(w: World, c: Call)
    requires Agree(w.ledger) && Attempt(w, c).Ok? && c.action.Revoke?
    ensures Agree(Apply(w, c).ledger)
  {
    var issuer := c.action.issuer;
    assert Read(w.ledger.issuerChunks, issuer) == Read(w.ledger.byIssuer, issuer);
    SameWrite(w.ledger, Apply(w, c).ledger, issuer, Without(Read(w.ledger.byIssuer, issuer), c.action.id));
  }

  lemma OtherAgrees(w: World, c: Call)
    requires Agree(w.ledger) && Attempt(w, c).Ok?
    requires c.action.Renew? || c.action.UpdateExpiration? || c.action.Delete?
    ensures Agree(Apply(w, c).ledger)
  {
    hide Agree, Drop;
    SameLists(w.ledger, Apply(w, c).ledger);
  }

  lemma ProtocolAgrees(w: World, c: Call)
    requires Agree(w.ledger) && Attempt(w, c).Ok? && OnLedger(w, c.env, c.action).None?
    ensures Agree(Apply(w, c).ledger)
  {
    hide Agree, L.Store, UncheckedRecord, Drop, Push;
    if c.action.Propose? || c.action.Cosign? {
      if c.action.Propose? { ProposeStores(w, c); } else { CosignStores(w, c); }
      var a := UncheckedRecord(w, c);
      if a.Some? {
        StoreAgrees(w.ledger, a.value);
      }
    } else if c.action.Fulfill? {
      var q := w.requests[c.action.id];
      StoreAgrees(w.ledger, L.NewRecord(c.env.attestationId(c.action.issuer, q.subject, q.claimType, c.env.now),
                                        c.action.issuer, q.subject, q.claimType, c.env.now, c.action.expiration));
    }
  }

  /** A transferred id is appended to the new issuer's flat list only. */
  lemma TransferDisagrees(l: L.Ledger, env: Env, admin: Address, id: Id, newIssuer: Address)
    requires Agree(l) && id in l.records && l.records[id].issuer != newIssuer
    ensures !Agree(L.Move(l, env, admin, id, newIssuer))
  {
    var l1 := L.Move(l, env, admin, id, newIssuer);
    assert Read(l1.byIssuer, newIssuer) == Read(l.byIssuer, newIssuer) + [id];
    assert |Read(l1.issuerChunks, newIssuer)| != |Read(l1.byIssuer, newIssuer)|;
  }

  lemma {:induction false} SnapshotsOnlyDrop(l: L.Ledger, env: Env, issuer: Address, batch: seq<Attestation>, reason: Option<string>, id: Id)
    requires id !in Read(l.byIssuer, issuer)
    ensures id !in Read(L.RevokeSnapshots(l, env, issuer, batch, reason).byIssuer, issuer)
    decreases |batch|
  {
    if batch != [] {
      WithoutMembers(Read(l.byIssuer, issuer), batch[0].id);
      SnapshotsOnlyDrop(L.RevokeSnapshot(l, env, issuer, batch[0], reason), env, issuer, batch[1..], reason, id);
    }
  }

  lemma {:induction false} SnapshotsKeepChunks(l: L.Ledger, env: Env, issuer: Address, batch: seq<Attestation>, reason: Option<string>)
    ensures L.RevokeSnapshots(l, env, issuer, batch, reason).issuerChunks == l.issuerChunks
    decreases |batch|
  {
    if batch != [] {
      SnapshotsKeepChunks(L.RevokeSnapshot(l, env, issuer, batch[0], reason), env, issuer, batch[1..], reason);
    }
  }

  /** A record revoked in a batch leaves the flat list only. */
  lemma RevokeBatchDisagrees(l: L.Ledger, env: Env, issuer: Address, ids: seq<Id>, reason: Option<string>)
    requires Agree(l) && Coherent(l) && ids != [] && L.RevokeBatch(l, env, issuer, ids, reason).Ok?
    ensures !Agree(L.RevokeBatch(l, env, issuer, ids, reason).value)
  {
    hide OrderOk, SubjectListsOk, LogsOk, IssuedOk, L.Gather;
    B.GatherIff(l, issuer, ids, []);
    var batch, id := B.Snapshots(l, ids), ids[0];
    var l1 := L.RevokeSnapshot(l, env, issuer, batch[0], reason);
    assert batch[0].id == id;
    assert id in Owned(l, issuer) && id in Read(l.byIssuer, issuer);
    WithoutMembers(Read(l.byIssuer, issuer), id);
    SnapshotsOnlyDrop(l1, env, issuer, batch[1..], reason, id);
    SnapshotsKeepChunks(l, env, issuer, batch, reason);
    var end := L.RevokeBatch(l, env, issuer, ids, reason).value;
    assert id in Read(end.issuerChunks, issuer) && id !in Read(end.byIssuer, issuer);
  }

  /** One call keeps the two issuer indexes in agreement exactly when it is not one of those two. */
  lemma AgreementKeptIff(w: World, c: Call)
    requires Agree(w.ledger) && Coherent(w.ledger)
    ensures Agree(Apply(w, c).ledger) <==> !SetsApart(w, c)
  {
    hide Agree, Coherent, L.Create, L.Import, L.Bridge, L.CreateBatch, L.CreateAsDelegate, L.Revoke, L.RevokeBatch, L.SetExpiration,
         L.Delete, L.Move;
    if Attempt(w, c).Ok? {
      match c.action
      case Create(_, _, _, _, _, _) => CreationAgrees(w, c);
      case Import(_, _, _, _, _, _) => CreationAgrees(w, c);
      case Bridge(_, _, _, _, _) => CreationAgrees(w, c);
      case CreateAsDelegate(_, _, _, _, _, _) => CreationAgrees(w, c);
      case CreateBatch(_, _, _, _) => BatchAgrees(w, c);
      case Revoke(_, _, _) => RevokeAgrees(w, c);
      case Renew(_, _, _) => OtherAgrees(w, c);
      case UpdateExpiration(_, _, _) => OtherAgrees(w, c);
      case Delete(_, _) => OtherAgrees(w, c);
      case Transfer(ad, id, n) =>
        if w.ledger.records[id].issuer != n { TransferDisagrees(w.ledger, c.env, ad, id, n); }
      case RevokeBatch(i, ids, r) =>
        if ids == [] { EmptyBatch(w, c); } else { RevokeBatchDisagrees(w.ledger, c.env, i, ids, r); }
      case _ => ProtocolAgrees(w, c);
    }
  }

  lemma EmptyBatch(w: World, c: Call)
    requires c.action.RevokeBatch? && c.action.ids == []
    ensures Apply(w, c).ledger == w.ledger
  {
  }
}
