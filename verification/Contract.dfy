/** The contract as an object over its storage, and the entry points that change it (src/attestation.rs,
    src/multisig.rs, src/request.rs, src/admin.rs, src/storage.rs). A call works on the storage of its
    transaction, which is committed only when the call succeeds. Each entry point is proved to do what
    the step functions of the run model say. */
module Contract {
  import opened Types
  import opened Sequences
  import opened Worlds
  import opened ChunkedIndex
  import opened Coherence
  import Decimal
  import Runs
  import L = Ledger
  import D = Delegations
  import M = Multisig
  import R = Requests

  /** The persistent storage entries, one map per kind of key. */
  datatype Storage = Storage(
    records: map<Id, Attestation>,
    bySubject: map<Address, seq<Id>>,
    byIssuer: map<Address, seq<Id>>,
    valid: map<Address, seq<Id>>,
    subjectChunks: Chunks,
    issuerChunks: Chunks,
    logs: map<Id, seq<AuditEntry>>,
    issued: map<Address, nat>,
    attestations: nat,
    revocations: nat,
    lastIssued: map<Address, nat>,
    proposals: map<Id, Proposal>,
    requests: map<Id, Request>,
    pending: map<Address, seq<Id>>,
    delegations: map<(Address, Address, ClaimType), Delegation>,
    delegatorIndex: map<Address, seq<(Address, ClaimType)>>)

  /** What the chunk stores stand for, and the history variables of the ledger. */
  datatype Ghosts = Ghosts(
    subjectIndex: map<Address, seq<Id>>, issuerIndex: map<Address, seq<Id>>, order: seq<Id>, stale: set<Id>)

  ghost function Book(st: Storage, g: Ghosts): L.Ledger {
    L.Ledger(st.records, st.bySubject, st.byIssuer, st.valid, g.subjectIndex, g.issuerIndex, st.logs, st.issued,
             st.attestations, st.revocations, st.lastIssued, g.order, g.stale)
  }

  ghost function Abstract(st: Storage, g: Ghosts): World {
    World(Book(st, g), st.proposals, st.requests, st.pending, st.delegations, st.delegatorIndex)
  }

  ghost predicate Sound(st: Storage, g: Ghosts) {
    Holds(st.subjectChunks, g.subjectIndex) && Holds(st.issuerChunks, g.issuerIndex)
  }

  /** The chunked subject index refines the valid list: in every coherent state its chunks are exactly
      those of that list. */
  lemma ChunksRefineValid(st: Storage, g: Ghosts, subject: Address)
    requires Sound(st, g) && Coherent(Book(st, g))
    ensures var n := ChunkCount(|Read(st.valid, subject)|);
      && Stores(st.subjectChunks, subject, Read(st.valid, subject))
      && Contiguous(st.subjectChunks, subject, n) && Joined(st.subjectChunks, subject, n) == Read(st.valid, subject)
      && (forall i: nat :: i + 1 < n ==> |st.subjectChunks[(subject, i)]| == 50)
      && (n > 0 ==> 0 < |st.subjectChunks[(subject, n - 1)]| <= 50)
  {
    hide OrderOk, IssuerListsOk, LogsOk, IssuedOk, Keyed;
    assert Stores(st.subjectChunks, subject, Read(g.subjectIndex, subject));
    assert Read(Book(st, g).subjectChunks, subject) == Read(Book(st, g).valid, subject);
    StoredShape(st.subjectChunks, subject, Read(st.valid, subject));
  }

  /** A call ends as its step function says; a rejected call is rolled back. */
  ghost predicate Outcome<T>(step: Result<World>, before: World, after: World, r: Result<T>) {
    match step
    case Ok(w) => r.Ok? && after == w
    case Err(e) => r == Err(e) && after == before
  }

  ghost predicate LedgerOutcome<T>(step: Result<L.Ledger>, before: World, after: World, r: Result<T>) {
    match step
    case Ok(l) => r.Ok? && after == before.(ledger := l)
    case Err(e) => r == Err(e) && after == before
  }

  /** The read-modify-write shared by `remove_subject_attestation`, `remove_issuer_attestation`,
      `remove_valid_attestation` and `remove_pending_request`. */
  method RemoveEntry(lists: map<Address, seq<Id>>, owner: Address, id: Id) returns (updated: map<Address, seq<Id>>)
    ensures updated == Drop(lists, owner, id)
    ensures id !in Read(updated, owner) && forall x :: x != owner ==> Read(updated, x) == Read(lists, x)
  {
    var list := RemoveFromList(Read(lists, owner), id);
    updated := lists[owner := list];
  }

  /** `append_audit_entry`. */
  function Logged(logs: map<Id, seq<AuditEntry>>, id: Id, entry: AuditEntry): map<Id, seq<AuditEntry>> {
    logs[id := L.LogOf(logs, id) + [entry]]
  }

  // ---------------------------------------------------------------- storing

  /** The per-subject writes of storing a record. */
  method StoreForSubject(st: Storage, ghost g: Ghosts, a: Attestation) returns (st': Storage, ghost g': Ghosts)
    requires Sound(st, g)
    ensures Sound(st', g') && Abstract(st', g') == Abstract(st, g).(ledger := L.StoreForSubject(Book(st, g), a))
  {
    hide Holds, Push;
    var chunks := Add(st.subjectChunks, g.subjectIndex, a.subject, a.id);
    st' := st.(records := st.records[a.id := a],
               bySubject := Push(st.bySubject, a.subject, a.id),
               valid := Push(st.valid, a.subject, a.id),
               subjectChunks := chunks);
    g' := g.(subjectIndex := Push(g.subjectIndex, a.subject, a.id), order := g.order + [a.id]);
  }

  /** `store_attestation`; the checked counter increment aborts the whole call at the u64 bound. */
  method StoreAttestation(st: Storage, ghost g: Ghosts, a: Attestation) returns (r: Result<Storage>, ghost g': Ghosts)
    requires Sound(st, g)
    ensures match L.Put(Book(st, g), a)
      case Ok(l) => r.Ok? && Sound(r.value, g') && Abstract(r.value, g') == Abstract(st, g).(ledger := l)
      case Err(e) => r == Err(e)
  {
    hide Holds, Push;
    g' := g;
    if Count(st.issued, a.issuer) >= U64_MAX {
      return Err(Trap), g;
    }
    var s;
    s, g' := StoreForSubject(st, g, a);
    var chunks := Add(s.issuerChunks, g'.issuerIndex, a.issuer, a.id);
    s := s.(byIssuer := Push(s.byIssuer, a.issuer, a.id),
            issuerChunks := chunks,
            issued := s.issued[a.issuer := Count(s.issued, a.issuer) + 1],
            attestations := SaturatingAdd(s.attestations, 1));
    g' := g'.(issuerIndex := Push(g'.issuerIndex, a.issuer, a.id));
    r := Ok(s);
  }

  /** Storing with its `Created` audit entry. */
  method StoreLogged(st: Storage, ghost g: Ghosts, a: Attestation, actor: Address) returns (r: Result<Storage>, ghost g': Ghosts)
    requires Sound(st, g)
    ensures match L.PutLogged(Book(st, g), a, actor)
      case Ok(l) => r.Ok? && Sound(r.value, g') && Abstract(r.value, g') == Abstract(st, g).(ledger := l)
      case Err(e) => r == Err(e)
  {
    hide Holds, L.Put;
    r, g' := StoreAttestation(st, g, a);
    if r.Ok? {
      r := Ok(r.value.(logs := Logged(r.value.logs, a.id, AuditEntry(Created, actor, a.timestamp, None))));
    }
  }

  /** `check_rate_limit`. */
  method CheckRateLimit(lastIssued: map<Address, nat>, env: Env, issuer: Address, claimType: ClaimType) returns (allowed: bool)
    ensures forall l: L.Ledger :: l.lastIssued == lastIssued ==> (allowed <==> L.RateAllows(l, env, issuer, claimType))
  {
    var interval := 0;
    if claimType in env.claimInterval {
      interval := env.claimInterval[claimType];
    } else if env.globalInterval.Some? {
      interval := env.globalInterval.value;
    } else {
      return true;
    }
    if interval == 0 {
      return true;
    }
    if issuer in lastIssued && SaturatingSub(env.now, lastIssued[issuer]) < interval {
      return false;
    }
    return true;
  }

  // ---------------------------------------------------------------- batch loops

  /** One record of a batch: the per-subject writes and the audit entry. */
  method BatchStep(st: Storage, ghost g: Ghosts, a: Attestation, actor: Address) returns (st': Storage, ghost g': Ghosts)
    requires Sound(st, g)
    ensures Sound(st', g')
    ensures Abstract(st', g') == Abstract(st, g).(
              ledger := L.Append(L.StoreForSubject(Book(st, g), a), a.id, L.CreatedBy(actor, a.timestamp)))
  {
    hide Holds, L.StoreForSubject;
    st', g' := StoreForSubject(st, g, a);
    st' := st'.(logs := Logged(st'.logs, a.id, AuditEntry(Created, actor, a.timestamp, None)));
  }

  /** The loop of `create_attestations_batch`. */
  method BatchLoop(st: Storage, ghost g: Ghosts, env: Env, issuer: Address, subjects: seq<Address>, claimType: ClaimType,
                   expiration: Option<nat>) returns (r: Result<Storage>, ids: seq<Id>, ghost g': Ghosts)
    requires Sound(st, g)
    ensures match L.BatchLoop(Book(st, g), env, issuer, subjects, claimType, expiration)
      case Ok(l) => r.Ok? && Sound(r.value, g') && Abstract(r.value, g') == Abstract(st, g).(ledger := l)
                    && ids == L.BatchIds(env, issuer, subjects, claimType)
      case Err(e) => r == Err(e)
  {
    hide Holds, L.StoreForSubject, L.BatchIds, L.Append;
    var s := st;
    g' := g;
    ids := [];
    ghost var all := L.BatchIds(env, issuer, subjects, claimType);
    for i := 0 to |subjects|
      invariant Sound(s, g') && Abstract(s, g') == Abstract(st, g).(ledger := Book(s, g'))
      invariant L.BatchLoop(Book(s, g'), env, issuer, subjects[i..], claimType, expiration)
             == L.BatchLoop(Book(st, g), env, issuer, subjects, claimType, expiration)
      invariant ids == all[..i]
    {
      var subject := subjects[i];
      assert subjects[i..][0] == subject && subjects[i..][1..] == subjects[i + 1..];
      var id := env.attestationId(issuer, subject, claimType, env.now);
      if id in s.records { return Err(DuplicateAttestation), ids, g'; }
      if |Read(s.bySubject, subject)| >= env.limits.perSubject { return Err(LimitExceeded), ids, g'; }
      var a := L.NewRecord(id, issuer, subject, claimType, env.now, expiration);
      s, g' := BatchStep(s, g', a, issuer);
      ids := ids + [id];
    }
    r := Ok(s);
  }

  /** The deferred issuer-side writes of a batch, one per structure. */
  method FinishBatch(st: Storage, ghost g: Ghosts, env: Env, issuer: Address, ids: seq<Id>) returns (st': Storage, ghost g': Ghosts)
    requires Sound(st, g)
    ensures Sound(st', g') && Abstract(st', g') == Abstract(st, g).(ledger := L.FinishBatch(Book(st, g), env, issuer, ids))
  {
    hide Holds, Read;
    var byIssuer := st.byIssuer;
    if ids != [] {
      var list := Read(byIssuer, issuer);
      for i := 0 to |ids|
        invariant list == Read(byIssuer, issuer) + ids[..i]
      {
        list := list + [ids[i]];
      }
      assert ids[..|ids|] == ids;
      byIssuer := byIssuer[issuer := list];
    }
    var chunks := AddBulk(st.issuerChunks, g.issuerIndex, issuer, ids);
    st' := st.(byIssuer := byIssuer,
               issuerChunks := chunks,
               issued := st.issued[issuer := SaturatingAdd(Count(st.issued, issuer), |ids|)],
               attestations := SaturatingAdd(st.attestations, |ids|),
               lastIssued := st.lastIssued[issuer := env.now]);
    g' := g.(issuerIndex := g.issuerIndex[issuer := Read(g.issuerIndex, issuer) + ids]);
  }

  method Contains<T(==)>(xs: seq<T>, x: T) returns (found: bool)
    ensures found <==> x in xs
  {
    found := false;
    for i := 0 to |xs|
      invariant !found && x !in xs[..i]
    {
      if xs[i] == x { return true; }
    }
  }

  /** First loop of `revoke_attestations_batch`. */
  method GatherBatch(st: Storage, ghost g: Ghosts, issuer: Address, ids: seq<Id>) returns (r: Result<seq<Attestation>>)
    ensures r == L.Gather(Book(st, g), issuer, ids, [])
    ensures r.Ok? ==> |r.value| == |ids|
  {
    var seen: seq<Id>, batch: seq<Attestation> := [], [];
    assert ids[0..] == ids;
    assert forall rest: seq<Attestation> :: [] + rest == rest;
    for i := 0 to |ids|
      invariant seen == ids[..i] && |batch| == i
      invariant match L.Gather(Book(st, g), issuer, ids[i..], seen)
        case Err(e) => L.Gather(Book(st, g), issuer, ids, []) == Err(e)
        case Ok(rest) => L.Gather(Book(st, g), issuer, ids, []) == Ok(batch + rest)
    {
      var id := ids[i];
      assert ids[i..][0] == id && ids[i..][1..] == ids[i + 1..];
      var duplicate := Contains(seen, id);
      if duplicate { return Err(DuplicateAttestation); }
      if id !in st.records { return Err(NotFound); }
      var a := st.records[id];
      if a.issuer != issuer { return Err(Unauthorized); }
      if a.revoked { return Err(AlreadyRevoked); }
      seen := seen + [id];
      assert forall rest: seq<Attestation> :: batch + ([a] + rest) == (batch + [a]) + rest;
      batch := batch + [a];
    }
    assert batch + [] == batch;
    r := Ok(batch);
  }

  /** Second loop of `revoke_attestations_batch`, over the snapshots. */
  method RevokeGathered(st: Storage, ghost g: Ghosts, env: Env, issuer: Address, batch: seq<Attestation>, reason: Option<string>)
      returns (st': Storage, ghost g': Ghosts, count: nat)
    requires Sound(st, g)
    ensures Sound(st', g') && count == |batch|
    ensures Abstract(st', g') == Abstract(st, g).(ledger := L.RevokeSnapshots(Book(st, g), env, issuer, batch, reason))
  {
    hide Holds, Drop, Read;
    st', g', count := st, g, 0;
    for i := 0 to |batch|
      invariant count == i && Sound(st', g') && Abstract(st', g') == Abstract(st, g).(ledger := Book(st', g'))
      invariant L.RevokeSnapshots(Book(st', g'), env, issuer, batch[i..], reason)
             == L.RevokeSnapshots(Book(st, g), env, issuer, batch, reason)
    {
      var a := batch[i];
      assert batch[i..][0] == a && batch[i..][1..] == batch[i + 1..];
      var bySubject := RemoveEntry(st'.bySubject, a.subject, a.id);
      var byIssuer := RemoveEntry(st'.byIssuer, issuer, a.id);
      st' := st'.(records := st'.records[a.id := a.(revoked := true, revocationReason := reason)],
                  bySubject := bySubject, byIssuer := byIssuer,
                  logs := Logged(st'.logs, a.id, AuditEntry(Revoked, issuer, env.now, reason)));
      g' := g'.(stale := g'.stale + {a.id});
      count := count + 1;
    }
  }

  class Contract {
    var store: Storage
    ghost var ghosts: Ghosts

    ghost function View(): World
      reads this
    {
      Abstract(store, ghosts)
    }

    ghost predicate Valid()
      reads this
    {
      Sound(store, ghosts)
    }

    constructor ()
      ensures Valid() && View() == INITIAL
    {
      store := Storage(map[], map[], map[], map[], map[], map[], map[], map[], 0, 0, map[], map[], map[], map[], map[], map[]);
      ghosts := Ghosts(map[], map[], [], {});
    }

    // -------------------------------------------------------------- creation

    /** `create_attestation_internal`. */
    method CreateAttestation(env: Env, issuer: Address, subject: Address, claimType: ClaimType, expiration: Option<nat>,
                             metadata: Option<string>, validFrom: Option<nat>) returns (r: Result<Id>)
      requires Valid()
      modifies this
      ensures Valid()
      ensures LedgerOutcome(L.Create(old(View()).ledger, env, issuer, subject, claimType, expiration, metadata, validFrom),
                            old(View()), View(), r)
      ensures r.Ok? ==> r.value == env.attestationId(issuer, subject, claimType, env.now)
    {
      hide Holds, L.PutLogged, L.RateAllows;
      var st := store;
      if env.paused { return Err(ContractPaused); }
      if issuer !in env.issuers { return Err(Unauthorized); }
      if expiration.Some? && expiration.value <= env.now { return Err(InvalidExpiration); }
      if validFrom.Some? && validFrom.value <= env.now { return Err(InvalidValidFrom); }
      if issuer == subject { return Err(Unauthorized); }
      var allowed := CheckRateLimit(st.lastIssued, env, issuer, claimType);
      assert allowed <==> L.RateAllows(Book(st, ghosts), env, issuer, claimType);
      if !allowed { return Err(RateLimited); }
      if |Read(st.byIssuer, issuer)| >= env.limits.perIssuer { return Err(LimitExceeded); }
      if |Read(st.bySubject, subject)| >= env.limits.perSubject { return Err(LimitExceeded); }
      var id := env.attestationId(issuer, subject, claimType, env.now);
      if id in st.records { return Err(DuplicateAttestation); }
      var a := Attestation(id, issuer, subject, claimType, env.now, expiration, validFrom, Native, metadata, false, None, false);
      var stored, g := StoreLogged(st, ghosts, a, issuer);
      if stored.Err? { return Err(stored.error); }
      st := stored.value;
      st := st.(lastIssued := st.lastIssued[issuer := env.now]);
      store, ghosts := st, g;
      return Ok(id);
    }

    /** `import_attestation`. */
    method ImportAttestation(env: Env, admin: Address, issuer: Address, subject: Address, claimType: ClaimType,
                             timestamp: nat, expiration: Option<nat>) returns (r: Result<Id>)
      requires Valid()
      modifies this
      ensures Valid()
      ensures LedgerOutcome(L.Import(old(View()).ledger, env, admin, issuer, subject, claimType, timestamp, expiration),
                            old(View()), View(), r)
      ensures r.Ok? ==> r.value == env.attestationId(issuer, subject, claimType, timestamp)
    {
      hide Holds, L.PutLogged;
      if env.council.None? { return Err(NotInitialized); }
      if admin !in env.council.value { return Err(Unauthorized); }
      if env.paused { return Err(ContractPaused); }
      if issuer !in env.issuers { return Err(Unauthorized); }
      if timestamp > env.now { return Err(InvalidTimestamp); }
      if expiration.Some? && expiration.value <= timestamp { return Err(InvalidExpiration); }
      var id := env.attestationId(issuer, subject, claimType, timestamp);
      if id in store.records { return Err(DuplicateAttestation); }
      var a := Attestation(id, issuer, subject, claimType, timestamp, expiration, None, Imported, None, false, None, false);
      var stored, g := StoreLogged(store, ghosts, a, admin);
      if stored.Err? { return Err(stored.error); }
      store, ghosts := stored.value, g;
      return Ok(id);
    }

    /** `bridge_attestation`. */
    method BridgeAttestation(env: Env, bridge: Address, subject: Address, claimType: ClaimType, chain: string, tx: string)
        returns (r: Result<Id>)
      requires Valid()
      modifies this
      ensures Valid()
      ensures LedgerOutcome(L.Bridge(old(View()).ledger, env, bridge, subject, claimType, chain, tx), old(View()), View(), r)
      ensures r.Ok? ==> r.value == env.bridgeId(bridge, subject, claimType, chain, tx, env.now)
    {
      hide Holds, L.PutLogged;
      if bridge !in env.bridges { return Err(Unauthorized); }
      if env.paused { return Err(ContractPaused); }
      if chain == "" || tx == "" { return Err(InvalidSourceReference); }
      if |chain| > 32 || |tx| > 128 { return Err(MetadataTooLong); }
      var id := env.bridgeId(bridge, subject, claimType, chain, tx, env.now);
      if id in store.records { return Err(DuplicateAttestation); }
      var a := Attestation(id, bridge, subject, claimType, env.now, None, None, Bridged(chain, tx), None, false, None, false);
      var stored, g := StoreLogged(store, ghosts, a, bridge);
      if stored.Err? { return Err(stored.error); }
      store, ghosts := stored.value, g;
      return Ok(id);
    }

    /** `create_attestation_as_delegate`. */
    method CreateAttestationAsDelegate(env: Env, delegate: Address, delegator: Address, subject: Address,
                                       claimType: ClaimType, expiration: Option<nat>, metadata: Option<string>)
        returns (r: Result<Id>)
      requires Valid()
      modifies this
      ensures Valid()
      ensures LedgerOutcome(L.CreateAsDelegate(old(View()).ledger, env, Runs.Lookup(old(View()), delegator, delegate, claimType),
                                               delegate, delegator, subject, claimType, expiration, metadata),
                            old(View()), View(), r)
      ensures r.Ok? ==> r.value == env.attestationId(delegator, subject, claimType, env.now)
    {
      hide Holds, L.PutLogged;
      if env.paused { return Err(ContractPaused); }
      if delegator !in env.issuers { return Err(Unauthorized); }
      if expiration.Some? && expiration.value <= env.now { return Err(InvalidExpiration); }
      var key := (delegator, delegate, claimType);
      if key !in store.delegations { return Err(Unauthorized); }
      var until := store.delegations[key].expiration;
      if until.Some? && env.now >= until.value { return Err(Unauthorized); }
      if delegator == subject { return Err(Unauthorized); }
      if |Read(store.byIssuer, delegator)| >= env.limits.perIssuer { return Err(LimitExceeded); }
      if |Read(store.bySubject, subject)| >= env.limits.perSubject { return Err(LimitExceeded); }
      var id := env.attestationId(delegator, subject, claimType, env.now);
      if id in store.records { return Err(DuplicateAttestation); }
      var a := Attestation(id, delegator, subject, claimType, env.now, expiration, None, Native, metadata, false, None, false);
      var stored, g := StoreLogged(store, ghosts, a, delegate);
      if stored.Err? { return Err(stored.error); }
      store, ghosts := stored.value, g;
      return Ok(id);
    }

    /** `create_attestations_batch`: the loop stops at the first bad subject, and then nothing of the
        batch is kept. */
    method CreateAttestationsBatch(env: Env, issuer: Address, subjects: seq<Address>, claimType: ClaimType,
                                   expiration: Option<nat>) returns (r: Result<seq<Id>>)
      requires Valid()
      modifies this
      ensures Valid()
      ensures LedgerOutcome(L.CreateBatch(old(View()).ledger, env, issuer, subjects, claimType, expiration),
                            old(View()), View(), r)
      ensures r.Ok? ==> r.value == L.BatchIds(env, issuer, subjects, claimType)
    {
      hide Holds, L.RateAllows;
      if issuer !in env.issuers { return Err(Unauthorized); }
      if env.paused { return Err(ContractPaused); }
      if expiration.Some? && expiration.value <= env.now { return Err(InvalidExpiration); }
      var allowed := CheckRateLimit(store.lastIssued, env, issuer, claimType);
      assert allowed <==> L.RateAllows(Book(store, ghosts), env, issuer, claimType);
      if !allowed { return Err(RateLimited); }
      if Min(|Read(store.byIssuer, issuer)| + |subjects|, U32_MAX) > env.limits.perIssuer { return Err(LimitExceeded); }
      var looped, ids, g := BatchLoop(store, ghosts, env, issuer, subjects, claimType, expiration);
      if looped.Err? { return Err(looped.error); }
      var st;
      st, g := FinishBatch(looped.value, g, env, issuer, ids);
      store, ghosts := st, g;
      return Ok(ids);
    }

    /** `revoke_attestation`. */
    method RevokeAttestation(env: Env, issuer: Address, id: Id, reason: Option<string>) returns (r: Result<()>)
      requires Valid()
      modifies this
      ensures Valid() && LedgerOutcome(L.Revoke(old(View()).ledger, env, issuer, id, reason), old(View()), View(), r)
    {
      hide Holds, Drop, Read;
      var st := store;
      if env.paused { return Err(ContractPaused); }
      if issuer !in env.issuers { return Err(Unauthorized); }
      if reason.Some? && |reason.value| > MAX_REASON { return Err(ReasonTooLong); }
      if id !in st.records { return Err(NotFound); }
      var a := st.records[id];
      if a.issuer != issuer { return Err(Unauthorized); }
      if a.revoked { return Err(AlreadyRevoked); }
      st := st.(records := st.records[a.id := a.(revoked := true, revocationReason := reason)]);
      var bySubject := RemoveEntry(st.bySubject, a.subject, id);
      var valid := RemoveEntry(st.valid, a.subject, id);
      var byIssuer := RemoveEntry(st.byIssuer, issuer, id);
      var subjectChunks := Remove(st.subjectChunks, ghosts.subjectIndex, a.subject, id);
      var issuerChunks := Remove(st.issuerChunks, ghosts.issuerIndex, issuer, id);
      st := st.(bySubject := bySubject, valid := valid, byIssuer := byIssuer,
                subjectChunks := subjectChunks, issuerChunks := issuerChunks,
                logs := Logged(st.logs, id, AuditEntry(Revoked, issuer, env.now, reason)),
                revocations := SaturatingAdd(st.revocations, 1));
      store, ghosts := st, ghosts.(subjectIndex := Drop(ghosts.subjectIndex, a.subject, id),
                                   issuerIndex := Drop(ghosts.issuerIndex, issuer, id));
      return Ok(());
    }

    /** `revoke_attestations_batch`. */
    method RevokeAttestationsBatch(env: Env, issuer: Address, ids: seq<Id>, reason: Option<string>) returns (r: Result<nat>)
      requires Valid()
      modifies this
      ensures Valid() && LedgerOutcome(L.RevokeBatch(old(View()).ledger, env, issuer, ids, reason), old(View()), View(), r)
      ensures r.Ok? ==> r.value == |ids|
    {
      hide Holds, L.Gather, L.RevokeSnapshots;
      if env.paused { return Err(ContractPaused); }
      if issuer !in env.issuers { return Err(Unauthorized); }
      if reason.Some? && |reason.value| > MAX_REASON { return Err(ReasonTooLong); }
      if |ids| > MAX_REVOKE_BATCH { return Err(LimitExceeded); }
      var gathered := GatherBatch(store, ghosts, issuer, ids);
      if gathered.Err? { return Err(gathered.error); }
      var st, g, count := RevokeGathered(store, ghosts, env, issuer, gathered.value, reason);
      if count > 0 {
        st := st.(revocations := SaturatingAdd(st.revocations, count));
      }
      store, ghosts := st, g;
      return Ok(count);
    }

    // -------------------------------------------------------------- renewal, transfer, deletion

    /** `renew_attestation`. */
    method RenewAttestation(env: Env, issuer: Address, id: Id, expiration: Option<nat>) returns (r: Result<()>)
      requires Valid() && (expiration.Some? ==> expiration.value <= U64_MAX)
      modifies this
      ensures Valid()
      ensures LedgerOutcome(L.SetExpiration(old(View()).ledger, env, issuer, id, expiration, Renewed), old(View()), View(), r)
    {
      hide Holds;
      if issuer !in env.issuers { return Err(Unauthorized); }
      if env.paused { return Err(ContractPaused); }
      if expiration.Some? && expiration.value <= env.now { return Err(InvalidExpiration); }
      if id !in store.records { return Err(NotFound); }
      var a := store.records[id];
      if a.issuer != issuer { return Err(Unauthorized); }
      if a.revoked { return Err(AlreadyRevoked); }
      var details: Option<string> := None;
      if expiration.Some? {
        var numeral := Decimal.FromU64(expiration.value);
        details := Some(numeral);
      }
      store := store.(records := store.records[a.id := a.(expiration := expiration)],
                      logs := Logged(store.logs, id, AuditEntry(Renewed, issuer, env.now, details)));
      return Ok(());
    }

    /** `update_expiration`. */
    method UpdateExpiration(env: Env, issuer: Address, id: Id, expiration: Option<nat>) returns (r: Result<()>)
      requires Valid()
      modifies this
      ensures Valid()
      ensures LedgerOutcome(L.SetExpiration(old(View()).ledger, env, issuer, id, expiration, Updated), old(View()), View(), r)
    {
      hide Holds;
      if issuer !in env.issuers { return Err(Unauthorized); }
      if env.paused { return Err(ContractPaused); }
      if expiration.Some? && expiration.value <= env.now { return Err(InvalidExpiration); }
      if id !in store.records { return Err(NotFound); }
      var a := store.records[id];
      if a.issuer != issuer { return Err(Unauthorized); }
      if a.revoked { return Err(AlreadyRevoked); }
      store := store.(records := store.records[a.id := a.(expiration := expiration)],
                      logs := Logged(store.logs, id, AuditEntry(Updated, issuer, env.now, None)));
      return Ok(());
    }

    /** `transfer_attestation`. */
    method TransferAttestation(env: Env, admin: Address, id: Id, newIssuer: Address) returns (r: Result<()>)
      requires Valid()
      modifies this
      ensures Valid() && LedgerOutcome(L.Transfer(old(View()).ledger, env, admin, id, newIssuer), old(View()), View(), r)
    {
      hide Holds, Drop, Push, Read;
      if env.council.None? { return Err(NotInitialized); }
      if admin !in env.council.value { return Err(Unauthorized); }
      if newIssuer !in env.issuers { return Err(Unauthorized); }
      if id !in store.records { return Err(NotFound); }
      var a := store.records[id];
      var oldIssuer := a.issuer;
      if oldIssuer == newIssuer { return Ok(()); }
      var byIssuer := RemoveEntry(store.byIssuer, oldIssuer, id);
      byIssuer := Push(byIssuer, newIssuer, id);
      var issued := store.issued;
      issued := issued[oldIssuer := SaturatingSub(Count(issued, oldIssuer), 1)];
      issued := issued[newIssuer := SaturatingAdd(Count(issued, newIssuer), 1)];
      store := store.(byIssuer := byIssuer, issued := issued,
                      records := store.records[a.id := a.(issuer := newIssuer)],
                      logs := Logged(store.logs, id, AuditEntry(Transferred(newIssuer), admin, env.now, None)));
      return Ok(());
    }

    /** `request_deletion`. */
    method RequestDeletion(env: Env, subject: Address, id: Id) returns (r: Result<()>)
      requires Valid()
      modifies this
      ensures Valid() && LedgerOutcome(L.Delete(old(View()).ledger, env, subject, id), old(View()), View(), r)
    {
      hide Holds, Drop, Read;
      var st := store;
      ghost var g := ghosts;
      if id !in st.records { return Err(NotFound); }
      var a := st.records[id];
      if a.subject != subject { return Err(Unauthorized); }
      var bySubject := RemoveEntry(st.bySubject, a.subject, id);
      var valid := RemoveEntry(st.valid, a.subject, id);
      var chunks := Remove(st.subjectChunks, g.subjectIndex, a.subject, id);
      st := st.(records := st.records[a.id := a.(deleted := true)],
                bySubject := bySubject, valid := valid, subjectChunks := chunks,
                logs := Logged(st.logs, id, AuditEntry(Deleted, a.subject, env.now, None)));
      store, ghosts := st, g.(subjectIndex := Drop(g.subjectIndex, a.subject, id));
      return Ok(());
    }

    // -------------------------------------------------------------- multisig

    /** `propose_attestation`. */
    method ProposeAttestation(env: Env, proposer: Address, subject: Address, claimType: ClaimType,
                              requiredSigners: seq<Address>, threshold: nat) returns (r: Result<Id>)
      requires Valid()
      modifies this
      ensures Valid()
      ensures r.Ok? ==> r.value == if claimType == "ACCREDITED_INVESTOR" && proposer in env.premium
                                   then env.attestationId(proposer, subject, claimType, env.now)
                                   else env.proposalId(proposer, subject, claimType, env.now)
      ensures Outcome(M.Propose(old(View()), env, proposer, subject, claimType, requiredSigners, threshold),
                      old(View()), View(), r)
    {
      hide Holds, L.Put;
      if proposer !in env.issuers { return Err(Unauthorized); }
      if env.paused { return Err(ContractPaused); }
      if claimType == ACCREDITED && proposer in env.premium {
        var id := env.attestationId(proposer, subject, claimType, env.now);
        var stored, g := StoreAttestation(store, ghosts, L.NewRecord(id, proposer, subject, claimType, env.now, None));
        if stored.Err? { return Err(stored.error); }
        store, ghosts := stored.value, g;
        return Ok(id);
      }
      for i := 0 to |requiredSigners|
        invariant store == old(store) && ghosts == old(ghosts)
        invariant forall j :: 0 <= j < i ==> requiredSigners[j] in env.issuers
      {
        if requiredSigners[i] !in env.issuers { return Err(Unauthorized); }
      }
      if threshold == 0 || threshold > |requiredSigners| { return Err(InvalidThreshold); }
      if env.now + SEVEN_DAYS > U64_MAX { return Err(Trap); }
      var id := env.proposalId(proposer, subject, claimType, env.now);
      var proposal := Proposal(id, proposer, subject, claimType, requiredSigners, threshold, [proposer],
                               env.now, env.now + SEVEN_DAYS, false);
      store := store.(proposals := store.proposals[id := proposal]);
      return Ok(id);
    }

    /** `cosign_attestation`. */
    method CosignAttestation(env: Env, issuer: Address, id: Id) returns (r: Result<()>)
      requires Valid()
      modifies this
      ensures Valid() && Outcome(M.Cosign(old(View()), env, issuer, id), old(View()), View(), r)
    {
      hide Holds, L.Put;
      if issuer !in env.issuers { return Err(Unauthorized); }
      if env.paused { return Err(ContractPaused); }
      if id !in store.proposals { return Err(NotFound); }
      var proposal := store.proposals[id];
      if proposal.finalized { return Err(ProposalFinalized); }
      if env.now >= proposal.expiresAt { return Err(ProposalExpired); }
      var isRequired := Contains(proposal.requiredSigners, issuer);
      if !isRequired { return Err(NotRequiredSigner); }
      var hasSigned := Contains(proposal.signers, issuer);
      if hasSigned { return Err(AlreadySigned); }
      proposal := proposal.(signers := proposal.signers + [issuer]);
      if |proposal.signers| >= proposal.threshold {
        proposal := proposal.(finalized := true);
        var attestationId := env.attestationId(proposal.proposer, proposal.subject, proposal.claimType, proposal.createdAt);
        var a := L.NewRecord(attestationId, proposal.proposer, proposal.subject, proposal.claimType, proposal.createdAt, None);
        var stored, g := StoreAttestation(store, ghosts, a);
        if stored.Err? { return Err(stored.error); }
        store, ghosts := stored.value.(proposals := stored.value.proposals[proposal.id := proposal]), g;
      } else {
        store := store.(proposals := store.proposals[proposal.id := proposal]);
      }
      return Ok(());
    }

    // -------------------------------------------------------------- requests

    /** `request_attestation`. */
    method RequestAttestation(env: Env, subject: Address, issuer: Address, claimType: ClaimType) returns (r: Result<Id>)
      requires Valid()
      modifies this
      ensures Valid() && Outcome(R.Submit(old(View()), env, subject, issuer, claimType), old(View()), View(), r)
      ensures r.Ok? ==> r.value == env.requestId(subject, issuer, claimType, env.now)
    {
      hide Holds, Push;
      if env.paused { return Err(ContractPaused); }
      if issuer !in env.issuers { return Err(Unauthorized); }
      var id := env.requestId(subject, issuer, claimType, env.now);
      if id in store.requests { return Err(DuplicateRequest); }
      if env.now + SEVEN_DAYS > U64_MAX { return Err(Trap); }
      var request := Request(id, subject, issuer, claimType, env.now, env.now + SEVEN_DAYS, Waiting, None);
      store := store.(requests := store.requests[id := request], pending := Push(store.pending, issuer, id));
      return Ok(id);
    }

    /** `fulfill_request`. */
    method FulfillRequest(env: Env, issuer: Address, id: Id, expiration: Option<nat>) returns (r: Result<Id>)
      requires Valid()
      modifies this
      ensures Valid() && Outcome(R.Fulfill(old(View()), env, issuer, id, expiration), old(View()), View(), r)
      ensures r.Ok? ==> id in old(store.requests)
      ensures r.Ok? ==> r.value == env.attestationId(issuer, old(store.requests)[id].subject, old(store.requests)[id].claimType, env.now)
    {
      hide Holds, L.Put, Drop;
      if env.paused { return Err(ContractPaused); }
      if issuer !in env.issuers { return Err(Unauthorized); }
      if id !in store.requests { return Err(NotFound); }
      var request := store.requests[id];
      if request.issuer != issuer { return Err(Unauthorized); }
      if request.status != Waiting { return Err(RequestAlreadyProcessed); }
      if env.now >= request.expiresAt { return Err(RequestExpired); }
      if expiration.Some? && expiration.value <= env.now { return Err(InvalidExpiration); }
      var attestationId := env.attestationId(issuer, request.subject, request.claimType, env.now);
      if attestationId in store.records { return Err(DuplicateAttestation); }
      if |Read(store.byIssuer, issuer)| >= env.limits.perIssuer { return Err(LimitExceeded); }
      if |Read(store.bySubject, request.subject)| >= env.limits.perSubject { return Err(LimitExceeded); }
      var pending := RemoveEntry(store.pending, issuer, id);
      var a := L.NewRecord(attestationId, issuer, request.subject, request.claimType, env.now, expiration);
      var stored, g := StoreAttestation(store, ghosts, a);
      if stored.Err? { return Err(stored.error); }
      store, ghosts := stored.value.(requests := stored.value.requests[request.id := request.(status := Fulfilled)],
                                     pending := pending), g;
      return Ok(attestationId);
    }

    /** `reject_request`. */
    method RejectRequest(env: Env, issuer: Address, id: Id, reason: Option<string>) returns (r: Result<()>)
      requires Valid()
      modifies this
      ensures Valid() && Outcome(R.Reject(old(View()), env, issuer, id, reason), old(View()), View(), r)
    {
      hide Holds, Drop;
      if env.paused { return Err(ContractPaused); }
      if issuer !in env.issuers { return Err(Unauthorized); }
      if reason.Some? && |reason.value| > MAX_REASON { return Err(ReasonTooLong); }
      if id !in store.requests { return Err(NotFound); }
      var request := store.requests[id];
      if request.issuer != issuer { return Err(Unauthorized); }
      if request.status != Waiting { return Err(RequestAlreadyProcessed); }
      if env.now >= request.expiresAt { return Err(RequestExpired); }
      var pending := RemoveEntry(store.pending, issuer, id);
      store := store.(requests := store.requests[request.id := request.(status := Rejected, rejectionReason := reason)],
                      pending := pending);
      return Ok(());
    }

    /** `cancel_request`. */
    method CancelRequest(env: Env, subject: Address, id: Id) returns (r: Result<()>)
      requires Valid()
      modifies this
      ensures Valid() && Outcome(R.Cancel(old(View()), env, subject, id), old(View()), View(), r)
    {
      hide Holds, Drop;
      if env.paused { return Err(ContractPaused); }
      if id !in store.requests { return Err(NotFound); }
      var request := store.requests[id];
      if request.subject != subject { return Err(Unauthorized); }
      if request.status != Waiting { return Err(RequestAlreadyProcessed); }
      var pending := RemoveEntry(store.pending, request.issuer, id);
      store := store.(requests := store.requests[request.id := request.(status := Cancelled)], pending := pending);
      return Ok(());
    }

    // -------------------------------------------------------------- delegation

    /** `delegate_claim_type`. */
    method DelegateClaimType(env: Env, issuer: Address, delegate: Address, claimType: ClaimType, expiration: Option<nat>)
        returns (r: Result<()>)
      requires Valid()
      modifies this
      ensures Valid() && Outcome(D.Grant(old(View()), env, issuer, delegate, claimType, expiration), old(View()), View(), r)
    {
      hide Holds;
      if issuer !in env.issuers { return Err(Unauthorized); }
      if issuer == delegate { return Err(CannotDelegateToSelf); }
      if expiration.Some? && expiration.value <= env.now { return Err(InvalidExpiration); }
      store := store.(delegations := store.delegations[(issuer, delegate, claimType) :=
                                                       Delegation(issuer, delegate, claimType, expiration)]);
      var index := if issuer in store.delegatorIndex then store.delegatorIndex[issuer] else [];
      var entry := (delegate, claimType);
      if entry !in index {
        store := store.(delegatorIndex := store.delegatorIndex[issuer := index + [entry]]);
      }
      return Ok(());
    }

    /** `revoke_delegation`. */
    method RevokeDelegation(env: Env, issuer: Address, delegate: Address, claimType: ClaimType) returns (r: Result<()>)
      requires Valid()
      modifies this
      ensures Valid() && Outcome(D.Withdraw(old(View()), env, issuer, delegate, claimType), old(View()), View(), r)
    {
      hide Holds;
      if issuer !in env.issuers { return Err(Unauthorized); }
      if (issuer, delegate, claimType) !in store.delegations { return Err(NotFound); }
      var existing := if issuer in store.delegatorIndex then store.delegatorIndex[issuer] else [];
      var updated := RemoveFromList(existing, (delegate, claimType));
      store := store.(delegations := store.delegations - {(issuer, delegate, claimType)},
                      delegatorIndex := store.delegatorIndex[issuer := updated]);
      return Ok(());
    }
  }
}
