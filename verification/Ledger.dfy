/** What each entry point of src/attestation.rs does to the stored state, as a function of that
    state. `Contract.dfy` proves the imperative entry points against these functions. */
module Ledger {
  import opened Types
  import opened Sequences
  import Decimal

  /** The attestation records and everything derived from them. `order` and `stale` are history
      variables that no code reads: the ids in order of first storage, and the ids revoked in a batch. */
  datatype Ledger = Ledger(
    records: map<Id, Attestation>,
    bySubject: map<Address, seq<Id>>,
    byIssuer: map<Address, seq<Id>>,
    valid: map<Address, seq<Id>>,
    subjectChunks: map<Address, seq<Id>>,
    issuerChunks: map<Address, seq<Id>>,
    logs: map<Id, seq<AuditEntry>>,
    issued: map<Address, nat>,
    attestations: nat,
    revocations: nat,
    lastIssued: map<Address, nat>,
    order: seq<Id>,
    stale: set<Id>)

  const EMPTY: Ledger :=
    Ledger(map[], map[], map[], map[], map[], map[], map[], map[], 0, 0, map[], [], {})

  function LogOf(logs: map<Id, seq<AuditEntry>>, id: Id): seq<AuditEntry> {
    if id in logs then logs[id] else []
  }

  /** `Storage::append_audit_entry`. */
  function Append(l: Ledger, id: Id, entry: AuditEntry): Ledger {
    l.(logs := l.logs[id := LogOf(l.logs, id) + [entry]])
  }

  // ---------------------------------------------------------------- storing

  /** The per-subject half of storing a record; a batch creation defers the other half. */
  function StoreForSubject(l: Ledger, a: Attestation): Ledger {
    l.(records := l.records[a.id := a],
       bySubject := Push(l.bySubject, a.subject, a.id),
       valid := Push(l.valid, a.subject, a.id),
       subjectChunks := Push(l.subjectChunks, a.subject, a.id),
       order := l.order + [a.id])
  }

  /** `store_attestation`. */
  function Store(l: Ledger, a: Attestation): Ledger {
    StoreForSubject(l, a).(
      byIssuer := Push(l.byIssuer, a.issuer, a.id),
      issuerChunks := Push(l.issuerChunks, a.issuer, a.id),
      issued := l.issued[a.issuer := Count(l.issued, a.issuer) + 1],
      attestations := SaturatingAdd(l.attestations, 1))
  }

  /** `store_attestation` as a call: the issuer counter is incremented with an overflow check. */
  function Put(l: Ledger, a: Attestation): Result<Ledger> {
    if Count(l.issued, a.issuer) >= U64_MAX then Err(Trap) else Ok(Store(l, a))
  }

  function CreatedBy(actor: Address, timestamp: nat): AuditEntry {
    AuditEntry(Created, actor, timestamp, None)
  }

  function PutLogged(l: Ledger, a: Attestation, actor: Address): Result<Ledger> {
    match Put(l, a)
    case Err(e) => Err(e)
    case Ok(l1) => Ok(Append(l1, a.id, CreatedBy(actor, a.timestamp)))
  }

  function NewRecord(id: Id, issuer: Address, subject: Address, claimType: ClaimType, timestamp: nat,
                     expiration: Option<nat>): Attestation
  {
    Attestation(id, issuer, subject, claimType, timestamp, expiration, None, Native, None, false, None, false)
  }

  // ---------------------------------------------------------------- creation paths

  predicate FutureOrNone(t: Option<nat>, now: nat) { t.None? || t.value > now }

  /** The interval in force for a claim type: its own limit, else the global one, else none. */
  function Interval(env: Env, claimType: ClaimType): nat {
    if claimType in env.claimInterval then env.claimInterval[claimType]
    else if env.globalInterval.Some? then env.globalInterval.value
    else 0
  }

  /** `check_rate_limit`. */
  predicate RateAllows(l: Ledger, env: Env, issuer: Address, claimType: ClaimType) {
    Interval(env, claimType) == 0 || issuer !in l.lastIssued ||
    SaturatingSub(env.now, l.lastIssued[issuer]) >= Interval(env, claimType)
  }

  /** `create_attestation_internal`. */
  function Create(l: Ledger, env: Env, issuer: Address, subject: Address, claimType: ClaimType,
                  expiration: Option<nat>, metadata: Option<string>, validFrom: Option<nat>): Result<Ledger>
  {
    var id := env.attestationId(issuer, subject, claimType, env.now);
    if env.paused then Err(ContractPaused)
    else if issuer !in env.issuers then Err(Unauthorized)
    else if !FutureOrNone(expiration, env.now) then Err(InvalidExpiration)
    else if !FutureOrNone(validFrom, env.now) then Err(InvalidValidFrom)
    else if issuer == subject then Err(Unauthorized)
    else if !RateAllows(l, env, issuer, claimType) then Err(RateLimited)
    else if |Read(l.byIssuer, issuer)| >= env.limits.perIssuer then Err(LimitExceeded)
    else if |Read(l.bySubject, subject)| >= env.limits.perSubject then Err(LimitExceeded)
    else if id in l.records then Err(DuplicateAttestation)
    else
      var a := NewRecord(id, issuer, subject, claimType, env.now, expiration)
               .(metadata := metadata, validFrom := validFrom);
      match PutLogged(l, a, issuer)
      case Err(e) => Err(e)
      case Ok(l1) => Ok(l1.(lastIssued := l1.lastIssued[issuer := env.now]))
  }

  /** `import_attestation`. */
  function Import(l: Ledger, env: Env, admin: Address, issuer: Address, subject: Address,
                  claimType: ClaimType, timestamp: nat, expiration: Option<nat>): Result<Ledger>
  {
    var id := env.attestationId(issuer, subject, claimType, timestamp);
    if env.council.None? then Err(NotInitialized)
    else if admin !in env.council.value then Err(Unauthorized)
    else if env.paused then Err(ContractPaused)
    else if issuer !in env.issuers then Err(Unauthorized)
    else if timestamp > env.now then Err(InvalidTimestamp)
    else if !FutureOrNone(expiration, timestamp) then Err(InvalidExpiration)
    else if id in l.records then Err(DuplicateAttestation)
    else
      PutLogged(l, NewRecord(id, issuer, subject, claimType, timestamp, expiration).(origin := Imported), admin)
  }

  /** `bridge_attestation`. */
  function Bridge(l: Ledger, env: Env, bridge: Address, subject: Address, claimType: ClaimType,
                  chain: string, tx: string): Result<Ledger>
  {
    var id := env.bridgeId(bridge, subject, claimType, chain, tx, env.now);
    if bridge !in env.bridges then Err(Unauthorized)
    else if env.paused then Err(ContractPaused)
    else if chain == "" || tx == "" then Err(InvalidSourceReference)
    else if |chain| > 32 || |tx| > 128 then Err(MetadataTooLong)
    else if id in l.records then Err(DuplicateAttestation)
    else
      PutLogged(l, NewRecord(id, bridge, subject, claimType, env.now, None).(origin := Bridged(chain, tx)), bridge)
  }

  /** `create_attestation_as_delegate`, given the delegation record found in storage. */
  function CreateAsDelegate(l: Ledger, env: Env, delegation: Option<Delegation>, delegate: Address,
                            delegator: Address, subject: Address, claimType: ClaimType,
                            expiration: Option<nat>, metadata: Option<string>): Result<Ledger>
  {
    var id := env.attestationId(delegator, subject, claimType, env.now);
    if env.paused then Err(ContractPaused)
    else if delegator !in env.issuers then Err(Unauthorized)
    else if !FutureOrNone(expiration, env.now) then Err(InvalidExpiration)
    else if delegation.None? then Err(Unauthorized)
    else if !FutureOrNone(delegation.value.expiration, env.now) then Err(Unauthorized)
    else if delegator == subject then Err(Unauthorized)
    else if |Read(l.byIssuer, delegator)| >= env.limits.perIssuer then Err(LimitExceeded)
    else if |Read(l.bySubject, subject)| >= env.limits.perSubject then Err(LimitExceeded)
    else if id in l.records then Err(DuplicateAttestation)
    else
      PutLogged(l, NewRecord(id, delegator, subject, claimType, env.now, expiration).(metadata := metadata), delegate)
  }

  // ---------------------------------------------------------------- batch creation

  /** The loop of `create_attestations_batch`: per-subject writes only. */
  function BatchLoop(l: Ledger, env: Env, issuer: Address, subjects: seq<Address>, claimType: ClaimType,
                     expiration: Option<nat>): Result<Ledger>
    decreases |subjects|
  {
    if subjects == [] then Ok(l)
    else
      var id := env.attestationId(issuer, subjects[0], claimType, env.now);
      if id in l.records then Err(DuplicateAttestation)
      else if |Read(l.bySubject, subjects[0])| >= env.limits.perSubject then Err(LimitExceeded)
      else
        var a := NewRecord(id, issuer, subjects[0], claimType, env.now, expiration);
        BatchLoop(Append(StoreForSubject(l, a), id, CreatedBy(issuer, env.now)),
                  env, issuer, subjects[1..], claimType, expiration)
  }

  function BatchIds(env: Env, issuer: Address, subjects: seq<Address>, claimType: ClaimType): (ids: seq<Id>)
    ensures |ids| == |subjects|
    ensures forall i :: 0 <= i < |ids| ==> ids[i] == env.attestationId(issuer, subjects[i], claimType, env.now)
  {
    seq<Id>(|subjects|, i requires 0 <= i < |subjects| => env.attestationId(issuer, subjects[i], claimType, env.now))
  }

  /** The deferred issuer-side writes that close a batch. */
  function FinishBatch(l: Ledger, env: Env, issuer: Address, ids: seq<Id>): Ledger {
    l.(byIssuer := if ids == [] then l.byIssuer else l.byIssuer[issuer := Read(l.byIssuer, issuer) + ids],
       issuerChunks := l.issuerChunks[issuer := Read(l.issuerChunks, issuer) + ids],
       issued := l.issued[issuer := SaturatingAdd(Count(l.issued, issuer), |ids|)],
       attestations := SaturatingAdd(l.attestations, |ids|),
       lastIssued := l.lastIssued[issuer := env.now])
  }

  /** The error of the checks that precede the loop, if any. */
  function BatchGuard(l: Ledger, env: Env, issuer: Address, subjects: seq<Address>, claimType: ClaimType,
                      expiration: Option<nat>): Option<Error>
  {
    if issuer !in env.issuers then Some(Unauthorized)
    else if env.paused then Some(ContractPaused)
    else if !FutureOrNone(expiration, env.now) then Some(InvalidExpiration)
    else if !RateAllows(l, env, issuer, claimType) then Some(RateLimited)
    else if Min(|Read(l.byIssuer, issuer)| + |subjects|, U32_MAX) > env.limits.perIssuer then Some(LimitExceeded)
    else None
  }

  /** `create_attestations_batch`. */
  function CreateBatch(l: Ledger, env: Env, issuer: Address, subjects: seq<Address>, claimType: ClaimType,
                       expiration: Option<nat>): Result<Ledger>
  {
    var guard := BatchGuard(l, env, issuer, subjects, claimType, expiration);
    if guard.Some? then Err(guard.value)
    else match BatchLoop(l, env, issuer, subjects, claimType, expiration)
      case Err(e) => Err(e)
      case Ok(l1) => Ok(FinishBatch(l1, env, issuer, BatchIds(env, issuer, subjects, claimType)))
  }

  // ---------------------------------------------------------------- revocation

  predicate ReasonFits(reason: Option<string>) { reason.None? || |reason.value| <= MAX_REASON }

  function RevokedEntry(env: Env, issuer: Address, reason: Option<string>): AuditEntry {
    AuditEntry(Revoked, issuer, env.now, reason)
  }

  /** The checks shared by single and batch revocation before any record is read. */
  function RevokeGuard(env: Env, issuer: Address, reason: Option<string>): Option<Error> {
    if env.paused then Some(ContractPaused)
    else if issuer !in env.issuers then Some(Unauthorized)
    else if !ReasonFits(reason) then Some(ReasonTooLong)
    else None
  }

  /** The per-record checks shared by revocation, renewal and expiration updates. */
  function OwnedAndLive(l: Ledger, issuer: Address, id: Id): Option<Error> {
    if id !in l.records then Some(NotFound)
    else if l.records[id].issuer != issuer then Some(Unauthorized)
    else if l.records[id].revoked then Some(AlreadyRevoked)
    else None
  }

  /** The writes of `revoke_attestation`. */
  function RevokeOne(l: Ledger, env: Env, issuer: Address, id: Id, reason: Option<string>): Ledger
    requires id in l.records
  {
    var a := l.records[id];
    Append(l.(records := l.records[a.id := a.(revoked := true, revocationReason := reason)],
              bySubject := Drop(l.bySubject, a.subject, id),
              valid := Drop(l.valid, a.subject, id),
              byIssuer := Drop(l.byIssuer, issuer, id),
              subjectChunks := Drop(l.subjectChunks, a.subject, id),
              issuerChunks := Drop(l.issuerChunks, issuer, id),
              revocations := SaturatingAdd(l.revocations, 1)),
           id, RevokedEntry(env, issuer, reason))
  }

  /** `revoke_attestation`. */
  function Revoke(l: Ledger, env: Env, issuer: Address, id: Id, reason: Option<string>): Result<Ledger> {
    var guard := RevokeGuard(env, issuer, reason);
    if guard.Some? then Err(guard.value)
    else
      var problem := OwnedAndLive(l, issuer, id);
      if problem.Some? then Err(problem.value)
      else Ok(RevokeOne(l, env, issuer, id, reason))
  }

  /** First loop of `revoke_attestations_batch`: check every id and take a snapshot of its record. */
  function Gather(l: Ledger, issuer: Address, ids: seq<Id>, seen: seq<Id>): Result<seq<Attestation>> {
    if ids == [] then Ok([])
    else if ids[0] in seen then Err(DuplicateAttestation)
    else
      var problem := OwnedAndLive(l, issuer, ids[0]);
      if problem.Some? then Err(problem.value)
      else
        match Gather(l, issuer, ids[1..], seen + [ids[0]])
        case Err(e) => Err(e)
        case Ok(rest) => Ok([l.records[ids[0]]] + rest)
  }

  /** One round of the second loop; it leaves the valid and chunked lists alone. */
  function RevokeSnapshot(l: Ledger, env: Env, issuer: Address, a: Attestation, reason: Option<string>): Ledger {
    Append(l.(records := l.records[a.id := a.(revoked := true, revocationReason := reason)],
              bySubject := Drop(l.bySubject, a.subject, a.id),
              byIssuer := Drop(l.byIssuer, issuer, a.id),
              stale := l.stale + {a.id}),
           a.id, RevokedEntry(env, issuer, reason))
  }

  function RevokeSnapshots(l: Ledger, env: Env, issuer: Address, batch: seq<Attestation>, reason: Option<string>): Ledger
    decreases |batch|
  {
    if batch == [] then l
    else RevokeSnapshots(RevokeSnapshot(l, env, issuer, batch[0], reason), env, issuer, batch[1..], reason)
  }

  /** `revoke_attestations_batch`. */
  function RevokeBatch(l: Ledger, env: Env, issuer: Address, ids: seq<Id>, reason: Option<string>): Result<Ledger> {
    var guard := RevokeGuard(env, issuer, reason);
    if guard.Some? then Err(guard.value)
    else if |ids| > MAX_REVOKE_BATCH then Err(LimitExceeded)
    else
      match Gather(l, issuer, ids, [])
      case Err(e) => Err(e)
      case Ok(batch) =>
        var l1 := RevokeSnapshots(l, env, issuer, batch, reason);
        Ok(if batch == [] then l1 else l1.(revocations := SaturatingAdd(l1.revocations, |batch|)))
  }

  // ---------------------------------------------------------------- renewal, transfer, deletion

  /** `renew_attestation` and `update_expiration`, which differ only in their audit entry. */
  function SetExpiration(l: Ledger, env: Env, issuer: Address, id: Id, expiration: Option<nat>,
                         action: AuditAction): Result<Ledger>
  {
    if issuer !in env.issuers then Err(Unauthorized)
    else if env.paused then Err(ContractPaused)
    else if !FutureOrNone(expiration, env.now) then Err(InvalidExpiration)
    else
      var problem := OwnedAndLive(l, issuer, id);
      if problem.Some? then Err(problem.value)
      else
        var details := if action.Renewed? && expiration.Some? then Some(Decimal.Numeral(expiration.value)) else None;
        Ok(Append(l.(records := l.records[l.records[id].id := l.records[id].(expiration := expiration)]),
                  id, AuditEntry(action, issuer, env.now, details)))
  }

  /** The writes of `transfer_attestation`. */
  function Move(l: Ledger, env: Env, admin: Address, id: Id, newIssuer: Address): Ledger
    requires id in l.records
  {
    var was := l.records[id].issuer;
    var issued := l.issued[was := SaturatingSub(Count(l.issued, was), 1)];
    Append(l.(records := l.records[l.records[id].id := l.records[id].(issuer := newIssuer)],
              byIssuer := Push(Drop(l.byIssuer, was, id), newIssuer, id),
              issued := issued[newIssuer := SaturatingAdd(Count(issued, newIssuer), 1)]),
           id, AuditEntry(Transferred(newIssuer), admin, env.now, None))
  }

  /** `transfer_attestation`. */
  function Transfer(l: Ledger, env: Env, admin: Address, id: Id, newIssuer: Address): Result<Ledger> {
    if env.council.None? then Err(NotInitialized)
    else if admin !in env.council.value then Err(Unauthorized)
    else if newIssuer !in env.issuers then Err(Unauthorized)
    else if id !in l.records then Err(NotFound)
    else if l.records[id].issuer == newIssuer then Ok(l)
    else Ok(Move(l, env, admin, id, newIssuer))
  }

  /** The writes of `request_deletion`. */
  function Erase(l: Ledger, env: Env, id: Id): Ledger
    requires id in l.records
  {
    var subject := l.records[id].subject;
    Append(l.(records := l.records[l.records[id].id := l.records[id].(deleted := true)],
              bySubject := Drop(l.bySubject, subject, id),
              valid := Drop(l.valid, subject, id),
              subjectChunks := Drop(l.subjectChunks, subject, id)),
           id, AuditEntry(Deleted, subject, env.now, None))
  }

  /** `request_deletion`. */
  function Delete(l: Ledger, env: Env, subject: Address, id: Id): Result<Ledger> {
    if id !in l.records then Err(NotFound)
    else if l.records[id].subject != subject then Err(Unauthorized)
    else Ok(Erase(l, env, id))
  }
}
