/** The contract's records, error codes and host environment (src/types.rs, src/errors.rs). */
module Types {

  /** An account. The contract only ever compares accounts for equality. */
  type Address(==, !new)

  /** A record identifier. The source uses the 64 lower-case hexadecimal digits of a SHA-256
      digest; strings of one length over those digits compare like the numbers they denote. */
  type Id = nat

  type ClaimType = string

  const U32_MAX: nat := 0xFFFF_FFFF
  const U64_MAX: nat := 0xFFFF_FFFF_FFFF_FFFF
  const SEVEN_DAYS: nat := 7 * 24 * 60 * 60
  const MAX_REVOKE_BATCH: nat := 50
  const MAX_REASON: nat := 128
  const ACCREDITED: ClaimType := "ACCREDITED_INVESTOR"

  datatype Option<+T> = None | Some(value: T)

  datatype Result<+T> = Ok(value: T) | Err(error: Error)

  /** `Trap` is the abort of a checked arithmetic overflow; the other codes are the contract's. */
  datatype Error =
    | NotInitialized | Unauthorized | NotFound | DuplicateAttestation | AlreadyRevoked
    | InvalidValidFrom | InvalidExpiration | InvalidTimestamp | InvalidSourceReference | MetadataTooLong
    | InvalidThreshold | NotRequiredSigner | AlreadySigned | ProposalFinalized | ProposalExpired
    | ReasonTooLong | ContractPaused | CannotDelegateToSelf | RateLimited | LimitExceeded
    | DuplicateRequest | RequestAlreadyProcessed | RequestExpired | Trap

  datatype Origin = Native | Imported | Bridged(chain: string, tx: string)

  datatype Attestation = Attestation(
    id: Id, issuer: Address, subject: Address, claimType: ClaimType, timestamp: nat,
    expiration: Option<nat>, validFrom: Option<nat>, origin: Origin, metadata: Option<string>,
    revoked: bool, revocationReason: Option<string>, deleted: bool)
  {
    /** `Attestation::get_status` (src/types.rs). */
    function Status(now: nat): Status {
      if validFrom.Some? && now < validFrom.value then Pending
      else if revoked then RevokedStatus
      else if expiration.Some? && now >= expiration.value then Expired
      else Valid
    }
  }

  datatype Status = Valid | Expired | RevokedStatus | Pending

  datatype AuditAction = Created | Revoked | Renewed | Updated | Transferred(newIssuer: Address) | Deleted

  datatype AuditEntry = AuditEntry(action: AuditAction, actor: Address, timestamp: nat, details: Option<string>)

  datatype Delegation = Delegation(
    delegator: Address, delegate: Address, claimType: ClaimType, expiration: Option<nat>)

  datatype Proposal = Proposal(
    id: Id, proposer: Address, subject: Address, claimType: ClaimType, requiredSigners: seq<Address>,
    threshold: nat, signers: seq<Address>, createdAt: nat, expiresAt: nat, finalized: bool)

  datatype RequestStatus = Waiting | Fulfilled | Rejected | Cancelled

  datatype Request = Request(
    id: Id, subject: Address, issuer: Address, claimType: ClaimType, timestamp: nat, expiresAt: nat,
    status: RequestStatus, rejectionReason: Option<string>)

  datatype Limits = Limits(perIssuer: nat, perSubject: nat)

  /** What a call reads from its surroundings: ledger time, registries, limits, rate limits and the
      hash functions behind the generated identifiers, all of which may differ from call to call. */
  datatype Env = Env(
    now: nat, paused: bool, council: Option<seq<Address>>, issuers: set<Address>, bridges: set<Address>,
    premium: set<Address>, limits: Limits,
    claimInterval: map<ClaimType, nat>, globalInterval: Option<nat>,
    attestationId: (Address, Address, ClaimType, nat) -> Id,
    bridgeId: (Address, Address, ClaimType, string, string, nat) -> Id,
    requestId: (Address, Address, ClaimType, nat) -> Id,
    proposalId: (Address, Address, ClaimType, nat) -> Id)

  function Min(a: nat, b: nat): nat { if a < b then a else b }

  function SaturatingAdd(a: nat, b: nat): nat { Min(a + b, U64_MAX) }

  function SaturatingSub(a: nat, b: nat): nat { if a < b then 0 else a - b }

  /** A stored list or counter, with the default the getters return for a missing key. */
  function Read<K>(m: map<K, seq<Id>>, k: K): seq<Id> { if k in m then m[k] else [] }

  function Count<K>(m: map<K, nat>, k: K): nat { if k in m then m[k] else 0 }
}
