/** The off-chain event fold: `handleEvent` of indexer/src/indexer.ts. */
module Indexer {
  import opened Types

  datatype State = PENDING | FULFILLED | REJECTED

  /** One row of one of the four tables. */
  datatype Row =
    | AttestationRow(issuer: string, subject: string, claimType: string, timestamp: int, expiration: Option<int>,
                     isRevoked: bool, metadata: Option<string>, imported: bool, bridged: bool,
                     sourceChain: Option<string>, sourceTx: Option<string>)
    | ProposalRow(subject: string, proposer: string, claimType: string, threshold: int, signers: seq<string>,
                  signatureCount: int, finalized: bool, expiresAt: int)
    | RequestRow(subject: string, issuer: string, claimType: string, requestedAt: int, expiresAt: int,
                 status: State, fulfillmentId: Option<string>, rejectionReason: Option<string>)
    | IssuerRow(name: string, url: Option<string>, description: Option<string>, tier: string)

  datatype Key =
    | AttestationKey(id: string) | ProposalKey(id: string) | RequestKey(id: string) | IssuerKey(id: string)

  /** A decoded contract event. `Ignored` is an unwatched topic, `Malformed` one whose decoding throws. */
  datatype Event =
    | Created(id: string, issuer: string, subject: string, claimType: string, timestamp: int, metadata: Option<string>)
    | Imported(id: string, issuer: string, subject: string, claimType: string, timestamp: int, expiration: Option<int>)
    | Bridged(id: string, issuer: string, subject: string, claimType: string, timestamp: int,
              sourceChain: Option<string>, sourceTx: Option<string>)
    | Revoked(id: string)
    | MsProp(id: string, subject: string, proposer: string, threshold: int)
    | MsSign(id: string, signer: string, signatureCount: int)
    | MsActv(id: string)
    | AttReq(id: string, subject: string, issuer: string, claimType: string, requestedAt: int, expiresAt: int)
    | ReqFul(id: string, attestationId: string)
    | ReqRej(id: string, reason: Option<string>)
    | IssReg(address: string, name: string, url: Option<string>, description: Option<string>)
    | TierUpdated(address: string, tier: string)
    | Ignored
    | Malformed

  /** An event as delivered, with the wall clock (in seconds) the handler reads. */
  datatype Delivery = Delivery(event: Event, clock: nat)

  type Db = map<Key, Row>

  function Get(db: Db, k: Key): Option<Row> { if k in db then Some(db[k]) else None }

  // ---------------------------------------------------------------- what one event does

  /** The row an event is about. */
  function Target(e: Event): Option<Key> {
    match e
    case Created(id, _, _, _, _, _) => Some(AttestationKey(id))
    case Imported(id, _, _, _, _, _) => Some(AttestationKey(id))
    case Bridged(id, _, _, _, _, _, _) => Some(AttestationKey(id))
    case Revoked(id) => Some(AttestationKey(id))
    case MsProp(id, _, _, _) => Some(ProposalKey(id))
    case MsSign(id, _, _) => Some(ProposalKey(id))
    case MsActv(id) => Some(ProposalKey(id))
    case AttReq(id, _, _, _, _, _) => Some(RequestKey(id))
    case ReqFul(id, _) => Some(RequestKey(id))
    case ReqRej(id, _) => Some(RequestKey(id))
    case IssReg(a, _, _, _) => Some(IssuerKey(a))
    case TierUpdated(a, _) => Some(IssuerKey(a))
    case Ignored => None
    case Malformed => None
  }

  /** The row an event creates when its row is missing; `None` for an event that only updates. */
  function NewRow(d: Delivery): Option<Row> {
    match d.event
    case Created(_, i, s, c, t, m) => Some(AttestationRow(i, s, c, t, None, false, m, false, false, None, None))
    case Imported(_, i, s, c, t, x) => Some(AttestationRow(i, s, c, t, x, false, None, true, false, None, None))
    case Bridged(_, i, s, c, t, sc, st) => Some(AttestationRow(i, s, c, t, None, false, None, false, true, sc, st))
    case MsProp(_, s, p, th) => Some(ProposalRow(s, p, "", th, [p], 1, false, d.clock + SEVEN_DAYS))
    case AttReq(_, s, i, c, r, x) => Some(RequestRow(s, i, c, r, x, PENDING, None, None))
    case IssReg(_, n, u, ds) => Some(IssuerRow(n, u, ds, "basic"))
    case _ => None
  }

  /** What an event does to its row when the row is there. */
  function UpdatedRow(row: Row, e: Event): Row {
    match (row, e)
    case (AttestationRow(_, _, _, _, _, _, _, _, _, _, _), Created(_, _, s, _, _, m)) => row.(subject := s, metadata := m)
    case (AttestationRow(_, _, _, _, _, _, _, _, _, _, _), Imported(_, _, s, _, _, x)) => row.(subject := s, expiration := x)
    case (AttestationRow(_, _, _, _, _, _, _, _, _, _, _), Bridged(_, _, s, _, _, sc, st)) =>
      row.(subject := s, sourceChain := sc, sourceTx := st)
    case (AttestationRow(_, _, _, _, _, _, _, _, _, _, _), Revoked(_)) => row.(isRevoked := true)
    case (ProposalRow(_, _, _, _, signers, _, _, _), MsSign(_, signer, n)) =>
      row.(signatureCount := n, signers := if signer in signers then signers else signers + [signer])
    case (ProposalRow(_, _, _, _, _, _, _, _), MsActv(_)) => row.(finalized := true)
    case (RequestRow(_, _, _, _, _, status, _, _), ReqFul(_, a)) =>
      if status == PENDING then row.(status := FULFILLED, fulfillmentId := Some(a)) else row
    case (RequestRow(_, _, _, _, _, status, _, _), ReqRej(_, r)) =>
      if status == PENDING then row.(status := REJECTED, rejectionReason := r) else row
    case (IssuerRow(_, _, _, _), IssReg(_, n, u, ds)) => row.(name := n, url := u, description := ds)
    case (IssuerRow(_, _, _, _), TierUpdated(_, t)) => row.(tier := t)
    case _ => row
  }

  function RowStep(o: Option<Row>, d: Delivery): Option<Row> {
    if o.Some? then Some(UpdatedRow(o.value, d.event)) else NewRow(d)
  }

  /** `handleEvent`; an update of a missing row changes nothing, whether it is skipped or throws. */
  function Handle(db: Db, d: Delivery): Db {
    var k := Target(d.event);
    if k.None? then db
    else
      var row := RowStep(Get(db, k.value), d);
      if row.None? then db else db[k.value := row.value]
  }

  function Fold(db: Db, ds: seq<Delivery>): Db
    decreases |ds|
  {
    if ds == [] then db else Fold(Handle(db, ds[0]), ds[1..])
  }

  // ---------------------------------------------------------------- one row at a time

  function RowNext(o: Option<Row>, d: Delivery, k: Key): Option<Row> {
    if Target(d.event) == Some(k) then RowStep(o, d) else o
  }

  function RowFold(o: Option<Row>, ds: seq<Delivery>, k: Key): Option<Row>
    decreases |ds|
  {
    if ds == [] then o else RowFold(RowNext(o, ds[0], k), ds[1..], k)
  }

  /** Rows do not interact. */
  lemma {:induction false} FoldByRow(db: Db, ds: seq<Delivery>, k: Key)
    ensures Get(Fold(db, ds), k) == RowFold(Get(db, k), ds, k)
    decreases |ds|
  {
    if ds != [] {
      FoldByRow(Handle(db, ds[0]), ds[1..], k);
    }
  }

  /** The row belongs to the table its key names. */
  predicate Typed(o: Option<Row>, k: Key) {
    o.Some? ==>
      match k
      case AttestationKey(_) => o.value.AttestationRow?
      case ProposalKey(_) => o.value.ProposalRow?
      case RequestKey(_) => o.value.RequestRow?
      case IssuerKey(_) => o.value.IssuerRow?
  }

  lemma StepTyped(o: Option<Row>, d: Delivery, k: Key)
    requires Typed(o, k)
    ensures Typed(RowNext(o, d, k), k)
  {
  }

  lemma {:induction false} RowFoldTyped(o: Option<Row>, ds: seq<Delivery>, k: Key)
    requires Typed(o, k)
    ensures Typed(RowFold(o, ds, k), k)
    decreases |ds|
  {
    if ds != [] {
      StepTyped(o, ds[0], k);
      RowFoldTyped(RowNext(o, ds[0], k), ds[1..], k);
    }
  }

  predicate WellTyped(db: Db) {
    forall k :: k in db ==> Typed(Some(db[k]), k)
  }

  lemma {:induction false} FoldTyped(db: Db, ds: seq<Delivery>)
    requires WellTyped(db)
    ensures WellTyped(Fold(db, ds))
  {
    forall k | k in Fold(db, ds) ensures Typed(Some(Fold(db, ds)[k]), k) {
      FoldByRow(db, ds, k);
      assert Typed(Get(db, k), k);
      RowFoldTyped(Get(db, k), ds, k);
    }
  }

  // ---------------------------------------------------------------- the handler

  /** The four tables, with the handler as the source writes it. */
  class Tables {
    var attestations: map<string, Row>
    var proposals: map<string, Row>
    var requests: map<string, Row>
    var issuers: map<string, Row>
    ghost var db: Db

    ghost function Look(k: Key): Option<Row>
      reads this
    {
      match k
      case AttestationKey(id) => if id in attestations then Some(attestations[id]) else None
      case ProposalKey(id) => if id in proposals then Some(proposals[id]) else None
      case RequestKey(id) => if id in requests then Some(requests[id]) else None
      case IssuerKey(id) => if id in issuers then Some(issuers[id]) else None
    }

    ghost predicate Valid()
      reads this
    {
      WellTyped(db) && forall k :: Look(k) == Get(db, k)
    }

    constructor ()
      ensures Valid() && db == map[]
    {
      attestations, proposals, requests, issuers, db := map[], map[], map[], map[], map[];
    }

    /** A row found in a table has that table's columns. */
    lemma Found(k: Key)
      requires Valid() && Look(k).Some?
      ensures Typed(Look(k), k) && Get(db, k) == Look(k)
    {
    }

    /** Multisig events. */
    method HandleMultisig(d: Delivery)
      requires Valid() && (d.event.MsProp? || d.event.MsSign? || d.event.MsActv?)
      modifies this`proposals
      ensures forall k :: Look(k) == Get(Handle(db, d), k)
    {
      ghost var k := ProposalKey(d.event.id);
      if Look(k).Some? { Found(k); }
      match d.event {
        case MsProp(id, subject, proposer, threshold) =>
          var expiresAt := d.clock + SEVEN_DAYS;
          if id !in proposals {
            proposals := proposals[id := ProposalRow(subject, proposer, "", threshold, [proposer], 1, false, expiresAt)];
          }
        case MsSign(id, signer, signatureCount) =>
          if id in proposals {
            var existing := proposals[id].signers;
            var updatedSigners := if signer in existing then existing else existing + [signer];
            proposals := proposals[id := proposals[id].(signatureCount := signatureCount, signers := updatedSigners)];
          }
        case MsActv(id) =>
          if id in proposals && !proposals[id].finalized {
            proposals := proposals[id := proposals[id].(finalized := true)];
          }
      }
      forall x ensures Look(x) == Get(Handle(db, d), x) {
        assert old(Look(x)) == Get(db, x);
      }
    }

    /** Request events: only a pending row is decided. */
    method HandleRequest(d: Delivery)
      requires Valid() && (d.event.AttReq? || d.event.ReqFul? || d.event.ReqRej?)
      modifies this`requests
      ensures forall k :: Look(k) == Get(Handle(db, d), k)
    {
      ghost var k := RequestKey(d.event.id);
      if Look(k).Some? { Found(k); }
      match d.event {
        case AttReq(id, subject, issuer, claimType, requestedAt, expiresAt) =>
          if id !in requests {
            requests := requests[id := RequestRow(subject, issuer, claimType, requestedAt, expiresAt, PENDING, None, None)];
          }
        case ReqFul(id, attestationId) =>
          if id in requests && requests[id].status == PENDING {
            requests := requests[id := requests[id].(status := FULFILLED, fulfillmentId := Some(attestationId))];
          }
        case ReqRej(id, reason) =>
          if id in requests && requests[id].status == PENDING {
            requests := requests[id := requests[id].(status := REJECTED, rejectionReason := reason)];
          }
      }
      forall x ensures Look(x) == Get(Handle(db, d), x) {
        assert old(Look(x)) == Get(db, x);
      }
    }

    /** Issuer events; a tier update of an unknown issuer throws, which is caught and counted. */
    method HandleIssuer(d: Delivery) returns (threw: bool)
      requires Valid() && (d.event.IssReg? || d.event.TierUpdated?)
      modifies this`issuers
      ensures forall k :: Look(k) == Get(Handle(db, d), k)
      ensures threw <==> d.event.TierUpdated? && old(Look(IssuerKey(d.event.address))).None?
    {
      ghost var k := IssuerKey(d.event.address);
      if Look(k).Some? { Found(k); }
      threw := false;
      match d.event {
        case IssReg(address, name, url, description) =>
          if address in issuers {
            issuers := issuers[address := issuers[address].(name := name, url := url, description := description)];
          } else {
            issuers := issuers[address := IssuerRow(name, url, description, "basic")];
          }
        case TierUpdated(address, tier) =>
          if address in issuers {
            issuers := issuers[address := issuers[address].(tier := tier)];
          } else {
            threw := true;
          }
      }
      forall x ensures Look(x) == Get(Handle(db, d), x) {
        assert old(Look(x)) == Get(db, x);
      }
    }

    /** "created", "imported", "bridged" and "revoked". */
    method HandleAttestation(d: Delivery)
      requires Valid() && (d.event.Created? || d.event.Imported? || d.event.Bridged? || d.event.Revoked?)
      modifies this`attestations
      ensures forall k :: Look(k) == Get(Handle(db, d), k)
    {
      var id := d.event.id;
      ghost var k := AttestationKey(id);
      if Look(k).Some? { Found(k); }
      var known := id in attestations;
      match d.event {
        case Revoked(_) =>
          if known {
            attestations := attestations[id := attestations[id].(isRevoked := true)];
          }
        case Created(_, issuer, subject, claimType, timestamp, metadata) =>
          attestations := attestations[id :=
            if known then attestations[id].(subject := subject, metadata := metadata)
            else AttestationRow(issuer, subject, claimType, timestamp, None, false, metadata, false, false, None, None)];
        case Imported(_, issuer, subject, claimType, timestamp, expiration) =>
          attestations := attestations[id :=
            if known then attestations[id].(subject := subject, expiration := expiration)
            else AttestationRow(issuer, subject, claimType, timestamp, expiration, false, None, true, false, None, None)];
        case Bridged(_, issuer, subject, claimType, timestamp, sourceChain, sourceTx) =>
          attestations := attestations[id :=
            if known then attestations[id].(subject := subject, sourceChain := sourceChain, sourceTx := sourceTx)
            else AttestationRow(issuer, subject, claimType, timestamp, None, false, None, false, true, sourceChain, sourceTx)];
      }
      forall x ensures Look(x) == Get(Handle(db, d), x) {
        assert old(Look(x)) == Get(db, x);
      }
    }

    /** `handleEvent`, with a throwing handler counted as a no-op. */
    method HandleEvent(d: Delivery)
      requires Valid()
      modifies this
      ensures Valid() && db == Handle(old(db), d)
    {
      assert Fold(db, [d]) == Handle(db, d) by { assert [d][1..] == []; }
      FoldTyped(db, [d]);
      match d.event {
        case MsProp(_, _, _, _) => HandleMultisig(d);
        case MsSign(_, _, _) => HandleMultisig(d);
        case MsActv(_) => HandleMultisig(d);
        case AttReq(_, _, _, _, _, _) => HandleRequest(d);
        case ReqFul(_, _) => HandleRequest(d);
        case ReqRej(_, _) => HandleRequest(d);
        case IssReg(_, _, _, _) => var _ := HandleIssuer(d);
        case TierUpdated(_, _) => var _ := HandleIssuer(d);
        case Created(_, _, _, _, _, _) => HandleAttestation(d);
        case Imported(_, _, _, _, _, _) => HandleAttestation(d);
        case Bridged(_, _, _, _, _, _, _) => HandleAttestation(d);
        case Revoked(_) => HandleAttestation(d);
        case Ignored =>
        case Malformed =>
      }
      db := Handle(db, d);
    }

    /** The loop over delivered events: one that throws is logged and the next one handled. */
    method ProcessEvents(ds: seq<Delivery>)
      requires Valid()
      modifies this
      ensures Valid() && db == Fold(old(db), ds)
    {
      hide Valid, Handle;
      for i := 0 to |ds|
        invariant Valid() && Fold(db, ds[i..]) == Fold(old(db), ds)
      {
        assert ds[i..][0] == ds[i] && ds[i..][1..] == ds[i + 1..];
        HandleEvent(ds[i]);
      }
    }
  }
}
