/** Pull-based attestation requests: src/request.rs. */
module Requests {
  import opened Types
  import opened Sequences
  import opened Ledger
  import opened Coherence
  import opened Worlds
  import opened Pagination
  import opened Effects

  /** `request_attestation`. */
  function Submit(w: World, env: Env, subject: Address, issuer: Address, claimType: ClaimType): Result<World> {
    var id := env.requestId(subject, issuer, claimType, env.now);
    if env.paused then Err(ContractPaused)
    else if issuer !in env.issuers then Err(Unauthorized)
    else if id in w.requests then Err(DuplicateRequest)
    else if env.now + SEVEN_DAYS > U64_MAX then Err(Trap)
    else
      Ok(w.(requests := w.requests[id := Request(id, subject, issuer, claimType, env.now, env.now + SEVEN_DAYS, Waiting, None)],
            pending := Push(w.pending, issuer, id)))
  }

  /** Move a waiting request to a terminal status. */
  function Close(w: World, id: Id, status: RequestStatus, reason: Option<string>): World
    requires id in w.requests
  {
    var r := w.requests[id];
    w.(requests := w.requests[r.id := r.(status := status, rejectionReason := reason)],
       pending := Drop(w.pending, r.issuer, id))
  }

  /** `fulfill_request`. */
  function Fulfill(w: World, env: Env, issuer: Address, id: Id, expiration: Option<nat>): Result<World> {
    if env.paused then Err(ContractPaused)
    else if issuer !in env.issuers then Err(Unauthorized)
    else if id !in w.requests then Err(NotFound)
    else
      var r := w.requests[id];
      var attestationId := env.attestationId(issuer, r.subject, r.claimType, env.now);
      if r.issuer != issuer then Err(Unauthorized)
      else if r.status != Waiting then Err(RequestAlreadyProcessed)
      else if env.now >= r.expiresAt then Err(RequestExpired)
      else if !FutureOrNone(expiration, env.now) then Err(InvalidExpiration)
      else if attestationId in w.ledger.records then Err(DuplicateAttestation)
      else if |Read(w.ledger.byIssuer, issuer)| >= env.limits.perIssuer then Err(LimitExceeded)
      else if |Read(w.ledger.bySubject, r.subject)| >= env.limits.perSubject then Err(LimitExceeded)
      else
        match Put(w.ledger, NewRecord(attestationId, issuer, r.subject, r.claimType, env.now, expiration))
        case Err(e) => Err(e)
        case Ok(l) => Ok(Close(w.(ledger := l), id, Fulfilled, r.rejectionReason))
  }

  /** `reject_request`. */
  function Reject(w: World, env: Env, issuer: Address, id: Id, reason: Option<string>): Result<World> {
    if env.paused then Err(ContractPaused)
    else if issuer !in env.issuers then Err(Unauthorized)
    else if !ReasonFits(reason) then Err(ReasonTooLong)
    else if id !in w.requests then Err(NotFound)
    else if w.requests[id].issuer != issuer then Err(Unauthorized)
    else if w.requests[id].status != Waiting then Err(RequestAlreadyProcessed)
    else if env.now >= w.requests[id].expiresAt then Err(RequestExpired)
    else Ok(Close(w, id, Rejected, reason))
  }

  /** `cancel_request`. */
  function Cancel(w: World, env: Env, subject: Address, id: Id): Result<World> {
    if env.paused then Err(ContractPaused)
    else if id !in w.requests then Err(NotFound)
    else if w.requests[id].subject != subject then Err(Unauthorized)
    else if w.requests[id].status != Waiting then Err(RequestAlreadyProcessed)
    else Ok(Close(w, id, Cancelled, w.requests[id].rejectionReason))
  }

  // ---------------------------------------------------------------- what every state satisfies

  ghost function WaitingFor(w: World, issuer: Address): set<Id> {
    set id | id in w.requests && w.requests[id].issuer == issuer && w.requests[id].status == Waiting
  }

  lemma RequestKeyed(w: World, id: Id)
    requires RequestsOk(w) && id in w.requests
    ensures w.requests[id].id == id
  {
  }

  /** The pending list of an issuer holds each waiting request addressed to it exactly once. */
  ghost predicate RequestsOk(w: World) {
    && (forall id :: id in w.requests ==> w.requests[id].id == id)
    && (forall issuer :: NoDup(Read(w.pending, issuer)) && Elems(Read(w.pending, issuer)) == WaitingFor(w, issuer))
  }

  lemma SubmitKeepsRequests(w: World, env: Env, subject: Address, issuer: Address, claimType: ClaimType)
    requires RequestsOk(w)
    ensures var r := Submit(w, env, subject, issuer, claimType); r.Ok? ==> RequestsOk(r.value)
  {
    var r := Submit(w, env, subject, issuer, claimType);
    if r.Ok? {
      var id := env.requestId(subject, issuer, claimType, env.now);
      forall x
        ensures NoDup(Read(r.value.pending, x)) && Elems(Read(r.value.pending, x)) == WaitingFor(r.value, x)
      {
        var list := Read(w.pending, x);
        assert id !in WaitingFor(w, x) && Elems(list) == WaitingFor(w, x);
        assert id in Elems(list) <==> id in list;
        if x == issuer {
          assert Elems(list + [id]) == Elems(list) + {id};
          assert WaitingFor(r.value, x) == WaitingFor(w, x) + {id};
        } else {
          assert WaitingFor(r.value, x) == WaitingFor(w, x);
        }
      }
    }
  }

  lemma CloseKeepsRequests(w: World, id: Id, status: RequestStatus, reason: Option<string>)
    requires RequestsOk(w) && id in w.requests && w.requests[id].status == Waiting && status != Waiting
    ensures RequestsOk(Close(w, id, status, reason))
  {
    var w1 := Close(w, id, status, reason);
    forall x ensures NoDup(Read(w1.pending, x)) && Elems(Read(w1.pending, x)) == WaitingFor(w1, x) {
      var list := Read(w.pending, x);
      WithoutMembers(list, id);
      WithoutNoDup(list, id);
      assert Elems(list) == WaitingFor(w, x);
      assert WaitingFor(w1, x) == WaitingFor(w, x) - {id};
      if x == w.requests[id].issuer {
        assert Elems(Without(list, id)) == Elems(list) - {id};
      }
    }
  }

  /** Same requests, same pending lists. */
  lemma SameRequests(w: World, w1: World)
    requires RequestsOk(w) && w1.requests == w.requests && w1.pending == w.pending
    ensures RequestsOk(w1)
  {
    forall x ensures WaitingFor(w1, x) == WaitingFor(w, x) {
    }
  }

  /** A request never disappears; once it leaves `Waiting` it never changes again. */
  ghost predicate RequestsEvolve(w: World, w1: World) {
    forall id :: id in w.requests ==>
      && id in w1.requests
      && w1.requests[id] == w.requests[id].(status := w1.requests[id].status, rejectionReason := w1.requests[id].rejectionReason)
      && (w.requests[id].status != Waiting ==> w1.requests[id] == w.requests[id])
  }

  /** Same requests before and after. */
  lemma RequestsEvolveSame(w: World, w1: World)
    requires w1.requests == w.requests
    ensures RequestsEvolve(w, w1)
  {
  }

  lemma SubmitEvolves(w: World, env: Env, subject: Address, issuer: Address, claimType: ClaimType)
    ensures var r := Submit(w, env, subject, issuer, claimType); r.Ok? ==> RequestsEvolve(w, r.value)
  {
  }

  lemma CloseEvolves(w: World, id: Id, status: RequestStatus, reason: Option<string>)
    requires id in w.requests && w.requests[id].status == Waiting && w.requests[id].id == id
    ensures RequestsEvolve(w, Close(w, id, status, reason))
  {
  }

  lemma RequestsEvolveTransitive(a: World, b: World, c: World)
    requires RequestsEvolve(a, b) && RequestsEvolve(b, c)
    ensures RequestsEvolve(a, c)
  {
  }

  /** A request is stored with the caller's fields, waiting, for seven days, under an id not in use. */
  lemma SubmitAdds(w: World, env: Env, subject: Address, issuer: Address, claimType: ClaimType)
    requires Submit(w, env, subject, issuer, claimType).Ok?
    ensures var w1, id := Submit(w, env, subject, issuer, claimType).value, env.requestId(subject, issuer, claimType, env.now);
      && id !in w.requests && w1 == w.(requests := w1.requests, pending := w1.pending)
      && w1.requests == w.requests[id := Request(id, subject, issuer, claimType, env.now, env.now + 604800, Waiting, None)]
      && Read(w1.pending, issuer) == Read(w.pending, issuer) + [id]
  {
  }

  /** Fulfilment happens before expiry, once, and stores exactly one new attestation: the one asked for, from
      the issuer asked, about the subject who asked. */
  lemma FulfillFacts(w: World, env: Env, issuer: Address, id: Id, expiration: Option<nat>)
    requires Fulfill(w, env, issuer, id, expiration).Ok? && RequestsOk(w)
    ensures id in w.requests && w.requests[id].status == Waiting && env.now < w.requests[id].expiresAt
    ensures var w1 := Fulfill(w, env, issuer, id, expiration).value;
      var q := w.requests[id];
      var aid := env.attestationId(q.issuer, q.subject, q.claimType, env.now);
      && q.issuer == issuer && w1.requests == w.requests[id := q.(status := Fulfilled)]
      && Adds(w.ledger, w1.ledger, Attestation(aid, q.issuer, q.subject, q.claimType, env.now, expiration, None, Native, None, false, None, false))
      && SameLogs(w.ledger, w1.ledger)
  {
    hide Put, Drop, NoDup, Elems, Writes, SameLogs;
    var q := w.requests[id];
    var aid := env.attestationId(q.issuer, q.subject, q.claimType, env.now);
    PutWrites(w.ledger, Attestation(aid, q.issuer, q.subject, q.claimType, env.now, expiration, None, Native, None, false, None, false));
  }

  // ---------------------------------------------------------------- listing

  predicate IsOpen(w: World, now: nat, id: Id) {
    id in w.requests && w.requests[id].status == Waiting && now < w.requests[id].expiresAt
  }

  /** The waiting, unexpired requests of a pending list, in order. */
  function Open(w: World, now: nat, ids: seq<Id>): seq<Request> {
    if ids == [] then []
    else
      var n := |ids| - 1;
      Open(w, now, ids[..n]) + if IsOpen(w, now, ids[n]) then [w.requests[ids[n]]] else []
  }

  lemma {:induction false} OpenMembers(w: World, now: nat, ids: seq<Id>)
    ensures forall q :: q in Open(w, now, ids) <==> exists id :: id in ids && IsOpen(w, now, id) && w.requests[id] == q
  {
    if ids != [] {
      var n := |ids| - 1;
      OpenMembers(w, now, ids[..n]);
      assert forall id :: id in ids <==> id in ids[..n] || id == ids[n];
    }
  }

  /** What an issuer can list: exactly the open requests addressed to it. */
  lemma OpenForIssuer(w: World, now: nat, issuer: Address)
    requires RequestsOk(w)
    ensures forall q :: q in Open(w, now, Read(w.pending, issuer)) <==>
      q.id in w.requests && w.requests[q.id] == q && q.issuer == issuer && q.status == Waiting && now < q.expiresAt
  {
    var ids := Read(w.pending, issuer);
    OpenMembers(w, now, ids);
    assert Elems(ids) == WaitingFor(w, issuer);
    forall id ensures id in ids <==> id in WaitingFor(w, issuer) {
      assert id in ids <==> id in Elems(ids);
    }
  }

  ghost function OpenIds(w: World, now: nat): set<Id> { set id | id in w.requests && IsOpen(w, now, id) }

  /** They are listed in the order they were made. */
  lemma {:induction false} OpenInOrder(w: World, now: nat, ids: seq<Id>)
    requires forall id :: id in w.requests ==> w.requests[id].id == id
    ensures var qs := Open(w, now, ids); Restrict(ids, OpenIds(w, now)) == seq(|qs|, i requires 0 <= i < |qs| => qs[i].id)
  {
    if ids != [] {
      var n := |ids| - 1;
      OpenInOrder(w, now, ids[..n]);
      assert ids == ids[..n] + [ids[n]] && [ids[n]][1..] == [];
      RestrictAppend(ids[..n], [ids[n]], OpenIds(w, now));
    }
  }

  lemma OpenNext(w: World, now: nat, ids: seq<Id>, i: nat)
    requires i < |ids|
    ensures Open(w, now, ids[..i + 1]) == Open(w, now, ids[..i]) + if IsOpen(w, now, ids[i]) then [w.requests[ids[i]]] else []
  {
    assert ids[..i + 1][..i] == ids[..i];
  }

  lemma NoneOpen(w: World, now: nat)
    ensures Open(w, now, []) == []
  {
  }

  /** `get_pending_requests`: filter, then page. */
  method GetPendingRequests(w: World, now: nat, issuer: Address, start: nat, limit: nat) returns (result: seq<Request>)
    requires Min(start, |Open(w, now, Read(w.pending, issuer))|) + limit <= U32_MAX
    ensures result == Slice(Open(w, now, Read(w.pending, issuer)), start, limit)
  {
    hide Open;
    var ids := Read(w.pending, issuer);
    var pending := [];
    NoneOpen(w, now);
    for i := 0 to |ids|
      invariant pending == Open(w, now, ids[..i])
    {
      OpenNext(w, now, ids, i);
      if ids[i] in w.requests && w.requests[ids[i]].status == Waiting && now < w.requests[ids[i]].expiresAt {
        pending := pending + [w.requests[ids[i]]];
      }
    }
    assert ids[..|ids|] == ids;
    var first := Min(start, |pending|);
    var end := Min(first + limit, |pending|);
    result := [];
    var i := first;
    while i < end
      invariant first <= i <= end && result == pending[first..i]
    {
      result := result + [pending[i]];
      i := i + 1;
    }
  }
}
