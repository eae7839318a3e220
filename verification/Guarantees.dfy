/** What the run invariants mean to a user of the contract. */
module Guarantees {
  import opened Types
  import opened Sequences
  import opened Coherence
  import opened Evolution
  import opened Worlds
  import opened Runs
  import L = Ledger
  import M = Multisig
  import R = Requests
  import C = Cursor
  import D = Delegations

  // ---------------------------------------------------------------- subject lists

  ghost function Unrevoked(l: L.Ledger): set<Id> { set id | id in l.records && !l.records[id].revoked }

  /** The flat list holds exactly the live ids, once each and in order of creation; the valid list
      without its revoked ids is that same sequence, and never holds a deleted id. */
  lemma SubjectListsMean(l: L.Ledger, subject: Address)
    requires Coherent(l)
    ensures NoDup(Read(l.bySubject, subject)) && Elems(Read(l.bySubject, subject)) == Live(l, subject)
    ensures NoDup(Read(l.valid, subject)) && Restrict(Read(l.valid, subject), Unrevoked(l)) == Read(l.bySubject, subject)
    ensures forall id :: id in Read(l.valid, subject) ==>
              id in l.records && l.records[id].subject == subject && !l.records[id].deleted
    ensures Read(l.subjectChunks, subject) == Read(l.valid, subject)
  {
    hide IssuerListsOk, LogsOk, IssuedOk, Keyed;
    RestrictNoDup(l.order, Live(l, subject));
    RestrictNoDup(l.order, Indexed(l, subject));
    RestrictMembers(l.order, Live(l, subject));
    RestrictMembers(l.order, Indexed(l, subject));
    RestrictTwice(l.order, Indexed(l, subject), Unrevoked(l));
    RestrictSame(l.order, Indexed(l, subject) * Unrevoked(l), Live(l, subject));
  }

  // ---------------------------------------------------------------- conservation

  ghost function OwnedByAny(l: L.Ledger, who: set<Address>): set<Id> {
    set id | id in l.records && l.records[id].issuer in who
  }

  ghost function SumIssued(l: L.Ledger, who: set<Address>): nat {
    if who == {} then 0 else var x :| x in who; Count(l.issued, x) + SumIssued(l, who - {x})
  }

  lemma OwnedSplit(l: L.Ledger, who: set<Address>, x: Address)
    requires x in who
    ensures |OwnedByAny(l, who)| == |Owned(l, x)| + |OwnedByAny(l, who - {x})|
  {
    var a, b := Owned(l, x), OwnedByAny(l, who - {x});
    assert OwnedByAny(l, who) == a + b;
    assert a !! b;
  }

  lemma {:induction false} SumIssuedIsOwned(l: L.Ledger, who: set<Address>)
    requires IssuedOk(l) && |l.records| <= U64_MAX
    ensures SumIssued(l, who) == |OwnedByAny(l, who)|
  {
    if who == {} {
      assert OwnedByAny(l, who) == {};
    } else {
      var x :| x in who && SumIssued(l, who) == Count(l.issued, x) + SumIssued(l, who - {x});
      SumIssuedIsOwned(l, who - {x});
      OwnedSplit(l, who, x);
    }
  }

  /** Below the u64 bound the counters are exact and the per-issuer counts add up to the total. */
  lemma CountersConserved(l: L.Ledger, who: set<Address>)
    requires Coherent(l) && |l.records| <= U64_MAX
    requires forall id :: id in l.records ==> l.records[id].issuer in who
    ensures l.attestations == |l.records| && l.revocations == |RevokedIds(l)|
    ensures forall x :: Count(l.issued, x) == |Owned(l, x)|
    ensures SumIssued(l, who) == l.attestations
  {
    SumIssuedIsOwned(l, who);
    assert OwnedByAny(l, who) == l.records.Keys;
    SubsetSize(RevokedIds(l), l.records.Keys);
  }

  /** The decrement in a transfer never meets zero. */
  lemma TransferNeverClips(l: L.Ledger, id: Id)
    requires Coherent(l) && |l.records| <= U64_MAX && id in l.records
    ensures Count(l.issued, l.records[id].issuer) >= 1
  {
    assert id in Owned(l, l.records[id].issuer);
  }

  // ---------------------------------------------------------------- issuer lists

  /** Across all flat issuer lists an id occurs at most once. */
  lemma ListedOnce(l: L.Ledger, x: Address, i: int, y: Address, j: int)
    requires Coherent(l) && 0 <= i < |Read(l.byIssuer, x)| && 0 <= j < |Read(l.byIssuer, y)|
    requires Read(l.byIssuer, x)[i] == Read(l.byIssuer, y)[j]
    ensures x == y && i == j
    ensures Read(l.byIssuer, x)[i] in l.records && l.records[Read(l.byIssuer, x)[i]].issuer == x
  {
    var id := Read(l.byIssuer, x)[i];
    assert id in Read(l.byIssuer, x) && id in Read(l.byIssuer, y);
    assert id in Owned(l, x) && id in Owned(l, y);
    assert NoDup(Read(l.byIssuer, x));
  }

  // ---------------------------------------------------------------- audit logs

  function Revocations(log: seq<AuditEntry>): nat {
    if log == [] then 0 else (if log[0].action.Revoked? then 1 else 0) + Revocations(log[1..])
  }

  lemma {:induction false} RevocationsNone(log: seq<AuditEntry>)
    requires forall j :: 0 <= j < |log| ==> !log[j].action.Revoked?
    ensures Revocations(log) == 0
  {
    if log != [] { RevocationsNone(log[1..]); }
  }

  lemma {:induction false} RevocationsOne(log: seq<AuditEntry>, k: nat)
    requires k < |log| && log[k].action.Revoked? && forall j :: 0 <= j < |log| && j != k ==> !log[j].action.Revoked?
    ensures Revocations(log) == 1
  {
    if k == 0 { RevocationsNone(log[1..]); } else { RevocationsOne(log[1..], k - 1); }
  }

  /** A log has one `Revoked` entry if the record is revoked and none otherwise, and only transfers
      and deletions come after it. */
  lemma LogCountsRevocation(l: L.Ledger, id: Id)
    requires Coherent(l)
    ensures Revocations(L.LogOf(l.logs, id)) == if id in RevokedIds(l) then 1 else 0
    ensures forall j, k :: 0 <= j < k < |L.LogOf(l.logs, id)| && L.LogOf(l.logs, id)[j].action.Revoked? ==>
              L.LogOf(l.logs, id)[k].action.Transferred? || L.LogOf(l.logs, id)[k].action.Deleted?
  {
    hide OrderOk, SubjectListsOk, IssuerListsOk, IssuedOk, Keyed;
    var log := L.LogOf(l.logs, id);
    assert WellLogged(log, id in RevokedIds(l));
    if id in RevokedIds(l) {
      var k :| 0 <= k < |log| && log[k].action.Revoked?
        && (forall j :: 0 <= j < k ==> !log[j].action.Revoked?)
        && (forall j :: k < j < |log| ==> log[j].action.Transferred? || log[j].action.Deleted?);
      RevocationsOne(log, k);
    } else {
      RevocationsNone(log);
    }
  }

  // ---------------------------------------------------------------- the freshness hypothesis is needed

  /** A premium issuer that proposes the same accredited claim twice at one ledger time: both calls
      succeed, the subject's list holds the id twice, and the total no longer counts the records. */
  lemma CollisionBreaksIndexes(env: Env, proposer: Address, subject: Address)
    requires proposer in env.issuers && proposer in env.premium && !env.paused
    ensures
      var propose := Call(env, Propose(proposer, subject, ACCREDITED, [], 0));
      var id := env.attestationId(proposer, subject, ACCREDITED, env.now);
      var w := Run(INITIAL, [propose, propose]);
      && Read(w.ledger.bySubject, subject) == [id, id] && w.ledger.attestations == 2 && |w.ledger.records| == 1
      && !FreshRun(INITIAL, [propose, propose]) && !Coherent(w.ledger)
  {
    hide Coherent, NoDup;
    var propose := Call(env, Propose(proposer, subject, ACCREDITED, [], 0));
    var id := env.attestationId(proposer, subject, ACCREDITED, env.now);
    var a := L.NewRecord(id, proposer, subject, ACCREDITED, env.now, None);
    var w1 := INITIAL.(ledger := L.Store(INITIAL.ledger, a));
    var w2 := w1.(ledger := L.Store(w1.ledger, a));
    assert Apply(INITIAL, propose) == w1;
    assert Apply(w1, propose) == w2;
    assert [propose, propose][1..] == [propose] && [propose][1..] == [];
    assert Run(w1, [propose]) == w2;
    assert w2.ledger.records == map[id := a];
    EmptyCoherent();
    ApplyKeepsLedger(INITIAL, propose);
    ApplyKeepsLedger(w1, propose);
  }

  // ---------------------------------------------------------------- requests

  predicate Fulfils(w: World, c: Call, id: Id) {
    c.action.Fulfill? && c.action.id == id && Attempt(w, c).Ok?
  }

  /** How many calls of a run fulfil the given request. */
  function Fulfilments(w: World, calls: seq<Call>, id: Id): nat
    decreases |calls|
  {
    if calls == [] then 0
    else (if Fulfils(w, calls[0], id) then 1 else 0) + Fulfilments(Apply(w, calls[0]), calls[1..], id)
  }

  predicate HasStatus(w: World, id: Id, status: RequestStatus) { id in w.requests && w.requests[id].status == status }

  predicate OnRequests(a: Action) { a.Submit? || a.Fulfill? || a.Reject? || a.Cancel? }

  lemma RequestsUntouched(w: World, c: Call)
    requires !OnRequests(c.action)
    ensures Apply(w, c).requests == w.requests
  {
    hide L.Put, M.Propose, M.Cosign;
    if Attempt(w, c).Ok? {
      if c.action.Propose? {
        ProposeStores(w, c);
      } else if c.action.Cosign? {
        CosignStores(w, c);
      }
    }
  }

  lemma OtherRequestCalls(w: World, c: Call, id: Id)
    requires c.action.Submit? || c.action.Reject? || c.action.Cancel?
    ensures !HasStatus(w, id, Fulfilled) ==> !HasStatus(Apply(w, c), id, Fulfilled)
  {
    hide Push, Drop;
  }

  lemma FulfillCall(w: World, c: Call, id: Id)
    requires c.action.Fulfill? && R.RequestsOk(w) && Attempt(w, c).Ok?
    ensures var q := c.action.id;
      && HasStatus(w, q, Waiting) && c.env.now < w.requests[q].expiresAt
      && Apply(w, c).requests == w.requests[q := w.requests[q].(status := Fulfilled)]
  {
    hide L.Put, Drop, R.RequestsOk;
    R.RequestKeyed(w, c.action.id);
  }

  /** Only fulfilling a request makes it `Fulfilled`, before it expires. */
  lemma FulfilledStep(w: World, c: Call, id: Id)
    requires R.RequestsOk(w)
    ensures Fulfils(w, c, id) ==> HasStatus(w, id, Waiting) && HasStatus(Apply(w, c), id, Fulfilled)
                                  && c.env.now < w.requests[id].expiresAt
    ensures !Fulfils(w, c, id) && !HasStatus(w, id, Fulfilled) ==> !HasStatus(Apply(w, c), id, Fulfilled)
  {
    hide R.RequestsOk, Attempt;
    if !OnRequests(c.action) {
      RequestsUntouched(w, c);
    } else if !c.action.Fulfill? {
      OtherRequestCalls(w, c, id);
    } else if Attempt(w, c).Ok? {
      FulfillCall(w, c, id);
    }
  }

  /** Each request is fulfilled at most once over any run, and its status says whether it was. */
  lemma {:induction false} FulfilledAtMostOnce(w: World, calls: seq<Call>, id: Id)
    requires ProtocolsOk(w)
    ensures Fulfilments(w, calls, id)
         == if !HasStatus(w, id, Fulfilled) && HasStatus(Run(w, calls), id, Fulfilled) then 1 else 0
    decreases |calls|
  {
    hide R.RequestsOk, M.ProposalsOk, D.DelegationsOk, Apply, Fulfils;
    if calls != [] {
      var w1 := Apply(w, calls[0]);
      ApplyKeepsProtocols(w, calls[0]);
      FulfilledStep(w, calls[0], id);
      FulfilledAtMostOnce(w1, calls[1..], id);
      RunKeepsProtocols(w1, calls[1..]);
    }
  }

  // ---------------------------------------------------------------- cursor walks over runs

  /** The ledgers a client meets when the given stretches of calls happen between its pages. */
  function Met(w: World, stretches: seq<seq<Call>>): seq<L.Ledger>
    decreases |stretches|
  {
    if stretches == [] then [w.ledger] else [w.ledger] + Met(Run(w, stretches[0]), stretches[1..])
  }

  predicate FreshStretches(w: World, stretches: seq<seq<Call>>)
    decreases |stretches|
  {
    stretches == [] || (FreshRun(w, stretches[0]) && FreshStretches(Run(w, stretches[0]), stretches[1..]))
  }

  lemma {:induction false} MetEvolves(w: World, stretches: seq<seq<Call>>)
    requires Coherent(w.ledger) && FreshStretches(w, stretches)
    ensures forall i :: 0 <= i < |Met(w, stretches)| ==> Coherent(Met(w, stretches)[i]) && Evolves(w.ledger, Met(w, stretches)[i])
    ensures forall i, j :: 0 <= i < j < |Met(w, stretches)| ==> Evolves(Met(w, stretches)[i], Met(w, stretches)[j])
    decreases |stretches|
  {
    hide Coherent, Evolves, Run, FreshRun;
    EvolvesReflexive(w.ledger);
    if stretches != [] {
      var w1, ls, rest := Run(w, stretches[0]), Met(w, stretches), Met(Run(w, stretches[0]), stretches[1..]);
      RunKeepsLedger(w, stretches[0]);
      MetEvolves(w1, stretches[1..]);
      assert forall i :: 0 < i < |ls| ==> ls[i] == rest[i - 1];
      forall i | 0 <= i < |ls| ensures Coherent(ls[i]) && Evolves(w.ledger, ls[i]) {
        if i > 0 {
          EvolvesTransitive(w.ledger, w1.ledger, ls[i]);
        }
      }
      forall i, j | 0 <= i < j < |ls| ensures Evolves(ls[i], ls[j]) {
        if i > 0 {
          assert Evolves(rest[i - 1], rest[j - 1]);
        }
      }
    }
  }

  lemma MetTimeline(w: World, stretches: seq<seq<Call>>)
    requires Coherent(w.ledger) && FreshStretches(w, stretches)
    ensures Met(w, stretches) != []
    ensures var ls := Met(w, stretches); C.Timeline(ls, ls[|ls| - 1].order)
  {
    hide Coherent, RecordEvolves;
    MetEvolves(w, stretches);
    var ls := Met(w, stretches);
    var n := |ls| - 1;
    forall i | 0 <= i < |ls| ensures ls[i].order <= ls[n].order {
      assert i < n ==> Evolves(ls[i], ls[n]);
    }
  }

  /** Arbitrary calls between the pages, deletions of the cursor's own record included, on ranges that need
      not be sorted: as long as every page continues after its cursor, the walk returns no record twice
      and misses none that stays. */
  lemma CursorWalkOverRuns(w: World, stretches: seq<seq<Call>>, subject: Address, from: nat, to: nat, limit: nat)
    requires Coherent(w.ledger) && FreshStretches(w, stretches) && from <= to && limit > 0
    requires var ls := Met(w, stretches); C.WalkResumes(ls, subject, from, to, limit, None, C.Known(ls))
    ensures var ls := Met(w, stretches);
      var walk := C.Walk(ls, subject, from, to, limit, None);
      && (forall i, j :: 0 <= i < j < |walk| ==> walk[i].id != walk[j].id)
      && (C.Finished(ls, subject, from, to, limit, None) ==>
            forall id :: C.Survives(ls, subject, from, to, id) ==> C.Returned(walk, id))
  {
    hide Coherent, Met, FreshStretches, C.Timeline, C.WalkResumes, C.Survives;
    MetTimeline(w, stretches);
    var ls := Met(w, stretches);
    C.WalkReturnsSurvivorsOnce(ls, ls[|ls| - 1].order, subject, from, to, limit);
  }

  /** Ranges sorted in every ledger met are one case of that. */
  lemma SortedWalkOverRuns(w: World, stretches: seq<seq<Call>>, subject: Address, from: nat, to: nat, limit: nat)
    requires Coherent(w.ledger) && FreshStretches(w, stretches) && from <= to && limit > 0
    requires C.AllSorted(Met(w, stretches), subject, from, to)
    ensures var ls := Met(w, stretches); C.WalkResumes(ls, subject, from, to, limit, None, C.Known(ls))
  {
    hide Coherent, Met, FreshStretches, C.Timeline, C.WalkResumes, C.AllSorted;
    MetTimeline(w, stretches);
    var ls := Met(w, stretches);
    C.SortedWalkResumes(ls, ls[|ls| - 1].order, subject, from, to, limit);
  }

  // ---------------------------------------------------------------- a record a walk never returns

  /** The ledger after the only creation so far, and after the import of a second record. */
  lemma CreateThenImport(env: Env, admin: Address, issuer: Address, subject: Address, claimType: ClaimType, older: nat)
      returns (a: Attestation, b: Attestation, l1: L.Ledger, l2: L.Ledger)
    requires issuer in env.issuers && !env.paused && issuer != subject && env.council.Some? && admin in env.council.value
    requires env.limits.perIssuer > 0 && env.limits.perSubject > 0 && older < env.now
    requires env.attestationId(issuer, subject, claimType, older) != env.attestationId(issuer, subject, claimType, env.now)
    ensures a == L.NewRecord(env.attestationId(issuer, subject, claimType, env.now), issuer, subject, claimType, env.now, None)
    ensures b == L.NewRecord(env.attestationId(issuer, subject, claimType, older), issuer, subject, claimType, older, None).(origin := Imported)
    ensures L.Create(L.EMPTY, env, issuer, subject, claimType, None, None, None) == Ok(l1)
    ensures L.Import(l1, env, admin, issuer, subject, claimType, older, None) == Ok(l2)
    ensures l2.records == map[a.id := a, b.id := b] && Read(l2.bySubject, subject) == [a.id, b.id]
  {
    a := L.NewRecord(env.attestationId(issuer, subject, claimType, env.now), issuer, subject, claimType, env.now, None);
    b := L.NewRecord(env.attestationId(issuer, subject, claimType, older), issuer, subject, claimType, older, None).(origin := Imported);
    l1 := L.Create(L.EMPTY, env, issuer, subject, claimType, None, None, None).value;
    l2 := L.Import(l1, env, admin, issuer, subject, claimType, older, None).value;
    assert a == a.(metadata := None, validFrom := None);
  }

  /** An issuer attests, an administrator imports an older attestation of the same subject, and a client
      reads the first page of one record. Then the subject deletes that record, and the client's next
      page is empty: the imported record, there all along, is never returned. */
  lemma ResumeSkips(env: Env, admin: Address, issuer: Address, subject: Address, claimType: ClaimType, older: nat)
    requires issuer in env.issuers && !env.paused && issuer != subject && env.council.Some? && admin in env.council.value
    requires env.limits.perIssuer > 0 && env.limits.perSubject > 0 && older < env.now
    requires env.attestationId(issuer, subject, claimType, older) != env.attestationId(issuer, subject, claimType, env.now)
    ensures
      var first, missed := env.attestationId(issuer, subject, claimType, env.now), env.attestationId(issuer, subject, claimType, older);
      var create := Call(env, Create(issuer, subject, claimType, None, None, None));
      var import_ := Call(env, Import(admin, issuer, subject, claimType, older, None));
      var delete := Call(env, Delete(subject, first));
      var ls := [Run(INITIAL, [create, import_]).ledger, Run(INITIAL, [create, import_, delete]).ledger];
      && C.Finished(ls, subject, 0, env.now, 1, None) && C.Survives(ls, subject, 0, env.now, missed)
      && !C.Returned(C.Walk(ls, subject, 0, env.now, 1, None), missed)
  {
    var a, b, l1, l2 := CreateThenImport(env, admin, issuer, subject, claimType, older);
    var create := Call(env, Create(issuer, subject, claimType, None, None, None));
    var import_ := Call(env, Import(admin, issuer, subject, claimType, older, None));
    var delete := Call(env, Delete(subject, a.id));
    var l3 := L.Erase(l2, env, a.id);
    RunTwoThree(create, import_, delete);
    hide L.Create, L.Import, L.Erase, Run, C.Walk, C.Finished, C.Survives;
    assert Apply(INITIAL, create) == INITIAL.(ledger := l1);
    assert Apply(INITIAL.(ledger := l1), import_) == INITIAL.(ledger := l2);
    assert Apply(INITIAL.(ledger := l2), delete) == INITIAL.(ledger := l3);
    SkippedPages(l2, l3, env, subject, a, b);
  }

  lemma RunTwoThree(a: Call, b: Call, c: Call)
    ensures Run(INITIAL, [a, b]) == Apply(Apply(INITIAL, a), b)
    ensures Run(INITIAL, [a, b, c]) == Apply(Apply(Apply(INITIAL, a), b), c)
  {
    RunSplit(INITIAL, a, [b]);
    RunSplit(INITIAL, a, [b, c]);
    RunSplit(Apply(INITIAL, a), b, []);
    RunSplit(Apply(INITIAL, a), b, [c]);
    RunSplit(Apply(Apply(INITIAL, a), b), c, []);
    assert [a] + [b] == [a, b] && [a] + [b, c] == [a, b, c] && [b] + [] == [b] && [b] + [c] == [b, c] && [c] + [] == [c];
  }

  /** The two pages of that walk. */
  lemma SkippedPages(l2: L.Ledger, l3: L.Ledger, env: Env, subject: Address, a: Attestation, b: Attestation)
    requires l2.records == map[a.id := a, b.id := b] && Read(l2.bySubject, subject) == [a.id, b.id] && a.id != b.id
    requires a.subject == subject && l3 == L.Erase(l2, env, a.id)
    requires b.timestamp < a.timestamp == env.now && !a.deleted && !b.deleted
    ensures var ls := [l2, l3];
      && C.Finished(ls, subject, 0, env.now, 1, None) && C.Survives(ls, subject, 0, env.now, b.id)
      && !C.Returned(C.Walk(ls, subject, 0, env.now, 1, None), b.id)
  {
    var ls := [l2, l3];
    TwoListed(l2, l3, env, subject, a, b);
    hide C.RangeList, L.Erase;
    assert C.RangeAfter(l2, subject, 0, env.now, None, 1) == [a];
    assert [b][1..] == [];
    assert C.FindId([b], a.id) == 1 && C.FindLater([b], a.timestamp, a.id) == 1;
    assert C.RangeAfter(l3, subject, 0, env.now, Some(a.id), 1) == [];
    hide C.RangeAfter;
    assert ls[1..] == [l3] && [l3][1..] == [];
    assert C.Walk([l3], subject, 0, env.now, 1, Some(a.id)) == [];
    assert C.Walk(ls, subject, 0, env.now, 1, None) == [a];
    assert C.Finished([l3], subject, 0, env.now, 1, Some(a.id));
  }

  lemma TwoListed(l2: L.Ledger, l3: L.Ledger, env: Env, subject: Address, a: Attestation, b: Attestation)
    requires l2.records == map[a.id := a, b.id := b] && Read(l2.bySubject, subject) == [a.id, b.id] && a.id != b.id
    requires a.subject == subject && l3 == L.Erase(l2, env, a.id)
    requires b.timestamp < a.timestamp == env.now && !a.deleted && !b.deleted
    ensures C.RangeList(l2, subject, 0, env.now) == [a, b] && C.RangeList(l3, subject, 0, env.now) == [b]
    ensures l3.records.Keys == l2.records.Keys && l3.records[b.id] == b && l3.records[a.id].timestamp == a.timestamp
  {
    hide C.InRange, Without;
    WithoutFirst(a.id, b.id);
    assert Read(l3.bySubject, subject) == [b.id];
    RangeOfTwo(l2.records, a.id, b.id, env.now);
    RangeOfTwo(l3.records, a.id, b.id, env.now);
  }

  lemma WithoutFirst(x: Id, y: Id)
    requires x != y
    ensures Without([x, y], x) == [y]
  {
    assert [x, y][1..] == [y] && [y][1..] == [];
    assert Without([y], x) == [y];
  }

  lemma RangeOfTwo(records: map<Id, Attestation>, x: Id, y: Id, to: nat)
    ensures C.InRange(records, [y], 0, to) == C.Entry(records, y, 0, to)
    ensures C.InRange(records, [x, y], 0, to) == C.Entry(records, x, 0, to) + C.Entry(records, y, 0, to)
  {
    hide C.Entry;
    assert [x, y][..1] == [x] && [x][..0] == [] && [y][..0] == [];
    assert C.InRange(records, [x], 0, to) == C.Entry(records, x, 0, to);
  }
}
