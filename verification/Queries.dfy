/** What the claim queries of src/query.rs mean: answers over an index against a scan of all records. */
module Queries {
  import opened Types
  import opened Sequences
  import opened Pagination
  import opened Coherence
  import opened Ledger
  import opened ChunkedIndex
  import C = Cursor

  type Records = map<Id, Attestation>

  /** A record that counts at a time: neither revoked nor deleted, already in effect and not yet expired. */
  predicate InForce(a: Attestation, now: nat) {
    && !a.revoked && !a.deleted
    && (a.validFrom.None? || a.validFrom.value <= now)
    && (a.expiration.None? || now < a.expiration.value)
  }

  /** A record of the claim type in force now. */
  predicate Hit(records: Records, now: nat, id: Id, claimType: ClaimType) {
    id in records && records[id].claimType == claimType && InForce(records[id], now)
  }

  /** What the four statuses mean: a record not yet in effect is pending even if revoked, a revoked one is
      revoked even if expired, and what is left is valid up to its expiration. */
  lemma StatusMeans(a: Attestation, now: nat)
    ensures !a.deleted ==> (a.Status(now) == Valid <==> InForce(a, now))
    ensures a.Status(now) == Pending <==> a.validFrom.Some? && now < a.validFrom.value
    ensures a.Status(now) == RevokedStatus <==> a.revoked && (a.validFrom.None? || a.validFrom.value <= now)
    ensures a.Status(now) == Expired <==>
      !a.revoked && (a.validFrom.None? || a.validFrom.value <= now) && a.expiration.Some? && a.expiration.value <= now
  {
  }

  /** `get_attestation_status`: a deleted record has none. */
  method GetAttestationStatus(l: Ledger, now: nat, id: Id) returns (r: Result<Status>)
    ensures r.Err? ==> r.error == NotFound
    ensures r.Err? <==> id !in l.records || l.records[id].deleted
    ensures r == Ok(Valid) <==> id in l.records && InForce(l.records[id], now)
    ensures r == Ok(Pending) ==> l.records[id].validFrom.Some? && now < l.records[id].validFrom.value
    ensures r == Ok(Expired) ==> l.records[id].expiration.Some? && l.records[id].expiration.value <= now
    ensures r == Ok(RevokedStatus) ==> l.records[id].revoked
  {
    if id !in l.records || l.records[id].deleted {
      return Err(NotFound);
    }
    StatusMeans(l.records[id], now);
    return Ok(l.records[id].Status(now));
  }

  /** The reference: some record of the subject, wherever it is listed, is a hit. */
  ghost predicate HoldsClaim(l: Ledger, now: nat, subject: Address, claimType: ClaimType) {
    exists id :: id in l.records && l.records[id].subject == subject && Hit(l.records, now, id, claimType)
  }

  ghost predicate HoldsClaimFrom(l: Ledger, now: nat, subject: Address, claimType: ClaimType, issuer: Address) {
    exists id :: id in l.records && l.records[id].subject == subject && l.records[id].issuer == issuer
                 && Hit(l.records, now, id, claimType)
  }

  lemma FlatMember(l: Ledger, subject: Address, id: Id)
    requires Coherent(l)
    ensures id in Read(l.bySubject, subject) <==> id in Live(l, subject)
  {
    hide IssuerListsOk, LogsOk, IssuedOk, Keyed;
    RestrictMembers(l.order, Live(l, subject));
  }

  lemma ValidMember(l: Ledger, subject: Address, id: Id)
    requires Coherent(l)
    ensures id in Read(l.valid, subject) <==> id in Indexed(l, subject)
  {
    hide IssuerListsOk, LogsOk, IssuedOk, Keyed;
    RestrictMembers(l.order, Indexed(l, subject));
  }

  /** The valid list answers for the whole ledger, stale batch-revoked ids notwithstanding. */
  lemma ValidListAnswers(l: Ledger, now: nat, subject: Address, claimType: ClaimType)
    requires Coherent(l)
    ensures HoldsClaim(l, now, subject, claimType) <==>
      exists id :: id in Read(l.valid, subject) && id in l.records && l.records[id].claimType == claimType
                   && l.records[id].Status(now) == Valid
  {
    hide Coherent;
    if HoldsClaim(l, now, subject, claimType) {
      var id :| id in l.records && l.records[id].subject == subject && Hit(l.records, now, id, claimType);
      ValidMember(l, subject, id);
    }
    forall id | id in Read(l.valid, subject) && id in l.records && l.records[id].claimType == claimType
                && l.records[id].Status(now) == Valid
      ensures HoldsClaim(l, now, subject, claimType)
    {
      ValidMember(l, subject, id);
      assert Hit(l.records, now, id, claimType);
    }
  }

  /** The flat list answers for the whole ledger, for any issuer. */
  lemma FlatListAnswers(l: Ledger, now: nat, subject: Address, claimType: ClaimType)
    requires Coherent(l)
    ensures HoldsClaim(l, now, subject, claimType) <==>
      exists id :: id in Read(l.bySubject, subject) && Hit(l.records, now, id, claimType)
    ensures forall issuer :: HoldsClaimFrom(l, now, subject, claimType, issuer) <==>
      exists id :: id in Read(l.bySubject, subject) && Hit(l.records, now, id, claimType) && l.records[id].issuer == issuer
  {
    hide Coherent;
    forall id ensures id in Read(l.bySubject, subject) <==> id in Live(l, subject) {
      FlatMember(l, subject, id);
    }
    forall id | id in l.records && l.records[id].subject == subject && Hit(l.records, now, id, claimType)
      ensures id in Read(l.bySubject, subject)
    {
    }
  }

  /** What `has_valid_claim` finds: a valid match in the valid list, deleted or not. */
  ghost predicate InValidList(l: Ledger, now: nat, subject: Address, claimType: ClaimType) {
    exists id :: id in Read(l.valid, subject) && id in l.records && l.records[id].claimType == claimType
                 && l.records[id].Status(now) == Valid
  }

  /** What `has_valid_claim_from_issuer` finds: an undeleted valid match of the issuer in the flat list. */
  ghost predicate InFlatListFrom(l: Ledger, now: nat, subject: Address, claimType: ClaimType, issuer: Address) {
    exists id :: id in Read(l.bySubject, subject) && Hit(l.records, now, id, claimType) && l.records[id].issuer == issuer
  }

  /** The two queries read different lists and filter differently, yet one answers yes iff the other
      does for some issuer. */
  lemma HoldsFromSomeIssuer(l: Ledger, now: nat, subject: Address, claimType: ClaimType)
    requires Coherent(l)
    ensures InValidList(l, now, subject, claimType) <==>
      exists issuer :: InFlatListFrom(l, now, subject, claimType, issuer)
  {
    hide Coherent;
    ValidListAnswers(l, now, subject, claimType);
    FlatListAnswers(l, now, subject, claimType);
    if HoldsClaim(l, now, subject, claimType) {
      var id :| id in Read(l.bySubject, subject) && Hit(l.records, now, id, claimType);
      assert InFlatListFrom(l, now, subject, claimType, l.records[id].issuer);
    }
  }

  /** The subject's ids that are valid now. */
  ghost function ValidIds(l: Ledger, now: nat, subject: Address): set<Id> {
    set id | id in l.records && l.records[id].subject == subject && InForce(l.records[id], now)
  }

  /** The flat list without its records that are not valid now has exactly the valid ones, once each. */
  lemma ValidInFlatList(l: Ledger, now: nat, subject: Address)
    requires Coherent(l)
    ensures NoDup(Read(l.bySubject, subject))
    ensures ValidIds(l, now, subject) <= Elems(Read(l.bySubject, subject))
    ensures forall id :: id in Read(l.bySubject, subject) ==> id in l.records && l.records[id].subject == subject
  {
    hide IssuerListsOk, LogsOk, IssuedOk, Keyed;
    RestrictNoDup(l.order, Live(l, subject));
    RestrictMembers(l.order, Live(l, subject));
  }

  /** The chunked index holds no deleted id, so the deleted filter of a public page drops nothing. */
  lemma ChunkedIdsUndeleted(l: Ledger, subject: Address)
    requires Coherent(l)
    ensures forall id :: id in Read(l.subjectChunks, subject) ==> id in l.records && !l.records[id].deleted
  {
    hide IssuerListsOk, LogsOk, IssuedOk, Keyed;
    RestrictMembers(l.order, Indexed(l, subject));
  }

  // ---------------------------------------------------------------- the query loops

  /** `has_valid_claim`: the loop over the valid list does not look at the deleted flag. */
  method HasValidClaim(l: Ledger, now: nat, subject: Address, claimType: ClaimType) returns (found: bool)
    ensures found <==> InValidList(l, now, subject, claimType)
    ensures Coherent(l) ==> (found <==> HoldsClaim(l, now, subject, claimType))
  {
    hide Coherent, HoldsClaim;
    var ids := Read(l.valid, subject);
    found := false;
    for i := 0 to |ids|
      invariant !found
      invariant forall j :: 0 <= j < i && ids[j] in l.records && l.records[ids[j]].claimType == claimType ==>
                  l.records[ids[j]].Status(now) != Valid
    {
      if ids[i] in l.records && l.records[ids[i]].claimType == claimType && l.records[ids[i]].Status(now) == Valid {
        found := true;
        break;
      }
    }
    if Coherent(l) {
      ValidListAnswers(l, now, subject, claimType);
    }
  }

  /** `has_valid_claim_from_issuer`. */
  method HasValidClaimFromIssuer(l: Ledger, now: nat, subject: Address, claimType: ClaimType, issuer: Address) returns (found: bool)
    ensures found <==> InFlatListFrom(l, now, subject, claimType, issuer)
    ensures Coherent(l) ==> (found <==> HoldsClaimFrom(l, now, subject, claimType, issuer))
  {
    hide Coherent, HoldsClaim, HoldsClaimFrom;
    var ids := Read(l.bySubject, subject);
    found := false;
    for i := 0 to |ids|
      invariant !found
      invariant forall j :: 0 <= j < i && Hit(l.records, now, ids[j], claimType) ==> l.records[ids[j]].issuer != issuer
    {
      if ids[i] in l.records && !l.records[ids[i]].deleted && l.records[ids[i]].claimType == claimType
         && l.records[ids[i]].issuer == issuer && l.records[ids[i]].Status(now) == Valid {
        found := true;
        break;
      }
    }
    if Coherent(l) {
      FlatListAnswers(l, now, subject, claimType);
    }
  }

  /** The inner loop shared by `has_any_claim` and `has_all_claims`. */
  method FlatListHas(l: Ledger, now: nat, subject: Address, claimType: ClaimType) returns (found: bool)
    ensures found <==> exists id :: id in Read(l.bySubject, subject) && Hit(l.records, now, id, claimType)
    ensures Coherent(l) ==> (found <==> HoldsClaim(l, now, subject, claimType))
  {
    hide Coherent, HoldsClaim, HoldsClaimFrom;
    var ids := Read(l.bySubject, subject);
    found := false;
    for i := 0 to |ids|
      invariant !found
      invariant forall j :: 0 <= j < i ==> !Hit(l.records, now, ids[j], claimType)
    {
      if ids[i] in l.records && !l.records[ids[i]].deleted && l.records[ids[i]].claimType == claimType
         && l.records[ids[i]].Status(now) == Valid {
        assert Hit(l.records, now, ids[i], claimType);
        found := true;
        break;
      }
    }
    if Coherent(l) {
      FlatListAnswers(l, now, subject, claimType);
    }
  }

  /** `has_any_claim` is the disjunction of the single queries. */
  method HasAnyClaim(l: Ledger, now: nat, subject: Address, claimTypes: seq<ClaimType>) returns (found: bool)
    ensures Coherent(l) ==> (found <==> exists c :: c in claimTypes && HoldsClaim(l, now, subject, c))
  {
    hide Coherent, HoldsClaim;
    found := false;
    if claimTypes == [] {
      return;
    }
    for i := 0 to |claimTypes|
      invariant !found
      invariant Coherent(l) ==> forall j :: 0 <= j < i ==> !HoldsClaim(l, now, subject, claimTypes[j])
    {
      found := FlatListHas(l, now, subject, claimTypes[i]);
      if found {
        assert claimTypes[i] in claimTypes;
        return;
      }
    }
  }

  /** `has_all_claims` is the conjunction of the single queries. */
  method HasAllClaims(l: Ledger, now: nat, subject: Address, claimTypes: seq<ClaimType>) returns (all: bool)
    ensures Coherent(l) ==> (all <==> forall c :: c in claimTypes ==> HoldsClaim(l, now, subject, c))
  {
    hide Coherent, HoldsClaim;
    all := true;
    if claimTypes == [] {
      return;
    }
    for i := 0 to |claimTypes|
      invariant all
      invariant Coherent(l) ==> forall j :: 0 <= j < i ==> HoldsClaim(l, now, subject, claimTypes[j])
    {
      var found := FlatListHas(l, now, subject, claimTypes[i]);
      if !found {
        assert claimTypes[i] in claimTypes;
        return false;
      }
    }
  }

  /** `get_valid_claims` lists each claim the subject holds exactly once. */
  method GetValidClaims(l: Ledger, now: nat, subject: Address) returns (result: seq<ClaimType>)
    ensures NoDup(result)
    ensures Coherent(l) ==> forall c :: c in result <==> HoldsClaim(l, now, subject, c)
  {
    hide Coherent, HoldsClaim, HoldsClaimFrom;
    var ids := Read(l.bySubject, subject);
    result := [];
    for i := 0 to |ids|
      invariant NoDup(result)
      invariant forall c :: c in result <==> exists j :: 0 <= j < i && Hit(l.records, now, ids[j], c)
    {
      if ids[i] in l.records && !l.records[ids[i]].deleted && l.records[ids[i]].Status(now) == Valid {
        var claim := l.records[ids[i]].claimType;
        assert Hit(l.records, now, ids[i], claim);
        if claim !in result {
          result := result + [claim];
        }
      }
    }
    forall c | Coherent(l) ensures c in result <==> HoldsClaim(l, now, subject, c) {
      FlatListAnswers(l, now, subject, c);
    }
  }

  /** The records a claim query can return. */
  ghost function Hits(l: Ledger, now: nat, subject: Address, claimType: ClaimType): set<Id> {
    set id | id in l.records && l.records[id].subject == subject && Hit(l.records, now, id, claimType)
  }

  /** The last element of a list that lies in a set. */
  ghost function LastIn(ids: seq<Id>, hits: set<Id>): Option<Id> {
    if ids == [] then None
    else if ids[|ids| - 1] in hits then Some(ids[|ids| - 1])
    else LastIn(ids[..|ids| - 1], hits)
  }

  lemma {:induction false} LastInRestrict(order: seq<Id>, keep: set<Id>, hits: set<Id>)
    requires forall id :: id in order && id in hits ==> id in keep
    ensures LastIn(Restrict(order, keep), hits) == LastIn(order, hits)
  {
    if order != [] {
      var n := |order| - 1;
      assert order == order[..n] + [order[n]];
      RestrictAppend(order[..n], [order[n]], keep);
      LastInRestrict(order[..n], keep, hits);
      var r, x := Restrict(order[..n], keep), [order[n]];
      assert x[1..] == [];
      assert Restrict(x, keep) == if order[n] in keep then x else [];
      if order[n] in keep {
        assert Restrict(order, keep) == r + x;
        assert Restrict(order, keep)[..|r|] == r;
      } else {
        assert Restrict(order, keep) == r;
      }
    }
  }

  lemma {:induction false} LastInMembers(ids: seq<Id>, hits: set<Id>)
    ensures LastIn(ids, hits).Some? <==> exists id :: id in ids && id in hits
    ensures LastIn(ids, hits).Some? ==> LastIn(ids, hits).value in hits && LastIn(ids, hits).value in ids
  {
    if ids != [] {
      var n := |ids| - 1;
      LastInMembers(ids[..n], hits);
      assert forall id :: id in ids <==> id in ids[..n] || id == ids[n];
    }
  }

  /** In the flat list of a subject, the last hit is the last created one. */
  lemma LastHitIsNewest(l: Ledger, now: nat, subject: Address, claimType: ClaimType)
    requires Coherent(l)
    ensures LastIn(Read(l.bySubject, subject), Hits(l, now, subject, claimType)) == LastIn(l.order, Hits(l, now, subject, claimType))
    ensures LastIn(l.order, Hits(l, now, subject, claimType)).Some? <==> HoldsClaim(l, now, subject, claimType)
  {
    hide IssuerListsOk, LogsOk, IssuedOk, Keyed;
    var hits := Hits(l, now, subject, claimType);
    assert hits <= Live(l, subject);
    LastInRestrict(l.order, Live(l, subject), hits);
    LastInMembers(l.order, hits);
    assert HoldsClaim(l, now, subject, claimType) <==> hits != {};
    assert forall id :: id in hits ==> id in l.order;
  }

  /** `get_attestation_by_type` returns the most recently created valid match, if there is one. */
  method GetAttestationByType(l: Ledger, now: nat, subject: Address, claimType: ClaimType) returns (r: Option<Attestation>)
    ensures Coherent(l) ==> (r.Some? <==> HoldsClaim(l, now, subject, claimType))
    ensures Coherent(l) && r.Some? ==>
      r.value.id in l.records && r.value == l.records[r.value.id]
      && LastIn(l.order, Hits(l, now, subject, claimType)) == Some(r.value.id)
  {
    hide Coherent, HoldsClaim;
    var ids := Read(l.bySubject, subject);
    ghost var hits := Hits(l, now, subject, claimType);
    if Coherent(l) {
      LastHitIsNewest(l, now, subject, claimType);
      FlatSubjects(l, subject);
    }
    assert ids[..|ids|] == ids;
    var index := |ids|;
    while index > 0
      invariant 0 <= index <= |ids|
      invariant Coherent(l) ==> LastIn(ids, hits) == LastIn(ids[..index], hits)
    {
      index := index - 1;
      assert ids[..index + 1][..index] == ids[..index];
      assert Coherent(l) ==> (ids[index] in hits <==> Hit(l.records, now, ids[index], claimType));
      if ids[index] in l.records && !l.records[ids[index]].deleted && l.records[ids[index]].claimType == claimType
         && l.records[ids[index]].Status(now) == Valid {
        return Some(l.records[ids[index]]);
      }
    }
    return None;
  }

  lemma FlatSubjects(l: Ledger, subject: Address)
    requires Coherent(l)
    ensures forall id :: id in Read(l.bySubject, subject) ==>
      id in l.records && l.records[id].subject == subject && l.records[id].id == id
  {
    hide IssuerListsOk, LogsOk, IssuedOk;
    RestrictMembers(l.order, Live(l, subject));
  }

  lemma RestrictCounts(ids: seq<Id>, keep: set<Id>)
    requires NoDup(ids) && keep <= Elems(ids)
    ensures |Restrict(ids, keep)| == |keep|
  {
    RestrictNoDup(ids, keep);
    RestrictMembers(ids, keep);
    NoDupCardinality(Restrict(ids, keep));
    assert Elems(Restrict(ids, keep)) == keep;
  }

  lemma RestrictExtend(ids: seq<Id>, i: nat, keep: set<Id>)
    requires i < |ids|
    ensures Restrict(ids[..i + 1], keep) == Restrict(ids[..i], keep) + if ids[i] in keep then [ids[i]] else []
  {
    assert ids[..i + 1] == ids[..i] + [ids[i]];
    RestrictAppend(ids[..i], [ids[i]], keep);
    assert [ids[i]][1..] == [];
  }

  /** `get_valid_claim_count` counts the subject's valid records. */
  method GetValidClaimCount(l: Ledger, now: nat, subject: Address) returns (count: nat)
    ensures Coherent(l) ==> count == |ValidIds(l, now, subject)|
  {
    hide Coherent, NoDup, Restrict;
    var ids := Read(l.bySubject, subject);
    ghost var valid := ValidIds(l, now, subject);
    if Coherent(l) {
      ValidInFlatList(l, now, subject);
      RestrictCounts(ids, valid);
    }
    count := 0;
    assert ids[..0] == [] && |Restrict<Id>([], valid)| == 0 by { RestrictNone(valid); }
    for i := 0 to |ids|
      invariant Coherent(l) ==> count == |Restrict(ids[..i], valid)|
    {
      RestrictExtend(ids, i, valid);
      assert Coherent(l) ==> ids[i] in ids;
      if ids[i] in l.records && !l.records[ids[i]].deleted && l.records[ids[i]].Status(now) == Valid {
        count := count + 1;
      }
    }
    assert ids[..|ids|] == ids;
  }

  lemma RestrictNone(keep: set<Id>)
    ensures Restrict([], keep) == []
  {
  }

  ghost function UndeletedIds(l: Ledger): set<Id> { set id | id in l.records && !l.records[id].deleted }

  /** `get_subject_attestations`: a page of the chunked index, without deleted records. */
  method GetSubjectAttestations(l: Ledger, chunks: Chunks, subject: Address, start: nat, limit: nat) returns (result: seq<Id>)
    requires Holds(chunks, l.subjectChunks)
    requires start < |Read(l.subjectChunks, subject)| ==> start + limit <= U32_MAX
    ensures result == Restrict(Slice(Read(l.subjectChunks, subject), start, limit), UndeletedIds(l))
    ensures Coherent(l) ==> result == Slice(Read(l.subjectChunks, subject), start, limit)
  {
    hide Coherent, Holds, Restrict;
    var all := ReadAll(chunks, l.subjectChunks, subject);
    var ids := Paginate(all, start, limit);
    ghost var keep := UndeletedIds(l);
    result := [];
    assert ids[..0] == [];
    RestrictNone(keep);
    for i := 0 to |ids|
      invariant result == Restrict(ids[..i], keep)
    {
      RestrictExtend(ids, i, keep);
      if ids[i] in l.records && !l.records[ids[i]].deleted {
        result := result + [ids[i]];
      }
    }
    assert ids[..|ids|] == ids;
    if Coherent(l) {
      PageUnfiltered(l, subject, start, limit);
    }
  }

  /** In a coherent ledger the deleted filter drops nothing. */
  lemma PageUnfiltered(l: Ledger, subject: Address, start: nat, limit: nat)
    requires Coherent(l)
    ensures var page := Slice(Read(l.subjectChunks, subject), start, limit); Restrict(page, UndeletedIds(l)) == page
  {
    hide Coherent;
    ChunkedIdsUndeleted(l, subject);
    var all, page := Read(l.subjectChunks, subject), Slice(Read(l.subjectChunks, subject), start, limit);
    forall id | id in page ensures id in UndeletedIds(l) {
      assert id in all;
    }
    RestrictAll(page, UndeletedIds(l));
  }

  /** So the public pages at 0, n, 2n, ... tile the subject's index: each entry is on exactly one page. */
  lemma PublicPagesTile(l: Ledger, subject: Address, n: nat)
    requires Coherent(l) && n > 0
    ensures
      var all := Read(l.subjectChunks, subject);
      && Pages(all, n, PageCount(|all|, n)) == all
      && (forall k: nat :: Restrict(Slice(all, k * n, n), UndeletedIds(l)) == Slice(all, k * n, n))
      && (forall k: nat :: Slice(all, k * n, n) != [] <==> k < PageCount(|all|, n))
  {
    hide Coherent, Slice, Pages, PageCount;
    PagesTile(Read(l.subjectChunks, subject), n);
    forall k: nat
      ensures Restrict(Slice(Read(l.subjectChunks, subject), k * n, n), UndeletedIds(l)) == Slice(Read(l.subjectChunks, subject), k * n, n)
    {
      PageUnfiltered(l, subject, k * n, n);
    }
  }

  // ---------------------------------------------------------------- range queries

  method FilterRange(l: Ledger, subject: Address, from: nat, to: nat) returns (filtered: seq<Attestation>)
    ensures filtered == C.RangeList(l, subject, from, to)
  {
    var ids := Read(l.bySubject, subject);
    filtered := [];
    for i := 0 to |ids|
      invariant filtered == C.InRange(l.records, ids[..i], from, to)
    {
      assert ids[..i + 1][..i] == ids[..i];
      if ids[i] in l.records && !l.records[ids[i]].deleted && from <= l.records[ids[i]].timestamp <= to {
        filtered := filtered + [l.records[ids[i]]];
      }
    }
    assert ids[..|ids|] == ids;
  }

  /** The two searches of the cursor query: for the cursor itself, then for the first later record. */
  method FindStart(filtered: seq<Attestation>, ts: nat, id: Id) returns (start: Option<nat>)
    ensures start == C.StartAfter(filtered, ts, id)
  {
    ghost var f, q := C.FindId(filtered, id), C.FindLater(filtered, ts, id);
    for i := 0 to |filtered|
      invariant forall k :: 0 <= k < i ==> filtered[k].id != id
    {
      if filtered[i].id == id {
        assert f == i;
        return Some(i + 1);
      }
    }
    assert f == |filtered|;
    for i := 0 to |filtered|
      invariant forall k :: 0 <= k < i ==> !C.Before(ts, id, filtered[k])
    {
      if filtered[i].timestamp > ts || (filtered[i].timestamp == ts && filtered[i].id > id) {
        assert q == i;
        return Some(i);
      }
    }
    assert q == |filtered|;
    return None;
  }

  /** `get_attestations_in_range_after`. The sum of the start position and the limit is a checked u32
      addition. */
  method GetAttestationsInRangeAfter(l: Ledger, subject: Address, from: nat, to: nat, cursor: Option<Id>, limit: nat)
      returns (result: seq<Attestation>)
    requires var start := C.Start(l, subject, from, to, cursor); start.Some? ==> start.value + limit <= U32_MAX
    ensures result == C.RangeAfter(l, subject, from, to, cursor, limit)
  {
    hide C.StartAfter, C.RangeList;
    result := [];
    if from > to {
      return;
    }
    var filtered := FilterRange(l, subject, from, to);
    var startIndex := 0;
    if cursor.Some? {
      if cursor.value !in l.records {
        return;
      }
      var start := FindStart(filtered, l.records[cursor.value].timestamp, cursor.value);
      if start.None? {
        return;
      }
      startIndex := start.value;
    }
    StartWithin(l, subject, from, to, cursor);
    var end := Min(startIndex + limit, |filtered|);
    for i := startIndex to end
      invariant result == filtered[startIndex..i]
    {
      result := result + [filtered[i]];
    }
  }

  lemma StartWithin(l: Ledger, subject: Address, from: nat, to: nat, cursor: Option<Id>)
    ensures var start := C.Start(l, subject, from, to, cursor);
      start.Some? ==> start.value <= |C.RangeList(l, subject, from, to)|
  {
  }
}
