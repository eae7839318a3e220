/** Cursor pagination under concurrent change: `get_attestations_in_range_after` of src/query.rs. */
module Cursor {
  import opened Types
  import opened Sequences
  import opened Pagination
  import opened Coherence
  import opened Evolution
  import opened Ledger

  /** The order the cursor recovery assumes: by timestamp, then by id. */
  predicate Before(ts: nat, id: Id, a: Attestation) {
    ts < a.timestamp || (ts == a.timestamp && id < a.id)
  }

  predicate Sorted(xs: seq<Attestation>) {
    forall i, j :: 0 <= i < j < |xs| ==>
      xs[i].timestamp < xs[j].timestamp || (xs[i].timestamp == xs[j].timestamp && xs[i].id < xs[j].id)
  }

  /** The record of an id, if it is there, undeleted and within a time range. */
  function Entry(records: map<Id, Attestation>, id: Id, from: nat, to: nat): seq<Attestation> {
    if id in records && !records[id].deleted && from <= records[id].timestamp <= to then [records[id]] else []
  }

  /** Those of a whole id list, in list order. */
  function InRange(records: map<Id, Attestation>, ids: seq<Id>, from: nat, to: nat): seq<Attestation> {
    if ids == [] then []
    else
      var n := |ids| - 1;
      InRange(records, ids[..n], from, to) + Entry(records, ids[n], from, to)
  }

  /** Position of the first element satisfying the search, or the length of the list. */
  function FindId(xs: seq<Attestation>, id: Id): (i: nat)
    ensures i <= |xs| && (i < |xs| ==> xs[i].id == id)
    ensures forall k :: 0 <= k < i ==> xs[k].id != id
  {
    if xs == [] || xs[0].id == id then 0 else 1 + FindId(xs[1..], id)
  }

  function FindLater(xs: seq<Attestation>, ts: nat, id: Id): (i: nat)
    ensures i <= |xs| && (i < |xs| ==> Before(ts, id, xs[i]))
    ensures forall k :: 0 <= k < i ==> !Before(ts, id, xs[k])
  {
    if xs == [] || Before(ts, id, xs[0]) then 0 else 1 + FindLater(xs[1..], ts, id)
  }

  /** Where the next page starts, if anywhere: right after the cursor when it is still listed,
      otherwise at the first record that sorts after it. */
  function StartAfter(xs: seq<Attestation>, ts: nat, id: Id): Option<nat> {
    if FindId(xs, id) < |xs| then Some(FindId(xs, id) + 1)
    else if FindLater(xs, ts, id) < |xs| then Some(FindLater(xs, ts, id))
    else None
  }

  /** The filtered list of a query and the position its page starts at; `None` is an empty answer. */
  function RangeList(l: Ledger, subject: Address, from: nat, to: nat): seq<Attestation> {
    InRange(l.records, Read(l.bySubject, subject), from, to)
  }

  function Start(l: Ledger, subject: Address, from: nat, to: nat, cursor: Option<Id>): Option<nat> {
    if from > to then None
    else if cursor.None? then Some(0)
    else if cursor.value !in l.records then None
    else StartAfter(RangeList(l, subject, from, to), l.records[cursor.value].timestamp, cursor.value)
  }

  /** `get_attestations_in_range_after`. */
  function RangeAfter(l: Ledger, subject: Address, from: nat, to: nat, cursor: Option<Id>, limit: nat): seq<Attestation> {
    var start := Start(l, subject, from, to, cursor);
    if start.None? then [] else Slice(RangeList(l, subject, from, to), start.value, limit)
  }

  /** No page for an inverted range or a cursor that was never stored. */
  lemma NoPage(l: Ledger, subject: Address, from: nat, to: nat, cursor: Option<Id>, limit: nat)
    requires from > to || (cursor.Some? && cursor.value !in l.records)
    ensures RangeAfter(l, subject, from, to, cursor, limit) == []
  {
  }

  // ---------------------------------------------------------------- what a range lists

  lemma {:induction false} InRangeMembers(records: map<Id, Attestation>, ids: seq<Id>, from: nat, to: nat)
    ensures forall a :: a in InRange(records, ids, from, to) ==> exists id :: id in ids && id in records && records[id] == a
  {
    if ids != [] {
      var n := |ids| - 1;
      InRangeMembers(records, ids[..n], from, to);
      forall a | a in InRange(records, ids, from, to)
        ensures exists id :: id in ids && id in records && records[id] == a
      {
        if a in InRange(records, ids[..n], from, to) {
          var id :| id in ids[..n] && id in records && records[id] == a;
          assert id in ids;
        } else {
          assert ids[n] in ids;
        }
      }
    }
  }

  /** Every listed record is the stored record of its id. */
  lemma ListedRecords(l: Ledger, subject: Address, from: nat, to: nat)
    requires Keyed(l)
    ensures forall a :: a in RangeList(l, subject, from, to) ==> a.id in l.records && l.records[a.id] == a
  {
    InRangeMembers(l.records, Read(l.bySubject, subject), from, to);
  }

  lemma {:induction false} InRangeHas(records: map<Id, Attestation>, ids: seq<Id>, from: nat, to: nat, id: Id)
    requires id in ids && id in records && !records[id].deleted && from <= records[id].timestamp <= to
    ensures records[id] in InRange(records, ids, from, to)
  {
    var n := |ids| - 1;
    if ids[n] != id {
      assert id in ids[..n];
      InRangeHas(records, ids[..n], from, to, id);
    }
  }

  /** What is listed: the live records of the subject in the range. */
  lemma RangeMember(l: Ledger, subject: Address, from: nat, to: nat, id: Id)
    requires Coherent(l)
    ensures id in l.records && l.records[id] in RangeList(l, subject, from, to) <==>
      id in Live(l, subject) && from <= l.records[id].timestamp <= to
  {
    hide IssuerListsOk, LogsOk, IssuedOk;
    var ids := Read(l.bySubject, subject);
    RestrictMembers(l.order, Live(l, subject));
    if id in Live(l, subject) && from <= l.records[id].timestamp <= to {
      InRangeHas(l.records, ids, from, to, id);
    }
    if id in l.records && l.records[id] in RangeList(l, subject, from, to) {
      ListedInRange(l.records, ids, from, to);
      var other :| other in ids && other in l.records && l.records[other] == l.records[id];
      assert other == id;
    }
  }

  lemma {:induction false} ListedInRange(records: map<Id, Attestation>, ids: seq<Id>, from: nat, to: nat)
    ensures forall a :: a in InRange(records, ids, from, to) ==> from <= a.timestamp <= to
    ensures forall a :: a in InRange(records, ids, from, to) ==> exists id :: id in ids && id in records && records[id] == a
  {
    InRangeMembers(records, ids, from, to);
    if ids != [] {
      ListedInRange(records, ids[..|ids| - 1], from, to);
    }
  }

  // ---------------------------------------------------------------- the order of creation

  /** The position of an id in the order of creation. */
  function Pos(order: seq<Id>, id: Id): (i: nat)
    ensures i <= |order| && (i < |order| ==> order[i] == id)
    ensures forall k :: 0 <= k < i ==> order[k] != id
  {
    if order == [] || order[0] == id then 0 else 1 + Pos(order[1..], id)
  }

  lemma PosPrefix(order: seq<Id>, longer: seq<Id>, id: Id)
    requires order <= longer
    ensures id in order ==> Pos(longer, id) == Pos(order, id) < |order|
    ensures id in longer && id !in order ==> |order| <= Pos(longer, id)
  {
    var i, j := Pos(order, id), Pos(longer, id);
    assert forall k :: 0 <= k < |order| ==> order[k] == longer[k];
  }

  predicate InOrder(order: seq<Id>, xs: seq<Attestation>) {
    forall i, j :: 0 <= i < j < |xs| ==> Pos(order, xs[i].id) < Pos(order, xs[j].id)
  }

  predicate IdsInOrder(order: seq<Id>, ids: seq<Id>) {
    forall i, j :: 0 <= i < j < |ids| ==> Pos(order, ids[i]) < Pos(order, ids[j])
  }

  lemma {:induction false} RestrictInOrder(order: seq<Id>, keep: set<Id>)
    requires NoDup(order)
    ensures IdsInOrder(order, Restrict(order, keep))
  {
    if order != [] {
      var rest, ids, tail := order[1..], Restrict(order, keep), Restrict(order[1..], keep);
      assert forall i :: 0 <= i < |rest| ==> rest[i] == order[i + 1];
      RestrictInOrder(rest, keep);
      RestrictMembers(rest, keep);
      forall id | id in tail ensures Pos(order, id) == 1 + Pos(rest, id) {
        var i :| 0 <= i < |rest| && rest[i] == id;
        assert order[0] != order[i + 1];
      }
      assert IdsInOrder(order, tail) by {
        forall i, j | 0 <= i < j < |tail| ensures Pos(order, tail[i]) < Pos(order, tail[j]) {
          assert tail[i] in tail && tail[j] in tail;
        }
      }
      if order[0] in keep {
        assert ids == [order[0]] + tail;
        assert forall i :: 0 <= i < |tail| ==> tail[i] in tail;
      }
    }
  }

  lemma {:induction false} InRangeInOrder(records: map<Id, Attestation>, order: seq<Id>, ids: seq<Id>, from: nat, to: nat)
    requires IdsInOrder(order, ids) && forall id :: id in records ==> records[id].id == id
    ensures InOrder(order, InRange(records, ids, from, to))
  {
    if ids != [] {
      var n := |ids| - 1;
      var front := InRange(records, ids[..n], from, to);
      InRangeInOrder(records, order, ids[..n], from, to);
      InRangeMembers(records, ids[..n], from, to);
      forall a | a in front ensures Pos(order, a.id) < Pos(order, ids[n]) {
        var id :| id in ids[..n] && id in records && records[id] == a;
        var i :| 0 <= i < n && ids[i] == id;
      }
      assert forall i :: 0 <= i < |front| ==> front[i] in front;
    }
  }

  /** Lists keep the order of creation, whatever the timestamps. */
  lemma RangeInOrder(l: Ledger, subject: Address, from: nat, to: nat)
    requires Coherent(l)
    ensures InOrder(l.order, RangeList(l, subject, from, to))
  {
    hide IssuerListsOk, LogsOk, IssuedOk, NoDup, IdsInOrder;
    RestrictInOrder(l.order, Live(l, subject));
    InRangeInOrder(l.records, l.order, Read(l.bySubject, subject), from, to);
  }

  // ---------------------------------------------------------------- one page

  /** The record was created after the cursor's, if there is a cursor. */
  predicate AfterCursor(order: seq<Id>, cursor: Option<Id>, id: Id) {
    cursor.None? || Pos(order, cursor.value) < Pos(order, id)
  }

  /** When a page continues after its cursor: the cursor is still listed; or, where the search for a
      record that sorts after it stops, nothing created before the cursor follows and nothing created
      after it, among the records the client could know of, has been passed over. */
  predicate Resumes(l: Ledger, subject: Address, from: nat, to: nat, cursor: Option<Id>, known: set<Id>) {
    cursor.None? ||
    (cursor.value in l.records &&
     var xs := RangeList(l, subject, from, to);
     var q := FindLater(xs, l.records[cursor.value].timestamp, cursor.value);
     || FindId(xs, cursor.value) < |xs|
     || forall k :: 0 <= k < |xs| ==>
          if k < q then xs[k].id in known ==> !AfterCursor(l.order, cursor, xs[k].id)
          else AfterCursor(l.order, cursor, xs[k].id))
  }

  /** Such a page is a block of the list that starts right after the cursor. */
  lemma PageIsBlock(l: Ledger, subject: Address, from: nat, to: nat, cursor: Option<Id>, limit: nat, known: set<Id>) returns (p: nat)
    requires Coherent(l) && from <= to && Resumes(l, subject, from, to, cursor, known)
    ensures var xs := RangeList(l, subject, from, to);
      && p <= |xs| && RangeAfter(l, subject, from, to, cursor, limit) == xs[p..Min(p + limit, |xs|)]
      && (forall k :: p <= k < |xs| ==> AfterCursor(l.order, cursor, xs[k].id))
      && (forall k :: 0 <= k < p && xs[k].id in known ==> !AfterCursor(l.order, cursor, xs[k].id))
  {
    hide Coherent, RangeList, Pos;
    var xs := RangeList(l, subject, from, to);
    if cursor.None? {
      p := 0;
    } else {
      RangeInOrder(l, subject, from, to);
      var f := FindId(xs, cursor.value);
      if f < |xs| {
        p := f + 1;
        assert forall k :: 0 <= k < f ==> Pos(l.order, xs[k].id) < Pos(l.order, xs[f].id);
      } else {
        p := FindLater(xs, l.records[cursor.value].timestamp, cursor.value);
      }
    }
  }

  /** A block of a list in order is in order, and what follows it was created after all of it. */
  lemma BlockFacts(order: seq<Id>, xs: seq<Attestation>, p: nat, limit: nat)
    requires InOrder(order, xs) && p <= |xs|
    ensures var page := xs[p..Min(p + limit, |xs|)];
      && InOrder(order, page)
      && (limit > 0 && p < |xs| ==> page != [])
      && (forall k :: p <= k < |xs| && limit > 0 ==>
            xs[k] in page || Pos(order, page[|page| - 1].id) < Pos(order, xs[k].id))
  {
    hide Pos;
    var page := xs[p..Min(p + limit, |xs|)];
    forall k | p <= k < |xs| && limit > 0
      ensures xs[k] in page || Pos(order, page[|page| - 1].id) < Pos(order, xs[k].id)
    {
      if k < p + |page| {
        assert page[k - p] == xs[k];
      } else {
        assert page[|page| - 1] == xs[p + |page| - 1];
      }
    }
  }

  /** A page is in order and lies after the cursor; a known record it leaves out comes after all of it. */
  lemma PageFacts(l: Ledger, subject: Address, from: nat, to: nat, cursor: Option<Id>, limit: nat, known: set<Id>)
    requires Coherent(l) && from <= to && Resumes(l, subject, from, to, cursor, known)
    ensures var page := RangeAfter(l, subject, from, to, cursor, limit);
      && InOrder(l.order, page)
      && (forall a :: a in page ==> a in RangeList(l, subject, from, to) && AfterCursor(l.order, cursor, a.id))
      && (limit > 0 ==>
            forall a :: a in RangeList(l, subject, from, to) && a.id in known && AfterCursor(l.order, cursor, a.id) ==>
              page != [] && (a in page || Pos(l.order, page[|page| - 1].id) < Pos(l.order, a.id)))
  {
    hide RangeAfter, RangeList, InOrder, Coherent, Pos, AfterCursor, Resumes;
    var xs, page := RangeList(l, subject, from, to), RangeAfter(l, subject, from, to, cursor, limit);
    var p := PageIsBlock(l, subject, from, to, cursor, limit, known);
    RangeInOrder(l, subject, from, to);
    BlockFacts(l.order, xs, p, limit);
    assert forall i :: 0 <= i < |page| ==> page[i] == xs[p + i];
    forall a | limit > 0 && a in xs && a.id in known && AfterCursor(l.order, cursor, a.id)
      ensures page != [] && (a in page || Pos(l.order, page[|page| - 1].id) < Pos(l.order, a.id))
    {
      var k :| 0 <= k < |xs| && xs[k] == a;
      assert p <= k;
    }
  }

  // ---------------------------------------------------------------- a whole walk

  /** A client that asks for page after page, each time passing the id of the last record it got, and
      stops at an empty page. The ledger may change arbitrarily between two pages. */
  function Walk(ls: seq<Ledger>, subject: Address, from: nat, to: nat, limit: nat, cursor: Option<Id>): seq<Attestation> {
    if ls == [] then []
    else
      var page := RangeAfter(ls[0], subject, from, to, cursor, limit);
      if page == [] then []
      else page + Walk(ls[1..], subject, from, to, limit, Some(page[|page| - 1].id))
  }

  /** The walk ended with an empty page. */
  predicate Finished(ls: seq<Ledger>, subject: Address, from: nat, to: nat, limit: nat, cursor: Option<Id>) {
    ls != [] &&
    var page := RangeAfter(ls[0], subject, from, to, cursor, limit);
    page == [] || Finished(ls[1..], subject, from, to, limit, Some(page[|page| - 1].id))
  }

  /** Every page of the walk continues after its cursor. */
  predicate WalkResumes(ls: seq<Ledger>, subject: Address, from: nat, to: nat, limit: nat, cursor: Option<Id>, known: set<Id>) {
    ls != [] ==>
      var page := RangeAfter(ls[0], subject, from, to, cursor, limit);
      && Resumes(ls[0], subject, from, to, cursor, known)
      && (page != [] ==> WalkResumes(ls[1..], subject, from, to, limit, Some(page[|page| - 1].id), known))
  }

  /** Ledgers that follow one another in a run, all of them on the way to the given order of creation. */
  ghost predicate Timeline(ls: seq<Ledger>, order: seq<Id>) {
    && (forall i :: 0 <= i < |ls| ==> Coherent(ls[i]) && ls[i].order <= order)
    && (forall i, j :: 0 <= i < j < |ls| ==> Evolves(ls[i], ls[j]))
  }

  ghost predicate KnownCursor(ls: seq<Ledger>, cursor: Option<Id>) {
    cursor.Some? && ls != [] ==> cursor.value in ls[0].order
  }

  lemma ListedIsCreated(l: Ledger, subject: Address, from: nat, to: nat, a: Attestation)
    requires Coherent(l) && a in RangeList(l, subject, from, to)
    ensures a.id in l.records && l.records[a.id] == a && a.id in l.order
  {
    hide SubjectListsOk, IssuerListsOk, LogsOk, IssuedOk, RangeList;
    ListedRecords(l, subject, from, to);
  }

  lemma OrderKept(ls: seq<Ledger>, order: seq<Id>, id: Id)
    requires Timeline(ls, order) && ls != [] && id in ls[0].order
    ensures Timeline(ls[1..], order) && KnownCursor(ls[1..], Some(id))
  {
    hide Coherent;
    if |ls| > 1 {
      assert Evolves(ls[0], ls[1]);
    }
  }

  /** Positions in a ledger's own order are positions in the final one. */
  lemma SamePos(l: Ledger, order: seq<Id>, id: Id)
    requires l.order <= order && id in l.order
    ensures Pos(order, id) == Pos(l.order, id)
  {
    PosPrefix(l.order, order, id);
  }

  lemma PagePositions(l: Ledger, order: seq<Id>, page: seq<Attestation>)
    requires l.order <= order && InOrder(l.order, page) && forall a :: a in page ==> a.id in l.order
    ensures InOrder(order, page)
  {
    hide Pos;
    forall i, j | 0 <= i < j < |page| ensures Pos(order, page[i].id) < Pos(order, page[j].id) {
      assert page[i] in page && page[j] in page;
      SamePos(l, order, page[i].id);
      SamePos(l, order, page[j].id);
    }
  }

  /** The page of a walk's first step and the walk from there on. */
  lemma WalkStep(ls: seq<Ledger>, order: seq<Id>, subject: Address, from: nat, to: nat, limit: nat, cursor: Option<Id>, known: set<Id>)
      returns (page: seq<Attestation>)
    requires Timeline(ls, order) && KnownCursor(ls, cursor) && from <= to && ls != []
    requires Resumes(ls[0], subject, from, to, cursor, known)
    ensures page == RangeAfter(ls[0], subject, from, to, cursor, limit) && InOrder(order, page)
    ensures forall a :: a in page ==> AfterCursor(order, cursor, a.id)
    ensures page != [] ==> Timeline(ls[1..], order) && KnownCursor(ls[1..], Some(page[|page| - 1].id))
  {
    page := RangeAfter(ls[0], subject, from, to, cursor, limit);
    assert Coherent(ls[0]) && ls[0].order <= order;
    PageFacts(ls[0], subject, from, to, cursor, limit, known);
    hide RangeAfter, RangeList, InOrder, Coherent, Pos, Timeline, Resumes;
    forall a | a in page ensures a.id in ls[0].order && AfterCursor(order, cursor, a.id) {
      ListedIsCreated(ls[0], subject, from, to, a);
      SamePos(ls[0], order, a.id);
      if cursor.Some? {
        SamePos(ls[0], order, cursor.value);
      }
    }
    PagePositions(ls[0], order, page);
    if page != [] {
      OrderKept(ls, order, page[|page| - 1].id);
    }
  }

  lemma JoinInOrder(order: seq<Id>, page: seq<Attestation>, rest: seq<Attestation>)
    requires page != [] && InOrder(order, page) && InOrder(order, rest)
    requires forall a :: a in rest ==> Pos(order, page[|page| - 1].id) < Pos(order, a.id)
    ensures InOrder(order, page + rest)
  {
    hide Pos;
    var all := page + rest;
    forall i, j | 0 <= i < j < |all| ensures Pos(order, all[i].id) < Pos(order, all[j].id) {
      if i < |page| <= j {
        assert all[j] in rest;
        assert i < |page| - 1 ==> Pos(order, page[i].id) < Pos(order, page[|page| - 1].id);
      }
    }
  }

  /** The walk returns records in order of creation, all after the cursor: none twice. */
  lemma {:induction false} WalkIncreases(ls: seq<Ledger>, order: seq<Id>, subject: Address, from: nat, to: nat, limit: nat,
                                         cursor: Option<Id>, known: set<Id>)
    requires Timeline(ls, order) && KnownCursor(ls, cursor) && from <= to
    requires WalkResumes(ls, subject, from, to, limit, cursor, known)
    ensures InOrder(order, Walk(ls, subject, from, to, limit, cursor))
    ensures forall a :: a in Walk(ls, subject, from, to, limit, cursor) ==> AfterCursor(order, cursor, a.id)
    decreases |ls|
  {
    hide RangeAfter, RangeList, Timeline, Pos, Resumes;
    if ls != [] {
      var page := WalkStep(ls, order, subject, from, to, limit, cursor, known);
      if page != [] {
        var last := page[|page| - 1];
        var rest := Walk(ls[1..], subject, from, to, limit, Some(last.id));
        WalkIncreases(ls[1..], order, subject, from, to, limit, Some(last.id), known);
        JoinInOrder(order, page, rest);
        forall a | a in rest ensures AfterCursor(order, cursor, a.id) {
          assert AfterCursor(order, Some(last.id), a.id) && AfterCursor(order, cursor, last.id);
        }
      }
    }
  }

  /** A record with this id is in range in every ledger of the timeline. */
  ghost predicate Survives(ls: seq<Ledger>, subject: Address, from: nat, to: nat, id: Id) {
    forall i :: 0 <= i < |ls| ==>
      id in ls[i].records && ls[i].records[id] in RangeList(ls[i], subject, from, to)
  }

  ghost predicate Returned(walk: seq<Attestation>, id: Id) {
    exists a :: a in walk && a.id == id
  }

  /** A survivor created after the cursor is on the page or was created after the next cursor. */
  lemma SurvivorStep(ls: seq<Ledger>, order: seq<Id>, subject: Address, from: nat, to: nat, limit: nat, cursor: Option<Id>,
                     known: set<Id>, id: Id) returns (page: seq<Attestation>)
    requires Timeline(ls, order) && KnownCursor(ls, cursor) && from <= to && limit > 0 && ls != []
    requires Resumes(ls[0], subject, from, to, cursor, known) && id in known && AfterCursor(order, cursor, id)
    requires id in ls[0].records && ls[0].records[id] in RangeList(ls[0], subject, from, to)
    ensures page == RangeAfter(ls[0], subject, from, to, cursor, limit) && page != []
    ensures Timeline(ls[1..], order) && KnownCursor(ls[1..], Some(page[|page| - 1].id))
    ensures Returned(page, id) || AfterCursor(order, Some(page[|page| - 1].id), id)
  {
    var l, a := ls[0], ls[0].records[id];
    assert Coherent(l) && l.order <= order && a.id == id;
    page := WalkStep(ls, order, subject, from, to, limit, cursor, known);
    PageFacts(l, subject, from, to, cursor, limit, known);
    hide RangeAfter, RangeList, InOrder, Coherent, Pos, Timeline, Resumes;
    ListedIsCreated(l, subject, from, to, a);
    SamePos(l, order, id);
    if cursor.Some? {
      SamePos(l, order, cursor.value);
    }
    var last := page[|page| - 1];
    ListedIsCreated(l, subject, from, to, last);
    SamePos(l, order, last.id);
  }

  /** A finished walk has returned every record that was in range all along. */
  lemma {:induction false} WalkFindsSurvivors(ls: seq<Ledger>, order: seq<Id>, subject: Address, from: nat, to: nat, limit: nat,
                                              cursor: Option<Id>, known: set<Id>, id: Id)
    requires Timeline(ls, order) && KnownCursor(ls, cursor) && from <= to && limit > 0
    requires WalkResumes(ls, subject, from, to, limit, cursor, known) && id in known && AfterCursor(order, cursor, id)
    requires Finished(ls, subject, from, to, limit, cursor) && Survives(ls, subject, from, to, id)
    ensures Returned(Walk(ls, subject, from, to, limit, cursor), id)
    decreases |ls|
  {
    hide RangeAfter, RangeList, Timeline, AfterCursor, Resumes;
    var page := SurvivorStep(ls, order, subject, from, to, limit, cursor, known, id);
    var last := page[|page| - 1];
    var rest := Walk(ls[1..], subject, from, to, limit, Some(last.id));
    if Returned(page, id) {
      var a :| a in page && a.id == id;
      assert a in page + rest;
    } else {
      WalkFindsSurvivors(ls[1..], order, subject, from, to, limit, Some(last.id), known, id);
      var a :| a in rest && a.id == id;
      assert a in page + rest;
    }
  }

  /** What the client could know of when it starts. */
  function Known(ls: seq<Ledger>): set<Id> { if ls == [] then {} else ls[0].records.Keys }

  /** The cursor walk, from the start, on any ranges, sorted or not: as long as every page continues after
      its cursor, no record is returned twice, and every record that stays is returned. */
  lemma WalkReturnsSurvivorsOnce(ls: seq<Ledger>, order: seq<Id>, subject: Address, from: nat, to: nat, limit: nat)
    requires Timeline(ls, order) && from <= to && limit > 0
    requires WalkResumes(ls, subject, from, to, limit, None, Known(ls))
    ensures var walk := Walk(ls, subject, from, to, limit, None);
      && (forall i, j :: 0 <= i < j < |walk| ==> walk[i].id != walk[j].id)
      && (Finished(ls, subject, from, to, limit, None) ==>
            forall id :: Survives(ls, subject, from, to, id) ==> Returned(walk, id))
  {
    hide Walk, Timeline, Finished, RangeList, WalkResumes, Pos;
    var walk := Walk(ls, subject, from, to, limit, None);
    WalkIncreases(ls, order, subject, from, to, limit, None, Known(ls));
    forall id | Finished(ls, subject, from, to, limit, None) && Survives(ls, subject, from, to, id)
      ensures Returned(walk, id)
    {
      FinishedMet(ls, subject, from, to, limit);
      assert id in ls[0].records;
      WalkFindsSurvivors(ls, order, subject, from, to, limit, None, Known(ls), id);
    }
  }

  lemma FinishedMet(ls: seq<Ledger>, subject: Address, from: nat, to: nat, limit: nat)
    requires Finished(ls, subject, from, to, limit, None)
    ensures ls != []
  {
  }

  // ---------------------------------------------------------------- sorted ranges

  /** A live record of a later ledger that was stored before was live then. */
  lemma ListedBefore(l: Ledger, l1: Ledger, subject: Address, from: nat, to: nat, id: Id)
    requires Coherent(l) && Coherent(l1) && Evolves(l, l1) && id in l.records
    requires id in l1.records && l1.records[id] in RangeList(l1, subject, from, to)
    ensures l.records[id] in RangeList(l, subject, from, to) && l1.records[id].timestamp == l.records[id].timestamp
    ensures l1.records[id].id == id && l.records[id].id == id
  {
    hide RangeList, OrderOk, SubjectListsOk, IssuerListsOk, LogsOk, IssuedOk;
    RangeMember(l1, subject, from, to, id);
    RangeMember(l, subject, from, to, id);
    assert RecordEvolves(l.records[id], l1.records[id]);
  }

  /** On a sorted list, sorting later and being created later are the same. */
  lemma SortedIsCreated(l: Ledger, subject: Address, from: nat, to: nat, a: Attestation, b: Attestation)
    requires Coherent(l) && Sorted(RangeList(l, subject, from, to)) && a.id != b.id
    requires a in RangeList(l, subject, from, to) && b in RangeList(l, subject, from, to)
    ensures Before(a.timestamp, a.id, b) <==> Pos(l.order, a.id) < Pos(l.order, b.id)
  {
    hide Coherent, RangeList, Pos;
    RangeInOrder(l, subject, from, to);
    var xs := RangeList(l, subject, from, to);
    var i :| 0 <= i < |xs| && xs[i] == a;
    var j :| 0 <= j < |xs| && xs[j] == b;
    assert i < j ==> Before(a.timestamp, a.id, b);
    assert j < i ==> Before(b.timestamp, b.id, a);
  }

  /** One listed record of a later ledger, against a cursor that has left the list. */
  lemma SortedPlace(l: Ledger, l1: Ledger, subject: Address, from: nat, to: nat, c: Attestation, a: Attestation)
    requires Coherent(l) && Coherent(l1) && Evolves(l, l1) && Sorted(RangeList(l, subject, from, to))
    requires c in RangeList(l, subject, from, to) && a in RangeList(l1, subject, from, to) && a.id != c.id
    ensures a.id in l.records ==> (Before(c.timestamp, c.id, a) <==> Pos(l1.order, c.id) < Pos(l1.order, a.id))
    ensures a.id !in l.records ==> Pos(l1.order, c.id) < Pos(l1.order, a.id)
  {
    hide RangeList, Coherent, Pos, Sorted, Evolves, Before;
    ListedIsCreated(l, subject, from, to, c);
    ListedIsCreated(l1, subject, from, to, a);
    OrderGrows(l, l1, a.id);
    PosPrefix(l.order, l1.order, c.id);
    PosPrefix(l.order, l1.order, a.id);
    if a.id in l.records {
      ListedBefore(l, l1, subject, from, to, a.id);
      SortedIsCreated(l, subject, from, to, c, l.records[a.id]);
      SameKey(c, a, l.records[a.id]);
    }
  }

  lemma SameKey(c: Attestation, a: Attestation, b: Attestation)
    requires a.timestamp == b.timestamp && a.id == b.id
    ensures Before(c.timestamp, c.id, a) <==> Before(c.timestamp, c.id, b)
  {
  }

  lemma OrderGrows(l: Ledger, l1: Ledger, id: Id)
    requires Coherent(l) && Evolves(l, l1)
    ensures l.order <= l1.order && (id in l.order <==> id in l.records)
  {
    hide SubjectListsOk, IssuerListsOk, LogsOk, IssuedOk;
  }

  lemma SortedResumes(l: Ledger, l1: Ledger, subject: Address, from: nat, to: nat, c: Attestation, known: set<Id>)
    requires Coherent(l) && Coherent(l1) && Evolves(l, l1) && known <= l.records.Keys
    requires Sorted(RangeList(l, subject, from, to)) && Sorted(RangeList(l1, subject, from, to))
    requires c in RangeList(l, subject, from, to)
    ensures Resumes(l1, subject, from, to, Some(c.id), known)
  {
    hide RangeList, Coherent, Pos, Evolves, Sorted, Before;
    CursorKept(l, l1, subject, from, to, c);
    var xs := RangeList(l1, subject, from, to);
    var q := FindLater(xs, c.timestamp, c.id);
    if FindId(xs, c.id) == |xs| {
      LaterIsSuffix(xs, c.timestamp, c.id);
      forall k | 0 <= k < |xs|
        ensures if k < q then xs[k].id in known ==> !AfterCursor(l1.order, Some(c.id), xs[k].id)
                else AfterCursor(l1.order, Some(c.id), xs[k].id)
      {
        SortedPlace(l, l1, subject, from, to, c, xs[k]);
      }
    }
  }

  lemma CursorKept(l: Ledger, l1: Ledger, subject: Address, from: nat, to: nat, c: Attestation)
    requires Coherent(l) && Evolves(l, l1) && c in RangeList(l, subject, from, to)
    ensures c.id in l1.records && l1.records[c.id].timestamp == c.timestamp
  {
    ListedIsCreated(l, subject, from, to, c);
    hide Coherent, RangeList;
    assert RecordEvolves(l.records[c.id], l1.records[c.id]);
  }

  /** On a sorted list the records that sort after a key form a suffix. */
  lemma LaterIsSuffix(xs: seq<Attestation>, ts: nat, id: Id)
    requires Sorted(xs)
    ensures forall k :: 0 <= k < |xs| ==> (Before(ts, id, xs[k]) <==> FindLater(xs, ts, id) <= k)
  {
    var q := FindLater(xs, ts, id);
    forall k | q < k < |xs| ensures Before(ts, id, xs[k]) {
      assert Before(xs[q].timestamp, xs[q].id, xs[k]);
    }
  }

  ghost predicate AllSorted(ls: seq<Ledger>, subject: Address, from: nat, to: nat) {
    forall i :: 0 <= i < |ls| ==> Sorted(RangeList(ls[i], subject, from, to))
  }

  lemma {:induction false} SortedWalkFrom(ls: seq<Ledger>, order: seq<Id>, subject: Address, from: nat, to: nat, limit: nat,
                                          l: Ledger, c: Attestation, known: set<Id>)
    requires Timeline([l] + ls, order) && AllSorted([l] + ls, subject, from, to) && from <= to
    requires c in RangeList(l, subject, from, to) && known <= l.records.Keys
    ensures WalkResumes(ls, subject, from, to, limit, Some(c.id), known)
    decreases |ls|
  {
    hide Coherent, RangeList, Evolves, Sorted, RangeAfter, Resumes;
    if ls != [] {
      var all, page := [l] + ls, RangeAfter(ls[0], subject, from, to, Some(c.id), limit);
      assert all[0] == l && all[1] == ls[0] && all[1..] == ls && ls == [ls[0]] + ls[1..];
      assert Coherent(all[0]) && Coherent(all[1]) && Evolves(all[0], all[1]);
      SortedResumes(l, ls[0], subject, from, to, c, known);
      if page != [] {
        TailTimeline(all, order, subject, from, to);
        PageFacts(ls[0], subject, from, to, Some(c.id), limit, known);
        KnownStays(l, ls[0], known);
        SortedWalkFrom(ls[1..], order, subject, from, to, limit, ls[0], page[|page| - 1], known);
      }
    }
  }

  lemma KnownStays(l: Ledger, l1: Ledger, known: set<Id>)
    requires Evolves(l, l1) && known <= l.records.Keys
    ensures known <= l1.records.Keys
  {
  }

  lemma TailTimeline(ls: seq<Ledger>, order: seq<Id>, subject: Address, from: nat, to: nat)
    requires Timeline(ls, order) && AllSorted(ls, subject, from, to) && ls != []
    ensures Timeline(ls[1..], order) && AllSorted(ls[1..], subject, from, to)
  {
    hide Coherent, Evolves, Sorted, RangeList;
  }

  /** Where every range met is sorted by timestamp and id, every page continues after its cursor, even if
      the cursor is gone and whatever was appended. */
  lemma SortedWalkResumes(ls: seq<Ledger>, order: seq<Id>, subject: Address, from: nat, to: nat, limit: nat)
    requires Timeline(ls, order) && AllSorted(ls, subject, from, to) && from <= to
    ensures WalkResumes(ls, subject, from, to, limit, None, Known(ls))
  {
    hide Coherent, RangeList, Evolves, Sorted;
    if ls != [] {
      var page := RangeAfter(ls[0], subject, from, to, None, limit);
      if page != [] {
        PageFacts(ls[0], subject, from, to, None, limit, Known(ls));
        assert ls == [ls[0]] + ls[1..];
        SortedWalkFrom(ls[1..], order, subject, from, to, limit, ls[0], page[|page| - 1], Known(ls));
      }
    }
  }

  // ---------------------------------------------------------------- resuming after a deleted cursor

  predicate DistinctIds(xs: seq<Attestation>) {
    forall i, j :: 0 <= i < j < |xs| ==> xs[i].id != xs[j].id
  }

  function PageAfter(xs: seq<Attestation>, ts: nat, id: Id, limit: nat): seq<Attestation> {
    var start := StartAfter(xs, ts, id);
    if start.None? then [] else Slice(xs, start.value, limit)
  }

  /** Element `i` of a list after its element `n` was removed. */
  lemma Removed(before: seq<Attestation>, c: Attestation, after: seq<Attestation>, i: nat)
    requires i < |before| + |after|
    ensures (before + after)[i] == (before + [c] + after)[if i < |before| then i else i + 1]
  {
  }

  lemma StillDistinct(before: seq<Attestation>, c: Attestation, after: seq<Attestation>)
    requires DistinctIds(before + [c] + after)
    ensures DistinctIds(before + after)
  {
    var n, xs := |before|, before + after;
    forall i, j | 0 <= i < j < |xs| ensures xs[i].id != xs[j].id {
      Removed(before, c, after, i);
      Removed(before, c, after, j);
    }
  }

  lemma CursorGone(before: seq<Attestation>, c: Attestation, after: seq<Attestation>)
    requires DistinctIds(before + [c] + after)
    ensures FindId(before + after, c.id) == |before + after|
  {
    var xs, f := before + after, FindId(before + after, c.id);
    assert (before + [c] + after)[|before|] == c;
    if f < |xs| {
      Removed(before, c, after, f);
    }
  }

  /** On distinct ids, equal pages start at equal positions. */
  lemma SameBlockIff(xs: seq<Attestation>, p: nat, q: nat, limit: nat)
    requires DistinctIds(xs) && p <= |xs| && q <= |xs| && limit > 0
    ensures Slice(xs, p, limit) == Slice(xs, q, limit) <==> p == q
  {
    if Slice(xs, p, limit) == Slice(xs, q, limit) {
      assert p < |xs| ==> Slice(xs, p, limit)[0] == xs[p];
      assert q < |xs| ==> Slice(xs, q, limit)[0] == xs[q];
    }
  }

  lemma FindLaterIs(before: seq<Attestation>, after: seq<Attestation>, ts: nat, id: Id)
    ensures FindLater(before + after, ts, id) == |before| <==>
      && (forall i :: 0 <= i < |before| ==> !Before(ts, id, before[i]))
      && (after == [] || Before(ts, id, after[0]))
  {
    var xs, q := before + after, FindLater(before + after, ts, id);
    assert forall i :: 0 <= i < |before| ==> xs[i] == before[i];
    assert after != [] ==> xs[|before|] == after[0];
    assert q < |before| ==> Before(ts, id, before[q]);
  }

  /** When the cursor's record has been removed from between `before` and `after`, the next page is the
      next block of `after` iff nothing before the cursor sorts after it and the next record does. */
  lemma ListResumesIff(before: seq<Attestation>, c: Attestation, after: seq<Attestation>, limit: nat)
    requires DistinctIds(before + [c] + after) && limit > 0
    ensures PageAfter(before + after, c.timestamp, c.id, limit) == Slice(after, 0, limit) <==>
      && (forall i :: 0 <= i < |before| ==> !Before(c.timestamp, c.id, before[i]))
      && (after == [] || Before(c.timestamp, c.id, after[0]))
  {
    hide DistinctIds, FindLater, Before;
    var xs := before + after;
    var q := FindLater(xs, c.timestamp, c.id);
    StillDistinct(before, c, after);
    CursorGone(before, c, after);
    assert PageAfter(xs, c.timestamp, c.id, limit) == Slice(xs, q, limit);
    assert Slice(xs, |before|, limit) == Slice(after, 0, limit);
    SameBlockIff(xs, q, |before|, limit);
    FindLaterIs(before, after, c.timestamp, c.id);
  }

  /** A list without the record of an id. */
  function Others(xs: seq<Attestation>, id: Id): seq<Attestation> {
    if xs == [] then []
    else
      var n := |xs| - 1;
      Others(xs[..n], id) + if xs[n].id == id then [] else [xs[n]]
  }

  lemma {:induction false} OthersAppend(xs: seq<Attestation>, ys: seq<Attestation>, id: Id)
    ensures Others(xs + ys, id) == Others(xs, id) + Others(ys, id)
    decreases |ys|
  {
    if ys == [] {
      assert xs + ys == xs;
    } else {
      var n := |ys| - 1;
      assert (xs + ys)[..|xs| + n] == xs + ys[..n];
      OthersAppend(xs, ys[..n], id);
    }
  }

  lemma {:induction false} OthersAll(xs: seq<Attestation>, id: Id)
    requires forall i :: 0 <= i < |xs| ==> xs[i].id != id
    ensures Others(xs, id) == xs
  {
    if xs != [] {
      OthersAll(xs[..|xs| - 1], id);
    }
  }

  lemma OthersAround(before: seq<Attestation>, c: Attestation, after: seq<Attestation>)
    requires DistinctIds(before + [c] + after)
    ensures Others(before + [c] + after, c.id) == before + after
  {
    hide Others, DistinctIds;
    AroundDistinct(before, c, after);
    OthersAll(before, c.id);
    OthersAll(after, c.id);
    OthersAppend(before + [c], after, c.id);
    OthersAppend(before, [c], c.id);
    OthersOne(c, c.id);
    assert before + [] == before;
  }

  lemma AroundDistinct(before: seq<Attestation>, c: Attestation, after: seq<Attestation>)
    requires DistinctIds(before + [c] + after)
    ensures forall i :: 0 <= i < |before| ==> before[i].id != c.id
    ensures forall i :: 0 <= i < |after| ==> after[i].id != c.id
  {
    var xs, n := before + [c] + after, |before|;
    assert xs[n] == c;
    forall i | 0 <= i < |before| ensures before[i].id != c.id {
      assert before[i] == xs[i];
    }
    forall i | 0 <= i < |after| ensures after[i].id != c.id {
      assert after[i] == xs[n + 1 + i];
    }
  }

  lemma OthersOne(a: Attestation, id: Id)
    ensures Others([a], id) == if a.id == id then [] else [a]
  {
    assert [a][..0] == [];
  }

  /** From one ledger to the next, the cursor's record has left its subject's list and nothing else
      the query reads has changed. */
  ghost predicate Leaves(l: Ledger, l1: Ledger, subject: Address, c: Attestation) {
    && Read(l1.bySubject, subject) == Without(Read(l.bySubject, subject), c.id) && l1.order == l.order
    && l1.records.Keys == l.records.Keys && (c.id in l.records ==> l1.records[c.id].timestamp == l.records[c.id].timestamp)
    && (forall id :: id in l.records && id != c.id ==> l1.records[id] == l.records[id])
  }

  lemma {:induction false} InRangeWithout(records: map<Id, Attestation>, records1: map<Id, Attestation>, ids: seq<Id>, from: nat, to: nat, x: Id)
    requires records1.Keys == records.Keys && forall id :: id in records ==> records[id].id == id
    requires forall id :: id in records && id != x ==> records1[id] == records[id]
    ensures InRange(records1, Without(ids, x), from, to) == Others(InRange(records, ids, from, to), x)
  {
    hide Others;
    if ids != [] {
      var n := |ids| - 1;
      var front, r, hit := Without(ids[..n], x), InRange(records, ids[..n], from, to), Entry(records, ids[n], from, to);
      InRangeWithout(records, records1, ids[..n], from, to, x);
      WithoutLast(ids, x);
      OthersAppend(r, hit, x);
      assert hit != [] ==> hit == [records[ids[n]]];
      if hit != [] { OthersOne(hit[0], x); } else { NoOthers(x); }
      if ids[n] == x {
        assert front + [] == front && Others(r, x) + [] == Others(r, x);
      } else {
        assert (front + [ids[n]])[..|front|] == front;
        assert Entry(records1, ids[n], from, to) == hit;
      }
    } else {
      NoOthers(x);
    }
  }

  lemma NoOthers(x: Id)
    ensures Others([], x) == []
  {
  }

  lemma WithoutLast(ids: seq<Id>, x: Id)
    requires ids != []
    ensures var n := |ids| - 1; Without(ids, x) == Without(ids[..n], x) + if ids[n] == x then [] else [ids[n]]
  {
    var n := |ids| - 1;
    assert ids == ids[..n] + [ids[n]] && [ids[n]][1..] == [];
    WithoutAppend(ids[..n], [ids[n]], x);
  }

  lemma DistinctRange(l: Ledger, subject: Address, from: nat, to: nat)
    requires Coherent(l)
    ensures DistinctIds(RangeList(l, subject, from, to))
  {
    hide Coherent, RangeList, Pos;
    RangeInOrder(l, subject, from, to);
  }

  lemma RangeLeft(l: Ledger, l1: Ledger, subject: Address, from: nat, to: nat, before: seq<Attestation>, c: Attestation, after: seq<Attestation>)
    requires Coherent(l) && RangeList(l, subject, from, to) == before + [c] + after && Leaves(l, l1, subject, c)
    ensures RangeList(l1, subject, from, to) == before + after && DistinctIds(before + [c] + after)
    ensures c.id in l1.records && l1.records[c.id].timestamp == c.timestamp
  {
    hide OrderOk, SubjectListsOk, IssuerListsOk, LogsOk, IssuedOk;
    DistinctRange(l, subject, from, to);
    assert (before + [c] + after)[|before|] == c;
    ListedIsCreated(l, subject, from, to, c);
    InRangeWithout(l.records, l1.records, Read(l.bySubject, subject), from, to, c.id);
    OthersAround(before, c, after);
  }

  /** The exact condition for a page to continue after a cursor whose record was taken off the list: of
      the records still listed, nothing created before it sorts after it and the next one does. */
  predicate Continues(before: seq<Attestation>, c: Attestation, after: seq<Attestation>) {
    && (forall i :: 0 <= i < |before| ==>
          before[i].timestamp < c.timestamp || (before[i].timestamp == c.timestamp && before[i].id <= c.id))
    && (after == [] ||
        c.timestamp < after[0].timestamp || (c.timestamp == after[0].timestamp && c.id < after[0].id))
  }

  lemma LeftResumesIff(l: Ledger, l1: Ledger, subject: Address, from: nat, to: nat, before: seq<Attestation>, c: Attestation,
                       after: seq<Attestation>, limit: nat)
    requires Coherent(l) && RangeList(l, subject, from, to) == before + [c] + after && Leaves(l, l1, subject, c)
    requires from <= to && limit > 0
    ensures RangeAfter(l1, subject, from, to, Some(c.id), limit) == Slice(after, 0, limit) <==> Continues(before, c, after)
  {
    hide Coherent, Leaves, RangeList, DistinctIds, StartAfter;
    RangeLeft(l, l1, subject, from, to, before, c, after);
    ListResumesIff(before, c, after, limit);
  }

  /** The same condition is the one whole walks need. */
  lemma ContinuesIsResumes(l: Ledger, l1: Ledger, subject: Address, from: nat, to: nat, before: seq<Attestation>, c: Attestation,
                           after: seq<Attestation>)
    requires Coherent(l) && RangeList(l, subject, from, to) == before + [c] + after && Leaves(l, l1, subject, c)
    ensures Resumes(l1, subject, from, to, Some(c.id), l1.records.Keys) <==> Continues(before, c, after)
  {
    hide Coherent, RangeList, Pos;
    var all, xs, n := before + [c] + after, before + after, |before|;
    RangeLeft(l, l1, subject, from, to, before, c, after);
    CursorGone(before, c, after);
    FindLaterIs(before, after, c.timestamp, c.id);
    RangeInOrder(l, subject, from, to);
    ListedRecords(l, subject, from, to) by { KeyedOf(l); }
    assert all[n] == c;
    forall k | 0 <= k < |xs|
      ensures AfterCursor(l1.order, Some(c.id), xs[k].id) <==> n <= k
      ensures xs[k].id in l1.records
    {
      Removed(before, c, after, k);
      var i := if k < n then k else k + 1;
      assert all[i] in all && all[i].id in l.records;
      assert i < n ==> Pos(l.order, all[i].id) < Pos(l.order, all[n].id);
      assert n < i ==> Pos(l.order, all[n].id) < Pos(l.order, all[i].id);
    }
    var q := FindLater(xs, c.timestamp, c.id);
    assert q < |xs| ==> (AfterCursor(l1.order, Some(c.id), xs[q].id) <==> n <= q);
    assert n < |xs| ==> AfterCursor(l1.order, Some(c.id), xs[n].id);
  }

  lemma KeyedOf(l: Ledger)
    requires Coherent(l)
    ensures Keyed(l)
  {
  }

  lemma EraseLeaves(l: Ledger, env: Env, subject: Address, c: Attestation)
    requires Coherent(l) && c.id in l.records && l.records[c.id].subject == subject
    ensures Leaves(l, Erase(l, env, c.id), subject, c)
  {
    hide OrderOk, SubjectListsOk, IssuerListsOk, LogsOk, IssuedOk;
  }

  lemma RevokeLeaves(l: Ledger, env: Env, issuer: Address, reason: Option<string>, subject: Address, c: Attestation)
    requires Coherent(l) && c.id in l.records && l.records[c.id].subject == subject
    ensures Leaves(l, RevokeOne(l, env, issuer, c.id, reason), subject, c)
  {
    hide OrderOk, SubjectListsOk, IssuerListsOk, LogsOk, IssuedOk;
  }

  lemma ListedSubject(l: Ledger, subject: Address, from: nat, to: nat, c: Attestation)
    requires Coherent(l) && c in RangeList(l, subject, from, to)
    ensures c.id in l.records && l.records[c.id] == c && c.subject == subject
  {
    hide Coherent, RangeList;
    ListedIsCreated(l, subject, from, to, c);
    RangeMember(l, subject, from, to, c.id);
  }

  /** Between two pages the subject deletes the record at the cursor: the next page is the next block of
      the list iff nothing listed before it sorts after it and the next record does. */
  lemma ResumesIff(l: Ledger, env: Env, subject: Address, from: nat, to: nat, before: seq<Attestation>, c: Attestation,
                   after: seq<Attestation>, limit: nat)
    requires Coherent(l) && RangeList(l, subject, from, to) == before + [c] + after && from <= to && limit > 0
    ensures c.id in l.records
    ensures RangeAfter(Erase(l, env, c.id), subject, from, to, Some(c.id), limit) == Slice(after, 0, limit) <==> Continues(before, c, after)
  {
    hide Coherent, RangeList, Erase, RangeAfter, Continues, Leaves;
    assert (before + [c] + after)[|before|] == c;
    ListedSubject(l, subject, from, to, c);
    EraseLeaves(l, env, subject, c);
    LeftResumesIff(l, Erase(l, env, c.id), subject, from, to, before, c, after, limit);
  }

  /** The same when its issuer revokes it. */
  lemma RevokedResumesIff(l: Ledger, env: Env, issuer: Address, reason: Option<string>, subject: Address, from: nat, to: nat,
                          before: seq<Attestation>, c: Attestation, after: seq<Attestation>, limit: nat)
    requires Coherent(l) && RangeList(l, subject, from, to) == before + [c] + after && from <= to && limit > 0
    ensures c.id in l.records
    ensures RangeAfter(RevokeOne(l, env, issuer, c.id, reason), subject, from, to, Some(c.id), limit) == Slice(after, 0, limit)
       <==> Continues(before, c, after)
  {
    hide Coherent, RangeList, RevokeOne, RangeAfter, Continues, Leaves;
    assert (before + [c] + after)[|before|] == c;
    ListedSubject(l, subject, from, to, c);
    RevokeLeaves(l, env, issuer, reason, subject, c);
    LeftResumesIff(l, RevokeOne(l, env, issuer, c.id, reason), subject, from, to, before, c, after, limit);
  }
}
