/** Replay of the event stream under at-least-once delivery: what redelivered events do to the tables of
    indexer/src/indexer.ts. */
module Replay {
  import opened Types
  import opened Indexer

  // ---------------------------------------------------------------- moving forward

  /** A later version of a row: columns set at creation stay, sets grow, decisions stick. */
  predicate Later(a: Row, b: Row) {
    match a
    case AttestationRow(_, _, _, _, _, revoked, _, _, _, _, _) =>
      && b.AttestationRow? && b.issuer == a.issuer && b.claimType == a.claimType && b.timestamp == a.timestamp
      && b.imported == a.imported && b.bridged == a.bridged && (revoked ==> b.isRevoked)
    case ProposalRow(_, _, _, _, signers, _, finalized, _) =>
      && b.ProposalRow? && b.subject == a.subject && b.proposer == a.proposer && b.claimType == a.claimType
      && b.threshold == a.threshold && b.expiresAt == a.expiresAt && (finalized ==> b.finalized)
      && (forall s :: s in signers ==> s in b.signers)
    case RequestRow(_, _, _, _, _, status, _, _) =>
      && b.RequestRow? && (status == PENDING ==> b == a.(status := b.status, fulfillmentId := b.fulfillmentId, rejectionReason := b.rejectionReason))
      && (status != PENDING ==> b == a)
    case IssuerRow(_, _, _, _) => b.IssuerRow?
  }

  predicate LaterOption(a: Option<Row>, b: Option<Row>) { a.Some? ==> b.Some? && Later(a.value, b.value) }

  lemma UpdatedLater(row: Row, e: Event)
    ensures Later(row, UpdatedRow(row, e))
  {
  }

  lemma LaterTransitive(a: Row, b: Row, c: Row)
    requires Later(a, b) && Later(b, c)
    ensures Later(a, c)
  {
  }

  lemma {:induction false} FoldLater(o: Option<Row>, ds: seq<Delivery>, k: Key)
    ensures LaterOption(o, RowFold(o, ds, k))
    decreases |ds|
  {
    if o.Some? {
      UpdatedLater(o.value, Ignored);
    }
    if ds != [] {
      var o1 := RowNext(o, ds[0], k);
      FoldLater(o1, ds[1..], k);
      if o.Some? {
        UpdatedLater(o.value, ds[0].event);
        LaterTransitive(o.value, o1.value, RowFold(o, ds, k).value);
      }
    }
  }

  // ---------------------------------------------------------------- what a row shows of its events

  /** The columns an event overwrites; the other ones are set at creation or only ever move forward. */
  datatype Column = Subject | Metadata | Expiration | Source | Signatures | Profile | Tier

  datatype Cell =
    | Text(text: string) | MaybeText(maybe: Option<string>) | MaybeNumber(time: Option<int>) | Number(number: int)
    | Texts(first: Option<string>, second: Option<string>) | Named(name: string, url: Option<string>, description: Option<string>)
    | NoCell

  function CellOf(row: Row, c: Column): Cell {
    match (row, c)
    case (AttestationRow(_, s, _, _, _, _, _, _, _, _, _), Subject) => Text(s)
    case (AttestationRow(_, _, _, _, _, _, m, _, _, _, _), Metadata) => MaybeText(m)
    case (AttestationRow(_, _, _, _, x, _, _, _, _, _, _), Expiration) => MaybeNumber(x)
    case (AttestationRow(_, _, _, _, _, _, _, _, _, sc, st), Source) => Texts(sc, st)
    case (ProposalRow(_, _, _, _, _, n, _, _), Signatures) => Number(n)
    case (IssuerRow(n, u, ds, _), Profile) => Named(n, u, ds)
    case (IssuerRow(_, _, _, t), Tier) => Text(t)
    case _ => NoCell
  }

  /** What an event writes into a column; `NoCell` if it leaves the column alone. */
  function Written(e: Event, c: Column): Cell {
    match (e, c)
    case (Created(_, _, s, _, _, _), Subject) => Text(s)
    case (Created(_, _, _, _, _, m), Metadata) => MaybeText(m)
    case (Imported(_, _, s, _, _, _), Subject) => Text(s)
    case (Imported(_, _, _, _, _, x), Expiration) => MaybeNumber(x)
    case (Bridged(_, _, s, _, _, _, _), Subject) => Text(s)
    case (Bridged(_, _, _, _, _, sc, st), Source) => Texts(sc, st)
    case (MsSign(_, _, n), Signatures) => Number(n)
    case (IssReg(_, n, u, ds), Profile) => Named(n, u, ds)
    case (TierUpdated(_, t), Tier) => Text(t)
    case _ => NoCell
  }

  /** A row without its overwritable columns. */
  function Core(row: Row): Row {
    match row
    case AttestationRow(_, _, _, _, _, _, _, _, _, _, _) =>
      row.(subject := "", metadata := None, expiration := None, sourceChain := None, sourceTx := None)
    case ProposalRow(_, _, _, _, _, _, _, _) => row.(signatureCount := 0)
    case RequestRow(_, _, _, _, _, _, _, _) => row
    case IssuerRow(_, _, _, _) => IssuerRow("", None, None, "")
  }

  lemma SameCells(a: Row, b: Row)
    requires Core(a) == Core(b) && forall c :: CellOf(a, c) == CellOf(b, c)
    ensures a == b
  {
    assert CellOf(a, Subject) == CellOf(b, Subject) && CellOf(a, Metadata) == CellOf(b, Metadata);
    assert CellOf(a, Expiration) == CellOf(b, Expiration) && CellOf(a, Source) == CellOf(b, Source);
    assert CellOf(a, Signatures) == CellOf(b, Signatures) && CellOf(a, Profile) == CellOf(b, Profile);
    assert CellOf(a, Tier) == CellOf(b, Tier);
  }

  /** The row shows the part of an event that sticks: a revocation, a signer, a finalization, a decision. */
  predicate Sticks(row: Row, e: Event) {
    match e
    case Revoked(_) => row.AttestationRow? && row.isRevoked
    case MsSign(_, signer, _) => row.ProposalRow? && signer in row.signers
    case MsActv(_) => row.ProposalRow? && row.finalized
    case ReqFul(_, _) => row.RequestRow? && row.status != PENDING
    case ReqRej(_, _) => row.RequestRow? && row.status != PENDING
    case _ => true
  }

  predicate WritesLater(ds: seq<Delivery>, k: Key, c: Column) {
    exists i :: 0 <= i < |ds| && Target(ds[i].event) == Some(k) && Written(ds[i].event, c) != NoCell
  }

  /** Everything the stream says about the row can be read off it: whatever sticks, and in each
      overwritable column the last value written. */
  predicate Settled(row: Row, ds: seq<Delivery>, k: Key)
    decreases |ds|
  {
    ds == [] || (Settled(row, ds[1..], k) && (Target(ds[0].event) == Some(k) ==> Shows(row, ds[0].event, ds[1..], k)))
  }

  predicate Shows(row: Row, e: Event, rest: seq<Delivery>, k: Key) {
    Sticks(row, e) && forall c :: Written(e, c) != NoCell && !WritesLater(rest, k, c) ==> CellOf(row, c) == Written(e, c)
  }

  // ---------------------------------------------------------------- a fold settles its row

  lemma UpdatedCells(row: Row, e: Event, k: Key)
    requires Typed(Some(row), k) && Target(e) == Some(k)
    ensures Sticks(UpdatedRow(row, e), e)
    ensures forall c :: CellOf(UpdatedRow(row, e), c) == if Written(e, c) != NoCell then Written(e, c) else CellOf(row, c)
  {
  }

  lemma NewCells(d: Delivery)
    requires NewRow(d).Some?
    ensures Sticks(NewRow(d).value, d.event)
    ensures forall c :: Written(d.event, c) != NoCell ==> CellOf(NewRow(d).value, c) == Written(d.event, c)
  {
  }

  lemma SticksLater(a: Row, b: Row, e: Event)
    requires Later(a, b) && Sticks(a, e)
    ensures Sticks(b, e)
  {
  }

  lemma {:induction false} CellKept(row: Row, ds: seq<Delivery>, k: Key, c: Column)
    requires Typed(Some(row), k) && !WritesLater(ds, k, c)
    ensures RowFold(Some(row), ds, k).Some? && CellOf(RowFold(Some(row), ds, k).value, c) == CellOf(row, c)
    decreases |ds|
  {
    hide UpdatedRow, Target, Written, CellOf;
    if ds != [] {
      StepTyped(Some(row), ds[0], k);
      if Target(ds[0].event) == Some(k) {
        UpdatedCells(row, ds[0].event, k);
        assert Written(ds[0].event, c) == NoCell;
      }
      assert forall i :: 0 <= i < |ds[1..]| ==> ds[1..][i] == ds[i + 1];
      CellKept(RowNext(Some(row), ds[0], k).value, ds[1..], k, c);
    }
  }

  /** The event a row has just met shows in it whatever comes later. */
  lemma ShowsAfter(row: Row, e: Event, ds: seq<Delivery>, k: Key)
    requires Typed(Some(row), k) && Sticks(row, e)
    requires forall c :: Written(e, c) != NoCell ==> CellOf(row, c) == Written(e, c)
    ensures RowFold(Some(row), ds, k).Some? && Shows(RowFold(Some(row), ds, k).value, e, ds, k)
  {
    hide Later, Written, CellOf, Sticks, RowFold;
    FoldLater(Some(row), ds, k);
    var last := RowFold(Some(row), ds, k).value;
    SticksLater(row, last, e);
    forall c | Written(e, c) != NoCell && !WritesLater(ds, k, c) ensures CellOf(last, c) == Written(e, c) {
      CellKept(row, ds, k, c);
    }
  }

  lemma {:induction false} FoldSettles(row: Row, ds: seq<Delivery>, k: Key)
    requires Typed(Some(row), k)
    ensures RowFold(Some(row), ds, k).Some? && Settled(RowFold(Some(row), ds, k).value, ds, k)
    decreases |ds|
  {
    hide UpdatedRow, Target, Written, CellOf, Sticks, Shows;
    if ds != [] {
      StepTyped(Some(row), ds[0], k);
      var next := RowNext(Some(row), ds[0], k).value;
      FoldSettles(next, ds[1..], k);
      if Target(ds[0].event) == Some(k) {
        UpdatedCells(row, ds[0].event, k);
        ShowsAfter(next, ds[0].event, ds[1..], k);
      }
    }
  }

  // ---------------------------------------------------------------- a settled row stays

  /** `y` is `row`, but for columns the rest of the stream will write. */
  predicate Near(y: Row, row: Row, rest: seq<Delivery>, k: Key) {
    Core(y) == Core(row) && forall c :: CellOf(y, c) == CellOf(row, c) || WritesLater(rest, k, c)
  }

  lemma CoreStays(y: Row, row: Row, e: Event, k: Key)
    requires Core(y) == Core(row) && Typed(Some(row), k) && Target(e) == Some(k) && Sticks(row, e)
    ensures Core(UpdatedRow(y, e)) == Core(row) && Typed(Some(y), k)
  {
  }

  lemma NearStep(y: Row, row: Row, ds: seq<Delivery>, again: Delivery, k: Key)
    requires ds != [] && Near(y, row, ds, k) && Typed(Some(row), k) && Settled(row, ds, k) && again.event == ds[0].event
    ensures RowNext(Some(y), again, k).Some? && Near(RowNext(Some(y), again, k).value, row, ds[1..], k)
  {
    hide UpdatedRow, Target, Written, CellOf, Sticks, Core, Typed;
    var e, y1, rest := ds[0].event, RowNext(Some(y), again, k).value, ds[1..];
    assert forall i :: 0 < i < |ds| ==> ds[i] == rest[i - 1];
    if Target(e) == Some(k) {
      assert Shows(row, e, rest, k);
      CoreStays(y, row, e, k);
      UpdatedCells(y, e, k);
    }
    forall c ensures CellOf(y1, c) == CellOf(row, c) || WritesLater(rest, k, c) {
      if WritesLater(ds, k, c) && !WritesLater(rest, k, c) {
        var i :| 0 <= i < |ds| && Target(ds[i].event) == Some(k) && Written(ds[i].event, c) != NoCell;
        assert i == 0;
      }
    }
  }

  lemma NearIsSame(y: Row, row: Row, k: Key)
    requires Near(y, row, [], k)
    ensures y == row
  {
    SameCells(y, row);
  }

  lemma {:induction false} NearCatchesUp(y: Row, row: Row, ds: seq<Delivery>, again: seq<Delivery>, k: Key)
    requires Near(y, row, ds, k) && Typed(Some(row), k) && Settled(row, ds, k) && SameEvents(ds, again)
    ensures RowFold(Some(y), again, k) == Some(row)
    decreases |ds|
  {
    hide Near;
    if ds == [] {
      NearIsSame(y, row, k);
    } else {
      NearStep(y, row, ds, again[0], k);
      NearCatchesUp(RowNext(Some(y), again[0], k).value, row, ds[1..], again[1..], k);
    }
  }

  /** The same events, delivered at any other times. */
  predicate SameEvents(a: seq<Delivery>, b: seq<Delivery>) {
    |a| == |b| && forall i :: 0 <= i < |a| ==> a[i].event == b[i].event
  }

  lemma {:induction false} SettledSame(row: Row, a: seq<Delivery>, b: seq<Delivery>, k: Key)
    requires SameEvents(a, b) && Settled(row, a, k)
    ensures Settled(row, b, k)
    decreases |a|
  {
    if a != [] {
      SettledSame(row, a[1..], b[1..], k);
      assert a[0].event == b[0].event;
      forall c ensures WritesLater(a[1..], k, c) <==> WritesLater(b[1..], k, c) {
        assert SameEvents(a[1..], b[1..]);
      }
    }
  }

  /** Replay leaves a row as it is exactly when every event of the stream already shows in it. */
  lemma RowReplayIff(row: Row, ds: seq<Delivery>, again: seq<Delivery>, k: Key)
    requires Typed(Some(row), k) && SameEvents(ds, again)
    ensures RowFold(Some(row), again, k) == Some(row) <==> Settled(row, ds, k)
  {
    hide RowFold, Settled, Typed, SameEvents;
    if Settled(row, ds, k) {
      NearCatchesUp(row, row, ds, again, k);
    } else if RowFold(Some(row), again, k) == Some(row) {
      FoldSettles(row, again, k);
      SettledSame(row, again, ds, k) by { assert SameEvents(again, ds) by { Swap(ds, again); } }
    }
  }

  lemma Swap(a: seq<Delivery>, b: seq<Delivery>)
    requires SameEvents(a, b)
    ensures SameEvents(b, a)
  {
  }

  // ---------------------------------------------------------------- causal order

  predicate Creates(e: Event) {
    e.Created? || e.Imported? || e.Bridged? || e.MsProp? || e.AttReq? || e.IssReg?
  }

  predicate CreatedIn(ds: seq<Delivery>, k: Key) {
    exists i :: 0 <= i < |ds| && Creates(ds[i].event) && Target(ds[i].event) == Some(k)
  }

  /** An event that only updates finds its row in place, unless the row is never created. */
  predicate RowCausal(o: Option<Row>, ds: seq<Delivery>, k: Key)
    decreases |ds|
  {
    ds == [] ||
    ((Target(ds[0].event) == Some(k) && !Creates(ds[0].event) && o.None? ==> !CreatedIn(ds[1..], k))
     && RowCausal(RowNext(o, ds[0], k), ds[1..], k))
  }

  lemma CreatedTail(ds: seq<Delivery>, k: Key)
    requires ds != []
    ensures CreatedIn(ds, k) <==> (Creates(ds[0].event) && Target(ds[0].event) == Some(k)) || CreatedIn(ds[1..], k)
  {
    assert forall i :: 0 < i < |ds| ==> ds[i] == ds[1..][i - 1];
  }

  /** A missing row appears exactly when the stream creates it. */
  lemma {:induction false} AppearsIff(ds: seq<Delivery>, k: Key)
    ensures RowFold(None, ds, k).Some? <==> CreatedIn(ds, k)
    decreases |ds|
  {
    hide CreatedIn;
    if ds == [] {
      assert !CreatedIn(ds, k) by { NothingCreated(k); }
    } else {
      CreatedTail(ds, k);
      if Creates(ds[0].event) && Target(ds[0].event) == Some(k) {
        FoldLater(RowNext(None, ds[0], k), ds[1..], k);
      } else {
        AppearsIff(ds[1..], k);
      }
    }
  }

  lemma NothingCreated(k: Key)
    ensures !CreatedIn([], k)
  {
  }

  /** A causally ordered stream leaves every row it touches settled. */
  lemma {:induction false} CausalSettles(o: Option<Row>, ds: seq<Delivery>, k: Key)
    requires Typed(o, k) && RowCausal(o, ds, k)
    ensures var d := RowFold(o, ds, k); d.Some? ==> Settled(d.value, ds, k)
    decreases |ds|
  {
    hide Target, Shows, CreatedIn, UpdatedRow, Typed, NewRow, Creates;
    if o.Some? {
      FoldSettles(o.value, ds, k);
    } else if ds != [] {
      var next := RowNext(o, ds[0], k);
      StepTyped(o, ds[0], k);
      CausalSettles(next, ds[1..], k);
      if Target(ds[0].event) == Some(k) {
        if next.Some? {
          NewCells(ds[0]);
          ShowsAfter(next.value, ds[0].event, ds[1..], k);
        } else {
          OnlyCreatesMake(ds[0]);
          AppearsIff(ds[1..], k);
        }
      }
    }
  }

  lemma OnlyCreatesMake(d: Delivery)
    ensures NewRow(d).Some? <==> Creates(d.event)
  {
  }

  // ---------------------------------------------------------------- the whole database

  /** No row is created after an event that would have updated it came too early. Updates of rows that
      are never created are allowed: they are skipped or throw each time. */
  predicate CausallyOrdered(db: Db, ds: seq<Delivery>) {
    forall i, m :: 0 <= i < m < |ds| && TooEarly(ds, i) && Creates(ds[m].event) && Target(ds[m].event) == Target(ds[i].event)
      ==> Target(ds[i].event).value in db
  }

  /** An event that only updates, with no creating event of its row before it. */
  predicate TooEarly(ds: seq<Delivery>, i: nat)
    requires i < |ds|
  {
    && Target(ds[i].event).Some? && !Creates(ds[i].event)
    && !CreatedIn(ds[..i], Target(ds[i].event).value)
  }

  lemma HandleKeys(db: Db, d: Delivery)
    ensures forall k :: k in db ==> k in Handle(db, d)
    ensures forall k :: k in Handle(db, d) ==> k in db || (Creates(d.event) && Target(d.event) == Some(k))
    ensures Creates(d.event) ==> Target(d.event).Some? && Target(d.event).value in Handle(db, d)
  {
  }

  lemma CausalTail(db: Db, ds: seq<Delivery>)
    requires CausallyOrdered(db, ds) && ds != []
    ensures CausallyOrdered(Handle(db, ds[0]), ds[1..])
    ensures forall k :: Target(ds[0].event) == Some(k) && !Creates(ds[0].event) && k !in db ==> !CreatedIn(ds[1..], k)
  {
    hide Handle, Target, Creates, CreatedIn;
    var db1, rest := Handle(db, ds[0]), ds[1..];
    HandleKeys(db, ds[0]);
    forall i, m | 0 <= i < m < |rest| && TooEarly(rest, i) && Creates(rest[m].event) && Target(rest[m].event) == Target(rest[i].event)
      ensures Target(rest[i].event).value in db1
    {
      var k := Target(rest[i].event).value;
      assert rest[i] == ds[i + 1] && rest[m] == ds[m + 1];
      var past := ds[..i + 1];
      assert past[1..] == rest[..i] && past[0] == ds[0];
      CreatedTail(past, k);
    }
    forall k | Target(ds[0].event) == Some(k) && !Creates(ds[0].event) && k !in db ensures !CreatedIn(rest, k) {
      if CreatedIn(rest, k) {
        var m := CreatedAt(rest, k);
        assert ds[m + 1] == rest[m] && ds[..0] == [];
        NothingCreated(k);
      }
    }
  }

  lemma CreatedAt(ds: seq<Delivery>, k: Key) returns (m: nat)
    requires CreatedIn(ds, k)
    ensures m < |ds| && Creates(ds[m].event) && Target(ds[m].event) == Some(k)
  {
    m :| m < |ds| && Creates(ds[m].event) && Target(ds[m].event) == Some(k);
  }

  lemma {:induction false} CausalRows(db: Db, ds: seq<Delivery>, k: Key)
    requires CausallyOrdered(db, ds)
    ensures RowCausal(Get(db, k), ds, k)
    decreases |ds|
  {
    hide CausallyOrdered, Target, CreatedIn, Creates;
    if ds != [] {
      CausalTail(db, ds);
      CausalRows(Handle(db, ds[0]), ds[1..], k);
    }
  }

  lemma {:induction false} CausalSuffix(db: Db, pre: seq<Delivery>, suf: seq<Delivery>)
    requires CausallyOrdered(db, pre + suf)
    ensures CausallyOrdered(Fold(db, pre), suf) && Fold(db, pre + suf) == Fold(Fold(db, pre), suf)
    decreases |pre|
  {
    hide CausallyOrdered, Handle, CreatedIn;
    if pre == [] {
      assert pre + suf == suf;
    } else {
      assert (pre + suf)[1..] == pre[1..] + suf && (pre + suf)[0] == pre[0];
      CausalTail(db, pre + suf);
      CausalSuffix(Handle(db, pre[0]), pre[1..], suf);
    }
  }

  lemma SameRows(a: Db, b: Db)
    requires forall k :: Get(a, k) == Get(b, k)
    ensures a == b
  {
    forall k ensures k in a <==> k in b {
      assert Get(a, k) == Get(b, k);
    }
    forall k | k in a ensures a[k] == b[k] {
      assert Get(a, k) == Get(b, k);
    }
  }

  lemma ReplayRowIff(db: Db, ds: seq<Delivery>, again: seq<Delivery>, k: Key)
    requires WellTyped(db) && SameEvents(ds, again)
    ensures var once := Fold(db, ds);
      Get(Fold(once, again), k) == Get(once, k) <==> (k in once ==> Settled(once[k], ds, k))
  {
    hide Fold, RowFold, SameEvents, Settled;
    var x, once := Get(db, k), Fold(db, ds);
    assert Typed(x, k);
    FoldByRow(db, ds, k);
    FoldByRow(once, again, k);
    RowFoldTyped(x, ds, k);
    if k in once {
      RowReplayIff(once[k], ds, again, k);
    } else {
      StaysMissing(x, ds, again, k);
    }
  }

  lemma StaysMissing(x: Option<Row>, ds: seq<Delivery>, again: seq<Delivery>, k: Key)
    requires RowFold(x, ds, k).None? && SameEvents(ds, again)
    ensures RowFold(None, again, k).None?
  {
    FoldLater(x, ds, k);
    AppearsIff(ds, k);
    AppearsIff(again, k);
  }

  /** Exactly when replaying a whole stream, in any order of events, changes nothing: every row already
      shows everything the stream says about it. */
  lemma ReplaySafeIff(db: Db, ds: seq<Delivery>, again: seq<Delivery>)
    requires WellTyped(db) && SameEvents(ds, again)
    ensures var once := Fold(db, ds);
      Fold(once, again) == once <==> forall k :: k in once ==> Settled(once[k], ds, k)
  {
    hide WellTyped, Fold, SameEvents, Settled;
    var once := Fold(db, ds);
    forall k ensures Get(Fold(once, again), k) == Get(once, k) <==> (k in once ==> Settled(once[k], ds, k)) {
      ReplayRowIff(db, ds, again, k);
    }
    if forall k :: k in once ==> Settled(once[k], ds, k) {
      SameRows(Fold(once, again), once);
    }
  }

  /** Replaying any suffix of a causally ordered stream, at any later times, changes nothing. */
  lemma ReplaySafe(db: Db, pre: seq<Delivery>, suf: seq<Delivery>, again: seq<Delivery>)
    requires WellTyped(db) && CausallyOrdered(db, pre + suf) && SameEvents(suf, again)
    ensures Fold(Fold(db, pre + suf), again) == Fold(db, pre + suf)
  {
    hide WellTyped, CausallyOrdered, Fold, SameEvents, Settled;
    CausalSuffix(db, pre, suf);
    FoldTyped(db, pre);
    ReplaySafeIff(Fold(db, pre), suf, again);
    forall k | k in Fold(db, pre + suf) ensures Settled(Fold(db, pre + suf)[k], suf, k) {
      StreamSettles(Fold(db, pre), suf, k);
    }
  }

  lemma StreamSettles(db: Db, ds: seq<Delivery>, k: Key)
    requires WellTyped(db) && CausallyOrdered(db, ds) && k in Fold(db, ds)
    ensures Typed(Some(Fold(db, ds)[k]), k) && Settled(Fold(db, ds)[k], ds, k)
  {
    hide CausallyOrdered, Settled, RowCausal, RowFold, Fold;
    assert Typed(Get(db, k), k);
    FoldByRow(db, ds, k);
    CausalRows(db, ds, k);
    CausalSettles(Get(db, k), ds, k);
    RowFoldTyped(Get(db, k), ds, k);
  }

  // ---------------------------------------------------------------- at-least-once delivery

  /** A reader that has got through the first `reached` events and stands at `next` is delivered `w`, the
      events at positions `at`: each time the next one or, after a restart, any earlier one, until the end
      of the stream. Crashes in the middle of a replay are restarts like any other. The stream records
      when each event was first delivered. */
  predicate AtLeastOnce(ds: seq<Delivery>, w: seq<Delivery>, at: seq<nat>, reached: nat, next: nat)
    decreases |w|
  {
    |w| == |at| &&
    if w == [] then next == |ds|
    else
      && at[0] <= next && at[0] < |ds| && w[0].event == ds[at[0]].event && (at[0] >= reached ==> w[0] == ds[at[0]])
      && AtLeastOnce(ds, w[1..], at[1..], if reached < at[0] + 1 then at[0] + 1 else reached, at[0] + 1)
  }

  /** A row somewhere in a replay of the first `n` events, with those from `u` on still to come. */
  predicate Lags(s: Option<Row>, d: Option<Row>, rest: seq<Delivery>, k: Key) {
    if d.None? then s.None? else s.Some? && Near(s.value, d.value, rest, k)
  }

  lemma {:induction false} RowFoldAppend(o: Option<Row>, ds: seq<Delivery>, d: Delivery, k: Key)
    ensures RowFold(o, ds + [d], k) == RowNext(RowFold(o, ds, k), d, k)
    decreases |ds|
  {
    if ds == [] {
      assert (ds + [d])[1..] == [];
    } else {
      assert (ds + [d])[1..] == ds[1..] + [d];
      RowFoldAppend(RowNext(o, ds[0], k), ds[1..], d, k);
    }
  }

  lemma {:induction false} SettledSuffix(row: Row, ds: seq<Delivery>, k: Key, p: nat)
    requires Settled(row, ds, k) && p <= |ds|
    ensures Settled(row, ds[p..], k)
    decreases p
  {
    if p > 0 {
      SettledSuffix(row, ds, k, p - 1);
      assert ds[p - 1..][1..] == ds[p..];
    }
  }

  /** Going back only adds events that are still to come. */
  lemma NearEarlier(y: Row, row: Row, ds: seq<Delivery>, p: nat, u: nat, k: Key)
    requires p <= u <= |ds| && Near(y, row, ds[u..], k)
    ensures Near(y, row, ds[p..], k)
  {
    hide CellOf, Core, Target, Written;
    forall c | WritesLater(ds[u..], k, c) ensures WritesLater(ds[p..], k, c) {
      var i :| 0 <= i < |ds[u..]| && Target(ds[u..][i].event) == Some(k) && Written(ds[u..][i].event, c) != NoCell;
      assert ds[p..][u - p + i] == ds[u..][i];
    }
  }

  lemma CausalPrefix(db: Db, ds: seq<Delivery>, n: nat)
    requires CausallyOrdered(db, ds) && n <= |ds|
    ensures CausallyOrdered(db, ds[..n])
  {
    hide Target, Creates, CreatedIn;
    var pre := ds[..n];
    forall i, m | 0 <= i < m < |pre| && TooEarly(pre, i) && Creates(pre[m].event) && Target(pre[m].event) == Target(pre[i].event)
      ensures Target(pre[i].event).value in db
    {
      assert pre[..i] == ds[..i] && pre[i] == ds[i] && pre[m] == ds[m];
      assert TooEarly(ds, i);
    }
  }

  /** An event delivered again, somewhere in the part of the stream already got through. */
  lemma RedeliverStep(x: Option<Row>, s: Option<Row>, past: seq<Delivery>, u: nat, p: nat, again: Delivery, k: Key)
    requires p <= u <= |past| && p < |past| && again.event == past[p].event && Typed(x, k)
    requires var d := RowFold(x, past, k); Lags(s, d, past[u..], k) && (d.Some? ==> Settled(d.value, past, k))
    ensures Lags(RowNext(s, again, k), RowFold(x, past, k), past[p + 1..], k)
  {
    hide Near, Settled, RowFold, Typed, UpdatedRow, Target;
    var d := RowFold(x, past, k);
    RowFoldTyped(x, past, k);
    if d.Some? {
      SettledSuffix(d.value, past, k, p);
      NearEarlier(s.value, d.value, past, p, u, k);
      assert past[p..][1..] == past[p + 1..];
      NearStep(s.value, d.value, past[p..], again, k);
    } else {
      FoldLater(x, past, k);
      AppearsIff(past, k);
      OnlyCreatesMake(again);
    }
  }

  lemma SettledSoFar(db: Db, ds: seq<Delivery>, n: nat, k: Key)
    requires WellTyped(db) && CausallyOrdered(db, ds) && n <= |ds|
    ensures var d := RowFold(Get(db, k), ds[..n], k); d.Some? ==> Settled(d.value, ds[..n], k)
  {
    hide CausallyOrdered, Settled, Fold, RowFold, WellTyped;
    CausalPrefix(db, ds, n);
    FoldByRow(db, ds[..n], k);
    if RowFold(Get(db, k), ds[..n], k).Some? {
      StreamSettles(db, ds[..n], k);
    }
  }

  lemma {:induction false} RowDelivered(db: Db, s: Option<Row>, ds: seq<Delivery>, w: seq<Delivery>, at: seq<nat>, n: nat, u: nat, k: Key)
    requires WellTyped(db) && CausallyOrdered(db, ds) && u <= n <= |ds| && AtLeastOnce(ds, w, at, n, u)
    requires Lags(s, RowFold(Get(db, k), ds[..n], k), ds[u..n], k)
    ensures RowFold(s, w, k) == RowFold(Get(db, k), ds, k)
    decreases |w|
  {
    hide CausallyOrdered, Near, Settled, WellTyped, RowNext, Get;
    var x := Get(db, k);
    if w == [] {
      assert ds[..n] == ds && ds[u..n] == [];
      LagsNone(s, RowFold(x, ds, k), k);
    } else {
      var p, s1 := at[0], RowNext(s, w[0], k);
      if p < n {
        SettledSoFar(db, ds, n, k);
        assert ds[u..n] == ds[..n][u..] && ds[p + 1..n] == ds[..n][p + 1..];
        assert Typed(x, k) by { GetTyped(db, k); }
        RedeliverStep(x, s, ds[..n], u, p, w[0], k);
        RowDelivered(db, s1, ds, w[1..], at[1..], n, p + 1, k);
      } else {
        assert ds[u..n] == [] && ds[p + 1..n + 1] == [];
        LagsNone(s, RowFold(x, ds[..n], k), k);
        assert ds[..n + 1] == ds[..n] + [ds[n]];
        RowFoldAppend(x, ds[..n], ds[n], k);
        NoLag(s1, k);
        RowDelivered(db, s1, ds, w[1..], at[1..], n + 1, p + 1, k);
      }
    }
  }

  lemma GetTyped(db: Db, k: Key)
    requires WellTyped(db)
    ensures Typed(Get(db, k), k)
  {
  }

  lemma LagsNone(s: Option<Row>, d: Option<Row>, k: Key)
    requires Lags(s, d, [], k)
    ensures s == d
  {
    if d.Some? {
      NearIsSame(s.value, d.value, k);
    }
  }

  lemma NoLag(s: Option<Row>, k: Key)
    ensures Lags(s, s, [], k)
  {
  }

  /** At-least-once delivery is as good as exactly-once: however often and wherever the reader restarts,
      once it has reached the end the tables are those of one pass over the stream. */
  lemma RestartsSafe(db: Db, ds: seq<Delivery>, w: seq<Delivery>, at: seq<nat>)
    requires WellTyped(db) && CausallyOrdered(db, ds) && AtLeastOnce(ds, w, at, 0, 0)
    ensures Fold(db, w) == Fold(db, ds)
  {
    hide WellTyped, CausallyOrdered, Fold, AtLeastOnce, RowFold;
    forall k ensures Get(Fold(db, w), k) == Get(Fold(db, ds), k) {
      FoldByRow(db, w, k);
      FoldByRow(db, ds, k);
      assert ds[..0] == [] && ds[0..0] == [];
      assert RowFold(Get(db, k), [], k) == Get(db, k) by { NoEvents(Get(db, k), k); }
      NoLag(Get(db, k), k);
      RowDelivered(db, Get(db, k), ds, w, at, 0, 0, k);
    }
    SameRows(Fold(db, w), Fold(db, ds));
  }

  lemma NoEvents(o: Option<Row>, k: Key)
    ensures RowFold(o, [], k) == o
  {
  }

  // ---------------------------------------------------------------- without causal order

  predicate RevokedIn(ds: seq<Delivery>, id: string) {
    exists i :: 0 <= i < |ds| && ds[i].event == Event.Revoked(id)
  }

  /** Some creating event of the record has a revocation after it. */
  predicate RevokedOnceCreated(ds: seq<Delivery>, id: string) {
    exists i :: 0 <= i < |ds| && Creates(ds[i].event) && Target(ds[i].event) == Some(AttestationKey(id)) && RevokedIn(ds[i + 1..], id)
  }

  lemma RevokedTail(ds: seq<Delivery>, id: string)
    requires ds != []
    ensures RevokedIn(ds, id) <==> ds[0].event == Event.Revoked(id) || RevokedIn(ds[1..], id)
  {
    assert forall i :: 0 < i < |ds| ==> ds[i] == ds[1..][i - 1];
  }

  lemma RevokedOnceCreatedTail(ds: seq<Delivery>, id: string)
    requires ds != []
    ensures RevokedOnceCreated(ds, id) <==>
      || (Creates(ds[0].event) && Target(ds[0].event) == Some(AttestationKey(id)) && RevokedIn(ds[1..], id))
      || RevokedOnceCreated(ds[1..], id)
  {
    hide RevokedIn, Target, Creates;
    var rest := ds[1..];
    assert forall i :: 0 < i < |ds| ==> ds[i] == rest[i - 1] && ds[i + 1..] == rest[i..];
    if RevokedOnceCreated(rest, id) {
      var i :| 0 <= i < |rest| && Creates(rest[i].event) && Target(rest[i].event) == Some(AttestationKey(id)) && RevokedIn(rest[i + 1..], id);
      assert ds[i + 1] == rest[i] && ds[i + 1 + 1..] == rest[i + 1..];
    }
  }

  /** Which rows end up revoked. */
  lemma {:induction false} EndsRevokedIff(o: Option<Row>, ds: seq<Delivery>, id: string)
    requires Typed(o, AttestationKey(id))
    ensures var d := RowFold(o, ds, AttestationKey(id));
      d.Some? ==>
        && d.value.AttestationRow?
        && (d.value.isRevoked <==> if o.Some? then o.value.isRevoked || RevokedIn(ds, id) else RevokedOnceCreated(ds, id))
    decreases |ds|
  {
    hide RevokedIn, RevokedOnceCreated;
    var k := AttestationKey(id);
    if ds == [] {
      NoRevocation(id);
    } else {
      StepTyped(o, ds[0], k);
      RevokedTail(ds, id);
      RevokedOnceCreatedTail(ds, id);
      EndsRevokedIff(RowNext(o, ds[0], k), ds[1..], id);
      if o.None? && RowNext(o, ds[0], k).Some? {
        RevokedLater(ds[1..], id);
      }
    }
  }

  lemma NoRevocation(id: string)
    ensures !RevokedIn([], id) && !RevokedOnceCreated([], id)
  {
  }

  lemma RevokedLater(ds: seq<Delivery>, id: string)
    ensures RevokedOnceCreated(ds, id) ==> RevokedIn(ds, id)
  {
    if RevokedOnceCreated(ds, id) {
      var i :| 0 <= i < |ds| && Creates(ds[i].event) && Target(ds[i].event) == Some(AttestationKey(id)) && RevokedIn(ds[i + 1..], id);
      var j :| 0 <= j < |ds[i + 1..]| && ds[i + 1..][j].event == Event.Revoked(id);
      assert ds[i + 1 + j].event == Event.Revoked(id);
    }
  }

  /** Of an attestation row only a lost revocation can be unsettled. */
  lemma {:induction false} AttestationSettledIff(o: Option<Row>, ds: seq<Delivery>, id: string)
    requires Typed(o, AttestationKey(id))
    ensures var d := RowFold(o, ds, AttestationKey(id));
      d.Some? ==> d.value.AttestationRow? && (Settled(d.value, ds, AttestationKey(id)) <==> (RevokedIn(ds, id) ==> d.value.isRevoked))
    decreases |ds|
  {
    hide RevokedIn, UpdatedRow, Written, CellOf;
    var k := AttestationKey(id);
    RowFoldTyped(o, ds, k);
    if ds == [] {
      NoRevocation(id);
    } else {
      var next := RowNext(o, ds[0], k);
      StepTyped(o, ds[0], k);
      RevokedTail(ds, id);
      AttestationSettledIff(next, ds[1..], id);
      if Target(ds[0].event) == Some(k) && next.Some? {
        if o.Some? { UpdatedCells(o.value, ds[0].event, k); } else { NewCells(ds[0]); }
        ShowsAfter(next.value, ds[0].event, ds[1..], k);
      }
      if ds[0].event.Revoked? {
        RevokedWritesNothing(ds[0].event);
      }
    }
  }

  lemma RevokedWritesNothing(e: Event)
    requires e.Revoked?
    ensures forall c :: Written(e, c) == NoCell
  {
  }

  /** Any stream at all, for a record not yet indexed: replaying it leaves the record's row as it is iff
      the record is never created, never revoked, or revoked after a creation. A revocation that only
      ever comes before the creation is lost the first time and takes effect on replay. */
  lemma RevocationReplayIff(db: Db, ds: seq<Delivery>, again: seq<Delivery>, id: string)
    requires WellTyped(db) && SameEvents(ds, again) && AttestationKey(id) !in db
    ensures var k := AttestationKey(id); var once := Fold(db, ds);
      Get(Fold(once, again), k) == Get(once, k) <==>
      (CreatedIn(ds, k) && RevokedIn(ds, id) ==> RevokedOnceCreated(ds, id))
  {
    hide Fold, RowFold, SameEvents, Settled, CreatedIn, RevokedIn, RevokedOnceCreated, WellTyped;
    var k := AttestationKey(id);
    ReplayRowIff(db, ds, again, k);
    FoldByRow(db, ds, k);
    AppearsIff(ds, k);
    EndsRevokedIff(None, ds, id);
    AttestationSettledIff(None, ds, id);
  }

  lemma FoldTwo(db: Db, d0: Delivery, d1: Delivery)
    ensures Fold(db, [d0, d1]) == Handle(Handle(db, d0), d1)
  {
    var db1 := Handle(db, d0);
    assert [d0, d1][1..] == [d1] && [d1][1..] == [];
    assert Fold(db1, [d1]) == Fold(Handle(db1, d1), []);
  }

  /** The shortest such stream. */
  lemma OutOfOrderReplay(created: Event, clock: nat)
    requires created.Created?
    ensures
      var ds := [Delivery(Event.Revoked(created.id), clock), Delivery(created, clock)];
      var k := AttestationKey(created.id);
      var once, twice := Fold(map[], ds), Fold(Fold(map[], ds), ds);
      k in once && k in twice && once[k].AttestationRow? && twice[k].AttestationRow?
      && !once[k].isRevoked && twice[k].isRevoked && !CausallyOrdered(map[], ds)
  {
    var d0, d1 := Delivery(Event.Revoked(created.id), clock), Delivery(created, clock);
    var ds := [d0, d1];
    FoldTwo(map[], d0, d1);
    FoldTwo(Fold(map[], ds), d0, d1);
    assert ds[0] == d0 && ds[1] == d1 && ds[..0] == [];
    assert TooEarly(ds, 0);
  }
}
