/** What the tables of indexer/src/indexer.ts hold after any stream of events, column by column: the fields of
    the event that created a row and of the events that came after it. */
module Rows {
  import opened Types
  import opened Sequences
  import opened Indexer
  import opened Replay

  // ---------------------------------------------------------------- the event that creates a row

  predicate CreatesRow(d: Delivery, k: Key) { Creates(d.event) && Target(d.event) == Some(k) }

  /** The first event that creates the row. */
  function First(ds: seq<Delivery>, k: Key): (d: Delivery)
    requires CreatedIn(ds, k)
    ensures CreatesRow(d, k)
    decreases |ds|
  {
    CreatedTail(ds, k);
    if CreatesRow(ds[0], k) then ds[0] else First(ds[1..], k)
  }

  /** The events after it. */
  function Since(ds: seq<Delivery>, k: Key): seq<Delivery>
    requires CreatedIn(ds, k)
    decreases |ds|
  {
    CreatedTail(ds, k);
    if CreatesRow(ds[0], k) then ds[1..] else Since(ds[1..], k)
  }

  lemma {:induction false} RowBorn(ds: seq<Delivery>, k: Key)
    requires CreatedIn(ds, k)
    ensures NewRow(First(ds, k)).Some? && Typed(NewRow(First(ds, k)), k)
    ensures RowFold(None, ds, k) == RowFold(NewRow(First(ds, k)), Since(ds, k), k)
    decreases |ds|
  {
    CreatedTail(ds, k);
    hide CreatedIn;
    OnlyCreatesMake(ds[0]);
    if CreatesRow(ds[0], k) {
      StepTyped(None, ds[0], k);
    } else {
      RowBorn(ds[1..], k);
    }
  }

  /** A row that was not there is there afterwards iff the stream creates it. */
  lemma PresentIff(db: Db, ds: seq<Delivery>, k: Key)
    requires k !in db
    ensures k in Fold(db, ds) <==> CreatedIn(ds, k)
    ensures CreatedIn(ds, k) ==> Some(Fold(db, ds)[k]) == RowFold(NewRow(First(ds, k)), Since(ds, k), k) && Typed(Some(Fold(db, ds)[k]), k)
  {
    hide Fold, RowFold, CreatedIn;
    FoldByRow(db, ds, k);
    AppearsIff(ds, k);
    if CreatedIn(ds, k) {
      RowBorn(ds, k);
      RowFoldTyped(NewRow(First(ds, k)), Since(ds, k), k);
    }
  }

  // ---------------------------------------------------------------- overwritable columns

  /** What a column holds before any event has written it. */
  function Default(c: Column): Cell {
    match c
    case Metadata => MaybeText(None)
    case Expiration => MaybeNumber(None)
    case Source => Texts(None, None)
    case Signatures => Number(1)
    case Tier => Text("basic")
    case _ => NoCell
  }

  predicate InTable(k: Key, c: Column) {
    match c
    case Metadata => k.AttestationKey?
    case Expiration => k.AttestationKey?
    case Source => k.AttestationKey?
    case Signatures => k.ProposalKey?
    case Tier => k.IssuerKey?
    case _ => false
  }

  lemma NewDefaults(d: Delivery, k: Key, c: Column)
    requires CreatesRow(d, k) && InTable(k, c) && Written(d.event, c) == NoCell
    ensures NewRow(d).Some? && CellOf(NewRow(d).value, c) == Default(c)
  {
  }

  /** Every column shows the last value written to it since the row was created, and its default if there is none. */
  lemma ColumnsShow(db: Db, ds: seq<Delivery>, k: Key)
    requires k !in db && CreatedIn(ds, k)
    ensures k in Fold(db, ds) && Settled(Fold(db, ds)[k], [First(ds, k)] + Since(ds, k), k)
    ensures forall c :: InTable(k, c) && !WritesLater([First(ds, k)] + Since(ds, k), k, c) ==> CellOf(Fold(db, ds)[k], c) == Default(c)
  {
    hide Fold, RowFold, CreatedIn, Written, CellOf, Settled, Target;
    PresentIff(db, ds, k);
    RowBorn(ds, k);
    var first, late := First(ds, k), Since(ds, k);
    var all, row := [first] + late, NewRow(first).value;
    FoldSettles(row, late, k);
    NewCells(first);
    ShowsAfter(row, first.event, late, k);
    SettledCons(Fold(db, ds)[k], first, late, k);
    forall c | InTable(k, c) && !WritesLater(all, k, c) ensures CellOf(Fold(db, ds)[k], c) == Default(c) {
      assert all[0] == first && forall i :: 0 <= i < |late| ==> all[i + 1] == late[i];
      assert Written(first.event, c) == NoCell;
      assert !WritesLater(late, k, c);
      NewDefaults(first, k, c);
      CellKept(row, late, k, c);
    }
  }

  lemma SettledCons(row: Row, d: Delivery, ds: seq<Delivery>, k: Key)
    requires Settled(row, ds, k) && Shows(row, d.event, ds, k)
    ensures Settled(row, [d] + ds, k)
  {
    assert ([d] + ds)[1..] == ds;
  }

  // ---------------------------------------------------------------- attestations

  /** An attestation row: issuer, claim type and timestamp of the event that created it, which also says whether
      it was imported or bridged, and revoked iff a revocation came after it. */
  lemma AttestationRowIs(db: Db, ds: seq<Delivery>, id: string)
    requires AttestationKey(id) !in db && CreatedIn(ds, AttestationKey(id))
    ensures var k := AttestationKey(id);
      k in Fold(db, ds) &&
      var row, e := Fold(db, ds)[k], First(ds, k).event;
      && row.AttestationRow? && (e.Created? || e.Imported? || e.Bridged?) && e.id == id
      && row.issuer == e.issuer && row.claimType == e.claimType && row.timestamp == e.timestamp
      && row.imported == e.Imported? && row.bridged == e.Bridged?
      && (row.isRevoked <==> RevokedIn(Since(ds, k), id))
  {
    hide Fold, RowFold, CreatedIn, RevokedIn;
    var k := AttestationKey(id);
    PresentIff(db, ds, k);
    FoldLater(NewRow(First(ds, k)), Since(ds, k), k);
    EndsRevokedIff(NewRow(First(ds, k)), Since(ds, k), id);
  }

  // ---------------------------------------------------------------- proposals

  predicate FinalizedIn(ds: seq<Delivery>, id: string) { exists i :: 0 <= i < |ds| && ds[i].event == MsActv(id) }

  predicate SignedIn(ds: seq<Delivery>, id: string, signer: string) {
    exists i :: 0 <= i < |ds| && ds[i].event.MsSign? && ds[i].event.id == id && ds[i].event.signer == signer
  }

  lemma FinalizedTail(ds: seq<Delivery>, id: string)
    requires ds != []
    ensures FinalizedIn(ds, id) <==> ds[0].event == MsActv(id) || FinalizedIn(ds[1..], id)
  {
    assert forall i :: 0 < i < |ds| ==> ds[i] == ds[1..][i - 1];
  }

  lemma SignedTail(ds: seq<Delivery>, id: string, signer: string)
    requires ds != []
    ensures SignedIn(ds, id, signer) <==>
      (ds[0].event.MsSign? && ds[0].event.id == id && ds[0].event.signer == signer) || SignedIn(ds[1..], id, signer)
  {
    assert forall i :: 0 < i < |ds| ==> ds[i] == ds[1..][i - 1];
  }

  lemma NothingIn(id: string)
    ensures !FinalizedIn([], id) && forall signer :: !SignedIn([], id, signer)
  {
  }

  lemma ProposalStep(row: Row, d: Delivery, id: string)
    requires row.ProposalRow? && NoDup(row.signers) && row.signers != []
    ensures var next := RowNext(Some(row), d, ProposalKey(id));
      && next.Some? && next.value.ProposalRow? && row.signers <= next.value.signers && NoDup(next.value.signers)
      && (next.value.finalized <==> row.finalized || d.event == MsActv(id))
      && (forall s :: s in next.value.signers <==> s in row.signers || (d.event.MsSign? && d.event.id == id && d.event.signer == s))
  {
  }

  lemma {:induction false} ProposalFold(row: Row, ds: seq<Delivery>, id: string)
    requires row.ProposalRow? && NoDup(row.signers) && row.signers != []
    ensures var o := RowFold(Some(row), ds, ProposalKey(id));
      && o.Some? && o.value.ProposalRow? && row.signers <= o.value.signers && NoDup(o.value.signers)
      && (o.value.finalized <==> row.finalized || FinalizedIn(ds, id))
      && (forall s :: s in o.value.signers <==> s in row.signers || SignedIn(ds, id, s))
    decreases |ds|
  {
    hide NoDup, FinalizedIn, SignedIn, RowNext;
    if ds == [] {
      NothingIn(id);
    } else {
      ProposalStep(row, ds[0], id);
      var next := RowNext(Some(row), ds[0], ProposalKey(id)).value;
      ProposalFold(next, ds[1..], id);
      FinalizedTail(ds, id);
      forall s ensures SignedIn(ds, id, s) <==>
        (ds[0].event.MsSign? && ds[0].event.id == id && ds[0].event.signer == s) || SignedIn(ds[1..], id, s)
      {
        SignedTail(ds, id, s);
      }
    }
  }

  /** A proposal row: subject, proposer and threshold of the event that created it, seven days from when it was
      first delivered; its signers are the proposer first and then exactly those who signed since, once each;
      finalized iff an activation came after it. */
  lemma ProposalRowIs(db: Db, ds: seq<Delivery>, id: string)
    requires ProposalKey(id) !in db && CreatedIn(ds, ProposalKey(id))
    ensures var k := ProposalKey(id);
      k in Fold(db, ds) &&
      var row, first, e := Fold(db, ds)[k], First(ds, k), First(ds, k).event;
      && row.ProposalRow? && e.MsProp? && e.id == id
      && row.subject == e.subject && row.proposer == e.proposer && row.threshold == e.threshold && row.claimType == ""
      && row.expiresAt == first.clock + 604800
      && (row.finalized <==> FinalizedIn(Since(ds, k), id))
      && NoDup(row.signers) && row.signers != [] && row.signers[0] == e.proposer
      && (forall s :: s in row.signers <==> s == e.proposer || SignedIn(Since(ds, k), id, s))
  {
    hide Fold, RowFold, CreatedIn, FinalizedIn, SignedIn;
    var k := ProposalKey(id);
    PresentIff(db, ds, k);
    FoldLater(NewRow(First(ds, k)), Since(ds, k), k);
    ProposalFold(NewRow(First(ds, k)).value, Since(ds, k), id);
  }

  // ---------------------------------------------------------------- requests

  /** The first fulfilment or rejection of a request in a stream. */
  function Decision(ds: seq<Delivery>, id: string): Option<Event>
    decreases |ds|
  {
    if ds == [] then None
    else if (ds[0].event.ReqFul? || ds[0].event.ReqRej?) && ds[0].event.id == id then Some(ds[0].event)
    else Decision(ds[1..], id)
  }

  /** The request as it was made, with the decision applied. */
  predicate Decided(row: Row, was: Row, decision: Option<Event>) {
    row.RequestRow? && was.RequestRow? &&
    match decision
    case Some(ReqFul(_, a)) => row == was.(status := FULFILLED, fulfillmentId := Some(a))
    case Some(ReqRej(_, reason)) => row == was.(status := REJECTED, rejectionReason := reason)
    case _ => row == was
  }

  lemma {:induction false} DecidedStays(row: Row, ds: seq<Delivery>, id: string)
    requires row.RequestRow? && row.status != PENDING
    ensures RowFold(Some(row), ds, RequestKey(id)) == Some(row)
    decreases |ds|
  {
    if ds != [] {
      DecidedStays(row, ds[1..], id);
    }
  }

  lemma {:induction false} RequestFold(row: Row, ds: seq<Delivery>, id: string)
    requires row.RequestRow? && row.status == PENDING
    ensures var o := RowFold(Some(row), ds, RequestKey(id)); o.Some? && Decided(o.value, row, Decision(ds, id))
    decreases |ds|
  {
    if ds != [] {
      var next := RowNext(Some(row), ds[0], RequestKey(id)).value;
      if next.status == PENDING {
        RequestFold(row, ds[1..], id);
      } else {
        DecidedStays(next, ds[1..], id);
      }
    }
  }

  /** A request row: the request as made by the event that created it, decided by the first decision since. */
  lemma RequestRowIs(db: Db, ds: seq<Delivery>, id: string)
    requires RequestKey(id) !in db && CreatedIn(ds, RequestKey(id))
    ensures var k := RequestKey(id);
      k in Fold(db, ds) &&
      var row, e := Fold(db, ds)[k], First(ds, k).event;
      && e.AttReq? && e.id == id
      && Decided(row, RequestRow(e.subject, e.issuer, e.claimType, e.requestedAt, e.expiresAt, PENDING, None, None), Decision(Since(ds, k), id))
  {
    hide Fold, RowFold, CreatedIn, Decision, Decided;
    var k := RequestKey(id);
    PresentIff(db, ds, k);
    RequestFold(NewRow(First(ds, k)).value, Since(ds, k), id);
  }
}
