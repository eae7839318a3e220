/** The chunked id lists of src/storage.rs: one storage entry per fifty ids. */
module ChunkedIndex {
  import opened Types
  import opened Sequences

  const CHUNK: nat := 50

  type Chunks = map<(Address, nat), seq<Id>>

  function ChunkCount(n: nat): nat { (n + CHUNK - 1) / CHUNK }

  /** The `i`th chunk of a list: its ids from position 50 * i up to the next multiple of 50. */
  function ChunkAt(ids: seq<Id>, i: nat): seq<Id>
    requires i < ChunkCount(|ids|)
  {
    ids[CHUNK * i .. Min(CHUNK * i + CHUNK, |ids|)]
  }

  /** The chunks stored for `owner` are exactly those of `ids`: contiguous keys from 0, no stale tail. */
  ghost predicate Stores(chunks: Chunks, owner: Address, ids: seq<Id>) {
    && (forall i: nat :: (owner, i) in chunks <==> i < ChunkCount(|ids|))
    && (forall i: nat :: i < ChunkCount(|ids|) ==> chunks[(owner, i)] == ChunkAt(ids, i))
  }

  /** The keys present for `owner` are 0, 1, ..., n - 1. */
  ghost predicate Contiguous(chunks: Chunks, owner: Address, n: nat) {
    forall i: nat :: (owner, i) in chunks <==> i < n
  }

  /** Two stores agree on every chunk that is not one of `owner`'s. */
  ghost predicate SameElsewhere(a: Chunks, b: Chunks, owner: Address) {
    forall other, i: nat :: other != owner ==>
      && ((other, i) in a <==> (other, i) in b)
      && ((other, i) in a ==> a[(other, i)] == b[(other, i)])
  }

  /** Concatenation of chunks `0 .. n`. */
  ghost function Joined(chunks: Chunks, owner: Address, n: nat): seq<Id>
    requires forall i: nat :: i < n ==> (owner, i) in chunks
  {
    if n == 0 then [] else Joined(chunks, owner, n - 1) + chunks[(owner, n - 1)]
  }

  lemma {:induction false} JoinedPrefix(chunks: Chunks, owner: Address, ids: seq<Id>, n: nat)
    requires Stores(chunks, owner, ids) && n <= ChunkCount(|ids|)
    ensures Joined(chunks, owner, n) == ids[..Min(CHUNK * n, |ids|)]
  {
    if n > 0 {
      JoinedPrefix(chunks, owner, ids, n - 1);
      assert chunks[(owner, n - 1)] == ChunkAt(ids, n - 1);
      var a, b := CHUNK * (n - 1), Min(CHUNK * n, |ids|);
      assert ids[..b] == ids[..a] + ids[a..b];
    }
  }

  /** What the storage layout promises: full chunks except the last, none empty, and their
      concatenation is the list; hence one layout cannot stand for two lists. */
  lemma StoredShape(chunks: Chunks, owner: Address, ids: seq<Id>)
    requires Stores(chunks, owner, ids)
    ensures Contiguous(chunks, owner, ChunkCount(|ids|))
    ensures forall i: nat :: i + 1 < ChunkCount(|ids|) ==> |chunks[(owner, i)]| == 50
    ensures ids != [] ==> 0 < |chunks[(owner, ChunkCount(|ids|) - 1)]| <= 50
    ensures Joined(chunks, owner, ChunkCount(|ids|)) == ids
  {
    JoinedPrefix(chunks, owner, ids, ChunkCount(|ids|));
    if ids != [] {
      assert chunks[(owner, ChunkCount(|ids|) - 1)] == ChunkAt(ids, ChunkCount(|ids|) - 1);
    }
  }

  lemma StoredUnique(chunks: Chunks, owner: Address, a: seq<Id>, b: seq<Id>)
    requires Stores(chunks, owner, a) && Stores(chunks, owner, b)
    ensures a == b
  {
    StoredShape(chunks, owner, a);
    StoredShape(chunks, owner, b);
    var m, n := ChunkCount(|a|), ChunkCount(|b|);
    assert (owner, m) in chunks <==> m < n;
    assert (owner, n) in chunks <==> n < m;
  }

  /** The store holds exactly the given lists. */
  ghost predicate Holds(chunks: Chunks, contents: map<Address, seq<Id>>) {
    forall owner :: Stores(chunks, owner, Read(contents, owner))
  }

  /** The inner loop of a chunk write: at most fifty ids, fewer when the list runs out. */
  method NextChunk(ids: seq<Id>, offset: nat) returns (chunk: seq<Id>)
    requires offset <= |ids|
    ensures chunk == ids[offset .. Min(offset + CHUNK, |ids|)]
  {
    chunk := [];
    for k := 0 to CHUNK
      invariant chunk == ids[offset .. Min(offset + k, |ids|)]
    {
      if offset + |chunk| >= |ids| { break; }
      chunk := chunk + [ids[offset + |chunk|]];
    }
  }

  /** The unbounded loop that drops stale chunks: it stops at the first missing key. */
  method RemoveTail(chunks: Chunks, owner: Address, start: nat, ghost before: nat) returns (updated: Chunks)
    requires forall i: nat :: (owner, i) in chunks <==> i < start || i < before
    ensures SameElsewhere(updated, chunks, owner) && Contiguous(updated, owner, start)
    ensures forall i: nat :: i < start ==> updated[(owner, i)] == chunks[(owner, i)]
  {
    updated := chunks;
    var i := start;
    while (owner, i) in updated
      invariant start <= i && (i > start ==> i <= before)
      invariant forall k :: k in updated <==> k in chunks && !(k.0 == owner && start <= k.1 < i)
      invariant forall k :: k in updated ==> updated[k] == chunks[k]
      decreases updated.Keys
    {
      ghost var prev := updated;
      updated := updated - {(owner, i)};
      assert (owner, i) in prev.Keys && updated.Keys == prev.Keys - {(owner, i)};
      i := i + 1;
    }
  }

  /** `write_subject_chunks` / `write_issuer_chunks`: overwrite chunk after chunk, then drop what is
      left of a longer predecessor. */
  method Write(chunks: Chunks, ghost contents: map<Address, seq<Id>>, owner: Address, ids: seq<Id>) returns (updated: Chunks)
    requires Holds(chunks, contents)
    ensures Stores(updated, owner, ids) && SameElsewhere(updated, chunks, owner)
    ensures Holds(updated, contents[owner := ids])
  {
    assert Stores(chunks, owner, Read(contents, owner));
    ghost var before := ChunkCount(|Read(contents, owner)|);
    updated := chunks;
    var chunkIndex, offset := 0, 0;
    while offset < |ids|
      invariant offset == Min(CHUNK * chunkIndex, |ids|)
      invariant chunkIndex <= ChunkCount(|ids|)
      invariant SameElsewhere(updated, chunks, owner)
      invariant forall i: nat :: (owner, i) in updated <==> i < chunkIndex || i < before
      invariant forall i: nat :: i < chunkIndex ==> updated[(owner, i)] == ChunkAt(ids, i)
    {
      var chunk := NextChunk(ids, offset);
      offset := offset + |chunk|;
      assert chunk == ChunkAt(ids, chunkIndex);
      updated := updated[(owner, chunkIndex) := chunk];
      chunkIndex := chunkIndex + 1;
    }
    updated := RemoveTail(updated, owner, chunkIndex, before);
    HoldsAfterWrite(chunks, updated, contents, owner, ids);
  }

  lemma HoldsAfterWrite(chunks: Chunks, updated: Chunks, contents: map<Address, seq<Id>>, owner: Address, ids: seq<Id>)
    requires Holds(chunks, contents) && Stores(updated, owner, ids) && SameElsewhere(updated, chunks, owner)
    ensures Holds(updated, contents[owner := ids])
  {
    var after := contents[owner := ids];
    forall other ensures Stores(updated, other, Read(after, other)) {
      if other != owner {
        assert Stores(chunks, other, Read(contents, other));
      }
    }
  }

  /** `get_subject_ids` / `get_issuer_ids`: read chunks until one is missing or empty. */
  method ReadAll(chunks: Chunks, ghost contents: map<Address, seq<Id>>, owner: Address) returns (ids: seq<Id>)
    requires Holds(chunks, contents)
    ensures ids == Read(contents, owner)
  {
    ghost var all := Read(contents, owner);
    assert Stores(chunks, owner, all);
    ids := [];
    var i := 0;
    while true
      invariant i <= ChunkCount(|all|)
      invariant ids == all[..Min(CHUNK * i, |all|)]
      decreases ChunkCount(|all|) - i
    {
      var chunk := if (owner, i) in chunks then chunks[(owner, i)] else [];
      if |chunk| == 0 {
        break;
      }
      assert i < ChunkCount(|all|) && chunk == ChunkAt(all, i);
      ids := ids + chunk;
      i := i + 1;
    }
    assert ids == all;
  }

  /** Write then read is the identity, and other owners read as before. */
  method WriteThenRead(chunks: Chunks, ghost contents: map<Address, seq<Id>>, owner: Address, ids: seq<Id>, other: Address)
      returns (mine: seq<Id>, theirs: seq<Id>)
    requires Holds(chunks, contents)
    ensures mine == ids && (other != owner ==> theirs == Read(contents, other))
  {
    var updated := Write(chunks, contents, owner, ids);
    mine := ReadAll(updated, contents[owner := ids], owner);
    theirs := ReadAll(updated, contents[owner := ids], other);
  }

  /** `add_subject` / `add_issuer`. */
  method Add(chunks: Chunks, ghost contents: map<Address, seq<Id>>, owner: Address, id: Id) returns (updated: Chunks)
    requires Holds(chunks, contents)
    ensures Holds(updated, Push(contents, owner, id)) && SameElsewhere(updated, chunks, owner)
  {
    var ids := ReadAll(chunks, contents, owner);
    updated := Write(chunks, contents, owner, ids + [id]);
  }

  /** `add_issuer_bulk`. */
  method AddBulk(chunks: Chunks, ghost contents: map<Address, seq<Id>>, owner: Address, newIds: seq<Id>) returns (updated: Chunks)
    requires Holds(chunks, contents)
    ensures Holds(updated, contents[owner := Read(contents, owner) + newIds]) && SameElsewhere(updated, chunks, owner)
  {
    var ids := ReadAll(chunks, contents, owner);
    ghost var existing := ids;
    for k := 0 to |newIds|
      invariant ids == existing + newIds[..k]
    {
      ids := ids + [newIds[k]];
    }
    assert newIds[..|newIds|] == newIds;
    updated := Write(chunks, contents, owner, ids);
  }

  /** `remove_subject` / `remove_issuer`. */
  method Remove(chunks: Chunks, ghost contents: map<Address, seq<Id>>, owner: Address, id: Id) returns (updated: Chunks)
    requires Holds(chunks, contents)
    ensures Holds(updated, Drop(contents, owner, id)) && SameElsewhere(updated, chunks, owner)
  {
    var ids := ReadAll(chunks, contents, owner);
    var kept := RemoveFromList(ids, id);
    updated := Write(chunks, contents, owner, kept);
  }
}
