/**
  The two GridFS collections the updater works on, reduced to what it
  uses: the chunks collection keyed by (files_id, n), the files collection
  keyed by _id, and the three calls it makes on them.
 */
module GridStore {
  import opened Wrappers
  import opened Chunking
  import opened Metadata

  /** The chunks collection: (files_id, n) to the chunk's data. */
  type ChunkMap<Id(==)> = map<(Id, nat), Bytes>

  /** The files collection: _id to the rest of the record. */
  type FileMap<Id(==)> = map<Id, Fields>

  /** Both collections, as values. */
  datatype State<Id(==)> = State(chunks: ChunkMap<Id>, files: FileMap<Id>)

  /** The chunk map after removing every chunk of `id` whose index is at least `from`. */
  function Pruned<Id(==)>(chunks: ChunkMap<Id>, id: Id, from: nat): (r: ChunkMap<Id>)
    ensures forall k | k in chunks :: k in r <==> k.0 != id || k.1 < from
    ensures forall k | k in r :: k in chunks && r[k] == chunks[k]
  {
    map k | k in chunks && (k.0 != id || k.1 < from) :: chunks[k]
  }

  /** The chunks of `id` are exactly `parts`, at indices 0 .. |parts| - 1. */
  ghost predicate Holds<Id>(chunks: ChunkMap<Id>, id: Id, parts: seq<Bytes>)
  {
    && (forall k | k in chunks && k.0 == id :: k.1 < |parts|)
    && (forall n | 0 <= n < |parts| :: (id, n) in chunks && chunks[(id, n)] == parts[n])
  }

  /** Every chunk of an id other than `id` is the same in both maps. */
  ghost predicate SameElsewhere<Id>(c: ChunkMap<Id>, c': ChunkMap<Id>, id: Id)
  {
    && (forall k | k in c && k.0 != id :: k in c' && c'[k] == c[k])
    && (forall k | k in c' && k.0 != id :: k in c)
  }

  /** Pruning the chunks of `id` leaves every other id's chunks as they were. */
  lemma PrunedElsewhere<Id>(c: ChunkMap<Id>, id: Id, from: nat)
    ensures SameElsewhere(c, Pruned(c, id, from), id)
  {
  }

  lemma SameElsewhereTrans<Id>(c: ChunkMap<Id>, c': ChunkMap<Id>, c'': ChunkMap<Id>, id: Id)
    requires SameElsewhere(c, c', id) && SameElsewhere(c', c'', id)
    ensures SameElsewhere(c, c'', id)
  {
  }

  /** The bytes a reader gets by joining chunks 0 .. count - 1 of `id`. */
  function ReadBack<Id(==)>(chunks: ChunkMap<Id>, id: Id, count: nat): Bytes
    requires forall n | 0 <= n < count :: (id, n) in chunks
  {
    Concat(seq(count, n requires 0 <= n < count => chunks[(id, n)]))
  }

  /** A reader of an id whose chunks hold `parts` gets them joined. */
  lemma ReadBackHolds<Id>(chunks: ChunkMap<Id>, id: Id, parts: seq<Bytes>)
    requires Holds(chunks, id, parts)
    ensures ReadBack(chunks, id, |parts|) == Concat(parts)
  {
    var count := |parts|;
    assert seq(count, n requires 0 <= n < count => chunks[(id, n)]) == parts;
  }

  /** A reader of an id whose chunks are the split payload gets the payload back. */
  lemma ReadBackPayload<Id>(chunks: ChunkMap<Id>, id: Id, data: Bytes, cs: nat)
    requires cs >= 1 && Holds(chunks, id, Split(data, cs))
    ensures ReadBack(chunks, id, ChunkCount(|data|, cs)) == data
  {
    ReadBackHolds(chunks, id, Split(data, cs));
    ConcatSplit(data, cs);
  }

  /** The two collections, updated in place by the store calls. */
  class Store<Id(==)> {
    var chunks: ChunkMap<Id>
    var files: FileMap<Id>

    constructor (chunks: ChunkMap<Id>, files: FileMap<Id>)
      ensures this.chunks == chunks && this.files == files
    {
      this.chunks := chunks;
      this.files := files;
    }

    /** The current contents of both collections. */
    function Snapshot(): State<Id>
      reads this
    {
      State(chunks, files)
    }

    /** Upsert of chunk (id, n) with `data`: created when absent, overwritten when present. */
    method UpsertChunk(id: Id, n: nat, data: Bytes)
      modifies this
      ensures chunks == old(chunks)[(id, n) := data]
      ensures files == old(files)
    {
      chunks := chunks[(id, n) := data];
    }

    /** Removal of every chunk of `id` with index at least `from`; `from` = 0 removes them all. */
    method RemoveChunks(id: Id, from: nat)
      modifies this
      ensures chunks == Pruned(old(chunks), id, from)
      ensures files == old(files)
    {
      chunks := Pruned(chunks, id, from);
    }

    /**
      Update of the files record `id` with `m`, never creating one. Gives the
      number of records affected (1, or 0 when there is no record `id`), or
      None when the store refuses `m`, in which case nothing changes.
     */
    method UpdateFile(id: Id, m: Modifier) returns (affected: Option<nat>)
      modifies this
      ensures chunks == old(chunks)
      ensures affected.None? <==> !Supported(m)
      ensures affected.Some? ==> (affected.value == 1 <==> id in old(files))
      ensures affected.Some? ==> affected.value <= 1
      ensures files == if affected == Some(1) then old(files)[id := ApplyModifier(old(files)[id], m)]
                       else old(files)
    {
      if !Supported(m) {
        return None;
      }
      if id !in files {
        return Some(0);
      }
      files := files[id := ApplyModifier(files[id], m)];
      return Some(1);
    }
  }
}
