# GridFS in-place update, modelled in Dafny

`GridFsUpdater::update` replaces the bytes of an existing GridFS file
without creating a new file id. It works in these steps:

1. It checks that the payload is a string and that the `chunkSize` option,
   when it is set, is an integer of at least 1. The default chunk size is
   262144.
2. It upserts chunks `0 .. ceil(len / chunkSize) - 1` of the payload into
   the chunks collection, in index order.
3. It removes the chunks of the id whose index is at least the new count.
4. It forces `length`, `chunkSize` and `md5` into the caller's `$set`
   document. On a key both hold, the computed value wins.
5. It updates the files record. If that update does not affect exactly
   one record, it removes every chunk of the id and re-raises the
   exception.

The project is organised as follows:

- `chunking.dfy` (module `Chunking`): cutting a payload into chunks and
  joining them back.
- `metadata.dfy` (module `Metadata`): field documents, the `$set`/`$unset`
  update document, PHP's array union, and how the store applies an update
  document.
- `store.dfy` (module `GridStore`): the two collections.
  - A `Store` class whose `chunks` and `files` maps are updated in place.
  - Its three calls: chunk upsert, chunk removal, and files update.
- `updater.dfy` (module `GridFsUpdater`): the update operation.
  - `Update` is the imperative method over a `Store`. It keeps the
    source's loop in `UpsertChunks` and its try/catch in
    `UpdateFileOrRollBack`.
  - `Update` is proved equal to the specification function `UpdateEffect`.
  - The lemmas about `UpdateEffect` state what the operation guarantees,
    on the success path and on every error path.
- `examples_of_use.dfy` (module `UpdaterScenarios`): the scenarios of the
  repository's tests, derived from the general lemmas.

Exceptions from the store are modelled as a `Faults` parameter. It names
which store call raises: a chunk upsert at a given index, the prune, the
files update, or the rollback. A call that raises changes nothing. PHP's
`md5()` is a function parameter.

## Model

| member | source | states |
|---|---|---|
| Chunking.ChunkCountBounds | src/GridFsUpdater.php:34-35 | The chunks cover the payload (`len <= count*cs`), one chunk fewer would not (`count*cs < len+cs`), and the count is 0 exactly for the empty payload |
| Chunking.ChunkCountIsCeiling | src/GridFsUpdater.php:35 | The chunk count equals the ceiling `(len+cs-1)/cs`, which is what `(int)ceil($bytesLen / $chunkSize)` computes |
| Chunking.ChunkIsSlice | src/GridFsUpdater.php:38 | Chunk n holds min(cs, remaining) bytes, at least one, and they are the payload's bytes from offset n*cs, as `substr` returns them |
| Chunking.SplitShape | src/GridFsUpdater.php:37-40 | Every chunk but the last holds exactly cs bytes; the last holds the remaining 1..cs bytes |
| Chunking.ConcatPrefix | src/GridFsUpdater.php:37-40 | The first k chunks joined are the first min(k*cs, len) payload bytes |
| Chunking.ConcatSplit | src/GridFsUpdater.php:37-40 | Joining the chunks gives back the payload (round trip) |
| Metadata.DerivedFields | src/GridFsUpdater.php:48-51 | The derived document has exactly the fields length, chunkSize and md5 |
| Metadata.PhpUnion | src/GridFsUpdater.php:48-52 | PHP array `+`: the key union, the left operand's value on a shared key, the right one's otherwise; that is, the right operand overwritten by the left |
| Metadata.WithDerived | src/GridFsUpdater.php:44-52 | `$set` is created when absent; derived values win over the caller's; the caller's other `$set` fields and every other directive pass through unchanged |
| Metadata.ApplyModifier | src/GridFsUpdater.php:54 | Applying the update document: `$set` fields stored, `$unset` fields removed, every other field kept and none added |
| Metadata.SupportedWithDerived | src/GridFsUpdater.php:44-54 | The store accepts the merged document iff the caller used only `$set`/`$unset` and unsets none of the fields the merged `$set` writes |
| Metadata.DerivedFieldsWin | src/GridFsUpdater.php:44-54 | After the files update the derived values are stored whatever the caller's `$set` said, the caller's other set fields are stored, the unset ones are absent, and the rest of the record is as before |
| GridStore.Pruned | src/GridFsUpdater.php:42 | Removal by `{files_id: id, n: {$gte: from}}`: exactly the chunks of id at index >= from go; the others keep their data |
| GridStore.PrunedElsewhere | src/GridFsUpdater.php:42 | Removing chunks of id never touches another id's chunks |
| GridStore.ReadBackPayload | src/GridFsUpdater.php:37-42 | A reader joining the chunks of an id that hold the split payload gets the payload back |
| GridStore.Store.UpsertChunk | src/GridFsUpdater.php:39 | Upsert of chunk (id, n): created when absent, its data replaced when present; nothing else changes |
| GridStore.Store.RemoveChunks | src/GridFsUpdater.php:42 | The chunk map becomes `Pruned(old, id, from)`; files unchanged |
| GridStore.Store.UpdateFile | src/GridFsUpdater.php:54 | Refused document: None, nothing changes. Otherwise it affects 1 record iff id exists, and then applies the document to that record only; it never creates a record |
| GridFsUpdater.ResolveChunkSize | src/GridFsUpdater.php:23-30 | Fails iff the option is set (present, not null) and not an int >= 1, with the exact message; an unset option gives 262144, a set one its own value |
| GridFsUpdater.Validate | src/GridFsUpdater.php:19-30 | Success iff the payload is a string and the chunk size resolves; the payload check comes first, with its own message |
| GridFsUpdater.UpsertChunks | src/GridFsUpdater.php:37-40 | The loop writes chunks 0, 1, ... in order and stops at the index whose upsert raises; the chunk map is `Written(old, ..., n)` for the index reached |
| GridFsUpdater.UpdateFileOrRollBack | src/GridFsUpdater.php:53-60 | The try/catch: one record affected means the update returns normally; otherwise NotFound(id) or the store's exception, after removing all chunks of id, unless the removal itself raises |
| GridFsUpdater.Update | src/GridFsUpdater.php:17-61 | The whole update on a `Store`: the new collections and the outcome are exactly `UpdateEffect` of the old ones |
| GridFsUpdater.WrittenFacts | src/GridFsUpdater.php:37-40 | After upserting chunks 0..n-1 each holds its slice, every other chunk record is as before, and no other record was added |
| GridFsUpdater.WrittenAndPruned | src/GridFsUpdater.php:37-42 | Upsert then prune leaves the chunks of id exactly the split payload; other ids' chunks are unchanged |
| GridFsUpdater.InvalidArgumentsTouchNothing | src/GridFsUpdater.php:19-30 | An InvalidArgument exception is raised iff the payload is not a string or the chunk size is bad, with the right message, and neither collection changes |
| GridFsUpdater.UpdatedExactly | src/GridFsUpdater.php:17-61 | The update returns normally iff the arguments are valid, no store call raises, the store accepts the merged document, and the files record exists |
| GridFsUpdater.UpdatedStoresPayload | src/GridFsUpdater.php:34-42 | After a normal return the chunks of id are exactly the payload's chunks, none lies at or beyond the new count, and reading them back gives the payload |
| GridFsUpdater.UpdatedMetadata | src/GridFsUpdater.php:44-54 | After a normal return the record holds the payload's length, the chunk size and md5, plus the caller's `$set`/`$unset` effect, and nothing else about it changes; no other record changes |
| GridFsUpdater.OtherIdsUntouched | src/GridFsUpdater.php:37-60 | Whatever happens, other ids' chunks are unchanged and the files collection gains, loses and changes no other record |
| GridFsUpdater.StoreEffectElsewhere | src/GridFsUpdater.php:37-60 | The store-call phase alone keeps other ids' chunks and records |
| GridFsUpdater.FilesEffectElsewhere | src/GridFsUpdater.php:53-60 | The files update and rollback keep other ids' chunks and records |
| GridFsUpdater.FailedFilesUpdateRemovesAllChunks | src/GridFsUpdater.php:53-60 | A failed files update with a successful rollback leaves no chunk of id and the files unchanged; the exception is NotFound iff the update went through but no record existed, otherwise the store's |
| GridFsUpdater.MissingRecordLeavesNoChunks | tests/GridFsUpdaterTest.php:201-207 | Updating a missing id raises NotFound naming the id, leaves no chunk of it, and creates no record |
| GridFsUpdater.UpsertFailureKeepsEarlierChunks | src/GridFsUpdater.php:37-40 | An upsert exception at index k escapes without rollback: chunks below k hold their new slices, all other chunk records are as before, and the files are unchanged |
| GridFsUpdater.PruneFailureKeepsStaleTail | src/GridFsUpdater.php:42 | A prune exception escapes without rollback: the new chunks are in place and the stale tail of a longer old payload survives |
| GridFsUpdater.RollbackFailureMasksError | src/GridFsUpdater.php:57-59 | When the rollback raises, its exception is the one that escapes and the new chunks stay |
| UpdaterScenarios.TestChunkCounts | tests/GridFsUpdaterTest.php:57-194 | The chunk counts the tests observe: 6 bytes at 6 give 1, 4 at 2 give 2, 6 at 2 give 3, 0 at 2 give 0 |
| UpdaterScenarios.ShorterPayloadDropsTail | tests/GridFsUpdaterTest.php:129-148 | A 4-byte update at chunk size 2 of a file holding chunk 2 returns normally, leaves chunks 0 and 1 with the payload's two halves, removes chunk 2, and reads back as the payload |
| UpdaterScenarios.TestPatchSupported | tests/GridFsUpdaterTest.php:21-36 | The test's merged update document is one the store accepts |
| UpdaterScenarios.ModifierDocDerivedScenario | tests/GridFsUpdaterTest.php:21-51 | The test's record gets chunkSize 2, length 4 and the payload's md5, despite the caller's "BAD" values |
| UpdaterScenarios.ModifierDocCallerScenario | tests/GridFsUpdaterTest.php:21-51 | The test's record gets key2 = -2 and loses key3 |
| UpdaterScenarios.ModifierDocKeptScenario | tests/GridFsUpdaterTest.php:21-51 | The test's record keeps key1 and uploadDate |

## Left out

- The store is modelled through the three calls the updater makes: the chunk upsert, the chunk removal by filter, and the files update that reports how many records it affected. The `MongoGridFS` handle, collection selection, `MongoBinData` wrapping, write concerns and the `['n']` result shape are left out.
- `md5` is a function parameter; the MD5 digest itself is not modelled.
- Concurrency: no other writer runs during an update in this model. The source has no locking.
- A store call that raises changes nothing in this model. A removal that fails part-way through is not modelled.
- Metadata.Supported: the model store refuses update documents with operators other than `$set`/`$unset`, and documents that set and unset one field. It treats them as the store raising; other MongoDB operators are not modelled.
- GridFsUpdater.ResolveChunkSize: PHP integers are 64-bit; the model uses unbounded integers. The overflow of `$n * $chunkSize` near 2^63 is not modelled.
- Chunking.ChunkCountIsCeiling: the source computes the count with a float division and `ceil`. That is exact only while the payload length is below 2^53 bytes; the model uses the exact integer ceiling.
- Metadata.PhpUnion: PHP arrays are ordered. The key order of the merged `$set` is not modelled, because it does not affect the stored record.
- `_id` is the files map's key, so it is not a field of the record. `isset($modifierDoc['$set'])` on a `$set` that is present but null is not modelled. A non-array `$set` value is not modelled either.
- Field values are limited to ints, strings and booleans.
- GridFsUpdater.RollbackFailureMasksError: when the rollback raises, its exception replaces the files update's (src/GridFsUpdater.php:57-59); the model follows the code.
