/**
  GridFsUpdater::update: replace the bytes of an existing GridFS file in
  place. It validates its arguments, upserts the new chunks from low to high
  index, prunes the stale tail, merges the derived fields into the caller's
  `$set`, updates the files record, and on a failed files update removes
  every chunk of the id again.
 */
module GridFsUpdater {
  import opened Wrappers
  import opened Chunking
  import opened Metadata
  import opened GridStore

  /** The PHP values the updater inspects: a (byte) string, an int, null, or anything else. */
  datatype PhpValue = PhpString(bytes: Bytes) | PhpInt(i: int) | PhpNull | PhpOther

  const ChunkSizeOption := "chunkSize"
  const BytesNotStringMessage := "$bytes must be a string"
  const BadChunkSizeMessage := "chunkSize option need to be an integer >= 1"

  /** The store call during which an exception was raised. */
  datatype Step = ChunkUpsert(n: nat) | Prune | FilesUpdate | Rollback

  /** The exceptions update raises. NotFound carries the id its message names. */
  datatype UpdateError<Id> =
    | InvalidArgument(message: string)
    | NotFound(id: Id)
    | StoreFailure(step: Step)

  /** Returning normally, or raising an exception. */
  datatype Outcome<Id> = Updated | Failed(error: UpdateError<Id>)

  /**
    Which store calls raise an exception of the store's own: the chunk upsert
    with index `upsertFailsAt`, the prune, the files update, the rollback.
    A call that raises changes nothing.
   */
  datatype Faults = Faults(upsertFailsAt: Option<nat>, pruneFails: bool, updateFails: bool, rollbackFails: bool)

  const NoFaults := Faults(None, false, false, false)

  /** The arguments once validated: the payload and the resolved chunk size. */
  datatype Input = Input(data: Bytes, chunkSize: nat)

  /** PHP's isset($options[key]): present and not null. */
  predicate IsSet(options: map<string, PhpValue>, key: string)
  {
    key in options && options[key] != PhpNull
  }

  /** The chunk size: the option when it is set and an int of at least 1, 262144 when unset. */
  function ResolveChunkSize(options: map<string, PhpValue>): (r: Result<nat, string>)
    ensures r.Success? <==>
      !IsSet(options, ChunkSizeOption) ||
      (options[ChunkSizeOption].PhpInt? && options[ChunkSizeOption].i >= 1)
    ensures r.Success? ==> r.value >= 1
    ensures r.Success? && !IsSet(options, ChunkSizeOption) ==> r.value == DefaultChunkSize
    ensures r.Success? && IsSet(options, ChunkSizeOption) ==> options[ChunkSizeOption] == PhpInt(r.value)
    ensures r.Failure? ==> r.error == BadChunkSizeMessage
  {
    if !IsSet(options, ChunkSizeOption) then Success(DefaultChunkSize)
    else if !options[ChunkSizeOption].PhpInt? || options[ChunkSizeOption].i <= 0 then Failure(BadChunkSizeMessage)
    else Success(options[ChunkSizeOption].i)
  }

  /** Argument validation: the payload must be a string, checked first, then the chunk size. */
  function Validate(bytes: PhpValue, options: map<string, PhpValue>): (r: Result<Input, string>)
    ensures r.Success? <==> bytes.PhpString? && ResolveChunkSize(options).Success?
    ensures !bytes.PhpString? ==> r == Failure(BytesNotStringMessage)
    ensures bytes.PhpString? && r.Failure? ==> r.error == BadChunkSizeMessage
    ensures r.Success? ==> r.value.data == bytes.bytes && r.value.chunkSize >= 1
  {
    if !bytes.PhpString? then Failure(BytesNotStringMessage)
    else match ResolveChunkSize(options)
      case Failure(message) => Failure(message)
      case Success(cs) => Success(Input(bytes.bytes, cs))
  }

  /** The update document sent to the files collection. */
  function Patch(modifier: Modifier, data: Bytes, cs: nat, md5: Bytes -> string): Modifier
  {
    WithDerived(modifier, DerivedFields(|data|, cs, md5(data)))
  }

  /** The chunk map after upserting chunks 0 .. n - 1 of `data` for `id`, in that order. */
  function Written<Id(==)>(chunks: ChunkMap<Id>, id: Id, data: Bytes, cs: nat, n: nat): ChunkMap<Id>
    requires cs >= 1 && n <= ChunkCount(|data|, cs)
  {
    if n == 0 then chunks
    else Written(chunks, id, data, cs, n - 1)[(id, n - 1) := Chunk(data, cs, n - 1)]
  }

  /** The upsert raising an exception comes before chunk `count` is written. */
  predicate UpsertFailsBelow(faults: Faults, count: nat)
  {
    faults.upsertFailsAt.Some? && faults.upsertFailsAt.value < count
  }

  /**
    What update does to the two collections, and how it ends, as a function
    of the collections before, the arguments, and the store faults.
   */
  function UpdateEffect<Id(==)>(s: State<Id>, id: Id, bytes: PhpValue, modifier: Modifier,
                                options: map<string, PhpValue>, md5: Bytes -> string, faults: Faults)
    : (State<Id>, Outcome<Id>)
  {
    match Validate(bytes, options)
    case Failure(message) => (s, Failed(InvalidArgument(message)))
    case Success(input) => StoreEffect(s, id, input, modifier, md5, faults)
  }

  /** The store calls of update, once the arguments are valid. */
  function StoreEffect<Id(==)>(s: State<Id>, id: Id, input: Input, modifier: Modifier,
                               md5: Bytes -> string, faults: Faults): (State<Id>, Outcome<Id>)
    requires input.chunkSize >= 1
  {
    var data, cs := input.data, input.chunkSize;
    var count := ChunkCount(|data|, cs);
    if UpsertFailsBelow(faults, count) then
      var k := faults.upsertFailsAt.value;
      (State(Written(s.chunks, id, data, cs, k), s.files), Failed(StoreFailure(ChunkUpsert(k))))
    else if faults.pruneFails then
      (State(Written(s.chunks, id, data, cs, count), s.files), Failed(StoreFailure(Prune)))
    else
      FilesEffect(State(Pruned(Written(s.chunks, id, data, cs, count), id, count), s.files),
                  id, Patch(modifier, data, cs, md5), faults)
  }

  /**
    The files update and, when it does not affect exactly one record, the
    rollback that removes every chunk of `id`.
   */
  function FilesEffect<Id(==)>(s: State<Id>, id: Id, patch: Modifier, faults: Faults): (State<Id>, Outcome<Id>)
  {
    if !faults.updateFails && Supported(patch) && id in s.files then
      (State(s.chunks, s.files[id := ApplyModifier(s.files[id], patch)]), Updated)
    else
      var error := if faults.updateFails || !Supported(patch) then StoreFailure(FilesUpdate) else NotFound(id);
      if faults.rollbackFails then (s, Failed(StoreFailure(Rollback)))
      else (State(Pruned(s.chunks, id, 0), s.files), Failed(error))
  }

  /**
    GridFsUpdater::update on `store`. `md5` is PHP's md5() and `faults` says
    which store calls raise an exception.
   */
  method Update<Id(==)>(store: Store<Id>, id: Id, bytes: PhpValue, modifier: Modifier,
                        options: map<string, PhpValue>, md5: Bytes -> string, faults: Faults)
    returns (outcome: Outcome<Id>)
    modifies store
    ensures (store.Snapshot(), outcome) ==
            UpdateEffect(old(store.Snapshot()), id, bytes, modifier, options, md5, faults)
  {
    var validated := Validate(bytes, options);
    if validated.Failure? {
      return Failed(InvalidArgument(validated.error));
    }
    var data, cs := validated.value.data, validated.value.chunkSize;
    var count := ChunkCount(|data|, cs);
    ghost var before := old(store.Snapshot());
    assert UpdateEffect(before, id, bytes, modifier, options, md5, faults)
        == StoreEffect(before, id, validated.value, modifier, md5, faults);

    var n := UpsertChunks(store, id, data, cs, faults);
    if n < count {
      return Failed(StoreFailure(ChunkUpsert(n)));
    }

    if faults.pruneFails {
      return Failed(StoreFailure(Prune));
    }
    store.RemoveChunks(id, count);

    var patch := Patch(modifier, data, cs, md5);
    ghost var pruned := store.Snapshot();
    assert pruned == State(Pruned(Written(before.chunks, id, data, cs, count), id, count), before.files);
    assert StoreEffect(before, id, validated.value, modifier, md5, faults) == FilesEffect(pruned, id, patch, faults);
    outcome := UpdateFileOrRollBack(store, id, patch, faults);
  }

  /**
    The foreach over the chunk indices: upserts chunks 0, 1, ... of `data`
    for `id` in order, stopping at the upsert that raises. Gives the index
    reached: the failing one, or the chunk count when none failed.
   */
  method UpsertChunks<Id(==)>(store: Store<Id>, id: Id, data: Bytes, cs: nat, faults: Faults)
    returns (n: nat)
    requires cs >= 1
    modifies store
    ensures n == if UpsertFailsBelow(faults, ChunkCount(|data|, cs)) then faults.upsertFailsAt.value
                 else ChunkCount(|data|, cs)
    ensures store.chunks == Written(old(store.chunks), id, data, cs, n)
    ensures store.files == old(store.files)
  {
    var count := ChunkCount(|data|, cs);
    n := 0;
    while n < count && faults.upsertFailsAt != Some(n)
      invariant n <= count
      invariant faults.upsertFailsAt.Some? ==> faults.upsertFailsAt.value >= n
      invariant store.chunks == Written(old(store.chunks), id, data, cs, n)
      invariant store.files == old(store.files)
    {
      store.UpsertChunk(id, n, Chunk(data, cs, n));
      n := n + 1;
    }
  }

  /**
    The try/catch around the files update: the update must affect exactly
    one record; otherwise every chunk of `id` is removed and the exception
    (NotFound, or the store's) is raised again.
   */
  method UpdateFileOrRollBack<Id(==)>(store: Store<Id>, id: Id, patch: Modifier, faults: Faults)
    returns (outcome: Outcome<Id>)
    modifies store
    ensures (store.Snapshot(), outcome) == FilesEffect(old(store.Snapshot()), id, patch, faults)
  {
    var error: UpdateError<Id>;
    if faults.updateFails {
      error := StoreFailure(FilesUpdate);
    } else {
      var affected := store.UpdateFile(id, patch);
      if affected == Some(1) {
        return Updated;
      }
      error := if affected.None? then StoreFailure(FilesUpdate) else NotFound(id);
    }
    if faults.rollbackFails {
      return Failed(StoreFailure(Rollback));
    }
    store.RemoveChunks(id, 0);
    return Failed(error);
  }

  // ---------------------------------------------------------------------
  // Properties of the upsert loop
  // ---------------------------------------------------------------------

  /**
    After upserting chunks 0 .. n - 1: each of them holds its slice of the
    payload, every other record is as before, and nothing else was added.
   */
  lemma {:induction false} WrittenFacts<Id>(chunks: ChunkMap<Id>, id: Id, data: Bytes, cs: nat, n: nat)
    requires cs >= 1 && n <= ChunkCount(|data|, cs)
    ensures forall i | 0 <= i < n ::
      (id, i) in Written(chunks, id, data, cs, n) && Written(chunks, id, data, cs, n)[(id, i)] == Chunk(data, cs, i)
    ensures forall k | k in chunks && !(k.0 == id && k.1 < n) ::
      k in Written(chunks, id, data, cs, n) && Written(chunks, id, data, cs, n)[k] == chunks[k]
    ensures forall k | k in Written(chunks, id, data, cs, n) :: k in chunks || (k.0 == id && k.1 < n)
  {
    if n > 0 {
      WrittenFacts(chunks, id, data, cs, n - 1);
    }
  }

  /**
    Upserting all chunks and pruning from the new count leaves exactly the
    payload's chunks for `id`, and every other id's chunks as they were.
   */
  lemma WrittenAndPruned<Id>(chunks: ChunkMap<Id>, id: Id, data: Bytes, cs: nat)
    requires cs >= 1
    ensures var count := ChunkCount(|data|, cs);
      var after := Pruned(Written(chunks, id, data, cs, count), id, count);
      Holds(after, id, Split(data, cs)) && SameElsewhere(chunks, after, id)
  {
    var count := ChunkCount(|data|, cs);
    WrittenFacts(chunks, id, data, cs, count);
  }

  // ---------------------------------------------------------------------
  // Properties of UpdateEffect
  // ---------------------------------------------------------------------

  /**
    A non-string payload or a bad chunkSize option is reported as an
    InvalidArgument exception, with the payload checked first, before any
    store call: both collections are unchanged.
   */
  lemma InvalidArgumentsTouchNothing<Id>(s: State<Id>, id: Id, bytes: PhpValue, modifier: Modifier,
                                         options: map<string, PhpValue>, md5: Bytes -> string, faults: Faults)
    ensures var (s', outcome) := UpdateEffect(s, id, bytes, modifier, options, md5, faults);
      && ((outcome.Failed? && outcome.error.InvalidArgument?) <==>
          !bytes.PhpString? || ResolveChunkSize(options).Failure?)
      && (!bytes.PhpString? ==> s' == s && outcome == Failed(InvalidArgument(BytesNotStringMessage)))
      && (bytes.PhpString? && ResolveChunkSize(options).Failure? ==>
            s' == s && outcome == Failed(InvalidArgument(BadChunkSizeMessage)))
  {
  }

  /**
    The update returns normally exactly when the arguments are valid, no
    store call raises, the store accepts the merged document, and the files
    record exists.
   */
  lemma UpdatedExactly<Id>(s: State<Id>, id: Id, bytes: PhpValue, modifier: Modifier,
                           options: map<string, PhpValue>, md5: Bytes -> string, faults: Faults)
    ensures UpdateEffect(s, id, bytes, modifier, options, md5, faults).1 == Updated <==>
      && bytes.PhpString? && ResolveChunkSize(options).Success?
      && var cs := ResolveChunkSize(options).value;
         && !UpsertFailsBelow(faults, ChunkCount(|bytes.bytes|, cs))
         && !faults.pruneFails && !faults.updateFails
         && Supported(Patch(modifier, bytes.bytes, cs, md5))
         && id in s.files
  {
  }

  /**
    After a normal return the chunks of `id` are exactly the payload's
    chunks at the resolved size, so a reader joining them gets the payload
    back, and no chunk of `id` lies at or beyond the new count.
   */
  lemma UpdatedStoresPayload<Id>(s: State<Id>, id: Id, bytes: PhpValue, modifier: Modifier,
                                 options: map<string, PhpValue>, md5: Bytes -> string, faults: Faults)
    requires UpdateEffect(s, id, bytes, modifier, options, md5, faults).1 == Updated
    ensures bytes.PhpString? && ResolveChunkSize(options).Success?
    ensures var chunks := UpdateEffect(s, id, bytes, modifier, options, md5, faults).0.chunks;
      var data, cs := bytes.bytes, ResolveChunkSize(options).value;
      && Holds(chunks, id, Split(data, cs))
      && (forall k | k in chunks && k.0 == id :: k.1 < ChunkCount(|data|, cs))
      && ReadBack(chunks, id, ChunkCount(|data|, cs)) == data
  {
    var data, cs := bytes.bytes, ResolveChunkSize(options).value;
    var chunks := UpdateEffect(s, id, bytes, modifier, options, md5, faults).0.chunks;
    WrittenAndPruned(s.chunks, id, data, cs);
    ReadBackPayload(chunks, id, data, cs);
  }

  /**
    After a normal return the files record of `id` holds length, chunkSize
    and md5 of the payload whatever the caller's `$set` said for them, the
    caller's other `$set` fields, none of the `$unset` fields, its other
    fields as before and no field besides these; no files record was created or changed for another id.
   */
  lemma UpdatedMetadata<Id>(s: State<Id>, id: Id, bytes: PhpValue, modifier: Modifier,
                            options: map<string, PhpValue>, md5: Bytes -> string, faults: Faults)
    requires UpdateEffect(s, id, bytes, modifier, options, md5, faults).1 == Updated
    ensures bytes.PhpString? && ResolveChunkSize(options).Success? && id in s.files
    ensures var files := UpdateEffect(s, id, bytes, modifier, options, md5, faults).0.files;
      var data, cs := bytes.bytes, ResolveChunkSize(options).value;
      var derived := DerivedFields(|data|, cs, md5(data));
      var doc, d := s.files[id], files[id];
      && files.Keys == s.files.Keys
      && (forall other | other in s.files && other != id :: files[other] == s.files[other])
      && LengthField in d && d[LengthField] == VInt(|data|)
      && ChunkSizeField in d && d[ChunkSizeField] == VInt(cs)
      && Md5Field in d && d[Md5Field] == VStr(md5(data))
      && (forall k | k in CallerSet(modifier) && k !in derived :: k in d && d[k] == CallerSet(modifier)[k])
      && (forall k | k in UnsetFields(modifier) :: k !in d)
      && (forall k | k !in CallerSet(modifier) && k !in UnsetFields(modifier) && k !in derived ::
            (k in d <==> k in doc) && (k in doc ==> d[k] == doc[k]))
  {
    var input := Validate(bytes, options).value;
    var data, cs := input.data, input.chunkSize;
    var derived := DerivedFields(|data|, cs, md5(data));
    var patch := WithDerived(modifier, derived);
    assert StoreEffect(s, id, input, modifier, md5, faults).1 == Updated;
    var files := UpdateEffect(s, id, bytes, modifier, options, md5, faults).0.files;
    assert files == s.files[id := ApplyModifier(s.files[id], patch)];
    DerivedFieldsWin(s.files[id], modifier, derived);
  }

  /**
    Records of other ids are never touched, whatever happens: their chunks
    are as before, and the files collection gains and loses no record.
   */
  lemma OtherIdsUntouched<Id>(s: State<Id>, id: Id, bytes: PhpValue, modifier: Modifier,
                              options: map<string, PhpValue>, md5: Bytes -> string, faults: Faults)
    ensures var s' := UpdateEffect(s, id, bytes, modifier, options, md5, faults).0;
      && SameElsewhere(s.chunks, s'.chunks, id)
      && s'.files.Keys == s.files.Keys
      && (forall other | other in s.files && other != id :: s'.files[other] == s.files[other])
  {
    match Validate(bytes, options)
    case Failure(_) =>
    case Success(input) =>
      StoreEffectElsewhere(s, id, input, modifier, md5, faults);
  }

  /** The store calls leave other ids' chunks and files records as they were. */
  lemma StoreEffectElsewhere<Id>(s: State<Id>, id: Id, input: Input, modifier: Modifier,
                                 md5: Bytes -> string, faults: Faults)
    requires input.chunkSize >= 1
    ensures var s' := StoreEffect(s, id, input, modifier, md5, faults).0;
      && SameElsewhere(s.chunks, s'.chunks, id)
      && s'.files.Keys == s.files.Keys
      && (forall other | other in s.files && other != id :: s'.files[other] == s.files[other])
  {
    var data, cs := input.data, input.chunkSize;
    var count := ChunkCount(|data|, cs);
    var k := if UpsertFailsBelow(faults, count) then faults.upsertFailsAt.value else count;
    var written := Written(s.chunks, id, data, cs, k);
    WrittenFacts(s.chunks, id, data, cs, k);
    assert SameElsewhere(s.chunks, written, id);
    if !UpsertFailsBelow(faults, count) && !faults.pruneFails {
      var pruned := State(Pruned(written, id, count), s.files);
      PrunedElsewhere(written, id, count);
      SameElsewhereTrans(s.chunks, written, pruned.chunks, id);
      var patch := Patch(modifier, data, cs, md5);
      FilesEffectElsewhere(pruned, id, patch, faults);
      SameElsewhereTrans(s.chunks, pruned.chunks, FilesEffect(pruned, id, patch, faults).0.chunks, id);
    }
  }

  /** The files update and its rollback leave other ids' chunks and files records as they were. */
  lemma FilesEffectElsewhere<Id>(s: State<Id>, id: Id, patch: Modifier, faults: Faults)
    ensures var s' := FilesEffect(s, id, patch, faults).0;
      && SameElsewhere(s.chunks, s'.chunks, id)
      && s'.files.Keys == s.files.Keys
      && (forall other | other in s.files && other != id :: s'.files[other] == s.files[other])
  {
    PrunedElsewhere(s.chunks, id, 0);
  }

  /**
    When the chunks were written and pruned but the files update then fails
    (no such record, the store refusing the document, or an exception), and
    the rollback succeeds: no chunk of `id` remains, the files collection is
    unchanged, and the exception is NotFound exactly when the record was
    missing and the update itself went through.
   */
  lemma FailedFilesUpdateRemovesAllChunks<Id>(s: State<Id>, id: Id, bytes: PhpValue, modifier: Modifier,
                                              options: map<string, PhpValue>, md5: Bytes -> string, faults: Faults)
    requires Validate(bytes, options).Success?
    requires var input := Validate(bytes, options).value;
      !UpsertFailsBelow(faults, ChunkCount(|input.data|, input.chunkSize)) && !faults.pruneFails
    requires !faults.rollbackFails
    requires UpdateEffect(s, id, bytes, modifier, options, md5, faults).1.Failed?
    ensures var (s', outcome) := UpdateEffect(s, id, bytes, modifier, options, md5, faults);
      var input := Validate(bytes, options).value;
      var patch := Patch(modifier, input.data, input.chunkSize, md5);
      && Holds(s'.chunks, id, [])
      && s'.files == s.files
      && (outcome.error == NotFound(id) <==> !faults.updateFails && Supported(patch) && id !in s.files)
      && (outcome.error != NotFound(id) ==> outcome.error == StoreFailure(FilesUpdate))
  {
  }

  /**
    Updating an id with no files record and no store failure: the exception
    names the id, no chunk of it remains, and no files record is created.
   */
  lemma MissingRecordLeavesNoChunks<Id>(s: State<Id>, id: Id, bytes: PhpValue, modifier: Modifier,
                                        options: map<string, PhpValue>, md5: Bytes -> string)
    requires Validate(bytes, options).Success?
    requires var input := Validate(bytes, options).value;
      Supported(Patch(modifier, input.data, input.chunkSize, md5))
    requires id !in s.files
    ensures var (s', outcome) := UpdateEffect(s, id, bytes, modifier, options, md5, NoFaults);
      outcome == Failed(NotFound(id)) && Holds(s'.chunks, id, []) && s'.files == s.files
  {
    FailedFilesUpdateRemovesAllChunks(s, id, bytes, modifier, options, md5, NoFaults);
  }

  /**
    An exception during the chunk upserts is raised without rollback: the
    chunks written before it keep their new slices, every other chunk record
    is as before, and the files collection is unchanged.
   */
  lemma UpsertFailureKeepsEarlierChunks<Id>(s: State<Id>, id: Id, bytes: PhpValue, modifier: Modifier,
                                            options: map<string, PhpValue>, md5: Bytes -> string, faults: Faults)
    requires Validate(bytes, options).Success?
    requires var input := Validate(bytes, options).value;
      UpsertFailsBelow(faults, ChunkCount(|input.data|, input.chunkSize))
    ensures var (s', outcome) := UpdateEffect(s, id, bytes, modifier, options, md5, faults);
      var input, k := Validate(bytes, options).value, faults.upsertFailsAt.value;
      var parts := Split(input.data, input.chunkSize);
      && outcome == Failed(StoreFailure(ChunkUpsert(k)))
      && s'.files == s.files
      && (forall n | 0 <= n < k :: (id, n) in s'.chunks && s'.chunks[(id, n)] == parts[n])
      && (forall c | c in s.chunks && !(c.0 == id && c.1 < k) :: c in s'.chunks && s'.chunks[c] == s.chunks[c])
      && (forall c | c in s'.chunks :: c in s.chunks || (c.0 == id && c.1 < k))
  {
    var input := Validate(bytes, options).value;
    WrittenFacts(s.chunks, id, input.data, input.chunkSize, faults.upsertFailsAt.value);
  }

  /**
    An exception during the prune is raised without rollback: every new
    chunk is in place, and the stale tail chunks of a longer earlier payload
    survive.
   */
  lemma PruneFailureKeepsStaleTail<Id>(s: State<Id>, id: Id, bytes: PhpValue, modifier: Modifier,
                                       options: map<string, PhpValue>, md5: Bytes -> string, faults: Faults)
    requires Validate(bytes, options).Success?
    requires var input := Validate(bytes, options).value;
      !UpsertFailsBelow(faults, ChunkCount(|input.data|, input.chunkSize)) && faults.pruneFails
    ensures var (s', outcome) := UpdateEffect(s, id, bytes, modifier, options, md5, faults);
      var input := Validate(bytes, options).value;
      var parts := Split(input.data, input.chunkSize);
      && outcome == Failed(StoreFailure(Prune))
      && s'.files == s.files
      && (forall n | 0 <= n < |parts| :: (id, n) in s'.chunks && s'.chunks[(id, n)] == parts[n])
      && (forall c | c in s.chunks && c.0 == id && c.1 >= |parts| :: c in s'.chunks && s'.chunks[c] == s.chunks[c])
  {
    var input := Validate(bytes, options).value;
    WrittenFacts(s.chunks, id, input.data, input.chunkSize, ChunkCount(|input.data|, input.chunkSize));
  }

  /**
    When the rollback itself raises, its exception is the one that escapes
    (the files update's is lost), and the new chunks stay in place.
   */
  lemma RollbackFailureMasksError<Id>(s: State<Id>, id: Id, bytes: PhpValue, modifier: Modifier,
                                      options: map<string, PhpValue>, md5: Bytes -> string, faults: Faults)
    requires Validate(bytes, options).Success?
    requires var input := Validate(bytes, options).value;
      !UpsertFailsBelow(faults, ChunkCount(|input.data|, input.chunkSize)) && !faults.pruneFails
    requires faults.rollbackFails
    requires UpdateEffect(s, id, bytes, modifier, options, md5, faults).1.Failed?
    ensures var (s', outcome) := UpdateEffect(s, id, bytes, modifier, options, md5, faults);
      var input := Validate(bytes, options).value;
      && outcome == Failed(StoreFailure(Rollback))
      && s'.files == s.files
      && Holds(s'.chunks, id, Split(input.data, input.chunkSize))
  {
    var input := Validate(bytes, options).value;
    WrittenAndPruned(s.chunks, id, input.data, input.chunkSize);
  }
}
