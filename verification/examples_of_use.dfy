/**
  The updater's behaviour on the concrete scenarios its test suite
  exercises, derived from the general properties.
 */
module UpdaterScenarios {
  import opened Wrappers
  import opened Chunking
  import opened Metadata
  import opened GridStore
  import opened GridFsUpdater

  /** The chunk counts of the payloads and chunk sizes the tests use. */
  lemma TestChunkCounts()
    ensures ChunkCount(6, 6) == 1 && ChunkCount(4, 2) == 2 && ChunkCount(6, 2) == 3
    ensures ChunkCount(0, 2) == 0 && ChunkCount(4, DefaultChunkSize) == 1
  {
  }

  /**
    A file whose old payload reached chunk 2 is updated with a 4-byte
    payload at chunk size 2 and no caller document: the update returns
    normally, chunks 0 and 1 hold the two halves of the payload, chunk 2
    is gone, and a reader gets the payload back.
   */
  lemma ShorterPayloadDropsTail<Id>(s: State<Id>, id: Id, data: Bytes, md5: Bytes -> string)
    requires |data| == 4 && (id, 2) in s.chunks && id in s.files
    ensures var (s', outcome) := UpdateEffect(s, id, PhpString(data), map[], map[ChunkSizeOption := PhpInt(2)], md5, NoFaults);
      && outcome == Updated
      && (id, 0) in s'.chunks && s'.chunks[(id, 0)] == data[..2]
      && (id, 1) in s'.chunks && s'.chunks[(id, 1)] == data[2..]
      && (id, 2) !in s'.chunks
      && ReadBack(s'.chunks, id, 2) == data
  {
    var options := map[ChunkSizeOption := PhpInt(2)];
    assert Validate(PhpString(data), options) == Success(Input(data, 2));
    assert ChunkCount(4, 2) == 2;
    SupportedWithDerived(map[], DerivedFields(4, 2, md5(data)));
    UpdatedExactly(s, id, PhpString(data), map[], options, md5, NoFaults);
    UpdatedStoresPayload(s, id, PhpString(data), map[], options, md5, NoFaults);
    var parts := Split(data, 2);
    assert parts[0] == Chunk(data, 2, 0) == data[..2];
    assert parts[1] == Chunk(data, 2, 1) == data[2..];
  }

  /** The files record of the modifier-document test, before the update. */
  function TestRecord(): Fields
  {
    map["key1" := VInt(1), "key2" := VInt(2), "key3" := VBool(true), "uploadDate" := VInt(0)]
  }

  /** The test's `$set`: one field of its own and bogus values for the derived fields. */
  function TestSet(): Fields
  {
    map["key2" := VInt(-2), ChunkSizeField := VStr("BAD"), LengthField := VStr("BAD"), Md5Field := VStr("BAD")]
  }

  /** The test's update document: that `$set` and a `$unset` of key3. */
  function TestModifier(): Modifier
  {
    map[SetOp := TestSet(), UnsetOp := map["key3" := VStr("")]]
  }

  /** The merged document of the test (4-byte payload, chunk size 2) is one the store accepts. */
  lemma TestPatchSupported(md5: string)
    ensures Supported(WithDerived(TestModifier(), DerivedFields(4, 2, md5)))
  {
    assert CallerSet(TestModifier()) == TestSet() && UnsetFields(TestModifier()) == {"key3"};
    SupportedWithDerived(TestModifier(), DerivedFields(4, 2, md5));
  }

  /**
    Applying the test's merged document stores length 4, chunkSize 2 and
    the payload's md5, although the caller's `$set` said "BAD" for each.
   */
  lemma ModifierDocDerivedScenario(md5: string)
    ensures var patch := WithDerived(TestModifier(), DerivedFields(4, 2, md5));
      && Supported(patch)
      && var d := ApplyModifier(TestRecord(), patch);
         d[ChunkSizeField] == VInt(2) && d[LengthField] == VInt(4) && d[Md5Field] == VStr(md5)
  {
    TestPatchSupported(md5);
    DerivedFieldsWin(TestRecord(), TestModifier(), DerivedFields(4, 2, md5));
  }

  /** Applying the test's merged document: key2 takes the caller's value and key3 is gone. */
  lemma ModifierDocCallerScenario(md5: string)
    ensures var patch := WithDerived(TestModifier(), DerivedFields(4, 2, md5));
      && Supported(patch)
      && var d := ApplyModifier(TestRecord(), patch);
         d["key2"] == VInt(-2) && "key3" !in d
  {
    var derived := DerivedFields(4, 2, md5);
    TestPatchSupported(md5);
    assert CallerSet(TestModifier()) == TestSet() && UnsetFields(TestModifier()) == {"key3"};
    DerivedFieldsWin(TestRecord(), TestModifier(), derived);
    assert "key2" in TestSet() && "key2" !in derived;
  }

  /** Applying the test's merged document keeps the fields it does not name: key1 and uploadDate. */
  lemma ModifierDocKeptScenario(md5: string)
    ensures var patch := WithDerived(TestModifier(), DerivedFields(4, 2, md5));
      && Supported(patch)
      && var d := ApplyModifier(TestRecord(), patch);
         d["key1"] == VInt(1) && d["uploadDate"] == VInt(0)
  {
    var derived := DerivedFields(4, 2, md5);
    TestPatchSupported(md5);
    assert CallerSet(TestModifier()) == TestSet() && UnsetFields(TestModifier()) == {"key3"};
    DerivedFieldsWin(TestRecord(), TestModifier(), derived);
    assert "key1" !in TestSet() && "key1" !in derived;
    assert "uploadDate" !in TestSet() && "uploadDate" !in derived;
  }
}
