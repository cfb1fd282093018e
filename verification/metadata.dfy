/**
  The GridFS files record and the update document applied to it: field
  values, the `$set`/`$unset` modifier document, the derived fields the
  updater forces into `$set`, and how the store applies such a document.
 */
module Metadata {

  /** A field value of a files record (only the kinds the updater writes or the caller may pass). */
  datatype Value = VInt(i: int) | VStr(s: string) | VBool(b: bool)

  /** A document: field name to value. */
  type Fields = map<string, Value>

  /** An update document: operator name (`$set`, `$unset`, ...) to its field document. */
  type Modifier = map<string, Fields>

  const SetOp := "$set"
  const UnsetOp := "$unset"

  const LengthField := "length"
  const ChunkSizeField := "chunkSize"
  const Md5Field := "md5"

  /** The caller's `$set` document, or the empty document when there is none. */
  function CallerSet(m: Modifier): Fields
  {
    if SetOp in m then m[SetOp] else map[]
  }

  /** The fields the `$unset` directive names (its values are ignored). */
  function UnsetFields(m: Modifier): set<string>
  {
    if UnsetOp in m then m[UnsetOp].Keys else {}
  }

  /** The fields the updater computes from the payload. */
  function DerivedFields(length: nat, chunkSize: nat, md5: string): (f: Fields)
    ensures f.Keys == {LengthField, ChunkSizeField, Md5Field}
  {
    map[LengthField := VInt(length), ChunkSizeField := VInt(chunkSize), Md5Field := VStr(md5)]
  }

  /**
    PHP's array union `left + right`: every key of either operand, and on a
    key both hold, the LEFT operand's value.
   */
  function PhpUnion(left: Fields, right: Fields): (r: Fields)
    ensures r.Keys == left.Keys + right.Keys
    ensures forall k | k in left :: r[k] == left[k]
    ensures forall k | k in right && k !in left :: r[k] == right[k]
    ensures r == right + left
  {
    map k | k in left.Keys + right.Keys :: if k in left then left[k] else right[k]
  }

  /**
    The update document the updater sends: the caller's document with its
    `$set` (created when absent) replaced by `derived + $set`, so the derived
    values win on a shared key and every other directive passes through.
   */
  function WithDerived(m: Modifier, derived: Fields): (r: Modifier)
    ensures r.Keys == m.Keys + {SetOp}
    ensures forall op | op in m && op != SetOp :: r[op] == m[op]
    ensures r[SetOp].Keys == CallerSet(m).Keys + derived.Keys
    ensures forall k | k in derived :: r[SetOp][k] == derived[k]
    ensures forall k | k in CallerSet(m) && k !in derived :: r[SetOp][k] == CallerSet(m)[k]
  {
    m[SetOp := PhpUnion(derived, CallerSet(m))]
  }

  /**
    The update documents the store accepts here: only `$set` and `$unset`,
    and no field both set and unset (MongoDB refuses that as a conflict).
   */
  predicate Supported(m: Modifier)
  {
    (forall op | op in m :: op == SetOp || op == UnsetOp) &&
    UnsetFields(m) !! CallerSet(m).Keys
  }

  /** The document after the store applies `m` to `doc`. */
  function ApplyModifier(doc: Fields, m: Modifier): (d: Fields)
    requires Supported(m)
    ensures forall k | k in CallerSet(m) :: k in d && d[k] == CallerSet(m)[k]
    ensures forall k | k in UnsetFields(m) :: k !in d
    ensures forall k | k !in CallerSet(m) && k !in UnsetFields(m) ::
      (k in d <==> k in doc) && (k in doc ==> d[k] == doc[k])
  {
    (doc - UnsetFields(m)) + CallerSet(m)
  }

  /**
    The store accepts the merged document exactly when the caller used only
    `$set`/`$unset` and unsets no field that the merged `$set` writes,
    derived fields included.
   */
  lemma SupportedWithDerived(m: Modifier, derived: Fields)
    ensures Supported(WithDerived(m, derived)) <==>
      (forall op | op in m :: op == SetOp || op == UnsetOp) &&
      UnsetFields(m) !! (CallerSet(m).Keys + derived.Keys)
  {
    var r := WithDerived(m, derived);
    assert UnsetFields(r) == UnsetFields(m);
    assert CallerSet(r).Keys == CallerSet(m).Keys + derived.Keys;
  }

  /**
    Applying the merged document: the derived values are stored whatever
    the caller's `$set` said for those fields, the caller's other `$set`
    fields are stored, the `$unset` fields are gone, and every other field
    of the record is kept.
   */
  lemma DerivedFieldsWin(doc: Fields, m: Modifier, derived: Fields)
    requires Supported(WithDerived(m, derived))
    ensures var d := ApplyModifier(doc, WithDerived(m, derived));
      && (forall k | k in derived :: k in d && d[k] == derived[k])
      && (forall k | k in CallerSet(m) && k !in derived :: k in d && d[k] == CallerSet(m)[k])
      && (forall k | k in UnsetFields(m) :: k !in d)
      && (forall k | k !in CallerSet(m) && k !in derived && k !in UnsetFields(m) ::
            (k in d <==> k in doc) && (k in doc ==> d[k] == doc[k]))
  {
    var r := WithDerived(m, derived);
    assert UnsetFields(r) == UnsetFields(m);
    assert CallerSet(r) == PhpUnion(derived, CallerSet(m));
  }
}
