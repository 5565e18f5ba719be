/**
 The tensor descriptors of tools/audit/firered_checkpoint_metadata.py: a strided view onto a
 storage, rebuilt without a tensor library, accepted only when every element it can address
 lies inside the storage.  MetadataError is the absence of a result.
 */
module TensorView {
  import Octets
  import opened Wrappers

  const MAX_STRING_BYTES := 16 * 1024
  const MAX_DEPTH := 64
  const MAX_DIMS := 32
  const MAX_DIMENSION := 0x7FFF_FFFF
  const MAX_STORAGE_NUMEL := 0x7FFF_FFFF_FFFF_FFFF
  const MAX_STORAGE_BYTES := 0x7FFF_FFFF_FFFF_FFFF
  const MAX_INTEGER := 0x7FFF_FFFF_FFFF_FFFF

  datatype StorageClass = StorageClass(dtype: string, itemBytes: int)

  datatype StorageRef = StorageRef(dtype: string, itemBytes: int, key: string, location: string, numel: int)

  datatype TensorRef = TensorRef(
    dtype: string, shape: seq<int>, stride: seq<int>, storageKey: string,
    storageOffset: int, storageNumel: int, location: string)

  /** The storage class named by a `torch` global, if it is one of the ten known names. */
  function StorageDtype(name: string): Option<StorageClass> {
    match name
    case "FloatStorage" => Some(StorageClass("F32", 4))
    case "DoubleStorage" => Some(StorageClass("F64", 8))
    case "HalfStorage" => Some(StorageClass("F16", 2))
    case "BFloat16Storage" => Some(StorageClass("BF16", 2))
    case "ByteStorage" => Some(StorageClass("U8", 1))
    case "CharStorage" => Some(StorageClass("I8", 1))
    case "ShortStorage" => Some(StorageClass("I16", 2))
    case "IntStorage" => Some(StorageClass("I32", 4))
    case "LongStorage" => Some(StorageClass("I64", 8))
    case "BoolStorage" => Some(StorageClass("BOOL", 1))
    case _ => None
  }

  /** The element width of a dtype label, by the same table. */
  function ItemBytes(dtype: string): Option<int> {
    match dtype
    case "F32" => Some(4)
    case "F64" => Some(8)
    case "F16" => Some(2)
    case "BF16" => Some(2)
    case "U8" => Some(1)
    case "I8" => Some(1)
    case "I16" => Some(2)
    case "I32" => Some(4)
    case "I64" => Some(8)
    case "BOOL" => Some(1)
    case _ => None
  }

  function Utf8Width(c: char): nat {
    if c < '\U{80}' then 1 else if c < '\U{800}' then 2 else if c < '\U{10000}' then 3 else 4
  }

  /** The length of a text once encoded as UTF-8. */
  function Utf8Length(s: string): nat {
    if s == [] then 0 else Utf8Width(s[0]) + Utf8Length(s[1..])
  }

  predicate BoundedText(s: string) {
    0 < Utf8Length(s) <= MAX_STRING_BYTES
  }

  predicate StrictInt(n: int) {
    -MAX_INTEGER <= n <= MAX_INTEGER
  }

  predicate AllBetween(low: int, high: int, s: seq<int>) {
    forall i | 0 <= i < |s| :: low <= s[i] <= high
  }

  // ---------------------------------------------------------------------------
  // The span of a view
  // ---------------------------------------------------------------------------

  /** The running span after the remaining dimensions, or None at the early exit. */
  function SpanFrom(span: int, shape: seq<int>, stride: seq<int>): Option<int>
    decreases shape
  {
    if shape == [] || stride == [] then Some(span)
    else
      var next := span + (shape[0] - 1) * stride[0];
      if next > MAX_STORAGE_NUMEL then None else SpanFrom(next, shape[1..], stride[1..])
  }

  function Span(shape: seq<int>, stride: seq<int>): Option<int> {
    if 0 in shape then Some(0) else SpanFrom(1, shape, stride)
  }

  method TensorSpan(shape: seq<int>, stride: seq<int>) returns (r: Option<int>)
    ensures r == Span(shape, stride)
  {
    if 0 in shape {
      return Some(0);
    }
    var span := 1;
    var i := 0;
    while i < |shape| && i < |stride|
      invariant 0 <= i <= |shape| && i <= |stride|
      invariant SpanFrom(span, shape[i..], stride[i..]) == SpanFrom(1, shape, stride)
    {
      span := span + (shape[i] - 1) * stride[i];
      if span > MAX_STORAGE_NUMEL {
        return None;
      }
      i := i + 1;
    }
    return Some(span);
  }

  /** The tensor reducer once its arguments are known to have the right Python types. */
  function Rebuild(storage: StorageRef, offset: int, shape: seq<int>, stride: seq<int>): Option<TensorRef> {
    if !StrictInt(offset) || offset < 0 then None
    else if |shape| != |stride| || |shape| > MAX_DIMS then None
    else if !AllBetween(0, MAX_DIMENSION, shape) then None
    else if !AllBetween(0, MAX_DIMENSION, stride) then None
    else if storage.numel * storage.itemBytes > MAX_STORAGE_BYTES then None
    else
      match Span(shape, stride)
      case None => None
      case Some(span) =>
        if offset > storage.numel || span > storage.numel - offset then None
        else Some(TensorRef(storage.dtype, shape, stride, storage.key, offset, storage.numel, storage.location))
  }

  /** The second reading of a descriptor, just before it is reported. */
  function ValidateTensorRef(t: TensorRef): Option<TensorRef> {
    match ItemBytes(t.dtype)
    case None => None
    case Some(width) =>
      if !BoundedText(t.storageKey) || !BoundedText(t.location) then None
      else if !StrictInt(t.storageNumel) || t.storageNumel < 0 then None
      else
        var again := Rebuild(StorageRef(t.dtype, width, t.storageKey, t.location, t.storageNumel),
                             t.storageOffset, t.shape, t.stride);
        if again == Some(t) then again else None
  }

  // ---------------------------------------------------------------------------
  // What acceptance means
  // ---------------------------------------------------------------------------

  /** `index` names an element of a tensor of this shape. */
  ghost predicate InShape(index: seq<int>, shape: seq<int>) {
    |index| == |shape| && forall i | 0 <= i < |shape| :: 0 <= index[i] < shape[i]
  }

  /** How far past the storage offset the element `index` lies. */
  function Displacement(index: seq<int>, stride: seq<int>): int
    requires |index| == |stride|
  {
    if index == [] then 0 else index[0] * stride[0] + Displacement(index[1..], stride[1..])
  }

  /** Every element the view can address lies inside the storage. */
  ghost predicate InsideStorage(shape: seq<int>, stride: seq<int>, offset: int, numel: int)
    requires |shape| == |stride|
  {
    forall index | InShape(index, shape) :: 0 <= offset + Displacement(index, stride) < numel
  }

  /** The static bounds on rank, dimensions, strides and storage bytes. */
  ghost predicate WithinBounds(storage: StorageRef, offset: int, shape: seq<int>, stride: seq<int>) {
    && 0 <= offset <= MAX_INTEGER
    && |shape| == |stride| <= MAX_DIMS
    && AllBetween(0, MAX_DIMENSION, shape)
    && AllBetween(0, MAX_DIMENSION, stride)
    && storage.numel * storage.itemBytes <= MAX_STORAGE_BYTES
  }

  /** The displacement of the last element: without early exit it is what SpanFrom adds. */
  function Furthest(shape: seq<int>, stride: seq<int>): int
    requires |shape| == |stride|
  {
    if shape == [] then 0 else (shape[0] - 1) * stride[0] + Furthest(shape[1..], stride[1..])
  }

  lemma {:induction false} SpanFromMeaning(span: int, shape: seq<int>, stride: seq<int>)
    requires |shape| == |stride|
    requires AllBetween(1, MAX_DIMENSION, shape)
    requires AllBetween(0, MAX_DIMENSION, stride)
    ensures 0 <= Furthest(shape, stride)
    ensures match SpanFrom(span, shape, stride)
            case Some(r) => r == span + Furthest(shape, stride)
            case None => span + Furthest(shape, stride) > MAX_STORAGE_NUMEL
    decreases shape
  {
    if shape == [] {
    } else {
      Octets.MulMonotone(0, shape[0] - 1, stride[0]);
      SpanFromMeaning(span + (shape[0] - 1) * stride[0], shape[1..], stride[1..]);
    }
  }

  lemma {:induction false} DisplacementBound(index: seq<int>, shape: seq<int>, stride: seq<int>)
    requires |shape| == |stride| && InShape(index, shape)
    requires AllBetween(0, MAX_DIMENSION, stride)
    ensures 0 <= Displacement(index, stride) <= Furthest(shape, stride)
  {
    if shape == [] {
    } else {
      Octets.MulMonotone(0, index[0], stride[0]);
      Octets.MulMonotone(index[0], shape[0] - 1, stride[0]);
      DisplacementBound(index[1..], shape[1..], stride[1..]);
    }
  }

  /** The last element of a tensor without a zero dimension realizes the bound. */
  lemma {:induction false} LastElement(shape: seq<int>, stride: seq<int>) returns (index: seq<int>)
    requires |shape| == |stride|
    requires AllBetween(1, MAX_DIMENSION, shape)
    ensures InShape(index, shape) && Displacement(index, stride) == Furthest(shape, stride)
  {
    if shape == [] {
      index := [];
    } else {
      var rest := LastElement(shape[1..], stride[1..]);
      index := [shape[0] - 1] + rest;
      assert index[1..] == rest;
      forall i | 0 <= i < |shape| ensures 0 <= index[i] < shape[i] {
        if i > 0 { assert index[i] == rest[i - 1] && shape[i] == shape[1..][i - 1]; }
      }
    }
  }

  /**
   Exactness of the bounds check.  A descriptor is produced if and only if the static bounds
   hold, the offset is within the storage and every addressable element lies inside it: the
   early exit never rejects a valid view, and a view with a zero dimension addresses nothing.
   */
  lemma ViewExact(storage: StorageRef, offset: int, shape: seq<int>, stride: seq<int>)
    requires storage.numel <= MAX_STORAGE_NUMEL
    ensures Rebuild(storage, offset, shape, stride).Some? <==>
            && WithinBounds(storage, offset, shape, stride)
            && offset <= storage.numel
            && InsideStorage(shape, stride, offset, storage.numel)
  {
    if WithinBounds(storage, offset, shape, stride) {
      if 0 in shape {
        var z :| 0 <= z < |shape| && shape[z] == 0;
        forall index ensures !InShape(index, shape) {
          assert |index| == |shape| ==> !(0 <= index[z] < shape[z]);
        }
      } else {
        SpanFromMeaning(1, shape, stride);
        var last := LastElement(shape, stride);
        forall index | InShape(index, shape)
          ensures 0 <= Displacement(index, stride) <= Furthest(shape, stride)
        {
          DisplacementBound(index, shape, stride);
        }
      }
    }
  }

  /** A storage reference as the unpickler's persistent loader builds it. */
  ghost predicate ValidStorage(s: StorageRef) {
    && ItemBytes(s.dtype) == Some(s.itemBytes)
    && BoundedText(s.key) && BoundedText(s.location)
    && 0 <= s.numel <= MAX_STORAGE_NUMEL
  }

  /** A tensor descriptor that came from a valid storage through the reducer. */
  ghost predicate ValidTensor(t: TensorRef) {
    && ItemBytes(t.dtype).Some?
    && var s := StorageRef(t.dtype, ItemBytes(t.dtype).value, t.storageKey, t.location, t.storageNumel);
    && ValidStorage(s)
    && WithinBounds(s, t.storageOffset, t.shape, t.stride)
    && t.storageOffset <= t.storageNumel
    && InsideStorage(t.shape, t.stride, t.storageOffset, t.storageNumel)
  }

  /** The reducer only builds valid descriptors. */
  lemma RebuildIsValid(storage: StorageRef, offset: int, shape: seq<int>, stride: seq<int>)
    requires ValidStorage(storage)
    ensures var r := Rebuild(storage, offset, shape, stride);
            r.Some? ==> ValidTensor(r.value)
  {
    ViewExact(storage, offset, shape, stride);
  }

  /** The second reading re-derives the same record for exactly the valid descriptors. */
  lemma RevalidationExact(t: TensorRef)
    ensures ValidateTensorRef(t) == if ValidTensor(t) then Some(t) else None
  {
    match ItemBytes(t.dtype)
    case None =>
    case Some(width) =>
      var s := StorageRef(t.dtype, width, t.storageKey, t.location, t.storageNumel);
      if ValidStorage(s) {
        ViewExact(s, t.storageOffset, t.shape, t.stride);
      }
  }
}
