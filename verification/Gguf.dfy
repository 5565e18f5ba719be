/**
 Three readers of one header format: the prefix reader of tools/audit/hf_gguf_contract.py, the skipping
 reader of scripts/publish/make_model_card.py and the manifest reader of tools/audit/gguf_manifest.py.
 Each is a function of the file bytes and a position.  Text is kept as its UTF-8 bytes.
 */
module Gguf {
  import opened Wrappers
  import opened Octets
  import opened Manifest

  /** Which byte strings decode, and what decoding with replacement makes of the rest. */
  datatype Utf8 = Utf8(valid: bytes -> bool, lossy: bytes -> bytes) {
    ghost predicate Faithful() {
      forall b :: valid(b) ==> lossy(b) == b
    }
  }

  /** Something read, and the position behind it. */
  datatype Read<+T> = Read(item: T, pos: nat)

  /** A list read in two parts. */
  function Joined<T>(first: seq<T>, rest: Option<Read<seq<T>>>): Option<Read<seq<T>>> {
    if rest.None? then None else Some(Read(first + rest.value.item, rest.value.pos))
  }

  // ---------------------------------------------------------------------------
  // What all three share
  // ---------------------------------------------------------------------------

  function Take(data: bytes, pos: nat, n: nat): (r: Option<Read<bytes>>)
    ensures r.Some? <==> pos + n <= |data|
    ensures r.Some? ==> r.value.pos == pos + n && r.value.item == data[pos..pos + n]
  {
    if pos + n > |data| then None else Some(Read(data[pos..pos + n], pos + n))
  }

  function Number(data: bytes, pos: nat, width: nat): (r: Option<Read<nat>>)
    ensures r.Some? <==> pos + width <= |data|
    ensures r.Some? ==> r.value.pos == pos + width
  {
    var raw :- Take(data, pos, width);
    Some(Read(LittleEndian(raw.item), raw.pos))
  }

  function RawText(data: bytes, pos: nat): (r: Option<Read<bytes>>)
    ensures r.Some? ==> pos + 8 <= r.value.pos <= |data|
  {
    var size :- Number(data, pos, 8);
    Take(data, size.pos, size.item)
  }

  /** A string, decoded strictly or with replacement. */
  function Text(u: Utf8, strict: bool, data: bytes, pos: nat): (r: Option<Read<bytes>>)
    ensures r.Some? ==> pos + 8 <= r.value.pos <= |data|
  {
    var raw :- RawText(data, pos);
    if !strict then Some(raw.(item := u.lossy(raw.item)))
    else if u.valid(raw.item) then Some(raw)
    else None
  }

  function Numbers(data: bytes, pos: nat, n: nat): (r: Option<Read<seq<nat>>>)
    ensures r.Some? ==> pos <= r.value.pos && (n > 0 ==> r.value.pos <= |data|) && |r.value.item| == n
    decreases n
  {
    if n == 0 then Some(Read([], pos))
    else
      var first :- Number(data, pos, 8);
      var rest :- Numbers(data, first.pos, n - 1);
      Some(Read([first.item] + rest.item, rest.pos))
  }

  datatype Tensor = Tensor(name: bytes, shape: seq<nat>, dtype: nat, offset: nat)

  function Descriptor(u: Utf8, strict: bool, data: bytes, pos: nat): (r: Option<Read<Tensor>>)
    ensures r.Some? ==> pos < r.value.pos <= |data|
  {
    var name :- Text(u, strict, data, pos);
    var rank :- Number(data, name.pos, 4);
    var shape :- Numbers(data, rank.pos, rank.item);
    var dtype :- Number(data, shape.pos, 4);
    var offset :- Number(data, dtype.pos, 8);
    Some(Read(Tensor(name.item, shape.item, dtype.item, offset.item), offset.pos))
  }

  function Descriptors(u: Utf8, strict: bool, data: bytes, pos: nat, n: nat): (r: Option<Read<seq<Tensor>>>)
    ensures r.Some? ==> pos <= r.value.pos && (pos <= |data| ==> r.value.pos <= |data|)
    decreases n
  {
    if n == 0 then Some(Read([], pos))
    else
      var first :- Descriptor(u, strict, data, pos);
      var rest :- Descriptors(u, strict, data, first.pos, n - 1);
      Some(Read([first.item] + rest.item, rest.pos))
  }

  const MAGIC: bytes := [0x47, 0x47, 0x55, 0x46]

  datatype Preamble = Preamble(version: nat, tensors: nat, entries: nat)

  function ReadPreamble(data: bytes): (r: Option<Read<Preamble>>)
    ensures r.Some? ==> r.value.pos == 24 <= |data|
  {
    var magic :- Take(data, 0, 4);
    if magic.item != MAGIC then None
    else
      var version :- Number(data, 4, 4);
      var tensors :- Number(data, 8, 8);
      var entries :- Number(data, 16, 8);
      Some(Read(Preamble(version.item, tensors.item, entries.item), 24))
  }

  // ---------------------------------------------------------------------------
  // Metadata values
  // ---------------------------------------------------------------------------

  const STRING := 8
  const ARRAY := 9

  /** The width of a scalar kind; 0 for every other kind. */
  function ScalarSize(kind: nat): nat {
    if kind in {0, 1, 7} then 1
    else if kind in {2, 3} then 2
    else if kind in {4, 5, 6} then 4
    else if kind in {10, 11, 12} then 8
    else 0
  }

  /** A scalar is its kind and its bytes; they determine the number both struct formats give. */
  datatype Value = Scalar(kind: nat, raw: bytes) | Str(text: bytes) | Array(kind: nat, items: seq<Value>)

  /** value of hf_gguf_contract.py. */
  function FullValue(u: Utf8, data: bytes, pos: nat, kind: nat): (r: Option<Read<Value>>)
    ensures r.Some? ==> pos < r.value.pos <= |data|
    decreases |data| - pos, 0
  {
    if ScalarSize(kind) > 0 then
      var raw :- Take(data, pos, ScalarSize(kind));
      Some(Read(Scalar(kind, raw.item), raw.pos))
    else if kind == STRING then
      var text :- Text(u, true, data, pos);
      Some(Read(Str(text.item), text.pos))
    else if kind == ARRAY then
      var of :- Number(data, pos, 4);
      var count :- Number(data, of.pos, 8);
      var items :- FullItems(u, data, count.pos, of.item, count.item);
      Some(Read(Array(of.item, items.item), items.pos))
    else None
  }

  function FullItems(u: Utf8, data: bytes, pos: nat, kind: nat, n: nat): (r: Option<Read<seq<Value>>>)
    ensures r.Some? ==> pos <= r.value.pos && (pos <= |data| ==> r.value.pos <= |data|) && |r.value.item| == n
    decreases |data| - pos, 1
  {
    if n == 0 then Some(Read([], pos))
    else
      var first :- FullValue(u, data, pos, kind);
      var rest :- FullItems(u, data, first.pos, kind, n - 1);
      Some(Read([first.item] + rest.item, rest.pos))
  }

  /** What the skipping reader keeps of a value. */
  datatype Card = Shown(kind: nat, raw: bytes) | Omitted | CardText(text: bytes) | ArrayOf(count: nat)

  function SkipTexts(data: bytes, pos: nat, n: nat): (r: Option<nat>)
    ensures r.Some? ==> pos <= r.value && (pos <= |data| ==> r.value <= |data|)
    decreases n
  {
    if n == 0 then Some(pos)
    else
      var first :- RawText(data, pos);
      SkipTexts(data, first.pos, n - 1)
  }

  /** GgufReader._value: bool, 32-bit integers and f32 are shown, other scalars read and dropped. */
  function CardValue(u: Utf8, data: bytes, pos: nat, kind: nat): (r: Option<Read<Card>>)
    ensures r.Some? ==> pos < r.value.pos <= |data|
  {
    if kind == STRING then
      var text :- Text(u, false, data, pos);
      Some(Read(CardText(text.item), text.pos))
    else if ScalarSize(kind) > 0 then
      var raw :- Take(data, pos, ScalarSize(kind));
      Some(Read(if kind in {4, 5, 6, 7} then Shown(kind, raw.item) else Omitted, raw.pos))
    else if kind == ARRAY then
      var of :- Number(data, pos, 4);
      var count :- Number(data, of.pos, 8);
      if ScalarSize(of.item) > 0 then
        var raw :- Take(data, count.pos, ScalarSize(of.item) * count.item);
        Some(Read(ArrayOf(count.item), raw.pos))
      else if of.item == STRING then
        var end :- SkipTexts(data, count.pos, count.item);
        Some(Read(ArrayOf(count.item), end))
      else Some(Read(ArrayOf(count.item), count.pos))
    else None
  }

  /** metadata_value of gguf_manifest.py: an array of arrays or of an unknown kind is refused, even an empty one. */
  function FlatValue(u: Utf8, data: bytes, pos: nat, kind: nat): (r: Option<Read<Value>>)
    ensures r.Some? ==> pos < r.value.pos <= |data|
    decreases |data| - pos, 0
  {
    if ScalarSize(kind) > 0 then
      var raw :- Take(data, pos, ScalarSize(kind));
      Some(Read(Scalar(kind, raw.item), raw.pos))
    else if kind == STRING then
      var text :- Text(u, true, data, pos);
      Some(Read(Str(text.item), text.pos))
    else if kind == ARRAY then
      var of :- Number(data, pos, 4);
      var count :- Number(data, of.pos, 8);
      if of.item > 12 || of.item == ARRAY then None
      else
        var items :- FlatItems(u, data, count.pos, of.item, count.item);
        Some(Read(Array(of.item, items.item), items.pos))
    else None
  }

  function FlatItems(u: Utf8, data: bytes, pos: nat, kind: nat, n: nat): (r: Option<Read<seq<Value>>>)
    ensures r.Some? ==> pos <= r.value.pos && (pos <= |data| ==> r.value.pos <= |data|)
    decreases |data| - pos, 1
  {
    if n == 0 then Some(Read([], pos))
    else
      var first :- FlatValue(u, data, pos, kind);
      var rest :- FlatItems(u, data, first.pos, kind, n - 1);
      Some(Read([first.item] + rest.item, rest.pos))
  }

  // ---------------------------------------------------------------------------
  // Metadata entries
  // ---------------------------------------------------------------------------

  datatype Pair<+V> = Pair(key: bytes, value: V)

  function FullPairs(u: Utf8, data: bytes, pos: nat, n: nat): (r: Option<Read<seq<Pair<Value>>>>)
    ensures r.Some? ==> pos <= r.value.pos && (pos <= |data| ==> r.value.pos <= |data|) && |r.value.item| == n
    decreases n
  {
    if n == 0 then Some(Read([], pos))
    else
      var key :- Text(u, true, data, pos);
      var kind :- Number(data, key.pos, 4);
      var value :- FullValue(u, data, kind.pos, kind.item);
      var rest :- FullPairs(u, data, value.pos, n - 1);
      Some(Read([Pair(key.item, value.item)] + rest.item, rest.pos))
  }

  function CardPairs(u: Utf8, data: bytes, pos: nat, n: nat): (r: Option<Read<seq<Pair<Card>>>>)
    ensures r.Some? ==> pos <= r.value.pos
    decreases n
  {
    if n == 0 then Some(Read([], pos))
    else
      var key :- Text(u, false, data, pos);
      var kind :- Number(data, key.pos, 4);
      var value :- CardValue(u, data, kind.pos, kind.item);
      var rest :- CardPairs(u, data, value.pos, n - 1);
      Some(Read([Pair(key.item, value.item)] + rest.item, rest.pos))
  }

  function FlatPairs(u: Utf8, data: bytes, pos: nat, n: nat): (r: Option<Read<seq<Pair<Value>>>>)
    ensures r.Some? ==> pos <= r.value.pos
    decreases n
  {
    if n == 0 then Some(Read([], pos))
    else
      var key :- Text(u, true, data, pos);
      var kind :- Number(data, key.pos, 4);
      var value :- FlatValue(u, data, kind.pos, kind.item);
      var rest :- FlatPairs(u, data, value.pos, n - 1);
      Some(Read([Pair(key.item, value.item)] + rest.item, rest.pos))
  }

  /** The dictionary the entries fill: a later entry with the same key wins. */
  function Dict<V>(pairs: seq<Pair<V>>): map<bytes, V> {
    if pairs == [] then map[]
    else Dict(pairs[..|pairs| - 1])[pairs[|pairs| - 1].key := pairs[|pairs| - 1].value]
  }

  // ---------------------------------------------------------------------------
  // The readers
  // ---------------------------------------------------------------------------

  /** What parse_header reports, its digest replaced by the bytes it digests. */
  datatype Header = Header(tensorCount: nat, entryCount: nat, headerBytes: nat,
                           metadata: map<bytes, Value>, tensors: seq<Tensor>, canonical: bytes)

  function AsEntries(tensors: seq<Tensor>): seq<Entry> {
    seq(|tensors|, i requires 0 <= i < |tensors| => Entry(tensors[i].name, tensors[i].shape))
  }

  function FullHeader(u: Utf8, data: bytes): Option<Header> {
    var start :- ReadPreamble(data);
    if start.item.version != 3 then None
    else
      var pairs :- FullPairs(u, data, start.pos, start.item.entries);
      var tensors :- Descriptors(u, true, data, pairs.pos, start.item.tensors);
      Some(Header(start.item.tensors, start.item.entries, tensors.pos,
                  Dict(pairs.item), tensors.item, Encode(SortEntries(AsEntries(tensors.item)))))
  }

  datatype CardHeader = CardHeader(version: nat, tensorCount: nat, meta: map<bytes, Card>,
                                   tensors: seq<(bytes, seq<nat>, nat)>, end: nat)

  function WithoutOffsets(tensors: seq<Tensor>): seq<(bytes, seq<nat>, nat)> {
    seq(|tensors|, i requires 0 <= i < |tensors| => (tensors[i].name, tensors[i].shape, tensors[i].dtype))
  }

  /** The constructor of GgufReader; it never looks at the version. */
  function SkippingHeader(u: Utf8, data: bytes): Option<CardHeader> {
    var start :- ReadPreamble(data);
    var pairs :- CardPairs(u, data, start.pos, start.item.entries);
    var tensors :- Descriptors(u, false, data, pairs.pos, start.item.tensors);
    Some(CardHeader(start.item.version, start.item.tensors, Dict(pairs.item), WithoutOffsets(tensors.item),
                    tensors.pos))
  }

  /** "general.gguf_version" */
  const VERSION_KEY: bytes := [0x67, 0x65, 0x6e, 0x65, 0x72, 0x61, 0x6c, 0x2e, 0x67, 0x67, 0x75, 0x66, 0x5f, 0x76,
                               0x65, 0x72, 0x73, 0x69, 0x6f, 0x6e]

  function VersionEntry(version: nat): Value {
    Scalar(4, LittleEndianBytes(version, 4))
  }

  datatype ManifestRead = ManifestRead(metadata: map<bytes, Value>, tensors: seq<Tensor>, end: nat)

  function ReadManifest(u: Utf8, data: bytes): Option<ManifestRead> {
    var start :- ReadPreamble(data);
    if start.item.version !in {2, 3} then None
    else
      var pairs :- FlatPairs(u, data, start.pos, start.item.entries);
      var tensors :- Descriptors(u, true, data, pairs.pos, start.item.tensors);
      var metadata := map[VERSION_KEY := VersionEntry(start.item.version)] + Dict(pairs.item);
      Some(ManifestRead(metadata, tensors.item, tensors.pos))
  }
}
