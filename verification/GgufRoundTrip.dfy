/**
 What the GGUF readers read.  A file written from entries and tensors, by little-endian numbers and concatenation
 alone, is read back as exactly those entries and tensors, by each reader on the files of its kind.
 */
module GgufRoundTrip {
  import opened Wrappers
  import opened Octets
  import opened Manifest
  import opened Gguf
  import opened GgufAgree

  // ---------------------------------------------------------------------------
  // The writer
  // ---------------------------------------------------------------------------

  function Le4(n: nat): bytes {
    LittleEndianBytes(n, 4)
  }

  function Le8(n: nat): bytes {
    LittleEndianBytes(n, 8)
  }

  function WriteText(s: bytes): bytes {
    Le8(|s|) + s
  }

  function KindOf(v: Value): nat {
    match v
    case Scalar(kind, _) => kind
    case Str(_) => 8
    case Array(_, _) => 9
  }

  function WriteValue(v: Value): bytes
    decreases v, 1
  {
    match v
    case Scalar(_, raw) => raw
    case Str(text) => WriteText(text)
    case Array(kind, items) => Le4(kind) + Le8(|items|) + WriteItems(items)
  }

  function WriteItems(vs: seq<Value>): bytes
    decreases vs, 0
  {
    if vs == [] then [] else WriteValue(vs[0]) + WriteItems(vs[1..])
  }

  function WriteEntry(p: Pair<Value>): bytes {
    WriteText(p.key) + Le4(KindOf(p.value)) + WriteValue(p.value)
  }

  function WriteEntries(ps: seq<Pair<Value>>): bytes {
    if ps == [] then [] else WriteEntry(ps[0]) + WriteEntries(ps[1..])
  }

  function WriteNumbers(ns: seq<nat>): bytes {
    if ns == [] then [] else Le8(ns[0]) + WriteNumbers(ns[1..])
  }

  function WriteTensor(t: Tensor): bytes {
    WriteText(t.name) + Le4(|t.shape|) + WriteNumbers(t.shape) + Le4(t.dtype) + Le8(t.offset)
  }

  function WriteTensors(ts: seq<Tensor>): bytes {
    if ts == [] then [] else WriteTensor(ts[0]) + WriteTensors(ts[1..])
  }

  /** "GGUF", the version, both counts, the entries and the tensor descriptors. */
  function WriteFile(version: nat, ps: seq<Pair<Value>>, ts: seq<Tensor>): bytes {
    [0x47, 0x47, 0x55, 0x46] + Le4(version) + Le8(|ts|) + Le8(|ps|) + WriteEntries(ps) + WriteTensors(ts)
  }

  // ---------------------------------------------------------------------------
  // What can be written
  // ---------------------------------------------------------------------------

  const LIMIT4: nat := 0x1_0000_0000
  const LIMIT8: nat := 0x1_0000_0000_0000_0000

  /** Bytes of a scalar of each kind of the format: 8-bit, bool, 16-bit, 32-bit and 64-bit. */
  predicate Wide(kind: nat, width: nat) {
    || (kind in {0, 1, 7} && width == 1)
    || (kind in {2, 3} && width == 2)
    || (kind in {4, 5, 6} && width == 4)
    || (kind in {10, 11, 12} && width == 8)
  }

  predicate TextFits(u: Utf8, s: bytes) {
    u.valid(s) && |s| < LIMIT8
  }

  predicate ValueFits(u: Utf8, v: Value)
    decreases v, 1
  {
    match v
    case Scalar(kind, raw) => Wide(kind, |raw|)
    case Str(text) => TextFits(u, text)
    case Array(kind, items) => kind < LIMIT4 && |items| < LIMIT8 && ItemsFit(u, kind, items)
  }

  predicate ItemsFit(u: Utf8, kind: nat, vs: seq<Value>)
    decreases vs, 0
  {
    forall i | 0 <= i < |vs| :: KindOf(vs[i]) == kind && ValueFits(u, vs[i])
  }

  predicate EntryFits(u: Utf8, p: Pair<Value>) {
    TextFits(u, p.key) && ValueFits(u, p.value)
  }

  predicate TensorFits(u: Utf8, t: Tensor) {
    && TextFits(u, t.name) && |t.shape| < LIMIT4 && t.dtype < LIMIT4 && t.offset < LIMIT8
    && forall i | 0 <= i < |t.shape| :: t.shape[i] < LIMIT8
  }

  predicate FileFits(u: Utf8, ps: seq<Pair<Value>>, ts: seq<Tensor>) {
    && |ps| < LIMIT8 && |ts| < LIMIT8
    && (forall i | 0 <= i < |ps| :: EntryFits(u, ps[i]))
    && forall i | 0 <= i < |ts| :: TensorFits(u, ts[i])
  }

  // ---------------------------------------------------------------------------
  // Reading what stands at a position
  // ---------------------------------------------------------------------------

  /** The bytes of x stand at a position. */
  ghost predicate Stands(data: bytes, pos: nat, x: bytes) {
    pos + |x| <= |data| && data[pos..pos + |x|] == x
  }

  lemma StandsParts(data: bytes, pos: nat, x: bytes, y: bytes)
    requires Stands(data, pos, x + y)
    ensures Stands(data, pos, x) && Stands(data, pos + |x|, y)
  {
    var z := data[pos..pos + |x + y|];
    assert data[pos..pos + |x|] == z[..|x|] == x;
    assert data[pos + |x|..pos + |x| + |y|] == z[|x|..] == y;
  }

  lemma NumberStands(data: bytes, pos: nat, n: nat, width: nat)
    requires (width == 4 && n < LIMIT4) || (width == 8 && n < LIMIT8)
    requires Stands(data, pos, LittleEndianBytes(n, width))
    ensures Number(data, pos, width) == Some(Read(n, pos + width))
  {
    hide LittleEndianBytes, LittleEndian;
    Limits();
    LittleEndianRoundTrip(n, width);
  }

  lemma Limits()
    ensures Pow256(4) == LIMIT4 && Pow256(8) == LIMIT8
  {
    assert Pow256(4) == 256 * Pow256(3) && Pow256(3) == 256 * Pow256(2) && Pow256(2) == 256 * Pow256(1);
    assert Pow256(8) == 256 * Pow256(7) && Pow256(7) == 256 * Pow256(6) && Pow256(6) == 256 * Pow256(5);
    assert Pow256(5) == 256 * Pow256(4);
  }

  lemma TextStands(u: Utf8, data: bytes, pos: nat, s: bytes)
    requires TextFits(u, s) && Stands(data, pos, WriteText(s))
    ensures Text(u, true, data, pos) == Some(Read(s, pos + |WriteText(s)|))
  {
    hide Number;
    StandsParts(data, pos, Le8(|s|), s);
    NumberStands(data, pos, |s|, 8);
  }

  lemma {:induction false} ValueStands(u: Utf8, data: bytes, pos: nat, v: Value)
    requires ValueFits(u, v) && Stands(data, pos, WriteValue(v))
    ensures FullValue(u, data, pos, KindOf(v)) == Some(Read(v, pos + |WriteValue(v)|))
    decreases v, 1
  {
    match v
    case Scalar(kind, raw) =>
    case Str(text) => TextStands(u, data, pos, text);
    case Array(kind, items) => ArrayStands(u, data, pos, kind, items);
  }

  lemma {:induction false} ArrayStands(u: Utf8, data: bytes, pos: nat, kind: nat, items: seq<Value>)
    requires ValueFits(u, Array(kind, items)) && Stands(data, pos, WriteValue(Array(kind, items)))
    ensures FullValue(u, data, pos, 9) == Some(Read(Array(kind, items), pos + |WriteValue(Array(kind, items))|))
    decreases items, 1
  {
    hide Number, WriteItems, FullItems, Stands;
    StandsParts(data, pos, Le4(kind) + Le8(|items|), WriteItems(items));
    StandsParts(data, pos, Le4(kind), Le8(|items|));
    NumberStands(data, pos, kind, 4);
    NumberStands(data, pos + 4, |items|, 8);
    ItemsStand(u, data, pos + 12, kind, items);
  }

  lemma {:induction false} ItemsStand(u: Utf8, data: bytes, pos: nat, kind: nat, vs: seq<Value>)
    requires ItemsFit(u, kind, vs) && Stands(data, pos, WriteItems(vs))
    ensures FullItems(u, data, pos, kind, |vs|) == Some(Read(vs, pos + |WriteItems(vs)|))
    decreases vs, 0
  {
    hide FullValue, WriteValue, Stands;
    if vs == [] {
    } else {
      StandsParts(data, pos, WriteValue(vs[0]), WriteItems(vs[1..]));
      ValueStands(u, data, pos, vs[0]);
      ItemsStand(u, data, pos + |WriteValue(vs[0])|, kind, vs[1..]);
      assert [vs[0]] + vs[1..] == vs;
    }
  }

  /** The pieces of an entry, each where the one before ends. */
  lemma EntryStands(u: Utf8, data: bytes, pos: nat, p: Pair<Value>)
    requires EntryFits(u, p) && Stands(data, pos, WriteEntry(p))
    ensures var kind := pos + |WriteText(p.key)|;
            && Text(u, true, data, pos) == Some(Read(p.key, kind))
            && Number(data, kind, 4) == Some(Read(KindOf(p.value), kind + 4))
            && FullValue(u, data, kind + 4, KindOf(p.value)) == Some(Read(p.value, pos + |WriteEntry(p)|))
  {
    hide FullValue, WriteValue, Stands, Number, Text, ValueFits, WriteText, KindOf;
    StandsParts(data, pos, WriteText(p.key) + Le4(KindOf(p.value)), WriteValue(p.value));
    StandsParts(data, pos, WriteText(p.key), Le4(KindOf(p.value)));
    TextStands(u, data, pos, p.key);
    KindFits(u, p.value);
    NumberStands(data, pos + |WriteText(p.key)|, KindOf(p.value), 4);
    ValueStands(u, data, pos + |WriteText(p.key)| + 4, p.value);
  }

  lemma {:induction false} EntriesStand(u: Utf8, data: bytes, pos: nat, ps: seq<Pair<Value>>)
    requires forall i | 0 <= i < |ps| :: EntryFits(u, ps[i])
    requires Stands(data, pos, WriteEntries(ps))
    ensures FullPairs(u, data, pos, |ps|) == Some(Read(ps, pos + |WriteEntries(ps)|))
    decreases |ps|
  {
    hide FullValue, WriteEntry, Stands, Number, Text, EntryFits, KindOf, WriteText;
    if ps == [] {
    } else {
      StandsParts(data, pos, WriteEntry(ps[0]), WriteEntries(ps[1..]));
      EntryStands(u, data, pos, ps[0]);
      EntriesStand(u, data, pos + |WriteEntry(ps[0])|, ps[1..]);
      assert [Pair(ps[0].key, ps[0].value)] + ps[1..] == ps;
    }
  }

  lemma KindFits(u: Utf8, v: Value)
    requires ValueFits(u, v)
    ensures KindOf(v) < LIMIT4
  {}

  lemma {:induction false} NumbersStand(data: bytes, pos: nat, ns: seq<nat>)
    requires (forall i | 0 <= i < |ns| :: ns[i] < LIMIT8) && Stands(data, pos, WriteNumbers(ns))
    ensures Numbers(data, pos, |ns|) == Some(Read(ns, pos + |WriteNumbers(ns)|))
    decreases |ns|
  {
    hide Stands, Number;
    if ns == [] {
    } else {
      StandsParts(data, pos, Le8(ns[0]), WriteNumbers(ns[1..]));
      NumberStands(data, pos, ns[0], 8);
      NumbersStand(data, pos + 8, ns[1..]);
      assert [ns[0]] + ns[1..] == ns;
    }
  }

  lemma TensorStands(u: Utf8, data: bytes, pos: nat, t: Tensor)
    requires TensorFits(u, t) && Stands(data, pos, WriteTensor(t))
    ensures Descriptor(u, true, data, pos) == Some(Read(t, pos + |WriteTensor(t)|))
  {
    hide Stands, Number, Text, Numbers, WriteText, WriteNumbers, TextFits;
    var name, rank, dims, kind := WriteText(t.name), Le4(|t.shape|), WriteNumbers(t.shape), Le4(t.dtype);
    StandsParts(data, pos, name + rank + dims + kind, Le8(t.offset));
    StandsParts(data, pos, name + rank + dims, kind);
    StandsParts(data, pos, name + rank, dims);
    StandsParts(data, pos, name, rank);
    TextStands(u, data, pos, t.name);
    NumberStands(data, pos + |name|, |t.shape|, 4);
    NumbersStand(data, pos + |name| + 4, t.shape);
    NumberStands(data, pos + |name| + 4 + |dims|, t.dtype, 4);
    NumberStands(data, pos + |name| + 8 + |dims|, t.offset, 8);
  }

  lemma {:induction false} TensorsStand(u: Utf8, data: bytes, pos: nat, ts: seq<Tensor>)
    requires forall i | 0 <= i < |ts| :: TensorFits(u, ts[i])
    requires Stands(data, pos, WriteTensors(ts))
    ensures Descriptors(u, true, data, pos, |ts|) == Some(Read(ts, pos + |WriteTensors(ts)|))
    decreases |ts|
  {
    hide Stands, Descriptor, WriteTensor, TensorFits;
    if ts == [] {
    } else {
      StandsParts(data, pos, WriteTensor(ts[0]), WriteTensors(ts[1..]));
      TensorStands(u, data, pos, ts[0]);
      TensorsStand(u, data, pos + |WriteTensor(ts[0])|, ts[1..]);
      assert [ts[0]] + ts[1..] == ts;
    }
  }

  lemma PreambleStands(data: bytes, version: nat, ps: seq<Pair<Value>>, ts: seq<Tensor>)
    requires version < LIMIT4 && |ps| < LIMIT8 && |ts| < LIMIT8 && Stands(data, 0, WriteFile(version, ps, ts))
    ensures ReadPreamble(data) == Some(Read(Preamble(version, |ts|, |ps|), 24))
    ensures Stands(data, 24, WriteEntries(ps)) && Stands(data, 24 + |WriteEntries(ps)|, WriteTensors(ts))
  {
    hide Number, WriteEntries, WriteTensors, Stands;
    var magic: bytes := [0x47, 0x47, 0x55, 0x46];
    StandsParts(data, 0, magic + Le4(version) + Le8(|ts|) + Le8(|ps|) + WriteEntries(ps), WriteTensors(ts));
    StandsParts(data, 0, magic + Le4(version) + Le8(|ts|) + Le8(|ps|), WriteEntries(ps));
    StandsParts(data, 0, magic + Le4(version) + Le8(|ts|), Le8(|ps|));
    StandsParts(data, 0, magic + Le4(version), Le8(|ts|));
    StandsParts(data, 0, magic, Le4(version));
    NumberStands(data, 4, version, 4);
    NumberStands(data, 8, |ts|, 8);
    NumberStands(data, 16, |ps|, 8);
    assert Take(data, 0, 4) == Some(Read(magic, 4)) by { TakeStands(data, 0, magic); }
  }

  lemma TakeStands(data: bytes, pos: nat, x: bytes)
    requires Stands(data, pos, x)
    ensures Take(data, pos, |x|) == Some(Read(x, pos + |x|))
  {}

  // ---------------------------------------------------------------------------
  // The three readers
  // ---------------------------------------------------------------------------

  /** Entry i is the last one with its key. */
  predicate Last<V>(ps: seq<Pair<V>>, i: nat) {
    i < |ps| && forall j | i < j < |ps| :: ps[j].key != ps[i].key
  }

  ghost predicate HasKey<V>(ps: seq<Pair<V>>, k: bytes) {
    exists i :: 0 <= i < |ps| && ps[i].key == k
  }

  /** What the entries mean as a dictionary: every key has the value it was written with last. */
  ghost predicate LastWritten<V>(m: map<bytes, V>, ps: seq<Pair<V>>) {
    && (forall k :: k in m <==> HasKey(ps, k))
    && forall i: nat | Last(ps, i) :: ps[i].key in m && m[ps[i].key] == ps[i].value
  }

  lemma {:induction false} DictIsLast<V>(ps: seq<Pair<V>>)
    ensures LastWritten(Dict(ps), ps)
  {
    if ps == [] {
    } else {
      hide HasKey, Last;
      var n, init := |ps| - 1, ps[..|ps| - 1];
      DictIsLast(init);
      assert Dict(ps) == Dict(init)[ps[n].key := ps[n].value];
      forall k ensures k in Dict(ps) <==> HasKey(ps, k) {
        KeysOfMore(ps, k);
      }
      forall i: nat | Last(ps, i) ensures ps[i].key in Dict(ps) && Dict(ps)[ps[i].key] == ps[i].value {
        LastOfMore(ps, i);
      }
    }
  }

  lemma KeysOfMore<V>(ps: seq<Pair<V>>, k: bytes)
    requires ps != []
    ensures HasKey(ps, k) <==> HasKey(ps[..|ps| - 1], k) || k == ps[|ps| - 1].key
  {
    var init := ps[..|ps| - 1];
    if i :| 0 <= i < |init| && init[i].key == k { assert ps[i].key == k; }
    if i :| 0 <= i < |ps| && ps[i].key == k {
      if i < |init| { assert init[i].key == k; }
    }
  }

  lemma LastOfMore<V>(ps: seq<Pair<V>>, i: nat)
    requires Last(ps, i)
    ensures i == |ps| - 1 || (Last(ps[..|ps| - 1], i) && ps[..|ps| - 1][i] == ps[i] && ps[i].key != ps[|ps| - 1].key)
  {}

  /** The name and shape of every tensor. */
  function Shapes(ts: seq<Tensor>): seq<Entry> {
    seq(|ts|, i requires 0 <= i < |ts| => Entry(ts[i].name, ts[i].shape))
  }

  /**
   The full reader returns what was written: every entry with its value, every tensor with its name, its dimensions in
   order, its type and offset, the length of the header, and the canonical bytes of the names and shapes.
   */
  lemma FileRoundTrip(u: Utf8, ps: seq<Pair<Value>>, ts: seq<Tensor>, tail: bytes)
    requires FileFits(u, ps, ts)
    ensures var file := WriteFile(3, ps, ts);
            var r := FullHeader(u, file + tail);
            && r.Some? && LastWritten(r.value.metadata, ps) && r.value.tensors == ts
            && r.value.tensorCount == |ts| && r.value.entryCount == |ps| && r.value.headerBytes == |file|
            && r.value.canonical == Encode(SortEntries(Shapes(ts)))
    ensures EntriesOf(u, WriteFile(3, ps, ts) + tail) == ps
  {
    hide FullPairs, Descriptors, ReadPreamble, WriteFile, Dict, LastWritten, Encode, SortEntries;
    FileStands(u, 3, ps, ts, tail);
    DictIsLast(ps);
    assert AsEntries(ts) == Shapes(ts);
  }

  lemma FileStands(u: Utf8, version: nat, ps: seq<Pair<Value>>, ts: seq<Tensor>, tail: bytes)
    requires FileFits(u, ps, ts) && version < LIMIT4
    ensures var file := WriteFile(version, ps, ts);
            && ReadPreamble(file + tail) == Some(Read(Preamble(version, |ts|, |ps|), 24))
            && FullPairs(u, file + tail, 24, |ps|) == Some(Read(ps, 24 + |WriteEntries(ps)|))
            && Descriptors(u, true, file + tail, 24 + |WriteEntries(ps)|, |ts|) == Some(Read(ts, |file|))
  {
    hide FullPairs, Descriptors, ReadPreamble, WriteEntries, WriteTensors, EntryFits, TensorFits;
    var file := WriteFile(version, ps, ts);
    var data := file + tail;
    assert data[0..|file|] == file;
    PreambleStands(data, version, ps, ts);
    EntriesStand(u, data, 24, ps);
    TensorsStand(u, data, 24 + |WriteEntries(ps)|, ts);
  }

  /** Only version 3 is read by the full reader. */
  lemma OtherVersions(u: Utf8, version: nat, ps: seq<Pair<Value>>, ts: seq<Tensor>, tail: bytes)
    requires FileFits(u, ps, ts) && version < LIMIT4
    ensures FullHeader(u, WriteFile(version, ps, ts) + tail).Some? <==> version == 3
  {
    hide FullPairs, Descriptors, ReadPreamble, WriteFile, Dict, Encode, SortEntries, AsEntries;
    FileStands(u, version, ps, ts, tail);
  }

  /** What the model card keeps of a value: 32-bit scalars and bools, texts, and the length of an array. */
  predicate CardShows(c: Card, v: Value) {
    match v
    case Scalar(kind, raw) => c == if kind in {4, 5, 6, 7} then Shown(kind, raw) else Omitted
    case Str(text) => c == CardText(text)
    case Array(_, items) => c == ArrayOf(|items|)
  }

  /** The skipping reader returns the same of a written file without non-empty arrays of arrays. */
  lemma FileSkipped(u: Utf8, ps: seq<Pair<Value>>, ts: seq<Tensor>, tail: bytes)
    requires u.Faithful() && FileFits(u, ps, ts) && NoneNested(ps)
    ensures var file := WriteFile(3, ps, ts);
            var r := SkippingHeader(u, file + tail);
            && r.Some? && r.value.version == 3 && r.value.tensorCount == |ts| && r.value.end == |file|
            && |r.value.tensors| == |ts|
            && (forall i | 0 <= i < |ts| :: r.value.tensors[i] == (ts[i].name, ts[i].shape, ts[i].dtype))
            && (forall k :: k in r.value.meta <==> HasKey(ps, k))
            && forall i: nat | Last(ps, i) ::
                 ps[i].key in r.value.meta && CardShows(r.value.meta[ps[i].key], ps[i].value)
  {
    hide FullHeader, SkippingHeader, EntriesOf, ReadPreamble, WriteFile, FileFits, NoneNested, u.Faithful, HasKey, Last;
    FileRoundTrip(u, ps, ts, tail);
    SkippingAgrees(u, WriteFile(3, ps, ts) + tail);
  }

  /** Every array holds values of a known kind that is not an array. */
  predicate FlatArrays(ps: seq<Pair<Value>>) {
    forall i | 0 <= i < |ps| && ps[i].value.Array? :: ps[i].value.kind <= 12 && ps[i].value.kind != 9
  }

  /**
   The manifest reader, which also takes version 2, returns the same of exactly the written files whose arrays are
   flat, with the version as an entry that a written one of that name replaces.
   */
  lemma FileManifest(u: Utf8, version: nat, ps: seq<Pair<Value>>, ts: seq<Tensor>, tail: bytes)
    requires FileFits(u, ps, ts) && version < LIMIT4
    ensures var file := WriteFile(version, ps, ts);
            var r := ReadManifest(u, file + tail);
            && (r.Some? <==> version in {2, 3} && FlatArrays(ps))
            && (r.Some? ==>
                  && r.value.tensors == ts && r.value.end == |file|
                  && (forall k :: k in r.value.metadata <==> k == VERSION_KEY || HasKey(ps, k))
                  && (!HasKey(ps, VERSION_KEY) ==> r.value.metadata[VERSION_KEY] == Scalar(4, Le4(version)))
                  && forall i: nat | Last(ps, i) ::
                       ps[i].key in r.value.metadata && r.value.metadata[ps[i].key] == ps[i].value)
  {
    hide FullPairs, FlatPairs, Descriptors, ReadPreamble, WriteFile, Dict, VERSION_KEY, HasKey, Last;
    FileStands(u, version, ps, ts, tail);
    FlatPairsExact(u, WriteFile(version, ps, ts) + tail, 24, |ps|);
    DictIsLast(ps);
    assert AllFlat(ps) <==> FlatArrays(ps);
  }
}
