/**
 The three readers as they run: a position advances through the bytes while loops fill lists and
 dictionaries.  Each is proved against its function in module Gguf.
 */
module GgufRun {
  import opened Wrappers
  import opened Octets
  import opened Manifest
  import opened Gguf

  /** A method's result and new position are the ones a reading function gives. */
  ghost predicate Did<T>(spec: Option<Read<T>>, r: Option<T>, end: nat) {
    match spec
    case None => r.None?
    case Some(x) => r == Some(x.item) && end == x.pos
  }

  /** Reader of hf_gguf_contract.py; the other two keep the same state in a file handle. */
  class Reader {
    const data: bytes
    var pos: nat

    constructor (data: bytes)
      ensures this.data == data && pos == 0
    {
      this.data := data;
      pos := 0;
    }

    method Bytes(size: nat) returns (r: Option<bytes>)
      modifies `pos
      ensures Did(Take(data, old(pos), size), r, pos)
      ensures r.None? ==> pos == old(pos)
    {
      var end := pos + size;
      if end > |data| { return None; }
      r := Some(data[pos..end]);
      pos := end;
    }

    method Unpack(width: nat) returns (r: Option<nat>)
      modifies `pos
      ensures Did(Number(data, old(pos), width), r, pos)
    {
      hide LittleEndian;
      var raw :- Bytes(width);
      r := Some(LittleEndian(raw));
    }

    method SkipText() returns (r: Option<bytes>)
      modifies `pos
      ensures Did(RawText(data, old(pos)), r, pos)
    {
      hide Number;
      var size :- Unpack(8);
      r := Bytes(size);
    }

    method String(u: Utf8, strict: bool) returns (r: Option<bytes>)
      modifies `pos
      ensures Did(Text(u, strict, data, old(pos)), r, pos)
    {
      hide RawText;
      var raw :- SkipText();
      if !strict { return Some(u.lossy(raw)); }
      r := if u.valid(raw) then Some(raw) else None;
    }
  }

  lemma JoinedStep<T>(acc: seq<T>, x: T, rest: Option<Read<seq<T>>>)
    ensures Joined(acc, Joined([x], rest)) == Joined(acc + [x], rest)
  {
    if rest.Some? { assert acc + ([x] + rest.value.item) == acc + [x] + rest.value.item; }
  }

  lemma JoinedNone<T>(spec: Option<Read<seq<T>>>)
    ensures Joined([], spec) == spec
  {
    if spec.Some? { assert [] + spec.value.item == spec.value.item; }
  }

  // ---------------------------------------------------------------------------
  // Tensor descriptors
  // ---------------------------------------------------------------------------

  lemma NumbersStep(data: bytes, pos: nat, n: nat)
    requires n > 0
    ensures Numbers(data, pos, n)
         == var first := Number(data, pos, 8);
            if first.None? then None else Joined([first.value.item], Numbers(data, first.value.pos, n - 1))
  {
    hide Number;
  }

  lemma NumbersEnd(data: bytes, pos: nat)
    ensures Numbers(data, pos, 0) == Some(Read([], pos))
  {}

  method ReadShape(rd: Reader, n: nat) returns (r: Option<seq<nat>>)
    modifies rd`pos
    ensures Did(Numbers(rd.data, old(rd.pos), n), r, rd.pos)
  {
    hide Numbers, Number;
    ghost var start := rd.pos;
    var shape: seq<nat> := [];
    JoinedNone(Numbers(rd.data, start, n));
    for i := 0 to n
      invariant Numbers(rd.data, start, n) == Joined(shape, Numbers(rd.data, rd.pos, n - i))
    {
      NumbersStep(rd.data, rd.pos, n - i);
      var d :- rd.Unpack(8);
      JoinedStep(shape, d, Numbers(rd.data, rd.pos, n - i - 1));
      shape := shape + [d];
    }
    NumbersEnd(rd.data, rd.pos);
    assert shape + [] == shape;
    r := Some(shape);
  }

  method ReadTensor(rd: Reader, u: Utf8, strict: bool) returns (r: Option<Tensor>)
    modifies rd`pos
    ensures Did(Descriptor(u, strict, rd.data, old(rd.pos)), r, rd.pos)
  {
    hide Text, Number, Numbers;
    var name :- rd.String(u, strict);
    var rank :- rd.Unpack(4);
    var shape :- ReadShape(rd, rank);
    var dtype :- rd.Unpack(4);
    var offset :- rd.Unpack(8);
    r := Some(Tensor(name, shape, dtype, offset));
  }

  lemma DescriptorsStep(u: Utf8, strict: bool, data: bytes, pos: nat, n: nat)
    ensures Descriptors(u, strict, data, pos, n)
         == if n == 0 then Some(Read([], pos))
            else var first := Descriptor(u, strict, data, pos);
                 if first.None? then None
                 else Joined([first.value.item], Descriptors(u, strict, data, first.value.pos, n - 1))
  {
    hide Descriptor;
  }

  method ReadTensors(rd: Reader, u: Utf8, strict: bool, n: nat) returns (r: Option<seq<Tensor>>)
    modifies rd`pos
    ensures Did(Descriptors(u, strict, rd.data, old(rd.pos), n), r, rd.pos)
  {
    hide Descriptors, Descriptor;
    ghost var start := rd.pos;
    var tensors: seq<Tensor> := [];
    JoinedNone(Descriptors(u, strict, rd.data, start, n));
    for i := 0 to n
      invariant Descriptors(u, strict, rd.data, start, n)
          == Joined(tensors, Descriptors(u, strict, rd.data, rd.pos, n - i))
    {
      DescriptorsStep(u, strict, rd.data, rd.pos, n - i);
      var t :- ReadTensor(rd, u, strict);
      JoinedStep(tensors, t, Descriptors(u, strict, rd.data, rd.pos, n - i - 1));
      tensors := tensors + [t];
    }
    DescriptorsStep(u, strict, rd.data, rd.pos, 0);
    assert tensors + [] == tensors;
    r := Some(tensors);
  }

  method ReadStart(rd: Reader) returns (r: Option<Preamble>)
    requires rd.pos == 0
    modifies rd`pos
    ensures Did(ReadPreamble(rd.data), r, rd.pos)
  {
    hide Number;
    var magic :- rd.Bytes(4);
    if magic != MAGIC { return None; }
    var version :- rd.Unpack(4);
    var tensors :- rd.Unpack(8);
    var entries :- rd.Unpack(8);
    r := Some(Preamble(version, tensors, entries));
  }

  // ---------------------------------------------------------------------------
  // Values
  // ---------------------------------------------------------------------------

  lemma FullItemsStep(u: Utf8, data: bytes, pos: nat, kind: nat, n: nat)
    ensures FullItems(u, data, pos, kind, n)
         == if n == 0 then Some(Read([], pos))
            else var first := FullValue(u, data, pos, kind);
                 if first.None? then None
                 else Joined([first.value.item], FullItems(u, data, first.value.pos, kind, n - 1))
  {
    hide FullValue;
  }

  method ReadValue(rd: Reader, u: Utf8, kind: nat) returns (r: Option<Value>)
    modifies rd`pos
    ensures Did(FullValue(u, rd.data, old(rd.pos), kind), r, rd.pos)
    decreases |rd.data| - rd.pos
  {
    hide FullItems, Text, Number, Take;
    if ScalarSize(kind) > 0 {
      var raw :- rd.Bytes(ScalarSize(kind));
      return Some(Scalar(kind, raw));
    }
    if kind == STRING {
      var text :- rd.String(u, true);
      return Some(Str(text));
    }
    if kind != ARRAY { return None; }
    var of :- rd.Unpack(4);
    var count :- rd.Unpack(8);
    hide FullValue;
    ghost var start := rd.pos;
    var items: seq<Value> := [];
    JoinedNone(FullItems(u, rd.data, start, of, count));
    for i := 0 to count
      invariant start <= rd.pos <= |rd.data|
      invariant FullItems(u, rd.data, start, of, count) == Joined(items, FullItems(u, rd.data, rd.pos, of, count - i))
    {
      FullItemsStep(u, rd.data, rd.pos, of, count - i);
      var x :- ReadValue(rd, u, of);
      JoinedStep(items, x, FullItems(u, rd.data, rd.pos, of, count - i - 1));
      items := items + [x];
    }
    FullItemsStep(u, rd.data, rd.pos, of, 0);
    assert items + [] == items;
    r := Some(Array(of, items));
  }

  lemma FlatItemsStep(u: Utf8, data: bytes, pos: nat, kind: nat, n: nat)
    ensures FlatItems(u, data, pos, kind, n)
         == if n == 0 then Some(Read([], pos))
            else var first := FlatValue(u, data, pos, kind);
                 if first.None? then None
                 else Joined([first.value.item], FlatItems(u, data, first.value.pos, kind, n - 1))
  {
    hide FlatValue;
  }

  method ReadFlatValue(rd: Reader, u: Utf8, kind: nat) returns (r: Option<Value>)
    modifies rd`pos
    ensures Did(FlatValue(u, rd.data, old(rd.pos), kind), r, rd.pos)
    decreases |rd.data| - rd.pos
  {
    hide FlatItems, Text, Number, Take;
    if ScalarSize(kind) > 0 {
      var raw :- rd.Bytes(ScalarSize(kind));
      return Some(Scalar(kind, raw));
    }
    if kind == STRING {
      var text :- rd.String(u, true);
      return Some(Str(text));
    }
    if kind != ARRAY { return None; }
    var of :- rd.Unpack(4);
    var count :- rd.Unpack(8);
    if of > 12 || of == ARRAY { return None; }
    hide FlatValue;
    ghost var start := rd.pos;
    var items: seq<Value> := [];
    JoinedNone(FlatItems(u, rd.data, start, of, count));
    for i := 0 to count
      invariant start <= rd.pos <= |rd.data|
      invariant FlatItems(u, rd.data, start, of, count) == Joined(items, FlatItems(u, rd.data, rd.pos, of, count - i))
    {
      FlatItemsStep(u, rd.data, rd.pos, of, count - i);
      var x :- ReadFlatValue(rd, u, of);
      JoinedStep(items, x, FlatItems(u, rd.data, rd.pos, of, count - i - 1));
      items := items + [x];
    }
    FlatItemsStep(u, rd.data, rd.pos, of, 0);
    assert items + [] == items;
    r := Some(Array(of, items));
  }

  lemma SkipTextsStep(data: bytes, pos: nat, n: nat)
    ensures SkipTexts(data, pos, n)
         == if n == 0 then Some(pos)
            else var first := RawText(data, pos); if first.None? then None else SkipTexts(data, first.value.pos, n - 1)
  {
    hide RawText;
  }

  method SkipStrings(rd: Reader, n: nat) returns (r: Option<()>)
    modifies rd`pos
    ensures match SkipTexts(rd.data, old(rd.pos), n) case None => r.None? case Some(end) => r.Some? && rd.pos == end
  {
    hide SkipTexts, RawText;
    ghost var start := rd.pos;
    for i := 0 to n
      invariant SkipTexts(rd.data, start, n) == SkipTexts(rd.data, rd.pos, n - i)
    {
      SkipTextsStep(rd.data, rd.pos, n - i);
      var _ :- rd.SkipText();
    }
    SkipTextsStep(rd.data, rd.pos, 0);
    r := Some(());
  }

  method ReadCardValue(rd: Reader, u: Utf8, kind: nat) returns (r: Option<Card>)
    modifies rd`pos
    ensures Did(CardValue(u, rd.data, old(rd.pos), kind), r, rd.pos)
  {
    hide SkipTexts, Text, Number, Take;
    if kind == STRING {
      var text :- rd.String(u, false);
      return Some(CardText(text));
    }
    if ScalarSize(kind) > 0 {
      var raw :- rd.Bytes(ScalarSize(kind));
      return Some(if kind in {4, 5, 6, 7} then Shown(kind, raw) else Omitted);
    }
    if kind != ARRAY { return None; }
    var of :- rd.Unpack(4);
    var count :- rd.Unpack(8);
    if ScalarSize(of) > 0 {
      var _ :- rd.Bytes(ScalarSize(of) * count);
    } else if of == STRING {
      var _ :- SkipStrings(rd, count);
    }
    r := Some(ArrayOf(count));
  }

  // ---------------------------------------------------------------------------
  // Entries
  // ---------------------------------------------------------------------------

  lemma DictAppend<V>(pairs: seq<Pair<V>>, p: Pair<V>)
    ensures Dict(pairs + [p]) == Dict(pairs)[p.key := p.value]
  {
    assert (pairs + [p])[..|pairs|] == pairs;
  }

  lemma DictNone<V>()
    ensures Dict<V>([]) == map[]
  {}

  /** A dictionary filled by the entries a reading function gives, and the position behind them. */
  ghost predicate Filled<V>(spec: Option<Read<seq<Pair<V>>>>, r: Option<map<bytes, V>>, end: nat) {
    match spec
    case None => r.None?
    case Some(x) => r == Some(Dict(x.item)) && end == x.pos
  }

  lemma FullPairsStep(u: Utf8, data: bytes, pos: nat, n: nat)
    ensures FullPairs(u, data, pos, n)
         == if n == 0 then Some(Read([], pos))
            else
              var key := Text(u, true, data, pos);
              if key.None? || Number(data, key.value.pos, 4).None? then None
              else
                var kind := Number(data, key.value.pos, 4).value;
                var value := FullValue(u, data, kind.pos, kind.item);
                if value.None? then None
                else Joined([Pair(key.value.item, value.value.item)], FullPairs(u, data, value.value.pos, n - 1))
  {
    hide Text, Number, FullValue;
  }

  method ReadFullPairs(rd: Reader, u: Utf8, n: nat) returns (r: Option<map<bytes, Value>>)
    modifies rd`pos
    ensures Filled(FullPairs(u, rd.data, old(rd.pos), n), r, rd.pos)
  {
    hide FullPairs, FullValue, Text, Number, Dict;
    ghost var start := rd.pos;
    ghost var pairs: seq<Pair<Value>> := [];
    var metadata: map<bytes, Value> := map[];
    DictNone<Value>();
    JoinedNone(FullPairs(u, rd.data, start, n));
    for i := 0 to n
      invariant FullPairs(u, rd.data, start, n) == Joined(pairs, FullPairs(u, rd.data, rd.pos, n - i))
      invariant metadata == Dict(pairs)
    {
      FullPairsStep(u, rd.data, rd.pos, n - i);
      var key :- rd.String(u, true);
      var kind :- rd.Unpack(4);
      var value :- ReadValue(rd, u, kind);
      JoinedStep(pairs, Pair(key, value), FullPairs(u, rd.data, rd.pos, n - i - 1));
      DictAppend(pairs, Pair(key, value));
      pairs := pairs + [Pair(key, value)];
      metadata := metadata[key := value];
    }
    FullPairsStep(u, rd.data, rd.pos, 0);
    assert pairs + [] == pairs;
    r := Some(metadata);
  }

  lemma CardPairsStep(u: Utf8, data: bytes, pos: nat, n: nat)
    ensures CardPairs(u, data, pos, n)
         == if n == 0 then Some(Read([], pos))
            else
              var key := Text(u, false, data, pos);
              if key.None? || Number(data, key.value.pos, 4).None? then None
              else
                var kind := Number(data, key.value.pos, 4).value;
                var value := CardValue(u, data, kind.pos, kind.item);
                if value.None? then None
                else Joined([Pair(key.value.item, value.value.item)], CardPairs(u, data, value.value.pos, n - 1))
  {
    hide Text, Number, CardValue;
  }

  method ReadCardPairs(rd: Reader, u: Utf8, n: nat) returns (r: Option<map<bytes, Card>>)
    modifies rd`pos
    ensures Filled(CardPairs(u, rd.data, old(rd.pos), n), r, rd.pos)
  {
    hide CardPairs, CardValue, Text, Number, Dict;
    ghost var start := rd.pos;
    ghost var pairs: seq<Pair<Card>> := [];
    var metadata: map<bytes, Card> := map[];
    DictNone<Card>();
    JoinedNone(CardPairs(u, rd.data, start, n));
    for i := 0 to n
      invariant CardPairs(u, rd.data, start, n) == Joined(pairs, CardPairs(u, rd.data, rd.pos, n - i))
      invariant metadata == Dict(pairs)
    {
      CardPairsStep(u, rd.data, rd.pos, n - i);
      var key :- rd.String(u, false);
      var kind :- rd.Unpack(4);
      var value :- ReadCardValue(rd, u, kind);
      JoinedStep(pairs, Pair(key, value), CardPairs(u, rd.data, rd.pos, n - i - 1));
      DictAppend(pairs, Pair(key, value));
      pairs := pairs + [Pair(key, value)];
      metadata := metadata[key := value];
    }
    CardPairsStep(u, rd.data, rd.pos, 0);
    assert pairs + [] == pairs;
    r := Some(metadata);
  }

  lemma FlatPairsStep(u: Utf8, data: bytes, pos: nat, n: nat)
    ensures FlatPairs(u, data, pos, n)
         == if n == 0 then Some(Read([], pos))
            else
              var key := Text(u, true, data, pos);
              if key.None? || Number(data, key.value.pos, 4).None? then None
              else
                var kind := Number(data, key.value.pos, 4).value;
                var value := FlatValue(u, data, kind.pos, kind.item);
                if value.None? then None
                else Joined([Pair(key.value.item, value.value.item)], FlatPairs(u, data, value.value.pos, n - 1))
  {
    hide Text, Number, FlatValue;
  }

  method ReadFlatPairs(rd: Reader, u: Utf8, n: nat) returns (r: Option<map<bytes, Value>>)
    modifies rd`pos
    ensures Filled(FlatPairs(u, rd.data, old(rd.pos), n), r, rd.pos)
  {
    hide FlatPairs, FlatValue, Text, Number, Dict;
    ghost var start := rd.pos;
    ghost var pairs: seq<Pair<Value>> := [];
    var metadata: map<bytes, Value> := map[];
    DictNone<Value>();
    JoinedNone(FlatPairs(u, rd.data, start, n));
    for i := 0 to n
      invariant FlatPairs(u, rd.data, start, n) == Joined(pairs, FlatPairs(u, rd.data, rd.pos, n - i))
      invariant metadata == Dict(pairs)
    {
      FlatPairsStep(u, rd.data, rd.pos, n - i);
      var key :- rd.String(u, true);
      var kind :- rd.Unpack(4);
      var value :- ReadFlatValue(rd, u, kind);
      JoinedStep(pairs, Pair(key, value), FlatPairs(u, rd.data, rd.pos, n - i - 1));
      DictAppend(pairs, Pair(key, value));
      pairs := pairs + [Pair(key, value)];
      metadata := metadata[key := value];
    }
    FlatPairsStep(u, rd.data, rd.pos, 0);
    assert pairs + [] == pairs;
    r := Some(metadata);
  }

  // ---------------------------------------------------------------------------
  // The readers
  // ---------------------------------------------------------------------------

  /** parse_header of hf_gguf_contract.py. */
  method ParseHeader(u: Utf8, data: bytes) returns (r: Option<Header>)
    ensures r == FullHeader(u, data)
  {
    hide ReadPreamble, FullPairs, Descriptors, Dict, AsEntries, Encode, SortEntries, Number, Take;
    var rd := new Reader(data);
    var start :- ReadStart(rd);
    if start.version != 3 { return None; }
    var metadata :- ReadFullPairs(rd, u, start.entries);
    var tensors :- ReadTensors(rd, u, true, start.tensors);
    DescriptorsPackable(u, true, data, FullPairs(u, data, 24, start.entries).value.pos, start.tensors);
    var canonical := ManifestBytes(AsEntries(tensors));
    r := Some(Header(start.tensors, start.entries, rd.pos, metadata, tensors, canonical.value));
  }

  /** Every number of a descriptor fits its field, so packing the manifest again cannot fail. */
  lemma {:induction false} DescriptorsPackable(u: Utf8, strict: bool, data: bytes, pos: nat, n: nat)
    requires Descriptors(u, strict, data, pos, n).Some?
    ensures var es := AsEntries(Descriptors(u, strict, data, pos, n).value.item);
            forall i | 0 <= i < |es| :: Packable(es[i])
    decreases n
  {
    hide Descriptor, Packable;
    if n == 0 {
    } else {
      var first := Descriptor(u, strict, data, pos).value;
      DescriptorPackable(u, strict, data, pos);
      DescriptorsPackable(u, strict, data, first.pos, n - 1);
      var rest := Descriptors(u, strict, data, first.pos, n - 1).value.item;
      var all := Descriptors(u, strict, data, pos, n).value.item;
      assert all == [first.item] + rest;
      forall i | 0 <= i < |all| ensures Packable(AsEntries(all)[i]) {
        if i > 0 { assert AsEntries(all)[i] == AsEntries(rest)[i - 1]; }
      }
    }
  }

  lemma DescriptorPackable(u: Utf8, strict: bool, data: bytes, pos: nat)
    requires Descriptor(u, strict, data, pos).Some?
    ensures var t := Descriptor(u, strict, data, pos).value.item; Packable(Entry(t.name, t.shape))
  {
    hide Text, Numbers, Number;
    var name := Text(u, strict, data, pos).value;
    var rank := Number(data, name.pos, 4).value;
    NumberBound(data, name.pos, 4);
    NumbersBound(data, rank.pos, rank.item);
    assert Pow256(4) < Pow256(8) == WORD_LIMIT;
  }

  lemma NumberBound(data: bytes, pos: nat, width: nat)
    requires Number(data, pos, width).Some?
    ensures Number(data, pos, width).value.item < Pow256(width)
  {
    LittleEndianBound(data[pos..pos + width]);
  }

  lemma {:induction false} NumbersBound(data: bytes, pos: nat, n: nat)
    requires Numbers(data, pos, n).Some?
    ensures var shape := Numbers(data, pos, n).value.item; forall i | 0 <= i < |shape| :: shape[i] < WORD_LIMIT
    decreases n
  {
    hide Number;
    if n == 0 {
    } else {
      NumberBound(data, pos, 8);
      assert Pow256(8) == WORD_LIMIT;
      NumbersBound(data, pos + 8, n - 1);
    }
  }

  /** The constructor of GgufReader. */
  method ReadCard(u: Utf8, data: bytes) returns (r: Option<CardHeader>)
    ensures r == SkippingHeader(u, data)
  {
    hide ReadPreamble, CardPairs, Descriptors, Dict, WithoutOffsets, Number, Take;
    var rd := new Reader(data);
    var start :- ReadStart(rd);
    var meta :- ReadCardPairs(rd, u, start.entries);
    var tensors :- ReadTensors(rd, u, false, start.tensors);
    r := Some(CardHeader(start.version, start.tensors, meta, WithoutOffsets(tensors), rd.pos));
  }

  /** read_manifest of gguf_manifest.py; its dictionary starts with an entry of its own. */
  method ReadManifestFile(u: Utf8, data: bytes) returns (r: Option<ManifestRead>)
    ensures r == ReadManifest(u, data)
  {
    hide ReadPreamble, FlatPairs, Descriptors, Dict, VERSION_KEY, VersionEntry, Number, Take;
    var rd := new Reader(data);
    var start :- ReadStart(rd);
    if start.version !in {2, 3} { return None; }
    var metadata :- ReadFlatPairs(rd, u, start.entries);
    var tensors :- ReadTensors(rd, u, true, start.tensors);
    r := Some(ManifestRead(map[VERSION_KEY := VersionEntry(start.version)] + metadata, tensors, rd.pos));
  }
}
