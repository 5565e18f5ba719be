/**
 The safetensors header check of tools/audit/moss_audio_tokenizer_v2_manifest.py: every tensor's
 byte range must match its shape, and the ranges together must tile the payload.
 */
module Safetensors {
  import opened Wrappers
  import opened Sorting

  function DtypeBytes(dtype: string): Option<nat> {
    match dtype
    case "BOOL" | "U8" | "I8" => Some(1)
    case "I16" | "U16" | "F16" | "BF16" => Some(2)
    case "I32" | "U32" | "F32" => Some(4)
    case "F64" | "I64" | "U64" => Some(8)
    case _ => None
  }

  /** One header value: a well-typed descriptor, some other object, or something that is not an object. */
  datatype Descriptor =
    | Described(dtype: string, shape: seq<int>, offsets: seq<int>)
    | OtherObject
    | NotAnObject

  datatype Range = Range(start: int, end: int, name: string)

  /** What is reported of a tensor. */
  datatype TensorInfo = TensorInfo(name: string, dtype: string, shape: seq<int>, start: int, end: int)

  const METADATA_NAME := "__metadata__"

  function Product(shape: seq<int>): int {
    if shape == [] then 1 else Product(shape[..|shape| - 1]) * shape[|shape| - 1]
  }

  method DimensionProduct(shape: seq<int>) returns (product: int)
    ensures product == Product(shape)
  {
    product := 1;
    for i := 0 to |shape|
      invariant product == Product(shape[..i])
    {
      assert shape[..i + 1][..i] == shape[..i];
      product := product * shape[i];
    }
    assert shape[..|shape|] == shape;
  }

  predicate AllNonNegative(ns: seq<int>) {
    forall i | 0 <= i < |ns| :: ns[i] >= 0
  }

  /** A descriptor whose byte range is the one its dtype and shape need, inside the payload. */
  predicate DescriptorOk(d: Descriptor, payload: int) {
    && d.Described? && DtypeBytes(d.dtype).Some?
    && AllNonNegative(d.shape) && AllNonNegative(d.offsets) && |d.offsets| == 2
    && d.offsets[0] <= d.offsets[1] <= payload
    && d.offsets[1] - d.offsets[0] == Product(d.shape) * DtypeBytes(d.dtype).value
  }

  predicate EntryOk(e: (string, Descriptor), payload: int) {
    if e.0 == METADATA_NAME then !e.1.NotAnObject? else DescriptorOk(e.1, payload)
  }

  /** The tensors of a header whose entries are all in order. */
  function Tensors(raw: seq<(string, Descriptor)>, payload: int): seq<TensorInfo>
    requires forall i | 0 <= i < |raw| :: EntryOk(raw[i], payload)
  {
    if raw == [] then []
    else
      var (name, d) := raw[|raw| - 1];
      assert EntryOk(raw[|raw| - 1], payload);
      Tensors(raw[..|raw| - 1], payload)
      + if name == METADATA_NAME then [] else [TensorInfo(name, d.dtype, d.shape, d.offsets[0], d.offsets[1])]
  }

  function Ranges(ts: seq<TensorInfo>): seq<Range> {
    seq(|ts|, i requires 0 <= i < |ts| => Range(ts[i].start, ts[i].end, ts[i].name))
  }

  // ---------------------------------------------------------------------------
  // The sorted walk
  // ---------------------------------------------------------------------------

  predicate Before(a: Range, b: Range) {
    || a.start < b.start
    || (a.start == b.start && (a.end < b.end || (a.end == b.end && TextLess(a.name, b.name))))
  }

  function Sorted(s: seq<Range>): seq<Range> {
    Sort(Before, s)
  }

  /** Walking a cursor over the ranges meets each one exactly where the last one ended. */
  predicate Contiguous(s: seq<Range>, cursor: int, payload: int) {
    if s == [] then cursor == payload else s[0].start == cursor && Contiguous(s[1..], s[0].end, payload)
  }

  method CheckContiguous(s: seq<Range>, payload: int) returns (ok: bool)
    ensures ok <==> Contiguous(s, 0, payload)
  {
    var cursor := 0;
    var i := 0;
    assert s[0..] == s;
    while i < |s|
      invariant 0 <= i <= |s|
      invariant Contiguous(s, 0, payload) <==> Contiguous(s[i..], cursor, payload)
    {
      assert s[i..][1..] == s[i + 1..];
      if s[i].start != cursor {
        return false;
      }
      cursor := s[i].end;
      i := i + 1;
    }
    return cursor == payload;
  }

  /**
   The whole header check.  `raw` is the parsed header, None when it is not a JSON object with
   distinct keys.
   */
  method ReadHeader(fileSize: int, prefixBytes: int, headerSize: nat, raw: Option<seq<(string, Descriptor)>>)
    returns (r: Option<seq<TensorInfo>>)
    ensures r.Some? <==>
            && prefixBytes == 8 && 0 < headerSize <= fileSize - 8 && raw.Some?
            && (forall i | 0 <= i < |raw.value| :: EntryOk(raw.value[i], fileSize - 8 - headerSize))
            && var tensors := Tensors(raw.value, fileSize - 8 - headerSize);
            tensors != [] && Tiles(Ranges(tensors), fileSize - 8 - headerSize)
    ensures r.Some? ==> r.value == Tensors(raw.value, fileSize - 8 - headerSize)
  {
    if prefixBytes != 8 || headerSize == 0 || headerSize > fileSize - 8 || raw.None? {
      return None;
    }
    var payload := fileSize - 8 - headerSize;
    var entries := raw.value;
    var tensors: seq<TensorInfo> := [];
    var ranges: seq<Range> := [];
    hide Tiles, Sorted, Contiguous;
    for i := 0 to |entries|
      invariant forall j | 0 <= j < i :: EntryOk(entries[j], payload)
      invariant tensors == Tensors(entries[..i], payload) && ranges == Ranges(tensors)
    {
      var (name, d) := entries[i];
      assert entries[..i + 1][..i] == entries[..i];
      if name == METADATA_NAME {
        if d.NotAnObject? {
          return None;
        }
      } else {
        if !d.Described? || DtypeBytes(d.dtype).None? || !AllNonNegative(d.shape) {
          return None;
        }
        if |d.offsets| != 2 || !AllNonNegative(d.offsets) {
          return None;
        }
        var start, end := d.offsets[0], d.offsets[1];
        var elements := DimensionProduct(d.shape);
        if end < start || end - start != elements * DtypeBytes(d.dtype).value {
          return None;
        }
        if end > payload {
          return None;
        }
        tensors := tensors + [TensorInfo(name, d.dtype, d.shape, start, end)];
        ranges := ranges + [Range(start, end, name)];
      }
    }
    assert entries[..|entries|] == entries;
    if tensors == [] {
      return None;
    }
    TensorsWithin(entries, payload);
    TilingExact(ranges, payload);
    var ok := CheckContiguous(Sorted(ranges), payload);
    return if ok then Some(tensors) else None;
  }

  ghost predicate Within(s: seq<Range>, payload: int) {
    forall i | 0 <= i < |s| :: 0 <= s[i].start <= s[i].end <= payload
  }

  lemma {:induction false} TensorsWithin(raw: seq<(string, Descriptor)>, payload: int)
    requires forall i | 0 <= i < |raw| :: EntryOk(raw[i], payload)
    ensures Within(Ranges(Tensors(raw, payload)), payload)
  {
    hide EntryOk;
    if raw == [] {
    } else {
      var init := raw[..|raw| - 1];
      TensorsWithin(init, payload);
      LastWithin(raw, payload);
      var ts, front := Tensors(raw, payload), Tensors(init, payload);
      forall i | 0 <= i < |ts| ensures 0 <= ts[i].start <= ts[i].end <= payload {
        if i < |front| { assert ts[i] == front[i] && 0 <= Ranges(front)[i].start <= Ranges(front)[i].end <= payload; }
      }
    }
  }

  lemma LastWithin(raw: seq<(string, Descriptor)>, payload: int)
    requires raw != [] && forall i | 0 <= i < |raw| :: EntryOk(raw[i], payload)
    ensures var ts, n := Tensors(raw, payload), |Tensors(raw[..|raw| - 1], payload)|;
            n <= |ts| <= n + 1 && ts[..n] == Tensors(raw[..|raw| - 1], payload)
            && (n < |ts| ==> 0 <= ts[n].start <= ts[n].end <= payload)
  {
    assert EntryOk(raw[|raw| - 1], payload);
  }

  // ---------------------------------------------------------------------------
  // What an entry says
  // ---------------------------------------------------------------------------

  /** The bytes of one element; none of a type that is not known. */
  function Width(dtype: string): nat {
    if dtype in {"BOOL", "U8", "I8"} then 1
    else if dtype in {"I16", "U16", "F16", "BF16"} then 2
    else if dtype in {"I32", "U32", "F32"} then 4
    else if dtype in {"I64", "U64", "F64"} then 8
    else 0
  }

  function Elements(shape: seq<int>): int {
    if shape == [] then 1 else shape[0] * Elements(shape[1..])
  }

  /** A tensor of a known type and shape whose bytes, as many as that takes, lie in the payload. */
  ghost predicate Describes(d: Descriptor, payload: int, start: int, end: int) {
    && d.Described? && Width(d.dtype) > 0 && (forall n | n in d.shape :: n >= 0)
    && d.offsets == [start, end] && 0 <= start <= end <= payload
    && end == start + Width(d.dtype) * Elements(d.shape)
  }

  lemma {:induction false} ProductIsElements(shape: seq<int>)
    ensures Product(shape) == Elements(shape)
  {
    if shape == [] {
    } else {
      var init, last := shape[..|shape| - 1], shape[|shape| - 1];
      ProductIsElements(init);
      ElementsLast(init, last);
      assert shape == init + [last];
    }
  }

  lemma {:induction false} ElementsLast(s: seq<int>, n: int)
    ensures Elements(s + [n]) == Elements(s) * n
  {
    if s == [] {
      assert [n][1..] == [];
    } else {
      ElementsLast(s[1..], n);
      assert (s + [n])[1..] == s[1..] + [n];
      MulAssociative(s[0], Elements(s[1..]), n);
    }
  }

  lemma MulAssociative(a: int, b: int, c: int)
    ensures a * (b * c) == (a * b) * c
  {}

  lemma WidthExact(dtype: string)
    ensures DtypeBytes(dtype) == if Width(dtype) > 0 then Some(Width(dtype)) else None
  {}

  lemma DescriptorExact(d: Descriptor, payload: int)
    ensures DescriptorOk(d, payload) <==> exists start, end :: Describes(d, payload, start, end)
  {
    hide DtypeBytes, Width, Product, Elements;
    if d.Described? {
      WidthExact(d.dtype);
      ProductIsElements(d.shape);
      assert forall i | 0 <= i < |d.shape| :: d.shape[i] in d.shape;
      if DescriptorOk(d, payload) {
        assert d.offsets == [d.offsets[0], d.offsets[1]];
        assert Describes(d, payload, d.offsets[0], d.offsets[1]);
      }
    }
  }

  /**
   The entries of an acceptable header, and what is reported of it: the metadata is an object, every other entry
   describes a tensor, and these are reported as they are described.
   */
  lemma EntriesExact(raw: seq<(string, Descriptor)>, payload: int)
    ensures (forall i | 0 <= i < |raw| :: EntryOk(raw[i], payload)) <==>
              forall i | 0 <= i < |raw| ::
                if raw[i].0 == "__metadata__" then !raw[i].1.NotAnObject?
                else exists start, end :: Describes(raw[i].1, payload, start, end)
    ensures (forall i | 0 <= i < |raw| :: EntryOk(raw[i], payload)) ==>
              forall t :: t in Tensors(raw, payload) <==>
                t.name != "__metadata__" && (t.name, Described(t.dtype, t.shape, [t.start, t.end])) in raw
  {
    hide Describes, DescriptorOk;
    forall i | 0 <= i < |raw|
      ensures DescriptorOk(raw[i].1, payload) <==> exists start, end :: Describes(raw[i].1, payload, start, end)
    {
      DescriptorExact(raw[i].1, payload);
    }
    if forall i | 0 <= i < |raw| :: EntryOk(raw[i], payload) { TensorsReported(raw, payload); }
  }

  lemma {:induction false} TensorsReported(raw: seq<(string, Descriptor)>, payload: int)
    requires forall i | 0 <= i < |raw| :: EntryOk(raw[i], payload)
    ensures forall t :: t in Tensors(raw, payload) <==>
              t.name != "__metadata__" && (t.name, Described(t.dtype, t.shape, [t.start, t.end])) in raw
  {
    if raw == [] {
    } else {
      hide EntryOk;
      var init, last := raw[..|raw| - 1], raw[|raw| - 1];
      TensorsReported(init, payload);
      assert raw == init + [last];
      LastReported(raw, payload);
    }
  }

  lemma LastReported(raw: seq<(string, Descriptor)>, payload: int)
    requires raw != [] && forall i | 0 <= i < |raw| :: EntryOk(raw[i], payload)
    ensures var last, front := raw[|raw| - 1], Tensors(raw[..|raw| - 1], payload);
            forall t :: t in Tensors(raw, payload) <==>
              || t in front
              || (t.name != "__metadata__" && (t.name, Described(t.dtype, t.shape, [t.start, t.end])) == last)
  {
    var last := raw[|raw| - 1];
    assert EntryOk(last, payload);
    if last.0 != METADATA_NAME { assert last.1.offsets == [last.1.offsets[0], last.1.offsets[1]]; }
  }

  // ---------------------------------------------------------------------------
  // What acceptance means
  // ---------------------------------------------------------------------------

  /** How many ranges a byte belongs to. */
  function Cover(s: seq<Range>, b: int): nat {
    if s == [] then 0 else (if s[0].start <= b < s[0].end then 1 else 0) + Cover(s[1..], b)
  }

  /** No zero-length range sits strictly inside another range. */
  ghost predicate NoneInside(s: seq<Range>) {
    forall r, q | r in s && q in s && r.start == r.end :: !(q.start < r.start < q.end)
  }

  /** Every payload byte belongs to exactly one range, and zero-length ranges sit on boundaries. */
  ghost predicate Tiles(s: seq<Range>, payload: int) {
    && (forall b | 0 <= b < payload :: Cover(s, b) == 1)
    && NoneInside(s)
  }

  predicate NotAfter(a: Range, b: Range) {
    a.start < b.start || (a.start == b.start && a.end <= b.end)
  }

  ghost predicate Ordered(s: seq<Range>) {
    forall i, j | 0 <= i < j < |s| :: NotAfter(s[i], s[j])
  }

  ghost predicate From(s: seq<Range>, cursor: int) {
    forall i | 0 <= i < |s| :: cursor <= s[i].start
  }

  lemma {:induction false} NotCovered(s: seq<Range>, b: int)
    requires forall i | 0 <= i < |s| :: b < s[i].start
    ensures Cover(s, b) == 0
  {
    if s == [] {
    } else {
      NotCovered(s[1..], b);
    }
  }

  lemma {:induction false} CoveredBy(s: seq<Range>, i: nat, b: int)
    requires i < |s| && s[i].start <= b < s[i].end
    ensures Cover(s, b) >= 1
  {
    if i == 0 {
    } else {
      CoveredBy(s[1..], i - 1, b);
    }
  }

  lemma CoveredTwice(s: seq<Range>, i: nat, b: int)
    requires 0 < i < |s| && s[0].start <= b < s[0].end && s[i].start <= b < s[i].end
    ensures Cover(s, b) >= 2
  {
    CoveredBy(s[1..], i - 1, b);
  }

  /** A tiling from a cursor on. */
  ghost predicate TilesFrom(s: seq<Range>, cursor: int, payload: int) {
    && (forall b | cursor <= b < payload :: Cover(s, b) == 1)
    && NoneInside(s)
  }

  lemma {:induction false} ContiguousTiles(s: seq<Range>, cursor: int, payload: int)
    requires Ordered(s) && Within(s, payload) && Contiguous(s, cursor, payload)
    ensures TilesFrom(s, cursor, payload) && From(s, cursor) && cursor <= payload
  {
    if s == [] {
    } else {
      var head, rest := s[0], s[1..];
      assert Within(rest, payload) by { assert forall i | 0 <= i < |rest| :: rest[i] == s[i + 1]; }
      ContiguousTiles(rest, head.end, payload);
      forall b | cursor <= b < payload ensures Cover(s, b) == 1 {
        if b < head.end { NotCovered(rest, b); }
      }
      HeadOutside(s);
    }
  }

  lemma HeadOutside(s: seq<Range>)
    requires s != [] && s[0].start <= s[0].end
    requires From(s[1..], s[0].end) && NoneInside(s[1..])
    ensures NoneInside(s)
  {
    forall r, q | r in s && q in s && r.start == r.end ensures !(q.start < r.start < q.end) {
      assert r == s[0] || r in s[1..];
      assert q == s[0] || q in s[1..];
    }
  }

  lemma RestStartsAfter(s: seq<Range>, payload: int)
    requires s != [] && Ordered(s) && Within(s, payload) && NoneInside(s)
    requires forall b | s[0].start <= b < payload :: Cover(s, b) == 1
    ensures From(s[1..], s[0].end)
  {
    var head, rest := s[0], s[1..];
    forall i | 0 <= i < |rest| ensures head.end <= rest[i].start {
      var r := s[i + 1];
      assert r in s && head in s;
      if r.start < head.end && r.start < r.end {
        CoveredTwice(s, i + 1, r.start);
      }
    }
  }

  lemma {:induction false} TilesContiguous(s: seq<Range>, cursor: int, payload: int)
    requires Ordered(s) && Within(s, payload) && From(s, cursor) && cursor <= payload
    requires TilesFrom(s, cursor, payload)
    ensures Contiguous(s, cursor, payload)
  {
    if s == [] {
      assert cursor < payload ==> Cover(s, cursor) == 1;
    } else {
      var head, rest := s[0], s[1..];
      if head.start > cursor {
        NotCovered(s, cursor);
      }
      RestStartsAfter(s, payload);
      assert forall b | head.end <= b < payload :: Cover(rest, b) == Cover(s, b);
      assert forall r | r in rest :: r in s;
      TilesContiguous(rest, head.end, payload);
    }
  }

  lemma {:induction false} InsertCover(r: Range, s: seq<Range>, b: int)
    ensures Cover(Insert(Before, r, s), b) == (if r.start <= b < r.end then 1 else 0) + Cover(s, b)
  {
    hide Before;
    if s == [] {
    } else if Before(s[0], r) {
      InsertCover(r, s[1..], b);
      assert Insert(Before, r, s)[1..] == Insert(Before, r, s[1..]);
    } else {
      assert Insert(Before, r, s)[1..] == s;
    }
  }

  lemma OrderedCons(r: Range, t: seq<Range>)
    requires Ordered(t) && forall q | q in t :: NotAfter(r, q)
    ensures Ordered([r] + t)
  {
    var s := [r] + t;
    forall i, j | 0 <= i < j < |s| ensures NotAfter(s[i], s[j]) {
      assert s[j] == t[j - 1];
      if i > 0 { assert s[i] == t[i - 1]; }
    }
  }

  lemma OrderedRest(s: seq<Range>)
    requires s != [] && Ordered(s)
    ensures Ordered(s[1..]) && forall q | q in s :: NotAfter(s[0], q)
  {
    var t := s[1..];
    forall i, j | 0 <= i < j < |t| ensures NotAfter(t[i], t[j]) {
      assert t[i] == s[i + 1] && t[j] == s[j + 1];
    }
    forall q | q in s ensures NotAfter(s[0], q) {
      var j :| 0 <= j < |s| && s[j] == q;
      if j > 0 { assert NotAfter(s[0], s[j]); }
    }
  }

  lemma {:induction false} InsertOrdered(r: Range, s: seq<Range>)
    requires Ordered(s)
    ensures Ordered(Insert(Before, r, s))
  {
    hide Ordered, TextLess;
    if s == [] {
      EmptyOrdered();
      OrderedCons(r, []);
      assert [r] + [] == [r];
    } else {
      OrderedRest(s);
      if Before(s[0], r) {
        InsertOrdered(r, s[1..]);
        InsertMembers(Before, r, s[1..]);
        OrderedCons(s[0], Insert(Before, r, s[1..]));
      } else {
        OrderedCons(r, s);
      }
    }
  }

  lemma {:induction false} SortedIsOrdered(s: seq<Range>)
    ensures Ordered(Sorted(s)) && multiset(Sorted(s)) == multiset(s)
    ensures forall b :: Cover(Sorted(s), b) == Cover(s, b)
  {
    hide Insert, Ordered;
    SortIsPermutation(Before, s);
    if s == [] {
      EmptyOrdered();
    } else {
      SortedIsOrdered(s[1..]);
      InsertOrdered(s[0], Sorted(s[1..]));
      forall b ensures Cover(Sorted(s), b) == Cover(s, b) {
        InsertCover(s[0], Sorted(s[1..]), b);
      }
    }
  }

  lemma EmptyOrdered()
    ensures Ordered([])
  {}

  lemma SameElements(s: seq<Range>, t: seq<Range>, payload: int)
    requires multiset(s) == multiset(t)
    ensures Within(s, payload) ==> Within(t, payload)
    ensures NoneInside(s) ==> NoneInside(t)
  {
    assert forall r :: r in s <==> r in multiset(s);
    assert forall r :: r in t <==> r in multiset(t);
    if Within(s, payload) {
      forall i | 0 <= i < |t| ensures 0 <= t[i].start <= t[i].end <= payload {
        assert t[i] in s;
      }
    }
  }

  /** The sorted walk accepts exactly the tilings, in whatever order the descriptors came. */
  lemma TilingExact(ranges: seq<Range>, payload: int)
    requires Within(ranges, payload) && 0 <= payload
    ensures Contiguous(Sorted(ranges), 0, payload) <==> Tiles(ranges, payload)
  {
    var s := Sorted(ranges);
    SortedIsOrdered(ranges);
    SameElements(ranges, s, payload);
    SameElements(s, ranges, payload);
    if Contiguous(s, 0, payload) {
      ContiguousTiles(s, 0, payload);
    }
    if Tiles(ranges, payload) {
      TilesContiguous(s, 0, payload);
    }
  }

  function Bytes(s: seq<Range>): int {
    if s == [] then 0 else s[0].end - s[0].start + Bytes(s[1..])
  }

  lemma {:induction false} InsertBytes(r: Range, s: seq<Range>)
    ensures Bytes(Insert(Before, r, s)) == r.end - r.start + Bytes(s)
  {
    hide Before;
    if s == [] {
    } else if Before(s[0], r) {
      InsertBytes(r, s[1..]);
      assert Insert(Before, r, s)[1..] == Insert(Before, r, s[1..]);
    } else {
      assert Insert(Before, r, s)[1..] == s;
    }
  }

  lemma {:induction false} SortedBytes(s: seq<Range>)
    ensures Bytes(Sorted(s)) == Bytes(s)
  {
    if s == [] {
    } else {
      SortedBytes(s[1..]);
      InsertBytes(s[0], Sorted(s[1..]));
    }
  }

  lemma {:induction false} ContiguousBytes(s: seq<Range>, cursor: int, payload: int)
    requires Contiguous(s, cursor, payload)
    ensures Bytes(s) == payload - cursor
  {
    if s == [] {
    } else {
      ContiguousBytes(s[1..], s[0].end, payload);
    }
  }

  /** A tiling accounts for every payload byte. */
  lemma TilingSums(ranges: seq<Range>, payload: int)
    requires Within(ranges, payload) && 0 <= payload && Tiles(ranges, payload)
    ensures Bytes(ranges) == payload
  {
    TilingExact(ranges, payload);
    ContiguousBytes(Sorted(ranges), 0, payload);
    SortedBytes(ranges);
  }

  /**
   Covering every byte exactly once is not enough: a zero-length tensor stored strictly inside
   another one leaves the cover exact, yet the walk rejects it.
   */
  lemma CoverAloneIsNotEnough()
    ensures var ranges := [Range(0, 4, "a"), Range(2, 2, "b")];
            && Within(ranges, 4) && (forall b | 0 <= b < 4 :: Cover(ranges, b) == 1)
            && !Contiguous(Sorted(ranges), 0, 4)
  {
    var a, b := Range(0, 4, "a"), Range(2, 2, "b");
    var ranges := [a, b];
    assert ranges[1..] == [b] && [b][1..] == [];
    forall x | 0 <= x < 4 ensures Cover(ranges, x) == 1 {
      assert Cover([b], x) == 0;
    }
    SortTwo(Before, a, b);
    assert Sorted(ranges) == [a, b];
  }
}
