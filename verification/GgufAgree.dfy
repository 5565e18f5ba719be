/**
 What the three readers of module Gguf promise of each other: a header read from a prefix is the header of
 every longer file, and where their domains meet they read the same things at the same positions.
 */
module GgufAgree {
  import opened Wrappers
  import opened Octets
  import opened Gguf

  // ---------------------------------------------------------------------------
  // A reader looks at nothing behind the position it stops at
  // ---------------------------------------------------------------------------

  /** Two files with the same first p bytes. */
  ghost predicate Same(a: bytes, b: bytes, p: nat) {
    p <= |a| && p <= |b| && a[..p] == b[..p]
  }

  lemma SameLess(a: bytes, b: bytes, p: nat, q: nat)
    requires Same(a, b, p) && q <= p
    ensures Same(a, b, q)
  {
    assert a[..q] == a[..p][..q] && b[..q] == b[..p][..q];
  }

  lemma TakeLocal(a: bytes, b: bytes, pos: nat, n: nat)
    requires Same(a, b, pos + n)
    ensures Take(a, pos, n) == Take(b, pos, n)
  {
    var p := pos + n;
    assert a[pos..p] == a[..p][pos..] && b[pos..p] == b[..p][pos..];
  }

  lemma NumberLocal(a: bytes, b: bytes, pos: nat, width: nat)
    requires Same(a, b, pos + width)
    ensures Number(a, pos, width) == Number(b, pos, width)
  {
    TakeLocal(a, b, pos, width);
  }

  lemma TextLocal(u: Utf8, strict: bool, a: bytes, b: bytes, pos: nat)
    requires Text(u, strict, a, pos).Some? && Same(a, b, Text(u, strict, a, pos).value.pos)
    ensures Text(u, strict, b, pos) == Text(u, strict, a, pos)
  {
    hide Same, Take, Number;
    var p := Text(u, strict, a, pos).value.pos;
    SameLess(a, b, p, pos + 8);
    NumberLocal(a, b, pos, 8);
    TakeLocal(a, b, pos + 8, Number(a, pos, 8).value.item);
  }

  lemma {:induction false} NumbersLocal(a: bytes, b: bytes, pos: nat, n: nat)
    requires Numbers(a, pos, n).Some? && Same(a, b, Numbers(a, pos, n).value.pos)
    ensures Numbers(b, pos, n) == Numbers(a, pos, n)
    decreases n
  {
    hide Same, Number;
    if n == 0 {
    } else {
      SameLess(a, b, Numbers(a, pos, n).value.pos, pos + 8);
      NumberLocal(a, b, pos, 8);
      NumbersLocal(a, b, pos + 8, n - 1);
    }
  }

  lemma DescriptorLocal(u: Utf8, strict: bool, a: bytes, b: bytes, pos: nat)
    requires Descriptor(u, strict, a, pos).Some? && Same(a, b, Descriptor(u, strict, a, pos).value.pos)
    ensures Descriptor(u, strict, b, pos) == Descriptor(u, strict, a, pos)
  {
    hide Same, Number, Numbers, Text;
    var p := Descriptor(u, strict, a, pos).value.pos;
    var name := Text(u, strict, a, pos).value;
    var rank := Number(a, name.pos, 4).value;
    var shape := Numbers(a, rank.pos, rank.item).value;
    SameLess(a, b, p, name.pos);
    SameLess(a, b, p, rank.pos);
    SameLess(a, b, p, shape.pos);
    SameLess(a, b, p, shape.pos + 4);
    TextLocal(u, strict, a, b, pos);
    NumberLocal(a, b, name.pos, 4);
    NumbersLocal(a, b, rank.pos, rank.item);
    NumberLocal(a, b, shape.pos, 4);
    NumberLocal(a, b, shape.pos + 4, 8);
  }

  lemma {:induction false} DescriptorsLocal(u: Utf8, strict: bool, a: bytes, b: bytes, pos: nat, n: nat)
    requires Descriptors(u, strict, a, pos, n).Some? && Same(a, b, Descriptors(u, strict, a, pos, n).value.pos)
    ensures Descriptors(u, strict, b, pos, n) == Descriptors(u, strict, a, pos, n)
    decreases n
  {
    hide Same, Descriptor;
    if n == 0 {
    } else {
      var first := Descriptor(u, strict, a, pos).value;
      SameLess(a, b, Descriptors(u, strict, a, pos, n).value.pos, first.pos);
      DescriptorLocal(u, strict, a, b, pos);
      DescriptorsLocal(u, strict, a, b, first.pos, n - 1);
    }
  }

  lemma {:induction false} ValueLocal(u: Utf8, a: bytes, b: bytes, pos: nat, kind: nat)
    requires FullValue(u, a, pos, kind).Some? && Same(a, b, FullValue(u, a, pos, kind).value.pos)
    ensures FullValue(u, b, pos, kind) == FullValue(u, a, pos, kind)
    decreases |a| - pos, 0
  {
    hide Same, Number, Take, Text, FullItems;
    var p := FullValue(u, a, pos, kind).value.pos;
    if ScalarSize(kind) > 0 {
      TakeLocal(a, b, pos, ScalarSize(kind));
    } else if kind == STRING {
      TextLocal(u, true, a, b, pos);
    } else {
      var of, count := Number(a, pos, 4).value, Number(a, pos + 4, 8).value;
      SameLess(a, b, p, pos + 4);
      SameLess(a, b, p, pos + 12);
      NumberLocal(a, b, pos, 4);
      NumberLocal(a, b, pos + 4, 8);
      ItemsLocal(u, a, b, pos + 12, of.item, count.item);
    }
  }

  lemma {:induction false} ItemsLocal(u: Utf8, a: bytes, b: bytes, pos: nat, kind: nat, n: nat)
    requires FullItems(u, a, pos, kind, n).Some? && Same(a, b, FullItems(u, a, pos, kind, n).value.pos)
    ensures FullItems(u, b, pos, kind, n) == FullItems(u, a, pos, kind, n)
    decreases |a| - pos, 1
  {
    hide Same, FullValue;
    if n == 0 {
    } else {
      var first := FullValue(u, a, pos, kind).value;
      SameLess(a, b, FullItems(u, a, pos, kind, n).value.pos, first.pos);
      ValueLocal(u, a, b, pos, kind);
      ItemsLocal(u, a, b, first.pos, kind, n - 1);
    }
  }

  lemma {:induction false} PairsLocal(u: Utf8, a: bytes, b: bytes, pos: nat, n: nat)
    requires FullPairs(u, a, pos, n).Some? && Same(a, b, FullPairs(u, a, pos, n).value.pos)
    ensures FullPairs(u, b, pos, n) == FullPairs(u, a, pos, n)
    decreases n
  {
    hide Same, FullValue, Number, Text;
    if n == 0 {
    } else {
      var p := FullPairs(u, a, pos, n).value.pos;
      var key := Text(u, true, a, pos).value;
      var kind := Number(a, key.pos, 4).value;
      var value := FullValue(u, a, kind.pos, kind.item).value;
      SameLess(a, b, p, key.pos);
      SameLess(a, b, p, kind.pos);
      SameLess(a, b, p, value.pos);
      TextLocal(u, true, a, b, pos);
      NumberLocal(a, b, key.pos, 4);
      ValueLocal(u, a, b, kind.pos, kind.item);
      PairsLocal(u, a, b, value.pos, n - 1);
    }
  }

  lemma PreambleLocal(a: bytes, b: bytes)
    requires ReadPreamble(a).Some? && Same(a, b, 24)
    ensures ReadPreamble(b) == ReadPreamble(a)
  {
    hide Same, Number, Take;
    SameLess(a, b, 24, 4);
    SameLess(a, b, 24, 8);
    SameLess(a, b, 24, 16);
    TakeLocal(a, b, 0, 4);
    NumberLocal(a, b, 4, 4);
    NumberLocal(a, b, 8, 8);
    NumberLocal(a, b, 16, 8);
  }

  lemma HeaderLocal(u: Utf8, a: bytes, b: bytes)
    requires FullHeader(u, a).Some? && Same(a, b, FullHeader(u, a).value.headerBytes)
    ensures FullHeader(u, b) == FullHeader(u, a)
  {
    hide Same, ReadPreamble, FullPairs, Descriptors;
    var start := ReadPreamble(a).value;
    var pairs := FullPairs(u, a, start.pos, start.item.entries).value;
    var p := FullHeader(u, a).value.headerBytes;
    SameLess(a, b, p, 24);
    SameLess(a, b, p, pairs.pos);
    PreambleLocal(a, b);
    PairsLocal(u, a, b, start.pos, start.item.entries);
    DescriptorsLocal(u, true, a, b, pairs.pos, start.item.tensors);
  }

  lemma HeaderInside(u: Utf8, a: bytes)
    requires FullHeader(u, a).Some?
    ensures 24 <= FullHeader(u, a).value.headerBytes <= |a|
  {
    hide ReadPreamble, FullPairs, Descriptors;
  }

  /**
   The header is exactly its first headerBytes bytes: every file that starts with them has this header,
   whatever follows, and no shorter prefix has any.
   */
  lemma PrefixExact(u: Utf8, data: bytes, other: bytes, n: nat)
    requires FullHeader(u, data).Some? && n <= |data|
    ensures FullHeader(u, data + other) == FullHeader(u, data)
    ensures FullHeader(u, data[..n]) == if n >= FullHeader(u, data).value.headerBytes then FullHeader(u, data) else None
  {
    hide FullHeader;
    HeaderInside(u, data);
    var p := FullHeader(u, data).value.headerBytes;
    assert (data + other)[..p] == data[..p];
    HeaderLocal(u, data, data + other);
    if n >= p {
      assert data[..n][..p] == data[..p];
      HeaderLocal(u, data, data[..n]);
    } else if FullHeader(u, data[..n]).Some? {
      HeaderInside(u, data[..n]);
      var q := FullHeader(u, data[..n]).value.headerBytes;
      assert data[..n][..q] == data[..q];
      HeaderLocal(u, data[..n], data);
    }
  }

  // ---------------------------------------------------------------------------
  // The skipping reader
  // ---------------------------------------------------------------------------

  /** What the skipping reader keeps of a value the full reader decodes. */
  function CardOf(v: Value): Card {
    match v
    case Scalar(kind, raw) => if kind in {4, 5, 6, 7} then Shown(kind, raw) else Omitted
    case Str(text) => CardText(text)
    case Array(_, items) => ArrayOf(|items|)
  }

  /** An array of arrays with something in it. */
  predicate Nested(v: Value) {
    v.Array? && v.kind == ARRAY && v.items != []
  }

  lemma {:induction false} ScalarItems(u: Utf8, data: bytes, pos: nat, kind: nat, n: nat)
    requires ScalarSize(kind) > 0 && FullItems(u, data, pos, kind, n).Some?
    ensures FullItems(u, data, pos, kind, n).value.pos == pos + ScalarSize(kind) * n
    decreases n
  {
    if n == 0 {
    } else {
      ScalarItems(u, data, pos + ScalarSize(kind), kind, n - 1);
      assert ScalarSize(kind) * n == ScalarSize(kind) + ScalarSize(kind) * (n - 1);
    }
  }

  lemma {:induction false} TextItems(u: Utf8, data: bytes, pos: nat, n: nat)
    requires FullItems(u, data, pos, STRING, n).Some?
    ensures SkipTexts(data, pos, n) == Some(FullItems(u, data, pos, STRING, n).value.pos)
    decreases n
  {
    if n == 0 {
    } else {
      var first := FullValue(u, data, pos, STRING).value;
      assert RawText(data, pos).value.pos == first.pos;
      TextItems(u, data, first.pos, n - 1);
    }
  }

  /** It keeps what CardOf says, and stops where the full reader stops unless it met a non-empty array of arrays. */
  lemma SkipExact(u: Utf8, data: bytes, pos: nat, kind: nat)
    requires u.Faithful() && FullValue(u, data, pos, kind).Some?
    ensures CardValue(u, data, pos, kind).Some?
    ensures var full, card := FullValue(u, data, pos, kind).value, CardValue(u, data, pos, kind).value;
            card.item == CardOf(full.item) && (card.pos == full.pos <==> !Nested(full.item))
  {
    if kind == ARRAY {
      SkipArray(u, data, pos);
    } else if kind == STRING {
      TextAgrees(u, data, pos);
    }
  }

  lemma SkipArray(u: Utf8, data: bytes, pos: nat)
    requires FullValue(u, data, pos, ARRAY).Some?
    ensures CardValue(u, data, pos, ARRAY).Some?
    ensures var full, card := FullValue(u, data, pos, ARRAY).value, CardValue(u, data, pos, ARRAY).value;
            card.item == CardOf(full.item) && (card.pos == full.pos <==> !Nested(full.item))
  {
    hide FullItems, SkipTexts, Number, Take;
    var of, count := Number(data, pos, 4).value.item, Number(data, pos + 4, 8).value.item;
    if ScalarSize(of) > 0 {
      ScalarItems(u, data, pos + 12, of, count);
      ItemsInside(u, data, pos + 12, of, count);
    } else if of == STRING {
      TextItems(u, data, pos + 12, count);
    } else {
      OtherItems(u, data, pos + 12, of, count);
    }
  }

  lemma ItemsInside(u: Utf8, data: bytes, pos: nat, kind: nat, n: nat)
    requires FullItems(u, data, pos, kind, n).Some? && pos <= |data|
    ensures FullItems(u, data, pos, kind, n).value.pos <= |data|
  {}

  lemma OtherItems(u: Utf8, data: bytes, pos: nat, kind: nat, n: nat)
    requires FullItems(u, data, pos, kind, n).Some? && ScalarSize(kind) == 0 && kind != STRING
    ensures n > 0 ==> kind == ARRAY && FullItems(u, data, pos, kind, n).value.pos > pos
    ensures n == 0 ==> FullItems(u, data, pos, kind, n).value == Read([], pos)
  {}

  lemma TextAgrees(u: Utf8, data: bytes, pos: nat)
    requires u.Faithful() && Text(u, true, data, pos).Some?
    ensures Text(u, false, data, pos) == Text(u, true, data, pos)
  {}

  lemma {:induction false} DescriptorsAgree(u: Utf8, data: bytes, pos: nat, n: nat)
    requires u.Faithful() && Descriptors(u, true, data, pos, n).Some?
    ensures Descriptors(u, false, data, pos, n) == Descriptors(u, true, data, pos, n)
    decreases n
  {
    hide Text, Number, Numbers, u.Faithful;
    if n == 0 {
    } else {
      TextAgrees(u, data, pos);
      DescriptorsAgree(u, data, Descriptor(u, true, data, pos).value.pos, n - 1);
    }
  }

  function CardPairsOf(pairs: seq<Pair<Value>>): seq<Pair<Card>> {
    seq(|pairs|, i requires 0 <= i < |pairs| => Pair(pairs[i].key, CardOf(pairs[i].value)))
  }

  predicate NoneNested(pairs: seq<Pair<Value>>) {
    forall i | 0 <= i < |pairs| :: !Nested(pairs[i].value)
  }

  /** One entry, read by both. */
  lemma PairAgrees(u: Utf8, data: bytes, pos: nat, n: nat) returns (next: nat, first: Pair<Value>)
    requires u.Faithful() && n > 0 && FullPairs(u, data, pos, n).Some?
    ensures pos < next && FullPairs(u, data, next, n - 1).Some?
    ensures forall m | 0 < m <= n :: FullPairs(u, data, pos, m) == Joined([first], FullPairs(u, data, next, m - 1))
    ensures !Nested(first.value) ==>
              forall m | 0 < m <= n ::
                CardPairs(u, data, pos, m)
                == Joined([Pair(first.key, CardOf(first.value))], CardPairs(u, data, next, m - 1))
    ensures FullPairs(u, data, pos, 1) == Some(Read([first], next))
    ensures Nested(first.value) ==> CardPairs(u, data, pos, 1).Some? && CardPairs(u, data, pos, 1).value.pos != next
  {
    hide Text, Number, FullValue, CardValue, u.Faithful, Nested, CardOf;
    var key := Text(u, true, data, pos).value;
    var kind := Number(data, key.pos, 4).value;
    var value := FullValue(u, data, kind.pos, kind.item).value;
    TextAgrees(u, data, pos);
    SkipExact(u, data, kind.pos, kind.item);
    next, first := value.pos, Pair(key.item, value.item);
    assert FullPairs(u, data, next, 0) == Some(Read([], next));
    var none: seq<Pair<Value>> := [];
    assert [first] + none == [first];
    assert FullPairs(u, data, pos, 1) == Joined([first], FullPairs(u, data, next, 1 - 1));
    var card := CardValue(u, data, kind.pos, kind.item).value;
    assert CardPairs(u, data, card.pos, 0) == Some(Read([], card.pos));
  }

  /** Without non-empty arrays of arrays the skipping reader reads every entry, and the same ones. */
  lemma {:induction false} CardPairsAgree(u: Utf8, data: bytes, pos: nat, n: nat)
    requires u.Faithful() && FullPairs(u, data, pos, n).Some? && NoneNested(FullPairs(u, data, pos, n).value.item)
    ensures CardPairs(u, data, pos, n).Some?
    ensures CardPairs(u, data, pos, n).value.pos == FullPairs(u, data, pos, n).value.pos
    ensures CardPairs(u, data, pos, n).value.item == CardPairsOf(FullPairs(u, data, pos, n).value.item)
    decreases n
  {
    hide u.Faithful, CardPairsOf, NoneNested;
    if n == 0 {
      assert FullPairs(u, data, pos, n).value.item == [];
      NoPairs();
    } else {
      hide FullPairs, CardPairs, CardOf, Nested;
      var next, first := PairAgrees(u, data, pos, n);
      assert FullPairs(u, data, pos, n) == Joined([first], FullPairs(u, data, next, n - 1));
      JoinPairs(first, FullPairs(u, data, next, n - 1).value.item);
      CardPairsAgree(u, data, next, n - 1);
      assert CardPairs(u, data, pos, n)
          == Joined([Pair(first.key, CardOf(first.value))], CardPairs(u, data, next, n - 1));
    }
  }

  lemma NoPairs()
    ensures NoneNested([]) && CardPairsOf([]) == []
  {}

  lemma JoinPairs(first: Pair<Value>, rest: seq<Pair<Value>>)
    ensures NoneNested([first] + rest) <==> !Nested(first.value) && NoneNested(rest)
    ensures CardPairsOf([first] + rest) == [Pair(first.key, CardOf(first.value))] + CardPairsOf(rest)
  {
    hide NoneNested, CardPairsOf;
    JoinNested(first, rest);
    JoinCards(first, rest);
  }

  lemma JoinNested(first: Pair<Value>, rest: seq<Pair<Value>>)
    ensures NoneNested([first] + rest) <==> !Nested(first.value) && NoneNested(rest)
  {
    hide Nested;
    var all := [first] + rest;
    assert all[0] == first;
    if NoneNested(all) {
      forall i | 0 <= i < |rest| ensures !Nested(rest[i].value) { assert rest[i] == all[i + 1]; }
    }
  }

  lemma JoinCards(first: Pair<Value>, rest: seq<Pair<Value>>)
    ensures CardPairsOf([first] + rest) == [Pair(first.key, CardOf(first.value))] + CardPairsOf(rest)
  {
    hide CardOf;
    var x, y := CardPairsOf([first] + rest), [Pair(first.key, CardOf(first.value))] + CardPairsOf(rest);
    assert |x| == |y|;
    forall i | 0 <= i < |x| ensures x[i] == y[i] {}
  }

  /** The positions behind the first m entries. */
  ghost predicate SameStop(u: Utf8, data: bytes, pos: nat, m: nat) {
    && FullPairs(u, data, pos, m).Some?
    && CardPairs(u, data, pos, m).Some?
    && CardPairs(u, data, pos, m).value.pos == FullPairs(u, data, pos, m).value.pos
  }

  /** The two readers stop at the same place after every entry exactly when no entry is a non-empty array of arrays. */
  lemma {:induction false} StopsExact(u: Utf8, data: bytes, pos: nat, n: nat)
    requires u.Faithful() && FullPairs(u, data, pos, n).Some?
    ensures (forall m | 0 <= m <= n :: SameStop(u, data, pos, m)) <==> NoneNested(FullPairs(u, data, pos, n).value.item)
    decreases n
  {
    hide u.Faithful, CardOf, Nested, CardPairsOf, NoneNested;
    assert SameStop(u, data, pos, 0);
    if n == 0 {
      assert FullPairs(u, data, pos, 0).value.item == [];
      NoPairs();
    } else {
      hide FullPairs, CardPairs;
      var next, first := PairAgrees(u, data, pos, n);
      assert FullPairs(u, data, pos, n) == Joined([first], FullPairs(u, data, next, n - 1));
      JoinPairs(first, FullPairs(u, data, next, n - 1).value.item);
      StopsExact(u, data, next, n - 1);
      if Nested(first.value) {
        assert !SameStop(u, data, pos, 1);
      } else {
        forall m | 0 < m <= n ensures SameStop(u, data, pos, m) <==> SameStop(u, data, next, m - 1) {
          assert FullPairs(u, data, pos, m) == Joined([first], FullPairs(u, data, next, m - 1));
          assert CardPairs(u, data, pos, m)
              == Joined([Pair(first.key, CardOf(first.value))], CardPairs(u, data, next, m - 1));
        }
        ShiftStops(u, data, pos, next, n);
      }
    }
  }

  lemma ShiftStops(u: Utf8, data: bytes, pos: nat, next: nat, n: nat)
    requires n > 0 && SameStop(u, data, pos, 0)
    requires forall m | 0 < m <= n :: SameStop(u, data, pos, m) <==> SameStop(u, data, next, m - 1)
    ensures (forall m | 0 <= m <= n :: SameStop(u, data, pos, m))
        <==> (forall m | 0 <= m <= n - 1 :: SameStop(u, data, next, m))
  {
    hide SameStop;
    if forall m | 0 <= m <= n :: SameStop(u, data, pos, m) {
      forall m | 0 <= m <= n - 1 ensures SameStop(u, data, next, m) {
        assert SameStop(u, data, pos, m + 1);
        assert (m + 1) - 1 == m;
      }
    }
  }

  lemma {:induction false} DictOfCards(pairs: seq<Pair<Value>>)
    ensures Dict(CardPairsOf(pairs)).Keys == Dict(pairs).Keys
    ensures forall k | k in Dict(pairs) :: Dict(CardPairsOf(pairs))[k] == CardOf(Dict(pairs)[k])
  {
    if pairs == [] {
    } else {
      var init := pairs[..|pairs| - 1];
      DictOfCards(init);
      assert CardPairsOf(pairs)[..|pairs| - 1] == CardPairsOf(init);
    }
  }

  /** The metadata entries of a file, in file order. */
  function EntriesOf(u: Utf8, data: bytes): seq<Pair<Value>> {
    var start := ReadPreamble(data);
    if start.None? then []
    else
      var pairs := FullPairs(u, data, start.value.pos, start.value.item.entries);
      if pairs.None? then [] else pairs.value.item
  }

  /** On every file the full reader accepts, barring non-empty arrays of arrays, the skipping reader says the same. */
  lemma SkippingAgrees(u: Utf8, data: bytes)
    requires u.Faithful() && FullHeader(u, data).Some? && NoneNested(EntriesOf(u, data))
    ensures SkippingHeader(u, data).Some?
    ensures var full, card := FullHeader(u, data).value, SkippingHeader(u, data).value;
            && card.version == 3 && card.tensorCount == full.tensorCount && card.end == full.headerBytes
            && card.tensors == WithoutOffsets(full.tensors)
            && card.meta.Keys == full.metadata.Keys
            && forall k | k in full.metadata :: card.meta[k] == CardOf(full.metadata[k])
  {
    hide u.Faithful, ReadPreamble, FullPairs, CardPairs, Descriptors, NoneNested, Dict, WithoutOffsets, CardOf,
         CardPairsOf, AsEntries;
    var start := ReadPreamble(data).value;
    var pairs := FullPairs(u, data, start.pos, start.item.entries).value;
    CardPairsAgree(u, data, start.pos, start.item.entries);
    DescriptorsAgree(u, data, pairs.pos, start.item.tensors);
    DictOfCards(pairs.item);
  }

  // ---------------------------------------------------------------------------
  // The manifest reader
  // ---------------------------------------------------------------------------

  /** Not an array of arrays, nor of an unknown kind. */
  predicate Flat(v: Value) {
    v.Array? ==> v.kind <= 12 && v.kind != ARRAY
  }

  predicate AllFlat(pairs: seq<Pair<Value>>) {
    forall i | 0 <= i < |pairs| :: Flat(pairs[i].value)
  }

  lemma {:induction false} FlatItemsSame(u: Utf8, data: bytes, pos: nat, kind: nat, n: nat)
    requires kind != ARRAY
    ensures FlatItems(u, data, pos, kind, n) == FullItems(u, data, pos, kind, n)
    decreases n
  {
    if n == 0 {
    } else {
      var first := FullValue(u, data, pos, kind);
      assert FlatValue(u, data, pos, kind) == first;
      if first.Some? { FlatItemsSame(u, data, first.value.pos, kind, n - 1); }
    }
  }

  /** The manifest reader reads exactly the flat values, and reads them the same. */
  lemma FlatExact(u: Utf8, data: bytes, pos: nat, kind: nat)
    ensures var full := FullValue(u, data, pos, kind);
            FlatValue(u, data, pos, kind) == if full.Some? && Flat(full.value.item) then full else None
  {
    hide FullItems, FlatItems, Number, Text, Take;
    if kind == ARRAY && pos + 12 <= |data| {
      var of, count := Number(data, pos, 4).value.item, Number(data, pos + 4, 8).value.item;
      if of != ARRAY { FlatItemsSame(u, data, pos + 12, of, count); }
    }
  }

  lemma {:induction false} FlatPairsExact(u: Utf8, data: bytes, pos: nat, n: nat)
    ensures var full := FullPairs(u, data, pos, n);
            FlatPairs(u, data, pos, n) == if full.Some? && AllFlat(full.value.item) then full else None
    decreases n
  {
    hide Text, Number, FullValue, FlatValue, Flat;
    if n == 0 {
    } else {
      var key := Text(u, true, data, pos);
      if key.Some? && Number(data, key.value.pos, 4).Some? {
        var kind := Number(data, key.value.pos, 4).value;
        FlatExact(u, data, kind.pos, kind.item);
        var value := FullValue(u, data, kind.pos, kind.item);
        if value.Some? {
          FlatPairsExact(u, data, value.value.pos, n - 1);
          AllFlatStep(Pair(key.value.item, value.value.item), FullPairs(u, data, value.value.pos, n - 1));
        }
      }
    }
  }

  lemma AllFlatStep(first: Pair<Value>, rest: Option<Read<seq<Pair<Value>>>>)
    ensures rest.Some? ==> (AllFlat([first] + rest.value.item) <==> Flat(first.value) && AllFlat(rest.value.item))
  {
    hide Flat;
    if rest.Some? {
      var all := [first] + rest.value.item;
      assert all[0] == first && forall i | 0 <= i < |rest.value.item| :: all[i + 1] == rest.value.item[i];
    }
  }

  /**
   On version 3 the manifest reader accepts exactly the files the full reader accepts whose arrays are all
   flat; it then has the same tensors, stops at the same byte, and its metadata is the file's on top of its own entry.
   */
  lemma ManifestExact(u: Utf8, data: bytes)
    requires ReadPreamble(data).Some? && ReadPreamble(data).value.item.version == 3
    ensures var full := FullHeader(u, data);
            ReadManifest(u, data)
            == if full.Some? && AllFlat(EntriesOf(u, data))
               then Some(ManifestRead(map[VERSION_KEY := VersionEntry(3)] + full.value.metadata,
                                      full.value.tensors, full.value.headerBytes))
               else None
  {
    hide ReadPreamble, FullPairs, FlatPairs, Descriptors, AllFlat, Dict, AsEntries, VERSION_KEY, VersionEntry;
    var start := ReadPreamble(data).value;
    FlatPairsExact(u, data, start.pos, start.item.entries);
  }

  /** A file the manifest reader accepts never derails the skipping reader. */
  lemma ManifestThenSkip(u: Utf8, data: bytes)
    requires u.Faithful() && ReadManifest(u, data).Some? && ReadPreamble(data).value.item.version == 3
    ensures SkippingHeader(u, data).Some?
    ensures SkippingHeader(u, data).value.end == ReadManifest(u, data).value.end
    ensures SkippingHeader(u, data).value.tensors == WithoutOffsets(ReadManifest(u, data).value.tensors)
  {
    hide u.Faithful, SkippingHeader, WithoutOffsets, EntriesOf;
    ManifestExact(u, data);
    SkippingAgrees(u, data);
  }

  // ---------------------------------------------------------------------------
  // Smallest files
  // ---------------------------------------------------------------------------

  /** A small number in little-endian order. */
  function Small(n: byte, width: nat): (r: bytes)
    requires width > 0
    ensures |r| == width
  {
    [n] + Zeros(width - 1)
  }

  lemma LittleSmall(n: byte, width: nat)
    requires width > 0
    ensures LittleEndian(Small(n, width)) == n
  {
    assert Small(n, width)[1..] == Zeros(width - 1);
    LittleZeros(width - 1);
  }

  lemma {:induction false} LittleZeros(n: nat)
    ensures LittleEndian(Zeros(n)) == 0
  {
    if n == 0 {
    } else {
      assert Zeros(n)[1..] == Zeros(n - 1);
      LittleZeros(n - 1);
    }
  }

  lemma NumberAt(data: bytes, pos: nat, n: byte, width: nat)
    requires width > 0 && pos + width <= |data| && data[pos..pos + width] == Small(n, width)
    ensures Number(data, pos, width) == Some(Read(n, pos + width))
  {
    LittleSmall(n, width);
  }

  /** The preamble of a version 3 file without tensors. */
  function Start(entries: byte): (r: bytes)
    ensures |r| == 24
  {
    MAGIC + Small(3, 4) + Small(0, 8) + Small(entries, 8)
  }

  lemma StartRead(data: bytes, entries: byte)
    requires |data| >= 24 && data[..24] == Start(entries)
    ensures ReadPreamble(data) == Some(Read(Preamble(3, 0, entries), 24))
  {
    hide Small;
    var s := data[..24];
    assert data[0..4] == s[0..4] == MAGIC;
    assert data[4..8] == s[4..8] == Small(3, 4);
    assert data[8..16] == s[8..16] == Small(0, 8);
    assert data[16..24] == s[16..24] == Small(entries, 8);
    NumberAt(data, 4, 3, 4);
    NumberAt(data, 8, 0, 8);
    NumberAt(data, 16, entries, 8);
  }

  /** The smallest file with a header: no entry, no tensor. */
  lemma SmallestHeader(u: Utf8)
    ensures FullHeader(u, Start(0)) == Some(Header(0, 0, 24, map[], [], []))
  {
    hide ReadPreamble;
    assert Start(0)[..24] == Start(0);
    StartRead(Start(0), 0);
    assert AsEntries([]) == [];
  }

  /** One entry with an empty key: an array that holds one empty array. */
  const NESTED: bytes :=
    Start(1) + (Small(0, 8) + Small(9, 4)) + (Small(9, 4) + Small(1, 8)) + (Small(0, 4) + Small(0, 8))

  lemma NestedNumbers()
    ensures |NESTED| == 60 && NESTED[..24] == Start(1)
    ensures Number(NESTED, 24, 8) == Some(Read(0, 32)) && Number(NESTED, 32, 4) == Some(Read(ARRAY, 36))
    ensures Number(NESTED, 36, 4) == Some(Read(ARRAY, 40)) && Number(NESTED, 40, 8) == Some(Read(1, 48))
    ensures Number(NESTED, 48, 4) == Some(Read(0, 52)) && Number(NESTED, 52, 8) == Some(Read(0, 60))
  {
    hide Small, Start, Number;
    assert NESTED[24..32] == Small(0, 8) && NESTED[32..36] == Small(9, 4);
    assert NESTED[36..40] == Small(9, 4) && NESTED[40..48] == Small(1, 8);
    assert NESTED[48..52] == Small(0, 4) && NESTED[52..60] == Small(0, 8);
    NumberAt(NESTED, 24, 0, 8);
    NumberAt(NESTED, 32, 9, 4);
    NumberAt(NESTED, 36, 9, 4);
    NumberAt(NESTED, 40, 1, 8);
    NumberAt(NESTED, 48, 0, 4);
    NumberAt(NESTED, 52, 0, 8);
  }

  /**
   The arrays of arrays are no idle exception: a file of 60 bytes the full reader reads to its end, while the
   skipping reader stops at the header of the inner array, twelve bytes short.
   */
  lemma NestedArrayStops(u: Utf8)
    requires u.Faithful() && u.valid([])
    ensures FullHeader(u, NESTED).Some? && FullHeader(u, NESTED).value.headerBytes == |NESTED| == 60
    ensures EntriesOf(u, NESTED) == [Pair([], Array(ARRAY, [Array(0, [])]))]
    ensures SkippingHeader(u, NESTED).Some? && SkippingHeader(u, NESTED).value.end == 48
  {
    hide Number, NESTED, ReadPreamble, Dict, AsEntries;
    NestedNumbers();
    StartRead(NESTED, 1);
    NestedValue(u);
    NestedKey(u);
    assert FullPairs(u, NESTED, 60, 0) == Some(Read([], 60));
    assert CardPairs(u, NESTED, 48, 0) == Some(Read([], 48));
    var full, card := [Pair([], Array(ARRAY, [Array(0, [])]))], [Pair([], ArrayOf(1))];
    assert full + [] == full && card + [] == card;
    assert FullPairs(u, NESTED, 24, 1) == Some(Read(full, 60));
    assert CardPairs(u, NESTED, 24, 1) == Some(Read(card, 48));
  }

  lemma NestedKey(u: Utf8)
    requires u.Faithful() && u.valid([])
    ensures Text(u, true, NESTED, 24) == Some(Read([], 32)) == Text(u, false, NESTED, 24)
  {
    hide Number, NESTED;
    NestedNumbers();
    assert NESTED[32..32] == [];
    assert u.lossy([]) == [];
  }

  lemma NestedValue(u: Utf8)
    ensures FullValue(u, NESTED, 36, ARRAY) == Some(Read(Array(ARRAY, [Array(0, [])]), 60))
    ensures CardValue(u, NESTED, 36, ARRAY) == Some(Read(ArrayOf(1), 48))
  {
    hide Number, NESTED;
    NestedNumbers();
    assert FullItems(u, NESTED, 60, 0, 0) == Some(Read([], 60));
    assert FullValue(u, NESTED, 48, ARRAY) == Some(Read(Array(0, []), 60));
    assert FullItems(u, NESTED, 60, ARRAY, 0) == Some(Read([], 60));
    var inner := [Array(0, [])];
    assert inner + [] == inner;
    assert FullItems(u, NESTED, 48, ARRAY, 1) == Some(Read([Array(0, [])], 60));
  }
}
