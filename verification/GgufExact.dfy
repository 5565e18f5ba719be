/** What the full GGUF reader accepts: exactly the files that are written from entries and tensors. */
module GgufExact {
  import opened Wrappers
  import opened Octets
  import opened Manifest
  import opened Gguf
  import opened GgufAgree
  import opened GgufRoundTrip

  // ---------------------------------------------------------------------------
  // What has been read stands there
  // ---------------------------------------------------------------------------

  lemma {:induction false} LittleEndianBack(s: bytes)
    ensures LittleEndian(s) < Pow256(|s|) && LittleEndianBytes(LittleEndian(s), |s|) == s
  {
    LittleEndianBound(s);
    if s == [] {
    } else {
      LittleEndianBack(s[1..]);
      var n := LittleEndian(s);
      DivModUnique(n, 256, LittleEndian(s[1..]), s[0]);
    }
  }

  lemma StandsJoin(data: bytes, pos: nat, x: bytes, y: bytes)
    requires Stands(data, pos, x) && Stands(data, pos + |x|, y)
    ensures Stands(data, pos, x + y)
  {
    assert data[pos..pos + |x + y|] == data[pos..pos + |x|] + data[pos + |x|..pos + |x| + |y|];
  }

  lemma NumberWritten(data: bytes, pos: nat, width: nat)
    requires (width == 4 || width == 8) && Number(data, pos, width).Some?
    ensures var n := Number(data, pos, width).value;
            && n.pos == pos + width && n.item < (if width == 4 then LIMIT4 else LIMIT8)
            && Stands(data, pos, LittleEndianBytes(n.item, width))
  {
    hide LittleEndian, LittleEndianBytes;
    Limits();
    LittleEndianBack(data[pos..pos + width]);
  }

  lemma TextWritten(u: Utf8, data: bytes, pos: nat)
    requires Text(u, true, data, pos).Some?
    ensures var t := Text(u, true, data, pos).value;
            && TextFits(u, t.item) && Stands(data, pos, WriteText(t.item)) && t.pos == pos + |WriteText(t.item)|
  {
    hide Number;
    NumberWritten(data, pos, 8);
    var t := Text(u, true, data, pos).value;
    StandsJoin(data, pos, Le8(|t.item|), t.item);
  }

  lemma {:induction false} ValueWritten(u: Utf8, data: bytes, pos: nat, kind: nat)
    requires FullValue(u, data, pos, kind).Some?
    ensures var v := FullValue(u, data, pos, kind).value;
            && KindOf(v.item) == kind && ValueFits(u, v.item)
            && Stands(data, pos, WriteValue(v.item)) && v.pos == pos + |WriteValue(v.item)|
    decreases |data| - pos, 0
  {
    hide Stands, Number, Text, WriteText, FullItems, WriteItems, TextFits, ItemsFit;
    if ScalarSize(kind) > 0 {
      ScalarWritten(u, data, pos, kind);
    } else if kind == STRING {
      TextWritten(u, data, pos);
    } else {
      var of, count := Number(data, pos, 4).value, Number(data, pos + 4, 8).value;
      NumberWritten(data, pos, 4);
      NumberWritten(data, pos + 4, 8);
      ItemsWritten(u, data, pos + 12, of.item, count.item);
      var items := FullItems(u, data, pos + 12, of.item, count.item).value.item;
      StandsJoin(data, pos, Le4(of.item), Le8(|items|));
      StandsJoin(data, pos, Le4(of.item) + Le8(|items|), WriteItems(items));
    }
  }

  lemma ScalarWritten(u: Utf8, data: bytes, pos: nat, kind: nat)
    requires ScalarSize(kind) > 0 && FullValue(u, data, pos, kind).Some?
    ensures var v := FullValue(u, data, pos, kind).value;
            && KindOf(v.item) == kind && ValueFits(u, v.item)
            && Stands(data, pos, WriteValue(v.item)) && v.pos == pos + |WriteValue(v.item)|
  {}

  lemma {:induction false} ItemsWritten(u: Utf8, data: bytes, pos: nat, kind: nat, n: nat)
    requires pos <= |data| && FullItems(u, data, pos, kind, n).Some?
    ensures var vs := FullItems(u, data, pos, kind, n).value;
            && ItemsFit(u, kind, vs.item)
            && Stands(data, pos, WriteItems(vs.item)) && vs.pos == pos + |WriteItems(vs.item)|
    decreases |data| - pos, 1
  {
    hide FullValue, WriteValue, ValueFits, KindOf;
    if n == 0 {
    } else {
      hide Stands;
      var first := FullValue(u, data, pos, kind).value;
      ValueWritten(u, data, pos, kind);
      ItemsWritten(u, data, first.pos, kind, n - 1);
      var vs := FullItems(u, data, pos, kind, n).value.item;
      var rest := FullItems(u, data, first.pos, kind, n - 1).value.item;
      assert vs == [first.item] + rest && vs[1..] == rest;
      StandsJoin(data, pos, WriteValue(first.item), WriteItems(rest));
    }
  }

  lemma EntryWritten(u: Utf8, data: bytes, pos: nat)
    requires FullPairs(u, data, pos, 1).Some?
    ensures var ps := FullPairs(u, data, pos, 1).value;
            && |ps.item| == 1 && EntryFits(u, ps.item[0])
            && Stands(data, pos, WriteEntry(ps.item[0])) && ps.pos == pos + |WriteEntry(ps.item[0])|
  {
    hide Stands, Number, Text, WriteText, FullValue, WriteValue, KindOf, ValueFits, TextFits;
    var key := Text(u, true, data, pos).value;
    var kind := Number(data, key.pos, 4).value;
    TextWritten(u, data, pos);
    NumberWritten(data, key.pos, 4);
    ValueWritten(u, data, kind.pos, kind.item);
    var value := FullValue(u, data, kind.pos, kind.item).value.item;
    StandsJoin(data, pos, WriteText(key.item), Le4(kind.item));
    StandsJoin(data, pos, WriteText(key.item) + Le4(kind.item), WriteValue(value));
  }

  /** The first entry, and the others behind it. */
  lemma PairsSplit(u: Utf8, data: bytes, pos: nat, n: nat)
    requires n > 0 && FullPairs(u, data, pos, n).Some?
    ensures FullPairs(u, data, pos, 1).Some?
    ensures var first, all := FullPairs(u, data, pos, 1).value, FullPairs(u, data, pos, n).value;
            var rest := FullPairs(u, data, first.pos, n - 1);
            |first.item| == 1 && rest.Some? && all == Read([first.item[0]] + rest.value.item, rest.value.pos)
  {
    hide Number, Text, FullValue;
    var key := Text(u, true, data, pos).value;
    var kind := Number(data, key.pos, 4).value;
    var value := FullValue(u, data, kind.pos, kind.item).value;
    assert FullPairs(u, data, value.pos, 0) == Some(Read([], value.pos));
  }

  lemma {:induction false} EntriesWritten(u: Utf8, data: bytes, pos: nat, n: nat)
    requires pos <= |data| && FullPairs(u, data, pos, n).Some?
    ensures var ps := FullPairs(u, data, pos, n).value;
            && (forall i | 0 <= i < |ps.item| :: EntryFits(u, ps.item[i]))
            && Stands(data, pos, WriteEntries(ps.item)) && ps.pos == pos + |WriteEntries(ps.item)|
    decreases n
  {
    hide WriteEntry, EntryFits, Text, Number, FullValue;
    if n == 0 {
    } else {
      hide Stands, FullPairs;
      PairsSplit(u, data, pos, n);
      EntryWritten(u, data, pos);
      var first := FullPairs(u, data, pos, 1).value;
      var rest := FullPairs(u, data, first.pos, n - 1).value.item;
      StandsWithin(data, pos, WriteEntry(first.item[0]));
      EntriesWritten(u, data, first.pos, n - 1);
      var ps := FullPairs(u, data, pos, n).value.item;
      assert ps == [first.item[0]] + rest && ps[1..] == rest;
      StandsJoin(data, pos, WriteEntry(first.item[0]), WriteEntries(rest));
    }
  }

  lemma StandsWithin(data: bytes, pos: nat, x: bytes)
    requires Stands(data, pos, x)
    ensures pos + |x| <= |data|
  {}

  lemma {:induction false} NumbersWritten(data: bytes, pos: nat, n: nat)
    requires pos <= |data| && Numbers(data, pos, n).Some?
    ensures var ns := Numbers(data, pos, n).value;
            && (forall i | 0 <= i < |ns.item| :: ns.item[i] < LIMIT8)
            && Stands(data, pos, WriteNumbers(ns.item)) && ns.pos == pos + |WriteNumbers(ns.item)|
    decreases n
  {
    hide Number;
    if n == 0 {
    } else {
      hide Stands;
      NumberWritten(data, pos, 8);
      var first := Number(data, pos, 8).value.item;
      NumbersWritten(data, pos + 8, n - 1);
      var ns, rest := Numbers(data, pos, n).value.item, Numbers(data, pos + 8, n - 1).value.item;
      assert ns == [first] + rest && ns[1..] == rest;
      StandsJoin(data, pos, Le8(first), WriteNumbers(rest));
    }
  }

  lemma TensorWritten(u: Utf8, data: bytes, pos: nat)
    requires Descriptor(u, true, data, pos).Some?
    ensures var t := Descriptor(u, true, data, pos).value;
            && TensorFits(u, t.item) && Stands(data, pos, WriteTensor(t.item)) && t.pos == pos + |WriteTensor(t.item)|
  {
    hide Stands, Number, Text, Numbers, WriteText, WriteNumbers, TextFits;
    var t := Descriptor(u, true, data, pos).value.item;
    var name, dims := WriteText(t.name), WriteNumbers(t.shape);
    TextWritten(u, data, pos);
    NumberWritten(data, pos + |name|, 4);
    NumbersWritten(data, pos + |name| + 4, |t.shape|);
    NumberWritten(data, pos + |name| + 4 + |dims|, 4);
    NumberWritten(data, pos + |name| + 8 + |dims|, 8);
    StandsJoin(data, pos, name, Le4(|t.shape|));
    StandsJoin(data, pos, name + Le4(|t.shape|), dims);
    StandsJoin(data, pos, name + Le4(|t.shape|) + dims, Le4(t.dtype));
    StandsJoin(data, pos, name + Le4(|t.shape|) + dims + Le4(t.dtype), Le8(t.offset));
  }

  lemma {:induction false} TensorsWritten(u: Utf8, data: bytes, pos: nat, n: nat)
    requires pos <= |data| && Descriptors(u, true, data, pos, n).Some?
    ensures var ts := Descriptors(u, true, data, pos, n).value;
            && |ts.item| == n && (forall i | 0 <= i < n :: TensorFits(u, ts.item[i]))
            && Stands(data, pos, WriteTensors(ts.item)) && ts.pos == pos + |WriteTensors(ts.item)|
    decreases n
  {
    hide Descriptor, WriteTensor, TensorFits;
    if n == 0 {
    } else {
      hide Stands;
      var first := Descriptor(u, true, data, pos).value;
      TensorWritten(u, data, pos);
      TensorsWritten(u, data, first.pos, n - 1);
      var rest := Descriptors(u, true, data, first.pos, n - 1).value.item;
      var ts := Descriptors(u, true, data, pos, n).value.item;
      assert ts == [first.item] + rest && ts[1..] == rest;
      StandsJoin(data, pos, WriteTensor(first.item), WriteTensors(rest));
    }
  }

  // ---------------------------------------------------------------------------
  // Whole files
  // ---------------------------------------------------------------------------

  lemma PreambleWritten(data: bytes)
    requires ReadPreamble(data).Some?
    ensures var p := ReadPreamble(data).value.item;
            && p.version < LIMIT4 && p.tensors < LIMIT8 && p.entries < LIMIT8
            && Stands(data, 0, [0x47, 0x47, 0x55, 0x46] + Le4(p.version) + Le8(p.tensors) + Le8(p.entries))
  {
    hide Number;
    var p := ReadPreamble(data).value.item;
    var magic: bytes := [0x47, 0x47, 0x55, 0x46];
    assert Stands(data, 0, magic);
    hide Stands;
    NumberWritten(data, 4, 4);
    NumberWritten(data, 8, 8);
    NumberWritten(data, 16, 8);
    StandsJoin(data, 0, magic, Le4(p.version));
    StandsJoin(data, 0, magic + Le4(p.version), Le8(p.tensors));
    StandsJoin(data, 0, magic + Le4(p.version) + Le8(p.tensors), Le8(p.entries));
  }

  lemma FileWritten(u: Utf8, data: bytes)
    requires FullHeader(u, data).Some?
    ensures var ps, ts := EntriesOf(u, data), FullHeader(u, data).value.tensors;
            FileFits(u, ps, ts) && Stands(data, 0, WriteFile(3, ps, ts))
  {
    hide FullPairs, Descriptors, ReadPreamble, Stands, WriteEntries, WriteTensors, EntryFits, TensorFits, Dict, Encode,
      SortEntries, AsEntries;
    var p := ReadPreamble(data).value.item;
    PreambleWritten(data);
    EntriesWritten(u, data, 24, p.entries);
    var ps := FullPairs(u, data, 24, p.entries).value;
    TensorsWritten(u, data, ps.pos, p.tensors);
    var ts := Descriptors(u, true, data, ps.pos, p.tensors).value.item;
    var preamble := [0x47, 0x47, 0x55, 0x46] + Le4(3) + Le8(|ts|) + Le8(|ps.item|);
    StandsJoin(data, 0, preamble, WriteEntries(ps.item));
    StandsJoin(data, 0, preamble + WriteEntries(ps.item), WriteTensors(ts));
  }

  /** The full reader accepts exactly the files that begin with a written header of version 3. */
  lemma HeaderExact(u: Utf8, data: bytes)
    ensures FullHeader(u, data).Some? <==>
              exists ps, ts, tail :: FileFits(u, ps, ts) && data == WriteFile(3, ps, ts) + tail
  {
    hide FullHeader, FileFits, WriteFile, EntriesOf;
    if FullHeader(u, data).Some? {
      FileWritten(u, data);
      var ps, ts := EntriesOf(u, data), FullHeader(u, data).value.tensors;
      assert data == WriteFile(3, ps, ts) + data[|WriteFile(3, ps, ts)|..];
    }
    if ps, ts, tail :| FileFits(u, ps, ts) && data == WriteFile(3, ps, ts) + tail {
      FileRoundTrip(u, ps, ts, tail);
    }
  }
}
