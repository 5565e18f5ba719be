/** The preflight lets through what a pickle writer writes, within its limits on size, nesting and memo. */
module PickleAccepted {
  import opened Wrappers
  import opened TensorView
  import opened PickleValues
  import opened Preflight
  import opened PickleWriter

  // ---------------------------------------------------------------------------
  // The limits, in terms of the tree
  // ---------------------------------------------------------------------------

  function Larger(a: nat, b: nat): nat {
    if a > b then a else b
  }

  /** How many marks are open at once while a tree is written. */
  function Nesting(d: Doc): nat
    decreases d, 1
  {
    match d
    case AtomDoc(_) => 0
    case SetDoc(_) => 1
    case StorageDoc(_) => 1
    case TensorDoc(_, _) => 2
    case ListDoc(ds) => 1 + NestingOf(ds)
    case TupleDoc(ds) => 1 + NestingOf(ds)
    case DictDoc(_, ds) => 1 + NestingOf(ds)
    case NamespaceDoc(_, ds) => 1 + NestingOf(ds)
    case OrderedDoc(_, ds, meta) => 1 + Larger(NestingOf(ds), if meta.Some? then Nesting(meta.value) else 0)
  }

  function NestingOf(ds: seq<Doc>): nat
    decreases ds, 0
  {
    if ds == [] then 0 else Larger(Nesting(ds[0]), NestingOf(ds[1..]))
  }

  predicate ShortAtom(a: Atom) {
    match a
    case TextAtom(s) => |s| <= MAX_STRING_BYTES
    case ImportAtom(TypeImport(dtype)) => ItemBytes(dtype).Some?
    case _ => true
  }

  predicate ShortAtoms(atoms: seq<Atom>) {
    forall i | 0 <= i < |atoms| :: ShortAtom(atoms[i])
  }

  /** No text longer than the preflight takes. */
  predicate ShortTexts(d: Doc)
    decreases d, 1
  {
    match d
    case AtomDoc(a) => ShortAtom(a)
    case SetDoc(atoms) => ShortAtoms(atoms)
    case StorageDoc(s) => ItemBytes(s.dtype).Some? && |s.key| <= MAX_STRING_BYTES && |s.location| <= MAX_STRING_BYTES
    case TensorDoc(t, _) =>
      ItemBytes(t.dtype).Some? && |t.storageKey| <= MAX_STRING_BYTES && |t.location| <= MAX_STRING_BYTES
    case ListDoc(ds) => AllShort(ds)
    case TupleDoc(ds) => AllShort(ds)
    case DictDoc(ks, ds) => ShortAtoms(ks) && AllShort(ds)
    case NamespaceDoc(ks, ds) => ShortAtoms(ks) && AllShort(ds)
    case OrderedDoc(ks, ds, meta) => ShortAtoms(ks) && AllShort(ds) && (meta.Some? ==> ShortTexts(meta.value))
  }

  predicate AllShort(ds: seq<Doc>)
    decreases ds, 0
  {
    forall i | 0 <= i < |ds| :: ShortTexts(ds[i])
  }

  // ---------------------------------------------------------------------------
  // Clean stretches of opcodes
  // ---------------------------------------------------------------------------

  function MarkSum(ops: seq<Op>): int {
    if ops == [] then 0 else MarkSum(ops[..|ops| - 1]) + MarkEffect(ops[|ops| - 1])
  }

  function MemoSum(ops: seq<Op>): nat {
    if ops == [] then 0 else MemoSum(ops[..|ops| - 1]) + MemoEffect(ops[|ops| - 1])
  }

  /** An opcode the preflight lets through anywhere, with memo numbers below `next`. */
  predicate Fine(op: Op, next: nat) {
    match op
    case OtherOpcode(_) => false
    case Proto(_) => false
    case Frame(_) => false
    case Stop => false
    case Global(m, name) => GlobalAllowed(GlobalArgument(m, name))
    case Put(i) => 0 <= i < next
    case Get(i) => 0 <= i < next
    case PushText(s) => |s| <= MAX_STRING_BYTES
    case _ => true
  }

  /** The opcodes keep between 0 and h marks open, close all of them, and take the memo from `a` to `b` writes. */
  ghost predicate Clean(ops: seq<Op>, h: nat, a: nat, b: nat) {
    && (forall k | 0 <= k <= |ops| :: 0 <= MarkSum(ops[..k]) <= h)
    && MarkSum(ops) == 0 && b == a + MemoSum(ops)
    && forall i | 0 <= i < |ops| :: Fine(ops[i], b)
  }

  lemma {:induction false} SumsConcat(a: seq<Op>, b: seq<Op>)
    ensures MarkSum(a + b) == MarkSum(a) + MarkSum(b) && MemoSum(a + b) == MemoSum(a) + MemoSum(b)
    decreases |b|
  {
    if b == [] {
      assert a + b == a;
    } else {
      assert (a + b)[..|a + b| - 1] == a + b[..|b| - 1];
      SumsConcat(a, b[..|b| - 1]);
    }
  }

  lemma CleanConcat(a: seq<Op>, b: seq<Op>, h: nat, x: nat, y: nat, z: nat)
    requires Clean(a, h, x, y) && Clean(b, h, y, z)
    ensures Clean(a + b, h, x, z)
  {
    hide MarkEffect, MemoEffect, Fine;
    SumsConcat(a, b);
    var ab := a + b;
    forall k | 0 <= k <= |ab| ensures 0 <= MarkSum(ab[..k]) <= h {
      if k <= |a| {
        assert ab[..k] == a[..k];
      } else {
        assert ab[..k] == a + b[..k - |a|];
        SumsConcat(a, b[..k - |a|]);
      }
    }
    forall i | 0 <= i < |ab| ensures Fine(ab[i], z) {
      if i < |a| { FineAbove(a[i], y, z); }
    }
  }

  lemma FineAbove(op: Op, next: nat, more: nat)
    requires Fine(op, next) && next <= more
    ensures Fine(op, more)
  {}

  lemma CleanHigher(ops: seq<Op>, h: nat, higher: nat, a: nat, b: nat)
    requires Clean(ops, h, a, b) && h <= higher
    ensures Clean(ops, higher, a, b)
  {}

  lemma CleanOne(op: Op, h: nat, a: nat)
    requires MarkEffect(op) == 0 && Fine(op, a + MemoEffect(op))
    ensures Clean([op], h, a, a + MemoEffect(op))
  {
    hide MarkEffect, MemoEffect, Fine;
    assert [op][..0] == [] && [op][..1] == [op];
    assert MarkSum([op]) == MarkSum([]) + MarkEffect(op) && MemoSum([op]) == MemoSum([]) + MemoEffect(op);
  }

  lemma CleanNone(h: nat, a: nat)
    ensures Clean([], h, a, a)
  {}

  /** One opcode behind a clean stretch. */
  lemma CleanMore(ops: seq<Op>, op: Op, h: nat, a: nat, b: nat)
    requires Clean(ops, h, a, b) && MarkEffect(op) == 0 && Fine(op, b + MemoEffect(op))
    ensures Clean(ops + [op], h, a, b + MemoEffect(op))
  {
    hide MarkEffect, MemoEffect, Fine, Clean;
    CleanOne(op, h, b);
    CleanConcat(ops, [op], h, a, b, b + MemoEffect(op));
  }

  lemma One(op: Op)
    ensures MarkSum([op]) == MarkEffect(op) && MemoSum([op]) == MemoEffect(op)
  {
    assert [op][..0] == [];
  }

  lemma NoSum()
    ensures MarkSum([]) == 0
  {}

  lemma CleanMarked(ops: seq<Op>, op: Op, h: nat, a: nat, b: nat)
    requires Clean(ops, h, a, b) && op in {MarkTuple, MarkList, MarkDict, SetItems, Appends, AddItems}
    ensures Clean([Mark] + ops + [op], h + 1, a, b)
  {
    var all := [Mark] + ops + [op];
    hide MarkSum, MemoSum;
    One(Mark);
    One(op);
    SumsConcat([Mark], ops);
    SumsConcat([Mark] + ops, [op]);
    forall k | 0 <= k <= |all| ensures 0 <= MarkSum(all[..k]) <= h + 1 {
      if k == 0 {
        assert all[..0] == [];
        NoSum();
      } else if k <= |ops| + 1 {
        assert all[..k] == [Mark] + ops[..k - 1];
        SumsConcat([Mark], ops[..k - 1]);
      } else {
        assert all[..k] == all;
      }
    }
    forall i | 0 <= i < |all| ensures Fine(all[i], b) {
      if 0 < i <= |ops| { assert all[i] == ops[i - 1]; }
    }
  }

  // ---------------------------------------------------------------------------
  // What the writer writes is clean
  // ---------------------------------------------------------------------------

  ghost predicate TableBelow(w: Memo) {
    forall a | a in w.table :: w.table[a] < w.next
  }

  /** A written stretch: clean from the one memo to the other. */
  ghost predicate WrittenClean(r: Written, w: Memo, h: nat) {
    Clean(r.ops, h, w.next, r.memo.next) && TableBelow(r.memo)
  }

  lemma MemoOpClean(st: Style, ops: seq<Op>, w: Memo, h: nat, a: nat)
    requires Clean(ops, h, a, w.next)
    ensures Clean(ops + [MemoOp(st, w)], h, a, Noted(w).next)
  {
    hide Clean;
    CleanMore(ops, MemoOp(st, w), h, a, w.next);
  }

  lemma ImportAllowed(i: Import)
    requires ShortAtom(ImportAtom(i))
    ensures match ImportOp(i) case Global(m, name) => GlobalAllowed(GlobalArgument(m, name)) case _ => false
  {
    hide GlobalArgument;
    if i.TypeImport? {
      StorageAllowed(i.dtype);
    }
  }

  lemma StorageAllowed(dtype: string)
    requires ItemBytes(dtype).Some?
    ensures StorageImport(GlobalArgument("torch", StorageName(dtype)))
  {
    hide GlobalArgument;
    var name := StorageName(dtype);
    assert STORAGE_NAMES[0] == "FloatStorage" && STORAGE_NAMES[1] == "DoubleStorage";
    assert STORAGE_NAMES[2] == "HalfStorage" && STORAGE_NAMES[3] == "BFloat16Storage";
    assert STORAGE_NAMES[4] == "ByteStorage" && STORAGE_NAMES[5] == "CharStorage";
    assert STORAGE_NAMES[6] == "ShortStorage" && STORAGE_NAMES[7] == "IntStorage";
    assert STORAGE_NAMES[8] == "LongStorage" && STORAGE_NAMES[9] == "BoolStorage";
  }

  lemma AtomClean(st: Style, a: Atom, w: Memo, h: nat)
    requires ShortAtom(a) && TableBelow(w)
    ensures WrittenClean(WriteAtom(st, a, w), w, h)
  {
    hide Clean, GlobalAllowed, GlobalArgument, ImportOp;
    if a.ImportAtom? { ImportAllowed(a.i); }
    if !a.TextAtom? && !a.ImportAtom? {
      CleanOne(AtomOp(a), h, w.next);
    } else if a in w.table {
      CleanOne(Get(w.table[a]), h, w.next);
    } else {
      CleanOne(AtomOp(a), h, w.next);
      MemoOpClean(st, [AtomOp(a)], w, h, w.next);
      assert [AtomOp(a)] + [MemoOp(st, w)] == WriteAtom(st, a, w).ops;
    }
  }

  lemma {:induction false} AtomsClean(st: Style, atoms: seq<Atom>, w: Memo, h: nat)
    requires ShortAtoms(atoms) && TableBelow(w)
    ensures WrittenClean(WriteAtoms(st, atoms, w), w, h)
    decreases |atoms|
  {
    hide Clean, WriteAtom, ShortAtom;
    if atoms == [] {
      CleanNone(h, w.next);
    } else {
      var first := WriteAtom(st, atoms[0], w);
      AtomClean(st, atoms[0], w, h);
      AtomsClean(st, atoms[1..], first.memo, h);
      CleanConcat(first.ops, WriteAtoms(st, atoms[1..], first.memo).ops, h, w.next, first.memo.next,
                  WriteAtoms(st, atoms[1..], first.memo).memo.next);
    }
  }

  lemma BatchClean(n: nat, one: Op, many: Op, ops: seq<Op>, h: nat, a: nat, b: nat)
    requires Clean(ops, h, a, b) && (n == 0 ==> a == b)
    requires (one == Append && many == Appends) || (one == SetItem && many == SetItems)
    ensures Clean(Batch(n, one, many, ops), h + 1, a, b)
  {
    hide Clean;
    if n == 0 {
      CleanNone(h + 1, a);
    } else if n == 1 {
      CleanMore(ops, one, h, a, b);
      CleanHigher(ops + [one], h, h + 1, a, b);
    } else {
      CleanMarked(ops, many, h, a, b);
    }
  }

  lemma {:induction false} DocClean(st: Style, d: Doc, w: Memo)
    requires ShortTexts(d) && TableBelow(w)
    ensures WrittenClean(Write(st, d, w), w, Nesting(d))
    decreases Weight(d), 1
  {
    hide Clean, WriteAll, WriteAtoms, WritePairs, WriteAtom, ShortAtoms, AllShort;
    match d
    case AtomDoc(a) => AtomClean(st, a, w, 0);
    case ListDoc(ds) => ListClean(st, ds, w);
    case TupleDoc(ds) => TupleClean(st, ds, w);
    case SetDoc(atoms) =>
      var body := WriteAtoms(st, atoms, Noted(w));
      AtomsClean(st, atoms, Noted(w), 0);
      HeadClean(st, EmptySet, w, 1);
      if atoms == [] {
        CleanNone(1, Noted(w).next);
        assert WriteAtoms(st, [], Noted(w)) == Written([], Noted(w)) by { NothingAtAll(st, Noted(w)); }
        CleanConcat([EmptySet, MemoOp(st, w)], [], 1, w.next, Noted(w).next, Noted(w).next);
      } else {
        CleanMarked(body.ops, AddItems, 0, Noted(w).next, body.memo.next);
        var marked := [Mark] + body.ops + [AddItems];
        CleanConcat([EmptySet, MemoOp(st, w)], marked, 1, w.next, Noted(w).next, body.memo.next);
      }
    case DictDoc(ks, ds) => DictClean(st, ks, ds, w);
    case OrderedDoc(ks, ds, meta) => OrderedClean(st, ks, ds, meta, w);
    case NamespaceDoc(ks, ds) =>
      var name := WriteAtom(st, ImportAtom(NamespaceImport), w);
      var state := Write(st, DictDoc(ks, ds), Noted(name.memo));
      CallClean(st, NamespaceImport, NewObj, w, 1 + NestingOf(ds));
      DocClean(st, DictDoc(ks, ds), Noted(name.memo));
      CleanConcat(name.ops + [EmptyTuple, NewObj, MemoOp(st, name.memo)], state.ops, 1 + NestingOf(ds), w.next,
                  Noted(name.memo).next, state.memo.next);
      CleanMore(name.ops + [EmptyTuple, NewObj, MemoOp(st, name.memo)] + state.ops, Build, 1 + NestingOf(ds), w.next,
                state.memo.next);
    case StorageDoc(s) => StorageClean(st, s, w);
    case TensorDoc(t, g) => TensorClean(st, t, g, w);
  }

  lemma NothingAtAll(st: Style, w: Memo)
    ensures WriteAtoms(st, [], w) == Written([], w) && WriteAll(st, [], w) == Written([], w)
    ensures WritePairs(st, [], [], w) == Written([], w)
  {}

  lemma HeadClean(st: Style, op: Op, w: Memo, h: nat)
    requires op in {EmptyList, EmptyDict, EmptySet}
    ensures Clean([op, MemoOp(st, w)], h, w.next, Noted(w).next)
  {
    hide Clean;
    CleanOne(op, h, w.next);
    MemoOpClean(st, [op], w, h, w.next);
    assert [op] + [MemoOp(st, w)] == [op, MemoOp(st, w)];
  }

  lemma CallClean(st: Style, i: Import, op: Op, w: Memo, h: nat)
    requires op in {NewObj, Reduce} && !i.TypeImport? && TableBelow(w)
    ensures var name := WriteAtom(st, ImportAtom(i), w);
            && Clean(name.ops + [EmptyTuple, op, MemoOp(st, name.memo)], h, w.next, Noted(name.memo).next)
            && TableBelow(Noted(name.memo))
  {
    hide Clean, WriteAtom;
    var name := WriteAtom(st, ImportAtom(i), w);
    AtomClean(st, ImportAtom(i), w, h);
    CleanMore(name.ops, EmptyTuple, h, w.next, name.memo.next);
    CleanMore(name.ops + [EmptyTuple], op, h, w.next, name.memo.next);
    MemoOpClean(st, name.ops + [EmptyTuple] + [op], name.memo, h, w.next);
    assert name.ops + [EmptyTuple] + [op] + [MemoOp(st, name.memo)]
        == name.ops + [EmptyTuple, op, MemoOp(st, name.memo)];
  }

  lemma {:induction false} AllClean(st: Style, ds: seq<Doc>, w: Memo)
    requires AllShort(ds) && TableBelow(w)
    ensures WrittenClean(WriteAll(st, ds, w), w, NestingOf(ds))
    decreases WeightAll(ds), 0
  {
    hide Clean, Nesting, Write;
    if ds == [] {
      CleanNone(0, w.next);
    } else {
      var first := Write(st, ds[0], w);
      var rest := WriteAll(st, ds[1..], first.memo);
      DocClean(st, ds[0], w);
      AllClean(st, ds[1..], first.memo);
      CleanHigher(first.ops, Nesting(ds[0]), NestingOf(ds), w.next, first.memo.next);
      CleanHigher(rest.ops, NestingOf(ds[1..]), NestingOf(ds), first.memo.next, rest.memo.next);
      CleanConcat(first.ops, rest.ops, NestingOf(ds), w.next, first.memo.next, rest.memo.next);
    }
  }

  lemma {:induction false} PairsClean(st: Style, ks: seq<Atom>, ds: seq<Doc>, w: Memo)
    requires ShortAtoms(ks) && AllShort(ds) && TableBelow(w)
    ensures WrittenClean(WritePairs(st, ks, ds, w), w, NestingOf(ds))
    decreases WeightAll(ds), 0
  {
    hide Clean, Nesting, Write, WriteAtom;
    if ds == [] || ks == [] {
      CleanNone(NestingOf(ds), w.next);
    } else {
      var h := NestingOf(ds);
      var key := WriteAtom(st, ks[0], w);
      var first := Write(st, ds[0], key.memo);
      var rest := WritePairs(st, ks[1..], ds[1..], first.memo);
      AtomClean(st, ks[0], w, h);
      DocClean(st, ds[0], key.memo);
      PairsClean(st, ks[1..], ds[1..], first.memo);
      CleanHigher(first.ops, Nesting(ds[0]), h, key.memo.next, first.memo.next);
      CleanHigher(rest.ops, NestingOf(ds[1..]), h, first.memo.next, rest.memo.next);
      CleanConcat(key.ops, first.ops, h, w.next, key.memo.next, first.memo.next);
      CleanConcat(key.ops + first.ops, rest.ops, h, w.next, first.memo.next, rest.memo.next);
    }
  }

  /** A container closed at its mark, with its memo write. */
  lemma ClosedClean(st: Style, ops: seq<Op>, op: Op, h: nat, a: nat, w: Memo)
    requires Clean(ops, h, a, w.next) && op in {MarkTuple, MarkList, MarkDict}
    ensures Clean([Mark] + ops + [op, MemoOp(st, w)], h + 1, a, Noted(w).next)
  {
    hide Clean;
    CleanMarked(ops, op, h, a, w.next);
    MemoOpClean(st, [Mark] + ops + [op], w, h + 1, a);
    assert [Mark] + ops + [op] + [MemoOp(st, w)] == [Mark] + ops + [op, MemoOp(st, w)];
  }

  lemma {:induction false} ListClean(st: Style, ds: seq<Doc>, w: Memo)
    requires AllShort(ds) && TableBelow(w)
    ensures WrittenClean(Write(st, ListDoc(ds), w), w, 1 + NestingOf(ds))
    decreases Weight(ListDoc(ds)), 0
  {
    hide Clean, WriteAll;
    var h := NestingOf(ds);
    if st.marked {
      AllClean(st, ds, w);
      ClosedClean(st, WriteAll(st, ds, w).ops, MarkList, h, w.next, WriteAll(st, ds, w).memo);
    } else {
      var body := WriteAll(st, ds, Noted(w));
      AllClean(st, ds, Noted(w));
      HeadClean(st, EmptyList, w, h + 1);
      NothingAtAll(st, Noted(w));
      BatchClean(|ds|, Append, Appends, body.ops, h, Noted(w).next, body.memo.next);
      CleanConcat([EmptyList, MemoOp(st, w)], Batch(|ds|, Append, Appends, body.ops), h + 1, w.next, Noted(w).next,
                  body.memo.next);
    }
  }

  lemma {:induction false} TupleClean(st: Style, ds: seq<Doc>, w: Memo)
    requires AllShort(ds) && TableBelow(w)
    ensures WrittenClean(Write(st, TupleDoc(ds), w), w, 1 + NestingOf(ds))
    decreases Weight(TupleDoc(ds)), 0
  {
    hide Clean, WriteAll;
    var h, body := NestingOf(ds), WriteAll(st, ds, w);
    AllClean(st, ds, w);
    if ds == [] {
      CleanOne(EmptyTuple, h + 1, w.next);
    } else if |ds| <= 3 {
      CleanMore(body.ops, ShortTuple(|ds|), h, w.next, body.memo.next);
      CleanHigher(body.ops + [ShortTuple(|ds|)], h, h + 1, w.next, body.memo.next);
      MemoOpClean(st, body.ops + [ShortTuple(|ds|)], body.memo, h + 1, w.next);
    } else {
      CleanMarked(body.ops, MarkTuple, h, w.next, body.memo.next);
      MemoOpClean(st, [Mark] + body.ops + [MarkTuple], body.memo, h + 1, w.next);
    }
  }

  lemma {:induction false} DictClean(st: Style, ks: seq<Atom>, ds: seq<Doc>, w: Memo)
    requires ShortAtoms(ks) && AllShort(ds) && TableBelow(w)
    ensures WrittenClean(Write(st, DictDoc(ks, ds), w), w, 1 + NestingOf(ds))
    decreases Weight(DictDoc(ks, ds)), 0
  {
    hide Clean, WritePairs, ShortAtoms;
    var h := NestingOf(ds);
    if st.marked {
      PairsClean(st, ks, ds, w);
      ClosedClean(st, WritePairs(st, ks, ds, w).ops, MarkDict, h, w.next, WritePairs(st, ks, ds, w).memo);
    } else {
      var body := WritePairs(st, ks, ds, Noted(w));
      PairsClean(st, ks, ds, Noted(w));
      HeadClean(st, EmptyDict, w, h + 1);
      NoPairs(st, ks, ds, Noted(w));
      BatchClean(|ds|, SetItem, SetItems, body.ops, h, Noted(w).next, body.memo.next);
      CleanConcat([EmptyDict, MemoOp(st, w)], Batch(|ds|, SetItem, SetItems, body.ops), h + 1, w.next, Noted(w).next,
                  body.memo.next);
    }
  }

  lemma NoPairs(st: Style, ks: seq<Atom>, ds: seq<Doc>, w: Memo)
    ensures ds == [] ==> WritePairs(st, ks, ds, w) == Written([], w)
  {}

  lemma {:induction false} OrderedClean(st: Style, ks: seq<Atom>, ds: seq<Doc>, meta: Option<Doc>, w: Memo)
    requires ShortAtoms(ks) && AllShort(ds) && TableBelow(w) && (meta.Some? ==> ShortTexts(meta.value))
    ensures WrittenClean(Write(st, OrderedDoc(ks, ds, meta), w), w, Nesting(OrderedDoc(ks, ds, meta)))
    decreases Weight(OrderedDoc(ks, ds, meta)), 0
  {
    hide Clean, WritePairs, ShortAtoms, WriteAtom;
    var h := Nesting(OrderedDoc(ks, ds, meta));
    var name := WriteAtom(st, ImportAtom(OrderedDictImport), w);
    var start := name.ops + [EmptyTuple, Reduce, MemoOp(st, name.memo)];
    var body := WritePairs(st, ks, ds, Noted(name.memo));
    var batch := Batch(|ds|, SetItem, SetItems, body.ops);
    CallClean(st, OrderedDictImport, Reduce, w, h);
    PairsClean(st, ks, ds, Noted(name.memo));
    NoPairs(st, ks, ds, Noted(name.memo));
    BatchClean(|ds|, SetItem, SetItems, body.ops, NestingOf(ds), Noted(name.memo).next, body.memo.next);
    CleanHigher(batch, NestingOf(ds) + 1, h, Noted(name.memo).next, body.memo.next);
    CleanConcat(start, batch, h, w.next, Noted(name.memo).next, body.memo.next);
    if meta.Some? {
      StateClean(st, meta.value, start + batch, w.next, body.memo, h);
    }
  }

  lemma NestingOne(d: Doc)
    ensures NestingOf([d]) == Nesting(d)
  {
    hide Nesting;
    assert [d][1..] == [];
    assert NestingOf([]) == 0;
  }

  lemma {:induction false} StateClean(st: Style, meta: Doc, ops: seq<Op>, a: nat, w: Memo, h: nat)
    requires ShortTexts(meta) && TableBelow(w) && Clean(ops, h, a, w.next) && 1 + Nesting(meta) <= h
    ensures var state := Write(st, DictDoc([TextAtom("_metadata")], [meta]), w);
            Clean(ops + state.ops + [Build], h, a, state.memo.next) && TableBelow(state.memo)
    decreases 3 + Weight(meta), 0
  {
    hide Clean;
    var d := DictDoc([TextAtom("_metadata")], [meta]);
    var state := Write(st, d, w);
    WeightOne(meta);
    DocClean(st, d, w);
    NestingOne(meta);
    CleanHigher(state.ops, Nesting(d), h, w.next, state.memo.next);
    CleanConcat(ops, state.ops, h, a, w.next, state.memo.next);
    CleanMore(ops + state.ops, Build, h, a, state.memo.next);
  }

  lemma {:induction false} StorageClean(st: Style, s: StorageRef, w: Memo)
    requires ShortTexts(StorageDoc(s)) && TableBelow(w)
    ensures WrittenClean(Write(st, StorageDoc(s), w), w, 1)
    decreases Weight(StorageDoc(s)), 0
  {
    hide Clean, StorageId, ItemBytes;
    StorageIdWeight(s);
    StorageIdShort(s);
    var pid := Write(st, StorageId(s), w);
    DocClean(st, StorageId(s), w);
    CleanMore(pid.ops, BinPersid, 1, w.next, pid.memo.next);
  }

  lemma StorageIdShort(s: StorageRef)
    requires ShortTexts(StorageDoc(s))
    ensures ShortTexts(StorageId(s)) && Nesting(StorageId(s)) == 1
  {
    var ds := StorageId(s).items;
    forall i | 0 <= i < |ds| ensures ShortTexts(ds[i]) && Nesting(ds[i]) == 0 {
      assert i == 0 || i == 1 || i == 2 || i == 3 || i == 4;
    }
    FlatNesting(ds, 0);
  }

  lemma {:induction false} FlatNesting(ds: seq<Doc>, h: nat)
    requires forall i | 0 <= i < |ds| :: Nesting(ds[i]) <= h
    ensures NestingOf(ds) <= h
  {
    hide Nesting;
    if ds == [] {
    } else {
      FlatNesting(ds[1..], h);
    }
  }

  lemma {:induction false} IntsShort(ns: seq<int>)
    ensures AllShort(IntDocs(ns)) && NestingOf(IntDocs(ns)) == 0
  {
    if ns == [] {
    } else {
      IntsShort(ns[1..]);
      var ds := IntDocs(ns);
      assert ds[1..] == IntDocs(ns[1..]);
      forall i | 0 <= i < |ds| ensures ShortTexts(ds[i]) {
        if i > 0 { assert ds[i] == IntDocs(ns[1..])[i - 1]; }
      }
    }
  }

  lemma ArgsShort(t: TensorRef, g: bool)
    requires ShortTexts(TensorDoc(t, g))
    ensures ShortTexts(TensorArgs(t, g)) && Nesting(TensorArgs(t, g)) <= 2
  {
    hide ItemBytes;
    IntsShort(t.shape);
    IntsShort(t.stride);
    var ds := TensorArgs(t, g).items;
    forall i | 0 <= i < |ds| ensures ShortTexts(ds[i]) && Nesting(ds[i]) <= 1 {
      assert i == 0 || i == 1 || i == 2 || i == 3 || i == 4 || i == 5;
    }
    FlatNesting(ds, 1);
  }

  lemma {:induction false} TensorClean(st: Style, t: TensorRef, g: bool, w: Memo)
    requires ShortTexts(TensorDoc(t, g)) && TableBelow(w)
    ensures WrittenClean(Write(st, TensorDoc(t, g), w), w, 2)
    decreases Weight(TensorDoc(t, g)), 0
  {
    hide Clean, TensorArgs, ItemBytes, WriteAtom;
    ArgsWeight(t, g);
    ArgsShort(t, g);
    var reducer := WriteAtom(st, ImportAtom(ReducerImport), w);
    var args := Write(st, TensorArgs(t, g), reducer.memo);
    AtomClean(st, ImportAtom(ReducerImport), w, 2);
    DocClean(st, TensorArgs(t, g), reducer.memo);
    CleanHigher(args.ops, Nesting(TensorArgs(t, g)), 2, reducer.memo.next, args.memo.next);
    CleanConcat(reducer.ops, args.ops, 2, w.next, reducer.memo.next, args.memo.next);
    CleanMore(reducer.ops + args.ops, Reduce, 2, w.next, args.memo.next);
    MemoOpClean(st, reducer.ops + args.ops + [Reduce], args.memo, 2, w.next);
    assert reducer.ops + args.ops + [Reduce] + [MemoOp(st, args.memo)]
        == reducer.ops + args.ops + [Reduce, MemoOp(st, args.memo)];
  }

  // ---------------------------------------------------------------------------
  // Main result
  // ---------------------------------------------------------------------------

  /** The items of a stream: its opcodes in order, the first at 0 and the last on the last byte. */
  ghost predicate Positioned(items: seq<Item>, ops: seq<Op>, size: nat) {
    && |items| == |ops| > 0
    && (forall i | 0 <= i < |ops| :: items[i].op == ops[i])
    && items[0].position == 0 && items[|items| - 1].position + 1 == size
  }

  lemma {:induction false} SumsAgree(items: seq<Item>, ops: seq<Op>, k: nat)
    requires k <= |items| == |ops| && forall i | 0 <= i < |ops| :: items[i].op == ops[i]
    ensures Marks(items, k) == MarkSum(ops[..k]) && MemoWrites(items, k) == MemoSum(ops[..k])
  {
    if k == 0 {
    } else {
      SumsAgree(items, ops, k - 1);
      assert ops[..k][..k - 1] == ops[..k - 1];
    }
  }

  /** A pickle of a tree within the limits passes the preflight. */
  lemma PickleAccepted(st: Style, version: nat, d: Doc, items: seq<Item>, size: nat)
    requires 2 <= version <= 4 && Positioned(items, Pickle(st, version, d), size)
    requires size <= MAX_INPUT_BYTES && |items| <= MAX_OPCODE_COUNT
    requires Nesting(d) <= MAX_DEPTH && Write(st, d, NO_MEMO).memo.next <= MAX_MEMO_ENTRIES && ShortTexts(d)
    ensures Accepts(items, false, size)
  {
    hide Write, ShortTexts, Nesting, Clean;
    var body := Write(st, d, NO_MEMO);
    DocClean(st, d, NO_MEMO);
    PrefixesClean(st, version, body.ops, Nesting(d), body.memo.next, items, size);
  }

  lemma PrefixesClean(st: Style, version: nat, ops: seq<Op>, h: nat, next: nat, items: seq<Item>, size: nat)
    requires 2 <= version <= 4 && Positioned(items, [Proto(version)] + ops + [Stop], size)
    requires size <= MAX_INPUT_BYTES && |items| <= MAX_OPCODE_COUNT
    requires Clean(ops, h, 0, next) && h <= MAX_DEPTH && next <= MAX_MEMO_ENTRIES
    ensures Accepts(items, false, size)
  {
    hide MarkSum, MemoSum, GlobalAllowed, Marks, MemoWrites;
    var all := [Proto(version)] + ops + [Stop];
    forall k | 0 <= k <= |all| ensures 0 <= Marks(items, k) <= h && (k == |all| ==> Marks(items, k) == 0) {
      PrefixSums(version, ops, k);
      SumsAgree(items, all, k);
      if 0 < k <= |ops| + 1 { assert 0 <= MarkSum(ops[..k - 1]) <= h; }
    }
    PrefixSums(version, ops, |all|);
    SumsAgree(items, all, |all|);
    assert all[..|all|] == all;
    forall i | 0 <= i < |items| ensures OpAllowed(items[i], size) {
      if 0 < i <= |ops| { assert all[i] == ops[i - 1] && Fine(ops[i - 1], next); }
    }
  }

  lemma PrefixSums(version: nat, ops: seq<Op>, k: nat)
    requires k <= |ops| + 2
    ensures var all := [Proto(version)] + ops + [Stop];
            && MarkSum(all[..k])
               == (if k == 0 then 0 else if k <= |ops| + 1 then MarkSum(ops[..k - 1]) else MarkSum(ops))
            && MemoSum(all) == MemoSum(ops)
  {
    var all := [Proto(version)] + ops + [Stop];
    One(Proto(version));
    One(Stop);
    SumsConcat([Proto(version)], ops);
    SumsConcat([Proto(version)] + ops, [Stop]);
    if k == 0 {
      assert all[..0] == [];
    } else if k <= |ops| + 1 {
      assert all[..k] == [Proto(version)] + ops[..k - 1];
      SumsConcat([Proto(version)], ops[..k - 1]);
    } else {
      assert all[..k] == all;
    }
  }

  // ---------------------------------------------------------------------------
  // What is let through
  // ---------------------------------------------------------------------------

  const IMPORTS := {
    "argparse Namespace", "collections OrderedDict", "torch._utils _rebuild_tensor_v2", "torch FloatStorage",
    "torch DoubleStorage", "torch HalfStorage", "torch BFloat16Storage", "torch ByteStorage", "torch CharStorage",
    "torch ShortStorage", "torch IntStorage", "torch LongStorage", "torch BoolStorage"}

  /** No opcode of another kind, no frame beyond the input, no foreign import, no wide memo number, no long text. */
  predicate Bounded(op: Op, size: nat) {
    && !op.OtherOpcode? && (op.Frame? ==> op.size <= size)
    && (op.Global? ==> op.moduleName + " " + op.name in IMPORTS)
    && (op.Put? ==> 0 <= op.index <= 8192) && (op.Get? ==> 0 <= op.index <= 8192)
    && (op.PushText? ==> |op.s| <= 16384)
  }

  lemma StorageListed(i: nat)
    requires i < |STORAGE_NAMES|
    ensures "torch " + STORAGE_NAMES[i] in IMPORTS
  {
    if i < 5 { StorageListedFirst(i); } else { StorageListedLast(i); }
  }

  lemma StorageListedFirst(i: nat)
    requires i < 5
    ensures "torch " + STORAGE_NAMES[i] in IMPORTS
  {
    assert "torch " + "FloatStorage" == "torch FloatStorage";
    assert "torch " + "DoubleStorage" == "torch DoubleStorage";
    assert "torch " + "HalfStorage" == "torch HalfStorage";
    assert "torch " + "BFloat16Storage" == "torch BFloat16Storage";
    assert "torch " + "ByteStorage" == "torch ByteStorage";
  }

  lemma StorageListedLast(i: nat)
    requires 5 <= i < 10
    ensures "torch " + STORAGE_NAMES[i] in IMPORTS
  {
    assert "torch " + "CharStorage" == "torch CharStorage";
    assert "torch " + "ShortStorage" == "torch ShortStorage";
    assert "torch " + "IntStorage" == "torch IntStorage";
    assert "torch " + "LongStorage" == "torch LongStorage";
    assert "torch " + "BoolStorage" == "torch BoolStorage";
  }

  lemma ClassesListed()
    ensures GlobalArgument("argparse", "Namespace") in IMPORTS
    ensures GlobalArgument("collections", "OrderedDict") in IMPORTS
    ensures GlobalArgument("torch._utils", "_rebuild_tensor_v2") in IMPORTS
  {
    assert "argparse" + " " + "Namespace" == "argparse Namespace";
    assert "collections" + " " + "OrderedDict" == "collections OrderedDict";
    assert "torch._utils" + " " + "_rebuild_tensor_v2" == "torch._utils _rebuild_tensor_v2";
  }

  lemma ImportListed(argument: string)
    requires GlobalAllowed(argument)
    ensures argument in IMPORTS
  {
    hide IMPORTS, STORAGE_NAMES, GlobalArgument;
    ClassesListed();
    if StorageImport(argument) {
      var i :| 0 <= i < |STORAGE_NAMES| && argument == GlobalArgument("torch", STORAGE_NAMES[i]);
      StorageListed(i);
      TorchArgument(STORAGE_NAMES[i]);
    }
  }

  lemma TorchArgument(name: string)
    ensures GlobalArgument("torch", name) == "torch " + name
  {
    assert "torch" + " " == "torch ";
  }

  /**
   Of an input whose opcodes are decoded one behind the other, at most 512 KiB and 32768 opcodes are let through: the
   protocol at its first byte and nowhere else, STOP at its last, and in between only opcodes within their bounds.
   */
  lemma AcceptedShape(items: seq<Item>, malformed: bool, size: nat)
    requires Accepts(items, malformed, size)
    requires forall i, j | 0 <= i < j < |items| :: items[i].position < items[j].position
    requires forall i | 0 <= i < |items| :: items[i].position < size
    ensures !malformed && 0 < |items| <= 32768 && size <= 524288
    ensures forall i | 0 <= i < |items| :: items[i].op.Proto? <==> i == 0
    ensures items[0] == Item(Proto(items[0].op.version), 0) && items[0].op.version in {2, 3, 4}
    ensures items[|items| - 1] == Item(Stop, size - 1)
    ensures forall i | 0 <= i < |items| :: Bounded(items[i].op, size)
  {
    hide GlobalAllowed, Marks, MemoWrites;
    LastStop(items, |items|);
    assert forall i | 0 < i < |items| :: items[0].position < items[i].position;
    forall i | 0 <= i < |items| ensures Bounded(items[i].op, size) && (items[i].op.Proto? ==> i == 0) {
      assert OpAllowed(items[i], size);
      if items[i].op.Global? { ImportListed(GlobalArgument(items[i].op.moduleName, items[i].op.name)); }
    }
    assert OpAllowed(items[0], size);
  }

  lemma {:induction false} LastStop(items: seq<Item>, k: nat)
    requires k <= |items| && StopEnd(items, k).Some?
    ensures exists i :: 0 <= i < k && items[i].op.Stop? && StopEnd(items, k) == Some(items[i].position + 1)
    decreases k
  {
    if items[k - 1].op.Stop? {
    } else {
      LastStop(items, k - 1);
    }
  }
}
