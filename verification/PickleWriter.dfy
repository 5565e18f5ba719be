/**
 A pickle writer over trees of the values a checkpoint holds, in the opcodes of PEP 307 and PEP 3154:
 what the restricted reader of tools/audit/firered_checkpoint_metadata.py is there to read back.
 */
module PickleWriter {
  import opened Wrappers
  import opened TensorView
  import opened PickleValues

  // ---------------------------------------------------------------------------
  // What is written
  // ---------------------------------------------------------------------------

  /** A class or function a stream imports. */
  datatype Import = NamespaceImport | OrderedDictImport | ReducerImport | TypeImport(dtype: string)

  datatype Atom =
    | NoneAtom
    | BoolAtom(b: bool)
    | IntAtom(n: int)
    | FloatAtom(f: Float)
    | TextAtom(s: string)
    | ImportAtom(i: Import)

  datatype Doc =
    | AtomDoc(atom: Atom)
    | ListDoc(items: seq<Doc>)
    | TupleDoc(items: seq<Doc>)
    | SetDoc(members: seq<Atom>)
    | DictDoc(keys: seq<Atom>, values: seq<Doc>)
    | OrderedDoc(keys: seq<Atom>, values: seq<Doc>, metadata: Option<Doc>)
    | NamespaceDoc(keys: seq<Atom>, values: seq<Doc>)
    | StorageDoc(storage: StorageRef)
    | TensorDoc(tensor: TensorRef, requiresGrad: bool)

  // ---------------------------------------------------------------------------
  // The values read back
  // ---------------------------------------------------------------------------

  function ImportValue(i: Import): Value {
    match i
    case NamespaceImport => NamespaceClass
    case OrderedDictImport => OrderedDictClass
    case ReducerImport => TensorReducer
    case TypeImport(dtype) =>
      StorageType(StorageClass(dtype, if ItemBytes(dtype).Some? then ItemBytes(dtype).value else 0))
  }

  function AtomValue(a: Atom): Value {
    match a
    case NoneAtom => NoneValue
    case BoolAtom(b) => Bool(b)
    case IntAtom(n) => Int(n)
    case FloatAtom(f) => FloatValue(f)
    case TextAtom(s) => Str(s)
    case ImportAtom(i) => ImportValue(i)
  }

  /** v, in a heap, is the tree d: its items in order and every tensor field in its place, all above `low`. */
  ghost predicate Shows(heap: Heap, v: Value, d: Doc, low: nat)
    decreases d, 2
  {
    match d
    case AtomDoc(a) => v == AtomValue(a)
    case StorageDoc(s) => v == Storage(s)
    case TensorDoc(t, _) => v == Tensor(t)
    case _ => v.Ref? && low <= v.id < |heap| && ShowsObject(heap, heap[v.id], d, low)
  }

  ghost predicate ShowsObject(heap: Heap, o: Object, d: Doc, low: nat)
    decreases d, 1
  {
    match d
    case ListDoc(ds) => o.List? && ShowsAll(heap, o.items, ds, low)
    case TupleDoc(ds) => o.Tuple? && ShowsAll(heap, o.items, ds, low)
    case SetDoc(atoms) => o == Set(AtomValues(atoms))
    case DictDoc(ks, ds) => o.Dict? && ShowsEntries(heap, o.entries, ks, ds, low)
    case NamespaceDoc(ks, ds) => o.Namespace? && ShowsEntries(heap, o.entries, ks, ds, low)
    case OrderedDoc(ks, ds, meta) =>
      && o.OrderedDict? && ShowsEntries(heap, o.entries, ks, ds, low)
      && (o.metadata.Some? <==> meta.Some?)
      && (meta.Some? ==> Shows(heap, o.metadata.value, meta.value, low))
    case _ => false
  }

  ghost predicate ShowsAll(heap: Heap, vs: seq<Value>, ds: seq<Doc>, low: nat)
    decreases ds, 0
  {
    |vs| == |ds| && forall i | 0 <= i < |ds| :: Shows(heap, vs[i], ds[i], low)
  }

  ghost predicate ShowsEntries(heap: Heap, es: Entries, ks: seq<Atom>, ds: seq<Doc>, low: nat)
    decreases ds, 0
  {
    && |es| == |ks| == |ds|
    && forall i | 0 <= i < |ds| :: es[i].0 == AtomValue(ks[i]) && Shows(heap, es[i].1, ds[i], low)
  }

  function AtomValues(atoms: seq<Atom>): seq<Value> {
    seq(|atoms|, i requires 0 <= i < |atoms| => AtomValue(atoms[i]))
  }

  // ---------------------------------------------------------------------------
  // The writer
  // ---------------------------------------------------------------------------

  /** MEMOIZE instead of numbered memo writes, and containers closed by LIST and DICT instead of filled. */
  datatype Style = Style(memoize: bool, marked: bool)

  /** What a stream can refer back to: texts and imports written before, and the number of memo writes. */
  datatype Memo = Memo(table: map<Atom, nat>, next: nat)

  const NO_MEMO := Memo(map[], 0)

  datatype Written = Written(ops: seq<Op>, memo: Memo)

  function StorageName(dtype: string): string {
    match dtype
    case "F32" => "FloatStorage"
    case "F64" => "DoubleStorage"
    case "F16" => "HalfStorage"
    case "BF16" => "BFloat16Storage"
    case "U8" => "ByteStorage"
    case "I8" => "CharStorage"
    case "I16" => "ShortStorage"
    case "I32" => "IntStorage"
    case "I64" => "LongStorage"
    case _ => "BoolStorage"
  }

  function ImportOp(i: Import): Op {
    match i
    case NamespaceImport => Global("argparse", "Namespace")
    case OrderedDictImport => Global("collections", "OrderedDict")
    case ReducerImport => Global("torch._utils", "_rebuild_tensor_v2")
    case TypeImport(dtype) => Global("torch", StorageName(dtype))
  }

  function AtomOp(a: Atom): Op {
    match a
    case NoneAtom => PushNone
    case BoolAtom(b) => PushBool(b)
    case IntAtom(n) => PushInt(n)
    case FloatAtom(f) => PushFloat(f)
    case TextAtom(s) => PushText(s)
    case ImportAtom(i) => ImportOp(i)
  }

  function MemoOp(st: Style, w: Memo): Op {
    if st.memoize then Memoize else Put(w.next)
  }

  function Noted(w: Memo): Memo {
    w.(next := w.next + 1)
  }

  /** Texts and imports are written once and fetched from the memo afterwards. */
  function WriteAtom(st: Style, a: Atom, w: Memo): Written {
    if !a.TextAtom? && !a.ImportAtom? then Written([AtomOp(a)], w)
    else if a in w.table then Written([Get(w.table[a])], w)
    else Written([AtomOp(a), MemoOp(st, w)], Memo(w.table[a := w.next], w.next + 1))
  }

  function WriteAtoms(st: Style, atoms: seq<Atom>, w: Memo): Written {
    if atoms == [] then Written([], w)
    else
      var first := WriteAtom(st, atoms[0], w);
      var rest := WriteAtoms(st, atoms[1..], first.memo);
      Written(first.ops + rest.ops, rest.memo)
  }

  /** Nothing for no item, `one` for a single item, and a marked batch for more. */
  function Batch(n: nat, one: Op, many: Op, ops: seq<Op>): seq<Op> {
    if n == 0 then [] else if n == 1 then ops + [one] else [Mark] + ops + [many]
  }

  function Weight(d: Doc): nat
    decreases d, 1
  {
    match d
    case AtomDoc(_) => 0
    case ListDoc(ds) => 1 + WeightAll(ds)
    case TupleDoc(ds) => 1 + WeightAll(ds)
    case SetDoc(_) => 1
    case DictDoc(_, ds) => 1 + WeightAll(ds)
    case OrderedDoc(_, ds, meta) => 4 + WeightAll(ds) + if meta.Some? then Weight(meta.value) else 0
    case NamespaceDoc(_, ds) => 2 + WeightAll(ds)
    case StorageDoc(_) => 10
    case TensorDoc(t, _) => 50 + |t.shape| + |t.stride|
  }

  function WeightAll(ds: seq<Doc>): nat
    decreases ds, 0
  {
    if ds == [] then 0 else 1 + Weight(ds[0]) + WeightAll(ds[1..])
  }

  function IntDocs(ns: seq<int>): seq<Doc> {
    if ns == [] then [] else [AtomDoc(IntAtom(ns[0]))] + IntDocs(ns[1..])
  }

  lemma {:induction false} IntDocsWeight(ns: seq<int>)
    ensures WeightAll(IntDocs(ns)) == |ns| && |IntDocs(ns)| == |ns|
  {
    if ns == [] {
    } else {
      IntDocsWeight(ns[1..]);
      assert IntDocs(ns)[1..] == IntDocs(ns[1..]);
    }
  }

  function Text(s: string): Doc {
    AtomDoc(TextAtom(s))
  }

  /** The persistent identifier of a storage. */
  function StorageId(s: StorageRef): Doc {
    TupleDoc([Text("storage"), AtomDoc(ImportAtom(TypeImport(s.dtype))), Text(s.key), Text(s.location),
              AtomDoc(IntAtom(s.numel))])
  }

  function StorageOf(t: TensorRef): StorageRef {
    StorageRef(t.dtype, if ItemBytes(t.dtype).Some? then ItemBytes(t.dtype).value else 0, t.storageKey, t.location,
               t.storageNumel)
  }

  /** The reducer's arguments: storage, offset, shape, stride, requires_grad and no backward hooks. */
  function TensorArgs(t: TensorRef, requiresGrad: bool): Doc {
    TupleDoc([StorageDoc(StorageOf(t)), AtomDoc(IntAtom(t.storageOffset)), TupleDoc(IntDocs(t.shape)),
              TupleDoc(IntDocs(t.stride)), AtomDoc(BoolAtom(requiresGrad)), OrderedDoc([], [], None)])
  }

  lemma ArgsWeight(t: TensorRef, requiresGrad: bool)
    ensures Weight(TensorArgs(t, requiresGrad)) < 50 + |t.shape| + |t.stride|
  {
    var a := TensorArgs(t, requiresGrad).items;
    WeightThree(a[..3]);
    WeightThree(a[3..]);
    WeightConcat(a[..3], a[3..]);
    assert a[..3] + a[3..] == a;
    IntDocsWeight(t.shape);
    IntDocsWeight(t.stride);
    assert WeightAll([]) == 0;
  }

  lemma StorageIdWeight(s: StorageRef)
    ensures Weight(StorageId(s)) < 10
  {
    var a := StorageId(s).items;
    WeightThree(a[..3]);
    WeightConcat(a[..3], a[3..]);
    assert a[..3] + a[3..] == a;
    WeightConcat([a[3]], [a[4]]);
    WeightOne(a[3]);
    WeightOne(a[4]);
    assert a[3..] == [a[3]] + [a[4]];
  }

  lemma WeightOne(d: Doc)
    ensures WeightAll([d]) == 1 + Weight(d)
  {
    hide Weight;
    assert [d][1..] == [];
  }

  lemma WeightThree(ds: seq<Doc>)
    requires |ds| == 3
    ensures WeightAll(ds) == 3 + Weight(ds[0]) + Weight(ds[1]) + Weight(ds[2])
  {
    hide Weight;
    WeightOne(ds[0]);
    WeightOne(ds[1]);
    WeightOne(ds[2]);
    WeightConcat([ds[0]], [ds[1]]);
    WeightConcat([ds[0]] + [ds[1]], [ds[2]]);
    assert ds == [ds[0]] + [ds[1]] + [ds[2]];
  }

  lemma {:induction false} WeightConcat(a: seq<Doc>, b: seq<Doc>)
    ensures WeightAll(a + b) == WeightAll(a) + WeightAll(b)
  {
    hide Weight;
    if a == [] {
      assert a + b == b;
    } else {
      assert (a + b)[1..] == a[1..] + b;
      WeightConcat(a[1..], b);
    }
  }

  function Write(st: Style, d: Doc, w: Memo): Written
    decreases Weight(d), 1
  {
    match d
    case AtomDoc(a) => WriteAtom(st, a, w)
    case ListDoc(ds) =>
      if st.marked then
        var body := WriteAll(st, ds, w);
        Written([Mark] + body.ops + [MarkList, MemoOp(st, body.memo)], Noted(body.memo))
      else
        var body := WriteAll(st, ds, Noted(w));
        Written([EmptyList, MemoOp(st, w)] + Batch(|ds|, Append, Appends, body.ops), body.memo)
    case TupleDoc(ds) =>
      if ds == [] then Written([EmptyTuple], w)
      else
        var body := WriteAll(st, ds, w);
        var ops := if |ds| <= 3 then body.ops + [ShortTuple(|ds|)] else [Mark] + body.ops + [MarkTuple];
        Written(ops + [MemoOp(st, body.memo)], Noted(body.memo))
    case SetDoc(atoms) =>
      var body := WriteAtoms(st, atoms, Noted(w));
      Written([EmptySet, MemoOp(st, w)] + (if atoms == [] then [] else [Mark] + body.ops + [AddItems]), body.memo)
    case DictDoc(ks, ds) =>
      if st.marked then
        var body := WritePairs(st, ks, ds, w);
        Written([Mark] + body.ops + [MarkDict, MemoOp(st, body.memo)], Noted(body.memo))
      else
        var body := WritePairs(st, ks, ds, Noted(w));
        Written([EmptyDict, MemoOp(st, w)] + Batch(|ds|, SetItem, SetItems, body.ops), body.memo)
    case OrderedDoc(ks, ds, meta) =>
      var class_ := WriteAtom(st, ImportAtom(OrderedDictImport), w);
      var body := WritePairs(st, ks, ds, Noted(class_.memo));
      var ops := class_.ops + [EmptyTuple, Reduce, MemoOp(st, class_.memo)] + Batch(|ds|, SetItem, SetItems, body.ops);
      if meta.None? then Written(ops, body.memo)
      else
        WeightOne(meta.value);
        var state := Write(st, DictDoc([TextAtom("_metadata")], [meta.value]), body.memo);
        Written(ops + state.ops + [Build], state.memo)
    case NamespaceDoc(ks, ds) =>
      var class_ := WriteAtom(st, ImportAtom(NamespaceImport), w);
      var state := Write(st, DictDoc(ks, ds), Noted(class_.memo));
      Written(class_.ops + [EmptyTuple, NewObj, MemoOp(st, class_.memo)] + state.ops + [Build], state.memo)
    case StorageDoc(s) =>
      StorageIdWeight(s);
      var pid := Write(st, StorageId(s), w);
      Written(pid.ops + [BinPersid], pid.memo)
    case TensorDoc(t, g) =>
      ArgsWeight(t, g);
      var reducer := WriteAtom(st, ImportAtom(ReducerImport), w);
      var args := Write(st, TensorArgs(t, g), reducer.memo);
      Written(reducer.ops + args.ops + [Reduce, MemoOp(st, args.memo)], Noted(args.memo))
  }

  function WriteAll(st: Style, ds: seq<Doc>, w: Memo): Written
    decreases WeightAll(ds), 0
  {
    if ds == [] then Written([], w)
    else
      var first := Write(st, ds[0], w);
      var rest := WriteAll(st, ds[1..], first.memo);
      Written(first.ops + rest.ops, rest.memo)
  }

  function WritePairs(st: Style, ks: seq<Atom>, ds: seq<Doc>, w: Memo): Written
    decreases WeightAll(ds), 0
  {
    if ds == [] || ks == [] then Written([], w)
    else
      var key := WriteAtom(st, ks[0], w);
      var first := Write(st, ds[0], key.memo);
      var rest := WritePairs(st, ks[1..], ds[1..], first.memo);
      Written(key.ops + first.ops + rest.ops, rest.memo)
  }

  /** A whole pickle. */
  function Pickle(st: Style, version: nat, d: Doc): seq<Op> {
    [Proto(version)] + Write(st, d, NO_MEMO).ops + [Stop]
  }
}
