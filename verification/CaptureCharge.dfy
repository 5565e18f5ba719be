/** What a capture is charged, in the terms of the checkpoint: when the two output budgets allow it. */
module CaptureCharge {
  import opened Wrappers
  import opened TensorView
  import opened PickleWriter
  import opened GraphWalk
  import opened Sorting
  import opened Capture
  import opened CheckpointCapture

  // ---------------------------------------------------------------------------
  // The charges
  // ---------------------------------------------------------------------------

  /** Six bytes a character, or the bytes of its UTF-8 form where these are more, and 64. */
  function TextCharge(s: string): nat {
    64 + if Utf8Length(s) < 6 * |s| then 6 * |s| else Utf8Length(s)
  }

  function KeysCharge(ks: seq<Atom>): nat {
    if ks == [] then 0 else TextCharge(KeyText(ks[0])) + KeysCharge(ks[1..])
  }

  /** A value and everything in it. */
  function Charge(d: Doc): nat
    decreases d, 1
  {
    match d
    case AtomDoc(TextAtom(s)) => TextCharge(s)
    case ListDoc(ds) => 64 + ChargeAll(ds)
    case TupleDoc(ds) => 96 + ChargeAll(ds)
    case DictDoc(ks, ds) => 96 + KeysCharge(ks) + ChargeAll(ds)
    case OrderedDoc(ks, ds, _) => 96 + KeysCharge(ks) + ChargeAll(ds)
    case _ => 64
  }

  function ChargeAll(ds: seq<Doc>): nat
    decreases ds, 0
  {
    if ds == [] then 0 else Charge(ds[0]) + ChargeAll(ds[1..])
  }

  /** The values in a value, itself included. */
  function Size(d: Doc): nat
    decreases d, 1
  {
    match d
    case ListDoc(ds) => 1 + SizeAll(ds)
    case TupleDoc(ds) => 1 + SizeAll(ds)
    case DictDoc(_, ds) => 1 + SizeAll(ds)
    case OrderedDoc(_, ds, _) => 1 + SizeAll(ds)
    case _ => 1
  }

  function SizeAll(ds: seq<Doc>): nat
    decreases ds, 0
  {
    if ds == [] then 0 else Size(ds[0]) + SizeAll(ds[1..])
  }

  function NamesCharge<T>(s: seq<(string, T)>): nat {
    if s == [] then 0 else TextCharge(s[0].0) + NamesCharge(s[1..])
  }

  function TensorCharge(t: TensorRef): nat {
    TextCharge(t.storageKey) + TextCharge(t.location) + 512 + 64 * (|t.shape| + |t.stride|)
  }

  function TensorsCharge(ts: seq<(string, TensorRef)>): nat {
    if ts == [] then 0 else TensorCharge(ts[0].1) + TensorsCharge(ts[1..])
  }

  // ---------------------------------------------------------------------------
  // The walk charges them
  // ---------------------------------------------------------------------------

  lemma TextCharged(s: string)
    ensures TextCost(s) == TextCharge(s)
  {}

  lemma {:induction false} DocCharged(d: Doc)
    ensures Cost(TreeOf(d)) == Charge(d) && Nodes(TreeOf(d)) == Size(d)
    decreases d, 1
  {
    hide TextCost, TextCharge;
    match d
    case AtomDoc(a) => if a.TextAtom? { TextCharged(a.s); }
    case ListDoc(ds) => AllCharged(ds);
    case TupleDoc(ds) => AllCharged(ds);
    case DictDoc(ks, ds) =>
      KeysCharged(ks);
      AllCharged(ds);
    case OrderedDoc(ks, ds, _) =>
      KeysCharged(ks);
      AllCharged(ds);
    case _ =>
  }

  lemma {:induction false} AllCharged(ds: seq<Doc>)
    ensures CostOf(TreesOf(ds)) == ChargeAll(ds) && NodesOf(TreesOf(ds)) == SizeAll(ds)
    decreases ds, 0
  {
    if ds == [] {
    } else {
      DocCharged(ds[0]);
      AllCharged(ds[1..]);
      assert TreesOf(ds)[1..] == TreesOf(ds[1..]);
    }
  }

  lemma {:induction false} KeysCharged(ks: seq<Atom>)
    ensures KeysCost(KeyTexts(ks)) == KeysCharge(ks)
  {
    if ks == [] {
    } else {
      TextCharged(KeyText(ks[0]));
      KeysCharged(ks[1..]);
      assert KeyTexts(ks)[1..] == KeyTexts(ks[1..]);
    }
  }

  lemma {:induction false} FieldsCharged(fs: DocFields)
    ensures FieldOutput(fs) == NamesCharge(fs) + ChargeAll(Docs(fs)) && FieldNodes(fs) == SizeAll(Docs(fs))
  {
    hide TextCost, TextCharge, Cost, Charge, Nodes, Size, TreeOf;
    if fs == [] {
    } else {
      TextCharged(fs[0].0);
      DocCharged(fs[0].1);
      FieldsCharged(fs[1..]);
      assert Docs(fs)[1..] == Docs(fs[1..]);
    }
  }

  lemma {:induction false} TensorsCharged(ts: seq<(string, TensorRef)>)
    ensures TensorOutput(ts) == NamesCharge(ts) + TensorsCharge(ts)
  {
    hide TextCost, TextCharge;
    if ts == [] {
    } else {
      TextCharged(ts[0].0);
      TextCharged(ts[0].1.storageKey);
      TextCharged(ts[0].1.location);
      TensorsCharged(ts[1..]);
    }
  }

  /** Sorting the fields changes neither sum. */
  lemma {:induction false} InsertedFields(f: (string, Doc), fs: DocFields)
    ensures FieldOutput(Insert(NameBefore<Doc>, f, fs)) == FieldOutput([f]) + FieldOutput(fs)
    ensures FieldNodes(Insert(NameBefore<Doc>, f, fs)) == FieldNodes([f]) + FieldNodes(fs)
  {
    hide TextCost, Cost, Nodes, TreeOf, NameBefore;
    assert [f][1..] == [];
    if fs != [] && NameBefore(fs[0], f) {
      var r := Insert(NameBefore<Doc>, f, fs[1..]);
      InsertedFields(f, fs[1..]);
      assert ([fs[0]] + r)[1..] == r;
    } else {
      assert ([f] + fs)[1..] == fs;
    }
  }

  lemma {:induction false} SortedFields(fs: DocFields)
    ensures FieldOutput(SortByName(fs)) == FieldOutput(fs) && FieldNodes(SortByName(fs)) == FieldNodes(fs)
  {
    hide TextCost, Cost, Nodes, TreeOf, Insert;
    if fs == [] {
    } else {
      SortedFields(fs[1..]);
      InsertedFields(fs[0], SortByName(fs[1..]));
      assert [fs[0]][1..] == [];
    }
  }

  /**
   The budgets, exactly.  A checkpoint is affordable if and only if its argument values, tensors and metadata are at
   most 8192 values, and their charges, those of their names, and 8192 for the report itself at most 2 MiB.
   */
  lemma AffordableExact(c: Checkpoint)
    ensures var meta := if c.metadata.Some? then [c.metadata.value] else [];
            Affordable(c) <==>
              && SizeAll(Docs(c.args)) + |c.tensors| + SizeAll(meta) <= 8192
              && NamesCharge(c.args) + ChargeAll(Docs(c.args)) + NamesCharge(c.tensors) + TensorsCharge(c.tensors)
                 + ChargeAll(meta) + 8192 <= 2 * 1024 * 1024
  {
    hide FieldOutput, FieldNodes, TensorOutput, Cost, Nodes, TreeOf, Charge, Size, NamesCharge, TensorsCharge,
      SortByName;
    SortedFields(c.args);
    FieldsCharged(c.args);
    TensorsCharged(c.tensors);
    if c.metadata.Some? {
      DocCharged(c.metadata.value);
      assert [c.metadata.value][1..] == [];
    }
  }
}
