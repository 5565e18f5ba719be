/**
 The capture of a checkpoint a pickle writer wrote: the report has every field of its arguments and every tensor's
 descriptor under their own names, and it is made exactly when arguments and budgets allow it.
 */
module CheckpointCapture {
  import opened Sequences
  import opened Wrappers
  import opened TensorView
  import opened PickleValues
  import opened Preflight
  import opened PickleMachine
  import opened PickleWriter
  import opened Json
  import opened GraphWalk
  import opened Sorting
  import opened Capture
  import PickleRoundTrip
  import PickleAccepted

  // ---------------------------------------------------------------------------
  // Checkpoints
  // ---------------------------------------------------------------------------

  type DocFields = seq<(string, Doc)>

  datatype Checkpoint = Checkpoint(args: DocFields, tensors: seq<(string, TensorRef)>, metadata: Option<Doc>)

  function Names<T>(s: seq<(string, T)>): seq<string> {
    seq(|s|, i requires 0 <= i < |s| => s[i].0)
  }

  function TextKeys<T>(s: seq<(string, T)>): seq<Atom> {
    seq(|s|, i requires 0 <= i < |s| => TextAtom(s[i].0))
  }

  function Docs(s: DocFields): seq<Doc> {
    seq(|s|, i requires 0 <= i < |s| => s[i].1)
  }

  function TensorDocs(ts: seq<(string, TensorRef)>): seq<Doc> {
    seq(|ts|, i requires 0 <= i < |ts| => TensorDoc(ts[i].1, false))
  }

  function ArgsDoc(c: Checkpoint): Doc {
    NamespaceDoc(TextKeys(c.args), Docs(c.args))
  }

  function StateDoc(c: Checkpoint): Doc {
    OrderedDoc(TextKeys(c.tensors), TensorDocs(c.tensors), c.metadata)
  }

  function AsDoc(c: Checkpoint): Doc {
    DictDoc([TextAtom("args"), TextAtom("model_state_dict")], [ArgsDoc(c), StateDoc(c)])
  }

  // ---------------------------------------------------------------------------
  // What a report can show, and how
  // ---------------------------------------------------------------------------

  /** A key that may be shown: a bounded text that is not the name of a credential. */
  predicate ShowableKey(fold: Fold, s: string) {
    0 < Utf8Length(s) <= MAX_STRING_BYTES && fold(s) !in SENSITIVE_ARG_KEYS
  }

  predicate ShowableAtom(a: Atom) {
    match a
    case NoneAtom => true
    case BoolAtom(_) => true
    case IntAtom(n) => -MAX_INTEGER <= n <= MAX_INTEGER
    case FloatAtom(f) => f.Finite?
    case TextAtom(s) => Utf8Length(s) <= MAX_STRING_BYTES
    case ImportAtom(_) => false
  }

  predicate Showable(fold: Fold, d: Doc)
    decreases d, 1
  {
    match d
    case AtomDoc(a) => ShowableAtom(a)
    case ListDoc(ds) => |ds| <= MAX_CONTAINER_ITEMS && AllShowable(fold, ds)
    case TupleDoc(ds) => |ds| <= MAX_CONTAINER_ITEMS && AllShowable(fold, ds)
    case DictDoc(ks, ds) => |ks| == |ds| <= MAX_CONTAINER_ITEMS && ShowableKeys(fold, ks) && AllShowable(fold, ds)
    case OrderedDoc(ks, ds, meta) =>
      |ks| == |ds| <= MAX_CONTAINER_ITEMS && ShowableKeys(fold, ks) && AllShowable(fold, ds) && meta.None?
    case _ => false
  }

  predicate ShowableKeys(fold: Fold, ks: seq<Atom>) {
    forall i | 0 <= i < |ks| :: ks[i].TextAtom? && ShowableKey(fold, ks[i].s)
  }

  predicate AllShowable(fold: Fold, ds: seq<Doc>)
    decreases ds, 0
  {
    forall i | 0 <= i < |ds| :: Showable(fold, ds[i])
  }

  function JsonOfAtom(a: Atom): Json {
    match a
    case BoolAtom(b) => JBool(b)
    case IntAtom(n) => JInt(n)
    case FloatAtom(Finite(_, repr)) => JFloat(repr)
    case TextAtom(s) => JString(s)
    case _ => JNull
  }

  function KeyText(a: Atom): string {
    if a.TextAtom? then a.s else ""
  }

  /** A tree as the report shows it; a tuple under a marker of its own. */
  function JsonOf(d: Doc): Json
    decreases d, 1
  {
    match d
    case AtomDoc(a) => JsonOfAtom(a)
    case ListDoc(ds) => JArray(JsonsOf(ds))
    case TupleDoc(ds) => JObject([("__tuple__", JArray(JsonsOf(ds)))])
    case DictDoc(ks, ds) => JObject(MembersOf(ks, ds))
    case OrderedDoc(ks, ds, _) => JObject(MembersOf(ks, ds))
    case _ => JNull
  }

  function JsonsOf(ds: seq<Doc>): seq<Json>
    decreases ds, 0
  {
    if ds == [] then [] else [JsonOf(ds[0])] + JsonsOf(ds[1..])
  }

  function MembersOf(ks: seq<Atom>, ds: seq<Doc>): seq<(string, Json)>
    decreases ds, 0
  {
    if ds == [] || ks == [] then [] else [(KeyText(ks[0]), JsonOf(ds[0]))] + MembersOf(ks[1..], ds[1..])
  }

  // ---------------------------------------------------------------------------
  // A shown tree is walked as itself
  // ---------------------------------------------------------------------------

  function TreeOf(d: Doc): Tree
    decreases d, 1
  {
    match d
    case AtomDoc(a) => Leaf(AtomValue(a))
    case ListDoc(ds) => ListTree(TreesOf(ds))
    case TupleDoc(ds) => TupleTree(TreesOf(ds))
    case DictDoc(ks, ds) => DictTree(KeyTexts(ks), TreesOf(ds))
    case OrderedDoc(ks, ds, _) => DictTree(KeyTexts(ks), TreesOf(ds))
    case _ => Leaf(NoneValue)
  }

  function TreesOf(ds: seq<Doc>): (ts: seq<Tree>)
    ensures |ts| == |ds|
    ensures forall i | 0 <= i < |ds| :: ts[i] == TreeOf(ds[i])
    decreases ds, 0
  {
    if ds == [] then [] else [TreeOf(ds[0])] + TreesOf(ds[1..])
  }

  function KeyTexts(ks: seq<Atom>): seq<string> {
    seq(|ks|, i requires 0 <= i < |ks| => KeyText(ks[i]))
  }

  lemma {:induction false} ShownUnfolds(fold: Fold, heap: Heap, v: Value, d: Doc, low: nat)
    requires Shows(heap, v, d, low) && Showable(fold, d)
    ensures Unfolds(fold, heap, v, TreeOf(d))
    decreases d, 1
  {
    match d
    case AtomDoc(_) =>
    case ListDoc(ds) => AllUnfold(fold, heap, heap[v.id].items, ds, low);
    case TupleDoc(ds) => AllUnfold(fold, heap, heap[v.id].items, ds, low);
    case DictDoc(ks, ds) => EntriesUnfold(fold, heap, heap[v.id].entries, ks, ds, low);
    case OrderedDoc(ks, ds, _) => EntriesUnfold(fold, heap, heap[v.id].entries, ks, ds, low);
  }

  lemma {:induction false} AllUnfold(fold: Fold, heap: Heap, vs: seq<Value>, ds: seq<Doc>, low: nat)
    requires ShowsAll(heap, vs, ds, low) && AllShowable(fold, ds)
    ensures UnfoldAll(fold, heap, vs, TreesOf(ds))
    decreases ds, 0
  {
    forall i | 0 <= i < |ds| ensures Unfolds(fold, heap, vs[i], TreesOf(ds)[i]) {
      ShownUnfolds(fold, heap, vs[i], ds[i], low);
    }
  }

  lemma {:induction false} EntriesUnfold(fold: Fold, heap: Heap, es: Entries, ks: seq<Atom>, ds: seq<Doc>, low: nat)
    requires ShowsEntries(heap, es, ks, ds, low) && ShowableKeys(fold, ks) && AllShowable(fold, ds)
    ensures UnfoldEntries(fold, heap, es, KeyTexts(ks), TreesOf(ds))
    decreases ds, 0
  {
    forall i | 0 <= i < |ds|
      ensures KeyOk(fold, es[i].0) && es[i].0.s == KeyTexts(ks)[i] && Unfolds(fold, heap, es[i].1, TreesOf(ds)[i])
    {
      assert es[i].0 == AtomValue(ks[i]) && ShowableKey(fold, ks[i].s);
      ShownUnfolds(fold, heap, es[i].1, ds[i], low);
    }
  }

  lemma {:induction false} TreeRenders(fold: Fold, d: Doc)
    requires Showable(fold, d)
    ensures Render(TreeOf(d)) == JsonOf(d)
    decreases d, 1
  {
    match d
    case AtomDoc(_) =>
    case ListDoc(ds) => AllRender(fold, ds);
    case TupleDoc(ds) => AllRender(fold, ds);
    case DictDoc(ks, ds) => EntriesRender(fold, ks, ds);
    case OrderedDoc(ks, ds, _) => EntriesRender(fold, ks, ds);
  }

  lemma {:induction false} AllRender(fold: Fold, ds: seq<Doc>)
    requires AllShowable(fold, ds)
    ensures RenderAll(TreesOf(ds)) == JsonsOf(ds)
    decreases ds, 0
  {
    if ds == [] {
    } else {
      TreeRenders(fold, ds[0]);
      AllRender(fold, ds[1..]);
      assert TreesOf(ds)[1..] == TreesOf(ds[1..]);
    }
  }

  lemma {:induction false} EntriesRender(fold: Fold, ks: seq<Atom>, ds: seq<Doc>)
    requires |ks| == |ds| && AllShowable(fold, ds)
    ensures RenderEntries(KeyTexts(ks), TreesOf(ds)) == MembersOf(ks, ds)
    decreases ds, 0
  {
    if ds == [] {
    } else {
      TreeRenders(fold, ds[0]);
      EntriesRender(fold, ks[1..], ds[1..]);
      assert TreesOf(ds)[1..] == TreesOf(ds[1..]) && KeyTexts(ks)[1..] == KeyTexts(ks[1..]);
    }
  }

  /** The walk of a shown tree, exactly. */
  lemma ShownWalk(fold: Fold, heap: Heap, v: Value, d: Doc, low: nat, b: Budget)
    requires Shows(heap, v, d, low) && Showable(fold, d) && Height(TreeOf(d)) <= MAX_DEPTH
    ensures var w, t := Walk(fold, heap, v, {}, b, 0), TreeOf(d);
            && (w.value.Some? <==> Nodes(t) <= b.remaining && Cost(t) <= b.output)
            && (w.value.Some? ==> w == Walked(Some(JsonOf(d)), Budget(b.remaining - Nodes(t), b.output - Cost(t))))
  {
    hide Walk, Unfolds, Nodes, Cost, Render, Height;
    ShownUnfolds(fold, heap, v, d, low);
    TreeRenders(fold, d);
    WalkExact(fold, heap, v, b);
    var t := TreeOf(d);
    if Walk(fold, heap, v, {}, b, 0).value.Some? {
      var u :| FitsBudget(fold, heap, v, b, u);
      UnfoldUnique(fold, heap, v, t, u);
    }
    assert Nodes(t) <= b.remaining && Cost(t) <= b.output ==> FitsBudget(fold, heap, v, b, t);
  }

  // ---------------------------------------------------------------------------
  // Arguments
  // ---------------------------------------------------------------------------

  /** The fields on the heap are the written ones, in the same order. */
  ghost predicate Paired(heap: Heap, fs: Fields, ds: DocFields) {
    |fs| == |ds| && forall i | 0 <= i < |ds| :: fs[i].0 == ds[i].0 && Shows(heap, fs[i].1, ds[i].1, 0)
  }

  lemma {:induction false} InsertPaired(heap: Heap, x: (string, Value), y: (string, Doc), fs: Fields, ds: DocFields)
    requires Paired(heap, fs, ds) && x.0 == y.0 && Shows(heap, x.1, y.1, 0)
    ensures Paired(heap, Insert(NameBefore<Value>, x, fs), Insert(NameBefore<Doc>, y, ds))
  {
    hide Shows;
    if ds == [] {
    } else if NameBefore(fs[0], x) {
      InsertPaired(heap, x, y, fs[1..], ds[1..]);
    }
  }

  lemma {:induction false} SortPaired(heap: Heap, fs: Fields, ds: DocFields)
    requires Paired(heap, fs, ds)
    ensures Paired(heap, SortByName(fs), SortByName(ds))
    decreases |fs|
  {
    hide Shows, Insert;
    if ds == [] {
    } else {
      assert Paired(heap, fs[1..], ds[1..]);
      SortPaired(heap, fs[1..], ds[1..]);
      InsertPaired(heap, fs[0], ds[0], SortByName(fs[1..]), SortByName(ds[1..]));
    }
  }

  ghost predicate FieldsShowable(fold: Fold, ds: DocFields) {
    forall i | 0 <= i < |ds| :: Showable(fold, ds[i].1) && Height(TreeOf(ds[i].1)) <= MAX_DEPTH
  }

  lemma SortShowable(fold: Fold, ds: DocFields)
    requires FieldsShowable(fold, ds)
    ensures FieldsShowable(fold, SortByName(ds))
  {
    hide Showable, Height, SortByName;
    SortByNameMembers(ds);
    forall i | 0 <= i < |SortByName(ds)|
      ensures Showable(fold, SortByName(ds)[i].1) && Height(TreeOf(SortByName(ds)[i].1)) <= MAX_DEPTH
    {
      assert SortByName(ds)[i] in ds;
    }
  }

  function FieldNodes(ds: DocFields): nat {
    if ds == [] then 0 else Nodes(TreeOf(ds[0].1)) + FieldNodes(ds[1..])
  }

  function FieldOutput(ds: DocFields): nat {
    if ds == [] then 0 else TextCost(ds[0].0) + Cost(TreeOf(ds[0].1)) + FieldOutput(ds[1..])
  }

  function FieldsJson(ds: DocFields): seq<(string, Json)> {
    if ds == [] then [] else [(ds[0].0, JsonOf(ds[0].1))] + FieldsJson(ds[1..])
  }

  lemma {:induction false} FieldsExact(fold: Fold, heap: Heap, fs: Fields, ds: DocFields, b: Budget)
    requires Paired(heap, fs, ds) && FieldsShowable(fold, ds) && b.remaining >= 0 && b.output >= 0
    ensures var w := WalkFields(fold, heap, fs, b);
            && (w.value.Some? <==> FieldNodes(ds) <= b.remaining && FieldOutput(ds) <= b.output)
            && (w.value.Some? ==> w == Walked(Some(FieldsJson(ds)),
                                              Budget(b.remaining - FieldNodes(ds), b.output - FieldOutput(ds))))
    decreases |fs|
  {
    hide Shows, Showable, Height, Walk, Nodes, Cost, TextCost, JsonOf, TreeOf;
    if ds == [] {
    } else {
      var b0 := b.(output := b.output - TextCost(fs[0].0));
      if b0.output >= 0 {
        ShownWalk(fold, heap, fs[0].1, ds[0].1, 0, b0);
        var w := Walk(fold, heap, fs[0].1, {}, b0, 0);
        if w.value.Some? { FieldsExact(fold, heap, fs[1..], ds[1..], w.budget); }
      }
    }
  }

  /** The field of a name. */
  function FieldOf(ds: DocFields, name: string): Option<Doc> {
    if ds == [] then None else if ds[0].0 == name then Some(ds[0].1) else FieldOf(ds[1..], name)
  }

  predicate CountDoc(d: Option<Doc>) {
    d.Some? && d.value.AtomDoc? && d.value.atom.IntAtom? && 0 <= d.value.atom.n <= MAX_INTEGER
  }

  predicate RateDoc(d: Option<Doc>) {
    d.Some? && d.value.AtomDoc?
    && match d.value.atom
       case IntAtom(n) => 0 <= n <= 1
       case FloatAtom(Finite(x, _)) => 0.0 <= x <= 1.0
       case _ => false
  }

  /** The arguments the reader takes. */
  predicate ArgsFit(fold: Fold, ds: DocFields) {
    && |ds| <= MAX_CONTAINER_ITEMS
    && (forall i | 0 <= i < |ds| :: ShowableKey(fold, ds[i].0))
    && CountDoc(FieldOf(ds, "idim")) && CountDoc(FieldOf(ds, "n_layers_enc")) && CountDoc(FieldOf(ds, "n_head"))
    && CountDoc(FieldOf(ds, "d_model")) && CountDoc(FieldOf(ds, "kernel_size")) && CountDoc(FieldOf(ds, "pe_maxlen"))
    && CountDoc(FieldOf(ds, "sos_id")) && CountDoc(FieldOf(ds, "eos_id")) && CountDoc(FieldOf(ds, "pad_id"))
    && CountDoc(FieldOf(ds, "odim")) && CountDoc(FieldOf(ds, "n_layers_dec"))
    && RateDoc(FieldOf(ds, "residual_dropout")) && RateDoc(FieldOf(ds, "dropout_rate"))
  }

  lemma {:induction false} LookupShown(heap: Heap, es: Entries, ds: DocFields, name: string)
    requires ShowsEntries(heap, es, TextKeys(ds), Docs(ds), 0)
    ensures Lookup(es, name).Some? <==> FieldOf(ds, name).Some?
    ensures FieldOf(ds, name).Some? ==> Shows(heap, Lookup(es, name).value, FieldOf(ds, name).value, 0)
    decreases |ds|
  {
    hide Shows;
    if ds == [] {
    } else {
      assert TextKeys(ds)[1..] == TextKeys(ds[1..]) && Docs(ds)[1..] == Docs(ds[1..]);
      assert es[0].0 == AtomValue(TextKeys(ds)[0]) && Shows(heap, es[0].1, Docs(ds)[0], 0);
      EntriesTail(heap, es, TextKeys(ds), Docs(ds));
      LookupShown(heap, es[1..], ds[1..], name);
    }
  }

  lemma EntriesTail(heap: Heap, es: Entries, ks: seq<Atom>, ds: seq<Doc>)
    requires ds != [] && ShowsEntries(heap, es, ks, ds, 0)
    ensures ShowsEntries(heap, es[1..], ks[1..], ds[1..], 0)
  {
    hide Shows;
    forall i | 0 <= i < |ds| - 1
      ensures es[1..][i].0 == AtomValue(ks[1..][i]) && Shows(heap, es[1..][i].1, ds[1..][i], 0)
    {
      assert es[i + 1].0 == AtomValue(ks[i + 1]) && Shows(heap, es[i + 1].1, ds[i + 1], 0);
    }
  }

  lemma NumbersShown(heap: Heap, es: Entries, ds: DocFields, name: string)
    requires ShowsEntries(heap, es, TextKeys(ds), Docs(ds), 0)
    ensures NonNegative(Lookup(es, name)) <==> CountDoc(FieldOf(ds, name))
    ensures UnitInterval(Lookup(es, name)) <==> RateDoc(FieldOf(ds, name))
  {
    LookupShown(heap, es, ds, name);
  }

  lemma ArgsShown(fold: Fold, heap: Heap, es: Entries, ds: DocFields)
    requires ShowsEntries(heap, es, TextKeys(ds), Docs(ds), 0)
    ensures ArgsAcceptable(fold, es) <==> ArgsFit(fold, ds)
    ensures ArgsAcceptable(fold, es) ==> Paired(heap, Named(es), ds)
  {
    hide Lookup, FieldOf, NonNegative, UnitInterval, CountDoc, RateDoc, Shows, BoundedText;
    forall name: string
      ensures NonNegative(Lookup(es, name)) <==> CountDoc(FieldOf(ds, name))
      ensures UnitInterval(Lookup(es, name)) <==> RateDoc(FieldOf(ds, name))
    {
      NumbersShown(heap, es, ds, name);
    }
    assert forall i | 0 <= i < |ds| :: es[i].0 == AtomValue(TextKeys(ds)[i]) && Shows(heap, es[i].1, Docs(ds)[i], 0);
    KeysShown(fold, heap, es, ds);
    MandatoryFields();
  }

  lemma KeysShown(fold: Fold, heap: Heap, es: Entries, ds: DocFields)
    requires ShowsEntries(heap, es, TextKeys(ds), Docs(ds), 0)
    ensures forall i | 0 <= i < |ds| :: KeyOk(fold, es[i].0) <==> ShowableKey(fold, ds[i].0)
  {
    forall i | 0 <= i < |ds| ensures KeyOk(fold, es[i].0) <==> ShowableKey(fold, ds[i].0) {
      assert es[i].0 == AtomValue(TextKeys(ds)[i]);
    }
  }

  lemma MandatoryFields()
    ensures |MANDATORY_INTEGERS| == 11 && |MANDATORY_DROPOUTS| == 2
    ensures MANDATORY_INTEGERS[0] == "idim" && MANDATORY_INTEGERS[1] == "n_layers_enc"
    ensures MANDATORY_INTEGERS[2] == "n_head"
    ensures MANDATORY_INTEGERS[3] == "d_model" && MANDATORY_INTEGERS[4] == "kernel_size"
    ensures MANDATORY_INTEGERS[5] == "pe_maxlen" && MANDATORY_INTEGERS[6] == "sos_id"
    ensures MANDATORY_INTEGERS[7] == "eos_id" && MANDATORY_INTEGERS[8] == "pad_id"
    ensures MANDATORY_INTEGERS[9] == "odim" && MANDATORY_INTEGERS[10] == "n_layers_dec"
    ensures MANDATORY_DROPOUTS[0] == "residual_dropout" && MANDATORY_DROPOUTS[1] == "dropout_rate"
  {}

  lemma ArgsExact(fold: Fold, heap: Heap, es: Entries, ds: DocFields, b: Budget)
    requires ShowsEntries(heap, es, TextKeys(ds), Docs(ds), 0) && FieldsShowable(fold, ds)
    requires b.remaining >= 0 && b.output >= 0
    ensures var w, sorted := ArgsResult(fold, heap, es, b), SortByName(ds);
            && (w.value.Some? <==>
                  ArgsFit(fold, ds) && FieldNodes(sorted) <= b.remaining && FieldOutput(sorted) <= b.output)
            && (w.value.Some? ==> w == Walked(Some(FieldsJson(sorted)),
                                              Budget(b.remaining - FieldNodes(sorted), b.output - FieldOutput(sorted))))
  {
    hide ArgsAcceptable, ArgsFit, Paired, FieldsShowable, WalkFields, SortByName, FieldNodes, FieldOutput, FieldsJson,
      Named;
    ArgsShown(fold, heap, es, ds);
    if ArgsAcceptable(fold, es) {
      SortPaired(heap, Named(es), ds);
      SortShowable(fold, ds);
      FieldsExact(fold, heap, SortByName(Named(es)), SortByName(ds), b);
    }
  }

  // ---------------------------------------------------------------------------
  // Tensors and their metadata
  // ---------------------------------------------------------------------------

  function TensorOutput(ts: seq<(string, TensorRef)>): nat {
    if ts == [] then 0 else DescriptorCost(ts[0].0, ts[0].1) + TensorOutput(ts[1..])
  }

  lemma {:induction false} TensorsExact(es: Entries, ts: seq<(string, TensorRef)>, b: Budget)
    requires |es| == |ts| && b.remaining >= 0 && b.output >= 0
    requires forall i | 0 <= i < |ts| :: es[i] == (Str(ts[i].0), Tensor(ts[i].1)) && ValidTensor(ts[i].1)
    ensures var w := WalkTensors(es, b);
            && (w.value.Some? <==>
                  && (forall i | 0 <= i < |ts| :: BoundedText(ts[i].0))
                  && |ts| <= b.remaining && TensorOutput(ts) <= b.output)
            && (w.value.Some? ==> w == Walked(Some(ts), Budget(b.remaining - |ts|, b.output - TensorOutput(ts))))
    decreases |es|
  {
    hide ValidTensor, DescriptorCost, BoundedText, ValidateTensorRef;
    if ts == [] {
    } else {
      RevalidationExact(ts[0].1);
      var b1 := Budget(b.remaining - 1, b.output - DescriptorCost(ts[0].0, ts[0].1));
      if b1.remaining >= 0 && b1.output >= 0 { TensorsExact(es[1..], ts[1..], b1); }
      assert [ts[0]] + ts[1..] == ts;
      assert (forall i | 0 <= i < |ts| :: BoundedText(ts[i].0))
         <==> BoundedText(ts[0].0) && forall i | 0 <= i < |ts[1..]| :: BoundedText(ts[1..][i].0) by {
        SplitForall(ts);
      }
    }
  }

  lemma SplitForall(ts: seq<(string, TensorRef)>)
    requires ts != []
    ensures (forall i | 0 <= i < |ts| :: BoundedText(ts[i].0))
            <==> BoundedText(ts[0].0) && forall i | 0 <= i < |ts[1..]| :: BoundedText(ts[1..][i].0)
  {
    hide BoundedText;
    if BoundedText(ts[0].0) && forall i | 0 <= i < |ts[1..]| :: BoundedText(ts[1..][i].0) {
      forall i | 0 <= i < |ts| ensures BoundedText(ts[i].0) {
        if i > 0 { assert ts[i] == ts[1..][i - 1]; }
      }
    }
  }

  function MetaNodes(meta: Option<Doc>): nat {
    if meta.None? then 0 else Nodes(TreeOf(meta.value))
  }

  function MetaOutput(meta: Option<Doc>): nat {
    if meta.None? then 0 else Cost(TreeOf(meta.value))
  }

  function MetaJson(meta: Option<Doc>): Json {
    if meta.None? then JNull else JsonOf(meta.value)
  }

  predicate MetaShowable(fold: Fold, meta: Option<Doc>) {
    meta.Some? ==> PickleRoundTrip.MetadataDoc(meta.value) && Showable(fold, meta.value)
                   && Height(TreeOf(meta.value)) <= MAX_DEPTH
  }

  predicate TensorsFit(ts: seq<(string, TensorRef)>) {
    0 < |ts| <= MAX_CONTAINER_ITEMS && forall i | 0 <= i < |ts| :: 0 < Utf8Length(ts[i].0) <= MAX_STRING_BYTES
  }

  lemma StateExact(fold: Fold, heap: Heap, v: Value, c: Checkpoint, b: Budget)
    requires Shows(heap, v, StateDoc(c), 0) && MetaShowable(fold, c.metadata)
    requires forall i | 0 <= i < |c.tensors| :: ValidTensor(c.tensors[i].1)
    requires b.remaining >= 0 && b.output >= 0
    ensures var w := StateResult(fold, heap, v, b);
            && (w.value.Some? <==> TensorsFit(c.tensors)
                                   && |c.tensors| + MetaNodes(c.metadata) <= b.remaining
                                   && TensorOutput(c.tensors) + MetaOutput(c.metadata) <= b.output)
            && (w.value.Some? ==>
                  w == Walked(Some((c.tensors, MetaJson(c.metadata))),
                              Budget(b.remaining - |c.tensors| - MetaNodes(c.metadata),
                                     b.output - TensorOutput(c.tensors) - MetaOutput(c.metadata))))
  {
    hide ValidTensor, WalkTensors, TensorOutput, Walk, Nodes, Cost, Height, Showable, JsonOf, TreeOf, Utf8Length;
    PickleRoundTrip.ObjectShown(heap, v, StateDoc(c), 0);
    var es := heap[v.id].entries;
    TensorEntries(heap, es, c.tensors);
    TensorsExact(es, c.tensors, b);
    if c.metadata.Some? {
      var meta, d := heap[v.id].metadata.value, c.metadata.value;
      MetaMapping(heap, meta, d);
      var w := WalkTensors(es, b);
      if w.value.Some? { ShownWalk(fold, heap, meta, d, 0, w.budget); }
    }
  }

  lemma TensorEntries(heap: Heap, es: Entries, ts: seq<(string, TensorRef)>)
    requires ShowsEntries(heap, es, TextKeys(ts), TensorDocs(ts), 0)
    ensures |es| == |ts| && forall i | 0 <= i < |ts| :: es[i] == (Str(ts[i].0), Tensor(ts[i].1))
  {
    forall i | 0 <= i < |ts| ensures es[i] == (Str(ts[i].0), Tensor(ts[i].1)) {
      assert es[i].0 == AtomValue(TextKeys(ts)[i]) && Shows(heap, es[i].1, TensorDocs(ts)[i], 0);
    }
  }

  lemma MetaMapping(heap: Heap, v: Value, d: Doc)
    requires Shows(heap, v, d, 0) && PickleRoundTrip.MetadataDoc(d)
    ensures MetadataMapping(heap, v) && !v.NoneValue?
  {
    hide Shows;
    PickleRoundTrip.ObjectShown(heap, v, d, 0);
  }

  // ---------------------------------------------------------------------------
  // The root
  // ---------------------------------------------------------------------------

  /** The whole capture of a checkpoint fits the budgets. */
  predicate Affordable(c: Checkpoint) {
    var sorted := SortByName(c.args);
    && FieldNodes(sorted) + |c.tensors| + MetaNodes(c.metadata) <= MAX_OUTPUT_NODES
    && FieldOutput(sorted) + TensorOutput(c.tensors) + MetaOutput(c.metadata) + FIXED_REPORT_COST <= MAX_OUTPUT_BYTES
  }

  /** What the report shows of a checkpoint. */
  function Shown(c: Checkpoint): Captured {
    Captured(FieldsJson(SortByName(c.args)), c.tensors, MetaJson(c.metadata))
  }

  ghost predicate Presentable(fold: Fold, c: Checkpoint) {
    && FieldsShowable(fold, c.args) && MetaShowable(fold, c.metadata)
    && forall i | 0 <= i < |c.tensors| :: ValidTensor(c.tensors[i].1)
  }

  lemma EnvelopeShown(heap: Heap, root: Value, c: Checkpoint) returns (es: Entries, state: Value)
    requires Shows(heap, root, AsDoc(c), 0)
    ensures Envelope(heap, root) == Some((es, state))
    ensures ShowsEntries(heap, es, TextKeys(c.args), Docs(c.args), 0) && Shows(heap, state, StateDoc(c), 0)
  {
    hide ShowsAll;
    var keys := [TextAtom("args"), TextAtom("model_state_dict")];
    PickleRoundTrip.DictEntries(heap, root, keys, [ArgsDoc(c), StateDoc(c)], 0);
    var top := heap[root.id].entries;
    var ks, ds := [TextAtom("args"), TextAtom("model_state_dict")], [ArgsDoc(c), StateDoc(c)];
    assert top[0].0 == AtomValue(ks[0]) && Shows(heap, top[0].1, ds[0], 0);
    assert top[1].0 == AtomValue(ks[1]) && Shows(heap, top[1].1, ds[1], 0);
    assert top[1..][0] == top[1];
    assert "args" != "model_state_dict" by { assert |"args"| == 4 && |"model_state_dict"| == 16; }
    assert Lookup(top, "args") == Some(top[0].1) && Lookup(top, "model_state_dict") == Some(top[1].1);
    PickleRoundTrip.ObjectShown(heap, top[0].1, ArgsDoc(c), 0);
    es, state := heap[top[0].1.id].entries, top[1].1;
  }

  lemma RootExact(fold: Fold, heap: Heap, root: Value, c: Checkpoint)
    requires Shows(heap, root, AsDoc(c), 0) && Presentable(fold, c)
    ensures var w := CaptureRoot(fold, heap, root);
            && (w.value.Some? <==> ArgsFit(fold, c.args) && TensorsFit(c.tensors) && Affordable(c))
            && (w.value.Some? ==> w.value.value == Shown(c))
  {
    hide Shows, ShowsEntries, Envelope, ArgsResult, StateResult, FieldsShowable, MetaShowable, ValidTensor, ArgsFit,
         TensorsFit, FieldNodes, FieldOutput, TensorOutput, MetaNodes, MetaOutput, SortByName, FieldsJson, MetaJson;
    var es, state := EnvelopeShown(heap, root, c);
    var b := Budget(MAX_OUTPUT_NODES, MAX_OUTPUT_BYTES);
    ArgsExact(fold, heap, es, c.args, b);
    var w := ArgsResult(fold, heap, es, b);
    if w.value.Some? { StateExact(fold, heap, state, c, w.budget); }
  }

  /** Within what the preflight takes of a pickle. */
  ghost predicate WithinLimits(st: Style, version: nat, d: Doc, items: seq<Item>, size: nat) {
    && 2 <= version <= 4 && PickleAccepted.Positioned(items, Pickle(st, version, d), size)
    && 0 < size <= MAX_INPUT_BYTES && |items| <= MAX_OPCODE_COUNT
    && PickleAccepted.Nesting(d) <= MAX_DEPTH && Write(st, d, NO_MEMO).memo.next <= MAX_MEMO_ENTRIES
    && PickleAccepted.ShortTexts(d)
  }

  /**
   From stream to report.  The capture of a pickled checkpoint, in whatever style it was pickled, is the report of
   that checkpoint if its arguments, its tensor names and the budgets allow it, and nothing otherwise.
   */
  lemma CaptureRoundTrip(st: Style, env: Env, fold: Fold, version: nat, c: Checkpoint, items: seq<Item>, size: nat,
                         digest: string)
    requires WithinLimits(st, version, AsDoc(c), items, size)
    requires PickleRoundTrip.Writable(env, AsDoc(c)) && Presentable(fold, c)
    ensures CaptureResult(env, fold, items, false, size, digest)
         == if ArgsFit(fold, c.args) && TensorsFit(c.tensors) && Affordable(c) then Some(Report(Shown(c), size, digest))
            else None
  {
    hide Run, Write, Shows, Report, CaptureRoot, ArgsFit, TensorsFit, Affordable, Presentable, Shown, AsDoc,
         PickleRoundTrip.Writable, PickleAccepted.ShortTexts, Accepts;
    PickleRoundTrip.PickleRoundTrip(st, env, version, AsDoc(c), items);
    PickleAccepted.PickleAccepted(st, version, AsDoc(c), items, size);
    var r := Run(env, items, |items|);
    RootExact(fold, r.m.heap, r.root, c);
  }

  // ---------------------------------------------------------------------------
  // Reading the report
  // ---------------------------------------------------------------------------

  /** The member of an object under a key. */
  function At(j: Option<Json>, key: string): Option<Json> {
    if j.Some? && j.value.JObject? then MemberAt(j.value.members, key) else None
  }

  function MemberAt(ms: seq<(string, Json)>, key: string): Option<Json> {
    if ms == [] then None else if ms[0].0 == key then Some(ms[0].1) else MemberAt(ms[1..], key)
  }

  lemma {:induction false} MemberIn(ms: seq<(string, Json)>, i: nat)
    requires i < |ms| && Distinct(Names(ms))
    ensures MemberAt(ms, ms[i].0) == Some(ms[i].1)
  {
    if i == 0 {
    } else {
      assert Names(ms)[0] == ms[0].0 && Names(ms)[i] == ms[i].0;
      assert Names(ms)[1..] == Names(ms[1..]);
      forall j, k | 0 <= j < k < |ms| - 1 ensures Names(ms[1..])[j] != Names(ms[1..])[k] {
        assert Names(ms)[j + 1] != Names(ms)[k + 1];
      }
      MemberIn(ms[1..], i - 1);
    }
  }

  lemma {:induction false} FieldsJsonAt(ds: DocFields)
    ensures |FieldsJson(ds)| == |ds| && Names(FieldsJson(ds)) == Names(ds)
    ensures forall i | 0 <= i < |ds| :: FieldsJson(ds)[i] == (ds[i].0, JsonOf(ds[i].1))
  {
    hide JsonOf;
    if ds == [] {
    } else {
      FieldsJsonAt(ds[1..]);
    }
  }

  lemma {:induction false} DescriptorsAt(ts: seq<(string, TensorRef)>)
    ensures |Descriptors(ts)| == |ts| && Names(Descriptors(ts)) == Names(ts)
    ensures forall i | 0 <= i < |ts| :: Descriptors(ts)[i] == (ts[i].0, Descriptor(ts[i].1))
  {
    hide Descriptor;
    if ts == [] {
    } else {
      DescriptorsAt(ts[1..]);
    }
  }

  /** Sorting keeps names distinct and every pair in the list. */
  lemma SortedPairs<T>(s: seq<(string, T)>, i: nat) returns (k: nat)
    requires i < |s| && Distinct(Names(s))
    ensures Distinct(Names(SortByName(s))) && |SortByName(s)| == |s| && k < |s| && SortByName(s)[k] == s[i]
  {
    hide SortByName;
    SortByNameMembers(s);
    var r := SortByName(s);
    assert |multiset(r)| == |r| && |multiset(s)| == |s|;
    DistinctSort(s);
    assert s[i] in multiset(s);
    assert s[i] in multiset(r);
    k :| 0 <= k < |r| && r[k] == s[i];
  }

  lemma DistinctSort<T>(s: seq<(string, T)>)
    requires Distinct(Names(s))
    ensures Distinct(Names(SortByName(s)))
  {
    hide SortByName;
    var r := SortByName(s);
    SortByNameMembers(s);
    forall i, j | 0 <= i < j < |r| ensures r[i].0 != r[j].0 {
      if r[i].0 == r[j].0 {
        assert r[i] in s && r[j] in s;
        var a :| 0 <= a < |s| && s[a] == r[i];
        var b :| 0 <= b < |s| && s[b] == r[j];
        assert Names(s)[a] == Names(s)[b];
        assert r[i] == r[j];
        TwicePresent(r, i, j);
        OncePresent(s, a);
      }
    }
  }

  lemma {:induction false} TwicePresent<T>(s: seq<T>, i: nat, j: nat)
    requires i < j < |s| && s[i] == s[j]
    ensures multiset(s)[s[i]] >= 2
  {
    assert s == s[..j] + s[j..];
    assert s[i] in s[..j] && s[j] in s[j..];
    assert s[..j][i] == s[i] && s[j..][0] == s[j];
    assert multiset(s) == multiset(s[..j]) + multiset(s[j..]);
    assert s[i] in multiset(s[..j]) && s[j] in multiset(s[j..]);
  }

  lemma OncePresent<T>(s: seq<(string, T)>, a: nat)
    requires a < |s| && Distinct(Names(s))
    ensures multiset(s)[s[a]] == 1
  {
    var before, after := s[..a], s[a + 1..];
    assert s == before + [s[a]] + after;
    forall i | 0 <= i < |before| ensures before[i] != s[a] { assert Names(s)[i] != Names(s)[a]; }
    forall i | 0 <= i < |after| ensures after[i] != s[a] { assert Names(s)[a + 1 + i] != Names(s)[a]; }
    assert s[a] !in before && s[a] !in after;
    assert multiset(s) == multiset(before) + multiset{s[a]} + multiset(after);
    assert s[a] !in multiset(before) && s[a] !in multiset(after);
  }

  function Numbers(ns: seq<int>): Json {
    JArray(seq(|ns|, i requires 0 <= i < |ns| => JInt(ns[i])))
  }

  lemma {:induction false} IntsAt(ns: seq<int>)
    ensures JArray(Capture.Ints(ns)) == Numbers(ns)
  {
    if ns == [] {
    } else {
      IntsAt(ns[1..]);
    }
  }

  /** A descriptor names every field of the tensor. */
  lemma DescriptorNames(t: TensorRef)
    ensures var d := Some(Descriptor(t));
            && At(d, "dtype") == Some(JString(t.dtype))
            && At(d, "shape") == Some(Numbers(t.shape)) && At(d, "stride") == Some(Numbers(t.stride))
            && At(d, "storage_key") == Some(JString(t.storageKey)) && At(d, "location") == Some(JString(t.location))
            && At(d, "storage_offset") == Some(JInt(t.storageOffset))
            && At(d, "storage_numel") == Some(JInt(t.storageNumel))
  {
    IntsAt(t.shape);
    IntsAt(t.stride);
    var ms := Descriptor(t).members;
    forall i, j | 0 <= i < j < |ms| ensures Names(ms)[i] != Names(ms)[j] {
      DescriptorKeys(i, j);
    }
    MemberIn(ms, 0); MemberIn(ms, 1); MemberIn(ms, 2); MemberIn(ms, 3);
    MemberIn(ms, 4); MemberIn(ms, 5); MemberIn(ms, 6);
  }

  const DESCRIPTOR_KEYS := ["dtype", "shape", "stride", "storage_key", "storage_offset", "storage_numel", "location"]

  lemma DescriptorKeys(i: nat, j: nat)
    requires i < j < 7
    ensures DESCRIPTOR_KEYS[i] != DESCRIPTOR_KEYS[j]
  {
    var ks := DESCRIPTOR_KEYS;
    assert |ks[0]| == 5 && |ks[1]| == 5 && |ks[2]| == 6 && |ks[3]| == 11;
    assert |ks[4]| == 14 && |ks[5]| == 13 && |ks[6]| == 8;
    assert ks[0][0] == 'd' && ks[1][0] == 's';
  }

  const REPORT_KEYS := [
    "format", "status", "data_pickle_bytes", "data_pickle_sha256", "source", "model", "args", "model_state_dict",
    "tensor_count", "model_state_dict_metadata", "gates", "approval", "publication"]

  lemma ReportKeys(i: nat, j: nat)
    requires i < j < 13
    ensures REPORT_KEYS[i] != REPORT_KEYS[j]
  {
    var ks := REPORT_KEYS;
    assert |ks[0]| == 6 && |ks[1]| == 6 && |ks[2]| == 17 && |ks[3]| == 18;
    assert |ks[4]| == 6 && |ks[5]| == 5 && |ks[6]| == 4;
    assert |ks[7]| == 16 && |ks[8]| == 12 && |ks[9]| == 25 && |ks[10]| == 5 && |ks[11]| == 8 && |ks[12]| == 11;
    assert ks[0][0] == 'f' && ks[1][1] == 't' && ks[4][0] == 's' && ks[4][1] == 'o' && ks[1][0] == 's';
    assert ks[5][0] == 'm' && ks[10][0] == 'g';
  }

  lemma TextsAt(pairs: seq<(string, string)>)
    ensures |Texts(pairs)| == |pairs|
    ensures forall i | 0 <= i < |pairs| :: Texts(pairs)[i] == (pairs[i].0, JString(pairs[i].1))
  {}

  lemma ReportMembers(c: Captured, size: nat, digest: string)
    ensures var ms := Report(c, size, digest).members;
            && |ms| == 13 && Names(ms) == REPORT_KEYS && Distinct(Names(ms))
            && ms[2].1 == JInt(size) && ms[3].1 == JString(digest) && ms[6].1 == JObject(c.args)
            && ms[7].1 == JObject(Descriptors(SortByName(c.tensors))) && ms[8].1 == JInt(|c.tensors|)
            && ms[9].1 == c.metadata && ms[11].1 == JNull && ms[12].1 == JString("NO_UPLOAD")
  {
    hide Texts, Descriptors, SortByName;
    TextsAt(HEAD);
    var ms := Report(c, size, digest).members;
    assert Texts(HEAD)[0].0 == "format" && Texts(HEAD)[1].0 == "status";
    assert Names(ms) == REPORT_KEYS;
    forall i, j | 0 <= i < j < 13 ensures Names(ms)[i] != Names(ms)[j] {
      ReportKeys(i, j);
    }
  }

  lemma ReportAt(c: Captured, size: nat, digest: string)
    ensures var r := Some(Report(c, size, digest));
            && At(r, "data_pickle_bytes") == Some(JInt(size)) && At(r, "data_pickle_sha256") == Some(JString(digest))
            && At(r, "args") == Some(JObject(c.args))
            && At(r, "model_state_dict") == Some(JObject(Descriptors(SortByName(c.tensors))))
            && At(r, "tensor_count") == Some(JInt(|c.tensors|))
            && At(r, "model_state_dict_metadata") == Some(c.metadata)
            && At(r, "approval") == Some(JNull) && At(r, "publication") == Some(JString("NO_UPLOAD"))
  {
    hide Report, Descriptors, SortByName, MemberAt;
    ReportIsObject(c, size, digest);
    ReportMembers(c, size, digest);
    var ms := Report(c, size, digest).members;
    MemberIn(ms, 2); MemberIn(ms, 3); MemberIn(ms, 6); MemberIn(ms, 7); MemberIn(ms, 8); MemberIn(ms, 9);
    MemberIn(ms, 11); MemberIn(ms, 12);
    assert ms[2].0 == Names(ms)[2] && ms[3].0 == Names(ms)[3] && ms[6].0 == Names(ms)[6] && ms[7].0 == Names(ms)[7];
    assert ms[8].0 == Names(ms)[8] && ms[9].0 == Names(ms)[9] && ms[11].0 == Names(ms)[11] && ms[12].0 == Names(ms)[12];
  }

  lemma ReportIsObject(c: Captured, size: nat, digest: string)
    ensures Report(c, size, digest).JObject?
  {}

  /** The object d shows every field of t under its own name. */
  predicate DescribesTensor(d: Option<Json>, t: TensorRef) {
    && At(d, "dtype") == Some(JString(t.dtype))
    && At(d, "shape") == Some(Numbers(t.shape)) && At(d, "stride") == Some(Numbers(t.stride))
    && At(d, "storage_key") == Some(JString(t.storageKey)) && At(d, "location") == Some(JString(t.location))
    && At(d, "storage_offset") == Some(JInt(t.storageOffset)) && At(d, "storage_numel") == Some(JInt(t.storageNumel))
  }

  /** What the report of a checkpoint says, read back by name; both lists are in name order. */
  lemma ReportContent(c: Checkpoint, size: nat, digest: string)
    requires Distinct(Names(c.args)) && Distinct(Names(c.tensors))
    ensures var r := Some(Report(Shown(c), size, digest));
            && At(r, "data_pickle_bytes") == Some(JInt(size)) && At(r, "data_pickle_sha256") == Some(JString(digest))
            && At(r, "tensor_count") == Some(JInt(|c.tensors|))
            && At(r, "model_state_dict_metadata") == Some(MetaJson(c.metadata))
            && At(r, "approval") == Some(JNull) && At(r, "publication") == Some(JString("NO_UPLOAD"))
            && (forall i | 0 <= i < |c.args| :: At(At(r, "args"), c.args[i].0) == Some(JsonOf(c.args[i].1)))
            && (forall i | 0 <= i < |c.tensors| ::
                  DescribesTensor(At(At(r, "model_state_dict"), c.tensors[i].0), c.tensors[i].1))
    ensures var args, tensors := FieldsJson(SortByName(c.args)), Descriptors(SortByName(c.tensors));
            && At(Some(Report(Shown(c), size, digest)), "args") == Some(JObject(args))
            && At(Some(Report(Shown(c), size, digest)), "model_state_dict") == Some(JObject(tensors))
            && NamesAscend(args) && NamesAscend(tensors) && |args| == |c.args| && |tensors| == |c.tensors|
  {
    hide Report, SortByName, FieldsJson, Descriptors, Descriptor, JsonOf, MetaJson, DescribesTensor, MemberAt, TextLess;
    ReportAt(Shown(c), size, digest);
    var fs, ts := SortByName(c.args), SortByName(c.tensors);
    FieldsJsonAt(fs);
    DescriptorsAt(ts);
    SortAscends(c.args);
    SortAscends(c.tensors);
    SortedLength(c.args);
    SortedLength(c.tensors);
    AscendSame(fs, FieldsJson(fs));
    AscendSame(ts, Descriptors(ts));
    forall i | 0 <= i < |c.args| ensures MemberAt(FieldsJson(fs), c.args[i].0) == Some(JsonOf(c.args[i].1)) {
      var k := SortedPairs(c.args, i);
      MemberIn(FieldsJson(fs), k);
    }
    forall i | 0 <= i < |c.tensors|
      ensures DescribesTensor(MemberAt(Descriptors(ts), c.tensors[i].0), c.tensors[i].1)
    {
      var k := SortedPairs(c.tensors, i);
      MemberIn(Descriptors(ts), k);
      Described(c.tensors[i].1);
    }
  }

  lemma Described(t: TensorRef)
    ensures DescribesTensor(Some(Descriptor(t)), t)
  {
    hide Descriptor, At, Numbers;
    DescriptorNames(t);
  }

  lemma SortedLength<T>(s: seq<(string, T)>)
    ensures |SortByName(s)| == |s|
  {
    hide SortByName;
    SortByNameMembers(s);
    assert |multiset(SortByName(s))| == |SortByName(s)| && |multiset(s)| == |s|;
  }

  lemma AscendSame<T, U>(s: seq<(string, T)>, r: seq<(string, U)>)
    requires NamesAscend(s) && |r| == |s| && Names(r) == Names(s)
    ensures NamesAscend(r)
  {
    hide TextLess;
    forall i, j | 0 <= i < j < |r| ensures !TextLess(r[j].0, r[i].0) {
      assert Names(r)[i] == Names(s)[i] && Names(r)[j] == Names(s)[j];
    }
  }
}
