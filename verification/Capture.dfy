/**
 From opcodes to report: `_validate_args`, `_validate_state_dict`, `_parse_root` and
 `capture_bytes` of tools/audit/firered_checkpoint_metadata.py.
 */
module Capture {
  import opened Wrappers
  import opened TensorView
  import opened PickleValues
  import opened Preflight
  import opened PickleMachine
  import opened Json
  import opened GraphWalk
  import opened SafeValue
  import opened Sorting

  const MANDATORY_INTEGERS := ["idim", "n_layers_enc", "n_head", "d_model", "kernel_size", "pe_maxlen",
                               "sos_id", "eos_id", "pad_id", "odim", "n_layers_dec"]
  const MANDATORY_DROPOUTS := ["residual_dropout", "dropout_rate"]

  predicate NonNegative(v: Option<Value>) {
    v.Some? && v.value.Int? && 0 <= v.value.n <= MAX_INTEGER
  }

  predicate UnitInterval(v: Option<Value>) {
    v.Some? && match v.value
               case Int(n) => 0 <= n <= 1
               case FloatValue(Finite(x, _)) => 0.0 <= x <= 1.0
               case _ => false
  }

  predicate ArgsAcceptable(fold: Fold, es: Entries) {
    && |es| <= MAX_CONTAINER_ITEMS
    && (forall i | 0 <= i < |es| :: KeyOk(fold, es[i].0))
    && (forall i | 0 <= i < |MANDATORY_INTEGERS| :: NonNegative(Lookup(es, MANDATORY_INTEGERS[i])))
    && (forall i | 0 <= i < |MANDATORY_DROPOUTS| :: UnitInterval(Lookup(es, MANDATORY_DROPOUTS[i])))
  }

  type Fields = seq<(string, Value)>

  /** The entries of a mapping whose keys are all texts, led by those texts. */
  function Named(es: Entries): Fields
    requires forall i | 0 <= i < |es| :: es[i].0.Str?
  {
    seq(|es|, i requires 0 <= i < |es| => (es[i].0.s, es[i].1))
  }

  // ---------------------------------------------------------------------------
  // args
  // ---------------------------------------------------------------------------

  function WalkFields(fold: Fold, heap: Heap, fs: Fields, b: Budget): Walked<seq<(string, Json)>> {
    if fs == [] then Walked(Some([]), b)
    else if b.output < TextCost(fs[0].0) then Walked(None, b)
    else
      var first := Walk(fold, heap, fs[0].1, {}, b.(output := b.output - TextCost(fs[0].0)), 0);
      if first.value.None? then Walked(None, first.budget)
      else Prepend([(fs[0].0, first.value.value)], WalkFields(fold, heap, fs[1..], first.budget))
  }

  function ArgsResult(fold: Fold, heap: Heap, es: Entries, b: Budget): Walked<seq<(string, Json)>> {
    if !ArgsAcceptable(fold, es) then Walked(None, b) else WalkFields(fold, heap, SortByName(Named(es)), b)
  }

  method ValidateArgs(fold: Fold, heap: Heap, es: Entries, budget: TraversalBudget)
    returns (r: Option<seq<(string, Json)>>)
    modifies budget
    ensures Walked(r, budget.Snapshot()) == ArgsResult(fold, heap, es, old(budget.Snapshot()))
  {
    if !ArgsAcceptable(fold, es) {
      return None;
    }
    var fs := SortByName(Named(es));
    var result: seq<(string, Json)> := [];
    var i := 0;
    hide Walk, Prepend, ArgsAcceptable, SortByName;
    ghost var whole := WalkFields(fold, heap, fs, budget.Snapshot());
    assert fs[0..] == fs;
    while i < |fs|
      invariant 0 <= i <= |fs|
      invariant whole == Prepend(result, WalkFields(fold, heap, fs[i..], budget.Snapshot()))
    {
      assert fs[i..][1..] == fs[i + 1..];
      var paid := budget.ConsumeOutput(TextCost(fs[i].0));
      if !paid {
        return None;
      }
      var active := new ActiveSet();
      var item := Safe(fold, heap, fs[i].1, active, budget, 0);
      if item.None? {
        return None;
      }
      PrependTwice(result, [(fs[i].0, item.value)], WalkFields(fold, heap, fs[i + 1..], budget.Snapshot()));
      result := result + [(fs[i].0, item.value)];
      i := i + 1;
    }
    return Some(result);
  }

  // ---------------------------------------------------------------------------
  // model_state_dict
  // ---------------------------------------------------------------------------

  function DescriptorCost(name: string, t: TensorRef): nat {
    TextCost(name) + TextCost(t.storageKey) + TextCost(t.location) + 512 + 64 * (|t.shape| + |t.stride|)
  }

  /** The tensor a state entry holds, once its name and record pass. */
  function EntryTensor(e: (Value, Value)): Option<TensorRef> {
    if e.0.Str? && BoundedText(e.0.s) && e.1.Tensor? then ValidateTensorRef(e.1.tensor) else None
  }

  function WalkTensors(es: Entries, b: Budget): Walked<seq<(string, TensorRef)>> {
    if es == [] then Walked(Some([]), b)
    else if !(es[0].0.Str? && BoundedText(es[0].0.s)) || b.remaining < 1 then Walked(None, b)
    else
      var b := b.(remaining := b.remaining - 1);
      match EntryTensor(es[0])
      case None => Walked(None, b)
      case Some(t) =>
        var cost := DescriptorCost(es[0].0.s, t);
        if b.output < cost then Walked(None, b)
        else Prepend([(es[0].0.s, t)], WalkTensors(es[1..], b.(output := b.output - cost)))
  }

  method ValidateTensors(es: Entries, budget: TraversalBudget) returns (r: Option<seq<(string, TensorRef)>>)
    modifies budget
    ensures Walked(r, budget.Snapshot()) == WalkTensors(es, old(budget.Snapshot()))
  {
    var result: seq<(string, TensorRef)> := [];
    var i := 0;
    hide Prepend, DescriptorCost, ValidateTensorRef, BoundedText;
    ghost var whole := WalkTensors(es, budget.Snapshot());
    assert es[0..] == es;
    while i < |es|
      invariant 0 <= i <= |es|
      invariant whole == Prepend(result, WalkTensors(es[i..], budget.Snapshot()))
    {
      assert es[i..][1..] == es[i + 1..];
      if !(es[i].0.Str? && BoundedText(es[i].0.s)) {
        return None;
      }
      var paid := budget.Consume(1);
      if !paid {
        return None;
      }
      var t := EntryTensor(es[i]);
      if t.None? {
        return None;
      }
      paid := budget.ConsumeOutput(DescriptorCost(es[i].0.s, t.value));
      if !paid {
        return None;
      }
      PrependTwice(result, [(es[i].0.s, t.value)], WalkTensors(es[i + 1..], budget.Snapshot()));
      result := result + [(es[i].0.s, t.value)];
      i := i + 1;
    }
    return Some(result);
  }

  /** The mapping behind a value, with the `_metadata` attribute if it carries one. */
  function Mapping(heap: Heap, v: Value): Option<(Entries, Option<Value>)> {
    if v.Ref? && v.id < |heap| then
      match heap[v.id]
      case Dict(es) => Some((es, None))
      case OrderedDict(es, meta) => Some((es, meta))
      case _ => None
    else None
  }

  datatype Captured = Captured(args: seq<(string, Json)>, tensors: seq<(string, TensorRef)>, metadata: Json)

  function StateResult(fold: Fold, heap: Heap, v: Value, b: Budget): Walked<(seq<(string, TensorRef)>, Json)> {
    match Mapping(heap, v)
    case None => Walked(None, b)
    case Some((es, meta)) =>
      if es == [] || |es| > MAX_CONTAINER_ITEMS then Walked(None, b)
      else
        var ts := WalkTensors(es, b);
        if ts.value.None? then Walked(None, ts.budget)
        else if meta.None? || meta.value.NoneValue? then Walked(Some((ts.value.value, JNull)), ts.budget)
        else if !MetadataMapping(heap, meta.value) then Walked(None, ts.budget)
        else
          var w := Walk(fold, heap, meta.value, {}, ts.budget, 0);
          match w.value
          case None => Walked(None, w.budget)
          case Some(j) => Walked(Some((ts.value.value, j)), w.budget)
  }

  method ValidateStateDict(fold: Fold, heap: Heap, v: Value, budget: TraversalBudget)
    returns (r: Option<(seq<(string, TensorRef)>, Json)>)
    modifies budget
    ensures Walked(r, budget.Snapshot()) == StateResult(fold, heap, v, old(budget.Snapshot()))
  {
    hide Walk, WalkTensors;
    var mapping := Mapping(heap, v);
    if mapping.None? {
      return None;
    }
    var (es, meta) := mapping.value;
    if es == [] || |es| > MAX_CONTAINER_ITEMS {
      return None;
    }
    var ts := ValidateTensors(es, budget);
    if ts.None? {
      return None;
    }
    if meta.None? || meta.value.NoneValue? {
      return Some((ts.value, JNull));
    }
    if !MetadataMapping(heap, meta.value) {
      return None;
    }
    var active := new ActiveSet();
    var j := Safe(fold, heap, meta.value, active, budget, 0);
    return if j.None? then None else Some((ts.value, j.value));
  }

  // ---------------------------------------------------------------------------
  // The whole capture
  // ---------------------------------------------------------------------------

  const FIXED_REPORT_COST := 8192

  /** The namespace fields and the state value of a root that is the exact envelope. */
  function Envelope(heap: Heap, root: Value): Option<(Entries, Value)> {
    match Mapping(heap, root)
    case None => None
    case Some((es, meta)) =>
      var args, state := Lookup(es, "args"), Lookup(es, "model_state_dict");
      if |es| != 2 || args.None? || state.None? || meta.Some? then None
      else if args.value.Ref? && args.value.id < |heap| && heap[args.value.id].Namespace? then
        Some((heap[args.value.id].entries, state.value))
      else None
  }

  function CaptureRoot(fold: Fold, heap: Heap, root: Value): Walked<Captured> {
    var b := Budget(MAX_OUTPUT_NODES, MAX_OUTPUT_BYTES);
    match Envelope(heap, root)
    case None => Walked(None, b)
    case Some((fields, state)) =>
      var args := ArgsResult(fold, heap, fields, b);
      if args.value.None? then Walked(None, args.budget)
      else
        var s := StateResult(fold, heap, state, args.budget);
        match s.value
        case None => Walked(None, s.budget)
        case Some((ts, meta)) =>
          if s.budget.output < FIXED_REPORT_COST then Walked(None, s.budget)
          else Walked(Some(Captured(args.value.value, ts, meta)),
                      s.budget.(output := s.budget.output - FIXED_REPORT_COST))
  }

  function Ints(ns: seq<int>): seq<Json> {
    if ns == [] then [] else [JInt(ns[0])] + Ints(ns[1..])
  }

  function Descriptor(t: TensorRef): Json {
    JObject([("dtype", JString(t.dtype)), ("shape", JArray(Ints(t.shape))), ("stride", JArray(Ints(t.stride))),
             ("storage_key", JString(t.storageKey)), ("storage_offset", JInt(t.storageOffset)),
             ("storage_numel", JInt(t.storageNumel)), ("location", JString(t.location))])
  }

  function Descriptors(ts: seq<(string, TensorRef)>): seq<(string, Json)> {
    if ts == [] then [] else [(ts[0].0, Descriptor(ts[0].1))] + Descriptors(ts[1..])
  }

  function Texts(pairs: seq<(string, string)>): seq<(string, Json)> {
    if pairs == [] then [] else [(pairs[0].0, JString(pairs[0].1))] + Texts(pairs[1..])
  }

  const HEAD: seq<(string, string)> := [
    ("format", "vokra-firered-checkpoint-metadata-v1"),
    ("status", "METADATA_CAPTURED_REVIEW_PENDING")]

  const SOURCE: seq<(string, string)> := [
    ("declared_repository", "FireRedTeam/FireRedASR"),
    ("declared_revision", "834635e4cf277ed8ca92049fc375b17c3dc20748"),
    ("identity_status", "DECLARED_NOT_AUTHENTICATED")]

  const MODEL: seq<(string, string)> := [
    ("declared_repository", "FireRedTeam/FireRedASR-AED-L"),
    ("declared_revision", "e57f5960d03cff1071ff7acbb409314d1e70ed3d"),
    ("identity_status", "DECLARED_NOT_AUTHENTICATED")]

  const HASH_STATUS := "NOT_AUTHENTICATED_FULL_BYTES_REQUIRED"

  const GATES: seq<(string, string)> := [
    ("real_checkpoint", "NOT_RUN"),
    ("model_execution", "NOT_RUN"),
    ("numerical_parity", "NOT_RUN"),
    ("license_review", "BLOCKED_PENDING_REVIEW")]

  /** The report of a capture; `digest` is the SHA-256 text of the input. */
  function Report(c: Captured, inputBytes: nat, digest: string): Json {
    JObject(
      Texts(HEAD) + [
        ("data_pickle_bytes", JInt(inputBytes)),
        ("data_pickle_sha256", JString(digest)),
        ("source", JObject(Texts(SOURCE))),
        ("model", JObject(Texts(MODEL) +
                          [("checkpoint_sha256", JNull), ("checkpoint_hash_status", JString(HASH_STATUS))])),
        ("args", JObject(c.args)),
        ("model_state_dict", JObject(Descriptors(SortByName(c.tensors)))),
        ("tensor_count", JInt(|c.tensors|)),
        ("model_state_dict_metadata", c.metadata),
        ("gates", JObject(Texts(GATES))),
        ("approval", JNull),
        ("publication", JString("NO_UPLOAD"))])
  }

  method Load(env: Env, items: seq<Item>) returns (o: Outcome)
    ensures o == Run(env, items, |items|)
  {
    hide Step;
    o := Next(START);
    for k := 0 to |items|
      invariant o == Run(env, items, k)
    {
      if o.Next? {
        o := Step(env, o.m, items[k].op);
      }
    }
  }

  /** What the whole reader returns: preflight, restricted load, envelope, validation, fixed charge. */
  ghost function CaptureResult(env: Env, fold: Fold, items: seq<Item>, malformed: bool, size: nat, digest: string)
    : Option<Json>
  {
    if size == 0 || !Accepts(items, malformed, size) then None
    else
      match Run(env, items, |items|)
      case Stopped(root, m) =>
        (match CaptureRoot(fold, m.heap, root).value
         case None => None
         case Some(c) => Some(Report(c, size, digest)))
      case _ => None
  }

  method CaptureBytes(env: Env, fold: Fold, items: seq<Item>, malformed: bool, size: nat, digest: string)
    returns (report: Option<Json>)
    ensures report == CaptureResult(env, fold, items, malformed, size, digest)
  {
    hide Run, StateResult, ArgsResult, Report, Accepts;
    if size == 0 {
      return None;
    }
    var clean := Check(items, malformed, size);
    if !clean {
      return None;
    }
    var loaded := Load(env, items);
    if !loaded.Stopped? {
      return None;
    }
    var heap := loaded.m.heap;
    var envelope := Envelope(heap, loaded.root);
    if envelope.None? {
      return None;
    }
    var budget := new TraversalBudget();
    var args := ValidateArgs(fold, heap, envelope.value.0, budget);
    if args.None? {
      return None;
    }
    var state := ValidateStateDict(fold, heap, envelope.value.1, budget);
    if state.None? {
      return None;
    }
    var paid := budget.ConsumeOutput(FIXED_REPORT_COST);
    if !paid {
      return None;
    }
    return Some(Report(Captured(args.value, state.value.0, state.value.1), size, digest));
  }
}
