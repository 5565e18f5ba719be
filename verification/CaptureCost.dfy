/** A successful capture, written on one line, fits the 2 MiB output bound. */
module CaptureCost {
  import opened Wrappers
  import opened TensorView
  import opened PickleValues
  import opened Json
  import opened GraphWalk
  import opened JsonText
  import opened Sorting
  import opened Capture

  // ---------------------------------------------------------------------------
  // Room for members
  // ---------------------------------------------------------------------------

  /** An upper bound on the text of some members: each with its key, colon and comma. */
  function Room(st: Style, ms: seq<(string, Json)>): nat {
    if ms == [] then 0 else Utf8Length(Quote(ms[0].0)) + Size(st, ms[0].1) + 4 + Room(st, ms[1..])
  }

  lemma {:induction false} RoomBounds(st: Style, ms: seq<(string, Json)>)
    ensures Utf8Length(MembersText(st, ms)) <= Room(st, ms)
  {
    if ms == [] {
    } else {
      MembersSize(st, ms);
      RoomBounds(st, ms[1..]);
    }
  }

  lemma ObjectRoom(st: Style, ms: seq<(string, Json)>)
    ensures Size(st, JObject(ms)) <= 2 + Room(st, ms)
  {
    ObjectSize(st, ms);
    RoomBounds(st, ms);
  }

  lemma {:induction false} RoomConcat(st: Style, a: seq<(string, Json)>, b: seq<(string, Json)>)
    ensures Room(st, a + b) == Room(st, a) + Room(st, b)
  {
    if a == [] {
      assert a + b == b;
    } else {
      assert (a + b)[1..] == a[1..] + b;
      RoomConcat(st, a[1..], b);
    }
  }

  lemma OneMember(st: Style, k: string, v: Json)
    ensures Room(st, [(k, v)]) <= 6 * |k| + 6 + Size(st, v)
  {
    QuoteShort(k);
    assert [(k, v)][1..] == [];
  }

  /** The room of two-text members. */
  function Weight(pairs: seq<(string, string)>): nat {
    if pairs == [] then 0 else 6 * |pairs[0].0| + 6 * |pairs[0].1| + 8 + Weight(pairs[1..])
  }

  lemma {:induction false} TextsRoom(st: Style, pairs: seq<(string, string)>)
    ensures Room(st, Texts(pairs)) <= Weight(pairs)
  {
    if pairs == [] {
    } else {
      TextsRoom(st, pairs[1..]);
      QuoteShort(pairs[0].0);
      QuoteShort(pairs[0].1);
      assert Texts(pairs)[1..] == Texts(pairs[1..]);
    }
  }

  // ---------------------------------------------------------------------------
  // args
  // ---------------------------------------------------------------------------

  /** One walked value, with room for its separators, is paid for. */
  lemma WalkedValueFits(fold: Fold, heap: Heap, v: Value, b: Budget, st: Style)
    requires Walk(fold, heap, v, {}, b, 0).value.Some?
    ensures var w := Walk(fold, heap, v, {}, b, 0);
            && Size(st, w.value.value) + SLACK <= b.output - w.budget.output
            && 0 <= w.budget.output
  {
    var t := WalkSound(fold, heap, v, {}, b, 0);
    CostBoundsText(fold, heap, v, t, st);
  }

  lemma {:induction false} FieldsFit(fold: Fold, heap: Heap, fs: Fields, b: Budget, st: Style)
    requires b.output >= 0
    requires WalkFields(fold, heap, fs, b).value.Some?
    ensures var w := WalkFields(fold, heap, fs, b);
            Room(st, w.value.value) <= b.output - w.budget.output && 0 <= w.budget.output
  {
    if fs == [] {
    } else {
      hide Walk, Size;
      var b0 := b.(output := b.output - TextCost(fs[0].0));
      WalkedValueFits(fold, heap, fs[0].1, b0, st);
      var first := Walk(fold, heap, fs[0].1, {}, b0, 0);
      FieldsFit(fold, heap, fs[1..], first.budget, st);
      QuoteShort(fs[0].0);
      var ms := WalkFields(fold, heap, fs, b).value.value;
      assert ms[1..] == WalkFields(fold, heap, fs[1..], first.budget).value.value;
    }
  }

  // ---------------------------------------------------------------------------
  // Tensor descriptors
  // ---------------------------------------------------------------------------

  lemma {:induction false} IntsFit(ns: seq<int>, st: Style)
    requires AllBetween(0, MAX_DIMENSION, ns)
    ensures Utf8Length(ItemsText(st, Ints(ns))) <= 22 * |ns|
  {
    if ns == [] {
    } else {
      IntTextShort(ns[0]);
      IntsFit(ns[1..], st);
      ItemsSize(st, Ints(ns));
      assert Ints(ns)[1..] == Ints(ns[1..]);
    }
  }

  lemma IntListFits(ns: seq<int>, st: Style)
    requires AllBetween(0, MAX_DIMENSION, ns)
    ensures Size(st, JArray(Ints(ns))) <= 2 + 22 * |ns|
  {
    IntsFit(ns, st);
    ArraySize(st, Ints(ns));
  }

  lemma DtypeShort(dtype: string)
    requires ItemBytes(dtype).Some?
    ensures |dtype| <= 4
  {}

  lemma RoomOfSeven(st: Style, a: seq<(string, Json)>, b: seq<(string, Json)>, c: seq<(string, Json)>,
                    d: seq<(string, Json)>,
                    e: seq<(string, Json)>, f: seq<(string, Json)>, g: seq<(string, Json)>)
    ensures Size(st, JObject(a + b + c + d + e + f + g))
         <= 2 + Room(st, a) + Room(st, b) + Room(st, c) + Room(st, d) + Room(st, e) + Room(st, f) + Room(st, g)
  {
    hide Room, Size;
    RoomConcat(st, a, b);
    RoomConcat(st, a + b, c);
    RoomConcat(st, a + b + c, d);
    RoomConcat(st, a + b + c + d, e);
    RoomConcat(st, a + b + c + d + e, f);
    RoomConcat(st, a + b + c + d + e + f, g);
    ObjectRoom(st, a + b + c + d + e + f + g);
  }

  /** The descriptor object takes the room of its seven values and at most 416 bytes of names and punctuation. */
  lemma DescriptorRoom(t: TensorRef, st: Style)
    ensures Size(st, Descriptor(t))
         <= 416 + Size(st, JString(t.dtype)) + Size(st, JArray(Ints(t.shape))) + Size(st, JArray(Ints(t.stride)))
            + Size(st, JString(t.storageKey)) + Size(st, JInt(t.storageOffset)) + Size(st, JInt(t.storageNumel))
            + Size(st, JString(t.location))
  {
    hide Size, Quote, Room, Ints;
    var a: seq<(string, Json)> := [("dtype", JString(t.dtype))];
    var b: seq<(string, Json)> := [("shape", JArray(Ints(t.shape)))];
    var c: seq<(string, Json)> := [("stride", JArray(Ints(t.stride)))];
    var d: seq<(string, Json)> := [("storage_key", JString(t.storageKey))];
    var e: seq<(string, Json)> := [("storage_offset", JInt(t.storageOffset))];
    var f: seq<(string, Json)> := [("storage_numel", JInt(t.storageNumel))];
    var g: seq<(string, Json)> := [("location", JString(t.location))];
    OneMember(st, "dtype", JString(t.dtype));
    OneMember(st, "shape", JArray(Ints(t.shape)));
    OneMember(st, "stride", JArray(Ints(t.stride)));
    OneMember(st, "storage_key", JString(t.storageKey));
    OneMember(st, "storage_offset", JInt(t.storageOffset));
    OneMember(st, "storage_numel", JInt(t.storageNumel));
    OneMember(st, "location", JString(t.location));
    RoomOfSeven(st, a, b, c, d, e, f, g);
    assert Descriptor(t) == JObject(a + b + c + d + e + f + g);
  }

  lemma DescriptorFits(name: string, t: TensorRef, st: Style)
    requires ValidTensor(t)
    ensures Utf8Length(Quote(name)) + Size(st, Descriptor(t)) + 4 <= DescriptorCost(name, t)
  {
    hide ValidTensor, ItemBytes, Size, Quote, Descriptor, AllBetween, StrictInt, Ints;
    ValidTensorLimits(t);
    DtypeShort(t.dtype);
    QuoteShort(name);
    TextSize(t.dtype, st);
    TextSize(t.storageKey, st);
    TextSize(t.location, st);
    IntListFits(t.shape, st);
    IntListFits(t.stride, st);
    IntSize(t.storageOffset, st);
    IntSize(t.storageNumel, st);
    DescriptorRoom(t, st);
  }

  lemma ValidTensorLimits(t: TensorRef)
    requires ValidTensor(t)
    ensures ItemBytes(t.dtype).Some?
    ensures AllBetween(0, MAX_DIMENSION, t.shape) && AllBetween(0, MAX_DIMENSION, t.stride)
    ensures StrictInt(t.storageOffset) && StrictInt(t.storageNumel)
  {}

  lemma TextSize(s: string, st: Style)
    ensures Size(st, JString(s)) <= 6 * |s| + 2
  {
    QuoteShort(s);
  }

  lemma IntSize(n: int, st: Style)
    requires StrictInt(n)
    ensures Size(st, JInt(n)) <= 20
  {
    IntTextShort(n);
  }

  function TensorsCost(ts: seq<(string, TensorRef)>): nat {
    if ts == [] then 0 else DescriptorCost(ts[0].0, ts[0].1) + TensorsCost(ts[1..])
  }

  ghost predicate AllValid(ts: seq<(string, TensorRef)>) {
    forall i | 0 <= i < |ts| :: ValidTensor(ts[i].1)
  }

  /** Every accepted tensor is a valid view, and its descriptor is paid for. */
  lemma {:induction false} TensorsPaid(es: Entries, b: Budget)
    requires b.output >= 0
    requires WalkTensors(es, b).value.Some?
    ensures var w := WalkTensors(es, b);
            && AllValid(w.value.value)
            && TensorsCost(w.value.value) == b.output - w.budget.output && 0 <= w.budget.output
            && |w.value.value| == |es|
            && forall i | 0 <= i < |es| :: es[i] == (Str(w.value.value[i].0), Tensor(w.value.value[i].1))
  {
    if es == [] {
    } else {
      hide ValidTensor, DescriptorCost, EntryTensor, WalkTensors, AllValid;
      var t := FirstTensor(es, b);
      var b1 := Budget(b.remaining - 1, b.output - DescriptorCost(es[0].0.s, t));
      TensorsPaid(es[1..], b1);
      var rest := WalkTensors(es[1..], b1).value.value;
      AllValidCons(es[0].0.s, t, rest);
      var ts := [(es[0].0.s, t)] + rest;
      assert ts[1..] == rest;
      forall i | 0 <= i < |es| ensures es[i] == (Str(ts[i].0), Tensor(ts[i].1)) {
        if i > 0 { assert es[i] == es[1..][i - 1] && ts[i] == rest[i - 1]; }
      }
    }
  }

  lemma FirstTensor(es: Entries, b: Budget) returns (t: TensorRef)
    requires es != [] && WalkTensors(es, b).value.Some?
    ensures es[0] == (Str(es[0].0.s), Tensor(t)) && ValidTensor(t) && b.output >= DescriptorCost(es[0].0.s, t)
    ensures var rest := WalkTensors(es[1..], Budget(b.remaining - 1, b.output - DescriptorCost(es[0].0.s, t)));
            rest.value.Some? && WalkTensors(es, b) == Walked(Some([(es[0].0.s, t)] + rest.value.value), rest.budget)
  {
    hide ValidTensor, DescriptorCost, EntryTensor, BoundedText;
    t := EntryTensor(es[0]).value;
    EntryTensorIs(es[0]);
  }

  lemma AllValidCons(name: string, t: TensorRef, rest: seq<(string, TensorRef)>)
    requires ValidTensor(t) && AllValid(rest)
    ensures AllValid([(name, t)] + rest)
  {}

  lemma EntryTensorIs(e: (Value, Value))
    requires EntryTensor(e).Some?
    ensures e == (Str(e.0.s), Tensor(EntryTensor(e).value)) && ValidTensor(EntryTensor(e).value)
  {
    hide ValidTensor, BoundedText, ValidateTensorRef;
    RevalidationExact(e.1.tensor);
  }

  lemma {:induction false} DescriptorsFit(ts: seq<(string, TensorRef)>, st: Style)
    requires AllValid(ts)
    ensures Room(st, Descriptors(ts)) <= TensorsCost(ts)
  {
    if ts == [] {
    } else {
      hide ValidTensor, DescriptorCost, Descriptor;
      DescriptorFits(ts[0].0, ts[0].1, st);
      DescriptorsFit(ts[1..], st);
      assert Descriptors(ts)[1..] == Descriptors(ts[1..]);
    }
  }

  lemma {:induction false} InsertCost(x: (string, TensorRef), ts: seq<(string, TensorRef)>)
    ensures TensorsCost(Insert(NameBefore<TensorRef>, x, ts)) == DescriptorCost(x.0, x.1) + TensorsCost(ts)
  {
    hide NameBefore, DescriptorCost;
    var less := NameBefore<TensorRef>;
    if ts == [] {
    } else if less(ts[0], x) {
      InsertCost(x, ts[1..]);
      assert Insert(less, x, ts)[1..] == Insert(less, x, ts[1..]);
    } else {
      assert Insert(less, x, ts)[1..] == ts;
    }
  }

  lemma {:induction false} SortCost(ts: seq<(string, TensorRef)>)
    ensures TensorsCost(SortByName(ts)) == TensorsCost(ts)
  {
    hide DescriptorCost;
    if ts == [] {
    } else {
      SortCost(ts[1..]);
      InsertCost(ts[0], SortByName(ts[1..]));
    }
  }

  lemma SortValid(ts: seq<(string, TensorRef)>)
    requires AllValid(ts)
    ensures AllValid(SortByName(ts))
  {
    SortByNameMembers(ts);
    forall i | 0 <= i < |SortByName(ts)| ensures ValidTensor(SortByName(ts)[i].1) {
      assert SortByName(ts)[i] in ts;
    }
  }

  // ---------------------------------------------------------------------------
  // The fixed part of the report
  // ---------------------------------------------------------------------------

  lemma HeadWeight()
    ensures Weight(HEAD) <= 510
  {
    assert HEAD[1..] == [("status", "METADATA_CAPTURED_REVIEW_PENDING")];
    assert HEAD[1..][1..] == [];
  }

  lemma SourceWeight()
    ensures Weight(SOURCE) <= 960
  {
    assert SOURCE[1..][1..][1..] == [];
    assert SOURCE[1..][0] == ("declared_revision", "834635e4cf277ed8ca92049fc375b17c3dc20748");
    assert SOURCE[1..][1..][0] == ("identity_status", "DECLARED_NOT_AUTHENTICATED");
  }

  lemma ModelWeight()
    ensures Weight(MODEL) <= 960
  {
    assert MODEL[1..][1..][1..] == [];
    assert MODEL[1..][0] == ("declared_revision", "e57f5960d03cff1071ff7acbb409314d1e70ed3d");
    assert MODEL[1..][1..][0] == ("identity_status", "DECLARED_NOT_AUTHENTICATED");
  }

  lemma GatesWeight()
    ensures Weight(GATES) <= 680
  {
    assert GATES[1..][1..][1..][1..] == [];
    assert GATES[1..][0] == ("model_execution", "NOT_RUN");
    assert GATES[1..][1..][0] == ("numerical_parity", "NOT_RUN");
    assert GATES[1..][1..][1..][0] == ("license_review", "BLOCKED_PENDING_REVIEW");
  }

  lemma TextsObject(pairs: seq<(string, string)>, st: Style)
    ensures Size(st, JObject(Texts(pairs))) <= 2 + Weight(pairs)
  {
    TextsRoom(st, pairs);
    ObjectRoom(st, Texts(pairs));
  }

  lemma ModelObject(st: Style)
    ensures Size(st,
        JObject(Texts(MODEL) + [("checkpoint_sha256", JNull), ("checkpoint_hash_status", JString(HASH_STATUS))]))
            <= 1500
  {
    hide Size, Room, Texts, MODEL;
    var x: seq<(string, Json)> := [("checkpoint_sha256", JNull)];
    var y: seq<(string, Json)> := [("checkpoint_hash_status", JString(HASH_STATUS))];
    TextsRoom(st, MODEL);
    ModelWeight();
    NullSize(st);
    TextSize(HASH_STATUS, st);
    OneMember(st, "checkpoint_sha256", JNull);
    OneMember(st, "checkpoint_hash_status", JString(HASH_STATUS));
    RoomConcat(st, x, y);
    RoomConcat(st, Texts(MODEL), x + y);
    assert x + y == [("checkpoint_sha256", JNull), ("checkpoint_hash_status", JString(HASH_STATUS))];
    ObjectRoom(st, Texts(MODEL) + (x + y));
  }

  lemma NullSize(st: Style)
    ensures Size(st, JNull) == 4
  {
    AsciiLength("null");
  }

  /** The report fits what its three captured parts need plus the fixed charge. */
  lemma ReportFits(c: Captured, inputBytes: nat, digest: string, st: Style)
    requires |digest| == 64 && StrictInt(inputBytes) && StrictInt(|c.tensors|)
    ensures Size(st, Report(c, inputBytes, digest))
            <= Room(st, c.args) + Room(st, Descriptors(SortByName(c.tensors))) + Size(st, c.metadata)
              + FIXED_REPORT_COST - 4
  {
    hide Size, Room, Texts, Descriptors, SortByName, Weight, HEAD, SOURCE, MODEL, GATES, HASH_STATUS;
    var model := JObject(Texts(MODEL)
        + [("checkpoint_sha256", JNull), ("checkpoint_hash_status", JString(HASH_STATUS))]);
    var ds := Descriptors(SortByName(c.tensors));
    var m1: seq<(string, Json)> := [("data_pickle_bytes", JInt(inputBytes)), ("data_pickle_sha256", JString(digest))];
    var m2: seq<(string, Json)> := [("source", JObject(Texts(SOURCE))), ("model", model)];
    var m3: seq<(string, Json)> := [("args", JObject(c.args)), ("model_state_dict", JObject(ds))];
    var m4: seq<(string, Json)> := [("tensor_count", JInt(|c.tensors|)), ("model_state_dict_metadata", c.metadata)];
    var m5: seq<(string, Json)> := [("gates", JObject(Texts(GATES))), ("approval", JNull),
        ("publication", JString("NO_UPLOAD"))];
    TextsRoom(st, HEAD); HeadWeight();
    IntSize(inputBytes, st); TextSize(digest, st);
    TwoMembers(st, "data_pickle_bytes", JInt(inputBytes), "data_pickle_sha256", JString(digest));
    TextsObject(SOURCE, st); SourceWeight(); ModelObject(st);
    TwoMembers(st, "source", JObject(Texts(SOURCE)), "model", model);
    ObjectRoom(st, c.args); ObjectRoom(st, ds);
    TwoMembers(st, "args", JObject(c.args), "model_state_dict", JObject(ds));
    IntSize(|c.tensors|, st);
    TwoMembers(st, "tensor_count", JInt(|c.tensors|), "model_state_dict_metadata", c.metadata);
    LastMembers(st);
    RoomConcat(st, Texts(HEAD), m1);
    RoomConcat(st, Texts(HEAD) + m1, m2);
    RoomConcat(st, Texts(HEAD) + m1 + m2, m3);
    RoomConcat(st, Texts(HEAD) + m1 + m2 + m3, m4);
    RoomConcat(st, Texts(HEAD) + m1 + m2 + m3 + m4, m5);
    var all := Texts(HEAD) + m1 + m2 + m3 + m4 + m5;
    assert Report(c, inputBytes, digest) == JObject(all);
    ObjectRoom(st, all);
  }

  lemma TwoMembers(st: Style, k: string, v: Json, l: string, w: Json)
    ensures Room(st, [(k, v), (l, w)]) <= 6 * |k| + 6 * |l| + 12 + Size(st, v) + Size(st, w)
  {
    OneMember(st, k, v);
    OneMember(st, l, w);
    assert [(k, v), (l, w)][1..] == [(l, w)];
    QuoteShort(k);
  }

  lemma LastMembers(st: Style)
    ensures Room(st,
        [("gates", JObject(Texts(GATES))), ("approval", JNull), ("publication", JString("NO_UPLOAD"))]) <= 1100
  {
    hide Size, Texts, Weight, GATES;
    var a: seq<(string, Json)> := [("gates", JObject(Texts(GATES)))];
    var b: seq<(string, Json)> := [("approval", JNull), ("publication", JString("NO_UPLOAD"))];
    TextsObject(GATES, st); GatesWeight();
    OneMember(st, "gates", JObject(Texts(GATES)));
    NullSize(st); TextSize("NO_UPLOAD", st);
    TwoMembers(st, "approval", JNull, "publication", JString("NO_UPLOAD"));
    RoomConcat(st, a, b);
    assert a + b == [("gates", JObject(Texts(GATES))), ("approval", JNull), ("publication", JString("NO_UPLOAD"))];
  }

  // ---------------------------------------------------------------------------
  // Main results
  // ---------------------------------------------------------------------------

  lemma ArgsFit(fold: Fold, heap: Heap, es: Entries, b: Budget, st: Style)
    requires b.output >= 0
    requires ArgsResult(fold, heap, es, b).value.Some?
    ensures var w := ArgsResult(fold, heap, es, b);
            Room(st, w.value.value) <= b.output - w.budget.output && 0 <= w.budget.output
  {
    FieldsFit(fold, heap, SortByName(Named(es)), b, st);
  }

  lemma StateFits(fold: Fold, heap: Heap, state: Value, b: Budget, st: Style)
    requires b.output >= 0
    requires StateResult(fold, heap, state, b).value.Some?
    ensures var w := StateResult(fold, heap, state, b);
            && 0 <= w.budget.output
            && |w.value.value.0| <= MAX_CONTAINER_ITEMS
            && AllValid(w.value.value.0)
            && Room(st, Descriptors(SortByName(w.value.value.0))) + Size(st, w.value.value.1)
               <= b.output - w.budget.output + 4
  {
    hide Walk, Size, WalkTensors, Room, AllValid;
    var (es, meta) := Mapping(heap, state).value;
    TensorsPaid(es, b);
    var b2 := WalkTensors(es, b).budget;
    var ts := WalkTensors(es, b).value.value;
    SortValid(ts);
    SortCost(ts);
    DescriptorsFit(SortByName(ts), st);
    NullSize(st);
    if meta.Some? && !meta.value.NoneValue? {
      WalkedValueFits(fold, heap, meta.value, b2, st);
    }
  }

  /**
   A successful capture, written on one line with separators of at most two bytes, takes no more
   bytes than it consumed from the output budget, and so at most 2 MiB; every tensor in it is a
   view that lies inside its storage.
   */
  lemma CaptureFits(fold: Fold, heap: Heap, root: Value, inputBytes: nat, digest: string, st: Style)
    requires CaptureRoot(fold, heap, root).value.Some?
    requires |digest| == 64 && StrictInt(inputBytes)
    ensures var w := CaptureRoot(fold, heap, root);
            && 0 <= w.budget.output
            && Size(st, Report(w.value.value, inputBytes, digest)) <= MAX_OUTPUT_BYTES - w.budget.output
            && AllValid(w.value.value.tensors)
  {
    hide Size, Report, Room, ArgsResult, StateResult, AllValid, Descriptors, SortByName, Envelope;
    var b := Budget(MAX_OUTPUT_NODES, MAX_OUTPUT_BYTES);
    var (fields, state) := Envelope(heap, root).value;
    ArgsFit(fold, heap, fields, b, st);
    StateFits(fold, heap, state, ArgsResult(fold, heap, fields, b).budget, st);
    ReportFits(CaptureRoot(fold, heap, root).value.value, inputBytes, digest, st);
  }
}
