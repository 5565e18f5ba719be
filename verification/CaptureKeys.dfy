/** No capture shows a credential: whatever the heap holds, every key in a report's values passed the key check. */
module CaptureKeys {
  import opened Wrappers
  import opened TensorView
  import opened PickleValues
  import opened Json
  import opened GraphWalk
  import opened SafeValue
  import opened Sorting
  import opened Capture

  /** A bounded text that is not the name of a credential, in whatever case. */
  predicate Harmless(fold: Fold, key: string) {
    0 < Utf8Length(key) <= MAX_STRING_BYTES && fold(key) !in SENSITIVE_ARG_KEYS
  }

  /** Every object is a marker around a tuple or bytes, or has harmless keys only, at any depth. */
  predicate KeysHarmless(fold: Fold, j: Json)
    decreases j, 1
  {
    match j
    case JArray(items) => forall i | 0 <= i < |items| :: KeysHarmless(fold, items[i])
    case JObject(ms) => Marker(fold, ms) || MembersHarmless(fold, ms)
    case _ => true
  }

  predicate Marker(fold: Fold, ms: seq<(string, Json)>)
    decreases ms, 0
  {
    |ms| == 1 && MarkerMember(fold, ms[0])
  }

  predicate MarkerMember(fold: Fold, m: (string, Json))
    decreases m, 0
  {
    || (m.0 == "__bytes_hex__" && m.1.JString?)
    || (m.0 == "__tuple__" && m.1.JArray? && KeysHarmless(fold, m.1))
  }

  predicate MembersHarmless(fold: Fold, ms: seq<(string, Json)>)
    decreases ms, 0
  {
    forall i | 0 <= i < |ms| :: MemberHarmless(fold, ms[i])
  }

  predicate MemberHarmless(fold: Fold, m: (string, Json))
    decreases m, 0
  {
    Harmless(fold, m.0) && KeysHarmless(fold, m.1)
  }

  lemma {:induction false} TreeHarmless(fold: Fold, heap: Heap, v: Value, t: Tree)
    requires Unfolds(fold, heap, v, t)
    ensures KeysHarmless(fold, Render(t))
    decreases t, 1
  {
    match t
    case Leaf(_) =>
    case ListTree(ts) => AllHarmless(fold, heap, heap[v.id].items, ts);
    case TupleTree(ts) => AllHarmless(fold, heap, heap[v.id].items, ts);
    case DictTree(ks, ts) => EntriesHarmless(fold, heap, heap[v.id].entries, ks, ts);
  }

  lemma {:induction false} AllHarmless(fold: Fold, heap: Heap, vs: seq<Value>, ts: seq<Tree>)
    requires UnfoldAll(fold, heap, vs, ts)
    ensures KeysHarmless(fold, JArray(RenderAll(ts)))
    decreases ts, 0
  {
    if ts == [] {
    } else {
      TreeHarmless(fold, heap, vs[0], ts[0]);
      assert UnfoldAll(fold, heap, vs[1..], ts[1..]);
      AllHarmless(fold, heap, vs[1..], ts[1..]);
      var js := RenderAll(ts);
      forall i | 0 <= i < |js| ensures KeysHarmless(fold, js[i]) {
        if i > 0 { assert js[i] == JArray(RenderAll(ts[1..])).items[i - 1]; }
      }
    }
  }

  lemma {:induction false} EntriesHarmless(fold: Fold, heap: Heap, es: Entries, ks: seq<string>, ts: seq<Tree>)
    requires UnfoldEntries(fold, heap, es, ks, ts)
    ensures MembersHarmless(fold, RenderEntries(ks, ts))
    decreases ts, 0
  {
    if ts == [] {
    } else {
      assert KeyOk(fold, es[0].0) && es[0].0.s == ks[0];
      TreeHarmless(fold, heap, es[0].1, ts[0]);
      assert UnfoldEntries(fold, heap, es[1..], ks[1..], ts[1..]);
      EntriesHarmless(fold, heap, es[1..], ks[1..], ts[1..]);
      var ms := RenderEntries(ks, ts);
      forall i | 0 <= i < |ms| ensures MemberHarmless(fold, ms[i]) {
        if i > 0 { assert ms[i] == RenderEntries(ks[1..], ts[1..])[i - 1]; }
      }
    }
  }

  /** Whatever the walk shows has harmless keys. */
  lemma WalkHarmless(fold: Fold, heap: Heap, v: Value, b: Budget)
    ensures var w := Walk(fold, heap, v, {}, b, 0); w.value.Some? ==> KeysHarmless(fold, w.value.value)
  {
    hide Walk, Unfolds, Render, KeysHarmless, Height, Nodes, Cost;
    WalkExact(fold, heap, v, b);
    if Walk(fold, heap, v, {}, b, 0).value.Some? {
      var t :| FitsBudget(fold, heap, v, b, t);
      TreeHarmless(fold, heap, v, t);
    }
  }

  lemma {:induction false} FieldsHarmless(fold: Fold, heap: Heap, fs: Fields, b: Budget)
    requires forall i | 0 <= i < |fs| :: Harmless(fold, fs[i].0)
    ensures var w := WalkFields(fold, heap, fs, b); w.value.Some? ==> MembersHarmless(fold, w.value.value)
  {
    hide Walk, KeysHarmless, TextCost, Harmless;
    if fs == [] {
    } else {
      var b0 := b.(output := b.output - TextCost(fs[0].0));
      WalkHarmless(fold, heap, fs[0].1, b0);
      var w := Walk(fold, heap, fs[0].1, {}, b0, 0);
      FieldsHarmless(fold, heap, fs[1..], w.budget);
    }
  }

  lemma ArgsHarmless(fold: Fold, heap: Heap, es: Entries, b: Budget)
    ensures var w := ArgsResult(fold, heap, es, b); w.value.Some? ==> MembersHarmless(fold, w.value.value)
  {
    hide WalkFields, SortByName, MembersHarmless, Utf8Length, NonNegative, UnitInterval;
    if ArgsAcceptable(fold, es) {
      var fs := Named(es);
      SortByNameMembers(fs);
      forall i | 0 <= i < |SortByName(fs)| ensures Harmless(fold, SortByName(fs)[i].0) {
        assert SortByName(fs)[i] in fs;
        var k :| 0 <= k < |fs| && fs[k] == SortByName(fs)[i];
        assert KeyOk(fold, es[k].0);
      }
      FieldsHarmless(fold, heap, SortByName(fs), b);
    }
  }

  lemma StateHarmless(fold: Fold, heap: Heap, v: Value, b: Budget)
    ensures var w := StateResult(fold, heap, v, b); w.value.Some? ==> KeysHarmless(fold, w.value.value.1)
  {
    hide Walk, WalkTensors;
    var m := Mapping(heap, v);
    if m.Some? {
      var ts := WalkTensors(m.value.0, b);
      if m.value.1.Some? { WalkHarmless(fold, heap, m.value.1.value, ts.budget); }
    }
  }

  /** No credential in any capture, however the stream was made. */
  lemma NoCredential(fold: Fold, heap: Heap, root: Value)
    ensures var w := CaptureRoot(fold, heap, root);
            w.value.Some? ==> MembersHarmless(fold, w.value.value.args) && KeysHarmless(fold, w.value.value.metadata)
  {
    hide ArgsResult, StateResult, Envelope, MembersHarmless, KeysHarmless;
    var e := Envelope(heap, root);
    if e.Some? {
      var b := Budget(MAX_OUTPUT_NODES, MAX_OUTPUT_BYTES);
      ArgsHarmless(fold, heap, e.value.0, b);
      StateHarmless(fold, heap, e.value.1, ArgsResult(fold, heap, e.value.0, b).budget);
    }
  }
}
