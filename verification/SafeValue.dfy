/**
 `TraversalBudget` and `_safe_value` of tools/audit/firered_checkpoint_metadata.py as they run:
 one budget object is spent in place and one set of active identities grows and shrinks.
 */
module SafeValue {
  import opened Wrappers
  import opened TensorView
  import opened PickleValues
  import opened Json
  import opened GraphWalk

  class TraversalBudget {
    var remaining: int
    var outputRemaining: int

    constructor ()
      ensures Snapshot() == Budget(MAX_OUTPUT_NODES, MAX_OUTPUT_BYTES)
    {
      remaining, outputRemaining := MAX_OUTPUT_NODES, MAX_OUTPUT_BYTES;
    }

    function Snapshot(): Budget
      reads this
    {
      Budget(remaining, outputRemaining)
    }

    method Consume(amount: int) returns (ok: bool)
      modifies this`remaining
      ensures ok <==> 0 <= amount <= old(remaining)
      ensures remaining == if ok then old(remaining) - amount else old(remaining)
    {
      ok := 0 <= amount <= remaining;
      if ok { remaining := remaining - amount; }
    }

    method ConsumeOutput(amount: int) returns (ok: bool)
      modifies this`outputRemaining
      ensures ok <==> 0 <= amount <= old(outputRemaining)
      ensures outputRemaining == if ok then old(outputRemaining) - amount else old(outputRemaining)
    {
      ok := 0 <= amount <= outputRemaining;
      if ok { outputRemaining := outputRemaining - amount; }
    }
  }

  /** The identities of the containers on the current path. */
  class ActiveSet {
    var ids: set<nat>

    constructor ()
      ensures ids == {}
    {
      ids := {};
    }
  }

  /** What is already collected, in front of what a walk still yields. */
  function Prepend<T>(done: seq<T>, w: Walked<seq<T>>): (r: Walked<seq<T>>)
    ensures done == [] || w.value.None? ==> r == w
    ensures w.value == Some([]) ==> r == Walked(Some(done), w.budget)
  {
    match w.value
    case None => w
    case Some(rest) =>
      assert [] + rest == rest && done + [] == done;
      Walked(Some(done + rest), w.budget)
  }

  lemma PrependTwice<T>(a: seq<T>, b: seq<T>, w: Walked<seq<T>>)
    ensures Prepend(a, Prepend(b, w)) == Prepend(a + b, w)
  {
    if w.value.Some? { assert a + (b + w.value.value) == (a + b) + w.value.value; }
  }

  lemma ItemsStep(fold: Fold, heap: Heap, vs: seq<Value>, i: nat, active: set<nat>, b: Budget, depth: nat)
    requires depth <= MAX_DEPTH && i < |vs|
    ensures var first := Walk(fold, heap, vs[i], active, b, depth + 1);
            WalkItems(fold, heap, vs[i..], active, b, depth) ==
            if first.value.None? then Walked(None, first.budget)
            else Prepend([first.value.value], WalkItems(fold, heap, vs[i + 1..], active, first.budget, depth))
  {
    hide Walk;
    assert vs[i..][1..] == vs[i + 1..];
  }

  lemma EntriesStep(fold: Fold, heap: Heap, es: Entries, i: nat, active: set<nat>, b: Budget, depth: nat)
    requires depth <= MAX_DEPTH && i < |es|
    ensures WalkEntries(fold, heap, es[i..], active, b, depth) ==
            if !KeyOk(fold, es[i].0) || b.output < TextCost(es[i].0.s) then Walked(None, b)
            else
              var first := Walk(fold, heap, es[i].1, active, b.(output := b.output - TextCost(es[i].0.s)), depth + 1);
              if first.value.None? then Walked(None, first.budget)
              else Prepend([(es[i].0.s, first.value.value)],
                  WalkEntries(fold, heap, es[i + 1..], active, first.budget, depth))
  {
    hide Walk, TextCost;
    assert es[i..][1..] == es[i + 1..];
  }

  /**
   The walk computes Walk, spends the budget object as Walk says, and restores the set of
   active identities whether it returns a value or raises.
   */
  method Safe(fold: Fold, heap: Heap, v: Value, active: ActiveSet, budget: TraversalBudget, depth: nat)
    returns (r: Option<Json>)
    requires depth <= MAX_DEPTH + 1
    modifies active, budget
    ensures active.ids == old(active.ids)
    ensures Walked(r, budget.Snapshot()) == Walk(fold, heap, v, old(active.ids), old(budget.Snapshot()), depth)
    decreases MAX_DEPTH + 1 - depth, 1, 0
  {
    if depth > MAX_DEPTH {
      return None;
    }
    var paid := budget.Consume(1);
    if !paid {
      return None;
    }
    if !v.Ref? {
      r := SafeAtom(v, budget);
      return;
    }
    if v.id in active.ids || v.id >= |heap| {
      return None;
    }
    ghost var before := active.ids;
    active.ids := active.ids + {v.id};
    r := SafeObject(fold, heap, heap[v.id], active, budget, depth);
    active.ids := active.ids - {v.id};
    assert before + {v.id} - {v.id} == before;
  }

  method SafeAtom(v: Value, budget: TraversalBudget) returns (r: Option<Json>)
    requires !v.Ref?
    modifies budget
    ensures Walked(r, budget.Snapshot()) == WalkAtom(v, old(budget.Snapshot()))
  {
    r := None;
    if !AtomOk(v) {
      return;
    }
    var paid := budget.ConsumeOutput(AtomCost(v));
    if paid {
      r := Some(RenderAtom(v));
    }
  }

  method SafeObject(fold: Fold, heap: Heap, o: Object, active: ActiveSet, budget: TraversalBudget, depth: nat)
    returns (r: Option<Json>)
    requires depth <= MAX_DEPTH
    modifies active, budget
    ensures active.ids == old(active.ids)
    ensures Walked(r, budget.Snapshot()) == WalkObject(fold, heap, o, old(active.ids), old(budget.Snapshot()), depth)
    decreases MAX_DEPTH + 1 - depth, 0, 0
  {
    r := None;
    match o {
      case List(vs) =>
        if |vs| > MAX_CONTAINER_ITEMS { return; }
        var paid := budget.ConsumeOutput(64);
        if !paid { return; }
        var js := SafeItems(fold, heap, vs, active, budget, depth);
        if js.Some? { r := Some(JArray(js.value)); }
      case Tuple(vs) =>
        if |vs| > MAX_CONTAINER_ITEMS { return; }
        var paid := budget.ConsumeOutput(96);
        if !paid { return; }
        var js := SafeItems(fold, heap, vs, active, budget, depth);
        if js.Some? { r := Some(JObject([("__tuple__", JArray(js.value))])); }
      case Dict(es) =>
        r := SafeMapping(fold, heap, es, active, budget, depth);
      case OrderedDict(es, meta) =>
        if |es| > MAX_CONTAINER_ITEMS || meta.Some? { return; }
        r := SafeMapping(fold, heap, es, active, budget, depth);
      case _ =>
    }
  }

  method SafeItems(fold: Fold, heap: Heap, vs: seq<Value>, active: ActiveSet, budget: TraversalBudget, depth: nat)
    returns (r: Option<seq<Json>>)
    requires depth <= MAX_DEPTH
    modifies active, budget
    ensures active.ids == old(active.ids)
    ensures Walked(r, budget.Snapshot()) == WalkItems(fold, heap, vs, old(active.ids), old(budget.Snapshot()), depth)
    decreases MAX_DEPTH - depth, 2, |vs|
  {
    hide Walk, Prepend;
    ghost var whole := WalkItems(fold, heap, vs, active.ids, budget.Snapshot(), depth);
    var result: seq<Json> := [];
    var i := 0;
    assert vs[0..] == vs;
    while i < |vs|
      invariant 0 <= i <= |vs|
      invariant active.ids == old(active.ids)
      invariant whole == Prepend(result, WalkItems(fold, heap, vs[i..], active.ids, budget.Snapshot(), depth))
    {
      hide WalkItems;
      ItemsStep(fold, heap, vs, i, active.ids, budget.Snapshot(), depth);
      var item := Safe(fold, heap, vs[i], active, budget, depth + 1);
      if item.None? {
        return None;
      }
      PrependTwice(result, [item.value], WalkItems(fold, heap, vs[i + 1..], active.ids, budget.Snapshot(), depth));
      result := result + [item.value];
      i := i + 1;
    }
    return Some(result);
  }

  method SafeMapping(fold: Fold, heap: Heap, es: Entries, active: ActiveSet, budget: TraversalBudget, depth: nat)
    returns (r: Option<Json>)
    requires depth <= MAX_DEPTH
    modifies active, budget
    ensures active.ids == old(active.ids)
    ensures Walked(r, budget.Snapshot()) == WalkMapping(fold, heap, es, old(active.ids), old(budget.Snapshot()), depth)
    decreases MAX_DEPTH - depth, 3, 0
  {
    r := None;
    if |es| > MAX_CONTAINER_ITEMS { return; }
    var paid := budget.ConsumeOutput(96);
    if !paid { return; }
    var ms := SafeEntries(fold, heap, es, active, budget, depth);
    if ms.Some? { r := Some(JObject(ms.value)); }
  }

  method SafeEntries(fold: Fold, heap: Heap, es: Entries, active: ActiveSet, budget: TraversalBudget, depth: nat)
    returns (r: Option<seq<(string, Json)>>)
    requires depth <= MAX_DEPTH
    modifies active, budget
    ensures active.ids == old(active.ids)
    ensures Walked(r, budget.Snapshot()) == WalkEntries(fold, heap, es, old(active.ids), old(budget.Snapshot()), depth)
    decreases MAX_DEPTH - depth, 2, |es|
  {
    hide Walk, TextCost, Prepend;
    ghost var whole := WalkEntries(fold, heap, es, active.ids, budget.Snapshot(), depth);
    var result: seq<(string, Json)> := [];
    var i := 0;
    assert es[0..] == es;
    while i < |es|
      invariant 0 <= i <= |es|
      invariant active.ids == old(active.ids)
      invariant whole == Prepend(result, WalkEntries(fold, heap, es[i..], active.ids, budget.Snapshot(), depth))
    {
      hide WalkEntries;
      EntriesStep(fold, heap, es, i, active.ids, budget.Snapshot(), depth);
      if !KeyOk(fold, es[i].0) {
        return None;
      }
      var paid := budget.ConsumeOutput(TextCost(es[i].0.s));
      if !paid {
        return None;
      }
      var item := Safe(fold, heap, es[i].1, active, budget, depth + 1);
      if item.None? {
        return None;
      }
      PrependTwice(result, [(es[i].0.s, item.value)],
                   WalkEntries(fold, heap, es[i + 1..], active.ids, budget.Snapshot(), depth));
      result := result + [(es[i].0.s, item.value)];
      i := i + 1;
    }
    return Some(result);
  }
}
