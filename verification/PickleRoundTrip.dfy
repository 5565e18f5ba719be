/**
 What a pickle run builds.  The restricted machine, run on a pickle of a tree, stops with a root that is that
 tree: items in order, keys with their values, and every field of every tensor in its place.
 */
module PickleRoundTrip {
  import opened Wrappers
  import opened TensorView
  import opened PickleValues
  import opened Preflight
  import opened PickleMachine
  import opened PickleWriter

  // ---------------------------------------------------------------------------
  // Which trees can be written
  // ---------------------------------------------------------------------------

  /** Python can tell the keys apart and hash them. */
  ghost predicate KeysApart(env: Env, ks: seq<Atom>) {
    && (forall heap: Heap, i | 0 <= i < |ks| :: env.hashable(heap, AtomValue(ks[i])))
    && forall heap: Heap, i, j | 0 <= i < j < |ks| :: !env.keyEq(heap, AtomValue(ks[i]), AtomValue(ks[j]))
  }

  predicate AtomWritable(a: Atom) {
    a.ImportAtom? && a.i.TypeImport? ==> ItemBytes(a.i.dtype).Some?
  }

  predicate AtomsWritable(atoms: seq<Atom>) {
    forall i | 0 <= i < |atoms| :: AtomWritable(atoms[i])
  }

  /** What the metadata of an ordered dictionary may be. */
  predicate MetadataDoc(d: Doc) {
    (d.DictDoc? || d.OrderedDoc?) && |d.values| <= MAX_CONTAINER_ITEMS
  }

  ghost predicate Writable(env: Env, d: Doc)
    decreases d, 1
  {
    match d
    case AtomDoc(a) => AtomWritable(a)
    case ListDoc(ds) => AllWritable(env, ds)
    case TupleDoc(ds) => AllWritable(env, ds)
    case SetDoc(atoms) => KeysApart(env, atoms) && AtomsWritable(atoms)
    case DictDoc(ks, ds) => |ks| == |ds| && KeysApart(env, ks) && AtomsWritable(ks) && AllWritable(env, ds)
    case NamespaceDoc(ks, ds) => |ks| == |ds| && KeysApart(env, ks) && AtomsWritable(ks) && AllWritable(env, ds)
    case OrderedDoc(ks, ds, meta) =>
      && |ks| == |ds| && KeysApart(env, ks) && AtomsWritable(ks) && AllWritable(env, ds)
      && (meta.Some? ==> MetadataDoc(meta.value) && Writable(env, meta.value)
                         && KeysApart(env, [TextAtom("_metadata")]))
    case StorageDoc(s) => ValidStorage(s)
    case TensorDoc(t, _) => ValidTensor(t)
  }

  ghost predicate AllWritable(env: Env, ds: seq<Doc>)
    decreases ds, 0
  {
    forall i | 0 <= i < |ds| :: Writable(env, ds[i])
  }

  // ---------------------------------------------------------------------------
  // Running opcodes
  // ---------------------------------------------------------------------------

  function RunOps(env: Env, m: Machine, ops: seq<Op>): Outcome
    decreases |ops|
  {
    if ops == [] then Next(m)
    else match Step(env, m, ops[0])
         case Next(n) => RunOps(env, n, ops[1..])
         case o => o
  }

  /** The opcodes take the machine from m to n. */
  ghost predicate Leads(env: Env, m: Machine, ops: seq<Op>, n: Machine) {
    RunOps(env, m, ops) == Next(n)
  }

  lemma {:induction false} Then(env: Env, m: Machine, a: seq<Op>, n: Machine, b: seq<Op>)
    requires Leads(env, m, a, n)
    ensures RunOps(env, m, a + b) == RunOps(env, n, b)
    decreases |a|
  {
    hide Step;
    if a == [] {
      assert a + b == b;
    } else {
      assert (a + b)[1..] == a[1..] + b;
      Then(env, Step(env, m, a[0]).m, a[1..], n, b);
    }
  }

  lemma One(env: Env, m: Machine, op: Op)
    ensures RunOps(env, m, [op]) == Step(env, m, op)
    ensures RunOps(env, m, []) == Next(m)
  {
    hide Step;
    assert [op][1..] == [];
  }

  /** One opcode more. */
  lemma AndThen(env: Env, m: Machine, a: seq<Op>, n: Machine, op: Op)
    requires Leads(env, m, a, n)
    ensures RunOps(env, m, a + [op]) == Step(env, n, op)
  {
    hide Step, RunOps;
    Then(env, m, a, n, [op]);
    One(env, n, op);
  }

  /** The run of a stream of items is the run of its opcodes. */
  lemma {:induction false} RunIsRunOps(env: Env, items: seq<Item>, ops: seq<Op>, k: nat)
    requires |items| == |ops| && k <= |ops| && forall i | 0 <= i < |ops| :: items[i].op == ops[i]
    ensures Run(env, items, k) == RunOps(env, START, ops[..k])
  {
    hide Step;
    if k == 0 {
    } else {
      RunIsRunOps(env, items, ops, k - 1);
      assert ops[..k] == ops[..k - 1] + [ops[k - 1]];
      if Run(env, items, k - 1).Next? {
        AndThen(env, START, ops[..k - 1], Run(env, items, k - 1).m, ops[k - 1]);
      } else {
        StoppedRun(env, START, ops[..k - 1], [ops[k - 1]]);
      }
    }
  }

  lemma {:induction false} StoppedRun(env: Env, m: Machine, a: seq<Op>, b: seq<Op>)
    requires !RunOps(env, m, a).Next?
    ensures RunOps(env, m, a + b) == RunOps(env, m, a)
    decreases |a|
  {
    hide Step;
    assert (a + b)[1..] == a[1..] + b;
    if Step(env, m, a[0]).Next? { StoppedRun(env, Step(env, m, a[0]).m, a[1..], b); }
  }

  // ---------------------------------------------------------------------------
  // Frames
  // ---------------------------------------------------------------------------

  /** From `low` on, what is in the one heap is in the other. */
  ghost predicate Kept(heap: Heap, other: Heap, low: nat) {
    |heap| <= |other| && forall i | low <= i < |heap| :: other[i] == heap[i]
  }

  lemma {:induction false} ShowsKept(heap: Heap, other: Heap, v: Value, d: Doc, low: nat, lower: nat)
    requires Shows(heap, v, d, low) && lower <= low && Kept(heap, other, low)
    ensures Shows(other, v, d, lower)
    decreases d, 2
  {
    match d
    case AtomDoc(_) =>
    case StorageDoc(_) =>
    case TensorDoc(_, _) =>
    case _ =>
      ObjectKept(heap, other, heap[v.id], d, low, lower);
  }

  lemma {:induction false} ObjectKept(heap: Heap, other: Heap, o: Object, d: Doc, low: nat, lower: nat)
    requires ShowsObject(heap, o, d, low) && lower <= low && Kept(heap, other, low)
    ensures ShowsObject(other, o, d, lower)
    decreases d, 1
  {
    match d
    case ListDoc(ds) => AllKept(heap, other, o.items, ds, low, lower);
    case TupleDoc(ds) => AllKept(heap, other, o.items, ds, low, lower);
    case SetDoc(_) =>
    case DictDoc(ks, ds) => EntriesKept(heap, other, o.entries, ks, ds, low, lower);
    case NamespaceDoc(ks, ds) => EntriesKept(heap, other, o.entries, ks, ds, low, lower);
    case OrderedDoc(ks, ds, meta) =>
      EntriesKept(heap, other, o.entries, ks, ds, low, lower);
      if meta.Some? { ShowsKept(heap, other, o.metadata.value, meta.value, low, lower); }
  }

  lemma {:induction false} AllKept(heap: Heap, other: Heap, vs: seq<Value>, ds: seq<Doc>, low: nat, lower: nat)
    requires ShowsAll(heap, vs, ds, low) && lower <= low && Kept(heap, other, low)
    ensures ShowsAll(other, vs, ds, lower)
    decreases ds, 0
  {
    forall i | 0 <= i < |ds| ensures Shows(other, vs[i], ds[i], lower) {
      ShowsKept(heap, other, vs[i], ds[i], low, lower);
    }
  }

  lemma {:induction false} EntriesKept(heap: Heap, other: Heap, es: Entries, ks: seq<Atom>, ds: seq<Doc>, low: nat,
                                       lower: nat)
    requires ShowsEntries(heap, es, ks, ds, low) && lower <= low && Kept(heap, other, low)
    ensures ShowsEntries(other, es, ks, ds, lower)
    decreases ds, 0
  {
    forall i | 0 <= i < |ds| ensures Shows(other, es[i].1, ds[i], lower) {
      ShowsKept(heap, other, es[i].1, ds[i], low, lower);
    }
  }

  // ---------------------------------------------------------------------------
  // The memo
  // ---------------------------------------------------------------------------

  /** The machine's memo holds what the writer's table says, under numbers below `next`. */
  ghost predicate MemoAgrees(m: Machine, w: Memo) {
    && |m.memo| == w.next
    && (forall k | k in m.memo :: 0 <= k < w.next)
    && forall a | a in w.table :: w.table[a] in m.memo && m.memo[w.table[a]] == AtomValue(a)
  }

  /** n is m with values pushed and objects allocated, and the memo grown as the writer says. */
  ghost predicate Pushed(m: Machine, n: Machine, vs: seq<Value>, w: Memo) {
    && n.stack == m.stack + vs && n.metastack == m.metastack
    && |m.heap| <= |n.heap| && n.heap[..|m.heap|] == m.heap
    && MemoAgrees(n, w)
  }

  lemma MemoStep(st: Style, env: Env, m: Machine, w: Memo) returns (n: Machine)
    requires MemoAgrees(m, w) && m.stack != []
    ensures Step(env, m, MemoOp(st, w)) == Next(n)
    ensures n == m.(memo := m.memo[w.next := m.stack[|m.stack| - 1]]) && MemoAgrees(n, Noted(w))
  {
    n := m.(memo := m.memo[w.next := m.stack[|m.stack| - 1]]);
  }

  lemma ImportStep(env: Env, m: Machine, i: Import)
    requires AtomWritable(ImportAtom(i))
    ensures Step(env, m, ImportOp(i)) == Next(Push(m, ImportValue(i)))
  {}

  lemma AtomStep(env: Env, m: Machine, a: Atom)
    requires AtomWritable(a)
    ensures Step(env, m, AtomOp(a)) == Next(Push(m, AtomValue(a)))
  {
    hide ImportOp, ImportValue;
    if a.ImportAtom? { ImportStep(env, m, a.i); }
  }

  lemma GetStep(env: Env, m: Machine, i: int)
    requires i in m.memo
    ensures Step(env, m, Get(i)) == Next(Push(m, m.memo[i]))
  {}

  lemma AtomPushed(st: Style, env: Env, a: Atom, w: Memo, m: Machine) returns (n: Machine)
    requires AtomWritable(a) && MemoAgrees(m, w)
    ensures Leads(env, m, WriteAtom(st, a, w).ops, n)
    ensures Pushed(m, n, [AtomValue(a)], WriteAtom(st, a, w).memo) && n.heap == m.heap
  {
    hide AtomOp, AtomValue, AtomWritable, Step, MemoOp;
    var pushed := Push(m, AtomValue(a));
    if !a.TextAtom? && !a.ImportAtom? {
      AtomStep(env, m, a);
      One(env, m, AtomOp(a));
      n := pushed;
    } else if a in w.table {
      GetStep(env, m, w.table[a]);
      One(env, m, Get(w.table[a]));
      n := pushed;
    } else {
      AtomStep(env, m, a);
      One(env, m, AtomOp(a));
      n := MemoStep(st, env, pushed, w);
      AndThen(env, m, [AtomOp(a)], pushed, MemoOp(st, w));
      assert [AtomOp(a)] + [MemoOp(st, w)] == WriteAtom(st, a, w).ops;
    }
  }

  // ---------------------------------------------------------------------------
  // Filling containers
  // ---------------------------------------------------------------------------

  /** Keys and values in turn, as they lie on the stack. */
  function Flat(es: Entries): seq<Value> {
    if es == [] then [] else [es[0].0, es[0].1] + Flat(es[1..])
  }

  ghost predicate EntriesApart(env: Env, heap: Heap, es: Entries) {
    && (forall i | 0 <= i < |es| :: env.hashable(heap, es[i].0))
    && forall i, j | 0 <= i < j < |es| :: !env.keyEq(heap, es[i].0, es[j].0)
  }

  lemma {:induction false} PutEntryNew(env: Env, heap: Heap, es: Entries, k: Value, v: Value)
    requires forall i | 0 <= i < |es| :: !env.keyEq(heap, es[i].0, k)
    ensures PutEntry(env, heap, es, k, v) == es + [(k, v)]
  {
    if es == [] {
    } else {
      PutEntryNew(env, heap, es[1..], k, v);
      assert [es[0]] + (es[1..] + [(k, v)]) == es + [(k, v)];
    }
  }

  lemma {:induction false} PutPairsApart(env: Env, heap: Heap, before: Entries, es: Entries)
    requires EntriesApart(env, heap, before + es)
    ensures PutPairs(env, heap, before, Flat(es)) == Some(before + es)
    decreases |es|
  {
    if es == [] {
      assert before + es == before;
    } else {
      var all, first, flat := before + es, es[0], Flat(es);
      assert all[|before|] == first && forall i | 0 <= i < |before| :: all[i] == before[i];
      PutEntryNew(env, heap, before, first.0, first.1);
      assert flat[2..] == Flat(es[1..]);
      assert (before + [first]) + es[1..] == all;
      PutPairsApart(env, heap, before + [first], es[1..]);
    }
  }

  lemma {:induction false} PutAllApart(env: Env, heap: Heap, before: Entries, es: Entries)
    requires EntriesApart(env, heap, before + es)
    ensures PutAll(env, heap, before, es) == before + es
    decreases |es|
  {
    if es == [] {
      assert before + es == before;
    } else {
      var all, first := before + es, es[0];
      assert all[|before|] == first && forall i | 0 <= i < |before| :: all[i] == before[i];
      PutEntryNew(env, heap, before, first.0, first.1);
      assert (before + [first]) + es[1..] == all;
      PutAllApart(env, heap, before + [first], es[1..]);
    }
  }

  lemma {:induction false} AddMembersApart(env: Env, heap: Heap, vs: seq<Value>, more: seq<Value>)
    requires forall i | 0 <= i < |more| :: env.hashable(heap, more[i])
    requires forall i, j | 0 <= i < j < |vs + more| :: !env.keyEq(heap, (vs + more)[i], (vs + more)[j])
    ensures AddMembers(env, heap, vs, more) == Some(vs + more)
    decreases |more|
  {
    if more == [] {
      assert vs + more == vs;
    } else {
      var all := vs + more;
      assert all[|vs|] == more[0] && forall i | 0 <= i < |vs| :: all[i] == vs[i];
      assert (vs + [more[0]]) + more[1..] == all;
      AddMembersApart(env, heap, vs + [more[0]], more[1..]);
    }
  }

  lemma ShownApart(env: Env, heap: Heap, es: Entries, ks: seq<Atom>, ds: seq<Doc>, low: nat)
    requires KeysApart(env, ks) && ShowsEntries(heap, es, ks, ds, low)
    ensures EntriesApart(env, heap, es) && EntriesApart(env, heap, [] + es)
  {
    hide AtomValue;
    assert [] + es == es;
  }

  function Marked(m: Machine): Machine {
    m.(metastack := m.metastack + [m.stack], stack := [])
  }

  /** The container on top of the stack. */
  ghost predicate OnTop(m: Machine, id: nat) {
    m.stack != [] && m.stack[|m.stack| - 1] == Ref(id) && id < |m.heap|
  }

  lemma FillMany(env: Env, m: Machine, id: nat, op: Op, ops: seq<Op>, n: Machine, o: Object)
    requires op == Appends || op == SetItems || op == AddItems
    requires OnTop(m, id) && Leads(env, Marked(m), ops, n) && n.metastack == Marked(m).metastack && n.stack != []
    requires id < |n.heap| && !n.heap[id].Namespace? && Filled(env, n.heap, n.heap[id], op, n.stack) == Some(o)
    ensures Leads(env, m, [Mark] + ops + [op], Machine(m.stack, m.metastack, n.memo, n.heap[id := o]))
  {
    hide RunOps, Filled;
    One(env, m, Mark);
    Then(env, m, [Mark], Marked(m), ops);
    assert Marked(m).metastack[..|m.metastack|] == m.metastack;
    AndThen(env, m, [Mark] + ops, n, op);
  }

  lemma FillOne(env: Env, m: Machine, id: nat, op: Op, ops: seq<Op>, n: Machine, vs: seq<Value>, o: Object)
    requires (op == Append && |vs| == 1) || (op == SetItem && |vs| == 2)
    requires OnTop(m, id) && Leads(env, m, ops, n) && n.stack == m.stack + vs
    requires id < |n.heap| && !n.heap[id].Namespace? && Filled(env, n.heap, n.heap[id], op, vs) == Some(o)
    ensures Leads(env, m, ops + [op], n.(stack := m.stack, heap := n.heap[id := o]))
  {
    hide RunOps, Filled;
    AndThen(env, m, ops, n, op);
    assert n.stack[..|n.stack| - |vs|] == m.stack && n.stack[|n.stack| - |vs|..] == vs;
  }

  /** Closing a mark over a tuple, list or dictionary. */
  lemma CloseContainer(env: Env, m: Machine, op: Op, ops: seq<Op>, n: Machine, o: Object)
    requires Leads(env, Marked(m), ops, n) && n.metastack == Marked(m).metastack
    requires match op
             case MarkTuple => o == Tuple(n.stack)
             case MarkList => o == List(n.stack)
             case MarkDict => PutPairs(env, n.heap, [], n.stack).Some?
                              && o == Dict(PutPairs(env, n.heap, [], n.stack).value)
             case _ => false
    ensures Leads(env, m, [Mark] + ops + [op],
                  Machine(m.stack + [Ref(|n.heap|)], m.metastack, n.memo, n.heap + [o]))
  {
    hide RunOps, PutPairs;
    One(env, m, Mark);
    Then(env, m, [Mark], Marked(m), ops);
    assert Marked(m).metastack[..|m.metastack|] == m.metastack;
    AndThen(env, m, [Mark] + ops, n, op);
  }

  /** A batch of one or more items, run from the frame it needs, fills the container. */
  lemma FillBatch(env: Env, m: Machine, id: nat, count: nat, one: Op, many: Op, ops: seq<Op>, n: Machine,
                  vs: seq<Value>, o: Object)
    requires || (one == Append && many == Appends && |vs| == count)
             || (one == SetItem && many == SetItems && |vs| == 2 * count)
    requires count > 0 && OnTop(m, id)
    requires var start := if count == 1 then m else Marked(m);
             Leads(env, start, ops, n) && n.stack == start.stack + vs && n.metastack == start.metastack
    requires id < |n.heap| && !n.heap[id].Namespace?
    requires Filled(env, n.heap, n.heap[id], many, vs) == Some(o)
    ensures Leads(env, m, Batch(count, one, many, ops), Machine(m.stack, m.metastack, n.memo, n.heap[id := o]))
  {
    hide RunOps, Leads;
    assert Filled(env, n.heap, n.heap[id], one, vs) == Filled(env, n.heap, n.heap[id], many, vs);
    if count == 1 {
      FillOne(env, m, id, one, ops, n, vs, o);
    } else {
      assert n.stack == vs;
      FillMany(env, m, id, many, ops, n, o);
    }
  }

  /** An empty container with its memo write. */
  lemma Created(st: Style, env: Env, m: Machine, op: Op, o: Object, w: Memo) returns (n: Machine)
    requires EmptyContainer(op) == Some(o) && MemoAgrees(m, w)
    ensures Leads(env, m, [op, MemoOp(st, w)], n)
    ensures Pushed(m, n, [Ref(|m.heap|)], Noted(w)) && n.heap == m.heap + [o] && OnTop(n, |m.heap|)
  {
    hide RunOps;
    One(env, m, op);
    n := MemoStep(st, env, Allocate(m, o), w);
    AndThen(env, m, [op], Allocate(m, o), MemoOp(st, w));
    assert [op] + [MemoOp(st, w)] == [op, MemoOp(st, w)];
  }

  /** The topmost object, given its final form after its items were built above it. */
  lemma Finished(m: Machine, top: Machine, start: Machine, n: Machine, vs: seq<Value>, u: Memo, w: Memo, o: Object)
    requires |top.heap| > |m.heap| && Pushed(m, top, [Ref(|top.heap| - 1)], u)
    requires start == top || start == Marked(top)
    requires Pushed(start, n, vs, w)
    ensures |n.heap| >= |top.heap| && n.heap[|top.heap| - 1] == top.heap[|top.heap| - 1]
    ensures var r := Machine(top.stack, m.metastack, n.memo, n.heap[|top.heap| - 1 := o]);
            Pushed(m, r, [Ref(|top.heap| - 1)], w) && Kept(n.heap, r.heap, |top.heap|)
  {
    var id := |top.heap| - 1;
    assert n.heap[..|top.heap|][id] == n.heap[id];
    var r := n.heap[id := o];
    forall i | 0 <= i < |m.heap| ensures r[i] == m.heap[i] {
      assert n.heap[..|top.heap|][i] == n.heap[i] && top.heap[..|m.heap|][i] == top.heap[i];
    }
    assert r[..|m.heap|] == m.heap;
  }

  // ---------------------------------------------------------------------------
  // Every tree is pushed
  // ---------------------------------------------------------------------------

  /** From m to n the tree was built: one value more on the stack, and it is the tree. */
  ghost predicate Made(m: Machine, n: Machine, v: Value, d: Doc, w: Memo) {
    Pushed(m, n, [v], w) && Shows(n.heap, v, d, |m.heap|)
  }

  lemma {:induction false} DocBuilt(st: Style, env: Env, d: Doc, w: Memo, m: Machine) returns (v: Value, n: Machine)
    requires Writable(env, d) && MemoAgrees(m, w)
    ensures Leads(env, m, Write(st, d, w).ops, n) && Made(m, n, v, d, Write(st, d, w).memo)
    decreases Weight(d), 1
  {
    match d
    case AtomDoc(a) =>
      v := AtomValue(a);
      n := AtomPushed(st, env, a, w, m);
    case ListDoc(ds) =>
      v, n := ListBuilt(st, env, ds, w, m);
    case TupleDoc(ds) => v, n := TupleBuilt(st, env, ds, w, m);
    case SetDoc(atoms) => v, n := SetBuilt(st, env, atoms, w, m);
    case DictDoc(ks, ds) => v, n := DictBuilt(st, env, ks, ds, w, m);
    case OrderedDoc(ks, ds, meta) => v, n := OrderedBuilt(st, env, ks, ds, meta, w, m);
    case NamespaceDoc(ks, ds) => v, n := NamespaceBuilt(st, env, ks, ds, w, m);
    case StorageDoc(r) => v, n := StorageBuilt(st, env, r, w, m);
    case TensorDoc(t, g) => v, n := TensorBuilt(st, env, t, g, w, m);
  }

  lemma {:induction false} AllBuilt(st: Style, env: Env, ds: seq<Doc>, w: Memo, m: Machine)
    returns (vs: seq<Value>, n: Machine)
    requires AllWritable(env, ds) && MemoAgrees(m, w)
    ensures Leads(env, m, WriteAll(st, ds, w).ops, n) && Pushed(m, n, vs, WriteAll(st, ds, w).memo)
    ensures ShowsAll(n.heap, vs, ds, |m.heap|)
    decreases WeightAll(ds), 0
  {
    if ds == [] {
      vs, n := [], m;
      assert m.stack + [] == m.stack;
    } else {
      var first := Write(st, ds[0], w);
      var v, mid := DocBuilt(st, env, ds[0], w, m);
      var rest;
      rest, n := AllBuilt(st, env, ds[1..], first.memo, mid);
      vs := [v] + rest;
      AllJoined(m, mid, n, v, rest, ds, first.memo, WriteAll(st, ds[1..], first.memo).memo);
      Then(env, m, first.ops, mid, WriteAll(st, ds[1..], first.memo).ops);
    }
  }

  lemma AllJoined(m: Machine, mid: Machine, n: Machine, v: Value, rest: seq<Value>, ds: seq<Doc>, u: Memo, w: Memo)
    requires ds != [] && Made(m, mid, v, ds[0], u) && Pushed(mid, n, rest, w)
    requires ShowsAll(n.heap, rest, ds[1..], |mid.heap|)
    ensures Pushed(m, n, [v] + rest, w) && ShowsAll(n.heap, [v] + rest, ds, |m.heap|)
  {
    PushedKeeps(mid, n, rest, w);
    PushedTwice(m, mid, n, [v], rest, u, w);
    ShowsKept(mid.heap, n.heap, v, ds[0], |m.heap|, |m.heap|);
    forall i | 0 < i < |ds| ensures Shows(n.heap, ([v] + rest)[i], ds[i], |m.heap|) {
      assert Shows(n.heap, rest[i - 1], ds[1..][i - 1], |mid.heap|);
      ShowsKept(n.heap, n.heap, rest[i - 1], ds[i], |mid.heap|, |m.heap|);
    }
  }

  lemma PushedKeeps(m: Machine, n: Machine, vs: seq<Value>, w: Memo)
    requires Pushed(m, n, vs, w)
    ensures forall low :: 0 <= low ==> Kept(m.heap, n.heap, low)
  {
    forall i | 0 <= i < |m.heap| ensures n.heap[i] == m.heap[i] {
      assert n.heap[..|m.heap|][i] == n.heap[i];
    }
  }

  lemma PushedTwice(m: Machine, mid: Machine, n: Machine, vs: seq<Value>, rest: seq<Value>, u: Memo, w: Memo)
    requires Pushed(m, mid, vs, u) && Pushed(mid, n, rest, w)
    ensures Pushed(m, n, vs + rest, w)
  {
    hide MemoAgrees;
    assert (m.stack + vs) + rest == m.stack + (vs + rest);
    assert n.heap[..|m.heap|] == n.heap[..|mid.heap|][..|m.heap|];
  }

  lemma {:induction false} PairsBuilt(st: Style, env: Env, ks: seq<Atom>, ds: seq<Doc>, w: Memo, m: Machine)
    returns (es: Entries, n: Machine)
    requires |ks| == |ds| && AtomsWritable(ks) && AllWritable(env, ds) && MemoAgrees(m, w)
    ensures Leads(env, m, WritePairs(st, ks, ds, w).ops, n) && Pushed(m, n, Flat(es), WritePairs(st, ks, ds, w).memo)
    ensures ShowsEntries(n.heap, es, ks, ds, |m.heap|)
    decreases WeightAll(ds), 0
  {
    if ds == [] {
      es, n := [], m;
      assert m.stack + [] == m.stack;
    } else {
      hide RunOps, AtomWritable, MemoAgrees, AtomValue, Writable, WriteAtom, Write;
      var key := WriteAtom(st, ks[0], w);
      var first := Write(st, ds[0], key.memo);
      var rest := WritePairs(st, ks[1..], ds[1..], first.memo);
      var keyed := AtomPushed(st, env, ks[0], w, m);
      var v, mid := DocBuilt(st, env, ds[0], key.memo, keyed);
      var more;
      more, n := PairsBuilt(st, env, ks[1..], ds[1..], first.memo, mid);
      es := [(AtomValue(ks[0]), v)] + more;
      PushedTwice(m, keyed, mid, [AtomValue(ks[0])], [v], key.memo, first.memo);
      PairsJoined(m, mid, n, v, more, ks, ds, first.memo, rest.memo);
      Then(env, m, key.ops, keyed, first.ops);
      Then(env, m, key.ops + first.ops, mid, rest.ops);
    }
  }

  lemma PairsJoined(m: Machine, mid: Machine, n: Machine, v: Value, more: Entries, ks: seq<Atom>, ds: seq<Doc>,
                    u: Memo, w: Memo)
    requires ds != [] && |ks| == |ds|
    requires Pushed(m, mid, [AtomValue(ks[0])] + [v], u) && Shows(mid.heap, v, ds[0], |m.heap|)
    requires Pushed(mid, n, Flat(more), w) && ShowsEntries(n.heap, more, ks[1..], ds[1..], |mid.heap|)
    ensures var es := [(AtomValue(ks[0]), v)] + more;
            Pushed(m, n, Flat(es), w) && ShowsEntries(n.heap, es, ks, ds, |m.heap|)
  {
    hide MemoAgrees, AtomValue;
    var es := [(AtomValue(ks[0]), v)] + more;
    assert es[1..] == more && Flat(es) == [AtomValue(ks[0])] + [v] + Flat(more);
    PushedKeeps(mid, n, Flat(more), w);
    PushedTwice(m, mid, n, [AtomValue(ks[0])] + [v], Flat(more), u, w);
    ShowsKept(mid.heap, n.heap, v, ds[0], |m.heap|, |m.heap|);
    forall i | 0 < i < |ds| ensures es[i].0 == AtomValue(ks[i]) && Shows(n.heap, es[i].1, ds[i], |m.heap|) {
      assert more[i - 1].0 == AtomValue(ks[1..][i - 1]) && Shows(n.heap, more[i - 1].1, ds[1..][i - 1], |mid.heap|);
      ShowsKept(n.heap, n.heap, more[i - 1].1, ds[i], |mid.heap|, |m.heap|);
    }
  }

  lemma FlatLength(es: Entries)
    ensures |Flat(es)| == 2 * |es|
  {}

  lemma {:induction false} ListBuilt(st: Style, env: Env, ds: seq<Doc>, w: Memo, m: Machine)
    returns (v: Value, n: Machine)
    requires AllWritable(env, ds) && MemoAgrees(m, w)
    ensures Leads(env, m, Write(st, ListDoc(ds), w).ops, n)
    ensures Made(m, n, v, ListDoc(ds), Write(st, ListDoc(ds), w).memo)
    decreases Weight(ListDoc(ds)), 0
  {
    hide RunOps, MemoAgrees, Writable, WriteAll, Shows, ShowsAll, Leads, Pushed;
    if st.marked {
      var vs, mid := AllBuilt(st, env, ds, w, MarkedOk(m, w));
      v, n := Closed(st, env, m, MarkList, WriteAll(st, ds, w).ops, mid, vs, List(vs), WriteAll(st, ds, w).memo);
      MarkedHeap(m);
      ListShown(mid.heap, n.heap, vs, ds, |m.heap|, |mid.heap|);
    } else {
      var top := Created(st, env, m, EmptyList, List([]), w);
      var body := WriteAll(st, ds, Noted(w));
      v := Ref(|m.heap|);
      if ds == [] {
        n := top;
        EmptyMade(st, m, top, ListDoc([]), w);
        assert [EmptyList, MemoOp(st, w)] + [] == [EmptyList, MemoOp(st, w)];
        NothingWritten(st, Noted(w));
      } else {
        var start := if |ds| == 1 then top else MarkedOk(top, Noted(w));
        MemoOf(m, top, [v], Noted(w));
        var vs, mid := AllBuilt(st, env, ds, Noted(w), start);
        n := ListFilled(env, m, top, start, mid, vs, ds, body.ops, Noted(w), body.memo);
        ThenLeads(env, m, [EmptyList, MemoOp(st, w)], top, Batch(|ds|, Append, Appends, body.ops), n);
      }
    }
  }

  function MarkedOk(m: Machine, w: Memo): (r: Machine)
    ensures r == Marked(m) && (MemoAgrees(m, w) ==> MemoAgrees(r, w))
  {
    Marked(m)
  }

  lemma MarkedHeap(m: Machine)
    ensures Marked(m).heap == m.heap
  {}

  lemma MemoOf(m: Machine, n: Machine, vs: seq<Value>, w: Memo)
    requires Pushed(m, n, vs, w)
    ensures MemoAgrees(n, w)
  {}

  lemma ThenLeads(env: Env, m: Machine, a: seq<Op>, n: Machine, b: seq<Op>, r: Machine)
    requires Leads(env, m, a, n) && Leads(env, n, b, r)
    ensures Leads(env, m, a + b, r)
  {
    hide RunOps;
    Then(env, m, a, n, b);
  }

  /** The empty containers need no items. */
  lemma EmptyMade(st: Style, m: Machine, top: Machine, d: Doc, w: Memo)
    requires Pushed(m, top, [Ref(|m.heap|)], Noted(w))
    requires (d == ListDoc([]) && top.heap == m.heap + [List([])])
             || (d == DictDoc([], []) && top.heap == m.heap + [Dict([])])
             || (d == SetDoc([]) && top.heap == m.heap + [Set([])])
    ensures Made(m, top, Ref(|m.heap|), d, Noted(w))
  {
    hide MemoAgrees;
    assert AtomValues([]) == [];
  }

  lemma ListFilled(env: Env, m: Machine, top: Machine, start: Machine, mid: Machine, vs: seq<Value>, ds: seq<Doc>,
                   ops: seq<Op>, u: Memo, w: Memo) returns (n: Machine)
    requires top.heap == m.heap + [List([])] && Pushed(m, top, [Ref(|m.heap|)], u) && ds != []
    requires start == (if |ds| == 1 then top else Marked(top))
    requires Leads(env, start, ops, mid) && Pushed(start, mid, vs, w) && ShowsAll(mid.heap, vs, ds, |start.heap|)
    ensures Leads(env, top, Batch(|ds|, Append, Appends, ops), n) && Made(m, n, Ref(|m.heap|), ListDoc(ds), w)
  {
    hide RunOps, MemoAgrees, Leads;
    Finished(m, top, start, mid, vs, u, w, List(vs));
    assert [] + vs == vs;
    n := Machine(top.stack, m.metastack, mid.memo, mid.heap[|m.heap| := List(vs)]);
    AllKept(mid.heap, n.heap, vs, ds, |top.heap|, |m.heap|);
    FillBatch(env, top, |m.heap|, |ds|, Append, Appends, ops, mid, vs, List(vs));
    assert ShowsObject(n.heap, n.heap[|m.heap|], ListDoc(ds), |m.heap|);
  }

  lemma NothingWritten(st: Style, w: Memo)
    ensures WriteAll(st, [], w) == Written([], w) && WritePairs(st, [], [], w) == Written([], w)
  {}

  /** A container closed at a mark, with its memo write. */
  lemma Closed(st: Style, env: Env, m: Machine, op: Op, ops: seq<Op>, mid: Machine, vs: seq<Value>, o: Object, w: Memo)
    returns (v: Value, n: Machine)
    requires Leads(env, Marked(m), ops, mid) && Pushed(Marked(m), mid, vs, w)
    requires match op
             case MarkTuple => o == Tuple(vs)
             case MarkList => o == List(vs)
             case MarkDict => PutPairs(env, mid.heap, [], vs).Some? && o == Dict(PutPairs(env, mid.heap, [], vs).value)
             case _ => false
    ensures Leads(env, m, [Mark] + ops + [op, MemoOp(st, w)], n)
    ensures v == Ref(|mid.heap|) && n.heap == mid.heap + [o] && Pushed(m, n, [v], Noted(w))
  {
    hide RunOps, PutPairs, Leads;
    v := Ref(|mid.heap|);
    assert mid.stack == vs;
    var closed := Machine(m.stack + [v], m.metastack, mid.memo, mid.heap + [o]);
    CloseContainer(env, m, op, ops, mid, o);
    n := MemoStep(st, env, closed, w);
    AndThenLeads(env, m, [Mark] + ops + [op], closed, MemoOp(st, w), n);
    assert [Mark] + ops + [op] + [MemoOp(st, w)] == [Mark] + ops + [op, MemoOp(st, w)];
  }

  lemma AndThenLeads(env: Env, m: Machine, a: seq<Op>, n: Machine, op: Op, r: Machine)
    requires Leads(env, m, a, n) && Step(env, n, op) == Next(r)
    ensures Leads(env, m, a + [op], r)
  {
    hide Step, RunOps;
    AndThen(env, m, a, n, op);
  }

  lemma ListShown(heap: Heap, other: Heap, vs: seq<Value>, ds: seq<Doc>, low: nat, id: nat)
    requires ShowsAll(heap, vs, ds, low) && other == heap + [List(vs)] && id == |heap| && low <= id
    ensures Shows(other, Ref(id), ListDoc(ds), low)
  {
    AllKept(heap, other, vs, ds, low, low);
  }

  // ---------------------------------------------------------------------------
  // Tuples, sets, dictionaries
  // ---------------------------------------------------------------------------

  lemma TupleShown(heap: Heap, other: Heap, vs: seq<Value>, ds: seq<Doc>, low: nat, id: nat)
    requires ShowsAll(heap, vs, ds, low) && other == heap + [Tuple(vs)] && id == |heap| && low <= id
    ensures Shows(other, Ref(id), TupleDoc(ds), low)
  {
    AllKept(heap, other, vs, ds, low, low);
  }

  lemma {:induction false} TupleBuilt(st: Style, env: Env, ds: seq<Doc>, w: Memo, m: Machine)
    returns (v: Value, n: Machine)
    requires AllWritable(env, ds) && MemoAgrees(m, w)
    ensures Leads(env, m, Write(st, TupleDoc(ds), w).ops, n)
    ensures Made(m, n, v, TupleDoc(ds), Write(st, TupleDoc(ds), w).memo)
    decreases Weight(TupleDoc(ds)), 0
  {
    hide RunOps, MemoAgrees, Writable, WriteAll, Shows, ShowsAll, Leads, Pushed;
    var body := WriteAll(st, ds, w);
    if ds == [] {
      v, n := EmptyTupleBuilt(env, m, w);
    } else if |ds| <= 3 {
      var vs, mid := AllBuilt(st, env, ds, w, m);
      v, n := ShortTupleBuilt(st, env, m, body.ops, mid, vs, ds, body.memo);
    } else {
      var vs, mid := AllBuilt(st, env, ds, w, MarkedOk(m, w));
      v, n := Closed(st, env, m, MarkTuple, body.ops, mid, vs, Tuple(vs), body.memo);
      MarkedHeap(m);
      HeapGrows(Marked(m), mid, vs, body.memo);
      TupleShown(mid.heap, n.heap, vs, ds, |m.heap|, |mid.heap|);
      assert [Mark] + body.ops + [MarkTuple, MemoOp(st, body.memo)]
          == ([Mark] + body.ops + [MarkTuple]) + [MemoOp(st, body.memo)];
    }
  }

  lemma HeapGrows(m: Machine, n: Machine, vs: seq<Value>, w: Memo)
    requires Pushed(m, n, vs, w)
    ensures |m.heap| <= |n.heap|
  {}

  lemma EmptyTupleBuilt(env: Env, m: Machine, w: Memo) returns (v: Value, n: Machine)
    requires MemoAgrees(m, w)
    ensures Leads(env, m, [EmptyTuple], n) && Made(m, n, v, TupleDoc([]), w)
    ensures v == Ref(|m.heap|) && n == Allocate(m, Tuple([]))
  {
    v, n := Ref(|m.heap|), Allocate(m, Tuple([]));
    One(env, m, EmptyTuple);
  }

  lemma ShortTupleBuilt(st: Style, env: Env, m: Machine, ops: seq<Op>, mid: Machine, vs: seq<Value>, ds: seq<Doc>,
                        w: Memo)
    returns (v: Value, n: Machine)
    requires 0 < |ds| <= 3 && Leads(env, m, ops, mid) && Pushed(m, mid, vs, w) && ShowsAll(mid.heap, vs, ds, |m.heap|)
    ensures Leads(env, m, ops + [ShortTuple(|ds|)] + [MemoOp(st, w)], n) && Made(m, n, v, TupleDoc(ds), Noted(w))
  {
    hide RunOps, Leads;
    v := Ref(|mid.heap|);
    var made := Machine(m.stack + [v], m.metastack, mid.memo, mid.heap + [Tuple(vs)]);
    assert mid.stack[..|mid.stack| - |vs|] == m.stack && mid.stack[|mid.stack| - |vs|..] == vs;
    AndThenLeads(env, m, ops, mid, ShortTuple(|ds|), made);
    n := MemoStep(st, env, made, w);
    AndThenLeads(env, m, ops + [ShortTuple(|ds|)], made, MemoOp(st, w), n);
    TupleShown(mid.heap, n.heap, vs, ds, |m.heap|, |mid.heap|);
  }

  lemma {:induction false} AtomsBuilt(st: Style, env: Env, atoms: seq<Atom>, w: Memo, m: Machine) returns (n: Machine)
    requires AtomsWritable(atoms) && MemoAgrees(m, w)
    ensures Leads(env, m, WriteAtoms(st, atoms, w).ops, n)
    ensures Pushed(m, n, AtomValues(atoms), WriteAtoms(st, atoms, w).memo)
    decreases |atoms|
  {
    hide AtomWritable, MemoAgrees, AtomValue, WriteAtom;
    if atoms == [] {
      n := m;
      assert AtomValues(atoms) == [] && m.stack + [] == m.stack;
    } else {
      var first := WriteAtom(st, atoms[0], w);
      var mid := AtomPushed(st, env, atoms[0], w, m);
      n := AtomsBuilt(st, env, atoms[1..], first.memo, mid);
      assert AtomValues(atoms) == [AtomValue(atoms[0])] + AtomValues(atoms[1..]);
      PushedTwice(m, mid, n, [AtomValue(atoms[0])], AtomValues(atoms[1..]), first.memo,
                  WriteAtoms(st, atoms[1..], first.memo).memo);
      Then(env, m, first.ops, mid, WriteAtoms(st, atoms[1..], first.memo).ops);
    }
  }

  lemma SetBuilt(st: Style, env: Env, atoms: seq<Atom>, w: Memo, m: Machine) returns (v: Value, n: Machine)
    requires AtomsWritable(atoms) && KeysApart(env, atoms) && MemoAgrees(m, w)
    ensures Leads(env, m, Write(st, SetDoc(atoms), w).ops, n)
    ensures Made(m, n, v, SetDoc(atoms), Write(st, SetDoc(atoms), w).memo)
  {
    hide RunOps, MemoAgrees, AtomsWritable, WriteAtoms, Leads, Pushed, KeysApart;
    var top := Created(st, env, m, EmptySet, Set([]), w);
    var body := WriteAtoms(st, atoms, Noted(w));
    v := Ref(|m.heap|);
    if atoms == [] {
      n := top;
      EmptyMade(st, m, top, SetDoc([]), w);
      assert [EmptySet, MemoOp(st, w)] + [] == [EmptySet, MemoOp(st, w)];
      assert body == Written([], Noted(w)) by { NoAtomsWritten(st, Noted(w)); }
    } else {
      MemoOf(m, top, [v], Noted(w));
      var start := MarkedOk(top, Noted(w));
      var mid := AtomsBuilt(st, env, atoms, Noted(w), start);
      n := SetFilled(env, m, top, mid, atoms, body.ops, Noted(w), body.memo);
      ThenLeads(env, m, [EmptySet, MemoOp(st, w)], top, [Mark] + body.ops + [AddItems], n);
    }
  }

  lemma NoAtomsWritten(st: Style, w: Memo)
    ensures WriteAtoms(st, [], w) == Written([], w)
  {}

  lemma SetFilled(env: Env, m: Machine, top: Machine, mid: Machine, atoms: seq<Atom>, ops: seq<Op>, u: Memo, w: Memo)
    returns (n: Machine)
    requires top.heap == m.heap + [Set([])] && Pushed(m, top, [Ref(|m.heap|)], u)
    requires atoms != [] && KeysApart(env, atoms)
    requires Leads(env, Marked(top), ops, mid) && Pushed(Marked(top), mid, AtomValues(atoms), w)
    ensures Leads(env, top, [Mark] + ops + [AddItems], n) && Made(m, n, Ref(|m.heap|), SetDoc(atoms), w)
  {
    hide RunOps, MemoAgrees, Leads, AtomValue, KeysApart, AtomValues;
    var vs := AtomValues(atoms);
    Finished(m, top, Marked(top), mid, vs, u, w, Set(vs));
    MembersAdded(env, mid.heap, atoms);
    n := Machine(top.stack, m.metastack, mid.memo, mid.heap[|m.heap| := Set(vs)]);
    assert [] + vs == vs;
    assert Filled(env, mid.heap, mid.heap[|m.heap|], AddItems, vs) == Some(Set(vs));
    FillMany(env, top, |m.heap|, AddItems, ops, mid, Set(vs));
    assert ShowsObject(n.heap, n.heap[|m.heap|], SetDoc(atoms), |m.heap|);
  }

  lemma MembersAdded(env: Env, heap: Heap, atoms: seq<Atom>)
    requires KeysApart(env, atoms)
    ensures AddMembers(env, heap, [], AtomValues(atoms)) == Some(AtomValues(atoms))
    ensures atoms != [] ==> AtomValues(atoms) != []
  {
    hide AtomValue, AddMembers;
    var vs := AtomValues(atoms);
    assert [] + vs == vs;
    forall i | 0 <= i < |vs| ensures env.hashable(heap, vs[i]) { assert vs[i] == AtomValue(atoms[i]); }
    forall i, j | 0 <= i < j < |vs| ensures !env.keyEq(heap, vs[i], vs[j]) {
      assert vs[i] == AtomValue(atoms[i]) && vs[j] == AtomValue(atoms[j]);
    }
    AddMembersApart(env, heap, [], vs);
  }

  lemma {:induction false} DictBuilt(st: Style, env: Env, ks: seq<Atom>, ds: seq<Doc>, w: Memo, m: Machine)
    returns (v: Value, n: Machine)
    requires |ks| == |ds| && KeysApart(env, ks) && AtomsWritable(ks) && AllWritable(env, ds) && MemoAgrees(m, w)
    ensures Leads(env, m, Write(st, DictDoc(ks, ds), w).ops, n)
    ensures Made(m, n, v, DictDoc(ks, ds), Write(st, DictDoc(ks, ds), w).memo)
    decreases Weight(DictDoc(ks, ds)), 0
  {
    hide RunOps, MemoAgrees, Writable, WritePairs, Shows, ShowsEntries, Leads, Pushed, KeysApart, AtomsWritable;
    if st.marked {
      var body := WritePairs(st, ks, ds, w);
      var es, mid := PairsBuilt(st, env, ks, ds, w, MarkedOk(m, w));
      ShownApart(env, mid.heap, es, ks, ds, |m.heap|);
      PutPairsApart(env, mid.heap, [], es);
      assert [] + es == es;
      v, n := Closed(st, env, m, MarkDict, body.ops, mid, Flat(es), Dict(es), body.memo);
      MarkedHeap(m);
      HeapGrows(Marked(m), mid, Flat(es), body.memo);
      DictShown(mid.heap, n.heap, es, ks, ds, |m.heap|, |mid.heap|);
    } else {
      var top := Created(st, env, m, EmptyDict, Dict([]), w);
      var body := WritePairs(st, ks, ds, Noted(w));
      v := Ref(|m.heap|);
      if ds == [] {
        n := top;
        EmptyMade(st, m, top, DictDoc([], []), w);
        assert [EmptyDict, MemoOp(st, w)] + [] == [EmptyDict, MemoOp(st, w)];
        NothingWritten(st, Noted(w));
      } else {
        var start := if |ds| == 1 then top else MarkedOk(top, Noted(w));
        MemoOf(m, top, [v], Noted(w));
        var es, mid := PairsBuilt(st, env, ks, ds, Noted(w), start);
        n := PairsFilled(env, m, top, start, mid, es, ks, ds, body.ops, Noted(w), body.memo, Dict([]));
        EntriesKept(n.heap, n.heap, es, ks, ds, |top.heap|, |m.heap|);
        DictMade(m, n, es, ks, ds, body.memo);
        ThenLeads(env, m, [EmptyDict, MemoOp(st, w)], top, Batch(|ds|, SetItem, SetItems, body.ops), n);
      }
    }
  }

  lemma DictShown(heap: Heap, other: Heap, es: Entries, ks: seq<Atom>, ds: seq<Doc>, low: nat, id: nat)
    requires ShowsEntries(heap, es, ks, ds, low) && other == heap + [Dict(es)] && id == |heap| && low <= id
    ensures Shows(other, Ref(id), DictDoc(ks, ds), low)
  {
    EntriesKept(heap, other, es, ks, ds, low, low);
  }

  lemma DictMade(m: Machine, n: Machine, es: Entries, ks: seq<Atom>, ds: seq<Doc>, w: Memo)
    requires Pushed(m, n, [Ref(|m.heap|)], w) && |m.heap| < |n.heap| && n.heap[|m.heap|] == Dict(es)
    requires ShowsEntries(n.heap, es, ks, ds, |m.heap|)
    ensures Made(m, n, Ref(|m.heap|), DictDoc(ks, ds), w)
  {}

  /** A mapping with these entries. */
  function WithEntries(o: Object, es: Entries): Object
    requires o.Dict? || o.OrderedDict?
  {
    if o.Dict? then Dict(es) else OrderedDict(es, o.metadata)
  }

  /** The mapping on top, filled with pairs. */
  lemma PairsFilled(env: Env, m: Machine, top: Machine, start: Machine, mid: Machine, es: Entries, ks: seq<Atom>,
                    ds: seq<Doc>, ops: seq<Op>, u: Memo, w: Memo, o: Object) returns (n: Machine)
    requires |m.heap| < |top.heap| && Pushed(m, top, [Ref(|top.heap| - 1)], u)
    requires top.heap[|top.heap| - 1] == o && (o == Dict([]) || o == OrderedDict([], None))
    requires ds != [] && KeysApart(env, ks) && start == (if |ds| == 1 then top else Marked(top))
    requires Leads(env, start, ops, mid) && Pushed(start, mid, Flat(es), w)
    requires ShowsEntries(mid.heap, es, ks, ds, |start.heap|)
    ensures Leads(env, top, Batch(|ds|, SetItem, SetItems, ops), n)
    ensures Pushed(m, n, [Ref(|top.heap| - 1)], w) && |top.heap| <= |n.heap|
    ensures n.heap[|top.heap| - 1] == WithEntries(o, es) && ShowsEntries(n.heap, es, ks, ds, |top.heap|)
  {
    hide RunOps, MemoAgrees, Leads, KeysApart, PutPairs, ShowsEntries, Flat;
    var id, filled := |top.heap| - 1, WithEntries(o, es);
    Finished(m, top, start, mid, Flat(es), u, w, filled);
    n := Machine(top.stack, m.metastack, mid.memo, mid.heap[id := filled]);
    PairsStored(env, mid.heap, es, ks, ds, |start.heap|);
    EntriesKept(mid.heap, n.heap, es, ks, ds, |top.heap|, |top.heap|);
    assert Filled(env, mid.heap, mid.heap[id], SetItems, Flat(es)) == Some(filled);
    FillBatch(env, top, id, |ds|, SetItem, SetItems, ops, mid, Flat(es), filled);
  }

  lemma PairsStored(env: Env, heap: Heap, es: Entries, ks: seq<Atom>, ds: seq<Doc>, low: nat)
    requires KeysApart(env, ks) && ShowsEntries(heap, es, ks, ds, low)
    ensures PutPairs(env, heap, [], Flat(es)) == Some(es) && |Flat(es)| == 2 * |ds|
  {
    hide KeysApart;
    ShownApart(env, heap, es, ks, ds, low);
    PutPairsApart(env, heap, [], es);
    assert [] + es == es;
    FlatLength(es);
  }

  // ---------------------------------------------------------------------------
  // Ordered dictionaries and namespaces
  // ---------------------------------------------------------------------------

  /** An import, the empty tuple of its arguments, and the call. */
  function Call0(st: Style, i: Import, w: Memo): seq<Op> {
    var name := WriteAtom(st, ImportAtom(i), w);
    name.ops + [EmptyTuple, if i.NamespaceImport? then NewObj else Reduce, MemoOp(st, name.memo)]
  }

  lemma Called(st: Style, env: Env, i: Import, o: Object, w: Memo, m: Machine) returns (n: Machine)
    requires MemoAgrees(m, w)
    requires (i.NamespaceImport? && o == Namespace([])) || (i.OrderedDictImport? && o == OrderedDict([], None))
    ensures Leads(env, m, Call0(st, i, w), n) && n.heap == m.heap + [Tuple([]), o] && OnTop(n, |m.heap| + 1)
    ensures Pushed(m, n, [Ref(|m.heap| + 1)], Noted(WriteAtom(st, ImportAtom(i), w).memo))
  {
    hide RunOps, Leads, WriteAtom, Step, MemoOp, MemoAgrees, Shows;
    var name := WriteAtom(st, ImportAtom(i), w);
    var named := AtomPushed(st, env, ImportAtom(i), w, m);
    MemoOf(m, named, [ImportValue(i)], name.memo);
    var v, argued := EmptyTupleBuilt(env, named, name.memo);
    ThenLeads(env, m, name.ops, named, [EmptyTuple], argued);
    var called := Machine(m.stack + [Ref(|m.heap| + 1)], m.metastack, named.memo, m.heap + [Tuple([])] + [o]);
    var op := if i.NamespaceImport? then NewObj else Reduce;
    CallStep(env, i, o, m, named, called);
    AndThenLeads(env, m, name.ops + [EmptyTuple], argued, op, called);
    SameMemo(named, called, name.memo);
    n := MemoStep(st, env, called, name.memo);
    AndThenLeads(env, m, name.ops + [EmptyTuple] + [op], called, MemoOp(st, name.memo), n);
    assert name.ops + [EmptyTuple] + [op] + [MemoOp(st, name.memo)] == Call0(st, i, w);
    assert m.heap + [Tuple([])] + [o] == m.heap + [Tuple([]), o];
    assert n.heap[..|m.heap|] == m.heap;
  }

  lemma CallStep(env: Env, i: Import, o: Object, m: Machine, named: Machine, called: Machine)
    requires (i.NamespaceImport? && o == Namespace([])) || (i.OrderedDictImport? && o == OrderedDict([], None))
    requires named.stack == m.stack + [ImportValue(i)] && named.metastack == m.metastack && named.heap == m.heap
    requires called == Machine(m.stack + [Ref(|m.heap| + 1)], m.metastack, named.memo, m.heap + [Tuple([])] + [o])
    ensures Step(env, Allocate(named, Tuple([])), if i.NamespaceImport? then NewObj else Reduce) == Next(called)
  {
    var argued := Allocate(named, Tuple([]));
    assert argued.stack[..|argued.stack| - 2] == m.stack;
  }

  lemma {:induction false} OrderedBuilt(st: Style, env: Env, ks: seq<Atom>, ds: seq<Doc>, meta: Option<Doc>, w: Memo,
                                        m: Machine) returns (v: Value, n: Machine)
    requires Writable(env, OrderedDoc(ks, ds, meta)) && MemoAgrees(m, w)
    ensures Leads(env, m, Write(st, OrderedDoc(ks, ds, meta), w).ops, n)
    ensures Made(m, n, v, OrderedDoc(ks, ds, meta), Write(st, OrderedDoc(ks, ds, meta), w).memo)
    decreases Weight(OrderedDoc(ks, ds, meta)), 0
  {
    hide RunOps, MemoAgrees, WritePairs, ShowsEntries, Leads, Pushed, KeysApart, AtomsWritable, WriteAtom, AllWritable,
         MemoOp;
    var name := WriteAtom(st, ImportAtom(OrderedDictImport), w);
    var body := WritePairs(st, ks, ds, Noted(name.memo));
    var top := Called(st, env, OrderedDictImport, OrderedDict([], None), w, m);
    var es: Entries, filled;
    v := Ref(|m.heap| + 1);
    MemoOf(m, top, [v], Noted(name.memo));
    if ds == [] {
      NothingWritten(st, Noted(name.memo));
      es, filled := [], top;
      NoEntries(top.heap, |top.heap|);
      One(env, top, Build);
      assert Leads(env, top, [], top) by { Nowhere(env, top); }
    } else {
      var start := if |ds| == 1 then top else MarkedOk(top, Noted(name.memo));
      var mid;
      es, mid := PairsBuilt(st, env, ks, ds, Noted(name.memo), start);
      filled := PairsFilled(env, m, top, start, mid, es, ks, ds, body.ops, Noted(name.memo), body.memo,
                            OrderedDict([], None));
    }
    var ops := Call0(st, OrderedDictImport, w) + Batch(|ds|, SetItem, SetItems, body.ops);
    ThenLeads(env, m, Call0(st, OrderedDictImport, w), top, Batch(|ds|, SetItem, SetItems, body.ops), filled);
    if meta.None? {
      n := filled;
      EntriesKept(n.heap, n.heap, es, ks, ds, |top.heap|, |m.heap|);
      OrderedMade(m, n, v, es, ks, ds, body.memo);
    } else {
      MemoOf(m, filled, [v], body.memo);
      WeightOne(meta.value);
      var d := DictDoc([TextAtom("_metadata")], [meta.value]);
      MetadataWritable(env, ks, ds, meta);
      var state, stated := DocBuilt(st, env, d, body.memo, filled);
      n := MetadataBuilt(env, m, filled, stated, v, state, es, ks, ds, meta.value, body.memo,
                         Write(st, d, body.memo).memo);
      ThenLeads(env, m, ops, filled, Write(st, d, body.memo).ops, stated);
      AndThenLeads(env, m, ops + Write(st, d, body.memo).ops, stated, Build, n);
    }
  }

  lemma Nowhere(env: Env, m: Machine)
    ensures Leads(env, m, [], m)
  {}

  lemma NoEntries(heap: Heap, low: nat)
    ensures ShowsEntries(heap, [], [], [], low)
  {}

  lemma MetadataWritable(env: Env, ks: seq<Atom>, ds: seq<Doc>, meta: Option<Doc>)
    requires Writable(env, OrderedDoc(ks, ds, meta)) && meta.Some?
    ensures Writable(env, DictDoc([TextAtom("_metadata")], [meta.value])) && MetadataDoc(meta.value)
  {
    hide KeysApart;
  }

  lemma OrderedMade(m: Machine, n: Machine, v: Value, es: Entries, ks: seq<Atom>, ds: seq<Doc>, w: Memo)
    requires Pushed(m, n, [v], w) && v.Ref? && |m.heap| <= v.id < |n.heap| && n.heap[v.id] == OrderedDict(es, None)
    requires ShowsEntries(n.heap, es, ks, ds, |m.heap|)
    ensures Made(m, n, v, OrderedDoc(ks, ds, None), w)
  {
    hide MemoAgrees;
    assert ShowsObject(n.heap, n.heap[v.id], OrderedDoc(ks, ds, None), |m.heap|);
  }

  /** BUILD gives an ordered dictionary its metadata. */
  lemma MetadataBuilt(env: Env, m: Machine, filled: Machine, stated: Machine, v: Value, state: Value, es: Entries,
                      ks: seq<Atom>, ds: seq<Doc>, meta: Doc, u: Memo, w: Memo) returns (n: Machine)
    requires v.Ref? && |m.heap| <= v.id < |filled.heap| && Pushed(m, filled, [v], u)
    requires filled.heap[v.id] == OrderedDict(es, None) && ShowsEntries(filled.heap, es, ks, ds, v.id + 1)
    requires Made(filled, stated, state, DictDoc([TextAtom("_metadata")], [meta]), w) && MetadataDoc(meta)
    ensures Step(env, stated, Build) == Next(n) && Made(m, n, v, OrderedDoc(ks, ds, Some(meta)), w)
  {
    hide MemoAgrees, Step, Shows, ShowsEntries, MetadataDoc, MetadataMapping;
    var value := StateEntry(stated.heap, state, meta, |filled.heap|);
    var o := OrderedDict(es, Some(value));
    n := Rebuilt(m, filled, stated, v, state, u, w, o);
    BuildStep(env, m, filled, stated, v, state, value, es, meta, n);
    EntriesKept(filled.heap, n.heap, es, ks, ds, v.id + 1, |m.heap|);
    KeptAbove(stated.heap, n.heap, v.id + 1, |filled.heap|);
    ShowsKept(stated.heap, n.heap, value, meta, |filled.heap|, |m.heap|);
    WithMetadataMade(m, n, v, value, es, ks, ds, meta, w);
  }

  lemma WithMetadataMade(m: Machine, n: Machine, v: Value, value: Value, es: Entries, ks: seq<Atom>, ds: seq<Doc>,
                         meta: Doc, w: Memo)
    requires Pushed(m, n, [v], w) && v.Ref? && |m.heap| <= v.id < |n.heap|
    requires n.heap[v.id] == OrderedDict(es, Some(value))
    requires ShowsEntries(n.heap, es, ks, ds, |m.heap|) && Shows(n.heap, value, meta, |m.heap|)
    ensures Made(m, n, v, OrderedDoc(ks, ds, Some(meta)), w)
  {
    hide MemoAgrees, ShowsEntries;
    assert ShowsObject(n.heap, n.heap[v.id], OrderedDoc(ks, ds, Some(meta)), |m.heap|);
  }

  lemma ObjectShown(heap: Heap, v: Value, d: Doc, low: nat)
    requires Shows(heap, v, d, low) && !d.AtomDoc? && !d.StorageDoc? && !d.TensorDoc?
    ensures v.Ref? && low <= v.id < |heap| && ShowsObject(heap, heap[v.id], d, low)
  {}

  lemma DictEntries(heap: Heap, v: Value, ks: seq<Atom>, ds: seq<Doc>, low: nat)
    requires Shows(heap, v, DictDoc(ks, ds), low)
    ensures v.Ref? && low <= v.id < |heap| && heap[v.id].Dict? && ShowsEntries(heap, heap[v.id].entries, ks, ds, low)
  {
    ObjectShown(heap, v, DictDoc(ks, ds), low);
  }

  lemma StateEntry(heap: Heap, state: Value, meta: Doc, low: nat) returns (value: Value)
    requires Shows(heap, state, DictDoc([TextAtom("_metadata")], [meta]), low) && MetadataDoc(meta)
    ensures state.Ref? && low <= state.id < |heap| && heap[state.id] == Dict([(Str("_metadata"), value)])
    ensures Shows(heap, value, meta, low) && MetadataMapping(heap, value)
  {
    DictEntries(heap, state, [TextAtom("_metadata")], [meta], low);
    var es := heap[state.id].entries;
    value := es[0].1;
    assert es[0].0 == AtomValue([TextAtom("_metadata")][0]) && Shows(heap, value, [meta][0], low);
    assert es == [(Str("_metadata"), value)];
    ObjectShown(heap, value, meta, low);
  }

  /** What BUILD leaves: the state dropped, the object in its final form. */
  lemma Rebuilt(m: Machine, filled: Machine, stated: Machine, v: Value, state: Value, u: Memo, w: Memo, o: Object)
    returns (n: Machine)
    requires v.Ref? && |m.heap| <= v.id < |filled.heap| && Pushed(m, filled, [v], u)
    requires Pushed(filled, stated, [state], w)
    ensures v.id < |stated.heap| && stated.heap[v.id] == filled.heap[v.id]
    ensures n == Machine(filled.stack, m.metastack, stated.memo, stated.heap[v.id := o])
    ensures Pushed(m, n, [v], w) && Kept(filled.heap, n.heap, v.id + 1) && Kept(stated.heap, n.heap, v.id + 1)
  {
    PushedKeeps(m, filled, [v], u);
    PushedKeeps(filled, stated, [state], w);
    assert Kept(m.heap, filled.heap, 0) && Kept(filled.heap, stated.heap, 0);
    n := Machine(filled.stack, m.metastack, stated.memo, stated.heap[v.id := o]);
    assert n.heap[..|m.heap|] == m.heap;
  }

  lemma BuildStep(env: Env, m: Machine, filled: Machine, stated: Machine, v: Value, state: Value, value: Value,
                  es: Entries, meta: Doc, n: Machine)
    requires v.Ref? && v.id < |filled.heap| <= |stated.heap| && stated.heap[v.id] == OrderedDict(es, None)
    requires stated.stack == filled.stack + [state] && filled.stack == m.stack + [v] && stated.metastack == m.metastack
    requires state.Ref? && state.id < |stated.heap| && stated.heap[state.id] == Dict([(Str("_metadata"), value)])
    requires MetadataMapping(stated.heap, value)
    requires n == Machine(filled.stack, m.metastack, stated.memo, stated.heap[v.id := OrderedDict(es, Some(value))])
    ensures Step(env, stated, Build) == Next(n)
  {
    hide MetadataMapping;
    assert stated.stack[..|stated.stack| - 1] == filled.stack;
  }

  lemma {:induction false} NamespaceBuilt(st: Style, env: Env, ks: seq<Atom>, ds: seq<Doc>, w: Memo, m: Machine)
    returns (v: Value, n: Machine)
    requires Writable(env, NamespaceDoc(ks, ds)) && MemoAgrees(m, w)
    ensures Leads(env, m, Write(st, NamespaceDoc(ks, ds), w).ops, n)
    ensures Made(m, n, v, NamespaceDoc(ks, ds), Write(st, NamespaceDoc(ks, ds), w).memo)
    decreases Weight(NamespaceDoc(ks, ds)), 0
  {
    hide RunOps, MemoAgrees, Leads, Pushed, KeysApart, AtomsWritable, WriteAtom, AllWritable, MemoOp, Shows;
    var name := WriteAtom(st, ImportAtom(NamespaceImport), w);
    var top := Called(st, env, NamespaceImport, Namespace([]), w, m);
    v := Ref(|m.heap| + 1);
    MemoOf(m, top, [v], Noted(name.memo));
    var d := DictDoc(ks, ds);
    var state, stated := DocBuilt(st, env, d, Noted(name.memo), top);
    n := FieldsBuilt(env, m, top, stated, v, state, ks, ds, Noted(name.memo), Write(st, d, Noted(name.memo)).memo);
    ThenLeads(env, m, Call0(st, NamespaceImport, w), top, Write(st, d, Noted(name.memo)).ops, stated);
    AndThenLeads(env, m, Call0(st, NamespaceImport, w) + Write(st, d, Noted(name.memo)).ops, stated, Build, n);
  }

  /** BUILD gives a namespace its attributes. */
  lemma FieldsBuilt(env: Env, m: Machine, top: Machine, stated: Machine, v: Value, state: Value, ks: seq<Atom>,
                    ds: seq<Doc>, u: Memo, w: Memo) returns (n: Machine)
    requires v.Ref? && |m.heap| <= v.id < |top.heap| && Pushed(m, top, [v], u) && top.heap[v.id] == Namespace([])
    requires Made(top, stated, state, DictDoc(ks, ds), w) && KeysApart(env, ks)
    ensures Step(env, stated, Build) == Next(n) && Made(m, n, v, NamespaceDoc(ks, ds), w)
  {
    hide MemoAgrees, KeysApart, Step, Shows, ShowsEntries, PutAll, Kept;
    DictEntries(stated.heap, state, ks, ds, |top.heap|);
    var es := stated.heap[state.id].entries;
    ShownApart(env, stated.heap, es, ks, ds, |top.heap|);
    PutAllApart(env, stated.heap, [], es);
    assert [] + es == es;
    n := Rebuilt(m, top, stated, v, state, u, w, Namespace(es));
    FieldsStep(env, m, top, stated, v, state, es, n);
    KeptAbove(stated.heap, n.heap, v.id + 1, |top.heap|);
    EntriesKept(stated.heap, n.heap, es, ks, ds, |top.heap|, |m.heap|);
    FieldsMade(m, n, v, es, ks, ds, w);
  }

  lemma KeptAbove(heap: Heap, other: Heap, low: nat, high: nat)
    requires Kept(heap, other, low) && low <= high
    ensures Kept(heap, other, high)
  {}

  lemma FieldsMade(m: Machine, n: Machine, v: Value, es: Entries, ks: seq<Atom>, ds: seq<Doc>, w: Memo)
    requires Pushed(m, n, [v], w) && v.Ref? && |m.heap| <= v.id < |n.heap| && n.heap[v.id] == Namespace(es)
    requires ShowsEntries(n.heap, es, ks, ds, |m.heap|)
    ensures Made(m, n, v, NamespaceDoc(ks, ds), w)
  {
    hide MemoAgrees, ShowsEntries;
    assert ShowsObject(n.heap, n.heap[v.id], NamespaceDoc(ks, ds), |m.heap|);
  }

  lemma FieldsStep(env: Env, m: Machine, top: Machine, stated: Machine, v: Value, state: Value, es: Entries, n: Machine)
    requires v.Ref? && v.id < |stated.heap| && stated.heap[v.id] == Namespace([])
    requires stated.stack == top.stack + [state] && top.stack == m.stack + [v] && stated.metastack == m.metastack
    requires state.Ref? && state.id < |stated.heap| && stated.heap[state.id] == Dict(es)
    requires PutAll(env, stated.heap, [], es) == es
    requires n == Machine(top.stack, m.metastack, stated.memo, stated.heap[v.id := Namespace(es)])
    ensures Step(env, stated, Build) == Next(n)
  {
    hide PutAll;
    assert stated.stack[..|stated.stack| - 1] == top.stack;
  }

  // ---------------------------------------------------------------------------
  // Storages and tensors
  // ---------------------------------------------------------------------------

  lemma {:induction false} StorageBuilt(st: Style, env: Env, r: StorageRef, w: Memo, m: Machine)
    returns (v: Value, n: Machine)
    requires ValidStorage(r) && MemoAgrees(m, w)
    ensures Leads(env, m, Write(st, StorageDoc(r), w).ops, n)
    ensures Made(m, n, v, StorageDoc(r), Write(st, StorageDoc(r), w).memo)
    decreases Weight(StorageDoc(r)), 0
  {
    hide RunOps, MemoAgrees, Leads, ItemBytes, ValidStorage, BoundedText, StorageId;
    StorageIdWeight(r);
    StorageIdWritable(env, r);
    var pid, id := DocBuilt(st, env, StorageId(r), w, m);
    v := Storage(r);
    n := id.(stack := m.stack + [v]);
    PersidStep(env, m, pid, id, r, Write(st, StorageId(r), w).memo);
    AndThenLeads(env, m, Write(st, StorageId(r), w).ops, id, BinPersid, n);
  }

  lemma StorageIdWritable(env: Env, r: StorageRef)
    requires ValidStorage(r)
    ensures Writable(env, StorageId(r))
  {
    hide BoundedText;
    var ds := StorageId(r).items;
    forall i | 0 <= i < |ds| ensures Writable(env, ds[i]) {
      assert i == 0 || i == 1 || i == 2 || i == 3 || i == 4;
    }
  }

  lemma PersidStep(env: Env, m: Machine, pid: Value, id: Machine, r: StorageRef, w: Memo)
    requires ValidStorage(r) && Made(m, id, pid, StorageId(r), w)
    ensures Step(env, id, BinPersid) == Next(id.(stack := m.stack + [Storage(r)]))
    ensures MemoAgrees(id.(stack := m.stack + [Storage(r)]), w)
  {
    hide MemoAgrees, PersistentLoad, ValidStorage, Shows, StorageId;
    assert id.stack[..|id.stack| - 1] == m.stack;
    PersidLoads(id.heap, pid, r, |m.heap|);
    SameMemo(id, id.(stack := m.stack + [Storage(r)]), w);
  }

  lemma PersidLoads(heap: Heap, pid: Value, r: StorageRef, low: nat)
    requires ValidStorage(r) && Shows(heap, pid, StorageId(r), low)
    ensures PersistentLoad(heap, pid) == Some(Storage(r))
  {
    hide ItemBytes, BoundedText;
    ObjectShown(heap, pid, StorageId(r), low);
    var t, ds := heap[pid.id].items, StorageId(r).items;
    assert forall i | 0 <= i < 5 :: Shows(heap, t[i], ds[i], low);
    assert t[0] == AtomValue(ds[0].atom) && t[1] == AtomValue(ds[1].atom) && t[2] == AtomValue(ds[2].atom);
    assert t[3] == AtomValue(ds[3].atom) && t[4] == AtomValue(ds[4].atom);
  }

  lemma SameMemo(m: Machine, n: Machine, w: Memo)
    requires MemoAgrees(m, w) && n.memo == m.memo
    ensures MemoAgrees(n, w)
  {}

  lemma {:induction false} TensorBuilt(st: Style, env: Env, t: TensorRef, g: bool, w: Memo, m: Machine)
    returns (v: Value, n: Machine)
    requires ValidTensor(t) && MemoAgrees(m, w)
    ensures Leads(env, m, Write(st, TensorDoc(t, g), w).ops, n)
    ensures Made(m, n, v, TensorDoc(t, g), Write(st, TensorDoc(t, g), w).memo)
    decreases Weight(TensorDoc(t, g)), 0
  {
    hide RunOps, MemoAgrees, Leads, ValidTensor, TensorArgs, WriteAtom, MemoOp;
    ArgsWeight(t, g);
    ArgsWritable(env, t, g);
    v := Tensor(t);
    var reducer := WriteAtom(st, ImportAtom(ReducerImport), w);
    var named := AtomPushed(st, env, ImportAtom(ReducerImport), w, m);
    MemoOf(m, named, [TensorReducer], reducer.memo);
    var args, argued := DocBuilt(st, env, TensorArgs(t, g), reducer.memo, named);
    var memo := Write(st, TensorArgs(t, g), reducer.memo).memo;
    var reduced := argued.(stack := m.stack + [v]);
    ReduceStep(env, m, named, argued, args, t, g, memo);
    SameMemo(argued, reduced, memo);
    n := MemoStep(st, env, reduced, memo);
    ThenLeads(env, m, reducer.ops, named, Write(st, TensorArgs(t, g), reducer.memo).ops, argued);
    var ops := reducer.ops + Write(st, TensorArgs(t, g), reducer.memo).ops;
    AndThenLeads(env, m, ops, argued, Reduce, reduced);
    AndThenLeads(env, m, ops + [Reduce], reduced, MemoOp(st, memo), n);
    assert ops + [Reduce] + [MemoOp(st, memo)] == ops + [Reduce, MemoOp(st, memo)];
  }

  lemma {:induction false} IntDocsWritable(env: Env, ns: seq<int>)
    ensures AllWritable(env, IntDocs(ns))
  {
    if ns == [] {
    } else {
      IntDocsWritable(env, ns[1..]);
      var ds := IntDocs(ns);
      forall i | 0 <= i < |ds| ensures Writable(env, ds[i]) {
        if i > 0 { assert ds[i] == IntDocs(ns[1..])[i - 1]; }
      }
    }
  }

  lemma ArgsWritable(env: Env, t: TensorRef, g: bool)
    requires ValidTensor(t)
    ensures Writable(env, TensorArgs(t, g))
  {
    hide BoundedText, InsideStorage, WithinBounds;
    IntDocsWritable(env, t.shape);
    IntDocsWritable(env, t.stride);
    var ds := TensorArgs(t, g).items;
    forall i | 0 <= i < |ds| ensures Writable(env, ds[i]) {
      assert i == 0 || i == 1 || i == 2 || i == 3 || i == 4 || i == 5;
    }
  }

  lemma {:induction false} IntsShown(heap: Heap, vs: seq<Value>, ns: seq<int>, low: nat)
    requires ShowsAll(heap, vs, IntDocs(ns), low) && forall i | 0 <= i < |ns| :: StrictInt(ns[i])
    ensures Ints(vs) == Some(ns)
  {
    if ns == [] {
    } else {
      IntDocsWeight(ns);
      IntDocsWeight(ns[1..]);
      assert Shows(heap, vs[0], IntDocs(ns)[0], low);
      forall i | 0 <= i < |ns| - 1 ensures Shows(heap, vs[1..][i], IntDocs(ns[1..])[i], low) {
        assert IntDocs(ns)[i + 1] == IntDocs(ns[1..])[i];
        assert Shows(heap, vs[i + 1], IntDocs(ns)[i + 1], low);
      }
      IntsShown(heap, vs[1..], ns[1..], low);
      assert [ns[0]] + ns[1..] == ns;
    }
  }

  /** A tuple of integers on the heap. */
  lemma IntTuple(heap: Heap, v: Value, ns: seq<int>, low: nat)
    requires Shows(heap, v, TupleDoc(IntDocs(ns)), low) && forall i | 0 <= i < |ns| :: StrictInt(ns[i])
    ensures TupleItems(heap, v).Some? && Ints(TupleItems(heap, v).value) == Some(ns)
  {
    assert ShowsObject(heap, heap[v.id], TupleDoc(IntDocs(ns)), low);
    IntsShown(heap, heap[v.id].items, ns, low);
  }

  lemma ReducedArgs(heap: Heap, args: seq<Value>, t: TensorRef, g: bool, low: nat)
    requires ValidTensor(t) && ShowsAll(heap, args, TensorArgs(t, g).items, low)
    ensures RebuildFromArgs(heap, args) == Some(Tensor(t))
  {
    hide Rebuild, InsideStorage, BoundedText, ItemBytes, Ints;
    var ds := TensorArgs(t, g).items;
    assert Shows(heap, args[0], ds[0], low) && Shows(heap, args[1], ds[1], low) && Shows(heap, args[2], ds[2], low);
    assert Shows(heap, args[3], ds[3], low) && Shows(heap, args[4], ds[4], low) && Shows(heap, args[5], ds[5], low);
    IntTuple(heap, args[2], t.shape, low);
    IntTuple(heap, args[3], t.stride, low);
    assert ShowsObject(heap, heap[args[5].id], OrderedDoc([], [], None), low);
    ViewExact(StorageOf(t), t.storageOffset, t.shape, t.stride);
    RebuiltRecord(t);
  }

  lemma RebuiltRecord(t: TensorRef)
    requires ValidTensor(t) && Rebuild(StorageOf(t), t.storageOffset, t.shape, t.stride).Some?
    ensures Rebuild(StorageOf(t), t.storageOffset, t.shape, t.stride) == Some(t)
  {
    hide InsideStorage, BoundedText, Span;
  }

  lemma ReduceStep(env: Env, m: Machine, named: Machine, argued: Machine, args: Value, t: TensorRef, g: bool, w: Memo)
    requires ValidTensor(t) && named.stack == m.stack + [TensorReducer]
    requires Made(named, argued, args, TensorArgs(t, g), w)
    ensures Step(env, argued, Reduce) == Next(argued.(stack := m.stack + [Tensor(t)]))
  {
    hide ValidTensor, MemoAgrees, RebuildFromArgs;
    assert ShowsObject(argued.heap, argued.heap[args.id], TensorArgs(t, g), |named.heap|);
    ReducedArgs(argued.heap, argued.heap[args.id].items, t, g, |named.heap|);
    assert argued.stack[..|argued.stack| - 2] == m.stack;
  }

  // ---------------------------------------------------------------------------
  // Main result
  // ---------------------------------------------------------------------------

  /**
   The round trip.  Whatever style it is written in, a pickle of a tree runs to its STOP, and the root it leaves
   is that tree.
   */
  lemma PickleRoundTrip(st: Style, env: Env, version: nat, d: Doc, items: seq<Item>)
    requires Writable(env, d) && version <= 5
    requires |items| == |Pickle(st, version, d)|
    requires forall i | 0 <= i < |items| :: items[i].op == Pickle(st, version, d)[i]
    ensures var r := Run(env, items, |items|); r.Stopped? && Shows(r.m.heap, r.root, d, 0)
  {
    hide RunOps, Write, Writable, MemoAgrees, Leads;
    var ops := Pickle(st, version, d);
    assert MemoAgrees(START, NO_MEMO) by { NoMemo(); }
    var v, n := DocBuilt(st, env, d, NO_MEMO, START);
    One(env, START, Proto(version));
    ProtoLeads(env, version);
    ThenLeads(env, START, [Proto(version)], START, Write(st, d, NO_MEMO).ops, n);
    AndThenStops(env, [Proto(version)] + Write(st, d, NO_MEMO).ops, n, v);
    RunIsRunOps(env, items, ops, |ops|);
    assert ops[..|ops|] == ops;
  }

  lemma NoMemo()
    ensures MemoAgrees(START, NO_MEMO)
  {}

  lemma ProtoLeads(env: Env, version: nat)
    requires version <= 5
    ensures Leads(env, START, [Proto(version)], START)
  {
    hide RunOps;
    One(env, START, Proto(version));
  }

  lemma AndThenStops(env: Env, ops: seq<Op>, n: Machine, v: Value)
    requires Leads(env, START, ops, n) && n.stack == START.stack + [v]
    ensures var r := RunOps(env, START, ops + [Stop]); r.Stopped? && r.root == v && r.m.heap == n.heap
  {
    hide RunOps;
    AndThen(env, START, ops, n, Stop);
  }
}
