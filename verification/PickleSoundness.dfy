/**
 What the preflight guarantees about every run of the restricted pickle machine: bounded
 marks, a bounded memo, and values that never leave the closed inert universe.
 */
module PickleSoundness {
  import opened Wrappers
  import opened TensorView
  import opened PickleValues
  import opened Preflight
  import opened PickleMachine

  // ---------------------------------------------------------------------------
  // Containers keep the universe closed
  // ---------------------------------------------------------------------------

  lemma {:induction false} PutEntryInert(env: Env, heap: Heap, es: Entries, k: Value, v: Value, n: nat)
    requires EntriesInert(es, n) && Inert(k, n) && Inert(v, n)
    ensures EntriesInert(PutEntry(env, heap, es, k, v), n)
  {
    if es == [] {
    } else {
      PutEntryInert(env, heap, es[1..], k, v, n);
    }
  }

  lemma {:induction false} PutPairsInert(env: Env, heap: Heap, es: Entries, flat: seq<Value>, n: nat)
    requires EntriesInert(es, n) && AllInert(flat, n)
    ensures var r := PutPairs(env, heap, es, flat); r.Some? ==> EntriesInert(r.value, n)
    decreases |flat|
  {
    if |flat| < 2 {
    } else {
      PutEntryInert(env, heap, es, flat[0], flat[1], n);
      PutPairsInert(env, heap, PutEntry(env, heap, es, flat[0], flat[1]), flat[2..], n);
    }
  }

  lemma {:induction false} PutAllInert(env: Env, heap: Heap, es: Entries, more: Entries, n: nat)
    requires EntriesInert(es, n) && EntriesInert(more, n)
    ensures EntriesInert(PutAll(env, heap, es, more), n)
    decreases |more|
  {
    if more == [] {
    } else {
      PutEntryInert(env, heap, es, more[0].0, more[0].1, n);
      PutAllInert(env, heap, PutEntry(env, heap, es, more[0].0, more[0].1), more[1..], n);
    }
  }

  lemma {:induction false} AddMembersInert(env: Env, heap: Heap, vs: seq<Value>, more: seq<Value>, n: nat)
    requires AllInert(vs, n) && AllInert(more, n)
    ensures var r := AddMembers(env, heap, vs, more); r.Some? ==> AllInert(r.value, n)
    decreases |more|
  {
    if more == [] {
    } else {
      AddMembersInert(env, heap, vs, more[1..], n);
      AddMembersInert(env, heap, vs + [more[0]], more[1..], n);
    }
  }

  lemma {:induction false} PutIndexedInert(vs: seq<Value>, flat: seq<Value>, n: nat)
    requires AllInert(vs, n) && AllInert(flat, n)
    ensures var r := PutIndexed(vs, flat); r.Some? ==> AllInert(r.value, n)
    decreases |flat|
  {
    if |flat| < 2 {
    } else {
      var i := if flat[0].Int? then flat[0].n else if flat[0].Bool? then (if flat[0].b then 1 else 0) else |vs|;
      var at := if i < 0 then i + |vs| else i;
      if 0 <= at < |vs| {
        PutIndexedInert(vs[at := flat[1]], flat[2..], n);
      }
    }
  }

  lemma IterateInert(heap: Heap, v: Value)
    requires HeapInert(heap) && Inert(v, |heap|)
    ensures var r := Iterate(heap, v); r.Some? ==> AllInert(r.value, |heap|)
  {
    if v.Ref? {
      assert ObjectInert(heap[v.id], |heap|);
    }
  }

  lemma {:induction false} FlattenInert(heap: Heap, pairs: seq<Value>)
    requires HeapInert(heap) && AllInert(pairs, |heap|)
    ensures var r := Flatten(heap, pairs); r.Some? ==> AllInert(r.value, |heap|)
  {
    if pairs == [] {
    } else {
      IterateInert(heap, pairs[0]);
      FlattenInert(heap, pairs[1..]);
    }
  }

  lemma OrderedFromArgsInert(env: Env, heap: Heap, args: seq<Value>)
    requires HeapInert(heap) && AllInert(args, |heap|)
    ensures var r := OrderedFromArgs(env, heap, args); r.Some? ==> EntriesInert(r.value, |heap|)
  {
    if |args| == 1 {
      var arg := args[0];
      if arg.Ref? && (heap[arg.id].Dict? || heap[arg.id].OrderedDict?) {
        assert ObjectInert(heap[arg.id], |heap|);
        PutAllInert(env, heap, [], heap[arg.id].entries, |heap|);
      } else {
        IterateInert(heap, arg);
        if Iterate(heap, arg).Some? {
          FlattenInert(heap, Iterate(heap, arg).value);
          if Flatten(heap, Iterate(heap, arg).value).Some? {
            PutPairsInert(env, heap, [], Flatten(heap, Iterate(heap, arg).value).value, |heap|);
          }
        }
      }
    }
  }

  lemma TupleItemsInert(heap: Heap, v: Value)
    requires HeapInert(heap)
    ensures var r := TupleItems(heap, v); r.Some? ==> AllInert(r.value, |heap|)
  {
    if TupleItems(heap, v).Some? {
      assert ObjectInert(heap[v.id], |heap|);
    }
  }

  // ---------------------------------------------------------------------------
  // One step
  // ---------------------------------------------------------------------------

  ghost predicate StacksInert(stack: seq<Value>, metastack: seq<seq<Value>>, n: nat) {
    && AllInert(stack, n)
    && forall i | 0 <= i < |metastack| :: AllInert(metastack[i], n)
  }

  /** Everything the machine can reach lies in the closed universe. */
  ghost predicate Closed(m: Machine) {
    && HeapInert(m.heap)
    && StacksInert(m.stack, m.metastack, |m.heap|)
    && forall k | k in m.memo :: Inert(m.memo[k], |m.heap|)
  }

  ghost predicate OutcomeClosed(o: Outcome) {
    match o
    case Next(m) => Closed(m)
    case Stopped(root, m) => Closed(m) && Inert(root, |m.heap|)
    case Failed => true
  }

  lemma AllocateClosed(m: Machine, o: Object)
    requires Closed(m) && ObjectInert(o, |m.heap|)
    ensures Closed(Allocate(m, o))
  {
    var h := m.heap + [o];
    forall i | 0 <= i < |h| ensures ObjectInert(h[i], |h|) {
      InertGrows(if i < |m.heap| then m.heap[i] else o, |m.heap|, |h|);
    }
  }

  lemma CloseMarkClosed(m: Machine)
    requires Closed(m)
    ensures var r := CloseMark(m);
            r.Some? ==> AllInert(r.value.0, |m.heap|) && Closed(r.value.1) && r.value.1.heap == m.heap
  {}

  lemma StoreClosed(m: Machine, id: nat, o: Object)
    requires Closed(m) && id < |m.heap| && ObjectInert(o, |m.heap|)
    ensures Closed(m.(heap := m.heap[id := o]))
  {}

  lemma FilledInert(env: Env, heap: Heap, o: Object, op: Op, items: seq<Value>, n: nat)
    requires ObjectInert(o, n) && AllInert(items, n)
    ensures var r := Filled(env, heap, o, op, items); r.Some? ==> ObjectInert(r.value, n)
  {
    hide Inert;
    match o
    case Dict(es) => PutPairsInert(env, heap, es, items, n);
    case OrderedDict(es, _) => PutPairsInert(env, heap, es, items, n);
    case List(vs) => PutIndexedInert(vs, items, n);
    case Set(vs) => AddMembersInert(env, heap, vs, items, n);
    case _ =>
  }

  lemma FillClosed(env: Env, m: Machine, op: Op, items: seq<Value>)
    requires Closed(m) && AllInert(items, |m.heap|)
    ensures OutcomeClosed(Fill(env, m, op, items))
  {
    hide Filled, ObjectInert, FilledByAttribute;
    if m.stack != [] {
      var target := m.stack[|m.stack| - 1];
      if target.Ref? && target.id < |m.heap| {
        var r := Filled(env, m.heap, m.heap[target.id], op, items);
        FilledInert(env, m.heap, m.heap[target.id], op, items, |m.heap|);
        if r.Some? { StoreClosed(m, target.id, r.value); }
      }
    }
  }

  lemma CallClosed(env: Env, m: Machine, func: Value, args: seq<Value>)
    requires Closed(m) && AllInert(args, |m.heap|) && Inert(func, |m.heap|)
    ensures OutcomeClosed(Call(env, m, func, args))
  {
    match func
    case NamespaceClass => AllocateClosed(m, Namespace([]));
    case OrderedDictClass =>
      OrderedFromArgsInert(env, m.heap, args);
      if OrderedFromArgs(env, m.heap, args).Some? {
        AllocateClosed(m, OrderedDict(OrderedFromArgs(env, m.heap, args).value, None));
      }
    case TensorReducer =>
      if RebuildFromArgs(m.heap, args).Some? {
        assert Inert(args[0], |m.heap|);
        var shape := Ints(TupleItems(m.heap, args[2]).value).value;
        var stride := Ints(TupleItems(m.heap, args[3]).value).value;
        RebuildIsValid(args[0].storage, args[1].n, shape, stride);
      }
    case _ =>
  }

  lemma BuildClosed(env: Env, m: Machine)
    requires Closed(m)
    ensures OutcomeClosed(StepBuild(env, m))
  {
    hide Returns, Lookup;
    var n := |m.stack|;
    if n >= 2 && m.stack[n - 2].Ref? {
      DropClosed(m, 1);
      var state, id := m.stack[n - 1], m.stack[n - 2].id;
      assert Inert(m.stack[n - 2], |m.heap|);
      assert ObjectInert(m.heap[id], |m.heap|);
      if state.Ref? {
        assert ObjectInert(m.heap[state.id], |m.heap|);
        if m.heap[state.id].Dict? && m.heap[id].Namespace? {
          PutAllInert(env, m.heap, m.heap[id].entries, m.heap[state.id].entries, |m.heap|);
        }
      }
    }
  }

  lemma MarkedClosed(env: Env, m: Machine, op: Op)
    requires Closed(m) && MarkEffect(op) == -1
    ensures OutcomeClosed(StepMarked(env, m, op))
  {
    hide Fill, PutPairs, Inert, HeapInert, StacksInert, Closed, CloseMark, Allocate;
    CloseMarkClosed(m);
    match CloseMark(m)
    case None =>
    case Some((items, below)) =>
      match op
      case PopMark =>
      case MarkTuple => AllocateClosed(below, Tuple(items));
      case MarkList => AllocateClosed(below, List(items));
      case MarkDict =>
        PutPairsInert(env, m.heap, [], items, |m.heap|);
        if PutPairs(env, m.heap, [], items).Some? {
          AllocateClosed(below, Dict(PutPairs(env, m.heap, [], items).value));
        }
      case _ => FillClosed(env, below, op, items);
  }

  lemma PersistentLoadInert(heap: Heap, pid: Value)
    requires HeapInert(heap)
    ensures var r := PersistentLoad(heap, pid); r.Some? ==> Inert(r.value, |heap|)
  {}

  lemma DropClosed(m: Machine, n: nat)
    requires Closed(m) && n <= |m.stack|
    ensures Closed(Drop(m, n)) && AllInert(m.stack[|m.stack| - n..], |m.heap|)
  {
    hide Inert, HeapInert;
  }

  lemma ReduceClosed(env: Env, m: Machine)
    requires Closed(m)
    ensures OutcomeClosed(StepReduce(env, m))
  {
    hide Call, Inert, HeapInert;
    var n := |m.stack|;
    if n >= 2 {
      TupleItemsInert(m.heap, m.stack[n - 1]);
      if TupleItems(m.heap, m.stack[n - 1]).Some? {
        DropClosed(m, 2);
        CallClosed(env, Drop(m, 2), m.stack[n - 2], TupleItems(m.heap, m.stack[n - 1]).value);
      }
    }
  }

  lemma NewClosed(m: Machine)
    requires Closed(m)
    ensures OutcomeClosed(StepNew(m))
  {
    hide Inert, HeapInert;
    var n := |m.stack|;
    if n >= 2 && TupleItems(m.heap, m.stack[n - 1]).Some? {
      var o := NewObject(m.stack[n - 2], TupleItems(m.heap, m.stack[n - 1]).value);
      if o.Some? {
        DropClosed(m, 2);
        AllocateClosed(Drop(m, 2), o.value);
      }
    }
  }

  lemma PersidClosed(m: Machine)
    requires Closed(m)
    ensures OutcomeClosed(StepPersid(m))
  {
    hide Inert, HeapInert, PersistentLoad;
    if m.stack != [] {
      PersistentLoadInert(m.heap, m.stack[|m.stack| - 1]);
      DropClosed(m, 1);
    }
  }

  lemma StoreStepClosed(env: Env, m: Machine, op: Op, count: nat)
    requires Closed(m)
    ensures OutcomeClosed(StepStore(env, m, op, count))
  {
    hide Fill;
    if |m.stack| >= count {
      DropClosed(m, count);
      FillClosed(env, Drop(m, count), op, m.stack[|m.stack| - count..]);
    }
  }

  lemma TupleClosed(m: Machine, arity: nat)
    requires Closed(m)
    ensures OutcomeClosed(StepTuple(m, arity))
  {
    if |m.stack| >= arity {
      DropClosed(m, arity);
      AllocateClosed(Drop(m, arity), Tuple(m.stack[|m.stack| - arity..]));
    }
  }

  lemma OperandsClosed(env: Env, m: Machine, op: Op)
    requires Closed(m)
    ensures OutcomeClosed(StepOperands(env, m, op))
  {
    hide Closed, StepTuple, StepStore, StepNew, StepReduce, StepBuild, StepPersid;
    match op
    case ShortTuple(k) => TupleClosed(m, k);
    case SetItem => StoreStepClosed(env, m, op, 2);
    case Append => StoreStepClosed(env, m, op, 1);
    case NewObj => NewClosed(m);
    case Reduce => ReduceClosed(env, m);
    case Build => BuildClosed(env, m);
    case BinPersid => PersidClosed(m);
    case _ =>
  }

  lemma FrameClosed(m: Machine, op: Op)
    requires Closed(m)
    ensures OutcomeClosed(StepFrame(m, op))
  {
    hide Inert, HeapInert;
    CloseMarkClosed(m);
  }

  lemma LiteralInert(item: Item, size: nat, n: nat)
    requires OpAllowed(item, size) && Literal(item.op).Some?
    ensures Inert(Literal(item.op).value, n)
  {}

  /** An opcode the preflight allows keeps the universe closed. */
  lemma StepClosed(env: Env, m: Machine, item: Item, size: nat)
    requires Closed(m) && OpAllowed(item, size)
    ensures OutcomeClosed(Step(env, m, item.op))
  {
    hide StepOperands, StepMarked, StepFrame, EmptyContainer, Literal, Inert;
    var op := item.op;
    if Literal(op).Some? {
      LiteralInert(item, size, |m.heap|);
    } else if EmptyContainer(op).Some? {
      EmptyContainerInert(op, |m.heap|);
      AllocateClosed(m, EmptyContainer(op).value);
    } else if MarkEffect(op) == -1 {
      MarkedClosed(env, m, op);
    } else if TakesOperands(op) {
      OperandsClosed(env, m, op);
    } else {
      FrameClosed(m, op);
    }
  }

  lemma EmptyContainerInert(op: Op, n: nat)
    requires EmptyContainer(op).Some?
    ensures ObjectInert(EmptyContainer(op).value, n)
  {}

  // ---------------------------------------------------------------------------
  // Marks and memo
  // ---------------------------------------------------------------------------

  /** POP on an empty frame removes a mark, which the preflight does not count. */
  predicate PopsMark(m: Machine, op: Op) {
    op.Pop? && m.stack == []
  }

  function After(o: Outcome): Option<Machine> {
    match o case Next(m) => Some(m) case Stopped(_, m) => Some(m) case Failed => None
  }

  /** Only marks and memo opcodes touch the frames below and the memo. */
  ghost predicate KeepsBelow(m: Machine, o: Outcome) {
    After(o).Some? ==> After(o).value.metastack == m.metastack && After(o).value.memo == m.memo
  }

  lemma FillKeepsBelow(env: Env, m: Machine, op: Op, items: seq<Value>)
    ensures KeepsBelow(m, Fill(env, m, op, items))
  {
    hide Filled, FilledByAttribute;
  }

  lemma CallKeepsBelow(env: Env, m: Machine, func: Value, args: seq<Value>)
    ensures KeepsBelow(m, Call(env, m, func, args))
  {
    hide OrderedFromArgs, RebuildFromArgs;
  }

  lemma BuildKeepsBelow(env: Env, m: Machine)
    ensures KeepsBelow(m, StepBuild(env, m))
  {
    hide Returns, Attribute, Built;
  }

  lemma OperandsKeepBelow(env: Env, m: Machine, op: Op)
    ensures KeepsBelow(m, StepOperands(env, m, op))
  {
    hide Fill, Call, PersistentLoad, NewObject, StepBuild, TupleItems;
    var n := |m.stack|;
    match op
    case Build => BuildKeepsBelow(env, m);
    case SetItem => if n >= 2 { FillKeepsBelow(env, Drop(m, 2), op, m.stack[n - 2..]); }
    case Append => if n >= 1 { FillKeepsBelow(env, Drop(m, 1), op, m.stack[n - 1..]); }
    case Reduce =>
      if n >= 2 && TupleItems(m.heap, m.stack[n - 1]).Some? {
        CallKeepsBelow(env, Drop(m, 2), m.stack[n - 2], TupleItems(m.heap, m.stack[n - 1]).value);
      }
    case _ =>
  }

  lemma MarkedDepth(env: Env, m: Machine, op: Op)
    requires MarkEffect(op) == -1
    ensures var r := After(StepMarked(env, m, op));
            r.Some? ==> |r.value.metastack| == |m.metastack| - 1 && r.value.memo == m.memo
  {
    hide Fill, PutPairs;
    if CloseMark(m).Some? {
      FillKeepsBelow(env, CloseMark(m).value.1, op, CloseMark(m).value.0);
    }
  }

  lemma FrameDepth(m: Machine, op: Op)
    requires MarkEffect(op) != -1
    ensures var r := After(StepFrame(m, op));
            r.Some? ==> |r.value.metastack| == |m.metastack| + MarkEffect(op) - (if PopsMark(m, op) then 1 else 0)
  {}

  lemma StepDepth(env: Env, m: Machine, op: Op)
    ensures var r := After(Step(env, m, op));
            r.Some? ==> |r.value.metastack| == |m.metastack| + MarkEffect(op) - (if PopsMark(m, op) then 1 else 0)
  {
    hide StepOperands, StepMarked, StepFrame, FindClass;
    if MarkEffect(op) != -1 { FrameDepth(m, op); }
    OperandsKeepBelow(env, m, op);
    if MarkEffect(op) == -1 { MarkedDepth(env, m, op); }
  }

  ghost predicate MemoKeysBelow(memo: map<int, Value>, bound: int) {
    forall k | k in memo :: 0 <= k <= bound
  }

  lemma StepMemo(env: Env, m: Machine, item: Item, size: nat, writes: nat)
    requires OpAllowed(item, size)
    requires |m.memo| <= writes && writes + MemoEffect(item.op) <= MAX_MEMO_ENTRIES
    requires MemoKeysBelow(m.memo, MAX_MEMO_INDEX)
    ensures var r := After(Step(env, m, item.op));
            r.Some? ==> |r.value.memo| <= writes + MemoEffect(item.op) && MemoKeysBelow(r.value.memo, MAX_MEMO_INDEX)
  {
    hide StepOperands, StepMarked, FindClass, GlobalAllowed;
    OperandsKeepBelow(env, m, item.op);
    if MarkEffect(item.op) == -1 { MarkedDepth(env, m, item.op); }
  }

  // ---------------------------------------------------------------------------
  // Whole runs
  // ---------------------------------------------------------------------------

  /** How many of the first k opcodes were POPs that removed a mark. */
  function MarkPops(env: Env, items: seq<Item>, k: nat): nat
    requires k <= |items|
  {
    if k == 0 then 0
    else MarkPops(env, items, k - 1)
         + match Run(env, items, k - 1)
           case Next(m) => (if PopsMark(m, items[k - 1].op) then 1 else 0)
           case _ => 0
  }

  /**
   Soundness of the preflight.  In every state that a run of an accepted stream reaches, the
   open marks are at most the counted ones, short by exactly the marks that POPs removed, and
   so at most 64; the memo holds at most 8192 entries under keys at most 8192; and the stack,
   the frames, the memo and the whole heap lie in the closed inert universe.
   */
  lemma {:induction false} EveryReachableState(env: Env, items: seq<Item>, size: nat, k: nat)
    requires k <= |items| && PrefixClean(items, size, |items|)
    ensures var r := Run(env, items, k);
            r.Next? ==>
              && |r.m.metastack| == Marks(items, k) - MarkPops(env, items, k)
              && |r.m.metastack| <= Marks(items, k) <= MAX_DEPTH
              && |r.m.memo| <= MemoWrites(items, k) <= MAX_MEMO_ENTRIES
              && MemoKeysBelow(r.m.memo, MAX_MEMO_INDEX)
              && Closed(r.m)
    ensures OutcomeClosed(Run(env, items, k))
  {
    hide Step, OpAllowed;
    if k == 0 {
    } else {
      EveryReachableState(env, items, size, k - 1);
      PrefixCleanShrinks(items, size, k, |items|);
      PrefixCleanShrinks(items, size, k - 1, |items|);
      match Run(env, items, k - 1)
      case Next(m) =>
        assert OpAllowed(items[k - 1], size);
        StepDepth(env, m, items[k - 1].op);
        StepMemo(env, m, items[k - 1], size, MemoWrites(items, k - 1));
        StepClosed(env, m, items[k - 1], size);
      case _ =>
    }
  }

  lemma {:induction false} MarkPopsMonotone(env: Env, items: seq<Item>, j: nat, k: nat)
    requires j <= k <= |items|
    ensures MarkPops(env, items, j) <= MarkPops(env, items, k)
    decreases k - j
  {
    hide Step;
    if j == k {
    } else {
      MarkPopsMonotone(env, items, j, k - 1);
    }
  }

  lemma {:induction false} EarlierStatesRun(env: Env, items: seq<Item>, j: nat, k: nat)
    requires j <= k <= |items| && Run(env, items, k).Next?
    ensures Run(env, items, j).Next?
    decreases k - j
  {
    hide Step;
    if j == k {
    } else {
      EarlierStatesRun(env, items, j, k - 1);
    }
  }

  /**
   The balance check makes the over-approximation exact.  If a run of an accepted stream
   executes every opcode, then no POP in it ever removed a mark: at every point the machine's
   open marks are exactly the counted ones, and the final frame is the bottom one.
   */
  lemma CompleteRunsNeverPopMarks(env: Env, items: seq<Item>, size: nat, k: nat)
    requires Accepts(items, false, size) && k < |items|
    requires Run(env, items, |items| - 1).Next? && !Run(env, items, |items|).Failed?
    ensures Run(env, items, k).Next?
    ensures |Run(env, items, k).m.metastack| == Marks(items, k)
    ensures MarkPops(env, items, k) == 0
    ensures After(Run(env, items, |items|)).value.metastack == []
  {
    hide Step, Closed;
    var n := |items|;
    EveryReachableState(env, items, size, n - 1);
    StepDepth(env, Run(env, items, n - 1).m, items[n - 1].op);
    EarlierStatesRun(env, items, k, n - 1);
    EveryReachableState(env, items, size, k);
    MarkPopsMonotone(env, items, k, n);
    assert MarkPops(env, items, n) == 0;
  }

  /** POP really can remove a counted mark: MARK then POP leaves depth 0 where 1 is counted. */
  lemma PopGapExample(env: Env)
    ensures var items := [Item(Proto(2), 0), Item(Mark, 2), Item(Pop, 3)];
            && PrefixClean(items, 4, 3)
            && Run(env, items, 3) == Next(START)
            && Marks(items, 3) == 1
  {
    hide StepOperands, StepMarked, FindClass;
    var items := [Item(Proto(2), 0), Item(Mark, 2), Item(Pop, 3)];
    assert Marks(items, 0) == 0 && Marks(items, 1) == 0 && Marks(items, 2) == 1 && Marks(items, 3) == 1;
    assert MemoWrites(items, 1) == 0 && MemoWrites(items, 2) == 0;
    assert Run(env, items, 1) == Next(START);
    assert Run(env, items, 2) == Next(Machine([], [[]], map[], []));
  }

  // ---------------------------------------------------------------------------
  // The opcodes that only move values
  // ---------------------------------------------------------------------------

  lemma FrameStep(env: Env, m: Machine, op: Op)
    requires op.Dup? || op.Pop? || op.Mark? || op.Memoize? || op.Get?
    ensures Step(env, m, op) == StepFrame(m, op)
  {}

  /** DUP puts on the stack what MEMOIZE and GET of that entry do, and POP takes it off again. */
  lemma CopyLaws(env: Env, m: Machine)
    requires m.stack != []
    ensures var noted, copied := Step(env, m, Memoize), Step(env, m, Dup);
            && noted.Next? && Step(env, noted.m, Get(|m.memo|)).Next?
            && copied == Next(Step(env, noted.m, Get(|m.memo|)).m.(memo := m.memo))
            && |copied.m.stack| == |m.stack| + 1 && Step(env, copied.m, Pop) == Next(m)
  {
    hide Step;
    FrameStep(env, m, Memoize);
    FrameStep(env, m, Dup);
    FrameStep(env, Step(env, m, Memoize).m, Get(|m.memo|));
    FrameStep(env, Step(env, m, Dup).m, Pop);
  }

  /** MARK hides the stack; POP_MARK brings it back whatever was pushed meanwhile, as does a POP when nothing was. */
  lemma MarkLaws(env: Env, m: Machine, pushed: seq<Value>)
    ensures var marked := Step(env, m, Mark);
            && marked.Next? && marked.m.stack == [] && Step(env, marked.m, Pop) == Next(m)
            && Step(env, marked.m.(stack := pushed), PopMark) == Next(m)
  {
    FrameStep(env, m, Mark);
    PopMarkStep(env, Step(env, m, Mark).m.(stack := pushed));
    hide Step;
    FrameStep(env, Step(env, m, Mark).m, Pop);
  }

  lemma PopMarkStep(env: Env, m: Machine)
    ensures Step(env, m, PopMark) == match CloseMark(m) case None => Failed case Some((_, below)) => Next(below)
  {
    hide Fill;
  }

  // ---------------------------------------------------------------------------
  // Two checks of the same import
  // ---------------------------------------------------------------------------

  lemma SplitAtSpace(m: string, name: string, allowedModule: string, allowedName: string)
    requires ' ' !in allowedModule && ' ' !in allowedName
    ensures GlobalArgument(m, name) == GlobalArgument(allowedModule, allowedName) <==>
            m == allowedModule && name == allowedName
  {
    var left, right := GlobalArgument(m, name), GlobalArgument(allowedModule, allowedName);
    if left == right {
      assert left[|m|] == ' ' && right[|allowedModule|] == ' ';
      assert |m| == |allowedModule|;
      assert m == left[..|m|] == allowedModule;
      assert name == left[|m| + 1..] == allowedName;
    }
  }

  lemma StorageNamesComplete(name: string)
    ensures StorageDtype(name).Some? <==> exists i | 0 <= i < |STORAGE_NAMES| :: name == STORAGE_NAMES[i]
  {
    assert STORAGE_NAMES[0] == "FloatStorage" && STORAGE_NAMES[1] == "DoubleStorage"
        && STORAGE_NAMES[2] == "HalfStorage";
    assert STORAGE_NAMES[3] == "BFloat16Storage" && STORAGE_NAMES[4] == "ByteStorage"
        && STORAGE_NAMES[5] == "CharStorage";
    assert STORAGE_NAMES[6] == "ShortStorage" && STORAGE_NAMES[7] == "IntStorage" && STORAGE_NAMES[8] == "LongStorage";
    assert STORAGE_NAMES[9] == "BoolStorage";
  }

  lemma StorageImportsAgree(m: string, name: string)
    ensures StorageImport(GlobalArgument(m, name)) <==> m == "torch" && StorageDtype(name).Some?
  {
    forall i | 0 <= i < |STORAGE_NAMES|
      ensures GlobalArgument(m, name) == GlobalArgument("torch", STORAGE_NAMES[i]) <==>
              m == "torch" && name == STORAGE_NAMES[i]
    {
      StorageNameHasNoSpace(i);
      SplitAtSpace(m, name, "torch", STORAGE_NAMES[i]);
    }
    StorageNamesComplete(name);
  }

  lemma StorageNameHasNoSpace(i: nat)
    requires i < |STORAGE_NAMES|
    ensures ' ' !in STORAGE_NAMES[i]
  {}

  /** The preflight allows an import exactly when the unpickler's own hook resolves it. */
  lemma ImportsAgree(m: string, name: string)
    ensures GlobalAllowed(GlobalArgument(m, name)) <==> FindClass(m, name).Some?
  {
    hide GlobalArgument, StorageImport, StorageDtype;
    SplitAtSpace(m, name, "argparse", "Namespace");
    SplitAtSpace(m, name, "collections", "OrderedDict");
    SplitAtSpace(m, name, "torch._utils", "_rebuild_tensor_v2");
    StorageImportsAgree(m, name);
  }
}
