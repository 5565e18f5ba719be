/**
 The stack machine of PEP 307 and PEP 3154, restricted as in RestrictedUnpickler of
 tools/audit/firered_checkpoint_metadata.py.  Python's equality and hashing of keys are arbitrary functions (Env).
 */
module PickleMachine {
  import opened Wrappers
  import opened TensorView
  import opened PickleValues
  import opened Preflight

  datatype Env = Env(hashable: (Heap, Value) -> bool, keyEq: (Heap, Value, Value) -> bool)

  /** stack is the current frame; metastack holds the frames below the open marks. */
  datatype Machine = Machine(stack: seq<Value>, metastack: seq<seq<Value>>, memo: map<int, Value>, heap: Heap)

  datatype Outcome = Next(m: Machine) | Stopped(root: Value, m: Machine) | Failed

  const START := Machine([], [], map[], [])

  // ---------------------------------------------------------------------------
  // Python containers
  // ---------------------------------------------------------------------------

  /** d[k] = v on an insertion-ordered mapping. */
  function PutEntry(env: Env, heap: Heap, es: Entries, k: Value, v: Value): Entries {
    if es == [] then [(k, v)]
    else if env.keyEq(heap, es[0].0, k) then [(es[0].0, v)] + es[1..]
    else [es[0]] + PutEntry(env, heap, es[1..], k, v)
  }

  /** Stores alternating keys and values; fails on an unhashable key or an odd count. */
  function PutPairs(env: Env, heap: Heap, es: Entries, flat: seq<Value>): Option<Entries>
    decreases |flat|
  {
    if flat == [] then Some(es)
    else if |flat| == 1 || !env.hashable(heap, flat[0]) then None
    else PutPairs(env, heap, PutEntry(env, heap, es, flat[0], flat[1]), flat[2..])
  }

  function PutAll(env: Env, heap: Heap, es: Entries, more: Entries): Entries
    decreases |more|
  {
    if more == [] then es
    else PutAll(env, heap, PutEntry(env, heap, es, more[0].0, more[0].1), more[1..])
  }

  /** The value under a text key. */
  function Lookup(es: Entries, key: string): Option<Value> {
    if es == [] then None else if es[0].0 == Str(key) then Some(es[0].1) else Lookup(es[1..], key)
  }

  /** An attribute of an instance; only namespaces have any that a stream can name. */
  function Attribute(heap: Heap, v: Value, name: string): Option<Value> {
    if v.Ref? && v.id < |heap| && heap[v.id].Namespace? then Lookup(heap[v.id].entries, name) else None
  }

  function AddMembers(env: Env, heap: Heap, vs: seq<Value>, more: seq<Value>): Option<seq<Value>>
    decreases |more|
  {
    if more == [] then Some(vs)
    else if !env.hashable(heap, more[0]) then None
    else if exists i | 0 <= i < |vs| :: env.keyEq(heap, vs[i], more[0]) then AddMembers(env, heap, vs, more[1..])
    else AddMembers(env, heap, vs + [more[0]], more[1..])
  }

  /** What iterating a value yields, for the values that can be iterated. */
  function Iterate(heap: Heap, v: Value): Option<seq<Value>> {
    match v
    case Str(s) => Some(seq(|s|, i requires 0 <= i < |s| => Str([s[i]])))
    case Ref(id) =>
      if id >= |heap| then None
      else (match heap[id]
            case List(vs) => Some(vs)
            case Tuple(vs) => Some(vs)
            case Set(vs) => Some(vs)
            case Dict(es) => Some(seq(|es|, i requires 0 <= i < |es| => es[i].0))
            case OrderedDict(es, _) => Some(seq(|es|, i requires 0 <= i < |es| => es[i].0))
            case Namespace(_) => None)
    case _ => None
  }

  function Flatten(heap: Heap, pairs: seq<Value>): Option<seq<Value>> {
    if pairs == [] then Some([])
    else
      match Iterate(heap, pairs[0])
      case None => None
      case Some(pair) =>
        match Flatten(heap, pairs[1..])
        case None => None
        case Some(rest) => if |pair| == 2 then Some(pair + rest) else None
  }

  /** What an argument's `keys`, or without it `items`, attribute decides: it is called, and the result iterated. */
  function PairsAttribute(heap: Heap, v: Value): Option<Value> {
    var keys := Attribute(heap, v, "keys");
    if keys.Some? then keys else Attribute(heap, v, "items")
  }

  /**
   OrderedDict(*args): no argument, a mapping, or an iterable of pairs.  Of the callables a namespace can
   carry as `keys` or `items`, only the mapping class returns something that can be iterated, and it is empty.
   */
  function OrderedFromArgs(env: Env, heap: Heap, args: seq<Value>): Option<Entries> {
    if args == [] then Some([])
    else if |args| > 1 then None
    else
      var arg := args[0];
      if arg.Ref? && arg.id < |heap| && (heap[arg.id].Dict? || heap[arg.id].OrderedDict?) then
        Some(PutAll(env, heap, [], heap[arg.id].entries))
      else if PairsAttribute(heap, arg).Some? then
        if PairsAttribute(heap, arg).value.OrderedDictClass? then Some([]) else None
      else
        match Iterate(heap, arg)
        case None => None
        case Some(pairs) =>
          match Flatten(heap, pairs)
          case None => None
          case Some(flat) => PutPairs(env, heap, [], flat)
  }

  // ---------------------------------------------------------------------------
  // The restricted hooks
  // ---------------------------------------------------------------------------

  function FindClass(moduleName: string, name: string): Option<Value> {
    if moduleName == "argparse" && name == "Namespace" then Some(NamespaceClass)
    else if moduleName == "collections" && name == "OrderedDict" then Some(OrderedDictClass)
    else if moduleName == "torch._utils" && name == "_rebuild_tensor_v2" then Some(TensorReducer)
    else if moduleName == "torch" then
      match StorageDtype(name)
      case Some(c) => Some(StorageType(c))
      case None => None
    else None
  }

  function TupleItems(heap: Heap, v: Value): Option<seq<Value>> {
    if v.Ref? && v.id < |heap| && heap[v.id].Tuple? then Some(heap[v.id].items) else None
  }

  function PersistentLoad(heap: Heap, pid: Value): Option<Value> {
    match TupleItems(heap, pid)
    case None => None
    case Some(t) =>
      if |t| != 5 || t[0] != Str("storage") || !t[1].StorageType? then None
      else if ItemBytes(t[1].storageClass.dtype) != Some(t[1].storageClass.itemBytes) then None
      else if !(t[2].Str? && BoundedText(t[2].s) && t[3].Str? && BoundedText(t[3].s)) then None
      else if !(t[4].Int? && 0 <= t[4].n <= MAX_STORAGE_NUMEL) then None
      else Some(Storage(StorageRef(t[1].storageClass.dtype, t[1].storageClass.itemBytes, t[2].s, t[3].s, t[4].n)))
  }

  /** None, or an empty mapping without attributes. */
  predicate NothingOrEmpty(heap: Heap, v: Value) {
    || v.NoneValue?
    || (v.Ref? && v.id < |heap| &&
        match heap[v.id]
        case Dict(es) => es == []
        case OrderedDict(es, m) => es == [] && m.None?
        case _ => false)
  }

  function Ints(vs: seq<Value>): Option<seq<int>> {
    if vs == [] then Some([])
    else if !vs[0].Int? || !StrictInt(vs[0].n) then None
    else match Ints(vs[1..]) case None => None case Some(ns) => Some([vs[0].n] + ns)
  }

  function RebuildFromArgs(heap: Heap, args: seq<Value>): Option<Value> {
    if !(|args| == 6 || |args| == 7) then None
    else if !args[0].Storage? || !args[1].Int? then None
    else
      match (TupleItems(heap, args[2]), TupleItems(heap, args[3]))
      case (Some(shapeItems), Some(strideItems)) =>
        (match (Ints(shapeItems), Ints(strideItems))
         case (Some(shape), Some(stride)) =>
           if !args[4].Bool? || !NothingOrEmpty(heap, args[5])
               || (|args| == 7 && !NothingOrEmpty(heap, args[6])) then None
           else (match Rebuild(args[0].storage, args[1].n, shape, stride)
                 case None => None
                 case Some(t) => Some(Tensor(t)))
         case _ => None)
      case _ => None
  }

  /** NEWOBJ: cls.__new__(cls, *args). */
  function NewObject(cls: Value, args: seq<Value>): Option<Object> {
    if cls.NamespaceClass? && args == [] then Some(Namespace([]))
    else if cls.OrderedDictClass? then Some(OrderedDict([], None))
    else None
  }

  /** BUILD: the object after its class's __setstate__(state), or a rejection. */
  function Built(env: Env, heap: Heap, o: Object, state: Value): Option<Object> {
    var plain := if state.Ref? && state.id < |heap| && heap[state.id].Dict? then Some(heap[state.id].entries) else None;
    match o
    case Namespace(es) => if plain.Some? then Some(Namespace(PutAll(env, heap, es, plain.value))) else None
    case OrderedDict(es, _) =>
      if plain.Some? && |plain.value| == 1 && plain.value[0].0 == Str("_metadata")
          && MetadataMapping(heap, plain.value[0].1)
      then Some(OrderedDict(es, Some(plain.value[0].1)))
      else None
    case _ => if state.NoneValue? then Some(o) else None
  }

  predicate MetadataMapping(heap: Heap, v: Value) {
    && v.Ref? && v.id < |heap|
    && (heap[v.id].Dict? || heap[v.id].OrderedDict?)
    && |heap[v.id].entries| <= MAX_CONTAINER_ITEMS
  }

  // ---------------------------------------------------------------------------
  // The machine
  // ---------------------------------------------------------------------------

  function Push(m: Machine, v: Value): Machine {
    m.(stack := m.stack + [v])
  }

  function Allocate(m: Machine, o: Object): Machine {
    m.(heap := m.heap + [o], stack := m.stack + [Ref(|m.heap|)])
  }

  function Drop(m: Machine, n: nat): Machine
    requires n <= |m.stack|
  {
    m.(stack := m.stack[..|m.stack| - n])
  }

  /** Closes the innermost mark: its frame's items, and the machine back in the frame below. */
  function CloseMark(m: Machine): Option<(seq<Value>, Machine)> {
    if m.metastack == [] then None
    else
      var n := |m.metastack| - 1;
      Some((m.stack, m.(stack := m.metastack[n], metastack := m.metastack[..n])))
  }

  function Updated(m: Machine, id: nat, o: Option<Object>): Outcome
    requires id < |m.heap|
  {
    match o case None => Failed case Some(o) => Next(m.(heap := m.heap[id := o]))
  }

  /** The container after storing items with a SETITEM, APPEND or ADDITEMS opcode. */
  function Filled(env: Env, heap: Heap, o: Object, op: Op, items: seq<Value>): Option<Object> {
    if op.SetItem? || op.SetItems? then
      match o
      case Dict(es) => (match PutPairs(env, heap, es, items) case None => None case Some(r) => Some(Dict(r)))
      case OrderedDict(es, meta) =>
        (match PutPairs(env, heap, es, items) case None => None case Some(r) => Some(OrderedDict(r, meta)))
      case List(vs) => (match PutIndexed(vs, items) case None => None case Some(r) => Some(List(r)))
      case _ => None
    else if op.AddItems? then
      match o
      case Set(vs) => (match AddMembers(env, heap, vs, items) case None => None case Some(r) => Some(Set(r)))
      case _ => None
    else if o.List? then Some(List(o.items + items))
    else None
  }

  /** REDUCE: func(*args). */
  function Call(env: Env, m: Machine, func: Value, args: seq<Value>): Outcome {
    match func
    case NamespaceClass => if args == [] then Next(Allocate(m, Namespace([]))) else Failed
    case OrderedDictClass =>
      (match OrderedFromArgs(env, m.heap, args)
       case None => Failed
       case Some(es) => Next(Allocate(m, OrderedDict(es, None))))
    case TensorReducer =>
      (match RebuildFromArgs(m.heap, args)
       case None => Failed
       case Some(v) => Next(Push(m, v)))
    case Foreign(d) => Next(Push(m, Foreign(d + "()")))
    case _ => Failed
  }

  /** A call whose result is thrown away, with what it allocated. */
  predicate Returns(env: Env, m: Machine, func: Value, args: seq<Value>) {
    Call(env, m, func, args).Next?
  }

  predicate EachReturns(env: Env, m: Machine, func: Option<Value>, items: seq<Value>) {
    func.Some? && forall i | 0 <= i < |items| :: Returns(env, m, func.value, [items[i]])
  }

  /** APPEND, APPENDS and ADDITEMS on an instance go through its `extend`, `append` or `add` attribute. */
  predicate FilledByAttribute(env: Env, m: Machine, target: Value, op: Op, items: seq<Value>) {
    if op.AddItems? then EachReturns(env, m, Attribute(m.heap, target, "add"), items)
    else if op.Append? || op.Appends? then
      match Attribute(m.heap, target, "extend")
      case Some(extend) => Returns(env, m.(heap := m.heap + [List(items)]), extend, [Ref(|m.heap|)])
      case None => EachReturns(env, m, Attribute(m.heap, target, "append"), items)
    else false
  }

  /** Stores items into the container on top of the stack. */
  function Fill(env: Env, m: Machine, op: Op, items: seq<Value>): Outcome {
    if m.stack == [] then Failed
    else
      var target := m.stack[|m.stack| - 1];
      if items == [] || target.Foreign? then Next(m)
      else if !target.Ref? || target.id >= |m.heap| then Failed
      else if m.heap[target.id].Namespace? then
        if FilledByAttribute(env, m, target, op, items) then Next(m) else Failed
      else Updated(m, target.id, Filled(env, m.heap, m.heap[target.id], op, items))
  }

  /** list[i] = v for alternating indices and values; bools are integers, negatives count from the end. */
  function PutIndexed(vs: seq<Value>, flat: seq<Value>): Option<seq<Value>>
    decreases |flat|
  {
    if flat == [] then Some(vs)
    else if |flat| == 1 then None
    else
      var i := if flat[0].Int? then flat[0].n else if flat[0].Bool? then (if flat[0].b then 1 else 0) else |vs|;
      var at := if i < 0 then i + |vs| else i;
      if 0 <= at < |vs| then PutIndexed(vs[at := flat[1]], flat[2..]) else None
  }

  function StepMarked(env: Env, m: Machine, op: Op): Outcome
    requires MarkEffect(op) == -1
  {
    match CloseMark(m)
    case None => Failed
    case Some((items, below)) =>
      match op
      case PopMark => Next(below)
      case MarkTuple => Next(Allocate(below, Tuple(items)))
      case MarkList => Next(Allocate(below, List(items)))
      case MarkDict =>
        (match PutPairs(env, m.heap, [], items)
         case None => Failed
         case Some(es) => Next(Allocate(below, Dict(es))))
      case _ => Fill(env, below, op, items)
  }

  function StepBuild(env: Env, m: Machine): Outcome {
    var n := |m.stack|;
    if n < 2 then Failed
    else
      var state, inst := m.stack[n - 1], m.stack[n - 2];
      match inst
      case Ref(id) =>
        if id >= |m.heap| then Failed
        else
          (match Attribute(m.heap, inst, "__setstate__")
           case Some(setstate) => if Returns(env, Drop(m, 1), setstate, [state]) then Next(Drop(m, 1)) else Failed
           case None => Updated(Drop(m, 1), id, Built(env, m.heap, m.heap[id], state)))
      case StorageType(_) | Storage(_) | Tensor(_) | NamespaceClass | OrderedDictClass => Failed
      case _ => if state.NoneValue? then Next(Drop(m, 1)) else Failed
  }

  /** The constant an opcode pushes. */
  function Literal(op: Op): Option<Value> {
    match op
    case PushNone => Some(NoneValue)
    case PushBool(b) => Some(Bool(b))
    case PushInt(i) => Some(Int(i))
    case PushFloat(f) => Some(FloatValue(f))
    case PushText(s) => Some(Str(s))
    case OtherOpcode(name) => Some(Foreign(name))
    case Global(mod, name) => FindClass(mod, name)
    case _ => None
  }

  /** The empty container an opcode allocates. */
  function EmptyContainer(op: Op): Option<Object> {
    match op
    case EmptyTuple => Some(Tuple([]))
    case EmptyDict => Some(Dict([]))
    case EmptyList => Some(List([]))
    case EmptySet => Some(Set([]))
    case _ => None
  }

  /** Framing, marks, and the memo. */
  function StepFrame(m: Machine, op: Op): Outcome {
    var n := |m.stack|;
    match op
    case Proto(v) => if v <= 5 then Next(m) else Failed
    case Frame(_) => Next(m)
    case Stop => if n == 0 then Failed else Stopped(m.stack[n - 1], Drop(m, 1))
    case Mark => Next(m.(metastack := m.metastack + [m.stack], stack := []))
    case Pop =>
      if n > 0 then Next(Drop(m, 1))
      else (match CloseMark(m) case None => Failed case Some((_, below)) => Next(below))
    case Dup => if n == 0 then Failed else Next(Push(m, m.stack[n - 1]))
    case Put(i) => if n == 0 || i < 0 then Failed else Next(m.(memo := m.memo[i := m.stack[n - 1]]))
    case Memoize => if n == 0 then Failed else Next(m.(memo := m.memo[|m.memo| := m.stack[n - 1]]))
    case Get(i) => if i in m.memo then Next(Push(m, m.memo[i])) else Failed
    case _ => Failed
  }

  function StepNew(m: Machine): Outcome {
    var n := |m.stack|;
    if n < 2 then Failed
    else
      match TupleItems(m.heap, m.stack[n - 1])
      case None => Failed
      case Some(args) =>
        match NewObject(m.stack[n - 2], args)
        case None => Failed
        case Some(o) => Next(Allocate(Drop(m, 2), o))
  }

  function StepReduce(env: Env, m: Machine): Outcome {
    var n := |m.stack|;
    if n < 2 then Failed
    else
      match TupleItems(m.heap, m.stack[n - 1])
      case None => Failed
      case Some(args) => Call(env, Drop(m, 2), m.stack[n - 2], args)
  }

  function StepPersid(m: Machine): Outcome {
    var n := |m.stack|;
    if n == 0 then Failed
    else
      match PersistentLoad(m.heap, m.stack[n - 1])
      case None => Failed
      case Some(v) => Next(Push(Drop(m, 1), v))
  }

  function StepTuple(m: Machine, arity: nat): Outcome {
    var n := |m.stack|;
    if n < arity then Failed else Next(Allocate(Drop(m, arity), Tuple(m.stack[n - arity..])))
  }

  /** Stores the top `count` operands into the container below them. */
  function StepStore(env: Env, m: Machine, op: Op, count: nat): Outcome {
    var n := |m.stack|;
    if n < count then Failed else Fill(env, Drop(m, count), op, m.stack[n - count..])
  }

  /** Opcodes that consume operands from the current frame. */
  function StepOperands(env: Env, m: Machine, op: Op): Outcome {
    match op
    case ShortTuple(k) => StepTuple(m, k)
    case SetItem => StepStore(env, m, op, 2)
    case Append => StepStore(env, m, op, 1)
    case NewObj => StepNew(m)
    case Reduce => StepReduce(env, m)
    case Build => StepBuild(env, m)
    case BinPersid => StepPersid(m)
    case _ => Failed
  }

  predicate TakesOperands(op: Op) {
    op.ShortTuple? || op.SetItem? || op.Append? || op.NewObj? || op.Reduce? || op.Build? || op.BinPersid?
  }

  function Step(env: Env, m: Machine, op: Op): Outcome {
    if Literal(op).Some? then Next(Push(m, Literal(op).value))
    else if EmptyContainer(op).Some? then Next(Allocate(m, EmptyContainer(op).value))
    else if MarkEffect(op) == -1 then StepMarked(env, m, op)
    else if TakesOperands(op) then StepOperands(env, m, op)
    else StepFrame(m, op)
  }

  /** The machine after the first k opcodes; it stays stopped or failed once it is. */
  function Run(env: Env, items: seq<Item>, k: nat): Outcome
    requires k <= |items|
  {
    if k == 0 then Next(START)
    else match Run(env, items, k - 1)
         case Next(m) => Step(env, m, items[k - 1].op)
         case o => o
  }
}
