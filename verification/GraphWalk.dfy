/**
 The budgeted walk `_safe_value` of tools/audit/firered_checkpoint_metadata.py over a heap that
 may share and may be cyclic.  `fold` is Python's casefold, left arbitrary.  A raised
 MetadataError is the absence of a value; the budget keeps whatever was consumed before it.
 */
module GraphWalk {
  import Octets
  import opened Wrappers
  import opened TensorView
  import opened PickleValues
  import opened Json

  const MAX_OUTPUT_NODES := 8192
  const MAX_OUTPUT_BYTES := 2 * 1024 * 1024

  const SENSITIVE_ARG_KEYS := {
    "api_key", "apikey", "token", "hf_token", "hf_api_key", "access_token", "api_token", "auth_token",
    "secret", "secret_key", "client_secret", "password", "passwd", "passphrase", "credential",
    "credentials", "private_key", "aws_secret_access_key", "vast_api_key", "vastai_api_key",
    "scw_secret_key", "scw_access_key", "secret_access_key" }

  type Fold = string -> string

  function TextCost(s: string): nat {
    (if Utf8Length(s) > 6 * |s| then Utf8Length(s) else 6 * |s|) + 64
  }

  function Hex(data: Octets.bytes): string {
    if data == [] then "" else [HexDigit(data[0] / 16), HexDigit(data[0] % 16)] + Hex(data[1..])
  }

  function HexDigit(d: int): char
    requires 0 <= d < 16
  {
    "0123456789abcdef"[d]
  }

  /** A mapping key the walk lets through. */
  predicate KeyOk(fold: Fold, k: Value) {
    k.Str? && BoundedText(k.s) && fold(k.s) !in SENSITIVE_ARG_KEYS
  }

  // ---------------------------------------------------------------------------
  // The walk as a function of the budget
  // ---------------------------------------------------------------------------

  datatype Budget = Budget(remaining: int, output: int)

  datatype Walked<T> = Walked(value: Option<T>, budget: Budget)

  function Spend(b: Budget, output: int, j: Json): Walked<Json> {
    if b.output < output then Walked(None, b) else Walked(Some(j), b.(output := b.output - output))
  }

  /** Leaves, once their node is paid for. */
  function WalkAtom(v: Value, b: Budget): Walked<Json> {
    match v
    case NoneValue => Spend(b, 64, JNull)
    case Bool(x) => Spend(b, 64, JBool(x))
    case Int(n) => if !StrictInt(n) then Walked(None, b) else Spend(b, 64, JInt(n))
    case FloatValue(Finite(_, repr)) => Spend(b, 64, JFloat(repr))
    case Str(s) => if Utf8Length(s) > MAX_STRING_BYTES then Walked(None, b) else Spend(b, TextCost(s), JString(s))
    case Bytes(data) =>
      if |data| > MAX_STRING_BYTES then Walked(None, b)
      else Spend(b, 2 * |data| + 96, JObject([("__bytes_hex__", JString(Hex(data)))]))
    case _ => Walked(None, b)
  }

  function Walk(fold: Fold, heap: Heap, v: Value, active: set<nat>, b: Budget, depth: nat): Walked<Json>
    requires depth <= MAX_DEPTH + 1
    decreases MAX_DEPTH + 1 - depth, 1, 0
  {
    if depth > MAX_DEPTH || b.remaining < 1 then Walked(None, b)
    else
      var b := b.(remaining := b.remaining - 1);
      if !v.Ref? then WalkAtom(v, b)
      else if v.id in active || v.id >= |heap| then Walked(None, b)
      else WalkObject(fold, heap, heap[v.id], active + {v.id}, b, depth)
  }

  function WalkObject(fold: Fold, heap: Heap, o: Object, active: set<nat>, b: Budget, depth: nat): Walked<Json>
    requires depth <= MAX_DEPTH
    decreases MAX_DEPTH + 1 - depth, 0, 0
  {
    match o
    case List(vs) =>
      if |vs| > MAX_CONTAINER_ITEMS || b.output < 64 then Walked(None, b)
      else
        var w := WalkItems(fold, heap, vs, active, b.(output := b.output - 64), depth);
        (match w.value case None => Walked(None, w.budget) case Some(js) => Walked(Some(JArray(js)), w.budget))
    case Tuple(vs) =>
      if |vs| > MAX_CONTAINER_ITEMS || b.output < 96 then Walked(None, b)
      else
        var w := WalkItems(fold, heap, vs, active, b.(output := b.output - 96), depth);
        (match w.value
         case None => Walked(None, w.budget)
         case Some(js) => Walked(Some(JObject([("__tuple__", JArray(js))])), w.budget))
    case Dict(es) => WalkMapping(fold, heap, es, active, b, depth)
    case OrderedDict(es, meta) =>
      if |es| > MAX_CONTAINER_ITEMS || meta.Some? then Walked(None, b)
      else WalkMapping(fold, heap, es, active, b, depth)
    case _ => Walked(None, b)
  }

  function WalkMapping(fold: Fold, heap: Heap, es: Entries, active: set<nat>, b: Budget, depth: nat): Walked<Json>
    requires depth <= MAX_DEPTH
    decreases MAX_DEPTH - depth, 3, 0
  {
    if |es| > MAX_CONTAINER_ITEMS || b.output < 96 then Walked(None, b)
    else
      var w := WalkEntries(fold, heap, es, active, b.(output := b.output - 96), depth);
      match w.value
      case None => Walked(None, w.budget)
      case Some(ms) => Walked(Some(JObject(ms)), w.budget)
  }

  function WalkItems(fold: Fold, heap: Heap, vs: seq<Value>, active: set<nat>, b: Budget, depth: nat): Walked<seq<Json>>
    requires depth <= MAX_DEPTH
    decreases MAX_DEPTH - depth, 2, |vs|
  {
    if vs == [] then Walked(Some([]), b)
    else
      var first := Walk(fold, heap, vs[0], active, b, depth + 1);
      if first.value.None? then Walked(None, first.budget)
      else
        var rest := WalkItems(fold, heap, vs[1..], active, first.budget, depth);
        match rest.value
        case None => Walked(None, rest.budget)
        case Some(js) => Walked(Some([first.value.value] + js), rest.budget)
  }

  function WalkEntries(fold: Fold, heap: Heap, es: Entries, active: set<nat>, b: Budget, depth: nat)
    : Walked<seq<(string, Json)>>
    requires depth <= MAX_DEPTH
    decreases MAX_DEPTH - depth, 2, |es|
  {
    if es == [] then Walked(Some([]), b)
    else if !KeyOk(fold, es[0].0) || b.output < TextCost(es[0].0.s) then Walked(None, b)
    else
      var first := Walk(fold, heap, es[0].1, active, b.(output := b.output - TextCost(es[0].0.s)), depth + 1);
      if first.value.None? then Walked(None, first.budget)
      else
        var rest := WalkEntries(fold, heap, es[1..], active, first.budget, depth);
        match rest.value
        case None => Walked(None, rest.budget)
        case Some(ms) => Walked(Some([(es[0].0.s, first.value.value)] + ms), rest.budget)
  }

  // ---------------------------------------------------------------------------
  // What the walk computes: the finite unfolding of a value
  // ---------------------------------------------------------------------------

  datatype Tree =
    | Leaf(v: Value)
    | ListTree(children: seq<Tree>)
    | TupleTree(children: seq<Tree>)
    | DictTree(keys: seq<string>, children: seq<Tree>)

  predicate AtomOk(v: Value) {
    match v
    case NoneValue | Bool(_) | FloatValue(Finite(_, _)) => true
    case Int(n) => StrictInt(n)
    case Str(s) => Utf8Length(s) <= MAX_STRING_BYTES
    case Bytes(data) => |data| <= MAX_STRING_BYTES
    case _ => false
  }

  /** t is the unfolding of v: what is left when every reference is followed. */
  ghost predicate Unfolds(fold: Fold, heap: Heap, v: Value, t: Tree)
    decreases t, 2
  {
    if t.Leaf? then !v.Ref? && t.v == v && AtomOk(v)
    else v.Ref? && v.id < |heap| && UnfoldsObject(fold, heap, heap[v.id], t)
  }

  ghost predicate UnfoldsObject(fold: Fold, heap: Heap, o: Object, t: Tree)
    requires !t.Leaf?
    decreases t, 1
  {
    && |t.children| <= MAX_CONTAINER_ITEMS
    && match o
       case List(vs) => t.ListTree? && UnfoldAll(fold, heap, vs, t.children)
       case Tuple(vs) => t.TupleTree? && UnfoldAll(fold, heap, vs, t.children)
       case Dict(es) => t.DictTree? && UnfoldEntries(fold, heap, es, t.keys, t.children)
       case OrderedDict(es, meta) => t.DictTree? && meta.None? && UnfoldEntries(fold, heap, es, t.keys, t.children)
       case _ => false
  }

  ghost predicate UnfoldAll(fold: Fold, heap: Heap, vs: seq<Value>, ts: seq<Tree>)
    decreases ts, 0
  {
    |vs| == |ts| && forall i | 0 <= i < |ts| :: Unfolds(fold, heap, vs[i], ts[i])
  }

  ghost predicate UnfoldEntries(fold: Fold, heap: Heap, es: Entries, keys: seq<string>, ts: seq<Tree>)
    decreases ts, 0
  {
    && |es| == |keys| == |ts|
    && forall i | 0 <= i < |ts| :: KeyOk(fold, es[i].0) && es[i].0.s == keys[i] && Unfolds(fold, heap, es[i].1, ts[i])
  }

  function Nodes(t: Tree): nat
    decreases t, 1
  {
    1 + if t.Leaf? then 0 else NodesOf(t.children)
  }

  function NodesOf(ts: seq<Tree>): nat
    decreases ts, 0
  {
    if ts == [] then 0 else Nodes(ts[0]) + NodesOf(ts[1..])
  }

  function Height(t: Tree): nat
    decreases t, 1
  {
    if t.Leaf? then 0 else HeightOf(t.children)
  }

  function HeightOf(ts: seq<Tree>): nat
    decreases ts, 0
  {
    if ts == [] then 0
    else
      var h, rest := Height(ts[0]) + 1, HeightOf(ts[1..]);
      if h > rest then h else rest
  }

  function AtomCost(v: Value): nat {
    match v
    case Str(s) => TextCost(s)
    case Bytes(data) => 2 * |data| + 96
    case _ => 64
  }

  function Cost(t: Tree): nat
    decreases t, 1
  {
    match t
    case Leaf(v) => AtomCost(v)
    case ListTree(ts) => 64 + CostOf(ts)
    case TupleTree(ts) => 96 + CostOf(ts)
    case DictTree(ks, ts) => 96 + KeysCost(ks) + CostOf(ts)
  }

  function CostOf(ts: seq<Tree>): nat
    decreases ts, 0
  {
    if ts == [] then 0 else Cost(ts[0]) + CostOf(ts[1..])
  }

  function KeysCost(ks: seq<string>): nat {
    if ks == [] then 0 else TextCost(ks[0]) + KeysCost(ks[1..])
  }

  function RenderAtom(v: Value): Json {
    match v
    case Bool(x) => JBool(x)
    case Int(n) => JInt(n)
    case FloatValue(Finite(_, repr)) => JFloat(repr)
    case Str(s) => JString(s)
    case Bytes(data) => JObject([("__bytes_hex__", JString(Hex(data)))])
    case _ => JNull
  }

  function Render(t: Tree): Json
    decreases t, 1
  {
    match t
    case Leaf(v) => RenderAtom(v)
    case ListTree(ts) => JArray(RenderAll(ts))
    case TupleTree(ts) => JObject([("__tuple__", JArray(RenderAll(ts)))])
    case DictTree(ks, ts) => JObject(RenderEntries(ks, ts))
  }

  function RenderAll(ts: seq<Tree>): (js: seq<Json>)
    decreases ts, 0
  {
    if ts == [] then [] else [Render(ts[0])] + RenderAll(ts[1..])
  }

  function RenderEntries(ks: seq<string>, ts: seq<Tree>): seq<(string, Json)>
    decreases ts, 0
  {
    if ts == [] || ks == [] then [] else [(ks[0], Render(ts[0]))] + RenderEntries(ks[1..], ts[1..])
  }

  // ---------------------------------------------------------------------------
  // Success is sound
  // ---------------------------------------------------------------------------

  /** A walk from b that ended in w is the walk of t. */
  ghost predicate WalkedTree(t: Tree, b: Budget, w: Walked<Json>, depth: nat) {
    && depth + Height(t) <= MAX_DEPTH
    && Nodes(t) <= b.remaining && Cost(t) <= b.output
    && w == Walked(Some(Render(t)), Budget(b.remaining - Nodes(t), b.output - Cost(t)))
  }

  lemma AtomExact(v: Value, b: Budget)
    requires !v.Ref?
    ensures WalkAtom(v, b).value.Some? <==> AtomOk(v) && AtomCost(v) <= b.output
    ensures WalkAtom(v, b).value.Some? ==>
              WalkAtom(v, b) == Walked(Some(RenderAtom(v)), b.(output := b.output - AtomCost(v)))
  {}

  lemma {:induction false} WalkSound(fold: Fold, heap: Heap, v: Value, active: set<nat>, b: Budget, depth: nat)
    returns (t: Tree)
    requires depth <= MAX_DEPTH + 1
    requires Walk(fold, heap, v, active, b, depth).value.Some?
    ensures Unfolds(fold, heap, v, t)
    ensures WalkedTree(t, b, Walk(fold, heap, v, active, b, depth), depth)
    decreases MAX_DEPTH + 1 - depth, 1, 0
  {
    hide WalkAtom, WalkObject, UnfoldsObject;
    var b1 := b.(remaining := b.remaining - 1);
    if v.Ref? {
      t := ObjectSound(fold, heap, heap[v.id], active + {v.id}, b1, depth);
    } else {
      AtomExact(v, b1);
      t := Leaf(v);
    }
  }

  lemma {:induction false} ObjectSound(fold: Fold, heap: Heap, o: Object, active: set<nat>, b: Budget, depth: nat)
    returns (t: Tree)
    requires depth <= MAX_DEPTH && b.remaining >= 0
    requires WalkObject(fold, heap, o, active, b, depth).value.Some?
    ensures !t.Leaf? && UnfoldsObject(fold, heap, o, t)
    ensures WalkedTree(t, b.(remaining := b.remaining + 1), WalkObject(fold, heap, o, active, b, depth), depth)
    decreases MAX_DEPTH + 1 - depth, 0, 0
  {
    hide WalkItems, WalkEntries, UnfoldAll, UnfoldEntries;
    match o {
      case List(vs) =>
        var ts := ItemsSound(fold, heap, vs, active, b.(output := b.output - 64), depth);
        t := ListTree(ts);
      case Tuple(vs) =>
        var ts := ItemsSound(fold, heap, vs, active, b.(output := b.output - 96), depth);
        t := TupleTree(ts);
      case Dict(es) =>
        var ks, ts := EntriesSound(fold, heap, es, active, b.(output := b.output - 96), depth);
        t := DictTree(ks, ts);
      case OrderedDict(es, _) =>
        var ks, ts := EntriesSound(fold, heap, es, active, b.(output := b.output - 96), depth);
        t := DictTree(ks, ts);
    }
  }

  lemma {:induction false} ItemsSound(fold: Fold, heap: Heap, vs: seq<Value>, active: set<nat>, b: Budget, depth: nat)
    returns (ts: seq<Tree>)
    requires depth <= MAX_DEPTH
    requires WalkItems(fold, heap, vs, active, b, depth).value.Some?
    requires b.remaining >= 0 && b.output >= 0
    ensures |ts| == |vs| && UnfoldAll(fold, heap, vs, ts)
    ensures depth + HeightOf(ts) <= MAX_DEPTH
    ensures NodesOf(ts) <= b.remaining && CostOf(ts) <= b.output
    ensures WalkItems(fold, heap, vs, active, b, depth)
            == Walked(Some(RenderAll(ts)), Budget(b.remaining - NodesOf(ts), b.output - CostOf(ts)))
    decreases MAX_DEPTH - depth, 2, |vs|
  {
    hide Walk;
    if vs == [] {
      ts := [];
    } else {
      var t := WalkSound(fold, heap, vs[0], active, b, depth + 1);
      var b1 := Walk(fold, heap, vs[0], active, b, depth + 1).budget;
      var rest := ItemsSound(fold, heap, vs[1..], active, b1, depth);
      ts := [t] + rest;
      assert ts[1..] == rest;
    }
  }

  lemma {:induction false} EntriesSound(fold: Fold, heap: Heap, es: Entries, active: set<nat>, b: Budget, depth: nat)
    returns (ks: seq<string>, ts: seq<Tree>)
    requires depth <= MAX_DEPTH
    requires WalkEntries(fold, heap, es, active, b, depth).value.Some?
    requires b.remaining >= 0 && b.output >= 0
    ensures |ts| == |es| && UnfoldEntries(fold, heap, es, ks, ts)
    ensures depth + HeightOf(ts) <= MAX_DEPTH
    ensures NodesOf(ts) <= b.remaining && KeysCost(ks) + CostOf(ts) <= b.output
    ensures WalkEntries(fold, heap, es, active, b, depth)
            == Walked(Some(RenderEntries(ks, ts)),
                      Budget(b.remaining - NodesOf(ts), b.output - KeysCost(ks) - CostOf(ts)))
    decreases MAX_DEPTH - depth, 2, |es|
  {
    hide Walk, TextCost;
    if es == [] {
      ks, ts := [], [];
    } else {
      var k := es[0].0.s;
      var b0 := b.(output := b.output - TextCost(k));
      var t := WalkSound(fold, heap, es[0].1, active, b0, depth + 1);
      var b1 := Walk(fold, heap, es[0].1, active, b0, depth + 1).budget;
      var ks', ts' := EntriesSound(fold, heap, es[1..], active, b1, depth);
      ks, ts := [k] + ks', [t] + ts';
      assert ks[1..] == ks' && ts[1..] == ts';
    }
  }

  // ---------------------------------------------------------------------------
  // Unfoldings are unique, and strictly smaller below
  // ---------------------------------------------------------------------------

  lemma {:induction false} UnfoldUnique(fold: Fold, heap: Heap, v: Value, t: Tree, u: Tree)
    requires Unfolds(fold, heap, v, t) && Unfolds(fold, heap, v, u)
    ensures t == u
    decreases t
  {
    if !t.Leaf? {
      var vs := Children(heap, v);
      ChildrenUnfold(fold, heap, v, t);
      ChildrenUnfold(fold, heap, v, u);
      forall i | 0 <= i < |vs| ensures t.children[i] == u.children[i] {
        UnfoldUnique(fold, heap, vs[i], t.children[i], u.children[i]);
      }
      assert t.children == u.children;
      assert UnfoldsObject(fold, heap, heap[v.id], t) && UnfoldsObject(fold, heap, heap[v.id], u);
      if t.DictTree? {
        var es := heap[v.id].entries;
        assert UnfoldEntries(fold, heap, es, t.keys, t.children) && UnfoldEntries(fold, heap, es, u.keys, u.children);
        assert t.keys == u.keys;
      }
    }
  }

  /** The values directly inside a heap object that the walk can enter. */
  function Children(heap: Heap, v: Value): seq<Value> {
    if !v.Ref? || v.id >= |heap| then []
    else
      match heap[v.id]
      case List(vs) => vs
      case Tuple(vs) => vs
      case Set(vs) => vs
      case Dict(es) => seq(|es|, i requires 0 <= i < |es| => es[i].1)
      case OrderedDict(es, _) => seq(|es|, i requires 0 <= i < |es| => es[i].1)
      case Namespace(es) => seq(|es|, i requires 0 <= i < |es| => es[i].1)
  }

  lemma ChildrenUnfold(fold: Fold, heap: Heap, v: Value, t: Tree)
    requires Unfolds(fold, heap, v, t) && !t.Leaf?
    ensures UnfoldAll(fold, heap, Children(heap, v), t.children)
    ensures t.DictTree? ==> |t.keys| == |t.children|
  {
    assert UnfoldsObject(fold, heap, heap[v.id], t);
    match heap[v.id]
    case Dict(es) => assert UnfoldEntries(fold, heap, es, t.keys, t.children);
    case OrderedDict(es, _) => assert UnfoldEntries(fold, heap, es, t.keys, t.children);
    case _ =>
  }

  lemma {:induction false} ChildIsSmaller(ts: seq<Tree>, i: nat)
    requires i < |ts|
    ensures Nodes(ts[i]) <= NodesOf(ts)
  {
    if i == 0 {
    } else {
      ChildIsSmaller(ts[1..], i - 1);
    }
  }

  // ---------------------------------------------------------------------------
  // Success is complete: the cycle check never rejects a value that unfolds
  // ---------------------------------------------------------------------------

  /** Object id unfolds to a tree of more than n nodes. */
  ghost predicate Above(fold: Fold, heap: Heap, id: nat, n: nat) {
    exists t :: Unfolds(fold, heap, Ref(id), t) && n < Nodes(t)
  }

  ghost predicate AllAbove(fold: Fold, heap: Heap, active: set<nat>, n: nat) {
    forall id | id in active :: Above(fold, heap, id, n)
  }

  lemma AllAboveShrinks(fold: Fold, heap: Heap, active: set<nat>, n: nat, m: nat)
    requires AllAbove(fold, heap, active, n) && m <= n
    ensures AllAbove(fold, heap, active, m)
  {
    forall id | id in active ensures Above(fold, heap, id, m) {
      var t :| Unfolds(fold, heap, Ref(id), t) && n < Nodes(t);
    }
  }

  lemma NotActive(fold: Fold, heap: Heap, id: nat, active: set<nat>, t: Tree)
    requires Unfolds(fold, heap, Ref(id), t) && AllAbove(fold, heap, active, Nodes(t))
    ensures id !in active
  {
    if id in active {
      var u :| Unfolds(fold, heap, Ref(id), u) && Nodes(t) < Nodes(u);
      UnfoldUnique(fold, heap, Ref(id), t, u);
    }
  }

  lemma {:induction false} WalkComplete(
    fold: Fold, heap: Heap, v: Value, active: set<nat>, b: Budget, depth: nat, t: Tree)
    requires depth <= MAX_DEPTH
    requires Unfolds(fold, heap, v, t)
    requires AllAbove(fold, heap, active, Nodes(t))
    requires depth + Height(t) <= MAX_DEPTH && Nodes(t) <= b.remaining && Cost(t) <= b.output
    ensures WalkedTree(t, b, Walk(fold, heap, v, active, b, depth), depth)
    decreases t, 2
  {
    hide WalkAtom, WalkObject, UnfoldsObject, AllAbove;
    var b1 := b.(remaining := b.remaining - 1);
    if v.Ref? {
      NotActive(fold, heap, v.id, active, t);
      PushActive(fold, heap, v.id, active, t);
      ObjectComplete(fold, heap, heap[v.id], active + {v.id}, b1, depth, t);
    } else {
      AtomExact(v, b1);
    }
  }

  lemma PushActive(fold: Fold, heap: Heap, id: nat, active: set<nat>, t: Tree)
    requires Unfolds(fold, heap, Ref(id), t) && AllAbove(fold, heap, active, Nodes(t))
    ensures AllAbove(fold, heap, active + {id}, Nodes(t) - 1)
  {
    AllAboveShrinks(fold, heap, active, Nodes(t), Nodes(t) - 1);
    assert Above(fold, heap, id, Nodes(t) - 1);
  }

  lemma {:induction false} ObjectComplete(
    fold: Fold, heap: Heap, o: Object, active: set<nat>, b: Budget, depth: nat, t: Tree)
    requires depth <= MAX_DEPTH
    requires !t.Leaf? && UnfoldsObject(fold, heap, o, t)
    requires AllAbove(fold, heap, active, Nodes(t) - 1)
    requires depth + Height(t) <= MAX_DEPTH && Nodes(t) <= b.remaining + 1 && Cost(t) <= b.output
    ensures WalkedTree(t, b.(remaining := b.remaining + 1), WalkObject(fold, heap, o, active, b, depth), depth)
    decreases t, 1
  {
    hide AllAbove, WalkItems, WalkMapping;
    match t {
      case ListTree(ts) => ItemsComplete(fold, heap, o.items, active, b.(output := b.output - 64), depth, ts);
      case TupleTree(ts) => ItemsComplete(fold, heap, o.items, active, b.(output := b.output - 96), depth, ts);
      case DictTree(ks, ts) => MappingComplete(fold, heap, o.entries, active, b, depth, ks, ts);
    }
  }

  lemma {:induction false} MappingComplete(
    fold: Fold, heap: Heap, es: Entries, active: set<nat>, b: Budget, depth: nat, ks: seq<string>, ts: seq<Tree>)
    requires depth <= MAX_DEPTH && |ts| <= MAX_CONTAINER_ITEMS
    requires UnfoldEntries(fold, heap, es, ks, ts)
    requires AllAbove(fold, heap, active, NodesOf(ts))
    requires depth + HeightOf(ts) <= MAX_DEPTH && NodesOf(ts) <= b.remaining
        && 96 + KeysCost(ks) + CostOf(ts) <= b.output
    ensures WalkMapping(fold, heap, es, active, b, depth)
            == Walked(Some(JObject(RenderEntries(ks, ts))),
                      Budget(b.remaining - NodesOf(ts), b.output - 96 - KeysCost(ks) - CostOf(ts)))
    decreases ts, 1
  {
    hide AllAbove, WalkEntries;
    EntriesComplete(fold, heap, es, active, b.(output := b.output - 96), depth, ks, ts);
  }

  lemma {:induction false} ItemsComplete(
    fold: Fold, heap: Heap, vs: seq<Value>, active: set<nat>, b: Budget, depth: nat, ts: seq<Tree>)
    requires depth <= MAX_DEPTH
    requires UnfoldAll(fold, heap, vs, ts)
    requires AllAbove(fold, heap, active, NodesOf(ts))
    requires depth + HeightOf(ts) <= MAX_DEPTH && NodesOf(ts) <= b.remaining && CostOf(ts) <= b.output
    ensures WalkItems(fold, heap, vs, active, b, depth)
            == Walked(Some(RenderAll(ts)), Budget(b.remaining - NodesOf(ts), b.output - CostOf(ts)))
    decreases ts, 0
  {
    hide Walk, AllAbove;
    if ts == [] {
    } else {
      AllAboveShrinks(fold, heap, active, NodesOf(ts), Nodes(ts[0]));
      AllAboveShrinks(fold, heap, active, NodesOf(ts), NodesOf(ts[1..]));
      WalkComplete(fold, heap, vs[0], active, b, depth + 1, ts[0]);
      ItemsComplete(fold, heap, vs[1..], active, Walk(fold, heap, vs[0], active, b, depth + 1).budget, depth, ts[1..]);
    }
  }

  lemma {:induction false} EntriesComplete(
    fold: Fold, heap: Heap, es: Entries, active: set<nat>, b: Budget, depth: nat, ks: seq<string>, ts: seq<Tree>)
    requires depth <= MAX_DEPTH
    requires UnfoldEntries(fold, heap, es, ks, ts)
    requires AllAbove(fold, heap, active, NodesOf(ts))
    requires depth + HeightOf(ts) <= MAX_DEPTH && NodesOf(ts) <= b.remaining && KeysCost(ks) + CostOf(ts) <= b.output
    ensures WalkEntries(fold, heap, es, active, b, depth)
            == Walked(Some(RenderEntries(ks, ts)),
                      Budget(b.remaining - NodesOf(ts), b.output - KeysCost(ks) - CostOf(ts)))
    decreases ts, 0
  {
    hide Walk, AllAbove, TextCost, KeyOk;
    if ts == [] {
    } else {
      AllAboveShrinks(fold, heap, active, NodesOf(ts), Nodes(ts[0]));
      AllAboveShrinks(fold, heap, active, NodesOf(ts), NodesOf(ts[1..]));
      var b0 := b.(output := b.output - TextCost(ks[0]));
      WalkComplete(fold, heap, es[0].1, active, b0, depth + 1, ts[0]);
      EntriesComplete(fold, heap, es[1..], active, Walk(fold, heap, es[0].1, active, b0, depth + 1).budget, depth,
                      ks[1..], ts[1..]);
    }
  }

  // ---------------------------------------------------------------------------
  // Main results
  // ---------------------------------------------------------------------------

  /** v unfolds to t within the depth, node and output budgets. */
  ghost predicate FitsBudget(fold: Fold, heap: Heap, v: Value, b: Budget, t: Tree) {
    && Unfolds(fold, heap, v, t)
    && Height(t) <= MAX_DEPTH && Nodes(t) <= b.remaining && Cost(t) <= b.output
  }

  /**
   Exactness of the walk.  Over any heap the walk succeeds exactly when the value has a finite
   unfolding within the depth, node and output budgets; the result is that unfolding, rendered,
   and the budget pays exactly its nodes and its cost.
   */
  lemma WalkExact(fold: Fold, heap: Heap, v: Value, b: Budget)
    ensures var w := Walk(fold, heap, v, {}, b, 0);
            && (w.value.Some? <==> exists t :: FitsBudget(fold, heap, v, b, t))
            && (forall t | FitsBudget(fold, heap, v, b, t) ::
                  w == Walked(Some(Render(t)), Budget(b.remaining - Nodes(t), b.output - Cost(t))))
  {
    if Walk(fold, heap, v, {}, b, 0).value.Some? {
      var t := WalkSound(fold, heap, v, {}, b, 0);
      assert FitsBudget(fold, heap, v, b, t);
    }
    forall t | FitsBudget(fold, heap, v, b, t)
      ensures Walk(fold, heap, v, {}, b, 0)
              == Walked(Some(Render(t)), Budget(b.remaining - Nodes(t), b.output - Cost(t)))
    {
      WalkComplete(fold, heap, v, {}, b, 0, t);
    }
  }

  /** Consecutive values of p are each directly inside the one before. */
  ghost predicate IsPath(heap: Heap, p: seq<Value>) {
    forall i | 0 <= i < |p| - 1 :: p[i + 1] in Children(heap, p[i])
  }

  lemma {:induction false} DescendPath(fold: Fold, heap: Heap, p: seq<Value>, i: nat, j: nat, t: Tree) returns (u: Tree)
    requires IsPath(heap, p) && i <= j < |p| && Unfolds(fold, heap, p[i], t)
    ensures Unfolds(fold, heap, p[j], u) && Nodes(u) + (j - i) <= Nodes(t)
    decreases j - i
  {
    if i == j {
      u := t;
    } else {
      assert p[i + 1] in Children(heap, p[i]);
      var c :| 0 <= c < |Children(heap, p[i])| && Children(heap, p[i])[c] == p[i + 1];
      ChildrenUnfold(fold, heap, p[i], t);
      ChildIsSmaller(t.children, c);
      u := DescendPath(fold, heap, p, i + 1, j, t.children[c]);
    }
  }

  /** Every graph in which the walk could reach the same object inside itself is rejected. */
  lemma CycleRejected(fold: Fold, heap: Heap, p: seq<Value>, i: nat, j: nat, active: set<nat>, b: Budget, depth: nat)
    requires IsPath(heap, p) && i < j < |p| && p[i] == p[j] && depth <= MAX_DEPTH + 1
    ensures Walk(fold, heap, p[0], active, b, depth).value.None?
  {
    if Walk(fold, heap, p[0], active, b, depth).value.Some? {
      var t := WalkSound(fold, heap, p[0], active, b, depth);
      var u := DescendPath(fold, heap, p, 0, i, t);
      var w := DescendPath(fold, heap, p, i, j, u);
      UnfoldUnique(fold, heap, p[i], u, w);
    }
  }
}
