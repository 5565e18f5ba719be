/**
 The values a restricted unpickler of tools/audit/firered_checkpoint_metadata.py works with,
 and the decoded opcodes that build them.  Everything Python gives an identity that matters
 (list, tuple, dict, set, namespace) is a heap object, so graphs may share and may be cyclic.
 */
module PickleValues {
  import Octets
  import opened Wrappers
  import opened TensorView

  const MAX_CONTAINER_ITEMS := 4096

  predicate NumberChar(c: char) {
    '0' <= c <= '9' || c in {'-', '+', '.', 'e', 'E'}
  }

  predicate FloatForm(s: string) {
    '.' in s || 'e' in s || 'E' in s
  }

  /**
   Shortest decimal text of a finite double: Python's float repr never needs more than 24 characters, and always has a
   point or an exponent.
   */
  type ReprText = s: string | 0 < |s| <= 24 && FloatForm(s) && forall i | 0 <= i < |s| :: NumberChar(s[i])
    witness "0.0"

  datatype Float = Finite(value: real, repr: ReprText) | NonFinite

  datatype Value =
    | NoneValue
    | Bool(b: bool)
    | Int(n: int)
    | FloatValue(f: Float)
    | Str(s: string)
    | Bytes(data: Octets.bytes)
    | Ref(id: nat)
    | NamespaceClass
    | OrderedDictClass
    | TensorReducer
    | StorageType(storageClass: StorageClass)
    | Storage(storage: StorageRef)
    | Tensor(tensor: TensorRef)
    | Foreign(description: string)   // anything imported or computed outside the closed universe

  type Entries = seq<(Value, Value)>

  datatype Object =
    | List(items: seq<Value>)
    | Tuple(items: seq<Value>)
    | Set(items: seq<Value>)
    | Dict(entries: Entries)
    | OrderedDict(entries: Entries, metadata: Option<Value>)   // metadata: the `_metadata` attribute
    | Namespace(entries: Entries)

  type Heap = seq<Object>

  datatype Op =
    | Proto(version: nat)
    | Frame(size: nat)
    | Stop
    | Mark
    | Pop
    | PopMark
    | Dup
    | PushNone
    | PushBool(b: bool)         // NEWTRUE, NEWFALSE
    | PushInt(n: int)           // BININT, BININT1, BININT2, LONG1
    | PushFloat(f: Float)       // BINFLOAT
    | PushText(s: string)       // BINUNICODE, SHORT_BINSTRING, BINSTRING
    | EmptyTuple
    | MarkTuple                 // TUPLE
    | ShortTuple(arity: nat)    // TUPLE1, TUPLE2, TUPLE3
    | EmptyDict
    | MarkDict                  // DICT
    | SetItem
    | SetItems
    | EmptyList
    | MarkList                  // LIST
    | Append
    | Appends
    | EmptySet
    | AddItems
    | Global(moduleName: string, name: string)
    | NewObj
    | Reduce
    | Build
    | Put(index: int)           // BINPUT, LONG_BINPUT, PUT
    | Get(index: int)           // BINGET, LONG_BINGET, GET
    | Memoize
    | BinPersid
    | Persid(pid: string)
    | OtherOpcode(name: string) // every opcode outside the allow list

  // ---------------------------------------------------------------------------
  // The closed inert universe
  // ---------------------------------------------------------------------------

  /** A value of the closed universe over a heap of n objects. */
  ghost predicate Inert(v: Value, n: nat) {
    match v
    case Foreign(_) => false
    case Bytes(_) => false
    case Ref(id) => id < n
    case Str(s) => |s| <= MAX_STRING_BYTES
    case StorageType(c) => ItemBytes(c.dtype) == Some(c.itemBytes)
    case Storage(s) => ValidStorage(s)
    case Tensor(t) => ValidTensor(t)
    case _ => true
  }

  ghost predicate AllInert(vs: seq<Value>, n: nat) {
    forall i | 0 <= i < |vs| :: Inert(vs[i], n)
  }

  ghost predicate EntriesInert(es: Entries, n: nat) {
    forall i | 0 <= i < |es| :: Inert(es[i].0, n) && Inert(es[i].1, n)
  }

  ghost predicate ObjectInert(o: Object, n: nat) {
    match o
    case List(vs) => AllInert(vs, n)
    case Tuple(vs) => AllInert(vs, n)
    case Set(vs) => AllInert(vs, n)
    case Dict(es) => EntriesInert(es, n)
    case OrderedDict(es, m) => EntriesInert(es, n) && (m.Some? ==> Inert(m.value, n))
    case Namespace(es) => EntriesInert(es, n)
  }

  ghost predicate HeapInert(heap: Heap) {
    forall i | 0 <= i < |heap| :: ObjectInert(heap[i], |heap|)
  }

  lemma InertGrows(o: Object, n: nat, m: nat)
    requires ObjectInert(o, n) && n <= m
    ensures ObjectInert(o, m)
  {}
}
