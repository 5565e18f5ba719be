/**
 The one-pass opcode preflight of tools/audit/firered_checkpoint_metadata.py.  The decoder
 (pickletools.genops) is outside the model: its output is a sequence of positioned opcodes and
 a flag telling whether it ended by raising.
 */
module Preflight {
  import opened Wrappers
  import opened TensorView
  import opened PickleValues

  const MAX_INPUT_BYTES := 512 * 1024
  const MAX_OPCODE_COUNT := 32768
  const MAX_MEMO_ENTRIES := 8192
  const MAX_MEMO_INDEX := 8192

  datatype Item = Item(op: Op, position: nat)

  /** What an opcode adds to the counted mark depth. */
  function MarkEffect(op: Op): int {
    match op
    case Mark => 1
    case MarkTuple | MarkList | MarkDict | SetItems | Appends | AddItems | PopMark => -1
    case _ => 0
  }

  /** What an opcode adds to the counted memo writes. */
  function MemoEffect(op: Op): nat {
    if op.Put? || op.Memoize? then 1 else 0
  }

  const STORAGE_NAMES := ["FloatStorage", "DoubleStorage", "HalfStorage", "BFloat16Storage", "ByteStorage",
                          "CharStorage", "ShortStorage", "IntStorage", "LongStorage", "BoolStorage"]

  /** The decoder hands a GLOBAL argument over as one text: module, space, name. */
  function GlobalArgument(moduleName: string, name: string): string {
    moduleName + " " + name
  }

  predicate GlobalAllowed(argument: string) {
    || argument == GlobalArgument("argparse", "Namespace")
    || argument == GlobalArgument("collections", "OrderedDict")
    || argument == GlobalArgument("torch._utils", "_rebuild_tensor_v2")
    || StorageImport(argument)
  }

  predicate StorageImport(argument: string) {
    exists i | 0 <= i < |STORAGE_NAMES| :: argument == GlobalArgument("torch", STORAGE_NAMES[i])
  }

  /** The checks that look at one opcode only. */
  predicate OpAllowed(item: Item, size: nat) {
    match item.op
    case OtherOpcode(_) => false
    case Proto(_) => item.position == 0
    case Frame(n) => n <= size
    case Global(m, name) => GlobalAllowed(GlobalArgument(m, name))
    case Put(i) => 0 <= i <= MAX_MEMO_INDEX
    case Get(i) => 0 <= i <= MAX_MEMO_INDEX
    case PushText(s) => |s| <= MAX_STRING_BYTES
    case _ => true
  }

  function Marks(items: seq<Item>, k: nat): int
    requires k <= |items|
  {
    if k == 0 then 0 else Marks(items, k - 1) + MarkEffect(items[k - 1].op)
  }

  function MemoWrites(items: seq<Item>, k: nat): nat
    requires k <= |items|
  {
    if k == 0 then 0 else MemoWrites(items, k - 1) + MemoEffect(items[k - 1].op)
  }

  /** One past the position of the last STOP among the first k opcodes. */
  function StopEnd(items: seq<Item>, k: nat): Option<nat>
    requires k <= |items|
  {
    if k == 0 then None
    else if items[k - 1].op.Stop? then Some(items[k - 1].position + 1)
    else StopEnd(items, k - 1)
  }

  /** The first k opcodes pass every check made inside the loop. */
  ghost predicate PrefixClean(items: seq<Item>, size: nat, k: nat)
    requires k <= |items|
  {
    && k <= MAX_OPCODE_COUNT
    && (forall i | 0 <= i < k :: OpAllowed(items[i], size))
    && (forall i | 0 <= i <= k :: 0 <= Marks(items, i) <= MAX_DEPTH)
    && MemoWrites(items, k) <= MAX_MEMO_ENTRIES
  }

  /** The streams the preflight lets through. */
  ghost predicate Accepts(items: seq<Item>, malformed: bool, size: nat) {
    && size <= MAX_INPUT_BYTES
    && !malformed
    && 0 < |items|
    && items[0].op.Proto? && 2 <= items[0].op.version <= 4
    && PrefixClean(items, size, |items|)
    && StopEnd(items, |items|) == Some(size)
    && Marks(items, |items|) == 0
  }

  lemma PrefixCleanShrinks(items: seq<Item>, size: nat, j: nat, k: nat)
    requires j <= k <= |items| && PrefixClean(items, size, k)
    ensures PrefixClean(items, size, j)
    decreases k - j
  {
    if j < k { PrefixCleanShrinks(items, size, j, k - 1); }
  }

  method Check(items: seq<Item>, malformed: bool, size: nat) returns (accepted: bool)
    ensures accepted <==> Accepts(items, malformed, size)
  {
    if size > MAX_INPUT_BYTES {
      return false;
    }
    if |items| == 0 {
      return false;
    }
    if !items[0].op.Proto? || !(2 <= items[0].op.version <= 4) {
      return false;
    }
    var operationCount, memoWrites, markDepth := 0, 0, 0;
    var stopEnd: Option<nat> := None;
    for k := 0 to |items|
      invariant operationCount == k
      invariant memoWrites == MemoWrites(items, k)
      invariant markDepth == Marks(items, k)
      invariant stopEnd == StopEnd(items, k)
      invariant PrefixClean(items, size, k)
    {
      var item := items[k];
      if PrefixClean(items, size, |items|) {
        PrefixCleanShrinks(items, size, k + 1, |items|);
      }
      operationCount := operationCount + 1;
      if operationCount > MAX_OPCODE_COUNT {
        return false;
      }
      if !OpAllowed(item, size) {
        return false;
      }
      memoWrites := memoWrites + MemoEffect(item.op);
      if memoWrites > MAX_MEMO_ENTRIES {
        return false;
      }
      markDepth := markDepth + MarkEffect(item.op);
      assert markDepth == Marks(items, k + 1);
      if markDepth > MAX_DEPTH || markDepth < 0 {
        return false;
      }
      if item.op.Stop? {
        stopEnd := Some(item.position + 1);
      }
    }
    if malformed {
      return false;
    }
    return stopEnd == Some(size) && markDepth == 0;
  }
}
