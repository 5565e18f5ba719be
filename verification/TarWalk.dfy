/**
 The header walk `list_tar_contract` of tools/audit/hf_tar_contract.py over an arbitrary range
 reader, with every byte range it touches on record.
 */
module TarWalk {
  import opened Wrappers
  import opened Octets
  import opened TarFields
  import opened Pax

  const MAX_METADATA_BYTES := 1024 * 1024

  const GNU_LONG_NAME: byte := 76
  const GNU_LONG_LINK: byte := 75
  const PAX_LOCAL: byte := 120
  const PAX_GLOBAL: byte := 103

  const PATH_KEY: bytes := [112, 97, 116, 104]
  const SIZE_KEY: bytes := [115, 105, 122, 101]

  /**
   What Python makes of the text in a header: which bytes decode, and what int() makes of the text they decode
   to.  On text int() also takes the digits and spaces of other scripts, so both are left arbitrary.
   */
  datatype Text = Text(valid: Decodable, number: bytes -> Option<int>) {
    /** On ASCII text int() is what it is on the same bytes. */
    ghost predicate AsciiNumbers() {
      forall s: bytes :: Ascii(s) ==> number(s) == PyInt(s)
    }
  }

  predicate Ascii(s: bytes) {
    forall i | 0 <= i < |s| :: s[i] < 128
  }

  /** The range reader: exact bytes, or an exception. */
  type Reader = (int, int) -> Option<bytes>

  datatype Member = Member(name: bytes, typeflag: byte, size: int, headerOffset: int, payloadOffset: int)

  datatype WalkState = WalkState(
    offset: int, zeroBlocks: nat, longName: Option<bytes>, pendingPax: PaxMap, globalPax: PaxMap, members: seq<Member>)

  const START := WalkState(0, 0, None, map[], map[], [])

  /** A byte range the walk reads, or skips as a member's payload. */
  datatype Touch =
    | HeaderRead(offset: int)
    | MetadataRead(offset: int, size: int, typeflag: byte)
    | Payload(offset: int, size: int)

  datatype Move = Done(members: seq<Member>) | Raise | Go(st: WalkState)

  datatype Moved = Moved(move: Move, touches: seq<Touch>)

  function Padded(size: int): int {
    (size + BLOCK_SIZE - 1) / BLOCK_SIZE * BLOCK_SIZE
  }

  function RStripNul(s: bytes): bytes {
    if s != [] && s[|s| - 1] == 0 then RStripNul(s[..|s| - 1]) else s
  }

  predicate IsMetadata(typeflag: byte) {
    typeflag == GNU_LONG_NAME || typeflag == GNU_LONG_LINK || typeflag == PAX_LOCAL || typeflag == PAX_GLOBAL
  }

  /** What a metadata payload leaves pending. */
  function ApplyMetadata(text: Text, st: WalkState, typeflag: byte, payload: bytes): Option<WalkState> {
    if typeflag == GNU_LONG_NAME then
      if text.valid(RStripNul(payload)) then Some(st.(longName := Some(RStripNul(payload)))) else None
    else if typeflag == PAX_LOCAL then
      (match ParseFrom(text.valid, payload, 0, map[]) case None => None case Some(m) => Some(st.(pendingPax := m)))
    else if typeflag == PAX_GLOBAL then
      (match ParseFrom(text.valid, payload, 0, map[])
       case None => None
       case Some(m) => Some(st.(globalPax := st.globalPax + m)))
    else Some(st)
  }

  function StepMetadata(text: Text, read: Reader, st: WalkState, h: Header): Moved {
    var payloadOffset := st.offset + BLOCK_SIZE;
    if h.size > MAX_METADATA_BYTES then Moved(Raise, [])
    else
      var payload := if h.size == 0 then Some([]) else read(payloadOffset, h.size);
      var touches := if h.size == 0 then [] else [MetadataRead(payloadOffset, h.size, h.typeflag)];
      match payload
      case None => Moved(Raise, touches)
      case Some(p) =>
        match ApplyMetadata(text, st, h.typeflag, p)
        case None => Moved(Raise, touches)
        case Some(next) => Moved(Go(next.(offset := payloadOffset + Padded(h.size))), touches)
  }

  function EffectiveName(st: WalkState, h: Header): bytes {
    var effective := st.globalPax + st.pendingPax;
    if PATH_KEY in effective then effective[PATH_KEY]
    else if st.longName.Some? then st.longName.value
    else h.name
  }

  /** The PAX size if one is in effect, else the header's; None when the PAX size is not an integer. */
  function EffectiveSize(text: Text, st: WalkState, h: Header): Option<int> {
    var effective := st.globalPax + st.pendingPax;
    if SIZE_KEY in effective then text.number(effective[SIZE_KEY]) else Some(h.size)
  }

  function StepMember(text: Text, total: int, st: WalkState, h: Header): Moved {
    var payloadOffset := st.offset + BLOCK_SIZE;
    match EffectiveSize(text, st, h)
    case None => Moved(Raise, [])
    case Some(size) =>
      var next := payloadOffset + Padded(size);
      if next > total then Moved(Raise, [])
      else
        var member := Member(EffectiveName(st, h), h.typeflag, size, st.offset, payloadOffset);
        Moved(Go(WalkState(next, st.zeroBlocks, None, map[], st.globalPax, st.members + [member])),
              [Payload(payloadOffset, size)])
  }

  function StepBlock(text: Text, read: Reader, total: int, st: WalkState, block: bytes): Moved {
    if block == Zeros(BLOCK_SIZE) then
      if st.zeroBlocks + 1 == 2 then Moved(Done(st.members), [])
      else Moved(Go(st.(offset := st.offset + BLOCK_SIZE, zeroBlocks := st.zeroBlocks + 1)), [])
    else if st.zeroBlocks > 0 then Moved(Raise, [])
    else
      match ParseHeader(text.valid, block)
      case None => Moved(Raise, [])
      case Some(h) =>
        if st.offset + BLOCK_SIZE + Padded(h.size) > total then Moved(Raise, [])
        else if IsMetadata(h.typeflag) then StepMetadata(text, read, st, h)
        else StepMember(text, total, st, h)
  }

  function Step(text: Text, read: Reader, total: int, st: WalkState): Moved {
    if st.offset + BLOCK_SIZE > total then Moved(Raise, [])
    else
      match read(st.offset, BLOCK_SIZE)
      case None => Moved(Raise, [HeaderRead(st.offset)])
      case Some(block) =>
        var m := StepBlock(text, read, total, st, block);
        Moved(m.move, [HeaderRead(st.offset)] + m.touches)
  }

  // ---------------------------------------------------------------------------
  // The size condition
  // ---------------------------------------------------------------------------

  /** Every member skipped has a size in effect above the bound. */
  ghost predicate SizesAbove(log: seq<Touch>, bound: int) {
    forall i | 0 <= i < |log| && log[i].Payload? :: log[i].size > bound
  }

  /** A size in effect that still moves the walk past the member's header. */
  ghost predicate AllMove(log: seq<Touch>) {
    SizesAbove(log, -BLOCK_SIZE)
  }

  lemma SizesAboveConcat(a: seq<Touch>, b: seq<Touch>, bound: int)
    ensures SizesAbove(a + b, bound) <==> SizesAbove(a, bound) && SizesAbove(b, bound)
  {
    var c := a + b;
    if SizesAbove(c, bound) {
      forall i | 0 <= i < |a| && a[i].Payload? ensures a[i].size > bound { assert c[i] == a[i]; }
      forall i | 0 <= i < |b| && b[i].Payload? ensures b[i].size > bound { assert c[|a| + i] == b[i]; }
    }
  }

  lemma HeaderSizeNonNegative(text: Text, block: bytes)
    ensures ParseHeader(text.valid, block).Some? ==> ParseHeader(text.valid, block).value.size >= 0
  {
    if |block| == BLOCK_SIZE { TarNumberNonNegative(block[124..136]); }
  }

  /**
   A step advances by a block at least exactly when the size in effect for the member it skips, if any, is
   above -512.
   */
  lemma StepProgress(text: Text, read: Reader, total: int, st: WalkState)
    ensures var m := Step(text, read, total, st);
            m.move.Go? ==> (m.move.st.offset >= st.offset + BLOCK_SIZE <==> AllMove(m.touches))
  {
    hide ParseHeader, ApplyMetadata, EffectiveSize, EffectiveName;
    var m := Step(text, read, total, st);
    if m.move.Go? {
      var block := read(st.offset, BLOCK_SIZE).value;
      HeaderSizeNonNegative(text, block);
      var b := StepBlock(text, read, total, st, block);
      SizesAboveConcat([HeaderRead(st.offset)], b.touches, -BLOCK_SIZE);
      if block != Zeros(BLOCK_SIZE) {
        var h := ParseHeader(text.valid, block).value;
        if IsMetadata(h.typeflag) {
          MetadataProgress(text, read, st, h);
        } else {
          MemberProgress(text, total, st, h);
        }
      }
    }
  }

  lemma MetadataProgress(text: Text, read: Reader, st: WalkState, h: Header)
    requires h.size >= 0
    ensures var m := StepMetadata(text, read, st, h);
            AllMove(m.touches) && (m.move.Go? ==> m.move.st.offset >= st.offset + BLOCK_SIZE)
  {
    hide ApplyMetadata;
  }

  lemma MemberProgress(text: Text, total: int, st: WalkState, h: Header)
    ensures var m := StepMember(text, total, st, h);
            m.move.Go? ==> (m.move.st.offset >= st.offset + BLOCK_SIZE <==> AllMove(m.touches))
  {
    hide EffectiveSize, EffectiveName;
    var m := StepMember(text, total, st, h);
    if m.move.Go? {
      var size := EffectiveSize(text, st, h).value;
      assert m.touches == [Payload(st.offset + BLOCK_SIZE, size)];
      assert m.touches[0].Payload? && (AllMove(m.touches) <==> size > -BLOCK_SIZE);
    }
  }

  // ---------------------------------------------------------------------------
  // Where the sizes in effect come from
  // ---------------------------------------------------------------------------

  /** A PAX map states no size of the bound or less. */
  predicate MapAbove(text: Text, m: PaxMap, bound: int) {
    SIZE_KEY in m && text.number(m[SIZE_KEY]).Some? ==> text.number(m[SIZE_KEY]).value > bound
  }

  predicate PayloadAbove(text: Text, payload: bytes, bound: int) {
    var parsed := ParseFrom(text.valid, payload, 0, map[]);
    parsed.Some? ==> MapAbove(text, parsed.value, bound)
  }

  /** No PAX header among the ranges read states a size of the bound or less. */
  ghost predicate StatedAbove(text: Text, read: Reader, log: seq<Touch>, bound: int) {
    forall i | 0 <= i < |log| && log[i].MetadataRead? && log[i].typeflag in {PAX_LOCAL, PAX_GLOBAL} ::
      read(log[i].offset, log[i].size).Some? ==> PayloadAbove(text, read(log[i].offset, log[i].size).value, bound)
  }

  lemma StatedAboveConcat(text: Text, read: Reader, a: seq<Touch>, b: seq<Touch>, bound: int)
    requires StatedAbove(text, read, a + b, bound)
    ensures StatedAbove(text, read, a, bound) && StatedAbove(text, read, b, bound)
  {
    hide PayloadAbove;
    var c := a + b;
    forall i | 0 <= i < |a| && a[i].MetadataRead? && a[i].typeflag in {PAX_LOCAL, PAX_GLOBAL}
      ensures read(a[i].offset, a[i].size).Some? ==> PayloadAbove(text, read(a[i].offset, a[i].size).value, bound)
    {
      assert c[i] == a[i];
    }
    forall i | 0 <= i < |b| && b[i].MetadataRead? && b[i].typeflag in {PAX_LOCAL, PAX_GLOBAL}
      ensures read(b[i].offset, b[i].size).Some? ==> PayloadAbove(text, read(b[i].offset, b[i].size).value, bound)
    {
      assert c[|a| + i] == b[i];
    }
  }

  /** One step keeps the pending sizes above the bound, and so the size it skips. */
  lemma StepAbove(text: Text, read: Reader, total: int, st: WalkState, bound: int)
    requires bound < 0 && MapAbove(text, st.globalPax, bound) && MapAbove(text, st.pendingPax, bound)
    requires StatedAbove(text, read, Step(text, read, total, st).touches, bound)
    ensures var m := Step(text, read, total, st);
            && SizesAbove(m.touches, bound)
            && (m.move.Go? ==>
                  MapAbove(text, m.move.st.globalPax, bound) && MapAbove(text, m.move.st.pendingPax, bound))
  {
    hide ParseHeader, ParseFrom, StepMetadata, StepMember, MapAbove, StatedAbove;
    if st.offset + BLOCK_SIZE <= total && read(st.offset, BLOCK_SIZE).Some? {
      var block := read(st.offset, BLOCK_SIZE).value;
      HeaderSizeNonNegative(text, block);
      var b := StepBlock(text, read, total, st, block);
      StatedAboveConcat(text, read, [HeaderRead(st.offset)], b.touches, bound);
      SizesAboveConcat([HeaderRead(st.offset)], b.touches, bound);
      if block != Zeros(BLOCK_SIZE) && ParseHeader(text.valid, block).Some? {
        var h := ParseHeader(text.valid, block).value;
        if b == StepMetadata(text, read, st, h) {
          MetadataAbove(text, read, st, h, bound);
        }
        MemberAbove(text, total, st, h, bound);
      }
    }
  }

  lemma MetadataAbove(text: Text, read: Reader, st: WalkState, h: Header, bound: int)
    requires bound < 0 && MapAbove(text, st.globalPax, bound) && MapAbove(text, st.pendingPax, bound)
    requires StatedAbove(text, read, StepMetadata(text, read, st, h).touches, bound)
    ensures var m := StepMetadata(text, read, st, h);
            && SizesAbove(m.touches, bound)
            && (m.move.Go? ==>
                  MapAbove(text, m.move.st.globalPax, bound) && MapAbove(text, m.move.st.pendingPax, bound))
  {
    hide RStripNul;
    var m := StepMetadata(text, read, st, h);
    if m.move.Go? && h.typeflag in {PAX_LOCAL, PAX_GLOBAL} {
      if h.size == 0 {
        assert ParseFrom(text.valid, [], 0, map[]) == Some(map[]);
      } else {
        assert m.touches[0] == MetadataRead(st.offset + BLOCK_SIZE, h.size, h.typeflag);
        assert PayloadAbove(text, read(st.offset + BLOCK_SIZE, h.size).value, bound);
      }
    }
  }

  lemma MemberAbove(text: Text, total: int, st: WalkState, h: Header, bound: int)
    requires bound < 0 && MapAbove(text, st.globalPax, bound) && MapAbove(text, st.pendingPax, bound) && h.size >= 0
    ensures var m := StepMember(text, total, st, h);
            && SizesAbove(m.touches, bound)
            && (m.move.Go? ==>
                  MapAbove(text, m.move.st.globalPax, bound) && MapAbove(text, m.move.st.pendingPax, bound))
  {}

  // ---------------------------------------------------------------------------
  // Safety over whole runs
  // ---------------------------------------------------------------------------

  function Begin(t: Touch): int {
    t.offset
  }

  function End(t: Touch): int {
    match t
    case HeaderRead(o) => o + BLOCK_SIZE
    case MetadataRead(o, n, _) => o + n
    case Payload(o, n) => o + n
  }

  /**
   The ranges lie in order without overlap between 0 and limit, each starting on a block, metadata reads
   of 1 to 2^20 bytes.  A payload whose size in effect is negative covers no byte.
   */
  ghost predicate WellPlaced(log: seq<Touch>, limit: int) {
    && (forall i | 0 <= i < |log| ::
          && 0 <= Begin(log[i]) <= limit && End(log[i]) <= limit
          && Begin(log[i]) % BLOCK_SIZE == 0
          && (log[i].MetadataRead? ==> 0 < log[i].size <= MAX_METADATA_BYTES))
    && forall i, j | 0 <= i < j < |log| :: Begin(log[i]) <= Begin(log[j]) && End(log[i]) <= Begin(log[j])
  }

  /** The payload ranges of a log, in order. */
  function Payloads(log: seq<Touch>): seq<(int, int)> {
    if log == [] then []
    else if log[0].Payload? then [(log[0].offset, log[0].size)] + Payloads(log[1..])
    else Payloads(log[1..])
  }

  lemma {:induction false} PayloadsConcat(a: seq<Touch>, b: seq<Touch>)
    ensures Payloads(a + b) == Payloads(a) + Payloads(b)
  {
    if a == [] {
      assert a + b == b;
    } else {
      assert (a + b)[1..] == a[1..] + b;
      PayloadsConcat(a[1..], b);
    }
  }

  function Extents(members: seq<Member>): seq<(int, int)> {
    seq(|members|, i requires 0 <= i < |members| => (members[i].payloadOffset, members[i].size))
  }

  ghost predicate StateOk(st: WalkState, total: int) {
    0 <= st.offset <= total && st.offset % BLOCK_SIZE == 0
  }

  lemma PaddedBounds(size: int)
    requires size > -BLOCK_SIZE
    ensures Padded(size) >= size && Padded(size) >= 0 && Padded(size) % BLOCK_SIZE == 0
  {}

  /** What one step touches, and where it leaves the walk. */
  ghost predicate StepOk(st: WalkState, total: int, m: Moved) {
    && WellPlaced(m.touches, total)
    && (forall i | 0 <= i < |m.touches| :: st.offset <= Begin(m.touches[i]))
    && match m.move
       case Go(next) =>
         && StateOk(next, total) && next.offset >= st.offset + BLOCK_SIZE
         && WellPlaced(m.touches, next.offset)
         && Extents(next.members) == Extents(st.members) + Payloads(m.touches)
       case Done(ms) => ms == st.members && Payloads(m.touches) == []
       case Raise => Payloads(m.touches) == []
  }

  lemma MetadataStepOk(text: Text, read: Reader, total: int, st: WalkState, h: Header)
    requires StateOk(st, total) && h.size >= 0 && st.offset + BLOCK_SIZE + Padded(h.size) <= total
    ensures var m := StepMetadata(text, read, st, h); StepOk(st, total, m)
    ensures var m := StepMetadata(text, read, st, h);
            |m.touches| <= 1 && (m.touches != [] ==> Begin(m.touches[0]) == st.offset + BLOCK_SIZE)
  {
    hide ApplyMetadata;
    PaddedBounds(h.size);
    MetadataKeepsMembers(text, read, st, h);
    var m := StepMetadata(text, read, st, h);
    if m.touches != [] {
      assert m.touches == [MetadataRead(st.offset + BLOCK_SIZE, h.size, h.typeflag)];
      assert m.touches[1..] == [];
    }
    assert Payloads(m.touches) == [];
    assert Extents(st.members) + [] == Extents(st.members);
  }

  lemma MetadataKeepsMembers(text: Text, read: Reader, st: WalkState, h: Header)
    ensures var m := StepMetadata(text, read, st, h).move; m.Go? ==> m.st.members == st.members
    ensures !StepMetadata(text, read, st, h).move.Done?
  {
    hide ParseFrom;
  }

  lemma MemberStepOk(text: Text, total: int, st: WalkState, h: Header)
    requires StateOk(st, total) && AllMove(StepMember(text, total, st, h).touches)
    ensures var m := StepMember(text, total, st, h); StepOk(st, total, m)
    ensures var m := StepMember(text, total, st, h);
            |m.touches| <= 1 && (m.touches != [] ==> Begin(m.touches[0]) == st.offset + BLOCK_SIZE)
  {
    hide EffectiveName, EffectiveSize;
    var m := StepMember(text, total, st, h);
    if m.touches != [] {
      assert m.touches[0].Payload?;
      PaddedBounds(EffectiveSize(text, st, h).value);
      assert m.touches[1..] == [];
      assert Payloads(m.touches) == [(st.offset + BLOCK_SIZE, EffectiveSize(text, st, h).value)];
      assert Extents(m.move.st.members) == Extents(st.members)
          + [(st.offset + BLOCK_SIZE, EffectiveSize(text, st, h).value)];
    }
  }

  lemma PrefixTouch(st: WalkState, total: int, m: Moved)
    requires StateOk(st, total) && st.offset + BLOCK_SIZE <= total
    requires StepOk(st, total, m)
    requires |m.touches| <= 1 && (m.touches != [] ==> Begin(m.touches[0]) == st.offset + BLOCK_SIZE)
    ensures StepOk(st, total, Moved(m.move, [HeaderRead(st.offset)] + m.touches))
  {
    var t := [HeaderRead(st.offset)] + m.touches;
    assert t[1..] == m.touches;
    assert Payloads(t) == Payloads(m.touches);
    PrefixPlaced(st, m.touches, total);
    if m.move.Go? { PrefixPlaced(st, m.touches, m.move.st.offset); }
  }

  lemma PrefixPlaced(st: WalkState, touches: seq<Touch>, limit: int)
    requires 0 <= st.offset && st.offset % BLOCK_SIZE == 0 && st.offset + BLOCK_SIZE <= limit
    requires WellPlaced(touches, limit)
    requires |touches| <= 1 && (touches != [] ==> Begin(touches[0]) == st.offset + BLOCK_SIZE)
    ensures WellPlaced([HeaderRead(st.offset)] + touches, limit)
  {}

  lemma BlockStepOk(text: Text, read: Reader, total: int, st: WalkState, block: bytes)
    requires StateOk(st, total) && st.offset + BLOCK_SIZE <= total
    requires AllMove(StepBlock(text, read, total, st, block).touches)
    ensures var m := StepBlock(text, read, total, st, block);
            && StepOk(st, total, m)
            && |m.touches| <= 1 && (m.touches != [] ==> Begin(m.touches[0]) == st.offset + BLOCK_SIZE)
  {
    hide StepMetadata, StepMember, ParseHeader, StepOk, AllMove;
    var m := StepBlock(text, read, total, st, block);
    HeaderSizeNonNegative(text, block);
    if block == Zeros(BLOCK_SIZE) || st.zeroBlocks > 0 || ParseHeader(text.valid, block).None? {
      PlainStepOk(st, total, m);
    } else {
      var h := ParseHeader(text.valid, block).value;
      if st.offset + BLOCK_SIZE + Padded(h.size) > total {
        PlainStepOk(st, total, m);
      } else if IsMetadata(h.typeflag) {
        MetadataStepOk(text, read, total, st, h);
      } else {
        MemberStepOk(text, total, st, h);
      }
    }
  }

  lemma StepIsOk(text: Text, read: Reader, total: int, st: WalkState)
    requires StateOk(st, total) && AllMove(Step(text, read, total, st).touches)
    ensures StepOk(st, total, Step(text, read, total, st))
  {
    hide StepBlock, StepOk, SizesAbove;
    if st.offset + BLOCK_SIZE > total {
      PlainStepOk(st, total, Moved(Raise, []));
    } else if read(st.offset, BLOCK_SIZE).None? {
      PlainStepOk(st, total, Moved(Raise, []));
      PrefixTouch(st, total, Moved(Raise, []));
      assert [HeaderRead(st.offset)] + [] == [HeaderRead(st.offset)];
    } else {
      var block := read(st.offset, BLOCK_SIZE).value;
      SizesAboveConcat([HeaderRead(st.offset)], StepBlock(text, read, total, st, block).touches, -BLOCK_SIZE);
      BlockStepOk(text, read, total, st, block);
      PrefixTouch(st, total, StepBlock(text, read, total, st, block));
    }
  }

  lemma PlainStepOk(st: WalkState, total: int, m: Moved)
    requires StateOk(st, total)
    requires m.touches == []
    requires m.move == Raise || m.move == Done(st.members)
             || (st.offset + BLOCK_SIZE <= total
                 && m.move == Go(st.(offset := st.offset + BLOCK_SIZE, zeroBlocks := st.zeroBlocks + 1)))
    ensures StepOk(st, total, m)
  {
    assert Extents(st.members) + [] == Extents(st.members);
  }
}
