/**
 Reading back what a writer of IEEE Std 1003.1 `pax` archives, or GNU tar, puts down: names in
 ustar fields, GNU long-name members or PAX headers; sizes in octal, base-256 or PAX records.
 */
module TarRoundTrip {
  import opened Wrappers
  import opened Octets
  import opened TarFields
  import opened Pax
  import opened TarWalk
  import opened TarRun

  // ---------------------------------------------------------------------------
  // The writer
  // ---------------------------------------------------------------------------

  datatype Kind =
    | LongName(name: bytes)
    | LongLink(target: bytes)
    | Local(kvs: seq<(bytes, bytes)>)
    | Global(kvs: seq<(bytes, bytes)>)

  /** A metadata member: what it says, inside a header whose other fields are arbitrary. */
  datatype Metadata = Metadata(kind: Kind, frame: RawHeader)

  /** A member preceded by its metadata members. */
  datatype Entry = Entry(metas: seq<Metadata>, header: RawHeader, payload: bytes)

  function Typeflag(k: Kind): byte {
    match k
    case LongName(_) => GNU_LONG_NAME
    case LongLink(_) => GNU_LONG_LINK
    case Local(_) => PAX_LOCAL
    case Global(_) => PAX_GLOBAL
  }

  function KindPayload(k: Kind): bytes {
    match k
    case LongName(n) => n + [0]
    case LongLink(t) => t + [0]
    case Local(kvs) => RecordsText(WrittenAll(kvs))
    case Global(kvs) => RecordsText(WrittenAll(kvs))
  }

  function Blocks(payload: bytes): (r: bytes)
    ensures |r| == Padded(|payload|)
  {
    PaddedBounds(|payload|);
    payload + Zeros(Padded(|payload|) - |payload|)
  }

  predicate NamesDecodable(text: Text, h: RawHeader) {
    text.valid(h.name) && text.valid(h.prefix)
  }

  ghost predicate KindOk(text: Text, k: Kind) {
    && |KindPayload(k)| <= MAX_METADATA_BYTES
    && match k
       case LongName(n) => text.valid(n) && (n != [] ==> n[|n| - 1] != 0)
       case LongLink(_) => true
       case Local(kvs) => KeysOk(text.valid, kvs)
       case Global(kvs) => KeysOk(text.valid, kvs)
  }

  ghost predicate MetadataOk(text: Text, m: Metadata) {
    NamesDecodable(text, m.frame) && KindOk(text, m.kind)
  }

  function MetadataHeader(m: Metadata): RawHeader {
    m.frame.(typeflag := Typeflag(m.kind), sizeField := OctalField(|KindPayload(m.kind)|, 12))
  }

  function EncodeMetadata(m: Metadata): bytes
  {
    EncodeHeader(MetadataHeader(m)) + Blocks(KindPayload(m.kind))
  }

  function EncodeMetas(ms: seq<Metadata>): bytes
  {
    if ms == [] then [] else EncodeMetadata(ms[0]) + EncodeMetas(ms[1..])
  }

  // ---------------------------------------------------------------------------
  // What the metadata before a member means
  // ---------------------------------------------------------------------------

  datatype Pending = Pending(longName: Option<bytes>, local: PaxMap, global: PaxMap)

  function Attributes(kvs: seq<(bytes, bytes)>): PaxMap {
    LastWins(WrittenAll(kvs), map[])
  }

  function Applied(p: Pending, k: Kind): Pending {
    match k
    case LongName(n) => p.(longName := Some(n))
    case LongLink(_) => p
    case Local(kvs) => p.(local := Attributes(kvs))
    case Global(kvs) => p.(global := p.global + Attributes(kvs))
  }

  function AppliedAll(p: Pending, ms: seq<Metadata>): Pending
    decreases |ms|
  {
    if ms == [] then p else AppliedAll(Applied(p, ms[0].kind), ms[1..])
  }

  /** What an entry's own metadata leaves in effect over the globals so far; nothing else enters. */
  function InEffect(e: Entry, global: PaxMap): Pending {
    AppliedAll(Pending(None, map[], global), e.metas)
  }

  function FullName(h: RawHeader): bytes {
    if h.prefix != [] then h.prefix + [SLASH] + h.name else h.name
  }

  /** A PAX path over a GNU long name over the ustar name. */
  function ExpectedName(p: Pending, h: RawHeader): bytes {
    var effective := p.global + p.local;
    if PATH_KEY in effective then effective[PATH_KEY] else if p.longName.Some? then p.longName.value else FullName(h)
  }

  function ExpectedMember(e: Entry, p: Pending, offset: int): Member {
    Member(ExpectedName(p, e.header), TypeOf(e.header), |e.payload|, offset, offset + BLOCK_SIZE)
  }

  /** The stated size is the payload's: a PAX size if one is in effect, otherwise the header's. */
  predicate SizeStated(text: Text, e: Entry, p: Pending) {
    var effective := p.global + p.local;
    var field := TarNumber(e.header.sizeField);
    && field.Some? && Padded(field.value) <= Padded(|e.payload|)
    && if SIZE_KEY in effective then text.number(effective[SIZE_KEY]) == Some(|e.payload|)
      else field.value == |e.payload|
  }

  ghost predicate EntryOk(text: Text, e: Entry, global: PaxMap) {
    && (forall i | 0 <= i < |e.metas| :: MetadataOk(text, e.metas[i]))
    && NamesDecodable(text, e.header) && !IsMetadata(e.header.typeflag)
    && SizeStated(text, e, InEffect(e, global))
  }

  function EncodeMember(e: Entry): bytes
  {
    EncodeHeader(e.header) + Blocks(e.payload)
  }

  function EncodeEntry(e: Entry): bytes {
    EncodeMetas(e.metas) + EncodeMember(e)
  }

  ghost predicate EntriesOk(text: Text, es: seq<Entry>, global: PaxMap) {
    es != [] ==> EntryOk(text, es[0], global) && EntriesOk(text, es[1..], InEffect(es[0], global).global)
  }

  function EncodeEntries(es: seq<Entry>): bytes {
    if es == [] then [] else EncodeEntry(es[0]) + EncodeEntries(es[1..])
  }

  /** The members the entries describe, starting at an offset: only the globals pass from one to the next. */
  function ExpectedMembers(es: seq<Entry>, global: PaxMap, offset: int): seq<Member> {
    if es == [] then []
    else
      var p := InEffect(es[0], global);
      [ExpectedMember(es[0], p, offset + |EncodeMetas(es[0].metas)|)]
      + ExpectedMembers(es[1..], p.global, offset + |EncodeEntry(es[0])|)
  }

  // ---------------------------------------------------------------------------
  // One step over one written member
  // ---------------------------------------------------------------------------

  /** A reader of an archive held in memory. */
  function ReaderOf(data: bytes): Reader {
    (o: int, n: int) => if 0 <= o && 0 <= n && o + n <= |data| then Some(data[o..o + n]) else None
  }

  function Resumed(st: WalkState, p: Pending, offset: int): WalkState {
    st.(offset := offset, longName := p.longName, pendingPax := p.local, globalPax := p.global)
  }

  function PendingOf(st: WalkState): Pending {
    Pending(st.longName, st.pendingPax, st.globalPax)
  }

  lemma StripOne(n: bytes)
    requires n != [] ==> n[|n| - 1] != 0
    ensures RStripNul(n + [0]) == n
  {
    assert (n + [0])[..|n|] == n;
  }

  lemma KindApplies(text: Text, st: WalkState, k: Kind)
    requires KindOk(text, k)
    ensures ApplyMetadata(text, st, Typeflag(k), KindPayload(k))
        == Some(Resumed(st, Applied(PendingOf(st), k), st.offset))
  {
    hide ParseFrom, RecordsText, WrittenAll, LastWins;
    match k
    case LongName(n) => StripOne(n);
    case LongLink(_) =>
    case Local(kvs) => PaxRead(text, kvs);
    case Global(kvs) => PaxRead(text, kvs);
  }

  lemma PaxRead(text: Text, kvs: seq<(bytes, bytes)>)
    requires KeysOk(text.valid, kvs) && |RecordsText(WrittenAll(kvs))| <= MAX_METADATA_BYTES
    ensures ParseFrom(text.valid, RecordsText(WrittenAll(kvs)), 0, map[]) == Some(Attributes(kvs))
  {
    hide RecordsText, WrittenAll, LengthsReadable;
    assert Pow10(4) == 10_000 && Pow10(7) == 10_000_000;
    ShortIsReadable(kvs);
    PaxRoundTrip(text.valid, kvs);
  }

  lemma MetadataHeaderRead(text: Text, m: Metadata)
    requires MetadataOk(text, m)
    ensures EncodeHeader(MetadataHeader(m)) != Zeros(BLOCK_SIZE)
    ensures ParseHeader(text.valid, EncodeHeader(MetadataHeader(m))) ==
            Some(Header(FullName(m.frame), |KindPayload(m.kind)|, Typeflag(m.kind)))
  {
    hide KindPayload, ParseHeader, EncodeHeader;
    var n := |KindPayload(m.kind)|;
    assert Pow8(4) == 4096;
    assert Pow8(11) == 4096 * 4096 * 512;
    OctalRoundTrip(n, 12);
    HeaderRoundTrip(text.valid, MetadataHeader(m));
  }

  /** The bytes of `x` start at `o`. */
  predicate At(data: bytes, o: int, x: bytes) {
    0 <= o && o + |x| <= |data| && data[o..o + |x|] == x
  }

  lemma AtParts(data: bytes, o: int, x: bytes, y: bytes)
    requires At(data, o, x + y)
    ensures At(data, o, x) && At(data, o + |x|, y)
  {
    var z := data[o..o + |x + y|];
    assert data[o..o + |x|] == z[..|x|] == x;
    assert data[o + |x|..o + |x| + |y|] == z[|x|..] == y;
  }

  lemma MetadataStep(text: Text, data: bytes, st: WalkState, m: Metadata)
    requires MetadataOk(text, m) && st.zeroBlocks == 0
    requires At(data, st.offset, EncodeMetadata(m))
    ensures Step(text, ReaderOf(data), |data|, st).move ==
            Go(Resumed(st, Applied(PendingOf(st), m.kind), st.offset + |EncodeMetadata(m)|))
  {
    hide KindPayload, ParseHeader, EncodeHeader, ApplyMetadata, Applied, MetadataHeader, Padded;
    var head, payload := EncodeHeader(MetadataHeader(m)), KindPayload(m.kind);
    MetadataHeaderRead(text, m);
    AtParts(data, st.offset, head, Blocks(payload));
    AtParts(data, st.offset + BLOCK_SIZE, payload, Zeros(Padded(|payload|) - |payload|));
    KindApplies(text, st, m.kind);
    assert IsMetadata(Typeflag(m.kind));
  }

  lemma MemberStep(text: Text, data: bytes, st: WalkState, e: Entry)
    requires NamesDecodable(text, e.header) && !IsMetadata(e.header.typeflag)
    requires SizeStated(text, e, PendingOf(st)) && st.zeroBlocks == 0
    requires At(data, st.offset, EncodeMember(e))
    ensures Step(text, ReaderOf(data), |data|, st).move ==
            Go(WalkState(st.offset + |EncodeMember(e)|, 0, None, map[], st.globalPax,
                         st.members + [ExpectedMember(e, PendingOf(st), st.offset)]))
  {
    hide ParseHeader, EncodeHeader, TarNumber, Padded;
    HeaderRoundTrip(text.valid, e.header);
    AtParts(data, st.offset, EncodeHeader(e.header), Blocks(e.payload));
  }

  // ---------------------------------------------------------------------------
  // Whole archives
  // ---------------------------------------------------------------------------

  lemma {:induction false} RunCompose(text: Text, read: Reader, total: int, st: WalkState, j: nat, k: nat)
    requires RunFrom(text, read, total, st, j).move.Go?
    ensures RunFrom(text, read, total, st, j + k).move ==
            RunFrom(text, read, total, RunFrom(text, read, total, st, j).move.st, k).move
    decreases j
  {
    hide Step;
    if j == 0 {
    } else {
      RunCompose(text, read, total, Step(text, read, total, st).move.st, j - 1, k);
    }
  }

  lemma OneStepRun(text: Text, read: Reader, total: int, st: WalkState)
    ensures RunFrom(text, read, total, st, 1).move == Step(text, read, total, st).move
  {
    hide Step;
  }

  lemma {:induction false} MetasRun(text: Text, data: bytes, st: WalkState, ms: seq<Metadata>)
    requires forall i | 0 <= i < |ms| :: MetadataOk(text, ms[i])
    requires st.zeroBlocks == 0 && At(data, st.offset, EncodeMetas(ms))
    ensures RunFrom(text, ReaderOf(data), |data|, st, |ms|).move ==
            Go(Resumed(st, AppliedAll(PendingOf(st), ms), st.offset + |EncodeMetas(ms)|))
    decreases |ms|
  {
    hide Step, EncodeMetadata, At, MetadataOk, Applied;
    if ms == [] {
    } else {
      AtParts(data, st.offset, EncodeMetadata(ms[0]), EncodeMetas(ms[1..]));
      MetadataStep(text, data, st, ms[0]);
      var next := Resumed(st, Applied(PendingOf(st), ms[0].kind), st.offset + |EncodeMetadata(ms[0])|);
      MetasRun(text, data, next, ms[1..]);
    }
  }

  function StepsOf(es: seq<Entry>): nat {
    if es == [] then 0 else |es[0].metas| + 1 + StepsOf(es[1..])
  }

  lemma EntryRun(text: Text, data: bytes, offset: int, global: PaxMap, members: seq<Member>, e: Entry)
    requires EntryOk(text, e, global)
    requires At(data, offset, EncodeEntry(e))
    ensures var p := InEffect(e, global);
            var st := WalkState(offset, 0, None, map[], global, members);
            RunFrom(text, ReaderOf(data), |data|, st, |e.metas| + 1).move ==
            Go(WalkState(offset + |EncodeEntry(e)|, 0, None, map[], p.global,
                         members + [ExpectedMember(e, p, offset + |EncodeMetas(e.metas)|)]))
  {
    hide Step, RunFrom, EncodeMetas, EncodeMember, At, MetadataOk, SizeStated, AppliedAll;
    var read, total := ReaderOf(data), |data|;
    var st := WalkState(offset, 0, None, map[], global, members);
    AtParts(data, offset, EncodeMetas(e.metas), EncodeMember(e));
    MetasRun(text, data, st, e.metas);
    var middle := Resumed(st, InEffect(e, global), offset + |EncodeMetas(e.metas)|);
    assert PendingOf(middle) == InEffect(e, global);
    MemberStep(text, data, middle, e);
    OneStepRun(text, read, total, middle);
    RunCompose(text, read, total, st, |e.metas|, 1);
  }

  lemma {:induction false} EntriesRun(
    text: Text, data: bytes, offset: int, global: PaxMap, members: seq<Member>, es: seq<Entry>)
    requires EntriesOk(text, es, global)
    requires At(data, offset, EncodeEntries(es) + Zeros(2 * BLOCK_SIZE))
    ensures var st := WalkState(offset, 0, None, map[], global, members);
            RunFrom(text, ReaderOf(data), |data|, st, StepsOf(es) + 2).move ==
            Done(members + ExpectedMembers(es, global, offset))
    decreases |es|
  {
    hide Step, RunFrom, EncodeEntry, ExpectedMember, EntryOk, InEffect, At, EncodeEntries, ReaderOf, Zeros, EncodeMetas;
    if es == [] {
      NoEntries(es);
      EndRun(text, data, WalkState(offset, 0, None, map[], global, members));
      assert members + [] == members;
    } else {
      FirstEntryRun(text, data, offset, global, members, es, Zeros(2 * BLOCK_SIZE));
      var p := InEffect(es[0], global);
      var m := ExpectedMember(es[0], p, offset + |EncodeMetas(es[0].metas)|);
      EntriesRun(text, data, offset + |EncodeEntry(es[0])|, p.global, members + [m], es[1..]);
      assert (members + [m]) + ExpectedMembers(es[1..], p.global, offset + |EncodeEntry(es[0])|)
             == members + ExpectedMembers(es, global, offset);
    }
  }

  lemma NoEntries(es: seq<Entry>)
    requires es == []
    ensures EncodeEntries(es) + Zeros(2 * BLOCK_SIZE) == Zeros(2 * BLOCK_SIZE)
  {}

  lemma EntriesSplit(es: seq<Entry>, end: bytes)
    requires es != []
    ensures EncodeEntries(es) + end == EncodeEntry(es[0]) + (EncodeEntries(es[1..]) + end)
  {
    hide EncodeEntry;
    var first, rest := EncodeEntry(es[0]), EncodeEntries(es[1..]);
    assert (first + rest) + end == first + (rest + end);
  }

  /** Running over the first of several entries leaves the run over the rest. */
  lemma FirstEntryRun(text: Text, data: bytes, offset: int, global: PaxMap, members: seq<Member>, es: seq<Entry>,
                      end: bytes)
    requires es != [] && EntryOk(text, es[0], global)
    requires At(data, offset, EncodeEntries(es) + end)
    ensures At(data, offset + |EncodeEntry(es[0])|, EncodeEntries(es[1..]) + end)
    ensures var p := InEffect(es[0], global);
            var m := ExpectedMember(es[0], p, offset + |EncodeMetas(es[0].metas)|);
            var st := WalkState(offset, 0, None, map[], global, members);
            var next := WalkState(offset + |EncodeEntry(es[0])|, 0, None, map[], p.global, members + [m]);
            RunFrom(text, ReaderOf(data), |data|, st, StepsOf(es) + 2).move ==
            RunFrom(text, ReaderOf(data), |data|, next, StepsOf(es[1..]) + 2).move
  {
    hide *;
    EntriesSplit(es, end);
    AtParts(data, offset, EncodeEntry(es[0]), EncodeEntries(es[1..]) + end);
    EntryRun(text, data, offset, global, members, es[0]);
    assert StepsOf(es) + 2 == |es[0].metas| + 1 + (StepsOf(es[1..]) + 2) by { StepsSplit(es); }
    RunCompose(text, ReaderOf(data), |data|, WalkState(offset, 0, None, map[], global, members),
               |es[0].metas| + 1, StepsOf(es[1..]) + 2);
  }

  lemma StepsSplit(es: seq<Entry>)
    requires es != []
    ensures StepsOf(es) == |es[0].metas| + 1 + StepsOf(es[1..])
  {}

  lemma EndRun(text: Text, data: bytes, st: WalkState)
    requires st.zeroBlocks == 0 && At(data, st.offset, Zeros(2 * BLOCK_SIZE))
    ensures RunFrom(text, ReaderOf(data), |data|, st, 2).move == Done(st.members)
  {
    hide ParseHeader, StepMetadata, StepMember;
    var read, total := ReaderOf(data), |data|;
    assert Zeros(2 * BLOCK_SIZE) == Zeros(BLOCK_SIZE) + Zeros(BLOCK_SIZE);
    AtParts(data, st.offset, Zeros(BLOCK_SIZE), Zeros(BLOCK_SIZE));
    var next := st.(offset := st.offset + BLOCK_SIZE, zeroBlocks := 1);
    assert Step(text, read, total, st).move == Go(next);
    assert Step(text, read, total, next).move == Done(st.members);
    OneStepRun(text, read, total, st);
    OneStepRun(text, read, total, next);
    RunCompose(text, read, total, st, 1, 1);
  }

  lemma WholeBlocks(payload: bytes) returns (n: nat)
    ensures |Blocks(payload)| == BLOCK_SIZE * n
  {
    n := (|payload| + BLOCK_SIZE - 1) / BLOCK_SIZE;
  }

  lemma {:induction false} MetasAreBlocks(ms: seq<Metadata>) returns (n: nat)
    ensures |EncodeMetas(ms)| == BLOCK_SIZE * n && n >= |ms|
  {
    n := 0;
    if ms == [] {
    } else {
      hide EncodeHeader, Blocks, KindPayload, MetadataHeader;
      var first := WholeBlocks(KindPayload(ms[0].kind));
      var rest := MetasAreBlocks(ms[1..]);
      n := 1 + first + rest;
    }
  }

  lemma {:induction false} EntriesAreBlocks(es: seq<Entry>) returns (n: nat)
    ensures |EncodeEntries(es)| == BLOCK_SIZE * n && n >= StepsOf(es)
  {
    n := 0;
    if es == [] {
    } else {
      hide EncodeHeader, Blocks, EncodeMetas;
      var metas := MetasAreBlocks(es[0].metas);
      var own := WholeBlocks(es[0].payload);
      var rest := EntriesAreBlocks(es[1..]);
      n := metas + 1 + own + rest;
    }
  }

  /**
   Tar round trip.  For any entries a writer may put down, in any of the supported forms, and
   whatever blocks follow the end marker, the walk lists exactly the members they describe: names,
   types, sizes and offsets.  A member's own metadata never reaches the next one; globals persist.
   */
  lemma TarRoundTrip(text: Text, es: seq<Entry>, tail: bytes)
    requires EntriesOk(text, es, map[]) && |tail| % BLOCK_SIZE == 0
    ensures var data := EncodeEntries(es) + Zeros(2 * BLOCK_SIZE) + tail;
            Listing(text, ReaderOf(data), |data|).move == Done(ExpectedMembers(es, map[], 0))
  {
    hide Step, RunFrom, EncodeEntries, ExpectedMembers, EntriesOk;
    var body := EncodeEntries(es) + Zeros(2 * BLOCK_SIZE);
    var data := body + tail;
    var n := EntriesAreBlocks(es);
    assert data[0..0 + |body|] == body;
    EntriesRun(text, data, 0, map[], [], es);
    assert [] + ExpectedMembers(es, map[], 0) == ExpectedMembers(es, map[], 0);
    assert StepsOf(es) + 2 <= Enough(|data|);
    StoppedIsListing(text, ReaderOf(data), |data|, StepsOf(es) + 2);
  }

  // ---------------------------------------------------------------------------
  // An archive whose walk never ends
  // ---------------------------------------------------------------------------

  lemma SingleAttribute(k: bytes, v: bytes)
    ensures Attributes([(k, v)]) == map[k := v]
  {
    hide StatedLength;
    var rs := WrittenAll([(k, v)]);
    assert rs[0] == Written(k, v) && rs[1..] == [];
    assert LastWins(rs, map[]) == LastWins([], map[k := v]);
  }

  /** The walk at an offset, with a size in effect for every member. */
  function Stalled(offset: int, spelling: bytes): WalkState {
    WalkState(offset, 0, None, map[], map[SIZE_KEY := spelling], [])
  }

  /** A global PAX header that states a size. */
  function GlobalSize(spelling: bytes, frame: RawHeader): Metadata {
    Metadata(Global([(SIZE_KEY, spelling)]), frame)
  }

  ghost predicate Stalling(text: Text, spelling: bytes, size: int, frame: RawHeader) {
    && MetadataOk(text, GlobalSize(spelling, frame))
    && text.number(spelling) == Some(size) && -1024 < size <= -512
  }

  lemma StallingHeader(text: Text, data: bytes, spelling: bytes, frame: RawHeader)
    requires MetadataOk(text, GlobalSize(spelling, frame))
    requires At(data, 0, EncodeMetadata(GlobalSize(spelling, frame)))
    ensures Step(text, ReaderOf(data), |data|, START).move
         == Go(Stalled(|EncodeMetadata(GlobalSize(spelling, frame))|, spelling))
  {
    hide Step, EncodeMetadata, Attributes, MetadataOk, At, ReaderOf;
    MetadataStep(text, data, START, GlobalSize(spelling, frame));
    SingleAttribute(SIZE_KEY, spelling);
    var none: PaxMap := map[];
    assert none + map[SIZE_KEY := spelling] == map[SIZE_KEY := spelling];
  }

  lemma StalledForEver(text: Text, data: bytes, offset: int, spelling: bytes, size: int, h: RawHeader, k: nat)
    requires At(data, offset, EncodeHeader(h)) && NamesDecodable(text, h)
    requires !IsMetadata(h.typeflag) && TarNumber(h.sizeField) == Some(0)
    requires text.number(spelling) == Some(size) && -1024 < size <= -512
    ensures RunFrom(text, ReaderOf(data), |data|, Stalled(offset, spelling), k).move.Go?
  {
    hide ParseHeader, EncodeHeader, TarNumber, RunFrom, Padded, NamesDecodable;
    assert text.valid(h.name) && text.valid(h.prefix) by { NamesSplit(text, h); }
    HeaderRoundTrip(text.valid, h);
    ZeroPadding();
    NegativeSizeNeverEnds(text, ReaderOf(data), |data|, Stalled(offset, spelling), EncodeHeader(h),
                          ParseHeader(text.valid, EncodeHeader(h)).value, size, k);
  }

  lemma NamesSplit(text: Text, h: RawHeader)
    requires NamesDecodable(text, h)
    ensures text.valid(h.name) && text.valid(h.prefix)
  {}

  /**
   The size condition is needed: after a global PAX header that states a size between -1023 and -512, in any
   spelling int() takes, one ordinary header is enough to keep the walk going through any number of steps.
   */
  lemma LoopingArchive(text: Text, spelling: bytes, size: int, h: RawHeader, frame: RawHeader, k: nat)
    requires Stalling(text, spelling, size, frame) && NamesDecodable(text, h)
    requires !IsMetadata(h.typeflag) && TarNumber(h.sizeField) == Some(0)
    ensures var data := EncodeMetadata(GlobalSize(spelling, frame)) + EncodeHeader(h);
            RunFrom(text, ReaderOf(data), |data|, START, k).move.Go?
  {
    hide Step, RunFrom, EncodeHeader, EncodeMetadata, TarNumber, Stalled, ReaderOf, NamesDecodable, IsMetadata,
         MetadataOk, GlobalSize;
    var first, second := EncodeMetadata(GlobalSize(spelling, frame)), EncodeHeader(h);
    var data := first + second;
    assert data[0..0 + |first|] == first && data[|first|..|first| + |second|] == second;
    StallingHeader(text, data, spelling, frame);
    OneStepRun(text, ReaderOf(data), |data|, START);
    NoStepRun(text, ReaderOf(data), |data|, START);
    if k > 0 {
      StalledForEver(text, data, |first|, spelling, size, h, k - 1);
      RunCompose(text, ReaderOf(data), |data|, START, 1, k - 1);
    }
  }

  lemma NoStepRun(text: Text, read: Reader, total: int, st: WalkState)
    ensures RunFrom(text, read, total, st, 0).move == Go(st)
  {}

  lemma ZeroPadding()
    ensures Padded(0) == 0
  {}

  const MINUS_512: bytes := [45, 53, 49, 50]

  /** -512 in fullwidth digits, UTF-8 of U+FF15, U+FF11, U+FF12 behind the sign. */
  const WIDE_MINUS_512: bytes := [45, 239, 188, 149, 239, 188, 145, 239, 188, 146]

  lemma Minus512()
    ensures PyInt(MINUS_512) == Some(-512) && Ascii(MINUS_512)
  {
    assert StripLeft(MINUS_512) == MINUS_512 && StripRight(MINUS_512) == MINUS_512;
    var t := MINUS_512[1..];
    assert t == [53, 49, 50] && t[..2] == [53, 49] && [53, 49][..1] == [53];
    assert Decimal([53]) == Some(5);
    assert Decimal([53, 49]) == Some(51);
    assert Decimal([53, 49, 50]) == Some(512);
  }

  lemma ShortSizeRecord(text: Text, spelling: bytes, frame: RawHeader)
    requires |spelling| <= 100 && text.valid(SIZE_KEY) && text.valid(spelling) && NamesDecodable(text, frame)
    ensures MetadataOk(text, GlobalSize(spelling, frame))
  {
    var rs := WrittenAll([(SIZE_KEY, spelling)]);
    assert rs[0] == Written(SIZE_KEY, spelling) && rs[1..] == [];
    RecordLength(rs[0]);
    assert Pow10(3) == 1000;
    StatedLengthIsFixed(|spelling| + 7);
    assert |rs[0].lengthText| <= 3 by { StatedLengthShort(|spelling| + 7); }
    assert RecordsText(rs) == RecordText(rs[0]) + [];
  }

  lemma StatedLengthShort(body: nat)
    requires body < 900
    ensures |Dec(StatedLength(body))| <= 3
  {
    hide Dec;
    assert Pow10(3) == 1000;
    DecLength(body, 3);
    DecLength(body + |Dec(body)|, 3);
    DecLength(StatedLength(body), 3);
  }

  /** Both spellings stall the walk, the second one wherever int() reads the fullwidth digits as digits. */
  lemma StallingSpellings(text: Text, frame: RawHeader)
    requires text.valid(SIZE_KEY) && NamesDecodable(text, frame)
    ensures text.valid(MINUS_512) && text.AsciiNumbers() ==> Stalling(text, MINUS_512, -512, frame)
    ensures text.valid(WIDE_MINUS_512) && text.number(WIDE_MINUS_512) == Some(-512)
            ==> Stalling(text, WIDE_MINUS_512, -512, frame)
    ensures PyInt(WIDE_MINUS_512).None?
  {
    hide NamesDecodable, MetadataOk;
    if text.valid(MINUS_512) {
      Minus512();
      ShortSizeRecord(text, MINUS_512, frame);
    }
    if text.valid(WIDE_MINUS_512) { ShortSizeRecord(text, WIDE_MINUS_512, frame); }
    NoNumber();
  }

  lemma NoNumber()
    ensures PyInt(WIDE_MINUS_512).None?
  {
    assert StripLeft(WIDE_MINUS_512) == WIDE_MINUS_512 && StripRight(WIDE_MINUS_512) == WIDE_MINUS_512;
    assert !IsDigit(WIDE_MINUS_512[1..][8]);
  }
}
