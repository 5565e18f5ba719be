/**
 Whole archives as a writer puts them down, from names and contents alone: each member in one of the
 forms its name and size can take, with global PAX headers between the members.
 */
module TarForms {
  import opened Wrappers
  import opened Octets
  import opened TarFields
  import opened Pax
  import opened TarWalk
  import opened TarRun
  import opened TarRoundTrip

  /** The ways a writer can state a member's name and size. */
  datatype Form =
    | Ustar                // ustar name and prefix fields, octal size
    | Base256              // ustar name and prefix fields, GNU base-256 size
    | GnuLongName          // a GNU long-name member, octal size
    | PaxPath              // a PAX path record, octal size
    | PaxSize              // ustar name and prefix fields, a PAX size record; the header states 0
    | PaxBoth              // PAX path and size records; the header states 0

  /** A member to write, with the global attributes that start with it; `h` and `frame` hold the other header fields. */
  datatype Item = Item(globals: seq<(bytes, bytes)>, form: Form, name: bytes, payload: bytes, h: RawHeader,
                       frame: RawHeader)

  predicate StatesPath(f: Form) {
    f.PaxPath? || f.PaxBoth?
  }

  predicate StatesSize(f: Form) {
    f.PaxSize? || f.PaxBoth?
  }

  /** The PAX records of the member itself. */
  function Stated(item: Item): seq<(bytes, bytes)> {
    match item.form
    case PaxPath => [(PATH_KEY, item.name)]
    case PaxSize => [(SIZE_KEY, Dec(|item.payload|))]
    case PaxBoth => [(PATH_KEY, item.name), (SIZE_KEY, Dec(|item.payload|))]
    case _ => []
  }

  function SizeField(item: Item): (s: bytes)
    ensures |s| == 12
  {
    if StatesSize(item.form) then OctalField(0, 12)
    else if item.form.Base256? then Base256Field(|item.payload|, 12)
    else OctalField(|item.payload|, 12)
  }

  function GlobalMetas(item: Item): seq<Metadata> {
    if item.globals == [] then [] else [Metadata(Global(item.globals), item.frame)]
  }

  function OwnMetas(item: Item): seq<Metadata> {
    if item.form.GnuLongName? then [Metadata(LongName(item.name), item.frame)]
    else if Stated(item) == [] then []
    else [Metadata(Local(Stated(item)), item.frame)]
  }

  function AsEntry(item: Item): Entry {
    Entry(GlobalMetas(item) + OwnMetas(item), item.h.(sizeField := SizeField(item)), item.payload)
  }

  /** What each form can express. */
  predicate Expressible(item: Item) {
    && (item.form in {Ustar, Base256, PaxSize} ==> item.name == FullName(item.h))
    && (item.form in {Ustar, GnuLongName, PaxPath} ==> |item.payload| < Pow8(11))
    && (item.form.Base256? ==> |item.payload| < Pow2(95))
    && (item.form.GnuLongName? ==>
          |item.name| < MAX_METADATA_BYTES && (item.name != [] ==> item.name[|item.name| - 1] != 0))
    && (StatesSize(item.form) ==> |Dec(|item.payload|)| <= MAX_INT_DIGITS)
    && |KindPayload(Local(Stated(item)))| <= MAX_METADATA_BYTES
  }

  /** The texts of the member's PAX records decode; all but the name are ASCII. */
  predicate TextsDecode(text: Text, item: Item) {
    text.valid(item.name) && text.valid(PATH_KEY) && text.valid(SIZE_KEY) && text.valid(Dec(|item.payload|))
  }

  ghost predicate Writable(text: Text, item: Item) {
    && Expressible(item)
    && TextsDecode(text, item) && NamesDecodable(text, item.h) && NamesDecodable(text, item.frame)
    && !IsMetadata(item.h.typeflag)
    && KindOk(text, Global(item.globals))
  }

  /** The global attributes in effect from a member on. */
  function GlobalsAfter(item: Item, global: PaxMap): PaxMap {
    global + Attributes(item.globals)
  }

  /** Where a global path or size is in effect, the member overrides it or agrees with it. */
  predicate GlobalsAgree(text: Text, item: Item, after: PaxMap) {
    && (PATH_KEY in after && !StatesPath(item.form) ==> after[PATH_KEY] == item.name)
    && (SIZE_KEY in after && !StatesSize(item.form) ==> text.number(after[SIZE_KEY]) == Some(|item.payload|))
  }

  function Intended(item: Item, offset: int): Member {
    Member(item.name, TypeOf(item.h), |item.payload|, offset, offset + BLOCK_SIZE)
  }

  // ---------------------------------------------------------------------------
  // What is in effect for a written member
  // ---------------------------------------------------------------------------

  lemma {:induction false} AppliedConcat(p: Pending, a: seq<Metadata>, b: seq<Metadata>)
    ensures AppliedAll(p, a + b) == AppliedAll(AppliedAll(p, a), b)
    decreases |a|
  {
    hide Applied;
    if a == [] {
      assert a + b == b;
    } else {
      assert (a + b)[1..] == a[1..] + b;
      AppliedConcat(Applied(p, a[0].kind), a[1..], b);
    }
  }

  lemma AppliedOne(p: Pending, m: Metadata)
    ensures AppliedAll(p, [m]) == Applied(p, m.kind) && AppliedAll(p, []) == p
  {
    hide Applied;
    assert [m][1..] == [];
  }

  lemma NoAttributes()
    ensures Attributes([]) == map[]
  {}

  lemma TwoAttributes(k: bytes, v: bytes, l: bytes, w: bytes)
    ensures Attributes([(k, v), (l, w)]) == map[k := v][l := w]
  {
    hide StatedLength;
    var rs := WrittenAll([(k, v), (l, w)]);
    assert rs[1..] == [rs[1]] && [rs[1]][1..] == [];
    assert LastWins(rs, map[]) == LastWins([rs[1]], map[k := v]);
  }

  /** What is in effect for a written member: its own records over the globals. */
  function Own(item: Item, after: PaxMap): Pending {
    Pending(if item.form.GnuLongName? then Some(item.name) else None, Attributes(Stated(item)), after)
  }

  lemma FormPending(item: Item, global: PaxMap)
    ensures InEffect(AsEntry(item), global) == Own(item, GlobalsAfter(item, global))
  {
    hide Attributes, AppliedAll, SizeField, Dec;
    var start := Pending(None, map[], global);
    NoAttributes();
    AppliedConcat(start, GlobalMetas(item), OwnMetas(item));
    AppliedOne(start, Metadata(Global(item.globals), item.frame));
    var mid := start.(global := GlobalsAfter(item, global));
    assert global + map[] == global;
    assert AppliedAll(start, GlobalMetas(item)) == mid;
    AppliedOne(mid, Metadata(LongName(item.name), item.frame));
    AppliedOne(mid, Metadata(Local(Stated(item)), item.frame));
  }

  lemma StatedAttributes(item: Item)
    ensures var own := Attributes(Stated(item));
            && (PATH_KEY in own <==> StatesPath(item.form)) && (SIZE_KEY in own <==> StatesSize(item.form))
            && (StatesPath(item.form) ==> own[PATH_KEY] == item.name)
            && (StatesSize(item.form) ==> own[SIZE_KEY] == Dec(|item.payload|))
  {
    hide Attributes, Dec;
    NoAttributes();
    SingleAttribute(PATH_KEY, item.name);
    SingleAttribute(SIZE_KEY, Dec(|item.payload|));
    TwoAttributes(PATH_KEY, item.name, SIZE_KEY, Dec(|item.payload|));
    assert PATH_KEY != SIZE_KEY;
  }

  lemma FieldRead(item: Item)
    requires Expressible(item)
    ensures TarNumber(SizeField(item)) == Some(if StatesSize(item.form) then 0 else |item.payload|)
  {
    hide TarNumber, OctalField, Base256Field, KindPayload, Pow2, FullName, Dec;
    assert Pow8(11) > 0;
    if StatesSize(item.form) {
      OctalRoundTrip(0, 12);
    } else if item.form.Base256? {
      Base256RoundTrip(|item.payload|, 12);
    } else {
      OctalRoundTrip(|item.payload|, 12);
    }
  }

  lemma NameRead(item: Item, after: PaxMap)
    requires Expressible(item)
    ensures ExpectedName(Own(item, after), AsEntry(item).header) == item.name
            <==> (PATH_KEY in after && !StatesPath(item.form) ==> after[PATH_KEY] == item.name)
  {
    hide Attributes, Dec, KindPayload, Stated, SizeField, Pow8, Pow2;
    StatedAttributes(item);
    assert FullName(AsEntry(item).header) == FullName(item.h);
  }

  lemma NumberOfDec(text: Text, n: nat)
    requires text.AsciiNumbers() && |Dec(n)| <= MAX_INT_DIGITS
    ensures text.number(Dec(n)) == Some(n)
  {
    hide Decimal, DigitCount, Dec, PyInt;
    DecDigits(n);
    forall i | 0 <= i < |Dec(n)| ensures Dec(n)[i] < 128 { assert IsDigit(Dec(n)[i]); }
    PyIntOfDec(n);
  }

  lemma SizeRead(text: Text, item: Item, after: PaxMap)
    requires Expressible(item) && text.AsciiNumbers()
    ensures SizeStated(text, AsEntry(item), Own(item, after))
            <==> (SIZE_KEY in after && !StatesSize(item.form) ==> text.number(after[SIZE_KEY]) == Some(|item.payload|))
  {
    hide Attributes, Dec, KindPayload, Stated, SizeField, Pow8, Pow2, TarNumber, FullName, Text.AsciiNumbers;
    StatedAttributes(item);
    FieldRead(item);
    if StatesSize(item.form) { NumberOfDec(text, |item.payload|); }
    assert Padded(0) <= Padded(|item.payload|);
  }

  lemma StatedOk(text: Text, item: Item)
    requires TextsDecode(text, item)
    ensures KeysOk(text.valid, Stated(item))
  {
    hide Dec;
    assert EQUALS !in PATH_KEY && EQUALS !in SIZE_KEY;
  }

  lemma MetasOk(text: Text, item: Item)
    requires Writable(text, item)
    ensures forall i | 0 <= i < |AsEntry(item).metas| :: MetadataOk(text, AsEntry(item).metas[i])
  {
    hide KeysOk, NamesDecodable, SizeField, Stated, Pow8, Pow2, Dec, RecordsText;
    StatedOk(text, item);
    forall i | 0 <= i < |AsEntry(item).metas| ensures MetadataOk(text, AsEntry(item).metas[i]) {
      assert AsEntry(item).metas[i] in GlobalMetas(item) || AsEntry(item).metas[i] in OwnMetas(item);
    }
  }

  /**
   Every form of a member means the same.  Whatever globals are in effect, a written member is covered by
   the round trip and reads back under its own name, type and size if and only if it overrides the
   globals that concern it or agrees with them.
   */
  lemma FormsAgree(text: Text, item: Item, global: PaxMap, offset: int)
    requires Writable(text, item) && text.AsciiNumbers()
    ensures var e, after := AsEntry(item), GlobalsAfter(item, global);
            && InEffect(e, global).global == after
            && (EntryOk(text, e, global) && ExpectedMember(e, InEffect(e, global), offset) == Intended(item, offset)
                <==> GlobalsAgree(text, item, after))
  {
    hide Expressible, ExpectedName, SizeStated, InEffect, Text.AsciiNumbers, MetadataOk, KindOk, Stated, Attributes,
         FullName, StatesPath, StatesSize, SizeField, GlobalMetas, OwnMetas;
    FormPending(item, global);
    MetasOk(text, item);
    NameRead(item, GlobalsAfter(item, global));
    SizeRead(text, item, GlobalsAfter(item, global));
    HeaderDecodes(text, item);
  }

  lemma HeaderDecodes(text: Text, item: Item)
    ensures NamesDecodable(text, AsEntry(item).header) == NamesDecodable(text, item.h)
  {
    hide SizeField;
  }

  // ---------------------------------------------------------------------------
  // Whole archives
  // ---------------------------------------------------------------------------

  function AsEntries(items: seq<Item>): seq<Entry> {
    if items == [] then [] else [AsEntry(items[0])] + AsEntries(items[1..])
  }

  /** The members in the archive, from an offset on. */
  function Described(items: seq<Item>, offset: int): seq<Member> {
    if items == [] then []
    else
      var e := AsEntry(items[0]);
      [Intended(items[0], offset + |EncodeMetas(e.metas)|)] + Described(items[1..], offset + |EncodeEntry(e)|)
  }

  ghost predicate AllWritable(text: Text, items: seq<Item>) {
    forall i | 0 <= i < |items| :: Writable(text, items[i])
  }

  /** No member contradicts the global attributes in effect where it stands. */
  predicate AllAgree(text: Text, items: seq<Item>, global: PaxMap)
    decreases |items|
  {
    items != [] ==>
      var after := GlobalsAfter(items[0], global);
      GlobalsAgree(text, items[0], after) && AllAgree(text, items[1..], after)
  }

  lemma FirstWritable(text: Text, items: seq<Item>)
    requires items != [] && AllWritable(text, items)
    ensures Writable(text, items[0]) && AllWritable(text, items[1..])
  {
    hide Writable;
    forall i | 0 <= i < |items[1..]| ensures Writable(text, items[1..][i]) {
      assert items[1..][i] == items[i + 1];
    }
  }

  lemma {:induction false} EntriesAgree(text: Text, items: seq<Item>, global: PaxMap, offset: int)
    requires text.AsciiNumbers() && AllWritable(text, items) && AllAgree(text, items, global)
    ensures EntriesOk(text, AsEntries(items), global)
    ensures ExpectedMembers(AsEntries(items), global, offset) == Described(items, offset)
    decreases |items|
  {
    hide Writable, AllWritable, GlobalsAgree, GlobalsAfter, Text.AsciiNumbers, AsEntry, EntryOk, ExpectedMember,
         Intended, InEffect, EncodeMetas, EncodeEntry;
    if items == [] {
    } else {
      var e := AsEntry(items[0]);
      assert AsEntries(items)[1..] == AsEntries(items[1..]);
      FirstWritable(text, items);
      FormsAgree(text, items[0], global, offset + |EncodeMetas(e.metas)|);
      EntriesAgree(text, items[1..], GlobalsAfter(items[0], global), offset + |EncodeEntry(e)|);
    }
  }

  // ---------------------------------------------------------------------------
  // A member that contradicts the globals in effect
  // ---------------------------------------------------------------------------

  /** The walk only ever adds to its members. */
  lemma {:induction false} MembersGrow(text: Text, read: Reader, total: int, st: WalkState, k: nat)
    ensures var r := RunFrom(text, read, total, st, k).move;
            && (r.Done? ==> st.members <= r.members)
            && (r.Go? ==> st.members <= r.st.members)
    decreases k
  {
    hide Step;
    if k == 0 {
    } else {
      StepGrows(text, read, total, st);
      var m := Step(text, read, total, st).move;
      if m.Go? { MembersGrow(text, read, total, m.st, k - 1); }
    }
  }

  lemma StepGrows(text: Text, read: Reader, total: int, st: WalkState)
    ensures var r := Step(text, read, total, st).move;
            && (r.Done? ==> st.members == r.members)
            && (r.Go? ==> st.members <= r.st.members)
  {
    hide ParseHeader, ParseFrom, EffectiveName, EffectiveSize;
  }

  /** The step over a written member, whatever is in effect for it. */
  lemma AnyMemberStep(text: Text, data: bytes, st: WalkState, e: Entry)
    requires NamesDecodable(text, e.header) && !IsMetadata(e.header.typeflag)
    requires TarNumber(e.header.sizeField).Some? && st.zeroBlocks == 0
    requires At(data, st.offset, EncodeMember(e))
    ensures var r := Step(text, ReaderOf(data), |data|, st).move;
            var h := Header(FullName(e.header), TarNumber(e.header.sizeField).value, TypeOf(e.header));
            r.Raise? || (
              && r.Go? && EffectiveSize(text, st, h).Some?
              && r.st.members == st.members + [Member(ExpectedName(PendingOf(st), e.header), TypeOf(e.header),
                                                      EffectiveSize(text, st, h).value, st.offset,
                                                      st.offset + BLOCK_SIZE)])
  {
    hide ParseHeader, EncodeHeader, TarNumber, Padded;
    HeaderRoundTrip(text.valid, e.header);
    AtParts(data, st.offset, EncodeHeader(e.header), Blocks(e.payload));
  }

  lemma WrongMember(text: Text, item: Item, st: WalkState)
    requires Expressible(item) && text.AsciiNumbers() && !GlobalsAgree(text, item, st.globalPax)
    requires PendingOf(st) == Own(item, st.globalPax)
    ensures TarNumber(SizeField(item)).Some?
    ensures var e := AsEntry(item);
            var h := Header(FullName(e.header), TarNumber(SizeField(item)).value, TypeOf(e.header));
            ExpectedName(PendingOf(st), e.header) != item.name || EffectiveSize(text, st, h) != Some(|item.payload|)
  {
    hide Attributes, TarNumber, Stated, SizeField, Expressible, FullName, ExpectedName, StatesPath, Text.AsciiNumbers;
    NameRead(item, st.globalPax);
    SizeRead(text, item, st.globalPax);
    FieldRead(item);
    assert Padded(0) <= Padded(|item.payload|);
  }

  /** A run over a member that contradicts the globals never ends with the member meant in its place. */
  lemma ContradictedRun(text: Text, data: bytes, offset: int, global: PaxMap, members: seq<Member>, item: Item,
                        rest: seq<Member>, k: nat)
    requires Writable(text, item) && text.AsciiNumbers() && !GlobalsAgree(text, item, GlobalsAfter(item, global))
    requires At(data, offset, EncodeEntry(AsEntry(item))) && k >= |AsEntry(item).metas| + 1
    ensures var st := WalkState(offset, 0, None, map[], global, members);
            var meant := Intended(item, offset + |EncodeMetas(AsEntry(item).metas)|);
            RunFrom(text, ReaderOf(data), |data|, st, k).move != Done(members + [meant] + rest)
  {
    hide Step, RunFrom, Expressible, GlobalsAgree, GlobalsAfter, EncodeMetas, EncodeMember, At, MetadataOk, Own,
         ExpectedName, EffectiveSize, SizeField, FullName, Text.AsciiNumbers, InEffect, TarNumber, GlobalMetas,
         OwnMetas;
    var read, total, e := ReaderOf(data), |data|, AsEntry(item);
    var st := WalkState(offset, 0, None, map[], global, members);
    AtParts(data, offset, EncodeMetas(e.metas), EncodeMember(e));
    MetasOk(text, item);
    MetasRun(text, data, st, e.metas);
    FormPending(item, global);
    var own := Own(item, GlobalsAfter(item, global));
    var middle := Resumed(st, own, offset + |EncodeMetas(e.metas)|);
    OwnGlobals(item, GlobalsAfter(item, global));
    assert InEffect(e, global) == AppliedAll(PendingOf(st), e.metas) by { EffectOf(e, global); }
    assert PendingOf(middle) == own;
    WrongMember(text, item, middle);
    HeaderDecodes(text, item);
    AnyMemberStep(text, data, middle, e);
    RunCompose(text, read, total, st, |e.metas|, k - |e.metas|);
    AfterStep(text, read, total, middle, k - |e.metas|);
    var step := Step(text, read, total, middle).move;
    if step.Go? {
      var listed := step.st.members;
      MembersGrow(text, read, total, step.st, k - |e.metas| - 1);
      assert listed[|members|] != Intended(item, offset + |EncodeMetas(e.metas)|);
    }
  }

  lemma OwnGlobals(item: Item, after: PaxMap)
    ensures Own(item, after).global == after
  {}

  lemma EffectOf(e: Entry, global: PaxMap)
    ensures InEffect(e, global) == AppliedAll(Pending(None, map[], global), e.metas)
  {}

  lemma AfterStep(text: Text, read: Reader, total: int, st: WalkState, k: nat)
    requires k > 0
    ensures var m := Step(text, read, total, st).move;
            RunFrom(text, read, total, st, k).move
            == if m.Go? then RunFrom(text, read, total, m.st, k - 1).move else m
  {
    hide Step;
  }

  /** A run over a member that agrees goes on behind it, the member meant in the list. */
  lemma AgreedRun(text: Text, data: bytes, offset: int, global: PaxMap, members: seq<Member>, item: Item, k: nat)
    requires Writable(text, item) && text.AsciiNumbers() && GlobalsAgree(text, item, GlobalsAfter(item, global))
    requires At(data, offset, EncodeEntry(AsEntry(item))) && k >= |AsEntry(item).metas| + 1
    ensures var e := AsEntry(item);
            var meant := Intended(item, offset + |EncodeMetas(e.metas)|);
            var st := WalkState(offset, 0, None, map[], global, members);
            var next :=
              WalkState(offset + |EncodeEntry(e)|, 0, None, map[], GlobalsAfter(item, global), members + [meant]);
            RunFrom(text, ReaderOf(data), |data|, st, k).move
            == RunFrom(text, ReaderOf(data), |data|, next, k - (|e.metas| + 1)).move
  {
    hide *;
    var e := AsEntry(item);
    FormsAgree(text, item, global, offset + |EncodeMetas(e.metas)|);
    EntryRun(text, data, offset, global, members, e);
    RunCompose(text, ReaderOf(data), |data|, WalkState(offset, 0, None, map[], global, members), |e.metas| + 1,
               k - (|e.metas| + 1));
  }

  lemma {:induction false} EntriesContradict(
    text: Text, data: bytes, offset: int, global: PaxMap, members: seq<Member>, items: seq<Item>, end: bytes, k: nat)
    requires text.AsciiNumbers() && AllWritable(text, items) && !AllAgree(text, items, global)
    requires At(data, offset, EncodeEntries(AsEntries(items)) + end) && k >= StepsOf(AsEntries(items))
    ensures RunFrom(text, ReaderOf(data), |data|, WalkState(offset, 0, None, map[], global, members), k).move
            != Done(members + Described(items, offset))
    decreases |items|
  {
    hide Step, RunFrom, Writable, AllWritable, GlobalsAgree, GlobalsAfter, AsEntry, EntryOk, ExpectedMember, Intended,
         InEffect, EncodeMetas, EncodeEntry, EncodeEntries, At, ReaderOf, Text.AsciiNumbers;
    var e, es := AsEntry(items[0]), AsEntries(items);
    assert es[1..] == AsEntries(items[1..]);
    var next := offset + |EncodeEntry(e)|;
    var meant := Intended(items[0], offset + |EncodeMetas(e.metas)|);
    FirstWritable(text, items);
    EntriesSplit(es, end);
    AtParts(data, offset, EncodeEntry(e), EncodeEntries(es[1..]) + end);
    assert members + [meant] + Described(items[1..], next) == members + Described(items, offset);
    if GlobalsAgree(text, items[0], GlobalsAfter(items[0], global)) {
      AgreedRun(text, data, offset, global, members, items[0], k);
      EntriesContradict(text, data, next, GlobalsAfter(items[0], global), members + [meant], items[1..], end,
                        k - (|e.metas| + 1));
    } else {
      ContradictedRun(text, data, offset, global, members, items[0], Described(items[1..], next), k);
    }
  }

  /**
   The round trip from names and contents alone.  For any members in any mixture of forms, with global PAX
   headers wherever the writer puts them, the walk over the written archive lists exactly the members
   meant, their names, types, sizes and offsets, if and only if every member overrides the globals in effect
   where it stands or agrees with them.
   */
  lemma ArchiveRoundTrip(text: Text, items: seq<Item>, tail: bytes)
    requires text.AsciiNumbers() && AllWritable(text, items) && |tail| % BLOCK_SIZE == 0
    ensures var data := EncodeEntries(AsEntries(items)) + Zeros(2 * BLOCK_SIZE) + tail;
            Listing(text, ReaderOf(data), |data|).move == Done(Described(items, 0)) <==> AllAgree(text, items, map[])
  {
    hide AllWritable, AllAgree, EntriesOk, ExpectedMembers, Described, AsEntries, EncodeEntries, Listing,
         Text.AsciiNumbers;
    if AllAgree(text, items, map[]) {
      EntriesAgree(text, items, map[], 0);
      TarRoundTrip.TarRoundTrip(text, AsEntries(items), tail);
    } else {
      ArchiveContradicted(text, items, tail);
    }
  }

  lemma ArchiveContradicted(text: Text, items: seq<Item>, tail: bytes)
    requires text.AsciiNumbers() && AllWritable(text, items) && |tail| % BLOCK_SIZE == 0
    requires !AllAgree(text, items, map[])
    ensures var data := EncodeEntries(AsEntries(items)) + Zeros(2 * BLOCK_SIZE) + tail;
            Listing(text, ReaderOf(data), |data|).move != Done(Described(items, 0))
  {
    hide AllWritable, AllAgree, Described, AsEntries, EncodeEntries, Listing, RunFrom, StepsOf, Zeros, ReaderOf,
         Text.AsciiNumbers;
    var body, end := EncodeEntries(AsEntries(items)), Zeros(2 * BLOCK_SIZE) + tail;
    var data := body + Zeros(2 * BLOCK_SIZE) + tail;
    var n := EntriesAreBlocks(AsEntries(items));
    assert |Zeros(2 * BLOCK_SIZE)| == 2 * BLOCK_SIZE by { ZerosLength(2 * BLOCK_SIZE); }
    ListingIsRun(text, data);
    assert body + end == data;
    assert data[0..0 + |data|] == data;
    EntriesContradict(text, data, 0, map[], [], items, end, Enough(|data|));
    assert [] + Described(items, 0) == Described(items, 0);
  }

  lemma ZerosLength(n: nat)
    ensures |Zeros(n)| == n
  {}

  lemma ListingIsRun(text: Text, data: bytes)
    requires |data| > 0 && |data| % BLOCK_SIZE == 0
    ensures Listing(text, ReaderOf(data), |data|) == RunFrom(text, ReaderOf(data), |data|, START, Enough(|data|))
  {}
}
