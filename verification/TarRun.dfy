/** Whole runs of the tar walk: safety, termination, and the loop itself. */
module TarRun {
  import opened Wrappers
  import opened Octets
  import opened TarFields
  import opened Pax
  import opened TarWalk

  /** Up to k steps from a state: where they lead and everything they touch. */
  function RunFrom(text: Text, read: Reader, total: int, st: WalkState, k: nat): Moved
    decreases k
  {
    if k == 0 then Moved(Go(st), [])
    else
      var m := Step(text, read, total, st);
      match m.move
      case Go(next) =>
        var rest := RunFrom(text, read, total, next, k - 1);
        Moved(rest.move, m.touches + rest.touches)
      case _ => m
  }

  /** What a run of k steps touches, and where it leaves the walk. */
  ghost predicate RunOk(st: WalkState, total: int, k: nat, m: Moved) {
    && WellPlaced(m.touches, total)
    && (forall i | 0 <= i < |m.touches| :: st.offset <= Begin(m.touches[i]))
    && match m.move
       case Go(next) =>
         && StateOk(next, total) && next.offset >= st.offset + BLOCK_SIZE * k
         && WellPlaced(m.touches, next.offset)
         && Extents(next.members) == Extents(st.members) + Payloads(m.touches)
       case Done(ms) => Extents(ms) == Extents(st.members) + Payloads(m.touches)
       case Raise => true
  }

  lemma PlacedConcat(a: seq<Touch>, b: seq<Touch>, middle: int, limit: int)
    requires WellPlaced(a, middle) && WellPlaced(b, limit) && middle <= limit
    requires forall i | 0 <= i < |b| :: middle <= Begin(b[i])
    ensures WellPlaced(a + b, limit)
  {
    var c := a + b;
    forall i | 0 <= i < |c|
      ensures 0 <= Begin(c[i]) <= limit && End(c[i]) <= limit && Begin(c[i]) % BLOCK_SIZE == 0
      ensures c[i].MetadataRead? ==> 0 < c[i].size <= MAX_METADATA_BYTES
    {
      assert c[i] == if i < |a| then a[i] else b[i - |a|];
    }
    forall i, j | 0 <= i < j < |c| ensures Begin(c[i]) <= Begin(c[j]) && End(c[i]) <= Begin(c[j]) {
      if j < |a| {
        assert c[i] == a[i] && c[j] == a[j];
      } else if i >= |a| {
        assert c[i] == b[i - |a|] && c[j] == b[j - |a|];
      } else {
        assert c[i] == a[i] && c[j] == b[j - |a|];
      }
    }
  }

  /** The first k steps each advance by a block at least. */
  ghost predicate Advancing(text: Text, read: Reader, total: int, st: WalkState, k: nat)
    decreases k
  {
    var m := Step(text, read, total, st).move;
    k > 0 && m.Go? ==> m.st.offset >= st.offset + BLOCK_SIZE && Advancing(text, read, total, m.st, k - 1)
  }

  /** Every step of a run advances if and only if every size in effect for a member it skips is above -512. */
  lemma {:induction false} ProgressExact(text: Text, read: Reader, total: int, st: WalkState, k: nat)
    ensures Advancing(text, read, total, st, k) <==> AllMove(RunFrom(text, read, total, st, k).touches)
    decreases k
  {
    hide Step;
    if k == 0 {
    } else {
      var m := Step(text, read, total, st);
      StepProgress(text, read, total, st);
      StoppedSkipsNothing(text, read, total, st);
      if m.move.Go? {
        ProgressExact(text, read, total, m.move.st, k - 1);
        SizesAboveConcat(m.touches, RunFrom(text, read, total, m.move.st, k - 1).touches, -BLOCK_SIZE);
      }
    }
  }

  lemma StoppedSkipsNothing(text: Text, read: Reader, total: int, st: WalkState)
    ensures var m := Step(text, read, total, st); !m.move.Go? ==> AllMove(m.touches)
  {
    hide ParseHeader, ApplyMetadata, EffectiveSize, EffectiveName;
  }

  /**
   Walk safety.  If every size in effect for a member is above -512, then in every run the offset grows
   by at least a block per step; the ranges touched lie inside the archive, in order and without overlap,
   each starting on a block, metadata reads of at most 1 MiB; and the members listed are exactly the
   payload ranges the walk skipped.
   */
  lemma {:induction false} WalkSafety(text: Text, read: Reader, total: int, st: WalkState, k: nat)
    requires StateOk(st, total) && AllMove(RunFrom(text, read, total, st, k).touches)
    ensures RunOk(st, total, k, RunFrom(text, read, total, st, k))
    decreases k
  {
    hide Step, SizesAbove;
    if k == 0 {
      assert Extents(st.members) + [] == Extents(st.members);
    } else {
      var m := Step(text, read, total, st);
      match m.move
      case Go(next) =>
        var rest := RunFrom(text, read, total, next, k - 1);
        SizesAboveConcat(m.touches, rest.touches, -BLOCK_SIZE);
        StepIsOk(text, read, total, st);
        WalkSafety(text, read, total, next, k - 1);
        JoinRuns(st, total, k, m, rest);
      case _ =>
        StepIsOk(text, read, total, st);
        assert Extents(st.members) + [] == Extents(st.members);
    }
  }

  /**
   Where the condition comes from.  If no PAX header a run reads states a size of the bound or less, no
   member it skips has such a size in effect: -512 gives the condition above, -1 sizes that are not negative.
   */
  lemma {:induction false} StatedSizesDecide(text: Text, read: Reader, total: int, st: WalkState, k: nat, bound: int)
    requires bound < 0 && MapAbove(text, st.globalPax, bound) && MapAbove(text, st.pendingPax, bound)
    requires StatedAbove(text, read, RunFrom(text, read, total, st, k).touches, bound)
    ensures SizesAbove(RunFrom(text, read, total, st, k).touches, bound)
    decreases k
  {
    hide Step, MapAbove, StatedAbove;
    if k == 0 {
    } else {
      var m := Step(text, read, total, st);
      match m.move
      case Go(next) =>
        var rest := RunFrom(text, read, total, next, k - 1);
        StatedAboveConcat(text, read, m.touches, rest.touches, bound);
        StepAbove(text, read, total, st, bound);
        StatedSizesDecide(text, read, total, next, k - 1, bound);
        SizesAboveConcat(m.touches, rest.touches, bound);
      case _ => StepAbove(text, read, total, st, bound);
    }
  }

  lemma JoinRuns(st: WalkState, total: int, k: nat, m: Moved, rest: Moved)
    requires k > 0 && StateOk(st, total)
    requires StepOk(st, total, m) && m.move.Go? && RunOk(m.move.st, total, k - 1, rest)
    ensures RunOk(st, total, k, Moved(rest.move, m.touches + rest.touches))
  {
    hide WellPlaced;
    var touches := m.touches + rest.touches;
    PlacedConcat(m.touches, rest.touches, m.move.st.offset, total);
    if rest.move.Go? { PlacedConcat(m.touches, rest.touches, m.move.st.offset, rest.move.st.offset); }
    PayloadsConcat(m.touches, rest.touches);
    forall i | 0 <= i < |touches| ensures st.offset <= Begin(touches[i]) {
      assert touches[i] == if i < |m.touches| then m.touches[i] else rest.touches[i - |m.touches|];
    }
  }

  /** Enough steps for any archive of this size. */
  function Enough(total: int): nat
    requires total >= 0
  {
    total / BLOCK_SIZE + 1
  }

  /** The outcome of the whole walk. */
  function Listing(text: Text, read: Reader, total: int): Moved {
    if total <= 0 || total % BLOCK_SIZE != 0 then Moved(Raise, [])
    else RunFrom(text, read, total, START, Enough(total))
  }

  lemma {:induction false} StoppedStays(text: Text, read: Reader, total: int, st: WalkState, j: nat, k: nat)
    requires j <= k && !RunFrom(text, read, total, st, j).move.Go?
    ensures RunFrom(text, read, total, st, k) == RunFrom(text, read, total, st, j)
    decreases j
  {
    hide Step;
    if Step(text, read, total, st).move.Go? && j > 0 {
      StoppedStays(text, read, total, Step(text, read, total, st).move.st, j - 1, k - 1);
    }
  }

  /** The walk ends: no run is still going after one step more than there are blocks, however long it is left to run. */
  lemma WalkTerminates(text: Text, read: Reader, total: int, k: nat)
    requires total >= 0 && AllMove(RunFrom(text, read, total, START, Enough(total)).touches) && k >= Enough(total)
    ensures !RunFrom(text, read, total, START, k).move.Go?
  {
    hide Step, AllMove;
    WalkSafety(text, read, total, START, Enough(total));
    StoppedStays(text, read, total, START, Enough(total), k);
  }

  /**
   An archive whose PAX headers, as far as the walk reads them, state no size of -512 or less is walked
   safely to an end.
   */
  lemma StatedSizesSuffice(text: Text, read: Reader, total: int)
    requires total >= 0
        && StatedAbove(text, read, RunFrom(text, read, total, START, Enough(total)).touches, -BLOCK_SIZE)
    ensures var run := RunFrom(text, read, total, START, Enough(total));
            RunOk(START, total, Enough(total), run) && !run.move.Go?
  {
    hide Step, RunFrom, StatedAbove, RunOk;
    StatedSizesDecide(text, read, total, START, Enough(total), -BLOCK_SIZE);
    WalkSafety(text, read, total, START, Enough(total));
    WalkTerminates(text, read, total, Enough(total));
  }

  /** A run that stops, at whatever step, is the outcome. */
  lemma StoppedIsListing(text: Text, read: Reader, total: int, k: nat)
    requires total > 0 && total % BLOCK_SIZE == 0
    requires !RunFrom(text, read, total, START, k).move.Go?
    requires k <= Enough(total) || !RunFrom(text, read, total, START, Enough(total)).move.Go?
    ensures Listing(text, read, total) == RunFrom(text, read, total, START, k)
  {
    hide Step;
    var n := Enough(total);
    if k <= n {
      StoppedStays(text, read, total, START, k, n);
    } else {
      StoppedStays(text, read, total, START, n, k);
    }
  }

  // ---------------------------------------------------------------------------
  // The end marker
  // ---------------------------------------------------------------------------

  predicate BlankAt(read: Reader, offset: int) {
    read(offset, BLOCK_SIZE) == Some(Zeros(BLOCK_SIZE))
  }

  /** The last two headers read are zero blocks one behind the other, and none of the others is. */
  ghost predicate EndsAtMarker(read: Reader, log: seq<Touch>) {
    var n := |log|;
    && n >= 2 && log[n - 2].HeaderRead? && log[n - 1] == HeaderRead(log[n - 2].offset + BLOCK_SIZE)
    && BlankAt(read, log[n - 2].offset) && BlankAt(read, log[n - 1].offset)
    && forall i | 0 <= i < n - 2 && log[i].HeaderRead? :: !BlankAt(read, log[i].offset)
  }

  /** A run lists members only on reaching the first zero block and finding a second one right behind it. */
  lemma {:induction false} DoneAtMarker(text: Text, read: Reader, total: int, st: WalkState, k: nat)
    requires st.zeroBlocks <= 1 && RunFrom(text, read, total, st, k).move.Done?
    ensures var log := RunFrom(text, read, total, st, k).touches;
            if st.zeroBlocks == 1 then log == [HeaderRead(st.offset)] && BlankAt(read, st.offset)
            else EndsAtMarker(read, log)
    decreases k
  {
    hide Step, EndsAtMarker;
    var m := Step(text, read, total, st);
    if k > 0 && m.move.Go? {
      StepBlanks(text, read, total, st);
      DoneAtMarker(text, read, total, m.move.st, k - 1);
      MarkerLater(read, st.offset, m.touches, RunFrom(text, read, total, m.move.st, k - 1).touches);
    } else {
      StepBlanks(text, read, total, st);
    }
  }

  /** What one step makes of the zero blocks. */
  lemma StepBlanks(text: Text, read: Reader, total: int, st: WalkState)
    requires st.zeroBlocks <= 1
    ensures var m := Step(text, read, total, st);
            && (m.move.Done? ==> st.zeroBlocks == 1 && BlankAt(read, st.offset) && m.touches == [HeaderRead(st.offset)])
            && (m.move.Go? ==>
                  && st.zeroBlocks == 0 && m.touches != [] && m.touches[0] == HeaderRead(st.offset)
                  && (forall i | 0 < i < |m.touches| :: !m.touches[i].HeaderRead?)
                  && m.move.st.zeroBlocks == (if BlankAt(read, st.offset) then 1 else 0)
                  && (BlankAt(read, st.offset) ==>
                        m.move.st.offset == st.offset + BLOCK_SIZE && m.touches == [HeaderRead(st.offset)]))
  {
    hide ParseHeader, ApplyMetadata, EffectiveName, EffectiveSize, Padded;
    var m := Step(text, read, total, st);
    if m.move.Go? && !BlankAt(read, st.offset) {
      MetadataKeepsBlanks(text, read, st, ParseHeader(text.valid, read(st.offset, BLOCK_SIZE).value).value);
    }
  }

  lemma MetadataKeepsBlanks(text: Text, read: Reader, st: WalkState, h: Header)
    ensures var m := StepMetadata(text, read, st, h);
            && (m.move.Go? ==> m.move.st.zeroBlocks == st.zeroBlocks) && |m.touches| <= 1
            && forall i | 0 <= i < |m.touches| :: m.touches[i].MetadataRead?
  {
    hide Pax.ParseFrom;
  }

  lemma MarkerLater(read: Reader, offset: int, first: seq<Touch>, rest: seq<Touch>)
    requires first != [] && first[0] == HeaderRead(offset) && forall i | 0 < i < |first| :: !first[i].HeaderRead?
    ensures !BlankAt(read, offset) && EndsAtMarker(read, rest) ==> EndsAtMarker(read, first + rest)
    ensures first == [HeaderRead(offset)] && rest == [HeaderRead(offset + BLOCK_SIZE)] ==>
              (BlankAt(read, offset) && BlankAt(read, offset + BLOCK_SIZE) ==> EndsAtMarker(read, first + rest))
  {
    hide BlankAt;
    var log := first + rest;
    if !BlankAt(read, offset) && EndsAtMarker(read, rest) {
      forall i | 0 <= i < |log| - 2 && log[i].HeaderRead? ensures !BlankAt(read, log[i].offset) {
        assert log[i] == if i < |first| then first[i] else rest[i - |first|];
      }
    }
  }

  /** A listing is given only for an archive whose first zero block is followed by another. */
  lemma ListingEnds(text: Text, read: Reader, total: int)
    requires Listing(text, read, total).move.Done?
    ensures EndsAtMarker(read, Listing(text, read, total).touches)
  {
    hide EndsAtMarker, Step;
    DoneAtMarker(text, read, total, START, Enough(total));
  }

  /** The run seen from inside: what is logged so far, and what is still to run. */
  ghost predicate Continues(text: Text, read: Reader, total: int, whole: Moved, log: seq<Touch>, st: WalkState,
                            left: nat) {
    var rest := RunFrom(text, read, total, st, left);
    whole == Moved(rest.move, log + rest.touches)
  }

  lemma ContinuesStep(text: Text, read: Reader, total: int, whole: Moved, log: seq<Touch>, st: WalkState, left: nat)
    requires Continues(text, read, total, whole, log, st, left) && !whole.move.Go?
    ensures left > 0
    ensures var m := Step(text, read, total, st);
            if m.move.Go? then Continues(text, read, total, whole, log + m.touches, m.move.st, left - 1)
            else whole == Moved(m.move, log + m.touches)
    ensures AllMove(whole.touches) ==> AllMove(Step(text, read, total, st).touches)
  {
    hide Step, SizesAbove;
    var m := Step(text, read, total, st);
    SizesAboveConcat(log, m.touches, -BLOCK_SIZE);
    if m.move.Go? && left > 0 {
      var rest := RunFrom(text, read, total, m.move.st, left - 1);
      assert log + (m.touches + rest.touches) == (log + m.touches) + rest.touches;
      SizesAboveConcat(log + m.touches, rest.touches, -BLOCK_SIZE);
    }
  }

  /** The reads of a log, in order: everything but the skipped payloads. */
  function Reads(log: seq<Touch>): seq<(int, int)> {
    if log == [] then []
    else if log[0].Payload? then Reads(log[1..])
    else [(Begin(log[0]), End(log[0]) - Begin(log[0]))] + Reads(log[1..])
  }

  lemma {:induction false} ReadsConcat(a: seq<Touch>, b: seq<Touch>)
    ensures Reads(a + b) == Reads(a) + Reads(b)
  {
    if a == [] {
      assert a + b == b;
    } else {
      assert (a + b)[1..] == a[1..] + b;
      ReadsConcat(a[1..], b);
    }
  }

  /**
   The walk as it runs, recording each call of the reader.  It computes the listing, and its calls
   are exactly the header and metadata ranges of that listing.
   */
  method ListTar(text: Text, read: Reader, total: int)
    returns (r: Option<seq<Member>>, calls: seq<(int, int)>)
    requires AllMove(Listing(text, read, total).touches)
    ensures r == match Listing(text, read, total).move case Done(ms) => Some(ms) case _ => None
    ensures calls == Reads(Listing(text, read, total).touches)
  {
    hide Listing, RunFrom, Step, Reads, AllMove, Continues, StateOk, Enough;
    calls := [];
    if total <= 0 || total % BLOCK_SIZE != 0 {
      OddTotal(text, read, total);
      return None, [];
    }
    StartContinues(text, read, total);
    ghost var log: seq<Touch> := [];
    ghost var left := Enough(total);
    ghost var whole := Listing(text, read, total);
    var st := START;
    while true
      invariant StateOk(st, total) && calls == Reads(log) && st.offset <= total
      invariant Continues(text, read, total, whole, log, st, left)
      decreases total - st.offset
    {
      ContinuesStep(text, read, total, whole, log, st, left);
      StepAdvances(text, read, total, st);
      ghost var m := Step(text, read, total, st);
      ReadsConcat(log, m.touches);
      var move, served := OneStep(text, read, total, st);
      calls := calls + served;
      if !move.Go? {
        assert whole.move == move && Reads(whole.touches) == calls;
        r := if move.Done? then Some(move.members) else None;
        return;
      }
      log := log + m.touches;
      st, left := move.st, left - 1;
    }
  }

  lemma OddTotal(text: Text, read: Reader, total: int)
    requires total <= 0 || total % BLOCK_SIZE != 0
    ensures Listing(text, read, total).move == Raise && Reads(Listing(text, read, total).touches) == []
  {}

  lemma StartContinues(text: Text, read: Reader, total: int)
    requires AllMove(Listing(text, read, total).touches) && total > 0 && total % BLOCK_SIZE == 0
    ensures !Listing(text, read, total).move.Go?
    ensures Continues(text, read, total, Listing(text, read, total), [], START, Enough(total))
    ensures StateOk(START, total) && START.offset == 0 && Reads([]) == []
  {
    hide Step;
    WalkTerminates(text, read, total, Enough(total));
    assert [] + Listing(text, read, total).touches == Listing(text, read, total).touches;
  }

  lemma StepAdvances(text: Text, read: Reader, total: int, st: WalkState)
    requires StateOk(st, total) && AllMove(Step(text, read, total, st).touches)
    ensures var m := Step(text, read, total, st).move;
            m.Go? ==> StateOk(m.st, total) && st.offset < m.st.offset <= total
  {
    hide Step;
    StepIsOk(text, read, total, st);
  }

  /** One round of the loop: reads a header block, then at most one metadata payload. */
  method OneStep(text: Text, read: Reader, total: int, st: WalkState)
    returns (move: Move, calls: seq<(int, int)>)
    ensures move == Step(text, read, total, st).move
    ensures calls == Reads(Step(text, read, total, st).touches)
  {
    hide ParseHeader, ApplyMetadata, StepMember, Padded;
    ghost var m := Step(text, read, total, st);
    if st.offset + BLOCK_SIZE > total {
      return Raise, [];
    }
    calls := [(st.offset, BLOCK_SIZE)];
    ghost var first := [HeaderRead(st.offset)];
    assert first[1..] == [] && Reads(first) == calls;
    var fetched := read(st.offset, BLOCK_SIZE);
    if fetched.None? {
      return Raise, calls;
    }
    var block := fetched.value;
    ghost var b := StepBlock(text, read, total, st, block);
    ReadsConcat(first, b.touches);
    if block == Zeros(BLOCK_SIZE) {
      return if st.zeroBlocks + 1 == 2 then Done(st.members)
             else Go(st.(offset := st.offset + BLOCK_SIZE, zeroBlocks := st.zeroBlocks + 1)), calls;
    }
    if st.zeroBlocks > 0 {
      return Raise, calls;
    }
    var header := ParseHeader(text.valid, block);
    if header.None? || st.offset + BLOCK_SIZE + Padded(header.value.size) > total {
      return Raise, calls;
    }
    var h := header.value;
    if !IsMetadata(h.typeflag) {
      SkipsOnly(text, total, st, h);
      return StepMember(text, total, st, h).move, calls;
    }
    if h.size > MAX_METADATA_BYTES {
      return Raise, calls;
    }
    var payload: Option<bytes> := Some([]);
    if h.size != 0 {
      payload := read(st.offset + BLOCK_SIZE, h.size);
      calls := calls + [(st.offset + BLOCK_SIZE, h.size)];
      ghost var t := [MetadataRead(st.offset + BLOCK_SIZE, h.size, h.typeflag)];
      assert t[1..] == [] && Reads(t) == [(st.offset + BLOCK_SIZE, h.size)];
    }
    if payload.None? {
      return Raise, calls;
    }
    var next := ApplyMetadata(text, st, h.typeflag, payload.value);
    if next.None? {
      return Raise, calls;
    }
    return Go(next.value.(offset := st.offset + BLOCK_SIZE + Padded(h.size))), calls;
  }

  lemma SkipsOnly(text: Text, total: int, st: WalkState, h: Header)
    ensures Reads(StepMember(text, total, st, h).touches) == []
  {
    hide EffectiveSize, EffectiveName;
    var t := StepMember(text, total, st, h).touches;
    if t != [] { assert t[1..] == []; }
  }

  // ---------------------------------------------------------------------------
  // Without the size condition the walk need not end
  // ---------------------------------------------------------------------------

  /**
   A size between -1023 and -512 in effect for every member, however it is spelled, sends the walk back to the
   same header for ever: after any number of steps it is still there, one more member listed each time.
   */
  lemma {:induction false} NegativeSizeNeverEnds(
    text: Text, read: Reader, total: int, st: WalkState, block: bytes, h: Header, size: int, k: nat)
    requires st.zeroBlocks == 0 && st.pendingPax == map[]
    requires SIZE_KEY in st.globalPax && text.number(st.globalPax[SIZE_KEY]) == Some(size) && -1024 < size <= -512
    requires 0 <= st.offset && st.offset + BLOCK_SIZE <= total && read(st.offset, BLOCK_SIZE) == Some(block)
    requires block != Zeros(BLOCK_SIZE) && ParseHeader(text.valid, block) == Some(h) && !IsMetadata(h.typeflag)
    requires st.offset + BLOCK_SIZE + Padded(h.size) <= total
    ensures var r := RunFrom(text, read, total, st, k).move;
            r.Go? && r.st.offset == st.offset && |r.st.members| == |st.members| + k
    decreases k
  {
    hide ParseHeader;
    if k == 0 {
    } else {
      var next := Step(text, read, total, st).move.st;
      assert st.globalPax + st.pendingPax == st.globalPax;
      assert next.offset == st.offset;
      NegativeSizeNeverEnds(text, read, total, next, block, h, size, k - 1);
    }
  }
}
