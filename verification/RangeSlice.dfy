/**
 The budgeted window of tools/audit/hf_tar_torch_contract.py onto one member of an archive, and
 the nested audit that opens it after the tar walk.  The ZIP client is an arbitrary sequence of
 seek and read calls; a raised exception is a Failed reply.
 */
module RangeSlice {
  import opened Wrappers
  import opened Octets
  import opened TarFields
  import opened TarWalk
  import opened TarRun

  datatype Command = Seek(offset: int, whence: int) | Read(size: Option<int>)

  datatype Reply = Position(position: int) | Data(data: bytes) | Failed

  /** What a slice is opened with. */
  datatype Window = Window(read: Reader, base: int, size: int, maxSingleRead: int, budget: int)

  datatype Cursor = Cursor(position: int, received: int, count: nat)

  predicate WindowOk(w: Window) {
    w.base >= 0 && w.size > 0 && w.maxSingleRead > 0 && w.budget > 0
  }

  function SeekTarget(size: int, position: int, offset: int, whence: int): Option<int> {
    var target := if whence == 0 then offset else if whence == 1 then position + offset else size + offset;
    if whence !in {0, 1, 2} || target < 0 || target > size then None else Some(target)
  }

  /** How many bytes a read asks for, once clamped to what is left. */
  function Wanted(remaining: int, size: Option<int>): int {
    if size.None? || size.value < 0 || size.value > remaining then remaining else size.value
  }

  /** One command: the reply, the cursor after it, and the underlying range it requested. */
  function Do(w: Window, c: Cursor, command: Command): (Reply, Cursor, seq<(int, int)>) {
    match command
    case Seek(offset, whence) =>
      (match SeekTarget(w.size, c.position, offset, whence)
       case None => (Failed, c, [])
       case Some(p) => (Position(p), c.(position := p), []))
    case Read(size) =>
      var n := Wanted(w.size - c.position, size);
      if n == 0 then (Data([]), c, [])
      else if n > w.maxSingleRead || c.received + n > w.budget then (Failed, c, [])
      else
        var call := [(w.base + c.position, n)];
        match w.read(w.base + c.position, n)
        case None => (Failed, c, call)
        case Some(payload) =>
          if |payload| != n then (Failed, c, call)
          else (Data(payload), Cursor(c.position + n, c.received + n, c.count + 1), call)
  }

  /** The object: the same commands, changing its fields in place. */
  class Slice {
    const window: Window
    var position: int
    var bytesReceived: int
    var readCount: nat
    var calls: seq<(int, int)>   // the underlying reads so far, kept as a record

    constructor (w: Window)
      requires WindowOk(w)
      ensures window == w && Current() == Cursor(0, 0, 0) && calls == []
    {
      window := w;
      position, bytesReceived, readCount := 0, 0, 0;
      calls := [];
    }

    function Current(): Cursor
      reads this
    {
      Cursor(position, bytesReceived, readCount)
    }

    method SeekTo(offset: int, whence: int) returns (r: Reply)
      modifies this
      ensures (r, Current(), calls)
          == (var d := Do(window, old(Current()), Seek(offset, whence)); (d.0, d.1, old(calls) + d.2))
    {
      assert calls + [] == calls;
      var target: int;
      if whence == 0 {
        target := offset;
      } else if whence == 1 {
        target := position + offset;
      } else if whence == 2 {
        target := window.size + offset;
      } else {
        return Failed;
      }
      if target < 0 || target > window.size {
        return Failed;
      }
      position := target;
      return Position(target);
    }

    method ReadSome(size: Option<int>) returns (r: Reply)
      modifies this
      ensures (r, Current(), calls) == (var d := Do(window, old(Current()), Read(size)); (d.0, d.1, old(calls) + d.2))
    {
      assert calls + [] == calls;
      var remaining := window.size - position;
      var n: int;
      if size.None? || size.value < 0 {
        n := remaining;
      } else {
        n := if size.value < remaining then size.value else remaining;
      }
      if n == 0 {
        return Data([]);
      }
      if n > window.maxSingleRead {
        return Failed;
      }
      if bytesReceived + n > window.budget {
        return Failed;
      }
      calls := calls + [(window.base + position, n)];
      var payload := window.read(window.base + position, n);
      if payload.None? || |payload.value| != n {
        return Failed;
      }
      position := position + n;
      bytesReceived := bytesReceived + n;
      readCount := readCount + 1;
      return Data(payload.value);
    }
  }

  // ---------------------------------------------------------------------------
  // Sessions
  // ---------------------------------------------------------------------------

  datatype Session = Session(replies: seq<Reply>, cursor: Cursor, calls: seq<(int, int)>)

  function RunSession(w: Window, c: Cursor, commands: seq<Command>): Session
    decreases |commands|
  {
    if commands == [] then Session([], c, [])
    else
      var (r, next, call) := Do(w, c, commands[0]);
      var rest := RunSession(w, next, commands[1..]);
      Session([r] + rest.replies, rest.cursor, call + rest.calls)
  }

  method Drive(slice: Slice, commands: seq<Command>) returns (replies: seq<Reply>)
    modifies slice
    ensures Session(replies, slice.Current(), slice.calls) ==
            (var s := RunSession(slice.window, old(slice.Current()), commands);
             Session(s.replies, s.cursor, old(slice.calls) + s.calls))
  {
    replies := [];
    var i := 0;
    ghost var whole := RunSession(slice.window, slice.Current(), commands);
    assert commands[0..] == commands;
    assert slice.calls + whole.calls == old(slice.calls) + whole.calls;
    while i < |commands|
      invariant 0 <= i <= |commands|
      invariant var rest := RunSession(slice.window, slice.Current(), commands[i..]);
                && replies + rest.replies == whole.replies && rest.cursor == whole.cursor
                && slice.calls + rest.calls == old(slice.calls) + whole.calls
    {
      hide Do;
      assert commands[i..][1..] == commands[i + 1..];
      ghost var d := Do(slice.window, slice.Current(), commands[i]);
      ghost var rest := RunSession(slice.window, d.1, commands[i + 1..]);
      ghost var before := slice.calls;
      var r: Reply;
      match commands[i] {
        case Seek(offset, whence) => r := slice.SeekTo(offset, whence);
        case Read(size) => r := slice.ReadSome(size);
      }
      assert replies + ([r] + rest.replies) == (replies + [r]) + rest.replies;
      assert before + (d.2 + rest.calls) == (before + d.2) + rest.calls;
      replies := replies + [r];
      i := i + 1;
    }
    assert commands[i..] == [];
  }

  // ---------------------------------------------------------------------------
  // The plain file a slice refines
  // ---------------------------------------------------------------------------

  /** An in-memory byte file with io.BytesIO's own seek and read. */
  function FileDo(content: bytes, position: int, command: Command): (Reply, int)
    requires position >= 0
    ensures FileDo(content, position, command).1 >= 0
  {
    match command
    case Seek(offset, whence) =>
      if whence !in {0, 1, 2} || (whence == 0 && offset < 0) then (Failed, position)
      else
        var target := if whence == 0 then offset else if whence == 1 then position + offset else |content| + offset;
        var p := if target < 0 then 0 else target;
        (Position(p), p)
    case Read(size) =>
      if position >= |content| then (Data([]), position)
      else
        var whole := size.None? || size.value < 0 || position + size.value > |content|;
        var to := if whole then |content| else position + size.value;
        (Data(content[position..to]), to)
  }

  /** The file's replies when it is given only the commands the slice answered. */
  function FileSession(content: bytes, position: int, commands: seq<Command>, replies: seq<Reply>): (seq<Reply>, int)
    requires position >= 0 && |commands| == |replies|
    decreases |commands|
  {
    if commands == [] then ([], position)
    else if replies[0].Failed? then
      var rest := FileSession(content, position, commands[1..], replies[1..]);
      ([Failed] + rest.0, rest.1)
    else
      var d := FileDo(content, position, commands[0]);
      var rest := FileSession(content, d.1, commands[1..], replies[1..]);
      ([d.0] + rest.0, rest.1)
  }

  /** What the reader serves inside the window is the member's content, when it has the right length. */
  ghost predicate Faithful(w: Window, content: bytes) {
    && |content| == w.size
    && forall o, n | w.base <= o && 0 <= n && o + n <= w.base + w.size ::
         Serves(w.read(o, n), content[o - w.base..o - w.base + n])
  }

  predicate Serves(payload: Option<bytes>, expected: bytes) {
    payload.Some? && |payload.value| == |expected| ==> payload.value == expected
  }

  ghost predicate CallsInside(calls: seq<(int, int)>, base: int, size: int) {
    forall i | 0 <= i < |calls| :: base <= calls[i].0 && 0 < calls[i].1 && calls[i].0 + calls[i].1 <= base + size
  }

  ghost predicate CursorOk(w: Window, c: Cursor) {
    0 <= c.position <= w.size && 0 <= c.received <= w.budget
  }

  function DataLength(replies: seq<Reply>): int {
    if replies == [] then 0 else (if replies[0].Data? then |replies[0].data| else 0) + DataLength(replies[1..])
  }

  lemma InsideConcat(a: seq<(int, int)>, b: seq<(int, int)>, base: int, size: int)
    requires CallsInside(a, base, size) && CallsInside(b, base, size)
    ensures CallsInside(a + b, base, size)
  {}

  lemma CommandInside(w: Window, c: Cursor, command: Command)
    requires WindowOk(w) && CursorOk(w, c)
    ensures var d := Do(w, c, command);
            && CursorOk(w, d.1)
            && CallsInside(d.2, w.base, w.size)
            && d.1.received == c.received + (if d.0.Data? then |d.0.data| else 0)
  {}

  /**
   Whatever the reader serves and whatever is asked for: every underlying read stays inside the
   member, the position stays within it, and the bytes received are those delivered and never exceed
   the budget.
   */
  lemma {:induction false} SessionInside(w: Window, c: Cursor, commands: seq<Command>)
    requires WindowOk(w) && CursorOk(w, c)
    ensures var s := RunSession(w, c, commands);
            && |s.replies| == |commands|
            && CursorOk(w, s.cursor)
            && s.cursor.received == c.received + DataLength(s.replies)
            && CallsInside(s.calls, w.base, w.size)
    decreases |commands|
  {
    if commands != [] {
      var d := Do(w, c, commands[0]);
      CommandInside(w, c, commands[0]);
      hide Do, CallsInside, CursorOk;
      SessionInside(w, d.1, commands[1..]);
      var rest := RunSession(w, d.1, commands[1..]);
      var s := RunSession(w, c, commands);
      assert s.replies[0] == d.0 && s.replies[1..] == rest.replies;
      InsideConcat(d.2, rest.calls, w.base, w.size);
    } else {
      assert CallsInside([], w.base, w.size);
    }
  }

  /**
   A slice refines a plain byte file.  For every sequence of commands, each reply that is not a
   failure is the one an in-memory file of the member's bytes gives, and both end at the same
   position; a failure changes nothing.
   */
  lemma {:induction false} SliceRefinesFile(w: Window, content: bytes, c: Cursor, commands: seq<Command>)
    requires WindowOk(w) && Faithful(w, content) && CursorOk(w, c)
    ensures var s := RunSession(w, c, commands);
            && |s.replies| == |commands|
            && FileSession(content, c.position, commands, s.replies) == (s.replies, s.cursor.position)
    decreases |commands|
  {
    if commands == [] {
    } else {
      var d := Do(w, c, commands[0]);
      CommandInside(w, c, commands[0]);
      CommandRefines(w, content, c, commands[0]);
      hide Do, FileDo, Faithful, CursorOk;
      SliceRefinesFile(w, content, d.1, commands[1..]);
      var rest := RunSession(w, d.1, commands[1..]);
      var s := RunSession(w, c, commands);
      assert s.replies[0] == d.0 && s.replies[1..] == rest.replies;
    }
  }

  lemma CommandRefines(w: Window, content: bytes, c: Cursor, command: Command)
    requires WindowOk(w) && Faithful(w, content) && CursorOk(w, c)
    ensures var d := Do(w, c, command);
            if d.0.Failed? then d.1 == c else FileDo(content, c.position, command) == (d.0, d.1.position)
  {
    if command.Read? {
      var o, n := w.base + c.position, Wanted(w.size - c.position, command.size);
      var piece := content[c.position..c.position + n];
      assert FileDo(content, c.position, command) == (Data(piece), c.position + n) by {
        if c.position == |content| { assert piece == []; }
      }
      if n == 0 {
        assert piece == [];
      } else {
        assert Serves(w.read(o, n), content[o - w.base..o - w.base + n]);
      }
    }
  }

  /** The reader serves the member's content. */
  ghost predicate Serving(w: Window, content: bytes) {
    && |content| == w.size
    && forall o, n | w.base <= o && 0 <= n && o + n <= w.base + w.size ::
         w.read(o, n) == Some(content[o - w.base..o - w.base + n])
  }

  /** Where a seek would lead, for one of the three ways Python counts from. */
  function SeekGoal(size: int, position: int, offset: int, whence: int): int {
    if whence == 0 then offset else if whence == 1 then position + offset else size + offset
  }

  /**
   When a slice answers.  A seek is answered exactly when it leads into the member or to its end; a read, over a reader
   that serves the member, exactly when what the file would give is nothing or fits both limits.
   */
  lemma AnswersExact(w: Window, content: bytes, c: Cursor, command: Command)
    requires WindowOk(w) && Serving(w, content) && CursorOk(w, c)
    ensures var answered := !Do(w, c, command).0.Failed?;
            match command
            case Seek(offset, whence) =>
              answered <==> whence in {0, 1, 2} && 0 <= SeekGoal(w.size, c.position, offset, whence) <= w.size
            case Read(_) =>
              var file := FileDo(content, c.position, command).0;
              && file.Data?
              && (answered <==>
                    file.data == [] || (|file.data| <= w.maxSingleRead && c.received + |file.data| <= w.budget))
  {
    if command.Read? {
      var o, n := w.base + c.position, Wanted(w.size - c.position, command.size);
      var piece := content[c.position..c.position + n];
      assert FileDo(content, c.position, command) == (Data(piece), c.position + n) by {
        if c.position == |content| { assert piece == []; }
      }
      assert w.read(o, n) == Some(content[o - w.base..o - w.base + n]);
    }
  }

  // ---------------------------------------------------------------------------
  // The nested audit
  // ---------------------------------------------------------------------------

  /** Python's normalized member path, or None where it is unsafe; left arbitrary. */
  type Normalize = bytes -> Option<bytes>

  function Matches(normalize: Normalize, members: seq<Member>, wanted: bytes): seq<Member> {
    if members == [] then []
    else
      var first := if normalize(members[0].name) == Some(wanted) then [members[0]] else [];
      first + Matches(normalize, members[1..], wanted)
  }

  function FindMember(normalize: Normalize, members: seq<Member>, requested: bytes): Option<Member> {
    var wanted := normalize(requested);
    if wanted.None? || (exists i | 0 <= i < |members| :: normalize(members[i].name).None?) then None
    else
      var found := Matches(normalize, members, wanted.value);
      if |found| == 1 then Some(found[0]) else None
  }

  lemma {:induction false} MatchesAreMembers(normalize: Normalize, members: seq<Member>, wanted: bytes, k: nat)
    returns (i: nat)
    requires k < |Matches(normalize, members, wanted)|
    ensures i < |members| && members[i] == Matches(normalize, members, wanted)[k]
    ensures normalize(members[i].name) == Some(wanted)
  {
    if normalize(members[0].name) == Some(wanted) {
      if k == 0 {
        i := 0;
      } else {
        i := MatchesAreMembers(normalize, members[1..], wanted, k - 1);
        i := i + 1;
      }
    } else {
      i := MatchesAreMembers(normalize, members[1..], wanted, k);
      i := i + 1;
    }
  }

  /** Member i is the one that was asked for: every path is safe, and it alone has the requested one. */
  ghost predicate TheMember(normalize: Normalize, members: seq<Member>, requested: bytes, i: nat) {
    && i < |members| && normalize(requested).Some?
    && (forall j | 0 <= j < |members| :: normalize(members[j].name).Some?)
    && forall j | 0 <= j < |members| :: normalize(members[j].name) == normalize(requested) <==> j == i
  }

  /** A member is found exactly when it is the one that was asked for. */
  lemma FindExact(normalize: Normalize, members: seq<Member>, requested: bytes)
    ensures forall m :: FindMember(normalize, members, requested) == Some(m)
                        <==> exists i: nat :: TheMember(normalize, members, requested, i) && m == members[i]
  {
    var found := FindMember(normalize, members, requested);
    if found.Some? {
      var i := FoundIsTheMember(normalize, members, requested);
      assert TheMember(normalize, members, requested, i);
    }
    forall m, i: nat | TheMember(normalize, members, requested, i) && m == members[i] ensures found == Some(m) {
      TheMemberIsFound(normalize, members, requested, i);
    }
  }

  lemma FoundIsTheMember(normalize: Normalize, members: seq<Member>, requested: bytes) returns (i: nat)
    requires FindMember(normalize, members, requested).Some?
    ensures TheMember(normalize, members, requested, i) && FindMember(normalize, members, requested).value == members[i]
  {
    var wanted := normalize(requested).value;
    i := MatchesAreMembers(normalize, members, wanted, 0);
    forall j | 0 <= j < |members| && j != i ensures normalize(members[j].name) != Some(wanted) {
      if normalize(members[j].name) == Some(wanted) { TwoMatches(normalize, members, wanted, i, j); }
    }
  }

  lemma {:induction false} MatchesConcat(normalize: Normalize, a: seq<Member>, b: seq<Member>, wanted: bytes)
    ensures Matches(normalize, a + b, wanted) == Matches(normalize, a, wanted) + Matches(normalize, b, wanted)
  {
    if a == [] {
      assert a + b == b;
    } else {
      assert (a + b)[0] == a[0] && (a + b)[1..] == a[1..] + b;
      MatchesConcat(normalize, a[1..], b, wanted);
      var x, y := Matches(normalize, a[1..], wanted), Matches(normalize, b, wanted);
      assert [a[0]] + (x + y) == ([a[0]] + x) + y;
    }
  }

  lemma TwoMatches(normalize: Normalize, members: seq<Member>, wanted: bytes, i: nat, j: nat)
    requires i < |members| && j < |members| && i != j
    requires normalize(members[i].name) == normalize(members[j].name) == Some(wanted)
    ensures |Matches(normalize, members, wanted)| >= 2
  {
    var a, b := if i < j then i else j, if i < j then j else i;
    var front, back := members[..b], members[b..];
    assert members == front + back;
    MatchesConcat(normalize, front, back, wanted);
    OneMatch(normalize, front, wanted, a);
    OneMatch(normalize, back, wanted, 0);
  }

  lemma {:induction false} OneMatch(normalize: Normalize, members: seq<Member>, wanted: bytes, i: nat)
    requires i < |members| && normalize(members[i].name) == Some(wanted)
    ensures |Matches(normalize, members, wanted)| >= 1
  {
    if i == 0 {
    } else {
      OneMatch(normalize, members[1..], wanted, i - 1);
    }
  }

  lemma {:induction false} NoMatch(normalize: Normalize, members: seq<Member>, wanted: bytes)
    requires forall j | 0 <= j < |members| :: normalize(members[j].name) != Some(wanted)
    ensures Matches(normalize, members, wanted) == []
  {
    if members == [] {
    } else {
      NoMatch(normalize, members[1..], wanted);
    }
  }

  lemma TheMemberIsFound(normalize: Normalize, members: seq<Member>, requested: bytes, i: nat)
    requires TheMember(normalize, members, requested, i)
    ensures FindMember(normalize, members, requested) == Some(members[i])
  {
    var wanted := normalize(requested).value;
    var front, rest := members[..i], members[i + 1..];
    assert members == front + ([members[i]] + rest);
    assert forall j | 0 <= j < |front| :: front[j] == members[j];
    assert forall j | 0 <= j < |rest| :: rest[j] == members[i + 1 + j];
    NoMatch(normalize, front, wanted);
    NoMatch(normalize, rest, wanted);
    MatchesConcat(normalize, front, [members[i]] + rest, wanted);
    assert ([members[i]] + rest)[1..] == rest;
  }

  /** In a well-placed log a payload that holds a byte is apart from every other range. */
  lemma PayloadApart(log: seq<Touch>, limit: int, k: nat)
    requires WellPlaced(log, limit) && k < |log| && log[k].Payload? && log[k].size > 0
    ensures forall j | 0 <= j < |log| && j != k ::
              End(log[j]) <= log[k].offset || log[k].offset + log[k].size <= Begin(log[j])
  {
    forall j | 0 <= j < |log| && j != k
      ensures End(log[j]) <= log[k].offset || log[k].offset + log[k].size <= Begin(log[j])
    {
      if j < k {
        assert End(log[j]) <= Begin(log[k]);
      } else {
        assert End(log[k]) <= Begin(log[j]);
      }
    }
  }

  /** Every listed member has its payload range in the log. */
  lemma MemberInLog(text: Text, read: Reader, total: int, i: nat) returns (k: nat)
    requires AllMove(Listing(text, read, total).touches) && Listing(text, read, total).move.Done?
    requires i < |Listing(text, read, total).move.members|
    ensures var m := Listing(text, read, total).move.members[i];
            var log := Listing(text, read, total).touches;
            k < |log| && log[k] == Payload(m.payloadOffset, m.size) && WellPlaced(log, total)
  {
    hide RunFrom, AllMove, WellPlaced;
    var log, ms := Listing(text, read, total).touches, Listing(text, read, total).move.members;
    WalkSafety(text, read, total, START, Enough(total));
    assert Extents([]) + Payloads(log) == Payloads(log);
    assert Payloads(log)[i] == Extents(ms)[i];
    k := PayloadAt(log, i);
  }

  /**
   A nested audit touches only headers, metadata and the member that was asked for: whatever the ZIP client
   asks for, each underlying read lies inside that member's payload, and that payload is apart from every header,
   every metadata payload and every other member's payload.
   */
  lemma NestedAuditTouches(
    text: Text, read: Reader, total: int, normalize: Normalize, requested: bytes, i: nat, w: Window,
    commands: seq<Command>)
    requires AllMove(Listing(text, read, total).touches)
    requires Listing(text, read, total).move.Done?
    requires TheMember(normalize, Listing(text, read, total).move.members, requested, i)
    requires var m := Listing(text, read, total).move.members[i];
             w.read == read && w.base == m.payloadOffset && w.size == m.size
    requires WindowOk(w)
    ensures var log := Listing(text, read, total).touches;
            && CallsInside(RunSession(w, Cursor(0, 0, 0), commands).calls, w.base, w.size)
            && exists k :: 0 <= k < |log| && log[k] == Payload(w.base, w.size) &&
                 forall j | 0 <= j < |log| && j != k :: End(log[j]) <= w.base || w.base + w.size <= Begin(log[j])
  {
    hide Listing, RunSession, AllMove, WellPlaced, CallsInside, End;
    SessionInside(w, Cursor(0, 0, 0), commands);
    var k := MemberInLog(text, read, total, i);
    PayloadApart(Listing(text, read, total).touches, total, k);
  }

  lemma {:induction false} PayloadAt(log: seq<Touch>, i: nat) returns (k: nat)
    requires i < |Payloads(log)|
    ensures k < |log| && log[k] == Payload(Payloads(log)[i].0, Payloads(log)[i].1)
  {
    if log[0].Payload? && i == 0 {
      k := 0;
    } else if log[0].Payload? {
      k := PayloadAt(log[1..], i - 1);
      k := k + 1;
    } else {
      k := PayloadAt(log[1..], i);
      k := k + 1;
    }
  }

  lemma EveryTheMember(normalize: Normalize, members: seq<Member>, requested: bytes)
    ensures forall i: nat | TheMember(normalize, members, requested, i) ::
              i < |members| && FindMember(normalize, members, requested) == Some(members[i])
  {
    forall i: nat | TheMember(normalize, members, requested, i)
      ensures FindMember(normalize, members, requested) == Some(members[i])
    {
      TheMemberIsFound(normalize, members, requested, i);
    }
  }

  /** The audit as it runs, up to the replies the ZIP client receives. */
  method AuditNested(
    text: Text, read: Reader, total: int, normalize: Normalize, requested: bytes, expectedSize: Option<int>,
    maxSingleRead: int, budget: int, commands: seq<Command>)
    returns (replies: Option<seq<Reply>>, calls: seq<(int, int)>)
    requires AllMove(Listing(text, read, total).touches)
    ensures replies.Some? <==>
            && Listing(text, read, total).move.Done?
            && var ms := Listing(text, read, total).move.members;
            exists i: nat :: TheMember(normalize, ms, requested, i)
                             && (expectedSize.Some? ==> ms[i].size == expectedSize.value)
                             && WindowOk(Window(read, ms[i].payloadOffset, ms[i].size, maxSingleRead, budget))
    ensures replies.Some? ==>
              var ms := Listing(text, read, total).move.members;
              forall i: nat | TheMember(normalize, ms, requested, i) ::
                var w := Window(read, ms[i].payloadOffset, ms[i].size, maxSingleRead, budget);
                var s := RunSession(w, Cursor(0, 0, 0), commands);
                replies.value == s.replies && calls == Reads(Listing(text, read, total).touches) + s.calls
    ensures replies.None? ==> calls == Reads(Listing(text, read, total).touches)
  {
    hide Listing, Reads, AllMove, FindMember, TheMember, RunSession;
    var members, walked := ListTar(text, read, total);
    calls := walked;
    if members.None? {
      return None, calls;
    }
    var member := FindMember(normalize, members.value, requested);
    EveryTheMember(normalize, members.value, requested);
    if member.Some? { ghost var i := FoundIsTheMember(normalize, members.value, requested); }
    if member.None? || (expectedSize.Some? && member.value.size != expectedSize.value) {
      return None, calls;
    }
    var w := Window(read, member.value.payloadOffset, member.value.size, maxSingleRead, budget);
    if !WindowOk(w) {
      return None, calls;
    }
    var slice := new Slice(w);
    var answered := Drive(slice, commands);
    assert [] + RunSession(w, Cursor(0, 0, 0), commands).calls == RunSession(w, Cursor(0, 0, 0), commands).calls;
    return Some(answered), calls + slice.calls;
  }
}
