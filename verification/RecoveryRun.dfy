/** The gate as it runs: an object that reads the clock, sends requests and prints, proved against module Recovery. */
module RecoveryRun {
  import opened Wrappers
  import opened Recovery

  method CountRefs(entries: seq<Option<string>>, kind: Kind, ref: string) returns (r: Option<nat>)
    ensures r == CountExact(entries, kind, ref)
  {
    hide FairRef;
    var count := 0;
    CountNone(kind, ref);
    for i := 0 to |entries|
      invariant CountExact(entries[..i], kind, ref) == Some(count)
    {
      CountStep(entries, i, kind, ref);
      if entries[i] == Some(KindPrefix(kind) + ref) {
        count := count + 1;
      } else if !FairRef(entries[i], kind, ref) {
        CountStuck(entries, i + 1, kind, ref);
        return None;
      }
    }
    assert entries[..|entries|] == entries;
    r := Some(count);
  }

  lemma CountNone(kind: Kind, ref: string)
    ensures CountExact([], kind, ref) == Some(0)
  {}

  lemma CountStep(entries: seq<Option<string>>, i: nat, kind: Kind, ref: string)
    requires i < |entries|
    ensures CountExact(entries[..i + 1], kind, ref)
         == var n := CountExact(entries[..i], kind, ref);
            if n.None? then None
            else if entries[i] == Some(KindPrefix(kind) + ref) then Some(n.value + 1)
            else if FairRef(entries[i], kind, ref) then n else None
  {
    hide FairRef;
    assert entries[..i + 1][..i] == entries[..i];
  }

  lemma {:induction false} CountStuck(entries: seq<Option<string>>, i: nat, kind: Kind, ref: string)
    requires i <= |entries| && CountExact(entries[..i], kind, ref).None?
    ensures CountExact(entries, kind, ref).None?
    decreases |entries| - i
  {
    if i == |entries| {
      assert entries[..i] == entries;
    } else {
      hide CountExact;
      CountStep(entries, i, kind, ref);
      CountStuck(entries, i + 1, kind, ref);
    }
  }

  lemma AcceptedReplied(reply: Reply, reject: bool)
    requires Accepted(reply, reject)
    ensures reply.Reply?
  {}

  lemma BlobsStep(w: World, s: State, blobs: seq<Blob>, i: nat, token: Option<string>, d: real)
    requires i < |blobs|
    ensures RecoverBlobs(w, s, blobs[i..], token, d)
         == var first := RecoverBlob(w, s, blobs[i], token, d);
            if first.result.None? then first else RecoverBlobs(w, first.state, blobs[i + 1..], token, d)
  {
    hide RecoverBlob;
    assert blobs[i..][1..] == blobs[i + 1..];
  }

  lemma BlobsDone(w: World, s: State, blobs: seq<Blob>, token: Option<string>, d: real)
    ensures RecoverBlobs(w, s, blobs[|blobs|..], token, d) == Run(Some(()), s)
  {}

  /** Identities already found, in front of those a run still finds. */
  function InFront(found: seq<string>, run: Run<seq<string>>): Run<seq<string>> {
    if run.result.None? then run else run.(result := Some(found + run.result.value))
  }

  lemma InFrontNone(run: Run<seq<string>>)
    ensures InFront([], run) == run
  {
    if run.result.Some? { assert [] + run.result.value == run.result.value; }
  }

  lemma InFrontStep(found: seq<string>, x: string, run: Run<seq<string>>)
    ensures InFront(found, InFront([x], run)) == InFront(found + [x], run)
  {
    if run.result.Some? { assert found + ([x] + run.result.value) == found + [x] + run.result.value; }
  }

  lemma ApisStep(w: World, s: State, urls: seq<string>, i: nat, token: Option<string>, d: real)
    requires i < |urls|
    ensures RecoverApis(w, s, urls[i..], token, d)
         == var first := RecoverApi(w, s, urls[i], token, d);
            if first.result.None? then Run(None, first.state)
            else InFront([first.result.value], RecoverApis(w, first.state, urls[i + 1..], token, d))
  {
    hide RecoverApi;
    assert urls[i..][1..] == urls[i + 1..];
  }

  lemma ApisDone(w: World, s: State, urls: seq<string>, token: Option<string>, d: real)
    ensures RecoverApis(w, s, urls[|urls|..], token, d) == Run(Some([]), s)
  {}

  class Gate {
    const world: World
    const token: Option<string>
    var ticks: nat
    var sent: nat
    /** What was done, for the proofs; and the lines printed. */
    ghost var log: seq<Event>
    var printed: seq<Line>

    constructor (world: World, token: Option<string>)
      ensures this.world == world && this.token == token && Now() == START && printed == []
    {
      this.world, this.token := world, token;
      ticks, sent, log, printed := 0, 0, [], [];
    }

    ghost function Now(): State
      reads this
    {
      State(ticks, sent, log)
    }

    method Monotonic() returns (t: real)
      modifies `ticks, `log
      ensures (t, Now()) == Recovery.Now(world, old(Now()))
    {
      t := world.clock(ticks);
      ticks := ticks + 1;
      log := log + [Tick(t)];
    }

    /** _request_api_json */
    method RequestJson(r: Request, deadline: real, rejectPagination: bool) returns (payload: Option<Payload>)
      modifies `ticks, `sent, `log
      ensures Run(payload, Now()) == Fetch(world, old(Now()), r, deadline, rejectPagination)
    {
      hide Accepted, Timeout;
      var before := Monotonic();
      if before >= deadline { return None; }
      var again := Monotonic();
      var reply := world.server(sent, r);
      log := log + [Sent(sent, r, Timeout(deadline - again))];
      sent := sent + 1;
      if !Accepted(reply, rejectPagination) { return None; }
      AcceptedReplied(reply, rejectPagination);
      var after := Monotonic();
      if after >= deadline { return None; }
      payload := reply.payload;
    }

    /** _verify_ref_is_unambiguous */
    method VerifyRef(blob: Blob, deadline: real) returns (ok: bool)
      modifies `ticks, `sent, `log
      ensures Run(if ok then Some(()) else None, Now()) == Unambiguous(world, old(Now()), blob, deadline)
    {
      hide Fetch, CountExact;
      if world.sha(blob.ref) { return true; }
      var exact := 0;
      var kinds := [Heads, Tags];
      ghost var start := Now();
      ghost var heads := KindEvidence(world, start, blob, Heads, deadline);
      for i := 0 to 2
        invariant i == 0 ==> Now() == start && exact == 0
        invariant i == 1 ==> heads == Run(Some(exact), Now())
        invariant i == 2 ==> heads.result.Some? && exact >= heads.result.value
                             && KindEvidence(world, heads.state, blob, Tags, deadline)
                               == Run(Some(exact - heads.result.value), Now())
      {
        var payload := RequestJson(MatchingRefs(blob, kinds[i]), deadline, true);
        if payload.None? || !payload.value.List? || |payload.value.entries| >= REF_PAGE_SIZE { return false; }
        var count := CountRefs(payload.value.entries, kinds[i], blob.ref);
        if count.None? { return false; }
        exact := exact + count.value;
      }
      return exact == 1;
    }

    method Recover503(blob: Blob, deadline: real) returns (ok: bool)
      modifies `ticks, `sent, `log
      ensures Run(if ok then Some(()) else None, Now()) == RecoverBlob(world, old(Now()), blob, token, deadline)
    {
      hide Fetch, Unambiguous, ValidToken;
      if !ValidToken(token) { return false; }
      var t := Monotonic();
      if t >= deadline { return false; }
      var payload := RequestJson(Contents(blob), deadline, false);
      if payload.None? || !world.contentOk(blob, payload.value) { return false; }
      ok := VerifyRef(blob, deadline);
    }

    method Recover403(url: string, deadline: real) returns (identity: Option<string>)
      modifies `ticks, `sent, `log
      ensures Run(identity, Now()) == RecoverApi(world, old(Now()), url, token, deadline)
    {
      hide Fetch, ValidToken;
      if !ValidToken(token) { return None; }
      var payload := RequestJson(Recheck(url), deadline, true);
      if payload.None? { return None; }
      identity := world.identity(url, payload.value);
    }

    method RecoverAllBlobs(blobs: seq<Blob>, deadline: real) returns (ok: bool)
      modifies `ticks, `sent, `log
      ensures Run(if ok then Some(()) else None, Now()) == RecoverBlobs(world, old(Now()), blobs, token, deadline)
    {
      hide RecoverBlob, RecoverBlobs;
      ghost var whole := RecoverBlobs(world, Now(), blobs, token, deadline);
      assert blobs[0..] == blobs;
      for i := 0 to |blobs|
        invariant RecoverBlobs(world, Now(), blobs[i..], token, deadline) == whole
      {
        BlobsStep(world, Now(), blobs, i, token, deadline);
        var one := Recover503(blobs[i], deadline);
        if !one { return false; }
      }
      BlobsDone(world, Now(), blobs, token, deadline);
      ok := true;
    }

    method RecoverAllApis(urls: seq<string>, deadline: real) returns (identities: Option<seq<string>>)
      modifies `ticks, `sent, `log
      ensures Run(identities, Now()) == RecoverApis(world, old(Now()), urls, token, deadline)
    {
      hide RecoverApi, RecoverApis;
      ghost var whole := RecoverApis(world, Now(), urls, token, deadline);
      var found: seq<string> := [];
      assert urls[0..] == urls;
      InFrontNone(whole);
      for i := 0 to |urls|
        invariant whole == InFront(found, RecoverApis(world, Now(), urls[i..], token, deadline))
      {
        ApisStep(world, Now(), urls, i, token, deadline);
        var one := Recover403(urls[i], deadline);
        if one.None? { return None; }
        InFrontStep(found, one.value, RecoverApis(world, Now(), urls[i + 1..], token, deadline));
        found := found + [one.value];
      }
      ApisDone(world, Now(), urls, token, deadline);
      assert found + [] == found;
      identities := Some(found);
    }

    method PrintLines(blobs: seq<Blob>, apis: seq<string>, identities: seq<string>)
      requires |identities| == |apis|
      modifies `printed
      ensures printed == old(printed) + Lines(blobs, apis, identities)
    {
      ghost var was := printed;
      for i := 0 to |blobs|
        invariant printed == was + seq(i, j requires 0 <= j < i => RecoveredBlob(blobs[j].url))
      {
        printed := printed + [RecoveredBlob(blobs[i].url)];
      }
      ghost var half := printed;
      for i := 0 to |apis|
        invariant printed == half + seq(i, j requires 0 <= j < i => RecheckedApi(identities[j], apis[j]))
      {
        printed := printed + [RecheckedApi(identities[i], apis[i])];
      }
    }

    /** The end of check_report: nothing is printed before every recovery is done. */
    method RecoverAndPrint(c: Candidates, deadline: real) returns (ok: bool)
      modifies this
      ensures var run := Recover(world, old(Now()), c, token, deadline);
              && ok == run.result.Some? && Now() == run.state
              && printed == old(printed) + (if ok then run.result.value else [])
    {
      hide RecoverBlobs, RecoverApis, Lines;
      ok := RecoverAllBlobs(c.blobs, deadline);
      if !ok { return; }
      OneIdentityEach(world, Now(), c.apis, token, deadline);
      var identities := RecoverAllApis(c.apis, deadline);
      if identities.None? { return false; }
      PrintLines(c.blobs, c.apis, identities.value);
    }

    /** The loop of check_report that sorts the error bodies. */
    static method Sort(world: World, errors: seq<Body>) returns (r: Option<Candidates>)
      ensures r == Collect(world, errors)
    {
      hide AddBody;
      var c := Candidates([], []);
      CollectNone(world);
      for i := 0 to |errors|
        invariant Collect(world, errors[..i]) == Some(c)
      {
        CollectStep(world, errors, i);
        var next := AddBody(world, c, errors[i]);
        if next.None? {
          CollectStuck(world, errors, i + 1);
          return None;
        }
        c := next.value;
      }
      assert errors[..|errors|] == errors;
      r := Some(c);
    }

    /** check_report: whether it returns rather than raises. */
    method Check(report: Report, exitCode: int, seconds: real) returns (ok: bool)
      requires Now() == START
      modifies this
      ensures var run := CheckReport(world, report, exitCode, token, seconds);
              && ok == run.result.Some? && Now() == run.state
              && printed == old(printed) + (if ok then run.result.value else [])
    {
      hide Collect, Recover;
      var v := ValidateReport(report, exitCode);
      if v.None? { return false; }
      var (errors, timeouts) := v.value;
      if timeouts > 0 { return false; }
      if exitCode == 0 { return true; }
      var t := Monotonic();
      var c := Sort(world, errors);
      if c.None? { return false; }
      if c.value.blobs == [] && c.value.apis == [] { return false; }
      if |c.value.blobs| + |c.value.apis| > MAX_FALLBACK_URLS { return false; }
      ok := RecoverAndPrint(c.value, t + seconds);
    }
  }

  lemma CollectNone(w: World)
    ensures Collect(w, []) == Some(Candidates([], []))
  {}

  lemma CollectStep(w: World, errors: seq<Body>, i: nat)
    requires i < |errors|
    ensures Collect(w, errors[..i + 1])
         == var c := Collect(w, errors[..i]); if c.None? then None else AddBody(w, c.value, errors[i])
  {
    hide AddBody;
    assert errors[..i + 1][..i] == errors[..i];
  }

  lemma {:induction false} CollectStuck(w: World, errors: seq<Body>, i: nat)
    requires i <= |errors| && Collect(w, errors[..i]).None?
    ensures Collect(w, errors).None?
    decreases |errors| - i
  {
    if i == |errors| {
      assert errors[..i] == errors;
    } else {
      hide Collect;
      CollectStep(w, errors, i);
      CollectStuck(w, errors, i + 1);
    }
  }

  // ---------------------------------------------------------------------------
  // validate_report
  // ---------------------------------------------------------------------------

  lemma BodiesStep(lists: seq<seq<Body>>, i: nat)
    requires i < |lists|
    ensures Bodies(lists[..i + 1]) == Bodies(lists[..i]) + lists[i]
  {
    assert lists[..i + 1][..i] == lists[..i];
  }

  lemma {:induction false} BodiesInside(lists: seq<seq<Body>>, i: nat)
    requires i < |lists|
    ensures forall b | b in lists[i] :: b in Bodies(lists)
  {
    if i == |lists| - 1 {
    } else {
      BodiesInside(lists[..|lists| - 1], i);
      assert lists[..|lists| - 1][i] == lists[i];
    }
  }

  lemma {:induction false} BodiesEmpty(lists: seq<seq<Body>>)
    requires forall i | 0 <= i < |lists| :: lists[i] != []
    ensures Bodies(lists) == [] <==> lists == []
  {
    if lists == [] {
    } else {
      assert lists[|lists| - 1] != [];
    }
  }

  /** One failure map: its bodies, or None where the source raises. */
  method ReadMap(lists: seq<seq<Body>>, count: nat) returns (r: Option<seq<Body>>)
    ensures r.Some? <==> MapOk(lists, count)
    ensures r.Some? ==> r.value == Bodies(lists)
  {
    hide BodyOk;
    var bodies: seq<Body> := [];
    for i := 0 to |lists|
      invariant bodies == Bodies(lists[..i])
      invariant forall j | 0 <= j < i :: lists[j] != []
      invariant forall b | b in bodies :: BodyOk(b)
    {
      if lists[i] == [] { return None; }
      BodiesStep(lists, i);
      BodiesInside(lists, i);
      for k := 0 to |lists[i]|
        invariant bodies == Bodies(lists[..i]) + lists[i][..k]
        invariant forall b | b in bodies :: BodyOk(b)
      {
        assert lists[i][k] in lists[i];
        if !BodyOk(lists[i][k]) { return None; }
        bodies := bodies + [lists[i][k]];
      }
      assert lists[i][..|lists[i]|] == lists[i];
    }
    assert lists[..|lists|] == lists;
    BodiesEmpty(lists);
    if |bodies| > count || (count > 0 && bodies == []) { return None; }
    r := Some(bodies);
  }

  method ValidateReport(report: Report, exitCode: int) returns (r: Option<(seq<Body>, nat)>)
    ensures r == Validate(report, exitCode)
  {
    hide MapOk, Bodies;
    if report.Misshapen? { return None; }
    if report.total == 0 || report.unique == 0 || report.unique > report.total { return None; }
    if Accounted(report) != report.total {
      return None;
    }
    if report.cached > report.total { return None; }
    var errors := ReadMap(report.errorMap, report.errors);
    if errors.None? { return None; }
    var timeouts := ReadMap(report.timeoutMap, report.timeouts);
    if timeouts.None? { return None; }
    for i := 0 to |timeouts.value|
      invariant forall j | 0 <= j < i :: timeouts.value[j].code.None?
    {
      if timeouts.value[i].code.Some? {
        assert timeouts.value[i] in Bodies(report.timeoutMap);
        return None;
      }
    }
    if exitCode == 0 {
      if report.errors + report.timeouts > 0 { return None; }
    } else if exitCode == 2 {
      if report.errors + report.timeouts == 0 { return None; }
    } else {
      return None;
    }
    r := Some((errors.value, report.timeouts));
  }
}
