/** What every run of the recovery gate keeps, whatever the clock and the server do. */
module RecoverySafety {
  import opened Sequences
  import opened Wrappers
  import opened Recovery

  // ---------------------------------------------------------------------------
  // The deadline
  // ---------------------------------------------------------------------------

  /** The time left, but a tenth of a second at least and ten seconds at most. */
  predicate Clamped(timeout: real, left: real) {
    && 0.1 <= timeout <= 10.0
    && (timeout == left || (timeout == 0.1 && left < 0.1) || (timeout == 10.0 && left > 10.0))
  }

  /** The reading that let request i go ahead, the reading its timeout was computed from, and that timeout. */
  ghost predicate Preceded(log: seq<Event>, i: nat, d: real) {
    && 2 <= i < |log| && log[i].Sent?
    && log[i - 2].Tick? && log[i - 2].at < d
    && log[i - 1].Tick? && Clamped(log[i].timeout, d - log[i - 1].at)
  }

  /** The reading after an accepted reply. */
  ghost predicate Followed(log: seq<Event>, i: nat, d: real) {
    i + 1 < |log| && log[i + 1].Tick? && log[i + 1].at < d
  }

  /** Every request was let go ahead in time, and all but possibly the last one came back in time. */
  ghost predicate Timed(log: seq<Event>, d: real) {
    forall i: nat | i < |log| && log[i].Sent? :: Preceded(log, i, d) && (Followed(log, i, d) || i >= |log| - 2)
  }

  ghost predicate Settled(log: seq<Event>, d: real) {
    forall i: nat | i < |log| && log[i].Sent? :: Preceded(log, i, d) && Followed(log, i, d)
  }

  lemma Extends(log: seq<Event>, more: seq<Event>, i: nat, d: real)
    ensures Preceded(log, i, d) ==> Preceded(log + more, i, d)
    ensures Followed(log, i, d) ==> Followed(log + more, i, d)
  {}

  lemma SettledTick(log: seq<Event>, t: real, d: real)
    requires Settled(log, d)
    ensures Settled(log + [Tick(t)], d)
  {
    forall i: nat | i < |log + [Tick(t)]| && (log + [Tick(t)])[i].Sent?
      ensures Preceded(log + [Tick(t)], i, d) && Followed(log + [Tick(t)], i, d)
    {
      Extends(log, [Tick(t)], i, d);
    }
  }

  lemma TimedSend(log: seq<Event>, t1: real, t2: real, e: Event, d: real)
    requires Settled(log, d) && t1 < d && e.Sent? && Clamped(e.timeout, d - t2)
    ensures Timed(log + [Tick(t1)] + [Tick(t2)] + [e], d)
    ensures forall t3 :: Timed(log + [Tick(t1)] + [Tick(t2)] + [e] + [Tick(t3)], d)
    ensures forall t3 | t3 < d :: Settled(log + [Tick(t1)] + [Tick(t2)] + [e] + [Tick(t3)], d)
  {
    var three := [Tick(t1)] + [Tick(t2)] + [e];
    var all := log + [Tick(t1)] + [Tick(t2)] + [e];
    assert all == log + three;
    forall i: nat | i < |all| && all[i].Sent?
      ensures Preceded(all, i, d) && (i < |log| ==> Followed(all, i, d)) && (i >= |log| ==> i == |all| - 1)
    {
      if i < |log| { Extends(log, three, i, d); }
    }
    forall t3
      ensures Timed(all + [Tick(t3)], d) && (t3 < d ==> Settled(all + [Tick(t3)], d))
    {
      var more := all + [Tick(t3)];
      forall i: nat | i < |more| && more[i].Sent?
        ensures Preceded(more, i, d) && (i < |log| ==> Followed(more, i, d)) && (i >= |log| ==> i == |all| - 1)
      {
        Extends(all, [Tick(t3)], i, d);
      }
    }
  }

  lemma TimeoutClamped(left: real)
    ensures Clamped(Timeout(left), left)
  {}

  lemma FetchTimed(w: World, s: State, r: Request, d: real, reject: bool)
    requires Settled(s.log, d)
    ensures var f := Fetch(w, s, r, d, reject); Timed(f.state.log, d) && (f.result.Some? ==> Settled(f.state.log, d))
  {
    hide Settled, Timed, Accepted, Timeout;
    var (t1, s1) := Now(w, s);
    SettledTick(s.log, t1, d);
    SettledIsTimed(s1.log, d);
    if t1 < d {
      var (t2, s2) := Now(w, s1);
      TimeoutClamped(d - t2);
      TimedSend(s.log, t1, t2, Sent(s2.sent, r, Timeout(d - t2)), d);
    }
  }

  lemma SettledIsTimed(log: seq<Event>, d: real)
    requires Settled(log, d)
    ensures Timed(log, d)
  {}

  lemma KindTimed(w: World, s: State, blob: Blob, kind: Kind, d: real)
    requires Settled(s.log, d)
    ensures var f := KindEvidence(w, s, blob, kind, d);
            Timed(f.state.log, d) && (f.result.Some? ==> Settled(f.state.log, d))
  {
    hide Settled, Timed, Fetch, CountExact;
    FetchTimed(w, s, MatchingRefs(blob, kind), d, true);
  }

  lemma BlobTimed(w: World, s: State, blob: Blob, token: Option<string>, d: real)
    requires Settled(s.log, d)
    ensures var f := RecoverBlob(w, s, blob, token, d);
            Timed(f.state.log, d) && (f.result.Some? ==> Settled(f.state.log, d))
  {
    hide Settled, Timed, Fetch, KindEvidence, ValidToken;
    SettledIsTimed(s.log, d);
    var (t, s1) := Now(w, s);
    SettledTick(s.log, t, d);
    SettledIsTimed(s1.log, d);
    FetchTimed(w, s1, Contents(blob), d, false);
    var f := Fetch(w, s1, Contents(blob), d, false);
    if f.result.Some? {
      SettledIsTimed(f.state.log, d);
      KindTimed(w, f.state, blob, Heads, d);
      var heads := KindEvidence(w, f.state, blob, Heads, d);
      if heads.result.Some? { KindTimed(w, heads.state, blob, Tags, d); }
    }
  }

  lemma ApiTimed(w: World, s: State, url: string, token: Option<string>, d: real)
    requires Settled(s.log, d)
    ensures var f := RecoverApi(w, s, url, token, d);
            Timed(f.state.log, d) && (f.result.Some? ==> Settled(f.state.log, d))
  {
    hide Settled, Timed, Fetch, ValidToken;
    SettledIsTimed(s.log, d);
    FetchTimed(w, s, Recheck(url), d, true);
  }

  lemma {:induction false} BlobsTimed(w: World, s: State, blobs: seq<Blob>, token: Option<string>, d: real)
    requires Settled(s.log, d)
    ensures var f := RecoverBlobs(w, s, blobs, token, d);
            Timed(f.state.log, d) && (f.result.Some? ==> Settled(f.state.log, d))
    decreases |blobs|
  {
    hide Settled, Timed, RecoverBlob;
    SettledIsTimed(s.log, d);
    if blobs == [] {
    } else {
      BlobTimed(w, s, blobs[0], token, d);
      var first := RecoverBlob(w, s, blobs[0], token, d);
      if first.result.Some? { BlobsTimed(w, first.state, blobs[1..], token, d); }
    }
  }

  lemma {:induction false} ApisTimed(w: World, s: State, urls: seq<string>, token: Option<string>, d: real)
    requires Settled(s.log, d)
    ensures var f := RecoverApis(w, s, urls, token, d);
            Timed(f.state.log, d) && (f.result.Some? ==> Settled(f.state.log, d))
    decreases |urls|
  {
    hide Settled, Timed, RecoverApi;
    SettledIsTimed(s.log, d);
    if urls == [] {
    } else {
      ApiTimed(w, s, urls[0], token, d);
      var first := RecoverApi(w, s, urls[0], token, d);
      if first.result.Some? { ApisTimed(w, first.state, urls[1..], token, d); }
    }
  }

  lemma RecoverTimed(w: World, s: State, c: Candidates, token: Option<string>, d: real)
    requires Settled(s.log, d)
    ensures var f := Recover(w, s, c, token, d); Timed(f.state.log, d) && (f.result.Some? ==> Settled(f.state.log, d))
  {
    hide Settled, Timed, RecoverBlobs, RecoverApis, Lines;
    BlobsTimed(w, s, c.blobs, token, d);
    var blobs := RecoverBlobs(w, s, c.blobs, token, d);
    if blobs.result.Some? { ApisTimed(w, blobs.state, c.apis, token, d); }
  }

  // ---------------------------------------------------------------------------
  // What a run adds to its log
  // ---------------------------------------------------------------------------

  /** The error URL a request verifies; the ref queries belong to a verification already begun. */
  function PrimaryOf(r: Request): seq<string> {
    match r
    case Contents(blob) => [blob.url]
    case Recheck(url) => [url]
    case MatchingRefs(_, _) => []
  }

  function Primary(log: seq<Event>): seq<string> {
    if log == [] then []
    else
      var last := log[|log| - 1];
      Primary(log[..|log| - 1]) + (if last.Sent? then PrimaryOf(last.request) else [])
  }

  function Requests(log: seq<Event>): nat {
    if log == [] then 0 else Requests(log[..|log| - 1]) + (if log[|log| - 1].Sent? then 1 else 0)
  }

  /** Readings come in the order of the clock, and none is later than the next one will be. */
  ghost predicate Ascending(w: World, s: State) {
    w.Monotone() ==>
      && (forall i | 0 <= i < |s.log| && s.log[i].Tick? :: s.log[i].at <= w.clock(s.ticks))
      && (forall i, j | 0 <= i < j < |s.log| && s.log[i].Tick? && s.log[j].Tick? :: s.log[i].at <= s.log[j].at)
  }

  /** From s to t the run began the verifications p, and nothing was taken back. */
  ghost predicate Grows(w: World, s: State, t: State, p: seq<string>) {
    && s.log <= t.log
    && Primary(t.log) == Primary(s.log) + p
    && Requests(t.log) - Requests(s.log) == t.sent - s.sent
    && (Ascending(w, s) ==> Ascending(w, t))
  }

  lemma GrowsNot(w: World, s: State)
    ensures Grows(w, s, s, [])
  {
    assert Primary(s.log) + [] == Primary(s.log);
  }

  lemma GrowsThen(w: World, s: State, t: State, u: State, p: seq<string>, q: seq<string>)
    requires Grows(w, s, t, p) && Grows(w, t, u, q)
    ensures Grows(w, s, u, p + q)
  {
    hide Ascending, Primary, Requests;
  }

  lemma LogAppend(log: seq<Event>, e: Event)
    ensures Primary(log + [e]) == Primary(log) + (if e.Sent? then PrimaryOf(e.request) else [])
    ensures Requests(log + [e]) == Requests(log) + (if e.Sent? then 1 else 0)
  {
    assert (log + [e])[..|log|] == log;
  }

  lemma NowGrows(w: World, s: State)
    ensures Grows(w, s, Now(w, s).1, [])
  {
    var (t, s1) := Now(w, s);
    LogAppend(s.log, Tick(t));
    if w.Monotone() { assert w.clock(s.ticks) <= w.clock(s.ticks + 1); }
  }

  lemma SendGrows(w: World, s: State, r: Request, timeout: real)
    ensures Grows(w, s, s.(sent := s.sent + 1, log := s.log + [Sent(s.sent, r, timeout)]), PrimaryOf(r))
  {
    LogAppend(s.log, Sent(s.sent, r, timeout));
  }

  lemma FetchGrows(w: World, s: State, r: Request, d: real, reject: bool) returns (p: seq<string>)
    ensures var f := Fetch(w, s, r, d, reject);
            Grows(w, s, f.state, p) && p <= PrimaryOf(r) && (f.result.Some? ==> p == PrimaryOf(r))
            && f.state.sent <= s.sent + 1
  {
    hide Grows, PrimaryOf, Accepted, Timeout;
    var (t1, s1) := Now(w, s);
    NowGrows(w, s);
    if t1 >= d { return []; }
    var (t2, s2) := Now(w, s1);
    NowGrows(w, s1);
    GrowsThen(w, s, s1, s2, [], []);
    var s3 := s2.(sent := s2.sent + 1, log := s2.log + [Sent(s2.sent, r, Timeout(d - t2))]);
    SendGrows(w, s2, r, Timeout(d - t2));
    GrowsThen(w, s, s2, s3, [] + [], PrimaryOf(r));
    assert [] + [] + PrimaryOf(r) == PrimaryOf(r);
    NowGrows(w, s3);
    GrowsThen(w, s, s3, Now(w, s3).1, PrimaryOf(r), []);
    assert PrimaryOf(r) + [] == PrimaryOf(r);
    p := PrimaryOf(r);
  }

  lemma KindGrows(w: World, s: State, blob: Blob, kind: Kind, d: real)
    ensures var f := KindEvidence(w, s, blob, kind, d); Grows(w, s, f.state, []) && f.state.sent <= s.sent + 1
  {
    hide Grows, Fetch, CountExact;
    var p := FetchGrows(w, s, MatchingRefs(blob, kind), d, true);
  }

  lemma RefsGrow(w: World, s: State, blob: Blob, d: real)
    ensures var f := Unambiguous(w, s, blob, d); Grows(w, s, f.state, []) && f.state.sent <= s.sent + 2
  {
    hide Grows, KindEvidence;
    GrowsNot(w, s);
    KindGrows(w, s, blob, Heads, d);
    var heads := KindEvidence(w, s, blob, Heads, d).state;
    KindGrows(w, heads, blob, Tags, d);
    GrowsThen(w, s, heads, KindEvidence(w, heads, blob, Tags, d).state, [], []);
    var none: seq<string> := [];
    assert none + none == none;
  }

  lemma BlobGrows(w: World, s: State, blob: Blob, token: Option<string>, d: real) returns (p: seq<string>)
    ensures var f := RecoverBlob(w, s, blob, token, d);
            Grows(w, s, f.state, p) && p <= [blob.url] && (f.result.Some? ==> p == [blob.url])
            && f.state.sent <= s.sent + 3
  {
    hide Grows, Fetch, Unambiguous, ValidToken, Now;
    if !ValidToken(token) { GrowsNot(w, s); return []; }
    var s1 := Now(w, s).1;
    NowGrows(w, s);
    NowSendsNothing(w, s);
    if Now(w, s).0 >= d { return []; }
    p := FetchGrows(w, s1, Contents(blob), d, false);
    var s2 := Fetch(w, s1, Contents(blob), d, false).state;
    GrowsThen(w, s, s1, s2, [], p);
    assert [] + p == p;
    RefsGrow(w, s2, blob, d);
    GrowsThen(w, s, s2, Unambiguous(w, s2, blob, d).state, p, []);
    assert p + [] == p;
  }

  lemma NowSendsNothing(w: World, s: State)
    ensures Now(w, s).1.sent == s.sent
  {}

  lemma ApiGrows(w: World, s: State, url: string, token: Option<string>, d: real) returns (p: seq<string>)
    ensures var f := RecoverApi(w, s, url, token, d);
            Grows(w, s, f.state, p) && p <= [url] && (f.result.Some? ==> p == [url]) && f.state.sent <= s.sent + 1
  {
    hide Grows, Fetch, ValidToken;
    if !ValidToken(token) { GrowsNot(w, s); return []; }
    p := FetchGrows(w, s, Recheck(url), d, true);
  }

  lemma {:induction false} BlobsGrow(w: World, s: State, blobs: seq<Blob>, token: Option<string>, d: real)
    returns (p: seq<string>)
    ensures var f := RecoverBlobs(w, s, blobs, token, d);
            Grows(w, s, f.state, p) && p <= Urls(blobs) && (f.result.Some? ==> p == Urls(blobs))
            && f.state.sent <= s.sent + 3 * |blobs|
    decreases |blobs|
  {
    hide Grows, RecoverBlob;
    if blobs == [] {
      GrowsNot(w, s);
      return [];
    }
    assert Urls(blobs) == [blobs[0].url] + Urls(blobs[1..]);
    hide Urls;
    p := BlobGrows(w, s, blobs[0], token, d);
    var first := RecoverBlob(w, s, blobs[0], token, d);
    if first.result.Some? {
      var q := BlobsGrow(w, first.state, blobs[1..], token, d);
      GrowsThen(w, s, first.state, RecoverBlobs(w, first.state, blobs[1..], token, d).state, p, q);
      p := p + q;
    }
  }

  lemma {:induction false} ApisGrow(w: World, s: State, urls: seq<string>, token: Option<string>, d: real)
    returns (p: seq<string>)
    ensures var f := RecoverApis(w, s, urls, token, d);
            Grows(w, s, f.state, p) && p <= urls && (f.result.Some? ==> p == urls) && f.state.sent <= s.sent + |urls|
    decreases |urls|
  {
    hide Grows, RecoverApi;
    if urls == [] {
      GrowsNot(w, s);
      return [];
    }
    assert urls == [urls[0]] + urls[1..];
    p := ApiGrows(w, s, urls[0], token, d);
    var first := RecoverApi(w, s, urls[0], token, d);
    if first.result.Some? {
      var q := ApisGrow(w, first.state, urls[1..], token, d);
      GrowsThen(w, s, first.state, RecoverApis(w, first.state, urls[1..], token, d).state, p, q);
      p := p + q;
    }
  }

  lemma RecoverGrows(w: World, s: State, c: Candidates, token: Option<string>, d: real) returns (p: seq<string>)
    ensures var f := Recover(w, s, c, token, d);
            Grows(w, s, f.state, p) && p <= Urls(c.blobs) + c.apis && (f.result.Some? ==> p == Urls(c.blobs) + c.apis)
            && f.state.sent <= s.sent + 3 * |c.blobs| + |c.apis|
  {
    hide Grows, RecoverBlobs, RecoverApis, Urls, Lines;
    p := BlobsGrow(w, s, c.blobs, token, d);
    var blobs := RecoverBlobs(w, s, c.blobs, token, d);
    if blobs.result.Some? {
      var q := ApisGrow(w, blobs.state, c.apis, token, d);
      GrowsThen(w, s, blobs.state, RecoverApis(w, blobs.state, c.apis, token, d).state, p, q);
      p := p + q;
    }
  }

  // ---------------------------------------------------------------------------
  // The candidates
  // ---------------------------------------------------------------------------

  /** The two ways an error body can be recovered. */
  predicate Eligible(w: World, b: Body) {
    || (b.code == Some(503) && w.parse(b.url).Some?)
    || (b.code == Some(403) && b.url in w.table)
  }

  /** Every eligible body is represented once, by its URL. */
  ghost predicate Represents(w: World, c: Candidates, errors: seq<Body>) {
    && Distinct(Urls(c.blobs)) && Distinct(c.apis)
    && (forall u :: u in Urls(c.blobs) <==> exists b :: b in errors && b.code == Some(503) && b.url == u)
    && (forall u :: u in c.apis <==> exists b :: b in errors && b.code == Some(403) && b.url == u)
    && (forall i | 0 <= i < |c.blobs| :: BlobOf(w, c.blobs[i].url) == Some(c.blobs[i]))
    && (forall u | u in c.apis :: u in w.table)
  }

  lemma {:induction false} CollectExact(w: World, errors: seq<Body>)
    ensures Collect(w, errors).Some? <==> forall b | b in errors :: Eligible(w, b)
    ensures Collect(w, errors).Some? ==> Represents(w, Collect(w, errors).value, errors)
  {
    if errors == [] {
    } else {
      hide Represents, Eligible, AddBody;
      var init, last := errors[..|errors| - 1], errors[|errors| - 1];
      assert errors == init + [last];
      CollectExact(w, init);
      if Collect(w, init).Some? {
        AddBodyExact(w, Collect(w, init).value, init, last);
      }
    }
  }

  lemma AddBodyExact(w: World, c: Candidates, init: seq<Body>, last: Body)
    requires Represents(w, c, init)
    ensures AddBody(w, c, last).Some? <==> Eligible(w, last)
    ensures AddBody(w, c, last).Some? ==> Represents(w, AddBody(w, c, last).value, init + [last])
  {
    var errors := init + [last];
    assert forall b :: b in errors <==> b in init || b == last;
    if last.code == Some(503) && w.parse(last.url).Some? {
      var blob := BlobOf(w, last.url).value;
      assert Urls(c.blobs + [blob]) == Urls(c.blobs) + [last.url];
    }
  }
}
