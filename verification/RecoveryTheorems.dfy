/** The promises of the recovery gate, over whole runs. */
module RecoveryTheorems {
  import opened Sequences
  import opened Wrappers
  import opened Recovery
  import opened RecoverySafety

  // ---------------------------------------------------------------------------
  // Evidence
  // ---------------------------------------------------------------------------

  /**
   A reply from where it was asked for, successful and of bounded size; an answer about refs or to a recheck also has
   to be complete, on one page.
   */
  predicate GoodReply(r: Request, reply: Reply) {
    && reply.Reply? && !reply.redirected && reply.status == 200 && !reply.oversized
    && (r.MatchingRefs? || r.Recheck? ==> !reply.paginated)
  }

  /** The log holds a request the server gave a good reply with this payload. */
  ghost predicate Answered(w: World, log: seq<Event>, r: Request, p: Payload) {
    exists i :: 0 <= i < |log| && log[i].Sent? && log[i].request == r
                && GoodReply(r, w.server(log[i].index, r)) && w.server(log[i].index, r).payload == Some(p)
  }

  function FullPrefix(kind: Kind): string {
    if kind.Heads? then "refs/heads/" else "refs/tags/"
  }

  /** A full name under the prefix, not one that goes on below the ref. */
  predicate UnderPrefix(e: Option<string>, prefix: string, ref: string) {
    e.Some? && prefix <= e.value && !(prefix + ref + "/" <= e.value)
  }

  /** Complete lists of both kinds, in which the ref itself occurs once and nothing extends it. */
  ghost predicate OneRef(heads: seq<Option<string>>, tags: seq<Option<string>>, ref: string) {
    && |heads| < 100 && |tags| < 100
    && (forall e | e in heads :: UnderPrefix(e, "refs/heads/", ref))
    && (forall e | e in tags :: UnderPrefix(e, "refs/tags/", ref))
    && multiset(heads)[Some("refs/heads/" + ref)] + multiset(tags)[Some("refs/tags/" + ref)] == 1
  }

  ghost predicate RefProven(w: World, log: seq<Event>, blob: Blob) {
    || w.sha(blob.ref)
    || exists heads, tags ::
         && Answered(w, log, MatchingRefs(blob, Heads), List(heads))
         && Answered(w, log, MatchingRefs(blob, Tags), List(tags))
         && OneRef(heads, tags, blob.ref)
  }

  ghost predicate BlobProven(w: World, log: seq<Event>, blob: Blob) {
    && (exists p :: Answered(w, log, Contents(blob), p) && w.contentOk(blob, p))
    && RefProven(w, log, blob)
  }

  ghost predicate ApiProven(w: World, log: seq<Event>, url: string) {
    exists p :: Answered(w, log, Recheck(url), p) && w.identity(url, p).Some?
  }

  ghost predicate BodyProven(w: World, log: seq<Event>, b: Body) {
    if b.code == Some(503) then BlobOf(w, b.url).Some? && BlobProven(w, log, BlobOf(w, b.url).value)
    else b.code == Some(403) && b.url in w.table && ApiProven(w, log, b.url)
  }

  lemma AnsweredStays(w: World, log: seq<Event>, more: seq<Event>, r: Request, p: Payload)
    requires log <= more && Answered(w, log, r, p)
    ensures Answered(w, more, r, p)
  {
    var i :| 0 <= i < |log| && log[i].Sent? && log[i].request == r
             && GoodReply(r, w.server(log[i].index, r)) && w.server(log[i].index, r).payload == Some(p);
    assert more[i] == log[i];
  }

  lemma BlobStays(w: World, log: seq<Event>, more: seq<Event>, blob: Blob)
    requires log <= more && BlobProven(w, log, blob)
    ensures BlobProven(w, more, blob)
  {
    hide Answered, OneRef;
    var p :| Answered(w, log, Contents(blob), p) && w.contentOk(blob, p);
    AnsweredStays(w, log, more, Contents(blob), p);
    if !w.sha(blob.ref) {
      var heads, tags :| Answered(w, log, MatchingRefs(blob, Heads), List(heads))
                         && Answered(w, log, MatchingRefs(blob, Tags), List(tags))
                         && OneRef(heads, tags, blob.ref);
      AnsweredStays(w, log, more, MatchingRefs(blob, Heads), List(heads));
      AnsweredStays(w, log, more, MatchingRefs(blob, Tags), List(tags));
    }
  }

  lemma ApiStays(w: World, log: seq<Event>, more: seq<Event>, url: string)
    requires log <= more && ApiProven(w, log, url)
    ensures ApiProven(w, more, url)
  {
    hide Answered;
    var p :| Answered(w, log, Recheck(url), p) && w.identity(url, p).Some?;
    AnsweredStays(w, log, more, Recheck(url), p);
  }

  lemma FetchAnswers(w: World, s: State, r: Request, d: real, reject: bool)
    requires Fetch(w, s, r, d, reject).result.Some? && (reject <==> !r.Contents?)
    ensures Answered(w, Fetch(w, s, r, d, reject).state.log, r, Fetch(w, s, r, d, reject).result.value)
  {
    hide Timeout;
    var log := Fetch(w, s, r, d, reject).state.log;
    assert log[|s.log| + 2].Sent?;
  }

  // ---------------------------------------------------------------------------
  // Ref evidence
  // ---------------------------------------------------------------------------

  /** The count succeeds exactly when every entry is of the kind and none extends the ref, and is its multiplicity. */
  lemma {:induction false} CountExactMeaning(entries: seq<Option<string>>, kind: Kind, ref: string)
    ensures var prefix := FullPrefix(kind);
            && (CountExact(entries, kind, ref).Some? <==> forall e | e in entries :: UnderPrefix(e, prefix, ref))
            && (CountExact(entries, kind, ref).Some? ==>
                  CountExact(entries, kind, ref).value == multiset(entries)[Some(prefix + ref)])
  {
    if entries == [] {
    } else {
      hide FairRef, UnderPrefix, FullPrefix;
      var init, last := entries[..|entries| - 1], entries[|entries| - 1];
      assert entries == init + [last];
      CountExactMeaning(init, kind, ref);
      ExactIsFair(kind, ref);
      FairIsUnder(last, kind, ref);
    }
  }

  lemma ExactIsFair(kind: Kind, ref: string)
    ensures var prefix := FullPrefix(kind);
            KindPrefix(kind) == prefix && UnderPrefix(Some(prefix + ref), prefix, ref)
  {
    var prefix := FullPrefix(kind);
    assert (prefix + ref)[..|prefix|] == prefix;
  }

  lemma FairIsUnder(e: Option<string>, kind: Kind, ref: string)
    ensures FairRef(e, kind, ref) <==> UnderPrefix(e, FullPrefix(kind), ref)
  {}

  lemma KindProves(w: World, s: State, blob: Blob, kind: Kind, d: real) returns (entries: seq<Option<string>>)
    requires KindEvidence(w, s, blob, kind, d).result.Some?
    ensures var f := KindEvidence(w, s, blob, kind, d);
            var prefix := FullPrefix(kind);
            && Answered(w, f.state.log, MatchingRefs(blob, kind), List(entries))
            && |entries| < 100 && (forall e | e in entries :: UnderPrefix(e, prefix, blob.ref))
            && f.result.value == multiset(entries)[Some(prefix + blob.ref)]
  {
    hide Fetch, UnderPrefix, CountExact, Answered, KindPrefix;
    FetchAnswers(w, s, MatchingRefs(blob, kind), d, true);
    entries := Fetch(w, s, MatchingRefs(blob, kind), d, true).result.value.entries;
    CountExactMeaning(entries, kind, blob.ref);
  }

  lemma UnambiguousProves(w: World, s: State, blob: Blob, d: real)
    requires Unambiguous(w, s, blob, d).result.Some?
    ensures RefProven(w, Unambiguous(w, s, blob, d).state.log, blob)
  {
    hide KindEvidence, Answered, UnderPrefix, KindPrefix;
    if !w.sha(blob.ref) {
      var heads := KindProves(w, s, blob, Heads, d);
      var s1 := KindEvidence(w, s, blob, Heads, d).state;
      var tags := KindProves(w, s1, blob, Tags, d);
      KindGrows(w, s1, blob, Tags, d);
      var s2 := KindEvidence(w, s1, blob, Tags, d).state;
      AnsweredStays(w, s1.log, s2.log, MatchingRefs(blob, Heads), List(heads));
      assert OneRef(heads, tags, blob.ref);
    }
  }

  lemma RecoverBlobProves(w: World, s: State, blob: Blob, token: Option<string>, d: real)
    requires RecoverBlob(w, s, blob, token, d).result.Some?
    ensures BlobProven(w, RecoverBlob(w, s, blob, token, d).state.log, blob)
  {
    hide Fetch, Unambiguous, Answered, RefProven, ValidToken, Now, Grows;
    var s1 := Now(w, s).1;
    var f := Fetch(w, s1, Contents(blob), d, false);
    FetchAnswers(w, s1, Contents(blob), d, false);
    UnambiguousProves(w, f.state, blob, d);
    RefsGrow(w, f.state, blob, d);
    GrowsLonger(w, f.state, Unambiguous(w, f.state, blob, d).state, []);
    AnsweredStays(w, f.state.log, Unambiguous(w, f.state, blob, d).state.log, Contents(blob), f.result.value);
  }

  lemma GrowsLonger(w: World, s: State, t: State, p: seq<string>)
    requires Grows(w, s, t, p)
    ensures s.log <= t.log
  {}

  lemma RecoverApiProves(w: World, s: State, url: string, token: Option<string>, d: real)
    requires RecoverApi(w, s, url, token, d).result.Some?
    ensures ApiProven(w, RecoverApi(w, s, url, token, d).state.log, url)
  {
    hide Fetch, Answered, ValidToken;
    FetchAnswers(w, s, Recheck(url), d, true);
  }

  lemma {:induction false} BlobsProve(w: World, s: State, blobs: seq<Blob>, token: Option<string>, d: real)
    requires RecoverBlobs(w, s, blobs, token, d).result.Some?
    ensures forall i | 0 <= i < |blobs| :: BlobProven(w, RecoverBlobs(w, s, blobs, token, d).state.log, blobs[i])
    decreases |blobs|
  {
    hide RecoverBlob, BlobProven, Grows;
    if blobs == [] {
    } else {
      var first, rest := RecoverBlob(w, s, blobs[0], token, d), blobs[1..];
      RecoverBlobProves(w, s, blobs[0], token, d);
      BlobsProve(w, first.state, rest, token, d);
      var end := RecoverBlobs(w, first.state, rest, token, d).state;
      var p := BlobsGrow(w, first.state, rest, token, d);
      GrowsLonger(w, first.state, end, p);
      BlobStays(w, first.state.log, end.log, blobs[0]);
      forall i | 0 <= i < |blobs| ensures BlobProven(w, end.log, blobs[i]) {
        if i > 0 { assert blobs[i] == rest[i - 1]; }
      }
    }
  }

  lemma {:induction false} ApisProve(w: World, s: State, urls: seq<string>, token: Option<string>, d: real)
    requires RecoverApis(w, s, urls, token, d).result.Some?
    ensures forall i | 0 <= i < |urls| :: ApiProven(w, RecoverApis(w, s, urls, token, d).state.log, urls[i])
    decreases |urls|
  {
    hide RecoverApi, ApiProven, Grows;
    if urls == [] {
    } else {
      var first, rest := RecoverApi(w, s, urls[0], token, d), urls[1..];
      RecoverApiProves(w, s, urls[0], token, d);
      ApisProve(w, first.state, rest, token, d);
      var end := RecoverApis(w, first.state, rest, token, d).state;
      var p := ApisGrow(w, first.state, rest, token, d);
      GrowsLonger(w, first.state, end, p);
      ApiStays(w, first.state.log, end.log, urls[0]);
      forall i | 0 <= i < |urls| ensures ApiProven(w, end.log, urls[i]) {
        if i > 0 { assert urls[i] == rest[i - 1]; }
      }
    }
  }

  lemma RecoverProves(w: World, s: State, c: Candidates, token: Option<string>, d: real)
    requires Recover(w, s, c, token, d).result.Some?
    ensures var log := Recover(w, s, c, token, d).state.log;
            && (forall i | 0 <= i < |c.blobs| :: BlobProven(w, log, c.blobs[i]))
            && (forall i | 0 <= i < |c.apis| :: ApiProven(w, log, c.apis[i]))
  {
    hide RecoverBlobs, RecoverApis, BlobProven, ApiProven, Grows, Lines;
    var mid := RecoverBlobs(w, s, c.blobs, token, d);
    BlobsProve(w, s, c.blobs, token, d);
    ApisProve(w, mid.state, c.apis, token, d);
    var end := RecoverApis(w, mid.state, c.apis, token, d).state;
    var p := ApisGrow(w, mid.state, c.apis, token, d);
    GrowsLonger(w, mid.state, end, p);
    forall i | 0 <= i < |c.blobs| ensures BlobProven(w, end.log, c.blobs[i]) {
      BlobStays(w, mid.state.log, end.log, c.blobs[i]);
    }
  }

  // ---------------------------------------------------------------------------
  // Whole runs
  // ---------------------------------------------------------------------------

  /** What must hold before the first request: everything that can be settled without the network. */
  ghost predicate Admitted(w: World, report: Report, exitCode: int, c: Candidates) {
    && exitCode == 2 && report.Report?
    && Validate(report, exitCode) == Some((Bodies(report.errorMap), 0))
    && (forall b | b in Bodies(report.errorMap) :: Eligible(w, b))
    && Collect(w, Bodies(report.errorMap)) == Some(c)
    && 1 <= |c.blobs| + |c.apis| <= MAX_FALLBACK_URLS
  }

  /** A run that gets as far as a request was admitted; every other run stops at once. */
  lemma RunSplit(w: World, report: Report, exitCode: int, token: Option<string>, seconds: real) returns (c: Candidates)
    ensures var r := CheckReport(w, report, exitCode, token, seconds);
            var s := Now(w, START).1;
            || (Admitted(w, report, exitCode, c) && r == Recover(w, s, c, token, w.clock(0) + seconds))
            || (r.result.None? && r.state in {START, s})
            || (r == Run(Some([]), START) && exitCode == 0 && Validate(report, exitCode) == Some(([], 0)))
  {
    hide Recover, Bodies, Eligible;
    c := Candidates([], []);
    var v := Validate(report, exitCode);
    if v.Some? {
      CollectExact(w, v.value.0);
      if Collect(w, v.value.0).Some? { c := Collect(w, v.value.0).value; }
    }
  }

  /** A token that is not blank and can stand in a header: no control character in it. */
  predicate GoodToken(token: Option<string>) {
    && token.Some? && (exists c :: c in token.value && !IsSpace(c))
    && forall c | c in token.value :: ' ' <= c && c != '\U{7F}'
  }

  lemma TokenExact(token: Option<string>)
    ensures ValidToken(token) <==> GoodToken(token)
  {
    hide IsSpace;
    if token.Some? {
      var s := token.value;
      assert forall i | 0 <= i < |s| :: s[i] in s;
      if c :| c in s && !IsSpace(c) {
        var i :| 0 <= i < |s| && s[i] == c;
        assert !IsSpace(s[i]);
      }
    }
  }

  /** No request leaves before the report is valid, every error body is eligible and a token is there. */
  lemma NoEarlyRequest(w: World, report: Report, exitCode: int, token: Option<string>, seconds: real)
    ensures var log := CheckReport(w, report, exitCode, token, seconds).state.log;
            (exists i :: 0 <= i < |log| && log[i].Sent?)
            ==> GoodToken(token) && exists c :: Admitted(w, report, exitCode, c)
  {
    hide CheckReport, Admitted, Recover, ValidToken, GoodToken;
    TokenExact(token);
    var c := RunSplit(w, report, exitCode, token, seconds);
    if Admitted(w, report, exitCode, c) && !ValidToken(token) {
      WithoutToken(w, Now(w, START).1, c, token, w.clock(0) + seconds, report, exitCode);
    }
  }

  lemma WithoutToken(w: World, s: State, c: Candidates, token: Option<string>, d: real, report: Report, exitCode: int)
    requires !ValidToken(token) && Admitted(w, report, exitCode, c)
    ensures Recover(w, s, c, token, d).state == s
  {
    hide ValidToken, Collect, Validate, Eligible;
  }

  /** The URLs of the error bodies. */
  predicate IsErrorUrl(report: Report, u: string) {
    report.Report? && exists b :: b in Bodies(report.errorMap) && b.url == u
  }

  lemma Uncommon(w: World, c: Candidates, errors: seq<Body>)
    requires w.Separate() && Represents(w, c, errors)
    requires forall b | b in errors :: Eligible(w, b)
    ensures Distinct(Urls(c.blobs) + c.apis)
    ensures forall u :: u in Urls(c.blobs) + c.apis <==> exists b :: b in errors && b.url == u
  {
    forall u ensures u in Urls(c.blobs) + c.apis <==> exists b :: b in errors && b.url == u {
      if b :| b in errors && b.url == u { assert Eligible(w, b); }
    }
    forall u | u in Urls(c.blobs) ensures u !in c.apis {
      var i :| 0 <= i < |c.blobs| && c.blobs[i].url == u;
      assert BlobOf(w, c.blobs[i].url).Some?;
    }
  }

  lemma PrefixDistinct(p: seq<string>, all: seq<string>)
    requires p <= all && Distinct(all)
    ensures Distinct(p) && forall u | u in p :: u in all
  {
    assert forall i | 0 <= i < |p| :: p[i] == all[i];
  }

  /** The URL a printed line is about. */
  function LineUrl(l: Line): string {
    l.url
  }

  /**
   Each distinct error URL is verified at most once in any run, at most ten are, by at most thirty requests;
   in a passing run each is verified, and there is exactly one line about it.
   */
  lemma EachOnce(w: World, report: Report, exitCode: int, token: Option<string>, seconds: real)
    requires w.Separate()
    ensures var r := CheckReport(w, report, exitCode, token, seconds);
            var begun := Primary(r.state.log);
            && Distinct(begun) && |begun| <= MAX_FALLBACK_URLS && Requests(r.state.log) <= 3 * MAX_FALLBACK_URLS
            && (forall u | u in begun :: IsErrorUrl(report, u))
            && (r.result.Some? ==>
                  && (forall u :: u in begun <==> IsErrorUrl(report, u))
                  && |r.result.value| == |begun|
                  && forall i | 0 <= i < |begun| :: LineUrl(r.result.value[i]) == begun[i])
  {
    hide CheckReport, Recover, Grows, Represents, Urls, w.Separate, Eligible, Collect, Validate, Bodies;
    var r := CheckReport(w, report, exitCode, token, seconds);
    var c := RunSplit(w, report, exitCode, token, seconds);
    var s, d := Now(w, START).1, w.clock(0) + seconds;
    StartIsQuiet(w);
    if Admitted(w, report, exitCode, c) && r == Recover(w, s, c, token, d) {
      var errors := Bodies(report.errorMap);
      CollectExact(w, errors);
      Uncommon(w, c, errors);
      var p := RecoverGrows(w, s, c, token, d);
      GrownFromStart(w, s, r.state, p);
      PrefixDistinct(p, Urls(c.blobs) + c.apis);
      UrlsLength(c.blobs);
      if r.result.Some? { LinesNameUrls(w, s, c, token, d); }
    } else if r.result.Some? {
      ValidatedBodies(report, exitCode);
    }
  }

  lemma UrlsLength(blobs: seq<Blob>)
    ensures |Urls(blobs)| == |blobs|
  {}

  lemma ValidatedBodies(report: Report, exitCode: int)
    requires Validate(report, exitCode).Some?
    ensures report.Report? && Validate(report, exitCode).value.0 == Bodies(report.errorMap)
  {}

  lemma StartIsQuiet(w: World)
    ensures Primary(START.log) == [] && Requests(START.log) == 0
    ensures Primary(Now(w, START).1.log) == [] && Requests(Now(w, START).1.log) == 0
    ensures Now(w, START).1.sent == 0
  {
    LogAppend([], Tick(w.clock(0)));
  }

  lemma GrownFromStart(w: World, s: State, t: State, p: seq<string>)
    requires Grows(w, s, t, p) && Primary(s.log) == [] && Requests(s.log) == 0 && s.sent == 0
    ensures Primary(t.log) == p && Requests(t.log) == t.sent
  {}

  lemma LinesNameUrls(w: World, s: State, c: Candidates, token: Option<string>, d: real)
    requires Recover(w, s, c, token, d).result.Some?
    ensures var lines, urls := Recover(w, s, c, token, d).result.value, Urls(c.blobs) + c.apis;
            |lines| == |urls| && forall i | 0 <= i < |urls| :: LineUrl(lines[i]) == urls[i]
  {
    hide RecoverBlobs, RecoverApis;
    var mid := RecoverBlobs(w, s, c.blobs, token, d);
    OneIdentityEach(w, mid.state, c.apis, token, d);
  }

  /** A passing run has, for every error body of the report, acceptable answers on record that prove it. */
  lemma PassIsProof(w: World, report: Report, exitCode: int, token: Option<string>, seconds: real)
    requires CheckReport(w, report, exitCode, token, seconds).result.Some?
    ensures report.Report? && report.timeouts == 0
    ensures forall b | b in Bodies(report.errorMap) ::
        BodyProven(w, CheckReport(w, report, exitCode, token, seconds).state.log, b)
  {
    hide CheckReport, Recover, BlobProven, ApiProven, Represents, Collect, Bodies, MapOk, BlobOf;
    var r := CheckReport(w, report, exitCode, token, seconds);
    var c := RunSplit(w, report, exitCode, token, seconds);
    var s, d := Now(w, START).1, w.clock(0) + seconds;
    if Admitted(w, report, exitCode, c) && r == Recover(w, s, c, token, d) {
      var errors := Bodies(report.errorMap);
      CollectExact(w, errors);
      RecoverProves(w, s, c, token, d);
      forall b | b in errors ensures BodyProven(w, r.state.log, b) {
        assert Eligible(w, b);
        BodyHasCandidate(w, c, errors, b);
      }
    }
  }

  lemma BodyHasCandidate(w: World, c: Candidates, errors: seq<Body>, b: Body)
    requires Represents(w, c, errors) && b in errors && Eligible(w, b)
    ensures b.code == Some(503)
        ==> BlobOf(w, b.url).Some? && exists i :: 0 <= i < |c.blobs| && c.blobs[i] == BlobOf(w, b.url).value
    ensures b.code == Some(403) ==> exists i :: 0 <= i < |c.apis| && c.apis[i] == b.url
  {
    if b.code == Some(503) {
      assert b.url in Urls(c.blobs);
      var i :| 0 <= i < |c.blobs| && c.blobs[i].url == b.url;
      assert BlobOf(w, c.blobs[i].url) == Some(c.blobs[i]);
    } else {
      assert b.url in c.apis;
    }
  }

  // ---------------------------------------------------------------------------
  // The deadline
  // ---------------------------------------------------------------------------

  /** The last reading before request i was taken at or after the deadline. */
  ghost predicate Late(log: seq<Event>, i: nat, d: real) {
    1 <= i < |log| && log[i].Sent? && log[i - 1].Tick? && log[i - 1].at >= d
  }

  /** Event k is the run's first reading at or after the deadline. */
  ghost predicate FirstPast(log: seq<Event>, k: nat, d: real) {
    k < |log| && log[k].Tick? && log[k].at >= d && forall j | 0 <= j < k && log[j].Tick? :: log[j].at < d
  }

  ghost predicate SendsWhenPast(log: seq<Event>, d: real) {
    exists k: nat :: FirstPast(log, k, d) && k + 1 < |log| && log[k + 1].Sent?
  }

  /**
   Every request is let go ahead by a reading before the deadline.  Under a monotone clock a run nevertheless
   starts one late if and only if its first reading past the deadline is directly followed by a request; there
   is at most one, and it is the last thing a failing run does.  A passing run starts none late.
   */
  lemma DeadlineKept(w: World, report: Report, exitCode: int, token: Option<string>, seconds: real)
    ensures var r := CheckReport(w, report, exitCode, token, seconds);
            var log, d := r.state.log, w.clock(0) + seconds;
            && (forall i: nat | i < |log| && log[i].Sent? :: Preceded(log, i, d))
            && (w.Monotone() ==> forall i: nat | Late(log, i, d) :: r.result.None? && i >= |log| - 2)
            && (w.Monotone() ==> ((exists i: nat :: Late(log, i, d)) <==> SendsWhenPast(log, d)))
  {
    hide CheckReport, Recover, Admitted, Validate, Preceded, Grows;
    var r := CheckReport(w, report, exitCode, token, seconds);
    var c := RunSplit(w, report, exitCode, token, seconds);
    var s, d := Now(w, START).1, w.clock(0) + seconds;
    if Admitted(w, report, exitCode, c) && r == Recover(w, s, c, token, d) {
      RecoverTimed(w, s, c, token, d);
      var p := RecoverGrows(w, s, c, token, d);
      StartAscends(w);
      GrownAscends(w, s, r.state, p);
      NoneLate(w, r.state, d);
      LateIsFirstPast(w, r.state, d);
    } else {
      NoneSent(r.state.log, d);
    }
  }

  lemma LateIsFirstPast(w: World, s: State, d: real)
    requires Ascending(w, s) && forall i: nat | i < |s.log| && s.log[i].Sent? :: Preceded(s.log, i, d)
    ensures w.Monotone() ==> ((exists i: nat :: Late(s.log, i, d)) <==> SendsWhenPast(s.log, d))
  {
    if w.Monotone() {
      if i: nat :| Late(s.log, i, d) {
        assert Preceded(s.log, i, d);
        assert FirstPast(s.log, i - 1, d);
      }
      if SendsWhenPast(s.log, d) {
        var k: nat :| FirstPast(s.log, k, d) && k + 1 < |s.log| && s.log[k + 1].Sent?;
        assert Late(s.log, k + 1, d);
      }
    }
  }

  lemma NoneSent(log: seq<Event>, d: real)
    requires forall i | 0 <= i < |log| :: !log[i].Sent?
    ensures !SendsWhenPast(log, d) && forall i: nat :: !Late(log, i, d)
  {}

  lemma StartAscends(w: World)
    ensures Ascending(w, Now(w, START).1)
  {
    if w.Monotone() { assert w.clock(0) <= w.clock(1); }
  }

  lemma GrownAscends(w: World, s: State, t: State, p: seq<string>)
    requires Grows(w, s, t, p) && Ascending(w, s)
    ensures Ascending(w, t)
  {}

  lemma NoneLate(w: World, s: State, d: real)
    requires w.Monotone() ==> Ascending(w, s)
    ensures w.Monotone()
        ==> forall i: nat | i < |s.log| && s.log[i].Sent? && Followed(s.log, i, d) :: !Late(s.log, i, d)
  {}

  /** A request starts late exactly when the deadline passes between the two readings in front of it. */
  lemma FetchLateExact(w: World, s: State, r: Request, d: real, reject: bool)
    ensures (exists i: nat :: i >= |s.log| && Late(Fetch(w, s, r, d, reject).state.log, i, d))
            <==> w.clock(s.ticks) < d <= w.clock(s.ticks + 1)
  {
    hide Accepted, Timeout;
    var log := Fetch(w, s, r, d, reject).state.log;
    if w.clock(s.ticks) < d <= w.clock(s.ticks + 1) { assert Late(log, |s.log| + 2, d); }
  }

  /**
   The promise the deadline's name suggests does fail: with the program's own table of API URLs, a request
   starts after the deadline.
   */
  lemma LateRequestExists() returns (w: World, report: Report, token: Option<string>)
    ensures w.Monotone() && w.Separate() && w.table == API_RECHECK_TARGETS
    ensures var log := CheckReport(w, report, 2, token, 1.0).state.log; |log| == 4 && Late(log, 3, w.clock(0) + 1.0)
  {
    hide UV_RELEASE, API_RECHECK_TARGETS;
    w := World((k: nat) => if k < 2 then 0.0 else 1.0, (k, r) => Raised, u => None, API_RECHECK_TARGETS,
               (b, p) => false, (u, p) => None, r => false);
    report := Report(1, 1, 0, 0, 0, 0, 0, 1, 0, [[Body(UV_RELEASE, Some(403))]], []);
    token := Some("t");
    ListedUrl();
    LateRecheck(w, UV_RELEASE, report, token);
  }

  lemma ListedUrl()
    ensures UV_RELEASE in API_RECHECK_TARGETS && UV_RELEASE != ""
  {}

  lemma LateRecheck(w: World, url: string, report: Report, token: Option<string>)
    requires url in w.table && url != "" && token == Some("t")
    requires report == Report(1, 1, 0, 0, 0, 0, 0, 1, 0, [[Body(url, Some(403))]], [])
    requires w.clock(0) == w.clock(1) == 0.0 && w.clock(2) == 1.0 && w.server(0, Recheck(url)) == Raised
    ensures var log := CheckReport(w, report, 2, token, 1.0).state.log; |log| == 4 && Late(log, 3, 1.0)
  {
    var body := Body(url, Some(403));
    assert token.value[0] == 't' && !IsSpace(token.value[0]);
    OneBody(body);
    assert Validate(report, 2) == Some(([body], 0));
    OneCandidate(w, body);
    var c := Candidates([], [url]);
    var s := Now(w, START).1;
    assert CheckReport(w, report, 2, token, 1.0) == Recover(w, s, c, token, 1.0);
    assert RecoverBlobs(w, s, c.blobs, token, 1.0) == Run(Some(()), s);
    var f := Fetch(w, s, Recheck(url), 1.0, true);
    assert f.state.log == [Tick(0.0), Tick(0.0), Tick(1.0), Sent(0, Recheck(url), 0.1)];
    assert RecoverApi(w, s, url, token, 1.0) == Run(None, f.state);
  }

  lemma OneBody(b: Body)
    ensures Bodies([[b]]) == [b] && Bodies([]) == []
  {
    assert [[b]][..0] == [];
  }

  lemma OneCandidate(w: World, b: Body)
    requires b.code == Some(403) && b.url in w.table
    ensures Collect(w, [b]) == Some(Candidates([], [b.url]))
  {
    var none: seq<Body> := [];
    var urls: seq<string> := [];
    assert [b][..0] == none;
    assert Collect(w, none) == Some(Candidates([], urls));
    assert urls + [b.url] == [b.url];
    assert AddBody(w, Candidates([], urls), b) == Some(Candidates([], [b.url]));
  }
}
