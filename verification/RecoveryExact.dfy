/**
 When the recovery gate passes: exactly on the reports it should recover, before a server that answers every request
 the same each time and a clock that does not run out.
 */
module RecoveryExact {
  import opened Sequences
  import opened Wrappers
  import opened Recovery
  import opened RecoverySafety
  import opened RecoveryTheorems

  // ---------------------------------------------------------------------------
  // Valid reports
  // ---------------------------------------------------------------------------

  /** The number of bodies in a failure map. */
  function Count(lists: seq<seq<Body>>): nat {
    if lists == [] then 0 else |lists[0]| + Count(lists[1..])
  }

  /** A failure map: lists that are not empty, of bodies with a URL and a three-digit code if any, within the count. */
  predicate FailureMap(lists: seq<seq<Body>>, count: nat) {
    && (forall i | 0 <= i < |lists| :: lists[i] != [])
    && (forall i, j | 0 <= i < |lists| && 0 <= j < |lists[i]| ::
          lists[i][j].url != "" && (lists[i][j].code.Some? ==> 100 <= lists[i][j].code.value <= 999))
    && Count(lists) <= count && (lists == [] ==> count == 0)
  }

  /** Every link counted once, both maps in order, no code on a timeout, and an exit code that fits the failures. */
  predicate SoundReport(r: Report, exitCode: int) {
    && r.Report? && 0 < r.unique <= r.total && r.cached <= r.total
    && r.total == r.successful + r.errors + r.timeouts + r.excludes + r.unknown + r.unsupported
    && FailureMap(r.errorMap, r.errors) && FailureMap(r.timeoutMap, r.timeouts)
    && (forall i, j | 0 <= i < |r.timeoutMap| && 0 <= j < |r.timeoutMap[i]| :: r.timeoutMap[i][j].code.None?)
    && ((exitCode == 0 && r.errors == 0 && r.timeouts == 0) || (exitCode == 2 && (r.errors > 0 || r.timeouts > 0)))
  }

  lemma {:induction false} CountConcat(a: seq<seq<Body>>, b: seq<seq<Body>>)
    ensures Count(a + b) == Count(a) + Count(b)
  {
    if a == [] {
      assert a + b == b;
    } else {
      assert (a + b)[1..] == a[1..] + b;
      CountConcat(a[1..], b);
    }
  }

  /** The bodies, list after list. */
  lemma {:induction false} BodyAt(lists: seq<seq<Body>>, i: nat, j: nat)
    requires i < |lists| && j < |lists[i]|
    ensures var k := Count(lists[..i]) + j; k < |Bodies(lists)| && Bodies(lists)[k] == lists[i][j]
  {
    var n, init := |lists| - 1, lists[..|lists| - 1];
    BodiesOf(init);
    if i < n {
      BodyAt(init, i, j);
      assert init[..i] == lists[..i];
    }
  }

  lemma {:induction false} BodiesOf(lists: seq<seq<Body>>)
    ensures |Bodies(lists)| == Count(lists)
    ensures forall b :: b in Bodies(lists) <==>
                          exists i, j :: 0 <= i < |lists| && 0 <= j < |lists[i]| && lists[i][j] == b
  {
    if lists == [] {
    } else {
      var n, init := |lists| - 1, lists[..|lists| - 1];
      BodiesOf(init);
      assert lists == init + [lists[n]] && [lists[n]][1..] == [];
      CountConcat(init, [lists[n]]);
      assert Count([lists[n]]) == |lists[n]| + Count([]);
      forall b
        ensures b in Bodies(lists) <==> exists i, j :: 0 <= i < |lists| && 0 <= j < |lists[i]| && lists[i][j] == b
      {
        if b in Bodies(init) {
          var i, j :| 0 <= i < |init| && 0 <= j < |init[i]| && init[i][j] == b;
          assert lists[i][j] == b;
        }
        if b in lists[n] {
          var j :| 0 <= j < |lists[n]| && lists[n][j] == b;
          assert lists[n][j] == b;
        }
        if i, j :| 0 <= i < |lists| && 0 <= j < |lists[i]| && lists[i][j] == b {
          if i < n { assert init[i][j] == b; }
        }
      }
    }
  }

  lemma MapExact(lists: seq<seq<Body>>, count: nat)
    ensures MapOk(lists, count) <==> FailureMap(lists, count)
  {
    hide Bodies, Count;
    BodiesOf(lists);
    if MapOk(lists, count) {
      forall i, j | 0 <= i < |lists| && 0 <= j < |lists[i]|
        ensures lists[i][j].url != "" && (lists[i][j].code.Some? ==> 100 <= lists[i][j].code.value <= 999)
      {
        assert lists[i][j] in Bodies(lists);
      }
    }
  }

  lemma NoCodes(lists: seq<seq<Body>>)
    ensures (exists b | b in Bodies(lists) :: b.code.Some?)
            <==> exists i, j :: 0 <= i < |lists| && 0 <= j < |lists[i]| && lists[i][j].code.Some?
  {
    hide Bodies;
    BodiesOf(lists);
    if i, j :| 0 <= i < |lists| && 0 <= j < |lists[i]| && lists[i][j].code.Some? {
      assert lists[i][j] in Bodies(lists);
    }
  }

  /** Validation succeeds exactly on sound reports, and hands on their error bodies and the number of timeouts. */
  lemma ReportExact(r: Report, exitCode: int)
    ensures Validate(r, exitCode).Some? <==> SoundReport(r, exitCode)
    ensures SoundReport(r, exitCode) ==> Validate(r, exitCode) == Some((Bodies(r.errorMap), r.timeouts))
  {
    hide MapOk, FailureMap, Bodies;
    if r.Report? {
      MapExact(r.errorMap, r.errors);
      MapExact(r.timeoutMap, r.timeouts);
      NoCodes(r.timeoutMap);
    }
  }

  // ---------------------------------------------------------------------------
  // A steady server
  // ---------------------------------------------------------------------------

  /** The server answers a request the same whenever it is asked. */
  ghost predicate Steady(w: World) {
    forall i: nat, j: nat, r :: w.server(i, r) == w.server(j, r)
  }

  ghost predicate InTime(w: World, d: real) {
    forall k: nat :: w.clock(k) < d
  }

  /** The payload of a good reply. */
  function Answer(w: World, r: Request): Option<Payload> {
    var reply := w.server(0, r);
    if GoodReply(r, reply) then reply.payload else None
  }

  function Listed(w: World, blob: Blob, kind: Kind): Option<seq<Option<string>>> {
    match Answer(w, MatchingRefs(blob, kind))
    case Some(List(entries)) => Some(entries)
    case _ => None
  }

  ghost predicate RefSure(w: World, blob: Blob) {
    || w.sha(blob.ref)
    || (Listed(w, blob, Heads).Some? && Listed(w, blob, Tags).Some?
        && OneRef(Listed(w, blob, Heads).value, Listed(w, blob, Tags).value, blob.ref))
  }

  ghost predicate BlobSure(w: World, blob: Blob) {
    && Answer(w, Contents(blob)).Some? && w.contentOk(blob, Answer(w, Contents(blob)).value)
    && RefSure(w, blob)
  }

  function Identity(w: World, url: string): Option<string> {
    match Answer(w, Recheck(url)) case None => None case Some(p) => w.identity(url, p)
  }

  lemma FetchSteady(w: World, s: State, r: Request, d: real, reject: bool)
    requires Steady(w) && InTime(w, d) && (reject <==> !r.Contents?)
    ensures Fetch(w, s, r, d, reject).result == Answer(w, r)
  {
    hide Timeout;
    assert w.server(s.sent, r) == w.server(0, r);
  }

  lemma KindSteady(w: World, s: State, blob: Blob, kind: Kind, d: real)
    requires Steady(w) && InTime(w, d)
    ensures var n, es, prefix := KindEvidence(w, s, blob, kind, d).result, Listed(w, blob, kind), FullPrefix(kind);
            && (n.Some? <==> es.Some? && |es.value| < 100
                             && forall e | e in es.value :: UnderPrefix(e, prefix, blob.ref))
            && (n.Some? ==> n.value == multiset(es.value)[Some(prefix + blob.ref)])
  {
    hide Fetch, CountExact, UnderPrefix, FullPrefix, Steady, InTime, Answer;
    FetchSteady(w, s, MatchingRefs(blob, kind), d, true);
    var es := Listed(w, blob, kind);
    if es.Some? { CountExactMeaning(es.value, kind, blob.ref); }
  }

  lemma UnambiguousSteady(w: World, s: State, blob: Blob, d: real)
    requires Steady(w) && InTime(w, d)
    ensures Unambiguous(w, s, blob, d).result.Some? <==> RefSure(w, blob)
  {
    hide KindEvidence, UnderPrefix, Steady, InTime, Listed;
    KindSteady(w, s, blob, Heads, d);
    KindSteady(w, KindEvidence(w, s, blob, Heads, d).state, blob, Tags, d);
  }

  lemma BlobSteady(w: World, s: State, blob: Blob, token: Option<string>, d: real)
    requires Steady(w) && InTime(w, d) && ValidToken(token)
    ensures RecoverBlob(w, s, blob, token, d).result.Some? <==> BlobSure(w, blob)
  {
    hide Fetch, Unambiguous, RefSure, Steady, ValidToken, Answer;
    var s1 := Now(w, s).1;
    FetchSteady(w, s1, Contents(blob), d, false);
    UnambiguousSteady(w, Fetch(w, s1, Contents(blob), d, false).state, blob, d);
  }

  lemma ApiSteady(w: World, s: State, url: string, token: Option<string>, d: real)
    requires Steady(w) && InTime(w, d) && ValidToken(token)
    ensures RecoverApi(w, s, url, token, d).result == Identity(w, url)
  {
    hide Fetch, Steady, ValidToken, InTime, Answer;
    FetchSteady(w, s, Recheck(url), d, true);
  }

  lemma {:induction false} BlobsSteady(w: World, s: State, blobs: seq<Blob>, token: Option<string>, d: real)
    requires Steady(w) && InTime(w, d) && ValidToken(token)
    ensures RecoverBlobs(w, s, blobs, token, d).result.Some? <==> forall i | 0 <= i < |blobs| :: BlobSure(w, blobs[i])
    decreases |blobs|
  {
    hide RecoverBlob, BlobSure, Steady, InTime, ValidToken;
    if blobs == [] {
    } else {
      var first := RecoverBlob(w, s, blobs[0], token, d);
      BlobSteady(w, s, blobs[0], token, d);
      BlobsSteady(w, first.state, blobs[1..], token, d);
      var rest := blobs[1..];
      assert (forall i | 0 <= i < |blobs| :: BlobSure(w, blobs[i]))
         <==> BlobSure(w, blobs[0]) && forall i | 0 <= i < |rest| :: BlobSure(w, rest[i]) by {
        FirstBlob(w, blobs);
      }
    }
  }

  lemma FirstBlob(w: World, blobs: seq<Blob>)
    requires blobs != []
    ensures (forall i | 0 <= i < |blobs| :: BlobSure(w, blobs[i]))
            <==> BlobSure(w, blobs[0]) && forall i | 0 <= i < |blobs[1..]| :: BlobSure(w, blobs[1..][i])
  {
    hide BlobSure;
    var rest := blobs[1..];
    if BlobSure(w, blobs[0]) && forall i | 0 <= i < |rest| :: BlobSure(w, rest[i]) {
      forall i | 0 <= i < |blobs| ensures BlobSure(w, blobs[i]) {
        if i > 0 { assert blobs[i] == rest[i - 1]; }
      }
    }
  }

  lemma {:induction false} ApisSteady(w: World, s: State, urls: seq<string>, token: Option<string>, d: real)
    requires Steady(w) && InTime(w, d) && ValidToken(token)
    ensures var r := RecoverApis(w, s, urls, token, d).result;
            && (r.Some? <==> forall i | 0 <= i < |urls| :: Identity(w, urls[i]).Some?)
            && (r.Some? ==> |r.value| == |urls|
                            && forall i | 0 <= i < |urls| :: Identity(w, urls[i]) == Some(r.value[i]))
    decreases |urls|
  {
    hide RecoverApi, Identity, Steady, InTime, ValidToken;
    if urls == [] {
    } else {
      var first := RecoverApi(w, s, urls[0], token, d);
      ApiSteady(w, s, urls[0], token, d);
      ApisSteady(w, first.state, urls[1..], token, d);
      var rest := urls[1..];
      forall i | 0 < i < |urls| ensures urls[i] == rest[i - 1] {}
      if forall i | 0 <= i < |urls| :: Identity(w, urls[i]).Some? {
        forall i | 0 <= i < |rest| ensures Identity(w, rest[i]).Some? { assert rest[i] == urls[i + 1]; }
      }
    }
  }

  // ---------------------------------------------------------------------------
  // The URLs to verify
  // ---------------------------------------------------------------------------

  function UrlsWith(errors: seq<Body>, code: int): seq<string> {
    if errors == [] then []
    else UrlsWith(errors[..|errors| - 1], code)
         + if errors[|errors| - 1].code == Some(code) then [errors[|errors| - 1].url] else []
  }

  /** The distinct members, in the order they first occur. */
  function Firsts<T(==)>(s: seq<T>): seq<T> {
    if s == [] then []
    else
      var f, last := Firsts(s[..|s| - 1]), s[|s| - 1];
      if last in f then f else f + [last]
  }

  predicate CandidatesOf(w: World, c: Candidates, errors: seq<Body>) {
    && Urls(c.blobs) == Firsts(UrlsWith(errors, 503)) && c.apis == Firsts(UrlsWith(errors, 403))
    && forall i | 0 <= i < |c.blobs| :: BlobOf(w, c.blobs[i].url) == Some(c.blobs[i])
  }

  lemma {:induction false} CollectInOrder(w: World, errors: seq<Body>)
    requires Collect(w, errors).Some?
    ensures CandidatesOf(w, Collect(w, errors).value, errors)
  {
    if errors == [] {
    } else {
      hide AddBody, CandidatesOf;
      var init, last := errors[..|errors| - 1], errors[|errors| - 1];
      assert errors == init + [last];
      CollectInOrder(w, init);
      AddInOrder(w, Collect(w, init).value, init, last);
    }
  }

  lemma AddInOrder(w: World, c: Candidates, init: seq<Body>, last: Body)
    requires CandidatesOf(w, c, init) && AddBody(w, c, last).Some?
    ensures CandidatesOf(w, AddBody(w, c, last).value, init + [last])
  {
    hide Firsts;
    var all := init + [last];
    assert all[..|all| - 1] == init;
    var with, without := if last.code == Some(503) then 503 else 403, if last.code == Some(503) then 403 else 503;
    assert UrlsWith(all, without) == UrlsWith(init, without);
    assert UrlsWith(all, with) == UrlsWith(init, with) + [last.url];
    FirstsThen(UrlsWith(init, with), last.url);
    if last.code == Some(503) {
      assert Urls(c.blobs + [BlobOf(w, last.url).value]) == Urls(c.blobs) + [last.url];
    }
  }

  lemma FirstsThen<T>(s: seq<T>, last: T)
    ensures Firsts(s + [last]) == if last in Firsts(s) then Firsts(s) else Firsts(s) + [last]
  {
    assert (s + [last])[..|s|] == s;
  }

  /** The evidence an error body needs. */
  ghost predicate BodySure(w: World, b: Body) {
    if b.code == Some(503) then BlobOf(w, b.url).Some? && BlobSure(w, BlobOf(w, b.url).value)
    else b.code == Some(403) && b.url in w.table && Identity(w, b.url).Some?
  }

  ghost predicate AllSure(w: World, c: Candidates) {
    && (forall i | 0 <= i < |c.blobs| :: BlobSure(w, c.blobs[i]))
    && forall i | 0 <= i < |c.apis| :: Identity(w, c.apis[i]).Some?
  }

  /** One line for each URL, blobs first, each recheck with the identity it found. */
  ghost predicate Reports(w: World, blobs: seq<string>, apis: seq<string>, lines: seq<Line>) {
    && |lines| == |blobs| + |apis|
    && (forall i | 0 <= i < |blobs| :: lines[i] == RecoveredBlob(blobs[i]))
    && forall i | 0 <= i < |apis| ::
         Identity(w, apis[i]).Some? && lines[|blobs| + i] == RecheckedApi(Identity(w, apis[i]).value, apis[i])
  }

  lemma RecoverSteady(w: World, s: State, c: Candidates, token: Option<string>, d: real)
    requires Steady(w) && InTime(w, d) && ValidToken(token)
    ensures var r := Recover(w, s, c, token, d).result;
            (r.Some? <==> AllSure(w, c)) && (r.Some? ==> Reports(w, Urls(c.blobs), c.apis, r.value))
  {
    hide RecoverBlobs, RecoverApis, BlobSure, Identity, Steady, InTime, ValidToken;
    BlobsSteady(w, s, c.blobs, token, d);
    var mid := RecoverBlobs(w, s, c.blobs, token, d);
    ApisSteady(w, mid.state, c.apis, token, d);
    if mid.result.Some? { OneIdentityEach(w, mid.state, c.apis, token, d); }
  }

  lemma SureExact(w: World, c: Candidates, errors: seq<Body>)
    requires Represents(w, c, errors) && forall b | b in errors :: Eligible(w, b)
    ensures AllSure(w, c) <==> forall b | b in errors :: BodySure(w, b)
  {
    hide BlobSure, Identity, BlobOf;
    if AllSure(w, c) {
      forall b | b in errors ensures BodySure(w, b) {
        assert Eligible(w, b);
        if b.code == Some(503) {
          assert b.url in Urls(c.blobs);
          var i :| 0 <= i < |c.blobs| && Urls(c.blobs)[i] == b.url;
          assert BlobOf(w, c.blobs[i].url) == Some(c.blobs[i]);
        } else {
          assert b.url in c.apis;
        }
      }
    }
    if forall b | b in errors :: BodySure(w, b) {
      forall i | 0 <= i < |c.blobs| ensures BlobSure(w, c.blobs[i]) {
        assert Urls(c.blobs)[i] in Urls(c.blobs);
        var b :| b in errors && b.code == Some(503) && b.url == c.blobs[i].url;
        assert BodySure(w, b);
      }
      forall i | 0 <= i < |c.apis| ensures Identity(w, c.apis[i]).Some? {
        assert c.apis[i] in c.apis;
        var b :| b in errors && b.code == Some(403) && b.url == c.apis[i];
        assert BodySure(w, b);
      }
    }
  }

  // ---------------------------------------------------------------------------
  // Whole runs
  // ---------------------------------------------------------------------------

  /** A sound report of failures without timeouts, every error one that may be recovered, one to ten URLs. */
  ghost predicate Recoverable(w: World, report: Report) {
    && SoundReport(report, 2) && report.timeouts == 0
    && (forall b | b in Bodies(report.errorMap) :: Eligible(w, b))
    && var errors := Bodies(report.errorMap);
       1 <= |Firsts(UrlsWith(errors, 503))| + |Firsts(UrlsWith(errors, 403))| <= 10
  }

  lemma AdmittedExact(w: World, report: Report, c: Candidates)
    ensures Recoverable(w, report) <==> exists c :: Admitted(w, report, 2, c)
    ensures Admitted(w, report, 2, c) ==>
              var errors := Bodies(report.errorMap); CandidatesOf(w, c, errors) && Represents(w, c, errors)
  {
    hide Bodies, Eligible, Validate, SoundReport, Collect, Urls, Firsts, UrlsWith, Represents;
    ReportExact(report, 2);
    if report.Report? {
      var errors := Bodies(report.errorMap);
      CollectExact(w, errors);
      if Collect(w, errors).Some? {
        var all := Collect(w, errors).value;
        CollectInOrder(w, errors);
        UrlsLength(all.blobs);
        assert Recoverable(w, report) ==> Admitted(w, report, 2, all);
      }
    } else if SoundReport(report, 2) {
      NotMisshapen(report, 2);
    }
  }

  lemma NotMisshapen(report: Report, exitCode: int)
    requires SoundReport(report, exitCode)
    ensures report.Report?
  {}

  lemma AdmittedRuns(w: World, report: Report, token: Option<string>, seconds: real, c: Candidates)
    requires Admitted(w, report, 2, c)
    ensures CheckReport(w, report, 2, token, seconds) == Recover(w, Now(w, START).1, c, token, w.clock(0) + seconds)
    ensures ValidToken(token) || CheckReport(w, report, 2, token, seconds).result.None?
  {
    hide ValidToken, Collect, Validate, Eligible, Bodies;
  }

  /**
   When the gate passes.  Before a steady server and with time enough, a run on an exit code of failures passes exactly
   when the token is usable, the report is recoverable and every error body has its evidence; it then prints one line
   for each URL, in the order of the bodies.
   */
  lemma PassExact(w: World, report: Report, token: Option<string>, seconds: real)
    requires Steady(w) && InTime(w, w.clock(0) + seconds)
    ensures var r := CheckReport(w, report, 2, token, seconds).result;
            && (r.Some? <==> GoodToken(token) && Recoverable(w, report)
                             && forall b | b in Bodies(report.errorMap) :: BodySure(w, b))
            && (r.Some? ==>
                  var errors := Bodies(report.errorMap);
                  Reports(w, Firsts(UrlsWith(errors, 503)), Firsts(UrlsWith(errors, 403)), r.value))
  {
    hide CheckReport, Recover, ValidToken, GoodToken, BodySure, Reports, Steady, InTime, Recoverable, Bodies, Collect,
      Validate, Eligible, Represents, Firsts, UrlsWith, SoundReport;
    var c := RunSplit(w, report, 2, token, seconds);
    AdmittedExact(w, report, c);
    TokenExact(token);
    if Recoverable(w, report) {
      var all :| Admitted(w, report, 2, all);
      AdmittedExact(w, report, all);
      AdmittedRuns(w, report, token, seconds, all);
      SureExact(w, all, Bodies(report.errorMap));
      if ValidToken(token) { RecoverSteady(w, Now(w, START).1, all, token, w.clock(0) + seconds); }
    }
  }

  /** On any other exit code the run asks nothing: it passes exactly on a sound report, and prints nothing. */
  lemma NothingToRecover(w: World, report: Report, exitCode: int, token: Option<string>, seconds: real)
    requires exitCode != 2
    ensures CheckReport(w, report, exitCode, token, seconds)
         == if SoundReport(report, exitCode) then Run(Some([]), START) else Run(None, START)
  {
    hide Validate, SoundReport, Bodies;
    ReportExact(report, exitCode);
    if SoundReport(report, exitCode) { QuietReport(report, exitCode); }
  }

  lemma QuietReport(report: Report, exitCode: int)
    requires SoundReport(report, exitCode) && exitCode != 2
    ensures exitCode == 0 && report.timeouts == 0
  {}
}
