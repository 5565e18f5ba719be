/**
 The recovery gate of scripts/check-github-blob-link-report.py.  The clock and the server are arbitrary:
 the k-th reading of the one and the k-th reply of the other may be anything.  A run records what it did.
 */
module Recovery {
  import opened Wrappers
  import ChangelogLines

  // ---------------------------------------------------------------------------
  // The world outside
  // ---------------------------------------------------------------------------

  datatype Blob = Blob(url: string, owner: string, repo: string, ref: string, path: string, fragment: string)

  datatype Parts = Parts(owner: string, repo: string, ref: string, path: string, fragment: string)

  datatype Kind = Heads | Tags

  datatype Request = Contents(blob: Blob) | MatchingRefs(blob: Blob, kind: Kind) | Recheck(url: string)

  /** Decoded JSON: a list, its entries reduced to their `ref` string where they have one, or something else. */
  datatype Payload = List(entries: seq<Option<string>>) | Document(id: nat)

  datatype Reply =
    | Raised
    | Reply(redirected: bool, status: int, oversized: bool, paginated: bool, payload: Option<Payload>)

  datatype World = World(
    clock: nat -> real,
    server: (nat, Request) -> Reply,
    /** parse_blob_target, and the table of API URLs that may be rechecked */
    parse: string -> Option<Parts>,
    table: set<string>,
    /** _verify_content and _verify_api_recheck_payload */
    contentOk: (Blob, Payload) -> bool,
    identity: (string, Payload) -> Option<string>,
    /** _SHA1_RE.fullmatch */
    sha: string -> bool)
  {
    ghost predicate Monotone() {
      forall i: nat, j: nat | i <= j :: clock(i) <= clock(j)
    }

    /** Blob URLs live on github.com, the table's on api.github.com. */
    ghost predicate Separate() {
      forall u | u in table :: parse(u).None?
    }
  }

  const API: string := "https://api.github.com/repos/"

  const UV_RELEASE: string := API + "astral-sh/uv/releases/tags/0.12.5"

  /** The API URLs that may be rechecked. */
  const API_RECHECK_TARGETS: set<string> := {
    API + "microsoft/VibeVoice/git/trees/94da20d98b2fa7688e9cbfaf7692ddb4954f7600?recursive=1",
    API + "kamo-naoyuki/pytorch_complex/git/trees/8a2ad1e47f3df25a30eb426f6ad781b89103fab3?recursive=1",
    UV_RELEASE,
    API + "QwenLM/Qwen2-Audio/git/trees/0d66378d9e4b1a4d6bdba3969aa87ef777f487cd?recursive=1",
    API + "RustSec/advisory-db/git/trees/9cadd9fc13d75527fa5fd3f14376ed3a1a5e3b63?recursive=1"}

  datatype Event = Tick(at: real) | Sent(index: nat, request: Request, timeout: real)

  /** What a run has used up of the world, and what it did. */
  datatype State = State(ticks: nat, sent: nat, log: seq<Event>)

  datatype Run<+T> = Run(result: Option<T>, state: State)

  function Now(w: World, s: State): (real, State) {
    var t := w.clock(s.ticks);
    (t, s.(ticks := s.ticks + 1, log := s.log + [Tick(t)]))
  }

  // ---------------------------------------------------------------------------
  // One request
  // ---------------------------------------------------------------------------

  function Timeout(left: real): real {
    if left < 0.1 then 0.1 else if left > 10.0 then 10.0 else left
  }

  /** The checks between the reply and the last look at the clock. */
  predicate Accepted(reply: Reply, rejectPagination: bool) {
    reply.Reply? && !reply.redirected && reply.status == 200 && !reply.oversized
      && !(rejectPagination && reply.paginated)
  }

  function Fetch(w: World, s: State, r: Request, deadline: real, rejectPagination: bool): Run<Payload> {
    var (t1, s1) := Now(w, s);
    if t1 >= deadline then Run(None, s1)
    else
      var (t2, s2) := Now(w, s1);
      var reply := w.server(s2.sent, r);
      var s3 := s2.(sent := s2.sent + 1, log := s2.log + [Sent(s2.sent, r, Timeout(deadline - t2))]);
      if !Accepted(reply, rejectPagination) then Run(None, s3)
      else
        var (t3, s4) := Now(w, s3);
        if t3 >= deadline then Run(None, s4) else Run(reply.payload, s4)
  }

  // ---------------------------------------------------------------------------
  // Ref evidence
  // ---------------------------------------------------------------------------

  const REF_PAGE_SIZE := 100

  function KindPrefix(kind: Kind): string {
    match kind case Heads => "refs/heads/" case Tags => "refs/tags/"
  }

  predicate StartsWith(s: string, prefix: string) {
    prefix <= s
  }

  predicate FairRef(entry: Option<string>, kind: Kind, ref: string) {
    && entry.Some?
    && StartsWith(entry.value, KindPrefix(kind))
    && !StartsWith(entry.value, KindPrefix(kind) + ref + "/")
  }

  /** How many entries are exactly the ref; None if one is malformed, foreign or extends the ref. */
  function CountExact(entries: seq<Option<string>>, kind: Kind, ref: string): Option<nat> {
    if entries == [] then Some(0)
    else
      var n :- CountExact(entries[..|entries| - 1], kind, ref);
      var entry := entries[|entries| - 1];
      if entry == Some(KindPrefix(kind) + ref) then Some(n + 1)
      else if FairRef(entry, kind, ref) then Some(n)
      else None
  }

  function KindEvidence(w: World, s: State, blob: Blob, kind: Kind, deadline: real): Run<nat> {
    var f := Fetch(w, s, MatchingRefs(blob, kind), deadline, true);
    if f.result.None? || !f.result.value.List? || |f.result.value.entries| >= REF_PAGE_SIZE then Run(None, f.state)
    else Run(CountExact(f.result.value.entries, kind, blob.ref), f.state)
  }

  function Unambiguous(w: World, s: State, blob: Blob, deadline: real): Run<()> {
    if w.sha(blob.ref) then Run(Some(()), s)
    else
      var heads := KindEvidence(w, s, blob, Heads, deadline);
      if heads.result.None? then Run(None, heads.state)
      else
        var tags := KindEvidence(w, heads.state, blob, Tags, deadline);
        if tags.result.None? || heads.result.value + tags.result.value != 1 then Run(None, tags.state)
        else Run(Some(()), tags.state)
  }

  // ---------------------------------------------------------------------------
  // One recovery
  // ---------------------------------------------------------------------------

  predicate IsSpace(c: char) {
    ChangelogLines.IsSpace(c) || c in {'\U{85}', '\U{2028}', '\U{2029}'}
  }

  predicate ValidToken(token: Option<string>) {
    && token.Some?
    && (exists i | 0 <= i < |token.value| :: !IsSpace(token.value[i]))
    && (forall i | 0 <= i < |token.value| :: token.value[i] >= ' ' && token.value[i] != '\U{7F}')
  }

  function RecoverBlob(w: World, s: State, blob: Blob, token: Option<string>, deadline: real): Run<()> {
    if !ValidToken(token) then Run(None, s)
    else
      var (t, s1) := Now(w, s);
      if t >= deadline then Run(None, s1)
      else
        var f := Fetch(w, s1, Contents(blob), deadline, false);
        if f.result.None? || !w.contentOk(blob, f.result.value) then Run(None, f.state)
        else Unambiguous(w, f.state, blob, deadline)
  }

  function RecoverApi(w: World, s: State, url: string, token: Option<string>, deadline: real): Run<string> {
    if !ValidToken(token) then Run(None, s)
    else
      var f := Fetch(w, s, Recheck(url), deadline, true);
      Run(if f.result.None? then None else w.identity(url, f.result.value), f.state)
  }

  function RecoverBlobs(w: World, s: State, blobs: seq<Blob>, token: Option<string>, deadline: real): Run<()>
    decreases |blobs|
  {
    if blobs == [] then Run(Some(()), s)
    else
      var first := RecoverBlob(w, s, blobs[0], token, deadline);
      if first.result.None? then first else RecoverBlobs(w, first.state, blobs[1..], token, deadline)
  }

  /** The identity reported for each URL, in order. */
  function RecoverApis(w: World, s: State, urls: seq<string>, token: Option<string>, deadline: real): Run<seq<string>>
    decreases |urls|
  {
    if urls == [] then Run(Some([]), s)
    else
      var first := RecoverApi(w, s, urls[0], token, deadline);
      if first.result.None? then Run(None, first.state)
      else
        var rest := RecoverApis(w, first.state, urls[1..], token, deadline);
        Run(if rest.result.None? then None else Some([first.result.value] + rest.result.value), rest.state)
  }

  // ---------------------------------------------------------------------------
  // The report
  // ---------------------------------------------------------------------------

  datatype Body = Body(url: string, code: Option<int>)

  /** A report whose fields have the right shape: its counters, and its two failure maps as lists of body lists. */
  datatype Report =
    | Misshapen
    | Report(total: nat, unique: nat, successful: nat, unknown: nat, unsupported: nat, excludes: nat, cached: nat,
             errors: nat, timeouts: nat, errorMap: seq<seq<Body>>, timeoutMap: seq<seq<Body>>)

  function Bodies(lists: seq<seq<Body>>): seq<Body> {
    if lists == [] then [] else Bodies(lists[..|lists| - 1]) + lists[|lists| - 1]
  }

  predicate BodyOk(b: Body) {
    b.url != "" && (b.code.Some? ==> 100 <= b.code.value <= 999)
  }

  /** No more bodies than the counter says, none missing entirely, no list empty. */
  predicate MapOk(lists: seq<seq<Body>>, count: nat) {
    && (forall i | 0 <= i < |lists| :: lists[i] != [])
    && (forall b | b in Bodies(lists) :: BodyOk(b))
    && |Bodies(lists)| <= count
    && (count > 0 ==> lists != [])
  }

  /** The links the counters account for. */
  function Accounted(report: Report): nat
    requires report.Report?
  {
    report.successful + report.unknown + report.unsupported + report.timeouts + report.excludes + report.errors
  }

  /** validate_report: the error bodies and the number of timeouts. */
  function Validate(report: Report, exitCode: int): Option<(seq<Body>, nat)> {
    if report.Misshapen? then None
    else if report.total == 0 || report.unique == 0 || report.unique > report.total then None
    else if Accounted(report) != report.total then None
    else if report.cached > report.total then None
    else if !MapOk(report.errorMap, report.errors) || !MapOk(report.timeoutMap, report.timeouts) then None
    else if exists b | b in Bodies(report.timeoutMap) :: b.code.Some? then None
    else if (exitCode == 0 && report.errors + report.timeouts == 0)
        || (exitCode == 2 && report.errors + report.timeouts > 0)
    then Some((Bodies(report.errorMap), report.timeouts))
    else None
  }

  /** The URLs still to verify, each once, in the order of their first error body. */
  datatype Candidates = Candidates(blobs: seq<Blob>, apis: seq<string>)

  function Urls(blobs: seq<Blob>): seq<string> {
    seq(|blobs|, i requires 0 <= i < |blobs| => blobs[i].url)
  }

  function BlobOf(w: World, url: string): Option<Blob> {
    var p :- w.parse(url);
    Some(Blob(url, p.owner, p.repo, p.ref, p.path, p.fragment))
  }

  function AddBody(w: World, c: Candidates, b: Body): Option<Candidates> {
    if b.code == Some(503) then
      var blob :- BlobOf(w, b.url);
      Some(if b.url in Urls(c.blobs) then c else c.(blobs := c.blobs + [blob]))
    else if b.code == Some(403) && b.url in w.table then
      Some(if b.url in c.apis then c else c.(apis := c.apis + [b.url]))
    else None
  }

  function Collect(w: World, errors: seq<Body>): Option<Candidates> {
    if errors == [] then Some(Candidates([], []))
    else
      var c :- Collect(w, errors[..|errors| - 1]);
      AddBody(w, c, errors[|errors| - 1])
  }

  const MAX_FALLBACK_URLS := 10

  datatype Line = RecoveredBlob(url: string) | RecheckedApi(identity: string, url: string)

  function Lines(blobs: seq<Blob>, apis: seq<string>, identities: seq<string>): seq<Line>
    requires |identities| == |apis|
  {
    seq(|blobs|, i requires 0 <= i < |blobs| => RecoveredBlob(blobs[i].url))
    + seq(|apis|, i requires 0 <= i < |apis| => RecheckedApi(identities[i], apis[i]))
  }

  lemma {:induction false} OneIdentityEach(w: World, s: State, urls: seq<string>, token: Option<string>, deadline: real)
    ensures var r := RecoverApis(w, s, urls, token, deadline).result; r.Some? ==> |r.value| == |urls|
    decreases |urls|
  {
    if urls == [] {
    } else {
      OneIdentityEach(w, RecoverApi(w, s, urls[0], token, deadline).state, urls[1..], token, deadline);
    }
  }

  /** The recoveries, and the lines printed once all of them are done. */
  function Recover(w: World, s: State, c: Candidates, token: Option<string>, deadline: real): Run<seq<Line>> {
    var blobs := RecoverBlobs(w, s, c.blobs, token, deadline);
    if blobs.result.None? then Run(None, blobs.state)
    else
      var apis := RecoverApis(w, blobs.state, c.apis, token, deadline);
      OneIdentityEach(w, blobs.state, c.apis, token, deadline);
      Run(if apis.result.None? then None else Some(Lines(c.blobs, c.apis, apis.result.value)), apis.state)
  }

  const START := State(0, 0, [])

  /** check_report: None for the raised error, else the lines it prints. */
  function CheckReport(w: World, report: Report, exitCode: int, token: Option<string>, seconds: real): Run<seq<Line>> {
    match Validate(report, exitCode)
    case None => Run(None, START)
    case Some((errors, timeouts)) =>
      if timeouts > 0 then Run(None, START)
      else if exitCode == 0 then Run(Some([]), START)
      else
        var (t, s) := Now(w, START);
        match Collect(w, errors)
        case None => Run(None, s)
        case Some(c) =>
          if c.blobs == [] && c.apis == [] then Run(None, s)
          else if |c.blobs| + |c.apis| > MAX_FALLBACK_URLS then Run(None, s)
          else Recover(w, s, c, token, t + seconds)
  }
}
