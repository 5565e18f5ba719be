/**
 The line patterns of scripts/release/roll-changelog.py and scripts/release/extract-changelog.py.
 Lines carry no line break; whitespace is Python's, less the characters that would break a line.
 */
module ChangelogLines {
  import opened Sequences
  import opened Wrappers

  /** Where Python's splitlines() breaks a line. */
  predicate IsBreak(c: char) {
    '\n' <= c <= '\r' || '\U{1C}' <= c <= '\U{1E}' || c in {'\U{85}', '\U{2028}', '\U{2029}'}
  }

  /** A string that is one line. */
  predicate Line(s: string) {
    forall i | 0 <= i < |s| :: !IsBreak(s[i])
  }

  predicate IsSpace(c: char) {
    || c in {' ', '\t', '\U{1F}', '\U{A0}', '\U{1680}', '\U{202F}', '\U{205F}', '\U{3000}'}
    || '\U{2000}' <= c <= '\U{200A}'
  }

  function TrimLeft(s: string): (r: string)
    ensures |r| <= |s| && (r != [] ==> !IsSpace(r[0]))
  {
    if s != [] && IsSpace(s[0]) then TrimLeft(s[1..]) else s
  }

  function TrimRight(s: string): (r: string)
    ensures |r| <= |s| && (r != [] ==> !IsSpace(r[|r| - 1]))
  {
    if s != [] && IsSpace(s[|s| - 1]) then TrimRight(s[..|s| - 1]) else s
  }

  function Strip(s: string): string {
    TrimRight(TrimLeft(s))
  }

  predicate Blank(s: string) {
    Strip(s) == ""
  }

  predicate NoSpace(s: string) {
    forall i | 0 <= i < |s| :: !IsSpace(s[i])
  }

  /** `[token]rest` split at the first closing bracket; the token is not empty. */
  function Bracketed(s: string): Option<(string, string)> {
    if s == "" || s[0] != '[' then None
    else
      match Find(s, ']', 1)
      case None => None
      case Some(k) => if k == 1 then None else Some((s[1..k], s[k + 1..]))
  }

  datatype Heading = Heading(version: string, date: Option<string>)

  const EM_DASH: char := '\U{2014}'

  predicate AnyHeading(line: string) {
    |line| >= 3 && line[..2] == "##" && IsSpace(line[2])
  }

  /** `## [version]`, alone or with a dash and a date; the version is stripped. */
  function ParseHeading(line: string): Option<Heading> {
    if !AnyHeading(line) then None
    else
      match Bracketed(TrimLeft(line[2..]))
      case None => None
      case Some((version, rest)) =>
        var tail := TrimLeft(rest);
        if tail == "" then Some(Heading(Strip(version), None))
        else if (tail[0] == EM_DASH || tail[0] == '-') && |tail| >= 2 then
          Some(Heading(Strip(version), if Blank(tail[1..]) then None else Some(Strip(tail[1..]))))
        else None
  }

  /** `[mark]:` followed by whitespace: the mark and what follows the whitespace. */
  function Label(line: string): Option<(string, string)> {
    match Bracketed(line)
    case None => None
    case Some((mark, rest)) =>
      if |rest| >= 2 && rest[0] == ':' && IsSpace(rest[1]) then Some((mark, TrimLeft(rest[1..]))) else None
  }

  /** A link line, as extraction recognizes the footer. */
  predicate LinkStart(line: string) {
    Label(line).Some? && Label(line).value.1 != ""
  }

  /** A link line with nothing after the URL: its raw mark and URL. */
  function ParseFooter(line: string): Option<(string, string)> {
    match Label(line)
    case None => None
    case Some((mark, rest)) =>
      var url := TrimRight(rest);
      if url != "" && NoSpace(url) then Some((mark, url)) else None
  }

  const COMPARE := "/compare/"
  const HEAD := "...HEAD"

  predicate Here(s: string, i: nat, x: string) {
    i + |x| <= |s| && s[i..i + |x|] == x
  }

  /** Where the base ends in `base/compare/prev...HEAD`, the shortest base first. */
  function CompareAt(url: string, i: nat): (r: Option<nat>)
    ensures r.Some? ==>
              && i <= r.value && r.value + |COMPARE| + 1 + |HEAD| <= |url| && Here(url, r.value, COMPARE)
              && forall j | i <= j < r.value :: !Here(url, j, COMPARE)
    decreases |url| - i
  {
    if i >= |url| then None
    else if Here(url, i, COMPARE) && i + |COMPARE| + 1 + |HEAD| <= |url| then Some(i)
    else CompareAt(url, i + 1)
  }

  function CompareBase(url: string): Option<string> {
    if |url| < |HEAD| || !Here(url, |url| - |HEAD|, HEAD) then None
    else match CompareAt(url, 1) case None => None case Some(i) => Some(url[..i])
  }

  /** The base of the `[Unreleased]: base/compare/prev...HEAD` link, if the line is one. */
  function CompareLine(line: string): Option<string> {
    match ParseFooter(line)
    case None => None
    case Some((mark, url)) => if mark == "Unreleased" then CompareBase(url) else None
  }

  // ---------------------------------------------------------------------------
  // Lines the roll writes
  // ---------------------------------------------------------------------------

  /** A version token: not empty, no whitespace, no line break, no closing bracket.  Every semver is one. */
  predicate Token(v: string) {
    v != "" && NoSpace(v) && Line(v) && ']' !in v
  }

  function PlainHeading(v: string): string {
    "## [" + v + "]"
  }

  function DatedHeading(v: string, date: string): string {
    "## [" + v + "] " + [EM_DASH, ' '] + date
  }

  /** The date read back from a dated heading. */
  function StatedDate(date: string): Option<string> {
    if Blank(date) then None else Some(Strip(date))
  }

  function LinkLine(mark: string, url: string): string {
    "[" + mark + "]: " + url
  }

  lemma TokenStrips(v: string)
    requires NoSpace(v)
    ensures TrimLeft(v) == v && TrimRight(v) == v && Strip(v) == v
  {}

  lemma BracketedToken(v: string, rest: string)
    requires v != "" && ']' !in v
    ensures Bracketed("[" + v + "]" + rest) == Some((v, rest))
  {
    var s := "[" + v + "]" + rest;
    var k := 1 + |v|;
    assert s[k] == ']';
    assert forall j | 1 <= j < k :: s[j] == v[j - 1];
    assert Find(s, ']', 1) == Some(k);
    assert s[1..k] == v && s[k + 1..] == rest;
  }

  lemma HeadingStart(v: string, rest: string)
    requires v != "" && ']' !in v
    ensures var line := "## [" + v + "]" + rest;
            AnyHeading(line) && Bracketed(TrimLeft(line[2..])) == Some((v, rest))
  {
    var line := "## [" + v + "]" + rest;
    var inner := "[" + v + "]" + rest;
    assert line[..2] == "##" && line[2] == ' ';
    assert line[2..] == " " + inner;
    assert (" " + inner)[1..] == inner;
    assert TrimLeft(line[2..]) == TrimLeft(inner) == inner;
    BracketedToken(v, rest);
  }

  lemma PlainHeadingParses(v: string)
    requires Token(v)
    ensures ParseHeading(PlainHeading(v)) == Some(Heading(v, None))
  {
    HeadingStart(v, "");
    assert "## [" + v + "]" + "" == PlainHeading(v);
    TokenStrips(v);
  }

  lemma DatedHeadingParses(v: string, date: string)
    requires Token(v) && Line(date)
    ensures ParseHeading(DatedHeading(v, date)) == Some(Heading(v, StatedDate(date)))
  {
    hide AnyHeading, Bracketed, TrimRight;
    var dashed := [EM_DASH, ' '] + date;
    var rest := " " + dashed;
    HeadingStart(v, rest);
    assert "## [" + v + "]" + rest == DatedHeading(v, date);
    TokenStrips(v);
    assert rest[1..] == dashed;
    assert TrimLeft(rest) == TrimLeft(dashed) == dashed;
    var after := dashed[1..];
    assert after == [' '] + date && after[1..] == date;
    assert TrimLeft(after) == TrimLeft(date);
  }

  lemma LinkLineLabel(mark: string, url: string)
    requires mark != "" && ']' !in mark && url != "" && NoSpace(url)
    ensures Label(LinkLine(mark, url)) == Some((mark, url))
  {
    hide Bracketed;
    var rest := ": " + url;
    BracketedToken(mark, rest);
    assert LinkLine(mark, url) == "[" + mark + "]" + rest;
    var spaced := rest[1..];
    assert spaced == " " + url;
    assert spaced[1..] == url;
    assert TrimLeft(spaced) == TrimLeft(url) == url;
  }

  lemma LinkLineParses(mark: string, url: string)
    requires mark != "" && ']' !in mark && url != "" && NoSpace(url)
    ensures ParseFooter(LinkLine(mark, url)) == Some((mark, url)) && LinkStart(LinkLine(mark, url))
  {
    hide Label, LinkLine;
    LinkLineLabel(mark, url);
    TokenStrips(url);
  }

  /** A link line is never a heading, a heading never a link line, a blank line neither. */
  lemma LineKinds(line: string)
    ensures ParseFooter(line).Some? ==> LinkStart(line)
    ensures LinkStart(line) ==> !AnyHeading(line)
    ensures Blank(line) ==> !AnyHeading(line) && !LinkStart(line)
  {
    if Blank(line) && line != "" {
      BlankStart(line);
    }
  }

  lemma BlankStart(line: string)
    requires Blank(line) && line != ""
    ensures IsSpace(line[0])
  {
    var t := TrimLeft(line);
    if t == line {
      BlankOrNot(line);
    }
  }

  lemma {:induction false} BlankOrNot(s: string)
    requires s != "" && !IsSpace(s[0])
    ensures TrimRight(s) != ""
  {
    if IsSpace(s[|s| - 1]) && |s| > 1 {
      assert s[..|s| - 1][0] == s[0];
      BlankOrNot(s[..|s| - 1]);
    }
  }

  /** A compare URL is recognized, whatever its base and version. */
  lemma CompareUrlParses(base: string, prev: string)
    requires base != "" && prev != ""
    ensures CompareBase(base + COMPARE + prev + HEAD).Some?
  {
    var url := base + COMPARE + prev + HEAD;
    assert url[|url| - |HEAD|..|url| - |HEAD| + |HEAD|] == HEAD;
    assert url[|base|..|base| + |COMPARE|] == COMPARE;
    CompareFound(url, 1, |base|);
  }

  lemma {:induction false} CompareFound(url: string, i: nat, k: nat)
    requires i <= k && Here(url, k, COMPARE) && k + |COMPARE| + 1 + |HEAD| <= |url|
    ensures CompareAt(url, i).Some?
    decreases k - i
  {
    if i == k {
    } else {
      CompareFound(url, i + 1, k);
    }
  }

  /** The base taken from a compare link is a non-empty piece of its URL. */
  lemma CompareBaseToken(line: string)
    requires CompareLine(line).Some?
    ensures CompareLine(line).value != "" && NoSpace(CompareLine(line).value)
  {
    var url := ParseFooter(line).value.1;
    assert NoSpace(url);
  }
}
