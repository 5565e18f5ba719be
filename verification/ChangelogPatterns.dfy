/** What the line patterns match: for each a form of the line, with its captures, and the proof that it is exact. */
module ChangelogPatterns {
  import opened Sequences
  import opened Wrappers
  import opened ChangelogLines
  import opened Changelog

  predicate Spaces(s: string) {
    forall i | 0 <= i < |s| :: IsSpace(s[i])
  }

  /** No space at either end. */
  predicate Bare(s: string) {
    s != "" ==> !IsSpace(s[0]) && !IsSpace(s[|s| - 1])
  }

  // ---------------------------------------------------------------------------
  // Stripping
  // ---------------------------------------------------------------------------

  lemma {:induction false} TrimLeftOf(a: string, t: string)
    requires Spaces(a) && (t != "" ==> !IsSpace(t[0]))
    ensures TrimLeft(a + t) == t
  {
    if a == "" {
      assert a + t == t;
    } else {
      assert (a + t)[0] == a[0] && (a + t)[1..] == a[1..] + t;
      TrimLeftOf(a[1..], t);
    }
  }

  lemma {:induction false} TrimRightOf(t: string, b: string)
    requires Spaces(b) && (t != "" ==> !IsSpace(t[|t| - 1]))
    ensures TrimRight(t + b) == t
    decreases |b|
  {
    if b == "" {
      assert t + b == t;
    } else {
      var init := b[..|b| - 1];
      assert (t + b)[|t + b| - 1] == b[|b| - 1] && (t + b)[..|t + b| - 1] == t + init;
      TrimRightOf(t, init);
    }
  }

  lemma {:induction false} LeftParts(s: string) returns (a: string)
    ensures Spaces(a) && s == a + TrimLeft(s)
  {
    if s != "" && IsSpace(s[0]) {
      a := LeftParts(s[1..]);
      a := [s[0]] + a;
    } else {
      a := "";
    }
  }

  lemma {:induction false} RightParts(s: string) returns (b: string)
    ensures Spaces(b) && s == TrimRight(s) + b
  {
    if s != "" && IsSpace(s[|s| - 1]) {
      b := RightParts(s[..|s| - 1]);
      b := b + [s[|s| - 1]];
    } else {
      b := "";
    }
  }

  /** Stripping takes the spaces off both ends, and nothing else. */
  lemma StripExact(s: string, t: string)
    ensures Strip(s) == t <==> exists a, b :: Spaces(a) && Spaces(b) && Bare(t) && s == a + t + b
  {
    var a := LeftParts(s);
    var b := RightParts(TrimLeft(s));
    assert s == a + Strip(s) + b;
    if Strip(s) != "" { assert Strip(s)[0] == TrimLeft(s)[0]; }
    if x, y :| Spaces(x) && Spaces(y) && Bare(t) && s == x + t + y {
      if t == "" {
        assert s == (x + y) + "";
        TrimLeftOf(x + y, "");
      } else {
        assert s == x + (t + y);
        TrimLeftOf(x, t + y);
        TrimRightOf(t, y);
      }
    }
  }

  lemma BlankIsSpaces(s: string)
    ensures Blank(s) <==> Spaces(s)
  {
    StripExact(s, "");
    var none := "";
    assert Spaces(s) ==> Spaces(s) && Spaces(none) && Bare(none) && s == s + none + none;
  }

  // ---------------------------------------------------------------------------
  // Headings
  // ---------------------------------------------------------------------------

  /** What follows the bracket of a heading: nothing, or a dash with some text, which is the date unless it is blank. */
  ghost predicate Dated(tail: string, date: Option<string>) {
    || (tail == "" && date == None)
    || (|tail| >= 2 && tail[0] in {EM_DASH, '-'} && date == if Spaces(tail[1..]) then None else Some(Strip(tail[1..])))
  }

  /** `##`, spaces, a bracketed version, spaces, and nothing or a dash with a date. */
  ghost predicate HeadingForm(line: string, gap: string, version: string, space: string, tail: string) {
    && line == "##" + gap + ("[" + version + "]" + (space + tail))
    && gap != "" && Spaces(gap) && version != "" && ']' !in version && Spaces(space)
  }

  lemma BracketExact(s: string, v: string, rest: string)
    ensures Bracketed(s) == Some((v, rest)) <==> s == "[" + v + "]" + rest && v != "" && ']' !in v
  {
    if Bracketed(s) == Some((v, rest)) {
      var k := Find(s, ']', 1).value;
      forall i | 0 <= i < |v| ensures v[i] != ']' { assert v[i] == s[i + 1]; }
    }
    if s == "[" + v + "]" + rest && v != "" && ']' !in v { BracketedToken(v, rest); }
  }

  lemma HeadingRead(line: string, gap: string, version: string, space: string, tail: string, date: Option<string>)
    requires HeadingForm(line, gap, version, space, tail) && Dated(tail, date)
    ensures ParseHeading(line) == Some(Heading(Strip(version), date))
  {
    hide Strip, Bracketed, Blank, TrimLeft;
    var inner := "[" + version + "]" + (space + tail);
    assert line[..2] == "##" && line[2] == gap[0] && line[2..] == gap + inner;
    TrimLeftOf(gap, inner);
    BracketExact(inner, version, space + tail);
    TrimLeftOf(space, tail);
    if tail != "" { BlankIsSpaces(tail[1..]); }
  }

  lemma HeadingParts(line: string) returns (gap: string, version: string, space: string, tail: string)
    requires ParseHeading(line).Some?
    ensures HeadingForm(line, gap, version, space, tail) && Dated(tail, ParseHeading(line).value.date)
    ensures ParseHeading(line).value.version == Strip(version)
  {
    hide Strip, Bracketed, Blank, TrimLeft;
    gap := LeftParts(line[2..]);
    var inner := TrimLeft(line[2..]);
    version := Bracketed(inner).value.0;
    var rest := Bracketed(inner).value.1;
    BracketExact(inner, version, rest);
    space := LeftParts(rest);
    tail := TrimLeft(rest);
    assert line == "##" + line[2..];
    if tail != "" { BlankIsSpaces(tail[1..]); }
    assert gap != "" by { NotLed(line[2..], gap, inner); }
  }

  lemma NotLed(s: string, a: string, t: string)
    requires s == a + t && s != "" && IsSpace(s[0]) && (t != "" ==> !IsSpace(t[0]))
    ensures a != ""
  {
    assert a == "" ==> a + t == t;
  }

  /** A line is a heading of a version and a date exactly when it has the form, with these captures stripped. */
  lemma HeadingExact(line: string, h: Heading)
    ensures ParseHeading(line) == Some(h) <==>
              exists gap, version, space, tail ::
                HeadingForm(line, gap, version, space, tail) && Dated(tail, h.date) && h.version == Strip(version)
  {
    hide ParseHeading, HeadingForm, Dated, Strip;
    if ParseHeading(line) == Some(h) {
      var gap, version, space, tail := HeadingParts(line);
    }
    if gap, version, space, tail :|
        HeadingForm(line, gap, version, space, tail) && Dated(tail, h.date) && h.version == Strip(version) {
      HeadingRead(line, gap, version, space, tail, h.date);
    }
  }

  // ---------------------------------------------------------------------------
  // Link lines
  // ---------------------------------------------------------------------------

  /** `[mark]:`, spaces, and what follows them. */
  ghost predicate LinkForm(line: string, mark: string, gap: string, rest: string) {
    && line == "[" + mark + "]" + (":" + gap + rest)
    && mark != "" && ']' !in mark && gap != "" && Spaces(gap) && (rest != "" ==> !IsSpace(rest[0]))
  }

  lemma LabelExact(line: string, mark: string, rest: string)
    ensures Label(line) == Some((mark, rest)) <==> exists gap :: LinkForm(line, mark, gap, rest)
  {
    hide Bracketed, TrimLeft;
    if Label(line) == Some((mark, rest)) {
      var after := Bracketed(line).value.1;
      BracketExact(line, mark, after);
      var gap := LeftParts(after[1..]);
      assert after == ":" + gap + rest;
      assert gap != "" by { NotLed(after[1..], gap, rest); }
      assert LinkForm(line, mark, gap, rest);
    }
    if gap :| LinkForm(line, mark, gap, rest) {
      var after := ":" + gap + rest;
      BracketExact(line, mark, after);
      assert after[1..] == gap + rest && after[1] == gap[0];
      TrimLeftOf(gap, rest);
    }
  }

  /** A line is a link exactly when a name in brackets, a colon and spaces lead a URL and only spaces follow it. */
  lemma FooterExact(line: string, mark: string, url: string)
    ensures ParseFooter(line) == Some((mark, url)) <==>
              url != "" && NoSpace(url) && exists gap, end :: LinkForm(line, mark, gap, url + end) && Spaces(end)
  {
    hide Label, TrimRight, LinkForm;
    if ParseFooter(line) == Some((mark, url)) {
      var rest := Label(line).value.1;
      LabelExact(line, mark, rest);
      var gap :| LinkForm(line, mark, gap, rest);
      var end := RightParts(rest);
      assert LinkForm(line, mark, gap, url + end) && Spaces(end);
    }
    if url != "" && NoSpace(url) {
      if gap, end :| LinkForm(line, mark, gap, url + end) && Spaces(end) {
        LabelExact(line, mark, url + end);
        TrimRightOf(url, end);
      }
    }
  }

  /** A section ends at a line of `##` and a space, or of a name in brackets, a colon, spaces and more. */
  lemma StopsExact(line: string)
    ensures Stops(line) <==>
              || (exists c, more :: IsSpace(c) && line == "##" + ([c] + more))
              || exists mark, gap, rest :: LinkForm(line, mark, gap, rest) && rest != ""
  {
    hide Label, LinkForm;
    if AnyHeading(line) { assert line == "##" + ([line[2]] + line[3..]); }
    if c, more :| IsSpace(c) && line == "##" + ([c] + more) { assert line[..2] == "##" && line[2] == c; }
    if LinkStart(line) {
      LabelExact(line, Label(line).value.0, Label(line).value.1);
    }
    if mark, gap, rest :| LinkForm(line, mark, gap, rest) && rest != "" {
      LabelExact(line, mark, rest);
    }
  }

  /** `base/compare/prev...HEAD`, neither part empty. */
  ghost predicate CompareForm(url: string, base: string, prev: string) {
    url == base + "/compare/" + prev + "...HEAD" && base != "" && prev != ""
  }

  /** The compare link is recognized exactly by its form, with the shortest base. */
  lemma CompareExact(url: string, base: string)
    ensures CompareBase(url) == Some(base) <==>
              && (exists prev :: CompareForm(url, base, prev))
              && forall b, p :: CompareForm(url, b, p) ==> |base| <= |b|
  {
    hide CompareForm, CompareBase;
    forall b, p | CompareForm(url, b, p)
      ensures CompareBase(url).Some? && |CompareBase(url).value| <= |b|
    {
      CompareNoLonger(url, b, p);
    }
    if CompareBase(url).Some? {
      var first := CompareBase(url).value;
      var prev := CompareParts(url);
      if prev' :| CompareForm(url, base, prev') && |base| <= |first| {
        BaseIsPrefix(url, base, prev');
        BaseIsPrefix(url, first, prev);
      }
    }
  }

  lemma BaseIsPrefix(url: string, base: string, prev: string)
    requires CompareForm(url, base, prev)
    ensures |base| <= |url| && base == url[..|base|]
  {}

  lemma CompareNoLonger(url: string, base: string, prev: string)
    requires CompareForm(url, base, prev)
    ensures CompareBase(url).Some? && |CompareBase(url).value| <= |base|
  {
    hide CompareAt;
    assert Here(url, |base|, COMPARE) && Here(url, |url| - |HEAD|, HEAD);
    CompareFirst(url, 1, |base|);
  }

  lemma CompareParts(url: string) returns (prev: string)
    requires CompareBase(url).Some?
    ensures CompareForm(url, CompareBase(url).value, prev)
  {
    hide CompareAt;
    var i := CompareAt(url, 1).value;
    prev := url[i + |COMPARE|..|url| - |HEAD|];
    assert url == url[..i] + COMPARE + prev + HEAD;
  }

  lemma {:induction false} CompareFirst(url: string, i: nat, k: nat)
    requires i <= k && Here(url, k, COMPARE) && k + |COMPARE| + 1 + |HEAD| <= |url|
    ensures CompareAt(url, i).Some? && CompareAt(url, i).value <= k
    decreases k - i
  {
    if i == k {
    } else {
      CompareFirst(url, i + 1, k);
    }
  }
}
