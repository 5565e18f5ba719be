/** The text a roll leaves, line by line, and when there is none. */
module ChangelogRolled {
  import opened Sequences
  import opened Wrappers
  import opened ChangelogLines
  import opened ChangelogText
  import opened Changelog
  import opened ChangelogRoll

  /**
   The first Unreleased heading gives way to a fresh one, an empty line, and the heading of the release; a heading that
   ends the document without a line feed leaves no empty line.
   */
  ghost predicate HeadingRolled(t: Text, version: string, date: string, before: seq<string>, u: string,
                                after: seq<string>, h: seq<string>) {
    && t.lines == before + [u] + after
    && IsUnreleased(u) && (forall i | 0 <= i < |before| :: !IsUnreleased(before[i]))
    && h == before + ["## [Unreleased]"] + (if after == [] && !t.newline then [] else [""])
            + ["## [" + version + "] \U{2014} " + date] + after
  }

  /**
   The first compare link and the blank lines behind it give way to the compare link from the release on and the link
   to the release.
   */
  ghost predicate LinkRolled(h: seq<string>, version: string, before: seq<string>, c: string, blank: seq<string>,
                             rest: seq<string>, r: seq<string>) {
    && h == before + [c] + blank + rest
    && CompareLine(c).Some? && (forall i | 0 <= i < |before| :: CompareLine(before[i]).None?)
    && (forall i | 0 <= i < |blank| :: Blank(blank[i])) && (rest != [] ==> !Blank(rest[0]))
    && var base := CompareLine(c).value;
       r == before + ["[Unreleased]: " + base + "/compare/v" + version + "...HEAD",
                      "[" + version + "]: " + base + "/releases/tag/v" + version] + rest
  }

  lemma HeadingText(version: string, date: string)
    ensures PlainHeading("Unreleased") == "## [Unreleased]"
    ensures DatedHeading(version, date) == "## [" + version + "] \U{2014} " + date
  {
    assert "] " + ['\U{2014}', ' '] == "] \U{2014} ";
    var front := "## [" + version;
    assert front + "] " + [EM_DASH, ' '] + date == front + ("] " + ['\U{2014}', ' ']) + date;
  }

  lemma LinksText(base: string, version: string)
    ensures NewLinks(base, version)
         == ["[Unreleased]: " + base + "/compare/v" + version + "...HEAD",
             "[" + version + "]: " + base + "/releases/tag/v" + version]
  {
    var start, end := "[" + "Unreleased" + "]: ", version + "...HEAD";
    assert start == "[Unreleased]: ";
    assert "/compare/" + "v" == "/compare/v";
    assert start + (base + "/compare/" + "v" + version + "...HEAD") == start + base + ("/compare/" + "v") + end;
    assert "[Unreleased]: " + base + "/compare/v" + version + "...HEAD" == start + base + "/compare/v" + end;
    var tag := "[" + version + "]: ";
    assert tag + (base + "/releases/tag/v" + version) == tag + base + "/releases/tag/v" + version;
  }

  lemma BeforeFirst(lines: seq<string>, before: seq<string>, u: string, after: seq<string>)
    requires AroundHeading(lines, before, u, after)
    ensures forall i | 0 <= i < |before| :: !IsUnreleased(before[i])
  {
    hide IsUnreleased;
    assert forall i | 0 <= i < |before| :: before[i] == lines[i];
  }

  lemma BeforeLink(lines: seq<string>, before: seq<string>, c: string, after: seq<string>)
    requires AroundLink(lines, before, c, after)
    ensures forall i | 0 <= i < |before| :: CompareLine(before[i]).None?
  {
    hide CompareLine;
    assert forall i | 0 <= i < |before| :: before[i] == lines[i];
  }

  /** With a date of one line, a roll that succeeds makes these two edits, the second on the outcome of the first. */
  lemma RollExact(t: Text, version: string, date: string)
    requires Rollable(t, version) && Line(date)
    ensures Roll(t, version, date).Rolled?
    ensures var r := Roll(t, version, date).text;
            exists before, u, after, h, front, c, blank, rest ::
              && HeadingRolled(t, version, date, before, u, after, h)
              && LinkRolled(h, version, front, c, blank, rest, r.lines)
              && r.newline == (t.newline && rest != [])
  {
    hide AroundHeading, AroundLink, NewHeadings, CompareLine, NewLinks, DropBlank, Roll, Base, FirstCompare, Token,
      Line, Text.Valid, Under, First, Rollable, HeadingRolled, LinkRolled;
    var last, h, x, u, y, before, c, after := RollSplit(t, version, date);
    RollableParts(t, version);
    OneLineDate(t, date);
    HeadingEditText(t, version, date, last, x, u, y);
    LinkEditText(h.lines, version, before, c, after);
  }

  lemma RollableParts(t: Text, version: string)
    requires Rollable(t, version)
    ensures t.Valid() && FirstCompare(t.lines, 0).Some?
  {}

  lemma HeadingEditText(t: Text, version: string, date: string, last: bool, x: seq<string>, u: string, y: seq<string>)
    requires AroundHeading(t.lines, x, u, y) && (last <==> |x| == |t.lines| - 1 && !t.newline)
    ensures HeadingRolled(t, version, date, x, u, y, x + (NewHeadings(last, version, date) + y))
  {
    hide IsUnreleased, PlainHeading, DatedHeading;
    BeforeFirst(t.lines, x, u, y);
    HeadingText(version, date);
    assert last <==> y == [] && !t.newline;
    var dated := "## [" + version + "] \U{2014} " + date;
    var plain := ["## [Unreleased]"] + (if last then [] else [""]);
    assert NewHeadings(last, version, date) == plain + [dated];
    assert x + (plain + [dated] + y)
        == x + ["## [Unreleased]"] + (if last then [] else [""]) + [dated] + y;
  }

  lemma LinkEditText(h: seq<string>, version: string, before: seq<string>, c: string, after: seq<string>)
    requires AroundLink(h, before, c, after)
    ensures exists blank ::
              LinkRolled(h, version, before, c, blank, DropBlank(after),
                         before + (NewLinks(CompareLine(c).value, version) + DropBlank(after)))
  {
    hide CompareLine, NewLinks, DropBlank, Blank;
    var rest := DropBlank(after);
    var blank := SplitBlank(after);
    BeforeLink(h, before, c, after);
    LinksText(CompareLine(c).value, version);
    KeptIsNotBlank(after);
    assert before + [c] + after == before + [c] + blank + rest;
    var links := NewLinks(CompareLine(c).value, version);
    assert before + (links + rest) == before + links + rest;
    assert LinkRolled(h, version, before, c, blank, rest, before + (links + rest));
  }

  lemma KeptIsNotBlank(lines: seq<string>)
    ensures DropBlank(lines) != [] ==> !Blank(DropBlank(lines)[0])
  {}

  /** Why a roll leaves no text: the version is there already, or no line is an Unreleased heading, or none the link. */
  lemma RollRefused(t: Text, version: string, date: string)
    requires t.Valid() && Token(version) && Line(date)
    ensures var r := Roll(t, version, date);
            && (r.AlreadyThere? <==> exists i :: 0 <= i < |t.lines| && Says(t.lines[i], version))
            && (r.NoSection? <==> !r.AlreadyThere? && forall i | 0 <= i < |t.lines| :: !IsUnreleased(t.lines[i]))
            && (r.NoCompareLink? <==>
                  && !r.AlreadyThere? && !r.NoSection?
                  && forall i | 0 <= i < |t.lines| :: CompareLine(t.lines[i]).None?)
  {
    hide Says, CompareLine, Token, Line, Text.Valid, Rollable, RollHeading, RollFooter, Reread, Headings;
    HeadingFound(t.lines, version);
    HeadingFound(t.lines, "Unreleased");
    if version !in Headings(t.lines) && "Unreleased" in Headings(t.lines) {
      if FirstCompare(t.lines, 0).Some? {
        assert Rollable(t, version) by { IsRollable(t, version); }
        RollExact(t, version, date);
      } else {
        NothingToLink(t, version, date);
      }
    }
  }

  lemma IsRollable(t: Text, version: string)
    requires t.Valid() && Token(version) && version !in Headings(t.lines) && "Unreleased" in Headings(t.lines)
    requires FirstCompare(t.lines, 0).Some?
    ensures Rollable(t, version)
  {}

  lemma NothingToLink(t: Text, version: string, date: string)
    requires t.Valid() && Token(version) && Line(date) && "Unreleased" in Headings(t.lines)
    requires FirstCompare(t.lines, 0).None?
    ensures RollFooter(Reread(RollHeading(t, version, date)), version).None?
  {
    hide CompareLine, Token, Line, Text.Valid, RollHeading, Reread, Headings, NewHeadings, NewLinks, DropBlank, Under,
      First, AroundHeading;
    var last, x, u, y := HeadingSplit(t, version, date);
    OneLineDate(t, date);
    InsertedHeadings(last, version, date);
    var ins, h := NewHeadings(last, version, date), Reread(RollHeading(t, version, date)).lines;
    assert t.lines == x + [u] + y by { PartsOf(t.lines, x, u, y); }
    forall i | 0 <= i < |h| ensures CompareLine(h[i]).None? {
      if i < |x| {
        assert h[i] == t.lines[i];
      } else if i < |x| + |ins| {
        assert h[i] == ins[i - |x|] && h[i] in ins;
      } else {
        assert h[i] == t.lines[i - |ins| + 1];
      }
    }
  }

  lemma PartsOf(lines: seq<string>, x: seq<string>, u: string, y: seq<string>)
    requires AroundHeading(lines, x, u, y)
    ensures lines == x + [u] + y
  {}
}
