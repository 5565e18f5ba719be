/**
 What rolling keeps: the integrity `--check` tests, and the meaning `extract` gives every section.
 */
module ChangelogRoll {
  import opened Sequences
  import opened Wrappers
  import opened ChangelogLines
  import opened ChangelogText
  import opened Changelog

  // ---------------------------------------------------------------------------
  // The new lines
  // ---------------------------------------------------------------------------

  lemma NewHeadingLines(version: string, date: string)
    requires Token(version) && Line(date)
    ensures ParseHeading(PlainHeading("Unreleased")) == Some(Heading("Unreleased", None))
    ensures ParseHeading(DatedHeading(version, date)) == Some(Heading(version, StatedDate(date)))
    ensures ParseHeading("").None? && ParseFooter("").None? && !Stops("")
    ensures Stops(PlainHeading("Unreleased")) && Stops(DatedHeading(version, date))
    ensures ParseFooter(PlainHeading("Unreleased")).None? && ParseFooter(DatedHeading(version, date)).None?
    ensures CompareLine(PlainHeading("Unreleased")).None? && CompareLine("").None?
    ensures CompareLine(DatedHeading(version, date)).None?
  {
    hide Strip, Bracketed, ParseHeading, ParseFooter, CompareLine, PlainHeading, DatedHeading, Stops;
    PlainHeadingParses("Unreleased");
    DatedHeadingParses(version, date);
    HeadingIsNoLink(PlainHeading("Unreleased"));
    HeadingIsNoLink(DatedHeading(version, date));
    EmptyLine();
  }

  lemma EmptyLine()
    ensures ParseHeading("").None? && ParseFooter("").None? && CompareLine("").None? && !Stops("")
  {}

  lemma NewLinkLines(base: string, version: string)
    requires Token(version) && base != "" && NoSpace(base)
    ensures var links := NewLinks(base, version);
            && |links| == 2
            && ParseFooter(links[0]) == Some(("Unreleased", base + COMPARE + "v" + version + HEAD))
            && ParseFooter(links[1]) == Some((version, base + "/releases/tag/v" + version))
            && CompareLine(links[0]).Some?
            && (forall l | l in links :: Stops(l) && ParseHeading(l).None?)
  {
    hide ParseFooter, LinkStart, AnyHeading, LinkLine, CompareBase;
    var compare, tag := base + COMPARE + "v" + version + HEAD, base + "/releases/tag/v" + version;
    CompareUrlParses(base, "v" + version);
    assert base + COMPARE + ("v" + version) + HEAD == compare;
    LinkLineParses("Unreleased", compare);
    LinkLineParses(version, tag);
    LineKinds(LinkLine("Unreleased", compare));
    LineKinds(LinkLine(version, tag));
  }

  // ---------------------------------------------------------------------------
  // The heading edit
  // ---------------------------------------------------------------------------

  /** The lines around the first Unreleased heading. */
  ghost predicate AroundHeading(lines: seq<string>, before: seq<string>, u: string, after: seq<string>) {
    && lines == before + [u] + after
    && IsUnreleased(u)
    && FirstUnreleased(lines, 0) == Some(|before|)
  }

  // The roll writes the date as it is given.  A date that is not one line puts its further lines behind the
  // heading, which is what rolling a document with these lines under its Unreleased heading would do.

  function First(date: string): string {
    Pieces(date)[0]
  }

  function Further(date: string): seq<string> {
    Pieces(date)[1..]
  }

  /** The document with the further lines of a date under its Unreleased heading; itself when there are none. */
  function Under(t: Text, date: string): Text {
    match FirstUnreleased(t.lines, 0)
    case None => t
    case Some(i) => Reread(t.(lines := t.lines[..i] + [t.lines[i]] + (Further(date) + t.lines[i + 1..])))
  }

  lemma OneLineDate(t: Text, date: string)
    requires t.Valid() && Line(date)
    ensures First(date) == date && Further(date) == [] && Under(t, date) == t
  {
    hide Read, Written, Pieces, Line, IsUnreleased;
    PiecesOfLine(date);
    var m := FirstUnreleased(t.lines, 0);
    if m.Some? {
      assert t.lines[..m.value] + [t.lines[m.value]] + ([] + t.lines[m.value + 1..]) == t.lines;
      ReadWritten(t);
    }
  }

  /** The lines behind a heading: an empty last line without its line feed is read as a line feed. */
  function Tail(s: seq<string>, newline: bool): Text {
    if !newline && s != [] && s[|s| - 1] == "" then Text(s[..|s| - 1], true) else Text(s, newline)
  }

  /** Reading a document back in which one line may be broken. */
  lemma RereadAt(front: seq<string>, x: string, first: string, further: seq<string>, after: seq<string>, newline: bool)
    requires forall i | 0 <= i < |front| :: Line(front[i])
    requires forall i | 0 <= i < |after| :: Line(after[i])
    requires Pieces(x) == [first] + further && first != ""
    ensures var tail := Tail(further + after, newline);
            Reread(Text(front + [x] + after, newline)) == Text(front + [first] + tail.lines, tail.newline)
  {
    hide Reread, Pieces, Line, Flat;
    FlatAt(front, x, first, further, after);
    RereadFlat(Text(front + [x] + after, newline));
    LastPiece(front, first, further + after);
  }

  lemma FlatAt(front: seq<string>, x: string, first: string, further: seq<string>, after: seq<string>)
    requires forall i | 0 <= i < |front| :: Line(front[i])
    requires forall i | 0 <= i < |after| :: Line(after[i])
    requires Pieces(x) == [first] + further
    ensures Flat(front + [x] + after) == front + [first] + (further + after)
  {
    hide Pieces, Line, Flat;
    FlatConcat(front + [x], after);
    FlatConcat(front, [x]);
    FlatLines(front);
    FlatLines(after);
    FlatOne(x);
    assert (front + ([first] + further)) + after == front + [first] + (further + after);
  }

  lemma FlatOne(x: string)
    ensures Flat([x]) == Pieces(x)
  {
    hide Pieces;
    assert [x][1..] == [];
  }

  lemma LastPiece(front: seq<string>, first: string, rest: seq<string>)
    ensures var p := front + [first] + rest;
            && p[|p| - 1] == (if rest == [] then first else rest[|rest| - 1])
            && (rest != [] ==> p[..|p| - 1] == front + [first] + rest[..|rest| - 1])
  {}

  lemma DatedPieces(version: string, date: string)
    requires Token(version)
    ensures Pieces(DatedHeading(version, date)) == [DatedHeading(version, First(date))] + Further(date)
    ensures Line(First(date))
  {
    hide Pieces;
    var front := "## [" + version + "] " + [EM_DASH, ' '];
    PiecesPrefix(front, date);
    assert DatedHeading(version, date) == front + date;
    assert DatedHeading(version, First(date)) == front + First(date);
  }

  lemma HeadingNotEmpty(line: string)
    requires IsUnreleased(line)
    ensures line != ""
  {}

  lemma UnreleasedLine()
    ensures Line(PlainHeading("Unreleased")) && Line("")
  {}

  /** Around the heading of the document with the further lines under it. */
  lemma UnderSplit(t: Text, date: string) returns (before: seq<string>, u: string, after: seq<string>)
    requires t.Valid() && FirstUnreleased(t.lines, 0).Some?
    ensures AroundHeading(t.lines, before, u, after)
    ensures var tail := Tail(Further(date) + after, t.newline);
            && Under(t, date) == Text(before + [u] + tail.lines, tail.newline)
            && AroundHeading(Under(t, date).lines, before, u, tail.lines)
            && (t.newline || after != [] ==> tail == Text(Further(date) + after, t.newline))
  {
    hide Reread, Pieces, Line, IsUnreleased, Tail, FirstUnreleased;
    before, u, after := Parts(t.lines);
    var tail := Tail(Further(date) + after, t.newline);
    PartsAreLines(t, before, u, after);
    PiecesOfLine(u);
    HeadingNotEmpty(u);
    RereadAt(before, u, u, [], Further(date) + after, t.newline);
    assert [] + (Further(date) + after) == Further(date) + after;
    assert before == t.lines[..|before|] && u == t.lines[|before|] && after == t.lines[|before| + 1..];
    StillFirst(t.lines, before, u, after, tail.lines);
    if t.newline || after != [] { WholeTail(t, before, u, after, Further(date)); }
  }

  lemma Parts(lines: seq<string>) returns (before: seq<string>, u: string, after: seq<string>)
    requires FirstUnreleased(lines, 0).Some?
    ensures AroundHeading(lines, before, u, after)
  {
    hide IsUnreleased;
    var i := FirstUnreleased(lines, 0).value;
    before, u, after := lines[..i], lines[i], lines[i + 1..];
  }

  lemma PartsAreLines(t: Text, before: seq<string>, u: string, after: seq<string>)
    requires t.Valid() && t.lines == before + [u] + after
    ensures Line(u)
    ensures forall i | 0 <= i < |before| :: Line(before[i])
    ensures forall i | 0 <= i < |after| :: Line(after[i])
  {
    hide Line;
    assert u == t.lines[|before|];
    assert forall i | 0 <= i < |before| :: before[i] == t.lines[i];
    assert forall i | 0 <= i < |after| :: after[i] == t.lines[|before| + 1 + i];
  }

  lemma StillFirst(lines: seq<string>, before: seq<string>, u: string, after: seq<string>, other: seq<string>)
    requires AroundHeading(lines, before, u, after)
    ensures AroundHeading(before + [u] + other, before, u, other)
  {
    hide IsUnreleased;
    var changed := before + [u] + other;
    assert forall i | 0 <= i <= |before| :: changed[i] == lines[i];
    FirstUnreleasedAt(changed, |before|);
  }

  lemma WholeTail(t: Text, before: seq<string>, u: string, after: seq<string>, further: seq<string>)
    requires t.Valid() && t.lines == before + [u] + after && (t.newline || after != [])
    ensures Tail(further + after, t.newline) == Text(further + after, t.newline)
  {
    hide Line;
    LastOf(further, after);
    LastOf(before + [u], after);
  }

  lemma FirstUnreleasedAt(lines: seq<string>, i: nat)
    requires i < |lines| && IsUnreleased(lines[i]) && forall j | 0 <= j < i :: !IsUnreleased(lines[j])
    ensures FirstUnreleased(lines, 0) == Some(i)
  {
    hide IsUnreleased;
    assert FirstUnreleased(lines, 0).Some?;
  }

  lemma HasUnreleased(lines: seq<string>)
    requires "Unreleased" in Headings(lines)
    ensures FirstUnreleased(lines, 0).Some?
  {
    hide Headings, Says;
    HeadingFound(lines, "Unreleased");
  }

  /** The heading edit, read back: the new headings, then whatever is under the old one. */
  lemma HeadingSplit(t: Text, version: string, date: string)
    returns (last: bool, before: seq<string>, u: string, after: seq<string>)
    requires t.Valid() && Token(version) && "Unreleased" in Headings(t.lines)
    ensures AroundHeading(Under(t, date).lines, before, u, after)
    ensures last <==> |before| == |t.lines| - 1 && !t.newline
    ensures Reread(RollHeading(t, version, date))
         == Under(t, date).(lines := before + (NewHeadings(last, version, First(date)) + after))
  {
    hide IsUnreleased, Headings, Pieces, Reread, Line, Under, NewHeadings, RollHeading, Tail, Further, First;
    HasUnreleased(t.lines);
    var rest;
    before, u, rest := UnderSplit(t, date);
    after := Tail(Further(date) + rest, t.newline).lines;
    last := |before| == |t.lines| - 1 && !t.newline;
    HeadingEdited(t, version, date, before, u, rest);
    DatedPieces(version, date);
    UnreleasedLine();
    var plain, dated := Plain(last), DatedHeading(version, First(date));
    PartsAreLines(t, before, u, rest);
    DatedNotEmpty(version, First(date));
    RereadAt(before + plain, DatedHeading(version, date), dated, Further(date), rest, t.newline);
    assert (before + plain) + [dated] + after
        == before + (NewHeadings(last, version, First(date)) + after) by { PlainAndDated(last, version, First(date)); }
  }

  /** The new lines in front of the dated heading. */
  function Plain(last: bool): (r: seq<string>)
    ensures r != [] && r[0] == PlainHeading("Unreleased") && forall i | 0 < i < |r| :: r[i] == ""
    ensures forall i | 0 <= i < |r| :: r[i] == PlainHeading("Unreleased") || r[i] == ""
  {
    [PlainHeading("Unreleased")] + if last then [] else [""]
  }

  lemma PlainAndDated(last: bool, version: string, date: string)
    ensures NewHeadings(last, version, date) == Plain(last) + [DatedHeading(version, date)]
  {}

  lemma HeadingEdited(t: Text, version: string, date: string, before: seq<string>, u: string, rest: seq<string>)
    requires AroundHeading(t.lines, before, u, rest)
    ensures RollHeading(t, version, date)
         == var plain := Plain(|before| == |t.lines| - 1 && !t.newline);
            t.(lines := (before + plain) + [DatedHeading(version, date)] + rest)
  {
    hide IsUnreleased, FirstUnreleased;
    assert t.lines[..|before|] == before && t.lines[|before| + 1..] == rest;
  }

  lemma DatedNotEmpty(version: string, date: string)
    ensures DatedHeading(version, date) != ""
  {}

  /** Nothing is lost under the heading: the headings of the document and its compare links stay. */
  lemma UnderKeeps(t: Text, date: string)
    requires t.Valid() && FirstUnreleased(t.lines, 0).Some?
    ensures forall h | h in Headings(t.lines) :: h in Headings(Under(t, date).lines)
    ensures FirstCompare(t.lines, 0).Some? ==> FirstCompare(Under(t, date).lines, 0).Some?
  {
    hide Headings, Says, CompareLine, FirstUnreleased, Pieces, Read, Written, Under;
    var before, u, after := UnderSplit(t, date);
    var lines := Under(t, date).lines;
    var tail := Tail(Further(date) + after, t.newline).lines;
    forall i | 0 <= i < |t.lines| ensures exists j :: 0 <= j < |lines| && lines[j] == t.lines[i] {
      if i <= |before| {
        assert lines[i] == t.lines[i];
      } else {
        assert tail == Further(date) + after;
        var k := i - |before| - 1;
        assert t.lines[i] == after[k] == tail[|Further(date)| + k] == lines[|before| + 1 + |Further(date)| + k];
      }
    }
    forall h | h in Headings(t.lines) ensures h in Headings(lines) {
      HeadingFound(t.lines, h);
      HeadingFound(lines, h);
    }
  }

  lemma InsertedHeadings(last: bool, version: string, date: string)
    requires Token(version) && Line(date)
    ensures Headings(NewHeadings(last, version, date)) == ["Unreleased", version]
    ensures Footer(NewHeadings(last, version, date)) == map[]
    ensures forall l | l in NewHeadings(last, version, date) :: CompareLine(l).None?
  {
    hide ParseHeading, ParseFooter, CompareLine, PlainHeading, DatedHeading, Stops;
    NewHeadingLines(version, date);
    var u, r := PlainHeading("Unreleased"), DatedHeading(version, date);
    HeadingsOne(u); HeadingsOne(r); HeadingsOne("");
    FooterOne(u); FooterOne(r); FooterOne("");
    HeadingsConcat([u], [""]); HeadingsConcat([u] + [""], [r]); HeadingsConcat([u], [r]);
    FooterConcat([u], [""]); FooterConcat([u] + [""], [r]); FooterConcat([u], [r]);
    assert [u] + [] + [r] == [u] + [r];
  }

  /** The heading list gains the version directly after Unreleased; the footer is untouched. */
  lemma HeadingEdit(lines: seq<string>, before: seq<string>, u: string, after: seq<string>, last: bool,
                    version: string, date: string)
    requires Token(version) && Line(date) && AroundHeading(lines, before, u, after)
    ensures var ins := before + (NewHeadings(last, version, date) + after);
            && Headings(lines) == Headings(before) + ["Unreleased"] + Headings(after)
            && Headings(ins) == Headings(before) + ["Unreleased", version] + Headings(after)
            && Footer(ins) == Footer(lines)
  {
    hide ParseHeading, ParseFooter, NewHeadings, FirstUnreleased, LinkStart, Headings, Footer, Stops, CompareLine;
    var ins := NewHeadings(last, version, date);
    assert lines == before + ([u] + after);
    InsertedHeadings(last, version, date);
    HeadingIsNoLink(u);
    HeadingsOne(u);
    FooterOne(u);
    HeadingsConcat3(before, [u], after); HeadingsConcat3(before, ins, after);
    FooterConcat3(before, [u], after); FooterConcat3(before, ins, after);
  }

  lemma HeadingIsNoLink(u: string)
    requires ParseHeading(u).Some?
    ensures ParseFooter(u).None? && CompareLine(u).None? && Stops(u)
  {
    LineKinds(u);
  }

  // ---------------------------------------------------------------------------
  // The footer edit
  // ---------------------------------------------------------------------------

  /** The document around its first compare link, with the lines that stay behind it. */
  ghost predicate AroundLink(lines: seq<string>, before: seq<string>, c: string, after: seq<string>) {
    && lines == before + [c] + after
    && CompareLine(c).Some?
    && FirstCompare(lines, 0) == Some(|before|)
  }

  lemma LinkSplit(t: Text, version: string) returns (before: seq<string>, c: string, after: seq<string>)
    requires FirstCompare(t.lines, 0).Some?
    ensures AroundLink(t.lines, before, c, after)
    ensures RollFooter(t, version) == Some(Text(before + (NewLinks(CompareLine(c).value, version) + DropBlank(after)),
                                                t.newline && DropBlank(after) != []))
  {
    hide CompareLine, NewLinks, DropBlank;
    var j := FirstCompare(t.lines, 0).value;
    before, c, after := t.lines[..j], t.lines[j], t.lines[j + 1..];
    assert t.lines == before + [c] + after;
    var links := NewLinks(CompareLine(c).value, version);
    assert before + links + DropBlank(after) == before + (links + DropBlank(after));
  }

  lemma LinkIsNoHeading(c: string)
    requires CompareLine(c).Some?
    ensures ParseHeading(c).None? && Stops(c) && ParseFooter(c).Some? && ParseFooter(c).value.0 == "Unreleased"
  {
    LineKinds(c);
  }

  lemma SplitBlank(lines: seq<string>) returns (blank: seq<string>)
    ensures lines == blank + DropBlank(lines) && forall i | 0 <= i < |blank| :: Blank(blank[i])
  {
    blank := lines[..|lines| - |DropBlank(lines)|];
  }

  lemma DroppedSayNothing(lines: seq<string>)
    ensures Headings(DropBlank(lines)) == Headings(lines) && Footer(DropBlank(lines)) == Footer(lines)
  {
    hide DropBlank, Blank, Headings, Footer;
    var blank := SplitBlank(lines);
    BlankLinesSayNothing(blank);
    HeadingsConcat(blank, DropBlank(lines));
    FooterConcat(blank, DropBlank(lines));
  }

  lemma LinksRead(base: string, version: string)
    requires Token(version) && base != "" && NoSpace(base)
    ensures Headings(NewLinks(base, version)) == []
    ensures Footer(NewLinks(base, version)) == NewEntries(base, version)
  {
    hide ParseFooter, ParseHeading, CompareLine, Stops, Strip;
    NewLinkLines(base, version);
    TokenStrips(version);
    TokenStrips("Unreleased");
    var links := NewLinks(base, version);
    assert links == [links[0]] + [links[1]];
    HeadingsConcat([links[0]], [links[1]]); HeadingsOne(links[0]); HeadingsOne(links[1]);
    FooterConcat([links[0]], [links[1]]); FooterOne(links[0]); FooterOne(links[1]);
  }

  /** The two dictionary entries a roll writes. */
  function NewEntries(base: string, version: string): map<string, string> {
    map["Unreleased" := base + COMPARE + "v" + version + HEAD, version := base + "/releases/tag/v" + version]
  }

  lemma LinkEdit(lines: seq<string>, before: seq<string>, c: string, after: seq<string>, version: string)
    requires Token(version) && AroundLink(lines, before, c, after)
    ensures var base := CompareLine(c).value;
            var edited := before + (NewLinks(base, version) + DropBlank(after));
            && Headings(edited) == Headings(lines)
            && Footer(edited) == Footer(before) + NewEntries(base, version) + Footer(after)
            && Footer(lines).Keys == Footer(before).Keys + {"Unreleased"} + Footer(after).Keys
            && (forall k | k in Footer(lines) && k != "Unreleased" ::
                  k in Footer(before) + Footer(after) && Footer(lines)[k] == (Footer(before) + Footer(after))[k])
  {
    hide CompareLine, ParseFooter, ParseHeading, NewLinks, NewEntries, DropBlank, FirstCompare, Strip, Stops,
         Headings, Footer;
    var base := CompareLine(c).value;
    CompareBaseToken(c);
    LinkIsNoHeading(c);
    LinksRead(base, version);
    DroppedSayNothing(after);
    LinkOne(c);
    assert lines == before + ([c] + after);
    var links, rest := NewLinks(base, version), DropBlank(after);
    HeadingsConcat3(before, [c], after); HeadingsConcat3(before, links, rest);
    FooterConcat3(before, [c], after); FooterConcat3(before, links, rest);
  }

  lemma LinkOne(c: string)
    requires CompareLine(c).Some?
    ensures Headings([c]) == [] && Footer([c]).Keys == {"Unreleased"}
  {
    hide CompareLine, ParseFooter, ParseHeading, Stops, Strip;
    LinkIsNoHeading(c);
    TokenStrips("Unreleased");
    HeadingsOne(c);
    FooterOne(c);
  }

  lemma DroppedNameNothing(lines: seq<string>, key: string, fold: string -> string)
    ensures Section(DropBlank(lines), key, fold) == Section(lines, key, fold)
  {
    hide DropBlank, Blank, Names, Section;
    var blank := SplitBlank(lines);
    BlankLinesName(blank, key, fold);
    SectionSkips(blank, DropBlank(lines), key, fold);
  }

  lemma LinksNameNothing(base: string, version: string, key: string, fold: string -> string)
    requires Token(version) && base != "" && NoSpace(base)
    ensures var links := NewLinks(base, version);
            links != [] && Stops(links[0]) && forall i | 0 <= i < |links| :: !Names(links[i], key, fold)
  {
    hide ParseHeading, Stops, CompareLine, ParseFooter, Strip;
    NewLinkLines(base, version);
  }

  lemma LinkNamesNothing(c: string, key: string, fold: string -> string)
    requires CompareLine(c).Some?
    ensures Stops(c) && !Names(c, key, fold)
  {
    hide ParseHeading, Stops, CompareLine, Strip;
    LinkIsNoHeading(c);
  }

  /** The footer edit changes no section. */
  lemma LinkEditSections(lines: seq<string>, before: seq<string>, c: string, after: seq<string>, version: string,
                         key: string, fold: string -> string)
    requires Token(version) && AroundLink(lines, before, c, after)
    ensures Section(before + (NewLinks(CompareLine(c).value, version) + DropBlank(after)), key, fold)
        == Section(lines, key, fold)
  {
    hide CompareLine, NewLinks, DropBlank, FirstCompare, Stops, Section, Names;
    CompareBaseToken(c);
    var links, rest := NewLinks(CompareLine(c).value, version), DropBlank(after);
    LinksNameNothing(CompareLine(c).value, version, key, fold);
    LinkNamesNothing(c, key, fold);
    SectionSkips(links, rest, key, fold);
    SectionSkips([c], after, key, fold);
    DroppedNameNothing(after, key, fold);
    assert lines == before + ([c] + after);
    SameSections(before, links + rest, [c] + after, key, fold);
  }

  // ---------------------------------------------------------------------------
  // Sections across the heading edit
  // ---------------------------------------------------------------------------

  /** Sections with other names stay what they were. */
  lemma HeadingEditOthers(lines: seq<string>, before: seq<string>, u: string, after: seq<string>, last: bool,
                          version: string, date: string, key: string, fold: string -> string)
    requires Token(version) && Line(date) && AroundHeading(lines, before, u, after)
    requires fold(Strip(key)) != fold("Unreleased") && fold(Strip(key)) != fold(version)
    ensures Section(before + (NewHeadings(last, version, date) + after), key, fold) == Section(lines, key, fold)
  {
    hide ParseHeading, FirstUnreleased, Stops, Section, PlainHeading, DatedHeading, ParseFooter, CompareLine, Strip;
    NewHeadingLines(version, date);
    var ins := NewHeadings(last, version, date);
    SectionSkips(ins, after, key, fold);
    SectionSkips([u], after, key, fold);
    assert lines == before + ([u] + after);
    assert (ins + after)[0] == PlainHeading("Unreleased");
    HeadingIsNoLink(u);
    SameSections(before, ins + after, [u] + after, key, fold);
  }

  lemma SectionStart(line: string, rest: seq<string>, key: string, fold: string -> string)
    requires Names(line, key, fold)
    ensures Section([line] + rest, key, fold) == Some((ParseHeading(line).value.date, Body(rest)))
  {
    assert ([line] + rest)[1..] == rest;
  }

  /** Extraction, which folds names, can tell the new version and Unreleased from every heading. */
  predicate Apart(lines: seq<string>, version: string, fold: string -> string) {
    && (forall h | h in Headings(lines) :: fold(h) != fold(version))
    && forall h | h in Headings(lines) && fold(h) == fold("Unreleased") :: h == "Unreleased"
  }

  /** The new version's section is the old Unreleased section; the new Unreleased section is blank. */
  lemma HeadingEditMoves(lines: seq<string>, before: seq<string>, u: string, after: seq<string>, last: bool,
                         version: string, date: string, fold: string -> string)
    requires Token(version) && Line(date) && AroundHeading(lines, before, u, after)
    requires Apart(lines, version, fold)
    ensures var edited := before + (NewHeadings(last, version, date) + after);
            && Section(lines, "Unreleased", fold) == Some((ParseHeading(u).value.date, Body(after)))
            && Section(edited, version, fold) == Some((StatedDate(date), Body(after)))
            && Section(edited, "Unreleased", fold).Some?
            && forall l | l in Section(edited, "Unreleased", fold).value.1 :: l == ""
  {
    hide ParseHeading, Stops, Section, PlainHeading, DatedHeading, ParseFooter, CompareLine, Strip, Headings, Body,
         StatedDate;
    NewHeadingLines(version, date);
    TokenStrips(version);
    TokenStrips("Unreleased");
    var ins := NewHeadings(last, version, date);
    BeforeNamesNothing(lines, before, u, after, version, fold);
    SectionSkips(before, [u] + after, "Unreleased", fold);
    SectionStart(u, after, "Unreleased", fold);
    assert lines == before + ([u] + after);
    SectionSkips(before, ins + after, version, fold);
    SectionSkips(before, ins + after, "Unreleased", fold);
    MovedHere(last, after, version, date, fold);
  }

  lemma BeforeNamesNothing(lines: seq<string>, before: seq<string>, u: string, after: seq<string>, version: string,
                           fold: string -> string)
    requires AroundHeading(lines, before, u, after) && Strip(version) == version
    requires Apart(lines, version, fold)
    ensures forall i | 0 <= i < |before| :: !Names(before[i], version, fold) && !Names(before[i], "Unreleased", fold)
    ensures fold("Unreleased") != fold(version)
  {
    hide ParseHeading, Strip, Headings;
    TokenStrips("Unreleased");
    HeadingsMember(lines, |before|);
    forall i | 0 <= i < |before| ensures !Names(before[i], version, fold) && !Names(before[i], "Unreleased", fold) {
      assert lines[i] == before[i];
      if ParseHeading(before[i]).Some? {
        HeadingsMember(lines, i);
        assert !IsUnreleased(lines[i]);
      }
    }
  }

  lemma MovedHere(last: bool, after: seq<string>, version: string, date: string, fold: string -> string)
    requires Token(version) && Line(date) && fold("Unreleased") != fold(version)
    ensures var ins := NewHeadings(last, version, date);
            && Section(ins + after, version, fold) == Some((StatedDate(date), Body(after)))
            && var s := Section(ins + after, "Unreleased", fold); s.Some? && forall l | l in s.value.1 :: l == ""
  {
    hide ParseHeading, Stops, Section, PlainHeading, DatedHeading, ParseFooter, CompareLine, Strip, StatedDate, Body,
         NewHeadings, Token, Line;
    NewHeadingNames(version, date, fold);
    PlainAndDated(last, version, date);
    var plain, tail := Plain(last), [DatedHeading(version, date)] + after;
    assert NewHeadings(last, version, date) + after == plain + tail;
    SectionSkips(plain, tail, version, fold);
    SectionStart(DatedHeading(version, date), after, version, fold);
    assert plain + tail == [plain[0]] + (plain[1..] + tail);
    SectionStart(plain[0], plain[1..] + tail, "Unreleased", fold);
    BodyStopsAt(plain[1..], tail);
    BodySubset(plain[1..]);
  }

  /** Which of the new lines names which section. */
  lemma NewHeadingNames(version: string, date: string, fold: string -> string)
    requires Token(version) && Line(date) && fold("Unreleased") != fold(version)
    ensures Names(PlainHeading("Unreleased"), "Unreleased", fold) && !Names(PlainHeading("Unreleased"), version, fold)
    ensures Names(DatedHeading(version, date), version, fold) && Stops(DatedHeading(version, date))
    ensures ParseHeading(DatedHeading(version, date)).value.date == StatedDate(date) && !Names("", version, fold)
  {
    hide ParseHeading, Stops, PlainHeading, DatedHeading, ParseFooter, CompareLine, Strip, StatedDate;
    NewHeadingLines(version, date);
    TokenStrips(version);
    TokenStrips("Unreleased");
  }

  lemma {:induction false} BodySubset(lines: seq<string>)
    ensures forall l | l in Body(lines) :: l in lines
  {
    if lines == [] {
    } else {
      BodySubset(lines[1..]);
    }
  }

  // ---------------------------------------------------------------------------
  // The whole roll
  // ---------------------------------------------------------------------------

  lemma FirstCompareIs(lines: seq<string>, i: nat)
    requires i < |lines| && CompareLine(lines[i]).Some? && forall j | 0 <= j < i :: CompareLine(lines[j]).None?
    ensures FirstCompare(lines, 0) == Some(i)
  {
    hide CompareLine;
    assert FirstCompare(lines, 0).Some?;
  }

  /** The heading edit leaves the first compare link what it was. */
  lemma CompareSurvives(lines: seq<string>, before: seq<string>, u: string, after: seq<string>, last: bool,
                        version: string, date: string)
    requires Token(version) && Line(date) && AroundHeading(lines, before, u, after) && FirstCompare(lines, 0).Some?
    ensures var edited := before + (NewHeadings(last, version, date) + after);
            && FirstCompare(edited, 0).Some?
            && edited[FirstCompare(edited, 0).value] == lines[FirstCompare(lines, 0).value]
  {
    hide ParseHeading, CompareLine, Stops, ParseFooter, FirstUnreleased, NewHeadings, FirstCompare, Line;
    var ins := NewHeadings(last, version, date);
    var edited := before + (ins + after);
    InsertedHeadings(last, version, date);
    HeadingIsNoLink(u);
    var i := FirstCompare(lines, 0).value;
    assert lines[|before|] == u;
    if i < |before| {
      assert forall j | 0 <= j <= i :: edited[j] == lines[j];
      FirstCompareIs(edited, i);
    } else {
      var k := i + |ins| - 1;
      assert edited[k] == after[k - |before| - |ins|] == lines[i];
      forall j | 0 <= j < k ensures CompareLine(edited[j]).None? {
        if j < |before| {
          assert edited[j] == lines[j];
        } else if j < |before| + |ins| {
          assert edited[j] == ins[j - |before|] && edited[j] in ins;
        } else {
          assert edited[j] == lines[j - |ins| + 1];
        }
      }
      FirstCompareIs(edited, k);
    }
  }

  /** The base a roll takes its new links from. */
  function Base(lines: seq<string>): string
    requires FirstCompare(lines, 0).Some?
  {
    CompareLine(lines[FirstCompare(lines, 0).value]).value
  }

  /** What every roll starts from. */
  predicate Rollable(t: Text, version: string) {
    && t.Valid() && Token(version) && version !in Headings(t.lines)
    && "Unreleased" in Headings(t.lines) && FirstCompare(t.lines, 0).Some?
  }

  /** The pieces of a successful roll, one edit after the other. */
  lemma RollSplit(t: Text, version: string, date: string)
    returns (last: bool, h: Text, x: seq<string>, u: string, y: seq<string>, before: seq<string>, c: string,
             after: seq<string>)
    requires Rollable(t, version)
    ensures AroundHeading(Under(t, date).lines, x, u, y) && FirstCompare(Under(t, date).lines, 0).Some?
    ensures Line(First(date)) && (last <==> |x| == |t.lines| - 1 && !t.newline)
    ensures h == Under(t, date).(lines := x + (NewHeadings(last, version, First(date)) + y)) && h.Valid()
    ensures AroundLink(h.lines, before, c, after)
    ensures CompareLine(c).Some? && CompareLine(c).value == Base(Under(t, date).lines)
    ensures var links := NewLinks(Base(Under(t, date).lines), version);
            Roll(t, version, date)
            == Rolled(Text(before + (links + DropBlank(after)), h.newline && DropBlank(after) != []))
  {
    hide AroundHeading, Headings, NewHeadings, FirstCompare, CompareLine, NewLinks, DropBlank, RollHeading,
         RollFooter, Read, Written, Under, Pieces, Line, Token;
    last, x, u, y := HeadingSplit(t, version, date);
    h := Under(t, date).(lines := x + (NewHeadings(last, version, First(date)) + y));
    ReadValid(Written(RollHeading(t, version, date)));
    HasUnreleased(t.lines);
    UnderKeeps(t, date);
    assert Line(First(date)) by { var p := Pieces(date); }
    CompareSurvives(Under(t, date).lines, x, u, y, last, version, First(date));
    before, c, after := LinkSplit(h, version);
    LinkLineAt(h.lines, before, c, after);
  }

  lemma LinkLineAt(lines: seq<string>, before: seq<string>, c: string, after: seq<string>)
    requires AroundLink(lines, before, c, after)
    ensures lines[FirstCompare(lines, 0).value] == c
  {
    assert lines[|before|] == c;
  }

  /**
   A roll of a document with an Unreleased section and a compare link always succeeds, and leaves a valid
   document.  It puts exactly one new heading into the list, behind Unreleased, and writes exactly two
   footer entries; a date of several lines counts as lines of the Unreleased section.
   */
  lemma RollWrites(t: Text, version: string, date: string) returns (x: seq<string>, y: seq<string>)
    requires Rollable(t, version)
    ensures FirstCompare(Under(t, date).lines, 0).Some?
    ensures Roll(t, version, date).Rolled? && Roll(t, version, date).text.Valid()
    ensures var lines, r := Under(t, date).lines, Roll(t, version, date).text.lines;
            && Headings(lines) == x + ["Unreleased"] + y
            && Headings(r) == x + ["Unreleased", version] + y
            && FirstCompare(r, 0).Some?
            && Footer(r).Keys == Footer(lines).Keys + {"Unreleased", version}
            && (forall k | k in Footer(lines) && k != "Unreleased" && k != version :: Footer(r)[k] == Footer(lines)[k])
            && (version !in Footer(lines) ==> Footer(r)[version] == Base(lines) + "/releases/tag/v" + version)
  {
    hide AroundHeading, AroundLink, Headings, Footer, NewHeadings, CompareLine, NewLinks, DropBlank, Roll, Base,
         FirstCompare, Token, NoSpace, Line, Text.Valid, Under, First;
    var last, h, p, u, q, before, c, after := RollSplit(t, version, date);
    x, y := Headings(p), Headings(q);
    HeadingEdit(Under(t, date).lines, p, u, q, last, version, First(date));
    LinkEdit(h.lines, before, c, after, version);
    EditedLinkValid(h, before, c, after, version);
    NewCompare(c, version, before, DropBlank(after));
  }

  /** What a roll writes out is read back as the lines it rolled, whatever the date. */
  lemma RollKeepsValid(t: Text, version: string, date: string)
    requires Rollable(t, version)
    ensures Roll(t, version, date).Rolled?
    ensures var r := Roll(t, version, date).text; r.Valid() && Read(Written(r)) == r
  {
    hide Roll, Rollable, Text.Valid, Read, Written;
    var x, y := RollWrites(t, version, date);
    ReadWritten(Roll(t, version, date).text);
  }

  /** The footer edit keeps a document valid. */
  lemma EditedLinkValid(t: Text, before: seq<string>, c: string, after: seq<string>, version: string)
    requires t.Valid() && Token(version) && AroundLink(t.lines, before, c, after)
    ensures var rest := DropBlank(after);
            Text(before + (NewLinks(CompareLine(c).value, version) + rest), t.newline && rest != []).Valid()
  {
    hide CompareLine, FirstCompare, DropBlank, Token, Line, NewLinks;
    var links, rest := NewLinks(CompareLine(c).value, version), DropBlank(after);
    assert t.lines[|before|] == c;
    NewLinksAreLines(c, version);
    var blank := SplitBlank(after);
    LinesKept(t.lines, before, c, blank, links, rest);
    LastOf(links, rest);
    LastOf(before, links + rest);
    LastOf(blank, rest);
    LastOf(before + [c], after);
  }

  lemma LinesKept(lines: seq<string>, before: seq<string>, c: string, blank: seq<string>, links: seq<string>,
                  rest: seq<string>)
    requires forall i | 0 <= i < |lines| :: Line(lines[i])
    requires lines == before + [c] + (blank + rest)
    requires |links| == 2 && Line(links[0]) && Line(links[1])
    ensures var all := before + (links + rest); forall i | 0 <= i < |all| :: Line(all[i])
  {
    hide Line;
    var all := before + (links + rest);
    forall i | 0 <= i < |all| ensures Line(all[i]) {
      if i < |before| {
        assert all[i] == lines[i];
      } else if i < |before| + |links| {
        assert all[i] == links[i - |before|];
      } else {
        assert all[i] == lines[i - |links| + 1 + |blank|];
      }
    }
  }

  lemma NewLinksAreLines(c: string, version: string)
    requires CompareLine(c).Some? && Line(c) && Token(version)
    ensures var links := NewLinks(CompareLine(c).value, version);
            |links| == 2 && Line(links[0]) && Line(links[1]) && links[0] != "" && links[1] != ""
  {
    hide CompareLine, Token;
    BaseIsLine(c);
    VersionIsLine(version);
  }

  lemma VersionIsLine(version: string)
    requires Token(version)
    ensures Line(version)
  {}

  lemma BaseIsLine(c: string)
    requires CompareLine(c).Some? && Line(c)
    ensures Line(CompareLine(c).value)
  {
    hide NoSpace;
    TrimKeepsLines(c);
    var (mark, rest) := Bracketed(c).value;
    assert Line(rest) && Line(rest[1..]);
    TrimKeepsLines(rest[1..]);
    TrimKeepsLines(TrimLeft(rest[1..]));
  }

  lemma {:induction false} TrimKeepsLines(s: string)
    requires Line(s)
    ensures Line(TrimLeft(s)) && Line(TrimRight(s))
    decreases |s|
  {
    if s == "" {
    } else {
      TrimKeepsLines(s[1..]);
      TrimKeepsLines(s[..|s| - 1]);
    }
  }

  lemma LastOf(a: seq<string>, b: seq<string>)
    ensures b != [] ==> (a + b)[|a + b| - 1] == b[|b| - 1]
    ensures b == [] ==> a + b == a
  {}

  lemma NewCompare(c: string, version: string, before: seq<string>, rest: seq<string>)
    requires Token(version) && CompareLine(c).Some?
    ensures FirstCompare(before + (NewLinks(CompareLine(c).value, version) + rest), 0).Some?
  {
    hide CompareLine, NewLinks, Stops, ParseHeading, ParseFooter, Token, NoSpace;
    var base := CompareLine(c).value;
    CompareBaseToken(c);
    NewLinkLines(base, version);
    var all := before + (NewLinks(base, version) + rest);
    assert all[|before|] == NewLinks(base, version)[0];
  }

  lemma DistinctInsert(x: seq<string>, y: seq<string>, v: string)
    ensures Distinct(x + ["Unreleased", v] + y) <==> Distinct(x + ["Unreleased"] + y) && v !in x + ["Unreleased"] + y
  {
    var s, r := x + ["Unreleased"] + y, x + ["Unreleased", v] + y;
    var n := |x| + 1;
    assert forall i | 0 <= i < n :: r[i] == s[i];
    assert forall i | n < i < |r| :: r[i] == s[i - 1];
    assert r[n] == v && forall i | n <= i < |s| :: s[i] == r[i + 1];
  }

  /**
   Integrity after a roll, for any date: exactly when the document with the date's further lines under its
   Unreleased heading has it and these lines do not name the version.  Rolling again to the same
   version changes nothing.
   */
  lemma RollKeepsIntegrity(t: Text, version: string, date: string, again: string)
    requires t.Valid() && Sound(t.lines) && Token(version) && version !in Headings(t.lines)
    ensures Roll(t, version, date).Rolled?
    ensures var lines := Under(t, date).lines;
            Sound(Roll(t, version, date).text.lines) <==> Sound(lines) && version !in Headings(lines)
    ensures Line(date) ==> Under(t, date) == t
    ensures Roll(Roll(t, version, date).text, version, again) == AlreadyThere
  {
    hide Headings, Footer, FirstCompare, Roll, Token, NoSpace, Base, CompareLine, Distinct, Under, Line, Text.Valid;
    var x, y := RollWrites(t, version, date);
    var r, lines := Roll(t, version, date).text, Under(t, date).lines;
    assert "Unreleased" in x + ["Unreleased"] + y by { assert (x + ["Unreleased"] + y)[|x|] == "Unreleased"; }
    assert "Unreleased" in Headings(r.lines) && version in Headings(r.lines) by {
      var hs := x + ["Unreleased", version] + y;
      assert hs[|x|] == "Unreleased" && hs[|x| + 1] == version;
    }
    DistinctInsert(x, y, version);
    assert forall h :: h in Headings(r.lines) <==> h in Headings(lines) || h == version;
    CompareHasLink(lines);
    RolledAlready(r, version, again);
    if Line(date) { OneLineDate(t, date); }
  }

  lemma CompareHasLink(lines: seq<string>)
    requires FirstCompare(lines, 0).Some?
    ensures "Unreleased" in Footer(lines)
  {
    hide CompareLine, Footer;
    var i := FirstCompare(lines, 0).value;
    var before, c, after := lines[..i], lines[i], lines[i + 1..];
    assert lines == before + ([c] + after);
    LinkOne(c);
    FooterConcat3(before, [c], after);
  }

  lemma RolledAlready(r: Text, version: string, again: string)
    requires version in Headings(r.lines)
    ensures Roll(r, version, again) == AlreadyThere
  {}

  /**
   The main theorem.  Read through `extract`, a roll moves the notes of the Unreleased section, unchanged,
   under the new version; the Unreleased section becomes empty; every other section stays as it was.  The
   further lines of a date that has any count as notes.
   */
  lemma RollKeepsMeaning(t: Text, version: string, date: string, fold: string -> string)
    requires Rollable(t, version) && Apart(Under(t, date).lines, version, fold)
    ensures Roll(t, version, date).Rolled?
    ensures Line(date) ==> First(date) == date && Under(t, date) == t
    ensures var lines, r := Under(t, date).lines, Roll(t, version, date).text.lines;
            && Extract(r, version, fold) == Redated(Extract(lines, "Unreleased", fold), StatedDate(First(date)))
            && Extract(lines, "Unreleased", fold) != NotFound
            && Extract(r, "Unreleased", fold) == Empty
            && forall key | fold(Strip(key)) != fold("Unreleased") && fold(Strip(key)) != fold(version) ::
                 Extract(r, key, fold) == Extract(lines, key, fold)
  {
    hide AroundHeading, AroundLink, Headings, Footer, NewHeadings, CompareLine, NewLinks, DropBlank, DropBlankEnd,
         Roll, Base, FirstCompare, Token, NoSpace, Section, StatedDate, ParseHeading, Body, Strip, Under, First, Line,
         Text.Valid, Apart;
    if Line(date) { OneLineDate(t, date); }
    var last, h, x, u, y, before, c, after := RollSplit(t, version, date);
    var lines, d, r := Under(t, date).lines, First(date), Roll(t, version, date).text.lines;
    HeadingEditMoves(lines, x, u, y, last, version, d, fold);
    LinkEditSections(h.lines, before, c, after, version, version, fold);
    LinkEditSections(h.lines, before, c, after, version, "Unreleased", fold);
    AllBlankIsEmpty(Section(r, "Unreleased", fold));
    TrimmedRedated(Section(lines, "Unreleased", fold), StatedDate(d));
    forall key | fold(Strip(key)) != fold("Unreleased") && fold(Strip(key)) != fold(version)
      ensures Extract(r, key, fold) == Extract(lines, key, fold)
    {
      HeadingEditOthers(lines, x, u, y, last, version, d, key, fold);
      LinkEditSections(h.lines, before, c, after, version, key, fold);
    }
  }

  /** The same notes under another date. */
  function Redated(e: Extracted, date: Option<string>): Extracted {
    if e.Notes? then Notes(e.body, date) else e
  }

  lemma TrimmedRedated(s: Option<(Option<string>, seq<string>)>, date: Option<string>)
    requires s.Some?
    ensures Trimmed(Some((date, s.value.1))) == Redated(Trimmed(s), date)
  {}

  lemma AllBlankIsEmpty(s: Option<(Option<string>, seq<string>)>)
    requires s.Some? && forall l | l in s.value.1 :: l == ""
    ensures Trimmed(s) == Empty
  {
    EmptyLinesDrop(s.value.1);
  }

  lemma {:induction false} EmptyLinesDrop(lines: seq<string>)
    requires forall l | l in lines :: l == ""
    ensures DropBlank(lines) == []
  {
    if lines == [] {
    } else {
      assert lines[0] in lines;
      assert Blank("");
      forall l | l in lines[1..] ensures l == "" { assert l in lines; }
      EmptyLinesDrop(lines[1..]);
    }
  }

  // ---------------------------------------------------------------------------
  // Documents with one heading, one line of notes and the compare link
  // ---------------------------------------------------------------------------

  /** A line of notes: neither a heading nor a link. */
  predicate Plainly(n: string) {
    n != "" && n[0] == 'n' && Line(n)
  }

  function Small(n: string): Text {
    Text([PlainHeading("Unreleased"), n, LinkLine("Unreleased", "b" + COMPARE + "v0" + HEAD)], true)
  }

  /** A smallest document the results above apply to. */
  lemma SmallestDocument(n: string)
    requires Plainly(n)
    ensures Small(n).Valid() && Sound(Small(n).lines) && Headings(Small(n).lines) == ["Unreleased"]
    ensures Footer(Small(n).lines).Keys == {"Unreleased"}
  {
    hide ParseHeading, ParseFooter, CompareLine, CompareBase, PlainHeading, LinkLine, FirstCompare, Headings, Footer,
         Plainly, Text.Valid;
    var url := "b" + COMPARE + "v0" + HEAD;
    PlainHeadingParses("Unreleased");
    LinkLineParses("Unreleased", url);
    CompareUrlParses("b", "v0");
    UnreleasedCompare(LinkLine("Unreleased", url), url);
    ThreeLines(PlainHeading("Unreleased"), n, LinkLine("Unreleased", url));
    SmallValid(n);
  }

  lemma SmallValid(n: string)
    requires Plainly(n)
    ensures Small(n).Valid()
  {
    hide PlainHeading, Line, COMPARE, HEAD;
    UnreleasedLine();
    assert Line("[" + "Unreleased" + "]: ") && Line("b" + COMPARE + "v0" + HEAD) by { ShortLines(); }
    LineConcat("[" + "Unreleased" + "]: ", "b" + COMPARE + "v0" + HEAD);
  }

  lemma ShortLines()
    ensures Line("[" + "Unreleased" + "]: ") && Line("b" + COMPARE + "v0" + HEAD)
  {}

  lemma LineConcat(a: string, b: string)
    requires Line(a) && Line(b)
    ensures Line(a + b)
  {}

  lemma ThreeLines(u: string, n: string, c: string)
    requires ParseHeading(u) == Some(Heading("Unreleased", None)) && Plainly(n) && CompareLine(c).Some?
    ensures Headings([u, n, c]) == ["Unreleased"] && Footer([u, n, c]).Keys == {"Unreleased"}
    ensures FirstCompare([u, n, c], 0) == Some(2)
  {
    hide ParseHeading, ParseFooter, CompareLine, Stops, FirstCompare, Headings, Footer, Plainly;
    NotesLine(n);
    HeadingIsNoLink(u);
    LinkIsNoHeading(c);
    LinkOne(c);
    HeadingsOne(u); HeadingsOne(n);
    FooterOne(u); FooterOne(n);
    HeadingsConcat3([u], [n], [c]);
    FooterConcat3([u], [n], [c]);
    assert [u, n, c] == [u] + ([n] + [c]);
    FirstCompareIs([u, n, c], 2);
  }

  lemma UnreleasedCompare(line: string, url: string)
    requires ParseFooter(line) == Some(("Unreleased", url)) && CompareBase(url).Some?
    ensures CompareLine(line).Some?
  {}

  lemma NotesLine(n: string)
    requires Plainly(n)
    ensures ParseHeading(n).None? && ParseFooter(n).None? && CompareLine(n).None? && !Stops(n)
  {}
}
