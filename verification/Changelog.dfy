/**
 Rolling a changelog and extracting a section of it (scripts/release/roll-changelog.py and
 scripts/release/extract-changelog.py).  What a section says is what extraction reads from it, so the
 meaning of the roll is stated in the terms of the other program.
 */
module Changelog {
  import opened Sequences
  import opened Wrappers
  import opened ChangelogLines
  import opened ChangelogText

  // ---------------------------------------------------------------------------
  // What both programs read
  // ---------------------------------------------------------------------------

  function Headings(lines: seq<string>): seq<string> {
    if lines == [] then []
    else
      match ParseHeading(lines[0])
      case None => Headings(lines[1..])
      case Some(h) => [h.version] + Headings(lines[1..])
  }

  /** The link footer as a dictionary: a later link with the same name wins. */
  function Footer(lines: seq<string>): map<string, string> {
    if lines == [] then map[]
    else
      var earlier := Footer(lines[..|lines| - 1]);
      match ParseFooter(lines[|lines| - 1])
      case None => earlier
      case Some((name, url)) => earlier[Strip(name) := url]
  }

  function FirstCompare(lines: seq<string>, from: nat): (r: Option<nat>)
    requires from <= |lines|
    ensures match r
            case Some(i) => from <= i < |lines| && CompareLine(lines[i]).Some?
                            && forall j | from <= j < i :: CompareLine(lines[j]).None?
            case None => forall j | from <= j < |lines| :: CompareLine(lines[j]).None?
    decreases |lines| - from
  {
    if from == |lines| then None
    else if CompareLine(lines[from]).Some? then Some(from)
    else FirstCompare(lines, from + 1)
  }

  predicate Says(line: string, h: string) {
    ParseHeading(line).Some? && ParseHeading(line).value.version == h
  }

  predicate IsUnreleased(line: string) {
    Says(line, "Unreleased")
  }

  function FirstUnreleased(lines: seq<string>, from: nat): (r: Option<nat>)
    requires from <= |lines|
    ensures match r
            case Some(i) => from <= i < |lines| && IsUnreleased(lines[i])
                            && forall j | from <= j < i :: !IsUnreleased(lines[j])
            case None => forall j | from <= j < |lines| :: !IsUnreleased(lines[j])
    decreases |lines| - from
  {
    if from == |lines| then None
    else if IsUnreleased(lines[from]) then Some(from)
    else FirstUnreleased(lines, from + 1)
  }

  // ---------------------------------------------------------------------------
  // check
  // ---------------------------------------------------------------------------

  /** What `--check` is there to promise. */
  predicate Sound(lines: seq<string>) {
    && "Unreleased" in Headings(lines)
    && "Unreleased" in Footer(lines)
    && FirstCompare(lines, 0).Some?
    && (forall h | h in Headings(lines) :: h in Footer(lines))
    && Distinct(Headings(lines))
  }

  // ---------------------------------------------------------------------------
  // roll
  // ---------------------------------------------------------------------------

  datatype Rolled = AlreadyThere | NoSection | NoCompareLink | Rolled(text: Text)

  function DropBlank(lines: seq<string>): (r: seq<string>)
    ensures |r| <= |lines| && r == lines[|lines| - |r|..]
    ensures forall i | 0 <= i < |lines| - |r| :: Blank(lines[i])
    ensures r != [] ==> !Blank(r[0])
  {
    if lines != [] && Blank(lines[0]) then DropBlank(lines[1..]) else lines
  }

  /** The lines the first Unreleased heading becomes; no separating line when it ended the document. */
  function NewHeadings(last: bool, version: string, date: string): seq<string> {
    [PlainHeading("Unreleased")] + (if last then [] else [""]) + [DatedHeading(version, date)]
  }

  function RollHeading(t: Text, version: string, date: string): Text {
    match FirstUnreleased(t.lines, 0)
    case None => t
    case Some(i) =>
      var last := i == |t.lines| - 1 && !t.newline;
      t.(lines := t.lines[..i] + NewHeadings(last, version, date) + t.lines[i + 1..])
  }

  function NewLinks(base: string, version: string): seq<string> {
    [LinkLine("Unreleased", base + COMPARE + "v" + version + HEAD),
     LinkLine(version, base + "/releases/tag/v" + version)]
  }

  /** The blank lines after the compare link go with it: the pattern's trailing whitespace spans lines. */
  function RollFooter(t: Text, version: string): Option<Text> {
    match FirstCompare(t.lines, 0)
    case None => None
    case Some(j) =>
      var rest := DropBlank(t.lines[j + 1..]);
      Some(Text(t.lines[..j] + NewLinks(CompareLine(t.lines[j]).value, version) + rest, t.newline && rest != []))
  }

  function Roll(t: Text, version: string, date: string): Rolled {
    if version in Headings(t.lines) then AlreadyThere
    else if "Unreleased" !in Headings(t.lines) then NoSection
    else
      match RollFooter(Reread(RollHeading(t, version, date)), version)
      case None => NoCompareLink
      case Some(r) => Rolled(r)
  }

  // ---------------------------------------------------------------------------
  // extract; `fold` stands for str.lower
  // ---------------------------------------------------------------------------

  datatype Extracted = NotFound | Empty | Notes(body: seq<string>, date: Option<string>)

  predicate Stops(line: string) {
    AnyHeading(line) || LinkStart(line)
  }

  function Body(lines: seq<string>): seq<string> {
    if lines == [] || Stops(lines[0]) then [] else [lines[0]] + Body(lines[1..])
  }

  function DropBlankEnd(lines: seq<string>): (r: seq<string>)
    ensures |r| <= |lines| && r == lines[..|r|]
    ensures forall i | |r| <= i < |lines| :: Blank(lines[i])
    ensures r != [] ==> !Blank(r[|r| - 1])
  {
    if lines != [] && Blank(lines[|lines| - 1]) then DropBlankEnd(lines[..|lines| - 1]) else lines
  }

  predicate Names(line: string, key: string, fold: string -> string) {
    var h := ParseHeading(line);
    h.Some? && fold(h.value.version) == fold(Strip(key))
  }

  /** The first section named `key`: its date and its lines, blank ones at both ends included. */
  function Section(lines: seq<string>, key: string, fold: string -> string): Option<(Option<string>, seq<string>)> {
    if lines == [] then None
    else if Names(lines[0], key, fold) then Some((ParseHeading(lines[0]).value.date, Body(lines[1..])))
    else Section(lines[1..], key, fold)
  }

  function Trimmed(s: Option<(Option<string>, seq<string>)>): Extracted {
    match s
    case None => NotFound
    case Some((date, body)) =>
      var kept := DropBlankEnd(DropBlank(body));
      if kept == [] then Empty else Notes(kept, date)
  }

  function Extract(lines: seq<string>, key: string, fold: string -> string): Extracted {
    Trimmed(Section(lines, key, fold))
  }

  // ---------------------------------------------------------------------------
  // Reading a concatenation
  // ---------------------------------------------------------------------------

  lemma {:induction false} HeadingsConcat(a: seq<string>, b: seq<string>)
    ensures Headings(a + b) == Headings(a) + Headings(b)
  {
    if a == [] {
      assert a + b == b;
    } else {
      assert (a + b)[1..] == a[1..] + b;
      HeadingsConcat(a[1..], b);
    }
  }

  lemma {:induction false} FooterConcat(a: seq<string>, b: seq<string>)
    ensures Footer(a + b) == Footer(a) + Footer(b)
    decreases |b|
  {
    if b == [] {
      assert a + b == a;
    } else {
      var b' := b[..|b| - 1];
      assert (a + b)[..|a + b| - 1] == a + b';
      FooterConcat(a, b');
    }
  }

  lemma HeadingsConcat3(a: seq<string>, b: seq<string>, c: seq<string>)
    ensures Headings(a + (b + c)) == Headings(a) + Headings(b) + Headings(c)
  {
    hide Headings;
    HeadingsConcat(a, b + c);
    HeadingsConcat(b, c);
  }

  lemma FooterConcat3(a: seq<string>, b: seq<string>, c: seq<string>)
    ensures Footer(a + (b + c)) == Footer(a) + Footer(b) + Footer(c)
  {
    hide Footer;
    FooterConcat(a, b + c);
    FooterConcat(b, c);
  }

  lemma HeadingsOne(line: string)
    ensures Headings([line]) == match ParseHeading(line) case None => [] case Some(h) => [h.version]
  {
    assert [line][1..] == [];
  }

  lemma FooterOne(line: string)
    ensures Footer([line])
         == match ParseFooter(line) case None => map[] case Some((name, url)) => map[Strip(name) := url]
  {
    assert [line][..0] == [];
  }

  /** Lines that are neither headings nor links are invisible to both readers. */
  lemma {:induction false} BlankLinesSayNothing(lines: seq<string>)
    requires forall i | 0 <= i < |lines| :: Blank(lines[i])
    ensures Headings(lines) == [] && Footer(lines) == map[]
  {
    if lines == [] {
    } else {
      LineKinds(lines[0]);
      BlankLinesSayNothing(lines[1..]);
      HeadingsOne(lines[0]);
      FooterOne(lines[0]);
      assert [lines[0]] + lines[1..] == lines;
      FooterConcat([lines[0]], lines[1..]);
    }
  }

  lemma {:induction false} HeadingsMember(lines: seq<string>, i: nat)
    requires i < |lines| && ParseHeading(lines[i]).Some?
    ensures ParseHeading(lines[i]).value.version in Headings(lines)
  {
    if i == 0 {
    } else {
      HeadingsMember(lines[1..], i - 1);
    }
  }

  lemma {:induction false} HeadingFound(lines: seq<string>, h: string)
    ensures h in Headings(lines) <==> exists i | 0 <= i < |lines| :: Says(lines[i], h)
  {
    if lines == [] {
    } else {
      HeadingFound(lines[1..], h);
      var rest := lines[1..];
      if Says(lines[0], h) {
      } else if i :| 0 <= i < |rest| && Says(rest[i], h) {
        assert Says(lines[i + 1], h);
      } else {
        assert forall i | 0 < i < |lines| :: lines[i] == rest[i - 1];
      }
    }
  }

  // ---------------------------------------------------------------------------
  // The two edits, seen by extraction
  // ---------------------------------------------------------------------------

  lemma {:induction false} BodyStopsAt(a: seq<string>, x: seq<string>)
    requires x != [] && Stops(x[0])
    ensures Body(a + x) == Body(a)
  {
    hide Stops;
    if a == [] {
      assert a + x == x;
    } else if !Stops(a[0]) {
      assert (a + x)[1..] == a[1..] + x;
      BodyStopsAt(a[1..], x);
    }
  }

  lemma {:induction false} SectionSkips(a: seq<string>, b: seq<string>, key: string, fold: string -> string)
    requires forall i | 0 <= i < |a| :: !Names(a[i], key, fold)
    ensures Section(a + b, key, fold) == Section(b, key, fold)
  {
    if a == [] {
      assert a + b == b;
    } else {
      assert (a + b)[0] == a[0] && (a + b)[1..] == a[1..] + b;
      SectionSkips(a[1..], b, key, fold);
    }
  }

  lemma BlankLinesName(lines: seq<string>, key: string, fold: string -> string)
    requires forall i | 0 <= i < |lines| :: Blank(lines[i])
    ensures forall i | 0 <= i < |lines| :: !Names(lines[i], key, fold)
  {
    forall i | 0 <= i < |lines| ensures !Names(lines[i], key, fold) {
      LineKinds(lines[i]);
    }
  }

  /** What comes before a stop line cannot tell apart continuations that name the same sections. */
  lemma {:induction false} SameSections(a: seq<string>, x: seq<string>, y: seq<string>, key: string,
                                        fold: string -> string)
    requires x != [] && y != [] && Stops(x[0]) && Stops(y[0])
    requires Section(x, key, fold) == Section(y, key, fold)
    ensures Section(a + x, key, fold) == Section(a + y, key, fold)
  {
    hide Stops, Names;
    if a == [] {
      assert a + x == x && a + y == y;
    } else {
      assert (a + x)[1..] == a[1..] + x && (a + y)[1..] == a[1..] + y;
      if Names(a[0], key, fold) {
        BodyStopsAt(a[1..], x);
        BodyStopsAt(a[1..], y);
      } else {
        SameSections(a[1..], x, y, key, fold);
      }
    }
  }
}
