/** Which lines an extraction returns: those between the heading and the next stop, less the blank ones at both ends. */
module ChangelogExtract {
  import opened Wrappers
  import opened ChangelogLines
  import opened Changelog

  predicate AllBlank(lines: seq<string>) {
    forall i | 0 <= i < |lines| :: Blank(lines[i])
  }

  /** A document cut around a section: what is before it, its heading, its notes between blank lines, what follows. */
  datatype Cut = Cut(
    before: seq<string>, heading: string, blank: seq<string>, notes: seq<string>, blankEnd: seq<string>,
    rest: seq<string>)
  {
    function Lines(): seq<string> {
      before + ([heading] + (blank + (notes + (blankEnd + rest))))
    }

    /** The date its heading states. */
    function Date(): Option<string> {
      if ParseHeading(heading).Some? then ParseHeading(heading).value.date else None
    }

    /** The first section of that name, its notes without blank lines at either end, up to the next stop or the end. */
    predicate Around(key: string, fold: string -> string) {
      && (forall i | 0 <= i < |before| :: !Names(before[i], key, fold))
      && Names(heading, key, fold)
      && AllBlank(blank) && AllBlank(blankEnd)
      && (forall i | 0 <= i < |notes| :: !Stops(notes[i]))
      && (notes != [] ==> !Blank(notes[0]) && !Blank(notes[|notes| - 1]))
      && (rest != [] ==> Stops(rest[0]))
    }
  }

  lemma {:induction false} BodyOf(a: seq<string>, rest: seq<string>)
    requires forall i | 0 <= i < |a| :: !Stops(a[i])
    requires rest != [] ==> Stops(rest[0])
    ensures Body(a + rest) == a
  {
    hide Stops;
    if a == [] {
      assert a + rest == rest;
    } else {
      assert (a + rest)[1..] == a[1..] + rest;
      BodyOf(a[1..], rest);
    }
  }

  lemma {:induction false} DropBlankOf(blank: seq<string>, s: seq<string>)
    requires AllBlank(blank) && (s != [] ==> !Blank(s[0]))
    ensures DropBlank(blank + s) == s
  {
    hide Blank;
    if blank == [] {
      assert blank + s == s;
    } else {
      assert (blank + s)[1..] == blank[1..] + s;
      DropBlankOf(blank[1..], s);
    }
  }

  lemma {:induction false} DropBlankEndOf(s: seq<string>, blank: seq<string>)
    requires AllBlank(blank) && (s != [] ==> !Blank(s[|s| - 1]))
    ensures DropBlankEnd(s + blank) == s
    decreases |blank|
  {
    hide Blank;
    if blank == [] {
      assert s + blank == s;
    } else {
      var init := blank[..|blank| - 1];
      assert (s + blank)[..|s + blank| - 1] == s + init;
      DropBlankEndOf(s, init);
    }
  }

  lemma BlanksPass(lines: seq<string>)
    requires AllBlank(lines)
    ensures forall i | 0 <= i < |lines| :: !Stops(lines[i])
  {
    forall i | 0 <= i < |lines| ensures !Stops(lines[i]) {
      LineKinds(lines[i]);
    }
  }

  /** Notes between blank lines, trimmed. */
  lemma TrimmedNotes(c: Cut)
    requires AllBlank(c.blank) && AllBlank(c.blankEnd)
    requires c.notes != [] ==> !Blank(c.notes[0]) && !Blank(c.notes[|c.notes| - 1])
    ensures DropBlankEnd(DropBlank(c.blank + (c.notes + c.blankEnd))) == c.notes
  {
    hide Blank;
    if c.notes == [] {
      assert c.notes + c.blankEnd == c.blankEnd;
      assert AllBlank(c.blank + c.blankEnd);
      DropBlankOf(c.blank + c.blankEnd, []);
      assert (c.blank + c.blankEnd) + [] == c.blank + c.blankEnd;
    } else {
      DropBlankOf(c.blank, c.notes + c.blankEnd);
      DropBlankEndOf(c.notes, c.blankEnd);
    }
  }

  lemma NamesParses(line: string, key: string, fold: string -> string)
    requires Names(line, key, fold)
    ensures ParseHeading(line).Some?
  {}

  lemma SectionOfCut(c: Cut, key: string, fold: string -> string)
    requires c.Around(key, fold)
    ensures Section(c.Lines(), key, fold)
         == Some((c.Date(), c.blank + (c.notes + c.blankEnd)))
  {
    hide Stops, Names, Blank, ParseHeading;
    NamesParses(c.heading, key, fold);
    var inside := c.blank + (c.notes + c.blankEnd);
    BlanksPass(c.blank);
    BlanksPass(c.blankEnd);
    assert c.blank + (c.notes + (c.blankEnd + c.rest)) == inside + c.rest;
    BodyOf(inside, c.rest);
    var tail := [c.heading] + (inside + c.rest);
    SectionSkips(c.before, tail, key, fold);
    assert tail[1..] == inside + c.rest;
  }

  /** An extraction returns the notes of the section and the date of its heading, or says that there are none. */
  lemma ExtractIs(c: Cut, key: string, fold: string -> string)
    requires c.Around(key, fold)
    ensures Extract(c.Lines(), key, fold)
         == if c.notes == [] then Empty else Notes(c.notes, c.Date())
  {
    hide Stops, Names, Blank, ParseHeading, Section, DropBlank, DropBlankEnd;
    SectionOfCut(c, key, fold);
    TrimmedNotes(c);
  }

  lemma CutHere(lines: seq<string>, key: string, fold: string -> string) returns (c: Cut)
    requires lines != [] && Names(lines[0], key, fold)
    ensures c.Lines() == lines && c.Around(key, fold)
  {
    hide Stops, Names, Blank, DropBlank, DropBlankEnd;
    var inside, rest := BodySplit(lines[1..]);
    var blank, notes, blankEnd := NotesSplit(inside);
    c := Cut([], lines[0], blank, notes, blankEnd, rest);
    Regroup(lines, blank, notes, blankEnd, rest, inside);
  }

  lemma Regroup(lines: seq<string>, blank: seq<string>, notes: seq<string>, blankEnd: seq<string>, rest: seq<string>,
                inside: seq<string>)
    requires lines != [] && inside == blank + (notes + blankEnd) && lines[1..] == inside + rest
    ensures [] + ([lines[0]] + (blank + (notes + (blankEnd + rest)))) == lines
  {
    assert blank + (notes + (blankEnd + rest)) == inside + rest;
  }

  /** Lines cut into notes and the blank lines around them. */
  lemma NotesSplit(inside: seq<string>) returns (blank: seq<string>, notes: seq<string>, blankEnd: seq<string>)
    requires forall i | 0 <= i < |inside| :: !Stops(inside[i])
    ensures inside == blank + (notes + blankEnd) && AllBlank(blank) && AllBlank(blankEnd)
    ensures notes != [] ==> !Blank(notes[0]) && !Blank(notes[|notes| - 1])
    ensures forall i | 0 <= i < |notes| :: !Stops(notes[i])
  {
    hide Stops, Blank, DropBlank, DropBlankEnd;
    var kept := DropBlank(inside);
    notes := DropBlankEnd(kept);
    blank, blankEnd := inside[..|inside| - |kept|], kept[|notes|..];
    assert notes + blankEnd == kept;
    forall i | 0 <= i < |notes| ensures !Stops(notes[i]) {
      assert notes[i] == kept[i] == inside[|blank| + i];
    }
  }

  lemma CutLater(line: string, d: Cut, key: string, fold: string -> string) returns (c: Cut)
    requires d.Around(key, fold) && !Names(line, key, fold)
    ensures c.Lines() == [line] + d.Lines() && c.Around(key, fold)
  {
    hide Stops, Names, Blank;
    c := d.(before := [line] + d.before);
    var rest := [d.heading] + (d.blank + (d.notes + (d.blankEnd + d.rest)));
    assert ([line] + d.before) + rest == [line] + (d.before + rest);
  }

  /** Every document without the section is one no line of which names it; every other can be cut around it. */
  lemma {:induction false} CutAt(lines: seq<string>, key: string, fold: string -> string) returns (c: Cut)
    requires exists i :: 0 <= i < |lines| && Names(lines[i], key, fold)
    ensures c.Lines() == lines && c.Around(key, fold)
  {
    hide Stops, Names, Blank, Cut.Around, Cut.Lines;
    if Names(lines[0], key, fold) {
      c := CutHere(lines, key, fold);
    } else {
      var i :| 0 <= i < |lines| && Names(lines[i], key, fold);
      assert lines[1..][i - 1] == lines[i];
      var d := CutAt(lines[1..], key, fold);
      c := CutLater(lines[0], d, key, fold);
      assert [lines[0]] + lines[1..] == lines;
    }
  }

  lemma {:induction false} BodySplit(lines: seq<string>) returns (inside: seq<string>, rest: seq<string>)
    ensures lines == inside + rest && (forall i | 0 <= i < |inside| :: !Stops(inside[i]))
    ensures rest != [] ==> Stops(rest[0])
  {
    hide Stops;
    if lines == [] || Stops(lines[0]) {
      inside, rest := [], lines;
    } else {
      inside, rest := BodySplit(lines[1..]);
      inside := [lines[0]] + inside;
    }
  }

  /**
   Extraction, exactly.  Nothing is found if and only if no line names the section; it is empty if and only if the
   document can be cut around a section without notes; and it is notes with a date if and only if the document can be
   cut around these notes, under a heading of that date.
   */
  lemma ExtractExact(lines: seq<string>, key: string, fold: string -> string)
    ensures var r := Extract(lines, key, fold);
            && (r.NotFound? <==> forall i | 0 <= i < |lines| :: !Names(lines[i], key, fold))
            && (r.Empty? <==> exists c: Cut :: c.Lines() == lines && c.Around(key, fold) && c.notes == [])
            && forall notes, date :: r == Notes(notes, date) <==>
                 exists c: Cut :: c.Lines() == lines && c.Around(key, fold) && c.notes == notes && notes != []
                                  && c.Date() == date
  {
    hide Names, Extract, Cut.Around, Cut.Lines, Cut.Date;
    if exists i :: 0 <= i < |lines| && Names(lines[i], key, fold) {
      var c := CutAt(lines, key, fold);
      ExtractIs(c, key, fold);
    } else {
      NotThere(lines, key, fold);
    }
    forall c: Cut | c.Lines() == lines && c.Around(key, fold)
      ensures Extract(lines, key, fold)
           == if c.notes == [] then Empty else Notes(c.notes, c.Date())
    {
      ExtractIs(c, key, fold);
    }
  }

  lemma NotThere(lines: seq<string>, key: string, fold: string -> string)
    requires forall i | 0 <= i < |lines| :: !Names(lines[i], key, fold)
    ensures Extract(lines, key, fold) == NotFound
  {
    hide Names;
    SectionSkips(lines, [], key, fold);
    assert lines + [] == lines;
  }
}
