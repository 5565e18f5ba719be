/**
 What the date of a roll may be: one line moves the notes of every document unchanged, and nothing else does.
 */
module ChangelogDates {
  import opened Sequences
  import opened Wrappers
  import opened ChangelogLines
  import opened ChangelogText
  import opened Changelog
  import opened ChangelogRoll

  /** The section of the new version is the Unreleased section, line by line. */
  predicate MovesVerbatim(t: Text, version: string, date: string, fold: string -> string) {
    var s := Section(t.lines, "Unreleased", fold);
    && Roll(t, version, date).Rolled? && s.Some?
    && Section(Roll(t, version, date).text.lines, version, fold) == Some((StatedDate(First(date)), s.value.1))
  }

  ghost predicate AlwaysVerbatim(version: string, date: string, fold: string -> string) {
    forall t: Text :: Rollable(t, version) && Apart(t.lines, version, fold) ==> MovesVerbatim(t, version, date, fold)
  }

  /** A date moves the notes of every document unchanged if and only if it is one line. */
  lemma DateExact(version: string, date: string, fold: string -> string)
    requires Token(version) && fold("Unreleased") != fold(version)
    ensures AlwaysVerbatim(version, date, fold) <==> Line(date)
  {
    hide Line, MovesVerbatim, Rollable, Apart, Token;
    if Line(date) {
      forall t: Text | Rollable(t, version) && Apart(t.lines, version, fold)
        ensures MovesVerbatim(t, version, date, fold)
      {
        OneLineMoves(t, version, date, fold);
      }
    } else {
      var n := seq(|date| + 1, i => 'n');
      assert Plainly(n) by { LongLine(n); }
      LongNotes(n, version, fold);
      BrokenDateMoves(n, version, date, fold);
    }
  }

  lemma OneLineMoves(t: Text, version: string, date: string, fold: string -> string)
    requires Rollable(t, version) && Apart(t.lines, version, fold) && Line(date)
    ensures MovesVerbatim(t, version, date, fold)
  {
    hide AroundHeading, AroundLink, Headings, NewHeadings, CompareLine, NewLinks, DropBlank, Roll, Base, FirstCompare,
         Token, Section, StatedDate, ParseHeading, Body, Under, First, Line, Text.Valid, Apart;
    OneLineDate(t, date);
    var last, h, x, u, y, before, c, after := RollSplit(t, version, date);
    HeadingEditMoves(t.lines, x, u, y, last, version, date, fold);
    LinkEditSections(h.lines, before, c, after, version, version, fold);
  }

  lemma LongNotes(n: string, version: string, fold: string -> string)
    requires Plainly(n) && Token(version) && fold("Unreleased") != fold(version)
    ensures Rollable(Small(n), version) && Apart(Small(n).lines, version, fold)
  {
    hide Small, Token, Headings, Footer, FirstCompare, Plainly, Text.Valid;
    SmallestDocument(n);
  }

  lemma LongLine(n: string)
    requires n != "" && forall i | 0 <= i < |n| :: n[i] == 'n'
    ensures Plainly(n)
  {}

  lemma {:induction false} PiecesShort(s: string)
    ensures forall i | 0 <= i < |Pieces(s)| :: |Pieces(s)[i]| <= |s|
  {
    if s == "" {
      assert Pieces(s)[0] == "";
    } else {
      PiecesShort(s[1..]);
      assert [s[0]] + s[1..] == s;
    }
  }

  lemma {:induction false} OnePiece(s: string)
    ensures |Pieces(s)| == 1 ==> Line(s)
  {
    if s == "" {
    } else {
      OnePiece(s[1..]);
      if |Pieces(s)| == 1 {
        assert !IsBreak(s[0]);
        assert forall i | 0 < i < |s| :: s[i] == s[1..][i - 1];
      }
    }
  }

  /** What extraction reads from a section that starts with further lines is never just the long line behind them. */
  lemma BodyDiffers(further: seq<string>, n: string, c: string)
    requires further != [] && forall i | 0 <= i < |further| :: |further[i]| < |n|
    requires !Stops(n) && Stops(c)
    ensures Body(further + [n, c]) != [n] && Body([n, c]) == [n]
  {
    hide Stops;
    assert [n, c][1..] == [c];
    if exists i :: 0 <= i < |further| && Stops(further[i]) {
      BodyOfStopped(further, [n, c]);
      BodySubset(further);
      if Body(further) != [] { assert Body(further)[0] in Body(further); }
    } else {
      BodyPasses(further, [n, c]);
    }
  }

  lemma {:induction false} BodyOfStopped(a: seq<string>, b: seq<string>)
    requires exists i :: 0 <= i < |a| && Stops(a[i])
    ensures Body(a + b) == Body(a)
  {
    hide Stops;
    if Stops(a[0]) {
    } else {
      var i :| 0 <= i < |a| && Stops(a[i]);
      assert a[1..][i - 1] == a[i];
      assert (a + b)[1..] == a[1..] + b;
      BodyOfStopped(a[1..], b);
    }
  }

  lemma {:induction false} BodyPasses(a: seq<string>, b: seq<string>)
    requires forall i | 0 <= i < |a| :: !Stops(a[i])
    ensures Body(a + b) == a + Body(b)
  {
    hide Stops;
    if a == [] {
      assert a + b == b;
    } else {
      assert (a + b)[1..] == a[1..] + b;
      BodyPasses(a[1..], b);
    }
  }

  function SmallLink(): string {
    LinkLine("Unreleased", "b" + COMPARE + "v0" + HEAD)
  }

  /** The document with the further lines of a date. */
  lemma SmallUnder(n: string, date: string)
    requires Plainly(n)
    ensures var lines := Under(Small(n), date).lines;
            && lines == [PlainHeading("Unreleased")] + (Further(date) + [n, SmallLink()])
            && FirstUnreleased(lines, 0) == Some(0)
    ensures Stops(SmallLink())
  {
    hide Read, Written, Pieces, Line, LinkLine, PlainHeading, ParseHeading, Stops, LinkStart, ParseFooter,
         FirstUnreleased, Under, Further, Text.Valid, Plainly;
    var url := "b" + COMPARE + "v0" + HEAD;
    UnreleasedToken();
    PlainHeadingParses("Unreleased");
    LinkLineParses("Unreleased", url);
    StopsAtLink(SmallLink());
    SmallValid(n);
    var lines := Small(n).lines;
    FirstUnreleasedAt(lines, 0);
    var before, u, after := UnderSplit(Small(n), date);
    assert before == [] && u == lines[0] && after == lines[1..] == [n, SmallLink()];
    assert [] + [u] == [u];
    assert lines[0] == u;
  }

  lemma UnreleasedToken()
    ensures Token("Unreleased") && Token("y")
  {}

  lemma StopsAtLink(line: string)
    requires LinkStart(line)
    ensures Stops(line)
  {}

  lemma SmallSection(n: string, fold: string -> string)
    requires Plainly(n)
    ensures Section(Small(n).lines, "Unreleased", fold) == Some((None, Body([n, SmallLink()])))
  {
    hide ParseHeading, Body, Strip, LinkLine, PlainHeading;
    PlainHeadingParses("Unreleased");
    TokenStrips("Unreleased");
    SectionStart(PlainHeading("Unreleased"), [n, SmallLink()], "Unreleased", fold);
    assert Small(n).lines == [PlainHeading("Unreleased")] + [n, SmallLink()];
  }

  lemma BrokenDateMoves(n: string, version: string, date: string, fold: string -> string)
    requires Plainly(n) && |n| > |date| && !Line(date) && fold("Unreleased") != fold(version)
    requires Rollable(Small(n), version)
    ensures !MovesVerbatim(Small(n), version, date, fold)
  {
    hide Headings, NewHeadings, CompareLine, NewLinks, DropBlank, Roll, Base, FirstCompare, Token, Section,
         StatedDate, ParseHeading, Body, Under, Line, Text.Valid, Apart, Pieces, Small, SmallLink, Stops, Plainly,
         PlainHeading, FirstUnreleased, Rollable;
    var t := Small(n);
    var last, h, x, u, y, before, c, after := RollSplit(t, version, date);
    SmallUnder(n, date);
    SmallSection(n, fold);
    assert x == [] && y == Under(t, date).lines[1..];
    assert y == Further(date) + [n, SmallLink()];
    assert [] + (NewHeadings(last, version, First(date)) + y) == NewHeadings(last, version, First(date)) + y;
    RollableToken(t, version);
    MovedHere(last, y, version, First(date), fold);
    LinkEditSections(h.lines, before, c, after, version, version, fold);
    PiecesShort(date);
    OnePiece(date);
    NotesLine(n);
    BodyDiffers(Further(date), n, SmallLink());
  }

  lemma RollableToken(t: Text, version: string)
    requires Rollable(t, version)
    ensures Token(version) && Strip(version) == version
  {
    TokenStrips(version);
  }

  const BROKEN_DATE := "x\n## [y]"

  lemma BrokenPieces()
    ensures First(BROKEN_DATE) == "x" && Further(BROKEN_DATE) == [PlainHeading("y")]
  {
    hide Pieces;
    assert PlainHeading("y") == "## [y]";
    PiecesBroken("x", "## [y]");
    PiecesOfLine("x");
    PiecesOfLine("## [y]");
    assert BROKEN_DATE == "x" + "\n" + "## [y]";
  }

  lemma BrokenUnder(n: string)
    requires Plainly(n)
    ensures var lines := Under(Small(n), BROKEN_DATE).lines; "y" in Headings(lines) && "y" !in Footer(lines)
  {
    hide Headings, Footer, ParseHeading, ParseFooter, CompareLine, Stops, Plainly, Under, PlainHeading, LinkLine,
         Token, Pieces;
    var lines, rest := Under(Small(n), BROKEN_DATE).lines, [n, SmallLink()];
    var p, y := PlainHeading("Unreleased"), PlainHeading("y");
    BrokenPieces();
    SmallUnder(n, BROKEN_DATE);
    SmallestDocument(n);
    UnreleasedToken();
    PlainHeadingParses("y");
    HeadingIsNoLink(y);
    assert lines == [p] + ([y] + rest) && Small(n).lines == [p] + rest;
    HeadingsConcat3([p], [y], rest);
    HeadingsOne(y);
    FooterConcat3([p], [y], rest);
    FooterConcat([p], rest);
    FooterOne(y);
  }

  /**
   A date that breaks the document: what follows its line feed becomes a heading of its own, one that no link
   goes with, so that `--check` fails after the roll.
   */
  lemma BrokenDate(n: string, version: string)
    requires Plainly(n) && Token(version) && version != "Unreleased"
    ensures Sound(Small(n).lines) && Roll(Small(n), version, BROKEN_DATE).Rolled?
    ensures !Sound(Roll(Small(n), version, BROKEN_DATE).text.lines)
  {
    hide Headings, Footer, FirstCompare, Roll, Plainly, Token, Under, Small, Text.Valid, Distinct;
    SmallestDocument(n);
    BrokenUnder(n);
    RollKeepsIntegrity(Small(n), version, BROKEN_DATE, BROKEN_DATE);
  }
}
