/**
 The two programs as they run: loops over the lines, proved against the functions of module Changelog.
 */
module ChangelogRun {
  import opened Wrappers
  import opened ChangelogLines
  import opened ChangelogText
  import opened Changelog

  method ListHeadings(lines: seq<string>) returns (out: seq<string>)
    ensures out == Headings(lines)
  {
    hide Headings, ParseHeading;
    out := [];
    HeadingsNone();
    for i := 0 to |lines|
      invariant out == Headings(lines[..i])
    {
      assert lines[..i + 1] == lines[..i] + [lines[i]];
      HeadingsConcat(lines[..i], [lines[i]]);
      HeadingsOne(lines[i]);
      var m := ParseHeading(lines[i]);
      if m.Some? { out := out + [m.value.version]; }
    }
    assert lines[..|lines|] == lines;
  }

  lemma HeadingsNone()
    ensures Headings([]) == [] && Footer([]) == map[]
  {}

  method ListFooter(lines: seq<string>) returns (out: map<string, string>)
    ensures out == Footer(lines)
  {
    hide Footer, ParseFooter, Strip;
    out := map[];
    HeadingsNone();
    for i := 0 to |lines|
      invariant out == Footer(lines[..i])
    {
      assert lines[..i + 1] == lines[..i] + [lines[i]];
      FooterConcat(lines[..i], [lines[i]]);
      FooterOne(lines[i]);
      var m := ParseFooter(lines[i]);
      if m.Some? { out := out[Strip(m.value.0) := m.value.1]; }
    }
    assert lines[..|lines|] == lines;
  }

  // ---------------------------------------------------------------------------
  // check
  // ---------------------------------------------------------------------------

  datatype Problem =
    | NoUnreleasedHeading
    | NoUnreleasedLink
    | NotCompareForm
    | NoLink(name: string)
    | Duplicate(name: string)

  /** The problems `--check` lists; an empty list is its success. */
  method Check(lines: seq<string>) returns (problems: seq<Problem>)
    ensures problems == [] <==> Sound(lines)
    ensures forall p :: p in problems <==> IsProblem(lines, p)
  {
    hide Headings, Footer, FirstCompare, Sound, Repeated;
    var heads := ListHeadings(lines);
    var foot := ListFooter(lines);
    problems := if "Unreleased" in heads then [] else [NoUnreleasedHeading];
    if "Unreleased" !in foot {
      problems := problems + [NoUnreleasedLink];
    } else if FirstCompare(lines, 0).None? {
      problems := problems + [NotCompareForm];
    }
    var missing := MissingLinks(heads, foot);
    var twice := Duplicates(heads);
    problems := problems + missing + twice;
    CompleteListDecides(lines, problems);
  }

  predicate Repeated(heads: seq<string>, h: string) {
    exists i, j :: 0 <= i < j < |heads| && heads[i] == heads[j] == h
  }

  predicate IsProblem(lines: seq<string>, p: Problem) {
    match p
    case NoUnreleasedHeading => "Unreleased" !in Headings(lines)
    case NoUnreleasedLink => "Unreleased" !in Footer(lines)
    case NotCompareForm => "Unreleased" in Footer(lines) && FirstCompare(lines, 0).None?
    case NoLink(h) => h in Headings(lines) && h !in Footer(lines)
    case Duplicate(h) => Repeated(Headings(lines), h)
  }

  lemma CompleteListDecides(lines: seq<string>, problems: seq<Problem>)
    requires forall p :: p in problems <==> IsProblem(lines, p)
    ensures problems == [] <==> Sound(lines)
  {
    hide IsProblem, Sound;
    NoProblemIsSound(lines);
    if problems == [] {
      forall p ensures !IsProblem(lines, p) { assert p !in problems; }
    } else {
      assert problems[0] in problems;
    }
  }

  lemma NoProblemIsSound(lines: seq<string>)
    ensures Sound(lines) <==> forall p :: !IsProblem(lines, p)
  {
    hide Headings, Footer, FirstCompare;
    var heads := Headings(lines);
    if forall p :: !IsProblem(lines, p) {
      assert !IsProblem(lines, NoUnreleasedHeading) && !IsProblem(lines, NoUnreleasedLink)
          && !IsProblem(lines, NotCompareForm);
      forall h | h in heads ensures h in Footer(lines) {
        assert !IsProblem(lines, NoLink(h));
      }
      forall i, j | 0 <= i < j < |heads| ensures heads[i] != heads[j] {
        assert !IsProblem(lines, Duplicate(heads[i]));
      }
    }
  }

  method MissingLinks(heads: seq<string>, foot: map<string, string>) returns (out: seq<Problem>)
    ensures forall p :: p in out <==> p.NoLink? && p.name in heads && p.name !in foot
  {
    out := [];
    for i := 0 to |heads|
      invariant forall p :: p in out <==> p.NoLink? && p.name in heads[..i] && p.name !in foot
    {
      assert heads[..i + 1] == heads[..i] + [heads[i]];
      if heads[i] !in foot { out := out + [NoLink(heads[i])]; }
    }
    assert heads[..|heads|] == heads;
  }

  method Duplicates(heads: seq<string>) returns (out: seq<Problem>)
    ensures forall p :: p in out <==> p.Duplicate? && Repeated(heads, p.name)
  {
    out := [];
    var seen: set<string> := {};
    for i := 0 to |heads|
      invariant forall h :: h in seen <==> h in heads[..i]
      invariant forall p :: p in out <==> p.Duplicate? && Repeated(heads[..i], p.name)
    {
      RepeatedStep(heads[..i], heads[i]);
      assert heads[..i + 1] == heads[..i] + [heads[i]];
      if heads[i] in seen { out := out + [Duplicate(heads[i])]; }
      seen := seen + {heads[i]};
    }
    assert heads[..|heads|] == heads;
  }

  lemma RepeatedStep(s: seq<string>, x: string)
    ensures forall h :: Repeated(s + [x], h) <==> Repeated(s, h) || (h == x && x in s)
  {
    var r := s + [x];
    forall h ensures Repeated(r, h) <==> Repeated(s, h) || (h == x && x in s) {
      if Repeated(s, h) {
        var i, j :| 0 <= i < j < |s| && s[i] == s[j] == h;
        assert r[i] == r[j] == h;
      }
      if h == x && x in s {
        var i :| 0 <= i < |s| && s[i] == x;
        assert r[i] == r[|s|] == h;
      }
    }
  }

  // ---------------------------------------------------------------------------
  // roll
  // ---------------------------------------------------------------------------

  method RollHeadingLines(t: Text, version: string, date: string) returns (out: seq<string>)
    ensures out == RollHeading(t, version, date).lines
  {
    hide IsUnreleased, NewHeadings, FirstUnreleased;
    out := [];
    var rolled := false;
    ghost var at := 0;
    for i := 0 to |t.lines|
      invariant !rolled ==> out == t.lines[..i] && forall j | 0 <= j < i :: !IsUnreleased(t.lines[j])
      invariant rolled ==> at < i && IsUnreleased(t.lines[at]) && forall j | 0 <= j < at :: !IsUnreleased(t.lines[j])
      invariant rolled ==>
                  var last := at == |t.lines| - 1 && !t.newline;
                  out == t.lines[..at] + NewHeadings(last, version, date) + t.lines[at + 1..i]
    {
      if IsUnreleased(t.lines[i]) && !rolled {
        out := out + NewHeadings(i == |t.lines| - 1 && !t.newline, version, date);
        rolled := true;
        at := i;
        assert t.lines[at + 1..i + 1] == [];
      } else {
        out := out + [t.lines[i]];
        assert !rolled ==> t.lines[..i + 1] == t.lines[..i] + [t.lines[i]];
        assert rolled ==> t.lines[at + 1..i + 1] == t.lines[at + 1..i] + [t.lines[i]];
      }
    }
    if rolled {
      FirstUnreleasedIs(t.lines, at);
      assert t.lines[at + 1..|t.lines|] == t.lines[at + 1..];
    } else {
      assert t.lines[..|t.lines|] == t.lines;
    }
  }

  lemma FirstUnreleasedIs(lines: seq<string>, i: nat)
    requires i < |lines| && IsUnreleased(lines[i]) && forall j | 0 <= j < i :: !IsUnreleased(lines[j])
    ensures FirstUnreleased(lines, 0) == Some(i)
  {
    hide IsUnreleased;
    assert FirstUnreleased(lines, 0).Some?;
  }

  method RollText(t: Text, version: string, date: string) returns (r: Rolled)
    ensures r == Roll(t, version, date)
  {
    hide Headings, FirstCompare, FirstUnreleased, NewHeadings, NewLinks, CompareLine, RollHeading, DropBlank, Read,
         Written;
    var heads := ListHeadings(t.lines);
    if version in heads { return AlreadyThere; }
    if "Unreleased" !in heads { return NoSection; }
    var lines := RollHeadingLines(t, version, date);
    RollHeadingFlag(t, version, date);
    var result := Reread(Text(lines, t.newline));
    var m := FirstCompare(result.lines, 0);
    if m.None? { return NoCompareLink; }
    var rest := SkipBlank(result.lines, m.value + 1);
    var links := NewLinks(CompareLine(result.lines[m.value]).value, version);
    r := Rolled(Text(result.lines[..m.value] + links + rest, result.newline && rest != []));
  }

  method SkipBlank(lines: seq<string>, start: nat) returns (rest: seq<string>)
    requires start <= |lines|
    ensures rest == DropBlank(lines[start..])
  {
    hide Blank, DropBlank;
    var from := start;
    while from < |lines| && Blank(lines[from])
      invariant start <= from <= |lines|
      invariant DropBlank(lines[from..]) == DropBlank(lines[start..])
    {
      DropBlankStep(lines, from);
      from := from + 1;
    }
    DropBlankStep(lines, from);
    rest := lines[from..];
  }

  lemma RollHeadingFlag(t: Text, version: string, date: string)
    ensures RollHeading(t, version, date).newline == t.newline
  {}

  lemma DropBlankStep(lines: seq<string>, i: nat)
    requires i <= |lines|
    ensures DropBlank(lines[i..])
         == if i < |lines| && Blank(lines[i]) then DropBlank(lines[i + 1..]) else lines[i..]
  {
    hide Blank;
    if i < |lines| { assert lines[i..][1..] == lines[i + 1..]; }
  }

  // ---------------------------------------------------------------------------
  // extract
  // ---------------------------------------------------------------------------

  lemma SectionStep(lines: seq<string>, i: nat, key: string, fold: string -> string)
    requires i < |lines|
    ensures Section(lines[i..], key, fold)
         == if Names(lines[i], key, fold) then Some((ParseHeading(lines[i]).value.date, Body(lines[i + 1..])))
            else Section(lines[i + 1..], key, fold)
  {
    hide Names, Body;
    assert lines[i..][1..] == lines[i + 1..];
  }

  lemma BodyStep(lines: seq<string>, i: nat)
    requires i <= |lines|
    ensures Body(lines[i..]) == if i < |lines| && !Stops(lines[i]) then [lines[i]] + Body(lines[i + 1..]) else []
  {
    hide Stops;
    if i < |lines| { assert lines[i..][1..] == lines[i + 1..]; }
  }

  method ReadBody(lines: seq<string>, start: nat) returns (body: seq<string>)
    requires start <= |lines|
    ensures body == Body(lines[start..])
  {
    hide Body, Stops;
    body := [];
    var i := start;
    while i < |lines| && !Stops(lines[i])
      invariant start <= i <= |lines|
      invariant body + Body(lines[i..]) == Body(lines[start..])
    {
      BodyStep(lines, i);
      body := body + [lines[i]];
      i := i + 1;
    }
    BodyStep(lines, i);
  }

  lemma DropBlankEndStep(lines: seq<string>)
    ensures DropBlankEnd(lines)
         == if lines != [] && Blank(lines[|lines| - 1]) then DropBlankEnd(lines[..|lines| - 1]) else lines
  {
    hide Blank;
  }

  method TrimBlank(lines: seq<string>) returns (body: seq<string>)
    ensures body == DropBlankEnd(DropBlank(lines))
  {
    hide Blank, DropBlankEnd, DropBlank;
    body := SkipBlank(lines, 0);
    assert lines[0..] == lines;
    ghost var front := body;
    while body != [] && Blank(body[|body| - 1])
      invariant DropBlankEnd(body) == DropBlankEnd(front)
      decreases |body|
    {
      DropBlankEndStep(body);
      body := body[..|body| - 1];
    }
    DropBlankEndStep(body);
  }

  method ExtractSection(lines: seq<string>, key: string, fold: string -> string) returns (r: Extracted)
    ensures r == Extract(lines, key, fold)
  {
    hide Names, Section, Body, DropBlank, DropBlankEnd, ParseHeading;
    var start := 0;
    assert lines[0..] == lines;
    while start < |lines| && !Names(lines[start], key, fold)
      invariant start <= |lines|
      invariant Section(lines[start..], key, fold) == Section(lines, key, fold)
    {
      SectionStep(lines, start, key, fold);
      start := start + 1;
    }
    if start == |lines| {
      assert lines[start..] == [];
      NoSectionLeft(key, fold);
      return NotFound;
    }
    SectionStep(lines, start, key, fold);
    NamesHeading(lines[start], key, fold);
    var date := ParseHeading(lines[start]).value.date;
    var body := ReadBody(lines, start + 1);
    body := TrimBlank(body);
    if body == [] { return Empty; }
    r := Notes(body, date);
  }

  lemma NoSectionLeft(key: string, fold: string -> string)
    ensures Section([], key, fold) == None
  {}

  lemma NamesHeading(line: string, key: string, fold: string -> string)
    requires Names(line, key, fold)
    ensures ParseHeading(line).Some?
  {}
}
