/**
 Changelogs as lists of lines and as the strings the programs of scripts/release/ read and write.
 */
module ChangelogText {
  import opened ChangelogLines

  /** A document: its lines, and whether the last one ends with a line feed. */
  datatype Text = Text(lines: seq<string>, newline: bool) {
    /** Only then are lines and flag what one string is read as (`ReadWritten`). */
    predicate Valid() {
      && (forall i | 0 <= i < |lines| :: Line(lines[i]))
      && if newline then lines != [] else lines == [] || lines[|lines| - 1] != ""
    }
  }

  // ---------------------------------------------------------------------------
  // Documents as strings
  // ---------------------------------------------------------------------------

  /** What stands between the line breaks of a string. */
  function Pieces(s: string): (r: seq<string>)
    ensures r != [] && forall i | 0 <= i < |r| :: Line(r[i])
  {
    if s == "" then [""]
    else
      var rest := Pieces(s[1..]);
      if IsBreak(s[0]) then [""] + rest else [[s[0]] + rest[0]] + rest[1..]
  }

  function Joined(lines: seq<string>): string {
    if lines == [] then "" else if |lines| == 1 then lines[0] else lines[0] + "\n" + Joined(lines[1..])
  }

  function Read(s: string): Text {
    var p := Pieces(s);
    var n := |p| - 1;
    if p[n] == "" then Text(p[..n], n > 0) else Text(p, false)
  }

  function Written(t: Text): string {
    Joined(if t.newline then t.lines + [""] else t.lines)
  }

  /** The document read back after an edit, which may have put line breaks into a line. */
  function Reread(t: Text): Text {
    Read(Written(t))
  }

  /** The pieces of every line. */
  function Flat(lines: seq<string>): seq<string> {
    if lines == [] then [] else Pieces(lines[0]) + Flat(lines[1..])
  }

  lemma {:induction false} PiecesOfLine(s: string)
    requires Line(s)
    ensures Pieces(s) == [s]
  {
    if s == "" {
    } else {
      PiecesOfLine(s[1..]);
      assert [s[0]] + s[1..] == s;
    }
  }

  lemma PiecesCons(c: char, s: string)
    ensures Pieces([c] + s) == if IsBreak(c) then [""] + Pieces(s) else [[c] + Pieces(s)[0]] + Pieces(s)[1..]
  {
    assert ([c] + s)[1..] == s;
  }

  lemma {:induction false} PiecesBroken(a: string, b: string)
    ensures Pieces(a + "\n" + b) == Pieces(a) + Pieces(b)
  {
    hide Pieces;
    if a == "" {
      assert a + "\n" + b == ['\n'] + b;
      PiecesCons('\n', b);
      PiecesOfLine(a);
    } else {
      var rest := a[1..];
      assert a + "\n" + b == [a[0]] + (rest + "\n" + b);
      assert a == [a[0]] + rest;
      PiecesCons(a[0], rest + "\n" + b);
      PiecesCons(a[0], rest);
      PiecesBroken(rest, b);
      assert (Pieces(rest) + Pieces(b))[1..] == Pieces(rest)[1..] + Pieces(b);
    }
  }

  /** A line in front of a string goes to its first piece. */
  lemma {:induction false} PiecesPrefix(a: string, b: string)
    requires Line(a)
    ensures Pieces(a + b) == [a + Pieces(b)[0]] + Pieces(b)[1..]
  {
    hide Pieces;
    if a == "" {
      assert a + b == b && a + Pieces(b)[0] == Pieces(b)[0];
    } else {
      assert a + b == [a[0]] + (a[1..] + b);
      PiecesCons(a[0], a[1..] + b);
      PiecesPrefix(a[1..], b);
      assert [a[0]] + (a[1..] + Pieces(b)[0]) == a + Pieces(b)[0];
    }
  }

  lemma {:induction false} PiecesOfJoined(lines: seq<string>)
    requires lines != []
    ensures Pieces(Joined(lines)) == Flat(lines)
  {
    hide Pieces;
    if |lines| == 1 {
      assert Flat(lines[1..]) == [];
    } else {
      PiecesBroken(lines[0], Joined(lines[1..]));
      PiecesOfJoined(lines[1..]);
    }
  }

  lemma {:induction false} FlatConcat(a: seq<string>, b: seq<string>)
    ensures Flat(a + b) == Flat(a) + Flat(b)
  {
    hide Pieces;
    if a == [] {
      assert a + b == b;
    } else {
      assert (a + b)[1..] == a[1..] + b;
      FlatConcat(a[1..], b);
    }
  }

  lemma {:induction false} FlatLines(lines: seq<string>)
    requires forall i | 0 <= i < |lines| :: Line(lines[i])
    ensures Flat(lines) == lines
  {
    hide Pieces, Line;
    if lines == [] {
    } else {
      PiecesOfLine(lines[0]);
      FlatLines(lines[1..]);
    }
  }

  /** What is read back from written lines, some of which may hold line breaks. */
  lemma RereadFlat(t: Text)
    requires t.lines != []
    ensures Reread(t)
         == var p := Flat(t.lines);
            if t.newline then Text(p, true)
            else if p[|p| - 1] == "" then Text(p[..|p| - 1], |p| > 1) else Text(p, false)
    ensures Flat(t.lines) != []
  {
    hide Pieces, Joined;
    PiecesOfLine("");
    if t.newline {
      PiecesOfJoined(t.lines + [""]);
      FlatConcat(t.lines, [""]);
      assert Flat([""]) == [""] + Flat([]);
    } else {
      PiecesOfJoined(t.lines);
    }
  }

  lemma ReadValid(s: string)
    ensures Read(s).Valid()
  {
    hide Pieces, Line;
  }

  /** Lines and flag are read back as they were written exactly when the document is valid. */
  lemma ReadWritten(t: Text)
    ensures Reread(t) == t <==> t.Valid()
  {
    hide Pieces, Joined, Line;
    ReadValid(Written(t));
    if t.Valid() {
      if t.lines == [] {
        JoinedNothing();
        PiecesOfLine("");
      } else {
        RereadFlat(t);
        FlatLines(t.lines);
      }
    }
  }

  /** Every string whose line breaks are line feeds is a document. */
  lemma WrittenRead(s: string)
    requires forall i | 0 <= i < |s| && IsBreak(s[i]) :: s[i] == '\n'
    ensures Written(Read(s)) == s
  {
    hide Pieces, Joined;
    JoinedPieces(s);
    var p := Pieces(s);
    var n := |p| - 1;
    assert p[n] == "" ==> p[..n] + [""] == p;
    JoinedNothing();
  }

  lemma JoinedNothing()
    ensures Joined([]) == "" && Joined([""]) == ""
  {}

  lemma {:induction false} JoinedPieces(s: string)
    requires forall i | 0 <= i < |s| && IsBreak(s[i]) :: s[i] == '\n'
    ensures Joined(Pieces(s)) == s
  {
    if s == "" {
    } else {
      JoinedPieces(s[1..]);
      var rest := Pieces(s[1..]);
      if IsBreak(s[0]) {
        assert ([""] + rest)[1..] == rest;
        assert "" + "\n" + s[1..] == s;
      } else {
        var all := [[s[0]] + rest[0]] + rest[1..];
        assert all[1..] == rest[1..];
        assert [s[0]] + s[1..] == s;
      }
    }
  }
}
