/** The escape-aware table-row splitter of scripts/publish/signoff_match.py. */
module RowSplit {
  /** The fields from position i on, with `buf` already collected for the current one. */
  function Fields(line: string, i: nat, buf: string): (r: seq<string>)
    requires i <= |line|
    ensures r != []
    decreases |line| - i
  {
    if i == |line| then [buf]
    else if line[i] == '\\' && i + 1 < |line| then
      if line[i + 1] == '|' || line[i + 1] == '\\' then Fields(line, i + 2, buf + [line[i + 1]])
      else Fields(line, i + 1, buf + [line[i]])
    else if line[i] == '|' then [buf] + Fields(line, i + 1, "")
    else Fields(line, i + 1, buf + [line[i]])
  }

  function Split(line: string): seq<string> {
    Fields(line, 0, "")
  }

  method SplitMarkdownRow(line: string) returns (fields: seq<string>)
    ensures fields == Split(line)
  {
    fields := [];
    var buf := "";
    var i, n := 0, |line|;
    while i < n
      invariant 0 <= i <= n
      invariant fields + Fields(line, i, buf) == Split(line)
    {
      var c := line[i];
      if c == '\\' && i + 1 < n {
        var next := line[i + 1];
        if next == '|' || next == '\\' {
          buf := buf + [next];
          i := i + 2;
          continue;
        }
        buf := buf + [c];
        i := i + 1;
        continue;
      }
      if c == '|' {
        assert fields + ([buf] + Fields(line, i + 1, "")) == (fields + [buf]) + Fields(line, i + 1, "");
        fields := fields + [buf];
        buf := "";
        i := i + 1;
        continue;
      }
      buf := buf + [c];
      i := i + 1;
    }
    fields := fields + [buf];
  }

  // ---------------------------------------------------------------------------
  // Which pipes separate
  // ---------------------------------------------------------------------------

  /** The length of the run of backslashes that ends just before i. */
  function RunBefore(line: string, i: nat): nat
    requires i <= |line|
  {
    if i == 0 || line[i - 1] != '\\' then 0 else 1 + RunBefore(line, i - 1)
  }

  /** A pipe is escaped when an odd run of backslashes stands before it. */
  predicate Separator(line: string, i: nat)
    requires i < |line|
  {
    line[i] == '|' && RunBefore(line, i) % 2 == 0
  }

  function Separators(line: string, i: nat): nat
    requires i <= |line|
    decreases |line| - i
  {
    if i == |line| then 0 else (if Separator(line, i) then 1 else 0) + Separators(line, i + 1)
  }

  lemma {:induction false} CountFrom(line: string, i: nat, buf: string)
    requires i <= |line|
    requires RunBefore(line, i) % 2 == 0 || (i < |line| && line[i] != '|' && line[i] != '\\') || i == |line|
    ensures |Fields(line, i, buf)| == 1 + Separators(line, i)
    decreases |line| - i
  {
    if i == |line| {
    } else {
      if line[i] == '\\' && i + 1 < |line| {
        assert RunBefore(line, i + 1) == 1 + RunBefore(line, i);
        assert !Separator(line, i);
        if line[i + 1] == '|' || line[i + 1] == '\\' {
          assert !Separator(line, i + 1);
          assert line[i + 1] == '\\' ==> RunBefore(line, i + 2) == 2 + RunBefore(line, i);
          CountFrom(line, i + 2, buf + [line[i + 1]]);
        } else {
          CountFrom(line, i + 1, buf + [line[i]]);
        }
      } else if line[i] == '|' {
        CountFrom(line, i + 1, "");
      } else {
        CountFrom(line, i + 1, buf + [line[i]]);
      }
    }
  }

  /** For every line, the fields are one more than its unescaped pipes. */
  lemma FieldCount(line: string)
    ensures |Split(line)| == 1 + Separators(line, 0)
  {
    CountFrom(line, 0, "");
  }

  // ---------------------------------------------------------------------------
  // Round trip
  // ---------------------------------------------------------------------------

  function Escape(field: string): string {
    if field == "" then ""
    else (if field[0] == '|' || field[0] == '\\' then ['\\', field[0]] else [field[0]]) + Escape(field[1..])
  }

  function Join(fields: seq<string>): string
    requires fields != []
  {
    if |fields| == 1 then Escape(fields[0]) else Escape(fields[0]) + "|" + Join(fields[1..])
  }

  /** Scanning an escaped field collects the field. */
  lemma {:induction false} ScanEscaped(pre: string, field: string, post: string, buf: string)
    ensures var line := pre + Escape(field) + post;
            Fields(line, |pre|, buf) == Fields(line, |pre + Escape(field)|, buf + field)
    decreases |field|
  {
    var line := pre + Escape(field) + post;
    if field == "" {
      assert buf + field == buf;
    } else {
      var c := field[0];
      var head := if c == '|' || c == '\\' then ['\\', c] else [c];
      assert line == (pre + head) + Escape(field[1..]) + post;
      assert pre + Escape(field) == (pre + head) + Escape(field[1..]);
      assert line[|pre|] == head[0] && (|head| == 2 ==> line[|pre| + 1] == c);
      ScanEscaped(pre + head, field[1..], post, buf + [c]);
      assert (buf + [c]) + field[1..] == buf + field;
    }
  }

  lemma {:induction false} ScanJoined(pre: string, fields: seq<string>)
    requires fields != []
    ensures Fields(pre + Join(fields), |pre|, "") == fields
    decreases |fields|
  {
    var line := pre + Join(fields);
    assert "" + fields[0] == fields[0];
    if |fields| == 1 {
      assert line == pre + Escape(fields[0]) + "";
      ScanEscaped(pre, fields[0], "", "");
    } else {
      var post := "|" + Join(fields[1..]);
      assert line == pre + Escape(fields[0]) + post;
      ScanEscaped(pre, fields[0], post, "");
      var next := pre + Escape(fields[0]) + "|";
      assert line == next + Join(fields[1..]);
      ScanJoined(next, fields[1..]);
      assert line[|pre + Escape(fields[0])|] == '|';
    }
  }

  /** Joining escaped fields and splitting returns exactly those fields. */
  lemma SplitJoin(fields: seq<string>)
    requires fields != []
    ensures Split(Join(fields)) == fields
  {
    assert "" + Join(fields) == Join(fields);
    ScanJoined("", fields);
  }

  // ---------------------------------------------------------------------------
  // Every line
  // ---------------------------------------------------------------------------

  /** A separating pipe, an escaped pipe or backslash, a backslash that escapes nothing, or any other character. */
  datatype Token = Bar | Escaped(c: char) | Lone | Plain(c: char)

  function Spelled(t: Token): string {
    match t
    case Bar => "|"
    case Escaped(c) => ['\\', c]
    case Lone => "\\"
    case Plain(c) => [c]
  }

  function Spell(ts: seq<Token>): string {
    if ts == [] then "" else Spelled(ts[0]) + Spell(ts[1..])
  }

  function Meant(t: Token): string {
    match t
    case Bar => ""
    case Escaped(c) => [c]
    case Lone => "\\"
    case Plain(c) => [c]
  }

  /** A lone backslash is followed by a plain character, or by nothing. */
  predicate Readable(ts: seq<Token>) {
    && (forall i | 0 <= i < |ts| && ts[i].Escaped? :: ts[i].c in {'|', '\\'})
    && (forall i | 0 <= i < |ts| && ts[i].Plain? :: ts[i].c !in {'|', '\\'})
    && forall i | 0 <= i < |ts| - 1 && ts[i].Lone? :: ts[i + 1].Plain?
  }

  /** The fields of a token list, the text of the first one led by `front`. */
  function FieldsOf(front: string, ts: seq<Token>): (r: seq<string>)
    ensures r != []
    decreases |ts|
  {
    if ts == [] then [front]
    else if ts[0].Bar? then [front] + FieldsOf("", ts[1..])
    else FieldsOf(front + Meant(ts[0]), ts[1..])
  }

  lemma {:induction false} ScanTokens(pre: string, ts: seq<Token>, buf: string)
    requires Readable(ts)
    ensures Fields(pre + Spell(ts), |pre|, buf) == FieldsOf(buf, ts)
    decreases |ts|
  {
    var line := pre + Spell(ts);
    if ts == [] {
    } else {
      var head, rest := Spelled(ts[0]), ts[1..];
      assert line == (pre + head) + Spell(rest);
      assert line[|pre|] == head[0] && (|head| == 2 ==> line[|pre| + 1] == head[1]);
      if ts[0].Lone? && rest != [] {
        assert rest[0] == ts[1] && line[|pre| + 1] == ts[1].c;
      }
      ScanTokens(pre + head, rest, if ts[0].Bar? then "" else buf + Meant(ts[0]));
    }
  }

  /** Splitting a line gives the fields its tokens mean. */
  lemma SplitTokens(ts: seq<Token>)
    requires Readable(ts)
    ensures Split(Spell(ts)) == FieldsOf("", ts)
  {
    assert "" + Spell(ts) == Spell(ts);
    ScanTokens("", ts, "");
  }

  /** Every line is spelled by tokens. */
  lemma {:induction false} Tokens(line: string) returns (ts: seq<Token>)
    ensures Readable(ts) && Spell(ts) == line
    decreases |line|
  {
    if line == "" {
      ts := [];
    } else {
      var first :=
        if line[0] == '|' then Bar
        else if line[0] != '\\' then Plain(line[0])
        else if |line| > 1 && line[1] in {'|', '\\'} then Escaped(line[1])
        else Lone;
      var rest := Tokens(line[|Spelled(first)|..]);
      ts := [first] + rest;
      assert Spelled(first) + line[|Spelled(first)|..] == line;
      if first.Lone? && rest != [] { assert Spelled(rest[0])[0] == line[1]; }
    }
  }

  /**
   For every line: it is spelled by readable tokens and splits into the fields they mean, an escaped character standing
   for itself and a backslash that escapes nothing for a backslash.
   */
  lemma SplitExact(line: string, fields: seq<string>)
    ensures fields == Split(line) <==> exists ts :: Readable(ts) && Spell(ts) == line && fields == FieldsOf("", ts)
  {
    var ts := Tokens(line);
    SplitTokens(ts);
    if us :| Readable(us) && Spell(us) == line && fields == FieldsOf("", us) {
      SplitTokens(us);
    }
  }
}
