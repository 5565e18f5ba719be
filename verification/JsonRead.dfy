/** Reading a one-line JSON text (RFC 8259): what the writer puts down is read back, so a text stands for one value. */
module JsonRead {
  import GraphWalk
  import opened Wrappers
  import opened Json
  import opened PickleValues
  import opened JsonText

  /** Something read, and the text behind it. */
  datatype Parsed<+T> = Parsed(item: T, rest: string)

  // ---------------------------------------------------------------------------
  // The reader
  // ---------------------------------------------------------------------------

  function HexValue(c: char): Option<nat> {
    if '0' <= c <= '9' then Some(c as int - '0' as int)
    else if 'a' <= c <= 'f' then Some(c as int - 'a' as int + 10)
    else if 'A' <= c <= 'F' then Some(c as int - 'A' as int + 10)
    else None
  }

  /** The character of a \u escape, of the four digits that lead a text. */
  function CodePoint(s: string): Option<char> {
    if |s| < 4 then None
    else
      var a :- HexValue(s[0]);
      var b :- HexValue(s[1]);
      var c :- HexValue(s[2]);
      var d :- HexValue(s[3]);
      var n := ((a * 16 + b) * 16 + c) * 16 + d;
      if n < 0xD800 || 0xE000 <= n < 0x1_0000 then Some(n as char) else None
  }

  /** The character an escape stands for, behind its backslash. */
  function Unescape(s: string): (r: Option<Parsed<char>>)
    ensures r.Some? ==> |r.value.rest| < |s|
  {
    if s == "" then None
    else
      match s[0]
      case '"' => Some(Parsed('"', s[1..]))
      case '\\' => Some(Parsed('\\', s[1..]))
      case '/' => Some(Parsed('/', s[1..]))
      case 'b' => Some(Parsed('\U{8}', s[1..]))
      case 'f' => Some(Parsed('\U{C}', s[1..]))
      case 'n' => Some(Parsed('\n', s[1..]))
      case 'r' => Some(Parsed('\r', s[1..]))
      case 't' => Some(Parsed('\t', s[1..]))
      case 'u' =>
        var c :- CodePoint(s[1..]);
        Some(Parsed(c, s[5..]))
      case _ => None
  }

  /** The characters up to the closing quote. */
  function ReadText(s: string): (r: Option<Parsed<string>>)
    ensures r.Some? ==> |r.value.rest| < |s|
    decreases |s|
  {
    if s == "" || s[0] < ' ' then None
    else if s[0] == '"' then Some(Parsed("", s[1..]))
    else
      var first :- if s[0] == '\\' then Unescape(s[1..]) else Some(Parsed(s[0], s[1..]));
      var more :- ReadText(first.rest);
      Some(Parsed([first.item] + more.item, more.rest))
  }

  /** The number characters that lead a text. */
  function Run(s: string): (k: nat)
    ensures k <= |s|
  {
    if s == "" || !NumberChar(s[0]) then 0 else 1 + Run(s[1..])
  }

  function DigitsValue(s: string): Option<nat> {
    if s == "" then Some(0)
    else
      var front :- DigitsValue(s[..|s| - 1]);
      var c := s[|s| - 1];
      if '0' <= c <= '9' then Some(10 * front + (c as int - '0' as int)) else None
  }

  function NumberOf(s: string): Option<Json> {
    if FloatForm(s) then Some(JFloat(s))
    else if s != "" && s[0] == '-' && |s| > 1 then
      var n :- DigitsValue(s[1..]);
      Some(JInt(0 - n))
    else if s != "" then
      var n :- DigitsValue(s);
      Some(JInt(n))
    else None
  }

  function Skip(s: string): (r: string)
    ensures |r| <= |s|
  {
    if s != "" && s[0] == ' ' then Skip(s[1..]) else s
  }

  predicate Leads(x: string, s: string) {
    x <= s
  }

  function ReadValue(s: string): (r: Option<Parsed<Json>>)
    ensures r.Some? ==> |r.value.rest| < |s|
    decreases |s|, 0
  {
    if s == "" then None
    else if s[0] == '"' then
      var t :- ReadText(s[1..]);
      Some(Parsed(JString(t.item), t.rest))
    else if s[0] == '[' then
      var inside := Skip(s[1..]);
      if inside != "" && inside[0] == ']' then Some(Parsed(JArray([]), inside[1..]))
      else
        var items :- ReadItems(inside);
        Some(Parsed(JArray(items.item), items.rest))
    else if s[0] == '{' then
      var inside := Skip(s[1..]);
      if inside != "" && inside[0] == '}' then Some(Parsed(JObject([]), inside[1..]))
      else
        var members :- ReadMembers(inside);
        Some(Parsed(JObject(members.item), members.rest))
    else if Leads("null", s) then Some(Parsed(JNull, s[4..]))
    else if Leads("true", s) then Some(Parsed(JBool(true), s[4..]))
    else if Leads("false", s) then Some(Parsed(JBool(false), s[5..]))
    else if Run(s) == 0 then None
    else
      var n :- NumberOf(s[..Run(s)]);
      Some(Parsed(n, s[Run(s)..]))
  }

  /** The items up to the closing bracket. */
  function ReadItems(s: string): (r: Option<Parsed<seq<Json>>>)
    ensures r.Some? ==> |r.value.rest| < |s|
    decreases |s|, 1
  {
    var first :- ReadValue(s);
    var after := Skip(first.rest);
    if after == "" then None
    else if after[0] == ']' then Some(Parsed([first.item], after[1..]))
    else if after[0] != ',' then None
    else
      var more :- ReadItems(Skip(after[1..]));
      Some(Parsed([first.item] + more.item, more.rest))
  }

  function ReadMember(s: string): (r: Option<Parsed<(string, Json)>>)
    ensures r.Some? ==> |r.value.rest| < |s|
    decreases |s|, 1
  {
    if s == "" || s[0] != '"' then None
    else
      var key :- ReadText(s[1..]);
      var after := Skip(key.rest);
      if after == "" || after[0] != ':' then None
      else
        var value :- ReadValue(Skip(after[1..]));
        Some(Parsed((key.item, value.item), value.rest))
  }

  /** The members up to the closing brace. */
  function ReadMembers(s: string): (r: Option<Parsed<seq<(string, Json)>>>)
    ensures r.Some? ==> |r.value.rest| < |s|
    decreases |s|, 2
  {
    var first :- ReadMember(s);
    var after := Skip(first.rest);
    if after == "" then None
    else if after[0] == '}' then Some(Parsed([first.item], after[1..]))
    else if after[0] != ',' then None
    else
      var more :- ReadMembers(Skip(after[1..]));
      Some(Parsed([first.item] + more.item, more.rest))
  }

  // ---------------------------------------------------------------------------
  // What is read back
  // ---------------------------------------------------------------------------

  /** The separators of JSON, with a space behind them or without. */
  predicate Separators(st: Style) {
    st.comma in {",", ", "} && st.colon in {":", ": "}
  }

  predicate NumberText(s: string) {
    forall i | 0 <= i < |s| :: NumberChar(s[i])
  }

  /** Every float is written with a point or an exponent. */
  predicate FloatsRead(j: Json)
    decreases j, 1
  {
    match j
    case JFloat(repr) => NumberText(repr) && FloatForm(repr)
    case JArray(items) => forall i | 0 <= i < |items| :: FloatsRead(items[i])
    case JObject(members) => forall i | 0 <= i < |members| :: MemberRead(members[i])
    case _ => true
  }

  predicate MemberRead(m: (string, Json))
    decreases m, 0
  {
    FloatsRead(m.1)
  }

  lemma HexRead(d: nat)
    requires d < 16
    ensures HexValue(GraphWalk.HexDigit(d)) == Some(d)
  {}

  /** One character and what follows it, whatever the reader makes of that. */
  function Led(c: char, more: Option<Parsed<string>>): Option<Parsed<string>> {
    if more.None? then None else Some(Parsed([c] + more.value.item, more.value.rest))
  }

  lemma CharRead(c: char, tail: string)
    ensures ReadText(EscapeChar(c) + tail) == Led(c, ReadText(tail))
  {
    hide ReadText, Unescape;
    if c in {'"', '\\', '\n', '\r', '\t', '\U{8}', '\U{C}'} {
      ShortRead(c, tail);
      EscapeRead(c, tail);
    } else if c < ' ' {
      ControlRead(c, tail);
      EscapeRead(c, tail);
    } else {
      PlainRead(c, tail);
    }
  }

  lemma PlainRead(c: char, tail: string)
    requires c >= ' ' && c != '"' && c != '\\'
    ensures ReadText([c] + tail) == Led(c, ReadText(tail))
  {
    assert ([c] + tail)[1..] == tail;
  }

  lemma EscapeRead(c: char, tail: string)
    requires EscapeChar(c) != [] && EscapeChar(c)[0] == '\\'
    requires Unescape(EscapeChar(c)[1..] + tail) == Some(Parsed(c, tail))
    ensures ReadText(EscapeChar(c) + tail) == Led(c, ReadText(tail))
  {
    hide Unescape, EscapeChar;
    assert (EscapeChar(c) + tail)[1..] == EscapeChar(c)[1..] + tail;
  }

  lemma ShortRead(c: char, tail: string)
    requires c in {'"', '\\', '\n', '\r', '\t', '\U{8}', '\U{C}'}
    ensures Unescape(EscapeChar(c)[1..] + tail) == Some(Parsed(c, tail))
  {
    hide CodePoint;
    var u := EscapeChar(c)[1..] + tail;
    assert |EscapeChar(c)| == 2 && u[0] == EscapeChar(c)[1] && u[1..] == tail;
  }

  lemma ControlRead(c: char, tail: string)
    requires c < ' '
    requires c !in {'\n', '\r', '\t', '\U{8}', '\U{C}'}
    ensures Unescape(EscapeChar(c)[1..] + tail) == Some(Parsed(c, tail))
  {
    var hi, lo := c as int / 16, c as int % 16;
    HexRead(hi);
    HexRead(lo);
    HexRead(0);
    assert EscapeChar(c) == "\\u00" + [GraphWalk.HexDigit(hi), GraphWalk.HexDigit(lo)];
    hide GraphWalk.HexDigit, HexValue, EscapeChar;
    var u := EscapeChar(c)[1..] + tail;
    assert u[0] == 'u' && u[1..][..4] == ['0', '0', GraphWalk.HexDigit(hi), GraphWalk.HexDigit(lo)];
    assert u[1..][0] == '0' && u[1..][1] == '0';
    assert u[1..][2] == GraphWalk.HexDigit(hi) && u[1..][3] == GraphWalk.HexDigit(lo);
    assert HexValue('0') == Some(0) by { ZeroHex(); }
    assert u[5..] == tail;
  }

  lemma ZeroHex()
    ensures HexValue('0') == Some(0)
  {}

  lemma QuoteRead(rest: string)
    ensures ReadText("\"" + rest) == Some(Parsed("", rest))
  {
    assert ("\"" + rest)[1..] == rest;
  }

  lemma {:induction false} TextRead(t: string, rest: string)
    ensures ReadText(Escape(t) + ("\"" + rest)) == Some(Parsed(t, rest))
  {
    hide ReadText, EscapeChar;
    if t == "" {
      QuoteRead(rest);
      assert Escape(t) + ("\"" + rest) == "\"" + rest;
    } else {
      var tail := Escape(t[1..]) + ("\"" + rest);
      TextRead(t[1..], rest);
      CharRead(t[0], tail);
      assert Escape(t) + ("\"" + rest) == EscapeChar(t[0]) + tail;
      assert [t[0]] + t[1..] == t;
    }
  }

  lemma {:induction false} RunOf(t: string, rest: string)
    requires NumberText(t) && (rest != "" ==> !NumberChar(rest[0]))
    ensures Run(t + rest) == |t|
  {
    if t == "" {
      assert t + rest == rest;
    } else {
      assert (t + rest)[1..] == t[1..] + rest;
      RunOf(t[1..], rest);
    }
  }

  lemma {:induction false} DigitsRead(n: nat)
    ensures DigitsValue(Digits(n)) == Some(n) && Digits(n) != ""
    ensures forall i | 0 <= i < |Digits(n)| :: '0' <= Digits(n)[i] <= '9'
  {
    DigitChar(n % 10);
    if n < 10 {
      assert Digits(n)[..0] == "";
    } else {
      DigitsRead(n / 10);
      assert Digits(n)[..|Digits(n)| - 1] == Digits(n / 10);
    }
  }

  lemma DigitChar(d: nat)
    requires d < 10
    ensures var c := GraphWalk.HexDigit(d); '0' <= c <= '9' && c as int - '0' as int == d
  {}

  lemma IntRead(n: int)
    ensures NumberText(IntText(n)) && !FloatForm(IntText(n)) && NumberOf(IntText(n)) == Some(JInt(n))
    ensures IntText(n) != "" && (IntText(n)[0] == '-' || '0' <= IntText(n)[0] <= '9')
  {
    hide DigitsValue, Digits;
    DigitsRead(if n < 0 then -n else n);
    if n < 0 {
      assert IntText(n)[1..] == Digits(-n);
      assert forall i | 1 <= i < |IntText(n)| :: IntText(n)[i] == Digits(-n)[i - 1];
    }
  }

  /** No value begins with a space or a closing bracket. */
  lemma ValueStarts(st: Style, j: Json)
    requires FloatsRead(j)
    ensures Text(st, j) != "" && Text(st, j)[0] !in {' ', ']', '}'}
  {
    hide IntText, Escape, ItemsText, MembersText;
    match j
    case JInt(n) => IntRead(n);
    case JFloat(repr) => assert repr[0] == Text(st, j)[0] && NumberChar(repr[0]);
    case _ =>
  }

  lemma NumberRead(t: string, j: Json, rest: string)
    requires NumberText(t) && t != "" && NumberOf(t) == Some(j)
    requires rest != "" ==> !NumberChar(rest[0])
    ensures ReadValue(t + rest) == Some(Parsed(j, rest))
  {
    hide NumberOf;
    RunOf(t, rest);
    var s := t + rest;
    assert s[0] == t[0] && NumberChar(t[0]);
    assert s[..|t|] == t && s[|t|..] == rest;
  }

  lemma WordRead(rest: string)
    ensures ReadValue("null" + rest) == Some(Parsed(JNull, rest))
    ensures ReadValue("true" + rest) == Some(Parsed(JBool(true), rest))
    ensures ReadValue("false" + rest) == Some(Parsed(JBool(false), rest))
  {
    assert ("null" + rest)[4..] == rest && ("null" + rest)[0] == 'n';
    assert ("true" + rest)[4..] == rest && ("true" + rest)[0] == 't';
    assert ("false" + rest)[5..] == rest && ("false" + rest)[0] == 'f';
  }

  /** A text behind a separator, whose space is skipped. */
  lemma Skipped(sep: string, mark: char, t: string)
    requires sep == [mark] || sep == [mark, ' ']
    requires mark != ' ' && t != "" && t[0] != ' '
    ensures var s := sep + t; Skip(s) == s && s[0] == mark && Skip(s[1..]) == t
  {
    var s := sep + t;
    assert s[1..] == sep[1..] + t;
    if sep == [mark, ' '] {
      assert s[1..][0] == ' ' && s[1..][1..] == t;
    } else {
      assert s[1..] == t;
    }
  }

  /** Round trip: a written value, whatever follows it short of another number character, is read back. */
  lemma {:induction false} ValueRead(st: Style, j: Json, rest: string)
    requires Separators(st) && FloatsRead(j) && (rest != "" ==> !NumberChar(rest[0]))
    ensures ReadValue(Text(st, j) + rest) == Some(Parsed(j, rest))
    decreases j, 1
  {
    match j
    case JNull => WordRead(rest);
    case JBool(b) => WordRead(rest);
    case JInt(n) => IntRead(n); NumberRead(IntText(n), j, rest);
    case JFloat(repr) => NumberRead(repr, j, rest);
    case JString(t) => StringRead(st, t, rest);
    case JArray(items) => ArrayRead(st, items, rest);
    case JObject(members) => ObjectRead(st, members, rest);
  }

  lemma StringRead(st: Style, t: string, rest: string)
    ensures ReadValue(Text(st, JString(t)) + rest) == Some(Parsed(JString(t), rest))
  {
    hide Escape, ReadText;
    TextRead(t, rest);
    var s := Text(st, JString(t)) + rest;
    assert s[0] == '"' && s[1..] == Escape(t) + ("\"" + rest);
  }

  lemma {:induction false} ArrayRead(st: Style, items: seq<Json>, rest: string)
    requires Separators(st) && FloatsRead(JArray(items))
    ensures ReadValue(Text(st, JArray(items)) + rest) == Some(Parsed(JArray(items), rest))
    decreases items, 1
  {
    hide ReadItems, FloatsRead, Leads, NumberOf, Run;
    var s := Text(st, JArray(items)) + rest;
    var inside := ItemsText(st, items) + ("]" + rest);
    assert s[0] == '[' && s[1..] == inside;
    if items == [] {
      assert inside == "]" + rest && inside[1..] == rest;
    } else {
      ItemsFloats(items);
      ItemsRead(st, items, rest);
      ValueStarts(st, items[0]);
      assert inside[0] == Text(st, items[0])[0];
    }
  }

  lemma ItemsFloats(items: seq<Json>)
    requires FloatsRead(JArray(items))
    ensures forall i | 0 <= i < |items| :: FloatsRead(items[i])
  {}

  lemma {:induction false} ItemsRead(st: Style, items: seq<Json>, rest: string)
    requires Separators(st) && items != [] && forall i | 0 <= i < |items| :: FloatsRead(items[i])
    ensures ReadItems(ItemsText(st, items) + ("]" + rest)) == Some(Parsed(items, rest))
    decreases items, 0
  {
    hide ReadValue, FloatsRead;
    var end := "]" + rest;
    var s, more := ItemsText(st, items) + end, items[1..];
    if more == [] {
      assert ItemsText(st, more) == "";
      assert s == Text(st, items[0]) + end;
      ValueRead(st, items[0], end);
      assert end[1..] == rest && items == [items[0]];
    } else {
      var t := ItemsText(st, more) + end;
      assert s == Text(st, items[0]) + (st.comma + t);
      ValueRead(st, items[0], st.comma + t);
      ItemsRead(st, more, rest);
      ValueStarts(st, more[0]);
      assert t[0] == Text(st, more[0])[0];
      Skipped(st.comma, ',', t);
      assert [items[0]] + more == items;
    }
  }

  lemma {:induction false} ObjectRead(st: Style, ms: seq<(string, Json)>, rest: string)
    requires Separators(st) && FloatsRead(JObject(ms))
    ensures ReadValue(Text(st, JObject(ms)) + rest) == Some(Parsed(JObject(ms), rest))
    decreases ms, 1
  {
    hide ReadMembers, MemberRead, Leads, NumberOf, Run, Quote;
    var s := Text(st, JObject(ms)) + rest;
    var inside := MembersText(st, ms) + ("}" + rest);
    assert s[0] == '{' && s[1..] == inside;
    if ms == [] {
      assert inside == "}" + rest && inside[1..] == rest;
    } else {
      MembersRead(st, ms, rest);
      MemberStarts(st, ms[0]);
      assert inside[0] == MemberText(st, ms[0])[0];
    }
  }

  lemma MemberStarts(st: Style, m: (string, Json))
    ensures MemberText(st, m) != "" && MemberText(st, m)[0] == '"'
  {}

  lemma MemberParts(st: Style, m: (string, Json), rest: string)
    ensures var s := MemberText(st, m) + rest;
            s != "" && s[0] == '"' && s[1..] == Escape(m.0) + ("\"" + (st.colon + (Text(st, m.1) + rest)))
  {
    hide Escape, Text;
  }

  lemma {:induction false} OneMemberRead(st: Style, m: (string, Json), rest: string)
    requires Separators(st) && MemberRead(m) && (rest != "" ==> !NumberChar(rest[0]))
    ensures ReadMember(MemberText(st, m) + rest) == Some(Parsed(m, rest))
    decreases m, 0
  {
    hide ReadValue, ReadText, FloatsRead, Escape, MemberText, Skip;
    var value := Text(st, m.1) + rest;
    MemberParts(st, m, rest);
    TextRead(m.0, st.colon + value);
    ValueStarts(st, m.1);
    Skipped(st.colon, ':', value);
    ValueRead(st, m.1, rest);
  }

  lemma {:induction false} MembersRead(st: Style, ms: seq<(string, Json)>, rest: string)
    requires Separators(st) && ms != [] && forall i | 0 <= i < |ms| :: MemberRead(ms[i])
    ensures ReadMembers(MembersText(st, ms) + ("}" + rest)) == Some(Parsed(ms, rest))
    decreases ms, 0
  {
    hide ReadMember, MemberRead, MemberText;
    var end := "}" + rest;
    var s, more := MembersText(st, ms) + end, ms[1..];
    if more == [] {
      assert MembersText(st, more) == "";
      assert s == MemberText(st, ms[0]) + end;
      OneMemberRead(st, ms[0], end);
      assert end[1..] == rest && ms == [ms[0]];
    } else {
      var t := MembersText(st, more) + end;
      assert s == MemberText(st, ms[0]) + (st.comma + t);
      OneMemberRead(st, ms[0], st.comma + t);
      MembersRead(st, more, rest);
      MemberStarts(st, more[0]);
      assert t[0] == MemberText(st, more[0])[0];
      Skipped(st.comma, ',', t);
      assert [ms[0]] + more == ms;
    }
  }

  /** A whole text is read back as the value it was written from, and so stands for no other. */
  lemma JsonRoundTrip(st: Style, j: Json)
    requires Separators(st) && FloatsRead(j)
    ensures ReadValue(Text(st, j)) == Some(Parsed(j, ""))
  {
    ValueRead(st, j, "");
    assert Text(st, j) + "" == Text(st, j);
  }

  /** What the walk makes of a value is read back from its text. */
  lemma RenderedRoundTrip(st: Style, t: GraphWalk.Tree)
    requires Separators(st)
    ensures var j := GraphWalk.Render(t); ReadValue(Text(st, j)) == Some(Parsed(j, ""))
  {
    hide ReadValue, Text, FloatsRead;
    RenderedFloats(t);
    JsonRoundTrip(st, GraphWalk.Render(t));
  }

  lemma {:induction false} RenderedFloats(t: GraphWalk.Tree)
    ensures FloatsRead(GraphWalk.Render(t))
    decreases t, 1
  {
    match t
    case Leaf(_) =>
    case ListTree(ts) => AllFloats(ts);
    case TupleTree(ts) => AllFloats(ts);
    case DictTree(ks, ts) =>
      EntryFloats(ks, ts);
      assert GraphWalk.Render(t) == JObject(GraphWalk.RenderEntries(ks, ts));
  }

  lemma {:induction false} AllFloats(ts: seq<GraphWalk.Tree>)
    ensures forall i | 0 <= i < |GraphWalk.RenderAll(ts)| :: FloatsRead(GraphWalk.RenderAll(ts)[i])
    decreases ts, 0
  {
    if ts == [] {
    } else {
      RenderedFloats(ts[0]);
      AllFloats(ts[1..]);
    }
  }

  lemma {:induction false} EntryFloats(ks: seq<string>, ts: seq<GraphWalk.Tree>)
    ensures forall m | m in GraphWalk.RenderEntries(ks, ts) :: MemberRead(m)
    decreases ts, 0
  {
    if ts == [] || ks == [] {
    } else {
      RenderedFloats(ts[0]);
      EntryFloats(ks[1..], ts[1..]);
    }
  }
}
