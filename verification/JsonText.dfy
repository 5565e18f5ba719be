/**
 The one-line text of a JSON value as json.dumps(ensure_ascii=False) writes it, and the proof
 that the costs charged by tools/audit/firered_checkpoint_metadata.py bound its UTF-8 length.
 */
module JsonText {
  import Octets
  import opened TensorView
  import opened PickleValues
  import opened Json
  import opened GraphWalk

  /** The text between items and after a key; at most two bytes each. */
  datatype Style_ = Style(comma: string, colon: string)
  type Style = s: Style_ | Utf8Length(s.comma) <= 2 && Utf8Length(s.colon) <= 2 witness Style("", "")

  function Digits(n: nat): string {
    if n < 10 then [HexDigit(n)] else Digits(n / 10) + [HexDigit(n % 10)]
  }

  function IntText(n: int): string {
    if n < 0 then "-" + Digits(-n) else Digits(n)
  }

  function EscapeChar(c: char): string {
    if c == '"' then "\\\""
    else if c == '\\' then "\\\\"
    else if c == '\n' then "\\n"
    else if c == '\r' then "\\r"
    else if c == '\t' then "\\t"
    else if c == '\U{8}' then "\\b"
    else if c == '\U{C}' then "\\f"
    else if c < ' ' then "\\u00" + [HexDigit(c as int / 16), HexDigit(c as int % 16)]
    else [c]
  }

  function Escape(s: string): string {
    if s == [] then [] else EscapeChar(s[0]) + Escape(s[1..])
  }

  function Quote(s: string): string {
    "\"" + Escape(s) + "\""
  }

  function Text(st: Style, j: Json): string
    decreases j, 1
  {
    match j
    case JNull => "null"
    case JBool(b) => if b then "true" else "false"
    case JInt(n) => IntText(n)
    case JFloat(repr) => repr
    case JString(s) => Quote(s)
    case JArray(items) => "[" + ItemsText(st, items) + "]"
    case JObject(members) => "{" + MembersText(st, members) + "}"
  }

  function ItemsText(st: Style, items: seq<Json>): string
    decreases items, 0
  {
    if items == [] then ""
    else Text(st, items[0]) + (if |items| == 1 then "" else st.comma) + ItemsText(st, items[1..])
  }

  function MembersText(st: Style, ms: seq<(string, Json)>): string
    decreases ms, 0
  {
    if ms == [] then ""
    else MemberText(st, ms[0]) + (if |ms| == 1 then "" else st.comma) + MembersText(st, ms[1..])
  }

  function MemberText(st: Style, m: (string, Json)): string
    decreases m, 0
  {
    Quote(m.0) + st.colon + Text(st, m.1)
  }

  // ---------------------------------------------------------------------------
  // Lengths
  // ---------------------------------------------------------------------------

  lemma {:induction false} Utf8Concat(a: string, b: string)
    ensures Utf8Length(a + b) == Utf8Length(a) + Utf8Length(b)
  {
    if a == [] {
      assert a + b == b;
    } else {
      assert (a + b)[1..] == a[1..] + b;
      Utf8Concat(a[1..], b);
    }
  }

  predicate Ascii(s: string) {
    forall i | 0 <= i < |s| :: s[i] < '\U{80}'
  }

  lemma {:induction false} AsciiLength(s: string)
    requires Ascii(s)
    ensures Utf8Length(s) == |s|
  {
    if s == [] {
    } else {
      AsciiLength(s[1..]);
    }
  }

  lemma HexDigitAscii(d: int)
    requires 0 <= d < 16
    ensures ' ' < HexDigit(d) < '\U{7F}' && HexDigit(d) != '"' && HexDigit(d) != '\\'
  {}

  lemma {:induction false} DigitsShort(n: nat, k: nat)
    requires 0 < k && n < Octets.Pow10(k)
    ensures |Digits(n)| <= k && Ascii(Digits(n))
  {
    HexDigitAscii(n % 10);
    if n < 10 {
    } else {
      assert k > 1 by { assert Octets.Pow10(1) == 10; }
      DigitsShort(n / 10, k - 1);
    }
  }

  lemma IntTextShort(n: int)
    requires StrictInt(n)
    ensures Utf8Length(IntText(n)) <= 20
  {
    assert Octets.Pow10(19) == 10_000_000_000_000_000_000 by {
      assert Octets.Pow10(5) == 100000;
      assert Octets.Pow10(10) == 10_000_000_000;
      assert Octets.Pow10(15) == 1_000_000_000_000_000;
    }
    DigitsShort(if n < 0 then -n else n, 19);
    AsciiLength(IntText(n));
  }

  lemma EscapeCharShort(c: char)
    ensures Utf8Length(EscapeChar(c)) <= 6
  {
    if c < ' ' {
      HexDigitAscii(c as int / 16);
      HexDigitAscii(c as int % 16);
      AsciiLength(EscapeChar(c));
    } else if c == '"' || c == '\\' {
      AsciiLength(EscapeChar(c));
    } else {
      assert EscapeChar(c) == [c];
    }
  }

  lemma {:induction false} EscapeShort(s: string)
    ensures Utf8Length(Escape(s)) <= 6 * |s|
  {
    if s == [] {
    } else {
      EscapeCharShort(s[0]);
      EscapeShort(s[1..]);
      Utf8Concat(EscapeChar(s[0]), Escape(s[1..]));
    }
  }

  lemma QuoteLength(s: string)
    ensures Utf8Length(Quote(s)) == Utf8Length(Escape(s)) + 2
  {
    Utf8Concat("\"", Escape(s));
    Utf8Concat("\"" + Escape(s), "\"");
  }

  lemma QuoteShort(s: string)
    ensures Utf8Length(Quote(s)) <= 6 * |s| + 2
  {
    QuoteLength(s);
    EscapeShort(s);
  }

  /** A text of plain ASCII characters is written as it is. */
  lemma {:induction false} PlainQuote(s: string)
    requires forall i | 0 <= i < |s| :: ' ' < s[i] < '\U{7F}' && s[i] != '"' && s[i] != '\\'
    ensures Escape(s) == s && Utf8Length(Quote(s)) == |s| + 2
  {
    if s != [] {
      PlainQuote(s[1..]);
      assert EscapeChar(s[0]) == [s[0]];
    }
    AsciiLength(s);
    QuoteLength(s);
  }

  lemma {:induction false} HexPlain(data: Octets.bytes)
    ensures |Hex(data)| == 2 * |data|
    ensures forall i | 0 <= i < |Hex(data)| ::
              ' ' < Hex(data)[i] < '\U{7F}' && Hex(data)[i] != '"' && Hex(data)[i] != '\\'
  {
    if data == [] {
    } else {
      HexPlain(data[1..]);
      HexDigitAscii(data[0] / 16);
      HexDigitAscii(data[0] % 16);
    }
  }

  function Size(st: Style, j: Json): nat {
    Utf8Length(Text(st, j))
  }

  lemma ArraySize(st: Style, items: seq<Json>)
    ensures Size(st, JArray(items)) == 2 + Utf8Length(ItemsText(st, items))
  {
    Utf8Concat("[", ItemsText(st, items));
    Utf8Concat("[" + ItemsText(st, items), "]");
  }

  lemma ObjectSize(st: Style, ms: seq<(string, Json)>)
    ensures Size(st, JObject(ms)) == 2 + Utf8Length(MembersText(st, ms))
  {
    Utf8Concat("{", MembersText(st, ms));
    Utf8Concat("{" + MembersText(st, ms), "}");
  }

  lemma ItemsSize(st: Style, items: seq<Json>)
    requires items != []
    ensures Utf8Length(ItemsText(st, items)) <= Size(st, items[0]) + 2 + Utf8Length(ItemsText(st, items[1..]))
  {
    var comma := if |items| == 1 then "" else st.comma;
    Utf8Concat(Text(st, items[0]), comma);
    Utf8Concat(Text(st, items[0]) + comma, ItemsText(st, items[1..]));
  }

  lemma MembersSize(st: Style, ms: seq<(string, Json)>)
    requires ms != []
    ensures Utf8Length(MembersText(st, ms))
            <= Utf8Length(Quote(ms[0].0)) + Size(st, ms[0].1) + 4 + Utf8Length(MembersText(st, ms[1..]))
  {
    var comma := if |ms| == 1 then "" else st.comma;
    var q, t := Quote(ms[0].0), Text(st, ms[0].1);
    Utf8Concat(q, st.colon);
    Utf8Concat(q + st.colon, t);
    Utf8Concat(MemberText(st, ms[0]), comma);
    Utf8Concat(MemberText(st, ms[0]) + comma, MembersText(st, ms[1..]));
  }

  lemma SingleMember(st: Style, name: string, j: Json)
    ensures Size(st, JObject([(name, j)])) <= 6 * |name| + 8 + Size(st, j)
  {
    var ms := [(name, j)];
    ObjectSize(st, ms);
    MembersSize(st, ms);
    QuoteShort(name);
    assert MembersText(st, ms[1..]) == "";
  }

  // ---------------------------------------------------------------------------
  // The charged cost bounds the length
  // ---------------------------------------------------------------------------

  /** What every charged node leaves unused: room for the separators around it. */
  const SLACK := 8

  lemma AtomFits(st: Style, v: Value)
    requires AtomOk(v)
    ensures Size(st, RenderAtom(v)) + SLACK <= AtomCost(v)
  {
    match v
    case Int(n) => IntTextShort(n);
    case FloatValue(Finite(_, repr)) => AsciiLength(repr);
    case Str(s) => QuoteShort(s);
    case Bytes(data) => BytesFit(st, data);
    case Bool(x) => AsciiLength("true"); AsciiLength("false");
    case _ => AsciiLength("null");
  }

  lemma BytesFit(st: Style, data: Octets.bytes)
    ensures Size(st, JObject([("__bytes_hex__", JString(Hex(data)))])) + SLACK <= 2 * |data| + 96
  {
    HexPlain(data);
    PlainQuote(Hex(data));
    SingleMember(st, "__bytes_hex__", JString(Hex(data)));
  }

  /**
   Output-cost soundness: the UTF-8 length of a walked value is strictly below its charged cost,
   with room left for separators.
   */
  lemma {:induction false} CostBoundsText(fold: Fold, heap: Heap, v: Value, t: Tree, st: Style)
    requires Unfolds(fold, heap, v, t)
    ensures Size(st, Render(t)) + SLACK <= Cost(t)
    decreases t, 1
  {
    match t
    case Leaf(a) => AtomFits(st, a);
    case ListTree(ts) =>
      ChildrenUnfold(fold, heap, v, t);
      CostBoundsItems(fold, heap, Children(heap, v), ts, st);
      ArraySize(st, RenderAll(ts));
    case TupleTree(ts) =>
      ChildrenUnfold(fold, heap, v, t);
      CostBoundsItems(fold, heap, Children(heap, v), ts, st);
      ArraySize(st, RenderAll(ts));
      SingleMember(st, "__tuple__", JArray(RenderAll(ts)));
    case DictTree(ks, ts) =>
      ChildrenUnfold(fold, heap, v, t);
      CostBoundsMembers(fold, heap, Children(heap, v), ks, ts, st);
      ObjectSize(st, RenderEntries(ks, ts));
  }

  lemma {:induction false} CostBoundsItems(fold: Fold, heap: Heap, vs: seq<Value>, ts: seq<Tree>, st: Style)
    requires UnfoldAll(fold, heap, vs, ts)
    ensures Utf8Length(ItemsText(st, RenderAll(ts))) <= CostOf(ts)
    decreases ts, 0
  {
    if ts == [] {
    } else {
      CostBoundsText(fold, heap, vs[0], ts[0], st);
      CostBoundsItems(fold, heap, vs[1..], ts[1..], st);
      ItemsSize(st, RenderAll(ts));
      assert RenderAll(ts)[1..] == RenderAll(ts[1..]);
    }
  }

  lemma {:induction false} CostBoundsMembers(
    fold: Fold, heap: Heap, vs: seq<Value>, ks: seq<string>, ts: seq<Tree>, st: Style)
    requires UnfoldAll(fold, heap, vs, ts) && |ks| == |ts|
    ensures Utf8Length(MembersText(st, RenderEntries(ks, ts))) <= KeysCost(ks) + CostOf(ts)
    decreases ts, 0
  {
    if ts == [] {
    } else {
      var ms := RenderEntries(ks, ts);
      CostBoundsText(fold, heap, vs[0], ts[0], st);
      CostBoundsMembers(fold, heap, vs[1..], ks[1..], ts[1..], st);
      QuoteShort(ks[0]);
      MembersSize(st, ms);
      assert ms[1..] == RenderEntries(ks[1..], ts[1..]);
    }
  }
}
