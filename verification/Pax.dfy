/**
 PAX records as `_parse_pax` of tools/audit/hf_tar_contract.py reads them: IEEE Std 1003.1, `pax`
 utility, "pax Extended Header", each record led by its own length in decimal.
 */
module Pax {
  import opened Wrappers
  import opened Octets
  import opened Sequences
  import opened TarFields

  const SPACE: byte := 32
  const EQUALS: byte := 61
  const NEWLINE: byte := 10
  const UNDERSCORE: byte := 95

  type PaxMap = map<bytes, bytes>

  // ---------------------------------------------------------------------------
  // Python's int() on ASCII text
  // ---------------------------------------------------------------------------

  predicate IsSpace(b: byte) {
    b == 32 || 9 <= b <= 13
  }

  predicate IsDigit(b: byte) {
    48 <= b < 58
  }

  function StripLeft(s: bytes): bytes {
    if s != [] && IsSpace(s[0]) then StripLeft(s[1..]) else s
  }

  function StripRight(s: bytes): bytes {
    if s != [] && IsSpace(s[|s| - 1]) then StripRight(s[..|s| - 1]) else s
  }

  /** Digits with single underscores between them. */
  function Decimal(s: bytes): Option<nat> {
    if s == [] || !IsDigit(s[|s| - 1]) then None
    else
      var rest, d := s[..|s| - 1], s[|s| - 1] - 48;
      if rest == [] then Some(d)
      else
        var head := if rest[|rest| - 1] == UNDERSCORE then rest[..|rest| - 1] else rest;
        match Decimal(head) case None => None case Some(n) => Some(n * 10 + d)
  }

  /** The digits of a numeral, its underscores aside. */
  function DigitCount(s: bytes): (n: nat)
    ensures n <= |s|
  {
    if s == [] then 0 else DigitCount(s[..|s| - 1]) + if s[|s| - 1] == UNDERSCORE then 0 else 1
  }

  /** The interpreter's default limit; a longer numeral raises ValueError like a malformed one. */
  const MAX_INT_DIGITS := 4300

  function PyInt(s: bytes): Option<int> {
    var t := StripRight(StripLeft(s));
    var sign := if t != [] && t[0] == 45 then -1 else 1;
    var digits := if t != [] && (t[0] == 45 || t[0] == 43) then t[1..] else t;
    var unsigned := Decimal(digits);
    if unsigned.None? || DigitCount(digits) > MAX_INT_DIGITS then None else Some(sign * unsigned.value)
  }

  function Dec(n: nat): (s: bytes)
    ensures s != []
  {
    if n < 10 then [48 + n] else Dec(n / 10) + [48 + n % 10]
  }

  lemma {:induction false} DecDigits(n: nat)
    ensures forall i | 0 <= i < |Dec(n)| :: IsDigit(Dec(n)[i])
    ensures Decimal(Dec(n)) == Some(n) && DigitCount(Dec(n)) == |Dec(n)|
  {
    if n < 10 {
      assert Dec(n)[..0] == [];
    } else {
      DecDigits(n / 10);
      assert Dec(n)[..|Dec(n)| - 1] == Dec(n / 10);
    }
  }

  lemma PyIntOfDec(n: nat)
    ensures PyInt(Dec(n)) == if |Dec(n)| <= MAX_INT_DIGITS then Some(n) else None
  {
    hide Decimal, DigitCount;
    DecDigits(n);
    assert IsDigit(Dec(n)[0]) && IsDigit(Dec(n)[|Dec(n)| - 1]);
  }

  // ---------------------------------------------------------------------------
  // Reading
  // ---------------------------------------------------------------------------

  /** Python's s[from:to] with clamped bounds. */
  function Slice(s: bytes, from: nat, to: nat): bytes {
    if from <= to <= |s| then s[from..to] else if from <= |s| < to then s[from..] else []
  }

  datatype Parsed = Parsed(key: bytes, value: bytes, length: nat)

  /** Where the record at the cursor's length text ends, and the length it states. */
  function LengthAt(payload: bytes, cursor: nat): (r: Option<(nat, nat)>)
    requires cursor < |payload|
    ensures r.Some? ==> cursor <= r.value.0 < |payload| && 0 < r.value.1 <= |payload| - cursor
  {
    match Find(payload, SPACE, cursor)
    case None => None
    case Some(space) =>
      match PyInt(payload[cursor..space])
      case None => None
      case Some(length) => if length <= 0 || cursor + length > |payload| then None else Some((space, length))
  }

  /** Splits `key=value\n` at its first equals sign. */
  function KeyValue(valid: Decodable, record: bytes): Option<(bytes, bytes)> {
    if record == [] || record[|record| - 1] != NEWLINE || EQUALS !in record then None
    else
      var line := record[..|record| - 1];
      match Find(line, EQUALS, 0)
      case None => None
      case Some(at) =>
        if valid(line[..at]) && valid(line[at + 1..]) then Some((line[..at], line[at + 1..])) else None
  }

  function OneRecord(valid: Decodable, payload: bytes, cursor: nat): (r: Option<Parsed>)
    requires cursor < |payload|
    ensures r.Some? ==> 0 < r.value.length && cursor + r.value.length <= |payload|
  {
    match LengthAt(payload, cursor)
    case None => None
    case Some((space, length)) =>
      match KeyValue(valid, Slice(payload, space + 1, cursor + length))
      case None => None
      case Some((key, value)) => Some(Parsed(key, value, length))
  }

  function ParseFrom(valid: Decodable, payload: bytes, cursor: nat, values: PaxMap): Option<PaxMap>
    requires cursor <= |payload|
    decreases |payload| - cursor
  {
    if cursor == |payload| then Some(values)
    else
      match OneRecord(valid, payload, cursor)
      case None => None
      case Some(p) => ParseFrom(valid, payload, cursor + p.length, values[p.key := p.value])
  }

  method ParsePax(valid: Decodable, payload: bytes) returns (r: Option<PaxMap>)
    ensures r == ParseFrom(valid, payload, 0, map[])
  {
    hide OneRecord;
    var values: PaxMap := map[];
    var cursor := 0;
    while cursor < |payload|
      invariant 0 <= cursor <= |payload|
      invariant ParseFrom(valid, payload, cursor, values) == ParseFrom(valid, payload, 0, map[])
    {
      var p := OneRecord(valid, payload, cursor);
      if p.None? {
        return None;
      }
      values := values[p.value.key := p.value.value];
      cursor := cursor + p.value.length;
    }
    return Some(values);
  }

  // ---------------------------------------------------------------------------
  // Records
  // ---------------------------------------------------------------------------

  /** One record as it stands in a payload. */
  datatype Record = Record(lengthText: bytes, key: bytes, value: bytes)

  /** A record behind its length. */
  function LineOf(key: bytes, value: bytes): bytes {
    key + [EQUALS] + value + [NEWLINE]
  }

  function RecordText(r: Record): bytes {
    r.lengthText + [SPACE] + LineOf(r.key, r.value)
  }

  ghost predicate RecordOk(valid: Decodable, r: Record) {
    && SPACE !in r.lengthText && PyInt(r.lengthText) == Some(|RecordText(r)|)
    && EQUALS !in r.key && valid(r.key) && valid(r.value)
  }

  ghost predicate RecordsOk(valid: Decodable, rs: seq<Record>) {
    forall i | 0 <= i < |rs| :: RecordOk(valid, rs[i])
  }

  function RecordsText(rs: seq<Record>): bytes {
    if rs == [] then [] else RecordText(rs[0]) + RecordsText(rs[1..])
  }

  function LastWins(rs: seq<Record>, values: PaxMap): PaxMap {
    if rs == [] then values else LastWins(rs[1..], values[rs[0].key := rs[0].value])
  }

  lemma KeyValueOfLine(valid: Decodable, key: bytes, value: bytes)
    requires EQUALS !in key && valid(key) && valid(value)
    ensures KeyValue(valid, LineOf(key, value)) == Some((key, value))
  {
    var record := key + [EQUALS] + value + [NEWLINE];
    var line := record[..|record| - 1];
    assert line == key + [EQUALS] + value;
    assert line[|key|] == EQUALS && record[|key|] == EQUALS;
    assert forall j | 0 <= j < |key| :: line[j] == key[j];
    assert Find(line, EQUALS, 0) == Some(|key|);
    assert line[..|key|] == key && line[|key| + 1..] == value;
  }

  lemma LineOfKeyValue(valid: Decodable, record: bytes)
    requires KeyValue(valid, record).Some?
    ensures var (key, value) := KeyValue(valid, record).value;
            && EQUALS !in key && valid(key) && valid(value)
            && record == LineOf(key, value)
  {
    var line := record[..|record| - 1];
    var at := Find(line, EQUALS, 0).value;
    assert record == line + [NEWLINE];
    assert line == line[..at] + [EQUALS] + line[at + 1..];
  }

  /** A stretch of bytes cut at one position. */
  lemma CutAt(s: bytes, from: nat, at: nat, to: nat)
    requires from <= at < to <= |s|
    ensures s[from..to] == s[from..at] + [s[at]] + s[at + 1..to]
  {}

  lemma Pieces(s: bytes, from: nat, a: bytes, x: byte, b: bytes)
    requires from + |a| + 1 + |b| <= |s| && s[from..from + |a| + 1 + |b|] == a + [x] + b
    ensures s[from..from + |a|] == a && s[from + |a|] == x && s[from + |a| + 1..from + |a| + 1 + |b|] == b
  {
    var piece := s[from..from + |a| + 1 + |b|];
    assert piece[..|a|] == a && piece[|a|] == x && piece[|a| + 1..] == b;
  }

  lemma FindAt(s: bytes, x: byte, from: nat, at: nat)
    requires from <= at < |s| && s[at] == x && x !in s[from..at]
    ensures Find(s, x, from) == Some(at)
  {
    forall j | from <= j < at ensures s[j] != x {
      assert s[j] == s[from..at][j - from];
    }
  }

  lemma FoundAt(s: bytes, x: byte, from: nat)
    requires from <= |s| && Find(s, x, from).Some?
    ensures var at := Find(s, x, from).value; from <= at < |s| && s[at] == x && x !in s[from..at]
  {}

  lemma LengthAtRecord(valid: Decodable, payload: bytes, cursor: nat, r: Record)
    requires cursor < cursor + |RecordText(r)| <= |payload|
    requires payload[cursor..cursor + |RecordText(r)|] == RecordText(r)
    requires RecordOk(valid, r)
    ensures LengthAt(payload, cursor) == Some((cursor + |r.lengthText|, |RecordText(r)|))
    ensures Slice(payload, cursor + |r.lengthText| + 1, cursor + |RecordText(r)|) == LineOf(r.key, r.value)
  {
    hide PyInt, LineOf, Find;
    Pieces(payload, cursor, r.lengthText, SPACE, LineOf(r.key, r.value));
    FindAt(payload, SPACE, cursor, cursor + |r.lengthText|);
  }

  lemma RecordParses(valid: Decodable, payload: bytes, cursor: nat, r: Record)
    requires cursor < cursor + |RecordText(r)| <= |payload|
    requires payload[cursor..cursor + |RecordText(r)|] == RecordText(r)
    requires RecordOk(valid, r)
    ensures OneRecord(valid, payload, cursor) == Some(Parsed(r.key, r.value, |RecordText(r)|))
  {
    hide PyInt, KeyValue, LengthAt, Slice, RecordText;
    LengthAtRecord(valid, payload, cursor, r);
    KeyValueOfLine(valid, r.key, r.value);
  }

  lemma ParsedIsRecord(valid: Decodable, payload: bytes, cursor: nat) returns (r: Record)
    requires cursor < |payload|
    requires OneRecord(valid, payload, cursor).Some?
    ensures var p := OneRecord(valid, payload, cursor).value;
            && r.key == p.key && r.value == p.value && |RecordText(r)| == p.length
            && RecordOk(valid, r) && payload[cursor..cursor + p.length] == RecordText(r)
  {
    hide PyInt, KeyValue, Find, LineOf, Slice;
    var p := OneRecord(valid, payload, cursor).value;
    var space := LengthAt(payload, cursor).value.0;
    FoundAt(payload, SPACE, cursor);
    StatedEnd(valid, payload, cursor);
    r := Record(payload[cursor..space], p.key, p.value);
    LineOfKeyValue(valid, Slice(payload, space + 1, cursor + p.length));
    CutAt(payload, cursor, space, cursor + p.length);
  }

  /** The stated length reaches past the length text, so the rest of the record is not cut short. */
  lemma StatedEnd(valid: Decodable, payload: bytes, cursor: nat)
    requires cursor < |payload| && OneRecord(valid, payload, cursor).Some?
    ensures var (space, length) := LengthAt(payload, cursor).value;
            space < cursor + length && Slice(payload, space + 1, cursor + length) == payload[space + 1..cursor + length]
  {
    hide LengthAt;
    var (space, length) := LengthAt(payload, cursor).value;
  }

  /** A record whose length text int() refuses. */
  predicate Unreadable(r: Record) {
    SPACE !in r.lengthText && PyInt(r.lengthText).None?
  }

  lemma UnreadableStops(valid: Decodable, payload: bytes, cursor: nat, r: Record)
    requires cursor < cursor + |RecordText(r)| <= |payload|
    requires payload[cursor..cursor + |RecordText(r)|] == RecordText(r)
    requires Unreadable(r)
    ensures OneRecord(valid, payload, cursor).None?
  {
    hide PyInt, LineOf, Find;
    Pieces(payload, cursor, r.lengthText, SPACE, LineOf(r.key, r.value));
    FindAt(payload, SPACE, cursor, cursor + |r.lengthText|);
  }

  /** Records are read up to the first unreadable one. */
  lemma {:induction false} RecordsParse(valid: Decodable, payload: bytes, cursor: nat, rs: seq<Record>, values: PaxMap)
    requires cursor <= |payload| && payload[cursor..] == RecordsText(rs)
    requires forall i | 0 <= i < |rs| :: RecordOk(valid, rs[i]) || Unreadable(rs[i])
    ensures ParseFrom(valid, payload, cursor, values)
         == if RecordsOk(valid, rs) then Some(LastWins(rs, values)) else None
    decreases |rs|
  {
    hide OneRecord, RecordOk, Unreadable, RecordText;
    if rs == [] {
      assert |payload[cursor..]| == 0;
    } else {
      var t := RecordText(rs[0]);
      RecordNotEmpty(rs[0]);
      assert payload[cursor..] == t + RecordsText(rs[1..]);
      assert payload[cursor..cursor + |t|] == payload[cursor..][..|t|] == t;
      FirstRecordOk(valid, rs);
      if RecordOk(valid, rs[0]) {
        RecordParses(valid, payload, cursor, rs[0]);
        assert payload[cursor + |t|..] == payload[cursor..][|t|..] == RecordsText(rs[1..]);
        RecordsParse(valid, payload, cursor + |t|, rs[1..], values[rs[0].key := rs[0].value]);
      } else {
        UnreadableStops(valid, payload, cursor, rs[0]);
      }
    }
  }

  lemma RecordNotEmpty(r: Record)
    ensures |RecordText(r)| > 0
  {}

  lemma FirstRecordOk(valid: Decodable, rs: seq<Record>)
    requires rs != []
    ensures RecordsOk(valid, rs) <==> RecordOk(valid, rs[0]) && RecordsOk(valid, rs[1..])
  {
    hide RecordOk;
    if RecordOk(valid, rs[0]) && RecordsOk(valid, rs[1..]) {
      forall i | 0 <= i < |rs| ensures RecordOk(valid, rs[i]) {
        if i > 0 { assert rs[i] == rs[1..][i - 1]; }
      }
    }
  }

  lemma {:induction false} ParsedIsRecords(valid: Decodable, payload: bytes, cursor: nat, values: PaxMap)
    returns (rs: seq<Record>)
    requires cursor <= |payload|
    requires ParseFrom(valid, payload, cursor, values).Some?
    ensures RecordsOk(valid, rs) && payload[cursor..] == RecordsText(rs)
    ensures ParseFrom(valid, payload, cursor, values) == Some(LastWins(rs, values))
    decreases |payload| - cursor
  {
    hide OneRecord, RecordOk;
    if cursor == |payload| {
      rs := [];
    } else {
      var p := OneRecord(valid, payload, cursor).value;
      var r := ParsedIsRecord(valid, payload, cursor);
      var rest := ParsedIsRecords(valid, payload, cursor + p.length, values[p.key := p.value]);
      rs := [r] + rest;
      assert rs[1..] == rest;
      assert payload[cursor..] == payload[cursor..cursor + p.length] + payload[cursor + p.length..];
    }
  }

  /**
   The parser accepts exactly the payloads that records cover without a gap, whatever bytes their
   values hold, and yields their last-wins map.
   */
  lemma ParseExact(valid: Decodable, payload: bytes, m: PaxMap)
    ensures ParseFrom(valid, payload, 0, map[]) == Some(m) <==>
            exists rs :: RecordsOk(valid, rs) && payload == RecordsText(rs) && m == LastWins(rs, map[])
  {
    assert payload[0..] == payload;
    if ParseFrom(valid, payload, 0, map[]) == Some(m) {
      var rs := ParsedIsRecords(valid, payload, 0, map[]);
    }
    if rs :| RecordsOk(valid, rs) && payload == RecordsText(rs) && m == LastWins(rs, map[]) {
      RecordsParse(valid, payload, 0, rs, map[]);
    }
  }

  // ---------------------------------------------------------------------------
  // Writing: the self-referential length
  // ---------------------------------------------------------------------------

  lemma {:induction false} DecLength(n: nat, k: nat)
    requires k > 0
    ensures |Dec(n)| <= k <==> n < Pow10(k)
  {
    if n >= 10 {
      if k > 1 { DecLength(n / 10, k - 1); }
    } else if k > 1 {
      DecLength(n, k - 1);
    }
  }

  /** The length a record with `body` further bytes must state: the fixed point of counting itself. */
  function StatedLength(body: nat): nat {
    body + |Dec(body + |Dec(body)|)|
  }

  lemma StatedLengthIsFixed(body: nat)
    ensures StatedLength(body) == body + |Dec(StatedLength(body))|
  {
    hide Dec, Pow10;
    var d := |Dec(body)|;
    var p := body + d;
    DecLength(body, d);
    if d > 1 { DecLength(p, d - 1); DecLength(body, d - 1); }
    DecLength(p, d);
    DecLength(p, d + 1);
    DecLength(p + 1, d);
    DecLength(p + 1, d + 1);
    TimesTen(d);
    assert |Dec(p)| == d || |Dec(p)| == d + 1;
  }

  lemma TimesTen(d: nat)
    ensures Pow10(d + 1) == 10 * Pow10(d)
  {}

  /** The record a writer emits for one key and value. */
  function Written(key: bytes, value: bytes): Record {
    Record(Dec(StatedLength(|key| + |value| + 3)), key, value)
  }

  function WrittenAll(kvs: seq<(bytes, bytes)>): seq<Record> {
    seq(|kvs|, i requires 0 <= i < |kvs| => Written(kvs[i].0, kvs[i].1))
  }

  ghost predicate KeysOk(valid: Decodable, kvs: seq<(bytes, bytes)>) {
    forall i | 0 <= i < |kvs| :: EQUALS !in kvs[i].0 && valid(kvs[i].0) && valid(kvs[i].1)
  }

  lemma RecordLength(r: Record)
    ensures |RecordText(r)| == |r.lengthText| + |r.key| + |r.value| + 3
  {}

  /** A written record is in order, unless its length has more digits than int() takes. */
  lemma WrittenOk(valid: Decodable, key: bytes, value: bytes)
    requires EQUALS !in key && valid(key) && valid(value)
    ensures var r := Written(key, value);
            if |r.lengthText| <= MAX_INT_DIGITS then RecordOk(valid, r) else !RecordOk(valid, r) && Unreadable(r)
  {
    hide PyInt, Dec, StatedLength, Decimal;
    var body := |key| + |value| + 3;
    StatedLengthIsFixed(body);
    PyIntOfDec(StatedLength(body));
    DecDigits(StatedLength(body));
    RecordLength(Written(key, value));
  }

  /** Every stated length has at most as many digits as int() takes. */
  predicate LengthsReadable(kvs: seq<(bytes, bytes)>) {
    forall i | 0 <= i < |kvs| :: |Written(kvs[i].0, kvs[i].1).lengthText| <= MAX_INT_DIGITS
  }

  /**
   Writing then parsing returns the written pairs, later ones winning, whatever the values hold, exactly
   when int() takes every stated length.
   */
  lemma PaxRoundTrip(valid: Decodable, kvs: seq<(bytes, bytes)>)
    requires KeysOk(valid, kvs)
    ensures ParseFrom(valid, RecordsText(WrittenAll(kvs)), 0, map[])
         == if LengthsReadable(kvs) then Some(LastWins(WrittenAll(kvs), map[])) else None
  {
    hide Written, RecordOk, Unreadable, ParseFrom, LastWins, RecordsText;
    var rs := WrittenAll(kvs);
    forall i | 0 <= i < |rs|
      ensures RecordOk(valid, rs[i]) || Unreadable(rs[i])
      ensures RecordOk(valid, rs[i]) <==> |rs[i].lengthText| <= MAX_INT_DIGITS
    {
      WrittenOk(valid, kvs[i].0, kvs[i].1);
    }
    if LengthsReadable(kvs) {
      forall i | 0 <= i < |rs| ensures RecordOk(valid, rs[i]) {
        assert |Written(kvs[i].0, kvs[i].1).lengthText| <= MAX_INT_DIGITS;
      }
    } else {
      var i :| 0 <= i < |kvs| && |Written(kvs[i].0, kvs[i].1).lengthText| > MAX_INT_DIGITS;
      assert !RecordOk(valid, rs[i]);
    }
    assert RecordsText(rs)[0..] == RecordsText(rs);
    RecordsParse(valid, RecordsText(rs), 0, rs, map[]);
  }

  /** A payload of up to a megabyte has readable lengths. */
  lemma ShortIsReadable(kvs: seq<(bytes, bytes)>)
    requires |RecordsText(WrittenAll(kvs))| < Pow10(7)
    ensures LengthsReadable(kvs)
  {
    hide Dec, StatedLength, Pow10;
    var rs := WrittenAll(kvs);
    forall i | 0 <= i < |kvs| ensures |Written(kvs[i].0, kvs[i].1).lengthText| <= MAX_INT_DIGITS {
      RecordInside(rs, i);
      var body := |kvs[i].0| + |kvs[i].1| + 3;
      StatedLengthIsFixed(body);
      RecordLength(rs[i]);
      DecLength(StatedLength(body), 7);
    }
  }

  lemma {:induction false} RecordInside(rs: seq<Record>, i: nat)
    requires i < |rs|
    ensures |RecordText(rs[i])| <= |RecordsText(rs)|
  {
    hide RecordText;
    if i == 0 {
    } else {
      RecordInside(rs[1..], i - 1);
    }
  }
}
