/**
 Header fields of tools/audit/hf_tar_contract.py, in the ustar layout of IEEE Std 1003.1, `pax`
 utility, "ustar Interchange Format", with the GNU base-256 number form.  Names stay bytes:
 `valid` is strict UTF-8 decodability, left arbitrary.  TarContractError is None.
 */
module TarFields {
  import opened Wrappers
  import opened Octets

  const BLOCK_SIZE := 512

  type Decodable = bytes -> bool

  // ---------------------------------------------------------------------------
  // Numbers
  // ---------------------------------------------------------------------------

  function RStrip(s: bytes): bytes {
    if s != [] && (s[|s| - 1] == 0 || s[|s| - 1] == 32) then RStrip(s[..|s| - 1]) else s
  }

  function LStrip(s: bytes): bytes {
    if s != [] && s[0] == 32 then LStrip(s[1..]) else s
  }

  predicate AllOctal(s: bytes) {
    forall i | 0 <= i < |s| :: 48 <= s[i] < 56
  }

  function Octal(s: bytes): nat
    requires AllOctal(s)
  {
    if s == [] then 0 else Octal(s[..|s| - 1]) * 8 + (s[|s| - 1] - 48)
  }

  /** A tar number: base-256 when the high bit of the first byte is set, otherwise octal text. */
  function TarNumber(field: bytes): Option<int> {
    if field == [] then None
    else if field[0] >= 128 then
      var signed := BigEndian(field) - Pow2(8 * |field|);
      Some(signed % Pow2(8 * |field| - 1))
    else
      var raw := LStrip(RStrip(field));
      if raw == [] then Some(0)
      else if !AllOctal(raw) then None
      else Some(Octal(raw))
  }

  lemma TarNumberNonNegative(field: bytes)
    ensures TarNumber(field).Some? ==> TarNumber(field).value >= 0
  {}

  lemma {:induction false} RStripExact(s: bytes)
    ensures var m := |RStrip(s)|;
            && m <= |s| && RStrip(s) == s[..m] && (forall i | m <= i < |s| :: s[i] in {0, 32})
            && (m > 0 ==> s[m - 1] !in {0, 32})
  {
    if s == [] {
    } else if s[|s| - 1] in {0, 32} {
      RStripExact(s[..|s| - 1]);
    } else {
      assert s[..|s|] == s;
    }
  }

  lemma {:induction false} LStripExact(s: bytes)
    ensures var k := |s| - |LStrip(s)|;
            && 0 <= k <= |s| && LStrip(s) == s[k..] && (forall i | 0 <= i < k :: s[i] == 32)
            && (k < |s| ==> s[k] != 32)
  {
    if s != [] && s[0] == 32 {
      LStripExact(s[1..]);
      var k := |s| - |LStrip(s)|;
      forall i | 0 <= i < k ensures s[i] == 32 {
        if i > 0 { assert s[i] == s[1..][i - 1]; }
      }
    } else {
      assert s[0..] == s;
    }
  }

  /** Spaces, octal digits that spell n, then NULs and spaces. */
  ghost predicate OctalText(field: bytes, n: int, i: nat, j: nat) {
    && i <= j <= |field|
    && (forall k | 0 <= k < i :: field[k] == 32) && (forall k | j <= k < |field| :: field[k] in {0, 32})
    && AllOctal(field[i..j]) && Octal(field[i..j]) == n
  }

  /** A number field without the high bit is read exactly when it is octal digits between filler. */
  lemma OctalExact(field: bytes, n: int)
    requires field != [] && field[0] < 128
    ensures TarNumber(field) == Some(n) <==> exists i: nat, j: nat :: OctalText(field, n, i, j)
  {
    hide Octal, RStrip, LStrip;
    RStripExact(field);
    LStripExact(RStrip(field));
    var m := |RStrip(field)|;
    var k := m - |LStrip(RStrip(field))|;
    assert LStrip(RStrip(field)) == field[k..m];
    assert Octal([]) == 0 by { NoDigits(); }
    if TarNumber(field) == Some(n) { assert OctalText(field, n, k, m); }
    if i: nat, j: nat :| OctalText(field, n, i, j) {
      if i < j {
        assert field[i] == field[i..j][0] && field[j - 1] == field[i..j][j - 1 - i];
        assert i == k && j == m;
      } else {
        assert m == 0;
      }
    }
  }

  lemma NoDigits()
    ensures Octal([]) == 0
  {}

  function Pow8(k: nat): nat {
    if k == 0 then 1 else 8 * Pow8(k - 1)
  }

  function OctalDigits(n: nat, k: nat): (s: bytes)
    ensures |s| == k
  {
    if k == 0 then [] else OctalDigits(n / 8, k - 1) + [48 + n % 8]
  }

  /** The octal form of a field: zero-filled digits and a terminator. */
  function OctalField(n: nat, width: nat): (s: bytes)
    requires width > 0
    ensures |s| == width
  {
    OctalDigits(n, width - 1) + [0]
  }

  /** The GNU base-256 form of a field. */
  function Base256Field(n: nat, width: nat): (s: bytes)
    requires width > 0
    ensures |s| == width
  {
    BigEndianBytes(n + Pow2(8 * width - 1), width)
  }

  lemma {:induction false} OctalDigitsValue(n: nat, k: nat)
    requires n < Pow8(k)
    ensures AllOctal(OctalDigits(n, k)) && Octal(OctalDigits(n, k)) == n
  {
    if k == 0 {
    } else {
      OctalDigitsValue(n / 8, k - 1);
      assert OctalDigits(n, k)[..k - 1] == OctalDigits(n / 8, k - 1);
    }
  }

  lemma StripTerminated(digits: bytes, tail: bytes)
    requires digits != [] && AllOctal(digits)
    requires tail == [0] || tail == [0, 32]
    ensures LStrip(RStrip(digits + tail)) == digits
  {
    var s := digits + tail;
    if tail == [0, 32] {
      assert s[..|s| - 1] == digits + [0];
    }
    assert (digits + [0])[..|digits|] == digits;
    assert RStrip(digits) == digits;
    assert RStrip(digits + [0]) == digits;
    assert LStrip(digits) == digits;
  }

  /** The octal spelling of a number is read back exactly. */
  lemma OctalRoundTrip(n: nat, width: nat)
    requires width > 1 && n < Pow8(width - 1)
    ensures TarNumber(OctalField(n, width)) == Some(n)
  {
    hide Pow2, BigEndian;
    OctalDigitsValue(n, width - 1);
    StripTerminated(OctalDigits(n, width - 1), [0]);
    assert OctalField(n, width)[0] == OctalDigits(n, width - 1)[0];
  }

  /** The base-256 spelling of a number is read back exactly: its marker bit is not part of the value. */
  lemma Base256RoundTrip(n: nat, width: nat)
    requires width > 0 && n < Pow2(8 * width - 1)
    ensures TarNumber(Base256Field(n, width)) == Some(n)
  {
    hide Pow2, Pow256, BigEndian, BigEndianBytes, LStrip, RStrip, Octal;
    var half := Pow2(8 * width - 1);
    var field := Base256Field(n, width);
    Pow256IsPow2(width);
    DoublePow2(8 * width - 1);
    BigEndianRoundTrip(n + half, width);
    TopBit(field, half);
    assert BigEndian(field) - Pow2(8 * width) == -1 * half + n;
    DivModUnique(-1 * half + n, half, -1, n);
  }

  lemma DoublePow2(k: nat)
    ensures Pow2(k + 1) == 2 * Pow2(k)
  {}

  lemma TopBit(field: bytes, half: nat)
    requires field != [] && half == Pow2(8 * |field| - 1)
    requires BigEndian(field) >= half
    ensures field[0] >= 128
  {
    BigEndianLead(field);
    BigEndianBound(field[1..]);
    var unit := Pow256(|field| - 1);
    Pow256IsPow2(|field| - 1);
    Pow2Split(8 * (|field| - 1));
    if field[0] <= 127 {
      MulMonotone(field[0], 127, unit);
    }
  }

  // ---------------------------------------------------------------------------
  // The header block
  // ---------------------------------------------------------------------------

  function Sum(s: bytes): nat {
    if s == [] then 0 else s[0] + Sum(s[1..])
  }

  const SPACES: bytes := [32, 32, 32, 32, 32, 32, 32, 32]

  predicate VerifyHeader(block: bytes) {
    && |block| == BLOCK_SIZE
    && TarNumber(block[148..156]) == Some(Sum(block[..148] + SPACES + block[156..]))
  }

  /** The bytes before the first NUL. */
  function TarText(field: bytes): bytes {
    if field == [] || field[0] == 0 then [] else [field[0]] + TarText(field[1..])
  }

  datatype Header = Header(name: bytes, size: int, typeflag: byte)

  const SLASH: byte := 47

  function ParseHeader(valid: Decodable, block: bytes): Option<Header> {
    if !VerifyHeader(block) then None
    else
      var rawName, prefix := TarText(block[..100]), TarText(block[345..500]);
      if !valid(rawName) || !valid(prefix) then None
      else
        match TarNumber(block[124..136])
        case None => None
        case Some(size) =>
          Some(Header(if prefix != [] then prefix + [SLASH] + rawName else rawName, size,
                      if block[156] != 0 then block[156] else 48))
  }

  // ---------------------------------------------------------------------------
  // Writing a header
  // ---------------------------------------------------------------------------

  /** What a writer puts into one header; the filler fields are arbitrary. */
  datatype RawFields = RawFields(
    name: bytes, owner: bytes, sizeField: bytes, mtime: bytes, typeflag: byte, middle: bytes, prefix: bytes, pad: bytes)

  predicate FieldsOk(h: RawFields) {
    && |h.name| <= 100 && |h.prefix| <= 155
    && 0 !in h.name && 0 !in h.prefix
    && |h.owner| == 24 && |h.sizeField| == 12 && |h.mtime| == 12 && |h.middle| == 188 && |h.pad| == 12
  }

  type RawHeader = h: RawFields | FieldsOk(h)
    witness RawFields([], Zeros(24), Zeros(12), Zeros(12), 48, Zeros(188), [], Zeros(12))

  const REGULAR: byte := 48

  /** The type a header states; none at all is a regular file. */
  function TypeOf(h: RawHeader): byte {
    if h.typeflag == 0 then REGULAR else h.typeflag
  }

  function Fit(s: bytes, width: nat): (r: bytes)
    requires |s| <= width
    ensures |r| == width
  {
    s + Zeros(width - |s|)
  }

  function BeforeChecksum(h: RawHeader): (r: bytes)
    ensures |r| == 148
  {
    Fit(h.name, 100) + h.owner + h.sizeField + h.mtime
  }

  function AfterChecksum(h: RawHeader): (r: bytes)
    ensures |r| == 356
  {
    [h.typeflag] + h.middle + Fit(h.prefix, 155) + h.pad
  }

  function EncodeHeader(h: RawHeader): (r: bytes)
    ensures |r| == BLOCK_SIZE
  {
    BeforeChecksum(h) + (OctalDigits(Sum(BeforeChecksum(h) + SPACES + AfterChecksum(h)), 6) + [0, 32])
      + AfterChecksum(h)
  }

  lemma {:induction false} SumBound(s: bytes)
    ensures Sum(s) <= 255 * |s|
  {
    if s == [] {
    } else {
      SumBound(s[1..]);
    }
  }

  lemma {:induction false} TextOfFit(s: bytes, width: nat)
    requires |s| <= width && 0 !in s
    ensures TarText(Fit(s, width)) == s
  {
    if s == [] {
      if width > 0 { assert Fit(s, width)[0] == 0; }
    } else {
      assert Fit(s, width)[1..] == Fit(s[1..], width - 1);
      TextOfFit(s[1..], width - 1);
    }
  }

  lemma EncodedLayout(h: RawHeader)
    ensures var b := EncodeHeader(h);
            && b[..148] == BeforeChecksum(h) && b[156..] == AfterChecksum(h)
            && b[..100] == Fit(h.name, 100) && b[124..136] == h.sizeField && b[156] == h.typeflag
            && b[345..500] == Fit(h.prefix, 155)
            && b[148..156] == OctalDigits(Sum(BeforeChecksum(h) + SPACES + AfterChecksum(h)), 6) + [0, 32]
  {
    var b := EncodeHeader(h);
    assert b[..148] == BeforeChecksum(h);
    assert b[156..] == AfterChecksum(h);
    assert b[..100] == b[..148][..100];
    assert b[124..136] == b[..148][124..136];
    assert b[345..500] == b[156..][189..344];
  }

  /** A written header verifies and is read back: name, size field and type. */
  lemma HeaderRoundTrip(valid: Decodable, h: RawHeader)
    requires valid(h.name) && valid(h.prefix)
    requires TarNumber(h.sizeField).Some?
    ensures EncodeHeader(h) != Zeros(BLOCK_SIZE)
    ensures ParseHeader(valid, EncodeHeader(h)) ==
            Some(Header(if h.prefix != [] then h.prefix + [SLASH] + h.name else h.name,
                        TarNumber(h.sizeField).value, TypeOf(h)))
  {
    EncodedLayout(h);
    var b := EncodeHeader(h);
    var sum := Sum(BeforeChecksum(h) + SPACES + AfterChecksum(h));
    SumBound(BeforeChecksum(h) + SPACES + AfterChecksum(h));
    assert Pow8(6) == 262144;
    OctalDigitsValue(sum, 6);
    StripTerminated(OctalDigits(sum, 6), [0, 32]);
    assert b[148..156][0] == OctalDigits(sum, 6)[0];
    assert b[148] == b[148..156][0];
    TextOfFit(h.name, 100);
    TextOfFit(h.prefix, 155);
  }

  // ---------------------------------------------------------------------------
  // What the checksum refuses
  // ---------------------------------------------------------------------------

  lemma {:induction false} SumConcat(a: bytes, b: bytes)
    ensures Sum(a + b) == Sum(a) + Sum(b)
  {
    if a == [] {
      assert a + b == b;
    } else {
      assert (a + b)[1..] == a[1..] + b;
      SumConcat(a[1..], b);
    }
  }

  lemma SumChanges(s: bytes, i: nat, x: byte)
    requires i < |s|
    ensures Sum(s[i := x]) == Sum(s) - s[i] + x
  {
    hide Sum;
    assert s == s[..i] + ([s[i]] + s[i + 1..]);
    assert s[i := x] == s[..i] + ([x] + s[i + 1..]);
    SumConcat(s[..i], [s[i]] + s[i + 1..]);
    SumConcat(s[..i], [x] + s[i + 1..]);
    SumFirst(s[i], s[i + 1..]);
    SumFirst(x, s[i + 1..]);
  }

  lemma SumFirst(x: byte, rest: bytes)
    ensures Sum([x] + rest) == x + Sum(rest)
  {}

  /** Any other byte at a single place outside the checksum makes a readable header unreadable. */
  lemma CorruptionRefused(valid: Decodable, block: bytes, i: nat, x: byte)
    requires ParseHeader(valid, block).Some?
    requires (i < 148 || 156 <= i < BLOCK_SIZE) && x != block[i]
    ensures ParseHeader(valid, block[i := x]).None?
  {
    hide Sum, TarNumber;
    var b := block[i := x];
    var summed := block[..148] + SPACES + block[156..];
    assert b[148..156] == block[148..156];
    assert b[..148] + SPACES + b[156..] == summed[i := x];
    SumChanges(summed, i, x);
  }
}
