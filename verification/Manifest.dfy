/**
 The canonical manifest bytes hashed by tools/audit/moss_audio_tokenizer_v2_manifest.py and
 tools/audit/hf_gguf_contract.py: for each tensor in name order its UTF-8 name, a NUL, its rank
 and its dimensions as little-endian 64-bit words.  Names are their UTF-8 bytes.
 */
module Manifest {
  import opened Wrappers
  import opened Octets
  import opened Sorting

  datatype Entry = Entry(name: bytes, shape: seq<nat>)

  const WORD_LIMIT: nat := 0x1_0000_0000_0000_0000

  function Word(n: nat): bytes {
    LittleEndianBytes(n, 8)
  }

  function Words(shape: seq<nat>): bytes {
    if shape == [] then [] else Word(shape[0]) + Words(shape[1..])
  }

  function EntryBytes(e: Entry): bytes {
    e.name + [0] + Word(|e.shape|) + Words(e.shape)
  }

  /** struct.pack("<Q") takes every number of the shape, and its rank. */
  predicate Packable(e: Entry) {
    |e.shape| < WORD_LIMIT && forall i | 0 <= i < |e.shape| :: e.shape[i] < WORD_LIMIT
  }

  function Encode(es: seq<Entry>): bytes {
    if es == [] then [] else EntryBytes(es[0]) + Encode(es[1..])
  }

  // ---------------------------------------------------------------------------
  // Name order
  // ---------------------------------------------------------------------------

  predicate ByteLess(x: byte, y: byte) {
    x < y
  }

  predicate NameLess(a: bytes, b: bytes) {
    LexLess(ByteLess, a, b)
  }

  predicate EntryLess(d: Entry, e: Entry) {
    NameLess(d.name, e.name)
  }

  function SortEntries(s: seq<Entry>): seq<Entry> {
    Sort(EntryLess, s)
  }

  lemma EntriesKept(s: seq<Entry>)
    ensures multiset(SortEntries(s)) == multiset(s)
    ensures forall e :: e in SortEntries(s) <==> e in s
  {
    hide Sort;
    SortIsPermutation(EntryLess, s);
    SortMembers(EntryLess, s);
  }

  /** The canonical bytes of a manifest, or None where packing a number raises. */
  method ManifestBytes(manifest: seq<Entry>) returns (r: Option<bytes>)
    ensures r.Some? <==> forall i | 0 <= i < |manifest| :: Packable(manifest[i])
    ensures r.Some? ==> r.value == Encode(SortEntries(manifest))
  {
    var sorted := SortEntries(manifest);
    EntriesKept(manifest);
    hide SortEntries, EntryBytes;
    var canonical: bytes := [];
    var i := 0;
    assert sorted[0..] == sorted;
    while i < |sorted|
      invariant 0 <= i <= |sorted|
      invariant forall j | 0 <= j < i :: Packable(sorted[j])
      invariant canonical + Encode(sorted[i..]) == Encode(sorted)
    {
      assert sorted[i..][1..] == sorted[i + 1..];
      if !Packable(sorted[i]) {
        assert sorted[i] in manifest;
        return None;
      }
      var entry := AppendEntry(sorted[i]);
      assert canonical + (entry + Encode(sorted[i + 1..])) == (canonical + entry) + Encode(sorted[i + 1..]);
      canonical := canonical + entry;
      i := i + 1;
    }
    forall k | 0 <= k < |manifest| ensures Packable(manifest[k]) {
      assert manifest[k] in sorted;
    }
    assert sorted[i..] == [];
    return Some(canonical);
  }

  method AppendEntry(e: Entry) returns (canonical: bytes)
    ensures canonical == EntryBytes(e)
  {
    canonical := e.name + [0] + Word(|e.shape|);
    var j := 0;
    assert e.shape[0..] == e.shape;
    while j < |e.shape|
      invariant 0 <= j <= |e.shape|
      invariant canonical + Words(e.shape[j..]) == EntryBytes(e)
    {
      hide LittleEndianBytes;
      assert e.shape[j..][1..] == e.shape[j + 1..];
      assert canonical + (Word(e.shape[j]) + Words(e.shape[j + 1..]))
          == (canonical + Word(e.shape[j])) + Words(e.shape[j + 1..]);
      canonical := canonical + Word(e.shape[j]);
      j := j + 1;
    }
    assert e.shape[j..] == [];
  }

  // ---------------------------------------------------------------------------
  // Unique decodability
  // ---------------------------------------------------------------------------

  lemma CutEqual<T>(a: seq<T>, b: seq<T>, x: seq<T>, y: seq<T>)
    requires a + x == b + y && |a| == |b|
    ensures a == b && x == y
  {
    assert a == (a + x)[..|a|] && b == (b + y)[..|b|];
    assert x == (a + x)[|a|..] && y == (b + y)[|b|..];
  }

  lemma WordInjective(m: nat, n: nat)
    requires m < WORD_LIMIT && n < WORD_LIMIT && Word(m) == Word(n)
    ensures m == n
  {
    assert Pow256(8) == WORD_LIMIT;
    LittleEndianRoundTrip(m, 8);
    LittleEndianRoundTrip(n, 8);
  }

  lemma {:induction false} WordsInjective(a: seq<nat>, b: seq<nat>, x: bytes, y: bytes)
    requires |a| == |b|
    requires forall i | 0 <= i < |a| :: a[i] < WORD_LIMIT && b[i] < WORD_LIMIT
    requires Words(a) + x == Words(b) + y
    ensures a == b && x == y
  {
    if a == [] {
      assert x == Words(a) + x && y == Words(b) + y;
    } else {
      hide LittleEndianBytes;
      assert Words(a) + x == Word(a[0]) + (Words(a[1..]) + x);
      assert Words(b) + y == Word(b[0]) + (Words(b[1..]) + y);
      CutEqual(Word(a[0]), Word(b[0]), Words(a[1..]) + x, Words(b[1..]) + y);
      WordInjective(a[0], b[0]);
      WordsInjective(a[1..], b[1..], x, y);
      assert a == [a[0]] + a[1..] && b == [b[0]] + b[1..];
    }
  }

  /** The first NUL ends the name. */
  lemma NamesEqual(m: bytes, n: bytes, x: bytes, y: bytes)
    requires 0 !in m && 0 !in n && m + [0] + x == n + [0] + y
    ensures m == n && x == y
  {
    var s, t := m + [0] + x, n + [0] + y;
    assert s[|m|] == 0 && t[|n|] == 0;
    assert forall i | 0 <= i < |m| :: s[i] == m[i];
    assert forall i | 0 <= i < |n| :: t[i] == n[i];
    assert |m| == |n|;
    CutEqual(m + [0], n + [0], x, y);
    CutEqual(m, n, [0], [0]);
  }

  lemma EntryInjective(d: Entry, e: Entry, x: bytes, y: bytes)
    requires 0 !in d.name && 0 !in e.name && Packable(d) && Packable(e)
    requires EntryBytes(d) + x == EntryBytes(e) + y
    ensures d == e && x == y
  {
    hide Word;
    var p, q := Word(|d.shape|) + (Words(d.shape) + x), Word(|e.shape|) + (Words(e.shape) + y);
    assert EntryBytes(d) + x == d.name + [0] + p;
    assert EntryBytes(e) + y == e.name + [0] + q;
    NamesEqual(d.name, e.name, p, q);
    WordLength(|d.shape|);
    WordLength(|e.shape|);
    CutEqual(Word(|d.shape|), Word(|e.shape|), Words(d.shape) + x, Words(e.shape) + y);
    WordInjective(|d.shape|, |e.shape|);
    WordsInjective(d.shape, e.shape, x, y);
  }

  lemma WordLength(n: nat)
    ensures |Word(n)| == 8
  {}

  ghost predicate Clean(es: seq<Entry>) {
    forall i | 0 <= i < |es| :: 0 !in es[i].name && Packable(es[i])
  }

  /** Canonical bytes determine the sequence of entries. */
  lemma {:induction false} EncodeInjective(a: seq<Entry>, b: seq<Entry>)
    requires Clean(a) && Clean(b) && Encode(a) == Encode(b)
    ensures a == b
  {
    hide EntryBytes;
    if a == [] || b == [] {
      EncodeLength(a);
      EncodeLength(b);
    } else {
      EntryInjective(a[0], b[0], Encode(a[1..]), Encode(b[1..]));
      EncodeInjective(a[1..], b[1..]);
      assert a == [a[0]] + a[1..] && b == [b[0]] + b[1..];
    }
  }

  lemma {:induction false} EncodeLength(es: seq<Entry>)
    ensures |Encode(es)| >= 9 * |es|
  {
    if es == [] {
    } else {
      EncodeLength(es[1..]);
    }
  }

  // ---------------------------------------------------------------------------
  // Byte by byte
  // ---------------------------------------------------------------------------

  /** Eight bytes from a position on spell a number, the lowest byte first. */
  ghost predicate WordAt(s: bytes, pos: nat, n: nat) {
    pos + 8 <= |s| && forall i: nat | i < 8 :: s[pos + i] == n / Pow256(i) % 256
  }

  /** From a position on: the name, a NUL, the rank, and the dimensions in order. */
  ghost predicate EntryAt(s: bytes, pos: nat, e: Entry) {
    var words := pos + |e.name| + 1;
    && words <= |s| && s[pos..words - 1] == e.name && s[words - 1] == 0
    && WordAt(s, words, |e.shape|)
    && forall j: nat | j < |e.shape| :: WordAt(s, words + 8 + 8 * j, e.shape[j])
  }

  /** The bytes of one entry. */
  function EntrySize(e: Entry): nat {
    |e.name| + 9 + 8 * |e.shape|
  }

  function Before(es: seq<Entry>, k: nat): nat
    requires k <= |es|
  {
    if k == 0 then 0 else Before(es, k - 1) + EntrySize(es[k - 1])
  }

  lemma WordThere(n: nat, left: bytes, right: bytes)
    ensures WordAt(left + Word(n) + right, |left|, n)
  {
    hide LittleEndianBytes;
    forall i: nat | i < 8 ensures (left + Word(n) + right)[|left| + i] == n / Pow256(i) % 256 {
      LittleEndianDigit(n, 8, i);
    }
  }

  lemma {:induction false} WordsThere(shape: seq<nat>, left: bytes, right: bytes, j: nat)
    requires j < |shape|
    ensures |Words(shape)| == 8 * |shape| && WordAt(left + Words(shape) + right, |left| + 8 * j, shape[j])
  {
    hide WordAt, LittleEndianBytes;
    WordsLength(shape);
    var s := left + Words(shape) + right;
    if j == 0 {
      WordThere(shape[0], left, Words(shape[1..]) + right);
      assert left + Word(shape[0]) + (Words(shape[1..]) + right) == s;
    } else {
      var next := left + Word(shape[0]);
      WordsThere(shape[1..], next, right, j - 1);
      assert next + Words(shape[1..]) + right == s;
    }
  }

  lemma {:induction false} WordsLength(shape: seq<nat>)
    ensures |Words(shape)| == 8 * |shape|
  {
    if shape == [] {
    } else {
      WordsLength(shape[1..]);
    }
  }

  lemma EntryThere(e: Entry, left: bytes, right: bytes)
    ensures |EntryBytes(e)| == EntrySize(e) && EntryAt(left + EntryBytes(e) + right, |left|, e)
  {
    hide WordAt, Word, Words;
    var s := left + EntryBytes(e) + right;
    var head := left + e.name + [0];
    WordsLength(e.shape);
    WordLength(|e.shape|);
    WordThere(|e.shape|, head, Words(e.shape) + right);
    assert head + Word(|e.shape|) + (Words(e.shape) + right) == s;
    forall j: nat | j < |e.shape| ensures WordAt(s, |head| + 8 + 8 * j, e.shape[j]) {
      var dims := head + Word(|e.shape|);
      WordsThere(e.shape, dims, right, j);
      assert dims + Words(e.shape) + right == s;
    }
    assert s[|left|..|left| + |e.name|] == e.name;
  }

  /** The canonical bytes: every entry where those before it end, laid out byte by byte, and nothing else. */
  lemma {:induction false} EntriesInOrder(es: seq<Entry>, k: nat)
    requires k <= |es|
    ensures |Encode(es)| == Before(es, |es|) && |Encode(es[..k])| == Before(es, k)
    ensures Encode(es) == Encode(es[..k]) + Encode(es[k..])
    ensures k < |es| ==> EntryAt(Encode(es), Before(es, k), es[k])
    decreases |es|
  {
    hide EntryBytes, EntryAt, EntrySize;
    EncodeParts(es, k);
    EncodeSize(es, k);
    EncodeSize(es, |es|);
    assert es[..|es|] == es;
    if k < |es| {
      EntryThere(es[k], Encode(es[..k]), Encode(es[k + 1..]));
      assert es[k..][1..] == es[k + 1..];
      assert Encode(es[..k]) + EntryBytes(es[k]) + Encode(es[k + 1..]) == Encode(es);
    }
  }

  lemma {:induction false} EncodeParts(es: seq<Entry>, k: nat)
    requires k <= |es|
    ensures Encode(es) == Encode(es[..k]) + Encode(es[k..])
    decreases |es|
  {
    hide EntryBytes;
    if k == 0 {
      assert es[..0] == [] && es[0..] == es;
    } else {
      EncodeParts(es[1..], k - 1);
      assert es[1..][..k - 1] == es[..k][1..] && es[1..][k - 1..] == es[k..];
    }
  }

  lemma {:induction false} EncodeSize(es: seq<Entry>, k: nat)
    requires k <= |es|
    ensures |Encode(es[..k])| == Before(es, k)
    decreases k
  {
    hide EntryBytes, EntrySize;
    if k == 0 {
    } else {
      EncodeSize(es, k - 1);
      EncodeParts(es[..k], k - 1);
      assert es[..k][..k - 1] == es[..k - 1] && es[..k][k - 1..] == [es[k - 1]];
      assert [es[k - 1]][1..] == [];
      assert Encode([es[k - 1]]) == EntryBytes(es[k - 1]) + [];
      EntryThere(es[k - 1], [], []);
    }
  }

  // ---------------------------------------------------------------------------
  // One byte string per manifest
  // ---------------------------------------------------------------------------

  /** The keys of a dictionary are distinct. */
  ghost predicate NamesDistinct(s: seq<Entry>) {
    forall i, j | 0 <= i < j < |s| :: s[i].name != s[j].name
  }

  ghost predicate Ascending(s: seq<Entry>) {
    forall i, j | 0 <= i < j < |s| :: NameLess(s[i].name, s[j].name)
  }

  lemma NameLessTotal(a: bytes, b: bytes)
    ensures a != b ==> NameLess(a, b) != NameLess(b, a)
    ensures !NameLess(a, a)
  {
    hide LexLess;
    assert TotalOrder(ByteLess);
    LexTotal(ByteLess, a, b);
    LexTotal(ByteLess, a, a);
  }

  lemma NameLessTransitive(a: bytes, b: bytes, c: bytes)
    requires NameLess(a, b) && NameLess(b, c)
    ensures NameLess(a, c)
  {
    hide LexLess;
    assert TotalOrder(ByteLess);
    LexTransitive(ByteLess, a, b, c);
  }

  lemma {:induction false} InsertAscending(e: Entry, s: seq<Entry>)
    requires Ascending(s) && forall i | 0 <= i < |s| :: s[i].name != e.name
    ensures Ascending(Insert(EntryLess, e, s))
  {
    hide NameLess;
    if s == [] {
    } else {
      NameLessTotal(e.name, s[0].name);
      if NameLess(s[0].name, e.name) {
        var t := Insert(EntryLess, e, s[1..]);
        InsertAscending(e, s[1..]);
        InsertMembers(EntryLess, e, s[1..]);
        forall j | 0 <= j < |t| ensures NameLess(s[0].name, t[j].name) {
          assert t[j] == e || t[j] in s[1..];
        }
      } else {
        forall j | 0 <= j < |s| ensures NameLess(e.name, s[j].name) {
          if j > 0 { NameLessTransitive(e.name, s[0].name, s[j].name); }
        }
      }
    }
  }

  lemma {:induction false} SortAscending(s: seq<Entry>)
    requires NamesDistinct(s)
    ensures Ascending(SortEntries(s))
  {
    hide NameLess, Insert;
    if s == [] {
    } else {
      SortAscending(s[1..]);
      EntriesKept(s[1..]);
      var t := SortEntries(s[1..]);
      forall i | 0 <= i < |t| ensures t[i].name != s[0].name {
        assert t[i] in s[1..];
      }
      InsertAscending(s[0], t);
    }
  }

  lemma TailEntries(s: seq<Entry>)
    requires s != []
    ensures multiset(s[1..]) == multiset(s) - multiset{s[0]}
  {
    assert s == [s[0]] + s[1..];
    assert multiset(s) == multiset{s[0]} + multiset(s[1..]);
  }

  lemma SameHead(a: seq<Entry>, b: seq<Entry>)
    requires a != [] && b != [] && Ascending(a) && Ascending(b) && multiset(a) == multiset(b)
    ensures a[0] == b[0]
  {
    hide NameLess;
    assert a[0] in multiset(a) && b[0] in multiset(b);
    assert a[0] in b && b[0] in a;
    var i :| 0 <= i < |b| && b[i] == a[0];
    var j :| 0 <= j < |a| && a[j] == b[0];
    if i > 0 && j > 0 {
      NameLessTransitive(a[0].name, b[0].name, a[0].name);
      NameLessTotal(a[0].name, a[0].name);
    }
  }

  /** Two ascending arrangements of the same entries are the same. */
  lemma {:induction false} AscendingUnique(a: seq<Entry>, b: seq<Entry>)
    requires Ascending(a) && Ascending(b) && multiset(a) == multiset(b)
    ensures a == b
  {
    hide NameLess;
    if a == [] || b == [] {
      assert |multiset(a)| == |a| && |multiset(b)| == |b|;
    } else {
      SameHead(a, b);
      TailEntries(a);
      TailEntries(b);
      AscendingUnique(a[1..], b[1..]);
      assert a == [a[0]] + a[1..] && b == [b[0]] + b[1..];
    }
  }

  lemma SortedClean(s: seq<Entry>)
    requires Clean(s)
    ensures Clean(SortEntries(s))
  {
    EntriesKept(s);
    forall i | 0 <= i < |SortEntries(s)|
      ensures 0 !in SortEntries(s)[i].name && Packable(SortEntries(s)[i])
    {
      assert SortEntries(s)[i] in s;
    }
  }

  /**
   Canonicality.  Two manifests with NUL-free names and 64-bit dimensions produce the same bytes if
   and only if they are the same dictionary, in whatever order each was built.
   */
  lemma CanonicalBytes(a: seq<Entry>, b: seq<Entry>)
    requires NamesDistinct(a) && NamesDistinct(b) && Clean(a) && Clean(b)
    ensures Encode(SortEntries(a)) == Encode(SortEntries(b)) <==> multiset(a) == multiset(b)
  {
    hide Encode, SortEntries;
    EntriesKept(a);
    EntriesKept(b);
    if multiset(a) == multiset(b) {
      SortAscending(a);
      SortAscending(b);
      AscendingUnique(SortEntries(a), SortEntries(b));
    }
    if Encode(SortEntries(a)) == Encode(SortEntries(b)) {
      SortedClean(a);
      SortedClean(b);
      EncodeInjective(SortEntries(a), SortEntries(b));
    }
  }

  /** In the order of the bytes where the names first differ. */
  ghost predicate Precedes(a: bytes, b: bytes) {
    exists k: nat :: k < |b| && k <= |a| && a[..k] == b[..k] && (k == |a| || a[k] < b[k])
  }

  /**
   What is hashed: the entries of the dictionary in the byte order of their names, whatever order it was built in,
   each laid out byte by byte right behind the one before, and nothing else.
   */
  lemma CanonicalLayout(manifest: seq<Entry>)
    requires NamesDistinct(manifest)
    ensures var es := SortEntries(manifest);
            && multiset(es) == multiset(manifest)
            && (forall i, j | 0 <= i < j < |es| :: Precedes(es[i].name, es[j].name))
            && |Encode(es)| == Before(es, |es|)
            && forall k: nat | k < |es| :: EntryAt(Encode(es), Before(es, k), es[k])
  {
    hide Encode, SortEntries, EntryAt, Precedes, NameLess;
    var es := SortEntries(manifest);
    EntriesKept(manifest);
    SortAscending(manifest);
    forall i, j | 0 <= i < j < |es| ensures Precedes(es[i].name, es[j].name) {
      NamePrecedes(es[i].name, es[j].name);
    }
    forall k: nat | k < |es| ensures EntryAt(Encode(es), Before(es, k), es[k]) {
      EntriesInOrder(es, k);
    }
    EntriesInOrder(es, 0);
  }

  lemma NamePrecedes(a: bytes, b: bytes)
    requires NameLess(a, b)
    ensures Precedes(a, b)
  {
    LexExact(ByteLess, a, b);
  }

  /** With a NUL inside a name two different manifests share their bytes. */
  lemma NulNamesCollide()
    ensures var two := [Entry([97], []), Entry([98], [])];
            var one := [Entry([97, 0, 0, 0, 0, 0, 0, 0, 0, 0, 98], [])];
            two != one && Encode(SortEntries(two)) == Encode(SortEntries(one))
  {
    hide Word, Words, NameLess, SortEntries, Encode;
    var a, b := Entry([97], []), Entry([98], []);
    var c := Entry([97, 0, 0, 0, 0, 0, 0, 0, 0, 0, 98], []);
    var zero: bytes := [0, 0, 0, 0, 0, 0, 0, 0];
    ZeroWord();
    ShortManifests(a, b);
    ShortManifests(c, c);
    assert EntryBytes(a) == [97, 0] + zero by { NoWords(); }
    assert EntryBytes(b) == [98, 0] + zero by { NoWords(); }
    assert EntryBytes(c) == [97, 0, 0, 0, 0, 0, 0, 0, 0, 0, 98] + [0] + zero by { NoWords(); }
  }

  lemma ShortManifests(a: Entry, b: Entry)
    requires a.name != [] && b.name != [] && a.name[0] <= b.name[0]
    ensures Encode(SortEntries([a])) == EntryBytes(a)
    ensures a.name[0] < b.name[0] ==> Encode(SortEntries([a, b])) == EntryBytes(a) + EntryBytes(b)
  {
    hide EntryBytes, Sort, Encode;
    SortTwo(EntryLess, a, b);
    assert a.name[0] < b.name[0] ==> !EntryLess(b, a);
    EncodeShort(a, b);
    EncodeShort(b, a);
  }

  lemma EncodeShort(a: Entry, b: Entry)
    ensures Encode([a]) == EntryBytes(a) && Encode([a, b]) == EntryBytes(a) + Encode([b])
  {
    hide EntryBytes;
    var none: seq<Entry> := [];
    var end: bytes := [];
    assert [a, b][1..] == [b] && [a][1..] == none && Encode(none) == end;
    assert EntryBytes(a) + end == EntryBytes(a);
  }

  lemma NoWords()
    ensures Words([]) == []
  {}

  lemma ZeroWord()
    ensures Word(0) == [0, 0, 0, 0, 0, 0, 0, 0]
  {
    assert LittleEndianBytes(0, 2) == [0, 0];
    assert LittleEndianBytes(0, 4) == [0, 0, 0, 0];
    assert LittleEndianBytes(0, 6) == [0, 0, 0, 0, 0, 0];
  }
}
