/** Python's sorted(): stable, by an order on the elements; and the lexicographic order of texts and bytes. */
module Sorting {
  /** Inserts x behind everything that is less than it. */
  function Insert<T>(less: (T, T) -> bool, x: T, s: seq<T>): seq<T> {
    if s == [] then [x]
    else if less(s[0], x) then [s[0]] + Insert(less, x, s[1..])
    else [x] + s
  }

  function Sort<T>(less: (T, T) -> bool, s: seq<T>): seq<T> {
    if s == [] then [] else Insert(less, s[0], Sort(less, s[1..]))
  }

  lemma {:induction false} InsertMultiset<T>(less: (T, T) -> bool, x: T, s: seq<T>)
    ensures multiset(Insert(less, x, s)) == multiset{x} + multiset(s)
  {
    if s == [] {
    } else if less(s[0], x) {
      InsertMultiset(less, x, s[1..]);
      assert s == [s[0]] + s[1..];
    }
  }

  lemma {:induction false} SortIsPermutation<T>(less: (T, T) -> bool, s: seq<T>)
    ensures multiset(Sort(less, s)) == multiset(s)
  {
    if s == [] {
    } else {
      SortIsPermutation(less, s[1..]);
      InsertMultiset(less, s[0], Sort(less, s[1..]));
      assert s == [s[0]] + s[1..];
    }
  }

  /** What holds of every element still does once they are inserted or sorted. */
  lemma InsertMembers<T>(less: (T, T) -> bool, x: T, s: seq<T>)
    ensures forall y | y in Insert(less, x, s) :: y == x || y in s
  {
    InsertMultiset(less, x, s);
    forall y | y in Insert(less, x, s) ensures y == x || y in s {
      assert y in multiset(Insert(less, x, s));
    }
  }

  lemma SortMembers<T>(less: (T, T) -> bool, s: seq<T>)
    ensures forall y :: y in Sort(less, s) <==> y in s
  {
    SortIsPermutation(less, s);
    forall y ensures y in Sort(less, s) <==> y in s {
      assert y in multiset(Sort(less, s)) <==> y in multiset(s);
    }
  }

  lemma SortTwo<T>(less: (T, T) -> bool, x: T, y: T)
    ensures Sort(less, [x]) == [x]
    ensures Sort(less, [x, y]) == if less(y, x) then [y, x] else [x, y]
  {
    assert [y][1..] == [] && [x][1..] == [] && [x, y][1..] == [y];
    assert Sort(less, [y]) == Insert(less, y, []) == [y];
    assert Sort(less, [x]) == Insert(less, x, []) == [x];
    assert Insert(less, x, []) == [x];
  }

  // ---------------------------------------------------------------------------
  // Lexicographic order
  // ---------------------------------------------------------------------------

  predicate LexLess<T(==)>(less: (T, T) -> bool, a: seq<T>, b: seq<T>) {
    if b == [] then false
    else if a == [] then true
    else less(a[0], b[0]) || (a[0] == b[0] && LexLess(less, a[1..], b[1..]))
  }

  /** One is less than the other when it stops, or has the lesser element, where they first differ. */
  lemma {:induction false} LexExact<T>(less: (T, T) -> bool, a: seq<T>, b: seq<T>)
    requires forall x :: !less(x, x)
    ensures LexLess(less, a, b) <==>
              exists k: nat :: k < |b| && k <= |a| && a[..k] == b[..k] && (k == |a| || less(a[k], b[k]))
  {
    if a == [] || b == [] {
      if b != [] { assert a[..0] == b[..0]; }
    } else {
      LexExact(less, a[1..], b[1..]);
      if k: nat :| k < |b| && k <= |a| && a[..k] == b[..k] && (k == |a| || less(a[k], b[k])) {
        if k > 0 {
          assert a[..k][0] == b[..k][0] && a[1..][..k - 1] == a[..k][1..] == b[..k][1..] == b[1..][..k - 1];
        }
      }
      if a[0] == b[0] && LexLess(less, a[1..], b[1..]) {
        var k: nat :| k < |b[1..]| && k <= |a[1..]| && a[1..][..k] == b[1..][..k]
                      && (k == |a[1..]| || less(a[1..][k], b[1..][k]));
        assert a[..k + 1] == [a[0]] + a[1..][..k] == [b[0]] + b[1..][..k] == b[..k + 1];
      } else if less(a[0], b[0]) {
        assert a[..0] == b[..0];
      }
    }
  }

  ghost predicate TotalOrder<T(!new)>(less: (T, T) -> bool) {
    && (forall x :: !less(x, x))
    && (forall x, y | x != y :: less(x, y) != less(y, x))
    && (forall x, y, z | less(x, y) && less(y, z) :: less(x, z))
  }

  lemma {:induction false} LexTotal<T(!new)>(less: (T, T) -> bool, a: seq<T>, b: seq<T>)
    requires TotalOrder(less)
    ensures a != b ==> LexLess(less, a, b) != LexLess(less, b, a)
    ensures a == b ==> !LexLess(less, a, b)
  {
    if a == [] || b == [] {
    } else {
      LexTotal(less, a[1..], b[1..]);
      assert a == [a[0]] + a[1..] && b == [b[0]] + b[1..];
    }
  }

  lemma {:induction false} LexTransitive<T(!new)>(less: (T, T) -> bool, a: seq<T>, b: seq<T>, c: seq<T>)
    requires TotalOrder(less) && LexLess(less, a, b) && LexLess(less, b, c)
    ensures LexLess(less, a, c)
  {
    if a == [] {
    } else if a[0] == b[0] == c[0] {
      LexTransitive(less, a[1..], b[1..], c[1..]);
    }
  }

  predicate CharLess(x: char, y: char) {
    x < y
  }

  predicate TextLess(a: string, b: string) {
    LexLess(CharLess, a, b)
  }

  /** Texts are ordered by the code points where they first differ. */
  lemma TextLessExact(a: string, b: string)
    ensures TextLess(a, b) <==>
              exists k: nat :: k < |b| && k <= |a| && a[..k] == b[..k] && (k == |a| || a[k] < b[k])
  {
    LexExact(CharLess, a, b);
  }

  // ---------------------------------------------------------------------------
  // Pairs led by a text
  // ---------------------------------------------------------------------------

  predicate NameBefore<T>(a: (string, T), b: (string, T)) {
    TextLess(a.0, b.0)
  }

  function SortByName<T>(s: seq<(string, T)>): seq<(string, T)> {
    Sort(NameBefore<T>, s)
  }

  lemma SortByNameMembers<T>(s: seq<(string, T)>)
    ensures multiset(SortByName(s)) == multiset(s)
    ensures forall i | 0 <= i < |SortByName(s)| :: SortByName(s)[i] in s
  {
    hide Sort;
    SortIsPermutation(NameBefore<T>, s);
    forall i | 0 <= i < |SortByName(s)| ensures SortByName(s)[i] in s {
      assert SortByName(s)[i] in multiset(SortByName(s));
      assert SortByName(s)[i] in multiset(s);
    }
  }

  /** No name comes before one that sorts ahead of it. */
  ghost predicate NamesAscend<T>(s: seq<(string, T)>) {
    forall i, j | 0 <= i < j < |s| :: !TextLess(s[j].0, s[i].0)
  }

  lemma TextOrder(a: string, b: string, c: string)
    ensures !TextLess(a, b) && !TextLess(b, c) ==> !TextLess(a, c)
    ensures TextLess(a, b) ==> !TextLess(b, a)
  {
    CharOrder();
    LexTotal(CharLess, a, b);
    LexTotal(CharLess, b, c);
    LexTotal(CharLess, a, c);
    if TextLess(c, b) && TextLess(b, a) { LexTransitive(CharLess, c, b, a); LexTotal(CharLess, a, c); }
  }

  lemma CharOrder()
    ensures TotalOrder(CharLess)
  {}

  lemma {:induction false} InsertAscends<T>(x: (string, T), s: seq<(string, T)>)
    requires NamesAscend(s)
    ensures NamesAscend(Insert(NameBefore<T>, x, s))
  {
    hide TextLess;
    var r := Insert(NameBefore<T>, x, s);
    if s == [] {
    } else if NameBefore(s[0], x) {
      var rest := Insert(NameBefore<T>, x, s[1..]);
      InsertAscends(x, s[1..]);
      InsertMembers(NameBefore<T>, x, s[1..]);
      forall j | 0 <= j < |rest| ensures !TextLess(rest[j].0, s[0].0) {
        assert rest[j] in rest;
        TextOrder(s[0].0, x.0, x.0);
        if rest[j] != x {
          var k :| 0 <= k < |s[1..]| && s[1..][k] == rest[j];
          assert s[k + 1] == rest[j];
        }
      }
      forall i, j | 0 <= i < j < |r| ensures !TextLess(r[j].0, r[i].0) {
        if i == 0 { assert r[j] == rest[j - 1]; } else { assert r[i] == rest[i - 1] && r[j] == rest[j - 1]; }
      }
    } else {
      forall i, j | 0 <= i < j < |r| ensures !TextLess(r[j].0, r[i].0) {
        if i == 0 {
          if j > 1 { TextOrder(r[j].0, s[0].0, x.0); assert r[j] == s[j - 1]; }
        } else {
          assert r[i] == s[i - 1] && r[j] == s[j - 1];
        }
      }
    }
  }

  lemma {:induction false} SortAscends<T>(s: seq<(string, T)>)
    ensures NamesAscend(SortByName(s))
  {
    if s == [] {
    } else {
      SortAscends(s[1..]);
      InsertAscends(s[0], SortByName(s[1..]));
    }
  }
}
