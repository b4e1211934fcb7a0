/** The single-key sort of the record list. The comparator of the source
    returns -1, 1 or 0 from `<` and `>` on the two field values, and the
    runtime's sort is stable; the sort here is a stable insertion sort on
    a strict total order of sort keys. */
module Sorting {
  import opened Policy
  import opened Seqs

  /** `a < b` on strings: lexicographic on characters, a proper prefix
      first. A Dafny `char` is a Unicode scalar value, so this is the order
      of code points, which is JavaScript's order of UTF-16 code units for
      text inside the Basic Multilingual Plane. */
  predicate LexLess(a: string, b: string)
    decreases |a|
  {
    if |b| == 0 then false
    else if |a| == 0 then true
    else if a[0] != b[0] then a[0] < b[0]
    else LexLess(a[1..], b[1..])
  }

  lemma {:induction false} LexIrreflexive(a: string)
    ensures !LexLess(a, a)
    decreases |a|
  {
    if |a| > 0 { LexIrreflexive(a[1..]); }
  }

  lemma {:induction false} LexTransitive(a: string, b: string, c: string)
    requires LexLess(a, b) && LexLess(b, c)
    ensures LexLess(a, c)
    decreases |a|
  {
    if |a| > 0 && a[0] == b[0] && b[0] == c[0] {
      LexTransitive(a[1..], b[1..], c[1..]);
    }
  }

  lemma {:induction false} LexTrichotomous(a: string, b: string)
    ensures a == b || LexLess(a, b) || LexLess(b, a)
    decreases |a|
  {
    if |a| > 0 && |b| > 0 && a[0] == b[0] {
      LexTrichotomous(a[1..], b[1..]);
      if a[1..] == b[1..] {
        assert a == [a[0]] + a[1..] && b == [b[0]] + b[1..];
      }
    }
  }

  /** The value a record is sorted by: numbers compare as numbers, text as
      text. In a mixed column JavaScript's `<` converts the text to a number
      (`490 < "1000"` holds) and leaves a number and non-numeric text
      unordered; here every number comes before every text. */
  datatype SortKey = KNum(n: int) | KText(s: string)

  function KeyOf(p: PolicyData, f: Field): (k: SortKey)
    ensures k.KNum? <==> Get(p, f).Amt? && Get(p, f).a.Num?
    ensures k.KNum? ==> k.n == Get(p, f).a.n
    ensures k.KText? ==> k.s == Show(Get(p, f))
  {
    match Get(p, f)
    case Amt(Num(n)) => KNum(n)
    case v => KText(Show(v))
  }

  /** `record => record[f]` as a sort key. */
  function FieldKey(f: Field): PolicyData -> SortKey {
    p => KeyOf(p, f)
  }

  predicate KeyLess(x: SortKey, y: SortKey): (b: bool)
    ensures x == y ==> !b
    ensures x.KNum? && y.KText? ==> b
  {
    match (x, y)
    case (KNum(m), KNum(n)) => m < n
    case (KNum(_), KText(_)) => true
    case (KText(_), KNum(_)) => false
    case (KText(s), KText(t)) => LexIrreflexive(s); LexLess(s, t)
  }

  lemma KeyLessTransitive(x: SortKey, y: SortKey, z: SortKey)
    requires KeyLess(x, y) && KeyLess(y, z)
    ensures KeyLess(x, z)
  {
    if x.KText? { LexTransitive(x.s, y.s, z.s); }
  }

  lemma KeyLessTrichotomous(x: SortKey, y: SortKey)
    ensures x == y || KeyLess(x, y) || KeyLess(y, x)
  {
    if x.KText? && y.KText? { LexTrichotomous(x.s, y.s); }
  }

  datatype Direction = Ascending | Descending

  /** The comparator returns a negative number for (a, b): `a` goes first. */
  predicate Before<T>(a: T, b: T, key: T -> SortKey, d: Direction): (r: bool)
    ensures a == b ==> !r
  {
    if d == Ascending then KeyLess(key(a), key(b)) else KeyLess(key(b), key(a))
  }

  lemma BeforeTransitive<T>(a: T, b: T, c: T, key: T -> SortKey, d: Direction)
    requires Before(a, b, key, d) && Before(b, c, key, d)
    ensures Before(a, c, key, d)
  {
    if d == Ascending {
      KeyLessTransitive(key(a), key(b), key(c));
    } else {
      KeyLessTransitive(key(c), key(b), key(a));
    }
  }

  /** No record is followed by one that the comparator puts strictly first. */
  predicate SortedBy<T>(s: seq<T>, key: T -> SortKey, d: Direction) {
    forall i, j :: 0 <= i < j < |s| ==> !Before(s[j], s[i], key, d)
  }

  lemma SortedTail<T>(s: seq<T>, key: T -> SortKey, d: Direction)
    requires SortedBy(s, key, d) && |s| > 0
    ensures SortedBy(s[1..], key, d)
  {
    forall i, j | 0 <= i < j < |s| - 1 ensures !Before(s[1..][j], s[1..][i], key, d) {
      assert s[1..][j] == s[j + 1] && s[1..][i] == s[i + 1];
    }
  }

  /** Inserts `x` before the first record it strictly precedes. */
  function Insert<T(==)>(x: T, s: seq<T>, key: T -> SortKey, d: Direction): (r: seq<T>)
    ensures multiset(r) == multiset(s) + multiset{x}
    ensures |r| == |s| + 1
  {
    if |s| == 0 then [x]
    else if Before(x, s[0], key, d) then [x] + s
    else
      assert s == [s[0]] + s[1..];
      [s[0]] + Insert(x, s[1..], key, d)
  }

  /** Inserting into a sorted sequence keeps it sorted. */
  lemma {:induction false} InsertSorted<T>(x: T, s: seq<T>, key: T -> SortKey, d: Direction)
    requires SortedBy(s, key, d)
    ensures SortedBy(Insert(x, s, key, d), key, d)
    decreases |s|
  {
    if |s| == 0 {
    } else if Before(x, s[0], key, d) {
      forall j | 0 <= j < |s| ensures !Before(s[j], x, key, d) {
        if Before(s[j], x, key, d) {
          BeforeTransitive(s[j], x, s[0], key, d);
        }
      }
      assert Insert(x, s, key, d) == [x] + s;
    } else {
      SortedTail(s, key, d);
      InsertSorted(x, s[1..], key, d);
      var rest := Insert(x, s[1..], key, d);
      assert s == [s[0]] + s[1..];
      forall m | 0 <= m < |rest| ensures !Before(rest[m], s[0], key, d) {
        assert rest[m] in multiset(rest);
        if rest[m] != x {
          assert rest[m] in multiset(s[1..]);
          var i :| 0 <= i < |s[1..]| && s[1..][i] == rest[m];
          assert s[i + 1] == rest[m];
        }
      }
      assert Insert(x, s, key, d) == [s[0]] + rest;
    }
  }

  /** `[...items].sort(comparator)`: a permutation of the input, ordered by
      the key in the requested direction. */
  function SortBy<T(==)>(s: seq<T>, key: T -> SortKey, d: Direction): (r: seq<T>)
    ensures multiset(r) == multiset(s)
    ensures |r| == |s|
    ensures SortedBy(r, key, d)
  {
    if |s| == 0 then []
    else
      assert s == s[..|s| - 1] + [s[|s| - 1]];
      var sortedInit := SortBy(s[..|s| - 1], key, d);
      InsertSorted(s[|s| - 1], sortedInit, key, d);
      Insert(s[|s| - 1], sortedInit, key, d)
  }

  /** Ascending order is non-decreasing by key; descending is non-increasing. */
  lemma SortedMeansMonotone<T>(s: seq<T>, key: T -> SortKey, d: Direction, i: nat, j: nat)
    requires SortedBy(s, key, d) && i < j < |s|
    ensures d == Ascending ==> key(s[i]) == key(s[j]) || KeyLess(key(s[i]), key(s[j]))
    ensures d == Descending ==> key(s[i]) == key(s[j]) || KeyLess(key(s[j]), key(s[i]))
  {
    KeyLessTrichotomous(key(s[i]), key(s[j]));
  }

  /** The records whose key equals `k`. */
  function KeyIs<T>(key: T -> SortKey, k: SortKey): T -> bool {
    p => key(p) == k
  }

  /** Insertion keeps the records of every key in their previous order and
      puts the new record after those with its key. */
  lemma {:induction false} InsertStable<T>(x: T, s: seq<T>, key: T -> SortKey, d: Direction, k: SortKey)
    requires SortedBy(s, key, d)
    ensures Filter(Insert(x, s, key, d), KeyIs(key, k)) ==
      Filter(s, KeyIs(key, k)) + (if key(x) == k then [x] else [])
    decreases |s|
  {
    if |s| == 0 {
    } else if Before(x, s[0], key, d) {
      InsertAtFrontStable(x, s, key, d, k);
    } else {
      SortedTail(s, key, d);
      InsertStable(x, s[1..], key, d, k);
      InsertFurtherStable(x, s, key, d, k);
    }
  }

  lemma InsertAtFrontStable<T>(x: T, s: seq<T>, key: T -> SortKey, d: Direction, k: SortKey)
    requires SortedBy(s, key, d) && |s| > 0 && Before(x, s[0], key, d)
    ensures Filter([x] + s, KeyIs(key, k)) == Filter(s, KeyIs(key, k)) + (if key(x) == k then [x] else [])
  {
    var keep := KeyIs(key, k);
    assert ([x] + s)[1..] == s;
    if key(x) == k {
      assert forall j :: 0 <= j < |s| ==> !keep(s[j]);
      FilterNone(s, keep);
    }
  }

  lemma InsertFurtherStable<T>(x: T, s: seq<T>, key: T -> SortKey, d: Direction, k: SortKey)
    requires SortedBy(s, key, d) && |s| > 0 && !Before(x, s[0], key, d)
    requires Filter(Insert(x, s[1..], key, d), KeyIs(key, k)) ==
      Filter(s[1..], KeyIs(key, k)) + (if key(x) == k then [x] else [])
    ensures Filter(Insert(x, s, key, d), KeyIs(key, k)) ==
      Filter(s, KeyIs(key, k)) + (if key(x) == k then [x] else [])
  {
    var keep := KeyIs(key, k);
    var rest := Insert(x, s[1..], key, d);
    var extra := if key(x) == k then [x] else [];
    InsertPastHead(x, s, key, d);
    FilterPrepend(s[0], rest, s[1..], extra, keep);
    assert [s[0]] + s[1..] == s;
  }

  lemma InsertPastHead<T>(x: T, s: seq<T>, key: T -> SortKey, d: Direction)
    requires |s| > 0 && !Before(x, s[0], key, d)
    ensures Insert(x, s, key, d) == [s[0]] + Insert(x, s[1..], key, d)
  {
  }

  /** The sort is stable: records with equal keys keep their input order. */
  lemma {:induction false} SortStable<T>(s: seq<T>, key: T -> SortKey, d: Direction, k: SortKey)
    ensures Filter(SortBy(s, key, d), KeyIs(key, k)) == Filter(s, KeyIs(key, k))
    decreases |s|
  {
    if |s| > 0 {
      var init := s[..|s| - 1];
      var x := s[|s| - 1];
      var keep := KeyIs(key, k);
      assert init + [x] == s;
      var sortedInit := SortBy(init, key, d);
      assert SortBy(s, key, d) == Insert(x, sortedInit, key, d);
      SortStable(init, key, d, k);
      InsertStable(x, sortedInit, key, d, k);
      FilterAppend(init, [x], keep);
      assert Filter([x], keep) == if key(x) == k then [x] else [];
    }
  }
}
