/**
 * Generic operations on database tables, each table being a sequence of rows
 * kept in insertion (id) order. They stand for the handful of Prisma calls the
 * controllers use: `findUnique`/`findFirst` (IndexOf, Find), `findMany` with a
 * `where` (Filter), `orderBy: { … : "desc" }` (SortDesc), single-row `update`
 * (an index update) and `delete`/`deleteMany` (Filter on the complement).
 */
module Tables {

  datatype Option<+T> = None | Some(value: T) {
    /** The value, or `default` when there is none (JavaScript's `x ?? d`). */
    function GetOr(default: T): T {
      if Some? then value else default
    }
  }

  // ---------------------------------------------------------------------
  // Filtering (findMany with a where clause)
  // ---------------------------------------------------------------------

  /** The rows of `s` that satisfy `p`, in table order. */
  function Filter<T(!new)>(s: seq<T>, p: T -> bool): (r: seq<T>)
    ensures |r| <= |s|
    ensures forall x :: x in r <==> x in s && p(x)
    ensures multiset(r) <= multiset(s)
  {
    if s == [] then []
    else
      var rest := Filter(s[1..], p);
      assert s == [s[0]] + s[1..];
      if p(s[0]) then [s[0]] + rest else rest
  }

  /** `a` is `b` with some elements left out: the order of `a` is the order of `b`. */
  ghost predicate Subsequence<T>(a: seq<T>, b: seq<T>)
    decreases |b|
  {
    a == [] || (b != [] && ((a[0] == b[0] && Subsequence(a[1..], b[1..])) || Subsequence(a, b[1..])))
  }

  /** Filtering keeps the table order. */
  lemma {:induction false} FilterIsSubsequence<T(!new)>(s: seq<T>, p: T -> bool)
    ensures Subsequence(Filter(s, p), s)
  {
    if s != [] {
      FilterIsSubsequence(s[1..], p);
      var r := Filter(s, p);
      if p(s[0]) {
        assert r[0] == s[0] && r[1..] == Filter(s[1..], p);
      }
    }
  }

  /** Filtering keeps every selected row as often as the table holds it, and no other row. */
  lemma {:induction false} FilterCounts<T(!new)>(s: seq<T>, p: T -> bool)
    ensures forall x :: multiset(Filter(s, p))[x] == if p(x) then multiset(s)[x] else 0
  {
    if s != [] {
      FilterCounts(s[1..], p);
      assert s == [s[0]] + s[1..];
      assert multiset(s) == multiset{s[0]} + multiset(s[1..]);
    }
  }

  /** Concatenation associates. */
  lemma AppendAssociates<T>(x: seq<T>, y: seq<T>, z: seq<T>)
    ensures x + (y + z) == (x + y) + z
  {
  }

  /** A filter over a concatenation is the concatenation of the filters. */
  lemma {:induction false} FilterConcat<T(!new)>(a: seq<T>, b: seq<T>, p: T -> bool)
    ensures Filter(a + b, p) == Filter(a, p) + Filter(b, p)
  {
    if a != [] {
      var head := if p(a[0]) then [a[0]] else [];
      assert Filter(a + b, p) == head + Filter(a[1..] + b, p) by {
        assert a + b != [] && (a + b)[0] == a[0] && (a + b)[1..] == a[1..] + b;
      }
      assert Filter(a, p) == head + Filter(a[1..], p);
      FilterConcat(a[1..], b, p);
      AppendAssociates(head, Filter(a[1..], p), Filter(b, p));
    } else {
      assert a + b == b;
    }
  }

  // ---------------------------------------------------------------------
  // Lookup by a key (findUnique / findFirst)
  // ---------------------------------------------------------------------

  /** The position of the first row whose key is `k`. */
  function IndexOf<T, K(==)>(s: seq<T>, key: T -> K, k: K): (r: Option<nat>)
    ensures r.Some? ==> r.value < |s| && key(s[r.value]) == k
    ensures r.Some? ==> forall j :: 0 <= j < r.value ==> key(s[j]) != k
    ensures r.None? ==> forall j :: 0 <= j < |s| ==> key(s[j]) != k
  {
    if s == [] then None
    else if key(s[0]) == k then Some(0)
    else
      match IndexOf(s[1..], key, k)
      case None => None
      case Some(i) => Some(i + 1)
  }

  /** The first row whose key is `k`, if any. */
  function Find<T(!new), K(==)>(s: seq<T>, key: T -> K, k: K): (r: Option<T>)
    ensures r.Some? ==> r.value in s && key(r.value) == k
    ensures r.None? <==> forall x :: x in s ==> key(x) != k
  {
    match IndexOf(s, key, k)
    case None => None
    case Some(i) => Some(s[i])
  }

  /** Replacing a row by one with the same key does not move any lookup. */
  lemma IndexOfAfterSet<T(!new), K>(s: seq<T>, i: nat, x: T, key: T -> K, k: K)
    requires i < |s| && key(x) == key(s[i])
    ensures IndexOf(s[i := x], key, k) == IndexOf(s, key, k)
  {
    forall j | 0 <= j < |s| ensures key(s[i := x][j]) == key(s[j]) { }
  }

  /** After appending a row with a key not yet present, a lookup of that key finds it. */
  lemma FindAppended<T(!new), K>(s: seq<T>, x: T, key: T -> K)
    requires forall y :: y in s ==> key(y) != key(x)
    ensures IndexOf(s + [x], key, key(x)) == Some(|s|)
    ensures Find(s + [x], key, key(x)) == Some(x)
  {
    forall j | 0 <= j < |s| ensures key((s + [x])[j]) != key(x) {
      assert (s + [x])[j] == s[j] && s[j] in s;
    }
    assert (s + [x])[|s|] == x;
  }

  /** Appending a row never changes the lookup of a key already present. */
  lemma FindAfterAppend<T(!new), K>(s: seq<T>, x: T, key: T -> K, k: K)
    requires IndexOf(s, key, k).Some?
    ensures IndexOf(s + [x], key, k) == IndexOf(s, key, k)
  {
    forall j | 0 <= j < |s| ensures (s + [x])[j] == s[j] { }
  }

  // ---------------------------------------------------------------------
  // Row identity: autoincrement ids
  // ---------------------------------------------------------------------

  /** Keys strictly increase along the table. */
  ghost predicate KeysIncreasing<T>(s: seq<T>, key: T -> int) {
    forall i, j :: 0 <= i < j < |s| ==> key(s[i]) < key(s[j])
  }

  /** The table was filled by an autoincrement counter that now stands at `next`. */
  ghost predicate Numbered<T>(s: seq<T>, key: T -> int, next: int) {
    KeysIncreasing(s, key) && forall i :: 0 <= i < |s| ==> key(s[i]) < next
  }

  /** The tail of an increasing table is increasing. */
  lemma TailIncreasing<T>(s: seq<T>, key: T -> int)
    requires s != [] && KeysIncreasing(s, key)
    ensures KeysIncreasing(s[1..], key)
  {
    var rest := s[1..];
    forall i, j | 0 <= i < j < |rest| ensures key(rest[i]) < key(rest[j]) {
      assert rest[i] == s[i + 1] && rest[j] == s[j + 1];
    }
  }

  /** The first row of an increasing table has a smaller key than every later row. */
  lemma HeadBelowTail<T>(s: seq<T>, key: T -> int)
    requires s != [] && KeysIncreasing(s, key)
    ensures forall y :: y in s[1..] ==> key(s[0]) < key(y)
  {
    forall y | y in s[1..] ensures key(s[0]) < key(y) {
      var k :| 0 <= k < |s[1..]| && s[1..][k] == y;
      assert s[k + 1] == y;
    }
  }

  /** A row in front of an increasing table whose keys are all larger. */
  lemma ConsIncreasing<T>(x: T, t: seq<T>, key: T -> int)
    requires KeysIncreasing(t, key) && forall y :: y in t ==> key(x) < key(y)
    ensures KeysIncreasing([x] + t, key)
  {
    var r := [x] + t;
    forall i, j | 0 <= i < j < |r| ensures key(r[i]) < key(r[j]) {
      assert r[j] == t[j - 1] && r[j] in t;
      if i > 0 {
        assert r[i] == t[i - 1];
      }
    }
  }

  /** Deleting rows keeps the numbering. */
  lemma {:induction false} FilterKeepsIncreasing<T(!new)>(s: seq<T>, p: T -> bool, key: T -> int)
    requires KeysIncreasing(s, key)
    ensures KeysIncreasing(Filter(s, p), key)
  {
    if s != [] {
      TailIncreasing(s, key);
      HeadBelowTail(s, key);
      FilterKeepsIncreasing(s[1..], p, key);
      if p(s[0]) {
        ConsIncreasing(s[0], Filter(s[1..], p), key);
      }
    }
  }

  lemma FilterKeepsNumbered<T(!new)>(s: seq<T>, p: T -> bool, key: T -> int, next: int)
    requires Numbered(s, key, next)
    ensures Numbered(Filter(s, p), key, next)
  {
    FilterKeepsIncreasing(s, p, key);
    var r := Filter(s, p);
    forall i | 0 <= i < |r| ensures key(r[i]) < next {
      assert r[i] in s;
    }
  }

  /** A numbered table appended with a row that takes the counter stays numbered. */
  lemma AppendKeepsNumbered<T(!new)>(s: seq<T>, x: T, key: T -> int, next: int)
    requires Numbered(s, key, next) && key(x) == next
    ensures Numbered(s + [x], key, next + 1)
  {
  }

  /** Overwriting a row with one of the same key keeps the keys increasing. */
  lemma SetKeepsIncreasing<T(!new)>(s: seq<T>, i: nat, x: T, key: T -> int)
    requires i < |s| && key(x) == key(s[i]) && KeysIncreasing(s, key)
    ensures KeysIncreasing(s[i := x], key)
  {
  }

  /** Overwriting a row with one of the same key keeps the numbering. */
  lemma SetKeepsNumbered<T(!new)>(s: seq<T>, i: nat, x: T, key: T -> int, next: int)
    requires i < |s| && key(x) == key(s[i]) && Numbered(s, key, next)
    ensures Numbered(s[i := x], key, next)
  {
  }

  /** In an increasing table a key names at most one row. */
  lemma IncreasingKeysAreUnique<T(!new)>(s: seq<T>, key: T -> int, i: nat, j: nat)
    requires KeysIncreasing(s, key) && i < |s| && j < |s| && key(s[i]) == key(s[j])
    ensures i == j
  {
  }

  /** The rows of `s` selected by `p`, as a set. */
  ghost function Selected<T(!new)>(s: seq<T>, p: T -> bool): set<T> {
    set x | x in s && p(x)
  }

  lemma SelectedCons<T(!new)>(s: seq<T>, p: T -> bool)
    requires s != []
    ensures Selected(s, p) == (if p(s[0]) then {s[0]} else {}) + Selected(s[1..], p)
  {
    assert forall x :: x in s <==> x == s[0] || x in s[1..] by {
      assert s == [s[0]] + s[1..];
    }
  }

  /** Without duplicate rows a filter has as many rows as the set of rows it selects. */
  lemma {:induction false} FilterCountsDistinctRows<T(!new)>(s: seq<T>, p: T -> bool, key: T -> int)
    requires KeysIncreasing(s, key)
    ensures |Filter(s, p)| == |Selected(s, p)|
  {
    if s == [] {
      assert Selected(s, p) == {};
    } else {
      TailIncreasing(s, key);
      HeadBelowTail(s, key);
      FilterCountsDistinctRows(s[1..], p, key);
      SelectedCons(s, p);
      assert s[0] !in Selected(s[1..], p);
    }
  }

  /** A filter every row passes keeps the whole table. */
  lemma {:induction false} FilterKeepsAll<T(!new)>(s: seq<T>, p: T -> bool)
    requires forall x :: x in s ==> p(x)
    ensures Filter(s, p) == s
  {
    if s != [] {
      FilterKeepsAll(s[1..], p);
      assert s == [s[0]] + s[1..];
    }
  }

  /** `prisma.<table>.delete({ where: { id: k } })`: the table without the row whose key is `k`. */
  function WithoutKey<T(!new)>(s: seq<T>, key: T -> int, k: int): (r: seq<T>)
    ensures forall x :: x in r <==> x in s && key(x) != k
    ensures |r| <= |s|
  {
    Filter(s, (x: T) => key(x) != k)
  }

  /** In a table with distinct keys, deleting a present key removes exactly one row and keeps the order of the rest. */
  lemma {:induction false} WithoutKeyRemovesOne<T(!new)>(s: seq<T>, key: T -> int, k: int)
    requires KeysIncreasing(s, key) && IndexOf(s, key, k).Some?
    ensures |WithoutKey(s, key, k)| == |s| - 1
    ensures Subsequence(WithoutKey(s, key, k), s)
  {
    FilterIsSubsequence(s, (x: T) => key(x) != k);
    TailIncreasing(s, key);
    if key(s[0]) == k {
      HeadBelowTail(s, key);
      FilterKeepsAll(s[1..], (x: T) => key(x) != k);
    } else {
      WithoutKeyRemovesOne(s[1..], key, k);
    }
  }

  /** Deleting a key that is present in none of the rows changes nothing. */
  lemma WithoutAbsentKey<T(!new)>(s: seq<T>, key: T -> int, k: int)
    requires IndexOf(s, key, k).None?
    ensures WithoutKey(s, key, k) == s
  {
    FilterKeepsAll(s, (x: T) => key(x) != k);
  }

  // ---------------------------------------------------------------------
  // Uniqueness of a compound key (a table that never holds two rows with the same key)
  // ---------------------------------------------------------------------

  ghost predicate UniqueKeys<T, K>(s: seq<T>, key: T -> K) {
    forall i, j :: 0 <= i < j < |s| ==> key(s[i]) != key(s[j])
  }

  /** Appending a row whose key is absent keeps keys unique. */
  lemma AppendFreshKeepsUnique<T(!new), K>(s: seq<T>, x: T, key: T -> K)
    requires UniqueKeys(s, key) && IndexOf(s, key, key(x)).None?
    ensures UniqueKeys(s + [x], key)
  {
  }

  /** The tail of a table with unique keys has unique keys, none of them the head's. */
  lemma UniqueTail<T, K>(s: seq<T>, key: T -> K)
    requires s != [] && UniqueKeys(s, key)
    ensures UniqueKeys(s[1..], key)
    ensures forall y :: y in s[1..] ==> key(y) != key(s[0])
  {
    var t := s[1..];
    forall i, j | 0 <= i < j < |t| ensures key(t[i]) != key(t[j]) {
      assert t[i] == s[i + 1] && t[j] == s[j + 1];
    }
    forall y | y in t ensures key(y) != key(s[0]) {
      var m :| 0 <= m < |t| && t[m] == y;
      assert s[m + 1] == y;
    }
  }

  /** A row in front of a table with unique keys, none of them its own. */
  lemma ConsUnique<T, K>(x: T, t: seq<T>, key: T -> K)
    requires UniqueKeys(t, key) && forall y :: y in t ==> key(y) != key(x)
    ensures UniqueKeys([x] + t, key)
  {
    var r := [x] + t;
    forall i, j | 0 <= i < j < |r| ensures key(r[i]) != key(r[j]) {
      assert r[j] == t[j - 1] && r[j] in t;
      if i > 0 {
        assert r[i] == t[i - 1];
      }
    }
  }

  /** Deleting rows keeps keys unique. */
  lemma {:induction false} FilterKeepsUnique<T(!new), K>(s: seq<T>, p: T -> bool, key: T -> K)
    requires UniqueKeys(s, key)
    ensures UniqueKeys(Filter(s, p), key)
  {
    if s != [] {
      UniqueTail(s, key);
      FilterKeepsUnique(s[1..], p, key);
      if p(s[0]) {
        ConsUnique(s[0], Filter(s[1..], p), key);
      }
    }
  }

  /** Deleting a key keeps the numbering of the table and the uniqueness of any other key. */
  lemma WithoutKeyKeeps<T(!new), K>(s: seq<T>, key: T -> int, k: int, next: int, other: T -> K)
    ensures KeysIncreasing(s, key) ==> KeysIncreasing(WithoutKey(s, key, k), key)
    ensures Numbered(s, key, next) ==> Numbered(WithoutKey(s, key, k), key, next)
    ensures UniqueKeys(s, other) ==> UniqueKeys(WithoutKey(s, key, k), other)
  {
    if KeysIncreasing(s, key) {
      FilterKeepsIncreasing(s, (x: T) => key(x) != k, key);
    }
    if Numbered(s, key, next) {
      FilterKeepsNumbered(s, (x: T) => key(x) != k, key, next);
    }
    if UniqueKeys(s, other) {
      FilterKeepsUnique(s, (x: T) => key(x) != k, other);
    }
  }

  // ---------------------------------------------------------------------
  // Ordering (orderBy … desc)
  // ---------------------------------------------------------------------

  /** Keys do not increase along `s`: newest first when the key is a timestamp. */
  ghost predicate SortedDesc<T>(s: seq<T>, key: T -> int) {
    forall i, j :: 0 <= i < j < |s| ==> key(s[i]) >= key(s[j])
  }

  /** A row no smaller than every row of a sorted sequence may go in front of it. */
  lemma ConsSortedDesc<T>(h: T, rest: seq<T>, key: T -> int)
    requires SortedDesc(rest, key)
    requires forall y :: y in rest ==> key(h) >= key(y)
    ensures SortedDesc([h] + rest, key)
  {
    var s := [h] + rest;
    forall i, j | 0 <= i < j < |s| ensures key(s[i]) >= key(s[j]) {
      assert s[j] == rest[j - 1];
      if i > 0 {
        assert s[i] == rest[i - 1];
      } else {
        assert rest[j - 1] in rest;
      }
    }
  }

  /** Inserts `x` into a sequence already sorted by `key`, before the rows with an equal key. */
  function InsertDesc<T>(x: T, s: seq<T>, key: T -> int): (r: seq<T>)
    requires SortedDesc(s, key)
    ensures SortedDesc(r, key)
    ensures multiset(r) == multiset(s) + multiset{x}
  {
    if s == [] || key(x) >= key(s[0]) then
      [x] + s
    else
      var rest := InsertDesc(x, s[1..], key);
      assert s == [s[0]] + s[1..];
      assert SortedDesc([s[0]] + rest, key) by {
        forall y | y in rest ensures key(s[0]) >= key(y) {
          assert y in multiset(rest);
          if y != x {
            var j :| 0 <= j < |s[1..]| && s[1..][j] == y;
            assert s[j + 1] == y;
          }
        }
        ConsSortedDesc(s[0], rest, key);
      }
      [s[0]] + rest
  }

  /** The rows of `s` ordered by `key`, largest first (insertion sort). */
  function SortDesc<T(!new)>(s: seq<T>, key: T -> int): (r: seq<T>)
    ensures SortedDesc(r, key)
    ensures multiset(r) == multiset(s)
    ensures |r| == |s|
    ensures forall x :: x in r <==> x in s
  {
    if s == [] then []
    else
      assert s == [s[0]] + s[1..];
      var r := InsertDesc(s[0], SortDesc(s[1..], key), key);
      assert forall x :: x in r <==> x in multiset(r);
      assert |r| == |multiset(r)|;
      r
  }
}
