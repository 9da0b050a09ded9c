/** Total orders, the sorting that planless leaves to its standard library, and keyed
    tables: sequences whose elements are looked up by a key. */
module Order {

  ghost predicate TotalOrder<K(!new)>(le: (K, K) -> bool) {
    && (forall a, b :: le(a, b) || le(b, a))
    && (forall a, b :: le(a, b) && le(b, a) ==> a == b)
    && (forall a, b, c :: le(a, b) && le(b, c) ==> le(a, c))
  }

  /** Strings compare code point by code point, as byte-wise comparison of UTF-8 does. */
  predicate StringLe(a: string, b: string) {
    a == "" || (b != "" && (a[0] < b[0] || (a[0] == b[0] && StringLe(a[1..], b[1..]))))
  }

  predicate PairLe(a: (string, string), b: (string, string)) {
    if a.0 != b.0 then StringLe(a.0, b.0) else StringLe(a.1, b.1)
  }

  predicate IntLe(a: int, b: int) { a <= b }

  /** The order of texts, without its recursion: one begins with the other, or they part at a
      place where the smaller character decides. */
  lemma {:induction false} StringLeMeaning(a: string, b: string)
    ensures StringLe(a, b) <==> a <= b || exists i :: PartsAt(a, b, i) && a[i] < b[i]
  {
    if a != "" && b != "" && a[0] == b[0] {
      StringLeMeaning(a[1..], b[1..]);
      assert a == [a[0]] + a[1..] && b == [b[0]] + b[1..];
      if i :| PartsAt(a[1..], b[1..], i) && a[1..][i] < b[1..][i] {
        forall j | 0 <= j < i + 1 ensures a[j] == b[j] { if j > 0 { assert a[1..][j - 1] == b[1..][j - 1]; } }
        assert PartsAt(a, b, i + 1);
      }
      if i :| PartsAt(a, b, i) && a[i] < b[i] {
        assert PartsAt(a[1..], b[1..], i - 1) && a[1..][i - 1] < b[1..][i - 1];
      }
      assert a <= b <==> a[1..] <= b[1..];
    } else if a != "" && b != "" && a[0] < b[0] {
      assert PartsAt(a, b, 0);
    }
  }

  ghost predicate PartsAt(a: string, b: string, i: int) {
    0 <= i < |a| && i < |b| && a[i] != b[i] && forall j :: 0 <= j < i ==> a[j] == b[j]
  }

  lemma StringLeAntisymmetric(a: string, b: string)
    requires StringLe(a, b) && StringLe(b, a)
    ensures a == b
  {
    if a != "" {
      StringLeAntisymmetric(a[1..], b[1..]);
      assert a == [a[0]] + a[1..] && b == [b[0]] + b[1..];
    }
  }

  lemma StringLeTransitive(a: string, b: string, c: string)
    requires StringLe(a, b) && StringLe(b, c)
    ensures StringLe(a, c)
  {
    if a != "" && a[0] == b[0] && b[0] == c[0] {
      StringLeTransitive(a[1..], b[1..], c[1..]);
    }
  }

  lemma StringLeTotal(a: string, b: string)
    ensures StringLe(a, b) || StringLe(b, a)
  {
    if a != "" && b != "" && a[0] == b[0] {
      StringLeTotal(a[1..], b[1..]);
    }
  }

  lemma StringOrder()
    ensures TotalOrder(StringLe)
  {
    forall a, b ensures StringLe(a, b) || StringLe(b, a) { StringLeTotal(a, b); }
    forall a, b | StringLe(a, b) && StringLe(b, a) ensures a == b { StringLeAntisymmetric(a, b); }
    forall a, b, c | StringLe(a, b) && StringLe(b, c) ensures StringLe(a, c) { StringLeTransitive(a, b, c); }
  }

  lemma PairOrder()
    ensures TotalOrder(PairLe)
  {
    StringOrder();
    forall a, b ensures PairLe(a, b) || PairLe(b, a) {
      StringLeTotal(a.0, b.0);
      StringLeTotal(a.1, b.1);
    }
    forall a, b | PairLe(a, b) && PairLe(b, a) ensures a == b {
      if a.0 != b.0 { StringLeAntisymmetric(a.0, b.0); } else { StringLeAntisymmetric(a.1, b.1); }
    }
    forall a, b, c | PairLe(a, b) && PairLe(b, c) ensures PairLe(a, c) {
      if a.0 != b.0 && b.0 != c.0 {
        StringLeTransitive(a.0, b.0, c.0);
        if a.0 == c.0 { StringLeAntisymmetric(a.0, b.0); }
      } else if a.0 == b.0 == c.0 {
        StringLeTransitive(a.1, b.1, c.1);
      }
    }
  }

  // ---- Sorting by a key --------------------------------------------------------------

  ghost predicate Sorted<T(!new), K(!new)>(s: seq<T>, key: T -> K, le: (K, K) -> bool) {
    forall i, j :: 0 <= i < j < |s| ==> le(key(s[i]), key(s[j]))
  }

  function Insert<T, K>(x: T, s: seq<T>, key: T -> K, le: (K, K) -> bool): seq<T> {
    if s == [] || le(key(x), key(s[0])) then [x] + s
    else [s[0]] + Insert(x, s[1..], key, le)
  }

  /** The stable sort of a sequence: the result of the library sort wherever elements
      with equal keys are equal, and one admissible result of it otherwise. */
  function Sort<T, K>(s: seq<T>, key: T -> K, le: (K, K) -> bool): seq<T> {
    if s == [] then [] else Insert(s[0], Sort(s[1..], key, le), key, le)
  }

  lemma InsertPermutes<T, K>(x: T, s: seq<T>, key: T -> K, le: (K, K) -> bool)
    ensures multiset(Insert(x, s, key, le)) == multiset([x] + s)
  {
    if s == [] || le(key(x), key(s[0])) {
    } else {
      InsertPermutes(x, s[1..], key, le);
      assert s == [s[0]] + s[1..];
    }
  }

  lemma {:induction false} SortPermutes<T, K>(s: seq<T>, key: T -> K, le: (K, K) -> bool)
    ensures multiset(Sort(s, key, le)) == multiset(s)
    ensures |Sort(s, key, le)| == |s|
  {
    if s != [] {
      SortPermutes(s[1..], key, le);
      InsertPermutes(s[0], Sort(s[1..], key, le), key, le);
      assert s == [s[0]] + s[1..];
    }
    assert |Sort(s, key, le)| == |multiset(Sort(s, key, le))| == |multiset(s)| == |s|;
  }

  lemma {:induction false} InsertSorted<T(!new), K(!new)>(x: T, s: seq<T>, key: T -> K, le: (K, K) -> bool)
    requires TotalOrder(le) && Sorted(s, key, le)
    ensures Sorted(Insert(x, s, key, le), key, le)
  {
    if s == [] || le(key(x), key(s[0])) {
    } else {
      var t := Insert(x, s[1..], key, le);
      InsertSorted(x, s[1..], key, le);
      InsertPermutes(x, s[1..], key, le);
      forall y | y in t ensures le(key(s[0]), key(y)) {
        assert y in multiset(t) && y in multiset([x] + s[1..]);
        assert y == x || y in s[1..];
      }
    }
  }

  lemma {:induction false} SortSorted<T(!new), K(!new)>(s: seq<T>, key: T -> K, le: (K, K) -> bool)
    requires TotalOrder(le)
    ensures Sorted(Sort(s, key, le), key, le)
  {
    if s != [] {
      SortSorted(s[1..], key, le);
      InsertSorted(s[0], Sort(s[1..], key, le), key, le);
    }
  }

  lemma SortKeepsMembers<T, K>(s: seq<T>, key: T -> K, le: (K, K) -> bool)
    ensures forall x :: x in Sort(s, key, le) <==> x in s
  {
    SortPermutes(s, key, le);
    assert forall x :: x in Sort(s, key, le) <==> x in multiset(Sort(s, key, le));
    assert forall x :: x in s <==> x in multiset(s);
  }

  lemma {:induction false} SortFixpoint<T(!new), K(!new)>(s: seq<T>, key: T -> K, le: (K, K) -> bool)
    requires TotalOrder(le) && Sorted(s, key, le)
    ensures Sort(s, key, le) == s
  {
    if s != [] {
      SortFixpoint(s[1..], key, le);
      assert s == [s[0]] + s[1..];
    }
  }

  // ---- Tables: sequences with unique keys ---------------------------------------------

  ghost predicate Unique<T(!new), K>(s: seq<T>, key: T -> K) {
    forall i, j :: 0 <= i < j < |s| ==> key(s[i]) != key(s[j])
  }

  /** The finite map a table denotes. */
  ghost function AsMap<T, K>(s: seq<T>, key: T -> K): map<K, T> {
    if s == [] then map[] else AsMap(s[1..], key)[key(s[0]) := s[0]]
  }

  lemma {:induction false} AsMapEntries<T(!new), K(!new)>(s: seq<T>, key: T -> K)
    requires Unique(s, key)
    ensures forall k :: k in AsMap(s, key) <==> exists i :: 0 <= i < |s| && key(s[i]) == k
    ensures forall x :: x in s ==> key(x) in AsMap(s, key) && AsMap(s, key)[key(x)] == x
    ensures forall k :: k in AsMap(s, key) ==> AsMap(s, key)[k] in s && key(AsMap(s, key)[k]) == k
  {
    if s != [] {
      var t := s[1..];
      AsMapEntries(t, key);
      assert s == [s[0]] + t;
      forall k ensures k in AsMap(s, key) <==> exists i :: 0 <= i < |s| && key(s[i]) == k {
        if k in AsMap(t, key) {
          var i :| 0 <= i < |t| && key(t[i]) == k;
          assert s[i + 1] == t[i];
        }
        if i :| 0 <= i < |s| && key(s[i]) == k {
          assert i > 0 ==> t[i - 1] == s[i];
        }
      }
    }
  }

  /** Two sorted tables that denote the same map are the same sequence. */
  lemma {:induction false} TableCanonical<T(!new), K(!new)>(a: seq<T>, b: seq<T>, key: T -> K, le: (K, K) -> bool)
    requires TotalOrder(le)
    requires Sorted(a, key, le) && Sorted(b, key, le) && Unique(a, key) && Unique(b, key)
    requires AsMap(a, key) == AsMap(b, key)
    ensures a == b
  {
    AsMapEntries(a, key);
    AsMapEntries(b, key);
    SameMembersCanonical(a, b, key, le);
  }

  lemma {:induction false} SameMembersCanonical<T(!new), K(!new)>(a: seq<T>, b: seq<T>, key: T -> K, le: (K, K) -> bool)
    requires TotalOrder(le)
    requires Sorted(a, key, le) && Sorted(b, key, le) && Unique(a, key) && Unique(b, key)
    requires forall x :: x in a <==> x in b
    ensures a == b
  {
    if a != [] { assert a[0] in b; }
    if b != [] { assert b[0] in a; }
    if a != [] {
      assert le(key(a[0]), key(b[0])) && le(key(b[0]), key(a[0]));
      assert a[0] == b[0];
      var a', b' := a[1..], b[1..];
      assert a == [a[0]] + a' && b == [b[0]] + b';
      assert a[0] !in a' && b[0] !in b';
      forall x ensures x in a' <==> x in b' {
        assert x in a <==> x == a[0] || x in a';
        assert x in b <==> x == b[0] || x in b';
      }
      SameMembersCanonical(a', b', key, le);
    }
  }

  lemma UniqueFromMultiset<T(!new), K(!new)>(a: seq<T>, b: seq<T>, key: T -> K)
    requires Unique(a, key) && multiset(a) == multiset(b)
    ensures Unique(b, key)
  {
    forall i, j | 0 <= i < j < |b| ensures key(b[i]) != key(b[j]) {
      if key(b[i]) == key(b[j]) {
        assert b[i] in multiset(b) && b[j] in multiset(b);
        var p :| 0 <= p < |a| && a[p] == b[i];
        var q :| 0 <= q < |a| && a[q] == b[j];
        assert p == q;
        MultiplicityAtLeastTwo(b, i, j);
        MultiplicityOfUnique(a, key, p);
      }
    }
  }

  lemma MultiplicityAtLeastTwo<T>(s: seq<T>, i: nat, j: nat)
    requires i < j < |s| && s[i] == s[j]
    ensures multiset(s)[s[i]] >= 2
  {
    assert s == s[..i] + [s[i]] + s[i + 1..j] + [s[j]] + s[j + 1..];
  }

  lemma MultiplicityOfUnique<T(!new), K(!new)>(s: seq<T>, key: T -> K, p: nat)
    requires Unique(s, key) && p < |s|
    ensures multiset(s)[s[p]] == 1
  {
    assert s == s[..p] + [s[p]] + s[p + 1..];
    assert s[p] !in s[..p] && s[p] !in s[p + 1..];
  }

  lemma SortKeepsTable<T(!new), K(!new)>(s: seq<T>, key: T -> K, le: (K, K) -> bool)
    requires TotalOrder(le) && Unique(s, key)
    ensures Unique(Sort(s, key, le), key) && Sorted(Sort(s, key, le), key, le)
    ensures AsMap(Sort(s, key, le), key) == AsMap(s, key)
  {
    var t := Sort(s, key, le);
    SortPermutes(s, key, le);
    SortSorted(s, key, le);
    UniqueFromMultiset(s, t, key);
    SortKeepsMembers(s, key, le);
    SameMembersSameMap(s, t, key);
  }

  lemma SameMembersSameMap<T(!new), K(!new)>(s: seq<T>, t: seq<T>, key: T -> K)
    requires Unique(s, key) && Unique(t, key)
    requires forall x :: x in s <==> x in t
    ensures AsMap(s, key) == AsMap(t, key)
  {
    AsMapEntries(s, key);
    AsMapEntries(t, key);
    forall k ensures k in AsMap(s, key) <==> k in AsMap(t, key) {
      if k in AsMap(s, key) { assert AsMap(s, key)[k] in t; }
      if k in AsMap(t, key) { assert AsMap(t, key)[k] in s; }
    }
    forall k | k in AsMap(s, key) ensures AsMap(s, key)[k] == AsMap(t, key)[k] {
      assert AsMap(s, key)[k] in t;
    }
  }

  /** Replace the first element with v's key, or append v. */
  function Upserted<T, K(==)>(s: seq<T>, v: T, key: T -> K): seq<T> {
    if s == [] then [v]
    else if key(s[0]) == key(v) then [v] + s[1..]
    else [s[0]] + Upserted(s[1..], v, key)
  }

  function Without<T, K(==)>(s: seq<T>, k: K, key: T -> K): seq<T> {
    if s == [] then []
    else if key(s[0]) == k then Without(s[1..], k, key)
    else [s[0]] + Without(s[1..], k, key)
  }

  lemma ConsUnique<T(!new), K>(x: T, s: seq<T>, key: T -> K)
    requires Unique(s, key) && forall y :: y in s ==> key(y) != key(x)
    ensures Unique([x] + s, key)
  {
    forall i, j | 0 <= i < j < |[x] + s| ensures key(([x] + s)[i]) != key(([x] + s)[j]) {
      assert s[j - 1] in s;
    }
  }

  lemma {:induction false} UpsertedMembers<T(!new), K(!new)>(s: seq<T>, v: T, key: T -> K)
    requires Unique(s, key)
    ensures Unique(Upserted(s, v, key), key)
    ensures forall x :: x in Upserted(s, v, key) <==> x == v || (x in s && key(x) != key(v))
  {
    if s != [] && key(s[0]) != key(v) {
      UpsertedMembers(s[1..], v, key);
      assert s == [s[0]] + s[1..];
      ConsUnique(s[0], Upserted(s[1..], v, key), key);
    } else if s != [] {
      assert s == [s[0]] + s[1..];
      ConsUnique(v, s[1..], key);
    }
  }

  lemma {:induction false} UpsertedHas<T, K>(s: seq<T>, v: T, key: T -> K)
    ensures v in Upserted(s, v, key)
  {
    if s != [] { UpsertedHas(s[1..], v, key); }
  }

  lemma {:induction false} WithoutMembers<T(!new), K(!new)>(s: seq<T>, k: K, key: T -> K)
    ensures forall x :: x in Without(s, k, key) <==> x in s && key(x) != k
    ensures Unique(s, key) ==> Unique(Without(s, k, key), key)
  {
    if s != [] {
      WithoutMembers(s[1..], k, key);
      assert s == [s[0]] + s[1..];
      if Unique(s, key) && key(s[0]) != k {
        ConsUnique(s[0], Without(s[1..], k, key), key);
      }
    }
  }

  lemma {:induction false} WithoutKeepsOrder<T(!new), K(!new)>(s: seq<T>, k: K, key: T -> K, le: (K, K) -> bool)
    requires Sorted(s, key, le)
    ensures Sorted(Without(s, k, key), key, le)
    ensures |Without(s, k, key)| <= |s|
    ensures |Without(s, k, key)| == |s| <==> forall x :: x in s ==> key(x) != k
  {
    if s != [] {
      WithoutKeepsOrder(s[1..], k, key, le);
      WithoutMembers(s[1..], k, key);
      assert s == [s[0]] + s[1..];
      var u := Without(s[1..], k, key);
      forall x | x in u ensures le(key(s[0]), key(x)) { assert x in s[1..]; }
    }
  }

  lemma UpsertedMap<T(!new), K(!new)>(s: seq<T>, v: T, key: T -> K)
    requires Unique(s, key)
    ensures Unique(Upserted(s, v, key), key)
    ensures AsMap(Upserted(s, v, key), key) == AsMap(s, key)[key(v) := v]
  {
    var u := Upserted(s, v, key);
    UpsertedMembers(s, v, key);
    AsMapEntries(s, key);
    AsMapEntries(u, key);
    forall k ensures k in AsMap(u, key) <==> k in AsMap(s, key)[key(v) := v] {
      if k in AsMap(u, key) { assert AsMap(u, key)[k] in u; }
      if k in AsMap(s, key) && k != key(v) { assert AsMap(s, key)[k] in u; }
      assert v in u;
    }
    forall k | k in AsMap(u, key) ensures AsMap(u, key)[k] == AsMap(s, key)[key(v) := v][k] {
      assert AsMap(u, key)[k] in u;
    }
  }

  lemma WithoutMap<T(!new), K(!new)>(s: seq<T>, k: K, key: T -> K)
    requires Unique(s, key)
    ensures Unique(Without(s, k, key), key)
    ensures AsMap(Without(s, k, key), key) == AsMap(s, key) - {k}
  {
    var u := Without(s, k, key);
    WithoutMembers(s, k, key);
    AsMapEntries(s, key);
    AsMapEntries(u, key);
    forall j ensures j in AsMap(u, key) <==> j in AsMap(s, key) - {k} {
      if j in AsMap(u, key) { assert AsMap(u, key)[j] in u; }
      if j in AsMap(s, key) && j != k { assert AsMap(s, key)[j] in u; }
    }
    forall j | j in AsMap(u, key) ensures AsMap(u, key)[j] == AsMap(s, key)[j] {
      assert AsMap(u, key)[j] in u;
    }
  }

  // ---- Sorted lists of string sets ----------------------------------------------------

  function Identity(s: string): string { s }

  ghost function ListOf(s: set<string>): seq<string> {
    if s == {} then [] else
      var x :| x in s;
      [x] + ListOf(s - {x})
  }

  /** The strings of a set in ascending order. */
  ghost function SortedSet(s: set<string>): seq<string> {
    Sort(ListOf(s), Identity, StringLe)
  }

  lemma {:induction false} ListOfMeaning(s: set<string>)
    ensures Unique(ListOf(s), Identity)
    ensures forall x :: x in ListOf(s) <==> x in s
  {
    if s != {} {
      var list := ListOf(s);
      var rest := s - {list[0]};
      assert list[1..] == ListOf(rest);
      ListOfMeaning(rest);
      ConsUnique(list[0], list[1..], Identity);
      assert list == [list[0]] + list[1..];
    }
  }

  lemma SortedSetMeaning(s: set<string>)
    ensures Sorted(SortedSet(s), Identity, StringLe) && Unique(SortedSet(s), Identity)
    ensures forall x :: x in SortedSet(s) <==> x in s
  {
    StringOrder();
    ListOfMeaning(s);
    SortKeepsTable(ListOf(s), Identity, StringLe);
    SortKeepsMembers(ListOf(s), Identity, StringLe);
  }

  /** Any enumeration of the set sorts to the same list. */
  lemma EnumerationSorts(list: seq<string>, s: set<string>)
    requires Unique(list, Identity) && forall x :: x in list <==> x in s
    ensures Sort(list, Identity, StringLe) == SortedSet(s)
  {
    StringOrder();
    SortedSetMeaning(s);
    SortKeepsTable(list, Identity, StringLe);
    SortKeepsMembers(list, Identity, StringLe);
    SameMembersCanonical(Sort(list, Identity, StringLe), SortedSet(s), Identity, StringLe);
  }

  /** Iterating a map's keys in no particular order, then sorting them. */
  method SortedKeys(s: set<string>) returns (list: seq<string>)
    ensures list == SortedSet(s)
  {
    list := [];
    var remaining := s;
    while remaining != {}
      invariant remaining <= s
      invariant Unique(list, Identity)
      invariant forall x :: x in list <==> x in s && x !in remaining
      decreases remaining
    {
      var x :| x in remaining;
      SnocUnique(list, x);
      list := list + [x];
      remaining := remaining - {x};
    }
    EnumerationSorts(list, s);
    list := Sort(list, Identity, StringLe);
  }

  lemma SnocUnique(list: seq<string>, x: string)
    requires Unique(list, Identity) && x !in list
    ensures Unique(list + [x], Identity)
  {
  }
}
