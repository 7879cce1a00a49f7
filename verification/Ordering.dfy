/** Sort keys, the stable sort, adjacent deduplication, and why sorting by a
    key that tells the elements apart gives a canonical form.

    A key is a sequence of integer sequences compared lexicographically. It
    stands for the derived `Ord` of a tuple: one inner sequence for each field,
    and inside it the variant number followed by the payload. */
module Ordering {

  type Key = seq<seq<int>>

  predicate LexLe(a: seq<int>, b: seq<int>)
  {
    a == [] || (b != [] && (a[0] < b[0] || (a[0] == b[0] && LexLe(a[1..], b[1..]))))
  }

  predicate KeyLe(a: Key, b: Key)
  {
    a == [] || (b != [] && if a[0] == b[0] then KeyLe(a[1..], b[1..]) else LexLe(a[0], b[0]))
  }

  lemma {:induction false} LexTotal(a: seq<int>, b: seq<int>)
    ensures LexLe(a, b) || LexLe(b, a)
    ensures LexLe(a, b) && LexLe(b, a) ==> a == b
  {
    if a != [] && b != [] && a[0] == b[0] {
      LexTotal(a[1..], b[1..]);
      assert a == [a[0]] + a[1..] && b == [b[0]] + b[1..];
    }
  }

  lemma {:induction false} LexTransitive(a: seq<int>, b: seq<int>, c: seq<int>)
    requires LexLe(a, b) && LexLe(b, c)
    ensures LexLe(a, c)
  {
    if a != [] && a[0] == b[0] && b[0] == c[0] {
      LexTransitive(a[1..], b[1..], c[1..]);
    }
  }

  lemma {:induction false} KeyTotal(a: Key, b: Key)
    ensures KeyLe(a, b) || KeyLe(b, a)
    ensures KeyLe(a, b) && KeyLe(b, a) ==> a == b
  {
    if a != [] && b != [] {
      LexTotal(a[0], b[0]);
      if a[0] == b[0] {
        KeyTotal(a[1..], b[1..]);
        assert a == [a[0]] + a[1..] && b == [b[0]] + b[1..];
      }
    }
  }

  lemma {:induction false} KeyTransitive(a: Key, b: Key, c: Key)
    requires KeyLe(a, b) && KeyLe(b, c)
    ensures KeyLe(a, c)
  {
    if a != [] {
      LexTotal(a[0], b[0]);
      LexTotal(b[0], c[0]);
      if a[0] == b[0] == c[0] {
        KeyTransitive(a[1..], b[1..], c[1..]);
      } else {
        LexTotal(a[0], c[0]);
        if a[0] != b[0] && b[0] != c[0] {
          LexTransitive(a[0], b[0], c[0]);
        }
      }
    }
  }

  // ------------------------------------------------------------ stable sort

  ghost predicate Sorted<T(!new)>(s: seq<T>, key: T -> Key)
  {
    forall i, j :: 0 <= i < j < |s| ==> KeyLe(key(s[i]), key(s[j]))
  }

  /** The library sort: every later element goes after those with equal keys. */
  function Insert<T>(x: T, s: seq<T>, key: T -> Key): (r: seq<T>)
  {
    if s == [] || KeyLe(key(x), key(s[0])) then [x] + s
    else [s[0]] + Insert(x, s[1..], key)
  }

  function SortBy<T>(s: seq<T>, key: T -> Key): (r: seq<T>)
  {
    if s == [] then [] else Insert(s[0], SortBy(s[1..], key), key)
  }

  function Filter<T>(s: seq<T>, p: T -> bool): (r: seq<T>)
  {
    if s == [] then [] else (if p(s[0]) then [s[0]] else []) + Filter(s[1..], p)
  }

  /** The elements with key `k`, in order. */
  function WithKey<T>(s: seq<T>, key: T -> Key, k: Key): (r: seq<T>)
  {
    Filter(s, x => key(x) == k)
  }

  lemma {:induction false} InsertSorts<T(!new)>(x: T, s: seq<T>, key: T -> Key)
    requires Sorted(s, key)
    ensures Sorted(Insert(x, s, key), key)
    ensures multiset(Insert(x, s, key)) == multiset{x} + multiset(s)
  {
    if s == [] {
    } else if KeyLe(key(x), key(s[0])) {
      forall j | 0 <= j < |s| ensures KeyLe(key(x), key(s[j])) {
        if j > 0 { KeyTransitive(key(x), key(s[0]), key(s[j])); }
      }
    } else {
      KeyTotal(key(x), key(s[0]));
      var rest := Insert(x, s[1..], key);
      InsertSorts(x, s[1..], key);
      assert s == [s[0]] + s[1..];
      forall j | 0 <= j < |rest| ensures KeyLe(key(s[0]), key(rest[j])) {
        assert rest[j] in multiset(rest);
        assert rest[j] == x || rest[j] in s[1..];
      }
    }
  }

  lemma {:induction false} SortBySorts<T(!new)>(s: seq<T>, key: T -> Key)
    ensures Sorted(SortBy(s, key), key)
    ensures multiset(SortBy(s, key)) == multiset(s)
    ensures |SortBy(s, key)| == |s|
    ensures forall x :: x in SortBy(s, key) <==> x in s
  {
    if s != [] {
      SortBySorts(s[1..], key);
      InsertSorts(s[0], SortBy(s[1..], key), key);
      assert s == [s[0]] + s[1..];
    }
    SameMembers(SortBy(s, key), s);
  }

  lemma SameMembers<T(!new)>(s: seq<T>, t: seq<T>)
    requires multiset(s) == multiset(t)
    ensures |s| == |t|
    ensures forall x :: x in s <==> x in t
  {
    assert |multiset(s)| == |s| && |multiset(t)| == |t|;
    forall x ensures x in s <==> x in t {
      assert x in s <==> x in multiset(s);
      assert x in t <==> x in multiset(t);
    }
  }

  /** The sort is stable: elements with one key keep their order. */
  lemma {:induction false} SortByStable<T(!new)>(s: seq<T>, key: T -> Key, k: Key)
    ensures WithKey(SortBy(s, key), key, k) == WithKey(s, key, k)
  {
    if s != [] {
      SortByStable(s[1..], key, k);
      SortBySorts(s[1..], key);
      InsertStable(s[0], SortBy(s[1..], key), key, k);
    }
  }

  lemma {:induction false} InsertStable<T(!new)>(x: T, s: seq<T>, key: T -> Key, k: Key)
    ensures WithKey(Insert(x, s, key), key, k) == (if key(x) == k then [x] else []) + WithKey(s, key, k)
  {
    if s == [] || KeyLe(key(x), key(s[0])) {
      assert ([x] + s)[1..] == s;
    } else {
      InsertStable(x, s[1..], key, k);
      var r := Insert(x, s, key);
      assert r[0] == s[0] && r[1..] == Insert(x, s[1..], key);
      KeyTotal(key(x), key(s[0]));
    }
  }

  // --------------------------------------------------------- canonical form

  /** Elements of `s` with equal keys are equal. */
  ghost predicate KeyedApart<T(!new)>(s: seq<T>, key: T -> Key)
  {
    forall x, y :: x in s && y in s && key(x) == key(y) ==> x == y
  }

  lemma FirstAgrees<T(!new)>(s: seq<T>, t: seq<T>, key: T -> Key)
    requires s != [] && t != [] && s[0] in t && t[0] in s
    requires Sorted(s, key) && Sorted(t, key)
    requires KeyedApart(s, key)
    ensures s[0] == t[0]
  {
    var i :| 0 <= i < |t| && t[i] == s[0];
    var j :| 0 <= j < |s| && s[j] == t[0];
    KeyTotal(key(s[0]), key(t[0]));
  }

  lemma TailOf<T(!new)>(s: seq<T>, key: T -> Key)
    requires s != [] && Sorted(s, key)
    ensures Sorted(s[1..], key)
    ensures multiset(s[1..]) == multiset(s) - multiset{s[0]}
  {
    assert s == [s[0]] + s[1..];
    forall i, j | 0 <= i < j < |s[1..]| ensures KeyLe(key(s[1..][i]), key(s[1..][j])) {
      assert s[1..][i] == s[i + 1] && s[1..][j] == s[j + 1];
    }
  }

  lemma HeadsAgree<T(!new)>(s: seq<T>, t: seq<T>, key: T -> Key)
    requires s != [] && Sorted(s, key) && Sorted(t, key)
    requires multiset(s) == multiset(t) && KeyedApart(s, key)
    ensures t != [] && s[0] == t[0]
  {
    SameMembers(s, t);
    assert s[0] in s && t[0] in t;
    FirstAgrees(s, t, key);
  }

  lemma TailsAgree<T(!new)>(s: seq<T>, t: seq<T>, key: T -> Key)
    requires s != [] && t != [] && s[0] == t[0] && multiset(s) == multiset(t)
    requires Sorted(s, key) && Sorted(t, key) && KeyedApart(s, key)
    ensures Sorted(s[1..], key) && Sorted(t[1..], key) && KeyedApart(s[1..], key)
    ensures multiset(s[1..]) == multiset(t[1..])
  {
    TailOf(s, key);
    TailOf(t, key);
    TailApart(s, key);
  }

  lemma SameConcat<T>(s: seq<T>, t: seq<T>)
    requires s != [] && t != [] && s[0] == t[0] && s[1..] == t[1..]
    ensures s == t
  {
    assert s == [s[0]] + s[1..] && t == [t[0]] + t[1..];
  }

  lemma TailApart<T(!new)>(s: seq<T>, key: T -> Key)
    requires s != [] && KeyedApart(s, key)
    ensures KeyedApart(s[1..], key)
  {
  }

  /** Two sorted arrangements of the same elements are the same sequence. */
  lemma {:induction false} SortedUnique<T(!new)>(s: seq<T>, t: seq<T>, key: T -> Key)
    requires Sorted(s, key) && Sorted(t, key)
    requires multiset(s) == multiset(t)
    requires KeyedApart(s, key)
    ensures s == t
  {
    if s == [] {
      SameMembers(s, t);
    } else {
      HeadsAgree(s, t, key);
      TailsAgree(s, t, key);
      SortedUnique(s[1..], t[1..], key);
      SameConcat(s, t);
    }
  }

  /** Sorting by a key that tells the elements apart forgets the order the
      elements came in. */
  lemma SortCanonical<T(!new)>(s: seq<T>, t: seq<T>, key: T -> Key)
    requires multiset(s) == multiset(t)
    requires KeyedApart(s, key)
    ensures SortBy(s, key) == SortBy(t, key)
  {
    SortBySorts(s, key);
    SortBySorts(t, key);
    SortedUnique(SortBy(s, key), SortBy(t, key), key);
  }

  // ------------------------------------------------------------------ dedup

  ghost predicate NoDuplicates<T(!new)>(s: seq<T>)
  {
    forall i, j :: 0 <= i < j < |s| ==> s[i] != s[j]
  }

  /** `Vec::dedup_by_key`: of each run of elements with one mark, the first. */
  function DedupBy<T, K(==)>(s: seq<T>, mark: T -> K): (r: seq<T>)
  {
    var n := |s|;
    if n < 2 then s
    else if mark(s[n - 1]) == mark(s[n - 2]) then DedupBy(s[..n - 1], mark)
    else DedupBy(s[..n - 1], mark) + [s[n - 1]]
  }

  /** Marks that are contiguous: equal marks have nothing else between them. */
  ghost predicate Grouped<T(!new), K(!new)>(s: seq<T>, mark: T -> K)
  {
    forall i, j, k :: 0 <= i < j < k < |s| && mark(s[i]) == mark(s[k]) ==> mark(s[j]) == mark(s[i])
  }

  ghost predicate MarkedApart<T(!new), K(!new)>(s: seq<T>, mark: T -> K)
  {
    forall i, j :: 0 <= i < j < |s| ==> mark(s[i]) != mark(s[j])
  }

  lemma {:induction false} DedupByMembers<T(!new), K(!new)>(s: seq<T>, mark: T -> K)
    ensures forall x :: x in DedupBy(s, mark) ==> x in s
  {
    if |s| >= 2 {
      var init := s[..|s| - 1];
      DedupByMembers(init, mark);
      assert s == init + [s[|s| - 1]];
    }
  }

  ghost predicate Marked<T(!new), K(!new)>(s: seq<T>, mark: T -> K, k: K)
  {
    exists y :: y in s && mark(y) == k
  }

  lemma {:induction false} DedupByMarks<T(!new), K(!new)>(s: seq<T>, mark: T -> K, i: nat)
    requires i < |s|
    ensures Marked(DedupBy(s, mark), mark, mark(s[i]))
    decreases |s|
  {
    var n := |s|;
    if n < 2 {
      assert s[i] in s;
    } else {
      var init := s[..n - 1];
      if i < n - 1 || mark(s[n - 1]) == mark(s[n - 2]) {
        var j := if i < n - 1 then i else n - 2;
        DedupByMarks(init, mark, j);
        assert init[j] == s[j];
        var y :| y in DedupBy(init, mark) && mark(y) == mark(s[i]);
        assert y in DedupBy(s, mark);
      } else {
        assert s[i] in DedupBy(s, mark);
      }
    }
  }

  /** After `DedupBy`, every element comes from the input and every mark is
      still there. */
  lemma DedupByKeeps<T(!new), K(!new)>(s: seq<T>, mark: T -> K)
    ensures forall x :: x in DedupBy(s, mark) ==> x in s
    ensures forall x :: x in s ==> exists y :: y in DedupBy(s, mark) && mark(y) == mark(x)
  {
    DedupByMembers(s, mark);
    forall x | x in s ensures exists y :: y in DedupBy(s, mark) && mark(y) == mark(x) {
      var i :| 0 <= i < |s| && s[i] == x;
      DedupByMarks(s, mark, i);
    }
  }

  lemma GroupedInit<T(!new), K(!new)>(s: seq<T>, mark: T -> K)
    requires s != [] && Grouped(s, mark)
    ensures Grouped(s[..|s| - 1], mark)
  {
    var init := s[..|s| - 1];
    forall i, j, k | 0 <= i < j < k < |init| && mark(init[i]) == mark(init[k])
      ensures mark(init[j]) == mark(init[i])
    {
      assert init[i] == s[i] && init[j] == s[j] && init[k] == s[k];
    }
  }

  lemma AppendApart<T(!new), K(!new)>(d: seq<T>, x: T, mark: T -> K)
    requires MarkedApart(d, mark)
    requires forall j :: 0 <= j < |d| ==> mark(d[j]) != mark(x)
    ensures MarkedApart(d + [x], mark)
  {
  }

  lemma AppendSorted<T(!new)>(d: seq<T>, x: T, key: T -> Key)
    requires Sorted(d, key)
    requires forall j :: 0 <= j < |d| ==> KeyLe(key(d[j]), key(x))
    ensures Sorted(d + [x], key)
  {
  }

  lemma SortedInit<T(!new)>(s: seq<T>, key: T -> Key)
    requires s != [] && Sorted(s, key)
    ensures Sorted(s[..|s| - 1], key)
  {
  }

  /** On grouped marks each mark is kept once. */
  lemma {:induction false} DedupByApart<T(!new), K(!new)>(s: seq<T>, mark: T -> K)
    requires Grouped(s, mark)
    ensures MarkedApart(DedupBy(s, mark), mark)
  {
    var n := |s|;
    if n >= 2 {
      var init := s[..n - 1];
      GroupedInit(s, mark);
      DedupByApart(init, mark);
      var d := DedupBy(init, mark);
      if mark(s[n - 1]) != mark(s[n - 2]) {
        forall j | 0 <= j < |d| ensures mark(d[j]) != mark(s[n - 1]) {
          DedupByKeeps(init, mark);
          assert d[j] in init;
          var i :| 0 <= i < n - 1 && init[i] == d[j];
          if i < n - 2 && mark(s[i]) == mark(s[n - 1]) {
            assert false;
          }
        }
        AppendApart(d, s[n - 1], mark);
      }
    }
  }

  /** Deduplicating what already has distinct marks changes nothing. */
  lemma {:induction false} DedupByIdentity<T(!new), K(!new)>(s: seq<T>, mark: T -> K)
    requires MarkedApart(s, mark)
    ensures DedupBy(s, mark) == s
  {
    if |s| >= 2 {
      DedupByIdentity(s[..|s| - 1], mark);
    }
  }

  /** Dedup keeps a sorted sequence sorted. */
  lemma {:induction false} DedupBySorted<T(!new), K(!new)>(s: seq<T>, mark: T -> K, key: T -> Key)
    requires Sorted(s, key)
    ensures Sorted(DedupBy(s, mark), key)
  {
    var n := |s|;
    if n >= 2 {
      var init := s[..n - 1];
      SortedInit(s, key);
      DedupBySorted(init, mark, key);
      var d := DedupBy(init, mark);
      forall j | 0 <= j < |d| ensures KeyLe(key(d[j]), key(s[n - 1])) {
        DedupByKeeps(init, mark);
        assert d[j] in init;
        var i :| 0 <= i < n - 1 && init[i] == d[j];
        assert s[i] == d[j];
      }
      AppendSorted(d, s[n - 1], key);
    }
  }

  function Itself<T>(x: T): (r: T) { x }

  /** Sorted, then deduplicated. */
  function Unique<T(==)>(s: seq<T>, key: T -> Key): (r: seq<T>)
  {
    DedupBy(SortBy(s, key), Itself)
  }

  /** In a sequence sorted by a key that determines the mark and is determined by
      it, equal marks are contiguous. */
  lemma SortedGrouped<T(!new), K(!new)>(s: seq<T>, mark: T -> K, key: T -> Key)
    requires Sorted(s, key)
    requires forall x, y :: x in s && y in s ==> (mark(x) == mark(y) <==> key(x) == key(y))
    ensures Grouped(s, mark)
  {
    forall i, j, k | 0 <= i < j < k < |s| && mark(s[i]) == mark(s[k]) ensures mark(s[j]) == mark(s[i]) {
      assert s[i] in s && s[j] in s && s[k] in s;
      KeyTotal(key(s[i]), key(s[j]));
    }
  }

  /** Sorting by a key that tells the elements apart and deduplicating lists the
      members once each, in key order. */
  lemma UniqueMeaning<T(!new)>(s: seq<T>, key: T -> Key)
    requires KeyedApart(s, key)
    ensures Sorted(Unique(s, key), key) && NoDuplicates(Unique(s, key))
    ensures forall x :: x in Unique(s, key) <==> x in s
  {
    var sorted := SortBy(s, key);
    SortBySorts(s, key);
    SortedGrouped(sorted, Itself, key);
    DedupByApart(sorted, Itself);
    DedupBySorted(sorted, Itself, key);
    DedupByKeeps(sorted, Itself);
  }

  /** A dedup after a sort by a key as fine as the mark keeps each mark once. */
  lemma SortDedupMeaning<T(!new), K(!new)>(s: seq<T>, mark: T -> K, key: T -> Key)
    requires forall x, y :: x in s && y in s ==> (mark(x) == mark(y) <==> key(x) == key(y))
    ensures var r := DedupBy(SortBy(s, key), mark);
      && Sorted(r, key) && MarkedApart(r, mark)
      && (forall x :: x in r ==> x in s)
      && (forall x :: x in s ==> exists y :: y in r && mark(y) == mark(x))
  {
    var sorted := SortBy(s, key);
    SortBySorts(s, key);
    SortedGrouped(sorted, mark, key);
    DedupByApart(sorted, mark);
    DedupBySorted(sorted, mark, key);
    DedupByKeeps(sorted, mark);
  }

  lemma TwoMembers<T(!new)>(s: set<T>)
    ensures |s| > 1 <==> exists a, b :: a in s && b in s && a != b
  {
    if |s| > 1 {
      var a :| a in s;
      assert |s - {a}| > 0;
      var b :| b in s - {a};
    }
    if a, b :| a in s && b in s && a != b {
      var rest := s - {a};
      assert b in rest && |rest| > 0;
      assert s == rest + {a};
    }
  }

  // ------------------------------------------- ordered iteration over a set

  ghost function Listing<T(!new)>(s: set<T>): (r: seq<T>)
    ensures forall x :: x in r <==> x in s
    ensures |r| == |s|
    ensures NoDuplicates(r)
  {
    if s == {} then [] else
      var x :| x in s;
      [x] + Listing(s - {x})
  }

  /** The elements of a set in key order: iteration over a `BTreeSet`, or over
      the keys of a `BTreeMap`. */
  ghost function Ascending<T(!new)>(s: set<T>, key: T -> Key): (r: seq<T>)
    ensures forall x :: x in r <==> x in s
    ensures |r| == |s|
    ensures Sorted(r, key)
  {
    SortBySorts(Listing(s), key);
    SortBy(Listing(s), key)
  }

  lemma {:induction false} OnceEach<T(!new)>(s: seq<T>, t: seq<T>)
    requires NoDuplicates(s) && NoDuplicates(t)
    requires forall x :: x in s <==> x in t
    ensures multiset(s) == multiset(t)
  {
    forall x ensures multiset(s)[x] == multiset(t)[x] {
      CountOnce(s, x);
      CountOnce(t, x);
    }
  }

  lemma {:induction false} CountOnce<T(!new)>(s: seq<T>, x: T)
    requires NoDuplicates(s)
    ensures multiset(s)[x] == if x in s then 1 else 0
  {
    if s != [] {
      assert s == [s[0]] + s[1..];
      CountOnce(s[1..], x);
    }
  }

  /** Lists a set in key order, taking elements in any order first. */
  method ListAscending<T(!new,==)>(s: set<T>, key: T -> Key) returns (r: seq<T>)
    requires forall x, y :: x in s && y in s && key(x) == key(y) ==> x == y
    ensures r == Ascending(s, key)
  {
    var rest := s;
    var listed: seq<T> := [];
    while rest != {}
      invariant rest <= s
      invariant forall x :: x in listed <==> x in s && x !in rest
      invariant NoDuplicates(listed)
      decreases rest
    {
      var x :| x in rest;
      listed := listed + [x];
      rest := rest - {x};
    }
    r := SortBy(listed, key);
    SortBySorts(listed, key);
    OnceEach(listed, Listing(s));
    SortCanonical(listed, Listing(s), key);
  }

  // ------------------------------------------------------------- sequences

  lemma {:induction false} FilterConcat<T>(s: seq<T>, t: seq<T>, p: T -> bool)
    ensures Filter(s + t, p) == Filter(s, p) + Filter(t, p)
  {
    if s == [] {
      assert s + t == t;
    } else {
      assert (s + t)[1..] == s[1..] + t && (s + t)[0] == s[0];
      FilterConcat(s[1..], t, p);
      var head := if p(s[0]) then [s[0]] else [];
      assert head + (Filter(s[1..], p) + Filter(t, p)) == head + Filter(s[1..], p) + Filter(t, p);
    }
  }

  lemma {:induction false} FilterMembers<T(!new)>(s: seq<T>, p: T -> bool)
    ensures forall x :: x in Filter(s, p) <==> x in s && p(x)
    ensures |Filter(s, p)| <= |s|
  {
    if s != [] {
      FilterMembers(s[1..], p);
      assert s == [s[0]] + s[1..];
    }
  }

  lemma {:induction false} FilterNone<T(!new)>(s: seq<T>, p: T -> bool)
    requires forall x :: x in s ==> !p(x)
    ensures Filter(s, p) == []
  {
    if s != [] {
      assert s[0] in s;
      FilterNone(s[1..], p);
    }
  }

  lemma {:induction false} FilterMultiset<T(!new)>(s: seq<T>, p: T -> bool, x: T)
    ensures multiset(Filter(s, p))[x] == if p(x) then multiset(s)[x] else 0
  {
    if s != [] {
      FilterMultiset(s[1..], p, x);
      assert s == [s[0]] + s[1..];
    }
  }

  /** The parts one after another. */
  function Flatten<T>(parts: seq<seq<T>>): (r: seq<T>)
  {
    if parts == [] then [] else Flatten(parts[..|parts| - 1]) + parts[|parts| - 1]
  }

  lemma {:induction false} FlattenMembers<T(!new)>(parts: seq<seq<T>>)
    ensures forall x :: x in Flatten(parts) <==> exists i :: 0 <= i < |parts| && x in parts[i]
  {
    if parts != [] {
      var init, last := parts[..|parts| - 1], parts[|parts| - 1];
      FlattenMembers(init);
      forall x ensures x in Flatten(parts) <==> exists i :: 0 <= i < |parts| && x in parts[i] {
        if x in Flatten(init) {
          var i :| 0 <= i < |init| && x in init[i];
          assert x in parts[i];
        }
        if i :| 0 <= i < |parts| && x in parts[i] {
          assert i < |init| ==> x in init[i];
        }
      }
    }
  }

  lemma FlattenStep<T>(parts: seq<seq<T>>, last: seq<T>)
    ensures Flatten(parts + [last]) == Flatten(parts) + last
  {
    assert (parts + [last])[..|parts|] == parts;
  }

  lemma {:induction false} FlattenCons<T>(parts: seq<seq<T>>)
    requires parts != []
    ensures Flatten(parts) == parts[0] + Flatten(parts[1..])
  {
    var n := |parts| - 1;
    if n > 0 {
      FlattenCons(parts[..n]);
      assert parts[..n][1..] == parts[1..][..n - 1];
      assert parts[0] + (Flatten(parts[1..][..n - 1]) + parts[n]) == parts[0] + Flatten(parts[1..][..n - 1]) + parts[n];
    }
  }

  lemma {:induction false} FilterSorted<T(!new)>(s: seq<T>, p: T -> bool, key: T -> Key)
    requires Sorted(s, key)
    ensures Sorted(Filter(s, p), key)
  {
    if s != [] {
      TailOf(s, key);
      FilterSorted(s[1..], p, key);
      FilterMembers(s[1..], p);
      forall y | y in s[1..] ensures KeyLe(key(s[0]), key(y)) {
        var i :| 0 <= i < |s[1..]| && s[1..][i] == y;
        assert s[i + 1] == y;
      }
    }
  }

  lemma {:induction false} FilterApart<T(!new)>(s: seq<T>, p: T -> bool)
    requires NoDuplicates(s)
    ensures NoDuplicates(Filter(s, p))
  {
    if s != [] {
      FilterApart(s[1..], p);
      FilterMembers(s[1..], p);
      forall y | y in s[1..] ensures y != s[0] {
        var i :| 0 <= i < |s[1..]| && s[1..][i] == y;
        assert s[i + 1] == y;
      }
    }
  }

  /** What has no duplicates has none in any order. */
  lemma PermutedApart<T(!new)>(s: seq<T>, t: seq<T>)
    requires NoDuplicates(s) && multiset(s) == multiset(t)
    ensures NoDuplicates(t)
  {
    forall i, j | 0 <= i < j < |t| ensures t[i] != t[j] {
      if t[i] == t[j] {
        CountTwice(t, i, j);
        CountOnce(s, t[i]);
        assert false;
      }
    }
  }

  lemma CountTwice<T(!new)>(t: seq<T>, i: nat, j: nat)
    requires i < j < |t| && t[i] == t[j]
    ensures multiset(t)[t[i]] >= 2
  {
    assert t == t[..j] + [t[j]] + t[j + 1..];
    assert t[i] == t[..j][i] && t[..j][i] in t[..j];
  }

  lemma HeadIsMember<T(!new)>(s: seq<T>)
    ensures s != [] ==> exists y :: y in s
  {
    assert |s| > 0 ==> s[0] in s;
  }

  lemma Nothing<T(!new)>(s: seq<T>)
    requires forall y :: y !in s
    ensures s == []
  {
    HeadIsMember(s);
  }

  ghost function Elements<T(!new)>(s: seq<T>): (r: set<T>)
  {
    set x | x in s
  }

  lemma {:induction false} PrefixSet<T(!new)>(s: seq<T>, n: nat)
    requires NoDuplicates(s) && n <= |s|
    ensures |Elements(s[..n])| == n
  {
    if n > 0 {
      PrefixSet(s, n - 1);
      assert s[..n] == s[..n - 1] + [s[n - 1]];
      assert Elements(s[..n]) == Elements(s[..n - 1]) + {s[n - 1]};
    }
  }

  ghost function Preceding<T(!new)>(s: seq<T>, key: T -> Key, x: T): (r: set<T>)
  {
    set y | y in s && y != x && KeyLe(key(y), key(x))
  }

  /** In a sorted list of elements that their keys tell apart, as many stand before an
      element as its position says. */
  lemma RankIsPosition<T(!new)>(s: seq<T>, key: T -> Key, i: nat)
    requires NoDuplicates(s) && Sorted(s, key) && KeyedApart(s, key) && i < |s|
    ensures |Preceding(s, key, s[i])| == i
  {
    var x := s[i];
    forall y | y in s && y != x && KeyLe(key(y), key(x)) ensures y in s[..i] {
      var j :| 0 <= j < |s| && s[j] == y;
      if j > i {
        KeyTotal(key(x), key(y));
        assert false;
      }
      assert s[..i][j] == y;
    }
    forall y | y in s[..i] ensures y in s && y != x && KeyLe(key(y), key(x)) {
      var j :| 0 <= j < i && s[j] == y;
    }
    assert Preceding(s, key, x) == Elements(s[..i]);
    PrefixSet(s, i);
  }

  lemma CountMembers<T(!new)>(s: seq<T>)
    requires NoDuplicates(s)
    ensures |Elements(s)| == |s|
  {
    assert s[..|s|] == s;
    PrefixSet(s, |s|);
  }

  lemma AscendingApart<T(!new)>(s: set<T>, key: T -> Key)
    ensures NoDuplicates(Ascending(s, key))
  {
    SortBySorts(Listing(s), key);
    PermutedApart(Listing(s), SortBy(Listing(s), key));
  }
}
