/** Vocabulary records and the list operations that both pages perform on them. */
module Vocab {

  /** One parsed row of the dictionary CSV; the four columns are opaque strings. */
  datatype Entry = Entry(Hanzi: string, Pinyin: string, English: string, Category: string)

  /** `entry[key]` on the parsed row object: its column named `key`, `undefined` for any other key. */
  function Field(e: Entry, key: string): Option<string> {
    if key == "Hanzi" then Some(e.Hanzi)
    else if key == "Pinyin" then Some(e.Pinyin)
    else if key == "English" then Some(e.English)
    else if key == "Category" then Some(e.Category)
    else None
  }

  /** A value that may be missing (`null` in the component state). */
  datatype Option<T> = None | Some(value: T)

  /** No value occurs twice, as in a JavaScript `Set`. */
  predicate NoDup<T(==)>(s: seq<T>) {
    forall i, j :: 0 <= i < j < |s| ==> s[i] != s[j]
  }

  /** The values of `s`, as a set. */
  function Elems<T>(s: seq<T>): set<T> {
    set x | x in s
  }

  /** A duplicate-free sequence has as many elements as its set of values. */
  lemma {:induction false} NoDupCard<T>(s: seq<T>)
    requires NoDup(s)
    ensures |Elems(s)| == |s|
  {
    if s != [] {
      var t := s[..|s| - 1];
      assert s == t + [s[|s| - 1]];
      assert Elems(s) == Elems(t) + {s[|s| - 1]};
      assert s[|s| - 1] !in Elems(t);
      NoDupCard(t);
    }
  }

  /** A duplicate-free sequence drawn from a set is no longer than the set is large. */
  lemma NoDupWithin<T>(s: seq<T>, bound: set<T>)
    requires NoDup(s)
    requires forall x :: x in s ==> x in bound
    ensures |s| <= |bound|
  {
    NoDupCard(s);
    assert Elems(s) <= bound;
    SubsetCard(Elems(s), bound);
  }

  lemma {:induction false} SubsetCard<T>(a: set<T>, b: set<T>)
    requires a <= b
    ensures |a| <= |b|
  {
    if a != {} {
      var x :| x in a;
      SubsetCard(a - {x}, b - {x});
    }
  }

  /** Position of the first occurrence of `x` in `s`. */
  function FirstIndex<T(==)>(s: seq<T>, x: T): (k: nat)
    requires x in s
    ensures k < |s| && s[k] == x && x !in s[..k]
  {
    if s[0] == x then 0
    else
      var k := 1 + FirstIndex(s[1..], x);
      assert s[..k] == [s[0]] + s[1..][..k - 1];
      k
  }

  /** Appending never moves the first occurrence of a value already present. */
  lemma FirstIndexPrefix<T>(p: seq<T>, q: seq<T>, x: T)
    requires x in p
    ensures FirstIndex(p + q, x) == FirstIndex(p, x)
  {
    var k1, k2 := FirstIndex(p + q, x), FirstIndex(p, x);
    assert (p + q)[k2] == x;
  }

  /**
   * `Array.from(new Set(s))`: each value of `s` once, kept at its first
   * occurrence (a `Set` remembers insertion order and ignores re-insertion).
   */
  function Dedup(s: seq<string>): (r: seq<string>)
    ensures forall x :: x in r <==> x in s
    ensures NoDup(r)
    ensures |r| <= |s|
    decreases |s|
  {
    if s == [] then []
    else
      var init, last := s[..|s| - 1], s[|s| - 1];
      assert s == init + [last];
      var d := Dedup(init);
      if last in d then d else d + [last]
  }

  /** The values of `Dedup(s)` appear in the order of their first occurrences in `s`. */
  lemma {:induction false} DedupFirstOccurrenceOrder(s: seq<string>, i: nat, j: nat)
    requires i < j < |Dedup(s)|
    ensures FirstIndex(s, Dedup(s)[i]) < FirstIndex(s, Dedup(s)[j])
  {
    var init, last := s[..|s| - 1], s[|s| - 1];
    assert s == init + [last];
    var d := Dedup(init);
    if j < |d| {
      assert Dedup(s)[i] == d[i] && Dedup(s)[j] == d[j];
      DedupFirstOccurrenceOrder(init, i, j);
      FirstIndexPrefix(init, [last], d[i]);
      FirstIndexPrefix(init, [last], d[j]);
    } else {
      assert last !in d && Dedup(s) == d + [last] && Dedup(s)[j] == last;
      assert Dedup(s)[i] == d[i];
      FirstIndexPrefix(init, [last], d[i]);
    }
  }

  /** `data.map(item => item.Category)` */
  function CategoriesOf(data: seq<Entry>): (r: seq<string>)
    ensures |r| == |data|
    ensures forall i :: 0 <= i < |data| ==> r[i] == data[i].Category
  {
    seq(|data|, i requires 0 <= i < |data| => data[i].Category)
  }

  /** A label occurs among the categories exactly when some entry carries it. */
  lemma CategoriesOfMembers(data: seq<Entry>, c: string)
    ensures c in CategoriesOf(data) <==> exists e :: e in data && e.Category == c
  {
    if c in CategoriesOf(data) {
      var i :| 0 <= i < |data| && CategoriesOf(data)[i] == c;
      assert data[i] in data;
    }
  }

  /** Mapping commutes with appending one entry. */
  lemma CategoriesOfAppend(data: seq<Entry>, e: Entry)
    ensures CategoriesOf(data + [e]) == CategoriesOf(data) + [e.Category]
  {
  }

  /** `data.filter(e => cats.includes(e.Category))` */
  function FilterIn(data: seq<Entry>, cats: seq<string>): (r: seq<Entry>)
    ensures |r| <= |data|
  {
    if data == [] then []
    else (if data[0].Category in cats then [data[0]] else []) + FilterIn(data[1..], cats)
  }

  /** The filtered list holds exactly the entries of the data whose category is selected. */
  lemma {:induction false} FilterInMembers(data: seq<Entry>, cats: seq<string>)
    ensures forall e :: e in FilterIn(data, cats) <==> e in data && e.Category in cats
  {
    if data != [] {
      assert data == [data[0]] + data[1..];
      FilterInMembers(data[1..], cats);
    }
  }

  /** `data.filter(e => e.Category === c)` */
  function WithCategory(data: seq<Entry>, c: string): seq<Entry> {
    FilterIn(data, [c])
  }

  /** The table holds exactly the entries of the data whose category is `c`. */
  lemma WithCategoryMembers(data: seq<Entry>, c: string)
    ensures forall e :: e in WithCategory(data, c) <==> e in data && e.Category == c
  {
    FilterInMembers(data, [c]);
  }

  /** `r` is `s` with some elements left out, the rest kept in order. */
  predicate IsSubsequence<T(==)>(r: seq<T>, s: seq<T>)
    decreases |s|
  {
    if r == [] then true
    else if s == [] then false
    else if r[0] == s[0] then IsSubsequence(r[1..], s[1..])
    else IsSubsequence(r, s[1..])
  }

  /** The filter keeps the original order. */
  lemma {:induction false} FilterInSubsequence(data: seq<Entry>, cats: seq<string>)
    ensures IsSubsequence(FilterIn(data, cats), data)
  {
    if data != [] {
      FilterInSubsequence(data[1..], cats);
      var rest := FilterIn(data[1..], cats);
      if data[0].Category in cats {
        assert FilterIn(data, cats) == [data[0]] + rest;
        assert FilterIn(data, cats)[1..] == rest;
      } else {
        // the first element of rest is selected, so it is not data[0]
        FilterInMembers(data[1..], cats);
        assert FilterIn(data, cats) == rest;
      }
    }
  }

  /** Every occurrence of a selected entry is kept and no other entry appears: duplicates are counted exactly. */
  lemma {:induction false} FilterInCount(data: seq<Entry>, cats: seq<string>, e: Entry)
    ensures multiset(FilterIn(data, cats))[e] == if e.Category in cats then multiset(data)[e] else 0
  {
    if data != [] {
      assert data == [data[0]] + data[1..];
      FilterInCount(data[1..], cats, e);
    }
  }

  /** When every entry is selected, the filter returns the data unchanged. */
  lemma {:induction false} FilterInAll(data: seq<Entry>, cats: seq<string>)
    requires forall i :: 0 <= i < |data| ==> data[i].Category in cats
    ensures FilterIn(data, cats) == data
  {
    if data != [] {
      FilterInAll(data[1..], cats);
      assert data == [data[0]] + data[1..];
    }
  }

  /** An empty selection keeps nothing. */
  lemma {:induction false} FilterInNone(data: seq<Entry>)
    ensures FilterIn(data, []) == []
  {
    if data != [] {
      FilterInNone(data[1..]);
    }
  }

  /** Filtering an entry put in front of a list. */
  lemma FilterInCons(x: Entry, s: seq<Entry>, cats: seq<string>)
    ensures FilterIn([x] + s, cats) == (if x.Category in cats then [x] else []) + FilterIn(s, cats)
  {
    assert ([x] + s)[0] == x && ([x] + s)[1..] == s;
  }

  /** Filtering distributes over concatenation. */
  lemma {:induction false} FilterInAppend(a: seq<Entry>, b: seq<Entry>, cats: seq<string>)
    ensures FilterIn(a + b, cats) == FilterIn(a, cats) + FilterIn(b, cats)
  {
    if a == [] {
      assert a + b == b;
    } else {
      var x, rest := a[0], a[1..];
      var head := if x.Category in cats then [x] else [];
      assert a == [x] + rest;
      calc {
        FilterIn(a + b, cats);
      == { assert a + b == [x] + (rest + b); }
        FilterIn([x] + (rest + b), cats);
      == { FilterInCons(x, rest + b, cats); }
        head + FilterIn(rest + b, cats);
      == { FilterInAppend(rest, b, cats); }
        head + (FilterIn(rest, cats) + FilterIn(b, cats));
      ==
        (head + FilterIn(rest, cats)) + FilterIn(b, cats);
      == { FilterInCons(x, rest, cats); }
        FilterIn(a, cats) + FilterIn(b, cats);
      }
    }
  }

  /** Appending one entry extends the category view by that entry exactly when it is in the category. */
  lemma WithCategoryAppend(data: seq<Entry>, e: Entry, c: string)
    ensures WithCategory(data + [e], c) == WithCategory(data, c) + (if e.Category == c then [e] else [])
  {
    FilterInAppend(data, [e], [c]);
    assert FilterIn([e], [c]) == (if e.Category == c then [e] else []) + FilterIn([], [c]);
  }
}
