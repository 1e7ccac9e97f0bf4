/**
  `sorted(sig.constraint_params.items())`: a dict's items as a list of
  (key, value) pairs, and the order Python's `sorted` puts them in. A dict's
  keys are distinct, so the tuple comparison is decided by the keys alone and
  the sorted list depends only on which pairs the dict holds, never on the
  order they were inserted in.
 */
module ParamOrder {
  import opened JsonValues

  /** One `(key, value)` item of a parameter dict. */
  type Param = (string, Json)

  /** Python's `<` on str: code point by code point, a proper prefix first. */
  predicate StrLess(a: string, b: string)
    decreases |a|
  {
    if a == [] then b != []
    else if b == [] then false
    else if a[0] != b[0] then a[0] < b[0]
    else StrLess(a[1..], b[1..])
  }

  lemma {:induction false} StrLessIrreflexive(a: string)
    ensures !StrLess(a, a)
    decreases |a|
  {
    if a != [] {
      StrLessIrreflexive(a[1..]);
    }
  }

  lemma {:induction false} StrLessTransitive(a: string, b: string, c: string)
    requires StrLess(a, b) && StrLess(b, c)
    ensures StrLess(a, c)
    decreases |a|
  {
    if a != [] && a[0] == b[0] && b[0] == c[0] {
      StrLessTransitive(a[1..], b[1..], c[1..]);
    }
  }

  lemma {:induction false} StrLessTotal(a: string, b: string)
    ensures a == b || StrLess(a, b) || StrLess(b, a)
    decreases |a|
  {
    if a != [] && b != [] && a[0] == b[0] {
      StrLessTotal(a[1..], b[1..]);
      if a[1..] == b[1..] {
        assert a == [a[0]] + a[1..] && b == [b[0]] + b[1..];
      }
    }
  }

  lemma StrLessAsymmetric(a: string, b: string)
    ensures !(StrLess(a, b) && StrLess(b, a))
  {
    if StrLess(a, b) && StrLess(b, a) {
      StrLessTransitive(a, b, a);
      StrLessIrreflexive(a);
    }
  }

  /** The keys of a list of items. */
  function KeysOf(items: seq<Param>): set<string> {
    set i | 0 <= i < |items| :: items[i].0
  }

  /** No key occurs twice: what every dict's item list satisfies. */
  predicate DistinctKeys(items: seq<Param>) {
    forall i, j :: 0 <= i < j < |items| ==> items[i].0 != items[j].0
  }

  /** The item list of a dict, in insertion order: no key occurs twice. */
  type ParamDict = items: seq<Param> | DistinctKeys(items) witness []

  /**
    No dict occurs anywhere inside the value. Python's `repr` writes a nested
    dict in its insertion order, which a `Json` map does not keep; for values
    without one, `repr` depends on nothing the map forgets.
   */
  predicate NoNestedDict(j: Json) {
    match j
    case JObj(_) => false
    case JArr(items) => forall i :: 0 <= i < |items| ==> NoNestedDict(items[i])
    case _ => true
  }

  /** Every parameter value is free of nested dicts. */
  predicate FlatParams(items: seq<Param>) {
    forall i :: 0 <= i < |items| ==> NoNestedDict(items[i].1)
  }

  /** Keys strictly increase along the list. */
  predicate StrictlySorted(items: seq<Param>) {
    forall i, j :: 0 <= i < j < |items| ==> StrLess(items[i].0, items[j].0)
  }

  /** Inserts one item before the first item whose key is not smaller. */
  function Insert(p: Param, sorted: seq<Param>): seq<Param> {
    if sorted == [] then [p]
    else if StrLess(sorted[0].0, p.0) then [sorted[0]] + Insert(p, sorted[1..])
    else [p] + sorted
  }

  lemma KeysOfCons(p: Param, rest: seq<Param>)
    ensures KeysOf([p] + rest) == {p.0} + KeysOf(rest)
  {
    var s := [p] + rest;
    forall k | k in KeysOf(s)
      ensures k in {p.0} + KeysOf(rest)
    {
      var i :| 0 <= i < |s| && s[i].0 == k;
      if i > 0 {
        assert rest[i - 1].0 == k;
      }
    }
    forall k | k in {p.0} + KeysOf(rest)
      ensures k in KeysOf(s)
    {
      if k == p.0 {
        assert s[0].0 == k;
      } else {
        var i :| 0 <= i < |rest| && rest[i].0 == k;
        assert s[i + 1].0 == k;
      }
    }
  }

  /** Insertion adds the item and its key and nothing else. */
  lemma {:induction false} InsertContents(p: Param, sorted: seq<Param>)
    ensures multiset(Insert(p, sorted)) == multiset(sorted) + multiset{p}
    ensures KeysOf(Insert(p, sorted)) == KeysOf(sorted) + {p.0}
  {
    if sorted == [] {
      KeysOfCons(p, []);
    } else {
      assert sorted == [sorted[0]] + sorted[1..];
      KeysOfCons(sorted[0], sorted[1..]);
      if StrLess(sorted[0].0, p.0) {
        InsertContents(p, sorted[1..]);
        KeysOfCons(sorted[0], Insert(p, sorted[1..]));
      } else {
        KeysOfCons(p, sorted);
      }
    }
  }

  /** The tail of a strictly sorted list is strictly sorted. */
  lemma SortedTail(s: seq<Param>)
    requires StrictlySorted(s) && s != []
    ensures StrictlySorted(s[1..])
  {
    forall x, y | 0 <= x < y < |s[1..]|
      ensures StrLess(s[1..][x].0, s[1..][y].0)
    {
      assert s[1..][x] == s[x + 1] && s[1..][y] == s[y + 1];
    }
  }

  /** In a strictly sorted list the first key precedes every key of the tail. */
  lemma SortedHeadFirst(s: seq<Param>)
    requires StrictlySorted(s) && s != []
    ensures forall k :: k in KeysOf(s[1..]) ==> StrLess(s[0].0, k)
  {
    forall k | k in KeysOf(s[1..])
      ensures StrLess(s[0].0, k)
    {
      var j :| 0 <= j < |s[1..]| && s[1..][j].0 == k;
      assert s[j + 1].0 == k;
    }
  }

  /** Inserting a new key into a strictly sorted list keeps it strictly sorted. */
  lemma {:induction false} InsertSorted(p: Param, sorted: seq<Param>)
    requires StrictlySorted(sorted) && p.0 !in KeysOf(sorted)
    ensures StrictlySorted(Insert(p, sorted))
  {
    if sorted == [] {
    } else if StrLess(sorted[0].0, p.0) {
      assert sorted == [sorted[0]] + sorted[1..];
      KeysOfCons(sorted[0], sorted[1..]);
      var rest := Insert(p, sorted[1..]);
      SortedTail(sorted);
      InsertSorted(p, sorted[1..]);
      InsertContents(p, sorted[1..]);
      SortedHeadFirst(sorted);
      SortedCons(sorted[0], rest);
    } else {
      assert sorted[0].0 in KeysOf(sorted);
      StrLessTotal(sorted[0].0, p.0);
      forall k | k in KeysOf(sorted)
        ensures StrLess(p.0, k)
      {
        var j :| 0 <= j < |sorted| && sorted[j].0 == k;
        if j > 0 {
          StrLessTransitive(p.0, sorted[0].0, k);
        }
      }
      SortedCons(p, sorted);
    }
  }

  /** A strictly sorted list stays so under an item whose key precedes all of its keys. */
  lemma SortedCons(p: Param, rest: seq<Param>)
    requires StrictlySorted(rest)
    requires forall k :: k in KeysOf(rest) ==> StrLess(p.0, k)
    ensures StrictlySorted([p] + rest)
  {
    var s := [p] + rest;
    forall i, j | 0 <= i < j < |s|
      ensures StrLess(s[i].0, s[j].0)
    {
      if i == 0 {
        assert s[j].0 == rest[j - 1].0;
        assert s[j].0 in KeysOf(rest);
      } else {
        assert s[i] == rest[i - 1] && s[j] == rest[j - 1];
      }
    }
  }

  /** `sorted(items)` for the items of a dict: insertion sort by key. */
  function SortItems(items: seq<Param>): seq<Param> {
    if items == [] then [] else Insert(items[0], SortItems(items[1..]))
  }

  /** Sorting keeps exactly the items it was given, and so exactly their keys. */
  lemma {:induction false} SortItemsContents(items: seq<Param>)
    ensures multiset(SortItems(items)) == multiset(items)
    ensures KeysOf(SortItems(items)) == KeysOf(items)
  {
    if items != [] {
      SortItemsContents(items[1..]);
      InsertContents(items[0], SortItems(items[1..]));
      assert items == [items[0]] + items[1..];
      KeysOfCons(items[0], items[1..]);
    }
  }

  /** The tail of a dict's item list is a dict's item list without the head's key. */
  lemma DistinctTail(items: seq<Param>)
    requires DistinctKeys(items) && items != []
    ensures DistinctKeys(items[1..])
    ensures items[0].0 !in KeysOf(items[1..])
  {
    forall i, j | 0 <= i < j < |items[1..]|
      ensures items[1..][i].0 != items[1..][j].0
    {
      assert items[1..][i] == items[i + 1] && items[1..][j] == items[j + 1];
    }
    forall j | 0 <= j < |items[1..]|
      ensures items[1..][j].0 != items[0].0
    {
      assert items[1..][j] == items[j + 1];
    }
  }

  /**
    Sorting keeps exactly the items it was given, and the items of a dict come
    out with strictly increasing keys.
   */
  lemma {:induction false} SortItemsSpec(items: seq<Param>)
    ensures multiset(SortItems(items)) == multiset(items)
    ensures KeysOf(SortItems(items)) == KeysOf(items)
    ensures DistinctKeys(items) ==> StrictlySorted(SortItems(items))
  {
    SortItemsContents(items);
    if items != [] && DistinctKeys(items) {
      DistinctTail(items);
      SortItemsSpec(items[1..]);
      InsertSorted(items[0], SortItems(items[1..]));
    }
  }

  /** Two strictly sorted lists holding the same items start with the same item. */
  lemma SortedHeadsAgree(a: seq<Param>, b: seq<Param>)
    requires StrictlySorted(a) && StrictlySorted(b)
    requires multiset(a) == multiset(b) && a != []
    ensures b != [] && a[0] == b[0]
  {
    assert a[0] in multiset(b);
    var j :| 0 <= j < |b| && b[j] == a[0];
    assert b[0] in multiset(a);
    var i :| 0 <= i < |a| && a[i] == b[0];
    if i != 0 && j != 0 {
      assert StrLess(a[0].0, b[0].0) && StrLess(b[0].0, a[0].0);
      StrLessAsymmetric(a[0].0, b[0].0);
    }
  }

  /**
    Two strictly sorted lists holding the same items are the same list: the
    sorted form of a dict's items is unique.
   */
  lemma {:induction false} StrictlySortedUnique(a: seq<Param>, b: seq<Param>)
    requires StrictlySorted(a) && StrictlySorted(b)
    requires multiset(a) == multiset(b)
    ensures a == b
    decreases |a|
  {
    if a == [] {
      assert |b| == |multiset(b)| == 0;
    } else {
      SortedHeadsAgree(a, b);
      assert a == [a[0]] + a[1..] && b == [b[0]] + b[1..];
      assert multiset(a[1..]) == multiset(b[1..]) by {
        assert multiset(a) == multiset([a[0]] + a[1..]) == multiset([a[0]]) + multiset(a[1..]);
        assert multiset(b) == multiset([b[0]] + b[1..]) == multiset([b[0]]) + multiset(b[1..]);
        assert multiset(a[1..]) == multiset(a) - multiset([a[0]]);
        assert multiset(b[1..]) == multiset(b) - multiset([b[0]]);
      }
      SortedTail(a);
      SortedTail(b);
      StrictlySortedUnique(a[1..], b[1..]);
    }
  }

  /**
    Two dicts holding the same items, whatever their insertion order, sort to
    the same list.
   */
  lemma SortIgnoresInsertionOrder(a: seq<Param>, b: seq<Param>)
    requires DistinctKeys(a) && DistinctKeys(b)
    requires multiset(a) == multiset(b)
    ensures SortItems(a) == SortItems(b)
  {
    SortItemsSpec(a);
    SortItemsSpec(b);
    StrictlySortedUnique(SortItems(a), SortItems(b));
  }
}
