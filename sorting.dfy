/** Ordering a list by a real-valued key looked up per element, as
    `np.array(ids)[np.argsort(keys)]` does. numpy's default sort is not
    stable, so the model fixes one order (a stable insertion sort) and its
    contracts promise only what any argsort promises: the result is a
    permutation of the input and the keys are non-decreasing along it. */
module Sorting {

  predicate HasKeys<T(==)>(s: seq<T>, key: map<T, real>) {
    forall k :: 0 <= k < |s| ==> s[k] in key
  }

  predicate SortedByKey<T(==)>(s: seq<T>, key: map<T, real>)
    requires HasKeys(s, key)
  {
    forall a, b :: 0 <= a < b < |s| ==> key[s[a]] <= key[s[b]]
  }

  /** Insert x after every element whose key is not larger. */
  function Insert<T(==)>(x: T, s: seq<T>, key: map<T, real>): (r: seq<T>)
    requires x in key && HasKeys(s, key)
    ensures |r| == |s| + 1
    ensures multiset(r) == multiset(s) + multiset{x}
    ensures HasKeys(r, key)
  {
    if |s| == 0 then [x]
    else if key[x] < key[s[0]] then [x] + s
    else
      var rest := Insert(x, s[1..], key);
      assert s == [s[0]] + s[1..];
      assert forall k :: 0 <= k < |rest| ==> rest[k] in multiset(s[1..]) + multiset{x};
      [s[0]] + rest
  }

  /** Inserting into an ordered list keeps it ordered. */
  lemma {:induction false} InsertSorted<T>(x: T, s: seq<T>, key: map<T, real>)
    requires x in key && HasKeys(s, key) && SortedByKey(s, key)
    ensures SortedByKey(Insert(x, s, key), key)
    decreases |s|
  {
    if |s| > 0 && key[x] >= key[s[0]] {
      var rest := Insert(x, s[1..], key);
      InsertSorted(x, s[1..], key);
      assert s == [s[0]] + s[1..];
      forall k | 0 <= k < |rest| ensures key[s[0]] <= key[rest[k]] {
        assert rest[k] in multiset(s[1..]) + multiset{x};
        if rest[k] != x {
          assert rest[k] in s[1..];
        }
      }
    }
  }

  /** The elements of s ordered by non-decreasing key. */
  function SortByKey<T(==)>(s: seq<T>, key: map<T, real>): (r: seq<T>)
    requires HasKeys(s, key)
    ensures |r| == |s|
    ensures multiset(r) == multiset(s)
    ensures HasKeys(r, key) && SortedByKey(r, key)
    decreases |s|
  {
    if |s| == 0 then []
    else
      assert s == s[..|s| - 1] + [s[|s| - 1]];
      var init := SortByKey(s[..|s| - 1], key);
      InsertSorted(s[|s| - 1], init, key);
      Insert(s[|s| - 1], init, key)
  }

  /** A list that is already ordered comes back unchanged. */
  lemma {:induction false} SortByKeyOfSorted<T>(s: seq<T>, key: map<T, real>)
    requires HasKeys(s, key) && SortedByKey(s, key)
    ensures SortByKey(s, key) == s
    decreases |s|
  {
    if |s| > 0 {
      var init := s[..|s| - 1];
      var last := s[|s| - 1];
      SortedSplit(s, key);
      SortByKeyOfSorted(init, key);
      InsertLargest(last, init, key);
      assert init + [last] == s;
    }
  }

  /** Dropping the last element of an ordered list leaves an ordered list
      whose keys are all at most the dropped one's. */
  lemma SortedSplit<T>(s: seq<T>, key: map<T, real>)
    requires |s| > 0 && HasKeys(s, key) && SortedByKey(s, key)
    ensures HasKeys(s[..|s| - 1], key) && SortedByKey(s[..|s| - 1], key)
    ensures forall k :: 0 <= k < |s| - 1 ==> key[s[k]] <= key[s[|s| - 1]]
  {
    var init := s[..|s| - 1];
    forall k | 0 <= k < |init| ensures init[k] == s[k] { }
  }

  /** Inserting an element whose key is at least every other key appends it. */
  lemma {:induction false} InsertLargest<T>(x: T, s: seq<T>, key: map<T, real>)
    requires x in key && HasKeys(s, key) && SortedByKey(s, key)
    requires forall k :: 0 <= k < |s| ==> key[s[k]] <= key[x]
    ensures Insert(x, s, key) == s + [x]
    decreases |s|
  {
    if |s| > 0 {
      InsertLargest(x, s[1..], key);
      assert [s[0]] + (s[1..] + [x]) == s + [x];
    }
  }
}
