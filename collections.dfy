/** Collection helpers shared by the model: order-preserving filtering of
    sequences and maps, flattening a sequence of batches, and a sort
    by an integer key (ascending or descending), which is how a query's
    `order_by` is modelled. */
module Collections {

  /** The elements of `s` that satisfy `keep`, in their original order. */
  function Filter<T(!new)>(s: seq<T>, keep: T -> bool): (r: seq<T>)
    ensures |r| <= |s|
  {
    if s == [] then []
    else (if keep(s[0]) then [s[0]] else []) + Filter(s[1..], keep)
  }

  /** An element is kept exactly when it occurs in the input and passes. */
  lemma {:induction false} FilterMembers<T(!new)>(s: seq<T>, keep: T -> bool)
    ensures forall x :: x in Filter(s, keep) <==> x in s && keep(x)
  {
    if s != [] {
      FilterMembers(s[1..], keep);
      assert s == [s[0]] + s[1..];
    }
  }

  /** Filtering distributes over concatenation: filtering keeps the relative
      order of the elements it retains. */
  lemma {:induction false} FilterAppend<T(!new)>(a: seq<T>, b: seq<T>, keep: T -> bool)
    ensures Filter(a + b, keep) == Filter(a, keep) + Filter(b, keep)
  {
    if a == [] {
      assert a + b == b;
    } else {
      var c := a + b;
      assert c[0] == a[0] && c[1..] == a[1..] + b;
      FilterAppend(a[1..], b, keep);
      calc {
        Filter(c, keep);
        (if keep(c[0]) then [c[0]] else []) + Filter(c[1..], keep);
        (if keep(a[0]) then [a[0]] else []) + (Filter(a[1..], keep) + Filter(b, keep));
        Filter(a, keep) + Filter(b, keep);
      }
    }
  }

  /** Filtering a prefix one element longer. */
  lemma FilterPrefixStep<T(!new)>(s: seq<T>, j: nat, keep: T -> bool)
    requires j < |s|
    ensures Filter(s[..j + 1], keep) == Filter(s[..j], keep) + (if keep(s[j]) then [s[j]] else [])
  {
    assert s[..j + 1] == s[..j] + [s[j]];
    FilterAppend(s[..j], [s[j]], keep);
  }

  /** A filter that every element passes returns its input unchanged. */
  lemma {:induction false} FilterAllKept<T(!new)>(s: seq<T>, keep: T -> bool)
    requires forall i :: 0 <= i < |s| ==> keep(s[i])
    ensures Filter(s, keep) == s
  {
    if s != [] {
      FilterAllKept(s[1..], keep);
    }
  }

  /** The entries of `m` whose value satisfies `keep`: a filtered delete on
      a table keyed by primary key. */
  function FilterMap<K, V(!new)>(m: map<K, V>, keep: V -> bool): (r: map<K, V>)
    ensures r.Keys <= m.Keys
    ensures forall k :: k in r ==> r[k] == m[k] && keep(m[k])
    ensures forall k :: k in m && keep(m[k]) ==> k in r
  {
    map k | k in m && keep(m[k]) :: m[k]
  }

  /** The concatenation of a sequence of batches, first batch first. */
  function Flatten<T>(batches: seq<seq<T>>): seq<T> {
    if batches == [] then []
    else Flatten(batches[..|batches| - 1]) + batches[|batches| - 1]
  }

  lemma FlattenAppend<T>(batches: seq<seq<T>>, b: seq<T>)
    ensures Flatten(batches + [b]) == Flatten(batches) + b
  {
    assert (batches + [b])[..|batches|] == batches;
  }

  /** Filtering the rows of one more batch. */
  lemma FilterFlattenPrefixStep<T(!new)>(batches: seq<seq<T>>, b: nat, keep: T -> bool)
    requires b < |batches|
    ensures Filter(Flatten(batches[..b + 1]), keep) ==
            Filter(Flatten(batches[..b]), keep) + Filter(batches[b], keep)
  {
    assert batches[..b + 1] == batches[..b] + [batches[b]];
    FlattenAppend(batches[..b], batches[b]);
    FilterAppend(Flatten(batches[..b]), batches[b], keep);
  }

  /** `a` may come before `b` in an ordering on keys; descending orderings
      are Django's `'-field'` form. Equal keys may appear in either order. */
  predicate Precedes(a: int, b: int, descending: bool) {
    if descending then a >= b else a <= b
  }

  /** `s` is ordered by `key`. */
  predicate OrderedBy<T>(s: seq<T>, key: T -> int, descending: bool) {
    forall i, j :: 0 <= i < j < |s| ==> Precedes(key(s[i]), key(s[j]), descending)
  }

  /** An element that may precede the head of an ordered sequence may
      precede all of it. */
  lemma ConsOrdered<T>(h: T, s: seq<T>, key: T -> int, descending: bool)
    requires OrderedBy(s, key, descending)
    requires s != [] ==> Precedes(key(h), key(s[0]), descending)
    ensures OrderedBy([h] + s, key, descending)
  {
    var r := [h] + s;
    forall i, j | 0 <= i < j < |r|
      ensures Precedes(key(r[i]), key(r[j]), descending)
    {
      if i == 0 && j > 1 {
        assert Precedes(key(s[0]), key(s[j - 1]), descending);
      }
    }
  }

  /** Inserts `x` before the first element that `x` must precede, that is,
      after every element with the same key. */
  function Insert<T(!new)>(x: T, s: seq<T>, key: T -> int, descending: bool): (r: seq<T>)
    ensures |r| == |s| + 1
    ensures multiset(r) == multiset(s) + multiset{x}
  {
    if s == [] then [x]
    else if !Precedes(key(s[0]), key(x), descending) then [x] + s
    else
      assert s == [s[0]] + s[1..];
      [s[0]] + Insert(x, s[1..], key, descending)
  }

  /** Inserting into an ordered sequence keeps it ordered. */
  lemma {:induction false} InsertOrdered<T(!new)>(x: T, s: seq<T>, key: T -> int, descending: bool)
    requires OrderedBy(s, key, descending)
    ensures OrderedBy(Insert(x, s, key, descending), key, descending)
    ensures var r := Insert(x, s, key, descending); r[0] == x || (s != [] && r[0] == s[0])
  {
    if s == [] {
    } else if !Precedes(key(s[0]), key(x), descending) {
      ConsOrdered(x, s, key, descending);
    } else {
      assert OrderedBy(s[1..], key, descending) by {
        forall i, j | 0 <= i < j < |s| - 1
          ensures Precedes(key(s[1..][i]), key(s[1..][j]), descending)
        {
          assert s[1..][i] == s[i + 1] && s[1..][j] == s[j + 1];
        }
      }
      InsertOrdered(x, s[1..], key, descending);
      var rest := Insert(x, s[1..], key, descending);
      assert Precedes(key(s[0]), key(rest[0]), descending);
      ConsOrdered(s[0], rest, key, descending);
    }
  }

  /** The rows of `s` reordered by `key`, by insertion. Rows with equal
      keys come out in no promised order, as with an SQL `ORDER BY`. */
  function SortBy<T(!new)>(s: seq<T>, key: T -> int, descending: bool): (r: seq<T>)
    ensures OrderedBy(r, key, descending)
    ensures multiset(r) == multiset(s)
    ensures |r| == |s|
  {
    if s == [] then []
    else
      assert s == [s[0]] + s[1..];
      var sorted := SortBy(s[1..], key, descending);
      InsertOrdered(s[0], sorted, key, descending);
      Insert(s[0], sorted, key, descending)
  }
}
