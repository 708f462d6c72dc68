/** Sequence operations the pages apply to their row lists: JavaScript's
    `Array.prototype.filter`, `findIndex`, element-wise `map` patches and
    `reduce` sums, with the facts about them the page lemmas rely on. */
module Lists {

  /** `xs.filter(p)`: the elements satisfying `p`, in their original order. */
  function Filter<T>(xs: seq<T>, p: T -> bool): (r: seq<T>)
    ensures |r| <= |xs|
    ensures forall i :: 0 <= i < |r| ==> p(r[i])
    ensures forall i :: 0 <= i < |r| ==> r[i] in xs
    ensures forall i :: 0 <= i < |xs| && p(xs[i]) ==> xs[i] in r
  {
    if xs == [] then []
    else if p(xs[0]) then [xs[0]] + Filter(xs[1..], p)
    else Filter(xs[1..], p)
  }

  /** `xs.filter(p).length`. */
  function Count<T>(xs: seq<T>, p: T -> bool): nat {
    |Filter(xs, p)|
  }

  /** `xs.findIndex(p)`: the first position satisfying `p`, or -1. */
  function FirstIndex<T>(xs: seq<T>, p: T -> bool): (k: int)
    ensures -1 <= k < |xs|
    ensures k >= 0 ==> p(xs[k]) && forall j :: 0 <= j < k ==> !p(xs[j])
    ensures k == -1 <==> forall j :: 0 <= j < |xs| ==> !p(xs[j])
  {
    if xs == [] then -1
    else if p(xs[0]) then 0
    else
      var k := FirstIndex(xs[1..], p);
      if k == -1 then -1 else k + 1
  }

  /** `xs.map(x => p(x) ? f(x) : x)`: rewrite the matching elements in place. */
  function Patch<T>(xs: seq<T>, p: T -> bool, f: T -> T): seq<T> {
    seq(|xs|, i requires 0 <= i < |xs| => if p(xs[i]) then f(xs[i]) else xs[i])
  }

  /** `xs.reduce((s, x) => s + f(x), 0)`. */
  function Sum<T>(xs: seq<T>, f: T -> int): int {
    if xs == [] then 0 else f(xs[0]) + Sum(xs[1..], f)
  }

  /** Filtering distributes over concatenation, so it keeps relative order. */
  lemma {:induction false} FilterConcat<T>(xs: seq<T>, ys: seq<T>, p: T -> bool)
    ensures Filter(xs + ys, p) == Filter(xs, p) + Filter(ys, p)
  {
    if xs == [] {
      assert xs + ys == ys;
    } else {
      assert (xs + ys)[1..] == xs[1..] + ys;
      FilterConcat(xs[1..], ys, p);
    }
  }

  /** Each value occurs in the filtered list as often as in the input when it
      satisfies `p`, and not at all otherwise. */
  lemma {:induction false} FilterMultiplicity<T>(xs: seq<T>, p: T -> bool, x: T)
    ensures multiset(Filter(xs, p))[x] == if p(x) then multiset(xs)[x] else 0
  {
    if xs != [] {
      assert xs == [xs[0]] + xs[1..];
      FilterMultiplicity(xs[1..], p, x);
    }
  }

  /** Filtering two permutations of one list yields permutations of each other. */
  lemma FilterPermutation<T>(xs: seq<T>, ys: seq<T>, p: T -> bool)
    requires multiset(xs) == multiset(ys)
    ensures multiset(Filter(xs, p)) == multiset(Filter(ys, p))
  {
    forall x
      ensures multiset(Filter(xs, p))[x] == multiset(Filter(ys, p))[x]
    {
      FilterMultiplicity(xs, p, x);
      FilterMultiplicity(ys, p, x);
    }
  }

  /** Counting is insensitive to the order of the list. */
  lemma CountPermutation<T>(xs: seq<T>, ys: seq<T>, p: T -> bool)
    requires multiset(xs) == multiset(ys)
    ensures Count(xs, p) == Count(ys, p)
  {
    FilterPermutation(xs, ys, p);
    assert |multiset(Filter(xs, p))| == |multiset(Filter(ys, p))|;
  }

  /** Counts of complementary predicates add up to the length of the list. */
  lemma {:induction false} CountComplement<T>(xs: seq<T>, p: T -> bool, q: T -> bool)
    requires forall x :: q(x) == !p(x)
    ensures Count(xs, p) + Count(xs, q) == |xs|
  {
    if xs != [] {
      CountComplement(xs[1..], p, q);
    }
  }

  /** Summation distributes over concatenation. */
  lemma {:induction false} SumConcat<T>(xs: seq<T>, ys: seq<T>, f: T -> int)
    ensures Sum(xs + ys, f) == Sum(xs, f) + Sum(ys, f)
  {
    if xs == [] {
      assert xs + ys == ys;
    } else {
      assert (xs + ys)[1..] == xs[1..] + ys;
      SumConcat(xs[1..], ys, f);
    }
  }

  /** A sum over a list is insensitive to the order of the list. */
  lemma {:induction false} SumPermutation<T>(xs: seq<T>, ys: seq<T>, f: T -> int)
    requires multiset(xs) == multiset(ys)
    ensures Sum(xs, f) == Sum(ys, f)
    decreases |xs|
  {
    if xs == [] {
      assert |multiset(ys)| == 0;
    } else {
      var k := MatchFirst(xs, ys);
      SumPermutation(xs[1..], ys[..k] + ys[k + 1..], f);
      SumRemoveAt(ys, k, f);
    }
  }

  /** In a permutation of a non-empty list, some position holds the list's
      first element, and the rest of both lists are permutations too. */
  lemma MatchFirst<T>(xs: seq<T>, ys: seq<T>) returns (k: int)
    requires xs != [] && multiset(xs) == multiset(ys)
    ensures 0 <= k < |ys| && ys[k] == xs[0]
    ensures multiset(xs[1..]) == multiset(ys[..k] + ys[k + 1..])
  {
    assert xs[0] in multiset(xs);
    assert xs[0] in ys;
    k :| 0 <= k < |ys| && ys[k] == xs[0];
    MultisetRemoveAt(ys, k);
    assert xs == [xs[0]] + xs[1..];
    assert multiset(xs) == multiset{xs[0]} + multiset(xs[1..]);
  }

  /** Deleting the element at position k removes one copy of it from the multiset. */
  lemma MultisetRemoveAt<T>(ys: seq<T>, k: int)
    requires 0 <= k < |ys|
    ensures multiset(ys[..k] + ys[k + 1..]) == multiset(ys) - multiset{ys[k]}
  {
    assert ys == ys[..k] + [ys[k]] + ys[k + 1..];
  }

  /** A sum is the element at position k plus the sum of the others. */
  lemma SumRemoveAt<T>(ys: seq<T>, k: int, f: T -> int)
    requires 0 <= k < |ys|
    ensures Sum(ys, f) == f(ys[k]) + Sum(ys[..k] + ys[k + 1..], f)
  {
    assert ys == ys[..k] + [ys[k]] + ys[k + 1..];
    assert [ys[k]][1..] == [];
    SumConcat(ys[..k] + [ys[k]], ys[k + 1..], f);
    SumConcat(ys[..k], [ys[k]], f);
    SumConcat(ys[..k], ys[k + 1..], f);
  }

  /** The element test `x => key(x) === id`, named so every use shares one term. */
  function HasKey<T, K(==)>(key: T -> K, id: K): T -> bool {
    x => key(x) == id
  }

  /** The element test `x => key(x) !== id`. */
  function LacksKey<T, K(==)>(key: T -> K, id: K): T -> bool {
    x => key(x) != id
  }

  /** No two rows share a key (the backend's `_id` is unique). */
  predicate UniqueKeys<T, K(==)>(xs: seq<T>, key: T -> K) {
    forall i, j :: 0 <= i < j < |xs| ==> key(xs[i]) != key(xs[j])
  }

  /** `xs.filter(x => key(x) !== id)`: delete the rows with key `id`. */
  function RemoveKey<T, K(==)>(xs: seq<T>, key: T -> K, id: K): (r: seq<T>)
    ensures forall i :: 0 <= i < |r| ==> key(r[i]) != id
    ensures forall i :: 0 <= i < |xs| && key(xs[i]) != id ==> xs[i] in r
    ensures forall i :: 0 <= i < |r| ==> r[i] in xs
  {
    Filter(xs, LacksKey(key, id))
  }

  /** `xs.map(x => key(x) === id ? f(x) : x)`: rewrite the rows with key `id`. */
  function PatchKey<T, K(==)>(xs: seq<T>, key: T -> K, id: K, f: T -> T): (r: seq<T>)
    ensures |r| == |xs|
    ensures forall i :: 0 <= i < |xs| && key(xs[i]) == id ==> r[i] == f(xs[i])
    ensures forall i :: 0 <= i < |xs| && key(xs[i]) != id ==> r[i] == xs[i]
  {
    Patch(xs, HasKey(key, id), f)
  }

  /** Removing a key that no row has leaves the list as it was. */
  lemma {:induction false} RemoveAbsentKey<T, K>(xs: seq<T>, key: T -> K, id: K)
    requires forall i :: 0 <= i < |xs| ==> key(xs[i]) != id
    ensures RemoveKey(xs, key, id) == xs
  {
    if xs != [] {
      RemoveAbsentKey(xs[1..], key, id);
    }
  }

  /** Removing the key of one row of a list with unique keys deletes exactly
      that row: the rows before and after it stay, in order. */
  lemma RemoveUniqueKey<T, K>(xs: seq<T>, key: T -> K, k: int)
    requires UniqueKeys(xs, key) && 0 <= k < |xs|
    ensures RemoveKey(xs, key, key(xs[k])) == xs[..k] + xs[k + 1..]
    ensures |RemoveKey(xs, key, key(xs[k]))| == |xs| - 1
  {
    var id := key(xs[k]);
    var before, after := xs[..k], xs[k + 1..];
    assert xs == before + [xs[k]] + after;
    forall i | 0 <= i < |before|
      ensures LacksKey(key, id)(before[i])
    {
      assert before[i] == xs[i];
    }
    forall i | 0 <= i < |after|
      ensures LacksKey(key, id)(after[i])
    {
      assert after[i] == xs[k + 1 + i];
    }
    FilterDropsOne(before, xs[k], after, LacksKey(key, id));
  }

  /** Filtering out a single rejected element between kept ones removes just it. */
  lemma {:induction false} FilterDropsOne<T>(before: seq<T>, x: T, after: seq<T>, p: T -> bool)
    requires forall i :: 0 <= i < |before| ==> p(before[i])
    requires forall i :: 0 <= i < |after| ==> p(after[i])
    requires !p(x)
    ensures Filter(before + [x] + after, p) == before + after
  {
    if before == [] {
      assert before + [x] + after == [x] + after;
      assert ([x] + after)[1..] == after;
      FilterKeepsAll(after, p);
    } else {
      assert (before + [x] + after)[0] == before[0];
      assert (before + [x] + after)[1..] == before[1..] + [x] + after;
      FilterDropsOne(before[1..], x, after, p);
      assert before + after == [before[0]] + (before[1..] + after);
    }
  }

  /** Filtering a list whose every element passes keeps it whole. */
  lemma {:induction false} FilterKeepsAll<T>(xs: seq<T>, p: T -> bool)
    requires forall i :: 0 <= i < |xs| ==> p(xs[i])
    ensures Filter(xs, p) == xs
  {
    if xs != [] {
      FilterKeepsAll(xs[1..], p);
      assert xs == [xs[0]] + xs[1..];
    }
  }

  /** Patching keeps the keys of all rows when the rewrite keeps the key of
      the rows it applies to, so uniqueness survives. */
  lemma PatchKeyKeepsKeys<T, K>(xs: seq<T>, key: T -> K, id: K, f: T -> T)
    requires forall x :: key(x) == id ==> key(f(x)) == id
    ensures forall i :: 0 <= i < |xs| ==> key(PatchKey(xs, key, id, f)[i]) == key(xs[i])
    ensures UniqueKeys(xs, key) ==> UniqueKeys(PatchKey(xs, key, id, f), key)
  {
  }

  /** Appending a row whose key is new keeps the keys unique. */
  lemma AppendFreshKey<T, K>(xs: seq<T>, key: T -> K, x: T)
    requires UniqueKeys(xs, key)
    requires forall i :: 0 <= i < |xs| ==> key(xs[i]) != key(x)
    ensures UniqueKeys(xs + [x], key)
  {
  }

  /** The "Sr No." cell: `rows.findIndex(r => key(r) === id) + 1`, counted in
      the full list the table was given; 0 when no row has that key. */
  function RowNumber<T, K(==)>(rows: seq<T>, key: T -> K, id: K): int {
    FirstIndex(rows, HasKey(key, id)) + 1
  }

  /** With unique keys, the k-th row (from 0) is numbered k + 1, and a key
      that no row has is numbered 0. */
  lemma RowNumberOfRow<T, K>(rows: seq<T>, key: T -> K, id: K)
    requires UniqueKeys(rows, key)
    ensures forall k :: 0 <= k < |rows| && key(rows[k]) == id ==> RowNumber(rows, key, id) == k + 1
    ensures RowNumber(rows, key, id) == 0 <==> forall k :: 0 <= k < |rows| ==> key(rows[k]) != id
  {
  }

  /** After deleting the row at position k, every later row moves up by one
      number and every earlier row keeps its number. */
  lemma RowNumberAfterRemoval<T, K>(rows: seq<T>, key: T -> K, k: int, j: int)
    requires UniqueKeys(rows, key) && 0 <= k < |rows| && 0 <= j < |rows| && j != k
    ensures RowNumber(RemoveKey(rows, key, key(rows[k])), key, key(rows[j])) ==
            if j < k then j + 1 else j
  {
    var rest := RemoveKey(rows, key, key(rows[k]));
    RemoveUniqueKey(rows, key, k);
    assert rest == rows[..k] + rows[k + 1..];
    FilterKeepsUniqueKeys(rows, key, LacksKey(key, key(rows[k])));
    var j' := if j < k then j else j - 1;
    assert rest[j'] == rows[j];
    RowNumberOfRow(rest, key, key(rows[j]));
  }

  /** Two lists that agree on a test element by element agree on where it
      first holds. */
  lemma FirstIndexSameTests<T>(xs: seq<T>, ys: seq<T>, p: T -> bool)
    requires |xs| == |ys|
    requires forall i :: 0 <= i < |xs| ==> p(xs[i]) == p(ys[i])
    ensures FirstIndex(xs, p) == FirstIndex(ys, p)
  {
  }

  /** Filtering a list with unique keys leaves a list with unique keys. */
  lemma {:induction false} FilterKeepsUniqueKeys<T, K>(xs: seq<T>, key: T -> K, p: T -> bool)
    requires UniqueKeys(xs, key)
    ensures UniqueKeys(Filter(xs, p), key)
  {
    if xs != [] {
      var rest := Filter(xs[1..], p);
      assert UniqueKeys(xs[1..], key) by {
        forall a, b | 0 <= a < b < |xs[1..]|
          ensures key(xs[1..][a]) != key(xs[1..][b])
        {
          assert xs[1..][a] == xs[a + 1] && xs[1..][b] == xs[b + 1];
        }
      }
      FilterKeepsUniqueKeys(xs[1..], key, p);
      if p(xs[0]) {
        forall i | 0 <= i < |rest|
          ensures key(rest[i]) != key(xs[0])
        {
          var j :| 0 <= j < |xs[1..]| && xs[1..][j] == rest[i];
          assert xs[1..][j] == xs[j + 1];
        }
      }
    }
  }

  /** With unique keys, patching the key of the k-th row rewrites that row
      and no other. */
  lemma PatchUniqueKey<T, K>(xs: seq<T>, key: T -> K, f: T -> T, k: int)
    requires UniqueKeys(xs, key) && 0 <= k < |xs|
    ensures PatchKey(xs, key, key(xs[k]), f) == xs[k := f(xs[k])]
  {
    var r := PatchKey(xs, key, key(xs[k]), f);
    assert forall i :: 0 <= i < |xs| ==> r[i] == xs[k := f(xs[k])][i];
  }

  /** Replacing one element changes a count by what the old element
      contributed and what the new one contributes. */
  lemma CountUpdate<T>(xs: seq<T>, k: int, v: T, p: T -> bool)
    requires 0 <= k < |xs|
    ensures Count(xs[k := v], p) ==
            Count(xs, p) - (if p(xs[k]) then 1 else 0) + (if p(v) then 1 else 0)
  {
    var ys := xs[k := v];
    assert xs == xs[..k] + [xs[k]] + xs[k + 1..];
    assert ys == xs[..k] + [v] + xs[k + 1..];
    FilterConcat(xs[..k] + [xs[k]], xs[k + 1..], p);
    FilterConcat(xs[..k], [xs[k]], p);
    FilterConcat(xs[..k] + [v], xs[k + 1..], p);
    FilterConcat(xs[..k], [v], p);
  }

  /** Appending one element adds its contribution to a count. */
  lemma CountAppend<T>(xs: seq<T>, v: T, p: T -> bool)
    ensures Count(xs + [v], p) == Count(xs, p) + if p(v) then 1 else 0
  {
    FilterConcat(xs, [v], p);
  }

  /** A sum of values that all lie in [lo, hi] lies in [lo * n, hi * n]. */
  lemma {:induction false} SumBounds<T>(xs: seq<T>, f: T -> int, lo: int, hi: int)
    requires forall i :: 0 <= i < |xs| ==> lo <= f(xs[i]) <= hi
    ensures lo * |xs| <= Sum(xs, f) <= hi * |xs|
  {
    if xs != [] {
      SumBounds(xs[1..], f, lo, hi);
      assert lo <= f(xs[0]) <= hi;
    }
  }
}
