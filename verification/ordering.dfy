/** The execution order: a copy of the program list sorted by ascending `y`
    with a stable sort, as `[...blocks].sort((a, b) => a.y - b.y)` is since the
    2019 edition of ECMA-262. The sort is an insertion sort; what it computes
    is pinned down independently by `IsStableSortByY`. */
module Ordering {
  import opened Blocks

  ghost predicate SortedByY(s: seq<Block>) {
    forall i, j :: 0 <= i < j < |s| ==> s[i].y <= s[j].y
  }

  /** The blocks of `s` whose sort key is `key`, in the order of `s`. */
  function WithY(s: seq<Block>, key: int): seq<Block> {
    if |s| == 0 then []
    else (if s[0].y == key then [s[0]] else []) + WithY(s[1..], key)
  }

  /** `r` is a stable sort of `s` by `y`: sorted, and for every key the blocks
      with that key appear in `r` in the same order as in `s`. */
  ghost predicate IsStableSortByY(s: seq<Block>, r: seq<Block>) {
    && SortedByY(r)
    && forall key :: WithY(r, key) == WithY(s, key)
  }

  /** Inserts `b` in front of the first block whose key is not smaller. */
  function Insert(b: Block, s: seq<Block>): (r: seq<Block>)
    requires SortedByY(s)
    ensures SortedByY(r)
    ensures multiset(r) == multiset(s) + multiset{b}
    ensures forall x :: x in r ==> x == b || x in s
  {
    if |s| == 0 || b.y <= s[0].y then [b] + s
    else
      var rest := Insert(b, s[1..]);
      assert s == [s[0]] + s[1..];
      assert forall x :: x in rest ==> s[0].y <= x.y;
      ConsSorted(s[0], rest);
      [s[0]] + rest
  }

  /** A block no later in key than all of a sorted list can go in front. */
  lemma ConsSorted(b: Block, s: seq<Block>)
    requires SortedByY(s)
    requires forall x :: x in s ==> b.y <= x.y
    ensures SortedByY([b] + s)
  {
    var r := [b] + s;
    forall i, j | 0 <= i < j < |r|
      ensures r[i].y <= r[j].y
    {
      assert r[j] == s[j - 1];
      if i > 0 {
        assert r[i] == s[i - 1];
      }
    }
  }

  /** Sorts by inserting the first block into the sorted rest. A block placed
      ahead of its equal-key successors keeps its place in front of them. */
  function SortByY(s: seq<Block>): (r: seq<Block>)
    ensures SortedByY(r)
    ensures multiset(r) == multiset(s)
    ensures |r| == |s|
  {
    if |s| == 0 then []
    else
      assert s == [s[0]] + s[1..];
      Insert(s[0], SortByY(s[1..]))
  }

  lemma {:induction false} WithYAppend(a: seq<Block>, b: seq<Block>, key: int)
    ensures WithY(a + b, key) == WithY(a, key) + WithY(b, key)
    decreases |a|
  {
    if |a| == 0 {
      assert a + b == b;
    } else {
      var head := if a[0].y == key then [a[0]] else [];
      assert (a + b)[0] == a[0];
      assert (a + b)[1..] == a[1..] + b;
      assert WithY(a + b, key) == head + WithY(a[1..] + b, key);
      WithYAppend(a[1..], b, key);
      assert head + (WithY(a[1..], key) + WithY(b, key)) == (head + WithY(a[1..], key)) + WithY(b, key);
    }
  }

  /** No block of a list whose keys all exceed `key` has that key. */
  lemma {:induction false} WithYAbove(s: seq<Block>, key: int)
    requires forall i :: 0 <= i < |s| ==> key < s[i].y
    ensures WithY(s, key) == []
    decreases |s|
  {
    if |s| > 0 {
      WithYAbove(s[1..], key);
    }
  }

  /** Inserting into a sorted list puts `b` in front of the blocks with the
      same key. */
  lemma {:induction false} InsertWithY(b: Block, s: seq<Block>, key: int)
    requires SortedByY(s)
    ensures WithY(Insert(b, s), key) == (if b.y == key then [b] else []) + WithY(s, key)
    decreases |s|
  {
    var r := Insert(b, s);
    if |s| == 0 || b.y <= s[0].y {
      assert r[1..] == s;
    } else {
      var rest := Insert(b, s[1..]);
      InsertWithY(b, s[1..], key);
      assert r[1..] == rest;
      assert WithY(r, key) == (if s[0].y == key then [s[0]] else []) + WithY(rest, key);
      assert WithY(s, key) == (if s[0].y == key then [s[0]] else []) + WithY(s[1..], key);
    }
  }

  /** The sort keeps the relative order of blocks with equal keys. */
  lemma {:induction false} SortByYStable(s: seq<Block>, key: int)
    ensures WithY(SortByY(s), key) == WithY(s, key)
    decreases |s|
  {
    if |s| > 0 {
      SortByYStable(s[1..], key);
      InsertWithY(s[0], SortByY(s[1..]), key);
    }
  }

  /** A non-empty list has a block with its first key. */
  lemma WithYFirst(s: seq<Block>)
    requires |s| > 0
    ensures WithY(s, s[0].y) != []
  {
  }

  /** Two sorted lists that agree on the blocks of every key are equal: a
      stable sort has exactly one possible result. */
  lemma {:induction false} StableSortUnique(a: seq<Block>, b: seq<Block>)
    requires SortedByY(a) && SortedByY(b)
    requires forall key :: WithY(a, key) == WithY(b, key)
    ensures a == b
    decreases |a|
  {
    if |a| == 0 {
      if |b| > 0 {
        WithYFirst(b);
        assert false;
      }
    } else if |b| == 0 {
      WithYFirst(a);
      assert false;
    } else {
      var ka, kb := a[0].y, b[0].y;
      if ka < kb {
        WithYAbove(b, ka);
        WithYFirst(a);
        assert false;
      } else if kb < ka {
        WithYAbove(a, kb);
        WithYFirst(b);
        assert false;
      } else {
        assert WithY(a, ka) == [a[0]] + WithY(a[1..], ka);
        assert WithY(b, ka) == [b[0]] + WithY(b[1..], ka);
        assert a[0] == WithY(a, ka)[0] == WithY(b, ka)[0] == b[0];
        forall key
          ensures WithY(a[1..], key) == WithY(b[1..], key)
        {
          var wa, wb := WithY(a, key), WithY(b, key);
          assert wa == wb;
          if key == ka {
            assert wa == [a[0]] + WithY(a[1..], key);
            assert wb == [b[0]] + WithY(b[1..], key);
            assert wa[1..] == WithY(a[1..], key);
            assert wb[1..] == WithY(b[1..], key);
          } else {
            assert wa == WithY(a[1..], key);
            assert wb == WithY(b[1..], key);
          }
        }
        StableSortUnique(a[1..], b[1..]);
        assert a == [a[0]] + a[1..];
        assert b == [b[0]] + b[1..];
      }
    }
  }

  /** `SortByY(s)` is the stable sort of `s` by `y`, and the only one. */
  lemma SortByYIsTheStableSort(s: seq<Block>, r: seq<Block>)
    ensures IsStableSortByY(s, SortByY(s))
    ensures IsStableSortByY(s, r) <==> r == SortByY(s)
  {
    forall key
      ensures WithY(SortByY(s), key) == WithY(s, key)
    {
      SortByYStable(s, key);
    }
    if IsStableSortByY(s, r) {
      StableSortUnique(r, SortByY(s));
    }
  }

  /** Sorting a list that is already in order changes nothing. */
  lemma SortByYSortedUnchanged(s: seq<Block>)
    requires SortedByY(s)
    ensures SortByY(s) == s
  {
    SortByYIsTheStableSort(s, s);
  }
}
