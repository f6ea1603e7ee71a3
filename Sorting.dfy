/** The example quicksort: last-element pivot, a partition loop, and recursion on both sides. */
module Sorting {

  predicate Sorted(s: seq<int>) {
    forall i, j :: 0 <= i < j < |s| ==> s[i] <= s[j]
  }

  /** The elements of `s` below the pivot, in order. */
  function Below(s: seq<int>, pivot: int): seq<int> {
    if s == [] then []
    else Below(s[..|s| - 1], pivot) + (if s[|s| - 1] < pivot then [s[|s| - 1]] else [])
  }

  /** The elements of `s` at or above the pivot, in order. */
  function AtLeast(s: seq<int>, pivot: int): seq<int> {
    if s == [] then []
    else AtLeast(s[..|s| - 1], pivot) + (if s[|s| - 1] < pivot then [] else [s[|s| - 1]])
  }

  lemma {:induction false} BelowBounded(s: seq<int>, pivot: int)
    ensures forall x :: x in Below(s, pivot) ==> x < pivot
    decreases |s|
  {
    if s != [] {
      BelowBounded(s[..|s| - 1], pivot);
    }
  }

  lemma {:induction false} AtLeastBounded(s: seq<int>, pivot: int)
    ensures forall x :: x in AtLeast(s, pivot) ==> x >= pivot
    decreases |s|
  {
    if s != [] {
      AtLeastBounded(s[..|s| - 1], pivot);
    }
  }

  /** Every element of `s` lands on exactly one side. */
  lemma {:induction false} SidesKeepElements(s: seq<int>, pivot: int)
    ensures multiset(Below(s, pivot)) + multiset(AtLeast(s, pivot)) == multiset(s)
    decreases |s|
  {
    if s != [] {
      var init, x := s[..|s| - 1], s[|s| - 1];
      SidesKeepElements(init, pivot);
      assert s == init + [x];
      assert multiset(s) == multiset(init) + multiset{x};
      if x < pivot {
        assert multiset(Below(s, pivot)) == multiset(Below(init, pivot)) + multiset{x};
        assert AtLeast(s, pivot) == AtLeast(init, pivot) + [];
      } else {
        assert Below(s, pivot) == Below(init, pivot) + [];
        assert multiset(AtLeast(s, pivot)) == multiset(AtLeast(init, pivot)) + multiset{x};
      }
    }
  }

  /**
    The two sides split `s` by the pivot: the left side is below it, the right
    side at or above it, and together they hold the elements of `s`, so each is
    shorter than `s` plus the pivot.
  */
  lemma SidesSplit(s: seq<int>, pivot: int)
    ensures forall x :: x in Below(s, pivot) ==> x < pivot
    ensures forall x :: x in AtLeast(s, pivot) ==> x >= pivot
    ensures multiset(Below(s, pivot)) + multiset(AtLeast(s, pivot)) == multiset(s)
    ensures |Below(s, pivot)| + |AtLeast(s, pivot)| == |s|
  {
    BelowBounded(s, pivot);
    AtLeastBounded(s, pivot);
    SidesKeepElements(s, pivot);
    assert |multiset(Below(s, pivot))| + |multiset(AtLeast(s, pivot))| == |multiset(s)|;
  }

  /** The partition loop: elements below the pivot go left, the others right, in their order. */
  method Partition(items: seq<int>, pivot: int) returns (left: seq<int>, right: seq<int>)
    ensures left == Below(items, pivot) && right == AtLeast(items, pivot)
  {
    left, right := [], [];
    for i := 0 to |items|
      invariant left == Below(items[..i], pivot) && right == AtLeast(items[..i], pivot)
    {
      assert items[..i + 1][..i] == items[..i];
      if items[i] < pivot {
        left := left + [items[i]];
      } else {
        right := right + [items[i]];
      }
    }
    assert items[..|items|] == items;
  }

  lemma SortedAround(left: seq<int>, pivot: int, right: seq<int>)
    requires Sorted(left) && Sorted(right)
    requires forall x :: x in left ==> x < pivot
    requires forall x :: x in right ==> x >= pivot
    ensures Sorted(left + [pivot] + right)
  {
    var s := left + [pivot] + right;
    forall i, j | 0 <= i < j < |s| ensures s[i] <= s[j] {
      if j < |left| {
      } else if i < |left| {
        assert s[i] in left;
        if j > |left| {
          assert s[j] in right;
        }
      } else if i == |left| {
        assert s[j] in right;
      }
    }
  }

  /**
    Sorted sides with the elements of the partition's sides, put around the
    pivot, give a sorted sequence with the elements of both sides and the pivot.
  */
  lemma Assemble(left: seq<int>, right: seq<int>, pivot: int, sortedLeft: seq<int>, sortedRight: seq<int>)
    requires forall x :: x in left ==> x < pivot
    requires forall x :: x in right ==> x >= pivot
    requires Sorted(sortedLeft) && multiset(sortedLeft) == multiset(left)
    requires Sorted(sortedRight) && multiset(sortedRight) == multiset(right)
    ensures Sorted(sortedLeft + [pivot] + sortedRight)
    ensures multiset(sortedLeft + [pivot] + sortedRight) == multiset(left) + multiset(right) + multiset{pivot}
  {
    forall x | x in sortedLeft ensures x < pivot {
      assert x in multiset(sortedLeft);
      assert x in left;
    }
    forall x | x in sortedRight ensures x >= pivot {
      assert x in multiset(sortedRight);
      assert x in right;
    }
    SortedAround(sortedLeft, pivot, sortedRight);
  }

  /** `quicksort`: the result is sorted and a permutation of the input; short inputs come back unchanged. */
  method Quicksort(arr: seq<int>) returns (r: seq<int>)
    ensures |arr| <= 1 ==> r == arr
    ensures Sorted(r)
    ensures multiset(r) == multiset(arr)
    decreases |arr|
  {
    if |arr| <= 1 {
      return arr;
    }
    var pivot := arr[|arr| - 1];
    var rest := arr[..|arr| - 1];
    assert multiset(arr) == multiset(rest) + multiset{pivot} by {
      assert arr == rest + [pivot];
    }
    var left, right := Partition(rest, pivot);
    SidesSplit(rest, pivot);
    var sortedLeft := Quicksort(left);
    var sortedRight := Quicksort(right);
    Assemble(left, right, pivot, sortedLeft, sortedRight);
    r := sortedLeft + [pivot] + sortedRight;
  }

  /** The first element of a sorted sequence is its least. */
  lemma SortedHead(a: seq<int>, x: int)
    requires Sorted(a) && x in multiset(a)
    ensures a[0] <= x
  {
    var i :| 0 <= i < |a| && a[i] == x;
  }

  lemma SortedTail(a: seq<int>)
    requires Sorted(a) && a != []
    ensures Sorted(a[1..]) && multiset(a[1..]) == multiset(a) - multiset{a[0]}
  {
    assert a == [a[0]] + a[1..];
    assert multiset(a) == multiset{a[0]} + multiset(a[1..]);
  }

  /** A sorted permutation is unique: any two sorted sequences with the same elements are equal. */
  lemma {:induction false} SortedUnique(a: seq<int>, b: seq<int>)
    requires Sorted(a) && Sorted(b) && multiset(a) == multiset(b)
    ensures a == b
    decreases |a|
  {
    assert |a| == |multiset(a)| == |b|;
    if a != [] {
      assert a[0] == b[0] by {
        assert a[0] in multiset(b) && b[0] in multiset(a);
        SortedHead(a, b[0]);
        SortedHead(b, a[0]);
      }
      SortedTail(a);
      SortedTail(b);
      SortedUnique(a[1..], b[1..]);
      assert a == [a[0]] + a[1..] && b == [b[0]] + b[1..];
    }
  }

  /** How often each value occurs in the example. */
  function ExampleMultiplicity(x: int): nat {
    if x == 1 then 2 else if x == 2 || x == 3 || x == 6 || x == 8 || x == 10 then 1 else 0
  }

  lemma InputCounts()
    ensures forall x :: multiset([3, 6, 8, 10, 1, 2, 1])[x] == ExampleMultiplicity(x)
  {
  }

  lemma ExpectedCounts()
    ensures forall x :: multiset([1, 1, 2, 3, 6, 8, 10])[x] == ExampleMultiplicity(x)
  {
  }

  /** The example input and the expected output hold the same elements. */
  lemma ExampleSameElements()
    ensures multiset([1, 1, 2, 3, 6, 8, 10]) == multiset([3, 6, 8, 10, 1, 2, 1])
  {
    InputCounts();
    ExpectedCounts();
  }

  /** Any result of sorting the example input is `[1, 1, 2, 3, 6, 8, 10]`. */
  lemma ExampleSorted(r: seq<int>)
    requires Sorted(r) && multiset(r) == multiset([3, 6, 8, 10, 1, 2, 1])
    ensures r == [1, 1, 2, 3, 6, 8, 10]
  {
    var expected := [1, 1, 2, 3, 6, 8, 10];
    assert Sorted(expected);
    ExampleSameElements();
    SortedUnique(r, expected);
  }

  /** The example run: sorting `[3, 6, 8, 10, 1, 2, 1]`. */
  method SortExample() returns (r: seq<int>)
    ensures r == [1, 1, 2, 3, 6, 8, 10]
  {
    r := Quicksort([3, 6, 8, 10, 1, 2, 1]);
    ExampleSorted(r);
  }
}
