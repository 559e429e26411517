/**
  The constrained generic bubble sort: `SortArray<T>.BubbleSort` over any
  element type with a three-way `CompareTo`, and the `Employee` element type
  that compares employees by name only.

  The comparison is a parameter `cmp: (T, T) -> int` read like `CompareTo`:
  a negative result means "less", zero "equal", a positive one "greater".
  The sort only relies on it being a total preorder: `x` is "at most" `y`
  when `cmp(x, y) <= 0`, that relation is total and transitive.
 */
module GenericSort {

  /** `x` is at most `y` under `cmp` (what `CompareTo <= 0` means). */
  predicate AtMost<T>(cmp: (T, T) -> int, x: T, y: T) {
    cmp(x, y) <= 0
  }

  /** Every two elements are comparable one way or the other (so each is at most itself). */
  ghost predicate Total<T(!new)>(cmp: (T, T) -> int) {
    forall x, y :: AtMost(cmp, x, y) || AtMost(cmp, y, x)
  }

  ghost predicate Transitive<T(!new)>(cmp: (T, T) -> int) {
    forall x, y, z :: AtMost(cmp, x, y) && AtMost(cmp, y, z) ==> AtMost(cmp, x, z)
  }

  /** What any `IComparable<T>` used for sorting must provide. */
  ghost predicate TotalPreorder<T(!new)>(cmp: (T, T) -> int) {
    Total(cmp) && Transitive(cmp)
  }

  /** Every adjacent pair is in order: `CompareTo(s[k], s[k + 1]) <= 0`. */
  ghost predicate Sorted<T>(cmp: (T, T) -> int, s: seq<T>) {
    forall k :: 0 <= k < |s| - 1 ==> AtMost(cmp, s[k], s[k + 1])
  }

  /** Every adjacent pair inside `s[lo..]` is in order. */
  ghost predicate SortedFrom<T>(cmp: (T, T) -> int, s: seq<T>, lo: int) {
    forall k :: 0 <= lo <= k < |s| - 1 ==> AtMost(cmp, s[k], s[k + 1])
  }

  /** Every element before position `m` is at most every element from `m` on. */
  ghost predicate Partitioned<T>(cmp: (T, T) -> int, s: seq<T>, m: int) {
    forall p, q :: 0 <= p < m <= q < |s| ==> AtMost(cmp, s[p], s[q])
  }

  /** Every element of `s[..j + 1]` is at most `s[j]`: the bubble has carried the largest so far to `j`. */
  ghost predicate MaxAt<T>(cmp: (T, T) -> int, s: seq<T>, j: int) {
    0 <= j < |s| && forall k :: 0 <= k <= j ==> AtMost(cmp, s[k], s[j])
  }

  /**
    Adjacent order implies order between any two positions: the sorted array
    is non-decreasing throughout, not only pair by pair.
   */
  lemma {:induction false} SortedIsOrdered<T(!new)>(cmp: (T, T) -> int, s: seq<T>, p: int, q: int)
    requires TotalPreorder(cmp)
    requires Sorted(cmp, s)
    requires 0 <= p <= q < |s|
    ensures AtMost(cmp, s[p], s[q])
    decreases q - p
  {
    if p == q {
      assert AtMost(cmp, s[p], s[p]);
    } else {
      SortedIsOrdered(cmp, s, p + 1, q);
      assert AtMost(cmp, s[p], s[p + 1]);
    }
  }

  /** Exchanges `a[j]` and `a[j + 1]` through a temporary; every other element stays. */
  method Swap<T>(a: array<T>, j: int)
    requires 0 <= j < a.Length - 1
    modifies a
    ensures a[..] == Swapped(old(a[..]), j)
    ensures multiset(a[..]) == old(multiset(a[..]))
  {
    var temp := a[j];
    a[j] := a[j + 1];
    a[j + 1] := temp;
  }

  /** `s` with the elements at `j` and `j + 1` exchanged. */
  function Swapped<T>(s: seq<T>, j: int): seq<T>
    requires 0 <= j < |s| - 1
  {
    s[j := s[j + 1]][j + 1 := s[j]]
  }

  /**
    One step of the inner loop on the array's contents: compare `s[j]` with
    `s[j + 1]` and swap them when the left one is greater. It is not called by
    `BubbleSort`; it exists so that `BubbleStepKeepsInvariant` can state what
    the loop body does to the array.
   */
  function BubbleStep<T>(cmp: (T, T) -> int, s: seq<T>, j: int): seq<T>
    requires 0 <= j < |s| - 1
  {
    if cmp(s[j], s[j + 1]) > 0 then Swapped(s, j) else s
  }

  /** The suffix from `m` is sorted and each of its elements is at least every element before `m`. */
  ghost predicate SuffixInPlace<T>(cmp: (T, T) -> int, s: seq<T>, m: int) {
    SortedFrom(cmp, s, m) && Partitioned(cmp, s, m)
  }

  /** The inner loop's invariant: the suffix from `m` is in place and the bubble has carried the largest element of `s[..j + 1]` to `j`. */
  ghost predicate Bubbling<T>(cmp: (T, T) -> int, s: seq<T>, j: int, m: int) {
    SuffixInPlace(cmp, s, m) && MaxAt(cmp, s, j)
  }

  /** A pass over `s[..m]` with `m >= 2` starts with the bubble at position 0. */
  lemma PassStarts<T(!new)>(cmp: (T, T) -> int, s: seq<T>, m: int)
    requires TotalPreorder(cmp)
    requires 2 <= m <= |s|
    requires SuffixInPlace(cmp, s, m)
    ensures Bubbling(cmp, s, 0, m)
  {
    assert AtMost(cmp, s[0], s[0]);
  }

  /**
    One step of the inner loop keeps the pass invariant: the largest element
    of `s[..j + 2]` ends at `j + 1`, and the sorted suffix from `m` and the
    split at `m` are untouched.
   */
  lemma BubbleStepKeepsInvariant<T(!new)>(cmp: (T, T) -> int, s: seq<T>, j: int, m: int)
    requires TotalPreorder(cmp)
    requires 0 <= j < m - 1 && m <= |s|
    requires Bubbling(cmp, s, j, m)
    ensures Bubbling(cmp, BubbleStep(cmp, s, j), j + 1, m)
  {
    var t := BubbleStep(cmp, s, j);
    if cmp(s[j], s[j + 1]) > 0 {
      assert AtMost(cmp, s[j + 1], s[j]);
      assert t == Swapped(s, j);
      forall k | 0 <= k <= j + 1 ensures AtMost(cmp, t[k], t[j + 1]) {
        if k < j {
          assert t[k] == s[k];
        } else if k == j + 1 {
          assert AtMost(cmp, t[k], t[k]);
        }
      }
    } else {
      assert AtMost(cmp, s[j], s[j + 1]);
      forall k | 0 <= k <= j ensures AtMost(cmp, s[k], s[j + 1]) {
        assert AtMost(cmp, s[k], s[j]);
      }
    }
  }

  /** `s` holds the elements of `orig`, and is `orig` itself when `orig` was sorted already (`wasSorted`). */
  ghost predicate Reordered<T>(s: seq<T>, orig: seq<T>, wasSorted: bool) {
    multiset(s) == multiset(orig) && (wasSorted ==> s == orig)
  }

  /** Whatever `cmp` is, one step only reorders: nothing is lost, and a sorted input is not changed. */
  lemma BubbleStepPermutes<T>(cmp: (T, T) -> int, s: seq<T>, j: int, orig: seq<T>, wasSorted: bool)
    requires 0 <= j < |s| - 1
    requires wasSorted ==> Sorted(cmp, orig)
    requires Reordered(s, orig, wasSorted)
    ensures Reordered(BubbleStep(cmp, s, j), orig, wasSorted)
  {
    if cmp(s[j], s[j + 1]) > 0 {
      assert Sorted(cmp, s) ==> AtMost(cmp, s[j], s[j + 1]);
      assert s == s[..j] + [s[j], s[j + 1]] + s[j + 2..];
      assert Swapped(s, j) == s[..j] + [s[j + 1], s[j]] + s[j + 2..];
    }
  }

  /**
    At the end of a pass over `s[..m]` its largest element sits at `m - 1`,
    so the sorted suffix grows by one position.
   */
  lemma PassExtendsSortedSuffix<T(!new)>(cmp: (T, T) -> int, s: seq<T>, m: int)
    requires TotalPreorder(cmp)
    requires 1 <= m <= |s|
    requires Bubbling(cmp, s, m - 1, m)
    ensures SuffixInPlace(cmp, s, m - 1)
  {
  }

  /** Once the suffix in place starts at position 1 or 0, the whole sequence is sorted. */
  lemma PassesDone<T(!new)>(cmp: (T, T) -> int, s: seq<T>, m: int)
    requires TotalPreorder(cmp)
    requires 0 <= m <= 1
    requires SuffixInPlace(cmp, s, m)
    ensures Sorted(cmp, s)
  {
    if m == 1 && |s| >= 2 {
      assert AtMost(cmp, s[0], s[1]);
    }
  }

  /**
    Bubble sort in place: pass `i` scans the adjacent pairs of `a[..n - i]`
    and swaps a pair exactly when its left element compares greater.
    When `cmp` is a total preorder the result is sorted and a permutation of
    the input, and an input that is sorted already is left unchanged.
    After pass `i` the last `i + 1` positions are sorted and each is at least
    every element of the unsorted prefix. Arrays of length 0 or 1 are sorted
    already and so are left as they are.
   */
  method BubbleSort<T(!new)>(a: array<T>, cmp: (T, T) -> int)
    requires TotalPreorder(cmp)
    modifies a
    ensures Sorted(cmp, a[..])
    ensures multiset(a[..]) == old(multiset(a[..]))
    ensures Sorted(cmp, old(a[..])) ==> a[..] == old(a[..])
  {
    var n := a.Length;
    ghost var wasSorted := Sorted(cmp, a[..]);
    var i := 0;
    while i < n - 1
      invariant 0 <= i && (i <= n - 1 || i == 0)
      invariant SuffixInPlace(cmp, a[..], n - i)
      invariant Reordered(a[..], old(a[..]), wasSorted)
    {
      PassStarts(cmp, a[..], n - i);
      var j := 0;
      while j < n - i - 1
        invariant 0 <= j <= n - i - 1
        invariant Bubbling(cmp, a[..], j, n - i)
        invariant Reordered(a[..], old(a[..]), wasSorted)
      {
        ghost var before := a[..];
        BubbleStepKeepsInvariant(cmp, before, j, n - i);
        BubbleStepPermutes(cmp, before, j, old(a[..]), wasSorted);
        if cmp(a[j], a[j + 1]) > 0 {
          Swap(a, j);
        }
        assert a[..] == BubbleStep(cmp, before, j);
        j := j + 1;
      }
      PassExtendsSortedSuffix(cmp, a[..], n - i);
      i := i + 1;
    }
    PassesDone(cmp, a[..], n - i);
  }

  /** Sorting an array a second time changes nothing: the sort is idempotent. */
  method SortTwice<T(!new)>(a: array<T>, cmp: (T, T) -> int) returns (once: seq<T>)
    requires TotalPreorder(cmp)
    modifies a
    ensures Sorted(cmp, once) && multiset(once) == old(multiset(a[..]))
    ensures a[..] == once
  {
    BubbleSort(a, cmp);
    once := a[..];
    BubbleSort(a, cmp);
  }

  // ---------------------------------------------------------------------
  // Employee: an element type whose CompareTo looks at Name only
  // ---------------------------------------------------------------------

  /**
    An employee record. `CompareTo` delegates to the string comparison of
    the names; which string comparison that is (the platform's,
    culture-sensitive one) is passed in as `nameCompare`.
   */
  datatype Employee = Employee(id: int, name: string) {
    function CompareTo(nameCompare: (string, string) -> int, other: Employee): int {
      nameCompare(name, other.name)
    }
  }

  /** The `IComparable<Employee>` comparison as a comparator for `BubbleSort`. */
  function EmployeeOrder(nameCompare: (string, string) -> int): (Employee, Employee) -> int {
    (e: Employee, other: Employee) => e.CompareTo(nameCompare, other)
  }

  /**
    The employee comparison ignores `Id`: employees with the same names
    compare as their names do, whatever their ids.
   */
  lemma CompareToIgnoresId(nameCompare: (string, string) -> int, e: Employee, other: Employee, id1: int, id2: int)
    ensures e.CompareTo(nameCompare, other) == Employee(id1, e.name).CompareTo(nameCompare, Employee(id2, other.name))
  {
  }

  /**
    Two employees with equal names compare equal (zero, both ways) when the
    string comparison says a string equals itself, as `string.CompareTo` does.
   */
  lemma EqualNamesCompareEqual(nameCompare: (string, string) -> int, e: Employee, other: Employee)
    requires forall s :: nameCompare(s, s) == 0
    requires e.name == other.name
    ensures e.CompareTo(nameCompare, other) == 0 && other.CompareTo(nameCompare, e) == 0
  {
  }

  /** Employees ordered by name form a total preorder whenever names do. */
  lemma EmployeeOrderIsTotalPreorder(nameCompare: (string, string) -> int)
    requires TotalPreorder(nameCompare)
    ensures TotalPreorder(EmployeeOrder(nameCompare))
  {
    var order := EmployeeOrder(nameCompare);
    forall x: Employee, y: Employee ensures AtMost(order, x, y) || AtMost(order, y, x) {
      assert AtMost(nameCompare, x.name, y.name) || AtMost(nameCompare, y.name, x.name);
    }
    forall x: Employee, y: Employee, z: Employee | AtMost(order, x, y) && AtMost(order, y, z)
      ensures AtMost(order, x, z)
    {
      assert AtMost(nameCompare, x.name, y.name) && AtMost(nameCompare, y.name, z.name);
    }
  }

  /**
    The demo's `sortArray.BubbleSort(arr)` on employees: afterwards the
    names are in order under the string comparison and the same employees
    are present.
   */
  method SortEmployees(arr: array<Employee>, nameCompare: (string, string) -> int)
    requires TotalPreorder(nameCompare)
    modifies arr
    ensures forall k :: 0 <= k < arr.Length - 1 ==> nameCompare(arr[k].name, arr[k + 1].name) <= 0
    ensures multiset(arr[..]) == old(multiset(arr[..]))
  {
    EmployeeOrderIsTotalPreorder(nameCompare);
    BubbleSort(arr, EmployeeOrder(nameCompare));
    assert Sorted(EmployeeOrder(nameCompare), arr[..]);
  }
}
