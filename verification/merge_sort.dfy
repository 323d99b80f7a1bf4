/** The recursive merge sort that reorders the tracker's linked list by amount. */
module MergeSort {
  import opened Transactions
  import opened Seqs

  /** `x` may precede `y` in the requested direction; equal amounts may
      appear in either order. */
  predicate Before(x: Transaction, y: Transaction, ascending: bool) {
    if ascending then x.amount <= y.amount else x.amount >= y.amount
  }

  predicate Sorted(s: seq<Transaction>, ascending: bool) {
    forall i, j :: 0 <= i < j < |s| ==> Before(s[i], s[j], ascending)
  }

  /** The length of the front half `splitList` leaves: the front keeps the
      middle element of an odd-length list. */
  function Half(n: nat): nat {
    (n + 1) / 2
  }

  /** `splitList`: a slow pointer steps once for every two steps of a fast
      pointer that starts one node ahead; the list is cut after the slow one. */
  method SplitList(s: seq<Transaction>) returns (front: seq<Transaction>, back: seq<Transaction>)
    requires |s| >= 1
    ensures front + back == s
    ensures front == s[..Half(|s|)] && back == s[Half(|s|)..]
    ensures |back| <= |front| <= |back| + 1
  {
    var slow := 0;
    var fast := 1;
    while fast < |s| && fast + 1 < |s|
      invariant fast == 2 * slow + 1
      invariant fast <= |s|
      decreases |s| - fast
    {
      slow := slow + 1;
      fast := fast + 2;
    }
    front, back := s[..slow + 1], s[slow + 1..];
  }

  /** `mergeByAmount`: repeatedly takes the head that goes first, the left
      list's head whenever the two amounts are equal. */
  function Merge(a: seq<Transaction>, b: seq<Transaction>, ascending: bool): (r: seq<Transaction>)
    ensures multiset(r) == multiset(a) + multiset(b)
    decreases |a| + |b|
  {
    if a == [] then b
    else if b == [] then a
    else if Before(a[0], b[0], ascending) then
      assert a == [a[0]] + a[1..];
      [a[0]] + Merge(a[1..], b, ascending)
    else
      assert b == [b[0]] + b[1..];
      [b[0]] + Merge(a, b[1..], ascending)
  }

  /** `mergeSortByAmount`: lists of fewer than two nodes are already sorted;
      longer ones are split in half, each half sorted, and the halves merged. */
  function Sort(s: seq<Transaction>, ascending: bool): (r: seq<Transaction>)
    ensures multiset(r) == multiset(s)
    decreases |s|
  {
    if |s| <= 1 then s
    else
      var h := Half(|s|);
      assert s == s[..h] + s[h..];
      Merge(Sort(s[..h], ascending), Sort(s[h..], ascending), ascending)
  }

  /** Before is a total preorder, so sortedness can be checked at the head. */
  lemma SortedCons(x: Transaction, s: seq<Transaction>, ascending: bool)
    requires Sorted(s, ascending)
    requires forall i :: 0 <= i < |s| ==> Before(x, s[i], ascending)
    ensures Sorted([x] + s, ascending)
  {
  }

  /** A value that may precede everything in both operands may precede
      everything in their merge. */
  lemma MergeAfter(x: Transaction, a: seq<Transaction>, b: seq<Transaction>, ascending: bool)
    requires forall i :: 0 <= i < |a| ==> Before(x, a[i], ascending)
    requires forall i :: 0 <= i < |b| ==> Before(x, b[i], ascending)
    ensures forall i :: 0 <= i < |Merge(a, b, ascending)| ==> Before(x, Merge(a, b, ascending)[i], ascending)
  {
  }

  /** The head of a sorted list may precede each of its later elements, and
      anything that may precede the head may precede all of them. */
  lemma HeadFirst(x: Transaction, s: seq<Transaction>, ascending: bool)
    requires s != [] && Sorted(s, ascending) && Before(x, s[0], ascending)
    ensures forall i :: 0 <= i < |s| ==> Before(x, s[i], ascending)
    ensures forall i :: 0 <= i < |s[1..]| ==> Before(s[0], s[1..][i], ascending)
  {
  }

  lemma {:induction false} MergeSorted(a: seq<Transaction>, b: seq<Transaction>, ascending: bool)
    requires Sorted(a, ascending) && Sorted(b, ascending)
    ensures Sorted(Merge(a, b, ascending), ascending)
    decreases |a| + |b|
  {
    if a == [] || b == [] {
    } else if Before(a[0], b[0], ascending) {
      MergeSorted(a[1..], b, ascending);
      HeadFirst(a[0], a, ascending);
      HeadFirst(a[0], b, ascending);
      MergeAfter(a[0], a[1..], b, ascending);
      SortedCons(a[0], Merge(a[1..], b, ascending), ascending);
    } else {
      assert Before(b[0], a[0], ascending);
      MergeSorted(a, b[1..], ascending);
      HeadFirst(b[0], b, ascending);
      HeadFirst(b[0], a, ascending);
      MergeAfter(b[0], a, b[1..], ascending);
      SortedCons(b[0], Merge(a, b[1..], ascending), ascending);
    }
  }

  /** Sorting yields the requested order. */
  lemma {:induction false} SortSorted(s: seq<Transaction>, ascending: bool)
    ensures Sorted(Sort(s, ascending), ascending)
    decreases |s|
  {
    if |s| > 1 {
      var h := Half(|s|);
      SortSorted(s[..h], ascending);
      SortSorted(s[h..], ascending);
      MergeSorted(Sort(s[..h], ascending), Sort(s[h..], ascending), ascending);
    }
  }

  /** Merging two sorted lists keeps, for each amount, the left list's
      entries of that amount ahead of the right list's, each in its own order. */
  lemma {:induction false} MergeStable(a: seq<Transaction>, b: seq<Transaction>, ascending: bool, k: int)
    requires Sorted(a, ascending) && Sorted(b, ascending)
    ensures Filter(Merge(a, b, ascending), Amount(k)) == Filter(a, Amount(k)) + Filter(b, Amount(k))
    decreases |a| + |b|
  {
    if a == [] {
      assert a + b == b;
    } else if b == [] {
      assert a + b == a;
    } else if Before(a[0], b[0], ascending) {
      MergeStable(a[1..], b, ascending, k);
      TakeLeft(a, b, ascending, k);
    } else {
      MergeStable(a, b[1..], ascending, k);
      TakeRight(a, b, ascending, k);
    }
  }

  /** The step of MergeStable where the left head goes first. */
  lemma TakeLeft(a: seq<Transaction>, b: seq<Transaction>, ascending: bool, k: int)
    requires a != [] && b != [] && Before(a[0], b[0], ascending)
    requires Filter(Merge(a[1..], b, ascending), Amount(k)) == Filter(a[1..], Amount(k)) + Filter(b, Amount(k))
    ensures Filter(Merge(a, b, ascending), Amount(k)) == Filter(a, Amount(k)) + Filter(b, Amount(k))
  {
  }

  /** The step of MergeStable where the right head goes first: then the left
      list holds nothing of that head's amount. */
  lemma TakeRight(a: seq<Transaction>, b: seq<Transaction>, ascending: bool, k: int)
    requires a != [] && b != [] && !Before(a[0], b[0], ascending) && Sorted(a, ascending)
    requires Filter(Merge(a, b[1..], ascending), Amount(k)) == Filter(a, Amount(k)) + Filter(b[1..], Amount(k))
    ensures Filter(Merge(a, b, ascending), Amount(k)) == Filter(a, Amount(k)) + Filter(b, Amount(k))
  {
  }

  lemma Halves<T>(s: seq<T>, h: nat)
    requires h <= |s|
    ensures s == s[..h] + s[h..]
  {
  }

  /** Sorting is stable: for each amount, the entries of that amount keep
      their relative order. */
  lemma {:induction false} SortStable(s: seq<Transaction>, ascending: bool, k: int)
    ensures Filter(Sort(s, ascending), Amount(k)) == Filter(s, Amount(k))
    decreases |s|
  {
    if |s| > 1 {
      var h := Half(|s|);
      SortStable(s[..h], ascending, k);
      SortStable(s[h..], ascending, k);
      SortSorted(s[..h], ascending);
      SortSorted(s[h..], ascending);
      MergeStable(Sort(s[..h], ascending), Sort(s[h..], ascending), ascending, k);
      Halves(s, h);
      FilterAppend(s[..h], s[h..], Amount(k));
    }
  }
}
