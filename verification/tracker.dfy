/** The transaction store: one logical collection held twice, in a dynamic
    array (searches, totals, persistence) and in a singly linked list (head
    insertion, merge sort), plus an action log and a query result buffer. */
module Tracker {
  import opened Transactions
  import opened Seqs
  import opened SimpleStack
  import DynArray
  import NodeList
  import MergeSort

  /** A tracker's observable state. `arr` is the live part of the array,
      `dynArr[0 .. dynSize)`, so `dynSize` is `|arr|`; `list` reads the
      linked list from the head node; `listSize` is the separate node counter. */
  datatype State = State(
    arr: seq<Transaction>,
    dynCap: nat,
    list: seq<Transaction>,
    listSize: nat,
    undoLog: Stack<string>,
    lastQueryResults: seq<Transaction>)
  {
    /** The class invariant: the array fits its capacity, the capacity is
        positive, and both counters agree with what they count. */
    predicate Valid() {
      && |arr| <= dynCap
      && 1 <= dynCap
      && listSize == |list|
      && undoLog.Valid()
    }
  }

  /** `getDynSize`: the number of live array elements. */
  function DynSize(s: State): (n: nat)
    ensures s.Valid() ==> n <= s.dynCap
  {
    |s.arr|
  }

  /** `getListSize`: the node counter, which under the invariant is the node count. */
  function ListSize(s: State): (n: nat)
    ensures s.Valid() ==> n == |s.list|
  {
    s.listSize
  }

  /** The result of `removeByDescription` together with the state it leaves. */
  datatype Removal = Removal(removed: bool, after: State)

  /** A search result together with the state holding it in its buffer. */
  datatype Query = Query(results: seq<Transaction>, after: State)

  /** The result of `undoLastAction`: whether an entry was popped, the output
      string and the state. */
  datatype Undo = Undo(ok: bool, out: string, after: State)

  /** The result of `loadFromFile` together with the state it leaves. */
  datatype Load = Load(ok: bool, after: State)

  /** The constructor: empty array after `dynResize(4)`, empty list, empty
      log, empty query buffer. */
  function Fresh(): (r: State)
    ensures r.Valid()
    ensures r.arr == [] && r.list == [] && r.dynCap == 4
    ensures IsEmpty(r.undoLog) && r.lastQueryResults == []
  {
    State(DynArray.Resized([], 4), DynArray.ClampCap(4), [], 0, Empty(), [])
  }

  /** The log entry `addTransaction` records. */
  function AddEntry(t: Transaction): string {
    "ADD: " + t.date + " " + t.category + " " + t.description
  }

  /** The log entry `loadFromFile` records last. */
  function LoadEntry(filename: string): string {
    "LOAD: " + filename
  }

  /** `logAction`: pushes `action` onto the log and touches nothing else. */
  function LogAction(s: State, action: string): (r: State)
    ensures r.undoLog.items == [action] + s.undoLog.items
    ensures s.undoLog.Valid() ==> r.undoLog.Valid()
    ensures r.(undoLog := s.undoLog) == s
  {
    s.(undoLog := Push(s.undoLog, action))
  }

  /** `undoLastAction`: pops the newest log entry into `out`; on an empty log
      it reports failure and leaves `out` and the state alone. The data is
      never reverted. */
  function UndoLastAction(s: State, out: string): (r: Undo)
    requires s.undoLog.Valid()
    ensures r.ok <==> !IsEmpty(s.undoLog)
    ensures !r.ok ==> r.out == out && r.after == s
    ensures r.ok ==> r.out == s.undoLog.items[0] && r.after.undoLog.items == s.undoLog.items[1..]
    ensures r.after.(undoLog := s.undoLog) == s
  {
    var p := Pop(s.undoLog, out);
    Undo(p.ok, p.out, s.(undoLog := p.rest))
  }

  /** `addTransaction`: appends `t` to the array (doubling a full array),
      links a new head node holding `t`, and logs an ADD entry. */
  function AddTransaction(s: State, t: Transaction): (r: State)
    ensures s.Valid() ==> r.Valid()
    ensures s.Valid() ==> r.arr == s.arr + [t]
    ensures s.Valid() ==> r.dynCap == if |s.arr| < s.dynCap then s.dynCap else 2 * s.dynCap
    ensures r.list == [t] + s.list && r.listSize == s.listSize + 1
    ensures r.undoLog.items == [AddEntry(t)] + s.undoLog.items
    ensures r.lastQueryResults == s.lastQueryResults
  {
    var grown := DynArray.AppendGrowing(s.arr, s.dynCap, t);
    var linked := s.(arr := grown.elems, dynCap := grown.cap, list := [t] + s.list, listSize := s.listSize + 1);
    LogAction(linked, AddEntry(t))
  }

  /** `removeByDescription`: deletes the first array element and,
      independently, the first list node whose description is `desc`. With
      duplicated descriptions the two deletions may hit different
      transactions. Nothing is logged. */
  function RemoveByDescription(s: State, desc: string): (r: Removal)
    requires s.Valid()
    ensures r.after.Valid()
    ensures r.removed <==> Any(s.arr, Description(desc)) || Any(s.list, Description(desc))
    ensures !r.removed ==> r.after == s
    ensures r.after.arr == RemoveFirst(s.arr, Description(desc))
    ensures r.after.list == RemoveFirst(s.list, Description(desc))
    ensures |r.after.arr| == |s.arr| - (if Any(s.arr, Description(desc)) then 1 else 0)
    ensures r.after.listSize == s.listSize - (if Any(s.list, Description(desc)) then 1 else 0)
    ensures r.after.dynCap == s.dynCap
    ensures r.after.undoLog == s.undoLog && r.after.lastQueryResults == s.lastQueryResults
  {
    var d := Description(desc);
    var inArr := Any(s.arr, d);
    var inList := Any(s.list, d);
    var after := s.(
      arr := RemoveFirst(s.arr, d),
      list := RemoveFirst(s.list, d),
      listSize := if inList then s.listSize - 1 else s.listSize);
    Removal(inArr || inList, after)
  }

  /** `dynFindFirstByCategory`: the smallest array index in category `cat`,
      or -1 when no array element is in it. */
  function DynFindFirstByCategory(s: State, cat: string): (r: int)
    ensures r == -1 <==> forall i :: 0 <= i < |s.arr| ==> s.arr[i].category != cat
    ensures r != -1 ==> 0 <= r < |s.arr| && s.arr[r].category == cat
    ensures forall j :: 0 <= j < |s.arr| && j < r ==> s.arr[j].category != cat
  {
    FirstIndex(s.arr, Category(cat))
  }

  /** `listContainsCategory`: whether some list node is in category `cat`. */
  function ListContainsCategory(s: State, cat: string): (r: bool)
    ensures r <==> exists i :: 0 <= i < |s.list| && s.list[i].category == cat
  {
    Any(s.list, Category(cat))
  }

  /** `findAllByCategory`: the array elements in category `cat`, in array
      order, also left in the query buffer; nothing else changes. */
  function FindAllByCategory(s: State, cat: string): (r: Query)
    ensures forall i :: 0 <= i < |r.results| ==> r.results[i].category == cat
    ensures r.results == Filter(s.arr, Category(cat))
    ensures r.after == s.(lastQueryResults := r.results)
  {
    var found := Filter(s.arr, Category(cat));
    Query(found, s.(lastQueryResults := found))
  }

  /** `findAllByType`: the array elements of kind `k`, in array order, also
      left in the query buffer; nothing else changes. */
  function FindAllByType(s: State, k: char): (r: Query)
    ensures forall i :: 0 <= i < |r.results| ==> r.results[i].kind == k
    ensures r.results == Filter(s.arr, Kind(k))
    ensures r.after == s.(lastQueryResults := r.results)
  {
    var found := Filter(s.arr, Kind(k));
    Query(found, s.(lastQueryResults := found))
  }

  /** `listMergeSortByAmount`: relinks the list into amount order, equal
      amounts keeping their relative order. The array, the node counter, the
      log and the query buffer are untouched. */
  function ListMergeSortByAmount(s: State, ascending: bool): (r: State)
    ensures multiset(r.list) == multiset(s.list)
    ensures MergeSort.Sorted(r.list, ascending)
    ensures forall k :: Filter(r.list, Amount(k)) == Filter(s.list, Amount(k))
    ensures r.(list := s.list) == s
  {
    var sorted := MergeSort.Sort(s.list, ascending);
    MergeSort.SortSorted(s.list, ascending);
    forall k ensures Filter(sorted, Amount(k)) == Filter(s.list, Amount(k)) {
      MergeSort.SortStable(s.list, ascending, k);
    }
    s.(list := sorted)
  }

  /** The running sum `std::accumulate` computes over the array, adding the
      amount of each element of kind `k` from the first to the last. */
  function SumOfKind(s: seq<Transaction>, k: char): int {
    if s == [] then 0
    else SumOfKind(s[..|s| - 1], k) + (if s[|s| - 1].kind == k then s[|s| - 1].amount else 0)
  }

  /** The running sum, element by element, as the accumulation loop keeps it. */
  method Accumulate(snap: seq<Transaction>, k: char) returns (sum: int)
    ensures sum == SumOfKind(snap, k)
  {
    sum := 0;
    var i := 0;
    while i < |snap|
      invariant 0 <= i <= |snap|
      invariant sum == SumOfKind(snap[..i], k)
    {
      assert snap[..i + 1][..i] == snap[..i];
      sum := sum + if snap[i].kind == k then snap[i].amount else 0;
      i := i + 1;
    }
    assert snap[..i] == snap;
  }

  /** The sum of the amounts of kind `k` is the sum over `findAllByType(k)`. */
  lemma {:induction false} SumOfKindIsFilteredSum(s: seq<Transaction>, k: char)
    ensures SumOfKind(s, k) == SumAmounts(Filter(s, Kind(k)))
    decreases |s|
  {
    if s != [] {
      var init, last := s[..|s| - 1], s[|s| - 1];
      SumOfKindIsFilteredSum(init, k);
      assert s == init + [last];
      FilterAppend(init, [last], Kind(k));
      SumAmountsAppend(Filter(init, Kind(k)), Filter([last], Kind(k)));
    }
  }

  /** `totalIncome`: the summed amounts of the income ('I') entries of the array. */
  function TotalIncome(s: State): (r: int)
    ensures r == SumAmounts(Filter(s.arr, Kind(Income)))
  {
    SumOfKindIsFilteredSum(s.arr, Income);
    SumOfKind(s.arr, Income)
  }

  /** `totalExpenses`: the summed amounts of the expense ('E') entries of the array. */
  function TotalExpenses(s: State): (r: int)
    ensures r == SumAmounts(Filter(s.arr, Kind(Expense)))
  {
    SumOfKindIsFilteredSum(s.arr, Expense);
    SumOfKind(s.arr, Expense)
  }

  /** The signed value of one entry for the balance: income counts up,
      expense counts down, any other kind counts nothing. */
  function Signed(t: Transaction): int {
    if t.kind == Income then t.amount else if t.kind == Expense then -t.amount else 0
  }

  function SignedSum(s: seq<Transaction>): int {
    if s == [] then 0 else Signed(s[0]) + SignedSum(s[1..])
  }

  /** `netBalance`: each income entry counts up, each expense entry down,
      every other kind not at all. */
  function NetBalance(s: State): (r: int)
    ensures r == SignedSum(s.arr)
  {
    NetIsSignedSum(s.arr);
    TotalIncome(s) - TotalExpenses(s)
  }

  lemma {:induction false} NetIsSignedSum(s: seq<Transaction>)
    ensures SumOfKind(s, Income) - SumOfKind(s, Expense) == SignedSum(s)
    decreases |s|
  {
    if s != [] {
      var init, last := s[..|s| - 1], s[|s| - 1];
      NetIsSignedSum(init);
      assert s == init + [last];
      SignedSumAppend(init, [last]);
    }
  }

  lemma {:induction false} SignedSumAppend(a: seq<Transaction>, b: seq<Transaction>)
    ensures SignedSum(a + b) == SignedSum(a) + SignedSum(b)
    decreases |a|
  {
    if a == [] {
      assert a + b == b;
    } else {
      assert (a + b)[1..] == a[1..] + b;
      SignedSumAppend(a[1..], b);
    }
  }

  /** `clearList`: no nodes and a zero counter; the rest of the state stays. */
  function ClearList(s: State): (r: State)
    ensures r.list == [] && r.listSize == 0
    ensures r.(list := s.list, listSize := s.listSize) == s
  {
    s.(list := [], listSize := 0)
  }

  /** The copy constructor: copies the array element by element into a
      buffer of `other`'s capacity (4 if it had none), rebuilds the list
      node by node in `other`'s order, and copies the log and the query
      buffer. A Valid `other` is reproduced exactly. */
  method Copy(other: State) returns (r: State)
    ensures r.Valid()
    ensures r.list == other.list && r.undoLog.items == other.undoLog.items
    ensures r.lastQueryResults == other.lastQueryResults
    ensures other.Valid() ==> r == other
  {
    var log := SimpleStack.Copy(other.undoLog);
    var cap := if other.dynCap < 1 then 4 else other.dynCap;
    var size := if |other.arr| > cap then cap else |other.arr|;
    var arr: seq<Transaction> := [];
    var i := 0;
    while i < size
      invariant 0 <= i <= size
      invariant arr == other.arr[..i]
    {
      arr := arr + [other.arr[i]];
      i := i + 1;
    }
    var cleared := ClearList(State(arr, cap, [], 0, log, other.lastQueryResults));
    var list, listSize := NodeList.AppendList(cleared.list, cleared.listSize, other.list);
    r := cleared.(list := list, listSize := listSize);
    assert other.Valid() ==> arr == other.arr;
  }

  /** Copy assignment: a tracker assigned to itself is left alone; otherwise
      its own list and array are discarded and it becomes a copy of `other`
      exactly as the copy constructor builds one. Two distinct trackers own
      distinct logs, so the log's own self-assignment guard never fires here
      and its assignment is a plain copy. Value equality stands in for the
      address comparison in `Tracker.cpp`. */
  method Assign(self: State, other: State) returns (r: State)
    ensures self == other ==> r == self
    ensures self != other ==> r.Valid() && r.list == other.list
    ensures other.Valid() ==> r == other
  {
    if self == other {
      return self;
    }
    r := Copy(other);
  }

  /** The reset `loadFromFile` performs once the file is open: the list is
      cleared, the array dropped and re-created by `dynResize(4)`, the query
      buffer and the log emptied. Nothing of the old state survives. */
  function Reset(s: State): (r: State)
    ensures r == Fresh()
  {
    var cleared := ClearList(s);
    cleared.(
      arr := DynArray.Resized([], 4),
      dynCap := DynArray.ClampCap(4),
      lastQueryResults := [],
      undoLog := SimpleStack.Clear(cleared.undoLog))
  }

  /** `addTransaction` of each record in turn. */
  function AddAll(s: State, records: seq<Transaction>): State
    decreases |records|
  {
    if records == [] then s else AddAll(AddTransaction(s, records[0]), records[1..])
  }

  /** `loadFromFile`, state effect only. `isOpen` says whether the file could
      be opened; `records` are the lines it parsed, in file order, up to the
      first malformed one. A file that cannot be opened changes nothing; otherwise the
      state is reset, every record re-added and a LOAD entry logged last. */
  function LoadFromFile(s: State, filename: string, isOpen: bool, records: seq<Transaction>): (r: Load)
    ensures r.ok == isOpen
    ensures !isOpen ==> r.after == s
    ensures isOpen ==> |r.after.undoLog.items| > 0 && r.after.undoLog.items[0] == LoadEntry(filename)
  {
    if !isOpen then Load(false, s)
    else Load(true, LogAction(AddAll(Reset(s), records), LoadEntry(filename)))
  }
}
