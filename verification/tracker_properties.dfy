/** Properties of the tracker that relate several operations: the array and
    the list mirroring each other under adds, capacity growth, how removal
    and sorting affect membership, totals, and the effect of a load. */
module TrackerProperties {
  import opened Transactions
  import opened Seqs
  import opened Tracker

  /** The ADD entries `addTransaction` logs for `records`, oldest first. */
  function AddEntries(records: seq<Transaction>): (r: seq<string>)
    ensures |r| == |records|
    ensures forall i :: 0 <= i < |r| ==> r[i] == AddEntry(records[i])
  {
    if records == [] then [] else [AddEntry(records[0])] + AddEntries(records[1..])
  }

  /** Adding a sequence of records appends them to the array in order and
      keeps the invariant; the query buffer is left alone. */
  lemma {:induction false} AddAllArray(s: State, records: seq<Transaction>)
    requires s.Valid()
    ensures AddAll(s, records).Valid()
    ensures AddAll(s, records).arr == s.arr + records
    ensures AddAll(s, records).lastQueryResults == s.lastQueryResults
    decreases |records|
  {
    if records != [] {
      var s1 := AddTransaction(s, records[0]);
      AddAllArray(s1, records[1..]);
      assert s.arr + records == s1.arr + records[1..];
    }
  }

  /** Adding a sequence of records stacks them onto the list head, so that
      the last one leads, and counts one node per record. */
  lemma {:induction false} AddAllList(s: State, records: seq<Transaction>)
    ensures AddAll(s, records).list == Reverse(records) + s.list
    ensures AddAll(s, records).listSize == s.listSize + |records|
    decreases |records|
  {
    if records != [] {
      var s1 := AddTransaction(s, records[0]);
      AddAllList(s1, records[1..]);
      assert Reverse(records) == Reverse(records[1..]) + [records[0]];
    }
  }

  /** Adding a sequence of records logs one ADD entry per record, newest on top. */
  lemma {:induction false} AddAllLog(s: State, records: seq<Transaction>)
    ensures AddAll(s, records).undoLog.items == Reverse(AddEntries(records)) + s.undoLog.items
    decreases |records|
  {
    if records != [] {
      var s1 := AddTransaction(s, records[0]);
      AddAllLog(s1, records[1..]);
      var e := AddEntries(records);
      assert e == [AddEntry(records[0])] + AddEntries(records[1..]);
      assert Reverse(e) == Reverse(AddEntries(records[1..])) + [AddEntry(records[0])];
    }
  }

  /** From a fresh tracker, pure adds leave the list as the array reversed. */
  lemma PureAddsMirror(records: seq<Transaction>)
    ensures var r := AddAll(Fresh(), records);
      r.list == Reverse(r.arr) && r.listSize == |r.arr|
  {
    AddAllArray(Fresh(), records);
    AddAllList(Fresh(), records);
    assert Reverse(records) + [] == Reverse(records);
  }

  /** Capacities reachable from 4 by doubling. */
  predicate FourTimesPowerOfTwo(c: nat)
    decreases c
  {
    c == 4 || (c > 4 && c % 2 == 0 && FourTimesPowerOfTwo(c / 2))
  }

  /** The capacity is the smallest of 4, 8, 16, ... that holds the array:
      halving it (when above 4) would leave too little room. */
  predicate Tight(s: State) {
    && FourTimesPowerOfTwo(s.dynCap)
    && |s.arr| <= s.dynCap
    && (s.dynCap == 4 || s.dynCap / 2 < |s.arr|)
  }

  lemma AddKeepsTight(s: State, t: Transaction)
    requires s.Valid() && Tight(s)
    ensures Tight(AddTransaction(s, t))
  {
  }

  lemma {:induction false} AddAllKeepsTight(s: State, records: seq<Transaction>)
    requires s.Valid() && Tight(s)
    ensures Tight(AddAll(s, records))
    decreases |records|
  {
    if records != [] {
      AddKeepsTight(s, records[0]);
      AddAllKeepsTight(AddTransaction(s, records[0]), records[1..]);
    }
  }

  /** The two structures hold the same transactions and the same count. */
  predicate Synced(s: State) {
    multiset(s.arr) == multiset(s.list) && |s.arr| == s.listSize
  }

  lemma AddKeepsSynced(s: State, t: Transaction)
    requires s.Valid() && Synced(s)
    ensures Synced(AddTransaction(s, t))
  {
  }

  /** When every array element carrying description `desc` is the same
      transaction, removal takes that transaction out of both structures and
      keeps them in step. */
  lemma RemoveKeepsSyncedWhenUnambiguous(s: State, desc: string)
    requires s.Valid() && Synced(s)
    requires forall i, j ::
      (0 <= i < |s.arr| && 0 <= j < |s.arr| && s.arr[i].description == desc && s.arr[j].description == desc)
      ==> s.arr[i] == s.arr[j]
    ensures Synced(RemoveByDescription(s, desc).after)
  {
    var d := Description(desc);
    var r := RemoveByDescription(s, desc).after;
    AnyOfSameMultiset(s.arr, s.list, d);
    if Any(s.arr, d) {
      var ka, kl := FirstIndex(s.arr, d), FirstIndex(s.list, d);
      RemoveFirstMultiset(s.arr, d);
      RemoveFirstMultiset(s.list, d);
      assert s.list[kl] in multiset(s.arr);
      var j :| 0 <= j < |s.arr| && s.arr[j] == s.list[kl];
      assert s.arr[ka] == s.arr[j];
    }
  }

  /** With duplicated descriptions, removal can take different transactions
      out of the array and the list, so the two no longer hold the same ones:
      two distinct entries sharing a description, added one after the other,
      sit first in the array and first in the list respectively. */
  lemma RemoveCanDesynchronise(s: State, a: Transaction, b: Transaction)
    requires a.description == b.description && a != b
    requires s == AddTransaction(AddTransaction(Fresh(), a), b)
    ensures var r := RemoveByDescription(s, a.description);
      Synced(s) && r.removed && r.after.arr == [b] && r.after.list == [a] && !Synced(r.after)
  {
  }

  /** Sorting the list reorders it but keeps it in step with the array. */
  lemma SortKeepsSynced(s: State, ascending: bool)
    requires Synced(s)
    ensures Synced(ListMergeSortByAmount(s, ascending))
    ensures ListMergeSortByAmount(s, ascending).arr == s.arr
  {
  }

  /** In step, the array search and the list search agree on whether a
      category occurs. */
  lemma SyncedSearchesAgree(s: State, cat: string)
    requires Synced(s)
    ensures ListContainsCategory(s, cat) <==> DynFindFirstByCategory(s, cat) != -1
  {
    AnyOfSameMultiset(s.arr, s.list, Category(cat));
  }

  /** `findAllByCategory` starts with the element `dynFindFirstByCategory`
      points at, and is empty exactly when that search reports -1. */
  lemma {:induction false} FindAllStartsAtFirstFound(s: seq<Transaction>, cat: string)
    ensures Filter(s, Category(cat)) == [] <==> FirstIndex(s, Category(cat)) == -1
    ensures FirstIndex(s, Category(cat)) != -1 ==>
      Filter(s, Category(cat))[0] == s[FirstIndex(s, Category(cat))]
    decreases |s|
  {
    if s != [] && !Meets(s[0], Category(cat)) {
      FindAllStartsAtFirstFound(s[1..], cat);
    }
  }

  lemma FindAllAgreesWithFindFirst(s: State, cat: string)
    ensures var q := FindAllByCategory(s, cat).results;
      var k := DynFindFirstByCategory(s, cat);
      (q == [] <==> k == -1) && (k != -1 ==> q[0] == s.arr[k])
  {
    FindAllStartsAtFirstFound(s.arr, cat);
  }

  /** An added entry raises the income total by its amount if it is income,
      the expense total if it is an expense, and neither total otherwise. */
  lemma AddUpdatesTotals(s: State, t: Transaction)
    requires s.Valid()
    ensures TotalIncome(AddTransaction(s, t)) == TotalIncome(s) + (if t.kind == Income then t.amount else 0)
    ensures TotalExpenses(AddTransaction(s, t)) == TotalExpenses(s) + (if t.kind == Expense then t.amount else 0)
    ensures NetBalance(AddTransaction(s, t)) == NetBalance(s) + Signed(t)
  {
  }

  /** A coffee expense of 4.50 and a salary of 2000.00: income 2000.00,
      expenses 4.50, balance 1995.50, and the Food search finds the coffee only. */
  lemma CoffeeAndSalary()
    ensures var coffee := Transaction("2024-01-01", "Coffee", "Food", Expense, 450);
      var salary := Transaction("2024-01-02", "Salary", "Work", Income, 200000);
      var s := AddTransaction(AddTransaction(Fresh(), coffee), salary);
      && TotalIncome(s) == 200000
      && TotalExpenses(s) == 450
      && NetBalance(s) == 199550
      && FindAllByCategory(s, "Food").results == [coffee]
  {
    var coffee := Transaction("2024-01-01", "Coffee", "Food", Expense, 450);
    var salary := Transaction("2024-01-02", "Salary", "Work", Income, 200000);
    var s := AddTransaction(AddTransaction(Fresh(), coffee), salary);
    assert s.arr == [coffee, salary];
    assert s.arr[..1] == [coffee] && [coffee][..0] == [];
    assert SumOfKind([coffee], Income) == 0 && SumOfKind([coffee], Expense) == 450;
    assert s.arr[1..] == [salary];
    assert Filter([salary], Category("Food")) == [];
  }

  /** Removing entries, sorting and searching record nothing in the log;
      adding records exactly one entry. Popping that entry does not bring
      back the earlier data. */
  lemma OnlyAddsAreLogged(s: State, t: Transaction, desc: string, cat: string, k: char, ascending: bool, out: string)
    requires s.Valid()
    ensures RemoveByDescription(s, desc).after.undoLog == s.undoLog
    ensures ListMergeSortByAmount(s, ascending).undoLog == s.undoLog
    ensures FindAllByCategory(s, cat).after.undoLog == s.undoLog
    ensures FindAllByType(s, k).after.undoLog == s.undoLog
    ensures var u := UndoLastAction(AddTransaction(s, t), out);
      u.ok && u.out == AddEntry(t) && u.after.arr == s.arr + [t] && u.after.undoLog.items == s.undoLog.items
  {
  }

  /** Once the file is open, the previous state makes no difference: loading
      is a fresh tracker replaying `addTransaction` for every record and then
      logging the load. */
  lemma LoadIsFreshReplay(s: State, filename: string, records: seq<Transaction>)
    ensures LoadFromFile(s, filename, true, records).after
      == LogAction(AddAll(Fresh(), records), LoadEntry(filename))
  {
  }

  /** After a load: the array holds the records in file order, the list holds
      them newest first, both counters match, the query buffer is empty, the
      log holds the LOAD entry on top of one ADD entry per record, and the
      capacity is the smallest doubling of 4 that fits. */
  lemma LoadFromFileState(s: State, filename: string, records: seq<Transaction>)
    ensures var r := LoadFromFile(s, filename, true, records).after;
      && r.Valid()
      && r.arr == records
      && r.list == Reverse(records)
      && r.listSize == |records|
      && r.lastQueryResults == []
      && r.undoLog.items == [LoadEntry(filename)] + Reverse(AddEntries(records))
      && Tight(r)
  {
    AddAllArray(Fresh(), records);
    AddAllList(Fresh(), records);
    AddAllLog(Fresh(), records);
    AddAllKeepsTight(Fresh(), records);
    var added := AddAll(Fresh(), records);
    assert Reverse(records) + [] == Reverse(records);
    assert Reverse(AddEntries(records)) + [] == Reverse(AddEntries(records));
    assert added.undoLog.items == Reverse(AddEntries(records));
  }

  /** Loading records equal to a tracker's array reproduces that array, its
      membership in the list and its totals. Whether the saved text parses
      back to those records is not part of this lemma. */
  lemma SaveThenLoad(s: State, other: State, filename: string)
    requires s.Valid()
    ensures var r := LoadFromFile(other, filename, true, s.arr).after;
      && r.arr == s.arr
      && multiset(r.list) == multiset(s.arr)
      && TotalIncome(r) == TotalIncome(s)
      && TotalExpenses(r) == TotalExpenses(s)
      && NetBalance(r) == NetBalance(s)
  {
    LoadFromFileState(other, filename, s.arr);
    ReverseMultiset(s.arr);
  }
}
