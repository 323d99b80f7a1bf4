# Expense tracker transaction store, modelled in Dafny

This project models the core of a personal finance ledger: the `Tracker`
transaction store and the generic `SimpleStack<T>` it uses as its action log.

The tracker holds one logical collection of transactions in two structures:

- a dynamic array with a size and a capacity (4 to start, doubled when full);
- a singly linked list that gains each new transaction at its head.

It also keeps a LIFO log of human-readable action strings and a buffer holding
the most recent search result. The model covers these operations:

- adding a transaction;
- removing by description, independently in the array and in the list;
- the linear searches;
- the recursive merge sort of the list by amount;
- the income and expense totals;
- deep copy and copy assignment;
- the state effect of loading a file;
- the stack operations.

Modules, one per component of `Tracker.hh` / `Tracker.cpp`:

- `Transactions` (`transactions.dfy`): the `Transaction` record. The amount is
  an exact number of cents.
- `Seqs` (`seqs.dfy`): the scans the store runs: first index, filter, first-match
  removal. A search key is a `Criterion` (description, category, kind or amount).
- `SimpleStack` (`simple_stack.dfy`): the node-chain stack as a sequence, top
  first, plus its separate `size` counter.
- `DynArray` (`dyn_array.dfy`): pure functions for `dynResize` and the growing
  append, plus a `Buffer` class over a real `array<Transaction>` with the copy,
  shift and scan loops of the C++ implementation.
- `NodeList` (`node_list.dfy`): the pointer walks of the list (unlink the first
  match, contains, append a copy), as loops over the sequence of nodes.
- `MergeSort` (`merge_sort.dfy`): `splitList`, `mergeByAmount` and
  `mergeSortByAmount`. Proved: permutation, order, and stability.
- `Tracker` (`tracker.dfy`): the store as an immutable `State`, with one
  function or method per operation.
- `TrackerProperties` (`tracker_properties.dfy`): properties that relate several
  operations.

In `Tracker.State`, `arr` is the live part of the array, `dynArr[0 .. dynSize)`.
Slots past `dynSize` cannot be observed through any operation, because every
copy and every scan stops at `dynSize`. The `Buffer` class keeps them, including
the stale copy a removal leaves behind. `list` is the list read from the head
node. `listSize` is kept as its own counter, and `Valid()` states that it equals
the node count.

Two behaviours of the C++ implementation are kept on purpose:

- `removeByDescription` removes the first match in each structure independently.
  With duplicated descriptions this can remove different transactions from the
  array and from the list (`RemoveCanDesynchronise`).
- Only adds and loads write to the log. Removal, sorting, searches and saving do
  not (`OnlyAddsAreLogged`).

## Model

| member | source | states |
|---|---|---|
| Tracker.Fresh | Tracker.cpp:80-84 | a new tracker is Valid, with empty array and list, capacity 4, an empty log and an empty query buffer |
| DynArray.Resized | Tracker.cpp:97-114 | resizing keeps the longest prefix of the elements that fits the new capacity (at least 1) and loses nothing when the capacity is large enough |
| DynArray.Buffer.Resize | Tracker.cpp:97-114 | the copy loop allocates a new buffer of the clamped capacity whose live elements are exactly `Resized` of the old ones |
| DynArray.AppendGrowing | Tracker.cpp:218-223 | on a Valid array, appending keeps every element, puts `t` last, leaves size within capacity, and doubles the capacity exactly when the array was full |
| DynArray.Buffer.Append | Tracker.cpp:218-223 | the in-place append agrees with `AppendGrowing` on elements and capacity |
| DynArray.Buffer.RemoveByDescription | Tracker.cpp:235-245 | the array scan reports a match iff one exists and leaves the elements with the first match deleted and the rest in order |
| DynArray.Buffer.ShiftLeft | Tracker.cpp:238-240 | the shift loop closes the gap at slot i, moving each later element one slot left |
| DynArray.Buffer.FindFirstByCategory | Tracker.cpp:274-279 | the loop returns -1 iff no live element has the category, else the smallest matching index |
| DynArray.Buffer.Snapshot | Tracker.cpp:378-383 | the snapshot loop returns exactly the live elements in array order |
| Seqs.FirstIndex | Tracker.cpp:274-279 | -1 iff nothing matches; otherwise an in-range matching index with no match before it |
| Seqs.Filter | Tracker.cpp:290-308 | the result only holds matching elements, is no longer than the input, and is empty iff nothing matches |
| Seqs.FilterMultiset | Tracker.cpp:290-308 | the filter keeps every copy of each matching transaction and no copy of any other |
| Seqs.FilterAppend | Tracker.cpp:290-308 | filtering distributes over concatenation, so array order is kept |
| Seqs.RemoveFirst | Tracker.cpp:236-266 | with no match the sequence is unchanged; otherwise exactly the element at the first matching index is cut out, the rest in order, and the length drops by one |
| Seqs.RemoveFirstMultiset | Tracker.cpp:236-266 | removal takes exactly one copy of the first matching transaction out of the multiset |
| Seqs.AnyOfSameMultiset | Tracker.cpp:274-288 | whether some element matches depends only on the multiset of elements |
| NodeList.RemoveByDescription | Tracker.cpp:247-266 | the walk with a trailing pointer reports a match iff one exists and unlinks exactly the first matching node |
| NodeList.ContainsCategory | Tracker.cpp:281-288 | the walk answers true iff some node has the category |
| NodeList.AppendList | Tracker.cpp:131-153 | copying the other list onto the tail yields this list followed by the other in its order, counting one node per copy |
| MergeSort.SplitList | Tracker.cpp:314-326 | the slow/fast pointer loop cuts the list into a front of length (n+1)/2 and the back, which together are the input |
| MergeSort.Merge | Tracker.cpp:328-360 | the merge holds exactly the elements of both operands |
| MergeSort.MergeSorted | Tracker.cpp:328-360 | merging two lists sorted in the requested direction yields a sorted list |
| MergeSort.MergeStable | Tracker.cpp:328-360 | since the left head wins ties, for every amount the merge lists the left operand's entries of that amount before the right's, each in order |
| MergeSort.Sort | Tracker.cpp:362-370 | the sort is a permutation of its input |
| MergeSort.SortSorted | Tracker.cpp:362-370 | the sort is ordered by amount in the requested direction |
| MergeSort.SortStable | Tracker.cpp:362-370 | the sort is stable: for each amount, the entries with that amount keep their relative order |
| Tracker.ListMergeSortByAmount | Tracker.cpp:372-374 | the list becomes a sorted and stable permutation of itself; array, counter, log and buffer are untouched |
| Tracker.AddTransaction | Tracker.cpp:217-230 | keeps the array elements and appends `t`; doubles a full capacity; keeps Valid; puts `t` at the list head; adds one to `listSize`; logs the ADD entry |
| Tracker.RemoveByDescription | Tracker.cpp:232-269 | true iff either structure had a match; deletes the first match in each structure independently; each size drops by one exactly when that structure matched; with no match nothing changes |
| Tracker.DynFindFirstByCategory | Tracker.cpp:274-279 | -1 iff no array element has the category, else the smallest such index |
| Tracker.ListContainsCategory | Tracker.cpp:281-288 | true iff some list node has the category |
| Tracker.FindAllByCategory | Tracker.cpp:290-298 | returns the in-order filter of the array by category and stores it in the query buffer, nothing else changing |
| Tracker.FindAllByType | Tracker.cpp:300-308 | returns the in-order filter of the array by kind and stores it in the query buffer, nothing else changing |
| Tracker.Accumulate | Tracker.cpp:386-390 | the accumulation loop over the snapshot computes the running sum of the amounts of one kind |
| Tracker.SumOfKindIsFilteredSum | Tracker.cpp:385-399 | the running sum of one kind equals the sum of the amounts that `findAllByType` would return |
| Tracker.TotalIncome | Tracker.cpp:385-391 | the total is the sum of the amounts of the 'I' entries of the array |
| Tracker.TotalExpenses | Tracker.cpp:393-399 | the total is the sum of the amounts of the 'E' entries of the array |
| Tracker.NetBalance | Tracker.cpp:401-403 | the balance counts income up, expenses down and any other kind not at all |
| Tracker.ClearList | Tracker.cpp:119-128 | the list becomes empty with a zero counter; nothing else changes |
| Tracker.Copy | Tracker.cpp:160-181 | the copy is always Valid, with `other`'s list order, log contents and query buffer; a Valid `other` is reproduced exactly |
| Tracker.Assign | Tracker.cpp:183-213 | self-assignment changes nothing; otherwise the result is a Valid copy of `other`, equal to it when `other` is Valid |
| Tracker.Reset | Tracker.cpp:428-438 | the reset before a load yields a fresh tracker whatever the previous state |
| Tracker.LoadFromFile | Tracker.cpp:424-455 | succeeds iff the file opened; an unopened file changes nothing; otherwise the LOAD entry is on top of the log |
| Tracker.LogAction | Tracker.cpp:461-463 | pushes the action on top of the log and changes nothing else |
| Tracker.UndoLastAction | Tracker.cpp:465-467 | pops the newest log entry if any; on an empty log reports false with the output and state unchanged; the data is never touched |
| Tracker.DynSize | Tracker.hh:196 | the array size never exceeds the capacity of a Valid tracker |
| Tracker.ListSize | Tracker.hh:197 | the list counter of a Valid tracker is the node count |
| TrackerProperties.AddAllArray | Tracker.cpp:217-223 | adding records in turn keeps Valid and appends them to the array in order |
| TrackerProperties.AddAllList | Tracker.cpp:225-227 | adding records in turn puts them at the list head in reverse order and counts each node |
| TrackerProperties.AddAllLog | Tracker.cpp:229 | adding records in turn logs one ADD entry per record, newest on top |
| TrackerProperties.PureAddsMirror | Tracker.cpp:217-227 | from a fresh tracker, pure adds leave the list equal to the reverse of the array and `listSize` equal to the array size |
| TrackerProperties.AddKeepsTight | Tracker.cpp:219-222 | each add keeps the capacity at the smallest of 4, 8, 16, ... that holds the array |
| TrackerProperties.AddAllKeepsTight | Tracker.cpp:219-222 | a sequence of adds keeps the capacity at the smallest doubling of 4 that holds the array |
| TrackerProperties.AddKeepsSynced | Tracker.cpp:217-228 | an add keeps array and list holding the same transactions with equal counts |
| TrackerProperties.RemoveKeepsSyncedWhenUnambiguous | Tracker.cpp:232-269 | when all array elements with the description are the same transaction, removal keeps array and list in step |
| TrackerProperties.RemoveCanDesynchronise | Tracker.cpp:232-269 | two distinct entries sharing a description, added in turn, are removed one from the array and the other from the list, leaving the structures out of step |
| TrackerProperties.SortKeepsSynced | Tracker.cpp:372-374 | sorting the list keeps it in step with the array and leaves the array as it was |
| TrackerProperties.SyncedSearchesAgree | Tracker.cpp:274-288 | when in step, the list search finds a category iff the array search does |
| TrackerProperties.FindAllAgreesWithFindFirst | Tracker.cpp:274-298 | `findAllByCategory` is empty iff `dynFindFirstByCategory` is -1, and otherwise starts with the element at that index |
| TrackerProperties.AddUpdatesTotals | Tracker.cpp:385-403 | an add raises the income total only for kind 'I' and the expense total only for kind 'E'; the balance moves by the signed amount; other kinds count in neither |
| TrackerProperties.CoffeeAndSalary | Tracker.cpp:385-403 | a 4.50 coffee expense and a 2000.00 salary give income 2000.00, expenses 4.50, balance 1995.50, and the Food search finds only the coffee |
| TrackerProperties.OnlyAddsAreLogged | Tracker.cpp:217-269 | removal, sorting and searches leave the log as it was; an add logs exactly its ADD entry, and popping it leaves the added data in place |
| TrackerProperties.LoadIsFreshReplay | Tracker.cpp:424-455 | after a successful open, the state is a fresh tracker after adding each record in order, then the LOAD entry, whatever the earlier state |
| TrackerProperties.LoadFromFileState | Tracker.cpp:424-455 | after a load: the array is the records in order and the list is their reverse; counters agree and the buffer is empty; the log is LOAD over one ADD per record; the capacity is the smallest doubling of 4 that fits |
| TrackerProperties.SaveThenLoad | Tracker.cpp:409-455 | loading records equal to a tracker's array gives back that array, its list membership and its totals |
| SimpleStack.Empty | Tracker.hh:70 | the default stack is Valid and empty |
| SimpleStack.IsEmpty | Tracker.hh:125-128 | for a Valid stack, being empty is the same as a zero counter |
| SimpleStack.Push | Tracker.hh:106-109 | the pushed value is the new top, the old stack lies below it, the counter goes up by one |
| SimpleStack.Pop | Tracker.hh:112-121 | true iff the stack has a node; if so, the output gets the top value and the rest is the stack below with the counter one lower; otherwise output and stack are unchanged |
| SimpleStack.Clear | Tracker.hh:130-139 | the stack becomes empty with a zero counter |
| SimpleStack.Copy | Tracker.hh:76-86 | the copy has `other`'s top-to-bottom order and a counter matching its node count, equal to a Valid `other` |
| SimpleStack.Assign | Tracker.hh:88-104 | self-assignment changes nothing; otherwise the target takes `other`'s top-to-bottom order with a matching counter |
| SimpleStack.PushThenPop | Tracker.hh:106-121 | a pop right after a push returns true, hands back the pushed value and restores the earlier stack |
| SimpleStack.LastInFirstOut | Tracker.hh:106-121 | pushing a then b onto an empty stack, two pops give b then a, and a third pop fails |

## Left out

- `main.cpp`: the interactive menu and console prompting. It only calls the operations above.
- File I/O in `saveToFile` and `loadFromFile` is not modelled: opening streams, writing lines, and parsing with `operator>>` and `getline`. `LoadFromFile` takes whether the file opened and the records parsed before the first malformed line.
- TrackerProperties.SaveThenLoad: takes the parsed records to be exactly the saved array; it does not show that `saveToFile` followed by `loadFromFile` gives that array back, and for some inputs the C++ implementation does not. The load reads date, type and category as whitespace-delimited tokens (Tracker.cpp:444) and the description up to the end of the line, while the menu reads the category with `getline` (main.cpp:35), so it may be empty or contain spaces. A category such as "Eating out" or "", a date containing whitespace, a whitespace type character, or a description containing a newline makes that line either fail to parse (the loop stops, and that record and every later one are lost) or parse into shifted fields that are loaded in place of the record. For example, a category "Top 10" loads as category "Top" with amount 10, and `>> type` skips leading whitespace, so a blank type takes the first letter of the category. The round trip can hold only when every record has a non-empty, whitespace-free date and category, a non-whitespace type and a description without a newline; the text format and its parsing are not modelled.
- Floating point: amounts are integers (cents). The two-decimal formatting in `operator<<` and in the saved line is not modelled.
- Memory management: `new`/`delete`, destructors, and freeing nodes in `clearList` and `clear`. Their only visible effect is an empty structure with a zero counter.
- The accessors and setters of `Transaction`. The record is a datatype with those fields.
- Integer widths: `dynSize`, `dynCap`, `listSize` and the stack's `size` are unbounded naturals. Overflowing a 64-bit `size_t` would need more elements than memory holds. `dynFindFirstByCategory`'s cast of the index to `int` is not modelled.
- Object identity: the self-assignment guards in the C++ implementation compare addresses. `Tracker.Assign` and `SimpleStack.Assign` compare values instead. The results differ only when a distinct but equal stack or tracker is assigned. Then the refill produces that same value again whenever `other` is Valid.
- SimpleStack.Pop: requires the counter to match the node count. Every stack built by `Empty`, `Push`, `Pop`, `Clear`, `Copy` and `Assign` meets this; the C++ implementation never breaks it.
- Tracker.RemoveByDescription: requires a Valid tracker. `listSize` is then at least one whenever a node matches, so the decrement cannot wrap.
