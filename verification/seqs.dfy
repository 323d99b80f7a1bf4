/** Linear scans over sequences of transactions: the searches, filters and
    first-match removals that the store runs over both its array and its list. */
module Seqs {
  import opened Transactions

  /** A field compared for exact equality, as each search of the store does. */
  datatype Criterion =
    | Description(desc: string)
    | Category(cat: string)
    | Kind(k: char)
    | Amount(cents: int)

  predicate Meets(t: Transaction, c: Criterion) {
    match c
    case Description(d) => t.description == d
    case Category(g) => t.category == g
    case Kind(k) => t.kind == k
    case Amount(a) => t.amount == a
  }

  /** Some element of `s` meets `c`. */
  predicate Any(s: seq<Transaction>, c: Criterion) {
    exists i :: 0 <= i < |s| && Meets(s[i], c)
  }

  /** The position of the first element meeting `c`, or -1 when there is none. */
  function FirstIndex(s: seq<Transaction>, c: Criterion): (r: int)
    ensures r == -1 <==> !Any(s, c)
    ensures r != -1 ==> 0 <= r < |s| && Meets(s[r], c)
    ensures r != -1 ==> forall j :: 0 <= j < r ==> !Meets(s[j], c)
  {
    if s == [] then -1
    else if Meets(s[0], c) then 0
    else
      var k := FirstIndex(s[1..], c);
      assert forall j :: 1 <= j < |s| ==> s[j] == s[1..][j - 1];
      if k == -1 then -1 else k + 1
  }

  /** The elements of `s` meeting `c`, in their order in `s`. */
  function Filter(s: seq<Transaction>, c: Criterion): (r: seq<Transaction>)
    ensures |r| <= |s|
    ensures forall i :: 0 <= i < |r| ==> Meets(r[i], c)
    ensures r == [] <==> !Any(s, c)
  {
    if s == [] then []
    else
      var rest := Filter(s[1..], c);
      assert forall j :: 1 <= j < |s| ==> s[j] == s[1..][j - 1];
      assert !Meets(s[0], c) && !Any(s[1..], c) ==> !Any(s, c);
      if Meets(s[0], c) then [s[0]] + rest else rest
  }

  /** `s` without its first element meeting `c`; `s` itself when none does. */
  function RemoveFirst(s: seq<Transaction>, c: Criterion): (r: seq<Transaction>)
    ensures !Any(s, c) ==> r == s
    ensures Any(s, c) ==> var k := FirstIndex(s, c); r == s[..k] + s[k + 1..]
    ensures |r| == if Any(s, c) then |s| - 1 else |s|
  {
    if s == [] then []
    else if Meets(s[0], c) then s[1..]
    else
      var rest := RemoveFirst(s[1..], c);
      AnyTail(s, c);
      if Any(s, c) then
        var k := FirstIndex(s[1..], c);
        assert FirstIndex(s, c) == k + 1;
        ConsSplice(s, k);
        [s[0]] + rest
      else
        [s[0]] + rest
  }

  /** Past a head that does not meet `c`, a match can only be in the tail. */
  lemma AnyTail(s: seq<Transaction>, c: Criterion)
    requires s != [] && !Meets(s[0], c)
    ensures Any(s, c) <==> Any(s[1..], c)
  {
  }

  lemma ConsSplice<T>(s: seq<T>, k: nat)
    requires k + 1 < |s|
    ensures [s[0]] + (s[1..][..k] + s[1..][k + 1..]) == s[..k + 1] + s[k + 2..]
  {
  }

  /** The sum of the amounts of `s`. */
  function SumAmounts(s: seq<Transaction>): int {
    if s == [] then 0 else s[0].amount + SumAmounts(s[1..])
  }

  /** `s` read back to front. */
  function Reverse<T>(s: seq<T>): (r: seq<T>)
    ensures |r| == |s|
    ensures forall i :: 0 <= i < |s| ==> r[i] == s[|s| - 1 - i]
  {
    if s == [] then [] else Reverse(s[1..]) + [s[0]]
  }

  /** A filter keeps every copy of each meeting element and nothing else. */
  lemma {:induction false} FilterMultiset(s: seq<Transaction>, c: Criterion, x: Transaction)
    ensures multiset(Filter(s, c))[x] == if Meets(x, c) then multiset(s)[x] else 0
    decreases |s|
  {
    if s != [] {
      FilterMultiset(s[1..], c, x);
      assert s == [s[0]] + s[1..];
    }
  }

  lemma {:induction false} FilterAppend(a: seq<Transaction>, b: seq<Transaction>, c: Criterion)
    ensures Filter(a + b, c) == Filter(a, c) + Filter(b, c)
    decreases |a|
  {
    if a == [] {
      assert a + b == b;
    } else {
      assert (a + b)[1..] == a[1..] + b;
      FilterAppend(a[1..], b, c);
    }
  }

  lemma {:induction false} SumAmountsAppend(a: seq<Transaction>, b: seq<Transaction>)
    ensures SumAmounts(a + b) == SumAmounts(a) + SumAmounts(b)
    decreases |a|
  {
    if a == [] {
      assert a + b == b;
    } else {
      assert (a + b)[1..] == a[1..] + b;
      SumAmountsAppend(a[1..], b);
    }
  }

  /** Deleting the first match takes exactly that one element out of the multiset. */
  lemma RemoveFirstMultiset(s: seq<Transaction>, c: Criterion)
    requires Any(s, c)
    ensures multiset(RemoveFirst(s, c)) == multiset(s) - multiset{s[FirstIndex(s, c)]}
  {
    var k := FirstIndex(s, c);
    var r := RemoveFirst(s, c);
    var front, back := s[..k], s[k + 1..];
    assert r == front + back;
    assert multiset(r) == multiset(front) + multiset(back);
    SplitAround(s, k);
    assert multiset(s) == multiset(front) + multiset{s[k]} + multiset(back);
  }

  lemma SplitAround<T>(s: seq<T>, k: nat)
    requires k < |s|
    ensures s == s[..k] + [s[k]] + s[k + 1..]
  {
  }

  /** Whether some element meets `c` depends only on the multiset of elements. */
  lemma AnyOfSameMultiset(a: seq<Transaction>, b: seq<Transaction>, c: Criterion)
    requires multiset(a) == multiset(b)
    ensures Any(a, c) <==> Any(b, c)
  {
    if Any(a, c) {
      var i :| 0 <= i < |a| && Meets(a[i], c);
      assert a[i] in multiset(b);
      var j :| 0 <= j < |b| && b[j] == a[i];
    }
    if Any(b, c) {
      var j :| 0 <= j < |b| && Meets(b[j], c);
      assert b[j] in multiset(a);
      var i :| 0 <= i < |a| && a[i] == b[j];
    }
  }

  lemma {:induction false} ReverseMultiset<T>(s: seq<T>)
    ensures multiset(Reverse(s)) == multiset(s)
    decreases |s|
  {
    if s != [] {
      ReverseMultiset(s[1..]);
      assert s == [s[0]] + s[1..];
    }
  }
}
