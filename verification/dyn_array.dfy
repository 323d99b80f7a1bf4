/** The tracker's dynamic array: a raw buffer of `capacity` slots whose first
    `size` slots hold the live transactions. */
module DynArray {
  import opened Transactions
  import opened Seqs

  /** The capacity `dynResize(newCap)` settles on: requests below one become one. */
  function ClampCap(newCap: nat): (c: nat)
    ensures 1 <= c && newCap <= c
    ensures newCap >= 1 ==> c == newCap
  {
    if newCap < 1 then 1 else newCap
  }

  /** The live elements left by `dynResize(newCap)`: the longest prefix of
      `elems` that fits in the new capacity. */
  function Resized(elems: seq<Transaction>, newCap: nat): (r: seq<Transaction>)
    ensures |r| <= ClampCap(newCap)
    ensures r <= elems
    ensures |elems| <= ClampCap(newCap) ==> r == elems
    ensures |elems| > ClampCap(newCap) ==> |r| == ClampCap(newCap)
  {
    if |elems| <= ClampCap(newCap) then elems else elems[..ClampCap(newCap)]
  }

  /** The capacity that `addTransaction` asks for before writing: doubled
      when the array is full, 4 when there was no capacity at all. */
  function GrowTarget(size: nat, cap: nat): nat {
    if size < cap then cap else if cap < 1 then 4 else cap * 2
  }

  /** The live elements and the capacity after an append. */
  datatype Grown = Grown(elems: seq<Transaction>, cap: nat)

  /** The array half of `addTransaction`: grow when full, then write `t`
      into the first free slot. Returns the live elements and the capacity. */
  function AppendGrowing(elems: seq<Transaction>, cap: nat, t: Transaction): (r: Grown)
    ensures |elems| <= cap && 1 <= cap ==>
      && r.elems == elems + [t]
      && |r.elems| <= r.cap
      && r.cap == (if |elems| < cap then cap else 2 * cap)
  {
    if |elems| >= cap then
      var newCap := GrowTarget(|elems|, cap);
      Grown(Resized(elems, newCap) + [t], ClampCap(newCap))
    else
      Grown(elems + [t], cap)
  }

  /** The buffer itself, with the slots past `size` still holding whatever
      they held (blank slots after a resize, a stale copy after a removal). */
  class Buffer {
    var data: array<Transaction>
    var size: nat

    ghost predicate Valid()
      reads this
    {
      size <= data.Length && 1 <= data.Length
    }

    /** The live elements, `dynArr[0 .. dynSize)`. */
    ghost function Elements(): seq<Transaction>
      reads this, data
      requires Valid()
    {
      data[..size]
    }

    /** The constructor: no elements and `dynResize(4)`'s four blank slots. */
    constructor ()
      ensures Valid() && Elements() == [] && data.Length == 4
    {
      data := new Transaction[4](_ => Blank);
      size := 0;
    }

    /** `dynResize`: allocates `newCap` blank slots (at least one), copies the
        elements that fit and truncates `size` to the new capacity. */
    method Resize(newCap: nat)
      requires Valid()
      modifies this
      ensures Valid() && fresh(data)
      ensures data.Length == ClampCap(newCap)
      ensures Elements() == Resized(old(Elements()), newCap)
    {
      var cap := ClampCap(newCap);
      var grown := new Transaction[cap](_ => Blank);
      var copyCount := if size < cap then size else cap;
      var i := 0;
      while i < copyCount
        invariant 0 <= i <= copyCount
        invariant grown[..i] == data[..i]
        modifies grown
      {
        grown[i] := data[i];
        i := i + 1;
      }
      data := grown;
      if size > cap {
        size := cap;
      }
    }

    /** The array half of `addTransaction`. */
    method Append(t: Transaction)
      requires Valid()
      modifies this, data
      ensures Valid()
      ensures Grown(Elements(), data.Length) == AppendGrowing(old(Elements()), old(data.Length), t)
    {
      ghost var before := data[..size];
      ghost var cap := data.Length;
      if size >= data.Length {
        Resize(GrowTarget(size, data.Length));
      }
      ghost var kept := data[..size];
      assert kept == AppendGrowing(before, cap, t).elems[..|kept|];
      data[size] := t;
      size := size + 1;
      assert data[..size] == kept + [t];
    }

    /** The array half of `removeByDescription`: finds the first element with
        description `desc`, closes the gap and shrinks `size` by one. */
    method RemoveByDescription(desc: string) returns (removed: bool)
      requires Valid()
      modifies this, data
      ensures Valid() && data == old(data)
      ensures removed <==> Any(old(Elements()), Description(desc))
      ensures Elements() == RemoveFirst(old(Elements()), Description(desc))
    {
      ghost var before := data[..size];
      removed := false;
      var i := 0;
      while i < size
        invariant Valid() && data == old(data) && data[..size] == before
        invariant 0 <= i <= size
        invariant forall k :: 0 <= k < i ==> !Meets(before[k], Description(desc))
      {
        if data[i].description == desc {
          assert Meets(before[i], Description(desc));
          assert FirstIndex(before, Description(desc)) == i;
          ShiftLeft(i);
          size := size - 1;
          assert Elements() == before[..i] + before[i + 1..];
          removed := true;
          return;
        }
        i := i + 1;
      }
      assert !Any(before, Description(desc));
    }

    /** Moves every live element after slot `i` one slot left, overwriting
        slot `i`; the last live slot keeps a stale copy. */
    method ShiftLeft(i: nat)
      requires Valid() && i < size
      modifies data
      ensures data[..size - 1] == old(data[..i]) + old(data[i + 1..size])
    {
      ghost var before := data[..size];
      var j := i + 1;
      while j < size
        invariant i + 1 <= j <= size
        invariant data[..j - 1] == before[..i] + before[i + 1..j]
        invariant data[j..size] == before[j..]
      {
        data[j - 1] := data[j];
        j := j + 1;
      }
    }

    /** `dynFindFirstByCategory`: the index of the first live element in
        category `cat`, or -1. */
    method FindFirstByCategory(cat: string) returns (idx: int)
      requires Valid()
      ensures idx == -1 <==> !Any(Elements(), Category(cat))
      ensures idx != -1 ==> 0 <= idx < size && data[idx].category == cat
      ensures forall j :: 0 <= j < size && j < idx ==> data[j].category != cat
      ensures idx == FirstIndex(Elements(), Category(cat))
    {
      var i := 0;
      while i < size
        invariant 0 <= i <= size
        invariant forall k :: 0 <= k < i ==> data[k].category != cat
      {
        if data[i].category == cat {
          return i;
        }
        i := i + 1;
      }
      return -1;
    }

    /** `snapshotAll`: an ordered copy of the live elements. */
    method Snapshot() returns (snap: seq<Transaction>)
      requires Valid()
      ensures snap == Elements()
    {
      snap := [];
      var i := 0;
      while i < size
        invariant 0 <= i <= size
        invariant snap == data[..i]
      {
        snap := snap + [data[i]];
        i := i + 1;
      }
    }
  }
}
