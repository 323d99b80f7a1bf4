/** The tracker's singly linked list, as the sequence of transactions read
    from the head node along the links. */
module NodeList {
  import opened Transactions
  import opened Seqs

  /** The list half of `removeByDescription`: walks with a trailing pointer
      and unlinks the first node whose description is `desc`. */
  method RemoveByDescription(list: seq<Transaction>, desc: string)
    returns (after: seq<Transaction>, removed: bool)
    ensures removed <==> Any(list, Description(desc))
    ensures after == RemoveFirst(list, Description(desc))
  {
    var p := 0;  // the current node; the trailing pointer is p - 1, or none at the head
    while p < |list|
      invariant 0 <= p <= |list|
      invariant forall k :: 0 <= k < p ==> list[k].description != desc
    {
      if list[p].description == desc {
        assert FirstIndex(list, Description(desc)) == p;
        if p == 0 {
          after := list[1..];                  // the head moves to the next node
        } else {
          after := list[..p] + list[p + 1..];  // the trailing node links past p
        }
        return after, true;
      }
      p := p + 1;
    }
    return list, false;
  }

  /** `listContainsCategory`: walks the list until a node in category `cat`. */
  method ContainsCategory(list: seq<Transaction>, cat: string) returns (found: bool)
    ensures found <==> exists i :: 0 <= i < |list| && list[i].category == cat
  {
    var p := 0;
    while p < |list|
      invariant 0 <= p <= |list|
      invariant forall k :: 0 <= k < p ==> list[k].category != cat
    {
      if list[p].category == cat {
        return true;
      }
      p := p + 1;
    }
    return false;
  }

  /** `appendList`: copies each node of `other`, in order, onto the tail of
      `list`, counting one more node per copy. */
  method AppendList(list: seq<Transaction>, listSize: nat, other: seq<Transaction>)
    returns (joined: seq<Transaction>, joinedSize: nat)
    ensures joined == list + other
    ensures joinedSize == listSize + |other|
  {
    joined, joinedSize := list, listSize;
    var p := 0;
    while p < |other|
      invariant 0 <= p <= |other|
      invariant joined == list + other[..p]
      invariant joinedSize == listSize + p
    {
      joined := joined + [other[p]];
      joinedSize := joinedSize + 1;
      p := p + 1;
    }
    assert other[..p] == other;
  }
}
