/** The generic LIFO stack the tracker uses as its action log: a chain of
    nodes, each linking to the node pushed before it, plus an element counter. */
module SimpleStack {

  /** `items[0]` is the top node and `items[|items| - 1]` the bottom one;
      `size` is the separate counter kept beside the chain. */
  datatype Stack<T> = Stack(items: seq<T>, size: nat) {
    /** The counter agrees with the number of nodes in the chain. */
    predicate Valid() {
      size == |items|
    }
  }

  /** What `pop(out)` leaves behind: its result, the output variable and the stack. */
  datatype PopResult<T> = PopResult(ok: bool, out: T, rest: Stack<T>)

  /** The default-constructed stack: no nodes, counter at zero. */
  function Empty<T>(): (r: Stack<T>)
    ensures r.Valid() && IsEmpty(r)
  {
    Stack([], 0)
  }

  /** `isEmpty` tests the top pointer, not the counter. */
  function IsEmpty<T>(s: Stack<T>): (r: bool)
    ensures s.Valid() ==> (r <==> s.size == 0)
  {
    s.items == []
  }

  /** A new node holding `v` becomes the top. */
  function Push<T>(s: Stack<T>, v: T): (r: Stack<T>)
    ensures !IsEmpty(r) && r.items[0] == v && r.items[1..] == s.items
    ensures r.size == s.size + 1
    ensures s.Valid() ==> r.Valid()
  {
    Stack([v] + s.items, s.size + 1)
  }

  /** Removes the top node and copies its value to `out`; on an empty stack
      it fails and leaves both `out` and the stack as they were. */
  function Pop<T>(s: Stack<T>, out: T): (r: PopResult<T>)
    requires s.Valid()
    ensures r.ok <==> !IsEmpty(s)
    ensures !r.ok ==> r.out == out && r.rest == s
    ensures r.ok ==> [r.out] + r.rest.items == s.items && r.rest.size == s.size - 1
    ensures r.rest.Valid()
  {
    if s.items == [] then PopResult(false, out, s)
    else PopResult(true, s.items[0], Stack(s.items[1..], s.size - 1))
  }

  /** Discards every node and resets the counter. */
  function Clear<T>(s: Stack<T>): (r: Stack<T>)
    ensures r.Valid() && IsEmpty(r) && r.size == 0
  {
    Stack([], 0)
  }

  /** The copy constructor: collects `other`'s values top to bottom into a
      buffer, then pushes them onto an empty stack from the last one back. */
  method Copy<T>(other: Stack<T>) returns (r: Stack<T>)
    ensures r.items == other.items
    ensures r.Valid()
    ensures other.Valid() ==> r == other
  {
    var temp: seq<T> := [];
    var node := 0;
    while node < |other.items|
      invariant 0 <= node <= |other.items|
      invariant temp == other.items[..node]
    {
      temp := temp + [other.items[node]];
      node := node + 1;
    }
    assert temp == other.items;
    r := Empty();
    var i := |temp|;
    while i > 0
      invariant 0 <= i <= |temp|
      invariant r.items == temp[i..]
      invariant r.Valid()
    {
      r := Push(r, temp[i - 1]);
      i := i - 1;
    }
  }

  /** Copy assignment. Assigning a stack to itself returns it untouched;
      otherwise the target's nodes are discarded and it is refilled exactly as
      the copy constructor fills a new stack. Value equality stands in for the
      address comparison in `Tracker.hh`: the two differ only when an equal but
      distinct stack is assigned, and then the refill produces that same value
      again whenever `other` is Valid. */
  method Assign<T(==)>(self: Stack<T>, other: Stack<T>) returns (r: Stack<T>)
    ensures self == other ==> r == self
    ensures r.items == other.items
    ensures self != other ==> r.Valid()
    ensures other.Valid() ==> r == other
  {
    if self == other {
      return self;
    }
    r := Copy(other);
  }

  /** Popping right after a push hands back the pushed value and the earlier stack. */
  lemma PushThenPop<T>(s: Stack<T>, v: T, out: T)
    requires s.Valid()
    ensures Pop(Push(s, v), out) == PopResult(true, v, s)
  {
  }

  /** Strict LIFO order: after pushing `a` then `b`, two pops yield `b` then
      `a`, and a third pop reports the stack empty. */
  lemma LastInFirstOut<T>(s: Stack<T>, a: T, b: T, out: T)
    requires s.Valid() && IsEmpty(s)
    ensures var p1 := Pop(Push(Push(s, a), b), out);
            var p2 := Pop(p1.rest, p1.out);
            var p3 := Pop(p2.rest, p2.out);
            p1.ok && p1.out == b && p2.ok && p2.out == a && !p3.ok && p3.out == a && IsEmpty(p3.rest)
  {
  }
}
