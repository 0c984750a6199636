/**
 * The event priority queue (src/event-bus/event-priority.ts): a binary heap kept in a growable
 * list and ordered by (priority, sequence).
 */
module EventPriority {
  import opened Prelude
  import Sorting

  datatype Priority = Critical | High | Normal | Low {
    /** Smaller is more urgent. */
    function Value(): nat {
      match this
      case Critical => 0
      case High => 1
      case Normal => 2
      case Low => 3
    }
  }

  datatype Event = Event(eventType: string, sequence: int, eventId: string)

  datatype Entry = Entry(event: Event, priority: nat, sequence: int)

  /** r must leave the queue before l. */
  predicate Before(r: Entry, l: Entry) {
    r.priority < l.priority || (r.priority == l.priority && r.sequence < l.sequence)
  }

  /** l may stand ahead of r. */
  predicate AtMost(l: Entry, r: Entry) {
    !Before(r, l)
  }

  // ----- Heap order -----

  function Up(i: nat): nat
    requires i > 0
  {
    (i - 1) / 2
  }

  /** Children of `hole` are at least the parent of `hole`. */
  ghost predicate Bridged(h: seq<Entry>, hole: nat) {
    0 < hole ==> forall i :: 0 < i < |h| && Up(i) == hole && Up(hole) < |h| ==> AtMost(h[Up(hole)], h[i])
  }

  /** Heap order may fail only between `hole` and its parent. */
  ghost predicate RisesAt(h: seq<Entry>, hole: nat) {
    Bridged(h, hole) && forall i :: 0 < i < |h| && i != hole ==> AtMost(h[Up(i)], h[i])
  }

  /** Heap order may fail only between `hole` and its children. */
  ghost predicate SinksAt(h: seq<Entry>, hole: nat) {
    Bridged(h, hole) && forall i :: 0 < i < |h| && Up(i) != hole ==> AtMost(h[Up(i)], h[i])
  }

  ghost predicate HeapOrdered(h: seq<Entry>) {
    forall i :: 0 < i < |h| ==> AtMost(h[Up(i)], h[i])
  }

  /** In heap order the root is least. */
  lemma {:induction false} RootIsLeast(h: seq<Entry>, i: nat)
    requires HeapOrdered(h) && i < |h|
    ensures AtMost(h[0], h[i])
  {
    if i > 0 {
      RootIsLeast(h, Up(i));
      assert AtMost(h[Up(i)], h[i]);
    }
  }

  function Swapped(h: seq<Entry>, i: nat, j: nat): (r: seq<Entry>)
    requires i < |h| && j < |h|
    ensures |r| == |h|
    ensures multiset(r) == multiset(h)
  {
    h[i := h[j]][j := h[i]]
  }

  ghost predicate Sorted(s: seq<Entry>) {
    forall i, j :: 0 <= i < j < |s| ==> AtMost(s[i], s[j])
  }

  ghost predicate DistinctKeys(s: seq<Entry>) {
    forall i, j :: 0 <= i < j < |s| ==> Before(s[i], s[j]) || Before(s[j], s[i])
  }

  lemma SameMultisetSameMembers(s: seq<Entry>, t: seq<Entry>, x: Entry) returns (i: nat)
    requires multiset(s) == multiset(t) && x in s
    ensures i < |t| && t[i] == x
  {
    assert x in multiset(s);
    assert x in multiset(t);
    i :| 0 <= i < |t| && t[i] == x;
  }

  function NotBefore(): (Entry, Entry) -> bool { (l: Entry, r: Entry) => AtMost(l, r) }

  /** With distinct keys there is one sorted arrangement, so draining forgets the order of arrival. */
  lemma SortedIsUnique(s: seq<Entry>, t: seq<Entry>)
    requires Sorted(s) && Sorted(t) && DistinctKeys(s) && multiset(s) == multiset(t)
    ensures s == t
  {
    var le := NotBefore();
    assert Sorting.TotalOrder(le);
    forall x, y | x in s && y in s && le(x, y) && le(y, x) ensures x == y {
      var i :| 0 <= i < |s| && s[i] == x;
      var j :| 0 <= j < |s| && s[j] == y;
    }
    Sorting.SortedIsUnique(s, t, le);
  }

  // ----- Overtaking -----

  /** Of two queued entries the earlier one leaves first exactly when the later one is not more urgent. */
  lemma LeavesFirstIff(order: seq<Entry>, i: nat, j: nat)
    requires Sorted(order) && i < |order| && j < |order| && order[i].sequence < order[j].sequence
    ensures i < j <==> order[i].priority <= order[j].priority
  {
    assert i < j ==> AtMost(order[i], order[j]);
    assert j < i ==> AtMost(order[j], order[i]);
  }

  /** The entries of one source leave in the order of their sequence numbers. */
  ghost predicate LeaveInSequence(order: seq<Entry>, mine: Entry -> bool) {
    forall i, j :: 0 <= i < j < |order| && mine(order[i]) && mine(order[j]) ==> order[i].sequence <= order[j].sequence
  }

  /** No later entry of the source is more urgent than an earlier one. */
  ghost predicate NoLaterMoreUrgent(held: seq<Entry>, mine: Entry -> bool) {
    forall i, j :: 0 <= i < |held| && 0 <= j < |held| && mine(held[i]) && mine(held[j]) ==>
      held[i].sequence < held[j].sequence ==> held[i].priority <= held[j].priority
  }

  /** Draining what is held keeps the order of a source exactly when none of its later events is more urgent. */
  lemma SourceKeepsOrderIff(held: seq<Entry>, order: seq<Entry>, mine: Entry -> bool)
    requires Sorted(order) && multiset(order) == multiset(held)
    ensures LeaveInSequence(order, mine) <==> NoLaterMoreUrgent(held, mine)
  {
    if NoLaterMoreUrgent(held, mine) {
      forall i, j | 0 <= i < j < |order| && mine(order[i]) && mine(order[j])
        ensures order[i].sequence <= order[j].sequence
      {
        var a := SameMultisetSameMembers(order, held, order[i]);
        var b := SameMultisetSameMembers(order, held, order[j]);
        assert AtMost(order[i], order[j]);
      }
    }
    if LeaveInSequence(order, mine) {
      forall i, j | 0 <= i < |held| && 0 <= j < |held| && mine(held[i]) && mine(held[j])
                    && held[i].sequence < held[j].sequence
        ensures held[i].priority <= held[j].priority
      {
        var a := SameMultisetSameMembers(held, order, held[i]);
        var b := SameMultisetSameMembers(held, order, held[j]);
        LeavesFirstIff(order, a, b);
      }
    }
  }

  /** A critical event overtakes the low one its source sent before. */
  lemma LaterCriticalOvertakes(low: Entry, critical: Entry, order: seq<Entry>)
    requires low.priority == Low.Value() && critical.priority == Critical.Value() && low.sequence < critical.sequence
    requires Sorted(order) && multiset(order) == multiset([low, critical])
    ensures order == [critical, low]
  {
    assert Sorted([critical, low]) && DistinctKeys([critical, low]);
    assert multiset([critical, low]) == multiset([low, critical]);
    SortedIsUnique([critical, low], order);
  }

  // ----- Overtaking over a run -----

  /** Entries join and leave the queue; what leaves is a least one of those held. */
  datatype Op = Joins(x: Entry) | Leaves(x: Entry)

  function Held(ops: seq<Op>): multiset<Entry> {
    if ops == [] then multiset{}
    else
      var before := Held(ops[..|ops| - 1]);
      match ops[|ops| - 1]
      case Joins(x) => before + multiset{x}
      case Leaves(x) => before - multiset{x}
  }

  ghost predicate LeavesAsLeast(ops: seq<Op>, n: nat)
    requires n < |ops|
  {
    ops[n].Leaves? ==> ops[n].x in Held(ops[..n]) && forall z :: z in Held(ops[..n]) ==> AtMost(ops[n].x, z)
  }

  /** A run of the queue in which every entry joins once and leaves at most once. */
  ghost predicate IsRun(ops: seq<Op>) {
    && Distinct(ops)
    && forall n :: 0 <= n < |ops| ==> LeavesAsLeast(ops, n)
  }

  lemma HeldStep(ops: seq<Op>, n: nat)
    requires n < |ops|
    ensures Held(ops[..n + 1]) == match ops[n]
                                  case Joins(x) => Held(ops[..n]) + multiset{x}
                                  case Leaves(x) => Held(ops[..n]) - multiset{x}
  {
    assert ops[..n + 1][..n] == ops[..n];
  }

  lemma HeldBefore(ops: seq<Op>, n: nat, x: Entry)
    requires n < |ops|
    ensures x in Held(ops[..n + 1]) ==> ops[n] == Joins(x) || x in Held(ops[..n])
    ensures ops[n] == Joins(x) || (x in Held(ops[..n]) && ops[n] != Leaves(x)) ==> x in Held(ops[..n + 1])
  {
    HeldStep(ops, n);
    hide Held;
  }

  lemma NothingHeld(ops: seq<Op>)
    ensures Held(ops[..0]) == multiset{}
  {
  }

  /** What joined and has not left is held. */
  lemma {:induction false} JoinedIsHeld(ops: seq<Op>, i: nat, n: nat, x: Entry)
    requires i < n <= |ops| && ops[i] == Joins(x) && forall k :: i < k < n ==> ops[k] != Leaves(x)
    ensures x in Held(ops[..n])
  {
    hide Held;
    HeldBefore(ops, n - 1, x);
    if i < n - 1 {
      JoinedIsHeld(ops, i, n - 1, x);
    }
  }

  /** What is held has joined. */
  lemma {:induction false} HeldHasJoined(ops: seq<Op>, n: nat, x: Entry) returns (i: nat)
    requires n <= |ops| && x in Held(ops[..n])
    ensures i < n && ops[i] == Joins(x)
  {
    hide Held;
    NothingHeld(ops);
    i := 0;
    if n > 0 {
      HeldBefore(ops, n - 1, x);
      if ops[n - 1] == Joins(x) {
        i := n - 1;
      } else {
        i := HeldHasJoined(ops, n - 1, x);
      }
    }
  }

  /**
   * Over any run: of two events, the one with the higher sequence number, which joined later,
   * leaves first exactly when it joined before the other had left and is more urgent.
   */
  lemma LaterLeavesFirstIff(ops: seq<Op>, x: Entry, y: Entry, inX: nat, inY: nat, outX: nat, outY: nat)
    requires IsRun(ops) && x.sequence < y.sequence && inX < inY
    requires inX < |ops| && inY < |ops| && outX < |ops| && outY < |ops|
    requires ops[inX] == Joins(x) && ops[inY] == Joins(y) && ops[outX] == Leaves(x) && ops[outY] == Leaves(y)
    ensures outY < outX <==> inY < outX && y.priority < x.priority
  {
    hide Held, Distinct;
    LeavesAfterJoining(ops, x, inX, outX);
    LeavesAfterJoining(ops, y, inY, outY);
    assert LeavesAsLeast(ops, outX) && LeavesAsLeast(ops, outY);
    assert outX != outY;
    if outY < outX {
      HeldBetween(ops, x, inX, outX, outY);
    } else if inY < outX {
      HeldBetween(ops, y, inY, outY, outX);
    }
  }

  lemma LeavesAfterJoining(ops: seq<Op>, x: Entry, i: nat, n: nat)
    requires IsRun(ops) && i < |ops| && n < |ops| && ops[i] == Joins(x) && ops[n] == Leaves(x)
    ensures i < n
  {
    assert LeavesAsLeast(ops, n);
    var k := HeldHasJoined(ops, n, x);
    assert k == i;
  }

  lemma HeldBetween(ops: seq<Op>, x: Entry, i: nat, out: nat, n: nat)
    requires IsRun(ops) && i < n < out < |ops| && ops[i] == Joins(x) && ops[out] == Leaves(x)
    ensures x in Held(ops[..n])
  {
    JoinedIsHeld(ops, i, n, x);
  }

  // ----- Events and their entries -----

  /** The urgency an event's type is listed with; an unlisted type counts as normal. */
  ghost function UrgencyOf(priorities: map<string, Priority>, e: Event): Priority {
    if e.eventType in priorities then priorities[e.eventType] else Normal
  }

  /** Critical before High before Normal before Low. */
  ghost predicate MoreUrgent(p: Priority, q: Priority) {
    match p
    case Critical => q != Critical
    case High => q == Normal || q == Low
    case Normal => q == Low
    case Low => false
  }

  /** d is more urgent than e, or as urgent and not newer. */
  ghost predicate NotAfter(priorities: map<string, Priority>, d: Event, e: Event) {
    var p, q := UrgencyOf(priorities, d), UrgencyOf(priorities, e);
    MoreUrgent(p, q) || (p == q && d.sequence <= e.sequence)
  }

  /** The entry carries the key of its event. */
  ghost predicate Keyed(priorities: map<string, Priority>, x: Entry) {
    x.priority == UrgencyOf(priorities, x.event).Value() && x.sequence == x.event.sequence
  }

  /** The order of the heap is the order of the events. */
  lemma KeysTell(priorities: map<string, Priority>, x: Entry, y: Entry)
    requires Keyed(priorities, x) && Keyed(priorities, y)
    ensures AtMost(x, y) <==> NotAfter(priorities, x.event, y.event)
  {
    var p, q := UrgencyOf(priorities, x.event), UrgencyOf(priorities, y.event);
    assert p.Value() < q.Value() <==> MoreUrgent(p, q);
    assert p.Value() == q.Value() <==> p == q;
  }

  // ----- The object -----

  class EventPriorityQueue {
    const priorities: map<string, Priority>
    var heap: seq<Entry>

    ghost predicate Valid()
      reads this
    {
      HeapOrdered(heap) && AllKeyed()
    }

    ghost predicate AllKeyed()
      reads this
    {
      forall x :: x in heap ==> Keyed(priorities, x)
    }

    constructor (priorities: map<string, Priority>)
      ensures Valid() && heap == [] && this.priorities == priorities
    {
      this.priorities := priorities;
      heap := [];
    }

    /** Unlisted event types count as normal. */
    function EntryOf(e: Event): Entry {
      Entry(e, (if e.eventType in priorities then priorities[e.eventType] else Normal).Value(), e.sequence)
    }

    method Enqueue(event: Event)
      requires Valid()
      modifies this
      ensures Valid()
      ensures exists x: Entry :: x.event == event && multiset(heap) == multiset(old(heap)) + multiset{x}
      ensures multiset(heap) == multiset(old(heap)) + multiset{EntryOf(event)}
      ensures |heap| == |old(heap)| + 1
    {
      var entry := EntryOf(event);
      assert entry.event == event;
      heap := heap + [entry];
      BubbleUp(|heap| - 1);
    }

    /** Removes one least entry and returns its event; an empty queue yields nothing and stays empty. */
    method Dequeue() returns (r: Option<Event>, ghost taken: Option<Entry>)
      requires Valid()
      modifies this
      ensures Valid()
      ensures r.None? <==> old(heap) == []
      ensures r.None? ==> taken.None? && heap == []
      ensures r.Some? ==> taken.Some? && r.value == taken.value.event
      ensures r.Some? ==> multiset(old(heap)) == multiset(heap) + multiset{taken.value}
      ensures r.Some? ==> |old(heap)| == |heap| + 1
      ensures r.Some? ==> forall x :: x in old(heap) ==> AtMost(taken.value, x)
      ensures r.Some? ==> forall x :: x in old(heap) ==> NotAfter(priorities, r.value, x.event)
    {
      hide Keyed, NotAfter, SinksAt, AtMost;
      if |heap| == 0 {
        return None, None;
      }
      var top, last := heap[0], heap[|heap| - 1];
      forall x | x in heap ensures AtMost(top, x) {
        var i :| 0 <= i < |heap| && heap[i] == x;
        RootIsLeast(heap, i);
      }
      forall x | x in heap ensures NotAfter(priorities, top.event, x.event) {
        KeysTell(priorities, top, x);
      }
      assert heap == heap[..|heap| - 1] + [last];
      heap := heap[..|heap| - 1];
      if |heap| > 0 {
        assert heap == [top] + heap[1..];
        LastToRoot(old(heap));
        heap := heap[0 := last];
        assert heap == [last] + old(heap)[1..|old(heap)| - 1];
        SinkDown(0);
      }
      return Some(top.event), Some(top);
    }

    function Peek(): (r: Option<Event>)
      requires Valid()
      reads this
      ensures r.None? <==> heap == []
      ensures r.Some? ==> exists t :: t in heap && r.value == t.event && forall x :: x in heap ==> AtMost(t, x)
      ensures r.Some? ==> forall x :: x in heap ==> NotAfter(priorities, r.value, x.event)
    {
      if |heap| == 0 then None
      else
        (forall i | 0 <= i < |heap| ensures AtMost(heap[0], heap[i]) { RootIsLeast(heap, i); }
         assert heap[0] in heap;
         forall x | x in heap ensures NotAfter(priorities, heap[0].event, x.event) { KeysTell(priorities, heap[0], x); }
         Some(heap[0].event))
    }

    /** Empties the queue into the sorted arrangement of everything it held. */
    method Drain() returns (result: seq<Event>, ghost order: seq<Entry>)
      requires Valid()
      modifies this
      ensures Valid() && heap == []
      ensures |result| == |order| && forall i :: 0 <= i < |order| ==> result[i] == order[i].event
      ensures multiset(order) == multiset(old(heap))
      ensures Sorted(order)
      ensures forall i, j :: 0 <= i < j < |result| ==> NotAfter(priorities, result[i], result[j])
    {
      hide Keyed, NotAfter;
      result, order := [], [];
      while |heap| > 0
        invariant Valid()
        invariant forall x :: x in order ==> Keyed(priorities, x)
        invariant |result| == |order| && forall i :: 0 <= i < |order| ==> result[i] == order[i].event
        invariant multiset(order) + multiset(heap) == multiset(old(heap))
        invariant Sorted(order)
        invariant forall x, y :: x in order && y in heap ==> AtMost(x, y)
        decreases |heap|
      {
        ghost var was := heap;
        var event, taken := Dequeue();
        forall y | y in heap ensures y in was {
          assert y in multiset(heap);
          assert y in multiset(was);
        }
        assert taken.value in multiset(was);
        if event.Some? {
          result := result + [event.value];
        }
        order := order + [taken.value];
      }
      forall i, j | 0 <= i < j < |result| ensures NotAfter(priorities, result[i], result[j]) {
        KeysTell(priorities, order[i], order[j]);
      }
    }

    method BubbleUp(start: nat)
      requires start < |heap| && RisesAt(heap, start) && AllKeyed()
      modifies this
      ensures Valid() && |heap| == |old(heap)| && multiset(heap) == multiset(old(heap))
    {
      hide Keyed;
      var idx: nat := start;
      while idx > 0
        invariant idx < |heap| == |old(heap)| && multiset(heap) == multiset(old(heap))
        invariant RisesAt(heap, idx) && AllKeyed()
      {
        var parentIdx := (idx - 1) / 2;
        if ShouldSwap(parentIdx, idx) {
          BubbleStep(heap, idx);
          heap := Swapped(heap, idx, parentIdx);
          idx := parentIdx;
        } else {
          break;
        }
      }
    }

    method SinkDown(start: nat)
      requires start < |heap| && SinksAt(heap, start) && AllKeyed()
      modifies this
      ensures Valid() && |heap| == |old(heap)| && multiset(heap) == multiset(old(heap))
    {
      hide Keyed, SinksAt, HeapOrdered;
      var idx: nat, length := start, |heap|;
      while true
        invariant idx < |heap| == |old(heap)| == length && multiset(heap) == multiset(old(heap))
        invariant SinksAt(heap, idx) && AllKeyed()
        decreases length - idx
      {
        var left, right := 2 * idx + 1, 2 * idx + 2;
        var smallest := idx;
        if left < length && ShouldSwap(smallest, left) {
          smallest := left;
        }
        if right < length && ShouldSwap(smallest, right) {
          smallest := right;
        }
        if smallest != idx {
          SinkStep(heap, idx, smallest);
          heap := Swapped(heap, idx, smallest);
          idx := smallest;
        } else {
          SinkDone(heap, idx);
          break;
        }
      }
    }

    /** True when the entry at `right` must leave before the one at `left`. */
    predicate ShouldSwap(left: nat, right: nat)
      requires left < |heap| && right < |heap|
      reads this
    {
      Before(heap[right], heap[left])
    }
  }

  /** Moving the last entry to the root leaves heap order in doubt at the root only. */
  lemma LastToRoot(h: seq<Entry>)
    requires HeapOrdered(h) && |h| >= 2
    ensures SinksAt(h[..|h| - 1][0 := h[|h| - 1]], 0)
  {
    var s := h[..|h| - 1][0 := h[|h| - 1]];
    forall i | 0 < i < |s| && Up(i) != 0 ensures AtMost(s[Up(i)], s[i]) {
      assert AtMost(h[Up(i)], h[i]);
    }
  }

  lemma BubbleStep(h: seq<Entry>, idx: nat)
    requires 0 < idx < |h| && RisesAt(h, idx) && Before(h[idx], h[Up(idx)])
    ensures RisesAt(Swapped(h, idx, Up(idx)), Up(idx))
  {
    var p, s := Up(idx), Swapped(h, idx, Up(idx));
    forall i | 0 < i < |s| && i != p ensures AtMost(s[Up(i)], s[i]) {
      assert i != idx ==> AtMost(h[Up(i)], h[i]);
    }
    if 0 < p {
      assert AtMost(h[Up(p)], h[p]);
      forall i | 0 < i < |s| && Up(i) == p ensures AtMost(s[Up(p)], s[i]) {
        assert i != idx ==> AtMost(h[Up(i)], h[i]);
      }
    }
  }

  lemma SinkStep(h: seq<Entry>, idx: nat, smallest: nat)
    requires idx < smallest < |h| && Up(smallest) == idx && SinksAt(h, idx)
    requires Before(h[smallest], h[idx])
    requires AtMost(h[smallest], h[2 * idx + 1]) && (2 * idx + 2 < |h| ==> AtMost(h[smallest], h[2 * idx + 2]))
    ensures SinksAt(Swapped(h, idx, smallest), smallest)
  {
    var s := Swapped(h, idx, smallest);
    forall i | 0 < i < |s| && Up(i) != smallest ensures AtMost(s[Up(i)], s[i]) {
      if Up(i) != idx {
        assert AtMost(h[Up(i)], h[i]);
      } else {
        assert i == 2 * idx + 1 || i == 2 * idx + 2;
      }
    }
    forall i | 0 < i < |s| && Up(i) == smallest ensures AtMost(s[idx], s[i]) {
      assert AtMost(h[Up(i)], h[i]);
    }
  }

  lemma SinkDone(h: seq<Entry>, idx: nat)
    requires idx < |h| && SinksAt(h, idx)
    requires 2 * idx + 1 < |h| ==> AtMost(h[idx], h[2 * idx + 1])
    requires 2 * idx + 2 < |h| ==> AtMost(h[idx], h[2 * idx + 2])
    ensures HeapOrdered(h)
  {
    forall i | 0 < i < |h| ensures AtMost(h[Up(i)], h[i]) {
      if Up(i) == idx {
        assert i == 2 * idx + 1 || i == 2 * idx + 2;
      }
    }
  }
}
