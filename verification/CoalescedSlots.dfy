/**
 * Slots that collect elements by key, for any element and key type: which elements stand behind
 * the slots of each key, and in which order. The batcher's accounting is an instance.
 */
module CoalescedSlots {
  import opened Prelude

  function HasKey<E, K(==)>(key: E -> K, k: K): E -> bool { (e: E) => key(e) == k }

  /** The elements of key k behind a row of slots, in slot order. */
  function Behind<E(!new), K(==)>(slots: seq<seq<E>>, key: E -> K, k: K): seq<E> {
    if slots == [] then []
    else Behind(slots[..|slots| - 1], key, k) + Filter(slots[|slots| - 1], HasKey(key, k))
  }

  lemma BehindSnoc<E(!new), K>(slots: seq<seq<E>>, s: seq<E>, key: E -> K, k: K)
    ensures Behind(slots + [s], key, k) == Behind(slots, key, k) + Filter(s, HasKey(key, k))
  {
    assert (slots + [s])[..|slots|] == slots;
  }

  lemma {:induction false} BehindAppend<E(!new), K>(a: seq<seq<E>>, b: seq<seq<E>>, key: E -> K, k: K)
    ensures Behind(a + b, key, k) == Behind(a, key, k) + Behind(b, key, k)
  {
    if b == [] {
      assert a + b == a;
    } else {
      var front, last := b[..|b| - 1], b[|b| - 1];
      BehindAppend(a, front, key, k);
      assert b == front + [last];
      ConcatAssociates(a, front, [last]);
      BehindSnoc(a + front, last, key, k);
      BehindSnoc(front, last, key, k);
      ConcatAssociates(Behind(a, key, k), Behind(front, key, k), Filter(last, HasKey(key, k)));
    }
  }

  function Grown<E>(slots: seq<seq<E>>, i: nat, e: E): seq<seq<E>>
    requires i < |slots|
  {
    slots[i := slots[i] + [e]]
  }

  /** No slot after i holds an element with e's key. */
  ghost predicate LastOfKey<E, K>(slots: seq<seq<E>>, i: nat, key: E -> K, e: E) {
    i < |slots| && forall j, n :: i < j < |slots| && 0 <= n < |slots[j]| ==> key(slots[j][n]) != key(e)
  }

  /** Growing the last slot of e's key by e appends e to that key's order and to no other. */
  lemma {:induction false} BehindGrow<E(!new), K>(slots: seq<seq<E>>, i: nat, e: E, key: E -> K, k: K)
    requires LastOfKey(slots, i, key, e)
    ensures Behind(Grown(slots, i, e), key, k) == Behind(slots, key, k) + (if key(e) == k then [e] else [])
    decreases |slots|
  {
    hide Behind, Filter;
    var n := |slots| - 1;
    var front, last := slots[..n], slots[n];
    assert slots == front + [last];
    BehindSnoc(front, last, key, k);
    if i == n {
      assert Grown(slots, i, e) == front + [last + [e]];
      BehindSnoc(front, last + [e], key, k);
      FilterSnoc(last, e, HasKey(key, k));
      ConcatAssociates(Behind(front, key, k), Filter(last, HasKey(key, k)), if key(e) == k then [e] else []);
    } else {
      LastIsFree(slots, i, key, e);
      hide LastOfKey;
      assert Grown(slots, i, e) == Grown(front, i, e) + [last];
      BehindSnoc(Grown(front, i, e), last, key, k);
      BehindGrow(front, i, e, key, k);
      if key(e) == k {
        FilterNone(last, HasKey(key, k));
      }
    }
  }

  lemma LastIsFree<E, K>(slots: seq<seq<E>>, i: nat, key: E -> K, e: E)
    requires LastOfKey(slots, i, key, e) && i < |slots| - 1
    ensures forall x :: x in slots[|slots| - 1] ==> key(x) != key(e)
    ensures LastOfKey(slots[..|slots| - 1], i, key, e)
  {
  }

  // ----- Finding a slot -----

  /** The last position whose element has key k. */
  function LastWith<E, K(==)>(open: seq<E>, key: E -> K, k: K): (r: Option<nat>)
    ensures r.Some? ==> r.value < |open| && key(open[r.value]) == k
    ensures r.Some? ==> forall j :: r.value < j < |open| ==> key(open[j]) != k
    ensures r.None? ==> forall j :: 0 <= j < |open| ==> key(open[j]) != k
  {
    if open == [] then None
    else if key(open[|open| - 1]) == k then Some(|open| - 1)
    else LastWith(open[..|open| - 1], key, k)
  }

  /** The map sends the name of each coalescing key in the row to that key's one position, and holds nothing else. */
  ghost predicate Indexes<E, K>(open: seq<E>, key: E -> K, m: map<string, nat>, tag: string -> K) {
    && (forall s :: s in m ==> m[s] < |open| && key(open[m[s]]) == tag(s))
    && (forall i, s :: 0 <= i < |open| && key(open[i]) == tag(s) ==> s in m && m[s] == i)
  }

  /** With exact indexes a map lookup and a search of the row agree. */
  lemma LookupIsSearch<E, K>(open: seq<E>, key: E -> K, m: map<string, nat>, tag: string -> K, s: string)
    requires Indexes(open, key, m, tag)
    ensures LastWith(open, key, tag(s)) == if s in m then Some(m[s]) else None
  {
  }

  lemma IndexesAppendOwn<E, K>(open: seq<E>, key: E -> K, m: map<string, nat>, tag: string -> K, e: E, s: string)
    requires Indexes(open, key, m, tag) && key(e) == tag(s) && LastWith(open, key, key(e)) == None
    requires forall t :: tag(s) == tag(t) ==> s == t
    ensures Indexes(open + [e], key, m[s := |open|], tag)
  {
    LookupIsSearch(open, key, m, tag, s);
    hide LastWith, Indexes;
    var more, m' := open + [e], m[s := |open|];
    forall t | t in m' ensures m'[t] < |more| && key(more[m'[t]]) == tag(t) {
      NameStays(open, key, m, tag, e, s, t);
    }
    forall i, t | 0 <= i < |more| && key(more[i]) == tag(t) ensures t in m' && m'[t] == i {
      PositionStays(open, key, m, tag, e, s, i, t);
    }
    IndexesFrom(more, key, m', tag);
  }

  lemma IndexesFrom<E, K>(open: seq<E>, key: E -> K, m: map<string, nat>, tag: string -> K)
    requires forall s :: s in m ==> m[s] < |open| && key(open[m[s]]) == tag(s)
    requires forall i, s :: 0 <= i < |open| && key(open[i]) == tag(s) ==> s in m && m[s] == i
    ensures Indexes(open, key, m, tag)
  {
  }

  lemma IndexesNothing<E, K>(key: E -> K, tag: string -> K)
    ensures Indexes([], key, map[], tag)
  {
  }

  lemma NameStays<E, K>(open: seq<E>, key: E -> K, m: map<string, nat>, tag: string -> K, e: E, s: string, t: string)
    requires Indexes(open, key, m, tag) && key(e) == tag(s) && t in m[s := |open|]
    ensures m[s := |open|][t] < |open + [e]| && key((open + [e])[m[s := |open|][t]]) == tag(t)
  {
  }

  lemma PositionStays<E, K>(open: seq<E>, key: E -> K, m: map<string, nat>, tag: string -> K, e: E, s: string,
                            i: nat, t: string)
    requires Indexes(open, key, m, tag) && key(e) == tag(s) && s !in m && (tag(s) == tag(t) ==> s == t)
    requires i <= |open| && key((open + [e])[i]) == tag(t)
    ensures t in m[s := |open|] && m[s := |open|][t] == i
  {
    if i < |open| {
      assert key(open[i]) == tag(t);
      assert t in m && m[t] == i;
    }
  }

  lemma IndexesAppendOther<E, K>(open: seq<E>, key: E -> K, m: map<string, nat>, tag: string -> K, e: E)
    requires Indexes(open, key, m, tag) && forall s :: key(e) != tag(s)
    ensures Indexes(open + [e], key, m, tag)
  {
  }

  lemma IndexesReplace<E, K>(open: seq<E>, key: E -> K, m: map<string, nat>, tag: string -> K, i: nat, d: E)
    requires Indexes(open, key, m, tag) && i < |open| && key(d) == key(open[i])
    ensures Indexes(open[i := d], key, m, tag)
  {
  }

  // ----- Accounting over a run -----

  function Flatten<S>(bs: seq<seq<S>>): seq<S> {
    if bs == [] then [] else Flatten(bs[..|bs| - 1]) + bs[|bs| - 1]
  }

  lemma FlattenSnoc<S>(bs: seq<seq<S>>, b: seq<S>)
    ensures Flatten(bs + [b]) == Flatten(bs) + b
  {
    assert (bs + [b])[..|bs|] == bs;
  }

  /** Key by key, the elements behind the finished and the open slots are those of the history, in order. */
  ghost predicate Accounted<E(!new), K(!new)>(history: seq<E>, done: seq<seq<seq<E>>>, open: seq<seq<E>>, key: E -> K) {
    forall k :: Behind(Flatten(done) + open, key, k) == Filter(history, HasKey(key, k))
  }

  lemma {:induction false} InSlotIsBehind<E(!new), K>(slots: seq<seq<E>>, key: E -> K, i: nat, e: E)
    requires i < |slots| && e in slots[i]
    ensures e in Behind(slots, key, key(e))
  {
    var n := |slots| - 1;
    if i == n {
      FilterMembers(slots[n], HasKey(key, key(e)));
    } else {
      assert slots[..n][i] == slots[i];
      InSlotIsBehind(slots[..n], key, i, e);
    }
  }

  /** What is behind a slot was pushed. */
  lemma BehindIsPushed<E(!new), K(!new)>(history: seq<E>, slots: seq<seq<E>>, key: E -> K, i: nat, e: E)
    requires forall k :: Behind(slots, key, k) == Filter(history, HasKey(key, k))
    requires i < |slots| && e in slots[i]
    ensures e in history
  {
    InSlotIsBehind(slots, key, i, e);
    FilterMembers(history, HasKey(key, key(e)));
  }

  lemma AccountNothing<E(!new), K(!new)>(key: E -> K)
    ensures Accounted([], [], [], key)
  {
    hide Filter;
    var none: seq<seq<E>> := [];
    assert Flatten<seq<E>>([]) + none == none;
    forall k ensures Behind(none, key, k) == Filter([], HasKey(key, k)) {
      FilterNone<E>([], HasKey(key, k));
    }
  }

  lemma AccountNew<E(!new), K(!new)>(history: seq<E>, done: seq<seq<seq<E>>>, open: seq<seq<E>>, key: E -> K, e: E)
    requires Accounted(history, done, open, key)
    ensures Accounted(history + [e], done, open + [[e]], key)
  {
    var all := Flatten(done) + open;
    assert Flatten(done) + (open + [[e]]) == all + [[e]];
    forall k ensures Behind(all + [[e]], key, k) == Filter(history + [e], HasKey(key, k)) {
      FilterSnoc(history, e, HasKey(key, k));
      BehindSnoc(all, [e], key, k);
      FilterSnoc([], e, HasKey(key, k));
      assert [] + [e] == [e];
    }
  }

  lemma AccountMerge<E(!new), K(!new)>(history: seq<E>, done: seq<seq<seq<E>>>, open: seq<seq<E>>, key: E -> K,
                       i: nat, e: E)
    requires Accounted(history, done, open, key) && LastOfKey(open, i, key, e)
    ensures Accounted(history + [e], done, Grown(open, i, e), key)
  {
    var front, grown := Flatten(done), Grown(open, i, e);
    forall k ensures Behind(front + grown, key, k) == Filter(history + [e], HasKey(key, k)) {
      assert Behind(front + open, key, k) == Filter(history, HasKey(key, k));
      FilterSnoc(history, e, HasKey(key, k));
      BehindAppend(front, open, key, k);
      BehindAppend(front, grown, key, k);
      BehindGrow(open, i, e, key, k);
    }
  }

  lemma AccountFlush<E(!new), K(!new)>(history: seq<E>, done: seq<seq<seq<E>>>, open: seq<seq<E>>, key: E -> K)
    requires Accounted(history, done, open, key)
    ensures Accounted(history, done + [open], [], key)
  {
    FlattenSnoc(done, open);
    assert Flatten(done + [open]) + [] == Flatten(done) + open;
  }
}
