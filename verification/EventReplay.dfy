/**
 * Replaying a log (src/event-bus/event-replay.ts): events are sorted by sequence number, gaps
 * are reported, and playing delivers each event to the subscribers it matches.
 */
module EventReplay {
  import opened Prelude
  import Sorting

  datatype Event = Event(eventId: string, eventType: string, sequence: int)

  // ----- Sorting -----

  ghost predicate Ascending(es: seq<Event>) {
    forall i, j :: 0 <= i < j < |es| ==> es[i].sequence <= es[j].sequence
  }

  function ByNumber(): (Event, Event) -> bool { (d: Event, e: Event) => d.sequence <= e.sequence }

  /** Ascending by sequence number, equal numbers in their first order. */
  function SortBySequence(es: seq<Event>): seq<Event> {
    Sorting.Sort(es, ByNumber())
  }

  lemma SortSorts(es: seq<Event>)
    ensures Ascending(SortBySequence(es)) && |SortBySequence(es)| == |es|
  {
    SortPermutes(es);
    Sorting.SortSorts(es, ByNumber());
    var s := SortBySequence(es);
    forall i, j | 0 <= i < j < |s| ensures s[i].sequence <= s[j].sequence {
      assert ByNumber()(s[i], s[j]);
    }
  }

  lemma SortPermutes(es: seq<Event>)
    ensures multiset(SortBySequence(es)) == multiset(es) && |SortBySequence(es)| == |es|
  {
    Sorting.SortPermutes(es, ByNumber());
    assert |multiset(es)| == |es| && |multiset(SortBySequence(es))| == |SortBySequence(es)|;
  }

  // ----- Gaps -----

  predicate Occurs(es: seq<Event>, n: int) {
    exists i :: 0 <= i < |es| && es[i].sequence == n
  }

  /** A number between the first and the last of an ascending list that the list does not contain. */
  predicate Missing(es: seq<Event>, n: int)
    requires es != []
  {
    es[0].sequence <= n <= es[|es| - 1].sequence && !Occurs(es, n)
  }

  ghost predicate DistinctNumbers(es: seq<Event>) {
    forall i, j :: 0 <= i < j < |es| ==> es[i].sequence != es[j].sequence
  }

  ghost predicate AscendingRanges(rs: seq<Range>) {
    forall j, k :: 0 <= j < k < |rs| ==> rs[j].to < rs[k].from
  }

  /** The ranges cover exactly the missing numbers. */
  ghost predicate CoversMissing(es: seq<Event>, rs: seq<Range>)
    requires es != []
  {
    forall n :: InSome(rs, n) <==> Missing(es, n)
  }

  ghost predicate AllConsecutive(es: seq<Event>) {
    forall i :: 0 < i < |es| ==> Consecutive(es, i)
  }

  ghost predicate NoEmptyRange(rs: seq<Range>) {
    forall k :: 0 <= k < |rs| ==> rs[k].from <= rs[k].to
  }

  /** What the gap report of an ascending list says; an empty range betrays a repeated number. */
  ghost predicate ReportsGaps(es: seq<Event>, rs: seq<Range>)
    requires es != []
  {
    && CoversMissing(es, rs)
    && (rs == [] <==> AllConsecutive(es))
    && (NoEmptyRange(rs) <==> DistinctNumbers(es))
    && (DistinctNumbers(es) ==> AscendingRanges(rs))
  }

  predicate Consecutive(es: seq<Event>, i: nat)
    requires 0 < i < |es|
  {
    es[i].sequence == es[i - 1].sequence + 1
  }

  /** The gap the step to position i leaves. */
  function GapAt(es: seq<Event>, i: nat): seq<Range>
    requires 0 < i < |es|
  {
    if Consecutive(es, i) then [] else [Range(es[i - 1].sequence + 1, es[i].sequence - 1)]
  }

  /** One more event of an ascending list extends the report by its own gap. */
  lemma ReportGrows(es: seq<Event>, e: Event, rs: seq<Range>)
    requires es != [] && Ascending(es + [e]) && ReportsGaps(es, rs) && Bounded(es, rs)
    ensures ReportsGaps(es + [e], rs + GapAt(es + [e], |es|)) && Bounded(es + [e], rs + GapAt(es + [e], |es|))
  {
    hide CoversMissing, AllConsecutive, NoEmptyRange, DistinctNumbers, AscendingRanges, Bounded, GapAt, Ascending;
    MissingGrows(es, e, rs);
    ConsecutiveGrows(es, e, rs);
    RangesGrow(es, e, rs);
    DistinctSnoc(es, e);
  }

  lemma MissingGrows(es: seq<Event>, e: Event, rs: seq<Range>)
    requires es != [] && Ascending(es + [e]) && CoversMissing(es, rs)
    ensures CoversMissing(es + [e], rs + GapAt(es + [e], |es|))
  {
    hide Missing, InSome, GapAt, Ascending;
    forall n ensures InSome(rs + GapAt(es + [e], |es|), n) <==> Missing(es + [e], n) {
      InSomeAppend(rs, GapAt(es + [e], |es|), n);
      GapIsMissing(es, e, n);
    }
  }

  lemma ConsecutiveGrows(es: seq<Event>, e: Event, rs: seq<Range>)
    requires es != [] && (rs == [] <==> AllConsecutive(es))
    ensures rs + GapAt(es + [e], |es|) == [] <==> AllConsecutive(es + [e])
  {
    var next := es + [e];
    forall i | 0 < i < |es| ensures Consecutive(next, i) <==> Consecutive(es, i) {
    }
  }

  lemma RangesGrow(es: seq<Event>, e: Event, rs: seq<Range>)
    requires es != [] && Ascending(es + [e]) && Bounded(es, rs)
    ensures Bounded(es + [e], rs + GapAt(es + [e], |es|))
    ensures NoEmptyRange(rs + GapAt(es + [e], |es|)) <==> NoEmptyRange(rs) && es[|es| - 1].sequence < e.sequence
    ensures AscendingRanges(rs) ==> AscendingRanges(rs + GapAt(es + [e], |es|))
  {
    var next, gap := es + [e], GapAt(es + [e], |es|);
    assert next[|es| - 1].sequence <= next[|es|].sequence;
    var all := rs + gap;
    assert forall k :: 0 <= k < |rs| ==> all[k] == rs[k];
    if gap != [] {
      assert all[|rs|] == gap[0];
    }
  }

  /** No range reaches the last number of the list. */
  ghost predicate Bounded(es: seq<Event>, rs: seq<Range>)
    requires es != []
  {
    forall k :: 0 <= k < |rs| ==> rs[k].to < es[|es| - 1].sequence
  }

  /** The numbers the new event leaves out are those of its gap. */
  lemma GapIsMissing(es: seq<Event>, e: Event, n: int)
    requires es != [] && Ascending(es + [e])
    ensures Missing(es + [e], n) <==> Missing(es, n) || InSome(GapAt(es + [e], |es|), n)
  {
    var next := es + [e];
    var last := es[|es| - 1].sequence;
    assert next[|es| - 1].sequence <= next[|es|].sequence;
    assert Occurs(es, last);
    OccursSnoc(es, e, n);
    if Occurs(es, n) {
      OccursAtMostLast(es, e, n);
    }
    var gap := GapAt(next, |es|);
    assert gap != [] ==> gap[0] == Range(last + 1, e.sequence - 1);
    assert gap != [] ==> (InSome(gap, n) <==> InRange(gap[0], n));
  }

  lemma OccursAtMostLast(es: seq<Event>, e: Event, n: int)
    requires es != [] && Ascending(es + [e]) && Occurs(es, n)
    ensures n <= es[|es| - 1].sequence
  {
    var i :| 0 <= i < |es| && es[i].sequence == n;
    if i < |es| - 1 {
      assert (es + [e])[i].sequence <= (es + [e])[|es| - 1].sequence;
    }
  }

  lemma OccursSnoc(es: seq<Event>, e: Event, n: int)
    ensures Occurs(es + [e], n) <==> Occurs(es, n) || e.sequence == n
  {
    if Occurs(es, n) {
      var i :| 0 <= i < |es| && es[i].sequence == n;
      assert (es + [e])[i].sequence == n;
    }
    assert (es + [e])[|es|] == e;
  }

  lemma DistinctSnoc(es: seq<Event>, e: Event)
    requires es != [] && Ascending(es + [e])
    ensures DistinctNumbers(es + [e]) <==> DistinctNumbers(es) && es[|es| - 1].sequence < e.sequence
  {
    var next := es + [e];
    if DistinctNumbers(next) {
      assert next[|es| - 1].sequence != next[|es|].sequence;
      assert next[|es| - 1].sequence <= next[|es|].sequence;
      forall i, j | 0 <= i < j < |es| ensures es[i].sequence != es[j].sequence {
        assert next[i].sequence != next[j].sequence;
      }
    }
    if DistinctNumbers(es) && es[|es| - 1].sequence < e.sequence {
      forall i, j | 0 <= i < j < |next| ensures next[i].sequence != next[j].sequence {
        if j < |es| {
          assert es[i].sequence != es[j].sequence;
        } else {
          assert i < |es| - 1 ==> next[i].sequence <= next[|es| - 1].sequence;
        }
      }
    }
  }


  /** A replay is partial exactly when a number is missing or repeated. */
  lemma {:induction false} PartialMeans(es: seq<Event>)
    requires es != [] && Ascending(es)
    ensures AllConsecutive(es) <==> DistinctNumbers(es) && forall n :: !Missing(es, n)
  {
    var rs := Gaps(es, |es|);
    GapsReport(es, |es|);
    assert es[..|es|] == es;
    if AllConsecutive(es) {
      assert forall n :: !InSome(rs, n);
    }
    if DistinctNumbers(es) && rs != [] {
      assert InRange(rs[0], rs[0].from);
      assert InSome(rs, rs[0].from);
    }
  }

  /** The gaps among the first n events. */
  function Gaps(es: seq<Event>, n: nat): seq<Range>
    requires n <= |es|
  {
    if n <= 1 then [] else Gaps(es, n - 1) + GapAt(es, n - 1)
  }

  lemma {:induction false} GapsReport(es: seq<Event>, n: nat)
    requires 1 <= n <= |es| && Ascending(es)
    ensures ReportsGaps(es[..n], Gaps(es, n)) && Bounded(es[..n], Gaps(es, n))
  {
    hide ReportsGaps, Bounded, GapAt, Ascending;
    if n == 1 {
      OneEventHasNoGaps(es[0]);
      assert es[..1] == [es[0]];
    } else {
      GapsReport(es, n - 1);
      PrefixOfAscending(es, n);
      ReportGrows(es[..n - 1], es[n - 1], Gaps(es, n - 1));
    }
  }

  lemma PrefixOfAscending(es: seq<Event>, n: nat)
    requires 2 <= n <= |es| && Ascending(es)
    ensures es[..n] == es[..n - 1] + [es[n - 1]] && Ascending(es[..n])
    ensures GapAt(es[..n], n - 1) == GapAt(es, n - 1)
  {
  }

  lemma NoGapsMeansConsecutive(es: seq<Event>, rs: seq<Range>)
    requires es != [] && ReportsGaps(es, rs)
    ensures rs == [] <==> AllConsecutive(es)
  {
  }

  lemma OneEventHasNoGaps(e: Event)
    ensures ReportsGaps([e], []) && Bounded([e], [])
  {
    forall n ensures !Missing([e], n) {
      assert Occurs([e], [e][0].sequence);
    }
  }

  // ----- Matching and delivery -----

  /** `replace("*", "")`: the first star goes. */
  function WithoutStar(t: string): string {
    if t == "" then "" else if t[0] == '*' then t[1..] else [t[0]] + WithoutStar(t[1..])
  }

  predicate MatchesTopic(t: string, eventType: string) {
    t == "*" || t == eventType || WithoutStar(t) <= eventType
  }

  datatype Subscription = Subscription(id: string, topics: seq<string>)

  predicate Matches(s: Subscription, e: Event) {
    exists k :: 0 <= k < |s.topics| && MatchesTopic(s.topics[k], e.eventType)
  }

  /** Topics by what they match: a lone star everything, any other star just goes, and what is left is a prefix. */
  lemma TopicMatchesIff(t: string, eventType: string)
    ensures MatchesTopic("*", eventType)
    ensures '*' !in t ==> (MatchesTopic(t, eventType) <==> t <= eventType)
    ensures forall a, b :: t == a + "*" + b && '*' !in a ==>
              (MatchesTopic(t, eventType) <==> t == eventType || a + b <= eventType)
  {
    forall a, b | t == a + "*" + b && '*' !in a ensures WithoutStar(t) == a + b {
      StarGoes(a, b);
    }
    if '*' !in t {
      NoStar(t);
    }
  }

  lemma {:induction false} StarGoes(a: string, b: string)
    requires '*' !in a
    ensures WithoutStar(a + "*" + b) == a + b
  {
    if a == "" {
      assert a + "*" + b == "*" + b;
    } else {
      assert (a + "*" + b)[1..] == a[1..] + "*" + b;
      StarGoes(a[1..], b);
    }
  }

  lemma {:induction false} NoStar(t: string)
    requires '*' !in t
    ensures WithoutStar(t) == t
  {
    if t != "" {
      NoStar(t[1..]);
    }
  }

  /**
   * A subscription sees an event exactly when some topic of it matches the event's type; without
   * topics it sees none.
   */
  lemma SubscriptionMatchesIff(s: Subscription, e: Event)
    ensures Matches(s, e) <==> exists t :: t in s.topics && MatchesTopic(t, e.eventType)
    ensures s.topics == [] ==> !Matches(s, e)
  {
    if t :| t in s.topics && MatchesTopic(t, e.eventType) {
      var k :| 0 <= k < |s.topics| && s.topics[k] == t;
    }
  }

  /** A delivery names the subscriber's position and the event. */
  type Delivery = (nat, Event)

  /** One event, to the first n subscribers in turn. */
  function Deliveries(subs: seq<Subscription>, e: Event, n: nat): seq<Delivery>
    requires n <= |subs|
  {
    if n == 0 then []
    else Deliveries(subs, e, n - 1) + if Matches(subs[n - 1], e) then [(n - 1, e)] else []
  }

  /** Events in order, each to all subscribers before the next. */
  function Playback(subs: seq<Subscription>, es: seq<Event>): seq<Delivery> {
    if es == [] then [] else Playback(subs, es[..|es| - 1]) + Deliveries(subs, es[|es| - 1], |subs|)
  }

  /** What subscriber k got to see. */
  function Seen(ds: seq<Delivery>, k: nat): seq<Event> {
    if ds == [] then []
    else Seen(ds[..|ds| - 1], k) + if ds[|ds| - 1].0 == k then [ds[|ds| - 1].1] else []
  }

  function MatchedBy(s: Subscription): Event -> bool { (e: Event) => Matches(s, e) }

  lemma {:induction false} SeenAppend(a: seq<Delivery>, b: seq<Delivery>, k: nat)
    ensures Seen(a + b, k) == Seen(a, k) + Seen(b, k)
    decreases |b|
  {
    if b == [] {
      assert a + b == a;
    } else {
      var front, last := b[..|b| - 1], b[|b| - 1];
      SeenAppend(a, front, k);
      assert (a + b)[..|a + b| - 1] == a + front;
      ConcatAssociates(Seen(a, k), Seen(front, k), if last.0 == k then [last.1] else []);
    }
  }

  lemma {:induction false} OneEventSeen(subs: seq<Subscription>, e: Event, n: nat, k: nat)
    requires n <= |subs|
    ensures Seen(Deliveries(subs, e, n), k) == if k < n && Matches(subs[k], e) then [e] else []
  {
    hide Seen, Matches;
    SeenNothing(k);
    if n > 0 {
      hide Deliveries;
      OneEventSeen(subs, e, n - 1, k);
      OneMoreDelivery(subs, e, n);
      if Matches(subs[n - 1], e) {
        SeenSnoc(Deliveries(subs, e, n - 1), (n - 1, e), k);
      }
    }
  }

  lemma OneMoreDelivery(subs: seq<Subscription>, e: Event, n: nat)
    requires 1 <= n <= |subs|
    ensures Deliveries(subs, e, n)
         == if Matches(subs[n - 1], e) then Deliveries(subs, e, n - 1) + [(n - 1, e)] else Deliveries(subs, e, n - 1)
  {
    hide Matches;
  }

  lemma SeenNothing(k: nat)
    ensures Seen([], k) == []
  {
  }

  lemma SeenSnoc(ds: seq<Delivery>, d: Delivery, k: nat)
    ensures Seen(ds + [d], k) == if d.0 == k then Seen(ds, k) + [d.1] else Seen(ds, k)
  {
    assert (ds + [d])[..|ds|] == ds;
  }

  /** Playing shows each subscriber exactly the events it matches, each once, in order. */
  lemma {:induction false} EachSeesItsMatches(subs: seq<Subscription>, es: seq<Event>, k: nat)
    requires k < |subs|
    ensures Seen(Playback(subs, es), k) == Filter(es, MatchedBy(subs[k]))
    decreases |es|
  {
    if es != [] {
      var front, last := es[..|es| - 1], es[|es| - 1];
      assert es == front + [last];
      EachSeesItsMatches(subs, front, k);
      SeenAppend(Playback(subs, front), Deliveries(subs, last, |subs|), k);
      OneEventSeen(subs, last, |subs|, k);
      FilterSnoc(front, last, MatchedBy(subs[k]));
    }
  }

  lemma NothingPlayed(subs: seq<Subscription>)
    ensures Playback(subs, []) == []
  {
  }

  lemma PlaybackSnoc(subs: seq<Subscription>, es: seq<Event>, e: Event)
    ensures Playback(subs, es + [e]) == Playback(subs, es) + Deliveries(subs, e, |subs|)
  {
    assert (es + [e])[..|es|] == es;
  }

  // ----- The bus -----

  datatype ReplayState = Ready | Playing | Completed

  datatype Handle = Handle(replayId: string, totalEvents: nat, currentSequence: int, state: ReplayState,
                           isPartial: bool, gapRanges: seq<Range>)

  class ReplayBus {
    var events: seq<Event>
    var cursor: nat
    var subscribers: seq<Subscription>
    var handle: Option<Handle>
    /** The handler calls made so far. */
    var delivered: seq<Delivery>

    ghost predicate Valid()
      reads this
    {
      cursor <= |events| && Ascending(events)
    }

    constructor ()
      ensures Valid() && events == [] && subscribers == [] && handle == None && delivered == []
    {
      events, cursor, subscribers, handle, delivered := [], 0, [], None, [];
    }

    /** Sorts the events and reports their gaps; an empty log is refused. */
    method Load(input: seq<Event>, replayId: string) returns (ok: bool)
      requires Valid()
      modifies this`events, this`cursor, this`handle
      ensures Valid()
      ensures ok <==> input != []
      ensures !ok ==> events == old(events) && cursor == old(cursor) && handle == old(handle)
      ensures ok ==>
                && events == SortBySequence(input) && Ascending(events) && multiset(events) == multiset(input)
                && cursor == 0 && events != [] && handle.Some?
                && ReportsGaps(events, handle.value.gapRanges)
                && handle.value == Handle(replayId, |input|, events[0].sequence, Ready,
                                          !AllConsecutive(events), handle.value.gapRanges)
    {
      hide ReportsGaps, AllConsecutive, SortBySequence, Ascending;
      if |input| == 0 {
        return false;
      }
      var sorted := SortBySequence(input);
      SortSorts(input);
      SortPermutes(input);
      var gaps := [];
      for i := 1 to |sorted|
        invariant gaps == Gaps(sorted, i)
      {
        if sorted[i].sequence != sorted[i - 1].sequence + 1 {
          gaps := gaps + [Range(sorted[i - 1].sequence + 1, sorted[i].sequence - 1)];
        }
      }
      GapsReport(sorted, |sorted|);
      assert sorted[..|sorted|] == sorted;
      NoGapsMeansConsecutive(sorted, gaps);
      events := sorted;
      cursor := 0;
      handle := Some(Handle(replayId, |sorted|, sorted[0].sequence, Ready, |gaps| > 0, gaps));
      return true;
    }

    method Subscribe(s: Subscription)
      requires Valid()
      modifies this`subscribers
      ensures Valid() && subscribers == old(subscribers) + [s]
    {
      subscribers := subscribers + [s];
    }

    /** Delivers everything from the cursor on; without a loaded log nothing happens. */
    method Play()
      requires Valid()
      modifies this`cursor, this`handle, this`delivered
      ensures Valid()
      ensures old(handle).None? ==> handle == None && cursor == old(cursor) && delivered == old(delivered)
      ensures old(handle).Some? ==>
                && cursor == |events| && delivered == old(delivered) + Playback(subscribers, events[old(cursor)..])
                && handle.Some?
                && handle.value == old(handle).value.(state := Completed, currentSequence :=
                     if old(cursor) < |events| then events[|events| - 1].sequence
                     else old(handle).value.currentSequence)
    {
      hide Playback, Deliveries, Ascending;
      if handle.None? {
        return;
      }
      handle := Some(handle.value.(state := Playing));
      assert events[cursor..cursor] == [];
      NothingPlayed(subscribers);
      while cursor < |events|
        invariant old(cursor) <= cursor <= |events| && handle.Some?
        invariant delivered == old(delivered) + Playback(subscribers, events[old(cursor)..cursor])
        invariant handle.value == old(handle).value.(state := Playing, currentSequence :=
                    if old(cursor) < cursor then events[cursor - 1].sequence else old(handle).value.currentSequence)
      {
        var event := events[cursor];
        assert events[old(cursor)..cursor + 1] == events[old(cursor)..cursor] + [event];
        PlaybackSnoc(subscribers, events[old(cursor)..cursor], event);
        ConcatAssociates(old(delivered), Playback(subscribers, events[old(cursor)..cursor]),
                         Deliveries(subscribers, event, |subscribers|));
        DeliverToAll(event);
        handle := Some(handle.value.(currentSequence := event.sequence));
        cursor := cursor + 1;
      }
      assert events[old(cursor)..cursor] == events[old(cursor)..];
      handle := Some(handle.value.(state := Completed));
    }

    method DeliverToAll(event: Event)
      modifies this`delivered
      ensures delivered == old(delivered) + Deliveries(subscribers, event, |subscribers|)
    {
      for i := 0 to |subscribers|
        invariant delivered == old(delivered) + Deliveries(subscribers, event, i)
      {
        if |subscribers[i].topics| == 0 {
          continue;
        }
        if Matches(subscribers[i], event) {
          delivered := delivered + [(i, event)];
        }
      }
    }
  }
}
