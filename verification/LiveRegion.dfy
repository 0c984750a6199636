/**
 * The announcement coalescer (src/a11y/live-region.tsx): announcements buffer up, a timer flushes
 * them as one, and a rolling one-second window caps how many flushes are spoken. The clock is an
 * input that never runs backwards.
 */
module LiveRegion {
  import opened Prelude

  datatype Politeness = Polite | Assertive | Off

  /** `signal` is the politeness of the worker state, for the announcements that carry one. */
  datatype Announcement = Announcement(text: string, politeness: Politeness, signal: Option<Politeness>)

  /** One spoken line: the announcements it folds together and the count in its "more updates" tail. */
  datatype Emit = Emit(at: real, items: seq<Announcement>, tail: nat, politeness: Politeness)

  const RATE_WINDOW_MS: real := 1000.0

  // ----- Politeness of a batch -----

  function Effective(a: Announcement): Politeness {
    if a.signal.Some? then a.signal.value else a.politeness
  }

  /** What decides a batch: any assertive member, and otherwise its last member. */
  function Ruling(batch: seq<Announcement>): Politeness {
    if exists a :: a in batch && Effective(a) == Assertive then Assertive
    else if batch == [] then Polite
    else Effective(batch[|batch| - 1])
  }

  /** An announcement speaks with its worker state's politeness if it carries a state, else with its own. */
  ghost predicate Speaks(a: Announcement, p: Politeness) {
    a.signal == Some(p) || (a.signal == None && a.politeness == p)
  }

  lemma SpeaksOne(a: Announcement)
    ensures forall p :: Speaks(a, p) <==> p == Effective(a)
  {
  }

  method BatchPoliteness(batch: seq<Announcement>) returns (result: Politeness)
    ensures result == Ruling(batch)
    ensures result == Assertive <==> exists i :: 0 <= i < |batch| && Speaks(batch[i], Assertive)
    ensures batch == [] ==> result == Polite
    ensures batch != [] && result != Assertive ==> Speaks(batch[|batch| - 1], result)
  {
    forall a: Announcement ensures forall p :: Speaks(a, p) <==> p == Effective(a) {
      SpeaksOne(a);
    }
    result := Polite;
    for i := 0 to |batch|
      invariant result != Assertive
      invariant forall j :: 0 <= j < i ==> Effective(batch[j]) != Assertive
      invariant result == if i == 0 then Polite else Effective(batch[i - 1])
    {
      var p := Effective(batch[i]);
      if p == Assertive {
        return Assertive;
      }
      if p == Off && result == Polite {
        result := Off;
      }
      if p == Polite {
        result := Polite;
      }
    }
  }

  /** Without an assertive member the order decides: the same two announcements rule differently when swapped. */
  lemma RulingDependsOnOrder(a: Announcement, b: Announcement)
    requires Effective(a) == Polite && Effective(b) == Off
    ensures Ruling([a, b]) == Off && Ruling([b, a]) == Polite
  {
    forall c | c in [a, b] || c in [b, a] ensures Effective(c) != Assertive {
      assert c == a || c == b;
    }
  }

  ghost predicate Has(batch: seq<Announcement>, p: Politeness) {
    exists i :: 0 <= i < |batch| && Effective(batch[i]) == p
  }

  /**
   * Exactly when the order of a batch is irrelevant: some member is assertive, or polite and off
   * members do not meet.
   */
  lemma OrderIrrelevantIff(batch: seq<Announcement>)
    ensures (forall o: seq<Announcement> :: multiset(o) == multiset(batch) ==> Ruling(o) == Ruling(batch))
       <==> Has(batch, Assertive) || !Has(batch, Polite) || !Has(batch, Off)
  {
    if Has(batch, Assertive) || !Has(batch, Polite) || !Has(batch, Off) {
      forall o: seq<Announcement> | multiset(o) == multiset(batch) ensures Ruling(o) == Ruling(batch) {
        assert |o| == |multiset(o)| == |multiset(batch)| == |batch|;
        SameMembers(o, batch);
        SameMembers(batch, o);
      }
    } else {
      var i :| 0 <= i < |batch| && Effective(batch[i]) == Polite;
      var j :| 0 <= j < |batch| && Effective(batch[j]) == Off;
      LastRules(batch, i);
      LastRules(batch, j);
    }
  }

  lemma SameMembers(o: seq<Announcement>, batch: seq<Announcement>)
    requires multiset(o) == multiset(batch)
    ensures forall p :: Has(o, p) ==> Has(batch, p)
  {
    forall p | Has(o, p) ensures Has(batch, p) {
      var i :| 0 <= i < |o| && Effective(o[i]) == p;
      assert o[i] in multiset(o);
      assert o[i] in multiset(batch);
      var j :| 0 <= j < |batch| && batch[j] == o[i];
    }
  }

  function MovedLast(batch: seq<Announcement>, i: nat): seq<Announcement>
    requires i < |batch|
  {
    batch[..i] + batch[i + 1..] + [batch[i]]
  }

  /** Without an assertive member, whoever is moved to the end rules. */
  lemma LastRules(batch: seq<Announcement>, i: nat)
    requires i < |batch| && !Has(batch, Assertive)
    ensures multiset(MovedLast(batch, i)) == multiset(batch)
    ensures Ruling(MovedLast(batch, i)) == Effective(batch[i])
  {
    assert batch == batch[..i] + [batch[i]] + batch[i + 1..];
    SameMembers(MovedLast(batch, i), batch);
    forall a | a in MovedLast(batch, i) ensures Effective(a) != Assertive {
      var k :| 0 <= k < |MovedLast(batch, i)| && MovedLast(batch, i)[k] == a;
      assert Has(MovedLast(batch, i), Effective(a));
    }
  }

  // ----- The rate cap -----

  ghost predicate Ordered(ts: seq<real>) {
    forall i, j :: 0 <= i < j < |ts| ==> ts[i] <= ts[j]
  }

  /** Times max places apart are at least a window apart. */
  ghost predicate Spaced(ts: seq<real>, max: int) {
    forall i, j :: 0 <= i < j < |ts| && j - i >= max ==> ts[j] - ts[i] >= RATE_WINDOW_MS
  }

  function Recent(now: real): real -> bool { (ts: real) => now - ts < RATE_WINDOW_MS }

  function Within(start: real): real -> bool { (ts: real) => start <= ts < start + RATE_WINDOW_MS }

  lemma {:induction false} FilterIndex(ts: seq<real>, p: real -> bool, j: nat) returns (k: nat)
    requires j < |Filter(ts, p)|
    ensures j <= k < |ts| && ts[k] == Filter(ts, p)[j] && p(ts[k])
  {
    if p(ts[0]) && j == 0 {
      return 0;
    }
    var k' := FilterIndex(ts[1..], p, if p(ts[0]) then j - 1 else j);
    return k' + 1;
  }

  /** Two kept elements were at least as far apart before filtering. */
  lemma {:induction false} FilterPair(ts: seq<real>, p: real -> bool, i: nat, j: nat) returns (a: nat, b: nat)
    requires i < j < |Filter(ts, p)|
    ensures a < b < |ts| && b - a >= j - i
    ensures ts[a] == Filter(ts, p)[i] && ts[b] == Filter(ts, p)[j] && p(ts[a]) && p(ts[b])
  {
    if p(ts[0]) && i == 0 {
      var k := FilterIndex(ts[1..], p, j - 1);
      return 0, k + 1;
    }
    var d := if p(ts[0]) then 1 else 0;
    a, b := FilterPair(ts[1..], p, i - d, j - d);
    return a + 1, b + 1;
  }

  /** Spaced emissions put at most `max` of them into any window, wherever it starts. */
  lemma AnyWindowHoldsAtMost(ts: seq<real>, max: int, start: real)
    requires Spaced(ts, max) && (max <= 0 ==> ts == [])
    ensures |Filter(ts, Within(start))| <= Max(0, max)
  {
    if max >= 1 && |Filter(ts, Within(start))| > max {
      ghost var a, b := FilterPair(ts, Within(start), 0, max);
      assert false;
    }
  }

  /** Dropping the stale times of an ordered list keeps a suffix of it. */
  lemma {:induction false} RecentIsSuffix(ts: seq<real>, now: real)
    requires Ordered(ts)
    ensures Filter(ts, Recent(now)) == LastN(ts, |Filter(ts, Recent(now))|)
    ensures forall i :: 0 <= i < |ts| - |Filter(ts, Recent(now))| ==> now - ts[i] >= RATE_WINDOW_MS
  {
    if ts != [] {
      if Recent(now)(ts[0]) {
        forall t | t in ts ensures Recent(now)(t) {
          var i :| 0 <= i < |ts| && ts[i] == t;
          assert i > 0 ==> ts[0] <= ts[i];
        }
        FilterAll(ts, Recent(now));
      } else {
        RecentIsSuffix(ts[1..], now);
        var f := Filter(ts[1..], Recent(now));
        forall i | 0 <= i < |ts| - |f| ensures now - ts[i] >= RATE_WINDOW_MS {
          assert i > 0 ==> ts[i] == ts[1..][i - 1];
        }
      }
    }
  }

  /** `recent` remembers the end of `all`, and what it forgot is a window old. */
  ghost predicate Remembers(all: seq<real>, recent: seq<real>, clock: real) {
    && |recent| <= |all| && recent == all[|all| - |recent|..]
    && (forall i :: 0 <= i < |all| ==> all[i] <= clock)
    && (forall i :: 0 <= i < |all| - |recent| ==> clock - all[i] >= RATE_WINDOW_MS)
  }

  ghost predicate Capped(all: seq<real>, recent: seq<real>, clock: real, max: int) {
    Ordered(all) && Spaced(all, max) && Remembers(all, recent, clock) && (max <= 0 ==> all == [])
  }

  lemma TickKeepsCap(all: seq<real>, recent: seq<real>, clock: real, max: int, now: real)
    requires Capped(all, recent, clock, max) && clock <= now
    ensures Capped(all, Filter(recent, Recent(now)), now, max)
  {
    RecentIsSuffix(recent, now);
    var f := Filter(recent, Recent(now));
    forall i | 0 <= i < |all| - |f| ensures now - all[i] >= RATE_WINDOW_MS {
      if i >= |all| - |recent| {
        assert all[i] == recent[i - (|all| - |recent|)];
      }
    }
  }

  lemma EmitKeepsCap(all: seq<real>, recent: seq<real>, max: int, now: real)
    requires Capped(all, recent, now, max) && |recent| < max
    ensures Capped(all + [now], recent + [now], now, max)
  {
  }

  // ----- Conservation -----

  /** How many lines were spoken less than `span` before now. */
  function SpokenWithin(es: seq<Emit>, now: real, span: real): nat {
    if es == [] then 0 else SpokenWithin(es[..|es| - 1], now, span) + if now - es[|es| - 1].at < span then 1 else 0
  }

  lemma {:induction false} SpokenIsFilter(es: seq<Emit>, now: real)
    ensures SpokenWithin(es, now, 1000.0) == |Filter(Times(es), Recent(now))|
  {
    if es != [] {
      var front, last := es[..|es| - 1], es[|es| - 1];
      assert es == front + [last];
      SpokenIsFilter(front, now);
      ReportedSnoc(front, last);
      FilterSnoc(Times(front), last.at, Recent(now));
    }
  }

  /** The remembered times are all that matter: what was forgotten is too old to count. */
  lemma SpokenAreRemembered(es: seq<Emit>, recent: seq<real>, clock: real, max: int, now: real)
    requires Capped(Times(es), recent, clock, max) && clock <= now
    ensures SpokenWithin(es, now, 1000.0) == |Filter(recent, Recent(now))|
  {
    var all := Times(es);
    var n := |all| - |recent|;
    SpokenIsFilter(es, now);
    assert all == all[..n] + recent;
    FilterAppend(all[..n], recent, Recent(now));
    forall t | t in all[..n] ensures !Recent(now)(t) {
      var i :| 0 <= i < n && all[i] == t;
    }
    FilterNone(all[..n], Recent(now));
  }

  function Times(es: seq<Emit>): (r: seq<real>)
    ensures |r| == |es| && forall i :: 0 <= i < |es| ==> r[i] == es[i].at
  {
    seq(|es|, i requires 0 <= i < |es| => es[i].at)
  }

  /** The announcements spoken and the suppressed ones reported. */
  function Reported(es: seq<Emit>): nat {
    if es == [] then 0
    else Reported(es[..|es| - 1]) + |es[|es| - 1].items| + es[|es| - 1].tail
  }

  lemma ReportedSnoc(es: seq<Emit>, e: Emit)
    ensures Reported(es + [e]) == Reported(es) + |e.items| + e.tail
    ensures Times(es + [e]) == Times(es) + [e.at]
  {
    assert (es + [e])[..|es|] == es;
  }

  // ----- The object -----

  class AnnouncementCoalescer {
    const maxPerSec: int
    var buffer: seq<Announcement>
    var timerArmed: bool
    var flushTimes: seq<real>
    var dropped: nat
    /** The lines handed to the emit callback so far. */
    var emits: seq<Emit>

    ghost var clock: real
    ghost var enqueued: nat
    ghost var callbacks: nat

    ghost predicate Valid()
      reads this
    {
      && Capped(Times(emits), flushTimes, clock, maxPerSec)
      && enqueued == Reported(emits) + dropped + |buffer|
      && (buffer != [] ==> timerArmed)
      && (timerArmed ==> callbacks >= 1)
    }

    constructor (maxPerSec: int, now: real)
      ensures Valid() && buffer == [] && emits == [] && enqueued == 0 && dropped == 0 && clock == now
      ensures this.maxPerSec == maxPerSec
    {
      this.maxPerSec, buffer, timerArmed, flushTimes, dropped, emits := maxPerSec, [], false, [], 0, [];
      clock, enqueued, callbacks := now, 0, 0;
    }

    method Enqueue(a: Announcement)
      requires Valid()
      modifies this`buffer, this`enqueued, this`timerArmed, this`callbacks
      ensures Valid() && buffer == old(buffer) + [a] && enqueued == old(enqueued) + 1
      ensures timerArmed && emits == old(emits) && dropped == old(dropped) && clock == old(clock)
      ensures callbacks == old(callbacks) + if old(timerArmed) then 0 else 1
    {
      hide Capped, Times, Reported;
      buffer := buffer + [a];
      enqueued := enqueued + 1;
      if !timerArmed {
        timerArmed := true;
        callbacks := callbacks + 1;
      }
    }

    /**
     * What a flush did: nothing to an empty buffer; else one more line, or none when the cap was
     * already spoken less than a second before.
     */
    twostate predicate Flushed(now: real)
      reads this
    {
      && buffer == [] && enqueued == old(enqueued)
      && if old(buffer) == [] then
           emits == old(emits) && dropped == old(dropped) && flushTimes == old(flushTimes) && clock == old(clock)
         else
           var recent := Filter(old(flushTimes), Recent(now));
           && clock == now
           && if SpokenWithin(old(emits), now, 1000.0) >= maxPerSec then
                emits == old(emits) && dropped == old(dropped) + |old(buffer)| && flushTimes == recent
              else
                && emits == old(emits) + [Emit(now, old(buffer), old(dropped), Ruling(old(buffer)))]
                && dropped == 0 && flushTimes == recent + [now]
    }

    /** Speaks the buffer as one line, or suppresses it when the window is full. */
    method Flush(now: real)
      requires Valid() && clock <= now
      modifies this
      ensures Valid() && Flushed(now) && !timerArmed && callbacks == old(callbacks)
      ensures emits != old(emits) ==>
                && |emits| == |old(emits)| + 1 && old(emits) <= emits
                && emits[|emits| - 1] == Emit(now, old(buffer), old(dropped), Ruling(old(buffer)))
    {
      hide Capped, Ruling, Reported, Times, Filter, SpokenWithin, Speaks;
      SpokenAreRemembered(emits, flushTimes, clock, maxPerSec, now);
      timerArmed := false;
      var batch := buffer;
      if |batch| == 0 {
        return;
      }
      TickKeepsCap(Times(emits), flushTimes, clock, maxPerSec, now);
      buffer := [];
      clock := now;
      flushTimes := Filter(flushTimes, Recent(now));
      if |flushTimes| >= maxPerSec {
        dropped := dropped + |batch|;
        return;
      }
      EmitKeepsCap(Times(emits), flushTimes, maxPerSec, now);
      flushTimes := flushTimes + [now];
      var politeness := BatchPoliteness(batch);
      var line := Emit(now, batch, dropped, politeness);
      ReportedSnoc(emits, line);
      if dropped > 0 {
        dropped := 0;
      }
      emits := emits + [line];
    }

    /** A scheduled callback fires; one left over from before a drain finds nothing to do or flushes early. */
    method OnTimer(now: real)
      requires Valid() && clock <= now && callbacks >= 1
      modifies this
      ensures Valid() && Flushed(now) && !timerArmed && callbacks == old(callbacks) - 1
      ensures old(emits) <= emits
    {
      hide Capped, Ruling, Reported, Times, Filter, SpokenWithin;
      Flush(now);
      callbacks := callbacks - 1;
    }

    /** Flushes a non-empty buffer; a timer that is armed without one stays armed. */
    method Drain(now: real)
      requires Valid() && clock <= now
      modifies this
      ensures Valid() && Flushed(now) && callbacks == old(callbacks)
      ensures timerArmed == (old(buffer) == [] && old(timerArmed))
      ensures old(emits) <= emits
    {
      hide Capped, Ruling, Reported, Times, Filter, SpokenWithin;
      if |buffer| > 0 {
        Flush(now);
      }
    }

    /** At every moment, whatever window one looks at held at most `maxPerSec` spoken lines. */
    lemma NoWindowOverflows(start: real)
      requires Valid()
      ensures |Filter(Times(emits), Within(start))| <= Max(0, maxPerSec)
    {
      AnyWindowHoldsAtMost(Times(emits), maxPerSec, start);
    }
  }
}
