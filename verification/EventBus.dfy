/**
 * The event bus core (src/event-bus/event-bus.ts): sequence numbers, the buffered replay log, and
 * delivery with per-subscriber panic counting and quarantine.
 *
 * Publishes run one after another and handlers do not call back into the bus. What the outside
 * decides (whether a write succeeds, how a handler ends) is a parameter of the call.
 */
module EventBus {
  import opened Prelude

  datatype BusState = Uninitialized | Ready | Running | Degraded | Draining | Stopped | Failed {
    predicate Accepts() {
      Ready? || Running? || Degraded?
    }
  }

  datatype Event = Event(eventId: string, eventType: string, replayGrade: bool, payloadSize: nat, sequence: nat)

  datatype Kind = Core | Ui | Plugin

  datatype SubState = Active | Quarantined

  /** How a handler ends: its promise is fulfilled, its promise is rejected, or it throws before returning one. */
  datatype HandlerEnd = Fulfilled | Rejected | Threw

  /**
   * A plugin's rejected promise is swallowed, so only a synchronous throw counts against it; a core
   * handler is awaited.
   */
  predicate Panics(kind: Kind, end: HandlerEnd) {
    match kind
    case Core => end != Fulfilled
    case Plugin => end == Threw
    case Ui => false
  }

  lemma PanicsWhen(kind: Kind, end: HandlerEnd)
    ensures kind == Core ==> (Panics(kind, end) <==> end != Fulfilled)
    ensures kind == Plugin ==> (Panics(kind, end) <==> end == Threw)
  {
  }

  /** For each end of a subscriber's handler, whether it panicked. */
  function Bad(kind: Kind, ends: seq<HandlerEnd>): (r: seq<bool>)
    ensures |r| == |ends| && forall i :: 0 <= i < |ends| ==> r[i] == Panics(kind, ends[i])
  {
    seq(|ends|, i requires 0 <= i < |ends| => Panics(kind, ends[i]))
  }

  lemma BadSnoc(kind: Kind, ends: seq<HandlerEnd>, end: HandlerEnd)
    ensures Bad(kind, ends + [end]) == Bad(kind, ends) + [Panics(kind, end)]
  {
    hide Panics;
  }

  lemma {:induction false} DeliveredByEnds(kind: Kind, ends: seq<HandlerEnd>)
    ensures kind == Core ==> Successes(Bad(kind, ends)) == multiset(ends)[Fulfilled]
    ensures kind == Plugin ==> Successes(Bad(kind, ends)) == multiset(ends)[Fulfilled] + multiset(ends)[Rejected]
  {
    if ends != [] {
      var front, last := ends[..|ends| - 1], ends[|ends| - 1];
      assert ends == front + [last];
      DeliveredByEnds(kind, front);
      BadSnoc(kind, front, last);
      HistorySnoc(Bad(kind, front), Panics(kind, last));
      PanicsWhen(kind, last);
    }
  }

  // ----- Runs of panics -----

  /** The number of panics at the end of a delivery history. */
  function TrailingPanics(h: seq<bool>): nat {
    if h == [] || !h[|h| - 1] then 0 else TrailingPanics(h[..|h| - 1]) + 1
  }

  function Successes(h: seq<bool>): nat {
    if h == [] then 0 else Successes(h[..|h| - 1]) + if h[|h| - 1] then 0 else 1
  }

  /** The threshold as it takes effect: even a threshold below one needs a panic to be noticed. */
  function Threshold(max: int): nat {
    Max(1, max)
  }

  lemma HistorySnoc(h: seq<bool>, b: bool)
    ensures TrailingPanics(h + [b]) == if b then TrailingPanics(h) + 1 else 0
    ensures Successes(h + [b]) == Successes(h) + if b then 0 else 1
  {
    assert (h + [b])[..|h|] == h;
  }

  /** The last k deliveries all panicked exactly when the trailing run is at least k long. */
  lemma {:induction false} TrailingMeans(h: seq<bool>, k: nat)
    requires k <= |h|
    ensures TrailingPanics(h) >= k <==> forall i :: |h| - k <= i < |h| ==> h[i]
  {
    if k > 0 && h[|h| - 1] {
      var front := h[..|h| - 1];
      TrailingMeans(front, k - 1);
      assert forall i :: 0 <= i < |front| ==> front[i] == h[i];
    }
  }

  /** The last three log writes all failed. */
  predicate LastThreeFailed(writes: seq<bool>) {
    |writes| >= 3 && writes[|writes| - 1] && writes[|writes| - 2] && writes[|writes| - 3]
  }

  lemma LastThree(writes: seq<bool>)
    ensures TrailingPanics(writes) >= 3 <==> LastThreeFailed(writes)
  {
    TrailingBound(writes);
    if |writes| >= 3 {
      TrailingMeans(writes, 3);
    }
  }

  ghost predicate AllPanicked(h: seq<bool>, from: int, to: int) {
    0 <= from <= to <= |h| && forall i :: from <= i < to ==> h[i]
  }

  /** Somewhere in the history `max` deliveries in a row panicked. */
  ghost predicate HadRun(h: seq<bool>, max: nat) {
    exists m, n :: n - m == max && AllPanicked(h, m, n)
  }

  /** No proper prefix of the history had reached the threshold: deliveries stop where it is reached. */
  ghost predicate StoppedInTime(h: seq<bool>, max: nat) {
    forall n :: 0 <= n < |h| ==> TrailingPanics(h[..n]) < max
  }

  lemma StaysStoppedInTime(h: seq<bool>, b: bool, max: nat)
    requires StoppedInTime(h, max) && TrailingPanics(h) < max
    ensures StoppedInTime(h + [b], max)
  {
    var g := h + [b];
    forall n | 0 <= n < |g| ensures TrailingPanics(g[..n]) < max {
      assert g[..n] == h[..n];
      assert h[..|h|] == h;
    }
  }

  /** For a history that stops in time, the final streak tells whether any run ever reached the threshold. */
  lemma RunReachedIffTrailing(h: seq<bool>, max: nat)
    requires max >= 1 && StoppedInTime(h, max)
    ensures HadRun(h, max) <==> TrailingPanics(h) >= max
  {
    TrailingBound(h);
    if TrailingPanics(h) >= max {
      TrailingMeans(h, max);
      assert AllPanicked(h, |h| - max, |h|);
    }
    if HadRun(h, max) {
      var m, n :| n - m == max && AllPanicked(h, m, n);
      assert forall i :: m <= i < n ==> h[..n][i];
      TrailingMeans(h[..n], max);
      assert h[..|h|] == h;
    }
  }

  lemma {:induction false} TrailingBound(h: seq<bool>)
    ensures TrailingPanics(h) <= |h|
  {
    if h != [] {
      TrailingBound(h[..|h| - 1]);
    }
  }

  // ----- One subscriber -----

  class SubscriptionEntry {
    const id: nat
    const kind: Kind
    const owner: string
    const matches: Event -> bool
    var deliveredCount: nat
    var droppedCount: nat
    var lastDeliveredSequence: nat
    var state: SubState
    var consecutivePanics: nat
    var consecutiveAbandoned: nat
    /** How the handler ended on each delivery so far, and the sequence numbers of those that count as delivered. */
    ghost var history: seq<HandlerEnd>
    ghost var received: seq<nat>

    ghost predicate Valid(max: int)
      reads this
    {
      && consecutivePanics == TrailingPanics(Bad(kind, history))
      && (state == Quarantined <==> consecutivePanics >= Threshold(max))
      && StoppedInTime(Bad(kind, history), Threshold(max))
      && deliveredCount == Successes(Bad(kind, history)) == |received|
      && lastDeliveredSequence == (if received == [] then 0 else received[|received| - 1])
      && (kind == Plugin ==> consecutiveAbandoned == consecutivePanics)
      && (kind == Plugin ==> droppedCount == |history| - Successes(Bad(kind, history)))
      && (kind != Plugin ==> consecutiveAbandoned == 0 && droppedCount == 0)
    }

    constructor (id: nat, kind: Kind, owner: string, matches: Event -> bool, max: int)
      ensures Valid(max) && history == [] && state == Active
      ensures this.id == id && this.kind == kind && this.owner == owner && this.matches == matches
    {
      this.id, this.kind, this.owner, this.matches := id, kind, owner, matches;
      deliveredCount, droppedCount, lastDeliveredSequence, state := 0, 0, 0, Active;
      consecutivePanics, consecutiveAbandoned, history, received := 0, 0, [], [];
    }

    /**
     * One delivery to a core or plugin subscriber that is not quarantined. A core handler counts
     * as delivered when its promise is fulfilled, a plugin handler when it returns one at all.
     */
    method Deliver(event: Event, end: HandlerEnd, max: int)
      requires Valid(max) && kind != Ui && state != Quarantined
      modifies this
      ensures Valid(max) && history == old(history) + [end]
      ensures (kind == Core && end == Fulfilled) || (kind == Plugin && end != Threw) ==>
                && consecutivePanics == 0 && state == Active && received == old(received) + [event.sequence]
                && deliveredCount == old(deliveredCount) + 1 && lastDeliveredSequence == event.sequence
                && droppedCount == old(droppedCount)
      ensures (kind == Core && end != Fulfilled) || (kind == Plugin && end == Threw) ==>
                && consecutivePanics == old(consecutivePanics) + 1 && received == old(received)
                && (state == Quarantined <==> consecutivePanics >= max)
                && deliveredCount == old(deliveredCount) && lastDeliveredSequence == old(lastDeliveredSequence)
                && droppedCount == old(droppedCount) + if kind == Plugin then 1 else 0
    {
      hide TrailingPanics, Successes, StoppedInTime, Panics;
      ghost var bad := Bad(kind, history);
      PanicsWhen(kind, end);
      BadSnoc(kind, history, end);
      HistorySnoc(bad, Panics(kind, end));
      StaysStoppedInTime(bad, Panics(kind, end), Threshold(max));
      history := history + [end];
      if Panics(kind, end) {
        consecutivePanics := consecutivePanics + 1;
        if kind == Plugin {
          consecutiveAbandoned := consecutiveAbandoned + 1;
          droppedCount := droppedCount + 1;
        }
        if consecutivePanics >= max {
          state := Quarantined;
        }
      } else {
        received := received + [event.sequence];
        deliveredCount := deliveredCount + 1;
        lastDeliveredSequence := event.sequence;
        consecutivePanics := 0;
        if kind == Plugin {
          consecutiveAbandoned := 0;
        }
      }
    }

    /** Quarantine is reached exactly when some run of panics was long enough. */
    lemma QuarantineMeansRun(max: int)
      requires Valid(max)
      ensures state == Quarantined <==> HadRun(Bad(kind, history), Threshold(max))
    {
      RunReachedIffTrailing(Bad(kind, history), Threshold(max));
    }

    /**
     * Told by the handler's ends. A core subscriber panics when its promise is not fulfilled, a
     * plugin only when it throws: the counter is the length of the last unbroken stretch of such
     * ends, quarantine holds exactly when some stretch was as long as the threshold, and every
     * other end counts as a delivery.
     */
    lemma CountersByEnds(max: int)
      requires Valid(max) && kind != Ui
      ensures consecutivePanics <= |history| && Unbroken(kind, history, |history| - consecutivePanics, |history|)
      ensures consecutivePanics < |history| ==>
                !Unbroken(kind, history, |history| - consecutivePanics - 1, |history|)
      ensures state == Quarantined <==> exists m, n :: n - m == Max(1, max) && Unbroken(kind, history, m, n)
      ensures kind == Core ==> deliveredCount == multiset(history)[Fulfilled]
      ensures kind == Plugin ==> deliveredCount == multiset(history)[Fulfilled] + multiset(history)[Rejected]
    {
      hide TrailingPanics, Successes, StoppedInTime, Unbroken, Bad, HadRun;
      var bad := Bad(kind, history);
      UnbrokenPanics(kind, history);
      TrailingBound(bad);
      TrailingMeans(bad, consecutivePanics);
      if consecutivePanics < |history| {
        TrailingMeans(bad, consecutivePanics + 1);
      }
      QuarantineMeansRun(max);
      HadUnbroken(kind, history, Max(1, max));
      DeliveredByEnds(kind, history);
    }
  }

  /** From m to n the handler never did what counts as a delivery. */
  ghost predicate Unbroken(kind: Kind, ends: seq<HandlerEnd>, m: int, n: int) {
    0 <= m <= n <= |ends| && forall i :: m <= i < n ==>
      (kind == Core && ends[i] != Fulfilled) || (kind == Plugin && ends[i] == Threw)
  }

  lemma UnbrokenPanics(kind: Kind, ends: seq<HandlerEnd>)
    requires kind != Ui
    ensures forall m, n :: Unbroken(kind, ends, m, n) <==> AllPanicked(Bad(kind, ends), m, n)
  {
    forall i | 0 <= i < |ends|
      ensures Bad(kind, ends)[i] <==> (kind == Core && ends[i] != Fulfilled) || (kind == Plugin && ends[i] == Threw)
    {
      PanicsWhen(kind, ends[i]);
    }
  }

  lemma HadUnbroken(kind: Kind, ends: seq<HandlerEnd>, k: nat)
    requires kind != Ui
    ensures HadRun(Bad(kind, ends), k) <==> exists m, n :: n - m == k && Unbroken(kind, ends, m, n)
  {
    hide Unbroken, AllPanicked, Bad;
    UnbrokenPanics(kind, ends);
    if m, n :| n - m == k && Unbroken(kind, ends, m, n) {
      assert AllPanicked(Bad(kind, ends), m, n);
    }
    if m, n :| n - m == k && AllPanicked(Bad(kind, ends), m, n) {
      assert Unbroken(kind, ends, m, n);
    }
  }

  // ----- The log -----

  const FLUSH_THRESHOLD := 50

  ghost predicate Increasing(es: seq<Event>, upTo: nat) {
    && (forall i, j :: 0 <= i < j < |es| ==> es[i].sequence < es[j].sequence)
    && (forall i :: 0 <= i < |es| ==> 1 <= es[i].sequence <= upTo)
  }

  datatype PublishError = BusNotRunning(state: BusState) | PayloadTooLarge(size: nat) | LogWriteFailed

  datatype PublishResult = Published(sequence: nat) | Refused(error: PublishError)

  /** The subscribers of one kind among the matched ones, in subscription order. */
  function Picked(subs: seq<SubscriptionEntry>, matched: seq<bool>, kind: Kind): seq<nat>
    requires |matched| == |subs|
  {
    if subs == [] then []
    else
      var n := |subs| - 1;
      Picked(subs[..n], matched[..n], kind) + if matched[n] && subs[n].kind == kind then [subs[n].id] else []
  }

  class EventBus {
    const tauri: bool
    const maxPayload: nat
    const maxPanics: int
    const middleware: Event -> Option<Event>
    var state: BusState
    var sequence: nat
    var subscribers: seq<SubscriptionEntry>
    var eventLog: seq<Event>
    var consecutiveLogFailures: nat
    /** What the outside holds: the browser store, the desktop backend's log, the events handed to the UI batcher. */
    var stored: seq<Event>
    var backend: seq<Event>
    var uiFeed: seq<Event>

    /** Replay-grade events whose log write did not fail, in publish order; and those a failed storage write lost. */
    ghost var accepted: seq<Event>
    ghost var lost: seq<Event>
    ghost var epoch: nat
    /** For each log write so far, whether it failed. */
    ghost var writes: seq<bool>
    ghost var deliveries: seq<nat>

    ghost predicate LogValid()
      reads this`accepted, this`epoch, this`sequence, this`consecutiveLogFailures, this`writes
      reads this`stored, this`lost, this`eventLog
    {
      && epoch <= |accepted| && Increasing(accepted[epoch..], sequence)
      && consecutiveLogFailures == TrailingPanics(writes)
      && (!tauri ==> Conserved(stored, lost, eventLog, accepted) && |eventLog| < FLUSH_THRESHOLD)
    }

    ghost predicate SubsValid()
      reads this`subscribers, subscribers
    {
      && (forall i, j :: 0 <= i < j < |subscribers| ==> subscribers[i] != subscribers[j])
      && (forall i :: 0 <= i < |subscribers| ==> subscribers[i].Valid(maxPanics))
    }

    ghost predicate Valid()
      reads this, subscribers
    {
      LogValid() && SubsValid()
    }

    constructor (tauri: bool, maxPayload: nat, maxPanics: int, middleware: Event -> Option<Event>, stored: seq<Event>)
      ensures Valid() && state == Uninitialized && subscribers == []
      ensures this.tauri == tauri && this.maxPayload == maxPayload && this.maxPanics == maxPanics
      ensures this.middleware == middleware
      ensures accepted == this.stored == stored && eventLog == [] && backend == [] && lost == []
    {
      this.tauri, this.maxPayload, this.maxPanics, this.middleware := tauri, maxPayload, maxPanics, middleware;
      this.stored, accepted, epoch := stored, stored, |stored|;
      state, sequence, subscribers, eventLog, consecutiveLogFailures := Uninitialized, 0, [], [], 0;
      backend, uiFeed, lost, writes, deliveries := [], [], [], [], [];
    }

    /**
     * A start from any resting state begins a new epoch of sequence numbers; the log and the failure
     * count carry over.
     */
    method Start() returns (started: bool)
      requires Valid()
      modifies this`state, this`sequence, this`epoch
      ensures Valid() && subscribers == old(subscribers)
      ensures started <==> old(state) in {Uninitialized, Stopped, Failed}
      ensures started ==> state == Running && sequence == 0 && epoch == |accepted|
      ensures !started ==> state == old(state) && sequence == old(sequence) && epoch == old(epoch)
      ensures accepted == old(accepted) && stored == old(stored) && eventLog == old(eventLog) && lost == old(lost)
      ensures consecutiveLogFailures == old(consecutiveLogFailures) && backend == old(backend)
    {
      if state != Uninitialized && state != Stopped && state != Failed {
        return false;
      }
      sequence := 0;
      epoch := |accepted|;
      state := Running;
      return true;
    }

    /** Moves the in-memory log out; `ok(i)` says whether the i-th write of this flush succeeds. */
    method FlushLog(ok: nat -> bool)
      requires epoch <= |accepted|
      modifies this`eventLog, this`stored, this`backend, this`lost
      ensures eventLog == []
      ensures !tauri ==> backend == old(backend)
      ensures !tauri && (old(eventLog) == [] || ok(0)) ==> stored == old(stored) + old(eventLog) && lost == old(lost)
      ensures !tauri && old(eventLog) != [] && !ok(0) ==> stored == old(stored) && lost == old(lost) + old(eventLog)
      ensures tauri ==> stored == old(stored) && lost == old(lost)
      ensures tauri ==> backend == old(backend) + Written(old(eventLog), ok)
    {
      if |eventLog| == 0 {
        return;
      }
      var batch := eventLog;
      eventLog := [];
      if tauri {
        ghost var before := backend;
        for i := 0 to |batch|
          invariant backend == before + Written(batch[..i], ok) && eventLog == []
          invariant stored == old(stored) && lost == old(lost)
        {
          assert batch[..i + 1][..i] == batch[..i];
          if ok(i) {
            backend := backend + [batch[i]];
          }
        }
        assert batch[..|batch|] == batch;
      } else if ok(0) {
        stored := stored + batch;
      } else {
        lost := lost + batch;
      }
    }

    /** Appends to the log; a desktop write may fail, and then the event stays in memory all the same. */
    method WriteToLog(event: Event, ok: nat -> bool) returns (written: bool)
      requires epoch <= |accepted|
      modifies this`eventLog, this`stored, this`backend, this`lost
      ensures written <==> !tauri || ok(0)
      ensures tauri ==> eventLog == old(eventLog) + [event] && stored == old(stored) && lost == old(lost)
      ensures tauri ==> backend == old(backend) + if ok(0) then [event] else []
      ensures !tauri ==> backend == old(backend)
      ensures !tauri && |old(eventLog)| + 1 < FLUSH_THRESHOLD ==>
                eventLog == old(eventLog) + [event] && stored == old(stored) && lost == old(lost)
      ensures !tauri && |old(eventLog)| + 1 >= FLUSH_THRESHOLD && ok(0) ==>
                eventLog == [] && stored == old(stored) + (old(eventLog) + [event]) && lost == old(lost)
      ensures !tauri && |old(eventLog)| + 1 >= FLUSH_THRESHOLD && !ok(0) ==>
                eventLog == [] && stored == old(stored) && lost == old(lost) + (old(eventLog) + [event])
    {
      eventLog := eventLog + [event];
      if tauri {
        if ok(0) {
          backend := backend + [event];
        }
        return ok(0);
      }
      if |eventLog| >= FLUSH_THRESHOLD {
        FlushLog(ok);
      }
      return true;
    }

    /** Steps 1 to 5 of a publish: the checks, the sequence number and the log. */
    method Admit(event: Event, ok: nat -> bool) returns (r: PublishResult)
      requires LogValid()
      modifies this`sequence, this`eventLog, this`stored, this`backend, this`lost, this`writes, this`accepted,
               this`consecutiveLogFailures, this`state
      ensures LogValid() && subscribers == old(subscribers) && uiFeed == old(uiFeed) && deliveries == old(deliveries)
      ensures epoch == old(epoch)
      ensures !old(state).Accepts() ==> r == Refused(BusNotRunning(old(state)))
      ensures old(state).Accepts() && event.payloadSize > maxPayload ==>
                r == Refused(PayloadTooLarge(event.payloadSize))
      ensures !old(state).Accepts() || event.payloadSize > maxPayload ==>
                && sequence == old(sequence) && accepted == old(accepted) && state == old(state)
                && eventLog == old(eventLog) && stored == old(stored) && lost == old(lost) && backend == old(backend)
                && writes == old(writes)
      ensures old(state).Accepts() && event.payloadSize <= maxPayload ==>
                && sequence == old(sequence) + 1
                && r == (if event.replayGrade && tauri && !ok(0) then Refused(LogWriteFailed) else Published(sequence))
                && accepted == old(accepted)
                     + (if event.replayGrade && r.Published? then [event.(sequence := sequence)] else [])
                && writes == old(writes) + (if event.replayGrade then [r.Refused?] else [])
                && state == (if r.Published? then old(state)
                             else if TrailingPanics(writes) >= 3 then Failed else Degraded)
      ensures old(state).Accepts() && event.payloadSize <= maxPayload && event.replayGrade && tauri ==>
                && eventLog == old(eventLog) + [event.(sequence := sequence)]
                && backend == old(backend) + if ok(0) then [event.(sequence := sequence)] else []
      ensures !event.replayGrade ==>
                && eventLog == old(eventLog) && stored == old(stored) && lost == old(lost) && backend == old(backend)
      ensures tauri ==> stored == old(stored) && lost == old(lost)
      ensures !tauri ==> backend == old(backend)
      ensures !tauri && ok(0) ==>
                && lost == old(lost)
                && stored + eventLog == old(stored + eventLog)
                     + (if event.replayGrade && r.Published? then [event.(sequence := sequence)] else [])
    {
      hide Conserved, Increasing, TrailingPanics;
      if !state.Accepts() {
        return Refused(BusNotRunning(state));
      }
      if event.payloadSize > maxPayload {
        return Refused(PayloadTooLarge(event.payloadSize));
      }
      sequence := sequence + 1;
      var stamped := event.(sequence := sequence);
      AcceptKeepsIncreasing(accepted, epoch, stamped, sequence);
      if stamped.replayGrade {
        var written := LogReplayGrade(stamped, ok);
        if !written {
          return Refused(LogWriteFailed);
        }
      }
      return Published(sequence);
    }

    /** Step 5: write the event to the log and keep count of failed writes; the third in a row fails the bus. */
    method LogReplayGrade(stamped: Event, ok: nat -> bool) returns (written: bool)
      requires epoch <= |accepted| && consecutiveLogFailures == TrailingPanics(writes)
      requires !tauri ==> Conserved(stored, lost, eventLog, accepted) && |eventLog| < FLUSH_THRESHOLD
      modifies this`eventLog, this`stored, this`backend, this`lost, this`writes, this`accepted,
               this`consecutiveLogFailures, this`state
      ensures written <==> !tauri || ok(0)
      ensures writes == old(writes) + [!written] && consecutiveLogFailures == TrailingPanics(writes)
      ensures accepted == if written then old(accepted) + [stamped] else old(accepted)
      ensures state == if written then old(state) else if TrailingPanics(writes) >= 3 then Failed else Degraded
      ensures tauri ==>
                eventLog == old(eventLog) + [stamped] && backend == old(backend) + if ok(0) then [stamped] else []
      ensures !tauri && ok(0) ==> lost == old(lost)
      ensures tauri ==> stored == old(stored) && lost == old(lost)
      ensures !tauri ==> backend == old(backend)
      ensures !tauri && ok(0) ==> stored + eventLog == old(stored + eventLog) + [stamped]
      ensures !tauri ==> Conserved(stored, lost, eventLog, accepted) && |eventLog| < FLUSH_THRESHOLD
    {
      hide Conserved, TrailingPanics;
      ConcatAssociates(stored, eventLog, [stamped]);
      if !tauri {
        AppendConserves(stored, lost, eventLog, accepted, stamped);
        FlushConserves(stored, lost, eventLog + [stamped], accepted + [stamped]);
      }
      written := WriteToLog(stamped, ok);
      HistorySnoc(writes, !written);
      writes := writes + [!written];
      if written {
        consecutiveLogFailures := 0;
        accepted := accepted + [stamped];
      } else {
        consecutiveLogFailures := consecutiveLogFailures + 1;
        state := if consecutiveLogFailures >= 3 then Failed else Degraded;
      }
    }

    /** Delivers to every matched subscriber of one kind, in subscription order. */
    method DeliverTo(kind: Kind, matched: seq<bool>, event: Event, ends: nat -> HandlerEnd)
      requires SubsValid() && kind != Ui && |matched| == |subscribers|
      requires forall i :: 0 <= i < |subscribers| && matched[i] && subscribers[i].kind == kind ==>
                 subscribers[i].state != Quarantined
      modifies this`deliveries, subscribers
      ensures SubsValid() && deliveries == old(deliveries) + Picked(subscribers, matched, kind)
      ensures forall i :: 0 <= i < |subscribers| ==>
                var s := subscribers[i];
                if matched[i] && s.kind == kind then s.history == old(s.history) + [ends(s.id)]
                else unchanged(s)
    {
      hide Panics, Picked, SubscriptionEntry.Valid;
      ghost var before := deliveries;
      assert Picked(subscribers[..0], matched[..0], kind) == [] by { PickedNone(matched[..0], kind); }
      for i := 0 to |subscribers|
        invariant SubsValid()
        invariant deliveries == before + Picked(subscribers[..i], matched[..i], kind)
        invariant forall j :: 0 <= j < i ==>
                    var s := subscribers[j];
                    if matched[j] && s.kind == kind then s.history == old(s.history) + [ends(s.id)]
                    else unchanged(s)
        invariant forall j :: i <= j < |subscribers| ==> unchanged(subscribers[j])
      {
        PickedSnoc(subscribers, matched, kind, i);
        if matched[i] && subscribers[i].kind == kind {
          var s := subscribers[i];
          assert forall j :: 0 <= j < |subscribers| && j != i ==> subscribers[j] != s;
          s.Deliver(event, ends(s.id), maxPanics);
          deliveries := deliveries + [s.id];
        }
      }
      assert subscribers[..|subscribers|] == subscribers && matched[..|subscribers|] == matched;
    }

    /** Steps 7 to 9: core subscribers first, then plugins, then the UI batcher. */
    method Distribute(event: Event, ends: nat -> HandlerEnd)
      requires SubsValid()
      modifies this`deliveries, this`uiFeed, subscribers
      ensures SubsValid()
      ensures forall i :: 0 <= i < |subscribers| ==>
                var s := subscribers[i];
                if old(Reaches(s, event)) && s.kind != Ui then
                  s.history == old(s.history) + [ends(s.id)]
                else unchanged(s)
      ensures deliveries == old(deliveries) + Picked(subscribers, old(Matching(event)), Core)
                + Picked(subscribers, old(Matching(event)), Plugin)
      ensures uiFeed == old(uiFeed) + if Picked(subscribers, old(Matching(event)), Ui) == [] then [] else [event]
      ensures uiFeed != old(uiFeed) <==>
                exists i :: 0 <= i < |subscribers| && subscribers[i].kind == Ui
                            && old(subscribers[i].state) == Active && subscribers[i].matches(event)
    {
      hide Panics, Picked, SubscriptionEntry.Valid;
      var matched := Matching(event);
      DeliverTo(Core, matched, event, ends);
      DeliverTo(Plugin, matched, event, ends);
      PickedSomeIff(subscribers, matched, Ui);
      if |Picked(subscribers, matched, Ui)| > 0 {
        uiFeed := uiFeed + [event];
      }
    }

    /** Quarantined subscribers are skipped; the others see what their filter matches. */
    predicate Reaches(s: SubscriptionEntry, event: Event)
      reads s
    {
      s.state != Quarantined && s.matches(event)
    }

    function Matching(event: Event): (matched: seq<bool>)
      reads this`subscribers, subscribers
      ensures |matched| == |subscribers|
      ensures forall i :: 0 <= i < |subscribers| ==> matched[i] == Reaches(subscribers[i], event)
      ensures forall i :: 0 <= i < |subscribers| ==>
                (matched[i] <==> subscribers[i].state == Active && subscribers[i].matches(event))
    {
      var subs := subscribers;
      seq(|subs|, i requires 0 <= i < |subs| reads subs => Reaches(subs[i], event))
    }

    /** A published event is numbered, logged if it is replay-grade, and delivered unless middleware drops it. */
    method Publish(event: Event, ok: nat -> bool, ends: nat -> HandlerEnd) returns (r: PublishResult)
      requires Valid()
      modifies this`sequence, this`eventLog, this`stored, this`backend, this`lost, this`writes, this`accepted,
               this`consecutiveLogFailures, this`state,
               this`deliveries, this`uiFeed, subscribers
      ensures Valid() && subscribers == old(subscribers)
      ensures old(state).Accepts() <==> old(state) in {Ready, Running, Degraded}
      ensures !tauri ==> |eventLog| < 50
      ensures r.Published? <==>
                old(state).Accepts() && event.payloadSize <= maxPayload && !(event.replayGrade && tauri && !ok(0))
      ensures !old(state).Accepts() ==> r == Refused(BusNotRunning(old(state)))
      ensures old(state).Accepts() && event.payloadSize > maxPayload ==>
                r == Refused(PayloadTooLarge(event.payloadSize))
      ensures old(state).Accepts() && event.payloadSize <= maxPayload ==> sequence == old(sequence) + 1
      ensures r.Published? ==> r.sequence == sequence && state == old(state)
      ensures accepted == if event.replayGrade && r.Published? then old(accepted) + [event.(sequence := sequence)]
                          else old(accepted)
      ensures old(state).Accepts() && event.payloadSize <= maxPayload && event.replayGrade && tauri ==>
                && eventLog == old(eventLog) + [event.(sequence := sequence)]
                && backend == old(backend) + if ok(0) then [event.(sequence := sequence)] else []
      ensures !event.replayGrade ==>
                && eventLog == old(eventLog) && stored == old(stored) && lost == old(lost) && backend == old(backend)
      ensures tauri ==> stored == old(stored) && lost == old(lost)
      ensures !tauri ==> backend == old(backend)
      ensures !tauri && ok(0) ==>
                && lost == old(lost)
                && stored + eventLog == old(stored + eventLog)
                     + (if event.replayGrade && r.Published? then [event.(sequence := sequence)] else [])
      ensures writes == old(writes)
                + if old(state).Accepts() && event.payloadSize <= maxPayload && event.replayGrade then [r.Refused?]
                  else []
      ensures r.Refused? && r.error != LogWriteFailed ==>
                && eventLog == old(eventLog) && stored == old(stored) && lost == old(lost) && backend == old(backend)
      ensures r == Refused(LogWriteFailed) ==> state == if TrailingPanics(writes) >= 3 then Failed else Degraded
      ensures r == Refused(LogWriteFailed) ==> (state == Failed <==> LastThreeFailed(writes))
      ensures r.Refused? && r.error != LogWriteFailed ==> sequence == old(sequence) && state == old(state)
      ensures r.Refused? || middleware(event.(sequence := sequence)).None? ==>
                deliveries == old(deliveries) && uiFeed == old(uiFeed) && forall s :: s in subscribers ==> unchanged(s)
      ensures r.Published? && middleware(event.(sequence := sequence)).Some? ==>
                var e := middleware(event.(sequence := sequence)).value;
                && (forall i :: 0 <= i < |subscribers| ==>
                      var s := subscribers[i];
                      if old(Reaches(s, e)) && s.kind != Ui then
                        s.history == old(s.history) + [ends(s.id)]
                      else unchanged(s))
                && deliveries == old(deliveries) + Picked(subscribers, old(Matching(e)), Core)
                                 + Picked(subscribers, old(Matching(e)), Plugin)
                && uiFeed == old(uiFeed) + if Picked(subscribers, old(Matching(e)), Ui) == [] then [] else [e]
    {
      hide Panics, Picked, SubscriptionEntry.Valid, Conserved, Increasing, TrailingPanics, LastThreeFailed;
      r := Admit(event, ok);
      LastThree(writes);
      if r.Refused? {
        return;
      }
      var processed := middleware(event.(sequence := sequence));
      if processed.Some? {
        Distribute(processed.value, ends);
      }
    }

    /** Graceful shutdown: the log is flushed, whatever the state was. */
    method Drain(ok: nat -> bool)
      requires Valid()
      modifies this`state, this`eventLog, this`stored, this`backend, this`lost
      ensures Valid() && state == Stopped && eventLog == [] && subscribers == old(subscribers)
      ensures accepted == old(accepted) && sequence == old(sequence) && epoch == old(epoch)
      ensures !tauri && (ok(0) || old(eventLog) == []) ==> lost == old(lost) && stored == old(stored) + old(eventLog)
      ensures !tauri && !ok(0) && old(eventLog) != [] ==> lost == old(lost) + old(eventLog) && stored == old(stored)
      ensures tauri ==> backend == old(backend) + Written(old(eventLog), ok)
    {
      hide SubscriptionEntry.Valid, LogValid, SubsValid, Written;
      state := Draining;
      FlushNow(ok);
      state := Stopped;
    }

    /** A hard stop leaves the in-memory log where it is. */
    method ForceStop()
      requires Valid()
      modifies this`state
      ensures Valid() && state == Stopped && subscribers == old(subscribers)
      ensures eventLog == old(eventLog) && stored == old(stored) && lost == old(lost) && backend == old(backend)
      ensures accepted == old(accepted) && sequence == old(sequence) && epoch == old(epoch)
    {
      hide SubscriptionEntry.Valid, Conserved, Increasing, TrailingPanics;
      state := Stopped;
    }

    /** A flush between publishes: by the timer, or as part of a drain. */
    method FlushNow(ok: nat -> bool)
      requires Valid()
      modifies this`eventLog, this`stored, this`backend, this`lost
      ensures Valid() && eventLog == []
      ensures !tauri && (ok(0) || old(eventLog) == []) ==> lost == old(lost) && stored == old(stored) + old(eventLog)
      ensures !tauri && !ok(0) && old(eventLog) != [] ==> lost == old(lost) + old(eventLog) && stored == old(stored)
      ensures tauri ==> backend == old(backend) + Written(old(eventLog), ok)
    {
      hide SubscriptionEntry.Valid, SubsValid, Conserved, Increasing, TrailingPanics, Written;
      if !tauri {
        FlushConserves(stored, lost, eventLog, accepted);
      }
      FlushLog(ok);
    }

    /** Adds a subscriber, unless its owner is a plugin that already has as many as it may. */
    method Subscribe(id: nat, kind: Kind, owner: string, matches: Event -> bool) returns (r: Option<SubscriptionEntry>)
      requires Valid()
      modifies this`subscribers
      ensures Valid()
      ensures r.None? <==> kind == Plugin && PluginCount(old(subscribers), owner) >= 32
      ensures r.None? ==> subscribers == old(subscribers)
      ensures r.Some? ==>
                && fresh(r.value) && subscribers == old(subscribers) + [r.value]
                && r.value.id == id && r.value.kind == kind && r.value.owner == owner && r.value.matches == matches
                && r.value.history == []
      ensures accepted == old(accepted) && state == old(state)
    {
      hide SubscriptionEntry.Valid, Conserved, Increasing, TrailingPanics;
      if kind == Plugin && PluginCount(subscribers, owner) >= PLUGIN_LIMIT {
        return None;
      }
      var entry := new SubscriptionEntry(id, kind, owner, matches, maxPanics);
      subscribers := subscribers + [entry];
      return Some(entry);
    }

    /** Removes a subscriber; the others keep their order and their counters. */
    method Unsubscribe(id: nat)
      requires Valid()
      modifies this`subscribers
      ensures Valid() && subscribers == WithoutId(old(subscribers), id)
      ensures forall s :: s in subscribers <==> s in old(subscribers) && s.id != id
      ensures accepted == old(accepted) && state == old(state)
    {
      hide SubscriptionEntry.Valid, LogValid;
      WithoutIdIsPart(subscribers, id);
      forall i | 0 <= i < |WithoutId(subscribers, id)| ensures WithoutId(subscribers, id)[i].Valid(maxPanics) {
        var j :| 0 <= j < |subscribers| && subscribers[j] == WithoutId(subscribers, id)[i];
      }
      subscribers := WithoutId(subscribers, id);
    }

    function View(): Epoch
      reads this`state, this`sequence, this`stored, this`eventLog
    {
      Epoch(state, sequence, stored + eventLog)
    }

    /** A browser bus whose storage writes succeed performs acts as `After` says, whatever its handlers do. */
    method Continue(acts: seq<Act>, ends: nat -> nat -> HandlerEnd)
      requires Valid() && !tauri
      modifies this`sequence, this`eventLog, this`stored, this`backend, this`lost, this`writes, this`accepted,
               this`consecutiveLogFailures, this`state,
               this`deliveries, this`uiFeed, subscribers
      ensures Valid() && subscribers == old(subscribers) && lost == old(lost)
      ensures View() == After(old(View()), acts, maxPayload)
    {
      hide SubscriptionEntry.Valid, Valid, Perform;
      ghost var start, subs := View(), subscribers;
      NoActsYet(start, acts, maxPayload);
      for i := 0 to |acts|
        invariant Valid() && subscribers == subs && lost == old(lost)
        invariant View() == After(start, acts[..i], maxPayload)
      {
        AfterSnoc(start, acts, i, maxPayload);
        PerformAct(acts[i], ends(i));
      }
      assert acts[..|acts|] == acts;
    }

    method PerformAct(act: Act, ends: nat -> HandlerEnd)
      requires Valid() && !tauri
      modifies this`sequence, this`eventLog, this`stored, this`backend, this`lost, this`writes, this`accepted,
               this`consecutiveLogFailures, this`state,
               this`deliveries, this`uiFeed, subscribers
      ensures Valid() && subscribers == old(subscribers) && lost == old(lost)
      ensures View() == Perform(old(View()), act, maxPayload)
    {
      hide SubscriptionEntry.Valid, LogValid, SubsValid, TrailingPanics, Picked, Panics;
      hide LastThreeFailed, Matching, Reaches;
      match act {
        case PublishAct(event) =>
          var r := Publish(event, i => true, ends);
          assert old(stored + eventLog) + [] == old(stored + eventLog);
        case FlushAct => FlushNow(i => true);
        case DrainAct => Drain(i => true);
        case StopAct => ForceStop();
      }
    }

    /** With no lost batch, the current epoch's part of the log numbers its events in strictly increasing order. */
    lemma EpochLogIsOrdered()
      requires Valid() && !tauri && lost == []
      ensures stored + eventLog == accepted && epoch <= |stored + eventLog|
      ensures forall i, j :: epoch <= i < j < |stored + eventLog| ==>
                (stored + eventLog)[i].sequence < (stored + eventLog)[j].sequence
    {
      var all := stored + eventLog;
      forall i, j | epoch <= i < j < |all| ensures all[i].sequence < all[j].sequence {
        assert all[i] == all[epoch..][i - epoch] && all[j] == all[epoch..][j - epoch];
      }
    }
  }

  const PLUGIN_LIMIT := 32

  function PluginCount(subs: seq<SubscriptionEntry>, owner: string): nat {
    if subs == [] then 0
    else PluginCount(subs[..|subs| - 1], owner)
         + if subs[|subs| - 1].kind == Plugin && subs[|subs| - 1].owner == owner then 1 else 0
  }

  /** The ascending positions of the owner's plugin subscriptions. */
  ghost predicate PluginsAt(subs: seq<SubscriptionEntry>, owner: string, at: seq<nat>) {
    && (forall j :: 0 <= j < |at| ==> at[j] < |subs|)
    && (forall j, k :: 0 <= j < k < |at| ==> at[j] < at[k])
    && (forall i :: 0 <= i < |subs| ==> (i in at <==> subs[i].kind == Plugin && subs[i].owner == owner))
  }

  lemma PluginsAtGrows(subs: seq<SubscriptionEntry>, owner: string, at: seq<nat>, s: SubscriptionEntry)
    requires PluginsAt(subs, owner, at)
    ensures s.kind == Plugin && s.owner == owner ==> PluginsAt(subs + [s], owner, at + [|subs|])
    ensures !(s.kind == Plugin && s.owner == owner) ==> PluginsAt(subs + [s], owner, at)
  {
    var n := |subs|;
    assert n !in at;
    assert forall i :: i in at + [n] <==> i in at || i == n;
  }

  /** The count is that of the positions with a plugin subscription of the owner. */
  lemma {:induction false} PluginCountIs(subs: seq<SubscriptionEntry>, owner: string) returns (at: seq<nat>)
    ensures PluginCount(subs, owner) == |at| && PluginsAt(subs, owner, at)
  {
    at := [];
    if subs != [] {
      hide PluginsAt;
      var n := |subs| - 1;
      assert subs == subs[..n] + [subs[n]];
      at := PluginCountIs(subs[..n], owner);
      PluginsAtGrows(subs[..n], owner, at, subs[n]);
      if subs[n].kind == Plugin && subs[n].owner == owner {
        at := at + [n];
      }
    }
  }

  function WithoutId(subs: seq<SubscriptionEntry>, id: nat): seq<SubscriptionEntry> {
    if subs == [] then []
    else WithoutId(subs[..|subs| - 1], id) + if subs[|subs| - 1].id == id then [] else [subs[|subs| - 1]]
  }

  lemma {:induction false} WithoutIdIsPart(subs: seq<SubscriptionEntry>, id: nat)
    requires forall i, j :: 0 <= i < j < |subs| ==> subs[i] != subs[j]
    ensures forall i :: 0 <= i < |WithoutId(subs, id)| ==>
              WithoutId(subs, id)[i] in subs && WithoutId(subs, id)[i].id != id
    ensures forall i :: 0 <= i < |subs| && subs[i].id != id ==> subs[i] in WithoutId(subs, id)
    ensures forall i, j :: 0 <= i < j < |WithoutId(subs, id)| ==> WithoutId(subs, id)[i] != WithoutId(subs, id)[j]
  {
    if subs != [] {
      var front, last := subs[..|subs| - 1], subs[|subs| - 1];
      assert subs == front + [last];
      WithoutIdIsPart(front, id);
    }
  }

  /** The kept subscribers are those at the given positions, which ascend. */
  ghost predicate KeptAt(subs: seq<SubscriptionEntry>, at: seq<nat>, kept: seq<SubscriptionEntry>) {
    && |at| == |kept|
    && (forall j :: 0 <= j < |at| ==> at[j] < |subs| && subs[at[j]] == kept[j])
    && (forall j, k :: 0 <= j < k < |at| ==> at[j] < at[k])
  }

  lemma KeptAtGrows(subs: seq<SubscriptionEntry>, s: SubscriptionEntry, at: seq<nat>, kept: seq<SubscriptionEntry>)
    requires KeptAt(subs, at, kept)
    ensures KeptAt(subs + [s], at, kept) && KeptAt(subs + [s], at + [|subs|], kept + [s])
  {
  }

  /** Those left keep their order. */
  lemma {:induction false} WithoutIdKeepsOrder(subs: seq<SubscriptionEntry>, id: nat) returns (at: seq<nat>)
    ensures KeptAt(subs, at, WithoutId(subs, id))
  {
    at := [];
    if subs != [] {
      hide KeptAt;
      var front, last := subs[..|subs| - 1], subs[|subs| - 1];
      assert subs == front + [last];
      at := WithoutIdKeepsOrder(front, id);
      KeptAtGrows(front, last, at, WithoutId(front, id));
      assert WithoutId(front, id) + [] == WithoutId(front, id);
      if last.id != id {
        at := at + [|front|];
      }
    }
  }

  lemma PickedSomeIff(subs: seq<SubscriptionEntry>, matched: seq<bool>, kind: Kind)
    requires |matched| == |subs|
    ensures Picked(subs, matched, kind) != [] <==> exists i :: 0 <= i < |subs| && matched[i] && subs[i].kind == kind
  {
    hide Picked;
    var at := PickedInOrder(subs, matched, kind);
    if |at| > 0 {
      assert at[0] in at;
    }
  }

  /** The positions of the matched subscribers of the kind, ascending, and their ids. */
  ghost predicate PickedAt(subs: seq<SubscriptionEntry>, matched: seq<bool>, kind: Kind, at: seq<nat>, ids: seq<nat>)
    requires |matched| == |subs|
  {
    && |at| == |ids|
    && (forall j :: 0 <= j < |at| ==> at[j] < |subs| && ids[j] == subs[at[j]].id)
    && (forall j, k :: 0 <= j < k < |at| ==> at[j] < at[k])
    && (forall i :: 0 <= i < |subs| ==> (i in at <==> matched[i] && subs[i].kind == kind))
  }

  lemma PickedAtGrows(subs: seq<SubscriptionEntry>, matched: seq<bool>, kind: Kind, at: seq<nat>, ids: seq<nat>,
                      s: SubscriptionEntry, hit: bool)
    requires |matched| == |subs| && PickedAt(subs, matched, kind, at, ids)
    ensures hit && s.kind == kind ==> PickedAt(subs + [s], matched + [hit], kind, at + [|subs|], ids + [s.id])
    ensures !(hit && s.kind == kind) ==> PickedAt(subs + [s], matched + [hit], kind, at, ids)
  {
    var n := |subs|;
    assert n !in at;
    assert forall i :: i in at + [n] <==> i in at || i == n;
  }

  /** The picked are the ids of all matched subscribers of the kind, in subscription order, each once. */
  lemma {:induction false} PickedInOrder(subs: seq<SubscriptionEntry>, matched: seq<bool>, kind: Kind)
    returns (at: seq<nat>)
    requires |matched| == |subs|
    ensures PickedAt(subs, matched, kind, at, Picked(subs, matched, kind))
  {
    at := [];
    if subs != [] {
      hide PickedAt;
      var n := |subs| - 1;
      assert subs == subs[..n] + [subs[n]] && matched == matched[..n] + [matched[n]];
      at := PickedInOrder(subs[..n], matched[..n], kind);
      var ids := Picked(subs[..n], matched[..n], kind);
      PickedAtGrows(subs[..n], matched[..n], kind, at, ids, subs[n], matched[n]);
      assert ids + [] == ids;
      if matched[n] && subs[n].kind == kind {
        at := at + [n];
      }
    }
  }

  lemma PickedNone(matched: seq<bool>, kind: Kind)
    requires matched == []
    ensures Picked([], matched, kind) == []
  {
  }

  lemma PickedSnoc(subs: seq<SubscriptionEntry>, matched: seq<bool>, kind: Kind, i: nat)
    requires i < |subs| == |matched|
    ensures Picked(subs[..i + 1], matched[..i + 1], kind)
         == Picked(subs[..i], matched[..i], kind) + if matched[i] && subs[i].kind == kind then [subs[i].id] else []
  {
    assert subs[..i + 1][..i] == subs[..i] && matched[..i + 1][..i] == matched[..i];
  }

  /**
   * Nothing accepted goes missing or doubles: it is stored, in memory, or in a batch that a failed
   * storage write lost.
   */
  ghost predicate Conserved(stored: seq<Event>, lost: seq<Event>, log: seq<Event>, accepted: seq<Event>) {
    && multiset(stored) + multiset(lost) + multiset(log) == multiset(accepted)
    && (lost == [] ==> stored + log == accepted)
  }

  lemma AppendConserves(stored: seq<Event>, lost: seq<Event>, log: seq<Event>, accepted: seq<Event>, e: Event)
    requires Conserved(stored, lost, log, accepted)
    ensures Conserved(stored, lost, log + [e], accepted + [e])
  {
    ConcatAssociates(stored, log, [e]);
  }

  lemma FlushConserves(stored: seq<Event>, lost: seq<Event>, log: seq<Event>, accepted: seq<Event>)
    requires Conserved(stored, lost, log, accepted)
    ensures Conserved(stored + log, lost, [], accepted)
    ensures log != [] ==> Conserved(stored, lost + log, [], accepted)
  {
    assert (stored + log) + [] == stored + log;
  }

  lemma AcceptKeepsIncreasing(accepted: seq<Event>, epoch: nat, e: Event, sequence: nat)
    requires epoch <= |accepted| && sequence > 0
    requires Increasing(accepted[epoch..], sequence - 1) && e.sequence == sequence
    ensures Increasing(accepted[epoch..], sequence) && Increasing((accepted + [e])[epoch..], sequence)
  {
    assert (accepted + [e])[epoch..] == accepted[epoch..] + [e];
  }

  /** The events of a batch whose individual write succeeds. */
  function Written(batch: seq<Event>, ok: nat -> bool): seq<Event> {
    if batch == [] then []
    else Written(batch[..|batch| - 1], ok) + if ok(|batch| - 1) then [batch[|batch| - 1]] else []
  }

  // ----- What the log does not promise -----

  /** What matters of a browser bus for the order of its log; the log is what is stored and what is in memory. */
  datatype Epoch = Epoch(state: BusState, sequence: nat, log: seq<Event>)

  datatype Act = PublishAct(event: Event) | FlushAct | DrainAct | StopAct

  function Perform(e: Epoch, act: Act, maxPayload: nat): Epoch {
    match act
    case PublishAct(event) =>
      if !e.state.Accepts() || event.payloadSize > maxPayload then e
      else Epoch(e.state, e.sequence + 1,
                 e.log + if event.replayGrade then [event.(sequence := e.sequence + 1)] else [])
    case FlushAct => e
    case DrainAct => e.(state := Stopped)
    case StopAct => e.(state := Stopped)
  }

  function After(e: Epoch, acts: seq<Act>, maxPayload: nat): Epoch {
    if acts == [] then e else Perform(After(e, acts[..|acts| - 1], maxPayload), acts[|acts| - 1], maxPayload)
  }

  lemma NoActsYet(e: Epoch, acts: seq<Act>, maxPayload: nat)
    ensures After(e, acts[..0], maxPayload) == e
  {
  }

  lemma AfterSnoc(e: Epoch, acts: seq<Act>, i: nat, maxPayload: nat)
    requires i < |acts|
    ensures After(e, acts[..i + 1], maxPayload) == Perform(After(e, acts[..i], maxPayload), acts[i], maxPayload)
  {
    assert acts[..i + 1][..i] == acts[..i];
  }

  ghost predicate Rising(log: seq<Event>) {
    forall i, j :: 0 <= i < j < |log| ==> log[i].sequence < log[j].sequence
  }

  ghost predicate RisingTo(log: seq<Event>, sequence: nat) {
    Rising(log) && forall i :: 0 <= i < |log| ==> log[i].sequence <= sequence
  }

  lemma {:induction false} StaysRising(e: Epoch, acts: seq<Act>, maxPayload: nat)
    requires RisingTo(e.log, e.sequence)
    ensures RisingTo(After(e, acts, maxPayload).log, After(e, acts, maxPayload).sequence)
  {
    if acts != [] {
      StaysRising(e, acts[..|acts| - 1], maxPayload);
    }
  }

  /** Every continuation of a fresh start keeps the log in strictly increasing order. */
  ghost predicate StartKeepsOrder(log: seq<Event>, maxPayload: nat) {
    forall acts :: Rising(After(Epoch(Running, 0, log), acts, maxPayload).log)
  }

  /**
   * That is so exactly when the log was empty at the start, or held one event with the number 0,
   * which the bus never gives out.
   */
  lemma StartKeepsOrderIff(log: seq<Event>, maxPayload: nat)
    ensures StartKeepsOrder(log, maxPayload) <==> log == [] || (|log| == 1 && log[0].sequence == 0)
  {
    var start := Epoch(Running, 0, log);
    if log == [] || (|log| == 1 && log[0].sequence == 0) {
      forall acts ensures Rising(After(start, acts, maxPayload).log) {
        StaysRising(start, acts, maxPayload);
      }
    } else if StartKeepsOrder(log, maxPayload) {
      assert After(start, [], maxPayload) == start;
      var n := |log| - 1;
      assert n > 0 ==> log[n - 1].sequence < log[n].sequence;
      NextPublishRepeats(log, maxPayload);
    }
  }

  /** The very next replay-grade event breaks the order of a log with a numbered event at its end. */
  lemma NextPublishRepeats(log: seq<Event>, maxPayload: nat)
    requires log != [] && log[|log| - 1].sequence >= 1
    ensures !StartKeepsOrder(log, maxPayload)
  {
    var acts, n := [PublishAct(Event("", "", true, 0, 0))], |log| - 1;
    var start := Epoch(Running, 0, log);
    AfterSnoc(start, acts, 0, maxPayload);
    assert acts[..1] == acts && acts[..0] == [];
    var after := After(start, acts, maxPayload).log;
    assert after[n] == log[n] && after[n + 1].sequence == 1;
  }

  /** Each start numbers from one again, so a log that spans a restart repeats sequence numbers. */
  method RestartRepeatsNumbers(e: Event) returns (log: seq<Event>)
    requires e.replayGrade && e.payloadSize <= 1000
    ensures log == [e.(sequence := 1), e.(sequence := 1)]
  {
    hide SubscriptionEntry.Valid, Conserved, Increasing, TrailingPanics, Picked, Panics, EventBus.Valid;
    hide LastThreeFailed, EventBus.Matching, EventBus.Reaches;
    var bus := new EventBus(false, 1000, 3, d => None, []);
    StartAndPublish(bus, e);
    bus.ForceStop();
    StartAndPublish(bus, e);
    bus.EpochLogIsOrdered();
    log := bus.stored + bus.eventLog;
  }

  /** The first event of an epoch is number one, whatever was published before. */
  method StartAndPublish(bus: EventBus, e: Event)
    requires bus.Valid() && bus.subscribers == [] && bus.state in {Uninitialized, Stopped, Failed}
    requires !bus.tauri && e.replayGrade && e.payloadSize <= bus.maxPayload
    modifies bus
    ensures bus.Valid() && bus.subscribers == []
    ensures bus.accepted == old(bus.accepted) + [e.(sequence := 1)] && bus.lost == old(bus.lost)
  {
    hide SubscriptionEntry.Valid, Conserved, Increasing, TrailingPanics, Picked, Panics, EventBus.Valid;
    hide LastThreeFailed, EventBus.Matching, EventBus.Reaches;
    var started := bus.Start();
    var r := bus.Publish(e, i => true, i => Fulfilled);
  }

  /** On the desktop every event is written when it is published and again when the log is flushed. */
  method DesktopFlushWritesTwice(e: Event) returns (backend: seq<Event>)
    requires e.replayGrade && e.payloadSize <= 1000
    ensures backend == [e.(sequence := 1), e.(sequence := 1)]
  {
    hide SubscriptionEntry.Valid, EventBus.Valid;
    var bus := new EventBus(true, 1000, 3, d => None, []);
    StartAndPublishOnDesktop(bus, e);
    WrittenAll(bus.eventLog, i => true);
    hide Written;
    bus.Drain(i => true);
    backend := bus.backend;
  }

  method StartAndPublishOnDesktop(bus: EventBus, e: Event)
    requires bus.Valid() && bus.subscribers == [] && bus.state == Uninitialized
    requires bus.tauri && bus.eventLog == [] && bus.backend == [] && e.replayGrade && e.payloadSize <= bus.maxPayload
    modifies bus
    ensures bus.Valid() && bus.eventLog == [e.(sequence := 1)] && bus.backend == [e.(sequence := 1)]
    ensures bus.subscribers == []
  {
    hide SubscriptionEntry.Valid, TrailingPanics, Picked, Panics, EventBus.Valid;
    hide LastThreeFailed, EventBus.Matching, EventBus.Reaches;
    var started := bus.Start();
    var r := bus.Publish(e, i => true, i => Fulfilled);
  }

  /** How many events with this id there are. */
  function Copies(es: seq<Event>, id: string): nat {
    if es == [] then 0 else Copies(es[..|es| - 1], id) + if es[|es| - 1].eventId == id then 1 else 0
  }

  lemma CopiesSnoc(es: seq<Event>, e: Event, id: string)
    ensures Copies(es + [e], id) == Copies(es, id) + if e.eventId == id then 1 else 0
  {
    assert (es + [e])[..|es|] == es;
  }

  lemma {:induction false} CopiesAppend(a: seq<Event>, b: seq<Event>, id: string)
    ensures Copies(a + b, id) == Copies(a, id) + Copies(b, id)
    decreases |b|
  {
    if b == [] {
      assert a + b == a;
    } else {
      var front, last := b[..|b| - 1], b[|b| - 1];
      assert b == front + [last];
      ConcatAssociates(a, front, [last]);
      CopiesSnoc(a + front, last, id);
      CopiesAppend(a, front, id);
    }
  }

  lemma WrittenSnoc(batch: seq<Event>, e: Event, ok: nat -> bool)
    ensures Written(batch + [e], ok) == if ok(|batch|) then Written(batch, ok) + [e] else Written(batch, ok)
  {
    assert (batch + [e])[..|batch|] == batch;
  }

  lemma {:induction false} WrittenCopies(batch: seq<Event>, ok: nat -> bool, id: string)
    ensures Copies(Written(batch, ok), id) <= Copies(batch, id)
  {
    hide Written, Copies;
    if batch != [] {
      var front, last := batch[..|batch| - 1], batch[|batch| - 1];
      assert batch == front + [last];
      WrittenCopies(front, ok, id);
      WrittenSnoc(front, last, ok);
      CopiesSnoc(Written(front, ok), last, id);
      CopiesSnoc(front, last, id);
    } else {
      NothingWritten(ok);
    }
  }

  lemma NothingWritten(ok: nat -> bool)
    ensures Written([], ok) == []
  {
  }

  lemma WrittenLast(batch: seq<Event>, e: Event, ok: nat -> bool)
    requires Copies(batch, e.eventId) == 0
    ensures Copies(Written(batch + [e], ok), e.eventId) == if ok(|batch|) then 1 else 0
  {
    hide Written, Copies;
    WrittenSnoc(batch, e, ok);
    WrittenCopies(batch, ok, e.eventId);
    CopiesSnoc(Written(batch, ok), e, e.eventId);
  }

  /**
   * On the desktop a new replay-grade event is in the backend exactly once after the next flush if
   * and only if exactly one of its two writes succeeded. An event whose first write fails is
   * refused, and the flush writes it all the same.
   */
  method PublishThenFlush(bus: EventBus, e: Event, first: bool, ok: nat -> bool, ends: nat -> HandlerEnd)
    returns (r: PublishResult)
    requires bus.Valid() && bus.tauri && bus.state.Accepts() && e.replayGrade && e.payloadSize <= bus.maxPayload
    requires Copies(bus.backend, e.eventId) == 0 && Copies(bus.eventLog, e.eventId) == 0
    modifies bus, bus.subscribers
    ensures r.Published? <==> first
    ensures var second := ok(|old(bus.eventLog)|);
            && Copies(bus.backend, e.eventId) == (if first then 1 else 0) + (if second then 1 else 0)
            && (Copies(bus.backend, e.eventId) == 1 <==> first != second)
  {
    hide SubscriptionEntry.Valid, EventBus.LogValid, EventBus.SubsValid, TrailingPanics;
    hide Picked, Panics, Copies, Written;
    hide LastThreeFailed, EventBus.Matching, EventBus.Reaches;
    ghost var log, backend := bus.eventLog, bus.backend;
    r := bus.Publish(e, i => first, ends);
    ghost var stamped := e.(sequence := bus.sequence);
    WrittenLast(log, stamped, ok);
    CopiesSnoc(backend, stamped, e.eventId);
    CopiesAppend(bus.backend, Written(log + [stamped], ok), e.eventId);
    bus.FlushNow(ok);
    assert bus.backend == (backend + if first then [stamped] else []) + Written(log + [stamped], ok);
    assert backend + [] == backend;
  }

  lemma {:induction false} WrittenAll(batch: seq<Event>, ok: nat -> bool)
    requires forall i :: 0 <= i < |batch| ==> ok(i)
    ensures Written(batch, ok) == batch
  {
    if batch != [] {
      WrittenAll(batch[..|batch| - 1], ok);
      assert batch == batch[..|batch| - 1] + [batch[|batch| - 1]];
    }
  }
}
