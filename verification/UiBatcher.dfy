/**
 * The UI event batcher (src/event-bus/event-batcher.ts): events wait in an open batch, output
 * chunks and progress reports of one key coalesce into one slot, and a timer, a full batch or an
 * urgent event flushes.
 *
 * Ghost state remembers, slot by slot, which pushed events each emitted or waiting event stands
 * for; the invariant over it is the whole accounting of a run.
 */
module UiBatcher {
  import opened CoalescedSlots
  import opened Prelude

  datatype Stream = WorkerOutput | ProcessOutput {
    function TypeName(): string {
      match this
      case WorkerOutput => "worker.output_streamed"
      case ProcessOutput => "process.output_streamed"
    }
  }

  datatype Event =
    | Output(stream: Stream, workerId: Option<string>, processId: Option<string>, channel: string,
             chunk: string, chunkIndex: int, truncated: nat, sequence: int)
    | Progress(executionId: string, percent: int, sequence: int)
    | Plain(eventType: string, sequence: int)
  {
    function TypeName(): string {
      match this
      case Output(s, _, _, _, _, _, _, _) => s.TypeName()
      case Progress(_, _, _) => "execution.progress_reported"
      case Plain(t, _) => t
    }
  }

  /** Slots are grouped by coalescing key; plain events never coalesce and share one group. */
  datatype Key = OutputKey(name: string) | ProgressKey(name: string) | NoKey

  function SourceId(e: Event): string
    requires e.Output?
  {
    if e.workerId.Some? then e.workerId.value else if e.processId.Some? then e.processId.value else ""
  }

  function OutputName(s: Stream, sourceId: string, channel: string): string {
    s.TypeName() + ":" + sourceId + ":" + channel
  }

  function ProgressName(executionId: string): string {
    "execution.progress_reported:" + executionId
  }

  function KeyOf(e: Event): Key {
    match e
    case Output(s, _, _, channel, _, _, _, _) => OutputKey(OutputName(s, SourceId(e), channel))
    case Progress(id, _, _) => ProgressKey(ProgressName(id))
    case Plain(_, _) => NoKey
  }

  datatype Batch = Batch(events: seq<Event>, firstSequence: int, lastSequence: int, dropped: nat)

  /** Appending a chunk to a waiting output event; only the last `cap` characters are kept. */
  function Merged(slot: Event, e: Event, cap: nat): Event
    requires slot.Output? && e.Output?
  {
    var joined := slot.chunk + e.chunk;
    var kept := LastN(joined, cap);
    slot.(chunk := kept, chunkIndex := e.chunkIndex, truncated := slot.truncated + (|joined| - |kept|))
  }

  lemma SameKeySameKind(d: Event, e: Event)
    requires KeyOf(d) == KeyOf(e)
    ensures d.Output? <==> e.Output?
    ensures d.Progress? <==> e.Progress?
  {
  }

  // ----- What a key tells -----

  ghost predicate NameTells(s: Stream, source: string, channel: string) {
    forall s', source', channel' :: OutputName(s', source', channel') == OutputName(s, source, channel) ==>
      s' == s && source' == source && channel' == channel
  }

  /** A name tells its stream, source and channel against all others exactly when source and channel are free of ':'. */
  lemma NameTellsIff(s: Stream, source: string, channel: string)
    ensures NameTells(s, source, channel) <==> Free(source, ':') && Free(channel, ':')
  {
    hide OutputName, NameTells;
    if Free(source, ':') && Free(channel, ':') {
      FreeNameTells(s, source, channel);
    } else if !Free(source, ':') {
      var i :| 0 <= i < |source| && source[i] == ':';
      assert source == source[..i] + ":" + source[i + 1..];
      ColonMoves(s, source[..i], source[i + 1..], channel);
    } else {
      var i :| 0 <= i < |channel| && channel[i] == ':';
      assert channel == channel[..i] + ":" + channel[i + 1..];
      ColonMoves(s, source, channel[..i], channel[i + 1..]);
    }
  }

  lemma FreeNameTells(s: Stream, source: string, channel: string)
    requires Free(source, ':') && Free(channel, ':')
    ensures NameTells(s, source, channel)
  {
    hide OutputName;
    forall s', source', channel' | OutputName(s', source', channel') == OutputName(s, source, channel)
      ensures s' == s && source' == source && channel' == channel
    {
      SameStream(s', source', channel', s, source, channel);
      OneColon(source', channel', source, channel);
    }
  }

  /** What stands between two colons may belong to the source or to the channel. */
  lemma ColonMoves(s: Stream, a: string, b: string, c: string)
    ensures OutputName(s, a, b + ":" + c) == OutputName(s, a + ":" + b, c)
    ensures !NameTells(s, a, b + ":" + c) && !NameTells(s, a + ":" + b, c)
  {
    assert |a + ":" + b| > |a|;
  }

  lemma OneColon(a: string, x: string, b: string, y: string)
    requires a + ":" + x == b + ":" + y && Free(b, ':') && Free(y, ':')
    ensures a == b && x == y
  {
    assert multiset(a + ":" + x)[':'] == multiset(a)[':'] + 1 + multiset(x)[':'];
    assert multiset(b + ":" + y)[':'] == 1;
    SplitAtFirst(a, x, b, y, ':');
  }

  lemma SameStream(s: Stream, source: string, channel: string, s': Stream, source': string, channel': string)
    requires OutputName(s, source, channel) == OutputName(s', source', channel')
    ensures s == s' && source + ":" + channel == source' + ":" + channel'
  {
    NameStarts(s, source, channel);
    NameStarts(s', source', channel');
    hide OutputName;
    SplitAtFirst(s.TypeName(), source + ":" + channel, s'.TypeName(), source' + ":" + channel', ':');
    assert WorkerOutput.TypeName()[0] != ProcessOutput.TypeName()[0];
  }

  lemma NameStarts(s: Stream, source: string, channel: string)
    ensures OutputName(s, source, channel) == s.TypeName() + [':'] + (source + ":" + channel)
    ensures Free(s.TypeName(), ':')
  {
  }

  /** Where no channel has a ':', whatever the sources, one key is one stream, source and channel. */
  lemma CleanNamesDiffer(s: Stream, source: string, channel: string, s': Stream, source': string, channel': string)
    requires OutputName(s, source, channel) == OutputName(s', source', channel')
    requires Free(channel, ':') && Free(channel', ':')
    ensures s == s' && source == source' && channel == channel'
  {
    SameStream(s, source, channel, s', source', channel');
    LastPart(source, channel, source', channel');
    LastPart(source', channel', source, channel);
    var t, t' := source + ":" + channel, source' + ":" + channel';
    assert source == t[..|source|] && source' == t'[..|source'|];
    assert channel == t[|source| + 1..] && channel' == t'[|source'| + 1..];
  }

  lemma LastPart(a: string, x: string, b: string, y: string)
    requires a + ":" + x == b + ":" + y && Free(x, ':')
    ensures |x| <= |y|
  {
    var t := a + ":" + x;
    assert forall k :: |a| < k < |t| ==> t[k] == x[k - |a| - 1];
    assert t[|b|] == (b + ":" + y)[|b|] == ':';
  }

  /** The id that tells where an output event comes from: the worker's, else the process's, else none. */
  ghost predicate ComesFrom(e: Event, id: string) {
    e.Output? &&
    ((e.workerId == Some(id))
     || (e.workerId == None && e.processId == Some(id))
     || (e.workerId == None && e.processId == None && id == ""))
  }

  /** The same type of output, on the same channel, of the same worker or process. */
  ghost predicate SameOutput(d: Event, e: Event) {
    d.Output? && e.Output? && d.stream == e.stream && d.channel == e.channel
    && exists id :: ComesFrom(d, id) && ComesFrom(e, id)
  }

  lemma ComesFromOne(e: Event)
    requires e.Output?
    ensures forall id :: ComesFrom(e, id) <==> id == SourceId(e)
  {
  }

  /** On channels without ':' output events share a key exactly when they are of one type, channel and source. */
  lemma OutputKeysAgreeIff(d: Event, e: Event)
    requires d.Output? && e.Output? && Free(d.channel, ':') && Free(e.channel, ':')
    ensures KeyOf(d) == KeyOf(e) <==> SameOutput(d, e)
  {
    ComesFromOne(d);
    ComesFromOne(e);
    if KeyOf(d) == KeyOf(e) {
      CleanNamesDiffer(d.stream, SourceId(d), d.channel, e.stream, SourceId(e), e.channel);
      assert ComesFrom(d, SourceId(d)) && ComesFrom(e, SourceId(d));
    }
  }

  /** Progress reports share a key exactly when they report on one execution. */
  lemma ProgressKeysAgreeIff(d: Event, e: Event)
    requires d.Progress?
    ensures KeyOf(d) == KeyOf(e) <==> e.Progress? && d.executionId == e.executionId
  {
    if e.Progress? {
      var p := ProgressName("");
      assert d.executionId == ProgressName(d.executionId)[|p|..];
      assert e.executionId == ProgressName(e.executionId)[|p|..];
    }
  }

  /** The type names the events are published under. */
  lemma TypeNamesAre(e: Event)
    ensures e.Output? && e.stream == WorkerOutput ==> e.TypeName() == "worker.output_streamed"
    ensures e.Output? && e.stream == ProcessOutput ==> e.TypeName() == "process.output_streamed"
    ensures e.Progress? ==> e.TypeName() == "execution.progress_reported"
    ensures e.Plain? ==> e.TypeName() == e.eventType
  {
  }

  // ----- What a slot stands for -----

  function Chunks(es: seq<Event>): string {
    if es == [] then ""
    else Chunks(es[..|es| - 1]) + (if es[|es| - 1].Output? then es[|es| - 1].chunk else "")
  }

  /** The event in a slot is determined by the pushed events that went into it. */
  ghost predicate StandsFor(slot: Event, from: seq<Event>, cap: nat) {
    && from != []
    && (forall e :: e in from ==> KeyOf(e) == KeyOf(slot))
    && match slot
       case Plain(_, _) => from == [slot]
       case Progress(_, _, _) => slot == from[|from| - 1]
       case Output(_, _, _, _, _, _, _, _) =>
         && from[0].Output? && from[|from| - 1].Output?
         && slot == from[0].(chunk := slot.chunk, chunkIndex := from[|from| - 1].chunkIndex,
                             truncated := slot.truncated)
         && slot.chunk == (if |from| == 1 then Chunks(from) else LastN(Chunks(from), cap))
         && slot.truncated == from[0].truncated + |Chunks(from)| - |slot.chunk|
  }

  /** Cutting to the last `cap` characters before appending more makes no difference to the last `cap`. */
  lemma CutBeforeAppend(s: string, t: string, cap: nat)
    ensures LastN(LastN(s, cap) + t, cap) == LastN(s + t, cap)
    ensures |LastN(s, cap) + t| <= |s + t|
  {
    if |s| > cap {
      var gone, kept := s[..|s| - cap], LastN(s, cap);
      assert s == gone + kept;
      ConcatAssociates(gone, kept, t);
      LastNOfAppend(gone, kept + t, cap);
    }
  }

  lemma LastNOfAppend(a: string, b: string, n: nat)
    requires |b| >= n
    ensures LastN(a + b, n) == LastN(b, n)
  {
  }

  lemma ChunksSnoc(es: seq<Event>, e: Event)
    ensures Chunks(es + [e]) == Chunks(es) + (if e.Output? then e.chunk else "")
  {
    assert (es + [e])[..|es|] == es;
  }

  lemma MergeStandsFor(slot: Event, from: seq<Event>, e: Event, cap: nat)
    requires StandsFor(slot, from, cap) && e.Output? && KeyOf(e) == KeyOf(slot)
    ensures slot.Output? && StandsFor(Merged(slot, e, cap), from + [e], cap)
  {
    SameKeySameKind(slot, e);
    ChunksSnoc(from, e);
    MergedChunk(slot, from, e, cap);
    var m, all := Merged(slot, e, cap), from + [e];
    assert |all| > 1 && all[0] == from[0] && all[|all| - 1] == e;
    forall d | d in all ensures KeyOf(d) == KeyOf(m) {
      assert d in from || d == e;
    }
  }

  lemma MergedChunk(slot: Event, from: seq<Event>, e: Event, cap: nat)
    requires slot.Output? && e.Output? && from != []
    requires slot.chunk == (if |from| == 1 then Chunks(from) else LastN(Chunks(from), cap))
    ensures Merged(slot, e, cap).chunk == LastN(Chunks(from) + e.chunk, cap)
    ensures Merged(slot, e, cap).truncated == slot.truncated + |slot.chunk| + |e.chunk| - |Merged(slot, e, cap).chunk|
  {
    CutBeforeAppend(Chunks(from), e.chunk, cap);
  }

  lemma ReplaceStandsFor(slot: Event, from: seq<Event>, e: Event, cap: nat)
    requires StandsFor(slot, from, cap) && e.Progress? && KeyOf(e) == KeyOf(slot)
    ensures StandsFor(e, from + [e], cap)
  {
  }

  lemma SingleStandsFor(e: Event, cap: nat)
    ensures StandsFor(e, [e], cap)
  {
    assert [e][..0] == [];
    assert Chunks([]) == "";
  }

  /**
   * What a slot promises its reader: a suffix of what was pushed, the missing part counted, and the
   * cap kept after a merge.
   */
  lemma SlotAccounting(slot: Event, from: seq<Event>, cap: nat)
    requires StandsFor(slot, from, cap) && slot.Output?
    ensures |slot.chunk| <= |Chunks(from)| && slot.chunk == Chunks(from)[|Chunks(from)| - |slot.chunk|..]
    ensures |slot.chunk| + slot.truncated == |Chunks(from)| + from[0].truncated
    ensures |from| >= 2 ==> |slot.chunk| <= cap
    ensures slot.truncated == from[0].truncated ==> slot.chunk == Chunks(from)
  {
    hide KeyOf, Chunks;
  }

  // ----- The open batch -----

  ghost predicate SlotsMatch(open: seq<Event>, slots: seq<seq<Event>>, cap: nat) {
    |slots| == |open| && forall i :: 0 <= i < |open| ==> StandsFor(open[i], slots[i], cap)
  }

  function AsOutput(): string -> Key { (s: string) => OutputKey(s) }

  function AsProgress(): string -> Key { (s: string) => ProgressKey(s) }

  /** The open batch after an event joins it: into its key's slot if there is one, else at the end. */
  function Placed(open: seq<Event>, e: Event, cap: nat): seq<Event> {
    if e.Plain? then open + [e]
    else match LastWith(open, KeyOf, KeyOf(e))
         case None => open + [e]
         case Some(i) =>
           SameKeySameKind(open[i], e);
           open[i := if e.Output? then Merged(open[i], e, cap) else e]
  }

  function BatchOf(open: seq<Event>, dropped: nat): Batch
    requires open != []
  {
    Batch(open, open[0].sequence, open[|open| - 1].sequence, dropped)
  }

  // ----- Sums over the emitted batches -----

  function DropsIn(bs: seq<Batch>): nat {
    if bs == [] then 0 else DropsIn(bs[..|bs| - 1]) + bs[|bs| - 1].dropped
  }

  lemma SumsSnoc(bs: seq<Batch>, b: Batch)
    ensures DropsIn(bs + [b]) == DropsIn(bs) + b.dropped
  {
    assert (bs + [b])[..|bs|] == bs;
  }

  // ----- The accounting of a run -----

  /** The emitted batches stand for their slots, and their drop counts with the pending one make up all drops. */
  ghost predicate Ledger(emitted: seq<Batch>, done: seq<seq<seq<Event>>>, pending: nat, drops: nat, cap: nat) {
    && |done| == |emitted|
    && (forall b :: 0 <= b < |emitted| ==> SlotsMatch(emitted[b].events, done[b], cap))
    && drops == DropsIn(emitted) + pending
  }

  lemma LedgerSnoc(emitted: seq<Batch>, done: seq<seq<seq<Event>>>, pending: nat, drops: nat, cap: nat,
                   b: Batch, slots: seq<seq<Event>>, pending': nat)
    requires Ledger(emitted, done, pending, drops, cap) && SlotsMatch(b.events, slots, cap)
    requires b.dropped + pending' == pending
    ensures Ledger(emitted + [b], done + [slots], pending', drops, cap)
  {
    SumsSnoc(emitted, b);
  }

  /** A slot that lost nothing contributes to its key's stream exactly what was pushed into it. */
  lemma SlotContribution(slot: Event, from: seq<Event>, k: Key, cap: nat)
    requires StandsFor(slot, from, cap) && k.OutputKey?
    requires KeyOf(slot) == k ==> Untruncated(slot, from)
    ensures Chunks(Filter([slot], HasKey(KeyOf, k))) == Chunks(Filter(from, HasKey(KeyOf, k)))
  {
    if KeyOf(slot) == k {
      FilterAll([slot], HasKey(KeyOf, k));
      FilterAll(from, HasKey(KeyOf, k));
      SlotAccounting(slot, from, cap);
      SingleStandsFor(slot, cap);
    } else {
      FilterNone([slot], HasKey(KeyOf, k));
      FilterNone(from, HasKey(KeyOf, k));
    }
  }

  ghost predicate Untruncated(slot: Event, from: seq<Event>) {
    slot.Output? && from != [] && from[0].Output? && slot.truncated == from[0].truncated
  }

  /** An output slot keeps the channel of its first push. */
  lemma FirstIsBehind(slot: Event, from: seq<Event>, cap: nat)
    requires StandsFor(slot, from, cap)
    ensures from != [] && (slot.Output? ==> from[0].Output? && slot.channel == from[0].channel)
  {
  }

  /** Behind a slot there are only pushes of the output, or the execution, that the slot shows. */
  lemma OneSourceBehindSlot(events: seq<Event>, slots: seq<seq<Event>>, cap: nat, i: nat, e: Event)
    requires SlotsMatch(events, slots, cap) && i < |events| && e in slots[i]
    requires e.Output? ==> Free(e.channel, ':')
    requires events[i].Output? ==> Free(events[i].channel, ':')
    ensures events[i].Output? ==> SameOutput(events[i], e)
    ensures events[i].Progress? ==> e.Progress? && e.executionId == events[i].executionId
    ensures events[i].Plain? ==> e == events[i]
  {
    assert StandsFor(events[i], slots[i], cap);
    SameKeySameKind(e, events[i]);
    if e.Output? {
      OutputKeysAgreeIff(events[i], e);
    } else if e.Progress? {
      ProgressKeysAgreeIff(events[i], e);
    }
  }

  /** Where nothing of a key was truncated, its chunks in the slots spell out what was pushed, in order. */
  lemma {:induction false} UntruncatedStream(events: seq<Event>, slots: seq<seq<Event>>, k: Key, cap: nat)
    requires SlotsMatch(events, slots, cap) && k.OutputKey?
    requires KeyUntruncated(events, slots, k)
    ensures Chunks(Filter(events, HasKey(KeyOf, k))) == Chunks(Behind(slots, KeyOf, k))
  {
    hide StandsFor, Untruncated, KeyOf;
    if events != [] {
      var n := |events| - 1;
      var before, below := events[..n], slots[..n];
      assert events == before + [events[n]] && slots == below + [slots[n]];
      UntruncatedSplit(events, slots, k, cap);
      UntruncatedStream(before, below, k, cap);
      UntruncatedStep(before, below, events[n], slots[n], k, cap);
      BehindSnoc(below, slots[n], KeyOf, k);
    }
  }

  ghost predicate KeyUntruncated(events: seq<Event>, slots: seq<seq<Event>>, k: Key) {
    |slots| == |events| && forall i :: 0 <= i < |events| && KeyOf(events[i]) == k ==> Untruncated(events[i], slots[i])
  }

  lemma UntruncatedSplit(events: seq<Event>, slots: seq<seq<Event>>, k: Key, cap: nat)
    requires events != [] && SlotsMatch(events, slots, cap) && KeyUntruncated(events, slots, k)
    ensures SlotsMatch(events[..|events| - 1], slots[..|events| - 1], cap)
    ensures KeyUntruncated(events[..|events| - 1], slots[..|events| - 1], k)
    ensures StandsFor(events[|events| - 1], slots[|events| - 1], cap)
  {
  }

  lemma UntruncatedStep(events: seq<Event>, slots: seq<seq<Event>>, slot: Event, from: seq<Event>, k: Key, cap: nat)
    requires Chunks(Filter(events, HasKey(KeyOf, k))) == Chunks(Behind(slots, KeyOf, k))
    requires StandsFor(slot, from, cap) && k.OutputKey? && (KeyOf(slot) == k ==> Untruncated(slot, from))
    ensures Chunks(Filter(events + [slot], HasKey(KeyOf, k)))
         == Chunks(Behind(slots, KeyOf, k) + Filter(from, HasKey(KeyOf, k)))
  {
    SlotContribution(slot, from, k, cap);
    FilterAppend(events, [slot], HasKey(KeyOf, k));
    ChunksAppend(Filter(events, HasKey(KeyOf, k)), Filter([slot], HasKey(KeyOf, k)));
    ChunksAppend(Behind(slots, KeyOf, k), Filter(from, HasKey(KeyOf, k)));
  }

  lemma {:induction false} ChunksAppend(a: seq<Event>, b: seq<Event>)
    ensures Chunks(a + b) == Chunks(a) + Chunks(b)
    decreases |b|
  {
    if b == [] {
      assert a + b == a;
    } else {
      var front, last := b[..|b| - 1], b[|b| - 1];
      ChunksAppend(a, front);
      assert b == front + [last];
      ConcatAssociates(a, front, [last]);
      ChunksSnoc(a + front, last);
      ChunksSnoc(front, last);
      ConcatAssociates(Chunks(a), Chunks(front), if last.Output? then last.chunk else "");
    }
  }

  lemma SlotLength(slot: Event, from: seq<Event>, k: Key, cap: nat)
    requires StandsFor(slot, from, cap) && k.OutputKey?
    ensures |Chunks(Filter([slot], HasKey(KeyOf, k)))| <= |Chunks(Filter(from, HasKey(KeyOf, k)))|
    ensures |Chunks(Filter([slot], HasKey(KeyOf, k)))| == |Chunks(Filter(from, HasKey(KeyOf, k)))|
       <==> (KeyOf(slot) == k ==> Untruncated(slot, from))
  {
    if KeyOf(slot) == k {
      FilterAll([slot], HasKey(KeyOf, k));
      FilterAll(from, HasKey(KeyOf, k));
      SlotAccounting(slot, from, cap);
      SingleStandsFor(slot, cap);
    } else {
      FilterNone([slot], HasKey(KeyOf, k));
      FilterNone(from, HasKey(KeyOf, k));
    }
  }

  /** The slots of a key show no more than was pushed, and as much exactly when nothing of the key was truncated. */
  lemma {:induction false} StreamLength(events: seq<Event>, slots: seq<seq<Event>>, k: Key, cap: nat)
    requires SlotsMatch(events, slots, cap) && k.OutputKey?
    ensures |Chunks(Filter(events, HasKey(KeyOf, k)))| <= |Chunks(Behind(slots, KeyOf, k))|
    ensures |Chunks(Filter(events, HasKey(KeyOf, k)))| == |Chunks(Behind(slots, KeyOf, k))|
       <==> KeyUntruncated(events, slots, k)
  {
    hide StandsFor, Untruncated, KeyOf, Chunks;
    if events != [] {
      var n := |events| - 1;
      var before, below := events[..n], slots[..n];
      assert events == before + [events[n]] && slots == below + [slots[n]];
      StreamLength(before, below, k, cap);
      SlotLength(events[n], slots[n], k, cap);
      FilterAppend(before, [events[n]], HasKey(KeyOf, k));
      ChunksAppend(Filter(before, HasKey(KeyOf, k)), Filter([events[n]], HasKey(KeyOf, k)));
      BehindSnoc(below, slots[n], KeyOf, k);
      ChunksAppend(Behind(below, KeyOf, k), Filter(slots[n], HasKey(KeyOf, k)));
      UntruncatedSnoc(before, below, events[n], slots[n], k);
    }
  }

  lemma UntruncatedSnoc(events: seq<Event>, slots: seq<seq<Event>>, slot: Event, from: seq<Event>, k: Key)
    requires |events| == |slots|
    ensures KeyUntruncated(events + [slot], slots + [from], k)
       <==> KeyUntruncated(events, slots, k) && (KeyOf(slot) == k ==> Untruncated(slot, from))
  {
    var es, ss := events + [slot], slots + [from];
    assert es[|events|] == slot && ss[|events|] == from;
    assert forall i :: 0 <= i < |events| ==> es[i] == events[i] && ss[i] == slots[i];
  }

  // ----- A whole run -----

  /** The events of the emitted batches, in order of emission. */
  function EmittedEvents(bs: seq<Batch>): seq<Event> {
    if bs == [] then [] else EmittedEvents(bs[..|bs| - 1]) + bs[|bs| - 1].events
  }

  lemma {:induction false} EmittedMatchSlots(emitted: seq<Batch>, done: seq<seq<seq<Event>>>, cap: nat)
    requires |done| == |emitted| && forall b :: 0 <= b < |emitted| ==> SlotsMatch(emitted[b].events, done[b], cap)
    ensures SlotsMatch(EmittedEvents(emitted), Flatten(done), cap)
  {
    if emitted != [] {
      var n := |emitted| - 1;
      EmittedMatchSlots(emitted[..n], done[..n], cap);
      SlotsMatchAppend(EmittedEvents(emitted[..n]), Flatten(done[..n]), emitted[n].events, done[n], cap);
    }
  }

  lemma SlotsMatchAppend(a: seq<Event>, s: seq<seq<Event>>, b: seq<Event>, t: seq<seq<Event>>, cap: nat)
    requires SlotsMatch(a, s, cap) && SlotsMatch(b, t, cap)
    ensures SlotsMatch(a + b, s + t, cap)
  {
  }

  /**
   * The chunks emitted so far for an output key, followed by the one still open, are the chunks
   * pushed, in order, exactly when none of the key's events lost a character.
   */
  lemma StreamSurvives(history: seq<Event>, done: seq<seq<seq<Event>>>, slots: seq<seq<Event>>, open: seq<Event>,
                       outputs: map<string, nat>, progress: map<string, nat>, cap: nat,
                       emitted: seq<Batch>, pending: nat, drops: nat, k: Key)
    requires Batching(history, done, slots, open, outputs, progress, cap) && Ledger(emitted, done, pending, drops, cap)
    requires k.OutputKey?
    ensures Chunks(Filter(EmittedEvents(emitted) + open, HasKey(KeyOf, k))) == Chunks(Filter(history, HasKey(KeyOf, k)))
       <==> KeyUntruncated(EmittedEvents(emitted) + open, Flatten(done) + slots, k)
  {
    hide StandsFor, Untruncated, KeyOf, Chunks, Indexes, InBirthOrder, KeyUntruncated;
    EmittedMatchSlots(emitted, done, cap);
    SlotsMatchAppend(EmittedEvents(emitted), Flatten(done), open, slots, cap);
    var shown, pushed := EmittedEvents(emitted) + open, Flatten(done) + slots;
    StreamLength(shown, pushed, k, cap);
    if KeyUntruncated(shown, pushed, k) {
      UntruncatedStream(shown, pushed, k, cap);
    }
  }

  lemma FlushLedger(emitted: seq<Batch>, done: seq<seq<seq<Event>>>, pending: nat, drops: nat, cap: nat,
                    open: seq<Event>, slots: seq<seq<Event>>)
    requires Ledger(emitted, done, pending, drops, cap) && SlotsMatch(open, slots, cap) && open != []
    ensures Ledger(emitted + [BatchOf(open, pending)], done + [slots], 0, drops, cap)
    ensures BatchOf(open, pending).events == open
  {
    LedgerSnoc(emitted, done, pending, drops, cap, BatchOf(open, pending), slots, 0);
  }

  // ----- The sequence numbers of a batch -----

  /** How many events are behind the slots. */
  function Size(slots: seq<seq<Event>>): nat {
    if slots == [] then 0 else Size(slots[..|slots| - 1]) + |slots[|slots| - 1]|
  }

  /** The pushes behind the open slots: those since the batch was opened. */
  function Since(history: seq<Event>, slots: seq<seq<Event>>): seq<Event> {
    LastN(history, Size(slots))
  }

  lemma SizeSnoc(slots: seq<seq<Event>>, from: seq<Event>)
    ensures Size(slots + [from]) == Size(slots) + |from|
  {
    assert (slots + [from])[..|slots|] == slots;
  }

  lemma {:induction false} SizeGrows(slots: seq<seq<Event>>, i: nat, e: Event)
    requires i < |slots|
    ensures Size(Grown(slots, i, e)) == Size(slots) + 1
  {
    var n := |slots| - 1;
    if i < n {
      assert Grown(slots, i, e)[..n] == Grown(slots[..n], i, e);
      SizeGrows(slots[..n], i, e);
    } else {
      assert Grown(slots, i, e)[..n] == slots[..n];
    }
  }

  lemma LastNSnoc(history: seq<Event>, n: nat, e: Event)
    requires n <= |history|
    ensures LastN(history + [e], n + 1) == LastN(history, n) + [e]
  {
  }

  /** Pushed in the order of their sequence numbers. */
  ghost predicate Numbered(history: seq<Event>) {
    forall i, j :: 0 <= i < j < |history| ==> history[i].sequence < history[j].sequence
  }

  /** Slots hold pushed events; the first event of each is older than the others of its slot and all of later slots. */
  ghost predicate InBirthOrder(history: seq<Event>, slots: seq<seq<Event>>) {
    && (forall i :: 0 <= i < |slots| ==> slots[i] != [])
    && (forall i, n :: 0 <= i < |slots| && 0 <= n < |slots[i]| ==> slots[i][n] in history)
    && (Numbered(history) ==> HeadsFirst(slots))
  }

  ghost predicate HeadsFirst(slots: seq<seq<Event>>)
    requires forall i :: 0 <= i < |slots| ==> slots[i] != []
  {
    forall i, j, n :: 0 <= i <= j < |slots| && 0 <= n < |slots[j]| && (i < j || n > 0) ==>
      slots[i][0].sequence < slots[j][n].sequence
  }

  lemma NewestNumber(history: seq<Event>, e: Event)
    requires Numbered(history + [e])
    ensures Numbered(history) && forall d :: d in history ==> d.sequence < e.sequence
  {
    var h := history + [e];
    forall i, j | 0 <= i < j < |history| ensures history[i].sequence < history[j].sequence {
      assert h[i].sequence < h[j].sequence;
    }
    forall d | d in history ensures d.sequence < e.sequence {
      var i :| 0 <= i < |history| && history[i] == d;
      assert h[i].sequence < h[|history|].sequence;
    }
  }

  lemma BirthOfSlot(history: seq<Event>, slots: seq<seq<Event>>, e: Event)
    requires Size(slots) <= |history| && InBirthOrder(Since(history, slots), slots)
    ensures Size(slots + [[e]]) <= |history + [e]|
    ensures InBirthOrder(Since(history + [e], slots + [[e]]), slots + [[e]])
  {
    hide InBirthOrder, Size, LastN;
    SizeSnoc(slots, [e]);
    LastNSnoc(history, Size(slots), e);
    SlotIsYoungest(Since(history, slots), slots, e);
  }

  lemma SlotIsYoungest(history: seq<Event>, slots: seq<seq<Event>>, e: Event)
    requires InBirthOrder(history, slots)
    ensures InBirthOrder(history + [e], slots + [[e]])
  {
    if Numbered(history + [e]) {
      NewestNumber(history, e);
    }
  }

  lemma BirthOrderGrows(history: seq<Event>, slots: seq<seq<Event>>, i: nat, e: Event)
    requires Size(slots) <= |history| && InBirthOrder(Since(history, slots), slots) && i < |slots|
    ensures Size(Grown(slots, i, e)) <= |history + [e]|
    ensures InBirthOrder(Since(history + [e], Grown(slots, i, e)), Grown(slots, i, e))
  {
    hide InBirthOrder, Size, LastN, Grown;
    SizeGrows(slots, i, e);
    LastNSnoc(history, Size(slots), e);
    MemberIsYoungest(Since(history, slots), slots, i, e);
  }

  lemma MemberIsYoungest(history: seq<Event>, slots: seq<seq<Event>>, i: nat, e: Event)
    requires InBirthOrder(history, slots) && i < |slots|
    ensures InBirthOrder(history + [e], Grown(slots, i, e))
  {
    if Numbered(history + [e]) {
      NewestNumber(history, e);
    }
  }

  /** Of the events behind a slot, the one whose sequence number the slot shows. */
  function Shown(from: seq<Event>): Event
    requires from != []
  {
    if from[0].Progress? then from[|from| - 1] else from[0]
  }

  ghost predicate PushedBefore(history: seq<Event>, d: Event, e: Event) {
    exists i, j :: 0 <= i < j < |history| && history[i] == d && history[j] == e
  }

  lemma PushedBeforeIff(history: seq<Event>, d: Event, e: Event)
    requires Numbered(history) && d in history && e in history
    ensures PushedBefore(history, d, e) <==> d.sequence < e.sequence
  {
    var i :| 0 <= i < |history| && history[i] == d;
    var j :| 0 <= j < |history| && history[j] == e;
    assert i < j ==> d.sequence < e.sequence;
    assert j < i ==> e.sequence < d.sequence;
    assert d.sequence < e.sequence ==> i < j;
  }

  lemma SlotShows(slot: Event, from: seq<Event>, cap: nat)
    requires StandsFor(slot, from, cap)
    ensures from != [] && slot.sequence == Shown(from).sequence && Shown(from) in from
    ensures slot.Progress? <==> from[0].Progress?
  {
    assert from[0] in from;
    SameKeySameKind(from[0], slot);
  }

  /**
   * When the events of a batch were pushed in sequence, its first sequence number exceeds its last
   * exactly when it has several slots, the first is a progress report, and that was renewed after
   * the event the last slot shows. What was pushed before the batch was opened does not matter.
   */
  lemma FirstExceedsLastIff(history: seq<Event>, done: seq<seq<seq<Event>>>, slots: seq<seq<Event>>, open: seq<Event>,
                            outputs: map<string, nat>, progress: map<string, nat>, cap: nat, dropped: nat)
    requires Batching(history, done, slots, open, outputs, progress, cap) && open != []
    requires Numbered(Since(history, slots))
    ensures BatchOf(open, dropped).firstSequence > BatchOf(open, dropped).lastSequence
       <==> |open| >= 2 && open[0].Progress?
            && PushedBefore(Since(history, slots), Shown(slots[|open| - 1]), slots[0][|slots[0]| - 1])
  {
    hide Accounted, Indexes, StandsFor, Numbered, PushedBefore, Size, Since;
    var n := |open| - 1;
    assert StandsFor(open[0], slots[0], cap) && StandsFor(open[n], slots[n], cap);
    SlotShows(open[0], slots[0], cap);
    SlotShows(open[n], slots[n], cap);
    if open[0].Progress? {
      PushedBeforeIff(Since(history, slots), Shown(slots[n]), slots[0][|slots[0]| - 1]);
    } else if n > 0 {
      var k :| 0 <= k < |slots[n]| && slots[n][k] == Shown(slots[n]);
      assert slots[0][0].sequence < slots[n][k].sequence;
    }
  }

  /** A progress report renewed in place makes a batch whose first number is above its last. */
  lemma RenewedProgressReverses(id: string, t: string, cap: nat)
    ensures var two := Placed(Placed([], Progress(id, 10, 1), cap), Plain(t, 2), cap);
            var open := Placed(two, Progress(id, 20, 3), cap);
            && open == [Progress(id, 20, 3), Plain(t, 2)]
            && BatchOf(open, 0).firstSequence == 3 && BatchOf(open, 0).lastSequence == 2
  {
    var one := Placed([], Progress(id, 10, 1), cap);
    assert one == [Progress(id, 10, 1)];
    var two := Placed(one, Plain(t, 2), cap);
    assert two == [Progress(id, 10, 1), Plain(t, 2)];
    var k := KeyOf(Progress(id, 20, 3));
    assert KeyOf(two[0]) == k && KeyOf(two[1]) != k;
    assert LastWith(two, KeyOf, k) == Some(0);
    assert Placed(two, Progress(id, 20, 3), cap) == two[0 := Progress(id, 20, 3)];
  }

  // ----- The object -----

  class UiBatcher {
    const maxSize: int
    const cap: nat
    const immediate: string -> bool
    var openBatch: seq<Event>
    var outputCoalesceMap: map<string, nat>
    var progressCoalesceMap: map<string, nat>
    var timerArmed: bool
    var droppedSinceLastBatch: nat
    var totalEventsBatched: nat
    /** The batches handed to the flush callback so far. */
    var emitted: seq<Batch>

    ghost var history: seq<Event>
    ghost var drops: nat
    ghost var openSlots: seq<seq<Event>>
    ghost var emittedSlots: seq<seq<seq<Event>>>

    /** The invariant without the timer and the size bound, which a push breaks for a moment. */
    ghost predicate Accounts()
      reads this
    {
      && Batching(history, emittedSlots, openSlots, openBatch, outputCoalesceMap, progressCoalesceMap, cap)
      && Ledger(emitted, emittedSlots, droppedSinceLastBatch, drops, cap)
    }

    ghost predicate Valid()
      reads this
    {
      Accounts() && (timerArmed <==> openBatch != []) && |openBatch| < Max(1, maxSize)
    }

    constructor (maxSize: int, cap: nat, immediate: string -> bool)
      ensures Valid() && openBatch == [] && emitted == [] && history == [] && drops == 0
      ensures this.maxSize == maxSize && this.cap == cap && this.immediate == immediate
    {
      hide Batching, Ledger;
      NothingBatched(cap);
      this.maxSize, this.cap, this.immediate := maxSize, cap, immediate;
      openBatch, outputCoalesceMap, progressCoalesceMap := [], map[], map[];
      timerArmed, droppedSinceLastBatch, totalEventsBatched, emitted := false, 0, 0, [];
      history, drops, openSlots, emittedSlots := [], 0, [], [];
    }

    /** A push places the event in the open batch, or emits it at once after everything that waited. */
    method Push(event: Event)
      requires Valid()
      modifies this
      ensures Valid()
      ensures history == old(history) + [event] && drops == old(drops)
      ensures immediate(event.TypeName()) ==>
                && openBatch == []
                && emitted == old(emitted)
                     + (if old(openBatch) == [] then [] else [BatchOf(old(openBatch), old(droppedSinceLastBatch))])
                     + [Batch([event], event.sequence, event.sequence, 0)]
      ensures !immediate(event.TypeName()) ==>
                var placed := Placed(old(openBatch), event, cap);
                if |placed| > |old(openBatch)| && |placed| >= maxSize then
                  openBatch == [] && emitted == old(emitted) + [BatchOf(placed, old(droppedSinceLastBatch))]
                else
                  openBatch == placed && emitted == old(emitted) && droppedSinceLastBatch == old(droppedSinceLastBatch)
    {
      hide Batching, Ledger;
      if immediate(event.TypeName()) {
        if |openBatch| > 0 {
          Flush();
        }
        EmitAlone(event);
        return;
      }
      match event {
        case Output(s, _, _, channel, _, _, _, _) =>
          var key := OutputName(s, SourceId(event), channel);
          OutputLookup(history, emittedSlots, openSlots, openBatch, outputCoalesceMap, progressCoalesceMap, cap, event);
          if key in outputCoalesceMap && outputCoalesceMap[key] < |openBatch| {
            Coalesce(outputCoalesceMap[key], event);
            return;
          }
        case Progress(id, _, _) =>
          var key := ProgressName(id);
          ProgressLookup(history, emittedSlots, openSlots, openBatch, outputCoalesceMap, progressCoalesceMap,
                         cap, event);
          if key in progressCoalesceMap && progressCoalesceMap[key] < |openBatch| {
            Coalesce(progressCoalesceMap[key], event);
            return;
          }
        case Plain(_, _) =>
      }
      Append(event);
      MaybeScheduleFlush();
    }

    /** At every moment the stream of an output key is intact exactly when no event of the key lost a character. */
    lemma StreamIntactIff(k: Key)
      requires Valid() && k.OutputKey?
      ensures Chunks(Filter(EmittedEvents(emitted) + openBatch, HasKey(KeyOf, k)))
                == Chunks(Filter(history, HasKey(KeyOf, k)))
         <==> KeyUntruncated(EmittedEvents(emitted) + openBatch, Flatten(emittedSlots) + openSlots, k)
    {
      StreamSurvives(history, emittedSlots, openSlots, openBatch, outputCoalesceMap, progressCoalesceMap, cap,
                     emitted, droppedSinceLastBatch, drops, k);
    }

    /** At every moment an event of an emitted batch or of the open one stands for pushes of its own source only. */
    lemma SourcesStayApart(i: nat, e: Event)
      requires Valid() && forall d :: d in history && d.Output? ==> Free(d.channel, ':')
      requires i < |Flatten(emittedSlots) + openSlots| && e in (Flatten(emittedSlots) + openSlots)[i]
      ensures |EmittedEvents(emitted) + openBatch| == |Flatten(emittedSlots) + openSlots|
      ensures var shown := (EmittedEvents(emitted) + openBatch)[i];
              && (shown.Output? ==> SameOutput(shown, e))
              && (shown.Progress? ==> e.Progress? && e.executionId == shown.executionId)
              && (shown.Plain? ==> e == shown)
    {
      hide StandsFor, Indexes, InBirthOrder, SameOutput, ComesFrom;
      var events, slots := EmittedEvents(emitted) + openBatch, Flatten(emittedSlots) + openSlots;
      EmittedMatchSlots(emitted, emittedSlots, cap);
      SlotsMatchAppend(EmittedEvents(emitted), Flatten(emittedSlots), openBatch, openSlots, cap);
      BehindIsPushed(history, slots, KeyOf, i, e);
      FirstIsBehind(events[i], slots[i], cap);
      BehindIsPushed(history, slots, KeyOf, i, slots[i][0]);
      OneSourceBehindSlot(events, slots, cap, i, e);
    }

    /** Counts an event the bus had to drop. */
    method RecordDrop()
      requires Valid()
      modifies this
      ensures Valid() && drops == old(drops) + 1 && droppedSinceLastBatch == old(droppedSinceLastBatch) + 1
      ensures openBatch == old(openBatch) && emitted == old(emitted) && history == old(history)
    {
      droppedSinceLastBatch := droppedSinceLastBatch + 1;
      drops := drops + 1;
    }

    /** Emits the open batch, if there is anything in it, and disarms the timer. */
    method Flush()
      requires Accounts()
      modifies this
      ensures Accounts() && !timerArmed && openBatch == [] && Valid()
      ensures history == old(history) && drops == old(drops)
      ensures old(openBatch) == [] ==> emitted == old(emitted) && droppedSinceLastBatch == old(droppedSinceLastBatch)
      ensures old(openBatch) != [] ==>
                && emitted == old(emitted) + [BatchOf(old(openBatch), old(droppedSinceLastBatch))]
                && droppedSinceLastBatch == 0
      ensures totalEventsBatched == old(totalEventsBatched) + |old(openBatch)|
    {
      hide Batching, Ledger, BatchOf, SlotsMatch;
      timerArmed := false;
      if |openBatch| == 0 {
        return;
      }
      var batch := BatchOf(openBatch, droppedSinceLastBatch);
      FlushKeeps(history, emittedSlots, openSlots, openBatch, outputCoalesceMap, progressCoalesceMap, cap);
      FlushLedger(emitted, emittedSlots, droppedSinceLastBatch, drops, cap, openBatch, openSlots);
      emittedSlots, openSlots := emittedSlots + [openSlots], [];
      openBatch := [];
      droppedSinceLastBatch := 0;
      outputCoalesceMap, progressCoalesceMap := map[], map[];
      totalEventsBatched := totalEventsBatched + |batch.events|;
      emitted := emitted + [batch];
    }

    /** The timer callback. */
    method OnTimer()
      requires Valid() && timerArmed
      modifies this
      ensures Valid() && openBatch == [] && history == old(history) && drops == old(drops)
      ensures emitted == old(emitted) + [BatchOf(old(openBatch), old(droppedSinceLastBatch))]
    {
      timerArmed := false;
      Flush();
    }

    method EmitAlone(event: Event)
      requires Valid() && openBatch == []
      modifies this
      ensures Valid() && openBatch == []
      ensures history == old(history) + [event] && drops == old(drops)
      ensures emitted == old(emitted) + [Batch([event], event.sequence, event.sequence, 0)]
    {
      hide Batching, Ledger;
      var batch := Batch([event], event.sequence, event.sequence, 0);
      EmitAloneKeeps(history, emittedSlots, openSlots, outputCoalesceMap, progressCoalesceMap, event, cap);
      LedgerSnoc(emitted, emittedSlots, droppedSinceLastBatch, drops, cap, batch, [[event]], droppedSinceLastBatch);
      history, emittedSlots := history + [event], emittedSlots + [[[event]]];
      emitted := emitted + [batch];
    }

    method Coalesce(i: nat, event: Event)
      requires Valid() && !event.Plain? && LastWith(openBatch, KeyOf, KeyOf(event)) == Some(i)
      modifies this
      ensures Valid() && openBatch == Placed(old(openBatch), event, cap)
      ensures history == old(history) + [event] && drops == old(drops)
      ensures emitted == old(emitted) && droppedSinceLastBatch == old(droppedSinceLastBatch)
    {
      hide Batching, Ledger;
      SameKeySameKind(openBatch[i], event);
      var slot := if event.Output? then Merged(openBatch[i], event, cap) else event;
      CoalesceKeeps(history, emittedSlots, openSlots, openBatch, outputCoalesceMap, progressCoalesceMap, i, event, cap);
      openSlots := Grown(openSlots, i, event);
      history := history + [event];
      openBatch := openBatch[i := slot];
    }

    /** A new slot at the end of the open batch, indexed when its event can coalesce. */
    method Append(event: Event)
      requires Valid() && (event.Plain? || LastWith(openBatch, KeyOf, KeyOf(event)) == None)
      modifies this
      ensures Accounts() && openBatch == old(openBatch) + [event]
      ensures timerArmed == old(timerArmed)
      ensures history == old(history) + [event] && drops == old(drops)
      ensures emitted == old(emitted) && droppedSinceLastBatch == old(droppedSinceLastBatch)
    {
      hide Batching, Ledger;
      AppendKeeps(history, emittedSlots, openSlots, openBatch, outputCoalesceMap, progressCoalesceMap, event, cap);
      var idx := |openBatch|;
      match event {
        case Output(s, _, _, channel, _, _, _, _) =>
          outputCoalesceMap := outputCoalesceMap[OutputName(s, SourceId(event), channel) := idx];
        case Progress(id, _, _) =>
          progressCoalesceMap := progressCoalesceMap[ProgressName(id) := idx];
        case Plain(_, _) =>
      }
      openSlots := openSlots + [[event]];
      history := history + [event];
      openBatch := openBatch + [event];
    }

    /** Flushes a full batch; otherwise makes sure the timer runs. */
    method MaybeScheduleFlush()
      requires Accounts() && openBatch != []
      modifies this
      ensures Valid() && history == old(history) && drops == old(drops)
      ensures |old(openBatch)| >= maxSize ==>
                openBatch == [] && emitted == old(emitted) + [BatchOf(old(openBatch), old(droppedSinceLastBatch))]
      ensures |old(openBatch)| < maxSize ==>
                && openBatch == old(openBatch) && emitted == old(emitted)
                && droppedSinceLastBatch == old(droppedSinceLastBatch)
    {
      if |openBatch| >= maxSize {
        Flush();
        return;
      }
      if !timerArmed {
        timerArmed := true;
      }
    }
  }

  // ----- What each change of the open batch keeps -----

  ghost predicate Batching(history: seq<Event>, done: seq<seq<seq<Event>>>, slots: seq<seq<Event>>, open: seq<Event>,
                           outputs: map<string, nat>, progress: map<string, nat>, cap: nat) {
    && SlotsMatch(open, slots, cap)
    && Indexes(open, KeyOf, outputs, AsOutput())
    && Indexes(open, KeyOf, progress, AsProgress())
    && Accounted(history, done, slots, KeyOf)
    && Size(slots) <= |history| && InBirthOrder(Since(history, slots), slots)
  }

  lemma NothingBatched(cap: nat)
    ensures Batching([], [], [], [], map[], map[], cap) && Ledger([], [], 0, 0, cap)
  {
    hide Accounted, Indexes, KeyOf, StandsFor;
    AccountNothing(KeyOf);
    IndexesNothing(KeyOf, AsOutput());
    IndexesNothing(KeyOf, AsProgress());
  }

  lemma FlushKeeps(history: seq<Event>, done: seq<seq<seq<Event>>>, slots: seq<seq<Event>>, open: seq<Event>,
                   outputs: map<string, nat>, progress: map<string, nat>, cap: nat)
    requires Batching(history, done, slots, open, outputs, progress, cap)
    ensures Batching(history, done + [slots], [], [], map[], map[], cap)
    ensures SlotsMatch(open, slots, cap)
  {
    AccountFlush(history, done, slots, KeyOf);
  }

  lemma EmitAloneKeeps(history: seq<Event>, done: seq<seq<seq<Event>>>, slots: seq<seq<Event>>,
                       outputs: map<string, nat>, progress: map<string, nat>, e: Event, cap: nat)
    requires Batching(history, done, slots, [], outputs, progress, cap)
    ensures Batching(history + [e], done + [[[e]]], slots, [], outputs, progress, cap)
    ensures SlotsMatch([e], [[e]], cap)
  {
    assert slots == [] && slots + [[e]] == [[e]];
    AccountNew(history, done, slots, KeyOf, e);
    AccountFlush(history + [e], done, [[e]], KeyOf);
    hide Accounted, SlotsMatch, Indexes;
    SingleStandsFor(e, cap);
  }

  lemma OutputLookup(history: seq<Event>, done: seq<seq<seq<Event>>>, slots: seq<seq<Event>>, open: seq<Event>,
                     outputs: map<string, nat>, progress: map<string, nat>, cap: nat, e: Event)
    requires Batching(history, done, slots, open, outputs, progress, cap) && e.Output?
    ensures var key := OutputName(e.stream, SourceId(e), e.channel);
            LastWith(open, KeyOf, KeyOf(e)) == if key in outputs then Some(outputs[key]) else None
  {
    LookupIsSearch(open, KeyOf, outputs, AsOutput(), OutputName(e.stream, SourceId(e), e.channel));
  }

  lemma ProgressLookup(history: seq<Event>, done: seq<seq<seq<Event>>>, slots: seq<seq<Event>>, open: seq<Event>,
                       outputs: map<string, nat>, progress: map<string, nat>, cap: nat, e: Event)
    requires Batching(history, done, slots, open, outputs, progress, cap) && e.Progress?
    ensures var key := ProgressName(e.executionId);
            LastWith(open, KeyOf, KeyOf(e)) == if key in progress then Some(progress[key]) else None
  {
    LookupIsSearch(open, KeyOf, progress, AsProgress(), ProgressName(e.executionId));
  }

  function OutputsWith(outputs: map<string, nat>, e: Event, idx: nat): map<string, nat> {
    if e.Output? then outputs[OutputName(e.stream, SourceId(e), e.channel) := idx] else outputs
  }

  function ProgressWith(progress: map<string, nat>, e: Event, idx: nat): map<string, nat> {
    if e.Progress? then progress[ProgressName(e.executionId) := idx] else progress
  }

  lemma SlotsMatchSnoc(open: seq<Event>, slots: seq<seq<Event>>, e: Event, from: seq<Event>, cap: nat)
    requires SlotsMatch(open, slots, cap) && StandsFor(e, from, cap)
    ensures SlotsMatch(open + [e], slots + [from], cap)
  {
    hide StandsFor;
  }

  lemma AppendKeeps(history: seq<Event>, done: seq<seq<seq<Event>>>, slots: seq<seq<Event>>, open: seq<Event>,
                    outputs: map<string, nat>, progress: map<string, nat>, e: Event, cap: nat)
    requires Batching(history, done, slots, open, outputs, progress, cap)
    requires e.Plain? || LastWith(open, KeyOf, KeyOf(e)) == None
    ensures Batching(history + [e], done, slots + [[e]], open + [e],
                     OutputsWith(outputs, e, |open|), ProgressWith(progress, e, |open|), cap)
  {
    hide Accounted, InBirthOrder, StandsFor, LastWith, Size;
    SingleStandsFor(e, cap);
    SlotsMatchSnoc(open, slots, e, [e], cap);
    AccountNew(history, done, slots, KeyOf, e);
    BirthOfSlot(history, slots, e);
    hide SlotsMatch, Indexes;
    match e {
      case Output(s, _, _, channel, _, _, _, _) =>
        IndexesAppendOwn(open, KeyOf, outputs, AsOutput(), e, OutputName(s, SourceId(e), channel));
        IndexesAppendOther(open, KeyOf, progress, AsProgress(), e);
      case Progress(id, _, _) =>
        IndexesAppendOwn(open, KeyOf, progress, AsProgress(), e, ProgressName(id));
        IndexesAppendOther(open, KeyOf, outputs, AsOutput(), e);
      case Plain(_, _) =>
        IndexesAppendOther(open, KeyOf, progress, AsProgress(), e);
        IndexesAppendOther(open, KeyOf, outputs, AsOutput(), e);
    }
  }

  lemma CoalesceKeeps(history: seq<Event>, done: seq<seq<seq<Event>>>, slots: seq<seq<Event>>, open: seq<Event>,
                      outputs: map<string, nat>, progress: map<string, nat>, i: nat, e: Event, cap: nat)
    requires Batching(history, done, slots, open, outputs, progress, cap)
    requires !e.Plain? && LastWith(open, KeyOf, KeyOf(e)) == Some(i)
    ensures i < |slots|
    ensures Batching(history + [e], done, Grown(slots, i, e), Placed(open, e, cap), outputs, progress, cap)
  {
    SameKeySameKind(open[i], e);
    var slot := if e.Output? then Merged(open[i], e, cap) else e;
    CoalescedSlot(open, slots, i, e, slot, cap);
    AccountMerge(history, done, slots, KeyOf, i, e);
    BirthOrderGrows(history, slots, i, e);
    IndexesReplace(open, KeyOf, outputs, AsOutput(), i, slot);
    IndexesReplace(open, KeyOf, progress, AsProgress(), i, slot);
  }

  /** The slot an event coalesces into keeps standing for what was pushed, and no later slot has its key. */
  lemma CoalescedSlot(open: seq<Event>, slots: seq<seq<Event>>, i: nat, e: Event, slot: Event, cap: nat)
    requires SlotsMatch(open, slots, cap) && !e.Plain? && LastWith(open, KeyOf, KeyOf(e)) == Some(i)
    requires e.Output? <==> open[i].Output?
    requires slot == if e.Output? then Merged(open[i], e, cap) else e
    ensures SlotsMatch(open[i := slot], Grown(slots, i, e), cap) && KeyOf(slot) == KeyOf(open[i])
    ensures LastOfKey(slots, i, KeyOf, e)
  {
    if e.Output? {
      MergeStandsFor(open[i], slots[i], e, cap);
    } else {
      ReplaceStandsFor(open[i], slots[i], e, cap);
    }
    forall j, n | i < j < |slots| && 0 <= n < |slots[j]| ensures KeyOf(slots[j][n]) != KeyOf(e) {
      assert StandsFor(open[j], slots[j], cap);
      assert slots[j][n] in slots[j];
    }
  }
}
