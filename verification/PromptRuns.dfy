/**
 * Whole runs of template versioning and cached rendering (src/prompts/prompt-manager.ts): the
 * stores a manager goes through, and requests made of them in between, served from one cache.
 */
module PromptRuns {
  import opened Prelude
  import opened PromptCache
  import opened PromptManager

  /** The store a request meets, by its place in the run, and what it asks for. */
  datatype Request = Request(at: nat, id: string, version: Option<nat>, variables: Variables)

  /** What a manager is built with. */
  datatype Setting = Setting(
    builder: (Template, map<string, string>) -> string,
    maxSize: int,
    le: (string, string) -> bool)

  /** Stores of a run: well-formed, and the versions of an id are only ever added to. */
  ghost predicate IsHistory(stores: seq<Store>) {
    && (forall k :: 0 <= k < |stores| ==> WellFormed(stores[k]))
    && (forall k, l, id :: 0 <= k <= l < |stores| ==> VersionsOf(stores[k], id) <= VersionsOf(stores[l], id))
  }

  /** Registering or versioning a template takes a run one store further. */
  lemma HistoryGrows(stores: seq<Store>, t: Template)
    requires IsHistory(stores) && stores != [] && ValidId(t.id) && t.version >= 1
    ensures IsHistory(stores + [Added(stores[|stores| - 1], t)])
  {
    var last := stores[|stores| - 1];
    AddKeepsStored(last, t);
    forall k, id | 0 <= k < |stores| ensures VersionsOf(stores[k], id) <= VersionsOf(Added(last, t), id) {
      assert VersionsOf(stores[k], id) <= VersionsOf(last, id) <= VersionsOf(Added(last, t), id);
    }
  }

  /** The request finds a template, and its variables are clean. */
  ghost predicate Answerable(stores: seq<Store>, q: Request) {
    q.at < |stores| && Lookup(stores[q.at], q.id, q.version).Some? && Clean(q.variables)
  }

  /** Requests in the order in which they are made. */
  ghost predicate IsSchedule(stores: seq<Store>, qs: seq<Request>) {
    && (forall i :: 0 <= i < |qs| ==> Answerable(stores, qs[i]))
    && (forall i, j :: 0 <= i < j < |qs| ==> qs[i].at <= qs[j].at)
  }

  function Asked(stores: seq<Store>, q: Request): Template
    requires Answerable(stores, q)
  {
    Lookup(stores[q.at], q.id, q.version).value
  }

  function KeyOf(stores: seq<Store>, q: Request, s: Setting): string
    requires Answerable(stores, q)
  {
    BuildKey(Asked(stores, q), q.variables, s.le)
  }

  function Right(stores: seq<Store>, q: Request, s: Setting): string
    requires Answerable(stores, q)
  {
    s.builder(Asked(stores, q), AsMap(q.variables))
  }

  /** The cache after the requests, starting from an empty one. */
  function CacheAfter(stores: seq<Store>, qs: seq<Request>, s: Setting): Entries<string>
    requires forall i :: 0 <= i < |qs| ==> Answerable(stores, qs[i])
  {
    if qs == [] then []
    else
      var n := |qs| - 1;
      Serve(CacheAfter(stores, qs[..n], s), Asked(stores, qs[n]), qs[n].variables, s.builder, s.maxSize, s.le).1
  }

  /** What the last of the requests gets. */
  function LastAnswer(stores: seq<Store>, qs: seq<Request>, s: Setting): string
    requires qs != [] && forall i :: 0 <= i < |qs| ==> Answerable(stores, qs[i])
  {
    var n := |qs| - 1;
    Serve(CacheAfter(stores, qs[..n], s), Asked(stores, qs[n]), qs[n].variables, s.builder, s.maxSize, s.le).0
  }

  // ----- Templates handed out -----

  /** Templates handed out with one id and version are one template. */
  ghost predicate HandedOutAgree(stores: seq<Store>, qs: seq<Request>)
    requires forall i :: 0 <= i < |qs| ==> Answerable(stores, qs[i])
  {
    forall i, j :: 0 <= i < |qs| && 0 <= j < |qs| ==> SameIfSameVersion(Asked(stores, qs[i]), Asked(stores, qs[j]))
  }

  predicate SameIfSameVersion(t: Template, u: Template) {
    t.id == u.id && t.version == u.version ==> t == u
  }

  lemma SettledAsks(stores: seq<Store>, q: Request)
    requires Answerable(stores, q) && Settled(stores[q.at]) && WellFormed(stores[q.at])
    ensures var t := Asked(stores, q);
            t.id == q.id && ValidId(t.id) && FindVersion(VersionsOf(stores[q.at], t.id), t.version) == Some(t)
  {
    LookupFindsStored(stores[q.at], q.id, q.version);
    assert LastSpeaks(stores[q.at][q.id]);
  }

  /** While every store is settled, all that is handed out agrees, however long ago. */
  lemma SettledStoresAgree(stores: seq<Store>, qs: seq<Request>)
    requires IsHistory(stores) && IsSchedule(stores, qs)
    requires forall k :: 0 <= k < |stores| ==> Settled(stores[k])
    ensures HandedOutAgree(stores, qs)
  {
    forall i, j | 0 <= i < |qs| && 0 <= j < |qs|
      ensures SameIfSameVersion(Asked(stores, qs[i]), Asked(stores, qs[j]))
    {
      if qs[i].at <= qs[j].at {
        EarlierAgrees(stores, qs[i], qs[j]);
      } else {
        EarlierAgrees(stores, qs[j], qs[i]);
      }
    }
  }

  lemma EarlierAgrees(stores: seq<Store>, q: Request, q': Request)
    requires IsHistory(stores) && Answerable(stores, q) && Answerable(stores, q') && q.at <= q'.at
    requires Settled(stores[q.at]) && Settled(stores[q'.at])
    ensures SameIfSameVersion(Asked(stores, q), Asked(stores, q'))
  {
    hide WellFormed, Settled;
    SettledAsks(stores, q);
    SettledAsks(stores, q');
    var t := Asked(stores, q);
    FoundStaysFound(VersionsOf(stores[q.at], t.id), VersionsOf(stores[q'.at], t.id), t.version);
  }

  // ----- Answers -----

  /** A cached text was right for an earlier request with its key. */
  ghost predicate FromEarlier(stores: seq<Store>, qs: seq<Request>, s: Setting, e: (string, string))
    requires forall i :: 0 <= i < |qs| ==> Answerable(stores, qs[i])
  {
    exists i :: 0 <= i < |qs| && e.0 == KeyOf(stores, qs[i], s) && e.1 == Right(stores, qs[i], s)
  }

  ghost predicate AllFromEarlier(stores: seq<Store>, qs: seq<Request>, s: Setting)
    requires forall i :: 0 <= i < |qs| ==> Answerable(stores, qs[i])
  {
    forall e :: e in CacheAfter(stores, qs, s) ==> FromEarlier(stores, qs, s, e)
  }

  /** Where all that was handed out agrees, requests with one key are answered alike. */
  lemma SameKeySameAnswer(stores: seq<Store>, q: Request, q': Request, s: Setting)
    requires IsHistory(stores) && Answerable(stores, q) && Answerable(stores, q')
    requires SameIfSameVersion(Asked(stores, q), Asked(stores, q'))
    requires KeyOf(stores, q, s) == KeyOf(stores, q', s)
    ensures Right(stores, q, s) == Right(stores, q', s)
  {
    LookupFindsStored(stores[q.at], q.id, q.version);
    LookupFindsStored(stores[q'.at], q'.id, q'.version);
    KeyIsInjective(Asked(stores, q), q.variables, Asked(stores, q'), q'.variables, s.le);
  }

  lemma {:induction false} CacheHoldsRightTexts(stores: seq<Store>, qs: seq<Request>, s: Setting)
    requires IsHistory(stores) && IsSchedule(stores, qs) && HandedOutAgree(stores, qs)
    ensures AllFromEarlier(stores, qs, s)
    ensures qs != [] ==> LastAnswer(stores, qs, s) == Right(stores, qs[|qs| - 1], s)
  {
    hide BuildKey, KeyOf, Right, Lookup, IsHistory, IndexOf, Room, Moved, SameIfSameVersion;
    if qs != [] {
      var n := |qs| - 1;
      var before, q := qs[..n], qs[n];
      forall i, j | 0 <= i < n && 0 <= j < n
        ensures SameIfSameVersion(Asked(stores, before[i]), Asked(stores, before[j]))
      {
        assert SameIfSameVersion(Asked(stores, qs[i]), Asked(stores, qs[j]));
      }
      CacheHoldsRightTexts(stores, before, s);
      ServeStep(stores, qs, s);
    }
  }

  /** The last request gets the right text, and leaves only right texts behind. */
  lemma ServeStep(stores: seq<Store>, qs: seq<Request>, s: Setting)
    requires IsHistory(stores) && IsSchedule(stores, qs) && HandedOutAgree(stores, qs) && qs != []
    requires AllFromEarlier(stores, qs[..|qs| - 1], s)
    ensures AllFromEarlier(stores, qs, s)
    ensures LastAnswer(stores, qs, s) == Right(stores, qs[|qs| - 1], s)
  {
    var n := |qs| - 1;
    var before, q := qs[..n], qs[n];
    var es, key := CacheAfter(stores, before, s), KeyOf(stores, q, s);
    forall e | e in es ensures FromEarlier(stores, qs, s, e) && (e.0 == key ==> e.1 == Right(stores, q, s)) {
      hide BuildKey, Lookup, IsHistory, HandedOutAgree, CacheAfter;
      var i :| 0 <= i < n && e.0 == KeyOf(stores, before[i], s) && e.1 == Right(stores, before[i], s);
      assert before[i] == qs[i];
      StaysFromEarlier(stores, qs, s, e, i);
      if e.0 == key {
        AgreeAt(stores, qs, i, n);
        SameKeySameAnswer(stores, qs[i], q, s);
      }
    }
    StaysFromEarlier(stores, qs, s, (key, Right(stores, q, s)), n);
    ServedFrom(es, Asked(stores, q), q.variables, s);
  }

  lemma AgreeAt(stores: seq<Store>, qs: seq<Request>, i: nat, j: nat)
    requires i < |qs| && j < |qs| && forall i :: 0 <= i < |qs| ==> Answerable(stores, qs[i])
    requires HandedOutAgree(stores, qs)
    ensures SameIfSameVersion(Asked(stores, qs[i]), Asked(stores, qs[j]))
  {
  }

  lemma StaysFromEarlier(stores: seq<Store>, qs: seq<Request>, s: Setting, e: (string, string), i: nat)
    requires forall i :: 0 <= i < |qs| ==> Answerable(stores, qs[i])
    requires i < |qs| && e.0 == KeyOf(stores, qs[i], s) && e.1 == Right(stores, qs[i], s)
    ensures FromEarlier(stores, qs, s, e)
  {
  }

  /** An answer is a cached text or a fresh one, and the cache gains nothing else. */
  lemma ServedFrom(es: Entries<string>, t: Template, v: Variables, s: Setting)
    ensures var key, text := BuildKey(t, v, s.le), s.builder(t, AsMap(v));
            var (answer, next) := Serve(es, t, v, s.builder, s.maxSize, s.le);
            && (answer == text || (key, answer) in es)
            && forall e :: e in next ==> e in es || e == (key, text)
  {
    var key := BuildKey(t, v, s.le);
    match IndexOf(es, key)
    case Some(i) =>
      MovedMembers(es, i);
      assert es[i] in es;
    case None =>
  }

  // ----- The theorem -----

  /** In any schedule of requests, in any setting, every request gets the right text. */
  ghost predicate AlwaysRight(stores: seq<Store>) {
    forall qs, s: Setting :: IsSchedule(stores, qs) && qs != [] ==>
      LastAnswer(stores, qs, s) == Right(stores, qs[|qs| - 1], s)
  }

  /**
   * Rendering through the cache is right whatever is requested and when, for every builder, cache
   * size and order of names, exactly when in every store of the run the last template of each id
   * is the one its own version number finds.
   */
  lemma AlwaysRightIff(stores: seq<Store>)
    requires IsHistory(stores)
    ensures AlwaysRight(stores) <==> forall k :: 0 <= k < |stores| ==> Settled(stores[k])
  {
    if forall k :: 0 <= k < |stores| ==> Settled(stores[k]) {
      forall qs, s: Setting | IsSchedule(stores, qs) && qs != []
        ensures LastAnswer(stores, qs, s) == Right(stores, qs[|qs| - 1], s)
      {
        SettledStoresAgree(stores, qs);
        CacheHoldsRightTexts(stores, qs, s);
      }
    } else {
      var k, id :| 0 <= k < |stores| && id in stores[k] && !LastSpeaks(stores[k][id]);
      var qs, s := StaleSchedule(stores, k, id);
    }
  }

  /** Asking by number and then for the last template gets the text of the first for the second. */
  lemma StaleSchedule(stores: seq<Store>, k: nat, id: string) returns (qs: seq<Request>, s: Setting)
    requires IsHistory(stores) && k < |stores| && id in stores[k] && !LastSpeaks(stores[k][id])
    ensures IsSchedule(stores, qs) && qs != [] && LastAnswer(stores, qs, s) != Right(stores, qs[|qs| - 1], s)
  {
    hide BuildKey, FindVersion, CacheAfter, Room, Moved, IndexOf, Serve, LastAnswer, WellFormed;
    var ts := stores[k][id];
    var last := ts[|ts| - 1];
    LastIsFindable(stores[k], id);
    var first := FindVersion(ts, last.version).value;
    s := Setting((t: Template, vars: map<string, string>) => if t == last then "new" else "old", 1, (a, b) => true);
    qs := [Request(k, id, Some(last.version), []), Request(k, id, None, [])];
    assert Asked(stores, qs[0]) == first && Asked(stores, qs[1]) == last;
    LookupFindsStored(stores[k], id, Some(last.version));
    LookupFindsStored(stores[k], id, None);
    SameVersionSameKey(first, last, [], s.le);
    TwoRequests(stores, qs, s);
  }

  lemma TwoRequests(stores: seq<Store>, qs: seq<Request>, s: Setting)
    requires |qs| == 2 && Answerable(stores, qs[0]) && Answerable(stores, qs[1])
    requires KeyOf(stores, qs[0], s) == KeyOf(stores, qs[1], s)
    ensures LastAnswer(stores, qs, s) == Right(stores, qs[0], s)
  {
    hide BuildKey, Lookup, Room;
    assert qs[..1][..0] == [] && qs[..1][0] == qs[0];
    assert CacheAfter(stores, qs[..1][..0], s) == [];
    var key, text := KeyOf(stores, qs[0], s), Right(stores, qs[0], s);
    LastEntryFound([], key, text, s.maxSize);
    assert CacheAfter(stores, qs[..1], s) == Room([], s.maxSize) + [(key, text)];
  }
}
