/**
 * Template versions and cached rendering (src/prompts/prompt-manager.ts). The builder, the checks
 * on a template's text and the checks on its variables are given functions.
 */
module PromptManager {
  import opened Prelude
  import opened PromptCache

  type Store = map<string, seq<Template>>

  ghost predicate WellFormed(templates: Store) {
    forall id :: id in templates ==>
      && ValidId(id) && templates[id] != []
      && forall i :: 0 <= i < |templates[id]| ==> templates[id][i].id == id && templates[id][i].version >= 1
  }

  ghost predicate Stored(templates: Store, t: Template) {
    t.id in templates && t in templates[t.id]
  }

  ghost predicate NoVersionTwice(ts: seq<Template>) {
    forall i, j :: 0 <= i < j < |ts| ==> ts[i].version != ts[j].version
  }

  /** No id holds two templates of one version. */
  ghost predicate UniqueVersions(templates: Store) {
    forall id :: id in templates ==> NoVersionTwice(templates[id])
  }

  ghost predicate Ascending(ts: seq<Template>) {
    forall i, j :: 0 <= i < j < |ts| ==> ts[i].version < ts[j].version
  }

  function FindVersion(ts: seq<Template>, version: nat): (r: Option<Template>)
    ensures r.Some? ==> r.value in ts && r.value.version == version
    ensures r.None? ==> forall t :: t in ts ==> t.version != version
  {
    if ts == [] then None
    else if ts[0].version == version then Some(ts[0])
    else FindVersion(ts[1..], version)
  }

  /** The requested version, or the one registered last. */
  function Lookup(templates: Store, id: string, version: Option<nat>): (r: Option<Template>)
    ensures r.Some? ==> id in templates && r.value in templates[id]
  {
    if id !in templates || templates[id] == [] then None
    else if version.Some? then FindVersion(templates[id], version.value)
    else Some(templates[id][|templates[id]| - 1])
  }

  /** In a store of unique versions, id and version pick out one template. */
  lemma OneTemplatePerVersion(templates: Store, t: Template, t': Template)
    requires UniqueVersions(templates) && Stored(templates, t) && Stored(templates, t')
    requires t.id == t'.id && t.version == t'.version
    ensures t == t'
  {
    var ts := templates[t.id];
    var i :| 0 <= i < |ts| && ts[i] == t;
    var j :| 0 <= j < |ts| && ts[j] == t';
    assert NoVersionTwice(ts);
  }

  lemma LookupFindsStored(templates: Store, id: string, version: Option<nat>)
    requires WellFormed(templates) && Lookup(templates, id, version).Some?
    ensures Lookup(templates, id, version).value.id == id && Stored(templates, Lookup(templates, id, version).value)
  {
    var t := Lookup(templates, id, version).value;
    var i :| 0 <= i < |templates[id]| && templates[id][i] == t;
  }

  // ----- What requests can reach -----

  /** The last template is the one its version number finds. */
  predicate LastSpeaks(ts: seq<Template>) {
    ts != [] ==> FindVersion(ts, ts[|ts| - 1].version) == Some(ts[|ts| - 1])
  }

  ghost predicate Settled(templates: Store) {
    forall id :: id in templates ==> LastSpeaks(templates[id])
  }

  /** Two requests that reach one id and version reach one template. */
  ghost predicate Unambiguous(templates: Store) {
    forall id, n, n' :: Lookup(templates, id, n).Some? && Lookup(templates, id, n').Some?
                        && Lookup(templates, id, n).value.version == Lookup(templates, id, n').value.version
      ==> Lookup(templates, id, n) == Lookup(templates, id, n')
  }

  /** Templates of one version do no harm exactly where the last one of each id is found by its number. */
  lemma UnambiguousIff(templates: Store)
    ensures Unambiguous(templates) <==> Settled(templates)
  {
    if Unambiguous(templates) {
      forall id | id in templates ensures LastSpeaks(templates[id]) {
        if templates[id] != [] {
          LastIsFindable(templates, id);
        }
      }
    }
    if Settled(templates) {
      forall id, n | Lookup(templates, id, n).Some?
        ensures Lookup(templates, id, n) == FindVersion(templates[id], Lookup(templates, id, n).value.version)
      {
        assert LastSpeaks(templates[id]);
      }
    }
  }

  lemma LastIsFindable(templates: Store, id: string)
    requires id in templates && templates[id] != []
    ensures Lookup(templates, id, None).Some?
    ensures var last := templates[id][|templates[id]| - 1];
            && Lookup(templates, id, None) == Some(last)
            && Lookup(templates, id, Some(last.version)) == FindVersion(templates[id], last.version)
            && FindVersion(templates[id], last.version).Some?
  {
    var ts := templates[id];
    assert ts[|ts| - 1] in ts;
  }

  /** Some request for the template's id reaches the template. */
  ghost predicate HandsOut(templates: Store, t: Template) {
    exists n :: Lookup(templates, t.id, n) == Some(t)
  }

  lemma {:induction false} FoundStaysFound(ts: seq<Template>, more: seq<Template>, version: nat)
    requires ts <= more && FindVersion(ts, version).Some?
    ensures FindVersion(more, version) == FindVersion(ts, version)
  {
    if ts[0].version != version {
      FoundStaysFound(ts[1..], more[1..], version);
    }
  }

  lemma {:induction false} FindAdded(ts: seq<Template>, t: Template)
    requires forall u :: u in ts ==> u.version != t.version
    ensures FindVersion(ts + [t], t.version) == Some(t)
  {
    if ts != [] {
      assert (ts + [t])[1..] == ts[1..] + [t];
      FindAdded(ts[1..], t);
    }
  }

  /** Adding to a settled store keeps it so exactly when the new template is the one its number finds afterwards. */
  lemma AddSettled(templates: Store, t: Template)
    requires Settled(templates)
    ensures var after := Added(templates, t);
            Settled(after) <==> FindVersion(after[t.id], t.version) == Some(t)
  {
    var after := Added(templates, t);
    forall id | id in after && id != t.id ensures LastSpeaks(after[id]) {
      assert id in templates;
    }
    assert t.id in after;
  }

  /** What a settled store hands out it goes on handing out. */
  lemma AddHandsOut(templates: Store, t: Template, u: Template)
    requires Settled(templates) && HandsOut(templates, u)
    ensures HandsOut(Added(templates, t), u)
  {
    var after := Added(templates, t);
    var n :| Lookup(templates, u.id, n) == Some(u);
    assert LastSpeaks(templates[u.id]);
    assert FindVersion(templates[u.id], u.version) == Some(u);
    FoundStaysFound(templates[u.id], after[u.id], u.version);
    assert Lookup(after, u.id, Some(u.version)) == Some(u);
  }

  function Added(templates: Store, t: Template): Store {
    templates[t.id := VersionsOf(templates, t.id) + [t]]
  }

  /** What a request for template t gets, and the cache after it. */
  function Serve(es: Entries<string>, t: Template, v: Variables, builder: (Template, map<string, string>) -> string,
                 maxSize: int, le: (string, string) -> bool): (string, Entries<string>) {
    var key, text := BuildKey(t, v, le), builder(t, AsMap(v));
    match IndexOf(es, key)
    case Some(i) => (es[i].1, Moved(es, i))
    case None => (text, Room(es, maxSize) + [(key, text)])
  }

  /** Every cached prompt of a template's id and version came from this template. */
  ghost predicate Agrees(origin: map<string, (Template, Variables)>, es: Entries<string>, t: Template) {
    forall e :: e in es && e.0 in origin && origin[e.0].0.id == t.id && origin[e.0].0.version == t.version ==>
      origin[e.0].0 == t
  }

  class PromptManager {
    const cache: PromptCache<string>
    const builder: (Template, map<string, string>) -> string
    const acceptsText: Template -> bool
    const variablesOk: (Template, Variables) -> bool
    const le: (string, string) -> bool
    var templates: Store
    /** Which template and variables each cached prompt was built from, and every key rendered so far. */
    ghost var origin: map<string, (Template, Variables)>
    ghost var used: seq<string>

    ghost predicate Valid()
      reads this, cache
    {
      WellFormed(templates) && CacheValid(templates, origin, cache.entries, used, cache.maxSize, builder, le)
    }

    /** Every cached prompt came from clean variables. */
    ghost predicate CachedClean()
      reads this, cache
    {
      FromClean(origin, cache.entries)
    }

    /** Every cached prompt came from a template that requests can still reach. */
    ghost predicate CachedCurrent()
      reads this, cache
    {
      AllHandedOut(origin, cache.entries, templates)
    }

    constructor (maxSize: int, builder: (Template, map<string, string>) -> string, acceptsText: Template -> bool,
                 variablesOk: (Template, Variables) -> bool, le: (string, string) -> bool)
      ensures Valid() && CachedClean() && CachedCurrent() && Settled(templates)
      ensures fresh(cache) && templates == map[] && used == []
      ensures cache.maxSize == maxSize && this.builder == builder && this.acceptsText == acceptsText
      ensures this.variablesOk == variablesOk && this.le == le && cache.entries == []
    {
      this.cache := new PromptCache(maxSize);
      this.builder, this.acceptsText, this.variablesOk, this.le := builder, acceptsText, variablesOk, le;
      templates, origin, used := map[], map[], [];
    }

    predicate AcceptsTemplate(t: Template) {
      ValidId(t.id) && t.version >= 1 && acceptsText(t)
    }

    /** Stores a new template unless it is malformed or its version exists. */
    method RegisterTemplate(t: Template) returns (ok: bool)
      requires Valid()
      modifies this`templates
      ensures Valid() && (old(CachedClean()) ==> CachedClean())
      ensures ok ==>
                && t.version >= 1 && t.id != ""
                && forall i :: 0 <= i < |t.id| ==>
                     'a' <= t.id[i] <= 'z' || 'A' <= t.id[i] <= 'Z' || '0' <= t.id[i] <= '9' || t.id[i] in "-_"
      ensures !ok ==>
                || t.version < 1 || t.id == "" || !acceptsText(t)
                || (exists u :: u in VersionsOf(old(templates), t.id) && u.version == t.version)
                || exists i :: 0 <= i < |t.id| && t.id[i] !in "-_" && !('a' <= t.id[i] <= 'z')
                               && !('A' <= t.id[i] <= 'Z') && !('0' <= t.id[i] <= '9')
      ensures ok <==> AcceptsTemplate(t) && forall u :: u in VersionsOf(old(templates), t.id) ==> u.version != t.version
      ensures ok ==> templates == old(templates)[t.id := VersionsOf(old(templates), t.id) + [t]]
      ensures !ok ==> templates == old(templates)
      ensures old(UniqueVersions(templates)) ==> UniqueVersions(templates)
      ensures old(Settled(templates)) ==> Settled(templates)
      ensures old(Settled(templates)) && old(CachedCurrent()) ==> CachedCurrent()
    {
      hide CacheValid, WellFormed, UniqueVersions, ValidId, FromClean, Settled, HandsOut, AllHandedOut;
      hide FindVersion, Stored, LastSpeaks;
      IdGrammar(t.id);
      if !AcceptsTemplate(t) {
        return false;
      }
      var versions := VersionsOf(templates, t.id);
      if FindVersion(versions, t.version).Some? {
        return false;
      }
      AddKeeps(templates, origin, cache.entries, used, cache.maxSize, builder, le, t);
      FindAdded(versions, t);
      templates := templates[t.id := versions + [t]];
      return true;
    }

    /** Derives the next version from the one registered last; nothing checks that its number is free. */
    method VersionTemplate(id: string, text: string) returns (r: Option<Template>)
      requires Valid()
      modifies this`templates
      ensures Valid() && (old(CachedClean()) ==> CachedClean())
      ensures var latest := Lookup(old(templates), id, None);
              r == if latest.None? then None
                   else
                     var next := latest.value.(version := latest.value.version + 1, text := text);
                     if AcceptsTemplate(next) then Some(next) else None
      ensures r.None? ==> templates == old(templates)
      ensures r.Some? ==> templates == old(templates)[id := old(templates)[id] + [r.value]]
      ensures r.Some? && old(UniqueVersions(templates)) ==>
                (UniqueVersions(templates) <==> forall u :: u in old(templates)[id] ==> u.version != r.value.version)
      ensures r.Some? && Ascending(old(templates)[id]) ==> Ascending(templates[id])
      ensures r.Some? && old(Settled(templates)) ==>
                (Settled(templates) <==> FindVersion(templates[id], r.value.version) == r)
      ensures old(Settled(templates)) && old(CachedCurrent()) ==> CachedCurrent()
    {
      hide CacheValid, WellFormed, UniqueVersions, ValidId, FromClean, Settled, HandsOut, AllHandedOut;
      hide FindVersion, Ascending, Stored, LastSpeaks;
      if id !in templates {
        return None;
      }
      var versions := templates[id];
      if |versions| == 0 {
        return None;
      }
      var latest := versions[|versions| - 1];
      LookupFindsStored(templates, id, None);
      var next := latest.(version := latest.version + 1, text := text);
      if !AcceptsTemplate(next) {
        return None;
      }
      AddKeeps(templates, origin, cache.entries, used, cache.maxSize, builder, le, next);
      AscendingSnoc(versions, next);
      templates := templates[id := versions + [next]];
      return Some(next);
    }

    /** A rendered text was built from some stored template and variables with the key of this request. */
    ghost predicate BuiltForKey(text: string, t: Template, v: Variables)
      reads this`templates
    {
      exists t', v' ::
        Stored(templates, t') && text == builder(t', AsMap(v')) && BuildKey(t', v', le) == BuildKey(t, v, le)
    }

    /**
     * When no cached prompt can be mistaken for another: clean variables, and one template behind an
     * id and version.
     */
    ghost predicate Trusted(t: Template, v: Variables)
      reads this, cache
    {
      && Clean(v) && CachedClean()
      && (Agrees(origin, cache.entries, t) || UniqueVersions(templates) || (Settled(templates) && CachedCurrent()))
    }

    /**
     * Renders through the cache. A request the store and the checks accept gets what the cache
     * serves, and that is what the builder makes of this very template and these variables when
     * no cached prompt can be mistaken for another.
     */
    method Render(id: string, v: Variables, version: Option<nat>) returns (r: Option<string>)
      requires Valid()
      modifies this`origin, this`used, cache
      ensures Valid()
      ensures var t := Lookup(templates, id, version);
              r.Some? <==> t.Some? && variablesOk(t.value, v)
      ensures r.None? ==> used == old(used) && origin == old(origin) && cache.entries == old(cache.entries)
      ensures r.Some? ==>
                var t := Lookup(templates, id, version).value;
                && used == old(used) + [BuildKey(t, v, le)]
                && (r.value, cache.entries) == Serve(old(cache.entries), t, v, builder, cache.maxSize, le)
                && (old(Trusted(t, v)) ==> r.value == builder(t, AsMap(v)))
                && BuiltForKey(r.value, t, v)
      ensures r.Some? && Clean(v) && old(CachedClean())
              && (UniqueVersions(templates) || (Settled(templates) && old(CachedCurrent()))) ==>
                r.value == builder(Lookup(templates, id, version).value, AsMap(v))
      ensures Clean(v) && old(CachedClean()) ==> CachedClean()
      ensures old(CachedCurrent()) ==> CachedCurrent()
    {
      hide BuildKey, CacheValid, FromClean, Clean, UniqueVersions, WellFormed, Settled, AllHandedOut, Agrees, HandsOut;
      hide AsMap, IndexOf, Stored, Moved, Room;
      var template := Lookup(templates, id, version);
      if template.None? {
        return None;
      }
      var t := template.value;
      if !variablesOk(t, v) {
        return None;
      }
      LookupFindsStored(templates, id, version);
      LookupHandsOut(templates, id, version);
      TrustMeansAgreement(templates, origin, cache.entries, used, cache.maxSize, builder, le, t);
      var key := BuildKey(t, v, le);
      ghost var before := cache.entries;
      var cached := cache.Get(key);
      if cached.Some? {
        RenderHit(templates, origin, before, used, cache.maxSize, builder, le, t, v);
        used := used + [key];
        return cached;
      }
      r := Some(builder(t, AsMap(v)));
      RenderMiss(templates, origin, before, used, cache.maxSize, builder, le, t, v);
      cache.Set(key, r.value);
      origin := origin[key := (t, v)];
      used := used + [key];
    }
  }

  ghost predicate AllHandedOut(origin: map<string, (Template, Variables)>, es: Entries<string>, templates: Store) {
    forall e :: e in es ==> e.0 in origin && HandsOut(templates, origin[e.0].0)
  }

  function VersionsOf(templates: Store, id: string): seq<Template> {
    if id in templates then templates[id] else []
  }

  /** A cached prompt is what the builder made of its origin, and its origin has its key. */
  ghost predicate Faithful(templates: Store, origin: map<string, (Template, Variables)>, e: (string, string),
                           builder: (Template, map<string, string>) -> string, le: (string, string) -> bool) {
    && e.0 in origin
    && Stored(templates, origin[e.0].0)
    && BuildKey(origin[e.0].0, origin[e.0].1, le) == e.0
    && e.1 == builder(origin[e.0].0, AsMap(origin[e.0].1))
  }

  ghost predicate CacheValid(templates: Store, origin: map<string, (Template, Variables)>, es: Entries<string>,
                             used: seq<string>, maxSize: int,
                             builder: (Template, map<string, string>) -> string, le: (string, string) -> bool) {
    && Keys(es) == LastN(Recency(used), Max(1, maxSize))
    && (forall e :: e in es ==> Faithful(templates, origin, e, builder, le))
  }

  ghost predicate FromClean(origin: map<string, (Template, Variables)>, es: Entries<string>) {
    forall e :: e in es ==> e.0 in origin && Clean(origin[e.0].1)
  }

  lemma RenderHit(templates: Store, origin: map<string, (Template, Variables)>, es: Entries<string>,
                  used: seq<string>, maxSize: int, builder: (Template, map<string, string>) -> string,
                  le: (string, string) -> bool, t: Template, v: Variables)
    requires WellFormed(templates) && CacheValid(templates, origin, es, used, maxSize, builder, le)
    requires Stored(templates, t) && IndexOf(es, BuildKey(t, v, le)).Some?
    ensures var i := IndexOf(es, BuildKey(t, v, le)).value;
            && CacheValid(templates, origin, Moved(es, i), used + [BuildKey(t, v, le)], maxSize, builder, le)
            && (FromClean(origin, es) ==> FromClean(origin, Moved(es, i)))
            && (AllHandedOut(origin, es, templates) ==> AllHandedOut(origin, Moved(es, i), templates))
            && (Clean(v) && FromClean(origin, es) && Agrees(origin, es, t) ==> es[i].1 == builder(t, AsMap(v)))
            && exists t', v' :: Stored(templates, t') && es[i].1 == builder(t', AsMap(v'))
                                && BuildKey(t', v', le) == BuildKey(t, v, le)
  {
    hide BuildKey, Recency, Clean, LastN, IndexOf, Stored, AsMap, HandsOut, WellFormed, Moved, Keys;
    var key := BuildKey(t, v, le);
    var i := IndexOf(es, key).value;
    var e := es[i];
    assert e in es && e.0 == key;
    HitKeepsRecency(es, i, used, Max(1, maxSize));
    ProvenanceKept(templates, origin, es, Moved(es, i));
    hide FromClean, AllHandedOut, Agrees;
    CleanOrigin(origin, es, e);
    AgreedOrigin(origin, es, e, t);
    if Clean(v) && FromClean(origin, es) && Agrees(origin, es, t) {
      HitIsRight(templates, origin, e, builder, le, t, v);
    }
    assert Stored(templates, origin[key].0) && BuildKey(origin[key].0, origin[key].1, le) == key;
  }

  lemma ProvenanceKept(templates: Store, origin: map<string, (Template, Variables)>, es: Entries<string>,
                       next: Entries<string>)
    requires forall e :: e in next ==> e in es
    ensures FromClean(origin, es) ==> FromClean(origin, next)
    ensures AllHandedOut(origin, es, templates) ==> AllHandedOut(origin, next, templates)
  {
    hide Clean, HandsOut;
  }

  lemma CleanOrigin(origin: map<string, (Template, Variables)>, es: Entries<string>, e: (string, string))
    requires e in es
    ensures FromClean(origin, es) ==> e.0 in origin && Clean(origin[e.0].1)
  {
  }

  lemma AgreedOrigin(origin: map<string, (Template, Variables)>, es: Entries<string>, e: (string, string), t: Template)
    requires e in es && e.0 in origin
    ensures Agrees(origin, es, t) && origin[e.0].0.id == t.id && origin[e.0].0.version == t.version ==>
              origin[e.0].0 == t
  {
  }

  lemma RenderMiss(templates: Store, origin: map<string, (Template, Variables)>, es: Entries<string>,
                   used: seq<string>, maxSize: int, builder: (Template, map<string, string>) -> string,
                   le: (string, string) -> bool, t: Template, v: Variables)
    requires CacheValid(templates, origin, es, used, maxSize, builder, le)
    requires Stored(templates, t) && IndexOf(es, BuildKey(t, v, le)).None?
    ensures var key, value := BuildKey(t, v, le), builder(t, AsMap(v));
            var origin', next := origin[key := (t, v)], Room(es, maxSize) + [(key, value)];
            && IndexOf(Room(es, maxSize), key) == None
            && CacheValid(templates, origin', next, used + [key], maxSize, builder, le)
            && (FromClean(origin, es) && Clean(v) ==> FromClean(origin', next))
            && (AllHandedOut(origin, es, templates) && HandsOut(templates, t) ==>
                  AllHandedOut(origin', next, templates))
  {
    hide BuildKey, Recency, Clean, LastN, Stored, AsMap, Room, HandsOut, Keys, Faithful, FromClean, AllHandedOut;
    hide IndexOf;
    var key, value := BuildKey(t, v, le), builder(t, AsMap(v));
    MissKeepsRecency(es, key, value, used, maxSize);
    var next := Room(es, maxSize) + [(key, value)];
    AllStayFaithful(templates, origin, es, next, builder, le, t, v);
    ProvenanceGrows(templates, origin, es, next, (key, value), t, v);
  }

  ghost predicate OldOrNew(es: Entries<string>, next: Entries<string>, newest: (string, string)) {
    forall e :: e in next ==> e == newest || (e in es && e.0 != newest.0)
  }

  lemma AllStayFaithful(templates: Store, origin: map<string, (Template, Variables)>, es: Entries<string>,
                        next: Entries<string>, builder: (Template, map<string, string>) -> string,
                        le: (string, string) -> bool, t: Template, v: Variables)
    requires Stored(templates, t) && forall e :: e in es ==> Faithful(templates, origin, e, builder, le)
    requires OldOrNew(es, next, (BuildKey(t, v, le), builder(t, AsMap(v))))
    ensures forall e :: e in next ==> Faithful(templates, origin[BuildKey(t, v, le) := (t, v)], e, builder, le)
  {
    hide BuildKey, AsMap, Stored, Faithful;
    FreshIsFaithful(templates, origin, builder, le, t, v);
    var key := BuildKey(t, v, le);
    forall e | e in next ensures Faithful(templates, origin[key := (t, v)], e, builder, le) {
      if e != (key, builder(t, AsMap(v))) {
        StaysFaithful(templates, origin, e, builder, le, key, (t, v));
      }
    }
  }

  lemma ProvenanceGrows(templates: Store, origin: map<string, (Template, Variables)>, es: Entries<string>,
                        next: Entries<string>, newest: (string, string), t: Template, v: Variables)
    requires OldOrNew(es, next, newest)
    ensures FromClean(origin, es) && Clean(v) ==> FromClean(origin[newest.0 := (t, v)], next)
    ensures AllHandedOut(origin, es, templates) && HandsOut(templates, t) ==>
              AllHandedOut(origin[newest.0 := (t, v)], next, templates)
  {
    hide Clean, HandsOut;
  }

  lemma FreshIsFaithful(templates: Store, origin: map<string, (Template, Variables)>,
                        builder: (Template, map<string, string>) -> string, le: (string, string) -> bool,
                        t: Template, v: Variables)
    requires Stored(templates, t)
    ensures var key := BuildKey(t, v, le);
            Faithful(templates, origin[key := (t, v)], (key, builder(t, AsMap(v))), builder, le)
  {
  }

  lemma StaysFaithful(templates: Store, origin: map<string, (Template, Variables)>, e: (string, string),
                      builder: (Template, map<string, string>) -> string, le: (string, string) -> bool,
                      key: string, from: (Template, Variables))
    requires Faithful(templates, origin, e, builder, le) && e.0 != key
    ensures Faithful(templates, origin[key := from], e, builder, le)
  {
  }

  lemma LookupHandsOut(templates: Store, id: string, version: Option<nat>)
    requires WellFormed(templates)
    ensures Lookup(templates, id, version).Some? ==> HandsOut(templates, Lookup(templates, id, version).value)
  {
    if Lookup(templates, id, version).Some? {
      LookupFindsStored(templates, id, version);
    }
  }

  /** Unique versions, or a settled store with a current cache, leave one template behind an id and version. */
  lemma TrustMeansAgreement(templates: Store, origin: map<string, (Template, Variables)>, es: Entries<string>,
                            used: seq<string>, maxSize: int, builder: (Template, map<string, string>) -> string,
                            le: (string, string) -> bool, t: Template)
    requires CacheValid(templates, origin, es, used, maxSize, builder, le)
    requires Stored(templates, t) && HandsOut(templates, t)
    ensures UniqueVersions(templates) || (Settled(templates) && AllHandedOut(origin, es, templates)) ==>
              Agrees(origin, es, t)
  {
    hide BuildKey, Recency, LastN, AsMap, UniqueVersions, Settled, HandsOut, Stored;
    forall e | e in es && origin[e.0].0.id == t.id && origin[e.0].0.version == t.version
      ensures UniqueVersions(templates) ==> origin[e.0].0 == t
      ensures Settled(templates) && AllHandedOut(origin, es, templates) ==> origin[e.0].0 == t
    {
      assert Faithful(templates, origin, e, builder, le);
      if UniqueVersions(templates) {
        OneTemplatePerVersion(templates, origin[e.0].0, t);
      }
      if Settled(templates) && AllHandedOut(origin, es, templates) {
        HandedOutAgree(templates, origin[e.0].0, t);
      }
    }
  }

  lemma HandedOutAgree(templates: Store, t: Template, u: Template)
    requires Settled(templates) && HandsOut(templates, t) && HandsOut(templates, u)
    requires t.id == u.id && t.version == u.version
    ensures t == u
  {
    UnambiguousIff(templates);
    var n :| Lookup(templates, t.id, n) == Some(t);
    var n' :| Lookup(templates, u.id, n') == Some(u);
  }

  lemma HitIsRight(templates: Store, origin: map<string, (Template, Variables)>, e: (string, string),
                   builder: (Template, map<string, string>) -> string, le: (string, string) -> bool,
                   t: Template, v: Variables)
    requires Faithful(templates, origin, e, builder, le) && e.0 == BuildKey(t, v, le)
    requires WellFormed(templates) && Stored(templates, t)
    requires origin[e.0].0.id == t.id && origin[e.0].0.version == t.version ==> origin[e.0].0 == t
    requires Clean(v) && Clean(origin[e.0].1)
    ensures e.1 == builder(t, AsMap(v))
  {
    var (t', v') := origin[e.0];
    KeyIsInjective(t', v', t, v, le);
  }

  lemma AddKeepsStored(templates: Store, t: Template)
    requires WellFormed(templates) && ValidId(t.id) && t.version >= 1
    ensures WellFormed(templates[t.id := VersionsOf(templates, t.id) + [t]])
    ensures forall u :: Stored(templates, u) ==> Stored(templates[t.id := VersionsOf(templates, t.id) + [t]], u)
  {
  }

  lemma AddKeepsCache(templates: Store, origin: map<string, (Template, Variables)>, es: Entries<string>,
                      used: seq<string>, maxSize: int, builder: (Template, map<string, string>) -> string,
                      le: (string, string) -> bool, t: Template)
    requires WellFormed(templates) && ValidId(t.id) && t.version >= 1
    requires CacheValid(templates, origin, es, used, maxSize, builder, le)
    ensures CacheValid(templates[t.id := VersionsOf(templates, t.id) + [t]], origin, es, used, maxSize, builder, le)
  {
    hide BuildKey, Recency, LastN, ValidId, AsMap;
    AddKeepsStored(templates, t);
  }

  /** What adding a template to the store keeps, and what it keeps only when the template fits in. */
  lemma AddKeeps(templates: Store, origin: map<string, (Template, Variables)>, es: Entries<string>,
                 used: seq<string>, maxSize: int, builder: (Template, map<string, string>) -> string,
                 le: (string, string) -> bool, t: Template)
    requires WellFormed(templates) && ValidId(t.id) && t.version >= 1
    requires CacheValid(templates, origin, es, used, maxSize, builder, le)
    ensures var after := Added(templates, t);
            && WellFormed(after) && CacheValid(after, origin, es, used, maxSize, builder, le)
            && (UniqueVersions(templates) ==>
                  (UniqueVersions(after) <==> forall u :: u in VersionsOf(templates, t.id) ==> u.version != t.version))
            && (Settled(templates) ==> (Settled(after) <==> FindVersion(after[t.id], t.version) == Some(t)))
            && (Settled(templates) && AllHandedOut(origin, es, templates) ==> AllHandedOut(origin, es, after))
  {
    hide CacheValid, WellFormed, UniqueVersions, ValidId, Settled, AllHandedOut, FindVersion;
    AddKeepsStored(templates, t);
    AddKeepsCache(templates, origin, es, used, maxSize, builder, le, t);
    if UniqueVersions(templates) {
      AddUnique(templates, t);
    }
    if Settled(templates) {
      AddSettled(templates, t);
      AddKeepsCurrent(templates, t, origin, es);
    }
  }

  lemma AscendingSnoc(ts: seq<Template>, t: Template)
    ensures Ascending(ts) && (ts != [] ==> ts[|ts| - 1].version < t.version) ==> Ascending(ts + [t])
  {
  }

  lemma AddKeepsCurrent(templates: Store, t: Template, origin: map<string, (Template, Variables)>, es: Entries<string>)
    requires Settled(templates)
    ensures AllHandedOut(origin, es, templates) ==> AllHandedOut(origin, es, Added(templates, t))
  {
    if AllHandedOut(origin, es, templates) {
      forall e | e in es ensures HandsOut(Added(templates, t), origin[e.0].0) {
        AddHandsOut(templates, t, origin[e.0].0);
      }
    }
  }

  lemma SnocVersion(ts: seq<Template>, t: Template)
    requires NoVersionTwice(ts)
    ensures NoVersionTwice(ts + [t]) <==> forall u :: u in ts ==> u.version != t.version
  {
    if NoVersionTwice(ts + [t]) {
      forall i | 0 <= i < |ts| ensures ts[i].version != t.version {
        assert (ts + [t])[i].version != (ts + [t])[|ts|].version;
      }
    }
  }

  lemma AddUnique(templates: Store, t: Template)
    requires UniqueVersions(templates)
    ensures UniqueVersions(templates[t.id := VersionsOf(templates, t.id) + [t]])
       <==> forall u :: u in VersionsOf(templates, t.id) ==> u.version != t.version
  {
    var after := templates[t.id := VersionsOf(templates, t.id) + [t]];
    SnocVersion(VersionsOf(templates, t.id), t);
    assert t.id in after;
    forall id | id in after && id != t.id ensures NoVersionTwice(after[id]) {
      assert id in templates;
    }
  }

  // ----- What rendering through the cache does not promise -----

  function PlainText(t: Template, vars: map<string, string>): string { t.text }

  function AnyText(t: Template): bool { true }

  function AnyVariables(t: Template, v: Variables): bool { true }

  function AnyOrder(a: string, b: string): bool { true }

  /** Registering versions out of order and then deriving a new one makes two templates of one version. */
  method VersionTwice() returns (m: PromptManager)
    ensures fresh(m) && fresh(m.cache) && m.Valid() && m.cache.entries == [] && m.cache.maxSize == 10
    ensures m.builder == PlainText && m.acceptsText == AnyText && m.variablesOk == AnyVariables && m.le == AnyOrder
    ensures m.templates == map["p" := [Template("p", 2, "two"), Template("p", 1, "one"), Template("p", 2, "new")]]
  {
    hide CacheValid, UniqueVersions, FromClean, WellFormed, Ascending;
    hide ValidId, Lookup, Settled, AllHandedOut, FindVersion;
    hide PromptManager.Valid, PromptManager.CachedClean, PromptManager.CachedCurrent, VersionsOf, Added, LastSpeaks;
    var two, one, derived := Template("p", 2, "two"), Template("p", 1, "one"), Template("p", 2, "new");
    PIsValidId();
    m := new PromptManager(10, PlainText, AnyText, AnyVariables, AnyOrder);
    OnlyId([], [two]);
    var ok := m.RegisterTemplate(two);
    assert ok && m.templates == map["p" := [two]];
    OnlyId([two], [two, one]);
    assert [two] + [one] == [two, one];
    ok := m.RegisterTemplate(one);
    assert ok && m.templates == map["p" := [two, one]];
    OnlyId([two, one], [two, one, derived]);
    assert [two, one] + [derived] == [two, one, derived];
    LastIsLatest(m.templates, "p", one);
    var r := m.VersionTemplate("p", "new");
  }

  lemma OnlyId(ts: seq<Template>, us: seq<Template>)
    ensures VersionsOf(map[], "p") == [] && [] + us == us
    ensures VersionsOf(map["p" := ts], "p") == ts
    ensures map["p" := ts]["p" := us] == map["p" := us]
    ensures map[]["p" := us] == map["p" := us]
  {
  }

  /**
   * Two requests for one version of an id in a row, each by number or for the last one. The second
   * gets what the first got; so unless the key was cached before, it is right exactly when the
   * builder makes the same of both templates.
   */
  method RenderTwice(m: PromptManager, id: string, v: Variables, version: Option<nat>, version': Option<nat>)
    returns (first: string, second: string)
    requires m.Valid()
    requires Lookup(m.templates, id, version).Some? && Lookup(m.templates, id, version').Some?
    requires Lookup(m.templates, id, version).value.version == Lookup(m.templates, id, version').value.version
    requires m.variablesOk(Lookup(m.templates, id, version).value, v)
    requires m.variablesOk(Lookup(m.templates, id, version').value, v)
    modifies m`origin, m`used, m.cache
    ensures m.Valid() && first == second
    ensures var t, t' := Lookup(m.templates, id, version).value, Lookup(m.templates, id, version').value;
            IndexOf(old(m.cache.entries), BuildKey(t, v, m.le)).None? ==>
              && first == m.builder(t, AsMap(v))
              && (second == m.builder(t', AsMap(v)) <==> m.builder(t, AsMap(v)) == m.builder(t', AsMap(v)))
  {
    hide BuildKey, CacheValid, UniqueVersions, FromClean, Clean;
    hide WellFormed, AsMap, Lookup, Settled, AllHandedOut, Agrees;
    hide PromptManager.CachedClean, PromptManager.CachedCurrent, PromptManager.Trusted, PromptManager.BuiltForKey;
    var t, t' := Lookup(m.templates, id, version).value, Lookup(m.templates, id, version').value;
    LookupKeepsId(m.templates, id, version);
    LookupKeepsId(m.templates, id, version');
    SameVersionSameKey(t, t', v, m.le);
    ghost var key, before := BuildKey(t, v, m.le), m.cache.entries;
    var r := m.Render(id, v, version);
    first := r.value;
    LastEntryFound(before, key, first, m.cache.maxSize);
    r := m.Render(id, v, version');
    second := r.value;
  }

  lemma LookupKeepsId(templates: Store, id: string, version: Option<nat>)
    requires WellFormed(templates) && Lookup(templates, id, version).Some?
    ensures Lookup(templates, id, version).value.id == id
  {
    LookupFindsStored(templates, id, version);
  }

  /** Whether found or added, the key just used is at the end of the cache. */
  lemma LastEntryFound(es: Entries<string>, key: string, value: string, maxSize: int)
    ensures IndexOf(es, key).None? ==>
              IndexOf(Room(es, maxSize) + [(key, value)], key) == Some(|Room(es, maxSize)|)
    ensures IndexOf(es, key).Some? ==>
              var moved := Moved(es, IndexOf(es, key).value);
              IndexOf(moved, key) == Some(|moved| - 1) && moved[|moved| - 1] == es[IndexOf(es, key).value]
  {
  }

  lemma IdGrammar(id: string)
    ensures ValidId(id) <==>
              id != "" && forall i :: 0 <= i < |id| ==>
                'a' <= id[i] <= 'z' || 'A' <= id[i] <= 'Z' || '0' <= id[i] <= '9' || id[i] in "-_"
  {
  }

  lemma PIsValidId()
    ensures ValidId("p")
  {
  }

  lemma LastIsLatest(templates: Store, id: string, t: Template)
    requires id in templates && templates[id] != [] && templates[id][|templates[id]| - 1] == t
    ensures Lookup(templates, id, None) == Some(t)
  {
  }

  /** A prompt cached for the first of two templates of one version is then served for the second. */
  method StaleVersionServed() returns (served: Option<string>, latest: Option<Template>)
    ensures served == Some("two") && latest == Some(Template("p", 2, "new"))
  {
    hide BuildKey, CacheValid, UniqueVersions, FromClean, Clean, WellFormed, AsMap, Settled, AllHandedOut, Agrees;
    hide PromptManager.Valid, PromptManager.CachedClean, PromptManager.CachedCurrent, PromptManager.Trusted;
    hide PromptManager.BuiltForKey;
    var m := VersionTwice();
    var first := m.Render("p", [], Some(2));
    SameVersionSameKey(Template("p", 2, "two"), Template("p", 2, "new"), [], AnyOrder);
    served := m.Render("p", [], None);
    latest := Lookup(m.templates, "p", None);
  }

  /**
   * A template handed out while two shared its version is served for the other one later, in a
   * store whose last template is the one its number finds again.
   */
  method OldTextServedLater() returns (served: Option<string>, found: Option<Template>)
    ensures served == Some("new") && found == Some(Template("p", 2, "two"))
  {
    hide BuildKey, CacheValid, UniqueVersions, FromClean, Clean, WellFormed, AsMap, Settled, AllHandedOut, Agrees;
    hide PromptManager.Valid, PromptManager.CachedClean, PromptManager.CachedCurrent, PromptManager.Trusted;
    hide PromptManager.BuiltForKey, Ascending, ValidId;
    var m := VersionTwice();
    var two, derived := Template("p", 2, "two"), Template("p", 2, "new");
    LastIsLatest(m.templates, "p", derived);
    var r := m.Render("p", [], None);
    PIsValidId();
    assert m.AcceptsTemplate(Template("p", 3, "three"));
    var next := m.VersionTemplate("p", "three");
    SameVersionSameKey(derived, two, [], AnyOrder);
    found := Lookup(m.templates, "p", Some(2));
    served := m.Render("p", [], Some(2));
  }

  lemma SameVersionSameKey(t: Template, t': Template, v: Variables, le: (string, string) -> bool)
    requires t.id == t'.id && t.version == t'.version
    ensures BuildKey(t, v, le) == BuildKey(t', v, le)
  {
  }
}
