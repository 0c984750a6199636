/**
 * The prompt cache (src/prompts/prompt-cache.ts): a cache key glued together from a template's id
 * and version and the sorted variables, and an insertion-ordered map used as a
 * least-recently-used cache.
 */
module PromptCache {
  import opened Prelude
  import Sorting

  // ----- Glued text -----

  function Join(parts: seq<string>, c: char): string {
    if parts == [] then ""
    else if |parts| == 1 then parts[0]
    else parts[0] + [c] + Join(parts[1..], c)
  }

  // ----- Numbers -----

  const DIGITS := "0123456789"

  /** Decimal notation. */
  function Decimal(n: nat): (s: string)
    ensures |s| >= 1 && (|s| == 1 <==> n < 10)
    ensures Free(s, ':')
  {
    if n < 10 then [DIGITS[n]] else Decimal(n / 10) + [DIGITS[n % 10]]
  }

  lemma {:induction false} DecimalIsInjective(m: nat, n: nat)
    requires Decimal(m) == Decimal(n)
    ensures m == n
    decreases m
  {
    var s := Decimal(m);
    assert s[|s| - 1] == DIGITS[m % 10] && s[|s| - 1] == DIGITS[n % 10];
    if m >= 10 {
      assert Decimal(m / 10) == s[..|s| - 1];
      assert Decimal(n / 10) == s[..|s| - 1];
      DecimalIsInjective(m / 10, n / 10);
    }
  }

  // ----- The cache key -----

  /** A template; `text` stands for everything the builder reads besides id and version. */
  datatype Template = Template(id: string, version: nat, text: string)

  /** The entries of a variables object, in the object's own order; names are distinct. */
  type Variables = v: seq<(string, string)> | DistinctNames(v) witness []

  predicate DistinctNames(v: seq<(string, string)>) {
    forall i, j :: 0 <= i < j < |v| ==> v[i].0 != v[j].0
  }

  function AsMap(v: Variables): map<string, string> {
    map i | 0 <= i < |v| :: v[i].0 := v[i].1
  }

  function ByName(le: (string, string) -> bool): ((string, string), (string, string)) -> bool {
    (d: (string, string), e: (string, string)) => le(d.0, e.0)
  }

  /** Entries sorted by name under the given comparison, equal ones in their first order. */
  function SortEntries(s: seq<(string, string)>, le: (string, string) -> bool): seq<(string, string)> {
    Sorting.Sort(s, ByName(le))
  }

  function Assignment(e: (string, string)): string {
    e.0 + "=" + e.1
  }

  function Assignments(s: seq<(string, string)>): (r: seq<string>)
    ensures |r| == |s| && forall i :: 0 <= i < |s| ==> r[i] == Assignment(s[i])
  {
    seq(|s|, i requires 0 <= i < |s| => Assignment(s[i]))
  }

  function VarHash(v: Variables, le: (string, string) -> bool): string {
    Spelled(SortEntries(v, le))
  }

  function BuildKey(t: Template, v: Variables, le: (string, string) -> bool): string {
    t.id + ":v" + Decimal(t.version) + ":" + VarHash(v, le)
  }

  /** Names without '=', values without '|'. */
  predicate Clean(v: seq<(string, string)>) {
    forall i :: 0 <= i < |v| ==> Free(v[i].0, '=') && Free(v[i].1, '|')
  }

  /** The template id grammar: letters, digits, hyphen and underscore. */
  predicate ValidId(id: string) {
    id != "" && forall i :: 0 <= i < |id| ==>
      'a' <= id[i] <= 'z' || 'A' <= id[i] <= 'Z' || '0' <= id[i] <= '9' || id[i] == '-' || id[i] == '_'
  }

  /** The joined assignments. */
  function Spelled(s: seq<(string, string)>): string {
    Join(Assignments(s), '|')
  }

  /** What follows the first name and its '='. */
  function AfterName(s: seq<(string, string)>): string
    requires s != []
  {
    if |s| == 1 then s[0].1 else s[0].1 + ['|'] + Spelled(s[1..])
  }

  lemma SpelledStart(s: seq<(string, string)>)
    requires s != []
    ensures Spelled(s) == s[0].0 + ['='] + AfterName(s)
  {
    var p := Assignments(s);
    if |s| > 1 {
      assert p[1..] == Assignments(s[1..]);
      assert Assignment(s[0]) + ['|'] + Spelled(s[1..]) == s[0].0 + ['='] + (s[0].1 + ['|'] + Spelled(s[1..]));
    }
  }

  lemma ValueEnds(s: seq<(string, string)>)
    requires s != [] && Clean(s)
    ensures FirstIndex(AfterName(s), '|') == |s[0].1| <= |AfterName(s)|
    ensures AfterName(s)[..|s[0].1|] == s[0].1
    ensures |AfterName(s)| == |s[0].1| <==> |s| == 1
  {
    if |s| == 1 {
      FirstIndexOfFree(s[0].1, '|');
    } else {
      FirstIndexAfterFree(s[0].1, Spelled(s[1..]), '|');
    }
  }

  /** Clean assignments can be read back: a name ends at its first '=', a value at the next '|'. */
  lemma {:induction false} SpellingIsInjective(s: seq<(string, string)>, t: seq<(string, string)>)
    requires Clean(s) && Clean(t) && Spelled(s) == Spelled(t)
    ensures s == t
    decreases |s|
  {
    hide Spelled, AfterName, FirstIndex;
    EmptySpelling(s);
    EmptySpelling(t);
    if s != [] {
      SpelledStart(s);
      SpelledStart(t);
      SplitAtFirst(s[0].0, AfterName(s), t[0].0, AfterName(t), '=');
      ValueEnds(s);
      ValueEnds(t);
      if |s| > 1 {
        SameRest(s, t);
        SpellingIsInjective(s[1..], t[1..]);
      }
      assert s == [s[0]] + s[1..] && t == [t[0]] + t[1..];
    }
  }

  lemma EmptySpelling(s: seq<(string, string)>)
    ensures Spelled(s) == "" <==> s == []
  {
    if s != [] {
      SpelledStart(s);
    }
  }

  lemma SameRest(s: seq<(string, string)>, t: seq<(string, string)>)
    requires |s| > 1 && |t| > 1 && Clean(s) && Clean(t) && AfterName(s) == AfterName(t)
    ensures Spelled(s[1..]) == Spelled(t[1..])
  {
    hide Spelled;
    SplitAtFirst(s[0].1, Spelled(s[1..]), t[0].1, Spelled(t[1..]), '|');
  }

  lemma PermutedClean(s: seq<(string, string)>, t: seq<(string, string)>)
    requires multiset(s) == multiset(t) && Clean(s)
    ensures Clean(t)
  {
    forall i | 0 <= i < |t| ensures Free(t[i].0, '=') && Free(t[i].1, '|') {
      assert t[i] in multiset(t);
      assert t[i] in multiset(s);
    }
  }

  lemma SameEntriesSameMap(v: Variables, w: Variables)
    requires multiset(v) == multiset(w)
    ensures AsMap(v) == AsMap(w)
  {
    MapHoldsEntries(v, w);
    MapHoldsEntries(w, v);
  }

  lemma MapHoldsEntries(v: Variables, w: Variables)
    requires multiset(v) == multiset(w)
    ensures forall n :: n in AsMap(v) ==> n in AsMap(w) && AsMap(w)[n] == AsMap(v)[n]
  {
    forall n | n in AsMap(v) ensures n in AsMap(w) && AsMap(w)[n] == AsMap(v)[n] {
      var i :| 0 <= i < |v| && v[i].0 == n;
      assert v[i] in multiset(v);
      assert v[i] in multiset(w);
      var j :| 0 <= j < |w| && w[j] == v[i];
    }
  }

  /** For clean variables and well-formed ids, equal keys mean equal id, version and variable map. */
  lemma KeyIsInjective(t: Template, v: Variables, t': Template, v': Variables, le: (string, string) -> bool)
    requires ValidId(t.id) && ValidId(t'.id) && Clean(v) && Clean(v')
    requires BuildKey(t, v, le) == BuildKey(t', v', le)
    ensures t.id == t'.id && t.version == t'.version && AsMap(v) == AsMap(v')
  {
    KeySplits(t.id, Decimal(t.version), VarHash(v, le), t'.id, Decimal(t'.version), VarHash(v', le));
    DecimalIsInjective(t.version, t'.version);
    Sorting.SortPermutes(v, ByName(le));
    Sorting.SortPermutes(v', ByName(le));
    var s, s' := SortEntries(v, le), SortEntries(v', le);
    PermutedClean(v, s);
    PermutedClean(v', s');
    SpellingIsInjective(s, s');
    SameEntriesSameMap(v, v');
  }

  lemma KeySplits(id: string, d: string, h: string, id': string, d': string, h': string)
    requires ValidId(id) && ValidId(id') && Free(d, ':') && Free(d', ':')
    requires id + ":v" + d + ":" + h == id' + ":v" + d' + ":" + h'
    ensures id == id' && d == d' && h == h'
  {
    assert Free(id, ':') && Free(id', ':');
    var r, r' := ("v" + d) + ":" + h, ("v" + d') + ":" + h';
    assert id + ":v" + d + ":" + h == id + [':'] + r;
    assert id' + ":v" + d' + ":" + h' == id' + [':'] + r';
    SplitAtFirst(id, r, id', r', ':');
    SplitAtFirst("v" + d, h, "v" + d', h', ':');
    assert d == ("v" + d)[1..] && d' == ("v" + d')[1..];
  }

  /** The comparison ranks names, and ties no two of them. */
  ghost predicate RanksNames(le: (string, string) -> bool) {
    Sorting.TotalOrder(le) && forall a, b :: le(a, b) && le(b, a) ==> a == b
  }

  lemma {:induction false} EachEntryOnce(v: seq<(string, string)>, e: (string, string))
    requires DistinctNames(v)
    ensures multiset(v)[e] == if e in v then 1 else 0
  {
    if v != [] {
      EachEntryOnce(v[1..], e);
      assert v == [v[0]] + v[1..];
    }
  }

  lemma SameMapSameEntries(v: Variables, w: Variables)
    requires AsMap(v) == AsMap(w)
    ensures multiset(v) == multiset(w)
  {
    forall e ensures multiset(v)[e] == multiset(w)[e] {
      EntryInMap(v, e);
      EntryInMap(w, e);
      EachEntryOnce(v, e);
      EachEntryOnce(w, e);
    }
  }

  lemma EntryInMap(v: Variables, e: (string, string))
    ensures e in v <==> e.0 in AsMap(v) && AsMap(v)[e.0] == e.1
  {
    if e in v {
      var i :| 0 <= i < |v| && v[i] == e;
      assert v[i].0 in AsMap(v);
    }
  }

  lemma EntriesAreRanked(v: Variables, s: seq<(string, string)>, le: (string, string) -> bool)
    requires RanksNames(le) && multiset(s) == multiset(v)
    ensures Sorting.TotalOrder(ByName(le)) && Sorting.Antisymmetric(s, ByName(le))
  {
    var byName := ByName(le);
    forall x, y ensures byName(x, y) || byName(y, x) {
      assert le(x.0, y.0) || le(y.0, x.0);
    }
    forall x, y, z | byName(x, y) && byName(y, z) ensures byName(x, z) {
      assert le(x.0, y.0) && le(y.0, z.0);
    }
    forall d, e | d in s && e in s && byName(d, e) && byName(e, d) ensures d == e {
      assert d in multiset(v) && e in multiset(v);
      EntryInMap(v, d);
      EntryInMap(v, e);
    }
  }

  /** The order in which variables were given does not show in the key. */
  lemma SameMapSameHash(v: Variables, w: Variables, le: (string, string) -> bool)
    requires RanksNames(le) && AsMap(v) == AsMap(w)
    ensures VarHash(v, le) == VarHash(w, le)
  {
    SameMapSameEntries(v, w);
    Sorting.SortPermutes(v, ByName(le));
    Sorting.SortPermutes(w, ByName(le));
    EntriesAreRanked(v, SortEntries(v, le), le);
    hide AsMap, RanksNames, ByName;
    Sorting.SortSorts(v, ByName(le));
    Sorting.SortSorts(w, ByName(le));
    var s := SortEntries(v, le);
    Sorting.SortedIsUnique(s, SortEntries(w, le), ByName(le));
  }

  /**
   * For clean variables a key is an id, a version and a variable map: equal keys mean these, and
   * these mean equal keys.
   */
  lemma KeysAgreeIff(t: Template, v: Variables, t': Template, v': Variables, le: (string, string) -> bool)
    requires ValidId(t.id) && ValidId(t'.id) && Clean(v) && Clean(v') && RanksNames(le)
    ensures BuildKey(t, v, le) == BuildKey(t', v', le)
       <==> t.id == t'.id && t.version == t'.version && AsMap(v) == AsMap(v')
  {
    hide VarHash, AsMap, Clean, RanksNames;
    if BuildKey(t, v, le) == BuildKey(t', v', le) {
      KeyIsInjective(t, v, t', v', le);
    }
    if AsMap(v) == AsMap(v') {
      SameMapSameHash(v, v', le);
    }
  }

  /** What a key looks like. */
  lemma KeyOfTwo(text: string, le: (string, string) -> bool)
    requires le("a", "b") && !le("b", "a")
    ensures BuildKey(Template("greet", 12, text), [("b", "2"), ("a", "1")], le) == "greet:v12:a=1|b=2"
  {
    TwoInOrder(le);
    TwoSpelled();
    Twelve();
    hide Spelled, SortEntries, Decimal;
  }

  lemma TwoInOrder(le: (string, string) -> bool)
    requires le("a", "b") && !le("b", "a")
    ensures SortEntries([("b", "2"), ("a", "1")], le) == [("a", "1"), ("b", "2")]
  {
    var a, b := ("a", "1"), ("b", "2");
    SortOfOne(a, le);
    assert [b, a][1..] == [a];
    assert SortEntries([b, a], le) == Sorting.Insert(b, SortEntries([a], le), ByName(le));
    assert Sorting.Insert(b, [a], ByName(le)) == [a] + Sorting.Insert(b, [a][1..], ByName(le)) == [a, b];
  }

  lemma TwoSpelled()
    ensures Spelled([("a", "1"), ("b", "2")]) == "a=1|b=2"
  {
    var a, b := ("a", "1"), ("b", "2");
    SpelledStart([a, b]);
    SpelledStart([b]);
    assert [a, b][1..] == [b];
  }

  lemma Twelve()
    ensures Decimal(12) == "12"
  {
    assert Decimal(1) == "1";
  }

  // ----- Why cleanliness is needed -----

  /** No variables, or one with no '=' beyond the one the key adds. */
  predicate Unmistakable(v: Variables) {
    v == [] || (|v| == 1 && Free(v[0].0, '=') && Free(v[0].1, '='))
  }

  /** Against all maps, clean or not, the key of a template and variables tells the variables exactly for these. */
  lemma KeyTellsVariablesIff(t: Template, v: Variables, le: (string, string) -> bool)
    ensures (forall w: Variables :: BuildKey(t, w, le) == BuildKey(t, v, le) ==> AsMap(w) == AsMap(v))
       <==> Unmistakable(v)
  {
    if Unmistakable(v) {
      forall w: Variables | BuildKey(t, w, le) == BuildKey(t, v, le) ensures AsMap(w) == AsMap(v) {
        SameTemplateSameHash(t, v, w, le);
        OnlyReading(v, w, le);
      }
    } else {
      var w := OtherReading(v, le);
      assert BuildKey(t, w, le) == BuildKey(t, v, le);
    }
  }

  lemma SameTemplateSameHash(t: Template, v: Variables, w: Variables, le: (string, string) -> bool)
    requires BuildKey(t, w, le) == BuildKey(t, v, le)
    ensures VarHash(w, le) == VarHash(v, le)
  {
    var p := t.id + ":v" + Decimal(t.version) + ":";
    assert VarHash(w, le) == BuildKey(t, w, le)[|p|..];
    assert VarHash(v, le) == BuildKey(t, v, le)[|p|..];
  }

  /** Every entry brings an '='. */
  lemma {:induction false} EntriesBringEquals(s: seq<(string, string)>)
    ensures multiset(Spelled(s))['='] >= |s|
  {
    if s != [] {
      EntriesBringEquals(s[1..]);
      SpelledStart(s);
      if |s| > 1 {
        assert Spelled(s) == (s[0].0 + ['='] + s[0].1 + ['|']) + Spelled(s[1..]);
      }
    }
  }

  lemma OnlyReading(v: Variables, w: Variables, le: (string, string) -> bool)
    requires Unmistakable(v) && VarHash(w, le) == VarHash(v, le)
    ensures AsMap(w) == AsMap(v)
  {
    hide Spelled, VarHash, AsMap;
    HashBounds(w, le);
    if v == [] {
      HashBounds(v, le);
    } else {
      assert v == [v[0]];
      HashOfOne(v[0], le);
      OnlyReadingOfOne(v[0], w, le);
    }
  }

  /** How many entries a key can stand for. */
  lemma HashBounds(w: Variables, le: (string, string) -> bool)
    ensures multiset(VarHash(w, le))['='] >= |w|
    ensures VarHash(w, le) == "" <==> w == []
  {
    hide Spelled;
    var s := SortEntries(w, le);
    Sorting.SortPermutes(w, ByName(le));
    SameSize(w, s);
    EntriesBringEquals(s);
    EmptySpelling(s);
  }

  lemma EqualsInAssignment(e: (string, string))
    ensures multiset(Assignment(e))['='] == multiset(e.0)['='] + 1 + multiset(e.1)['=']
    ensures Assignment(e) != ""
  {
  }

  lemma OnlyReadingOfOne(e: (string, string), w: Variables, le: (string, string) -> bool)
    requires Free(e.0, '=') && Free(e.1, '=') && VarHash(w, le) == Assignment(e)
    ensures w == [e]
  {
    hide VarHash, Assignment;
    HashBounds(w, le);
    EqualsInAssignment(e);
    assert |w| == 1;
    assert w == [w[0]];
    HashOfOne(w[0], le);
    EqualsInAssignment(w[0]);
    assert Free(w[0].0, '=');
    SameAssignment(e, w[0]);
  }

  lemma SameAssignment(d: (string, string), e: (string, string))
    requires Assignment(d) == Assignment(e) && Free(d.0, '=') && Free(e.0, '=')
    ensures d == e
  {
    SplitAtFirst(d.0, d.1, e.0, e.1, '=');
  }

  lemma SameSize<T>(s: seq<T>, t: seq<T>)
    requires multiset(s) == multiset(t)
    ensures |s| == |t|
  {
    assert |multiset(s)| == |s| && |multiset(t)| == |t|;
  }

  /** Any other map shares its key: several variables read as one, and one with another '=' reads two ways. */
  lemma OtherReading(v: Variables, le: (string, string) -> bool) returns (w: Variables)
    requires !Unmistakable(v)
    ensures VarHash(w, le) == VarHash(v, le) && AsMap(w) != AsMap(v)
  {
    if |v| > 1 {
      var s := SortEntries(v, le);
      Sorting.SortPermutes(v, ByName(le));
      SameSize(v, s);
      SpelledStart(s);
      w := [(s[0].0, AfterName(s))];
      HashOfOne(w[0], le);
      assert v[0].0 in AsMap(v) && v[1].0 in AsMap(v);
      assert v[0].0 != v[1].0;
    } else {
      HashOfOne(v[0], le);
      assert v == [v[0]];
      var name, value := v[0].0, v[0].1;
      if Free(name, '=') {
        var i :| 0 <= i < |value| && value[i] == '=';
        w := [(name + "=" + value[..i], value[i + 1..])];
        assert value == value[..i] + "=" + value[i + 1..];
        assert Assignment(v[0]) == Assignment(w[0]);
      } else {
        var i :| 0 <= i < |name| && name[i] == '=';
        w := [(name[..i], name[i + 1..] + "=" + value)];
        assert name == name[..i] + "=" + name[i + 1..];
        assert Assignment(v[0]) == Assignment(w[0]);
      }
      HashOfOne(w[0], le);
      assert |w[0].0| != |name|;
      assert w[0].0 in AsMap(w) && w[0].0 !in AsMap(v);
    }
  }

  /** A value that contains '|' followed by an assignment reads like one more variable. */
  lemma PipeInValueCollides(t: Template, a: string, x: string, b: string, y: string, le: (string, string) -> bool)
    requires a != b && le(a, b)
    ensures var v: Variables, w: Variables := [(a, x + "|" + Assignment((b, y)))], [(a, x), (b, y)];
            AsMap(v) != AsMap(w) && BuildKey(t, v, le) == BuildKey(t, w, le)
  {
    var v: Variables, w: Variables := [(a, x + "|" + Assignment((b, y)))], [(a, x), (b, y)];
    HashOfOne(v[0], le);
    HashOfTwo(w[0], w[1], le);
    assert w[1].0 in AsMap(w) && b !in AsMap(v);
    assert Assignment((a, x + "|" + Assignment((b, y)))) == Assignment((a, x)) + "|" + Assignment((b, y));
  }

  /** A name that contains '=' reads like a shorter name with a longer value. */
  lemma EqualsInNameCollides(t: Template, a: string, b: string, y: string, le: (string, string) -> bool)
    ensures var v: Variables, w: Variables := [(a + "=" + b, y)], [(a, b + "=" + y)];
            AsMap(v) != AsMap(w) && BuildKey(t, v, le) == BuildKey(t, w, le)
  {
    var v: Variables, w: Variables := [(a + "=" + b, y)], [(a, b + "=" + y)];
    HashOfOne(v[0], le);
    HashOfOne(w[0], le);
    assert Assignment(v[0]) == Assignment(w[0]);
    assert |v[0].0| > |a|;
    assert w[0].0 in AsMap(w) && a !in AsMap(v);
  }

  lemma SortOfOne(e: (string, string), le: (string, string) -> bool)
    ensures SortEntries([e], le) == [e]
  {
    assert [e][1..] == [];
    assert Sorting.Sort([e], ByName(le)) == Sorting.Insert(e, Sorting.Sort([e][1..], ByName(le)), ByName(le));
  }

  lemma HashOfOne(e: (string, string), le: (string, string) -> bool)
    ensures VarHash([e], le) == Assignment(e)
  {
    SortOfOne(e, le);
  }

  lemma HashOfTwo(d: (string, string), e: (string, string), le: (string, string) -> bool)
    requires d.0 != e.0 && le(d.0, e.0)
    ensures VarHash([d, e], le) == Assignment(d) + "|" + Assignment(e)
  {
    assert [d, e][1..] == [e] && [e][1..] == [];
    SortOfOne(e, le);
    assert SortEntries([d, e], le) == Sorting.Insert(d, SortEntries([e], le), ByName(le)) == [d, e];
    var p := Assignments([d, e]);
    assert p[1..] == [Assignment(e)];
    assert Join(p, '|') == p[0] + ['|'] + Join(p[1..], '|');
  }

  // ----- Least recently used -----

  function IsNot(k: string): string -> bool { (x: string) => x != k }

  /** The keys used so far, each once, from the least to the most recently used. */
  function Recency(used: seq<string>): seq<string> {
    if used == [] then []
    else Touched(Recency(used[..|used| - 1]), used[|used| - 1])
  }

  /** k moves to the most recent end. */
  function Touched(r: seq<string>, k: string): seq<string> {
    Filter(r, IsNot(k)) + [k]
  }

  lemma {:induction false} FilterKeepsDistinct(r: seq<string>, k: string)
    requires Distinct(r)
    ensures Distinct(Filter(r, IsNot(k)))
  {
    if r != [] {
      FilterKeepsDistinct(r[1..], k);
      FilterMembers(r[1..], IsNot(k));
      assert forall x :: x in r[1..] ==> x != r[0];
    }
  }

  lemma TouchedIsDistinct(r: seq<string>, k: string)
    requires Distinct(r)
    ensures Distinct(Touched(r, k))
  {
    FilterKeepsDistinct(r, k);
    FilterMembers(r, IsNot(k));
    SnocDistinct(Filter(r, IsNot(k)), k);
  }

  lemma SnocDistinct(s: seq<string>, k: string)
    requires Distinct(s) && k !in s
    ensures Distinct(s + [k])
  {
  }

  lemma {:induction false} RecencyIsDistinct(used: seq<string>)
    ensures Distinct(Recency(used))
  {
    if used != [] {
      RecencyIsDistinct(used[..|used| - 1]);
      TouchedIsDistinct(Recency(used[..|used| - 1]), used[|used| - 1]);
    }
  }

  /** A hit on one of the n most recent keys reorders just these. */
  lemma HitIsTouch(r: seq<string>, k: string, n: nat)
    requires Distinct(r) && k in LastN(r, n)
    ensures LastN(Touched(r, k), n) == Touched(LastN(r, n), k)
  {
    var s := LastN(r, n);
    var p := r[..|r| - |s|];
    assert r == p + s;
    DistinctParts(p, s, k);
    FilterAll(p, IsNot(k));
    FilterAppend(p, s, IsNot(k));
    ConcatAssociates(p, Filter(s, IsNot(k)), [k]);
    FilterOneOut(s, k);
    LastNOfAppend(p, Touched(s, k), n);
  }

  lemma DistinctParts(p: seq<string>, s: seq<string>, k: string)
    requires Distinct(p + s) && k in s
    ensures k !in p && Distinct(s)
  {
    var j :| 0 <= j < |s| && s[j] == k;
    forall i | 0 <= i < |p| ensures p[i] != k {
      assert (p + s)[i] != (p + s)[|p| + j];
    }
    forall a, b | 0 <= a < b < |s| ensures s[a] != s[b] {
      assert (p + s)[|p| + a] != (p + s)[|p| + b];
    }
  }

  lemma LastNOfAppend(a: seq<string>, b: seq<string>, n: nat)
    requires |b| == n || (|b| < n && a == [])
    ensures LastN(a + b, n) == b
  {
  }

  lemma {:induction false} FilterOneOut(s: seq<string>, k: string)
    requires Distinct(s) && k in s
    ensures |Filter(s, IsNot(k))| == |s| - 1
  {
    if s[0] == k {
      forall x | x in s[1..] ensures x != k {
      }
      FilterAll(s[1..], IsNot(k));
    } else {
      FilterOneOut(s[1..], k);
    }
  }

  /** A miss adds the key, and the least recent of n leaves when there is no room. */
  lemma MissIsTouch(r: seq<string>, k: string, n: nat)
    requires n >= 1 && k !in LastN(r, n)
    ensures LastN(Touched(r, k), n) == (if |LastN(r, n)| >= n then LastN(r, n)[1..] else LastN(r, n)) + [k]
  {
    var s := LastN(r, n);
    var p := r[..|r| - |s|];
    assert r == p + s;
    FilterAppend(p, s, IsNot(k));
    FilterAll(s, IsNot(k));
    if |s| >= n {
      PushOut(Filter(p, IsNot(k)), s, k);
      LastNOfAppend(Filter(p, IsNot(k)) + [s[0]], s[1..] + [k], n);
    } else {
      assert p == [];
      assert Touched(r, k) == s + [k];
    }
  }

  lemma PushOut(q: seq<string>, s: seq<string>, k: string)
    requires s != []
    ensures (q + s) + [k] == (q + [s[0]]) + (s[1..] + [k])
  {
    assert s == [s[0]] + s[1..];
  }

  // ----- The cache object -----

  /** An insertion-ordered map from keys to rendered prompts. */
  type Entries<R> = seq<(string, R)>

  function Keys<R>(es: Entries<R>): (r: seq<string>)
    ensures |r| == |es| && forall i :: 0 <= i < |es| ==> r[i] == es[i].0
  {
    seq(|es|, i requires 0 <= i < |es| => es[i].0)
  }

  function IndexOf<R>(es: Entries<R>, k: string): (r: Option<nat>)
    ensures r.Some? ==> r.value < |es| && es[r.value].0 == k
    ensures r.None? ==> k !in Keys(es)
  {
    if es == [] then None
    else if es[|es| - 1].0 == k then Some(|es| - 1)
    else IndexOf(es[..|es| - 1], k)
  }

  class PromptCache<R> {
    const maxSize: int
    var entries: Entries<R>
    var totalHits: nat
    var totalMisses: nat

    constructor (maxSize: int)
      ensures entries == [] && this.maxSize == maxSize && totalHits == 0 && totalMisses == 0
    {
      this.maxSize, entries, totalHits, totalMisses := maxSize, [], 0, 0;
    }

    /** A hit returns the value and moves its entry to the end; a miss changes nothing but the count. */
    method Get(key: string) returns (r: Option<R>)
      modifies this
      ensures match IndexOf(old(entries), key)
              case None => r == None && entries == old(entries)
              case Some(i) => r == Some(old(entries)[i].1) && entries == Moved(old(entries), i)
      ensures totalHits + totalMisses == old(totalHits) + old(totalMisses) + 1
      ensures totalHits == old(totalHits) + if r.Some? then 1 else 0
    {
      match IndexOf(entries, key) {
        case Some(i) =>
          totalHits := totalHits + 1;
          var entry := entries[i];
          entries := entries[..i] + entries[i + 1..];
          entries := entries + [entry];
          return Some(entry.1);
        case None =>
          totalMisses := totalMisses + 1;
          return None;
      }
    }

    /** A full cache first loses its oldest entry; then the key is added at the end, or updated where it stands. */
    method Set(key: string, value: R)
      modifies this
      ensures var room := Room(old(entries), maxSize);
              entries == match IndexOf(room, key)
                         case None => room + [(key, value)]
                         case Some(i) => room[i := (key, value)]
      ensures totalHits == old(totalHits) && totalMisses == old(totalMisses)
    {
      if |entries| >= maxSize {
        if |entries| > 0 {
          entries := entries[1..];
        }
      }
      match IndexOf(entries, key) {
        case None => entries := entries + [(key, value)];
        case Some(i) => entries := entries[i := (key, value)];
      }
    }
  }

  lemma TouchMoves(ks: seq<string>, i: nat)
    requires i < |ks| && Distinct(ks)
    ensures Touched(ks, ks[i]) == (ks[..i] + ks[i + 1..]) + [ks[i]]
  {
    var k, a, b := ks[i], ks[..i], ks[i + 1..];
    assert ks == a + ([k] + b);
    FilterAppend(a, [k] + b, IsNot(k));
    FilterCons(k, b, IsNot(k));
    forall x | x in a ensures IsNot(k)(x) {
    }
    forall x | x in b ensures IsNot(k)(x) {
    }
    FilterAll(a, IsNot(k));
    FilterAll(b, IsNot(k));
  }

  /** Moving entry i to the end touches its key. */
  lemma MovedIsTouched<R>(es: Entries<R>, i: nat)
    requires i < |es| && Distinct(Keys(es))
    ensures Keys(Moved(es, i)) == Touched(Keys(es), es[i].0)
  {
    TouchMoves(Keys(es), i);
  }

  /** What Get leaves on a hit. */
  function Moved<R>(es: Entries<R>, i: nat): Entries<R>
    requires i < |es|
  {
    es[..i] + es[i + 1..] + [es[i]]
  }

  /** What Set makes room for. */
  function Room<R>(es: Entries<R>, maxSize: int): Entries<R> {
    if |es| >= maxSize && es != [] then es[1..] else es
  }

  lemma RecencySnoc(used: seq<string>, k: string)
    ensures Recency(used + [k]) == Touched(Recency(used), k)
  {
    assert (used + [k])[..|used|] == used;
  }

  /** After a hit the cache still holds the n most recently used keys, in order, with their values. */
  lemma HitKeepsRecency<R(!new)>(es: Entries<R>, i: nat, used: seq<string>, n: nat)
    requires i < |es| && Keys(es) == LastN(Recency(used), n)
    ensures Keys(Moved(es, i)) == LastN(Recency(used + [es[i].0]), n)
    ensures forall e :: e in Moved(es, i) ==> e in es
  {
    hide Recency, Filter, LastN, Moved, Touched;
    var k := es[i].0;
    RecencyIsDistinct(used);
    LastNDistinct(Recency(used), n);
    MovedIsTouched(es, i);
    assert Keys(es)[i] == k;
    HitIsTouch(Recency(used), k, n);
    RecencySnoc(used, k);
    MovedMembers(es, i);
  }

  lemma MovedMembers<R(!new)>(es: Entries<R>, i: nat)
    requires i < |es|
    ensures forall e :: e in Moved(es, i) ==> e in es
  {
  }

  lemma LastNDistinct(s: seq<string>, n: nat)
    requires Distinct(s)
    ensures Distinct(LastN(s, n))
  {
  }

  /** After a miss too: with no room the least recently used key has gone, and no other. */
  lemma MissKeepsRecency<R(!new)>(es: Entries<R>, k: string, v: R, used: seq<string>, maxSize: int)
    requires Keys(es) == LastN(Recency(used), Max(1, maxSize)) && k !in Keys(es)
    ensures Keys(Room(es, maxSize) + [(k, v)]) == LastN(Recency(used + [k]), Max(1, maxSize))
    ensures IndexOf(Room(es, maxSize), k) == None
    ensures forall e :: e in Room(es, maxSize) ==> e in es && e.0 != k
  {
    hide Recency, Filter, LastN, Touched, Room, Keys, IndexOf;
    var n: nat := Max(1, maxSize);
    RoomMembers(es, k, maxSize);
    RoomKeys(es, k, v, maxSize);
    MissIsTouch(Recency(used), k, n);
    RecencySnoc(used, k);
  }

  lemma RoomMembers<R(!new)>(es: Entries<R>, k: string, maxSize: int)
    requires k !in Keys(es)
    ensures IndexOf(Room(es, maxSize), k) == None
    ensures forall e :: e in Room(es, maxSize) ==> e in es && e.0 != k
  {
    hide IndexOf;
    var room := Room(es, maxSize);
    var d := |es| - |room|;
    forall j | 0 <= j < |room| ensures room[j] == es[d + j] && room[j].0 != k {
      assert Keys(es)[d + j] == es[d + j].0;
    }
  }

  lemma RoomKeys<R(!new)>(es: Entries<R>, k: string, v: R, maxSize: int)
    requires |Keys(es)| <= Max(1, maxSize)
    ensures Keys(Room(es, maxSize) + [(k, v)])
         == (if |Keys(es)| >= Max(1, maxSize) then Keys(es)[1..] else Keys(es)) + [k]
  {
  }
}
