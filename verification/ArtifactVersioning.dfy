/**
 * Version chains and the line diff (src/artifact/artifact-versioning.ts).
 */
module ArtifactVersioning {
  import opened Prelude

  // ----- The line diff -----

  type Line = string

  /** A run of `count` changed positions; `start` counts from one, in both files. */
  datatype Hunk = Hunk(start: nat, count: nat)

  /** The line at position i, if the file is that long. */
  function At(lines: seq<Line>, i: nat): Option<Line> {
    if i < |lines| then Some(lines[i]) else None
  }

  predicate Changed(before: seq<Line>, after: seq<Line>, i: nat) {
    At(before, i) != At(after, i)
  }

  predicate Covers(h: Hunk, i: nat) {
    h.start <= i + 1 < h.start + h.count
  }

  predicate Covered(hs: seq<Hunk>, i: nat) {
    exists k :: 0 <= k < |hs| && Covers(hs[k], i)
  }

  /** No hunk is empty, they come in order, and an uncovered position lies between any two. */
  ghost predicate Apart(hs: seq<Hunk>) {
    && (forall k :: 0 <= k < |hs| ==> hs[k].start >= 1 && hs[k].count >= 1)
    && (forall j, k :: 0 <= j < k < |hs| ==> hs[j].start + hs[j].count < hs[k].start)
  }

  /** The hunks are exactly the maximal runs of changed positions. */
  ghost predicate IsDiff(before: seq<Line>, after: seq<Line>, hs: seq<Hunk>) {
    Apart(hs) && forall i: nat :: Covered(hs, i) <==> Changed(before, after, i)
  }

  /** The hunks describe the positions before n, and none reaches the last of them. */
  ghost predicate DiffUpTo(before: seq<Line>, after: seq<Line>, hs: seq<Hunk>, n: nat) {
    && Apart(hs)
    && (forall k :: 0 <= k < |hs| ==> hs[k].start + hs[k].count <= n)
    && (forall i :: 0 <= i < n ==> (Covered(hs, i) <==> Changed(before, after, i)))
  }

  method ComputeLineDiff(oldLines: seq<Line>, newLines: seq<Line>) returns (hunks: seq<Hunk>)
    ensures IsDiff(oldLines, newLines, hunks)
  {
    hunks := [];
    var maxLen := Max(|oldLines|, |newLines|);
    var start, count := -1, 0;
    for i := 0 to maxLen + 1
      invariant if start == -1 then count == 0 && DiffUpTo(oldLines, newLines, hunks, i)
                else
                  && 0 <= start < i && count == i - start && DiffUpTo(oldLines, newLines, hunks, start)
                  && forall j :: start <= j < i ==> Changed(oldLines, newLines, j)
      invariant i == maxLen + 1 ==> start == -1
    {
      var oldLine, newLine := At(oldLines, i), At(newLines, i);
      if oldLine != newLine {
        if start == -1 {
          start := i;
        }
        count := count + 1;
      } else if start != -1 {
        HunkCloses(oldLines, newLines, hunks, start, i);
        hunks := hunks + [Hunk(start + 1, count)];
        start, count := -1, 0;
      } else {
        StaysClosed(oldLines, newLines, hunks, i);
      }
    }
    NothingBeyond(oldLines, newLines, hunks, maxLen + 1);
  }

  lemma StaysClosed(before: seq<Line>, after: seq<Line>, hs: seq<Hunk>, i: nat)
    requires DiffUpTo(before, after, hs, i) && !Changed(before, after, i)
    ensures DiffUpTo(before, after, hs, i + 1)
  {
  }

  lemma HunkCloses(before: seq<Line>, after: seq<Line>, hs: seq<Hunk>, start: nat, i: nat)
    requires start < i && DiffUpTo(before, after, hs, start) && !Changed(before, after, i)
    requires forall j :: start <= j < i ==> Changed(before, after, j)
    ensures DiffUpTo(before, after, hs + [Hunk(start + 1, i - start)], i + 1)
  {
    var h := Hunk(start + 1, i - start);
    forall j | 0 <= j < i + 1 ensures Covered(hs + [h], j) <==> Changed(before, after, j) {
      CoveredSnoc(hs, h, j);
    }
  }

  lemma CoveredSnoc(hs: seq<Hunk>, h: Hunk, j: nat)
    ensures Covered(hs + [h], j) <==> Covered(hs, j) || Covers(h, j)
  {
    if Covered(hs, j) {
      var k :| 0 <= k < |hs| && Covers(hs[k], j);
      assert (hs + [h])[k] == hs[k];
    }
    if Covers(h, j) {
      assert (hs + [h])[|hs|] == h;
    }
  }

  lemma NothingBeyond(before: seq<Line>, after: seq<Line>, hs: seq<Hunk>, n: nat)
    requires DiffUpTo(before, after, hs, n) && |before| <= n && |after| <= n
    ensures IsDiff(before, after, hs)
  {
  }

  /** The description leaves no freedom: two separated lists that cover the same positions are equal. */
  lemma {:induction false} CoverDecides(hs: seq<Hunk>, gs: seq<Hunk>)
    requires Apart(hs) && Apart(gs) && forall i: nat :: Covered(hs, i) <==> Covered(gs, i)
    ensures hs == gs
    decreases |hs|
  {
    if hs == [] || gs == [] {
      FirstIsCovered(hs);
      FirstIsCovered(gs);
    } else {
      FirstCovers(hs, gs);
      FirstCovers(gs, hs);
      forall i: nat ensures Covered(hs[1..], i) <==> Covered(gs[1..], i) {
        CoveredRest(hs, i);
        CoveredRest(gs, i);
      }
      CoverDecides(hs[1..], gs[1..]);
      assert hs == [hs[0]] + hs[1..] && gs == [gs[0]] + gs[1..];
    }
  }

  lemma FirstIsCovered(hs: seq<Hunk>)
    requires Apart(hs)
    ensures hs != [] ==> Covered(hs, hs[0].start - 1)
  {
    if hs != [] {
      assert Covers(hs[0], hs[0].start - 1);
    }
  }

  /** The first hunk starts no later and ends no later than the other list's first. */
  lemma FirstCovers(hs: seq<Hunk>, gs: seq<Hunk>)
    requires Apart(hs) && Apart(gs) && hs != [] && gs != [] && forall i: nat :: Covered(hs, i) <==> Covered(gs, i)
    ensures hs[0].start <= gs[0].start
    ensures hs[0].start == gs[0].start ==> hs[0].count <= gs[0].count
  {
    FirstIsCovered(gs);
    var k :| 0 <= k < |hs| && Covers(hs[k], gs[0].start - 1);
    assert k > 0 ==> hs[0].start + hs[0].count < hs[k].start;
    GapAfterFirst(gs);
    FirstRuns(hs);
  }

  lemma FirstRuns(hs: seq<Hunk>)
    requires Apart(hs) && hs != []
    ensures forall i: nat :: hs[0].start <= i + 1 < hs[0].start + hs[0].count ==> Covered(hs, i)
  {
    forall i: nat | hs[0].start <= i + 1 < hs[0].start + hs[0].count ensures Covered(hs, i) {
      assert Covers(hs[0], i);
    }
  }

  lemma GapAfterFirst(hs: seq<Hunk>)
    requires Apart(hs) && hs != []
    ensures !Covered(hs, hs[0].start + hs[0].count - 1)
  {
  }

  lemma CoveredRest(hs: seq<Hunk>, i: nat)
    requires Apart(hs) && hs != []
    ensures Covered(hs[1..], i) <==> Covered(hs, i) && !Covers(hs[0], i)
  {
    if Covered(hs[1..], i) {
      var k :| 0 <= k < |hs| - 1 && Covers(hs[1..][k], i);
      assert hs[k + 1] == hs[1..][k];
      assert hs[0].start + hs[0].count < hs[k + 1].start;
    }
    if Covered(hs, i) && !Covers(hs[0], i) {
      var k :| 0 <= k < |hs| && Covers(hs[k], i);
      assert hs[1..][k - 1] == hs[k];
    }
  }

  lemma DiffIsUnique(before: seq<Line>, after: seq<Line>, hs: seq<Hunk>, gs: seq<Hunk>)
    requires IsDiff(before, after, hs) && IsDiff(before, after, gs)
    ensures hs == gs
  {
    CoverDecides(hs, gs);
  }

  /** There are no hunks exactly when the files are equal. */
  lemma NoHunksIffEqual(before: seq<Line>, after: seq<Line>, hs: seq<Hunk>)
    requires IsDiff(before, after, hs)
    ensures hs == [] <==> before == after
  {
    if hs == [] {
      assert forall i: nat :: !Covered(hs, i) && At(before, i) == At(after, i);
      SameLinesSameFile(before, after);
    } else {
      FirstIsCovered(hs);
      assert Changed(before, after, hs[0].start - 1);
    }
  }

  lemma SameLinesSameFile(a: seq<Line>, b: seq<Line>)
    requires forall i: nat :: At(a, i) == At(b, i)
    ensures a == b
  {
    assert At(a, |a|) == At(b, |a|) && At(a, |b|) == At(b, |b|);
    forall i | 0 <= i < |a| ensures a[i] == b[i] {
      assert At(a, i) == At(b, i);
    }
  }

  /** Taking covered positions from the new file and all others from the old one, from position i on. */
  function Patched(before: seq<Line>, after: seq<Line>, hs: seq<Hunk>, i: nat): seq<Line>
    decreases Max(|before|, |after|) - i
  {
    var line := if Covered(hs, i) then At(after, i) else At(before, i);
    if line.None? || i > Max(|before|, |after|) then [] else [line.value] + Patched(before, after, hs, i + 1)
  }

  /** Applying a diff to the old file gives the new file. */
  lemma {:induction false} PatchGivesNew(before: seq<Line>, after: seq<Line>, hs: seq<Hunk>, i: nat)
    requires IsDiff(before, after, hs) && i <= |after|
    ensures Patched(before, after, hs, i) == after[i..]
    decreases |after| - i
  {
    assert Covered(hs, i) <==> Changed(before, after, i);
    if i < |after| {
      PatchGivesNew(before, after, hs, i + 1);
    }
  }

  // ----- Version chains -----

  type ArtifactId = s: string | s != "" witness "a"

  datatype Artifact = Artifact(id: ArtifactId, version: nat, parent: Option<ArtifactId>, passed: bool, content: string)

  /** What `getArtifact` can find. */
  type Store = map<ArtifactId, Artifact>

  function Get(store: Store, id: ArtifactId): Option<Artifact> {
    if id in store then Some(store[id]) else None
  }

  /** The artifact an artifact derives from, if it names one that can be found. */
  function ParentOf(store: Store, a: Artifact): Option<Artifact> {
    if a.parent.None? then None else Get(store, a.parent.value)
  }

  ghost predicate HasId(c: seq<Artifact>, id: ArtifactId) {
    exists k :: 0 <= k < |c| && c[k].id == id
  }

  ghost predicate DistinctIds(c: seq<Artifact>) {
    forall i, j :: 0 <= i < j < |c| ==> c[i].id != c[j].id
  }

  ghost predicate StepsUp(store: Store, up: seq<Artifact>, i: nat)
    requires i < |up| - 1
  {
    ParentOf(store, up[i]) == Some(up[i + 1])
  }

  /** From `first` upwards, each the parent of the one before, no id twice. */
  ghost predicate IsClimb(store: Store, up: seq<Artifact>, first: Artifact) {
    && |up| >= 1 && up[0] == first && DistinctIds(up)
    && forall i :: 0 <= i < |up| - 1 ==> StepsUp(store, up, i)
  }

  /** The climb can go no further: no parent is found, or it has been met already. */
  ghost predicate Ended(store: Store, up: seq<Artifact>)
    requires up != []
  {
    var p := ParentOf(store, up[|up| - 1]);
    p.None? || HasId(up, p.value.id)
  }

  /** One climb extends another as far as the shorter goes. */
  lemma {:induction false} ClimbsAgree(store: Store, up: seq<Artifact>, vp: seq<Artifact>, first: Artifact, i: nat)
    requires IsClimb(store, up, first) && IsClimb(store, vp, first) && i < |up| && i < |vp|
    ensures up[i] == vp[i]
  {
    if i > 0 {
      ClimbsAgree(store, up, vp, first, i - 1);
      assert StepsUp(store, up, i - 1) && StepsUp(store, vp, i - 1);
    }
  }

  lemma EndedIsNoShorter(store: Store, up: seq<Artifact>, vp: seq<Artifact>, first: Artifact)
    requires IsClimb(store, up, first) && Ended(store, up) && IsClimb(store, vp, first)
    ensures |vp| <= |up|
  {
    if |vp| > |up| {
      var n := |up| - 1;
      ClimbsAgree(store, up, vp, first, n);
      assert StepsUp(store, vp, n);
      var k :| 0 <= k < |up| && up[k].id == vp[n + 1].id;
      ClimbsAgree(store, up, vp, first, k);
      assert false;
    }
  }

  /** There is one climb that has ended, so the two predicates say exactly what a walk returns. */
  lemma EndedClimbIsUnique(store: Store, up: seq<Artifact>, vp: seq<Artifact>, first: Artifact)
    requires IsClimb(store, up, first) && Ended(store, up) && IsClimb(store, vp, first) && Ended(store, vp)
    ensures up == vp
  {
    EndedIsNoShorter(store, up, vp, first);
    EndedIsNoShorter(store, vp, up, first);
    forall i | 0 <= i < |up| ensures up[i] == vp[i] {
      ClimbsAgree(store, up, vp, first, i);
    }
  }

  lemma ReversedTwice<T>(s: seq<T>)
    ensures Reversed(Reversed(s)) == s
  {
  }

  /** A chain lists a climb root first. */
  ghost predicate IsChain(store: Store, c: seq<Artifact>, id: ArtifactId) {
    id in store && IsClimb(store, Reversed(c), store[id]) && Ended(store, Reversed(c))
  }

  lemma ChainIsUnique(store: Store, c: seq<Artifact>, d: seq<Artifact>, id: ArtifactId)
    requires IsChain(store, c, id) && IsChain(store, d, id)
    ensures c == d
  {
    EndedClimbIsUnique(store, Reversed(c), Reversed(d), store[id]);
    ReversedTwice(c);
    ReversedTwice(d);
  }

  ghost function IdsIn(store: Store): set<ArtifactId> {
    set k | k in store :: store[k].id
  }

  method WalkChain(store: Store, id: ArtifactId) returns (r: Option<seq<Artifact>>)
    ensures r.None? <==> id !in store
    ensures r.Some? ==> IsChain(store, r.value, id)
  {
    var current := Get(store, id);
    if current.None? {
      return None;
    }
    var up: seq<Artifact>, visited: set<ArtifactId> := [], {};
    while current.Some?
      invariant Walking(store, up, visited, current, id)
      decreases |IdsIn(store) - visited|, current.Some?
    {
      if current.value.id in visited {
        break;
      }
      WalkOneMore(store, up, visited, current.value, id);
      visited := visited + {current.value.id};
      up := up + [current.value];
      current := ParentOf(store, current.value);
    }
    WalkEnds(store, up, visited, current, id);
    r := Some(Reversed(up));
  }

  /** Halfway: the artifacts collected so far, their ids, and the artifact to look at next. */
  ghost predicate Walking(store: Store, up: seq<Artifact>, visited: set<ArtifactId>, current: Option<Artifact>,
                          id: ArtifactId) {
    && id in store && visited <= IdsIn(store) && (forall x :: x in visited <==> HasId(up, x))
    && (up == [] ==> current == Some(store[id]))
    && (up != [] ==> IsClimb(store, up, store[id]) && current == ParentOf(store, up[|up| - 1]))
  }

  lemma WalkOneMore(store: Store, up: seq<Artifact>, visited: set<ArtifactId>, a: Artifact, id: ArtifactId)
    requires Walking(store, up, visited, Some(a), id) && a.id !in visited
    ensures Walking(store, up + [a], visited + {a.id}, ParentOf(store, a), id)
    ensures |IdsIn(store) - (visited + {a.id})| < |IdsIn(store) - visited|
  {
    ClimbGrows(store, up, a, id);
    SmallerRemainder(IdsIn(store), visited, a.id);
  }

  lemma WalkEnds(store: Store, up: seq<Artifact>, visited: set<ArtifactId>, current: Option<Artifact>, id: ArtifactId)
    requires Walking(store, up, visited, current, id) && (current.Some? ==> current.value.id in visited)
    ensures IsChain(store, Reversed(up), id)
  {
    hide IsClimb, Reversed, ParentOf, IdsIn;
    assert current.Some? ==> HasId(up, current.value.id);
    assert up != [];
    ReversedTwice(up);
  }

  lemma ClimbGrows(store: Store, up: seq<Artifact>, a: Artifact, id: ArtifactId)
    requires id in store && !HasId(up, a.id)
    requires up == [] ==> a == store[id]
    requires up != [] ==> IsClimb(store, up, store[id]) && ParentOf(store, up[|up| - 1]) == Some(a)
    ensures IsClimb(store, up + [a], store[id])
    ensures forall x :: HasId(up + [a], x) <==> HasId(up, x) || x == a.id
    ensures a.id in IdsIn(store)
  {
    var next := up + [a];
    forall i | 0 <= i < |next| - 1 ensures StepsUp(store, next, i) {
      assert i < |up| - 1 ==> StepsUp(store, up, i);
    }
    forall i, j | 0 <= i < j < |next| ensures next[i].id != next[j].id {
      assert j == |up| ==> up[i].id != a.id;
    }
    forall x ensures HasId(next, x) <==> HasId(up, x) || x == a.id {
      if HasId(up, x) {
        var k :| 0 <= k < |up| && up[k].id == x;
        assert next[k].id == x;
      }
      assert next[|up|].id == a.id;
    }
  }

  /** The verified version nearest to the end of the chain. */
  method GetLatestVerified(store: Store, id: ArtifactId) returns (r: Option<Artifact>)
    ensures r.Some? ==>
              exists c: seq<Artifact>, k: nat :: IsChain(store, c, id) && LatestPassed(c, k) && r.value == c[k]
    ensures r.None? <==> id !in store
                         || exists c: seq<Artifact> ::
                              IsChain(store, c, id) && forall j :: 0 <= j < |c| ==> !c[j].passed
  {
    var chain := WalkChain(store, id);
    if chain.None? {
      return None;
    }
    var c := chain.value;
    for i := |c| downto 0
      invariant forall j :: i <= j < |c| ==> !c[j].passed
    {
      if c[i].passed {
        forall d | IsChain(store, d, id) ensures d == c {
          ChainIsUnique(store, c, d, id);
        }
        assert LatestPassed(c, i);
        return Some(c[i]);
      }
    }
    return None;
  }

  // ----- Making versions -----

  /** A new version derives from its parent, counts one up and starts unverified. */
  function NextVersion(parent: Artifact, id: ArtifactId, content: string): Artifact {
    Artifact(id, parent.version + 1, Some(parent.id), false, content)
  }

  /** A history made by a first version and successive next versions. */
  ghost predicate IsHistory(c: seq<Artifact>) {
    && |c| >= 1 && c[0].version == 1 && c[0].parent == None
    && forall i :: 0 <= i < |c| - 1 ==> Derives(c, i)
  }

  ghost predicate Derives(c: seq<Artifact>, i: nat)
    requires i < |c| - 1
  {
    c[i + 1].parent == Some(c[i].id) && c[i + 1].version == c[i].version + 1
  }

  /** A new version starts unverified: the latest verified one of a chain stays the latest when it is appended. */
  lemma NextVersionIsUnverified(c: seq<Artifact>, id: ArtifactId, content: string, k: nat)
    requires c != []
    ensures var next := c + [NextVersion(c[|c| - 1], id, content)];
            && next[|c|].id == id && next[|c|].content == content
            && (LatestPassed(next, k) <==> LatestPassed(c, k))
  {
    var next := c + [NextVersion(c[|c| - 1], id, content)];
    assert !next[|c|].passed;
    assert forall j :: 0 <= j < |c| ==> next[j] == c[j];
  }

  /** Position k holds the last artifact of the chain that passed verification. */
  ghost predicate LatestPassed(c: seq<Artifact>, k: nat) {
    k < |c| && c[k].passed && forall j :: k < j < |c| ==> !c[j].passed
  }

  lemma NextVersionExtends(c: seq<Artifact>, id: ArtifactId, content: string)
    requires IsHistory(c)
    ensures IsHistory(c + [NextVersion(c[|c| - 1], id, content)])
  {
    var next := c + [NextVersion(c[|c| - 1], id, content)];
    forall i | 0 <= i < |next| - 1 ensures Derives(next, i) {
      assert i < |c| - 1 ==> Derives(c, i);
    }
  }

  lemma {:induction false} VersionsCount(c: seq<Artifact>, i: nat)
    requires IsHistory(c) && i < |c|
    ensures c[i].version == i + 1
  {
    if i > 0 {
      VersionsCount(c, i - 1);
      assert Derives(c, i - 1);
    }
  }

  ghost predicate Holds(store: Store, c: seq<Artifact>) {
    forall i :: 0 <= i < |c| ==> c[i].id in store && store[c[i].id] == c[i]
  }

  /** Round trip: walking from the newest version of a stored history gives back the whole history, root first. */
  lemma WalkRecoversHistory(store: Store, c: seq<Artifact>)
    requires IsHistory(c) && DistinctIds(c) && Holds(store, c)
    ensures IsChain(store, c, c[|c| - 1].id)
  {
    var up := Reversed(c);
    forall i | 0 <= i < |up| - 1 ensures StepsUp(store, up, i) {
      assert Derives(c, |c| - 2 - i);
    }
    assert up[|up| - 1] == c[0];
  }

  // ----- Checking a chain -----

  datatype ChainError = RootMissing | VersionGap(index: nat, got: nat) | DuplicateVersions | Cycle

  ghost predicate Contiguous(c: seq<Artifact>) {
    forall i :: 0 <= i < |c| ==> c[i].version == i + 1
  }

  /** The checks come down to one: the walk's versions are 1, 2, 3 and so on; the other two never decide. */
  method ValidateChain(store: Store, id: ArtifactId) returns (valid: bool, errors: seq<ChainError>)
    ensures valid <==> errors == []
    ensures valid <==> exists c :: IsChain(store, c, id) && Contiguous(c)
    ensures Cycle !in errors
  {
    hide IsChain;
    var chain := WalkChain(store, id);
    if chain.None? {
      NoChain(store, id);
      return false, [RootMissing];
    }
    var c := chain.value;
    errors := [];
    for i := 0 to |c|
      invariant errors == [] <==> forall j :: 0 <= j < i ==> c[j].version == j + 1
      invariant Cycle !in errors
    {
      if c[i].version != i + 1 {
        errors := errors + [VersionGap(i, c[i].version)];
      }
    }
    assert errors == [] <==> Contiguous(c);
    var versions: seq<nat> := seq(|c|, i requires 0 <= i < |c| => c[i].version);
    if Variety(versions) != |versions| {
      if Contiguous(c) {
        DistinctCount(versions);
      }
      errors := errors + [DuplicateVersions];
    }
    var ids: seq<ArtifactId> := seq(|c|, i requires 0 <= i < |c| => c[i].id);
    ChainIdsDistinct(store, c, id, ids);
    if Variety(ids) != |ids| {
      errors := errors + [Cycle];
    }
    OneChain(store, c, id);
    valid := errors == [];
  }

  lemma NoChain(store: Store, id: ArtifactId)
    requires id !in store
    ensures forall d :: !IsChain(store, d, id)
  {
  }

  lemma OneChain(store: Store, c: seq<Artifact>, id: ArtifactId)
    requires IsChain(store, c, id)
    ensures forall d :: IsChain(store, d, id) ==> d == c
  {
    forall d | IsChain(store, d, id) ensures d == c {
      ChainIsUnique(store, c, d, id);
    }
  }

  /** How many different elements a list has. */
  function Variety<T(==)>(s: seq<T>): nat {
    |set x | x in s|
  }

  lemma {:induction false} DistinctCount<T>(s: seq<T>)
    requires Distinct(s)
    ensures Variety(s) == |s|
  {
    if s != [] {
      DistinctCount(s[1..]);
      assert (set x | x in s) == (set x | x in s[1..]) + {s[0]};
      forall i | 0 <= i < |s| - 1 ensures s[1..][i] != s[0] {
        assert s[0] != s[i + 1];
      }
    }
  }

  lemma ChainIdsDistinct(store: Store, c: seq<Artifact>, id: ArtifactId, ids: seq<ArtifactId>)
    requires IsChain(store, c, id) && |ids| == |c| && forall i :: 0 <= i < |c| ==> ids[i] == c[i].id
    ensures Variety(ids) == |ids|
  {
    var up := Reversed(c);
    forall i, j | 0 <= i < j < |ids| ensures ids[i] != ids[j] {
      assert up[|c| - 1 - j].id != up[|c| - 1 - i].id;
    }
    DistinctCount(ids);
  }

  /** A history made by versioning passes the check. */
  lemma HistoryIsValid(store: Store, c: seq<Artifact>)
    requires IsHistory(c) && DistinctIds(c) && Holds(store, c)
    ensures IsChain(store, c, c[|c| - 1].id) && Contiguous(c)
  {
    WalkRecoversHistory(store, c);
    forall i | 0 <= i < |c| ensures c[i].version == i + 1 {
      VersionsCount(c, i);
    }
  }

  /** Every artifact is stored under its own id. */
  ghost predicate KeyedById(store: Store) {
    forall id :: id in store ==> store[id].id == id
  }

  /** A walked chain is stored, steps from parent to child, and ends in the artifact asked for. */
  lemma ChainSteps(store: Store, c: seq<Artifact>, id: ArtifactId)
    requires KeyedById(store) && IsChain(store, c, id)
    ensures |c| >= 1 && DistinctIds(c) && Holds(store, c) && c[|c| - 1].id == id
    ensures forall i :: 0 <= i < |c| - 1 ==> c[i + 1].parent == Some(c[i].id)
  {
    var up := Reversed(c);
    forall i | 0 <= i < |c| - 1 ensures c[i + 1].parent == Some(c[i].id) && c[i].id in store && store[c[i].id] == c[i] {
      assert StepsUp(store, up, |c| - 2 - i);
      assert up[|c| - 2 - i] == c[i + 1] && up[|c| - 1 - i] == c[i];
    }
    assert up[0] == c[|c| - 1];
    forall i, j | 0 <= i < j < |c| ensures c[i].id != c[j].id {
      assert up[|c| - 1 - j].id != up[|c| - 1 - i].id;
    }
  }

  /** A walk stops at an artifact without a parent, at a parent that is not stored, or where the chain loops. */
  lemma WhyWalksStop(store: Store, c: seq<Artifact>, id: ArtifactId)
    requires KeyedById(store) && IsChain(store, c, id)
    ensures |c| >= 1
    ensures c[0].parent.Some? && c[0].parent.value in store <==> Loops(c)
  {
    ChainSteps(store, c, id);
    var up := Reversed(c);
    assert up[|up| - 1] == c[0];
    if c[0].parent.Some? && c[0].parent.value in store {
      var k :| 0 <= k < |up| && up[k].id == c[0].parent.value;
      assert c[|c| - 1 - k].id == c[0].parent.value;
    }
  }

  /** The oldest artifact of the chain derives from one of the chain. */
  ghost predicate Loops(c: seq<Artifact>) {
    c != [] && c[0].parent.Some? && HasId(c, c[0].parent.value)
  }

  /**
   * The chains that pass the check are the stored histories, but for those whose oldest artifact
   * still names a parent.
   */
  lemma PassesAsHistoryIff(store: Store, c: seq<Artifact>, id: ArtifactId)
    requires KeyedById(store)
    ensures IsHistory(c) && DistinctIds(c) && Holds(store, c) && c[|c| - 1].id == id
       <==> IsChain(store, c, id) && Contiguous(c) && |c| >= 1 && c[0].parent == None
  {
    if IsHistory(c) && DistinctIds(c) && Holds(store, c) && c[|c| - 1].id == id {
      HistoryIsValid(store, c);
    }
    if IsChain(store, c, id) && Contiguous(c) && c[0].parent == None {
      ChainSteps(store, c, id);
      forall i | 0 <= i < |c| - 1 ensures Derives(c, i) {
        assert c[i + 1].version == i + 2;
      }
    }
  }

  /** Two artifacts that derive from each other pass, whichever version counts as the first. */
  lemma LoopPasses(a: ArtifactId, b: ArtifactId, content: string) returns (store: Store, c: seq<Artifact>)
    requires a != b
    ensures KeyedById(store) && IsChain(store, c, a) && Contiguous(c) && Loops(c)
  {
    var first, second := Artifact(b, 1, Some(a), false, content), Artifact(a, 2, Some(b), false, content);
    store, c := map[a := second, b := first], [first, second];
    var up := Reversed(c);
    assert up == [second, first];
    assert StepsUp(store, up, 0);
    assert up[0].id == a && c[1].id == a;
  }
}
