/**
 * The artifact dependency graph (src/artifact/artifact-relationships.ts).
 *
 * The object keeps a table of edges and two indexes over it. `live` is the ghost view the
 * specifications are written in: the edges that exist, in creation order.
 */
module ArtifactRelationships {
  import opened Prelude

  type ArtifactId = s: string | s != "" witness "a"
  type EdgeId = string

  datatype Relation = ParentChild | DerivedFrom | References | Supersedes | AttachedTo {
    /** What the code asks before it searches, and of each edge the search meets. */
    predicate Guarded() {
      ParentChild? || DerivedFrom?
    }
  }

  datatype Edge = Edge(id: EdgeId, from: ArtifactId, to: ArtifactId, relation: Relation)

  // ----- The graph, as a mathematical object -----

  function IdsOf(es: seq<Edge>): (r: seq<EdgeId>)
    ensures |r| == |es| && forall i :: 0 <= i < |es| ==> r[i] == es[i].id
  {
    seq(|es|, i requires 0 <= i < |es| => es[i].id)
  }

  function FromIs(a: ArtifactId): Edge -> bool { (e: Edge) => e.from == a }

  function ToIs(a: ArtifactId): Edge -> bool { (e: Edge) => e.to == a }

  function IdIsNot(id: EdgeId): Edge -> bool { (e: Edge) => e.id != id }

  function RelationIs(r: Relation): Edge -> bool { (e: Edge) => e.relation == r }

  function Outgoing(es: seq<Edge>, a: ArtifactId): seq<Edge> {
    Filter(es, FromIs(a))
  }

  function Incoming(es: seq<Edge>, a: ArtifactId): seq<Edge> {
    Filter(es, ToIs(a))
  }

  function Without(es: seq<Edge>, id: EdgeId): seq<Edge> {
    Filter(es, IdIsNot(id))
  }

  /** An edge of one of the two relations over which cycles are illegal leads from a to b. */
  ghost predicate Linked(es: seq<Edge>, a: ArtifactId, b: ArtifactId) {
    exists e :: e in es && e.from == a && e.to == b && (e.relation == ParentChild || e.relation == DerivedFrom)
  }

  ghost predicate Hop(es: seq<Edge>, p: seq<ArtifactId>, i: nat)
    requires i < |p| - 1
  {
    Linked(es, p[i], p[i + 1])
  }

  ghost predicate IsPath(es: seq<Edge>, p: seq<ArtifactId>) {
    |p| >= 1 && forall i :: 0 <= i < |p| - 1 ==> Hop(es, p, i)
  }

  ghost predicate PathFromTo(es: seq<Edge>, p: seq<ArtifactId>, a: ArtifactId, b: ArtifactId) {
    IsPath(es, p) && p[0] == a && p[|p| - 1] == b
  }

  /** b can be reached from a over parent-child and derived-from edges, in zero or more steps. */
  ghost predicate Reaches(es: seq<Edge>, a: ArtifactId, b: ArtifactId) {
    exists p :: PathFromTo(es, p, a, b)
  }

  /** No artifact reaches itself in one or more steps. */
  ghost predicate Acyclic(es: seq<Edge>) {
    forall p :: IsPath(es, p) && |p| >= 2 ==> p[0] != p[|p| - 1]
  }

  lemma SubPath(es: seq<Edge>, p: seq<ArtifactId>, i: nat, j: nat)
    requires IsPath(es, p) && i < j <= |p|
    ensures PathFromTo(es, p[i..j], p[i], p[j - 1])
  {
    var q := p[i..j];
    forall k | 0 <= k < |q| - 1 ensures Hop(es, q, k) {
      assert Hop(es, p, i + k);
    }
  }

  /** Joining a path that ends in a with one that starts at a successor of a. */
  lemma JoinPaths(es: seq<Edge>, p: seq<ArtifactId>, q: seq<ArtifactId>)
    requires IsPath(es, p) && IsPath(es, q) && Linked(es, p[|p| - 1], q[0])
    ensures PathFromTo(es, p + q, p[0], q[|q| - 1])
  {
    var r := p + q;
    forall k | 0 <= k < |r| - 1 ensures Hop(es, r, k) {
      if k < |p| - 1 {
        assert Hop(es, p, k);
      } else if k > |p| - 1 {
        assert Hop(es, q, k - |p|);
      }
    }
  }

  /** Fewer edges, fewer paths. */
  lemma PathMonotone(es: seq<Edge>, more: seq<Edge>, p: seq<ArtifactId>)
    requires IsPath(es, p) && forall e :: e in es ==> e in more
    ensures IsPath(more, p)
  {
    forall i | 0 <= i < |p| - 1 ensures Hop(more, p, i) {
      assert Hop(es, p, i);
    }
  }

  lemma FewerEdgesStayAcyclic(es: seq<Edge>, more: seq<Edge>)
    requires Acyclic(more) && forall e :: e in es ==> e in more
    ensures Acyclic(es)
  {
    forall p | IsPath(es, p) && |p| >= 2 ensures p[0] != p[|p| - 1] {
      PathMonotone(es, more, p);
    }
  }

  /** A path over es + [e] either stays in es or has a first step that only e provides. */
  lemma FirstNewStep(es: seq<Edge>, e: Edge, p: seq<ArtifactId>) returns (i: nat)
    requires IsPath(es + [e], p)
    ensures i < |p| && IsPath(es, p[..i + 1])
    ensures i == |p| - 1 || (e.relation.Guarded() && p[i] == e.from && p[i + 1] == e.to)
  {
    i := 0;
    while i < |p| - 1 && Linked(es, p[i], p[i + 1])
      invariant i < |p|
      invariant forall k :: 0 <= k < i ==> Hop(es, p, k)
    {
      assert Hop(es, p, i);
      i := i + 1;
    }
    var q := p[..i + 1];
    forall k | 0 <= k < |q| - 1 ensures Hop(es, q, k) {
      assert Hop(es, p, k);
    }
    if i < |p| - 1 {
      assert Hop(es + [e], p, i);
      var d :| d in es + [e] && d.from == p[i] && d.to == p[i + 1]
               && (d.relation == ParentChild || d.relation == DerivedFrom);
      assert d !in es;
    }
  }

  /**
   * The guard is exact: adding a guarded edge to an acyclic graph keeps it acyclic if and
   * only if the edge's source cannot already be reached from its target.
   */
  lemma GuardIsExact(es: seq<Edge>, e: Edge)
    requires Acyclic(es) && e.relation.Guarded()
    ensures Acyclic(es + [e]) <==> !Reaches(es, e.to, e.from)
  {
    if Reaches(es, e.to, e.from) {
      var p :| PathFromTo(es, p, e.to, e.from);
      PathMonotone(es, es + [e], p);
      assert e in es + [e] && Linked(es + [e], e.from, e.to);
      JoinPaths(es + [e], [e.from], p);
      var q := [e.from] + p;
      assert |q| >= 2 && q[0] == q[|q| - 1];
    } else {
      forall p | IsPath(es + [e], p) && |p| >= 2 ensures p[0] != p[|p| - 1] {
        if p[0] == p[|p| - 1] {
          CycleUsesReturnPath(es, e, p);
        }
      }
    }
  }

  /** A cycle that a new edge closes leads back from the edge's target to its source. */
  lemma CycleUsesReturnPath(es: seq<Edge>, e: Edge, p: seq<ArtifactId>)
    requires Acyclic(es) && IsPath(es + [e], p) && |p| >= 2 && p[0] == p[|p| - 1]
    ensures Reaches(es, e.to, e.from)
  {
    var i := FirstNewStep(es, e, p);
    assert p[..|p|] == p;
    var back := Rotate(es + [e], p, i);
    var j := FirstNewStep(es, e, back);
    assert PathFromTo(es, back[..j + 1], e.to, e.from);
  }

  /** A cycle, started right after step i and stopped right before it. */
  lemma Rotate(es: seq<Edge>, p: seq<ArtifactId>, i: nat) returns (back: seq<ArtifactId>)
    requires IsPath(es, p) && i < |p| - 1 && p[0] == p[|p| - 1]
    ensures PathFromTo(es, back, p[i + 1], p[i])
  {
    SubPath(es, p, i + 1, |p|);
    back := p[i + 1..|p|];
    if i > 0 {
      SubPath(es, p, 1, i + 1);
      assert Hop(es, p, 0);
      JoinPaths(es, back, p[1..i + 1]);
      back := back + p[1..i + 1];
    }
  }

  /** An unguarded edge adds no link at all. */
  lemma UnguardedEdgeIsHarmless(es: seq<Edge>, e: Edge)
    requires Acyclic(es) && !e.relation.Guarded()
    ensures Acyclic(es + [e])
  {
    forall p | IsPath(es + [e], p) && |p| >= 2 ensures p[0] != p[|p| - 1] {
      var i := FirstNewStep(es, e, p);
      assert p[..i + 1] == p;
    }
  }

  // ----- Whole runs -----

  datatype Op = CreateOp(edge: Edge) | DeleteOp(id: EdgeId)

  /** What one call does to the graph: the effect `Create` and `Delete` promise below. */
  ghost function Apply(es: seq<Edge>, op: Op): seq<Edge> {
    match op
    case CreateOp(e) =>
      if (e.relation == ParentChild || e.relation == DerivedFrom) && Reaches(es, e.to, e.from) then es else es + [e]
    case DeleteOp(id) => Without(es, id)
  }

  ghost function Run(es: seq<Edge>, ops: seq<Op>): seq<Edge>
    decreases |ops|
  {
    if ops == [] then es else Run(Apply(es, ops[0]), ops[1..])
  }

  lemma StepKeepsAcyclic(es: seq<Edge>, op: Op)
    requires Acyclic(es)
    ensures Acyclic(Apply(es, op))
  {
    match op
    case CreateOp(e) =>
      if e.relation.Guarded() {
        GuardIsExact(es, e);
      } else {
        UnguardedEdgeIsHarmless(es, e);
      }
    case DeleteOp(id) =>
      FilterMembers(es, IdIsNot(id));
      FewerEdgesStayAcyclic(Without(es, id), es);
  }

  /** After any run of creations and deletions no walk over parent-child and derived-from edges returns to its start. */
  lemma {:induction false} EveryRunIsAcyclic(es: seq<Edge>, ops: seq<Op>)
    requires Acyclic(es)
    ensures Acyclic(Run(es, ops))
    ensures forall p: seq<ArtifactId> :: |p| >= 2 && IsWalk(Run(es, ops), p) ==> p[0] != p[|p| - 1]
    decreases |ops|
  {
    if ops != [] {
      StepKeepsAcyclic(es, ops[0]);
      EveryRunIsAcyclic(Apply(es, ops[0]), ops[1..]);
    } else {
      forall p: seq<ArtifactId> | |p| >= 2 && IsWalk(es, p) ensures p[0] != p[|p| - 1] {
        WalkIsPath(es, p);
      }
    }
  }

  /** Each step of the walk is a parent-child or a derived-from edge of the graph. */
  ghost predicate IsWalk(es: seq<Edge>, p: seq<ArtifactId>) {
    |p| >= 1 && forall i :: 0 <= i < |p| - 1 ==> StepBy(es, p, i, ParentChild) || StepBy(es, p, i, DerivedFrom)
  }

  ghost predicate StepBy(es: seq<Edge>, p: seq<ArtifactId>, i: nat, r: Relation)
    requires i < |p| - 1
  {
    exists k :: 0 <= k < |es| && es[k].from == p[i] && es[k].to == p[i + 1] && es[k].relation == r
  }

  lemma WalkIsPath(es: seq<Edge>, p: seq<ArtifactId>)
    ensures IsWalk(es, p) <==> IsPath(es, p)
  {
    if |p| >= 1 {
      forall i | 0 <= i < |p| - 1
        ensures Hop(es, p, i) <==> StepBy(es, p, i, ParentChild) || StepBy(es, p, i, DerivedFrom)
      {
        HopIsStep(es, p, i);
      }
    }
  }

  lemma HopIsStep(es: seq<Edge>, p: seq<ArtifactId>, i: nat)
    requires i < |p| - 1
    ensures Hop(es, p, i) <==> StepBy(es, p, i, ParentChild) || StepBy(es, p, i, DerivedFrom)
  {
    if Hop(es, p, i) {
      var e :| e in es && e.from == p[i] && e.to == p[i + 1]
               && (e.relation == ParentChild || e.relation == DerivedFrom);
      var k :| 0 <= k < |es| && es[k] == e;
    }
  }

  lemma ReachesByWalk(es: seq<Edge>, a: ArtifactId, b: ArtifactId)
    ensures Reaches(es, a, b) <==> exists p :: IsWalk(es, p) && p[0] == a && p[|p| - 1] == b
  {
    if Reaches(es, a, b) {
      var p :| PathFromTo(es, p, a, b);
      WalkIsPath(es, p);
    }
    if p :| IsWalk(es, p) && p[0] == a && p[|p| - 1] == b {
      WalkIsPath(es, p);
      assert PathFromTo(es, p, a, b);
    }
  }

  /** The smallest cycle the guard must refuse: two artifacts derived from each other. */
  lemma MutualDerivationIsRefused(a: ArtifactId, b: ArtifactId, d: Edge, e: Edge)
    requires d.from == a && d.to == b && d.relation == DerivedFrom
    requires e.from == b && e.to == a && e.relation == DerivedFrom
    ensures a != b ==> Run([], [CreateOp(d), CreateOp(e)]) == [d]
  {
    if a != b {
      forall p ensures !PathFromTo([], p, b, a) {
        NoHops(p);
      }
      assert !Reaches([], b, a);
      assert [] + [d] == [d];
      assert Apply([], CreateOp(d)) == [d];
      var p := [a, b];
      assert d in [d] && Hop([d], p, 0);
      assert PathFromTo([d], p, a, b);
      assert Apply([d], CreateOp(e)) == [d];
      var ops := [CreateOp(d), CreateOp(e)];
      assert ops[1..] == [CreateOp(e)] && ops[1..][1..] == [];
      assert Run([d], ops[1..]) == Run(Apply([d], CreateOp(e)), ops[1..][1..]) == [d];
    }
  }

  lemma NoHops(p: seq<ArtifactId>)
    ensures !(IsPath([], p) && |p| >= 2)
  {
    if |p| >= 2 {
      assert !Hop([], p, 0);
    }
  }

  lemma EmptyGraphIsAcyclic()
    ensures Acyclic([])
  {
    forall p ensures !(IsPath([], p) && |p| >= 2) {
      NoHops(p);
    }
  }

  /** Deleting the edge a creation just added gives back the graph before it. */
  lemma DeleteUndoesCreate(es: seq<Edge>, e: Edge)
    requires e.id !in IdsOf(es)
    ensures Apply(Apply(es, CreateOp(e)), DeleteOp(e.id)) == es
  {
    var keep := IdIsNot(e.id);
    forall d | d in es ensures keep(d) {
      var i :| 0 <= i < |es| && es[i] == d;
      assert IdsOf(es)[i] == d.id;
    }
    FilterAll(es, keep);
    FilterSnoc(es, e, keep);
  }

  // ----- Derivation chains -----

  /** The target of the oldest surviving parent-child edge out of a. */
  function Parent(es: seq<Edge>, a: ArtifactId): Option<ArtifactId> {
    var up := Filter(Outgoing(es, a), RelationIs(ParentChild));
    if up == [] then None else Some(up[0].to)
  }

  lemma ParentIsLinked(es: seq<Edge>, a: ArtifactId)
    requires Parent(es, a).Some?
    ensures Linked(es, a, Parent(es, a).value)
  {
    var up := Filter(Outgoing(es, a), RelationIs(ParentChild));
    FilterMembers(Outgoing(es, a), RelationIs(ParentChild));
    FilterMembers(es, FromIs(a));
    assert up[0] in up;
  }

  lemma ParentOfRest(es: seq<Edge>, a: ArtifactId)
    requires es != [] && !(es[0].from == a && es[0].relation == ParentChild)
    ensures Parent(es, a) == Parent(es[1..], a)
  {
    if es[0].from == a {
      FilterCons(es[0], Outgoing(es[1..], a), RelationIs(ParentChild));
    }
  }

  /** The parent is what the oldest parent-child edge says: no earlier edge qualifies. */
  lemma {:induction false} ParentIsOldest(es: seq<Edge>, a: ArtifactId) returns (k: nat)
    requires Parent(es, a).Some?
    ensures k < |es| && es[k].from == a && es[k].relation == ParentChild
    ensures Parent(es, a).value == es[k].to
    ensures forall i :: 0 <= i < k ==> !(es[i].from == a && es[i].relation == ParentChild)
  {
    if es[0].from == a && es[0].relation == ParentChild {
      k := 0;
    } else {
      ParentOfRest(es, a);
      var j := ParentIsOldest(es[1..], a);
      k := j + 1;
      forall i | 0 <= i < k ensures !(es[i].from == a && es[i].relation == ParentChild) {
        if i > 0 {
          assert es[i] == es[1..][i - 1];
        }
      }
    }
  }

  /** c runs from a root down to a, each element the parent of the next. */
  ghost predicate IsChain(es: seq<Edge>, c: seq<ArtifactId>, a: ArtifactId) {
    |c| >= 1 && c[|c| - 1] == a && Parent(es, c[0]) == None
    && forall i :: 0 <= i < |c| - 1 ==> ParentAt(es, c, i)
  }

  ghost predicate ParentAt(es: seq<Edge>, c: seq<ArtifactId>, i: nat)
    requires i < |c| - 1
  {
    Parent(es, c[i + 1]) == Some(c[i])
  }

  /** There is only one such chain, so `IsChain` says exactly what a walk must return. */
  lemma {:induction false} ChainIsUnique(es: seq<Edge>, c: seq<ArtifactId>, d: seq<ArtifactId>, a: ArtifactId)
    requires IsChain(es, c, a) && IsChain(es, d, a)
    ensures c == d
    decreases |c|
  {
    if |c| > 1 {
      assert ParentAt(es, c, |c| - 2);
    }
    if |d| > 1 {
      assert ParentAt(es, d, |d| - 2);
    }
    if |c| > 1 && |d| > 1 {
      var c', d' := c[..|c| - 1], d[..|d| - 1];
      forall i | 0 <= i < |c'| - 1 ensures ParentAt(es, c', i) {
        assert ParentAt(es, c, i);
      }
      forall i | 0 <= i < |d'| - 1 ensures ParentAt(es, d', i) {
        assert ParentAt(es, d, i);
      }
      ChainIsUnique(es, c', d', c[|c| - 2]);
      assert c == c' + [a] && d == d' + [a];
    }
  }

  ghost predicate Rising(es: seq<Edge>, up: seq<ArtifactId>) {
    |up| >= 1 && forall i :: 0 <= i < |up| - 1 ==> RisesAt(es, up, i)
  }

  ghost predicate RisesAt(es: seq<Edge>, up: seq<ArtifactId>, i: nat)
    requires i < |up| - 1
  {
    Parent(es, up[i]) == Some(up[i + 1])
  }

  lemma RisingIsPath(es: seq<Edge>, up: seq<ArtifactId>)
    requires Rising(es, up)
    ensures IsPath(es, up)
  {
    forall i | 0 <= i < |up| - 1 ensures Hop(es, up, i) {
      assert RisesAt(es, up, i);
      ParentIsLinked(es, up[i]);
    }
  }

  /** In an acyclic graph a walk upwards never meets an artifact twice. */
  lemma RisingIsDistinct(es: seq<Edge>, up: seq<ArtifactId>)
    requires Acyclic(es) && Rising(es, up)
    ensures Distinct(up)
  {
    RisingIsPath(es, up);
    forall i, j | 0 <= i < j < |up| ensures up[i] != up[j] {
      SubPath(es, up, i, j + 1);
    }
  }

  // ----- Facts the cycle check rests on -----

  /** What a set closed under links contains. */
  lemma {:induction false} ClosedSetHoldsPaths(es: seq<Edge>, s: set<ArtifactId>, p: seq<ArtifactId>)
    requires IsPath(es, p) && p[0] in s
    requires forall a, b :: a in s && Linked(es, a, b) ==> b in s
    ensures p[|p| - 1] in s
  {
    if |p| > 1 {
      SubPath(es, p, 0, |p| - 1);
      ClosedSetHoldsPaths(es, s, p[0..|p| - 1]);
      assert Hop(es, p, |p| - 2);
    }
  }

  lemma ReachesStep(es: seq<Edge>, a: ArtifactId, b: ArtifactId, c: ArtifactId)
    requires Reaches(es, a, b) && Linked(es, b, c)
    ensures Reaches(es, a, c)
  {
    var p :| PathFromTo(es, p, a, b);
    JoinPaths(es, p, [c]);
    assert PathFromTo(es, p + [c], a, c);
  }

  // ----- The object -----

  class ArtifactRelationships {
    var edges: map<EdgeId, Edge>
    var bySource: map<ArtifactId, seq<EdgeId>>
    var byTarget: map<ArtifactId, seq<EdgeId>>
    ghost var live: seq<Edge>

    ghost predicate Valid()
      reads this
    {
      Consistent(edges, bySource, byTarget, live) && Acyclic(live)
    }

    constructor ()
      ensures Valid() && live == []
    {
      edges, bySource, byTarget, live := map[], map[], map[], [];
      EmptyGraphIsAcyclic();
    }

    /** Adds the edge, unless a guarded one would close a cycle; `id` is a fresh identifier. */
    method Create(from: ArtifactId, to: ArtifactId, relation: Relation, id: EdgeId) returns (r: Option<Edge>)
      requires Valid() && id !in edges
      modifies this
      ensures Valid()
      ensures live == Apply(old(live), CreateOp(Edge(id, from, to, relation)))
      ensures r.None? <==>
                && (relation == ParentChild || relation == DerivedFrom)
                && exists p :: IsWalk(old(live), p) && p[0] == to && p[|p| - 1] == from
      ensures r.None? ==> edges == old(edges) && bySource == old(bySource) && byTarget == old(byTarget)
      ensures r.Some? ==> r.value == Edge(id, from, to, relation) && live == old(live) + [r.value]
    {
      hide Reaches, IsWalk, Acyclic, Consistent, AddToIndex;
      var e := Edge(id, from, to, relation);
      StepKeepsAcyclic(live, CreateOp(e));
      ReachesByWalk(live, to, from);
      if relation.Guarded() {
        var cycle := WouldCreateCycle(from, to);
        if cycle {
          return None;
        }
      }
      AddKeepsConsistent(edges, bySource, byTarget, live, e);
      edges := edges[id := e];
      bySource := AddToIndex(bySource, from, id);
      byTarget := AddToIndex(byTarget, to, id);
      live := live + [e];
      r := Some(e);
    }

    /** Removes the edge with this id; false, and nothing changes, when there is none. */
    method Delete(id: EdgeId) returns (found: bool)
      requires Valid()
      modifies this
      ensures Valid()
      ensures live == Without(old(live), id)
      ensures found <==> id in old(edges)
      ensures found ==> edges == old(edges) - {id}
      ensures !found ==> edges == old(edges) && bySource == old(bySource) && byTarget == old(byTarget)
    {
      hide Acyclic, RemoveFromIndex;
      if id !in edges {
        AbsentIdKeepsAll(edges, live, id);
        return false;
      }
      var e := edges[id];
      StepKeepsAcyclic(live, DeleteOp(id));
      RemoveKeepsConsistent(edges, bySource, byTarget, live, id);
      edges := edges - {id};
      bySource := RemoveFromIndex(bySource, e.from, id);
      byTarget := RemoveFromIndex(byTarget, e.to, id);
      live := Without(live, id);
      return true;
    }

    /** The edges leaving a, read through the source index, are those of the graph in creation order. */
    function GetOutgoing(a: ArtifactId): (r: seq<Edge>)
      requires Valid()
      reads this
      ensures r == Outgoing(live, a)
    {
      FilterMembers(live, FromIs(a));
      LookupGroup(edges, live, Outgoing(live, a));
      Lookup(edges, IndexAt(bySource, a))
    }

    /** The edges entering a, read through the target index. */
    function GetIncoming(a: ArtifactId): (r: seq<Edge>)
      requires Valid()
      reads this
      ensures r == Incoming(live, a)
    {
      FilterMembers(live, ToIs(a));
      LookupGroup(edges, live, Incoming(live, a));
      Lookup(edges, IndexAt(byTarget, a))
    }

    function GetParent(a: ArtifactId): (r: Option<ArtifactId>)
      requires Valid()
      reads this
      ensures r == Parent(live, a)
    {
      var up := Filter(GetOutgoing(a), RelationIs(ParentChild));
      if up == [] then None else Some(up[0].to)
    }

    /** The breadth-first search decides reachability: it answers whether `to` already leads to `from`. */
    method WouldCreateCycle(from: ArtifactId, to: ArtifactId) returns (r: bool)
      requires Valid()
      ensures r <==> Reaches(live, to, from)
    {
      SearchStarts(live, from, to);
      if from == to {
        return true;
      }
      var visited, queue := {from}, [to];
      while |queue| > 0
        invariant Searching(live, from, to, visited, queue)
        decreases |Universe(live, from, to) - visited|, |queue|
      {
        ghost var was := queue;
        var current := queue[0];
        queue := queue[1..];
        if current == from {
          SearchHit(live, from, to, visited, was);
          return true;
        }
        if current in visited {
          SearchRepeat(live, from, to, visited, was);
          continue;
        }
        SearchExpand(live, from, to, visited, was);
        visited := visited + {current};
        var outgoing := GetOutgoing(current);
        queue := PushGuarded(outgoing, queue);
      }
      SearchEmpty(live, from, to, visited);
      return false;
    }

    /** Root first, down to `artifactId`; the walk ends only because the root has no parent. */
    method WalkDerivationChain(artifactId: ArtifactId) returns (chain: seq<ArtifactId>)
      requires Valid()
      ensures IsChain(live, chain, artifactId)
      ensures Distinct(chain)
    {
      var up, visited, current := [artifactId], {artifactId}, artifactId;
      while true
        invariant Climbing(live, up, artifactId, visited) && current == up[|up| - 1]
        decreases |Universe(live, artifactId, artifactId) - visited|
      {
        var parent := GetParent(current);
        if parent.None? {
          break;
        }
        ClimbOneMore(live, up, artifactId, visited, parent.value);
        if parent.value in visited {
          break;
        }
        visited := visited + {parent.value};
        up := up + [parent.value];
        current := parent.value;
      }
      ClimbEnds(live, up, artifactId, visited);
      chain := Reversed(up);
    }
  }

  /** The search's inner loop: the targets of guarded edges join the queue in order. */
  method PushGuarded(outgoing: seq<Edge>, rest: seq<ArtifactId>) returns (queue: seq<ArtifactId>)
    ensures queue == rest + GuardedTargets(outgoing)
  {
    queue := rest;
    for k := 0 to |outgoing|
      invariant queue == rest + GuardedTargets(outgoing[..k])
    {
      GuardedTargetsSnoc(outgoing, k);
      if outgoing[k].relation.Guarded() {
        queue := queue + [outgoing[k].to];
      }
    }
    assert outgoing[..|outgoing|] == outgoing;
  }

  // ----- The search, one step at a time -----

  function GuardedTargets(es: seq<Edge>): (r: seq<ArtifactId>) {
    if es == [] then []
    else if es[|es| - 1].relation.Guarded() then GuardedTargets(es[..|es| - 1]) + [es[|es| - 1].to]
    else GuardedTargets(es[..|es| - 1])
  }

  lemma GuardedTargetsSnoc(es: seq<Edge>, k: nat)
    requires k < |es|
    ensures GuardedTargets(es[..k + 1])
         == GuardedTargets(es[..k]) + (if es[k].relation.Guarded() then [es[k].to] else [])
  {
    assert es[..k + 1][..k] == es[..k];
  }

  lemma {:induction false} GuardedTargetsAre(es: seq<Edge>, b: ArtifactId)
    ensures b in GuardedTargets(es) <==> exists e :: e in es && e.relation.Guarded() && e.to == b
  {
    if es != [] {
      GuardedTargetsAre(es[..|es| - 1], b);
      assert es == es[..|es| - 1] + [es[|es| - 1]];
    }
  }

  /** What a search queue gains when a is expanded: precisely the artifacts a links to. */
  lemma ExpansionIsLinks(es: seq<Edge>, a: ArtifactId, b: ArtifactId)
    ensures b in GuardedTargets(Outgoing(es, a)) <==> Linked(es, a, b)
  {
    GuardedTargetsAre(Outgoing(es, a), b);
    FilterMembers(es, FromIs(a));
    if Linked(es, a, b) {
      var e :| e in es && e.relation.Guarded() && e.from == a && e.to == b;
      assert e in Outgoing(es, a);
    }
  }

  ghost function Universe(es: seq<Edge>, from: ArtifactId, to: ArtifactId): set<ArtifactId> {
    {from, to} + set e | e in es :: e.to
  }

  /** Every successor of a searched artifact has been searched or is waiting to be. */
  ghost predicate Explored(es: seq<Edge>, seen: set<ArtifactId>, queue: seq<ArtifactId>) {
    forall a, b :: a in seen && Linked(es, a, b) ==> b in seen || b in queue
  }

  ghost predicate Searching(es: seq<Edge>, from: ArtifactId, to: ArtifactId, visited: set<ArtifactId>,
                            queue: seq<ArtifactId>) {
    && from != to && from in visited && visited <= Universe(es, from, to)
    && (forall x :: x in queue ==> x in Universe(es, from, to) && Reaches(es, to, x))
    && (to in visited || to in queue)
    && Explored(es, visited - {from}, queue)
  }

  lemma SearchStarts(es: seq<Edge>, from: ArtifactId, to: ArtifactId)
    ensures Reaches(es, to, to)
    ensures from != to ==> Searching(es, from, to, {from}, [to])
  {
    assert PathFromTo(es, [to], to, to);
  }

  lemma SearchHit(es: seq<Edge>, from: ArtifactId, to: ArtifactId, visited: set<ArtifactId>, queue: seq<ArtifactId>)
    requires Searching(es, from, to, visited, queue) && |queue| > 0 && queue[0] == from
    ensures Reaches(es, to, from)
  {
  }

  lemma SearchRepeat(es: seq<Edge>, from: ArtifactId, to: ArtifactId, visited: set<ArtifactId>, queue: seq<ArtifactId>)
    requires Searching(es, from, to, visited, queue) && |queue| > 0
    requires queue[0] in visited && queue[0] != from
    ensures Searching(es, from, to, visited, queue[1..])
  {
    assert queue == [queue[0]] + queue[1..];
    forall a, b | a in visited - {from} && Linked(es, a, b) ensures b in visited - {from} || b in queue[1..] {
      assert b in visited - {from} || b in queue;
    }
  }

  lemma SearchExpand(es: seq<Edge>, from: ArtifactId, to: ArtifactId, visited: set<ArtifactId>, queue: seq<ArtifactId>)
    requires Searching(es, from, to, visited, queue) && |queue| > 0 && queue[0] !in visited
    ensures Searching(es, from, to, visited + {queue[0]}, queue[1..] + GuardedTargets(Outgoing(es, queue[0])))
    ensures |Universe(es, from, to) - (visited + {queue[0]})| < |Universe(es, from, to) - visited|
  {
    var current, rest := queue[0], queue[1..];
    assert queue == [current] + rest;
    var news := GuardedTargets(Outgoing(es, current));
    var u := Universe(es, from, to);
    assert current in queue;
    SmallerRemainder(u, visited, current);
    forall x | x in rest + news ensures x in u && Reaches(es, to, x) {
      if x in rest {
        assert x in queue;
      } else {
        ExpansionIsLinks(es, current, x);
        ReachesStep(es, to, current, x);
      }
    }
    var seen := visited + {current} - {from};
    forall a, b | a in seen && Linked(es, a, b) ensures b in seen || b in rest + news {
      if a == current {
        ExpansionIsLinks(es, a, b);
      } else {
        assert b in visited - {from} || b in queue;
      }
    }
  }

  lemma SearchEmpty(es: seq<Edge>, from: ArtifactId, to: ArtifactId, visited: set<ArtifactId>)
    requires Searching(es, from, to, visited, [])
    ensures !Reaches(es, to, from)
  {
    forall p | PathFromTo(es, p, to, from) ensures false {
      ClosedSetHoldsPaths(es, visited - {from}, p);
    }
  }

  // ----- The climb, one step at a time -----

  ghost predicate Climbing(es: seq<Edge>, up: seq<ArtifactId>, a: ArtifactId, visited: set<ArtifactId>) {
    && Rising(es, up) && up[0] == a
    && (forall x :: x in visited <==> x in up)
    && visited <= Universe(es, a, a)
  }

  lemma ClimbOneMore(es: seq<Edge>, up: seq<ArtifactId>, a: ArtifactId, visited: set<ArtifactId>, parent: ArtifactId)
    requires Acyclic(es) && Climbing(es, up, a, visited) && Parent(es, up[|up| - 1]) == Some(parent)
    ensures parent !in visited
    ensures Climbing(es, up + [parent], a, visited + {parent})
    ensures |Universe(es, a, a) - (visited + {parent})| < |Universe(es, a, a) - visited|
  {
    RisesFurther(es, up, parent);
    ParentIsLinked(es, up[|up| - 1]);
    SmallerRemainder(Universe(es, a, a), visited, parent);
  }

  lemma RisesFurther(es: seq<Edge>, up: seq<ArtifactId>, parent: ArtifactId)
    requires Acyclic(es) && Rising(es, up) && Parent(es, up[|up| - 1]) == Some(parent)
    ensures Rising(es, up + [parent]) && parent !in up
  {
    hide Acyclic, Distinct, Parent;
    var next := up + [parent];
    forall i | 0 <= i < |next| - 1 ensures RisesAt(es, next, i) {
      assert i < |up| - 1 ==> RisesAt(es, up, i);
    }
    RisingIsDistinct(es, next);
    LastIsNew(up, parent);
  }

  lemma LastIsNew<T>(s: seq<T>, x: T)
    requires Distinct(s + [x])
    ensures x !in s
  {
    forall i | 0 <= i < |s| ensures s[i] != x {
      assert (s + [x])[i] != (s + [x])[|s|];
    }
  }

  lemma ClimbEnds(es: seq<Edge>, up: seq<ArtifactId>, a: ArtifactId, visited: set<ArtifactId>)
    requires Acyclic(es) && Climbing(es, up, a, visited) && Parent(es, up[|up| - 1]) == None
    ensures IsChain(es, Reversed(up), a) && Distinct(Reversed(up))
  {
    RisingIsDistinct(es, up);
    var c := Reversed(up);
    forall i | 0 <= i < |c| - 1 ensures ParentAt(es, c, i) {
      assert RisesAt(es, up, |up| - 2 - i);
    }
  }

  // ----- The indexes -----

  function IndexAt(m: map<ArtifactId, seq<EdgeId>>, a: ArtifactId): seq<EdgeId> {
    if a in m then m[a] else []
  }

  function AddToIndex(m: map<ArtifactId, seq<EdgeId>>, a: ArtifactId, id: EdgeId): map<ArtifactId, seq<EdgeId>> {
    m[a := IndexAt(m, a) + [id]]
  }

  function NotId(id: EdgeId): EdgeId -> bool { (x: EdgeId) => x != id }

  function RemoveId(ids: seq<EdgeId>, id: EdgeId): seq<EdgeId> {
    Filter(ids, NotId(id))
  }

  function RemoveFromIndex(m: map<ArtifactId, seq<EdgeId>>, a: ArtifactId, id: EdgeId): map<ArtifactId, seq<EdgeId>> {
    if a in m then m[a := RemoveId(m[a], id)] else m
  }

  /** The edges an index entry stands for; ids without an edge are skipped. */
  function Lookup(edges: map<EdgeId, Edge>, ids: seq<EdgeId>): seq<Edge> {
    if ids == [] then []
    else (if ids[0] in edges then [edges[ids[0]]] else []) + Lookup(edges, ids[1..])
  }

  /** The table holds exactly the live edges, each under its own id. */
  ghost predicate EdgesMatch(edges: map<EdgeId, Edge>, live: seq<Edge>) {
    && (forall i, j :: 0 <= i < j < |live| ==> live[i].id != live[j].id)
    && (forall e :: e in live ==> e.id in edges && edges[e.id] == e)
    && (forall id :: id in edges ==> edges[id].id == id && edges[id] in live)
  }

  lemma {:induction false} LookupGroup(edges: map<EdgeId, Edge>, live: seq<Edge>, group: seq<Edge>)
    requires EdgesMatch(edges, live) && forall e :: e in group ==> e in live
    ensures Lookup(edges, IdsOf(group)) == group
  {
    if group != [] {
      assert IdsOf(group)[1..] == IdsOf(group[1..]);
      assert group[0] in live;
      LookupGroup(edges, live, group[1..]);
    }
  }

  lemma AddedEdgeMatches(edges: map<EdgeId, Edge>, live: seq<Edge>, e: Edge)
    requires EdgesMatch(edges, live) && e.id !in edges
    ensures EdgesMatch(edges[e.id := e], live + [e])
  {
    forall i | 0 <= i < |live| ensures live[i].id != e.id {
      assert live[i] in live;
    }
    assert e in live + [e];
  }

  lemma AbsentIdKeepsAll(edges: map<EdgeId, Edge>, live: seq<Edge>, id: EdgeId)
    requires EdgesMatch(edges, live) && id !in edges
    ensures Without(live, id) == live
  {
    FilterAll(live, IdIsNot(id));
  }

  lemma {:induction false} FilteredIdsDistinct(es: seq<Edge>, p: Edge -> bool)
    requires Distinct(IdsOf(es))
    ensures Distinct(IdsOf(Filter(es, p)))
  {
    if es != [] {
      assert IdsOf(es)[1..] == IdsOf(es[1..]);
      FilteredIdsDistinct(es[1..], p);
      var rest := Filter(es[1..], p);
      FilterMembers(es[1..], p);
      forall i | 0 <= i < |rest| ensures rest[i].id != es[0].id {
        assert rest[i] in es[1..];
        var j :| 0 <= j < |es| - 1 && es[1..][j] == rest[i];
        assert IdsOf(es)[0] != IdsOf(es)[j + 1];
      }
    }
  }

  lemma RemovedEdgeMatches(edges: map<EdgeId, Edge>, live: seq<Edge>, id: EdgeId)
    requires EdgesMatch(edges, live) && id in edges
    ensures EdgesMatch(edges - {id}, Without(live, id))
  {
    FilteredIdsDistinct(live, IdIsNot(id));
    FilterMembers(live, IdIsNot(id));
    var w := Without(live, id);
    forall i, j | 0 <= i < j < |w| ensures w[i].id != w[j].id {
      assert IdsOf(w)[i] != IdsOf(w)[j];
    }
  }

  lemma {:induction false} RemoveFromGroup(live: seq<Edge>, id: EdgeId, p: Edge -> bool)
    ensures IdsOf(Filter(Without(live, id), p)) == RemoveId(IdsOf(Filter(live, p)), id)
  {
    if live != [] {
      var e, rest := live[0], live[1..];
      RemoveFromGroup(rest, id, p);
      FilterCons(e, Without(rest, id), p);
      IdsOfCons(e, Filter(rest, p));
      IdsOfCons(e, Filter(Without(rest, id), p));
      FilterCons(e.id, IdsOf(Filter(rest, p)), NotId(id));
    }
  }

  lemma IdsOfCons(e: Edge, es: seq<Edge>)
    ensures IdsOf([e] + es) == [e.id] + IdsOf(es)
  {
  }

  /** Only the endpoint's own group mentions a given id. */
  lemma OtherGroupsLackId(edges: map<EdgeId, Edge>, live: seq<Edge>, id: EdgeId, group: seq<Edge>)
    requires EdgesMatch(edges, live) && id in edges
    requires forall e :: e in group ==> e in live && e != edges[id]
    ensures RemoveId(IdsOf(group), id) == IdsOf(group)
  {
    forall x | x in IdsOf(group) ensures x != id {
      var i :| 0 <= i < |group| && IdsOf(group)[i] == x;
      assert group[i] in group;
    }
    FilterAll(IdsOf(group), NotId(id));
  }

  /** The table and both indexes describe the live edges, each group in creation order. */
  ghost predicate Consistent(edges: map<EdgeId, Edge>, bySource: map<ArtifactId, seq<EdgeId>>,
                             byTarget: map<ArtifactId, seq<EdgeId>>, live: seq<Edge>) {
    && EdgesMatch(edges, live)
    && (forall a :: IndexAt(bySource, a) == IdsOf(Outgoing(live, a)))
    && (forall a :: IndexAt(byTarget, a) == IdsOf(Incoming(live, a)))
  }

  lemma AddKeepsConsistent(edges: map<EdgeId, Edge>, bySource: map<ArtifactId, seq<EdgeId>>,
                           byTarget: map<ArtifactId, seq<EdgeId>>, live: seq<Edge>, e: Edge)
    requires Consistent(edges, bySource, byTarget, live) && e.id !in edges
    ensures Consistent(edges[e.id := e], AddToIndex(bySource, e.from, e.id), AddToIndex(byTarget, e.to, e.id),
                       live + [e])
  {
    AddedEdgeMatches(edges, live, e);
    forall a ensures IndexAt(AddToIndex(bySource, e.from, e.id), a) == IdsOf(Outgoing(live + [e], a)) {
      SourceAfterAdd(bySource, live, e, a);
    }
    forall a ensures IndexAt(AddToIndex(byTarget, e.to, e.id), a) == IdsOf(Incoming(live + [e], a)) {
      TargetAfterAdd(byTarget, live, e, a);
    }
  }

  lemma SourceAfterAdd(m: map<ArtifactId, seq<EdgeId>>, live: seq<Edge>, e: Edge, a: ArtifactId)
    requires IndexAt(m, a) == IdsOf(Outgoing(live, a))
    ensures IndexAt(AddToIndex(m, e.from, e.id), a) == IdsOf(Outgoing(live + [e], a))
  {
    GroupAfterAdd(live, e, FromIs(a));
  }

  lemma TargetAfterAdd(m: map<ArtifactId, seq<EdgeId>>, live: seq<Edge>, e: Edge, a: ArtifactId)
    requires IndexAt(m, a) == IdsOf(Incoming(live, a))
    ensures IndexAt(AddToIndex(m, e.to, e.id), a) == IdsOf(Incoming(live + [e], a))
  {
    GroupAfterAdd(live, e, ToIs(a));
  }

  lemma SourceAfterRemove(edges: map<EdgeId, Edge>, m: map<ArtifactId, seq<EdgeId>>, live: seq<Edge>, id: EdgeId,
                          a: ArtifactId)
    requires EdgesMatch(edges, live) && id in edges && IndexAt(m, a) == IdsOf(Outgoing(live, a))
    ensures IndexAt(RemoveFromIndex(m, edges[id].from, id), a) == IdsOf(Outgoing(Without(live, id), a))
  {
    GroupAfterRemove(edges, live, id, FromIs(a));
  }

  lemma TargetAfterRemove(edges: map<EdgeId, Edge>, m: map<ArtifactId, seq<EdgeId>>, live: seq<Edge>, id: EdgeId,
                          a: ArtifactId)
    requires EdgesMatch(edges, live) && id in edges && IndexAt(m, a) == IdsOf(Incoming(live, a))
    ensures IndexAt(RemoveFromIndex(m, edges[id].to, id), a) == IdsOf(Incoming(Without(live, id), a))
  {
    GroupAfterRemove(edges, live, id, ToIs(a));
  }

  lemma GroupAfterAdd(live: seq<Edge>, e: Edge, p: Edge -> bool)
    ensures IdsOf(Filter(live + [e], p)) == IdsOf(Filter(live, p)) + (if p(e) then [e.id] else [])
  {
    FilterSnoc(live, e, p);
  }

  lemma RemoveKeepsConsistent(edges: map<EdgeId, Edge>, bySource: map<ArtifactId, seq<EdgeId>>,
                              byTarget: map<ArtifactId, seq<EdgeId>>, live: seq<Edge>, id: EdgeId)
    requires Consistent(edges, bySource, byTarget, live) && id in edges
    ensures Consistent(edges - {id}, RemoveFromIndex(bySource, edges[id].from, id),
                       RemoveFromIndex(byTarget, edges[id].to, id), Without(live, id))
  {
    RemovedEdgeMatches(edges, live, id);
    forall a
      ensures IndexAt(RemoveFromIndex(bySource, edges[id].from, id), a) == IdsOf(Outgoing(Without(live, id), a))
    {
      SourceAfterRemove(edges, bySource, live, id, a);
    }
    forall a ensures IndexAt(RemoveFromIndex(byTarget, edges[id].to, id), a) == IdsOf(Incoming(Without(live, id), a)) {
      TargetAfterRemove(edges, byTarget, live, id, a);
    }
  }

  /** Removing an id from every group would change only the groups its edge belongs to. */
  lemma GroupAfterRemove(edges: map<EdgeId, Edge>, live: seq<Edge>, id: EdgeId, p: Edge -> bool)
    requires EdgesMatch(edges, live) && id in edges
    ensures IdsOf(Filter(Without(live, id), p))
         == if p(edges[id]) then RemoveId(IdsOf(Filter(live, p)), id) else IdsOf(Filter(live, p))
  {
    RemoveFromGroup(live, id, p);
    if !p(edges[id]) {
      FilterMembers(live, p);
      OtherGroupsLackId(edges, live, id, Filter(live, p));
    }
  }
}
