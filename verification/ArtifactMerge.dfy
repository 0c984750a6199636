/**
 * The merge pipeline and its path locks (src/artifact/artifact-merge.ts). What the injected hooks
 * answer, the clock and the fresh merge id are inputs; hooks do not touch the lock table.
 */
module ArtifactMerge {
  import opened Prelude

  type Path = string
  type MergeId = string
  type Locks = map<Path, MergeId>

  // ----- Locks -----

  /** Every path is free or already held by this merge. */
  predicate Available(locks: Locks, paths: seq<Path>, m: MergeId) {
    forall i :: 0 <= i < |paths| && paths[i] in locks ==> locks[paths[i]] == m
  }

  function Locked(locks: Locks, paths: seq<Path>, m: MergeId): Locks {
    map p | p in locks.Keys + (set q | q in paths) :: if p in paths then m else locks[p]
  }

  function Unlocked(locks: Locks, paths: seq<Path>, m: MergeId): Locks {
    map p | p in locks && !(p in paths && locks[p] == m) :: locks[p]
  }

  lemma LockOneMore(locks: Locks, paths: seq<Path>, i: nat, m: MergeId)
    requires i < |paths|
    ensures Locked(locks, paths[..i + 1], m) == Locked(locks, paths[..i], m)[paths[i] := m]
  {
    assert paths[..i + 1] == paths[..i] + [paths[i]];
  }

  lemma NoLocksYet(locks: Locks, paths: seq<Path>, m: MergeId)
    ensures Locked(locks, paths[..0], m) == locks
  {
  }

  datatype Op = Acquire(paths: seq<Path>, m: MergeId) | Release(paths: seq<Path>, m: MergeId)

  /** Acquisition is all or nothing; a release touches the releaser's own locks. */
  function Apply(locks: Locks, op: Op): Locks {
    match op
    case Acquire(paths, m) => if Available(locks, paths, m) then Locked(locks, paths, m) else locks
    case Release(paths, m) => Unlocked(locks, paths, m)
  }

  function Run(locks: Locks, ops: seq<Op>): Locks
    decreases |ops|
  {
    if ops == [] then locks else Run(Apply(locks, ops[0]), ops[1..])
  }

  predicate Frees(op: Op, p: Path, m: MergeId) {
    op.Release? && op.m == m && p in op.paths
  }

  /** Over any interleaving a lock stays with its holder until that holder releases it. */
  lemma {:induction false} HeldUntilReleased(locks: Locks, ops: seq<Op>, p: Path, m: MergeId)
    requires p in locks && locks[p] == m
    requires forall i :: 0 <= i < |ops| ==> !Frees(ops[i], p, m)
    ensures p in Run(locks, ops) && Run(locks, ops)[p] == m
    decreases |ops|
  {
    if ops != [] {
      assert !Frees(ops[0], p, m);
      LockSurvives(locks, ops[0], p, m);
      HeldUntilReleased(Apply(locks, ops[0]), ops[1..], p, m);
    }
  }

  lemma LockSurvives(locks: Locks, op: Op, p: Path, m: MergeId)
    requires p in locks && locks[p] == m && !Frees(op, p, m)
    ensures p in Apply(locks, op) && Apply(locks, op)[p] == m
  {
    if op.Acquire? && Available(locks, op.paths, op.m) && p in op.paths {
      var i :| 0 <= i < |op.paths| && op.paths[i] == p;
    }
  }

  /**
   * A lock is only there because its holder asked for it: it was held at the start or some
   * acquisition by its holder names it.
   */
  lemma {:induction false} LocksWereAcquired(locks: Locks, ops: seq<Op>, p: Path)
    requires p in Run(locks, ops)
    ensures (p in locks && locks[p] == Run(locks, ops)[p])
            || exists i :: 0 <= i < |ops| && ops[i].Acquire? && ops[i].m == Run(locks, ops)[p] && p in ops[i].paths
    decreases |ops|
  {
    if ops != [] {
      var next := Apply(locks, ops[0]);
      LocksWereAcquired(next, ops[1..], p);
      var m := Run(locks, ops)[p];
      if p in next && next[p] == m {
        assert (p in locks && locks[p] == m) || (ops[0].Acquire? && ops[0].m == m && p in ops[0].paths);
      } else {
        var i :| 0 <= i < |ops| - 1 && ops[1..][i].Acquire? && ops[1..][i].m == m && p in ops[1..][i].paths;
        assert ops[i + 1] == ops[1..][i];
      }
    }
  }

  /** A merge may acquire again what it holds. */
  lemma HolderMayReacquire(locks: Locks, paths: seq<Path>, m: MergeId)
    ensures Available(locks, paths, m) ==>
              var held := Locked(locks, paths, m);
              Available(held, paths, m) && Locked(held, paths, m) == held
  {
  }

  /** For a merge that holds nothing, releasing undoes a successful acquisition. */
  lemma ReleaseUndoesAcquire(locks: Locks, paths: seq<Path>, m: MergeId)
    requires m !in locks.Values && Available(locks, paths, m)
    ensures Unlocked(Locked(locks, paths, m), paths, m) == locks
    ensures Locked(locks, paths, m) == locks <==> paths == []
  {
    forall p | p in paths ensures p !in locks {
      var i :| 0 <= i < |paths| && paths[i] == p;
      HolderIsListed(locks, p);
    }
    if paths != [] {
      assert paths[0] in paths;
    }
  }

  lemma HolderIsListed(locks: Locks, p: Path)
    ensures p in locks ==> locks[p] in locks.Values
  {
  }

  lemma LockedValues(locks: Locks, paths: seq<Path>, m: MergeId)
    ensures forall k :: k in Locked(locks, paths, m).Values ==> k == m || k in locks.Values
  {
  }

  // ----- Eligibility -----

  datatype Artifact = Artifact(id: string, status: string, verificationState: string, mergeState: string,
                               expiresAt: Option<int>, workspaceId: string)

  /** Verified, passed, neither merged nor rejected, not expired, and in the target workspace. */
  predicate Eligible(a: Artifact, workspaceId: string, now: int) {
    && a.status == "verified" && a.verificationState == "passed"
    && a.mergeState != "merged" && a.mergeState != "rejected"
    && (a.expiresAt.Some? ==> a.expiresAt.value >= now)
    && a.workspaceId == workspaceId
  }

  // ----- The pipeline -----

  datatype Stage = Eligibility | Lock | Permission | Approval | Conflict | ApplyStage

  /** A hook may be missing; one that is called answers or throws. */
  datatype Hook<+T> = Missing | Throws | Answers(value: T)

  datatype Hooks = Hooks(
    checkPermissions: Hook<bool>,
    checkApproval: Hook<bool>,
    detectConflicts: Hook<Option<string>>,
    snapshot: Hook<string>,
    applyArtifact: Hook<bool>,
    rollback: Hook<bool>)

  datatype Request = Request(workspaceId: string, paths: seq<Path>, requiresApproval: bool, autoApprovable: bool)

  datatype MergeResult = MergeResult(mergeId: MergeId, artifactId: string, affectedPaths: seq<Path>)

  datatype Outcome = Failed(stage: Stage) | Merged(result: MergeResult) | Threw

  /** The first hook that decides, in the order of the stages, for a merge that holds its locks. */
  function HooksDecide(req: Request, h: Hooks): Option<Outcome> {
    if h.checkPermissions.Throws? then Some(Threw)
    else if h.checkPermissions == Answers(false) then Some(Failed(Permission))
    else if req.requiresApproval && !req.autoApprovable && h.checkApproval.Throws? then Some(Threw)
    else if req.requiresApproval && !req.autoApprovable && h.checkApproval == Answers(false) then Some(Failed(Approval))
    else if h.detectConflicts.Throws? then Some(Threw)
    else if h.detectConflicts.Answers? && h.detectConflicts.value.Some? then Some(Failed(Conflict))
    else if h.snapshot.Throws? || h.applyArtifact.Throws? then Some(Threw)
    else if h.applyArtifact == Answers(false) then
      if RollsBack(h) && h.rollback.Throws? then Some(Threw) else Some(Failed(ApplyStage))
    else None
  }

  /** A failed application is rolled back only to a snapshot that is not the empty string. */
  predicate RollsBack(h: Hooks) {
    h.applyArtifact == Answers(false) && h.snapshot.Answers? && h.snapshot.value != "" && !h.rollback.Missing?
  }

  /** A hook that was not called or that consented. */
  predicate Grants(h: Hook<bool>) {
    h == Missing || h == Answers(true)
  }

  /** Past the locks, a merge succeeds exactly when every hook the request needs consents and none throws. */
  lemma SuccessNeedsEveryConsent(req: Request, h: Hooks)
    ensures HooksDecide(req, h) == None <==>
            && Grants(h.checkPermissions)
            && (req.requiresApproval && !req.autoApprovable ==> Grants(h.checkApproval))
            && (h.detectConflicts == Missing || h.detectConflicts == Answers(None))
            && !h.snapshot.Throws?
            && Grants(h.applyArtifact)
  {
    TwoAnswers(h.checkPermissions);
    TwoAnswers(h.checkApproval);
    TwoAnswers(h.applyArtifact);
    assert h.detectConflicts.Answers? && h.detectConflicts.value.None? ==> h.detectConflicts == Answers(None);
  }

  lemma TwoAnswers(h: Hook<bool>)
    ensures h == Missing || h == Throws || h == Answers(true) || h == Answers(false)
  {
    if h.Answers? && !h.value {
      assert h == Answers(false);
    }
  }

  /** What one stage says, whatever the others say. */
  datatype Ruling = Pass | Refuse(stage: Stage) | Throw

  function Asked(h: Hook<bool>, stage: Stage): Ruling {
    match h
    case Missing => Pass
    case Throws => Throw
    case Answers(consent) => if consent then Pass else Refuse(stage)
  }

  /**
   * The rulings of the stages past the locks: permission, approval, conflict, snapshot, application
   * and its rollback.
   */
  function Rulings(req: Request, h: Hooks): seq<Ruling> {
    [ Asked(h.checkPermissions, Permission),
      if req.requiresApproval && !req.autoApprovable then Asked(h.checkApproval, Approval) else Pass,
      match h.detectConflicts
      case Missing => Pass
      case Throws => Throw
      case Answers(found) => if found.Some? then Refuse(Conflict) else Pass,
      if h.snapshot.Throws? then Throw else Pass,
      if RollsBack(h) && h.rollback.Throws? then Throw else Asked(h.applyArtifact, ApplyStage) ]
  }

  /** Ruling r is given before any other stage stops the merge. */
  ghost predicate ComesFirst(rs: seq<Ruling>, r: Ruling) {
    exists k :: 0 <= k < |rs| && rs[k] == r && forall j :: 0 <= j < k ==> rs[j] == Pass
  }

  /**
   * Past the locks a merge throws exactly when a hook throws before any stage refuses, and is
   * refused by the first stage that refuses before any throws.
   */
  lemma FirstRulingDecides(req: Request, h: Hooks)
    ensures HooksDecide(req, h) == Some(Threw) <==> ComesFirst(Rulings(req, h), Throw)
    ensures forall stage :: HooksDecide(req, h) == Some(Failed(stage)) <==> ComesFirst(Rulings(req, h), Refuse(stage))
    ensures HooksDecide(req, h) == None <==> forall k :: 0 <= k < 5 ==> Rulings(req, h)[k] == Pass
  {
    TwoAnswers(h.checkPermissions);
    TwoAnswers(h.checkApproval);
    TwoAnswers(h.applyArtifact);
    var rs, d := Rulings(req, h), HooksDecide(req, h);
    var k := FirstStop(rs);
    assert rs[0] != Pass || rs[1] != Pass || rs[2] != Pass || rs[3] != Pass || rs[4] != Pass || k == 5;
    assert d == if k == 5 then None else Some(if rs[k] == Throw then Threw else Failed(rs[k].stage));
    FirstStopIsFirst(rs, k);
  }

  function FirstStop(rs: seq<Ruling>): (k: nat)
    ensures k <= |rs| && (forall j :: 0 <= j < k ==> rs[j] == Pass) && (k < |rs| ==> rs[k] != Pass)
  {
    if rs == [] || rs[0] != Pass then 0 else FirstStop(rs[1..]) + 1
  }

  lemma FirstStopIsFirst(rs: seq<Ruling>, k: nat)
    requires k <= |rs| && (forall j :: 0 <= j < k ==> rs[j] == Pass) && (k < |rs| ==> rs[k] != Pass)
    ensures forall r :: r != Pass ==> (ComesFirst(rs, r) <==> k < |rs| && rs[k] == r)
  {
  }

  /** Hooks that are all missing but for one that throws before any refusal. */
  lemma ThrowingPermissionThrows(req: Request)
    ensures var h := Hooks(Throws, Missing, Missing, Missing, Missing, Missing);
            ComesFirst(Rulings(req, h), Throw) && HooksDecide(req, h) == Some(Threw)
  {
    var h := Hooks(Throws, Missing, Missing, Missing, Missing, Missing);
    assert Rulings(req, h)[0] == Throw;
  }

  /** A failed application whose snapshot is the empty string is not rolled back, although there is a rollback hook. */
  lemma EmptySnapshotIsNotRolledBack(req: Request)
    ensures var h := Hooks(Missing, Missing, Missing, Answers(""), Answers(false), Answers(true));
            HooksDecide(req, h) == Some(Failed(ApplyStage)) && !RollsBack(h) && RollsBack(h.(snapshot := Answers("s")))
  {
  }

  /** A leaked lock refuses every other merge on its path at the lock stage, whatever others acquire and release. */
  lemma LeakRefusesForGood(locks: Locks, paths: seq<Path>, m: MergeId, p: Path, ops: seq<Op>, paths': seq<Path>,
                           m': MergeId)
    requires p in paths && p in paths' && m' != m
    requires forall i :: 0 <= i < |ops| ==> !Frees(ops[i], p, m)
    ensures !Available(Run(Locked(locks, paths, m), ops), paths', m')
  {
    HeldUntilReleased(Locked(locks, paths, m), ops, p, m);
    var i :| 0 <= i < |paths'| && paths'[i] == p;
  }

  class ArtifactMerge {
    var locks: Locks
    var results: map<MergeId, MergeResult>
    var conflicts: set<string>
    /** How often the rollback hook was called. */
    var rollbacks: nat

    constructor ()
      ensures locks == map[] && results == map[] && conflicts == {} && rollbacks == 0
    {
      locks, results, conflicts, rollbacks := map[], map[], {}, 0;
    }

    method AcquireLocks(paths: seq<Path>, m: MergeId) returns (success: bool)
      modifies this`locks
      ensures success <==> Available(old(locks), paths, m)
      ensures success <==> forall p :: p in paths && p in old(locks) ==> old(locks)[p] == m
      ensures success ==> forall p :: p in paths ==> p in locks && locks[p] == m
      ensures !success ==> locks == old(locks)
      ensures locks == Apply(old(locks), Acquire(paths, m))
    {
      for i := 0 to |paths|
        invariant forall j :: 0 <= j < i && paths[j] in locks ==> locks[paths[j]] == m
      {
        if paths[i] in locks && locks[paths[i]] != m {
          return false;
        }
      }
      hide Locked;
      NoLocksYet(locks, paths, m);
      for i := 0 to |paths|
        invariant locks == Locked(old(locks), paths[..i], m)
      {
        LockOneMore(old(locks), paths, i, m);
        locks := locks[paths[i] := m];
      }
      assert paths[..|paths|] == paths;
      return true;
    }

    method ReleaseLocks(paths: seq<Path>, m: MergeId)
      modifies this`locks
      ensures locks == Apply(old(locks), Release(paths, m))
    {
      for i := 0 to |paths|
        invariant locks == Unlocked(old(locks), paths[..i], m)
      {
        assert paths[..i + 1] == paths[..i] + [paths[i]];
        if paths[i] in locks && locks[paths[i]] == m {
          locks := locks - {paths[i]};
        }
      }
      assert paths[..|paths|] == paths;
    }

    /**
     * The pipeline under a fresh merge id. A result is recorded exactly when the merge succeeds,
     * which takes an eligible artifact, free paths and the consent of every hook. The lock table
     * ends as it began exactly when no hook throws while there are paths to hold.
     */
    method Merge(req: Request, artifact: Artifact, h: Hooks, m: MergeId, now: int) returns (r: Outcome)
      requires m !in locks.Values && m !in results
      modifies this
      ensures r == if !Eligible(artifact, req.workspaceId, now) then Failed(Eligibility)
                   else if !Available(old(locks), req.paths, m) then Failed(Lock)
                   else if HooksDecide(req, h).Some? then HooksDecide(req, h).value
                   else Merged(MergeResult(m, artifact.id, req.paths))
      ensures locks == old(locks) <==> r != Threw || req.paths == []
      ensures r == Threw ==> locks == Locked(old(locks), req.paths, m)
      ensures locks != old(locks) <==>
                && Eligible(artifact, req.workspaceId, now) && Available(old(locks), req.paths, m)
                && req.paths != [] && ComesFirst(Rulings(req, h), Throw)
      ensures results == if r.Merged? then old(results)[m := r.result] else old(results)
      ensures conflicts == old(conflicts) + if r == Failed(Conflict) then {h.detectConflicts.value.value} else {}
      ensures rollbacks == old(rollbacks)
                + if (r == Failed(ApplyStage) || r == Threw) && Reached(req, h) && RollsBack(h)
                                               && Eligible(artifact, req.workspaceId, now) then 1 else 0
    {
      hide Eligible, Available, Locked, Unlocked, Rulings, ComesFirst;
      var eligible := CheckEligibility(artifact, req.workspaceId, now);
      if !eligible {
        return Failed(Eligibility);
      }
      var locked := AcquireLocks(req.paths, m);
      if !locked {
        return Failed(Lock);
      }
      ReleaseUndoesAcquire(old(locks), req.paths, m);
      FirstRulingDecides(req, h);
      if h.checkPermissions.Throws? {
        return Threw;
      }
      if h.checkPermissions == Answers(false) {
        ReleaseLocks(req.paths, m);
        return Failed(Permission);
      }
      if req.requiresApproval && !req.autoApprovable {
        if h.checkApproval.Throws? {
          return Threw;
        }
        if h.checkApproval == Answers(false) {
          ReleaseLocks(req.paths, m);
          return Failed(Approval);
        }
      }
      if h.detectConflicts.Throws? {
        return Threw;
      }
      if h.detectConflicts.Answers? && h.detectConflicts.value.Some? {
        conflicts := conflicts + {h.detectConflicts.value.value};
        ReleaseLocks(req.paths, m);
        return Failed(Conflict);
      }
      var snapshot: Option<string> := None;
      if h.snapshot.Throws? {
        return Threw;
      }
      if h.snapshot.Answers? {
        snapshot := Some(h.snapshot.value);
      }
      if h.applyArtifact.Throws? {
        return Threw;
      }
      if h.applyArtifact == Answers(false) {
        if snapshot.Some? && snapshot.value != "" && !h.rollback.Missing? {
          rollbacks := rollbacks + 1;
          if h.rollback.Throws? {
            return Threw;
          }
        }
        ReleaseLocks(req.paths, m);
        return Failed(ApplyStage);
      }
      var result := MergeResult(m, artifact.id, req.paths);
      results := results[m := result];
      ReleaseLocks(req.paths, m);
      return Merged(result);
    }

    /** Whether the stages before the application let a merge through. */
    predicate Reached(req: Request, h: Hooks) {
      HooksDecide(req, h.(snapshot := Missing, applyArtifact := Missing)) == None
    }

    /** After a merge that threw, the next one on a path of it is refused at the lock stage, if not before. */
    method MergeAfterLeak(req: Request, artifact: Artifact, h: Hooks, m: MergeId, now: int,
                          req': Request, artifact': Artifact, h': Hooks, m': MergeId, now': int, p: Path)
      returns (r: Outcome, r': Outcome)
      requires m !in locks.Values && m !in results && m' !in locks.Values && m' !in results && m != m'
      requires p in req.paths && p in req'.paths
      modifies this
      ensures r == Threw && Eligible(artifact', req'.workspaceId, now') ==> r' == Failed(Lock)
    {
      hide Rulings, ComesFirst, HooksDecide, Eligible;
      r := Merge(req, artifact, h, m, now);
      if r != Threw {
        return r, r;
      }
      LeakRefusesForGood(old(locks), req.paths, m, p, [], req'.paths, m');
      LockedValues(old(locks), req.paths, m);
      r' := Merge(req', artifact', h', m', now');
    }

    method CheckEligibility(a: Artifact, workspaceId: string, now: int) returns (valid: bool)
      ensures valid <==> Eligible(a, workspaceId, now)
      ensures valid <==>
                && a.status == "verified" && a.verificationState == "passed"
                && a.mergeState !in {"merged", "rejected"} && a.workspaceId == workspaceId
                && (a.expiresAt == None || now <= a.expiresAt.value)
    {
      if a.status != "verified" {
        return false;
      }
      if a.verificationState != "passed" {
        return false;
      }
      if a.mergeState == "merged" || a.mergeState == "rejected" {
        return false;
      }
      if a.expiresAt.Some? {
        if a.expiresAt.value < now {
          return false;
        }
      }
      if a.workspaceId != workspaceId {
        return false;
      }
      return true;
    }
  }
}
