/**
 * The refinement loop (src/orchestrator/refinement-loop.ts): Builder, Verifier, Critic and
 * Judge passes under a pass cap and a budget.
 *
 * Each executor is asked at most once per pass, so one stream of answers per role, indexed by
 * pass number, covers every behaviour the executors can show in a run. `Outcome` reads off what
 * a pass comes to; the specification of `Run` is stated over passes, not over the loop's state.
 */
module RefinementLoop {
  import opened Prelude

  type ArtifactId = string

  datatype Mode = Low | Medium | High | Ultra {
    function PassCap(): nat {
      match this
      case Low => 1
      case Medium => 2
      case High => 4
      case Ultra => 8
    }
  }

  datatype Answer<+T> = Failed | Answered(value: T)

  datatype Verdict = Accept | Reject | Stop

  datatype BuilderOutput = BuilderOutput(artifactId: ArtifactId, cost: int)
  datatype VerifierOutput = VerifierOutput(passed: bool, cost: int)
  datatype CriticOutput = CriticOutput(issues: nat, cost: int)
  datatype JudgeOutput = JudgeOutput(verdict: Verdict, qualityScore: real, cost: int)

  /** What the four roles answer on each pass. */
  datatype Executors = Executors(
    build: nat -> Answer<BuilderOutput>,
    verify: nat -> Answer<VerifierOutput>,
    critique: nat -> Answer<CriticOutput>,
    judge: nat -> Answer<JudgeOutput>)

  datatype PassRecord = PassRecord(passNumber: nat, built: BuilderOutput, verified: VerifierOutput,
                                   critiqued: Option<CriticOutput>, judged: JudgeOutput, totalCost: int)

  datatype ExitReason = Accepted | BudgetExceeded | CapReached | Error | StuckDetection

  datatype LoopResult = LoopResult(accepted: bool, finalArtifactId: Option<ArtifactId>, finalQualityScore: real,
                                   totalPasses: nat, totalCost: int, passHistory: seq<PassRecord>,
                                   exitReason: ExitReason)

  datatype LoopState = LoopState(currentPass: nat, totalCost: int, budgetRemaining: int)

  datatype LoopEvent =
    | PassStarted(pass: nat)
    | Built(artifactId: ArtifactId, pass: nat)
    | Verified(passed: bool, pass: nat)
    | Critiqued(issues: nat, pass: nat)
    | Judged(verdict: Verdict, pass: nat)

  // ----- One pass -----

  /** Broken: a role failed and ends the run. Unjudged: verification failed and so did the Judge. */
  datatype Outcome = Broken(spent: int) | Unjudged(spent: int) | Recorded(record: PassRecord) {
    function Cost(): int {
      if Recorded? then record.totalCost else spent
    }

    function Records(): seq<PassRecord> {
      if Recorded? then [record] else []
    }
  }

  function RecordOf(p: nat, b: BuilderOutput, v: VerifierOutput, c: Option<CriticOutput>, j: JudgeOutput): PassRecord {
    PassRecord(p, b, v, c, j, b.cost + v.cost + (if c.Some? then c.value.cost else 0) + j.cost)
  }

  function PassOutcome(x: Executors, p: nat): Outcome {
    match x.build(p)
    case Failed => Broken(0)
    case Answered(b) =>
      match x.verify(p)
      case Failed => Broken(b.cost)
      case Answered(v) =>
        if !v.passed then
          match x.judge(p)
          case Failed => Unjudged(b.cost + v.cost)
          case Answered(j) => Recorded(RecordOf(p, b, v, None, j))
        else
          match x.critique(p)
          case Failed => Broken(b.cost + v.cost)
          case Answered(c) =>
            match x.judge(p)
            case Failed => Broken(b.cost + v.cost + c.cost)
            case Answered(j) => Recorded(RecordOf(p, b, v, Some(c), j))
  }

  /** What the passes 1..n leave in the history. */
  function History(x: Executors, n: nat): seq<PassRecord> {
    if n == 0 then []
    else History(x, n - 1) + PassOutcome(x, n).Records()
  }

  /** What the passes 1..n cost. */
  function Spent(x: Executors, n: nat): int {
    if n == 0 then 0 else Spent(x, n - 1) + PassOutcome(x, n).Cost()
  }

  /** The events a pass emits: a prefix of the role order, cut where the pass broke off. */
  function PassEvents(x: Executors, p: nat): seq<LoopEvent> {
    [PassStarted(p)] +
    match x.build(p)
    case Failed => []
    case Answered(b) =>
      [Built(b.artifactId, p)] +
      match x.verify(p)
      case Failed => []
      case Answered(v) =>
        [Verified(v.passed, p)] +
        (if !v.passed then JudgeEvents(x, p)
         else match x.critique(p)
              case Failed => []
              case Answered(c) => [Critiqued(c.issues, p)] + JudgeEvents(x, p))
  }

  function JudgeEvents(x: Executors, p: nat): seq<LoopEvent> {
    if x.judge(p).Failed? then [] else [Judged(x.judge(p).value.verdict, p)]
  }

  function Events(x: Executors, n: nat): seq<LoopEvent> {
    if n == 0 then [] else Events(x, n - 1) + PassEvents(x, n)
  }

  // ----- What a history says -----

  /** A pass takes part in the contest for the best artifact when its verification passed. */
  predicate Competes(r: PassRecord) {
    r.verified.passed
  }

  datatype Best = Best(artifact: Option<ArtifactId>, score: real)

  /** The leader after each record: only a strictly better score takes the lead. */
  function Leader(h: seq<PassRecord>): Best {
    if h == [] then Best(None, 0.0)
    else
      var before, r := Leader(h[..|h| - 1]), h[|h| - 1];
      if Competes(r) && r.judged.qualityScore > before.score then Best(Some(r.built.artifactId), r.judged.qualityScore)
      else before
  }

  /** How many competing passes in a row, counted from the end, failed to take the lead. */
  function Streak(h: seq<PassRecord>): nat {
    if h == [] then 0
    else
      var before, r := h[..|h| - 1], h[|h| - 1];
      if !Competes(r) then Streak(before)
      else if r.judged.qualityScore > Leader(before).score then 0
      else Streak(before) + 1
  }

  /** The score of the leader is the greatest of 0 and the competing scores, and its artifact got there first. */
  lemma {:induction false} LeaderIsFirstMaximum(h: seq<PassRecord>)
    ensures Leader(h).score >= 0.0
    ensures forall i :: 0 <= i < |h| && Competes(h[i]) ==> h[i].judged.qualityScore <= Leader(h).score
    ensures Leader(h).artifact.None? <==> Leader(h).score == 0.0
    ensures Leader(h).artifact.Some? ==>
              exists k :: 0 <= k < |h| && Competes(h[k]) && h[k].judged.qualityScore == Leader(h).score
                && h[k].built.artifactId == Leader(h).artifact.value
                && forall i :: 0 <= i < k && Competes(h[i]) ==> h[i].judged.qualityScore < Leader(h).score
  {
    if h != [] {
      LeaderIsFirstMaximum(h[..|h| - 1]);
    }
  }

  /** Record k is the last one that competes, and it failed to take the lead. */
  ghost predicate LostAt(h: seq<PassRecord>, k: nat) {
    && k < |h| && Competes(h[k])
    && (forall i :: k < i < |h| ==> !Competes(h[i]))
    && h[k].judged.qualityScore <= Leader(h[..k]).score
  }

  /** The last competing pass failed to take the lead. */
  ghost predicate LastFailed(h: seq<PassRecord>) {
    exists k: nat :: LostAt(h, k)
  }

  /** The last two competing passes both failed to take the lead. */
  ghost predicate LastTwoFailed(h: seq<PassRecord>) {
    exists k: nat :: LostAt(h, k) && LastFailed(h[..k])
  }

  /** A record that does not compete changes nothing about who competed last. */
  lemma LostAtSkips(h: seq<PassRecord>, k: nat)
    requires h != [] && !Competes(h[|h| - 1])
    ensures LostAt(h, k) <==> LostAt(h[..|h| - 1], k)
    ensures LostAt(h, k) ==> h[..k] == h[..|h| - 1][..k]
  {
    if k < |h| - 1 {
      assert h[..k] == h[..|h| - 1][..k];
    }
  }

  lemma {:induction false} StreakOfOne(h: seq<PassRecord>)
    ensures Streak(h) >= 1 <==> LastFailed(h)
  {
    if h != [] {
      var before, n := h[..|h| - 1], |h| - 1;
      if Competes(h[n]) {
        assert LostAt(h, n) <==> h[n].judged.qualityScore <= Leader(before).score;
      } else {
        StreakOfOne(before);
        forall k: nat ensures LostAt(h, k) <==> LostAt(before, k) {
          LostAtSkips(h, k);
        }
      }
    }
  }

  /** The loop's counter reaches two exactly when the last two competing passes both failed to take the lead. */
  lemma {:induction false} StreakOfTwo(h: seq<PassRecord>)
    ensures Streak(h) >= 2 <==> LastTwoFailed(h)
  {
    if h != [] {
      var before, n := h[..|h| - 1], |h| - 1;
      if Competes(h[n]) {
        StreakOfOne(before);
        assert LostAt(h, n) <==> h[n].judged.qualityScore <= Leader(before).score;
      } else {
        StreakOfTwo(before);
        forall k: nat
          ensures LostAt(h, k) <==> LostAt(before, k)
          ensures LostAt(h, k) ==> h[..k] == before[..k]
        {
          LostAtSkips(h, k);
        }
      }
    }
  }

  // ----- Costs and pass numbers over any run -----

  /** Every cost the executors report is non-negative. */
  ghost predicate NonNegativeCosts(x: Executors) {
    forall p: nat ::
      && (x.build(p).Answered? ==> x.build(p).value.cost >= 0)
      && (x.verify(p).Answered? ==> x.verify(p).value.cost >= 0)
      && (x.critique(p).Answered? ==> x.critique(p).value.cost >= 0)
      && (x.judge(p).Answered? ==> x.judge(p).value.cost >= 0)
  }

  function HistoryCost(h: seq<PassRecord>): int {
    if h == [] then 0 else HistoryCost(h[..|h| - 1]) + h[|h| - 1].totalCost
  }

  /** The history accounts for all that was spent on recorded passes, so for everything if all were recorded. */
  lemma {:induction false} HistoryCostBounded(x: Executors, n: nat)
    requires NonNegativeCosts(x)
    ensures 0 <= HistoryCost(History(x, n)) <= Spent(x, n)
    ensures (forall p :: 1 <= p <= n ==> PassOutcome(x, p).Recorded?) ==> HistoryCost(History(x, n)) == Spent(x, n)
  {
    hide PassOutcome, NonNegativeCosts, HistoryCost;
    if n > 0 {
      HistoryCostBounded(x, n - 1);
      PassCostsSomething(x, n);
      HistoryCostSnoc(History(x, n - 1), PassOutcome(x, n));
    } else {
      NoHistoryNoCost();
    }
  }

  lemma NoHistoryNoCost()
    ensures HistoryCost([]) == 0
  {
  }

  lemma PassCostsSomething(x: Executors, p: nat)
    requires NonNegativeCosts(x)
    ensures PassOutcome(x, p).Cost() >= 0
  {
  }

  lemma HistoryCostSnoc(h: seq<PassRecord>, o: Outcome)
    ensures HistoryCost(h + o.Records()) == HistoryCost(h) + if o.Recorded? then o.Cost() else 0
  {
    if o.Recorded? {
      assert (h + [o.record])[..|h|] == h;
    } else {
      assert h + [] == h;
    }
  }

  /** Pass numbers in the history strictly increase and stay within the passes made. */
  lemma {:induction false} PassNumbersIncrease(x: Executors, n: nat)
    ensures |History(x, n)| <= n
    ensures forall i :: 0 <= i < |History(x, n)| ==> 1 <= History(x, n)[i].passNumber <= n
    ensures forall i, j :: 0 <= i < j < |History(x, n)| ==> History(x, n)[i].passNumber < History(x, n)[j].passNumber
  {
    if n > 0 {
      PassNumbersIncrease(x, n - 1);
    }
  }

  lemma {:induction false} SpentGrows(x: Executors, m: nat, n: nat)
    requires NonNegativeCosts(x) && m <= n
    ensures 0 <= Spent(x, m) <= Spent(x, n)
  {
    if m < n {
      SpentGrows(x, m, n - 1);
    } else if m > 0 {
      SpentGrows(x, m - 1, m - 1);
    }
  }

  /** Whether pass p ends the run by itself. */
  predicate Ends(x: Executors, p: nat) {
    match PassOutcome(x, p)
    case Broken(_) => true
    case Unjudged(_) => false
    case Recorded(r) => r.judged.verdict != Reject || (Competes(r) && Streak(History(x, p)) >= 2)
  }

  // ----- The result of a run -----

  /** A run can get through passes 1..n: each starts with budget left, and none but the last ends the run. */
  predicate RanThrough(x: Executors, budget: int, n: nat) {
    n == 0 || (RanThrough(x, budget, n - 1) && !EndedAt(x, n - 1) && Remaining(x, budget, n - 1) > 0)
  }

  predicate EndedAt(x: Executors, n: nat) {
    n > 0 && Ends(x, n)
  }

  lemma {:induction false} RanThroughMeans(x: Executors, budget: int, n: nat, m: nat)
    requires RanThrough(x, budget, n) && m < n
    ensures !EndedAt(x, m) && Remaining(x, budget, m) > 0
  {
    if m < n - 1 {
      RanThroughMeans(x, budget, n - 1, m);
    }
  }

  /** What is left of a budget that every phase draws down, never below zero. */
  function Remaining(x: Executors, budget: int, n: nat): int {
    if n == 0 then budget else AfterPass(x, Remaining(x, budget, n - 1), n)
  }

  function Draw(left: int, cost: int): int {
    Max(0, left - cost)
  }

  function AfterPass(x: Executors, left: int, p: nat): int {
    match x.build(p)
    case Failed => left
    case Answered(b) =>
      var l1 := Draw(left, b.cost);
      match x.verify(p)
      case Failed => l1
      case Answered(v) =>
        var l2 := Draw(l1, v.cost);
        if !v.passed then (if x.judge(p).Failed? then l2 else Draw(l2, x.judge(p).value.cost))
        else match x.critique(p)
             case Failed => l2
             case Answered(c) =>
               var l3 := Draw(l2, c.cost);
               if x.judge(p).Failed? then l3 else Draw(l3, x.judge(p).value.cost)
  }

  lemma {:induction false} BudgetAfter(x: Executors, budget: int, n: nat)
    requires NonNegativeCosts(x) && budget >= 0
    ensures Remaining(x, budget, n) == Max(0, budget - Spent(x, n))
  {
    if n > 0 {
      BudgetAfter(x, budget, n - 1);
    }
  }

  /**
   * With non-negative costs the saturating budget is always the plain difference floored at zero, if
   * and only if it starts non-negative.
   */
  lemma BudgetIsDifference(x: Executors, budget: int)
    requires NonNegativeCosts(x)
    ensures (forall n: nat :: Remaining(x, budget, n) == Max(0, budget - Spent(x, n))) <==> budget >= 0
  {
    if budget >= 0 {
      forall n: nat ensures Remaining(x, budget, n) == Max(0, budget - Spent(x, n)) {
        BudgetAfter(x, budget, n);
      }
    } else {
      assert Spent(x, 0) == 0 && Remaining(x, budget, 0) == budget;
    }
  }

  /** A negative cost after the budget hit zero gives back money the plain difference still owes. */
  lemma NegativeCostBreaksBudget() returns (x: Executors)
    ensures Remaining(x, 10, 1) == 5 && Max(0, 10 - Spent(x, 1)) == 0
  {
    x := Executors(p => Answered(BuilderOutput("a", 20)), p => Answered(VerifierOutput(false, -5)),
                   p => Failed, p => Failed);
    assert Spent(x, 0) == 0 && Remaining(x, 10, 0) == 10;
  }

  // ----- The budget under any costs -----

  /** What the phases of pass p cost, in the order in which they are charged. */
  function PassCosts(x: Executors, p: nat): seq<int> {
    match x.build(p)
    case Failed => []
    case Answered(b) =>
      [b.cost] +
      match x.verify(p)
      case Failed => []
      case Answered(v) =>
        [v.cost] +
        (if !v.passed then JudgeCosts(x, p)
         else match x.critique(p)
              case Failed => []
              case Answered(c) => [c.cost] + JudgeCosts(x, p))
  }

  function JudgeCosts(x: Executors, p: nat): seq<int> {
    if x.judge(p).Failed? then [] else [x.judge(p).value.cost]
  }

  /** What the phases of passes 1..n cost. */
  function Costs(x: Executors, n: nat): seq<int> {
    if n == 0 then [] else Costs(x, n - 1) + PassCosts(x, n)
  }

  function Sum(cs: seq<int>): int {
    if cs == [] then 0 else cs[0] + Sum(cs[1..])
  }

  /** The largest sum that some non-empty first part of the costs adds up to. */
  function Peak(cs: seq<int>): int
    requires cs != []
  {
    if |cs| == 1 then cs[0] else cs[0] + Max(0, Peak(cs[1..]))
  }

  lemma {:induction false} PeakIsLargest(cs: seq<int>) returns (k: nat)
    requires cs != []
    ensures forall i :: 1 <= i <= |cs| ==> Sum(cs[..i]) <= Peak(cs)
    ensures 1 <= k <= |cs| && Sum(cs[..k]) == Peak(cs)
  {
    k := 1;
    if |cs| > 1 {
      var k' := PeakIsLargest(cs[1..]);
      if Peak(cs[1..]) > 0 {
        k := k' + 1;
      }
    }
    forall i | 1 <= i <= |cs| ensures Sum(cs[..i]) == cs[0] + Sum(cs[1..][..i - 1]) {
      assert cs[..i][1..] == cs[1..][..i - 1];
    }
    assert cs[1..][..0] == [];
  }

  /** The budget left after drawing the costs down one by one. */
  function DrawAll(left: int, cs: seq<int>): int
    decreases |cs|
  {
    if cs == [] then left else DrawAll(Draw(left, cs[0]), cs[1..])
  }

  /** Drawing down refills from the peak: what is left is the larger of budget and peak, less everything spent. */
  lemma {:induction false} DrawAllFromPeak(left: int, cs: seq<int>)
    requires cs != []
    ensures DrawAll(left, cs) == Max(left, Peak(cs)) - Sum(cs)
    decreases |cs|
  {
    if |cs| > 1 {
      DrawAllFromPeak(Draw(left, cs[0]), cs[1..]);
    } else {
      assert cs[1..] == [];
    }
  }

  lemma {:induction false} DrawAppend(left: int, cs: seq<int>, ds: seq<int>)
    ensures DrawAll(left, cs + ds) == DrawAll(DrawAll(left, cs), ds)
    ensures Sum(cs + ds) == Sum(cs) + Sum(ds)
    decreases |cs|
  {
    if cs == [] {
      assert cs + ds == ds;
    } else {
      assert (cs + ds)[1..] == cs[1..] + ds;
      DrawAppend(Draw(left, cs[0]), cs[1..], ds);
    }
  }

  lemma DrawCons(left: int, c: int, cs: seq<int>)
    ensures DrawAll(left, [c] + cs) == DrawAll(Draw(left, c), cs)
    ensures Sum([c] + cs) == c + Sum(cs)
  {
    assert ([c] + cs)[1..] == cs;
  }

  lemma PassDrawsItsCosts(x: Executors, left: int, p: nat)
    ensures AfterPass(x, left, p) == DrawAll(left, PassCosts(x, p))
    ensures PassOutcome(x, p).Cost() == Sum(PassCosts(x, p))
  {
    hide Sum, DrawAll, Draw;
    EmptyDraws();
    var j := JudgeCosts(x, p);
    if x.judge(p).Answered? {
      assert j == [x.judge(p).value.cost] + [];
    }
    if x.build(p).Answered? {
      var b := x.build(p).value.cost;
      if x.verify(p).Failed? {
        assert PassCosts(x, p) == [b] + [];
        DrawCons(left, b, []);
      } else {
        var v := x.verify(p).value.cost;
        var rest := PassCosts(x, p)[2..];
        assert PassCosts(x, p) == [b] + ([v] + rest);
        DrawCons(left, b, [v] + rest);
        DrawCons(Draw(left, b), v, rest);
        JudgeDraws(x, p, Draw(Draw(left, b), v));
        if !x.verify(p).value.passed {
          assert rest == j;
        } else if x.critique(p).Failed? {
          assert rest == [];
        } else {
          var c := x.critique(p).value.cost;
          assert rest == [c] + j;
          DrawCons(Draw(Draw(left, b), v), c, j);
          JudgeDraws(x, p, Draw(Draw(Draw(left, b), v), c));
        }
      }
    }
  }

  lemma EmptyDraws()
    ensures Sum([]) == 0 && forall left :: DrawAll(left, []) == left
  {
  }

  lemma JudgeDraws(x: Executors, p: nat, left: int)
    ensures DrawAll(left, JudgeCosts(x, p)) == if x.judge(p).Failed? then left else Draw(left, x.judge(p).value.cost)
    ensures Sum(JudgeCosts(x, p)) == if x.judge(p).Failed? then 0 else x.judge(p).value.cost
  {
  }

  lemma {:induction false} RunDrawsItsCosts(x: Executors, budget: int, n: nat)
    ensures Remaining(x, budget, n) == DrawAll(budget, Costs(x, n))
    ensures Spent(x, n) == Sum(Costs(x, n))
  {
    if n > 0 {
      RunDrawsItsCosts(x, budget, n - 1);
      DrawAppend(budget, Costs(x, n - 1), PassCosts(x, n));
      PassDrawsItsCosts(x, Remaining(x, budget, n - 1), n);
    }
  }

  /** Whatever the costs: the running total never got above the budget, or it is at its highest now. */
  predicate NeverRefilled(budget: int, cs: seq<int>) {
    if cs == [] then budget >= 0 else Peak(cs) <= budget || Peak(cs) == Sum(cs)
  }

  /**
   * After passes 1..n the saturating budget is the floored plain difference exactly when no cost
   * gave back money that was already overspent.
   */
  lemma BudgetIsDifferenceIff(x: Executors, budget: int, n: nat)
    ensures Remaining(x, budget, n) == Max(0, budget - Spent(x, n)) <==> NeverRefilled(budget, Costs(x, n))
  {
    RunDrawsItsCosts(x, budget, n);
    var cs := Costs(x, n);
    if cs != [] {
      DrawAllFromPeak(budget, cs);
      var k := PeakIsLargest(cs);
      assert cs[..|cs|] == cs;
    }
  }

  /** Every pass starts strictly below the budget, so a run overspends by less than its last pass costs. */
  lemma PassesStartBelowBudget(x: Executors, budget: int, n: nat, p: nat)
    requires NonNegativeCosts(x) && 1 <= p <= n && RanThrough(x, budget, n)
    ensures Spent(x, p - 1) < budget
    ensures Spent(x, n) < budget + PassOutcome(x, n).Cost()
  {
    RanThroughMeans(x, budget, n, 0);
    RanThroughMeans(x, budget, n, p - 1);
    RanThroughMeans(x, budget, n, n - 1);
    BudgetAfter(x, budget, p - 1);
    BudgetAfter(x, budget, n - 1);
  }

  /** Everything a caller can rely on about the result of a run. */
  ghost predicate IsResult(x: Executors, budget: int, cap: nat, r: LoopResult) {
    var n := r.totalPasses;
    && n <= cap
    && RanThrough(x, budget, n)
    && r.passHistory == History(x, n)
    && r.totalCost == Spent(x, n)
    && (r.accepted <==> r.exitReason.Accepted?)
    && ExitFits(x, budget, cap, n, r.exitReason)
    && (if r.exitReason.Accepted? then
          && r.finalArtifactId == Some(PassOutcome(x, n).record.built.artifactId)
          && r.finalQualityScore == PassOutcome(x, n).record.judged.qualityScore
        else
          Best(r.finalArtifactId, r.finalQualityScore) == Leader(History(x, n)))
  }

  /** Why a run stops after pass n. */
  ghost predicate ExitFits(x: Executors, budget: int, cap: nat, n: nat, why: ExitReason) {
    match why
    case BudgetExceeded => n < cap && Remaining(x, budget, n) <= 0 && !EndedAt(x, n)
    case CapReached => n == cap && !EndedAt(x, n)
    case Error => EndedAt(x, n) && PassOutcome(x, n).Broken?
    case Accepted => EndedAt(x, n) && PassOutcome(x, n).Recorded? && Judgement(x, n) == Accept
    case StuckDetection => EndedAt(x, n) && PassOutcome(x, n).Recorded? && Judgement(x, n) != Accept
  }

  function Judgement(x: Executors, n: nat): Verdict
    requires PassOutcome(x, n).Recorded?
  {
    PassOutcome(x, n).record.judged.verdict
  }

  /** The description leaves no freedom: given the answers there is one result. */
  lemma ResultIsUnique(x: Executors, budget: int, cap: nat, r: LoopResult, r': LoopResult)
    requires IsResult(x, budget, cap, r) && IsResult(x, budget, cap, r')
    ensures r == r'
  {
    RunLengthIsUnique(x, budget, cap, r, r');
    RunLengthIsUnique(x, budget, cap, r', r);
  }

  lemma RunLengthIsUnique(x: Executors, budget: int, cap: nat, r: LoopResult, r': LoopResult)
    requires IsResult(x, budget, cap, r) && IsResult(x, budget, cap, r')
    ensures r.totalPasses >= r'.totalPasses
  {
    var n := r.totalPasses;
    if n < r'.totalPasses {
      RanThroughMeans(x, budget, r'.totalPasses, n);
    }
  }

  /** What each exit tells about the history and the winner. */
  lemma ExitsExplained(x: Executors, budget: int, cap: nat, r: LoopResult)
    requires IsResult(x, budget, cap, r)
    ensures r.exitReason.StuckDetection? ==>
              Judgement(x, r.totalPasses) == Stop || LastTwoFailed(r.passHistory)
    ensures !r.accepted ==>
              forall k :: 0 <= k < |r.passHistory| && Competes(r.passHistory[k]) ==>
                            r.passHistory[k].judged.qualityScore <= r.finalQualityScore
    ensures !r.accepted && r.finalArtifactId.Some? ==>
              exists k :: 0 <= k < |r.passHistory| && Competes(r.passHistory[k])
                && r.passHistory[k].judged.qualityScore == r.finalQualityScore
                && r.passHistory[k].built.artifactId == r.finalArtifactId.value
                && forall i :: 0 <= i < k && Competes(r.passHistory[i]) ==>
                                 r.passHistory[i].judged.qualityScore < r.finalQualityScore
    ensures r.accepted ==>
              && r.passHistory != []
              && r.passHistory[|r.passHistory| - 1].judged.verdict == Accept
              && r.passHistory[|r.passHistory| - 1].passNumber == r.totalPasses
  {
    LeaderIsFirstMaximum(r.passHistory);
    StreakOfTwo(r.passHistory);
  }

  /** Acceptance does not imply a passed verification: a failed one goes straight to the Judge, who may accept. */
  lemma AcceptanceMayFollowFailedVerification() returns (x: Executors, r: LoopResult)
    ensures IsResult(x, 10, 1, r) && r.accepted
    ensures !r.passHistory[0].verified.passed
  {
    x := Executors(p => Answered(BuilderOutput("a", 1)), p => Answered(VerifierOutput(false, 1)),
                   p => Failed, p => Answered(JudgeOutput(Accept, 0.5, 1)));
    var record := PassOutcome(x, 1).record;
    assert Spent(x, 0) == 0 && Remaining(x, 10, 0) == 10;
    assert History(x, 0) == [] && History(x, 1) == [record];
    r := LoopResult(true, Some("a"), 0.5, 1, 3, [record], Accepted);
  }

  /** Pass p is accepted although its verification failed. */
  predicate AcceptsUnverified(x: Executors, p: nat) {
    var o := PassOutcome(x, p);
    o.Recorded? && !Competes(o.record) && o.record.judged.verdict == Accept
  }

  /** The run ends with an accepted artifact whose verification failed. */
  ghost predicate EndsUnverified(x: Executors, budget: int, cap: nat) {
    exists r :: IsResult(x, budget, cap, r) && r.accepted && !Competes(r.passHistory[|r.passHistory| - 1])
  }

  /** With a given budget that happens exactly when a pass within the cap is reached and accepted so. */
  lemma EndsUnverifiedIff(x: Executors, budget: int, cap: nat)
    ensures EndsUnverified(x, budget, cap)
       <==> exists p :: 1 <= p <= cap && RanThrough(x, budget, p) && AcceptsUnverified(x, p)
  {
    if EndsUnverified(x, budget, cap) {
      var r :| IsResult(x, budget, cap, r) && r.accepted && !Competes(r.passHistory[|r.passHistory| - 1]);
      assert AcceptsUnverified(x, r.totalPasses);
    }
    if p :| 1 <= p <= cap && RanThrough(x, budget, p) && AcceptsUnverified(x, p) {
      var record := PassOutcome(x, p).record;
      var r := LoopResult(true, Some(record.built.artifactId), record.judged.qualityScore,
                          p, Spent(x, p), History(x, p), Accepted);
      assert IsResult(x, budget, cap, r) && r.passHistory[|r.passHistory| - 1] == record;
    }
  }

  /** More than passes 1..n ever cost in total. */
  function Ample(x: Executors, n: nat): nat {
    if n == 0 then 1 else Max(Ample(x, n - 1), Max(0, Spent(x, n)) + 1)
  }

  lemma DrawingLeavesMore(x: Executors, left: int, p: nat)
    ensures AfterPass(x, left, p) >= left - PassOutcome(x, p).Cost()
  {
  }

  lemma {:induction false} AmpleLasts(x: Executors, budget: int, n: nat, m: nat)
    requires m <= n && budget >= Ample(x, n)
    ensures Remaining(x, budget, m) >= budget - Spent(x, m) > 0
    decreases n
  {
    hide AfterPass, PassOutcome;
    if m < n {
      AmpleLasts(x, budget, n - 1, m);
    } else if n > 0 {
      AmpleLasts(x, budget, n - 1, n - 1);
      DrawingLeavesMore(x, Remaining(x, budget, n - 1), n);
    }
  }

  lemma {:induction false} RanThroughIff(x: Executors, budget: int, n: nat)
    ensures RanThrough(x, budget, n) <==> forall q :: 0 <= q < n ==> !EndedAt(x, q) && Remaining(x, budget, q) > 0
  {
    if n > 0 {
      RanThroughIff(x, budget, n - 1);
    }
  }

  /**
   * Some budget lets an unverified artifact be accepted exactly when the Judge accepts one and no
   * pass before ends the run.
   */
  lemma AcceptanceUnverifiedIff(x: Executors, cap: nat)
    ensures (exists budget :: EndsUnverified(x, budget, cap))
       <==> exists p :: 1 <= p <= cap && AcceptsUnverified(x, p) && forall q :: 1 <= q < p ==> !Ends(x, q)
  {
    if budget :| EndsUnverified(x, budget, cap) {
      EndsUnverifiedIff(x, budget, cap);
      var p :| 1 <= p <= cap && RanThrough(x, budget, p) && AcceptsUnverified(x, p);
      RanThroughIff(x, budget, p);
      forall q | 1 <= q < p ensures !Ends(x, q) {
        assert !EndedAt(x, q);
      }
    }
    if p :| 1 <= p <= cap && AcceptsUnverified(x, p) && forall q :: 1 <= q < p ==> !Ends(x, q) {
      var budget := Ample(x, p);
      forall q | 0 <= q < p ensures !EndedAt(x, q) && Remaining(x, budget, q) > 0 {
        AmpleLasts(x, budget, p, q);
      }
      RanThroughIff(x, budget, p);
      EndsUnverifiedIff(x, budget, cap);
    }
  }

  // ----- A run, told by the answers -----

  /** A role fails whose failure is an error: Builder, Verifier, or past a passed verification Critic or Judge. */
  predicate RoleFails(x: Executors, p: nat) {
    match (x.build(p), x.verify(p))
    case (Failed, _) => true
    case (Answered(_), Failed) => true
    case (Answered(_), Answered(v)) => v.passed && (x.critique(p).Failed? || x.judge(p).Failed?)
  }

  /** Every role the pass needs answers: all four, or all but the Critic when verification fails. */
  predicate AllAnswer(x: Executors, p: nat) {
    && x.build(p).Answered? && x.verify(p).Answered? && x.judge(p).Answered?
    && (x.verify(p).value.passed ==> x.critique(p).Answered?)
  }

  /** The pass ends in a verdict that ends the run, or with verification passed in a second failure to take the lead. */
  ghost predicate Concludes(x: Executors, p: nat) {
    AllAnswer(x, p) &&
    match x.judge(p).value.verdict
    case Accept => true
    case Stop => true
    case Reject => x.verify(p).value.passed && LastTwoFailed(History(x, p))
  }

  lemma OutcomeByAnswers(x: Executors, p: nat)
    ensures PassOutcome(x, p).Broken? <==> RoleFails(x, p)
    ensures PassOutcome(x, p).Recorded? <==> AllAnswer(x, p)
    ensures AllAnswer(x, p) ==>
              var v := x.verify(p).value;
              PassOutcome(x, p).record ==
              PassRecord(p, x.build(p).value, v, if v.passed then Some(x.critique(p).value) else None, x.judge(p).value,
                         x.build(p).value.cost + v.cost + (if v.passed then x.critique(p).value.cost else 0)
                         + x.judge(p).value.cost)
  {
  }

  lemma EndsByAnswers(x: Executors, p: nat)
    ensures Ends(x, p) <==> RoleFails(x, p) || Concludes(x, p)
  {
    OutcomeByAnswers(x, p);
    StreakOfTwo(History(x, p));
  }

  /**
   * Every exit, told by the answers alone: which role failed, what the Judge said, and which
   * artifact is returned; and none of it on an earlier pass.
   */
  lemma ExitsByAnswers(x: Executors, budget: int, cap: nat, r: LoopResult)
    requires IsResult(x, budget, cap, r)
    ensures var n := r.totalPasses;
            && (r.exitReason.Error? <==> n >= 1 && RoleFails(x, n))
            && (r.exitReason.Accepted? <==> n >= 1 && AllAnswer(x, n) && x.judge(n).value.verdict == Accept)
            && (r.exitReason.StuckDetection? <==>
                  n >= 1 && Concludes(x, n) && x.judge(n).value.verdict != Accept)
            && (r.exitReason.CapReached? <==> n == cap && (n >= 1 ==> !RoleFails(x, n) && !Concludes(x, n)))
            && (r.exitReason.BudgetExceeded? <==> n < cap && (n >= 1 ==> !RoleFails(x, n) && !Concludes(x, n)))
            && (r.exitReason.BudgetExceeded? ==> Remaining(x, budget, n) <= 0)
            && (r.accepted ==> r.finalArtifactId == Some(x.build(n).value.artifactId)
                               && r.finalQualityScore == x.judge(n).value.qualityScore)
            && (forall p :: 1 <= p < n ==> !RoleFails(x, p) && !Concludes(x, p))
            && n <= cap && r.totalCost == Sum(Costs(x, n)) && r.passHistory == History(x, n)
            && (r.accepted <==> r.exitReason.Accepted?)
  {
    RunDrawsItsCosts(x, budget, r.totalPasses);
    hide PassOutcome, Remaining, Leader, LastTwoFailed;
    var n := r.totalPasses;
    if n >= 1 {
      OutcomeByAnswers(x, n);
      EndsByAnswers(x, n);
    }
    forall p | 1 <= p < n ensures !RoleFails(x, p) && !Concludes(x, p) {
      RanThroughMeans(x, budget, n, p);
      EndsByAnswers(x, p);
    }
  }

  /** The history has one record for each pass on which all answer, made of their answers, and no other. */
  lemma {:induction false} HistoryByAnswers(x: Executors, n: nat)
    ensures forall i :: 0 <= i < |History(x, n)| ==>
              var p := History(x, n)[i].passNumber;
              1 <= p <= n && AllAnswer(x, p) && History(x, n)[i] == PassOutcome(x, p).record
    ensures forall p :: 1 <= p <= n && AllAnswer(x, p) ==> PassOutcome(x, p).record in History(x, n)
  {
    hide PassOutcome, AllAnswer;
    if n > 0 {
      HistoryByAnswers(x, n - 1);
      OutcomeByAnswers(x, n);
      RecordNumber(x, n);
    }
  }

  lemma RecordNumber(x: Executors, p: nat)
    ensures PassOutcome(x, p).Recorded? ==> PassOutcome(x, p).record.passNumber == p
  {
  }

  /**
   * Each role is heard on a pass exactly when it and those before it answer, the Critic only past a
   * passed verification.
   */
  lemma EventsByAnswers(x: Executors, p: nat)
    ensures PassStarted(p) in PassEvents(x, p)
    ensures forall a :: Built(a, p) in PassEvents(x, p) <==> x.build(p).Answered? && x.build(p).value.artifactId == a
    ensures forall ok :: Verified(ok, p) in PassEvents(x, p) <==>
              x.build(p).Answered? && x.verify(p).Answered? && x.verify(p).value.passed == ok
    ensures forall c :: Critiqued(c, p) in PassEvents(x, p) <==>
              && x.build(p).Answered? && x.verify(p).Answered? && x.verify(p).value.passed
              && x.critique(p).Answered? && x.critique(p).value.issues == c
    ensures forall v :: Judged(v, p) in PassEvents(x, p) <==> AllAnswer(x, p) && x.judge(p).value.verdict == v
  {
  }

  // ----- The engine -----

  class RefinementLoopEngine {
    var events: seq<LoopEvent>

    constructor ()
      ensures events == []
    {
      events := [];
    }

    function SpendBudget(state: LoopState, cost: int): LoopState {
      state.(totalCost := state.totalCost + cost, budgetRemaining := Max(0, state.budgetRemaining - cost))
    }

    function BuildResult(state: LoopState, history: seq<PassRecord>, artifactId: Option<ArtifactId>, score: real,
                         why: ExitReason): LoopResult {
      LoopResult(why.Accepted?, artifactId, score, state.currentPass, state.totalCost, history, why)
    }

    method Emit(e: LoopEvent)
      modifies this
      ensures events == old(events) + [e]
    {
      events := events + [e];
    }

    /** One pass: build, verify, critique and judge, as far as it gets. */
    method RunPass(x: Executors, pass: nat, state: LoopState, history: seq<PassRecord>, best: Best, streak: nat)
      returns (left: Step, state': LoopState, history': seq<PassRecord>, best': Best, streak': nat)
      requires pass > 0
      modifies this
      ensures state' == LoopState(pass, state.totalCost + PassOutcome(x, pass).Cost(),
                                  AfterPass(x, state.budgetRemaining, pass))
      ensures history' == history + PassOutcome(x, pass).Records()
      ensures Contest(PassOutcome(x, pass), best, streak) == (best', streak')
      ensures left == Decision(PassOutcome(x, pass), best', streak')
      ensures events == old(events) + PassEvents(x, pass)
    {
      state', history', best', streak' := state.(currentPass := pass), history, best, streak;
      Emit(PassStarted(pass));

      var built := x.build(pass);
      if built.Failed? {
        return Leave(Error, best), state', history', best', streak';
      }
      var b := built.value;
      state' := SpendBudget(state', b.cost);
      Emit(Built(b.artifactId, pass));

      var verified := x.verify(pass);
      if verified.Failed? {
        return Leave(Error, best), state', history', best', streak';
      }
      var v := verified.value;
      state' := SpendBudget(state', v.cost);
      Emit(Verified(v.passed, pass));

      if !v.passed {
        var judged := x.judge(pass);
        if judged.Answered? {
          var j := judged.value;
          state' := SpendBudget(state', j.cost);
          history' := history + [RecordOf(pass, b, v, None, j)];
          Emit(Judged(j.verdict, pass));
          if j.verdict == Accept {
            return Leave(Accepted, Best(Some(b.artifactId), j.qualityScore)), state', history', best', streak';
          }
          if j.verdict == Stop {
            return Leave(StuckDetection, best), state', history', best', streak';
          }
        }
        return GoOn, state', history', best', streak';
      }

      var critiqued := x.critique(pass);
      if critiqued.Failed? {
        return Leave(Error, best), state', history', best', streak';
      }
      var c := critiqued.value;
      state' := SpendBudget(state', c.cost);
      Emit(Critiqued(c.issues, pass));

      var judged := x.judge(pass);
      if judged.Failed? {
        return Leave(Error, best), state', history', best', streak';
      }
      var j := judged.value;
      state' := SpendBudget(state', j.cost);
      Emit(Judged(j.verdict, pass));

      if j.qualityScore > best.score {
        best' := Best(Some(b.artifactId), j.qualityScore);
        streak' := 0;
      } else {
        streak' := streak + 1;
      }
      history' := history + [RecordOf(pass, b, v, Some(c), j)];

      if j.verdict == Accept {
        return Leave(Accepted, Best(Some(b.artifactId), j.qualityScore)), state', history', best', streak';
      }
      if j.verdict == Stop {
        return Leave(StuckDetection, best'), state', history', best', streak';
      }
      if streak' >= 2 {
        return Leave(StuckDetection, best'), state', history', best', streak';
      }
      return GoOn, state', history', best', streak';
    }

    method Run(mode: Mode, budget: int, x: Executors) returns (r: LoopResult)
      modifies this
      ensures IsResult(x, budget, match mode case Low => 1 case Medium => 2 case High => 4 case Ultra => 8, r)
      ensures r.exitReason.Error? <==> r.totalPasses >= 1 && RoleFails(x, r.totalPasses)
      ensures events == old(events) + Events(x, r.totalPasses)
    {
      hide PassOutcome, AfterPass, PassEvents, IsResult, Contest, Decision, Ends, RoleFails, AllAnswer, Concludes;
      hide History, Spent, Remaining, Leader, Streak, RanThrough, Events, LastTwoFailed, EndedAt;
      RunStarts(x, budget);
      var maxPasses := mode.PassCap();
      var state := LoopState(0, 0, budget);
      var passHistory: seq<PassRecord> := [];
      var best, consecutiveNoImprove := Best(None, 0.0), 0;
      ghost var before := events;
      for pass := 1 to maxPasses + 1
        invariant state == LoopState(pass - 1, Spent(x, pass - 1), Remaining(x, budget, pass - 1))
        invariant passHistory == History(x, pass - 1)
        invariant best == Leader(passHistory) && consecutiveNoImprove == Streak(passHistory)
        invariant RanThrough(x, budget, pass - 1) && !EndedAt(x, pass - 1)
        invariant events == before + Events(x, pass - 1)
      {
        if state.budgetRemaining <= 0 {
          r := BuildResult(state, passHistory, best.artifact, best.score, BudgetExceeded);
          StoppedByBudget(x, budget, maxPasses, r);
          ExitsByAnswers(x, budget, maxPasses, r);
          return;
        }
        var left;
        left, state, passHistory, best, consecutiveNoImprove :=
          RunPass(x, pass, state, passHistory, best, consecutiveNoImprove);
        PassExtends(x, budget, pass);
        PassSettles(x, pass, best, consecutiveNoImprove);
        EventsSnoc(before, x, pass);
        if left.Leave? {
          r := BuildResult(state, passHistory, left.winner.artifact, left.winner.score, left.why);
          StoppedByPass(x, budget, maxPasses, r);
          ExitsByAnswers(x, budget, maxPasses, r);
          return;
        }
      }
      r := BuildResult(state, passHistory, best.artifact, best.score, CapReached);
      StoppedByCap(x, budget, maxPasses, r);
      ExitsByAnswers(x, budget, maxPasses, r);
    }
  }

  /** What a pass decides: carry on, or leave with a reason and a winner. */
  datatype Step = GoOn | Leave(why: ExitReason, winner: Best)

  /** The leader and the streak after a pass, from those before it. */
  function Contest(o: Outcome, best: Best, streak: nat): (Best, nat) {
    if !o.Recorded? || !Competes(o.record) then (best, streak)
    else if o.record.judged.qualityScore > best.score then
      (Best(Some(o.record.built.artifactId), o.record.judged.qualityScore), 0)
    else (best, streak + 1)
  }

  function Decision(o: Outcome, best: Best, streak: nat): Step {
    match o
    case Broken(_) => Leave(Error, best)
    case Unjudged(_) => GoOn
    case Recorded(r) =>
      match r.judged.verdict
      case Accept => Leave(Accepted, Best(Some(r.built.artifactId), r.judged.qualityScore))
      case Stop => Leave(StuckDetection, best)
      case Reject => if Competes(r) && streak >= 2 then Leave(StuckDetection, best) else GoOn
  }

  /**
   * The running leader and streak are those of the history, and the decision is to leave exactly
   * when the pass ends the run.
   */
  lemma PassSettles(x: Executors, p: nat, best: Best, streak: nat)
    requires p > 0
    requires Contest(PassOutcome(x, p), Leader(History(x, p - 1)), Streak(History(x, p - 1))) == (best, streak)
    ensures best == Leader(History(x, p)) && streak == Streak(History(x, p))
    ensures Decision(PassOutcome(x, p), best, streak).Leave? <==> Ends(x, p)
  {
    var o := PassOutcome(x, p);
    if o.Recorded? {
      LeaderAndStreakSnoc(History(x, p - 1), o.record);
    } else {
      assert History(x, p) == History(x, p - 1);
    }
  }

  lemma RunStarts(x: Executors, budget: int)
    ensures History(x, 0) == [] && Spent(x, 0) == 0 && Remaining(x, budget, 0) == budget && Events(x, 0) == []
    ensures Leader([]) == Best(None, 0.0) && Streak([]) == 0
    ensures RanThrough(x, budget, 0) && !EndedAt(x, 0)
  {
  }

  lemma PassExtends(x: Executors, budget: int, p: nat)
    requires p > 0
    ensures History(x, p) == History(x, p - 1) + PassOutcome(x, p).Records()
    ensures Spent(x, p) == Spent(x, p - 1) + PassOutcome(x, p).Cost()
    ensures Remaining(x, budget, p) == AfterPass(x, Remaining(x, budget, p - 1), p)
    ensures RanThrough(x, budget, p - 1) && !EndedAt(x, p - 1) && Remaining(x, budget, p - 1) > 0 ==>
              RanThrough(x, budget, p)
    ensures EndedAt(x, p) <==> Ends(x, p)
  {
    hide PassOutcome, AfterPass, Ends;
  }

  lemma EventsSnoc(before: seq<LoopEvent>, x: Executors, p: nat)
    requires p > 0
    ensures (before + Events(x, p - 1)) + PassEvents(x, p) == before + Events(x, p)
  {
    var e, pe := Events(x, p - 1), PassEvents(x, p);
    assert (before + e) + pe == before + (e + pe);
  }

  lemma StoppedByBudget(x: Executors, budget: int, cap: nat, r: LoopResult)
    requires r.totalPasses < cap && RanThrough(x, budget, r.totalPasses) && !EndedAt(x, r.totalPasses)
    requires Remaining(x, budget, r.totalPasses) <= 0
    requires r.passHistory == History(x, r.totalPasses) && r.totalCost == Spent(x, r.totalPasses)
    requires r.exitReason.BudgetExceeded? && !r.accepted
    requires Best(r.finalArtifactId, r.finalQualityScore) == Leader(r.passHistory)
    ensures IsResult(x, budget, cap, r)
  {
  }

  lemma StoppedByCap(x: Executors, budget: int, cap: nat, r: LoopResult)
    requires r.totalPasses == cap && RanThrough(x, budget, cap) && !EndedAt(x, cap)
    requires r.passHistory == History(x, cap) && r.totalCost == Spent(x, cap)
    requires r.exitReason.CapReached? && !r.accepted
    requires Best(r.finalArtifactId, r.finalQualityScore) == Leader(r.passHistory)
    ensures IsResult(x, budget, cap, r)
  {
  }

  lemma StoppedByPass(x: Executors, budget: int, cap: nat, r: LoopResult)
    requires 0 < r.totalPasses <= cap && RanThrough(x, budget, r.totalPasses) && Ends(x, r.totalPasses)
    requires r.passHistory == History(x, r.totalPasses) && r.totalCost == Spent(x, r.totalPasses)
    requires Decision(PassOutcome(x, r.totalPasses), Leader(r.passHistory), Streak(r.passHistory))
          == Leave(r.exitReason, Best(r.finalArtifactId, r.finalQualityScore))
    requires r.accepted <==> r.exitReason.Accepted?
    ensures IsResult(x, budget, cap, r)
  {
    hide PassOutcome, Remaining, Leader, Streak, History, Spent, RanThrough;
  }

  lemma LeaderAndStreakSnoc(h: seq<PassRecord>, r: PassRecord)
    ensures !Competes(r) ==> Leader(h + [r]) == Leader(h) && Streak(h + [r]) == Streak(h)
    ensures Competes(r) && r.judged.qualityScore > Leader(h).score ==>
              Leader(h + [r]) == Best(Some(r.built.artifactId), r.judged.qualityScore) && Streak(h + [r]) == 0
    ensures Competes(r) && r.judged.qualityScore <= Leader(h).score ==>
              Leader(h + [r]) == Leader(h) && Streak(h + [r]) == Streak(h) + 1
  {
    assert (h + [r])[..|h|] == h;
  }
}
