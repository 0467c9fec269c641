/** EcoTune's schedule (src/storage/compaction/ecotune.rs) and the run selection that executes it
    (src/storage/compaction/mod.rs). `f64` is modelled by `real`. */
module EcoTune {

  datatype Config = Config(
    runsPerRound: nat, lastLevelRatio: nat, tmInterval: real, rewriteTime: real,
    longRangeRatio: real, falsePositiveRate: real, mlcQueryFactor: real)
  {
    /** q(e) */
    function QuerySpeed(mainRuns: nat): real {
      var r := longRangeRatio;
      var cost := (mainRuns as real + 2.0) * r + (1.0 - r) * (1.0 + falsePositiveRate);
      if cost <= 0.0 then 0.0 else 1.0 / cost
    }

    /** q'(e) */
    function MlcQuerySpeed(mainRuns: nat): real {
      mlcQueryFactor * QuerySpeed(mainRuns)
    }

    function BaseScore(existing: nat, pending: nat): real {
      (pending + 1) as real * rewriteTime * MlcQuerySpeed(existing)
    }

    function SkipScore(existing: nat): real {
      tmInterval * QuerySpeed(existing + 1)
    }

    function MergeScore(existing: nat, width: nat): real {
      (tmInterval - width as real * rewriteTime) * QuerySpeed(existing + 1)
    }
  }

  // ---------------------------------------------------------------------
  // Plans: the reference the dynamic program is measured against
  // ---------------------------------------------------------------------

  /** A way to schedule some incoming unit runs: the last one alone, the first one left alone,
      or the first `width` of them organised by `left` into one final run. */
  datatype Plan = Base | Skip(rest: Plan) | Merge(width: nat, left: Plan, right: Plan)

  ghost predicate Schedules(plan: Plan, incoming: nat)
    decreases plan
  {
    match plan
    case Base => incoming == 1
    case Skip(rest) => incoming >= 2 && Schedules(rest, incoming - 1)
    case Merge(x, left, right) => 2 <= x < incoming && Schedules(left, x) && Schedules(right, incoming - x)
  }

  /** Queries served under `plan`. */
  ghost function Score(config: Config, plan: Plan, existing: nat, pending: nat): real
    decreases plan
  {
    match plan
    case Base => config.BaseScore(existing, pending)
    case Skip(rest) => config.SkipScore(existing) + Score(config, rest, existing + 1, pending + 1)
    case Merge(x, left, right) =>
      Score(config, left, existing, 0) + config.MergeScore(existing, x)
        + Score(config, right, existing + 1, pending + x)
  }

  ghost predicate IsOptimal(config: Config, plan: Plan, existing: nat, incoming: nat, pending: nat) {
    && Schedules(plan, incoming)
    && forall other :: Schedules(other, incoming) ==>
         Score(config, other, existing, pending) <= Score(config, plan, existing, pending)
  }

  // ---------------------------------------------------------------------
  // The memoised dynamic program
  // ---------------------------------------------------------------------

  datatype State = State(existing: nat, incoming: nat, pending: nat)

  datatype Decision = Decision(score: real, mergeWidth: nat)

  /** The memo table holds optimal decisions, and `plans` is the plan each of them stands for. */
  ghost predicate Solved(config: Config, memo: map<State, Decision>, plans: map<State, Plan>) {
    && plans.Keys == memo.Keys
    && forall s :: s in memo ==> SolvedAt(config, memo, plans, s)
  }

  ghost predicate SolvedAt(config: Config, memo: map<State, Decision>, plans: map<State, Plan>, s: State)
    requires s in memo && s in plans
  {
    && IsOptimal(config, plans[s], s.existing, s.incoming, s.pending)
    && memo[s].score == Score(config, plans[s], s.existing, s.pending)
    && Follows(plans, s, memo[s].mergeWidth)
  }

  /** The plan of a state is what its recorded width and the plans of the next states make. */
  ghost predicate Follows(plans: map<State, Plan>, s: State, width: nat)
    requires s in plans
  {
    var State(existing, incoming, pending) := s;
    if incoming <= 1 then plans[s].Base?
    else if width == 1 then
      && State(existing + 1, incoming - 1, pending + 1) in plans
      && plans[s] == Skip(plans[State(existing + 1, incoming - 1, pending + 1)])
    else
      && 2 <= width < incoming
      && State(existing, width, 0) in plans && State(existing + 1, incoming - width, pending + width) in plans
      && plans[s] == Merge(width, plans[State(existing, width, 0)],
                           plans[State(existing + 1, incoming - width, pending + width)])
  }

  ghost predicate PlanFollows(plans: map<State, Plan>, s: State, plan: Plan, width: nat) {
    Follows(plans[s := plan], s, width)
  }

  lemma FollowsNext(plans: map<State, Plan>, s: State)
    ensures s.incoming == 1 ==> PlanFollows(plans, s, Base, 1)
    ensures s.incoming >= 2 && State(s.existing + 1, s.incoming - 1, s.pending + 1) in plans ==>
              PlanFollows(plans, s, Skip(plans[State(s.existing + 1, s.incoming - 1, s.pending + 1)]), 1)
    ensures forall x ::
              2 <= x < s.incoming && State(s.existing, x, 0) in plans
              && State(s.existing + 1, s.incoming - x, s.pending + x) in plans ==>
                PlanFollows(plans, s, Merge(x, plans[State(s.existing, x, 0)],
                                            plans[State(s.existing + 1, s.incoming - x, s.pending + x)]), x)
  {}

  lemma FollowsLater(memo: map<State, Decision>, plans: map<State, Plan>, memo': map<State, Decision>,
                     plans': map<State, Plan>, limit: nat, s: State, plan: Plan, width: nat)
    requires PlanFollows(plans, s, plan, width) && Grows(memo, plans, memo', plans', limit)
    ensures PlanFollows(plans', s, plan, width)
  {}

  ghost predicate Extends<V>(old_: map<State, V>, new_: map<State, V>) {
    forall s :: s in old_ ==> s in new_ && new_[s] == old_[s]
  }

  /** States solved on the way have fewer or equally many incoming runs. */
  ghost predicate NewStatesBelow(old_: map<State, Decision>, new_: map<State, Decision>, incoming: nat) {
    forall s :: s in new_ && s !in old_ ==> s.incoming < incoming
  }

  lemma InsertSolved(config: Config, memo: map<State, Decision>, plans: map<State, Plan>, s: State, decision: Decision,
                     plan: Plan)
    requires Solved(config, memo, plans) && s !in memo
    requires IsOptimal(config, plan, s.existing, s.incoming, s.pending)
             && decision.score == Score(config, plan, s.existing, s.pending)
    requires PlanFollows(plans, s, plan, decision.mergeWidth)
    ensures Solved(config, memo[s := decision], plans[s := plan]) && s !in plans
  {
    hide Score, IsOptimal, Follows;
    assert s !in plans;
    forall t | t in memo ensures SolvedAt(config, memo[s := decision], plans[s := plan], t) {
      assert SolvedAt(config, memo, plans, t);
      StillFollows(plans, s, plan, t, memo[t].mergeWidth);
    }
  }

  lemma StillFollows(plans: map<State, Plan>, s: State, plan: Plan, t: State, width: nat)
    requires s !in plans && t in plans && Follows(plans, t, width)
    ensures Follows(plans[s := plan], t, width)
  {}

  lemma Lookup(config: Config, memo: map<State, Decision>, plans: map<State, Plan>, s: State)
    requires Solved(config, memo, plans) && s in memo
    ensures plans.Keys == memo.Keys && s in plans
    ensures IsOptimal(config, plans[s], s.existing, s.incoming, s.pending) && Schedules(plans[s], s.incoming)
    ensures memo[s].score == Score(config, plans[s], s.existing, s.pending)
    ensures Follows(plans, s, memo[s].mergeWidth)
  {
    assert SolvedAt(config, memo, plans, s);
  }

  /** No plan that leaves the first run alone, or merges fewer than `limit`, beats `best`. */
  ghost predicate BestBelow(config: Config, best: Plan, existing: nat, incoming: nat, pending: nat, limit: nat) {
    && Schedules(best, incoming)
    && forall other :: Schedules(other, incoming) && (other.Skip? || (other.Merge? && other.width < limit)) ==>
         Score(config, other, existing, pending) <= Score(config, best, existing, pending)
  }

  lemma StartBest(config: Config, rest: Plan, existing: nat, incoming: nat, pending: nat)
    requires incoming >= 2 && IsOptimal(config, rest, existing + 1, incoming - 1, pending + 1)
    ensures BestBelow(config, Skip(rest), existing, incoming, pending, 2)
    ensures Score(config, Skip(rest), existing, pending)
         == config.SkipScore(existing) + Score(config, rest, existing + 1, pending + 1)
  {
    hide Config.SkipScore, Config.BaseScore, Config.MergeScore;
    forall other | Schedules(other, incoming) && other.Skip?
      ensures Score(config, other, existing, pending) <= Score(config, Skip(rest), existing, pending)
    {
      assert Schedules(other.rest, incoming - 1);
    }
  }

  /** No merge of width x beats the merge of the two optimal parts. */
  lemma MergeOfBestParts(config: Config, other: Plan, left: Plan, right: Plan, existing: nat, incoming: nat,
                         pending: nat, x: nat)
    requires 2 <= x < incoming && Schedules(other, incoming) && other.Merge? && other.width == x
    requires IsOptimal(config, left, existing, x, 0)
    requires IsOptimal(config, right, existing + 1, incoming - x, pending + x)
    ensures Score(config, other, existing, pending) <= Score(config, Merge(x, left, right), existing, pending)
  {
    ScoreOfMerge(config, x, left, right, existing, pending);
    ScoreOfMerge(config, x, other.left, other.right, existing, pending);
    assert other == Merge(x, other.left, other.right);
    assert Schedules(other.left, x) && Schedules(other.right, incoming - x);
    hide Score, Schedules, Config.MergeScore;
    assert Score(config, other.left, existing, 0) <= Score(config, left, existing, 0);
    assert Score(config, other.right, existing + 1, pending + x) <= Score(config, right, existing + 1, pending + x);
  }

  lemma ScoreOfMerge(config: Config, x: nat, left: Plan, right: Plan, existing: nat, pending: nat)
    ensures Score(config, Merge(x, left, right), existing, pending)
         == Score(config, left, existing, 0) + config.MergeScore(existing, x)
            + Score(config, right, existing + 1, pending + x)
  {
    hide Config.MergeScore, Config.SkipScore, Config.BaseScore;
  }

  /** Trying width x extends the bound by one: a merge is no better than its parts allow. */
  lemma TryWidth(config: Config, best: Plan, left: Plan, right: Plan, existing: nat, incoming: nat, pending: nat,
                 x: nat)
    requires 2 <= x < incoming && BestBelow(config, best, existing, incoming, pending, x)
    requires IsOptimal(config, left, existing, x, 0)
    requires IsOptimal(config, right, existing + 1, incoming - x, pending + x)
    ensures var merged := Merge(x, left, right);
            && Score(config, merged, existing, pending)
               == Score(config, left, existing, 0) + config.MergeScore(existing, x)
                  + Score(config, right, existing + 1, pending + x)
            && (Score(config, merged, existing, pending) > Score(config, best, existing, pending) ==>
                  BestBelow(config, merged, existing, incoming, pending, x + 1))
            && (Score(config, merged, existing, pending) <= Score(config, best, existing, pending) ==>
                  BestBelow(config, best, existing, incoming, pending, x + 1))
  {
    MergedScore(config, left, right, existing, pending, x);
    hide Config.MergeScore, Config.SkipScore, Config.BaseScore, Score;
    var merged := Merge(x, left, right);
    forall other | Schedules(other, incoming) && other.Merge? && other.width == x
      ensures Score(config, other, existing, pending) <= Score(config, merged, existing, pending)
    {
      MergeOfBestParts(config, other, left, right, existing, incoming, pending, x);
    }
  }

  lemma MergedScore(config: Config, left: Plan, right: Plan, existing: nat, pending: nat, x: nat)
    ensures Score(config, Merge(x, left, right), existing, pending)
         == Score(config, left, existing, 0) + config.MergeScore(existing, x)
            + Score(config, right, existing + 1, pending + x)
  {}

  /** The table only grows, and only by states with fewer than `limit` incoming runs. */
  ghost predicate Grows(memo: map<State, Decision>, plans: map<State, Plan>,
                        memo': map<State, Decision>, plans': map<State, Plan>, limit: nat) {
    Extends(memo, memo') && Extends(plans, plans') && NewStatesBelow(memo, memo', limit)
  }

  lemma GrowsOn(memo: map<State, Decision>, plans: map<State, Plan>, memo1: map<State, Decision>,
                plans1: map<State, Plan>, memo2: map<State, Decision>, plans2: map<State, Plan>, first: nat,
                second: nat, limit: nat)
    requires Grows(memo, plans, memo1, plans1, first) && Grows(memo1, plans1, memo2, plans2, second)
    requires first <= limit && second <= limit
    ensures Grows(memo, plans, memo2, plans2, limit)
  {}

  lemma GrowsByOne(memo: map<State, Decision>, plans: map<State, Plan>, memo1: map<State, Decision>,
                   plans1: map<State, Plan>, s: State, decision: Decision, plan: Plan, limit: nat)
    requires Grows(memo, plans, memo1, plans1, limit) && s.incoming == limit && s !in memo && s !in plans1
    ensures s !in memo1
    ensures Grows(memo, plans, memo1[s := decision], plans1[s := plan], limit + 1)
  {}

  method SolveState(config: Config, memo: map<State, Decision>, ghost plans: map<State, Plan>,
                    existing: nat, incoming: nat, pending: nat)
    returns (memo': map<State, Decision>, ghost plans': map<State, Plan>, score: real)
    requires Solved(config, memo, plans)
    ensures Solved(config, memo', plans') && Grows(memo, plans, memo', plans', incoming + 1)
    ensures incoming == 0 ==> score == 0.0
    ensures incoming > 0 ==>
              State(existing, incoming, pending) in memo' && memo'[State(existing, incoming, pending)].score == score
    decreases incoming
  {
    hide Config.BaseScore, Config.SkipScore, Config.MergeScore;
    hide Solved, Follows, IsOptimal, Score, BestBelow, Schedules, Grows, PlanFollows;
    memo', plans' := memo, plans;
    GrowsNot(memo, plans, incoming);
    if incoming == 0 {
      return memo', plans', 0.0;
    }
    var here: State := State(existing, incoming, pending);
    if here in memo {
      return memo', plans', memo[here].score;
    }
    if incoming == 1 {
      score := config.BaseScore(existing, pending);
      BaseSolved(config, memo, plans, here);
      memo', plans' := memo'[here := Decision(score, 1)], plans'[here := Base];
      return;
    }

    var tail;
    memo', plans', tail := SolveState(config, memo', plans', existing + 1, incoming - 1, pending + 1);
    var best := Decision(config.SkipScore(existing) + tail, 1);
    ghost var rest: State := State(existing + 1, incoming - 1, pending + 1);
    SkipTried(config, memo', plans', here);
    ghost var bestPlan := Skip(plans'[rest]);
    ghost var bestPlan';
    memo', plans', best, bestPlan' := TryWidths(config, memo, plans, memo', plans', here, best, bestPlan);
    StateSolved(config, memo, plans, memo', plans', here, best, bestPlan');
    memo', plans', score := memo'[here := best], plans'[here := bestPlan'], best.score;
  }

  /** Lines 7-11: merge the first x runs into one final run, for every x. */
  method TryWidths(config: Config, ghost memo: map<State, Decision>, ghost plans: map<State, Plan>,
                   memo0: map<State, Decision>, ghost plans0: map<State, Plan>, here: State, skip: Decision,
                   ghost skipPlan: Plan)
    returns (memo': map<State, Decision>, ghost plans': map<State, Plan>, best: Decision, ghost bestPlan: Plan)
    requires here.incoming >= 2 && Solved(config, memo0, plans0) && Grows(memo, plans, memo0, plans0, here.incoming)
    requires skip.score == Score(config, skipPlan, here.existing, here.pending)
    requires PlanFollows(plans0, here, skipPlan, skip.mergeWidth)
    requires BestBelow(config, skipPlan, here.existing, here.incoming, here.pending, 2)
    ensures Solved(config, memo', plans') && Grows(memo, plans, memo', plans', here.incoming)
    ensures best.score == Score(config, bestPlan, here.existing, here.pending)
    ensures PlanFollows(plans', here, bestPlan, best.mergeWidth)
    ensures BestBelow(config, bestPlan, here.existing, here.incoming, here.pending, here.incoming)
    decreases here.incoming, 0
  {
    hide Config.BaseScore, Config.SkipScore, Config.MergeScore;
    hide Solved, Follows, IsOptimal, Score, BestBelow, Schedules, Grows, PlanFollows;
    var State(existing, incoming, pending) := here;
    memo', plans', best, bestPlan := memo0, plans0, skip, skipPlan;
    for x := 2 to incoming
      invariant Solved(config, memo', plans') && Grows(memo, plans, memo', plans', incoming)
      invariant best.score == Score(config, bestPlan, existing, pending)
      invariant PlanFollows(plans', here, bestPlan, best.mergeWidth)
      invariant BestBelow(config, bestPlan, existing, incoming, pending, x)
    {
      ghost var memo0, plans0 := memo', plans';
      var left, right;
      memo', plans', left := SolveState(config, memo', plans', existing, x, 0);
      ghost var memo1, plans1 := memo', plans';
      memo', plans', right := SolveState(config, memo', plans', existing + 1, incoming - x, pending + x);
      WidthTried(config, memo, plans, memo0, plans0, memo1, plans1, memo', plans', here, x, bestPlan, best);
      var score := left + config.MergeScore(existing, x) + right;
      if score > best.score {
        best, bestPlan := Decision(score, x),
          Merge(x, plans'[State(existing, x, 0)], plans'[State(existing + 1, incoming - x, pending + x)]);
      }
    }
  }

  /** One turn of the loop over widths: the table grew, and the better of the old best and
      the merge of width x is best among plans with widths up to x. */
  lemma WidthTried(config: Config, memo: map<State, Decision>, plans: map<State, Plan>, memo0: map<State, Decision>,
                   plans0: map<State, Plan>, memo1: map<State, Decision>, plans1: map<State, Plan>,
                   memo2: map<State, Decision>, plans2: map<State, Plan>, s: State, x: nat, best: Plan,
                   decision: Decision)
    requires 2 <= x < s.incoming && Solved(config, memo2, plans2)
    requires Grows(memo, plans, memo0, plans0, s.incoming)
    requires Grows(memo0, plans0, memo1, plans1, x + 1) && Grows(memo1, plans1, memo2, plans2, s.incoming - x + 1)
    requires State(s.existing, x, 0) in memo1 && State(s.existing + 1, s.incoming - x, s.pending + x) in memo2
    requires BestBelow(config, best, s.existing, s.incoming, s.pending, x)
             && PlanFollows(plans0, s, best, decision.mergeWidth)
    requires decision.score == Score(config, best, s.existing, s.pending)
    ensures Grows(memo, plans, memo2, plans2, s.incoming)
    ensures State(s.existing, x, 0) in memo2 && State(s.existing, x, 0) in plans2
            && State(s.existing + 1, s.incoming - x, s.pending + x) in plans2
    ensures var merged := Merge(x, plans2[State(s.existing, x, 0)],
                                plans2[State(s.existing + 1, s.incoming - x, s.pending + x)]);
            var score := memo1[State(s.existing, x, 0)].score + config.MergeScore(s.existing, x)
                + memo2[State(s.existing + 1, s.incoming - x, s.pending + x)].score;
            && score == Score(config, merged, s.existing, s.pending)
            && PlanFollows(plans2, s, merged, x) && PlanFollows(plans2, s, best, decision.mergeWidth)
            && BestBelow(config, if score > decision.score then merged else best,
                         s.existing, s.incoming, s.pending, x + 1)
  {
    hide Config.MergeScore, Solved, Follows, IsOptimal, Score, BestBelow, Schedules, Grows, PlanFollows;
    var l: State, r: State := State(s.existing, x, 0), State(s.existing + 1, s.incoming - x, s.pending + x);
    GrowsOn(memo0, plans0, memo1, plans1, memo2, plans2, x + 1, s.incoming - x + 1, s.incoming);
    FollowsLater(memo0, plans0, memo2, plans2, s.incoming, s, best, decision.mergeWidth);
    GrowsOn(memo, plans, memo0, plans0, memo2, plans2, s.incoming, s.incoming, s.incoming);
    KeepsEntry(memo1, plans1, memo2, plans2, l, s.incoming - x + 1);
    Lookup(config, memo2, plans2, l);
    Lookup(config, memo2, plans2, r);
    TryWidth(config, best, plans2[l], plans2[r], s.existing, s.incoming, s.pending, x);
    FollowsNext(plans2, s);
  }

  lemma StateSolved(config: Config, memo: map<State, Decision>, plans: map<State, Plan>,
                    memo1: map<State, Decision>, plans1: map<State, Plan>, s: State, best: Decision, plan: Plan)
    requires s.incoming >= 2 && s !in memo && Solved(config, memo1, plans1)
             && Grows(memo, plans, memo1, plans1, s.incoming)
    requires BestBelow(config, plan, s.existing, s.incoming, s.pending, s.incoming)
             && best.score == Score(config, plan, s.existing, s.pending)
    requires PlanFollows(plans1, s, plan, best.mergeWidth)
    ensures Solved(config, memo1[s := best], plans1[s := plan])
    ensures Grows(memo, plans, memo1[s := best], plans1[s := plan], s.incoming + 1)
  {
    hide Solved, Follows, IsOptimal, Score, BestBelow, Schedules, Grows, PlanFollows;
    BestIsOptimal(config, plan, s.existing, s.incoming, s.pending);
    NewAtThisLevel(memo, plans, memo1, plans1, s);
    InsertSolved(config, memo1, plans1, s, best, plan);
    GrowsByOne(memo, plans, memo1, plans1, s, best, plan, s.incoming);
  }

  lemma GrowsNot(memo: map<State, Decision>, plans: map<State, Plan>, limit: nat)
    ensures Grows(memo, plans, memo, plans, limit) && Grows(memo, plans, memo, plans, limit + 1)
  {}

  lemma BaseSolved(config: Config, memo: map<State, Decision>, plans: map<State, Plan>, s: State)
    requires s.incoming == 1 && s !in memo && Solved(config, memo, plans)
    ensures var decision := Decision(config.BaseScore(s.existing, s.pending), 1);
            Solved(config, memo[s := decision], plans[s := Base])
            && Grows(memo, plans, memo[s := decision], plans[s := Base], 2)
  {
    hide Config.BaseScore, Solved, Follows, IsOptimal, Score, Schedules, Grows, PlanFollows;
    var decision := Decision(config.BaseScore(s.existing, s.pending), 1);
    BaseIsOptimal(config, s.existing, s.pending);
    FollowsNext(plans, s);
    InsertSolved(config, memo, plans, s, decision, Base);
    GrowsNot(memo, plans, 1);
    GrowsByOne(memo, plans, memo, plans, s, decision, Base, 1);
  }

  /** x = 1: the plan that leaves the first run alone is best among plans without a merge first. */
  lemma SkipTried(config: Config, memo: map<State, Decision>, plans: map<State, Plan>, s: State)
    requires s.incoming >= 2 && Solved(config, memo, plans)
    requires State(s.existing + 1, s.incoming - 1, s.pending + 1) in memo
    ensures var rest := State(s.existing + 1, s.incoming - 1, s.pending + 1);
            && rest in plans
            && config.SkipScore(s.existing) + memo[rest].score
               == Score(config, Skip(plans[rest]), s.existing, s.pending)
            && PlanFollows(plans, s, Skip(plans[rest]), 1)
            && BestBelow(config, Skip(plans[rest]), s.existing, s.incoming, s.pending, 2)
  {
    hide Config.SkipScore, Solved, Follows, IsOptimal, Score, BestBelow, Schedules, PlanFollows;
    var rest := State(s.existing + 1, s.incoming - 1, s.pending + 1);
    Lookup(config, memo, plans, rest);
    FollowsNext(plans, s);
    StartBest(config, plans[rest], s.existing, s.incoming, s.pending);
  }

  lemma KeepsEntry(memo: map<State, Decision>, plans: map<State, Plan>,
                   memo': map<State, Decision>, plans': map<State, Plan>, s: State, limit: nat)
    requires Grows(memo, plans, memo', plans', limit) && s in memo
    ensures s in memo' && memo'[s] == memo[s]
  {}

  lemma NewAtThisLevel(memo: map<State, Decision>, plans: map<State, Plan>,
                       memo': map<State, Decision>, plans': map<State, Plan>, s: State)
    requires Grows(memo, plans, memo', plans', s.incoming) && s !in memo
    ensures s !in memo'
  {}

  lemma BaseIsOptimal(config: Config, existing: nat, pending: nat)
    ensures IsOptimal(config, Base, existing, 1, pending)
    ensures Score(config, Base, existing, pending) == config.BaseScore(existing, pending)
  {
    hide Config.BaseScore;
  }

  lemma BestIsOptimal(config: Config, best: Plan, existing: nat, incoming: nat, pending: nat)
    requires incoming >= 2 && BestBelow(config, best, existing, incoming, pending, incoming)
    ensures IsOptimal(config, best, existing, incoming, pending)
  {
    hide Score;
  }

  datatype ScheduledMerge = ScheduledMerge(afterUnitRuns: nat, width: nat, isGlobal: bool)

  /** The merges of a plan: one at each base case, carrying its run and everything pending. */
  function Timeline(plan: Plan, pending: nat, base: nat, rightmost: bool): (merges: seq<ScheduledMerge>)
    decreases plan
  {
    match plan
    case Base => [ScheduledMerge(base + 1, pending + 1, rightmost)]
    case Skip(rest) => Timeline(rest, pending + 1, base + 1, rightmost)
    case Merge(x, left, right) =>
      Timeline(left, 0, base, false) + Timeline(right, pending + x, base + x, rightmost)
  }

  method Walk(config: Config, memo: map<State, Decision>, ghost plans: map<State, Plan>,
              existing: nat, incoming: nat, pending: nat, base: nat, rightmost: bool, merges: seq<ScheduledMerge>)
    returns (merges': seq<ScheduledMerge>)
    requires Solved(config, memo, plans)
    requires State(existing, incoming, pending) in memo && incoming > 0
    ensures merges' == merges + Timeline(plans[State(existing, incoming, pending)], pending, base, rightmost)
    decreases incoming
  {
    hide Solved, IsOptimal, Score, Config.BaseScore, Schedules;
    Lookup(config, memo, plans, State(existing, incoming, pending));
    if incoming == 1 {
      return merges + [ScheduledMerge(base + 1, pending + 1, rightmost)];
    }
    var x := memo[State(existing, incoming, pending)].mergeWidth;
    if x == 1 {
      merges' := Walk(config, memo, plans, existing + 1, incoming - 1, pending + 1, base + 1, rightmost, merges);
      return;
    }
    merges' := Walk(config, memo, plans, existing, x, 0, base, false, merges);
    merges' := Walk(config, memo, plans, existing + 1, incoming - x, pending + x, base + x, rightmost, merges');
  }

  // ---------------------------------------------------------------------
  // The schedule
  // ---------------------------------------------------------------------

  /** Unit runs (after - width, after] are what a merge absorbs. */
  ghost predicate NestedOrDisjoint(earlier: ScheduledMerge, later: ScheduledMerge) {
    var start := later.afterUnitRuns - later.width;
    earlier.afterUnitRuns <= start || start <= earlier.afterUnitRuns - earlier.width
  }

  /** Merges ascend, stay within the round, absorb only runs of the round that exist when they
      happen, nest or avoid each other, and end with one merge carrying everything. */
  ghost predicate WellFormedTimeline(merges: seq<ScheduledMerge>, incoming: nat, pending: nat, base: nat,
                                     rightmost: bool) {
    && |merges| > 0
    && merges[|merges| - 1] == ScheduledMerge(base + incoming, pending + incoming, rightmost)
    && (forall i, j :: 0 <= i < j < |merges| ==> merges[i].afterUnitRuns < merges[j].afterUnitRuns)
    && (forall i :: 0 <= i < |merges| - 1 ==>
          && !merges[i].isGlobal && merges[i].width >= 2
          && base + merges[i].width <= merges[i].afterUnitRuns)
    && (forall i, j :: 0 <= i < j < |merges| - 1 ==> NestedOrDisjoint(merges[i], merges[j]))
  }

  lemma {:induction false} TimelineIsWellFormed(plan: Plan, incoming: nat, pending: nat, base: nat, rightmost: bool)
    requires Schedules(plan, incoming)
    ensures WellFormedTimeline(Timeline(plan, pending, base, rightmost), incoming, pending, base, rightmost)
    decreases plan
  {
    hide WellFormedTimeline;
    match plan
    case Base =>
      OneMerge(pending, base, rightmost);
    case Skip(rest) =>
      TimelineIsWellFormed(rest, incoming - 1, pending + 1, base + 1, rightmost);
      SkipTimeline(Timeline(rest, pending + 1, base + 1, rightmost), incoming, pending, base, rightmost);
    case Merge(x, left, right) =>
      TimelineIsWellFormed(left, x, 0, base, false);
      TimelineIsWellFormed(right, incoming - x, pending + x, base + x, rightmost);
      var l, r := Timeline(left, 0, base, false), Timeline(right, pending + x, base + x, rightmost);
      AppendTimelines(l, r, x, incoming, pending, base, rightmost);
  }

  lemma OneMerge(pending: nat, base: nat, rightmost: bool)
    ensures WellFormedTimeline(Timeline(Base, pending, base, rightmost), 1, pending, base, rightmost)
  {}

  lemma SkipTimeline(merges: seq<ScheduledMerge>, incoming: nat, pending: nat, base: nat, rightmost: bool)
    requires incoming >= 2 && WellFormedTimeline(merges, incoming - 1, pending + 1, base + 1, rightmost)
    ensures WellFormedTimeline(merges, incoming, pending, base, rightmost)
  {}

  lemma AppendTimelines(l: seq<ScheduledMerge>, r: seq<ScheduledMerge>, x: nat, incoming: nat, pending: nat, base: nat,
                        rightmost: bool)
    requires 2 <= x < incoming
    requires WellFormedTimeline(l, x, 0, base, false)
    requires WellFormedTimeline(r, incoming - x, pending + x, base + x, rightmost)
    ensures WellFormedTimeline(l + r, incoming, pending, base, rightmost)
  {
    var m := l + r;
    forall i | 0 <= i < |l|
      ensures base < m[i].afterUnitRuns <= base + x && base + m[i].width <= m[i].afterUnitRuns && m[i].width >= 2
              && !m[i].isGlobal
    {
    }
    forall j | |l| <= j < |m| - 1 ensures base + x + m[j].width <= m[j].afterUnitRuns {
      assert m[j] == r[j - |l|];
    }
    forall i, j | 0 <= i < j < |m| - 1 ensures NestedOrDisjoint(m[i], m[j]) {
      if j < |l| - 1 {
        assert m[i] == l[i] && m[j] == l[j];
      } else if j == |l| - 1 {
        assert m[j] == ScheduledMerge(base + x, x, false);
      } else if i >= |l| {
        assert m[i] == r[i - |l|] && m[j] == r[j - |l|];
      }
    }
  }

  method Solve(config: Config)
    returns (memo: map<State, Decision>, ghost plans: map<State, Plan>, score: real)
    ensures var runs := if config.runsPerRound == 0 then 1 else config.runsPerRound;
            && Solved(config, memo, plans) && State(0, runs, config.lastLevelRatio * runs) in memo
            && score == config.tmInterval * config.QuerySpeed(0)
               + memo[State(0, runs, config.lastLevelRatio * runs)].score
    ensures var runs := if config.runsPerRound == 0 then 1 else config.runsPerRound;
            forall other :: Schedules(other, runs) ==>
              config.tmInterval * config.QuerySpeed(0) + Score(config, other, 0, config.lastLevelRatio * runs) <= score
  {
    var runs := if config.runsPerRound == 0 then 1 else config.runsPerRound;
    var tail;
    memo, plans, tail := SolveState(config, map[], map[], 0, runs, config.lastLevelRatio * runs);
    Lookup(config, memo, plans, State(0, runs, config.lastLevelRatio * runs));
    score := config.tmInterval * config.QuerySpeed(0) + tail;
  }

  /** `schedule`: the walk from the root realises a best plan, as a well-formed timeline whose
      last entry is the global compaction at R carrying C*R + R units. The final sort by position
      changes nothing, because the walk already emits ascending positions. */
  method Schedule(config: Config) returns (merges: seq<ScheduledMerge>, score: real, ghost plan: Plan)
    ensures var runs := if config.runsPerRound == 0 then 1 else config.runsPerRound;
            var m := config.lastLevelRatio * runs;
            && IsOptimal(config, plan, 0, runs, m) && merges == Timeline(plan, m, 0, true)
            && score == config.tmInterval * config.QuerySpeed(0) + Score(config, plan, 0, m)
    ensures var runs := if config.runsPerRound == 0 then 1 else config.runsPerRound;
            var m := config.lastLevelRatio * runs;
            && WellFormedTimeline(merges, runs, m, 0, true)
            && forall other :: Schedules(other, runs) ==>
                 config.tmInterval * config.QuerySpeed(0) + Score(config, other, 0, m) <= score
  {
    var runs := if config.runsPerRound == 0 then 1 else config.runsPerRound;
    var memo; ghost var plans;
    memo, plans, score := Solve(config);
    ghost var root := State(0, runs, config.lastLevelRatio * runs);
    assert SolvedAt(config, memo, plans, root);
    plan := plans[root];
    merges := Walk(config, memo, plans, 0, runs, config.lastLevelRatio * runs, 0, true, []);
    TimelineIsWellFormed(plan, runs, config.lastLevelRatio * runs, 0, true);
  }

  // ---------------------------------------------------------------------
  // Executing the schedule on runs that carry unit counts
  // ---------------------------------------------------------------------

  function Total(units: seq<nat>): nat {
    if |units| == 0 then 0 else units[0] + Total(units[1..])
  }

  /** `newest_runs_by_units`: how many of the newest runs a merge of `units` takes. */
  method NewestRunsByUnits(runs: seq<nat>, units: nat) returns (selected: nat)
    ensures selected == Selected(runs, units)
  {
    var taken, accumulated, done := 0, 0, false;
    while taken < |runs| && !done
      invariant 0 <= taken <= |runs| && accumulated <= units
      invariant !done ==> TakenFrom(runs, units) == taken + TakenFrom(runs[taken..], units - accumulated)
      invariant !done && taken > 0 ==> accumulated < units
      invariant done ==> TakenFrom(runs, units) == taken
      decreases |runs| - taken + if done then 0 else 1
    {
      assert runs[taken..][0] == runs[taken] && runs[taken..][1..] == runs[taken + 1..];
      if accumulated + runs[taken] > units {
        done := true;
      } else {
        accumulated := accumulated + runs[taken];
        taken := taken + 1;
        if accumulated >= units { done := true; }
      }
    }
    selected := if taken < 2 then 0 else taken;
  }

  /** Newest runs accumulated until the count is met, stopping short rather than overshooting. */
  function TakenFrom(runs: seq<nat>, units: nat): (n: nat)
    ensures n <= |runs|
  {
    if |runs| == 0 || runs[0] > units then 0
    else if runs[0] == units then 1
    else 1 + TakenFrom(runs[1..], units - runs[0])
  }

  /** A single run is not a merge worth doing. */
  function Selected(runs: seq<nat>, units: nat): (n: nat)
    ensures n <= |runs|
  {
    if TakenFrom(runs, units) < 2 then 0 else TakenFrom(runs, units)
  }

  /** When some newest runs carry exactly the requested units, exactly those are taken. */
  lemma {:induction false} ExactPrefixIsTaken(runs: seq<nat>, units: nat, k: nat)
    requires 0 < k <= |runs| && Total(runs[..k]) == units
    requires forall i :: 0 <= i < |runs| ==> runs[i] > 0
    ensures TakenFrom(runs, units) == k
  {
    assert runs[..k][0] == runs[0] && runs[..k][1..] == runs[1..][..k - 1];
    if k == 1 {
      assert Total(runs[..k][1..]) == 0;
    } else {
      assert runs[1..][..k - 1][0] == runs[1];
      ExactPrefixIsTaken(runs[1..], units - runs[0], k - 1);
    }
  }

  /** The main level, newest run first, after a merge of `width` units if its selection is exact. */
  ghost function Absorb(runs: seq<nat>, width: nat): seq<nat> {
    [Total(runs[..Selected(runs, width)])] + runs[Selected(runs, width)..]
  }

  ghost predicate SelectsExactly(runs: seq<nat>, width: nat) {
    Selected(runs, width) >= 2 && Total(runs[..Selected(runs, width)]) == width
  }

  /** The main level after the unit runs and merges of a plan. */
  ghost function Execute(plan: Plan, pending: nat, runs: seq<nat>): seq<nat>
    decreases plan
  {
    match plan
    case Base => Absorb([1] + runs, pending + 1)
    case Skip(rest) => Execute(rest, pending + 1, [1] + runs)
    case Merge(x, left, right) => Execute(right, pending + x, Execute(left, 0, runs))
  }

  ghost predicate EveryMergeExact(plan: Plan, pending: nat, runs: seq<nat>)
    decreases plan
  {
    match plan
    case Base => SelectsExactly([1] + runs, pending + 1)
    case Skip(rest) => EveryMergeExact(rest, pending + 1, [1] + runs)
    case Merge(x, left, right) =>
      EveryMergeExact(left, 0, runs) && EveryMergeExact(right, pending + x, Execute(left, 0, runs))
  }

  /** If merged runs carry the sum of their inputs' units, every merge of the schedule finds newest
      runs that add up to exactly its width, whatever older runs are below. */
  lemma {:induction false} ScheduledWidthsAreExact(plan: Plan, incoming: nat, pending: nat, runs: seq<nat>, k: nat)
    requires Schedules(plan, incoming) && pending + incoming >= 2
    requires k <= |runs| && Total(runs[..k]) == pending && forall i :: 0 <= i < |runs| ==> runs[i] > 0
    ensures EveryMergeExact(plan, pending, runs)
    ensures Execute(plan, pending, runs) == [pending + incoming] + runs[k..]
    decreases plan
  {
    match plan
    case Base =>
      PushUnit(1, runs, k);
      ExactPrefixIsTaken([1] + runs, pending + 1, k + 1);
    case Skip(rest) =>
      PushUnit(1, runs, k);
      ScheduledWidthsAreExact(rest, incoming - 1, pending + 1, [1] + runs, k + 1);
    case Merge(x, left, right) =>
      assert runs[..0] == [] && runs[0..] == runs;
      ScheduledWidthsAreExact(left, x, 0, runs, 0);
      PushUnit(x, runs, k);
      ScheduledWidthsAreExact(right, incoming - x, pending + x, [x] + runs, k + 1);
  }

  lemma PushUnit(unit: nat, runs: seq<nat>, k: nat)
    requires k <= |runs|
    ensures ([unit] + runs)[..k + 1] == [unit] + runs[..k] && ([unit] + runs)[k + 1..] == runs[k..]
    ensures Total(([unit] + runs)[..k + 1]) == unit + Total(runs[..k])
  {
    assert ([unit] + runs)[..k + 1] == [unit] + runs[..k];
    assert ([unit] + runs[..k])[1..] == runs[..k];
  }
}
