/** The degradation ladder of a clue handed to subagents: after failures it may be tried again in a
    narrower scope, then only by others.  Limits on fan-outs and failures apply per run. */
module Ladder {
  import opened PyText
  import opened Lists

  datatype Stage = Subagent | Narrowed | Teammate | Self | Terminal

  function Rank(s: Stage): nat {
    match s
    case Subagent => 0
    case Narrowed => 1
    case Teammate => 2
    case Self => 3
    case Terminal => 4
  }

  /** Each stage is further down than the one before. */
  lemma RankIsOrder()
    ensures Rank(Subagent) < Rank(Narrowed) < Rank(Teammate) < Rank(Self) < Rank(Terminal)
  {
  }

  datatype Clue = Clue(attempts: nat, failures: nat, stage: Stage, completed: bool)

  const NEW_CLUE := Clue(0, 0, Subagent, false)

  /** `SUBAGENT_MAX_FANOUTS_PER_RUN` and `SUBAGENT_MAX_FAILURES_PER_CLUE`. */
  datatype Limits = Limits(fanouts: int, failures: int)

  datatype State = State(fanouts: nat, rejected: nat, clues: map<string, Clue>)

  datatype Verdict = Allowed | FanoutSpent | ClueBarred(clue: string)

  function ClueOf(clues: map<string, Clue>, k: string): Clue {
    if k in clues then clues[k] else NEW_CLUE
  }

  // ----- what the three operations do to the clues -----

  predicate Barred(c: Clue, limits: Limits) {
    c.failures >= limits.failures || c.stage.Teammate? || c.stage.Self? || c.stage.Terminal?
  }

  /** The first task whose clue may not go to a subagent; `|tasks|` if there is none. */
  function FirstBarred(clues: map<string, Clue>, tasks: seq<string>, limits: Limits): (n: nat)
    ensures n <= |tasks|
    ensures forall i :: 0 <= i < n ==> !Barred(ClueOf(clues, tasks[i]), limits)
    ensures n < |tasks| ==> Barred(ClueOf(clues, tasks[n]), limits)
  {
    if tasks == [] then 0
    else
      var n := FirstBarred(clues, tasks[..|tasks| - 1], limits);
      if n < |tasks| - 1 || Barred(ClueOf(clues, tasks[|tasks| - 1]), limits) then n else |tasks|
  }

  /** Looking a clue up enters it in the table. */
  function Entered(clues: map<string, Clue>, tasks: seq<string>): map<string, Clue> {
    if tasks == [] then clues
    else
      var before, k := Entered(clues, tasks[..|tasks| - 1]), tasks[|tasks| - 1];
      before[k := ClueOf(before, k)]
  }

  function AfterDispatch(clues: map<string, Clue>, tasks: seq<string>): map<string, Clue> {
    if tasks == [] then clues
    else
      var before, k := AfterDispatch(clues, tasks[..|tasks| - 1]), tasks[|tasks| - 1];
      before[k := ClueOf(before, k).(attempts := ClueOf(before, k).attempts + 1)]
  }

  function NextStage(failures: int): Stage {
    if failures <= 0 then Subagent else if failures == 1 then Narrowed else Teammate
  }

  function Judge(c: Clue, failed: bool): Clue {
    if failed then c.(failures := c.failures + 1, stage := NextStage(c.failures + 1))
    else c.(stage := Terminal, completed := true)
  }

  /** The first `n` results have been recorded for their clues. */
  function AfterResults(clues: map<string, Clue>, tasks: seq<string>, failed: seq<bool>, n: nat): map<string, Clue>
    requires n <= |tasks| && n <= |failed|
  {
    if n == 0 then clues
    else
      var before, k := AfterResults(clues, tasks, failed, n - 1), tasks[n - 1];
      before[k := Judge(ClueOf(before, k), failed[n - 1])]
  }

  function Judged(s: State, tasks: seq<string>, limits: Limits): Verdict {
    if s.fanouts >= limits.fanouts then FanoutSpent
    else
      var n := FirstBarred(s.clues, tasks, limits);
      if n < |tasks| then ClueBarred(tasks[n]) else Allowed
  }

  function Guarded(s: State, tasks: seq<string>, limits: Limits): State {
    var n := FirstBarred(s.clues, tasks, limits);
    match Judged(s, tasks, limits)
    case FanoutSpent => s.(rejected := s.rejected + 1)
    case ClueBarred(_) => s.(rejected := s.rejected + 1, clues := Entered(s.clues, tasks[..n + 1]))
    case Allowed => s.(clues := Entered(s.clues, tasks))
  }

  class Orchestration {
    const limits: Limits
    var state: State

    constructor (limits: Limits)
      ensures this.limits == limits && state == State(0, 0, map[])
    {
      this.limits := limits;
      state := State(0, 0, map[]);
    }

    /** `guard_subagent_dispatch` lets a batch through only if no clue in it is barred. */
    method Guard(tasks: seq<string>) returns (v: Verdict)
      modifies this
      ensures v == Judged(old(state), tasks, limits)
      ensures state == Guarded(old(state), tasks, limits)
    {
      if state.fanouts >= limits.fanouts {
        state := state.(rejected := state.rejected + 1);
        return FanoutSpent;
      }
      for i := 0 to |tasks|
        invariant state == old(state).(clues := Entered(old(state).clues, tasks[..i]))
        invariant i <= FirstBarred(old(state).clues, tasks, limits)
      {
        var k := tasks[i];
        EnteringChangesNothing(old(state).clues, tasks[..i], k);
        assert tasks[..i + 1][..i] == tasks[..i];
        state := state.(clues := state.clues[k := ClueOf(state.clues, k)]);
        if Barred(state.clues[k], limits) {
          state := state.(rejected := state.rejected + 1);
          return ClueBarred(k);
        }
      }
      assert tasks[..|tasks|] == tasks;
      v := Allowed;
    }

    method RecordDispatch(tasks: seq<string>)
      modifies this
      ensures state == old(state).(fanouts := old(state).fanouts + 1,
                                   clues := AfterDispatch(old(state).clues, tasks))
    {
      state := state.(fanouts := state.fanouts + 1);
      for i := 0 to |tasks|
        invariant state == old(state).(fanouts := old(state).fanouts + 1,
                                       clues := AfterDispatch(old(state).clues, tasks[..i]))
      {
        var k := tasks[i];
        assert tasks[..i + 1][..i] == tasks[..i];
        var c := ClueOf(state.clues, k);
        state := state.(clues := state.clues[k := c.(attempts := c.attempts + 1)]);
      }
      assert tasks[..|tasks|] == tasks;
    }

    /** `zip` stops at the shorter of the two lists. */
    method RecordResults(tasks: seq<string>, failed: seq<bool>)
      modifies this
      ensures state == old(state).(clues :=
        AfterResults(old(state).clues, tasks, failed, Min(|tasks|, |failed|)))
    {
      for n := 0 to Min(|tasks|, |failed|)
        invariant state == old(state).(clues := AfterResults(old(state).clues, tasks, failed, n))
      {
        var k := tasks[n];
        var c := ClueOf(state.clues, k);
        if failed[n] {
          var failures := c.failures + 1;
          c := c.(failures := failures, stage := NextStage(failures));
        } else {
          c := c.(stage := Terminal, completed := true);
        }
        state := state.(clues := state.clues[k := c]);
      }
    }
  }

  // ----- one clue at a time -----

  lemma {:induction false} EnteringChangesNothing(clues: map<string, Clue>, tasks: seq<string>, k: string)
    ensures ClueOf(Entered(clues, tasks), k) == ClueOf(clues, k)
  {
    if tasks != [] {
      EnteringChangesNothing(clues, tasks[..|tasks| - 1], k);
      EnteringChangesNothing(clues, tasks[..|tasks| - 1], tasks[|tasks| - 1]);
    }
  }

  lemma {:induction false} DispatchCounts(clues: map<string, Clue>, tasks: seq<string>, k: string)
    ensures ClueOf(AfterDispatch(clues, tasks), k) ==
            ClueOf(clues, k).(attempts := ClueOf(clues, k).attempts + Times(tasks, k))
  {
    if tasks != [] { DispatchCounts(clues, tasks[..|tasks| - 1], k); }
  }

  /** How many of the first `n` results for `k` failed, or did not. */
  function Outcomes(tasks: seq<string>, failed: seq<bool>, n: nat, k: string, f: bool): nat
    requires n <= |tasks| && n <= |failed|
  {
    if n == 0 then 0
    else Outcomes(tasks, failed, n - 1, k, f) + if tasks[n - 1] == k && failed[n - 1] == f then 1 else 0
  }

  /** The last of the first `n` results for `k` is a success. */
  predicate EndsWell(tasks: seq<string>, failed: seq<bool>, n: nat, k: string)
    requires n <= |tasks| && n <= |failed|
  {
    n > 0 && if tasks[n - 1] == k then !failed[n - 1] else EndsWell(tasks, failed, n - 1, k)
  }

  /** What a batch of results makes of one clue. */
  lemma {:induction false} ResultsForClue(clues: map<string, Clue>, tasks: seq<string>, failed: seq<bool>,
                                          n: nat, k: string)
    requires n <= |tasks| && n <= |failed|
    ensures
      var c, after := ClueOf(clues, k), ClueOf(AfterResults(clues, tasks, failed, n), k);
      var bad, good := Outcomes(tasks, failed, n, k, true), Outcomes(tasks, failed, n, k, false);
      && after.attempts == c.attempts
      && after.failures == c.failures + bad
      && (after.completed <==> c.completed || good > 0)
      && (EndsWell(tasks, failed, n, k) ==> after.stage == Terminal && good > 0)
      && (!EndsWell(tasks, failed, n, k) ==>
           after.stage == if bad + good > 0 then NextStage(after.failures) else c.stage)
  {
    if n > 0 { ResultsForClue(clues, tasks, failed, n - 1, k); }
  }

  /** The stage follows from the failures and from whether the clue was completed. */
  predicate Sound(c: Clue) {
    c.stage == if c.completed then Terminal else NextStage(c.failures)
  }

  /** A batch may contain a clue twice.  Its stage stays right exactly when no success is followed
      by a failure that has the last word. */
  lemma BatchKeepsSoundIff(clues: map<string, Clue>, tasks: seq<string>, failed: seq<bool>, n: nat, k: string)
    requires n <= |tasks| && n <= |failed|
    requires Sound(ClueOf(clues, k)) && !ClueOf(clues, k).completed
    ensures Sound(ClueOf(AfterResults(clues, tasks, failed, n), k)) <==>
      (Outcomes(tasks, failed, n, k, false) > 0 ==> EndsWell(tasks, failed, n, k))
  {
    ResultsForClue(clues, tasks, failed, n, k);
  }

  function RankAfter(clues: map<string, Clue>, tasks: seq<string>, failed: seq<bool>, n: nat, k: string): nat
    requires n <= |tasks| && n <= |failed|
  {
    Rank(ClueOf(AfterResults(clues, tasks, failed, n), k).stage)
  }

  /** No result among the first `n` moves the clue back. */
  ghost predicate NeverFalls(clues: map<string, Clue>, tasks: seq<string>, failed: seq<bool>, n: nat, k: string)
    requires n <= |tasks| && n <= |failed|
  {
    forall m | 0 <= m < n ::
      RankAfter(clues, tasks, failed, m, k) <= RankAfter(clues, tasks, failed, m + 1, k)
  }

  /** The clue succeeds at `i` and fails later, at `j`. */
  ghost predicate Relapse(tasks: seq<string>, failed: seq<bool>, k: string, i: int, j: int) {
    0 <= i < j < |tasks| && j < |failed| && tasks[i] == k && !failed[i] && tasks[j] == k && failed[j]
  }

  lemma {:induction false} SuccessIsThere(tasks: seq<string>, failed: seq<bool>, n: nat, k: string)
    returns (i: nat)
    requires n <= |tasks| && n <= |failed| && Outcomes(tasks, failed, n, k, false) > 0
    ensures i < n && tasks[i] == k && !failed[i]
  {
    if tasks[n - 1] == k && !failed[n - 1] { i := n - 1; } else { i := SuccessIsThere(tasks, failed, n - 1, k); }
  }

  /** After a success and before the next failure the last result is a success. */
  lemma {:induction false} StillWell(tasks: seq<string>, failed: seq<bool>, n: nat, k: string, i: nat)
    requires i < n <= |tasks| && n <= |failed| && tasks[i] == k && !failed[i]
    requires forall m | i < m < n && tasks[m] == k :: !failed[m]
    ensures EndsWell(tasks, failed, n, k)
  {
    if tasks[n - 1] != k { StillWell(tasks, failed, n - 1, k, i); }
  }

  /** A result can only move a clue back when it is a failure after a success. */
  lemma OneResultFalls(clues: map<string, Clue>, tasks: seq<string>, failed: seq<bool>, m: nat, k: string)
    returns (i: nat)
    requires m < |tasks| && m < |failed|
    requires Sound(ClueOf(clues, k)) && !ClueOf(clues, k).completed
    requires RankAfter(clues, tasks, failed, m, k) > RankAfter(clues, tasks, failed, m + 1, k)
    ensures Relapse(tasks, failed, k, i, m)
  {
    ResultsForClue(clues, tasks, failed, m, k);
    assert tasks[m] == k && failed[m];
    i := SuccessIsThere(tasks, failed, m, k);
  }

  lemma {:induction false} RelapseFalls(
      clues: map<string, Clue>, tasks: seq<string>, failed: seq<bool>, n: nat, k: string, i: nat, j: nat)
    requires n <= |tasks| && n <= |failed| && Relapse(tasks, failed, k, i, j) && j < n
    ensures exists m ::
      0 <= m < n && RankAfter(clues, tasks, failed, m, k) > RankAfter(clues, tasks, failed, m + 1, k)
    decreases j
  {
    if earlier :| i < earlier < j && tasks[earlier] == k && failed[earlier] {
      RelapseFalls(clues, tasks, failed, n, k, i, earlier);
    } else {
      StillWell(tasks, failed, j, k, i);
      ResultsForClue(clues, tasks, failed, j, k);
      assert RankAfter(clues, tasks, failed, j, k) > RankAfter(clues, tasks, failed, j + 1, k);
    }
  }

  /** Within a batch a clue never moves back exactly when no success of it is followed by a failure. */
  lemma BatchNeverFallsIff(clues: map<string, Clue>, tasks: seq<string>, failed: seq<bool>, n: nat, k: string)
    requires n <= |tasks| && n <= |failed|
    requires Sound(ClueOf(clues, k)) && !ClueOf(clues, k).completed
    ensures NeverFalls(clues, tasks, failed, n, k) 
      <==> !exists i, j :: Relapse(tasks, failed, k, i, j) && j < n
  {
    if !NeverFalls(clues, tasks, failed, n, k) {
      var m :| 0 <= m < n && RankAfter(clues, tasks, failed, m, k) > RankAfter(clues, tasks, failed, m + 1, k);
      var i := OneResultFalls(clues, tasks, failed, m, k);
    }
    if i, j :| Relapse(tasks, failed, k, i, j) && j < n {
      RelapseFalls(clues, tasks, failed, n, k, i, j);
    }
  }

  /** The ladder is climbed down: a completed clue is offered to a narrower subagent again. */
  lemma RepeatedClueMovesBack(k: string)
    ensures AfterResults(map[], [k, k], [false, true], 1)[k].stage == Terminal
    ensures AfterResults(map[], [k, k], [false, true], 2)[k].stage == Narrowed
    ensures AfterResults(map[], [k, k], [false, true], 2)[k].completed
  {
    assert AfterResults(map[], [k, k], [false, true], 1) == map[k := Clue(0, 0, Terminal, true)];
  }

  lemma {:induction false} DistinctOutcomes(tasks: seq<string>, failed: seq<bool>, n: nat, k: string)
    requires n <= |tasks| && n <= |failed| && Distinct(tasks)
    ensures
      var bad, good := Outcomes(tasks, failed, n, k, true), Outcomes(tasks, failed, n, k, false);
      && bad + good == (if exists i :: 0 <= i < n && tasks[i] == k then 1 else 0)
      && (good > 0 ==> EndsWell(tasks, failed, n, k))
  {
    if n > 0 {
      DistinctOutcomes(tasks, failed, n - 1, k);
      forall i: nat | i < n - 1 ensures tasks[i] != tasks[n - 1] { DistinctAt(tasks, i, n - 1); }
      assert tasks[n - 1] == k ==> exists i :: 0 <= i < n && tasks[i] == k;
    }
  }

  // ----- runs -----

  /** One batch offered, and how its tasks turn out if they are dispatched. */
  datatype Round = Round(tasks: seq<string>, failed: seq<bool>)

  /** Guard, then dispatch and results when the guard allows it. */
  function Play(s: State, r: Round, limits: Limits): State {
    var g := Guarded(s, r.tasks, limits);
    if Judged(s, r.tasks, limits).Allowed? then
      g.(fanouts := g.fanouts + 1,
         clues := AfterResults(AfterDispatch(g.clues, r.tasks), r.tasks, r.failed,
                               Min(|r.tasks|, |r.failed|)))
    else g
  }

  function Run(rounds: seq<Round>, limits: Limits): State {
    if rounds == [] then State(0, 0, map[])
    else Play(Run(rounds[..|rounds| - 1], limits), rounds[|rounds| - 1], limits)
  }

  /** A tool call that hands out subagents, as the handlers do it. */
  method PlayRound(o: Orchestration, r: Round)
    modifies o
    ensures o.state == Play(old(o.state), r, o.limits)
  {
    var v := o.Guard(r.tasks);
    if v.Allowed? {
      o.RecordDispatch(r.tasks);
      o.RecordResults(r.tasks, r.failed);
    }
  }

  /** Any sequence of tool calls from the start of a run. */
  method PlayAll(limits: Limits, rounds: seq<Round>) returns (o: Orchestration)
    ensures fresh(o) && o.state == Run(rounds, limits)
  {
    o := new Orchestration(limits);
    for i := 0 to |rounds|
      invariant o.limits == limits && o.state == Run(rounds[..i], limits)
    {
      assert rounds[..i + 1][..i] == rounds[..i];
      PlayRound(o, rounds[i]);
    }
    assert rounds[..|rounds|] == rounds;
  }

  function ClueAfter(rounds: seq<Round>, limits: Limits, k: string): Clue {
    ClueOf(Run(rounds, limits).clues, k)
  }

  function FailureCap(limits: Limits): int {
    Max(0, Min(limits.failures, 2))
  }

  /** Between two rounds. */
  ghost predicate Fine(c: Clue, limits: Limits) {
    Sound(c) && c.failures <= FailureCap(limits)
  }

  lemma GuardedClue(s: State, tasks: seq<string>, limits: Limits, k: string)
    ensures ClueOf(Guarded(s, tasks, limits).clues, k) == ClueOf(s.clues, k)
  {
    EnteringChangesNothing(s.clues, tasks[..Min(FirstBarred(s.clues, tasks, limits) + 1, |tasks|)], k);
    EnteringChangesNothing(s.clues, tasks, k);
  }

  /** A clue takes part in a round when the batch is let through and contains it. */
  predicate Dispatched(s: State, r: Round, limits: Limits, k: string) {
    Judged(s, r.tasks, limits).Allowed? && k in Elements(r.tasks)
  }

  lemma {:induction false} NotThereNoOutcomes(tasks: seq<string>, failed: seq<bool>, n: nat, k: string, f: bool)
    requires n <= |tasks| && n <= |failed| && k !in Elements(tasks)
    ensures Outcomes(tasks, failed, n, k, f) == 0
  {
    if n > 0 {
      InElements(tasks, tasks[n - 1]);
      NotThereNoOutcomes(tasks, failed, n - 1, k, f);
    }
  }

  /** What one round makes of one clue: at most one failure or one success. */
  lemma PlayForClue(s: State, r: Round, limits: Limits, k: string)
    requires Distinct(r.tasks)
    ensures !Dispatched(s, r, limits, k) ==> ClueOf(Play(s, r, limits).clues, k) == ClueOf(s.clues, k)
    ensures Dispatched(s, r, limits, k) ==>
      !Barred(ClueOf(s.clues, k), limits)
    ensures Dispatched(s, r, limits, k) ==>
      Taken(ClueOf(s.clues, k), ClueOf(Play(s, r, limits).clues, k), |r.failed| >= |r.tasks|)
  {
    hide Barred;
    hide AfterResults;
    hide AfterDispatch;
    hide Outcomes;
    hide EndsWell;
    GuardedClue(s, r.tasks, limits, k);
    if Judged(s, r.tasks, limits).Allowed? {
      var g, n := Guarded(s, r.tasks, limits), Min(|r.tasks|, |r.failed|);
      DispatchCounts(g.clues, r.tasks, k);
      DistinctTimes(r.tasks, k);
      ResultsForClue(AfterDispatch(g.clues, r.tasks), r.tasks, r.failed, n, k);
      DistinctOutcomes(r.tasks, r.failed, n, k);
      InElements(r.tasks, k);
      if k !in Elements(r.tasks) {
        NotThereNoOutcomes(r.tasks, r.failed, n, k, true);
        NotThereNoOutcomes(r.tasks, r.failed, n, k, false);
      }
    }
  }

  /** One dispatch, then one result, or none if none has to be reported. */
  predicate Taken(c: Clue, after: Clue, reported: bool) {
    var tried := c.(attempts := c.attempts + 1);
    after == Judge(tried, true) || after == Judge(tried, false) || (!reported && after == tried)
  }

  /** One round keeps what holds of a clue, never moves it back, and leaves a completed one alone. */
  lemma RoundKeepsClue(s: State, r: Round, limits: Limits, k: string)
    requires Distinct(r.tasks) && Fine(ClueOf(s.clues, k), limits)
    ensures Fine(ClueOf(Play(s, r, limits).clues, k), limits)
    ensures MovesForward(ClueOf(s.clues, k), ClueOf(Play(s, r, limits).clues, k))
    ensures ClueOf(s.clues, k).completed ==> !Dispatched(s, r, limits, k)
  {
    PlayForClue(s, r, limits, k);
  }

  ghost predicate AllDistinct(rounds: seq<Round>) {
    forall i | 0 <= i < |rounds| :: Distinct(rounds[i].tasks)
  }

  lemma OneFanout(s: State, r: Round, limits: Limits)
    requires s.fanouts <= Max(0, limits.fanouts)
    ensures Play(s, r, limits).fanouts <= Max(0, limits.fanouts)
  {
  }

  ghost predicate WithinLimits(s: State, limits: Limits, k: string) {
    s.fanouts <= Max(0, limits.fanouts) && Fine(ClueOf(s.clues, k), limits)
  }

  /** In every run the fan-outs stay within their limit, and each clue has the stage its failures
      and completion call for, with no more failures than allowed. */
  lemma {:induction false} RunStaysWithinLimits(rounds: seq<Round>, limits: Limits, k: string)
    requires AllDistinct(rounds)
    ensures WithinLimits(Run(rounds, limits), limits, k)
  {
    hide Play;
    if rounds != [] {
      var n := |rounds| - 1;
      RunStaysWithinLimits(rounds[..n], limits, k);
      OneFanout(Run(rounds[..n], limits), rounds[n], limits);
      RoundKeepsClue(Run(rounds[..n], limits), rounds[n], limits, k);
    }
  }

  /** The stage does not move back, and a completed clue does not change. */
  predicate MovesForward(c: Clue, after: Clue) {
    Rank(c.stage) <= Rank(after.stage) && (c.completed ==> after == c)
  }

  /** Over any stretch of a run a clue only moves forward, and stays as it is once completed. */
  lemma {:induction false} RunMovesForward(first: seq<Round>, more: seq<Round>, limits: Limits, k: string)
    requires AllDistinct(first) && AllDistinct(more)
    ensures MovesForward(ClueAfter(first, limits, k), ClueAfter(first + more, limits, k))
  {
    hide Play;
    if more == [] {
      assert first + more == first;
    } else {
      var front, last := more[..|more| - 1], more[|more| - 1];
      assert first + more == first + front + [last];
      RunMovesForward(first, front, limits, k);
      RunStaysWithinLimits(first + front, limits, k);
      RunOneMore(first + front, last, limits);
      RoundKeepsClue(Run(first + front, limits), last, limits, k);
    }
  }

  lemma RunOneMore(rounds: seq<Round>, r: Round, limits: Limits)
    ensures Run(rounds + [r], limits) == Play(Run(rounds, limits), r, limits)
  {
    assert (rounds + [r])[..|rounds + [r]| - 1] == rounds;
  }

  /** A clue completed in the first rounds takes part in no later one. */
  lemma CompletedNeverDispatched(first: seq<Round>, more: seq<Round>, r: Round, limits: Limits, k: string)
    requires AllDistinct(first) && AllDistinct(more) && Distinct(r.tasks)
    requires ClueAfter(first, limits, k).completed
    ensures !Dispatched(Run(first + more, limits), r, limits, k)
  {
    hide Run;
    RunMovesForward(first, more, limits, k);
    RunStaysWithinLimits(first + more, limits, k);
    RoundKeepsClue(Run(first + more, limits), r, limits, k);
  }

  ghost predicate AllReported(rounds: seq<Round>) {
    forall i | 0 <= i < |rounds| :: |rounds[i].failed| >= |rounds[i].tasks|
  }

  /** When every task reports back, each attempt is accounted for. */
  lemma {:induction false} AttemptsAreAccountedFor(rounds: seq<Round>, limits: Limits, k: string)
    requires AllDistinct(rounds) && AllReported(rounds)
    ensures var c := ClueAfter(rounds, limits, k);
      c.attempts == c.failures + if c.completed then 1 else 0
  {
    hide Play;
    if rounds != [] {
      var n := |rounds| - 1;
      AttemptsAreAccountedFor(rounds[..n], limits, k);
      RunStaysWithinLimits(rounds[..n], limits, k);
      RoundKeepsClue(Run(rounds[..n], limits), rounds[n], limits, k);
      PlayForClue(Run(rounds[..n], limits), rounds[n], limits, k);
    }
  }

  // ----- the same in numbers -----

  /** A batch passes when fan-outs are left and every clue in it is still at one of the first two stages
      with failures to spare.  Else the first reason is reported: fan-outs before clues, clues in order. */
  lemma BatchPassesIff(s: State, tasks: seq<string>, limits: Limits)
    ensures Judged(s, tasks, limits) == Allowed <==>
      && s.fanouts < limits.fanouts
      && forall i | 0 <= i < |tasks| :: MayGo(ClueOf(s.clues, tasks[i]), limits)
    ensures Judged(s, tasks, limits) == FanoutSpent <==> s.fanouts >= limits.fanouts
    ensures forall i |
      0 <= i < |tasks| && s.fanouts < limits.fanouts && !MayGo(ClueOf(s.clues, tasks[i]), limits)
        && (forall j | 0 <= j < i :: MayGo(ClueOf(s.clues, tasks[j]), limits)) ::
      Judged(s, tasks, limits) == ClueBarred(tasks[i])
  {
    var n := FirstBarred(s.clues, tasks, limits);
    forall i | 0 <= i < |tasks|
      ensures MayGo(ClueOf(s.clues, tasks[i]), limits) <==> !Barred(ClueOf(s.clues, tasks[i]), limits)
    {
    }
  }

  predicate MayGo(c: Clue, limits: Limits) {
    c.failures < limits.failures && c.stage in {Subagent, Narrowed}
  }

  /** A batch that passes costs a fan-out; one that is rejected is counted and changes no clue. */
  lemma PlayCounts(s: State, r: Round, limits: Limits, k: string)
    ensures var after := Play(s, r, limits);
      if Judged(s, r.tasks, limits) == Allowed
      then after.fanouts == s.fanouts + 1 && after.rejected == s.rejected
      else after.fanouts == s.fanouts && after.rejected == s.rejected + 1
           && ClueOf(after.clues, k) == ClueOf(s.clues, k)
  {
    GuardedClue(s, r.tasks, limits, k);
  }

  lemma {:induction false} OutcomeIsThere(tasks: seq<string>, failed: seq<bool>, n: nat, i: nat)
    requires i < n <= |tasks| && n <= |failed|
    ensures Outcomes(tasks, failed, n, tasks[i], failed[i]) > 0
  {
    if i < n - 1 { OutcomeIsThere(tasks, failed, n - 1, i); }
  }

  lemma {:induction false} NoOutcomeBefore(tasks: seq<string>, failed: seq<bool>, n: nat, i: nat, f: bool)
    requires n <= i < |tasks| && n <= |failed| && Distinct(tasks)
    ensures Outcomes(tasks, failed, n, tasks[i], f) == 0
  {
    if n > 0 {
      DistinctAt(tasks, n - 1, i);
      NoOutcomeBefore(tasks, failed, n - 1, i, f);
    }
  }

  /** What a round makes of the clue of task `i`: an attempt more, and by its result a failure more and
      the next stage, or completion. */
  lemma RoundForTask(s: State, r: Round, limits: Limits, i: nat)
    requires Distinct(r.tasks) && i < |r.tasks| && Judged(s, r.tasks, limits) == Allowed
    ensures var c, after := ClueOf(s.clues, r.tasks[i]), ClueOf(Play(s, r, limits).clues, r.tasks[i]);
      if i >= |r.failed| then after == c.(attempts := c.attempts + 1)
      else if r.failed[i] then
        after == Clue(c.attempts + 1, c.failures + 1, if c.failures == 0 then Narrowed else Teammate, c.completed)
      else after == Clue(c.attempts + 1, c.failures, Terminal, true)
  {
    hide AfterResults;
    hide AfterDispatch;
    hide Outcomes;
    hide EndsWell;
    var k, g, n := r.tasks[i], Guarded(s, r.tasks, limits), Min(|r.tasks|, |r.failed|);
    GuardedClue(s, r.tasks, limits, k);
    DispatchCounts(g.clues, r.tasks, k);
    DistinctTimes(r.tasks, k);
    InElements(r.tasks, k);
    ResultsForClue(AfterDispatch(g.clues, r.tasks), r.tasks, r.failed, n, k);
    DistinctOutcomes(r.tasks, r.failed, n, k);
    if i < n {
      OutcomeIsThere(r.tasks, r.failed, n, i);
    } else {
      NoOutcomeBefore(r.tasks, r.failed, n, i, true);
      NoOutcomeBefore(r.tasks, r.failed, n, i, false);
      NotEndsWell(r.tasks, r.failed, n, k);
    }
  }

  lemma {:induction false} NotEndsWell(tasks: seq<string>, failed: seq<bool>, n: nat, k: string)
    requires n <= |tasks| && n <= |failed| && Outcomes(tasks, failed, n, k, false) == 0
    ensures !EndsWell(tasks, failed, n, k)
  {
    if n > 0 { NotEndsWell(tasks, failed, n - 1, k); }
  }

  lemma StartOfRun(limits: Limits, k: string)
    ensures ClueAfter([], limits, k) == Clue(0, 0, Subagent, false)
    ensures Run([], limits).fanouts == 0 && Run([], limits).rejected == 0
  {
  }

  /** In every run the stage of a clue tells how often it failed, at most twice, or that it is done. */
  lemma StageTellsFailures(rounds: seq<Round>, limits: Limits, k: string)
    requires AllDistinct(rounds)
    ensures var c := ClueAfter(rounds, limits, k);
      && (c.completed <==> c.stage == Terminal)
      && (!c.completed && c.failures == 0 <==> c.stage == Subagent)
      && (!c.completed && c.failures == 1 <==> c.stage == Narrowed)
      && (!c.completed && c.failures == 2 <==> c.stage == Teammate)
      && c.failures <= 2 && c.failures <= Max(0, limits.failures)
    ensures rounds == [] ==> ClueAfter(rounds, limits, k) == Clue(0, 0, Subagent, false)
  {
    StartOfRun(limits, k);
    hide Run;
    RunStaysWithinLimits(rounds, limits, k);
  }

  lemma {:induction false} EnteredKeys(clues: map<string, Clue>, tasks: seq<string>)
    ensures forall k :: k in Entered(clues, tasks) <==> k in clues || k in tasks
  {
    if tasks != [] {
      EnteredKeys(clues, tasks[..|tasks| - 1]);
      assert tasks == tasks[..|tasks| - 1] + [tasks[|tasks| - 1]];
    }
  }

  /** The guard enters every clue it has looked at: all of a batch that passes, those up to the barred
      one of a batch that does not, and none when no fan-outs are left. */
  lemma GuardEnters(s: State, tasks: seq<string>, limits: Limits, i: nat, k: string)
    requires i <= |tasks| && forall j | 0 <= j < i :: MayGo(ClueOf(s.clues, tasks[j]), limits)
    requires i < |tasks| ==> !MayGo(ClueOf(s.clues, tasks[i]), limits)
    ensures k in Guarded(s, tasks, limits).clues <==>
      k in s.clues || (s.fanouts < limits.fanouts && exists j :: 0 <= j <= i && j < |tasks| && tasks[j] == k)
  {
    var n := FirstBarred(s.clues, tasks, limits);
    assert n == i;
    var looked := if i < |tasks| then tasks[..i + 1] else tasks;
    EnteredKeys(s.clues, looked);
    assert k in looked <==> exists j :: 0 <= j <= i && j < |tasks| && tasks[j] == k by {
      if j :| 0 <= j <= i && j < |tasks| && tasks[j] == k { assert looked[j] == k; }
    }
  }
}
