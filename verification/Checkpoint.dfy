/**
  What the runs of a project and the log say of its checkpoint
  (scripts/personal-memory-parallel.py, `_command_tick_locked` and
  `tick_results_complete`), as used by module `Tick`.
 */
module Checkpoint {
  import opened Wrappers
  import opened Tasks
  import opened WorkPlan
  import opened CommandPlan
  import opened Packing
  import opened PlanReads
  import opened Scopes
  import opened DriverLog
  import opened ShardDriver

  type RunID = nat

  /** Corpus, format and selection options, compared as a whole. */
  type Binding = string

  datatype Pending = Pending(binding: Binding, run: RunID, from: Time, through: Time)

  datatype TickState = TickState(lastTickTime: Option<Time>, pendingRun: Option<Pending>)

  /** A run directory: its window, its plan and what that was made from, and the progress file of each shard. */
  datatype RunDir = RunDir(from: Time, through: Time, arguments: PlanArguments, plan: Plan, progress: seq<Stored>)

  const EPOCH: Time := 0

  // ----- runs -----

  /** The plan is the one asked for this window; counting starts with the month of its lower bound. */
  ghost predicate PlannedForWindow(run: RunDir, monthAt: Time -> Option<Month>) {
    && run.arguments.scopeFrom == Some(run.from) && run.arguments.scopeThrough == Some(run.through)
    && run.arguments.fromMonth == monthAt(run.from) && run.arguments.throughMonth == None
    && Planned(run.plan, run.arguments)
  }

  /** Nothing is on record as complete that no report of the log shows complete. */
  ghost predicate RunWitnessed(id: RunID, run: RunDir, log: seq<Exchange>) {
    |run.progress| == |run.plan.shards|
    && forall i :: 0 <= i < |run.progress| ==> AllWitnessed(run.progress[i], run.plan.shards[i], log, StateFile(id, i))
  }

  predicate ShardDone(scopes: seq<Scope>, stored: Stored) {
    forall p: nat :: p < |scopes| ==> IsComplete(RecordsOf(stored), p)
  }

  /** Every scope of every shard is on record as complete, each after a report that showed it. */
  ghost predicate RunDone(id: RunID, run: RunDir, log: seq<Exchange>) {
    RunWitnessed(id, run, log) && forall i :: 0 <= i < |run.progress| ==> ShardDone(run.plan.shards[i], run.progress[i])
  }

  ghost predicate ProgressInOrder(id: RunID, run: RunDir, log: seq<Exchange>) {
    RunWitnessed(id, run, log) && forall i :: 0 <= i < |run.progress| ==> InOrder(run.progress[i], |run.plan.shards[i]|)
  }

  lemma LongerLogWitnesses(id: RunID, run: RunDir, before: seq<Exchange>, log: seq<Exchange>)
    requires RunWitnessed(id, run, before) && before <= log
    ensures RunWitnessed(id, run, log)
  {
    forall i | 0 <= i < |run.progress|
      ensures AllWitnessed(run.progress[i], run.plan.shards[i], log, StateFile(id, i))
    {
      LogGrows(run.progress[i], run.plan.shards[i], before, log, StateFile(id, i));
    }
  }

  function AfterShard(run: RunDir, i: nat, stored: Stored): RunDir
    requires i < |run.progress|
  {
    run.(progress := run.progress[i := stored])
  }

  lemma ShardRan(id: RunID, run: RunDir, before: seq<Exchange>, log: seq<Exchange>, i: nat, stored: Stored)
    requires ProgressInOrder(id, run, before) && before <= log && i < |run.progress|
    requires InOrder(stored, |run.plan.shards[i]|) && AllWitnessed(stored, run.plan.shards[i], log, StateFile(id, i))
    ensures ProgressInOrder(id, AfterShard(run, i, stored), log)
  {
    LongerLogWitnesses(id, run, before, log);
  }

  /** Of the shards that ran, those that reported completion have all their scopes on record. */
  ghost predicate DoneAsReported(run: RunDir, results: seq<bool>) {
    |results| <= |run.plan.shards| == |run.progress|
    && forall j :: 0 <= j < |results| && results[j] ==> ShardDone(run.plan.shards[j], run.progress[j])
  }

  lemma ResultsStay(run: RunDir, i: nat, stored: Stored, results: seq<bool>)
    requires DoneAsReported(run, results) && |results| == i < |run.progress|
    ensures DoneAsReported(AfterShard(run, i, stored), results)
  {
  }

  // ----- the checkpoint -----

  datatype TickOutcome = Advanced | NothingNew | Incomplete | Refused | Killed

  /** The instant lies in the window of a finished run other than the pending one. */
  ghost predicate CoveredAt(runs: map<RunID, RunDir>, log: seq<Exchange>, pending: Option<Pending>, x: Time) {
    exists id :: id in runs && (pending.Some? ==> pending.value.run != id)
      && runs[id].from <= x <= runs[id].through && RunDone(id, runs[id], log)
  }

  function Start(state: TickState): Time {
    match state.lastTickTime
    case Some(t) => t
    case None => EPOCH
  }

  /** Every run was planned for its window, and its progress is in order. */
  ghost predicate RunsInOrder(runs: map<RunID, RunDir>, log: seq<Exchange>, monthAt: Time -> Option<Month>) {
    AllPlanned(runs, monthAt) && AllInOrder(runs, log)
  }

  ghost predicate AllPlanned(runs: map<RunID, RunDir>, monthAt: Time -> Option<Month>) {
    forall id {:trigger PlannedForWindow(runs[id], monthAt)} :: id in runs ==> PlannedForWindow(runs[id], monthAt)
  }

  ghost predicate AllInOrder(runs: map<RunID, RunDir>, log: seq<Exchange>) {
    forall id {:trigger ProgressInOrder(id, runs[id], log)} :: id in runs ==> ProgressInOrder(id, runs[id], log)
  }

  /** Nothing up to the checkpoint was skipped. */
  ghost predicate Reached(state: TickState, runs: map<RunID, RunDir>, log: seq<Exchange>) {
    state.lastTickTime.Some? ==> forall x: Time :: 0 <= x <= state.lastTickTime.value ==>
      CoveredAt(runs, log, state.pendingRun, x)
  }

  /** The pending run is there, with its own window, which starts at the checkpoint. */
  ghost predicate PendingIsThere(state: TickState, runs: map<RunID, RunDir>) {
    state.pendingRun.Some? ==>
      var p := state.pendingRun.value;
      p.run in runs && runs[p.run].from == p.from == Start(state) && runs[p.run].through == p.through
  }

  ghost predicate Safe(state: TickState, runs: map<RunID, RunDir>, log: seq<Exchange>, monthAt: Time -> Option<Month>) {
    Reached(state, runs, log) && RunsInOrder(runs, log, monthAt) && PendingIsThere(state, runs)
  }

  /** The same runs with the same windows and plans; only `touched` may have new progress. */
  ghost predicate PlansKept(before: map<RunID, RunDir>, after: map<RunID, RunDir>, touched: RunID) {
    before.Keys <= after.Keys
    && forall id :: id in before ==>
         after[id].(progress := before[id].progress) == before[id] && (id != touched ==> after[id] == before[id])
  }

  lemma PlansStayKept(before: map<RunID, RunDir>, runs: map<RunID, RunDir>, id: RunID, run: RunDir)
    requires PlansKept(before, runs, id) && id in runs && run.(progress := runs[id].progress) == runs[id]
    ensures PlansKept(before, runs[id := run], id)
  {
  }

  lemma NewRunKeepsPlans(runs: map<RunID, RunDir>, id: RunID, run: RunDir)
    requires id !in runs
    ensures PlansKept(runs, runs[id := run], id)
  {
  }

  /** No request to the outside failed. */
  ghost predicate NothingRaised(log: seq<Exchange>) {
    forall e :: e in log ==> (e.Asked? ==> !e.answer.StatusRaised?) && (e.Invoked? ==> !e.agent.AgentRaised?)
  }

  ghost predicate NoneCorrupt(run: RunDir, from: nat) {
    forall i :: from <= i < |run.progress| ==> run.progress[i] != Corrupt
  }

  /** Unless something failed, what is reported incomplete is incomplete. */
  ghost predicate IncompleteAsReported(run: RunDir, results: seq<bool>) {
    |results| <= |run.plan.shards| == |run.progress|
    && forall j :: 0 <= j < |results| && !results[j] ==> !ShardDone(run.plan.shards[j], run.progress[j])
  }

  ghost predicate ReportsTruly(first: RunDir, run: RunDir, results: seq<bool>, growth: seq<Exchange>) {
    NothingRaised(growth) && NoneCorrupt(first, 0) ==> NoneCorrupt(run, |results|) && IncompleteAsReported(run, results)
  }

  lemma TrueStep(first: RunDir, run: RunDir, i: nat, stored: Stored, results: seq<bool>, done: bool,
                 log: seq<Exchange>, start: nat, before: nat)
    requires start <= before <= |log| && ReportsTruly(first, run, results, log[start..before])
    requires |results| == i < |run.progress| == |run.plan.shards|
    requires !done ==>
      !ShardDone(run.plan.shards[i], stored) || run.progress[i] == Corrupt || EndsRaised(log[before..])
    ensures ReportsTruly(first, AfterShard(run, i, stored), results + [done], log[start..])
  {
    if NothingRaised(log[start..]) && NoneCorrupt(first, 0) {
      PartRaisesNothing(log, start, before);
    }
  }

  /** What a pass over the shards keeps. */
  ghost predicate Passing(before: map<RunID, RunDir>, runs: map<RunID, RunDir>, id: RunID, log: seq<Exchange>,
                          start: nat,
                          results: seq<bool>, limits: Limits) {
    && id in before && runs.Keys == before.Keys && PlansKept(before, runs, id) && start <= |log|
    && ProgressInOrder(id, runs[id], log) && DoneAsReported(runs[id], results)
    && ReportsTruly(before[id], runs[id], results, log[start..])
    && InvokedCount(log[start..]) <= |results| * BatchLimit(limits)
  }

  lemma PassingStep(before: map<RunID, RunDir>, runs: map<RunID, RunDir>, id: RunID, log: seq<Exchange>,
                    log': seq<Exchange>, start: nat, results: seq<bool>, limits: Limits, stored: Stored, done: bool)
    requires Passing(before, runs, id, log, start, results, limits) && log <= log'
    requires |results| < |runs[id].progress|
    requires ProgressInOrder(id, AfterShard(runs[id], |results|, stored), log')
    requires InvokedCount(log'[|log|..]) <= BatchLimit(limits)
    requires done ==> ShardDone(runs[id].plan.shards[|results|], stored)
    requires !done ==>
      !ShardDone(runs[id].plan.shards[|results|], stored) || runs[id].progress[|results|] == Corrupt
      || EndsRaised(log'[|log|..])
    ensures Passing(before, runs[id := AfterShard(runs[id], |results|, stored)], id, log', start, results + [done],
                    limits)
  {
    var i, run := |results|, runs[id];
    OneMoreShard(log, log', start, i, |run.plan.shards|, BatchLimit(limits));
    PlansStayKept(before, runs, id, AfterShard(run, i, stored));
    ResultsStay(run, i, stored, results);
    assert log'[start..|log|] == log[start..];
    TrueStep(before[id], run, i, stored, results, done, log', start, |log|);
  }

  lemma KilledLater(log: seq<Exchange>, start: nat, before: nat)
    requires start <= before <= |log|
    ensures EndsKilled(log[before..]) ==> EndsKilled(log[start..])
  {
    if before < |log| {
      GrowthEnds(log, before);
      GrowthEnds(log, start);
    }
  }

  lemma PartRaisesNothing(log: seq<Exchange>, start: nat, before: nat)
    requires start <= before <= |log| && NothingRaised(log[start..])
    ensures NothingRaised(log[start..before]) && !EndsRaised(log[before..])
  {
    assert forall e :: e in log[start..before] ==> e in log[start..];
    if before < |log| {
      GrowthEnds(log, before);
      assert log[start..][|log| - 1 - start] == log[|log| - 1] && log[|log| - 1] in log[start..];
    }
  }

  /** The checkpoint is at the end of this run, which is finished, and no run is pending. */
  ghost predicate Moved(state: TickState, runs: map<RunID, RunDir>, log: seq<Exchange>, id: RunID) {
    id in runs && state == TickState(Some(runs[id].through), None) && RunDone(id, runs[id], log)
  }

  /** Unless a request failed or a progress file was unreadable, some scope of the run is not complete. */
  ghost predicate StillToDo(before: RunDir, run: RunDir, id: RunID, log: seq<Exchange>, start: nat) {
    start <= |log|
    && (run.plan.shards != [] && NothingRaised(log[start..]) && NoneCorrupt(before, 0) ==> !RunDone(id, run, log))
  }

  lemma IncompleteIsToDo(before: RunDir, run: RunDir, id: RunID, results: seq<bool>, log: seq<Exchange>, start: nat)
    requires start <= |log| && ReportsTruly(before, run, results, log[start..]) && |results| == |run.plan.shards|
    requires results == [] || exists i :: 0 <= i < |results| && !results[i]
    ensures StillToDo(before, run, id, log, start)
  {
    if results != [] && NothingRaised(log[start..]) && NoneCorrupt(before, 0) {
      var i :| 0 <= i < |results| && !results[i];
      assert !ShardDone(run.plan.shards[i], run.progress[i]);
    }
  }

  /** What working on a pending run comes to. */
  ghost predicate Drove(outcome: TickOutcome, before: TickState, after: TickState, runs: map<RunID, RunDir>,
                        runs': map<RunID, RunDir>, log: seq<Exchange>, start: nat) {
    match outcome
    case Advanced => Resumed(before, after, runs, runs', log) && Moved(after, runs', log, before.pendingRun.value.run)
    case Incomplete =>
      Resumed(before, after, runs, runs', log) && after == before
      && var id := before.pendingRun.value.run;
         id in runs && id in runs' && StillToDo(runs[id], runs'[id], id, log, start)
    case Killed => Resumed(before, after, runs, runs', log)
    case _ => false
  }

  /** The same, where a run that is new began without any progress file. */
  ghost predicate LeftOver(runs: map<RunID, RunDir>, runs': map<RunID, RunDir>, id: RunID, log: seq<Exchange>,
                           start: nat) {
    id in runs' && start <= |log|
    && (runs'[id].plan.shards != [] && NothingRaised(log[start..]) && (id in runs ==> NoneCorrupt(runs[id], 0)) ==>
          !RunDone(id, runs'[id], log))
  }

  /** The run that is pending, or else the one that is asked for. */
  ghost function WorkedOn(before: TickState, request: Request): RunID {
    match before.pendingRun
    case Some(p) => p.run
    case None => request.run
  }

  /** What a tick is asked for. */
  datatype Request = Request(
    binding: Binding, run: RunID, now: Time, through: Option<Time>, limits: Limits,
    config: Config, rows: seq<Row>, calendar: Calendar)

  function PendingOf(request: Request, from: Time): Pending {
    Pending(request.binding, request.run, from, request.through.GetOr(request.now))
  }

  /** The months before the window are left out of the counts; the scopes are clamped to the window. */
  function ArgumentsOf(request: Request, from: Time, monthAt: Time -> Option<Month>): PlanArguments {
    PlanArguments(request.config, request.rows, monthAt(from), None, request.calendar,
                  Some(from), Some(request.through.GetOr(request.now)))
  }

  function NewRun(pending: Pending, arguments: PlanArguments, plan: Plan): RunDir {
    RunDir(pending.from, pending.through, arguments, plan, seq(|plan.shards|, _ => Missing))
  }

  /** A pending run stays as it is, or the checkpoint moves to its end when it is done. */
  ghost predicate Resumed(before: TickState, after: TickState, runs: map<RunID, RunDir>, runs': map<RunID, RunDir>,
                          log: seq<Exchange>) {
    before.pendingRun.Some? &&
    var p := before.pendingRun.value;
    && PlansKept(runs, runs', p.run) && runs'.Keys == runs.Keys
    && (after == before
        || (p.run in runs' && after == TickState(Some(p.through), None) && RunDone(p.run, runs'[p.run], log)))
  }

  /** The instant is the checkpoint, or that of the epoch when there is none. */
  ghost predicate StartsAt(state: TickState, from: Time) {
    match state.lastTickTime
    case Some(t) => from == t
    case None => from == 0
  }

  /** The instant is the end that was asked for, or else the present. */
  ghost predicate EndsAt(request: Request, through: Time) {
    match request.through
    case Some(t) => through == t
    case None => through == request.now
  }

  /** The run was planned from what the request brings: its rows, its options and its calendar. */
  ghost predicate AskedFor(run: RunDir, request: Request) {
    && run.arguments.rows == request.rows && run.arguments.config == request.config
    && run.arguments.calendar == request.calendar && EndsAt(request, run.through)
  }

  ghost predicate NewlyAdded(run: RunDir, request: Request, before: TickState) {
    AskedFor(run, request) && StartsAt(before, run.from)
  }

  ghost predicate NowPending(after: TickState, before: TickState, request: Request) {
    && after.lastTickTime == before.lastTickTime && after.pendingRun.Some?
    && after.pendingRun.value.binding == request.binding && after.pendingRun.value.run == request.run
    && StartsAt(before, after.pendingRun.value.from) && EndsAt(request, after.pendingRun.value.through)
  }

  /** Of the rows of the request nothing survives its filters, counted from the month of the checkpoint on. */
  ghost predicate NothingSince(before: TickState, request: Request, monthAt: Time -> Option<Month>) {
    forall from, through :: StartsAt(before, from) && EndsAt(request, through) ==>
      NothingSurvives(PlanArguments(request.config, request.rows, monthAt(from), None, request.calendar,
                                    Some(from), Some(through)))
  }

  /**
    A new run, planned from the request and starting at the checkpoint, is pending or finished, or all
    is as before.
   */
  ghost predicate Started(before: TickState, after: TickState, runs: map<RunID, RunDir>, runs': map<RunID, RunDir>,
                          log: seq<Exchange>, request: Request) {
    && PlansKept(runs, runs', request.run) && runs'.Keys <= runs.Keys + {request.run}
    && (request.run in runs' ==> NewlyAdded(runs'[request.run], request, before))
    && (after == before || (request.run in runs' && NowPending(after, before, request))
        || (request.run in runs' && after == TickState(Some(runs'[request.run].through), None)
            && RunDone(request.run, runs'[request.run], log)))
  }

  lemma RequestMeans(request: Request, before: TickState, monthAt: Time -> Option<Month>, plan: Plan)
    ensures NewlyAdded(NewRun(PendingOf(request, Start(before)), ArgumentsOf(request, Start(before), monthAt), plan),
                       request, before)
    ensures NowPending(before.(pendingRun := Some(PendingOf(request, Start(before)))), before, request)
  {
  }

  lemma NothingMeans(request: Request, before: TickState, monthAt: Time -> Option<Month>)
    ensures NothingSurvives(ArgumentsOf(request, Start(before), monthAt)) ==> NothingSince(before, request, monthAt)
  {
  }

  /** One batch limit per shard. */
  function AgentsAllowed(run: RunDir, limits: Limits): nat {
    |run.plan.shards| * (if limits.maxBatches < 0 then 0 else limits.maxBatches)
  }

  lemma OneMoreShard(before: seq<Exchange>, log: seq<Exchange>, start: nat, i: nat, n: nat, limit: nat)
    requires before <= log && start <= |before| && i < n
    requires InvokedCount(before[start..]) <= i * limit && InvokedCount(log[|before|..]) <= limit
    ensures InvokedCount(log[start..]) <= (i + 1) * limit <= n * limit
  {
    assert log[start..] == before[start..] + log[|before|..];
    InvokedJoin(before[start..], log[|before|..]);
    MulMonotone(limit, i + 1, n);
  }

  // ----- why the checkpoint stays safe -----

  /** Coverage only depends on finished runs, so new or unfinished ones cannot take it away. */
  lemma CoverageStays(before: map<RunID, RunDir>, after: map<RunID, RunDir>, log: seq<Exchange>, log': seq<Exchange>,
                      pending: Option<Pending>, pending': Option<Pending>, touched: RunID, x: Time)
    requires CoveredAt(before, log, pending, x) && log <= log'
    requires forall id :: id in before && id != touched ==> id in after && after[id] == before[id]
    requires touched !in before || (pending.Some? && pending.value.run == touched)
    requires pending'.Some? ==> pending'.value.run == touched
    ensures CoveredAt(after, log', pending', x)
  {
    var id :| id in before && (pending.Some? ==> pending.value.run != id)
              && before[id].from <= x <= before[id].through && RunDone(id, before[id], log);
    assert id != touched && after[id] == before[id];
    LongerLogWitnesses(id, before[id], log, log');
  }

  lemma ReachStays(state: TickState, before: map<RunID, RunDir>, after: map<RunID, RunDir>, log: seq<Exchange>,
                   log': seq<Exchange>,
                   pending': Option<Pending>, touched: RunID)
    requires Reached(state, before, log) && log <= log'
    requires forall id :: id in before && id != touched ==> id in after && after[id] == before[id]
    requires touched !in before || (state.pendingRun.Some? && state.pendingRun.value.run == touched)
    requires pending'.Some? ==> pending'.value.run == touched
    ensures Reached(state.(pendingRun := pending'), after, log')
  {
    if state.lastTickTime.Some? {
      forall x: Time | 0 <= x <= state.lastTickTime.value
        ensures CoveredAt(after, log', pending', x)
      {
        CoverageStays(before, after, log, log', state.pendingRun, pending', touched, x);
      }
    }
  }

  lemma NewRunInOrder(pending: Pending, arguments: PlanArguments, plan: Plan, log: seq<Exchange>)
    ensures ProgressInOrder(pending.run, NewRun(pending, arguments, plan), log)
  {
    var run := NewRun(pending, arguments, plan);
    forall i | 0 <= i < |run.progress|
      ensures InOrder(run.progress[i], |run.plan.shards[i]|)
    {
      assert FirstComplete(RecordsOf(run.progress[i]), |run.plan.shards[i]|, 0);
    }
  }

  lemma OneMoreRun(runs: map<RunID, RunDir>, log: seq<Exchange>, monthAt: Time -> Option<Month>, id: RunID, run: RunDir)
    requires RunsInOrder(runs, log, monthAt) && PlannedForWindow(run, monthAt) && ProgressInOrder(id, run, log)
    ensures RunsInOrder(runs[id := run], log, monthAt)
  {
    OneMorePlanned(runs, monthAt, id, run);
    OneMoreInOrder(runs, log, id, run);
  }

  lemma OneMorePlanned(runs: map<RunID, RunDir>, monthAt: Time -> Option<Month>, id: RunID, run: RunDir)
    requires AllPlanned(runs, monthAt) && PlannedForWindow(run, monthAt)
    ensures AllPlanned(runs[id := run], monthAt)
  {
  }

  lemma OneMoreInOrder(runs: map<RunID, RunDir>, log: seq<Exchange>, id: RunID, run: RunDir)
    requires AllInOrder(runs, log) && ProgressInOrder(id, run, log)
    ensures AllInOrder(runs[id := run], log)
  {
  }

  lemma StartingIsReached(state: TickState, runs: map<RunID, RunDir>, log: seq<Exchange>, pending: Pending, run: RunDir)
    requires Reached(state, runs, log) && state.pendingRun.None? && pending.run !in runs
    requires pending.from == run.from == Start(state) && run.through == pending.through
    ensures Reached(state, runs[pending.run := run], log)
    ensures Reached(state.(pendingRun := Some(pending)), runs[pending.run := run], log)
    ensures PendingIsThere(state.(pendingRun := Some(pending)), runs[pending.run := run])
  {
    ReachStays(state, runs, runs[pending.run := run], log, log, None, pending.run);
    ReachStays(state, runs, runs[pending.run := run], log, log, Some(pending), pending.run);
  }

  lemma DrivingIsSafe(state: TickState, before: map<RunID, RunDir>, after: map<RunID, RunDir>, log: seq<Exchange>,
                      log': seq<Exchange>,
                      monthAt: Time -> Option<Month>, pending: Pending)
    requires Safe(state, before, log, monthAt) && state.pendingRun == Some(pending) && log <= log'
    requires PlansKept(before, after, pending.run) && before.Keys == after.Keys
    requires ProgressInOrder(pending.run, after[pending.run], log')
    ensures Safe(state, after, log', monthAt)
  {
    ReachStays(state, before, after, log, log', state.pendingRun, pending.run);
    forall id | id in after
      ensures PlannedForWindow(after[id], monthAt) && ProgressInOrder(id, after[id], log')
    {
      assert PlannedForWindow(before[id], monthAt) && ProgressInOrder(id, before[id], log);
      assert after[id].(progress := before[id].progress) == before[id];
      if id != pending.run {
        LongerLogWitnesses(id, before[id], log, log');
      }
    }
    assert after[pending.run].(progress := before[pending.run].progress) == before[pending.run];
  }

  lemma CheckpointIsReached(state: TickState, runs: map<RunID, RunDir>, log: seq<Exchange>, pending: Pending)
    requires Reached(state, runs, log) && PendingIsThere(state, runs) && state.pendingRun == Some(pending)
    requires RunDone(pending.run, runs[pending.run], log)
    ensures Reached(TickState(Some(pending.through), None), runs, log)
  {
    forall x: Time | 0 <= x <= pending.through
      ensures CoveredAt(runs, log, None, x)
    {
      if state.lastTickTime.Some? && x <= state.lastTickTime.value {
        CoverageStays(runs, runs, log, log, state.pendingRun, None, pending.run, x);
      }
    }
  }

  // ----- what a checkpoint means -----

  /**
    The scope is on record as complete after a report that showed it, about itself if the shard's scopes
    can be told apart.
   */
  ghost predicate WasRead(id: RunID, run: RunDir, log: seq<Exchange>, s: nat, p: nat)
    requires s < |run.plan.shards| && p < |run.plan.shards[s]|
  {
    var shard, file := run.plan.shards[s], StateFile(id, s);
    && s < |run.progress| && IsComplete(RecordsOf(run.progress[s]), p) && Witnessed(log, file, shard[p])
    && (RecognisesOwnScopes(shard) && BoundWithin(log, file, shard) ==> WasBound(log, file, shard[p]))
  }

  lemma DoneIsRead(id: RunID, run: RunDir, log: seq<Exchange>, s: nat, p: nat)
    requires RunDone(id, run, log) && s < |run.plan.shards| && p < |run.plan.shards[s]|
    ensures WasRead(id, run, log, s, p)
  {
    assert ShardDone(run.plan.shards[s], run.progress[s]);
    assert AllWitnessed(run.progress[s], run.plan.shards[s], log, StateFile(id, s));
    if RecognisesOwnScopes(run.plan.shards[s]) && BoundWithin(log, StateFile(id, s), run.plan.shards[s]) {
      WitnessIsGenuine(log, StateFile(id, s), run.plan.shards[s], p);
    }
  }

  /** One scope of the run reads this instant of the conversation, no other does, and that scope was read. */
  ghost predicate ReadAt(id: RunID, run: RunDir, log: seq<Exchange>, alias: string, x: Time) {
    exists s: nat, p: nat :: OnlyReader(run.plan, alias, x, s, p) && WasRead(id, run, log, s, p)
  }

  /**
    The plan of the run was made from its rows, and each conversation it keeps in a month was read at
    this instant of it.
   */
  ghost predicate KeptIsRead(id: RunID, run: RunDir, log: seq<Exchange>, x: Time) {
    exists loaded, kept, shards ::
      MadeFrom(run.plan, run.arguments, loaded, kept, shards) && KeptReadAt(id, run, log, kept, x)
  }

  ghost predicate KeptReadAt(id: RunID, run: RunDir, log: seq<Exchange>, kept: seq<Conversation>, x: Time) {
    forall c, month ::
      c in kept && HasMonth(KeptMonths(run.arguments.config, c), month) && During(run.arguments.calendar, month, x) ==>
      ReadAt(id, run, log, c.alias, x)
  }

  lemma DoneReadsKept(id: RunID, run: RunDir, log: seq<Exchange>, monthAt: Time -> Option<Month>, x: Time)
    requires RunDone(id, run, log) && PlannedForWindow(run, monthAt) && Consecutive(run.arguments.calendar)
    requires run.from <= x <= run.through
    ensures KeptIsRead(id, run, log, x)
  {
    var loaded, kept, shards :| MadeFrom(run.plan, run.arguments, loaded, kept, shards);
    forall c, month | c in kept && HasMonth(KeptMonths(run.arguments.config, c), month)
      && During(run.arguments.calendar, month, x)
      ensures ReadAt(id, run, log, c.alias, x)
    {
      var s, p := InstantReadOnce(run.plan, run.arguments, loaded, kept, shards, c, month, x);
      DoneIsRead(id, run, log, s, p);
    }
    assert KeptReadAt(id, run, log, kept, x);
  }

  /**
    Each instant up to the checkpoint lies in the window of a run that was
    planned for it, and whatever that plan keeps was read there by exactly one scope.
   */
  lemma CheckpointMeans(state: TickState, runs: map<RunID, RunDir>, log: seq<Exchange>, monthAt: Time -> Option<Month>,
                        x: Time)
    returns (id: RunID)
    requires Safe(state, runs, log, monthAt) && state.lastTickTime.Some? && 0 <= x <= state.lastTickTime.value
    requires forall id :: id in runs ==> Consecutive(runs[id].arguments.calendar)
    ensures id in runs && runs[id].from <= x <= runs[id].through && PlannedForWindow(runs[id], monthAt)
    ensures KeptIsRead(id, runs[id], log, x)
  {
    assert CoveredAt(runs, log, state.pendingRun, x);
    id :| id in runs && runs[id].from <= x <= runs[id].through && RunDone(id, runs[id], log);
    DoneReadsKept(id, runs[id], log, monthAt, x);
  }

  /** The shards of a run tell their scopes apart exactly when no two tasks of a shard collide. */
  lemma RunRecognition(run: RunDir, loaded: seq<Conversation>, kept: seq<Conversation>, shards: seq<seq<Task>>, i: nat)
    requires Increasing(run.arguments.calendar.first) && Increasing(run.arguments.calendar.last)
    requires MadeFrom(run.plan, run.arguments, loaded, kept, shards) && i < |shards|
    ensures RecognisesOwnScopes(run.plan.shards[i])
       <==> NoneCollide(shards[i], run.arguments.calendar, run.arguments.scopeFrom, run.arguments.scopeThrough)
  {
    assert FittingShard(run.arguments.config, kept, shards[i]) && WellOrdered(shards[i]);
    RecognitionIsExact(run.plan.shards[i], shards[i], run.arguments.calendar, run.arguments.scopeFrom,
                       run.arguments.scopeThrough);
  }

  // ----- any number of ticks -----

  /** Every run was planned from what one of the requests brought. */
  ghost predicate AllAskedFor(runs: map<RunID, RunDir>, requests: seq<Request>) {
    forall id :: id in runs ==> exists q :: q in requests && q.run == id && AskedFor(runs[id], q)
  }

  lemma StillAskedFor(runs: map<RunID, RunDir>, runs': map<RunID, RunDir>, requests: seq<Request>, q: Request,
                      touched: RunID)
    requires AllAskedFor(runs, requests) && PlansKept(runs, runs', touched) && q in requests
    requires runs'.Keys <= runs.Keys + {q.run} && (q.run in runs' && q.run !in runs ==> AskedFor(runs'[q.run], q))
    ensures AllAskedFor(runs', requests)
  {
    forall id | id in runs'
      ensures exists r :: r in requests && r.run == id && AskedFor(runs'[id], r)
    {
      if id in runs {
        var r :| r in requests && r.run == id && AskedFor(runs[id], r);
        assert runs'[id].(progress := runs[id].progress) == runs[id];
        assert AskedFor(runs'[id], r);
      } else {
        assert id in runs.Keys + {q.run};
        assert AskedFor(runs'[id], q);
      }
    }
  }
}
