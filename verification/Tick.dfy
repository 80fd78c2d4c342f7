/**
  The incremental tick and its crash-resumable checkpoint
  (scripts/personal-memory-parallel.py, `_command_tick_locked`,
  `tick_results_complete` and `write_tick_state`). The caller holds the project lock.
 */
module Tick {
  import opened Wrappers
  import opened Tasks
  import opened WorkPlan
  import opened CommandPlan
  import opened Scopes
  import opened DriverLog
  import opened ShardDriver
  import opened Checkpoint

  class Project {
    const monthAt: Time -> Option<Month>
    var state: TickState
    var runs: map<RunID, RunDir>

    /** The month a checkpoint is in, as written in UTC. */
    constructor (monthAt: Time -> Option<Month>)
      ensures this.monthAt == monthAt && state == TickState(None, None) && runs == map[]
    {
      this.monthAt := monthAt;
      state := TickState(None, None);
      runs := map[];
    }

    /** The checkpoint is safe by what the outside has answered so far. */
    ghost predicate SafeBy(outside: Outside)
      reads this, outside`log
    {
      outside.Faithful() && Safe(state, runs, outside.log, monthAt)
    }

    /** Writes a temporary file and renames it: a kill leaves the old state or the new one. */
    method WriteTickState(outside: Outside, next: TickState) returns (alive: bool)
      modifies this`state, outside`writes
      ensures state == next || (!alive && state == old(state))
      ensures !alive ==> outside.KilledInWrite()
    {
      var written := outside.Write();
      if !written {
        return false;
      }
      state := next;
      alive := outside.Write();
    }

    /** Drives one shard; None when the process is killed meanwhile. */
    method RunOne(outside: Outside, id: RunID, i: nat, limits: Limits) returns (complete: Option<bool>)
      requires outside.Faithful() && id in runs && ProgressInOrder(id, runs[id], outside.log) && i < |runs[id].progress|
      modifies this`runs, outside`log, outside`writes
      ensures outside.Continued() && InvokedCount(outside.log[|old(outside.log)|..]) <= BatchLimit(limits)
      ensures id in runs && i < |runs[id].progress| && ProgressInOrder(id, runs[id], outside.log)
      ensures runs == old(runs)[id := AfterShard(old(runs)[id], i, runs[id].progress[i])]
      ensures complete == Some(true) ==> ShardDone(runs[id].plan.shards[i], runs[id].progress[i])
      ensures complete == Some(false) ==>
        !ShardDone(runs[id].plan.shards[i], runs[id].progress[i]) || old(runs)[id].progress[i] == Corrupt
        || EndsRaised(outside.log[|old(outside.log)|..])
      ensures complete == None ==> outside.KilledSince(|old(outside.log)|)
    {
      var run := runs[id];
      var stored, outcome := RunShard(outside, StateFile(id, i), run.plan.shards[i], run.progress[i], limits);
      InvocationsAreAll(outside.log[|old(outside.log)|..]);
      ShardRan(id, run, old(outside.log), outside.log, i, stored);
      runs := runs[id := AfterShard(run, i, stored)];
      return if outcome.Killed? then None else Some(outcome.Finished? && outcome.result.complete);
    }

    /** One pass over the shards, one at a time; a shard that raises does not stop the others. */
    method RunShards(outside: Outside, id: RunID, limits: Limits) returns (results: seq<bool>, alive: bool)
      requires outside.Faithful() && id in runs && ProgressInOrder(id, runs[id], outside.log)
      modifies this`runs, outside`log, outside`writes
      ensures PlansKept(old(runs), runs, id) && runs.Keys == old(runs).Keys
        && ProgressInOrder(id, runs[id], outside.log)
      ensures outside.Continued() && InvokedCount(outside.log[|old(outside.log)|..]) <= AgentsAllowed(runs[id], limits)
      ensures alive ==> |results| == |runs[id].plan.shards|
      ensures !alive ==> outside.KilledSince(|old(outside.log)|)
      ensures alive && (forall i :: 0 <= i < |results| ==> results[i]) ==> RunDone(id, runs[id], outside.log)
      ensures alive ==> ReportsTruly(old(runs)[id], runs[id], results, outside.log[|old(outside.log)|..])
    {
      ghost var start := |outside.log|;
      results := [];
      assert outside.log[start..] == [];
      for i := 0 to |runs[id].plan.shards|
        invariant outside.Continued() && |results| == i <= |old(runs)[id].plan.shards|
        invariant Passing(old(runs), runs, id, outside.log, start, results, limits)
      {
        ghost var before, was := outside.log, runs;
        var complete := RunOne(outside, id, i, limits);
        ghost var done := complete.GetOr(false);
        if complete.None? {
          KilledLater(outside.log, start, |before|);
          OneMoreShard(before, outside.log, start, i, |was[id].plan.shards|, BatchLimit(limits));
          PlansStayKept(old(runs), was, id, runs[id]);
          return results, false;
        }
        PassingStep(old(runs), was, id, before, outside.log, start, results, limits, runs[id].progress[i], done);
        results := results + [complete.value];
      }
      return results, true;
    }

    /**
      A complete set of shard results moves the checkpoint to the end of the
      window; anything less leaves the run pending.
     */
    method Finish(outside: Outside, pending: Pending, results: seq<bool>) returns (outcome: TickOutcome)
      requires Reached(state, runs, outside.log) && PendingIsThere(state, runs) && state.pendingRun == Some(pending)
      requires |results| == |runs[pending.run].plan.shards|
      requires (forall i :: 0 <= i < |results| ==> results[i]) ==> RunDone(pending.run, runs[pending.run], outside.log)
      modifies this`state, outside`writes
      ensures Reached(state, runs, outside.log) && PendingIsThere(state, runs)
      ensures state == old(state)
              || (state == TickState(Some(pending.through), None)
                  && RunDone(pending.run, runs[pending.run], outside.log))
      ensures outcome == TickOutcome.Advanced ==> state == TickState(Some(pending.through), None)
      ensures outcome == TickOutcome.Incomplete ==> results == [] || exists i :: 0 <= i < |results| && !results[i]
      ensures outcome == TickOutcome.Incomplete ==> state == old(state)
      ensures outcome == TickOutcome.Killed ==> outside.KilledInWrite()
      ensures outcome !in {TickOutcome.NothingNew, TickOutcome.Refused}
    {
      var complete := |results| > 0 && forall i :: 0 <= i < |results| ==> results[i];
      if complete {
        CheckpointIsReached(state, runs, outside.log, pending);
        var alive := WriteTickState(outside, TickState(Some(pending.through), None));
        return if alive then TickOutcome.Advanced else TickOutcome.Killed;
      }
      var alive := WriteTickState(outside, state);
      return if alive then TickOutcome.Incomplete else TickOutcome.Killed;
    }

    /** A new run directory leaves the checkpoint safe, and so does recording it as pending. */
    method AddRun(outside: Outside, pending: Pending, run: RunDir)
      requires SafeBy(outside) && state.pendingRun.None? && pending.run !in runs && pending.from == Start(state)
      requires PlannedForWindow(run, monthAt) && run == NewRun(pending, run.arguments, run.plan)
      modifies this`runs
      ensures SafeBy(outside) && runs == old(runs)[pending.run := run]
      ensures Safe(state.(pendingRun := Some(pending)), runs, outside.log, monthAt)
    {
      StartingIsReached(state, runs, outside.log, pending, run);
      NewRunInOrder(pending, run.arguments, run.plan, outside.log);
      OneMoreRun(runs, outside.log, monthAt, pending.run, run);
      runs := runs[pending.run := run];
    }

    /** Plans and writes the plan into its run directory. */
    method PlanUnlessKilled(outside: Outside, arguments: PlanArguments) returns (plan: Result<Plan, TickOutcome>)
      modifies outside`writes
      ensures plan == Err(TickOutcome.Killed) ==> outside.KilledInWrite()
      ensures plan.Ok? ==> Planned(plan.value, arguments)
      ensures plan.Err? ==> plan.error in {TickOutcome.NothingNew, TickOutcome.Killed}
      ensures plan == Err(TickOutcome.NothingNew) || (plan.Ok? && plan.value.totalMessages == 0) ==>
        NothingSurvives(arguments)
    {
      var made := MakePlan(arguments);
      if made.Err? {
        return Err(NothingNew);
      }
      PlannedHasMessages(made.value, arguments);
      var alive := outside.Write();
      return if alive then Ok(made.value) else Err(TickOutcome.Killed);
    }

    /** Plans a new run from the checkpoint on and records it as pending, unless there is nothing new. */
    method Begin(outside: Outside, request: Request) returns (r: Result<Pending, TickOutcome>)
      requires SafeBy(outside) && state.pendingRun.None? && request.run !in runs
      modifies this`state, this`runs, outside`writes
      ensures SafeBy(outside) && PlansKept(old(runs), runs, request.run)
      ensures request.run in runs ==> NewlyAdded(runs[request.run], request, old(state))
      ensures runs.Keys <= old(runs).Keys + {request.run}
      ensures state == old(state) || (request.run in runs && NowPending(state, old(state), request))
      ensures r.Ok? ==> state.pendingRun == Some(r.value) && NowPending(state, old(state), request)
      ensures r.Ok? ==> NoneCorrupt(runs[request.run], 0)
      ensures r == Err(TickOutcome.Killed) ==> outside.KilledInWrite()
      ensures r.Err? ==> r.error in {TickOutcome.NothingNew, TickOutcome.Killed}
      ensures r == Err(TickOutcome.NothingNew) ==> state == old(state) && NothingSince(old(state), request, monthAt)
    {
      var pending := PendingOf(request, Start(state));
      var arguments := ArgumentsOf(request, Start(state), monthAt);
      var plan := PlanUnlessKilled(outside, arguments);
      NothingMeans(request, state, monthAt);
      if plan.Err? {
        return Err(plan.error);
      }
      NewRunKeepsPlans(runs, request.run, NewRun(pending, arguments, plan.value));
      RequestMeans(request, state, monthAt, plan.value);
      AddRun(outside, pending, NewRun(pending, arguments, plan.value));
      if plan.value.totalMessages == 0 {
        return Err(NothingNew);
      }
      var alive := WriteTickState(outside, state.(pendingRun := Some(pending)));
      return if alive then Ok(pending) else Err(TickOutcome.Killed);
    }

    /** The pass over the shards of the pending run leaves the checkpoint as safe as it was. */
    method RunPending(outside: Outside, pending: Pending, limits: Limits) returns (results: seq<bool>, alive: bool)
      requires SafeBy(outside) && state.pendingRun == Some(pending)
      modifies this`runs, outside`log, outside`writes
      ensures SafeBy(outside) && outside.Continued()
      ensures PlansKept(old(runs), runs, pending.run) && runs.Keys == old(runs).Keys && pending.run in runs
      ensures !alive ==> outside.KilledSince(|old(outside.log)|)
      ensures alive ==> |results| == |runs[pending.run].plan.shards|
      ensures alive && (forall i :: 0 <= i < |results| ==> results[i]) ==>
        RunDone(pending.run, runs[pending.run], outside.log)
      ensures alive ==>
        ReportsTruly(old(runs)[pending.run], runs[pending.run], results, outside.log[|old(outside.log)|..])
    {
      results, alive := RunShards(outside, pending.run, limits);
      DrivingIsSafe(state, old(runs), runs, old(outside.log), outside.log, monthAt, pending);
    }

    /** Works on the pending run, and moves the checkpoint when it is done. */
    method Drive(outside: Outside, pending: Pending, limits: Limits) returns (outcome: TickOutcome)
      requires SafeBy(outside) && state.pendingRun == Some(pending)
      modifies this`state, this`runs, outside`log, outside`writes
      ensures SafeBy(outside) && outside.Continued()
      ensures Drove(outcome, old(state), state, old(runs), runs, outside.log, |old(outside.log)|)
      ensures outcome == TickOutcome.Killed ==> outside.KilledSince(|old(outside.log)|)
    {
      ghost var planned := runs;
      var results, alive := RunPending(outside, pending, limits);
      outcome := TickOutcome.Killed;
      if alive {
        outcome := Finish(outside, pending, results);
        if outcome == TickOutcome.Incomplete {
          IncompleteIsToDo(planned[pending.run], runs[pending.run], pending.run, results, outside.log,
                           |old(outside.log)|);
        }
      }
    }

    /**
      One tick. A pending run is resumed with its own window and plan, or the
      tick is refused; otherwise a new run starts where the last one ended.
      Killed at any point, it leaves a safe checkpoint.
     */
    method Tick(outside: Outside, request: Request) returns (outcome: TickOutcome)
      requires SafeBy(outside) && request.run !in runs
      modifies this`state, this`runs, outside`log, outside`writes
      ensures SafeBy(outside) && outside.Continued()
      ensures old(state).pendingRun.Some? ==> Resumed(old(state), state, old(runs), runs, outside.log)
      ensures old(state).pendingRun.Some? && old(state).pendingRun.value.binding != request.binding ==>
        outcome == TickOutcome.Refused && state == old(state) && runs == old(runs) && outside.log == old(outside.log)
      ensures old(state).pendingRun.None? ==> Started(old(state), state, old(runs), runs, outside.log, request)
      ensures outcome == TickOutcome.Advanced ==>
        Moved(state, runs, outside.log, WorkedOn(old(state), request))
      ensures outcome == TickOutcome.NothingNew ==>
        old(state).pendingRun.None? && state == old(state) && NothingSince(old(state), request, monthAt)
      ensures outcome == TickOutcome.Refused ==>
        old(state).pendingRun.Some? && old(state).pendingRun.value.binding != request.binding
      ensures outcome == TickOutcome.Incomplete ==>
        state.pendingRun.Some? && state.pendingRun.value.run == WorkedOn(old(state), request)
        && LeftOver(old(runs), runs, WorkedOn(old(state), request), outside.log, |old(outside.log)|)
      ensures outcome == TickOutcome.Killed ==> outside.KilledSince(|old(outside.log)|)
    {
      var pending: Pending;
      if state.pendingRun.Some? {
        pending := state.pendingRun.value;
        if pending.binding != request.binding {
          return Refused;
        }
      } else {
        var begun := Begin(outside, request);
        if begun.Err? {
          return begun.error;
        }
        pending := begun.value;
      }
      outcome := Drive(outside, pending, request.limits);
    }
  }

  /** However many ticks run, and wherever each of them is killed, the checkpoint stays safe. */
  method Ticks(outside: Outside, requests: seq<Request>, monthAt: Time -> Option<Month>) returns (project: Project)
    requires outside.Faithful()
    modifies outside`log, outside`writes
    ensures outside.Continued() && project.monthAt == monthAt && project.SafeBy(outside)
    ensures AllAskedFor(project.runs, requests)
  {
    project := new Project(monthAt);
    for i := 0 to |requests|
      invariant fresh(project) && outside.Continued() && project.monthAt == monthAt && project.SafeBy(outside)
      invariant AllAskedFor(project.runs, requests)
    {
      if requests[i].run !in project.runs {
        ghost var state, runs := project.state, project.runs;
        var outcome := project.Tick(outside, requests[i]);
        assert requests[i] in requests;
        StillAskedFor(runs, project.runs, requests, requests[i],
                      if state.pendingRun.Some? then state.pendingRun.value.run else requests[i].run);
      }
    }
  }
}
