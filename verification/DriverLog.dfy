/**
  What a shard driver says to the outside and is told by it
  (scripts/personal-memory-parallel.py, `memory_status`, `scope_is_bound` and the
  agent invocation in `run_shard` and `run_tick_shard`).

  Agents and the `memory status` command are arbitrary, and so is the moment a
  process is killed: `Outside` answers every request in any way, and keeps a
  log of all requests and answers.
 */
module DriverLog {
  import opened Wrappers
  import opened Tasks
  import opened Coverage
  import opened Scopes

  // ----- status reports -----

  /** A status report; `bound` is the scope the memory state currently holds. */
  datatype Status = Status(statePresent: bool, complete: bool, bound: Option<Scope>, units: nat, messages: nat)

  predicate ScopeIsBound(status: Status, scope: Scope) {
    status.bound.Some? && IdentityOf(status.bound.value) == IdentityOf(scope)
  }

  /** The driver's test for a finished scope. */
  predicate ReportsComplete(status: Status, scope: Scope) {
    status.statePresent && status.complete && ScopeIsBound(status, scope)
  }

  /** The units committed so far, as far as the report is about this scope. */
  function UnitsOf(status: Status, scope: Scope): nat {
    if ScopeIsBound(status, scope) then status.units else 0
  }

  /** A state complete for a scope of this shard is never taken for another of its scopes. */
  ghost predicate RecognisesOwnScopes(scopes: seq<Scope>) {
    forall status: Status, p ::
      0 <= p < |scopes| && status.bound.Some? && status.bound.value in scopes && ReportsComplete(status, scopes[p])
      ==> status.bound.value == scopes[p]
  }

  /** Two scopes are taken for each other exactly when their identities agree. */
  lemma RecognitionByIdentity(scopes: seq<Scope>)
    ensures RecognisesOwnScopes(scopes)
       <==> forall i, j :: 0 <= i < |scopes| && 0 <= j < |scopes| && scopes[i] != scopes[j]
              ==> IdentityOf(scopes[i]) != IdentityOf(scopes[j])
  {
    if RecognisesOwnScopes(scopes) {
      forall i, j | 0 <= i < |scopes| && 0 <= j < |scopes| && scopes[i] != scopes[j]
        ensures IdentityOf(scopes[i]) != IdentityOf(scopes[j])
      {
        var status := Status(true, true, Some(scopes[i]), 0, 0);
        var seen := ReportsComplete(status, scopes[j]);
      }
    }
  }

  /** A planned shard tells its scopes apart exactly when no two of its tasks collide. */
  lemma RecognitionIsExact(scopes: seq<Scope>, tasks: seq<Task>, calendar: Calendar,
                           scopeFrom: Option<Time>, scopeThrough: Option<Time>)
    requires Increasing(calendar.first) && Increasing(calendar.last)
    requires AreRecords(scopes, tasks, calendar, scopeFrom, scopeThrough) && DistinctWindows(tasks)
    ensures RecognisesOwnScopes(scopes) <==> NoneCollide(tasks, calendar, scopeFrom, scopeThrough)
  {
    RecognitionByIdentity(scopes);
    forall i, j | 0 <= i < j < |tasks|
      ensures scopes[i] != scopes[j]
      ensures IdentityOf(scopes[i]) == IdentityOf(scopes[j])
         <==> Collide(tasks[i], tasks[j], calendar, scopeFrom, scopeThrough)
    {
      assert !SameWindow(tasks[i], tasks[j]);
      IdentitiesCollide(tasks[i], tasks[j], calendar, scopeFrom, scopeThrough);
    }
  }

  /** A shard planned without bounds always tells its scopes apart. */
  lemma UnboundedRecognition(scopes: seq<Scope>, tasks: seq<Task>, calendar: Calendar)
    requires Increasing(calendar.first) && Increasing(calendar.last)
    requires AreRecords(scopes, tasks, calendar, None, None) && DistinctWindows(tasks)
    ensures RecognisesOwnScopes(scopes)
  {
    UnboundedNoneCollide(tasks, calendar);
    RecognitionIsExact(scopes, tasks, calendar, None, None);
  }

  /** Where two tasks collide, whatever shows the one scope complete shows the other complete. */
  lemma CollidingIsMistaken(scopes: seq<Scope>, tasks: seq<Task>, calendar: Calendar,
                            scopeFrom: Option<Time>, scopeThrough: Option<Time>, i: nat, j: nat, status: Status)
    requires Increasing(calendar.first) && Increasing(calendar.last)
    requires AreRecords(scopes, tasks, calendar, scopeFrom, scopeThrough) && i < |tasks| && j < |tasks|
    requires Collide(tasks[i], tasks[j], calendar, scopeFrom, scopeThrough)
    ensures ReportsComplete(status, scopes[i]) <==> ReportsComplete(status, scopes[j])
  {
    IdentitiesCollide(tasks[i], tasks[j], calendar, scopeFrom, scopeThrough);
  }

  // ----- the log -----

  /** Where a shard keeps its memory: the run directory and the number of the shard. */
  datatype StateFile = StateFile(run: nat, shard: nat)

  datatype Agent = Exited(apiError: bool) | AgentRaised | AgentKilled

  datatype Answer = Answered(status: Status) | StatusRaised | StatusKilled

  /** One request to the outside, with what came back. */
  datatype Exchange =
    | Asked(file: StateFile, answer: Answer)
    | Invoked(file: StateFile, position: nat, scope: Scope, agent: Agent)

  /**
    Everything the driver cannot control. What the outside will answer to its
    `k`-th request, if it is a status request or an agent, is settled
    beforehand, so that nobody else can put words into its mouth.
   */
  class Outside {
    const answers: nat -> Answer
    const agents: nat -> Agent
    const survives: nat -> bool
    var log: seq<Exchange>
    var writes: nat

    constructor (answers: nat -> Answer, agents: nat -> Agent, survives: nat -> bool)
      ensures log == [] && writes == 0
      ensures this.answers == answers && this.agents == agents && this.survives == survives
    {
      this.answers, this.agents, this.survives, log, writes := answers, agents, survives, [], 0;
    }

    /** Every answer on the log is the outside's own. */
    ghost predicate Faithful()
      reads this`log
    {
      forall k :: 0 <= k < |log| ==>
        if log[k].Asked? then log[k].answer == answers(k) else log[k].agent == agents(k)
    }

    /** The log was only continued, and honestly. */
    twostate predicate Continued()
      reads this`log
    {
      Faithful() && old(log) <= log
    }

    method MemoryStatus(file: StateFile) returns (r: Answer)
      requires Faithful()
      modifies this`log
      ensures Continued() && log == old(log) + [Asked(file, r)]
    {
      r := answers(|log|);
      log := log + [Asked(file, r)];
    }

    /** Logged whether the agent exits, raises or is killed. */
    method RunAgent(file: StateFile, position: nat, scope: Scope) returns (r: Agent)
      requires Faithful()
      modifies this`log
      ensures Continued() && log == old(log) + [Invoked(file, position, scope, r)]
    {
      r := agents(|log|);
      log := log + [Invoked(file, position, scope, r)];
    }

    /** False when the process is killed in the middle of the write. */
    method Write() returns (written: bool)
      modifies this`writes
      ensures writes == old(writes) + 1 && written == survives(old(writes))
    {
      written := survives(writes);
      writes := writes + 1;
    }

    /** The process was killed during the last write. */
    ghost predicate KilledInWrite()
      reads this
    {
      writes > 0 && !survives(writes - 1)
    }

    /** The process was killed during the last write, or during the last request since `start`. */
    ghost predicate KilledSince(start: nat)
      reads this
    {
      KilledInWrite() || (start <= |log| && EndsKilled(log[start..]))
    }
  }

  // ----- what the log says of the agents -----

  /** An agent invocation between the last report before it and the first report after it. */
  datatype Invocation = Invocation(
    position: nat, scope: Scope, agent: Agent, before: Option<Status>, after: Option<Status>)

  /** Both reports show the same number of units for the scope at work. */
  predicate Idle(i: Invocation) {
    i.before.Some? && i.after.Some? && UnitsOf(i.before.value, i.scope) == UnitsOf(i.after.value, i.scope)
  }

  /** The report is about a scope with these bounds and this many conversations. */
  ghost predicate IsAbout(status: Status, scope: Scope) {
    status.bound.Some? && status.bound.value.from == scope.from && status.bound.value.through == scope.through
    && |status.bound.value.conversations| == |scope.conversations|
  }

  /** An agent was idle if between the two reports no unit was committed for its scope. */
  lemma IdleMeans(i: Invocation)
    ensures Idle(i)
       <==> i.before.Some? && i.after.Some?
            && (if IsAbout(i.before.value, i.scope)
                then if IsAbout(i.after.value, i.scope) then i.before.value.units == i.after.value.units
                     else i.before.value.units == 0
                else IsAbout(i.after.value, i.scope) ==> i.after.value.units == 0)
  {
  }

  function LastReport(log: seq<Exchange>): Option<Status> {
    if log == [] then None
    else match log[|log| - 1]
      case Asked(_, Answered(status)) => Some(status)
      case _ => LastReport(log[..|log| - 1])
  }

  /** The report is the first one for every invocation that has none yet. */
  function Settle(invocations: seq<Invocation>, status: Status): seq<Invocation> {
    seq(|invocations|, i requires 0 <= i < |invocations| =>
      if invocations[i].after.None? then invocations[i].(after := Some(status)) else invocations[i])
  }

  function Invocations(log: seq<Exchange>): seq<Invocation> {
    if log == [] then []
    else
      var front := log[..|log| - 1];
      match log[|log| - 1]
      case Invoked(_, position, scope, agent) =>
        Invocations(front) + [Invocation(position, scope, agent, LastReport(front), None)]
      case Asked(_, Answered(status)) => Settle(Invocations(front), status)
      case Asked(_, _) => Invocations(front)
  }

  function FirstReport(log: seq<Exchange>): Option<Status> {
    if log == [] then None
    else match log[0]
      case Asked(_, Answered(status)) => Some(status)
      case _ => FirstReport(log[1..])
  }

  /** No agent was invoked. */
  predicate OnlyAsked(log: seq<Exchange>) {
    forall e :: e in log ==> e.Asked?
  }

  function InvokedCount(log: seq<Exchange>): nat {
    if log == [] then 0 else InvokedCount(log[..|log| - 1]) + if log[|log| - 1].Invoked? then 1 else 0
  }

  /** Each agent on the log is one invocation, and with none of them there was none. */
  lemma {:induction false} InvocationsAreAll(log: seq<Exchange>)
    ensures |Invocations(log)| == InvokedCount(log)
    ensures OnlyAsked(log) <==> Invocations(log) == []
  {
    if log != [] {
      InvocationsAreAll(log[..|log| - 1]);
      assert log == log[..|log| - 1] + [log[|log| - 1]];
    }
  }

  lemma {:induction false} InvokedJoin(log: seq<Exchange>, more: seq<Exchange>)
    ensures InvokedCount(log + more) == InvokedCount(log) + InvokedCount(more)
  {
    if more == [] {
      assert log + more == log;
    } else {
      InvokedJoin(log, more[..|more| - 1]);
      assert (log + more)[..|log + more| - 1] == log + more[..|more| - 1];
    }
  }

  lemma {:induction false} FirstReportSnoc(log: seq<Exchange>, e: Exchange)
    ensures FirstReport(log + [e])
         == if FirstReport(log).Some? then FirstReport(log)
            else if e.Asked? && e.answer.Answered? then Some(e.answer.status) else None
  {
    if log == [] {
      assert [] + [e] == [e];
    } else {
      FirstReportSnoc(log[1..], e);
      assert (log + [e])[1..] == log[1..] + [e];
    }
  }

  /** An invocation is seen by the last report before it and the first one after it. */
  lemma {:induction false} InvocationMeans(log: seq<Exchange>, k: nat)
    requires k < |log| && log[k].Invoked?
    ensures InvokedCount(log[..k]) < |Invocations(log)|
    ensures Invocations(log)[InvokedCount(log[..k])]
         == Invocation(log[k].position, log[k].scope, log[k].agent, LastReport(log[..k]), FirstReport(log[k + 1..]))
  {
    var front, last := log[..|log| - 1], log[|log| - 1];
    InvocationsAreAll(front);
    if k < |log| - 1 {
      InvocationMeans(front, k);
      assert front[..k] == log[..k];
      FirstReportSnoc(front[k + 1..], last);
      assert log[k + 1..] == front[k + 1..] + [last];
    } else {
      assert log[k + 1..] == [];
    }
  }

  /** Every invocation was reported on. */
  predicate AllSettled(invocations: seq<Invocation>) {
    invocations == [] || (invocations[|invocations| - 1].after.Some? && AllSettled(invocations[..|invocations| - 1]))
  }

  lemma {:induction false} SettledStay(invocations: seq<Invocation>, status: Status)
    requires AllSettled(invocations)
    ensures Settle(invocations, status) == invocations
  {
    if invocations != [] {
      var front := invocations[..|invocations| - 1];
      SettledStay(front, status);
      assert forall i :: 0 <= i < |front| ==> Settle(front, status)[i] == Settle(invocations, status)[i];
    }
  }

  lemma SettleLast(invocations: seq<Invocation>, i: Invocation, status: Status)
    requires AllSettled(invocations) && i.after.None?
    ensures Settle(invocations + [i], status) == invocations + [i.(after := Some(status))]
  {
    SettledStay(invocations, status);
    forall k | 0 <= k < |invocations|
      ensures Settle(invocations + [i], status)[k] == invocations[k]
    {
      assert Settle(invocations, status)[k] == invocations[k];
    }
  }

  /** Asking once more says nothing about invocations that were reported on. */
  lemma AskingAddsNothing(log: seq<Exchange>, file: StateFile, answer: Answer)
    requires AllSettled(Invocations(log))
    ensures Invocations(log + [Asked(file, answer)]) == Invocations(log)
    ensures LastReport(log + [Asked(file, answer)]) == if answer.Answered? then Some(answer.status) else LastReport(log)
  {
    assert (log + [Asked(file, answer)])[..|log|] == log;
    if answer.Answered? {
      SettledStay(Invocations(log), answer.status);
    }
  }

  lemma InvokingAddsOne(log: seq<Exchange>, file: StateFile, position: nat, scope: Scope, agent: Agent)
    ensures Invocations(log + [Invoked(file, position, scope, agent)])
         == Invocations(log) + [Invocation(position, scope, agent, LastReport(log), None)]
  {
    assert (log + [Invoked(file, position, scope, agent)])[..|log|] == log;
  }

  /** The report after an invocation settles it. */
  lemma ReportSettles(log: seq<Exchange>, file: StateFile, position: nat, scope: Scope, agent: Agent, answer: Answer)
    requires AllSettled(Invocations(log))
    ensures Invocations(log + [Invoked(file, position, scope, agent)] + [Asked(file, answer)])
         == Invocations(log) + [Invocation(position, scope, agent, LastReport(log),
                                           if answer.Answered? then Some(answer.status) else None)]
  {
    var invoked := log + [Invoked(file, position, scope, agent)];
    InvokingAddsOne(log, file, position, scope, agent);
    assert (invoked + [Asked(file, answer)])[..|invoked|] == invoked;
    if answer.Answered? {
      SettleLast(Invocations(log), Invocation(position, scope, agent, LastReport(log), None), answer.status);
    }
  }

  // ----- idle invocations in a row -----

  /** How many invocations at the end left the unit count of their scope unchanged. */
  function IdleTail(invocations: seq<Invocation>): nat {
    if invocations == [] || !Idle(invocations[|invocations| - 1]) then 0
    else
      var last := |invocations| - 1;
      1 + (if last > 0 && invocations[last - 1].position == invocations[last].position
           then IdleTail(invocations[..last]) else 0)
  }

  predicate NeverIdlesLonger(invocations: seq<Invocation>, limit: nat) {
    invocations == []
    || (IdleTail(invocations) <= limit && NeverIdlesLonger(invocations[..|invocations| - 1], limit))
  }

  lemma NeverIdlesStep(invocations: seq<Invocation>, i: Invocation, limit: nat)
    requires NeverIdlesLonger(invocations, limit)
    requires IdleTail(invocations + [i]) <= limit
    ensures NeverIdlesLonger(invocations + [i], limit)
  {
    assert (invocations + [i])[..|invocations|] == invocations;
  }

  /** An idle invocation extends the idle run of its position or starts one; any other ends it. */
  lemma TailGrows(invocations: seq<Invocation>, i: Invocation)
    ensures IdleTail(invocations + [i])
         == if !Idle(i) then 0
            else 1 + (if invocations != [] && invocations[|invocations| - 1].position == i.position
                      then IdleTail(invocations) else 0)
  {
    assert (invocations + [i])[..|invocations|] == invocations;
  }

  /** In a stretch of invocations for one position, no more than `limit` in a row are idle. */
  lemma {:induction false} IdleRunsAreShort(invocations: seq<Invocation>, limit: nat, from: nat, to: nat)
    requires NeverIdlesLonger(invocations, limit) && from <= to <= |invocations|
    requires forall k :: from <= k < to ==>
      Idle(invocations[k]) && invocations[k].position == invocations[from].position
    ensures to - from <= limit
  {
    if to < |invocations| {
      IdleRunsAreShort(invocations[..|invocations| - 1], limit, from, to);
    } else if from < to {
      TailIsLong(invocations, from, to);
      assert invocations[..to] == invocations;
    }
  }

  lemma {:induction false} TailIsLong(invocations: seq<Invocation>, from: nat, to: nat)
    requires from <= to <= |invocations|
    requires forall k :: from <= k < to ==>
      Idle(invocations[k]) && invocations[k].position == invocations[from].position
    ensures to - from <= IdleTail(invocations[..to])
  {
    if from < to {
      TailIsLong(invocations, from, to - 1);
      assert from < to - 1 ==> invocations[to - 2].position == invocations[to - 1].position;
      assert invocations[..to][..to - 1] == invocations[..to - 1];
    }
  }

  // ----- one batch -----

  /** No more invocations than allowed, and no longer idle runs. */
  ghost predicate Budgeted(log: seq<Exchange>, batchLimit: nat, idleLimit: nat) {
    |Invocations(log)| <= batchLimit && NeverIdlesLonger(Invocations(log), idleLimit)
  }

  /** The last invocation was for a position before `position`. */
  predicate Passed(invocations: seq<Invocation>, position: nat) {
    invocations == [] || invocations[|invocations| - 1].position < position
  }

  /** Idle invocations of this position at the end. */
  function IdleAt(invocations: seq<Invocation>, position: nat): nat {
    if invocations != [] && invocations[|invocations| - 1].position == position then IdleTail(invocations) else 0
  }

  lemma OneMoreInvocation(invocations: seq<Invocation>, i: Invocation, limit: nat)
    requires NeverIdlesLonger(invocations, limit) && IdleAt(invocations, i.position) < limit
    ensures NeverIdlesLonger(invocations + [i], limit)
    ensures IdleAt(invocations + [i], i.position) == if Idle(i) then IdleAt(invocations, i.position) + 1 else 0
  {
    TailGrows(invocations, i);
    NeverIdlesStep(invocations, i, limit);
  }

  /** An agent that raises or is killed still counts. */
  lemma AgentFailed(log: seq<Exchange>, file: StateFile, position: nat, scope: Scope, agent: Agent, batchLimit: nat,
                    idleLimit: nat)
    requires Budgeted(log, batchLimit, idleLimit) && |Invocations(log)| < batchLimit
    requires IdleAt(Invocations(log), position) < idleLimit
    ensures Budgeted(log + [Invoked(file, position, scope, agent)], batchLimit, idleLimit)
  {
    InvokingAddsOne(log, file, position, scope, agent);
    OneMoreInvocation(Invocations(log), Invocation(position, scope, agent, LastReport(log), None), idleLimit);
  }

  /** The answer after an agent decides whether its batch was idle. */
  lemma BatchAnswered(log: seq<Exchange>, file: StateFile, position: nat, scope: Scope, agent: Agent, answer: Answer,
                      batchLimit: nat, idleLimit: nat)
    requires Budgeted(log, batchLimit, idleLimit) && |Invocations(log)| < batchLimit && AllSettled(Invocations(log))
    requires IdleAt(Invocations(log), position) < idleLimit && LastReport(log).Some?
    ensures var after := log + [Invoked(file, position, scope, agent)] + [Asked(file, answer)];
            && Budgeted(after, batchLimit, idleLimit) && |Invocations(after)| == |Invocations(log)| + 1
            && (answer.Answered? ==>
                  AllSettled(Invocations(after)) && Passed(Invocations(after), position + 1)
                  && IdleAt(Invocations(after), position)
                     == if UnitsOf(LastReport(log).value, scope) == UnitsOf(answer.status, scope)
                        then IdleAt(Invocations(log), position) + 1 else 0)
  {
    ReportSettles(log, file, position, scope, agent, answer);
    var reported := if answer.Answered? then Some(answer.status) else None;
    var i := Invocation(position, scope, agent, LastReport(log), reported);
    OneMoreInvocation(Invocations(log), i, idleLimit);
    assert (Invocations(log) + [i])[..|Invocations(log)|] == Invocations(log);
  }

  // ----- idle batches of two kinds -----

  /** How many of the idle invocations at the end had an agent that failed with an API error, or one that did not. */
  function KindTail(invocations: seq<Invocation>, apiError: bool): nat {
    if invocations == [] || !Idle(invocations[|invocations| - 1]) then 0
    else
      var last := |invocations| - 1;
      (if invocations[last].agent == Exited(apiError) then 1 else 0)
      + (if last > 0 && invocations[last - 1].position == invocations[last].position
         then KindTail(invocations[..last], apiError) else 0)
  }

  /** The same, as far as they are of this position. */
  function KindAt(invocations: seq<Invocation>, position: nat, apiError: bool): nat {
    if invocations != [] && invocations[|invocations| - 1].position == position
    then KindTail(invocations, apiError) else 0
  }

  lemma KindGrows(invocations: seq<Invocation>, i: Invocation, apiError: bool)
    ensures KindAt(invocations + [i], i.position, apiError)
         == if !Idle(i) then 0
            else KindAt(invocations, i.position, apiError) + if i.agent == Exited(apiError) then 1 else 0
  {
    assert (invocations + [i])[..|invocations|] == invocations;
  }

  /** The answer after an agent decides whether its batch counts as a stall, as an API error, or as an advance. */
  lemma BatchCounted(log: seq<Exchange>, file: StateFile, position: nat, scope: Scope, agent: Agent, answer: Answer,
                     apiError: bool)
    requires AllSettled(Invocations(log)) && LastReport(log).Some? && answer.Answered?
    ensures var after := log + [Invoked(file, position, scope, agent)] + [Asked(file, answer)];
            KindAt(Invocations(after), position, apiError)
            == if UnitsOf(LastReport(log).value, scope) != UnitsOf(answer.status, scope) then 0
               else KindAt(Invocations(log), position, apiError) + if agent == Exited(apiError) then 1 else 0
  {
    ReportSettles(log, file, position, scope, agent, answer);
    KindGrows(Invocations(log), Invocation(position, scope, agent, LastReport(log), Some(answer.status)), apiError);
  }

  /**
    The last invocations were for this position and idle, and among them were as
    many stalls as are allowed, one at least, or more API errors than may be retried.
   */
  ghost predicate StoppedFor(log: seq<Exchange>, position: nat, maxStalls: int, maxApiRetries: int) {
    || (1 <= KindAt(Invocations(log), position, false) && maxStalls <= KindAt(Invocations(log), position, false))
    || (1 <= KindAt(Invocations(log), position, true) && maxApiRetries < KindAt(Invocations(log), position, true))
  }

  /** The last request failed: the status command or the agent raised. */
  predicate EndsRaised(log: seq<Exchange>) {
    log != []
    && match log[|log| - 1]
       case Asked(_, answer) => answer.StatusRaised?
       case Invoked(_, _, _, agent) => agent.AgentRaised?
  }

  /** The process was killed during the last request. */
  predicate EndsKilled(log: seq<Exchange>) {
    log != []
    && match log[|log| - 1]
       case Asked(_, answer) => answer.StatusKilled?
       case Invoked(_, _, _, agent) => agent.AgentKilled?
  }

  // ----- what the log says of the scopes -----

  /** The exchange is a report about this shard that shows the scope complete. */
  predicate ShowsComplete(e: Exchange, file: StateFile, scope: Scope) {
    e.Asked? && e.file == file && e.answer.Answered? && ReportsComplete(e.answer.status, scope)
  }

  /** Some report showed the scope complete. */
  ghost predicate Witnessed(log: seq<Exchange>, file: StateFile, scope: Scope) {
    exists e :: e in log && ShowsComplete(e, file, scope)
  }

  /** The exchange is a report about this shard that holds this very scope, complete. */
  predicate HoldsComplete(e: Exchange, file: StateFile, scope: Scope) {
    && e.Asked? && e.file == file && e.answer.Answered? && e.answer.status.statePresent && e.answer.status.complete
    && e.answer.status.bound == Some(scope)
  }

  ghost predicate WasBound(log: seq<Exchange>, file: StateFile, scope: Scope) {
    exists e :: e in log && HoldsComplete(e, file, scope)
  }

  /** The state of this shard is only ever bound to scopes of this shard. */
  ghost predicate BoundWithin(log: seq<Exchange>, file: StateFile, scopes: seq<Scope>) {
    forall e :: e in log && e.Asked? && e.file == file && e.answer.Answered? && e.answer.status.bound.Some? ==>
      e.answer.status.bound.value in scopes
  }

  /** With distinguishable scopes, what a report shows complete is the scope itself. */
  lemma WitnessIsGenuine(log: seq<Exchange>, file: StateFile, scopes: seq<Scope>, p: nat)
    requires p < |scopes| && Witnessed(log, file, scopes[p])
    requires RecognisesOwnScopes(scopes) && BoundWithin(log, file, scopes)
    ensures WasBound(log, file, scopes[p])
  {
    var e :| e in log && ShowsComplete(e, file, scopes[p]);
    assert e.answer.status.bound.value in scopes;
    assert HoldsComplete(e, file, scopes[p]);
  }

  lemma WitnessesStay(before: seq<Exchange>, after: seq<Exchange>, file: StateFile)
    requires before <= after
    ensures forall scope :: Witnessed(before, file, scope) ==> Witnessed(after, file, scope)
  {
  }

  /** Every report shows every scope complete, as when all of them have one identity. */
  ghost predicate AllAtOnce(log: seq<Exchange>, scopes: seq<Scope>) {
    forall e, p :: e in log && e.Asked? && e.answer.Answered? && 0 <= p < |scopes| ==>
      ReportsComplete(e.answer.status, scopes[p])
  }

  /** The first request since `before` was for a status, and the answer left nothing to do for the scope. */
  ghost predicate FirstSettlesIt(before: seq<Exchange>, log: seq<Exchange>, scope: Scope) {
    |before| < |log| && log[|before|].Asked?
    && (log[|before|].answer.Answered? ==> ReportsComplete(log[|before|].answer.status, scope))
  }

  /**
    Where all tasks collide with the first, reports that the first scope is
    complete are taken for all of them: by `Shard.Run`, no agent is invoked and
    the shard counts as complete, though no other scope was ever bound.
   */
  lemma FirstFinishesAll(scopes: seq<Scope>, tasks: seq<Task>, calendar: Calendar,
                         scopeFrom: Option<Time>, scopeThrough: Option<Time>, log: seq<Exchange>, file: StateFile)
    requires Increasing(calendar.first) && Increasing(calendar.last)
    requires AreRecords(scopes, tasks, calendar, scopeFrom, scopeThrough) && DistinctWindows(tasks) && tasks != []
    requires forall j :: 0 <= j < |tasks| ==> Collide(tasks[0], tasks[j], calendar, scopeFrom, scopeThrough)
    requires forall e :: e in log && e.Asked? && e.answer.Answered? ==>
      e.answer.status.statePresent && e.answer.status.complete && e.answer.status.bound == Some(scopes[0])
    ensures AllAtOnce(log, scopes)
    ensures forall j :: 0 < j < |scopes| ==> !WasBound(log, file, scopes[j])
  {
    forall e, p | e in log && e.Asked? && e.answer.Answered? && 0 <= p < |scopes|
      ensures ReportsComplete(e.answer.status, scopes[p])
    {
      CollidingIsMistaken(scopes, tasks, calendar, scopeFrom, scopeThrough, 0, p, e.answer.status);
    }
    forall j | 0 < j < |scopes|
      ensures scopes[0] != scopes[j]
    {
      assert !SameWindow(tasks[0], tasks[j]);
    }
  }
}
