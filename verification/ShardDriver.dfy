/**
  Driving one shard through its scopes with retries and budgets, resumable from
  its progress file (scripts/personal-memory-parallel.py, `run_shard` and
  `run_tick_shard`, which share this loop, and `shard_result`).
 */
module ShardDriver {
  import opened Wrappers
  import opened Scopes
  import opened DriverLog

  datatype Record = Record(complete: bool, messages: nat, units: nat, apiError: bool, stalled: bool)

  type Records = map<nat, Record>

  /** The progress file: a kill while it is rewritten leaves it unreadable. */
  datatype Stored = Missing | Readable(records: Records) | Corrupt

  datatype Limits = Limits(maxBatches: int, maxStalls: int, maxApiRetries: int)

  // ----- progress -----

  predicate IsComplete(records: Records, p: nat) {
    p in records && records[p].complete
  }

  /** Exactly the first `k` of `n` scopes are complete. */
  ghost predicate FirstComplete(records: Records, n: nat, k: nat) {
    k <= n && (forall p :: p in records ==> p < n) && forall p: nat :: IsComplete(records, p) <==> p < k
  }

  lemma Recorded(records: Records, n: nat, position: nat, record: Record)
    requires FirstComplete(records, n, position) && position < n
    ensures FirstComplete(records[position := record], n, if record.complete then position + 1 else position)
  {
    var updated := records[position := record];
    forall p: nat
      ensures IsComplete(updated, p) <==> if p == position then record.complete else IsComplete(records, p)
    {
    }
  }

  function RecordsOf(stored: Stored): Records {
    match stored
    case Readable(records) => records
    case _ => map[]
  }

  /** What the file may hold while `records` is in memory, if it is readable at all. */
  ghost predicate Mirrors(stored: Stored, records: Records) {
    stored == Readable(records) || (stored == Missing && records == map[])
  }

  ghost predicate InOrder(stored: Stored, n: nat) {
    exists k: nat :: FirstComplete(RecordsOf(stored), n, k)
  }

  // ----- the driver -----

  datatype BatchOutcome = Advanced | Idle(apiError: bool) | BatchRaised | BatchKilled

  datatype ScopeOutcome = ScopeDone | BudgetSpent | GaveUp | ScopeRaised | ScopeKilled

  function IdleLimit(limits: Limits): nat {
    (if limits.maxApiRetries < 0 then 0 else limits.maxApiRetries)
    + (if limits.maxStalls < 1 then 1 else limits.maxStalls)
  }

  function BatchLimit(limits: Limits): nat {
    if limits.maxBatches < 0 then 0 else limits.maxBatches
  }

  predicate OwnRequest(e: Exchange, file: StateFile, scopes: seq<Scope>) {
    e.file == file && (e.Invoked? ==> e.position < |scopes| && e.scope == scopes[e.position])
  }

  /** All requests are for this shard, and agents are sent to its scopes. */
  predicate OwnRequests(log: seq<Exchange>, file: StateFile, scopes: seq<Scope>) {
    log == [] || (OwnRequest(log[|log| - 1], file, scopes) && OwnRequests(log[..|log| - 1], file, scopes))
  }

  lemma {:induction false} OwnRequestsMean(log: seq<Exchange>, file: StateFile, scopes: seq<Scope>)
    ensures OwnRequests(log, file, scopes) <==> forall e :: e in log ==> OwnRequest(e, file, scopes)
  {
    if log != [] {
      OwnRequestsMean(log[..|log| - 1], file, scopes);
      assert log == log[..|log| - 1] + [log[|log| - 1]];
    }
  }

  lemma OwnRequestsSnoc(log: seq<Exchange>, e: Exchange, file: StateFile, scopes: seq<Scope>)
    requires OwnRequests(log, file, scopes) && OwnRequest(e, file, scopes)
    ensures OwnRequests(log + [e], file, scopes)
  {
    assert (log + [e])[..|log|] == log;
  }

  // ----- what the log keeps -----

  /** The agents stay within both limits, and all requests were for this shard. */
  ghost predicate LimitsHold(log: seq<Exchange>, file: StateFile, scopes: seq<Scope>, limits: Limits) {
    Budgeted(log, BatchLimit(limits), IdleLimit(limits)) && OwnRequests(log, file, scopes)
  }

  /** The agents from `from` up to `to` were all sent to one scope, and all idle. */
  ghost predicate IdleStretch(invocations: seq<Invocation>, from: nat, to: nat) {
    from <= to <= |invocations|
    && forall k :: from <= k < to ==>
         DriverLog.Idle(invocations[k]) && invocations[k].position == invocations[from].position
  }

  /** No more agents than batches, and no more idle in a row than there may be API errors and stalls. */
  ghost predicate StaysWithin(log: seq<Exchange>, limits: Limits) {
    && InvokedCount(log) <= (if limits.maxBatches < 0 then 0 else limits.maxBatches)
    && forall from: nat, to: nat :: IdleStretch(Invocations(log), from, to) ==>
         to - from <= (if limits.maxApiRetries < 0 then 0 else limits.maxApiRetries)
                      + (if limits.maxStalls < 1 then 1 else limits.maxStalls)
  }

  lemma LimitsMean(log: seq<Exchange>, file: StateFile, scopes: seq<Scope>, limits: Limits)
    requires LimitsHold(log, file, scopes, limits)
    ensures StaysWithin(log, limits)
  {
    InvocationsAreAll(log);
    forall from: nat, to: nat | IdleStretch(Invocations(log), from, to)
      ensures to - from <= IdleLimit(limits)
    {
      IdleRunsAreShort(Invocations(log), IdleLimit(limits), from, to);
    }
  }

  /** Between two turns of the loop every agent was reported on, and the driver's count is right. */
  ghost predicate TurnHolds(log: seq<Exchange>, file: StateFile, scopes: seq<Scope>, limits: Limits, batches: nat) {
    LimitsHold(log, file, scopes, limits) && AllSettled(Invocations(log)) && |Invocations(log)| == batches
  }

  function IdleCount(log: seq<Exchange>, position: nat): nat {
    IdleAt(Invocations(log), position)
  }

  function KindCount(log: seq<Exchange>, position: nat, apiError: bool): nat {
    KindAt(Invocations(log), position, apiError)
  }

  /** The last request of a stretch of the log is the last of the log. */
  lemma GrowthEnds(log: seq<Exchange>, start: nat)
    requires start < |log|
    ensures log[start..] != [] && log[start..][|log[start..]| - 1] == log[|log| - 1]
  {
  }

  lemma AskStep(log: seq<Exchange>, file: StateFile, scopes: seq<Scope>, limits: Limits, batches: nat, answer: Answer)
    requires TurnHolds(log, file, scopes, limits, batches)
    ensures TurnHolds(log + [Asked(file, answer)], file, scopes, limits, batches)
    ensures Invocations(log + [Asked(file, answer)]) == Invocations(log)
    ensures answer.Answered? ==> LastReport(log + [Asked(file, answer)]) == Some(answer.status)
  {
    OwnRequestsSnoc(log, Asked(file, answer), file, scopes);
    AskingAddsNothing(log, file, answer);
  }

  lemma InvokeStep(log: seq<Exchange>, file: StateFile, scopes: seq<Scope>, limits: Limits, batches: nat,
                   position: nat, agent: Agent)
    requires TurnHolds(log, file, scopes, limits, batches) && batches < limits.maxBatches && position < |scopes|
    requires IdleCount(log, position) < IdleLimit(limits)
    ensures LimitsHold(log + [Invoked(file, position, scopes[position], agent)], file, scopes, limits)
  {
    OwnRequestsSnoc(log, Invoked(file, position, scopes[position], agent), file, scopes);
    AgentFailed(log, file, position, scopes[position], agent, BatchLimit(limits), IdleLimit(limits));
  }

  lemma AnswerStep(log: seq<Exchange>, file: StateFile, scopes: seq<Scope>, limits: Limits, batches: nat, position: nat,
                   agent: Agent, answer: Answer)
    requires TurnHolds(log, file, scopes, limits, batches) && batches < limits.maxBatches && position < |scopes|
    requires IdleCount(log, position) < IdleLimit(limits) && LastReport(log).Some?
    ensures var scope := scopes[position];
            var after := log + [Invoked(file, position, scope, agent)] + [Asked(file, answer)];
            && LimitsHold(after, file, scopes, limits)
            && (answer.Answered? ==>
                  TurnHolds(after, file, scopes, limits, batches + 1) && Passed(Invocations(after), position + 1)
                  && IdleCount(after, position)
                     == if UnitsOf(LastReport(log).value, scope) == UnitsOf(answer.status, scope)
                        then IdleCount(log, position) + 1 else 0)
    ensures answer.Answered? ==>
      forall b :: KindCount(log + [Invoked(file, position, scopes[position], agent)] + [Asked(file, answer)], position,
                            b)
        == if UnitsOf(LastReport(log).value, scopes[position]) != UnitsOf(answer.status, scopes[position]) then 0
           else KindCount(log, position, b) + if agent == Exited(b) then 1 else 0
    ensures answer.Answered? ==>
      LastReport(log + [Invoked(file, position, scopes[position], agent)] + [Asked(file, answer)])
        == Some(answer.status)
  {
    var scope := scopes[position];
    if answer.Answered? {
      BatchCounted(log, file, position, scope, agent, answer, false);
      BatchCounted(log, file, position, scope, agent, answer, true);
    }
    OwnRequestsSnoc(log, Invoked(file, position, scope, agent), file, scopes);
    OwnRequestsSnoc(log + [Invoked(file, position, scope, agent)], Asked(file, answer), file, scopes);
    BatchAnswered(log, file, position, scope, agent, answer, BatchLimit(limits), IdleLimit(limits));
  }

  /** The scope is on record as unfinished, with what the report shows of it. */
  predicate RecordsReport(record: Record, status: Status, scope: Scope) {
    && !record.complete && !record.apiError && !record.stalled
    && (if ScopeIsBound(status, scope) then record.messages == status.messages && record.units == status.units
        else record.messages == 0 && record.units == 0)
  }

  /** Adding one request to the log adds it to every stretch of it. */
  lemma GrowthSnoc(log: seq<Exchange>, e: Exchange, start: nat)
    requires start <= |log|
    ensures (log + [e])[start..] == log[start..] + [e]
  {
  }

  class Shard {
    const file: StateFile
    const scopes: seq<Scope>
    const limits: Limits
    var stored: Stored
    var records: Records
    var batches: nat

    constructor (file: StateFile, scopes: seq<Scope>, limits: Limits, stored: Stored)
      ensures this.file == file && this.scopes == scopes && this.limits == limits && this.stored == stored
      ensures records == RecordsOf(stored) && batches == 0
    {
      this.file, this.scopes, this.limits, this.stored := file, scopes, limits, stored;
      records, batches := RecordsOf(stored), 0;
    }

    /** Since `start` the log was continued within the limits. */
    ghost predicate WithinLimits(outside: Outside, start: nat)
      reads outside`log
    {
      outside.Faithful() && start <= |outside.log| && LimitsHold(outside.log[start..], file, scopes, limits)
    }

    /** The same between two turns of the loop. */
    ghost predicate AtTurn(outside: Outside, start: nat)
      reads this, outside`log
    {
      outside.Faithful() && start <= |outside.log| && TurnHolds(outside.log[start..], file, scopes, limits, batches)
    }

    /** The first `k` scopes are complete, in memory and in the file unless it is unreadable. */
    ghost predicate Standing(k: nat)
      reads this
    {
      FirstComplete(records, |scopes|, k) && (stored == Corrupt || Mirrors(stored, records))
    }

    /** `remember`: into memory, then to the file. */
    method Remember(outside: Outside, position: nat, record: Record) returns (alive: bool)
      modifies this`records, this`stored, outside`writes
      ensures records == old(records)[position := record]
      ensures if alive then stored == Readable(records) else stored == Corrupt && outside.KilledInWrite()
    {
      records := records[position := record];
      alive := outside.Write();
      stored := if alive then Readable(records) else Corrupt;
    }

    /** `remember` for the scope at work. */
    method RememberScope(outside: Outside, position: nat, record: Record) returns (alive: bool)
      requires position < |scopes| && Standing(position)
      modifies this`records, this`stored, outside`writes
      ensures Standing(if record.complete then position + 1 else position)
      ensures alive <==> stored != Corrupt
      ensures !alive ==> outside.KilledInWrite()
      ensures alive ==> position in records && records[position] == record
    {
      Recorded(records, |scopes|, position, record);
      alive := Remember(outside, position, record);
    }

    /** Asks for a status between two invocations. */
    method Ask(outside: Outside, ghost start: nat) returns (answer: Answer)
      requires AtTurn(outside, start)
      modifies outside`log
      ensures outside.Continued() && outside.log == old(outside.log) + [Asked(file, answer)] && AtTurn(outside, start)
      ensures Invocations(outside.log[start..]) == old(Invocations(outside.log[start..]))
      ensures answer.Answered? ==> LastReport(outside.log[start..]) == Some(answer.status)
    {
      ghost var before := outside.log;
      answer := outside.MemoryStatus(file);
      GrowthSnoc(before, Asked(file, answer), start);
      AskStep(before[start..], file, scopes, limits, batches, answer);
    }

    /** One agent invocation and, if the agent exits, the answer after it. */
    method Invoke(outside: Outside, ghost start: nat, position: nat) returns (agent: Agent, answer: Option<Answer>)
      requires AtTurn(outside, start) && batches < limits.maxBatches && position < |scopes|
      requires IdleCount(outside.log[start..], position) < IdleLimit(limits) && LastReport(outside.log[start..]).Some?
      modifies this`batches, outside`log
      ensures outside.Continued() && |old(outside.log)| < |outside.log| && WithinLimits(outside, start)
      ensures agent.Exited? <==> answer.Some?
      ensures answer.Some? && answer.value.Answered? ==>
        LastReport(outside.log[start..]) == Some(answer.value.status)
      ensures agent.AgentRaised? || answer == Some(StatusRaised) ==> EndsRaised(outside.log[start..])
      ensures agent.AgentKilled? || answer == Some(StatusKilled) ==> EndsKilled(outside.log[start..])
      ensures answer.Some? && answer.value.Answered? ==>
        forall b :: KindCount(outside.log[start..], position, b)
          == if UnitsOf(old(LastReport(outside.log[start..]).value), scopes[position])
                != UnitsOf(answer.value.status, scopes[position]) then 0
             else old(KindCount(outside.log[start..], position, b)) + if agent == Exited(b) then 1 else 0
      ensures answer.Some? && answer.value.Answered? ==>
        AtTurn(outside, start) && batches == old(batches) + 1 && Passed(Invocations(outside.log[start..]), position + 1)
        && IdleCount(outside.log[start..], position)
           == if UnitsOf(old(LastReport(outside.log[start..]).value), scopes[position])
                 == UnitsOf(answer.value.status, scopes[position])
              then old(IdleCount(outside.log[start..], position)) + 1 else 0
    {
      ghost var g := outside.log[start..];
      agent := outside.RunAgent(file, position, scopes[position]);
      GrowthSnoc(old(outside.log), Invoked(file, position, scopes[position], agent), start);
      InvokeStep(g, file, scopes, limits, batches, position, agent);
      GrowthEnds(outside.log, start);
      if !agent.Exited? {
        return agent, None;
      }
      ghost var invoked := outside.log;
      var told := outside.MemoryStatus(file);
      GrowthSnoc(invoked, Asked(file, told), start);
      AnswerStep(g, file, scopes, limits, batches, position, agent, told);
      batches := batches + 1;
      GrowthEnds(outside.log, start);
      return agent, Some(told);
    }

    /** One batch of the scope at work. */
    method RunBatch(outside: Outside, ghost start: nat, position: nat, before: nat) returns (outcome: BatchOutcome)
      requires AtTurn(outside, start) && batches < limits.maxBatches && position < |scopes| && Standing(position)
      requires IdleCount(outside.log[start..], position) < IdleLimit(limits) && LastReport(outside.log[start..]).Some?
      requires before == UnitsOf(LastReport(outside.log[start..]).value, scopes[position])
      requires stored != Corrupt
      modifies this`records, this`stored, this`batches, outside`log, outside`writes
      ensures outside.Continued() && |old(outside.log)| < |outside.log| && WithinLimits(outside, start)
      ensures Standing(position) && (!outcome.BatchKilled? ==> stored != Corrupt)
      ensures outcome.Advanced? || outcome.Idle? ==>
        AtTurn(outside, start) && batches == old(batches) + 1 && Passed(Invocations(outside.log[start..]), position + 1)
        && IdleCount(outside.log[start..], position)
           == if outcome.Idle? then old(IdleCount(outside.log[start..], position)) + 1 else 0
      ensures outcome.Advanced? ==> forall b :: KindCount(outside.log[start..], position, b) == 0
      ensures outcome.Idle? ==>
        forall b :: KindCount(outside.log[start..], position, b)
          == old(KindCount(outside.log[start..], position, b)) + if b == outcome.apiError then 1 else 0
      ensures outcome.BatchRaised? ==> EndsRaised(outside.log[start..])
      ensures outcome.BatchKilled? ==> outside.KilledSince(start)
      ensures stored == Corrupt ==> outside.KilledInWrite()
      ensures outcome.Advanced? || outcome.Idle? ==>
        LastReport(outside.log[start..]).Some? && position in records
        && RecordsReport(records[position], LastReport(outside.log[start..]).value, scopes[position])
    {
      var agent, answer := Invoke(outside, start, position);
      match answer {
        case None => return if agent.AgentKilled? then BatchKilled else BatchRaised;
        case Some(StatusKilled) => return BatchKilled;
        case Some(StatusRaised) => return BatchRaised;
        case Some(Answered(status)) =>
          var bound := ScopeIsBound(status, scopes[position]);
          var after := if bound then status.units else 0;
          var committed := if bound then status.messages else 0;
          var alive := RememberScope(outside, position, Record(false, committed, after, false, false));
          if !alive {
            return BatchKilled;
          }
          return if after == before then Idle(agent.apiError) else Advanced;
      }
    }

    /** How a scope was left. */
    ghost predicate Left(outside: Outside, start: nat, position: nat, outcome: ScopeOutcome)
      reads this, outside
    {
      && WithinLimits(outside, start)
      && (stored == Corrupt || Standing(if outcome == ScopeDone then position + 1 else position))
      && (stored == Corrupt ==> outcome == ScopeKilled)
      && (outcome in {ScopeDone, BudgetSpent, GaveUp} ==>
            AtTurn(outside, start) && Passed(Invocations(outside.log[start..]), position + 1))
      && (outcome == BudgetSpent ==> limits.maxBatches <= batches)
      && (outcome == GaveUp ==> StoppedFor(outside.log[start..], position, limits.maxStalls, limits.maxApiRetries))
      && (outcome == ScopeRaised ==> EndsRaised(outside.log[start..]))
      && (outcome == ScopeKilled ==> outside.KilledSince(start))
      && (stored == Corrupt ==> outside.KilledInWrite())
      && (outcome in {ScopeDone, GaveUp} ==>
            position in records && RecordedAs(outside.log[start..], records[position], position, outcome))
    }

    /** What is on record of the scope: what the last report shows of it, or why it was given up. */
    ghost predicate RecordedAs(growth: seq<Exchange>, record: Record, position: nat, outcome: ScopeOutcome)
      reads this
    {
      && (outcome == ScopeDone ==>
            LastReport(growth).Some?
            && record == Record(true, LastReport(growth).value.messages, LastReport(growth).value.units, false, false))
      && (outcome == GaveUp ==>
            && !record.complete && (record.apiError <==> !record.stalled)
            && (record.apiError ==> limits.maxApiRetries < KindCount(growth, position, true))
            && (record.stalled ==> limits.maxStalls <= KindCount(growth, position, false)))
    }

    /** Records why the scope is given up. */
    method GiveUp(outside: Outside, ghost start: nat, position: nat, apiError: bool) returns (outcome: ScopeOutcome)
      requires AtTurn(outside, start) && Passed(Invocations(outside.log[start..]), position + 1)
      requires position < |scopes| && Standing(position)
      requires StoppedFor(outside.log[start..], position, limits.maxStalls, limits.maxApiRetries)
      requires if apiError then limits.maxApiRetries < KindCount(outside.log[start..], position, true)
               else limits.maxStalls <= KindCount(outside.log[start..], position, false)
      modifies this`records, this`stored, outside`writes
      ensures Left(outside, start, position, outcome) && outcome in {GaveUp, ScopeKilled}
    {
      var alive := RememberScope(outside, position, Record(false, 0, 0, apiError, !apiError));
      return if alive then GaveUp else ScopeKilled;
    }

    /** Asks whether the scope is complete, and if so records it. */
    method Check(outside: Outside, ghost start: nat, position: nat) returns (outcome: Option<ScopeOutcome>, before: nat)
      requires AtTurn(outside, start) && Passed(Invocations(outside.log[start..]), position + 1)
      requires position < |scopes| && Standing(position) && stored != Corrupt
      modifies this`records, this`stored, outside`log, outside`writes
      ensures outside.Continued() && |outside.log| == |old(outside.log)| + 1 && outside.log[|old(outside.log)|].Asked?
      ensures outcome.Some? ==>
        outcome.value in {ScopeDone, ScopeRaised, ScopeKilled} && Left(outside, start, position, outcome.value)
      ensures outcome == Some(ScopeDone) ==> Witnessed(outside.log[|old(outside.log)|..], file, scopes[position])
      ensures outcome.None? ==> AtTurn(outside, start) && Standing(position) && stored != Corrupt
      ensures outcome.None? ==> Invocations(outside.log[start..]) == old(Invocations(outside.log[start..]))
      ensures outcome.None? ==> LastReport(outside.log[start..]).Some?
      ensures outcome.None? ==> before == UnitsOf(LastReport(outside.log[start..]).value, scopes[position])
      ensures outcome.None? ==> !FirstSettlesIt(old(outside.log), outside.log, scopes[position])
    {
      before := 0;
      var answer := Ask(outside, start);
      GrowthEnds(outside.log, start);
      match answer {
        case StatusKilled => return Some(ScopeKilled), before;
        case StatusRaised => return Some(ScopeRaised), before;
        case Answered(_) =>
      }
      var status := answer.status;
      if ReportsComplete(status, scopes[position]) {
        JustWitnessed(old(outside.log), outside.log, file, scopes[position]);
        var alive := RememberScope(outside, position, Record(true, status.messages, status.units, false, false));
        return Some(if alive then ScopeDone else ScopeKilled), before;
      }
      before := if ScopeIsBound(status, scopes[position]) then status.units else 0;
      return None, before;
    }

    /** Idle batches in a row are counted in two kinds, neither beyond its limit. */
    ghost predicate Counting(outside: Outside, start: nat, position: nat, stalls: int, apiErrors: int)
      reads outside`log
    {
      && 0 <= stalls && (stalls > 0 ==> stalls < limits.maxStalls)
      && 0 <= apiErrors && (apiErrors > 0 ==> apiErrors <= limits.maxApiRetries)
      && start <= |outside.log| && stalls + apiErrors == IdleCount(outside.log[start..], position)
      && stalls == KindCount(outside.log[start..], position, false)
      && apiErrors == KindCount(outside.log[start..], position, true)
    }

    /** Runs a batch, and counts it or gives the scope up. */
    method Advance(outside: Outside, ghost start: nat, position: nat, before: nat, stalls: int, apiErrors: int)
      returns (outcome: Option<ScopeOutcome>, stalls': int, apiErrors': int)
      requires AtTurn(outside, start) && batches < limits.maxBatches && position < |scopes| && Standing(position)
        && stored != Corrupt
      requires Counting(outside, start, position, stalls, apiErrors) && LastReport(outside.log[start..]).Some?
      requires before == UnitsOf(LastReport(outside.log[start..]).value, scopes[position])
      modifies this`records, this`stored, this`batches, outside`log, outside`writes
      ensures outside.Continued() && |old(outside.log)| < |outside.log|
      ensures outcome.Some? ==>
        outcome.value in {GaveUp, ScopeRaised, ScopeKilled} && Left(outside, start, position, outcome.value)
      ensures outcome.None? ==>
        AtTurn(outside, start) && Passed(Invocations(outside.log[start..]), position + 1) && batches == old(batches) + 1
        && Standing(position) && stored != Corrupt && Counting(outside, start, position, stalls', apiErrors')
    {
      stalls', apiErrors' := stalls, apiErrors;
      var batch := RunBatch(outside, start, position, before);
      match batch {
        case BatchKilled => return Some(ScopeKilled), stalls', apiErrors';
        case BatchRaised => return Some(ScopeRaised), stalls', apiErrors';
        case Advanced =>
          return None, 0, 0;
        case Idle(apiError) =>
          if apiError {
            apiErrors' := apiErrors + 1;
          } else {
            stalls' := stalls + 1;
          }
          if if apiError then apiErrors' > limits.maxApiRetries else stalls' >= limits.maxStalls {
            var stopped := GiveUp(outside, start, position, apiError);
            return Some(stopped), stalls', apiErrors';
          }
          return None, stalls', apiErrors';
      }
    }

    /** Works on one scope until it is complete, given up, or out of budget. */
    method DriveScope(outside: Outside, ghost start: nat, position: nat) returns (outcome: ScopeOutcome)
      requires AtTurn(outside, start) && Passed(Invocations(outside.log[start..]), position)
      requires position < |scopes| && Standing(position) && stored != Corrupt
      modifies this`records, this`stored, this`batches, outside`log, outside`writes
      ensures outside.Continued() && Left(outside, start, position, outcome)
      ensures outcome == ScopeDone ==> Witnessed(outside.log[|old(outside.log)|..], file, scopes[position])
      ensures OpensWell(old(outside.log), outside.log, scopes[position], outcome)
    {
      ghost var before := outside.log;
      var stalls, apiErrors := 0, 0;
      while batches < limits.maxBatches
        invariant AtTurn(outside, start) && Passed(Invocations(outside.log[start..]), position + 1)
        invariant Standing(position) && stored != Corrupt && outside.Continued()
        invariant Counting(outside, start, position, stalls, apiErrors)
        invariant Open(before, outside.log, scopes[position])
        decreases limits.maxBatches - batches
      {
        ghost var turn := outside.log;
        var done, unitsBefore := Check(outside, start, position);
        if done.Some? {
          LaterWitness(before, turn, outside.log, file, scopes[position]);
          return done.value;
        }
        done, stalls, apiErrors := Advance(outside, start, position, unitsBefore, stalls, apiErrors);
        if done.Some? {
          return done.value;
        }
      }
      return BudgetSpent;
    }

    /** Works through the scopes in order; whatever happens, completed scopes form a prefix. */
    method Run(outside: Outside) returns (outcome: RunOutcome)
      requires records == RecordsOf(stored) && batches == 0
      requires InOrder(stored, |scopes|) && outside.Faithful()
      modifies this`records, this`stored, this`batches, outside`log, outside`writes
      ensures outside.Continued() && LimitsHold(outside.log[|old(outside.log)|..], file, scopes, limits)
      ensures old(stored) == Corrupt ==> outcome == Raised && stored == Corrupt
      ensures old(stored) != Corrupt && stored != Corrupt ==>
        Mirrors(stored, records) && Progress(old(records), records, outside.log[|old(outside.log)|..], file, scopes)
      ensures stored == Corrupt ==> outcome in {Raised, Killed}
      ensures outcome.Finished? ==> outcome.result.batches == InvokedCount(outside.log[|old(outside.log)|..])
      ensures outcome.Finished? ==>
        (outcome.result.complete <==> forall p: nat :: p < |scopes| ==> IsComplete(records, p))
      ensures outcome.Finished? && !outcome.result.complete ==>
        StoppedEarly(outside.log[|old(outside.log)|..], records, |scopes|, limits)
      ensures outcome.Finished? ==>
        outcome.result.scopes == |scopes| && FirstComplete(records, |scopes|, outcome.result.completedScopes)
      ensures outcome == Raised ==> old(stored) == Corrupt || EndsRaised(outside.log[|old(outside.log)|..])
      ensures outcome == Killed ==> outside.KilledSince(|old(outside.log)|)
      ensures stored == Corrupt ==> old(stored) == Corrupt || outside.KilledInWrite()
      ensures AllAtOnce(outside.log[|old(outside.log)|..], scopes) ==> OnlyAsked(outside.log[|old(outside.log)|..])
      ensures AllAtOnce(outside.log[|old(outside.log)|..], scopes) && outcome.Finished? && 0 < limits.maxBatches ==>
        outcome.result.complete
    {
      ghost var start := |outside.log|;
      assert outside.log[start..] == [];
      if stored == Corrupt {
        return Raised;
      }
      ghost var first: nat :| FirstComplete(records, |scopes|, first);
      ghost var k := first;
      for position := 0 to |scopes|
        invariant stored != Corrupt && outside.Continued() && AtTurn(outside, start) && Standing(k)
        invariant Passed(Invocations(outside.log[start..]), position)
        invariant first <= k && WitnessedFrom(outside.log[start..], file, scopes, first, k)
        invariant position <= k || limits.maxBatches <= batches
        invariant AllAtOnce(outside.log[start..], scopes) ==> OnlyAsked(outside.log[start..])
      {
        if IsComplete(records, position) {
          continue;
        }
        if batches >= limits.maxBatches {
          break;
        }
        ghost var before := outside.log;
        var step := DriveScope(outside, start, position);
        ScopeDriven(before, outside.log, start, file, scopes, position, first, k, step);
        match step {
          case ScopeKilled =>
            ProgressIs(old(records), records, outside.log[start..], file, scopes, first, k);
            return Killed;
          case ScopeRaised =>
            ProgressIs(old(records), records, outside.log[start..], file, scopes, first, k);
            return Raised;
          case GaveUp => break;
          case BudgetSpent =>
          case ScopeDone => k := k + 1;
        }
      }
      AllOrPrefix(records, |scopes|, k);
      InvocationsAreAll(outside.log[start..]);
      ProgressIs(old(records), records, outside.log[start..], file, scopes, first, k);
      return Finished(ShardResult(batches, CompleteCount(records) == |scopes|, CompleteCount(records), |scopes|));
    }
  }

  /** Why a run may end before all is complete: the budget is spent, or the first incomplete scope was given up. */
  ghost predicate StoppedEarly(growth: seq<Exchange>, records: Records, n: nat, limits: Limits) {
    || limits.maxBatches <= InvokedCount(growth)
    || exists k: nat :: FirstComplete(records, n, k) && k < n
         && StoppedFor(growth, k, limits.maxStalls, limits.maxApiRetries)
  }

  // ----- what a run adds to the log -----

  /** Nothing was asked yet, or the first answer left something to do. */
  ghost predicate Open(before: seq<Exchange>, log: seq<Exchange>, scope: Scope) {
    log == before || (|before| < |log| && log[|before|].Asked? && !FirstSettlesIt(before, log, scope))
  }

  /** When the first answer settles the scope, nothing else was asked and no agent invoked. */
  ghost predicate OpensWell(before: seq<Exchange>, log: seq<Exchange>, scope: Scope, outcome: ScopeOutcome) {
    && (|before| < |log| ==> log[|before|].Asked?)
    && (FirstSettlesIt(before, log, scope) ==>
        |log| == |before| + 1 && outcome in {ScopeDone, ScopeRaised, ScopeKilled})
    && (outcome == GaveUp ==> |before| < |log|)
  }

  lemma JustWitnessed(before: seq<Exchange>, log: seq<Exchange>, file: StateFile, scope: Scope)
    requires |before| < |log| && ShowsComplete(log[|log| - 1], file, scope)
    ensures Witnessed(log[|before|..], file, scope)
  {
    assert log[|before|..][|log| - 1 - |before|] == log[|log| - 1];
  }

  lemma LaterWitness(before: seq<Exchange>, turn: seq<Exchange>, log: seq<Exchange>, file: StateFile, scope: Scope)
    requires |before| <= |turn| <= |log|
    ensures Witnessed(log[|turn|..], file, scope) ==> Witnessed(log[|before|..], file, scope)
  {
    assert log[|before|..][|turn| - |before|..] == log[|turn|..];
    assert forall e :: e in log[|before|..][|turn| - |before|..] ==> e in log[|before|..];
  }

  /** Each scope from `first` up to `k` was shown complete. */
  ghost predicate WitnessedFrom(log: seq<Exchange>, file: StateFile, scopes: seq<Scope>, first: nat, k: nat) {
    k <= |scopes| && forall p :: first <= p < k ==> Witnessed(log, file, scopes[p])
  }

  /** What a run may leave behind: a longer prefix, each new scope of it shown complete during the run. */
  ghost predicate Progress(before: Records, after: Records, growth: seq<Exchange>, file: StateFile,
                           scopes: seq<Scope>) {
    && (exists k: nat :: FirstComplete(after, |scopes|, k))
    && (forall p: nat :: IsComplete(before, p) ==> IsComplete(after, p))
    && (forall p: nat :: IsComplete(after, p) && !IsComplete(before, p) ==>
        p < |scopes| && Witnessed(growth, file, scopes[p]))
  }

  lemma ProgressIs(before: Records, after: Records, growth: seq<Exchange>, file: StateFile, scopes: seq<Scope>,
                   first: nat, k: nat)
    requires FirstComplete(before, |scopes|, first) && first <= k && WitnessedFrom(growth, file, scopes, first, k)
    ensures FirstComplete(after, |scopes|, k) ==> Progress(before, after, growth, file, scopes)
  {
  }

  lemma AllAtOnceBefore(before: seq<Exchange>, log: seq<Exchange>, start: nat, scopes: seq<Scope>)
    requires before <= log && start <= |before|
    ensures AllAtOnce(log[start..], scopes) ==> AllAtOnce(before[start..], scopes)
  {
    assert before[start..] <= log[start..];
    assert forall e :: e in before[start..] ==> e in log[start..];
  }

  lemma AllAtOnceSettles(before: seq<Exchange>, log: seq<Exchange>, start: nat, scopes: seq<Scope>, position: nat)
    requires start <= |before| < |log| && position < |scopes| && AllAtOnce(log[start..], scopes) && log[|before|].Asked?
    ensures FirstSettlesIt(before, log, scopes[position])
  {
    assert log[start..][|before| - start] == log[|before|];
    assert log[|before|] in log[start..];
  }

  lemma OneMoreAsked(before: seq<Exchange>, log: seq<Exchange>, start: nat)
    requires before <= log && start <= |before| && OnlyAsked(before[start..])
    requires |log| == |before| || (|log| == |before| + 1 && log[|before|].Asked?)
    ensures OnlyAsked(log[start..])
  {
    assert log[start..] == before[start..] + log[|before|..];
  }

  /** What driving one more scope adds to the growth of the log. */
  lemma ScopeDriven(before: seq<Exchange>, log: seq<Exchange>, start: nat, file: StateFile, scopes: seq<Scope>,
                    position: nat,
                    first: nat, k: nat, step: ScopeOutcome)
    requires before <= log && start <= |before| && position < |scopes| && first <= k
    requires WitnessedFrom(before[start..], file, scopes, first, k)
    requires AllAtOnce(before[start..], scopes) ==> OnlyAsked(before[start..])
    requires OpensWell(before, log, scopes[position], step)
    ensures WitnessedFrom(log[start..], file, scopes, first, k)
    ensures Witnessed(log[|before|..], file, scopes[position]) && position == k ==>
      WitnessedFrom(log[start..], file, scopes, first, k + 1)
    ensures AllAtOnce(log[start..], scopes) ==> OnlyAsked(log[start..]) && step != GaveUp
  {
    assert before[start..] <= log[start..];
    WitnessesStay(before[start..], log[start..], file);
    LaterWitness(log[..start], before, log, file, scopes[position]);
    AllAtOnceBefore(before, log, start, scopes);
    if AllAtOnce(log[start..], scopes) {
      if |before| < |log| {
        AllAtOnceSettles(before, log, start, scopes, position);
      }
      OneMoreAsked(before, log, start);
    }
  }

  datatype ShardResult = ShardResult(batches: nat, complete: bool, completedScopes: nat, scopes: nat)

  datatype RunOutcome = Finished(result: ShardResult) | Raised | Killed

  function Completed(records: Records): set<nat> {
    set p | p in records && records[p].complete
  }

  function CompleteCount(records: Records): nat {
    |Completed(records)|
  }

  /** Counting the finished records tells whether all scopes are finished. */
  lemma AllOrPrefix(records: Records, n: nat, k: nat)
    requires FirstComplete(records, n, k)
    ensures CompleteCount(records) == k
    ensures CompleteCount(records) == n <==> forall p: nat :: p < n ==> IsComplete(records, p)
  {
    forall p: nat
      ensures p in Completed(records) <==> p < k
    {
      assert IsComplete(records, p) <==> p < k;
    }
    FirstNumbers(Completed(records), k);
    if k < n {
      assert !IsComplete(records, k);
    }
  }

  lemma {:induction false} FirstNumbers(s: set<nat>, k: nat)
    requires forall p: nat :: p in s <==> p < k
    ensures |s| == k
  {
    if k > 0 {
      FirstNumbers(s - {k - 1}, k - 1);
    }
  }

  // ----- any number of resumes -----

  /** What the progress file records as complete was shown complete by some report about this shard. */
  ghost predicate AllWitnessed(stored: Stored, scopes: seq<Scope>, log: seq<Exchange>, file: StateFile) {
    forall p: nat :: IsComplete(RecordsOf(stored), p) ==> p < |scopes| && Witnessed(log, file, scopes[p])
  }

  ghost predicate AllGenuine(stored: Stored, scopes: seq<Scope>, log: seq<Exchange>, file: StateFile) {
    forall p: nat :: IsComplete(RecordsOf(stored), p) ==> p < |scopes| && WasBound(log, file, scopes[p])
  }

  lemma WitnessedIsGenuine(stored: Stored, scopes: seq<Scope>, log: seq<Exchange>, file: StateFile)
    requires AllWitnessed(stored, scopes, log, file)
    ensures RecognisesOwnScopes(scopes) && BoundWithin(log, file, scopes) ==> AllGenuine(stored, scopes, log, file)
  {
    if RecognisesOwnScopes(scopes) && BoundWithin(log, file, scopes) {
      forall p: nat | IsComplete(RecordsOf(stored), p)
        ensures p < |scopes| && WasBound(log, file, scopes[p])
      {
        WitnessIsGenuine(log, file, scopes, p);
      }
    }
  }

  /** A longer log witnesses no less. */
  lemma LogGrows(stored: Stored, scopes: seq<Scope>, before: seq<Exchange>, after: seq<Exchange>, file: StateFile)
    requires AllWitnessed(stored, scopes, before, file) && before <= after
    ensures AllWitnessed(stored, scopes, after, file)
  {
    WitnessesStay(before, after, file);
  }

  lemma PartWitnesses(log: seq<Exchange>, start: nat, file: StateFile)
    requires start <= |log|
    ensures forall scope :: Witnessed(log[start..], file, scope) ==> Witnessed(log, file, scope)
  {
    assert forall e :: e in log[start..] ==> e in log;
  }

  /**
    One run over a shard, from its progress file (`run_shard` and
    `run_tick_shard`): the file stays a prefix, every completed scope was
    reported complete, now or before, and the agents stay within the limits.
   */
  method RunShard(outside: Outside, file: StateFile, scopes: seq<Scope>, stored: Stored, limits: Limits)
    returns (after: Stored, outcome: RunOutcome)
    requires outside.Faithful() && InOrder(stored, |scopes|) && AllWitnessed(stored, scopes, outside.log, file)
    modifies outside`log, outside`writes
    ensures outside.Continued() && InOrder(after, |scopes|) && AllWitnessed(after, scopes, outside.log, file)
    ensures LimitsHold(outside.log[|old(outside.log)|..], file, scopes, limits)
    ensures StaysWithin(outside.log[|old(outside.log)|..], limits)
    ensures outcome.Finished? ==> outcome.result.batches == InvokedCount(outside.log[|old(outside.log)|..])
    ensures outcome.Finished? ==>
      (outcome.result.complete <==> forall p: nat :: p < |scopes| ==> IsComplete(RecordsOf(after), p))
    ensures outcome.Finished? && !outcome.result.complete ==>
      StoppedEarly(outside.log[|old(outside.log)|..], RecordsOf(after), |scopes|, limits)
    ensures outcome == Raised ==> stored == Corrupt || EndsRaised(outside.log[|old(outside.log)|..])
    ensures outcome == Killed ==> outside.KilledSince(|old(outside.log)|)
    ensures after == Corrupt ==> stored == Corrupt || outside.KilledInWrite()
  {
    var shard := new Shard(file, scopes, limits, stored);
    outcome := shard.Run(outside);
    LimitsMean(outside.log[|old(outside.log)|..], file, scopes, limits);
    after := shard.stored;
    LogGrows(stored, scopes, old(outside.log), outside.log, file);
    PartWitnesses(outside.log, |old(outside.log)|, file);
    assert FirstComplete(RecordsOf(Corrupt), |scopes|, 0);
    assert stored != Corrupt && after != Corrupt ==> RecordsOf(after) == shard.records;
  }

  /**
    Resumed any number of times, killed anywhere: completed scopes stay a
    prefix, each of them once reported complete, and if scopes can be told
    apart, bound then.
   */
  method Resume(outside: Outside, file: StateFile, scopes: seq<Scope>, runs: seq<Limits>) returns (stored: Stored)
    requires outside.Faithful()
    modifies outside`log, outside`writes
    ensures outside.Continued() && InOrder(stored, |scopes|) && AllWitnessed(stored, scopes, outside.log, file)
    ensures RecognisesOwnScopes(scopes) && BoundWithin(outside.log, file, scopes) ==>
      AllGenuine(stored, scopes, outside.log, file)
  {
    stored := Missing;
    assert FirstComplete(RecordsOf(stored), |scopes|, 0);
    for i := 0 to |runs|
      invariant outside.Continued() && InOrder(stored, |scopes|) && AllWitnessed(stored, scopes, outside.log, file)
    {
      var outcome;
      stored, outcome := RunShard(outside, file, scopes, stored, runs[i]);
    }
    WitnessedIsGenuine(stored, scopes, outside.log, file);
  }
}
