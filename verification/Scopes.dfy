/**
  The scopes a plan records, and how a memory state is recognised as bound to
  one (scripts/personal-memory-parallel.py, `scope_record` and `scope_is_bound`).
 */
module Scopes {
  import opened Wrappers
  import opened Tasks
  import opened Coverage

  /** Instants, in the one time zone everything is compared in. */
  type Time = int

  datatype Scope = Scope(
    conversations: seq<string>, messages: nat,
    fromMonth: Option<Month>, throughMonth: Option<Month>,
    from: Option<Time>, through: Option<Time>)

  /** First and last instant of each month. */
  datatype Calendar = Calendar(first: Month -> Time, last: Month -> Time)

  ghost predicate Increasing(f: Month -> Time) {
    forall a, b :: a < b ==> f(a) < f(b)
  }

  /** The later of two inclusive lower bounds. */
  function ClampLower(chunk: Option<Time>, floor: Option<Time>): Option<Time> {
    if chunk.None? then floor
    else if floor.None? then chunk
    else if chunk.value < floor.value then floor else chunk
  }

  /** The earlier of two inclusive upper bounds. */
  function ClampUpper(chunk: Option<Time>, ceiling: Option<Time>): Option<Time> {
    if chunk.None? then ceiling
    else if ceiling.None? then chunk
    else if ceiling.value < chunk.value then ceiling else chunk
  }

  function MonthTime(bound: Month -> Time, month: Option<Month>): Option<Time> {
    match month
    case Some(m) => Some(bound(m))
    case None => None
  }

  function ScopeRecord(t: Task, calendar: Calendar, scopeFrom: Option<Time>, scopeThrough: Option<Time>): Scope {
    Scope(t.conversations, t.messages, t.fromMonth, t.throughMonth,
          ClampLower(MonthTime(calendar.first, t.fromMonth), scopeFrom),
          ClampUpper(MonthTime(calendar.last, t.throughMonth), scopeThrough))
  }

  /** All that a status report says about the scope a state is bound to. */
  datatype Identity = Identity(from: Option<Time>, through: Option<Time>, conversations: nat)

  function IdentityOf(scope: Scope): Identity {
    Identity(scope.from, scope.through, |scope.conversations|)
  }

  ghost predicate AreRecords(scopes: seq<Scope>, tasks: seq<Task>, calendar: Calendar, scopeFrom: Option<Time>,
                             scopeThrough: Option<Time>) {
    |scopes| == |tasks|
    && forall i :: 0 <= i < |tasks| ==> scopes[i] == ScopeRecord(tasks[i], calendar, scopeFrom, scopeThrough)
  }

  // ----- which scopes a status report tells apart -----

  /** The bound replaces the chunk's own start, if it has one. */
  predicate StartsBefore(calendar: Calendar, month: Option<Month>, scopeFrom: Option<Time>) {
    scopeFrom.Some? && (month.Some? ==> calendar.first(month.value) <= scopeFrom.value)
  }

  /** The bound replaces the chunk's own end, if it has one. */
  predicate EndsAfter(calendar: Calendar, month: Option<Month>, scopeThrough: Option<Time>) {
    scopeThrough.Some? && (month.Some? ==> scopeThrough.value <= calendar.last(month.value))
  }

  /** Equally many conversations, and at either end the same month or both months beyond the bound. */
  predicate Collide(a: Task, b: Task, calendar: Calendar, scopeFrom: Option<Time>, scopeThrough: Option<Time>) {
    && |a.conversations| == |b.conversations|
    && (a.fromMonth == b.fromMonth
        || (StartsBefore(calendar, a.fromMonth, scopeFrom) && StartsBefore(calendar, b.fromMonth, scopeFrom)))
    && (a.throughMonth == b.throughMonth
        || (EndsAfter(calendar, a.throughMonth, scopeThrough) && EndsAfter(calendar, b.throughMonth, scopeThrough)))
  }

  lemma LowerCollides(calendar: Calendar, a: Option<Month>, b: Option<Month>, scopeFrom: Option<Time>)
    requires Increasing(calendar.first)
    ensures ClampLower(MonthTime(calendar.first, a), scopeFrom) == ClampLower(MonthTime(calendar.first, b), scopeFrom)
       <==> a == b || (StartsBefore(calendar, a, scopeFrom) && StartsBefore(calendar, b, scopeFrom))
  {
    if a.Some? && b.Some? && a != b {
      assert calendar.first(a.value) < calendar.first(b.value) || calendar.first(b.value) < calendar.first(a.value);
    }
  }

  lemma UpperCollides(calendar: Calendar, a: Option<Month>, b: Option<Month>, scopeThrough: Option<Time>)
    requires Increasing(calendar.last)
    ensures (ClampUpper(MonthTime(calendar.last, a), scopeThrough)
             == ClampUpper(MonthTime(calendar.last, b), scopeThrough))
       <==> a == b || (EndsAfter(calendar, a, scopeThrough) && EndsAfter(calendar, b, scopeThrough))
  {
    if a.Some? && b.Some? && a != b {
      assert calendar.last(a.value) < calendar.last(b.value) || calendar.last(b.value) < calendar.last(a.value);
    }
  }

  /** Two planned scopes have one identity exactly when their tasks collide. */
  lemma IdentitiesCollide(a: Task, b: Task, calendar: Calendar, scopeFrom: Option<Time>, scopeThrough: Option<Time>)
    requires Increasing(calendar.first) && Increasing(calendar.last)
    ensures (IdentityOf(ScopeRecord(a, calendar, scopeFrom, scopeThrough))
             == IdentityOf(ScopeRecord(b, calendar, scopeFrom, scopeThrough)))
       <==> Collide(a, b, calendar, scopeFrom, scopeThrough)
  {
    LowerCollides(calendar, a.fromMonth, b.fromMonth, scopeFrom);
    UpperCollides(calendar, a.throughMonth, b.throughMonth, scopeThrough);
  }

  ghost predicate NoneCollide(tasks: seq<Task>, calendar: Calendar, scopeFrom: Option<Time>,
                              scopeThrough: Option<Time>) {
    forall i, j :: 0 <= i < j < |tasks| ==> !Collide(tasks[i], tasks[j], calendar, scopeFrom, scopeThrough)
  }

  /** Without bounds to clamp against, scopes with different windows are told apart. */
  lemma UnboundedNoneCollide(tasks: seq<Task>, calendar: Calendar)
    requires DistinctWindows(tasks)
    ensures NoneCollide(tasks, calendar, None, None)
  {
    forall i, j | 0 <= i < j < |tasks|
      ensures !Collide(tasks[i], tasks[j], calendar, None, None)
    {
      assert !SameWindow(tasks[i], tasks[j]);
    }
  }

  /**
    With bounds they can collide: a tick within one month clamps a whole-conversation
    scope and that month's group scope to the same window, and two scopes of one
    conversation each are then indistinguishable.
   */
  lemma ClampedIdentitiesCollide(calendar: Calendar, month: Month, scopeFrom: Time, scopeThrough: Time)
    returns (tasks: seq<Task>, scopes: seq<Scope>)
    requires calendar.first(month) <= scopeFrom <= scopeThrough <= calendar.last(month)
    ensures DistinctWindows(tasks) && AreRecords(scopes, tasks, calendar, Some(scopeFrom), Some(scopeThrough))
    ensures |scopes| == 2 && scopes[0].conversations != scopes[1].conversations
    ensures IdentityOf(scopes[0]) == IdentityOf(scopes[1])
  {
    tasks := [Task(["direct"], 1, [], None, None), Task(["group"], 1, [], Some(month), Some(month))];
    scopes := [ScopeRecord(tasks[0], calendar, Some(scopeFrom), Some(scopeThrough)),
               ScopeRecord(tasks[1], calendar, Some(scopeFrom), Some(scopeThrough))];
  }
}
