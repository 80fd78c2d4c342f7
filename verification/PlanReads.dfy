/**
  Which instants of which conversations the scopes of a plan read
  (scripts/personal-memory-parallel.py, `scope_record`, and the month filter
  that `_command_tick_locked` passes to `command_plan`).
 */
module PlanReads {
  import opened Wrappers
  import opened Tasks
  import opened Coverage
  import opened WorkPlan
  import opened PlanTasks
  import opened Scopes
  import opened CommandPlan

  // ----- months and instants -----

  /** Each month begins right after the last second of the one before. */
  ghost predicate Consecutive(calendar: Calendar) {
    forall m: Month :: calendar.first(m) <= calendar.last(m) && calendar.first(m + 1) == calendar.last(m) + 1
  }

  predicate During(calendar: Calendar, month: Month, x: Time) {
    calendar.first(month) <= x <= calendar.last(month)
  }

  predicate Within(from: Option<Time>, through: Option<Time>, x: Time) {
    (from.Some? ==> from.value <= x) && (through.Some? ==> x <= through.value)
  }

  lemma {:induction false} LaterMonth(calendar: Calendar, a: Month, b: Month)
    requires Consecutive(calendar) && a < b
    ensures calendar.last(a) < calendar.first(b) && calendar.first(a) < calendar.first(b)
      && calendar.last(a) < calendar.last(b)
    decreases b - a
  {
    assert calendar.first(a) <= calendar.last(a) && calendar.first(a + 1) == calendar.last(a) + 1;
    assert calendar.first(b) <= calendar.last(b);
    if a + 1 < b {
      LaterMonth(calendar, a + 1, b);
    }
  }

  /** An instant lies in one month at most, and on either side of the others. */
  lemma MonthsAround(calendar: Calendar, month: Month, other: Month, x: Time)
    requires Consecutive(calendar) && During(calendar, month, x)
    ensures calendar.first(other) <= x <==> other <= month
    ensures x <= calendar.last(other) <==> month <= other
  {
    assert calendar.first(other) <= calendar.last(other);
    if other < month {
      LaterMonth(calendar, other, month);
    } else if month < other {
      LaterMonth(calendar, month, other);
    }
  }

  lemma {:induction false} MonthOf(calendar: Calendar, base: Month, x: Time) returns (month: Month)
    requires Consecutive(calendar) && calendar.first(base) <= x
    ensures During(calendar, month, x)
    decreases x - calendar.first(base)
  {
    month := base;
    if calendar.last(base) < x {
      assert calendar.first(base) <= calendar.last(base) && calendar.first(base + 1) == calendar.last(base) + 1;
      month := MonthOf(calendar, base + 1, x);
    }
  }

  // ----- what a scope reads -----

  /** The scope names the conversation, and the instant lies between its bounds. */
  predicate Reaches(scope: Scope, alias: string, x: Time) {
    alias in scope.conversations && Within(scope.from, scope.through, x)
  }

  /** A recorded scope reads the instants of its months that lie within the bounds of the plan. */
  lemma ScopeReaches(t: Task, calendar: Calendar, scopeFrom: Option<Time>, scopeThrough: Option<Time>,
                     alias: string, month: Month, x: Time)
    requires Consecutive(calendar) && During(calendar, month, x)
    ensures Reaches(ScopeRecord(t, calendar, scopeFrom, scopeThrough), alias, x)
       <==> Denotes(t, alias, month) && Within(scopeFrom, scopeThrough, x)
  {
    if t.fromMonth.Some? {
      MonthsAround(calendar, month, t.fromMonth.value, x);
    }
    if t.throughMonth.Some? {
      MonthsAround(calendar, month, t.throughMonth.value, x);
    }
  }

  /** One scope of the plan reads this instant of the conversation, and no other does. */
  ghost predicate OnlyReader(plan: Plan, alias: string, x: Time, s: nat, p: nat) {
    && s < |plan.shards| && p < |plan.shards[s]| && Reaches(plan.shards[s][p], alias, x)
    && forall i, j :: 0 <= i < |plan.shards| && 0 <= j < |plan.shards[i]| && (i, j) != (s, p) ==>
         !Reaches(plan.shards[i][j], alias, x)
  }

  /** Every instant of a kept conversation-month within the bounds is read by exactly one scope. */
  lemma InstantReadOnce(plan: Plan, a: PlanArguments, loaded: seq<Conversation>, kept: seq<Conversation>,
                        shards: seq<seq<Task>>,
                        c: Conversation, month: Month, x: Time)
    returns (s: nat, p: nat)
    requires MadeFrom(plan, a, loaded, kept, shards) && Consecutive(a.calendar)
    requires c in kept && HasMonth(KeptMonths(a.config, c), month)
    requires During(a.calendar, month, x) && Within(a.scopeFrom, a.scopeThrough, x)
    ensures OnlyReader(plan, c.alias, x, s, p)
  {
    assert ReadOnce(shards, c.alias, month);
    s, p :| s < |shards| && p < |shards[s]| && Denotes(shards[s][p], c.alias, month)
      && OnlyAt(shards, c.alias, month, s, p);
    forall i, j | 0 <= i < |plan.shards| && 0 <= j < |plan.shards[i]|
      ensures Reaches(plan.shards[i][j], c.alias, x) <==> Denotes(shards[i][j], c.alias, month)
    {
      RecordReaches(plan, a, shards, i, j, c.alias, month, x);
    }
  }

  lemma RecordReaches(plan: Plan, a: PlanArguments, shards: seq<seq<Task>>, i: nat, j: nat, alias: string,
                      month: Month, x: Time)
    requires RecordsShards(plan, shards, a.calendar, a.scopeFrom, a.scopeThrough) && i < |shards|
      && j < |plan.shards[i]|
    requires Consecutive(a.calendar) && During(a.calendar, month, x)
    ensures j < |shards[i]|
    ensures Reaches(plan.shards[i][j], alias, x)
       <==> Denotes(shards[i][j], alias, month) && Within(a.scopeFrom, a.scopeThrough, x)
  {
    assert AreRecords(plan.shards[i], shards[i], a.calendar, a.scopeFrom, a.scopeThrough);
    ScopeReaches(shards[i][j], a.calendar, a.scopeFrom, a.scopeThrough, alias, month, x);
  }

  /** What a scope reads is of a kept conversation, within the bounds, and in no month that a gate dropped. */
  lemma NothingElseIsRead(plan: Plan, a: PlanArguments, loaded: seq<Conversation>, kept: seq<Conversation>,
                          shards: seq<seq<Task>>,
                          i: nat, j: nat, alias: string, month: Month, x: Time)
    returns (c: Conversation)
    requires MadeFrom(plan, a, loaded, kept, shards) && Consecutive(a.calendar) && During(a.calendar, month, x)
    requires i < |plan.shards| && j < |plan.shards[i]| && Reaches(plan.shards[i][j], alias, x)
    ensures Within(a.scopeFrom, a.scopeThrough, x)
    ensures c in kept && c.alias == alias
    ensures Gated(a.config, c) ==> HasMonth(KeptMonths(a.config, c), month)
  {
    RecordReaches(plan, a, shards, i, j, alias, month, x);
    c := NamedIsKept(a.config, kept, shards, i, j, alias);
    if Gated(a.config, c) && !HasMonth(KeptMonths(a.config, c), month) {
      CoveredNowhere(shards, alias, month);
      assert false;
    }
  }

  lemma NamedIsKept(config: Config, kept: seq<Conversation>, shards: seq<seq<Task>>, i: nat, j: nat, alias: string)
    returns (c: Conversation)
    requires ExactPlan(config, kept, shards) && i < |shards| && j < |shards[i]| && alias in shards[i][j].conversations
    ensures c in kept && c.alias == alias
  {
    assert FittingShard(config, kept, shards[i]) && shards[i][j] in shards[i];
    assert Grounded(config, kept, shards[i][j], alias);
    c :| c in kept && c.alias == alias;
  }

  // ----- months that are not counted -----

  /** Every month with an instant between the bounds is counted. */
  ghost predicate CountsWindow(a: PlanArguments) {
    forall month, x :: During(a.calendar, month, x) && Within(a.scopeFrom, a.scopeThrough, x) ==>
      MonthInRange(month, a.fromMonth, a.throughMonth)
  }

  /** Counting from a month on misses nothing exactly when that month has begun at the lower bound. */
  lemma WindowIsCounted(a: PlanArguments, fromMonth: Month, from: Time)
    requires Consecutive(a.calendar) && a.calendar.first(0) <= from
    requires a.fromMonth == Some(fromMonth) && a.throughMonth == None
    requires a.scopeFrom == Some(from) && (a.scopeThrough.Some? ==> from <= a.scopeThrough.value)
    ensures CountsWindow(a) <==> a.calendar.first(fromMonth) <= from
  {
    var start := MonthOf(a.calendar, 0, from);
    MonthsAround(a.calendar, start, fromMonth, from);
    if fromMonth <= start {
      forall month, x | During(a.calendar, month, x) && Within(a.scopeFrom, a.scopeThrough, x)
        ensures fromMonth <= month
      {
        MonthsAround(a.calendar, month, fromMonth, x);
      }
    }
  }

  /**
    The month is taken from the UTC form of the bound, the counts are per month
    of the corpus time zone: no window is cut short exactly when no month of
    that zone begins later than the same month of UTC.
   */
  lemma WestOfUTCIsCutShort(calendar: Calendar, utc: Calendar, config: Config, rows: seq<Row>)
    requires Consecutive(calendar) && Consecutive(utc) && calendar.first(0) <= utc.first(1)
    ensures (forall month: Month, from: Time | During(utc, month, from) && calendar.first(0) <= from ::
               CountsWindow(PlanArguments(config, rows, Some(month), None, calendar, Some(from), None)))
       <==> forall month: Month :: 0 < month ==> calendar.first(month) <= utc.first(month)
  {
    forall month: Month, from: Time | During(utc, month, from) && calendar.first(0) <= from
      ensures CountsWindow(PlanArguments(config, rows, Some(month), None, calendar, Some(from), None))
         <==> calendar.first(month) <= from
    {
      WindowIsCounted(PlanArguments(config, rows, Some(month), None, calendar, Some(from), None), month, from);
    }
    forall month: Month | 0 < month
      ensures During(utc, month, utc.first(month)) && calendar.first(0) <= utc.first(month)
    {
      assert utc.first(month) <= utc.last(month);
      if 1 < month {
        LaterMonth(utc, 1, month);
      }
    }
  }

  /** A conversation without a row in a counted month is named by no scope. */
  lemma UncountedIsUnread(plan: Plan, a: PlanArguments, alias: string, i: nat, j: nat, x: Time)
    requires Planned(plan, a) && FirstRow(a.rows, a.fromMonth, a.throughMonth, alias).None?
    requires i < |plan.shards| && j < |plan.shards[i]|
    ensures !Reaches(plan.shards[i][j], alias, x)
  {
    var loaded: seq<Conversation>, kept: seq<Conversation>, shards: seq<seq<Task>> :|
      MadeFrom(plan, a, loaded, kept, shards);
    assert AreRecords(plan.shards[i], shards[i], a.calendar, a.scopeFrom, a.scopeThrough);
    if alias in shards[i][j].conversations {
      var c := NamedIsKept(a.config, kept, shards, i, j, alias);
      KeptHasRow(a, loaded, kept, c);
    }
  }

  lemma KeptHasRow(a: PlanArguments, loaded: seq<Conversation>, kept: seq<Conversation>, c: Conversation)
    requires Chosen(a, loaded, kept) && c in kept
    ensures FirstRow(a.rows, a.fromMonth, a.throughMonth, c.alias).Some?
  {
    assert Describes(Lookup(loaded, c.alias), a.rows, a.fromMonth, a.throughMonth, c.alias);
    assert c in loaded;
  }

  // ----- the last hours of a month -----

  /** One conversation with a message in the month, another with one in the month after. */
  function LateRows(month: Month): seq<Row> {
    [Row(month, "early", "Early", "direct", 1, 1), Row(month + 1, "later", "Later", "direct", 1, 1)]
  }

  function LateArguments(calendar: Calendar, month: Month, from: Time, through: Time): PlanArguments {
    PlanArguments(ONE_SHARD, LateRows(month), Some(month + 1), None, calendar, Some(from), Some(through))
  }

  lemma LateRowsMean(month: Month)
    ensures FirstRow(LateRows(month), Some(month + 1), None, "early") == None
    ensures FirstRow(LateRows(month), Some(month + 1), None, "later") == Some(LateRows(month)[1])
    ensures RowCount(LateRows(month), Some(month + 1), None, "later", month + 1, MessagesIn) == 1
  {
    var rows := LateRows(month);
    assert "early"[0] != "later"[0];
    RowsSnoc([], rows[0], Some(month + 1), None, "early");
    RowsSnoc([], rows[0], Some(month + 1), None, "later");
    RowsSnoc([rows[0]], rows[1], Some(month + 1), None, "early");
    RowsSnoc([rows[0]], rows[1], Some(month + 1), None, "later");
    assert [] + [rows[0]] == [rows[0]] && rows == [rows[0]] + [rows[1]];
  }

  /**
    The checkpoint lies in the last hours of a month where UTC already is in the
    next one. The window holds those hours and the sidecar records a message of
    that month, but a plan is made without the conversation, and no scope reads it.
   */
  lemma LateHoursAreSkipped(calendar: Calendar, month: Month, from: Time, through: Time, plan: Plan, i: nat, j: nat,
                            x: Time)
    requires Consecutive(calendar) && calendar.first(month) <= from <= x <= calendar.last(month) < through
    ensures !CountsWindow(LateArguments(calendar, month, from, through))
    ensures !NothingSurvives(LateArguments(calendar, month, from, through))
    ensures RowCount(LateRows(month), None, None, "early", month, MessagesIn) == 1
    ensures Planned(plan, LateArguments(calendar, month, from, through)) ==>
      i < |plan.shards| && j < |plan.shards[i]| ==> !Reaches(plan.shards[i][j], "early", x)
  {
    var a := LateArguments(calendar, month, from, through);
    LateRowsMean(month);
    EarlyIsRecorded(month);
    assert During(calendar, month, x) && Within(a.scopeFrom, a.scopeThrough, x);
    forall loaded | LoadedFrom(loaded, a.rows, a.fromMonth, a.throughMonth)
      ensures !Chosen(a, loaded, [])
    {
      assert Describes(Lookup(loaded, "later"), a.rows, a.fromMonth, a.throughMonth, "later");
      var c := Lookup(loaded, "later").value;
      assert CountOf(c.months, month + 1) == 1;
      CountedMonth(c.months, month + 1);
      assert c in loaded && Passes(ONE_SHARD, c);
    }
    if Planned(plan, a) && i < |plan.shards| && j < |plan.shards[i]| {
      UncountedIsUnread(plan, a, "early", i, j, x);
    }
  }

  lemma EarlyIsRecorded(month: Month)
    ensures RowCount(LateRows(month), None, None, "early", month, MessagesIn) == 1
  {
    var rows := LateRows(month);
    assert "early"[0] != "later"[0];
    RowsSnoc([], rows[0], None, None, "early");
    RowsSnoc([rows[0]], rows[1], None, None, "early");
    assert [] + [rows[0]] == [rows[0]] && rows == [rows[0]] + [rows[1]];
  }
}
