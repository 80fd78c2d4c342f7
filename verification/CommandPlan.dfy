/** The `plan` command as a whole (scripts/personal-memory-parallel.py, `command_plan`). */
module CommandPlan {
  import opened Wrappers
  import opened Sequences
  import opened Tasks
  import opened Packing
  import opened Coverage
  import opened WorkPlan
  import opened PlanTasks
  import opened Scopes

  datatype PlanFailure = NoConversationSurvived

  datatype Plan = Plan(shards: seq<seq<Scope>>, totalMessages: nat, corpusMessages: nat, dropped: Dropped)

  // ----- exactly one scope -----

  /** One scope of one shard reads the month, names the conversation once, and no other scope reads it. */
  ghost predicate ReadOnce(shards: seq<seq<Task>>, alias: string, month: Month) {
    exists s, p :: 0 <= s < |shards| && 0 <= p < |shards[s]|
      && Denotes(shards[s][p], alias, month) && Occurrences(shards[s][p].conversations, alias) == 1
      && OnlyAt(shards, alias, month, s, p)
  }

  ghost predicate OnlyAt(shards: seq<seq<Task>>, alias: string, month: Month, s: int, p: int) {
    forall i, j :: 0 <= i < |shards| && 0 <= j < |shards[i]| && (i, j) != (s, p) ==>
      !Denotes(shards[i][j], alias, month)
  }

  lemma {:induction false} CoveredInShards(shards: seq<seq<Task>>, alias: string, month: Month) returns (s: nat, p: nat)
    requires Cover(Flatten(shards), alias, month) == 1
    ensures s < |shards| && p < |shards[s]|
    ensures Denotes(shards[s][p], alias, month) && Occurrences(shards[s][p].conversations, alias) == 1
    ensures OnlyAt(shards, alias, month, s, p)
  {
    SumByJoin(shards[0], Flatten(shards[1..]), Reader(alias, month));
    if Cover(shards[0], alias, month) == 1 {
      s := 0;
      p := CoveredOnce(shards[0], alias, month);
      CoveredNowhere(shards[1..], alias, month);
      assert forall i, j :: 1 <= i < |shards| && 0 <= j < |shards[i]| ==> shards[i][j] == shards[1..][i - 1][j];
    } else {
      CoveredNever(shards[0], alias, month);
      s, p := CoveredInShards(shards[1..], alias, month);
      forall i, j | 0 <= i < |shards| && 0 <= j < |shards[i]| && (i, j) != (s + 1, p)
        ensures !Denotes(shards[i][j], alias, month)
      {
        if i > 0 {
          assert shards[i][j] == shards[1..][i - 1][j] && (i - 1, j) != (s, p);
        }
      }
      s := s + 1;
    }
  }

  lemma {:induction false} CoveredNowhere(shards: seq<seq<Task>>, alias: string, month: Month)
    requires Cover(Flatten(shards), alias, month) == 0
    ensures forall i, j :: 0 <= i < |shards| && 0 <= j < |shards[i]| ==> !Denotes(shards[i][j], alias, month)
  {
    if shards != [] {
      SumByJoin(shards[0], Flatten(shards[1..]), Reader(alias, month));
      CoveredNever(shards[0], alias, month);
      CoveredNowhere(shards[1..], alias, month);
      forall i, j | 0 <= i < |shards| && 0 <= j < |shards[i]|
        ensures !Denotes(shards[i][j], alias, month)
      {
        if i > 0 {
          assert shards[i][j] == shards[1..][i - 1][j];
        }
      }
    }
  }

  // ----- ordering a shard -----

  function FirstMonth(t: Task): int {
    match t.fromMonth
    case Some(m) => m + 1
    case None => 0
  }

  ghost predicate DistinctAliasesIn(t: Task) {
    forall alias :: Occurrences(t.conversations, alias) <= 1
  }

  /** Scopes without a first month come first, then by month; no window comes twice. */
  ghost predicate WellOrdered(shard: seq<Task>) {
    DistinctWindows(shard)
    && forall i, j :: 0 <= i < j < |shard| && shard[i].fromMonth.Some? ==>
         shard[j].fromMonth.Some? && shard[i].fromMonth.value <= shard[j].fromMonth.value
  }

  function WindowOf(t: Task): (Option<Month>, Option<Month>) {
    (t.fromMonth, t.throughMonth)
  }

  /** The shard reads what the group reads, one scope per window, in order. */
  ghost predicate ArrangedShard(shard: seq<Task>, group: seq<Task>) {
    WellOrdered(shard) && SameWork(shard, group) && forall t :: t in shard ==> ComesFrom(t, group)
  }

  method ArrangeShard(group: seq<Task>) returns (shard: seq<Task>)
    requires forall t :: t in group ==> t.conversations != []
    ensures ArrangedShard(shard, group)
  {
    var fused := MergeSameWindow(group);
    shard := SortByKey(fused, FirstMonth);
    SortIsAscending(fused, FirstMonth);
    SameMembers(shard, fused);
    SumByPermutation(shard, fused, MessagesOf);
    forall alias, month
      ensures Cover(shard, alias, month) == Cover(group, alias, month)
    {
      SumByPermutation(shard, fused, Reader(alias, month));
      assert Cover(fused, alias, month) == Cover(group, alias, month);
    }
    assert DistinctBy(fused, WindowOf);
    DistinctPermutation(fused, shard, WindowOf);
    assert forall i, j :: 0 <= i < j < |shard| ==> WindowOf(shard[i]) != WindowOf(shard[j]);
  }

  ghost predicate Arranged(shards: seq<seq<Task>>, groups: seq<seq<Task>>) {
    |shards| == |groups| && forall i :: 0 <= i < |shards| ==> ArrangedShard(shards[i], groups[i])
  }

  method ArrangeShards(groups: seq<seq<Task>>) returns (shards: seq<seq<Task>>)
    requires forall g, t :: g in groups && t in g ==> t.conversations != []
    ensures Arranged(shards, groups)
  {
    shards := [];
    for i := 0 to |groups|
      invariant |shards| == i && forall j :: 0 <= j < i ==> ArrangedShard(shards[j], groups[j])
    {
      assert groups[i] in groups;
      var shard := ArrangeShard(groups[i]);
      shards := shards + [shard];
    }
  }

  lemma {:induction false} ArrangedSameWork(shards: seq<seq<Task>>, groups: seq<seq<Task>>, alias: string, month: Month)
    requires Arranged(shards, groups)
    ensures Messages(Flatten(shards)) == Messages(Flatten(groups))
    ensures Cover(Flatten(shards), alias, month) == Cover(Flatten(groups), alias, month)
    decreases |shards|
  {
    if shards != [] {
      assert ArrangedShard(shards[0], groups[0]);
      assert Cover(shards[0], alias, month) == Cover(groups[0], alias, month);
      assert Arranged(shards[1..], groups[1..]);
      ArrangedSameWork(shards[1..], groups[1..], alias, month);
      SumByJoin(shards[0], Flatten(shards[1..]), MessagesOf);
      SumByJoin(groups[0], Flatten(groups[1..]), MessagesOf);
      SumByJoin(shards[0], Flatten(shards[1..]), Reader(alias, month));
      SumByJoin(groups[0], Flatten(groups[1..]), Reader(alias, month));
    }
  }

  // ----- the plan -----

  /** The share of one shard, rounded up. */
  function Share(config: Config, total: nat): nat {
    if config.maxShardMessages > 0 then config.maxShardMessages
    else
      var m := if config.shards < 1 then 1 else config.shards;
      var share := (total + m - 1) / m;
      if share < 1 then 1 else share
  }

  /** The smallest limit, one at least, that `m` shards need for the total. */
  ghost predicate IsEvenShare(total: nat, m: nat, limit: nat) {
    1 <= limit && total <= m * limit && (limit == 1 || m * (limit - 1) < total)
  }

  /** The limit that was asked for, or else the even share of the shards that were, of one when fewer were. */
  ghost predicate IsLimit(config: Config, total: nat, limit: nat) {
    && (config.maxShardMessages > 0 ==> limit == config.maxShardMessages)
    && (config.maxShardMessages == 0 && 1 <= config.shards ==> IsEvenShare(total, config.shards, limit))
    && (config.maxShardMessages == 0 && config.shards < 1 ==> IsEvenShare(total, 1, limit))
  }

  lemma RoundedUp(total: nat, m: nat)
    requires 1 <= m
    ensures IsEvenShare(total, m, if (total + m - 1) / m < 1 then 1 else (total + m - 1) / m)
  {
    var share := (total + m - 1) / m;
    assert total + m - 1 == m * share + (total + m - 1) % m;
    if share < 1 {
      assert m * share == 0;
    } else {
      assert m * (share - 1) == m * share - m;
    }
  }

  /** The share is the one limit there is. */
  lemma ShareIsLimit(config: Config, total: nat, limit: nat)
    ensures IsLimit(config, total, limit) <==> limit == Share(config, total)
  {
    if config.maxShardMessages == 0 {
      var m := if config.shards < 1 then 1 else config.shards;
      RoundedUp(total, m);
      OneEvenShare(total, m, limit, Share(config, total));
    }
  }

  lemma OneEvenShare(total: nat, m: nat, a: nat, b: nat)
    requires 1 <= m && IsEvenShare(total, m, b)
    ensures IsEvenShare(total, m, a) <==> a == b
  {
    if IsEvenShare(total, m, a) {
      if a < b {
        MulMonotone(m, a, b - 1);
      } else if b < a {
        MulMonotone(m, b, a - 1);
      }
    }
  }

  /** One scope per window, in order; each names kept conversations only, each once, in the window meant for it. */
  ghost predicate FittingShard(config: Config, cs: seq<Conversation>, shard: seq<Task>) {
    && WellOrdered(shard) && FittingWindows(config, cs, Share(config, SelectedTotal(config, cs)), shard)
    && forall t :: t in shard ==> DistinctAliasesIn(t) && GroundedTask(config, cs, t)
  }

  /** What a plan promises about the conversations it kept. */
  ghost predicate ExactPlan(config: Config, cs: seq<Conversation>, shards: seq<seq<Task>>) {
    && Messages(Flatten(shards)) == SelectedTotal(config, cs)
    && (forall c, m :: c in cs && HasMonth(KeptMonths(config, c), m) ==> ReadOnce(shards, c.alias, m))
    && (forall c, m :: c in cs && Gated(config, c) && !HasMonth(KeptMonths(config, c), m) ==>
        Cover(Flatten(shards), c.alias, m) == 0)
    && forall i :: 0 <= i < |shards| ==> FittingShard(config, cs, shards[i])
  }

  lemma ArrangedCover(tasks: seq<Task>, groups: seq<seq<Task>>, shards: seq<seq<Task>>)
    requires multiset(Flatten(groups)) == multiset(tasks) && Arranged(shards, groups)
    ensures Messages(Flatten(shards)) == Messages(tasks)
    ensures forall alias, month :: Cover(Flatten(shards), alias, month) == Cover(tasks, alias, month)
  {
    SumByPermutation(Flatten(groups), tasks, MessagesOf);
    ArrangedSameWork(shards, groups, "", 0);
    forall alias, month
      ensures Cover(Flatten(shards), alias, month) == Cover(tasks, alias, month)
    {
      SumByPermutation(Flatten(groups), tasks, Reader(alias, month));
      ArrangedSameWork(shards, groups, alias, month);
    }
  }

  lemma ArrangedIsExact(config: Config, cs: seq<Conversation>, tasks: seq<Task>, groups: seq<seq<Task>>,
                        shards: seq<seq<Task>>)
    requires ExactTasks(config, cs, tasks) && multiset(Flatten(groups)) == multiset(tasks) && Arranged(shards, groups)
    requires FittingWindows(config, cs, Share(config, SelectedTotal(config, cs)), tasks)
    ensures ExactPlan(config, cs, shards)
  {
    ArrangedCover(tasks, groups, shards);
    forall i | 0 <= i < |shards|
      ensures FittingShard(config, cs, shards[i])
    {
      ArrangedFits(config, cs, tasks, groups, shards, i);
    }
    forall c, m | c in cs && HasMonth(KeptMonths(config, c), m)
      ensures ReadOnce(shards, c.alias, m)
    {
      assert Cover(Flatten(shards), c.alias, m) == Cover(tasks, c.alias, m) == 1;
      var s, p := CoveredInShards(shards, c.alias, m);
    }
  }

  lemma ArrangedFits(config: Config, cs: seq<Conversation>, tasks: seq<Task>, groups: seq<seq<Task>>,
                     shards: seq<seq<Task>>, i: nat)
    requires ExactTasks(config, cs, tasks) && multiset(Flatten(groups)) == multiset(tasks) && Arranged(shards, groups)
    requires FittingWindows(config, cs, Share(config, SelectedTotal(config, cs)), tasks)
    requires forall a, m :: Cover(Flatten(shards), a, m) == Cover(tasks, a, m)
    requires i < |shards|
    ensures FittingShard(config, cs, shards[i])
  {
    assert ArrangedShard(shards[i], groups[i]);
    WindowsArranged(config, cs, Share(config, SelectedTotal(config, cs)), tasks, groups, shards, i);
    forall t | t in shards[i]
      ensures DistinctAliasesIn(t) && GroundedTask(config, cs, t)
    {
      ScopeIsGrounded(config, cs, tasks, groups, shards, i, t);
      forall alias
        ensures Occurrences(t.conversations, alias) <= 1
      {
        OccursOrNot(t.conversations, alias);
        if alias in t.conversations {
          AliasNamedOnce(config, cs, tasks, groups, shards, i, t, alias);
        }
      }
    }
  }

  /** Fusing scopes of one window keeps what windows conversations are read in. */
  lemma WindowsArranged(config: Config, cs: seq<Conversation>, limit: nat, tasks: seq<Task>, groups: seq<seq<Task>>,
                        shards: seq<seq<Task>>, i: nat)
    requires FittingWindows(config, cs, limit, tasks) && multiset(Flatten(groups)) == multiset(tasks)
      && Arranged(shards, groups)
    requires i < |shards|
    ensures FittingWindows(config, cs, limit, shards[i])
  {
    assert ArrangedShard(shards[i], groups[i]);
    SameMembers(Flatten(groups), tasks);
    forall c, t | c in cs && t in shards[i] && c.alias in t.conversations
      ensures FittingWindow(config, c, limit, t)
    {
      assert ComesFrom(t, groups[i]);
      var source :| source in groups[i] && SameWindow(source, t) && c.alias in source.conversations;
      MemberOfFlatten(groups, i, source);
      assert FittingWindow(config, c, limit, source);
    }
  }

  /** A scope names only kept conversations, each with a kept month in its window. */
  lemma ScopeIsGrounded(config: Config, cs: seq<Conversation>, tasks: seq<Task>, groups: seq<seq<Task>>,
                        shards: seq<seq<Task>>,
                        i: nat, t: Task)
    requires ExactTasks(config, cs, tasks) && multiset(Flatten(groups)) == multiset(tasks) && Arranged(shards, groups)
    requires i < |shards| && t in shards[i]
    ensures GroundedTask(config, cs, t)
  {
    assert ArrangedShard(shards[i], groups[i]) && ComesFrom(t, groups[i]);
    forall alias | alias in t.conversations
      ensures Grounded(config, cs, t, alias)
    {
      var source :| source in groups[i] && SameWindow(source, t) && alias in source.conversations;
      MemberOfFlatten(groups, i, source);
      SameMembers(Flatten(groups), tasks);
      assert GroundedTask(config, cs, source) && Grounded(config, cs, source, alias);
      var c, m :| c in cs && c.alias == alias && HasMonth(KeptMonths(config, c), m) && InWindow(source, m);
      assert InWindow(t, m);
    }
  }

  lemma AliasNamedOnce(config: Config, cs: seq<Conversation>, tasks: seq<Task>, groups: seq<seq<Task>>,
                       shards: seq<seq<Task>>,
                       i: nat, t: Task, alias: string)
    requires ExactTasks(config, cs, tasks) && multiset(Flatten(groups)) == multiset(tasks) && Arranged(shards, groups)
    requires forall a, m :: Cover(Flatten(shards), a, m) == Cover(tasks, a, m)
    requires i < |shards| && t in shards[i] && alias in t.conversations
    ensures Occurrences(t.conversations, alias) <= 1
  {
    assert ArrangedShard(shards[i], groups[i]) && ComesFrom(t, groups[i]);
    var source :| source in groups[i] && SameWindow(source, t) && alias in source.conversations;
    MemberOfFlatten(groups, i, source);
    SameMembers(Flatten(groups), tasks);
    assert GroundedTask(config, cs, source) && Grounded(config, cs, source, alias);
    var c, m :| c in cs && c.alias == alias && HasMonth(KeptMonths(config, c), m) && InWindow(source, m);
    MemberOfFlatten(shards, i, t);
    MemberReads(Flatten(shards), t, alias, m);
    assert Cover(tasks, alias, m) == 1;
  }

  function Record(shard: seq<Task>, calendar: Calendar, scopeFrom: Option<Time>,
                  scopeThrough: Option<Time>): (r: seq<Scope>)
    ensures AreRecords(r, shard, calendar, scopeFrom, scopeThrough)
  {
    seq(|shard|, i requires 0 <= i < |shard| => ScopeRecord(shard[i], calendar, scopeFrom, scopeThrough))
  }

  ghost predicate RecordsShards(plan: Plan, shards: seq<seq<Task>>, calendar: Calendar, scopeFrom: Option<Time>,
                                scopeThrough: Option<Time>) {
    |plan.shards| == |shards|
    && forall i :: 0 <= i < |shards| ==> AreRecords(plan.shards[i], shards[i], calendar, scopeFrom, scopeThrough)
  }

  /** No single conversation-month is heavier than one shard's share. */
  ghost predicate NoHugeMonth(config: Config, cs: seq<Conversation>, share: nat) {
    forall c :: c in cs ==> MonthsWithin(KeptMonths(config, c), share)
  }

  /**
    No more shards than were asked for, and with the default limit none heavier than twice the total divided by
    them, rounded up, month boundaries permitting.
   */
  ghost predicate Balanced(config: Config, cs: seq<Conversation>, shards: seq<seq<Task>>) {
    && (1 <= config.shards ==> BalancedOver(config, cs, shards, config.shards))
    && (config.shards < 1 ==> BalancedOver(config, cs, shards, 1))
  }

  ghost predicate BalancedOver(config: Config, cs: seq<Conversation>, shards: seq<seq<Task>>, m: nat) {
    && |shards| <= m
    && forall limit: nat ::
         IsEvenShare(SelectedTotal(config, cs), m, limit) && config.maxShardMessages == 0
         && NoHugeMonth(config, cs, limit) ==>
           forall i :: 0 <= i < |shards| ==> Messages(shards[i]) <= 2 * limit
  }

  /** Cuts, packs and arranges: every kept conversation-month in exactly one scope, in balanced shards. */
  method BuildShards(config: Config, cs: seq<Conversation>) returns (shards: seq<seq<Task>>)
    requires DistinctAliases(cs) && forall c :: c in cs ==> WellFormed(c) && KeptSize(config, c) != 0
    ensures ExactPlan(config, cs, shards) && Balanced(config, cs, shards)
  {
    var total := SelectedTotal(config, cs);
    var share := Share(config, total);
    var tasks := CutTasks(config, cs, share, Cap(config, cs, share));
    var groups := PackShards(tasks, config.shards);
    GroupsNameSomebody(config, cs, tasks, groups);
    shards := ArrangeShards(groups);
    ArrangedIsExact(config, cs, tasks, groups, shards);
    ArrangedIsBalanced(config, cs, tasks, groups, shards, if config.shards < 1 then 1 else config.shards);
  }

  lemma ArrangedIsBalanced(config: Config, cs: seq<Conversation>, tasks: seq<Task>, groups: seq<seq<Task>>,
                           shards: seq<seq<Task>>, m: nat)
    requires Messages(tasks) == SelectedTotal(config, cs) && Arranged(shards, groups)
    requires forall t :: t in tasks ==> Sized(t, Cap(config, cs, Share(config, SelectedTotal(config, cs))))
    requires m == (if config.shards < 1 then 1 else config.shards) && PackedInto(groups, tasks, m)
    ensures BalancedOver(config, cs, shards, m)
  {
    var total := SelectedTotal(config, cs);
    forall limit: nat, i | IsEvenShare(total, m, limit) && config.maxShardMessages == 0
      && NoHugeMonth(config, cs, limit)
                      && 0 <= i < |shards|
      ensures Messages(shards[i]) <= 2 * limit
    {
      ShareIsLimit(config, total, limit);
      assert IsShareLimit(tasks, m, limit);
      assert groups[i] in groups && ArrangedShard(shards[i], groups[i]);
    }
  }

  /** Exactly the conversations that pass the filters. */
  ghost predicate AreSelected(config: Config, conversations: seq<Conversation>, selected: seq<Conversation>) {
    DistinctAliases(selected) && forall c :: c in selected <==> c in conversations && Passes(config, c)
  }

  /** The conversations kept are those that pass the filters, all of them when there are no caps. */
  ghost predicate KeptFrom(config: Config, conversations: seq<Conversation>, kept: seq<Conversation>) {
    && DistinctAliases(kept)
    && (exists selected :: AreSelected(config, conversations, selected) && Capped(config, selected, kept))
    && (forall c :: c in kept ==> c in conversations && Passes(config, c))
    && (config.maxConversations == 0 && config.maxMessages == 0 ==>
          forall c :: c in conversations && Passes(config, c) ==> c in kept)
  }

  /** What a finished plan promises about the conversations it kept. */
  ghost predicate Promised(config: Config, plan: Plan, loaded: seq<Conversation>, kept: seq<Conversation>,
                           shards: seq<seq<Task>>) {
    && ExactPlan(config, kept, shards) && Balanced(config, kept, shards)
    && plan.totalMessages == SelectedTotal(config, kept) && plan.corpusMessages == CorpusTotal(loaded)
    && Accounted(config, loaded, plan.dropped)
    && (config.maxConversations == 0 && config.maxMessages == 0 ==>
          plan.corpusMessages == plan.totalMessages + plan.dropped.Sum())
  }

  /** What a plan is asked for; the rows are the activity of the corpus. */
  datatype PlanArguments = PlanArguments(
    config: Config, rows: seq<Row>, fromMonth: Option<Month>, throughMonth: Option<Month>,
    calendar: Calendar, scopeFrom: Option<Time>, scopeThrough: Option<Time>)

  /** The conversations loaded from the rows, and those of them that are kept. */
  ghost predicate Chosen(a: PlanArguments, loaded: seq<Conversation>, kept: seq<Conversation>) {
    LoadedFrom(loaded, a.rows, a.fromMonth, a.throughMonth) && KeptFrom(a.config, loaded, kept)
  }

  /** The plan records the shards that were built from the kept conversations. */
  ghost predicate MadeFrom(plan: Plan, a: PlanArguments, loaded: seq<Conversation>, kept: seq<Conversation>,
                           shards: seq<seq<Task>>) {
    && Chosen(a, loaded, kept) && kept != [] && Promised(a.config, plan, loaded, kept, shards)
    && RecordsShards(plan, shards, a.calendar, a.scopeFrom, a.scopeThrough)
  }

  /** The plan is the one its arguments ask for. */
  ghost predicate Planned(plan: Plan, a: PlanArguments) {
    exists loaded, kept, shards :: MadeFrom(plan, a, loaded, kept, shards)
  }

  ghost predicate NothingSurvives(a: PlanArguments) {
    exists loaded :: Chosen(a, loaded, [])
  }

  method MakePlan(a: PlanArguments) returns (r: Result<Plan, PlanFailure>)
    ensures r.Ok? ==> Planned(r.value, a)
    ensures r.Err? ==> NothingSurvives(a)
  {
    var conversations := LoadActivity(a.rows, a.fromMonth, a.throughMonth);
    var selected, dropped := SelectConversations(a.config, conversations);
    var kept := CapConversations(a.config, selected);
    BySizeKeepsAll(a.config, selected);
    SameMembers(BySize(a.config, selected), selected);
    assert AreSelected(a.config, conversations, selected);
    assert Chosen(a, conversations, kept);
    if kept == [] {
      return Err(NoConversationSurvived);
    }
    var shards := BuildShards(a.config, kept);
    var recorded := RecordAll(shards, a.calendar, a.scopeFrom, a.scopeThrough);
    var plan := Plan(recorded, SelectedTotal(a.config, kept), CorpusTotal(conversations), dropped);
    assert MadeFrom(plan, a, conversations, kept, shards);
    return Ok(plan);
  }

  function RecordAll(shards: seq<seq<Task>>, calendar: Calendar, scopeFrom: Option<Time>,
                     scopeThrough: Option<Time>): (r: seq<seq<Scope>>)
    ensures |r| == |shards|
    ensures forall i :: 0 <= i < |shards| ==> AreRecords(r[i], shards[i], calendar, scopeFrom, scopeThrough)
  {
    seq(|shards|, i requires 0 <= i < |shards| => Record(shards[i], calendar, scopeFrom, scopeThrough))
  }

  lemma GroupsNameSomebody(config: Config, cs: seq<Conversation>, tasks: seq<Task>, groups: seq<seq<Task>>)
    requires ExactTasks(config, cs, tasks) && multiset(Flatten(groups)) == multiset(tasks)
    ensures forall g, t :: g in groups && t in g ==> t.conversations != []
  {
    SameMembers(Flatten(groups), tasks);
    forall g, t | g in groups && t in g
      ensures t.conversations != []
    {
      var i :| 0 <= i < |groups| && groups[i] == g;
      MemberOfFlatten(groups, i, t);
      assert GroundedTask(config, cs, t);
    }
  }

  /** A bound on every kept month and on the share. */
  ghost function Cap(config: Config, cs: seq<Conversation>, share: nat): (cap: nat)
    ensures share <= cap && NoHugeMonth(config, cs, cap)
    ensures NoHugeMonth(config, cs, share) ==> cap == share
  {
    if NoHugeMonth(config, cs, share) then share
    else
      TotalBoundsMonths(config, cs);
      share + SelectedTotal(config, cs)
  }

  lemma {:induction false} MonthAtMostTotal(months: seq<MonthCount>, m: MonthCount)
    requires m in months
    ensures m.count <= Total(months)
  {
    if months[0] != m {
      MonthAtMostTotal(months[1..], m);
    }
  }

  lemma {:induction false} TotalBoundsMonths(config: Config, cs: seq<Conversation>)
    ensures NoHugeMonth(config, cs, SelectedTotal(config, cs))
  {
    if cs != [] {
      TotalBoundsMonths(config, cs[1..]);
      forall c, m | c in cs && m in KeptMonths(config, c)
        ensures m.count <= SelectedTotal(config, cs)
      {
        MonthAtMostTotal(KeptMonths(config, c), m);
      }
    }
  }

  // ----- a plan whose scopes cannot be told apart -----

  lemma {:induction false} AllTheSame(s: seq<string>, x: string)
    requires forall y :: y in s ==> y == x
    ensures Occurrences(s, x) == |s|
  {
    if s != [] {
      assert s[0] in s && forall y :: y in s[1..] ==> y in s;
      AllTheSame(s[1..], x);
    }
  }

  /** Of two conversations, one kept whole and one kept by the month, each has a scope of its own. */
  lemma ScopeOfOne(config: Config, cs: seq<Conversation>, shards: seq<seq<Task>>, c: Conversation, other: Conversation,
                   month: Month)
    returns (i: nat)
    requires ExactPlan(config, cs, shards) && |shards| == 1 && HasMonth(KeptMonths(config, c), month)
    requires c in cs && other in cs && forall d :: d in cs ==> d == c || d == other
    requires Gated(config, c) <==> !Gated(config, other)
    requires forall d :: d in cs && !Gated(config, d) ==>
      KeptSize(config, d) <= Share(config, SelectedTotal(config, cs))
    ensures i < |shards[0]| && shards[0][i].conversations == [c.alias] && InWindow(shards[0][i], month)
    ensures FittingWindow(config, c, Share(config, SelectedTotal(config, cs)), shards[0][i])
  {
    var limit := Share(config, SelectedTotal(config, cs));
    assert ReadOnce(shards, c.alias, month);
    var s;
    s, i :| 0 <= s < |shards| && 0 <= i < |shards[s]| && Denotes(shards[s][i], c.alias, month);
    var t := shards[0][i];
    assert t in shards[0] && FittingShard(config, cs, shards[0]);
    assert FittingWindow(config, c, limit, t);
    assert other.alias in t.conversations ==> FittingWindow(config, other, limit, t);
    forall alias | alias in t.conversations
      ensures alias == c.alias
    {
      assert Grounded(config, cs, t, alias);
    }
    AllTheSame(t.conversations, c.alias);
    assert Occurrences(t.conversations, c.alias) <= 1;
    assert t.conversations[0] in t.conversations;
  }

  /**
    A conversation kept whole and one kept by the month, in one shard, with
    bounds within that month: their scopes collide.
   */
  lemma OneMonthCollides(config: Config, cs: seq<Conversation>, shards: seq<seq<Task>>, whole: Conversation,
                         gated: Conversation,
                         month: Month, calendar: Calendar, scopeFrom: Time, scopeThrough: Time)
    returns (i: nat, j: nat)
    requires ExactPlan(config, cs, shards) && |shards| == 1
    requires whole in cs && gated in cs && forall d :: d in cs ==> d == whole || d == gated
    requires whole.alias != gated.alias && !Gated(config, whole) && Gated(config, gated)
    requires KeptSize(config, whole) <= Share(config, SelectedTotal(config, cs))
    requires HasMonth(KeptMonths(config, whole), month) && HasMonth(KeptMonths(config, gated), month)
    requires calendar.first(month) <= scopeFrom <= scopeThrough <= calendar.last(month)
    ensures i < |shards[0]| && j < |shards[0]|
    ensures shards[0][i].conversations == [whole.alias] && shards[0][j].conversations == [gated.alias]
    ensures Collide(shards[0][i], shards[0][j], calendar, Some(scopeFrom), Some(scopeThrough))
  {
    i := ScopeOfOne(config, cs, shards, whole, gated, month);
    j := ScopeOfOne(config, cs, shards, gated, whole, month);
  }

  lemma {:induction false} MemberAtMostTotal(config: Config, cs: seq<Conversation>, c: Conversation)
    requires c in cs
    ensures KeptSize(config, c) <= SelectedTotal(config, cs)
  {
    if cs[0] != c {
      MemberAtMostTotal(config, cs[1..], c);
    }
  }

  /** A plan is never made for nothing. */
  lemma PlannedHasMessages(plan: Plan, a: PlanArguments)
    requires Planned(plan, a)
    ensures plan.totalMessages > 0
  {
    var loaded: seq<Conversation>, kept: seq<Conversation>, shards: seq<seq<Task>> :|
      MadeFrom(plan, a, loaded, kept, shards);
    assert kept[0] in kept && Passes(a.config, kept[0]);
    MemberAtMostTotal(a.config, kept, kept[0]);
  }

  // ----- the plan of two rows -----

  /** One message of a contact and one of a group, both the account holder's own, in the same month. */
  function TwoRows(month: Month): seq<Row> {
    [Row(month, "contact", "Contact", "direct", 1, 1), Row(month, "group", "Group", "group", 1, 1)]
  }

  /** Groups are kept by the month, and there is one agent. */
  const ONE_SHARD := Config({}, 1, {"group"}, 0, 0, 0, 0, 1)

  /** What the two rows say of an alias. */
  lemma TwoRowsMean(month: Month, alias: string)
    ensures FirstRow(TwoRows(month), None, None, alias)
         == if alias == "contact" then Some(TwoRows(month)[0])
            else if alias == "group" then Some(TwoRows(month)[1]) else None
    ensures forall m, count :: alias == "contact" ==>
      RowCount(TwoRows(month), None, None, alias, m, count) == if m == month then count(TwoRows(month)[0]) else 0
    ensures forall m, count :: alias == "group" ==>
      RowCount(TwoRows(month), None, None, alias, m, count) == if m == month then count(TwoRows(month)[1]) else 0
  {
    var rows := TwoRows(month);
    assert "contact"[0] != "group"[0];
    RowsSnoc([], rows[0], None, None, alias);
    RowsSnoc([rows[0]], rows[1], None, None, alias);
    assert [] + [rows[0]] == [rows[0]] && rows == [rows[0]] + [rows[1]];
  }

  lemma {:induction false} CountedMonth(months: seq<MonthCount>, month: Month)
    requires CountOf(months, month) > 0
    ensures HasMonth(months, month) && Total(months) > 0
  {
    assert months == [months[0]] + months[1..];
    if months[0].month != month {
      CountedMonth(months[1..], month);
      HasMonthCons(months);
    }
  }

  /** A month with own messages passes the gate of one. */
  lemma {:induction false} FilteredCounts(months: seq<MonthCount>, selfMonths: seq<MonthCount>, month: Month)
    requires CountOf(months, month) > 0 && CountOf(selfMonths, month) >= 1
    ensures CountOf(QuietFiltered(months, selfMonths, 1), month) > 0
  {
    var rest := QuietFiltered(months[1..], selfMonths, 1);
    var all := QuietFiltered(months, selfMonths, 1);
    assert all == rest || (all[0] == months[0] && all[1..] == rest);
    if months[0].month != month {
      FilteredCounts(months[1..], selfMonths, month);
    }
  }

  /** Loaded from the two rows, both conversations pass, and there is no other. */
  lemma TwoAreLoaded(loaded: seq<Conversation>, month: Month) returns (contact: Conversation, group: Conversation)
    requires LoadedFrom(loaded, TwoRows(month), None, None)
    ensures contact in loaded && contact.alias == "contact" && !Gated(ONE_SHARD, contact) && Passes(ONE_SHARD, contact)
    ensures group in loaded && group.alias == "group" && Gated(ONE_SHARD, group) && Passes(ONE_SHARD, group)
    ensures HasMonth(KeptMonths(ONE_SHARD, contact), month) && HasMonth(KeptMonths(ONE_SHARD, group), month)
    ensures forall d :: d in loaded ==> d == contact || d == group
  {
    TwoRowsMean(month, "contact");
    TwoRowsMean(month, "group");
    assert Describes(Lookup(loaded, "contact"), TwoRows(month), None, None, "contact");
    assert Describes(Lookup(loaded, "group"), TwoRows(month), None, None, "group");
    assert "direct"[0] != "group"[0];
    contact, group := Lookup(loaded, "contact").value, Lookup(loaded, "group").value;
    assert CountOf(contact.months, month) == 1 && CountOf(group.months, month) == 1
      && CountOf(group.selfMonths, month) == 1;
    CountedMonth(contact.months, month);
    CountedMonth(group.months, month);
    FilteredCounts(group.months, group.selfMonths, month);
    CountedMonth(QuietFiltered(group.months, group.selfMonths, 1), month);
    forall d | d in loaded
      ensures d == contact || d == group
    {
      TwoRowsMean(month, d.alias);
      var i :| 0 <= i < |loaded| && loaded[i] == d;
      FindUnique(loaded, i);
      assert Describes(Lookup(loaded, d.alias), TwoRows(month), None, None, d.alias);
    }
  }

  /** Two scopes for different conversations that no report tells apart. */
  predicate SameIdentity(shard: seq<Scope>, i: nat, j: nat) {
    i < |shard| && j < |shard| && shard[i].conversations != shard[j].conversations
      && IdentityOf(shard[i]) == IdentityOf(shard[j])
  }

  function TwoRowArguments(calendar: Calendar, month: Month, scopeFrom: Time, scopeThrough: Time): PlanArguments {
    PlanArguments(ONE_SHARD, TwoRows(month), None, None, calendar, Some(scopeFrom), Some(scopeThrough))
  }

  /**
    Bounded within their month, the two rows have a plan, and any plan of theirs records two scopes of
    one identity.
   */
  lemma TwoRowsCollide(calendar: Calendar, month: Month, scopeFrom: Time, scopeThrough: Time, plan: Plan)
    requires Increasing(calendar.first) && Increasing(calendar.last)
    requires calendar.first(month) <= scopeFrom <= scopeThrough <= calendar.last(month)
    ensures !NothingSurvives(TwoRowArguments(calendar, month, scopeFrom, scopeThrough))
    ensures Planned(plan, TwoRowArguments(calendar, month, scopeFrom, scopeThrough)) ==>
      exists i, j :: |plan.shards| == 1 && SameIdentity(plan.shards[0], i, j)
  {
    var a := TwoRowArguments(calendar, month, scopeFrom, scopeThrough);
    forall loaded | LoadedFrom(loaded, a.rows, a.fromMonth, a.throughMonth)
      ensures !Chosen(a, loaded, [])
    {
      var contact, group := TwoAreLoaded(loaded, month);
    }
    if Planned(plan, a) {
      var loaded, kept, shards :| MadeFrom(plan, a, loaded, kept, shards);
      var i, j := MadeCollides(calendar, month, scopeFrom, scopeThrough, plan, loaded, kept, shards);
    }
  }

  lemma MadeCollides(calendar: Calendar, month: Month, scopeFrom: Time, scopeThrough: Time,
                     plan: Plan, loaded: seq<Conversation>, kept: seq<Conversation>, shards: seq<seq<Task>>)
    returns (i: nat, j: nat)
    requires Increasing(calendar.first) && Increasing(calendar.last)
    requires calendar.first(month) <= scopeFrom <= scopeThrough <= calendar.last(month)
    requires MadeFrom(plan, TwoRowArguments(calendar, month, scopeFrom, scopeThrough), loaded, kept, shards)
    ensures |plan.shards| == 1 && SameIdentity(plan.shards[0], i, j)
  {
    var contact, group := TwoAreLoaded(loaded, month);
    assert contact in kept && group in kept;
    MemberAtMostTotal(ONE_SHARD, kept, contact);
    assert ReadOnce(shards, contact.alias, month);
    i, j := OneMonthCollides(ONE_SHARD, kept, shards, contact, group, month, calendar, scopeFrom, scopeThrough);
    assert AreRecords(plan.shards[0], shards[0], calendar, Some(scopeFrom), Some(scopeThrough));
    IdentitiesCollide(shards[0][i], shards[0][j], calendar, Some(scopeFrom), Some(scopeThrough));
    assert "contact"[0] != "group"[0];
  }
}
