/**
  Choosing conversations and cutting them into shards of scopes
  (scripts/personal-memory-parallel.py, `load_activity` and `command_plan`).

  A Python dictionary is a sequence of keys and values in insertion order.
 */
module WorkPlan {
  import opened Wrappers
  import opened Sequences
  import opened Tasks
  import opened Packing
  import opened Splitting
  import opened Coverage

  // ----- month dictionaries -----

  function CountOf(months: seq<MonthCount>, month: Month): nat {
    if months == [] then 0
    else if months[0].month == month then months[0].count
    else CountOf(months[1..], month)
  }

  predicate HasMonth(months: seq<MonthCount>, month: Month) {
    exists i :: 0 <= i < |months| && months[i].month == month
  }

  function MonthOf(m: MonthCount): Month {
    m.month
  }

  ghost predicate DistinctMonths(months: seq<MonthCount>) {
    DistinctBy(months, MonthOf)
  }

  /** `months[month] = months.get(month, 0) + count` */
  function AddCount(months: seq<MonthCount>, month: Month, count: nat): seq<MonthCount> {
    if months == [] then [MonthCount(month, count)]
    else if months[0].month == month then [MonthCount(month, months[0].count + count)] + months[1..]
    else [months[0]] + AddCount(months[1..], month, count)
  }

  lemma {:induction false} AddCountAdds(months: seq<MonthCount>, month: Month, count: nat)
    requires DistinctMonths(months)
    ensures Total(AddCount(months, month, count)) == Total(months) + count
    ensures forall m ::
      CountOf(AddCount(months, month, count), m) == CountOf(months, m) + (if m == month then count else 0)
    ensures forall m :: HasMonth(AddCount(months, month, count), m) <==> HasMonth(months, m) || m == month
    ensures DistinctMonths(AddCount(months, month, count))
  {
    var added := AddCount(months, month, count);
    if months == [] {
      assert added[1..] == [];
      assert added[0].month == month;
    } else if months[0].month == month {
      assert added[1..] == months[1..] && |added| == |months|;
      forall i | 0 <= i < |months|
        ensures added[i].month == months[i].month
      {
      }
      assert forall m :: HasMonth(months, m) ==> HasMonth(added, m);
    } else {
      AddCountAdds(months[1..], month, count);
      var tail := AddCount(months[1..], month, count);
      assert added[1..] == tail;
      HasMonthCons(months);
      HasMonthCons(added);
      DistinctCons(months[0], tail);
    }
  }

  lemma HasMonthCons(months: seq<MonthCount>)
    requires months != []
    ensures forall m :: HasMonth(months, m) <==> months[0].month == m || HasMonth(months[1..], m)
  {
    forall m
      ensures HasMonth(months, m) <==> months[0].month == m || HasMonth(months[1..], m)
    {
      if HasMonth(months, m) && months[0].month != m {
        var i :| 0 <= i < |months| && months[i].month == m;
        assert months[1..][i - 1].month == m;
      }
      if HasMonth(months[1..], m) {
        var i :| 0 <= i < |months[1..]| && months[1..][i].month == m;
        assert months[i + 1].month == m;
      }
    }
  }

  lemma DistinctCons(head: MonthCount, tail: seq<MonthCount>)
    requires DistinctMonths(tail) && !HasMonth(tail, head.month)
    ensures DistinctMonths([head] + tail)
  {
  }

  // ----- loading activity -----

  datatype Row = Row(month: Month, alias: string, title: string, kind: string, messageCount: nat, selfMessageCount: nat)

  predicate MonthInRange(month: Month, fromMonth: Option<Month>, throughMonth: Option<Month>): (r: bool)
    ensures r ==> (fromMonth.Some? ==> fromMonth.value <= month) && (throughMonth.Some? ==> month <= throughMonth.value)
    ensures (fromMonth.Some? ==> fromMonth.value <= month) && (throughMonth.Some? ==> month <= throughMonth.value) ==> r
  {
    !(fromMonth.Some? && month < fromMonth.value) && !(throughMonth.Some? && month > throughMonth.value)
  }

  predicate InRange(row: Row, fromMonth: Option<Month>, throughMonth: Option<Month>) {
    MonthInRange(row.month, fromMonth, throughMonth)
  }

  function MessagesIn(row: Row): nat {
    row.messageCount
  }

  function SelfMessagesIn(row: Row): nat {
    row.selfMessageCount
  }

  /** What the sidecar records for one conversation-month within the range, summed by `count`. */
  function RowCount(rows: seq<Row>, fromMonth: Option<Month>, throughMonth: Option<Month>, alias: string, month: Month,
                    count: Row -> nat): nat {
    if rows == [] then 0
    else
      var last := rows[|rows| - 1];
      RowCount(rows[..|rows| - 1], fromMonth, throughMonth, alias, month, count)
      + (if InRange(last, fromMonth, throughMonth) && last.alias == alias && last.month == month then count(last)
         else 0)
  }

  /** The first row of the conversation within the range. */
  function FirstRow(rows: seq<Row>, fromMonth: Option<Month>, throughMonth: Option<Month>, alias: string): Option<Row> {
    if rows == [] then None
    else
      var last := rows[|rows| - 1];
      match FirstRow(rows[..|rows| - 1], fromMonth, throughMonth, alias)
      case Some(row) => Some(row)
      case None => if InRange(last, fromMonth, throughMonth) && last.alias == alias then Some(last) else None
  }

  lemma RowsSnoc(rows: seq<Row>, row: Row, fromMonth: Option<Month>, throughMonth: Option<Month>, alias: string)
    ensures FirstRow(rows + [row], fromMonth, throughMonth, alias)
         == if FirstRow(rows, fromMonth, throughMonth, alias).Some? then FirstRow(rows, fromMonth, throughMonth, alias)
            else if InRange(row, fromMonth, throughMonth) && row.alias == alias then Some(row) else None
    ensures forall month, count ::
      RowCount(rows + [row], fromMonth, throughMonth, alias, month, count)
      == RowCount(rows, fromMonth, throughMonth, alias, month, count)
         + (if InRange(row, fromMonth, throughMonth) && row.alias == alias && row.month == month then count(row) else 0)
  {
    assert (rows + [row])[..|rows|] == rows;
  }

  function Find(conversations: seq<Conversation>, alias: string): (r: Option<nat>)
    ensures r.Some? ==> r.value < |conversations| && conversations[r.value].alias == alias
    ensures r.None? ==> forall c :: c in conversations ==> c.alias != alias
  {
    if conversations == [] then None
    else if conversations[0].alias == alias then Some(0)
    else match Find(conversations[1..], alias) case Some(i) => Some(i + 1) case None => None
  }

  ghost predicate WellFormed(c: Conversation) {
    DistinctMonths(c.months) && DistinctMonths(c.selfMonths)
    && c.messages == Total(c.months) && c.selfMessages == Total(c.selfMonths)
  }

  function AliasOf(c: Conversation): string {
    c.alias
  }

  ghost predicate DistinctAliases(cs: seq<Conversation>) {
    DistinctBy(cs, AliasOf)
  }

  ghost predicate Loaded(conversations: seq<Conversation>) {
    DistinctAliases(conversations)
    && forall c :: c in conversations ==> WellFormed(c)
  }

  /** The conversation is the one its rows describe: title and kind of the first, sums of all. */
  ghost predicate Describes(found: Option<Conversation>, rows: seq<Row>, fromMonth: Option<Month>,
                            throughMonth: Option<Month>, alias: string) {
    match found
    case None => FirstRow(rows, fromMonth, throughMonth, alias).None?
    case Some(c) =>
      && FirstRow(rows, fromMonth, throughMonth, alias).Some?
      && c.title == FirstRow(rows, fromMonth, throughMonth, alias).value.title
      && c.kind == FirstRow(rows, fromMonth, throughMonth, alias).value.kind
      && (forall m :: CountOf(c.months, m) == RowCount(rows, fromMonth, throughMonth, alias, m, MessagesIn))
      && (forall m :: CountOf(c.selfMonths, m) == RowCount(rows, fromMonth, throughMonth, alias, m, SelfMessagesIn))
  }

  function Lookup(conversations: seq<Conversation>, alias: string): Option<Conversation> {
    match Find(conversations, alias)
    case Some(i) => Some(conversations[i])
    case None => None
  }

  /** There is one conversation per alias within the range, and it is the one its rows describe. */
  ghost predicate LoadedFrom(conversations: seq<Conversation>, rows: seq<Row>, fromMonth: Option<Month>,
                             throughMonth: Option<Month>) {
    Loaded(conversations)
    && forall alias :: Describes(Lookup(conversations, alias), rows, fromMonth, throughMonth, alias)
  }

  function WithRow(c: Conversation, row: Row): Conversation {
    c.(messages := c.messages + row.messageCount,
       selfMessages := c.selfMessages + row.selfMessageCount,
       months := AddCount(c.months, row.month, row.messageCount),
       selfMonths := AddCount(c.selfMonths, row.month, row.selfMessageCount))
  }

  lemma WithRowCounts(c: Conversation, row: Row)
    requires WellFormed(c)
    ensures WellFormed(WithRow(c, row))
    ensures forall m ::
      CountOf(WithRow(c, row).months, m) == CountOf(c.months, m) + (if m == row.month then row.messageCount else 0)
    ensures forall m ::
      CountOf(WithRow(c, row).selfMonths, m)
        == CountOf(c.selfMonths, m) + (if m == row.month then row.selfMessageCount else 0)
  {
    AddCountAdds(c.months, row.month, row.messageCount);
    AddCountAdds(c.selfMonths, row.month, row.selfMessageCount);
  }

  lemma {:induction false} FindUnique(conversations: seq<Conversation>, i: nat)
    requires Loaded(conversations) && i < |conversations|
    ensures Find(conversations, conversations[i].alias) == Some(i)
  {
    if i > 0 {
      FindUnique(conversations[1..], i - 1);
    }
  }

  lemma FindReplaced(conversations: seq<Conversation>, i: nat, c: Conversation, alias: string)
    requires Loaded(conversations) && i < |conversations| && c.alias == conversations[i].alias && WellFormed(c)
    ensures Loaded(conversations[i := c])
    ensures Lookup(conversations[i := c], alias) == if alias == c.alias then Some(c) else Lookup(conversations, alias)
  {
    var replaced := conversations[i := c];
    FindUnique(replaced, i);
    if alias != c.alias {
      match Find(conversations, alias) {
        case Some(j) => FindUnique(replaced, j);
        case None =>
      }
    }
  }

  lemma FindAppended(conversations: seq<Conversation>, c: Conversation, alias: string)
    requires Loaded(conversations) && WellFormed(c) && forall d :: d in conversations ==> d.alias != c.alias
    ensures Loaded(conversations + [c])
    ensures Lookup(conversations + [c], alias) == if alias == c.alias then Some(c) else Lookup(conversations, alias)
  {
    var appended := conversations + [c];
    FindUnique(appended, |conversations|);
    if alias != c.alias {
      match Find(conversations, alias) {
        case Some(j) => FindUnique(appended, j);
        case None =>
      }
    }
  }

  /** A row out of range, or of another conversation, changes nothing that describes this one. */
  lemma OtherRow(found: Option<Conversation>, rows: seq<Row>, row: Row, fromMonth: Option<Month>,
                 throughMonth: Option<Month>, alias: string)
    requires Describes(found, rows, fromMonth, throughMonth, alias)
    requires !InRange(row, fromMonth, throughMonth) || row.alias != alias
    ensures Describes(found, rows + [row], fromMonth, throughMonth, alias)
  {
    assert (rows + [row])[..|rows|] == rows;
  }

  /** A row of a conversation in range is added to it. */
  lemma OwnRow(c: Conversation, rows: seq<Row>, row: Row, fromMonth: Option<Month>, throughMonth: Option<Month>)
    requires Describes(Some(c), rows, fromMonth, throughMonth, row.alias) && WellFormed(c)
      && InRange(row, fromMonth, throughMonth)
    ensures Describes(Some(WithRow(c, row)), rows + [row], fromMonth, throughMonth, row.alias)
  {
    assert (rows + [row])[..|rows|] == rows;
    WithRowCounts(c, row);
  }

  lemma {:induction false} NoRowsNoCount(rows: seq<Row>, fromMonth: Option<Month>, throughMonth: Option<Month>,
                                         alias: string, month: Month,
                                         count: Row -> nat)
    requires FirstRow(rows, fromMonth, throughMonth, alias).None?
    ensures RowCount(rows, fromMonth, throughMonth, alias, month, count) == 0
  {
    if rows != [] {
      NoRowsNoCount(rows[..|rows| - 1], fromMonth, throughMonth, alias, month, count);
    }
  }

  function EmptyFrom(row: Row): Conversation {
    Conversation(row.alias, row.title, row.kind, 0, 0, [], [])
  }

  /** The first row of a conversation in range gives it its title and kind. */
  lemma NewRow(rows: seq<Row>, row: Row, fromMonth: Option<Month>, throughMonth: Option<Month>)
    requires Describes(None, rows, fromMonth, throughMonth, row.alias) && InRange(row, fromMonth, throughMonth)
    ensures Describes(Some(WithRow(EmptyFrom(row), row)), rows + [row], fromMonth, throughMonth, row.alias)
  {
    assert (rows + [row])[..|rows|] == rows;
    WithRowCounts(EmptyFrom(row), row);
    var c := WithRow(EmptyFrom(row), row);
    forall m
      ensures CountOf(c.months, m) == RowCount(rows + [row], fromMonth, throughMonth, row.alias, m, MessagesIn)
      ensures CountOf(c.selfMonths, m) == RowCount(rows + [row], fromMonth, throughMonth, row.alias, m, SelfMessagesIn)
    {
      assert CountOf(EmptyFrom(row).months, m) == CountOf(EmptyFrom(row).selfMonths, m) == 0;
      NoRowsNoCount(rows, fromMonth, throughMonth, row.alias, m, MessagesIn);
      NoRowsNoCount(rows, fromMonth, throughMonth, row.alias, m, SelfMessagesIn);
    }
  }

  lemma SkippedRow(conversations: seq<Conversation>, rows: seq<Row>, row: Row, fromMonth: Option<Month>,
                   throughMonth: Option<Month>)
    requires LoadedFrom(conversations, rows, fromMonth, throughMonth) && !InRange(row, fromMonth, throughMonth)
    ensures LoadedFrom(conversations, rows + [row], fromMonth, throughMonth)
  {
    forall alias
      ensures Describes(Lookup(conversations, alias), rows + [row], fromMonth, throughMonth, alias)
    {
      OtherRow(Lookup(conversations, alias), rows, row, fromMonth, throughMonth, alias);
    }
  }

  lemma RowOfKnown(conversations: seq<Conversation>, rows: seq<Row>, row: Row, at: nat, fromMonth: Option<Month>,
                   throughMonth: Option<Month>)
    requires LoadedFrom(conversations, rows, fromMonth, throughMonth) && InRange(row, fromMonth, throughMonth)
    requires Find(conversations, row.alias) == Some(at)
    ensures LoadedFrom(conversations[at := WithRow(conversations[at], row)], rows + [row], fromMonth, throughMonth)
  {
    var changed := WithRow(conversations[at], row);
    var after := conversations[at := changed];
    WithRowCounts(conversations[at], row);
    FindReplaced(conversations, at, changed, row.alias);
    forall alias
      ensures Describes(Lookup(after, alias), rows + [row], fromMonth, throughMonth, alias)
    {
      FindReplaced(conversations, at, changed, alias);
      assert Describes(Lookup(conversations, alias), rows, fromMonth, throughMonth, alias);
      if alias == row.alias {
        OwnRow(conversations[at], rows, row, fromMonth, throughMonth);
      } else {
        OtherRow(Lookup(conversations, alias), rows, row, fromMonth, throughMonth, alias);
      }
    }
  }

  lemma RowOfNew(conversations: seq<Conversation>, rows: seq<Row>, row: Row, fromMonth: Option<Month>,
                 throughMonth: Option<Month>)
    requires LoadedFrom(conversations, rows, fromMonth, throughMonth) && InRange(row, fromMonth, throughMonth)
    requires Find(conversations, row.alias) == None
    ensures LoadedFrom(conversations + [WithRow(EmptyFrom(row), row)], rows + [row], fromMonth, throughMonth)
  {
    var added := WithRow(EmptyFrom(row), row);
    var after := conversations + [added];
    WithRowCounts(EmptyFrom(row), row);
    FindAppended(conversations, added, row.alias);
    forall alias
      ensures Describes(Lookup(after, alias), rows + [row], fromMonth, throughMonth, alias)
    {
      FindAppended(conversations, added, alias);
      assert Describes(Lookup(conversations, alias), rows, fromMonth, throughMonth, alias);
      if alias == row.alias {
        NewRow(rows, row, fromMonth, throughMonth);
      } else {
        OtherRow(Lookup(conversations, alias), rows, row, fromMonth, throughMonth, alias);
      }
    }
  }

  /** Reads the sidecar row by row into one conversation per alias. */
  method LoadActivity(rows: seq<Row>, fromMonth: Option<Month>, throughMonth: Option<Month>)
    returns (conversations: seq<Conversation>)
    ensures LoadedFrom(conversations, rows, fromMonth, throughMonth)
  {
    conversations := [];
    for i := 0 to |rows|
      invariant LoadedFrom(conversations, rows[..i], fromMonth, throughMonth)
    {
      var row := rows[i];
      assert rows[..i + 1] == rows[..i] + [row];
      if !InRange(row, fromMonth, throughMonth) {
        SkippedRow(conversations, rows[..i], row, fromMonth, throughMonth);
        continue;
      }
      match Find(conversations, row.alias) {
        case Some(at) =>
          RowOfKnown(conversations, rows[..i], row, at, fromMonth, throughMonth);
          conversations := conversations[at := WithRow(conversations[at], row)];
        case None =>
          RowOfNew(conversations, rows[..i], row, fromMonth, throughMonth);
          conversations := conversations + [WithRow(EmptyFrom(row), row)];
      }
    }
    assert rows[..|rows|] == rows;
  }

  // ----- choosing conversations -----

  /** Zero for `maxConversations`, `maxMessages` and `maxShardMessages` means no such limit. */
  datatype Config = Config(
    kinds: set<string>, groupMinSelfPerMonth: int, gatedKinds: set<string>, minSelfMessages: int,
    maxConversations: nat, maxMessages: nat, maxShardMessages: nat, shards: int)

  /** True when the conversation is kept month by month, not whole. */
  predicate Gated(config: Config, c: Conversation) {
    config.groupMinSelfPerMonth > 0 && c.kind in config.gatedKinds
  }

  function QuietFiltered(months: seq<MonthCount>, selfMonths: seq<MonthCount>, gate: int): (r: seq<MonthCount>)
    ensures forall m :: m in r ==> m in months
  {
    if months == [] then []
    else
      (if CountOf(selfMonths, months[0].month) >= gate then [months[0]] else [])
      + QuietFiltered(months[1..], selfMonths, gate)
  }

  function KeptMonths(config: Config, c: Conversation): seq<MonthCount> {
    if !Gated(config, c) then c.months
    else QuietFiltered(c.months, c.selfMonths, config.groupMinSelfPerMonth)
  }

  lemma {:induction false} QuietFilteredMeans(months: seq<MonthCount>, selfMonths: seq<MonthCount>, gate: int,
                                              m: MonthCount)
    ensures m in QuietFiltered(months, selfMonths, gate) <==> m in months && CountOf(selfMonths, m.month) >= gate
  {
    if months != [] {
      QuietFilteredMeans(months[1..], selfMonths, gate, m);
      assert months == [months[0]] + months[1..];
    }
  }

  /** All months are read, or, of a gated kind and with a gate, those with as many own messages as the gate asks. */
  lemma KeptMonthsMean(config: Config, c: Conversation, m: MonthCount)
    ensures m in KeptMonths(config, c) <==>
      m in c.months
      && (config.groupMinSelfPerMonth > 0 && c.kind in config.gatedKinds ==>
            CountOf(c.selfMonths, m.month) >= config.groupMinSelfPerMonth)
  {
    QuietFilteredMeans(c.months, c.selfMonths, config.groupMinSelfPerMonth, m);
  }

  lemma {:induction false} FilteredMonths(months: seq<MonthCount>, selfMonths: seq<MonthCount>, gate: int)
    requires DistinctMonths(months)
    ensures DistinctMonths(QuietFiltered(months, selfMonths, gate))
    ensures Total(QuietFiltered(months, selfMonths, gate)) <= Total(months)
  {
    if months != [] {
      FilteredMonths(months[1..], selfMonths, gate);
      var rest := QuietFiltered(months[1..], selfMonths, gate);
      SumByJoin(if CountOf(selfMonths, months[0].month) >= gate then [months[0]] else [], rest, CountOfMonth);
      SumBySnoc([], months[0], CountOfMonth);
      assert [] + [months[0]] == [months[0]];
      forall m | m in rest
        ensures m.month != months[0].month
      {
        var i :| 0 <= i < |months[1..]| && months[1..][i] == m;
        assert months[i + 1] == m;
      }
      assert !HasMonth(rest, months[0].month) by {
        assert forall i :: 0 <= i < |rest| ==> rest[i] in rest;
      }
      DistinctCons(months[0], rest);
    }
  }

  lemma KeptIsDistinct(config: Config, c: Conversation)
    requires WellFormed(c)
    ensures DistinctMonths(KeptMonths(config, c)) && Total(KeptMonths(config, c)) <= c.messages
  {
    FilteredMonths(c.months, c.selfMonths, config.groupMinSelfPerMonth);
  }

  function KeptSize(config: Config, c: Conversation): nat {
    Total(KeptMonths(config, c))
  }

  function SizeIn(config: Config): Conversation -> nat {
    (c: Conversation) => KeptSize(config, c)
  }

  function AllMessages(c: Conversation): nat {
    c.messages
  }

  function SelectedTotal(config: Config, cs: seq<Conversation>): nat {
    SumBy(cs, SizeIn(config))
  }

  function CorpusTotal(cs: seq<Conversation>): nat {
    SumBy(cs, AllMessages)
  }

  ghost predicate Passes(config: Config, c: Conversation) {
    c.messages != 0 && (config.kinds == {} || c.kind in config.kinds)
    && c.selfMessages >= config.minSelfMessages && KeptSize(config, c) != 0
  }

  datatype Dropped = Dropped(kind: nat, self: nat, empty: nat, quietMonth: nat)
  {
    function Sum(): nat {
      kind + self + empty + quietMonth
    }
  }

  ghost predicate KindAllowed(config: Config, c: Conversation) {
    config.kinds == {} || c.kind in config.kinds
  }

  /** Messages of a kind that is not wanted. */
  ghost function KindLoss(config: Config): Conversation -> nat {
    (c: Conversation) => if KindAllowed(config, c) then 0 else c.messages
  }

  /** Messages of a wanted kind, with too few own messages. */
  ghost function SelfLoss(config: Config): Conversation -> nat {
    (c: Conversation) => if KindAllowed(config, c) && c.selfMessages < config.minSelfMessages then c.messages else 0
  }

  /** Messages of quiet months in conversations that passed the other filters. */
  ghost function QuietLoss(config: Config): Conversation -> nat {
    (c: Conversation) =>
      if KindAllowed(config, c) && c.selfMessages >= config.minSelfMessages && KeptSize(config, c) <= c.messages
      then c.messages - KeptSize(config, c) else 0
  }

  /** Each message that was lost is counted under the first filter it failed. */
  ghost predicate Accounted(config: Config, done: seq<Conversation>, dropped: Dropped) {
    && dropped.empty == 0 && dropped.kind == SumBy(done, KindLoss(config))
    && dropped.self == SumBy(done, SelfLoss(config)) && dropped.quietMonth == SumBy(done, QuietLoss(config))
  }

  lemma AccountedNext(config: Config, cs: seq<Conversation>, i: nat, dropped: Dropped, after: Dropped)
    requires i < |cs| && Accounted(config, cs[..i], dropped) && after.empty == 0
    requires after.kind == dropped.kind + KindLoss(config)(cs[i])
    requires after.self == dropped.self + SelfLoss(config)(cs[i])
    requires after.quietMonth == dropped.quietMonth + QuietLoss(config)(cs[i])
    ensures Accounted(config, cs[..i + 1], after)
  {
    assert cs[..i + 1] == cs[..i] + [cs[i]];
    SumBySnoc(cs[..i], cs[i], KindLoss(config));
    SumBySnoc(cs[..i], cs[i], SelfLoss(config));
    SumBySnoc(cs[..i], cs[i], QuietLoss(config));
  }

  /** Keeps what passes every filter, and accounts for every message it drops. */
  method SelectConversations(config: Config, conversations: seq<Conversation>)
    returns (selected: seq<Conversation>, dropped: Dropped)
    requires Loaded(conversations)
    ensures DistinctAliases(selected)
    ensures forall c :: c in selected <==> c in conversations && Passes(config, c)
    ensures CorpusTotal(conversations) == SelectedTotal(config, selected) + dropped.Sum()
    ensures Accounted(config, conversations, dropped)
  {
    selected := [];
    dropped := Dropped(0, 0, 0, 0);
    for i := 0 to |conversations|
      invariant Selecting(config, conversations[..i], selected, dropped)
      invariant Accounted(config, conversations[..i], dropped)
    {
      var c := conversations[i];
      KeptIsDistinct(config, c);
      ghost var before := dropped;
      if c.messages == 0 {
        dropped := dropped.(empty := dropped.empty + c.messages);
        DropOne(config, conversations, i, selected, before, dropped);
        AccountedNext(config, conversations, i, before, dropped);
        continue;
      }
      if config.kinds != {} && c.kind !in config.kinds {
        dropped := dropped.(kind := dropped.kind + c.messages);
        DropOne(config, conversations, i, selected, before, dropped);
        AccountedNext(config, conversations, i, before, dropped);
        continue;
      }
      if c.selfMessages < config.minSelfMessages {
        dropped := dropped.(self := dropped.self + c.messages);
        DropOne(config, conversations, i, selected, before, dropped);
        AccountedNext(config, conversations, i, before, dropped);
        continue;
      }
      var size := KeptSize(config, c);
      dropped := dropped.(quietMonth := dropped.quietMonth + (c.messages - size));
      if size == 0 {
        DropOne(config, conversations, i, selected, before, dropped);
        AccountedNext(config, conversations, i, before, dropped);
        continue;
      }
      KeepOne(config, conversations, i, selected, before, dropped);
      AccountedNext(config, conversations, i, before, dropped);
      selected := selected + [c];
    }
    assert conversations[..|conversations|] == conversations;
  }

  ghost predicate Selecting(config: Config, done: seq<Conversation>, selected: seq<Conversation>, dropped: Dropped) {
    DistinctAliases(selected)
    && (forall c :: c in selected <==> c in done && Passes(config, c))
    && CorpusTotal(done) == SelectedTotal(config, selected) + dropped.Sum()
  }

  lemma DropOne(config: Config, cs: seq<Conversation>, i: nat, selected: seq<Conversation>, dropped: Dropped,
                after: Dropped)
    requires i < |cs| && Selecting(config, cs[..i], selected, dropped)
    requires !Passes(config, cs[i]) && after.Sum() == dropped.Sum() + cs[i].messages
    ensures Selecting(config, cs[..i + 1], selected, after)
  {
    PrefixSnoc(config, cs, i);
  }

  lemma KeepOne(config: Config, cs: seq<Conversation>, i: nat, selected: seq<Conversation>, dropped: Dropped,
                after: Dropped)
    requires DistinctAliases(cs) && i < |cs| && Selecting(config, cs[..i], selected, dropped)
    requires Passes(config, cs[i]) && after.Sum() + KeptSize(config, cs[i]) == dropped.Sum() + cs[i].messages
    ensures Selecting(config, cs[..i + 1], selected + [cs[i]], after)
  {
    PrefixSnoc(config, cs, i);
    SumBySnoc(selected, cs[i], SizeIn(config));
    DistinctSnoc(selected, cs, i);
  }

  lemma PrefixSnoc(config: Config, cs: seq<Conversation>, i: nat)
    requires i < |cs|
    ensures CorpusTotal(cs[..i + 1]) == CorpusTotal(cs[..i]) + cs[i].messages
    ensures forall c :: c in cs[..i + 1] <==> c in cs[..i] || c == cs[i]
  {
    assert cs[..i + 1] == cs[..i] + [cs[i]];
    SumBySnoc(cs[..i], cs[i], AllMessages);
  }

  lemma DistinctSnoc(chosen: seq<Conversation>, cs: seq<Conversation>, i: nat)
    requires DistinctAliases(chosen) && DistinctAliases(cs) && i < |cs|
    requires forall c :: c in chosen ==> c in cs[..i]
    ensures DistinctAliases(chosen + [cs[i]])
  {
    forall d | d in chosen
      ensures d.alias != cs[i].alias
    {
      var j :| 0 <= j < i && cs[..i][j] == d;
      assert cs[j] == d;
    }
  }

  function BySize(config: Config, selected: seq<Conversation>): seq<Conversation> {
    SortByKey(selected, (c: Conversation) => -(KeptSize(config, c) as int))
  }

  /** Sorting by size loses nothing and puts the largest first. */
  lemma BySizeKeepsAll(config: Config, selected: seq<Conversation>)
    requires DistinctAliases(selected)
    ensures multiset(BySize(config, selected)) == multiset(selected)
    ensures DistinctAliases(BySize(config, selected))
    ensures SelectedTotal(config, BySize(config, selected)) == SelectedTotal(config, selected)
    ensures forall c :: c in BySize(config, selected) <==> c in selected
    ensures LargestFirst(config, BySize(config, selected))
  {
    var sorted := BySize(config, selected);
    SortIsAscending(selected, (c: Conversation) => -(KeptSize(config, c) as int));
    DistinctPermutation(selected, sorted, AliasOf);
    SumByPermutation(selected, sorted, SizeIn(config));
    SameMembers(selected, sorted);
  }

  ghost predicate LargestFirst(config: Config, cs: seq<Conversation>) {
    forall i, j :: 0 <= i < j < |cs| ==> KeptSize(config, cs[j]) <= KeptSize(config, cs[i])
  }

  /** The `maxConversations` largest, or all of them. */
  function Largest(config: Config, selected: seq<Conversation>): seq<Conversation> {
    var sorted := BySize(config, selected);
    if 0 < config.maxConversations < |sorted| then sorted[..config.maxConversations] else sorted
  }

  /** What the message cap had spent on the conversations before position `i`. */
  function Spent(config: Config, cs: seq<Conversation>, kept: seq<Conversation>, i: nat): nat
    requires i <= |cs|
  {
    if i == 0 then 0
    else Spent(config, cs, kept, i - 1) + if cs[i - 1] in kept then KeptSize(config, cs[i - 1]) else 0
  }

  /** A conversation is skipped exactly when it would overflow the cap with those kept before it. */
  ghost predicate SkipsOverflowing(config: Config, cs: seq<Conversation>, kept: seq<Conversation>) {
    forall i :: 0 <= i < |cs| ==> KeptIfAffordable(config, cs, kept, i)
  }

  predicate KeptIfAffordable(config: Config, cs: seq<Conversation>, kept: seq<Conversation>, i: nat)
    requires i < |cs|
  {
    cs[i] in kept <==> Spent(config, cs, kept, i) + KeptSize(config, cs[i]) <= config.maxMessages
  }

  /** Which conversations the two caps keep. */
  ghost predicate Capped(config: Config, selected: seq<Conversation>, kept: seq<Conversation>) {
    var largest := Largest(config, selected);
    if config.maxMessages == 0 then kept == largest
    else
      IsSubsequence(kept, largest) && SkipsOverflowing(config, largest, kept)
      && SelectedTotal(config, kept) <= config.maxMessages
  }

  /** Largest first, then the optional caps; without caps nothing is lost. */
  method CapConversations(config: Config, selected: seq<Conversation>) returns (kept: seq<Conversation>)
    requires DistinctAliases(selected)
    ensures DistinctAliases(kept) && forall c :: c in kept ==> c in selected
    ensures Capped(config, selected, kept)
    ensures config.maxConversations == 0 && config.maxMessages == 0 ==> kept == BySize(config, selected)
    ensures config.maxConversations > 0 ==> |kept| <= config.maxConversations
  {
    kept := BySize(config, selected);
    BySizeKeepsAll(config, selected);
    if 0 < config.maxConversations < |kept| {
      kept := kept[..config.maxConversations];
    }
    if config.maxMessages > 0 {
      kept := WithinBudget(config, kept);
    }
  }

  /** No conversation left out by the conversation cap is larger than one it keeps. */
  lemma LargestAreKept(config: Config, selected: seq<Conversation>, kept: Conversation, lost: Conversation)
    requires DistinctAliases(selected)
    requires kept in Largest(config, selected) && lost in selected && lost !in Largest(config, selected)
    ensures KeptSize(config, lost) <= KeptSize(config, kept)
    ensures |Largest(config, selected)| == config.maxConversations
  {
    var sorted, largest := BySize(config, selected), Largest(config, selected);
    BySizeKeepsAll(config, selected);
    var i :| 0 <= i < |largest| && largest[i] == kept;
    var j := PlaceAfter(sorted, |largest|, lost);
    assert sorted[i] == kept;
  }

  lemma PlaceAfter<T>(s: seq<T>, n: nat, x: T) returns (j: nat)
    requires n <= |s| && x in s && x !in s[..n]
    ensures n <= j < |s| && s[j] == x
  {
    assert s == s[..n] + s[n..];
    var k :| 0 <= k < |s[n..]| && s[n..][k] == x;
    j := n + k;
  }

  lemma {:induction false} SpentNothing(config: Config, cs: seq<Conversation>, i: nat)
    requires i <= |cs|
    ensures Spent(config, cs, [], i) == 0
  {
    if i > 0 {
      SpentNothing(config, cs, i - 1);
    }
  }

  /** The cap keeps nothing only when no conversation fits it. */
  lemma SomethingIsKept(config: Config, cs: seq<Conversation>, kept: seq<Conversation>, c: Conversation)
    requires SkipsOverflowing(config, cs, kept) && c in cs && KeptSize(config, c) <= config.maxMessages
    ensures kept != []
  {
    var i :| 0 <= i < |cs| && cs[i] == c;
    SpentNothing(config, cs, i);
    assert KeptIfAffordable(config, cs, kept, i);
  }

  lemma {:induction false} SpentStays(config: Config, cs: seq<Conversation>, kept: seq<Conversation>, c: Conversation,
                                      i: nat)
    requires i <= |cs| && c !in cs[..i]
    ensures Spent(config, cs, kept + [c], i) == Spent(config, cs, kept, i)
  {
    if i > 0 {
      assert cs[..i] == cs[..i - 1] + [cs[i - 1]];
      SpentStays(config, cs, kept, c, i - 1);
    }
  }

  /** What the loop has decided about the first `i` conversations. */
  ghost predicate Budgeting(config: Config, cs: seq<Conversation>, kept: seq<Conversation>, running: nat, i: nat) {
    && i <= |cs| && IsSubsequence(kept, cs[..i])
    && running == Spent(config, cs, kept, i) == SelectedTotal(config, kept) <= config.maxMessages
    && (forall c :: c in kept ==> c in cs[..i])
    && forall j :: 0 <= j < i ==> KeptIfAffordable(config, cs, kept, j)
  }

  lemma NotYetSeen(cs: seq<Conversation>, i: nat)
    requires DistinctAliases(cs) && i < |cs|
    ensures cs[i] !in cs[..i]
  {
    forall d | d in cs[..i]
      ensures d != cs[i]
    {
      var j :| 0 <= j < i && cs[..i][j] == d;
      assert cs[j] == d && AliasOf(cs[j]) != AliasOf(cs[i]);
    }
  }

  lemma SkipOne(config: Config, cs: seq<Conversation>, kept: seq<Conversation>, running: nat, i: nat)
    requires DistinctAliases(cs) && i < |cs| && Budgeting(config, cs, kept, running, i)
    requires running + KeptSize(config, cs[i]) > config.maxMessages
    ensures Budgeting(config, cs, kept, running, i + 1)
  {
    NotYetSeen(cs, i);
    assert cs[..i + 1][..i] == cs[..i];
  }

  lemma SubsequenceSnoc(kept: seq<Conversation>, cs: seq<Conversation>, i: nat)
    requires i < |cs| && IsSubsequence(kept, cs[..i])
    ensures IsSubsequence(kept + [cs[i]], cs[..i + 1])
    ensures forall c :: c in cs[..i + 1] <==> c in cs[..i] || c == cs[i]
  {
    assert cs[..i + 1] == cs[..i] + [cs[i]];
    assert cs[..i + 1][..i] == cs[..i] && (kept + [cs[i]])[..|kept|] == kept;
  }

  lemma AffordOne(config: Config, cs: seq<Conversation>, kept: seq<Conversation>, running: nat, i: nat)
    requires DistinctAliases(cs) && i < |cs| && Budgeting(config, cs, kept, running, i)
    requires running + KeptSize(config, cs[i]) <= config.maxMessages
    ensures Budgeting(config, cs, kept + [cs[i]], running + KeptSize(config, cs[i]), i + 1)
  {
    NotYetSeen(cs, i);
    var c, after := cs[i], kept + [cs[i]];
    SubsequenceSnoc(kept, cs, i);
    SumBySnoc(kept, c, SizeIn(config));
    SpentStays(config, cs, kept, c, i);
    forall j | 0 <= j < i
      ensures KeptIfAffordable(config, cs, after, j)
    {
      DecisionStays(config, cs, kept, i, j);
    }
  }

  lemma DecisionStays(config: Config, cs: seq<Conversation>, kept: seq<Conversation>, i: nat, j: nat)
    requires DistinctAliases(cs) && j < i < |cs| && KeptIfAffordable(config, cs, kept, j)
    ensures KeptIfAffordable(config, cs, kept + [cs[i]], j)
  {
    assert AliasOf(cs[j]) != AliasOf(cs[i]);
    NotYetSeen(cs, i);
    assert cs[..j] == cs[..i][..j];
    SpentStays(config, cs, kept, cs[i], j);
  }

  method WithinBudget(config: Config, selected: seq<Conversation>) returns (kept: seq<Conversation>)
    requires DistinctAliases(selected)
    ensures DistinctAliases(kept) && forall c :: c in kept ==> c in selected
    ensures |kept| <= |selected| && SelectedTotal(config, kept) <= config.maxMessages
    ensures IsSubsequence(kept, selected) && SkipsOverflowing(config, selected, kept)
  {
    kept := [];
    var running: nat := 0;
    for i := 0 to |selected|
      invariant |kept| <= i && Budgeting(config, selected, kept, running, i) && DistinctAliases(kept)
    {
      var c := selected[i];
      var size := KeptSize(config, c);
      if running + size > config.maxMessages {
        SkipOne(config, selected, kept, running, i);
        continue;
      }
      AffordOne(config, selected, kept, running, i);
      DistinctSnoc(kept, selected, i);
      kept := kept + [c];
      running := running + size;
    }
    assert selected[..|selected|] == selected;
  }
}
