/** Conversations and scopes of work (scripts/personal-memory-parallel.py, `Conversation` and `Task`). */
module Tasks {
  import opened Sequences
  import opened Wrappers

  /** Calendar months are only ordered and compared, so their ordinal stands for them. */
  type Month = nat

  datatype MonthCount = MonthCount(month: Month, count: nat)

  /** `months` and `selfMonths` are dictionaries in insertion order: no month twice. */
  datatype Conversation = Conversation(
    alias: string, title: string, kind: string,
    messages: nat, selfMessages: nat,
    months: seq<MonthCount>, selfMonths: seq<MonthCount>)

  datatype Task = Task(
    conversations: seq<string>,
    messages: nat,
    labels: seq<string>,
    fromMonth: Option<Month>,
    throughMonth: Option<Month>)

  function CountOfMonth(m: MonthCount): nat {
    m.count
  }

  function Total(months: seq<MonthCount>): nat {
    SumBy(months, CountOfMonth)
  }
}
