/**
  Browsing a source directly: requests are answered later, in any order, while
  the user goes on (Sources/GreenBubblesHistoryApp/HistoryBrowserModel.swift,
  `connectDirectSource` to `returnToLatestDirectMessages`,
  `openDirectSearchResult`, `loadDirectMessages` and `clearDirectState`).

  Every method is one step on the main actor: a user action, or the completion
  of a request that is in flight. What a request is answered with is arbitrary.
 */
module BrowserRequests {
  import opened Wrappers

  type Configuration = string
  type RequestID = nat

  /** A conversation of the list, or a message of a conversation. */
  datatype Item = Item(id: string, text: string)

  datatype Page = Page(items: seq<Item>, nextCursor: Option<string>)

  datatype Request =
    | Status(configuration: Configuration)
    | Conversations(configuration: Configuration, before: string)
    | Messages(configuration: Configuration, conversationID: string, cursor: Option<string>, appending: bool)
    | Hit(configuration: Configuration, conversationID: string, messageID: string)

  datatype Outcome<T> = Answered(value: T) | Cancelled | Failed

  // ----- chains of pages -----

  function Merge(existing: seq<Item>, items: seq<Item>): seq<Item> {
    if items == [] then existing
    else
      var last := |items| - 1;
      var front := Merge(existing, items[..last]);
      if Has(existing, items[last].id) then front else front + [items[last]]
  }

  predicate Has(messages: seq<Item>, id: string) {
    exists i :: 0 <= i < |messages| && messages[i].id == id
  }

  /** A page, and what it was asked for: the messages of a conversation, or with an empty subject the conversations. */
  datatype Served = Served(configuration: Configuration, subject: string, cursor: Option<string>, page: Page)

  /** A single message, and what it was asked for. */
  datatype ServedHit = ServedHit(configuration: Configuration, conversationID: string, messageID: string, item: Item)

  /** Each page was asked for with the cursor that the page before it gave; the first one without a cursor. */
  ghost predicate IsChain(chain: seq<Served>, configuration: Configuration, subject: string) {
    && (forall i :: 0 <= i < |chain| ==> chain[i].configuration == configuration && chain[i].subject == subject)
    && (chain != [] ==> chain[0].cursor == None)
    && (forall i :: 0 < i < |chain| ==> chain[i].cursor.Some? && chain[i].cursor == chain[i - 1].page.nextCursor)
  }

  /** All items of the pages in order, those left out whose identity an earlier page had. */
  ghost function Joined(chain: seq<Served>): seq<Item> {
    if chain == [] then []
    else Merge(Joined(chain[..|chain| - 1]), chain[|chain| - 1].page.items)
  }

  ghost function NextOf(chain: seq<Served>): Option<string> {
    if chain == [] then None else chain[|chain| - 1].page.nextCursor
  }

  ghost predicate DistinctItems(messages: seq<Item>) {
    forall i, j :: 0 <= i < j < |messages| ==> messages[i].id != messages[j].id
  }

  lemma {:induction false} MergeIsDistinct(existing: seq<Item>, items: seq<Item>)
    requires DistinctItems(existing) && DistinctItems(items)
    ensures DistinctItems(Merge(existing, items))
    ensures forall id :: Has(Merge(existing, items), id) <==> Has(existing, id) || Has(items, id)
  {
    if items != [] {
      var last := |items| - 1;
      var front, merged := Merge(existing, items[..last]), Merge(existing, items);
      MergeIsDistinct(existing, items[..last]);
      assert !Has(items[..last], items[last].id);
      forall id
        ensures Has(items, id) <==> Has(items[..last], id) || id == items[last].id
      {
        if i :| 0 <= i < |items| && items[i].id == id {
          assert i < last ==> items[..last][i].id == id;
        }
        if i :| 0 <= i < last && items[..last][i].id == id {
          assert items[i].id == id;
        }
        assert items[last].id == items[last].id;
      }
      forall id
        ensures Has(merged, id) <==> Has(front, id) || id == items[last].id
      {
        if Has(existing, items[last].id) {
          assert Has(front, items[last].id);
        } else {
          HasSnoc(front, items[last], id);
        }
      }
    }
  }

  /** The places of the items whose identity is new, in order. */
  ghost predicate AreNew(places: seq<nat>, existing: seq<Item>, items: seq<Item>) {
    && (forall i: nat :: i in places <==> i < |items| && forall e :: e in existing ==> e.id != items[i].id)
    && forall j, k :: 0 <= j < k < |places| ==> places[j] < places[k]
  }

  /** Merged are the items there were and, behind them, the new ones in their order. */
  ghost predicate IsMerged(merged: seq<Item>, existing: seq<Item>, items: seq<Item>, places: seq<nat>) {
    && AreNew(places, existing, items) && |merged| == |existing| + |places| && existing <= merged
    && forall k :: 0 <= k < |places| ==> places[k] < |items| && merged[|existing| + k] == items[places[k]]
  }

  lemma {:induction false} MergeMeans(existing: seq<Item>, items: seq<Item>) returns (places: seq<nat>)
    ensures IsMerged(Merge(existing, items), existing, items, places)
  {
    places := [];
    if items != [] {
      var last := |items| - 1;
      var front := MergeMeans(existing, items[..last]);
      NewUpTo(existing, items, front);
      if Has(existing, items[last].id) {
        places := front;
        SameMerged(Merge(existing, items), existing, items, places);
      } else {
        places := front + [last];
        OneMoreMerged(Merge(existing, items[..last]), existing, items, front);
      }
    }
  }

  lemma SameMerged(merged: seq<Item>, existing: seq<Item>, items: seq<Item>, places: seq<nat>)
    requires items != [] && IsMerged(merged, existing, items[..|items| - 1], places)
    requires AreNew(places, existing, items)
    ensures IsMerged(merged, existing, items, places)
  {
  }

  lemma OneMoreMerged(merged: seq<Item>, existing: seq<Item>, items: seq<Item>, places: seq<nat>)
    requires items != [] && IsMerged(merged, existing, items[..|items| - 1], places)
    requires AreNew(places + [|items| - 1], existing, items)
    ensures IsMerged(merged + [items[|items| - 1]], existing, items, places + [|items| - 1])
  {
    var all: seq<nat> := places + [|items| - 1];
    forall k | 0 <= k < |all|
      ensures all[k] < |items| && (merged + [items[|items| - 1]])[|existing| + k] == items[all[k]]
    {
      if k < |places| {
        assert merged[|existing| + k] == items[..|items| - 1][places[k]];
      }
    }
  }

  lemma HasMeans(existing: seq<Item>, id: string)
    ensures Has(existing, id) <==> exists e :: e in existing && e.id == id
  {
  }

  lemma NewUpTo(existing: seq<Item>, items: seq<Item>, front: seq<nat>)
    requires items != [] && AreNew(front, existing, items[..|items| - 1])
    ensures AreNew(if Has(existing, items[|items| - 1].id) then front else front + [|items| - 1], existing, items)
  {
    var last := |items| - 1;
    HasMeans(existing, items[last].id);
    forall k | 0 <= k < |front|
      ensures front[k] < last
    {
      assert front[k] in front;
    }
  }

  lemma HasSnoc(messages: seq<Item>, m: Item, id: string)
    ensures Has(messages + [m], id) <==> Has(messages, id) || id == m.id
  {
    var all := messages + [m];
    if i :| 0 <= i < |all| && all[i].id == id {
      assert i < |messages| ==> messages[i].id == id;
    }
    if i :| 0 <= i < |messages| && messages[i].id == id {
      assert all[i].id == id;
    }
    assert all[|messages|] == m;
  }

  ghost predicate DistinctPages(chain: seq<Served>) {
    forall i :: 0 <= i < |chain| ==> DistinctItems(chain[i].page.items)
  }

  /** What is joined has no duplicates as long as no single page has. */
  lemma {:induction false} JoinedIsDistinct(chain: seq<Served>)
    requires DistinctPages(chain)
    ensures DistinctItems(Joined(chain))
  {
    if chain != [] {
      JoinedIsDistinct(chain[..|chain| - 1]);
      MergeIsDistinct(Joined(chain[..|chain| - 1]), chain[|chain| - 1].page.items);
    } else {
      assert Joined(chain) == [];
    }
  }

  lemma ChainGrows(chain: seq<Served>, next: Served, configuration: Configuration, subject: string)
    requires IsChain(chain, configuration, subject)
    requires next.configuration == configuration && next.subject == subject
    requires if chain == [] then next.cursor == None else next.cursor.Some? && next.cursor == NextOf(chain)
    ensures IsChain(chain + [next], configuration, subject)
    ensures Joined(chain + [next]) == Merge(Joined(chain), next.page.items)
      && NextOf(chain + [next]) == next.page.nextCursor
  {
    assert (chain + [next])[..|chain|] == chain;
  }

  lemma {:induction false} MergeIntoNothing(items: seq<Item>)
    ensures Merge([], items) == items
  {
    if items != [] {
      MergeIntoNothing(items[..|items| - 1]);
      assert items == items[..|items| - 1] + [items[|items| - 1]];
    }
  }

  // ----- the state and its steps -----

  /** `chain` records the answers that the list was made from. */
  datatype ConversationPane = ConversationPane(
    items: seq<Item>, cursor: Option<string>, isLoading: bool, activeID: RequestID, chain: seq<Served>)

  /** `chain` and `hit` record the answers that the messages were made from. */
  datatype MessagePane = MessagePane(
    selected: Option<string>, items: seq<Item>, cursor: Option<string>, isSearchContext: bool,
    highlighted: Option<string>,
    isLoading: bool, activeID: RequestID, chain: seq<Served>, hit: Option<ServedHit>)

  datatype State = State(
    configuration: Option<Configuration>, isConnecting: bool, activeLoadID: RequestID,
    conversations: ConversationPane, messages: MessagePane,
    nextID: RequestID, inFlight: map<RequestID, Request>)

  datatype Event =
    | Connect(source: Option<Configuration>)
    | LoadMore
    | Select(conversationID: string)
    | LoadOlder
    | ReturnToLatest
    | Open(conversationID: string, messageID: string)
    | Close
    | Complete(id: RequestID, page: Outcome<Page>, item: Outcome<Item>)

  function NoConversations(activeID: RequestID): ConversationPane {
    ConversationPane([], None, false, activeID, [])
  }

  function NoMessages(activeID: RequestID): MessagePane {
    MessagePane(None, [], None, false, None, false, activeID, [], None)
  }

  const INITIAL := State(None, false, 0, NoConversations(1), NoMessages(2), 3, map[])

  function Cleared(s: State): State {
    State(None, false, s.nextID, NoConversations(s.nextID + 1), NoMessages(s.nextID + 2), s.nextID + 3, s.inFlight)
  }

  /** A new identity goes to a request. */
  function Started(s: State, request: Request): State {
    s.(nextID := s.nextID + 1, inFlight := s.inFlight[s.nextID := request])
  }

  /** Without `source` the credential could not be prepared. */
  function Connected(s: State, source: Option<Configuration>): State {
    var c := Cleared(s);
    if source.None? then c
    else Started(c.(configuration := source, isConnecting := true, activeLoadID := c.nextID), Status(source.value))
  }

  function MoreLoading(s: State): State {
    var pane := s.conversations;
    if s.configuration.None? || pane.cursor.None? || pane.isLoading then s
    else Started(s.(conversations := pane.(activeID := s.nextID, isLoading := true)),
                 Conversations(s.configuration.value, pane.cursor.value))
  }

  function MessagesLoading(s: State, conversationID: string, cursor: Option<string>, appending: bool): State {
    if s.configuration.None? then s
    else
      var kept := if appending then s.messages else s.messages.(items := [], cursor := None, chain := [], hit := None);
      var pane := kept.(activeID := s.nextID, isSearchContext := false, highlighted := None, isLoading := true);
      Started(s.(messages := pane), Messages(s.configuration.value, conversationID, cursor, appending))
  }

  function Selected(s: State, conversationID: string): State {
    MessagesLoading(s.(messages := s.messages.(selected := Some(conversationID))), conversationID, None, false)
  }

  function OlderLoading(s: State): State {
    var pane := s.messages;
    if pane.selected.None? || pane.cursor.None? || pane.isLoading || pane.isSearchContext then s
    else MessagesLoading(s, pane.selected.value, pane.cursor, true)
  }

  function LatestLoading(s: State): State {
    if s.messages.selected.None? then s else MessagesLoading(s, s.messages.selected.value, None, false)
  }

  function Opened(s: State, conversationID: string, messageID: string): State {
    if s.configuration.None? then s
    else
      var pane := MessagePane(Some(conversationID), [], None, true, Some(messageID), true, s.nextID, [], None);
      Started(s.(messages := pane), Hit(s.configuration.value, conversationID, messageID))
  }

  function StatusDone(s: State, id: RequestID, request: Request, outcome: Outcome<Page>): State
    requires request.Status?
  {
    match outcome
    case Answered(page) =>
      if s.activeLoadID != id || s.configuration != Some(request.configuration) then s
      else s.(isConnecting := false,
              conversations := s.conversations.(items := page.items, cursor := page.nextCursor,
                                                chain := [Served(request.configuration, "", None, page)]))
    case Cancelled => if s.activeLoadID == id then s.(isConnecting := false) else s
    case Failed => if s.activeLoadID == id then Cleared(s) else s
  }

  function ConversationsDone(s: State, id: RequestID, request: Request, outcome: Outcome<Page>): State
    requires request.Conversations?
  {
    var pane := s.conversations;
    match outcome
    case Answered(page) =>
      if pane.activeID != id || s.configuration != Some(request.configuration)
        || pane.cursor != Some(request.before) then s
      else s.(conversations := pane.(items := Merge(pane.items, page.items), cursor := page.nextCursor,
                                     isLoading := false,
                                     chain := pane.chain + [Served(request.configuration, "", Some(request.before),
                                                                   page)]))
    case _ => if pane.activeID == id then s.(conversations := pane.(isLoading := false)) else s
  }

  /** The guards of the completion of a message request. */
  predicate Passes(s: State, id: RequestID, request: Request)
    requires request.Messages? || request.Hit?
  {
    s.messages.activeID == id && s.messages.selected == Some(request.conversationID)
      && s.configuration == Some(request.configuration)
  }

  function MessagesDone(s: State, id: RequestID, request: Request, outcome: Outcome<Page>): State
    requires request.Messages?
  {
    var pane := s.messages;
    match outcome
    case Answered(page) =>
      if !Passes(s, id, request) then s
      else s.(messages := pane.(items := if request.appending then Merge(pane.items, page.items) else page.items,
                                cursor := page.nextCursor, isLoading := false,
                                chain := pane.chain + [Served(request.configuration, request.conversationID,
                                                              request.cursor, page)]))
    case _ => if pane.activeID == id then s.(messages := pane.(isLoading := false)) else s
  }

  function HitDone(s: State, id: RequestID, request: Request, outcome: Outcome<Item>): State
    requires request.Hit?
  {
    var pane := s.messages;
    match outcome
    case Answered(item) =>
      if !Passes(s, id, request) then s else s.(messages := pane.(
        items := [item], isLoading := false,
        hit := Some(ServedHit(request.configuration, request.conversationID, request.messageID, item))))
    case _ => if pane.activeID == id then s.(messages := pane.(isLoading := false)) else s
  }

  function Completed(s: State, id: RequestID, page: Outcome<Page>, item: Outcome<Item>): State {
    if id !in s.inFlight then s
    else
      var request, rest := s.inFlight[id], s.(inFlight := s.inFlight - {id});
      match request
      case Status(_) => StatusDone(rest, id, request, page)
      case Conversations(_, _) => ConversationsDone(rest, id, request, page)
      case Messages(_, _, _, _) => MessagesDone(rest, id, request, page)
      case Hit(_, _, _) => HitDone(rest, id, request, item)
  }

  function Step(s: State, e: Event): State {
    match e
    case Connect(source) => Connected(s, source)
    case LoadMore => MoreLoading(s)
    case Select(conversationID) => Selected(s, conversationID)
    case LoadOlder => OlderLoading(s)
    case ReturnToLatest => LatestLoading(s)
    case Open(conversationID, messageID) => Opened(s, conversationID, messageID)
    case Close => Cleared(s)
    case Complete(id, page, item) => Completed(s, id, page, item)
  }

  function Run(events: seq<Event>): State {
    if events == [] then INITIAL else Step(Run(events[..|events| - 1]), events[|events| - 1])
  }

  // ----- what every reachable state keeps -----

  /** The conversations are a run of pages under the current configuration. */
  ghost predicate ShowsConversations(configuration: Option<Configuration>, pane: ConversationPane) {
    if configuration.None? then pane.items == [] && pane.cursor == None && pane.chain == []
    else
      IsChain(pane.chain, configuration.value, "") && pane.items == Joined(pane.chain)
      && pane.cursor == NextOf(pane.chain)
  }

  /**
    The messages are a run of pages of the selected conversation under the
    current configuration, or the one hit that was opened: asked for under that
    configuration, in that conversation, with the highlighted identity.
   */
  ghost predicate ShowsMessages(configuration: Option<Configuration>, pane: MessagePane) {
    if configuration.None? || pane.selected.None? then
      pane.items == [] && pane.cursor == None && pane.chain == [] && pane.hit == None
    else if pane.isSearchContext then
      pane.cursor == None && pane.chain == [] && pane.highlighted.Some?
      && (if pane.hit.None? then pane.items == []
          else pane.items == [pane.hit.value.item]
               && pane.hit.value
                    == ServedHit(configuration.value, pane.selected.value, pane.highlighted.value, pane.hit.value.item))
    else
      IsChain(pane.chain, configuration.value, pane.selected.value) && pane.items == Joined(pane.chain)
      && pane.cursor == NextOf(pane.chain) && pane.hit == None
  }

  /** The request whose answer may still be shown is one for what is shown. */
  ghost predicate MessageRequestFits(configuration: Option<Configuration>, pane: MessagePane, request: Request) {
    match request
    case Messages(c, id, cursor, appending) =>
      && configuration == Some(c) && pane.selected == Some(id) && !pane.isSearchContext
      && cursor == pane.cursor
      && (if appending then cursor.Some? && pane.chain != [] else cursor == None && pane.chain == [])
    case Hit(c, id, message) =>
      configuration == Some(c) && pane.selected == Some(id) && pane.isSearchContext && pane.highlighted == Some(message)
    case _ => false
  }

  ghost predicate ConversationRequestFits(configuration: Option<Configuration>, pane: ConversationPane,
                                          request: Request) {
    match request
    case Conversations(c, before) => configuration == Some(c) && pane.cursor == Some(before) && pane.chain != []
    case _ => false
  }

  ghost predicate LoadRequestFits(configuration: Option<Configuration>, pane: ConversationPane, request: Request) {
    match request
    case Status(c) => configuration == Some(c) && pane.chain == []
    case _ => false
  }

  ghost predicate MessagesConsistent(s: State) {
    && ShowsMessages(s.configuration, s.messages) && s.messages.activeID < s.nextID
    && (s.messages.isLoading <==> s.messages.activeID in s.inFlight)
    && (s.messages.isLoading ==> MessageRequestFits(s.configuration, s.messages, s.inFlight[s.messages.activeID]))
  }

  ghost predicate ConversationsConsistent(s: State) {
    && ShowsConversations(s.configuration, s.conversations) && s.conversations.activeID < s.nextID
    && s.activeLoadID < s.nextID
    && (s.conversations.isLoading <==> s.conversations.activeID in s.inFlight)
    && (s.conversations.isLoading ==>
        ConversationRequestFits(s.configuration, s.conversations, s.inFlight[s.conversations.activeID]))
    && (s.isConnecting <==> s.activeLoadID in s.inFlight)
    && (s.isConnecting ==> LoadRequestFits(s.configuration, s.conversations, s.inFlight[s.activeLoadID]))
  }

  ghost predicate Consistent(s: State) {
    MessagesConsistent(s) && ConversationsConsistent(s) && forall id :: id in s.inFlight ==> id < s.nextID
  }

  /** A message or hit request that leaves concerns the conversations as little as what it does to the messages. */
  lemma ConversationsStay(s: State, id: RequestID, pane: MessagePane)
    requires ConversationsConsistent(s) && id in s.inFlight && (s.inFlight[id].Messages? || s.inFlight[id].Hit?)
    ensures ConversationsConsistent(s.(inFlight := s.inFlight - {id}, messages := pane))
  {
  }

  lemma MessagesStay(s: State, id: RequestID, pane: ConversationPane, isConnecting: bool)
    requires MessagesConsistent(s) && id in s.inFlight && (s.inFlight[id].Conversations? || s.inFlight[id].Status?)
    ensures MessagesConsistent(s.(inFlight := s.inFlight - {id}, conversations := pane, isConnecting := isConnecting))
  {
  }

  /** The active request passes its guards. */
  lemma ActivePasses(s: State, id: RequestID)
    requires Consistent(s) && id in s.inFlight && (s.inFlight[id].Messages? || s.inFlight[id].Hit?)
    ensures Passes(s, id, s.inFlight[id]) <==> s.messages.activeID == id
  {
  }

  lemma MessagesDoneKeeps(s: State, id: RequestID, outcome: Outcome<Page>)
    requires Consistent(s) && id in s.inFlight && s.inFlight[id].Messages?
    ensures Consistent(MessagesDone(s.(inFlight := s.inFlight - {id}), id, s.inFlight[id], outcome))
  {
    var request := s.inFlight[id];
    var after := MessagesDone(s.(inFlight := s.inFlight - {id}), id, request, outcome);
    ConversationsStay(s, id, after.messages);
    ActivePasses(s, id);
    if outcome.Answered? && s.messages.activeID == id {
      PageArrives(s.configuration, s.messages, request, outcome.value, after.messages);
    }
  }

  /** A page of the active request continues what is shown, or is all of it. */
  lemma PageArrives(configuration: Option<Configuration>, pane: MessagePane, request: Request, page: Page,
                    after: MessagePane)
    requires ShowsMessages(configuration, pane) && MessageRequestFits(configuration, pane, request) && request.Messages?
    requires after == pane.(items := if request.appending then Merge(pane.items, page.items) else page.items,
                            cursor := page.nextCursor, isLoading := false,
                            chain := pane.chain + [Served(request.configuration, request.conversationID,
                                                          request.cursor, page)])
    ensures ShowsMessages(configuration, after)
  {
    ChainGrows(pane.chain, Served(request.configuration, request.conversationID, request.cursor, page),
               request.configuration, request.conversationID);
    MergeIntoNothing(page.items);
  }

  lemma HitDoneKeeps(s: State, id: RequestID, outcome: Outcome<Item>)
    requires Consistent(s) && id in s.inFlight && s.inFlight[id].Hit?
    ensures Consistent(HitDone(s.(inFlight := s.inFlight - {id}), id, s.inFlight[id], outcome))
  {
    ConversationsStay(s, id, HitDone(s.(inFlight := s.inFlight - {id}), id, s.inFlight[id], outcome).messages);
    ActivePasses(s, id);
  }

  lemma ConversationsDoneKeeps(s: State, id: RequestID, outcome: Outcome<Page>)
    requires Consistent(s) && id in s.inFlight && s.inFlight[id].Conversations?
    ensures Consistent(ConversationsDone(s.(inFlight := s.inFlight - {id}), id, s.inFlight[id], outcome))
  {
    var request := s.inFlight[id];
    MessagesStay(s, id, ConversationsDone(s.(inFlight := s.inFlight - {id}), id, request, outcome).conversations,
                 s.isConnecting);
    if outcome.Answered? && s.conversations.activeID == id {
      ChainGrows(s.conversations.chain, Served(request.configuration, "", Some(request.before), outcome.value),
                 request.configuration, "");
    }
  }

  lemma StatusDoneKeeps(s: State, id: RequestID, outcome: Outcome<Page>)
    requires Consistent(s) && id in s.inFlight && s.inFlight[id].Status?
    ensures Consistent(StatusDone(s.(inFlight := s.inFlight - {id}), id, s.inFlight[id], outcome))
  {
    var request := s.inFlight[id];
    if outcome.Answered? && s.activeLoadID == id {
      var served := Served(request.configuration, "", None, outcome.value);
      ChainGrows([], served, request.configuration, "");
      assert [] + [served] == [served];
      MergeIntoNothing(outcome.value.items);
    }
  }

  lemma CompletionKeeps(s: State, id: RequestID, page: Outcome<Page>, item: Outcome<Item>)
    requires Consistent(s)
    ensures Consistent(Completed(s, id, page, item))
  {
    if id in s.inFlight {
      match s.inFlight[id] {
        case Status(_) => StatusDoneKeeps(s, id, page);
        case Conversations(_, _) => ConversationsDoneKeeps(s, id, page);
        case Messages(_, _, _, _) => MessagesDoneKeeps(s, id, page);
        case Hit(_, _, _) => HitDoneKeeps(s, id, item);
      }
    }
  }

  lemma ClosingKeeps(s: State)
    requires Consistent(s)
    ensures Consistent(Cleared(s))
  {
  }

  lemma ConnectingKeeps(s: State, source: Option<Configuration>)
    requires Consistent(s)
    ensures Consistent(Connected(s, source))
  {
    ClosingKeeps(s);
  }

  lemma LoadingMoreKeeps(s: State)
    requires Consistent(s)
    ensures Consistent(MoreLoading(s))
  {
  }

  lemma SelectingKeeps(s: State, conversationID: string)
    requires Consistent(s)
    ensures Consistent(Selected(s, conversationID))
  {
  }

  lemma ReturningKeeps(s: State)
    requires Consistent(s)
    ensures Consistent(LatestLoading(s))
  {
  }

  lemma LoadingOlderKeeps(s: State)
    requires Consistent(s)
    ensures Consistent(OlderLoading(s))
  {
  }

  lemma OpeningKeeps(s: State, conversationID: string, messageID: string)
    requires Consistent(s)
    ensures Consistent(Opened(s, conversationID, messageID))
  {
  }

  lemma StepKeeps(s: State, e: Event)
    requires Consistent(s)
    ensures Consistent(Step(s, e))
  {
    match e {
      case Connect(source) => ConnectingKeeps(s, source);
      case LoadMore => LoadingMoreKeeps(s);
      case Select(conversationID) => SelectingKeeps(s, conversationID);
      case LoadOlder => LoadingOlderKeeps(s);
      case ReturnToLatest => ReturningKeeps(s);
      case Open(conversationID, messageID) => OpeningKeeps(s, conversationID, messageID);
      case Close => ClosingKeeps(s);
      case Complete(id, page, item) => CompletionKeeps(s, id, page, item);
    }
  }

  /**
    In every interleaving of user actions and completions, only pages of what is selected, or the hit
    that was opened, are shown.
   */
  lemma {:induction false} StaleNeverShows(events: seq<Event>)
    ensures Consistent(Run(events))
  {
    if events != [] {
      StaleNeverShows(events[..|events| - 1]);
      StepKeeps(Run(events[..|events| - 1]), events[|events| - 1]);
    }
  }

  /** An answer that is not an active one changes nothing that is shown. */
  lemma StaleIsIgnored(s: State, id: RequestID, page: Outcome<Page>, item: Outcome<Item>)
    ensures id in s.inFlight && id != s.messages.activeID && id != s.conversations.activeID && id != s.activeLoadID ==>
      Completed(s, id, page, item) == s.(inFlight := s.inFlight - {id})
  {
  }

  predicate PassingAppend(s: State, id: RequestID) {
    id in s.inFlight && s.inFlight[id].Messages? && s.inFlight[id].appending && Passes(s, id, s.inFlight[id])
  }

  /** An older page that passes the guards of its completion always continues exactly where the messages end. */
  lemma OlderPageContinues(events: seq<Event>, id: RequestID)
    ensures var s := Run(events);
            PassingAppend(s, id) ==>
              s.messages.cursor == s.inFlight[id].cursor == NextOf(s.messages.chain) && s.messages.cursor.Some?
  {
    StaleNeverShows(events);
  }

  /** The conversations' own check of the cursor never fails once the identity is the active one. */
  lemma CursorCheckIsImplied(events: seq<Event>, id: RequestID)
    ensures var s := Run(events);
            id in s.inFlight && s.inFlight[id].Conversations? && s.conversations.activeID == id ==>
              s.conversations.cursor == Some(s.inFlight[id].before)
                && s.configuration == Some(s.inFlight[id].configuration)
  {
    StaleNeverShows(events);
  }

  /** Nothing is left loading forever: the active request is in flight, and any answer to it ends the loading. */
  lemma LoadingEnds(events: seq<Event>, page: Outcome<Page>, item: Outcome<Item>)
    ensures var s := Run(events);
            s.messages.isLoading ==>
              s.messages.activeID in s.inFlight && !Completed(s, s.messages.activeID, page, item).messages.isLoading
  {
    StaleNeverShows(events);
  }

  /** The messages shown have no duplicates, as long as no single page had. */
  lemma ShownAreDistinct(events: seq<Event>)
    ensures DistinctPages(Run(events).messages.chain) ==> DistinctItems(Run(events).messages.items)
  {
    StaleNeverShows(events);
    if DistinctPages(Run(events).messages.chain) {
      JoinedIsDistinct(Run(events).messages.chain);
    }
  }

  // ----- what the actions mean on a consistent state -----

  lemma MoreNeedsSource(s: State)
    requires Consistent(s)
    ensures s.configuration.None? ==> s.conversations.cursor.None?
  {
  }

  lemma SelectedMeans(s: State, conversationID: string)
    requires Consistent(s)
    ensures Consistent(Selected(s, conversationID)) && Selected(s, conversationID).messages.items == []
    ensures Selected(s, conversationID).messages.activeID !in s.inFlight
  {
    SelectingKeeps(s, conversationID);
  }

  lemma LatestMeans(s: State)
    requires Consistent(s)
    ensures Consistent(LatestLoading(s)) && LatestLoading(s).messages.items == []
    ensures LatestLoading(s).messages.activeID !in s.inFlight
  {
    ReturningKeeps(s);
  }

  /** A cursor is there only next to pages of a selected conversation. */
  lemma OlderMeans(s: State)
    requires Consistent(s)
    ensures Consistent(OlderLoading(s))
    ensures s.messages.cursor.Some? ==>
      s.configuration.Some? && s.messages.selected.Some? && !s.messages.isSearchContext
    ensures forall id :: id in s.inFlight ==> id < s.nextID
  {
    LoadingOlderKeeps(s);
  }

  lemma RemovedIsConsistent(s: State, id: RequestID)
    requires Consistent(s) && s.activeLoadID == id && id in s.inFlight && s.inFlight[id].Status?
    ensures Consistent(s.(inFlight := s.inFlight - {id}, isConnecting := false))
  {
    StatusDoneKeeps(s, id, Cancelled);
  }

  // ----- the model object -----

  class BrowserModel {
    var configuration: Option<Configuration>
    var isConnecting: bool
    var activeLoadID: RequestID
    var conversations: ConversationPane
    var messages: MessagePane
    var nextID: RequestID
    var inFlight: map<RequestID, Request>

    function Now(): State
      reads this
    {
      State(configuration, isConnecting, activeLoadID, conversations, messages, nextID, inFlight)
    }

    constructor ()
      ensures Now() == INITIAL
    {
      configuration, isConnecting := None, false;
      conversations, messages := NoConversations(1), NoMessages(2);
      activeLoadID, nextID, inFlight := 0, 3, map[];
    }

    /** No request of `before` is an active one, so no answer to it can show. */
    ghost predicate Supersedes(before: map<RequestID, Request>)
      reads this
    {
      messages.activeID !in before && conversations.activeID !in before && activeLoadID !in before
    }

    /** Forgets everything; whatever is in flight will never show. */
    method ClearDirectState()
      requires Consistent(Now())
      modifies this
      ensures Consistent(Now()) && Now() == Cleared(old(Now()))
      ensures Supersedes(inFlight) && inFlight == old(inFlight)
      ensures configuration == None && messages.items == [] && conversations.items == [] && messages.selected == None
      ensures !isConnecting && !conversations.isLoading && !messages.isLoading
    {
      configuration, isConnecting := None, false;
      activeLoadID := nextID;
      conversations := NoConversations(nextID + 1);
      messages := NoMessages(nextID + 2);
      nextID := nextID + 3;
      ClosingKeeps(old(Now()));
    }

    /** Sends a request under a new identity. */
    method Start(request: Request) returns (id: RequestID)
      modifies this`nextID, this`inFlight
      ensures id == old(nextID) && nextID == id + 1 && inFlight == old(inFlight)[id := request]
    {
      id := nextID;
      nextID := nextID + 1;
      inFlight := inFlight[id := request];
    }

    /** Shows nothing of the source before; of what is in flight only the new status request can show. */
    method ConnectDirectSource(source: Option<Configuration>)
      requires Consistent(Now())
      modifies this
      ensures Consistent(Now()) && Now() == Connected(old(Now()), source)
      ensures Supersedes(old(inFlight)) && configuration == source
      ensures messages.items == [] && conversations.items == [] && messages.selected == None
      ensures isConnecting == source.Some?
      ensures inFlight == if source.Some? then old(inFlight)[activeLoadID := Status(source.value)] else old(inFlight)
    {
      ClearDirectState();
      if source.None? {
        return;
      }
      configuration := source;
      isConnecting := true;
      activeLoadID := Start(Status(source.value));
      ConnectingKeeps(old(Now()), source);
    }

    /** Keeps what is shown; asks for what follows it unless nothing does or it was asked for already. */
    method LoadMoreDirectConversations()
      requires Consistent(Now())
      modifies this
      ensures Consistent(Now()) && Now() == MoreLoading(old(Now()))
      ensures conversations.items == old(conversations.items) && messages == old(messages)
      ensures old(conversations.cursor).None? || old(conversations.isLoading) ==> Now() == old(Now())
      ensures old(conversations.cursor).Some? && !old(conversations.isLoading) ==>
        conversations.activeID !in old(inFlight)
        && inFlight == old(inFlight)[conversations.activeID := Conversations(configuration.value,
            old(conversations.cursor).value)]
    {
      MoreNeedsSource(Now());
      if configuration.None? || conversations.cursor.None? || conversations.isLoading {
        return;
      }
      var requestID := Start(Conversations(configuration.value, conversations.cursor.value));
      conversations := conversations.(activeID := requestID, isLoading := true);
      LoadingMoreKeeps(old(Now()));
    }

    /** Nothing of another conversation stays, and of what is in flight only the new request can show here. */
    method SelectDirectConversation(conversationID: string)
      requires Consistent(Now())
      modifies this
      ensures Consistent(Now()) && Now() == Selected(old(Now()), conversationID)
      ensures messages.selected == Some(conversationID) && messages.items == [] && conversations == old(conversations)
      ensures messages.activeID !in old(inFlight)
      ensures configuration.Some? ==>
        inFlight == old(inFlight)[messages.activeID := Messages(configuration.value, conversationID, None, false)]
    {
      SelectedMeans(Now(), conversationID);
      messages := messages.(selected := Some(conversationID));
      LoadDirectMessages(conversationID, None, false);
    }

    /** Keeps what is shown; asks for what precedes it, once, and never next to a hit. */
    method LoadOlderDirectMessages()
      requires Consistent(Now())
      modifies this
      ensures Consistent(Now()) && Now() == OlderLoading(old(Now()))
      ensures messages.items == old(messages.items) && messages.selected == old(messages.selected)
        && conversations == old(conversations)
      ensures old(messages.cursor).None? || old(messages.isLoading) ==> Now() == old(Now())
      ensures old(messages.cursor).Some? && !old(messages.isLoading) ==>
        messages.activeID !in old(inFlight) && messages.selected.Some?
        && inFlight == old(inFlight)[messages.activeID := Messages(configuration.value, messages.selected.value,
                                                                   old(messages.cursor), true)]
    {
      OlderMeans(Now());
      if messages.selected.None? || messages.cursor.None? || messages.isLoading || messages.isSearchContext {
        return;
      }
      LoadDirectMessages(messages.selected.value, messages.cursor, true);
    }

    /** Leaves the hit or the older pages, and starts the selected conversation over. */
    method ReturnToLatestDirectMessages()
      requires Consistent(Now())
      modifies this
      ensures Consistent(Now()) && Now() == LatestLoading(old(Now()))
      ensures messages.selected == old(messages.selected) && messages.items == [] && conversations == old(conversations)
      ensures messages.activeID !in old(inFlight)
      ensures configuration.Some? && messages.selected.Some? ==>
        inFlight == old(inFlight)[messages.activeID := Messages(configuration.value, messages.selected.value, None,
                                                                false)]
    {
      LatestMeans(Now());
      if messages.selected.None? {
        return;
      }
      LoadDirectMessages(messages.selected.value, None, false);
    }

    /** Only the new request can show, and unless it appends, nothing does until then. */
    method LoadDirectMessages(conversationID: string, cursor: Option<string>, appending: bool)
      modifies this
      ensures Now() == MessagesLoading(old(Now()), conversationID, cursor, appending)
      ensures configuration.Some? ==>
        inFlight == old(inFlight)[messages.activeID := Messages(configuration.value, conversationID, cursor, appending)]
        && messages.activeID == old(nextID) && messages.isLoading && !messages.isSearchContext
        && messages.highlighted == None
        && messages.items == (if appending then old(messages.items) else [])
      ensures configuration.None? ==> Now() == old(Now())
      ensures conversations == old(conversations) && messages.selected == old(messages.selected)
        && configuration == old(configuration)
    {
      if configuration.None? {
        return;
      }
      var requestID := Start(Messages(configuration.value, conversationID, cursor, appending));
      if !appending {
        messages := messages.(items := [], cursor := None, chain := [], hit := None);
      }
      messages := messages.(activeID := requestID, isSearchContext := false, highlighted := None, isLoading := true);
    }

    /** Nothing shows until the hit itself arrives, and of what is in flight only that request can. */
    method OpenDirectSearchResult(conversationID: string, messageID: string)
      requires Consistent(Now())
      modifies this
      ensures Consistent(Now()) && Now() == Opened(old(Now()), conversationID, messageID)
      ensures conversations == old(conversations)
      ensures configuration.None? ==> Now() == old(Now())
      ensures configuration.Some? ==>
        messages.selected == Some(conversationID) && messages.items == [] && messages.isSearchContext
        && messages.highlighted == Some(messageID) && messages.activeID !in old(inFlight)
        && inFlight == old(inFlight)[messages.activeID := Hit(configuration.value, conversationID, messageID)]
    {
      OpeningKeeps(Now(), conversationID, messageID);
      if configuration.None? {
        return;
      }
      var requestID := Start(Hit(configuration.value, conversationID, messageID));
      messages := MessagePane(Some(conversationID), [], None, true, Some(messageID), true, requestID, [], None);
    }

    // ----- completions -----

    /** Only the latest connection shows its conversations; if it fails, nothing stays. */
    method CompleteStatus(id: RequestID, outcome: Outcome<Page>)
      requires Consistent(Now()) && id in inFlight && inFlight[id].Status?
      modifies this
      ensures Consistent(Now()) && inFlight == old(inFlight) - {id}
      ensures Now() == StatusDone(old(Now()).(inFlight := inFlight), id, old(inFlight)[id], outcome)
      ensures id != old(activeLoadID) ==> Now() == old(Now()).(inFlight := inFlight)
      ensures id == old(activeLoadID) && outcome.Answered? ==>
        conversations.items == outcome.value.items && conversations.cursor == outcome.value.nextCursor
          && messages == old(messages)
      ensures id == old(activeLoadID) ==>
        !isConnecting
          && (outcome.Failed? ==> configuration == None && messages.items == [] && conversations.items == [])
    {
      StatusDoneKeeps(Now(), id, outcome);
      var request := inFlight[id];
      inFlight := inFlight - {id};
      match outcome {
        case Answered(page) =>
          if activeLoadID != id || configuration != Some(request.configuration) {
            return;
          }
          conversations := conversations.(items := page.items, cursor := page.nextCursor,
                                          chain := [Served(request.configuration, "", None, page)]);
          isConnecting := false;
        case Cancelled =>
          if activeLoadID == id {
            isConnecting := false;
          }
        case Failed =>
          if activeLoadID != id {
            return;
          }
          isConnecting := false;
          RemovedIsConsistent(old(Now()), id);
          ClearDirectState();
      }
    }

    /** Only the latest request extends the conversations, by what they do not hold yet. */
    method CompleteConversations(id: RequestID, outcome: Outcome<Page>)
      requires Consistent(Now()) && id in inFlight && inFlight[id].Conversations?
      modifies this
      ensures Consistent(Now()) && inFlight == old(inFlight) - {id} && messages == old(messages)
        && configuration == old(configuration)
      ensures Now() == ConversationsDone(old(Now()).(inFlight := inFlight), id, old(inFlight)[id], outcome)
      ensures id != old(conversations.activeID) ==> conversations == old(conversations)
      ensures id == old(conversations.activeID) ==> !conversations.isLoading
      ensures id == old(conversations.activeID) && outcome.Answered? ==>
        (exists places :: IsMerged(conversations.items, old(conversations.items), outcome.value.items, places))
          && conversations.cursor == outcome.value.nextCursor
      ensures !outcome.Answered? ==>
        conversations.items == old(conversations.items) && conversations.cursor == old(conversations.cursor)
    {
      ConversationsDoneKeeps(Now(), id, outcome);
      if outcome.Answered? {
        var places := MergeMeans(conversations.items, outcome.value.items);
      }
      var request := inFlight[id];
      inFlight := inFlight - {id};
      match outcome {
        case Answered(page) =>
          if conversations.activeID != id || configuration != Some(request.configuration)
            || conversations.cursor != Some(request.before) {
            return;
          }
          conversations := conversations.(
            items := Merge(conversations.items, page.items), cursor := page.nextCursor, isLoading := false,
            chain := conversations.chain + [Served(request.configuration, "", Some(request.before), page)]);
        case _ =>
          if conversations.activeID == id {
            conversations := conversations.(isLoading := false);
          }
      }
    }

    /** Only the latest request shows: it extends the messages, or is all of them. */
    method CompleteMessages(id: RequestID, outcome: Outcome<Page>)
      requires Consistent(Now()) && id in inFlight && inFlight[id].Messages?
      modifies this
      ensures Consistent(Now()) && inFlight == old(inFlight) - {id} && conversations == old(conversations)
        && configuration == old(configuration)
      ensures Now() == MessagesDone(old(Now()).(inFlight := inFlight), id, old(inFlight)[id], outcome)
      ensures id != old(messages.activeID) ==> messages == old(messages)
      ensures id == old(messages.activeID) ==> !messages.isLoading
      ensures id == old(messages.activeID) && outcome.Answered? ==>
        messages.cursor == outcome.value.nextCursor
        && if old(inFlight)[id].appending
           then exists places :: IsMerged(messages.items, old(messages.items), outcome.value.items, places)
           else messages.items == outcome.value.items
      ensures !outcome.Answered? ==> messages.items == old(messages.items) && messages.cursor == old(messages.cursor)
    {
      MessagesDoneKeeps(Now(), id, outcome);
      ActivePasses(Now(), id);
      if outcome.Answered? {
        var places := MergeMeans(messages.items, outcome.value.items);
      }
      var request := inFlight[id];
      inFlight := inFlight - {id};
      match outcome {
        case Answered(page) =>
          if messages.activeID != id || messages.selected != Some(request.conversationID)
            || configuration != Some(request.configuration) {
            return;
          }
          messages := messages.(
            items := if request.appending then Merge(messages.items, page.items) else page.items,
            cursor := page.nextCursor, isLoading := false,
            chain := messages.chain + [Served(request.configuration, request.conversationID, request.cursor, page)]);
        case _ =>
          if messages.activeID == id {
            messages := messages.(isLoading := false);
          }
      }
    }

    /** Only the hit opened last shows, alone. */
    method CompleteHit(id: RequestID, outcome: Outcome<Item>)
      requires Consistent(Now()) && id in inFlight && inFlight[id].Hit?
      modifies this
      ensures Consistent(Now()) && inFlight == old(inFlight) - {id} && conversations == old(conversations)
        && configuration == old(configuration)
      ensures Now() == HitDone(old(Now()).(inFlight := inFlight), id, old(inFlight)[id], outcome)
      ensures id != old(messages.activeID) ==> messages == old(messages)
      ensures id == old(messages.activeID) ==>
        !messages.isLoading && messages.items == (if outcome.Answered? then [outcome.value] else old(messages.items))
    {
      HitDoneKeeps(Now(), id, outcome);
      ActivePasses(Now(), id);
      var request := inFlight[id];
      inFlight := inFlight - {id};
      match outcome {
        case Answered(item) =>
          if messages.activeID != id || messages.selected != Some(request.conversationID)
            || configuration != Some(request.configuration) {
            return;
          }
          messages := messages.(items := [item], isLoading := false,
                                hit := Some(ServedHit(request.configuration, request.conversationID, request.messageID,
                                                      item)));
        case _ =>
          if messages.activeID == id {
            messages := messages.(isLoading := false);
          }
      }
    }

    method Complete(id: RequestID, page: Outcome<Page>, item: Outcome<Item>)
      requires Consistent(Now())
      modifies this
      ensures Consistent(Now()) && Now() == Completed(old(Now()), id, page, item)
    {
      if id !in inFlight {
        return;
      }
      match inFlight[id] {
        case Status(_) => CompleteStatus(id, page);
        case Conversations(_, _) => CompleteConversations(id, page);
        case Messages(_, _, _, _) => CompleteMessages(id, page);
        case Hit(_, _, _) => CompleteHit(id, item);
      }
    }

    /** One event: a user action or a completion. */
    method Apply(e: Event)
      requires Consistent(Now())
      modifies this
      ensures Consistent(Now()) && Now() == Step(old(Now()), e)
    {
      match e {
        case Connect(source) => ConnectDirectSource(source);
        case LoadMore => LoadMoreDirectConversations();
        case Select(conversationID) => SelectDirectConversation(conversationID);
        case LoadOlder => LoadOlderDirectMessages();
        case ReturnToLatest => ReturnToLatestDirectMessages();
        case Open(conversationID, messageID) => OpenDirectSearchResult(conversationID, messageID);
        case Close => ClearDirectState();
        case Complete(id, page, item) => Complete(id, page, item);
      }
    }
  }

  /** A session is a sequence of events, and its object shows what the run of those events shows. */
  method Browse(events: seq<Event>) returns (model: BrowserModel)
    ensures model.Now() == Run(events) && Consistent(model.Now())
  {
    model := new BrowserModel();
    for i := 0 to |events|
      invariant fresh(model) && model.Now() == Run(events[..i]) && Consistent(model.Now())
    {
      assert events[..i + 1][..i] == events[..i];
      model.Apply(events[i]);
    }
    assert events[..|events|] == events;
  }
}
