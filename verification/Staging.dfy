/** What the blue/green staging partition guarantees to the readers of the production tables. */
module Staging {
  import opened Prelude
  import opened Records
  import opened Storage

  /** Everything that the production getters read. */
  datatype Production = Production(
    messages: seq<Message>, conversations: Conversations, contacts: Contacts, highWaterMarks: Marks)

  function ProductionOf(s: Store): Production {
    Production(s.messages, s.conversations, s.contacts, s.highWaterMarks)
  }

  predicate IsStaging(e: Event) {
    e.StartStaging? || e.StageConversations? || e.StageContacts? || e.StageMessages? || e.SynthesizeContacts?
  }

  /** Staging calls never change what a production getter returns. */
  lemma {:induction false} StagingIsInvisible(s: Store, es: seq<Event>)
    requires forall i :: 0 <= i < |es| ==> IsStaging(es[i])
    ensures ProductionOf(Exec(s, es)) == ProductionOf(s)
    decreases es
  {
    if es != [] {
      assert IsStaging(es[0]);
      StagingIsInvisible(Step(s, es[0]), es[1..]);
    }
  }

  /** The last event that moves the hydration on, if any. */
  function LastPhase(es: seq<Event>): Option<Event> {
    if es == [] then None
    else
      var last := es[|es| - 1];
      if last.StartStaging? || last.SynthesizeContacts? || last.CommitSwap? then Some(last) else LastPhase(es[..|es| - 1])
  }

  /** The store is open to readers exactly from a swap to the next session or integrity check. */
  lemma {:induction false} OpenSinceSwapIff(s: Store, es: seq<Event>)
    ensures Exec(s, es).hydration == Hydrated <==>
            if LastPhase(es).None? then s.hydration == Hydrated else LastPhase(es).value.CommitSwap?
  {
    if es != [] {
      ExecLast(s, es);
      OpenSinceSwapIff(s, es[..|es| - 1]);
      StepOpens(Exec(s, es[..|es| - 1]), es[|es| - 1]);
    }
  }

  lemma StepOpens(s: Store, e: Event)
    ensures Step(s, e).hydration == Hydrated <==>
            e.CommitSwap? || (!e.StartStaging? && !e.SynthesizeContacts? && s.hydration == Hydrated)
  {
  }

  // ------------------------------------------------------------------
  // Staged messages
  // ------------------------------------------------------------------

  function MessagesStagedBy(e: Event): seq<Message> {
    if e.StageMessages? then e.msgs else []
  }

  /** The messages handed to staging, in order. */
  function StagedMessages(es: seq<Event>): seq<Message> {
    if es == [] then [] else StagedMessages(es[..|es| - 1]) + MessagesStagedBy(es[|es| - 1])
  }

  lemma {:induction false} StagedFormConcat(a: seq<Message>, b: seq<Message>)
    ensures StagedForm(a + b) == StagedForm(a) + StagedForm(b)
  {
    if b == [] {
      assert a + b == a;
    } else {
      assert (a + b)[..|a + b| - 1] == a + b[..|b| - 1];
      StagedFormConcat(a, b[..|b| - 1]);
    }
  }

  predicate InSession(es: seq<Event>) {
    forall i :: 0 <= i < |es| ==> !es[i].StartStaging?
  }

  /** Nothing is staged, as when a session begins. */
  predicate NothingStaged(s: Store) {
    s.stagingMessages == [] && s.stagingConversations == map[] && s.shared == {}
  }

  lemma SessionBeginsEmpty(s: Store)
    ensures NothingStaged(Step(s, StartStaging))
    ensures ProductionOf(Step(s, StartStaging)) == ProductionOf(s)
  {
  }

  lemma StepStagesMessages(s: Store, e: Event)
    requires !e.StartStaging?
    ensures Step(s, e).stagingMessages == s.stagingMessages + StagedForm(MessagesStagedBy(e))
  {
  }

  /** Until the next session starts, staged messages accumulate, whatever else happens meanwhile. */
  lemma {:induction false} MessagesAccumulate(s: Store, es: seq<Event>)
    requires NothingStaged(s) && InSession(es)
    ensures Exec(s, es).stagingMessages == StagedForm(StagedMessages(es))
  {
    if es != [] {
      var init, last := es[..|es| - 1], es[|es| - 1];
      ExecLast(s, es);
      MessagesAccumulate(s, init);
      StepStagesMessages(Exec(s, init), last);
      StagedFormConcat(StagedMessages(init), MessagesStagedBy(last));
    }
  }

  // ------------------------------------------------------------------
  // Staged conversations
  // ------------------------------------------------------------------

  function Find(table: Conversations, id: string): Option<Conversation> {
    if id in table then Some(table[id]) else None
  }

  /** A shared id has one and the same conversation in both tables. */
  ghost predicate SharedAgree(s: Store) {
    forall id <- s.shared :: id in s.conversations && Find(s.conversations, id) == Find(s.stagingConversations, id)
  }

  /** The last conversation of a list with the given id; an empty id is skipped. */
  function LastWith(convs: seq<Conversation>, id: string): Option<Conversation> {
    if convs == [] then None
    else
      var last := convs[|convs| - 1];
      if last.id == id && id != "" then Some(last) else LastWith(convs[..|convs| - 1], id)
  }

  lemma {:induction false} PutFinds(table: Conversations, convs: seq<Conversation>, id: string)
    ensures Find(PutConversations(table, convs), id) ==
            if LastWith(convs, id).Some? then LastWith(convs, id) else Find(table, id)
  {
    if convs != [] {
      PutFinds(table, convs[..|convs| - 1], id);
    }
  }

  lemma {:induction false} SeparatedMeans(shared: set<string>, convs: seq<Conversation>, id: string)
    ensures id in Separated(shared, convs) <==> id in shared && LastWith(convs, id).None?
  {
    if convs != [] {
      SeparatedMeans(shared, convs[..|convs| - 1], id);
    }
  }

  /** The records that an event stores into a conversation. */
  function TouchesBy(s: Store, e: Event, id: string): seq<Message> {
    if Arrives(s, e) != [] && Arrives(s, e)[0].conversationId == id then Arrives(s, e) else []
  }

  function TouchedBy(c: Conversation, ms: seq<Message>): Conversation {
    if ms == [] then c else Touch(TouchedBy(c, ms[..|ms| - 1]), ms[|ms| - 1])
  }

  lemma TouchedByGrows(c: Conversation, ms: seq<Message>, more: seq<Message>)
    requires |more| <= 1
    ensures TouchedBy(c, ms + more) == TouchedBy(TouchedBy(c, ms), more)
  {
    if more == [] {
      assert ms + more == ms;
    } else {
      assert (ms + more)[..|ms|] == ms && more[..0] == [];
    }
  }

  lemma TouchedByAll(c: Conversation, ms: seq<Message>)
    requires |ms| <= 1
    ensures TouchedBy(c, ms) == if ms == [] then c else Touch(c, ms[0])
  {
    assert ms != [] ==> ms[..0] == [] && TouchedBy(c, ms[..0]) == c;
  }

  lemma StoredTouches(s: Store, m: Message, now: int, id: string)
    requires SharedAgree(s)
    ensures SharedAgree(Stored(s, m, now)) && Stored(s, m, now).shared == s.shared
    ensures Find(Stored(s, m, now).stagingConversations, id) ==
            if id in s.shared && m.conversationId == id then Some(Touch(s.stagingConversations[id], m))
            else Find(s.stagingConversations, id)
  {
    var t := Stored(s, m, now);
    forall c | c in t.shared
      ensures c in t.conversations && Find(t.conversations, c) == Find(t.stagingConversations, c)
    {
      assert c in s.shared;
    }
  }

  /** The conversations that an event stages. */
  function StagedBy(e: Event): seq<Conversation> {
    if e.StageConversations? then e.staged else []
  }

  /** What one event does to a staged conversation. */
  function StagedAfter(s: Store, e: Event, id: string): Option<Conversation> {
    if LastWith(StagedBy(e), id).Some? then LastWith(StagedBy(e), id)
    else if id in s.shared && TouchesBy(s, e, id) != [] && id in s.stagingConversations
    then Some(Touch(s.stagingConversations[id], TouchesBy(s, e, id)[0]))
    else Find(s.stagingConversations, id)
  }

  lemma ArrivalStages(s: Store, e: Event, id: string)
    requires SharedAgree(s) && (e.AddMessage? || e.MediaArrives?)
    ensures SharedAgree(Step(s, e))
    ensures Find(Step(s, e).stagingConversations, id) ==
            if id in s.shared && Arrives(s, e) != [] && Arrives(s, e)[0].conversationId == id
            then Some(Touch(s.stagingConversations[id], Arrives(s, e)[0]))
            else Find(s.stagingConversations, id)
  {
    match e
    case AddMessage(msg, now) =>
      if !NeedsDownload(msg) {
        StoredTouches(s, WithSender(msg), now, id);
      }
    case MediaArrives(i, url, now) =>
      if i < |s.downloading| {
        var rest := s.(downloading := s.downloading[..i] + s.downloading[i + 1..]);
        StoredTouches(rest, s.downloading[i].(fields := s.downloading[i].fields["mediaUrl" := Text(url)]), now, id);
      }
  }

  lemma StepStages(s: Store, e: Event, id: string)
    requires SharedAgree(s) && !e.StartStaging?
    ensures Find(Step(s, e).stagingConversations, id) == StagedAfter(s, e, id)
  {
    match e
    case AddMessage(_, _) => ArrivalStages(s, e, id);
    case MediaArrives(_, _, _) => ArrivalStages(s, e, id);
    case StageConversations(convs) => PutFinds(s.stagingConversations, convs, id);
    case _ =>
  }

  lemma StepKeepsSharing(s: Store, e: Event)
    requires SharedAgree(s)
    ensures SharedAgree(Step(s, e))
  {
    match e
    case AddMessage(_, _) => ArrivalStages(s, e, "");
    case MediaArrives(_, _, _) => ArrivalStages(s, e, "");
    case SaveConversations(convs) => SeparatingKeepsSharing(s, convs);
    case StageConversations(convs) => SeparatingKeepsSharing(s, convs);
    case _ =>
  }

  lemma SeparatingKeepsSharing(s: Store, convs: seq<Conversation>)
    requires SharedAgree(s)
    ensures SharedAgree(Step(s, SaveConversations(convs))) && SharedAgree(Step(s, StageConversations(convs)))
  {
    forall id | id in Separated(s.shared, convs)
      ensures id in s.shared
      ensures Find(PutConversations(s.conversations, convs), id) == Find(s.conversations, id)
      ensures Find(PutConversations(s.stagingConversations, convs), id) == Find(s.stagingConversations, id)
    {
      SeparatedMeans(s.shared, convs, id);
      PutFinds(s.conversations, convs, id);
      PutFinds(s.stagingConversations, convs, id);
    }
  }

  /** In every run, an id that is shared has one conversation. */
  lemma {:induction false} SharingIsConsistent(s: Store, es: seq<Event>)
    requires SharedAgree(s)
    ensures SharedAgree(Exec(s, es))
  {
    if es != [] {
      ExecLast(s, es);
      SharingIsConsistent(s, es[..|es| - 1]);
      StepKeepsSharing(Exec(s, es[..|es| - 1]), es[|es| - 1]);
    }
  }

  /** The conversation last staged under an id. */
  function LastStaged(es: seq<Event>, id: string): Option<Conversation> {
    if es == [] then None
    else
      var last := LastWith(StagedBy(es[|es| - 1]), id);
      if last.Some? then last else LastStaged(es[..|es| - 1], id)
  }

  /** The live records that reached the staged conversation since it was staged: those stored while it was shared. */
  function SharedTouches(s: Store, es: seq<Event>, id: string): seq<Message> {
    if es == [] then []
    else
      var init, last := es[..|es| - 1], es[|es| - 1];
      if LastWith(StagedBy(last), id).Some? then []
      else if id in Exec(s, init).shared then SharedTouches(s, init, id) + TouchesBy(Exec(s, init), last, id)
      else SharedTouches(s, init, id)
  }

  /** At every moment of a session, each staged conversation is the one last staged, as the live
      records that came while it was shared with production have left it. */
  lemma {:induction false} StagedIsLastTouched(s: Store, es: seq<Event>, id: string)
    requires NothingStaged(s) && InSession(es)
    ensures Find(Exec(s, es).stagingConversations, id) ==
            match LastStaged(es, id)
            case None => None
            case Some(c) => Some(TouchedBy(c, SharedTouches(s, es, id)))
  {
    if es != [] {
      var init, last := es[..|es| - 1], es[|es| - 1];
      var t := Exec(s, init);
      ExecLast(s, es);
      StagedIsLastTouched(s, init, id);
      SharingIsConsistent(s, init);
      StepStages(t, last, id);
      if LastStaged(init, id).Some? {
        var c := LastStaged(init, id).value;
        TouchedByGrows(c, SharedTouches(s, init, id), TouchesBy(t, last, id));
        TouchedByAll(TouchedBy(c, SharedTouches(s, init, id)), TouchesBy(t, last, id));
      }
    }
  }

  /** Touches leave a conversation as it was exactly when the last text is its own and none is newer. */
  predicate Unmarked(c: Conversation, ms: seq<Message>) {
    ms == [] || (
      && Touch(c, ms[|ms| - 1]).lastMessage == c.lastMessage
      && forall i :: 0 <= i < |ms| ==> ms[i].timestamp <= c.lastTimestamp)
  }

  lemma {:induction false} TouchesAccumulate(c: Conversation, ms: seq<Message>)
    ensures var t := TouchedBy(c, ms);
            && t.id == c.id && t.fields == c.fields
            && t.lastMessage == (if ms == [] then c.lastMessage else Touch(c, ms[|ms| - 1]).lastMessage)
            && t.lastTimestamp >= c.lastTimestamp
            && (t.lastTimestamp == c.lastTimestamp <==> forall i :: 0 <= i < |ms| ==> ms[i].timestamp <= c.lastTimestamp)
  {
    if ms != [] {
      var init, last := ms[..|ms| - 1], ms[|ms| - 1];
      TouchesAccumulate(c, init);
      assert ms == init + [last];
    }
  }

  // ------------------------------------------------------------------
  // The swap
  // ------------------------------------------------------------------

  /** The table holds, for each non-empty id of the list, the in-order merge of its records, and is sorted by time. */
  ghost predicate Publishes(table: seq<Message>, list: seq<Message>) {
    && Sorted(table) && UniqueIds(table) && (forall m <- table :: m.msgId != "")
    && forall id :: id != "" ==>
         Lookup(table, id) == if RecordsOf(list, id) == [] then None else Some(InOrderMerge(RecordsOf(list, id)))
  }

  lemma SwapPublishesMessages(u: Store, now: int)
    ensures Publishes(Swapped(u, now).messages, u.stagingMessages)
    ensures SendersKnown(Swapped(u, now).messages, Swapped(u, now).contacts)
  {
    DeduplicatedMeans(u.stagingMessages);
    SwapIsConsistent(u, now);
  }

  /** Any swap of a session publishes exactly what the session staged. Messages: one for each
      non-empty staged id, the in-order merge of that id's staged records, sorted by time, with a
      contact for every non-empty sender. Conversations: those staged, each as the live records
      that came while it was shared have left it; it is published as staged exactly when the last
      of these left its text and none was newer. Nothing else from before or during the session remains. */
  lemma SwapPublishesWhatWasStaged(begun: Store, es: seq<Event>, now: int, id: string)
    requires NothingStaged(begun) && InSession(es)
    ensures var t := Swapped(Exec(begun, es), now);
            && Publishes(t.messages, StagedForm(StagedMessages(es)))
            && SendersKnown(t.messages, t.contacts)
            && (match LastStaged(es, id)
                case None => Find(t.conversations, id) == None
                case Some(c) =>
                  && Find(t.conversations, id) == Some(TouchedBy(c, SharedTouches(begun, es, id)))
                  && (Find(t.conversations, id) == Some(c) <==> Unmarked(c, SharedTouches(begun, es, id))))
  {
    MessagesAccumulate(begun, es);
    SwapPublishesMessages(Exec(begun, es), now);
    StagedIsLastTouched(begun, es, id);
    if LastStaged(es, id).Some? {
      TouchesAccumulate(LastStaged(es, id).value, SharedTouches(begun, es, id));
    }
  }

  lemma {:induction false} NothingSharedBeforeSwap(s: Store, es: seq<Event>, id: string)
    requires s.shared == {} && NoSwap(es)
    ensures Exec(s, es).shared == {} && SharedTouches(s, es, id) == []
  {
    if es != [] {
      var init, last := es[..|es| - 1], es[|es| - 1];
      ExecLast(s, es);
      NothingSharedBeforeSwap(s, init, id);
      NoSwapSharesNothing(Exec(s, init), last);
    }
  }

  lemma NoSwapSharesNothing(s: Store, e: Event)
    requires s.shared == {} && !e.CommitSwap?
    ensures Step(s, e).shared == {}
  {
    match e
    case SaveConversations(convs) =>
      forall id ensures id !in Separated(s.shared, convs) { SeparatedMeans(s.shared, convs, id); }
    case StageConversations(convs) =>
      forall id ensures id !in Separated(s.shared, convs) { SeparatedMeans(s.shared, convs, id); }
    case _ =>
  }

  /** The first swap of a session publishes every conversation as it was last staged. */
  lemma FirstSwapPublishesAsStaged(begun: Store, es: seq<Event>, now: int, id: string)
    requires NothingStaged(begun) && InSession(es) && NoSwap(es)
    ensures Find(Swapped(Exec(begun, es), now).conversations, id) == LastStaged(es, id)
  {
    NothingSharedBeforeSwap(begun, es, id);
    StagedIsLastTouched(begun, es, id);
  }

  lemma SwapShares(s: Store, now: int)
    ensures var t := Step(s, CommitSwap(now));
            && t.conversations == t.stagingConversations == s.stagingConversations
            && t.shared == s.stagingConversations.Keys
  {
  }

  lemma LiveTouch(s: Store, m: Message, now: int)
    requires m.conversationId in s.conversations && m.conversationId in s.shared && !NeedsDownload(m)
    ensures Step(s, AddMessage(m, now)).stagingConversations ==
            s.stagingConversations[m.conversationId := Touch(s.conversations[m.conversationId], WithSender(m))]
  {
  }

  /** Two swaps of one session with a live message in between: the second publishes what the
      message made of its conversation, and not the conversation as staged. */
  lemma SecondSwapPublishesTouched(s: Store, m: Message, now: int)
    requires m.conversationId in s.stagingConversations && !NeedsDownload(m)
    ensures var run := [CommitSwap(now), AddMessage(m, now), CommitSwap(now)];
            Exec(s, run).conversations ==
            s.stagingConversations[m.conversationId := Touch(s.stagingConversations[m.conversationId], WithSender(m))]
  {
    var served := Step(s, CommitSwap(now));
    SwapShares(s, now);
    LiveTouch(served, m, now);
    SwapShares(Step(served, AddMessage(m, now)), now);
    ExecThree(s, CommitSwap(now), AddMessage(m, now), CommitSwap(now));
  }

  lemma ExecCons(s: Store, e: Event, es: seq<Event>)
    ensures Exec(s, [e] + es) == Exec(Step(s, e), es)
  {
    assert ([e] + es)[1..] == es;
  }

  lemma ExecTwo(s: Store, a: Event, b: Event)
    ensures Exec(s, [a, b]) == Step(Step(s, a), b)
  {
    ExecCons(s, a, [b]);
    ExecCons(Step(s, a), b, []);
    assert [a] + [b] == [a, b] && [b] + [] == [b];
  }

  lemma ExecThree(s: Store, a: Event, b: Event, c: Event)
    ensures Exec(s, [a, b, c]) == Step(Step(Step(s, a), b), c)
  {
    ExecCons(s, a, [b, c]);
    ExecTwo(Step(s, a), b, c);
    assert [a] + [b, c] == [a, b, c];
  }

  /** The contacts after a swap are the staged ones, unchanged, and stubs for staged senders that had none. */
  lemma SwapContacts(s: Store, now: int, id: string)
    ensures var t := Step(s, CommitSwap(now));
            && (id in s.stagingContacts ==> id in t.contacts && t.contacts[id] == s.stagingContacts[id])
            && (id in t.contacts && id !in s.stagingContacts ==>
                  t.contacts[id].isStub
                  && exists i :: 0 <= i < |s.stagingMessages| && s.stagingMessages[i].senderId == id)
  {
    ResolvingOnlyAddsStubs(s.stagingContacts, s.stagingMessages, now, id);
  }

  // ------------------------------------------------------------------
  // The conversation key
  // ------------------------------------------------------------------

  predicate ConversationsKnown(s: Store) {
    forall i :: 0 <= i < |s.messages| ==> s.messages[i].conversationId in s.conversations
  }

  /** The last staged record of an id names a staged conversation. */
  predicate LastIsHoused(s: Store, id: string) {
    var records := RecordsOf(s.stagingMessages, id);
    id != "" && records != [] ==> records[|records| - 1].conversationId in s.stagingConversations
  }

  /** A swap publishes no message without its conversation exactly when, for every non-empty
      staged id, the last staged record names a staged conversation. */
  lemma SwapKeepsConversationsIff(s: Store, now: int)
    ensures ConversationsKnown(Swapped(s, now)) <==> forall id {:trigger LastIsHoused(s, id)} :: LastIsHoused(s, id)
  {
    var t := Swapped(s, now);
    DeduplicatedMeans(s.stagingMessages);
    if ConversationsKnown(t) {
      forall id ensures LastIsHoused(s, id) {
        HousedIfPublished(s, now, id);
      }
    }
    if forall id {:trigger LastIsHoused(s, id)} :: LastIsHoused(s, id) {
      forall i | 0 <= i < |t.messages| ensures t.messages[i].conversationId in t.conversations {
        PublishedIfHoused(s, now, i);
      }
    }
  }

  lemma HousedIfPublished(s: Store, now: int, id: string)
    requires ConversationsKnown(Swapped(s, now))
    ensures LastIsHoused(s, id)
  {
    var t := Swapped(s, now);
    DeduplicatedMeans(s.stagingMessages);
    if id != "" && RecordsOf(s.stagingMessages, id) != [] {
      var i := FindIndex(t.messages, id);
      assert Lookup(t.messages, id) == Some(InOrderMerge(RecordsOf(s.stagingMessages, id)));
      assert t.messages[i].conversationId in t.conversations;
    }
  }

  lemma PublishedIfHoused(s: Store, now: int, i: nat)
    requires i < |Swapped(s, now).messages| && LastIsHoused(s, Swapped(s, now).messages[i].msgId)
    ensures Swapped(s, now).messages[i].conversationId in Swapped(s, now).conversations
  {
    var messages := Swapped(s, now).messages;
    DeduplicatedMeans(s.stagingMessages);
    LookupIsTheRecord(messages, i);
    assert messages[i] in messages;
    assert Lookup(messages, messages[i].msgId) == Some(InOrderMerge(RecordsOf(s.stagingMessages, messages[i].msgId)));
  }

  /** A live record keeps the conversation key exactly when its conversation exists, or an
      existing newer record of the same id keeps it out of the table. */
  lemma StoringKeepsConversationsIff(s: Store, m: Message, now: int)
    requires ConversationsKnown(s)
    ensures ConversationsKnown(Stored(s, m, now)) <==>
            || m.conversationId in s.conversations
            || (Lookup(s.messages, m.msgId).Some? && m.timestamp < Lookup(s.messages, m.msgId).value.timestamp)
  {
    var t := Stored(s, m, now);
    var i := FindIndex(s.messages, m.msgId);
    assert t.conversations.Keys == s.conversations.Keys;
    assert forall j :: 0 <= j < |s.messages| && j != i ==> t.messages[j] == s.messages[j];
    var k := if i < 0 then |s.messages| else i;
    assert t.messages != s.messages ==> t.messages[k].conversationId == m.conversationId;
    if m.conversationId !in s.conversations && (i < 0 || m.timestamp >= s.messages[i].timestamp) {
      assert t.messages[k].conversationId !in t.conversations;
    }
  }

  /** The conversation of the record exists, or a newer record of its id keeps it out. */
  predicate Houses(s: Store, m: Message) {
    || m.conversationId in s.conversations
    || (Lookup(s.messages, m.msgId).Some? && m.timestamp < Lookup(s.messages, m.msgId).value.timestamp)
  }

  /** The step orphans no message: it is a swap of staged records with their conversations, or what it stores is housed. */
  ghost predicate StepIsSafe(s: Store, e: Event) {
    if e.CommitSwap? then forall id {:trigger LastIsHoused(s, id)} :: LastIsHoused(s, id)
    else Arrives(s, e) == [] || Houses(s, Arrives(s, e)[0])
  }

  lemma {:induction false} PutKeepsConversations(table: Conversations, convs: seq<Conversation>)
    ensures table.Keys <= PutConversations(table, convs).Keys
  {
    if convs != [] {
      PutKeepsConversations(table, convs[..|convs| - 1]);
    }
  }

  lemma SortingKeepsConversations(messages: seq<Message>, conversations: Conversations)
    ensures MessagesHoused(messages, conversations) ==> MessagesHoused(SortByTime(messages), conversations)
  {
    SortIsStable(messages);
    MembersAgree(messages, SortByTime(messages));
    if MessagesHoused(messages, conversations) {
      forall i | 0 <= i < |SortByTime(messages)| ensures SortByTime(messages)[i].conversationId in conversations {
        assert SortByTime(messages)[i] in messages;
      }
    }
  }

  predicate MessagesHoused(messages: seq<Message>, conversations: Conversations) {
    forall i :: 0 <= i < |messages| ==> messages[i].conversationId in conversations
  }

  lemma ArrivalKeepsConversationsIff(s: Store, e: Event)
    requires ConversationsKnown(s) && (e.AddMessage? || e.MediaArrives?)
    ensures ConversationsKnown(Step(s, e)) <==> Arrives(s, e) == [] || Houses(s, Arrives(s, e)[0])
  {
    match e
    case AddMessage(msg, now) =>
      if !NeedsDownload(msg) {
        StoringKeepsConversationsIff(s, WithSender(msg), now);
      }
    case MediaArrives(i, url, now) =>
      if i < |s.downloading| {
        var rest := s.(downloading := s.downloading[..i] + s.downloading[i + 1..]);
        var m := s.downloading[i].(fields := s.downloading[i].fields["mediaUrl" := Text(url)]);
        StoringKeepsConversationsIff(rest, m, now);
      }
  }

  /** A step keeps the conversation key exactly when it is safe. */
  lemma StepKeepsConversationsIff(s: Store, e: Event)
    requires ConversationsKnown(s)
    ensures ConversationsKnown(Step(s, e)) <==> StepIsSafe(s, e)
  {
    match e
    case AddMessage(_, _) => ArrivalKeepsConversationsIff(s, e);
    case MediaArrives(_, _, _) => ArrivalKeepsConversationsIff(s, e);
    case CommitSwap(now) => SwapKeepsConversationsIff(s, now);
    case SaveConversations(convs) => PutKeepsConversations(s.conversations, convs);
    case SortMessages => SortingKeepsConversations(s.messages, s.conversations);
    case _ =>
  }

  ghost predicate KnownThroughout(s: Store, es: seq<Event>)
    decreases es
  {
    ConversationsKnown(s) && (es != [] ==> KnownThroughout(Step(s, es[0]), es[1..]))
  }

  ghost predicate SafeThroughout(s: Store, es: seq<Event>)
    decreases es
  {
    es == [] || (StepIsSafe(s, es[0]) && SafeThroughout(Step(s, es[0]), es[1..]))
  }

  /** Over any run, swaps included, the conversation key holds at every moment exactly when every step is safe. */
  lemma {:induction false} RunKeepsConversationsIff(s: Store, es: seq<Event>)
    requires ConversationsKnown(s)
    ensures KnownThroughout(s, es) <==> SafeThroughout(s, es)
    decreases es
  {
    if es != [] {
      StepKeepsConversationsIff(s, es[0]);
      if StepIsSafe(s, es[0]) {
        RunKeepsConversationsIff(Step(s, es[0]), es[1..]);
      }
    }
  }

  lemma LoneRecord(m: Message)
    requires m.msgId != ""
    ensures RecordsOf([m], m.msgId) == [m] && StagedForm([m]) == [WithSender(m)]
  {
    assert [m][..0] == [];
    assert RecordsOf([m], m.msgId) == [] + [m] && StagedForm([m]) == [] + [WithSender(m)];
  }

  lemma StagedAloneIsNotHoused(s: Store, m: Message)
    requires m.msgId != "" && s.stagingMessages == [WithSender(m)] && s.stagingConversations == map[]
    ensures !LastIsHoused(s, m.msgId)
  {
    LoneRecord(WithSender(m));
  }

  lemma UnhousedIsOrphaned(s: Store, now: int, id: string)
    requires !LastIsHoused(s, id)
    ensures !ConversationsKnown(Step(s, CommitSwap(now)))
  {
    SwapKeepsConversationsIff(s, now);
  }

  /** A session that orphans a message: it is staged without its conversation. */
  lemma SwapCanOrphanMessages(begun: Store, m: Message)
    requires NothingStaged(begun) && m.msgId != ""
    ensures !ConversationsKnown(Exec(begun, [StageMessages([m]), CommitSwap(0)]))
  {
    LoneRecord(m);
    var staged := Step(begun, StageMessages([m]));
    StagedAloneIsNotHoused(staged, m);
    UnhousedIsOrphaned(staged, 0, m.msgId);
    ExecTwo(begun, StageMessages([m]), CommitSwap(0));
  }
}
