/**
 What the operations of the store leave behind, said of each table, property by property,
 without the functions that compute it.
*/
module Effects {
  import opened Prelude
  import opened Records
  import opened Storage
  import opened Arrival
  import opened Staging

  // ------------------------------------------------------------------
  // Messages that have only some of the properties
  // ------------------------------------------------------------------

  /** An arriving record replaces the known one of its id by what the two say together, unless it is older. */
  lemma UpsertCombines(messages: seq<Message>, m: Message)
    requires UniqueIds(messages)
    ensures var after := Lookup(Upserted(messages, m), m.msgId);
            match Lookup(messages, m.msgId)
            case None => after == Some(m)
            case Some(known) =>
              if m.timestamp < known.timestamp then after == Some(known)
              else after.Some? && Combines(after.value, [known, m], m.msgId)
  {
    UpsertLooksUp(messages, m, m.msgId);
    match Lookup(messages, m.msgId)
    case None =>
    case Some(known) =>
      OneCombines(known);
      OneMoreCombines([known], m, m.msgId, known);
      assert [known] + [m] == [known, m];
  }

  /** Every record keeps its place, also the one that is replaced; a new id goes to the end. */
  lemma UpsertKeepsPlaces(messages: seq<Message>, m: Message)
    ensures var after, i := Upserted(messages, m), FindIndex(messages, m.msgId);
            && |after| == (if i < 0 then |messages| + 1 else |messages|)
            && (i < 0 ==> after[|messages|] == m)
            && (forall j :: 0 <= j < |messages| ==> after[j].msgId == messages[j].msgId)
            && (forall j :: 0 <= j < |messages| && j != i ==> after[j] == messages[j])
  {
  }

  lemma OneCombines(m: Message)
    ensures Combines(m, [m], m.msgId)
  {
    FirstCombines([], m);
    assert [] + [m] == [m];
  }

  /** No earlier record of its id is newer. */
  predicate NotOlder(earlier: seq<Message>, m: Message) {
    forall i :: 0 <= i < |earlier| && earlier[i].msgId == m.msgId ==> earlier[i].timestamp <= m.timestamp
  }

  /** The records of an id that were not older than all its records before them. */
  function Accepted(ms: seq<Message>, id: string): seq<Message> {
    if ms == [] then []
    else
      var init, last := ms[..|ms| - 1], ms[|ms| - 1];
      if last.msgId == id && NotOlder(init, last) then Accepted(init, id) + [last] else Accepted(init, id)
  }

  /** The last accepted record is the newest. */
  lemma {:induction false} AcceptedEndsNewest(ms: seq<Message>, id: string)
    ensures forall i :: 0 <= i < |Accepted(ms, id)| ==> Accepted(ms, id)[i].msgId == id
    ensures Accepted(ms, id) == [] <==> forall i :: 0 <= i < |ms| ==> ms[i].msgId != id
    ensures forall i :: 0 <= i < |ms| && ms[i].msgId == id ==>
              ms[i].timestamp <= Accepted(ms, id)[|Accepted(ms, id)| - 1].timestamp
    ensures Accepted(ms, id) != [] ==> Accepted(ms, id)[|Accepted(ms, id)| - 1] in ms
  {
    if ms != [] {
      var init, last := ms[..|ms| - 1], ms[|ms| - 1];
      AcceptedEndsNewest(init, id);
      assert ms == init + [last];
    }
  }

  lemma NotOlderMeans(ms: seq<Message>, m: Message)
    requires Accepted(ms, m.msgId) != []
    ensures var accepted := Accepted(ms, m.msgId);
            NotOlder(ms, m) <==> accepted[|accepted| - 1].timestamp <= m.timestamp
  {
    AcceptedEndsNewest(ms, m.msgId);
  }

  /** The table says of an id what its accepted records say together. */
  ghost predicate Holds(table: seq<Message>, ms: seq<Message>, id: string) {
    match Lookup(table, id)
    case None => Accepted(ms, id) == []
    case Some(m) => Combines(m, Accepted(ms, id), id)
  }

  lemma CombinedTime(m: Message, list: seq<Message>, id: string)
    requires Combines(m, list, id) && forall i :: 0 <= i < |list| ==> list[i].msgId == id
    ensures list != [] && m.msgId == id && m.timestamp == list[|list| - 1].timestamp
  {
  }

  lemma AcceptedGrows(ms: seq<Message>, m: Message, id: string)
    ensures Accepted(ms + [m], id) ==
            if m.msgId == id && NotOlder(ms, m) then Accepted(ms, id) + [m] else Accepted(ms, id)
  {
    assert (ms + [m])[..|ms|] == ms;
  }

  lemma UpsertHolds(table: seq<Message>, ms: seq<Message>, m: Message, id: string)
    requires UniqueIds(table) && Holds(table, ms, id)
    ensures Holds(Upserted(table, m), ms + [m], id)
  {
    UpsertLooksUp(table, m, id);
    AcceptedGrows(ms, m, id);
    AcceptedEndsNewest(ms, id);
    if m.msgId == id {
      match Lookup(table, id)
      case None => OneCombines(m);
        assert [] + [m] == [m];
      case Some(known) =>
        CombinedTime(known, Accepted(ms, id), id);
        NotOlderMeans(ms, m);
        OneMoreCombines(Accepted(ms, id), m, id, known);
    }
  }

  lemma {:induction false} UniqueIsAccepted(messages: seq<Message>, id: string)
    requires UniqueIds(messages)
    ensures Holds(messages, messages, id)
  {
    if messages != [] {
      var init, last := messages[..|messages| - 1], messages[|messages| - 1];
      UniqueIsAccepted(init, id);
      assert messages == init + [last];
      assert FindIndex(init, last.msgId) < 0;
      UpsertHolds(init, init, last, id);
    }
  }

  lemma SortHolds(table: seq<Message>, ms: seq<Message>, id: string)
    requires UniqueIds(table) && Holds(table, ms, id)
    ensures Holds(SortByTime(table), ms, id)
  {
    SortLooksUpAlike(table, id);
  }

  lemma StepHolds(s: Store, before: seq<Message>, e: Event, id: string)
    requires UniqueIds(s.messages) && Holds(s.messages, before, id) && !e.CommitSwap?
    ensures Holds(Step(s, e).messages, before + Arrives(s, e), id)
  {
    StepUpdatesTable(s, e);
    if e.SortMessages? {
      SortHolds(s.messages, before, id);
      assert before + Arrives(s, e) == before;
    } else if Arrives(s, e) != [] {
      assert Arrives(s, e) == [Arrives(s, e)[0]];
      UpsertHolds(s.messages, before, Arrives(s, e)[0], id);
    } else {
      assert before + Arrives(s, e) == before;
    }
  }

  /** From any consistent store and in every run without a further swap, of records with any properties:
      the table has an id if and only if a record of it was there or arrived, and says of it what all
      those that were not older than their predecessors say together. */
  lemma {:induction false} TableCombinesAccepted(s: Store, es: seq<Event>, id: string)
    requires Consistent(s) && NoSwap(es)
    ensures Holds(Exec(s, es).messages, s.messages + Arrivals(s, es), id)
  {
    if es == [] {
      UniqueIsAccepted(s.messages, id);
      assert s.messages + [] == s.messages;
    } else {
      var init, last := es[..|es| - 1], es[|es| - 1];
      ExecLast(s, es);
      TableCombinesAccepted(s, init, id);
      IdsStayUnique(s, init);
      StepHolds(Exec(s, init), s.messages + Arrivals(s, init), last, id);
      Regroup(s.messages, Arrivals(s, init), Arrives(Exec(s, init), last));
    }
  }

  /** What a swap publishes of an id is what its staged records say together. */
  lemma SwapCombines(s: Store, now: int, id: string)
    requires id != ""
    ensures match Lookup(Step(s, CommitSwap(now)).messages, id)
            case None => forall j :: 0 <= j < |s.stagingMessages| ==> s.stagingMessages[j].msgId != id
            case Some(m) => Combines(m, s.stagingMessages, id)
  {
    DeduplicatedCombines(s.stagingMessages, id);
    assert Step(s, CommitSwap(now)).messages == Deduplicated(s.stagingMessages);
  }

  // ------------------------------------------------------------------
  // Lists that keep some of their elements
  // ------------------------------------------------------------------

  /** The sender of a record is its own, or ME, or the conversation. */
  predicate SenderIsNamed(m: Message, sender: string) {
    && (m.senderId != "" ==> sender == m.senderId)
    && (m.senderId == "" && m.fromMe ==> sender == "ME")
    && (m.senderId == "" && !m.fromMe ==> sender == m.conversationId)
  }

  /** A record as it is taken over, apart from its sender. */
  predicate TakenOver(from: Message, to: Message) {
    to == from.(senderId := to.senderId) && SenderIsNamed(from, to.senderId)
  }

  /** Staging takes list by list, in order, the records with an id, and names the sender of each. */
  lemma StagedFormMeans(a: seq<Message>, b: seq<Message>, m: Message)
    ensures StagedForm(a + b) == StagedForm(a) + StagedForm(b)
    ensures if m.msgId == "" then StagedForm([m]) == []
            else |StagedForm([m])| == 1 && TakenOver(m, StagedForm([m])[0])
  {
    StagedFormConcat(a, b);
    assert StagedForm([m][..0]) == [];
  }

  lemma {:induction false} InConversationConcat(a: seq<Message>, b: seq<Message>, conversationId: string)
    ensures InConversation(a + b, conversationId) == InConversation(a, conversationId) + InConversation(b, conversationId)
  {
    if b == [] {
      assert a + b == a;
    } else {
      assert (a + b)[..|a + b| - 1] == a + b[..|b| - 1];
      InConversationConcat(a, b[..|b| - 1], conversationId);
    }
  }

  /** The messages of a conversation are those that name it, in order. */
  lemma InConversationMeans(a: seq<Message>, b: seq<Message>, m: Message, conversationId: string)
    ensures InConversation(a + b, conversationId) == InConversation(a, conversationId) + InConversation(b, conversationId)
    ensures InConversation([m], conversationId) == if m.conversationId == conversationId then [m] else []
  {
    InConversationConcat(a, b, conversationId);
    assert InConversation([m][..0], conversationId) == [];
  }

  /** A page has the latest messages of a list, sorted by time, equal times in order: as many as asked
      for, or all when there are no more or none are asked for. */
  lemma PageIsLatest(messages: seq<Message>, limit: nat) returns (older: seq<Message>)
    ensures var page := LastOf(SortByTime(messages), limit);
            && Sorted(page)
            && |page| == (if limit == 0 then |messages| else Min(limit, |messages|))
            && multiset(older + page) == multiset(messages)
            && (forall a <- older, b <- page :: a.timestamp <= b.timestamp)
            && forall t :: AtTime(older + page, t) == AtTime(messages, t)
  {
    var sorted := SortByTime(messages);
    SortIsStable(messages);
    SameLength(sorted, messages);
    var n := LastOfSplits(sorted, limit);
    PagesAreOrdered(sorted, n);
    older := sorted[..n];
  }

  lemma SameLength(a: seq<Message>, b: seq<Message>)
    requires multiset(a) == multiset(b)
    ensures |a| == |b|
  {
    assert |a| == |multiset(a)|;
  }

  lemma LastOfSplits<T>(s: seq<T>, limit: nat) returns (n: nat)
    ensures n <= |s| && LastOf(s, limit) == s[n..] && s[..n] + s[n..] == s
    ensures |s| - n == if limit == 0 then |s| else Min(limit, |s|)
  {
    n := |s| - |LastOf(s, limit)|;
    assert s[0..] == s;
  }

  lemma PagesAreOrdered(sorted: seq<Message>, n: nat)
    requires Sorted(sorted) && n <= |sorted|
    ensures Sorted(sorted[n..])
    ensures forall a <- sorted[..n], b <- sorted[n..] :: a.timestamp <= b.timestamp
  {
    forall a <- sorted[..n], b <- sorted[n..] ensures a.timestamp <= b.timestamp {
      var i :| 0 <= i < n && sorted[..n][i] == a;
      var j :| 0 <= j < |sorted| - n && sorted[n..][j] == b;
      assert sorted[i] == a && sorted[n + j] == b;
    }
  }

  // ------------------------------------------------------------------
  // High-water marks
  // ------------------------------------------------------------------

  /** The marks after some records: no number stays none; a number becomes the greatest of itself
      and the timestamps of the conversation's records. */
  lemma {:induction false} RaisedMarkIsGreatest(marks: Marks, messages: seq<Message>, c: string)
    ensures var before, after := Mark(marks, c), Mark(MarksRaised(marks, messages), c);
            && (before.None? ==> after.None?)
            && (before.Some? ==>
                  && after.Some? && before.value <= after.value
                  && (forall i :: 0 <= i < |messages| && messages[i].conversationId == c ==>
                        messages[i].timestamp <= after.value)
                  && (after != before ==>
                        exists i :: 0 <= i < |messages| && messages[i].conversationId == c
                                    && messages[i].timestamp == after.value))
  {
    if messages != [] {
      var init, last := messages[..|messages| - 1], messages[|messages| - 1];
      RaisedMarkIsGreatest(marks, init, c);
      assert messages == init + [last];
    }
  }

  /** The records that an event brings before the marks. */
  function MarkedBy(s: Store, e: Event): seq<Message> {
    if e.CommitSwap? then Step(s, e).messages else Arrives(s, e)
  }

  function Marked(s: Store, es: seq<Event>): seq<Message> {
    if es == [] then []
    else
      var init := es[..|es| - 1];
      Marked(s, init) + MarkedBy(Exec(s, init), es[|es| - 1])
  }

  lemma {:induction false} MarksRaisedConcat(marks: Marks, a: seq<Message>, b: seq<Message>)
    ensures MarksRaised(marks, a + b) == MarksRaised(MarksRaised(marks, a), b)
  {
    if b == [] {
      assert a + b == a;
    } else {
      assert (a + b)[..|a + b| - 1] == a + b[..|b| - 1];
      MarksRaisedConcat(marks, a, b[..|b| - 1]);
    }
  }

  lemma StepRaisesMarks(s: Store, e: Event)
    ensures Step(s, e).highWaterMarks == MarksRaised(s.highWaterMarks, MarkedBy(s, e))
  {
    if !e.CommitSwap? {
      StepMarks(s, e);
      var ms := Arrives(s, e);
      if ms != [] {
        assert ms == [ms[0]] && ms[..0] == [];
        assert MarksRaised(s.highWaterMarks, ms[..0]) == s.highWaterMarks;
      }
    }
  }

  lemma {:induction false} RunRaisesMarks(s: Store, es: seq<Event>)
    ensures Exec(s, es).highWaterMarks == MarksRaised(s.highWaterMarks, Marked(s, es))
  {
    if es != [] {
      var init, last := es[..|es| - 1], es[|es| - 1];
      ExecLast(s, es);
      RunRaisesMarks(s, init);
      StepRaisesMarks(Exec(s, init), last);
      MarksRaisedConcat(s.highWaterMarks, Marked(s, init), MarkedBy(Exec(s, init), last));
    }
  }

  /** In every run, swaps included: the mark of a conversation is exactly the greatest of what it was
      and of the timestamps of all the conversation's records that arrived or were published. */
  lemma MarkIsGreatestSeen(s: Store, es: seq<Event>, c: string)
    requires c in s.highWaterMarks.own || c !in s.highWaterMarks.inherited
    ensures var before, after := HighWater(s.highWaterMarks, c), HighWater(Exec(s, es).highWaterMarks, c);
            && before <= after
            && (forall m <- Marked(s, es) :: m.conversationId == c ==> m.timestamp <= after)
            && (after == before || exists m <- Marked(s, es) :: m.conversationId == c && m.timestamp == after)
  {
    RunRaisesMarks(s, es);
    RaisedMarkIsGreatest(s.highWaterMarks, Marked(s, es), c);
  }

  // ------------------------------------------------------------------
  // Conversations and contacts
  // ------------------------------------------------------------------

  /** A record has a text, which is not empty, under a name. */
  predicate Says(fields: Fields, name: string, text: string) {
    name in fields && fields[name] == Text(text) && text != ""
  }

  ghost predicate Silent(fields: Fields, name: string) {
    forall text :: !Says(fields, name, text)
  }

  lemma TextOrMeans(fields: Fields, name: string, default: string)
    ensures forall text :: Says(fields, name, text) ==> TextOr(fields, name, default) == text
    ensures Silent(fields, name) ==> TextOr(fields, name, default) == default
  {
    if name in fields && fields[name].Text? && fields[name].text != "" {
      assert Says(fields, name, fields[name].text);
    }
  }

  /** What a stored record does to its conversation, if that exists, in either table; no other changes. */
  lemma StoredTouchesConversation(s: Store, m: Message, now: int)
    ensures var t := Stored(s, m, now);
            && t.conversations.Keys == s.conversations.Keys
            && (forall c <- s.conversations :: c != m.conversationId ==> t.conversations[c] == s.conversations[c])
            && (m.conversationId in s.conversations ==>
                  IsTouched(s.conversations[m.conversationId], t.conversations[m.conversationId], m))
            && t.stagingConversations ==
               if m.conversationId in s.conversations && m.conversationId in s.shared
               then s.stagingConversations[m.conversationId := t.conversations[m.conversationId]]
               else s.stagingConversations
  {
    TextOrMeans(m.fields, "textContent", "[" + TypeShown(m.fields) + "]");
  }

  /** The last message is the record's text, or its type in brackets; the time is the later of the two. */
  ghost predicate IsTouched(before: Conversation, after: Conversation, m: Message) {
    && after.id == before.id && after.fields == before.fields
    && (forall text :: Says(m.fields, "textContent", text) ==> after.lastMessage == text)
    && (forall kind :: Silent(m.fields, "textContent") && Says(m.fields, "type", kind) ==>
          after.lastMessage == "[" + kind + "]")
    && (Silent(m.fields, "textContent") && "type" !in m.fields ==> after.lastMessage == "[undefined]")
    && (m.timestamp <= before.lastTimestamp ==> after.lastTimestamp == before.lastTimestamp)
    && (before.lastTimestamp <= m.timestamp ==> after.lastTimestamp == m.timestamp)
  }

  /** The contact made for an unknown sender: its name is the one the record gives, or made of the
      last four characters of its id. */
  ghost predicate IsStub(c: Contact, m: Message, now: int) {
    && c.id == m.senderId && c.isStub && c.updatedAt == now
    && (forall name :: Says(m.fields, "senderName", name) ==> c.displayName == name)
    && (forall url :: Says(m.fields, "senderAvatar", url) ==> c.avatarUrl == url)
    && (Silent(m.fields, "senderAvatar") ==>
          c.avatarUrl == "https://api.dicebear.com/7.x/identicon/svg?seed=" + m.senderId)
  }

  predicate IsNamedAfterId(c: Contact) {
    exists n: nat :: n <= |c.id| && (|c.id| - n == 4 || (n == 0 && |c.id| < 4)) && c.displayName == "Thành viên " + c.id[n..]
  }

  /** A stored record leaves all contacts as they are, and makes one for an unknown sender. */
  lemma StoredIntroducesSender(s: Store, m: Message, now: int)
    ensures var t := Stored(s, m, now);
            && (forall id :: id in t.contacts <==> id in s.contacts || (id == m.senderId && id != ""))
            && (forall id <- s.contacts :: t.contacts[id] == s.contacts[id])
            && (m.senderId != "" && m.senderId !in s.contacts ==>
                  var c := t.contacts[m.senderId];
                  IsStub(c, m, now) && (Silent(m.fields, "senderName") ==> IsNamedAfterId(c)))
  {
    StubsAreStubs(m, now);
  }

  lemma StubsAreStubs(m: Message, now: int)
    ensures IsStub(ArrivedContact(m, now), m, now)
    ensures Silent(m.fields, "senderName") ==> IsNamedAfterId(ArrivedContact(m, now))
    ensures IsStub(SyntheticContact(m, now), m, now)
    ensures Silent(m.fields, "senderName") ==>
              if m.senderId == "ME" then SyntheticContact(m, now).displayName == "Tôi"
              else IsNamedAfterId(SyntheticContact(m, now))
  {
    var name := "Thành viên " + LastFour(m.senderId);
    NamedAfterId(m.senderId);
    TextOrMeans(m.fields, "senderName", name);
    TextOrMeans(m.fields, "senderName", if m.senderId == "ME" then "Tôi" else name);
    TextOrMeans(m.fields, "senderAvatar", "https://api.dicebear.com/7.x/identicon/svg?seed=" + m.senderId);
  }

  lemma NamedAfterId(id: string)
    ensures exists n: nat :: n <= |id| && (|id| - n == 4 || (n == 0 && |id| < 4)) && LastFour(id) == id[n..]
  {
    var n: nat := if |id| <= 4 then 0 else |id| - 4;
    assert LastFour(id) == id[n..];
  }

  lemma {:induction false} FirstRecordResolves(table: Contacts, msgs: seq<Message>, now: int, k: nat)
    requires k < |msgs| && msgs[k].senderId != "" && msgs[k].senderId !in table
    requires forall j :: 0 <= j < k ==> msgs[j].senderId != msgs[k].senderId
    ensures var id, resolved := msgs[k].senderId, SendersResolved(table, msgs, now);
            id in resolved && resolved[id] == SyntheticContact(msgs[k], now)
  {
    var n := |msgs| - 1;
    if k < n {
      assert msgs[..n][k] == msgs[k];
      FirstRecordResolves(table, msgs[..n], now, k);
    } else {
      ResolvingOnlyAddsStubs(table, msgs[..n], now, msgs[k].senderId);
    }
  }

  /** The stub that a swap publishes for a sender without a staged contact comes from its first staged record. */
  lemma SynthesisUsesFirstRecord(s: Store, now: int, k: nat)
    requires k < |s.stagingMessages| && s.stagingMessages[k].senderId != "" && s.stagingMessages[k].senderId !in s.stagingContacts
    requires forall j :: 0 <= j < k ==> s.stagingMessages[j].senderId != s.stagingMessages[k].senderId
    ensures var m, contacts := s.stagingMessages[k], Step(s, CommitSwap(now)).contacts;
            && m.senderId in contacts && IsStub(contacts[m.senderId], m, now)
            && (Silent(m.fields, "senderName") ==>
                  if m.senderId == "ME" then contacts[m.senderId].displayName == "Tôi"
                  else IsNamedAfterId(contacts[m.senderId]))
  {
    FirstRecordResolves(s.stagingContacts, s.stagingMessages, now, k);
    StubsAreStubs(s.stagingMessages[k], now);
  }

  lemma {:induction false} PutContactsConcat(table: Contacts, a: seq<Contact>, b: seq<Contact>)
    ensures PutContacts(table, a + b) == PutContacts(PutContacts(table, a), b)
  {
    if b == [] {
      assert a + b == a;
    } else {
      assert (a + b)[..|a + b| - 1] == a + b[..|b| - 1];
      PutContactsConcat(table, a, b[..|b| - 1]);
    }
  }

  /** Contacts are saved one after the other; one with an empty id is skipped, and no other contact changes. */
  lemma PutContactsMeans(table: Contacts, a: seq<Contact>, b: seq<Contact>, c: Contact)
    ensures PutContacts(table, a + b) == PutContacts(PutContacts(table, a), b)
    ensures PutContacts(table, []) == table
    ensures var after := PutContacts(table, [c]);
            if c.id == "" then after == table
            else
              && after.Keys == table.Keys + {c.id} && after[c.id] == c
              && forall id <- table :: id != c.id ==> after[id] == table[id]
  {
    PutContactsConcat(table, a, b);
    assert PutContacts(table, [c][..0]) == table;
  }

  /** An upserted conversation keeps each property that the new one does not have; no other conversation changes. */
  lemma UpsertedConversationMeans(s: Store, c: Conversation)
    ensures var t := Step(s, UpsertConversation(c));
            && (c.id == "" ==> t == s)
            && (c.id != "" ==>
                  && t.conversations.Keys == s.conversations.Keys + {c.id}
                  && (forall id <- s.conversations :: id != c.id ==> t.conversations[id] == s.conversations[id])
                  && var after, known := t.conversations[c.id], if c.id in s.conversations then s.conversations[c.id].fields else map[];
                  && after.(fields := c.fields) == c
                  && forall name ::
                       && (name in after.fields <==> name in c.fields || name in known)
                       && (name in c.fields ==> after.fields[name] == c.fields[name])
                       && (name in known && name !in c.fields ==> after.fields[name] == known[name]))
  {
  }
}
