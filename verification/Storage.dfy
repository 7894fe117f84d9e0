/**
 The message store with its blue/green staging partition. A suspended `addMessage`
 call (one that waits for a media download) is part of the state, so that anything
 may happen between its two halves.
*/
module Storage {
  import opened Prelude
  import opened Records

  datatype Contact = Contact(id: string, displayName: string, avatarUrl: string, isStub: bool, updatedAt: int)

  datatype Conversation = Conversation(id: string, lastMessage: string, lastTimestamp: int, fields: Fields)

  datatype Hydration = ColdStart | StagingIngestion | IntegrityCheck | Hydrated

  type Contacts = map<string, Contact>
  type Conversations = map<string, Conversation>

  /** A plain object used as a dictionary: its own properties, and the names that its prototype answers to. */
  datatype Marks = Marks(own: map<string, int>, inherited: set<string>)

  datatype Store = Store(
    messages: seq<Message>,
    conversations: Conversations,
    contacts: Contacts,
    stagingMessages: seq<Message>,
    stagingConversations: Conversations,
    stagingContacts: Contacts,
    highWaterMarks: Marks,
    hydration: Hydration,
    downloading: seq<Message>,
    shared: set<string>)

  // ------------------------------------------------------------------
  // The class
  // ------------------------------------------------------------------

  class ServerStorageEngine {
    var messages: seq<Message>
    var conversations: Conversations
    var contacts: Contacts
    var stagingMessages: seq<Message>
    var stagingConversations: Conversations
    var stagingContacts: Contacts
    var highWaterMarks: Marks
    var hydrationState: Hydration
    /** The `addMessage` calls that wait for their media. */
    var downloading: seq<Message>
    /** The ids whose conversation is one object in production and in staging. */
    var shared: set<string>

    ghost function Contents(): Store
      reads this
    {
      Store(messages, conversations, contacts, stagingMessages, stagingConversations, stagingContacts,
            highWaterMarks, hydrationState, downloading, shared)
    }

    constructor ()
      ensures Contents() == Empty(PROTOTYPE_NAMES)
    {
      messages, conversations, contacts := [], map[], map[];
      stagingMessages, stagingConversations, stagingContacts := [], map[], map[];
      highWaterMarks, hydrationState, downloading, shared := Marks(map[], PROTOTYPE_NAMES), ColdStart, [], {};
    }

    method StartStagingSession()
      modifies this
      ensures Contents() == Step(old(Contents()), StartStaging)
    {
      hydrationState := StagingIngestion;
      stagingMessages, stagingConversations, stagingContacts := [], map[], map[];
      shared := {};
    }

    method AddStagingConversations(convs: seq<Conversation>)
      modifies this
      ensures Contents() == Step(old(Contents()), StageConversations(convs))
    {
      for i := 0 to |convs|
        invariant Contents() == old(Contents()).(
          stagingConversations := PutConversations(old(stagingConversations), convs[..i]),
          shared := Separated(old(shared), convs[..i]))
      {
        assert convs[..i + 1][..i] == convs[..i];
        if convs[i].id == "" {
          continue;
        }
        stagingConversations := stagingConversations[convs[i].id := convs[i]];
        shared := shared - {convs[i].id};
      }
      assert convs[..|convs|] == convs;
    }

    method AddStagingContacts(cts: seq<Contact>)
      modifies this
      ensures Contents() == Step(old(Contents()), StageContacts(cts))
    {
      for i := 0 to |cts|
        invariant Contents() == old(Contents()).(stagingContacts := PutContacts(old(stagingContacts), cts[..i]))
      {
        assert cts[..i + 1][..i] == cts[..i];
        if cts[i].id == "" {
          continue;
        }
        stagingContacts := stagingContacts[cts[i].id := cts[i]];
      }
      assert cts[..|cts|] == cts;
    }

    method AddStagingMessages(msgs: seq<Message>)
      modifies this
      ensures Contents() == Step(old(Contents()), StageMessages(msgs))
    {
      for i := 0 to |msgs|
        invariant Contents() == old(Contents()).(stagingMessages := old(stagingMessages) + StagedForm(msgs[..i]))
      {
        assert msgs[..i + 1][..i] == msgs[..i];
        if msgs[i].msgId == "" {
          continue;
        }
        stagingMessages := stagingMessages + [WithSender(msgs[i])];
      }
      assert msgs[..|msgs|] == msgs;
    }

    method SynthesizeMissingContacts(now: int)
      modifies this
      ensures Contents() == Synthesized(old(Contents()), now)
    {
      hydrationState := IntegrityCheck;
      var existingContactIds := stagingContacts.Keys;
      for i := 0 to |stagingMessages|
        invariant stagingMessages == old(stagingMessages)
        invariant existingContactIds == stagingContacts.Keys
        invariant Contents() == old(Contents()).(
          hydration := IntegrityCheck,
          stagingContacts := SendersResolved(old(stagingContacts), stagingMessages[..i], now))
      {
        assert stagingMessages[..i + 1][..i] == stagingMessages[..i];
        var msg := stagingMessages[i];
        if msg.senderId != "" && msg.senderId !in existingContactIds {
          stagingContacts := stagingContacts[msg.senderId := SyntheticContact(msg, now)];
          existingContactIds := existingContactIds + {msg.senderId};
        }
      }
      assert stagingMessages[..|stagingMessages|] == stagingMessages;
    }

    method CommitStagingSwap(now: int)
      modifies this
      ensures Contents() == Swapped(old(Contents()), now)
    {
      SynthesizeMissingContacts(now);
      conversations, shared := stagingConversations, stagingConversations.Keys;
      contacts := stagingContacts;
      messages := DeduplicateMessagesById(stagingMessages);
      RaiseHighWaterMarks();
      hydrationState := Hydrated;
    }

    /** The loop of the swap over the published messages. */
    method RaiseHighWaterMarks()
      modifies this
      ensures Contents() == old(Contents()).(highWaterMarks := MarksRaised(old(highWaterMarks), old(messages)))
    {
      for i := 0 to |messages|
        invariant Contents() == old(Contents()).(highWaterMarks := MarksRaised(old(highWaterMarks), old(messages)[..i]))
      {
        assert messages[..i + 1][..i] == messages[..i];
        RaiseMark(messages[i]);
      }
      assert messages[..|messages|] == messages;
    }

    /** Up to the media download, or to the end if there is none. */
    method AddMessage(msg: Message, now: int)
      modifies this
      ensures Contents() == Step(old(Contents()), Event.AddMessage(msg, now))
    {
      var normalizedMsg := WithSender(msg);
      if NeedsDownload(msg) {
        downloading := downloading + [normalizedMsg];
      } else {
        StoreMessage(normalizedMsg, now);
      }
    }

    /** The download of suspended call `i` ends, and the call runs to its end. */
    method MediaArrives(i: nat, url: string, now: int)
      requires i < |downloading|
      modifies this
      ensures Contents() == Step(old(Contents()), Event.MediaArrives(i, url, now))
    {
      var msg := downloading[i];
      downloading := downloading[..i] + downloading[i + 1..];
      StoreMessage(msg.(fields := msg.fields["mediaUrl" := Text(url)]), now);
    }

    /** The second half of `addMessage`. */
    method StoreMessage(msg: Message, now: int)
      modifies this
      ensures Contents() == Stored(old(Contents()), msg, now)
    {
      PutMessage(msg);
      RaiseMark(msg);
      UpdateContainers(msg, now);
    }

    /** The conversation container and the sender's contact. */
    method UpdateContainers(msg: Message, now: int)
      modifies this`conversations, this`stagingConversations, this`contacts
      ensures conversations == ConversationTouched(old(conversations), msg)
      ensures stagingConversations == StagingTouched(old(conversations), old(stagingConversations), shared, msg)
      ensures contacts == ContactArrived(old(contacts), msg, now)
    {
      TouchConversation(msg);
      EnsureContact(msg, now);
    }

    method RaiseMark(msg: Message)
      modifies this`highWaterMarks
      ensures highWaterMarks == MarkRaised(old(highWaterMarks), msg)
    {
      var currentHwm := Mark(highWaterMarks, msg.conversationId);
      if currentHwm.Some? && msg.timestamp > currentHwm.value {
        highWaterMarks := highWaterMarks.(own := highWaterMarks.own[msg.conversationId := msg.timestamp]);
      }
    }

    method EnsureContact(msg: Message, now: int)
      modifies this`contacts
      ensures contacts == ContactArrived(old(contacts), msg, now)
    {
      if msg.senderId != "" && msg.senderId !in contacts {
        contacts := contacts[msg.senderId := ArrivedContact(msg, now)];
      }
    }

    method PutMessage(msg: Message)
      modifies this`messages
      ensures messages == Upserted(old(messages), msg)
    {
      var existingIdx := FindIndex(messages, msg.msgId);
      if existingIdx >= 0 {
        if msg.timestamp >= messages[existingIdx].timestamp {
          messages := messages[existingIdx := Spread(messages[existingIdx], msg)];
        }
      } else {
        messages := messages + [msg];
      }
    }

    /** The conversation object is updated in place, in every table that holds it. */
    method TouchConversation(msg: Message)
      modifies this`conversations, this`stagingConversations
      ensures conversations == ConversationTouched(old(conversations), msg)
      ensures stagingConversations == StagingTouched(old(conversations), old(stagingConversations), shared, msg)
    {
      if msg.conversationId in conversations {
        var conv := conversations[msg.conversationId];
        conv := conv.(lastMessage := TextOr(msg.fields, "textContent", "[" + TypeShown(msg.fields) + "]"));
        if msg.timestamp > conv.lastTimestamp {
          conv := conv.(lastTimestamp := msg.timestamp);
        }
        conversations := conversations[msg.conversationId := conv];
        if msg.conversationId in shared {
          stagingConversations := stagingConversations[msg.conversationId := conv];
        }
      }
    }

    /** `getMessages` without a conversation sorts the table in place. */
    method GetMessages(limit: nat) returns (result: seq<Message>)
      modifies this
      ensures Contents() == Step(old(Contents()), SortMessages)
      ensures result == LastOf(SortByTime(old(messages)), limit)
    {
      messages := SortByTime(messages);
      result := LastOf(messages, limit);
    }

    method GetMessagesOf(conversationId: string, limit: nat) returns (result: seq<Message>)
      ensures result == LastOf(SortByTime(InConversation(messages, conversationId)), limit)
    {
      result := LastOf(SortByTime(InConversation(messages, conversationId)), limit);
    }

    /** `None`: not a number, but what the prototype has under that name. */
    method GetHighWaterMark(conversationId: string) returns (mark: Option<int>)
      ensures mark == Mark(highWaterMarks, conversationId)
    {
      mark :=
        if conversationId in highWaterMarks.own then Some(highWaterMarks.own[conversationId])
        else if conversationId in highWaterMarks.inherited then None
        else Some(0);
    }

    method SaveConversations(convs: seq<Conversation>)
      modifies this
      ensures Contents() == Step(old(Contents()), Event.SaveConversations(convs))
    {
      for i := 0 to |convs|
        invariant Contents() == old(Contents()).(
          conversations := PutConversations(old(conversations), convs[..i]),
          shared := Separated(old(shared), convs[..i]))
      {
        assert convs[..i + 1][..i] == convs[..i];
        if convs[i].id == "" {
          continue;
        }
        conversations := conversations[convs[i].id := convs[i]];
        shared := shared - {convs[i].id};
      }
      assert convs[..|convs|] == convs;
    }

    method UpsertConversation(c: Conversation)
      modifies this
      ensures Contents() == Step(old(Contents()), Event.UpsertConversation(c))
    {
      if c.id == "" {
        return;
      }
      var merged := if c.id in conversations then c.(fields := conversations[c.id].fields + c.fields) else c;
      conversations := conversations[c.id := merged];
      shared := shared - {c.id};
    }

    method SaveContacts(cts: seq<Contact>)
      modifies this
      ensures Contents() == Step(old(Contents()), Event.SaveContacts(cts))
    {
      for i := 0 to |cts|
        invariant Contents() == old(Contents()).(contacts := PutContacts(old(contacts), cts[..i]))
      {
        assert cts[..i + 1][..i] == cts[..i];
        if cts[i].id == "" {
          continue;
        }
        contacts := contacts[cts[i].id := cts[i]];
      }
      assert cts[..|cts|] == cts;
    }

    /** All properties of a contact are required, so the spread over the existing one is the new one. */
    method UpsertContact(ct: Contact)
      modifies this
      ensures Contents() == Step(old(Contents()), Event.SaveContacts([ct]))
    {
      assert PutContacts(contacts, [ct][..0]) == contacts;
      if ct.id == "" {
        return;
      }
      contacts := contacts[ct.id := ct];
    }
  }

  /** What every plain object answers to without having it. */
  const PROTOTYPE_NAMES := {
    "constructor", "hasOwnProperty", "isPrototypeOf", "propertyIsEnumerable", "toLocaleString", "toString", "valueOf",
    "__defineGetter__", "__defineSetter__", "__lookupGetter__", "__lookupSetter__", "__proto__"}

  function Empty(inherited: set<string>): Store {
    Store([], map[], map[], [], map[], map[], Marks(map[], inherited), ColdStart, [], {})
  }

  // ------------------------------------------------------------------
  // The steps of the store
  // ------------------------------------------------------------------

  datatype Event =
    | AddMessage(msg: Message, now: int)
    | MediaArrives(call: nat, url: string, now: int)
    | SaveConversations(convs: seq<Conversation>)
    | UpsertConversation(conv: Conversation)
    | SaveContacts(cts: seq<Contact>)
    | SortMessages
    | StartStaging
    | StageConversations(staged: seq<Conversation>)
    | StageContacts(stagedContacts: seq<Contact>)
    | StageMessages(msgs: seq<Message>)
    | SynthesizeContacts(now: int)
    | CommitSwap(now: int)

  /** A property as text, or a default when it is absent, undefined or empty. */
  function TextOr(fields: Fields, name: string, default: string): string {
    if name in fields && fields[name].Text? && fields[name].text != "" then fields[name].text else default
  }

  /** The type as a template string shows it. */
  function TypeShown(fields: Fields): string {
    if "type" in fields && fields["type"].Text? then fields["type"].text else "undefined"
  }

  /** A record with its sender filled in. */
  function WithSender(m: Message): Message {
    m.(senderId := if m.senderId != "" then m.senderId else if m.fromMe then "ME" else m.conversationId)
  }

  predicate NeedsDownload(m: Message) {
    var url := TextOr(m.fields, "mediaUrl", "");
    url != "" && !("/api/media/" <= url)
  }

  function LastFour(s: string): string {
    if |s| <= 4 then s else s[|s| - 4..]
  }

  function AvatarOf(m: Message): string {
    TextOr(m.fields, "senderAvatar", "https://api.dicebear.com/7.x/identicon/svg?seed=" + m.senderId)
  }

  /** The stub that staging creates for an unknown sender. */
  function SyntheticContact(m: Message, now: int): Contact {
    var name := if m.senderId == "ME" then "Tôi" else "Thành viên " + LastFour(m.senderId);
    Contact(m.senderId, TextOr(m.fields, "senderName", name), AvatarOf(m), true, now)
  }

  /** The stub that a live message creates for an unknown sender. */
  function ArrivedContact(m: Message, now: int): Contact {
    Contact(m.senderId, TextOr(m.fields, "senderName", "Thành viên " + LastFour(m.senderId)), AvatarOf(m), true, now)
  }

  /** The mark of a conversation; an inherited name is no number, and no timestamp is above it. */
  function Mark(marks: Marks, conversationId: string): Option<int> {
    if conversationId in marks.own then Some(marks.own[conversationId])
    else if conversationId in marks.inherited then None
    else Some(0)
  }

  function MarkRaised(marks: Marks, m: Message): Marks {
    var current := Mark(marks, m.conversationId);
    if current.Some? && m.timestamp > current.value then marks.(own := marks.own[m.conversationId := m.timestamp])
    else marks
  }

  function MarksRaised(marks: Marks, messages: seq<Message>): Marks {
    if messages == [] then marks
    else MarkRaised(MarksRaised(marks, messages[..|messages| - 1]), messages[|messages| - 1])
  }

  function PutConversations(table: Conversations, convs: seq<Conversation>): Conversations {
    if convs == [] then table
    else
      var last := convs[|convs| - 1];
      var earlier := PutConversations(table, convs[..|convs| - 1]);
      if last.id == "" then earlier else earlier[last.id := last]
  }

  /** Ids of saved conversations are new objects, shared with no other table. */
  function Separated(shared: set<string>, convs: seq<Conversation>): set<string> {
    if convs == [] then shared
    else
      var last := convs[|convs| - 1];
      var earlier := Separated(shared, convs[..|convs| - 1]);
      if last.id == "" then earlier else earlier - {last.id}
  }

  function PutContacts(table: Contacts, cts: seq<Contact>): Contacts {
    if cts == [] then table
    else
      var last := cts[|cts| - 1];
      var earlier := PutContacts(table, cts[..|cts| - 1]);
      if last.id == "" then earlier else earlier[last.id := last]
  }

  function StagedForm(msgs: seq<Message>): seq<Message> {
    if msgs == [] then []
    else
      var last := msgs[|msgs| - 1];
      var earlier := StagedForm(msgs[..|msgs| - 1]);
      if last.msgId == "" then earlier else earlier + [WithSender(last)]
  }

  function SendersResolved(table: Contacts, msgs: seq<Message>, now: int): Contacts {
    if msgs == [] then table
    else
      var last := msgs[|msgs| - 1];
      var earlier := SendersResolved(table, msgs[..|msgs| - 1], now);
      if last.senderId != "" && last.senderId !in earlier then earlier[last.senderId := SyntheticContact(last, now)]
      else earlier
  }

  function ContactArrived(table: Contacts, m: Message, now: int): Contacts {
    if m.senderId != "" && m.senderId !in table then table[m.senderId := ArrivedContact(m, now)] else table
  }

  /** A live record enters the table: a new id is appended, a known id is overwritten unless the record is older. */
  function Upserted(messages: seq<Message>, m: Message): seq<Message> {
    var i := FindIndex(messages, m.msgId);
    if i < 0 then messages + [m]
    else if m.timestamp >= messages[i].timestamp then messages[i := Spread(messages[i], m)]
    else messages
  }

  function Touch(c: Conversation, m: Message): Conversation {
    c.(lastMessage := TextOr(m.fields, "textContent", "[" + TypeShown(m.fields) + "]"),
       lastTimestamp := Max(c.lastTimestamp, m.timestamp))
  }

  function ConversationTouched(table: Conversations, m: Message): Conversations {
    if m.conversationId !in table then table
    else table[m.conversationId := Touch(table[m.conversationId], m)]
  }

  /** A touch of a shared conversation shows in staging, too. */
  function StagingTouched(table: Conversations, staging: Conversations, shared: set<string>, m: Message): Conversations {
    if m.conversationId in table && m.conversationId in shared
    then staging[m.conversationId := Touch(table[m.conversationId], m)]
    else staging
  }

  function Stored(s: Store, m: Message, now: int): Store {
    s.(messages := Upserted(s.messages, m),
       highWaterMarks := MarkRaised(s.highWaterMarks, m),
       conversations := ConversationTouched(s.conversations, m),
       stagingConversations := StagingTouched(s.conversations, s.stagingConversations, s.shared, m),
       contacts := ContactArrived(s.contacts, m, now))
  }

  function Synthesized(s: Store, now: int): Store {
    s.(hydration := IntegrityCheck, stagingContacts := SendersResolved(s.stagingContacts, s.stagingMessages, now))
  }

  function Swapped(s: Store, now: int): Store {
    var t := Synthesized(s, now);
    var published := Deduplicated(t.stagingMessages);
    t.(conversations := t.stagingConversations,
       shared := t.stagingConversations.Keys,
       contacts := t.stagingContacts,
       messages := published,
       highWaterMarks := MarksRaised(t.highWaterMarks, published),
       hydration := Hydrated)
  }

  /** An event that names no suspended call changes nothing. */
  function Step(s: Store, e: Event): Store {
    match e
    case AddMessage(msg, now) =>
      if NeedsDownload(msg) then s.(downloading := s.downloading + [WithSender(msg)])
      else Stored(s, WithSender(msg), now)
    case MediaArrives(i, url, now) =>
      if i >= |s.downloading| then s
      else
        var m := s.downloading[i];
        Stored(s.(downloading := s.downloading[..i] + s.downloading[i + 1..]),
               m.(fields := m.fields["mediaUrl" := Text(url)]), now)
    case SaveConversations(convs) => s.(conversations := PutConversations(s.conversations, convs), shared := Separated(s.shared, convs))
    case UpsertConversation(c) =>
      if c.id == "" then s
      else
        var merged := if c.id in s.conversations then c.(fields := s.conversations[c.id].fields + c.fields) else c;
        s.(conversations := s.conversations[c.id := merged], shared := s.shared - {c.id})
    case SaveContacts(cts) => s.(contacts := PutContacts(s.contacts, cts))
    case SortMessages => s.(messages := SortByTime(s.messages))
    case StartStaging =>
      s.(hydration := StagingIngestion, stagingMessages := [], stagingConversations := map[], stagingContacts := map[],
         shared := {})
    case StageConversations(convs) =>
      s.(stagingConversations := PutConversations(s.stagingConversations, convs), shared := Separated(s.shared, convs))
    case StageContacts(cts) => s.(stagingContacts := PutContacts(s.stagingContacts, cts))
    case StageMessages(msgs) => s.(stagingMessages := s.stagingMessages + StagedForm(msgs))
    case SynthesizeContacts(now) => Synthesized(s, now)
    case CommitSwap(now) => Swapped(s, now)
  }

  /** The record that an event puts before the message table. */
  function Arrives(s: Store, e: Event): seq<Message> {
    match e
    case AddMessage(msg, now) => if NeedsDownload(msg) then [] else [WithSender(msg)]
    case MediaArrives(i, url, now) =>
      if i >= |s.downloading| then []
      else [s.downloading[i].(fields := s.downloading[i].fields["mediaUrl" := Text(url)])]
    case _ => []
  }

  function Exec(s: Store, es: seq<Event>): Store
    decreases es
  {
    if es == [] then s else Exec(Step(s, es[0]), es[1..])
  }

  predicate NoSwap(es: seq<Event>) {
    forall i :: 0 <= i < |es| ==> !es[i].CommitSwap?
  }

  lemma {:induction false} ExecLast(s: Store, es: seq<Event>)
    requires es != []
    ensures Exec(s, es) == Step(Exec(s, es[..|es| - 1]), es[|es| - 1])
    decreases es
  {
    if |es| > 1 {
      ExecLast(Step(s, es[0]), es[1..]);
      assert es[1..][..|es| - 2] == es[..|es| - 1][1..];
    }
  }

  // ------------------------------------------------------------------
  // What the getters return
  // ------------------------------------------------------------------

  function LastOf<T>(s: seq<T>, limit: nat): seq<T> {
    if limit == 0 || |s| <= limit then s else s[|s| - limit..]
  }

  function InConversation(messages: seq<Message>, conversationId: string): seq<Message> {
    if messages == [] then []
    else
      var last := messages[|messages| - 1];
      var earlier := InConversation(messages[..|messages| - 1], conversationId);
      if last.conversationId == conversationId then earlier + [last] else earlier
  }

  // ------------------------------------------------------------------
  // Integrity in every interleaving
  // ------------------------------------------------------------------

  /** A record is at or below its conversation's mark, unless the mark is an inherited name. */
  predicate BelowMark(m: Message, marks: Marks) {
    var mark := Mark(marks, m.conversationId);
    mark.Some? ==> m.timestamp <= mark.value
  }

  /** No stored message is above its conversation's mark. */
  predicate BelowMarks(messages: seq<Message>, marks: Marks) {
    forall i :: 0 <= i < |messages| ==> BelowMark(messages[i], marks)
  }

  /** Every non-empty sender has a contact. */
  predicate SendersKnown(messages: seq<Message>, contacts: Contacts) {
    forall i :: 0 <= i < |messages| ==> messages[i].senderId == "" || messages[i].senderId in contacts
  }

  ghost predicate Consistent(s: Store) {
    && UniqueIds(s.messages)
    && BelowMarks(s.messages, s.highWaterMarks)
    && SendersKnown(s.messages, s.contacts)
  }

  lemma UpsertKeepsIds(messages: seq<Message>, m: Message)
    requires UniqueIds(messages)
    ensures UniqueIds(Upserted(messages, m))
  {
  }

  lemma UpsertStaysBelowMarks(messages: seq<Message>, marks: Marks, m: Message)
    requires BelowMarks(messages, marks)
    ensures BelowMarks(Upserted(messages, m), MarkRaised(marks, m))
  {
  }

  lemma UpsertKeepsSenders(messages: seq<Message>, contacts: Contacts, after: Contacts, m: Message)
    requires SendersKnown(messages, contacts) && contacts.Keys <= after.Keys
    requires m.senderId == "" || m.senderId in after
    ensures SendersKnown(Upserted(messages, m), after)
  {
  }

  lemma StoredKeepsConsistency(s: Store, m: Message, now: int)
    requires Consistent(s)
    ensures Consistent(Stored(s, m, now))
  {
    UpsertKeepsIds(s.messages, m);
    UpsertStaysBelowMarks(s.messages, s.highWaterMarks, m);
    UpsertKeepsSenders(s.messages, s.contacts, Stored(s, m, now).contacts, m);
  }

  lemma {:induction false} RaisingReachesAll(marks: Marks, messages: seq<Message>)
    ensures BelowMarks(messages, MarksRaised(marks, messages))
  {
    if messages != [] {
      var init, last := messages[..|messages| - 1], messages[|messages| - 1];
      RaisingReachesAll(marks, init);
      assert messages == init + [last];
    }
  }

  predicate NotLowered(before: Marks, after: Marks, c: string) {
    var a, b := Mark(before, c), Mark(after, c);
    (a.Some? <==> b.Some?) && (a.Some? ==> a.value <= b.value)
  }

  lemma {:induction false} RaisingNeverLowers(marks: Marks, messages: seq<Message>, c: string)
    ensures NotLowered(marks, MarksRaised(marks, messages), c)
  {
    if messages != [] {
      RaisingNeverLowers(marks, messages[..|messages| - 1], c);
    }
  }

  lemma {:induction false} ResolvingReachesAll(table: Contacts, msgs: seq<Message>, now: int)
    ensures SendersKnown(msgs, SendersResolved(table, msgs, now))
  {
    if msgs != [] {
      var init, last := msgs[..|msgs| - 1], msgs[|msgs| - 1];
      ResolvingReachesAll(table, init, now);
      assert msgs == init + [last];
    }
  }

  /** Synthesis keeps every staged contact and adds stubs for staged senders only. */
  lemma {:induction false} ResolvingOnlyAddsStubs(table: Contacts, msgs: seq<Message>, now: int, id: string)
    ensures var resolved := SendersResolved(table, msgs, now);
            && (id in table ==> id in resolved && resolved[id] == table[id])
            && (id in resolved && id !in table ==>
                  resolved[id].isStub && exists i :: 0 <= i < |msgs| && msgs[i].senderId == id)
  {
    if msgs != [] {
      var init, last := msgs[..|msgs| - 1], msgs[|msgs| - 1];
      ResolvingOnlyAddsStubs(table, init, now, id);
      assert msgs[|msgs| - 1] == last;
      assert forall i :: 0 <= i < |init| ==> init[i] == msgs[i];
    }
  }

  lemma {:induction false} PutKeepsContacts(table: Contacts, cts: seq<Contact>)
    ensures table.Keys <= PutContacts(table, cts).Keys
  {
    if cts != [] {
      PutKeepsContacts(table, cts[..|cts| - 1]);
    }
  }

  lemma {:induction false} PermutationKeepsIntegrity(a: seq<Message>, b: seq<Message>, marks: Marks, contacts: Contacts)
    requires multiset(a) == multiset(b) && BelowMarks(a, marks) && SendersKnown(a, contacts)
    ensures BelowMarks(b, marks) && SendersKnown(b, contacts)
  {
    MembersAgree(a, b);
    forall i | 0 <= i < |b|
      ensures BelowMark(b[i], marks)
      ensures b[i].senderId == "" || b[i].senderId in contacts
    {
      assert b[i] in a;
    }
  }

  /** Deduplicated records come from the list, with the sender of their last record. */
  lemma {:induction false} MergedSendersAreListed(list: seq<Message>, contacts: Contacts)
    requires SendersKnown(list, contacts)
    ensures SendersKnown(MergeById(list), contacts)
  {
    if list != [] {
      var init, last := list[..|list| - 1], list[|list| - 1];
      MergedSendersAreListed(init, contacts);
      assert list[|list| - 1] == last;
    }
  }

  lemma SwapIsConsistent(s: Store, now: int)
    ensures Consistent(Swapped(s, now))
  {
    var t := Synthesized(s, now);
    var merged := MergeById(t.stagingMessages);
    DeduplicatedMeans(t.stagingMessages);
    RaisingReachesAll(t.highWaterMarks, Deduplicated(t.stagingMessages));
    ResolvingReachesAll(s.stagingContacts, s.stagingMessages, now);
    MergedSendersAreListed(t.stagingMessages, t.stagingContacts);
    SortIsStable(merged);
    SendersSurviveSort(merged, t.stagingContacts);
  }

  lemma SendersSurviveSort(list: seq<Message>, contacts: Contacts)
    requires SendersKnown(list, contacts)
    ensures SendersKnown(SortByTime(list), contacts)
  {
    SortIsStable(list);
    MembersAgree(list, SortByTime(list));
    forall i | 0 <= i < |SortByTime(list)|
      ensures SortByTime(list)[i].senderId == "" || SortByTime(list)[i].senderId in contacts
    {
      assert SortByTime(list)[i] in list;
    }
  }

  lemma SortKeepsConsistency(s: Store)
    requires Consistent(s)
    ensures Consistent(s.(messages := SortByTime(s.messages)))
  {
    SortIsStable(s.messages);
    PermutationLooksUpAlike(s.messages, SortByTime(s.messages));
    PermutationKeepsIntegrity(s.messages, SortByTime(s.messages), s.highWaterMarks, s.contacts);
  }

  lemma StepKeepsConsistency(s: Store, e: Event)
    requires Consistent(s)
    ensures Consistent(Step(s, e))
  {
    match e
    case AddMessage(msg, now) =>
      if !NeedsDownload(msg) {
        StoredKeepsConsistency(s, WithSender(msg), now);
      }
    case MediaArrives(i, url, now) =>
      if i < |s.downloading| {
        var m := s.downloading[i];
        StoredKeepsConsistency(s.(downloading := s.downloading[..i] + s.downloading[i + 1..]),
                               m.(fields := m.fields["mediaUrl" := Text(url)]), now);
      }
    case SaveContacts(cts) => PutKeepsContacts(s.contacts, cts);
    case SortMessages => SortKeepsConsistency(s);
    case CommitSwap(now) => SwapIsConsistent(s, now);
    case _ =>
  }

  /** From a consistent store, in every interleaving of live additions (also those
      suspended at a download), saves, reads, staging calls and swaps: message ids stay
      distinct, no message is above its conversation's mark, every sender has a contact. */
  lemma {:induction false} AlwaysConsistent(s: Store, es: seq<Event>)
    requires Consistent(s)
    ensures Consistent(Exec(s, es))
    decreases es
  {
    if es != [] {
      StepKeepsConsistency(s, es[0]);
      AlwaysConsistent(Step(s, es[0]), es[1..]);
    }
  }

  /** Only a swap and an arriving record touch the marks. */
  lemma StepMarks(s: Store, e: Event)
    requires !e.CommitSwap?
    ensures Step(s, e).highWaterMarks ==
            if Arrives(s, e) == [] then s.highWaterMarks else MarkRaised(s.highWaterMarks, Arrives(s, e)[0])
  {
  }

  lemma RaisingOneNeverLowers(marks: Marks, m: Message, c: string)
    ensures NotLowered(marks, MarkRaised(marks, m), c)
  {
  }

  lemma StepNeverLowersMarks(s: Store, e: Event, c: string)
    ensures NotLowered(s.highWaterMarks, Step(s, e).highWaterMarks, c)
  {
    if e.CommitSwap? {
      RaisingNeverLowers(s.highWaterMarks, Swapped(s, e.now).messages, c);
    } else {
      StepMarks(s, e);
      if Arrives(s, e) != [] {
        RaisingOneNeverLowers(s.highWaterMarks, Arrives(s, e)[0], c);
      }
    }
  }

  /** No high-water mark ever decreases, not even when a swap drops the messages it came from. */
  lemma {:induction false} MarksNeverDecrease(s: Store, es: seq<Event>, c: string)
    ensures NotLowered(s.highWaterMarks, Exec(s, es).highWaterMarks, c)
    decreases es
  {
    if es != [] {
      StepNeverLowersMarks(s, es[0], c);
      MarksNeverDecrease(Step(s, es[0]), es[1..], c);
    }
  }

  /** What the source means by a mark: the number stored, or 0. */
  function HighWater(marks: Marks, c: string): int {
    if c in marks.own then marks.own[c] else 0
  }

  /** In every run, a stored message is at or below its conversation's number exactly when the
      conversation id is not, at the start, an inherited name without a number of its own, or
      when the timestamp is not positive. */
  lemma MarkBoundsIff(s: Store, es: seq<Event>, i: nat)
    requires Consistent(s) && i < |Exec(s, es).messages|
    ensures var t := Exec(s, es);
            var m := t.messages[i];
            m.timestamp <= HighWater(t.highWaterMarks, m.conversationId) <==>
            m.timestamp <= 0 || m.conversationId !in s.highWaterMarks.inherited - s.highWaterMarks.own.Keys
  {
    var t := Exec(s, es);
    AlwaysConsistent(s, es);
    MarksNeverDecrease(s, es, t.messages[i].conversationId);
    assert BelowMark(t.messages[i], t.highWaterMarks);
  }

  /** An inherited name never gets a mark: a message of that conversation is stored above it. */
  lemma InheritedNameHasNoMark(m: Message, now: int)
    requires m.conversationId == "constructor" && m.timestamp > 0 && !NeedsDownload(m)
    ensures var t := Exec(Empty(PROTOTYPE_NAMES), [AddMessage(m, now)]);
            t.messages == [WithSender(m)] && HighWater(t.highWaterMarks, m.conversationId) == 0 < m.timestamp
  {
    var s := Empty(PROTOTYPE_NAMES);
    assert Exec(s, [AddMessage(m, now)]) == Exec(Step(s, AddMessage(m, now)), []);
  }
}
