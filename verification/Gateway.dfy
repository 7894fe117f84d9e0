/**
 The queue in front of the store. A write of the single worker puts a conversation
 stub, a contact stub and the message into the store. Here nothing else calls the store,
 so that each write is taken as a whole, at its end, writes never overlapping.
*/
module Gateway {
  import opened Prelude
  import opened Records
  import opened Storage
  import opened Arrival
  import opened Staging
  import opened Effects
  import Q = QueueWriter

  datatype Task = Task(
    msgId: string, conversationId: string, senderId: string, fromMe: bool, timestamp: int, fields: Fields)

  /** What a write reads besides the store: the id mapping, the media downloads, and the clock (which only dates stubs). */
  datatype Env = Env(globalIds: map<string, string>, download: string -> string, now: int)

  function ConversationOf(task: Task): string {
    if task.conversationId == "" then "general" else task.conversationId
  }

  function BuiltFields(task: Task): Fields {
    map name | name in WRITTEN_FIELDS ::
      if name == "status" then Text(TextOr(task.fields, "status", "DELIVERED"))
      else if name == "type" then
        Text(TextOr(task.fields, "type", if TextOr(task.fields, "mediaUrl", "") == "" then "TEXT" else "IMAGE"))
      else if name in task.fields then task.fields[name]
      else Undefined
  }

  /** The record that a write hands to the store. */
  function Built(env: Env, task: Task): Message {
    WithSender(Message(
      if task.msgId in env.globalIds then env.globalIds[task.msgId] else task.msgId,
      ConversationOf(task), task.senderId, task.fromMe, task.timestamp, BuiltFields(task)))
  }

  /** The record that the store keeps of it, with its media downloaded. */
  function Final(env: Env, task: Task): Message {
    var m := Built(env, task);
    if NeedsDownload(m) then m.(fields := m.fields["mediaUrl" := Text(env.download(TextOr(m.fields, "mediaUrl", "")))]) else m
  }

  function StubConversation(env: Env, task: Task): Conversation {
    Conversation(
      ConversationOf(task),
      TextOr(task.fields, "textContent", "[" + TextOr(task.fields, "type", "Tin nhắn") + "]"),
      if task.timestamp == 0 then env.now else task.timestamp,
      map[])
  }

  function WithConversation(env: Env, s: Store, task: Task): Store {
    if ConversationOf(task) in s.conversations then s
    else s.(conversations := s.conversations[ConversationOf(task) := StubConversation(env, task)],
            shared := s.shared - {ConversationOf(task)})
  }

  function WithContact(s: Store, m: Message, now: int): Store {
    if m.senderId == "" || m.senderId in s.contacts then s
    else s.(contacts := s.contacts[m.senderId := SyntheticContact(m, now)])
  }

  /** The store after the stubs of a write: the point at which it calls `addMessage`. */
  function Ready(env: Env, s: Store, task: Task): Store {
    WithContact(WithConversation(env, s, task), Built(env, task), env.now)
  }

  /** One write of the worker, from its first stub to the end of `addMessage`. */
  function Write(env: Env, s: Store, task: Task): Store {
    Stored(Ready(env, s, task), Final(env, task), env.now)
  }

  /** The store after some whole writes, one after the other. */
  function WriteAll(env: Env, s: Store, tasks: seq<Task>): Store {
    if tasks == [] then s else Write(env, WriteAll(env, s, tasks[..|tasks| - 1]), tasks[|tasks| - 1])
  }

  lemma BuiltIsPopulated(env: Env, task: Task)
    ensures Populated(Built(env, task)) && Populated(Final(env, task))
    ensures Final(env, task).senderId != ""
  {
    assert Built(env, task).fields.Keys == WRITTEN_FIELDS;
    assert ConversationOf(task) != "";
  }

  // ------------------------------------------------------------------
  // What a write stores of its task
  // ------------------------------------------------------------------

  /** A property is the task's own, or undefined. */
  predicate Copied(task: Task, m: Message, name: string) {
    name in m.fields && m.fields[name] == if name in task.fields then task.fields[name] else Undefined
  }

  /** A property is the text that the task gives, or a default when it gives none. */
  ghost predicate Defaulted(task: Task, m: Message, name: string, default: string) {
    && name in m.fields
    && (forall text :: Says(task.fields, name, text) ==> m.fields[name] == Text(text))
    && (Silent(task.fields, name) ==> m.fields[name] == Text(default))
  }

  /** The media of the task, if it gives any, is downloaded unless it is the gateway's own. */
  ghost predicate MediaFetched(env: Env, task: Task, m: Message) {
    && (Silent(task.fields, "mediaUrl") ==> Copied(task, m, "mediaUrl"))
    && forall url :: Says(task.fields, "mediaUrl", url) ==>
         "mediaUrl" in m.fields && m.fields["mediaUrl"] == Text(if "/api/media/" <= url then url else env.download(url))
  }

  /** Whose record it is, and of when. */
  predicate Addressed(env: Env, task: Task, m: Message) {
    && m.msgId == (if task.msgId in env.globalIds then env.globalIds[task.msgId] else task.msgId)
    && (if task.conversationId == "" then m.conversationId == "general" else m.conversationId == task.conversationId)
    && m.fromMe == task.fromMe && m.timestamp == task.timestamp
    && (if task.senderId != "" then m.senderId == task.senderId
        else if task.fromMe then m.senderId == "ME"
        else m.senderId == m.conversationId)
  }

  /** The properties that are the task's own. */
  predicate AllCopied(task: Task, m: Message) {
    && Copied(task, m, "senderName") && Copied(task, m, "senderAvatar") && Copied(task, m, "textContent")
    && Copied(task, m, "mediaName") && Copied(task, m, "mediaSize")
    && Copied(task, m, "reactions") && Copied(task, m, "mentions")
  }

  ghost predicate AllDefaulted(task: Task, m: Message) {
    && Defaulted(task, m, "status", "DELIVERED")
    && (Silent(task.fields, "mediaUrl") ==> Defaulted(task, m, "type", "TEXT"))
    && (forall url :: Says(task.fields, "mediaUrl", url) ==> Defaulted(task, m, "type", "IMAGE"))
  }

  predicate NothingElse(m: Message) {
    forall name <- m.fields :: name in {
      "senderName", "senderAvatar", "textContent", "mediaName", "mediaSize",
      "reactions", "mentions", "status", "type", "mediaUrl"}
  }

  /** The record is what the task says, property by property, and nothing else. */
  ghost predicate Tells(env: Env, task: Task, m: Message) {
    Addressed(env, task, m) && AllCopied(task, m) && AllDefaulted(task, m) && MediaFetched(env, task, m) && NothingElse(m)
  }

  lemma SilentMeans(fields: Fields, name: string)
    ensures Silent(fields, name) <==> TextOr(fields, name, "") == ""
    ensures !Silent(fields, name) ==> name in fields && Says(fields, name, TextOr(fields, name, ""))
    ensures forall text :: Says(fields, name, text) ==> TextOr(fields, name, "") == text
  {
    if TextOr(fields, name, "") != "" {
      assert Says(fields, name, TextOr(fields, name, ""));
    }
  }

  lemma DefaultsHold(task: Task, m: Message)
    requires "status" in m.fields && m.fields["status"] == BuiltFields(task)["status"]
    requires "type" in m.fields && m.fields["type"] == BuiltFields(task)["type"]
    ensures AllDefaulted(task, m)
  {
    SilentMeans(task.fields, "mediaUrl");
    TextOrMeans(task.fields, "status", "DELIVERED");
    TextOrMeans(task.fields, "type", if Silent(task.fields, "mediaUrl") then "TEXT" else "IMAGE");
  }

  lemma CopiesHold(env: Env, task: Task)
    ensures AllCopied(task, Final(env, task)) && NothingElse(Final(env, task))
  {
    BuiltIsPopulated(env, task);
  }

  lemma AddressHolds(env: Env, task: Task)
    ensures Addressed(env, task, Final(env, task))
  {
  }

  lemma MediaIsFetched(env: Env, task: Task)
    ensures MediaFetched(env, task, Final(env, task))
  {
    var m := Built(env, task);
    SilentMeans(task.fields, "mediaUrl");
    assert "mediaUrl" in m.fields;
    assert TextOr(m.fields, "mediaUrl", "") == TextOr(task.fields, "mediaUrl", "");
  }

  lemma FinalTells(env: Env, task: Task)
    ensures Tells(env, task, Final(env, task))
  {
    BuiltIsPopulated(env, task);
    AddressHolds(env, task);
    CopiesHold(env, task);
    DefaultsHold(task, Final(env, task));
    MediaIsFetched(env, task);
  }

  lemma TellingFixesField(env: Env, task: Task, a: Message, b: Message, name: string)
    requires Tells(env, task, a) && Tells(env, task, b) && name in WRITTEN_FIELDS
    ensures name in a.fields && name in b.fields && a.fields[name] == b.fields[name]
  {
    SilentMeans(task.fields, "mediaUrl");
    SilentMeans(task.fields, "status");
    SilentMeans(task.fields, "type");
  }

  lemma TellingFixesFields(env: Env, task: Task, a: Message, b: Message)
    requires Tells(env, task, a) && Tells(env, task, b)
    ensures a.fields == b.fields
  {
    assert forall name <- a.fields :: name in WRITTEN_FIELDS;
    assert forall name <- b.fields :: name in WRITTEN_FIELDS;
    forall name <- WRITTEN_FIELDS
      ensures name in a.fields && name in b.fields && a.fields[name] == b.fields[name]
    {
      TellingFixesField(env, task, a, b, name);
    }
  }

  /** The record that a write stores is exactly the one that tells its task. */
  lemma FinalIsWhatTells(env: Env, task: Task, m: Message)
    ensures m == Final(env, task) <==> Tells(env, task, m)
  {
    FinalTells(env, task);
    if Tells(env, task, m) {
      TellingFixesFields(env, task, m, Final(env, task));
      assert Addressed(env, task, Final(env, task));
    }
  }

  /** After a write the table has, under the id of the task, what the task says: alone if the id is new,
      and otherwise spread over what was known, unless that was newer. No other id is touched. */
  lemma WriteStoresTask(env: Env, s: Store, task: Task, id: string)
    requires UniqueIds(s.messages)
    ensures var after := Lookup(Write(env, s, task).messages, id);
            if id != (if task.msgId in env.globalIds then env.globalIds[task.msgId] else task.msgId)
            then after == Lookup(s.messages, id)
            else
              match Lookup(s.messages, id)
              case None => after.Some? && Tells(env, task, after.value)
              case Some(known) =>
                if task.timestamp < known.timestamp then after == Some(known)
                else after.Some? && exists m: Message :: Tells(env, task, m) && Combines(after.value, [known, m], id)
  {
    var m := Final(env, task);
    FinalTells(env, task);
    AddressHolds(env, task);
    UpsertLooksUp(s.messages, m, id);
    UpsertCombines(s.messages, m);
    assert Write(env, s, task).messages == Upserted(s.messages, m);
  }

  /** The stub that a write makes for an unknown conversation, as it stands until the message is stored. */
  lemma StubConversationMeans(env: Env, s: Store, task: Task)
    ensures var c, t := ConversationOf(task), WithConversation(env, s, task);
            && c in t.conversations
            && (forall other <- s.conversations :: other in t.conversations && t.conversations[other] == s.conversations[other])
            && t.conversations.Keys == s.conversations.Keys + {c}
            && (c !in s.conversations ==>
                  var stub := t.conversations[c];
                  && stub.id == c && c !in t.shared
                  && (forall text :: Says(task.fields, "textContent", text) ==> stub.lastMessage == text)
                  && (forall kind :: Silent(task.fields, "textContent") && Says(task.fields, "type", kind) ==>
                        stub.lastMessage == "[" + kind + "]")
                  && (Silent(task.fields, "textContent") && Silent(task.fields, "type") ==> stub.lastMessage == "[Tin nhắn]")
                  && stub.lastTimestamp == if task.timestamp == 0 then env.now else task.timestamp)
  {
    TextOrMeans(task.fields, "type", "Tin nhắn");
    TextOrMeans(task.fields, "textContent", "[" + TextOr(task.fields, "type", "Tin nhắn") + "]");
  }

  // ------------------------------------------------------------------
  // One write
  // ------------------------------------------------------------------

  /** A write is made of calls to the store: two saves of stubs, where they are missing, and
      an `addMessage` that runs through or waits once for its download. */
  lemma WriteIsStoreCalls(env: Env, s: Store, task: Task)
    ensures var m, conversation := Built(env, task), StubConversation(env, task);
            var s1 := if ConversationOf(task) in s.conversations then s else Step(s, SaveConversations([conversation]));
            var s2 := if m.senderId in s1.contacts then s1 else Step(s1, SaveContacts([SyntheticContact(m, env.now)]));
            var s3 := Step(s2, AddMessage(m, env.now));
            Write(env, s, task) ==
            if !NeedsDownload(m) then s3
            else Step(s3, MediaArrives(|s2.downloading|, env.download(TextOr(m.fields, "mediaUrl", "")), env.now))
  {
    var m, conversation := Built(env, task), StubConversation(env, task);
    SaveOneConversation(s, conversation);
    SaveOneContact(WithConversation(env, s, task), SyntheticContact(m, env.now));
    AddOneMessage(Ready(env, s, task), m, env.download(TextOr(m.fields, "mediaUrl", "")), env.now);
  }

  lemma SaveOneConversation(s: Store, c: Conversation)
    requires c.id != ""
    ensures Step(s, SaveConversations([c])) == s.(conversations := s.conversations[c.id := c], shared := s.shared - {c.id})
  {
    assert PutConversations(s.conversations, [c][..0]) == s.conversations;
    assert Separated(s.shared, [c][..0]) == s.shared;
  }

  lemma SaveOneContact(s: Store, c: Contact)
    requires c.id != ""
    ensures Step(s, SaveContacts([c])) == s.(contacts := s.contacts[c.id := c])
  {
    assert PutContacts(s.contacts, [c][..0]) == s.contacts;
  }

  lemma AddOneMessage(s: Store, m: Message, url: string, now: int)
    requires WithSender(m) == m
    ensures var t := Step(s, AddMessage(m, now));
            if NeedsDownload(m)
            then Step(t, MediaArrives(|s.downloading|, url, now)) == Stored(s, m.(fields := m.fields["mediaUrl" := Text(url)]), now)
            else t == Stored(s, m, now)
  {
    if NeedsDownload(m) {
      var t := s.(downloading := s.downloading + [m]);
      var i := |s.downloading|;
      assert t.downloading[..i] + t.downloading[i + 1..] == s.downloading;
    }
  }

  lemma StoredKeepsConversations(s: Store, m: Message, now: int)
    requires ConversationsKnown(s) && m.conversationId in s.conversations
    ensures ConversationsKnown(Stored(s, m, now))
  {
    assert ConversationTouched(s.conversations, m).Keys == s.conversations.Keys;
    assert forall i :: 0 <= i < |Upserted(s.messages, m)| ==> Upserted(s.messages, m)[i].conversationId in s.conversations;
  }

  lemma StubConversationKeepsKeys(env: Env, s: Store, task: Task)
    requires Consistent(s) && ConversationsKnown(s)
    ensures var t := WithConversation(env, s, task);
            && Consistent(t) && ConversationsKnown(t)
            && t.messages == s.messages && ConversationOf(task) in t.conversations
  {
  }

  lemma NewContactKeepsKeys(s: Store, c: Contact)
    requires Consistent(s) && ConversationsKnown(s)
    ensures var t := s.(contacts := s.contacts[c.id := c]);
            Consistent(t) && ConversationsKnown(t)
  {
  }

  lemma StubContactKeepsKeys(s: Store, m: Message, now: int)
    requires Consistent(s) && ConversationsKnown(s)
    ensures var t := WithContact(s, m, now);
            && Consistent(t) && ConversationsKnown(t)
            && t.messages == s.messages && t.conversations == s.conversations
  {
    NewContactKeepsKeys(s, SyntheticContact(m, now));
  }

  lemma ReadyIsComplete(env: Env, s: Store, task: Task)
    requires Consistent(s) && ConversationsKnown(s)
    ensures var ready := Ready(env, s, task);
            && Consistent(ready) && ConversationsKnown(ready)
            && ready.messages == s.messages
            && ConversationOf(task) in ready.conversations
  {
    StubConversationKeepsKeys(env, s, task);
    StubContactKeepsKeys(WithConversation(env, s, task), Built(env, task), env.now);
  }

  /** A write with no swap between its start and its end maintains both foreign keys: unlike a bare
      `addMessage`, it stores no message whose conversation or sender is missing. */
  lemma WriteKeepsForeignKeys(env: Env, s: Store, task: Task)
    requires Consistent(s) && ConversationsKnown(s)
    ensures Consistent(Write(env, s, task)) && ConversationsKnown(Write(env, s, task))
  {
    ReadyIsComplete(env, s, task);
    StoredKeepsConsistency(Ready(env, s, task), Final(env, task), env.now);
    StoredKeepsConversations(Ready(env, s, task), Final(env, task), env.now);
  }

  // ------------------------------------------------------------------
  // From the queue to the table
  // ------------------------------------------------------------------

  function Finals(env: Env, tasks: seq<Task>): seq<Message> {
    if tasks == [] then [] else Finals(env, tasks[..|tasks| - 1]) + [Final(env, tasks[|tasks| - 1])]
  }

  lemma {:induction false} FinalsArePopulated(env: Env, tasks: seq<Task>)
    ensures AllPopulated(Finals(env, tasks))
  {
    if tasks != [] {
      FinalsArePopulated(env, tasks[..|tasks| - 1]);
      BuiltIsPopulated(env, tasks[|tasks| - 1]);
    }
  }

  /** From any consistent store with both foreign keys, such as one just loaded: the table after any
      writes, with no other call in between, holds the latest record of each id, and both foreign keys hold. */
  lemma {:induction false} WritesConverge(env: Env, s: Store, tasks: seq<Task>, id: string)
    requires Consistent(s) && ConversationsKnown(s) && AllWithin(s.messages)
    ensures Consistent(WriteAll(env, s, tasks)) && ConversationsKnown(WriteAll(env, s, tasks))
    ensures Lookup(WriteAll(env, s, tasks).messages, id) == Latest(s.messages + Finals(env, tasks), id)
  {
    if tasks == [] {
      UniqueIsLatest(s.messages, id);
      assert s.messages + Finals(env, tasks) == s.messages;
    } else {
      var init, last := tasks[..|tasks| - 1], tasks[|tasks| - 1];
      WritesConverge(env, s, init, id);
      WriteKeepsForeignKeys(env, WriteAll(env, s, init), last);
      FinalsArePopulated(env, init);
      WithinConcat(s.messages, Finals(env, init));
      WriteExtends(env, WriteAll(env, s, init), s.messages + Finals(env, init), last, id);
      Regroup(s.messages, Finals(env, init), [Final(env, last)]);
    }
  }

  lemma WriteExtends(env: Env, s: Store, before: seq<Message>, task: Task, id: string)
    requires UniqueIds(s.messages) && Lookup(s.messages, id) == Latest(before, id) && AllWithin(before)
    ensures Lookup(Write(env, s, task).messages, id) == Latest(before + [Final(env, task)], id)
  {
    BuiltIsPopulated(env, task);
    ArrivalUpdatesLatest(s.messages, before, Final(env, task), id);
  }

  /** The task whose write an event ends successfully. */
  function Writes<T>(e: Q.Engine<T>, ev: Q.Event<T>): seq<T> {
    if !ev.WriteEnds? || !Q.Enabled(e, ev) || !ev.ok then [] else [e.workers[ev.worker].task]
  }

  /** The order in which a run of the queue writes its tasks, over both tiers. */
  function Written<T>(e: Q.Engine<T>, es: seq<Q.Event<T>>): seq<T>
    decreases es
  {
    if es == [] then [] else Writes(e, es[0]) + Written(Q.Step(e, es[0]), es[1..])
  }

  lemma {:induction false} WrittenAreFinished<T>(e: Q.Engine<T>, es: seq<Q.Event<T>>, x: T)
    requires Q.NoWriteFails(es)
    ensures x in Written(e, es) <==>
            x in Q.Tasks(Q.Finished(e, es, true)) || x in Q.Tasks(Q.Finished(e, es, false))
    decreases es
  {
    if es != [] {
      var t := Q.Step(e, es[0]);
      WrittenAreFinished(t, es[1..], x);
      StepWritesFinished(e, es[0], x);
      Q.TasksConcat(Q.Finishes(e, es[0], true), Q.Finished(t, es[1..], true));
      Q.TasksConcat(Q.Finishes(e, es[0], false), Q.Finished(t, es[1..], false));
    }
  }

  lemma StepWritesFinished<T>(e: Q.Engine<T>, ev: Q.Event<T>, x: T)
    requires ev.WriteEnds? ==> ev.ok
    ensures x in Writes(e, ev) <==>
            x in Q.Tasks(Q.Finishes(e, ev, true)) || x in Q.Tasks(Q.Finishes(e, ev, false))
  {
    if ev.WriteEnds? && Q.Enabled(e, ev) {
      match e.workers[ev.worker]
      case WritingBulk(task, rest) =>
        assert Q.Tasks(Q.Finishes(e, ev, true)) == [] && Q.Tasks(Q.Finishes(e, ev, false)) == [task];
      case WritingUrgent(task, _, _) =>
        assert Q.Tasks(Q.Finishes(e, ev, false)) == [] && Q.Tasks(Q.Finishes(e, ev, true)) == [task];
      case WritingRealtime(task) =>
        assert Q.Tasks(Q.Finishes(e, ev, false)) == [] && Q.Tasks(Q.Finishes(e, ev, true)) == [task];
      case _ =>
    }
  }

  /** End to end: once the queue is at rest after writes that all succeeded, the table holds for
      each id the latest of what it held and everything enqueued, however the two tiers were
      interleaved, and both foreign keys hold. */
  lemma EnqueuedBecomesLatest(env: Env, s: Store, es: seq<Q.Event<Task>>, id: string)
    requires Consistent(s) && ConversationsKnown(s) && AllWithin(s.messages)
    requires Q.NoWriteFails(es) && !Q.Exec(Q.Idle(), es).isProcessing
    requires NoTopTies(s.messages, Finals(env, Q.Enqueued(es, true) + Q.Enqueued(es, false)))
    ensures var t := WriteAll(env, s, Written(Q.Idle(), es));
            && Lookup(t.messages, id) ==
               Latest(s.messages + Finals(env, Q.Enqueued(es, true) + Q.Enqueued(es, false)), id)
            && Consistent(t) && ConversationsKnown(t)
  {
    var written, enqueued := Written(Q.Idle(), es), Q.Enqueued(es, true) + Q.Enqueued(es, false);
    WritesConverge(env, s, written, id);
    WrittenAreEnqueued(es);
    SameTasksSameFinals(env, written, enqueued);
    LatestIgnoresOrder(s.messages, Finals(env, enqueued), Finals(env, written), id);
  }

  lemma WrittenAreEnqueued(es: seq<Q.Event<Task>>)
    requires Q.NoWriteFails(es) && !Q.Exec(Q.Idle(), es).isProcessing
    ensures forall x :: x in Written(Q.Idle(), es) <==> x in Q.Enqueued(es, true) + Q.Enqueued(es, false)
  {
    Q.AtRestAllIsWritten(es, true);
    Q.AtRestAllIsWritten(es, false);
    forall x ensures x in Written(Q.Idle(), es) <==> x in Q.Enqueued(es, true) + Q.Enqueued(es, false) {
      WrittenAreFinished(Q.Idle(), es, x);
    }
  }

  lemma SameTasksSameFinals(env: Env, a: seq<Task>, b: seq<Task>)
    requires forall x :: x in a <==> x in b
    ensures forall m :: m in Finals(env, a) <==> m in Finals(env, b)
  {
    forall m ensures m in Finals(env, a) <==> m in Finals(env, b) {
      ImagesOfMembers(env, a, b, m);
      ImagesOfMembers(env, b, a, m);
    }
  }

  lemma {:induction false} FinalsHaveLength(env: Env, tasks: seq<Task>)
    ensures |Finals(env, tasks)| == |tasks|
  {
    if tasks != [] {
      FinalsHaveLength(env, tasks[..|tasks| - 1]);
    }
  }

  lemma LastFinal(env: Env, tasks: seq<Task>)
    requires tasks != []
    ensures Finals(env, tasks) == Finals(env, tasks[..|tasks| - 1]) + [Final(env, tasks[|tasks| - 1])]
  {
  }

  lemma AtOrLast<T>(init: seq<T>, last: T, i: nat)
    requires i <= |init|
    ensures (init + [last])[i] == if i < |init| then init[i] else last
  {
  }

  lemma {:induction false} FinalAt(env: Env, tasks: seq<Task>, i: nat)
    requires i < |tasks|
    ensures i < |Finals(env, tasks)| && Finals(env, tasks)[i] == Final(env, tasks[i])
  {
    var init, last := tasks[..|tasks| - 1], Final(env, tasks[|tasks| - 1]);
    LastFinal(env, tasks);
    FinalsHaveLength(env, init);
    AtOrLast(Finals(env, init), last, i);
    if i < |init| {
      assert init[i] == tasks[i];
      FinalAt(env, init, i);
    }
  }

  lemma ImagesOfMembers(env: Env, a: seq<Task>, b: seq<Task>, m: Message)
    requires forall x :: x in a ==> x in b
    ensures m in Finals(env, a) ==> m in Finals(env, b)
  {
    if m in Finals(env, a) {
      FinalsHaveLength(env, a);
      var i :| 0 <= i < |a| && Finals(env, a)[i] == m;
      FinalAt(env, a, i);
      assert a[i] in b;
      var j :| 0 <= j < |b| && b[j] == a[i];
      FinalAt(env, b, j);
    }
  }
}
