/**
 The client-side reconcile: three tables are loaded in bulk after deduplication, and
 one put at a time when the bulk load fails. Both must give the same tables.
*/
module Dexie {
  import opened Prelude

  datatype Contact = Contact(id: string, data: string)

  datatype Conversation = Conversation(id: string, data: string)

  datatype Message = Message(msgId: string, conversationId: string, senderId: string, fromMe: bool, data: string)

  datatype Tables = Tables(
    conversations: map<string, Conversation>,
    contacts: map<string, Contact>,
    messages: map<string, Message>)

  /** The incoming messages of one conversation; the list, and each entry of it, may be missing. */
  datatype Incoming = Incoming(convId: string, msgs: Option<seq<Option<Message>>>)

  /** How a bulk put ends: everything is stored, or it fails after having stored some of the rows. */
  datatype BulkOutcome = Completes | FailsAfter(stored: set<nat>)

  // ------------------------------------------------------------------
  // Keyed items
  // ------------------------------------------------------------------

  /** A row with the key it is stored under. */
  datatype Row<T> = Row(key: string, item: T)

  /** One put after another: the later row of a key wins. */
  function PutAll<T>(table: map<string, T>, rows: seq<Row<T>>): map<string, T> {
    if rows == [] then table
    else
      var last := rows[|rows| - 1];
      PutAll(table, rows[..|rows| - 1])[last.key := last.item]
  }

  function FindKey<T>(rows: seq<Row<T>>, key: string): (i: int)
    ensures -1 <= i < |rows|
    ensures i >= 0 ==> rows[i].key == key
    ensures forall j :: 0 <= j < (if i < 0 then |rows| else i) ==> rows[j].key != key
  {
    if rows == [] then -1
    else
      var last := |rows| - 1;
      var i := FindKey(rows[..last], key);
      if i < 0 && rows[last].key == key then last else i
  }

  /** Insertion into a map that keeps the place of the first insertion. */
  function SetRow<T>(rows: seq<Row<T>>, row: Row<T>): seq<Row<T>> {
    var i := FindKey(rows, row.key);
    if row.key == "" then rows
    else if i < 0 then rows + [row]
    else rows[i := row]
  }

  function Deduplicated<T>(rows: seq<Row<T>>): seq<Row<T>> {
    if rows == [] then [] else SetRow(Deduplicated(rows[..|rows| - 1]), rows[|rows| - 1])
  }

  method DeduplicateById<T>(rows: seq<Row<T>>) returns (result: seq<Row<T>>)
    ensures result == Deduplicated(rows)
  {
    result := [];
    for n := 0 to |rows|
      invariant result == Deduplicated(rows[..n])
    {
      assert rows[..n + 1][..n] == rows[..n];
      if rows[n].key != "" {
        var i := FindKey(result, rows[n].key);
        result := if i < 0 then result + [rows[n]] else result[i := rows[n]];
      }
    }
    assert rows[..|rows|] == rows;
  }

  ghost predicate DistinctKeys<T>(rows: seq<Row<T>>) {
    forall i, j :: 0 <= i < j < |rows| ==> rows[i].key != rows[j].key
  }

  predicate Keyed<T>(rows: seq<Row<T>>) {
    forall i :: 0 <= i < |rows| ==> rows[i].key != ""
  }

  /** The row that a key ends up with, if any. */
  function LastOf<T>(rows: seq<Row<T>>, key: string): Option<T> {
    if rows == [] then None
    else
      var last := rows[|rows| - 1];
      if last.key == key then Some(last.item) else LastOf(rows[..|rows| - 1], key)
  }

  /** A table after puts: each key has its last row, and otherwise what it had before. */
  lemma {:induction false} PutAllIsLastWins<T>(table: map<string, T>, rows: seq<Row<T>>, key: string)
    ensures var result := PutAll(table, rows);
            match LastOf(rows, key)
            case Some(item) => key in result && result[key] == item
            case None => (key in result <==> key in table) && (key in table ==> result[key] == table[key])
  {
    if rows != [] {
      PutAllIsLastWins(table, rows[..|rows| - 1], key);
    }
  }

  lemma {:induction false} DistinctLastOf<T>(rows: seq<Row<T>>, i: nat)
    requires DistinctKeys(rows) && i < |rows|
    ensures LastOf(rows, rows[i].key) == Some(rows[i].item)
  {
    var n := |rows| - 1;
    if i < n {
      assert rows[..n][i] == rows[i];
      DistinctLastOf(rows[..n], i);
    }
  }

  lemma {:induction false} AbsentLastOf<T>(rows: seq<Row<T>>, key: string)
    ensures LastOf(rows, key) == None <==> FindKey(rows, key) < 0
  {
    if rows != [] {
      AbsentLastOf(rows[..|rows| - 1], key);
    }
  }

  lemma FirstKeyGrows<T>(rows: seq<Row<T>>, row: Row<T>, key: string)
    ensures FindKey(rows + [row], key) ==
            if FindKey(rows, key) >= 0 then FindKey(rows, key) else if row.key == key then |rows| else -1
  {
    assert (rows + [row])[..|rows|] == rows;
  }

  lemma SetRowHasKey<T>(rows: seq<Row<T>>, row: Row<T>, key: string)
    ensures FindKey(SetRow(rows, row), key) >= 0 <==> FindKey(rows, key) >= 0 || (row.key == key && key != "")
  {
    var result, i, k := SetRow(rows, row), FindKey(rows, row.key), FindKey(rows, key);
    if row.key != "" && i < 0 {
      assert result == rows + [row];
      FirstKeyGrows(rows, row, key);
    } else if row.key != "" {
      assert k >= 0 ==> result[k].key == key;
    }
  }

  lemma {:induction false} KeptKeysAreListed<T>(rows: seq<Row<T>>, key: string)
    ensures FindKey(Deduplicated(rows), key) >= 0 <==> key != "" && FindKey(rows, key) >= 0
  {
    if rows != [] {
      var init, last := rows[..|rows| - 1], rows[|rows| - 1];
      KeptKeysAreListed(init, key);
      SetRowHasKey(Deduplicated(init), last, key);
      assert rows == init + [last];
      FirstKeyGrows(init, last, key);
    }
  }

  /** Deduplicated rows come in the order of the first rows of their keys. */
  lemma {:induction false} KeptInFirstOrder<T>(rows: seq<Row<T>>, i: nat, j: nat)
    requires i < j < |Deduplicated(rows)|
    ensures var kept := Deduplicated(rows);
            0 <= FindKey(rows, kept[i].key) < FindKey(rows, kept[j].key)
  {
    var init, last := rows[..|rows| - 1], rows[|rows| - 1];
    var kept := Deduplicated(rows);
    assert rows == init + [last];
    FirstKeyGrows(init, last, kept[i].key);
    FirstKeyGrows(init, last, kept[j].key);
    KeptKeysAreListed(init, kept[i].key);
    KeptKeysAreListed(init, kept[j].key);
    if j < |Deduplicated(init)| {
      KeptInFirstOrder(init, i, j);
    }
  }

  lemma SetRowKeepsDistinct<T>(rows: seq<Row<T>>, row: Row<T>)
    requires DistinctKeys(rows)
    ensures DistinctKeys(SetRow(rows, row))
  {
  }

  lemma SetRowLastOf<T>(rows: seq<Row<T>>, row: Row<T>, key: string)
    requires DistinctKeys(rows) && row.key != ""
    ensures LastOf(SetRow(rows, row), key) == if key == row.key then Some(row.item) else LastOf(rows, key)
  {
    var result := SetRow(rows, row);
    SetRowKeepsDistinct(rows, row);
    if FindKey(rows, row.key) < 0 {
      assert result[..|rows|] == rows;
    } else {
      var i := FindKey(result, key);
      AbsentLastOf(result, key);
      AbsentLastOf(rows, key);
      if i >= 0 {
        DistinctLastOf(result, i);
        if key != row.key {
          DistinctLastOf(rows, i);
        }
      } else {
        assert forall j :: 0 <= j < |rows| ==> rows[j].key == result[j].key;
      }
    }
  }

  lemma {:induction false} DeduplicatedKeepsDistinct<T>(rows: seq<Row<T>>)
    ensures DistinctKeys(Deduplicated(rows))
  {
    if rows != [] {
      DeduplicatedKeepsDistinct(rows[..|rows| - 1]);
      SetRowKeepsDistinct(Deduplicated(rows[..|rows| - 1]), rows[|rows| - 1]);
    }
  }

  /** Deduplication keeps the last row of every non-empty key, and only those. */
  lemma {:induction false} DeduplicatedLastOf<T>(rows: seq<Row<T>>, key: string)
    ensures LastOf(Deduplicated(rows), key) == if key == "" then None else LastOf(rows, key)
  {
    if rows != [] {
      var init, last := rows[..|rows| - 1], rows[|rows| - 1];
      DeduplicatedLastOf(init, key);
      DeduplicatedKeepsDistinct(init);
      if last.key != "" {
        SetRowLastOf(Deduplicated(init), last, key);
      }
    }
  }

  lemma {:induction false} KeyedHasNoEmptyKey<T>(rows: seq<Row<T>>)
    ensures LastOf(rows, "") == None <==> Keyed(rows)
  {
    if rows != [] {
      var init, last := rows[..|rows| - 1], rows[|rows| - 1];
      KeyedHasNoEmptyKey(init);
      assert Keyed(rows) <==> Keyed(init) && last.key != "" by {
        assert forall i :: 0 <= i < |init| ==> init[i] == rows[i];
      }
    }
  }

  /** No row has an empty key, or the last one that has is in the table already. */
  predicate EmptyKeyIsIdle<T(==)>(table: map<string, T>, rows: seq<Row<T>>) {
    LastOf(rows, "") == None || ("" in table && LastOf(rows, "") == Some(table[""]))
  }

  /** A bulk put of the deduplicated rows gives the table of the individual puts exactly when the
      rows with an empty key, which only the latter store, change nothing; for a table that has no
      empty key, exactly when no row has one. */
  lemma BulkEqualsPutsIffKeyed<T>(table: map<string, T>, rows: seq<Row<T>>)
    ensures PutAll(table, Deduplicated(rows)) == PutAll(table, rows) <==> EmptyKeyIsIdle(table, rows)
    ensures "" !in table ==> (EmptyKeyIsIdle(table, rows) <==> Keyed(rows))
  {
    var bulk, puts := PutAll(table, Deduplicated(rows)), PutAll(table, rows);
    KeyedHasNoEmptyKey(rows);
    PutAllIsLastWins(table, rows, "");
    PutAllIsLastWins(table, Deduplicated(rows), "");
    DeduplicatedLastOf(rows, "");
    if EmptyKeyIsIdle(table, rows) {
      forall key
        ensures key in bulk <==> key in puts
        ensures key in bulk ==> bulk[key] == puts[key]
      {
        PutAllIsLastWins(table, rows, key);
        PutAllIsLastWins(table, Deduplicated(rows), key);
        DeduplicatedLastOf(rows, key);
      }
    }
  }

  lemma KeyedBulkEqualsPuts<T>(table: map<string, T>, rows: seq<Row<T>>)
    requires Keyed(rows)
    ensures PutAll(table, Deduplicated(rows)) == PutAll(table, rows)
  {
    KeyedHasNoEmptyKey(rows);
    BulkEqualsPutsIffKeyed(table, rows);
  }

  /** Whatever part of some rows was stored before, putting all of them gives the same table. */
  lemma PutsForgetPartialProgress<T>(table: map<string, T>, partial: map<string, T>, rows: seq<Row<T>>)
    requires forall key :: LastOf(rows, key) == None ==>
               (key in partial <==> key in table) && (key in table ==> partial[key] == table[key])
    ensures PutAll(partial, rows) == PutAll(table, rows)
  {
    var a, b := PutAll(partial, rows), PutAll(table, rows);
    forall key
      ensures key in a <==> key in b
      ensures key in a ==> a[key] == b[key]
    {
      PutAllIsLastWins(partial, rows, key);
      PutAllIsLastWins(table, rows, key);
    }
    assert a == b;
  }

  /** The rows that a failing bulk put did store, in some order of their own. */
  function Selected<T>(rows: seq<Row<T>>, stored: set<nat>): seq<Row<T>> {
    if rows == [] then []
    else
      var n := |rows| - 1;
      var earlier := Selected(rows[..n], stored);
      if n in stored then earlier + [rows[n]] else earlier
  }

  lemma {:induction false} SelectedAddsNoKey<T>(rows: seq<Row<T>>, stored: set<nat>, key: string)
    requires LastOf(rows, key) == None
    ensures LastOf(Selected(rows, stored), key) == None
  {
    if rows != [] {
      var n := |rows| - 1;
      SelectedAddsNoKey(rows[..n], stored, key);
      var earlier := Selected(rows[..n], stored);
      assert (earlier + [rows[n]])[..|earlier|] == earlier;
    }
  }

  function AfterBulk<T>(table: map<string, T>, rows: seq<Row<T>>, outcome: BulkOutcome): map<string, T> {
    match outcome
    case Completes => PutAll(table, rows)
    case FailsAfter(stored) => PutAll(table, Selected(rows, stored))
  }

  /** After any bulk put, complete or not, individual puts of all rows give the table of the individual puts alone. */
  lemma FallbackForgetsBulk<T>(table: map<string, T>, rows: seq<Row<T>>, outcome: BulkOutcome)
    ensures PutAll(AfterBulk(table, Deduplicated(rows), outcome), rows) == PutAll(table, rows)
  {
    var partial := AfterBulk(table, Deduplicated(rows), outcome);
    forall key | LastOf(rows, key) == None
      ensures key in partial <==> key in table
      ensures key in table ==> partial[key] == table[key]
    {
      DeduplicatedLastOf(rows, key);
      match outcome
      case Completes => PutAllIsLastWins(table, Deduplicated(rows), key);
      case FailsAfter(stored) =>
        SelectedAddsNoKey(Deduplicated(rows), stored, key);
        PutAllIsLastWins(table, Selected(Deduplicated(rows), stored), key);
    }
    PutsForgetPartialProgress(table, partial, rows);
  }

  /** Individual puts, of which only those of the `stored` rows succeed, after a bulk put or without one. */
  predicate FellBack<T(==)>(start: map<string, T>, end: map<string, T>, rows: seq<Row<T>>, outcome: BulkOutcome, stored: set<nat>) {
    || end == PutAll(start, Selected(rows, stored))
    || end == PutAll(AfterBulk(start, Deduplicated(rows), outcome), Selected(rows, stored))
  }

  predicate AllStored<T>(rows: seq<Row<T>>, stored: set<nat>) {
    forall i: nat | i < |rows| :: i in stored
  }

  lemma {:induction false} SelectedIsAll<T>(rows: seq<Row<T>>, stored: set<nat>)
    requires AllStored(rows, stored)
    ensures Selected(rows, stored) == rows
  {
    if rows != [] {
      SelectedIsAll(rows[..|rows| - 1], stored);
    }
  }

  /** When all of them succeed, the fallback reaches the table of the individual puts alone. */
  lemma FallbackReachesPuts<T>(start: map<string, T>, end: map<string, T>, rows: seq<Row<T>>, outcome: BulkOutcome, stored: set<nat>)
    requires FellBack(start, end, rows, outcome, stored) && AllStored(rows, stored)
    ensures end == PutAll(start, rows)
  {
    SelectedIsAll(rows, stored);
    FallbackForgetsBulk(start, rows, outcome);
  }

  lemma {:induction false} SelectedKeepsLast<T>(rows: seq<Row<T>>, stored: set<nat>, i: nat)
    requires i < |rows| && i in stored && forall j :: i < j < |rows| ==> rows[j].key != rows[i].key
    ensures LastOf(Selected(rows, stored), rows[i].key) == Some(rows[i].item)
  {
    var n := |rows| - 1;
    var earlier := Selected(rows[..n], stored);
    assert (earlier + [rows[n]])[..|earlier|] == earlier;
    if i < n {
      assert rows[..n][i] == rows[i];
      SelectedKeepsLast(rows[..n], stored, i);
    }
  }

  /** Failing puts hurt no one else: a key whose last row is stored ends up with that row, whatever
      failed before, in bulk or one by one. */
  lemma FallbackKeepsStored<T>(start: map<string, T>, end: map<string, T>, rows: seq<Row<T>>, outcome: BulkOutcome,
                               stored: set<nat>, i: nat)
    requires FellBack(start, end, rows, outcome, stored)
    requires i < |rows| && i in stored && forall j :: i < j < |rows| ==> rows[j].key != rows[i].key
    ensures rows[i].key in end && end[rows[i].key] == rows[i].item
  {
    SelectedKeepsLast(rows, stored, i);
    PutAllIsLastWins(start, Selected(rows, stored), rows[i].key);
    PutAllIsLastWins(AfterBulk(start, Deduplicated(rows), outcome), Selected(rows, stored), rows[i].key);
  }

  // ------------------------------------------------------------------
  // The three tables
  // ------------------------------------------------------------------

  function ConversationRows(convs: seq<Conversation>): seq<Row<Conversation>> {
    seq(|convs|, i requires 0 <= i < |convs| => Row(convs[i].id, convs[i]))
  }

  function ContactRows(contacts: seq<Contact>): seq<Row<Contact>> {
    seq(|contacts|, i requires 0 <= i < |contacts| => Row(contacts[i].id, contacts[i]))
  }

  /** A message with its conversation and sender filled in from the list it came with. */
  function Normalized(m: Message, convId: string): Message {
    m.(conversationId := if m.conversationId != "" then m.conversationId else convId,
       senderId := if m.senderId != "" then m.senderId else if m.fromMe then "ME" else convId)
  }

  function ListRows(msgs: seq<Option<Message>>, convId: string): seq<Row<Message>> {
    if msgs == [] then []
    else
      var last := msgs[|msgs| - 1];
      var earlier := ListRows(msgs[..|msgs| - 1], convId);
      if last.Some? && last.value.msgId != "" then earlier + [Row(last.value.msgId, Normalized(last.value, convId))]
      else earlier
  }

  function MessageRows(incoming: seq<Incoming>): seq<Row<Message>> {
    if incoming == [] then []
    else
      var last := incoming[|incoming| - 1];
      MessageRows(incoming[..|incoming| - 1]) + if last.msgs.Some? then ListRows(last.msgs.value, last.convId) else []
  }

  lemma {:induction false} ListRowsConcat(a: seq<Option<Message>>, b: seq<Option<Message>>, convId: string)
    ensures ListRows(a + b, convId) == ListRows(a, convId) + ListRows(b, convId)
  {
    if b == [] {
      assert a + b == a;
    } else {
      assert (a + b)[..|a + b| - 1] == a + b[..|b| - 1];
      ListRowsConcat(a, b[..|b| - 1], convId);
    }
  }

  lemma {:induction false} MessageRowsConcat(a: seq<Incoming>, b: seq<Incoming>)
    ensures MessageRows(a + b) == MessageRows(a) + MessageRows(b)
  {
    if b == [] {
      assert a + b == a;
    } else {
      assert (a + b)[..|a + b| - 1] == a + b[..|b| - 1];
      MessageRowsConcat(a, b[..|b| - 1]);
    }
  }

  /** A row holds the message under its own id; a missing conversation is the list's, a missing sender
      is ME or the list's conversation. */
  predicate IsRowOf(row: Row<Message>, m: Message, convId: string) {
    && row.key == m.msgId && row.item.msgId == m.msgId && row.item.fromMe == m.fromMe && row.item.data == m.data
    && (m.conversationId != "" ==> row.item.conversationId == m.conversationId)
    && (m.conversationId == "" ==> row.item.conversationId == convId)
    && (m.senderId != "" ==> row.item.senderId == m.senderId)
    && (m.senderId == "" && m.fromMe ==> row.item.senderId == "ME")
    && (m.senderId == "" && !m.fromMe ==> row.item.senderId == convId)
  }

  /** Collecting goes list by list and message by message, in order; a missing list, a missing message
      and one without an id give no row. */
  lemma MessageRowsMeans(a: seq<Incoming>, b: seq<Incoming>, list: seq<Option<Message>>, m: Option<Message>, convId: string)
    ensures MessageRows([]) == [] && MessageRows(a + b) == MessageRows(a) + MessageRows(b)
    ensures MessageRows([Incoming(convId, None)]) == []
    ensures MessageRows([Incoming(convId, Some([]))]) == []
    ensures MessageRows([Incoming(convId, Some(list + [m]))]) ==
            MessageRows([Incoming(convId, Some(list))]) + MessageRows([Incoming(convId, Some([m]))])
    ensures var rows := MessageRows([Incoming(convId, Some([m]))]);
            if m.None? || m.value.msgId == "" then rows == [] else |rows| == 1 && IsRowOf(rows[0], m.value, convId)
  {
    MessageRowsConcat(a, b);
    ListRowsConcat(list, [m], convId);
    OneList(convId, Some([]));
    OneList(convId, Some(list));
    OneList(convId, Some([m]));
    OneList(convId, Some(list + [m]));
    assert [m][..0] == [];
  }

  lemma OneList(convId: string, msgs: Option<seq<Option<Message>>>)
    ensures MessageRows([Incoming(convId, msgs)]) == if msgs.Some? then ListRows(msgs.value, convId) else []
  {
    assert MessageRows([Incoming(convId, msgs)][..0]) == [];
  }

  /** The three tables after one put for every incoming item, in order. */
  function AllPut(t: Tables, convs: seq<Conversation>, incoming: seq<Incoming>, contacts: seq<Contact>): Tables {
    Tables(PutAll(t.conversations, ConversationRows(convs)),
           PutAll(t.contacts, ContactRows(contacts)),
           PutAll(t.messages, MessageRows(incoming)))
  }

  /** The three tables after a bulk put of each deduplicated list. */
  function AllBulk(t: Tables, convs: seq<Conversation>, incoming: seq<Incoming>, contacts: seq<Contact>): Tables {
    Tables(PutAll(t.conversations, Deduplicated(ConversationRows(convs))),
           PutAll(t.contacts, Deduplicated(ContactRows(contacts))),
           PutAll(t.messages, Deduplicated(MessageRows(incoming))))
  }

  /** How the three bulk puts end, if they are reached, and which individual puts succeed, if it comes to them. */
  datatype Outcomes = Outcomes(
    conversations: BulkOutcome, contacts: BulkOutcome, messages: BulkOutcome,
    storedConversations: set<nat>, storedContacts: set<nat>, storedMessages: set<nat>)

  predicate AllPutsSucceed(o: Outcomes, convs: seq<Conversation>, incoming: seq<Incoming>, contacts: seq<Contact>) {
    && AllStored(ConversationRows(convs), o.storedConversations)
    && AllStored(ContactRows(contacts), o.storedContacts)
    && AllStored(MessageRows(incoming), o.storedMessages)
  }

  /** What the fallback leaves of the three tables. */
  predicate AllFellBack(
    t: Tables, u: Tables, o: Outcomes, convs: seq<Conversation>, incoming: seq<Incoming>, contacts: seq<Contact>)
  {
    && FellBack(t.conversations, u.conversations, ConversationRows(convs), o.conversations, o.storedConversations)
    && FellBack(t.contacts, u.contacts, ContactRows(contacts), o.contacts, o.storedContacts)
    && FellBack(t.messages, u.messages, MessageRows(incoming), o.messages, o.storedMessages)
  }

  /** Some bulk put that is made fails; an empty list is not put. */
  predicate BulkFails(o: Outcomes, convs: seq<Conversation>, incoming: seq<Incoming>, contacts: seq<Contact>) {
    || (|convs| > 0 && o.conversations.FailsAfter?)
    || (|contacts| > 0 && o.contacts.FailsAfter?)
    || (|Deduplicated(MessageRows(incoming))| > 0 && o.messages.FailsAfter?)
  }

  /** A list without rows is not put, so how its put would end does not matter. */
  lemma EmptyListsCannotFail(o: Outcomes, convs: seq<Conversation>, incoming: seq<Incoming>, contacts: seq<Contact>, other: BulkOutcome)
    ensures convs == [] ==>
              (BulkFails(o, convs, incoming, contacts) <==> BulkFails(o.(conversations := other), convs, incoming, contacts))
    ensures contacts == [] ==>
              (BulkFails(o, convs, incoming, contacts) <==> BulkFails(o.(contacts := other), convs, incoming, contacts))
    ensures (forall key :: LastOf(MessageRows(incoming), key) == None) ==>
              (BulkFails(o, convs, incoming, contacts) <==> BulkFails(o.(messages := other), convs, incoming, contacts))
  {
    var rows := Deduplicated(MessageRows(incoming));
    if rows != [] {
      DeduplicatedLastOf(MessageRows(incoming), rows[0].key);
      AbsentLastOf(rows, rows[0].key);
      AbsentLastOf(MessageRows(incoming), rows[0].key);
    }
  }

  class ZaloLocalDatabase {
    var conversations: map<string, Conversation>
    var contacts: map<string, Contact>
    var messages: map<string, Message>

    ghost function Contents(): Tables
      reads this
    {
      Tables(conversations, contacts, messages)
    }

    method ReconcileFullState(
      newConversations: seq<Conversation>, newMessages: seq<Incoming>, newContacts: seq<Contact>, o: Outcomes)
      modifies this
      ensures !BulkFails(o, newConversations, newMessages, newContacts) ==>
                Contents() == AllBulk(old(Contents()), newConversations, newMessages, newContacts)
      ensures BulkFails(o, newConversations, newMessages, newContacts) ==>
                AllFellBack(old(Contents()), Contents(), o, newConversations, newMessages, newContacts)
      ensures BulkFails(o, newConversations, newMessages, newContacts)
              && AllPutsSucceed(o, newConversations, newMessages, newContacts) ==>
                Contents() == AllPut(old(Contents()), newConversations, newMessages, newContacts)
    {
      var ok := BulkLoad(newConversations, newMessages, newContacts, o);
      if !ok {
        PutEach(newConversations, newMessages, newContacts, o);
        if AllPutsSucceed(o, newConversations, newMessages, newContacts) {
          AllFellBackReachesPuts(old(Contents()), Contents(), o, newConversations, newMessages, newContacts);
        }
      }
    }

    /** The `try` block: it stops at the first bulk put that fails. */
    method BulkLoad(
      newConversations: seq<Conversation>, newMessages: seq<Incoming>, newContacts: seq<Contact>, o: Outcomes)
      returns (ok: bool)
      modifies this
      ensures ok <==> !BulkFails(o, newConversations, newMessages, newContacts)
      ensures ok ==> Contents() == AllBulk(old(Contents()), newConversations, newMessages, newContacts)
      ensures conversations == old(conversations)
              || conversations == AfterBulk(old(conversations), Deduplicated(ConversationRows(newConversations)), o.conversations)
      ensures contacts == old(contacts)
              || contacts == AfterBulk(old(contacts), Deduplicated(ContactRows(newContacts)), o.contacts)
      ensures messages == old(messages)
              || messages == AfterBulk(old(messages), Deduplicated(MessageRows(newMessages)), o.messages)
    {
      conversations, ok := BulkPut(conversations, ConversationRows(newConversations), |newConversations| == 0, o.conversations);
      if !ok {
        return;
      }
      contacts, ok := BulkPut(contacts, ContactRows(newContacts), |newContacts| == 0, o.contacts);
      if !ok {
        return;
      }
      var allMessages := CollectMessages(newMessages);
      messages, ok := BulkPut(messages, allMessages, |Deduplicated(allMessages)| == 0, o.messages);
    }

    /** One bulk put of a deduplicated list, unless the list is known to be empty. */
    method BulkPut<T>(start: map<string, T>, rows: seq<Row<T>>, empty: bool, outcome: BulkOutcome)
      returns (table: map<string, T>, ok: bool)
      requires empty ==> |Deduplicated(rows)| == 0
      ensures ok <==> empty || outcome.Completes?
      ensures ok ==> table == PutAll(start, Deduplicated(rows))
      ensures table == start || table == AfterBulk(start, Deduplicated(rows), outcome)
    {
      if empty {
        return start, true;
      }
      var deduped := DeduplicateById(rows);
      table := AfterBulk(start, deduped, outcome);
      ok := outcome.Completes?;
    }

    method CollectMessages(incoming: seq<Incoming>) returns (rows: seq<Row<Message>>)
      ensures rows == MessageRows(incoming)
    {
      rows := [];
      for i := 0 to |incoming|
        invariant rows == MessageRows(incoming[..i])
      {
        assert incoming[..i + 1][..i] == incoming[..i];
        if incoming[i].msgs.Some? {
          var convId, msgs := incoming[i].convId, incoming[i].msgs.value;
          ghost var earlier := rows;
          for j := 0 to |msgs|
            invariant rows == earlier + ListRows(msgs[..j], convId)
          {
            assert msgs[..j + 1][..j] == msgs[..j];
            if msgs[j].Some? && msgs[j].value.msgId != "" {
              rows := rows + [Row(msgs[j].value.msgId, Normalized(msgs[j].value, convId))];
            }
          }
          assert msgs[..|msgs|] == msgs;
        }
      }
      assert incoming[..|incoming|] == incoming;
    }

    /** The `catch` block. */
    method PutEach(newConversations: seq<Conversation>, newMessages: seq<Incoming>, newContacts: seq<Contact>, o: Outcomes)
      modifies this
      ensures conversations == PutAll(old(conversations), Selected(ConversationRows(newConversations), o.storedConversations))
      ensures contacts == PutAll(old(contacts), Selected(ContactRows(newContacts), o.storedContacts))
      ensures messages == PutAll(old(messages), Selected(MessageRows(newMessages), o.storedMessages))
    {
      conversations := PutRows(conversations, ConversationRows(newConversations), o.storedConversations);
      contacts := PutRows(contacts, ContactRows(newContacts), o.storedContacts);
      var rows := CollectMessages(newMessages);
      messages := PutRows(messages, rows, o.storedMessages);
    }

    /** Each put is tried; one that fails is passed over. */
    method PutRows<T>(start: map<string, T>, rows: seq<Row<T>>, stored: set<nat>) returns (table: map<string, T>)
      ensures table == PutAll(start, Selected(rows, stored))
    {
      table := start;
      for i := 0 to |rows|
        invariant table == PutAll(start, Selected(rows[..i], stored))
      {
        SelectedGrows(rows, stored, i);
        PutOneMore(start, Selected(rows[..i], stored), rows[i]);
        if i in stored {
          table := table[rows[i].key := rows[i].item];
        }
      }
      assert rows[..|rows|] == rows;
    }
  }

  lemma SelectedGrows<T>(rows: seq<Row<T>>, stored: set<nat>, i: nat)
    requires i < |rows|
    ensures Selected(rows[..i + 1], stored) == Selected(rows[..i], stored) + if i in stored then [rows[i]] else []
  {
    assert rows[..i + 1][..i] == rows[..i];
  }

  lemma PutOneMore<T>(table: map<string, T>, rows: seq<Row<T>>, row: Row<T>)
    ensures PutAll(table, rows + [row]) == PutAll(table, rows)[row.key := row.item]
    ensures rows + [] == rows
  {
    assert (rows + [row])[..|rows|] == rows;
  }

  lemma AllFellBackReachesPuts(
    t: Tables, u: Tables, o: Outcomes, convs: seq<Conversation>, incoming: seq<Incoming>, contacts: seq<Contact>)
    requires AllFellBack(t, u, o, convs, incoming, contacts) && AllPutsSucceed(o, convs, incoming, contacts)
    ensures u == AllPut(t, convs, incoming, contacts)
  {
    FallbackReachesPuts(t.conversations, u.conversations, ConversationRows(convs), o.conversations, o.storedConversations);
    FallbackReachesPuts(t.contacts, u.contacts, ContactRows(contacts), o.contacts, o.storedContacts);
    FallbackReachesPuts(t.messages, u.messages, MessageRows(incoming), o.messages, o.storedMessages);
  }

  lemma {:induction false} ListRowsAreKeyed(msgs: seq<Option<Message>>, convId: string)
    ensures Keyed(ListRows(msgs, convId))
  {
    if msgs != [] {
      ListRowsAreKeyed(msgs[..|msgs| - 1], convId);
    }
  }

  lemma {:induction false} MessageRowsAreKeyed(incoming: seq<Incoming>)
    ensures Keyed(MessageRows(incoming))
  {
    if incoming != [] {
      var last := incoming[|incoming| - 1];
      MessageRowsAreKeyed(incoming[..|incoming| - 1]);
      if last.msgs.Some? {
        ListRowsAreKeyed(last.msgs.value, last.convId);
      }
    }
  }

  /** The bulk path and the individual puts give the same three tables exactly when the conversations
      and contacts with an empty id change nothing; for tables that hold none, exactly when there are
      none. Messages without an id are dropped on both paths. */
  lemma BothPathsAgreeIff(t: Tables, convs: seq<Conversation>, incoming: seq<Incoming>, contacts: seq<Contact>)
    ensures AllBulk(t, convs, incoming, contacts) == AllPut(t, convs, incoming, contacts) <==>
            EmptyKeyIsIdle(t.conversations, ConversationRows(convs)) && EmptyKeyIsIdle(t.contacts, ContactRows(contacts))
    ensures "" !in t.conversations ==>
              (EmptyKeyIsIdle(t.conversations, ConversationRows(convs)) <==> forall i :: 0 <= i < |convs| ==> convs[i].id != "")
    ensures "" !in t.contacts ==>
              (EmptyKeyIsIdle(t.contacts, ContactRows(contacts)) <==> forall i :: 0 <= i < |contacts| ==> contacts[i].id != "")
  {
    BulkEqualsPutsIffKeyed(t.conversations, ConversationRows(convs));
    BulkEqualsPutsIffKeyed(t.contacts, ContactRows(contacts));
    MessageRowsAreKeyed(incoming);
    KeyedBulkEqualsPuts(t.messages, MessageRows(incoming));
    ConversationRowsKeyedIff(convs);
    ContactRowsKeyedIff(contacts);
  }

  lemma ConversationRowsKeyedIff(convs: seq<Conversation>)
    ensures Keyed(ConversationRows(convs)) <==> forall i :: 0 <= i < |convs| ==> convs[i].id != ""
  {
    assert forall i :: 0 <= i < |convs| ==> ConversationRows(convs)[i].key == convs[i].id;
  }

  lemma ContactRowsKeyedIff(contacts: seq<Contact>)
    ensures Keyed(ContactRows(contacts)) <==> forall i :: 0 <= i < |contacts| ==> contacts[i].id != ""
  {
    assert forall i :: 0 <= i < |contacts| ==> ContactRows(contacts)[i].key == contacts[i].id;
  }
}
