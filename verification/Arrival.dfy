/** Live arrivals converge: the table keeps the latest record of each message id, in whatever order records come. */
module Arrival {
  import opened Prelude
  import opened Records
  import opened Storage

  /** The optional properties that the queue writer puts, possibly undefined, on every record it stores. */
  const WRITTEN_FIELDS: set<string> := {
    "senderName", "senderAvatar", "textContent", "status", "type",
    "mediaUrl", "mediaName", "mediaSize", "reactions", "mentions"
  }

  predicate Populated(m: Message) {
    m.fields.Keys == WRITTEN_FIELDS
  }

  predicate AllPopulated(ms: seq<Message>) {
    forall i :: 0 <= i < |ms| ==> Populated(ms[i])
  }

  /** No record has a property that a populated one would not overwrite. */
  predicate AllWithin(ms: seq<Message>) {
    forall i :: 0 <= i < |ms| ==> ms[i].fields.Keys <= WRITTEN_FIELDS
  }

  lemma WithinConcat(a: seq<Message>, b: seq<Message>)
    ensures AllWithin(a) && AllPopulated(b) ==> AllWithin(a + b)
    ensures AllPopulated(a + b) ==> AllPopulated(a) && AllPopulated(b)
  {
    assert forall i :: 0 <= i < |a| ==> (a + b)[i] == a[i];
    assert forall i :: 0 <= i < |b| ==> (a + b)[|a| + i] == b[i];
  }

  // ------------------------------------------------------------------
  // The latest record
  // ------------------------------------------------------------------

  /** The record with the greatest timestamp among those with one id; of equals, the last. */
  function Latest(ms: seq<Message>, id: string): Option<Message> {
    if ms == [] then None
    else Later(Latest(ms[..|ms| - 1], id), if ms[|ms| - 1].msgId == id then Some(ms[|ms| - 1]) else None)
  }

  function Later(a: Option<Message>, b: Option<Message>): Option<Message> {
    if b.None? then a
    else if a.None? || b.value.timestamp >= a.value.timestamp then b
    else a
  }

  lemma {:induction false} LatestIsGreatest(ms: seq<Message>, id: string)
    ensures Latest(ms, id).None? <==> forall i :: 0 <= i < |ms| ==> ms[i].msgId != id
    ensures Latest(ms, id).Some? ==>
              && Latest(ms, id).value in ms
              && Latest(ms, id).value.msgId == id
              && forall i :: 0 <= i < |ms| && ms[i].msgId == id ==> ms[i].timestamp <= Latest(ms, id).value.timestamp
  {
    if ms != [] {
      var init, last := ms[..|ms| - 1], ms[|ms| - 1];
      LatestIsGreatest(init, id);
      assert ms == init + [last];
    }
  }

  lemma {:induction false} LatestConcat(a: seq<Message>, b: seq<Message>, id: string)
    ensures Latest(a + b, id) == Later(Latest(a, id), Latest(b, id))
  {
    if b == [] {
      assert a + b == a;
    } else {
      assert (a + b)[..|a + b| - 1] == a + b[..|b| - 1];
      LatestConcat(a, b[..|b| - 1], id);
    }
  }

  lemma LatestOfOne(m: Message, id: string)
    ensures Latest([m], id) == if m.msgId == id then Some(m) else None
  {
    assert [m][..0] == [];
  }

  /** In a table without duplicate ids, the record of an id is its latest. */
  lemma {:induction false} UniqueIsLatest(messages: seq<Message>, id: string)
    requires UniqueIds(messages)
    ensures Lookup(messages, id) == Latest(messages, id)
  {
    LatestIsGreatest(messages, id);
    if Latest(messages, id).Some? {
      var i :| 0 <= i < |messages| && messages[i] == Latest(messages, id).value;
      LookupIsTheRecord(messages, i);
    }
  }

  // ------------------------------------------------------------------
  // One arrival
  // ------------------------------------------------------------------

  lemma UpsertLooksUp(messages: seq<Message>, m: Message, id: string)
    requires UniqueIds(messages)
    ensures Lookup(Upserted(messages, m), id) ==
            if m.msgId != id then Lookup(messages, id)
            else
              match Lookup(messages, id)
              case None => Some(m)
              case Some(known) => Some(if m.timestamp >= known.timestamp then Spread(known, m) else known)
  {
    var result := Upserted(messages, m);
    var i := FindIndex(messages, m.msgId);
    if i < 0 {
      assert result[..|messages|] == messages;
    } else {
      UpsertKeepsIds(messages, m);
      var j := FindIndex(messages, id);
      if j >= 0 {
        LookupIsTheRecord(result, j);
      }
    }
  }

  /** The spread of a populated record over one without further properties is the newer one. */
  lemma PopulatedOverwrites(known: Message, m: Message)
    requires known.fields.Keys <= WRITTEN_FIELDS && Populated(m)
    ensures Spread(known, m) == m
  {
    assert known.fields + m.fields == m.fields;
  }

  lemma ArrivalUpdatesLatest(messages: seq<Message>, before: seq<Message>, m: Message, id: string)
    requires UniqueIds(messages) && Lookup(messages, id) == Latest(before, id)
    requires Populated(m) && AllWithin(before)
    ensures Lookup(Upserted(messages, m), id) == Latest(before + [m], id)
  {
    LatestConcat(before, [m], id);
    LatestOfOne(m, id);
    UpsertLooksUp(messages, m, id);
    LatestIsGreatest(before, id);
    if m.msgId == id && Latest(before, id).Some? {
      PopulatedOverwrites(Latest(before, id).value, m);
    }
  }

  // ------------------------------------------------------------------
  // Every run of the store
  // ------------------------------------------------------------------

  function Arrivals(s: Store, es: seq<Event>): seq<Message> {
    if es == [] then []
    else
      var init := es[..|es| - 1];
      Arrivals(s, init) + Arrives(Exec(s, init), es[|es| - 1])
  }

  lemma SortLooksUpAlike(messages: seq<Message>, id: string)
    requires UniqueIds(messages)
    ensures Lookup(SortByTime(messages), id) == Lookup(messages, id)
  {
    SortIsStable(messages);
    PermutationLooksUpAlike(messages, SortByTime(messages));
  }

  lemma StepUpdatesTable(s: Store, e: Event)
    requires !e.CommitSwap?
    ensures Step(s, e).messages ==
            if e.SortMessages? then SortByTime(s.messages)
            else if Arrives(s, e) == [] then s.messages
            else Upserted(s.messages, Arrives(s, e)[0])
  {
  }

  lemma StepUpdatesLatest(s: Store, before: seq<Message>, e: Event, id: string)
    requires UniqueIds(s.messages) && Lookup(s.messages, id) == Latest(before, id)
    requires !e.CommitSwap? && AllWithin(before) && AllPopulated(Arrives(s, e))
    ensures Lookup(Step(s, e).messages, id) == Latest(before + Arrives(s, e), id)
  {
    StepUpdatesTable(s, e);
    if e.SortMessages? {
      SortLooksUpAlike(s.messages, id);
      assert before + Arrives(s, e) == before;
    } else if Arrives(s, e) != [] {
      var m := Arrives(s, e)[0];
      assert Arrives(s, e) == [m];
      ArrivalUpdatesLatest(s.messages, before, m, id);
    } else {
      assert before + Arrives(s, e) == before;
    }
  }

  lemma Regroup<T>(a: seq<T>, b: seq<T>, c: seq<T>)
    ensures (a + b) + c == a + (b + c)
  {
  }

  /** From any consistent store, such as one just loaded or swapped in: without a further swap, the
      table holds for each id the latest of what it held and what arrived, whatever saves, reads,
      downloads and staging calls come in between. */
  lemma {:induction false} TableHoldsLatest(s: Store, es: seq<Event>, id: string)
    requires Consistent(s) && AllWithin(s.messages)
    requires NoSwap(es) && AllPopulated(Arrivals(s, es))
    ensures Lookup(Exec(s, es).messages, id) == Latest(s.messages + Arrivals(s, es), id)
  {
    if es == [] {
      UniqueIsLatest(s.messages, id);
      assert s.messages + [] == s.messages;
    } else {
      var init, last := es[..|es| - 1], es[|es| - 1];
      var t := Exec(s, init);
      ExecLast(s, es);
      WithinConcat(Arrivals(s, init), Arrives(t, last));
      TableHoldsLatest(s, init, id);
      IdsStayUnique(s, init);
      WithinConcat(s.messages, Arrivals(s, init));
      StepUpdatesLatest(t, s.messages + Arrivals(s, init), last, id);
      Regroup(s.messages, Arrivals(s, init), Arrives(t, last));
    }
  }

  lemma IdsStayUnique(s: Store, es: seq<Event>)
    requires Consistent(s)
    ensures UniqueIds(Exec(s, es).messages)
  {
    AlwaysConsistent(s, es);
  }

  // ------------------------------------------------------------------
  // The order of arrival
  // ------------------------------------------------------------------

  /** No record of the same id in the list is newer. */
  predicate IsTop(all: seq<Message>, x: Message) {
    forall i :: 0 <= i < |all| && all[i].msgId == x.msgId ==> all[i].timestamp <= x.timestamp
  }

  /** Two different arrivals of one id never share the greatest timestamp that the id has in the table and among them. */
  ghost predicate NoTopTies(table: seq<Message>, ms: seq<Message>) {
    forall x, y :: x in ms && y in ms && x.msgId == y.msgId && x.timestamp == y.timestamp && IsTop(table + ms, x) ==> x == y
  }

  lemma TopIsLatest(table: seq<Message>, ms: seq<Message>, id: string)
    requires Latest(ms, id).Some? && Later(Latest(table, id), Latest(ms, id)) == Latest(ms, id)
    ensures IsTop(table + ms, Latest(ms, id).value)
  {
    LatestIsGreatest(ms, id);
    LatestIsGreatest(table, id);
    var x := Latest(ms, id).value;
    forall i | 0 <= i < |table + ms| && (table + ms)[i].msgId == x.msgId ensures (table + ms)[i].timestamp <= x.timestamp {
      if i < |table| {
        assert (table + ms)[i] == table[i];
      } else {
        assert (table + ms)[i] == ms[i - |table|];
      }
    }
  }

  /** Without ties at the top, the latest records depend only on which records arrived. */
  lemma LatestIgnoresOrder(table: seq<Message>, a: seq<Message>, b: seq<Message>, id: string)
    requires NoTopTies(table, a) && forall m :: m in a <==> m in b
    ensures Latest(table + a, id) == Latest(table + b, id)
  {
    LatestConcat(table, a, id);
    LatestConcat(table, b, id);
    LatestIsGreatest(a, id);
    LatestIsGreatest(b, id);
    if Latest(a, id).Some? {
      assert Latest(a, id).value in b;
      assert Latest(b, id).value in a;
      if Later(Latest(table, id), Latest(a, id)) == Latest(a, id) {
        TopIsLatest(table, a, id);
      }
    } else {
      forall i | 0 <= i < |b| ensures b[i].msgId != id {
        assert b[i] in a;
      }
    }
  }

  /** Whatever the order of arrivals and of everything in between, the same records leave the same table. */
  lemma ArrivalOrderIsIrrelevant(s: Store, es: seq<Event>, fs: seq<Event>, id: string)
    requires Consistent(s) && AllWithin(s.messages)
    requires NoSwap(es) && AllPopulated(Arrivals(s, es))
    requires NoSwap(fs) && AllPopulated(Arrivals(s, fs))
    requires NoTopTies(s.messages, Arrivals(s, es)) && forall m :: m in Arrivals(s, es) <==> m in Arrivals(s, fs)
    ensures Lookup(Exec(s, es).messages, id) == Lookup(Exec(s, fs).messages, id)
  {
    TableHoldsLatest(s, es, id);
    TableHoldsLatest(s, fs, id);
    LatestIgnoresOrder(s.messages, Arrivals(s, es), Arrivals(s, fs), id);
  }

  /** The message table after some arrivals. */
  function AllUpserted(table: seq<Message>, ms: seq<Message>): seq<Message> {
    if ms == [] then table else Upserted(AllUpserted(table, ms[..|ms| - 1]), ms[|ms| - 1])
  }

  lemma {:induction false} AllUpsertedLooksUp(table: seq<Message>, ms: seq<Message>, id: string)
    requires UniqueIds(table) && AllWithin(table) && AllPopulated(ms)
    ensures UniqueIds(AllUpserted(table, ms))
    ensures Lookup(AllUpserted(table, ms), id) == Latest(table + ms, id)
  {
    if ms == [] {
      UniqueIsLatest(table, id);
      assert table + ms == table;
    } else {
      var init, last := ms[..|ms| - 1], ms[|ms| - 1];
      AllUpsertedLooksUp(table, init, id);
      UpsertKeepsIds(AllUpserted(table, init), last);
      WithinConcat(table, init);
      ArrivalUpdatesLatest(AllUpserted(table, init), table + init, last, id);
      Regroup(table, init, [last]);
      assert init + [last] == ms;
    }
  }

  ghost predicate SameTable(table: seq<Message>, a: seq<Message>, b: seq<Message>) {
    forall id :: Lookup(AllUpserted(table, a), id) == Lookup(AllUpserted(table, b), id)
  }

  /** Ties at the top are the only obstacle: all orders of the same arrivals leave the same id-to-record
      map exactly when no two different ones share their id's greatest timestamp. */
  lemma OrdersAgreeIff(table: seq<Message>, ms: seq<Message>)
    requires UniqueIds(table) && AllWithin(table) && AllPopulated(ms)
    ensures (forall ns :: multiset(ns) == multiset(ms) ==> SameTable(table, ms, ns)) <==> NoTopTies(table, ms)
  {
    if NoTopTies(table, ms) {
      forall ns | multiset(ns) == multiset(ms) ensures SameTable(table, ms, ns) {
        OrderDoesNotShow(table, ms, ns);
      }
    } else {
      var ns := SomeOrderShows(table, ms);
      assert !SameTable(table, ms, ns);
    }
  }

  lemma SomeOrderShows(table: seq<Message>, ms: seq<Message>) returns (ns: seq<Message>)
    requires UniqueIds(table) && AllWithin(table) && AllPopulated(ms) && !NoTopTies(table, ms)
    ensures multiset(ns) == multiset(ms) && !SameTable(table, ms, ns)
  {
    var x, y :| x in ms && y in ms && x.msgId == y.msgId && x.timestamp == y.timestamp && IsTop(table + ms, x) && x != y;
    var rest := ToTheEnd(ms, x, y);
    TieShows(table, ms, rest, x, y);
    TieShows(table, ms, rest, y, x);
    ns := if Lookup(AllUpserted(table, ms), x.msgId) == Some(y) then rest + [y, x] else rest + [x, y];
    assert Lookup(AllUpserted(table, ns), x.msgId) != Lookup(AllUpserted(table, ms), x.msgId);
  }

  lemma OrderDoesNotShow(table: seq<Message>, ms: seq<Message>, ns: seq<Message>)
    requires UniqueIds(table) && AllWithin(table) && AllPopulated(ms)
    requires NoTopTies(table, ms) && multiset(ns) == multiset(ms)
    ensures SameTable(table, ms, ns)
  {
    MembersAgree(ns, ms);
    PermutedIsPopulated(ms, ns);
    forall id ensures Lookup(AllUpserted(table, ms), id) == Lookup(AllUpserted(table, ns), id) {
      AllUpsertedLooksUp(table, ms, id);
      AllUpsertedLooksUp(table, ns, id);
      LatestIgnoresOrder(table, ms, ns, id);
    }
  }

  lemma PermutedIsPopulated(ms: seq<Message>, ns: seq<Message>)
    requires AllPopulated(ms) && multiset(ns) == multiset(ms)
    ensures AllPopulated(ns)
  {
    MembersAgree(ns, ms);
    forall i | 0 <= i < |ns| ensures Populated(ns[i]) {
      assert ns[i] in ms;
    }
  }

  lemma TakeOut(ms: seq<Message>, x: Message) returns (rest: seq<Message>)
    requires x in ms
    ensures multiset(rest) + multiset{x} == multiset(ms)
  {
    var i :| 0 <= i < |ms| && ms[i] == x;
    rest := ms[..i] + ms[i + 1..];
    assert ms == ms[..i] + ([x] + ms[i + 1..]);
  }

  /** Two different members of a list, moved to its end. */
  lemma ToTheEnd(ms: seq<Message>, x: Message, y: Message) returns (rest: seq<Message>)
    requires x in ms && y in ms && x != y
    ensures multiset(rest + [x, y]) == multiset(ms) == multiset(rest + [y, x])
  {
    var without := TakeOut(ms, x);
    assert y in multiset(ms);
    assert y in multiset(without);
    rest := TakeOut(without, y);
    PairAtTheEnd(rest, x, y);
    PairAtTheEnd(rest, y, x);
  }

  lemma PairAtTheEnd(rest: seq<Message>, x: Message, y: Message)
    ensures multiset(rest + [x, y]) == multiset(rest) + multiset{x} + multiset{y}
  {
  }

  /** Of two records that tie at the top, the one that arrives last wins. */
  lemma TieShows(table: seq<Message>, ms: seq<Message>, rest: seq<Message>, x: Message, y: Message)
    requires UniqueIds(table) && AllWithin(table) && AllPopulated(ms) && multiset(rest + [x, y]) == multiset(ms)
    requires IsTop(table + ms, y)
    ensures Lookup(AllUpserted(table, rest + [x, y]), y.msgId) == Some(y)
  {
    PermutedIsPopulated(ms, rest + [x, y]);
    AllUpsertedLooksUp(table, rest + [x, y], y.msgId);
    assert rest + [x, y] == (rest + [x]) + [y];
    TopComesLast(table, ms, rest + [x], y);
  }

  lemma TopComesLast(table: seq<Message>, ms: seq<Message>, part: seq<Message>, y: Message)
    requires IsTop(table + ms, y) && multiset(part + [y]) == multiset(ms)
    ensures Latest(table + (part + [y]), y.msgId) == Some(y)
  {
    Regroup(table, part, [y]);
    LatestConcat(table + part, [y], y.msgId);
    LatestOfOne(y, y.msgId);
    LatestIsGreatest(table + part, y.msgId);
    if Latest(table + part, y.msgId).Some? {
      MemberIsNotNewer(table, ms, part, y, Latest(table + part, y.msgId).value);
    }
  }

  lemma MemberIsNotNewer(table: seq<Message>, ms: seq<Message>, part: seq<Message>, y: Message, z: Message)
    requires IsTop(table + ms, y) && z in table + part && z.msgId == y.msgId
    requires multiset(part + [y]) == multiset(ms)
    ensures z.timestamp <= y.timestamp
  {
    MembersAgree(part + [y], ms);
    if z in table {
      var i :| 0 <= i < |table| && table[i] == z;
      assert (table + ms)[i] == z;
    } else {
      assert z in part + [y];
      var i :| 0 <= i < |ms| && ms[i] == z;
      assert (table + ms)[|table| + i] == z;
    }
  }
}
