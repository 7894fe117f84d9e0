/**
 The records of the message store, and the two ways in which it combines records
 of one message: the spread of a newer record over an older one, and the
 deduplication that folds a whole list.
*/
module Records {
  import opened Prelude

  datatype Value = Undefined | Text(text: string) | Number(n: int)

  /** The own properties of a record. A property that is present may still be undefined. */
  type Fields = map<string, Value>

  /** A stored message: its identity, routing and time, and all its other properties. */
  datatype Message = Message(
    msgId: string, conversationId: string, senderId: string, fromMe: bool, timestamp: int, fields: Fields)

  /** Object spread: every property of `m`, and those of `base` that `m` does not have. */
  function Spread(base: Message, m: Message): Message {
    m.(fields := base.fields + m.fields)
  }

  /** The first position of a message id, or -1. */
  function FindIndex(messages: seq<Message>, id: string): (i: int)
    ensures -1 <= i < |messages|
    ensures i >= 0 ==> messages[i].msgId == id
    ensures forall j :: 0 <= j < (if i < 0 then |messages| else i) ==> messages[j].msgId != id
  {
    if messages == [] then -1
    else
      var last := |messages| - 1;
      var i := FindIndex(messages[..last], id);
      if i < 0 && messages[last].msgId == id then last else i
  }

  ghost predicate UniqueIds(messages: seq<Message>) {
    forall i, j :: 0 <= i < j < |messages| ==> messages[i].msgId != messages[j].msgId
  }

  function Lookup(messages: seq<Message>, id: string): Option<Message> {
    var i := FindIndex(messages, id);
    if i < 0 then None else Some(messages[i])
  }

  lemma LookupIsTheRecord(messages: seq<Message>, i: nat)
    requires UniqueIds(messages) && i < |messages|
    ensures Lookup(messages, messages[i].msgId) == Some(messages[i])
  {
  }

  // ------------------------------------------------------------------
  // Deduplication
  // ------------------------------------------------------------------

  /** Insertion into a map that keeps the order of first insertion. */
  function MergeOne(merged: seq<Message>, m: Message): seq<Message> {
    var i := FindIndex(merged, m.msgId);
    if m.msgId == "" then merged
    else if i < 0 then merged + [m]
    else merged[i := Spread(merged[i], m)]
  }

  function MergeById(list: seq<Message>): seq<Message> {
    if list == [] then [] else MergeOne(MergeById(list[..|list| - 1]), list[|list| - 1])
  }

  function InsertByTime(sorted: seq<Message>, m: Message): seq<Message> {
    if sorted == [] || sorted[|sorted| - 1].timestamp <= m.timestamp then sorted + [m]
    else InsertByTime(sorted[..|sorted| - 1], m) + [sorted[|sorted| - 1]]
  }

  /** The stable sort by timestamp. */
  function SortByTime(list: seq<Message>): seq<Message> {
    if list == [] then [] else InsertByTime(SortByTime(list[..|list| - 1]), list[|list| - 1])
  }

  function Deduplicated(list: seq<Message>): seq<Message> {
    SortByTime(MergeById(list))
  }

  method DeduplicateMessagesById(list: seq<Message>) returns (result: seq<Message>)
    ensures result == Deduplicated(list)
  {
    var mapById: seq<Message> := [];
    for n := 0 to |list|
      invariant mapById == MergeById(list[..n])
    {
      var m := list[n];
      assert list[..n + 1][..n] == list[..n];
      if m.msgId == "" {
        continue;
      }
      var i := FindIndex(mapById, m.msgId);
      if i >= 0 {
        mapById := mapById[i := Spread(mapById[i], m)];
      } else {
        mapById := mapById + [m];
      }
    }
    assert list[..|list|] == list;
    result := SortByTime(mapById);
  }

  // ------------------------------------------------------------------
  // What deduplication means
  // ------------------------------------------------------------------

  /** The records of one message, in order. */
  function RecordsOf(list: seq<Message>, id: string): seq<Message> {
    if list == [] then []
    else
      var last := list[|list| - 1];
      var earlier := RecordsOf(list[..|list| - 1], id);
      if last.msgId == id then earlier + [last] else earlier
  }

  /** The spread of records over one another, from first to last. */
  function InOrderMerge(records: seq<Message>): Message
    requires records != []
  {
    var last := records[|records| - 1];
    if |records| == 1 then last else Spread(InOrderMerge(records[..|records| - 1]), last)
  }

  lemma {:induction false} MergeByIdHasUniqueIds(list: seq<Message>)
    ensures UniqueIds(MergeById(list))
    ensures forall i :: 0 <= i < |MergeById(list)| ==> MergeById(list)[i].msgId != ""
  {
    if list != [] {
      MergeByIdHasUniqueIds(list[..|list| - 1]);
    }
  }

  lemma MergeOneLooksUp(merged: seq<Message>, m: Message, id: string)
    requires UniqueIds(merged)
    ensures UniqueIds(MergeOne(merged, m))
    ensures Lookup(MergeOne(merged, m), id) ==
            if m.msgId != id || id == "" then Lookup(merged, id)
            else if Lookup(merged, id).None? then Some(m)
            else Some(Spread(Lookup(merged, id).value, m))
  {
    var result := MergeOne(merged, m);
    var i := FindIndex(merged, m.msgId);
    if m.msgId != "" && i < 0 {
      assert result[..|merged|] == merged;
    } else if m.msgId != "" {
      var j := FindIndex(merged, id);
      if j >= 0 {
        LookupIsTheRecord(result, j);
      }
    }
  }

  /** Each message id occurs once, as the in-order merge of all its records. */
  lemma {:induction false} MergeByIdLooksUp(list: seq<Message>, id: string)
    requires id != ""
    ensures var records := RecordsOf(list, id);
            Lookup(MergeById(list), id) == if records == [] then None else Some(InOrderMerge(records))
  {
    if list == [] {
      assert Lookup(MergeById(list), id) == None;
    } else {
      var init, last := list[..|list| - 1], list[|list| - 1];
      MergeByIdLooksUp(init, id);
      MergeByIdHasUniqueIds(init);
      MergeOneLooksUp(MergeById(init), last, id);
      InOrderMergeGrows(RecordsOf(init, id), last);
    }
  }

  lemma InOrderMergeGrows(records: seq<Message>, m: Message)
    ensures InOrderMerge(records + [m]) == if records == [] then m else Spread(InOrderMerge(records), m)
  {
    assert (records + [m])[..|records|] == records;
  }

  predicate Sorted(list: seq<Message>) {
    forall i, j :: 0 <= i < j < |list| ==> list[i].timestamp <= list[j].timestamp
  }

  /** The messages with one timestamp, in order. */
  function AtTime(list: seq<Message>, t: int): seq<Message> {
    if list == [] then []
    else
      var last := list[|list| - 1];
      AtTime(list[..|list| - 1], t) + if last.timestamp == t then [last] else []
  }

  lemma {:induction false} InsertAdds(sorted: seq<Message>, m: Message)
    ensures multiset(InsertByTime(sorted, m)) == multiset(sorted) + multiset{m}
    ensures forall x :: x in InsertByTime(sorted, m) <==> x in sorted || x == m
  {
    if !(sorted == [] || sorted[|sorted| - 1].timestamp <= m.timestamp) {
      var init, last := sorted[..|sorted| - 1], sorted[|sorted| - 1];
      InsertAdds(init, m);
      assert sorted == init + [last];
    }
  }

  lemma {:induction false} InsertKeepsSorted(sorted: seq<Message>, m: Message)
    requires Sorted(sorted)
    ensures Sorted(InsertByTime(sorted, m))
  {
    if !(sorted == [] || sorted[|sorted| - 1].timestamp <= m.timestamp) {
      var init, last := sorted[..|sorted| - 1], sorted[|sorted| - 1];
      InsertKeepsSorted(init, m);
      InsertAdds(init, m);
      assert forall x <- InsertByTime(init, m) :: x.timestamp <= last.timestamp;
    }
  }

  lemma {:induction false} AtTimeOfInsert(sorted: seq<Message>, m: Message, t: int)
    requires Sorted(sorted)
    ensures AtTime(InsertByTime(sorted, m), t) == AtTime(sorted, t) + if m.timestamp == t then [m] else []
  {
    var inserted := InsertByTime(sorted, m);
    if sorted == [] || sorted[|sorted| - 1].timestamp <= m.timestamp {
      assert inserted[..|inserted| - 1] == sorted;
    } else {
      var init, last := sorted[..|sorted| - 1], sorted[|sorted| - 1];
      AtTimeOfInsert(init, m, t);
      assert inserted[..|inserted| - 1] == InsertByTime(init, m);
      if m.timestamp == t {
        assert last.timestamp != t;
      }
    }
  }

  lemma MembersOfEnd(list: seq<Message>)
    requires list != []
    ensures multiset(list) == multiset(list[..|list| - 1]) + multiset{list[|list| - 1]}
  {
    assert list == list[..|list| - 1] + [list[|list| - 1]];
  }

  lemma {:induction false} SortPermutes(list: seq<Message>)
    ensures Sorted(SortByTime(list))
    ensures multiset(SortByTime(list)) == multiset(list)
  {
    if list != [] {
      var init, last := list[..|list| - 1], list[|list| - 1];
      SortPermutes(init);
      InsertKeepsSorted(SortByTime(init), last);
      InsertAdds(SortByTime(init), last);
      MembersOfEnd(list);
    }
  }

  lemma {:induction false} SortKeepsTies(list: seq<Message>, t: int)
    ensures AtTime(SortByTime(list), t) == AtTime(list, t)
  {
    if list != [] {
      var init, last := list[..|list| - 1], list[|list| - 1];
      SortKeepsTies(init, t);
      SortPermutes(init);
      AtTimeOfInsert(SortByTime(init), last, t);
    }
  }

  /** Sorting by time gives a sorted permutation that keeps equal timestamps in order. */
  lemma SortIsStable(list: seq<Message>)
    ensures Sorted(SortByTime(list))
    ensures multiset(SortByTime(list)) == multiset(list)
    ensures forall t :: AtTime(SortByTime(list), t) == AtTime(list, t)
  {
    SortPermutes(list);
    forall t ensures AtTime(SortByTime(list), t) == AtTime(list, t) {
      SortKeepsTies(list, t);
    }
  }

  lemma PrefixGrows(list: seq<Message>, n: nat)
    requires 0 < n <= |list|
    ensures list[..n][..n - 1] == list[..n - 1] && list[..n][n - 1] == list[n - 1]
    ensures list[..n] == list[..n - 1] + [list[n - 1]]
  {
  }

  lemma InsertAtEnd(list: seq<Message>, n: nat)
    requires Sorted(list) && 0 < n <= |list|
    ensures InsertByTime(list[..n - 1], list[n - 1]) == list[..n - 1] + [list[n - 1]]
  {
    if n > 1 {
      assert list[..n - 1][n - 2] == list[n - 2];
    }
  }

  lemma {:induction false} SortedIsSorted(list: seq<Message>, n: nat)
    requires Sorted(list) && n <= |list|
    ensures SortByTime(list[..n]) == list[..n]
  {
    if n > 0 {
      SortedIsSorted(list, n - 1);
      PrefixGrows(list, n);
      InsertAtEnd(list, n);
    }
  }

  lemma NextIsNew(list: seq<Message>, n: nat)
    requires UniqueIds(list) && n < |list| && list[n].msgId != ""
    ensures MergeOne(list[..n], list[n]) == list[..n + 1]
  {
    assert FindIndex(list[..n], list[n].msgId) < 0;
    assert list[..n + 1] == list[..n] + [list[n]];
  }

  lemma {:induction false} UniqueIsMerged(list: seq<Message>, n: nat)
    requires UniqueIds(list) && n <= |list|
    requires forall i :: 0 <= i < |list| ==> list[i].msgId != ""
    ensures MergeById(list[..n]) == list[..n]
  {
    if n > 0 {
      UniqueIsMerged(list, n - 1);
      NextIsNew(list, n - 1);
      assert list[..n][..n - 1] == list[..n - 1];
    }
  }

  /** A permutation of records with distinct ids has distinct ids and the same lookups. */
  lemma PermutationLooksUpAlike(a: seq<Message>, b: seq<Message>)
    requires UniqueIds(a) && multiset(a) == multiset(b)
    ensures UniqueIds(b)
    ensures forall id :: Lookup(a, id) == Lookup(b, id)
  {
    forall i, j | 0 <= i < j < |b| ensures b[i].msgId != b[j].msgId {
      if b[i].msgId == b[j].msgId {
        SameIdSameRecord(a, b, b[i], b[j]);
        TwiceInMultiset(b, i, j);
        OnceInMultiset(a, b[i]);
      }
    }
    forall id ensures Lookup(a, id) == Lookup(b, id) {
      MembersAgree(a, b);
      var i := FindIndex(a, id);
      if i >= 0 {
        assert a[i] in b;
        var j :| 0 <= j < |b| && b[j] == a[i];
        LookupIsTheRecord(b, j);
      } else {
        assert forall m <- a :: m.msgId != id;
        assert forall m <- b :: m.msgId != id;
      }
    }
  }

  lemma MembersAgree(a: seq<Message>, b: seq<Message>)
    requires multiset(a) == multiset(b)
    ensures forall m :: m in a <==> m in b
  {
    assert forall m :: m in a <==> m in multiset(a);
    assert forall m :: m in b <==> m in multiset(b);
  }

  lemma SameIdSameRecord(a: seq<Message>, b: seq<Message>, x: Message, y: Message)
    requires UniqueIds(a) && multiset(a) == multiset(b)
    requires x in b && y in b && x.msgId == y.msgId
    ensures x == y
  {
    MembersAgree(a, b);
    assert x in a && y in a;
  }

  lemma TwiceInMultiset(s: seq<Message>, i: nat, j: nat)
    requires i < j < |s| && s[i] == s[j]
    ensures multiset(s)[s[i]] >= 2
  {
    assert s == s[..i] + [s[i]] + s[i + 1..j] + [s[j]] + s[j + 1..];
  }

  lemma {:induction false} OnceInMultiset(s: seq<Message>, m: Message)
    requires UniqueIds(s)
    ensures multiset(s)[m] <= 1
  {
    if s != [] {
      var init, last := s[..|s| - 1], s[|s| - 1];
      OnceInMultiset(init, m);
      assert s == init + [last];
      if last == m {
        assert m !in init;
      }
    }
  }

  /** Deduplication keeps exactly the non-empty ids, once each, as the in-order merge
      of their records, sorted by time. */
  lemma DeduplicatedMeans(list: seq<Message>)
    ensures UniqueIds(Deduplicated(list)) && Sorted(Deduplicated(list))
    ensures forall m <- Deduplicated(list) :: m.msgId != ""
    ensures forall id :: id != "" ==>
              var records := RecordsOf(list, id);
              Lookup(Deduplicated(list), id) == if records == [] then None else Some(InOrderMerge(records))
  {
    var merged := MergeById(list);
    MergeByIdHasUniqueIds(list);
    SortIsStable(merged);
    PermutationLooksUpAlike(merged, SortByTime(merged));
    MembersAgree(merged, SortByTime(merged));
    forall id | id != ""
      ensures var records := RecordsOf(list, id);
              Lookup(Deduplicated(list), id) == if records == [] then None else Some(InOrderMerge(records))
    {
      MergeByIdLooksUp(list, id);
    }
  }

  /** Record `k` of a list is the last one of an id that has a property. */
  predicate LastHaving(records: seq<Message>, id: string, name: string, k: nat) {
    && k < |records| && records[k].msgId == id && name in records[k].fields
    && forall j :: k < j < |records| && records[j].msgId == id ==> name !in records[j].fields
  }

  /** `m` is what a list says of one id: it is as its last record there, except that it has every
      property that some record of the id has, with the value of the last record that has it. */
  ghost predicate Combines(m: Message, list: seq<Message>, id: string) {
    && (exists k :: 0 <= k < |list| && list[k].msgId == id && m == list[k].(fields := m.fields)
          && forall j :: k < j < |list| ==> list[j].msgId != id)
    && (forall name <- m.fields :: exists k: nat :: LastHaving(list, id, name, k) && m.fields[name] == list[k].fields[name])
    && (forall k, name :: 0 <= k < |list| && list[k].msgId == id && name in list[k].fields ==> name in m.fields)
  }

  lemma PropertyOfOneMore(list: seq<Message>, m: Message, id: string, before: Message, name: string)
    requires Combines(before, list, id) && m.msgId == id && name in Spread(before, m).fields
    ensures exists k: nat :: LastHaving(list + [m], id, name, k) && Spread(before, m).fields[name] == (list + [m])[k].fields[name]
  {
    if name in m.fields {
      assert LastHaving(list + [m], id, name, |list|);
    } else {
      var k: nat :| LastHaving(list, id, name, k) && before.fields[name] == list[k].fields[name];
      assert LastHaving(list + [m], id, name, k);
    }
  }

  lemma OneMoreCombines(list: seq<Message>, m: Message, id: string, before: Message)
    requires Combines(before, list, id) && m.msgId == id
    ensures Combines(Spread(before, m), list + [m], id)
  {
    var all, r := list + [m], Spread(before, m);
    assert all[|list|] == m && r == all[|list|].(fields := r.fields);
    forall name <- r.fields
      ensures exists k: nat :: LastHaving(all, id, name, k) && r.fields[name] == all[k].fields[name]
    {
      PropertyOfOneMore(list, m, id, before, name);
    }
  }

  lemma FirstCombines(list: seq<Message>, m: Message)
    requires forall j :: 0 <= j < |list| ==> list[j].msgId != m.msgId
    ensures Combines(m, list + [m], m.msgId)
  {
    var n, all := |list|, list + [m];
    assert all[n] == m;
    forall name | name in m.fields
      ensures exists k: nat :: LastHaving(all, m.msgId, name, k) && m.fields[name] == all[k].fields[name]
    {
      assert LastHaving(all, m.msgId, name, n);
    }
  }

  lemma OthersDoNotCombine(list: seq<Message>, m: Message, id: string, r: Message)
    requires Combines(r, list, id) && m.msgId != id
    ensures Combines(r, list + [m], id)
  {
    var all := list + [m];
    assert forall k :: 0 <= k < |list| ==> all[k] == list[k];
    forall name <- r.fields
      ensures exists k: nat :: LastHaving(all, id, name, k) && r.fields[name] == all[k].fields[name]
    {
      var k: nat :| LastHaving(list, id, name, k) && r.fields[name] == list[k].fields[name];
      assert LastHaving(all, id, name, k);
    }
  }

  lemma {:induction false} MergedCombines(list: seq<Message>, id: string)
    requires id != ""
    ensures match Lookup(MergeById(list), id)
            case None => forall j :: 0 <= j < |list| ==> list[j].msgId != id
            case Some(m) => Combines(m, list, id)
  {
    if list != [] {
      var init, last := list[..|list| - 1], list[|list| - 1];
      MergedCombines(init, id);
      MergeByIdHasUniqueIds(init);
      MergeOneLooksUp(MergeById(init), last, id);
      assert list == init + [last];
      match Lookup(MergeById(init), id)
      case None => if last.msgId == id { FirstCombines(init, last); }
      case Some(m) =>
        if last.msgId == id { OneMoreCombines(init, last, id, m); } else { OthersDoNotCombine(init, last, id, m); }
    }
  }

  /** Property by property: a deduplicated list has an id if and only if the list has it, and then
      every property that one of its records has, as the last of these has it; identity, routing,
      sender and time are those of the last record. */
  lemma DeduplicatedCombines(list: seq<Message>, id: string)
    requires id != ""
    ensures match Lookup(Deduplicated(list), id)
            case None => forall j :: 0 <= j < |list| ==> list[j].msgId != id
            case Some(m) => Combines(m, list, id)
  {
    DeduplicatedMeans(list);
    MergeByIdLooksUp(list, id);
    MergedCombines(list, id);
  }

  /** The ids of a merged list come in the order of their first records. */
  lemma {:induction false} MergedInFirstOrder(list: seq<Message>, i: nat, j: nat)
    requires i < j < |MergeById(list)|
    ensures var merged := MergeById(list);
            && 0 <= FindIndex(list, merged[i].msgId) < FindIndex(list, merged[j].msgId)
  {
    var init, last := list[..|list| - 1], list[|list| - 1];
    var a, b := MergeById(list)[i].msgId, MergeById(list)[j].msgId;
    assert list == init + [last];
    FirstGrows(init, last, a);
    FirstGrows(init, last, b);
    MergeKeepsPlaces(MergeById(init), last);
    if j < |MergeById(init)| {
      MergedInFirstOrder(init, i, j);
    } else {
      MergedIdsAreListed(init, i);
      MergedIdsAreMerged(init, b);
    }
  }

  lemma MergeKeepsPlaces(merged: seq<Message>, m: Message)
    ensures var result := MergeOne(merged, m);
            && |merged| <= |result| <= |merged| + 1
            && (forall i :: 0 <= i < |merged| ==> result[i].msgId == merged[i].msgId)
            && (|result| > |merged| ==> result[|merged|] == m && m.msgId != "" && FindIndex(merged, m.msgId) < 0)
  {
  }

  lemma FirstGrows(list: seq<Message>, m: Message, id: string)
    ensures FindIndex(list + [m], id) ==
            if FindIndex(list, id) >= 0 then FindIndex(list, id) else if m.msgId == id then |list| else -1
  {
    assert (list + [m])[..|list|] == list;
  }

  lemma {:induction false} MergedIdsAreListed(list: seq<Message>, i: nat)
    requires i < |MergeById(list)|
    ensures FindIndex(list, MergeById(list)[i].msgId) >= 0
  {
    if list != [] {
      var init, last := list[..|list| - 1], list[|list| - 1];
      FirstGrows(init, last, MergeById(list)[i].msgId);
      assert list == init + [last];
      if i < |MergeById(init)| {
        MergedIdsAreListed(init, i);
      }
    }
  }

  lemma MergedIdsAreMerged(list: seq<Message>, id: string)
    requires id != "" && FindIndex(MergeById(list), id) < 0
    ensures FindIndex(list, id) < 0
  {
    MergeByIdLooksUp(list, id);
    NoRecords(list, id);
  }

  lemma {:induction false} NoRecords(list: seq<Message>, id: string)
    ensures RecordsOf(list, id) == [] <==> FindIndex(list, id) < 0
  {
    if list != [] {
      NoRecords(list[..|list| - 1], id);
    }
  }

  /** Where an element of a list stands among those of its time. */
  lemma {:induction false} PlaceAtTime(list: seq<Message>, i: nat) returns (p: nat)
    requires i < |list|
    ensures p == |AtTime(list[..i], list[i].timestamp)| < |AtTime(list, list[i].timestamp)|
    ensures AtTime(list, list[i].timestamp)[p] == list[i]
  {
    var n := |list| - 1;
    if i < n {
      assert list[..n][..i] == list[..i];
      p := PlaceAtTime(list[..n], i);
    } else {
      p := |AtTime(list[..n], list[i].timestamp)|;
    }
  }

  lemma {:induction false} PlacesAscend(list: seq<Message>, i: nat, j: nat, t: int)
    requires i <= j <= |list|
    ensures |AtTime(list[..i], t)| <= |AtTime(list[..j], t)|
    ensures i < j && list[i].timestamp == t ==> |AtTime(list[..i], t)| < |AtTime(list[..j], t)|
  {
    if i < j {
      assert list[..j][..j - 1] == list[..j - 1];
      PlacesAscend(list, i, j - 1, t);
    }
  }

  /** Deduplicated records of one time come in the order of the first records of their ids. */
  lemma TiesKeepFirstOrder(list: seq<Message>, i: nat, j: nat)
    requires i < j < |Deduplicated(list)| && Deduplicated(list)[i].timestamp == Deduplicated(list)[j].timestamp
    ensures var a, b := Deduplicated(list)[i].msgId, Deduplicated(list)[j].msgId;
            0 <= FindIndex(list, a) < FindIndex(list, b)
  {
    var merged, sorted := MergeById(list), Deduplicated(list);
    var t := sorted[i].timestamp;
    SortIsStable(merged);
    MergeByIdHasUniqueIds(list);
    DeduplicatedMeans(list);
    MembersAgree(merged, sorted);
    assert sorted[i] in merged && sorted[j] in merged;
    var k: nat :| k < |merged| && merged[k] == sorted[i];
    var l: nat :| l < |merged| && merged[l] == sorted[j];
    SameOrderAtTime(sorted, merged, t, i, j, k, l);
    MergedInFirstOrder(list, k, l);
  }

  lemma SameOrderAtTime(a: seq<Message>, b: seq<Message>, t: int, i: nat, j: nat, k: nat, l: nat)
    requires UniqueIds(a) && UniqueIds(b) && AtTime(a, t) == AtTime(b, t)
    requires i < j < |a| && k < |b| && l < |b| && a[i] == b[k] && a[j] == b[l] && a[i].timestamp == t == a[j].timestamp
    ensures k < l
  {
    var p := PlaceAtTime(a, i);
    var q := PlaceAtTime(a, j);
    var x := PlaceAtTime(b, k);
    var y := PlaceAtTime(b, l);
    PlacesAscend(a, i, j, t);
    if l < k {
      PlacesAscend(b, l, k, t);
    }
    OnceAtTime(b, t, p, x);
    OnceAtTime(b, t, q, y);
  }

  lemma OnceAtTime(list: seq<Message>, t: int, p: nat, q: nat)
    requires UniqueIds(list) && p < |AtTime(list, t)| && q < |AtTime(list, t)| && AtTime(list, t)[p] == AtTime(list, t)[q]
    ensures p == q
  {
    AtTimeIsUnique(list, t);
  }

  lemma {:induction false} AtTimeIsUnique(list: seq<Message>, t: int)
    requires UniqueIds(list)
    ensures UniqueIds(AtTime(list, t)) && forall m <- AtTime(list, t) :: m in list
  {
    if list != [] {
      var n := |list| - 1;
      AtTimeIsUnique(list[..n], t);
      assert forall m <- list[..n] :: m.msgId != list[n].msgId;
    }
  }

  lemma DeduplicationIsIdempotent(list: seq<Message>)
    ensures Deduplicated(Deduplicated(list)) == Deduplicated(list)
  {
    var result := Deduplicated(list);
    DeduplicatedMeans(list);
    UniqueIsMerged(result, |result|);
    SortedIsSorted(result, |result|);
    assert result[..|result|] == result;
  }
}
