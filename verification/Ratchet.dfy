/**
 The symmetric-key ratchet with skipped keys (section 2.2 of Signal's "The Double
 Ratchet Algorithm"). The key derivation and the cipher are parameters; nothing is
 assumed of them except that opening a sealed message with its own key gives it back.
*/
module Ratchet {
  import opened Prelude
  import opened Text

  type byte = x: int | 0 <= x < 256

  type Bytes = seq<byte>

  /** A chain or message key; its 32-byte width is never used. */
  datatype Key = Key(bytes: Bytes)

  /** `next` and `messageKey` are the two halves of the chain-key derivation. */
  datatype Crypto = Crypto(
    next: Key -> Key,
    messageKey: Key -> Key,
    seal: (Key, Bytes) -> Option<Bytes>,
    open: (Key, Bytes) -> Option<Bytes>)

  ghost predicate OpensWhatItSeals(c: Crypto) {
    forall k: Key, p: Bytes {:trigger c.seal(k, p)} ::
      c.seal(k, p).Some? ==> c.open(k, c.seal(k, p).value) == Some(p)
  }

  datatype Sender = Sender(chain: Key, index: u32)

  datatype Receiver = Receiver(chain: Key, index: u32, skipped: map<Slot, Key>)

  datatype Sealed = Sealed(index: u32, ciphertext: Bytes)

  // ------------------------------------------------------------------
  // The class
  // ------------------------------------------------------------------

  class RatchetState {
    const crypto: Crypto
    const rootKey: Key
    var sendChainKey: Key
    var recvChainKey: Key
    var sendMsgIndex: u32
    var recvMsgIndex: u32
    var skippedKeys: map<Slot, Key>

    ghost function Sending(): Sender
      reads this
    {
      Sender(sendChainKey, sendMsgIndex)
    }

    ghost function Receiving(): Receiver
      reads this
    {
      Receiver(recvChainKey, recvMsgIndex, skippedKeys)
    }

    constructor (crypto: Crypto, sharedRootKey: Key)
      ensures this.crypto == crypto && rootKey == sharedRootKey
      ensures Sending() == Sender(sharedRootKey, 0)
      ensures Receiving() == FreshReceiver(sharedRootKey)
    {
      this.crypto := crypto;
      rootKey := sharedRootKey;
      sendChainKey := sharedRootKey;
      recvChainKey := sharedRootKey;
      sendMsgIndex := 0;
      recvMsgIndex := 0;
      skippedKeys := map[];
    }

    method Encrypt(plaintext: Bytes) returns (message: Option<Sealed>)
      modifies this
      ensures (Sending(), message) == Emit(crypto, old(Sending()), plaintext)
      ensures Receiving() == old(Receiving())
    {
      var msgKey := crypto.messageKey(sendChainKey);
      sendChainKey := crypto.next(sendChainKey);
      var index := sendMsgIndex;
      sendMsgIndex := Wrap(sendMsgIndex + 1);
      var ciphertext := crypto.seal(msgKey, plaintext);
      message := if ciphertext.Some? then Some(Sealed(index, ciphertext.value)) else None;
    }

    method Decrypt(index: u32, ciphertext: Bytes) returns (plaintext: Option<Bytes>)
      modifies this
      ensures Receiving() == Take(crypto, old(Receiving()), index).0
      ensures plaintext == crypto.open(Take(crypto, old(Receiving()), index).1, ciphertext)
      ensures Sending() == old(Sending())
    {
      var msgKey: Key;
      if SlotOf(index) in skippedKeys {
        msgKey := skippedKeys[SlotOf(index)];
        skippedKeys := skippedKeys - {SlotOf(index)};
      } else {
        while recvMsgIndex < index
          invariant SkipTo(crypto, Receiving(), index) == SkipTo(crypto, old(Receiving()), index)
          invariant Sending() == old(Sending())
        {
          skippedKeys := skippedKeys[SlotOf(recvMsgIndex) := crypto.messageKey(recvChainKey)];
          recvChainKey := crypto.next(recvChainKey);
          recvMsgIndex := recvMsgIndex + 1;
        }
        msgKey := crypto.messageKey(recvChainKey);
        recvChainKey := crypto.next(recvChainKey);
        recvMsgIndex := Wrap(recvMsgIndex + 1);
      }
      plaintext := crypto.open(msgKey, ciphertext);
    }
  }

  // ------------------------------------------------------------------
  // What one call does
  // ------------------------------------------------------------------

  /** The name under which the key of a skipped index is stored. */
  datatype Slot = Slot(name: string)

  function SlotOf(index: nat): Slot {
    Slot(Decimal(index))
  }

  function FreshReceiver(root: Key): Receiver {
    Receiver(root, 0, map[])
  }

  function Emit(c: Crypto, s: Sender, plaintext: Bytes): (Sender, Option<Sealed>) {
    var ciphertext := c.seal(c.messageKey(s.chain), plaintext);
    (Sender(c.next(s.chain), Wrap(s.index + 1)),
     if ciphertext.Some? then Some(Sealed(s.index, ciphertext.value)) else None)
  }

  /** Derive and store the next key of the chain. */
  function SkipOne(c: Crypto, r: Receiver): Receiver
    requires r.index < U32_MAX
  {
    Receiver(c.next(r.chain), r.index + 1, r.skipped[SlotOf(r.index) := c.messageKey(r.chain)])
  }

  /** Derive and store the keys of the indices from `r.index` up to `index`. */
  function SkipTo(c: Crypto, r: Receiver, index: u32): Receiver
    decreases index - r.index
  {
    if r.index < index then SkipTo(c, SkipOne(c, r), index) else r
  }

  /** The receiver after it produced the key for `index`, and that key. */
  function Take(c: Crypto, r: Receiver, index: u32): (Receiver, Key) {
    if SlotOf(index) in r.skipped then
      (r.(skipped := r.skipped - {SlotOf(index)}), r.skipped[SlotOf(index)])
    else
      var s := SkipTo(c, r, index);
      (Receiver(c.next(s.chain), Wrap(s.index + 1), s.skipped), c.messageKey(s.chain))
  }

  // ------------------------------------------------------------------
  // The chain
  // ------------------------------------------------------------------

  function Chain(c: Crypto, root: Key, n: nat): Key {
    if n == 0 then root else c.next(Chain(c, root, n - 1))
  }

  /** The message key of chain position `n`. */
  function MessageKey(c: Crypto, root: Key, n: nat): Key {
    c.messageKey(Chain(c, root, n))
  }

  /** The number that a numeral denotes. */
  function Value(s: string): nat {
    if s == "" then 0
    else
      var last := s[|s| - 1];
      10 * Value(s[..|s| - 1]) + if '0' <= last <= '9' then last as int - '0' as int else 0
  }

  function IndexOf(slot: Slot): nat {
    Value(slot.name)
  }

  /** Numerals are read back, so two indices never share a slot. */
  lemma {:induction false} SlotIsReadBack(n: nat)
    ensures IndexOf(SlotOf(n)) == n
  {
    var d := Decimal(n);
    if n < 10 {
      assert Value(d[..0]) == 0;
    } else {
      SlotIsReadBack(n / 10);
      assert d[..|d| - 1] == Decimal(n / 10);
    }
  }

  // ------------------------------------------------------------------
  // What every receiver keeps
  // ------------------------------------------------------------------

  /** `used` is the set of chain positions whose keys were handed to the cipher:
      the other positions below `index` are exactly the stored ones. */
  ghost predicate Accounts(c: Crypto, root: Key, r: Receiver, used: set<nat>) {
    && r.chain == Chain(c, root, r.index)
    && (forall i <- used :: i < r.index)
    && (forall i: nat {:trigger SlotOf(i)} :: i < r.index && i !in used ==>
          SlotOf(i) in r.skipped && r.skipped[SlotOf(i)] == MessageKey(c, root, i))
    && (forall k <- r.skipped :: IndexOf(k) < r.index && IndexOf(k) !in used && SlotOf(IndexOf(k)) == k)
  }

  /** The chain position whose key a decryption at `index` consumes. */
  function Position(r: Receiver, index: u32): nat {
    if SlotOf(index) in r.skipped then index else Max(r.index, index)
  }

  /** The call does not run the 32-bit receive index over its end. */
  predicate Fits(r: Receiver, index: u32) {
    SlotOf(index) in r.skipped || Max(r.index, index) < U32_MAX
  }

  lemma StoredIffUnused(c: Crypto, root: Key, r: Receiver, used: set<nat>, index: nat)
    requires Accounts(c, root, r, used)
    ensures SlotOf(index) in r.skipped <==> index < r.index && index !in used
  {
    SlotIsReadBack(index);
  }

  lemma {:induction false} SkipToAccounts(c: Crypto, root: Key, r: Receiver, used: set<nat>, index: u32)
    requires Accounts(c, root, r, used)
    ensures var s := SkipTo(c, r, index);
            Accounts(c, root, s, used) && s.index == Max(r.index, index)
    decreases index - r.index
  {
    if r.index < index {
      SkipOneAccounts(c, root, r, used);
      SkipToAccounts(c, root, SkipOne(c, r), used, index);
    }
  }

  lemma SkipOneAccounts(c: Crypto, root: Key, r: Receiver, used: set<nat>)
    requires Accounts(c, root, r, used) && r.index < U32_MAX
    ensures Accounts(c, root, SkipOne(c, r), used)
    ensures SlotOf(r.index) !in r.skipped
  {
    var s := SkipOne(c, r);
    SlotIsReadBack(r.index);
    forall i: nat | i < s.index && i !in used
      ensures SlotOf(i) in s.skipped && s.skipped[SlotOf(i)] == MessageKey(c, root, i)
    {
      SlotIsReadBack(i);
    }
  }

  lemma TakeStoredAccounts(c: Crypto, root: Key, r: Receiver, used: set<nat>, index: u32)
    requires Accounts(c, root, r, used) && SlotOf(index) in r.skipped
    ensures Accounts(c, root, r.(skipped := r.skipped - {SlotOf(index)}), used + {index})
  {
    var rest := r.skipped - {SlotOf(index)};
    SlotIsReadBack(index);
    forall i: nat | i < r.index && i !in used + {index}
      ensures SlotOf(i) in rest && rest[SlotOf(i)] == MessageKey(c, root, i)
    {
      SlotIsReadBack(i);
    }
  }

  lemma TakeNextAccounts(c: Crypto, root: Key, r: Receiver, used: set<nat>)
    requires Accounts(c, root, r, used) && r.index < U32_MAX
    ensures Accounts(c, root, Receiver(c.next(r.chain), r.index + 1, r.skipped), used + {r.index})
  {
  }

  /** One decryption consumes an unused chain position, whatever its index and
      whether or not the ciphertext is authentic. */
  lemma TakeConsumesFresh(c: Crypto, root: Key, r: Receiver, used: set<nat>, index: u32)
    requires Accounts(c, root, r, used) && Fits(r, index)
    ensures var p := Position(r, index);
            && p !in used
            && Take(c, r, index).1 == MessageKey(c, root, p)
            && Take(c, r, index).0.index == Max(r.index, p + 1)
  {
    StoredIffUnused(c, root, r, used, index);
    SkipToAccounts(c, root, r, used, index);
  }

  lemma TakeAccounts(c: Crypto, root: Key, r: Receiver, used: set<nat>, index: u32)
    requires Accounts(c, root, r, used) && Fits(r, index)
    ensures Accounts(c, root, Take(c, r, index).0, used + {Position(r, index)})
  {
    if SlotOf(index) in r.skipped {
      TakeStoredAccounts(c, root, r, used, index);
    } else {
      SkipToAccounts(c, root, r, used, index);
      TakeNextAccounts(c, root, SkipTo(c, r, index), used);
    }
  }

  function Below(n: nat): set<nat> {
    if n == 0 then {} else Below(n - 1) + {n - 1}
  }

  lemma {:induction false} BelowHasSize(n: nat)
    ensures |Below(n)| == n
    ensures forall i: nat :: i in Below(n) <==> i < n
  {
    if n > 0 {
      BelowHasSize(n - 1);
    }
  }

  lemma {:induction false} DistinctIndicesCount(slots: set<Slot>, indices: set<nat>)
    requires forall k <- slots :: IndexOf(k) in indices && SlotOf(IndexOf(k)) == k
    requires forall i <- indices :: SlotOf(i) in slots
    ensures |slots| == |indices|
  {
    if slots == {} {
      assert forall i <- indices :: SlotOf(i) in slots;
      assert indices == {};
    } else {
      var k :| k in slots;
      var i := IndexOf(k);
      forall h <- slots - {k} ensures IndexOf(h) in indices - {i} {
        assert SlotOf(IndexOf(h)) == h;
      }
      forall j <- indices - {i} ensures SlotOf(j) in slots - {k} {
        SlotIsReadBack(j);
      }
      DistinctIndicesCount(slots - {k}, indices - {i});
    }
  }

  /** Conservation: every derived key is either stored or used. */
  lemma StoredPlusUsed(c: Crypto, root: Key, r: Receiver, used: set<nat>)
    requires Accounts(c, root, r, used)
    ensures |r.skipped| + |used| == r.index
  {
    BelowHasSize(r.index);
    var unused := Below(r.index) - used;
    assert |r.skipped.Keys| == |unused| by {
      DistinctIndicesCount(r.skipped.Keys, unused);
    }
    assert |unused| + |used| == r.index by {
      assert Below(r.index) == unused + used;
    }
  }

  /** Conservation survives a decryption exactly when the index does not overflow. */
  lemma ConservationIffFits(c: Crypto, root: Key, r: Receiver, used: set<nat>, index: u32)
    requires Accounts(c, root, r, used)
    ensures var s := Take(c, r, index).0;
            |s.skipped| + |used + {Position(r, index)}| == s.index <==> Fits(r, index)
  {
    if Fits(r, index) {
      TakeAccounts(c, root, r, used, index);
      StoredPlusUsed(c, root, Take(c, r, index).0, used + {Position(r, index)});
    } else {
      SkipToAccounts(c, root, r, used, index);
    }
  }

  /** A decryption at `index` uses the key of `index` exactly when that key was not
      used before; a replay burns the next key of the chain instead. */
  lemma RightKeyIffNotReplayed(c: Crypto, root: Key, r: Receiver, used: set<nat>, index: u32)
    requires Accounts(c, root, r, used)
    ensures Position(r, index) == index <==> index !in used
    ensures index in used ==> Position(r, index) == r.index
  {
    StoredIffUnused(c, root, r, used, index);
  }

  // ------------------------------------------------------------------
  // Every run of decryptions
  // ------------------------------------------------------------------

  /** The receiver after decryptions at the given indices (the ciphertexts do not matter to it). */
  function After(c: Crypto, root: Key, indices: seq<u32>): Receiver {
    if indices == [] then FreshReceiver(root)
    else Take(c, After(c, root, indices[..|indices| - 1]), indices[|indices| - 1]).0
  }

  /** The key that the last decryption hands to the cipher. */
  function LastKey(c: Crypto, root: Key, indices: seq<u32>): Key
    requires indices != []
  {
    Take(c, After(c, root, indices[..|indices| - 1]), indices[|indices| - 1]).1
  }

  /** The chain positions that the decryptions consume, in order. */
  function Positions(c: Crypto, root: Key, indices: seq<u32>): seq<nat> {
    if indices == [] then []
    else
      var init := indices[..|indices| - 1];
      Positions(c, root, init) + [Position(After(c, root, init), indices[|indices| - 1])]
  }

  predicate FitsThroughout(c: Crypto, root: Key, indices: seq<u32>) {
    indices == [] || (
      var init := indices[..|indices| - 1];
      FitsThroughout(c, root, init) && Fits(After(c, root, init), indices[|indices| - 1]))
  }

  function Elements(s: seq<nat>): set<nat> {
    if s == [] then {} else Elements(s[..|s| - 1]) + {s[|s| - 1]}
  }

  lemma {:induction false} ElementsAreMembers(s: seq<nat>, x: nat)
    ensures x in Elements(s) <==> x in s
  {
    if s != [] {
      ElementsAreMembers(s[..|s| - 1], x);
      assert s == s[..|s| - 1] + [s[|s| - 1]];
    }
  }

  lemma PositionsGrow(c: Crypto, root: Key, indices: seq<u32>)
    requires indices != []
    ensures var init, ps := indices[..|indices| - 1], Positions(c, root, indices);
            var p := Position(After(c, root, init), indices[|indices| - 1]);
            ps == Positions(c, root, init) + [p] && Elements(ps) == Elements(Positions(c, root, init)) + {p}
  {
    var init := indices[..|indices| - 1];
    var p := Position(After(c, root, init), indices[|indices| - 1]);
    var ps := Positions(c, root, init);
    assert (ps + [p])[..|ps|] == ps;
  }

  /** In every run, including replays, arbitrary indices and failed authentications:
      the stored keys are exactly those of the unused positions below the receive index. */
  lemma {:induction false} KeysAreConserved(c: Crypto, root: Key, indices: seq<u32>)
    requires FitsThroughout(c, root, indices)
    ensures Accounts(c, root, After(c, root, indices), Elements(Positions(c, root, indices)))
  {
    if indices != [] {
      var init, index := indices[..|indices| - 1], indices[|indices| - 1];
      KeysAreConserved(c, root, init);
      PositionsGrow(c, root, indices);
      var r, used := After(c, root, init), Elements(Positions(c, root, init));
      TakeAccounts(c, root, r, used, index);
    }
  }

  /** In every run, the stored keys and the decryptions together make up the receive index. */
  lemma StoredPlusDecryptions(c: Crypto, root: Key, indices: seq<u32>)
    requires FitsThroughout(c, root, indices)
    ensures |After(c, root, indices).skipped| + |indices| == After(c, root, indices).index
  {
    KeysAreConserved(c, root, indices);
    StoredPlusUsed(c, root, After(c, root, indices), Elements(Positions(c, root, indices)));
    OneElementEach(c, root, indices);
  }

  lemma {:induction false} OneElementEach(c: Crypto, root: Key, indices: seq<u32>)
    requires FitsThroughout(c, root, indices)
    ensures |Elements(Positions(c, root, indices))| == |indices|
  {
    if indices != [] {
      OneElementEach(c, root, indices[..|indices| - 1]);
      PositionsGrow(c, root, indices);
      EachKeyIsFresh(c, root, indices);
    }
  }

  /** Each key handed to the cipher is the one of the chain position it consumes,
      and that position was never consumed before. */
  lemma EachKeyIsFresh(c: Crypto, root: Key, indices: seq<u32>)
    requires FitsThroughout(c, root, indices) && indices != []
    ensures var init, index := indices[..|indices| - 1], indices[|indices| - 1];
            var p := Position(After(c, root, init), index);
            && p !in Elements(Positions(c, root, init))
            && LastKey(c, root, indices) == MessageKey(c, root, p)
            && After(c, root, indices).index == Max(After(c, root, init).index, p + 1)
  {
    var init, index := indices[..|indices| - 1], indices[|indices| - 1];
    KeysAreConserved(c, root, init);
    TakeConsumesFresh(c, root, After(c, root, init), Elements(Positions(c, root, init)), index);
  }

  /** The highest position used is always the one just below the receive index. */
  lemma {:induction false} LastUsedIsHighest(c: Crypto, root: Key, indices: seq<u32>)
    requires FitsThroughout(c, root, indices)
    ensures indices != [] ==> After(c, root, indices).index - 1 in Elements(Positions(c, root, indices))
    ensures indices == [] ==> After(c, root, indices).index == 0
  {
    if indices != [] {
      LastUsedIsHighest(c, root, indices[..|indices| - 1]);
      PositionsGrow(c, root, indices);
      EachKeyIsFresh(c, root, indices);
    }
  }

  /** No chain position is ever consumed twice. */
  lemma {:induction false} NoKeyIsUsedTwice(c: Crypto, root: Key, indices: seq<u32>, i: nat, j: nat)
    requires FitsThroughout(c, root, indices) && i < j < |indices|
    ensures |Positions(c, root, indices)| == |indices|
    ensures Positions(c, root, indices)[i] != Positions(c, root, indices)[j]
  {
    var init := indices[..|indices| - 1];
    var before := Positions(c, root, init);
    PositionsGrow(c, root, indices);
    OnePositionEach(c, root, init);
    if j < |init| {
      NoKeyIsUsedTwice(c, root, init, i, j);
    } else {
      EachKeyIsFresh(c, root, indices);
      ElementsAreMembers(before, before[i]);
    }
  }

  lemma {:induction false} OnePositionEach(c: Crypto, root: Key, indices: seq<u32>)
    ensures |Positions(c, root, indices)| == |indices|
  {
    if indices != [] {
      OnePositionEach(c, root, indices[..|indices| - 1]);
    }
  }

  lemma AccountsDetermineState(c: Crypto, root: Key, a: Receiver, b: Receiver, used: set<nat>)
    requires Accounts(c, root, a, used) && Accounts(c, root, b, used) && a.index == b.index
    ensures a == b
  {
    forall k ensures k in a.skipped <==> k in b.skipped {
    }
    forall k <- a.skipped ensures a.skipped[k] == b.skipped[k] {
      assert k == SlotOf(IndexOf(k));
    }
    assert a.skipped == b.skipped;
  }

  /** The state of a receiver is a function of the set of positions it has used. */
  lemma UsedSetDeterminesState(c: Crypto, root: Key, a: seq<u32>, b: seq<u32>)
    requires FitsThroughout(c, root, a) && FitsThroughout(c, root, b)
    requires Elements(Positions(c, root, a)) == Elements(Positions(c, root, b))
    ensures After(c, root, a) == After(c, root, b)
  {
    KeysAreConserved(c, root, a);
    KeysAreConserved(c, root, b);
    LastUsedIsHighest(c, root, a);
    LastUsedIsHighest(c, root, b);
    AccountsDetermineState(c, root, After(c, root, a), After(c, root, b), Elements(Positions(c, root, a)));
  }

  // ------------------------------------------------------------------
  // Sender to receiver
  // ------------------------------------------------------------------

  function SenderAfter(c: Crypto, root: Key, plaintexts: seq<Bytes>): Sender {
    if plaintexts == [] then Sender(root, 0)
    else Emit(c, SenderAfter(c, root, plaintexts[..|plaintexts| - 1]), plaintexts[|plaintexts| - 1]).0
  }

  /** What the encryption of `plaintexts[i]` returned to the sender. */
  function Message(c: Crypto, root: Key, plaintexts: seq<Bytes>, i: nat): Option<Sealed>
    requires i < |plaintexts|
  {
    Emit(c, SenderAfter(c, root, plaintexts[..i]), plaintexts[i]).1
  }

  lemma {:induction false} SenderFollowsChain(c: Crypto, root: Key, plaintexts: seq<Bytes>)
    requires |plaintexts| <= U32_MAX
    ensures SenderAfter(c, root, plaintexts) == Sender(Chain(c, root, |plaintexts|), |plaintexts|)
  {
    if plaintexts != [] {
      SenderFollowsChain(c, root, plaintexts[..|plaintexts| - 1]);
    }
  }

  /** Two parties that start from one root seal their n-th messages under one and the same key: keys are
      fresh within a direction, not across the two. */
  lemma DirectionsShareKeys(c: Crypto, root: Key, ours: seq<Bytes>, theirs: seq<Bytes>, n: nat)
    requires n < |ours| <= U32_MAX && n < |theirs| <= U32_MAX
    ensures c.messageKey(SenderAfter(c, root, ours[..n]).chain) == MessageKey(c, root, n)
    ensures c.messageKey(SenderAfter(c, root, theirs[..n]).chain) == MessageKey(c, root, n)
    ensures ours[n] == theirs[n] ==> Message(c, root, ours, n) == Message(c, root, theirs, n)
  {
    SenderFollowsChain(c, root, ours[..n]);
    SenderFollowsChain(c, root, theirs[..n]);
  }

  /** Some of the sealed messages, in any order, none of them twice. */
  ghost predicate Delivery(c: Crypto, root: Key, plaintexts: seq<Bytes>, order: seq<u32>) {
    && (forall j :: 0 <= j < |order| ==> order[j] < |plaintexts| && Message(c, root, plaintexts, order[j]).Some?)
    && (forall i, j :: 0 <= i < j < |order| ==> order[i] != order[j])
  }

  /** A duplicate-free delivery consumes exactly the delivered positions, in delivery order. */
  lemma {:induction false} DeliveryUsesItsOwnKeys(c: Crypto, root: Key, indices: seq<u32>)
    requires forall j :: 0 <= j < |indices| ==> indices[j] < U32_MAX
    requires forall i, j :: 0 <= i < j < |indices| ==> indices[i] != indices[j]
    ensures FitsThroughout(c, root, indices)
    ensures Positions(c, root, indices) == indices
  {
    if indices != [] {
      var init, index := indices[..|indices| - 1], indices[|indices| - 1];
      DeliveryUsesItsOwnKeys(c, root, init);
      KeysAreConserved(c, root, init);
      ElementsAreMembers(init, index);
      var r := After(c, root, init);
      StoredIffUnused(c, root, r, Elements(init), index);
      RightKeyIffNotReplayed(c, root, r, Elements(init), index);
    }
  }

  /** Whatever was lost and however the rest was reordered, the next delivered
      message opens to the plaintext that was sealed under its index. */
  lemma DeliveredMessageOpens(c: Crypto, root: Key, plaintexts: seq<Bytes>, order: seq<u32>)
    requires OpensWhatItSeals(c)
    requires |plaintexts| <= U32_MAX
    requires order != [] && Delivery(c, root, plaintexts, order)
    ensures var index := order[|order| - 1];
            var message := Message(c, root, plaintexts, index).value;
            && message.index == index
            && LastKey(c, root, order) == MessageKey(c, root, index)
            && c.open(LastKey(c, root, order), message.ciphertext) == Some(plaintexts[index])
  {
    var index := order[|order| - 1];
    SenderFollowsChain(c, root, plaintexts[..index]);
    DeliveryUsesItsOwnKeys(c, root, order);
    EachKeyIsFresh(c, root, order);
    OnePositionEach(c, root, order);
  }

  /** The receiver's final state depends only on which messages were delivered. */
  lemma DeliveryOrderIsIrrelevant(c: Crypto, root: Key, plaintexts: seq<Bytes>, a: seq<u32>, b: seq<u32>)
    requires |plaintexts| <= U32_MAX
    requires Delivery(c, root, plaintexts, a) && Delivery(c, root, plaintexts, b)
    requires forall i: nat :: i in a <==> i in b
    ensures After(c, root, a) == After(c, root, b)
  {
    DeliveryUsesItsOwnKeys(c, root, a);
    DeliveryUsesItsOwnKeys(c, root, b);
    forall i: nat ensures i in Elements(a) <==> i in Elements(b) {
      ElementsAreMembers(a, i);
      ElementsAreMembers(b, i);
    }
    assert Elements(a) == Elements(b);
    UsedSetDeterminesState(c, root, a, b);
  }
}
