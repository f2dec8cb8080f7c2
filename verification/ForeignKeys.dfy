/**
 Following foreign keys: from an attribute row up to its transaction, the rows say what was indexed exactly if the
 rows that were there before agree with it.
 */
module ForeignKeys {
  import opened TxAssembly
  import opened TxAssemblyTheorems
  import opened Tables
  import opened Upsert
  import opened UpsertTheorems

  // ---------------------------------------------------------------------------------------------
  // Keys and what the rows under them say
  // ---------------------------------------------------------------------------------------------

  function MessageKey(s: Store, tx: TxWrapper, p: nat): (nat, nat)
    requires p < |tx.messages|
  {
    (IdOf(s.txs, tx.hash), tx.messages[p].index)
  }

  function EventKey(s: Store, tx: TxWrapper, p: nat, e: nat): (nat, nat)
    requires p < |tx.messages| && e < |tx.messages[p].events|
  {
    (IdOf(s.messages.rows, MessageKey(s, tx, p)), tx.messages[p].events[e].index)
  }

  function AttributeKey(s: Store, tx: TxWrapper, p: nat, e: nat, k: nat): (nat, nat)
    requires IsPlace(tx, p, e, k)
  {
    (IdOf(s.events.rows, EventKey(s, tx, p, e)), tx.messages[p].events[e].attributes[k].index)
  }

  /** Attribute `k` of event `e` of message `p`. */
  predicate IsPlace(tx: TxWrapper, p: nat, e: nat, k: nat) {
    p < |tx.messages| && e < |tx.messages[p].events| && k < |tx.messages[p].events[e].attributes|
  }

  function RawOf(keepRaw: bool, m: MessageRow): Bytes { if keepRaw then m.bytes else [] }

  /** If the key is taken, its row says the same. */
  ghost predicate Agree<E>(l: Level<E>, key: (nat, nat), name: string, extra: E) {
    key in l.rows.index ==> Says(l, l.rows.index[key], name, extra)
  }

  /**
   From the attribute row `id`, following the foreign keys stored in the rows, one finds the attribute, event and
   message as they were given, at their positions, and the transaction's hash.
   */
  ghost predicate LeadsBack(s: Store, id: nat, tx: TxWrapper, p: nat, e: nat, k: nat, keepRaw: bool)
    requires IsPlace(tx, p, e, k)
  {
    var m := tx.messages[p];
    var event := m.events[e];
    var attribute := event.attributes[k];
    && Says(s.attributes, id, attribute.key, attribute.value)
    && var (eventId, position) := s.attributes.rows.rows[id].key;
    && position == attribute.index
    && Says(s.events, eventId, event.kind, ())
    && var (messageId, position) := s.events.rows.rows[eventId].key;
    && position == event.index
    && Says(s.messages, messageId, m.typeUrl, RawOf(keepRaw, m))
    && var (txId, position) := s.messages.rows.rows[messageId].key;
    && position == m.index
    && txId in s.txs.rows && s.txs.rows[txId].key == tx.hash
  }

  /** The three rows above and at the place say what was given. */
  ghost predicate AllSay(s: Store, tx: TxWrapper, p: nat, e: nat, k: nat, keepRaw: bool)
    requires IsPlace(tx, p, e, k)
  {
    var m := tx.messages[p];
    var event := m.events[e];
    var attribute := event.attributes[k];
    && Says(s.messages, IdOf(s.messages.rows, MessageKey(s, tx, p)), m.typeUrl, RawOf(keepRaw, m))
    && Says(s.events, IdOf(s.events.rows, EventKey(s, tx, p, e)), event.kind, ())
    && Says(s.attributes, IdOf(s.attributes.rows, AttributeKey(s, tx, p, e, k)), attribute.key, attribute.value)
  }

  ghost predicate KeysPresent(s: Store, tx: TxWrapper, p: nat, e: nat, k: nat)
    requires IsPlace(tx, p, e, k)
  {
    && tx.hash in s.txs.index && MessageKey(s, tx, p) in s.messages.rows.index
    && EventKey(s, tx, p, e) in s.events.rows.index && AttributeKey(s, tx, p, e, k) in s.attributes.rows.index
  }

  lemma LeadsBackIfAllSay(s: Store, tx: TxWrapper, p: nat, e: nat, k: nat, keepRaw: bool)
    requires ValidStore(s) && IsPlace(tx, p, e, k) && KeysPresent(s, tx, p, e, k)
    ensures LeadsBack(s, IdOf(s.attributes.rows, AttributeKey(s, tx, p, e, k)), tx, p, e, k, keepRaw)
            <==> AllSay(s, tx, p, e, k, keepRaw)
  {
    hide Says;
    assert s.attributes.rows.rows[IdOf(s.attributes.rows, AttributeKey(s, tx, p, e, k))].key
           == AttributeKey(s, tx, p, e, k);
    assert s.events.rows.rows[IdOf(s.events.rows, EventKey(s, tx, p, e))].key == EventKey(s, tx, p, e);
    assert s.messages.rows.rows[IdOf(s.messages.rows, MessageKey(s, tx, p))].key == MessageKey(s, tx, p);
    assert s.txs.rows[IdOf(s.txs, tx.hash)].key == tx.hash;
  }

  // ---------------------------------------------------------------------------------------------
  // One transaction
  // ---------------------------------------------------------------------------------------------

  /** The unique maps cover the transaction. */
  ghost predicate Covered(names: Names, tx: TxWrapper) {
    Named(tx.messages, names.types, names.eventTypes, names.keys)
  }

  lemma RowAfter<E>(l: Level<E>, reqs: seq<Request<E>>, f: nat)
    requires LevelOk(l) && f < |reqs| && DistinctKeys(reqs, |reqs|)
    ensures var l' := PutAll(l, reqs, |reqs|);
            var key := Key(reqs[f]);
            && key in l'.rows.index && Ids(l', reqs)[f] == l'.rows.index[key]
            && (Says(l', l'.rows.index[key], reqs[f].name, reqs[f].extra)
                <==> Agree(l, key, reqs[f].name, reqs[f].extra))
  {
    hide PutAll, Says, NamesOk;
    var l' := PutAll(l, reqs, |reqs|);
    var key := Key(reqs[f]);
    PutAllKeeps(l, reqs, |reqs|);
    if key in l.rows.index {
      IndexStays(l, l', key);
      SaysStays(l, l', l.rows.index[key], reqs[f].name, reqs[f].extra);
    } else {
      PutAllSays(l, reqs, |reqs|, f);
    }
  }

  lemma MessagesDistinct(names: Names, id: nat, rows: seq<MessageRow>)
    requires Numbered(rows)
    ensures DistinctKeys(MessageRequests(names, id, rows), |rows|)
  {
  }

  /** The ids of the messages after the pass are different and lead to the message keys. */
  lemma PassMessages(s: Store, names: Names, tx: TxWrapper)
    requires ValidStore(s) && Numbered(tx.messages)
    ensures var ids := MessageIds(TxPass(s, names, tx).messages, s, names, tx);
            && (forall i, j :: 0 <= i < j < |ids| ==> ids[i] != ids[j])
            && forall i :: 0 <= i < |ids| ==>
                 && ids[i] in TxPass(s, names, tx).messages.rows.rows
                 && TxPass(s, names, tx).messages.rows.rows[ids[i]].key == MessageKey(s, tx, i)
  {
    hide PutAll, NamesOk;
    var reqs := MessageRequests(names, IdOf(s.txs, tx.hash), tx.messages);
    MessagesDistinct(names, IdOf(s.txs, tx.hash), tx.messages);
    PutAllKeeps(s.messages, reqs, |reqs|);
    IdsDistinct(TxPass(s, names, tx).messages, reqs);
  }

  lemma PassMessage(s: Store, names: Names, tx: TxWrapper, p: nat)
    requires ValidStore(s) && Numbered(tx.messages) && Covered(names, tx) && p < |tx.messages|
    ensures var s' := TxPass(s, names, tx);
            var key := MessageKey(s', tx, p);
            var m := tx.messages[p];
            && key == MessageKey(s, tx, p) && key in s'.messages.rows.index
            && MessageIds(s'.messages, s, names, tx)[p] == s'.messages.rows.index[key]
            && (Says(s'.messages, s'.messages.rows.index[key], m.typeUrl, RawOf(names.keepRaw, m))
                <==> Agree(s.messages, key, m.typeUrl, RawOf(names.keepRaw, m)))
  {
    hide PutAll, Says, Valid, NamesOk;
    var reqs := MessageRequests(names, IdOf(s.txs, tx.hash), tx.messages);
    MessagesDistinct(names, IdOf(s.txs, tx.hash), tx.messages);
    RowAfter(s.messages, reqs, p);
  }

  lemma EventsGrouped(s: Store, names: Names, tx: TxWrapper)
    requires ValidStore(s) && Numbered(tx.messages)
    ensures var ids := MessageIds(TxPass(s, names, tx).messages, s, names, tx);
            Grouped(EventGroups(names, tx.messages, ids), ids)
  {
    hide TxPass, ValidStore;
    PassMessages(s, names, tx);
  }

  lemma PassEvent(s: Store, names: Names, tx: TxWrapper, p: nat, e: nat)
    requires ValidStore(s) && Numbered(tx.messages) && Covered(names, tx)
    requires p < |tx.messages| && e < |tx.messages[p].events|
    ensures var s' := TxPass(s, names, tx);
            var ids := MessageIds(s'.messages, s, names, tx);
            var key := EventKey(s', tx, p, e);
            var f := |Flatten(EventLists(tx.messages), p)| + e;
            var kind := tx.messages[p].events[e].kind;
            && key in s'.events.rows.index
            && f < |FlatEvents(tx.messages)| && FlatEvents(tx.messages)[f] == tx.messages[p].events[e]
            && EventIds(s'.events, names, tx.messages, ids)[f] == s'.events.rows.index[key]
            && (Says(s'.events, s'.events.rows.index[key], kind, ()) <==> Agree(s.events, key, kind, ()))
  {
    hide PutAll, Says, Valid, NamesOk, Flatten;
    var s' := TxPass(s, names, tx);
    var ids := MessageIds(s'.messages, s, names, tx);
    PassMessage(s, names, tx, p);
    EventsGrouped(s, names, tx);
    var groups := EventGroups(names, tx.messages, ids);
    GroupedDistinct(groups, ids);
    FlattenAt(groups, |groups|, p, e);
    FlattenAt(EventLists(tx.messages), |tx.messages|, p, e);
    RequestPerEvent(names, tx.messages, ids, p);
    RowAfter(s.events, EventRequests(names, tx.messages, ids), |Flatten(groups, p)| + e);
  }

  lemma PassEvents(s: Store, names: Names, tx: TxWrapper)
    requires ValidStore(s) && Numbered(tx.messages)
    ensures var s' := TxPass(s, names, tx);
            var ids := MessageIds(s'.messages, s, names, tx);
            var eventIds := EventIds(s'.events, names, tx.messages, ids);
            && (forall f, g :: 0 <= f < g < |eventIds| ==> eventIds[f] != eventIds[g])
            && forall f :: 0 <= f < |eventIds| ==>
                 && eventIds[f] in s'.events.rows.rows
                 && s'.events.rows.rows[eventIds[f]].key.0 in ids
  {
    hide PutAll, NamesOk, Flatten, Valid;
    var s' := TxPass(s, names, tx);
    var ids := MessageIds(s'.messages, s, names, tx);
    EventsGrouped(s, names, tx);
    var groups := EventGroups(names, tx.messages, ids);
    GroupedDistinct(groups, ids);
    var reqs := EventRequests(names, tx.messages, ids);
    PutAllKeeps(s.events, reqs, |reqs|);
    IdsDistinct(s'.events, reqs);
    forall f | 0 <= f < |reqs|
      ensures reqs[f].parent in ids
    {
      var p, e := FlattenFind(groups, |groups|, f);
      assert reqs[f].parent == ids[p];
    }
  }

  lemma AttributesGrouped(s: Store, names: Names, tx: TxWrapper)
    requires ValidStore(s) && Numbered(tx.messages)
    ensures var s' := TxPass(s, names, tx);
            var eventIds := EventIds(s'.events, names, tx.messages, MessageIds(s'.messages, s, names, tx));
            Grouped(AttributeGroups(names, FlatEvents(tx.messages), eventIds), eventIds)
  {
    hide TxPass, ValidStore, Flatten;
    PassEvents(s, names, tx);
    var flat := FlatEvents(tx.messages);
    forall f, k | 0 <= f < |flat| && 0 <= k < |flat[f].attributes|
      ensures flat[f].attributes[k].index == k
    {
      var p, e := FlattenFind(EventLists(tx.messages), |tx.messages|, f);
      assert flat[f] == tx.messages[p].events[e];
    }
  }

  lemma PassAttribute(s: Store, names: Names, tx: TxWrapper, p: nat, e: nat, k: nat)
    requires ValidStore(s) && Numbered(tx.messages) && Covered(names, tx) && IsPlace(tx, p, e, k)
    ensures var s' := TxPass(s, names, tx);
            var key := AttributeKey(s', tx, p, e, k);
            var attribute := tx.messages[p].events[e].attributes[k];
            && key in s'.attributes.rows.index
            && (Says(s'.attributes, s'.attributes.rows.index[key], attribute.key, attribute.value)
                <==> Agree(s.attributes, key, attribute.key, attribute.value))
  {
    hide PutAll, Says, Valid, NamesOk, Flatten;
    var s' := TxPass(s, names, tx);
    var eventIds := EventIds(s'.events, names, tx.messages, MessageIds(s'.messages, s, names, tx));
    var flat := FlatEvents(tx.messages);
    PassEvent(s, names, tx, p, e);
    AttributesGrouped(s, names, tx);
    var f := |Flatten(EventLists(tx.messages), p)| + e;
    var groups := AttributeGroups(names, flat, eventIds);
    GroupedDistinct(groups, eventIds);
    FlattenAt(groups, |groups|, f, k);
    RowAfter(s.attributes, AllAttributes(names, tx.messages, eventIds), |Flatten(groups, f)| + k);
  }

  // ---------------------------------------------------------------------------------------------
  // A pass adds rows below its own transaction only
  // ---------------------------------------------------------------------------------------------

  /** Every parent is a row. */
  ghost predicate ForeignOk(s: Store) {
    && (forall k :: k in s.messages.rows.index ==> k.0 in s.txs.rows)
    && (forall k :: k in s.events.rows.index ==> k.0 in s.messages.rows.rows)
    && (forall k :: k in s.attributes.rows.index ==> k.0 in s.events.rows.rows)
  }

  /** The event key belongs to transaction `tx`. */
  ghost predicate EventBelow(s: Store, k: (nat, nat), tx: nat) {
    k.0 in s.messages.rows.rows && s.messages.rows.rows[k.0].key.0 == tx
  }

  ghost predicate AttributeBelow(s: Store, k: (nat, nat), tx: nat) {
    k.0 in s.events.rows.rows && EventBelow(s, s.events.rows.rows[k.0].key, tx)
  }

  /** What `s'` has over `s` is below transaction `tx`. */
  ghost predicate AddsBelow(s: Store, s': Store, tx: nat) {
    && (forall k :: k in s'.messages.rows.index && k !in s.messages.rows.index ==> k.0 == tx)
    && (forall k :: k in s'.events.rows.index && k !in s.events.rows.index ==> EventBelow(s', k, tx))
    && (forall k :: k in s'.attributes.rows.index && k !in s.attributes.rows.index ==> AttributeBelow(s', k, tx))
  }

  lemma NewParents<E>(l: Level<E>, reqs: seq<Request<E>>, parents: seq<nat>, k: (nat, nat))
    requires ValidLevel(l) && k in PutAll(l, reqs, |reqs|).rows.index && k !in l.rows.index
    requires forall f :: 0 <= f < |reqs| ==> reqs[f].parent in parents
    ensures k.0 in parents
  {
    PutAllAdds(l, reqs, |reqs|, k);
  }

  lemma PassAdds(s: Store, names: Names, tx: TxWrapper)
    requires ValidStore(s) && Numbered(tx.messages)
    ensures AddsBelow(s, TxPass(s, names, tx), IdOf(s.txs, tx.hash))
  {
    hide PutAll, NamesOk, Valid, Flatten;
    var s' := TxPass(s, names, tx);
    var id := IdOf(s.txs, tx.hash);
    var ids := MessageIds(s'.messages, s, names, tx);
    var eventIds := EventIds(s'.events, names, tx.messages, ids);
    PassMessages(s, names, tx);
    PassEvents(s, names, tx);
    EventsGrouped(s, names, tx);
    AttributesGrouped(s, names, tx);
    forall k | k in s'.messages.rows.index && k !in s.messages.rows.index
      ensures k.0 == id
    {
      NewParents(s.messages, MessageRequests(names, id, tx.messages), [id], k);
    }
    var groups := EventGroups(names, tx.messages, ids);
    var reqs := EventRequests(names, tx.messages, ids);
    GroupParents(groups, ids);
    forall k | k in s'.events.rows.index && k !in s.events.rows.index
      ensures EventBelow(s', k, id)
    {
      NewParents(s.events, reqs, ids, k);
    }
    var attributeReqs := AllAttributes(names, tx.messages, eventIds);
    GroupParents(AttributeGroups(names, FlatEvents(tx.messages), eventIds), eventIds);
    forall k | k in s'.attributes.rows.index && k !in s.attributes.rows.index
      ensures AttributeBelow(s', k, id)
    {
      NewParents(s.attributes, attributeReqs, eventIds, k);
    }
  }

  lemma GroupParents<E>(groups: seq<seq<Request<E>>>, ids: seq<nat>)
    requires Grouped(groups, ids)
    ensures forall f :: 0 <= f < |Flatten(groups, |groups|)| ==> Flatten(groups, |groups|)[f].parent in ids
  {
    var all := Flatten(groups, |groups|);
    forall f | 0 <= f < |all|
      ensures all[f].parent in ids
    {
      var p, e := FlattenFind(groups, |groups|, f);
      assert Key(groups[p][e]) == (ids[p], e);
    }
  }

  lemma PassForeign(s: Store, names: Names, tx: TxWrapper)
    requires ValidStore(s) && ForeignOk(s) && Numbered(tx.messages) && tx.hash in s.txs.index
    ensures ForeignOk(TxPass(s, names, tx))
  {
    hide TxPass, NamesOk;
    PassAdds(s, names, tx);
    TxPassKeeps(s, names, tx);
  }

  /** What a key below transaction `tx` finds is not touched by the passes of other transactions. */
  ghost predicate SameBelow(s: Store, s': Store, tx: nat) {
    && (forall k :: k in s'.messages.rows.index && k.0 == tx ==> k in s.messages.rows.index)
    && (forall k :: k in s'.events.rows.index && EventBelow(s', k, tx) ==> k in s.events.rows.index)
    && (forall k :: k in s'.attributes.rows.index && AttributeBelow(s', k, tx) ==> k in s.attributes.rows.index)
  }

  lemma OtherPass(s: Store, mid: Store, s': Store, tx: nat, other: nat)
    requires SameBelow(s, mid, tx) && AddsBelow(mid, s', other) && tx != other
    requires ForeignOk(mid) && ValidStore(mid) && ExtendsStore(mid, s')
    ensures SameBelow(s, s', tx)
  {
    hide ValidLevel, NamesOk;
    forall k | k in s'.events.rows.index && EventBelow(s', k, tx)
      ensures k in s.events.rows.index
    {
      assert k in mid.events.rows.index && EventBelow(mid, k, tx);
    }
    forall k | k in s'.attributes.rows.index && AttributeBelow(s', k, tx)
      ensures k in s.attributes.rows.index
    {
      assert k in mid.attributes.rows.index && k.0 in mid.events.rows.rows;
      var eventKey := mid.events.rows.rows[k.0].key;
      assert eventKey in mid.events.rows.index by { RowIndexed(mid.events, k.0); }
      assert AttributeBelow(mid, k, tx);
    }
  }

  lemma RowIndexed<E>(l: Level<E>, id: nat)
    requires ValidLevel(l) && id in l.rows.rows
    ensures l.rows.rows[id].key in l.rows.index
  {
  }

  ghost predicate WellFormed(txs: seq<TxWrapper>) {
    && DistinctHashes(txs)
    && forall i :: 0 <= i < |txs| ==>
         Numbered(txs[i].messages) && Named(txs[i].messages, txs[i].types, txs[i].eventTypes, txs[i].attributeKeys)
  }

  ghost predicate TxsPresent(s: Store, txs: seq<TxWrapper>) {
    forall i :: 0 <= i < |txs| ==> txs[i].hash in s.txs.index
  }

  lemma {:induction false} PassesForeign(s: Store, names: Names, txs: seq<TxWrapper>, n: nat)
    requires n <= |txs| && ValidStore(s) && ForeignOk(s) && WellFormed(txs) && TxsPresent(s, txs)
    ensures ForeignOk(TxPasses(s, names, txs, n))
    decreases n
  {
    hide TxPass, ValidStore, ForeignOk;
    if n > 0 {
      PassesForeign(s, names, txs, n - 1);
      TxPassesKeep(s, names, txs, n - 1);
      PassForeign(TxPasses(s, names, txs, n - 1), names, txs[n - 1]);
    }
  }

  lemma SameBelowSelf(s: Store, tx: nat)
    ensures SameBelow(s, s, tx)
  {
  }

  /** The passes of the first `n` transactions leave what is below a later one as it was. */
  lemma {:induction false} EarlierPasses(s: Store, names: Names, txs: seq<TxWrapper>, n: nat, i: nat)
    requires n <= i < |txs| && ValidStore(s) && ForeignOk(s) && WellFormed(txs) && TxsPresent(s, txs)
    ensures SameBelow(s, TxPasses(s, names, txs, n), IdOf(s.txs, txs[i].hash))
    decreases n
  {
    hide TxPass, ForeignOk, LevelOk, AddsBelow, SameBelow, ExtendsLevel, Numbered, Named;
    if n == 0 {
      SameBelowSelf(s, IdOf(s.txs, txs[i].hash));
    } else {
      var mid := TxPasses(s, names, txs, n - 1);
      EarlierPasses(s, names, txs, n - 1, i);
      PassesForeign(s, names, txs, n - 1);
      TxPassesKeep(s, names, txs, n - 1);
      PassAdds(mid, names, txs[n - 1]);
      TxPassKeeps(mid, names, txs[n - 1]);
      assert txs[n - 1].hash != txs[i].hash;
      assert s.txs.index[txs[n - 1].hash] != s.txs.index[txs[i].hash] by { assert Valid(s.txs); }
      OtherPass(s, mid, TxPass(mid, names, txs[n - 1]), IdOf(s.txs, txs[i].hash), IdOf(s.txs, txs[n - 1].hash));
    }
  }

  // ---------------------------------------------------------------------------------------------
  // A block
  // ---------------------------------------------------------------------------------------------

  lemma ExtendsNone(s: Store)
    ensures ExtendsStore(s, s)
  {
  }

  lemma {:induction false} LaterPasses(s: Store, names: Names, txs: seq<TxWrapper>, m: nat, n: nat)
    requires m <= n <= |txs| && ValidStore(s)
    ensures ExtendsStore(TxPasses(s, names, txs, m), TxPasses(s, names, txs, n))
    decreases n
  {
    hide TxPass, ValidStore, ExtendsLevel;
    if m == n {
      ExtendsNone(TxPasses(s, names, txs, m));
    } else {
      LaterPasses(s, names, txs, m, n - 1);
      TxPassesKeep(s, names, txs, n - 1);
      TxPassKeeps(TxPasses(s, names, txs, n - 1), names, txs[n - 1]);
      ExtendsTransitive(TxPasses(s, names, txs, m), TxPasses(s, names, txs, n - 1), TxPasses(s, names, txs, n));
    }
  }

  lemma {:induction false} AllNamesCover(txs: seq<TxWrapper>, keepRaw: bool, n: nat, i: nat)
    requires i < n <= |txs|
    ensures var names := AllNames(txs, keepRaw, n);
            && txs[i].types <= names.types && txs[i].eventTypes <= names.eventTypes
            && txs[i].attributeKeys <= names.keys && names.keepRaw == keepRaw
    decreases n
  {
    if i < n - 1 {
      AllNamesCover(txs, keepRaw, n - 1, i);
    }
  }

  /** The store when the transactions of the block have their rows. */
  function Begin(s: Store, txs: seq<TxWrapper>, block: nat): Store { s.(txs := UpsertTxs(s.txs, txs, block, |txs|)) }

  lemma BeginOk(s: Store, txs: seq<TxWrapper>, block: nat)
    requires ValidStore(s) && ForeignOk(s)
    ensures ValidStore(Begin(s, txs, block)) && ForeignOk(Begin(s, txs, block)) && TxsPresent(Begin(s, txs, block), txs)
  {
    hide UpsertTxs, LevelOk;
    UpsertTxsKeeps(s.txs, txs, block, |txs|);
    forall k | k in s.messages.rows.index
      ensures k.0 in Begin(s, txs, block).txs.rows
    {
      assert s.txs.rows[k.0].key in s.txs.index;
    }
  }

  /** The keys of a place, and what the rows under them say, are final once the transaction's pass is done. */
  lemma PlaceStays(s: Store, s': Store, tx: TxWrapper, p: nat, e: nat, k: nat, keepRaw: bool)
    requires ValidStore(s) && ExtendsStore(s, s') && IsPlace(tx, p, e, k) && KeysPresent(s, tx, p, e, k)
    ensures KeysPresent(s', tx, p, e, k)
    ensures MessageKey(s', tx, p) == MessageKey(s, tx, p) && EventKey(s', tx, p, e) == EventKey(s, tx, p, e)
    ensures AttributeKey(s', tx, p, e, k) == AttributeKey(s, tx, p, e, k)
    ensures AllSay(s', tx, p, e, k, keepRaw) <==> AllSay(s, tx, p, e, k, keepRaw)
  {
    hide Says, NamesOk, ExtendsLevel;
    var m := tx.messages[p];
    var event := m.events[e];
    var attribute := event.attributes[k];
    IndexStays(s.messages, s'.messages, MessageKey(s, tx, p));
    IndexStays(s.events, s'.events, EventKey(s, tx, p, e));
    IndexStays(s.attributes, s'.attributes, AttributeKey(s, tx, p, e, k));
    SaysStays(s.messages, s'.messages, s.messages.rows.index[MessageKey(s, tx, p)], m.typeUrl, RawOf(keepRaw, m));
    SaysStays(s.events, s'.events, s.events.rows.index[EventKey(s, tx, p, e)], event.kind, ());
    SaysStays(s.attributes, s'.attributes, s.attributes.rows.index[AttributeKey(s, tx, p, e, k)], attribute.key,
      attribute.value);
  }

  lemma AgreeSame<E>(l: Level<E>, l': Level<E>, key: (nat, nat), name: string, extra: E)
    requires LevelOk(l) && ExtendsLevel(l, l') && (key in l'.rows.index ==> key in l.rows.index)
    ensures Agree(l', key, name, extra) <==> Agree(l, key, name, extra)
  {
    hide Says, NamesOk;
    if key in l.rows.index {
      IndexStays(l, l', key);
      SaysStays(l, l', l.rows.index[key], name, extra);
    }
  }

  /** Rows stored before, under the place's keys, say what the block says. */
  ghost predicate AllAgree(s: Store, s': Store, tx: TxWrapper, p: nat, e: nat, k: nat, keepRaw: bool)
    requires IsPlace(tx, p, e, k)
  {
    var m := tx.messages[p];
    var event := m.events[e];
    var attribute := event.attributes[k];
    && Agree(s.messages, MessageKey(s', tx, p), m.typeUrl, RawOf(keepRaw, m))
    && Agree(s.events, EventKey(s', tx, p, e), event.kind, ())
    && Agree(s.attributes, AttributeKey(s', tx, p, e, k), attribute.key, attribute.value)
  }

  lemma PassAllAgree(s: Store, names: Names, tx: TxWrapper, p: nat, e: nat, k: nat)
    requires ValidStore(s) && Numbered(tx.messages) && Covered(names, tx) && IsPlace(tx, p, e, k)
    requires tx.hash in s.txs.index
    ensures var s' := TxPass(s, names, tx);
            && KeysPresent(s', tx, p, e, k)
            && (AllSay(s', tx, p, e, k, names.keepRaw) <==> AllAgree(s, s', tx, p, e, k, names.keepRaw))
  {
    hide TxPass, Says, ValidStore, Agree;
    TxPassKeeps(s, names, tx);
    PassMessage(s, names, tx, p);
    PassEvent(s, names, tx, p, e);
    PassAttribute(s, names, tx, p, e, k);
  }

  /** What the passes of other transactions leave, the place's pass finds. */
  lemma AgreeBefore(s: Store, mid: Store, s': Store, tx: TxWrapper, p: nat, e: nat, k: nat, keepRaw: bool)
    requires ValidStore(s) && ValidStore(mid) && ForeignOk(mid) && ExtendsStore(s, mid) && ExtendsStore(mid, s')
    requires ValidStore(s') && IsPlace(tx, p, e, k) && KeysPresent(s', tx, p, e, k)
    requires SameBelow(s, mid, IdOf(s.txs, tx.hash))
    ensures AllAgree(mid, s', tx, p, e, k, keepRaw) <==> AllAgree(s, s', tx, p, e, k, keepRaw)
  {
    hide Says, NamesOk, Agree;
    var m := tx.messages[p];
    var event := m.events[e];
    var attribute := event.attributes[k];
    AgreeSame(s.messages, mid.messages, MessageKey(s', tx, p), m.typeUrl, RawOf(keepRaw, m));
    var eventKey := EventKey(s', tx, p, e);
    assert s'.messages.rows.rows[eventKey.0].key == MessageKey(s', tx, p);
    if eventKey in mid.events.rows.index {
      assert EventBelow(mid, eventKey, IdOf(s.txs, tx.hash));
    }
    AgreeSame(s.events, mid.events, eventKey, event.kind, ());
    var key := AttributeKey(s', tx, p, e, k);
    assert s'.events.rows.rows[key.0].key == eventKey;
    if key in mid.attributes.rows.index {
      RowIndexed(mid.events, key.0);
      assert mid.events.rows.rows[key.0].key == eventKey;
      assert AttributeBelow(mid, key, IdOf(s.txs, tx.hash));
    }
    AgreeSame(s.attributes, mid.attributes, key, attribute.key, attribute.value);
  }

  /** An attribute of the block leads back exactly if what the final keys found before the block agrees. */
  lemma LeadsBackIfAgree(s: Store, txs: seq<TxWrapper>, block: nat, keepRaw: bool, i: nat, p: nat, e: nat, k: nat)
    requires ValidStore(s) && ForeignOk(s) && WellFormed(txs) && i < |txs| && IsPlace(txs[i], p, e, k)
    ensures var s' := IndexBlock(s, txs, block, keepRaw);
            && KeysPresent(s', txs[i], p, e, k)
            && (LeadsBack(s', IdOf(s'.attributes.rows, AttributeKey(s', txs[i], p, e, k)), txs[i], p, e, k, keepRaw)
                <==> AllAgree(s, s', txs[i], p, e, k, keepRaw))
  {
    hide TxPass, ValidStore, ForeignOk, ExtendsStore, LeadsBack, AllSay, UpsertTxs, SameBelow, Says, Agree;
    var tx := txs[i];
    var names := AllNames(txs, keepRaw, |txs|);
    AllNamesCover(txs, keepRaw, |txs|, i);
    var start := Begin(s, txs, block);
    BeginOk(s, txs, block);
    var mid := TxPasses(start, names, txs, i);
    var after := TxPasses(start, names, txs, i + 1);
    var final := TxPasses(start, names, txs, |txs|);
    TxPassesKeep(start, names, txs, i);
    TxPassesKeep(start, names, txs, i + 1);
    TxPassesKeep(start, names, txs, |txs|);
    PassesForeign(start, names, txs, i);
    EarlierPasses(start, names, txs, i, i);
    LaterPasses(start, names, txs, i, i + 1);
    LaterPasses(start, names, txs, i + 1, |txs|);
    assert mid.txs == start.txs by { ExtendsTxs(start, mid); }
    PassAllAgree(mid, names, tx, p, e, k);
    PlaceStays(after, final, tx, p, e, k, keepRaw);
    AgreeBefore(start, mid, after, tx, p, e, k, keepRaw);
    LeadsBackIfAllSay(final, tx, p, e, k, keepRaw);
  }

  lemma ExtendsTxs(s: Store, s': Store)
    requires ExtendsStore(s, s')
    ensures s'.txs == s.txs
  {
  }

  /** Every key of the transaction table keeps its id, and so every id its key. */
  ghost predicate KeepsTxs(s: Store, s': Store) {
    forall id :: id in s.txs.rows ==> id in s'.txs.rows && s'.txs.rows[id].key == s.txs.rows[id].key
  }

  /** No row of the three levels is changed or removed. */
  ghost predicate KeepsRows(s: Store, s': Store) {
    && KeepsTxs(s, s') && ExtendsLevel(s.messages, s'.messages) && ExtendsLevel(s.events, s'.events)
    && ExtendsLevel(s.attributes, s'.attributes)
  }

  lemma UpsertKeepsKeys(s: Store, txs: seq<TxWrapper>, block: nat)
    requires ValidStore(s)
    ensures KeepsTxs(s, Begin(s, txs, block))
  {
    hide UpsertTxs, LevelOk;
    UpsertTxsKeeps(s.txs, txs, block, |txs|);
    forall id | id in s.txs.rows
      ensures var t := Begin(s, txs, block).txs; id in t.rows && t.rows[id].key == s.txs.rows[id].key
    {
      assert s.txs.rows[id].key in s.txs.index;
    }
  }

  /** Indexing a block keeps every row, every unique key and every foreign key. */
  lemma BlockKeeps(s: Store, txs: seq<TxWrapper>, block: nat, keepRaw: bool)
    requires ValidStore(s) && ForeignOk(s) && WellFormed(txs)
    ensures var s' := IndexBlock(s, txs, block, keepRaw);
            ValidStore(s') && ForeignOk(s') && KeepsRows(s, s')
  {
    hide TxPasses, ForeignOk, ValidStore, WellFormed, ExtendsLevel, UpsertTxs;
    var start, names := Begin(s, txs, block), AllNames(txs, keepRaw, |txs|);
    BeginOk(s, txs, block);
    UpsertKeepsKeys(s, txs, block);
    PassesForeign(start, names, txs, |txs|);
    TxPassesKeep(start, names, txs, |txs|);
  }

  /** What indexing finds under the keys of a place agrees with it, as far down as the keys are taken. */
  ghost predicate AgreesBefore(s: Store, tx: TxWrapper, p: nat, e: nat, k: nat, keepRaw: bool)
    requires IsPlace(tx, p, e, k)
  {
    var m := tx.messages[p];
    var event := m.events[e];
    var attribute := event.attributes[k];
    tx.hash in s.txs.index && MessageKey(s, tx, p) in s.messages.rows.index ==>
      && Says(s.messages, s.messages.rows.index[MessageKey(s, tx, p)], m.typeUrl, RawOf(keepRaw, m))
      && (EventKey(s, tx, p, e) in s.events.rows.index ==>
            && Says(s.events, s.events.rows.index[EventKey(s, tx, p, e)], event.kind, ())
            && Agree(s.attributes, AttributeKey(s, tx, p, e, k), attribute.key, attribute.value))
  }

  lemma NewId<E>(l: Level<E>, l': Level<E>, key: (nat, nat))
    requires ValidLevel(l) && ValidLevel(l') && ExtendsLevel(l, l') && key in l'.rows.index && key !in l.rows.index
    ensures IdOf(l'.rows, key) !in l.rows.rows
  {
  }

  lemma TxIdKept(s: Store, s': Store, hash: string)
    requires ValidStore(s) && ValidStore(s') && KeepsTxs(s, s') && hash in s'.txs.index
    ensures if hash in s.txs.index then s'.txs.index[hash] == s.txs.index[hash] else s'.txs.index[hash] !in s.txs.rows
  {
    hide LevelOk;
    assert s'.txs.rows[s'.txs.index[hash]].key == hash;
    if hash in s.txs.index {
      assert s.txs.rows[s.txs.index[hash]].key == hash;
    }
  }

  /** What the final keys found before the block can be found without indexing the block. */
  lemma AgreesBeforehand(s: Store, s': Store, tx: TxWrapper, p: nat, e: nat, k: nat, keepRaw: bool)
    requires ValidStore(s) && ForeignOk(s) && ValidStore(s') && KeepsRows(s, s')
    requires IsPlace(tx, p, e, k) && KeysPresent(s', tx, p, e, k)
    ensures AllAgree(s, s', tx, p, e, k, keepRaw) <==> AgreesBefore(s, tx, p, e, k, keepRaw)
  {
    hide Says, NamesOk, ExtendsLevel, Valid, KeepsTxs;
    TxIdKept(s, s', tx.hash);
    var key, eventKey := MessageKey(s', tx, p), EventKey(s', tx, p, e);
    if key in s.messages.rows.index {
      IndexStays(s.messages, s'.messages, key);
    } else {
      NewId(s.messages, s'.messages, key);
    }
    if eventKey in s.events.rows.index {
      IndexStays(s.events, s'.events, eventKey);
    } else {
      NewId(s.events, s'.events, eventKey);
    }
  }

  /**
   After a block is indexed, following foreign keys from the attribute row of any place of any of its transactions
   recovers the given strings, bytes and positions if and only if the rows that were stored before under the same keys
   agree with the block.
   */
  lemma LeadsBackExactly(s: Store, txs: seq<TxWrapper>, block: nat, keepRaw: bool, i: nat, p: nat, e: nat, k: nat)
    requires ValidStore(s) && ForeignOk(s) && WellFormed(txs) && i < |txs| && IsPlace(txs[i], p, e, k)
    ensures var s' := IndexBlock(s, txs, block, keepRaw);
            && KeysPresent(s', txs[i], p, e, k)
            && (LeadsBack(s', IdOf(s'.attributes.rows, AttributeKey(s', txs[i], p, e, k)), txs[i], p, e, k, keepRaw)
                <==> AgreesBefore(s, txs[i], p, e, k, keepRaw))
  {
    hide *;
    LeadsBackIfAgree(s, txs, block, keepRaw, i, p, e, k);
    BlockKeeps(s, txs, block, keepRaw);
    AgreesBeforehand(s, IndexBlock(s, txs, block, keepRaw), txs[i], p, e, k, keepRaw);
  }

  /** A transaction whose hash was not stored before is always recovered. */
  lemma NewTxLeadsBack(s: Store, txs: seq<TxWrapper>, block: nat, keepRaw: bool, i: nat, p: nat, e: nat, k: nat)
    requires ValidStore(s) && ForeignOk(s) && WellFormed(txs) && i < |txs| && IsPlace(txs[i], p, e, k)
    requires txs[i].hash !in s.txs.index
    ensures var s' := IndexBlock(s, txs, block, keepRaw);
            && KeysPresent(s', txs[i], p, e, k)
            && LeadsBack(s', IdOf(s'.attributes.rows, AttributeKey(s', txs[i], p, e, k)), txs[i], p, e, k, keepRaw)
  {
    hide IndexBlock, LeadsBack, WellFormed, Says, ForeignOk, ValidStore;
    LeadsBackExactly(s, txs, block, keepRaw, i, p, e, k);
  }

  // ---------------------------------------------------------------------------------------------
  // A transaction that comes back changed
  // ---------------------------------------------------------------------------------------------

  /** A transaction with one message, one event and one attribute. */
  function OneAttribute(hash: string, value: string): TxWrapper {
    TxWrapper(hash, 0, [MessageRow(0, "m", [], [EventRow(0, "e", [AttributeRow(0, "k", value)])])], {"m"}, {"e"}, {"k"})
  }

  lemma OneIsWellFormed(hash: string, value: string)
    ensures WellFormed([OneAttribute(hash, value)]) && IsPlace(OneAttribute(hash, value), 0, 0, 0)
  {
  }

  lemma EmptyIsOk()
    ensures ValidStore(EmptyStore()) && ForeignOk(EmptyStore())
  {
  }

  lemma OldValueStays(s: Store, hash: string, first: string, second: string, keepRaw: bool)
    requires ValidStore(s) && first != second && KeysPresent(s, OneAttribute(hash, first), 0, 0, 0)
    requires var tx := OneAttribute(hash, first);
             LeadsBack(s, IdOf(s.attributes.rows, AttributeKey(s, tx, 0, 0, 0)), tx, 0, 0, 0, keepRaw)
    ensures !AgreesBefore(s, OneAttribute(hash, second), 0, 0, 0, keepRaw)
  {
    hide ValidStore;
  }

  /** Indexed again with another value, the attribute keeps its first value, and the new one is not found. */
  lemma ChangedValueIsLost(hash: string, first: string, second: string, block: nat, keepRaw: bool)
    requires first != second
    ensures var s := IndexBlock(EmptyStore(), [OneAttribute(hash, first)], block, keepRaw);
            var s' := IndexBlock(s, [OneAttribute(hash, second)], block, keepRaw);
            var tx := OneAttribute(hash, second);
            && KeysPresent(s', tx, 0, 0, 0)
            && !LeadsBack(s', IdOf(s'.attributes.rows, AttributeKey(s', tx, 0, 0, 0)), tx, 0, 0, 0, keepRaw)
  {
    hide IndexBlock, WellFormed, ValidStore, ForeignOk, LeadsBack, AgreesBefore, EmptyStore, KeysPresent;
    EmptyIsOk();
    EmptyHasNone(hash);
    OneIsWellFormed(hash, first);
    OneIsWellFormed(hash, second);
    var s := IndexBlock(EmptyStore(), [OneAttribute(hash, first)], block, keepRaw);
    NewTxLeadsBack(EmptyStore(), [OneAttribute(hash, first)], block, keepRaw, 0, 0, 0, 0);
    BlockKeeps(EmptyStore(), [OneAttribute(hash, first)], block, keepRaw);
    OldValueStays(s, hash, first, second, keepRaw);
    LeadsBackExactly(s, [OneAttribute(hash, second)], block, keepRaw, 0, 0, 0, 0);
  }

  lemma EmptyHasNone(hash: string)
    ensures hash !in EmptyStore().txs.index
  {
  }
}
