/**
 The part of IndexNewBlock that stores transactions, messages, events and attributes: requests are collected level by
 level, ids are scanned back into the structures, and the next level uses them as foreign keys.
 */
module Upsert {
  import opened TxAssembly
  import opened Tables

  datatype TxInfo = TxInfo(code: nat, block: nat)

  datatype Store = Store(
    txs: Table<string, TxInfo>, messages: Level<Bytes>, events: Level<()>, attributes: Level<string>)

  function EmptyLevel<E>(): Level<E> { Level(Table(map[], map[], 1), Table(map[], map[], 1)) }

  function EmptyStore(): Store { Store(Table(map[], map[], 1), EmptyLevel(), EmptyLevel(), EmptyLevel()) }

  /** The unique maps of the whole block, and the flag IndexTxMessageRaw. */
  datatype Names = Names(types: set<string>, eventTypes: set<string>, keys: set<string>, keepRaw: bool)

  /** Looking a string up in a unique map; a missing key yields the zero value, whose string is empty. */
  function Lookup(names: set<string>, s: string): string { if s in names then s else "" }

  // ---------------------------------------------------------------------------------------------
  // Requests
  // ---------------------------------------------------------------------------------------------

  function MessageRequests(names: Names, tx: nat, rows: seq<MessageRow>): seq<Request<Bytes>> {
    seq(|rows|, i requires 0 <= i < |rows| =>
      Request(tx, rows[i].index, Lookup(names.types, rows[i].typeUrl), if names.keepRaw then rows[i].bytes else []))
  }

  function EventRequest(names: Names, message: nat, e: EventRow): Request<()> {
    Request(message, e.index, Lookup(names.eventTypes, e.kind), ())
  }

  /** The events of one message, below the message's id. */
  function EventsOf(names: Names, message: nat, events: seq<EventRow>): seq<Request<()>> {
    seq(|events|, e requires 0 <= e < |events| => EventRequest(names, message, events[e]))
  }

  function EventGroups(names: Names, rows: seq<MessageRow>, ids: seq<nat>): (r: seq<seq<Request<()>>>)
    requires |ids| == |rows|
    ensures |r| == |rows|
  {
    seq(|rows|, p requires 0 <= p < |rows| => EventsOf(names, ids[p], rows[p].events))
  }

  /** messagesEventsSlice, given the ids of the messages. */
  function EventRequests(names: Names, rows: seq<MessageRow>, ids: seq<nat>): seq<Request<()>>
    requires |ids| == |rows|
  {
    Flatten(EventGroups(names, rows, ids), |rows|)
  }

  function EventLists(rows: seq<MessageRow>): (r: seq<seq<EventRow>>)
    ensures |r| == |rows|
  {
    seq(|rows|, p requires 0 <= p < |rows| => rows[p].events)
  }

  /** The events of all messages, in the same order. */
  function FlatEvents(rows: seq<MessageRow>): seq<EventRow> { Flatten(EventLists(rows), |rows|) }

  function AttributesOf(names: Names, event: nat, attributes: seq<AttributeRow>): seq<Request<string>> {
    seq(|attributes|, k requires 0 <= k < |attributes| =>
      Request(event, attributes[k].index, Lookup(names.keys, attributes[k].key), attributes[k].value))
  }

  function AttributeGroups(names: Names, events: seq<EventRow>, ids: seq<nat>): (r: seq<seq<Request<string>>>)
    requires |ids| == |events|
    ensures |r| == |events|
  {
    seq(|events|, f requires 0 <= f < |events| => AttributesOf(names, ids[f], events[f].attributes))
  }

  /** messagesEventsAttributesSlice, given the ids of the events. */
  function AttributeRequests(names: Names, events: seq<EventRow>, ids: seq<nat>): seq<Request<string>>
    requires |ids| == |events|
  {
    Flatten(AttributeGroups(names, events, ids), |events|)
  }

  /** The requests of the first `n` messages line up with their events. */
  lemma {:induction false} RequestPerEvent(names: Names, rows: seq<MessageRow>, ids: seq<nat>, n: nat)
    requires n <= |rows| == |ids|
    ensures |Flatten(EventGroups(names, rows, ids), n)| == |Flatten(EventLists(rows), n)|
    decreases n
  {
    if n > 0 {
      RequestPerEvent(names, rows, ids, n - 1);
    }
  }

  // ---------------------------------------------------------------------------------------------
  // One transaction, then a block
  // ---------------------------------------------------------------------------------------------

  function MessageLevel(s: Store, names: Names, tx: TxWrapper): Level<Bytes> {
    var reqs := MessageRequests(names, IdOf(s.txs, tx.hash), tx.messages);
    PutAll(s.messages, reqs, |reqs|)
  }

  /** The message ids scanned back from a message level. */
  function MessageIds(l: Level<Bytes>, s: Store, names: Names, tx: TxWrapper): (ids: seq<nat>)
    ensures |ids| == |tx.messages|
  {
    Ids(l, MessageRequests(names, IdOf(s.txs, tx.hash), tx.messages))
  }

  function EventLevel(l: Level<()>, names: Names, rows: seq<MessageRow>, ids: seq<nat>): Level<()>
    requires |ids| == |rows|
  {
    var reqs := EventRequests(names, rows, ids);
    PutAll(l, reqs, |reqs|)
  }

  function EventIds(l: Level<()>, names: Names, rows: seq<MessageRow>, ids: seq<nat>): (eventIds: seq<nat>)
    requires |ids| == |rows|
    ensures |eventIds| == |FlatEvents(rows)|
  {
    RequestPerEvent(names, rows, ids, |rows|);
    Ids(l, EventRequests(names, rows, ids))
  }

  function AllAttributes(names: Names, rows: seq<MessageRow>, eventIds: seq<nat>): seq<Request<string>>
    requires |eventIds| == |FlatEvents(rows)|
  {
    AttributeRequests(names, FlatEvents(rows), eventIds)
  }

  function AttributeLevel(l: Level<string>, names: Names, rows: seq<MessageRow>, eventIds: seq<nat>): Level<string>
    requires |eventIds| == |FlatEvents(rows)|
  {
    var reqs := AllAttributes(names, rows, eventIds);
    PutAll(l, reqs, |reqs|)
  }

  /** The three passes for one transaction. */
  function TxPass(s: Store, names: Names, tx: TxWrapper): Store {
    var messages := MessageLevel(s, names, tx);
    var ids := MessageIds(messages, s, names, tx);
    var events := EventLevel(s.events, names, tx.messages, ids);
    var eventIds := EventIds(events, names, tx.messages, ids);
    Store(s.txs, messages, events, AttributeLevel(s.attributes, names, tx.messages, eventIds))
  }

  /** The store after the passes of the first `n` transactions. */
  function TxPasses(s: Store, names: Names, txs: seq<TxWrapper>, n: nat): Store
    requires n <= |txs|
  {
    if n == 0 then s else TxPass(TxPasses(s, names, txs, n - 1), names, txs[n - 1])
  }

  /** Create or, on conflict of the hash, update code and block. */
  function UpsertTx(t: Table<string, TxInfo>, tx: TxWrapper, block: nat): Table<string, TxInfo> {
    var info := TxInfo(tx.code, block);
    if tx.hash in t.index then t.(rows := t.rows[t.index[tx.hash] := Row(tx.hash, info)])
    else Insert(t, tx.hash, info)
  }

  function UpsertTxs(t: Table<string, TxInfo>, txs: seq<TxWrapper>, block: nat, n: nat): Table<string, TxInfo>
    requires n <= |txs|
  {
    if n == 0 then t else UpsertTx(UpsertTxs(t, txs, block, n - 1), txs[n - 1], block)
  }

  /** The unique maps of the first `n` transactions together. */
  function AllNames(txs: seq<TxWrapper>, keepRaw: bool, n: nat): Names
    requires n <= |txs|
  {
    if n == 0 then Names({}, {}, {}, keepRaw)
    else
      var front := AllNames(txs, keepRaw, n - 1);
      Names(front.types + txs[n - 1].types, front.eventTypes + txs[n - 1].eventTypes,
            front.keys + txs[n - 1].attributeKeys, keepRaw)
  }

  /** What IndexNewBlock makes of the store. */
  function IndexBlock(s: Store, txs: seq<TxWrapper>, block: nat, keepRaw: bool): Store {
    TxPasses(s.(txs := UpsertTxs(s.txs, txs, block, |txs|)), AllNames(txs, keepRaw, |txs|), txs, |txs|)
  }

  ghost predicate LevelOk<E>(l: Level<E>) { ValidLevel(l) && NamesOk(l) }

  ghost predicate ValidStore(s: Store) {
    Valid(s.txs) && LevelOk(s.messages) && LevelOk(s.events) && LevelOk(s.attributes)
  }

  /** No row below the transactions is changed or removed. */
  ghost predicate ExtendsStore(s: Store, s': Store) {
    && s'.txs == s.txs
    && ExtendsLevel(s.messages, s'.messages) && ExtendsLevel(s.events, s'.events)
    && ExtendsLevel(s.attributes, s'.attributes)
  }

  lemma TxPassKeeps(s: Store, names: Names, tx: TxWrapper)
    requires ValidStore(s)
    ensures ValidStore(TxPass(s, names, tx)) && ExtendsStore(s, TxPass(s, names, tx))
  {
    hide PutAll, Valid, NamesOk, Extends;
    var reqs := MessageRequests(names, IdOf(s.txs, tx.hash), tx.messages);
    PutAllKeeps(s.messages, reqs, |reqs|);
    var ids := MessageIds(MessageLevel(s, names, tx), s, names, tx);
    var eventReqs := EventRequests(names, tx.messages, ids);
    PutAllKeeps(s.events, eventReqs, |eventReqs|);
    var eventIds := EventIds(EventLevel(s.events, names, tx.messages, ids), names, tx.messages, ids);
    var attributeReqs := AllAttributes(names, tx.messages, eventIds);
    PutAllKeeps(s.attributes, attributeReqs, |attributeReqs|);
  }

  lemma ExtendsTransitive(s: Store, t: Store, u: Store)
    requires ExtendsStore(s, t) && ExtendsStore(t, u)
    ensures ExtendsStore(s, u)
  {
    hide ExtendsLevel;
    ExtendsLevelChain(s.messages, t.messages, u.messages);
    ExtendsLevelChain(s.events, t.events, u.events);
    ExtendsLevelChain(s.attributes, t.attributes, u.attributes);
  }

  lemma {:induction false} TxPassesKeep(s: Store, names: Names, txs: seq<TxWrapper>, n: nat)
    requires n <= |txs| && ValidStore(s)
    ensures ValidStore(TxPasses(s, names, txs, n)) && ExtendsStore(s, TxPasses(s, names, txs, n))
    decreases n
  {
    hide TxPass, ValidStore;
    if n > 0 {
      TxPassesKeep(s, names, txs, n - 1);
      var mid := TxPasses(s, names, txs, n - 1);
      TxPassKeeps(mid, names, txs[n - 1]);
      ExtendsTransitive(s, mid, TxPass(mid, names, txs[n - 1]));
    }
  }

  lemma UpsertTxKeeps(t: Table<string, TxInfo>, tx: TxWrapper, block: nat)
    requires Valid(t)
    ensures var t' := UpsertTx(t, tx, block);
            && Valid(t') && t.next <= t'.next && tx.hash in t'.index
            && t'.rows[t'.index[tx.hash]] == Row(tx.hash, TxInfo(tx.code, block))
            && (forall k :: k in t.index ==> k in t'.index && t'.index[k] == t.index[k])
            && (forall k :: k in t'.index && k !in t.index ==> k == tx.hash && t'.index[k] == t.next)
            && (forall id :: id in t.rows && id != t'.index[tx.hash] ==> t'.rows[id] == t.rows[id])
  {
  }

  /** Ids of stored transactions stay, new ones are fresh, and the rows of the block carry its codes. */
  lemma {:induction false} UpsertTxsKeeps(t: Table<string, TxInfo>, txs: seq<TxWrapper>, block: nat, n: nat)
    requires n <= |txs| && Valid(t)
    ensures var t' := UpsertTxs(t, txs, block, n);
            && Valid(t') && t.next <= t'.next
            && (forall k :: k in t.index ==> k in t'.index && t'.index[k] == t.index[k])
            && (forall k :: k in t'.index && k !in t.index ==> t'.index[k] >= t.next)
            && (forall i :: 0 <= i < n ==> txs[i].hash in t'.index)
    decreases n
  {
    hide UpsertTx, Valid;
    if n > 0 {
      UpsertTxsKeeps(t, txs, block, n - 1);
      UpsertTxKeeps(UpsertTxs(t, txs, block, n - 1), txs[n - 1], block);
    }
  }

  // ---------------------------------------------------------------------------------------------
  // The loops of IndexNewBlock
  // ---------------------------------------------------------------------------------------------

  method CollectEvents(names: Names, rows: seq<MessageRow>, ids: seq<nat>) returns (reqs: seq<Request<()>>)
    requires |ids| == |rows|
    ensures reqs == EventRequests(names, rows, ids)
  {
    var groups := EventGroups(names, rows, ids);
    reqs := [];
    for p := 0 to |rows|
      invariant reqs == Flatten(groups, p)
    {
      for e := 0 to |rows[p].events|
        invariant reqs == Flatten(groups, p) + groups[p][..e]
      {
        reqs := reqs + [EventRequest(names, ids[p], rows[p].events[e])];
      }
      assert groups[p][..|rows[p].events|] == groups[p];
    }
  }

  method CollectAttributes(names: Names, events: seq<EventRow>, ids: seq<nat>) returns (reqs: seq<Request<string>>)
    requires |ids| == |events|
    ensures reqs == AttributeRequests(names, events, ids)
  {
    var groups := AttributeGroups(names, events, ids);
    reqs := [];
    for f := 0 to |events|
      invariant reqs == Flatten(groups, f)
    {
      for k := 0 to |events[f].attributes|
        invariant reqs == Flatten(groups, f) + groups[f][..k]
      {
        var a := events[f].attributes[k];
        reqs := reqs + [Request(ids[f], a.index, Lookup(names.keys, a.key), a.value)];
      }
      assert groups[f][..|events[f].attributes|] == groups[f];
    }
  }

  /** The tables of the database, changed in place. */
  class Database {
    var txs: Table<string, TxInfo>
    var messages: Level<Bytes>
    var events: Level<()>
    var attributes: Level<string>

    ghost function Contents(): Store
      reads this
    {
      Store(txs, messages, events, attributes)
    }

    constructor ()
      ensures Contents() == EmptyStore() && ValidStore(Contents())
    {
      txs := Table(map[], map[], 1);
      messages, events, attributes := EmptyLevel(), EmptyLevel(), EmptyLevel();
    }

    /** The three insert passes of one transaction. */
    method StoreTx(names: Names, tx: TxWrapper)
      requires ValidStore(Contents())
      modifies this
      ensures Contents() == TxPass(old(Contents()), names, tx) && ValidStore(Contents())
    {
      hide Flatten, PutAll, Valid, NamesOk;
      TxPassKeeps(Contents(), names, tx);
      var txId := IdOf(txs, tx.hash);
      var ids, eventIds, attributeIds;
      messages, ids := StoreRows(messages, MessageRequests(names, txId, tx.messages));
      RequestPerEvent(names, tx.messages, ids, |tx.messages|);
      var eventReqs := CollectEvents(names, tx.messages, ids);
      events, eventIds := StoreRows(events, eventReqs);
      var attributeReqs := CollectAttributes(names, FlatEvents(tx.messages), eventIds);
      attributes, attributeIds := StoreRows(attributes, attributeReqs);
    }

    /** IndexNewBlock: the transactions first, then their unique maps, then the passes. */
    method IndexNewBlock(wrappers: seq<TxWrapper>, block: nat, keepRaw: bool)
      requires ValidStore(Contents())
      modifies this
      ensures Contents() == IndexBlock(old(Contents()), wrappers, block, keepRaw) && ValidStore(Contents())
    {
      hide TxPass, LevelOk, UpsertTx;
      for i := 0 to |wrappers|
        invariant Contents() == old(Contents()).(txs := UpsertTxs(old(txs), wrappers, block, i))
        invariant ValidStore(Contents())
      {
        UpsertTxKeeps(txs, wrappers[i], block);
        txs := UpsertTx(txs, wrappers[i], block);
      }
      var names := Names({}, {}, {}, keepRaw);
      for i := 0 to |wrappers|
        invariant names == AllNames(wrappers, keepRaw, i)
      {
        names := Names(names.types + wrappers[i].types, names.eventTypes + wrappers[i].eventTypes,
                       names.keys + wrappers[i].attributeKeys, keepRaw);
      }
      ghost var start := Contents();
      for i := 0 to |wrappers|
        invariant Contents() == TxPasses(start, names, wrappers, i) && ValidStore(Contents())
      {
        StoreTx(names, wrappers[i]);
      }
    }
  }
}
