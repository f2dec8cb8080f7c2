/**
 From transaction bodies to rows and back: the attribute rows a block adds are exactly the recorded attributes of its
 stored messages, and each leads back, over foreign keys, to its transaction, message position, bytes and event.
 */
module IndexedBlocks {
  import opened Options
  import opened TxAssembly
  import opened TxAssemblyTheorems
  import opened Tables
  import opened Upsert
  import opened UpsertTheorems
  import opened ForeignKeys

  // ---------------------------------------------------------------------------------------------
  // Every new row has a place
  // ---------------------------------------------------------------------------------------------

  lemma PassFresh(s: Store, names: Names, tx: TxWrapper, key: (nat, nat)) returns (p: nat, e: nat, k: nat)
    requires ValidStore(s) && Numbered(tx.messages) && Covered(names, tx) && tx.hash in s.txs.index
    requires key in TxPass(s, names, tx).attributes.rows.index && key !in s.attributes.rows.index
    ensures IsPlace(tx, p, e, k) && KeysPresent(TxPass(s, names, tx), tx, p, e, k)
    ensures key == AttributeKey(TxPass(s, names, tx), tx, p, e, k)
  {
    hide PutAll, Says, Valid, NamesOk, Flatten;
    var s' := TxPass(s, names, tx);
    var eventIds := EventIds(s'.events, names, tx.messages, MessageIds(s'.messages, s, names, tx));
    var reqs := AllAttributes(names, tx.messages, eventIds);
    PutAllAdds(s.attributes, reqs, |reqs|, key);
    var i :| 0 <= i < |reqs| && Key(reqs[i]) == key;
    var f;
    AttributesGrouped(s, names, tx);
    f, k := FlattenFind(AttributeGroups(names, FlatEvents(tx.messages), eventIds), |eventIds|, i);
    p, e := FlattenFind(EventLists(tx.messages), |tx.messages|, f);
    PassEvent(s, names, tx, p, e);
    PassMessage(s, names, tx, p);
    PassAttribute(s, names, tx, p, e, k);
  }

  lemma {:induction false} PassesFresh(s: Store, names: Names, txs: seq<TxWrapper>, n: nat, key: (nat, nat))
    returns (i: nat, p: nat, e: nat, k: nat)
    requires n <= |txs| && ValidStore(s) && WellFormed(txs) && TxsPresent(s, txs)
    requires forall j :: 0 <= j < |txs| ==> Covered(names, txs[j])
    requires key in TxPasses(s, names, txs, n).attributes.rows.index && key !in s.attributes.rows.index
    ensures i < n && IsPlace(txs[i], p, e, k) && KeysPresent(TxPasses(s, names, txs, n), txs[i], p, e, k)
    ensures key == AttributeKey(TxPasses(s, names, txs, n), txs[i], p, e, k)
    decreases n
  {
    hide TxPass, ValidStore, Covered, Numbered, Named, ExtendsLevel, AllSay;
    assert n > 0;
    var mid, after := TxPasses(s, names, txs, n - 1), TxPasses(s, names, txs, n);
    TxPassesKeep(s, names, txs, n - 1);
    if key in mid.attributes.rows.index {
      i, p, e, k := PassesFresh(s, names, txs, n - 1, key);
      TxPassKeeps(mid, names, txs[n - 1]);
      PlaceStays(mid, after, txs[i], p, e, k, names.keepRaw);
    } else {
      i := n - 1;
      p, e, k := PassFresh(mid, names, txs[i], key);
    }
  }

  lemma BlockCovered(txs: seq<TxWrapper>, keepRaw: bool, i: nat)
    requires WellFormed(txs) && i < |txs|
    ensures Covered(AllNames(txs, keepRaw, |txs|), txs[i])
  {
    AllNamesCover(txs, keepRaw, |txs|, i);
  }

  lemma FreshKey(l: Level<string>, l': Level<string>, id: nat)
    requires ValidLevel(l) && ValidLevel(l') && ExtendsLevel(l, l') && id in l'.rows.rows && id !in l.rows.rows
    ensures var key := l'.rows.rows[id].key;
            key in l'.rows.index && key !in l.rows.index && IdOf(l'.rows, key) == id
  {
  }

  /**
   Every attribute row that indexing a block adds is the row of some place of the block, and it leads back to what was
   given there if and only if the rows that were stored before under the same keys agree.
   */
  lemma FreshRowLeadsBack(s: Store, txs: seq<TxWrapper>, block: nat, keepRaw: bool, id: nat)
    returns (i: nat, p: nat, e: nat, k: nat)
    requires ValidStore(s) && ForeignOk(s) && WellFormed(txs)
    requires id in IndexBlock(s, txs, block, keepRaw).attributes.rows.rows && id !in s.attributes.rows.rows
    ensures i < |txs| && IsPlace(txs[i], p, e, k)
    ensures var s' := IndexBlock(s, txs, block, keepRaw);
            && id == IdOf(s'.attributes.rows, AttributeKey(s', txs[i], p, e, k))
            && (LeadsBack(s', id, txs[i], p, e, k, keepRaw) <==> AgreesBefore(s, txs[i], p, e, k, keepRaw))
  {
    hide TxPass, ForeignOk, LevelOk, LeadsBack, AgreesBefore, UpsertTxs, Covered, WellFormed, ExtendsLevel, TxPasses;
    var names := AllNames(txs, keepRaw, |txs|);
    var start := Begin(s, txs, block);
    BeginOk(s, txs, block);
    var final := TxPasses(start, names, txs, |txs|);
    TxPassesKeep(start, names, txs, |txs|);
    FreshKey(s.attributes, final.attributes, id) by { LevelsValid(s); LevelsValid(final); }
    forall j | 0 <= j < |txs|
      ensures Covered(names, txs[j])
    {
      BlockCovered(txs, keepRaw, j);
    }
    i, p, e, k := PassesFresh(start, names, txs, |txs|, final.attributes.rows.rows[id].key);
    LeadsBackExactly(s, txs, block, keepRaw, i, p, e, k);
  }

  lemma LevelsValid(s: Store)
    requires ValidStore(s)
    ensures ValidLevel(s.attributes)
  {
  }

  // ---------------------------------------------------------------------------------------------
  // From bodies
  // ---------------------------------------------------------------------------------------------

  /** What comes with a body: the logs of a search response, or the parsed logs and all events of block results. */
  datatype Response = BySearch(logs: seq<seq<LogEvent>>) | ByResults(logs: seq<seq<LogEvent>>, events: seq<LogEvent>)

  /** A transaction as the parsers receive it. */
  datatype TxInput = TxInput(hash: string, code: nat, body: seq<BodyMsg>, response: Response)
  {
    function Path(): Path { if response.BySearch? then Search else Results }

    /** What the parser's message loop makes of the body. */
    function Parsed(filters: seq<TypeFilter>): Assembled {
      match response
      case BySearch(logs) => Searched(filters, body, logs)
      case ByResults(logs, events) => FromResults(filters, body, code, logs, events)
    }

    function Recorded(): Events {
      match response
      case BySearch(logs) => SearchEvents(logs)
      case ByResults(logs, events) => ResultsEvents(code, logs, events)
    }
  }

  /**
   The events that belong to body message `j` of a code-0 transaction: its own log or, if block results come without
   parsed logs, all events of the transaction.
   */
  function EventsFor(x: TxInput, j: nat): Option<seq<LogEvent>> {
    if j < |x.response.logs| then Some(x.response.logs[j])
    else if x.response.ByResults? && x.response.logs == [] then Some(x.response.events)
    else None
  }

  /** What the parser's message loop and ProcessTx make of it. */
  function Wrapper(filters: seq<TypeFilter>, x: TxInput): TxWrapper {
    var a := x.Parsed(filters);
    var rows := if x.code == 0 then Rows(a, |a.messages|) else [];
    TxWrapper(x.hash, x.code, rows, AllTypes(rows), AllEventTypes(rows), AllKeys(rows))
  }

  function Wrappers(filters: seq<TypeFilter>, xs: seq<TxInput>): seq<TxWrapper> {
    seq(|xs|, i requires 0 <= i < |xs| => Wrapper(filters, xs[i]))
  }

  ghost predicate DifferentHashes(xs: seq<TxInput>) { forall i, j :: 0 <= i < j < |xs| ==> xs[i].hash != xs[j].hash }

  /** What the processor produces is what the store relies on. */
  lemma ProcessedIsWellFormed(filters: seq<TypeFilter>, xs: seq<TxInput>)
    requires DifferentHashes(xs)
    ensures WellFormed(Wrappers(filters, xs))
  {
    hide Rows, AllTypes, AllEventTypes, AllKeys, Named, Numbered;
    forall i | 0 <= i < |xs|
      ensures var tx := Wrapper(filters, xs[i]);
              Numbered(tx.messages) && Named(tx.messages, tx.types, tx.eventTypes, tx.attributeKeys)
    {
      var x := xs[i];
      var a := x.Parsed(filters);
      RowsNumbered(a, |a.messages|);
      NoneNumbered();
      UniqueMapsCover(Wrapper(filters, x).messages);
    }
  }

  lemma NoneNumbered()
    ensures Numbered([])
  {
  }

  /** Attribute `k` of event `e` recorded for body message `j`, which is stored. */
  predicate IsRecorded(filters: seq<TypeFilter>, x: TxInput, j: nat, e: nat, k: nat) {
    && x.code == 0 && j < |x.body| && IsStored(x.Path(), filters, x.body[j])
    && EventsFor(x, j).Some? && e < |EventsFor(x, j).value| && k < |EventsFor(x, j).value[e].attributes|
  }

  /** Following foreign keys from attribute row `id` one reads the attribute, its event, its message and the hash. */
  ghost predicate Recovers(s: Store, id: nat, filters: seq<TypeFilter>, x: TxInput, j: nat, e: nat, k: nat,
                           keepRaw: bool)
    requires IsRecorded(filters, x, j, e, k)
  {
    var event := EventsFor(x, j).value[e];
    && Says(s.attributes, id, event.attributes[k].key, event.attributes[k].value)
    && var (eventId, position) := s.attributes.rows.rows[id].key;
    && position == k
    && Says(s.events, eventId, event.kind, ())
    && var (messageId, position) := s.events.rows.rows[eventId].key;
    && position == e
    && Says(s.messages, messageId, Decoded(x.Path(), x.body[j]).value.typeUrl, if keepRaw then x.body[j].value else [])
    && var (txId, position) := s.messages.rows.rows[messageId].key;
    && position == j
    && txId in s.txs.rows && s.txs.rows[txId].key == x.hash
  }

  lemma WrapperFaithful(filters: seq<TypeFilter>, x: TxInput)
    requires Unshifted(x.Path(), filters, x.body) && x.code == 0
    ensures Wrapper(filters, x).messages == FaithfulRows(x.Path(), filters, x.body, x.Recorded(), |x.body|)
  {
    hide Rows, FaithfulRows, Slots;
    FaithfulExactly(x.Path(), filters, x.body, x.Recorded());
  }

  /** A place of the processed transaction is a recorded attribute, and leading back to one is recovering the other. */
  lemma PlaceIsRecorded(filters: seq<TypeFilter>, x: TxInput, p: nat, j: nat, e: nat, k: nat)
    requires Unshifted(x.Path(), filters, x.body) && x.code == 0 && p < |Wrapper(filters, x).messages|
    requires j < |x.body| && IsStored(x.Path(), filters, x.body[j])
    requires Wrapper(filters, x).messages[p] == FaithfulRow(x.Path(), x.body[j], x.Recorded(), j)
    ensures IsPlace(Wrapper(filters, x), p, e, k) <==> IsRecorded(filters, x, j, e, k)
    ensures IsPlace(Wrapper(filters, x), p, e, k) ==> forall s, id, keepRaw ::
              LeadsBack(s, id, Wrapper(filters, x), p, e, k, keepRaw) <==> Recovers(s, id, filters, x, j, e, k, keepRaw)
  {
    hide Rows, Assemble, Says, IsStored, AllTypes, AllEventTypes, AllKeys;
  }

  /** The transaction is new to the store and no undecodable message comes before a stored one. */
  ghost predicate Fresh(s: Store, filters: seq<TypeFilter>, x: TxInput) {
    x.hash !in s.txs.index && Unshifted(x.Path(), filters, x.body)
  }

  /** Every recorded attribute of a stored message has a row, and the row leads back to the body it came from. */
  lemma RecordedIsStored(s: Store, filters: seq<TypeFilter>, xs: seq<TxInput>, block: nat, keepRaw: bool, i: nat,
                         j: nat, e: nat, k: nat)
    returns (id: nat)
    requires ValidStore(s) && ForeignOk(s) && DifferentHashes(xs)
    requires i < |xs| && Fresh(s, filters, xs[i]) && IsRecorded(filters, xs[i], j, e, k)
    ensures Recovers(IndexBlock(s, Wrappers(filters, xs), block, keepRaw), id, filters, xs[i], j, e, k, keepRaw)
  {
    hide IndexBlock, ValidStore, ForeignOk, WellFormed, LeadsBack, Recovers, FaithfulRow, FaithfulRows, IsStored;
    var txs := Wrappers(filters, xs);
    var x := xs[i];
    ProcessedIsWellFormed(filters, xs);
    WrapperFaithful(filters, x);
    var p := FaithfulAt(x.Path(), filters, x.body, x.Recorded(), |x.body|, j);
    PlaceIsRecorded(filters, x, p, j, e, k);
    var s' := IndexBlock(s, txs, block, keepRaw);
    id := IdOf(s'.attributes.rows, AttributeKey(s', txs[i], p, e, k));
    NewTxLeadsBack(s, txs, block, keepRaw, i, p, e, k);
  }

  /** Following foreign keys from attribute row `id` one comes to the transaction with that hash. */
  ghost predicate BelongsTo(s: Store, id: nat, hash: string) {
    && id in s.attributes.rows.rows
    && var eventId := s.attributes.rows.rows[id].key.0;
    && eventId in s.events.rows.rows
    && var messageId := s.events.rows.rows[eventId].key.0;
    && messageId in s.messages.rows.rows
    && var txId := s.messages.rows.rows[messageId].key.0;
    && txId in s.txs.rows && s.txs.rows[txId].key == hash
  }

  lemma PlaceBelongs(s: Store, tx: TxWrapper, p: nat, e: nat, k: nat)
    requires ValidStore(s) && IsPlace(tx, p, e, k) && KeysPresent(s, tx, p, e, k)
    ensures BelongsTo(s, IdOf(s.attributes.rows, AttributeKey(s, tx, p, e, k)), tx.hash)
  {
    hide NamesOk;
  }

  /**
   Every attribute row the block adds belongs to a transaction of the block; if that transaction is fresh, whatever the
   others are, the row is that of a recorded attribute and leads back to it.
   */
  lemma StoredIsRecorded(s: Store, filters: seq<TypeFilter>, xs: seq<TxInput>, block: nat, keepRaw: bool, id: nat)
    returns (i: nat, j: nat, e: nat, k: nat)
    requires ValidStore(s) && ForeignOk(s) && DifferentHashes(xs)
    requires id in IndexBlock(s, Wrappers(filters, xs), block, keepRaw).attributes.rows.rows
    requires id !in s.attributes.rows.rows
    ensures i < |xs| && BelongsTo(IndexBlock(s, Wrappers(filters, xs), block, keepRaw), id, xs[i].hash)
    ensures Fresh(s, filters, xs[i]) ==>
              && IsRecorded(filters, xs[i], j, e, k)
              && Recovers(IndexBlock(s, Wrappers(filters, xs), block, keepRaw), id, filters, xs[i], j, e, k, keepRaw)
  {
    hide IndexBlock, ValidStore, ForeignOk, WellFormed, LeadsBack, Recovers, FaithfulRow, FaithfulRows, IsStored;
    hide BelongsTo, KeysPresent;
    var txs := Wrappers(filters, xs);
    ProcessedIsWellFormed(filters, xs);
    var p;
    i, p, e, k := FreshRowLeadsBack(s, txs, block, keepRaw, id);
    j := 0;
    BlockKeeps(s, txs, block, keepRaw);
    LeadsBackExactly(s, txs, block, keepRaw, i, p, e, k);
    PlaceBelongs(IndexBlock(s, txs, block, keepRaw), txs[i], p, e, k);
    var x := xs[i];
    assert txs[i] == Wrapper(filters, x) && x.code == 0;
    if Fresh(s, filters, x) {
      NewTxLeadsBack(s, txs, block, keepRaw, i, p, e, k);
      WrapperFaithful(filters, x);
      j := FaithfulFrom(x.Path(), filters, x.body, x.Recorded(), |x.body|, p);
      PlaceIsRecorded(filters, x, p, j, e, k);
    }
  }

  // ---------------------------------------------------------------------------------------------
  // Whole histories
  // ---------------------------------------------------------------------------------------------

  datatype Block = Block(id: nat, txs: seq<TxInput>)

  /** The store after the first `n` blocks; a block may come again, and so may its transactions. */
  function IndexAll(filters: seq<TypeFilter>, blocks: seq<Block>, keepRaw: bool, n: nat): Store
    requires n <= |blocks|
  {
    if n == 0 then EmptyStore()
    else
      var block := blocks[n - 1];
      IndexBlock(IndexAll(filters, blocks, keepRaw, n - 1), Wrappers(filters, block.txs), block.id, keepRaw)
  }

  ghost predicate GoodBlocks(blocks: seq<Block>) { forall b :: 0 <= b < |blocks| ==> DifferentHashes(blocks[b].txs) }

  /** Every store that indexing can reach has its unique keys and foreign keys in order. */
  lemma {:induction false} HistoryValid(filters: seq<TypeFilter>, blocks: seq<Block>, keepRaw: bool, n: nat)
    requires n <= |blocks| && GoodBlocks(blocks)
    ensures ValidStore(IndexAll(filters, blocks, keepRaw, n)) && ForeignOk(IndexAll(filters, blocks, keepRaw, n))
    decreases n
  {
    hide IndexBlock, WellFormed;
    if n > 0 {
      HistoryValid(filters, blocks, keepRaw, n - 1);
      ProcessedIsWellFormed(filters, blocks[n - 1].txs);
      var block := blocks[n - 1];
      BlockKeeps(IndexAll(filters, blocks, keepRaw, n - 1), Wrappers(filters, block.txs), block.id, keepRaw);
    }
  }

  lemma RecoversStays(s: Store, s': Store, id: nat, filters: seq<TypeFilter>, x: TxInput, j: nat, e: nat, k: nat,
                      keepRaw: bool)
    requires ValidStore(s) && KeepsRows(s, s') && IsRecorded(filters, x, j, e, k)
    requires Recovers(s, id, filters, x, j, e, k, keepRaw)
    ensures Recovers(s', id, filters, x, j, e, k, keepRaw)
  {
    hide Valid, NamesOk;
    var event := EventsFor(x, j).value[e];
    SaysStays(s.attributes, s'.attributes, id, event.attributes[k].key, event.attributes[k].value);
    var eventId := s.attributes.rows.rows[id].key.0;
    SaysStays(s.events, s'.events, eventId, event.kind, ());
    var messageId := s.events.rows.rows[eventId].key.0;
    SaysStays(s.messages, s'.messages, messageId, Decoded(x.Path(), x.body[j]).value.typeUrl,
      if keepRaw then x.body[j].value else []);
  }

  lemma {:induction false} HistoryRecovers(filters: seq<TypeFilter>, blocks: seq<Block>, keepRaw: bool, m: nat,
                                           n: nat, id: nat, x: TxInput, j: nat, e: nat, k: nat)
    requires m <= n <= |blocks| && GoodBlocks(blocks) && IsRecorded(filters, x, j, e, k)
    requires Recovers(IndexAll(filters, blocks, keepRaw, m), id, filters, x, j, e, k, keepRaw)
    ensures Recovers(IndexAll(filters, blocks, keepRaw, n), id, filters, x, j, e, k, keepRaw)
    decreases n
  {
    hide IndexBlock, WellFormed, Recovers, ValidStore, ForeignOk, KeepsRows, IsRecorded;
    if m < n {
      HistoryRecovers(filters, blocks, keepRaw, m, n - 1, id, x, j, e, k);
      HistoryValid(filters, blocks, keepRaw, n - 1);
      ProcessedIsWellFormed(filters, blocks[n - 1].txs);
      var s := IndexAll(filters, blocks, keepRaw, n - 1);
      BlockKeeps(s, Wrappers(filters, blocks[n - 1].txs), blocks[n - 1].id, keepRaw);
      RecoversStays(s, IndexAll(filters, blocks, keepRaw, n), id, filters, x, j, e, k, keepRaw);
    }
  }

  /**
   In every history of blocks, indexed again or not: what block `m` recorded for a transaction that was new then, and
   has no undecodable message before a stored one, can be read back, over foreign keys, from the store after every
   later block.
   */
  lemma RecoveredForever(filters: seq<TypeFilter>, blocks: seq<Block>, keepRaw: bool, m: nat, n: nat,
                         i: nat, j: nat, e: nat, k: nat) returns (id: nat)
    requires m < n <= |blocks| && GoodBlocks(blocks)
    requires i < |blocks[m].txs| && Fresh(IndexAll(filters, blocks, keepRaw, m), filters, blocks[m].txs[i])
    requires IsRecorded(filters, blocks[m].txs[i], j, e, k)
    ensures Recovers(IndexAll(filters, blocks, keepRaw, n), id, filters, blocks[m].txs[i], j, e, k, keepRaw)
  {
    hide IndexBlock, Recovers, ValidStore, ForeignOk, IsRecorded, Fresh;
    HistoryValid(filters, blocks, keepRaw, m);
    var s := IndexAll(filters, blocks, keepRaw, m);
    id := RecordedIsStored(s, filters, blocks[m].txs, blocks[m].id, keepRaw, i, j, e, k);
    HistoryRecovers(filters, blocks, keepRaw, m + 1, n, id, blocks[m].txs[i], j, e, k);
  }
}
