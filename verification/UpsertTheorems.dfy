/** Indexing a block twice changes nothing. */
module UpsertTheorems {
  import opened TxAssembly
  import opened Tables
  import opened Upsert

  // ---------------------------------------------------------------------------------------------
  // Idempotence
  // ---------------------------------------------------------------------------------------------

  ghost predicate Has<E>(l: Level<E>, reqs: seq<Request<E>>) { Present(l, reqs, |reqs|) }

  /** Every row of the transaction is there. */
  ghost predicate Stored(s: Store, names: Names, tx: TxWrapper) {
    var ids := MessageIds(s.messages, s, names, tx);
    var eventIds := EventIds(s.events, names, tx.messages, ids);
    && Has(s.messages, MessageRequests(names, IdOf(s.txs, tx.hash), tx.messages))
    && Has(s.events, EventRequests(names, tx.messages, ids))
    && Has(s.attributes, AllAttributes(names, tx.messages, eventIds))
  }

  lemma TxPassStores(s: Store, names: Names, tx: TxWrapper)
    requires ValidStore(s)
    ensures Stored(TxPass(s, names, tx), names, tx)
  {
    hide PutAll, Valid, NamesOk, ExtendsLevel;
    var reqs := MessageRequests(names, IdOf(s.txs, tx.hash), tx.messages);
    PutAllKeeps(s.messages, reqs, |reqs|);
    var ids := MessageIds(MessageLevel(s, names, tx), s, names, tx);
    var eventReqs := EventRequests(names, tx.messages, ids);
    PutAllKeeps(s.events, eventReqs, |eventReqs|);
    var eventIds := EventIds(EventLevel(s.events, names, tx.messages, ids), names, tx.messages, ids);
    var attributeReqs := AllAttributes(names, tx.messages, eventIds);
    PutAllKeeps(s.attributes, attributeReqs, |attributeReqs|);
  }

  lemma StoredStays(s: Store, s': Store, names: Names, tx: TxWrapper)
    requires Stored(s, names, tx) && ExtendsStore(s, s')
    ensures Stored(s', names, tx)
  {
    hide ExtendsLevel, Present;
    var reqs := MessageRequests(names, IdOf(s.txs, tx.hash), tx.messages);
    PresentStays(s.messages, s'.messages, reqs, |reqs|);
    var ids := MessageIds(s.messages, s, names, tx);
    var eventReqs := EventRequests(names, tx.messages, ids);
    PresentStays(s.events, s'.events, eventReqs, |eventReqs|);
    var eventIds := EventIds(s.events, names, tx.messages, ids);
    var attributeReqs := AllAttributes(names, tx.messages, eventIds);
    PresentStays(s.attributes, s'.attributes, attributeReqs, |attributeReqs|);
  }

  lemma TxPassAgain(s: Store, names: Names, tx: TxWrapper)
    requires Stored(s, names, tx)
    ensures TxPass(s, names, tx) == s
  {
    hide PutAll;
    var reqs := MessageRequests(names, IdOf(s.txs, tx.hash), tx.messages);
    PutAllAgain(s.messages, reqs, |reqs|);
    var ids := MessageIds(s.messages, s, names, tx);
    var eventReqs := EventRequests(names, tx.messages, ids);
    PutAllAgain(s.events, eventReqs, |eventReqs|);
    var attributeReqs := AllAttributes(names, tx.messages, EventIds(s.events, names, tx.messages, ids));
    PutAllAgain(s.attributes, attributeReqs, |attributeReqs|);
  }

  lemma {:induction false} TxPassesStore(s: Store, names: Names, txs: seq<TxWrapper>, n: nat, i: nat)
    requires i < n <= |txs| && ValidStore(s)
    ensures Stored(TxPasses(s, names, txs, n), names, txs[i])
    decreases n
  {
    hide TxPass, ValidStore, Stored, ExtendsStore;
    var mid := TxPasses(s, names, txs, n - 1);
    TxPassesKeep(s, names, txs, n - 1);
    if i == n - 1 {
      TxPassStores(mid, names, txs[i]);
    } else {
      TxPassesStore(s, names, txs, n - 1, i);
      TxPassKeeps(mid, names, txs[n - 1]);
      StoredStays(mid, TxPass(mid, names, txs[n - 1]), names, txs[i]);
    }
  }

  lemma {:induction false} TxPassesAgain(s: Store, names: Names, txs: seq<TxWrapper>, n: nat)
    requires n <= |txs| && forall i :: 0 <= i < n ==> Stored(s, names, txs[i])
    ensures TxPasses(s, names, txs, n) == s
    decreases n
  {
    hide TxPass, Stored;
    if n > 0 {
      TxPassesAgain(s, names, txs, n - 1);
      TxPassAgain(s, names, txs[n - 1]);
    }
  }

  ghost predicate DistinctHashes(txs: seq<TxWrapper>) {
    forall i, j :: 0 <= i < j < |txs| ==> txs[i].hash != txs[j].hash
  }

  ghost predicate HasTx(t: Table<string, TxInfo>, tx: TxWrapper, block: nat) {
    tx.hash in t.index && t.index[tx.hash] in t.rows && t.rows[t.index[tx.hash]] == Row(tx.hash, TxInfo(tx.code, block))
  }

  lemma {:induction false} UpsertTxsHas(t: Table<string, TxInfo>, txs: seq<TxWrapper>, block: nat, n: nat, i: nat)
    requires i < n <= |txs| && Valid(t) && DistinctHashes(txs)
    ensures HasTx(UpsertTxs(t, txs, block, n), txs[i], block)
    decreases n
  {
    hide UpsertTx;
    var mid := UpsertTxs(t, txs, block, n - 1);
    UpsertTxsKeeps(t, txs, block, n - 1);
    UpsertTxKeeps(mid, txs[n - 1], block);
    if i < n - 1 {
      UpsertTxsHas(t, txs, block, n - 1, i);
    }
  }

  lemma {:induction false} UpsertTxsAgain(t: Table<string, TxInfo>, txs: seq<TxWrapper>, block: nat, n: nat)
    requires n <= |txs| && forall i :: 0 <= i < n ==> HasTx(t, txs[i], block)
    ensures UpsertTxs(t, txs, block, n) == t
    decreases n
  {
    if n > 0 {
      UpsertTxsAgain(t, txs, block, n - 1);
      assert HasTx(t, txs[n - 1], block);
      assert t.rows[t.index[txs[n - 1].hash] := Row(txs[n - 1].hash, TxInfo(txs[n - 1].code, block))] == t.rows;
    }
  }

  /** Indexing the same transactions a second time leaves every table as the first run left it. */
  lemma IndexTwice(s: Store, txs: seq<TxWrapper>, block: nat, keepRaw: bool)
    requires ValidStore(s) && DistinctHashes(txs)
    ensures var once := IndexBlock(s, txs, block, keepRaw);
            IndexBlock(once, txs, block, keepRaw) == once
  {
    hide TxPasses, UpsertTxs, Stored;
    var names := AllNames(txs, keepRaw, |txs|);
    var table := UpsertTxs(s.txs, txs, block, |txs|);
    UpsertTxsKeeps(s.txs, txs, block, |txs|);
    var start := s.(txs := table);
    var once := TxPasses(start, names, txs, |txs|);
    TxPassesKeep(start, names, txs, |txs|);
    forall i | 0 <= i < |txs|
      ensures HasTx(once.txs, txs[i], block) && Stored(once, names, txs[i])
    {
      UpsertTxsHas(s.txs, txs, block, |txs|, i);
      TxPassesStore(start, names, txs, |txs|, i);
    }
    UpsertTxsAgain(once.txs, txs, block, |txs|);
    assert once.(txs := table) == once;
    TxPassesAgain(once, names, txs, |txs|);
  }
}
