/** GetTxsByBlockHeight: a first page, then as many further pages as the reported total asks for. */
module Paging {
  import opened Options

  datatype Page<T, R> = Page(txs: seq<T>, responses: seq<R>, total: nat)

  const Limit: nat := 100

  /** max(1, ceil(total / 100)). */
  function PageCount(total: nat): nat { if total <= Limit then 1 else (total + Limit - 1) / Limit }

  /** The pages from 1 to `n` that were received, one after the other. */
  function Received<T, R>(fetch: nat -> Option<Page<T, R>>, n: nat): (r: (seq<T>, seq<R>)) {
    if n == 0 then ([], [])
    else
      var front := Received(fetch, n - 1);
      if fetch(n).None? then front else (front.0 + fetch(n).value.txs, front.1 + fetch(n).value.responses)
  }

  /**
   Each page from 1 to PageCount is requested exactly once, in order.  A failing first page is an error; a failing later
   page is left out.
   */
  method GetTxsByBlockHeight<T, R>(fetch: nat -> Option<Page<T, R>>)
    returns (r: Option<(seq<T>, seq<R>)>, requested: seq<nat>)
    ensures r.None? <==> fetch(1).None?
    ensures r.None? ==> requested == [1]
    ensures r.Some? ==> requested == seq(PageCount(fetch(1).value.total), (i: nat) => i + 1)
    ensures r.Some? ==> r.value == Received(fetch, PageCount(fetch(1).value.total))
  {
    var pageNum: nat := 1;
    requested := [1];
    if fetch(1).None? { return None, requested; }
    var total := fetch(1).value.total;
    var txs, responses := [] + fetch(1).value.txs, [] + fetch(1).value.responses;
    assert Received(fetch, 1) == (txs, responses);
    if total > Limit {
      var totalPages := (total - Limit + Limit - 1) / Limit;
      while totalPages >= pageNum
        invariant 1 <= pageNum <= totalPages + 1
        invariant requested == seq(pageNum, (i: nat) => i + 1)
        invariant (txs, responses) == Received(fetch, pageNum)
      {
        pageNum := pageNum + 1;
        requested := requested + [pageNum];
        if fetch(pageNum).None? { continue; }
        txs := txs + fetch(pageNum).value.txs;
        responses := responses + fetch(pageNum).value.responses;
      }
    }
    r := Some((txs, responses));
  }

  /** If the two lists of every received page belong together by `related`, so do the two result lists. */
  lemma {:induction false} StaysAligned<T(!new), R(!new)>(fetch: nat -> Option<Page<T, R>>, n: nat,
                                                          related: (T, R) -> bool)
    requires forall k: nat :: 1 <= k <= n && fetch(k).Some? ==>
               Aligned(fetch(k).value.txs, fetch(k).value.responses, related)
    ensures Aligned(Received(fetch, n).0, Received(fetch, n).1, related)
    decreases n
  {
    if n > 0 {
      StaysAligned(fetch, n - 1, related);
      assert fetch(n).Some? ==> Aligned(fetch(n).value.txs, fetch(n).value.responses, related);
    }
  }

  ghost predicate Aligned<T, R>(txs: seq<T>, responses: seq<R>, related: (T, R) -> bool) {
    |txs| == |responses| && forall i :: 0 <= i < |txs| ==> related(txs[i], responses[i])
  }

  /** The requested pages of 100 cover the total, and one page less would not, unless there is only the first. */
  lemma PagesCover(total: nat)
    ensures PageCount(total) >= 1 && total <= 100 * PageCount(total)
    ensures PageCount(total) > 1 ==> 100 * (PageCount(total) - 1) < total
  {
  }

  /** What page `k` should hold: the 100 entries from position 100 * (k - 1) on, or what is left of them. */
  function Slice<T>(all: seq<T>, k: nat): seq<T>
    requires k >= 1
  {
    if 100 * (k - 1) >= |all| then []
    else if 100 * k >= |all| then all[100 * (k - 1)..]
    else all[100 * (k - 1)..100 * k]
  }

  /** The entries of the first `n` pages. */
  function Front<T>(all: seq<T>, n: nat): seq<T> { if 100 * n >= |all| then all else all[..100 * n] }

  lemma FrontNext<T>(all: seq<T>, n: nat)
    ensures Front(all, n + 1) == Front(all, n) + Slice(all, n + 1)
  {
  }

  lemma {:induction false} FullPages<T, R>(fetch: nat -> Option<Page<T, R>>, txs: seq<T>, responses: seq<R>, n: nat)
    requires forall k: nat :: 1 <= k <= n ==>
               fetch(k).Some? && fetch(k).value.txs == Slice(txs, k) && fetch(k).value.responses == Slice(responses, k)
    ensures Received(fetch, n) == (Front(txs, n), Front(responses, n))
    decreases n
  {
    if n == 0 {
      assert Front(txs, 0) == [] && Front(responses, 0) == [];
    } else {
      FullPages(fetch, txs, responses, n - 1);
      FrontNext(txs, n - 1);
      FrontNext(responses, n - 1);
    }
  }

  /** If no page fails, every page is full but the last, and the total is right, all transactions come back in order. */
  lemma AllReceived<T, R>(fetch: nat -> Option<Page<T, R>>, txs: seq<T>, responses: seq<R>)
    requires |txs| == |responses| && fetch(1).Some? && fetch(1).value.total == |txs|
    requires forall k: nat :: 1 <= k <= PageCount(|txs|) ==>
               fetch(k).Some? && fetch(k).value.txs == Slice(txs, k) && fetch(k).value.responses == Slice(responses, k)
    ensures Received(fetch, PageCount(|txs|)) == (txs, responses)
  {
    PagesCover(|txs|);
    FullPages(fetch, txs, responses, PageCount(|txs|));
  }
}
