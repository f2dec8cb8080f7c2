/** The uptime queries: which of the last `window` blocks a validator signed. */
module Uptime {

  /** Table blocks (id to height) and table block_signatures (block id and validator), both with unique keys. */
  datatype Tables = Tables(heights: map<nat, int>, signatures: set<(nat, string)>)

  /** The unique index on (height, chain), for one chain. */
  ghost predicate UniqueHeights(t: Tables) {
    forall a, b :: a in t.heights && b in t.heights && t.heights[a] == t.heights[b] ==> a == b
  }

  /** The joined rows: signed blocks with a height from `lo` to `hi`, both included. */
  function SignedBlocks(t: Tables, validator: string, lo: int, hi: int): set<nat> {
    set s | s in t.signatures && s.1 == validator && s.0 in t.heights && lo <= t.heights[s.0] <= hi :: s.0
  }

  function SignedHeights(t: Tables, validator: string, lo: int, hi: int): set<int> {
    set b | b in SignedBlocks(t, validator, lo, hi) :: t.heights[b]
  }

  /** The numerator of BlockUptime: the number of joined rows. */
  function RowCount(t: Tables, window: int, height: int, validator: string): nat {
    |SignedBlocks(t, validator, height - window, height)|
  }

  lemma {:induction false} ImageSize(blocks: set<nat>, heights: map<nat, int>)
    requires forall b :: b in blocks ==> b in heights
    requires forall a, b :: a in blocks && b in blocks && heights[a] == heights[b] ==> a == b
    ensures |set b | b in blocks :: heights[b]| == |blocks|
    decreases |blocks|
  {
    var image := set b | b in blocks :: heights[b];
    if blocks != {} {
      var x :| x in blocks;
      var rest := blocks - {x};
      ImageSize(rest, heights);
      var restImage := set b | b in rest :: heights[b];
      assert image == restImage + {heights[x]};
    }
  }

  /** Both uptime functions divide the same number by the window. */
  lemma SameNumerator(t: Tables, window: int, height: int, validator: string)
    requires UniqueHeights(t)
    ensures RowCount(t, window, height, validator) == |SignedHeights(t, validator, height - window, height)|
  {
    ImageSize(SignedBlocks(t, validator, height - window, height), t.heights);
  }

  /** The heights of [lo, hi) that are not in `signed`, ascending. */
  ghost predicate AreMissing(unsigned: seq<int>, signed: set<int>, lo: int, hi: int) {
    && (forall i, j :: 0 <= i < j < |unsigned| ==> unsigned[i] < unsigned[j])
    && (forall h :: h in unsigned <==> lo <= h < hi && h !in signed)
  }

  lemma {:induction false} BelowCount(signed: set<int>, lo: int, hi: int)
    requires lo <= hi
    ensures (set h | h in signed && lo <= h < hi) <= signed
    ensures lo < hi ==> |set h | h in signed && lo <= h < hi|
                        == |set h | h in signed && lo <= h < hi - 1| + (if hi - 1 in signed then 1 else 0)
  {
    var all := set h | h in signed && lo <= h < hi;
    if lo < hi {
      var front := set h | h in signed && lo <= h < hi - 1;
      if hi - 1 in signed {
        assert all == front + {hi - 1};
      } else {
        assert all == front;
      }
    }
  }

  lemma SignedInWindow(t: Tables, validator: string, lo: int, hi: int)
    ensures var signed := SignedHeights(t, validator, lo, hi);
            (set h | h in signed && lo <= h < hi + 1) == signed
  {
  }

  lemma NothingMissing(signed: set<int>, lo: int, hi: int)
    ensures AreMissing([], signed, lo, lo) && (hi <= lo ==> AreMissing([], signed, lo, hi))
  {
  }

  /** What one more height adds to the list. */
  lemma MissingNext(unsigned: seq<int>, signed: set<int>, lo: int, hi: int)
    requires AreMissing(unsigned, signed, lo, hi) && lo <= hi
    ensures AreMissing(if hi in signed then unsigned else unsigned + [hi], signed, lo, hi + 1)
  {
    assert forall i :: 0 <= i < |unsigned| ==> unsigned[i] in unsigned;
  }

  /**
   UptimeByBlocks: the unsigned heights of [height - window, height), ascending, and the number of distinct signed
   heights.  The query reaches one height further than the list, so the two add up to the window, plus one if the
   block at `height` itself is signed.
   */
  method UptimeByBlocks(t: Tables, window: int, height: int, validator: string)
    returns (unsigned: seq<int>, signedCount: nat)
    ensures AreMissing(unsigned, SignedHeights(t, validator, height - window, height), height - window, height)
    ensures signedCount == |SignedHeights(t, validator, height - window, height)|
    ensures window >= 0 ==>
              |unsigned| + signedCount
              == window + (if height in SignedHeights(t, validator, height - window, height) then 1 else 0)
  {
    hide SignedHeights, AreMissing;
    var data := SignedHeights(t, validator, height - window, height);
    var init := height - window;
    unsigned := [];
    NothingMissing(data, init, height);
    var i := init;
    while i < height
      invariant init <= i && (i <= height || i == init) && (height <= i ==> AreMissing(unsigned, data, init, height))
      invariant AreMissing(unsigned, data, init, i)
      invariant |unsigned| + |set h | h in data && init <= h < i| == i - init
    {
      BelowCount(data, init, i + 1);
      MissingNext(unsigned, data, init, i);
      if i !in data {
        unsigned := unsigned + [i];
      }
      i := i + 1;
    }
    signedCount := |data|;
    if window >= 0 {
      BelowCount(data, init, height + 1);
      SignedInWindow(t, validator, init, height);
    }
  }

  /** The validator signed a stored block of that height. */
  ghost predicate Signed(t: Tables, validator: string, h: int) {
    exists b :: (b, validator) in t.signatures && b in t.heights && t.heights[b] == h
  }

  lemma SignedExactly(t: Tables, validator: string, lo: int, hi: int)
    ensures forall h :: h in SignedHeights(t, validator, lo, hi) <==> lo <= h <= hi && Signed(t, validator, h)
  {
    forall h | lo <= h <= hi && Signed(t, validator, h)
      ensures h in SignedHeights(t, validator, lo, hi)
    {
      var b :| (b, validator) in t.signatures && b in t.heights && t.heights[b] == h;
      assert b in SignedBlocks(t, validator, lo, hi);
    }
  }

  /** A set of heights of [lo, hi) has at most hi - lo elements, and that many only if it has them all. */
  lemma {:induction false} FullWindow(signed: set<int>, lo: int, hi: int)
    requires lo <= hi && forall h :: h in signed ==> lo <= h < hi
    ensures |signed| <= hi - lo
    ensures |signed| == hi - lo <==> forall h :: lo <= h < hi ==> h in signed
    decreases hi - lo
  {
    if lo == hi {
      assert signed == {};
    } else {
      var rest := signed - {hi - 1};
      FullWindow(rest, lo, hi - 1);
      if hi - 1 in signed {
        assert |signed| == |rest| + 1;
        assert forall h :: lo <= h < hi - 1 ==> (h in signed <==> h in rest);
      } else {
        assert rest == signed;
      }
    }
  }

  /** The numerator of both uptime functions exceeds the window exactly if every block up to `height` is signed. */
  lemma ExceedsWindow(t: Tables, window: int, height: int, validator: string)
    ensures |SignedHeights(t, validator, height - window, height)| > window
            <==> forall h :: height - window <= h <= height ==> Signed(t, validator, h)
  {
    hide SignedHeights, Signed;
    SignedExactly(t, validator, height - window, height);
    var signed := SignedHeights(t, validator, height - window, height);
    if window < 0 {
      assert signed == {};
    } else {
      FullWindow(signed, height - window, height + 1);
    }
  }

  /** Blocks 7 and 8 both signed: over a window of one block the numerator is two. */
  lemma TwoOfOne(validator: string)
    ensures var t := Tables(map[1 := 7, 2 := 8], {(1, validator), (2, validator)});
            UniqueHeights(t) && RowCount(t, 1, 8, validator) == 2
  {
    var t := Tables(map[1 := 7, 2 := 8], {(1, validator), (2, validator)});
    assert (1, validator) in t.signatures && (2, validator) in t.signatures;
    assert SignedBlocks(t, validator, 7, 8) == {1, 2};
  }
}
