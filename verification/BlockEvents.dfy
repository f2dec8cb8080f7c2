/**
 The block-event filter: single-event filters and rolling-window filters write one decision map; an event is kept if
 the last write for it says so.
 */
module BlockEvents {

  import opened Options

  datatype Attribute = Attribute(key: string, value: string)

  datatype Event = Event(kind: string, attributes: seq<Attribute>)

  datatype Verdict = Yes | No | Error

  /** The filters of the package, and any other implementation of the interface. */
  datatype Filter =
    | TypeIs(kind: string, inclusive: bool)
    | TypeLike(regex: string -> bool, inclusive: bool)
    | TypeAndAttribute(kind: string, key: string, value: string, inclusive: bool)
    | Custom(verdict: Event -> Verdict, inclusive: bool)

  function Matches(f: Filter, e: Event): Verdict {
    match f
    case TypeIs(kind, _) => if e.kind == kind then Yes else No
    case TypeLike(regex, _) => if regex(e.kind) then Yes else No
    case TypeAndAttribute(kind, key, value, _) =>
      if e.kind == kind && Attribute(key, value) in e.attributes then Yes else No
    case Custom(verdict, _) => verdict(e)
  }

  datatype Window = Window(patterns: seq<Filter>, inclusive: bool)

  /** EventsMatch of the rolling window from pattern `i` on: the first pattern that is not a match decides. */
  function WindowMatches(w: Window, events: seq<Event>, i: nat): (v: Verdict)
    requires i <= |w.patterns| <= |events|
    ensures v.Yes? <==> forall k :: i <= k < |w.patterns| ==> Matches(w.patterns[k], events[k]).Yes?
    decreases |w.patterns| - i
  {
    if i == |w.patterns| then Yes
    else if Matches(w.patterns[i], events[i]).Yes? then WindowMatches(w, events, i + 1)
    else Matches(w.patterns[i], events[i])
  }

  /** A window that does not match says what its first pattern without a match says. */
  lemma {:induction false} WindowVerdict(w: Window, events: seq<Event>, i: nat) returns (k: nat)
    requires i <= |w.patterns| <= |events| && !WindowMatches(w, events, i).Yes?
    ensures i <= k < |w.patterns| && Matches(w.patterns[k], events[k]) == WindowMatches(w, events, i)
    ensures forall l :: i <= l < k ==> Matches(w.patterns[l], events[l]).Yes?
    decreases |w.patterns| - i
  {
    k := i;
    if Matches(w.patterns[i], events[i]).Yes? {
      k := WindowVerdict(w, events, i + 1);
    }
  }

  datatype Registry = Registry(singles: seq<Filter>, windows: seq<Window>)

  /** Window `k` fits at position `s`; what it says there. */
  predicate Fits(events: seq<Event>, reg: Registry, s: nat, k: nat) {
    k < |reg.windows| && s + |reg.windows[k].patterns| <= |events|
  }

  function WindowAt(events: seq<Event>, reg: Registry, s: nat, k: nat): Verdict
    requires Fits(events, reg, s, k)
  {
    WindowMatches(reg.windows[k], events[s..s + |reg.windows[k].patterns|], 0)
  }

  /** Some evaluation of a filter returns an error. */
  ghost predicate Fails(events: seq<Event>, reg: Registry, i: nat) {
    || (i < |events| && exists k :: 0 <= k < |reg.singles| && Matches(reg.singles[k], events[i]).Error?)
    || exists k: nat :: Fits(events, reg, i, k) && WindowAt(events, reg, i, k).Error?
  }

  // ---------------------------------------------------------------------------------------------
  // The deciding match
  // ---------------------------------------------------------------------------------------------

  /** A match for an event: single filter `k`, or window `k` placed at `start`. */
  datatype Match = BySingle(k: nat) | ByWindow(start: nat, k: nat)

  predicate IsMatch(events: seq<Event>, reg: Registry, j: nat, m: Match)
    requires j < |events|
  {
    match m
    case BySingle(k) => k < |reg.singles| && Matches(reg.singles[k], events[j]).Yes?
    case ByWindow(s, k) => Covers(events, reg, j, s, k)
  }

  predicate Covers(events: seq<Event>, reg: Registry, j: nat, s: nat, k: nat) {
    Fits(events, reg, s, k) && s <= j < s + |reg.windows[k].patterns| && WindowAt(events, reg, s, k).Yes?
  }

  /**
   Which of two matches for event `j` prevails: windows at `j` over singles, singles over windows that start earlier,
   a later start over an earlier one, and a later registry entry over an earlier one of the same kind and start.
   */
  predicate Beats(j: nat, a: Match, b: Match) {
    match (a, b)
    case (BySingle(k), BySingle(l)) => k > l
    case (BySingle(_), ByWindow(s, _)) => s < j
    case (ByWindow(s, _), BySingle(_)) => s == j
    case (ByWindow(s, k), ByWindow(r, l)) => s > r || (s == r && k > l)
  }

  ghost predicate Decides(events: seq<Event>, reg: Registry, j: nat, m: Match)
    requires j < |events|
  {
    IsMatch(events, reg, j, m) && forall n :: IsMatch(events, reg, j, n) && n != m ==> Beats(j, m, n)
  }

  /** The inclusive flag of the registry entry behind a match. */
  function Flag(reg: Registry, m: Match): bool {
    match m
    case BySingle(k) => k < |reg.singles| && reg.singles[k].inclusive
    case ByWindow(_, k) => k < |reg.windows| && reg.windows[k].inclusive
  }

  /** Event `j` has a deciding match and that match is inclusive. */
  ghost predicate Included(events: seq<Event>, reg: Registry, j: nat)
    requires j < |events|
  {
    exists m :: Decides(events, reg, j, m) && Flag(reg, m)
  }

  /** The included events among the first `n`, in order. */
  ghost function IncludedEvents(events: seq<Event>, reg: Registry, n: nat): seq<Event>
    requires n <= |events|
  {
    if n == 0 then []
    else IncludedEvents(events, reg, n - 1) + (if Included(events, reg, n - 1) then [events[n - 1]] else [])
  }

  // ---------------------------------------------------------------------------------------------
  // The writes of the loops
  // ---------------------------------------------------------------------------------------------

  /** The last of the first `k` single filters that matches. */
  function LastSingle(reg: Registry, e: Event, k: nat): (r: Option<nat>)
    requires k <= |reg.singles|
    ensures r.None? ==> forall l :: 0 <= l < k ==> !Matches(reg.singles[l], e).Yes?
    ensures r.Some? ==> r.value < k && Matches(reg.singles[r.value], e).Yes?
    ensures r.Some? ==> forall l :: r.value < l < k ==> !Matches(reg.singles[l], e).Yes?
  {
    if k == 0 then None
    else if Matches(reg.singles[k - 1], e).Yes? then Some(k - 1)
    else LastSingle(reg, e, k - 1)
  }

  /** The last of the first `k` windows that, placed at `s`, matches and covers event `j`. */
  function LastWindow(events: seq<Event>, reg: Registry, j: nat, s: nat, k: nat): (r: Option<nat>)
    requires k <= |reg.windows|
    ensures r.None? ==> forall l: nat :: l < k ==> !Covers(events, reg, j, s, l)
    ensures r.Some? ==> r.value < k && Covers(events, reg, j, s, r.value)
    ensures r.Some? ==> forall l: nat :: r.value < l < k ==> !Covers(events, reg, j, s, l)
  {
    if k == 0 then None
    else if Covers(events, reg, j, s, k - 1) then Some(k - 1)
    else LastWindow(events, reg, j, s, k - 1)
  }

  /** The last write for event `j`, formerly `prior`, when pass `i` has evaluated its first `k` single filters. */
  function AfterSingles(events: seq<Event>, reg: Registry, j: nat, i: nat, k: nat, prior: Option<Match>): Option<Match>
    requires j < |events| && k <= |reg.singles|
  {
    var s := LastSingle(reg, events[j], k);
    if i == j && s.Some? then Some(BySingle(s.value)) else prior
  }

  /** The last write for event `j`, formerly `prior`, when pass `i` has evaluated its first `k` windows. */
  function AfterWindows(events: seq<Event>, reg: Registry, j: nat, i: nat, k: nat, prior: Option<Match>): Option<Match>
    requires k <= |reg.windows|
  {
    var w := LastWindow(events, reg, j, i, k);
    if w.Some? then Some(ByWindow(i, w.value)) else prior
  }

  /** The last write for event `j` by the first `i` passes of the outer loop. */
  function LastWrite(events: seq<Event>, reg: Registry, j: nat, i: nat): Option<Match>
    requires j < |events|
    decreases i, 0
  {
    if i == 0 then None
    else AfterWindows(events, reg, j, i - 1, |reg.windows|, LastOfSingles(events, reg, j, i - 1))
  }

  /** The last write for event `j` before the windows of pass `i`. */
  function LastOfSingles(events: seq<Event>, reg: Registry, j: nat, i: nat): Option<Match>
    requires j < |events|
    decreases i, 1
  {
    AfterSingles(events, reg, j, i, |reg.singles|, LastWrite(events, reg, j, i))
  }

  predicate Earlier(j: nat, m: Match, i: nat) { match m case BySingle(_) => j < i case ByWindow(s, _) => s < i }

  lemma {:induction false} LastWriteDecides(events: seq<Event>, reg: Registry, j: nat, i: nat)
    requires j < |events| && i <= |events|
    ensures var r := LastWrite(events, reg, j, i);
            && (r.None? ==> forall m :: IsMatch(events, reg, j, m) ==> !Earlier(j, m, i))
            && (r.Some? ==> IsMatch(events, reg, j, r.value) && Earlier(j, r.value, i)
                            && forall m :: IsMatch(events, reg, j, m) && Earlier(j, m, i) && m != r.value ==>
                              Beats(j, r.value, m))
  {
    hide Matches, WindowAt;
    if i > 0 {
      LastWriteDecides(events, reg, j, i - 1);
    }
  }

  /** The last write of all passes is the deciding match. */
  lemma LastWriteIsDeciding(events: seq<Event>, reg: Registry, j: nat)
    requires j < |events|
    ensures var r := LastWrite(events, reg, j, |events|);
            && (r.None? <==> forall m :: !IsMatch(events, reg, j, m))
            && (r.Some? ==> Decides(events, reg, j, r.value))
            && (Included(events, reg, j) <==> r.Some? && Flag(reg, r.value))
  {
    var r := LastWrite(events, reg, j, |events|);
    LastWriteDecides(events, reg, j, |events|);
    forall m | IsMatch(events, reg, j, m)
      ensures Earlier(j, m, |events|)
    {
    }
    forall m | Decides(events, reg, j, m) && r.Some?
      ensures m == r.value
    {
      assert m != r.value ==> Beats(j, m, r.value) && Beats(j, r.value, m);
    }
  }

  // ---------------------------------------------------------------------------------------------
  // FilterRPCBlockEvents
  // ---------------------------------------------------------------------------------------------

  /** The decision map has an entry for event `j` exactly if there was a write, and its value. */
  ghost predicate Holds(filterIndexes: map<int, bool>, reg: Registry, j: int, m: Option<Match>) {
    (j in filterIndexes <==> m.Some?) && (m.Some? ==> filterIndexes[j] == Flag(reg, m.value))
  }

  method EvaluateSingles(events: seq<Event>, reg: Registry, i: nat, before: map<int, bool>)
    returns (filterIndexes: map<int, bool>, failed: bool)
    requires i < |events|
    requires forall j :: 0 <= j < |events| ==> Holds(before, reg, j, LastWrite(events, reg, j, i))
    ensures failed <==> exists k :: 0 <= k < |reg.singles| && Matches(reg.singles[k], events[i]).Error?
    ensures !failed ==> forall j :: 0 <= j < |events| ==>
                          Holds(filterIndexes, reg, j, LastOfSingles(events, reg, j, i))
  {
    filterIndexes, failed := before, false;
    for k := 0 to |reg.singles|
      invariant forall l :: 0 <= l < k ==> !Matches(reg.singles[l], events[i]).Error?
      invariant forall j :: 0 <= j < |events| ==>
                  Holds(filterIndexes, reg, j, AfterSingles(events, reg, j, i, k, LastWrite(events, reg, j, i)))
    {
      var verdict := Matches(reg.singles[k], events[i]);
      if verdict.Error? { return filterIndexes, true; }
      if verdict.Yes? {
        filterIndexes := filterIndexes[i := reg.singles[k].inclusive];
      }
    }
  }

  method EvaluateWindows(events: seq<Event>, reg: Registry, i: nat, before: map<int, bool>)
    returns (filterIndexes: map<int, bool>, failed: bool)
    requires i < |events|
    requires forall j :: 0 <= j < |events| ==> Holds(before, reg, j, LastOfSingles(events, reg, j, i))
    ensures failed <==> exists k: nat :: Fits(events, reg, i, k) && WindowAt(events, reg, i, k).Error?
    ensures !failed ==> var next := i + 1;
                        forall j :: 0 <= j < |events| ==> Holds(filterIndexes, reg, j, LastWrite(events, reg, j, next))
  {
    filterIndexes, failed := before, false;
    for k := 0 to |reg.windows|
      invariant forall l: nat :: l < k && Fits(events, reg, i, l) ==> !WindowAt(events, reg, i, l).Error?
      invariant forall j :: 0 <= j < |events| ==>
                  Holds(filterIndexes, reg, j, AfterWindows(events, reg, j, i, k, LastOfSingles(events, reg, j, i)))
    {
      var window := reg.windows[k];
      if i + |window.patterns| <= |events| {
        var lastIndex := i + |window.patterns|;
        var verdict := WindowMatches(window, events[i..lastIndex], 0);
        assert Fits(events, reg, i, k) && verdict == WindowAt(events, reg, i, k);
        if verdict.Error? { return filterIndexes, true; }
        if verdict.Yes? {
          var prior := filterIndexes;
          for x := i to lastIndex
            invariant forall j :: j in filterIndexes <==> j in prior || i <= j < x
            invariant forall j :: j in filterIndexes ==>
                        filterIndexes[j] == if i <= j < x then window.inclusive else prior[j]
          {
            filterIndexes := filterIndexes[x := window.inclusive];
          }
        }
      }
    }
  }

  /**
   FilterRPCBlockEvents.  Without filters every event passes.  Otherwise it fails exactly if an evaluated filter
   fails, and else returns the events whose deciding match is inclusive, in order.
   */
  method FilterRPCBlockEvents(events: seq<Event>, reg: Registry) returns (kept: seq<Event>, failed: bool)
    ensures reg.singles == [] && reg.windows == [] ==> !failed && kept == events
    ensures (reg.singles != [] || reg.windows != []) ==>
              (failed <==> exists i :: 0 <= i < |events| && Fails(events, reg, i))
    ensures (reg.singles != [] || reg.windows != []) && !failed ==> kept == IncludedEvents(events, reg, |events|)
    ensures forall kind, inclusive :: reg == Registry([TypeIs(kind, inclusive)], []) ==>
              !failed && forall e :: e in kept <==> inclusive && e in events && e.kind == kind
    ensures forall kind, key, value, inclusive ::
              reg == Registry([TypeAndAttribute(kind, key, value, inclusive)], []) ==>
              && !failed
              && forall e :: e in kept <==>
                   inclusive && e in events && e.kind == kind && Attribute(key, value) in e.attributes
  {
    SingleTypeKeeps(events, reg);
    SingleAttributeKeeps(events, reg);
    if |reg.singles| == 0 && |reg.windows| == 0 { return events, false; }
    var filterIndexes := map[];
    for i := 0 to |events|
      invariant forall l :: 0 <= l < i ==> !Fails(events, reg, l)
      invariant forall j :: 0 <= j < |events| ==> Holds(filterIndexes, reg, j, LastWrite(events, reg, j, i))
    {
      filterIndexes, failed := EvaluateSingles(events, reg, i, filterIndexes);
      if failed {
        assert Fails(events, reg, i);
        return [], true;
      }
      filterIndexes, failed := EvaluateWindows(events, reg, i, filterIndexes);
      if failed {
        assert Fails(events, reg, i);
        return [], true;
      }
    }
    kept, failed := [], false;
    for j := 0 to |events|
      invariant kept == IncludedEvents(events, reg, j)
    {
      LastWriteIsDeciding(events, reg, j);
      if j in filterIndexes && filterIndexes[j] {
        kept := kept + [events[j]];
      }
    }
  }

  // ---------------------------------------------------------------------------------------------
  // What the filters match
  // ---------------------------------------------------------------------------------------------

  /** The filters of the package never fail, and match by type, by a regex on the type, or by type and attribute. */
  lemma MatchesExactly(f: Filter, e: Event)
    ensures !f.Custom? ==> !Matches(f, e).Error?
    ensures f.TypeIs? ==> (Matches(f, e).Yes? <==> e.kind == f.kind)
    ensures f.TypeLike? ==> (Matches(f, e).Yes? <==> f.regex(e.kind))
    ensures f.TypeAndAttribute? ==>
              (Matches(f, e).Yes?
               <==> e.kind == f.kind && exists a :: a in e.attributes && a.key == f.key && a.value == f.value)
    ensures f.Custom? ==> Matches(f, e) == f.verdict(e)
  {
    if f.TypeAndAttribute? && Attribute(f.key, f.value) in e.attributes {
      var i :| 0 <= i < |e.attributes| && e.attributes[i] == Attribute(f.key, f.value);
    }
  }

  /** A window placed at `s` matches if and only if each of its patterns matches the event it lies on. */
  lemma WindowAtExactly(events: seq<Event>, reg: Registry, s: nat, k: nat)
    requires Fits(events, reg, s, k)
    ensures var patterns := reg.windows[k].patterns;
            WindowAt(events, reg, s, k).Yes?
            <==> forall x :: 0 <= x < |patterns| ==> Matches(patterns[x], events[s + x]).Yes?
  {
    hide Matches;
    var patterns := reg.windows[k].patterns;
    var slice := events[s..s + |patterns|];
    assert forall x :: 0 <= x < |patterns| ==> slice[x] == events[s + x];
  }

  /** With one single filter and no window, an event is included exactly if the filter is inclusive and matches it. */
  lemma OneFilter(events: seq<Event>, f: Filter, j: nat)
    requires j < |events|
    ensures Included(events, Registry([f], []), j) <==> f.inclusive && Matches(f, events[j]).Yes?
  {
    hide Matches;
    var reg := Registry([f], []);
    forall m | IsMatch(events, reg, j, m)
      ensures m == BySingle(0)
    {
    }
    if Matches(f, events[j]).Yes? {
      assert IsMatch(events, reg, j, BySingle(0));
      assert Decides(events, reg, j, BySingle(0));
    }
  }

  lemma {:induction false} IncludedMembers(events: seq<Event>, f: Filter, n: nat)
    requires n <= |events|
    ensures forall e :: e in IncludedEvents(events, Registry([f], []), n)
                        <==> e in events[..n] && f.inclusive && Matches(f, e).Yes?
    decreases n
  {
    hide Matches, Included;
    if n > 0 {
      IncludedMembers(events, f, n - 1);
      OneFilter(events, f, n - 1);
      assert events[..n] == events[..n - 1] + [events[n - 1]];
    }
  }

  lemma NoPackageFailure(events: seq<Event>, f: Filter)
    requires !f.Custom?
    ensures forall i :: 0 <= i < |events| ==> !Fails(events, Registry([f], []), i)
  {
  }

  lemma SingleTypeKeeps(events: seq<Event>, reg: Registry)
    ensures forall kind, inclusive :: reg == Registry([TypeIs(kind, inclusive)], []) ==>
              && (forall i :: 0 <= i < |events| ==> !Fails(events, reg, i))
              && forall e :: e in IncludedEvents(events, reg, |events|) <==> inclusive && e in events && e.kind == kind
  {
    hide Matches, Fails, IncludedEvents;
    forall kind, inclusive | reg == Registry([TypeIs(kind, inclusive)], [])
      ensures forall i :: 0 <= i < |events| ==> !Fails(events, reg, i)
      ensures forall e :: e in IncludedEvents(events, reg, |events|) <==> inclusive && e in events && e.kind == kind
    {
      var f := TypeIs(kind, inclusive);
      NoPackageFailure(events, f);
      IncludedMembers(events, f, |events|);
      assert events[..|events|] == events;
      forall e { MatchesExactly(f, e); }
    }
  }

  lemma SingleAttributeKeeps(events: seq<Event>, reg: Registry)
    ensures forall kind, key, value, inclusive ::
              reg == Registry([TypeAndAttribute(kind, key, value, inclusive)], []) ==>
              && (forall i :: 0 <= i < |events| ==> !Fails(events, reg, i))
              && forall e :: e in IncludedEvents(events, reg, |events|)
                             <==> inclusive && e in events && e.kind == kind && Attribute(key, value) in e.attributes
  {
    hide Matches, Fails, IncludedEvents;
    forall kind, key, value, inclusive | reg == Registry([TypeAndAttribute(kind, key, value, inclusive)], [])
      ensures forall i :: 0 <= i < |events| ==> !Fails(events, reg, i)
      ensures forall e :: e in IncludedEvents(events, reg, |events|)
                          <==> inclusive && e in events && e.kind == kind && Attribute(key, value) in e.attributes
    {
      var f := TypeAndAttribute(kind, key, value, inclusive);
      NoPackageFailure(events, f);
      IncludedMembers(events, f, |events|);
      assert events[..|events|] == events;
      forall e
        ensures Matches(f, e).Yes? <==> e.kind == kind && Attribute(key, value) in e.attributes
      {
        AttributeMatches(f, e);
      }
    }
  }

  lemma AttributeMatches(f: Filter, e: Event)
    requires f.TypeAndAttribute?
    ensures Matches(f, e).Yes? <==> e.kind == f.kind && Attribute(f.key, f.value) in e.attributes
  {
    hide Matches;
    MatchesExactly(f, e);
    if exists a :: a in e.attributes && a.key == f.key && a.value == f.value {
      var a :| a in e.attributes && a.key == f.key && a.value == f.value;
      assert a == Attribute(f.key, f.value);
    }
  }

  /** Window `k` is the last one that, placed at the event, matches it. */
  ghost predicate LastHere(events: seq<Event>, reg: Registry, j: nat, k: nat) {
    Covers(events, reg, j, j, k) && forall l: nat :: Covers(events, reg, j, j, l) ==> l <= k
  }

  predicate SingleMatches(events: seq<Event>, reg: Registry, j: nat, k: nat)
    requires j < |events|
  {
    k < |reg.singles| && Matches(reg.singles[k], events[j]).Yes?
  }

  /** Single filter `k` is the last one that matches the event. */
  ghost predicate LastAmongSingles(events: seq<Event>, reg: Registry, j: nat, k: nat)
    requires j < |events|
  {
    SingleMatches(events, reg, j, k) && forall l: nat :: SingleMatches(events, reg, j, l) ==> l <= k
  }

  /** Of all windows that match and reach the event, `k` is the last one at the latest start `s`. */
  ghost predicate Latest(events: seq<Event>, reg: Registry, j: nat, s: nat, k: nat) {
    && Covers(events, reg, j, s, k)
    && forall r: nat, l: nat :: Covers(events, reg, j, r, l) ==> r < s || (r == s && l <= k)
  }

  /**
   The order of decision, spelled out: the last window that matches at the event; else the last single filter that
   matches; else, among the windows that reach the event from before, the last one at the latest start.
   */
  lemma IncludedExactly(events: seq<Event>, reg: Registry, j: nat)
    requires j < |events|
    ensures Included(events, reg, j) <==>
              if exists k: nat :: Covers(events, reg, j, j, k) then
                exists k: nat :: LastHere(events, reg, j, k) && reg.windows[k].inclusive
              else if exists k: nat :: SingleMatches(events, reg, j, k) then
                exists k: nat :: LastAmongSingles(events, reg, j, k) && reg.singles[k].inclusive
              else
                exists s: nat, k: nat :: Latest(events, reg, j, s, k) && reg.windows[k].inclusive
  {
    hide Matches, LastWrite, WindowAt;
    LastWriteIsDeciding(events, reg, j);
    var r := LastWrite(events, reg, j, |events|);
    forall k: nat | SingleMatches(events, reg, j, k)
      ensures IsMatch(events, reg, j, BySingle(k))
    {
    }
    forall s: nat, k: nat | Covers(events, reg, j, s, k)
      ensures IsMatch(events, reg, j, ByWindow(s, k))
    {
    }
    if r.Some? {
      var m := r.value;
      DecidesFirst(events, reg, j, m);
      if m.BySingle? {
        assert SingleMatches(events, reg, j, m.k);
        assert forall k: nat :: LastAmongSingles(events, reg, j, k) ==> k == m.k;
      } else if m.start == j {
        assert Covers(events, reg, j, j, m.k);
        assert forall k: nat :: LastHere(events, reg, j, k) ==> k == m.k;
      } else {
        assert Latest(events, reg, j, m.start, m.k);
        assert Included(events, reg, j) <==> reg.windows[m.k].inclusive;
        assert forall s: nat, k: nat :: Latest(events, reg, j, s, k) ==> s == m.start && k == m.k;
        assert (exists s: nat, k: nat :: Latest(events, reg, j, s, k) && reg.windows[k].inclusive)
          <==> reg.windows[m.k].inclusive;
        assert !exists k: nat :: Covers(events, reg, j, j, k);
        assert !exists k: nat :: SingleMatches(events, reg, j, k);
      }
    }
  }

  /** What it means for a match to decide, for each kind of match. */
  lemma DecidesFirst(events: seq<Event>, reg: Registry, j: nat, m: Match)
    requires j < |events| && Decides(events, reg, j, m)
    ensures m.ByWindow? && m.start == j ==> LastHere(events, reg, j, m.k)
    ensures !(m.ByWindow? && m.start == j) ==> forall k: nat :: !Covers(events, reg, j, j, k)
    ensures m.BySingle? ==> LastAmongSingles(events, reg, j, m.k)
    ensures m.ByWindow? && m.start != j ==>
              Latest(events, reg, j, m.start, m.k) && forall k: nat :: !SingleMatches(events, reg, j, k)
  {
    hide Matches, Fits, WindowAt;
    forall s: nat, l: nat | Covers(events, reg, j, s, l)
      ensures s <= j && (m == ByWindow(s, l) || Beats(j, m, ByWindow(s, l)))
    {
      assert IsMatch(events, reg, j, ByWindow(s, l));
    }
    forall l: nat | SingleMatches(events, reg, j, l)
      ensures m == BySingle(l) || Beats(j, m, BySingle(l))
    {
      assert IsMatch(events, reg, j, BySingle(l));
    }
  }

  // ---------------------------------------------------------------------------------------------
  // The rule of the comment: the first matching filter is used, single filters are preferred
  // ---------------------------------------------------------------------------------------------

  /** The order the comment describes: singles before windows, otherwise in the order of evaluation. */
  predicate Precedes(a: Match, b: Match) {
    match (a, b)
    case (BySingle(k), BySingle(l)) => k < l
    case (BySingle(_), ByWindow(_, _)) => true
    case (ByWindow(_, _), BySingle(_)) => false
    case (ByWindow(s, k), ByWindow(r, l)) => s < r || (s == r && k < l)
  }

  ghost predicate IsFirst(events: seq<Event>, reg: Registry, j: nat, m: Match)
    requires j < |events|
  {
    IsMatch(events, reg, j, m) && forall n :: IsMatch(events, reg, j, n) && n != m ==> Precedes(m, n)
  }

  /**
   If a single filter matches, it is the only one and no window placed at the event matches; else only one placed window
   covers the event.
   */
  ghost predicate Unambiguous(events: seq<Event>, reg: Registry, j: nat)
    requires j < |events|
  {
    if exists k :: IsMatch(events, reg, j, BySingle(k)) then
      && (forall k, l :: IsMatch(events, reg, j, BySingle(k)) && IsMatch(events, reg, j, BySingle(l)) ==> k == l)
      && (forall k :: !IsMatch(events, reg, j, ByWindow(j, k)))
    else
      forall s, k, r, l ::
        IsMatch(events, reg, j, ByWindow(s, k)) && IsMatch(events, reg, j, ByWindow(r, l)) ==> s == r && k == l
  }

  /** For an event with a match, the first match of the comment decides if and only if the event is unambiguous. */
  lemma CommentHoldsExactly(events: seq<Event>, reg: Registry, j: nat)
    requires j < |events| && exists m :: IsMatch(events, reg, j, m)
    ensures (exists m :: Decides(events, reg, j, m) && IsFirst(events, reg, j, m)) <==> Unambiguous(events, reg, j)
  {
    hide IsMatch, LastWrite;
    LastWriteIsDeciding(events, reg, j);
    var m := LastWrite(events, reg, j, |events|).value;
    FirstExactly(events, reg, j, m);
    forall n | Decides(events, reg, j, n)
      ensures n == m
    {
      assert n != m ==> Beats(j, n, m) && Beats(j, m, n);
    }
  }

  lemma FirstExactly(events: seq<Event>, reg: Registry, j: nat, m: Match)
    requires j < |events| && Decides(events, reg, j, m)
    ensures IsFirst(events, reg, j, m) <==> Unambiguous(events, reg, j)
  {
    hide IsMatch;
    assert IsMatch(events, reg, j, m);
    if Unambiguous(events, reg, j) {
      forall n | IsMatch(events, reg, j, n) && n != m
        ensures Precedes(m, n)
      {
        assert Beats(j, m, n);
      }
    }
    if IsFirst(events, reg, j, m) {
      forall n | IsMatch(events, reg, j, n) && n != m
        ensures m.BySingle? && n.ByWindow? && n.start < j
      {
        assert Beats(j, m, n) && Precedes(m, n);
      }
    }
  }

  /** Two single filters for the same type, the first inclusive: the comment keeps the event, the code drops it. */
  lemma LastMatchWins(kind: string)
    ensures var events := [Event(kind, [])];
            var reg := Registry([TypeIs(kind, true), TypeIs(kind, false)], []);
            IsFirst(events, reg, 0, BySingle(0)) && Decides(events, reg, 0, BySingle(1)) && !Included(events, reg, 0)
  {
    var events := [Event(kind, [])];
    var reg := Registry([TypeIs(kind, true), TypeIs(kind, false)], []);
    forall m | IsMatch(events, reg, 0, m)
      ensures m == BySingle(0) || m == BySingle(1)
    {
    }
    assert IsMatch(events, reg, 0, BySingle(0)) && IsMatch(events, reg, 0, BySingle(1));
  }
}
