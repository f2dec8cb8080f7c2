/** When the assembled rows carry the right position, bytes and events, and when they do not. */
module TxAssemblyTheorems {
  import opened Options
  import opened TxAssembly

  /** messagesRaw[messageIndex] is in bounds in both parsers, whatever the body. */
  lemma RawInBounds(path: Path, filters: seq<TypeFilter>, body: seq<BodyMsg>)
    ensures |Messages(path, filters, body, |body|)| <= |Raws(path, filters, body, |body|)|
  {
  }

  // ---------------------------------------------------------------------------------------------
  // Positions
  // ---------------------------------------------------------------------------------------------

  lemma {:induction false} SlotsPrefix(path: Path, filters: seq<TypeFilter>, body: seq<BodyMsg>, m: nat, n: nat)
    requires m <= n <= |body|
    ensures Slots(path, filters, body, m) <= Slots(path, filters, body, n)
    decreases n
  {
    if m < n {
      SlotsPrefix(path, filters, body, m, n - 1);
    }
  }

  /** Message `j`, if it is not skipped over, is entry |Slots(j)| of the list. */
  lemma SlotOf(path: Path, filters: seq<TypeFilter>, body: seq<BodyMsg>, j: nat)
    requires j < |body| && !Undecodable(path, filters, body[j])
    ensures var p := |Slots(path, filters, body, j)|;
            var all := Slots(path, filters, body, |body|);
            p < |all| && all[p] == j
  {
    SlotsPrefix(path, filters, body, j + 1, |body|);
  }

  lemma {:induction false} SlotInverse(path: Path, filters: seq<TypeFilter>, body: seq<BodyMsg>, n: nat, p: nat)
    requires n <= |body| && p < |Slots(path, filters, body, n)|
    ensures |Slots(path, filters, body, Slots(path, filters, body, n)[p])| == p
    decreases n
  {
    if p < |Slots(path, filters, body, n - 1)| {
      SlotInverse(path, filters, body, n - 1, p);
    }
  }

  /** A message keeps its position exactly if no message before it was undecodable. */
  lemma {:induction false} PositionKept(path: Path, filters: seq<TypeFilter>, body: seq<BodyMsg>, j: nat)
    requires j <= |body|
    ensures |Slots(path, filters, body, j)| == j
            <==> forall i :: 0 <= i < j ==> !Undecodable(path, filters, body[i])
    decreases j
  {
    if j > 0 {
      PositionKept(path, filters, body, j - 1);
    }
  }

  /** Every stored message has its position in the body as its index. */
  ghost predicate Aligned(path: Path, filters: seq<TypeFilter>, body: seq<BodyMsg>) {
    var slots := Slots(path, filters, body, |body|);
    forall p :: 0 <= p < |slots| && IsStored(path, filters, body[slots[p]]) ==> slots[p] == p
  }

  /** No selected message that cannot be decoded comes before a stored one. */
  ghost predicate Unshifted(path: Path, filters: seq<TypeFilter>, body: seq<BodyMsg>) {
    forall i, j :: 0 <= i < j < |body| && Undecodable(path, filters, body[i]) ==> !IsStored(path, filters, body[j])
  }

  /**
   The index under which a message is stored is its position in the body, for all stored messages, if and only if no
   selected message that cannot be decoded comes before a stored one.
   */
  lemma AlignedExactly(path: Path, filters: seq<TypeFilter>, body: seq<BodyMsg>)
    ensures Aligned(path, filters, body) <==> Unshifted(path, filters, body)
  {
    var slots := Slots(path, filters, body, |body|);
    forall p | 0 <= p < |slots|
      ensures slots[p] == p <==> forall i :: 0 <= i < slots[p] ==> !Undecodable(path, filters, body[i])
    {
      SlotInverse(path, filters, body, |body|, p);
      PositionKept(path, filters, body, slots[p]);
    }
    if Aligned(path, filters, body) {
      forall i, j | 0 <= i < j < |body| && Undecodable(path, filters, body[i])
        ensures !IsStored(path, filters, body[j])
      {
        if IsStored(path, filters, body[j]) {
          SlotOf(path, filters, body, j);
          PositionKept(path, filters, body, j);
        }
      }
    }
  }

  // ---------------------------------------------------------------------------------------------
  // Rows
  // ---------------------------------------------------------------------------------------------

  /** The row a stored message should get: its position, type, own bytes and the events recorded for its position. */
  function FaithfulRow(path: Path, m: BodyMsg, recorded: Events, i: nat): MessageRow
    requires Decoded(path, m).Some?
  {
    MessageRow(i, Decoded(path, m).value.typeUrl, m.value,
               if recorded(i).Some? then EventRows(recorded(i).value) else [])
  }

  function FaithfulRows(path: Path, filters: seq<TypeFilter>, body: seq<BodyMsg>, recorded: Events,
                        n: nat): seq<MessageRow>
    requires n <= |body|
  {
    if n == 0 then []
    else
      var front := FaithfulRows(path, filters, body, recorded, n - 1);
      if IsStored(path, filters, body[n - 1]) then front + [FaithfulRow(path, body[n - 1], recorded, n - 1)] else front
  }

  lemma {:induction false} LogForIndexAppend(logs: seq<LogMessage>, x: LogMessage, index: nat)
    ensures LogForIndex(logs + [x], index)
            == if LogForIndex(logs, index).Some? then LogForIndex(logs, index)
               else if x.index == index then Some(x) else None
  {
    if logs == [] {
      assert logs + [x] == [x];
    } else {
      assert (logs + [x])[1..] == logs[1..] + [x];
      LogForIndexAppend(logs[1..], x, index);
    }
  }

  /** The log found for position `i` is the one recorded for body message `i`. */
  lemma {:induction false} LogFound(path: Path, filters: seq<TypeFilter>, body: seq<BodyMsg>, recorded: Events,
                                    n: nat, i: nat)
    requires n <= |body|
    ensures LogForIndex(Logs(path, filters, body, recorded, n), i)
            == if i >= n then None
               else if !Selected(filters, body[i]) then Some(LogMessage(i, []))
               else if IsStored(path, filters, body[i]) && recorded(i).Some? then Some(LogMessage(i, recorded(i).value))
               else None
    decreases n
  {
    hide LogForIndex, Selected, Decoded;
    if n > 0 {
      LogFound(path, filters, body, recorded, n - 1, i);
      var front := Logs(path, filters, body, recorded, n - 1);
      LogForIndexAppend(front, LogMessage(n - 1, []), i);
      if recorded(n - 1).Some? {
        LogForIndexAppend(front, LogMessage(n - 1, recorded(n - 1).value), i);
      }
    }
  }

  lemma FaithfulNext(path: Path, filters: seq<TypeFilter>, body: seq<BodyMsg>, recorded: Events, j: nat)
    requires j < |body|
    ensures FaithfulRows(path, filters, body, recorded, j + 1)
            == FaithfulRows(path, filters, body, recorded, j)
               + if IsStored(path, filters, body[j]) then [FaithfulRow(path, body[j], recorded, j)] else []
  {
  }

  lemma NoRows(path: Path, filters: seq<TypeFilter>, body: seq<BodyMsg>, recorded: Events)
    ensures var p := |Slots(path, filters, body, 0)|;
            && p == 0 && Rows(Assemble(path, filters, body, recorded, |body|), p) == []
            && FaithfulRows(path, filters, body, recorded, 0) == []
  {
  }

  lemma RowsNext(a: Assembled, p: nat)
    requires p < |a.messages| <= |a.raw|
    ensures Rows(a, p + 1)
            == Rows(a, p) + if a.messages[p].Some? then [RowFor(p, a.messages[p].value, a.logs, a.raw[p])] else []
  {
  }

  /** Message `j` has no entry if it is undecodable, an empty one if it is not selected, else one with a message. */
  lemma EntryOf(path: Path, filters: seq<TypeFilter>, body: seq<BodyMsg>, j: nat)
    requires j < |body|
    ensures var p := |Slots(path, filters, body, j)|;
            var all := Messages(path, filters, body, |body|);
            && |Slots(path, filters, body, j + 1)| == (if Undecodable(path, filters, body[j]) then p else p + 1)
            && |Slots(path, filters, body, j + 1)| <= |all|
            && (!Undecodable(path, filters, body[j]) ==>
                  p < |all| && (all[p].Some? <==> IsStored(path, filters, body[j])))
  {
    SlotsPrefix(path, filters, body, j + 1, |body|);
    if !Undecodable(path, filters, body[j]) {
      SlotOf(path, filters, body, j);
    }
  }

  /** Only a stored message adds a row, under the number of entries before it. */
  lemma RowNext(path: Path, filters: seq<TypeFilter>, body: seq<BodyMsg>, recorded: Events, j: nat)
    requires j < |body|
    ensures var a := Assemble(path, filters, body, recorded, |body|);
            var p, q := |Slots(path, filters, body, j)|, |Slots(path, filters, body, j + 1)|;
            && p <= q <= |a.messages|
            && (!IsStored(path, filters, body[j]) ==> Rows(a, q) == Rows(a, p))
            && (IsStored(path, filters, body[j]) ==>
                  && p < |a.messages| && a.messages[p].Some?
                  && Rows(a, q) == Rows(a, p) + [RowFor(p, a.messages[p].value, a.logs, a.raw[p])])
  {
    hide Rows, RowFor, Slots, Messages, Logs, Raws, Selected, Decoded;
    EntryOf(path, filters, body, j);
    if !Undecodable(path, filters, body[j]) {
      RowsNext(Assemble(path, filters, body, recorded, |body|), |Slots(path, filters, body, j)|);
    }
  }

  /** The row of body message `j` is built from its own entry, bytes and log if no message before it was undecodable. */
  lemma RowFaithful(path: Path, filters: seq<TypeFilter>, body: seq<BodyMsg>, recorded: Events, j: nat)
    requires j < |body| && IsStored(path, filters, body[j]) && |Slots(path, filters, body, j)| == j
    ensures var a := Assemble(path, filters, body, recorded, |body|);
            && j < |a.messages| && a.messages[j].Some?
            && RowFor(j, a.messages[j].value, a.logs, a.raw[j]) == FaithfulRow(path, body[j], recorded, j)
  {
    hide LogForIndex, Logs;
    SlotOf(path, filters, body, j);
    LogFound(path, filters, body, recorded, |body|, j);
  }

  lemma NoneBefore(path: Path, filters: seq<TypeFilter>, body: seq<BodyMsg>, j: nat)
    requires j < |body| && Unshifted(path, filters, body) && IsStored(path, filters, body[j])
    ensures |Slots(path, filters, body, j)| == j
  {
    PositionKept(path, filters, body, j);
  }

  /** The rows of the first `n` messages are faithful if no undecodable message comes before a stored one. */
  lemma {:induction false} RowsFaithful(path: Path, filters: seq<TypeFilter>, body: seq<BodyMsg>, recorded: Events,
                                        n: nat)
    requires n <= |body| && Unshifted(path, filters, body)
    ensures var a := Assemble(path, filters, body, recorded, |body|);
            && |Slots(path, filters, body, n)| <= |a.messages|
            && Rows(a, |Slots(path, filters, body, n)|) == FaithfulRows(path, filters, body, recorded, n)
    decreases n
  {
    hide *;
    if n == 0 {
      NoRows(path, filters, body, recorded);
    } else {
      RowsFaithful(path, filters, body, recorded, n - 1);
      RowNext(path, filters, body, recorded, n - 1);
      FaithfulNext(path, filters, body, recorded, n - 1);
      if IsStored(path, filters, body[n - 1]) {
        NoneBefore(path, filters, body, n - 1);
        RowFaithful(path, filters, body, recorded, n - 1);
      }
    }
  }

  /** There is a row for every stored message, under whatever index. */
  lemma {:induction false} RowCount(path: Path, filters: seq<TypeFilter>, body: seq<BodyMsg>, recorded: Events, n: nat)
    requires n <= |body|
    ensures var a := Assemble(path, filters, body, recorded, |body|);
            && |Slots(path, filters, body, n)| <= |a.messages|
            && |Rows(a, |Slots(path, filters, body, n)|)| == |FaithfulRows(path, filters, body, recorded, n)|
    decreases n
  {
    hide *;
    if n == 0 {
      NoRows(path, filters, body, recorded);
    } else {
      RowCount(path, filters, body, recorded, n - 1);
      RowNext(path, filters, body, recorded, n - 1);
      FaithfulNext(path, filters, body, recorded, n - 1);
    }
  }

  lemma {:induction false} RowsPrefix(a: Assembled, m: nat, n: nat)
    requires m <= n <= |a.messages| <= |a.raw|
    ensures Rows(a, m) <= Rows(a, n)
    decreases n
  {
    hide RowFor;
    if m < n {
      RowsPrefix(a, m, n - 1);
    }
  }

  lemma {:induction false} FaithfulPrefix(path: Path, filters: seq<TypeFilter>, body: seq<BodyMsg>, recorded: Events,
                                          m: nat, n: nat)
    requires m <= n <= |body|
    ensures FaithfulRows(path, filters, body, recorded, m) <= FaithfulRows(path, filters, body, recorded, n)
    decreases n
  {
    hide FaithfulRow, IsStored;
    if m < n {
      FaithfulPrefix(path, filters, body, recorded, m, n - 1);
    }
  }

  /** The row of stored message `j` has as its index the number of entries before it; the faithful one has `j`. */
  lemma RowIndex(path: Path, filters: seq<TypeFilter>, body: seq<BodyMsg>, recorded: Events, j: nat)
    requires j < |body| && IsStored(path, filters, body[j])
    ensures var a := Assemble(path, filters, body, recorded, |body|);
            var r := |FaithfulRows(path, filters, body, recorded, j)|;
            var faithful := FaithfulRows(path, filters, body, recorded, |body|);
            && r < |Rows(a, |a.messages|)| == |faithful|
            && Rows(a, |a.messages|)[r].index == |Slots(path, filters, body, j)|
            && faithful[r].index == j
  {
    hide LogForIndex, Logs, FaithfulRows, Rows, Slots;
    var a := Assemble(path, filters, body, recorded, |body|);
    RowCount(path, filters, body, recorded, j);
    RowCount(path, filters, body, recorded, |body|);
    RowNext(path, filters, body, recorded, j);
    RowsPrefix(a, |Slots(path, filters, body, j + 1)|, |a.messages|);
    FaithfulNext(path, filters, body, recorded, j);
    FaithfulPrefix(path, filters, body, recorded, j + 1, |body|);
  }

  /**
   The rows of a code-0 transaction are, in body order, exactly the stored messages, each with its own position, type
   and bytes and the events recorded for its position, if and only if no selected message that cannot be decoded comes
   before a stored one.
   */
  lemma FaithfulExactly(path: Path, filters: seq<TypeFilter>, body: seq<BodyMsg>, recorded: Events)
    ensures var a := Assemble(path, filters, body, recorded, |body|);
            Rows(a, |a.messages|) == FaithfulRows(path, filters, body, recorded, |body|)
            <==> Unshifted(path, filters, body)
  {
    hide Rows, FaithfulRows, Slots, Logs;
    var a := Assemble(path, filters, body, recorded, |body|);
    if Unshifted(path, filters, body) {
      RowsFaithful(path, filters, body, recorded, |body|);
    } else {
      var i, j :| 0 <= i < j < |body| && Undecodable(path, filters, body[i]) && IsStored(path, filters, body[j]);
      RowIndex(path, filters, body, recorded, j);
      PositionKept(path, filters, body, j);
    }
  }

  /** The rows of a message have exactly the given events: kinds, keys and values in order, numbered from 0. */
  ghost predicate HasEvents(rows: seq<EventRow>, events: seq<LogEvent>) {
    && |rows| == |events|
    && forall e :: 0 <= e < |rows| ==>
         && rows[e].index == e && rows[e].kind == events[e].kind && |rows[e].attributes| == |events[e].attributes|
         && forall k :: 0 <= k < |rows[e].attributes| ==>
              && rows[e].attributes[k].index == k
              && rows[e].attributes[k].key == events[e].attributes[k].key
              && rows[e].attributes[k].value == events[e].attributes[k].value
  }

  lemma RowsHaveEvents(events: seq<LogEvent>)
    ensures HasEvents(EventRows(events), events)
  {
  }

  lemma {:induction false} FaithfulAt(path: Path, filters: seq<TypeFilter>, body: seq<BodyMsg>, recorded: Events,
                                      n: nat, j: nat)
    returns (p: nat)
    requires j < n <= |body| && IsStored(path, filters, body[j])
    ensures p < |FaithfulRows(path, filters, body, recorded, n)|
    ensures FaithfulRows(path, filters, body, recorded, n)[p] == FaithfulRow(path, body[j], recorded, j)
    decreases n
  {
    hide IsStored, FaithfulRow;
    if j == n - 1 {
      p := |FaithfulRows(path, filters, body, recorded, n - 1)|;
    } else {
      p := FaithfulAt(path, filters, body, recorded, n - 1, j);
    }
  }

  lemma {:induction false} FaithfulFrom(path: Path, filters: seq<TypeFilter>, body: seq<BodyMsg>, recorded: Events,
                                        n: nat, p: nat)
    returns (j: nat)
    requires n <= |body| && p < |FaithfulRows(path, filters, body, recorded, n)|
    ensures j < n && IsStored(path, filters, body[j])
    ensures FaithfulRows(path, filters, body, recorded, n)[p] == FaithfulRow(path, body[j], recorded, j)
    decreases n
  {
    hide IsStored, FaithfulRow;
    if p == |FaithfulRows(path, filters, body, recorded, n - 1)| {
      j := n - 1;
    } else {
      j := FaithfulFrom(path, filters, body, recorded, n - 1, p);
    }
  }

  /**
   The search parser: if no undecodable message comes before a stored one, stored message `j` has a row with its index,
   its type, its bytes and the events of log `j`, or none if the response has no such log.
   */
  lemma SearchedRow(filters: seq<TypeFilter>, body: seq<BodyMsg>, logs: seq<seq<LogEvent>>, j: nat) returns (p: nat)
    requires Unshifted(Search, filters, body) && j < |body| && IsStored(Search, filters, body[j])
    ensures var a := Searched(filters, body, logs);
            var m := body[j];
            && p < |Rows(a, |a.messages|)|
            && var row := Rows(a, |a.messages|)[p];
            && row.index == j && row.bytes == m.value
            && row.typeUrl == (if m.cached.Some? then m.cached.value.typeUrl else m.unpacked.value.typeUrl)
            && (if j < |logs| then HasEvents(row.events, logs[j]) else row.events == [])
  {
    hide Rows, FaithfulRows, EventRows, HasEvents;
    FaithfulExactly(Search, filters, body, SearchEvents(logs));
    p := FaithfulAt(Search, filters, body, SearchEvents(logs), |body|, j);
    if j < |logs| {
      RowsHaveEvents(logs[j]);
    }
  }

  /**
   The results parser, likewise for a code-0 transaction: the events of parsed log `j` or, without parsed logs, all
   events of the transaction.
   */
  lemma ResultsRow(filters: seq<TypeFilter>, body: seq<BodyMsg>, logs: seq<seq<LogEvent>>, events: seq<LogEvent>,
                   j: nat)
    returns (p: nat)
    requires Unshifted(Results, filters, body) && j < |body| && IsStored(Results, filters, body[j])
    ensures var a := FromResults(filters, body, 0, logs, events);
            && p < |Rows(a, |a.messages|)|
            && var row := Rows(a, |a.messages|)[p];
            && row.index == j && row.bytes == body[j].value && row.typeUrl == body[j].cached.value.typeUrl
            && (j < |logs| ==> HasEvents(row.events, logs[j]))
            && (logs == [] ==> HasEvents(row.events, events))
  {
    hide Rows, FaithfulRows, EventRows, HasEvents;
    FaithfulExactly(Results, filters, body, ResultsEvents(0, logs, events));
    p := FaithfulAt(Results, filters, body, ResultsEvents(0, logs, events), |body|, j);
    if j < |logs| {
      RowsHaveEvents(logs[j]);
    } else if logs == [] {
      RowsHaveEvents(events);
    }
  }

  /** Which messages are selected, and which of them the two parsers store. */
  lemma StoredExactly(filters: seq<TypeFilter>, m: BodyMsg)
    ensures var selected :=
              || filters == []
              || (exists f :: f in filters && f.ExactType? && f.typeUrl == m.typeUrl)
              || (exists f :: f in filters && f.TypeLike? && f.regex(m.typeUrl));
            && (Selected(filters, m) <==> selected)
            && (IsStored(Search, filters, m) <==> selected && (m.cached.Some? || m.unpacked.Some?))
            && (IsStored(Results, filters, m) <==> selected && m.cached.Some?)
            && (Undecodable(Search, filters, m) <==> selected && m.cached.None? && m.unpacked.None?)
            && (Undecodable(Results, filters, m) <==> selected && m.cached.None?)
  {
    forall f | f in filters && TypeMatches(f, m.typeUrl)
      ensures Selected(filters, m)
    {
      var i :| 0 <= i < |filters| && filters[i] == f;
    }
  }

  /** How many of the first `n` messages are stored by the results parser. */
  function StoredCount(filters: seq<TypeFilter>, body: seq<BodyMsg>, n: nat): nat
    requires n <= |body|
  {
    if n == 0 then 0 else StoredCount(filters, body, n - 1) + if IsStored(Results, filters, body[n - 1]) then 1 else 0
  }

  /** The number of events in all rows. */
  function EventCount(rows: seq<MessageRow>): nat {
    if rows == [] then 0 else EventCount(rows[..|rows| - 1]) + |rows[|rows| - 1].events|
  }

  lemma {:induction false} SameEvents(rows: seq<MessageRow>, events: seq<EventRow>)
    requires forall r :: r in rows ==> r.events == events
    ensures EventCount(rows) == |rows| * |events|
    decreases |rows|
  {
    if rows != [] {
      var front := rows[..|rows| - 1];
      SameEvents(front, events);
      assert rows[|rows| - 1] in rows;
      assert |rows| * |events| == |front| * |events| + |events|;
    }
  }

  lemma {:induction false} AllHaveThem(filters: seq<TypeFilter>, body: seq<BodyMsg>, events: seq<LogEvent>, n: nat)
    requires n <= |body|
    ensures var rows := FaithfulRows(Results, filters, body, ResultsEvents(0, [], events), n);
            |rows| == StoredCount(filters, body, n) && forall r :: r in rows ==> r.events == EventRows(events)
    decreases n
  {
    if n > 0 {
      AllHaveThem(filters, body, events, n - 1);
    }
  }

  /**
   Without parsed logs every stored message of a code-0 transaction gets all events of the transaction, so with n stored
   messages each event is stored n times.
   */
  lemma EventsRepeated(filters: seq<TypeFilter>, body: seq<BodyMsg>, events: seq<LogEvent>)
    requires Unshifted(Results, filters, body)
    ensures var a := Assemble(Results, filters, body, ResultsEvents(0, [], events), |body|);
            var rows := Rows(a, |a.messages|);
            && (forall r :: r in rows ==> r.events == EventRows(events))
            && EventCount(rows) == StoredCount(filters, body, |body|) * |events|
  {
    hide Rows, FaithfulRows, Assemble, EventRows;
    FaithfulExactly(Results, filters, body, ResultsEvents(0, [], events));
    AllHaveThem(filters, body, events, |body|);
    var a := Assemble(Results, filters, body, ResultsEvents(0, [], events), |body|);
    SameEvents(Rows(a, |a.messages|), EventRows(events));
    EventRowCount(events);
  }

  lemma EventRowCount(events: seq<LogEvent>)
    ensures |EventRows(events)| == |events|
  {
  }

  /** A message that cannot be decoded shifts the next one: it is stored as message 0 with the bytes of the first. */
  lemma ShiftedExample(lost: Bytes, own: Bytes, events: seq<LogEvent>)
    ensures var body := [BodyMsg("/a", lost, None, None), BodyMsg("/b", own, Some(Msg("/b")), None)];
            var a := Assemble(Search, [], body, SearchEvents([[], events]), 2);
            |a.messages| == 1 && |a.raw| == 2 && Rows(a, 1) == [MessageRow(0, "/b", lost, [])]
  {
    var body := [BodyMsg("/a", lost, None, None), BodyMsg("/b", own, Some(Msg("/b")), None)];
    var recorded := SearchEvents([[], events]);
    AssembleNone(Search, [], body, recorded);
    AssembleNext(Search, [], body, recorded, 0);
    AssembleNext(Search, [], body, recorded, 1);
    LogFound(Search, [], body, recorded, 2, 0);
    var a := Assemble(Search, [], body, recorded, 2);
    assert Rows(a, 1) == Rows(a, 0) + [RowFor(0, a.messages[0].value, a.logs, a.raw[0])];
  }

  // ---------------------------------------------------------------------------------------------
  // What the store relies on
  // ---------------------------------------------------------------------------------------------

  /** Rows are numbered as the unique keys of the tables need it. */
  ghost predicate Numbered(rows: seq<MessageRow>) {
    && (forall i, j :: 0 <= i < j < |rows| ==> rows[i].index < rows[j].index)
    && (forall i, e :: 0 <= i < |rows| && 0 <= e < |rows[i].events| ==>
          && rows[i].events[e].index == e
          && forall k :: 0 <= k < |rows[i].events[e].attributes| ==> rows[i].events[e].attributes[k].index == k)
  }

  lemma RowNumbered(index: nat, msg: Msg, logs: seq<LogMessage>, bytes: Bytes)
    ensures var row := RowFor(index, msg, logs, bytes);
            && row.index == index
            && forall e :: 0 <= e < |row.events| ==>
                 && row.events[e].index == e
                 && forall k :: 0 <= k < |row.events[e].attributes| ==> row.events[e].attributes[k].index == k
  {
    hide LogForIndex;
  }

  lemma {:induction false} RowsNumbered(a: Assembled, n: nat)
    requires n <= |a.messages| <= |a.raw|
    ensures Numbered(Rows(a, n)) && forall i :: 0 <= i < |Rows(a, n)| ==> Rows(a, n)[i].index < n
    decreases n
  {
    hide LogForIndex, EventRows, RowFor;
    if n > 0 {
      RowsNumbered(a, n - 1);
      if a.messages[n - 1].Some? {
        RowNumbered(n - 1, a.messages[n - 1].value, a.logs, a.raw[n - 1]);
      }
    }
  }

  /** Every string of a message row is in the unique maps. */
  ghost predicate Named(rows: seq<MessageRow>, types: set<string>, eventTypes: set<string>, keys: set<string>) {
    forall i :: 0 <= i < |rows| ==>
      && rows[i].typeUrl in types
      && forall e :: 0 <= e < |rows[i].events| ==>
           && rows[i].events[e].kind in eventTypes
           && forall k :: 0 <= k < |rows[i].events[e].attributes| ==> rows[i].events[e].attributes[k].key in keys
  }

  lemma {:induction false} KeysIn(events: seq<EventRow>, e: nat, k: nat)
    requires e < |events| && k < |events[e].attributes|
    ensures events[e].attributes[k].key in EventKeys(events)
    decreases |events|
  {
    if e < |events| - 1 {
      KeysIn(events[..|events| - 1], e, k);
    }
  }

  /** The unique maps that ProcessTx builds cover all rows. */
  lemma {:induction false} UniqueMapsCover(rows: seq<MessageRow>)
    ensures Named(rows, AllTypes(rows), AllEventTypes(rows), AllKeys(rows))
    decreases |rows|
  {
    if rows != [] {
      var front, last := rows[..|rows| - 1], rows[|rows| - 1];
      UniqueMapsCover(front);
      forall i, e, k | 0 <= i < |rows| && 0 <= e < |rows[i].events| && 0 <= k < |rows[i].events[e].attributes|
        ensures rows[i].events[e].attributes[k].key in AllKeys(rows)
      {
        if i < |front| {
          assert front[i] == rows[i] && front[i].events[e].attributes[k].key in AllKeys(front);
        } else {
          KeysIn(last.events, e, k);
        }
      }
      forall i, e | 0 <= i < |rows| && 0 <= e < |rows[i].events|
        ensures rows[i].events[e].kind in AllEventTypes(rows)
      {
        assert i < |front| ==> front[i] == rows[i] && front[i].events[e].kind in AllEventTypes(front);
      }
    }
  }

  lemma {:induction false} KeyFrom(events: seq<EventRow>, key: string) returns (e: nat, k: nat)
    requires key in EventKeys(events)
    ensures e < |events| && k < |events[e].attributes| && events[e].attributes[k].key == key
    decreases |events|
  {
    var last := events[|events| - 1];
    if key in KeysOf(last) {
      e := |events| - 1;
      k :| 0 <= k < |last.attributes| && last.attributes[k].key == key;
    } else {
      e, k := KeyFrom(events[..|events| - 1], key);
    }
  }

  /** The unique maps hold nothing else: every attribute key and event type in them is that of some row. */
  lemma {:induction false} UniqueKeyFrom(rows: seq<MessageRow>, key: string) returns (i: nat, e: nat, k: nat)
    requires key in AllKeys(rows)
    ensures i < |rows| && e < |rows[i].events| && k < |rows[i].events[e].attributes|
    ensures rows[i].events[e].attributes[k].key == key
    decreases |rows|
  {
    var last := rows[|rows| - 1];
    if key in EventKeys(last.events) {
      i := |rows| - 1;
      e, k := KeyFrom(last.events, key);
    } else {
      i, e, k := UniqueKeyFrom(rows[..|rows| - 1], key);
    }
  }

  lemma {:induction false} UniqueTypeFrom(rows: seq<MessageRow>, kind: string) returns (i: nat, e: nat)
    requires kind in AllEventTypes(rows)
    ensures i < |rows| && e < |rows[i].events| && rows[i].events[e].kind == kind
    decreases |rows|
  {
    var last := rows[|rows| - 1];
    if kind in EventTypes(last.events) {
      i := |rows| - 1;
      e :| 0 <= e < |last.events| && last.events[e].kind == kind;
    } else {
      i, e := UniqueTypeFrom(rows[..|rows| - 1], kind);
    }
  }
}
