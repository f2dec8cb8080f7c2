/**
 From a transaction body and its logs to the rows that are stored: the message loops of the two parsers, and the
 processor that numbers messages, events and attributes and collects the unique strings.
 */
module TxAssembly {
  import opened Options

  type Bytes = seq<bv8>

  datatype Attribute = Attribute(key: string, value: string)

  datatype LogEvent = LogEvent(kind: string, attributes: seq<Attribute>)

  datatype LogMessage = LogMessage(index: nat, events: seq<LogEvent>)

  /** A decoded message; only its type is used. */
  datatype Msg = Msg(typeUrl: string)

  /** A message of a transaction body: the cached value, and what unpacking it on its own would give. */
  datatype BodyMsg = BodyMsg(typeUrl: string, value: Bytes, cached: Option<Msg>, unpacked: Option<Msg>)

  datatype TypeFilter = ExactType(typeUrl: string) | TypeLike(regex: string -> bool)

  predicate TypeMatches(f: TypeFilter, typeUrl: string) {
    match f case ExactType(t) => t == typeUrl case TypeLike(regex) => regex(typeUrl)
  }

  /** messageTypeShouldIndex: no filter selects everything. */
  predicate Selected(filters: seq<TypeFilter>, m: BodyMsg) {
    filters == [] || exists i :: 0 <= i < |filters| && TypeMatches(filters[i], m.typeUrl)
  }

  /** Which parser runs: on a tx search response, or on block results. */
  datatype Path = Search | Results

  function Decoded(path: Path, m: BodyMsg): Option<Msg> {
    if m.cached.Some? || path.Results? then m.cached else m.unpacked
  }

  /** The message is selected but cannot be decoded. */
  predicate Undecodable(path: Path, filters: seq<TypeFilter>, m: BodyMsg) {
    Selected(filters, m) && Decoded(path, m).None?
  }

  /** The message gets a row. */
  predicate IsStored(path: Path, filters: seq<TypeFilter>, m: BodyMsg) {
    Selected(filters, m) && Decoded(path, m).Some?
  }

  // ---------------------------------------------------------------------------------------------
  // What the message loops build from the first `n` messages
  // ---------------------------------------------------------------------------------------------

  /** The positions in the body of the entries of currMessages. */
  function Slots(path: Path, filters: seq<TypeFilter>, body: seq<BodyMsg>, n: nat): (r: seq<nat>)
    requires n <= |body|
    ensures |r| <= n && forall p :: 0 <= p < |r| ==> p <= r[p] < n
  {
    if n == 0 then []
    else
      var front := Slots(path, filters, body, n - 1);
      if Undecodable(path, filters, body[n - 1]) then front else front + [n - 1]
  }

  /** An entry of currMessages: nil for a message that is not selected. */
  function Entry(path: Path, filters: seq<TypeFilter>, m: BodyMsg): Option<Msg> {
    if Selected(filters, m) then Decoded(path, m) else None
  }

  function Messages(path: Path, filters: seq<TypeFilter>, body: seq<BodyMsg>, n: nat): seq<Option<Msg>>
    requires n <= |body|
  {
    var slots := Slots(path, filters, body, n);
    seq(|slots|, p requires 0 <= p < |slots| => Entry(path, filters, body[slots[p]]))
  }

  function RawOf(filters: seq<TypeFilter>, m: BodyMsg): Bytes { if Selected(filters, m) then m.value else [] }

  /** messagesRaw: the search parser appends before decoding, the results parser after. */
  function Raws(path: Path, filters: seq<TypeFilter>, body: seq<BodyMsg>, n: nat): seq<Bytes>
    requires n <= |body|
  {
    if path.Search? then seq(n, i requires 0 <= i < n => RawOf(filters, body[i]))
    else
      var slots := Slots(path, filters, body, n);
      seq(|slots|, p requires 0 <= p < |slots| => RawOf(filters, body[slots[p]]))
  }

  /** The events recorded for body message `i`; None if there is no log for it. */
  type Events = nat -> Option<seq<LogEvent>>

  /** currLogMsgs, given the events recorded for each stored message. */
  function Logs(path: Path, filters: seq<TypeFilter>, body: seq<BodyMsg>, recorded: Events, n: nat): seq<LogMessage>
    requires n <= |body|
  {
    if n == 0 then []
    else
      var front := Logs(path, filters, body, recorded, n - 1);
      if !Selected(filters, body[n - 1]) then front + [LogMessage(n - 1, [])]
      else if IsStored(path, filters, body[n - 1]) && recorded(n - 1).Some? then
        front + [LogMessage(n - 1, recorded(n - 1).value)]
      else front
  }

  /** The search parser takes the log at the message's position, if the response has one. */
  function SearchEvents(logs: seq<seq<LogEvent>>): Events {
    (i: nat) => if i < |logs| then Some(logs[i]) else None
  }

  /** The results parser takes the parsed log at the position or, without parsed logs, all events of the transaction. */
  function ResultsEvents(code: nat, logs: seq<seq<LogEvent>>, events: seq<LogEvent>): Events {
    (i: nat) => Some(if code != 0 then [] else if |logs| == 0 then events else if i < |logs| then logs[i] else [])
  }

  datatype Assembled = Assembled(messages: seq<Option<Msg>>, logs: seq<LogMessage>, raw: seq<Bytes>)

  function Assemble(path: Path, filters: seq<TypeFilter>, body: seq<BodyMsg>, recorded: Events, n: nat): (a: Assembled)
    requires n <= |body|
    ensures |a.messages| <= |a.raw|
  {
    Assembled(Messages(path, filters, body, n), Logs(path, filters, body, recorded, n), Raws(path, filters, body, n))
  }

  lemma AssembleNone(path: Path, filters: seq<TypeFilter>, body: seq<BodyMsg>, recorded: Events)
    ensures Assemble(path, filters, body, recorded, 0) == Assembled([], [], [])
  {
  }

  lemma AssembleNext(path: Path, filters: seq<TypeFilter>, body: seq<BodyMsg>, recorded: Events, n: nat)
    requires n < |body|
    ensures var a := Assemble(path, filters, body, recorded, n);
            var m := body[n];
            Assemble(path, filters, body, recorded, n + 1) ==
            if !Selected(filters, m) then Assembled(a.messages + [None], a.logs + [LogMessage(n, [])], a.raw + [[]])
            else if Decoded(path, m).None? then a.(raw := if path.Search? then a.raw + [m.value] else a.raw)
            else Assembled(a.messages + [Decoded(path, m)],
                           if recorded(n).Some? then a.logs + [LogMessage(n, recorded(n).value)] else a.logs,
                           a.raw + [m.value])
  {
  }

  /** What the search parser makes of a body and the logs of the response. */
  function Searched(filters: seq<TypeFilter>, body: seq<BodyMsg>, logs: seq<seq<LogEvent>>): Assembled {
    Assemble(Search, filters, body, SearchEvents(logs), |body|)
  }

  /** What the results parser makes of a body, the code, the parsed logs and all events of the transaction. */
  function FromResults(filters: seq<TypeFilter>, body: seq<BodyMsg>, code: nat, logs: seq<seq<LogEvent>>,
                       events: seq<LogEvent>): Assembled {
    Assemble(Results, filters, body, ResultsEvents(code, logs, events), |body|)
  }

  /** The message loop of ProcessRPCTXs. */
  method AssembleSearch(filters: seq<TypeFilter>, body: seq<BodyMsg>, logs: seq<seq<LogEvent>>) returns (a: Assembled)
    ensures a == Searched(filters, body, logs)
  {
    hide Assemble;
    AssembleNone(Search, filters, body, SearchEvents(logs));
    var currMessages, currLogMsgs, messagesRaw := [], [], [];
    for i := 0 to |body|
      invariant Assembled(currMessages, currLogMsgs, messagesRaw)
                == Assemble(Search, filters, body, SearchEvents(logs), i)
    {
      AssembleNext(Search, filters, body, SearchEvents(logs), i);
      if !Selected(filters, body[i]) {
        currMessages := currMessages + [None];
        currLogMsgs := currLogMsgs + [LogMessage(i, [])];
        messagesRaw := messagesRaw + [[]];
        continue;
      }
      var currMsg := body[i].cached;
      messagesRaw := messagesRaw + [body[i].value];
      if currMsg.None? {
        if body[i].unpacked.None? { continue; }
        currMsg := body[i].unpacked;
      }
      currMessages := currMessages + [currMsg];
      if |logs| >= i + 1 {
        currLogMsgs := currLogMsgs + [LogMessage(i, logs[i])];
      }
    }
    a := Assembled(currMessages, currLogMsgs, messagesRaw);
  }

  /** Message `i` makes the results parser index past the parsed logs. */
  predicate Overruns(filters: seq<TypeFilter>, body: seq<BodyMsg>, code: nat, logs: seq<seq<LogEvent>>, i: nat) {
    i < |body| && IsStored(Results, filters, body[i]) && code == 0 && 0 < |logs| <= i
  }

  /** The message loop of ProcessRPCBlockByHeightTXs.  It panics exactly if parsed logs miss a stored message. */
  method AssembleResults(filters: seq<TypeFilter>, body: seq<BodyMsg>, code: nat, logs: seq<seq<LogEvent>>,
                         events: seq<LogEvent>)
    returns (a: Assembled, panicked: bool)
    ensures panicked <==> exists i: nat :: Overruns(filters, body, code, logs, i)
    ensures !panicked ==> a == FromResults(filters, body, code, logs, events)
  {
    hide Assemble;
    AssembleNone(Results, filters, body, ResultsEvents(code, logs, events));
    var currMessages, currLogMsgs, messagesRaw := [], [], [];
    for i := 0 to |body|
      invariant Assembled(currMessages, currLogMsgs, messagesRaw)
                == Assemble(Results, filters, body, ResultsEvents(code, logs, events), i)
      invariant forall k: nat :: k < i ==> !Overruns(filters, body, code, logs, k)
    {
      AssembleNext(Results, filters, body, ResultsEvents(code, logs, events), i);
      if !Selected(filters, body[i]) {
        currMessages := currMessages + [None];
        currLogMsgs := currLogMsgs + [LogMessage(i, [])];
        messagesRaw := messagesRaw + [[]];
        continue;
      }
      var currMsg := body[i].cached;
      if currMsg.Some? {
        messagesRaw := messagesRaw + [body[i].value];
        currMessages := currMessages + [currMsg];
        var msgEvents := [];
        if code == 0 {
          if |logs| > 0 {
            if i >= |logs| {
              assert Overruns(filters, body, code, logs, i);
              return Assembled([], [], []), true;
            }
            msgEvents := logs[i];
          } else {
            msgEvents := events;
          }
        }
        currLogMsgs := currLogMsgs + [LogMessage(i, msgEvents)];
      }
    }
    a, panicked := Assembled(currMessages, currLogMsgs, messagesRaw), false;
  }

  /** One parsed log and two stored messages: the second message overruns the logs. */
  lemma OverrunExample(first: BodyMsg, second: BodyMsg, log: seq<LogEvent>)
    requires second.cached.Some?
    ensures Overruns([], [first, second], 0, [log], 1)
  {
  }

  // ---------------------------------------------------------------------------------------------
  // ProcessTx
  // ---------------------------------------------------------------------------------------------

  datatype AttributeRow = AttributeRow(index: nat, key: string, value: string)

  datatype EventRow = EventRow(index: nat, kind: string, attributes: seq<AttributeRow>)

  datatype MessageRow = MessageRow(index: nat, typeUrl: string, bytes: Bytes, events: seq<EventRow>)

  /** TxDBWrapper; the unique maps send each string to itself, so they are given by their keys. */
  datatype TxWrapper = TxWrapper(hash: string, code: nat, messages: seq<MessageRow>,
                                 types: set<string>, eventTypes: set<string>, attributeKeys: set<string>)

  predicate IsFirstLog(logs: seq<LogMessage>, index: nat, i: nat)
    requires i < |logs|
  {
    logs[i].index == index && forall l :: 0 <= l < i ==> logs[l].index != index
  }

  /** GetMessageLogForIndex: the first log with that index. */
  function LogForIndex(logs: seq<LogMessage>, index: nat): (r: Option<LogMessage>)
    ensures r.Some? ==> exists i :: 0 <= i < |logs| && logs[i] == r.value && IsFirstLog(logs, index, i)
    ensures r.None? <==> forall i :: 0 <= i < |logs| ==> logs[i].index != index
  {
    if logs == [] then None
    else if logs[0].index == index then Some(logs[0])
    else LogForIndex(logs[1..], index)
  }

  function AttributeRows(attributes: seq<Attribute>): seq<AttributeRow> {
    seq(|attributes|, i requires 0 <= i < |attributes| => AttributeRow(i, attributes[i].key, attributes[i].value))
  }

  function EventRows(events: seq<LogEvent>): seq<EventRow> {
    seq(|events|, i requires 0 <= i < |events| => EventRow(i, events[i].kind, AttributeRows(events[i].attributes)))
  }

  function RowFor(index: nat, msg: Msg, logs: seq<LogMessage>, bytes: Bytes): MessageRow {
    var log := LogForIndex(logs, index);
    MessageRow(index, msg.typeUrl, bytes, if log.Some? then EventRows(log.value.events) else [])
  }

  /** The rows for the first `n` entries of the assembled message list. */
  function Rows(a: Assembled, n: nat): seq<MessageRow>
    requires n <= |a.messages| <= |a.raw|
  {
    if n == 0 then []
    else if a.messages[n - 1].None? then Rows(a, n - 1)
    else Rows(a, n - 1) + [RowFor(n - 1, a.messages[n - 1].value, a.logs, a.raw[n - 1])]
  }

  function KeysOf(e: EventRow): set<string> { set a | a in e.attributes :: a.key }

  function EventKeys(events: seq<EventRow>): set<string> {
    if events == [] then {} else EventKeys(events[..|events| - 1]) + KeysOf(events[|events| - 1])
  }

  function EventTypes(events: seq<EventRow>): set<string> { set e | e in events :: e.kind }

  function AllTypes(rows: seq<MessageRow>): set<string> { set m | m in rows :: m.typeUrl }

  function AllEventTypes(rows: seq<MessageRow>): set<string> {
    if rows == [] then {} else AllEventTypes(rows[..|rows| - 1]) + EventTypes(rows[|rows| - 1].events)
  }

  function AllKeys(rows: seq<MessageRow>): set<string> {
    if rows == [] then {} else AllKeys(rows[..|rows| - 1]) + EventKeys(rows[|rows| - 1].events)
  }

  /** One event of ProcessMessage: its row, and the unique attribute keys extended by its keys. */
  method ProcessEvent(index: nat, event: LogEvent, keys0: set<string>) returns (row: EventRow, keys: set<string>)
    ensures row == EventRow(index, event.kind, AttributeRows(event.attributes)) && keys == keys0 + KeysOf(row)
  {
    keys := keys0;
    var attributes: seq<AttributeRow> := [];
    for k := 0 to |event.attributes|
      invariant attributes == AttributeRows(event.attributes)[..k]
      invariant keys == keys0 + set a | a in attributes :: a.key
    {
      var attribute := event.attributes[k];
      keys := keys + {attribute.key};
      attributes := attributes + [AttributeRow(k, attribute.key, attribute.value)];
    }
    row := EventRow(index, event.kind, attributes);
  }

  /** ProcessMessage: the row without its bytes, and the unique maps extended by the strings of its events. */
  method ProcessMessage(index: nat, msg: Msg, logs: seq<LogMessage>, eventTypes0: set<string>, keys0: set<string>)
    returns (row: MessageRow, eventTypes: set<string>, keys: set<string>)
    ensures row == RowFor(index, msg, logs, [])
    ensures eventTypes == eventTypes0 + EventTypes(row.events) && keys == keys0 + EventKeys(row.events)
  {
    row, eventTypes, keys := MessageRow(index, msg.typeUrl, [], []), eventTypes0, keys0;
    var log := LogForIndex(logs, index);
    if log.None? { return; }
    var events := log.value.events;
    var rows: seq<EventRow> := [];
    for i := 0 to |events|
      invariant rows == EventRows(events)[..i]
      invariant eventTypes == eventTypes0 + EventTypes(rows) && keys == keys0 + EventKeys(rows)
    {
      var event;
      eventTypes := eventTypes + {events[i].kind};
      event, keys := ProcessEvent(i, events[i], keys);
      assert (rows + [event])[..|rows|] == rows;
      rows := rows + [event];
    }
    row := row.(events := rows);
  }

  /** ProcessTx: only a transaction with code 0 gets message rows.  The unique maps hold exactly the strings in use. */
  method ProcessTx(hash: string, code: nat, a: Assembled) returns (tx: TxWrapper)
    requires |a.messages| <= |a.raw|
    ensures tx.hash == hash && tx.code == code
    ensures tx.messages == if code == 0 then Rows(a, |a.messages|) else []
    ensures tx.types == AllTypes(tx.messages)
    ensures tx.eventTypes == AllEventTypes(tx.messages) && tx.attributeKeys == AllKeys(tx.messages)
  {
    var rows: seq<MessageRow> := [];
    var types: set<string>, eventTypes: set<string>, keys: set<string> := {}, {}, {};
    if code == 0 {
      for i := 0 to |a.messages|
        invariant rows == Rows(a, i)
        invariant types == AllTypes(rows) && eventTypes == AllEventTypes(rows) && keys == AllKeys(rows)
      {
        if a.messages[i].Some? {
          var row;
          row, eventTypes, keys := ProcessMessage(i, a.messages[i].value, a.logs, eventTypes, keys);
          row := row.(bytes := a.raw[i]);
          types := types + {row.typeUrl};
          assert (rows + [row])[..|rows|] == rows;
          rows := rows + [row];
        }
      }
    }
    tx := TxWrapper(hash, code, rows, types, eventTypes, keys);
  }
}
