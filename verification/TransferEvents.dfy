/** Transfer events: attributes are triples of recipient, sender and amount. */
module TransferEvents {
  import opened Options
  import opened TxAssembly

  datatype Transfer = Transfer(recipient: string, sender: string, amount: string)

  function Triple(t: Transfer): seq<Attribute> {
    [Attribute("recipient", t.recipient), Attribute("sender", t.sender), Attribute("amount", t.amount)]
  }

  /** The attributes of an event with these transfers. */
  function Print(ts: seq<Transfer>): seq<Attribute> {
    if ts == [] then [] else Print(ts[..|ts| - 1]) + Triple(ts[|ts| - 1])
  }

  lemma {:induction false} PrintAt(ts: seq<Transfer>, j: nat)
    requires j < |ts|
    ensures |Print(ts)| == 3 * |ts|
    ensures Print(ts)[3 * j] == Attribute("recipient", ts[j].recipient)
    ensures Print(ts)[3 * j + 1] == Attribute("sender", ts[j].sender)
    ensures Print(ts)[3 * j + 2] == Attribute("amount", ts[j].amount)
    decreases |ts|
  {
    var front := ts[..|ts| - 1];
    if j < |front| {
      PrintAt(front, j);
    } else if front != [] {
      PrintAt(front, 0);
    }
  }

  /** The attributes are repeated triples. */
  ghost predicate IsPrinted(attributes: seq<Attribute>) { exists ts :: attributes == Print(ts) }

  lemma PrintedLength(attributes: seq<Attribute>)
    requires IsPrinted(attributes)
    ensures |attributes| % 3 == 0
    ensures forall i :: 0 <= i < |attributes| && i % 3 == 0 ==>
              && attributes[i].key == "recipient"
              && i + 2 < |attributes| && attributes[i + 1].key == "sender" && attributes[i + 2].key == "amount"
  {
    var ts :| attributes == Print(ts);
    if ts != [] {
      PrintAt(ts, 0);
    }
    forall i | 0 <= i < |attributes| && i % 3 == 0
      ensures attributes[i].key == "recipient"
      ensures i + 2 < |attributes| && attributes[i + 1].key == "sender" && attributes[i + 2].key == "amount"
    {
      assert i == 3 * (i / 3);
      PrintAt(ts, i / 3);
    }
  }

  lemma PrintedBy(attributes: seq<Attribute>, ts: seq<Transfer>)
    requires attributes == Print(ts)
    ensures IsPrinted(attributes)
  {
  }

  /** Transfer `j` is read from attributes 3j, 3j + 1 and 3j + 2, and there are no others. */
  ghost predicate IsTriples(a: seq<Attribute>, ts: seq<Transfer>) {
    && |a| == 3 * |ts|
    && forall j :: 0 <= j < |ts| ==>
         && a[3 * j] == Attribute("recipient", ts[j].recipient)
         && a[3 * j + 1] == Attribute("sender", ts[j].sender)
         && a[3 * j + 2] == Attribute("amount", ts[j].amount)
  }

  lemma PrintedTriples(a: seq<Attribute>, ts: seq<Transfer>)
    requires a == Print(ts)
    ensures IsTriples(a, ts)
  {
    if ts == [] {
      PrintNone();
    } else {
      PrintAt(ts, 0);
    }
    forall j | 0 <= j < |ts|
      ensures a[3 * j] == Attribute("recipient", ts[j].recipient)
      ensures a[3 * j + 1] == Attribute("sender", ts[j].sender)
      ensures a[3 * j + 2] == Attribute("amount", ts[j].amount)
    {
      PrintAt(ts, j);
    }
  }

  lemma PrintNone()
    ensures Print([]) == []
  {
  }

  lemma PrintNext(a: seq<Attribute>, ts: seq<Transfer>, t: Transfer, i: nat)
    requires i + 2 < |a| && a[..i] == Print(ts) && [a[i], a[i + 1], a[i + 2]] == Triple(t)
    ensures a[..i + 3] == Print(ts + [t])
  {
    assert (ts + [t])[..|ts|] == ts;
    assert a[..i + 3] == a[..i] + [a[i], a[i + 1], a[i + 2]];
  }

  /**
   ParseTransferEvent, which looks at every position and not at every third.  It accepts exactly the transfer events
   whose attributes are repeated triples, and then returns the transfers that print to them.
   */
  method ParseTransferEvent(event: LogEvent) returns (r: Option<seq<Transfer>>)
    ensures r.Some? <==> event.kind == "transfer" && IsPrinted(event.attributes)
    ensures r.Some? ==> event.attributes == Print(r.value)
    ensures r.Some? ==> IsTriples(event.attributes, r.value)
  {
    hide Print, IsPrinted, IsTriples;
    var a := event.attributes;
    var transfers: seq<Transfer> := [];
    PrintNone();
    if event.kind != "transfer" { return None; }
    if IsPrinted(a) { PrintedLength(a); }
    for i := 0 to |a|
      invariant |transfers| == (i + 2) / 3 && 3 * |transfers| <= |a|
      invariant a[..3 * |transfers|] == Print(transfers)
      invariant i % 3 != 0 ==> a[i].key != "recipient"
      invariant i % 3 == 1 ==> a[i + 1].key != "recipient"
    {
      var attrRecipient := a[i];
      if attrRecipient.key == "recipient" {
        var attrSenderIdx, attrAmountIdx := i + 1, i + 2;
        if attrAmountIdx < |a| {
          var attrSender, attrAmount := a[attrSenderIdx], a[attrAmountIdx];
          if attrSender.key == "sender" && attrAmount.key == "amount" {
            var t := Transfer(attrRecipient.value, attrSender.value, attrAmount.value);
            PrintNext(a, transfers, t, i);
            transfers := transfers + [t];
          } else {
            return None;
          }
        } else {
          return None;
        }
      } else if i % 3 == 0 {
        return None;
      }
    }
    assert a[..3 * |transfers|] == a;
    PrintedBy(a, transfers);
    PrintedTriples(a, transfers);
    r := Some(transfers);
  }

  /** Parsing undoes printing: different transfers print differently. */
  lemma {:induction false} PrintInjective(ts: seq<Transfer>, us: seq<Transfer>)
    requires Print(ts) == Print(us)
    ensures ts == us
  {
    if ts != [] {
      PrintAt(ts, 0);
    }
    if us != [] {
      PrintAt(us, 0);
    }
    assert |ts| == |us|;
    forall j | 0 <= j < |ts|
      ensures ts[j] == us[j]
    {
      PrintAt(ts, j);
      PrintAt(us, j);
    }
  }
}
