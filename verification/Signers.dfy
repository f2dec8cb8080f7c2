/** ProcessSigners and ProcessFees: who signed a transaction, and which fees it paid. */
module Signers {
  import opened Options
  import opened FirstOccurrences

  /** The public key of a signer info: absent, not resolvable, resolved to something else, one key, or a multisig. */
  datatype PublicKey = NoKey | Unresolvable | NotAKey | Single(address: string) | Multisig(addresses: seq<string>)

  datatype Coin = Coin(denom: string, amount: int)

  datatype Fee = Fee(payer: string, amounts: seq<Coin>)

  datatype SignerInfo = SignerInfo(key: PublicKey, sequence: nat, mode: string)

  datatype AuthInfo = AuthInfo(infos: seq<SignerInfo>, fee: Option<Fee>)

  function Payer(auth: AuthInfo): string { if auth.fee.Some? then auth.fee.value.payer else "" }

  // ---------------------------------------------------------------------------------------------
  // ProcessSigners
  // ---------------------------------------------------------------------------------------------

  function AddressesOf(key: PublicKey): seq<string> {
    match key
    case Single(address) => [address]
    case Multisig(addresses) => addresses
    case _ => []
  }

  /** The addresses of the first `n` signer infos. */
  function KeyAddresses(infos: seq<SignerInfo>, n: nat): seq<string>
    requires n <= |infos|
  {
    if n == 0 then [] else KeyAddresses(infos, n - 1) + AddressesOf(infos[n - 1].key)
  }

  /** A row of tx_signer_info. */
  datatype InfoRow = InfoRow(address: Option<string>, sequence: nat, mode: string)

  function LastOf(addresses: seq<string>): Option<string> {
    if addresses == [] then None else Some(addresses[|addresses| - 1])
  }

  /** One row per signer info with a key; for a multisig, the address of its last key. */
  function InfoRows(infos: seq<SignerInfo>, n: nat): seq<InfoRow>
    requires n <= |infos|
  {
    if n == 0 then []
    else
      var info := infos[n - 1];
      if info.key.NoKey? then InfoRows(infos, n - 1)
      else InfoRows(infos, n - 1) + [InfoRow(LastOf(AddressesOf(info.key)), info.sequence, info.mode)]
  }

  lemma InfosNext(infos: seq<SignerInfo>, n: nat)
    requires n < |infos|
    ensures var info := infos[n];
            InfoRows(infos, n + 1)
            == if info.key.NoKey? then InfoRows(infos, n)
               else InfoRows(infos, n) + [InfoRow(LastOf(AddressesOf(info.key)), info.sequence, info.mode)]
  {
  }

  lemma KeysFrom(infos: seq<SignerInfo>)
    ensures KeyAddresses(infos, 0) == [] && InfoRows(infos, 0) == []
  {
  }

  lemma KeysNext(infos: seq<SignerInfo>, n: nat)
    requires n < |infos|
    ensures KeyAddresses(infos, n + 1) == KeyAddresses(infos, n) + AddressesOf(infos[n].key)
    ensures infos[n].key.NoKey? ==> KeyAddresses(infos, n + 1) == KeyAddresses(infos, n)
  {
  }

  /** Everyone who signed, in the order of the code: signer infos, message signers, fee payer. */
  function AllSigners(auth: AuthInfo, messageSigners: seq<string>): seq<string> {
    KeyAddresses(auth.infos, |auth.infos|) + messageSigners + (if Payer(auth) != "" then [Payer(auth)] else [])
  }

  predicate Resolves(info: SignerInfo) { !info.key.Unresolvable? && !info.key.NotAKey? }

  /** The keys of the first `n` signer infos resolve. */
  ghost predicate AllResolve(infos: seq<SignerInfo>, n: nat) {
    forall i :: 0 <= i < n && i < |infos| ==> Resolves(infos[i])
  }

  function Elements(s: seq<string>): set<string> { set x | x in s }

  lemma ElementsNext(s: seq<string>, x: string)
    ensures Elements(s + [x]) == Elements(s) + {x}
    ensures x in Elements(s) <==> x in s
  {
  }

  lemma NobodyYet()
    ensures Dedup<string>([]) == [] && Elements([]) == {}
  {
  }

  /** Append the addresses that are new; `seen` is the key set of the source's map, `last` the last address. */
  method AddAll(signers0: seq<string>, seen0: set<string>, addresses: seq<string>, ghost before: seq<string>)
    returns (signers: seq<string>, seen: set<string>, last: Option<string>)
    requires signers0 == Dedup(before) && seen0 == Elements(before)
    ensures signers == Dedup(before + addresses) && seen == Elements(before + addresses)
    ensures last == LastOf(addresses)
  {
    hide Dedup, Elements;
    signers, seen, last := signers0, seen0, None;
    assert before + addresses[..0] == before;
    for i := 0 to |addresses|
      invariant signers == Dedup(before + addresses[..i]) && seen == Elements(before + addresses[..i])
      invariant last == LastOf(addresses[..i])
    {
      ghost var sofar := before + addresses[..i];
      DedupNext(sofar, addresses[i]);
      ElementsNext(sofar, addresses[i]);
      assert before + addresses[..i + 1] == sofar + [addresses[i]];
      if addresses[i] !in seen {
        signers := signers + [addresses[i]];
      }
      seen := seen + {addresses[i]};
      last := Some(addresses[i]);
    }
    assert addresses[..|addresses|] == addresses;
  }

  // ---------------------------------------------------------------------------------------------
  // Who is in the list, and in which order
  // ---------------------------------------------------------------------------------------------

  /** Where a signer comes from: address `k` of the key of signer info `i`, message signer `m`, or the fee payer. */
  datatype Source = FromKey(i: nat, k: nat) | FromMessage(m: nat) | FromPayer

  predicate Names(auth: AuthInfo, messageSigners: seq<string>, src: Source, a: string) {
    match src
    case FromKey(i, k) =>
      && i < |auth.infos|
      && (|| (auth.infos[i].key == Single(a) && k == 0)
          || (auth.infos[i].key.Multisig? && k < |auth.infos[i].key.addresses| && auth.infos[i].key.addresses[k] == a))
    case FromMessage(m) => m < |messageSigners| && messageSigners[m] == a
    case FromPayer => a != "" && auth.fee.Some? && auth.fee.value.payer == a
  }

  /** Keys by signer info and position, then message signers by position, then the payer. */
  predicate Earlier(a: Source, b: Source) {
    match (a, b)
    case (FromKey(i, k), FromKey(j, l)) => i < j || (i == j && k < l)
    case (FromKey(_, _), _) => true
    case (FromMessage(m), FromMessage(n)) => m < n
    case (FromMessage(_), FromPayer) => true
    case _ => false
  }

  /** The first place at which the address is named. */
  ghost predicate FirstNamed(auth: AuthInfo, messageSigners: seq<string>, src: Source, a: string) {
    && Names(auth, messageSigners, src, a)
    && forall other :: Names(auth, messageSigners, other, a) && other != src ==> Earlier(src, other)
  }

  /** Exactly the named addresses, without repetition, in the order in which they are first named. */
  ghost predicate SignersInOrder(auth: AuthInfo, messageSigners: seq<string>, signers: seq<string>) {
    && (forall a :: a in signers <==> exists src :: Names(auth, messageSigners, src, a))
    && (forall x, y :: 0 <= x < y < |signers| ==> signers[x] != signers[y])
    && (forall a :: a in signers ==> exists src :: FirstNamed(auth, messageSigners, src, a))
    && (forall x, y, src, other :: 0 <= x < y < |signers| ==>
          FirstNamed(auth, messageSigners, src, signers[x]) && FirstNamed(auth, messageSigners, other, signers[y]) ==>
          Earlier(src, other))
  }

  /** The position of a source in the list of all signers. */
  function PositionOf(auth: AuthInfo, messageSigners: seq<string>, src: Source): nat
  {
    match src
    case FromKey(i, k) => if i <= |auth.infos| then |KeyAddresses(auth.infos, i)| + k else 0
    case FromMessage(m) => |KeyAddresses(auth.infos, |auth.infos|)| + m
    case FromPayer => |KeyAddresses(auth.infos, |auth.infos|)| + |messageSigners|
  }

  lemma {:induction false} KeyAt(infos: seq<SignerInfo>, n: nat, i: nat, k: nat)
    requires i < n <= |infos| && k < |AddressesOf(infos[i].key)|
    ensures var f := |KeyAddresses(infos, i)| + k;
            && f < |KeyAddresses(infos, n)| && KeyAddresses(infos, n)[f] == AddressesOf(infos[i].key)[k]
            && |KeyAddresses(infos, i + 1)| <= |KeyAddresses(infos, n)|
    decreases n
  {
    if i < n - 1 {
      KeyAt(infos, n - 1, i, k);
    }
  }

  lemma {:induction false} KeyFind(infos: seq<SignerInfo>, n: nat, f: nat) returns (i: nat, k: nat)
    requires n <= |infos| && f < |KeyAddresses(infos, n)|
    ensures i < n && k < |AddressesOf(infos[i].key)| && f == |KeyAddresses(infos, i)| + k
    ensures KeyAddresses(infos, n)[f] == AddressesOf(infos[i].key)[k]
    decreases n
  {
    if f < |KeyAddresses(infos, n - 1)| {
      i, k := KeyFind(infos, n - 1, f);
    } else {
      i, k := n - 1, f - |KeyAddresses(infos, n - 1)|;
    }
  }

  lemma NamedAt(auth: AuthInfo, messageSigners: seq<string>, src: Source, a: string)
    requires Names(auth, messageSigners, src, a)
    ensures var all := AllSigners(auth, messageSigners);
            PositionOf(auth, messageSigners, src) < |all| && all[PositionOf(auth, messageSigners, src)] == a
  {
    hide KeyAddresses;
    if src.FromKey? {
      KeyAt(auth.infos, |auth.infos|, src.i, src.k);
    }
  }

  lemma SourceOf(auth: AuthInfo, messageSigners: seq<string>, f: nat) returns (src: Source)
    requires f < |AllSigners(auth, messageSigners)|
    ensures Names(auth, messageSigners, src, AllSigners(auth, messageSigners)[f])
    ensures PositionOf(auth, messageSigners, src) == f
  {
    hide KeyAddresses;
    var keys := |KeyAddresses(auth.infos, |auth.infos|)|;
    if f < keys {
      var i, k := KeyFind(auth.infos, |auth.infos|, f);
      src := FromKey(i, k);
    } else if f < keys + |messageSigners| {
      src := FromMessage(f - keys);
    } else {
      src := FromPayer;
    }
  }

  lemma EarlierMeansBefore(auth: AuthInfo, messageSigners: seq<string>, src: Source, a: string,
                           other: Source, b: string)
    requires Names(auth, messageSigners, src, a) && Names(auth, messageSigners, other, b)
    ensures Earlier(src, other)
            <==> PositionOf(auth, messageSigners, src) < PositionOf(auth, messageSigners, other)
    ensures src == other
            <==> PositionOf(auth, messageSigners, src) == PositionOf(auth, messageSigners, other)
  {
    hide KeyAddresses;
    if src.FromKey? {
      KeyAt(auth.infos, |auth.infos|, src.i, src.k);
      KeysNext(auth.infos, src.i);
    }
    if other.FromKey? {
      KeyAt(auth.infos, |auth.infos|, other.i, other.k);
      KeysNext(auth.infos, other.i);
    }
    if src.FromKey? && other.FromKey? {
      if src.i < other.i {
        KeyAt(auth.infos, other.i, src.i, src.k);
      } else if other.i < src.i {
        KeyAt(auth.infos, src.i, other.i, other.k);
      }
    }
  }

  /** The place at which an address is first named is its first occurrence in the list of all signers. */
  lemma FirstIsFirst(auth: AuthInfo, messageSigners: seq<string>, src: Source, a: string)
    requires FirstNamed(auth, messageSigners, src, a)
    ensures FirstAt(AllSigners(auth, messageSigners), a, PositionOf(auth, messageSigners, src))
  {
    hide AllSigners, Names, PositionOf, Earlier;
    var all, f := AllSigners(auth, messageSigners), PositionOf(auth, messageSigners, src);
    NamedAt(auth, messageSigners, src, a);
    forall g | 0 <= g < f
      ensures all[g] != a
    {
      var other := SourceOf(auth, messageSigners, g);
      if all[g] == a {
        EarlierMeansBefore(auth, messageSigners, src, a, other, a);
      }
    }
  }

  lemma {:induction false} LeastIndex(s: seq<string>, a: string) returns (f: nat)
    requires a in s
    ensures FirstAt(s, a, f) && forall g :: 0 <= g < f ==> s[g] != a
    decreases |s|
  {
    var front := s[..|s| - 1];
    if a in front {
      f := LeastIndex(front, a);
      assert s[..f] == front[..f];
    } else {
      f := |s| - 1;
    }
  }

  lemma FirstExists(auth: AuthInfo, messageSigners: seq<string>, a: string) returns (src: Source)
    requires a in AllSigners(auth, messageSigners)
    ensures FirstNamed(auth, messageSigners, src, a)
  {
    hide AllSigners, Names, PositionOf, Earlier;
    var all := AllSigners(auth, messageSigners);
    var f := LeastIndex(all, a);
    src := SourceOf(auth, messageSigners, f);
    forall other | Names(auth, messageSigners, other, a) && other != src
      ensures Earlier(src, other)
    {
      NamedAt(auth, messageSigners, other, a);
      EarlierMeansBefore(auth, messageSigners, src, a, other, a);
    }
  }

  lemma DedupInOrder(auth: AuthInfo, messageSigners: seq<string>)
    ensures SignersInOrder(auth, messageSigners, Dedup(AllSigners(auth, messageSigners)))
  {
    hide AllSigners, Names, PositionOf, Earlier, FirstNamed, FirstAt, Dedup;
    var all := AllSigners(auth, messageSigners);
    var signers := Dedup(all);
    DedupExact(all);
    forall a
      ensures a in signers <==> exists src :: Names(auth, messageSigners, src, a)
    {
      if a in all {
        var f :| 0 <= f < |all| && all[f] == a;
        var src := SourceOf(auth, messageSigners, f);
      }
      if src :| Names(auth, messageSigners, src, a) {
        NamedAt(auth, messageSigners, src, a);
      }
    }
    forall a | a in signers
      ensures exists src :: FirstNamed(auth, messageSigners, src, a)
    {
      var src := FirstExists(auth, messageSigners, a);
    }
    forall x, y, src, other | 0 <= x < y < |signers| && FirstNamed(auth, messageSigners, src, signers[x])
                              && FirstNamed(auth, messageSigners, other, signers[y])
      ensures Earlier(src, other)
    {
      FirstIsFirst(auth, messageSigners, src, signers[x]);
      FirstIsFirst(auth, messageSigners, other, signers[y]);
      FirstNames(auth, messageSigners, src, signers[x]);
      FirstNames(auth, messageSigners, other, signers[y]);
      EarlierMeansBefore(auth, messageSigners, src, signers[x], other, signers[y]);
    }
  }

  lemma FirstNames(auth: AuthInfo, messageSigners: seq<string>, src: Source, a: string)
    requires FirstNamed(auth, messageSigners, src, a)
    ensures Names(auth, messageSigners, src, a)
  {
  }

  // ---------------------------------------------------------------------------------------------
  // The rows of the signer infos
  // ---------------------------------------------------------------------------------------------

  /** How many of the first `n` signer infos have a key. */
  function WithKey(infos: seq<SignerInfo>, n: nat): nat
    requires n <= |infos|
  {
    if n == 0 then 0 else WithKey(infos, n - 1) + if infos[n - 1].key.NoKey? then 0 else 1
  }

  /** The row has the info's own sequence and mode, and the address of its key, for a multisig that of the last one. */
  predicate RowOf(row: InfoRow, info: SignerInfo) {
    && row.sequence == info.sequence && row.mode == info.mode
    && (info.key.Single? ==> row.address == Some(info.key.address))
    && (info.key.Multisig? ==>
          var many := info.key.addresses;
          row.address == if many == [] then None else Some(many[|many| - 1]))
  }

  /** The signer info `i`, if it has a key, has a row behind those of the infos before it. */
  lemma {:induction false} InfoRowAt(infos: seq<SignerInfo>, n: nat, i: nat)
    requires i < n <= |infos| && !infos[i].key.NoKey?
    ensures |InfoRows(infos, n)| == WithKey(infos, n)
    ensures WithKey(infos, i) < |InfoRows(infos, n)| && RowOf(InfoRows(infos, n)[WithKey(infos, i)], infos[i])
    decreases n
  {
    InfoRowCount(infos, n);
    InfoRowCount(infos, n - 1);
    hide InfoRows, WithKey;
    InfosNext(infos, n - 1);
    if i < n - 1 {
      InfoRowAt(infos, n - 1, i);
    }
  }

  lemma {:induction false} InfoRowCount(infos: seq<SignerInfo>, n: nat)
    requires n <= |infos|
    ensures |InfoRows(infos, n)| == WithKey(infos, n)
    decreases n
  {
    if n > 0 {
      InfoRowCount(infos, n - 1);
    }
  }

  /** The loop over the signer infos, up to the first key that does not resolve. */
  method ReadInfos(infos: seq<SignerInfo>)
    returns (signers: seq<string>, seen: set<string>, rows: seq<InfoRow>, end: nat)
    ensures end <= |infos| && AllResolve(infos, end) && (end < |infos| ==> !Resolves(infos[end]))
    ensures signers == Dedup(KeyAddresses(infos, end)) && seen == Elements(KeyAddresses(infos, end))
    ensures rows == InfoRows(infos, end)
  {
    hide Dedup, Elements, KeyAddresses, InfoRows;
    signers, seen, rows := [], {}, [];
    NobodyYet();
    KeysFrom(infos);
    for i := 0 to |infos|
      invariant AllResolve(infos, i)
      invariant signers == Dedup(KeyAddresses(infos, i)) && seen == Elements(KeyAddresses(infos, i))
      invariant rows == InfoRows(infos, i)
    {
      KeysNext(infos, i);
      InfosNext(infos, i);
      if infos[i].key.NoKey? { continue; }
      if !Resolves(infos[i]) { return signers, seen, rows, i; }
      var address;
      var addresses := if infos[i].key.Single? then [infos[i].key.address] else infos[i].key.addresses;
      signers, seen, address := AddAll(signers, seen, addresses, KeyAddresses(infos, i));
      rows := rows + [InfoRow(address, infos[i].sequence, infos[i].mode)];
    }
    end := |infos|;
  }

  /**
   ProcessSigners.  When every key resolves, the list holds exactly the addresses of the keys, the message signers and
   the payer, in the order in which they are first named, and there is a row for each signer info with a key.  Otherwise
   the first key that does not resolve decides: an unresolvable one is an error, one that resolves to something else
   yields two empty lists without an error.
   */
  method ProcessSigners(auth: AuthInfo, messageSigners: seq<string>) returns (r: Option<(seq<string>, seq<InfoRow>)>)
    ensures AllResolve(auth.infos, |auth.infos|) ==>
              && r == Some((Dedup(AllSigners(auth, messageSigners)), InfoRows(auth.infos, |auth.infos|)))
              && SignersInOrder(auth, messageSigners, r.value.0)
    ensures forall i: nat :: i < |auth.infos| && AllResolve(auth.infos, i) && !Resolves(auth.infos[i]) ==>
              r == if auth.infos[i].key.Unresolvable? then None else Some(([], []))
  {
    hide Dedup, Elements, KeyAddresses, InfoRows, SignersInOrder;
    DedupInOrder(auth, messageSigners);
    var infos := auth.infos;
    var signers, seen, rows, end := ReadInfos(infos);
    if end < |infos| {
      return if infos[end].key.Unresolvable? then None else Some(([], []));
    }
    ghost var before := KeyAddresses(infos, |infos|);
    var last;
    signers, seen, last := AddAll(signers, seen, messageSigners, before);
    if Payer(auth) != "" {
      signers, seen, last := AddAll(signers, seen, [Payer(auth)], before + messageSigners);
    } else {
      assert before + messageSigners + [] == before + messageSigners;
    }
    r := Some((signers, rows));
  }

  // ---------------------------------------------------------------------------------------------
  // ProcessFees
  // ---------------------------------------------------------------------------------------------

  datatype FeeRow = FeeRow(coin: Coin, payer: string)

  /** The named payer, else the first signer, else the empty address. */
  function PayerAddress(payer: string, signers: seq<string>): string {
    if payer != "" then payer else if |signers| > 0 then signers[0] else ""
  }

  /** The coins with a non-zero amount, in order. */
  function NonZero(coins: seq<Coin>, n: nat): seq<Coin>
    requires n <= |coins|
  {
    if n == 0 then []
    else NonZero(coins, n - 1) + (if coins[n - 1].amount != 0 then [coins[n - 1]] else [])
  }

  function Total(coins: seq<Coin>, denom: string): int {
    if coins == [] then 0
    else
      var last := coins[|coins| - 1];
      Total(coins[..|coins| - 1], denom) + (if last.denom == denom then last.amount else 0)
  }

  function CoinsOf(rows: seq<FeeRow>): seq<Coin> { seq(|rows|, i requires 0 <= i < |rows| => rows[i].coin) }

  /** `kept` are the non-zero ones of the first `n` coins: `from` gives their positions, ascending, none left out. */
  ghost predicate KeepsOrder(coins: seq<Coin>, n: nat, kept: seq<Coin>, from: seq<nat>)
    requires n <= |coins|
  {
    && |from| == |kept|
    && (forall i :: 0 <= i < |kept| ==> from[i] < n && kept[i] == coins[from[i]] && kept[i].amount != 0)
    && (forall i, j :: 0 <= i < j < |from| ==> from[i] < from[j])
    && (forall c :: 0 <= c < n && coins[c].amount != 0 ==> c in from)
  }

  lemma {:induction false} NonZeroExact(coins: seq<Coin>, n: nat) returns (from: seq<nat>)
    requires n <= |coins|
    ensures KeepsOrder(coins, n, NonZero(coins, n), from)
    decreases n
  {
    from := [];
    if n > 0 {
      hide KeepsOrder;
      from := NonZeroExact(coins, n - 1);
      KeepsNext(coins, n - 1, NonZero(coins, n - 1), from);
      if coins[n - 1].amount != 0 {
        from := from + [n - 1];
      } else {
        assert NonZero(coins, n) == NonZero(coins, n - 1);
      }
    }
  }

  lemma KeepsNext(coins: seq<Coin>, n: nat, kept: seq<Coin>, from: seq<nat>)
    requires n < |coins| && KeepsOrder(coins, n, kept, from)
    ensures if coins[n].amount != 0 then KeepsOrder(coins, n + 1, kept + [coins[n]], from + [n])
            else KeepsOrder(coins, n + 1, kept, from)
  {
  }

  /**
   One row per coin with an amount other than 0, in order; the payer of each is the named one, else the first signer,
   else the empty address.
   */
  ghost predicate FeesInOrder(fee: Fee, signers: seq<string>, rows: seq<FeeRow>) {
    && (exists from :: KeepsOrder(fee.amounts, |fee.amounts|, CoinsOf(rows), from))
    && forall i :: 0 <= i < |rows| ==>
         && (fee.payer != "" ==> rows[i].payer == fee.payer)
         && (fee.payer == "" && signers != [] ==> rows[i].payer == signers[0])
         && (fee.payer == "" && signers == [] ==> rows[i].payer == "")
  }

  /** ProcessFees: one row per non-zero coin, all with the same payer. */
  method ProcessFees(auth: AuthInfo, signers: seq<string>) returns (rows: seq<FeeRow>)
    ensures CoinsOf(rows) == if auth.fee.None? then [] else NonZero(auth.fee.value.amounts, |auth.fee.value.amounts|)
    ensures forall i :: 0 <= i < |rows| ==> rows[i].payer == PayerAddress(Payer(auth), signers)
    ensures auth.fee.None? ==> rows == []
    ensures auth.fee.Some? ==> FeesInOrder(auth.fee.value, signers, rows)
  {
    if auth.fee.Some? {
      ghost var from := NonZeroExact(auth.fee.value.amounts, |auth.fee.value.amounts|);
    }
    hide KeepsOrder, NonZero;
    rows := [];
    if auth.fee.None? { return; }
    var coins := auth.fee.value.amounts;
    NonZeroNone(coins);
    for i := 0 to |coins|
      invariant CoinsOf(rows) == NonZero(coins, i)
      invariant forall k :: 0 <= k < |rows| ==> rows[k].payer == PayerAddress(Payer(auth), signers)
    {
      NonZeroNext(coins, i);
      if coins[i].amount != 0 {
        var payer := "";
        if Payer(auth) != "" {
          payer := Payer(auth);
        } else if |signers| > 0 {
          payer := signers[0];
        }
        rows := rows + [FeeRow(coins[i], payer)];
      }
    }
  }

  lemma NonZeroNone(coins: seq<Coin>)
    ensures NonZero(coins, 0) == []
  {
  }

  lemma NonZeroNext(coins: seq<Coin>, n: nat)
    requires n < |coins|
    ensures NonZero(coins, n + 1) == if coins[n].amount != 0 then NonZero(coins, n) + [coins[n]] else NonZero(coins, n)
  {
  }

  lemma TotalNext(coins: seq<Coin>, coin: Coin, denom: string)
    ensures Total(coins + [coin], denom) == Total(coins, denom) + (if coin.denom == denom then coin.amount else 0)
  {
    assert (coins + [coin])[..|coins|] == coins;
  }

  /** Dropping zero coins conserves the sum of every denom. */
  lemma {:induction false} FeesConserved(coins: seq<Coin>, n: nat, denom: string)
    requires n <= |coins|
    ensures Total(NonZero(coins, n), denom) == Total(coins[..n], denom)
    decreases n
  {
    hide Total;
    if n == 0 {
      assert coins[..0] == NonZero(coins, 0);
    } else {
      FeesConserved(coins, n - 1, denom);
      assert coins[..n] == coins[..n - 1] + [coins[n - 1]];
      TotalNext(coins[..n - 1], coins[n - 1], denom);
      TotalNext(NonZero(coins, n - 1), coins[n - 1], denom);
      assert coins[n - 1].amount == 0 ==> NonZero(coins, n) == NonZero(coins, n - 1);
    }
  }

  /** The payer of every fee is a signer, unless nobody signed. */
  lemma PayerSigned(auth: AuthInfo, messageSigners: seq<string>)
    ensures var signers := Dedup(AllSigners(auth, messageSigners));
            signers != [] ==> PayerAddress(Payer(auth), signers) in signers
  {
    var all := AllSigners(auth, messageSigners);
    DedupExact(all);
    assert Payer(auth) != "" ==> Payer(auth) in all;
  }
}
