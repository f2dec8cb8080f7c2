/**
 Tables with a unique key and generated ids, and the statement pair
 `INSERT ... ON CONFLICT DO NOTHING RETURNING id` / `SELECT id ... WHERE key` as get-or-create.
 */
module Tables {

  datatype Row<K, V> = Row(key: K, value: V)

  /** `index` is the unique index, `rows` the rows by id, `next` the id sequence. */
  datatype Table<!K, V> = Table(index: map<K, nat>, rows: map<nat, Row<K, V>>, next: nat)

  ghost predicate Valid<K, V>(t: Table<K, V>) {
    && (forall k :: k in t.index ==> t.index[k] in t.rows && t.rows[t.index[k]].key == k)
    && (forall id :: id in t.rows ==> id < t.next && t.rows[id].key in t.index && t.index[t.rows[id].key] == id)
  }

  /** No row is changed or removed. */
  ghost predicate Extends<K, V>(t: Table<K, V>, t': Table<K, V>) {
    && t.next <= t'.next
    && (forall k :: k in t.index ==> k in t'.index && t'.index[k] == t.index[k])
    && (forall id :: id in t.rows ==> id in t'.rows && t'.rows[id] == t.rows[id])
  }

  lemma ExtendsChain<K, V>(t: Table<K, V>, u: Table<K, V>, v: Table<K, V>)
    requires Extends(t, u) && Extends(u, v)
    ensures Extends(t, v)
  {
  }

  function Insert<K, V>(t: Table<K, V>, k: K, v: V): Table<K, V> {
    Table(t.index[k := t.next], t.rows[t.next := Row(k, v)], t.next + 1)
  }

  function GetOrCreate<K, V>(t: Table<K, V>, k: K, v: V): Table<K, V> {
    if k in t.index then t else Insert(t, k, v)
  }

  /** The id of the row with key `k`; 0 if there is none. */
  function IdOf<K, V>(t: Table<K, V>, k: K): nat { if k in t.index then t.index[k] else 0 }

  lemma GetOrCreateKeeps<K, V>(t: Table<K, V>, k: K, v: V)
    requires Valid(t)
    ensures var t' := GetOrCreate(t, k, v);
            && Valid(t') && Extends(t, t') && k in t'.index
            && (forall j :: j in t'.index ==> j == k || j in t.index)
            && (k !in t.index ==> t'.index[k] == t.next && t'.rows[t.next] == Row(k, v))
  {
  }

  // ---------------------------------------------------------------------------------------------
  // Requests collected group by group
  // ---------------------------------------------------------------------------------------------

  /** The first `n` groups, one after the other. */
  function Flatten<T>(groups: seq<seq<T>>, n: nat): seq<T>
    requires n <= |groups|
  {
    if n == 0 then [] else Flatten(groups, n - 1) + groups[n - 1]
  }

  /** Element `e` of group `p` is at position |Flatten(groups, p)| + e. */
  lemma {:induction false} FlattenAt<T>(groups: seq<seq<T>>, n: nat, p: nat, e: nat)
    requires p < n <= |groups| && e < |groups[p]|
    ensures var f := |Flatten(groups, p)| + e;
            f < |Flatten(groups, n)| && Flatten(groups, n)[f] == groups[p][e]
    decreases n
  {
    if p < n - 1 {
      FlattenAt(groups, n - 1, p, e);
    }
  }

  lemma {:induction false} FlattenFind<T>(groups: seq<seq<T>>, n: nat, f: nat) returns (p: nat, e: nat)
    requires n <= |groups| && f < |Flatten(groups, n)|
    ensures p < n && e < |groups[p]| && f == |Flatten(groups, p)| + e && Flatten(groups, n)[f] == groups[p][e]
    decreases n
  {
    var front := Flatten(groups, n - 1);
    if f < |front| {
      p, e := FlattenFind(groups, n - 1, f);
    } else {
      p, e := n - 1, f - |front|;
    }
  }

  // ---------------------------------------------------------------------------------------------
  // A level: rows below a parent, each with a name from a table of unique strings
  // ---------------------------------------------------------------------------------------------

  datatype Payload<E> = Payload(name: nat, extra: E)

  datatype Level<E> = Level(names: Table<string, ()>, rows: Table<(nat, nat), Payload<E>>)

  /** A row to be stored: parent id, position below the parent, name, and what else it carries. */
  datatype Request<E> = Request(parent: nat, position: nat, name: string, extra: E)

  function Key<E>(r: Request<E>): (nat, nat) { (r.parent, r.position) }

  ghost predicate ValidLevel<E>(l: Level<E>) { Valid(l.names) && Valid(l.rows) }

  ghost predicate ExtendsLevel<E>(l: Level<E>, l': Level<E>) { Extends(l.names, l'.names) && Extends(l.rows, l'.rows) }

  lemma ExtendsLevelChain<E>(l: Level<E>, m: Level<E>, n: Level<E>)
    requires ExtendsLevel(l, m) && ExtendsLevel(m, n)
    ensures ExtendsLevel(l, n)
  {
    hide Extends;
    ExtendsChain(l.names, m.names, n.names);
    ExtendsChain(l.rows, m.rows, n.rows);
  }

  function Put<E>(l: Level<E>, r: Request<E>): Level<E> {
    var names := GetOrCreate(l.names, r.name, ());
    Level(names, GetOrCreate(l.rows, Key(r), Payload(names.index[r.name], r.extra)))
  }

  /** The level after the first `n` requests. */
  function PutAll<E>(l: Level<E>, reqs: seq<Request<E>>, n: nat): Level<E>
    requires n <= |reqs|
  {
    if n == 0 then l else Put(PutAll(l, reqs, n - 1), reqs[n - 1])
  }

  /** The level has a row for every request. */
  ghost predicate Present<E>(l: Level<E>, reqs: seq<Request<E>>, n: nat)
    requires n <= |reqs|
  {
    forall i :: 0 <= i < n ==> reqs[i].name in l.names.index && Key(reqs[i]) in l.rows.index
  }

  /** The ids of the rows for the requests. */
  function Ids<E>(l: Level<E>, reqs: seq<Request<E>>): (ids: seq<nat>)
    ensures |ids| == |reqs|
  {
    seq(|reqs|, i requires 0 <= i < |reqs| => IdOf(l.rows, Key(reqs[i])))
  }

  ghost predicate DistinctKeys<E>(reqs: seq<Request<E>>, n: nat)
    requires n <= |reqs|
  {
    forall i, j :: 0 <= i < j < n ==> Key(reqs[i]) != Key(reqs[j])
  }

  /** The row says what the request said: its name, through the foreign key, and what else it carries. */
  ghost predicate Says<E>(l: Level<E>, id: nat, name: string, extra: E) {
    && id in l.rows.rows
    && l.rows.rows[id].value.extra == extra
    && l.rows.rows[id].value.name in l.names.rows
    && l.names.rows[l.rows.rows[id].value.name].key == name
  }

  /** Every row's name is a row of the names table. */
  ghost predicate NamesOk<E>(l: Level<E>) {
    forall id :: id in l.rows.rows ==> l.rows.rows[id].value.name in l.names.rows
  }

  lemma PutKeeps<E>(l: Level<E>, r: Request<E>)
    requires ValidLevel(l)
    ensures var l' := Put(l, r);
            && ValidLevel(l') && ExtendsLevel(l, l') && r.name in l'.names.index && Key(r) in l'.rows.index
            && (forall k :: k in l'.rows.index ==> k == Key(r) || k in l.rows.index)
            && (Key(r) !in l.rows.index ==> Says(l', l'.rows.index[Key(r)], r.name, r.extra))
  {
    var names := GetOrCreate(l.names, r.name, ());
    GetOrCreateKeeps(l.names, r.name, ());
    GetOrCreateKeeps(l.rows, Key(r), Payload(names.index[r.name], r.extra));
  }

  lemma PutNames<E>(l: Level<E>, r: Request<E>)
    requires ValidLevel(l) && NamesOk(l)
    ensures NamesOk(Put(l, r))
  {
    GetOrCreateKeeps(l.names, r.name, ());
  }

  lemma PresentStays<E>(l: Level<E>, l': Level<E>, reqs: seq<Request<E>>, n: nat)
    requires n <= |reqs| && Present(l, reqs, n) && ExtendsLevel(l, l')
    ensures Present(l', reqs, n)
    ensures n == |reqs| ==> Ids(l', reqs) == Ids(l, reqs)
  {
  }

  lemma {:induction false} PutAllKeeps<E>(l: Level<E>, reqs: seq<Request<E>>, n: nat)
    requires n <= |reqs| && ValidLevel(l)
    ensures var l' := PutAll(l, reqs, n);
            ValidLevel(l') && ExtendsLevel(l, l') && Present(l', reqs, n)
    ensures NamesOk(l) ==> NamesOk(PutAll(l, reqs, n))
    decreases n
  {
    hide Put, Valid, ExtendsLevel, NamesOk;
    if n == 0 {
      ExtendsSelf(l);
    } else {
      var mid := PutAll(l, reqs, n - 1);
      PutAllKeeps(l, reqs, n - 1);
      PutKeeps(mid, reqs[n - 1]);
      ExtendsLevelChain(l, mid, PutAll(l, reqs, n));
      PresentStays(mid, PutAll(l, reqs, n), reqs, n - 1);
      if NamesOk(l) {
        PutNames(mid, reqs[n - 1]);
      }
    }
  }

  lemma ExtendsSelf<E>(l: Level<E>)
    ensures ExtendsLevel(l, l)
  {
  }

  /** Only requested keys are added. */
  lemma {:induction false} PutAllAdds<E>(l: Level<E>, reqs: seq<Request<E>>, n: nat, k: (nat, nat))
    requires n <= |reqs| && ValidLevel(l) && k in PutAll(l, reqs, n).rows.index
    ensures k in l.rows.index || exists i :: 0 <= i < n && Key(reqs[i]) == k
    decreases n
  {
    hide Put, Valid, ExtendsLevel;
    if n > 0 {
      PutAllKeeps(l, reqs, n - 1);
      PutKeeps(PutAll(l, reqs, n - 1), reqs[n - 1]);
      if k != Key(reqs[n - 1]) {
        PutAllAdds(l, reqs, n - 1, k);
      }
    }
  }

  /** A request whose key is new is stored as asked. */
  lemma {:induction false} PutAllSays<E>(l: Level<E>, reqs: seq<Request<E>>, n: nat, i: nat)
    requires i < n <= |reqs| && ValidLevel(l) && NamesOk(l) && DistinctKeys(reqs, n) && Key(reqs[i]) !in l.rows.index
    ensures var l' := PutAll(l, reqs, n);
            Key(reqs[i]) in l'.rows.index && Says(l', l'.rows.index[Key(reqs[i])], reqs[i].name, reqs[i].extra)
    decreases n
  {
    hide Put, Says, NamesOk, ExtendsLevel, PutAll;
    var mid := PutAll(l, reqs, n - 1);
    PutNext(l, reqs, n - 1);
    PutAllKeeps(l, reqs, n - 1);
    PutKeeps(mid, reqs[n - 1]);
    var key := Key(reqs[i]);
    if i < n - 1 {
      PutAllSays(l, reqs, n - 1, i);
      SaysStays(mid, PutAll(l, reqs, n), mid.rows.index[key], reqs[i].name, reqs[i].extra);
      PresentStays(mid, PutAll(l, reqs, n), reqs, n - 1);
      IndexStays(mid, PutAll(l, reqs, n), key);
    } else if key in mid.rows.index {
      PutAllAdds(l, reqs, n - 1, key);
    }
  }

  lemma IndexStays<E>(l: Level<E>, l': Level<E>, key: (nat, nat))
    requires ExtendsLevel(l, l') && key in l.rows.index
    ensures key in l'.rows.index && l'.rows.index[key] == l.rows.index[key]
  {
  }

  /** What an existing row says never changes. */
  lemma SaysStays<E>(l: Level<E>, l': Level<E>, id: nat, name: string, extra: E)
    requires ExtendsLevel(l, l') && NamesOk(l) && id in l.rows.rows
    ensures Says(l', id, name, extra) <==> Says(l, id, name, extra)
  {
  }

  /** Group `p` holds requests below parent `ids[p]`, numbered from 0. */
  ghost predicate Grouped<E>(groups: seq<seq<Request<E>>>, ids: seq<nat>) {
    && |groups| == |ids|
    && (forall p, q :: 0 <= p < q < |ids| ==> ids[p] != ids[q])
    && (forall p, e :: 0 <= p < |groups| && 0 <= e < |groups[p]| ==> Key(groups[p][e]) == (ids[p], e))
  }

  lemma GroupedDistinct<E>(groups: seq<seq<Request<E>>>, ids: seq<nat>)
    requires Grouped(groups, ids)
    ensures DistinctKeys(Flatten(groups, |groups|), |Flatten(groups, |groups|)|)
  {
    var all := Flatten(groups, |groups|);
    forall f, g | 0 <= f < g < |all|
      ensures Key(all[f]) != Key(all[g])
    {
      var p, e := FlattenFind(groups, |groups|, f);
      var q, d := FlattenFind(groups, |groups|, g);
      assert Key(groups[p][e]) == (ids[p], e) && Key(groups[q][d]) == (ids[q], d);
      assert p < q || q < p || p == q;
    }
  }

  /** Different keys have different ids. */
  lemma IdsDistinct<E>(l: Level<E>, reqs: seq<Request<E>>)
    requires ValidLevel(l) && Present(l, reqs, |reqs|) && DistinctKeys(reqs, |reqs|)
    ensures forall i, j :: 0 <= i < j < |reqs| ==> Ids(l, reqs)[i] != Ids(l, reqs)[j]
    ensures forall i :: 0 <= i < |reqs| ==>
              Ids(l, reqs)[i] in l.rows.rows && l.rows.rows[Ids(l, reqs)[i]].key == Key(reqs[i])
  {
    forall i | 0 <= i < |reqs|
      ensures Ids(l, reqs)[i] in l.rows.rows && l.rows.rows[Ids(l, reqs)[i]].key == Key(reqs[i])
    {
      assert Key(reqs[i]) in l.rows.index;
    }
  }

  /** Requests whose rows are all there change nothing. */
  lemma {:induction false} PutAllAgain<E>(l: Level<E>, reqs: seq<Request<E>>, n: nat)
    requires n <= |reqs| && Present(l, reqs, n)
    ensures PutAll(l, reqs, n) == l
    decreases n
  {
    if n > 0 {
      PutAllAgain(l, reqs, n - 1);
    }
  }

  lemma PutNone<E>(l: Level<E>, reqs: seq<Request<E>>)
    ensures PutAll(l, reqs, 0) == l
  {
  }

  lemma PutNext<E>(l: Level<E>, reqs: seq<Request<E>>, n: nat)
    requires n < |reqs|
    ensures PutAll(l, reqs, n + 1) == Put(PutAll(l, reqs, n), reqs[n])
  {
  }

  /** The insert loops of IndexNewBlock: for each request two statement pairs, and the id that is scanned back. */
  method StoreRows<E>(l0: Level<E>, reqs: seq<Request<E>>) returns (l: Level<E>, ids: seq<nat>)
    requires ValidLevel(l0)
    ensures l == PutAll(l0, reqs, |reqs|) && ids == Ids(l, reqs)
  {
    hide PutAll, Valid;
    PutNone(l0, reqs);
    l, ids := l0, [];
    for i := 0 to |reqs|
      invariant l == PutAll(l0, reqs, i) && |ids| == i
      invariant Present(l, reqs, i) && forall k :: 0 <= k < i ==> ids[k] == IdOf(l.rows, Key(reqs[k]))
    {
      PutAllKeeps(l0, reqs, i);
      PutNext(l0, reqs, i);
      PutKeeps(l, reqs[i]);
      var r := reqs[i];
      var nameId: nat;
      if r.name !in l.names.index {
        nameId := l.names.next;
        l := l.(names := Insert(l.names, r.name, ()));
      } else {
        nameId := l.names.index[r.name];
      }
      var id: nat;
      if Key(r) !in l.rows.index {
        id := l.rows.next;
        l := l.(rows := Insert(l.rows, Key(r), Payload(nameId, r.extra)));
      } else {
        id := l.rows.index[Key(r)];
      }
      ids := ids + [id];
    }
  }
}
