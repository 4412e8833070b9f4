/** When merging a snapshot into the maps of a server leaves the state of a prefix of the log. */
module KvMerge {
  import opened KvState
  import opened KvSnapshots

  /** In this log `data` is the state after j commands and `s` that after d. */
  ghost predicate Explains(log: seq<Command>, j: nat, d: nat, data: Kv, s: Kv) {
    j <= |log| && d <= |log| && State(log[..j]) == data && State(log[..d]) == s
  }

  ghost predicate Explained(data: Kv, s: Kv) {
    exists log: seq<Command>, j: nat, d: nat :: Explains(log, j, d, data, s)
  }

  /** The snapshot covers the maps, or changes nothing in them. Both can be looked at before installing. */
  predicate Fits(data: Kv, s: Kv) {
    Covers(data, s) || Install(s, data) == s
  }

  /** The state is that of a prefix with at least j commands. */
  ghost predicate PrefixFrom(log: seq<Command>, j: nat, s: Kv) {
    exists n: nat :: j <= n <= |log| && s == State(log[..n])
  }

  /** Whatever log has led to the two, merging leaves the state of a prefix that has all of the snapshot. */
  ghost predicate Harmless(data: Kv, s: Kv) {
    forall log: seq<Command>, j: nat, d: nat | Explains(log, j, d, data, s) :: PrefixFrom(log, j, Install(s, data))
  }

  // ---------------------------------------------------------------- states along one log

  ghost predicate NoLower<K>(ids: map<K, int>, ids': map<K, int>) {
    forall client | client in ids :: client in ids' && ids[client] <= ids'[client]
  }

  lemma {:induction false} IdsGrow(log: seq<Command>, m: nat, n: nat)
    requires m <= n <= |log|
    ensures NoLower(State(log[..m]).ids, State(log[..n]).ids)
    decreases n
  {
    if m < n {
      IdsGrow(log, m, n - 1);
      assert log[..n] == log[..n - 1] + [log[n - 1]];
      FoldOneMore(EMPTY, log[..n - 1], log[n - 1]);
    }
  }

  lemma SameIds<K>(ids: map<K, int>, ids': map<K, int>)
    requires NoLower(ids, ids') && NoLower(ids', ids)
    ensures ids == ids'
  {
  }

  /** States of one log with equal numbers are equal: a write that takes effect raises a number. */
  lemma {:induction false} EqualIdsEqualStates(log: seq<Command>, m: nat, n: nat)
    requires m <= n <= |log| && State(log[..m]).ids == State(log[..n]).ids
    ensures State(log[..m]) == State(log[..n])
    decreases n
  {
    if m < n {
      IdsGrow(log, m, n - 1);
      IdsGrow(log, n - 1, n);
      SameIds(State(log[..n - 1]).ids, State(log[..m]).ids);
      EqualIdsEqualStates(log, m, n - 1);
      assert log[..n] == log[..n - 1] + [log[n - 1]];
      FoldOneMore(EMPTY, log[..n - 1], log[n - 1]);
    }
  }

  lemma EqualIds(log: seq<Command>, m: nat, n: nat)
    requires m <= |log| && n <= |log| && State(log[..m]).ids == State(log[..n]).ids
    ensures State(log[..m]) == State(log[..n])
  {
    if m <= n { EqualIdsEqualStates(log, m, n); } else { EqualIdsEqualStates(log, n, m); }
  }

  // ---------------------------------------------------------------- where merging is harmless

  lemma FittingIsPrefix(log: seq<Command>, j: nat, d: nat, data: Kv, s: Kv)
    requires Explains(log, j, d, data, s) && Fits(data, s)
    ensures PrefixFrom(log, j, Install(s, data))
  {
    InstallExactly(s, data);
    if d < j { InstallNewer(log, d, j); }
    assert Install(s, data) == State(log[..if Covers(data, s) then j else d]);
  }

  // ---------------------------------------------------------------- where the log at hand shows the harm

  lemma NumbersOfData(log: seq<Command>, j: nat, d: nat, data: Kv, s: Kv)
    requires Explains(log, j, d, data, s) && !Fits(data, s) && Install(s, data).ids == data.ids
    ensures !PrefixFrom(log, j, Install(s, data))
  {
    InstallExactly(s, data);
    forall n: nat | j <= n <= |log| ensures Install(s, data) != State(log[..n]) {
      if Install(s, data) == State(log[..n]) { EqualIds(log, j, n); }
    }
  }

  lemma NumbersOfState(log: seq<Command>, j: nat, d: nat, data: Kv, s: Kv)
    requires Explains(log, j, d, data, s) && !Fits(data, s) && Install(s, data).ids == s.ids
    ensures !PrefixFrom(log, j, Install(s, data))
  {
    forall n: nat | j <= n <= |log| ensures Install(s, data) != State(log[..n]) {
      if Install(s, data) == State(log[..n]) { EqualIds(log, d, n); }
    }
  }

  // ---------------------------------------------------------------- a log that shows the harm otherwise

  ghost predicate Lists<T(!new)>(list: seq<T>, all: set<T>) {
    forall x :: x in list <==> x in all
  }

  lemma {:induction false} Listed<T(!new)>(all: set<T>) returns (list: seq<T>)
    ensures Lists(list, all)
    decreases |all|
  {
    if all == {} {
      list := [];
    } else {
      var x :| x in all;
      var rest := Listed(all - {x});
      list := rest + [x];
    }
  }

  /** The listed entries of `top` over those of `under`. */
  ghost predicate Over<K(!new), V>(r: map<K, V>, under: map<K, V>, top: map<K, V>, list: seq<K>)
    requires forall key | key in list :: key in top
  {
    && (forall key :: key in r <==> key in under || key in list)
    && (forall key | key in r :: r[key] == if key in list then top[key] else under[key])
  }

  lemma OverOneMore<K(!new), V>(r: map<K, V>, under: map<K, V>, top: map<K, V>, list: seq<K>, key: K)
    requires (forall k | k in list :: k in top) && key in top && Over(r, under, top, list)
    ensures Over(r[key := top[key]], under, top, list + [key])
  {
  }

  lemma OverAll<K(!new), V>(r: map<K, V>, under: map<K, V>, top: map<K, V>, list: seq<K>)
    requires Lists(list, top.Keys) && under.Keys <= top.Keys && Over(r, under, top, list)
    ensures r == top
  {
  }

  /** A command that only counts. */
  function Raise(client: int, msgId: int): Command {
    Write("", "", "", client, msgId)
  }

  ghost function RaiseAll(ids: map<int, int>, clients: seq<int>): seq<Command>
    requires forall client | client in clients :: client in ids
  {
    if clients == [] then [] else
      var n := |clients| - 1;
      RaiseAll(ids, clients[..n]) + [Raise(clients[n], ids[clients[n]])]
  }

  lemma RaisesOne(y: Kv, client: int, msgId: int)
    requires client in y.ids ==> y.ids[client] <= msgId
    ensures ApplyOne(y, Raise(client, msgId)) == Kv(y.storage, y.ids[client := msgId])
  {
    if client in y.ids && y.ids[client] == msgId { UpdateSame(y.ids, client); }
  }

  lemma UpdateSame<K, V>(m: map<K, V>, key: K)
    requires key in m
    ensures m[key := m[key]] == m
  {
  }

  lemma {:induction false} RaisedAll(x: Kv, ids: map<int, int>, clients: seq<int>)
    requires (forall client | client in clients :: client in ids) && NoLower(x.ids, ids)
    ensures var r := Fold(x, RaiseAll(ids, clients));
            r.storage == x.storage && Over(r.ids, x.ids, ids, clients) && NoLower(r.ids, ids)
  {
    if clients != [] {
      var n := |clients| - 1;
      RaisedAll(x, ids, clients[..n]);
      var y, client := Fold(x, RaiseAll(ids, clients[..n])), clients[n];
      FoldOneMore(x, RaiseAll(ids, clients[..n]), Raise(client, ids[client]));
      RaisesOne(y, client, ids[client]);
      OverOneMore(y.ids, x.ids, ids, clients[..n], client);
      assert clients == clients[..n] + [client];
    }
  }

  /** One client puts these keys, with numbers from `msgId` on. */
  ghost function PutAll(storage: map<string, string>, keys: seq<string>, client: int, msgId: int): seq<Command>
    requires forall key | key in keys :: key in storage
  {
    if keys == [] then [] else
      var n := |keys| - 1;
      PutAll(storage, keys[..n], client, msgId) + [Write("Put", keys[n], storage[keys[n]], client, msgId + n)]
  }

  lemma PutsOne(y: Kv, key: string, value: string, client: int, msgId: int)
    requires client in y.ids ==> y.ids[client] < msgId
    ensures ApplyOne(y, Write("Put", key, value, client, msgId)) == Kv(y.storage[key := value], y.ids[client := msgId])
  {
  }

  /** After n writes of the client with numbers from `msgId` on. */
  function Numbered<K>(ids: map<K, int>, client: K, msgId: int, n: nat): map<K, int> {
    if n == 0 then ids else ids[client := msgId + n - 1]
  }

  lemma NumberedOneMore<K>(ids: map<K, int>, client: K, msgId: int, n: nat)
    requires client in ids ==> ids[client] < msgId
    ensures Numbered(ids, client, msgId, n)[client := msgId + n] == Numbered(ids, client, msgId, n + 1)
    ensures var r := Numbered(ids, client, msgId, n); client in r ==> r[client] < msgId + n
  {
  }

  /** What x becomes when the client puts the listed keys. */
  ghost predicate Put(r: Kv, x: Kv, storage: map<string, string>, keys: seq<string>, client: int, msgId: int)
    requires forall key | key in keys :: key in storage
  {
    Over(r.storage, x.storage, storage, keys) && r.ids == Numbered(x.ids, client, msgId, |keys|)
  }

  lemma PutsOneMore(y: Kv, x: Kv, storage: map<string, string>, keys: seq<string>, key: string, client: int, msgId: int)
    requires (forall k | k in keys :: k in storage) && key in storage && (client in x.ids ==> x.ids[client] < msgId)
    requires Put(y, x, storage, keys, client, msgId)
    ensures var r := ApplyOne(y, Write("Put", key, storage[key], client, msgId + |keys|));
            Put(r, x, storage, keys + [key], client, msgId)
  {
    NumberedOneMore(x.ids, client, msgId, |keys|);
    PutsOne(y, key, storage[key], client, msgId + |keys|);
    OverOneMore(y.storage, x.storage, storage, keys, key);
  }

  lemma PutAllOneMore(x: Kv, storage: map<string, string>, keys: seq<string>, key: string, client: int, msgId: int)
    requires (forall k | k in keys :: k in storage) && key in storage
    ensures var last := Write("Put", key, storage[key], client, msgId + |keys|);
            Fold(x, PutAll(storage, keys + [key], client, msgId))
            == ApplyOne(Fold(x, PutAll(storage, keys, client, msgId)), last)
  {
    assert (keys + [key])[..|keys|] == keys;
    FoldOneMore(x, PutAll(storage, keys, client, msgId), Write("Put", key, storage[key], client, msgId + |keys|));
  }

  lemma PutsNext(x: Kv, storage: map<string, string>, keys: seq<string>, key: string, client: int, msgId: int)
    requires (forall k | k in keys :: k in storage) && key in storage && (client in x.ids ==> x.ids[client] < msgId)
    requires Put(Fold(x, PutAll(storage, keys, client, msgId)), x, storage, keys, client, msgId)
    ensures Put(Fold(x, PutAll(storage, keys + [key], client, msgId)), x, storage, keys + [key], client, msgId)
  {
    PutAllOneMore(x, storage, keys, key, client, msgId);
    PutsOneMore(Fold(x, PutAll(storage, keys, client, msgId)), x, storage, keys, key, client, msgId);
  }

  lemma {:induction false} PutsAll(x: Kv, storage: map<string, string>, keys: seq<string>, client: int, msgId: int)
    requires (forall key | key in keys :: key in storage) && (client in x.ids ==> x.ids[client] < msgId)
    ensures Put(Fold(x, PutAll(storage, keys, client, msgId)), x, storage, keys, client, msgId)
  {
    if keys != [] {
      var front, key := keys[..|keys| - 1], keys[|keys| - 1];
      assert keys == front + [key];
      PutsAll(x, storage, front, client, msgId);
      PutsNext(x, storage, front, key, client, msgId);
    }
  }

  /** From `data` to `s`: client a comes first, then client b puts every key, then all numbers are raised. */
  ghost function Detour(s: Kv, a: int, b: int, keys: seq<string>, clients: seq<int>): seq<Command>
    requires a in s.ids && b in s.ids
    requires (forall key | key in keys :: key in s.storage) && forall client | client in clients :: client in s.ids
  {
    [Raise(a, s.ids[a])] + PutAll(s.storage, keys, b, s.ids[b] - |keys|) + RaiseAll(s.ids, clients)
  }

  /** The snapshot is older than the state: client a has moved on since, and client b is new. */
  ghost predicate Behind(data: Kv, s: Kv, a: int, b: int) {
    && data.storage.Keys <= s.storage.Keys && NoLower(data.ids, s.ids)
    && a in data.ids && data.ids[a] < s.ids[a] && b in s.ids && b !in data.ids
  }

  lemma DetourLeads(data: Kv, s: Kv, a: int, b: int, keys: seq<string>, clients: seq<int>)
    requires Behind(data, s, a, b)
    requires Lists(keys, s.storage.Keys) && Lists(clients, s.ids.Keys)
    ensures Fold(data, Detour(s, a, b, keys, clients)) == s
  {
    var first, puts := [Raise(a, s.ids[a])], PutAll(s.storage, keys, b, s.ids[b] - |keys|);
    var x := Kv(data.storage, data.ids[a := s.ids[a]]);
    FoldAppend(data, first + puts, RaiseAll(s.ids, clients));
    FoldAppend(data, first, puts);
    FoldOneMore(data, [], Raise(a, s.ids[a]));
    assert first == [] + first;
    RaisesOne(data, a, s.ids[a]);
    PutsLead(x, s, b, keys);
    RaisesLead(Fold(x, puts), s, clients);
  }

  /** The client, new to x, puts all keys of s. */
  lemma PutsLead(x: Kv, s: Kv, b: int, keys: seq<string>)
    requires Lists(keys, s.storage.Keys) && x.storage.Keys <= s.storage.Keys
    requires NoLower(x.ids, s.ids) && b in s.ids && b !in x.ids
    ensures var y := Fold(x, PutAll(s.storage, keys, b, s.ids[b] - |keys|));
            y.storage == s.storage && NoLower(y.ids, s.ids)
  {
    PutsAll(x, s.storage, keys, b, s.ids[b] - |keys|);
    OverAll(Fold(x, PutAll(s.storage, keys, b, s.ids[b] - |keys|)).storage, x.storage, s.storage, keys);
  }

  lemma RaisesLead(y: Kv, s: Kv, clients: seq<int>)
    requires Lists(clients, s.ids.Keys) && y.storage == s.storage && NoLower(y.ids, s.ids)
    ensures Fold(y, RaiseAll(s.ids, clients)) == s
  {
    RaisedAll(y, s.ids, clients);
    OverAll(Fold(y, RaiseAll(s.ids, clients)).ids, y.ids, s.ids, clients);
  }

  lemma DetourAvoids(log: seq<Command>, data: Kv, s: Kv, a: int, b: int) returns (log': seq<Command>)
    requires State(log) == data && Behind(data, s, a, b)
    ensures log <= log' && Explains(log', |log|, |log'|, data, s) && !PrefixFrom(log', |log|, Install(s, data))
  {
    var keys := Listed(s.storage.Keys);
    var clients := Listed(s.ids.Keys);
    log' := log + Detour(s, a, b, keys, clients);
    DetourLeads(data, s, a, b, keys, clients);
    FoldAppend(EMPTY, log, Detour(s, a, b, keys, clients));
    assert log'[..|log|] == log && log'[..|log'|] == log';
    assert log'[..|log| + 1] == log + [Raise(a, s.ids[a])];
    FoldOneMore(EMPTY, log, Raise(a, s.ids[a]));
    NeverMerged(log', |log|, data, s, a, b);
  }

  /** Once client a has moved on, no state has its old number; and before, client b is missing. */
  lemma NeverMerged(log: seq<Command>, j: nat, data: Kv, s: Kv, a: int, b: int)
    requires j < |log| && State(log[..j]) == data && Behind(data, s, a, b)
    requires a in State(log[..j + 1]).ids && State(log[..j + 1]).ids[a] == s.ids[a]
    ensures !PrefixFrom(log, j, Install(s, data))
  {
    var m := Install(s, data);
    forall n: nat | j <= n <= |log| ensures m != State(log[..n]) {
      if n == j {
        assert b in m.ids && b !in State(log[..n]).ids;
      } else {
        IdsGrow(log, j + 1, n);
        assert m.ids[a] == data.ids[a];
      }
    }
  }

  lemma NumbersOfNeither(log: seq<Command>, j: nat, d: nat, data: Kv, s: Kv) returns (log': seq<Command>)
    requires Explains(log, j, d, data, s) && !Fits(data, s)
    requires Install(s, data).ids != data.ids && Install(s, data).ids != s.ids
    ensures Explains(log', j, |log'|, data, s) && !PrefixFrom(log', j, Install(s, data))
  {
    if d <= j { InstallNewer(log, d, j); }
    KeysGrow(log, j, d);
    IdsGrow(log, j, d);
    var b := Extra(data.ids, s.ids);
    var a := Lowered(data.ids, s.ids);
    log' := DetourAvoids(log[..j], data, s, a, b);
  }

  lemma Extra<K>(ids: map<K, int>, own: map<K, int>) returns (b: K)
    requires own + ids != ids
    ensures b in own && b !in ids
  {
    if forall client | client in own :: client in ids { SameIds(ids, own + ids); }
    b :| b in own && b !in ids;
  }

  lemma Lowered<K>(ids: map<K, int>, own: map<K, int>) returns (a: K)
    requires NoLower(ids, own) && own + ids != own
    ensures a in ids && ids[a] < own[a]
  {
    if forall client | client in ids :: ids[client] == own[client] { SameIds(own + ids, own); }
    a :| a in ids && ids[a] != own[a];
  }

  /** Merging is harmless, whatever log has led to state and snapshot, if and only if the snapshot fits, for all states
      and snapshots that one log can have led to. */
  lemma HarmlessExactly(data: Kv, s: Kv)
    ensures Harmless(data, s) <==> (Explained(data, s) ==> Fits(data, s))
  {
    if Explained(data, s) ==> Fits(data, s) {
      forall log: seq<Command>, j: nat, d: nat | Explains(log, j, d, data, s)
        ensures PrefixFrom(log, j, Install(s, data))
      {
        FittingIsPrefix(log, j, d, data, s);
      }
    } else {
      var log, j, d := ShowsHarm(data, s);
    }
  }

  lemma ShowsHarm(data: Kv, s: Kv) returns (log: seq<Command>, j: nat, d: nat)
    requires Explained(data, s) && !Fits(data, s)
    ensures Explains(log, j, d, data, s) && !PrefixFrom(log, j, Install(s, data))
  {
    log, j, d :| Explains(log, j, d, data, s);
    if Install(s, data).ids == data.ids {
      NumbersOfData(log, j, d, data, s);
    } else if Install(s, data).ids == s.ids {
      NumbersOfState(log, j, d, data, s);
    } else {
      log := NumbersOfNeither(log, j, d, data, s);
      d := |log|;
    }
  }
}
