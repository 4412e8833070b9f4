/** The replicated key-value state machine (kvraft/server.go) as a fold over the log of commands. */
module KvState {

  /** A command of the log: a get, or a write that its clerk numbered. Any other type than "Put" and "Append" changes
      no value, but is counted. */
  datatype Command = Get(key: string) | Write(opType: string, key: string, value: string, clientId: int, msgId: int)

  /** The values by key, and the number of the last write accepted from every client. */
  datatype Kv = Kv(storage: map<string, string>, ids: map<int, int>)

  const EMPTY := Kv(map[], map[])

  predicate Repeated(s: Kv, clientId: int, msgId: int) {
    clientId in s.ids && s.ids[clientId] >= msgId
  }

  function Accept(s: Kv, clientId: int, msgId: int): Kv {
    if Repeated(s, clientId, msgId) then s else s.(ids := s.ids[clientId := msgId])
  }

  function ValueOf(storage: map<string, string>, key: string): string {
    if key in storage then storage[key] else ""
  }

  function WriteTo(storage: map<string, string>, c: Command): map<string, string>
    requires c.Write?
  {
    if c.opType == "Put" then storage[c.key := c.value]
    else if c.opType == "Append" then storage[c.key := ValueOf(storage, c.key) + c.value]
    else storage
  }

  function ApplyOne(s: Kv, c: Command): Kv {
    if c.Get? || Repeated(s, c.clientId, c.msgId) then s
    else Kv(WriteTo(s.storage, c), Accept(s, c.clientId, c.msgId).ids)
  }

  function Fold(s: Kv, log: seq<Command>): Kv
    decreases |log|
  {
    if log == [] then s else ApplyOne(Fold(s, log[..|log| - 1]), log[|log| - 1])
  }

  /** The state after a whole log. */
  function State(log: seq<Command>): Kv {
    Fold(EMPTY, log)
  }

  lemma FoldOneMore(s: Kv, log: seq<Command>, c: Command)
    ensures Fold(s, log + [c]) == ApplyOne(Fold(s, log), c)
  {
    assert (log + [c])[..|log|] == log;
  }

  lemma {:induction false} FoldAppend(s: Kv, a: seq<Command>, b: seq<Command>)
    ensures Fold(s, a + b) == Fold(Fold(s, a), b)
    decreases |b|
  {
    if b == [] {
      assert a + b == a;
    } else {
      var n := |b| - 1;
      FoldAppend(s, a, b[..n]);
      assert a + b == (a + b[..n]) + [b[n]];
      FoldOneMore(s, a + b[..n], b[n]);
    }
  }

  // ---------------------------------------------------------------- the filter

  /** The filter has the largest number that the log holds for every client. */
  ghost predicate Largest(log: seq<Command>, ids: map<int, int>) {
    && (forall p | 0 <= p < |log| && log[p].Write? :: log[p].clientId in ids && log[p].msgId <= ids[log[p].clientId])
    && (forall client | client in ids :: LoggedAs(log, client, ids[client]))
  }

  ghost predicate LoggedAs(log: seq<Command>, clientId: int, msgId: int) {
    exists p :: 0 <= p < |log| && log[p].Write? && log[p].clientId == clientId && log[p].msgId == msgId
  }

  lemma {:induction false} FilterIsLargest(log: seq<Command>)
    ensures Largest(log, State(log).ids)
  {
    if log != [] {
      var n := |log| - 1;
      var front := log[..n];
      FilterIsLargest(front);
      forall client | client in State(log).ids ensures LoggedAs(log, client, State(log).ids[client]) {
        if client in State(front).ids && State(front).ids[client] == State(log).ids[client] {
          assert LoggedAs(front, client, State(front).ids[client]);
        } else {
          assert log[n].Write? && log[n].clientId == client && log[n].msgId == State(log).ids[client];
        }
      }
    }
  }

  /** What a log holds is repeated in the state after it. */
  lemma LoggedIsRepeated(log: seq<Command>, p: nat)
    requires p < |log| && log[p].Write?
    ensures Repeated(State(log), log[p].clientId, log[p].msgId)
  {
    FilterIsLargest(log);
  }

  // ---------------------------------------------------------------- snapshots that run ahead of their label

  /** Commands that the log held already change nothing. */
  lemma {:induction false} Absorbs(log: seq<Command>, again: seq<Command>)
    requires forall c | c in again :: c in log
    ensures Fold(State(log), again) == State(log)
    decreases |again|
  {
    if again != [] {
      var n := |again| - 1;
      var c := again[n];
      forall d | d in again[..n] ensures d in log {}
      Absorbs(log, again[..n]);
      assert c in again;
      if c.Write? {
        var p: nat :| p < |log| && log[p] == c;
        LoggedIsRepeated(log, p);
      }
    }
  }

  /** A snapshot with the data of j commands and the label i restores correctly: delivering from i + 1 on leads to
      the state that delivering everything leads to. */
  lemma SnapshotReplay(log: seq<Command>, i: nat, j: nat, k: nat)
    requires i <= j <= k <= |log|
    ensures Fold(State(log[..j]), log[i..k]) == State(log[..k])
  {
    assert log[i..k] == log[i..j] + log[j..k];
    FoldAppend(State(log[..j]), log[i..j], log[j..k]);
    SnapshotWaits(log, i, j, j);
    FoldAppend(EMPTY, log[..j], log[j..k]);
    assert log[..j] + log[j..k] == log[..k];
  }

  /** Also when the delivery stops short of the data. */
  lemma SnapshotWaits(log: seq<Command>, i: nat, j: nat, k: nat)
    requires i <= k <= j <= |log|
    ensures Fold(State(log[..j]), log[i..k]) == State(log[..j])
  {
    forall c | c in log[i..k] ensures c in log[..j] {
      var p :| i <= p < k && log[p] == c;
      assert log[..j][p] == c;
    }
    Absorbs(log[..j], log[i..k]);
  }
}
