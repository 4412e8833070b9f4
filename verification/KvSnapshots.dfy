/** Installing a snapshot into a server that already has state: decoding merges the maps (kvraft/server.go). */
module KvSnapshots {
  import opened KvState

  /** Decoding into maps that are there already keeps the entries that the snapshot does not have. */
  function Install(s: Kv, data: Kv): Kv {
    Kv(s.storage + data.storage, s.ids + data.ids)
  }

  lemma {:induction false} KeysGrow(log: seq<Command>, m: nat, j: nat)
    requires m <= j <= |log|
    ensures State(log[..m]).storage.Keys <= State(log[..j]).storage.Keys
    ensures State(log[..m]).ids.Keys <= State(log[..j]).ids.Keys
    decreases j
  {
    if m < j {
      KeysGrow(log, m, j - 1);
      assert log[..j] == log[..j - 1] + [log[j - 1]];
      FoldOneMore(EMPTY, log[..j - 1], log[j - 1]);
    }
  }

  /** The snapshot has every key and every client that the state has. Both sides can be looked at before installing. */
  predicate Covers(data: Kv, s: Kv) {
    s.storage.Keys <= data.storage.Keys && s.ids.Keys <= data.ids.Keys
  }

  /** Installing replaces the state by the snapshot exactly when the snapshot covers the state. */
  lemma InstallExactly(s: Kv, data: Kv)
    ensures Install(s, data) == data <==> Covers(data, s)
  {
    var r := Install(s, data);
    assert r.storage.Keys == s.storage.Keys + data.storage.Keys && r.ids.Keys == s.ids.Keys + data.ids.Keys;
    if Covers(data, s) {
      assert r.storage == data.storage && r.ids == data.ids;
    }
  }

  /** A snapshot at least as recent as the server's state covers it, and so replaces it. */
  lemma InstallNewer(log: seq<Command>, m: nat, j: nat)
    requires m <= j <= |log|
    ensures Covers(State(log[..j]), State(log[..m]))
    ensures Install(State(log[..m]), State(log[..j])) == State(log[..j])
  {
    KeysGrow(log, m, j);
    InstallExactly(State(log[..m]), State(log[..j]));
  }

  /** A server with the data of m commands takes a snapshot with the data of j and the label i, and then gets the
      commands from i + 1 to k: it has the state after k. */
  ghost predicate Restores(log: seq<Command>, m: nat, j: nat, i: nat, k: nat)
    requires i <= j <= k <= |log| && m <= k
  {
    Fold(Install(State(log[..m]), State(log[..j])), log[i..k]) == State(log[..k])
  }

  ghost predicate AlwaysRestores(m: nat, j: nat) {
    forall log: seq<Command>, i: nat, k: nat | i <= j <= k <= |log| && m <= k :: Restores(log, m, j, i, k)
  }

  lemma NewerRestores(log: seq<Command>, m: nat, j: nat, i: nat, k: nat)
    requires i <= j <= k <= |log| && m <= k && (m <= j || j == 0)
    ensures Restores(log, m, j, i, k)
  {
    if m <= j {
      InstallNewer(log, m, j);
      SnapshotReplay(log, i, j, k);
    } else {
      assert Install(State(log[..m]), EMPTY) == State(log[..m]);
      SnapshotReplay(log, i, m, k);
    }
  }

  /** The same for any snapshot that covers the state, of whatever age. */
  lemma CoveringRestores(log: seq<Command>, m: nat, j: nat, i: nat, k: nat)
    requires i <= j <= k <= |log| && m <= k && Covers(State(log[..j]), State(log[..m]))
    ensures Restores(log, m, j, i, k)
  {
    InstallExactly(State(log[..m]), State(log[..j]));
    SnapshotReplay(log, i, j, k);
  }

  // ---------------------------------------------------------------- a snapshot older than the state

  function Gets(n: nat): (r: seq<Command>)
    ensures |r| == n && forall p | 0 <= p < n :: r[p] == Get("x")
  {
    seq(n, p => Get("x"))
  }

  lemma {:induction false} GetsChangeNothing(s: Kv, n: nat)
    ensures Fold(s, Gets(n)) == s
  {
    if n > 0 {
      assert Gets(n)[..n - 1] == Gets(n - 1);
      GetsChangeNothing(s, n - 1);
    }
  }

  const PUT := Write("Put", "x", "", 1, 1)
  const APPEND := Write("Append", "x", "b", 2, 1)

  /** A put before j, the first append of another client just after it, and nothing else. */
  function Witness(m: nat, j: nat): (log: seq<Command>)
    requires 0 < j < m
    ensures |log| == m
  {
    [PUT] + Gets(j - 1) + ([APPEND] + Gets(m - j - 1))
  }

  lemma WitnessStates(m: nat, j: nat)
    requires 0 < j < m
    ensures State(Witness(m, j)[..j]) == Kv(map["x" := ""], map[1 := 1])
    ensures State(Witness(m, j)) == Kv(map["x" := "b"], map[1 := 1, 2 := 1])
    ensures Witness(m, j)[j..] == [APPEND] + Gets(m - j - 1)
  {
    var early, late := [PUT] + Gets(j - 1), [APPEND] + Gets(m - j - 1);
    assert Witness(m, j)[..j] == early && Witness(m, j)[j..] == late;
    var s := Kv(map["x" := ""], map[1 := 1]);
    assert [PUT][..0] == [];
    assert Fold(EMPTY, [PUT]) == s;
    FoldAppend(EMPTY, [PUT], Gets(j - 1));
    GetsChangeNothing(s, j - 1);
    LateCommands(s, m - j - 1);
    assert "" + "b" == "b";
    FoldAppend(EMPTY, early, late);
  }

  lemma LateCommands(s: Kv, n: nat)
    ensures Fold(s, [APPEND] + Gets(n)) == ApplyOne(s, APPEND)
  {
    assert [APPEND][..0] == [];
    assert Fold(s, [APPEND]) == ApplyOne(s, APPEND);
    FoldAppend(s, [APPEND], Gets(n));
    GetsChangeNothing(ApplyOne(s, APPEND), n);
  }

  /** The merge brings back the old value but keeps the newer filter, and the append is lost. */
  lemma OlderLosesWrite(m: nat, j: nat)
    requires 0 < j < m
    ensures !Restores(Witness(m, j), m, j, j, m)
  {
    var log := Witness(m, j);
    WitnessStates(m, j);
    assert log[..m] == log && log[j..m] == log[j..];
    var merged := Install(State(log), State(log[..j]));
    assert merged.storage["x"] == "" && merged.ids[2] == 1;
    LateCommands(merged, m - j - 1);
  }

  /** Restoring is right for every log exactly when the snapshot is at least as recent as the state it meets, or
      empty. */
  lemma RestoreExactly(m: nat, j: nat)
    ensures AlwaysRestores(m, j) <==> m <= j || j == 0
  {
    if m <= j || j == 0 {
      forall log: seq<Command>, i: nat, k: nat | i <= j <= k <= |log| && m <= k ensures Restores(log, m, j, i, k) {
        NewerRestores(log, m, j, i, k);
      }
    } else {
      OlderLosesWrite(m, j);
    }
  }

  /** Age alone does not decide: this snapshot is older than the state and covers it. */
  lemma OlderMayCover()
    ensures var log := [PUT, Write("Put", "x", "c", 1, 2)];
      Covers(State(log[..1]), State(log[..2])) && Restores(log, 2, 1, 1, 2)
  {
    var log := [PUT, Write("Put", "x", "c", 1, 2)];
    assert log[..1] == [] + [PUT] && log[..2] == [PUT] + [log[1]] && log[..2] == log;
    FoldOneMore(EMPTY, [], PUT);
    FoldOneMore(EMPTY, [PUT], log[1]);
    CoveringRestores(log, 2, 1, 1, 2);
  }
}
