/** What clients see of a log of commands: gets and writes at their places in it make a linearizable history. */
module KvHistories {
  import opened KvState
  import opened KvExactlyOnce
  import opened Histories
  import opened KvLocality

  // ---------------------------------------------------------------- operations and their places in the log

  /** The command is the write that was asked for. */
  predicate Matches(c: Command, inp: KvInput) {
    && c.Write? && c.key == inp.key && c.value == inp.value
    && if inp.op == 1 then c.opType == "Put" else inp.op > 1 && c.opType == "Append"
  }

  /** The operation takes effect when n commands of the log have been applied: a write is the last of these, there for
      the first time; a get reads what its key has then, or the empty string. */
  ghost predicate TakesEffect(log: seq<Command>, op: KvOp, n: nat) {
    && n <= |log|
    && if op.input.op == 0 then op.output.value == ValueOf(State(log[..n]).storage, op.input.key)
       else 0 < n && FirstTime(log, n - 1) && Matches(log[n - 1], op.input)
  }

  /** A put or an append that the log shows for the first time. */
  ghost predicate Changes(log: seq<Command>, p: nat)
    requires p < |log|
  {
    FirstTime(log, p) && (log[p].opType == "Put" || log[p].opType == "Append")
  }

  ghost predicate WrittenBy(ops: seq<KvOp>, places: seq<nat>, p: nat, id: nat)
    requires |places| == |ops|
  {
    id < |ops| && ops[id].input.op != 0 && places[id] == p + 1
  }

  /** Every operation takes effect at its place, no two writes at one, and the log has no other writes. */
  ghost predicate Explains(log: seq<Command>, ops: seq<KvOp>, places: seq<nat>) {
    && |places| == |ops|
    && (forall id: nat | id < |ops| :: TakesEffect(log, ops[id], places[id]))
    && (forall a: nat, b: nat | a < b < |ops| && ops[a].input.op != 0 && ops[b].input.op != 0 :: places[a] != places[b])
    && (forall p: nat | p < |log| && Changes(log, p) :: exists id: nat :: WrittenBy(ops, places, p, id))
  }

  /** The place of an operation among all: gets come after the write that made what they read. */
  function Rank(op: KvOp, n: nat): nat {
    if op.input.op == 0 then 2 * n + 1 else 2 * n
  }

  /** No operation has a place before one that had returned when it was called. */
  ghost predicate InRealTime(ops: seq<KvOp>, places: seq<nat>)
    requires |places| == |ops|
  {
    forall a: nat, b: nat | a < |ops| && b < |ops| && Before(ops[a], ops[b]) ::
      Rank(ops[a], places[a]) <= Rank(ops[b], places[b])
  }

  ghost predicate Timed(ops: seq<KvOp>) {
    forall id: nat | id < |ops| :: ops[id].call <= ops[id].ret
  }

  // ---------------------------------------------------------------- stretches of the log that change nothing

  lemma StorageOneMore(log: seq<Command>, p: nat)
    requires p < |log| && ExactlyOnce(log)
    ensures State(log[..p + 1]).storage
         == if Changes(log, p) then WriteTo(State(log[..p]).storage, log[p]) else State(log[..p]).storage
  {
    assert log[..p + 1] == log[..p] + [log[p]];
    FoldOneMore(EMPTY, log[..p], log[p]);
    assert Effective(log, p) <==> FirstTime(log, p);
  }

  lemma {:induction false} QuietStretch(log: seq<Command>, n: nat, m: nat)
    requires n <= m <= |log| && ExactlyOnce(log) && forall p: nat | n <= p < m :: !Changes(log, p)
    ensures State(log[..m]).storage == State(log[..n]).storage
    decreases m - n
  {
    if n < m {
      QuietStretch(log, n, m - 1);
      StorageOneMore(log, m - 1);
    }
  }

  // ---------------------------------------------------------------- taking the operations in the order of the log

  /** The operations in `done` are those with places among the first n commands. */
  ghost predicate Taken(ops: seq<KvOp>, places: seq<nat>, done: set<nat>, n: nat)
    requires |places| == |ops|
  {
    forall id: nat | id < |ops| :: TakenAt(ops, places, done, n, id)
  }

  ghost predicate TakenAt(ops: seq<KvOp>, places: seq<nat>, done: set<nat>, n: nat, id: nat)
    requires |places| == |ops| && id < |ops|
  {
    if id in done then places[id] <= n else if ops[id].input.op == 0 then n <= places[id] else n < places[id]
  }

  ghost predicate NoLater(ops: seq<KvOp>, places: seq<nat>, id: nat, r: nat)
    requires |places| == |ops| && id < |ops| && r < |ops|
  {
    var a, b := Rank(ops[id], places[id]), Rank(ops[r], places[r]);
    a < b || (a == b && ops[id].call <= ops[r].call)
  }

  lemma {:induction false} FirstPlace(ops: seq<KvOp>, places: seq<nat>, done: set<nat>, n: nat) returns (id: nat)
    requires |places| == |ops| && n <= |ops| && exists r: nat :: r < n && r !in done
    ensures id < n && id !in done && forall r: nat | r < n && r !in done :: NoLater(ops, places, id, r)
  {
    if exists r: nat :: r < n - 1 && r !in done {
      id := FirstPlace(ops, places, done, n - 1);
      if n - 1 !in done && !NoLater(ops, places, id, n - 1) { id := n - 1; }
    } else {
      id := n - 1;
    }
  }

  ghost predicate IsFirst(ops: seq<KvOp>, places: seq<nat>, done: set<nat>, id: nat)
    requires |places| == |ops|
  {
    id < |ops| && id !in done && forall r: nat | r < |ops| && r !in done :: NoLater(ops, places, id, r)
  }

  lemma FirstPlaceIsMinimal(ops: seq<KvOp>, places: seq<nat>, done: set<nat>, id: nat)
    requires |places| == |ops| && Timed(ops) && InRealTime(ops, places) && IsFirst(ops, places, done, id)
    ensures Minimal(ops, done, id)
  {
    forall r: nat | r < |ops| && r !in done && r != id ensures !Before(ops[r], ops[id]) {
      assert NoLater(ops, places, id, r);
    }
  }

  lemma NotBetween(ops: seq<KvOp>, places: seq<nat>, done: set<nat>, n: nat, id: nat, w: nat)
    requires |places| == |ops| && Taken(ops, places, done, n) && IsFirst(ops, places, done, id) && w < |ops|
    ensures places[w] <= n || Rank(ops[id], places[id]) <= Rank(ops[w], places[w])
  {
    assert TakenAt(ops, places, done, n, w);
    assert w !in done ==> NoLater(ops, places, id, w);
  }

  /** Nothing is written between what was taken last and the next operation. */
  lemma NothingBetween(log: seq<Command>, ops: seq<KvOp>, places: seq<nat>, done: set<nat>, n: nat, id: nat, p: nat)
    requires Explains(log, ops, places) && Taken(ops, places, done, n) && IsFirst(ops, places, done, id)
    requires n <= p < (if ops[id].input.op == 0 then places[id] else places[id] - 1)
    ensures p < |log| && !Changes(log, p)
  {
    assert TakesEffect(log, ops[id], places[id]);
    if Changes(log, p) {
      var w: nat :| WrittenBy(ops, places, p, w);
      NotBetween(ops, places, done, n, id, w);
    }
  }

  /** The next operation is accepted, and leaves the store as the log does at its place. */
  lemma NextAccepted(log: seq<Command>, ops: seq<KvOp>, places: seq<nat>, done: set<nat>, n: nat, id: nat)
    requires ExactlyOnce(log) && Explains(log, ops, places)
    requires n <= |log| && Taken(ops, places, done, n) && IsFirst(ops, places, done, id)
    ensures places[id] <= |log|
    ensures StoreStep(State(log[..n]).storage, ops[id].input, ops[id].output)
         == (true, State(log[..places[id]]).storage)
  {
    assert TakesEffect(log, ops[id], places[id]) && TakenAt(ops, places, done, n, id);
    var m := if ops[id].input.op == 0 then places[id] else places[id] - 1;
    forall p: nat | n <= p < m ensures !Changes(log, p) { NothingBetween(log, ops, places, done, n, id, p); }
    QuietStretch(log, n, m);
    if ops[id].input.op != 0 { StorageOneMore(log, m); }
  }

  lemma TakenOneMore(ops: seq<KvOp>, places: seq<nat>, done: set<nat>, n: nat, id: nat)
    requires |places| == |ops| && Taken(ops, places, done, n) && IsFirst(ops, places, done, id)
    requires forall a: nat, b: nat | a < b < |ops| && ops[a].input.op != 0 && ops[b].input.op != 0 ::
               places[a] != places[b]
    ensures Taken(ops, places, done + {id}, places[id])
  {
    assert TakenAt(ops, places, done, n, id);
    forall r: nat | r < |ops| ensures TakenAt(ops, places, done + {id}, places[id], r) {
      assert TakenAt(ops, places, done, n, r);
      if r !in done && r != id { assert NoLater(ops, places, id, r) && (if r < id then r < id else id < r); }
    }
  }

  lemma {:induction false} TakesAll(log: seq<Command>, ops: seq<KvOp>, places: seq<nat>, done: set<nat>, n: nat)
    requires ExactlyOnce(log) && Explains(log, ops, places) && Timed(ops) && InRealTime(ops, places)
    requires n <= |log| && Taken(ops, places, done, n)
    ensures Completable(StoreModel(), ops, done, State(log[..n]).storage)
    decreases Ids(ops) - done
  {
    if !(Ids(ops) <= done) {
      var x :| x in Ids(ops) && x !in done;
      assert x < |ops|;
      var id := FirstPlace(ops, places, done, |ops|);
      assert IsFirst(ops, places, done, id) && IsId(ops, id);
      FirstPlaceIsMinimal(ops, places, done, id);
      NextAccepted(log, ops, places, done, n, id);
      TakenOneMore(ops, places, done, n, id);
      TakesAll(log, ops, places, done + {id}, places[id]);
    }
  }

  /** When every write of the log takes effect exactly once, any history that the log explains in real time is
      linearizable. */
  lemma ExplainedIsLinearizable(log: seq<Command>, ops: seq<KvOp>, places: seq<nat>)
    requires ExactlyOnce(log) && Explains(log, ops, places) && Timed(ops) && InRealTime(ops, places)
    ensures Linearizable(StoreModel(), ops)
  {
    assert log[..0] == [];
    forall id: nat | id < |ops| ensures TakenAt(ops, places, {}, 0, id) {
      assert TakesEffect(log, ops[id], places[id]);
    }
    TakesAll(log, ops, places, {}, 0);
    LinearizableStepwise(StoreModel(), ops);
  }

  // ---------------------------------------------------------------- the log itself as a history

  /** What a client sees of the command at p: a get with the value of its key there, or a write. */
  ghost function OpAt(log: seq<Command>, p: nat): KvOp
    requires p < |log|
  {
    match log[p]
    case Get(key) => Op(KvInput(0, key, ""), p, KvOutput(ValueOf(State(log[..p]).storage, key)), p)
    case Write(opType, key, value, _, _) =>
      Op(KvInput(if opType == "Put" then 1 else 2, key, value), p, KvOutput(""), p)
  }

  ghost predicate Shows(log: seq<Command>, p: nat) {
    p < |log| && (log[p].Get? || Changes(log, p))
  }

  /** The positions below n of the gets and of the writes without their repetitions, in order. */
  ghost function Shown(log: seq<Command>, n: nat): (r: seq<nat>)
    requires n <= |log|
    ensures forall k | 0 <= k < |r| :: r[k] < n && Shows(log, r[k])
    ensures forall j, k | 0 <= j < k < |r| :: r[j] < r[k]
    ensures forall p: nat | p < n && Shows(log, p) :: p in r
  {
    if n == 0 then [] else Shown(log, n - 1) + (if Shows(log, n - 1) then [n - 1] else [])
  }

  ghost function LogHistory(log: seq<Command>): (ops: seq<KvOp>)
    ensures |ops| == |Shown(log, |log|)|
  {
    var shown := Shown(log, |log|);
    seq(|shown|, k requires 0 <= k < |shown| => OpAt(log, shown[k]))
  }

  ghost function PlaceOf(log: seq<Command>, p: nat): nat
    requires p < |log|
  {
    if log[p].Get? then p else p + 1
  }

  lemma ShownIsWritten(log: seq<Command>, places: seq<nat>, p: nat)
    requires p < |log| && Changes(log, p) && |places| == |LogHistory(log)|
    requires forall k | 0 <= k < |places| :: places[k] == PlaceOf(log, Shown(log, |log|)[k])
    ensures exists id: nat :: WrittenBy(LogHistory(log), places, p, id)
  {
    assert Shows(log, p);
    var k: nat :| k < |Shown(log, |log|)| && Shown(log, |log|)[k] == p;
    assert WrittenBy(LogHistory(log), places, p, k);
  }

  lemma LogExplains(log: seq<Command>, places: seq<nat>)
    requires |places| == |LogHistory(log)|
    requires forall k | 0 <= k < |places| :: places[k] == PlaceOf(log, Shown(log, |log|)[k])
    ensures Explains(log, LogHistory(log), places)
  {
    var shown, ops := Shown(log, |log|), LogHistory(log);
    forall id: nat | id < |ops| ensures TakesEffect(log, ops[id], places[id]) {
      assert Shows(log, shown[id]);
    }
    forall p: nat | p < |log| && Changes(log, p) ensures exists id: nat :: WrittenBy(ops, places, p, id) {
      ShownIsWritten(log, places, p);
    }
  }

  /** Whenever every write of a log takes effect exactly once, the sequential store accepts its gets, each with the
      value that a server reads there, and its writes without the repetitions, one after the other in the order of the
      log: no two of them overlap. */
  lemma LogIsAccepted(log: seq<Command>)
    requires ExactlyOnce(log)
    ensures Linearizable(StoreModel(), LogHistory(log))
  {
    var shown := Shown(log, |log|);
    var places := seq(|shown|, k requires 0 <= k < |shown| => PlaceOf(log, shown[k]));
    LogExplains(log, places);
    ExplainedIsLinearizable(log, LogHistory(log), places);
  }
}
