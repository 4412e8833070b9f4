/** The key-value store on Raft is linearizable: clients, clerks, servers and the cluster together, in every run without
    compaction. An operation is called and returns at moments of the run; a server answers it by its own state then. */
module KvLinearizable {
  import opened Options
  import opened RaftState
  import opened RaftCluster
  import opened RaftDeliveries
  import opened RaftOrigins
  import K = KvState
  import opened KvExactlyOnce
  import opened Histories
  import opened KvLocality
  import opened KvHistories
  import T = Timeline
  import CheckHistory

  // ---------------------------------------------------------------- operations of clients

  /** How an operation came to its answer: a write with this number, known to a server at a moment; or a get, whose own
      command a server had been handed when it read. */
  datatype Request =
    | Wrote(clientId: int, msgId: int, server: nat, moment: nat)
    | Read(command: Command, server: nat, moment: nat)

  /** The state of the key-value server s at a moment of the run. */
  ghost function KvAt(codec: Codec, run: seq<Cluster>, steps: seq<Step>, s: nat, i: nat): K.Kv
    requires i < |run| <= |steps| + 1
  {
    Served(codec, Handed(run, steps, s, i))
  }

  ghost predicate IsWrite(codec: Codec, command: Command, clientId: int, msgId: int) {
    var c := codec.command(Some(command));
    c.Write? && c.clientId == clientId && c.msgId == msgId
  }

  ghost predicate StartsWrite(codec: Codec, step: Step, clientId: int, msgId: int) {
    step.ClientStart? && IsWrite(codec, step.command, clientId, msgId)
  }

  /** Nothing of the operation reaches a server before the operation is called, and what does is what was asked for: a
      write as often as its clerk sends it, a get with a command of its own. */
  ghost predicate AskedFor(codec: Codec, steps: seq<Step>, op: KvOp, req: Request) {
    match req
    case Wrote(clientId, msgId, _, _) =>
      && op.input.op != 0
      && forall i: nat | i < |steps| && StartsWrite(codec, steps[i], clientId, msgId) ::
           op.call <= i && Matches(codec.command(Some(steps[i].command)), op.input)
    case Read(command, _, _) =>
      && op.input.op == 0 && codec.command(Some(command)) == K.Get(op.input.key)
      && forall i: nat | i < |steps| && Begins(steps[i], command) :: op.call <= i
  }

  ghost predicate HandedAs(msgs: seq<ApplyMsg>, k: nat, command: Command) {
    CommandMsg(k, Some(command)) in msgs
  }

  /** A server answers before the operation returns: a write when its filter knows it, and a get, once the server has
      been handed its command, with what the server has for the key. */
  ghost predicate AnsweredIn(codec: Codec, run: seq<Cluster>, steps: seq<Step>, size: nat, op: KvOp, req: Request)
    requires |run| == |steps| + 1
  {
    && req.server < size && req.moment < |run| && req.moment <= op.ret
    && match req
       case Wrote(clientId, msgId, s, i) => K.Repeated(KvAt(codec, run, steps, s, i), clientId, msgId)
       case Read(command, s, i) =>
         && (exists k: nat :: HandedAs(Handed(run, steps, s, i), k, command))
         && op.output.value == K.ValueOf(KvAt(codec, run, steps, s, i).storage, op.input.key)
  }

  ghost predicate SameWrite(codec: Codec, req: Request, command: Command) {
    req.Wrote? && IsWrite(codec, command, req.clientId, req.msgId)
  }

  /** Every write that a server has been handed by the end of the run is an operation of the history: one that has not
      been answered by then counts as returning afterwards, and one that has reached no server is left out. No two
      have one number of one client, and a clerk goes on to its next write when the last has returned. */
  ghost predicate Clerks(codec: Codec, end: Cluster, ops: seq<KvOp>, reqs: seq<Request>)
    requires |reqs| == |ops|
  {
    && (forall index: nat, command: Command | Known(end, index, Some(command)) && codec.command(Some(command)).Write? ::
          exists id: nat :: id < |reqs| && SameWrite(codec, reqs[id], command))
    && (forall a: nat, b: nat | a < |ops| && b < |ops| && a != b && OneClient(reqs[a], reqs[b]) ::
          reqs[a].msgId != reqs[b].msgId && (reqs[a].msgId < reqs[b].msgId ==> ops[a].ret <= ops[b].call))
  }

  ghost predicate OneClient(r: Request, q: Request) {
    r.Wrote? && q.Wrote? && r.clientId == q.clientId
  }

  /** The history of a run. */
  ghost predicate HistoryOfRun(codec: Codec, run: seq<Cluster>, steps: seq<Step>, size: nat, ops: seq<KvOp>,
                               reqs: seq<Request>) {
    && IsTrace(run, steps, size, false) && |reqs| == |ops| && Clerks(codec, run[|run| - 1], ops, reqs)
    && (forall id: nat | id < |ops| :: AskedFor(codec, steps, ops[id], reqs[id]))
    && (forall id: nat | id < |ops| :: AnsweredIn(codec, run, steps, size, ops[id], reqs[id]))
  }

  // ---------------------------------------------------------------- the log of the run

  /** What server s has applied at moment i is the first part of the log, all of it started by then. */
  ghost predicate PartOf(codec: Codec, run: seq<Cluster>, steps: seq<Step>, raw: seq<Option<Command>>, s: nat, i: nat)
    requires i < |run| <= |steps| + 1 && s < |run[i].peers|
  {
    var n := run[i].peers[s].lastApplied;
    && n <= |raw| && Hands(Handed(run, steps, s, i), raw[..n])
    && KvAt(codec, run, steps, s, i) == K.State(Decoded(codec, raw)[..n])
    && StartedBy(steps, raw, n, i)
  }

  /** The first n commands of the log were started before moment i. */
  ghost predicate StartedBy(steps: seq<Step>, raw: seq<Option<Command>>, n: nat, i: nat) {
    n <= |raw| && forall p: nat | p < n :: raw[p].Some? && Begun(steps, i, raw[p].value)
  }

  ghost predicate AllKnown(end: Cluster, raw: seq<Option<Command>>) {
    forall p: nat | p < |raw| :: Known(end, p + 1, raw[p])
  }

  ghost predicate IsLog(codec: Codec, run: seq<Cluster>, steps: seq<Step>, size: nat, raw: seq<Option<Command>>)
    requires |run| == |steps| + 1
  {
    forall s: nat, i: nat | s < size && i < |run| ::
      |run[i].peers| == size && PartOf(codec, run, steps, raw, s, i)
  }

  lemma {:induction false} FurthestOf(c: Cluster, n: nat) returns (s: nat)
    requires 0 < n <= |c.peers|
    ensures s < n && forall v: nat | v < n :: c.peers[v].lastApplied <= c.peers[s].lastApplied
  {
    s := n - 1;
    if n > 1 {
      var v := FurthestOf(c, n - 1);
      if c.peers[s].lastApplied < c.peers[v].lastApplied { s := v; }
    }
  }

  ghost predicate Furthest(run: seq<Cluster>, size: nat, n: nat, s: nat, i: nat)
    requires n <= |run|
  {
    && i < n && s < size == |run[i].peers|
    && forall v: nat, j: nat | v < size && j < n && |run[j].peers| == size ::
         run[j].peers[v].lastApplied <= run[i].peers[s].lastApplied
  }

  lemma {:induction false} SomeFurthest(run: seq<Cluster>, size: nat, n: nat) returns (s: nat, i: nat)
    requires 0 < n <= |run| && 0 < size && forall j: nat | j < |run| :: |run[j].peers| == size
    ensures Furthest(run, size, n, s, i)
  {
    i := n - 1;
    s := FurthestOf(run[i], size);
    if n > 1 {
      var v, j := SomeFurthest(run, size, n - 1);
      if run[i].peers[s].lastApplied < run[j].peers[v].lastApplied { s, i := v, j; }
    }
  }

  lemma AgreedPart(c: Cluster, n: nat, m: nat)
    requires m <= n
    ensures Agreed(c, n)[..m] == Agreed(c, m)
  {
  }

  lemma DecodedPart(codec: Codec, raw: seq<Option<Command>>, m: nat)
    requires m <= |raw|
    ensures Decoded(codec, raw)[..m] == Decoded(codec, raw[..m])
  {
  }

  lemma AppliedWasStarted(run: seq<Cluster>, steps: seq<Step>, size: nat, s: nat, i: nat, p: nat)
    requires IsTrace(run, steps, size, false) && i < |run| && s < size == |run[i].peers|
    requires p < run[i].peers[s].lastApplied
    ensures var e := Agreed(run[|run| - 1], run[i].peers[s].lastApplied)[p]; e.Some? && Begun(steps, i, e.value)
  {
    OneLog(run, steps, size, s, i);
    var msgs := Handed(run, steps, s, i);
    assert msgs[p] in msgs;
    HandedIsGenuine(run, steps, size, false, s, i, msgs[p]);
  }

  lemma RunHasPart(codec: Codec, run: seq<Cluster>, steps: seq<Step>, size: nat, n: nat, s: nat, i: nat)
    requires IsTrace(run, steps, size, false) && i < |run| && s < size == |run[i].peers|
    requires run[i].peers[s].lastApplied <= n
    ensures PartOf(codec, run, steps, Agreed(run[|run| - 1], n), s, i)
  {
    var raw, m := Agreed(run[|run| - 1], n), run[i].peers[s].lastApplied;
    AgreedPart(run[|run| - 1], n, m);
    DecodedPart(codec, raw, m);
    OneLog(run, steps, size, s, i);
    ReplicaIsState(codec, run, steps, size, s, i);
    forall p: nat | p < m ensures raw[p].Some? && Begun(steps, i, raw[p].value) {
      AppliedWasStarted(run, steps, size, s, i, p);
      assert raw[..m][p] == raw[p];
    }
  }

  /** What anybody has applied at some moment is known at the end. */
  lemma AppliedIsKnown(run: seq<Cluster>, steps: seq<Step>, size: nat, s: nat, i: nat)
    requires IsTrace(run, steps, size, false) && i < |run| && s < size == |run[i].peers|
    ensures AllKnown(run[|run| - 1], Agreed(run[|run| - 1], run[i].peers[s].lastApplied))
  {
    var raw, msgs := Agreed(run[|run| - 1], run[i].peers[s].lastApplied), Handed(run, steps, s, i);
    TraceIsRun(run, steps, size, false);
    OneLog(run, steps, size, s, i);
    HandedIsDelivered(run, steps, size, s, i);
    StillDelivered(run, size, s, i, |run| - 1, msgs);
    forall p: nat | p < |raw| ensures Known(run[|run| - 1], p + 1, raw[p]) {
      assert msgs[p] in msgs && msgs[p] == CommandMsg(p + 1, raw[p]);
    }
  }

  /** Every run has one log, which some server has applied wholly at some moment. */
  lemma RunHasLog(codec: Codec, run: seq<Cluster>, steps: seq<Step>, size: nat)
    returns (raw: seq<Option<Command>>, i: nat)
    requires IsTrace(run, steps, size, false) && 0 < size
    ensures IsLog(codec, run, steps, size, raw) && AllKnown(run[|run| - 1], raw) && StartedBy(steps, raw, |raw|, i)
  {
    forall j: nat | j < |run| ensures |run[j].peers| == size { PeersStay(run, steps, size, false, j); }
    var s;
    s, i := SomeFurthest(run, size, |run|);
    raw := Agreed(run[|run| - 1], run[i].peers[s].lastApplied);
    AppliedIsKnown(run, steps, size, s, i);
    forall v: nat, j: nat | v < size && j < |run|
      ensures |run[j].peers| == size && PartOf(codec, run, steps, raw, v, j)
    {
      RunHasPart(codec, run, steps, size, |raw|, v, j);
    }
    assert PartOf(codec, run, steps, raw, s, i);
  }

  // ---------------------------------------------------------------- the place of each operation in the log

  ghost predicate Belongs(codec: Codec, req: Request, command: Command) {
    if req.Wrote? then IsWrite(codec, command, req.clientId, req.msgId) else command == req.command
  }

  ghost predicate AllAsked(codec: Codec, steps: seq<Step>, ops: seq<KvOp>, reqs: seq<Request>)
    requires |reqs| == |ops|
  {
    forall id: nat | id < |ops| :: AskedFor(codec, steps, ops[id], reqs[id])
  }

  /** What belongs to an operation is started after its call. */
  lemma StartedAfterCall(codec: Codec, steps: seq<Step>, op: KvOp, req: Request, command: Command, i: nat)
    requires AskedFor(codec, steps, op, req) && Belongs(codec, req, command) && Begun(steps, i, command)
    ensures op.call < i
    ensures req.Wrote? ==> Matches(codec.command(Some(command)), op.input)
  {
    var k: nat :| k < i && k < |steps| && Begins(steps[k], command);
    if req.Wrote? { assert StartsWrite(codec, steps[k], req.clientId, req.msgId); }
  }

  lemma OwnerOf(codec: Codec, end: Cluster, ops: seq<KvOp>, reqs: seq<Request>, raw: seq<Option<Command>>, p: nat)
    returns (id: nat)
    requires |reqs| == |ops| && Clerks(codec, end, ops, reqs) && AllKnown(end, raw)
    requires p < |raw| && raw[p].Some? && codec.command(raw[p]).Write?
    ensures id < |reqs| && SameWrite(codec, reqs[id], raw[p].value)
  {
    assert Known(end, p + 1, Some(raw[p].value));
    id :| id < |reqs| && SameWrite(codec, reqs[id], raw[p].value);
  }

  /** The filter of a server that answers a write holds no later number of its client, and so the write itself. */
  lemma AnsweredIsThere(codec: Codec, steps: seq<Step>, end: Cluster, ops: seq<KvOp>, reqs: seq<Request>,
                        raw: seq<Option<Command>>, id: nat, n: nat, i: nat)
    returns (p: nat)
    requires |reqs| == |ops| && Clerks(codec, end, ops, reqs) && AllAsked(codec, steps, ops, reqs) && AllKnown(end, raw)
    requires id < |ops| && reqs[id].Wrote? && StartedBy(steps, raw, n, i) && i <= ops[id].ret
    requires K.Repeated(K.State(Decoded(codec, raw)[..n]), reqs[id].clientId, reqs[id].msgId)
    ensures p < n && raw[p].Some? && IsWrite(codec, raw[p].value, reqs[id].clientId, reqs[id].msgId)
  {
    var req, log := reqs[id], Decoded(codec, raw);
    K.FilterIsLargest(log[..n]);
    var k := K.State(log[..n]).ids[req.clientId];
    assert K.LoggedAs(log[..n], req.clientId, k);
    p :| 0 <= p < n && log[..n][p].Write? && log[..n][p].clientId == req.clientId && log[..n][p].msgId == k;
    assert log[p] == log[..n][p] && raw[p].Some? && Begun(steps, i, raw[p].value);
    var b := OwnerOf(codec, end, ops, reqs, raw, p);
    StartedAfterCall(codec, steps, ops[b], reqs[b], raw[p].value, i);
    assert b != id ==> OneClient(req, reqs[b]);
  }

  lemma WritePlace(codec: Codec, steps: seq<Step>, end: Cluster, ops: seq<KvOp>, reqs: seq<Request>,
                   raw: seq<Option<Command>>, id: nat, n: nat, i: nat)
    returns (q: nat)
    requires |reqs| == |ops| && Clerks(codec, end, ops, reqs) && AllAsked(codec, steps, ops, reqs) && AllKnown(end, raw)
    requires id < |ops| && reqs[id].Wrote? && StartedBy(steps, raw, n, i) && i <= ops[id].ret
    requires K.Repeated(K.State(Decoded(codec, raw)[..n]), reqs[id].clientId, reqs[id].msgId)
    ensures q < n && raw[q].Some? && IsWrite(codec, raw[q].value, reqs[id].clientId, reqs[id].msgId)
    ensures TakesEffect(Decoded(codec, raw), ops[id], q + 1)
  {
    var log := Decoded(codec, raw);
    var p := AnsweredIsThere(codec, steps, end, ops, reqs, raw, id, n, i);
    assert log[p] == codec.command(raw[p]);
    q := FirstCopy(log, p);
    assert log[q] == codec.command(raw[q]) && Begun(steps, i, raw[q].value);
    assert AskedFor(codec, steps, ops[id], reqs[id]);
    StartedAfterCall(codec, steps, ops[id], reqs[id], raw[q].value, i);
  }

  /** The operation takes effect after n commands, and its own command is at q among them; its server has applied all
      of these when it answers. */
  ghost predicate Sits(codec: Codec, steps: seq<Step>, raw: seq<Option<Command>>, op: KvOp, req: Request, n: nat,
                       q: nat) {
    && q < n <= |raw| && raw[q].Some? && Belongs(codec, req, raw[q].value) && (req.Wrote? ==> n == q + 1)
    && TakesEffect(Decoded(codec, raw), op, n) && StartedBy(steps, raw, n, req.moment) && req.moment <= op.ret
  }

  lemma WriteSits(codec: Codec, run: seq<Cluster>, steps: seq<Step>, size: nat, ops: seq<KvOp>, reqs: seq<Request>,
                  raw: seq<Option<Command>>, id: nat)
    returns (n: nat, q: nat)
    requires HistoryOfRun(codec, run, steps, size, ops, reqs) && id < |ops| && reqs[id].Wrote?
    requires reqs[id].server < |run[reqs[id].moment].peers|
    requires PartOf(codec, run, steps, raw, reqs[id].server, reqs[id].moment) && AllKnown(run[|run| - 1], raw)
    ensures Sits(codec, steps, raw, ops[id], reqs[id], n, q)
  {
    assert AnsweredIn(codec, run, steps, size, ops[id], reqs[id]);
    var i := reqs[id].moment;
    var m := run[i].peers[reqs[id].server].lastApplied;
    assert StartedBy(steps, raw, m, i);
    q := WritePlace(codec, steps, run[|run| - 1], ops, reqs, raw, id, m, i);
    n := q + 1;
  }

  lemma ReadSits(codec: Codec, run: seq<Cluster>, steps: seq<Step>, size: nat, op: KvOp, req: Request,
                 raw: seq<Option<Command>>)
    returns (n: nat, q: nat)
    requires |run| == |steps| + 1 && req.Read? && AskedFor(codec, steps, op, req)
    requires AnsweredIn(codec, run, steps, size, op, req) && req.server < |run[req.moment].peers|
    requires PartOf(codec, run, steps, raw, req.server, req.moment)
    ensures Sits(codec, steps, raw, op, req, n, q)
  {
    n := run[req.moment].peers[req.server].lastApplied;
    var msgs := Handed(run, steps, req.server, req.moment);
    var k: nat :| HandedAs(msgs, k, req.command);
    q :| 0 <= q < |msgs| && msgs[q] == CommandMsg(k, Some(req.command));
    assert raw[..n][q] == raw[q];
  }

  ghost predicate AllSit(codec: Codec, steps: seq<Step>, raw: seq<Option<Command>>, ops: seq<KvOp>, reqs: seq<Request>,
                         places: seq<nat>, own: seq<nat>)
    requires |reqs| == |ops|
  {
    && |places| == |own| <= |ops|
    && forall id: nat | id < |places| :: Sits(codec, steps, raw, ops[id], reqs[id], places[id], own[id])
  }

  lemma OneSits(codec: Codec, run: seq<Cluster>, steps: seq<Step>, size: nat, ops: seq<KvOp>, reqs: seq<Request>,
                raw: seq<Option<Command>>, id: nat)
    returns (n: nat, q: nat)
    requires HistoryOfRun(codec, run, steps, size, ops, reqs) && id < |ops| && IsLog(codec, run, steps, size, raw)
    requires AllKnown(run[|run| - 1], raw)
    ensures Sits(codec, steps, raw, ops[id], reqs[id], n, q)
  {
    assert AnsweredIn(codec, run, steps, size, ops[id], reqs[id]) && AskedFor(codec, steps, ops[id], reqs[id]);
    assert PartOf(codec, run, steps, raw, reqs[id].server, reqs[id].moment);
    if reqs[id].Wrote? {
      n, q := WriteSits(codec, run, steps, size, ops, reqs, raw, id);
    } else {
      n, q := ReadSits(codec, run, steps, size, ops[id], reqs[id], raw);
    }
  }

  lemma {:induction false} EverySits(codec: Codec, run: seq<Cluster>, steps: seq<Step>, size: nat, ops: seq<KvOp>,
                                     reqs: seq<Request>, raw: seq<Option<Command>>, m: nat)
    returns (places: seq<nat>, own: seq<nat>)
    requires HistoryOfRun(codec, run, steps, size, ops, reqs) && m <= |ops| && IsLog(codec, run, steps, size, raw)
    requires AllKnown(run[|run| - 1], raw)
    ensures AllSit(codec, steps, raw, ops, reqs, places, own) && |places| == m
  {
    if m == 0 {
      places, own := [], [];
    } else {
      places, own := EverySits(codec, run, steps, size, ops, reqs, raw, m - 1);
      var n, q := OneSits(codec, run, steps, size, ops, reqs, raw, m - 1);
      places, own := places + [n], own + [q];
    }
  }

  // ---------------------------------------------------------------- the log explains the history

  /** Once an operation has returned, what belongs to a later one cannot be in the part of the log that it saw. */
  lemma LaterIsBehind(codec: Codec, steps: seq<Step>, op: KvOp, req: Request, raw: seq<Option<Command>>, n: nat, i: nat,
                      ret: int, q: nat)
    requires AskedFor(codec, steps, op, req) && StartedBy(steps, raw, n, i) && i <= ret <= op.call
    requires q < |raw| && raw[q].Some? && Belongs(codec, req, raw[q].value)
    ensures n <= q
  {
    if q < n { StartedAfterCall(codec, steps, op, req, raw[q].value, i); }
  }

  lemma RealTimeKept(codec: Codec, steps: seq<Step>, raw: seq<Option<Command>>, ops: seq<KvOp>, reqs: seq<Request>,
                     places: seq<nat>, own: seq<nat>)
    requires |reqs| == |ops| == |places| && AllAsked(codec, steps, ops, reqs)
    requires AllSit(codec, steps, raw, ops, reqs, places, own)
    ensures InRealTime(T.Touching(ops), places)
  {
    forall a: nat, b: nat | a < |ops| && b < |ops| && ops[a].ret <= ops[b].call
      ensures Rank(ops[a], places[a]) <= Rank(ops[b], places[b])
    {
      assert Sits(codec, steps, raw, ops[a], reqs[a], places[a], own[a]);
      assert Sits(codec, steps, raw, ops[b], reqs[b], places[b], own[b]);
      assert AskedFor(codec, steps, ops[b], reqs[b]);
      LaterIsBehind(codec, steps, ops[b], reqs[b], raw, places[a], reqs[a].moment, ops[a].ret, own[b]);
    }
  }

  /** Every operation takes time: its command is started after the call and before the answer. */
  lemma TakesTime(codec: Codec, steps: seq<Step>, raw: seq<Option<Command>>, ops: seq<KvOp>, reqs: seq<Request>,
                  places: seq<nat>, own: seq<nat>)
    requires |reqs| == |ops| == |places| && AllAsked(codec, steps, ops, reqs)
    requires AllSit(codec, steps, raw, ops, reqs, places, own)
    ensures T.Proper(ops) && Timed(T.Touching(ops))
  {
    forall id: nat | id < |ops| ensures ops[id].call < ops[id].ret {
      assert Sits(codec, steps, raw, ops[id], reqs[id], places[id], own[id]);
      assert AskedFor(codec, steps, ops[id], reqs[id]);
      StartedAfterCall(codec, steps, ops[id], reqs[id], raw[own[id]].value, reqs[id].moment);
    }
  }

  /** A write that the log shows for the first time at p is an operation with that place. */
  lemma OwnerSits(codec: Codec, steps: seq<Step>, end: Cluster, raw: seq<Option<Command>>, ops: seq<KvOp>,
                  reqs: seq<Request>, places: seq<nat>, own: seq<nat>, p: nat, i: nat)
    returns (id: nat)
    requires |reqs| == |ops| == |places| && Clerks(codec, end, ops, reqs) && AllAsked(codec, steps, ops, reqs)
    requires AllSit(codec, steps, raw, ops, reqs, places, own) && StartedBy(steps, raw, |raw|, i) && AllKnown(end, raw)
    requires p < |raw| && FirstTime(Decoded(codec, raw), p)
    ensures id < |ops| && reqs[id].Wrote? && raw[p].Some? && SameWrite(codec, reqs[id], raw[p].value)
    ensures WrittenBy(ops, places, p, id)
  {
    var log := Decoded(codec, raw);
    assert log[p] == codec.command(raw[p]);
    id := OwnerOf(codec, end, ops, reqs, raw, p);
    assert Sits(codec, steps, raw, ops[id], reqs[id], places[id], own[id]);
    assert AskedFor(codec, steps, ops[id], reqs[id]);
    OnlyFirstTime(log, own[id], p);
  }

  lemma OnlyFirstTime(log: seq<K.Command>, p: nat, q: nat)
    requires p < |log| && q < |log| && FirstTime(log, p) && FirstTime(log, q)
    requires SameClient(log, p, q) && log[p].msgId == log[q].msgId
    ensures p == q
  {
    assert SameClient(log, q, p);
  }

  /** The numbers of every client rise in the log. */
  lemma LogIsNumbered(codec: Codec, steps: seq<Step>, end: Cluster, raw: seq<Option<Command>>, ops: seq<KvOp>,
                      reqs: seq<Request>, places: seq<nat>, own: seq<nat>, i: nat)
    requires |reqs| == |ops| == |places| && Clerks(codec, end, ops, reqs) && AllAsked(codec, steps, ops, reqs)
    requires AllSit(codec, steps, raw, ops, reqs, places, own) && StartedBy(steps, raw, |raw|, i) && AllKnown(end, raw)
    ensures Numbered(Decoded(codec, raw))
  {
    var log := Decoded(codec, raw);
    forall p: nat, q: nat | p < q < |log| && SameClient(log, p, q) && FirstTime(log, p) && FirstTime(log, q)
      ensures log[p].msgId < log[q].msgId
    {
      var b := OwnerSits(codec, steps, end, raw, ops, reqs, places, own, p, i);
      var a := OwnerSits(codec, steps, end, raw, ops, reqs, places, own, q, i);
      assert Sits(codec, steps, raw, ops[a], reqs[a], places[a], own[a]);
      assert log[p] == codec.command(raw[p]) && log[q] == codec.command(raw[q]);
      assert AskedFor(codec, steps, ops[b], reqs[b]) && OneClient(reqs[a], reqs[b]);
      if log[q].msgId < log[p].msgId {
        LaterIsBehind(codec, steps, ops[b], reqs[b], raw, places[a], reqs[a].moment, ops[a].ret, p);
      }
    }
  }

  lemma WritesApart(codec: Codec, steps: seq<Step>, end: Cluster, raw: seq<Option<Command>>, ops: seq<KvOp>,
                    reqs: seq<Request>, places: seq<nat>, own: seq<nat>, a: nat, b: nat)
    requires |reqs| == |ops| == |places| && Clerks(codec, end, ops, reqs) && AllAsked(codec, steps, ops, reqs)
    requires AllSit(codec, steps, raw, ops, reqs, places, own)
    requires a < b < |ops| && ops[a].input.op != 0 && ops[b].input.op != 0
    ensures places[a] != places[b]
  {
    assert AskedFor(codec, steps, ops[a], reqs[a]) && AskedFor(codec, steps, ops[b], reqs[b]);
    assert Sits(codec, steps, raw, ops[a], reqs[a], places[a], own[a]);
    assert Sits(codec, steps, raw, ops[b], reqs[b], places[b], own[b]);
    assert places[a] == places[b] ==> OneClient(reqs[a], reqs[b]);
  }

  lemma LogExplainsRun(codec: Codec, steps: seq<Step>, end: Cluster, raw: seq<Option<Command>>, ops: seq<KvOp>,
                       reqs: seq<Request>, places: seq<nat>, own: seq<nat>, i: nat)
    requires |reqs| == |ops| == |places| && Clerks(codec, end, ops, reqs) && AllAsked(codec, steps, ops, reqs)
    requires AllSit(codec, steps, raw, ops, reqs, places, own) && StartedBy(steps, raw, |raw|, i) && AllKnown(end, raw)
    ensures Explains(Decoded(codec, raw), ops, places)
  {
    var log := Decoded(codec, raw);
    forall id: nat | id < |ops| ensures TakesEffect(log, ops[id], places[id]) {
      assert Sits(codec, steps, raw, ops[id], reqs[id], places[id], own[id]);
    }
    forall a: nat, b: nat | a < b < |ops| && ops[a].input.op != 0 && ops[b].input.op != 0
      ensures places[a] != places[b]
    {
      WritesApart(codec, steps, end, raw, ops, reqs, places, own, a, b);
    }
    forall p: nat | p < |log| && Changes(log, p) ensures exists id: nat :: WrittenBy(ops, places, p, id) {
      var id := OwnerSits(codec, steps, end, raw, ops, reqs, places, own, p, i);
    }
  }

  /** What explains a history explains it at other times too. */
  lemma ExplainsAlike(log: seq<K.Command>, ops: seq<KvOp>, places: seq<nat>)
    requires Explains(log, ops, places)
    ensures Explains(log, T.Touching(ops), places)
  {
    var t := T.Touching(ops);
    forall id: nat | id < |t| ensures TakesEffect(log, t[id], places[id]) {
      assert TakesEffect(log, ops[id], places[id]);
    }
    forall p: nat | p < |log| && Changes(log, p) ensures exists id: nat :: WrittenBy(t, places, p, id) {
      var id: nat :| WrittenBy(ops, places, p, id);
      assert WrittenBy(t, places, p, id);
    }
  }

  /** Even when an operation that is called at the moment at which another returns counts as later. */
  lemma TouchingIsLinearizable(codec: Codec, run: seq<Cluster>, steps: seq<Step>, size: nat, ops: seq<KvOp>,
                               reqs: seq<Request>)
    requires HistoryOfRun(codec, run, steps, size, ops, reqs)
    ensures T.Proper(ops) && Linearizable(StoreModel(), T.Touching(ops))
  {
    if ops == [] {
      ExplainedIsLinearizable([], T.Touching(ops), []);
    } else {
      assert AnsweredIn(codec, run, steps, size, ops[0], reqs[0]);
      var raw, i := RunHasLog(codec, run, steps, size);
      var end := run[|run| - 1];
      var places, own := EverySits(codec, run, steps, size, ops, reqs, raw, |ops|);
      TakesTime(codec, steps, raw, ops, reqs, places, own);
      RealTimeKept(codec, steps, raw, ops, reqs, places, own);
      LogIsNumbered(codec, steps, end, raw, ops, reqs, places, own, i);
      ExactlyOnceIff(Decoded(codec, raw));
      LogExplainsRun(codec, steps, end, raw, ops, reqs, places, own, i);
      ExplainsAlike(Decoded(codec, raw), ops, places);
      ExplainedIsLinearizable(Decoded(codec, raw), T.Touching(ops), places);
    }
  }

  /** The key-value store is linearizable: in every run of the cluster without compaction, however messages are lost,
      delayed, reordered or repeated and servers crash, every history of clerks that make one write after the other is
      linearizable for the sequential store. */
  lemma StoreIsLinearizable(codec: Codec, run: seq<Cluster>, steps: seq<Step>, size: nat, ops: seq<KvOp>,
                            reqs: seq<Request>)
    requires HistoryOfRun(codec, run, steps, size, ops, reqs)
    ensures Linearizable(StoreModel(), ops)
  {
    TouchingIsLinearizable(codec, run, steps, size, ops, reqs);
    T.Relax(StoreModel(), T.Touching(ops), ops);
  }

  /** So the linearizability checker, given the history of such a run, can only find it linearizable. */
  lemma StorePassesCheck(codec: Codec, run: seq<Cluster>, steps: seq<Step>, size: nat, ops: seq<KvOp>,
                         reqs: seq<Request>)
    requires HistoryOfRun(codec, run, steps, size, ops, reqs)
    ensures CheckHistory.CanAnswerStore(ops, true) && !CheckHistory.CanAnswerStore(ops, false)
  {
    TouchingIsLinearizable(codec, run, steps, size, ops, reqs);
    StoreIsLinearizable(codec, run, steps, size, ops, reqs);
    CheckHistory.StoreAnswers(ops);
  }

  // ---------------------------------------------------------------- the two ways to answer a write

  /** A server that has been handed a write, as it has when the request that started it is notified, knows it. */
  lemma NotifiedIsKnown(codec: Codec, run: seq<Cluster>, steps: seq<Step>, size: nat, s: nat, i: nat, k: nat,
                        command: Command, clientId: int, msgId: int)
    requires IsTrace(run, steps, size, false) && i < |run| && s < size
    requires HandedAs(Handed(run, steps, s, i), k, command) && IsWrite(codec, command, clientId, msgId)
    ensures K.Repeated(KvAt(codec, run, steps, s, i), clientId, msgId)
  {
    OneLog(run, steps, size, s, i);
    ReplicaIsState(codec, run, steps, size, s, i);
    var msgs, raw := Handed(run, steps, s, i), Agreed(run[|run| - 1], run[i].peers[s].lastApplied);
    var q: nat :| q < |msgs| && msgs[q] == CommandMsg(k, Some(command));
    assert Decoded(codec, raw)[q] == codec.command(Some(command));
    K.LoggedIsRepeated(Decoded(codec, raw), q);
  }
}
