/** One key-value server (kvraft/server.go): its methods, and its state in every run of deliveries, snapshots and
    restarts. */
module KvServer {
  import opened Options
  import opened KvState
  import opened KvSnapshots
  import opened KvMerge

  /** The contents of a snapshot; empty when none was ever saved. */
  datatype Data = NoData | Data(kv: Kv)

  /** What Raft hands to the server: a command of the log, a snapshot instead of a stretch of it, or a mere notice that
      its state has been saved. */
  datatype ApplyMsg = CommandMsg(command: Command) | SnapshotMsg(index: int, data: Data) | Notice

  datatype Reply = Value(value: string) | Done | NotFound | NotLeader

  /** A snapshot as it is handed to Raft: its label and its data. */
  datatype Saved = Saved(index: int, kv: Kv)

  function Installed(s: Kv, data: Data): Kv {
    if data.NoData? then s else Install(s, data.kv)
  }

  function Received(s: Kv, msg: ApplyMsg): Kv {
    match msg
    case CommandMsg(op) => ApplyOne(s, op)
    case SnapshotMsg(_, data) => Installed(s, data)
    case Notice => s
  }

  /** The state after these messages, one turn of the apply loop each. */
  function Fed(s: Kv, msgs: seq<ApplyMsg>): Kv {
    if msgs == [] then s else Received(Fed(s, msgs[..|msgs| - 1]), msgs[|msgs| - 1])
  }

  /** The label after these messages: that of the last snapshot with data. */
  function Label(tag: int, msgs: seq<ApplyMsg>): int {
    if msgs == [] then tag
    else match msgs[|msgs| - 1]
      case SnapshotMsg(index, Data(_)) => index
      case _ => Label(tag, msgs[..|msgs| - 1])
  }

  /** The snapshot that a server saves after these messages. */
  function SavedAfter(tag: int, s: Kv, msgs: seq<ApplyMsg>): Saved {
    Saved(Label(tag, msgs), Fed(s, msgs))
  }

  class KVServer {
    var storage: map<string, string>
    var clientMsgId: map<int, int>
    var lastLogIndex: int
    const maxraftstate: int

    ghost function View(): Kv
      reads this
    {
      Kv(storage, clientMsgId)
    }

    /** The server has accepted the write of this number, or a later one of the client; unnumbered requests are new. */
    ghost predicate Known(clientId: int, msgId: int)
      reads this
    {
      msgId > 0 && clientId in clientMsgId && msgId <= clientMsgId[clientId]
    }

    constructor (maxraftstate: int)
      ensures View() == EMPTY && lastLogIndex == 0 && this.maxraftstate == maxraftstate
    {
      storage, clientMsgId, lastLogIndex := map[], map[], 0;
      this.maxraftstate := maxraftstate;
    }

    method IsRepeated(clientId: int, msgId: int, update: bool) returns (compare: bool)
      modifies `clientMsgId
      ensures compare <==> old(Repeated(View(), clientId, msgId))
      ensures View() == if update then old(Accept(View(), clientId, msgId)) else old(View())
    {
      compare := false;
      if clientId in clientMsgId {
        compare := clientMsgId[clientId] >= msgId;
      }
      if update && !compare {
        clientMsgId := clientMsgId[clientId := msgId];
      }
    }

    method Apply(op: Command)
      modifies `storage, `clientMsgId
      ensures View() == ApplyOne(old(View()), op)
    {
      if op.Write? {
        var repeated := IsRepeated(op.clientId, op.msgId, true);
        if !repeated {
          if op.opType == "Put" {
            storage := storage[op.key := op.value];
          } else if op.opType == "Append" {
            storage := storage[op.key := (if op.key in storage then storage[op.key] else "") + op.value];
          }
        }
      }
    }

    method UpdateFromSnapshot(index: int, data: Data)
      modifies this
      ensures View() == Installed(old(View()), data)
      ensures data.NoData? ==> View() == old(View())
      ensures lastLogIndex == if data.NoData? then old(lastLogIndex) else index
    {
      if data.NoData? {
        return;
      }
      lastLogIndex := index;
      clientMsgId := clientMsgId + data.kv.ids;
      storage := storage + data.kv.storage;
    }

    /** A request of the raft log is over when it is known to be repeated, or when its entry has been applied at
        `index`. */
    method RequestRaft(clientId: int, msgId: int, isLeader: bool, notified: bool, index: int) returns (ok: bool)
      modifies `lastLogIndex, `clientMsgId
      ensures View() == old(View())
      ensures ok <==> Known(clientId, msgId) || (isLeader && notified)
      ensures lastLogIndex == if !Known(clientId, msgId) && isLeader && notified then index else old(lastLogIndex)
    {
      if msgId > 0 {
        var repeated := IsRepeated(clientId, msgId, false);
        if repeated {
          return true;
        }
      }
      if !isLeader {
        return false;
      }
      if notified {
        lastLogIndex := index;
      }
      ok := notified;
    }

    /** A get goes through the log like a write, but has no number and is never repeated. */
    method Get(key: string, isLeader: bool, notified: bool, index: int) returns (reply: Reply)
      modifies `lastLogIndex, `clientMsgId
      ensures View() == old(View())
      ensures lastLogIndex == if isLeader && notified then index else old(lastLogIndex)
      ensures reply == if !(isLeader && notified) then NotLeader
        else if key in View().storage then Value(View().storage[key]) else NotFound
    {
      var ok := RequestRaft(-1, -1, isLeader, notified, index);
      if !ok {
        return NotLeader;
      }
      reply := if key in storage then Value(storage[key]) else NotFound;
    }

    method PutAppend(clientId: int, msgId: int, isLeader: bool, notified: bool, index: int) returns (reply: Reply)
      modifies `lastLogIndex, `clientMsgId
      ensures View() == old(View())
      ensures reply == if Known(clientId, msgId) || (isLeader && notified) then Done else NotLeader
      ensures lastLogIndex == if !Known(clientId, msgId) && isLeader && notified then index else old(lastLogIndex)
    {
      var ok := RequestRaft(clientId, msgId, isLeader, notified, index);
      reply := if ok then Done else NotLeader;
    }

    /** The snapshot to save when the raft state has grown too large: all data, under the label of the last request. */
    method IfSnapshot(raftStateSize: int) returns (due: Option<Saved>)
      ensures due ==
        if maxraftstate != -1 && raftStateSize >= maxraftstate then Some(Saved(lastLogIndex, View())) else None
    {
      due := None;
      if maxraftstate != -1 && raftStateSize >= maxraftstate {
        due := Some(Saved(lastLogIndex, Kv(storage, clientMsgId)));
      }
    }

    /** One turn of the apply loop: a command is applied or a snapshot installed, and then a snapshot may be due. */
    method Receive(msg: ApplyMsg, raftStateSize: int) returns (due: Option<Saved>)
      modifies this
      ensures View() == Received(old(View()), msg)
      ensures lastLogIndex == if msg.SnapshotMsg? && msg.data.Data? then msg.index else old(lastLogIndex)
      ensures due ==
        if maxraftstate != -1 && raftStateSize >= maxraftstate then Some(Saved(lastLogIndex, View())) else None
    {
      match msg {
        case CommandMsg(op) => Apply(op);
        case SnapshotMsg(index, data) => UpdateFromSnapshot(index, data);
        case Notice =>
      }
      due := IfSnapshot(raftStateSize);
    }

    /** The apply loop: the messages of the channel until the server is killed, with the size that the raft state has
        after each. */
    method ApplyLoop(msgs: seq<ApplyMsg>, sizes: seq<int>) returns (due: seq<Option<Saved>>)
      requires |sizes| == |msgs|
      modifies this
      ensures View() == Fed(old(View()), msgs) && lastLogIndex == Label(old(lastLogIndex), msgs)
      ensures |due| == |msgs|
      ensures forall k | 0 <= k < |msgs| ::
                due[k] == (if maxraftstate != -1 && sizes[k] >= maxraftstate
                           then Some(SavedAfter(old(lastLogIndex), old(View()), msgs[..k + 1])) else None)
    {
      due := [];
      for n := 0 to |msgs|
        invariant |due| == n
        invariant View() == Fed(old(View()), msgs[..n]) && lastLogIndex == Label(old(lastLogIndex), msgs[..n])
        invariant forall k | 0 <= k < n ::
                    due[k] == (if maxraftstate != -1 && sizes[k] >= maxraftstate
                               then Some(SavedAfter(old(lastLogIndex), old(View()), msgs[..k + 1])) else None)
      {
        assert msgs[..n + 1][..n] == msgs[..n];
        var saved := Receive(msgs[n], sizes[n]);
        due := due + [saved];
      }
      assert msgs[..|msgs|] == msgs;
    }
  }

  // ---------------------------------------------------------------- every run of one server

  /** The server's state and label, and the last index that Raft has delivered to it. */
  datatype Server = Server(kv: Kv, tag: nat, applied: nat)

  /** The next command arrives; a request is over at an index applied before; a snapshot with the data of j commands
      and the label i arrives in place of the commands up to i; a mere notice arrives; the server crashes. */
  datatype Step = Deliver | Finish(index: nat) | Take(i: nat, j: nat) | Note | Restart

  const FRESH := Server(EMPTY, 0, 0)

  /** What Raft and the requests may do: a snapshot comes only beyond what was delivered. */
  ghost predicate Allowed(log: seq<Command>, v: Server, step: Step) {
    match step
    case Deliver => v.applied < |log|
    case Finish(index) => index <= v.applied
    case Take(i, j) => v.applied < i <= j <= |log|
    case Note => true
    case Restart => true
  }

  /** What the step puts on the channel to the server. */
  ghost function Sends(log: seq<Command>, v: Server, step: Step): seq<ApplyMsg>
    requires Allowed(log, v, step)
  {
    match step
    case Deliver => [CommandMsg(log[v.applied])]
    case Take(i, j) => [SnapshotMsg(i, Data(State(log[..j])))]
    case Note => [Notice]
    case _ => []
  }

  ghost function After(log: seq<Command>, v: Server, step: Step): Server
    requires Allowed(log, v, step)
  {
    match step
    case Deliver => Server(Received(v.kv, CommandMsg(log[v.applied])), v.tag, v.applied + 1)
    case Finish(index) => v.(tag := index)
    case Take(i, j) => Server(Received(v.kv, SnapshotMsg(i, Data(State(log[..j])))), i, i)
    case Note => v.(kv := Received(v.kv, Notice))
    case Restart => FRESH
  }

  /** A run of one server: any steps that Raft and the requests allow. */
  ghost predicate IsRun(log: seq<Command>, run: seq<Server>, steps: seq<Step>) {
    && |run| == |steps| + 1 && run[0] == FRESH
    && forall n: nat | n < |steps| :: StepAt(log, run, steps, n)
  }

  ghost predicate StepAt(log: seq<Command>, run: seq<Server>, steps: seq<Step>, n: nat)
    requires n < |steps| && n + 1 < |run|
  {
    Allowed(log, run[n], steps[n]) && run[n + 1] == After(log, run[n], steps[n])
  }

  /** A snapshot that arrives fits the maps that it is merged into. */
  ghost predicate Fitting(log: seq<Command>, v: Server, step: Step) {
    Allowed(log, v, step) && (step.Take? ==> Fits(State(log[..step.j]), v.kv))
  }

  /** Up to moment n every snapshot fitted what it met. */
  ghost predicate AllFit(log: seq<Command>, run: seq<Server>, steps: seq<Step>, n: nat)
    requires n <= |steps| < |run|
  {
    forall k: nat | k < n :: Fitting(log, run[k], steps[k])
  }

  /** The state is that of the first n commands, at least as many as were delivered, and as the label says. */
  ghost predicate PrefixAt(log: seq<Command>, v: Server, n: nat) {
    v.applied <= n <= |log| && v.tag <= n && v.kv == State(log[..n])
  }

  ghost predicate Inv(log: seq<Command>, v: Server) {
    exists n: nat :: PrefixAt(log, v, n)
  }

  lemma DeliverKeepsInv(log: seq<Command>, v: Server, n: nat)
    requires PrefixAt(log, v, n) && v.applied < |log|
    ensures PrefixAt(log, After(log, v, Deliver), if n > v.applied then n else v.applied + 1)
  {
    var p := v.applied;
    assert log[p..p + 1] == [] + [log[p]];
    FoldOneMore(v.kv, [], log[p]);
    if n > p { SnapshotWaits(log, p, n, p + 1); } else { SnapshotReplay(log, p, n, p + 1); }
  }

  lemma TakeKeepsInv(log: seq<Command>, v: Server, n: nat, i: nat, j: nat)
    requires PrefixAt(log, v, n) && Fitting(log, v, Take(i, j))
    ensures Inv(log, After(log, v, Take(i, j)))
  {
    var data := State(log[..j]);
    assert Explains(log, j, n, data, v.kv);
    FittingIsPrefix(log, j, n, data, v.kv);
    var k: nat :| j <= k <= |log| && Install(v.kv, data) == State(log[..k]);
    assert PrefixAt(log, After(log, v, Take(i, j)), k);
  }

  lemma StepKeepsInv(log: seq<Command>, v: Server, step: Step)
    requires Inv(log, v) && Fitting(log, v, step)
    ensures Inv(log, After(log, v, step))
  {
    var n: nat :| PrefixAt(log, v, n);
    match step
    case Deliver => DeliverKeepsInv(log, v, n);
    case Finish(index) => assert PrefixAt(log, After(log, v, step), n);
    case Note => assert PrefixAt(log, After(log, v, step), n);
    case Take(i, j) => TakeKeepsInv(log, v, n, i, j);
    case Restart =>
      assert log[..0] == [];
      assert PrefixAt(log, FRESH, 0);
  }

  /** In every run that Raft allows, as long as the snapshots fit, the server's data is the fold of a prefix of the log,
      at least up to what Raft delivered, and to its label. */
  lemma {:induction false} ServerIsPrefix(log: seq<Command>, run: seq<Server>, steps: seq<Step>, n: nat)
    requires IsRun(log, run, steps) && n < |run| && AllFit(log, run, steps, n)
    ensures Inv(log, run[n])
  {
    if n == 0 {
      assert log[..0] == [];
      assert PrefixAt(log, FRESH, 0);
    } else {
      ServerIsPrefix(log, run, steps, n - 1);
      assert StepAt(log, run, steps, n - 1) && Fitting(log, run[n - 1], steps[n - 1]);
      StepKeepsInv(log, run[n - 1], steps[n - 1]);
    }
  }

  /** A server that was delivered the whole log has its state; and of any two servers the numbers of one are no lower
      than those of the other, with equal maps where the numbers are equal. */
  lemma ServersAgree(log: seq<Command>, a: seq<Server>, stepsA: seq<Step>, b: seq<Server>, stepsB: seq<Step>, m: nat,
                     n: nat)
    requires IsRun(log, a, stepsA) && IsRun(log, b, stepsB) && m < |a| && n < |b|
    requires AllFit(log, a, stepsA, m) && AllFit(log, b, stepsB, n)
    ensures a[m].applied == |log| ==> a[m].kv == State(log)
    ensures NoLower(a[m].kv.ids, b[n].kv.ids) || NoLower(b[n].kv.ids, a[m].kv.ids)
    ensures a[m].kv.ids == b[n].kv.ids ==> a[m].kv == b[n].kv
  {
    ServerIsPrefix(log, a, stepsA, m);
    ServerIsPrefix(log, b, stepsB, n);
    var x: nat :| PrefixAt(log, a[m], x);
    var y: nat :| PrefixAt(log, b[n], y);
    assert log[..|log|] == log;
    if x <= y { IdsGrow(log, x, y); } else { IdsGrow(log, y, x); }
    if a[m].kv.ids == b[n].kv.ids { EqualIds(log, x, y); }
  }

  /** A server that has only what was delivered to it is covered by every snapshot Raft may send. */
  lemma CaughtUpIsCovered(log: seq<Command>, v: Server, i: nat, j: nat)
    requires Allowed(log, v, Take(i, j)) && v.kv == State(log[..v.applied])
    ensures Covers(State(log[..j]), v.kv)
  {
    InstallNewer(log, v.applied, j);
  }

  // ---------------------------------------------------------------- every sequence of messages

  /** How far the messages lead: each command one further, each snapshot to its label. */
  function Applied(msgs: seq<ApplyMsg>): int {
    if msgs == [] then 0
    else
      var n := Applied(msgs[..|msgs| - 1]);
      match msgs[|msgs| - 1]
      case CommandMsg(_) => n + 1
      case SnapshotMsg(index, _) => index
      case Notice => n
  }

  /** Raft may send the message to a server with state s that it has led to `applied`: the next command of the log, a
      fitting snapshot of at least as many commands as its label says, beyond what was applied, or a notice. */
  ghost predicate MaySend(log: seq<Command>, s: Kv, applied: int, msg: ApplyMsg) {
    match msg
    case CommandMsg(command) => 0 <= applied < |log| && command == log[applied]
    case SnapshotMsg(index, data) =>
      data.Data? && Fits(data.kv, s) && exists j: nat :: Holds(log, applied, index, data.kv, j)
    case Notice => true
  }

  ghost predicate Holds(log: seq<Command>, applied: int, index: int, data: Kv, j: nat) {
    applied < index <= j <= |log| && data == State(log[..j])
  }

  ghost predicate Lawful(log: seq<Command>, msgs: seq<ApplyMsg>) {
    forall k: nat | k < |msgs| :: LawfulAt(log, msgs, k)
  }

  ghost predicate LawfulAt(log: seq<Command>, msgs: seq<ApplyMsg>, k: nat)
    requires k < |msgs|
  {
    MaySend(log, Fed(EMPTY, msgs[..k]), Applied(msgs[..k]), msgs[k])
  }

  ghost predicate FedPrefix(log: seq<Command>, msgs: seq<ApplyMsg>, n: nat) {
    0 <= Applied(msgs) <= n <= |log| && 0 <= Label(0, msgs) <= n && Fed(EMPTY, msgs) == State(log[..n])
  }

  lemma LawfulBefore(log: seq<Command>, msgs: seq<ApplyMsg>, msg: ApplyMsg)
    requires Lawful(log, msgs + [msg])
    ensures Lawful(log, msgs) && MaySend(log, Fed(EMPTY, msgs), Applied(msgs), msg)
  {
    var more := msgs + [msg];
    forall k: nat | k < |msgs| ensures LawfulAt(log, msgs, k) {
      assert LawfulAt(log, more, k) && more[..k] == msgs[..k];
    }
    assert LawfulAt(log, more, |msgs|) && more[..|msgs|] == msgs;
  }

  lemma FedOneMore(s: Kv, msgs: seq<ApplyMsg>, msg: ApplyMsg)
    ensures Fed(s, msgs + [msg]) == Received(Fed(s, msgs), msg)
  {
    assert (msgs + [msg])[..|msgs|] == msgs;
  }

  lemma PrefixOneMore(log: seq<Command>, msgs: seq<ApplyMsg>, msg: ApplyMsg, n: nat) returns (n': nat)
    requires FedPrefix(log, msgs, n) && MaySend(log, Fed(EMPTY, msgs), Applied(msgs), msg)
    ensures FedPrefix(log, msgs + [msg], n')
  {
    var v := Server(Fed(EMPTY, msgs), Label(0, msgs), Applied(msgs));
    assert PrefixAt(log, v, n);
    assert (msgs + [msg])[..|msgs|] == msgs;
    n' := n;
    match msg
    case CommandMsg(_) =>
      DeliverKeepsInv(log, v, n);
      n' := if n > v.applied then n else v.applied + 1;
    case SnapshotMsg(index, data) =>
      var j: nat :| Holds(log, v.applied, index, data.kv, j);
      TakeKeepsInv(log, v, n, index, j);
      n' :| PrefixAt(log, After(log, v, Take(index, j)), n');
    case Notice =>
  }

  /** Whatever messages the apply loop is given, commands, snapshots and notices, in whatever mix Raft may send them:
      the server then has the state of a prefix of the log that reaches at least as far as they lead, and as its
      label. */
  lemma {:induction false} MessagesArePrefix(log: seq<Command>, msgs: seq<ApplyMsg>) returns (n: nat)
    requires Lawful(log, msgs)
    ensures FedPrefix(log, msgs, n)
    decreases |msgs|
  {
    if msgs == [] {
      n := 0;
      assert log[..0] == [];
    } else {
      var front, msg := msgs[..|msgs| - 1], msgs[|msgs| - 1];
      assert msgs == front + [msg];
      LawfulBefore(log, front, msg);
      var m := MessagesArePrefix(log, front);
      n := PrefixOneMore(log, front, msg, m);
    }
  }

  /** What has come over the channel since the server was last started. */
  ghost function Tape(log: seq<Command>, run: seq<Server>, steps: seq<Step>, n: nat): seq<ApplyMsg>
    requires n <= |steps| < |run|
  {
    if n == 0 || steps[n - 1].Restart? || !Allowed(log, run[n - 1], steps[n - 1]) then []
    else Tape(log, run, steps, n - 1) + Sends(log, run[n - 1], steps[n - 1])
  }

  lemma StepIsFed(log: seq<Command>, v: Server, step: Step, msgs: seq<ApplyMsg>)
    requires Allowed(log, v, step) && !step.Restart? && v.kv == Fed(EMPTY, msgs) && v.applied == Applied(msgs)
    ensures var v', more := After(log, v, step), msgs + Sends(log, v, step);
            v'.kv == Fed(EMPTY, more) && v'.applied == Applied(more)
  {
    if step.Finish? {
      assert msgs + [] == msgs;
    } else {
      var msg := Sends(log, v, step)[0];
      FedOneMore(EMPTY, msgs, msg);
      assert (msgs + [msg])[..|msgs|] == msgs;
    }
  }

  /** The state of a server in a run is what the apply loop makes of the messages since its last start. */
  lemma {:induction false} RunIsFed(log: seq<Command>, run: seq<Server>, steps: seq<Step>, n: nat)
    requires IsRun(log, run, steps) && n < |run|
    ensures run[n].kv == Fed(EMPTY, Tape(log, run, steps, n)) && run[n].applied == Applied(Tape(log, run, steps, n))
  {
    if n > 0 {
      RunIsFed(log, run, steps, n - 1);
      assert StepAt(log, run, steps, n - 1);
      if !steps[n - 1].Restart? { StepIsFed(log, run[n - 1], steps[n - 1], Tape(log, run, steps, n - 1)); }
    }
  }

  // ---------------------------------------------------------------- the guard is exact

  /** After every run in which all snapshots fitted and that has led to s, whatever the log: if Raft may send `data`,
      taking it leaves the state of a prefix. */
  ghost predicate SafeToTake(data: Kv, s: Kv) {
    forall log: seq<Command>, run: seq<Server>, steps: seq<Step>, i: nat, j: nat |
      IsRun(log, run, steps) && Takes(log, run, steps, i, j, data, s) ::
      Inv(log, After(log, run[|run| - 1], Take(i, j)))
  }

  /** The run ends with s, and Raft may then send `data` as the state of j commands under the label i. */
  ghost predicate Takes(log: seq<Command>, run: seq<Server>, steps: seq<Step>, i: nat, j: nat, data: Kv, s: Kv)
    requires |run| == |steps| + 1
  {
    && AllFit(log, run, steps, |steps|) && run[|run| - 1].kv == s
    && Allowed(log, run[|run| - 1], Take(i, j)) && State(log[..j]) == data
  }

  lemma GetFirst(log: seq<Command>, k: nat)
    requires k <= |log|
    ensures State(([Get("x")] + log)[..k + 1]) == State(log[..k])
  {
    assert ([Get("x")] + log)[..k + 1] == [Get("x")] + log[..k];
    FoldAppend(EMPTY, [Get("x")], log[..k]);
    assert [Get("x")] == [] + [Get("x")];
    FoldOneMore(EMPTY, [], Get("x"));
  }

  /** The server is restored from a snapshot with the label 1. */
  lemma RestoredRun(log: seq<Command>, d: nat) returns (run: seq<Server>, steps: seq<Step>)
    requires 1 <= d <= |log|
    ensures IsRun(log, run, steps) && |run| == 2 && run[1] == Server(State(log[..d]), 1, 1)
    ensures AllFit(log, run, steps, 1)
  {
    steps := [Take(1, d)];
    run := [FRESH, After(log, FRESH, steps[0])];
    assert log[..0] == [];
    InstallNewer(log, 0, d);
    assert StepAt(log, run, steps, 0) && Fitting(log, run[0], steps[0]);
  }

  lemma UnsafeToTake(data: Kv, s: Kv)
    requires Explained(data, s) && !Fits(data, s)
    ensures !SafeToTake(data, s)
  {
    var short, j, d := ShowsHarm(data, s);
    var log := [Get("x")] + short;
    var run, steps := HarmReached(short, j, d, data, s);
    NoPrefixAfterGet(short, j, After(log, run[1], Take(j + 1, j + 1)));
    OneHarmIsEnough(log, run, steps, j + 1, j + 1, data, s);
  }

  /** A get before the log makes room for a label below all data. */
  lemma HarmReached(short: seq<Command>, j: nat, d: nat, data: Kv, s: Kv) returns (run: seq<Server>, steps: seq<Step>)
    requires 0 < j <= |short| && d <= |short| && State(short[..j]) == data && State(short[..d]) == s
    ensures IsRun([Get("x")] + short, run, steps) && |run| == 2
    ensures Takes([Get("x")] + short, run, steps, j + 1, j + 1, data, s)
  {
    GetFirst(short, j);
    GetFirst(short, d);
    run, steps := RestoredRun([Get("x")] + short, d + 1);
  }

  lemma OneHarmIsEnough(log: seq<Command>, run: seq<Server>, steps: seq<Step>, i: nat, j: nat, data: Kv, s: Kv)
    requires IsRun(log, run, steps) && Takes(log, run, steps, i, j, data, s)
    requires !Inv(log, After(log, run[|run| - 1], Take(i, j)))
    ensures !SafeToTake(data, s)
  {
  }

  lemma NoPrefixAfterGet(short: seq<Command>, j: nat, v: Server)
    requires !PrefixFrom(short, j, v.kv) && j + 1 <= v.applied
    ensures !Inv([Get("x")] + short, v)
  {
    forall n: nat ensures !PrefixAt([Get("x")] + short, v, n) {
      if PrefixAt([Get("x")] + short, v, n) { GetFirst(short, n - 1); }
    }
  }

  /** For all states and snapshots that one log can have led to, taking the snapshot is safe if and only if it fits. */
  lemma TakeExactly(data: Kv, s: Kv)
    ensures SafeToTake(data, s) <==> (Explained(data, s) ==> Fits(data, s))
  {
    if Explained(data, s) && !Fits(data, s) {
      UnsafeToTake(data, s);
    } else {
      forall log: seq<Command>, run: seq<Server>, steps: seq<Step>, i: nat, j: nat |
        IsRun(log, run, steps) && Takes(log, run, steps, i, j, data, s)
        ensures Inv(log, After(log, run[|run| - 1], Take(i, j)))
      {
        ServerIsPrefix(log, run, steps, |steps|);
        var n: nat :| PrefixAt(log, run[|run| - 1], n);
        assert Explains(log, j, n, data, s);
        StepKeepsInv(log, run[|run| - 1], Take(i, j));
      }
    }
  }

  // ---------------------------------------------------------------- two runs with an older snapshot

  /** Three steps that Raft allows: a restored server is ahead of its label, and is then handed an older snapshot. */
  const TWO_SNAPSHOTS := [Take(1, 3), Take(2, 2), Deliver]

  ghost function TwoSnapshots(log: seq<Command>): (run: seq<Server>)
    requires |log| == 3
    ensures IsRun(log, run, TWO_SNAPSHOTS)
  {
    var a := After(log, FRESH, Take(1, 3));
    var b := After(log, a, Take(2, 2));
    var run := [FRESH, a, b, After(log, b, Deliver)];
    var steps := TWO_SNAPSHOTS;
    assert StepAt(log, run, steps, 0) && StepAt(log, run, steps, 1) && StepAt(log, run, steps, 2);
    run
  }

  lemma TwoSnapshotsStates(log: seq<Command>)
    requires |log| == 3
    ensures var run := TwoSnapshots(log);
            && run[1].kv == State(log) && run[2].kv == Install(State(log), State(log[..2]))
            && run[3] == Server(ApplyOne(run[2].kv, log[2]), 2, 3)
  {
    var run := TwoSnapshots(log);
    var steps := TWO_SNAPSHOTS;
    assert StepAt(log, run, steps, 0) && StepAt(log, run, steps, 1) && StepAt(log, run, steps, 2);
    assert log[..3] == log && log[..0] == [];
    InstallNewer(log, 0, 3);
  }

  /** Here the older snapshot does not fit: everything was delivered, and yet an append of the log is lost. */
  lemma OlderSnapshotLosesWrite()
    ensures var log := [PUT, Get("x"), APPEND];
            var v := TwoSnapshots(log)[3];
            v.applied == |log| && v.kv != State(log) && !Fits(State(log[..2]), State(log))
  {
    var log := [PUT, Get("x"), APPEND];
    assert Witness(3, 2) == log;
    WitnessStates(3, 2);
    TwoSnapshotsStates(log);
    var merged := TwoSnapshots(log)[2].kv;
    assert merged.storage["x"] == "" && merged.ids[2] == 1;
  }

  const OTHER := Write("Put", "y", "c", 2, 1)

  /** Here it lacks a key and a client of the server, but changes nothing, and so fits. */
  lemma UncoveredMayFit()
    ensures var log := [Get("g"), PUT, OTHER];
            var run := TwoSnapshots(log);
            && !Covers(State(log[..2]), run[1].kv) && Fits(State(log[..2]), run[1].kv)
            && run[2].kv == run[3].kv == State(log)
  {
    var log := [Get("g"), PUT, OTHER];
    TwoSnapshotsStates(log);
    assert log[..2] == [] + [Get("g")] + [PUT] && log == log[..2] + [OTHER];
    FoldOneMore(EMPTY, [], Get("g"));
    FoldOneMore(EMPTY, [Get("g")], PUT);
    FoldOneMore(EMPTY, log[..2], OTHER);
    assert State(log[..2]) == Kv(map["x" := ""], map[1 := 1]);
    assert State(log) == Kv(map["x" := "", "y" := "c"], map[1 := 1, 2 := 1]);
    assert Install(State(log), State(log[..2])) == State(log);
  }
}
