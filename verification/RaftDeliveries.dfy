/** What one incarnation of a peer hands to its service, in order, and what the key-value servers make of it. */
module RaftDeliveries {
  import opened Options
  import opened RaftState
  import opened RaftCluster
  import opened RaftHistory
  import opened RaftSafety
  import opened RaftTheorems
  import KvState
  import KvServer

  // ---------------------------------------------------------------- runs with their steps

  ghost predicate Leads(c: Cluster, step: Step, c': Cluster, compacting: bool) {
    Enabled(c, step) && (step.Compact? ==> compacting) && c' == After(c, step)
  }

  ghost predicate IsTrace(run: seq<Cluster>, steps: seq<Step>, size: nat, compacting: bool) {
    && |run| == |steps| + 1 && run[0] == Init(size)
    && forall i: nat | i < |steps| :: StepAt(run, steps, i, compacting)
  }

  ghost predicate StepAt(run: seq<Cluster>, steps: seq<Step>, i: nat, compacting: bool)
    requires i < |steps| && i + 1 < |run|
  {
    Leads(run[i], steps[i], run[i + 1], compacting)
  }

  lemma TraceIsRun(run: seq<Cluster>, steps: seq<Step>, size: nat, compacting: bool)
    requires IsTrace(run, steps, size, compacting)
    ensures IsRun(run, size, compacting)
  {
    forall i: nat | i + 1 < |run| ensures NextAt(run, i, compacting) {
      assert StepAt(run, steps, i, compacting);
    }
  }

  lemma StepBetween(c: Cluster, c': Cluster, compacting: bool) returns (step: Step)
    requires Next(c, c', compacting)
    ensures Leads(c, step, c', compacting)
  {
    step :| Enabled(c, step) && (step.Compact? ==> compacting) && c' == After(c, step);
  }

  lemma MoreSteps(run: seq<Cluster>, steps: seq<Step>, step: Step, compacting: bool)
    requires |steps| + 1 < |run| && forall i: nat | i < |steps| :: StepAt(run, steps, i, compacting)
    requires Leads(run[|steps|], step, run[|steps| + 1], compacting)
    ensures forall i: nat | i < |steps + [step]| :: StepAt(run, steps + [step], i, compacting)
  {
    forall i: nat | i < |steps + [step]| ensures StepAt(run, steps + [step], i, compacting) {
      assert i < |steps| ==> StepAt(run, steps, i, compacting);
    }
  }

  lemma RunHasTrace(run: seq<Cluster>, size: nat, compacting: bool) returns (steps: seq<Step>)
    requires IsRun(run, size, compacting)
    ensures IsTrace(run, steps, size, compacting)
  {
    steps := [];
    while |steps| < |run| - 1
      invariant |steps| < |run|
      invariant forall i: nat | i < |steps| :: StepAt(run, steps, i, compacting)
    {
      var i := |steps|;
      assert NextAt(run, i, compacting);
      var step := StepBetween(run[i], run[i + 1], compacting);
      MoreSteps(run, steps, step, compacting);
      steps := steps + [step];
    }
  }

  lemma {:induction false} PeersStay(run: seq<Cluster>, steps: seq<Step>, size: nat, compacting: bool, i: nat)
    requires IsTrace(run, steps, size, compacting) && i < |run|
    ensures |run[i].peers| == size
  {
    if i > 0 {
      PeersStay(run, steps, size, compacting, i - 1);
      assert StepAt(run, steps, i - 1, compacting);
    }
  }

  // ---------------------------------------------------------------- what an incarnation hands out

  /** What the incarnation of peer s that is alive at moment i has handed to its service so far. */
  ghost function Handed(run: seq<Cluster>, steps: seq<Step>, s: nat, i: nat): seq<ApplyMsg>
    requires i < |run| <= |steps| + 1
  {
    if i == 0 || s >= |run[i].peers| then []
    else if Ends(steps[i - 1], s) then Restored(run[i].peers[s])
    else if steps[i - 1] == Deliver(s) && Enabled(run[i - 1], Deliver(s)) then
      Handed(run, steps, s, i - 1) + Apply(run[i - 1].peers[s]).1
    else Handed(run, steps, s, i - 1)
  }

  function IndexOf(msg: ApplyMsg): nat {
    match msg
    case CommandMsg(index, _) => index
    case SnapshotMsg(snapshot) => snapshot.index
  }

  /** How far the first k messages lead a service that has already been led to `from`. */
  function Reached(msgs: seq<ApplyMsg>, from: nat, k: nat): nat
    requires k <= |msgs|
  {
    if k == 0 then from else IndexOf(msgs[k - 1])
  }

  /** Every command comes right after what came before it; a snapshot jumps ahead. */
  ghost predicate InOrder(msgs: seq<ApplyMsg>, from: nat) {
    forall k: nat | k < |msgs| :: FollowsOn(msgs, from, k)
  }

  ghost predicate FollowsOn(msgs: seq<ApplyMsg>, from: nat, k: nat)
    requires k < |msgs|
  {
    if msgs[k].CommandMsg? then IndexOf(msgs[k]) == Reached(msgs, from, k) + 1
    else Reached(msgs, from, k) < IndexOf(msgs[k])
  }

  /** Messages that lead a fresh service in order to `index`. */
  ghost predicate LeadsTo(msgs: seq<ApplyMsg>, index: nat) {
    InOrder(msgs, 0) && Reached(msgs, 0, |msgs|) == index
  }

  lemma InOrderJoined(a: seq<ApplyMsg>, b: seq<ApplyMsg>, from: nat)
    requires InOrder(a, from) && InOrder(b, Reached(a, from, |a|))
    ensures InOrder(a + b, from) && Reached(a + b, from, |a + b|) == Reached(b, Reached(a, from, |a|), |b|)
  {
    forall k: nat | k < |a + b| ensures FollowsOn(a + b, from, k) {
      if k < |a| {
        assert FollowsOn(a, from, k);
      } else {
        assert FollowsOn(b, Reached(a, from, |a|), k - |a|);
      }
    }
  }

  lemma {:induction false} CommandsInOrder(p: Peer, from: nat, upTo: nat)
    requires upTo - p.snapshot.index < |p.log| && 0 < from <= upTo + 1
    ensures InOrder(Commands(p, from, upTo), from - 1)
    ensures var msgs := Commands(p, from, upTo); Reached(msgs, from - 1, |msgs|) == upTo
    decreases upTo - from
  {
    if from <= upTo {
      CommandsInOrder(p, from + 1, upTo);
      InOrderJoined([CommandMsg(from, p.At(from).command)], Commands(p, from + 1, upTo), from - 1);
    }
  }

  lemma ApplyInOrder(p: Peer)
    requires CanApply(p)
    ensures InOrder(Apply(p).1, p.lastApplied)
    ensures Reached(Apply(p).1, p.lastApplied, |Apply(p).1|) == Apply(p).0.lastApplied
  {
    var behind := p.lastApplied < p.snapshot.index;
    var q := if behind then p.(lastApplied := p.snapshot.index) else p;
    var first := if behind then [SnapshotMsg(p.snapshot)] else [];
    assert InOrder(first, p.lastApplied) && Reached(first, p.lastApplied, |first|) == q.lastApplied;
    if q.snapshot.index <= q.commitIndex && q.lastApplied < q.commitIndex {
      CommandsInOrder(q, q.lastApplied + 1, q.commitIndex);
      InOrderJoined(first, Commands(q, q.lastApplied + 1, q.commitIndex), p.lastApplied);
    }
  }

  /** Only applying moves lastApplied. */
  lemma OnlyApplyDelivers(run: seq<Cluster>, steps: seq<Step>, compacting: bool, s: nat, i: nat)
    requires i < |steps| && i + 1 < |run| && StepAt(run, steps, i, compacting)
    requires s < |run[i].peers| && !Ends(steps[i], s) && steps[i] != Deliver(s)
    ensures s < |run[i + 1].peers| && run[i + 1].peers[s].lastApplied == run[i].peers[s].lastApplied
  {
  }

  lemma EndsStartsOver(run: seq<Cluster>, steps: seq<Step>, compacting: bool, s: nat, i: nat)
    requires i < |steps| && i + 1 < |run| && StepAt(run, steps, i, compacting)
    requires s < |run[i].peers| && Ends(steps[i], s)
    ensures s < |run[i + 1].peers| && run[i + 1].peers[s].lastApplied == run[i + 1].peers[s].snapshot.index
  {
  }

  lemma MoreInOrder(run: seq<Cluster>, steps: seq<Step>, compacting: bool, s: nat, i: nat, msgs: seq<ApplyMsg>)
    requires i < |steps| && i + 1 < |run| && StepAt(run, steps, i, compacting)
    requires s < |run[i].peers| && steps[i] == Deliver(s)
    requires LeadsTo(msgs, run[i].peers[s].lastApplied)
    ensures s < |run[i + 1].peers| && CanApply(run[i].peers[s])
    ensures LeadsTo(msgs + Apply(run[i].peers[s]).1, run[i + 1].peers[s].lastApplied)
  {
    ApplyInOrder(run[i].peers[s]);
    InOrderJoined(msgs, Apply(run[i].peers[s]).1, 0);
  }

  /** In every run, with or without compaction, each incarnation hands out the commands 1, 2, 3, ... up to its
      lastApplied one by one, in this order and without a gap, except that a snapshot takes the place of a stretch. */
  lemma {:induction false} HandedInOrder(run: seq<Cluster>, steps: seq<Step>, size: nat, compacting: bool, s: nat,
                                         i: nat)
    requires IsTrace(run, steps, size, compacting) && i < |run| && s < size
    ensures |run[i].peers| == size && LeadsTo(Handed(run, steps, s, i), run[i].peers[s].lastApplied)
  {
    PeersStay(run, steps, size, compacting, i);
    if i > 0 {
      PeersStay(run, steps, size, compacting, i - 1);
      HandedInOrder(run, steps, size, compacting, s, i - 1);
      HandedOneMore(run, steps, size, compacting, s, i - 1);
    }
  }

  lemma HandedOneMore(run: seq<Cluster>, steps: seq<Step>, size: nat, compacting: bool, s: nat, i: nat)
    requires IsTrace(run, steps, size, compacting) && i + 1 < |run| && s < |run[i].peers| == |run[i + 1].peers|
    requires LeadsTo(Handed(run, steps, s, i), run[i].peers[s].lastApplied)
    ensures LeadsTo(Handed(run, steps, s, i + 1), run[i + 1].peers[s].lastApplied)
  {
    assert StepAt(run, steps, i, compacting);
    if Ends(steps[i], s) {
      EndsStartsOver(run, steps, compacting, s, i);
    } else if steps[i] == Deliver(s) {
      MoreInOrder(run, steps, compacting, s, i, Handed(run, steps, s, i));
    } else {
      OnlyApplyDelivers(run, steps, compacting, s, i);
    }
  }

  ghost predicate AllDelivered(c: Cluster, s: nat, msgs: seq<ApplyMsg>) {
    forall msg | msg in msgs :: Delivery(s, msg) in c.delivered
  }

  lemma StillDelivered(run: seq<Cluster>, size: nat, s: nat, i: nat, j: nat, msgs: seq<ApplyMsg>)
    requires IsRun(run, size, false) && i <= j < |run| && AllDelivered(run[i], s, msgs)
    ensures AllDelivered(run[j], s, msgs)
  {
    DeliveredGrows(run, size, i, j);
  }

  lemma MoreDelivered(run: seq<Cluster>, steps: seq<Step>, size: nat, s: nat, i: nat, msgs: seq<ApplyMsg>)
    requires IsTrace(run, steps, size, false) && i < |steps| && steps[i] == Deliver(s) && AllDelivered(run[i], s, msgs)
    ensures Enabled(run[i], Deliver(s)) && AllDelivered(run[i + 1], s, msgs + Apply(run[i].peers[s]).1)
  {
    assert StepAt(run, steps, i, false);
  }

  lemma NoSnapshot(run: seq<Cluster>, size: nat, s: nat, i: nat)
    requires IsRun(run, size, false) && i < |run| && s < |run[i].peers|
    ensures run[i].peers[s].snapshot.index == 0
  {
    var hs := HistoryOf(run, size);
    assert Inv(run[i], hs[i]) && PeerOk(|run[i].peers|, hs[i], s, run[i].peers[s]);
  }

  /** What was handed out is among the deliveries of the cluster. */
  lemma {:induction false} HandedIsDelivered(run: seq<Cluster>, steps: seq<Step>, size: nat, s: nat, i: nat)
    requires IsTrace(run, steps, size, false) && IsRun(run, size, false) && i < |run|
    ensures AllDelivered(run[i], s, Handed(run, steps, s, i))
  {
    PeersStay(run, steps, size, false, i);
    if i > 0 && s < size {
      PeersStay(run, steps, size, false, i - 1);
      HandedIsDelivered(run, steps, size, s, i - 1);
      if Ends(steps[i - 1], s) {
        NoSnapshot(run, size, s, i);
      } else if steps[i - 1] == Deliver(s) {
        MoreDelivered(run, steps, size, s, i - 1, Handed(run, steps, s, i - 1));
      } else {
        StillDelivered(run, size, s, i - 1, i, Handed(run, steps, s, i - 1));
      }
    }
  }

  // ---------------------------------------------------------------- one log for all

  /** Somebody was handed this command at this index. */
  ghost predicate Known(c: Cluster, index: nat, command: Option<Command>) {
    exists s: nat :: Delivery(s, CommandMsg(index, command)) in c.delivered
  }

  ghost function CommandAt(c: Cluster, index: nat): Option<Command> {
    if exists command :: Known(c, index, command) then var command :| Known(c, index, command); command else None
  }

  /** The first n commands that the cluster has agreed on, as far as anybody has seen them. */
  ghost function Agreed(c: Cluster, n: nat): seq<Option<Command>> {
    seq(n, k requires 0 <= k < n => CommandAt(c, k + 1))
  }

  /** The messages are the first |msgs| commands of the log. */
  ghost predicate Hands(msgs: seq<ApplyMsg>, commands: seq<Option<Command>>) {
    |msgs| == |commands| && forall k: nat | k < |msgs| :: msgs[k] == CommandMsg(k + 1, commands[k])
  }

  ghost predicate AllAgreed(c: Cluster, msgs: seq<ApplyMsg>) {
    forall k: nat | k < |msgs| :: msgs[k].CommandMsg? && msgs[k].command == CommandAt(c, msgs[k].index)
  }

  lemma {:induction false} CountsUp(c: Cluster, msgs: seq<ApplyMsg>, k: nat)
    requires InOrder(msgs, 0) && k <= |msgs| && AllAgreed(c, msgs)
    ensures Reached(msgs, 0, k) == k
  {
    if k > 0 {
      CountsUp(c, msgs, k - 1);
      assert FollowsOn(msgs, 0, k - 1);
    }
  }

  lemma OrderedIsAgreed(c: Cluster, msgs: seq<ApplyMsg>)
    requires InOrder(msgs, 0) && AllAgreed(c, msgs)
    ensures Reached(msgs, 0, |msgs|) == |msgs| && Hands(msgs, Agreed(c, |msgs|))
  {
    CountsUp(c, msgs, |msgs|);
    forall k: nat | k < |msgs| ensures msgs[k] == CommandMsg(k + 1, Agreed(c, |msgs|)[k]) {
      CountsUp(c, msgs, k);
      assert FollowsOn(msgs, 0, k);
    }
  }

  lemma HandedIsAgreed(run: seq<Cluster>, size: nat, s: nat, msg: ApplyMsg)
    requires IsRun(run, size, false) && Delivery(s, msg) in run[|run| - 1].delivered
    ensures msg.CommandMsg? && msg.command == CommandAt(run[|run| - 1], msg.index)
  {
    var c := run[|run| - 1];
    StateMachineSafety(run, size, Delivery(s, msg), Delivery(s, msg));
    assert Known(c, msg.index, msg.command);
    var command := CommandAt(c, msg.index);
    assert Known(c, msg.index, command);
    var t: nat :| Delivery(t, CommandMsg(msg.index, command)) in c.delivered;
    StateMachineSafety(run, size, Delivery(s, msg), Delivery(t, CommandMsg(msg.index, command)));
  }

  lemma AllHandedAgreed(run: seq<Cluster>, steps: seq<Step>, size: nat, s: nat, i: nat)
    requires IsTrace(run, steps, size, false) && i < |run|
    ensures AllAgreed(run[|run| - 1], Handed(run, steps, s, i))
  {
    TraceIsRun(run, steps, size, false);
    var msgs := Handed(run, steps, s, i);
    HandedIsDelivered(run, steps, size, s, i);
    StillDelivered(run, size, s, i, |run| - 1, msgs);
    forall k: nat | k < |msgs|
      ensures msgs[k].CommandMsg? && msgs[k].command == CommandAt(run[|run| - 1], msgs[k].index)
    {
      assert Delivery(s, msgs[k]) in run[|run| - 1].delivered;
      HandedIsAgreed(run, size, s, msgs[k]);
    }
  }

  /** In every run without compaction there is one log of commands, and what any incarnation of any server has been
      handed by any moment is exactly the part of it up to that server's lastApplied. */
  lemma OneLog(run: seq<Cluster>, steps: seq<Step>, size: nat, s: nat, i: nat)
    requires IsTrace(run, steps, size, false) && i < |run| && s < size
    ensures |run[i].peers| == size
    ensures Hands(Handed(run, steps, s, i), Agreed(run[|run| - 1], run[i].peers[s].lastApplied))
  {
    var msgs := Handed(run, steps, s, i);
    HandedInOrder(run, steps, size, false, s, i);
    AllHandedAgreed(run, steps, size, s, i);
    OrderedIsAgreed(run[|run| - 1], msgs);
  }

  // ---------------------------------------------------------------- the replicated key-value store

  /** How the service reads a command of the Raft log, and the bytes of a snapshot. */
  datatype Codec = Codec(command: Option<Command> -> KvState.Command, data: Bytes -> KvServer.Data)

  function Message(codec: Codec, msg: ApplyMsg): KvServer.ApplyMsg {
    match msg
    case CommandMsg(_, command) => KvServer.CommandMsg(codec.command(command))
    case SnapshotMsg(snapshot) => KvServer.SnapshotMsg(snapshot.index, codec.data(snapshot.storage))
  }

  function Messages(codec: Codec, msgs: seq<ApplyMsg>): seq<KvServer.ApplyMsg> {
    seq(|msgs|, k requires 0 <= k < |msgs| => Message(codec, msgs[k]))
  }

  /** A fresh key-value server after these messages. */
  function Served(codec: Codec, msgs: seq<ApplyMsg>): KvState.Kv {
    KvServer.Fed(KvState.EMPTY, Messages(codec, msgs))
  }

  function Decoded(codec: Codec, commands: seq<Option<Command>>): seq<KvState.Command> {
    seq(|commands|, k requires 0 <= k < |commands| => codec.command(commands[k]))
  }

  lemma {:induction false} ServedIsState(codec: Codec, msgs: seq<ApplyMsg>, commands: seq<Option<Command>>)
    requires Hands(msgs, commands)
    ensures Served(codec, msgs) == KvState.State(Decoded(codec, commands))
    decreases |msgs|
  {
    if msgs == [] {
      assert Decoded(codec, commands) == [];
    } else {
      var n := |msgs| - 1;
      ServedIsState(codec, msgs[..n], commands[..n]);
      assert Messages(codec, msgs) == Messages(codec, msgs[..n]) + [Message(codec, msgs[n])];
      KvServer.FedOneMore(KvState.EMPTY, Messages(codec, msgs[..n]), Message(codec, msgs[n]));
      assert Decoded(codec, commands) == Decoded(codec, commands[..n]) + [codec.command(commands[n])];
      KvState.FoldOneMore(KvState.EMPTY, Decoded(codec, commands[..n]), codec.command(commands[n]));
    }
  }

  /** The key-value store on top of Raft: in every run without compaction the state of every server at every moment is
      that of one command log up to its lastApplied. */
  lemma ReplicaIsState(codec: Codec, run: seq<Cluster>, steps: seq<Step>, size: nat, s: nat, i: nat)
    requires IsTrace(run, steps, size, false) && i < |run| && s < size
    ensures |run[i].peers| == size
    ensures Served(codec, Handed(run, steps, s, i))
         == KvState.State(Decoded(codec, Agreed(run[|run| - 1], run[i].peers[s].lastApplied)))
  {
    OneLog(run, steps, size, s, i);
    ServedIsState(codec, Handed(run, steps, s, i), Agreed(run[|run| - 1], run[i].peers[s].lastApplied));
  }

  /** So servers that have been handed equally much, at whatever moments and after whatever crashes, are equal. */
  lemma ReplicasAgree(codec: Codec, run: seq<Cluster>, steps: seq<Step>, size: nat, s: nat, i: nat, t: nat, j: nat)
    requires IsTrace(run, steps, size, false) && i < |run| && j < |run| && s < size && t < size
    requires |Handed(run, steps, s, i)| == |Handed(run, steps, t, j)|
    ensures Served(codec, Handed(run, steps, s, i)) == Served(codec, Handed(run, steps, t, j))
  {
    OneLog(run, steps, size, s, i);
    OneLog(run, steps, size, t, j);
    ReplicaIsState(codec, run, steps, size, s, i);
    ReplicaIsState(codec, run, steps, size, t, j);
  }
}
