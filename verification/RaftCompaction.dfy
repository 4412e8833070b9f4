/** Log compaction: what saving and adopting a snapshot keep, and where every snapshot that is handed out comes from. */
module RaftCompaction {
  import opened Options
  import opened RaftState
  import opened RaftCluster
  import opened RaftEveryRun
  import opened RaftDeliveries

  // ---------------------------------------------------------------- saving and adopting

  /** `q` has the entries of `p` from `index` on, and ends where p ends. */
  ghost predicate SameFrom(p: Peer, q: Peer, index: nat) {
    && p.Window() && q.Window() && q.LastIndex() == p.LastIndex()
    && forall i | index <= i <= p.LastIndex() && p.snapshot.index <= i && q.snapshot.index <= i :: q.At(i) == p.At(i)
  }

  /** Saving at a newer index keeps the bytes with the term of that entry, in memory and on the disk, and every entry
      from it on; at any other index it changes nothing. */
  lemma SavingKeeps(p: Peer, index: nat, storage: Bytes)
    requires p.Window() && index <= p.LastIndex()
    ensures var q := SaveSnapshot(p, index, storage);
            if index <= p.snapshot.index then q == p else
              && q.snapshot == Snapshot(index, p.At(index).term, storage) && SameFrom(p, q, index)
              && Make(p.me, p.size, q.disk).snapshot == q.snapshot && Make(p.me, p.size, q.disk).log == q.log
              && q == p.(snapshot := q.snapshot, log := q.log, disk := q.disk)
  {
  }

  /** A snapshot that the log reaches takes the place of what comes before it, and of nothing else; one beyond the end
      of the log takes the place of the whole log; an older one is left. */
  lemma AdoptingKeeps(p: Peer, snapshot: Snapshot)
    requires p.Window()
    ensures var q := AdoptSnapshot(p, snapshot);
            if snapshot.index <= p.snapshot.index then q == p else
              && q.snapshot == snapshot && q == p.(snapshot := snapshot, log := q.log)
              && if snapshot.index <= p.LastIndex() then SameFrom(p, q, snapshot.index)
                 else q.log == [LogEntry(snapshot.index, snapshot.term, None)]
  {
    if p.snapshot.index < snapshot.index {
      PositionMeaning(p.log, snapshot.index);
      if snapshot.index <= p.LastIndex() {
        assert p.log[snapshot.index - p.snapshot.index].index == snapshot.index;
      }
    }
  }

  // ---------------------------------------------------------------- where snapshots come from

  const NO_SNAPSHOT := Snapshot(0, 0, [])

  /** Step k of the trace saves this snapshot: its bytes, at an index that its server has applied, with the term of the
      entry there. */
  ghost predicate SavesAt(run: seq<Cluster>, steps: seq<Step>, k: nat, snapshot: Snapshot) {
    && k < |steps| && k < |run| && steps[k].Compact? && steps[k].s < |run[k].peers|
    && steps[k].index == snapshot.index && steps[k].storage == snapshot.storage
    && var p := run[k].peers[steps[k].s];
       && p.snapshot.index < snapshot.index <= p.lastApplied && snapshot.index < p.snapshot.index + |p.log|
       && snapshot.term == p.At(snapshot.index).term
  }

  ghost predicate Saved(run: seq<Cluster>, steps: seq<Step>, i: nat, snapshot: Snapshot) {
    exists k: nat :: k < i && SavesAt(run, steps, k, snapshot)
  }

  ghost predicate Traced(run: seq<Cluster>, steps: seq<Step>, i: nat, snapshot: Snapshot) {
    snapshot == NO_SNAPSHOT || Saved(run, steps, i, snapshot)
  }

  lemma TracedOn(run: seq<Cluster>, steps: seq<Step>, i: nat, j: nat, snapshot: Snapshot)
    requires Traced(run, steps, i, snapshot) && i <= j
    ensures Traced(run, steps, j, snapshot)
  {
    if snapshot != NO_SNAPSHOT {
      var k: nat :| k < i && SavesAt(run, steps, k, snapshot);
      assert k < j && SavesAt(run, steps, k, snapshot);
    }
  }

  ghost predicate TracedPeers(run: seq<Cluster>, steps: seq<Step>, i: nat)
    requires i < |run|
  {
    forall s: nat | s < |run[i].peers| :: TracedPeer(run, steps, i, s)
  }

  ghost predicate TracedPeer(run: seq<Cluster>, steps: seq<Step>, i: nat, s: nat)
    requires i < |run| && s < |run[i].peers|
  {
    Traced(run, steps, i, run[i].peers[s].snapshot)
  }

  ghost predicate TracedNet(run: seq<Cluster>, steps: seq<Step>, i: nat)
    requires i < |run|
  {
    forall m | m in run[i].net && m.AppendRequest? :: Traced(run, steps, i, m.args.snapshot)
  }

  /** A step leaves the snapshot of its server, or takes over the one of a request, or saves one. */
  lemma SnapshotAfter(c: Cluster, step: Step)
    requires Sound(c) && Enabled(c, step)
    ensures |After(c, step).peers| == |c.peers|
    ensures var p, q := c.peers[SiteOf(step)], After(c, step).peers[SiteOf(step)];
            || q.snapshot == p.snapshot
            || (step.ReceiveAppendRequest? && q.snapshot == step.m.args.snapshot)
            || (step.Compact? && q == SaveSnapshot(p, step.index, step.storage))
    ensures forall s | 0 <= s < |c.peers| && s != SiteOf(step) :: After(c, step).peers[s] == c.peers[s]
  {
    assert SoundPeer(|c.peers|, SiteOf(step), c.peers[SiteOf(step)]);
  }

  /** Whatever a step sends carries the snapshot of its server. */
  lemma RequestsAfter(c: Cluster, step: Step, m: Message)
    requires Enabled(c, step) && m in After(c, step).net && m.AppendRequest? && m !in c.net
    ensures m.args.snapshot == c.peers[SiteOf(step)].snapshot
  {
  }

  lemma NewlySaved(run: seq<Cluster>, steps: seq<Step>, i: nat, snapshot: Snapshot)
    requires SavesAt(run, steps, i, snapshot)
    ensures Traced(run, steps, i + 1, snapshot)
  {
    assert i < i + 1;
  }

  lemma SaveIsTraced(run: seq<Cluster>, steps: seq<Step>, i: nat)
    requires i < |steps| && i < |run| && steps[i].Compact? && Enabled(run[i], steps[i])
    requires Traced(run, steps, i, run[i].peers[steps[i].s].snapshot)
    ensures Traced(run, steps, i + 1, SaveSnapshot(run[i].peers[steps[i].s], steps[i].index, steps[i].storage).snapshot)
  {
    var p := run[i].peers[steps[i].s];
    if steps[i].index <= p.snapshot.index {
      TracedOn(run, steps, i, i + 1, p.snapshot);
    } else {
      NewlySaved(run, steps, i, Snapshot(steps[i].index, p.At(steps[i].index).term, steps[i].storage));
    }
  }

  lemma PeerStaysTraced(run: seq<Cluster>, steps: seq<Step>, i: nat, s: nat)
    requires i < |steps| && i + 1 < |run| && StepAt(run, steps, i, true) && Sound(run[i])
    requires TracedPeers(run, steps, i) && TracedNet(run, steps, i) && s < |run[i + 1].peers|
    ensures TracedPeer(run, steps, i + 1, s)
  {
    SnapshotAfter(run[i], steps[i]);
    assert TracedPeer(run, steps, i, s);
    if run[i + 1].peers[s].snapshot == run[i].peers[s].snapshot {
      TracedOn(run, steps, i, i + 1, run[i].peers[s].snapshot);
    } else if steps[i].Compact? {
      SaveIsTraced(run, steps, i);
    } else {
      assert steps[i].m in run[i].net;
      TracedOn(run, steps, i, i + 1, steps[i].m.args.snapshot);
    }
  }

  lemma NetStaysTraced(run: seq<Cluster>, steps: seq<Step>, i: nat)
    requires i < |steps| && i + 1 < |run| && StepAt(run, steps, i, true)
    requires TracedPeers(run, steps, i) && TracedNet(run, steps, i)
    ensures TracedNet(run, steps, i + 1)
  {
    forall m | m in run[i + 1].net && m.AppendRequest? ensures Traced(run, steps, i + 1, m.args.snapshot) {
      if m !in run[i].net {
        RequestsAfter(run[i], steps[i], m);
        assert TracedPeer(run, steps, i, SiteOf(steps[i]));
      }
      TracedOn(run, steps, i, i + 1, m.args.snapshot);
    }
  }

  /** In every run, with compaction, each snapshot that a server has and each that a request carries was saved by some
      step of the run, its bytes together with its index and the term of the entry there. */
  lemma {:induction false} RunIsTraced(run: seq<Cluster>, steps: seq<Step>, size: nat, i: nat)
    requires IsTrace(run, steps, size, true) && i < |run|
    ensures TracedPeers(run, steps, i) && TracedNet(run, steps, i)
  {
    if i > 0 {
      RunIsTraced(run, steps, size, i - 1);
      TraceIsRun(run, steps, size, true);
      RunIsSound(run, size, i - 1);
      assert StepAt(run, steps, i - 1, true);
      forall s: nat | s < |run[i].peers| ensures TracedPeer(run, steps, i, s) {
        PeerStaysTraced(run, steps, i - 1, s);
      }
      NetStaysTraced(run, steps, i - 1);
    }
  }

  lemma {:induction false} OnlyCommands(p: Peer, from: nat, upTo: nat, msg: ApplyMsg)
    requires upTo - p.snapshot.index < |p.log| && msg in Commands(p, from, upTo)
    ensures msg.CommandMsg?
    decreases upTo - from
  {
    if msg != CommandMsg(from, p.At(from).command) { OnlyCommands(p, from + 1, upTo, msg); }
  }

  lemma AppliedSnapshot(p: Peer, msg: ApplyMsg)
    requires CanApply(p) && msg in Apply(p).1 && msg.SnapshotMsg?
    ensures msg.snapshot == p.snapshot && p.snapshot.index > 0
  {
    var q := if p.lastApplied < p.snapshot.index then p.(lastApplied := p.snapshot.index) else p;
    if msg !in (if p.lastApplied < p.snapshot.index then [SnapshotMsg(p.snapshot)] else []) {
      OnlyCommands(q, q.lastApplied + 1, q.commitIndex, msg);
    }
  }

  /** In every run, with compaction, every snapshot that any incarnation of any server is handed, on restart or when it
      has fallen behind, carries the bytes that some step of the run saved at that index. */
  lemma {:induction false} HandedWasSaved(run: seq<Cluster>, steps: seq<Step>, size: nat, s: nat, i: nat, msg: ApplyMsg)
    requires IsTrace(run, steps, size, true) && i < |run| && msg in Handed(run, steps, s, i) && msg.SnapshotMsg?
    ensures Saved(run, steps, i, msg.snapshot)
  {
    RunIsTraced(run, steps, size, i);
    RunIsTraced(run, steps, size, i - 1);
    if Ends(steps[i - 1], s) {
      assert TracedPeer(run, steps, i, s);
    } else if msg in Handed(run, steps, s, i - 1) {
      HandedWasSaved(run, steps, size, s, i - 1, msg);
      TracedOn(run, steps, i - 1, i, msg.snapshot);
    } else {
      AppliedSnapshot(run[i - 1].peers[s], msg);
      assert TracedPeer(run, steps, i - 1, s);
      TracedOn(run, steps, i - 1, i, msg.snapshot);
    }
  }
}
