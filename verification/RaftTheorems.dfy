/** The safety properties of Figure 3 of the extended Raft paper, over every run without compaction. */
module RaftTheorems {
  import opened RaftState
  import opened RaftCluster
  import opened RaftHistory
  import opened RaftEvolve
  import opened RaftActions
  import opened RaftReplication
  import opened RaftSafety

  /** Log Matching: logs of two peers, at whatever moments, that have the same term at an index agree up to it. */
  lemma LogMatching(run: seq<Cluster>, size: nat, i: nat, j: nat, a: nat, b: nat, k: nat)
    requires IsRun(run, size, false) && i < |run| && j < |run|
    requires a < |run[i].peers| && b < |run[j].peers|
    requires k < |run[i].peers[a].log| && k < |run[j].peers[b].log|
    requires run[i].peers[a].log[k].term == run[j].peers[b].log[k].term
    ensures run[i].peers[a].log[..k + 1] == run[j].peers[b].log[..k + 1]
  {
    var hs := HistoryOf(run, size);
    assert Inv(run[i], hs[i]) && PeerOk(|run[i].peers|, hs[i], a, run[i].peers[a]);
    assert Inv(run[j], hs[j]) && PeerOk(|run[j].peers|, hs[j], b, run[j].peers[b]);
    var m := if i <= j then j else i;
    assert Grows(hs[i], hs[m]) && Grows(hs[j], hs[m]);
    BackedGrows(hs[i], hs[m], run[i].peers[a].log);
    BackedGrows(hs[j], hs[m], run[j].peers[b].log);
    BackedLogsMatch(hs[m], run[i].peers[a].log, run[j].peers[b].log, k);
  }

  /** The committed part of a peer's log was committed, by the majority rule, in one reign that has all of it. */
  lemma CommitWitness(run: seq<Cluster>, hs: seq<History>, i: nat, a: nat, k: nat) returns (u: nat, x: nat)
    requires Accompanies(run, hs) && i < |run| && a < |run[i].peers| && 0 < k <= run[i].peers[a].commitIndex
    ensures k < |run[i].peers[a].log|
    ensures Chosen(|run[i].peers|, hs[i], u, x) && u <= run[i].peers[a].currentTerm && k <= x
    ensures hs[i].reigns[u].log[..k + 1] == run[i].peers[a].log[..k + 1]
  {
    var p := run[i].peers[a];
    assert Inv(run[i], hs[i]) && PeerOk(|run[i].peers|, hs[i], a, p);
    u, x :| Witness(|run[i].peers|, hs[i], p.log, p.commitIndex, p.currentTerm, u, x);
    var r := hs[i].reigns[u].log;
    assert r[..k + 1] == r[..p.commitIndex + 1][..k + 1];
  }

  /** Leader Completeness: what any peer has committed by some moment, every leader of a later term has in its
      log, at whatever moment it leads. */
  lemma LeaderCompleteness(run: seq<Cluster>, size: nat, i: nat, j: nat, a: nat, b: nat, k: nat)
    requires IsRun(run, size, false) && i < |run| && j < |run|
    requires a < |run[i].peers| && 0 < k <= run[i].peers[a].commitIndex
    requires b < |run[j].peers| && run[j].peers[b].role == Leader
    requires run[j].peers[b].currentTerm > run[i].peers[a].currentTerm
    ensures k < |run[i].peers[a].log| && k < |run[j].peers[b].log|
    ensures run[i].peers[a].log[..k + 1] == run[j].peers[b].log[..k + 1]
  {
    var hs := HistoryOf(run, size);
    var u, x := CommitWitness(run, hs, i, a, k);
    var q := run[j].peers[b];
    assert Inv(run[j], hs[j]) && PeerOk(|run[j].peers|, hs[j], b, q);
    var m := if i <= j then j else i;
    assert Grows(hs[i], hs[m]) && Grows(hs[j], hs[m]) && Inv(run[m], hs[m]);
    SameSize(run, size, i);
    SameSize(run, size, m);
    ChosenInLaterReign(run[m], hs[m], hs[i], hs[j], q, u, x, k);
  }

  /** What was chosen by one moment is in the log that a leader of a later term has at another. */
  lemma ChosenInLaterReign(c: Cluster, h: History, early: History, late: History, q: Peer, u: nat, x: nat, k: nat)
    requires RecordsOk(c, h) && ReignsSafe(c, h) && Grows(early, h) && Grows(late, h)
    requires Chosen(|c.peers|, early, u, x) && k <= x && u < q.currentTerm
    requires q.currentTerm in late.reigns && late.reigns[q.currentTerm].log == q.log
    ensures k < |q.log| && q.log[..k + 1] == early.reigns[u].log[..k + 1]
  {
    ChosenGrows(|c.peers|, early, h, u, x);
    ReignsCarryChosen(c, h, u, x, q.currentTerm);
    var first, later := h.reigns[u].log, h.reigns[q.currentTerm].log;
    assert first[..k + 1] == first[..x + 1][..k + 1] == later[..k + 1];
    assert early.reigns[u].log[..x + 1][..k + 1] == early.reigns[u].log[..k + 1];
    assert ReignOk(c, h, u);
    OldEntriesPredateReign(first, later, q.log, u, q.currentTerm, k);
  }

  /** A log that grew only by entries of its own term already had every entry of an earlier term. */
  lemma OldEntriesPredateReign(early: seq<LogEntry>, late: seq<LogEntry>, own: seq<LogEntry>, u: nat, term: nat, k: nat)
    requires GrowsInOffice(own, late, term) && TermsUpTo(early, u) && u < term
    requires k < |early| && k < |late| && early[..k + 1] == late[..k + 1]
    ensures k < |own|
  {
    assert early[k] == early[..k + 1][k] == late[k];
  }

  lemma {:induction false} SameSize(run: seq<Cluster>, size: nat, i: nat)
    requires IsRun(run, size, false) && i < |run|
    ensures |run[i].peers| == size
  {
    if i > 0 {
      SameSize(run, size, i - 1);
      assert NextAt(run, i - 1, false);
    }
  }

  /** State Machine Safety: no two deliveries of one index, by any peers at any moments, differ. */
  lemma StateMachineSafety(run: seq<Cluster>, size: nat, d: Delivery, e: Delivery)
    requires IsRun(run, size, false)
    requires d in run[|run| - 1].delivered && e in run[|run| - 1].delivered
    ensures d.msg.CommandMsg? && e.msg.CommandMsg?
    ensures d.msg.index == e.msg.index ==> d.msg.command == e.msg.command
  {
    var hs := HistoryOf(run, size);
    var c, h := run[|run| - 1], hs[|run| - 1];
    assert Inv(c, h);
    var u, i :| Final(|c.peers|, h, d.msg.index, d.msg.command, u, i);
    var v, j :| Final(|c.peers|, h, e.msg.index, e.msg.command, v, j);
    if d.msg.index == e.msg.index {
      if u <= v { SameCommand(c, h, u, i, v, d.msg.index); } else { SameCommand(c, h, v, j, u, d.msg.index); }
    }
  }

  lemma SameCommand(c: Cluster, h: History, u: nat, i: nat, v: nat, k: nat)
    requires ReignsSafe(c, h) && Chosen(|c.peers|, h, u, i) && v in h.reigns && u <= v && k <= i
      && k < |h.reigns[v].log|
    ensures h.reigns[u].log[k] == h.reigns[v].log[k]
  {
    ReignsCarryChosen(c, h, u, i, v);
    assert h.reigns[u].log[k] == h.reigns[u].log[..i + 1][k];
  }

  /** What is delivered stays delivered, so State Machine Safety at the end of a run covers all of it. */
  lemma {:induction false} DeliveredGrows(run: seq<Cluster>, size: nat, i: nat, j: nat)
    requires IsRun(run, size, false) && i <= j < |run|
    ensures run[i].delivered <= run[j].delivered
  {
    if i < j {
      DeliveredGrows(run, size, i, j - 1);
      assert NextAt(run, j - 1, false);
    }
  }

  /** A peer's commit index stays inside its log, and only a crash of that peer lowers it. */
  lemma CommitIndexMonotone(run: seq<Cluster>, size: nat, i: nat, step: Step, s: nat)
    requires IsRun(run, size, false) && i < |run| - 1 && s < |run[i].peers|
    requires Enabled(run[i], step) && !step.Compact? && run[i + 1] == After(run[i], step) && !Ends(step, s)
    ensures run[i].peers[s].commitIndex < |run[i].peers[s].log|
    ensures run[i].peers[s].commitIndex <= run[i + 1].peers[s].commitIndex
  {
    var hs := HistoryOf(run, size);
    var c, h := run[i], hs[i];
    assert Inv(c, h) && PeerOk(|c.peers|, h, s, c.peers[s]);
    if step.ReceiveAppendRequest? && step.m.dst == s && c.peers[s].currentTerm <= step.m.args.term {
      AcceptedCommit(c, h, step.m);
    } else {
      OtherStepsKeepCommit(c, step, s);
    }
  }

  lemma OtherStepsKeepCommit(c: Cluster, step: Step, s: nat)
    requires Enabled(c, step) && s < |c.peers| && !Ends(step, s)
    requires step.ReceiveAppendRequest? && step.m.dst == s ==> step.m.args.term < c.peers[s].currentTerm
    ensures c.peers[s].commitIndex <= After(c, step).peers[s].commitIndex
  {
  }

  lemma AcceptedCommit(c: Cluster, h: History, m: Message)
    requires Inv(c, h) && m in c.net && m.AppendRequest? && m.dst < |c.peers| && c.peers[m.dst].Window()
    requires c.peers[m.dst].currentTerm <= m.args.term
    ensures c.peers[m.dst].commitIndex <= AppendEntries(c.peers[m.dst], m.args).0.commitIndex
  {
    var s, term := m.dst, m.args.term;
    var d := if c.peers[s].currentTerm < term then Update(c, s, StepDown(c.peers[s], term), {}) else c;
    if c.peers[s].currentTerm < term { StepDownStep(c, h, s, term); }
    FollowerReceives(d, h, m);
    var a := Clip(d.peers[s], m.args);
    if Consistent(d.peers[s], a) {
      CommitAfterAccept(d, h, s, a);
    }
  }

  /** A request received from the current leader, however stale, removes no entry that the follower shares with
      that leader; `shared` is any common prefix of the two logs. */
  lemma StaleAppendHarmless(run: seq<Cluster>, size: nat, i: nat, m: Message, b: nat, shared: seq<LogEntry>)
    requires IsRun(run, size, false) && i < |run|
    requires m in run[i].net && m.AppendRequest? && m.dst < |run[i].peers| && run[i].peers[m.dst].Window()
    requires b < |run[i].peers| && run[i].peers[b].role == Leader && run[i].peers[b].currentTerm == m.args.term
    requires shared <= run[i].peers[m.dst].log && shared <= run[i].peers[b].log
    ensures shared <= AppendEntries(run[i].peers[m.dst], m.args).0.log
  {
    var hs := HistoryOf(run, size);
    var c, h := run[i], hs[i];
    assert Inv(c, h) && PeerOk(|c.peers|, h, b, c.peers[b]);
    if c.peers[m.dst].currentTerm <= m.args.term {
      SharedSurvives(c, h, m, shared);
    }
  }

  lemma SharedSurvives(c: Cluster, h: History, m: Message, shared: seq<LogEntry>)
    requires Inv(c, h) && m in c.net && m.AppendRequest? && m.dst < |c.peers| && c.peers[m.dst].Window()
    requires c.peers[m.dst].currentTerm <= m.args.term && m.args.term in h.reigns
    requires shared <= c.peers[m.dst].log && shared <= h.reigns[m.args.term].log
    ensures shared <= AppendEntries(c.peers[m.dst], m.args).0.log
  {
    var s, term := m.dst, m.args.term;
    if c.peers[s].currentTerm < term {
      var d := Update(c, s, StepDown(c.peers[s], term), {});
      StepDownStep(c, h, s, term);
      SharedSurvivesInTerm(d, h, m, shared);
    } else {
      SharedSurvivesInTerm(c, h, m, shared);
    }
  }

  lemma SharedSurvivesInTerm(c: Cluster, h: History, m: Message, shared: seq<LogEntry>)
    requires Inv(c, h) && m in c.net && m.AppendRequest? && m.dst < |c.peers| && c.peers[m.dst].Window()
    requires c.peers[m.dst].currentTerm == m.args.term && m.args.term in h.reigns
    requires shared <= c.peers[m.dst].log && shared <= h.reigns[m.args.term].log
    ensures shared <= AppendEntries(c.peers[m.dst], m.args).0.log
  {
    var s, term := m.dst, m.args.term;
    FollowerReceives(c, h, m);
    var a := Clip(c.peers[s], m.args);
    if Consistent(c.peers[s], a) {
      assert PeerOk(|c.peers|, h, s, c.peers[s]) && ReignOk(c, h, term);
      SpliceKeepsShared(|c.peers|, h, c.peers[s], a, shared);
    }
  }

  /** No reachable peer ever makes an access out of range: every guard of a step that stands for one holds. */
  lemma NoAccessOutOfRange(run: seq<Cluster>, size: nat, i: nat, s: nat)
    requires IsRun(run, size, false) && i < |run| && s < |run[i].peers|
    ensures run[i].peers[s].Window()
    ensures CanApply(run[i].peers[s])
    ensures forall call: nat, to: nat | StillSends(run[i].peers[s], call, to) :: CanBuild(run[i].peers[s], call, to)
    ensures forall m | m in run[i].net && m.AppendAnswer? && m.dst == s ::
              CanCountAppend(run[i].peers[s], m.src, m.call, m.args, m.reply)
  {
    var hs := HistoryOf(run, size);
    var c, h := run[i], hs[i];
    assert Inv(c, h) && PeerOk(|c.peers|, h, s, c.peers[s]);
    FollowerWindow(c.peers[s]);
    forall call: nat, to: nat | StillSends(c.peers[s], call, to) ensures CanBuild(c.peers[s], call, to) {
      BuiltArgs(|c.peers|, h, s, c.peers[s], call, to);
    }
    forall m | m in c.net && m.AppendAnswer? && m.dst == s
      ensures CanCountAppend(c.peers[s], m.src, m.call, m.args, m.reply)
    {
      AppendAnswerInRange(c, h, m);
    }
  }
}
