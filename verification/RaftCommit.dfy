/** Progress: what a majority has confirmed is committed, handed out, and learned by the followers. */
module RaftCommit {
  import opened RaftState
  import opened RaftCluster
  import opened RaftHistory
  import opened RaftSafety
  import opened RaftTheorems
  import opened RaftLoops
  import opened RaftDeliveries

  // ---------------------------------------------------------------- broadcasts that a majority has confirmed

  ghost predicate Confirmed(p: Peer, k: nat)
    requires k < |p.calls|
  {
    p.calls[k].acks != {} && 1 + |p.calls[k].acks| >= p.Majority()
  }

  /** The broadcast ends with an entry of the leader's own term. */
  ghost predicate OwnEntry(p: Peer, k: nat)
    requires k < |p.calls|
  {
    p.calls[k].index < |p.log| && p.log[p.calls[k].index].term == p.currentTerm
  }

  /** What a majority has confirmed is agreed on, and then committed if it is of the leader's own term. */
  ghost predicate CallCommits(p: Peer, k: nat)
    requires k < |p.calls|
  {
    && (Confirmed(p, k) ==> p.calls[k].agreed)
    && (p.calls[k].agreed && OwnEntry(p, k) ==> p.calls[k].index <= p.commitIndex)
  }

  ghost predicate Commits(p: Peer) {
    p.role == Leader ==> forall k: nat | k < |p.calls| :: CallCommits(p, k)
  }

  ghost predicate AllCommit(c: Cluster) {
    forall s: nat | s < |c.peers| :: Commits(c.peers[s])
  }

  lemma SuccessCommits(p: Peer, from: nat, call: nat)
    requires p.role == Leader && Commits(p) && p.snapshot.index == 0
    requires call < |p.calls| && from < |p.nextIndex| == |p.matchIndex| && p.calls[call].index < |p.log|
    ensures Commits(CountSuccess(p, from, call))
  {
    var q := CountSuccess(p, from, call);
    forall k: nat | k < |q.calls| ensures CallCommits(q, k) { assert CallCommits(p, k); }
  }

  /** A peer that keeps its calls and its log, and does not lower its commit index. */
  lemma SameCommits(p: Peer, q: Peer)
    requires Commits(p) && p.role == Leader && q.calls == p.calls && p.log <= q.log && q.currentTerm == p.currentTerm
    requires q.size == p.size && p.commitIndex <= q.commitIndex
    requires forall k | 0 <= k < |p.calls| :: p.calls[k].index < |p.log|
    ensures Commits(q)
  {
    forall k: nat | k < |q.calls| ensures CallCommits(q, k) { assert CallCommits(p, k); }
  }

  lemma NewCallCommits(p: Peer, q: Peer, b: Broadcast)
    requires Commits(p) && p.role == Leader && q.calls == p.calls + [b] && b.acks == {} && !b.agreed && p.log <= q.log
    requires q.currentTerm == p.currentTerm && q.size == p.size && p.commitIndex == q.commitIndex
    requires forall k | 0 <= k < |p.calls| :: p.calls[k].index < |p.log|
    ensures Commits(q)
  {
    forall k: nat | k < |q.calls| ensures CallCommits(q, k) {
      if k < |p.calls| { assert CallCommits(p, k); }
    }
  }

  lemma AnswerCommits(c: Cluster, h: History, m: Message)
    requires Inv(c, h) && AllCommit(c) && Enabled(c, ReceiveAppendAnswer(m))
    ensures Commits(CountAppend(c.peers[m.dst], m.src, m.call, m.args, m.reply))
  {
    var p := c.peers[m.dst];
    assert PeerOk(|c.peers|, h, m.dst, p) && Commits(p);
    AppendAnswerInRange(c, h, m);
    if Awaits(p, m.call, m.args) {
      CallIndices(|c.peers|, h, m.dst, p);
      if m.reply.success {
        SuccessCommits(p, m.src, m.call);
      } else if m.reply.term <= m.args.term {
        SameCommits(p, CountAppend(p, m.src, m.call, m.args, m.reply));
      }
    }
  }

  lemma BroadcastCommits(size: nat, h: History, s: nat, p: Peer, command: Command)
    requires PeerOk(size, h, s, p) && Commits(p)
    ensures Commits(StartCommand(p, command)) && Commits(HeartBeat(p))
  {
    if p.role == Leader {
      CallIndices(size, h, s, p);
      NewCallCommits(p, StartCommand(p, command), StartCommand(p, command).calls[|p.calls|]);
      NewCallCommits(p, HeartBeat(p), HeartBeat(p).calls[|p.calls|]);
    }
  }

  /** A leader has the broadcasts that it had, as long as it is in the same office. */
  ghost predicate CallsKept(p: Peer, q: Peer) {
    q.role == Leader ==>
      if p.role == Leader && p.currentTerm == q.currentTerm then
        q.calls == p.calls && q.log == p.log && q.size == p.size && q.commitIndex == p.commitIndex
      else q.calls == []
  }

  lemma AppendKeepsCalls(p: Peer, args: AppendArgs)
    requires p.Window()
    ensures CallsKept(p, AppendEntries(p, args).0)
  {
  }

  lemma VotesKeepCalls(p: Peer, ballot: VoteArgs, from: nat, term: nat, reply: VoteReply)
    ensures CallsKept(p, RequestVote(p, ballot).0) && CallsKept(p, CountVote(p, from, term, reply))
  {
  }

  /** Steps that neither begin nor confirm a broadcast leave those of a leader as they are. */
  lemma OtherStepKeeps(c: Cluster, step: Step)
    requires Enabled(c, step) && !step.Compact? && !step.ReceiveAppendAnswer? && !step.ClientStart? && !step.Beat?
    ensures CallsKept(c.peers[SiteOf(step)], After(c, step).peers[SiteOf(step)])
  {
    match step
    case ReceiveVoteRequest(m) => VotesKeepCalls(c.peers[m.dst], m.ballot, 0, 0, VoteReply(0, false));
    case ReceiveVoteAnswer(m) =>
      VotesKeepCalls(c.peers[m.dst], BallotOf(c.peers[m.dst]), m.src, m.ballotTerm, m.vote);
    case ReceiveAppendRequest(m) => AppendKeepsCalls(c.peers[m.dst], m.args);
    case _ =>
  }

  lemma OtherStepCommits(c: Cluster, h: History, step: Step)
    requires Inv(c, h) && AllCommit(c) && Enabled(c, step) && !step.Compact?
    requires !step.ReceiveAppendAnswer? && !step.ClientStart? && !step.Beat?
    ensures Commits(After(c, step).peers[SiteOf(step)])
  {
    var s := SiteOf(step);
    var p, q := c.peers[s], After(c, step).peers[s];
    OtherStepKeeps(c, step);
    if q.role == Leader && q.calls != [] {
      assert PeerOk(|c.peers|, h, s, p) && Commits(p);
      CallIndices(|c.peers|, h, s, p);
      SameCommits(p, q);
    }
  }

  lemma SiteCommits(c: Cluster, h: History, step: Step)
    requires Inv(c, h) && AllCommit(c) && Enabled(c, step) && !step.Compact?
    ensures SiteOf(step) < |After(c, step).peers| && Commits(After(c, step).peers[SiteOf(step)])
  {
    var s := SiteOf(step);
    match step
    case ReceiveAppendAnswer(m) => AnswerCommits(c, h, m);
    case ClientStart(_, command) =>
      assert PeerOk(|c.peers|, h, s, c.peers[s]) && Commits(c.peers[s]);
      BroadcastCommits(|c.peers|, h, s, c.peers[s], command);
    case Beat(_) =>
      assert PeerOk(|c.peers|, h, s, c.peers[s]) && Commits(c.peers[s]);
      var command: Command :| true;
      BroadcastCommits(|c.peers|, h, s, c.peers[s], command);
    case _ => OtherStepCommits(c, h, step);
  }

  lemma CallIndices(size: nat, h: History, s: nat, p: Peer)
    requires PeerOk(size, h, s, p) && p.role == Leader
    ensures forall k | 0 <= k < |p.calls| :: p.calls[k].index < |p.log| && p.calls[k].term == p.currentTerm
  {
    forall k | 0 <= k < |p.calls| ensures p.calls[k].index < |p.log| && p.calls[k].term == p.currentTerm {
      assert CallOk(size, h, p, p.calls[k]);
    }
  }

  lemma OthersStay(c: Cluster, step: Step, s: nat)
    requires Enabled(c, step) && s < |c.peers| && s != SiteOf(step)
    ensures |After(c, step).peers| == |c.peers| && After(c, step).peers[s] == c.peers[s]
  {
  }

  lemma StepCommits(c: Cluster, h: History, c': Cluster)
    requires Inv(c, h) && AllCommit(c) && Next(c, c', false)
    ensures AllCommit(c')
  {
    var step :| Enabled(c, step) && !step.Compact? && c' == After(c, step);
    SiteCommits(c, h, step);
    forall s: nat | s < |c'.peers| ensures Commits(c'.peers[s]) {
      if s != SiteOf(step) { OthersStay(c, step, s); }
    }
  }

  /** In every state of every run, a leader has committed every broadcast of an entry of its own term that a majority
      has confirmed to it. */
  lemma {:induction false} RunCommits(run: seq<Cluster>, size: nat, i: nat)
    requires IsRun(run, size, false) && i < |run|
    ensures AllCommit(run[i])
  {
    if i > 0 {
      RunCommits(run, size, i - 1);
      var hs := HistoryOf(run, size);
      assert NextAt(run, i - 1, false);
      StepCommits(run[i - 1], hs[i - 1], run[i]);
    }
  }

  // ---------------------------------------------------------------- answers handled since the leader took office

  /** The step is the handling, by s, of a success for its broadcast k of this term. */
  predicate Confirms(step: Step, s: nat, term: nat, k: nat) {
    && step.ReceiveAppendAnswer? && step.m.AppendAnswer? && step.m.dst == s
    && step.m.call == k && step.m.args.term == term && step.m.reply.success
  }

  /** The peers whose success for broadcast k was handled from moment i to moment j. */
  function Confirmers(steps: seq<Step>, s: nat, term: nat, k: nat, i: nat, j: nat): set<nat>
    requires i <= j <= |steps|
    decreases j - i
  {
    if j == i then {} else
      var last := steps[j - 1];
      Confirmers(steps, s, term, k, i, j - 1) + (if Confirms(last, s, term, k) then {last.m.src} else {})
  }

  ghost function AcksOf(p: Peer, k: nat): set<nat> {
    if k < |p.calls| then p.calls[k].acks else {}
  }

  lemma AnswerAcks(c: Cluster, h: History, m: Message, term: nat, k: nat)
    requires Inv(c, h) && Enabled(c, ReceiveAppendAnswer(m)) && InOffice(c, m.dst, term)
    ensures var q := CountAppend(c.peers[m.dst], m.src, m.call, m.args, m.reply);
            && AcksOf(c.peers[m.dst], k) <= AcksOf(q, k)
            && (m.call == k && m.args.term == term && m.reply.success ==> m.src in AcksOf(q, k))
  {
    var p := c.peers[m.dst];
    if m.args.term == term { AnswerAwaited(c, h, m, term); }
    if Awaits(p, m.call, m.args) && m.reply.success { SuccessAcks(p, m.src, m.call, k); }
  }

  /** A leader still waits for every answer to a request that it has sent in its term. */
  lemma AnswerAwaited(c: Cluster, h: History, m: Message, term: nat)
    requires Inv(c, h) && m in c.net && m.AppendAnswer? && m.args.term == term && InOffice(c, m.dst, term)
    ensures Awaits(c.peers[m.dst], m.call, m.args)
  {
    assert PeerOk(|c.peers|, h, m.dst, c.peers[m.dst]);
    CallIndices(|c.peers|, h, m.dst, c.peers[m.dst]);
    assert MessageOk(c, h, m);
  }

  lemma SuccessAcks(p: Peer, from: nat, call: nat, k: nat)
    requires call < |p.calls| && from < |p.nextIndex| == |p.matchIndex|
    requires p.calls[call].index < p.snapshot.index + |p.log|
    ensures var q := CountSuccess(p, from, call);
            AcksOf(p, k) <= AcksOf(q, k) && (call == k ==> from in AcksOf(q, k))
  {
  }

  lemma StepAcks(c: Cluster, h: History, step: Step, s: nat, term: nat, k: nat)
    requires Inv(c, h) && Enabled(c, step) && !step.Compact?
    requires InOffice(c, s, term) && InOffice(After(c, step), s, term)
    ensures AcksOf(c.peers[s], k) <= AcksOf(After(c, step).peers[s], k)
    ensures Confirms(step, s, term, k) ==> step.m.src in AcksOf(After(c, step).peers[s], k)
  {
    if s != SiteOf(step) {
      OthersStay(c, step, s);
    } else if step.ReceiveAppendAnswer? {
      AnswerAcks(c, h, step.m, term, k);
    } else if step.ClientStart? || step.Beat? {
      NewCallAcks(c, step, k);
    } else {
      OtherStepKeeps(c, step);
    }
  }

  lemma NewCallAcks(c: Cluster, step: Step, k: nat)
    requires Enabled(c, step) && (step.ClientStart? || step.Beat?)
    ensures AcksOf(c.peers[SiteOf(step)], k) <= AcksOf(After(c, step).peers[SiteOf(step)], k)
  {
  }

  lemma AcksAt(run: seq<Cluster>, steps: seq<Step>, size: nat, s: nat, term: nat, k: nat, t: nat)
    requires IsTrace(run, steps, size, false) && t + 1 < |run|
    requires InOffice(run[t], s, term) && InOffice(run[t + 1], s, term)
    ensures AcksOf(run[t].peers[s], k) <= AcksOf(run[t + 1].peers[s], k)
    ensures Confirms(steps[t], s, term, k) ==> steps[t].m.src in AcksOf(run[t + 1].peers[s], k)
  {
    TraceIsRun(run, steps, size, false);
    var hs := HistoryOf(run, size);
    assert StepAt(run, steps, t, false);
    StepAcks(run[t], hs[t], steps[t], s, term, k);
  }

  /** Server s leads in `term` from moment i to moment j. */
  ghost predicate StaysInOffice(run: seq<Cluster>, s: nat, term: nat, i: nat, j: nat) {
    i <= j < |run| && InOffice(run[j], s, term) && forall t: nat | i <= t < j :: InOffice(run[t], s, term)
  }

  lemma {:induction false} ConfirmersAcked(run: seq<Cluster>, steps: seq<Step>, size: nat, s: nat, term: nat, k: nat,
                                           i: nat, j: nat)
    requires IsTrace(run, steps, size, false) && StaysInOffice(run, s, term, i, j)
    ensures Confirmers(steps, s, term, k, i, j) <= AcksOf(run[j].peers[s], k)
    decreases j - i
  {
    if i < j {
      ConfirmersAcked(run, steps, size, s, term, k, i, j - 1);
      AcksAt(run, steps, size, s, term, k, j - 1);
    }
  }

  /** In every run, when a leader in office has handled successes for broadcast k from peers that make a majority with
      itself, and the entry of the broadcast is of its own term, it has committed that entry. */
  lemma MajorityIsCommitted(run: seq<Cluster>, steps: seq<Step>, size: nat, s: nat, term: nat, k: nat, i: nat, j: nat)
    requires IsTrace(run, steps, size, false) && StaysInOffice(run, s, term, i, j)
    requires Confirmers(steps, s, term, k, i, j) != {}
    requires 1 + |Confirmers(steps, s, term, k, i, j)| >= size / 2 + 1
    ensures k < |run[j].peers[s].calls| && run[j].peers[s].calls[k].index < |run[j].peers[s].log|
    ensures var p := run[j].peers[s]; p.log[p.calls[k].index].term == term ==> p.calls[k].index <= p.commitIndex
  {
    TraceIsRun(run, steps, size, false);
    var hs := HistoryOf(run, size);
    var p := run[j].peers[s];
    assert Inv(run[j], hs[j]) && PeerOk(|run[j].peers|, hs[j], s, p);
    SameSize(run, size, j);
    ConfirmersAcked(run, steps, size, s, term, k, i, j);
    Enough(Confirmers(steps, s, term, k, i, j), AcksOf(p, k));
    CallIndices(|run[j].peers|, hs[j], s, p);
    RunCommits(run, size, j);
    assert Commits(p) && CallCommits(p, k);
  }

  lemma Enough<T>(a: set<T>, b: set<T>)
    requires a <= b && a != {}
    ensures b != {} && |a| <= |b|
  {
    var x :| x in a;
    assert x in b;
    assert b == a + (b - a);
  }
}
