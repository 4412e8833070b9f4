/** Fast back-up: how far the leader retreats after a refused request, without compaction. */
module RaftBackUp {
  import opened RaftState
  import opened RaftCluster
  import opened RaftHistory
  import opened RaftSafety

  /** Terms never fall along the log, and only the sentinel has term 0. */
  ghost predicate Rising(p: Peer) {
    p.snapshot.index == 0 && Shaped(p.log) && forall i | 0 < i < |p.log| :: p.log[i].term > 0
  }

  // ---------------------------------------------------------------- what the searches find

  lemma {:induction false} SearchDownFinds(p: Peer, index: nat, term: nat)
    requires p.snapshot.index == 0 && index < |p.log|
    ensures var r := SearchDown(p, index, term, 0);
            && (r != 0 ==> p.log[r].term == term)
            && forall i | r < i <= index :: p.log[i].term != term
    decreases index
  {
    if index > 0 && p.log[index].term != term {
      SearchDownFinds(p, index - 1, term);
    }
  }

  lemma {:induction false} SearchUpFinds(p: Peer, index: nat, term: nat, limit: nat)
    requires p.snapshot.index == 0 && limit <= |p.log|
    ensures var r := SearchUp(p, index, term, limit);
            && (r > index ==> p.log[r].term == term)
            && (r + 1 < limit ==> p.log[r + 1].term != term)
    decreases limit - index
  {
    if index + 1 < limit && p.log[index + 1].term == term {
      SearchUpFinds(p, index + 1, term, limit);
    }
  }

  lemma {:induction false} RunStartFinds(p: Peer, index: nat)
    requires p.snapshot.index == 0 && 0 < index < |p.log|
    ensures var r := RunStart(p, index, 0);
            && 0 < r <= index
            && p.log[r].term == p.log[index].term
            && (r > 1 ==> p.log[r - 1].term != p.log[index].term)
    decreases index
  {
    if index > 1 && p.log[index - 1].term == p.log[index].term {
      RunStartFinds(p, index - 1);
    }
  }

  // ---------------------------------------------------------------- the two bounds

  /** A refusal that names a term the leader does not have at the refused entry sends the leader strictly back. */
  lemma BackUpRetreats(p: Peer, reply: AppendReply, next: nat)
    requires p.snapshot.index == 0 && reply.conflictIndex < next <= |p.log|
    requires reply.conflictTerm == 0 || reply.conflictTerm != p.log[next - 1].term
    ensures CanBackUp(p, reply, next) && BackUp(p, reply, next) < next
  {
    if reply.conflictTerm != 0 && p.log[reply.conflictIndex].term >= reply.conflictTerm {
      SearchDownFinds(p, reply.conflictIndex, reply.conflictTerm);
      SearchUpFinds(p, SearchDown(p, reply.conflictIndex, reply.conflictTerm, 0), reply.conflictTerm, next);
    }
  }

  /** The leader retreats no further than to the last index on which it agrees with the follower. */
  lemma BackUpKeepsAgreement(leader: Peer, follower: Peer, args: AppendArgs, k: nat)
    requires Rising(leader) && Rising(follower) && follower.Window()
    requires 0 <= args.prevLogIndex < |leader.log| && args.prevLogTerm == leader.log[args.prevLogIndex].term
    requires !Consistent(follower, args)
    requires k < |leader.log| && k < |follower.log| && leader.log[..k + 1] == follower.log[..k + 1]
    ensures var reply, next := Refusal(follower, args), args.prevLogIndex + 1;
            CanBackUp(leader, reply, next) && k <= BackUp(leader, reply, next)
  {
    var prev, reply := args.prevLogIndex, Refusal(follower, args);
    if reply.conflictTerm != 0 && prev < |follower.log| - 1 {
      RunStartFinds(follower, prev);
      assert leader.log[k] == leader.log[..k + 1][k] == follower.log[k];
      AgreementInRun(leader, follower, prev, k);
    }
  }

  lemma AgreementInRun(leader: Peer, follower: Peer, prev: nat, k: nat)
    requires Rising(leader) && Rising(follower)
    requires 0 < prev < |follower.log| - 1 && prev < |leader.log| && k < prev
    requires leader.log[k] == follower.log[k] && leader.log[..k + 1] == follower.log[..k + 1]
    requires leader.log[prev].term != follower.log[prev].term
    ensures var term := follower.log[prev].term;
            var reply := AppendReply(follower.currentTerm, false, RunStart(follower, prev, 0), term);
            CanBackUp(leader, reply, prev + 1) && k <= BackUp(leader, reply, prev + 1)
  {
    var term, start := follower.log[prev].term, RunStart(follower, prev, 0);
    RunStartFinds(follower, prev);
    if k > start {
      // the agreement reaches into the follower's run: the leader has the run's term there too
      assert leader.log[start] == leader.log[..k + 1][start] == follower.log[..k + 1][start];
      assert Ordered(follower.log, start, k) && Ordered(follower.log, k, prev);
      assert SearchDown(leader, start, term, 0) == start;
      UpFromAgreement(leader, start, term, k, prev + 1);
    } else if leader.log[start].term >= term {
      var found := SearchDown(leader, start, term, 0);
      SearchDownFinds(leader, start, term);
      assert k < start - 1 ==> Ordered(follower.log, k, start - 1);
      assert start > 1 ==> Ordered(follower.log, start - 1, prev);
      if k < start && found != 0 { LowerTermIsBelow(leader.log, k, found); }
    }
  }

  lemma LowerTermIsBelow(log: seq<LogEntry>, k: nat, f: nat)
    requires Shaped(log) && k < |log| && f < |log| && log[k].term < log[f].term
    ensures k < f
  {
    assert f < k ==> Ordered(log, f, k);
  }

  /** The upward search passes every entry of the run. */
  lemma {:induction false} UpFromAgreement(p: Peer, index: nat, term: nat, k: nat, limit: nat)
    requires p.snapshot.index == 0 && Shaped(p.log) && index <= k < limit <= |p.log|
    requires p.log[index].term == term && p.log[k].term == term
    ensures k <= SearchUp(p, index, term, limit)
    decreases k - index
  {
    if index < k {
      assert Ordered(p.log, index, index + 1);
      assert index + 1 < k ==> Ordered(p.log, index + 1, k);
      UpFromAgreement(p, index + 1, term, k, limit);
    }
  }

  // ---------------------------------------------------------------- over runs

  /** A refusal of the leader's own term, whenever it is handled, gives an index below that of the request. */
  lemma RefusalRetreats(c: Cluster, h: History, m: Message)
    requires Inv(c, h) && m in c.net && m.AppendAnswer? && m.dst < |c.peers|
    requires Awaits(c.peers[m.dst], m.call, m.args) && !m.reply.success && m.reply.term <= m.args.term
    ensures 0 <= m.args.prevLogIndex + 1 && CanBackUp(c.peers[m.dst], m.reply, m.args.prevLogIndex + 1)
    ensures BackUp(c.peers[m.dst], m.reply, m.args.prevLogIndex + 1) < m.args.prevLogIndex + 1
  {
    AppendAnswerInRange(c, h, m);
    assert MessageOk(c, h, m);
    BackUpRetreats(c.peers[m.dst], m.reply, m.args.prevLogIndex + 1);
  }

  /** So it is in every run. */
  lemma RefusalLowersNextIndex(run: seq<Cluster>, size: nat, i: nat, m: Message)
    requires IsRun(run, size, false) && i < |run|
    requires m in run[i].net && m.AppendAnswer? && m.dst < |run[i].peers|
    requires Awaits(run[i].peers[m.dst], m.call, m.args)
    requires !m.reply.success && m.reply.term <= m.args.term
    ensures 0 <= m.args.prevLogIndex + 1 && CanBackUp(run[i].peers[m.dst], m.reply, m.args.prevLogIndex + 1)
    ensures BackUp(run[i].peers[m.dst], m.reply, m.args.prevLogIndex + 1) < m.args.prevLogIndex + 1
  {
    var hs := HistoryOf(run, size);
    assert Inv(run[i], hs[i]);
    RefusalRetreats(run[i], hs[i], m);
  }

  lemma BackedRises(h: History, p: Peer)
    requires LogOk(h, p.log, p.currentTerm) && p.snapshot.index == 0
    requires 0 in h.reigns && |h.reigns[0].log| == 1
    ensures Rising(p)
  {
    forall i | 0 < i < |p.log| ensures p.log[i].term > 0 { assert BackedAt(h, p.log, i); }
  }

  lemma {:induction false} NetGrows(run: seq<Cluster>, size: nat, i: nat, j: nat)
    requires IsRun(run, size, false) && i <= j < |run|
    ensures run[i].net <= run[j].net
  {
    if i < j {
      NetGrows(run, size, i, j - 1);
      assert NextAt(run, j - 1, false);
    }
  }

  /** In every run, a follower's refusal never sends the leader in office below an entry on which both agree: the
      follower refuses at moment i, and the leader handles the reply at moment j with the log that it has by then. */
  lemma RefusalKeepsAgreement(run: seq<Cluster>, size: nat, i: nat, j: nat, m: Message, k: nat)
    requires IsRun(run, size, false) && i <= j < |run|
    requires m in run[i].net && m.AppendRequest? && m.src < |run[j].peers| && m.dst < |run[i].peers|
    requires run[j].peers[m.src].role == Leader && run[j].peers[m.src].currentTerm == m.args.term
    requires run[i].peers[m.dst].Window() && run[i].peers[m.dst].currentTerm <= m.args.term
    requires !AppendEntries(run[i].peers[m.dst], m.args).1.success
    requires k < |run[j].peers[m.src].log| && k < |run[i].peers[m.dst].log|
    requires run[j].peers[m.src].log[..k + 1] == run[i].peers[m.dst].log[..k + 1]
    ensures var leader, reply := run[j].peers[m.src], AppendEntries(run[i].peers[m.dst], m.args).1;
            var next := m.args.prevLogIndex + 1;
            0 <= next && CanBackUp(leader, reply, next) && k <= BackUp(leader, reply, next)
  {
    var hs := HistoryOf(run, size);
    assert Inv(run[i], hs[i]) && Inv(run[j], hs[j]);
    PeerRises(run[i], hs[i], m.dst);
    PeerRises(run[j], hs[j], m.src);
    NetGrows(run, size, i, j);
    RequestMatchesLeader(run[j], hs[j], m);
    RefusedAgreement(run[j].peers[m.src], run[i].peers[m.dst], m.args, k);
  }

  lemma RefusedAgreement(leader: Peer, follower: Peer, args: AppendArgs, k: nat)
    requires Rising(leader) && Rising(follower) && follower.Window() && follower.snapshot == Snapshot(0, 0, [])
    requires -1 <= args.prevLogIndex < |leader.log|
    requires args.prevLogTerm == (if args.prevLogIndex < 0 then 0 else leader.log[args.prevLogIndex].term)
    requires follower.currentTerm <= args.term && !AppendEntries(follower, args).1.success
    requires k < |leader.log| && k < |follower.log| && leader.log[..k + 1] == follower.log[..k + 1]
    ensures var reply, next := AppendEntries(follower, args).1, args.prevLogIndex + 1;
            CanBackUp(leader, reply, next) && k <= BackUp(leader, reply, next)
  {
    var q := if follower.currentTerm < args.term then StepDown(follower, args.term) else follower;
    RefusedRequest(q, args);
    BackUpKeepsAgreement(leader, q, args, k);
  }

  lemma PeerRises(c: Cluster, h: History, s: nat)
    requires PeersOk(c, h) && RecordsOk(c, h) && s < |c.peers|
    ensures Rising(c.peers[s]) && c.peers[s].snapshot == Snapshot(0, 0, [])
  {
    assert PeerOk(|c.peers|, h, s, c.peers[s]) && ReignOk(c, h, 0);
    BackedRises(h, c.peers[s]);
  }

  lemma RequestMatchesLeader(c: Cluster, h: History, m: Message)
    requires PeersOk(c, h) && NetOk(c, h) && m in c.net && m.AppendRequest? && m.src < |c.peers|
    requires c.peers[m.src].role == Leader && c.peers[m.src].currentTerm == m.args.term
    ensures var leader := c.peers[m.src];
            && -1 <= m.args.prevLogIndex < |leader.log|
            && m.args.prevLogTerm == (if m.args.prevLogIndex < 0 then 0 else leader.log[m.args.prevLogIndex].term)
  {
    assert MessageOk(c, h, m) && PeerOk(|c.peers|, h, m.src, c.peers[m.src]);
  }

  /** A request aimed below the log is never refused, so a refused one is answered as it was sent. */
  lemma RefusedRequest(q: Peer, args: AppendArgs)
    requires Rising(q) && q.Window() && q.snapshot == Snapshot(0, 0, []) && q.currentTerm == args.term
    requires !AppendEntries(q, args).1.success
    ensures 0 <= args.prevLogIndex && !Consistent(q, args) && AppendEntries(q, args).1 == Refusal(q, args)
  {
  }
}
