/** Every step of the cluster keeps the invariant, so every run does; the safety theorems follow. */
module RaftSafety {
  import opened Options
  import opened RaftState
  import opened RaftCluster
  import opened RaftHistory
  import opened RaftEvolve
  import opened RaftActions
  import opened RaftReplication

  // ---------------------------------------------------------------- elections

  lemma VoteRequestStep(c: Cluster, h: History, m: Message) returns (h': History)
    requires Inv(c, h) && m in c.net && m.VoteRequest? && m.dst < |c.peers|
    ensures Grows(h, h') && Inv(After(c, ReceiveVoteRequest(m)), h')
  {
    var s, args := m.dst, m.ballot;
    var c' := After(c, ReceiveVoteRequest(m));
    if args.term < c.peers[s].currentTerm {
      AnswerStep(c, h, s, VoteAnswer(s, m.src, args.term, VoteReply(c.peers[s].currentTerm, false)));
      assert c' == Update(c, s, c.peers[s],
        {VoteAnswer(s, m.src, args.term, VoteReply(c.peers[s].currentTerm, false))});
      return h;
    }
    var d := if c.peers[s].currentTerm < args.term then Update(c, s, StepDown(c.peers[s], args.term), {}) else c;
    if c.peers[s].currentTerm < args.term { StepDownStep(c, h, s, args.term); }
    var q := d.peers[s];
    assert MessageOk(d, h, m);
    if (q.votedFor == NO_VOTE || q.votedFor == args.candidateId) && UpToDate(q, args) {
      h' := h.(votes := h.votes[(s, args.term) := args.candidateId]);
      GrantStep(d, h, s, args, h');
      assert c' == Update(d, s, GrantVote(q, args.candidateId),
        {VoteAnswer(s, m.src, args.term, VoteReply(args.term, true))});
    } else {
      h' := h;
      AnswerStep(d, h, s, VoteAnswer(s, m.src, args.term, VoteReply(q.currentTerm, false)));
      assert c' == Update(d, s, q, {VoteAnswer(s, m.src, args.term, VoteReply(q.currentTerm, false))});
    }
  }

  /** Sending a message changes nothing else. */
  lemma AnswerStep(c: Cluster, h: History, s: nat, m: Message)
    requires Inv(c, h) && s < |c.peers| && MessageOk(c, h, m)
    ensures Inv(Update(c, s, c.peers[s], {m}), h)
  {
    var c' := Update(c, s, c.peers[s], {m});
    assert PeerOk(|c.peers|, h, s, c.peers[s]);
    assert c'.peers == c.peers;
    MessagesStay(c, h, c', h, m);
    QuietStep(c, h, s, c.peers[s], {m});
  }

  lemma VoteAnswerStep(c: Cluster, h: History, m: Message) returns (h': History)
    requires Inv(c, h) && m in c.net && m.VoteAnswer? && m.dst < |c.peers|
    ensures Grows(h, h') && Inv(After(c, ReceiveVoteAnswer(m)), h')
  {
    var s := m.dst;
    var p := c.peers[s];
    var c' := After(c, ReceiveVoteAnswer(m));
    assert MessageOk(c, h, m) && PeerOk(|c.peers|, h, s, p);
    h' := h;
    if p.currentTerm != m.ballotTerm || (!m.vote.granted && m.vote.term <= p.currentTerm) {
      assert c' == Update(c, s, p, {});
      QuietStep(c, h, s, p, {});
    } else if !m.vote.granted {
      StepDownStep(c, h, s, m.vote.term);
    } else {
      h' := GrantedStep(c, h, s, m.src, m.vote);
    }
  }

  lemma GrantedStep(c: Cluster, h: History, s: nat, from: nat, reply: VoteReply) returns (h': History)
    requires reply.granted
    requires Inv(c, h) && s < |c.peers| && from < |c.peers| && from != s
    requires (from, c.peers[s].currentTerm) in h.votes && h.votes[(from, c.peers[s].currentTerm)] == s
    ensures Grows(h, h')
    ensures Inv(Update(c, s, CountVote(c.peers[s], from, c.peers[s].currentTerm, reply), {}), h')
  {
    var p := c.peers[s];
    var q := p.(voters := p.voters + {from});
    CountedVote(c, h, s, from);
    h' := h;
    if q.role == Candidate && 1 + |q.voters| >= q.Majority() {
      h' := CountedWin(c, h, s, q);
    }
  }

  /** `q` is the candidate with the winning vote counted. */
  lemma CountedWin(c: Cluster, h: History, s: nat, q: Peer) returns (h': History)
    requires s < |c.peers| && Inv(Update(c, s, q, {}), h) && q.role == Candidate && 1 + |q.voters| >= q.Majority()
    ensures Grows(h, h') && Inv(Update(c, s, BecomeLeader(q), {}), h')
  {
    var d := Update(c, s, q, {});
    assert PeerOk(|d.peers|, h, s, d.peers[s]);
    h' := HistoryAfterWin(h, q);
    WinStep(d, h, s, h');
    UpdateTwice(c, s, q, BecomeLeader(q));
  }

  lemma UpdateTwice(c: Cluster, s: nat, q: Peer, p: Peer)
    requires s < |c.peers|
    ensures Update(Update(c, s, q, {}), s, p, {}) == Update(c, s, p, {})
  {
    assert c.peers[s := q][s := p] == c.peers[s := p];
  }

  lemma CountedVote(c: Cluster, h: History, s: nat, from: nat)
    requires Inv(c, h) && s < |c.peers| && from < |c.peers| && from != s
    requires (from, c.peers[s].currentTerm) in h.votes && h.votes[(from, c.peers[s].currentTerm)] == s
    ensures Inv(Update(c, s, c.peers[s].(voters := c.peers[s].voters + {from}), {}), h)
  {
    var p := c.peers[s];
    var q := p.(voters := p.voters + {from});
    assert PeerOk(|c.peers|, h, s, p);
    CountedPeer(|c.peers|, h, s, p, from);
    QuietStep(c, h, s, q, {});
  }

  lemma CountedPeer(size: nat, h: History, s: nat, p: Peer, from: nat)
    requires PeerOk(size, h, s, p) && from < size && from != s
    requires (from, p.currentTerm) in h.votes && h.votes[(from, p.currentTerm)] == s
    ensures PeerOk(size, h, s, p.(voters := p.voters + {from}))
  {
    var q := p.(voters := p.voters + {from});
    forall k | 0 <= k < |p.calls| && p.role == Leader ensures CallOk(size, h, q, q.calls[k]) {
      CallStays(size, h, h, p, q, p.calls[k]);
    }
  }

  // ---------------------------------------------------------------- leader side of replication

  lemma ClientStep(c: Cluster, h: History, s: nat, command: Command) returns (h': History)
    requires Inv(c, h) && s < |c.peers|
    ensures Grows(h, h') && Inv(After(c, ClientStart(s, command)), h')
  {
    var p := c.peers[s];
    assert PeerOk(|c.peers|, h, s, p);
    if p.role == Leader {
      h' := HistoryAfterStart(h, p, LogEntry(|p.log|, p.currentTerm, Some(command)));
      StartStep(c, h, s, command, h');
    } else {
      h' := h;
      QuietStep(c, h, s, p, {});
    }
  }

  lemma BeatStep(c: Cluster, h: History, s: nat)
    requires Inv(c, h) && s < |c.peers|
    ensures Inv(After(c, Beat(s)), h)
  {
    assert PeerOk(|c.peers|, h, s, c.peers[s]);
    PeerAfterBeat(|c.peers|, h, s, c.peers[s]);
    QuietStep(c, h, s, HeartBeat(c.peers[s]), {});
  }

  lemma PeerAfterBeat(size: nat, h: History, s: nat, p: Peer)
    requires PeerOk(size, h, s, p)
    ensures PeerOk(size, h, s, HeartBeat(p))
  {
    var p' := HeartBeat(p);
    if p.role == Leader {
      assert Placed(p.log, |p.log| - 1);
      forall k | 0 <= k < |p'.calls| ensures CallOk(size, h, p', p'.calls[k]) {
        if k < |p.calls| { CallStays(size, h, h, p, p', p.calls[k]); }
      }
    }
  }

  lemma BuiltEntries(p: Peer, call: nat, to: nat)
    requires StillSends(p, call, to) && CanBuild(p, call, to) && p.snapshot.index == 0
    ensures var a, next, last := BuildAppend(p, call, to), p.nextIndex[to], p.calls[call].index;
            && a.prevLogIndex == next - 1 && a.prevLogTerm == p.At(next - 1).term
            && a.entries == (if next <= last then p.log[next..last + 1] else [])
  {
  }

  lemma SliceAt(log: seq<LogEntry>, a: AppendArgs, next: nat, last: nat)
    requires last < |log| && next <= |log| && a.prevLogIndex == next - 1
    requires a.prevLogTerm == (if next == 0 then 0 else log[next - 1].term)
    requires a.entries == (if next <= last then log[next..last + 1] else [])
    ensures SliceOf(log, a) && last <= a.prevLogIndex + |a.entries|
  {
    var n := |a.entries|;
    assert a.entries == log[next..next + n];
  }

  lemma BuiltFromLog(p: Peer, call: nat, to: nat)
    requires StillSends(p, call, to) && CanBuild(p, call, to)
    requires p.snapshot.index == p.snapshot.term == 0 && p.calls[call].index < |p.log|
    ensures var a := BuildAppend(p, call, to);
            && SliceOf(p.log, a) && p.calls[call].index <= a.prevLogIndex + |a.entries|
            && a.term == p.currentTerm && a.snapshot == p.snapshot && a.leaderCommit == p.calls[call].commitIndex
  {
    BuiltEntries(p, call, to);
    SliceAt(p.log, BuildAppend(p, call, to), p.nextIndex[to], p.calls[call].index);
  }

  lemma SenderInOffice(size: nat, h: History, s: nat, p: Peer, call: nat, to: nat)
    requires PeerOk(size, h, s, p) && StillSends(p, call, to)
    ensures CanBuild(p, call, to) && p.snapshot == Snapshot(0, 0, [])
    ensures p.calls[call].index < |p.log| && p.calls[call].commitIndex <= p.calls[call].index
    ensures Settled(size, h, p.log, p.calls[call].commitIndex, p.currentTerm)
    ensures p.currentTerm > 0 && p.currentTerm in h.reigns && h.reigns[p.currentTerm].log == p.log
  {
    assert CallOk(size, h, p, p.calls[call]);
  }

  lemma BuiltArgs(size: nat, h: History, s: nat, p: Peer, call: nat, to: nat)
    requires PeerOk(size, h, s, p) && StillSends(p, call, to)
    ensures CanBuild(p, call, to)
    ensures ArgsOk(size, h, BuildAppend(p, call, to))
    ensures var a := BuildAppend(p, call, to);
            a.term == p.currentTerm && p.calls[call].index <= a.prevLogIndex + |a.entries|
  {
    SenderInOffice(size, h, s, p, call, to);
    BuiltFromLog(p, call, to);
  }

  lemma SendStep(c: Cluster, h: History, s: nat, call: nat, to: nat)
    requires Inv(c, h) && s < |c.peers| && StillSends(c.peers[s], call, to) && CanBuild(c.peers[s], call, to)
    ensures Inv(After(c, Send(s, call, to)), h)
  {
    var m := AppendRequest(s, to, call, BuildAppend(c.peers[s], call, to));
    BuiltMessage(c, h, s, call, to, m);
    AnswerStep(c, h, s, m);
    assert After(c, Send(s, call, to)) == Update(c, s, c.peers[s], {m});
  }

  lemma BuiltMessage(c: Cluster, h: History, s: nat, call: nat, to: nat, m: Message)
    requires PeersOk(c, h) && s < |c.peers| && StillSends(c.peers[s], call, to) && CanBuild(c.peers[s], call, to)
    requires m == AppendRequest(s, to, call, BuildAppend(c.peers[s], call, to))
    ensures MessageOk(c, h, m)
  {
    assert PeerOk(|c.peers|, h, s, c.peers[s]);
    BuiltArgs(|c.peers|, h, s, c.peers[s], call, to);
  }

  /** The reply to a request sent at `nextIndex` moves the leader to an index inside its log. */
  lemma BackUpInRange(p: Peer, reply: AppendReply, nextIndex: nat)
    requires reply.conflictIndex < nextIndex <= p.snapshot.index + |p.log|
    ensures CanBackUp(p, reply, nextIndex) && BackUp(p, reply, nextIndex) <= nextIndex
  {
  }

  lemma AppendAnswerInRange(c: Cluster, h: History, m: Message)
    requires Inv(c, h) && m in c.net && m.AppendAnswer? && m.dst < |c.peers|
    ensures CanCountAppend(c.peers[m.dst], m.src, m.call, m.args, m.reply)
    ensures Awaits(c.peers[m.dst], m.call, m.args) ==>
              && c.peers[m.dst].role == Leader && LeaderOk(|c.peers|, h, c.peers[m.dst])
              && c.peers[m.dst].snapshot.index == 0
              && m.src < |c.peers| && m.src != m.dst
              && 0 <= m.args.prevLogIndex + 1 <= |c.peers[m.dst].log|
              && (m.reply.success ==> Acked(h, m.src, m.args.term, c.peers[m.dst].calls[m.call].index))
              && (!m.reply.success && m.reply.term <= m.args.term ==> RefusalOk(m.args, m.reply))
  {
    var p := c.peers[m.dst];
    if Awaits(p, m.call, m.args) {
      assert PeerOk(|c.peers|, h, m.dst, p);
      AwaitsInOffice(|c.peers|, h, m.dst, p, m.call, m.args);
      AnswerFacts(c, h, m);
      if !m.reply.success && m.reply.term <= m.args.term {
        BackUpInRange(p, m.reply, m.args.prevLogIndex + 1);
      }
    }
  }

  /** Only a leader in office awaits answers of its term. */
  lemma AwaitsInOffice(size: nat, h: History, s: nat, p: Peer, call: nat, args: AppendArgs)
    requires PeerOk(size, h, s, p) && Awaits(p, call, args)
    ensures p.role == Leader && LeaderOk(size, h, p) && p.snapshot.index == 0
    ensures args.term in h.reigns && h.reigns[args.term].log == p.log && p.calls[call].index < |p.log|
  {
    assert p.role == Leader ==> CallOk(size, h, p, p.calls[call]);
  }

  lemma AnswerFacts(c: Cluster, h: History, m: Message)
    requires NetOk(c, h) && m in c.net && m.AppendAnswer? && m.dst < |c.peers|
    requires c.peers[m.dst].role == Leader && c.peers[m.dst].currentTerm == m.args.term
    requires m.args.term in h.reigns && h.reigns[m.args.term].log == c.peers[m.dst].log
    ensures m.src < |c.peers| && m.src != m.dst && 0 <= m.args.prevLogIndex + 1 <= |c.peers[m.dst].log|
    ensures m.call < |c.peers[m.dst].calls|
    ensures m.reply.success ==> Acked(h, m.src, m.args.term, c.peers[m.dst].calls[m.call].index)
    ensures !m.reply.success && m.reply.term <= m.args.term ==> RefusalOk(m.args, m.reply)
  {
    assert MessageOk(c, h, m);
  }

  lemma AppendAnswerStep(c: Cluster, h: History, m: Message)
    requires Inv(c, h) && m in c.net && m.AppendAnswer? && m.dst < |c.peers|
    requires CanCountAppend(c.peers[m.dst], m.src, m.call, m.args, m.reply)
    ensures Inv(After(c, ReceiveAppendAnswer(m)), h)
  {
    var s := m.dst;
    var p, a := c.peers[s], m.args;
    AppendAnswerInRange(c, h, m);
    if !Awaits(p, m.call, a) {
      assert PeerOk(|c.peers|, h, s, p);
      QuietStep(c, h, s, p, {});
    } else if m.reply.success {
      SuccessStep(c, h, s, m.src, m.call);
    } else if a.term < m.reply.term {
      StepDownStep(c, h, s, m.reply.term);
    } else {
      BackUpStep(c, h, s, m.src, m.reply, a.prevLogIndex + 1);
    }
  }

  lemma BackUpStep(c: Cluster, h: History, s: nat, from: nat, reply: AppendReply, nextIndex: nat)
    requires Inv(c, h) && s < |c.peers| && from < |c.peers| && c.peers[s].role == Leader
    requires reply.conflictIndex < nextIndex <= |c.peers[s].log|
    requires |c.peers[s].nextIndex| == |c.peers| && CanBackUp(c.peers[s], reply, nextIndex)
    ensures Inv(Update(c, s,
      c.peers[s].(nextIndex := c.peers[s].nextIndex[from := BackUp(c.peers[s], reply, nextIndex)]), {}), h)
  {
    var p := c.peers[s];
    assert PeerOk(|c.peers|, h, s, p);
    BackUpInRange(p, reply, nextIndex);
    PeerAfterBackUp(|c.peers|, h, s, p, from, BackUp(p, reply, nextIndex));
    QuietStep(c, h, s, p.(nextIndex := p.nextIndex[from := BackUp(p, reply, nextIndex)]), {});
  }

  lemma PeerAfterBackUp(size: nat, h: History, s: nat, p: Peer, from: nat, next: nat)
    requires PeerOk(size, h, s, p) && p.role == Leader && from < |p.nextIndex| == size && next <= |p.log|
    ensures PeerOk(size, h, s, p.(nextIndex := p.nextIndex[from := next]))
  {
    var p' := p.(nextIndex := p.nextIndex[from := next]);
    forall k | 0 <= k < |p.calls| ensures CallOk(size, h, p', p'.calls[k]) {
      CallStays(size, h, h, p, p', p.calls[k]);
    }
  }

  lemma SuccessStep(c: Cluster, h: History, s: nat, from: nat, call: nat)
    requires Inv(c, h) && s < |c.peers| && from < |c.peers| && from != s
    requires c.peers[s].role == Leader && call < |c.peers[s].calls| && LeaderOk(|c.peers|, h, c.peers[s])
    requires c.peers[s].calls[call].index < c.peers[s].snapshot.index + |c.peers[s].log|
    requires Acked(h, from, c.peers[s].currentTerm, c.peers[s].calls[call].index)
    ensures Inv(Update(c, s, CountSuccess(c.peers[s], from, call), {}), h)
  {
    assert PeerOk(|c.peers|, h, s, c.peers[s]);
    PeerAfterSuccess(c, h, s, c.peers[s], from, call);
    CallsAfterSuccess(c, h, s, from, call);
    QuietStep(c, h, s, CountSuccess(c.peers[s], from, call), {});
  }

  lemma CallsAfterSuccess(c: Cluster, h: History, s: nat, from: nat, call: nat)
    requires s < |c.peers| && call < |c.peers[s].calls|
    requires c.peers[s].calls[call].index < c.peers[s].snapshot.index + |c.peers[s].log|
    requires from < |c.peers[s].nextIndex| == |c.peers[s].matchIndex|
    ensures CallsKept(c, h, Update(c, s, CountSuccess(c.peers[s], from, call), {}))
    ensures var p, p' := c.peers[s], CountSuccess(c.peers[s], from, call);
            p'.currentTerm == p.currentTerm && p'.votedFor == p.votedFor && p'.log == p.log
  {
  }

  lemma PeerAfterSuccess(c: Cluster, h: History, s: nat, p: Peer, from: nat, call: nat)
    requires s < |c.peers| && from < |c.peers| && from != s && PeerOk(|c.peers|, h, s, p) && p.role == Leader
    requires LeaderOk(|c.peers|, h, p) && call < |p.calls| && p.calls[call].index < |p.log|
    requires Acked(h, from, p.currentTerm, p.calls[call].index)
    ensures PeerOk(|c.peers|, h, s, CountSuccess(p, from, call))
  {
    LeaderAfterSuccess(|c.peers|, h, p, from, call);
    SuccessFields(p, from, call);
    CommitAfterSuccess(c, h, s, p, from, call);
  }

  /** Counting a success touches the indices, the broadcast and the commit index only. */
  lemma SuccessFields(p: Peer, from: nat, call: nat)
    requires call < |p.calls| && from < |p.nextIndex| == |p.matchIndex|
    requires p.snapshot.index == 0 && p.calls[call].index < |p.log|
    ensures var p', index := CountSuccess(p, from, call), p.calls[call].index;
            && p' == p.(nextIndex := p'.nextIndex, matchIndex := p'.matchIndex, calls := p'.calls,
                        commitIndex := p'.commitIndex)
            && |p'.calls| == |p.calls| && p'.calls[call].index == index
            && (p'.commitIndex != p.commitIndex ==>
                  && p.commitIndex < index == p'.commitIndex
                  && p.log[index].term == p.currentTerm && 1 + |p'.calls[call].acks| >= p.Majority())
  {
  }

  lemma CommitAfterSuccess(c: Cluster, h: History, s: nat, p: Peer, from: nat, call: nat)
    requires s < |c.peers| && PeerOk(|c.peers|, h, s, p) && p.role == Leader && LeaderOk(|c.peers|, h, p)
    requires from < |c.peers| && call < |p.calls| && p.calls[call].index < |p.log|
    requires LeaderOk(|c.peers|, h, CountSuccess(p, from, call))
    ensures p.commitIndex <= CountSuccess(p, from, call).commitIndex < |p.log|
    ensures Settled(|c.peers|, h, p.log, CountSuccess(p, from, call).commitIndex, p.currentTerm)
  {
    SuccessFields(p, from, call);
    var p' := CountSuccess(p, from, call);
    if p'.commitIndex != p.commitIndex { MajorityCommits(c, h, s, p', call); }
  }

  lemma LeaderAfterSuccess(size: nat, h: History, p: Peer, from: nat, call: nat)
    requires LeaderOk(size, h, p) && call < |p.calls| && from < size && from != p.me && p.snapshot.index == 0
    requires p.calls[call].index < |p.log|
    requires Acked(h, from, p.currentTerm, p.calls[call].index)
    ensures LeaderOk(size, h, CountSuccess(p, from, call))
  {
    var p' := CountSuccess(p, from, call);
    forall k | 0 <= k < |p'.calls| ensures CallOk(size, h, p', p'.calls[k]) {
      assert CallOk(size, h, p, p.calls[k]);
    }
  }

  /** A broadcast confirmed by a majority commits its entry when that entry is of the current term. */
  lemma MajorityCommits(c: Cluster, h: History, s: nat, p: Peer, call: nat)
    requires s < |c.peers| && p.me == s && LeaderOk(|c.peers|, h, p) && call < |p.calls|
    requires p.calls[call].index < |p.log| && p.log[p.calls[call].index].term == p.currentTerm
    requires 1 + |p.calls[call].acks| >= |c.peers| / 2 + 1
    ensures Chosen(|c.peers|, h, p.currentTerm, p.calls[call].index)
    ensures Settled(|c.peers|, h, p.log, p.calls[call].index, p.currentTerm)
  {
    var b := p.calls[call];
    assert CallOk(|c.peers|, h, p, b);
    var q := b.acks + {s};
    assert |q| == |b.acks| + 1;
    assert Majority(|c.peers|, q) && AllAcked(h, q, p.currentTerm, b.index);
    assert Witness(|c.peers|, h, p.log, b.index, p.currentTerm, p.currentTerm, b.index);
  }

  // ---------------------------------------------------------------- follower side of replication

  lemma AppendRequestStep(c: Cluster, h: History, m: Message) returns (h': History)
    requires Inv(c, h) && m in c.net && m.AppendRequest? && m.dst < |c.peers| && c.peers[m.dst].Window()
    ensures Grows(h, h') && Inv(After(c, ReceiveAppendRequest(m)), h')
  {
    var s, term := m.dst, m.args.term;
    if term < c.peers[s].currentTerm {
      h' := h;
      StaleRequestStep(c, h, m);
    } else if term == c.peers[s].currentTerm {
      h' := CurrentTermRequestStep(c, h, m);
    } else {
      var d := Update(c, s, StepDown(c.peers[s], term), {});
      StepDownStep(c, h, s, term);
      h' := CurrentTermRequestStep(d, h, m);
      SameAfterStepDown(c, m, d);
    }
  }

  lemma StaleRequestStep(c: Cluster, h: History, m: Message)
    requires Inv(c, h) && m in c.net && m.AppendRequest? && m.dst < |c.peers| && c.peers[m.dst].Window()
    requires m.args.term < c.peers[m.dst].currentTerm
    ensures Inv(After(c, ReceiveAppendRequest(m)), h)
  {
    var s := m.dst;
    assert MessageOk(c, h, m);
    var answer := AppendAnswer(s, m.src, m.call, m.args, AppendReply(c.peers[s].currentTerm, false, 0, 0));
    AnswerStep(c, h, s, answer);
    assert After(c, ReceiveAppendRequest(m)) == Update(c, s, c.peers[s], {answer});
  }

  /** A request of a later term does what it does to the peer that has taken over the term. */
  lemma SameAfterStepDown(c: Cluster, m: Message, d: Cluster)
    requires m in c.net && m.AppendRequest? && m.dst < |c.peers| && c.peers[m.dst].Window()
    requires c.peers[m.dst].currentTerm < m.args.term
      && d == Update(c, m.dst, StepDown(c.peers[m.dst], m.args.term), {})
    ensures After(c, ReceiveAppendRequest(m)) == After(d, ReceiveAppendRequest(m))
  {
    var (p, reply) := AppendEntries(d.peers[m.dst], m.args);
    var sent := {AppendAnswer(m.dst, m.src, m.call, m.args, reply)};
    assert After(c, ReceiveAppendRequest(m)) == Update(c, m.dst, p, sent);
    assert Update(c, m.dst, p, sent) == Update(d, m.dst, p, sent);
  }

  lemma CurrentTermRequestStep(c: Cluster, h: History, m: Message) returns (h': History)
    requires Inv(c, h) && m in c.net && m.AppendRequest? && m.dst < |c.peers| && c.peers[m.dst].Window()
    requires m.args.term == c.peers[m.dst].currentTerm
    ensures Grows(h, h') && Inv(After(c, ReceiveAppendRequest(m)), h')
  {
    var s := m.dst;
    var p, a := c.peers[s], Clip(c.peers[s], m.args);
    FollowerReceives(c, h, m);
    InTermAnswer(p, m.args);
    if Consistent(p, a) {
      h' := HistoryAfterAccept(h, s, a);
      AcceptStep(c, h, s, a, h');
      AcceptanceSent(c, h', m, Accept(p, a));
    } else {
      h' := h;
      RefusalSent(c, h, m, Refusal(p, a));
    }
  }

  lemma InTermAnswer(p: Peer, args: AppendArgs)
    requires p.Window() && p.currentTerm == args.term && p.snapshot.index <= Clip(p, args).prevLogIndex
    ensures var a := Clip(p, args);
            AppendEntries(p, args) == if Consistent(p, a) then (Accept(p, a), AppendReply(args.term, true, 0, 0))
                                      else (p, Refusal(p, a))
  {
  }

  /** `q` is the follower after accepting the request `m`. */
  lemma AcceptanceSent(c: Cluster, h: History, m: Message, q: Peer)
    requires m.AppendRequest? && m.dst < |c.peers| && m in c.net
    requires Inv(Update(c, m.dst, q, {}), h)
    requires 0 <= m.args.prevLogIndex + |m.args.entries|
      && Acked(h, m.dst, m.args.term, m.args.prevLogIndex + |m.args.entries|)
    ensures Inv(Update(c, m.dst, q,
      {AppendAnswer(m.dst, m.src, m.call, m.args, AppendReply(m.args.term, true, 0, 0))}), h)
  {
    var d := Update(c, m.dst, q, {});
    var answer := AppendAnswer(m.dst, m.src, m.call, m.args, AppendReply(m.args.term, true, 0, 0));
    AcceptanceOk(d, h, m);
    AnswerStep(d, h, m.dst, answer);
    SendAfterUpdate(c, m.dst, q, answer);
  }

  lemma AcceptanceOk(c: Cluster, h: History, m: Message)
    requires NetOk(c, h) && m in c.net && m.AppendRequest? && m.dst < |c.peers|
    requires 0 <= m.args.prevLogIndex + |m.args.entries|
      && Acked(h, m.dst, m.args.term, m.args.prevLogIndex + |m.args.entries|)
    ensures MessageOk(c, h, AppendAnswer(m.dst, m.src, m.call, m.args, AppendReply(m.args.term, true, 0, 0)))
  {
    assert MessageOk(c, h, m);
  }

  lemma SendAfterUpdate(c: Cluster, s: nat, q: Peer, m: Message)
    requires s < |c.peers|
    ensures Update(Update(c, s, q, {}), s, q, {m}) == Update(c, s, q, {m})
  {
    assert c.net + {} == c.net && c.peers[s := q][s := q] == c.peers[s := q];
  }

  lemma RefusalSent(c: Cluster, h: History, m: Message, reply: AppendReply)
    requires Inv(c, h) && m in c.net && m.AppendRequest? && m.dst < |c.peers|
    requires !reply.success && RefusalOk(m.args, reply)
    ensures Inv(Update(c, m.dst, c.peers[m.dst], {AppendAnswer(m.dst, m.src, m.call, m.args, reply)}), h)
  {
    assert MessageOk(c, h, m);
    AnswerStep(c, h, m.dst, AppendAnswer(m.dst, m.src, m.call, m.args, reply));
  }

  lemma FollowerReceives(c: Cluster, h: History, m: Message)
    requires Inv(c, h) && m in c.net && m.AppendRequest? && m.dst < |c.peers| && c.peers[m.dst].Window()
    requires m.args.term == c.peers[m.dst].currentTerm
    ensures var p, a := c.peers[m.dst], Clip(c.peers[m.dst], m.args);
            && p.snapshot == Snapshot(0, 0, [])
            && 0 <= a.prevLogIndex && a.term == m.args.term
            && a.prevLogIndex + |a.entries| == m.args.prevLogIndex + |m.args.entries|
            && (if Consistent(p, a) then Accepts(c, h, m.dst, a) else RefusalOk(m.args, Refusal(p, a)))
  {
    var p, a := c.peers[m.dst], Clip(c.peers[m.dst], m.args);
    RequestOk(c, h, m);
    ClipKeepsArgs(|c.peers|, h, p, m.args);
    if !Consistent(p, a) { RefusalPointsBelow(p, m.args); }
  }

  lemma RequestOk(c: Cluster, h: History, m: Message)
    requires Inv(c, h) && m in c.net && m.AppendRequest? && m.dst < |c.peers|
    ensures ArgsOk(|c.peers|, h, m.args) && h.reigns[m.args.term].leader != m.dst
    ensures Shaped(h.reigns[m.args.term].log) && Backed(h, h.reigns[m.args.term].log)
    ensures Shaped(c.peers[m.dst].log) && Backed(h, c.peers[m.dst].log)
    ensures c.peers[m.dst].snapshot == Snapshot(0, 0, [])
  {
    assert MessageOk(c, h, m) && PeerOk(|c.peers|, h, m.dst, c.peers[m.dst]) && ReignOk(c, h, m.args.term);
  }

  lemma RefusalPointsBelow(p: Peer, args: AppendArgs)
    requires p.Window() && Shaped(p.log) && p.snapshot == Snapshot(0, 0, []) && !Consistent(p, Clip(p, args))
    ensures 0 <= args.prevLogIndex && Clip(p, args) == args && RefusalOk(args, Refusal(p, args))
  {
  }

  // ---------------------------------------------------------------- applying and restarting

  lemma SettledBelow(size: nat, h: History, log: seq<LogEntry>, k: nat, j: nat, term: nat)
    requires Settled(size, h, log, k, term) && j <= k
    ensures Settled(size, h, log, j, term)
  {
    if j != 0 {
      var u, i :| Witness(size, h, log, k, term, u, i);
      assert h.reigns[u].log[..j + 1] == h.reigns[u].log[..k + 1][..j + 1];
      assert Witness(size, h, log, j, term, u, i);
    }
  }

  lemma RestartStep(c: Cluster, h: History, s: nat)
    requires Inv(c, h) && s < |c.peers|
    ensures Inv(After(c, Restart(s)), h)
  {
    var p := c.peers[s];
    assert PeerOk(|c.peers|, h, s, p);
    PeerAfterRestart(|c.peers|, h, s, p);
    QuietStep(c, h, s, Make(s, p.size, p.disk), {});
  }

  lemma PeerAfterRestart(size: nat, h: History, s: nat, p: Peer)
    requires PeerOk(size, h, s, p)
    ensures PeerOk(size, h, s, Make(s, p.size, p.disk))
  {
    SettledBelow(size, h, p.log, p.commitIndex, Make(s, p.size, p.disk).commitIndex, p.currentTerm);
  }

  /** A crash between the two saves of a vote or append request leaves the disk of a peer that only stepped down. */
  lemma CrashStep(c: Cluster, h: History, m: Message)
    requires Inv(c, h) && Enabled(c, CrashInside(m))
    ensures Inv(After(c, CrashInside(m)), h)
  {
    var d := Update(c, m.dst, StepDown(c.peers[m.dst], TermOf(m)), {});
    StepDownStep(c, h, m.dst, TermOf(m));
    RestartStep(d, h, m.dst);
    assert After(c, CrashInside(m)) == After(d, Restart(m.dst));
  }

  lemma CommandsMeaning(p: Peer, from: nat, upTo: nat, msg: ApplyMsg)
    requires p.snapshot.index == 0 && upTo < |p.log| && msg in Commands(p, from, upTo)
    ensures msg.CommandMsg? && from <= msg.index <= upTo && msg.command == p.log[msg.index].command
    decreases upTo - from
  {
    if msg != CommandMsg(from, p.At(from).command) {
      CommandsMeaning(p, from + 1, upTo, msg);
    }
  }

  lemma CommittedIsFinal(size: nat, h: History, log: seq<LogEntry>, k: nat, term: nat, j: nat)
    requires Settled(size, h, log, k, term) && 0 < j <= k < |log|
    ensures exists u, i :: Final(size, h, j, log[j].command, u, i)
  {
    var u, i :| Witness(size, h, log, k, term, u, i);
    assert h.reigns[u].log[j] == h.reigns[u].log[..k + 1][j];
    assert Final(size, h, j, log[j].command, u, i);
  }

  lemma DeliverStep(c: Cluster, h: History, s: nat)
    requires Inv(c, h) && s < |c.peers| && CanApply(c.peers[s])
    ensures Inv(After(c, Deliver(s)), h)
  {
    var p := c.peers[s];
    var (p', msgs) := Apply(p);
    assert PeerOk(|c.peers|, h, s, p);
    PeerAfterApply(|c.peers|, h, s, p);
    QuietStep(c, h, s, p', {});
    AppliedIsFinal(|c.peers|, h, s, p, msgs);
    OnlyDeliveredChanges(Update(c, s, p', {}), h, After(c, Deliver(s)));
  }

  lemma PeerAfterApply(size: nat, h: History, s: nat, p: Peer)
    requires PeerOk(size, h, s, p) && CanApply(p)
    ensures PeerOk(size, h, s, Apply(p).0)
  {
    var p' := Apply(p).0;
    if p.role == Leader {
      forall k | 0 <= k < |p.calls|
        ensures CallOk(size, h, p', p'.calls[k])
      {
        CallStays(size, h, h, p, p', p.calls[k]);
      }
    }
  }

  lemma AppliedIsFinal(size: nat, h: History, s: nat, p: Peer, msgs: seq<ApplyMsg>)
    requires PeerOk(size, h, s, p) && CanApply(p) && msgs == Apply(p).1
    ensures forall msg | msg in msgs :: msg.CommandMsg? && exists u, i :: Final(size, h, msg.index, msg.command, u, i)
  {
    forall msg | msg in msgs ensures msg.CommandMsg? && exists u, i :: Final(size, h, msg.index, msg.command, u, i) {
      CommandsMeaning(p, p.lastApplied + 1, p.commitIndex, msg);
      CommittedIsFinal(size, h, p.log, p.commitIndex, p.currentTerm, msg.index);
    }
  }

  lemma OnlyDeliveredChanges(c: Cluster, h: History, c': Cluster)
    requires Inv(c, h) && c' == c.(delivered := c'.delivered) && DeliveredOk(c', h)
    ensures Inv(c', h)
  {
    SafetyStays(c, h, c');
    RecordsStay(c, h, c');
    forall m | m in c.net ensures MessageOk(c', h, m) { MessagesStay(c, h, c', h, m); }
    forall s | 0 <= s < |c'.peers|
      ensures PeerOk(|c'.peers|, h, s, c'.peers[s])
    {
      assert PeerOk(|c.peers|, h, s, c.peers[s]);
    }
  }

  // ---------------------------------------------------------------- runs

  lemma StepKeepsInv(c: Cluster, h: History, step: Step) returns (h': History)
    requires Inv(c, h) && Enabled(c, step) && !step.Compact?
    ensures Grows(h, h') && Inv(After(c, step), h')
  {
    h' := h;
    match step
    case Elect(s) =>
      h' := HistoryAfterElect(h, c.peers[s]);
      ElectStep(c, h, s, h');
    case ReceiveVoteRequest(m) => h' := VoteRequestStep(c, h, m);
    case ReceiveVoteAnswer(m) => h' := VoteAnswerStep(c, h, m);
    case ClientStart(s, command) => h' := ClientStep(c, h, s, command);
    case Beat(s) => BeatStep(c, h, s);
    case Send(s, call, to) => SendStep(c, h, s, call, to);
    case ReceiveAppendRequest(m) => h' := AppendRequestStep(c, h, m);
    case ReceiveAppendAnswer(m) => AppendAnswerStep(c, h, m);
    case Deliver(s) => DeliverStep(c, h, s);
    case Restart(s) => RestartStep(c, h, s);
    case CrashInside(m) => CrashStep(c, h, m);
  }

  ghost const EMPTY_HISTORY: History := History(map[0 := Reign(0, {}, [SENTINEL])], map[], map[], map[])

  lemma InitKeepsInv(size: nat)
    ensures Inv(Init(size), EMPTY_HISTORY)
  {
    var c, h := Init(size), EMPTY_HISTORY;
    assert BackedAt(h, [SENTINEL], 0);
    assert ReignOk(c, h, 0);
    forall s | 0 <= s < size ensures PeerOk(size, h, s, c.peers[s]) { }
  }

  ghost predicate Accompanies(run: seq<Cluster>, hs: seq<History>) {
    && |hs| == |run|
    && (forall i | 0 <= i < |run| :: Inv(run[i], hs[i]))
    && (forall i, j | 0 <= i <= j < |run| :: Grows(hs[i], hs[j]))
  }

  lemma NextKeepsInv(c: Cluster, c': Cluster, h: History) returns (h': History)
    requires Inv(c, h) && Next(c, c', false)
    ensures Grows(h, h') && Inv(c', h')
  {
    var step :| Enabled(c, step) && !step.Compact? && c' == After(c, step);
    h' := StepKeepsInv(c, h, step);
  }

  lemma RunBefore(run: seq<Cluster>, size: nat)
    requires IsRun(run, size, false) && |run| > 1
    ensures IsRun(run[..|run| - 1], size, false) && Next(run[|run| - 2], run[|run| - 1], false)
  {
    var before := run[..|run| - 1];
    forall i: nat | i + 1 < |before| ensures NextAt(before, i, false) {
      assert NextAt(run, i, false);
    }
    assert NextAt(run, |run| - 2, false);
  }

  lemma AccompaniesMore(run: seq<Cluster>, c: Cluster, hs: seq<History>, h: History)
    requires Accompanies(run, hs) && run != [] && Inv(c, h) && Grows(hs[|hs| - 1], h)
    ensures Accompanies(run + [c], hs + [h])
  {
    var run', hs' := run + [c], hs + [h];
    forall i, j | 0 <= i <= j < |run'| ensures Grows(hs'[i], hs'[j]) {
      if i < |hs| && j == |hs| { GrowsTransitively(hs[i], hs[|hs| - 1], h); }
    }
    forall i | 0 <= i < |run'| ensures Inv(run'[i], hs'[i]) {
      assert i < |run| ==> run'[i] == run[i] && hs'[i] == hs[i];
    }
  }

  lemma AccompaniesStart(run: seq<Cluster>, size: nat)
    requires IsRun(run, size, false) && |run| == 1
    ensures Accompanies(run, [EMPTY_HISTORY])
  {
    InitKeepsInv(size);
  }

  lemma AccompaniesNext(run: seq<Cluster>, hs: seq<History>) returns (h: History)
    requires |run| > 1 && Accompanies(run[..|run| - 1], hs) && Next(run[|run| - 2], run[|run| - 1], false)
    ensures Accompanies(run, hs + [h])
  {
    var n := |run| - 1;
    assert run[..n][n - 1] == run[n - 1];
    h := NextKeepsInv(run[n - 1], run[n], hs[n - 1]);
    AccompaniesMore(run[..n], run[n], hs, h);
    assert run[..n] + [run[n]] == run;
  }

  /** Every run without compaction has a history that grows along it and satisfies the invariant throughout. */
  lemma {:induction false} HistoryOf(run: seq<Cluster>, size: nat) returns (hs: seq<History>)
    requires IsRun(run, size, false)
    ensures Accompanies(run, hs)
  {
    if |run| == 1 {
      AccompaniesStart(run, size);
      hs := [EMPTY_HISTORY];
    } else {
      RunBefore(run, size);
      hs := HistoryOf(run[..|run| - 1], size);
      var h := AccompaniesNext(run, hs);
      hs := hs + [h];
    }
  }
}
