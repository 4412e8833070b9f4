/** What stays true as a history grows. */
module RaftEvolve {
  import opened RaftState
  import opened RaftCluster
  import opened RaftHistory

  ghost predicate ReignsGrow(h: History, h': History) {
    forall t | t in h.reigns ::
      && t in h'.reigns
      && h'.reigns[t].leader == h.reigns[t].leader
      && h'.reigns[t].electors == h.reigns[t].electors
      && GrowsInOffice(h.reigns[t].log, h'.reigns[t].log, t)
  }

  /** The later log extends the earlier one by entries of the reign's own term. */
  ghost predicate GrowsInOffice(log: seq<LogEntry>, log': seq<LogEntry>, term: nat) {
    log <= log' && forall x | |log| <= x < |log'| :: log'[x].term == term
  }

  ghost predicate Grows(h: History, h': History) {
    && ReignsGrow(h, h')
    && (forall k | k in h.ballots :: k in h'.ballots && h'.ballots[k] == h.ballots[k])
    && (forall k | k in h.votes :: k in h'.votes && h'.votes[k] == h.votes[k])
    && (forall k | k in h.acks :: k in h'.acks && h.acks[k] <= h'.acks[k])
  }

  /** No term falls, and nobody confirms anything in a term it has left. */
  ghost predicate Evolves(c: Cluster, h: History, c': Cluster, h': History) {
    && |c'.peers| == |c.peers|
    && Grows(h, h')
    && (forall s | 0 <= s < |c.peers| :: c.peers[s].currentTerm <= c'.peers[s].currentTerm)
    && (forall s, t | (s, t) in h'.acks && s < |c.peers| && t < c.peers[s].currentTerm ::
          (s, t) in h.acks && h'.acks[(s, t)] == h.acks[(s, t)])
  }

  lemma GrowsTransitively(h: History, h': History, h'': History)
    requires Grows(h, h') && Grows(h', h'')
    ensures Grows(h, h'')
  {
    forall t | t in h.reigns
      ensures && t in h''.reigns
              && h''.reigns[t].leader == h.reigns[t].leader
              && h''.reigns[t].electors == h.reigns[t].electors
              && GrowsInOffice(h.reigns[t].log, h''.reigns[t].log, t)
    {
      assert t in h'.reigns;
    }
  }

  lemma BackedGrows(h: History, h': History, log: seq<LogEntry>)
    requires ReignsGrow(h, h') && Backed(h, log)
    ensures Backed(h', log)
  {
    forall i | 0 <= i < |log| ensures BackedAt(h', log, i) { assert BackedAt(h, log, i); }
  }

  lemma ChosenGrows(size: nat, h: History, h': History, t: nat, i: nat)
    requires Grows(h, h') && Chosen(size, h, t, i)
    ensures Chosen(size, h', t, i)
    ensures h'.reigns[t].log[..i + 1] == h.reigns[t].log[..i + 1]
  {
    var q :| Majority(size, q) && AllAcked(h, q, t, i);
    forall s | s in q
      ensures Acked(h', s, t, i)
    {
      assert Acked(h, s, t, i);
    }
    assert AllAcked(h', q, t, i);
  }

  lemma SettledGrows(size: nat, h: History, h': History, log: seq<LogEntry>, log': seq<LogEntry>, k: nat, term: nat,
                     term': nat)
    requires Grows(h, h') && term <= term' && Settled(size, h, log, k, term)
    requires log <= log' || (k < |log| && log[..k + 1] <= log')
    ensures Settled(size, h', log', k, term')
  {
    if k != 0 {
      var u, i :| Witness(size, h, log, k, term, u, i);
      ChosenGrows(size, h, h', u, i);
      assert h'.reigns[u].log[..k + 1] == h'.reigns[u].log[..i + 1][..k + 1] == h.reigns[u].log[..k + 1];
      assert Witness(size, h', log', k, term', u, i);
    }
  }

  lemma DeadStays(c: Cluster, h: History, c': Cluster, h': History, t: nat, i: nat)
    requires Evolves(c, h, c', h') && Dead(c, h, t, i)
    ensures Dead(c', h', t, i)
  {
    var q :| Majority(|c.peers|, q) && Passed(c, h, q, t, i);
    forall s | s in q
      ensures c'.peers[s].currentTerm > t && !Acked(h', s, t, i)
    {
      assert c.peers[s].currentTerm > t && !Acked(h, s, t, i);
    }
    assert Majority(|c'.peers|, q) && Passed(c', h', q, t, i);
  }

  lemma CarriesOrDeadStays(c: Cluster, h: History, c': Cluster, h': History, log: seq<LogEntry>, log': seq<LogEntry>,
                           t: nat, i: nat)
    requires Evolves(c, h, c', h') && t in h.reigns && i < |h.reigns[t].log|
    requires CarriesOrDead(c, h, log, t, i) && log <= log'
    ensures CarriesOrDead(c', h', log', t, i)
  {
    assert h'.reigns[t].log[..i + 1] == h.reigns[t].log[..i + 1];
    if Dead(c, h, t, i) { DeadStays(c, h, c', h', t, i); }
  }

  lemma ArgsGrow(size: nat, h: History, h': History, a: AppendArgs)
    requires Grows(h, h') && ArgsOk(size, h, a)
    ensures ArgsOk(size, h', a)
  {
    var log, log' := h.reigns[a.term].log, h'.reigns[a.term].log;
    assert log <= log';
    SettledGrows(size, h, h', log, log', a.leaderCommit, a.term, a.term);
    assert log'[a.prevLogIndex + 1..a.prevLogIndex + 1 + |a.entries|]
      == log[a.prevLogIndex + 1..a.prevLogIndex + 1 + |a.entries|];
  }

  /** Calls of a leader in office are kept, and nobody takes office in a term that already had a leader. */
  ghost predicate CallsKept(c: Cluster, h: History, c': Cluster) {
    && |c'.peers| == |c.peers|
    && forall s | 0 <= s < |c.peers| && c'.peers[s].role == Leader && c'.peers[s].currentTerm in h.reigns ::
         var p, p' := c.peers[s], c'.peers[s];
         && p.role == Leader
         && p.currentTerm == p'.currentTerm
         && |p.calls| <= |p'.calls|
         && forall k | 0 <= k < |p.calls| :: p'.calls[k].index == p.calls[k].index
  }

  lemma LinkStays(c: Cluster, h: History, c': Cluster, sender: nat, call: nat, a: AppendArgs)
    requires CallsKept(c, h, c') && CallLink(c, sender, call, a) && a.term in h.reigns
    ensures CallLink(c', sender, call, a)
  {
    var p, p' := c.peers[sender], c'.peers[sender];
    if p'.role == Leader && p'.currentTerm == a.term {
      assert p'.calls[call].index == p.calls[call].index;
    }
  }

  lemma MessagesStay(c: Cluster, h: History, c': Cluster, h': History, m: Message)
    requires |c'.peers| == |c.peers| && Grows(h, h') && CallsKept(c, h, c')
    requires MessageOk(c, h, m)
    ensures MessageOk(c', h', m)
  {
    match m
    case VoteRequest(_, _, _) =>
    case VoteAnswer(_, _, _, _) =>
    case AppendRequest(src, _, call, a) =>
      ArgsGrow(|c.peers|, h, h', a);
      LinkStays(c, h, c', src, call, a);
    case AppendAnswer(_, dst, call, a, r) =>
      ArgsGrow(|c.peers|, h, h', a);
      LinkStays(c, h, c', dst, call, a);
  }

  lemma DeliveredStays(c: Cluster, h: History, c': Cluster, h': History)
    requires |c'.peers| == |c.peers| && Grows(h, h') && DeliveredOk(c, h) && c'.delivered == c.delivered
    ensures DeliveredOk(c', h')
  {
    forall d | d in c'.delivered
      ensures d.msg.CommandMsg? && exists u, i :: Final(|c'.peers|, h', d.msg.index, d.msg.command, u, i)
    {
      var u, i :| Final(|c.peers|, h, d.msg.index, d.msg.command, u, i);
      ChosenGrows(|c.peers|, h, h', u, i);
      assert h'.reigns[u].log[d.msg.index] == h'.reigns[u].log[..i + 1][d.msg.index];
      assert Final(|c'.peers|, h', d.msg.index, d.msg.command, u, i);
    }
  }

  /** The reign of a sitting leader is untouched, and no sitting candidate has taken office. */
  ghost predicate Undisturbed(h: History, h': History, p: Peer) {
    && (p.role == Leader ==>
          && p.currentTerm in h.reigns && p.currentTerm in h'.reigns
          && h'.reigns[p.currentTerm] == h.reigns[p.currentTerm]
          && (p.me, p.currentTerm) in h.acks && (p.me, p.currentTerm) in h'.acks
          && h'.acks[(p.me, p.currentTerm)] == h.acks[(p.me, p.currentTerm)])
    && (p.role == Candidate && p.currentTerm in h'.reigns ==> h'.reigns[p.currentTerm].leader != p.me)
  }

  /** A peer untouched by a step keeps its part of the invariant. */
  lemma BystanderStays(size: nat, h: History, h': History, s: nat, p: Peer)
    requires Grows(h, h') && PeerOk(size, h, s, p) && Undisturbed(h, h', p)
    ensures PeerOk(size, h', s, p)
  {
    BackedGrows(h, h', p.log);
    SettledGrows(size, h, h', p.log, p.log, p.commitIndex, p.currentTerm, p.currentTerm);
    if p.role == Leader {
      forall k | 0 <= k < |p.calls|
        ensures CallOk(size, h', p, p.calls[k])
      {
        CallStays(size, h, h', p, p, p.calls[k]);
      }
    }
  }

  /** The parts of the invariant that a step at s keeps once its own peer and messages are right. */
  lemma SurroundingsStay(c: Cluster, h: History, s: nat, p: Peer, sent: set<Message>, h': History)
    requires PeersOk(c, h) && NetOk(c, h) && DeliveredOk(c, h) && s < |c.peers| && Grows(h, h')
    requires forall v | 0 <= v < |c.peers| && v != s :: Undisturbed(h, h', c.peers[v])
    requires PeerOk(|c.peers|, h', s, p)
    requires CallsKept(c, h, Update(c, s, p, sent))
    requires forall m | m in sent :: MessageOk(Update(c, s, p, sent), h', m)
    ensures var c' := Update(c, s, p, sent); PeersOk(c', h') && NetOk(c', h') && DeliveredOk(c', h')
  {
    var c' := Update(c, s, p, sent);
    forall v | 0 <= v < |c.peers| && v != s
      ensures PeerOk(|c.peers|, h', v, c'.peers[v])
    {
      BystanderStays(|c.peers|, h, h', v, c.peers[v]);
    }
    forall m | m in c.net
      ensures MessageOk(c', h', m)
    {
      MessagesStay(c, h, c', h', m);
    }
    DeliveredStays(c, h, c', h');
  }

  lemma CallStays(size: nat, h: History, h': History, p: Peer, p': Peer, b: Broadcast)
    requires Grows(h, h') && CallOk(size, h, p, b)
    requires p'.currentTerm == p.currentTerm && p'.me == p.me && p.log <= p'.log
    ensures CallOk(size, h', p', b)
  {
    SettledGrows(size, h, h', p.log, p'.log, b.commitIndex, p.currentTerm, p'.currentTerm);
    forall j | j in b.acks
      ensures Acked(h', j, p.currentTerm, b.index)
    {
      assert Acked(h, j, p.currentTerm, b.index);
    }
  }

  // ---------------------------------------------------------------- majorities

  lemma Members(size: nat, q: set<nat>)
    requires forall s | s in q :: s < size
    ensures |q| <= size
  {
    if size == 0 {
      assert q == {};
    } else {
      Members(size - 1, q - {size - 1});
    }
  }

  /** Any two majorities share a member. */
  lemma Overlap(size: nat, q: set<nat>, r: set<nat>) returns (s: nat)
    requires Majority(size, q) && Majority(size, r)
    ensures s in q && s in r
  {
    if q * r == {} {
      assert |q + r| == |q| + |r|;
      Members(size, q + r);
      assert false;
    }
    s :| s in q * r;
  }
}
