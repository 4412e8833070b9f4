/** The retry loop of one broadcast with one follower, without compaction: request, answer, back up, again. */
module RaftRetry {
  import opened RaftState
  import opened RaftCluster
  import opened RaftHistory
  import opened RaftEvolve
  import opened RaftActions
  import opened RaftReplication
  import opened RaftSafety
  import opened RaftBackUp

  // ---------------------------------------------------------------- one round

  /** Broadcast `call` of leader s can make a round with peer `to`: every access in it is in range. */
  ghost predicate Meets(c: Cluster, s: nat, call: nat, to: nat) {
    && s < |c.peers| && to < |c.peers| && s != to && c.peers[to].Window()
    && StillSends(c.peers[s], call, to) && CanBuild(c.peers[s], call, to)
    && CanCountAppend(c.peers[s], to, call, BuildAppend(c.peers[s], call, to), ReplyOf(c, s, call, to))
  }

  ghost function RequestOf(c: Cluster, s: nat, call: nat, to: nat): Message
    requires s < |c.peers| && StillSends(c.peers[s], call, to) && CanBuild(c.peers[s], call, to)
  {
    AppendRequest(s, to, call, BuildAppend(c.peers[s], call, to))
  }

  ghost function ReplyOf(c: Cluster, s: nat, call: nat, to: nat): AppendReply
    requires s < |c.peers| && to < |c.peers| && c.peers[to].Window()
    requires StillSends(c.peers[s], call, to) && CanBuild(c.peers[s], call, to)
  {
    AppendEntries(c.peers[to], BuildAppend(c.peers[s], call, to)).1
  }

  ghost function Asked(c: Cluster, s: nat, call: nat, to: nat): (r: Cluster)
    requires s < |c.peers| && to < |c.peers| && s != to && c.peers[to].Window()
    requires StillSends(c.peers[s], call, to) && CanBuild(c.peers[s], call, to)
    ensures |r.peers| == |c.peers| && r.peers[s] == c.peers[s]
    ensures AppendAnswer(to, s, call, BuildAppend(c.peers[s], call, to), ReplyOf(c, s, call, to)) in r.net
  {
    After(After(c, Send(s, call, to)), ReceiveAppendRequest(RequestOf(c, s, call, to)))
  }

  /** The three steps of a round: the leader sends, the follower answers, the leader handles the answer. */
  ghost function Round(c: Cluster, s: nat, call: nat, to: nat): Cluster
    requires Meets(c, s, call, to)
  {
    var args := BuildAppend(c.peers[s], call, to);
    After(Asked(c, s, call, to), ReceiveAppendAnswer(AppendAnswer(to, s, call, args, ReplyOf(c, s, call, to))))
  }

  lemma RoundPeers(c: Cluster, s: nat, call: nat, to: nat)
    requires Meets(c, s, call, to)
    ensures var args := BuildAppend(c.peers[s], call, to);
            && |Round(c, s, call, to).peers| == |c.peers|
            && Round(c, s, call, to).peers[to] == AppendEntries(c.peers[to], args).0
            && Round(c, s, call, to).peers[s] == CountAppend(c.peers[s], to, call, args, ReplyOf(c, s, call, to))
  {
  }

  lemma CanAsk(c: Cluster, h: History, s: nat, call: nat, to: nat)
    requires PeersOk(c, h) && s < |c.peers| && to < |c.peers| && StillSends(c.peers[s], call, to)
    ensures s != to && c.peers[to].Window() && CanBuild(c.peers[s], call, to)
  {
    assert PeerOk(|c.peers|, h, s, c.peers[s]) && PeerOk(|c.peers|, h, to, c.peers[to]);
    FollowerWindow(c.peers[to]);
    SenderInOffice(|c.peers|, h, s, c.peers[s], call, to);
  }

  lemma AskedKeepsInv(c: Cluster, h: History, s: nat, call: nat, to: nat) returns (h': History)
    requires Inv(c, h) && s < |c.peers| && to < |c.peers| && s != to && c.peers[to].Window()
    requires StillSends(c.peers[s], call, to) && CanBuild(c.peers[s], call, to)
    ensures Grows(h, h') && Inv(Asked(c, s, call, to), h')
  {
    SendStep(c, h, s, call, to);
    h' := AppendRequestStep(After(c, Send(s, call, to)), h, RequestOf(c, s, call, to));
  }

  /** In every state that satisfies the invariant, whatever still sends can make its round. */
  lemma RoundKeepsInv(c: Cluster, h: History, s: nat, call: nat, to: nat) returns (h': History)
    requires Inv(c, h) && s < |c.peers| && to < |c.peers| && StillSends(c.peers[s], call, to)
    ensures Meets(c, s, call, to)
    ensures Inv(Round(c, s, call, to), h')
  {
    CanAsk(c, h, s, call, to);
    h' := AskedKeepsInv(c, h, s, call, to);
    var answer := AppendAnswer(to, s, call, BuildAppend(c.peers[s], call, to), ReplyOf(c, s, call, to));
    AppendAnswerInRange(Asked(c, s, call, to), h', answer);
    AppendAnswerStep(Asked(c, s, call, to), h', answer);
  }

  // ---------------------------------------------------------------- a round that is refused, and one that is not

  ghost predicate Refused(c: Cluster, s: nat, call: nat, to: nat) {
    Meets(c, s, call, to) && !ReplyOf(c, s, call, to).success && ReplyOf(c, s, call, to).term <= c.peers[s].currentTerm
  }

  /** A refusal only lowers the shared next index, and leaves the follower in the leader's term. */
  lemma RefusedRound(c: Cluster, h: History, s: nat, call: nat, to: nat)
    requires Inv(c, h) && Refused(c, s, call, to)
    ensures var p, p' := c.peers[s], Round(c, s, call, to).peers[s];
            && p'.nextIndex[to] < p.nextIndex[to]
            && p' == p.(nextIndex := p.nextIndex[to := p'.nextIndex[to]])
            && Round(c, s, call, to).peers[to].currentTerm == p.currentTerm
    ensures c.peers[to].currentTerm <= c.peers[s].currentTerm
  {
    RefusalInRange(c, h, s, call, to);
    RoundPeers(c, s, call, to);
    BackUpRetreats(c.peers[s], ReplyOf(c, s, call, to), c.peers[s].nextIndex[to]);
  }

  /** The reply points below the request, and to a term that the leader does not have there. */
  lemma RefusalInRange(c: Cluster, h: History, s: nat, call: nat, to: nat)
    requires Inv(c, h) && Refused(c, s, call, to)
    ensures var p, reply := c.peers[s], ReplyOf(c, s, call, to);
            && p.snapshot.index == 0 && reply.conflictIndex < p.nextIndex[to] <= |p.log|
            && (reply.conflictTerm == 0 || reply.conflictTerm != p.log[p.nextIndex[to] - 1].term)
  {
    var p, args, reply := c.peers[s], BuildAppend(c.peers[s], call, to), ReplyOf(c, s, call, to);
    var h' := AskedKeepsInv(c, h, s, call, to);
    AppendAnswerInRange(Asked(c, s, call, to), h', AppendAnswer(to, s, call, args, reply));
    assert RefusalOk(args, reply);
  }

  /** An accepted request leaves the follower with the leader's log up to the entry of the broadcast. */
  lemma AcceptedRound(c: Cluster, h: History, s: nat, call: nat, to: nat)
    requires Inv(c, h) && Meets(c, s, call, to) && ReplyOf(c, s, call, to).success
    ensures c.peers[s].calls[call].index < |c.peers[s].log|
    ensures c.peers[s].log[..c.peers[s].calls[call].index + 1] <= Round(c, s, call, to).peers[to].log
  {
    var p, args := c.peers[s], BuildAppend(c.peers[s], call, to);
    SentFromLog(c, h, s, call, to);
    SendStep(c, h, s, call, to);
    FollowsRequest(After(c, Send(s, call, to)), h, RequestOf(c, s, call, to));
    RoundPeers(c, s, call, to);
    ShorterPrefix(p.log, Round(c, s, call, to).peers[to].log, p.calls[call].index, args.prevLogIndex + |args.entries|);
  }

  lemma SentFromLog(c: Cluster, h: History, s: nat, call: nat, to: nat)
    requires PeersOk(c, h) && s < |c.peers| && StillSends(c.peers[s], call, to) && CanBuild(c.peers[s], call, to)
    ensures var p, args := c.peers[s], BuildAppend(c.peers[s], call, to);
            && 0 <= p.calls[call].index <= args.prevLogIndex + |args.entries| < |p.log|
            && args.term in h.reigns && h.reigns[args.term].log == p.log
  {
    assert PeerOk(|c.peers|, h, s, c.peers[s]);
    SenderInOffice(|c.peers|, h, s, c.peers[s], call, to);
    BuiltFromLog(c.peers[s], call, to);
  }

  lemma ShorterPrefix(log: seq<LogEntry>, other: seq<LogEntry>, k: nat, last: nat)
    requires k <= last < |log| && log[..last + 1] <= other
    ensures log[..k + 1] <= other
  {
    assert log[..k + 1] == log[..last + 1][..k + 1];
  }

  lemma FollowsRequest(c: Cluster, h: History, m: Message)
    requires Inv(c, h) && m in c.net && m.AppendRequest? && m.dst < |c.peers| && c.peers[m.dst].Window()
    requires AppendEntries(c.peers[m.dst], m.args).1.success
    ensures m.args.term in h.reigns && 0 <= m.args.prevLogIndex + |m.args.entries| < |h.reigns[m.args.term].log|
    ensures h.reigns[m.args.term].log[..m.args.prevLogIndex + |m.args.entries| + 1]
         <= AppendEntries(c.peers[m.dst], m.args).0.log
  {
    var s, term := m.dst, m.args.term;
    assert MessageOk(c, h, m);
    if c.peers[s].currentTerm < term {
      var d := Update(c, s, StepDown(c.peers[s], term), {});
      StepDownStep(c, h, s, term);
      FollowsInTerm(d, h, m);
    } else {
      FollowsInTerm(c, h, m);
    }
  }

  lemma FollowsInTerm(c: Cluster, h: History, m: Message)
    requires Inv(c, h) && m in c.net && m.AppendRequest? && m.dst < |c.peers| && c.peers[m.dst].Window()
    requires c.peers[m.dst].currentTerm == m.args.term && AppendEntries(c.peers[m.dst], m.args).1.success
    ensures m.args.term in h.reigns && 0 <= m.args.prevLogIndex + |m.args.entries| < |h.reigns[m.args.term].log|
    ensures h.reigns[m.args.term].log[..m.args.prevLogIndex + |m.args.entries| + 1]
         <= AppendEntries(c.peers[m.dst], m.args).0.log
  {
    FollowerReceives(c, h, m);
    RequestOk(c, h, m);
    AcceptedLog(c.peers[m.dst], m.args);
    SpliceFollowsLeader(|c.peers|, h, c.peers[m.dst], Clip(c.peers[m.dst], m.args));
  }

  lemma AcceptedLog(p: Peer, args: AppendArgs)
    requires p.Window() && p.snapshot.index == 0 && args.snapshot.index == 0
    requires p.currentTerm == args.term && AppendEntries(p, args).1.success
    ensures Consistent(p, Clip(p, args)) && p.snapshot.index <= Clip(p, args).prevLogIndex
    ensures AppendEntries(p, args).0.log == Spliced(p, Clip(p, args))
  {
  }

  // ---------------------------------------------------------------- the loop

  /** The states between the rounds of the loop: in all but the last the round is refused. */
  ghost predicate Exchange(cs: seq<Cluster>, s: nat, call: nat, to: nat) {
    && |cs| > 0 && Meets(cs[|cs| - 1], s, call, to) && !Refused(cs[|cs| - 1], s, call, to)
    && forall k: nat | k < |cs| - 1 :: RetriesAt(cs, k, s, call, to)
  }

  ghost predicate RetriesAt(cs: seq<Cluster>, k: nat, s: nat, call: nat, to: nat)
    requires k + 1 < |cs|
  {
    Refused(cs[k], s, call, to) && cs[k + 1] == Round(cs[k], s, call, to)
  }

  lemma ExchangeOneMore(c: Cluster, more: seq<Cluster>, s: nat, call: nat, to: nat)
    requires Refused(c, s, call, to) && Exchange(more, s, call, to) && more[0] == Round(c, s, call, to)
    ensures Exchange([c] + more, s, call, to)
  {
    var cs := [c] + more;
    assert cs[|cs| - 1] == more[|more| - 1];
    assert RetriesAt(cs, 0, s, call, to);
    forall k: nat | 0 < k < |cs| - 1 ensures RetriesAt(cs, k, s, call, to) {
      RetriesLater(c, more, k - 1, s, call, to);
    }
  }

  lemma RetriesLater(c: Cluster, more: seq<Cluster>, k: nat, s: nat, call: nat, to: nat)
    requires k + 1 < |more| && RetriesAt(more, k, s, call, to)
    ensures RetriesAt([c] + more, k + 1, s, call, to)
  {
    var cs := [c] + more;
    assert cs[k + 1] == more[k] && cs[k + 2] == more[k + 1];
  }

  /** A follower of a later term deposes the leader; any other brings the broadcast to success. */
  ghost predicate Outcome(c: Cluster, d: Cluster, s: nat, call: nat, to: nat)
    requires Meets(c, s, call, to) && Meets(d, s, call, to)
  {
    var after, index := Round(d, s, call, to), c.peers[s].calls[call].index;
    && |after.peers| == |c.peers|
    && (c.peers[to].currentTerm > c.peers[s].currentTerm ==>
          after.peers[s].role == Follower && after.peers[s].currentTerm == c.peers[to].currentTerm)
    && (c.peers[to].currentTerm <= c.peers[s].currentTerm ==>
          && ReplyOf(d, s, call, to).success && index < |c.peers[s].log|
          && c.peers[s].log[..index + 1] <= after.peers[to].log)
  }

  /** `p'` is the leader after a refusal. */
  lemma StillSendsOn(p: Peer, p': Peer, call: nat, to: nat)
    requires StillSends(p, call, to) && |p'.nextIndex| == |p.nextIndex| && p' == p.(nextIndex := p'.nextIndex)
    ensures StillSends(p', call, to)
  {
  }

  lemma OutcomeBefore(c: Cluster, d: Cluster, s: nat, call: nat, to: nat)
    requires Refused(c, s, call, to) && Meets(Round(c, s, call, to), s, call, to) && Meets(d, s, call, to)
    requires var p, p' := c.peers[s], Round(c, s, call, to).peers[s];
             p' == p.(nextIndex := p'.nextIndex) && Round(c, s, call, to).peers[to].currentTerm == p.currentTerm
    requires c.peers[to].currentTerm <= c.peers[s].currentTerm
    requires Outcome(Round(c, s, call, to), d, s, call, to)
    ensures Outcome(c, d, s, call, to)
  {
    RoundPeers(c, s, call, to);
  }

  /** `cs` is the whole exchange from c on. */
  ghost predicate Completes(cs: seq<Cluster>, c: Cluster, s: nat, call: nat, to: nat) {
    && Exchange(cs, s, call, to) && cs[0] == c && Meets(c, s, call, to)
    && |cs| - 1 <= c.peers[s].nextIndex[to]
    && Outcome(c, cs[|cs| - 1], s, call, to)
  }

  lemma TriesAgain(c: Cluster, h: History, s: nat, call: nat, to: nat)
    requires Inv(c, h) && Refused(c, s, call, to)
    ensures var c' := Round(c, s, call, to);
            && |c'.peers| == |c.peers| && StillSends(c'.peers[s], call, to)
            && c'.peers[s].nextIndex[to] < c.peers[s].nextIndex[to]
  {
    RefusedRound(c, h, s, call, to);
    RoundPeers(c, s, call, to);
    StillSendsOn(c.peers[s], Round(c, s, call, to).peers[s], call, to);
  }

  lemma OneMoreRound(c: Cluster, h: History, s: nat, call: nat, to: nat, more: seq<Cluster>)
    requires Inv(c, h) && Refused(c, s, call, to) && Completes(more, Round(c, s, call, to), s, call, to)
    ensures Completes([c] + more, c, s, call, to)
  {
    RefusedRound(c, h, s, call, to);
    ExchangeOneMore(c, more, s, call, to);
    OutcomeBefore(c, more[|more| - 1], s, call, to);
    assert ([c] + more)[|more|] == more[|more| - 1];
  }

  lemma {:induction false} ExchangeEnds(c: Cluster, h: History, s: nat, call: nat, to: nat) returns (cs: seq<Cluster>)
    requires Inv(c, h) && s < |c.peers| && to < |c.peers| && StillSends(c.peers[s], call, to)
    ensures Completes(cs, c, s, call, to)
    decreases c.peers[s].nextIndex[to]
  {
    var h' := RoundKeepsInv(c, h, s, call, to);
    if Refused(c, s, call, to) {
      TriesAgain(c, h, s, call, to);
      var more := ExchangeEnds(Round(c, s, call, to), h', s, call, to);
      OneMoreRound(c, h, s, call, to, more);
      cs := [c] + more;
    } else {
      LastRound(c, h, s, call, to);
      cs := [c];
    }
  }

  lemma LastRound(c: Cluster, h: History, s: nat, call: nat, to: nat)
    requires Inv(c, h) && Meets(c, s, call, to) && !Refused(c, s, call, to)
    ensures Completes([c], c, s, call, to)
  {
    RoundPeers(c, s, call, to);
    if ReplyOf(c, s, call, to).success { AcceptedRound(c, h, s, call, to); }
  }

  /** From every state of every run, the retry loop of a broadcast with one follower ends after at most as many
      refusals as the next index it starts from: with the follower holding the leader's log up to the entry of the
      broadcast, or with the leader deposed because the follower is in a later term. */
  lemma RetryEnds(run: seq<Cluster>, size: nat, i: nat, s: nat, call: nat, to: nat) returns (cs: seq<Cluster>)
    requires IsRun(run, size, false) && i < |run| && s < |run[i].peers| && to < |run[i].peers|
    requires StillSends(run[i].peers[s], call, to)
    ensures Completes(cs, run[i], s, call, to)
  {
    var hs := HistoryOf(run, size);
    assert Inv(run[i], hs[i]);
    cs := ExchangeEnds(run[i], hs[i], s, call, to);
  }
}
