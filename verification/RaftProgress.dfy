/** Progress: from every state of a run, the exchanges of a leader with a majority commit what it has broadcast, and
    the command is handed out, first by the leader and then by the followers. */
module RaftProgress {
  import opened Options
  import opened RaftState
  import opened RaftCluster
  import opened RaftHistory
  import opened RaftActions
  import opened RaftSafety
  import opened RaftTheorems
  import opened RaftRetry
  import opened RaftLoops
  import opened RaftElections
  import opened RaftDeliveries
  import opened RaftCommit

  // ---------------------------------------------------------------- one exchange

  lemma RoundRun(run: seq<Cluster>, size: nat, s: nat, call: nat, to: nat) returns (run': seq<Cluster>)
    requires IsRun(run, size, false) && Meets(Last(run), s, call, to)
    ensures GoesOn(run, run', size) && Last(run') == Round(Last(run), s, call, to)
  {
    var c := Last(run);
    var sent := OneMore(run, size, Send(s, call, to));
    var asked := OneMore(sent, size, ReceiveAppendRequest(RequestOf(c, s, call, to)));
    FurtherOn(run, sent, asked, size);
    var answer := AppendAnswer(to, s, call, BuildAppend(c.peers[s], call, to), ReplyOf(c, s, call, to));
    run' := OneMore(asked, size, ReceiveAppendAnswer(answer));
    FurtherOn(run, asked, run', size);
  }

  lemma OthersSitOut(c: Cluster, s: nat, call: nat, to: nat, v: nat)
    requires Meets(c, s, call, to) && v < |c.peers| && v != s && v != to
    ensures |Round(c, s, call, to).peers| == |c.peers| && Round(c, s, call, to).peers[v] == c.peers[v]
  {
  }

  /** A leader in the same office with the same log and the same broadcasts, and no confirmation lost. */
  ghost predicate SameOffice(p: Peer, p': Peer) {
    && p.role == p'.role == Leader && p'.currentTerm == p.currentTerm && p'.log == p.log && p'.me == p.me
    && p'.lastApplied == p.lastApplied && p.commitIndex <= p'.commitIndex
    && |p'.nextIndex| == |p.nextIndex| && |p'.calls| == |p.calls|
    && forall k: nat | k < |p.calls| :: SameCall(p.calls[k], p'.calls[k])
  }

  ghost predicate SameCall(b: Broadcast, b': Broadcast) {
    b'.index == b.index && b'.term == b.term && b'.commitIndex == b.commitIndex && b.acks <= b'.acks
  }

  /** The follower has what the broadcast carries: the leader's log up to its entry, and its commit index. */
  ghost predicate Follows(p: Peer, call: nat, f: Peer)
    requires call < |p.calls|
  {
    && f.currentTerm == p.currentTerm && p.calls[call].index < |p.log|
    && p.log[..p.calls[call].index + 1] <= f.log && p.calls[call].commitIndex <= f.commitIndex
  }

  ghost predicate Bystanders(c: Cluster, d: Cluster, s: nat, to: nat) {
    |d.peers| == |c.peers| && forall v | 0 <= v < |c.peers| && v != s && v != to :: d.peers[v] == c.peers[v]
  }

  /** The exchange of broadcast `call` with peer `to` has led from c to d, and succeeded. */
  ghost predicate Exchanged(c: Cluster, d: Cluster, s: nat, call: nat, to: nat) {
    && s < |c.peers| && to < |c.peers| && call < |c.peers[s].calls| && Bystanders(c, d, s, to)
    && SameOffice(c.peers[s], d.peers[s]) && to in d.peers[s].calls[call].acks
    && Follows(c.peers[s], call, d.peers[to])
  }

  lemma SuccessIsExchanged(p: Peer, from: nat, call: nat)
    requires p.role == Leader && call < |p.calls| && from < |p.nextIndex| == |p.matchIndex|
    requires p.calls[call].index < p.snapshot.index + |p.log|
    ensures var q := CountSuccess(p, from, call); SameOffice(p, q) && from in q.calls[call].acks
  {
  }

  /** A success carries the leader's commit index over. */
  lemma AcceptedLearns(c: Cluster, h: History, m: Message)
    requires Inv(c, h) && m in c.net && m.AppendRequest? && m.dst < |c.peers| && c.peers[m.dst].Window()
    requires AppendEntries(c.peers[m.dst], m.args).1.success
    ensures var q := AppendEntries(c.peers[m.dst], m.args).0;
            q.currentTerm == m.args.term && m.args.leaderCommit <= q.commitIndex
  {
    var s, term := m.dst, m.args.term;
    if c.peers[s].currentTerm < term {
      StepDownStep(c, h, s, term);
      AcceptedLearnsInTerm(Update(c, s, StepDown(c.peers[s], term), {}), h, m);
    } else {
      AcceptedLearnsInTerm(c, h, m);
    }
  }

  lemma AcceptedLearnsInTerm(c: Cluster, h: History, m: Message)
    requires Inv(c, h) && m in c.net && m.AppendRequest? && m.dst < |c.peers| && c.peers[m.dst].Window()
    requires c.peers[m.dst].currentTerm == m.args.term && AppendEntries(c.peers[m.dst], m.args).1.success
    ensures var q := AppendEntries(c.peers[m.dst], m.args).0;
            q.currentTerm == m.args.term && m.args.leaderCommit <= q.commitIndex
  {
    FollowerReceives(c, h, m);
    RequestOk(c, h, m);
    AcceptedCommitIndex(c.peers[m.dst], m.args);
  }

  lemma AcceptedCommitIndex(p: Peer, args: AppendArgs)
    requires p.Window() && p.currentTerm == args.term && AppendEntries(p, args).1.success
    requires args.leaderCommit <= args.prevLogIndex + |args.entries|
    requires 0 <= Clip(p, args).prevLogIndex
    requires Clip(p, args).prevLogIndex + |Clip(p, args).entries| == args.prevLogIndex + |args.entries|
    ensures var q := AppendEntries(p, args).0; q.currentTerm == p.currentTerm && args.leaderCommit <= q.commitIndex
  {
  }

  lemma RoundLearns(c: Cluster, h: History, s: nat, call: nat, to: nat)
    requires Inv(c, h) && Meets(c, s, call, to) && ReplyOf(c, s, call, to).success
    ensures |Round(c, s, call, to).peers| == |c.peers|
    ensures Follows(c.peers[s], call, Round(c, s, call, to).peers[to])
  {
    RoundPeers(c, s, call, to);
    AcceptedRound(c, h, s, call, to);
    SendStep(c, h, s, call, to);
    AcceptedLearns(After(c, Send(s, call, to)), h, RequestOf(c, s, call, to));
  }

  lemma LastExchange(c: Cluster, h: History, s: nat, call: nat, to: nat)
    requires Inv(c, h) && Meets(c, s, call, to) && ReplyOf(c, s, call, to).success
    ensures Exchanged(c, Round(c, s, call, to), s, call, to)
  {
    RoundPeers(c, s, call, to);
    RoundLearns(c, h, s, call, to);
    SuccessIsExchanged(c.peers[s], to, call);
    forall v | 0 <= v < |c.peers| && v != s && v != to ensures Round(c, s, call, to).peers[v] == c.peers[v] {
      OthersSitOut(c, s, call, to, v);
    }
  }

  lemma ExchangedBefore(c: Cluster, h: History, d: Cluster, s: nat, call: nat, to: nat)
    requires Inv(c, h) && Refused(c, s, call, to) && Exchanged(Round(c, s, call, to), d, s, call, to)
    ensures Exchanged(c, d, s, call, to)
  {
    RefusedRound(c, h, s, call, to);
    RoundPeers(c, s, call, to);
    forall v | 0 <= v < |c.peers| && v != s && v != to ensures d.peers[v] == c.peers[v] {
      OthersSitOut(c, s, call, to, v);
    }
  }

  /** A reply of a peer in no later term is a success or a refusal to back up after. */
  lemma NotDeposed(c: Cluster, s: nat, call: nat, to: nat)
    requires Meets(c, s, call, to) && c.peers[to].currentTerm <= c.peers[s].currentTerm
    ensures ReplyOf(c, s, call, to).success || Refused(c, s, call, to)
  {
  }

  /** The whole exchange as a part of a run. */
  lemma {:induction false} Exchanges(run: seq<Cluster>, size: nat, s: nat, call: nat, to: nat)
    returns (run': seq<Cluster>)
    requires IsRun(run, size, false) && s < |Last(run).peers| && to < |Last(run).peers|
    requires StillSends(Last(run).peers[s], call, to)
    requires Last(run).peers[to].currentTerm <= Last(run).peers[s].currentTerm
    ensures GoesOn(run, run', size) && Exchanged(Last(run), Last(run'), s, call, to)
    decreases Last(run).peers[s].nextIndex[to]
  {
    var hs := HistoryOf(run, size);
    var c, h := Last(run), hs[|run| - 1];
    assert Inv(c, h);
    var _ := RoundKeepsInv(c, h, s, call, to);
    var next := RoundRun(run, size, s, call, to);
    NotDeposed(c, s, call, to);
    if Refused(c, s, call, to) {
      TriesAgain(c, h, s, call, to);
      RefusedRound(c, h, s, call, to);
      run' := Exchanges(next, size, s, call, to);
      ExchangedBefore(c, h, Last(run'), s, call, to);
      FurtherOn(run, next, run', size);
    } else {
      LastExchange(c, h, s, call, to);
      run' := next;
    }
  }

  // ---------------------------------------------------------------- exchanges with a majority

  ghost predicate NotLater(c: Cluster, s: nat, others: seq<nat>)
    requires OthersOf(c, s, others)
  {
    forall i | 0 <= i < |others| :: c.peers[others[i]].currentTerm <= c.peers[s].currentTerm
  }

  /** Broadcast `call` has been exchanged with the first n of the others on the way from c to d. */
  ghost predicate ExchangedWith(c: Cluster, d: Cluster, s: nat, call: nat, others: seq<nat>, n: nat)
    requires OthersOf(c, s, others) && n <= |others| && call < |c.peers[s].calls|
  {
    && |d.peers| == |c.peers| && SameOffice(c.peers[s], d.peers[s])
    && (forall i | 0 <= i < n :: Caught(c, d, s, call, others[i]))
    && (forall v | 0 <= v < |c.peers| && v != s && v !in others[..n] :: d.peers[v] == c.peers[v])
  }

  ghost predicate Caught(c: Cluster, d: Cluster, s: nat, call: nat, v: nat) {
    && s < |c.peers| == |d.peers| && v < |c.peers| && call < |c.peers[s].calls| && call < |d.peers[s].calls|
    && v in d.peers[s].calls[call].acks && Follows(c.peers[s], call, d.peers[v])
  }

  lemma StillCaught(c: Cluster, d: Cluster, e: Cluster, s: nat, call: nat, v: nat)
    requires Caught(c, d, s, call, v) && |e.peers| == |d.peers| && e.peers[v] == d.peers[v]
    requires SameOffice(d.peers[s], e.peers[s])
    ensures Caught(c, e, s, call, v)
  {
    assert SameCall(d.peers[s].calls[call], e.peers[s].calls[call]);
  }

  lemma SameOfficeOn(p: Peer, q: Peer, r: Peer)
    requires SameOffice(p, q) && SameOffice(q, r)
    ensures SameOffice(p, r)
  {
    forall k: nat | k < |p.calls| ensures SameCall(p.calls[k], r.calls[k]) {
      assert SameCall(p.calls[k], q.calls[k]) && SameCall(q.calls[k], r.calls[k]);
    }
  }

  lemma NowCaught(c: Cluster, d: Cluster, e: Cluster, s: nat, call: nat, v: nat)
    requires s < |c.peers| && call < |c.peers[s].calls| && |c.peers| == |d.peers|
    requires SameOffice(c.peers[s], d.peers[s]) && Exchanged(d, e, s, call, v)
    ensures Caught(c, e, s, call, v)
  {
    assert SameCall(c.peers[s].calls[call], d.peers[s].calls[call]);
    assert SameCall(d.peers[s].calls[call], e.peers[s].calls[call]);
  }

  lemma OneMoreExchanged(c: Cluster, d: Cluster, e: Cluster, s: nat, call: nat, others: seq<nat>, n: nat)
    requires OthersOf(c, s, others) && n < |others| && call < |c.peers[s].calls|
    requires ExchangedWith(c, d, s, call, others, n) && Exchanged(d, e, s, call, others[n])
    ensures ExchangedWith(c, e, s, call, others, n + 1)
  {
    assert others[..n + 1] == others[..n] + [others[n]];
    SameOfficeOn(c.peers[s], d.peers[s], e.peers[s]);
    NowCaught(c, d, e, s, call, others[n]);
    forall i | 0 <= i < n ensures Caught(c, e, s, call, others[i]) {
      assert others[i] != others[n] && others[i] != s;
      StillCaught(c, d, e, s, call, others[i]);
    }
  }

  lemma SendsStill(p: Peer, p': Peer, call: nat, to: nat)
    requires StillSends(p, call, to) && SameOffice(p, p')
    ensures StillSends(p', call, to)
  {
    assert SameCall(p.calls[call], p'.calls[call]);
  }

  lemma {:induction false} ExchangesWith(run: seq<Cluster>, size: nat, s: nat, call: nat, others: seq<nat>, n: nat)
    returns (run': seq<Cluster>)
    requires IsRun(run, size, false) && OthersOf(Last(run), s, others) && NotLater(Last(run), s, others)
    requires n <= |others| && call < |Last(run).peers[s].calls| && Last(run).peers[s].role == Leader
    requires forall i | 0 <= i < |others| :: StillSends(Last(run).peers[s], call, others[i])
    ensures GoesOn(run, run', size) && ExchangedWith(Last(run), Last(run'), s, call, others, n)
  {
    if n == 0 {
      run' := run;
    } else {
      var before := ExchangesWith(run, size, s, call, others, n - 1);
      var to := others[n - 1];
      assert to !in others[..n - 1];
      SendsStill(Last(run).peers[s], Last(before).peers[s], call, to);
      run' := Exchanges(before, size, s, call, to);
      OneMoreExchanged(Last(run), Last(before), Last(run'), s, call, others, n - 1);
      FurtherOn(run, before, run', size);
    }
  }

  lemma {:induction false} AtLeastAsMany<T>(list: seq<T>, all: set<T>)
    requires forall i, j | 0 <= i < j < |list| :: list[i] != list[j]
    requires forall i | 0 <= i < |list| :: list[i] in all
    ensures |list| <= |all|
    decreases |list|
  {
    if list != [] {
      var n := |list| - 1;
      AtLeastAsMany(list[..n], all - {list[n]});
      assert all == (all - {list[n]}) + {list[n]};
    }
  }

  /** Exchanges with a majority commit the entry of the broadcast, if it is of the leader's own term. */
  lemma MajorityCommitsCall(run: seq<Cluster>, size: nat, c: Cluster, s: nat, call: nat, others: seq<nat>)
    requires IsRun(run, size, false) && OthersOf(c, s, others) && IsMajority(size, others)
    requires call < |c.peers[s].calls| && OwnEntry(c.peers[s], call)
    requires ExchangedWith(c, Last(run), s, call, others, |others|)
    ensures c.peers[s].calls[call].index <= Last(run).peers[s].commitIndex
  {
    PlainFacts(run, size, s);
    var p := Last(run).peers[s];
    assert SameCall(c.peers[s].calls[call], p.calls[call]);
    forall i | 0 <= i < |others| ensures others[i] in p.calls[call].acks {
      assert Caught(c, Last(run), s, call, others[i]);
    }
    AtLeastAsMany(others, p.calls[call].acks);
    RunCommits(run, size, |run| - 1);
    assert Commits(p) && CallCommits(p, call);
  }

  /** The leader s has broadcast an entry of its own term, and a majority is in no later term. */
  ghost predicate CanCommit(c: Cluster, size: nat, s: nat, call: nat, others: seq<nat>) {
    && OthersOf(c, s, others) && IsMajority(size, others) && NotLater(c, s, others)
    && c.peers[s].role == Leader && call < |c.peers[s].calls| && OwnEntry(c.peers[s], call)
  }

  lemma AllStillSend(run: seq<Cluster>, size: nat, s: nat, call: nat, others: seq<nat>)
    requires IsRun(run, size, false) && OthersOf(Last(run), s, others) && Last(run).peers[s].role == Leader
    requires call < |Last(run).peers[s].calls|
    requires Last(run).peers[s].lastApplied <= Last(run).peers[s].calls[call].index
    ensures forall i | 0 <= i < |others| :: StillSends(Last(run).peers[s], call, others[i])
  {
    var hs := HistoryOf(run, size);
    var c, h := Last(run), hs[|run| - 1];
    assert Inv(c, h);
    forall i | 0 <= i < |others| ensures StillSends(c.peers[s], call, others[i]) {
      LeaderFacts(c, h, s, others[i], c.peers[s].currentTerm);
    }
  }

  /** From every state of a run in which a leader has broadcast an entry of its own term, and a majority is in no later
      term, the exchanges with that majority commit the entry. */
  lemma EntryCommits(run: seq<Cluster>, size: nat, s: nat, call: nat, others: seq<nat>)
    returns (run': seq<Cluster>)
    requires IsRun(run, size, false) && CanCommit(Last(run), size, s, call, others)
    ensures GoesOn(run, run', size) && |Last(run').peers| == |Last(run).peers|
    ensures SameOffice(Last(run).peers[s], Last(run').peers[s])
    ensures Last(run).peers[s].calls[call].index <= Last(run').peers[s].commitIndex
    ensures OthersOf(Last(run'), s, others) && NotLater(Last(run'), s, others)
  {
    PlainFacts(run, size, s);
    if Last(run).peers[s].calls[call].index <= Last(run).peers[s].commitIndex {
      run' := run;
    } else {
      AllStillSend(run, size, s, call, others);
      run' := ExchangesWith(run, size, s, call, others, |others|);
      MajorityCommitsCall(run', size, Last(run), s, call, others);
      forall i | 0 <= i < |others|
        ensures Last(run').peers[others[i]].currentTerm <= Last(run').peers[s].currentTerm
      {
        assert Caught(Last(run), Last(run'), s, call, others[i]);
      }
    }
  }

  // ---------------------------------------------------------------- handing out

  /** Applying catches up: nothing that is committed, or covered by the snapshot, is left over. */
  lemma ApplyCatchesUp(p: Peer)
    requires CanApply(p)
    ensures var q := Apply(p).0;
            && p.commitIndex <= q.lastApplied && p.snapshot.index <= q.lastApplied && p.lastApplied <= q.lastApplied
            && q.lastApplied in {p.commitIndex, p.snapshot.index, p.lastApplied}
            && q == p.(lastApplied := q.lastApplied)
  {
  }

  /** In every run without compaction a peer has, after each Deliver, applied exactly what it has committed. */
  lemma DeliverCatchesUp(run: seq<Cluster>, steps: seq<Step>, size: nat, s: nat, i: nat)
    requires IsTrace(run, steps, size, false) && i < |steps| && steps[i] == Deliver(s)
    ensures s < |run[i].peers| == |run[i + 1].peers|
    ensures run[i + 1].peers[s].lastApplied == run[i + 1].peers[s].commitIndex == run[i].peers[s].commitIndex
  {
    TraceIsRun(run, steps, size, false);
    assert StepAt(run, steps, i, false);
    var hs := HistoryOf(run, size);
    assert Inv(run[i], hs[i]) && PeerOk(|run[i].peers|, hs[i], s, run[i].peers[s]);
    ApplyCatchesUp(run[i].peers[s]);
  }

  /** In every run without compaction each server has handed out the commands of its own log, up to its lastApplied. */
  lemma OwnLogDelivered(run: seq<Cluster>, size: nat, s: nat, j: nat)
    requires IsRun(run, size, false) && s < |Last(run).peers| && 0 < j <= Last(run).peers[s].lastApplied
    ensures j < |Last(run).peers[s].log|
    ensures Delivery(s, CommandMsg(j, Last(run).peers[s].log[j].command)) in Last(run).delivered
  {
    PlainFacts(run, size, s);
    var steps := RunHasTrace(run, size, false);
    var n := |run| - 1;
    OneLog(run, steps, size, s, n);
    var msg := Handed(run, steps, s, n)[j - 1];
    HandedIsDelivered(run, steps, size, s, n);
    assert Delivery(s, msg) in Last(run).delivered;
    CommittedCommand(run, size, s, Delivery(s, msg));
  }

  /** What anybody has been handed is what every server that has committed that far has in its log. */
  lemma CommittedCommand(run: seq<Cluster>, size: nat, s: nat, d: Delivery)
    requires IsRun(run, size, false) && d in Last(run).delivered && s < |Last(run).peers|
    requires 0 < IndexOf(d.msg) <= Last(run).peers[s].commitIndex
    ensures IndexOf(d.msg) < |Last(run).peers[s].log|
    ensures d.msg == CommandMsg(IndexOf(d.msg), Last(run).peers[s].log[IndexOf(d.msg)].command)
  {
    var hs := HistoryOf(run, size);
    var c, h, p := Last(run), hs[|run| - 1], Last(run).peers[s];
    assert Inv(c, h) && PeerOk(|c.peers|, h, s, p);
    var j := IndexOf(d.msg);
    var u, i :| Final(|c.peers|, h, d.msg.index, d.msg.command, u, i);
    CommittedIsFinal(|c.peers|, h, p.log, p.commitIndex, p.currentTerm, j);
    var v, x :| Final(|c.peers|, h, j, p.log[j].command, v, x);
    if u <= v { SameCommand(c, h, u, i, v, j); } else { SameCommand(c, h, v, x, u, j); }
  }

  /** The server has handed out the first n commands of this log. */
  ghost predicate HasHanded(c: Cluster, s: nat, log: seq<LogEntry>, n: nat)
    requires n < |log|
  {
    forall j | 0 < j <= n :: Delivery(s, CommandMsg(j, log[j].command)) in c.delivered
  }

  lemma HandsOut(run: seq<Cluster>, size: nat, s: nat) returns (run': seq<Cluster>)
    requires IsRun(run, size, false) && s < |Last(run).peers|
    ensures GoesOn(run, run', size) && |Last(run').peers| == |Last(run).peers|
    ensures var p := Last(run).peers[s];
            && Last(run').peers[s] == p.(lastApplied := p.commitIndex)
            && p.commitIndex < |p.log| && HasHanded(Last(run'), s, p.log, p.commitIndex)
    ensures forall v | 0 <= v < |Last(run).peers| && v != s :: Last(run').peers[v] == Last(run).peers[v]
  {
    PlainFacts(run, size, s);
    var p := Last(run).peers[s];
    ApplyCatchesUp(p);
    run' := OneMore(run, size, Deliver(s));
    forall j | 0 < j <= p.commitIndex ensures Delivery(s, CommandMsg(j, p.log[j].command)) in Last(run').delivered {
      OwnLogDelivered(run', size, s, j);
    }
  }

  /** From every state of a run in which a leader has broadcast an entry of its own term, and a majority is in no later
      term, the leader commits the entry by exchanges with that majority and hands its command out. */
  lemma CommitsAndDelivers(run: seq<Cluster>, size: nat, s: nat, call: nat, others: seq<nat>)
    returns (run': seq<Cluster>)
    requires IsRun(run, size, false) && CanCommit(Last(run), size, s, call, others)
    ensures GoesOn(run, run', size) && |Last(run').peers| == |Last(run).peers|
    ensures var p, p', index := Last(run).peers[s], Last(run').peers[s], Last(run).peers[s].calls[call].index;
            && p'.role == Leader && p'.currentTerm == p.currentTerm && p'.log == p.log && index <= p'.commitIndex
            && Delivery(s, CommandMsg(index, p.log[index].command)) in Last(run').delivered
    ensures OthersOf(Last(run'), s, others) && NotLater(Last(run'), s, others)
  {
    PlainFacts(run, size, s);
    var committed := EntryCommits(run, size, s, call, others);
    run' := HandsOut(committed, size, s);
    FurtherOn(run, committed, run', size);
    OwnEntryAfterStart(run, size, s, call);
  }

  lemma OwnEntryAfterStart(run: seq<Cluster>, size: nat, s: nat, call: nat)
    requires IsRun(run, size, false) && s < |Last(run).peers| && Last(run).peers[s].role == Leader
    requires call < |Last(run).peers[s].calls| && OwnEntry(Last(run).peers[s], call)
    ensures 0 < Last(run).peers[s].calls[call].index
  {
    var hs := HistoryOf(run, size);
    assert Inv(Last(run), hs[|run| - 1]) && PeerOk(|Last(run).peers|, hs[|run| - 1], s, Last(run).peers[s]);
  }

  // ---------------------------------------------------------------- the followers learn

  /** The same leader in the same term, with the same log, that has committed no less. */
  ghost predicate SameLeader(p: Peer, p': Peer) {
    p.role == p'.role == Leader && p'.currentTerm == p.currentTerm && p'.log == p.log && p.commitIndex <= p'.commitIndex
  }

  lemma Beats(run: seq<Cluster>, size: nat, s: nat) returns (run': seq<Cluster>)
    requires IsRun(run, size, false) && s < |Last(run).peers| && Last(run).peers[s].role == Leader
    ensures GoesOn(run, run', size) && |Last(run').peers| == |Last(run).peers|
    ensures var p, p' := Last(run).peers[s], Last(run').peers[s];
            && SameLeader(p, p') && |p'.calls| == |p.calls| + 1 && p'.lastApplied == p.lastApplied < |p.log|
            && p'.calls[|p.calls|] == Broadcast(|p.log| - 1, p.currentTerm, p.commitIndex, {}, false)
    ensures forall v | 0 <= v < |Last(run).peers| && v != s :: Last(run').peers[v] == Last(run).peers[v]
  {
    PlainFacts(run, size, s);
    assert Placed(Last(run).peers[s].log, |Last(run).peers[s].log| - 1);
    run' := OneMore(run, size, Beat(s));
  }

  lemma HandedPrefix(c: Cluster, s: nat, log: seq<LogEntry>, n: nat, own: seq<LogEntry>, m: nat)
    requires n < |log| && m < |own| && log <= own && n <= m && HasHanded(c, s, own, m)
    ensures HasHanded(c, s, log, n)
  {
  }

  lemma HandedStays(run: seq<Cluster>, run': seq<Cluster>, size: nat, s: nat, log: seq<LogEntry>, n: nat)
    requires IsRun(run, size, false) && GoesOn(run, run', size) && n < |log| && HasHanded(Last(run), s, log, n)
    ensures HasHanded(Last(run'), s, log, n)
  {
    DeliveredGrows(run', size, |run| - 1, |run'| - 1);
  }

  /** From every state of a run, a leader brings a follower in no later term, by one heartbeat and its exchange, to
      hand out everything that the leader has committed. */
  lemma FollowerLearns(run: seq<Cluster>, size: nat, s: nat, to: nat) returns (run': seq<Cluster>)
    requires IsRun(run, size, false) && s < |Last(run).peers| && Last(run).peers[s].role == Leader
    requires to < |Last(run).peers| && to != s
    requires Last(run).peers[to].currentTerm <= Last(run).peers[s].currentTerm
    ensures GoesOn(run, run', size) && Bystanders(Last(run), Last(run'), s, to)
    ensures SameLeader(Last(run).peers[s], Last(run').peers[s])
    ensures Last(run').peers[to].currentTerm == Last(run).peers[s].currentTerm
    ensures var p := Last(run).peers[s];
            p.commitIndex < |p.log| && HasHanded(Last(run'), to, p.log, p.commitIndex)
  {
    PlainFacts(run, size, s);
    var p := Last(run).peers[s];
    var beat := Beats(run, size, s);
    assert [to][0] == to;
    AllStillSend(beat, size, s, |p.calls|, [to]);
    var told := Exchanges(beat, size, s, |p.calls|, to);
    FurtherOn(run, beat, told, size);
    var f := Last(told).peers[to];
    assert p.log[..|p.log|] == p.log;
    run' := HandsOut(told, size, to);
    FurtherOn(run, told, run', size);
    HandedPrefix(Last(run'), to, p.log, p.commitIndex, f.log, f.commitIndex);
  }

  lemma {:induction false} AllLearn(run: seq<Cluster>, size: nat, s: nat, others: seq<nat>, n: nat)
    returns (run': seq<Cluster>)
    requires IsRun(run, size, false) && OthersOf(Last(run), s, others) && NotLater(Last(run), s, others)
    requires Last(run).peers[s].role == Leader && n <= |others|
    ensures GoesOn(run, run', size) && |Last(run').peers| == |Last(run).peers|
    ensures SameLeader(Last(run).peers[s], Last(run').peers[s]) && NotLater(Last(run'), s, others)
    ensures var p := Last(run).peers[s];
            p.commitIndex < |p.log| && forall i | 0 <= i < n :: HasHanded(Last(run'), others[i], p.log, p.commitIndex)
  {
    PlainFacts(run, size, s);
    if n == 0 {
      run' := run;
    } else {
      var p := Last(run).peers[s];
      var before := AllLearn(run, size, s, others, n - 1);
      run' := FollowerLearns(before, size, s, others[n - 1]);
      FurtherOn(run, before, run', size);
      HandedPrefix(Last(run'), others[n - 1], p.log, p.commitIndex, p.log, Last(before).peers[s].commitIndex);
      forall i | 0 <= i < n - 1 ensures HasHanded(Last(run'), others[i], p.log, p.commitIndex) {
        HandedStays(before, run', size, others[i], p.log, p.commitIndex);
      }
    }
  }

  // ---------------------------------------------------------------- a majority is never stuck

  /** A new command, from Start to the services of the leader and of its majority. */
  lemma CommandGetsThrough(run: seq<Cluster>, size: nat, s: nat, others: seq<nat>, command: Command)
    returns (run': seq<Cluster>)
    requires IsRun(run, size, false) && OthersOf(Last(run), s, others) && NotLater(Last(run), s, others)
    requires IsMajority(size, others) && Last(run).peers[s].role == Leader
    ensures GoesOn(run, run', size) && |Last(run').peers| == |Last(run).peers|
    ensures var msg := CommandMsg(|Last(run).peers[s].log|, Some(command));
            && Delivery(s, msg) in Last(run').delivered
            && forall i | 0 <= i < |others| :: Delivery(others[i], msg) in Last(run').delivered
  {
    PlainFacts(run, size, s);
    var p := Last(run).peers[s];
    var started := OneMore(run, size, ClientStart(s, command));
    var done := CommitsAndDelivers(started, size, s, |p.calls|, others);
    FurtherOn(run, started, done, size);
    run' := AllLearn(done, size, s, others, |others|);
    FurtherOn(run, done, run', size);
    DeliveredGrows(run', size, |done| - 1, |run'| - 1);
    forall i | 0 <= i < |others|
      ensures Delivery(others[i], CommandMsg(|p.log|, Some(command))) in Last(run').delivered
    {
      assert HasHanded(Last(run'), others[i], Last(done).peers[s].log, Last(done).peers[s].commitIndex);
    }
  }

  lemma {:induction false} RaisesTerm(run: seq<Cluster>, size: nat, s: nat, term: nat) returns (run': seq<Cluster>)
    requires IsRun(run, size, false) && s < |Last(run).peers|
    ensures GoesOn(run, run', size) && |Last(run').peers| == |Last(run).peers|
    ensures term <= Last(run').peers[s].currentTerm && Last(run').peers[s].log == Last(run).peers[s].log
    ensures forall v | 0 <= v < |Last(run).peers| && v != s :: Last(run').peers[v] == Last(run).peers[v]
    decreases term - Last(run).peers[s].currentTerm
  {
    if term <= Last(run).peers[s].currentTerm {
      run' := run;
    } else {
      var next := OneMore(run, size, Elect(s));
      run' := RaisesTerm(next, size, s, term);
      FurtherOn(run, next, run', size);
    }
  }

  /** A group of servers, each once. */
  ghost predicate GroupOf(c: Cluster, group: seq<nat>) {
    Distinct(group) && forall i | 0 <= i < |group| :: group[i] < |c.peers|
  }

  ghost function TopTerm(c: Cluster, group: seq<nat>): nat
    requires GroupOf(c, group)
  {
    if group == [] then 0 else
      var n, rest := c.peers[group[|group| - 1]].currentTerm, TopTerm(c, group[..|group| - 1]);
      if n < rest then rest else n
  }

  lemma {:induction false} TermsBelowTop(c: Cluster, group: seq<nat>, i: nat)
    requires GroupOf(c, group) && i < |group|
    ensures c.peers[group[i]].currentTerm <= TopTerm(c, group)
    decreases |group|
  {
    if i < |group| - 1 { TermsBelowTop(c, group[..|group| - 1], i); }
  }

  ghost predicate IsNewest(c: Cluster, group: seq<nat>, x: nat)
    requires GroupOf(c, group) && x < |group|
  {
    forall i | 0 <= i < |group| :: NoNewer(c.peers[group[i]].log, c.peers[group[x]].log)
  }

  /** Some server of a group has a log that is at least as new as all others. */
  lemma {:induction false} SomeNewest(c: Cluster, group: seq<nat>) returns (x: nat)
    requires GroupOf(c, group) && group != [] && forall i | 0 <= i < |group| :: |c.peers[group[i]].log| > 0
    ensures x < |group| && IsNewest(c, group, x)
    decreases |group|
  {
    var n := |group| - 1;
    x := n;
    if n > 0 {
      var rest := group[..n];
      var y := SomeNewest(c, rest);
      NoNewerTotal(c.peers[group[n]].log, c.peers[group[y]].log);
      if NoNewer(c.peers[group[n]].log, c.peers[group[y]].log) { x := y; }
      forall i | 0 <= i < |group| ensures NoNewer(c.peers[group[i]].log, c.peers[group[x]].log) {
        assert i < n ==> NoNewer(c.peers[rest[i]].log, c.peers[rest[y]].log);
      }
    }
  }

  /** The group without its member at x. */
  ghost function Without(group: seq<nat>, x: nat): seq<nat>
    requires x < |group|
  {
    group[..x] + group[x + 1..]
  }

  lemma WithoutIsOthers(c: Cluster, group: seq<nat>, x: nat)
    requires GroupOf(c, group) && x < |group|
    ensures OthersOf(c, group[x], Without(group, x)) && |Without(group, x)| == |group| - 1
    ensures forall i | 0 <= i < |group| && i != x :: Without(group, x)[if i < x then i else i - 1] == group[i]
    ensures forall k | 0 <= k < |group| - 1 :: Without(group, x)[k] == group[if k < x then k else k + 1]
  {
  }

  /** On the way from c to d the newest server of the group has only raised its term, above all others. */
  lemma OthersBehind(c: Cluster, d: Cluster, group: seq<nat>, x: nat)
    requires GroupOf(c, group) && x < |group| && IsNewest(c, group, x) && |d.peers| == |c.peers|
    requires d.peers[group[x]].log == c.peers[group[x]].log && TopTerm(c, group) <= d.peers[group[x]].currentTerm
    requires forall v | 0 <= v < |c.peers| && v != group[x] :: d.peers[v] == c.peers[v]
    ensures OthersOf(d, group[x], Without(group, x)) && Behind(d, group[x], Without(group, x))
  {
    var s, others := group[x], Without(group, x);
    WithoutIsOthers(c, group, x);
    forall k | 0 <= k < |others|
      ensures NoNewer(d.peers[others[k]].log, d.peers[s].log)
      ensures d.peers[others[k]].currentTerm <= d.peers[s].currentTerm
    {
      var i := if k < x then k else k + 1;
      assert others[k] == group[i] && NoNewer(c.peers[group[i]].log, c.peers[s].log);
      TermsBelowTop(c, group, i);
    }
  }

  lemma NoLogEmpty(run: seq<Cluster>, size: nat, group: seq<nat>)
    requires IsRun(run, size, false) && GroupOf(Last(run), group)
    ensures forall i | 0 <= i < |group| :: |Last(run).peers[group[i]].log| > 0
  {
    forall i | 0 <= i < |group| ensures |Last(run).peers[group[i]].log| > 0 { PlainFacts(run, size, group[i]); }
  }

  /** The newest server of the group can stand against all others. */
  lemma NewestStands(run: seq<Cluster>, size: nat, group: seq<nat>) returns (run': seq<Cluster>, x: nat)
    requires IsRun(run, size, false) && GroupOf(Last(run), group) && group != []
    ensures GoesOn(run, run', size) && |Last(run').peers| == |Last(run).peers| && x < |group|
    ensures OthersOf(Last(run'), group[x], Without(group, x)) && Behind(Last(run'), group[x], Without(group, x))
  {
    NoLogEmpty(run, size, group);
    x := SomeNewest(Last(run), group);
    run' := RaisesTerm(run, size, group[x], TopTerm(Last(run), group));
    OthersBehind(Last(run), Last(run'), group, x);
  }

  /** The server takes office with the votes of the others, whom it has then in its term. */
  lemma TakesOffice(run: seq<Cluster>, size: nat, s: nat, others: seq<nat>) returns (run': seq<Cluster>)
    requires IsRun(run, size, false) && OthersOf(Last(run), s, others) && Behind(Last(run), s, others)
    requires IsMajority(size, others)
    ensures GoesOn(run, run', size) && |Last(run').peers| == |Last(run).peers|
    ensures OthersOf(Last(run'), s, others) && NotLater(Last(run'), s, others) && Last(run').peers[s].role == Leader
  {
    run' := ElectionSucceeds(run, size, s, others);
  }

  /** A majority is never stuck: from every state of every run, whatever was lost, delayed or crashed before, any
      majority of at least two servers can elect a leader among themselves, and every one of them can be handed a new
      command, all at the same index. */
  lemma MajorityNeverStuck(run: seq<Cluster>, size: nat, group: seq<nat>, command: Command)
    returns (run': seq<Cluster>, index: nat)
    requires IsRun(run, size, false) && GroupOf(Last(run), group) && |group| >= 2 && |group| >= size / 2 + 1
    ensures GoesOn(run, run', size)
    ensures forall i | 0 <= i < |group| :: Delivery(group[i], CommandMsg(index, Some(command))) in Last(run').delivered
  {
    var raised, x := NewestStands(run, size, group);
    WithoutIsOthers(Last(raised), group, x);
    var led := TakesOffice(raised, size, group[x], Without(group, x));
    FurtherOn(run, raised, led, size);
    index := |Last(led).peers[group[x]].log|;
    run' := CommandGetsThrough(led, size, group[x], Without(group, x), command);
    FurtherOn(run, led, run', size);
    forall i | 0 <= i < |group|
      ensures Delivery(group[i], CommandMsg(index, Some(command))) in Last(run').delivered
    {
      assert i != x ==> Without(group, x)[if i < x then i else i - 1] == group[i];
    }
  }
}
