/** The invariant is kept when a leader appends and when a follower accepts. */
module RaftReplication {
  import opened Options
  import opened RaftState
  import opened RaftCluster
  import opened RaftHistory
  import opened RaftEvolve
  import opened RaftActions

  // ---------------------------------------------------------------- Log Matching and Leader Completeness

  /** Two backed logs that have the same term at an index agree up to that index. */
  lemma BackedLogsMatch(h: History, a: seq<LogEntry>, b: seq<LogEntry>, i: nat)
    requires Backed(h, a) && Backed(h, b) && i < |a| && i < |b| && a[i].term == b[i].term
    ensures a[..i + 1] == b[..i + 1]
  {
    assert BackedAt(h, a, i) && BackedAt(h, b, i);
  }

  lemma ChosenNotDead(c: Cluster, h: History, t: nat, i: nat)
    requires Chosen(|c.peers|, h, t, i)
    ensures !Dead(c, h, t, i)
  {
    if Dead(c, h, t, i) {
      var q :| Majority(|c.peers|, q) && AllAcked(h, q, t, i);
      var r :| Majority(|c.peers|, r) && Passed(c, h, r, t, i);
      var s := Overlap(|c.peers|, q, r);
      assert false;
    }
  }

  /** What was committed in one term is in the log of every reign from that term on. */
  lemma ReignsCarryChosen(c: Cluster, h: History, t: nat, i: nat, u: nat)
    requires ReignsSafe(c, h) && Chosen(|c.peers|, h, t, i) && u in h.reigns && t <= u
    ensures Carries(h, h.reigns[u].log, t, i)
  {
    ChosenNotDead(c, h, t, i);
    assert ReignSafe(c, h, t, u, i);
  }

  // ---------------------------------------------------------------- a leader appends

  ghost function HistoryAfterStart(h: History, p: Peer, entry: LogEntry): History
    requires p.currentTerm in h.reigns
  {
    h.(reigns := h.reigns[p.currentTerm := h.reigns[p.currentTerm].(log := p.log + [entry])],
       acks := h.acks[(p.me, p.currentTerm) := |p.log|])
  }

  lemma StartStep(c: Cluster, h: History, s: nat, command: Command, h': History)
    requires Inv(c, h) && s < |c.peers| && c.peers[s].role == Leader && LeaderOk(|c.peers|, h, c.peers[s])
    requires h' == HistoryAfterStart(h, c.peers[s], LogEntry(|c.peers[s].log|, c.peers[s].currentTerm, Some(command)))
    ensures Grows(h, h')
    ensures Inv(Update(c, s, StartCommand(c.peers[s], command), {}), h')
  {
    var p, p' := c.peers[s], StartCommand(c.peers[s], command);
    var c' := Update(c, s, p', {});
    assert PeerOk(|c.peers|, h, s, p);
    StartedLog(h, p, command, h');
    RecordsAfterStart(c, h, s, p', h', c');
    SafetyAfterStart(c, h, s, p', h', c');
    SurroundingsAfterStart(c, h, s, command, h');
  }

  lemma SurroundingsAfterStart(c: Cluster, h: History, s: nat, command: Command, h': History)
    requires PeersOk(c, h) && NetOk(c, h) && DeliveredOk(c, h) && s < |c.peers|
    requires c.peers[s].role == Leader && LeaderOk(|c.peers|, h, c.peers[s])
    requires h' == HistoryAfterStart(h, c.peers[s], LogEntry(|c.peers[s].log|, c.peers[s].currentTerm, Some(command)))
    requires Grows(h, h') && LogOk(h', StartCommand(c.peers[s], command).log, c.peers[s].currentTerm)
    ensures var c' := Update(c, s, StartCommand(c.peers[s], command), {});
            PeersOk(c', h') && NetOk(c', h') && DeliveredOk(c', h')
  {
    assert PeerOk(|c.peers|, h, s, c.peers[s]);
    OthersAfterStart(c, h, s, h');
    LeaderAfterStart(|c.peers|, h, s, c.peers[s], command, h');
    CallsKeptAfterStart(c, h, s, command);
    SurroundingsStay(c, h, s, StartCommand(c.peers[s], command), {}, h');
  }

  lemma CallsKeptAfterStart(c: Cluster, h: History, s: nat, command: Command)
    requires s < |c.peers|
    ensures CallsKept(c, h, Update(c, s, StartCommand(c.peers[s], command), {}))
  {
  }

  lemma StartedLog(h: History, p: Peer, command: Command, h': History)
    requires p.role == Leader && p.currentTerm in h.reigns && h.reigns[p.currentTerm].log == p.log
    requires LogOk(h, p.log, p.currentTerm) && p.snapshot.index == 0
    requires (p.me, p.currentTerm) in h.acks && h.acks[(p.me, p.currentTerm)] == |p.log| - 1
    requires h' == HistoryAfterStart(h, p, LogEntry(|p.log|, p.currentTerm, Some(command)))
    ensures Grows(h, h')
    ensures LogOk(h', StartCommand(p, command).log, p.currentTerm)
  {
    var log := StartCommand(p, command).log;
    BackedAfterStart(h, p, log, h');
    ShapedAfterAppend(p.log, log[|p.log|]);
  }

  lemma ShapedAfterAppend(log: seq<LogEntry>, entry: LogEntry)
    requires Shaped(log) && entry.index == |log| && TermsUpTo(log, entry.term)
    ensures Shaped(log + [entry])
  {
    var log' := log + [entry];
    forall i | 0 <= i < |log'| ensures Placed(log', i) { assert i < |log| ==> Placed(log, i); }
    forall i, j | 0 <= i < j < |log'| ensures Ordered(log', i, j) { assert j < |log| ==> Ordered(log, i, j); }
  }

  lemma OthersAfterStart(c: Cluster, h: History, s: nat, h': History)
    requires PeersOk(c, h) && s < |c.peers| && c.peers[s].me == s && LeaderOk(|c.peers|, h, c.peers[s])
    requires h'.acks == h.acks[(s, c.peers[s].currentTerm) := |c.peers[s].log|]
    requires forall t | t in h'.reigns :: t in h.reigns && h'.reigns[t].leader == h.reigns[t].leader
    requires forall t | t in h.reigns :: t in h'.reigns && (t != c.peers[s].currentTerm ==> h'.reigns[t] == h.reigns[t])
    ensures forall v | 0 <= v < |c.peers| && v != s :: Undisturbed(h, h', c.peers[v])
  {
    forall v | 0 <= v < |c.peers| && v != s ensures Undisturbed(h, h', c.peers[v]) {
      assert PeerOk(|c.peers|, h, v, c.peers[v]);
    }
  }

  lemma BackedAfterStart(h: History, p: Peer, log: seq<LogEntry>, h': History)
    requires Backed(h, p.log) && |log| == |p.log| + 1 && log[..|p.log|] == p.log && log[|p.log|].term == p.currentTerm
    requires p.currentTerm in h'.reigns && h'.reigns[p.currentTerm].log == log && ReignsGrow(h, h')
    ensures Backed(h', log)
  {
    forall i | 0 <= i < |log| ensures BackedAt(h', log, i) {
      if i < |p.log| {
        assert BackedAt(h, p.log, i);
        assert log[..i + 1] == p.log[..i + 1];
      }
    }
  }

  lemma LeaderAfterStart(size: nat, h: History, s: nat, p: Peer, command: Command, h': History)
    requires PeerOk(size, h, s, p) && p.role == Leader && LeaderOk(size, h, p)
    requires h' == HistoryAfterStart(h, p, LogEntry(|p.log|, p.currentTerm, Some(command))) && Grows(h, h')
    requires LogOk(h', StartCommand(p, command).log, p.currentTerm)
    ensures PeerOk(size, h', s, StartCommand(p, command))
  {
    var p' := StartCommand(p, command);
    SettledGrows(size, h, h', p.log, p'.log, p.commitIndex, p.currentTerm, p.currentTerm);
    CallsAfterStart(size, h, s, p, command, h');
    assert LeaderOk(size, h', p');
  }

  lemma CallsAfterStart(size: nat, h: History, s: nat, p: Peer, command: Command, h': History)
    requires PeerOk(size, h, s, p) && p.role == Leader && LeaderOk(size, h, p)
    requires h' == HistoryAfterStart(h, p, LogEntry(|p.log|, p.currentTerm, Some(command))) && Grows(h, h')
    requires LogOk(h', StartCommand(p, command).log, p.currentTerm)
    requires Settled(size, h', StartCommand(p, command).log, p.commitIndex, p.currentTerm)
    ensures var p' := StartCommand(p, command); forall k | 0 <= k < |p'.calls| :: CallOk(size, h', p', p'.calls[k])
  {
    var p' := StartCommand(p, command);
    forall k | 0 <= k < |p'.calls| ensures CallOk(size, h', p', p'.calls[k]) {
      if k < |p.calls| { CallStays(size, h, h', p, p', p.calls[k]); }
    }
  }

  lemma RecordsAfterStart(c: Cluster, h: History, s: nat, p': Peer, h': History, c': Cluster)
    requires RecordsOk(c, h) && s < |c.peers| && LeaderOk(|c.peers|, h, c.peers[s]) && Grows(h, h')
      && c.peers[s].me == s
    requires h' == h.(reigns := h'.reigns, acks := h.acks[(s, p'.currentTerm) := |c.peers[s].log|])
    requires p'.currentTerm == c.peers[s].currentTerm && p'.votedFor == c.peers[s].votedFor
    requires h'.reigns == h.reigns[p'.currentTerm := h.reigns[p'.currentTerm].(log := p'.log)]
    requires LogOk(h', p'.log, p'.currentTerm) && |p'.log| == |c.peers[s].log| + 1
    requires c'.peers == c.peers[s := p']
    ensures RecordsOk(c', h')
  {
    forall t | t in h'.reigns ensures ReignOk(c', h', t) {
      assert ReignOk(c, h, t);
      BackedGrows(h, h', h.reigns[t].log);
    }
    VotesKept(c, h, c', h');
    BallotsKept(c, h, c', h');
    assert AckOk(c, h, s, p'.currentTerm);
    OneMoreAck(c, h, c', h', s, p'.currentTerm);
  }

  /** An entry made after a later leader took office is dead at once. */
  lemma LateEntryIsDead(c: Cluster, h: History, s: nat, u: nat, c': Cluster, h': History, i: nat)
    requires RecordsOk(c, h) && s < |c.peers| && LeaderOk(|c.peers|, h, c.peers[s]) && c.peers[s].me == s
    requires u in h.reigns && c.peers[s].currentTerm < u
    requires h'.acks == h.acks[(s, c.peers[s].currentTerm) := |c.peers[s].log|]
    requires |c'.peers| == |c.peers|
      && forall v | 0 <= v < |c.peers| :: c'.peers[v].currentTerm == c.peers[v].currentTerm
    requires i == |c.peers[s].log|
    ensures Dead(c', h', c.peers[s].currentTerm, i)
  {
    var term, electors := c.peers[s].currentTerm, h.reigns[u].electors;
    assert ReignOk(c, h, u);
    forall v | v in electors ensures c'.peers[v].currentTerm > term && !Acked(h', v, term, i) {
      assert VoteOk(c, h, v, u);
      assert (v, term) in h.acks ==> AckOk(c, h, v, term);
    }
    assert Majority(|c'.peers|, electors) && Passed(c', h', electors, term, i);
  }

  lemma SafetyAfterStart(c: Cluster, h: History, s: nat, p': Peer, h': History, c': Cluster)
    requires ReignsSafe(c, h) && LogsSafe(c, h) && VotesSafe(c, h) && RecordsOk(c, h)
    requires s < |c.peers| && LeaderOk(|c.peers|, h, c.peers[s]) && c.peers[s].me == s && Grows(h, h')
    requires h' == h.(reigns := h'.reigns, acks := h.acks[(s, p'.currentTerm) := |c.peers[s].log|])
    requires p'.currentTerm == c.peers[s].currentTerm
    requires h'.reigns == h.reigns[p'.currentTerm := h.reigns[p'.currentTerm].(log := p'.log)]
    requires |p'.log| == |c.peers[s].log| + 1 && c.peers[s].log <= p'.log
    requires c'.peers == c.peers[s := p']
    ensures ReignsSafe(c', h') && LogsSafe(c', h') && VotesSafe(c', h')
  {
    assert Evolves(c, h, c', h');
    forall t: nat, u: nat, i: nat ensures ReignSafe(c', h', t, u, i) {
      if Own(h', t, i) && u in h'.reigns && t < u {
        if Own(h, t, i) {
          assert ReignSafe(c, h, t, u, i);
          CarriesOrDeadStays(c, h, c', h', h.reigns[u].log, h'.reigns[u].log, t, i);
        } else {
          LateEntryIsDead(c, h, s, u, c', h', i);
        }
      }
    }
    PeersAfterStart(c, h, s, p', h', c');
    VotesStay(c, h, c', h');
  }

  lemma PeersAfterStart(c: Cluster, h: History, s: nat, p': Peer, h': History, c': Cluster)
    requires LogsSafe(c, h) && RecordsOk(c, h) && Evolves(c, h, c', h')
    requires s < |c.peers| && LeaderOk(|c.peers|, h, c.peers[s]) && c.peers[s].me == s
    requires h'.acks == h.acks[(s, p'.currentTerm) := |c.peers[s].log|]
    requires p'.currentTerm == c.peers[s].currentTerm && c.peers[s].log <= p'.log
    requires h'.reigns == h.reigns[p'.currentTerm := h.reigns[p'.currentTerm].(log := p'.log)]
    requires c'.peers == c.peers[s := p']
    ensures LogsSafe(c', h')
  {
    forall v: nat, t: nat, i: nat ensures LogSafe(c', h', v, t, i) {
      if v < |c.peers| && Own(h', t, i) && Acked(h', v, t, i) && !(v == s && t == p'.currentTerm) {
        assert Acked(h, v, t, i) && AckOk(c, h, v, t);
        assert Own(h, t, i) && LogSafe(c, h, v, t, i);
        CarriesOrDeadStays(c, h, c', h', c.peers[v].log, c'.peers[v].log, t, i);
      }
    }
  }

  // ---------------------------------------------------------------- a follower accepts

  /** A request aimed below the log is the same slice, without the sentinel. */
  lemma ClipKeepsArgs(size: nat, h: History, p: Peer, a: AppendArgs)
    requires ArgsOk(size, h, a) && p.snapshot == Snapshot(0, 0, []) && Shaped(h.reigns[a.term].log)
    ensures ArgsOk(size, h, Clip(p, a)) && 0 <= Clip(p, a).prevLogIndex
    ensures Clip(p, a).prevLogIndex + |Clip(p, a).entries| == a.prevLogIndex + |a.entries|
  {
    if a.prevLogIndex < 0 { SentinelDropped(h.reigns[a.term].log, a); }
  }

  lemma SentinelDropped(log: seq<LogEntry>, a: AppendArgs)
    requires SliceOf(log, a) && a.prevLogIndex < 0 && Shaped(log)
    ensures |a.entries| > 0 && DropThrough(a.entries, 0) == a.entries[1..] == log[1..|a.entries|]
  {
    assert a.entries[0] == log[0] && a.entries[1..] == log[1..|a.entries|];
    assert |a.entries| > 1 ==> a.entries[1] == log[1] && Placed(log, 1);
    assert DropThrough(a.entries, 0) == DropThrough(a.entries[1..], 0);
  }

  lemma FollowerWindow(p: Peer)
    requires Shaped(p.log) && p.snapshot.index == 0
    ensures p.Window()
  {
    forall i | 0 <= i < |p.log| ensures p.log[i].index == i { assert Placed(p.log, i); }
  }

  /** After accepting, a follower has the leader's log up to the last entry of the request. */
  lemma SpliceFollowsLeader(size: nat, h: History, p: Peer, a: AppendArgs)
    requires ArgsOk(size, h, a) && 0 <= a.prevLogIndex && Backed(h, h.reigns[a.term].log)
    requires Shaped(p.log) && Backed(h, p.log) && p.snapshot == Snapshot(0, 0, []) && p.Window()
    requires Consistent(p, a)
    ensures var log, m := h.reigns[a.term].log, a.prevLogIndex + |a.entries|;
            && log[..m + 1] <= Spliced(p, a)
            && (Spliced(p, a) == p.log || Spliced(p, a) == log[..m + 1])
  {
    var log, prev, m := h.reigns[a.term].log, a.prevLogIndex, a.prevLogIndex + |a.entries|;
    BackedLogsMatch(h, p.log, log, prev);
    if AlreadyHas(p, prev, a.entries) {
      if |a.entries| > 0 {
        assert a.entries[|a.entries| - 1] == log[m];
        BackedLogsMatch(h, p.log, log, m);
      }
    } else {
      assert p.log[..prev + 1] + a.entries == log[..m + 1];
    }
  }

  /** Accepting never removes an entry that the follower already shares with the leader. */
  lemma SpliceKeepsShared(size: nat, h: History, p: Peer, a: AppendArgs, shared: seq<LogEntry>)
    requires ArgsOk(size, h, a) && 0 <= a.prevLogIndex && Backed(h, h.reigns[a.term].log)
    requires Shaped(p.log) && Backed(h, p.log) && p.snapshot == Snapshot(0, 0, []) && p.Window()
    requires Consistent(p, a)
    requires shared <= p.log && shared <= h.reigns[a.term].log
    ensures shared <= Spliced(p, a)
  {
    var log, m := h.reigns[a.term].log, a.prevLogIndex + |a.entries|;
    if |shared| > m + 1 {
      SharedIsThere(p, a, log, shared);
    } else {
      SpliceFollowsLeader(size, h, p, a);
      assert shared == log[..m + 1][..|shared|];
    }
  }

  /** A follower that shares more with the sender than the request holds has all of its entries already. */
  lemma SharedIsThere(p: Peer, a: AppendArgs, log: seq<LogEntry>, shared: seq<LogEntry>)
    requires p.Window() && p.snapshot.index == 0 && 0 <= a.prevLogIndex
    requires a.prevLogIndex + |a.entries| < |log|
    requires a.entries == log[a.prevLogIndex + 1..a.prevLogIndex + 1 + |a.entries|]
    requires shared <= p.log && shared <= log && |shared| > a.prevLogIndex + |a.entries| + 1
    ensures AlreadyHas(p, a.prevLogIndex, a.entries)
  {
    var prev := a.prevLogIndex;
    forall i | 0 <= i < |a.entries|
      ensures prev + 1 + i <= p.LastIndex() && p.At(prev + 1 + i).term == a.entries[i].term
    {
      assert a.entries[i] == log[prev + 1 + i] == shared[prev + 1 + i] == p.log[prev + 1 + i];
    }
    assert forall i | 0 <= i < |a.entries| ::
             prev + 1 + i <= p.LastIndex() && p.At(prev + 1 + i).term == a.entries[i].term;
    assert AlreadyHas(p, prev, a.entries);
  }

  ghost function HistoryAfterAccept(h: History, s: nat, a: AppendArgs): History
    requires 0 <= a.prevLogIndex + |a.entries|
  {
    var m := a.prevLogIndex + |a.entries|;
    h.(acks := h.acks[(s, a.term) := if Acked(h, s, a.term, m) then h.acks[(s, a.term)] else m])
  }

  ghost predicate Accepts(c: Cluster, h: History, s: nat, a: AppendArgs) {
    && s < |c.peers|
    && c.peers[s].currentTerm == a.term
    && c.peers[s].snapshot == Snapshot(0, 0, [])
    && ArgsOk(|c.peers|, h, a)
    && 0 <= a.prevLogIndex
    && h.reigns[a.term].leader != s
    && c.peers[s].Window()
    && Consistent(c.peers[s], a)
  }

  lemma AcceptStep(c: Cluster, h: History, s: nat, a: AppendArgs, h': History)
    requires Inv(c, h) && Accepts(c, h, s, a) && h' == HistoryAfterAccept(h, s, a)
    ensures Grows(h, h')
    ensures Inv(Update(c, s, Accept(c.peers[s], a), {}), h')
    ensures Acked(h', s, a.term, a.prevLogIndex + |a.entries|)
  {
    FollowerAfterAccept(c, h, s, a, h');
    forall t: nat, i: nat | Own(h, t, i) && Acked(h', s, t, i)
      ensures CarriesOrDead(c, h, Accept(c.peers[s], a).log, t, i)
    {
      AcceptedCarries(c, h, s, a, h', t, i);
    }
    NewFollowerStep(c, h, s, a, Accept(c.peers[s], a), h');
  }

  /** The step with the accepting follower's new state `p` given. */
  lemma NewFollowerStep(c: Cluster, h: History, s: nat, a: AppendArgs, p: Peer, h': History)
    requires Inv(c, h) && s < |c.peers| && c.peers[s].currentTerm == a.term
    requires ArgsOk(|c.peers|, h, a) && h' == HistoryAfterAccept(h, s, a) && Grows(h, h')
    requires p.role == Follower && p.currentTerm == a.term && p.votedFor == c.peers[s].votedFor
    requires PeerOk(|c.peers|, h', s, p)
    requires h.reigns[a.term].leader != s
    requires forall t: nat, i: nat | Own(h, t, i) && Acked(h', s, t, i) :: CarriesOrDead(c, h, p.log, t, i)
    ensures Inv(Update(c, s, p, {}), h')
  {
    var c' := Update(c, s, p, {});
    RecordsAfterAccept(c, h, s, a, h', c');
    SafetyAfterAccept(c, h, s, a, h', c');
    forall v | 0 <= v < |c.peers| && v != s ensures Undisturbed(h, h', c.peers[v]) {
      assert PeerOk(|c.peers|, h, v, c.peers[v]);
    }
    SurroundingsStay(c, h, s, p, {}, h');
  }

  lemma RecordsAfterAccept(c: Cluster, h: History, s: nat, a: AppendArgs, h': History, c': Cluster)
    requires RecordsOk(c, h) && s < |c.peers| && c.peers[s].currentTerm == a.term
    requires 0 < a.term && a.term in h.reigns && 0 <= a.prevLogIndex + |a.entries| < |h.reigns[a.term].log|
    requires h' == HistoryAfterAccept(h, s, a)
    requires |c'.peers| == |c.peers| && c'.peers == c.peers[s := c'.peers[s]]
    requires c'.peers[s].currentTerm == c.peers[s].currentTerm && c'.peers[s].votedFor == c.peers[s].votedFor
    ensures RecordsOk(c', h')
  {
    ReignsKept(c, h, c', h');
    VotesKept(c, h, c', h');
    BallotsKept(c, h, c', h');
    assert (s, a.term) in h.acks ==> AckOk(c, h, s, a.term);
    OneMoreAck(c, h, c', h', s, a.term);
  }

  lemma FollowerAfterAccept(c: Cluster, h: History, s: nat, a: AppendArgs, h': History)
    requires PeersOk(c, h) && RecordsOk(c, h) && ReignsSafe(c, h) && Accepts(c, h, s, a)
    requires h' == HistoryAfterAccept(h, s, a) && Grows(h, h')
    ensures PeerOk(|c.peers|, h', s, Accept(c.peers[s], a))
  {
    var p := c.peers[s];
    assert PeerOk(|c.peers|, h, s, p);
    assert ReignOk(c, h, a.term);
    var log, k := Spliced(p, a), CommitAfter(p, a);
    assert LogOk(h', log, a.term) by {
      SpliceOk(|c.peers|, h, p, a);
      BackedGrows(h, h', log);
    }
    CommitAfterAccept(c, h, s, a);
    SettledGrows(|c.peers|, h, h', log, log, k, a.term, a.term);
    AcceptedPeer(|c.peers|, h', s, p, a);
  }

  /** What Accept makes of a follower that has no snapshot. */
  lemma AcceptedPeer(size: nat, h: History, s: nat, p: Peer, a: AppendArgs)
    requires p.Window() && 0 <= a.prevLogIndex <= p.LastIndex()
    requires p.me == s && p.size == size && p.snapshot == Snapshot(0, 0, []) && a.snapshot == Snapshot(0, 0, [])
    requires LogOk(h, Spliced(p, a), p.currentTerm) && CallsOver(p)
    requires p.lastApplied <= CommitAfter(p, a) < |Spliced(p, a)|
    requires Settled(size, h, Spliced(p, a), CommitAfter(p, a), p.currentTerm)
    ensures PeerOk(size, h, s, Accept(p, a))
  {
  }

  lemma SpliceOk(size: nat, h: History, p: Peer, a: AppendArgs)
    requires ArgsOk(size, h, a) && 0 <= a.prevLogIndex && LogOk(h, h.reigns[a.term].log, a.term)
    requires LogOk(h, p.log, a.term) && p.snapshot == Snapshot(0, 0, []) && p.Window()
    requires Consistent(p, a)
    ensures LogOk(h, Spliced(p, a), a.term)
  {
    var spliced, cut := Spliced(p, a), h.reigns[a.term].log[..a.prevLogIndex + |a.entries| + 1];
    assert spliced == p.log || spliced == cut by { SpliceFollowsLeader(size, h, p, a); }
    assert LogOk(h, cut, a.term) by { PrefixOk(h, h.reigns[a.term].log, a.term, a.prevLogIndex + |a.entries| + 1); }
  }

  lemma CommitAfterAccept(c: Cluster, h: History, s: nat, a: AppendArgs)
    requires PeersOk(c, h) && RecordsOk(c, h) && ReignsSafe(c, h) && Accepts(c, h, s, a)
    ensures c.peers[s].commitIndex <= CommitAfter(c.peers[s], a) < |Spliced(c.peers[s], a)|
    ensures Settled(|c.peers|, h, Spliced(c.peers[s], a), CommitAfter(c.peers[s], a), a.term)
  {
    var size, p := |c.peers|, c.peers[s];
    assert PeerOk(size, h, s, p);
    if a.leaderCommit > p.commitIndex {
      assert ReignOk(c, h, a.term);
      CommitFromLeader(size, h, p, a);
    } else {
      CommittedIsKept(c, h, s, a);
      SettledGrows(size, h, h, p.log, Spliced(p, a), p.commitIndex, a.term, a.term);
    }
  }

  lemma CommitFromLeader(size: nat, h: History, p: Peer, a: AppendArgs)
    requires ArgsOk(size, h, a) && 0 <= a.prevLogIndex && Backed(h, h.reigns[a.term].log)
    requires Shaped(p.log) && Backed(h, p.log) && p.snapshot == Snapshot(0, 0, []) && p.Window()
    requires Consistent(p, a) && a.leaderCommit > p.commitIndex
    ensures CommitAfter(p, a) == a.leaderCommit < |Spliced(p, a)|
    ensures Settled(size, h, Spliced(p, a), a.leaderCommit, a.term)
  {
    SpliceFollowsLeader(size, h, p, a);
    var log, m, k := h.reigns[a.term].log, a.prevLogIndex + |a.entries|, a.leaderCommit;
    assert log[..k + 1] == log[..m + 1][..k + 1];
    SettledGrows(size, h, h, log, Spliced(p, a), k, a.term, a.term);
  }

  lemma PrefixOk(h: History, log: seq<LogEntry>, term: nat, k: nat)
    requires LogOk(h, log, term) && 0 < k <= |log|
    ensures LogOk(h, log[..k], term)
  {
    forall i | 0 <= i < k ensures BackedAt(h, log[..k], i) && Placed(log[..k], i) {
      assert BackedAt(h, log, i) && Placed(log, i);
      assert log[..k][..i + 1] == log[..i + 1];
    }
    forall i, j | 0 <= i < j < k ensures Ordered(log[..k], i, j) { assert Ordered(log, i, j); }
  }

  /** Accepting never touches what the follower has committed. */
  lemma CommittedIsKept(c: Cluster, h: History, s: nat, a: AppendArgs)
    requires PeersOk(c, h) && RecordsOk(c, h) && ReignsSafe(c, h) && Accepts(c, h, s, a)
    ensures c.peers[s].commitIndex < |c.peers[s].log|
    ensures c.peers[s].log[..c.peers[s].commitIndex + 1] <= Spliced(c.peers[s], a)
  {
    var size, p, log := |c.peers|, c.peers[s], h.reigns[a.term].log;
    assert PeerOk(size, h, s, p);
    assert ReignOk(c, h, a.term);
    var k := p.commitIndex;
    if k == 0 {
      assert p.log[..1] == [SENTINEL] == log[..1];
    } else {
      var u, i :| Witness(size, h, p.log, k, p.currentTerm, u, i);
      ReignsCarryChosen(c, h, u, i, a.term);
      var prefix := h.reigns[u].log[..i + 1];
      assert h.reigns[u].log[..k + 1] == prefix[..k + 1] == log[..k + 1];
      assert p.log[..k + 1] == h.reigns[u].log[..k + 1];
    }
    SpliceKeepsShared(size, h, p, a, p.log[..k + 1]);
  }

  lemma SafetyAfterAccept(c: Cluster, h: History, s: nat, a: AppendArgs, h': History, c': Cluster)
    requires RecordsOk(c, h) && ReignsSafe(c, h) && LogsSafe(c, h) && VotesSafe(c, h)
    requires s < |c.peers| && c.peers[s].currentTerm == a.term
    requires 0 <= a.prevLogIndex + |a.entries| && h' == HistoryAfterAccept(h, s, a) && Grows(h, h')
    requires |c'.peers| == |c.peers| && c'.peers == c.peers[s := c'.peers[s]] && c'.peers[s].currentTerm == a.term
    requires forall t: nat, i: nat | Own(h, t, i) && Acked(h', s, t, i) ::
               CarriesOrDead(c, h, c'.peers[s].log, t, i)
    ensures ReignsSafe(c', h') && LogsSafe(c', h') && VotesSafe(c', h')
  {
    assert Evolves(c, h, c', h');
    forall t: nat, u: nat, i: nat ensures ReignSafe(c', h', t, u, i) {
      assert ReignSafe(c, h, t, u, i);
      if Own(h, t, i) && u in h.reigns && t < u {
        CarriesOrDeadStays(c, h, c', h', h.reigns[u].log, h.reigns[u].log, t, i);
      }
    }
    forall v: nat, t: nat, i: nat ensures LogSafe(c', h', v, t, i) {
      assert LogSafe(c, h, v, t, i);
      if v < |c.peers| && Own(h, t, i) && Acked(h', v, t, i) {
        CarriesOrDeadStays(c, h, c', h', c'.peers[v].log, c'.peers[v].log, t, i);
      }
    }
    VotesStay(c, h, c', h');
  }

  /** The follower still carries all it ever confirmed, unless that is dead. */
  lemma AcceptedCarries(c: Cluster, h: History, s: nat, a: AppendArgs, h': History, t: nat, i: nat)
    requires PeersOk(c, h) && RecordsOk(c, h) && ReignsSafe(c, h) && LogsSafe(c, h)
    requires Accepts(c, h, s, a) && h' == HistoryAfterAccept(h, s, a)
    requires Own(h, t, i) && Acked(h', s, t, i)
    ensures CarriesOrDead(c, h, Spliced(c.peers[s], a), t, i)
  {
    var size, p, log, prefix := |c.peers|, c.peers[s], h.reigns[a.term].log, h.reigns[t].log[..i + 1];
    assert PeerOk(size, h, s, p);
    assert ReignOk(c, h, a.term);
    if !Acked(h, s, t, i) {
      SpliceFollowsLeader(size, h, p, a);
      var m := a.prevLogIndex + |a.entries|;
      assert prefix == log[..m + 1][..i + 1];
    } else if !Dead(c, h, t, i) {
      BothCarry(c, h, s, a, t, i);
      SpliceKeepsShared(size, h, p, a, prefix);
    }
  }

  lemma BothCarry(c: Cluster, h: History, s: nat, a: AppendArgs, t: nat, i: nat)
    requires AcksOk(c, h) && ReignsSafe(c, h) && LogsSafe(c, h) && s < |c.peers|
    requires c.peers[s].currentTerm == a.term && a.term in h.reigns
    requires Own(h, t, i) && Acked(h, s, t, i) && !Dead(c, h, t, i)
    ensures h.reigns[t].log[..i + 1] <= c.peers[s].log && h.reigns[t].log[..i + 1] <= h.reigns[a.term].log
  {
    assert AckOk(c, h, s, t);
    assert LogSafe(c, h, s, t, i) && ReignSafe(c, h, t, a.term, i);
  }
}
