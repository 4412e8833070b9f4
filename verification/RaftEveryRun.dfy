/** What holds in every run, with log compaction too: the shape of the log, what the disk restores, and
    Election Safety. */
module RaftEveryRun {
  import opened RaftState
  import opened RaftCluster
  import opened RaftHistory
  import opened RaftEvolve

  // ---------------------------------------------------------------- requests and the window

  /** Indices follow each other, and start right after the previous entry or, beyond a gap, at the sender's snapshot. */
  ghost predicate SliceOk(a: AppendArgs) {
    && (forall k | 0 <= k < |a.entries| :: a.entries[k].index == a.entries[0].index + k)
    && (|a.entries| > 0 ==>
          || a.entries[0].index == a.prevLogIndex + 1
          || (a.prevLogIndex + 1 < a.entries[0].index && a.entries[0].index == a.snapshot.index))
  }

  lemma BuiltSlice(p: Peer, call: nat, to: nat)
    requires p.Window() && StillSends(p, call, to) && CanBuild(p, call, to)
    ensures SliceOk(BuildAppend(p, call, to))
  {
  }

  lemma {:induction false} DropThroughMeaning(entries: seq<LogEntry>, index: nat)
    requires forall k | 0 <= k < |entries| :: entries[k].index == entries[0].index + k
    ensures var r := DropThrough(entries, index);
            && (forall k | 0 <= k < |r| :: r[k].index == r[0].index + k)
            && (|r| > 0 ==> r[0].index == if entries[0].index > index then entries[0].index else index + 1)
  {
    if |entries| > 0 && entries[0].index <= index {
      var rest := entries[1..];
      forall k | 0 <= k < |rest| ensures rest[k].index == rest[0].index + k {
        assert rest[k] == entries[k + 1] && rest[0] == entries[1];
      }
      DropThroughMeaning(rest, index);
    }
  }

  /** The same shape, for a request already moved up to the receiver's snapshot. */
  lemma ClipKeepsSlice(p: Peer, a: AppendArgs)
    requires SliceOk(a)
    ensures SliceOk(Clip(p, a)) && p.snapshot.index <= Clip(p, a).prevLogIndex && Clip(p, a).snapshot == a.snapshot
  {
    DropThroughMeaning(a.entries, p.snapshot.index);
  }

  lemma {:induction false} PositionMeaning(log: seq<LogEntry>, index: nat)
    ensures var r := Position(log, index);
            && (forall k | 0 <= k < r :: log[k].index != index)
  {
    if |log| > 0 && log[0].index != index {
      PositionMeaning(log[1..], index);
      var r := Position(log[1..], index);
      forall k | 0 <= k < 1 + r ensures log[k].index != index {
        if k > 0 { assert log[k] == log[1..][k - 1]; }
      }
    }
  }

  lemma UnbrokenJoin(head: seq<LogEntry>, tail: seq<LogEntry>, first: nat)
    requires Unbroken(head, first) && Unbroken(tail, first + |head|)
    ensures Unbroken(head + tail, first)
  {
    forall i | 0 <= i < |head + tail| ensures (head + tail)[i].index == first + i {
      if i >= |head| { assert (head + tail)[i] == tail[i - |head|]; }
    }
  }

  lemma AdoptFromUnbroken(p: Peer, snapshot: Snapshot)
    requires Unbroken(p.log, p.snapshot.index)
    ensures AdoptSnapshot(p, snapshot).Window()
  {
    PositionMeaning(p.log, snapshot.index);
  }

  /** A log that breaks off and goes on at the snapshot index is cut down to the part from there. */
  lemma AdoptFromGap(p: Peer, snapshot: Snapshot, head: seq<LogEntry>, tail: seq<LogEntry>)
    requires p.log == head + tail && Unbroken(head, p.snapshot.index) && Unbroken(tail, snapshot.index)
    requires p.snapshot.index + |head| <= snapshot.index
    ensures AdoptSnapshot(p, snapshot).Window()
  {
    var start := Position(p.log, snapshot.index);
    PositionMeaning(p.log, snapshot.index);
    assert p.log[|head|] == tail[0];
    assert forall k | 0 <= k < |head| :: p.log[k] == head[k];
    assert start == |head|;
    assert p.log[start..] == tail;
  }

  /** Even when the spliced log has a gap, adopting the sender's snapshot leaves an unbroken window. */
  lemma AcceptKeepsWindow(p: Peer, a: AppendArgs)
    requires p.Window() && SliceOk(a) && p.snapshot.index <= a.prevLogIndex <= p.LastIndex()
    ensures Accept(p, a).Window()
  {
    var q := p.(role := Follower, log := Spliced(p, a), commitIndex := CommitAfter(p, a));
    var head := p.log[..a.prevLogIndex + 1 - p.snapshot.index];
    if AlreadyHas(p, a.prevLogIndex, a.entries) {
      AdoptFromUnbroken(q, a.snapshot);
    } else if a.entries[0].index == a.prevLogIndex + 1 {
      UnbrokenJoin(head, a.entries, p.snapshot.index);
      AdoptFromUnbroken(q, a.snapshot);
    } else {
      AdoptFromGap(q, a.snapshot, head, a.entries);
    }
  }

  lemma AppendEntriesKeepsWindow(p: Peer, a: AppendArgs)
    requires p.Window() && SliceOk(a)
    ensures AppendEntries(p, a).0.Window()
  {
    if p.currentTerm <= a.term {
      var q := if p.currentTerm < a.term then StepDown(p, a.term) else p;
      ClipKeepsSlice(q, a);
      if Consistent(q, Clip(q, a)) { AcceptKeepsWindow(q, Clip(q, a)); }
    }
  }

  // ---------------------------------------------------------------- the invariant of every run

  ghost predicate SoundPeer(size: nat, s: nat, p: Peer) {
    p.me == s && p.size == size && p.Window() && InSync(p)
  }

  ghost predicate Sound(c: Cluster) {
    && (forall s {:trigger SoundPeer(|c.peers|, s, c.peers[s])} | 0 <= s < |c.peers| ::
          SoundPeer(|c.peers|, s, c.peers[s]))
    && (forall m | m in c.net && m.AppendRequest? :: SliceOk(m.args))
  }

  lemma UpdateKeepsSound(c: Cluster, s: nat, p: Peer, sent: set<Message>)
    requires Sound(c) && s < |c.peers| && SoundPeer(|c.peers|, s, p)
    requires forall m | m in sent && m.AppendRequest? :: SliceOk(m.args)
    ensures Sound(Update(c, s, p, sent))
  {
    forall v | 0 <= v < |c.peers| && v != s ensures SoundPeer(|c.peers|, v, Update(c, s, p, sent).peers[v]) {
      assert SoundPeer(|c.peers|, v, c.peers[v]);
    }
  }

  /** Handlers that run entirely at one peer keep its log unbroken and its disk in step. */
  lemma HandlersKeepSound(size: nat, s: nat, p: Peer)
    requires SoundPeer(size, s, p)
    ensures SoundPeer(size, s, StartElection(p)) && SoundPeer(size, s, HeartBeat(p))
    ensures SoundPeer(size, s, Make(s, size, p.disk))
    ensures CanApply(p) ==> SoundPeer(size, s, Apply(p).0)
  {
  }

  lemma CrashKeepsSound(size: nat, s: nat, p: Peer, term: nat)
    requires SoundPeer(size, s, p)
    ensures SoundPeer(size, s, Make(s, size, StepDown(p, term).disk))
  {
  }

  lemma StartKeepsSound(size: nat, s: nat, p: Peer, command: Command)
    requires SoundPeer(size, s, p)
    ensures SoundPeer(size, s, StartCommand(p, command))
  {
  }

  lemma VotingKeepsSound(size: nat, s: nat, p: Peer, args: VoteArgs, from: nat, term: nat, reply: VoteReply)
    requires SoundPeer(size, s, p)
    ensures SoundPeer(size, s, RequestVote(p, args).0) && SoundPeer(size, s, CountVote(p, from, term, reply))
  {
  }

  lemma CountAppendKeepsSound(size: nat, s: nat, p: Peer, from: nat, call: nat, args: AppendArgs, reply: AppendReply)
    requires SoundPeer(size, s, p) && CanCountAppend(p, from, call, args, reply)
    ensures SoundPeer(size, s, CountAppend(p, from, call, args, reply))
  {
  }

  lemma AppendEntriesKeepsSound(size: nat, s: nat, p: Peer, args: AppendArgs)
    requires SoundPeer(size, s, p) && SliceOk(args)
    ensures SoundPeer(size, s, AppendEntries(p, args).0)
  {
    AppendEntriesKeepsWindow(p, args);
  }

  lemma CompactKeepsSound(size: nat, s: nat, p: Peer, index: nat, storage: Bytes)
    requires SoundPeer(size, s, p) && index < p.snapshot.index + |p.log|
    ensures SoundPeer(size, s, SaveSnapshot(p, index, storage))
  {
  }

  lemma StepKeepsSound(c: Cluster, step: Step)
    requires Sound(c) && Enabled(c, step)
    ensures Sound(After(c, step))
  {
    var s := SiteOf(step);
    var p := c.peers[s];
    assert SoundPeer(|c.peers|, s, p);
    match step
    case Elect(_) =>
      HandlersKeepSound(|c.peers|, s, p);
      UpdateKeepsSound(c, s, StartElection(p), Ballots(StartElection(p)));
    case ReceiveVoteRequest(m) =>
      VotingKeepsSound(|c.peers|, s, p, m.ballot, 0, 0, VoteReply(0, false));
      var (q, reply) := RequestVote(p, m.ballot);
      UpdateKeepsSound(c, s, q, {VoteAnswer(m.dst, m.src, m.ballot.term, reply)});
    case ReceiveVoteAnswer(m) =>
      VotingKeepsSound(|c.peers|, s, p, VoteArgs(0, 0, 0, 0), m.src, m.ballotTerm, m.vote);
      UpdateKeepsSound(c, s, CountVote(p, m.src, m.ballotTerm, m.vote), {});
    case ClientStart(_, command) =>
      StartKeepsSound(|c.peers|, s, p, command);
      UpdateKeepsSound(c, s, StartCommand(p, command), {});
    case Beat(_) =>
      HandlersKeepSound(|c.peers|, s, p);
      UpdateKeepsSound(c, s, HeartBeat(p), {});
    case Send(_, call, to) =>
      BuiltSlice(p, call, to);
      UpdateKeepsSound(c, s, p, {AppendRequest(s, to, call, BuildAppend(p, call, to))});
    case ReceiveAppendRequest(m) =>
      AppendEntriesKeepsSound(|c.peers|, s, p, m.args);
      var (q, reply) := AppendEntries(p, m.args);
      UpdateKeepsSound(c, s, q, {AppendAnswer(m.dst, m.src, m.call, m.args, reply)});
    case ReceiveAppendAnswer(m) =>
      CountAppendKeepsSound(|c.peers|, s, p, m.src, m.call, m.args, m.reply);
      UpdateKeepsSound(c, s, CountAppend(p, m.src, m.call, m.args, m.reply), {});
    case Deliver(_) =>
      HandlersKeepSound(|c.peers|, s, p);
      UpdateKeepsSound(c, s, Apply(p).0, {});
    case Compact(_, index, storage) =>
      CompactKeepsSound(|c.peers|, s, p, index, storage);
      UpdateKeepsSound(c, s, SaveSnapshot(p, index, storage), {});
    case Restart(_) =>
      HandlersKeepSound(|c.peers|, s, p);
      UpdateKeepsSound(c, s, Make(s, p.size, p.disk), {});
    case CrashInside(m) =>
      CrashKeepsSound(|c.peers|, s, p, TermOf(m));
      UpdateKeepsSound(c, s, Make(s, p.size, StepDown(p, TermOf(m)).disk), {});
  }

  lemma {:induction false} RunIsSound(run: seq<Cluster>, size: nat, i: nat)
    requires IsRun(run, size, true) && i < |run|
    ensures Sound(run[i]) && |run[i].peers| == size
  {
    if i == 0 {
      forall s | 0 <= s < size ensures SoundPeer(size, s, run[0].peers[s]) { }
    } else {
      RunIsSound(run, size, i - 1);
      assert NextAt(run, i - 1, true);
      var step :| Enabled(run[i - 1], step) && run[i] == After(run[i - 1], step);
      StepKeepsSound(run[i - 1], step);
    }
  }

  /** Log window: in every state of every run each log is the unbroken run of indices from its snapshot on. */
  lemma LogWindow(run: seq<Cluster>, size: nat, i: nat, s: nat)
    requires IsRun(run, size, true) && i < |run| && s < size
    ensures s < |run[i].peers| && run[i].peers[s].Window()
  {
    RunIsSound(run, size, i);
    assert SoundPeer(size, s, run[i].peers[s]);
  }

  /** A restart brings back exactly the term, the vote, the log and the snapshot that were in force. */
  lemma RestartRestores(run: seq<Cluster>, size: nat, i: nat, s: nat)
    requires IsRun(run, size, true) && i < |run| && s < |run[i].peers|
    ensures var p, p' := run[i].peers[s], After(run[i], Restart(s)).peers[s];
            && p'.currentTerm == p.currentTerm && p'.votedFor == p.votedFor
            && p'.log == p.log && p'.snapshot == p.snapshot
            && p'.commitIndex <= p.commitIndex && p'.role == Follower
  {
    RunIsSound(run, size, i);
    assert SoundPeer(size, s, run[i].peers[s]);
  }

  // ---------------------------------------------------------------- Election Safety

  /** Whom each peer has backed in each term. */
  type Votes = map<(nat, nat), nat>

  ghost predicate VoterOk(size: nat, votes: Votes, s: nat, p: Peer) {
    && (forall t | (s, t) in votes :: t <= p.currentTerm)
    && ((s, p.currentTerm) in votes ==> p.votedFor == votes[(s, p.currentTerm)])
    && (p.role == Candidate ==>
          && Backs(votes, s, p.currentTerm, s)
          && forall v | v in p.voters :: v < size && v != s && Backs(votes, v, p.currentTerm, s))
    && (p.role == Leader ==> Elected(size, votes, p.currentTerm, s))
  }

  ghost predicate Backs(votes: Votes, v: nat, term: nat, s: nat) {
    (v, term) in votes && votes[(v, term)] == s
  }

  ghost predicate AllBack(votes: Votes, q: set<nat>, term: nat, s: nat) {
    forall v | v in q :: Backs(votes, v, term, s)
  }

  ghost predicate Elected(size: nat, votes: Votes, term: nat, s: nat) {
    exists q :: Majority(size, q) && AllBack(votes, q, term, s)
  }

  ghost predicate PostOk(size: nat, votes: Votes, m: Message) {
    match m
    case VoteRequest(src, dst, ballot) => src != dst && ballot.candidateId == src
    case VoteAnswer(src, dst, term, vote) => vote.granted ==> src != dst && src < size && Backs(votes, src, term, dst)
    case _ => true
  }

  ghost predicate Polled(c: Cluster, votes: Votes) {
    && (forall s {:trigger VoterOk(|c.peers|, votes, s, c.peers[s])} | 0 <= s < |c.peers| ::
          VoterOk(|c.peers|, votes, s, c.peers[s]))
    && (forall m {:trigger PostOk(|c.peers|, votes, m)} | m in c.net :: PostOk(|c.peers|, votes, m))
  }

  ghost predicate VotesGrow(votes: Votes, votes': Votes) {
    forall k | k in votes :: k in votes' && votes'[k] == votes[k]
  }

  lemma ElectedStays(size: nat, votes: Votes, votes': Votes, term: nat, s: nat)
    requires VotesGrow(votes, votes') && Elected(size, votes, term, s)
    ensures Elected(size, votes', term, s)
  {
    var q :| Majority(size, q) && AllBack(votes, q, term, s);
    assert AllBack(votes', q, term, s) by {
      forall v | v in q ensures Backs(votes', v, term, s) { assert Backs(votes, v, term, s); }
    }
  }

  /** A step at s that records at most a vote of s itself keeps the poll in order. */
  lemma UpdateKeepsPolled(c: Cluster, votes: Votes, s: nat, p: Peer, sent: set<Message>, votes': Votes)
    requires Polled(c, votes) && s < |c.peers| && VotesGrow(votes, votes')
    requires forall v, t | (v, t) in votes' && v != s :: (v, t) in votes
    requires VoterOk(|c.peers|, votes', s, p)
    requires forall m | m in sent :: PostOk(|c.peers|, votes', m)
    ensures Polled(Update(c, s, p, sent), votes')
  {
    var c' := Update(c, s, p, sent);
    forall v | 0 <= v < |c.peers| && v != s ensures VoterOk(|c.peers|, votes', v, c'.peers[v]) {
      var q := c.peers[v];
      assert VoterOk(|c.peers|, votes, v, q);
      if q.role == Leader { ElectedStays(|c.peers|, votes, votes', q.currentTerm, v); }
      if q.role == Candidate {
        forall w | w in q.voters
          ensures Backs(votes', w, q.currentTerm, v)
        {
          assert Backs(votes, w, q.currentTerm, v);
        }
      }
    }
    forall m | m in c.net ensures PostOk(|c.peers|, votes', m) { assert PostOk(|c.peers|, votes, m); }
  }

  /** A handler that neither votes nor takes office. */
  lemma QuietKeepsPolled(c: Cluster, votes: Votes, s: nat, p: Peer, sent: set<Message>)
    requires Polled(c, votes) && s < |c.peers|
    requires var q := c.peers[s];
             || (p.currentTerm == q.currentTerm && p.votedFor == q.votedFor
                 && (p.role == Follower || (p.role == q.role && p.voters == q.voters)))
             || (p.currentTerm > q.currentTerm && p.role == Follower)
    requires forall m | m in sent :: PostOk(|c.peers|, votes, m)
    ensures Polled(Update(c, s, p, sent), votes)
  {
    assert VoterOk(|c.peers|, votes, s, c.peers[s]);
    UpdateKeepsPolled(c, votes, s, p, sent, votes);
  }

  lemma VoteRequestKeepsPolled(c: Cluster, votes: Votes, m: Message) returns (votes': Votes)
    requires Polled(c, votes) && m in c.net && m.VoteRequest? && m.dst < |c.peers|
    ensures VotesGrow(votes, votes') && Polled(After(c, ReceiveVoteRequest(m)), votes')
  {
    var s := m.dst;
    var (p, reply) := RequestVote(c.peers[s], m.ballot);
    assert PostOk(|c.peers|, votes, m) && VoterOk(|c.peers|, votes, s, c.peers[s]);
    votes' := if reply.granted then votes[(s, m.ballot.term) := m.src] else votes;
    UpdateKeepsPolled(c, votes, s, p, {VoteAnswer(s, m.src, m.ballot.term, reply)}, votes');
  }

  lemma VoteAnswerKeepsPolled(c: Cluster, votes: Votes, m: Message)
    requires Polled(c, votes) && Sound(c) && m in c.net && m.VoteAnswer? && m.dst < |c.peers|
    ensures Polled(After(c, ReceiveVoteAnswer(m)), votes)
  {
    var s := m.dst;
    var p, p' := c.peers[s], CountVote(c.peers[s], m.src, m.ballotTerm, m.vote);
    assert PostOk(|c.peers|, votes, m) && VoterOk(|c.peers|, votes, s, p) && SoundPeer(|c.peers|, s, p);
    if p'.role == Leader && p.role != Leader {
      var q := p.voters + {m.src} + {s};
      assert |q| == |p.voters + {m.src}| + 1;
      assert Majority(|c.peers|, q) && AllBack(votes, q, p.currentTerm, s);
    }
    UpdateKeepsPolled(c, votes, s, p', {}, votes);
  }

  lemma ElectKeepsPolled(c: Cluster, votes: Votes, s: nat) returns (votes': Votes)
    requires Polled(c, votes) && s < |c.peers| && c.peers[s].me == s
    ensures VotesGrow(votes, votes') && Polled(After(c, Elect(s)), votes')
  {
    assert VoterOk(|c.peers|, votes, s, c.peers[s]);
    var q := StartElection(c.peers[s]);
    votes' := votes[(s, q.currentTerm) := s];
    UpdateKeepsPolled(c, votes, s, q, Ballots(q), votes');
  }

  lemma DeliverKeepsPolled(c: Cluster, votes: Votes, s: nat)
    requires Polled(c, votes) && Enabled(c, Deliver(s))
    ensures Polled(After(c, Deliver(s)), votes)
  {
    var d := Update(c, s, Apply(c.peers[s]).0, {});
    QuietKeepsPolled(c, votes, s, Apply(c.peers[s]).0, {});
    forall v | 0 <= v < |c.peers| ensures VoterOk(|c.peers|, votes, v, After(c, Deliver(s)).peers[v]) {
      assert VoterOk(|c.peers|, votes, v, d.peers[v]);
    }
    forall m | m in c.net ensures PostOk(|c.peers|, votes, m) { assert m in d.net; }
  }

  lemma AppendRequestKeepsPolled(c: Cluster, votes: Votes, m: Message)
    requires Polled(c, votes) && Enabled(c, ReceiveAppendRequest(m))
    ensures Polled(After(c, ReceiveAppendRequest(m)), votes)
  {
    var (q, reply) := AppendEntries(c.peers[m.dst], m.args);
    AppendKeepsVote(c.peers[m.dst], m.args);
    QuietKeepsPolled(c, votes, m.dst, q, {AppendAnswer(m.dst, m.src, m.call, m.args, reply)});
  }

  /** A request moves a follower on to its term or leaves term and vote alone. */
  lemma AppendKeepsVote(p: Peer, args: AppendArgs)
    requires p.Window()
    ensures var q := AppendEntries(p, args).0;
            || (q.currentTerm == p.currentTerm && q.votedFor == p.votedFor
                && (q.role == Follower || (q.role == p.role && q.voters == p.voters)))
            || (q.currentTerm > p.currentTerm && q.role == Follower)
  {
  }

  lemma AppendAnswerKeepsPolled(c: Cluster, votes: Votes, m: Message)
    requires Polled(c, votes) && Enabled(c, ReceiveAppendAnswer(m))
    ensures Polled(After(c, ReceiveAppendAnswer(m)), votes)
  {
    QuietKeepsPolled(c, votes, m.dst, CountAppend(c.peers[m.dst], m.src, m.call, m.args, m.reply), {});
  }

  lemma StepKeepsPolled(c: Cluster, votes: Votes, step: Step) returns (votes': Votes)
    requires Polled(c, votes) && Sound(c) && Enabled(c, step)
    ensures VotesGrow(votes, votes') && Polled(After(c, step), votes')
  {
    var s := SiteOf(step);
    var p := c.peers[s];
    assert SoundPeer(|c.peers|, s, p);
    votes' := votes;
    match step
    case Elect(_) => votes' := ElectKeepsPolled(c, votes, s);
    case ReceiveVoteRequest(m) => votes' := VoteRequestKeepsPolled(c, votes, m);
    case ReceiveVoteAnswer(m) => VoteAnswerKeepsPolled(c, votes, m);
    case ClientStart(_, command) => QuietKeepsPolled(c, votes, s, StartCommand(p, command), {});
    case Beat(_) => QuietKeepsPolled(c, votes, s, HeartBeat(p), {});
    case Send(_, call, to) => QuietKeepsPolled(c, votes, s, p, {AppendRequest(s, to, call, BuildAppend(p, call, to))});
    case ReceiveAppendRequest(m) => AppendRequestKeepsPolled(c, votes, m);
    case ReceiveAppendAnswer(m) => AppendAnswerKeepsPolled(c, votes, m);
    case Deliver(_) => DeliverKeepsPolled(c, votes, s);
    case Compact(_, index, storage) => QuietKeepsPolled(c, votes, s, SaveSnapshot(p, index, storage), {});
    case Restart(_) => QuietKeepsPolled(c, votes, s, Make(s, p.size, p.disk), {});
    case CrashInside(m) => QuietKeepsPolled(c, votes, s, Make(s, p.size, StepDown(p, TermOf(m)).disk), {});
  }

  lemma NextKeepsPolled(c: Cluster, c': Cluster, votes: Votes) returns (votes': Votes)
    requires Next(c, c', true) && Sound(c) && Polled(c, votes)
    ensures VotesGrow(votes, votes') && Polled(c', votes')
  {
    var step :| Enabled(c, step) && c' == After(c, step);
    votes' := StepKeepsPolled(c, votes, step);
  }

  lemma {:induction false} RunIsPolled(run: seq<Cluster>, size: nat, i: nat) returns (polls: seq<Votes>)
    requires IsRun(run, size, true) && i < |run|
    ensures |polls| == i + 1
    ensures forall k | 0 <= k <= i :: Polled(run[k], polls[k])
    ensures forall k | 0 <= k <= i :: VotesGrow(polls[k], polls[i])
  {
    if i == 0 {
      var votes: Votes := map[];
      forall s | 0 <= s < size ensures VoterOk(size, votes, s, run[0].peers[s]) { }
      polls := [votes];
    } else {
      var before := RunIsPolled(run, size, i - 1);
      RunIsSound(run, size, i - 1);
      assert NextAt(run, i - 1, true);
      var votes := NextKeepsPolled(run[i - 1], run[i], before[i - 1]);
      polls := before + [votes];
    }
  }

  /** Election Safety: two leaders of one term, at whatever moments of a run, are the same peer. */
  lemma ElectionSafety(run: seq<Cluster>, size: nat, i: nat, j: nat, a: nat, b: nat)
    requires IsRun(run, size, true) && i < |run| && j < |run|
    requires a < |run[i].peers| && b < |run[j].peers|
    requires run[i].peers[a].role == Leader && run[j].peers[b].role == Leader
    requires run[i].peers[a].currentTerm == run[j].peers[b].currentTerm
    ensures a == b
  {
    var m := if i <= j then j else i;
    var polls := RunIsPolled(run, size, m);
    var term := run[i].peers[a].currentTerm;
    LeaderIsElected(run, size, polls, m, i, a);
    LeaderIsElected(run, size, polls, m, j, b);
    OneElected(size, polls[m], term, a, b);
  }

  lemma LeaderIsElected(run: seq<Cluster>, size: nat, polls: seq<Votes>, m: nat, i: nat, a: nat)
    requires IsRun(run, size, true) && i <= m < |run| && |polls| == m + 1
    requires Polled(run[i], polls[i]) && VotesGrow(polls[i], polls[m])
    requires a < |run[i].peers| && run[i].peers[a].role == Leader
    ensures Elected(size, polls[m], run[i].peers[a].currentTerm, a)
  {
    RunIsSound(run, size, i);
    assert VoterOk(size, polls[i], a, run[i].peers[a]);
    ElectedStays(size, polls[i], polls[m], run[i].peers[a].currentTerm, a);
  }

  lemma OneElected(size: nat, votes: Votes, term: nat, a: nat, b: nat)
    requires Elected(size, votes, term, a) && Elected(size, votes, term, b)
    ensures a == b
  {
    var q :| Majority(size, q) && AllBack(votes, q, term, a);
    var r :| Majority(size, r) && AllBack(votes, r, term, b);
    var v := Overlap(size, q, r);
    assert Backs(votes, v, term, a) && Backs(votes, v, term, b);
  }

  /** The peer has moved to a later term, or kept its term and any vote it had given in it. */
  ghost predicate TermOrVoteKept(p: Peer, p': Peer) {
    && p.currentTerm <= p'.currentTerm
    && (p.currentTerm == p'.currentTerm && p.votedFor != NO_VOTE ==> p'.votedFor == p.votedFor)
  }

  lemma KeptOn(p: Peer, q: Peer, r: Peer)
    requires TermOrVoteKept(p, q) && TermOrVoteKept(q, r)
    ensures TermOrVoteKept(p, r)
  {
  }

  lemma VoteKeptAt(run: seq<Cluster>, size: nat, i: nat, s: nat)
    requires IsRun(run, size, true) && i + 1 < |run| && s < |run[i].peers|
    ensures s < |run[i + 1].peers| && TermOrVoteKept(run[i].peers[s], run[i + 1].peers[s])
  {
    RunIsSound(run, size, i);
    assert NextAt(run, i, true);
    NextKeepsVote(run[i], run[i + 1], s);
  }

  /** Terms never fall, and a peer that has voted keeps its vote as long as it stays in the term. */
  lemma {:induction false} TermAndVoteKept(run: seq<Cluster>, size: nat, i: nat, j: nat, s: nat)
    requires IsRun(run, size, true) && i <= j < |run| && s < |run[i].peers|
    ensures s < |run[j].peers| && TermOrVoteKept(run[i].peers[s], run[j].peers[s])
    decreases j
  {
    if i < j {
      TermAndVoteKept(run, size, i, j - 1, s);
      VoteKeptAt(run, size, j - 1, s);
      KeptOn(run[i].peers[s], run[j - 1].peers[s], run[j].peers[s]);
    }
  }

  lemma NextKeepsVote(c: Cluster, c': Cluster, s: nat)
    requires Next(c, c', true) && Sound(c) && s < |c.peers|
    ensures s < |c'.peers| && TermOrVoteKept(c.peers[s], c'.peers[s])
  {
    var step :| Enabled(c, step) && c' == After(c, step);
    if step.ReceiveAppendRequest? {
      AppendKeepsVote(c.peers[step.m.dst], step.m.args);
    } else {
      OneStepKeepsVote(c, step, s);
    }
  }

  lemma OneStepKeepsVote(c: Cluster, step: Step, s: nat)
    requires Enabled(c, step) && Sound(c) && s < |c.peers| && !step.ReceiveAppendRequest?
    ensures s < |After(c, step).peers| && TermOrVoteKept(c.peers[s], After(c, step).peers[s])
  {
    assert SoundPeer(|c.peers|, s, c.peers[s]);
  }
}
