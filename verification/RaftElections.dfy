/** Elections succeed: who gets a vote, and how a server whose log has those of a majority takes office. */
module RaftElections {
  import opened RaftState
  import opened RaftCluster
  import opened RaftHistory
  import opened RaftEvolve
  import opened RaftSafety
  import opened RaftTheorems

  // ---------------------------------------------------------------- runs that go on

  ghost function Last(run: seq<Cluster>): Cluster
    requires |run| > 0
  {
    run[|run| - 1]
  }

  /** A longer run of the same servers. */
  ghost predicate GoesOn(run: seq<Cluster>, run': seq<Cluster>, size: nat) {
    IsRun(run', size, false) && run <= run'
  }

  lemma OneMore(run: seq<Cluster>, size: nat, step: Step) returns (run': seq<Cluster>)
    requires IsRun(run, size, false) && Enabled(Last(run), step) && !step.Compact?
    ensures GoesOn(run, run', size) && Last(run') == After(Last(run), step)
  {
    run' := run + [After(Last(run), step)];
    forall i: nat | i + 1 < |run'| ensures NextAt(run', i, false) {
      if i + 1 < |run| { assert NextAt(run, i, false); }
    }
  }

  lemma FurtherOn(a: seq<Cluster>, b: seq<Cluster>, c: seq<Cluster>, size: nat)
    requires GoesOn(a, b, size) && GoesOn(b, c, size)
    ensures GoesOn(a, c, size)
  {
  }

  /** The parts of the invariant that do not need the history. */
  lemma PlainFacts(run: seq<Cluster>, size: nat, s: nat)
    requires IsRun(run, size, false) && s < |Last(run).peers|
    ensures |Last(run).peers| == size
    ensures var p := Last(run).peers[s];
            && p.me == s && p.size == size && p.snapshot == Snapshot(0, 0, []) && Shaped(p.log)
            && p.lastApplied <= p.commitIndex < |p.log|
  {
    var hs := HistoryOf(run, size);
    var c, h := Last(run), hs[|run| - 1];
    assert Inv(c, h) && PeerOk(|c.peers|, h, s, c.peers[s]);
    SameSize(run, size, |run| - 1);
  }

  // ---------------------------------------------------------------- who gets a vote

  /** The ballot of a candidate that stands with this log. */
  ghost predicate BallotFor(args: VoteArgs, log: seq<LogEntry>) {
    |log| > 0 && args.lastLogIndex == |log| - 1 && args.lastLogTerm == log[|log| - 1].term
  }

  /** The first log ends in an earlier term than the second, or in the same term and no later in it: the order of
      section 5.4.1 of the extended Raft paper. */
  ghost predicate NoNewer(a: seq<LogEntry>, b: seq<LogEntry>) {
    && |a| > 0 && |b| > 0
    && var s, t := a[|a| - 1].term, b[|b| - 1].term;
       s < t || (s == t && |a| <= |b|)
  }

  lemma PrefixIsNoNewer(a: seq<LogEntry>, b: seq<LogEntry>)
    requires Shaped(a) && Shaped(b) && a <= b
    ensures NoNewer(a, b)
  {
    var n := |a| - 1;
    assert a[n] == b[n];
    assert n < |b| - 1 ==> Ordered(b, n, |b| - 1);
  }

  lemma NoNewerTotal(a: seq<LogEntry>, b: seq<LogEntry>)
    requires |a| > 0 && |b| > 0
    ensures NoNewer(a, b) || NoNewer(b, a)
  {
  }

  /** The peer still has a vote for this candidate in this term. */
  ghost predicate HasVoteFor(p: Peer, term: nat, candidate: nat) {
    p.currentTerm < term || (p.currentTerm == term && (p.votedFor == NO_VOTE || p.votedFor == candidate))
  }

  /** A peer backs exactly the candidates for whom it has a vote and whose log its own is no newer than. */
  lemma VotesExactly(p: Peer, args: VoteArgs, log: seq<LogEntry>)
    requires Shaped(p.log) && Shaped(log) && BallotFor(args, log)
    ensures var (q, reply) := RequestVote(p, args);
            && (reply.granted <==> HasVoteFor(p, args.term, args.candidateId) && NoNewer(p.log, log))
            && (reply.granted ==> reply.term == q.currentTerm == args.term && q.role == Follower)
            && q.votedFor == (if reply.granted then args.candidateId
                              else if p.currentTerm < args.term then NO_VOTE else p.votedFor)
            && q.log == p.log
  {
    assert Placed(p.log, |p.log| - 1);
  }

  /** In every run, a peer that receives a ballot grants it exactly when it has a vote for the candidate and its own log
      is no newer than the log with which the candidate stood, and so, in an earlier term, whenever its own is a prefix
      of that one: i is a moment at which the candidate stands, j that of the receipt. */
  lemma VoteGranted(run: seq<Cluster>, size: nat, i: nat, j: nat, m: Message)
    requires IsRun(run, size, false) && i < |run| && j < |run|
    requires m in run[j].net && m.VoteRequest? && m.dst < |run[j].peers| && m.src < |run[i].peers|
    requires run[i].peers[m.src].role == Candidate && run[i].peers[m.src].currentTerm == m.ballot.term
    ensures var p, log := run[j].peers[m.dst], run[i].peers[m.src].log;
            var (q, reply) := RequestVote(p, m.ballot);
            && (reply.granted <==> HasVoteFor(p, m.ballot.term, m.src) && NoNewer(p.log, log))
            && (reply.granted ==> reply.term == q.currentTerm == m.ballot.term && q.votedFor == m.src)
            && (p.currentTerm < m.ballot.term && p.log <= log ==> reply.granted)
  {
    var hs := HistoryOf(run, size);
    var own, log := run[j].peers[m.dst].log, run[i].peers[m.src].log;
    StoodWith(run[i], hs[i], m.src);
    AskedWith(run[j], hs[j], m);
    assert if i <= j then Grows(hs[i], hs[j]) else Grows(hs[j], hs[i]);
    VotesExactly(run[j].peers[m.dst], m.ballot, log);
    if own <= log { PrefixIsNoNewer(own, log); }
  }

  lemma StoodWith(c: Cluster, h: History, s: nat)
    requires Inv(c, h) && s < |c.peers| && c.peers[s].role == Candidate
    ensures Shaped(c.peers[s].log) && (s, c.peers[s].currentTerm) in h.ballots
    ensures h.ballots[(s, c.peers[s].currentTerm)] == c.peers[s].log
  {
    assert PeerOk(|c.peers|, h, s, c.peers[s]);
  }

  lemma AskedWith(c: Cluster, h: History, m: Message)
    requires Inv(c, h) && m in c.net && m.VoteRequest? && m.dst < |c.peers|
    ensures Shaped(c.peers[m.dst].log) && m.ballot.candidateId == m.src
    ensures (m.src, m.ballot.term) in h.ballots && BallotFor(m.ballot, h.ballots[(m.src, m.ballot.term)])
  {
    assert MessageOk(c, h, m) && PeerOk(|c.peers|, h, m.dst, c.peers[m.dst]);
  }

  // ---------------------------------------------------------------- a campaign

  ghost predicate Distinct(list: seq<nat>) {
    forall i, j | 0 <= i < j < |list| :: list[i] != list[j]
  }

  /** Other servers than s, each once. */
  ghost predicate OthersOf(c: Cluster, s: nat, others: seq<nat>) {
    s < |c.peers| && Distinct(others) && forall i | 0 <= i < |others| :: others[i] < |c.peers| && others[i] != s
  }

  /** Server s stands in `term` with `log`; the first n of the others have voted, and the rest can still be asked. */
  ghost predicate Campaigns(c: Cluster, s: nat, term: nat, log: seq<LogEntry>, others: seq<nat>, n: nat) {
    && OthersOf(c, s, others) && Shaped(log) && n <= |others| && Stood(c.peers[s], s, |c.peers|, term, log, n)
    && VotersAmong(c.peers[s], others, n) && VotedIn(c, term, others, n) && RestAskable(c, s, term, log, others, n)
  }

  ghost predicate RestAskable(c: Cluster, s: nat, term: nat, log: seq<LogEntry>, others: seq<nat>, n: nat) {
    forall i | n <= i < |others| :: Askable(c, s, term, log, others[i])
  }

  ghost predicate VotersAmong(p: Peer, others: seq<nat>, n: nat)
    requires n <= |others|
  {
    forall v | v in p.voters :: v in others[..n]
  }

  ghost predicate VotedIn(c: Cluster, term: nat, others: seq<nat>, n: nat)
    requires n <= |others|
  {
    forall i | 0 <= i < n :: others[i] < |c.peers| && c.peers[others[i]].currentTerm == term
  }

  /** A candidate with n votes besides its own, or the leader that it has become by them. */
  ghost predicate Stood(p: Peer, s: nat, size: nat, term: nat, log: seq<LogEntry>, n: nat) {
    && p.me == s && p.size == size && p.snapshot == Snapshot(0, 0, [])
    && p.currentTerm == term && p.log == log && |p.voters| == n
    && p.role == (if n > 0 && 1 + n >= size / 2 + 1 then Leader else Candidate)
    && (p.role == Leader ==> InOfficeFrom(p))
  }

  /** What a leader has when it takes office. */
  ghost predicate InOfficeFrom(p: Peer) {
    && p.calls == [] && |p.nextIndex| == |p.matchIndex| == p.size
    && forall i | 0 <= i < p.size :: p.nextIndex[i] == |p.log| && p.matchIndex[i] == 0
  }

  ghost predicate Askable(c: Cluster, s: nat, term: nat, log: seq<LogEntry>, v: nat) {
    && v < |c.peers| && c.peers[v].currentTerm < term && Shaped(c.peers[v].log) && NoNewer(c.peers[v].log, log)
    && VoteRequest(s, v, VoteArgs(term, s, |log| - 1, log[|log| - 1].term)) in c.net
  }

  /** The other servers' logs are no newer than that of s, and their terms no later. */
  ghost predicate Behind(c: Cluster, s: nat, others: seq<nat>)
    requires OthersOf(c, s, others)
  {
    forall i | 0 <= i < |others| ::
      NoNewer(c.peers[others[i]].log, c.peers[s].log) && c.peers[others[i]].currentTerm <= c.peers[s].currentTerm
  }

  lemma Stands(run: seq<Cluster>, size: nat, s: nat, others: seq<nat>) returns (run': seq<Cluster>)
    requires IsRun(run, size, false) && OthersOf(Last(run), s, others) && Behind(Last(run), s, others)
    ensures GoesOn(run, run', size) && |Last(run').peers| == |Last(run).peers|
    ensures Campaigns(Last(run'), s, Last(run).peers[s].currentTerm + 1, Last(run).peers[s].log, others, 0)
    ensures forall v | 0 <= v < |Last(run).peers| && v != s :: Last(run').peers[v] == Last(run).peers[v]
  {
    var p := Last(run).peers[s];
    PlainFacts(run, size, s);
    assert Placed(p.log, |p.log| - 1);
    run' := OneMore(run, size, Elect(s));
    forall i | 0 <= i < |others| ensures Askable(Last(run'), s, p.currentTerm + 1, p.log, others[i]) {
      PlainFacts(run, size, others[i]);
      assert VoteRequest(s, others[i], BallotOf(StartElection(p))) in Ballots(StartElection(p));
    }
  }

  lemma Asks(run: seq<Cluster>, size: nat, s: nat, term: nat, log: seq<LogEntry>, v: nat) returns (run': seq<Cluster>)
    requires IsRun(run, size, false) && Shaped(log) && Askable(Last(run), s, term, log, v)
    ensures GoesOn(run, run', size) && |Last(run').peers| == |Last(run).peers|
    ensures VoteAnswer(v, s, term, VoteReply(term, true)) in Last(run').net
    ensures Last(run').peers[v].currentTerm == term && Last(run').peers[v].log == Last(run).peers[v].log
    ensures forall w | 0 <= w < |Last(run).peers| && w != v :: Last(run').peers[w] == Last(run).peers[w]
    ensures Last(run).net <= Last(run').net
  {
    var m := VoteRequest(s, v, VoteArgs(term, s, |log| - 1, log[|log| - 1].term));
    VotesExactly(Last(run).peers[v], m.ballot, log);
    run' := OneMore(run, size, ReceiveVoteRequest(m));
  }

  lemma Counts(run: seq<Cluster>, size: nat, s: nat, v: nat, term: nat) returns (run': seq<Cluster>)
    requires IsRun(run, size, false) && s < |Last(run).peers| && v < |Last(run).peers| && v != s
    requires VoteAnswer(v, s, term, VoteReply(term, true)) in Last(run).net
    ensures GoesOn(run, run', size) && |Last(run').peers| == |Last(run).peers|
    ensures Last(run').peers[s] == CountVote(Last(run).peers[s], v, term, VoteReply(term, true))
    ensures forall w | 0 <= w < |Last(run).peers| && w != s :: Last(run').peers[w] == Last(run).peers[w]
    ensures Last(run).net <= Last(run').net
  {
    run' := OneMore(run, size, ReceiveVoteAnswer(VoteAnswer(v, s, term, VoteReply(term, true))));
  }

  lemma OneMoreVoter(p: Peer, s: nat, size: nat, term: nat, log: seq<LogEntry>, n: nat, v: nat)
    requires Stood(p, s, size, term, log, n) && v !in p.voters
    ensures var q := CountVote(p, v, term, VoteReply(term, true));
            Stood(q, s, size, term, log, n + 1) && q.voters == p.voters + {v}
  {
    assert |p.voters + {v}| == |p.voters| + 1;
  }

  lemma AsksNext(run: seq<Cluster>, size: nat, s: nat, term: nat, log: seq<LogEntry>, others: seq<nat>, n: nat)
    returns (run': seq<Cluster>)
    requires IsRun(run, size, false) && Campaigns(Last(run), s, term, log, others, n) && n < |others|
    ensures GoesOn(run, run', size) && Campaigns(Last(run'), s, term, log, others, n + 1)
    ensures |Last(run').peers| == |Last(run).peers|
    ensures forall v | 0 <= v < |Last(run).peers| && v != s :: Last(run').peers[v].log == Last(run).peers[v].log
  {
    var v := others[n];
    assert Askable(Last(run), s, term, log, v);
    assert v !in others[..n];
    var asked := Asks(run, size, s, term, log, v);
    run' := Counts(asked, size, s, v, term);
    OneMoreVoter(Last(run).peers[s], s, |Last(run).peers|, term, log, n, v);
    CampaignGoesOn(Last(run), Last(run'), s, term, log, others, n);
    FurtherOn(run, asked, run', size);
  }

  /** The next of the others has voted, and nobody else has moved. */
  lemma CampaignGoesOn(c: Cluster, c': Cluster, s: nat, term: nat, log: seq<LogEntry>, others: seq<nat>, n: nat)
    requires Campaigns(c, s, term, log, others, n) && n < |others| && c.net <= c'.net
    requires OnlyTwoMoved(c, c', s, others[n])
    requires Stood(c'.peers[s], s, |c.peers|, term, log, n + 1)
    requires c'.peers[s].voters == c.peers[s].voters + {others[n]} && c'.peers[others[n]].currentTerm == term
    ensures Campaigns(c', s, term, log, others, n + 1)
  {
    OneMoreAmong(c.peers[s], c'.peers[s], others, n);
    OneMoreVoted(c, c', s, term, others, n);
    RestStaysAskable(c, c', s, term, log, others, n);
  }

  /** Nobody but s and v has moved on the way from c to d. */
  ghost predicate OnlyTwoMoved(c: Cluster, d: Cluster, s: nat, v: nat) {
    |d.peers| == |c.peers| && forall w | 0 <= w < |c.peers| && w != s && w != v :: d.peers[w] == c.peers[w]
  }

  lemma OneMoreVoted(c: Cluster, c': Cluster, s: nat, term: nat, others: seq<nat>, n: nat)
    requires OthersOf(c, s, others) && n < |others| && OnlyTwoMoved(c, c', s, others[n]) && VotedIn(c, term, others, n)
    requires c'.peers[others[n]].currentTerm == term
    ensures VotedIn(c', term, others, n + 1)
  {
  }

  lemma RestStaysAskable(c: Cluster, c': Cluster, s: nat, term: nat, log: seq<LogEntry>, others: seq<nat>, n: nat)
    requires OthersOf(c, s, others) && n < |others| && OnlyTwoMoved(c, c', s, others[n]) && c.net <= c'.net
    requires RestAskable(c, s, term, log, others, n)
    ensures RestAskable(c', s, term, log, others, n + 1)
  {
    forall i | n + 1 <= i < |others| ensures Askable(c', s, term, log, others[i]) {
      assert Askable(c, s, term, log, others[i]);
      StillAskable(c, c', s, term, log, others[i]);
    }
  }

  lemma OneMoreAmong(p: Peer, p': Peer, others: seq<nat>, n: nat)
    requires n < |others| && VotersAmong(p, others, n) && p'.voters == p.voters + {others[n]}
    ensures VotersAmong(p', others, n + 1)
  {
    assert others[..n + 1] == others[..n] + [others[n]];
  }

  lemma StillAskable(c: Cluster, c': Cluster, s: nat, term: nat, log: seq<LogEntry>, v: nat)
    requires Askable(c, s, term, log, v) && v < |c'.peers| && c'.peers[v] == c.peers[v] && c.net <= c'.net
    ensures Askable(c', s, term, log, v)
  {
  }

  lemma {:induction false} GathersVotes(run: seq<Cluster>, size: nat, s: nat, term: nat, log: seq<LogEntry>,
                                        others: seq<nat>, n: nat)
    returns (run': seq<Cluster>)
    requires IsRun(run, size, false) && Campaigns(Last(run), s, term, log, others, n)
    ensures GoesOn(run, run', size) && Campaigns(Last(run'), s, term, log, others, |others|)
    ensures |Last(run').peers| == |Last(run).peers|
    ensures forall v | 0 <= v < |Last(run).peers| && v != s :: Last(run').peers[v].log == Last(run).peers[v].log
    decreases |others| - n
  {
    if n == |others| {
      run' := run;
    } else {
      var next := AsksNext(run, size, s, term, log, others, n);
      run' := GathersVotes(next, size, s, term, log, others, n + 1);
      FurtherOn(run, next, run', size);
    }
  }

  /** The server and the others make a majority; a server alone has nobody to hear from. */
  ghost predicate IsMajority(size: nat, others: seq<nat>) {
    others != [] && 1 + |others| >= size / 2 + 1
  }

  /** From every state of a run, a server whose log is at least as new as those of others, and whose term is at least
      theirs, can stand and take office with their votes, if they make a majority with it; logs stay as they are. */
  lemma ElectionSucceeds(run: seq<Cluster>, size: nat, s: nat, others: seq<nat>) returns (run': seq<Cluster>)
    requires IsRun(run, size, false) && OthersOf(Last(run), s, others) && Behind(Last(run), s, others)
    requires IsMajority(size, others)
    ensures GoesOn(run, run', size) && |Last(run').peers| == |Last(run).peers|
    ensures var p, p' := Last(run).peers[s], Last(run').peers[s];
            p'.role == Leader && p'.currentTerm == p.currentTerm + 1 && p'.log == p.log && InOfficeFrom(p')
    ensures forall i | 0 <= i < |others| :: Last(run').peers[others[i]].currentTerm == Last(run').peers[s].currentTerm
    ensures forall v | 0 <= v < |Last(run).peers| :: Last(run').peers[v].log == Last(run).peers[v].log
  {
    PlainFacts(run, size, s);
    var p := Last(run).peers[s];
    var stood := Stands(run, size, s, others);
    run' := GathersVotes(stood, size, s, p.currentTerm + 1, p.log, others, 0);
    FurtherOn(run, stood, run', size);
  }

  // ---------------------------------------------------------------- a server alone

  ghost predicate Alone(c: Cluster) {
    && |c.peers| == 1 && c.peers[0].role != Leader && c.peers[0].commitIndex == 0
    && c.net == {} && c.delivered == {}
  }

  /** Only answers of other servers win an election and commit: a server alone never leads, and delivers nothing. */
  lemma {:induction false} AloneNeverLeads(run: seq<Cluster>, i: nat)
    requires IsRun(run, 1, false) && i < |run|
    ensures Alone(run[i])
  {
    if i > 0 {
      AloneNeverLeads(run, i - 1);
      AloneFacts(run, i - 1);
      assert NextAt(run, i - 1, false);
      AloneStep(run[i - 1], run[i]);
    }
  }

  lemma AloneFacts(run: seq<Cluster>, i: nat)
    requires IsRun(run, 1, false) && i < |run| && |run[i].peers| == 1
    ensures var p := run[i].peers[0];
            && p.me == 0 && p.size == 1 && p.snapshot.index == 0 && p.lastApplied <= p.commitIndex && InSync(p)
  {
    var hs := HistoryOf(run, 1);
    assert Inv(run[i], hs[i]) && PeerOk(1, hs[i], 0, run[i].peers[0]);
  }

  lemma AloneStep(c: Cluster, c': Cluster)
    requires Next(c, c', false) && Alone(c)
    requires var p := c.peers[0]; p.me == 0 && p.size == 1 && p.snapshot.index == 0 && p.lastApplied == 0 && InSync(p)
    ensures Alone(c')
  {
    var step :| Enabled(c, step) && !step.Compact? && c' == After(c, step);
    if step.Elect? {
      assert Ballots(StartElection(c.peers[0])) == {};
    }
  }
}
