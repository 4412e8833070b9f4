/** What a run of the cluster has done so far, and the invariant that ties it to the cluster.

    The history is not part of the cluster: it is built alongside a run, only to reason about it.
    For every term that had a leader it keeps the log of that leader (its reign), which only grows
    while the leader is in office and stays for ever after. Log Matching becomes "every log agrees,
    up to each of its entries, with the log of the reign of that entry's term".
  */
module RaftHistory {
  import opened Options
  import opened RaftState
  import opened RaftCluster

  datatype Reign = Reign(leader: nat, electors: set<nat>, log: seq<LogEntry>)

  /** `reigns` by term; `ballots[(s, T)]` the log with which s stood in term T; `votes[(s, T)]` whom s
      backed in term T; `acks[(s, T)]` how far s has confirmed the log of term T. */
  datatype History = History(
    reigns: map<nat, Reign>, ballots: map<(nat, nat), seq<LogEntry>>, votes: map<(nat, nat), nat>,
    acks: map<(nat, nat), nat>)

  ghost predicate Majority(size: nat, q: set<nat>) {
    (forall s | s in q :: s < size) && |q| >= size / 2 + 1
  }

  // ---------------------------------------------------------------- logs

  ghost predicate Shaped(log: seq<LogEntry>) {
    && |log| > 0
    && log[0] == SENTINEL
    && (forall i | 0 <= i < |log| :: Placed(log, i))
    && (forall i, j | 0 <= i < j < |log| :: Ordered(log, i, j))
  }

  ghost predicate Placed(log: seq<LogEntry>, i: nat)
    requires i < |log|
  {
    log[i].index == i
  }

  ghost predicate Ordered(log: seq<LogEntry>, i: nat, j: nat)
    requires i < j < |log|
  {
    log[i].term <= log[j].term
  }

  ghost predicate TermsUpTo(log: seq<LogEntry>, term: int) {
    forall i | 0 <= i < |log| :: log[i].term <= term
  }

  /** Up to each of its entries the log is the log of the reign of that entry's term. */
  ghost predicate Backed(h: History, log: seq<LogEntry>) {
    forall i | 0 <= i < |log| :: BackedAt(h, log, i)
  }

  ghost predicate BackedAt(h: History, log: seq<LogEntry>, i: nat)
    requires i < |log|
  {
    log[i].term in h.reigns && log[..i + 1] <= h.reigns[log[i].term].log
  }

  ghost predicate LogOk(h: History, log: seq<LogEntry>, term: int) {
    Shaped(log) && Backed(h, log) && TermsUpTo(log, term)
  }

  /** Entry i of the reign of `term` was made in that reign. */
  ghost predicate Own(h: History, term: nat, i: nat) {
    term > 0 && term in h.reigns && i < |h.reigns[term].log| && h.reigns[term].log[i].term == term
  }

  /** The log has everything the reign of `term` has up to i. */
  ghost predicate Carries(h: History, log: seq<LogEntry>, term: nat, i: nat)
    requires term in h.reigns && i < |h.reigns[term].log|
  {
    h.reigns[term].log[..i + 1] <= log
  }

  ghost predicate Acked(h: History, s: nat, term: nat, i: nat) {
    (s, term) in h.acks && i <= h.acks[(s, term)]
  }

  ghost predicate Passed(c: Cluster, h: History, q: set<nat>, term: nat, i: nat)
    requires Majority(|c.peers|, q)
  {
    forall s | s in q :: c.peers[s].currentTerm > term && !Acked(h, s, term, i)
  }

  /** A majority has left `term` without confirming entry i: it can no longer be committed in that term. */
  ghost predicate Dead(c: Cluster, h: History, term: nat, i: nat) {
    exists q :: Majority(|c.peers|, q) && Passed(c, h, q, term, i)
  }

  ghost predicate AllAcked(h: History, q: set<nat>, term: nat, i: nat) {
    forall s | s in q :: Acked(h, s, term, i)
  }

  /** Entry i of `term` is committed by the rule of Figure 2: made in that term and confirmed by a majority in it. */
  ghost predicate Chosen(size: nat, h: History, term: nat, i: nat) {
    Own(h, term, i) && exists q :: Majority(size, q) && AllAcked(h, q, term, i)
  }

  ghost predicate Witness(size: nat, h: History, log: seq<LogEntry>, k: nat, term: nat, u: nat, i: nat) {
    Chosen(size, h, u, i) && u <= term && k <= i && h.reigns[u].log[..k + 1] <= log
  }

  /** The first k entries of the log were committed in `term` or before. */
  ghost predicate Settled(size: nat, h: History, log: seq<LogEntry>, k: nat, term: nat) {
    k == 0 || exists u, i :: Witness(size, h, log, k, term, u, i)
  }

  // ---------------------------------------------------------------- the invariant

  ghost predicate InSync(p: Peer) {
    && p.disk.snapshot == p.snapshot.storage
    && match p.disk.state
       case None => p.currentTerm == 0 && p.votedFor == NO_VOTE && p.log == [SENTINEL]
         && p.snapshot == Snapshot(0, 0, [])
       case Some(e) =>
         && e.term == p.currentTerm && e.votedFor == p.votedFor && e.log == p.log
         && e.snapshotIndex == p.snapshot.index && e.snapshotTerm == p.snapshot.term
         && e.commitIndex <= p.commitIndex
  }

  ghost predicate CallOk(size: nat, h: History, p: Peer, b: Broadcast) {
    && b.term == p.currentTerm
    && b.index < |p.log|
    && b.commitIndex <= b.index
    && Settled(size, h, p.log, b.commitIndex, p.currentTerm)
    && forall j | j in b.acks :: j < size && j != p.me && Acked(h, j, p.currentTerm, b.index)
  }

  ghost predicate CandidateOk(size: nat, h: History, p: Peer) {
    && p.votedFor == p.me
    && (p.me, p.currentTerm) in h.ballots
    && h.ballots[(p.me, p.currentTerm)] == p.log
    && (p.currentTerm in h.reigns ==> h.reigns[p.currentTerm].leader != p.me)
    && forall j | j in p.voters ::
         j < size && j != p.me && (j, p.currentTerm) in h.votes && h.votes[(j, p.currentTerm)] == p.me
  }

  ghost predicate LeaderOk(size: nat, h: History, p: Peer) {
    && p.currentTerm > 0
    && p.votedFor == p.me
    && p.currentTerm in h.reigns
    && h.reigns[p.currentTerm].leader == p.me
    && h.reigns[p.currentTerm].log == p.log
    && (p.me, p.currentTerm) in h.acks
    && h.acks[(p.me, p.currentTerm)] == |p.log| - 1
    && |p.nextIndex| == |p.matchIndex| == size
    && (forall i | 0 <= i < size :: p.nextIndex[i] <= |p.log|)
    && forall k {:trigger CallOk(size, h, p, p.calls[k])} | 0 <= k < |p.calls| :: CallOk(size, h, p, p.calls[k])
  }

  /** Whoever is not leader has no broadcast of the current term. */
  ghost predicate CallsOver(p: Peer) {
    forall k | 0 <= k < |p.calls| :: p.calls[k].term < p.currentTerm
  }

  ghost predicate PeerOk(size: nat, h: History, s: nat, p: Peer) {
    && p.me == s
    && p.size == size
    && p.snapshot == Snapshot(0, 0, [])
    && LogOk(h, p.log, p.currentTerm)
    && InSync(p)
    && p.lastApplied <= p.commitIndex < |p.log|
    && Settled(size, h, p.log, p.commitIndex, p.currentTerm)
    && (p.role == Candidate ==> CandidateOk(size, h, p))
    && (if p.role == Leader then LeaderOk(size, h, p) else CallsOver(p))
  }

  ghost predicate PeersOk(c: Cluster, h: History) {
    forall s {:trigger PeerOk(|c.peers|, h, s, c.peers[s])} | 0 <= s < |c.peers| :: PeerOk(|c.peers|, h, s, c.peers[s])
  }

  ghost predicate ReignOk(c: Cluster, h: History, term: nat)
    requires term in h.reigns
  {
    var r := h.reigns[term];
    && LogOk(h, r.log, term)
    && if term == 0 then r.log == [SENTINEL] else
         && r.leader < |c.peers|
         && term <= c.peers[r.leader].currentTerm
         && Majority(|c.peers|, r.electors)
         && forall v | v in r.electors :: (v, term) in h.votes && h.votes[(v, term)] == r.leader
  }

  ghost predicate BallotOk(c: Cluster, h: History, s: nat, term: nat)
    requires (s, term) in h.ballots
  {
    && s < |c.peers|
    && 0 < term <= c.peers[s].currentTerm
    && LogOk(h, h.ballots[(s, term)], term - 1)
    && (s, term) in h.votes
    && h.votes[(s, term)] == s
  }

  ghost predicate VoteOk(c: Cluster, h: History, v: nat, term: nat)
    requires (v, term) in h.votes
  {
    && v < |c.peers|
    && 0 < term <= c.peers[v].currentTerm
    && (term == c.peers[v].currentTerm ==> c.peers[v].votedFor == h.votes[(v, term)])
    && (h.votes[(v, term)], term) in h.ballots
  }

  ghost predicate AckOk(c: Cluster, h: History, s: nat, term: nat)
    requires (s, term) in h.acks
  {
    && s < |c.peers|
    && 0 < term <= c.peers[s].currentTerm
    && term in h.reigns
    && h.acks[(s, term)] < |h.reigns[term].log|
  }

  ghost predicate ReignsOk(c: Cluster, h: History) {
    forall t {:trigger ReignOk(c, h, t)} | t in h.reigns :: ReignOk(c, h, t)
  }

  ghost predicate BallotsOk(c: Cluster, h: History) {
    forall s, t {:trigger BallotOk(c, h, s, t)} | (s, t) in h.ballots :: BallotOk(c, h, s, t)
  }

  ghost predicate VotesOk(c: Cluster, h: History) {
    forall v, t {:trigger VoteOk(c, h, v, t)} | (v, t) in h.votes :: VoteOk(c, h, v, t)
  }

  ghost predicate AcksOk(c: Cluster, h: History) {
    forall s, t {:trigger AckOk(c, h, s, t)} | (s, t) in h.acks :: AckOk(c, h, s, t)
  }

  ghost predicate RecordsOk(c: Cluster, h: History) {
    0 in h.reigns && ReignsOk(c, h) && BallotsOk(c, h) && VotesOk(c, h) && AcksOk(c, h)
  }

  ghost predicate CarriesOrDead(c: Cluster, h: History, log: seq<LogEntry>, t: nat, i: nat)
    requires t in h.reigns && i < |h.reigns[t].log|
  {
    Carries(h, log, t, i) || Dead(c, h, t, i)
  }

  ghost predicate ReignSafe(c: Cluster, h: History, t: nat, u: nat, i: nat) {
    Own(h, t, i) && u in h.reigns && t < u ==> CarriesOrDead(c, h, h.reigns[u].log, t, i)
  }

  /** A later reign carries every own entry of an earlier one, unless that entry is dead. */
  ghost predicate ReignsSafe(c: Cluster, h: History) {
    forall t: nat, u: nat, i: nat :: ReignSafe(c, h, t, u, i)
  }

  ghost predicate LogSafe(c: Cluster, h: History, s: nat, t: nat, i: nat) {
    s < |c.peers| && Own(h, t, i) && Acked(h, s, t, i) ==> CarriesOrDead(c, h, c.peers[s].log, t, i)
  }

  /** A peer still carries what it has confirmed, unless that is dead. */
  ghost predicate LogsSafe(c: Cluster, h: History) {
    forall s: nat, t: nat, i: nat :: LogSafe(c, h, s, t, i)
  }

  ghost predicate VoteSafe(c: Cluster, h: History, v: nat, u: nat, t: nat, i: nat) {
    (v, u) in h.votes && (h.votes[(v, u)], u) in h.ballots && t < u && Own(h, t, i) && Acked(h, v, t, i) ==>
      CarriesOrDead(c, h, h.ballots[(h.votes[(v, u)], u)], t, i)
  }

  /** A candidate carries what its voters confirmed in earlier terms, unless that is dead. */
  ghost predicate VotesSafe(c: Cluster, h: History) {
    forall v: nat, u: nat, t: nat, i: nat :: VoteSafe(c, h, v, u, t, i)
  }

  /** The entries of a request are the part of the log after its previous index. */
  ghost predicate SliceOf(log: seq<LogEntry>, a: AppendArgs) {
    && -1 <= a.prevLogIndex
    && 0 <= a.prevLogIndex + |a.entries| < |log|
    && a.prevLogTerm == (if a.prevLogIndex < 0 then 0 else log[a.prevLogIndex].term)
    && a.entries == log[a.prevLogIndex + 1..a.prevLogIndex + 1 + |a.entries|]
  }

  /** The request is a slice of the reign it was sent in. */
  ghost predicate ArgsOk(size: nat, h: History, a: AppendArgs) {
    && a.term > 0
    && a.term in h.reigns
    && SliceOf(h.reigns[a.term].log, a)
    && a.snapshot == Snapshot(0, 0, [])
    && a.leaderCommit <= a.prevLogIndex + |a.entries|
    && Settled(size, h, h.reigns[a.term].log, a.leaderCommit, a.term)
  }

  /** While the sender is in office, the request reaches at least as far as the broadcast that sent it. */
  ghost predicate CallLink(c: Cluster, sender: nat, call: nat, a: AppendArgs) {
    && sender < |c.peers|
    && var p := c.peers[sender];
    p.role == Leader && p.currentTerm == a.term ==>
      call < |p.calls| && p.calls[call].index <= a.prevLogIndex + |a.entries|
  }

  /** A refusal points below the request, and to a term that the leader does not have there. */
  ghost predicate RefusalOk(a: AppendArgs, r: AppendReply) {
    r.conflictIndex <= a.prevLogIndex && (r.conflictTerm == 0 || r.conflictTerm != a.prevLogTerm)
  }

  ghost predicate MessageOk(c: Cluster, h: History, m: Message) {
    match m
    case VoteRequest(src, dst, b) =>
      && dst != src
      && b.candidateId == src
      && (src, b.term) in h.ballots
      && var log := h.ballots[(src, b.term)];
      && |log| > 0
      && b.lastLogIndex == |log| - 1
      && b.lastLogTerm == log[|log| - 1].term
    case VoteAnswer(src, dst, term, v) =>
      v.granted ==> dst != src && src < |c.peers| && (src, term) in h.votes && h.votes[(src, term)] == dst
    case AppendRequest(src, dst, call, a) =>
      && dst != src
      && ArgsOk(|c.peers|, h, a)
      && h.reigns[a.term].leader == src
      && CallLink(c, src, call, a)
    case AppendAnswer(src, dst, call, a, r) =>
      && dst != src
      && src < |c.peers|
      && ArgsOk(|c.peers|, h, a)
      && h.reigns[a.term].leader == dst
      && CallLink(c, dst, call, a)
      && (r.success ==> Acked(h, src, a.term, a.prevLogIndex + |a.entries|))
      && (!r.success && r.term <= a.term ==> RefusalOk(a, r))
  }

  ghost predicate NetOk(c: Cluster, h: History) {
    forall m {:trigger MessageOk(c, h, m)} | m in c.net :: MessageOk(c, h, m)
  }

  ghost predicate Final(size: nat, h: History, k: nat, command: Option<Command>, u: nat, i: nat) {
    Chosen(size, h, u, i) && k <= i && h.reigns[u].log[k].command == command
  }

  /** Everything delivered is a committed command, delivered at its own index. */
  ghost predicate DeliveredOk(c: Cluster, h: History) {
    forall d | d in c.delivered ::
      d.msg.CommandMsg? && exists u, i :: Final(|c.peers|, h, d.msg.index, d.msg.command, u, i)
  }

  ghost predicate Inv(c: Cluster, h: History) {
    && PeersOk(c, h)
    && RecordsOk(c, h)
    && ReignsSafe(c, h)
    && LogsSafe(c, h)
    && VotesSafe(c, h)
    && NetOk(c, h)
    && DeliveredOk(c, h)
  }
}
