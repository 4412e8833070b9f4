/** A cluster of Raft peers as a transition system.

    The network is the set of every message ever sent: a message may be received late, in any
    order, more than once or never. A crash loses everything but the disk; it falls between two handlers
    or inside one, after the first of its two saves (`CrashInside`). Timers are gone: a peer
    may start an election, send a heartbeat or apply at any time. A Go access that would be out of
    range is a step that cannot be taken (the process has died; it can still be restarted).
  */
module RaftCluster {
  import opened Options
  import opened RaftState

  datatype Message =
    | VoteRequest(src: nat, dst: nat, ballot: VoteArgs)
    | VoteAnswer(src: nat, dst: nat, ballotTerm: nat, vote: VoteReply)
    | AppendRequest(src: nat, dst: nat, call: nat, args: AppendArgs)
    | AppendAnswer(src: nat, dst: nat, call: nat, args: AppendArgs, reply: AppendReply)

  /** One message that a peer handed to its service. */
  datatype Delivery = Delivery(server: nat, msg: ApplyMsg)

  datatype Cluster = Cluster(peers: seq<Peer>, net: set<Message>, delivered: set<Delivery>)

  datatype Step =
    | Elect(s: nat)
    | ReceiveVoteRequest(m: Message)
    | ReceiveVoteAnswer(m: Message)
    | ClientStart(s: nat, command: Command)
    | Beat(s: nat)
    | Send(s: nat, call: nat, to: nat)
    | ReceiveAppendRequest(m: Message)
    | ReceiveAppendAnswer(m: Message)
    | Deliver(s: nat)
    | Compact(s: nat, index: nat, storage: Bytes)
    | Restart(s: nat)
    | CrashInside(m: Message)

  /** The peer at which a step happens. */
  function SiteOf(step: Step): nat {
    match step
    case ReceiveVoteRequest(m) => m.dst
    case ReceiveVoteAnswer(m) => m.dst
    case ReceiveAppendRequest(m) => m.dst
    case ReceiveAppendAnswer(m) => m.dst
    case CrashInside(m) => m.dst
    case _ => step.s
  }

  function TermOf(m: Message): nat {
    match m
    case VoteRequest(_, _, ballot) => ballot.term
    case VoteAnswer(_, _, term, _) => term
    case AppendRequest(_, _, _, args) => args.term
    case AppendAnswer(_, _, _, args, _) => args.term
  }

  /** The step ends the incarnation of peer s. */
  predicate Ends(step: Step, s: nat) {
    step == Restart(s) || (step.CrashInside? && step.m.dst == s)
  }

  function Init(size: nat): Cluster {
    Cluster(seq(size, i requires 0 <= i < size => Make(i, size, Disk(None, []))), {}, {})
  }

  /** The step happens at a peer of the cluster, receives only what was sent, and no access in it is out of range. */
  ghost predicate Enabled(c: Cluster, step: Step) {
    match step
    case Elect(s) => s < |c.peers|
    case ReceiveVoteRequest(m) => m in c.net && m.VoteRequest? && m.dst < |c.peers|
    case ReceiveVoteAnswer(m) => m in c.net && m.VoteAnswer? && m.dst < |c.peers|
    case ClientStart(s, _) => s < |c.peers|
    case Beat(s) => s < |c.peers|
    case Send(s, call, to) =>
      s < |c.peers| && StillSends(c.peers[s], call, to) && CanBuild(c.peers[s], call, to)
    case ReceiveAppendRequest(m) =>
      m in c.net && m.AppendRequest? && m.dst < |c.peers| && c.peers[m.dst].Window()
    case ReceiveAppendAnswer(m) =>
      && m in c.net && m.AppendAnswer? && m.dst < |c.peers|
      && CanCountAppend(c.peers[m.dst], m.src, m.call, m.args, m.reply)
    case Deliver(s) => s < |c.peers| && CanApply(c.peers[s])
    case Compact(s, index, _) =>
      s < |c.peers| && index <= c.peers[s].lastApplied && index < c.peers[s].snapshot.index + |c.peers[s].log|
    case Restart(s) => s < |c.peers|
    case CrashInside(m) =>
      m in c.net && (m.VoteRequest? || m.AppendRequest?) && m.dst < |c.peers| && c.peers[m.dst].currentTerm < TermOf(m)
  }

  function Update(c: Cluster, s: nat, p: Peer, sent: set<Message>): Cluster
    requires s < |c.peers|
  {
    c.(peers := c.peers[s := p], net := c.net + sent)
  }

  function Ballots(p: Peer): set<Message> {
    set to | 0 <= to < p.size && to != p.me :: VoteRequest(p.me, to, BallotOf(p))
  }

  ghost function After(c: Cluster, step: Step): Cluster
    requires Enabled(c, step)
  {
    match step
    case Elect(s) =>
      var p := StartElection(c.peers[s]);
      Update(c, s, p, Ballots(p))
    case ReceiveVoteRequest(m) =>
      var (p, reply) := RequestVote(c.peers[m.dst], m.ballot);
      Update(c, m.dst, p, {VoteAnswer(m.dst, m.src, m.ballot.term, reply)})
    case ReceiveVoteAnswer(m) =>
      Update(c, m.dst, CountVote(c.peers[m.dst], m.src, m.ballotTerm, m.vote), {})
    case ClientStart(s, command) =>
      Update(c, s, StartCommand(c.peers[s], command), {})
    case Beat(s) =>
      Update(c, s, HeartBeat(c.peers[s]), {})
    case Send(s, call, to) =>
      Update(c, s, c.peers[s], {AppendRequest(s, to, call, BuildAppend(c.peers[s], call, to))})
    case ReceiveAppendRequest(m) =>
      var (p, reply) := AppendEntries(c.peers[m.dst], m.args);
      Update(c, m.dst, p, {AppendAnswer(m.dst, m.src, m.call, m.args, reply)})
    case ReceiveAppendAnswer(m) =>
      Update(c, m.dst, CountAppend(c.peers[m.dst], m.src, m.call, m.args, m.reply), {})
    case Deliver(s) =>
      var (p, msgs) := Apply(c.peers[s]);
      Update(c, s, p, {}).(delivered := c.delivered + set msg | msg in msgs :: Delivery(s, msg))
    case Compact(s, index, storage) =>
      Update(c, s, SaveSnapshot(c.peers[s], index, storage), {})
    case Restart(s) =>
      Update(c, s, Make(s, c.peers[s].size, c.peers[s].disk), {})
    case CrashInside(m) =>
      Update(c, m.dst, Make(m.dst, c.peers[m.dst].size, StepDown(c.peers[m.dst], TermOf(m)).disk), {})
  }

  ghost predicate Next(c: Cluster, c': Cluster, compacting: bool) {
    exists step :: Enabled(c, step) && (step.Compact? ==> compacting) && c' == After(c, step)
  }

  /** A run of a cluster of `size` peers, with or without log compaction. */
  ghost predicate IsRun(run: seq<Cluster>, size: nat, compacting: bool) {
    && |run| > 0
    && run[0] == Init(size)
    && forall i: nat | i + 1 < |run| :: NextAt(run, i, compacting)
  }

  ghost predicate NextAt(run: seq<Cluster>, i: nat, compacting: bool)
    requires i + 1 < |run|
  {
    Next(run[i], run[i + 1], compacting)
  }
}
