/** When a refusal lowers the next index that all broadcasts to a follower share, and when it raises it again. */
module RaftStale {
  import opened Options
  import opened RaftState
  import opened RaftCluster
  import opened RaftHistory
  import opened RaftSafety
  import opened RaftBackUp

  // ---------------------------------------------------------------- the guard

  /** In every run, a refusal that is handled while the next index is no lower than that of its request strictly lowers
      the next index. */
  lemma GuardedRefusalLowers(run: seq<Cluster>, size: nat, i: nat, m: Message)
    requires IsRun(run, size, false) && i < |run|
    requires m in run[i].net && m.AppendAnswer? && m.dst < |run[i].peers|
    requires Awaits(run[i].peers[m.dst], m.call, m.args)
    requires !m.reply.success && m.reply.term <= m.args.term
    ensures m.src < |run[i].peers[m.dst].nextIndex|
    ensures CanCountAppend(run[i].peers[m.dst], m.src, m.call, m.args, m.reply)
    ensures m.args.prevLogIndex + 1 <= run[i].peers[m.dst].nextIndex[m.src] ==>
              CountAppend(run[i].peers[m.dst], m.src, m.call, m.args, m.reply).nextIndex[m.src]
                < run[i].peers[m.dst].nextIndex[m.src]
  {
    var hs := HistoryOf(run, size);
    assert Inv(run[i], hs[i]);
    AppendAnswerInRange(run[i], hs[i], m);
    RefusalRetreats(run[i], hs[i], m);
  }

  /** A follower without snapshot, in the term of the request or before, that refuses it. */
  ghost predicate CanRefuse(f: Peer, args: AppendArgs) {
    && Rising(f) && f.Window() && f.snapshot == Snapshot(0, 0, [])
    && f.currentTerm <= args.term && TermsUpTo(f.log, f.currentTerm)
    && !AppendEntries(f, args).1.success
  }

  /** The request is one that this leader has sent in its present term. */
  ghost predicate Requested(p: Peer, call: nat, from: nat, args: AppendArgs) {
    && Rising(p) && p.snapshot.index == 0 && TermsUpTo(p.log, args.term) && Awaits(p, call, args)
    && from < |p.nextIndex| == |p.matchIndex| && p.calls[call].index < |p.log|
    && -1 <= args.prevLogIndex < |p.log|
    && args.prevLogTerm == (if args.prevLogIndex < 0 then 0 else p.log[args.prevLogIndex].term)
  }

  /** Handling the refusal of this follower strictly lowers its next index. */
  ghost predicate Lowers(p: Peer, call: nat, from: nat, args: AppendArgs, f: Peer)
    requires f.Window() && Requested(p, call, from, args)
  {
    var reply := AppendEntries(f, args).1;
    && CanCountAppend(p, from, call, args, reply)
    && CountAppend(p, from, call, args, reply).nextIndex[from] < p.nextIndex[from]
  }

  /** Nobody refuses a request at the bottom of the log; in term 1 only followers that are too short refuse. */
  ghost predicate Guard(args: AppendArgs, next: nat) {
    args.prevLogIndex <= 0 || (if args.term == 1 then args.prevLogIndex else args.prevLogIndex + 1) <= next
  }

  lemma RefusalNames(p: Peer, call: nat, from: nat, args: AppendArgs, f: Peer)
    requires Requested(p, call, from, args) && CanRefuse(f, args)
    ensures var reply := AppendEntries(f, args).1;
            && reply.term == args.term && !reply.success && 0 < args.prevLogIndex
            && reply.conflictIndex <= args.prevLogIndex
            && (reply.conflictTerm == 0 || reply.conflictTerm != args.prevLogTerm)
            && (args.term == 1 ==> reply.conflictTerm == 0 && reply.conflictIndex < args.prevLogIndex)
  {
    var q := if f.currentTerm < args.term then StepDown(f, args.term) else f;
    RefusedRequest(q, args);
  }

  lemma GuardSuffices(p: Peer, call: nat, from: nat, args: AppendArgs, f: Peer)
    requires Requested(p, call, from, args) && CanRefuse(f, args) && Guard(args, p.nextIndex[from])
    ensures Lowers(p, call, from, args, f)
  {
    RefusalNames(p, call, from, args, f);
    BackUpRetreats(p, AppendEntries(f, args).1, args.prevLogIndex + 1);
  }

  /** A follower with n entries of term t. */
  ghost function Holding(n: nat, t: nat, term: nat): (f: Peer)
    ensures |f.log| == n + 1 && f.log[0] == SENTINEL && f.currentTerm == term && f.snapshot == Snapshot(0, 0, [])
    ensures forall i | 0 < i <= n :: f.log[i] == LogEntry(i, t, None)
  {
    Make(0, 3, Disk(None, [])).(currentTerm := term,
      log := [SENTINEL] + seq(n, i requires 0 <= i < n => LogEntry(i + 1, t, None)))
  }

  lemma HoldingRises(n: nat, t: nat, term: nat)
    requires 0 < t <= term
    ensures var f := Holding(n, t, term); Rising(f) && f.Window() && TermsUpTo(f.log, f.currentTerm)
  {
    var f := Holding(n, t, term);
    forall i, j | 0 <= i < j < |f.log| ensures Ordered(f.log, i, j) {}
    forall i | 0 <= i < |f.log| ensures Placed(f.log, i) {}
  }

  /** The follower that takes the leader back no further than the guard allows for. */
  ghost function Obstinate(args: AppendArgs): Peer
    requires args.prevLogIndex > 0
  {
    if args.term == 1 then Holding(args.prevLogIndex - 1, 1, 1)
    else Holding(args.prevLogIndex, if args.prevLogTerm == 1 then 2 else 1, args.term)
  }

  lemma ObstinateRefuses(p: Peer, call: nat, from: nat, args: AppendArgs)
    requires Requested(p, call, from, args) && args.prevLogIndex > 0
    ensures CanRefuse(Obstinate(args), args)
    ensures AppendEntries(Obstinate(args), args).1
         == AppendReply(args.term, false, if args.term == 1 then args.prevLogIndex - 1 else args.prevLogIndex, 0)
  {
    assert p.log[args.prevLogIndex].term > 0;
    if args.term == 1 {
      HoldingRises(args.prevLogIndex - 1, 1, 1);
    } else {
      HoldingRises(args.prevLogIndex, if args.prevLogTerm == 1 then 2 else 1, args.term);
    }
  }

  /** Over all followers that can refuse it, a refusal of this request lowers the next index exactly under the guard. */
  lemma LowersExactly(p: Peer, call: nat, from: nat, args: AppendArgs)
    requires Requested(p, call, from, args)
    ensures (forall f: Peer | CanRefuse(f, args) :: Lowers(p, call, from, args, f)) <==> Guard(args, p.nextIndex[from])
  {
    if Guard(args, p.nextIndex[from]) {
      forall f: Peer | CanRefuse(f, args)
        ensures Lowers(p, call, from, args, f)
      {
        GuardSuffices(p, call, from, args, f);
      }
    } else {
      ObstinateRefuses(p, call, from, args);
    }
  }

  /** In every run, what a leader in office has sent in its term is such a request. */
  lemma RunRequests(run: seq<Cluster>, size: nat, i: nat, m: Message)
    requires IsRun(run, size, false) && i < |run|
    requires m in run[i].net && m.AppendRequest? && m.src < |run[i].peers| && m.dst < |run[i].peers|
    requires run[i].peers[m.src].role == Leader && run[i].peers[m.src].currentTerm == m.args.term
    ensures Requested(run[i].peers[m.src], m.call, m.dst, m.args)
  {
    var hs := HistoryOf(run, size);
    var c, h, p := run[i], hs[i], run[i].peers[m.src];
    assert Inv(c, h);
    PeerRises(c, h, m.src);
    RequestMatchesLeader(c, h, m);
    assert PeerOk(|c.peers|, h, m.src, p) && MessageOk(c, h, m);
    assert CallOk(|c.peers|, h, p, p.calls[m.call]);
  }
}
