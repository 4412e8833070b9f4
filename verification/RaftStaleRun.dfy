/** A run of three servers in which a refusal that is handled late raises the next index of a follower. */
module RaftStaleRun {
  import opened Options
  import opened RaftState
  import opened RaftCluster

  ghost predicate Reachable(c: Cluster) {
    exists run: seq<Cluster> :: IsRun(run, 3, false) && run[|run| - 1] == c
  }

  lemma ReachedNext(c: Cluster, step: Step)
    requires Reachable(c) && Enabled(c, step) && !step.Compact?
    ensures Reachable(After(c, step))
  {
    var run: seq<Cluster> :| IsRun(run, 3, false) && run[|run| - 1] == c;
    var run' := run + [After(c, step)];
    forall i: nat | i + 1 < |run'| ensures NextAt(run', i, false) {
      if i + 1 < |run| { assert NextAt(run, i, false); }
    }
    assert run'[|run'| - 1] == After(c, step);
  }

  lemma Starts() returns (c: Cluster)
    ensures Reachable(c) && |c.peers| == 3
    ensures forall s: nat | s < 3 :: c.peers[s] == Make(s, 3, Disk(None, []))
  {
    c := Init(3);
    assert IsRun([c], 3, false) && [c][|[c]| - 1] == c;
  }

  // ---------------------------------------------------------------- parts of a run

  /** Peer s with this log in this term, and no snapshot. */
  ghost predicate Plain(c: Cluster, s: nat, term: nat, log: seq<LogEntry>) {
    && |c.peers| == 3 && s < 3
    && var p := c.peers[s];
    && p.me == s && p.size == 3 && p.currentTerm == term && p.log == log && |log| > 0
    && p.snapshot == Snapshot(0, 0, []) && p.lastApplied == 0 && p.commitIndex == 0
  }

  /** In office, with the broadcasts begun since. */
  ghost predicate Leads(c: Cluster, s: nat, next: seq<nat>, calls: seq<Broadcast>)
    requires s < |c.peers|
  {
    && c.peers[s].role == Leader && c.peers[s].calls == calls
    && c.peers[s].nextIndex == next && |c.peers[s].matchIndex| == |next|
  }

  lemma StandsAlone(c: Cluster, s: nat, term: nat, log: seq<LogEntry>) returns (d: Cluster)
    requires Reachable(c) && Plain(c, s, term, log)
    ensures Reachable(d) && Plain(d, s, term + 1, log) && d.peers[s].role == Candidate && d.peers[s].voters == {}
    ensures forall v: nat | v < 3 && v != s ::
              d.peers[v] == c.peers[v] && VoteRequest(s, v, BallotOf(d.peers[s])) in d.net
  {
    d := After(c, Elect(s));
    ReachedNext(c, Elect(s));
  }

  /** Peer v, which has nothing in its log, backs the candidate. */
  lemma Backs(c: Cluster, s: nat, term: nat, log: seq<LogEntry>, v: nat, earlier: nat) returns (d: Cluster)
    requires Reachable(c) && Plain(c, s, term, log) && Plain(c, v, earlier, [SENTINEL]) && v != s && earlier < term
    requires VoteRequest(s, v, BallotOf(c.peers[s])) in c.net
    ensures Reachable(d) && Plain(d, v, term, [SENTINEL])
    ensures VoteAnswer(v, s, term, VoteReply(term, true)) in d.net
    ensures forall w: nat | w < 3 && w != v :: d.peers[w] == c.peers[w]
  {
    var m := VoteRequest(s, v, BallotOf(c.peers[s]));
    d := After(c, ReceiveVoteRequest(m));
    ReachedNext(c, ReceiveVoteRequest(m));
  }

  lemma Wins(c: Cluster, s: nat, term: nat, log: seq<LogEntry>, v: nat) returns (d: Cluster)
    requires Reachable(c) && Plain(c, s, term, log) && v < 3 && v != s
    requires c.peers[s].role == Candidate && c.peers[s].voters == {}
    requires VoteAnswer(v, s, term, VoteReply(term, true)) in c.net
    ensures Reachable(d) && Plain(d, s, term, log) && Leads(d, s, [|log|, |log|, |log|], [])
    ensures forall w: nat | w < 3 && w != s :: d.peers[w] == c.peers[w]
  {
    var m := VoteAnswer(v, s, term, VoteReply(term, true));
    d := After(c, ReceiveVoteAnswer(m));
    ReachedNext(c, ReceiveVoteAnswer(m));
    assert |{} + {v}| == 1;
    assert seq(3, _ => |log| + 0) == [|log|, |log|, |log|];
  }

  lemma Elected(c: Cluster, s: nat, term: nat, log: seq<LogEntry>, v: nat, earlier: nat) returns (d: Cluster)
    requires Reachable(c) && Plain(c, s, term, log) && Plain(c, v, earlier, [SENTINEL]) && v != s && earlier <= term
    requires log[|log| - 1].index == |log| - 1
    ensures Reachable(d) && Plain(d, s, term + 1, log) && Leads(d, s, [|log|, |log|, |log|], [])
    ensures Plain(d, v, term + 1, [SENTINEL])
    ensures forall w: nat | w < 3 && w != s && w != v :: d.peers[w] == c.peers[w]
  {
    var a := StandsAlone(c, s, term, log);
    var b := Backs(a, s, term + 1, log, v, earlier);
    d := Wins(b, s, term + 1, log, v);
  }

  lemma Appends(c: Cluster, s: nat, term: nat, log: seq<LogEntry>, command: Command) returns (d: Cluster)
    requires Reachable(c) && Plain(c, s, term, log) && c.peers[s].role == Leader
    ensures Reachable(d) && Plain(d, s, term, log + [LogEntry(|log|, term, Some(command))]) && d.peers[s].role == Leader
    ensures forall w: nat | w < 3 && w != s :: d.peers[w] == c.peers[w]
  {
    d := After(c, ClientStart(s, command));
    ReachedNext(c, ClientStart(s, command));
  }

  lemma AppendsTwice(c: Cluster, s: nat, term: nat, command: Command) returns (d: Cluster)
    requires Reachable(c) && Plain(c, s, term, [SENTINEL]) && c.peers[s].role == Leader
    ensures Reachable(d) && Plain(d, s, term, TwoOf(term, command))
    ensures forall w: nat | w < 3 && w != s :: d.peers[w] == c.peers[w]
  {
    var a := Appends(c, s, term, [SENTINEL], command);
    d := Appends(a, s, term, [SENTINEL] + [LogEntry(1, term, Some(command))], command);
    assert [SENTINEL] + [LogEntry(1, term, Some(command))] + [LogEntry(2, term, Some(command))] == TwoOf(term, command);
  }

  /** The sentinel and two entries of this term. */
  ghost function TwoOf(term: nat, command: Command): seq<LogEntry> {
    [SENTINEL, LogEntry(1, term, Some(command)), LogEntry(2, term, Some(command))]
  }

  lemma Beats(c: Cluster, s: nat, term: nat, log: seq<LogEntry>, next: seq<nat>, calls: seq<Broadcast>)
    returns (d: Cluster)
    requires Reachable(c) && Plain(c, s, term, log) && Leads(c, s, next, calls) && log[|log| - 1].index == |log| - 1
    ensures Reachable(d) && Plain(d, s, term, log)
    ensures Leads(d, s, next, calls + [Broadcast(|log| - 1, term, 0, {}, false)])
    ensures forall w: nat | w < 3 && w != s :: d.peers[w] == c.peers[w]
  {
    d := After(c, Beat(s));
    ReachedNext(c, Beat(s));
  }

  // ---------------------------------------------------------------- the two logs

  /** The follower 0 has two entries of term 1; the leader 1 has two of term 2 and leads again in term 3, with two
      broadcasts begun and all next indices at 3. */
  ghost predicate Opposed(c: Cluster, command: Command, next: seq<nat>) {
    && |c.peers| == 3 && Plain(c, 0, c.peers[0].currentTerm, TwoOf(1, command)) && c.peers[0].currentTerm <= 3
    && Plain(c, 1, 3, TwoOf(2, command)) && Leads(c, 1, next, [HEARTBEAT, HEARTBEAT])
  }

  const HEARTBEAT := Broadcast(2, 3, 0, {}, false)

  lemma ReachOpposed(command: Command) returns (d: Cluster)
    ensures Reachable(d) && Opposed(d, command, [3, 3, 3])
  {
    var c := Starts();
    var first := Elected(c, 0, 0, [SENTINEL], 2, 0);
    var wrote := AppendsTwice(first, 0, 1, command);
    var alone := StandsAlone(wrote, 1, 0, [SENTINEL]);
    var second := Elected(alone, 1, 1, [SENTINEL], 2, 1);
    var both := AppendsTwice(second, 1, 2, command);
    var third := Elected(both, 1, 2, TwoOf(2, command), 2, 2);
    var beat := Beats(third, 1, 3, TwoOf(2, command), [3, 3, 3], []);
    d := Beats(beat, 1, 3, TwoOf(2, command), [3, 3, 3], [HEARTBEAT]);
    assert [] + [HEARTBEAT] == [HEARTBEAT] && [HEARTBEAT] + [HEARTBEAT] == [HEARTBEAT, HEARTBEAT];
  }

  // ---------------------------------------------------------------- requests and refusals

  /** The request at next index 3, and that at 2. */
  ghost const HIGH := AppendArgs(3, 1, 2, 2, [], 0, Snapshot(0, 0, []))

  ghost function Low(command: Command): AppendArgs {
    AppendArgs(3, 1, 1, 2, [LogEntry(2, 2, Some(command))], 0, Snapshot(0, 0, []))
  }

  const TOO_HIGH := AppendReply(3, false, 2, 0)
  const CONFLICT := AppendReply(3, false, 1, 1)

  lemma Asks(c: Cluster, command: Command, next: seq<nat>, call: nat, args: AppendArgs) returns (d: Cluster)
    requires Reachable(c) && Opposed(c, command, next) && |next| == 3 && call < 2
    requires (next[0] == 3 && args == HIGH) || (next[0] == 2 && args == Low(command))
    ensures Reachable(d) && Opposed(d, command, next)
    ensures AppendRequest(1, 0, call, args) in d.net && c.net <= d.net
  {
    var p := c.peers[1];
    assert StillSends(p, call, 0) && CanBuild(p, call, 0);
    assert p.log[2..3] == [LogEntry(2, 2, Some(command))];
    assert BuildAppend(p, call, 0) == args;
    d := After(c, Send(1, call, 0));
    ReachedNext(c, Send(1, call, 0));
    assert d.peers == c.peers;
  }

  lemma FollowerWindow(c: Cluster, command: Command)
    requires |c.peers| == 3 && Plain(c, 0, c.peers[0].currentTerm, TwoOf(1, command))
    ensures c.peers[0].Window()
  {
  }

  lemma RefusesHigh(c: Cluster, command: Command, next: seq<nat>, call: nat) returns (d: Cluster)
    requires Reachable(c) && Opposed(c, command, next) && AppendRequest(1, 0, call, HIGH) in c.net
    ensures Reachable(d) && Opposed(d, command, next)
    ensures AppendAnswer(0, 1, call, HIGH, TOO_HIGH) in d.net && c.net <= d.net
  {
    FollowerWindow(c, command);
    var step := ReceiveAppendRequest(AppendRequest(1, 0, call, HIGH));
    assert AppendEntries(c.peers[0], HIGH).1 == TOO_HIGH;
    d := After(c, step);
    ReachedNext(c, step);
  }

  lemma RefusesLow(c: Cluster, command: Command, next: seq<nat>, call: nat) returns (d: Cluster)
    requires Reachable(c) && Opposed(c, command, next) && AppendRequest(1, 0, call, Low(command)) in c.net
    ensures Reachable(d) && Opposed(d, command, next)
    ensures AppendAnswer(0, 1, call, Low(command), CONFLICT) in d.net && c.net <= d.net
  {
    FollowerWindow(c, command);
    var step := ReceiveAppendRequest(AppendRequest(1, 0, call, Low(command)));
    assert AppendEntries(c.peers[0], Low(command)).1 == CONFLICT;
    d := After(c, step);
    ReachedNext(c, step);
  }

  lemma HighAnswer(p: Peer, call: nat, command: Command)
    requires p.log == TwoOf(2, command) && p.snapshot == Snapshot(0, 0, []) && p.currentTerm == 3
    requires p.calls == [HEARTBEAT, HEARTBEAT] && call < 2 && |p.nextIndex| == |p.matchIndex| == 3
    ensures CanCountAppend(p, 0, call, HIGH, TOO_HIGH)
    ensures CountAppend(p, 0, call, HIGH, TOO_HIGH) == p.(nextIndex := p.nextIndex[0 := 2])
  {
  }

  lemma LowAnswer(p: Peer, call: nat, command: Command)
    requires p.log == TwoOf(2, command) && p.snapshot == Snapshot(0, 0, []) && p.currentTerm == 3
    requires p.calls == [HEARTBEAT, HEARTBEAT] && call < 2 && |p.nextIndex| == |p.matchIndex| == 3
    ensures CanCountAppend(p, 0, call, Low(command), CONFLICT)
    ensures CountAppend(p, 0, call, Low(command), CONFLICT) == p.(nextIndex := p.nextIndex[0 := 1])
  {
    assert SearchDown(p, 1, 1, 0) == SearchDown(p, 0, 1, 0) == 0;
  }

  lemma Handles(c: Cluster, command: Command, next: seq<nat>, m: Message, to: nat) returns (d: Cluster)
    requires Reachable(c) && Opposed(c, command, next) && |next| == 3
    requires m in c.net && m.AppendAnswer? && m.dst == 1 && m.src == 0
    requires CanCountAppend(c.peers[1], 0, m.call, m.args, m.reply)
    requires CountAppend(c.peers[1], 0, m.call, m.args, m.reply) == c.peers[1].(nextIndex := next[0 := to])
    ensures Reachable(d) && Opposed(d, command, next[0 := to]) && c.net <= d.net
    ensures d == After(c, ReceiveAppendAnswer(m))
  {
    d := After(c, ReceiveAppendAnswer(m));
    ReachedNext(c, ReceiveAppendAnswer(m));
  }

  /** Both broadcasts ask at index 3 and are refused; the first handles its refusal, asks at 2, is refused again and
      goes back to 1. */
  lemma ReachLow(command: Command) returns (d: Cluster)
    ensures Reachable(d) && Opposed(d, command, [1, 3, 3])
    ensures AppendAnswer(0, 1, 1, HIGH, TOO_HIGH) in d.net
  {
    var a := ReachOpposed(command);
    var b := Asks(a, command, [3, 3, 3], 0, HIGH);
    var c := Asks(b, command, [3, 3, 3], 1, HIGH);
    var e := RefusesHigh(c, command, [3, 3, 3], 0);
    var f := RefusesHigh(e, command, [3, 3, 3], 1);
    HighAnswer(f.peers[1], 0, command);
    var g := Handles(f, command, [3, 3, 3], AppendAnswer(0, 1, 0, HIGH, TOO_HIGH), 2);
    assert [3, 3, 3][0 := 2] == [2, 3, 3];
    var i := Asks(g, command, [2, 3, 3], 0, Low(command));
    var j := RefusesLow(i, command, [2, 3, 3], 0);
    LowAnswer(j.peers[1], 0, command);
    d := Handles(j, command, [2, 3, 3], AppendAnswer(0, 1, 0, Low(command), CONFLICT), 1);
    assert [2, 3, 3][0 := 1] == [1, 3, 3];
  }

  /** In a state that three servers reach, a leader in office handles the refusal of its own request, of its own term,
      and the next index of the follower goes up. */
  lemma StaleRefusalRaises(command: Command) returns (c: Cluster, m: Message)
    ensures Reachable(c) && |c.peers| == 3 && c.peers[1].role == Leader && |c.peers[1].nextIndex| == 3
    ensures m in c.net && m.AppendAnswer? && m.src == 0 && m.dst == 1 && Awaits(c.peers[1], m.call, m.args)
    ensures !m.reply.success && m.reply.term == m.args.term == c.peers[1].currentTerm
    ensures CanCountAppend(c.peers[1], 0, m.call, m.args, m.reply)
    ensures CountAppend(c.peers[1], 0, m.call, m.args, m.reply).nextIndex[0] == 2 && c.peers[1].nextIndex[0] == 1
  {
    c := ReachLow(command);
    m := AppendAnswer(0, 1, 1, HIGH, TOO_HIGH);
    HighAnswer(c.peers[1], 1, command);
  }
}
