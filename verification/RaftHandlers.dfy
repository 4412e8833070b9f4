/** What single handlers do, by index and term, whether or not the log has been compacted. */
module RaftHandlers {
  import opened Options
  import opened RaftState
  import opened RaftEveryRun
  import opened RaftCompaction

  // ---------------------------------------------------------------- saving, and starting again

  /** A peer that starts on what was saved has the same term, vote, log, snapshot and commit index, and has applied what
      the snapshot covers. */
  lemma SavedComesBack(p: Peer)
    requires |p.log| > 0
    ensures var q := Make(p.me, p.size, p.Persisted().disk);
            && q.currentTerm == p.currentTerm && q.votedFor == p.votedFor && q.log == p.log && q.snapshot == p.snapshot
            && q.commitIndex == p.commitIndex && q.lastApplied == p.snapshot.index && q.role == Follower
            && q.disk == p.Persisted().disk
  {
  }

  // ---------------------------------------------------------------- terms

  function Later(a: nat, b: nat): nat {
    if a < b then b else a
  }

  /** Every request of a later term moves its receiver on to that term, and every reply carries the receiver's term. */
  lemma RepliesCarryTerm(p: Peer, ballot: VoteArgs, args: AppendArgs)
    requires p.Window()
    ensures var (q, reply) := RequestVote(p, ballot);
            && q.currentTerm == reply.term == Later(p.currentTerm, ballot.term)
            && (p.currentTerm < ballot.term ==> q.role == Follower)
    ensures var (q, reply) := AppendEntries(p, args);
            && q.currentTerm == reply.term == Later(p.currentTerm, args.term)
            && (p.currentTerm < args.term || reply.success ==> q.role == Follower)
  {
  }

  /** A candidate whose ballot reaches a peer of a later term gets no vote, and falls back to that term. */
  lemma StaleCandidateFallsBack(c: Peer, p: Peer)
    requires c.currentTerm < p.currentTerm
    ensures var (q, reply) := RequestVote(p, BallotOf(c));
            var c' := CountVote(c, p.me, c.currentTerm, reply);
            && q == p && !reply.granted
            && c'.currentTerm == p.currentTerm && c'.role == Follower && c'.votedFor == NO_VOTE && c'.log == c.log
  {
  }

  /** Answers to ballots of other terms than the current one are dropped. */
  lemma OldVotesDropped(p: Peer, from: nat, term: nat, reply: VoteReply)
    requires term != p.currentTerm
    ensures CountVote(p, from, term, reply) == p
  {
  }

  // ---------------------------------------------------------------- requests of a leader

  /** The first request of a new leader, for a heartbeat or a command, asks about the last entry of its log. */
  lemma FirstRequest(p: Peer, to: nat, command: Command)
    requires p.Window() && to < p.size && to != p.me && p.lastApplied <= p.LastIndex()
    ensures var leader := BecomeLeader(p);
            var beat, start := HeartBeat(leader), StartCommand(leader, command);
            && leader.matchIndex[to] == p.snapshot.index && leader.nextIndex[to] == p.LastIndex() + 1
            && StillSends(beat, 0, to) && CanBuild(beat, 0, to) && StillSends(start, 0, to) && CanBuild(start, 0, to)
            && BuildAppend(beat, 0, to)
            == AppendArgs(p.currentTerm, p.me, p.LastIndex(), p.Last().term, [], p.commitIndex, p.snapshot)
            && BuildAppend(start, 0, to)
            == BuildAppend(beat, 0, to).(entries := [LogEntry(p.LastIndex() + 1, p.currentTerm, Some(command))])
  {
  }

  /** A request asks about the entry before the next index, and carries all entries from there to that of its broadcast
      which the log still has. */
  lemma RequestByIndex(p: Peer, call: nat, to: nat)
    requires p.Window() && StillSends(p, call, to) && CanBuild(p, call, to)
    ensures var args, next, last := BuildAppend(p, call, to), p.nextIndex[to], p.calls[call].index;
            var first := Later(next, p.snapshot.index);
            && args.term == p.currentTerm && args.leaderId == p.me && args.snapshot == p.snapshot
            && args.leaderCommit == p.calls[call].commitIndex
            && args.prevLogIndex == next - 1
            && args.prevLogTerm == (if p.snapshot.index < next then p.At(next - 1).term else p.snapshot.term)
            && |args.entries| == (if next <= last && first <= last then last + 1 - first else 0)
            && forall k | 0 <= k < |args.entries| :: args.entries[k] == p.At(first + k)
  {
  }

  /** After a success the broadcast has nothing left to send to that peer. */
  lemma NothingResent(p: Peer, from: nat, call: nat)
    requires call < |p.calls| && from < |p.nextIndex| == |p.matchIndex|
    requires p.calls[call].index < p.snapshot.index + |p.log|
    ensures var q, index := CountSuccess(p, from, call), p.calls[call].index;
            && index < q.nextIndex[from]
            && (p.nextIndex[from] <= index ==> q.nextIndex[from] == index + 1 && q.matchIndex[from] == index)
            && (StillSends(q, call, from) && CanBuild(q, call, from) ==> BuildAppend(q, call, from).entries == [])
            && forall i | 0 <= i < |p.nextIndex| && i != from ::
                 q.nextIndex[i] == p.nextIndex[i] && q.matchIndex[i] == p.matchIndex[i]
  {
  }

  // ---------------------------------------------------------------- requests at a follower

  /** A request that asks about an entry inside the receiver's snapshot is always accepted. */
  lemma InsideSnapshotAccepted(p: Peer, args: AppendArgs)
    requires p.Window() && p.log[0].term == p.snapshot.term
    requires p.currentTerm <= args.term && args.prevLogIndex < p.snapshot.index
    ensures AppendEntries(p, args).1.success
  {
  }

  /** The commit index follows the leader's, but not beyond the entries of the request. */
  lemma CommitWithinRequest(p: Peer, args: AppendArgs)
    requires 0 <= args.prevLogIndex
    ensures var r, end := CommitAfter(p, args), args.prevLogIndex + |args.entries|;
            if args.leaderCommit <= p.commitIndex then r == p.commitIndex
            else r <= args.leaderCommit && r <= end && (r == args.leaderCommit || r == end)
  {
  }

  /** `q` has entries of these terms right after index `prev`, what p has up to it, and reaches at least as far. */
  ghost predicate Has(p: Peer, q: Peer, prev: nat, entries: seq<LogEntry>) {
    && p.Window() && q.Window() && p.snapshot.index <= prev <= p.LastIndex() && prev + |entries| <= q.LastIndex()
    && (forall k | 0 <= k < |entries| && q.snapshot.index < prev + 1 + k ::
          q.At(prev + 1 + k).term == entries[k].term)
    && (forall i | p.snapshot.index <= i <= prev && q.snapshot.index < i :: q.At(i) == p.At(i))
  }

  lemma HasAlready(p: Peer, prev: nat, entries: seq<LogEntry>)
    requires p.Window() && p.snapshot.index <= prev <= p.LastIndex() && AlreadyHas(p, prev, entries)
    ensures Has(p, p, prev, entries)
  {
    if |entries| > 0 {
      var last := |entries| - 1;
      assert entries[last] in entries;
      assert prev + 1 + last <= p.LastIndex();
    }
  }

  lemma HasJoined(p: Peer, q: Peer, prev: nat, entries: seq<LogEntry>)
    requires p.Window() && p.snapshot.index <= prev <= p.LastIndex() && q.snapshot == p.snapshot
    requires q.log == p.log[..prev + 1 - p.snapshot.index] + entries
    requires forall k | 0 <= k < |entries| :: entries[k].index == prev + 1 + k
    ensures Has(p, q, prev, entries)
  {
    var n := prev + 1 - p.snapshot.index;
    var head := p.log[..n];
    JoinedWindow(head, entries, p.snapshot.index);
    forall k | 0 <= k < |entries| ensures q.At(prev + 1 + k) == entries[k] { assert q.log[n + k] == entries[k]; }
    forall i | p.snapshot.index <= i <= prev ensures q.At(i) == p.At(i) {
      assert q.log[i - p.snapshot.index] == head[i - p.snapshot.index];
    }
  }

  lemma JoinedWindow(head: seq<LogEntry>, entries: seq<LogEntry>, first: nat)
    requires Unbroken(head, first) && forall k | 0 <= k < |entries| :: entries[k].index == first + |head| + k
    ensures Unbroken(head + entries, first)
  {
    if entries == [] {
      assert head + entries == head;
    } else {
      UnbrokenJoin(head, entries, first);
    }
  }

  lemma SplicedByIndex(p: Peer, a: AppendArgs)
    requires p.Window() && SliceOk(a) && p.snapshot.index <= a.prevLogIndex <= p.LastIndex()
    requires |a.entries| > 0 ==> a.entries[0].index == a.prevLogIndex + 1
    ensures Has(p, p.(log := Spliced(p, a)), a.prevLogIndex, a.entries)
  {
    if AlreadyHas(p, a.prevLogIndex, a.entries) {
      HasAlready(p, a.prevLogIndex, a.entries);
    } else {
      HasJoined(p, p.(log := Spliced(p, a)), a.prevLogIndex, a.entries);
    }
  }

  lemma HasAfterAdopting(p: Peer, q: Peer, prev: nat, entries: seq<LogEntry>, snapshot: Snapshot)
    requires Has(p, q, prev, entries) && q.snapshot.index == p.snapshot.index
    ensures Has(p, AdoptSnapshot(q, snapshot), prev, entries)
  {
    AdoptingKeeps(q, snapshot);
  }

  /** An accepted request whose entries follow on its previous one leaves the follower with entries of their terms at
      their indices, with what it had up to the previous one, and with a log that reaches at least as far. */
  lemma AcceptedByIndex(p: Peer, a: AppendArgs)
    requires p.Window() && SliceOk(a) && p.snapshot.index <= a.prevLogIndex <= p.LastIndex()
    requires |a.entries| > 0 ==> a.entries[0].index == a.prevLogIndex + 1
    ensures Has(p, Accept(p, a), a.prevLogIndex, a.entries)
  {
    SplicedByIndex(p, a);
    HasAfterAdopting(p, p.(log := Spliced(p, a)), a.prevLogIndex, a.entries, a.snapshot);
    SameHas(p, AdoptSnapshot(p.(log := Spliced(p, a)), a.snapshot), Accept(p, a), a.prevLogIndex, a.entries);
  }

  lemma SameHas(p: Peer, q: Peer, r: Peer, prev: nat, entries: seq<LogEntry>)
    requires Has(p, q, prev, entries) && r.log == q.log && r.snapshot == q.snapshot
    ensures Has(p, r, prev, entries)
  {
  }

  /** One whose entries begin at the sender's snapshot, beyond what it asked about, replaces the log by them, unless the
      follower has their terms at the positions that follow. */
  lemma AcceptedAcrossGap(p: Peer, a: AppendArgs)
    requires p.Window() && SliceOk(a) && p.snapshot.index <= a.prevLogIndex <= p.LastIndex()
    requires |a.entries| > 0 && a.prevLogIndex + 1 < a.entries[0].index
    requires !AlreadyHas(p, a.prevLogIndex, a.entries)
    ensures Accept(p, a).log == a.entries && Accept(p, a).snapshot == a.snapshot
  {
    var log := Spliced(p, a);
    var n := a.prevLogIndex + 1 - p.snapshot.index;
    PositionMeaning(log, a.snapshot.index);
    assert log[n] == a.entries[0];
    assert forall k | 0 <= k < n :: log[k] == p.log[k];
    assert log[n..] == a.entries;
  }

  // ---------------------------------------------------------------- the searches of the fast back-up

  /** The greatest index above the floor with this term, or the floor. */
  lemma {:induction false} SearchDownByIndex(p: Peer, index: nat, term: nat, floor: nat)
    requires index - p.snapshot.index < |p.log|
    ensures var r := SearchDown(p, index, term, floor);
            && (floor < r ==> p.At(r).term == term) && (floor <= index ==> floor <= r)
            && forall i | r < i <= index && floor < i :: p.At(i).term != term
    decreases index
  {
    if floor < index && p.At(index).term != term {
      SearchDownByIndex(p, index - 1, term, floor);
    }
  }

  /** The end of the run of this term that goes on after the index, below the limit. */
  lemma {:induction false} SearchUpByIndex(p: Peer, index: nat, term: nat, limit: nat)
    requires limit - p.snapshot.index <= |p.log|
    ensures var r := SearchUp(p, index, term, limit);
            && (forall i | index < i <= r :: p.At(i).term == term)
            && (r + 1 < limit ==> p.At(r + 1).term != term)
    decreases limit - index
  {
    if index + 1 < limit && p.At(index + 1).term == term {
      SearchUpByIndex(p, index + 1, term, limit);
    }
  }

  /** The first index above the floor of the run of terms that ends at the index. */
  lemma {:induction false} RunStartByIndex(p: Peer, index: nat, floor: nat)
    requires floor < index && index - p.snapshot.index < |p.log|
    ensures var r := RunStart(p, index, floor);
            && floor < r <= index
            && (forall i | r <= i <= index :: p.At(i).term == p.At(index).term)
            && (r > floor + 1 ==> p.At(r - 1).term != p.At(index).term)
    decreases index
  {
    if index > floor + 1 && p.At(index - 1).term == p.At(index).term {
      RunStartByIndex(p, index - 1, floor);
    }
  }

  /** A refusal names the first index, above the follower's snapshot, of the run of terms that stands in the way; or the
      end of a log that is too short. */
  lemma RefusalByIndex(p: Peer, args: AppendArgs)
    requires p.Window() && p.snapshot.index < args.prevLogIndex && !Consistent(p, args)
    ensures var r, prev := Refusal(p, args), args.prevLogIndex;
            && r.term == p.currentTerm && !r.success
            && if p.LastIndex() <= prev then r.conflictIndex == p.LastIndex() && r.conflictTerm == 0
               else
                 && p.snapshot.index < r.conflictIndex <= prev && r.conflictTerm == p.At(prev).term != args.prevLogTerm
                 && (forall i | r.conflictIndex <= i <= prev :: p.At(i).term == r.conflictTerm)
                 && (p.snapshot.index + 1 < r.conflictIndex ==> p.At(r.conflictIndex - 1).term != r.conflictTerm)
  {
    if args.prevLogIndex < p.LastIndex() { RunStartByIndex(p, args.prevLogIndex, p.snapshot.index); }
  }

  /** Where the leader retries: at the index that a short log ends with, or where its own term is already earlier; else
      right after its own last entry of the follower's term, below the request, if it has one from there on down. */
  lemma BackUpByIndex(p: Peer, reply: AppendReply, next: nat)
    requires p.Window() && CanBackUp(p, reply, next) && reply.conflictIndex < next
    ensures var r := BackUp(p, reply, next);
            var at, term := reply.conflictIndex, reply.conflictTerm;
            if term == 0 || p.At(at).term < term then r == at
            else
              var found := SearchDown(p, at, term, p.snapshot.index);
              && (found == 0 ==> r == at)
              && (found > 0 ==>
                    && found < r <= Later(next, found + 1) && (r < next ==> p.At(r).term != term)
                    && forall i | found < i < r :: p.At(i).term == term)
  {
    if reply.conflictTerm != 0 && reply.conflictTerm <= p.At(reply.conflictIndex).term {
      var found := SearchDown(p, reply.conflictIndex, reply.conflictTerm, p.snapshot.index);
      SearchUpByIndex(p, found, reply.conflictTerm, next);
    }
  }
}
