/** The Raft object of raft.go and its persister, updated in place. Each method is proved to do to the
    object exactly what the function of the same step in RaftState does to its value. */
module RaftPeer {
  import opened Options
  import opened RaftState
  import S = RaftState

  class Persister {
    var raftstate: Option<Encoded>
    var snapshot: Bytes

    function Contents(): Disk
      reads this
    {
      Disk(raftstate, snapshot)
    }

    constructor ()
      ensures Contents() == Disk(None, [])
    {
      raftstate, snapshot := None, [];
    }

    method SaveStateAndSnapshot(state: Encoded, data: Bytes)
      modifies this
      ensures Contents() == Disk(Some(state), data)
    {
      raftstate := Some(state);
      snapshot := data;
    }

    method Copy() returns (np: Persister)
      ensures fresh(np) && np.Contents() == Contents()
    {
      np := new Persister();
      np.raftstate := raftstate;
      np.snapshot := snapshot;
    }
  }

  class Raft {
    const me: nat
    const size: nat
    const persister: Persister
    /** What readPersist put on the channel to the service. */
    var restored: seq<ApplyMsg>
    var role: Role
    var currentTerm: nat
    var votedFor: int
    var log: seq<LogEntry>
    var commitIndex: nat
    var lastApplied: nat
    var nextIndex: seq<nat>
    var matchIndex: seq<nat>
    var snapshot: Snapshot
    var voters: set<nat>
    var calls: seq<Broadcast>

    ghost function View(): Peer
      reads this, persister
    {
      Peer(me, size, role, currentTerm, votedFor, log, commitIndex, lastApplied, nextIndex, matchIndex,
           snapshot, voters, calls, persister.Contents())
    }

    constructor (me: nat, size: nat, persister: Persister)
      ensures this.persister == persister && View() == S.Make(me, size, persister.Contents())
      ensures restored == S.Restored(View())
    {
      this.me, this.size, this.persister := me, size, persister;
      role, currentTerm, votedFor, log := Follower, 0, NO_VOTE, [SENTINEL];
      commitIndex, lastApplied := 0, 0;
      nextIndex, matchIndex := seq(size, _ => 0), seq(size, _ => 0);
      snapshot, voters, calls := Snapshot(0, 0, []), {}, [];
      restored := [];
      new;
      ReadPersist();
    }

    method ReadPersist()
      requires View() == Blank(me, size, persister.Contents()) && restored == []
      modifies this
      ensures View() == S.Make(me, size, persister.Contents()) && restored == S.Restored(View())
    {
      if persister.raftstate.Some? {
        TakeOver(persister.raftstate.value);
        if snapshot.index > 0 {
          restored := [SnapshotMsg(snapshot)];
        }
      }
    }

    /** The decoded state replaces what was there. */
    method TakeOver(e: Encoded)
      requires persister.raftstate == Some(e) && View() == Blank(me, size, persister.Contents())
      modifies this
      ensures View() == S.Make(me, size, persister.Contents()) && restored == old(restored)
    {
      currentTerm, votedFor, log, commitIndex := e.term, e.votedFor, e.log, e.commitIndex;
      if |log| == 0 {
        log := log + [LogEntry(e.snapshotIndex, e.snapshotTerm, None)];
      }
      lastApplied := e.snapshotIndex;
      snapshot := Snapshot(e.snapshotIndex, e.snapshotTerm, persister.snapshot);
    }

    /** Saves the state; `notice` says whether the service is told to check its size. */
    method Persist() returns (notice: bool)
      modifies persister
      ensures View() == old(View()).Persisted() && (notice <==> lastApplied <= snapshot.index)
    {
      persister.SaveStateAndSnapshot(
        Encoded(currentTerm, votedFor, log, snapshot.index, snapshot.term, commitIndex), snapshot.storage);
      if lastApplied > snapshot.index {
        return false;
      }
      notice := true;
    }

    method GetLogByIndex(index: int) returns (entry: LogEntry)
      requires index - snapshot.index < |log|
      ensures entry == View().At(index)
      ensures snapshot.index <= index ==> entry == log[index - snapshot.index]
      ensures index < snapshot.index ==> entry.index == snapshot.index && entry.term == snapshot.term
    {
      if index < snapshot.index {
        entry := LogEntry(snapshot.index, snapshot.term, None);
      } else {
        entry := log[index - snapshot.index];
      }
    }

    method GetLastLog() returns (entry: LogEntry)
      ensures entry == View().Last()
      ensures |log| > 0 ==> entry == log[|log| - 1]
    {
      if |log| == 0 {
        entry := LogEntry(snapshot.index, snapshot.term, None);
      } else {
        entry := log[|log| - 1];
      }
    }

    // -------------------------------------------------------------- elections

    method FallBack(term: nat)
      modifies this, persister
      ensures View() == S.StepDown(old(View()), term)
    {
      currentTerm, votedFor, role := term, NO_VOTE, Follower;
      var _ := Persist();
    }

    method RequestVote(args: VoteArgs) returns (reply: VoteReply)
      modifies this, persister
      ensures (View(), reply) == S.RequestVote(old(View()), args)
    {
      if currentTerm <= args.term {
        if currentTerm < args.term {
          FallBack(args.term);
        }
        if votedFor == NO_VOTE || votedFor == args.candidateId {
          var last := GetLastLog();
          if last.term < args.lastLogTerm || (last.term == args.lastLogTerm && last.index <= args.lastLogIndex) {
            votedFor, role := args.candidateId, Follower;
            var _ := Persist();
            return VoteReply(currentTerm, true);
          }
        }
      }
      return VoteReply(currentTerm, false);
    }

    method StartOneElection() returns (ballot: VoteArgs)
      modifies this, persister
      ensures View() == S.StartElection(old(View())) && ballot == BallotOf(View())
    {
      role, currentTerm, votedFor, voters := Candidate, currentTerm + 1, me, {};
      var _ := Persist();
      var last := GetLastLog();
      ballot := VoteArgs(currentTerm, me, last.index, last.term);
    }

    method ResetPeerIndices(next: nat, matched: nat)
      modifies this`nextIndex, this`matchIndex
      ensures nextIndex == seq(size, _ => next) && matchIndex == seq(size, _ => matched)
    {
      nextIndex, matchIndex := [], [];
      for i := 0 to size
        invariant nextIndex == seq(i, _ => next) && matchIndex == seq(i, _ => matched)
      {
        nextIndex, matchIndex := nextIndex + [next], matchIndex + [matched];
      }
    }

    method HandleVoteReply(from: nat, term: nat, reply: VoteReply)
      modifies this, persister
      ensures View() == CountVote(old(View()), from, term, reply)
    {
      if currentTerm != term {
        return;
      }
      if !reply.granted {
        if currentTerm < reply.term {
          FallBack(reply.term);
        }
      } else {
        voters := voters + {from};
        if role == Candidate && 1 + |voters| >= size / 2 + 1 {
          TakeOffice();
        }
      }
    }

    method TakeOffice()
      modifies this, persister
      ensures View() == BecomeLeader(old(View()))
    {
      ResetPeerIndices(|log| + snapshot.index, snapshot.index);
      role, calls := Leader, [];
      var _ := Persist();
    }

    // -------------------------------------------------------------- replication, leader side

    method Start(command: Command) returns (index: int, term: nat, isLeader: bool)
      modifies this, persister
      ensures View() == StartCommand(old(View()), command)
      ensures isLeader <==> old(role) == Leader
      ensures term == currentTerm
      ensures isLeader ==> index >= 0 && |log| == old(|log|) + 1
      ensures isLeader ==> log[|log| - 1] == LogEntry(index, term, Some(command))
    {
      index, term, isLeader := -1, currentTerm, role == Leader;
      if isLeader {
        var entry := LogEntry(snapshot.index + |log|, currentTerm, Some(command));
        log := log + [entry];
        index := entry.index;
        var _ := Persist();
        calls := calls + [Broadcast(index, currentTerm, commitIndex, {}, false)];
      }
    }

    method BroadcastHeartBeat()
      modifies this
      ensures View() == HeartBeat(old(View()))
    {
      if role == Leader {
        var last := GetLastLog();
        calls := calls + [Broadcast(last.index, currentTerm, commitIndex, {}, false)];
      }
    }

    /** One turn of the goroutine of broadcast `call` for peer `to`, up to the sending of its request. */
    method SendAppendEntries(call: nat, to: nat) returns (args: Option<AppendArgs>)
      requires StillSends(View(), call, to) ==> CanBuild(View(), call, to)
      ensures args.Some? <==> StillSends(View(), call, to)
      ensures args.Some? <==>
        && role == Leader && call < |calls| && calls[call].term == currentTerm
        && lastApplied <= calls[call].index && to < |nextIndex| && to != me
      ensures args.Some? ==> args.value == BuildAppend(View(), call, to)
    {
      if role != Leader || call >= |calls| || to >= |nextIndex| || to == me {
        return None;
      }
      var b := calls[call];
      if currentTerm != b.term || b.index < lastApplied {
        return None;
      }
      var offset, next := snapshot.index, nextIndex[to];
      var prev := GetLogByIndex(next - 1);
      var entries := [];
      if next < b.index + 1 {
        if next - offset < 0 {
          entries := log[..b.index - offset + 1];
        } else {
          entries := log[next - offset..b.index - offset + 1];
        }
      }
      return Some(AppendArgs(b.term, me, next - 1, prev.term, entries, b.commitIndex, snapshot));
    }

    method GetNextIndex(reply: AppendReply, nextIndex: nat) returns (next: nat)
      requires CanBackUp(View(), reply, nextIndex)
      ensures next == BackUp(View(), reply, nextIndex)
    {
      next := reply.conflictIndex;
      if reply.conflictTerm != 0 {
        var conflictIndex: nat := reply.conflictIndex;
        var here := GetLogByIndex(conflictIndex);
        if here.term >= reply.conflictTerm {
          while conflictIndex > snapshot.index
            invariant conflictIndex <= reply.conflictIndex
            invariant SearchDown(View(), conflictIndex, reply.conflictTerm, snapshot.index)
                   == SearchDown(View(), reply.conflictIndex, reply.conflictTerm, snapshot.index)
          {
            var entry := GetLogByIndex(conflictIndex);
            if entry.term == reply.conflictTerm {
              break;
            }
            conflictIndex := conflictIndex - 1;
          }
          if conflictIndex != 0 {
            ghost var found := conflictIndex;
            var i := conflictIndex + 1;
            while i < nextIndex
              invariant i == conflictIndex + 1
              invariant SearchUp(View(), conflictIndex, reply.conflictTerm, nextIndex)
                     == SearchUp(View(), found, reply.conflictTerm, nextIndex)
            {
              var entry := GetLogByIndex(i);
              if entry.term != reply.conflictTerm {
                break;
              }
              conflictIndex := conflictIndex + 1;
              i := i + 1;
            }
            next := conflictIndex + 1;
          }
        }
      }
    }

    method HandleAppendReply(from: nat, call: nat, args: AppendArgs, reply: AppendReply)
      requires CanCountAppend(View(), from, call, args, reply)
      modifies this, persister
      ensures View() == CountAppend(old(View()), from, call, args, reply)
    {
      if currentTerm != args.term || call >= |calls| || calls[call].term != args.term {
        return;
      }
      if !reply.success {
        if args.term < reply.term {
          FallBack(reply.term);
        } else {
          var next := GetNextIndex(reply, args.prevLogIndex + 1);
          nextIndex := nextIndex[from := next];
        }
      } else {
        var b := calls[call];
        if nextIndex[from] < b.index + 1 {
          nextIndex := nextIndex[from := b.index + 1];
          matchIndex := matchIndex[from := b.index];
        }
        b := b.(acks := b.acks + {from});
        if !b.agreed && role == Leader && 1 + |b.acks| >= size / 2 + 1 {
          b := b.(agreed := true);
          var entry := GetLogByIndex(b.index);
          if commitIndex < b.index && entry.term == currentTerm {
            commitIndex := b.index;
          }
        }
        calls := calls[call := b];
      }
    }
  
    // -------------------------------------------------------------- replication, follower side

    method UpdateSnapshot(snapshot: Snapshot)
      modifies this
      ensures View() == AdoptSnapshot(old(View()), snapshot)
    {
      if snapshot.index > this.snapshot.index {
        this.snapshot := snapshot;
        var start := 0;
        while start < |log|
          invariant 0 <= start <= |log|
          invariant Position(log, snapshot.index) == start + Position(log[start..], snapshot.index)
          invariant View() == old(View()).(snapshot := snapshot)
        {
          if log[start].index == snapshot.index {
            break;
          }
          assert log[start..][1..] == log[start + 1..];
          start := start + 1;
        }
        if start == |log| {
          log := [LogEntry(snapshot.index, snapshot.term, None)];
        } else {
          log := log[start..];
        }
      }
    }

    method ClipArgs(args: AppendArgs) returns (clipped: AppendArgs)
      ensures clipped == Clip(View(), args)
    {
      clipped := args;
      if args.prevLogIndex < snapshot.index {
        var start := 0;
        while start < |args.entries|
          invariant 0 <= start <= |args.entries|
          invariant DropThrough(args.entries, snapshot.index) == DropThrough(args.entries[start..], snapshot.index)
        {
          if args.entries[start].index > snapshot.index {
            break;
          }
          assert args.entries[start..][1..] == args.entries[start + 1..];
          start := start + 1;
        }
        clipped := args.(prevLogIndex := snapshot.index, prevLogTerm := snapshot.term,
          entries := args.entries[start..]);
      }
    }

    method HasEntries(prev: nat, entries: seq<LogEntry>) returns (isMatch: bool)
      requires View().Window() && snapshot.index <= prev
      ensures isMatch <==> AlreadyHas(View(), prev, entries)
    {
      var last := GetLastLog();
      for i := 0 to |entries|
        invariant AlreadyHas(View(), prev, entries[..i])
      {
        assert entries[..i + 1][i] == entries[i];
        if last.index < prev + 1 + i {
          return false;
        }
        var entry := GetLogByIndex(prev + 1 + i);
        if entry.term != entries[i].term {
          return false;
        }
      }
      assert entries[..|entries|] == entries;
      return true;
    }

    method Refuse(args: AppendArgs) returns (reply: AppendReply)
      requires View().Window() && snapshot.index <= args.prevLogIndex
      ensures reply == Refusal(View(), args)
    {
      var last := GetLastLog();
      if last.index < args.prevLogIndex + 1 {
        return AppendReply(currentTerm, false, last.index, 0);
      }
      var conflict := GetLogByIndex(args.prevLogIndex);
      var conflictIndex: nat, offset := args.prevLogIndex, snapshot.index;
      var i := conflictIndex - 1;
      while i > offset
        invariant i == conflictIndex - 1
        invariant offset <= conflictIndex <= args.prevLogIndex
        invariant View().At(conflictIndex).term == conflict.term
        invariant RunStart(View(), conflictIndex, offset) == RunStart(View(), args.prevLogIndex, offset)
      {
        var entry := GetLogByIndex(i);
        if entry.term != conflict.term {
          break;
        }
        conflictIndex := conflictIndex - 1;
        i := i - 1;
      }
      return AppendReply(currentTerm, false, conflictIndex, conflict.term);
    }

    method AppendEntries(args: AppendArgs) returns (reply: AppendReply)
      requires View().Window()
      modifies this, persister
      ensures (View(), reply) == S.AppendEntries(old(View()), args)
    {
      if args.term < currentTerm {
        return AppendReply(currentTerm, false, 0, 0);
      }
      if currentTerm < args.term {
        FallBack(args.term);
      }
      var a := ClipArgs(args);
      var last := GetLastLog();
      if last.index >= a.prevLogIndex {
        var prev := GetLogByIndex(a.prevLogIndex);
        if prev.term == a.prevLogTerm {
          TakeEntries(a);
          return AppendReply(currentTerm, true, 0, 0);
        }
      }
      reply := Refuse(a);
    }

    method CopyEntries(args: AppendArgs)
      requires View().Window() && snapshot.index <= args.prevLogIndex <= View().LastIndex()
      modifies this`log
      ensures log == old(Spliced(View(), args))
    {
      var isMatch := HasEntries(args.prevLogIndex, args.entries);
      if !isMatch {
        var last := GetLastLog();
        if args.prevLogIndex == last.index {
          assert log[..args.prevLogIndex + 1 - snapshot.index] == log;
          log := log + args.entries;
        } else {
          log := log[..args.prevLogIndex + 1 - snapshot.index] + args.entries;
        }
      }
    }

    /** The part of AppendEntries after the previous entry was found consistent. */
    method TakeEntries(args: AppendArgs)
      requires View().Window() && snapshot.index <= args.prevLogIndex <= View().LastIndex()
      modifies this, persister
      ensures View() == Accept(old(View()), args)
    {
      CopyEntries(args);
      role := Follower;
      CommitUpTo(args);
      UpdateSnapshot(args.snapshot);
      var _ := Persist();
    }

    method CommitUpTo(args: AppendArgs)
      requires 0 <= args.prevLogIndex
      modifies this`commitIndex
      ensures commitIndex == old(CommitAfter(View(), args))
    {
      var indexOfLastNewEntry := args.prevLogIndex + |args.entries|;
      if args.leaderCommit > commitIndex {
        commitIndex := args.leaderCommit;
        if commitIndex > indexOfLastNewEntry {
          commitIndex := indexOfLastNewEntry;
        }
      }
    }

    // -------------------------------------------------------------- applying and compacting

    method Apply() returns (sent: seq<ApplyMsg>)
      requires CanApply(View())
      modifies this
      ensures (View(), sent) == S.Apply(old(View()))
    {
      sent := [];
      if lastApplied < snapshot.index {
        sent := [SnapshotMsg(snapshot)];
        lastApplied := snapshot.index;
      }
      if commitIndex < snapshot.index {
        return;
      }
      if lastApplied != commitIndex {
        var commands := ApplyCommands();
        assert commands == [] ==> sent + commands == sent;
        sent := sent + commands;
      }
    }

    method ApplyCommands() returns (sent: seq<ApplyMsg>)
      requires CanApply(View())
      modifies this`lastApplied
      ensures sent == Commands(old(View()), old(lastApplied) + 1, commitIndex)
      ensures lastApplied == if old(lastApplied) < commitIndex then commitIndex else old(lastApplied)
    {
      ghost var p := View();
      sent := [];
      var i := lastApplied + 1;
      while i <= commitIndex
        invariant old(lastApplied) < i
        invariant if old(lastApplied) < commitIndex then i <= commitIndex + 1 else i == old(lastApplied) + 1
        invariant lastApplied == i - 1
        invariant sent + Commands(p, i, commitIndex) == Commands(p, old(lastApplied) + 1, commitIndex)
      {
        var entry := GetLogByIndex(i);
        ghost var first, rest := [CommandMsg(i, entry.command)], Commands(p, i + 1, commitIndex);
        assert Commands(p, i, commitIndex) == first + rest && sent + (first + rest) == (sent + first) + rest;
        lastApplied := i;
        sent := sent + [CommandMsg(i, entry.command)];
        i := i + 1;
      }
    }

    method SaveSnapshot(index: nat, storage: Bytes)
      requires index < snapshot.index + |log|
      modifies this, persister
      ensures View() == S.SaveSnapshot(old(View()), index, storage)
    {
      var offset := snapshot.index;
      if index > snapshot.index {
        var entry := GetLogByIndex(index);
        snapshot := Snapshot(index, entry.term, storage);
        log := log[index - offset..];
        var _ := Persist();
      }
    }
  }
}
