/** Nothing is invented: every command in a log, in a request or handed to a service was started by a client before. */
module RaftOrigins {
  import opened Options
  import opened RaftState
  import opened RaftCluster
  import opened RaftHistory
  import opened RaftSafety
  import opened RaftEveryRun
  import opened RaftDeliveries

  /** A client hands this command to Start. */
  predicate Begins(step: Step, command: Command) {
    step.ClientStart? && step.command == command
  }

  ghost predicate Begun(steps: seq<Step>, i: nat, command: Command) {
    exists k: nat :: k < i && k < |steps| && Begins(steps[k], command)
  }

  /** The command of the entry was started before moment i; only compaction leaves other entries than the first one
      without a command. */
  ghost predicate Made(steps: seq<Step>, i: nat, compacting: bool, e: LogEntry) {
    match e.command
    case Some(command) => Begun(steps, i, command)
    case None => compacting || e == SENTINEL
  }

  ghost predicate AllMade(steps: seq<Step>, i: nat, compacting: bool, log: seq<LogEntry>) {
    forall x | 0 <= x < |log| :: Made(steps, i, compacting, log[x])
  }

  lemma MadeOn(steps: seq<Step>, i: nat, j: nat, compacting: bool, e: LogEntry)
    requires Made(steps, i, compacting, e) && i <= j
    ensures Made(steps, j, compacting, e)
  {
    if e.command.Some? {
      var k: nat :| k < i && k < |steps| && Begins(steps[k], e.command.value);
      assert k < j && Begins(steps[k], e.command.value);
    }
  }

  lemma AllMadeOn(steps: seq<Step>, i: nat, j: nat, compacting: bool, log: seq<LogEntry>)
    requires AllMade(steps, i, compacting, log) && i <= j
    ensures AllMade(steps, j, compacting, log)
  {
    forall x | 0 <= x < |log| ensures Made(steps, j, compacting, log[x]) { MadeOn(steps, i, j, compacting, log[x]); }
  }

  // ---------------------------------------------------------------- where the entries of a log come from

  lemma {:induction false} DropThroughPart(entries: seq<LogEntry>, index: nat, e: LogEntry)
    requires e in DropThrough(entries, index)
    ensures e in entries
  {
    if |entries| > 0 && entries[0].index <= index { DropThroughPart(entries[1..], index, e); }
  }

  /** What is in a log after an append was in it before or in the request, unless a snapshot has taken its place. */
  lemma AppendedFrom(p: Peer, args: AppendArgs, e: LogEntry)
    requires p.Window() && e in AppendEntries(p, args).0.log
    ensures e in p.log || e in args.entries || (e.command == None && 0 < args.snapshot.index)
  {
    if p.currentTerm <= args.term {
      var q := if p.currentTerm < args.term then StepDown(p, args.term) else p;
      var a := Clip(q, args);
      if Consistent(q, a) {
        if e in a.entries && e !in args.entries { DropThroughPart(args.entries, q.snapshot.index, e); }
        AcceptedFrom(q, a, e);
      }
    }
  }

  lemma AcceptedFrom(p: Peer, a: AppendArgs, e: LogEntry)
    requires p.Window() && p.snapshot.index <= a.prevLogIndex <= p.LastIndex() && e in Accept(p, a).log
    ensures e in p.log || e in a.entries || (e.command == None && 0 < a.snapshot.index)
  {
  }

  ghost predicate ComesFrom(p: Peer, step: Step, e: LogEntry) {
    || e in p.log
    || (step.ClientStart? && e.command == Some(step.command))
    || (step.ReceiveAppendRequest? && step.m.AppendRequest?
        && (e in step.m.args.entries || (e.command == None && 0 < step.m.args.snapshot.index)))
  }

  lemma LogAfter(c: Cluster, step: Step, e: LogEntry)
    requires Sound(c) && Enabled(c, step) && e in After(c, step).peers[SiteOf(step)].log
    ensures ComesFrom(c.peers[SiteOf(step)], step, e)
  {
    assert SoundPeer(|c.peers|, SiteOf(step), c.peers[SiteOf(step)]);
    if step.ReceiveAppendRequest? { AppendedFrom(c.peers[step.m.dst], step.m.args, e); }
  }

  lemma EntriesAfter(c: Cluster, step: Step, m: Message, e: LogEntry)
    requires Enabled(c, step) && m in After(c, step).net && m.AppendRequest? && m !in c.net && e in m.args.entries
    ensures e in c.peers[SiteOf(step)].log
  {
  }

  // ---------------------------------------------------------------- every run

  ghost predicate PeersMade(run: seq<Cluster>, steps: seq<Step>, compacting: bool, i: nat)
    requires i < |run|
  {
    forall s: nat | s < |run[i].peers| :: PeerMade(run, steps, compacting, i, s)
  }

  ghost predicate PeerMade(run: seq<Cluster>, steps: seq<Step>, compacting: bool, i: nat, s: nat)
    requires i < |run| && s < |run[i].peers|
  {
    AllMade(steps, i, compacting, run[i].peers[s].log)
  }

  ghost predicate NetMade(run: seq<Cluster>, steps: seq<Step>, compacting: bool, i: nat)
    requires i < |run|
  {
    forall m | m in run[i].net && m.AppendRequest? :: AllMade(steps, i, compacting, m.args.entries)
  }

  /** Without compaction no request carries a snapshot. */
  ghost predicate Bare(c: Cluster, compacting: bool) {
    !compacting ==> forall m | m in c.net && m.AppendRequest? :: m.args.snapshot.index == 0
  }

  lemma RunIsBare(run: seq<Cluster>, size: nat, compacting: bool, i: nat)
    requires IsRun(run, size, compacting) && i < |run|
    ensures Bare(run[i], compacting)
  {
    if !compacting {
      var hs := HistoryOf(run, size);
      assert Inv(run[i], hs[i]);
      forall m | m in run[i].net && m.AppendRequest? ensures m.args.snapshot.index == 0 {
        assert MessageOk(run[i], hs[i], m);
      }
    }
  }

  lemma PlainRun(run: seq<Cluster>, size: nat, compacting: bool)
    requires IsRun(run, size, compacting)
    ensures IsRun(run, size, true)
  {
    forall i: nat | i + 1 < |run| ensures NextAt(run, i, true) { assert NextAt(run, i, compacting); }
  }

  lemma EntryStaysMade(run: seq<Cluster>, steps: seq<Step>, compacting: bool, i: nat, s: nat, e: LogEntry)
    requires i < |steps| && i + 1 < |run| && StepAt(run, steps, i, compacting) && Sound(run[i])
    requires Bare(run[i], compacting) && s < |run[i].peers| == |run[i + 1].peers| && e in run[i + 1].peers[s].log
    requires PeersMade(run, steps, compacting, i) && NetMade(run, steps, compacting, i)
    ensures Made(steps, i + 1, compacting, e)
  {
    assert PeerMade(run, steps, compacting, i, s);
    if e in run[i].peers[s].log {
      MadeOn(steps, i, i + 1, compacting, e);
    } else {
      LogAfter(run[i], steps[i], e);
      if steps[i].ClientStart? {
        assert i < i + 1 && Begins(steps[i], steps[i].command);
      } else {
        assert AllMade(steps, i, compacting, steps[i].m.args.entries);
        if e in steps[i].m.args.entries { MadeOn(steps, i, i + 1, compacting, e); }
      }
    }
  }

  lemma NetStaysMade(run: seq<Cluster>, steps: seq<Step>, compacting: bool, i: nat)
    requires i < |steps| && i + 1 < |run| && StepAt(run, steps, i, compacting)
    requires PeersMade(run, steps, compacting, i) && NetMade(run, steps, compacting, i)
    ensures NetMade(run, steps, compacting, i + 1)
  {
    forall m | m in run[i + 1].net && m.AppendRequest? ensures AllMade(steps, i + 1, compacting, m.args.entries) {
      if m !in run[i].net {
        assert PeerMade(run, steps, compacting, i, SiteOf(steps[i]));
        forall x | 0 <= x < |m.args.entries| ensures Made(steps, i, compacting, m.args.entries[x]) {
          EntriesAfter(run[i], steps[i], m, m.args.entries[x]);
        }
      }
      AllMadeOn(steps, i, i + 1, compacting, m.args.entries);
    }
  }

  /** In every run every command in a log or in a request was handed to Start before. */
  lemma {:induction false} RunIsMade(run: seq<Cluster>, steps: seq<Step>, size: nat, compacting: bool, i: nat)
    requires IsTrace(run, steps, size, compacting) && i < |run|
    ensures PeersMade(run, steps, compacting, i) && NetMade(run, steps, compacting, i)
  {
    if i > 0 {
      RunIsMade(run, steps, size, compacting, i - 1);
      RunStaysMade(run, steps, size, compacting, i - 1);
    } else {
      forall s: nat | s < |run[0].peers| ensures PeerMade(run, steps, compacting, 0, s) { }
    }
  }

  lemma RunStaysMade(run: seq<Cluster>, steps: seq<Step>, size: nat, compacting: bool, i: nat)
    requires IsTrace(run, steps, size, compacting) && i < |steps|
    requires PeersMade(run, steps, compacting, i) && NetMade(run, steps, compacting, i)
    ensures PeersMade(run, steps, compacting, i + 1) && NetMade(run, steps, compacting, i + 1)
  {
    TraceIsRun(run, steps, size, compacting);
    PlainRun(run, size, compacting);
    RunIsSound(run, size, i);
    RunIsBare(run, size, compacting, i);
    assert StepAt(run, steps, i, compacting);
    PeersStay(run, steps, size, compacting, i);
    PeersStay(run, steps, size, compacting, i + 1);
    NetStaysMade(run, steps, compacting, i);
    var j := i + 1;
    forall s: nat | s < |run[j].peers| ensures PeerMade(run, steps, compacting, j, s) {
      var log := run[j].peers[s].log;
      forall x | 0 <= x < |log| ensures Made(steps, j, compacting, log[x]) {
        EntryStaysMade(run, steps, compacting, i, s, log[x]);
      }
    }
  }

  // ---------------------------------------------------------------- what is handed out

  /** Only commands that clients have started, and none without a command unless there is compaction. */
  ghost predicate Genuine(steps: seq<Step>, i: nat, compacting: bool, msg: ApplyMsg) {
    msg.CommandMsg? ==> if msg.command.Some? then Begun(steps, i, msg.command.value) else compacting
  }

  lemma GenuineOn(steps: seq<Step>, i: nat, j: nat, compacting: bool, msg: ApplyMsg)
    requires Genuine(steps, i, compacting, msg) && i <= j
    ensures Genuine(steps, j, compacting, msg)
  {
    if msg.CommandMsg? && msg.command.Some? {
      var k: nat :| k < i && k < |steps| && Begins(steps[k], msg.command.value);
      assert k < j && Begins(steps[k], msg.command.value);
    }
  }

  lemma {:induction false} CommandsGenuine(steps: seq<Step>, i: nat, compacting: bool, p: Peer, from: nat, upTo: nat,
                                           msg: ApplyMsg)
    requires p.Window() && upTo - p.snapshot.index < |p.log| && AllMade(steps, i, compacting, p.log)
    requires p.snapshot.index < from && msg in Commands(p, from, upTo)
    ensures Genuine(steps, i, compacting, msg)
    decreases upTo - from
  {
    if msg == CommandMsg(from, p.At(from).command) {
      assert Made(steps, i, compacting, p.log[from - p.snapshot.index]);
    } else {
      CommandsGenuine(steps, i, compacting, p, from + 1, upTo, msg);
    }
  }

  lemma AppliedGenuine(steps: seq<Step>, i: nat, compacting: bool, p: Peer, msg: ApplyMsg)
    requires p.Window() && CanApply(p) && AllMade(steps, i, compacting, p.log) && msg in Apply(p).1
    ensures Genuine(steps, i, compacting, msg)
  {
    var q := if p.lastApplied < p.snapshot.index then p.(lastApplied := p.snapshot.index) else p;
    if msg.CommandMsg? { CommandsGenuine(steps, i, compacting, q, q.lastApplied + 1, q.commitIndex, msg); }
  }

  /** In every run, with or without compaction, every command that any incarnation of any server is handed was started
      by a client before; and without compaction every message is such a command. */
  lemma {:induction false} HandedIsGenuine(run: seq<Cluster>, steps: seq<Step>, size: nat, compacting: bool, s: nat,
                                           i: nat, msg: ApplyMsg)
    requires IsTrace(run, steps, size, compacting) && i < |run| && s < size && msg in Handed(run, steps, s, i)
    ensures Genuine(steps, i, compacting, msg)
  {
    PeersStay(run, steps, size, compacting, i);
    PeersStay(run, steps, size, compacting, i - 1);
    if !Ends(steps[i - 1], s) {
      if msg in Handed(run, steps, s, i - 1) {
        HandedIsGenuine(run, steps, size, compacting, s, i - 1, msg);
      } else {
        RunIsMade(run, steps, size, compacting, i - 1);
        assert PeerMade(run, steps, compacting, i - 1, s);
        TraceIsRun(run, steps, size, compacting);
        PlainRun(run, size, compacting);
        LogWindow(run, size, i - 1, s);
        AppliedGenuine(steps, i - 1, compacting, run[i - 1].peers[s], msg);
      }
      GenuineOn(steps, i - 1, i, compacting, msg);
    }
  }
}
