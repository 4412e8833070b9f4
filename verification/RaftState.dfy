/** The state of one Raft peer as a value, and what each handler of raft.go does to it.

    Every function below is one critical section of the Go code. Where the Go code gives up
    and retakes `rf.mu` inside one logical step (Start, starting an election, handling a vote
    reply, handling an append reply) the whole step is one function.
  */
module RaftState {
  import opened Options

  /** What a client hands to Start. */
  type Command(==, 0, !new)

  type Bytes = seq<bv8>

  datatype LogEntry = LogEntry(index: nat, term: nat, command: Option<Command>)

  datatype Snapshot = Snapshot(index: nat, term: nat, storage: Bytes)

  datatype Role = Leader | Candidate | Follower

  /** What persist() encodes into the raft state of the persister. */
  datatype Encoded = Encoded(
    term: nat, votedFor: int, log: seq<LogEntry>, snapshotIndex: nat, snapshotTerm: nat, commitIndex: nat)

  /** The persister: the encoded raft state (absent before the first save) and the snapshot bytes. */
  datatype Disk = Disk(state: Option<Encoded>, snapshot: Bytes)

  /** The variables shared by the goroutines of one broadcastAppendEntries call. `acks` holds the
      peers whose goroutine has counted a success, so nReplica is 1 + |acks|. */
  datatype Broadcast = Broadcast(index: nat, term: nat, commitIndex: nat, acks: set<nat>, agreed: bool)

  datatype VoteArgs = VoteArgs(term: nat, candidateId: nat, lastLogIndex: nat, lastLogTerm: nat)

  datatype VoteReply = VoteReply(term: nat, granted: bool)

  datatype AppendArgs = AppendArgs(
    term: nat, leaderId: nat, prevLogIndex: int, prevLogTerm: nat, entries: seq<LogEntry>,
    leaderCommit: nat, snapshot: Snapshot)

  datatype AppendReply = AppendReply(term: nat, success: bool, conflictIndex: nat, conflictTerm: nat)

  datatype ApplyMsg = CommandMsg(index: nat, command: Option<Command>) | SnapshotMsg(snapshot: Snapshot)

  /** Consecutive indices from `first` on, and at least that one. */
  ghost predicate Unbroken(log: seq<LogEntry>, first: nat) {
    |log| > 0 && forall i | 0 <= i < |log| :: log[i].index == first + i
  }

  const NO_VOTE: int := -1

  const SENTINEL := LogEntry(0, 0, None)

  /** `voters` holds the peers whose goroutine has counted a granted vote in the current election,
      so *nVotes is 1 + |voters|. `calls` are the broadcasts started since this peer last became leader. */
  datatype Peer = Peer(
    me: nat, size: nat, role: Role, currentTerm: nat, votedFor: int, log: seq<LogEntry>,
    commitIndex: nat, lastApplied: nat, nextIndex: seq<nat>, matchIndex: seq<nat>,
    snapshot: Snapshot, voters: set<nat>, calls: seq<Broadcast>, disk: Disk)
  {
    /** The log is the unbroken run of indices that starts at the snapshot index. */
    ghost predicate Window() {
      Unbroken(log, snapshot.index)
    }

    function LastIndex(): nat
      requires |log| > 0
    {
      snapshot.index + |log| - 1
    }

    function Last(): LogEntry {
      if |log| == 0 then LogEntry(snapshot.index, snapshot.term, None) else log[|log| - 1]
    }

    function At(index: int): LogEntry
      requires index - snapshot.index < |log|
    {
      if index < snapshot.index then LogEntry(snapshot.index, snapshot.term, None)
      else log[index - snapshot.index]
    }

    function Majority(): nat {
      size / 2 + 1
    }

    function Persisted(): Peer {
      this.(disk := Disk(
        Some(Encoded(currentTerm, votedFor, log, snapshot.index, snapshot.term, commitIndex)),
        snapshot.storage))
    }
  }

  // ---------------------------------------------------------------- starting and restarting

  /** A peer before readPersist has looked at the disk. */
  function Blank(me: nat, size: nat, disk: Disk): Peer {
    Peer(me, size, Follower, 0, NO_VOTE, [SENTINEL], 0, 0, seq(size, _ => 0), seq(size, _ => 0),
         Snapshot(0, 0, []), {}, [], disk)
  }

  /** Make: a new incarnation of a peer, from whatever its disk holds. */
  function Make(me: nat, size: nat, disk: Disk): Peer {
    var p := Blank(me, size, disk);
    match disk.state
    case None => p
    case Some(e) =>
      p.(currentTerm := e.term,
         votedFor := e.votedFor,
         log := if |e.log| == 0 then [LogEntry(e.snapshotIndex, e.snapshotTerm, None)] else e.log,
         commitIndex := e.commitIndex,
         lastApplied := e.snapshotIndex,
         snapshot := Snapshot(e.snapshotIndex, e.snapshotTerm, disk.snapshot))
  }

  /** What readPersist hands to the service before anything else. */
  function Restored(p: Peer): seq<ApplyMsg> {
    if p.snapshot.index > 0 then [SnapshotMsg(p.snapshot)] else []
  }

  // ---------------------------------------------------------------- elections

  /** Falling back to follower on seeing a higher term. */
  function StepDown(p: Peer, term: nat): Peer {
    p.(currentTerm := term, votedFor := NO_VOTE, role := Follower).Persisted()
  }

  predicate UpToDate(p: Peer, args: VoteArgs) {
    || p.Last().term < args.lastLogTerm
    || (p.Last().term == args.lastLogTerm && p.Last().index <= args.lastLogIndex)
  }

  function GrantVote(p: Peer, candidate: nat): Peer {
    p.(votedFor := candidate, role := Follower).Persisted()
  }

  function RequestVote(p: Peer, args: VoteArgs): (Peer, VoteReply) {
    if args.term < p.currentTerm then (p, VoteReply(p.currentTerm, false))
    else
      var q := if p.currentTerm < args.term then StepDown(p, args.term) else p;
      if (q.votedFor == NO_VOTE || q.votedFor == args.candidateId) && UpToDate(q, args) then
        (GrantVote(q, args.candidateId), VoteReply(q.currentTerm, true))
      else (q, VoteReply(q.currentTerm, false))
  }

  function StartElection(p: Peer): Peer {
    p.(role := Candidate, currentTerm := p.currentTerm + 1, votedFor := p.me, voters := {}).Persisted()
  }

  function BallotOf(p: Peer): VoteArgs {
    VoteArgs(p.currentTerm, p.me, p.Last().index, p.Last().term)
  }

  function BecomeLeader(p: Peer): Peer {
    p.(role := Leader,
       nextIndex := seq(p.size, _ => |p.log| + p.snapshot.index),
       matchIndex := seq(p.size, _ => p.snapshot.index),
       calls := []).Persisted()
  }

  /** The reply of peer `from` to a ballot of term `term`. */
  function CountVote(p: Peer, from: nat, term: nat, reply: VoteReply): Peer {
    if p.currentTerm != term then p
    else if !reply.granted then
      if p.currentTerm < reply.term then StepDown(p, reply.term) else p
    else
      var q := p.(voters := p.voters + {from});
      if q.role == Candidate && 1 + |q.voters| >= q.Majority() then BecomeLeader(q) else q
  }

  // ---------------------------------------------------------------- replication, leader side

  function NewBroadcast(p: Peer, index: nat): Peer {
    p.(calls := p.calls + [Broadcast(index, p.currentTerm, p.commitIndex, {}, false)])
  }

  function StartCommand(p: Peer, command: Command): Peer {
    if p.role != Leader then p
    else
      var entry := LogEntry(p.snapshot.index + |p.log|, p.currentTerm, Some(command));
      NewBroadcast(p.(log := p.log + [entry]).Persisted(), entry.index)
  }

  function HeartBeat(p: Peer): Peer {
    if p.role != Leader then p else NewBroadcast(p, p.Last().index)
  }

  /** Whether the goroutine of broadcast `call` for peer `to` still sends. */
  predicate StillSends(p: Peer, call: nat, to: nat) {
    && p.role == Leader
    && call < |p.calls|
    && p.calls[call].term == p.currentTerm
    && p.lastApplied <= p.calls[call].index
    && to < |p.nextIndex|
    && to != p.me
  }

  /** The slice bounds and the log access in BuildAppend are in range. */
  predicate CanBuild(p: Peer, call: nat, to: nat)
    requires StillSends(p, call, to)
  {
    && p.nextIndex[to] <= p.snapshot.index + |p.log|
    && p.snapshot.index <= p.calls[call].index + 1 <= p.snapshot.index + |p.log|
  }

  function BuildAppend(p: Peer, call: nat, to: nat): AppendArgs
    requires StillSends(p, call, to) && CanBuild(p, call, to)
  {
    var next, last, offset := p.nextIndex[to], p.calls[call].index, p.snapshot.index;
    var entries :=
      if next < last + 1 then
        if next < offset then p.log[..last + 1 - offset] else p.log[next - offset..last + 1 - offset]
      else [];
    AppendArgs(p.currentTerm, p.me, next - 1, p.At(next - 1).term, entries, p.calls[call].commitIndex, p.snapshot)
  }

  /** The greatest index in (floor, index] whose entry has term `term`, or `floor`. */
  function SearchDown(p: Peer, index: nat, term: nat, floor: nat): (r: nat)
    requires index - p.snapshot.index < |p.log|
    ensures r <= index
    decreases index
  {
    if index <= floor || p.At(index).term == term then index else SearchDown(p, index - 1, term, floor)
  }

  /** The last index below `limit` of the unbroken run of term `term` that continues after `index`. */
  function SearchUp(p: Peer, index: nat, term: nat, limit: nat): (r: nat)
    requires limit - p.snapshot.index <= |p.log|
    ensures index <= r && (r < limit || r == index)
    decreases limit - index
  {
    if index + 1 < limit && p.At(index + 1).term == term then SearchUp(p, index + 1, term, limit) else index
  }

  /** The log accesses in BackUp are in range. */
  predicate CanBackUp(p: Peer, reply: AppendReply, nextIndex: nat) {
    reply.conflictTerm != 0 ==>
      && reply.conflictIndex < p.snapshot.index + |p.log|
      && nextIndex <= p.snapshot.index + |p.log|
  }

  /** getNextIndex: where the leader retries after the reply `reply` to a request sent at `nextIndex`. */
  function BackUp(p: Peer, reply: AppendReply, nextIndex: nat): nat
    requires CanBackUp(p, reply, nextIndex)
  {
    if reply.conflictTerm == 0 || p.At(reply.conflictIndex).term < reply.conflictTerm then reply.conflictIndex
    else
      var found := SearchDown(p, reply.conflictIndex, reply.conflictTerm, p.snapshot.index);
      if found == 0 then reply.conflictIndex
      else SearchUp(p, found, reply.conflictTerm, nextIndex) + 1
  }

  /** The broadcast that sent `args` belongs to this incarnation, and its term is still the current one. */
  predicate Awaits(p: Peer, call: nat, args: AppendArgs) {
    p.currentTerm == args.term && call < |p.calls| && p.calls[call].term == args.term
  }

  /** The index and list accesses in CountAppend are in range. */
  predicate CanCountAppend(p: Peer, from: nat, call: nat, args: AppendArgs, reply: AppendReply) {
    Awaits(p, call, args) ==>
      && from < |p.nextIndex| == |p.matchIndex|
      && p.calls[call].index < p.snapshot.index + |p.log|
      && 0 <= args.prevLogIndex + 1
      && (!reply.success && reply.term <= args.term ==> CanBackUp(p, reply, args.prevLogIndex + 1))
  }

  function CountSuccess(p: Peer, from: nat, call: nat): Peer
    requires call < |p.calls| && from < |p.nextIndex| == |p.matchIndex|
    requires p.calls[call].index < p.snapshot.index + |p.log|
  {
    var b := p.calls[call].(acks := p.calls[call].acks + {from});
    var q := if p.nextIndex[from] < b.index + 1
             then p.(nextIndex := p.nextIndex[from := b.index + 1], matchIndex := p.matchIndex[from := b.index])
             else p;
    if !b.agreed && q.role == Leader && 1 + |b.acks| >= q.Majority() then
      var r := q.(calls := q.calls[call := b.(agreed := true)]);
      if r.commitIndex < b.index && r.At(b.index).term == r.currentTerm then r.(commitIndex := b.index) else r
    else q.(calls := q.calls[call := b])
  }

  /** The reply of peer `from` to the request `args` that broadcast `call` sent it. */
  function CountAppend(p: Peer, from: nat, call: nat, args: AppendArgs, reply: AppendReply): Peer
    requires CanCountAppend(p, from, call, args, reply)
  {
    if !Awaits(p, call, args) then p
    else if reply.success then CountSuccess(p, from, call)
    else if args.term < reply.term then StepDown(p, reply.term)
    else p.(nextIndex := p.nextIndex[from := BackUp(p, reply, args.prevLogIndex + 1)])
  }

  // ---------------------------------------------------------------- replication, follower side

  /** The entries left after dropping the leading ones whose index is at most `index`. */
  function DropThrough(entries: seq<LogEntry>, index: nat): seq<LogEntry> {
    if |entries| == 0 || entries[0].index > index then entries else DropThrough(entries[1..], index)
  }

  /** A request whose previous entry is inside the snapshot is moved up to the snapshot index. */
  function Clip(p: Peer, args: AppendArgs): AppendArgs {
    if args.prevLogIndex < p.snapshot.index then
      args.(prevLogIndex := p.snapshot.index,
            prevLogTerm := p.snapshot.term,
            entries := DropThrough(args.entries, p.snapshot.index))
    else args
  }

  predicate Consistent(p: Peer, args: AppendArgs)
    requires p.Window()
  {
    p.LastIndex() >= args.prevLogIndex && p.At(args.prevLogIndex).term == args.prevLogTerm
  }

  /** Every entry, taken by position after `prev`, has the term the log has there. */
  predicate AlreadyHas(p: Peer, prev: int, entries: seq<LogEntry>)
    requires p.Window()
  {
    forall i | 0 <= i < |entries| ::
      prev + 1 + i <= p.LastIndex() && p.At(prev + 1 + i).term == entries[i].term
  }

  function Spliced(p: Peer, args: AppendArgs): seq<LogEntry>
    requires p.Window() && p.snapshot.index <= args.prevLogIndex <= p.LastIndex()
  {
    if AlreadyHas(p, args.prevLogIndex, args.entries) then p.log
    else p.log[..args.prevLogIndex + 1 - p.snapshot.index] + args.entries
  }

  function Min(a: int, b: int): int {
    if a <= b then a else b
  }

  function CommitAfter(p: Peer, args: AppendArgs): nat
    requires 0 <= args.prevLogIndex
  {
    if args.leaderCommit > p.commitIndex then Min(args.leaderCommit, args.prevLogIndex + |args.entries|)
    else p.commitIndex
  }

  /** The position of the first entry with the given index, or the length of the log. */
  function Position(log: seq<LogEntry>, index: nat): (r: nat)
    ensures r <= |log|
    ensures r < |log| ==> log[r].index == index
  {
    if |log| == 0 || log[0].index == index then 0 else 1 + Position(log[1..], index)
  }

  function AdoptSnapshot(p: Peer, snapshot: Snapshot): Peer {
    if snapshot.index <= p.snapshot.index then p
    else
      var start := Position(p.log, snapshot.index);
      p.(snapshot := snapshot,
         log := if start == |p.log| then [LogEntry(snapshot.index, snapshot.term, None)] else p.log[start..])
  }

  function Accept(p: Peer, args: AppendArgs): Peer
    requires p.Window() && p.snapshot.index <= args.prevLogIndex <= p.LastIndex()
  {
    var q := p.(role := Follower, log := Spliced(p, args), commitIndex := CommitAfter(p, args));
    AdoptSnapshot(q, args.snapshot).Persisted()
  }

  /** The lowest index of the run of equal terms that ends at `index`, but never below floor + 1. */
  function RunStart(p: Peer, index: nat, floor: nat): (r: nat)
    requires index - p.snapshot.index < |p.log|
    ensures r <= index
    decreases index
  {
    if index > floor + 1 && p.At(index - 1).term == p.At(index).term then RunStart(p, index - 1, floor) else index
  }

  function Refusal(p: Peer, args: AppendArgs): AppendReply
    requires p.Window() && p.snapshot.index <= args.prevLogIndex
  {
    if p.LastIndex() < args.prevLogIndex + 1 then AppendReply(p.currentTerm, false, p.LastIndex(), 0)
    else
      AppendReply(p.currentTerm, false, RunStart(p, args.prevLogIndex, p.snapshot.index), p.At(args.prevLogIndex).term)
  }

  function AppendEntries(p: Peer, args: AppendArgs): (Peer, AppendReply)
    requires p.Window()
  {
    if args.term < p.currentTerm then (p, AppendReply(p.currentTerm, false, 0, 0))
    else
      var q := if p.currentTerm < args.term then StepDown(p, args.term) else p;
      var a := Clip(q, args);
      if Consistent(q, a) then (Accept(q, a), AppendReply(q.currentTerm, true, 0, 0))
      else (q, Refusal(q, a))
  }

  // ---------------------------------------------------------------- applying and compacting

  function Commands(p: Peer, from: nat, upTo: nat): seq<ApplyMsg>
    requires upTo - p.snapshot.index < |p.log|
    decreases upTo - from
  {
    if upTo < from then [] else [CommandMsg(from, p.At(from).command)] + Commands(p, from + 1, upTo)
  }

  /** The log accesses in Apply are in range. */
  predicate CanApply(p: Peer) {
    p.commitIndex < p.snapshot.index + |p.log|
  }

  function Apply(p: Peer): (Peer, seq<ApplyMsg>)
    requires CanApply(p)
  {
    var behind := p.lastApplied < p.snapshot.index;
    var q := if behind then p.(lastApplied := p.snapshot.index) else p;
    var first := if behind then [SnapshotMsg(p.snapshot)] else [];
    if q.commitIndex < q.snapshot.index || q.commitIndex <= q.lastApplied then (q, first)
    else (q.(lastApplied := q.commitIndex), first + Commands(q, q.lastApplied + 1, q.commitIndex))
  }

  function SaveSnapshot(p: Peer, index: nat, storage: Bytes): Peer
    requires index < p.snapshot.index + |p.log|
  {
    if index <= p.snapshot.index then p
    else
      p.(snapshot := Snapshot(index, p.At(index).term, storage), log := p.log[index - p.snapshot.index..]).Persisted()
  }
}
