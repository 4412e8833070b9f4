/** The clerks (kvraft/client.go): one numbered write at a time, sent again and again until it is answered. */
module KvClerks {
  import opened KvState
  import opened KvExactlyOnce

  const ATTEMPTS: nat := 8000

  class Clerk {
    const servers: nat
    const me: int
    var leaderId: nat
    var globalId: int

    ghost predicate Valid()
      reads this
    {
      leaderId < servers
    }

    constructor (servers: nat, me: int)
      requires servers > 0
      ensures Valid() && this.servers == servers && this.me == me && leaderId == 0 && globalId == 0
    {
      this.servers, this.me, leaderId, globalId := servers, me, 0, 0;
    }

    /** `answered(i)` says whether call i came back with another answer than NotLeaderError. All calls carry the one
        command `args` with the clerk's next number, to one server after the other, up to the first answer. */
    method PutAppend(key: string, value: string, op: string, answered: nat -> bool)
      returns (args: Command, tried: seq<nat>, ok: bool)
      requires Valid()
      modifies this
      ensures Valid() && globalId == old(globalId) + 1 && args == Write(op, key, value, me, globalId)
      ensures InTurn(tried, old(leaderId), servers)
      ensures forall i | 0 <= i < |tried| :: answered(i) <==> ok && i == |tried| - 1
      ensures if ok then 0 < |tried| <= ATTEMPTS && leaderId == tried[|tried| - 1]
        else |tried| == ATTEMPTS && leaderId == Turn(old(leaderId), |tried|, servers)
    {
      globalId := globalId + 1;
      args := Write(op, key, value, me, globalId);
      tried, ok := [], false;
      ghost var first := leaderId;
      var i := 0;
      while i < ATTEMPTS
        invariant Valid() && globalId == old(globalId) + 1 && !ok && i == |tried| <= ATTEMPTS
        invariant leaderId == Turn(first, |tried|, servers) && InTurn(tried, first, servers)
        invariant forall j | 0 <= j < |tried| :: !answered(j)
      {
        InTurnMore(tried, first, servers);
        tried := tried + [leaderId];
        if answered(i) {
          ok := true;
          return;
        }
        leaderId := NextServer(leaderId, servers);
        i := i + 1;
      }
    }
  }

  ghost predicate InTurn(tried: seq<nat>, first: nat, servers: nat)
    requires first < servers
  {
    forall i: nat | i < |tried| :: tried[i] == Turn(first, i, servers)
  }

  lemma InTurnMore(tried: seq<nat>, first: nat, servers: nat)
    requires first < servers && InTurn(tried, first, servers)
    ensures InTurn(tried + [Turn(first, |tried|, servers)], first, servers)
  {
  }

  /** The next server of the round. */
  function NextServer(leaderId: nat, servers: nat): (r: nat)
    requires leaderId < servers
    ensures r == (leaderId + 1) % servers
  {
    if leaderId + 1 == servers then 0 else leaderId + 1
  }

  /** The server after i turns of the round. */
  function Turn(leaderId: nat, i: nat, servers: nat): (r: nat)
    requires leaderId < servers
    ensures r < servers
  {
    if i == 0 then leaderId else NextServer(Turn(leaderId, i - 1, servers), servers)
  }

  // ---------------------------------------------------------------- all clerks and the log

  /** The log, what every client has sent so far, and the requests that a client left behind unanswered. */
  datatype World = World(log: seq<Command>, sent: map<int, seq<Command>>, abandoned: set<(int, int)>)

  /** A clerk's next request; a clerk giving up its request after the last attempt; a copy of something sent reaching
      the log, at any time and any number of times; a get reaching the log. */
  datatype Step =
    | Request(client: int, opType: string, key: string, value: string)
    | GiveUp(client: int)
    | Commit(client: int, k: nat)
    | CommitGet(key: string)

  function SentBy(w: World, client: int): seq<Command> {
    if client in w.sent then w.sent[client] else []
  }

  /** The request was answered, and so is in the log, or the clerk has given it up. */
  ghost predicate Over(w: World, client: int, msgId: int) {
    LoggedAs(w.log, client, msgId) || (client, msgId) in w.abandoned
  }

  /** A clerk makes its next request when the last one is over. */
  ghost predicate Enabled(w: World, step: Step) {
    match step
    case Request(client, _, _, _) => SentBy(w, client) == [] || Over(w, client, |SentBy(w, client)|)
    case GiveUp(client) => SentBy(w, client) != []
    case Commit(client, k) => k < |SentBy(w, client)|
    case CommitGet(_) => true
  }

  ghost function After(w: World, step: Step): World
    requires Enabled(w, step)
  {
    match step
    case Request(client, opType, key, value) =>
      var sent := SentBy(w, client);
      w.(sent := w.sent[client := sent + [Write(opType, key, value, client, |sent| + 1)]])
    case GiveUp(client) => w.(abandoned := w.abandoned + {(client, |SentBy(w, client)|)})
    case Commit(client, k) => w.(log := w.log + [SentBy(w, client)[k]])
    case CommitGet(key) => w.(log := w.log + [Get(key)])
  }

  const START := World([], map[], {})

  ghost predicate IsRun(run: seq<World>) {
    && run != [] && run[0] == START
    && (forall i | 0 < i < |run| :: Follows(run[i - 1], run[i]))
  }

  ghost predicate Follows(w: World, w': World) {
    exists step :: Enabled(w, step) && w' == After(w, step)
  }

  /** What was sent is numbered in order, and the log holds only what was sent. */
  ghost predicate Orderly(w: World) {
    && (forall client: int, k: nat | k < |SentBy(w, client)| :: NumberedAt(w, client, k))
    && (forall p | 0 <= p < |w.log| && w.log[p].Write? :: 0 < w.log[p].msgId <= |SentBy(w, w.log[p].clientId)|)
  }

  ghost predicate NumberedAt(w: World, client: int, k: nat)
    requires k < |SentBy(w, client)|
  {
    var c := SentBy(w, client)[k];
    c.Write? && c.clientId == client && c.msgId == k + 1
  }

  /** All but the last request of every clerk are over. */
  ghost predicate AllOver(w: World) {
    forall client: int, k: nat | 0 < k < |SentBy(w, client)| :: Over(w, client, k)
  }

  /** The write at q shows up for the first time, after a later one of its clerk at p. */
  ghost predicate Overtaken(log: seq<Command>, p: nat, q: nat)
    requires p < |log| && q < |log|
  {
    p < q && SameClient(log, p, q) && log[q].msgId < log[p].msgId && FirstTime(log, q)
  }

  ghost predicate OvertakenGivenUp(w: World, p: nat, q: nat)
    requires p < |w.log| && q < |w.log|
  {
    Overtaken(w.log, p, q) ==> (w.log[q].clientId, w.log[q].msgId) in w.abandoned
  }

  /** Only a write that was given up can be overtaken. */
  ghost predicate OthersInTurn(w: World) {
    forall p: nat, q: nat | p < |w.log| && q < |w.log| :: OvertakenGivenUp(w, p, q)
  }

  ghost predicate Inv(w: World) {
    Orderly(w) && AllOver(w) && OthersInTurn(w)
  }

  lemma StillLogged(log: seq<Command>, c: Command, client: int, k: int)
    requires LoggedAs(log, client, k)
    ensures LoggedAs(log + [c], client, k)
  {
    var p :| 0 <= p < |log| && log[p].Write? && log[p].clientId == client && log[p].msgId == k;
    assert (log + [c])[p] == log[p];
  }

  lemma NotFirstTime(log: seq<Command>, c: Command)
    requires c.Write? && LoggedAs(log, c.clientId, c.msgId)
    ensures !FirstTime(log + [c], |log|)
  {
    var r: nat :| r < |log| && log[r].Write? && log[r].clientId == c.clientId && log[r].msgId == c.msgId;
    assert SameClient(log + [c], r, |log|);
  }

  lemma RequestKeepsInv(w: World, step: Step)
    requires Inv(w) && Enabled(w, step) && step.Request?
    ensures Inv(After(w, step))
  {
    var w' := After(w, step);
    forall client: int, k: nat | k < |SentBy(w', client)| ensures NumberedAt(w', client, k) {
      if k < |SentBy(w, client)| { assert NumberedAt(w, client, k); }
    }
    forall client: int, k: nat | 0 < k < |SentBy(w', client)| ensures Over(w', client, k) {
      if client == step.client && k == |SentBy(w, client)| {
        assert Over(w, client, k);
      } else {
        assert 0 < k < |SentBy(w, client)| && Over(w, client, k);
      }
    }
    forall p: nat, q: nat | p < |w.log| && q < |w.log| ensures OvertakenGivenUp(w', p, q) {
      assert OvertakenGivenUp(w, p, q);
    }
  }

  lemma GiveUpKeepsInv(w: World, step: Step)
    requires Inv(w) && Enabled(w, step) && step.GiveUp?
    ensures Inv(After(w, step))
  {
    var w' := After(w, step);
    forall client: int, k: nat | k < |SentBy(w', client)| ensures NumberedAt(w', client, k) {
      assert NumberedAt(w, client, k);
    }
    forall client: int, k: nat | 0 < k < |SentBy(w', client)| ensures Over(w', client, k) {
      assert 0 < k < |SentBy(w, client)| && Over(w, client, k);
    }
    forall p: nat, q: nat | p < |w.log| && q < |w.log| ensures OvertakenGivenUp(w', p, q) {
      assert OvertakenGivenUp(w, p, q);
    }
  }

  lemma CommitKeepsInv(w: World, step: Step)
    requires Inv(w) && Enabled(w, step) && (step.Commit? || step.CommitGet?)
    ensures Inv(After(w, step))
  {
    var w' := After(w, step);
    var c := w'.log[|w.log|];
    assert step.Commit? ==> NumberedAt(w, step.client, step.k);
    forall client: int, k: nat | k < |SentBy(w', client)| ensures NumberedAt(w', client, k) {
      assert NumberedAt(w, client, k);
    }
    forall client: int, k: nat | 0 < k < |SentBy(w', client)| ensures Over(w', client, k) {
      assert 0 < k < |SentBy(w, client)| && Over(w, client, k);
      if LoggedAs(w.log, client, k) { StillLogged(w.log, c, client, k); }
    }
    forall p: nat, q: nat | p < |w'.log| && q < |w'.log| ensures OvertakenGivenUp(w', p, q) {
      if Overtaken(w'.log, p, q) { OvertakenOneMore(w, c, w', p, q); }
    }
  }

  lemma OvertakenOneMore(w: World, c: Command, w': World, p: nat, q: nat)
    requires Orderly(w) && AllOver(w) && OthersInTurn(w) && w' == w.(log := w.log + [c])
    requires c.Write? ==> 0 < c.msgId
    requires p < q < |w'.log| && Overtaken(w'.log, p, q)
    ensures (w'.log[q].clientId, w'.log[q].msgId) in w.abandoned
  {
    if q < |w.log| {
      assert w'.log[..|w'.log| - 1] == w.log;
      SameFirstTime(w'.log, q);
      assert SameClient(w.log, p, q);
      assert OvertakenGivenUp(w, p, q);
    } else {
      assert w.log[p].msgId <= |SentBy(w, c.clientId)|;
      assert Over(w, c.clientId, c.msgId);
      if LoggedAs(w.log, c.clientId, c.msgId) { NotFirstTime(w.log, c); }
    }
  }

  lemma {:induction false} RunKeepsInv(run: seq<World>, i: nat)
    requires IsRun(run) && i < |run|
    ensures Inv(run[i])
  {
    if i > 0 {
      RunKeepsInv(run, i - 1);
      assert Follows(run[i - 1], run[i]);
      var step :| Enabled(run[i - 1], step) && run[i] == After(run[i - 1], step);
      match step
      case Request(_, _, _, _) => RequestKeepsInv(run[i - 1], step);
      case GiveUp(_) => GiveUpKeepsInv(run[i - 1], step);
      case _ => CommitKeepsInv(run[i - 1], step);
    }
  }

  /** A server that has applied any part of the log and finds the last request of a clerk repeated proves it logged:
      what such an answer tells the clerk is what Enabled asks for. */
  lemma AnsweredIsLogged(w: World, client: int, m: nat)
    requires Inv(w) && m <= |w.log| && Repeated(State(w.log[..m]), client, |SentBy(w, client)|)
    ensures LoggedAs(w.log, client, |SentBy(w, client)|)
  {
    var before := w.log[..m];
    FilterIsLargest(before);
    var k := State(before).ids[client];
    assert LoggedAs(before, client, k);
    var p :| 0 <= p < m && before[p].Write? && before[p].clientId == client && before[p].msgId == k;
    assert w.log[p] == before[p];
  }

  // ---------------------------------------------------------------- exactly once

  /** A write that its clerk gave up shows up in the log after a later one of that clerk. */
  ghost predicate LateArrival(w: World) {
    exists p: nat, q: nat :: p < |w.log| && q < |w.log| && Overtaken(w.log, p, q)
      && (w.log[q].clientId, w.log[q].msgId) in w.abandoned
  }

  lemma NumberedUnlessOvertaken(log: seq<Command>)
    ensures Numbered(log) <==> forall p: nat, q: nat | p < |log| && q < |log| :: !Overtaken(log, p, q)
  {
    if Numbered(log) {
      forall p: nat, q: nat | p < |log| && q < |log| ensures !Overtaken(log, p, q) {
        if Overtaken(log, p, q) { NotOvertaken(log, p, q); }
      }
    } else {
      var p: nat, q: nat :| p < q < |log| && SameClient(log, p, q) && FirstTime(log, p) && FirstTime(log, q)
        && log[p].msgId >= log[q].msgId;
      assert Overtaken(log, p, q);
    }
  }

  lemma NotOvertaken(log: seq<Command>, p: nat, q: nat)
    requires p < |log| && q < |log| && Overtaken(log, p, q)
    ensures !Numbered(log)
  {
    var r := FirstCopy(log, p);
    assert SameClient(log, r, q);
  }

  /** In every run of any number of clerks, with any repetitions in the log, every write that reaches the log takes
      effect exactly once if and only if none that was given up arrives behind a later one of its clerk; and then the
      values are those of the log without repetitions. */
  lemma ClerksGetExactlyOnce(run: seq<World>, i: nat)
    requires IsRun(run) && i < |run|
    ensures ExactlyOnce(run[i].log) <==> !LateArrival(run[i])
    ensures ExactlyOnce(run[i].log) ==> State(run[i].log).storage == Plain(map[], Deduplicated(run[i].log))
  {
    var w := run[i];
    RunKeepsInv(run, i);
    ExactlyOnceIff(w.log);
    NumberedUnlessOvertaken(w.log);
    forall p: nat, q: nat | p < |w.log| && q < |w.log| && Overtaken(w.log, p, q) ensures LateArrival(w) {
      assert OvertakenGivenUp(w, p, q);
    }
    if Numbered(w.log) { StorageIsPlain(w.log); }
  }

  /** Only these clerks have given up. */
  ghost predicate GivenUpBy(w: World, quitters: set<int>) {
    forall client: int, msgId: int | (client, msgId) in w.abandoned :: client in quitters
  }

  ghost predicate SafeWith(quitters: set<int>) {
    forall run: seq<World>, i: nat | IsRun(run) && i < |run| && GivenUpBy(run[i], quitters) :: ExactlyOnce(run[i].log)
  }

  /** A clerk gives up its first write, and its second reaches the log before the first does. */
  ghost function QuitterRun(client: int): (run: seq<World>)
    ensures IsRun(run) && |run| == 6 && run[5].abandoned == {(client, 1)}
    ensures run[5].log == [Write("Put", "x", "b", client, 2), Write("Append", "x", "a", client, 1)]
  {
    var a := After(START, Request(client, "Append", "x", "a"));
    var b := After(a, GiveUp(client));
    var c := After(b, Request(client, "Put", "x", "b"));
    var d := After(c, Commit(client, 1));
    var e := After(d, Commit(client, 0));
    var run := [START, a, b, c, d, e];
    assert Follows(run[0], run[1]) && Follows(run[1], run[2]) && Follows(run[2], run[3]);
    assert Follows(run[3], run[4]) && Follows(run[4], run[5]);
    run
  }

  /** All runs are exactly once precisely when no clerk ever gives up. */
  lemma GivingUpExactly(quitters: set<int>)
    ensures SafeWith(quitters) <==> quitters == {}
  {
    if client: int :| client in quitters {
      var run := QuitterRun(client);
      LateExample("x", "a", "b", client);
      assert GivenUpBy(run[5], quitters);
      assert !ExactlyOnce(run[5].log);
    } else {
      assert forall client: int :: client in quitters <==> client in {};
      forall run: seq<World>, i: nat | IsRun(run) && i < |run| && GivenUpBy(run[i], quitters)
        ensures ExactlyOnce(run[i].log)
      {
        ClerksGetExactlyOnce(run, i);
      }
    }
  }
}
