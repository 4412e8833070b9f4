/** The retry loops of several broadcasts with one follower, side by side, without compaction.

    Each broadcast has one goroutine per follower, which sends, waits for the answer, handles it and sends again. They
    share the next index of the follower: a refusal that one of them handles late can raise it again for the others.
    The loops still end, whatever else happens in the cluster meanwhile: a loop weighs (k + 1) ^ v, where v is the next
    index that it has sent with or would send with, and every handled refusal takes away from the weight of all k loops.
  */
module RaftLoops {
  import opened RaftState
  import opened RaftCluster
  import opened RaftHistory
  import opened RaftSafety
  import opened RaftBackUp
  import opened RaftDeliveries

  // ---------------------------------------------------------------- loops

  /** About to send, waiting for the answer to a request, or over after a success. */
  datatype Phase = Idle | Waiting(args: AppendArgs) | Over

  datatype Loop = Loop(call: nat, phase: Phase)

  /** The step is the handling, by s, of an answer of `to` to a request of this term. */
  predicate Answers(step: Step, s: nat, to: nat, term: nat) {
    step.ReceiveAppendAnswer? && step.m.AppendAnswer? && step.m.dst == s && step.m.src == to && step.m.args.term == term
  }

  predicate SendsTo(step: Step, s: nat, to: nat) {
    step.Send? && step.s == s && step.to == to
  }

  /** Only a loop that is about to send sends, and an answer is handled by the loop that waits for it. */
  ghost predicate Disciplined(step: Step, s: nat, to: nat, term: nat, ls: seq<Loop>) {
    && (SendsTo(step, s, to) ==> Loop(step.call, Idle) in ls)
    && (Answers(step, s, to, term) ==> Loop(step.m.call, Waiting(step.m.args)) in ls)
  }

  ghost function NextPhase(c: Cluster, step: Step, s: nat, to: nat, term: nat, loop: Loop): Phase
    requires Enabled(c, step)
  {
    if SendsTo(step, s, to) && step.call == loop.call && loop.phase.Idle? then
      Waiting(BuildAppend(c.peers[s], loop.call, to))
    else if Answers(step, s, to, term) && loop == Loop(step.m.call, Waiting(step.m.args)) then
      if step.m.reply.success then Over else Idle
    else loop.phase
  }

  ghost function NextLoops(c: Cluster, step: Step, s: nat, to: nat, term: nat, ls: seq<Loop>): (r: seq<Loop>)
    requires Enabled(c, step)
    ensures |r| == |ls|
    ensures forall x: nat | x < |ls| :: r[x] == Loop(ls[x].call, NextPhase(c, step, s, to, term, ls[x]))
  {
    seq(|ls|, x requires 0 <= x < |ls| => Loop(ls[x].call, NextPhase(c, step, s, to, term, ls[x])))
  }

  ghost predicate OneEach(ls: seq<Loop>) {
    forall x: nat, y: nat | x < y < |ls| :: ls[x].call != ls[y].call
  }

  ghost predicate InOffice(c: Cluster, s: nat, term: nat) {
    s < |c.peers| && c.peers[s].role == Leader && c.peers[s].currentTerm == term
  }

  // ---------------------------------------------------------------- weights

  function Pow(b: nat, v: nat): (r: nat)
    requires b > 0
    ensures r > 0
  {
    if v == 0 then 1 else b * Pow(b, v - 1)
  }

  lemma {:induction false} PowGrows(b: nat, v: nat, w: nat)
    requires b > 0 && v <= w
    ensures Pow(b, v) <= Pow(b, w)
    decreases w - v
  {
    if v < w {
      PowGrows(b, v + 1, w);
      TimesAtLeast(b, Pow(b, v));
    }
  }

  lemma TimesAtLeast(b: nat, x: nat)
    requires b > 0
    ensures x <= b * x
  {
  }

  /** The index that a loop has sent with; `next` is the one that it would send with. */
  ghost predicate Ranged(loop: Loop, bound: nat) {
    loop.phase.Waiting? ==> 0 <= loop.phase.args.prevLogIndex + 1 <= bound
  }

  ghost predicate AllRanged(ls: seq<Loop>, bound: nat) {
    forall x: nat | x < |ls| :: Ranged(ls[x], bound)
  }

  ghost function Weight(loop: Loop, next: nat, b: nat): nat
    requires b > 0 && (loop.phase.Waiting? ==> 0 <= loop.phase.args.prevLogIndex + 1)
  {
    match loop.phase
    case Idle => Pow(b, next)
    case Waiting(args) => Pow(b, args.prevLogIndex + 1)
    case Over => 0
  }

  /** The weight of the first n loops. */
  ghost function Total(ls: seq<Loop>, n: nat, next: nat, b: nat, bound: nat): nat
    requires n <= |ls| && b > 0 && AllRanged(ls, bound)
  {
    if n == 0 then 0 else
      assert Ranged(ls[n - 1], bound);
      Total(ls, n - 1, next, b, bound) + Weight(ls[n - 1], next, b)
  }

  ghost function Live(ls: seq<Loop>, n: nat): (r: nat)
    requires n <= |ls|
    ensures r <= n
  {
    if n == 0 then 0 else Live(ls, n - 1) + (if ls[n - 1].phase.Over? then 0 else 1)
  }

  ghost function Idlers(ls: seq<Loop>, n: nat): (r: nat)
    requires n <= |ls|
    ensures r <= n
  {
    if n == 0 then 0 else Idlers(ls, n - 1) + (if ls[n - 1].phase.Idle? then 1 else 0)
  }

  /** No loop weighs more than one at the bound. */
  lemma {:induction false} TotalAtMost(ls: seq<Loop>, n: nat, next: nat, b: nat, bound: nat)
    requires n <= |ls| && b > 0 && AllRanged(ls, bound) && next <= bound
    ensures Total(ls, n, next, b, bound) <= Live(ls, n) * Pow(b, bound)
  {
    if n > 0 {
      TotalAtMost(ls, n - 1, next, b, bound);
      assert Ranged(ls[n - 1], bound);
      PowGrows(b, if ls[n - 1].phase.Waiting? then ls[n - 1].phase.args.prevLogIndex + 1 else next, bound);
      OneMoreTime(Live(ls, n - 1), Pow(b, bound));
    }
  }

  lemma OneMoreTime(n: nat, x: nat)
    ensures (n + 1) * x == n * x + x
  {
  }

  /** A loop that sends takes on the weight that it had. */
  lemma {:induction false} SameTotal(ls: seq<Loop>, ls': seq<Loop>, n: nat, next: nat, b: nat, bound: nat)
    requires n <= |ls| == |ls'| && b > 0 && AllRanged(ls, bound) && AllRanged(ls', bound)
    requires forall x: nat | x < n :: SameWeight(ls[x], ls'[x], next)
    ensures Total(ls', n, next, b, bound) == Total(ls, n, next, b, bound) && Live(ls', n) == Live(ls, n)
  {
    if n > 0 {
      SameTotal(ls, ls', n - 1, next, b, bound);
      assert Ranged(ls[n - 1], bound) && Ranged(ls'[n - 1], bound) && SameWeight(ls[n - 1], ls'[n - 1], next);
    }
  }

  ghost predicate SameWeight(loop: Loop, loop': Loop, next: nat) {
    loop' == loop || (loop.phase.Idle? && loop'.phase.Waiting? && loop'.phase.args.prevLogIndex + 1 == next)
  }

  /** A refused loop sheds its weight, and no loop takes on more than one at an index below. */
  lemma {:induction false} RefusedTotal(ls: seq<Loop>, ls': seq<Loop>, n: nat, x: nat, v: nat, next: nat, next': nat,
                                        b: nat, bound: nat)
    requires n <= |ls| == |ls'| && x < |ls| && b > 0 && AllRanged(ls, bound) && AllRanged(ls', bound)
    requires ls[x].phase.Waiting? && ls[x].phase.args.prevLogIndex + 1 == v && next' < v
    requires ls'[x].phase.Idle? && forall y: nat | y < |ls| && y != x :: ls'[y] == ls[y]
    ensures Total(ls', n, next', b, bound) + (if x < n then Pow(b, v) else 0)
         <= Total(ls, n, next, b, bound) + n * Pow(b, v - 1)
    ensures Live(ls', n) == Live(ls, n)
    ensures Idlers(ls', n) == Idlers(ls, n) + (if x < n then 1 else 0)
  {
    if n > 0 {
      RefusedTotal(ls, ls', n - 1, x, v, next, next', b, bound);
      assert Ranged(ls[n - 1], bound) && Ranged(ls'[n - 1], bound);
      PowGrows(b, next', v - 1);
      OneMoreTime(n - 1, Pow(b, v - 1));
    }
  }

  /** The loop at x sends: one is idle less, and one more waits. */
  lemma {:induction false} SentIdlers(ls: seq<Loop>, ls': seq<Loop>, n: nat, x: nat)
    requires n <= |ls| == |ls'| && x < |ls| && ls[x].phase.Idle? && ls'[x].phase.Waiting?
    requires forall y: nat | y < |ls| && y != x :: ls'[y] == ls[y]
    ensures Idlers(ls', n) + (if x < n then 1 else 0) == Idlers(ls, n)
  {
    if n > 0 { SentIdlers(ls, ls', n - 1, x); }
  }

  lemma {:induction false} OverCounts(ls: seq<Loop>, ls': seq<Loop>, n: nat, x: nat)
    requires n <= |ls| == |ls'| && x < |ls| && ls[x].phase.Waiting? && ls'[x].phase.Over?
    requires forall y: nat | y < |ls| && y != x :: ls'[y] == ls[y]
    ensures Live(ls', n) + (if x < n then 1 else 0) == Live(ls, n) && Idlers(ls', n) == Idlers(ls, n)
  {
    if n > 0 { OverCounts(ls, ls', n - 1, x); }
  }

  /** What is left to spend: the weight of the loops, and for each that is not over a renewal up to the bound. */
  ghost function Potential(ls: seq<Loop>, next: nat, bound: nat): nat
    requires AllRanged(ls, bound)
  {
    var b := |ls| + 1;
    Total(ls, |ls|, next, b, bound) + Live(ls, |ls|) * Pow(b, bound + 1)
  }

  lemma PotentialAtMost(ls: seq<Loop>, next: nat, bound: nat)
    requires AllRanged(ls, bound) && next <= bound
    ensures Potential(ls, next, bound) <= Pow(|ls| + 1, bound + 2)
  {
    var k, b := |ls|, |ls| + 1;
    TotalAtMost(ls, k, next, b, bound);
    Fewer(Live(ls, k), k, Pow(b, bound));
    Fewer(Live(ls, k), k, Pow(b, bound + 1));
    OneMoreTime(k, Pow(b, bound));
    OneMoreTime(k, Pow(b, bound + 1));
  }

  lemma Fewer(m: nat, n: nat, x: nat)
    requires m <= n
    ensures m * x <= n * x
  {
  }

  lemma RefusalSpends(ls: seq<Loop>, ls': seq<Loop>, x: nat, next: nat, next': nat, bound: nat)
    requires |ls| == |ls'| && x < |ls| && AllRanged(ls, bound) && AllRanged(ls', bound)
    requires ls[x].phase.Waiting? && next' < ls[x].phase.args.prevLogIndex + 1
    requires ls'[x].phase.Idle? && forall y: nat | y < |ls| && y != x :: ls'[y] == ls[y]
    ensures Potential(ls', next', bound) < Potential(ls, next, bound)
  {
    assert Ranged(ls[x], bound);
    var k, b, v := |ls|, |ls| + 1, ls[x].phase.args.prevLogIndex + 1;
    RefusedTotal(ls, ls', k, x, v, next, next', b, bound);
    OneMoreTime(k, Pow(b, v - 1));
  }

  lemma SuccessSpends(ls: seq<Loop>, ls': seq<Loop>, x: nat, next: nat, next': nat, bound: nat)
    requires |ls| == |ls'| && x < |ls| && AllRanged(ls, bound) && AllRanged(ls', bound) && next' <= bound
    requires ls[x].phase.Waiting? && ls'[x].phase.Over? && forall y: nat | y < |ls| && y != x :: ls'[y] == ls[y]
    ensures Potential(ls', next', bound) <= Potential(ls, next, bound)
  {
    var k, b := |ls|, |ls| + 1;
    OverCounts(ls, ls', k, x);
    TotalAtMost(ls', k, next', b, bound);
    Fewer(Live(ls', k), k, Pow(b, bound));
    OneMoreTime(k, Pow(b, bound));
    OneMoreTime(Live(ls', k), Pow(b, bound + 1));
  }

  // ---------------------------------------------------------------- the loops of a leader in office

  /** Whoever waits has sent its request in this term. */
  ghost predicate SentInTerm(c: Cluster, s: nat, to: nat, term: nat, loop: Loop) {
    loop.phase.Waiting? ==>
      loop.phase.args.term == term && AppendRequest(s, to, loop.call, loop.phase.args) in c.net
  }

  ghost predicate LoopsOk(c: Cluster, s: nat, to: nat, term: nat, ls: seq<Loop>, bound: nat) {
    && InOffice(c, s, term) && to < |c.peers| && |c.peers[s].log| <= bound
    && OneEach(ls) && forall x: nat | x < |ls| :: SentInTerm(c, s, to, term, ls[x])
  }

  ghost function NextOf(c: Cluster, s: nat, to: nat): nat
    requires s < |c.peers| && to < |c.peers[s].nextIndex|
  {
    c.peers[s].nextIndex[to]
  }

  lemma LeaderFacts(c: Cluster, h: History, s: nat, to: nat, term: nat)
    requires PeersOk(c, h) && InOffice(c, s, term) && to < |c.peers|
    ensures to < |c.peers[s].nextIndex| == |c.peers[s].matchIndex| && NextOf(c, s, to) <= |c.peers[s].log|
    ensures c.peers[s].me == s && term in h.reigns && h.reigns[term].log == c.peers[s].log
    ensures forall k | 0 <= k < |c.peers[s].calls| :: c.peers[s].calls[k].term == term
  {
    assert PeerOk(|c.peers|, h, s, c.peers[s]);
    forall k | 0 <= k < |c.peers[s].calls| ensures c.peers[s].calls[k].term == term {
      assert CallOk(|c.peers|, h, c.peers[s], c.peers[s].calls[k]);
    }
  }

  lemma LoopsRanged(c: Cluster, h: History, s: nat, to: nat, term: nat, ls: seq<Loop>, bound: nat)
    requires Inv(c, h) && LoopsOk(c, s, to, term, ls, bound)
    ensures AllRanged(ls, bound)
  {
    LeaderFacts(c, h, s, to, term);
    forall x: nat | x < |ls| ensures Ranged(ls[x], bound) {
      assert SentInTerm(c, s, to, term, ls[x]);
      if ls[x].phase.Waiting? { assert MessageOk(c, h, AppendRequest(s, to, ls[x].call, ls[x].phase.args)); }
    }
  }

  /** No other step touches the next index of the follower while the leader stays in office. */
  lemma OthersKeepNext(c: Cluster, step: Step, s: nat, to: nat, term: nat)
    requires Enabled(c, step) && !step.Compact? && InOffice(c, s, term) && InOffice(After(c, step), s, term)
    requires !Answers(step, s, to, term) && to < |c.peers[s].nextIndex|
    ensures to < |After(c, step).peers[s].nextIndex| && NextOf(After(c, step), s, to) == NextOf(c, s, to)
  {
    if step.ReceiveAppendAnswer? {
      OtherAnswersKeepNext(c, step.m, s, to, term);
    } else {
      OtherStepsKeepNext(c, step, s, to, term);
    }
  }

  lemma OtherStepsKeepNext(c: Cluster, step: Step, s: nat, to: nat, term: nat)
    requires Enabled(c, step) && !step.Compact? && InOffice(c, s, term) && InOffice(After(c, step), s, term)
    requires !step.ReceiveAppendAnswer? && to < |c.peers[s].nextIndex|
    ensures to < |After(c, step).peers[s].nextIndex| && NextOf(After(c, step), s, to) == NextOf(c, s, to)
  {
  }

  /** Answers of other followers concern other indices, and those of other terms are dropped. */
  lemma OtherAnswersKeepNext(c: Cluster, m: Message, s: nat, to: nat, term: nat)
    requires Enabled(c, ReceiveAppendAnswer(m)) && InOffice(c, s, term) && to < |c.peers[s].nextIndex|
    requires InOffice(After(c, ReceiveAppendAnswer(m)), s, term) && !Answers(ReceiveAppendAnswer(m), s, to, term)
    ensures var p := After(c, ReceiveAppendAnswer(m)).peers[s];
            to < |p.nextIndex| && p.nextIndex[to] == c.peers[s].nextIndex[to]
  {
  }

  lemma NetKept(c: Cluster, step: Step)
    requires Enabled(c, step)
    ensures c.net <= After(c, step).net
  {
  }

  /** One loop moves, and all others stay as they are. */
  lemma OneMoves(c: Cluster, step: Step, s: nat, to: nat, term: nat, ls: seq<Loop>, x: nat)
    requires Enabled(c, step) && OneEach(ls) && x < |ls|
    requires if SendsTo(step, s, to) then step.call == ls[x].call
             else Answers(step, s, to, term) && step.m.call == ls[x].call
    ensures forall y: nat | y < |ls| && y != x :: NextLoops(c, step, s, to, term, ls)[y] == ls[y]
  {
    forall y: nat | y < |ls| && y != x ensures NextLoops(c, step, s, to, term, ls)[y] == ls[y] {
      assert ls[y].call != ls[x].call;
    }
  }

  lemma NobodyMoves(c: Cluster, step: Step, s: nat, to: nat, term: nat, ls: seq<Loop>)
    requires Enabled(c, step) && !SendsTo(step, s, to) && !Answers(step, s, to, term)
    ensures NextLoops(c, step, s, to, term, ls) == ls
  {
  }

  lemma LoopsStayOk(c: Cluster, step: Step, s: nat, to: nat, term: nat, ls: seq<Loop>, bound: nat)
    requires Enabled(c, step) && LoopsOk(c, s, to, term, ls, bound)
    requires InOffice(After(c, step), s, term) && |After(c, step).peers[s].log| <= bound
    requires |After(c, step).peers| == |c.peers|
    ensures LoopsOk(After(c, step), s, to, term, NextLoops(c, step, s, to, term, ls), bound)
  {
    var c', ls' := After(c, step), NextLoops(c, step, s, to, term, ls);
    NetKept(c, step);
    forall x: nat | x < |ls'| ensures SentInTerm(c', s, to, term, ls'[x]) {
      assert SentInTerm(c, s, to, term, ls[x]);
    }
    forall x: nat, y: nat | x < y < |ls'| ensures ls'[x].call != ls'[y].call { assert ls[x].call != ls[y].call; }
  }

  // ---------------------------------------------------------------- one step

  /** How many requests the loops have sent, and how many refusals and successes they have handled. */
  datatype Tally = Tally(sends: nat, refusals: nat, successes: nat)

  function Counted(step: Step, s: nat, to: nat, term: nat, t: Tally): Tally {
    if SendsTo(step, s, to) then t.(sends := t.sends + 1)
    else if Answers(step, s, to, term) && step.m.reply.success then t.(successes := t.successes + 1)
    else if Answers(step, s, to, term) then t.(refusals := t.refusals + 1)
    else t
  }

  /** Every refusal spends some of the potential; every send makes a loop wait and every refusal sets one free. */
  ghost predicate Spends(ls: seq<Loop>, next: nat, ls': seq<Loop>, next': nat, t: Tally, bound: nat)
    requires AllRanged(ls, bound) && AllRanged(ls', bound)
  {
    && Potential(ls', next', bound) + t.refusals <= Potential(ls, next, bound)
    && Live(ls', |ls'|) + t.successes == Live(ls, |ls|)
    && Idlers(ls', |ls'|) + t.sends == Idlers(ls, |ls|) + t.refusals
  }

  const NOTHING := Tally(0, 0, 0)

  lemma SendSpends(c: Cluster, step: Step, s: nat, to: nat, term: nat, ls: seq<Loop>, bound: nat)
    requires Enabled(c, step) && SendsTo(step, s, to) && LoopsOk(c, s, to, term, ls, bound)
      && to < |c.peers[s].nextIndex|
    requires Disciplined(step, s, to, term, ls)
    requires AllRanged(ls, bound) && AllRanged(NextLoops(c, step, s, to, term, ls), bound)
    ensures var next := NextOf(c, s, to);
            Spends(ls, next, NextLoops(c, step, s, to, term, ls), next, Counted(step, s, to, term, NOTHING), bound)
  {
    var ls', next := NextLoops(c, step, s, to, term, ls), NextOf(c, s, to);
    var x: nat :| x < |ls| && ls[x] == Loop(step.call, Idle);
    OneMoves(c, step, s, to, term, ls, x);
    assert ls'[x] == Loop(step.call, Waiting(BuildAppend(c.peers[s], step.call, to)));
    SentIdlers(ls, ls', |ls|, x);
    forall y: nat | y < |ls| ensures SameWeight(ls[y], ls'[y], next) {
      if y != x { assert ls'[y] == ls[y]; }
    }
    SameTotal(ls, ls', |ls|, next, |ls| + 1, bound);
  }

  lemma AnsweredSpends(c: Cluster, step: Step, s: nat, to: nat, term: nat, ls: seq<Loop>, next: nat, next': nat,
                       bound: nat)
    requires Enabled(c, step) && Answers(step, s, to, term) && OneEach(ls) && Disciplined(step, s, to, term, ls)
    requires AllRanged(ls, bound) && AllRanged(NextLoops(c, step, s, to, term, ls), bound) && next' <= bound
    requires !step.m.reply.success ==> next' < step.m.args.prevLogIndex + 1
    ensures Spends(ls, next, NextLoops(c, step, s, to, term, ls), next', Counted(step, s, to, term, NOTHING), bound)
  {
    var ls' := NextLoops(c, step, s, to, term, ls);
    var x: nat :| x < |ls| && ls[x] == Loop(step.m.call, Waiting(step.m.args));
    OneMoves(c, step, s, to, term, ls, x);
    if step.m.reply.success {
      assert ls'[x] == Loop(step.m.call, Over);
      OverCounts(ls, ls', |ls|, x);
      SuccessSpends(ls, ls', x, next, next', bound);
    } else {
      assert ls'[x] == Loop(step.m.call, Idle);
      assert Ranged(ls[x], bound);
      RefusedTotal(ls, ls', |ls|, x, step.m.args.prevLogIndex + 1, next, next', |ls| + 1, bound);
      RefusalSpends(ls, ls', x, next, next', bound);
    }
  }

  /** A handled refusal sets the next index below that of its request. */
  lemma RefusalSetsNext(c: Cluster, h: History, step: Step, s: nat, to: nat, term: nat, ls: seq<Loop>, bound: nat)
    requires Inv(c, h) && Enabled(c, step) && Answers(step, s, to, term) && !step.m.reply.success
    requires LoopsOk(c, s, to, term, ls, bound) && Disciplined(step, s, to, term, ls)
    requires InOffice(After(c, step), s, term)
    ensures to < |After(c, step).peers[s].nextIndex|
    ensures NextOf(After(c, step), s, to) < step.m.args.prevLogIndex + 1
  {
    var m := step.m;
    var x: nat :| x < |ls| && ls[x] == Loop(m.call, Waiting(m.args));
    assert SentInTerm(c, s, to, term, ls[x]);
    LeaderFacts(c, h, s, to, term);
    assert MessageOk(c, h, AppendRequest(s, to, m.call, m.args));
    assert Awaits(c.peers[s], m.call, m.args);
    assert m.reply.term <= m.args.term;
    RefusalRetreats(c, h, m);
  }

  lemma StepSpends(c: Cluster, h: History, step: Step, h': History, s: nat, to: nat, term: nat, ls: seq<Loop>,
                   bound: nat)
    requires Inv(c, h) && Enabled(c, step) && !step.Compact? && Inv(After(c, step), h')
    requires LoopsOk(c, s, to, term, ls, bound) && Disciplined(step, s, to, term, ls)
    requires LoopsOk(After(c, step), s, to, term, NextLoops(c, step, s, to, term, ls), bound)
    ensures AllRanged(ls, bound) && AllRanged(NextLoops(c, step, s, to, term, ls), bound)
    ensures to < |c.peers[s].nextIndex| && to < |After(c, step).peers[s].nextIndex|
    ensures Spends(ls, NextOf(c, s, to), NextLoops(c, step, s, to, term, ls), NextOf(After(c, step), s, to),
                   Counted(step, s, to, term, NOTHING), bound)
  {
    var c', ls' := After(c, step), NextLoops(c, step, s, to, term, ls);
    LoopsRanged(c, h, s, to, term, ls, bound);
    LoopsRanged(c', h', s, to, term, ls', bound);
    LeaderFacts(c, h, s, to, term);
    LeaderFacts(c', h', s, to, term);
    if Answers(step, s, to, term) {
      if !step.m.reply.success { RefusalSetsNext(c, h, step, s, to, term, ls, bound); }
      AnsweredSpends(c, step, s, to, term, ls, NextOf(c, s, to), NextOf(c', s, to), bound);
    } else {
      OthersKeepNext(c, step, s, to, term);
      if SendsTo(step, s, to) {
        SendSpends(c, step, s, to, term, ls, bound);
      } else {
        NobodyMoves(c, step, s, to, term, ls);
      }
    }
  }

  // ---------------------------------------------------------------- a stretch of a run

  /** The loops at moment j, when they were `start` at moment i. */
  ghost function LoopsAt(run: seq<Cluster>, steps: seq<Step>, s: nat, to: nat, term: nat, start: seq<Loop>, i: nat,
                         j: nat)
    : seq<Loop>
    requires i <= j < |run| <= |steps| + 1
    decreases j - i
  {
    if j == i then start else
      var ls := LoopsAt(run, steps, s, to, term, start, i, j - 1);
      if Enabled(run[j - 1], steps[j - 1]) then NextLoops(run[j - 1], steps[j - 1], s, to, term, ls) else ls
  }

  /** What the loops have done from moment i to moment j. */
  function TallyOf(steps: seq<Step>, s: nat, to: nat, term: nat, i: nat, j: nat): Tally
    requires i <= j <= |steps|
    decreases j - i
  {
    if j == i then NOTHING else Counted(steps[j - 1], s, to, term, TallyOf(steps, s, to, term, i, j - 1))
  }

  /** From moment i to moment j the leader stays in office, and the loops keep to their discipline. */
  ghost predicate Stretch(run: seq<Cluster>, steps: seq<Step>, s: nat, to: nat, term: nat, start: seq<Loop>, i: nat,
                          j: nat, bound: nat)
    requires i <= j < |run| <= |steps| + 1
  {
    && (forall t: nat | i <= t <= j :: InOffice(run[t], s, term) && |run[t].peers[s].log| <= bound)
    && (forall t: nat | i <= t < j :: DisciplinedAt(run, steps, s, to, term, start, i, t))
  }

  ghost predicate DisciplinedAt(run: seq<Cluster>, steps: seq<Step>, s: nat, to: nat, term: nat, start: seq<Loop>,
                                i: nat, t: nat)
    requires i <= t < |steps| && t < |run| <= |steps| + 1
  {
    Disciplined(steps[t], s, to, term, LoopsAt(run, steps, s, to, term, start, i, t))
  }

  lemma SpendsOn(ls: seq<Loop>, n: nat, ls': seq<Loop>, n': nat, ls'': seq<Loop>, n'': nat, step: Step, s: nat, to: nat,
                 term: nat, t: Tally, bound: nat)
    requires AllRanged(ls, bound) && AllRanged(ls', bound) && AllRanged(ls'', bound)
    requires Spends(ls, n, ls', n', t, bound) && Spends(ls', n', ls'', n'', Counted(step, s, to, term, NOTHING), bound)
    ensures Spends(ls, n, ls'', n'', Counted(step, s, to, term, t), bound)
  {
  }

  /** The loops were `start` in state c and are `ls` in state d, with this tally between. */
  ghost predicate Spent(c: Cluster, d: Cluster, s: nat, to: nat, term: nat, start: seq<Loop>, ls: seq<Loop>, t: Tally,
                        bound: nat) {
    && LoopsOk(d, s, to, term, ls, bound) && AllRanged(start, bound) && AllRanged(ls, bound) && |ls| == |start|
    && s < |c.peers| && to < |c.peers[s].nextIndex| && to < |d.peers[s].nextIndex|
    && Spends(start, NextOf(c, s, to), ls, NextOf(d, s, to), t, bound)
  }

  lemma SpentAtStart(run: seq<Cluster>, steps: seq<Step>, size: nat, s: nat, to: nat, term: nat, start: seq<Loop>,
                     i: nat, bound: nat)
    requires IsTrace(run, steps, size, false) && i < |run| && LoopsOk(run[i], s, to, term, start, bound)
    ensures Spent(run[i], run[i], s, to, term, start, start, NOTHING, bound) && NextOf(run[i], s, to) <= bound
  {
    TraceIsRun(run, steps, size, false);
    var hs := HistoryOf(run, size);
    LoopsRanged(run[i], hs[i], s, to, term, start, bound);
    LeaderFacts(run[i], hs[i], s, to, term);
  }

  lemma SpentOn(b: Cluster, c: Cluster, d: Cluster, s: nat, to: nat, term: nat, start: seq<Loop>, ls: seq<Loop>,
                ls': seq<Loop>, step: Step, t: Tally, bound: nat)
    requires Spent(b, c, s, to, term, start, ls, t, bound)
    requires Spent(c, d, s, to, term, ls, ls', Counted(step, s, to, term, NOTHING), bound)
    ensures Spent(b, d, s, to, term, start, ls', Counted(step, s, to, term, t), bound)
  {
    SpendsOn(start, NextOf(b, s, to), ls, NextOf(c, s, to), ls', NextOf(d, s, to), step, s, to, term, t, bound);
  }

  lemma {:induction false} StretchSpends(run: seq<Cluster>, steps: seq<Step>, size: nat, s: nat, to: nat, term: nat,
                                         start: seq<Loop>, i: nat, j: nat, bound: nat)
    requires IsTrace(run, steps, size, false) && i <= j < |run|
    requires Stretch(run, steps, s, to, term, start, i, j, bound) && LoopsOk(run[i], s, to, term, start, bound)
    ensures Spent(run[i], run[j], s, to, term, start, LoopsAt(run, steps, s, to, term, start, i, j),
                  TallyOf(steps, s, to, term, i, j), bound)
    decreases j - i
  {
    if j == i {
      SpentAtStart(run, steps, size, s, to, term, start, i, bound);
    } else {
      StretchSpends(run, steps, size, s, to, term, start, i, j - 1, bound);
      var ls := LoopsAt(run, steps, s, to, term, start, i, j - 1);
      assert DisciplinedAt(run, steps, s, to, term, start, i, j - 1);
      OneStepOn(run, steps, size, s, to, term, ls, j - 1, bound);
      SpentOn(run[i], run[j - 1], run[j], s, to, term, start, ls, NextLoops(run[j - 1], steps[j - 1], s, to, term, ls),
              steps[j - 1], TallyOf(steps, s, to, term, i, j - 1), bound);
    }
  }

  lemma OneStepOn(run: seq<Cluster>, steps: seq<Step>, size: nat, s: nat, to: nat, term: nat, ls: seq<Loop>, t: nat,
                  bound: nat)
    requires IsTrace(run, steps, size, false) && t + 1 < |run|
    requires LoopsOk(run[t], s, to, term, ls, bound) && Disciplined(steps[t], s, to, term, ls)
    requires InOffice(run[t + 1], s, term) && |run[t + 1].peers[s].log| <= bound
    ensures Enabled(run[t], steps[t])
    ensures Spent(run[t], run[t + 1], s, to, term, ls, NextLoops(run[t], steps[t], s, to, term, ls),
                  Counted(steps[t], s, to, term, NOTHING), bound)
  {
    TraceIsRun(run, steps, size, false);
    var hs := HistoryOf(run, size);
    assert StepAt(run, steps, t, false);
    PeersStay(run, steps, size, false, t);
    PeersStay(run, steps, size, false, t + 1);
    LoopsStayOk(run[t], steps[t], s, to, term, ls, bound);
    StepSpends(run[t], hs[t], steps[t], hs[t + 1], s, to, term, ls, bound);
  }

  /** In every run, as long as a leader stays in office, the loops of k broadcasts with one follower handle at most
      (k + 1) ^ (n + 2) refusals between them, n being the length of its log, whatever other steps are interleaved and
      however late the answers come; at most k successes; and no more requests are sent than that. */
  lemma LoopsEnd(run: seq<Cluster>, steps: seq<Step>, size: nat, s: nat, to: nat, term: nat, start: seq<Loop>, i: nat,
                 j: nat, bound: nat)
    requires IsTrace(run, steps, size, false) && i <= j < |run|
    requires LoopsOk(run[i], s, to, term, start, bound) && Stretch(run, steps, s, to, term, start, i, j, bound)
    ensures var t := TallyOf(steps, s, to, term, i, j);
            && t.refusals <= Pow(|start| + 1, bound + 2) && t.successes <= |start| && t.sends <= t.refusals + |start|
  {
    SpentAtStart(run, steps, size, s, to, term, start, i, bound);
    StretchSpends(run, steps, size, s, to, term, start, i, j, bound);
    PotentialAtMost(start, NextOf(run[i], s, to), bound);
  }
}
