/** The backtracking search of checkSingle without its heap: which configurations it has ruled out, and why.

    Calls and returns are told apart by their places in the history, so all times are different. An operation whose
    return stands before its call can never be taken: its call has no match.
  */
module SearchTree {
  import opened Histories

  ghost function Done(path: seq<nat>): set<nat> {
    set id | id in path
  }

  ghost function StepOf<S, I, O>(m: Model<S, I, O>, ops: seq<Op<I, O>>, s: S, id: nat): (bool, S)
    requires id < |ops|
  {
    m.step(s, ops[id].input, ops[id].output)
  }

  /** Every operation is called before it returns. */
  ghost predicate AllSound<I, O>(ops: seq<Op<I, O>>) {
    forall a: nat | a < |ops| :: Sound(ops, a)
  }

  ghost predicate Sound<I, O>(ops: seq<Op<I, O>>, a: nat)
    requires a < |ops|
  {
    ops[a].call < ops[a].ret
  }

  /** The search can get from here to the end: every operation can be taken, in some order that is accepted. */
  ghost predicate Finishable<S, I, O>(m: Model<S, I, O>, ops: seq<Op<I, O>>, done: set<nat>, s: S) {
    AllSound(ops) && Completable(m, ops, done, s)
  }

  /** Taking operation `id` next can be carried on to the end. */
  ghost predicate Leads<S, I, O>(m: Model<S, I, O>, ops: seq<Op<I, O>>, done: set<nat>, s: S, id: nat)
    requires id < |ops|
  {
    StepOf(m, ops, s, id).0 && Finishable(m, ops, done + {id}, StepOf(m, ops, s, id).1)
  }

  /** No two calls or returns share a place. */
  ghost predicate Apart<I, O>(ops: seq<Op<I, O>>) {
    && (forall a: nat, b: nat | a < |ops| && b < |ops| :: ops[a].call != ops[b].ret)
    && (forall a: nat, b: nat | a < |ops| && b < |ops| && a != b :: ops[a].call != ops[b].call)
  }

  ghost predicate Left<I, O>(ops: seq<Op<I, O>>, done: set<nat>, id: nat) {
    id < |ops| && id !in done
  }

  /** Up to place t the history holds only calls of operations left over, and none of them leads anywhere. */
  ghost predicate Tried<S, I, O>(m: Model<S, I, O>, ops: seq<Op<I, O>>, done: set<nat>, s: S, t: int) {
    forall id: nat | Left(ops, done, id) :: t <= ops[id].ret && (ops[id].call < t ==> !Leads(m, ops, done, s, id))
  }

  /** No operation left over is called or returns strictly between the places t and u. */
  ghost predicate NoneBetween<I, O>(ops: seq<Op<I, O>>, done: set<nat>, t: int, u: int) {
    forall id: nat | Left(ops, done, id) :: !(t < ops[id].call < u) && !(t < ops[id].ret < u)
  }

  lemma StartTrying<S, I, O>(m: Model<S, I, O>, ops: seq<Op<I, O>>, done: set<nat>, s: S, t: int)
    requires NoneBetween(ops, done, -1, t) && forall id: nat | id < |ops| :: 0 <= ops[id].call && 0 <= ops[id].ret
    ensures Tried(m, ops, done, s, t)
  {
  }

  lemma KeepTrying<S, I, O>(m: Model<S, I, O>, ops: seq<Op<I, O>>, done: set<nat>, s: S, id: nat, u: int)
    requires Apart(ops) && Left(ops, done, id) && Tried(m, ops, done, s, ops[id].call)
    requires !Leads(m, ops, done, s, id) && NoneBetween(ops, done, ops[id].call, u)
    ensures Tried(m, ops, done, s, u)
  {
    forall r: nat | Left(ops, done, r)
      ensures u <= ops[r].ret && (ops[r].call < u ==> !Leads(m, ops, done, s, r))
    {
      assert ops[id].call <= ops[r].ret && ops[id].call != ops[r].ret;
    }
  }

  lemma CandidateIsMinimal<S, I, O>(m: Model<S, I, O>, ops: seq<Op<I, O>>, done: set<nat>, s: S, id: nat)
    requires Left(ops, done, id) && Tried(m, ops, done, s, ops[id].call)
    ensures Minimal(ops, done, id)
  {
    forall r: nat | r < |ops| && r !in done && r != id ensures !Before(ops[r], ops[id]) {
      assert Left(ops, done, r);
    }
  }

  /** When the search meets a return, nothing was left to try: the configuration cannot be completed. */
  lemma DeadEnd<S, I, O>(m: Model<S, I, O>, ops: seq<Op<I, O>>, done: set<nat>, s: S, r: nat)
    requires Apart(ops) && Left(ops, done, r) && Tried(m, ops, done, s, ops[r].ret)
    ensures !Finishable(m, ops, done, s)
  {
    assert r in Ids(ops) by { assert IsId(ops, r); }
    if AllSound(ops) {
      assert Sound(ops, r);
      forall id: nat | Minimal(ops, done, id) ensures !Leads(m, ops, done, s, id) {
        assert Left(ops, done, id) && ops[id].call != ops[r].ret;
      }
    }
  }

  // ---------------------------------------------------------------- the path to the present configuration

  /** The operations of `path` have been taken one after the other, through `states`. */
  ghost predicate Walk<S, I, O>(m: Model<S, I, O>, ops: seq<Op<I, O>>, path: seq<nat>, states: seq<S>) {
    && |states| == |path| + 1 && states[0] == m.init && Distinct(path)
    && (forall j: nat | j < |path| :: TakenAt(m, ops, path, states, j))
  }

  ghost predicate TakenAt<S, I, O>(m: Model<S, I, O>, ops: seq<Op<I, O>>, path: seq<nat>, states: seq<S>, j: nat)
    requires j < |path| < |states|
  {
    && Minimal(ops, Done(path[..j]), path[j]) && Sound(ops, path[j])
    && StepOf(m, ops, states[j], path[j]) == (true, states[j + 1])
    && Tried(m, ops, Done(path[..j]), states[j], ops[path[j]].call)
  }

  lemma DoneMore(path: seq<nat>, id: nat)
    ensures Done(path + [id]) == Done(path) + {id}
  {
  }

  lemma DoneUpTo(path: seq<nat>, j: nat)
    requires j < |path|
    ensures Done(path[..j + 1]) == Done(path[..j]) + {path[j]}
  {
    assert path[..j + 1] == path[..j] + [path[j]];
    DoneMore(path[..j], path[j]);
  }

  lemma {:induction false} DoneSize(path: seq<nat>)
    requires Distinct(path)
    ensures |Done(path)| == |path|
  {
    if path != [] {
      var front, last := path[..|path| - 1], path[|path| - 1];
      assert path == front + [last];
      DoneSize(front);
      DoneMore(front, last);
      assert last !in Done(front);
    }
  }

  /** If the present configuration can be completed, so could the first. */
  lemma {:induction false} WalkBack<S, I, O>(m: Model<S, I, O>, ops: seq<Op<I, O>>, path: seq<nat>, states: seq<S>,
                                             j: nat)
    requires Walk(m, ops, path, states) && j <= |path|
    requires Completable(m, ops, Done(path[..j]), states[j])
    ensures Completable(m, ops, {}, m.init)
    decreases j
  {
    if j == 0 {
      assert Done(path[..0]) == {};
    } else {
      OneBack(m, ops, path, states, j - 1);
      WalkBack(m, ops, path, states, j - 1);
    }
  }

  lemma OneBack<S, I, O>(m: Model<S, I, O>, ops: seq<Op<I, O>>, path: seq<nat>, states: seq<S>, j: nat)
    requires Walk(m, ops, path, states) && j < |path|
    requires Completable(m, ops, Done(path[..j + 1]), states[j + 1])
    ensures Completable(m, ops, Done(path[..j]), states[j])
  {
    assert TakenAt(m, ops, path, states, j);
    DoneUpTo(path, j);
    StepCompletes(m, ops, Done(path[..j]), states[j], path[j]);
  }

  lemma StepCompletes<S, I, O>(m: Model<S, I, O>, ops: seq<Op<I, O>>, done: set<nat>, s: S, id: nat)
    requires Minimal(ops, done, id) && StepOf(m, ops, s, id).0
    requires Completable(m, ops, done + {id}, StepOf(m, ops, s, id).1)
    ensures Completable(m, ops, done, s)
  {
  }

  /** Everything seen is on the path, or cannot be completed. */
  ghost predicate Settled<S, I, O>(m: Model<S, I, O>, ops: seq<Op<I, O>>, path: seq<nat>, states: seq<S>,
                                   seen: set<(set<nat>, S)>)
    requires |states| == |path| + 1
  {
    forall c | c in seen :: OnPath(path, states, c) || !Finishable(m, ops, c.0, c.1)
  }

  ghost predicate OnPath<S>(path: seq<nat>, states: seq<S>, c: (set<nat>, S))
    requires |states| == |path| + 1
  {
    exists j: nat :: PathAt(path, states, c, j)
  }

  ghost predicate PathAt<S>(path: seq<nat>, states: seq<S>, c: (set<nat>, S), j: nat)
    requires |states| == |path| + 1
  {
    0 < j <= |path| && c == (Done(path[..j]), states[j])
  }

  /** A configuration one longer than the path that was seen before cannot be completed. */
  lemma SeenFails<S, I, O>(m: Model<S, I, O>, ops: seq<Op<I, O>>, path: seq<nat>, states: seq<S>,
                           seen: set<(set<nat>, S)>, id: nat, s: S)
    requires Walk(m, ops, path, states) && Settled(m, ops, path, states, seen)
    requires id !in Done(path) && (Done(path) + {id}, s) in seen
    ensures !Finishable(m, ops, Done(path) + {id}, s)
  {
    DoneSize(path);
    var c := (Done(path) + {id}, s);
    forall j: nat | 0 < j <= |path| ensures !PathAt(path, states, c, j) { DoneSize(path[..j]); }
  }

  lemma WalkOn<S, I, O>(m: Model<S, I, O>, ops: seq<Op<I, O>>, path: seq<nat>, states: seq<S>, id: nat)
    requires Walk(m, ops, path, states) && Left(ops, Done(path), id) && Sound(ops, id)
    requires Tried(m, ops, Done(path), states[|path|], ops[id].call) && StepOf(m, ops, states[|path|], id).0
    ensures Walk(m, ops, path + [id], states + [StepOf(m, ops, states[|path|], id).1])
  {
    var path', states' := path + [id], states + [StepOf(m, ops, states[|path|], id).1];
    assert path'[..|path|] == path;
    CandidateIsMinimal(m, ops, Done(path), states[|path|], id);
    forall j: nat | j < |path'| ensures TakenAt(m, ops, path', states', j) {
      if j < |path| {
        assert path'[..j] == path[..j];
        assert TakenAt(m, ops, path, states, j);
      }
    }
  }

  lemma SettledOn<S, I, O>(m: Model<S, I, O>, ops: seq<Op<I, O>>, path: seq<nat>, states: seq<S>,
                           seen: set<(set<nat>, S)>, id: nat, s: S)
    requires |states| == |path| + 1 && Settled(m, ops, path, states, seen)
    ensures Settled(m, ops, path + [id], states + [s], seen + {(Done(path) + {id}, s)})
  {
    var path', states' := path + [id], states + [s];
    DoneMore(path, id);
    assert path'[..|path'|] == path';
    assert PathAt(path', states', (Done(path) + {id}, s), |path'|);
    forall c | c in seen && OnPath(path, states, c) ensures OnPath(path', states', c) {
      var j: nat :| PathAt(path, states, c, j);
      assert path'[..j] == path[..j];
      assert PathAt(path', states', c, j);
    }
  }

  lemma WalkLess<S, I, O>(m: Model<S, I, O>, ops: seq<Op<I, O>>, path: seq<nat>, states: seq<S>)
    requires Walk(m, ops, path, states) && path != []
    ensures Walk(m, ops, path[..|path| - 1], states[..|path|])
  {
    var path', states' := path[..|path| - 1], states[..|path|];
    forall j: nat | j < |path'| ensures TakenAt(m, ops, path', states', j) {
      assert path'[..j] == path[..j];
      assert TakenAt(m, ops, path, states, j);
    }
  }

  lemma SettledLess<S, I, O>(m: Model<S, I, O>, ops: seq<Op<I, O>>, path: seq<nat>, states: seq<S>,
                             seen: set<(set<nat>, S)>)
    requires |states| == |path| + 1 && Settled(m, ops, path, states, seen) && path != []
    requires !Finishable(m, ops, Done(path), states[|path|])
    ensures Settled(m, ops, path[..|path| - 1], states[..|path|], seen)
  {
    var path', states' := path[..|path| - 1], states[..|path|];
    assert path[..|path|] == path;
    forall c | c in seen && Finishable(m, ops, c.0, c.1) ensures OnPath(path', states', c) {
      var j: nat :| PathAt(path, states, c, j);
      assert path'[..j] == path[..j];
      assert PathAt(path', states', c, j);
    }
  }

  // ---------------------------------------------------------------- there are finitely many configurations

  /** The configurations that d operations can reach, in any order at all. */
  ghost function Reach<S, I, O>(m: Model<S, I, O>, ops: seq<Op<I, O>>, d: nat): set<(set<nat>, S)> {
    if d == 0 then {({}, m.init)} else
      var before := Reach(m, ops, d - 1);
      before + set c, id | c in before && id in Ids(ops) :: After(m, ops, c, id)
  }

  ghost function After<S, I, O>(m: Model<S, I, O>, ops: seq<Op<I, O>>, c: (set<nat>, S), id: nat): (set<nat>, S) {
    if id < |ops| then (c.0 + {id}, StepOf(m, ops, c.1, id).1) else c
  }

  lemma {:induction false} ReachGrows<S, I, O>(m: Model<S, I, O>, ops: seq<Op<I, O>>, d: nat, e: nat)
    requires d <= e
    ensures Reach(m, ops, d) <= Reach(m, ops, e)
  {
    if d < e { ReachGrows(m, ops, d, e - 1); }
  }

  lemma {:induction false} WalkReaches<S, I, O>(m: Model<S, I, O>, ops: seq<Op<I, O>>, path: seq<nat>, states: seq<S>,
                                                j: nat)
    requires Walk(m, ops, path, states) && j <= |path|
    ensures (Done(path[..j]), states[j]) in Reach(m, ops, j)
  {
    if j > 0 {
      WalkReaches(m, ops, path, states, j - 1);
      assert TakenAt(m, ops, path, states, j - 1) && IsId(ops, path[j - 1]);
      DoneUpTo(path, j - 1);
      assert After(m, ops, (Done(path[..j - 1]), states[j - 1]), path[j - 1]) == (Done(path[..j]), states[j]);
    } else {
      assert Done(path[..0]) == {};
    }
  }
}
