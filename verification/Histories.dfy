/** What it means for a concurrent history to be linearizable (model.go), and the same thing one step at a time. */
module Histories {

  /** The sequential specification of the system: its first state, and whether one operation may happen in a
      state with a given input and output, and what state it leaves. States are compared by ==. */
  datatype Model<!S, !I, !O> = Model(init: S, step: (S, I, O) -> (bool, S))

  /** One completed operation: what was asked and when, what was answered and when. */
  datatype Op<I, O> = Op(input: I, call: int, output: O, ret: int)

  /** Operation a had returned before operation b was called. */
  predicate Before<I, O>(a: Op<I, O>, b: Op<I, O>) {
    a.ret < b.call
  }

  predicate IsId<I, O>(ops: seq<Op<I, O>>, id: nat) {
    id < |ops|
  }

  ghost function Ids<I, O>(ops: seq<Op<I, O>>): set<nat> {
    set id: nat | id < |ops| && IsId(ops, id)
  }

  // ---------------------------------------------------------------- by orders

  ghost predicate Distinct(order: seq<nat>) {
    forall i, j | 0 <= i < j < |order| :: order[i] != order[j]
  }

  /** `order` lists every operation outside `done` once. */
  ghost predicate Lists<I, O>(ops: seq<Op<I, O>>, done: set<nat>, order: seq<nat>) {
    && Distinct(order)
    && (forall i | 0 <= i < |order| :: order[i] < |ops| && order[i] !in done)
    && (forall id: nat | id < |ops| && id !in done :: id in order)
  }

  /** No operation stands before one that had returned when it was called. */
  ghost predicate KeepsRealTime<I, O>(ops: seq<Op<I, O>>, order: seq<nat>)
    requires forall i | 0 <= i < |order| :: order[i] < |ops|
  {
    forall i, j | 0 <= i < j < |order| :: !Before(ops[order[j]], ops[order[i]])
  }

  /** The specification can take the operations in this order, each with the output it had. */
  ghost predicate Accepts<S, I, O>(m: Model<S, I, O>, s: S, ops: seq<Op<I, O>>, order: seq<nat>)
    requires forall i | 0 <= i < |order| :: order[i] < |ops|
    decreases |order|
  {
    if order == [] then true else
      var (ok, s') := m.step(s, ops[order[0]].input, ops[order[0]].output);
      ok && Accepts(m, s', ops, order[1..])
  }

  /** `order` carries the history on from state s to its end, when `done` has been taken already. */
  ghost predicate Finishes<S, I, O>(m: Model<S, I, O>, ops: seq<Op<I, O>>, done: set<nat>, s: S, order: seq<nat>) {
    Lists(ops, done, order) && KeepsRealTime(ops, order) && Accepts(m, s, ops, order)
  }

  ghost predicate Linearizable<S, I, O>(m: Model<S, I, O>, ops: seq<Op<I, O>>) {
    exists order :: Finishes(m, ops, {}, m.init, order)
  }

  // ---------------------------------------------------------------- step by step

  /** Operation `id` may be next: no operation left over had returned before it was called. */
  ghost predicate Minimal<I, O>(ops: seq<Op<I, O>>, done: set<nat>, id: nat) {
    && id < |ops| && id !in done
    && (forall r: nat | r < |ops| && r !in done && r != id :: !Before(ops[r], ops[id]))
  }

  ghost predicate Completable<S, I, O>(m: Model<S, I, O>, ops: seq<Op<I, O>>, done: set<nat>, s: S)
    decreases Ids(ops) - done
  {
    || Ids(ops) <= done
    || exists id: nat | Minimal(ops, done, id) && m.step(s, ops[id].input, ops[id].output).0 ::
         Completable(m, ops, done + {id}, m.step(s, ops[id].input, ops[id].output).1)
  }

  lemma {:induction false} OrderCompletes<S, I, O>(m: Model<S, I, O>, ops: seq<Op<I, O>>, done: set<nat>, s: S,
                                                   order: seq<nat>)
    requires Finishes(m, ops, done, s, order)
    ensures Completable(m, ops, done, s)
    decreases |order|
  {
    if order == [] {
      assert Ids(ops) <= done by {
        forall id: nat | id in Ids(ops) ensures id in done { assert id !in order; }
      }
    } else {
      var id, rest := order[0], order[1..];
      FirstIsMinimal(ops, done, order);
      forall r: nat | r < |ops| && r !in done + {id} ensures r in rest { assert r in order; }
      OrderCompletes(m, ops, done + {id}, m.step(s, ops[id].input, ops[id].output).1, rest);
    }
  }

  lemma FirstIsMinimal<I, O>(ops: seq<Op<I, O>>, done: set<nat>, order: seq<nat>)
    requires Lists(ops, done, order) && KeepsRealTime(ops, order) && order != []
    ensures Minimal(ops, done, order[0])
  {
    forall r: nat | r < |ops| && r !in done && r != order[0] ensures !Before(ops[r], ops[order[0]]) {
      var j :| 0 <= j < |order| && order[j] == r;
    }
  }

  lemma {:induction false} CompletesInOrder<S, I, O>(m: Model<S, I, O>, ops: seq<Op<I, O>>, done: set<nat>, s: S)
    returns (order: seq<nat>)
    requires Completable(m, ops, done, s)
    ensures Finishes(m, ops, done, s, order)
    decreases Ids(ops) - done
  {
    if Ids(ops) <= done {
      order := [];
      forall id: nat | id < |ops| ensures id in done { assert IsId(ops, id); }
    } else {
      var id: nat :| Minimal(ops, done, id) && m.step(s, ops[id].input, ops[id].output).0
        && Completable(m, ops, done + {id}, m.step(s, ops[id].input, ops[id].output).1);
      assert IsId(ops, id);
      var rest := CompletesInOrder(m, ops, done + {id}, m.step(s, ops[id].input, ops[id].output).1);
      order := [id] + rest;
      MinimalFirst(m, ops, done, s, id, rest);
    }
  }

  lemma MinimalFirst<S, I, O>(m: Model<S, I, O>, ops: seq<Op<I, O>>, done: set<nat>, s: S, id: nat, rest: seq<nat>)
    requires Minimal(ops, done, id) && m.step(s, ops[id].input, ops[id].output).0
    requires Finishes(m, ops, done + {id}, m.step(s, ops[id].input, ops[id].output).1, rest)
    ensures Finishes(m, ops, done, s, [id] + rest)
  {
    var order := [id] + rest;
    assert order[1..] == rest;
    assert Distinct(order) by {
      forall j | 0 < j < |order| ensures order[j] != id { assert order[j] == rest[j - 1]; }
    }
    forall r: nat | r < |ops| && r !in done ensures r in order {
      if r != id { assert r in rest; }
    }
    forall i, j | 0 <= i < j < |order| ensures !Before(ops[order[j]], ops[order[i]]) {
      assert order[j] == rest[j - 1];
      if i > 0 { assert order[i] == rest[i - 1]; }
    }
  }

  /** A history is linearizable exactly when it can be taken one minimal operation at a time. */
  lemma LinearizableStepwise<S, I, O>(m: Model<S, I, O>, ops: seq<Op<I, O>>)
    ensures Linearizable(m, ops) <==> Completable(m, ops, {}, m.init)
  {
    if Linearizable(m, ops) {
      var order :| Finishes(m, ops, {}, m.init, order);
      OrderCompletes(m, ops, {}, m.init, order);
    }
    if Completable(m, ops, {}, m.init) {
      var order := CompletesInOrder(m, ops, {}, m.init);
    }
  }
}
