/** The key-value model checked key by key (models.go): why a history may be split by keys. */
module KvLocality {
  import opened Histories

  /** What a client asked: operation 0 is a get, 1 a put, and any other an append. */
  datatype KvInput = KvInput(op: nat, key: string, value: string)

  datatype KvOutput = KvOutput(value: string)

  type KvOp = Op<KvInput, KvOutput>

  /** One operation on the value of one key. */
  function KvStep(st: string, inp: KvInput, out: KvOutput): (bool, string) {
    if inp.op == 0 then (out.value == st, st) else if inp.op == 1 then (true, inp.value) else (true, st + inp.value)
  }

  function KvModel(): Model<string, KvInput, KvOutput> {
    Model("", KvStep)
  }

  type Store = map<string, string>

  function Lookup(store: Store, key: string): string {
    if key in store then store[key] else ""
  }

  /** One operation on the whole store. */
  function StoreStep(store: Store, inp: KvInput, out: KvOutput): (bool, Store) {
    if inp.op == 0 then (out.value == Lookup(store, inp.key), store)
    else if inp.op == 1 then (true, store[inp.key := inp.value])
    else (true, store[inp.key := Lookup(store, inp.key) + inp.value])
  }

  function StoreModel(): Model<Store, KvInput, KvOutput> {
    Model(map[], StoreStep)
  }

  lemma StoreStepIsLocal(store: Store, inp: KvInput, out: KvOutput, key: string)
    ensures StoreStep(store, inp, out).0 == KvStep(Lookup(store, inp.key), inp, out).0
    ensures Lookup(StoreStep(store, inp, out).1, key)
         == if key == inp.key then KvStep(Lookup(store, key), inp, out).1 else Lookup(store, key)
  {
  }

  // ---------------------------------------------------------------- splitting by keys

  /** The operations on other keys. */
  ghost function Others(ops: seq<KvOp>, key: string): set<nat> {
    set id: nat | id < |ops| && OnOther(ops, key, id)
  }

  ghost predicate OnOther(ops: seq<KvOp>, key: string, id: nat)
    requires id < |ops|
  {
    ops[id].input.key != key
  }

  /** What is left of one key can be completed from its value in the store. */
  ghost predicate KeyCompletable(ops: seq<KvOp>, done: set<nat>, store: Store, key: string) {
    Completable(KvModel(), ops, done + Others(ops, key), Lookup(store, key))
  }

  lemma {:induction false} SplitByKey(ops: seq<KvOp>, done: set<nat>, store: Store, key: string)
    requires Completable(StoreModel(), ops, done, store)
    ensures KeyCompletable(ops, done, store, key)
    decreases Ids(ops) - done
  {
    if !(Ids(ops) <= done) {
      var id: nat :| Minimal(ops, done, id) && StoreStep(store, ops[id].input, ops[id].output).0
        && Completable(StoreModel(), ops, done + {id}, StoreStep(store, ops[id].input, ops[id].output).1);
      assert IsId(ops, id);
      SplitByKey(ops, done + {id}, StoreStep(store, ops[id].input, ops[id].output).1, key);
      OneStepOfKey(ops, done, store, id, key);
    }
  }

  lemma OneStepOfKey(ops: seq<KvOp>, done: set<nat>, store: Store, id: nat, key: string)
    requires Minimal(ops, done, id) && StoreStep(store, ops[id].input, ops[id].output).0
    requires KeyCompletable(ops, done + {id}, StoreStep(store, ops[id].input, ops[id].output).1, key)
    ensures KeyCompletable(ops, done, store, key)
  {
    StoreStepIsLocal(store, ops[id].input, ops[id].output, key);
    if ops[id].input.key == key {
      assert done + {id} + Others(ops, key) == done + Others(ops, key) + {id};
      assert Minimal(ops, done + Others(ops, key), id);
    } else {
      assert OnOther(ops, key, id);
      assert done + {id} + Others(ops, key) == done + Others(ops, key);
    }
  }

  ghost predicate ReturnsFirst(ops: seq<KvOp>, done: set<nat>, id: nat) {
    && id < |ops| && id !in done
    && (forall r: nat | r < |ops| && r !in done :: ops[id].ret <= ops[r].ret)
  }

  lemma {:induction false} FirstReturn(ops: seq<KvOp>, done: set<nat>, n: nat) returns (id: nat)
    requires n <= |ops| && exists r: nat :: r < n && r !in done
    ensures id < n && id !in done && forall r: nat | r < n && r !in done :: ops[id].ret <= ops[r].ret
  {
    if exists r: nat :: r < n - 1 && r !in done {
      id := FirstReturn(ops, done, n - 1);
      if n - 1 !in done && ops[n - 1].ret < ops[id].ret { id := n - 1; }
    } else {
      id := n - 1;
    }
  }

  /** Operation `id` of its key can be next, and the key completed after it. */
  ghost predicate GoesNext(ops: seq<KvOp>, done: set<nat>, store: Store, id: nat) {
    && Minimal(ops, done, id) && StoreStep(store, ops[id].input, ops[id].output).0
    && KeyCompletable(ops, done + {id}, StoreStep(store, ops[id].input, ops[id].output).1, ops[id].input.key)
  }

  lemma PickNext(ops: seq<KvOp>, done: set<nat>, store: Store) returns (id: nat)
    requires forall id: nat | id < |ops| :: ops[id].call <= ops[id].ret
    requires !(Ids(ops) <= done) && forall key :: KeyCompletable(ops, done, store, key)
    ensures GoesNext(ops, done, store, id)
  {
    var x :| x in Ids(ops) && x !in done;
    var first := FirstReturn(ops, done, |ops|);
    var key := ops[first].input.key;
    assert KeyCompletable(ops, done, store, key);
    assert IsId(ops, first) && first in Ids(ops) && first !in done + Others(ops, key);
    id :| Minimal(ops, done + Others(ops, key), id) && KvStep(Lookup(store, key), ops[id].input, ops[id].output).0
      && Completable(KvModel(), ops, done + Others(ops, key) + {id},
        KvStep(Lookup(store, key), ops[id].input, ops[id].output).1);
    NextOfKey(ops, done, key, first, id);
    StoreStepIsLocal(store, ops[id].input, ops[id].output, key);
    assert done + Others(ops, key) + {id} == done + {id} + Others(ops, key);
  }

  lemma OtherKeysStay(ops: seq<KvOp>, done: set<nat>, store: Store, id: nat, key: string)
    requires id < |ops| && KeyCompletable(ops, done, store, key) && key != ops[id].input.key
    ensures KeyCompletable(ops, done + {id}, StoreStep(store, ops[id].input, ops[id].output).1, key)
  {
    StoreStepIsLocal(store, ops[id].input, ops[id].output, key);
    assert OnOther(ops, key, id);
    assert done + {id} + Others(ops, key) == done + Others(ops, key);
  }

  lemma {:induction false} MergeKeys(ops: seq<KvOp>, done: set<nat>, store: Store)
    requires forall id: nat | id < |ops| :: ops[id].call <= ops[id].ret
    requires forall key :: KeyCompletable(ops, done, store, key)
    ensures Completable(StoreModel(), ops, done, store)
    decreases Ids(ops) - done
  {
    if !(Ids(ops) <= done) {
      var id := PickNext(ops, done, store);
      var store' := StoreStep(store, ops[id].input, ops[id].output).1;
      forall key ensures KeyCompletable(ops, done + {id}, store', key) {
        if key != ops[id].input.key { OtherKeysStay(ops, done, store, id, key); }
      }
      assert IsId(ops, id);
      MergeKeys(ops, done + {id}, store');
    }
  }

  /** The next operation of the key whose operation returns first may be next of all. */
  lemma NextOfKey(ops: seq<KvOp>, done: set<nat>, key: string, first: nat, id: nat)
    requires forall i: nat | i < |ops| :: ops[i].call <= ops[i].ret
    requires ReturnsFirst(ops, done, first) && ops[first].input.key == key
    requires Minimal(ops, done + Others(ops, key), id)
    ensures Minimal(ops, done, id) && ops[id].input.key == key
  {
    assert !OnOther(ops, key, id);
    assert first !in done + Others(ops, key);
    forall r: nat | r < |ops| && r !in done && r != id ensures !Before(ops[r], ops[id]) {
      assert ops[first].ret <= ops[r].ret;
      assert first != id ==> !Before(ops[first], ops[id]);
    }
  }

  // ---------------------------------------------------------------- the histories of single keys

  /** The operations on one key, in the order of the history. */
  function SubHistory(history: seq<KvOp>, key: string): seq<KvOp> {
    if history == [] then [] else
      var n := |history| - 1;
      SubHistory(history[..n], key) + (if history[n].input.key == key then [history[n]] else [])
  }

  /** `at` gives for every operation of `sub` its place in the history; the rest is in `done`. */
  ghost predicate Selects(ops: seq<KvOp>, done: set<nat>, sub: seq<KvOp>, at: seq<nat>) {
    && |at| == |sub| && Distinct(at)
    && (forall i | 0 <= i < |at| :: at[i] < |ops| && at[i] !in done && sub[i] == ops[at[i]])
    && (forall id: nat | id < |ops| && id !in done :: id in at)
  }

  lemma {:induction false} SubHistorySelects(history: seq<KvOp>, key: string) returns (at: seq<nat>)
    ensures Selects(history, Others(history, key), SubHistory(history, key), at)
  {
    if history == [] {
      at := [];
    } else {
      var n := |history| - 1;
      var front := SubHistorySelects(history[..n], key);
      at := front + if history[n].input.key == key then [n] else [];
      forall id: nat | id < n ensures id in Others(history, key) <==> id in Others(history[..n], key) {
        assert OnOther(history, key, id) <==> OnOther(history[..n], key, id);
      }
      assert n in Others(history, key) <==> OnOther(history, key, n);
      forall id: nat | id < |history| && id !in Others(history, key) ensures id in at {
        if id < n { assert id in front; } else { assert at[|front|] == n; }
      }
    }
  }

  ghost predicate Under(order: seq<nat>, n: nat) {
    forall i | 0 <= i < |order| :: order[i] < n
  }

  /** `order` over the sub-history, as an order over the history. */
  ghost predicate Carries(at: seq<nat>, order: seq<nat>, whole: seq<nat>) {
    Under(order, |at|) && |whole| == |order| && forall i | 0 <= i < |order| :: whole[i] == at[order[i]]
  }

  lemma {:induction false} CarriesAccepts<S>(m: Model<S, KvInput, KvOutput>, s: S, ops: seq<KvOp>, done: set<nat>,
                                             sub: seq<KvOp>, at: seq<nat>,
                                             order: seq<nat>, whole: seq<nat>)
    requires Selects(ops, done, sub, at) && Carries(at, order, whole)
    ensures Under(whole, |ops|) && (Accepts(m, s, sub, order) <==> Accepts(m, s, ops, whole))
    decreases |order|
  {
    if order != [] {
      var op := sub[order[0]];
      CarriesAccepts(m, m.step(s, op.input, op.output).1, ops, done, sub, at, order[1..], whole[1..]);
    }
  }

  lemma CarriesFinishes<S>(m: Model<S, KvInput, KvOutput>, s: S, ops: seq<KvOp>, done: set<nat>, sub: seq<KvOp>,
                           at: seq<nat>,
                           order: seq<nat>, whole: seq<nat>)
    requires Selects(ops, done, sub, at) && Carries(at, order, whole)
    requires Lists(sub, {}, order) && Lists(ops, done, whole)
    ensures Finishes(m, sub, {}, s, order) <==> Finishes(m, ops, done, s, whole)
  {
    CarriesAccepts(m, s, ops, done, sub, at, order, whole);
    assert forall i | 0 <= i < |order| :: sub[order[i]] == ops[whole[i]];
  }

  lemma OrderOutwards(ops: seq<KvOp>, done: set<nat>, sub: seq<KvOp>, at: seq<nat>, order: seq<nat>)
    returns (whole: seq<nat>)
    requires Selects(ops, done, sub, at) && Lists(sub, {}, order)
    ensures Carries(at, order, whole) && Lists(ops, done, whole)
  {
    whole := seq(|order|, i requires 0 <= i < |order| => at[order[i]]);
    forall id: nat | id < |ops| && id !in done ensures id in whole {
      var k: nat :| k < |at| && at[k] == id;
      assert k in order;
      var i :| 0 <= i < |order| && order[i] == k;
      assert whole[i] == id;
    }
  }

  lemma OrderInwards(ops: seq<KvOp>, done: set<nat>, sub: seq<KvOp>, at: seq<nat>, whole: seq<nat>)
    returns (order: seq<nat>)
    requires Selects(ops, done, sub, at) && Lists(ops, done, whole)
    ensures Carries(at, order, whole) && Lists(sub, {}, order)
  {
    order := seq(|whole|, i requires 0 <= i < |whole| => Place(at, whole[i]));
    forall i | 0 <= i < |whole| ensures whole[i] in at && order[i] < |at| && at[order[i]] == whole[i] {}
    forall k: nat | k < |sub| ensures k in order {
      assert at[k] in whole;
      var i :| 0 <= i < |whole| && whole[i] == at[k];
      assert order[i] == k;
    }
  }

  ghost function Place(at: seq<nat>, id: nat): (k: nat)
    ensures id in at ==> k < |at| && at[k] == id
  {
    if id in at then var k: nat :| k < |at| && at[k] == id; k else 0
  }

  /** The history of one key is linearizable exactly when that part of the whole can be completed. */
  lemma SubHistoryCompletable<S>(m: Model<S, KvInput, KvOutput>, ops: seq<KvOp>, done: set<nat>, sub: seq<KvOp>,
                                 at: seq<nat>)
    requires Selects(ops, done, sub, at)
    ensures Linearizable(m, sub) <==> Completable(m, ops, done, m.init)
  {
    if Linearizable(m, sub) {
      var order :| Finishes(m, sub, {}, m.init, order);
      var whole := OrderOutwards(ops, done, sub, at, order);
      CarriesFinishes(m, m.init, ops, done, sub, at, order, whole);
      OrderCompletes(m, ops, done, m.init, whole);
    }
    if Completable(m, ops, done, m.init) {
      var whole := CompletesInOrder(m, ops, done, m.init);
      var order := OrderInwards(ops, done, sub, at, whole);
      CarriesFinishes(m, m.init, ops, done, sub, at, order, whole);
      assert Linearizable(m, sub);
    }
  }

  ghost predicate KeyLinearizable(history: seq<KvOp>, key: string) {
    Linearizable(KvModel(), SubHistory(history, key))
  }

  lemma KeyIsSubHistory(history: seq<KvOp>, key: string)
    ensures KeyLinearizable(history, key) <==> KeyCompletable(history, {}, map[], key)
  {
    var at := SubHistorySelects(history, key);
    SubHistoryCompletable(KvModel(), history, Others(history, key), SubHistory(history, key), at);
    assert {} + Others(history, key) == Others(history, key);
  }

  lemma StoreToKey(history: seq<KvOp>, key: string)
    requires Linearizable(StoreModel(), history)
    ensures KeyLinearizable(history, key)
  {
    LinearizableStepwise(StoreModel(), history);
    SplitByKey(history, {}, map[], key);
    KeyIsSubHistory(history, key);
  }

  lemma KeysToStore(history: seq<KvOp>)
    requires forall id: nat | id < |history| :: history[id].call <= history[id].ret
    requires forall key :: KeyLinearizable(history, key)
    ensures Linearizable(StoreModel(), history)
  {
    LinearizableStepwise(StoreModel(), history);
    forall key ensures KeyCompletable(history, {}, map[], key) { KeyIsSubHistory(history, key); }
    MergeKeys(history, {}, map[]);
  }

  /** Locality: a history of the store is linearizable exactly when its part on every single key is. */
  lemma Locality(history: seq<KvOp>)
    requires forall id: nat | id < |history| :: history[id].call <= history[id].ret
    ensures Linearizable(StoreModel(), history) <==> forall key :: KeyLinearizable(history, key)
  {
    if Linearizable(StoreModel(), history) {
      forall key ensures KeyLinearizable(history, key) { StoreToKey(history, key); }
    }
    if forall key :: KeyLinearizable(history, key) { KeysToStore(history); }
  }
}
