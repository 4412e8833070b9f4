/** CheckOperations and CheckEvents: whole histories, partition by partition, to a verdict (linearizability.go,
    models.go). */
module CheckHistory {
  import opened Histories
  import opened LinkedEntries
  import opened SearchTree
  import opened Timeline
  import opened Events
  import opened Checker
  import opened KvLocality

  /** The answer of a check; with no partition at all the caller waits for a result that nobody sends. */
  datatype Verdict = Blocks | Answer(ok: bool)

  /** One partition: the answer is one that some order of equal times leads to. */
  method CheckPart<S(==), I, O>(m: Model<S, I, O>, part: seq<Op<I, O>>) returns (ok: bool)
    ensures CanAnswer(m, part, ok)
  {
    var entries; ghost var perm;
    entries, perm := MakeEntries(part);
    var l; ghost var nodes;
    l, nodes := MakeLinkedEntries(entries);
    ok := CheckSingle(m, l, nodes, entries, Placing(part, perm));
    assert Says(m, part, perm, ok);
  }

  /** Every partition is checked by itself; the results come in any order, and the first failure ends the wait. */
  method CheckParts<S(==), I, O>(m: Model<S, I, O>, parts: seq<seq<Op<I, O>>>) returns (v: Verdict)
    ensures parts == [] <==> v.Blocks?
    ensures v == Answer(true) ==> forall i | 0 <= i < |parts| :: CanAnswer(m, parts[i], true)
    ensures v == Answer(false) ==> exists i | 0 <= i < |parts| :: CanAnswer(m, parts[i], false)
  {
    if parts == [] {
      return Blocks;
    }
    var pending := Indices(|parts|);
    var count := 0;
    while count < |parts|
      invariant pending <= Indices(|parts|) && count + |pending| == |parts|
      invariant forall i: nat | i < |parts| && i !in pending :: CanAnswer(m, parts[i], true)
    {
      assert pending != {};
      var i :| i in pending;
      var result := CheckPart(m, parts[i]);
      if !result {
        return Answer(false);
      }
      pending, count := pending - {i}, count + 1;
    }
    v := Answer(true);
  }

  function Indices(n: nat): (r: set<nat>)
    ensures |r| == n && forall i: nat :: i in r <==> i < n
  {
    if n == 0 then {} else Indices(n - 1) + {n - 1}
  }

  /** A model without partitions: the whole history is one. */
  method CheckWhole<S(==), I, O>(m: Model<S, I, O>, history: seq<Op<I, O>>) returns (v: Verdict)
    ensures v.Answer? && CanAnswer(m, history, v.ok)
  {
    v := CheckParts(m, [history]);
    assert v == Answer(true) ==> CanAnswer(m, [history][0], true);
  }

  // ---------------------------------------------------------------- histories of events

  method CheckEventPart<S(==), I, O>(m: Model<S, I, O>, events: seq<Event<I, O>>, ghost ops: seq<Op<I, O>>,
                                     ghost names: seq<nat>)
    returns (ok: bool)
    requires Records(events, ops, names)
    ensures ok <==> Linearizable(m, ops)
  {
    var renumbered := Renumber(events);
    var entries := ConvertEntries(renumbered);
    RenumberedDescribes(events, renumbered, entries, ops, names);
    var l; ghost var nodes;
    l, nodes := MakeLinkedEntries(entries);
    ok := CheckSingle(m, l, nodes, entries, ops);
    RecordedSound(events, ops, names);
  }

  lemma RecordedSound<I, O>(events: seq<Event<I, O>>, ops: seq<Op<I, O>>, names: seq<nat>)
    requires Records(events, ops, names)
    ensures AllSound(ops)
  {
    forall k: nat | k < |ops| ensures Sound(ops, k) { assert RecordedAt(events, ops, names, k); }
  }

  /** The partitions of a history of events, with the operations that each of them records. */
  ghost predicate AllRecorded<I, O>(parts: seq<seq<Event<I, O>>>, opss: seq<seq<Op<I, O>>>, names: seq<seq<nat>>) {
    |opss| == |names| == |parts| && forall i | 0 <= i < |parts| :: Records(parts[i], opss[i], names[i])
  }

  /** What PartitionEvent is when a model leaves it out. */
  function NoPartitionEvent<I, O>(history: seq<Event<I, O>>): seq<seq<Event<I, O>>> {
    [history]
  }

  /** Complete histories of events are answered exactly, whatever the partition. */
  method CheckEvents<S(==), I, O>(m: Model<S, I, O>, partitionEvent: seq<Event<I, O>> -> seq<seq<Event<I, O>>>,
                                  history: seq<Event<I, O>>, ghost opss: seq<seq<Op<I, O>>>,
                                  ghost names: seq<seq<nat>>)
    returns (v: Verdict)
    requires AllRecorded(partitionEvent(history), opss, names)
    ensures v.Blocks? <==> partitionEvent(history) == []
    ensures v.Answer? ==> (v.ok <==> forall i | 0 <= i < |opss| :: Linearizable(m, opss[i]))
  {
    var parts := partitionEvent(history);
    if parts == [] {
      return Blocks;
    }
    var pending := Indices(|parts|);
    var count := 0;
    while count < |parts|
      invariant pending <= Indices(|parts|) && count + |pending| == |parts|
      invariant forall i: nat | i < |parts| && i !in pending :: Linearizable(m, opss[i])
    {
      assert pending != {};
      var i :| i in pending;
      var result := CheckEventPart(m, parts[i], opss[i], names[i]);
      if !result {
        return Answer(false);
      }
      pending, count := pending - {i}, count + 1;
    }
    v := Answer(true);
  }

  // ---------------------------------------------------------------- the key-value store

  /** The operations of the history by key. */
  method Partition(history: seq<KvOp>) returns (parts: seq<seq<KvOp>>, ghost keys: seq<string>)
    ensures |parts| == |keys|
    ensures forall i | 0 <= i < |parts| :: parts[i] == SubHistory(history, keys[i]) && parts[i] != []
    ensures forall key :: SubHistory(history, key) != [] ==> key in keys
    ensures forall i, j | 0 <= i < j < |keys| :: keys[i] != keys[j]
  {
    var m := GroupByKey(history);
    parts, keys := [], [];
    var rest := m.Keys;
    while rest != {}
      invariant rest <= m.Keys && |parts| == |keys|
      invariant forall i | 0 <= i < |parts| :: keys[i] in m && keys[i] !in rest && parts[i] == m[keys[i]]
      invariant forall key | key in m && key !in rest :: key in keys
      invariant forall i, j | 0 <= i < j < |keys| :: keys[i] != keys[j]
      decreases |rest|
    {
      var key :| key in rest;
      parts, keys := parts + [m[key]], keys + [key];
      rest := rest - {key};
    }
  }

  /** Every key of the history has its operations, and no other key is there. */
  ghost predicate Grouped(history: seq<KvOp>, m: map<string, seq<KvOp>>) {
    forall key ::
      if key in m then m[key] == SubHistory(history, key) && m[key] != [] else SubHistory(history, key) == []
  }

  method GroupByKey(history: seq<KvOp>) returns (m: map<string, seq<KvOp>>)
    ensures Grouped(history, m)
  {
    m := map[];
    for i := 0 to |history|
      invariant Grouped(history[..i], m)
    {
      var v := history[i];
      var key := v.input.key;
      GroupOneMore(history[..i], m, v);
      assert history[..i] + [v] == history[..i + 1];
      m := m[key := (if key in m then m[key] else []) + [v]];
    }
    assert history[..|history|] == history;
  }

  lemma GroupOneMore(history: seq<KvOp>, m: map<string, seq<KvOp>>, v: KvOp)
    requires Grouped(history, m)
    ensures Grouped(history + [v], m[v.input.key := (if v.input.key in m then m[v.input.key] else []) + [v]])
  {
    assert (history + [v])[..|history|] == history;
  }

  lemma {:induction false} SubOfTouching(history: seq<KvOp>, key: string)
    ensures SubHistory(Touching(history), key) == Touching(SubHistory(history, key))
  {
    if history != [] {
      var n := |history| - 1;
      SubOfTouching(history[..n], key);
      assert Touching(history)[..n] == Touching(history[..n]);
    }
  }

  lemma {:induction false} InItsSubHistory(history: seq<KvOp>, id: nat)
    requires id < |history|
    ensures history[id] in SubHistory(history, history[id].input.key)
  {
    var n := |history| - 1;
    if id < n {
      InItsSubHistory(history[..n], id);
    } else {
      var sub := SubHistory(history, history[n].input.key);
      assert sub[|sub| - 1] == history[n];
    }
  }

  lemma {:induction false} SubHistoryWithin(history: seq<KvOp>, key: string, i: nat)
    requires i < |SubHistory(history, key)|
    ensures SubHistory(history, key)[i] in history
  {
    var n := |history| - 1;
    if i < |SubHistory(history[..n], key)| {
      SubHistoryWithin(history[..n], key, i);
    }
  }

  ghost predicate KeyProper(history: seq<KvOp>, key: string) { Proper(SubHistory(history, key)) }

  ghost predicate KeyForwards(history: seq<KvOp>, key: string) { NoneBackwards(SubHistory(history, key)) }

  /** A history is proper, or free of operations that return before their call, exactly when all its parts are. */
  lemma SubHistoriesAlike(history: seq<KvOp>)
    ensures Proper(history) <==> forall key :: KeyProper(history, key)
    ensures NoneBackwards(history) <==> forall key :: KeyForwards(history, key)
  {
    forall id: nat | id < |history|
      ensures KeyProper(history, history[id].input.key) ==> history[id].call < history[id].ret
      ensures KeyForwards(history, history[id].input.key) ==> history[id].call <= history[id].ret
    {
      OpOfKey(history, id);
    }
    forall key
      ensures Proper(history) ==> KeyProper(history, key)
      ensures NoneBackwards(history) ==> KeyForwards(history, key)
    {
      KeyOfOps(history, key);
    }
  }

  lemma OpOfKey(history: seq<KvOp>, id: nat)
    requires id < |history|
    ensures KeyProper(history, history[id].input.key) ==> history[id].call < history[id].ret
    ensures KeyForwards(history, history[id].input.key) ==> history[id].call <= history[id].ret
  {
    InItsSubHistory(history, id);
    var i :| 0 <= i < |SubHistory(history, history[id].input.key)|
          && SubHistory(history, history[id].input.key)[i] == history[id];
  }

  lemma KeyOfOps(history: seq<KvOp>, key: string)
    ensures Proper(history) ==> KeyProper(history, key)
    ensures NoneBackwards(history) ==> KeyForwards(history, key)
  {
    forall i: nat | i < |SubHistory(history, key)|
      ensures Proper(history) ==> SubHistory(history, key)[i].call < SubHistory(history, key)[i].ret
      ensures NoneBackwards(history) ==> SubHistory(history, key)[i].call <= SubHistory(history, key)[i].ret
    {
      SubHistoryWithin(history, key, i);
    }
  }

  lemma NothingIsLinearizable<S, I, O>(m: Model<S, I, O>)
    ensures Linearizable(m, [])
  {
    assert Finishes(m, [], {}, m.init, []);
  }

  lemma HasAKey(history: seq<KvOp>)
    requires history != []
    ensures SubHistory(history, history[|history| - 1].input.key) != []
  {
  }

  ghost predicate KeyCanAnswer(history: seq<KvOp>, key: string, ok: bool) {
    CanAnswer(KvModel(), SubHistory(history, key), ok)
  }

  /** The verdicts that the sorts of the single keys can lead to: each key is sorted by itself. */
  ghost predicate CanAnswerStore(history: seq<KvOp>, ok: bool) {
    if ok then forall key :: KeyCanAnswer(history, key, true) else exists key :: KeyCanAnswer(history, key, false)
  }

  /** CheckOperations with the key-value model. */
  method CheckOperations(history: seq<KvOp>) returns (v: Verdict)
    ensures v.Blocks? <==> history == []
    ensures v.Answer? ==> CanAnswerStore(history, v.ok)
  {
    var parts; ghost var keys;
    parts, keys := Partition(history);
    v := CheckParts(KvModel(), parts);
    if history != [] { HasAKey(history); }
    assert parts != [] ==> SubHistory(history, keys[0]) != [];
    if v == Answer(true) {
      AllKeysAnswer(history, parts, keys);
    } else if v == Answer(false) {
      ghost var i :| 0 <= i < |parts| && CanAnswer(KvModel(), parts[i], false);
      assert KeyCanAnswer(history, keys[i], false);
    }
  }

  lemma AllKeysAnswer(history: seq<KvOp>, parts: seq<seq<KvOp>>, keys: seq<string>)
    requires |parts| == |keys| && forall i | 0 <= i < |parts| :: parts[i] == SubHistory(history, keys[i])
    requires forall key :: SubHistory(history, key) != [] ==> key in keys
    requires forall i | 0 <= i < |parts| :: CanAnswer(KvModel(), parts[i], true)
    ensures CanAnswerStore(history, true)
  {
    forall key ensures KeyCanAnswer(history, key, true) {
      if SubHistory(history, key) == [] {
        NothingIsLinearizable(KvModel());
        PossibleAnswers(KvModel(), []);
      } else {
        var i :| 0 <= i < |keys| && keys[i] == key;
        assert CanAnswer(KvModel(), parts[i], true);
      }
    }
  }

  /** Exactly when the per-key checks can say that the store is linearizable, and when that it is not. */
  lemma StoreAnswers(history: seq<KvOp>)
    ensures CanAnswerStore(history, true) <==> NoneBackwards(history) && Linearizable(StoreModel(), history)
    ensures CanAnswerStore(history, false) <==> !Proper(history) || !Linearizable(StoreModel(), Touching(history))
  {
    SubHistoriesAlike(history);
    forall key
      ensures KeyCanAnswer(history, key, true) <==> KeyForwards(history, key) && KeyLinearizable(history, key)
      ensures KeyCanAnswer(history, key, false)
        <==> !KeyProper(history, key) || !KeyLinearizable(Touching(history), key)
    {
      KeyAnswers(history, key);
    }
    if NoneBackwards(history) { Locality(history); }
    if Proper(history) { Locality(Touching(history)); }
  }

  lemma KeyAnswers(history: seq<KvOp>, key: string)
    ensures KeyCanAnswer(history, key, true) <==> KeyForwards(history, key) && KeyLinearizable(history, key)
    ensures KeyCanAnswer(history, key, false) <==> !KeyProper(history, key) || !KeyLinearizable(Touching(history), key)
  {
    PossibleAnswers(KvModel(), SubHistory(history, key));
    SubOfTouching(history, key);
  }

  /** The verdict is right whatever the sorts do with equal times. */
  ghost predicate StoreAlwaysRight(history: seq<KvOp>) {
    forall ok | CanAnswerStore(history, ok) :: ok <==> Linearizable(StoreModel(), history)
  }

  /** That is so exactly when reading ties as order makes no difference. */
  lemma StoreRightExactly(history: seq<KvOp>)
    ensures StoreAlwaysRight(history) <==>
      (Linearizable(StoreModel(), history) ==> Proper(history) && Linearizable(StoreModel(), Touching(history)))
  {
    StoreAnswers(history);
  }

  // ---------------------------------------------------------------- ties

  /** A put that returns at the time at which a get is called, which answers the value before the put. */
  ghost function TiedHistory(): seq<KvOp> {
    [Op(KvInput(1, "k", "v"), 0, KvOutput(""), 1), Op(KvInput(0, "k", ""), 1, KvOutput(""), 2)]
  }

  lemma TiedLoosely()
    ensures Linearizable(KvModel(), TiedHistory())
  {
    var h := TiedHistory();
    assert Accepts(KvModel(), "v", h, []);
    assert [1, 0][1..] == [0] && [0][1..] == [];
    assert Accepts(KvModel(), "", h, [0]);
    assert Finishes(KvModel(), h, {}, "", [1, 0]);
  }

  lemma TiedTightly()
    ensures !Linearizable(KvModel(), Touching(TiedHistory()))
  {
    var t := Touching(TiedHistory());
    forall id: nat | Minimal(t, {}, id) ensures id == 0 { assert Before(t[0], t[1]); }
    assert IsId(t, 0) && IsId(t, 1);
    GetAfterPut(t);
    assert {} + {0} == {0};
    LinearizableStepwise(KvModel(), t);
  }

  lemma GetAfterPut(t: seq<KvOp>)
    requires |t| == 2 && t[1].input.op == 0 && t[1].output.value == ""
    ensures !Completable(KvModel(), t, {0}, "v")
  {
    assert IsId(t, 1) && 1 in Ids(t);
    forall id: nat | Minimal(t, {0}, id) ensures !KvStep("v", t[id].input, t[id].output).0 {}
  }

  /** With this tie both answers are possible, and only one of them is right. */
  lemma TiesMatter()
    ensures CanAnswer(KvModel(), TiedHistory(), true) && CanAnswer(KvModel(), TiedHistory(), false)
    ensures Linearizable(KvModel(), TiedHistory())
  {
    TiedLoosely();
    TiedTightly();
    PossibleAnswers(KvModel(), TiedHistory());
  }

  // ---------------------------------------------------------------- events of several keys

  /** CheckEvents with the key-value model, which has no PartitionEvent: one string is decided, whatever the keys. */
  method CheckKvEvents(history: seq<Event<KvInput, KvOutput>>, ghost ops: seq<KvOp>, ghost names: seq<nat>)
    returns (v: Verdict)
    requires Records(history, ops, names)
    ensures v.Answer? && (v.ok <==> Linearizable(KvModel(), ops))
  {
    v := CheckEvents(KvModel(), NoPartitionEvent<KvInput, KvOutput>, history, [ops], [names]);
    assert [ops][0] == ops;
  }

  /** A put to one key and then a get of another, which answers what the history says. */
  ghost function TwoKeys(a: string, b: string, answer: string): seq<KvOp> {
    [Op(KvInput(1, a, "v"), 0, KvOutput(""), 1), Op(KvInput(0, b, ""), 2, KvOutput(answer), 3)]
  }

  ghost function TwoKeysEvents(a: string, b: string, answer: string): seq<Event<KvInput, KvOutput>> {
    [Event(Input(KvInput(1, a, "v")), 0), Event(Output(KvOutput("")), 0),
     Event(Input(KvInput(0, b, "")), 1), Event(Output(KvOutput(answer)), 1)]
  }

  /** The key-value model has no partition of events and its steps ignore the key: checked as events, such a history is
      taken for one of a single string, which is wrong both ways. */
  lemma EventsForgetKeys(a: string, b: string)
    requires a != b
    ensures Linearizable(StoreModel(), TwoKeys(a, b, "")) && !Linearizable(KvModel(), TwoKeys(a, b, ""))
    ensures !Linearizable(StoreModel(), TwoKeys(a, b, "v")) && Linearizable(KvModel(), TwoKeys(a, b, "v"))
  {
    InSequence(StoreModel(), TwoKeys(a, b, ""), map[a := "v"]);
    InSequence(KvModel(), TwoKeys(a, b, ""), "v");
    InSequence(StoreModel(), TwoKeys(a, b, "v"), map[a := "v"]);
    InSequence(KvModel(), TwoKeys(a, b, "v"), "v");
  }

  lemma TwoKeysRecorded(a: string, b: string, answer: string)
    ensures Records(TwoKeysEvents(a, b, answer), TwoKeys(a, b, answer), [0, 1])
  {
    var events, ops := TwoKeysEvents(a, b, answer), TwoKeys(a, b, answer);
    assert RecordedAt(events, ops, [0, 1], 0) && RecordedAt(events, ops, [0, 1], 1);
    assert IsEventOf(events, ops, 0, 0) && IsEventOf(events, ops, 1, 0);
    assert IsEventOf(events, ops, 2, 1) && IsEventOf(events, ops, 3, 1);
  }

  ghost predicate UsesOnly(history: seq<KvOp>, keys: set<string>) {
    forall id: nat | id < |history| :: history[id].input.key in keys
  }

  /** CheckEvents with the key-value model decides the whole store for every complete history on these keys. */
  ghost predicate EventsRight(keys: set<string>) {
    forall events: seq<Event<KvInput, KvOutput>>, ops: seq<KvOp>, names: seq<nat> |
      Records(events, ops, names) && UsesOnly(ops, keys) ::
      Linearizable(KvModel(), ops) <==> Linearizable(StoreModel(), ops)
  }

  /** That is so exactly when there is at most one key. */
  lemma EventsRightExactly(keys: set<string>)
    ensures EventsRight(keys) <==> |keys| <= 1
  {
    if |keys| <= 1 {
      forall events: seq<Event<KvInput, KvOutput>>, ops: seq<KvOp>, names: seq<nat> |
        Records(events, ops, names) && UsesOnly(ops, keys)
        ensures Linearizable(KvModel(), ops) <==> Linearizable(StoreModel(), ops)
      {
        RecordedForwards(events, ops, names);
        AtMostOneKey(ops, keys);
      }
    } else {
      var a, b := TwoOf(keys);
      TwoKeysRecorded(a, b, "");
      EventsForgetKeys(a, b);
      assert UsesOnly(TwoKeys(a, b, ""), keys);
    }
  }

  lemma RecordedForwards<I, O>(events: seq<Event<I, O>>, ops: seq<Op<I, O>>, names: seq<nat>)
    requires Records(events, ops, names)
    ensures NoneBackwards(ops)
  {
    forall k: nat | k < |ops| ensures ops[k].call <= ops[k].ret { assert RecordedAt(events, ops, names, k); }
  }

  lemma TwoOf(keys: set<string>) returns (a: string, b: string)
    requires |keys| > 1
    ensures a in keys && b in keys && a != b
  {
    a :| a in keys;
    assert |keys - {a}| == |keys| - 1;
    b :| b in keys - {a};
  }

  lemma AtMostOneKey(history: seq<KvOp>, keys: set<string>)
    requires |keys| <= 1 && UsesOnly(history, keys) && NoneBackwards(history)
    ensures Linearizable(KvModel(), history) <==> Linearizable(StoreModel(), history)
  {
    if history == [] {
      NothingIsLinearizable(KvModel());
      NothingIsLinearizable(StoreModel());
    } else {
      var key := history[0].input.key;
      assert |keys - {key}| == |keys| - 1 == 0;
      assert forall k | k in keys :: k !in keys - {key};
      OneKeyAlike(history, key);
    }
  }

  /** A history on one key is linearizable for the store exactly when it is for one string. */
  lemma OneKeyAlike(history: seq<KvOp>, key: string)
    requires NoneBackwards(history) && forall id: nat | id < |history| :: history[id].input.key == key
    ensures Linearizable(KvModel(), history) <==> Linearizable(StoreModel(), history)
  {
    Locality(history);
    AllOfOneKey(history, key, key);
    forall other: string ensures other != key ==> KeyLinearizable(history, other) {
      AllOfOneKey(history, key, other);
      NothingIsLinearizable(KvModel());
    }
    assert KeyLinearizable(history, key) <==> Linearizable(KvModel(), history);
  }

  lemma {:induction false} AllOfOneKey(history: seq<KvOp>, key: string, other: string)
    requires forall id: nat | id < |history| :: history[id].input.key == key
    ensures SubHistory(history, other) == if other == key then history else []
  {
    if history != [] { AllOfOneKey(history[..|history| - 1], key, other); }
  }

  /** Two operations one after the other are linearizable exactly when the model takes them in that order. */
  lemma InSequence<S>(m: Model<S, KvInput, KvOutput>, h: seq<KvOp>, s: S)
    requires |h| == 2 && h[0].ret < h[1].call && h[1].call < h[1].ret && h[0].call < h[0].ret
    requires m.step(m.init, h[0].input, h[0].output) == (true, s)
    ensures Linearizable(m, h) <==> m.step(s, h[1].input, h[1].output).0
  {
    assert IsId(h, 0) && IsId(h, 1) && 0 in Ids(h) && 1 in Ids(h);
    forall id: nat | Minimal(h, {}, id) ensures id == 0 { assert Before(h[0], h[1]); }
    forall id: nat | Minimal(h, {0}, id) ensures id == 1 {}
    assert Minimal(h, {}, 0) && Minimal(h, {0}, 1) && {} + {0} == {0};
    assert Completable(m, h, {0} + {1}, m.step(s, h[1].input, h[1].output).1);
    LinearizableStepwise(m, h);
  }
}
