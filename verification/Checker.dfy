/** checkSingle: the search that decides whether one history is linearizable (linearizability.go). */
module Checker {
  import opened Histories
  import opened SearchTree
  import opened LinkedEntries
  import opened Threads
  import opened ConfigCache
  import Bitset

  /** The id of the head of the list, all ones. */
  const NO_ID: nat := 0xFFFF_FFFF_FFFF_FFFF

  datatype CallsEntry<S, I, O> = CallsEntry(entry: Node<I, O>, state: S)

  // ---------------------------------------------------------------- the invariant

  /** The search stands after `path`, and has ruled out or still pursues all it has seen. */
  ghost predicate Progress<S, I, O>(m: Model<S, I, O>, ops: seq<Op<I, O>>, path: seq<nat>, states: seq<S>,
                                    seen: set<(set<nat>, S)>) {
    Walk(m, ops, path, states) && Settled(m, ops, path, states, seen) && seen <= Reach(m, ops, |ops|)
  }

  /** Of what the path leaves over, everything before place t has been tried. */
  ghost predicate Ahead<S, I, O>(m: Model<S, I, O>, sc: Scene<I, O>, path: seq<nat>, states: seq<S>, t: nat)
    requires |states| == |path| + 1
  {
    && Tried(m, sc.ops, Done(path), states[|path|], t)
    && t <= |sc.es| && (t < |sc.es| ==> LiveAt(sc.es, Done(path), t))
  }

  // ---------------------------------------------------------------- what the present entry is

  lemma SomethingLeft<S, I, O>(m: Model<S, I, O>, sc: Scene<I, O>, path: seq<nat>, states: seq<S>, t: nat)
    requires Threaded(sc, path) && sc.head.next != null && |states| == |path| + 1 && Ahead(m, sc, path, states, t)
    ensures t < |sc.es|
  {
    var u := FirstInList(sc, Done(path));
    var id := sc.es[u].id;
    assert InPlace(sc.es, sc.ops, u) && CallAndReturn(sc.es, sc.ops, id);
    assert Left(sc.ops, Done(path), id);
  }

  lemma NothingLeft<S, I, O>(m: Model<S, I, O>, sc: Scene<I, O>, path: seq<nat>, states: seq<S>)
    requires Threaded(sc, path) && sc.head.next == null && Walk(m, sc.ops, path, states)
    ensures AllSound(sc.ops) && Linearizable(m, sc.ops)
  {
    var u := FirstInList(sc, Done(path));
    assert Ids(sc.ops) <= Done(path) by {
      forall id: nat | id in Ids(sc.ops) ensures id in Done(path) {
        assert CallAndReturn(sc.es, sc.ops, id);
        assert id !in Done(path) ==> Left(sc.ops, Done(path), id);
      }
    }
    forall id: nat | id < |sc.ops| ensures Sound(sc.ops, id) {
      assert IsId(sc.ops, id) && id in Done(path);
      var j: nat :| j < |path| && path[j] == id;
      assert TakenAt(m, sc.ops, path, states, j);
    }
    assert path[..|path|] == path;
    WalkBack(m, sc.ops, path, states, |path|);
    LinearizableStepwise(m, sc.ops);
  }

  lemma EntryAt<I, O>(sc: Scene<I, O>, done: set<nat>, t: nat)
    requires sc.Valid() && LiveAt(sc.es, done, t)
    ensures var id := sc.nodes[t].id;
      && sc.HasOp(id) && Left(sc.ops, done, id)
      && if sc.nodes[t].mate == null then t == sc.ops[id].ret || sc.ops[id].ret < t else
           && t == sc.ops[id].call && Sound(sc.ops, id)
           && sc.nodes[t].value == Input(sc.ops[id].input) && sc.nodes[t].mate.value == Output(sc.ops[id].output)
  {
    assert StandsFor(sc.nodes, 0, sc.es, t) && InPlace(sc.es, sc.ops, t);
    var id := sc.es[t].id;
    MateIsReturn(sc.es, sc.ops, sc.nodes, id);
    assert StandsFor(sc.nodes, 0, sc.es, sc.ops[id].ret);
  }

  // ---------------------------------------------------------------- the moves

  /** A candidate that leads nowhere is passed over. */
  lemma PassOver<S, I, O>(m: Model<S, I, O>, sc: Scene<I, O>, path: seq<nat>, states: seq<S>, id: nat) returns (u: nat)
    requires Threaded(sc, path) && |states| == |path| + 1 && sc.HasOp(id) && Left(sc.ops, Done(path), id)
    requires Tried(m, sc.ops, Done(path), states[|path|], sc.ops[id].call)
    requires !Leads(m, sc.ops, Done(path), states[|path|], id)
    ensures sc.ops[id].call < u && sc.nodes[sc.ops[id].call].next == NodeAt(sc, u) && Ahead(m, sc, path, states, u)
  {
    u := AfterInList(sc, Done(path), sc.ops[id].call);
    DescribedApart(sc.es, sc.ops);
    KeepTrying(m, sc.ops, Done(path), states[|path|], id, u);
  }

  /** After a step forward the search begins again at the front of the list. */
  lemma BeginAgain<S, I, O>(m: Model<S, I, O>, sc: Scene<I, O>, path: seq<nat>, states: seq<S>) returns (u: nat)
    requires Threaded(sc, path) && |states| == |path| + 1
    ensures sc.head.next == NodeAt(sc, u) && Ahead(m, sc, path, states, u)
  {
    u := FirstInList(sc, Done(path));
    DescribedApart(sc.es, sc.ops);
    StartTrying(m, sc.ops, Done(path), states[|path|], u);
  }

  lemma StepForward<S, I, O>(m: Model<S, I, O>, ops: seq<Op<I, O>>, path: seq<nat>, states: seq<S>,
                             seen: set<(set<nat>, S)>, id: nat, s: S)
    requires Progress(m, ops, path, states, seen) && Left(ops, Done(path), id) && Sound(ops, id)
    requires Tried(m, ops, Done(path), states[|path|], ops[id].call) && StepOf(m, ops, states[|path|], id) == (true, s)
    ensures Progress(m, ops, path + [id], states + [s], seen + {(Done(path) + {id}, s)})
    ensures (Done(path) + {id}, s) in Reach(m, ops, |ops|)
  {
    WalkOn(m, ops, path, states, id);
    SettledOn(m, ops, path, states, seen, id, s);
    DoneMore(path, id);
    WalkWithin(m, ops, path + [id], states + [s]);
  }

  lemma WalkWithin<S, I, O>(m: Model<S, I, O>, ops: seq<Op<I, O>>, path: seq<nat>, states: seq<S>)
    requires Walk(m, ops, path, states)
    ensures (Done(path), states[|path|]) in Reach(m, ops, |ops|)
  {
    forall id | id in Done(path) ensures id in Ids(ops) {
      var j: nat :| j < |path| && path[j] == id;
      assert TakenAt(m, ops, path, states, j) && IsId(ops, id);
    }
    DoneSize(path);
    IdsSize(ops);
    Smaller(Done(path), Ids(ops));
    WalkReaches(m, ops, path, states, |path|);
    assert path[..|path|] == path;
    ReachGrows(m, ops, |path|, |ops|);
  }

  lemma {:induction false} Smaller(a: set<nat>, b: set<nat>)
    requires a <= b
    ensures |a| <= |b|
  {
    if a != {} {
      var x :| x in a;
      Smaller(a - {x}, b - {x});
    }
  }

  lemma {:induction false} IdsSize<I, O>(ops: seq<Op<I, O>>)
    ensures |Ids(ops)| == |ops|
  {
    if ops != [] {
      var front := ops[..|ops| - 1];
      IdsSize(front);
      assert Ids(ops) == Ids(front) + {|ops| - 1} by {
        forall id: nat ensures id in Ids(ops) <==> id in Ids(front) + {|ops| - 1} {
          assert IsId(ops, id) == (id < |ops|) && IsId(front, id) == (id < |front|);
        }
      }
    }
  }

  /** Where nothing is left to try, the last step is taken back and passed over. */
  lemma StepBackward<S, I, O>(m: Model<S, I, O>, ops: seq<Op<I, O>>, path: seq<nat>, states: seq<S>,
                              seen: set<(set<nat>, S)>, path': seq<nat>, id: nat)
    requires Progress(m, ops, path, states, seen) && path == path' + [id]
    requires !Finishable(m, ops, Done(path), states[|path|])
    ensures Progress(m, ops, path', states[..|path|], seen) && Left(ops, Done(path'), id)
    ensures Tried(m, ops, Done(path'), states[|path'|], ops[id].call)
      && !Leads(m, ops, Done(path'), states[|path'|], id)
  {
    assert path[..|path'|] == path';
    WalkLess(m, ops, path, states);
    SettledLess(m, ops, path, states, seen);
    assert TakenAt(m, ops, path, states, |path'|);
    DoneMore(path', id);
  }

  // ---------------------------------------------------------------- the bitset and the cache

  /** The bitset holds the operations taken, apart from the cache, and the cache what was seen. */
  ghost predicate Marked<S>(linearized: array<bv64>, cache: Cache<S>, repr: set<array<bv64>>, done: set<nat>,
                            seen: set<(set<nat>, S)>)
    reads linearized, repr
  {
    && Bitset.Members(linearized[..]) == done && linearized !in repr
    && Remembers(cache, repr, linearized.Length, seen)
  }

  /** Has the configuration been seen that taking operation `id` leads to? */
  method Probe<S(==)>(linearized: array<bv64>, cache: Cache<S>, id: nat, newState: S, ghost repr: set<array<bv64>>,
                      ghost done: set<nat>, ghost seen: set<(set<nat>, S)>)
    returns (newEntry: CacheEntry<S>, cached: bool)
    requires Marked(linearized, cache, repr, done, seen) && id < 64 * linearized.Length
    ensures fresh(newEntry.linearized) && newEntry.linearized.Length == linearized.Length
    ensures ConfigOf(newEntry) == (done + {id}, newState) && (cached <==> (done + {id}, newState) in seen)
  {
    var newLinearized := Bitset.Clone(linearized);
    Bitset.Set(newLinearized, id);
    newEntry := CacheEntry(newLinearized, newState);
    cached := CacheContains(cache, newEntry, repr, linearized.Length, seen);
  }

  method Record<S, I, O>(linearized: array<bv64>, cache: Cache<S>, id: nat, newEntry: CacheEntry<S>,
                         ghost repr: set<array<bv64>>,
                   ghost done: set<nat>, ghost seen: set<(set<nat>, S)>, ghost sc: Scene<I, O>)
    returns (cache': Cache<S>)
    requires Marked(linearized, cache, repr, done, seen) && id < 64 * linearized.Length
    requires newEntry.linearized != linearized && newEntry.linearized.Length == linearized.Length
    modifies linearized
    ensures Marked(linearized, cache', repr + {newEntry.linearized}, done + {id}, seen + {old(ConfigOf(newEntry))})
    ensures unchanged(sc.head) && unchanged(sc.nodes)
  {
    var hash := Bitset.Hash(newEntry.linearized);
    RemembersOneMore(cache, repr, linearized.Length, seen, newEntry);
    cache' := Filing(cache, Key(hash), newEntry);
    Bitset.Set(linearized, id);
  }

  method Unmark<S, I, O>(linearized: array<bv64>, cache: Cache<S>, id: nat, ghost repr: set<array<bv64>>,
                   ghost done: set<nat>, ghost seen: set<(set<nat>, S)>, ghost sc: Scene<I, O>)
    requires Marked(linearized, cache, repr, done + {id}, seen) && id !in done && id < 64 * linearized.Length
    modifies linearized
    ensures Marked(linearized, cache, repr, done, seen) && unchanged(sc.head) && unchanged(sc.nodes)
  {
    Bitset.Clear(linearized, id);
  }

  // ---------------------------------------------------------------- checkSingle

  /** The stack of calls is the path with the states before its steps. */
  ghost predicate Stacked<S, I, O>(calls: seq<CallsEntry<S, I, O>>, sc: Scene<I, O>, path: seq<nat>, states: seq<S>) {
    && |calls| == |path| == |states| - 1
    && (forall j: nat | j < |path| :: StackedAt(calls[j], sc, path[j], states[j]))
  }

  ghost predicate StackedAt<S, I, O>(call: CallsEntry<S, I, O>, sc: Scene<I, O>, id: nat, s: S) {
    sc.HasOp(id) && call == CallsEntry(sc.nodes[sc.ops[id].call], s)
  }

  /** What the search has done so far: the path and its states, what was seen, and the place it looks at. */
  datatype Trace<S(==)> = Trace(path: seq<nat>, states: seq<S>, seen: set<(set<nat>, S)>, t: nat)

  ghost predicate Searching<S, I, O>(m: Model<S, I, O>, sc: Scene<I, O>, tr: Trace<S>, calls: seq<CallsEntry<S, I, O>>,
                                     state: S, entry: Node?<I, O>)
    reads sc.head, sc.nodes
  {
    && Threaded(sc, tr.path) && Progress(m, sc.ops, tr.path, tr.states, tr.seen)
    && Stacked(calls, sc, tr.path, tr.states) && state == tr.states[|tr.path|]
    && Ahead(m, sc, tr.path, tr.states, tr.t) && entry == NodeAt(sc, tr.t)
  }

  /** A candidate becomes the next step: it is pushed on the stack and taken out of the list. */
  method Push<S(==), I, O>(m: Model<S, I, O>, head: Node<I, O>, entry: Node<I, O>, state: S, newState: S,
                           calls: seq<CallsEntry<S, I, O>>,
                       ghost sc: Scene<I, O>, ghost tr: Trace<S>, ghost bits: set<array<bv64>>)
    returns (entry': Node?<I, O>, calls': seq<CallsEntry<S, I, O>>, ghost tr': Trace<S>)
    requires Searching(m, sc, tr, calls, state, entry) && head == sc.head && sc.HasOp(entry.id)
    requires Left(sc.ops, Done(tr.path), entry.id) && tr.t == sc.ops[entry.id].call && Sound(sc.ops, entry.id)
    requires StepOf(m, sc.ops, state, entry.id) == (true, newState)
    modifies sc.head`next, sc.head`prev, sc.nodes`next, sc.nodes`prev
    ensures Searching(m, sc, tr', calls', newState, entry') && unchanged(bits)
    ensures tr'.path == tr.path + [entry.id] && tr'.seen == tr.seen + {(Done(tr.path) + {entry.id}, newState)}
  {
    PushFacts(m, sc, tr, calls, CallsEntry(entry, state), newState);
    calls' := calls + [CallsEntry(entry, state)];
    TakeOut(entry, sc, tr.path, entry.id, bits);
    entry' := head.next;
    ghost var path, states := tr.path + [entry.id], tr.states + [newState];
    ghost var u := BeginAgain(m, sc, path, states);
    tr' := Trace(path, states, tr.seen + {(Done(tr.path) + {entry.id}, newState)}, u);
  }

  /** What a step forward needs to know, without the list. */
  lemma PushFacts<S, I, O>(m: Model<S, I, O>, sc: Scene<I, O>, tr: Trace<S>, calls: seq<CallsEntry<S, I, O>>,
                           call: CallsEntry<S, I, O>, s: S)
    requires Progress(m, sc.ops, tr.path, tr.states, tr.seen) && Stacked(calls, sc, tr.path, tr.states)
    requires StackedAt(call, sc, call.entry.id, tr.states[|tr.path|]) && Left(sc.ops, Done(tr.path), call.entry.id)
    requires Sound(sc.ops, call.entry.id)
    requires Tried(m, sc.ops, Done(tr.path), tr.states[|tr.path|], sc.ops[call.entry.id].call)
    requires StepOf(m, sc.ops, tr.states[|tr.path|], call.entry.id) == (true, s)
    ensures var id := call.entry.id; var path, states := tr.path + [id], tr.states + [s];
      && Progress(m, sc.ops, path, states, tr.seen + {(Done(tr.path) + {id}, s)})
      && Stacked(calls + [call], sc, path, states)
  {
    var id := call.entry.id;
    var path, states := tr.path + [id], tr.states + [s];
    StepForward(m, sc.ops, tr.path, tr.states, tr.seen, id, s);
    forall j: nat | j < |path| ensures StackedAt((calls + [call])[j], sc, path[j], states[j]) {
      if j < |tr.path| { assert StackedAt(calls[j], sc, tr.path[j], tr.states[j]); }
    }
  }

  /** The last step is taken back, and the search goes on behind it. */
  method Pop<S(==), I, O>(m: Model<S, I, O>, calls: seq<CallsEntry<S, I, O>>, ghost sc: Scene<I, O>,
                          ghost tr: Trace<S>, ghost state: S, ghost entry: Node?<I, O>,
                      ghost bits: set<array<bv64>>)
    returns (entry': Node?<I, O>, state': S, calls': seq<CallsEntry<S, I, O>>, id: nat, ghost tr': Trace<S>)
    requires Searching(m, sc, tr, calls, state, entry) && calls != []
    requires !Finishable(m, sc.ops, Done(tr.path), state)
    modifies sc.head`next, sc.head`prev, sc.nodes`next, sc.nodes`prev
    ensures Searching(m, sc, tr', calls', state', entry') && |calls'| < |calls| && unchanged(bits)
    ensures tr'.seen == tr.seen && id !in Done(tr'.path) && Done(tr.path) == Done(tr'.path) + {id} && id < |sc.ops|
  {
    var callsTop := calls[|calls| - 1];
    ghost var k := |tr.path| - 1;
    ghost var path' := tr.path[..k];
    var top := callsTop.entry;
    state' := callsTop.state;
    id := top.id;
    PopFacts(m, sc, tr, calls, path');
    calls' := calls[..|calls| - 1];
    PutBack(top, sc, tr.path, path', id, bits);
    ghost var u := PassOver(m, sc, path', tr.states[..k + 1], id);
    entry' := top.next;
    tr' := Trace(path', tr.states[..k + 1], tr.seen, u);
  }

  /** What taking back the last step needs to know, without the list. */
  lemma PopFacts<S, I, O>(m: Model<S, I, O>, sc: Scene<I, O>, tr: Trace<S>, calls: seq<CallsEntry<S, I, O>>,
                          path': seq<nat>)
    requires sc.Valid() && Progress(m, sc.ops, tr.path, tr.states, tr.seen) && Stacked(calls, sc, tr.path, tr.states)
    requires tr.path != [] && path' == tr.path[..|tr.path| - 1]
    requires !Finishable(m, sc.ops, Done(tr.path), tr.states[|tr.path|])
    ensures var call := calls[|calls| - 1]; var id := call.entry.id; var states' := tr.states[..|tr.path|];
      && tr.path == path' + [id] && StackedAt(call, sc, id, states'[|path'|]) && Left(sc.ops, Done(path'), id)
      && Done(tr.path) == Done(path') + {id}
      && Progress(m, sc.ops, path', states', tr.seen) && Stacked(calls[..|calls| - 1], sc, path', states')
      && Tried(m, sc.ops, Done(path'), states'[|path'|], sc.ops[id].call)
      && !Leads(m, sc.ops, Done(path'), states'[|path'|], id)
  {
    var k := |tr.path| - 1;
    var id := tr.path[k];
    assert tr.path == path' + [id];
    assert StackedAt(calls[k], sc, id, tr.states[k]);
    MateIsReturn(sc.es, sc.ops, sc.nodes, id);
    assert StandsFor(sc.nodes, 0, sc.es, sc.ops[id].call);
    StepBackward(m, sc.ops, tr.path, tr.states, tr.seen, path', id);
    DoneMore(path', id);
    forall j: nat | j < k ensures StackedAt(calls[j], sc, tr.path[j], tr.states[j]) {}
  }

  /** A new configuration is recorded and stepped into. */
  method StepInto<S(==), I, O>(m: Model<S, I, O>, head: Node<I, O>, entry: Node<I, O>, state: S,
                               newEntry: CacheEntry<S>,
                               calls: seq<CallsEntry<S, I, O>>, linearized: array<bv64>, cache: Cache<S>,
                               ghost sc: Scene<I, O>, ghost tr: Trace<S>, ghost repr: set<array<bv64>>)
    returns (entry': Node?<I, O>, calls': seq<CallsEntry<S, I, O>>, cache': Cache<S>, ghost tr': Trace<S>,
             ghost repr': set<array<bv64>>)
    requires Searching(m, sc, tr, calls, state, entry) && head == sc.head && sc.HasOp(entry.id)
    requires Left(sc.ops, Done(tr.path), entry.id) && tr.t == sc.ops[entry.id].call && Sound(sc.ops, entry.id)
    requires StepOf(m, sc.ops, state, entry.id) == (true, newEntry.state)
    requires Marked(linearized, cache, repr, Done(tr.path), tr.seen) && |sc.ops| <= 64 * linearized.Length
    requires newEntry.linearized != linearized && newEntry.linearized.Length == linearized.Length
    requires ConfigOf(newEntry) == (Done(tr.path) + {entry.id}, newEntry.state)
    modifies sc.head`next, sc.head`prev, sc.nodes`next, sc.nodes`prev, linearized
    ensures Searching(m, sc, tr', calls', newEntry.state, entry')
    ensures Marked(linearized, cache', repr', Done(tr'.path), tr'.seen)
    ensures tr'.seen == tr.seen + {(Done(tr.path) + {entry.id}, newEntry.state)}
  {
    cache' := Record(linearized, cache, entry.id, newEntry, repr, Done(tr.path), tr.seen, sc);
    repr' := repr + {newEntry.linearized};
    DoneMore(tr.path, entry.id);
    entry', calls', tr' := Push(m, head, entry, state, newEntry.state, calls, sc, tr, repr' + {linearized});
  }

  /** One turn at a call: it is tried, or passed over when it leads nowhere. */
  method TryCall<S(==), I, O>(m: Model<S, I, O>, head: Node<I, O>, entry: Node<I, O>, state: S,
                              calls: seq<CallsEntry<S, I, O>>, linearized: array<bv64>, cache: Cache<S>,
                              ghost sc: Scene<I, O>, ghost tr: Trace<S>, ghost repr: set<array<bv64>>)
    returns (entry': Node?<I, O>, state': S, calls': seq<CallsEntry<S, I, O>>, cache': Cache<S>, ghost tr': Trace<S>,
             ghost repr': set<array<bv64>>)
    requires Searching(m, sc, tr, calls, state, entry) && head == sc.head && entry.mate != null
    requires Marked(linearized, cache, repr, Done(tr.path), tr.seen) && |sc.ops| <= 64 * linearized.Length
    modifies sc.head`next, sc.head`prev, sc.nodes`next, sc.nodes`prev, linearized
    ensures Searching(m, sc, tr', calls', state', entry') && Marked(linearized, cache', repr', Done(tr'.path), tr'.seen)
    ensures tr'.seen > tr.seen || (tr'.seen == tr.seen && calls' == calls && tr'.t > tr.t)
  {
    EntryAt(sc, Done(tr.path), tr.t);
    var matching := entry.mate;
    var (ok, newState) := m.step(state, entry.value.input, matching.value.output);
    assert StepOf(m, sc.ops, state, entry.id) == (ok, newState);
    if ok {
      var newEntry, cached := Probe(linearized, cache, entry.id, newState, repr, Done(tr.path), tr.seen);
      if !cached {
        entry', calls', cache', tr', repr' :=
          StepInto(m, head, entry, state, newEntry, calls, linearized, cache, sc, tr, repr);
        state' := newState;
        return;
      }
      SeenFails(m, sc.ops, tr.path, tr.states, tr.seen, entry.id, newState);
    }
    ghost var u := PassOver(m, sc, tr.path, tr.states, entry.id);
    entry', state', calls', cache', tr', repr' := entry.next, state, calls, cache, tr.(t := u), repr;
  }

  /** The search always answers, and answers true exactly when every call stands before its return and the history is
      linearizable. */
  method CheckSingle<S(==), I, O>(m: Model<S, I, O>, subhistory: Node?<I, O>, ghost nodes: seq<Node<I, O>>,
                                  ghost es: seq<Entry<I, O>>, ghost ops: seq<Op<I, O>>)
    returns (ok: bool)
    requires Linked(nodes) && subhistory == First(nodes) && Represents(nodes, es) && Describes(es, ops)
    modifies nodes`next, nodes`prev
    ensures ok <==> AllSound(ops) && Linearizable(m, ops)
  {
    var count := Length(subhistory, nodes);
    var linearized := Bitset.NewBitset(count / 2);
    var cache: Cache<S> := map[];
    var calls: seq<CallsEntry<S, I, O>> := [];
    var state := m.init;
    var head := new Node(Nil, null, NO_ID);
    var headEntry := Prepend(head, subhistory, nodes);
    var entry := subhistory;
    ghost var sc := Scene(headEntry, nodes, es, ops);
    ghost var tr, repr: set<array<bv64>> := Trace([], [state], {}, 0), {};
    StartSearching(m, sc, calls, state, entry, tr);
    while headEntry.next != null
      invariant Searching(m, sc, tr, calls, state, entry)
      invariant Marked(linearized, cache, repr, Done(tr.path), tr.seen)
      invariant fresh(linearized) && |ops| <= 64 * linearized.Length
      decreases Reach(m, ops, |ops|) - tr.seen, |calls|, |es| - tr.t
    {
      SomethingLeft(m, sc, tr.path, tr.states, tr.t);
      if entry.mate != null {
        entry, state, calls, cache, tr, repr :=
          TryCall(m, headEntry, entry, state, calls, linearized, cache, sc, tr, repr);
      } else {
        ReturnIsDeadEnd(m, sc, tr, calls, state, entry);
        if |calls| == 0 {
          LinearizableStepwise(m, ops);
          return false;
        }
        var id;
        entry, state, calls, id, tr := Pop(m, calls, sc, tr, state, entry, repr + {linearized});
        Unmark(linearized, cache, id, repr, Done(tr.path), tr.seen, sc);
      }
    }
    NothingLeft(m, sc, tr.path, tr.states);
    ok := true;
  }

  lemma StartSearching<S, I, O>(m: Model<S, I, O>, sc: Scene<I, O>, calls: seq<CallsEntry<S, I, O>>, state: S,
                                entry: Node?<I, O>, tr: Trace<S>)
    requires sc.Valid() && Linked([sc.head] + sc.nodes) && calls == [] && state == m.init && entry == First(sc.nodes)
    requires tr == Trace([], [state], {}, 0)
    ensures Done(tr.path) == {} && Searching(m, sc, tr, calls, state, entry)
  {
    RestOfAll(sc);
    DescribedApart(sc.es, sc.ops);
    assert Done([]) == {};
  }

  lemma ReturnIsDeadEnd<S, I, O>(m: Model<S, I, O>, sc: Scene<I, O>, tr: Trace<S>, calls: seq<CallsEntry<S, I, O>>,
                                 state: S, entry: Node<I, O>)
    requires Searching(m, sc, tr, calls, state, entry) && entry.mate == null
    ensures !Finishable(m, sc.ops, Done(tr.path), state)
    ensures calls == [] ==> !Finishable(m, sc.ops, {}, m.init)
  {
    EntryAt(sc, Done(tr.path), tr.t);
    DescribedApart(sc.es, sc.ops);
    assert tr.t <= sc.ops[entry.id].ret;
    DeadEnd(m, sc.ops, Done(tr.path), state, entry.id);
    assert tr.path == [] ==> Done(tr.path) == {};
  }
}
