/** Histories recorded as events: renumber and convertEntries (linearizability.go). */
module Events {
  import opened Histories
  import opened LinkedEntries
  import opened Threads

  /** A call or a return event, told apart by the value it carries, of the operation with this id. */
  datatype Event<I, O> = Event(value: Value<I, O>, id: nat)

  /** Equal ids stay equal and different ones different, and every number follows all smaller ones. */
  ghost predicate Renumbered<I, O>(events: seq<Event<I, O>>, r: seq<Event<I, O>>) {
    && |r| == |events| && (forall i | 0 <= i < |r| :: r[i].value == events[i].value)
    && (forall i, j | 0 <= i < |r| && 0 <= j < |r| :: r[i].id == r[j].id <==> events[i].id == events[j].id)
    && (forall i: nat, n: nat | i < |r| && n < r[i].id :: UsedBefore(r, i, n))
  }

  ghost predicate UsedBefore<I, O>(r: seq<Event<I, O>>, i: nat, n: nat) {
    exists j :: 0 <= j < i && j < |r| && r[j].id == n
  }

  method Renumber<I, O>(events: seq<Event<I, O>>) returns (r: seq<Event<I, O>>)
    ensures Renumbered(events, r)
  {
    r := [];
    var numbers: map<nat, nat> := map[];
    var id := 0;
    for i := 0 to |events|
      invariant |r| == i && forall k | 0 <= k < i :: r[k].value == events[k].value
      invariant forall k | 0 <= k < i :: events[k].id in numbers && r[k].id == numbers[events[k].id]
      invariant forall a, b | a in numbers && b in numbers :: numbers[a] == numbers[b] ==> a == b
      invariant forall a | a in numbers :: numbers[a] < id
      invariant forall n: nat | n < id :: UsedBefore(r, i, n)
      invariant forall k: nat, n: nat | k < i && n < r[k].id :: UsedBefore(r, k, n)
    {
      var v := events[i];
      ghost var r0 := r;
      if v.id in numbers {
        r := r + [Event(v.value, numbers[v.id])];
      } else {
        r := r + [Event(v.value, id)];
        numbers := numbers[v.id := id];
        id := id + 1;
      }
      forall k: nat, n: nat | k <= i && UsedBefore(r0, k, n) ensures UsedBefore(r, k, n) && UsedBefore(r, i + 1, n) {
        var j :| 0 <= j < k && j < |r0| && r0[j].id == n;
        assert r[j].id == n;
      }
      ghost var next := i + 1;
      assert r[i].id == numbers[v.id] && UsedBefore(r, next, r[i].id);
      forall n: nat | n < id ensures UsedBefore(r, next, n) {
        assert UsedBefore(r0, i, n) || n == r[i].id;
      }
    }
  }

  method ConvertEntries<I, O>(events: seq<Event<I, O>>) returns (entries: seq<Entry<I, O>>)
    ensures |entries| == |events|
    ensures forall i | 0 <= i < |events| :: entries[i] == Entry(events[i].value, events[i].id, -1)
  {
    entries := [];
    for i := 0 to |events|
      invariant |entries| == i && forall k | 0 <= k < i :: entries[k] == Entry(events[k].value, events[k].id, -1)
    {
      entries := entries + [Entry(events[i].value, events[i].id, -1)];
    }
  }

  // ---------------------------------------------------------------- what complete histories become

  /** The events are the calls and returns of the operations, listed by their calls, under the ids `names`. */
  ghost predicate Records<I, O>(events: seq<Event<I, O>>, ops: seq<Op<I, O>>, names: seq<nat>) {
    && |events| == 2 * |ops| && |names| == |ops| && Distinct(names)
    && (forall k: nat | k < |ops| :: RecordedAt(events, ops, names, k))
    && (forall p: nat | p < |events| :: HasOwner(events, ops, p))
    && (forall k: nat, l: nat | k < l < |ops| :: ops[k].call < ops[l].call)
  }

  ghost predicate RecordedAt<I, O>(events: seq<Event<I, O>>, ops: seq<Op<I, O>>, names: seq<nat>, k: nat)
    requires k < |ops| && |names| == |ops|
  {
    && 0 <= ops[k].call < ops[k].ret < |events|
    && events[ops[k].call] == Event(Input(ops[k].input), names[k])
    && events[ops[k].ret] == Event(Output(ops[k].output), names[k])
  }

  ghost predicate IsEventOf<I, O>(events: seq<Event<I, O>>, ops: seq<Op<I, O>>, p: nat, k: nat)
    requires p < |events| && k < |ops|
  {
    p == if events[p].value.Output? then ops[k].ret else ops[k].call
  }

  ghost predicate HasOwner<I, O>(events: seq<Event<I, O>>, ops: seq<Op<I, O>>, p: nat)
    requires p < |events|
  {
    exists k: nat :: k < |ops| && IsEventOf(events, ops, p, k)
  }

  /** The operation called k-th gets the number k. */
  lemma {:induction false} NumberedByCall<I, O>(events: seq<Event<I, O>>, r: seq<Event<I, O>>, ops: seq<Op<I, O>>,
                                                names: seq<nat>, k: nat)
    requires Records(events, ops, names) && Renumbered(events, r) && k < |ops|
    ensures RecordedAt(events, ops, names, k) && r[ops[k].call].id == k
  {
    var c := ops[k].call;
    assert RecordedAt(events, ops, names, k);
    forall j: nat | j < c ensures r[j].id != k {
      assert HasOwner(events, ops, j);
      var l: nat :| l < |ops| && IsEventOf(events, ops, j, l);
      assert RecordedAt(events, ops, names, l);
      assert l < k;
      NumberedByCall(events, r, ops, names, l);
    }
    assert !UsedBefore(r, c, k);
    if r[c].id < k {
      NumberedByCall(events, r, ops, names, r[c].id);
      assert false;
    }
  }

  lemma RenumberedDescribes<I, O>(events: seq<Event<I, O>>, r: seq<Event<I, O>>, entries: seq<Entry<I, O>>,
                                  ops: seq<Op<I, O>>, names: seq<nat>)
    requires Records(events, ops, names) && Renumbered(events, r) && |entries| == |r|
    requires forall i | 0 <= i < |r| :: entries[i] == Entry(r[i].value, r[i].id, -1)
    ensures Describes(entries, ops)
  {
    forall k: nat | k < |ops| ensures CallAndReturn(entries, ops, k) { NumberedByCall(events, r, ops, names, k); }
    forall p: nat | p < |entries| ensures InPlace(entries, ops, p) {
      assert HasOwner(events, ops, p);
      var k: nat :| k < |ops| && IsEventOf(events, ops, p, k);
      NumberedByCall(events, r, ops, names, k);
    }
  }
}
