/** From operations with times to entries in order (makeEntries), and what the answer can be when times are equal. */
module Timeline {
  import opened Histories
  import opened SearchTree
  import opened LinkedEntries
  import opened Threads

  // ---------------------------------------------------------------- sorting

  ghost predicate SortedByTime<I, O>(es: seq<Entry<I, O>>) {
    forall i, j | 0 <= i < j < |es| :: es[i].time <= es[j].time
  }

  ghost predicate IsPerm(perm: seq<nat>, n: nat) {
    && |perm| == n && Distinct(perm)
    && (forall k | 0 <= k < n :: perm[k] < n) && (forall x: nat | x < n :: x in perm)
  }

  /** `sorted` is `es` rearranged: place k holds what was at perm[k]. */
  ghost predicate Rearranged<I, O>(es: seq<Entry<I, O>>, sorted: seq<Entry<I, O>>, perm: seq<nat>) {
    IsPerm(perm, |es|) && |sorted| == |es| && forall k | 0 <= k < |es| :: sorted[k] == es[perm[k]]
  }

  /** Any sort will do: only that the result is in order and holds the same entries is used of it. */
  method SortByTime<I, O>(es: seq<Entry<I, O>>) returns (sorted: seq<Entry<I, O>>, ghost perm: seq<nat>)
    ensures SortedByTime(sorted) && Rearranged(es, sorted, perm)
  {
    sorted, perm := [], [];
    var i := 0;
    while i < |es|
      invariant i <= |es| && SortedByTime(sorted) && Rearranged(es[..i], sorted, perm)
    {
      sorted, perm := Insert(es[..i], es[i], sorted, perm);
      assert es[..i] + [es[i]] == es[..i + 1];
      i := i + 1;
    }
    assert es[..i] == es;
  }

  method Insert<I, O>(es: seq<Entry<I, O>>, e: Entry<I, O>, sorted: seq<Entry<I, O>>, ghost perm: seq<nat>)
    returns (sorted': seq<Entry<I, O>>, ghost perm': seq<nat>)
    requires SortedByTime(sorted) && Rearranged(es, sorted, perm)
    ensures SortedByTime(sorted') && Rearranged(es + [e], sorted', perm')
  {
    var j := |sorted|;
    while j > 0 && e.time < sorted[j - 1].time
      invariant 0 <= j <= |sorted| && forall k | j <= k < |sorted| :: e.time < sorted[k].time
    {
      j := j - 1;
    }
    sorted' := sorted[..j] + [e] + sorted[j..];
    perm' := perm[..j] + [|es|] + perm[j..];
    InsertSorted(sorted, e, j);
    InsertRearranged(es, e, sorted, perm, j);
  }

  lemma InsertSorted<I, O>(sorted: seq<Entry<I, O>>, e: Entry<I, O>, j: nat)
    requires SortedByTime(sorted) && j <= |sorted| && (forall k | j <= k < |sorted| :: e.time < sorted[k].time)
    requires j > 0 ==> sorted[j - 1].time <= e.time
    ensures SortedByTime(sorted[..j] + [e] + sorted[j..])
  {
  }

  lemma InsertPerm(perm: seq<nat>, n: nat, j: nat)
    requires IsPerm(perm, n) && j <= n
    ensures IsPerm(perm[..j] + [n] + perm[j..], n + 1)
  {
    var perm' := perm[..j] + [n] + perm[j..];
    assert forall k | 0 <= k < |perm'| :: perm'[k] == if k < j then perm[k] else if k == j then n else perm[k - 1];
    forall x: nat | x <= n ensures x in perm' {
      if x < n {
        var k := Index(perm, x);
        assert perm'[if k < j then k else k + 1] == x;
      } else {
        assert perm'[j] == x;
      }
    }
  }

  lemma InsertRearranged<I, O>(es: seq<Entry<I, O>>, e: Entry<I, O>, sorted: seq<Entry<I, O>>, perm: seq<nat>, j: nat)
    requires Rearranged(es, sorted, perm) && j <= |sorted|
    ensures Rearranged(es + [e], sorted[..j] + [e] + sorted[j..], perm[..j] + [|es|] + perm[j..])
  {
    InsertPerm(perm, |es|, j);
  }

  // ---------------------------------------------------------------- the entries of a history

  /** The entries before they are sorted: call and return of every operation in turn. */
  ghost predicate Laid<I, O>(history: seq<Op<I, O>>, es: seq<Entry<I, O>>) {
    && |es| == 2 * |history|
    && (forall id: nat | id < |history| ::
          && es[2 * id] == Entry(Input(history[id].input), id, history[id].call)
          && es[2 * id + 1] == Entry(Output(history[id].output), id, history[id].ret))
  }

  /** The time of the x-th of these entries. */
  ghost function TimeOf<I, O>(history: seq<Op<I, O>>, x: nat): int
    requires x < 2 * |history|
  {
    if x % 2 == 0 then history[x / 2].call else history[x / 2].ret
  }

  ghost predicate Ascending(perm: seq<nat>, times: seq<int>)
    requires IsPerm(perm, |times|)
  {
    forall i, j | 0 <= i < j < |perm| :: times[perm[i]] <= times[perm[j]]
  }

  ghost function Times<I, O>(history: seq<Op<I, O>>): (r: seq<int>)
    ensures |r| == 2 * |history| && forall x: nat | x < |r| :: r[x] == TimeOf(history, x)
  {
    seq(2 * |history|, x requires 0 <= x < 2 * |history| => TimeOf(history, x))
  }

  /** An order in which a sort by time may leave the entries: nothing is said about equal times. */
  ghost predicate SortOrder<I, O>(history: seq<Op<I, O>>, perm: seq<nat>) {
    IsPerm(perm, 2 * |history|) && Ascending(perm, Times(history))
  }

  /** The operations with their places in that order for times. */
  ghost function Placing<I, O>(history: seq<Op<I, O>>, perm: seq<nat>): (ops: seq<Op<I, O>>)
    requires IsPerm(perm, 2 * |history|)
    ensures |ops| == |history|
    ensures forall id: nat | id < |history| :: PlacedAt(history, perm, ops, id)
  {
    seq(|history|, id requires 0 <= id < |history| =>
      Op(history[id].input, Index(perm, 2 * id), history[id].output, Index(perm, 2 * id + 1)))
  }

  ghost predicate PlacedAt<I, O>(history: seq<Op<I, O>>, perm: seq<nat>, ops: seq<Op<I, O>>, id: nat)
    requires id < |history| == |ops|
  {
    && ops[id].input == history[id].input && ops[id].output == history[id].output
    && 0 <= ops[id].call < |perm| && perm[ops[id].call] == 2 * id
    && 0 <= ops[id].ret < |perm| && perm[ops[id].ret] == 2 * id + 1
  }

  method MakeEntries<I, O>(history: seq<Op<I, O>>) returns (entries: seq<Entry<I, O>>, ghost perm: seq<nat>)
    ensures SortOrder(history, perm) && Describes(entries, Placing(history, perm))
  {
    entries := [];
    var id := 0;
    while id < |history|
      invariant id <= |history| && Laid(history[..id], entries)
    {
      entries := entries + [Entry(Input(history[id].input), id, history[id].call)];
      entries := entries + [Entry(Output(history[id].output), id, history[id].ret)];
      id := id + 1;
    }
    assert history[..id] == history;
    ghost var laid := entries;
    entries, perm := SortByTime(entries);
    SortedInOrder(history, laid, entries, perm);
    PlacingDescribes(history, laid, entries, perm);
  }

  lemma LaidTime<I, O>(history: seq<Op<I, O>>, laid: seq<Entry<I, O>>, x: nat)
    requires Laid(history, laid) && x < |laid|
    ensures laid[x].time == TimeOf(history, x) && laid[x].id == x / 2 && (laid[x].IsReturn() <==> x % 2 == 1)
  {
    var id := x / 2;
    assert x == 2 * id || x == 2 * id + 1;
  }

  lemma SortedInOrder<I, O>(history: seq<Op<I, O>>, laid: seq<Entry<I, O>>, sorted: seq<Entry<I, O>>, perm: seq<nat>)
    requires Laid(history, laid) && SortedByTime(sorted) && Rearranged(laid, sorted, perm)
    ensures SortOrder(history, perm)
  {
    forall k | 0 <= k < |perm| ensures sorted[k].time == TimeOf(history, perm[k]) { LaidTime(history, laid, perm[k]); }
  }

  lemma PlacingDescribes<I, O>(history: seq<Op<I, O>>, laid: seq<Entry<I, O>>, sorted: seq<Entry<I, O>>, perm: seq<nat>)
    requires Laid(history, laid) && Rearranged(laid, sorted, perm) && IsPerm(perm, 2 * |history|)
    ensures Describes(sorted, Placing(history, perm))
  {
    var ops := Placing(history, perm);
    forall id: nat | id < |ops| ensures CallAndReturn(sorted, ops, id) { assert PlacedAt(history, perm, ops, id); }
    forall p: nat | p < |sorted| ensures InPlace(sorted, ops, p) {
      LaidTime(history, laid, perm[p]);
      assert PlacedAt(history, perm, ops, perm[p] / 2);
    }
  }

  // ---------------------------------------------------------------- what times decide

  /** The history with ties read as order: an operation that returns at the time of another's call comes before it. */
  ghost function Touching<I, O>(history: seq<Op<I, O>>): (r: seq<Op<I, O>>)
    ensures |r| == |history|
    ensures forall id: nat | id < |history| :: r[id].input == history[id].input && r[id].output == history[id].output
    ensures forall a: nat, b: nat | a < |history| && b < |history| ::
              Before(r[a], r[b]) <==> history[a].ret <= history[b].call
  {
    seq(|history|, id requires 0 <= id < |history| =>
      Op(history[id].input, 2 * history[id].call + 1, history[id].output, 2 * history[id].ret))
  }

  /** No operation returns at the very time at which another is called. */
  ghost predicate NoTies<I, O>(history: seq<Op<I, O>>) {
    forall a: nat, b: nat | a < |history| && b < |history| && a != b :: history[a].ret != history[b].call
  }

  /** Where fewer pairs of operations are ordered, more orders explain the history. */
  lemma Relax<S, I, O>(m: Model<S, I, O>, tight: seq<Op<I, O>>, loose: seq<Op<I, O>>)
    requires |tight| == |loose|
    requires forall id: nat | id < |tight| :: tight[id].input == loose[id].input && tight[id].output == loose[id].output
    requires forall a: nat, b: nat | a < |tight| && b < |tight| && a != b ::
               Before(loose[a], loose[b]) ==> Before(tight[a], tight[b])
    ensures Linearizable(m, tight) ==> Linearizable(m, loose)
  {
    if Linearizable(m, tight) {
      var order :| Finishes(m, tight, {}, m.init, order);
      SameAccepts(m, m.init, tight, loose, order);
      assert Finishes(m, loose, {}, m.init, order);
    }
  }

  lemma {:induction false} SameAccepts<S, I, O>(m: Model<S, I, O>, s: S, a: seq<Op<I, O>>, b: seq<Op<I, O>>,
                                                order: seq<nat>)
    requires |a| == |b| && forall i | 0 <= i < |order| :: order[i] < |a|
    requires forall id: nat | id < |a| :: a[id].input == b[id].input && a[id].output == b[id].output
    ensures Accepts(m, s, a, order) <==> Accepts(m, s, b, order)
    decreases |order|
  {
    if order != [] {
      var id := order[0];
      SameAccepts(m, m.step(s, a[id].input, a[id].output).1, a, b, order[1..]);
    }
  }

  // ---------------------------------------------------------------- the answers that a sort can lead to

  /** What the search says about the history when the sort leaves the entries in this order. */
  ghost predicate Says<S, I, O>(m: Model<S, I, O>, history: seq<Op<I, O>>, perm: seq<nat>, ok: bool) {
    && SortOrder(history, perm)
    && (ok <==> AllSound(Placing(history, perm)) && Linearizable(m, Placing(history, perm)))
  }

  ghost predicate CanAnswer<S, I, O>(m: Model<S, I, O>, history: seq<Op<I, O>>, ok: bool) {
    exists perm :: Says(m, history, perm, ok)
  }

  ghost predicate Proper<I, O>(history: seq<Op<I, O>>) {
    forall id: nat | id < |history| :: history[id].call < history[id].ret
  }

  ghost predicate NoneBackwards<I, O>(history: seq<Op<I, O>>) {
    forall id: nat | id < |history| :: history[id].call <= history[id].ret
  }

  /** Places follow times. */
  lemma PlacesFollowTimes<I, O>(history: seq<Op<I, O>>, perm: seq<nat>, a: nat, b: nat)
    requires SortOrder(history, perm) && a < |history| && b < |history|
    ensures var ops := Placing(history, perm);
      && (history[a].ret < history[b].call ==> ops[a].ret < ops[b].call)
      && (ops[a].ret < ops[b].call ==> history[a].ret <= history[b].call)
      && (ops[a].call < ops[a].ret ==> history[a].call <= history[a].ret)
      && (history[a].call < history[a].ret ==> ops[a].call < ops[a].ret)
  {
    var ops, times := Placing(history, perm), Times(history);
    assert PlacedAt(history, perm, ops, a) && PlacedAt(history, perm, ops, b);
    assert times[2 * a] == history[a].call && times[2 * a + 1] == history[a].ret && times[2 * b] == history[b].call;
  }

  /** Whatever the sort does, the answer lies between the two readings of ties. */
  lemma BetweenReadings<S, I, O>(m: Model<S, I, O>, history: seq<Op<I, O>>, perm: seq<nat>)
    requires SortOrder(history, perm)
    ensures var ops := Placing(history, perm);
      && (Linearizable(m, Touching(history)) ==> Linearizable(m, ops))
      && (Linearizable(m, ops) ==> Linearizable(m, history))
      && (Proper(history) ==> AllSound(ops)) && (AllSound(ops) ==> NoneBackwards(history))
  {
    var ops := Placing(history, perm);
    SameValues(history, perm);
    forall a: nat, b: nat | a < |history| && b < |history|
      ensures Before(history[a], history[b]) ==> Before(ops[a], ops[b])
      ensures Before(ops[a], ops[b]) ==> history[a].ret <= history[b].call
    {
      PlacesFollowTimes(history, perm, a, b);
    }
    Relax(m, Touching(history), ops);
    Relax(m, ops, history);
    forall a: nat | a < |history|
      ensures (history[a].call < history[a].ret ==> Sound(ops, a))
        && (Sound(ops, a) ==> history[a].call <= history[a].ret)
    {
      PlacesFollowTimes(history, perm, a, a);
    }
  }

  // ---------------------------------------------------------------- both extremes are possible

  lemma {:induction false} SortExists(times: seq<int>) returns (perm: seq<nat>)
    ensures IsPerm(perm, |times|) && Ascending(perm, times)
  {
    if times == [] {
      perm := [];
    } else {
      var n := |times| - 1;
      var front := SortExists(times[..n]);
      var j := PlaceFor(front, times[..n], times[n]);
      perm := front[..j] + [n] + front[j..];
      InsertPerm(front, n, j);
      assert forall k | 0 <= k < |perm| :: perm[k] == if k < j then front[k] else if k == j then n else front[k - 1];
    }
  }

  lemma {:induction false} PlaceFor(perm: seq<nat>, times: seq<int>, time: int) returns (j: nat)
    requires IsPerm(perm, |times|) && Ascending(perm, times)
    ensures j <= |perm| && (forall k | 0 <= k < j :: times[perm[k]] <= time)
      && (forall k | j <= k < |perm| :: time < times[perm[k]])
  {
    j := |perm|;
    while j > 0 && time < times[perm[j - 1]]
      invariant j <= |perm| && forall k | j <= k < |perm| :: time < times[perm[k]]
    {
      j := j - 1;
    }
  }

  /** The times with every tie broken in favour of returns, or of calls. */
  ghost function Tilted<I, O>(history: seq<Op<I, O>>, returnsFirst: bool): (r: seq<int>)
    ensures |r| == 2 * |history|
  {
    seq(2 * |history|, x requires 0 <= x < 2 * |history| => Tilt(history, returnsFirst, x))
  }

  ghost function Tilt<I, O>(history: seq<Op<I, O>>, returnsFirst: bool, x: nat): int
    requires x < 2 * |history|
  {
    2 * TimeOf(history, x) + (if (x % 2 == 0) == returnsFirst then 1 else 0)
  }

  lemma TiltOf<I, O>(history: seq<Op<I, O>>, returnsFirst: bool, id: nat)
    requires id < |history|
    ensures Tilt(history, returnsFirst, 2 * id) == 2 * history[id].call + (if returnsFirst then 1 else 0)
    ensures Tilt(history, returnsFirst, 2 * id + 1) == 2 * history[id].ret + (if returnsFirst then 0 else 1)
  {
  }

  lemma AscendingPlaces(perm: seq<nat>, times: seq<int>, p: nat, q: nat)
    requires IsPerm(perm, |times|) && Ascending(perm, times) && p < |perm| && q < |perm|
    requires times[perm[p]] < times[perm[q]]
    ensures p < q
  {
  }

  lemma TiltedOrder<I, O>(history: seq<Op<I, O>>, returnsFirst: bool) returns (perm: seq<nat>)
    ensures SortOrder(history, perm) && Ascending(perm, Tilted(history, returnsFirst))
  {
    var tilted, times := Tilted(history, returnsFirst), Times(history);
    perm := SortExists(tilted);
    forall x: nat | x < |times| ensures 2 * times[x] <= tilted[x] <= 2 * times[x] + 1 {
      assert tilted[x] == Tilt(history, returnsFirst, x);
    }
  }

  lemma ReturnBeforeCall<I, O>(history: seq<Op<I, O>>, perm: seq<nat>, a: nat, b: nat)
    requires IsPerm(perm, 2 * |history|) && Ascending(perm, Tilted(history, true)) && a < |history| && b < |history|
    ensures history[a].ret <= history[b].call ==> Placing(history, perm)[a].ret < Placing(history, perm)[b].call
  {
    var ops := Placing(history, perm);
    assert PlacedAt(history, perm, ops, a) && PlacedAt(history, perm, ops, b);
    TiltOf(history, true, a);
    TiltOf(history, true, b);
    if history[a].ret <= history[b].call {
      AscendingPlaces(perm, Tilted(history, true), ops[a].ret, ops[b].call);
    }
  }

  lemma CallBeforeReturn<I, O>(history: seq<Op<I, O>>, perm: seq<nat>, a: nat, b: nat)
    requires IsPerm(perm, 2 * |history|) && Ascending(perm, Tilted(history, false)) && a < |history| && b < |history|
    ensures history[b].call <= history[a].ret ==> Placing(history, perm)[b].call < Placing(history, perm)[a].ret
  {
    var ops := Placing(history, perm);
    assert PlacedAt(history, perm, ops, a) && PlacedAt(history, perm, ops, b);
    TiltOf(history, false, a);
    TiltOf(history, false, b);
    if history[b].call <= history[a].ret {
      AscendingPlaces(perm, Tilted(history, false), ops[b].call, ops[a].ret);
    }
  }

  lemma SameValues<I, O>(history: seq<Op<I, O>>, perm: seq<nat>)
    requires IsPerm(perm, 2 * |history|)
    ensures var ops := Placing(history, perm);
      forall id: nat | id < |history| :: ops[id].input == history[id].input && ops[id].output == history[id].output
  {
    var ops := Placing(history, perm);
    forall id: nat | id < |history| ensures ops[id].input == history[id].input && ops[id].output == history[id].output {
      assert PlacedAt(history, perm, ops, id);
    }
  }

  /** One order has every return before the calls of its time: it is the reading of ties as order. */
  lemma ReturnsFirst<S, I, O>(m: Model<S, I, O>, history: seq<Op<I, O>>) returns (perm: seq<nat>)
    ensures SortOrder(history, perm)
    ensures Linearizable(m, Placing(history, perm)) <==> Linearizable(m, Touching(history))
    ensures AllSound(Placing(history, perm)) <==> Proper(history)
  {
    perm := TiltedOrder(history, true);
    BetweenReadings(m, history, perm);
    TightIsTouching(m, history, perm);
    if !Proper(history) {
      var a: nat :| a < |history| && history[a].call >= history[a].ret;
      ReturnBeforeCall(history, perm, a, a);
      assert !Sound(Placing(history, perm), a);
    }
  }

  lemma TightIsTouching<S, I, O>(m: Model<S, I, O>, history: seq<Op<I, O>>, perm: seq<nat>)
    requires IsPerm(perm, 2 * |history|) && Ascending(perm, Tilted(history, true))
    ensures Linearizable(m, Placing(history, perm)) ==> Linearizable(m, Touching(history))
  {
    var ops := Placing(history, perm);
    forall a: nat, b: nat | a < |history| && b < |history|
      ensures Before(Touching(history)[a], Touching(history)[b]) ==> Before(ops[a], ops[b])
    {
      ReturnBeforeCall(history, perm, a, b);
    }
    SameValues(history, perm);
    Relax(m, ops, Touching(history));
  }

  /** And one has every call first: it is the reading of ties as overlap. */
  lemma CallsFirst<S, I, O>(m: Model<S, I, O>, history: seq<Op<I, O>>) returns (perm: seq<nat>)
    ensures SortOrder(history, perm)
    ensures Linearizable(m, Placing(history, perm)) <==> Linearizable(m, history)
    ensures AllSound(Placing(history, perm)) <==> NoneBackwards(history)
  {
    perm := TiltedOrder(history, false);
    BetweenReadings(m, history, perm);
    LooseIsHistory(m, history, perm);
    if NoneBackwards(history) {
      forall a: nat | a < |history| ensures Sound(Placing(history, perm), a) { CallBeforeReturn(history, perm, a, a); }
    }
  }

  lemma LooseIsHistory<S, I, O>(m: Model<S, I, O>, history: seq<Op<I, O>>, perm: seq<nat>)
    requires IsPerm(perm, 2 * |history|) && Ascending(perm, Tilted(history, false))
    ensures Linearizable(m, history) ==> Linearizable(m, Placing(history, perm))
  {
    var ops := Placing(history, perm);
    forall a: nat, b: nat | a < |history| && b < |history|
      ensures Before(ops[a], ops[b]) ==> Before(history[a], history[b])
    {
      CallBeforeReturn(history, perm, a, b);
    }
    SameValues(history, perm);
    Relax(m, history, ops);
  }

  /** Exactly when the search can answer true, and exactly when it can answer false. */
  lemma PossibleAnswers<S, I, O>(m: Model<S, I, O>, history: seq<Op<I, O>>)
    ensures CanAnswer(m, history, true) <==> NoneBackwards(history) && Linearizable(m, history)
    ensures CanAnswer(m, history, false) <==> !Proper(history) || !Linearizable(m, Touching(history))
  {
    forall perm, ok | Says(m, history, perm, ok)
      ensures ok ==> NoneBackwards(history) && Linearizable(m, history)
      ensures !ok ==> !Proper(history) || !Linearizable(m, Touching(history))
    {
      BetweenReadings(m, history, perm);
    }
    var late := CallsFirst(m, history);
    assert NoneBackwards(history) && Linearizable(m, history) ==> Says(m, history, late, true);
    var early := ReturnsFirst(m, history);
    assert !Proper(history) || !Linearizable(m, Touching(history)) ==> Says(m, history, early, false);
  }

  /** The answer is right whatever the sort does with equal times. */
  ghost predicate AlwaysRight<S, I, O>(m: Model<S, I, O>, history: seq<Op<I, O>>) {
    forall ok | CanAnswer(m, history, ok) :: ok <==> Linearizable(m, history)
  }

  /** That is so exactly when reading ties as order makes no difference: a linearizable history has no operation that
      returns when it is called, and stays linearizable when every tie is read as order. */
  lemma RightExactly<S, I, O>(m: Model<S, I, O>, history: seq<Op<I, O>>)
    ensures AlwaysRight(m, history) <==>
      (Linearizable(m, history) ==> Proper(history) && Linearizable(m, Touching(history)))
  {
    PossibleAnswers(m, history);
  }

  /** In particular where no operation returns at the time of a call. */
  lemma NoTiesIsRight<S, I, O>(m: Model<S, I, O>, history: seq<Op<I, O>>)
    requires NoTies(history) && Proper(history)
    ensures AlwaysRight(m, history)
  {
    Relax(m, history, Touching(history));
    RightExactly(m, history);
  }
}
