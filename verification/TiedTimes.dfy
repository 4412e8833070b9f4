/** For which times a check of operations is right whatever was done at them. */
module TiedTimes {
  import opened Histories
  import opened Threads
  import opened Timeline
  import opened KvLocality
  import opened CheckHistory

  /** The same number of operations at the same times. */
  ghost predicate SameTimes<I, O>(g: seq<Op<I, O>>, h: seq<Op<I, O>>) {
    |g| == |h| && forall id: nat | id < |h| :: g[id].call == h[id].call && g[id].ret == h[id].ret
  }

  /** Some order respects real time; operations that return before their call can rule out every order. */
  ghost predicate Orderable<I, O>(h: seq<Op<I, O>>) {
    exists order :: Lists(h, {}, order) && KeepsRealTime(h, order)
  }

  /** The verdict on one string is right at these times for all inputs and outputs and whatever the sort does. */
  ghost predicate RightAtTimes(h: seq<KvOp>) {
    forall g: seq<KvOp> | SameTimes(g, h) :: AlwaysRight(KvModel(), g)
  }

  /** The same for the whole store, checked key by key. */
  ghost predicate StoreRightAtTimes(h: seq<KvOp>) {
    forall g: seq<KvOp> | SameTimes(g, h) :: StoreAlwaysRight(g)
  }

  /** Every operation returns after its call, and no return ties with the call of another. */
  ghost predicate Clear<I, O>(h: seq<Op<I, O>>) {
    Proper(h) && NoTies(h)
  }

  lemma LinearizableIsOrderable<S, I, O>(m: Model<S, I, O>, g: seq<Op<I, O>>, h: seq<Op<I, O>>)
    requires SameTimes(g, h) && Linearizable(m, g)
    ensures Orderable(h)
  {
    var order :| Finishes(m, g, {}, m.init, order);
    OrderAtTimes(g, h, order);
  }

  lemma OrderAtTimes<I, O>(g: seq<Op<I, O>>, h: seq<Op<I, O>>, order: seq<nat>)
    requires SameTimes(g, h) && Lists(g, {}, order) && KeepsRealTime(g, order)
    ensures Lists(h, {}, order) && KeepsRealTime(h, order)
  {
    forall i, j | 0 <= i < j < |order| ensures !Before(h[order[j]], h[order[i]]) {
      assert !Before(g[order[j]], g[order[i]]);
    }
  }

  // ---------------------------------------------------------------- where the check is right

  lemma ClearAtTimes<I, O>(g: seq<Op<I, O>>, h: seq<Op<I, O>>)
    requires SameTimes(g, h) && Clear(h)
    ensures Clear(g)
  {
    forall a: nat, b: nat | a < |g| && b < |g| && a != b ensures g[a].ret != g[b].call {
      assert h[a].ret != h[b].call;
    }
  }

  lemma RightWhereClear(h: seq<KvOp>)
    requires Orderable(h) ==> Clear(h)
    ensures RightAtTimes(h) && StoreRightAtTimes(h)
  {
    forall g: seq<KvOp> | SameTimes(g, h) ensures AlwaysRight(KvModel(), g) && StoreAlwaysRight(g) {
      if Clear(h) { ClearAtTimes(g, h); }
      RightOnce(g, h);
    }
  }

  lemma RightOnce(g: seq<KvOp>, h: seq<KvOp>)
    requires SameTimes(g, h) && (Orderable(h) ==> Clear(g))
    ensures AlwaysRight(KvModel(), g) && StoreAlwaysRight(g)
  {
    if Linearizable(KvModel(), g) { LinearizableIsOrderable(KvModel(), g, h); }
    if Linearizable(StoreModel(), g) { LinearizableIsOrderable(StoreModel(), g, h); }
    if Clear(g) {
      Relax(KvModel(), g, Touching(g));
      Relax(StoreModel(), g, Touching(g));
    }
    RightExactly(KvModel(), g);
    StoreRightExactly(g);
  }

  // ---------------------------------------------------------------- operations that change nothing

  ghost predicate Neutral(g: seq<KvOp>, id: nat)
    requires id < |g|
  {
    g[id].input == KvInput(2, "x", "")
  }

  ghost function AllNeutral(h: seq<KvOp>): (g: seq<KvOp>)
    ensures SameTimes(g, h) && forall id: nat | id < |g| :: Neutral(g, id)
  {
    seq(|h|, id requires 0 <= id < |h| => Op(KvInput(2, "x", ""), h[id].call, KvOutput(""), h[id].ret))
  }

  lemma {:induction false} NeutralAccepted<S>(m: Model<S, KvInput, KvOutput>, s: S, g: seq<KvOp>, order: seq<nat>)
    requires forall i | 0 <= i < |order| :: order[i] < |g|
    requires forall s: S, id: nat | id < |g| :: m.step(s, g[id].input, g[id].output).0
    ensures Accepts(m, s, g, order)
    decreases |order|
  {
    if order != [] {
      NeutralAccepted(m, m.step(s, g[order[0]].input, g[order[0]].output).1, g, order[1..]);
    }
  }

  /** With an operation that does not return after its call, a history of operations that change nothing is judged
      wrongly, if any order respects its times. */
  lemma WrongWhereImproper(h: seq<KvOp>)
    requires Orderable(h) && !Proper(h)
    ensures !RightAtTimes(h) && !StoreRightAtTimes(h)
  {
    var g := AllNeutral(h);
    var order :| Lists(h, {}, order) && KeepsRealTime(h, order);
    OrderAtTimes(h, g, order);
    NeutralAccepted(KvModel(), "", g, order);
    NeutralAccepted(StoreModel(), map[], g, order);
    assert Finishes(KvModel(), g, {}, "", order) && Finishes(StoreModel(), g, {}, map[], order);
    var id: nat :| id < |h| && h[id].call >= h[id].ret;
    assert g[id].call >= g[id].ret;
    RightExactly(KvModel(), g);
    StoreRightExactly(g);
  }

  // ---------------------------------------------------------------- a tie between two operations

  /** Operation a gets what operation b puts, and nothing else changes anything. */
  ghost predicate GetsFrom(g: seq<KvOp>, a: nat, b: nat) {
    && a < |g| && b < |g| && a != b
    && g[a].input == KvInput(0, "x", "") && g[a].output == KvOutput("v") && g[b].input == KvInput(1, "x", "v")
    && forall id: nat | id < |g| && id != a && id != b :: Neutral(g, id)
  }

  ghost function Getting(h: seq<KvOp>, a: nat, b: nat): (g: seq<KvOp>)
    requires a < |h| && b < |h| && a != b
    ensures SameTimes(g, h) && GetsFrom(g, a, b)
  {
    AllNeutral(h)[a := Op(KvInput(0, "x", ""), h[a].call, KvOutput("v"), h[a].ret)]
                 [b := Op(KvInput(1, "x", "v"), h[b].call, KvOutput(""), h[b].ret)]
  }

  /** Every get comes after the put. */
  ghost predicate PutFirst(order: seq<nat>, a: nat, b: nat) {
    forall i: nat | i < |order| && order[i] == a :: Occurs(order, i, b)
  }

  ghost predicate Occurs(order: seq<nat>, n: nat, b: nat)
    requires n <= |order|
  {
    exists j: nat :: j < n && order[j] == b
  }

  lemma {:induction false} PutThenGet(g: seq<KvOp>, a: nat, b: nat, s: string, order: seq<nat>)
    requires GetsFrom(g, a, b) && (forall i | 0 <= i < |order| :: order[i] < |g|)
    requires s == "v" || PutFirst(order, a, b)
    ensures Accepts(KvModel(), s, g, order)
    decreases |order|
  {
    if order != [] {
      var id := order[0];
      if id == b {
        PutThenGet(g, a, b, "v", order[1..]);
      } else {
        assert id != a ==> Neutral(g, id) && s + "" == s;
        assert !Occurs(order, 0, b);
        if s != "v" { PutFirstLater(order, a, b); }
        PutThenGet(g, a, b, s, order[1..]);
      }
    }
  }

  lemma PutFirstLater(order: seq<nat>, a: nat, b: nat)
    requires order != [] && order[0] != b && PutFirst(order, a, b)
    ensures PutFirst(order[1..], a, b)
  {
    forall i: nat | i < |order[1..]| && order[1..][i] == a ensures Occurs(order[1..], i, b) {
      assert Occurs(order, i + 1, b);
      var j: nat :| j < i + 1 && order[j] == b;
      assert order[1..][j - 1] == b;
    }
  }

  /** A point of time for every operation, within its call and return, with that of b just before that of a. */
  ghost function Points(h: seq<KvOp>, a: nat, b: nat): (r: seq<int>)
    requires a < |h| && b < |h| && a != b && h[a].ret == h[b].call && Proper(h)
    ensures |r| == |h| && forall id: nat | id < |h| :: 2 * h[id].call <= r[id] <= 2 * h[id].ret + 1
    ensures r[b] < r[a]
  {
    seq(|h|, id requires 0 <= id < |h| => if id == a then 2 * h[a].ret + 1 else 2 * h[id].call)
  }

  lemma PutBeforeGet(h: seq<KvOp>, a: nat, b: nat) returns (order: seq<nat>)
    requires a < |h| && b < |h| && a != b && h[a].ret == h[b].call && Proper(h)
    ensures Lists(h, {}, order) && KeepsRealTime(h, order) && PutFirst(order, a, b)
  {
    var points := Points(h, a, b);
    order := SortExists(points);
    forall i, j | 0 <= i < j < |order| ensures !Before(h[order[j]], h[order[i]]) {
      assert points[order[i]] <= points[order[j]];
    }
    forall i: nat | i < |order| && order[i] == a ensures Occurs(order, i, b) {
      var j := Index(order, b);
      assert points[order[j]] < points[order[i]];
    }
  }

  lemma {:induction false} GetFails(g: seq<KvOp>, a: nat, b: nat, order: seq<nat>, i: nat)
    requires GetsFrom(g, a, b) && (forall k | 0 <= k < |order| :: order[k] < |g|)
    requires i < |order| && order[i] == a && forall k | 0 <= k < i :: order[k] != b
    ensures !Accepts(KvModel(), "", g, order)
    decreases i
  {
    if i > 0 && order[0] != a {
      assert Neutral(g, order[0]) && "" + "" == "";
      GetFails(g, a, b, order[1..], i - 1);
    }
  }

  lemma InThisOrder<I, O>(t: seq<Op<I, O>>, order: seq<nat>, i: nat, j: nat)
    requires Lists(t, {}, order) && KeepsRealTime(t, order) && i < |order| && j < |order| && i != j
    requires Before(t[order[i]], t[order[j]])
    ensures i < j
  {
  }

  lemma NotWhenTouching(g: seq<KvOp>, a: nat, b: nat)
    requires GetsFrom(g, a, b) && g[a].ret == g[b].call
    ensures !Linearizable(KvModel(), Touching(g))
  {
    var t := Touching(g);
    assert GetsFrom(t, a, b) by {
      forall id: nat | id < |t| && id != a && id != b ensures Neutral(t, id) { assert Neutral(g, id); }
    }
    forall order | Finishes(KvModel(), t, {}, "", order) ensures false {
      var i, j := Index(order, a), Index(order, b);
      InThisOrder(t, order, i, j);
      GetFails(t, a, b, order, i);
    }
  }

  /** With a tie, a get that may overlap with the put it reads from is judged wrongly. */
  lemma WrongWhereTied(h: seq<KvOp>, a: nat, b: nat)
    requires a < |h| && b < |h| && a != b && h[a].ret == h[b].call && Proper(h)
    ensures !RightAtTimes(h) && !StoreRightAtTimes(h)
  {
    var g := Getting(h, a, b);
    var order := PutBeforeGet(h, a, b);
    OrderAtTimes(h, g, order);
    PutThenGet(g, a, b, "", order);
    assert Finishes(KvModel(), g, {}, "", order);
    NotWhenTouching(g, a, b);
    RightExactly(KvModel(), g);
    SameForStore(g);
    StoreRightExactly(g);
  }

  lemma SameForStore(g: seq<KvOp>)
    requires Proper(g) && forall id: nat | id < |g| :: g[id].input.key == "x"
    ensures Linearizable(StoreModel(), g) <==> Linearizable(KvModel(), g)
    ensures Linearizable(StoreModel(), Touching(g)) <==> Linearizable(KvModel(), Touching(g))
  {
    OneKeyAlike(g, "x");
    OneKeyAlike(Touching(g), "x");
  }

  /** At given times the verdict is right for all inputs and outputs and every sort exactly when no order respects the
      times at all, or all operations return after their call and no return ties with another call. */
  lemma TimesDecide(h: seq<KvOp>)
    ensures RightAtTimes(h) <==> (Orderable(h) ==> Clear(h))
    ensures StoreRightAtTimes(h) <==> (Orderable(h) ==> Clear(h))
  {
    if Orderable(h) ==> Clear(h) {
      RightWhereClear(h);
    } else if !Proper(h) {
      WrongWhereImproper(h);
    } else {
      var a: nat, b: nat :| a < |h| && b < |h| && a != b && h[a].ret == h[b].call;
      WrongWhereTied(h, a, b);
    }
  }

  /** Operations that return no earlier than their call can always be ordered, so for these the ties decide alone. */
  lemma TiesDecide(h: seq<KvOp>)
    requires NoneBackwards(h)
    ensures RightAtTimes(h) <==> Clear(h)
    ensures StoreRightAtTimes(h) <==> Clear(h)
  {
    var calls := seq(|h|, id requires 0 <= id < |h| => h[id].call);
    var order := SortExists(calls);
    forall i, j | 0 <= i < j < |order| ensures !Before(h[order[j]], h[order[i]]) {
      assert calls[order[i]] <= calls[order[j]];
    }
    assert Lists(h, {}, order) && KeepsRealTime(h, order);
    TimesDecide(h);
  }
}
