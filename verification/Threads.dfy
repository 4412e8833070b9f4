/** How the linked list follows the search: it holds the calls and returns of the operations left over, and every
    operation taken out can be put back where it was. */
module Threads {
  import opened Histories
  import opened SearchTree
  import opened LinkedEntries

  /** The entries are the calls and returns of the operations, whose times are their places among the entries. */
  ghost predicate Describes<I, O>(es: seq<Entry<I, O>>, ops: seq<Op<I, O>>) {
    && |es| == 2 * |ops|
    && (forall id: nat | id < |ops| :: CallAndReturn(es, ops, id))
    && (forall p: nat | p < |es| :: InPlace(es, ops, p))
  }

  ghost predicate CallAndReturn<I, O>(es: seq<Entry<I, O>>, ops: seq<Op<I, O>>, id: nat)
    requires id < |ops|
  {
    && 0 <= ops[id].call < |es| && 0 <= ops[id].ret < |es|
    && es[ops[id].call].id == id && es[ops[id].call].value == Input(ops[id].input)
    && es[ops[id].ret].id == id && es[ops[id].ret].value == Output(ops[id].output)
  }

  ghost predicate InPlace<I, O>(es: seq<Entry<I, O>>, ops: seq<Op<I, O>>, p: nat)
    requires p < |es|
  {
    es[p].id < |ops| && p == if es[p].IsReturn() then ops[es[p].id].ret else ops[es[p].id].call
  }

  lemma DescribedApart<I, O>(es: seq<Entry<I, O>>, ops: seq<Op<I, O>>)
    requires Describes(es, ops)
    ensures Apart(ops) && forall id: nat | id < |ops| :: 0 <= ops[id].call && 0 <= ops[id].ret
  {
    forall id: nat | id < |ops| ensures 0 <= ops[id].call && 0 <= ops[id].ret { assert CallAndReturn(es, ops, id); }
    forall a: nat, b: nat | a < |ops| && b < |ops| ensures ops[a].call != ops[b].ret {
      assert CallAndReturn(es, ops, a) && CallAndReturn(es, ops, b);
    }
    forall a: nat, b: nat | a < |ops| && b < |ops| && a != b ensures ops[a].call != ops[b].call {
      assert CallAndReturn(es, ops, a) && CallAndReturn(es, ops, b);
    }
  }

  /** The node of a call knows the node of its return, if that comes after it. */
  lemma MateIsReturn<I, O>(es: seq<Entry<I, O>>, ops: seq<Op<I, O>>, nodes: seq<Node<I, O>>, id: nat)
    requires Describes(es, ops) && Represents(nodes, es) && id < |ops|
    ensures CallAndReturn(es, ops, id) && nodes[ops[id].ret].mate == null
    ensures nodes[ops[id].call].mate == if Sound(ops, id) then nodes[ops[id].ret] else null
  {
    assert CallAndReturn(es, ops, id);
    var c, r: nat := ops[id].call, ops[id].ret;
    assert StandsFor(nodes, 0, es, c) && StandsFor(nodes, 0, es, r);
    var next := NextReturn(es, id, c + 1);
    assert c < r ==> next <= r;
    assert next < |es| ==> InPlace(es, ops, next);
  }

  // ---------------------------------------------------------------- the entries left over

  ghost predicate Increasing(c: seq<nat>) {
    forall i, j | 0 <= i < j < |c| :: c[i] < c[j]
  }

  ghost predicate LiveAt<I, O>(es: seq<Entry<I, O>>, done: set<nat>, p: nat) {
    p < |es| && es[p].id !in done
  }

  ghost function LiveUpTo<I, O>(es: seq<Entry<I, O>>, done: set<nat>, m: nat): seq<nat>
    requires m <= |es|
  {
    if m == 0 then [] else LiveUpTo(es, done, m - 1) + (if es[m - 1].id in done then [] else [m - 1])
  }

  lemma {:induction false} LiveUpToIs<I, O>(es: seq<Entry<I, O>>, done: set<nat>, m: nat)
    requires m <= |es|
    ensures var c := LiveUpTo(es, done, m);
      Increasing(c) && Within(c, m) && forall p: nat :: p in c <==> p < m && LiveAt(es, done, p)
  {
    if m > 0 { LiveUpToIs(es, done, m - 1); }
  }

  /** The places of the entries whose operation is not done, in order. */
  ghost function Live<I, O>(es: seq<Entry<I, O>>, done: set<nat>): seq<nat> {
    LiveUpTo(es, done, |es|)
  }

  lemma LiveIs<I, O>(es: seq<Entry<I, O>>, done: set<nat>)
    ensures var c := Live(es, done);
      Increasing(c) && Within(c, |es|) && forall p: nat :: p in c <==> LiveAt(es, done, p)
  {
    LiveUpToIs(es, done, |es|);
  }

  ghost predicate Within(c: seq<nat>, n: nat) {
    forall i | 0 <= i < |c| :: c[i] < n
  }

  lemma {:induction false} IncreasingUnique(c: seq<nat>, d: seq<nat>)
    requires Increasing(c) && Increasing(d) && forall p: nat :: p in c <==> p in d
    ensures c == d
  {
    HasFirst(c);
    HasFirst(d);
    if c != [] && d != [] {
      var c', d' := c[1..], d[1..];
      forall p: nat ensures p in c' <==> p in d' {
        assert p in c <==> p == c[0] || p in c';
        assert p in d <==> p == d[0] || p in d';
      }
      IncreasingUnique(c', d');
    }
  }

  lemma HasFirst(c: seq<nat>)
    ensures c != [] ==> c[0] in c
  {
  }

  ghost function Index(c: seq<nat>, x: nat): (i: nat)
    requires x in c
    ensures i < |c| && c[i] == x
  {
    var i :| 0 <= i < |c| && c[i] == x; i
  }

  lemma IncreasingWithout(c: seq<nat>, i: nat, j: nat)
    requires i < j < |c| && Increasing(c)
    ensures Increasing(Without(c, i, j))
  {
    IncreasingRemoved(c, i);
    IncreasingRemoved(Removed(c, i), j - 1);
  }

  lemma IncreasingRemoved(c: seq<nat>, i: nat)
    requires i < |c| && Increasing(c)
    ensures Increasing(Removed(c, i))
  {
    var d := Removed(c, i);
    forall k | 0 <= k < |d| ensures d[k] == c[if k < i then k else k + 1] {}
  }

  lemma WithoutMembers(c: seq<nat>, i: nat, j: nat, p: nat)
    requires i < j < |c| && Increasing(c)
    ensures p in Without(c, i, j) <==> p in c && p != c[i] && p != c[j]
  {
    var d := Without(c, i, j);
    if p in c && p != c[i] && p != c[j] {
      var k: nat :| k < |c| && c[k] == p;
      assert d[if k < i then k else if k < j then k - 1 else k - 2] == p;
    }
  }

  /** Where the call and the return of an operation left over are among the live places. */
  ghost predicate Spots<I, O>(es: seq<Entry<I, O>>, ops: seq<Op<I, O>>, done: set<nat>, id: nat, i: nat, j: nat) {
    && id < |ops| && i < j < |Live(es, done)|
    && Live(es, done)[i] == ops[id].call && Live(es, done)[j] == ops[id].ret
  }

  lemma FindSpots<I, O>(es: seq<Entry<I, O>>, ops: seq<Op<I, O>>, done: set<nat>, id: nat) returns (i: nat, j: nat)
    requires Describes(es, ops) && Left(ops, done, id) && Sound(ops, id)
    ensures Spots(es, ops, done, id, i, j)
  {
    assert CallAndReturn(es, ops, id);
    LiveIs(es, done);
    assert LiveAt(es, done, ops[id].call) && LiveAt(es, done, ops[id].ret);
    i := Index(Live(es, done), ops[id].call);
    j := Index(Live(es, done), ops[id].ret);
  }

  lemma LiveWithout<I, O>(es: seq<Entry<I, O>>, ops: seq<Op<I, O>>, done: set<nat>, id: nat, i: nat, j: nat)
    requires Describes(es, ops) && Spots(es, ops, done, id, i, j)
    ensures Without(Live(es, done), i, j) == Live(es, done + {id})
  {
    LiveIs(es, done);
    LiveIs(es, done + {id});
    IncreasingWithout(Live(es, done), i, j);
    forall p: nat ensures p in Without(Live(es, done), i, j) <==> p in Live(es, done + {id}) {
      WithoutMembers(Live(es, done), i, j, p);
      OnlyPlaces(es, ops, id, p);
    }
    IncreasingUnique(Without(Live(es, done), i, j), Live(es, done + {id}));
  }

  lemma OnlyPlaces<I, O>(es: seq<Entry<I, O>>, ops: seq<Op<I, O>>, id: nat, p: nat)
    requires Describes(es, ops) && id < |ops|
    ensures p < |es| ==> (es[p].id == id <==> p == ops[id].call || p == ops[id].ret)
  {
    assert CallAndReturn(es, ops, id);
    assert p < |es| ==> InPlace(es, ops, p);
  }

  // ---------------------------------------------------------------- the list

  /** The head of the list, the nodes, and the entries and operations that these stand for. */
  datatype Scene<I, O> = Scene(head: Node<I, O>, nodes: seq<Node<I, O>>, es: seq<Entry<I, O>>, ops: seq<Op<I, O>>) {
    ghost predicate Valid() {
      AllDifferent(nodes) && head !in nodes && Represents(nodes, es) && Describes(es, ops)
    }

    ghost predicate HasOp(id: nat) {
      id < |ops| && CallAndReturn(es, ops, id) && |nodes| == |es|
    }

    /** The two nodes of an operation. */
    ghost function OpNodes(id: nat): set<Node<I, O>> {
      if HasOp(id) then {nodes[ops[id].call], nodes[ops[id].ret]} else {}
    }
  }

  /** The head and then the nodes at the places c. */
  ghost function Chain<I, O>(head: Node<I, O>, nodes: seq<Node<I, O>>, c: seq<nat>): seq<Node<I, O>>
    requires Within(c, |nodes|)
  {
    [head] + seq(|c|, i requires 0 <= i < |c| => nodes[c[i]])
  }

  lemma ChainRemoved<I, O>(head: Node<I, O>, nodes: seq<Node<I, O>>, c: seq<nat>, i: nat)
    requires Within(c, |nodes|) && i < |c|
    ensures Removed(Chain(head, nodes, c), i + 1) == Chain(head, nodes, Removed(c, i))
  {
  }

  lemma ChainWithout<I, O>(head: Node<I, O>, nodes: seq<Node<I, O>>, c: seq<nat>, i: nat, j: nat)
    requires Within(c, |nodes|) && i < j < |c|
    ensures Within(Without(c, i, j), |nodes|)
    ensures Without(Chain(head, nodes, c), i + 1, j + 1) == Chain(head, nodes, Without(c, i, j))
  {
    ChainRemoved(head, nodes, c, i);
    ChainRemoved(head, nodes, Removed(c, i), j - 1);
  }

  /** The list of everything left over. */
  ghost function Rest<I, O>(sc: Scene<I, O>, done: set<nat>): seq<Node<I, O>> {
    LiveIs(sc.es, done);
    if |sc.nodes| == |sc.es| then Chain(sc.head, sc.nodes, Live(sc.es, done)) else []
  }

  lemma RestAt<I, O>(sc: Scene<I, O>, done: set<nat>, k: nat)
    requires |sc.nodes| == |sc.es|
    ensures |Rest(sc, done)| == |Live(sc.es, done)| + 1 && Rest(sc, done)[0] == sc.head
    ensures k < |Live(sc.es, done)| ==>
      Live(sc.es, done)[k] < |sc.nodes| && Rest(sc, done)[k + 1] == sc.nodes[Live(sc.es, done)[k]]
  {
    LiveIs(sc.es, done);
  }

  lemma RestInside<I, O>(sc: Scene<I, O>, done: set<nat>)
    ensures var l := Rest(sc, done); forall i | 0 <= i < |l| :: l[i] == sc.head || l[i] in sc.nodes
  {
    LiveIs(sc.es, done);
  }

  lemma RestDiffers<I, O>(sc: Scene<I, O>, done: set<nat>)
    requires sc.Valid()
    ensures AllDifferent(Rest(sc, done))
  {
    LiveIs(sc.es, done);
  }

  lemma {:induction false} AllLiveUpTo<I, O>(es: seq<Entry<I, O>>, m: nat)
    requires m <= |es|
    ensures LiveUpTo(es, {}, m) == seq(m, i requires 0 <= i < m => i)
  {
    if m > 0 { AllLiveUpTo(es, m - 1); }
  }

  lemma RestOfAll<I, O>(sc: Scene<I, O>)
    requires |sc.nodes| == |sc.es|
    ensures Rest(sc, {}) == [sc.head] + sc.nodes
  {
    AllLiveUpTo(sc.es, |sc.es|);
  }

  /** An operation that is done is not in the list. */
  lemma DoneIsOut<I, O>(sc: Scene<I, O>, done: set<nat>, id: nat)
    requires sc.Valid() && id in done
    ensures forall x | x in sc.OpNodes(id) :: x !in Rest(sc, done)
  {
    var c := Live(sc.es, done);
    LiveIs(sc.es, done);
    forall i | 0 <= i < |c| ensures sc.nodes[c[i]] !in sc.OpNodes(id) { assert c[i] in c; }
  }

  /** The two nodes of the operation stand at p and q in the list, and without them it is the list after. */
  ghost predicate Facing<I, O>(sc: Scene<I, O>, done: set<nat>, id: nat, p: nat, q: nat) {
    var l := Rest(sc, done);
    && sc.HasOp(id) && 0 < p < q < |l| && AllDifferent(l)
    && l[p] == sc.nodes[sc.ops[id].call] && l[q] == sc.nodes[sc.ops[id].ret] == l[p].mate
    && Without(l, p, q) == Rest(sc, done + {id})
  }

  lemma FindFacing<I, O>(sc: Scene<I, O>, done: set<nat>, id: nat) returns (p: nat, q: nat)
    requires sc.Valid() && Left(sc.ops, done, id) && Sound(sc.ops, id)
    ensures Facing(sc, done, id, p, q)
  {
    var i, j := FindSpots(sc.es, sc.ops, done, id);
    RestAt(sc, done, i);
    RestAt(sc, done, j);
    RestDiffers(sc, done);
    MateIsReturn(sc.es, sc.ops, sc.nodes, id);
    LiveIs(sc.es, done);
    LiveWithout(sc.es, sc.ops, done, id, i, j);
    ChainWithout(sc.head, sc.nodes, Live(sc.es, done), i, j);
    p, q := i + 1, j + 1;
  }

  // ---------------------------------------------------------------- taking operations out and putting them back

  /** The operation is out of the list of what was left besides `done`, but remembers its place in it. */
  ghost predicate Suspended<I, O>(sc: Scene<I, O>, done: set<nat>, id: nat)
    reads sc.OpNodes(id)
  {
    exists p: nat, q: nat :: Facing(sc, done, id, p, q) && Lifted(Rest(sc, done), p, q)
  }

  ghost predicate SuspendedAt<I, O>(sc: Scene<I, O>, path: seq<nat>, j: nat)
    requires j < |path|
    reads sc.OpNodes(path[j])
  {
    Suspended(sc, Done(path[..j]), path[j])
  }

  /** The list holds what the path has left over, and the path can be undone step by step. */
  ghost predicate Threaded<I, O>(sc: Scene<I, O>, path: seq<nat>)
    reads sc.head, sc.nodes
  {
    && sc.Valid()
    && (RestInside(sc, Done(path)); Linked(Rest(sc, Done(path))))
    && (forall j: nat | j < |path| :: SuspendedAt(sc, path, j))
  }

  lemma SuspendedOn<I, O>(sc: Scene<I, O>, path: seq<nat>, path': seq<nat>, j: nat)
    requires j < |path| && j < |path'| && (path <= path' || path' <= path) && SuspendedAt(sc, path, j)
    ensures SuspendedAt(sc, path', j)
  {
    assert path[..j] == path'[..j];
  }

  lemma LastIsSuspended<I, O>(sc: Scene<I, O>, path: seq<nat>, id: nat)
    requires Suspended(sc, Done(path), id)
    ensures SuspendedAt(sc, path + [id], |path|)
  {
    assert (path + [id])[..|path|] == path;
  }

  lemma ThreadedMore<I, O>(sc: Scene<I, O>, path: seq<nat>, id: nat)
    requires sc.Valid() && Linked(Rest(sc, Done(path) + {id})) && Suspended(sc, Done(path), id)
    requires forall j: nat | j < |path| :: SuspendedAt(sc, path, j)
    ensures Threaded(sc, path + [id])
  {
    var path' := path + [id];
    DoneMore(path, id);
    LastIsSuspended(sc, path, id);
    assert path <= path';
    forall j: nat | j < |path| ensures SuspendedAt(sc, path', j) { SuspendedOn(sc, path, path', j); }
  }

  lemma ThreadedLess<I, O>(sc: Scene<I, O>, path: seq<nat>, path': seq<nat>)
    requires sc.Valid() && path' <= path && Linked(Rest(sc, Done(path')))
    requires forall j: nat | j < |path'| :: SuspendedAt(sc, path, j)
    ensures Threaded(sc, path')
  {
    forall j: nat | j < |path'| ensures SuspendedAt(sc, path', j) { SuspendedOn(sc, path, path', j); }
  }

  /** The nodes of the operations on the path. */
  ghost function Kept<I, O>(sc: Scene<I, O>, path: seq<nat>): set<Node<I, O>> {
    set j: nat, x | j < |path| && x in sc.OpNodes(path[j]) :: x
  }

  lemma KeptAreOut<I, O>(sc: Scene<I, O>, path: seq<nat>)
    requires sc.Valid()
    ensures forall x | x in Kept(sc, path) :: x !in Rest(sc, Done(path))
    ensures forall j: nat | j < |path| :: sc.OpNodes(path[j]) <= Kept(sc, path)
  {
    forall x | x in Kept(sc, path) ensures x !in Rest(sc, Done(path)) {
      var j: nat :| j < |path| && x in sc.OpNodes(path[j]);
      DoneIsOut(sc, Done(path), path[j]);
    }
  }

  /** One more operation is taken out of the list. */
  method TakeOut<I, O>(entry: Node<I, O>, ghost sc: Scene<I, O>, ghost path: seq<nat>, ghost id: nat,
                       ghost others: set<array<bv64>>)
    requires Threaded(sc, path) && Left(sc.ops, Done(path), id) && Sound(sc.ops, id)
    requires sc.HasOp(id) && entry == sc.nodes[sc.ops[id].call]
    modifies sc.head`next, sc.head`prev, sc.nodes`next, sc.nodes`prev
    ensures Threaded(sc, path + [id]) && unchanged(others)
  {
    ghost var p, q := FindFacing(sc, Done(path), id);
    RestInside(sc, Done(path));
    KeptAreOut(sc, path);
    LiftOnly(entry, Rest(sc, Done(path)), p, q, Kept(sc, path), others);
    forall j: nat | j < |path| ensures SuspendedAt(sc, path, j) {
      assert sc.OpNodes(path[j]) <= Kept(sc, path);
      assert old(SuspendedAt(sc, path, j));
    }
    ThreadedMore(sc, path, id);
  }

  /** The operation taken out last is put back. */
  method PutBack<I, O>(entry: Node<I, O>, ghost sc: Scene<I, O>, ghost path: seq<nat>, ghost path': seq<nat>,
                       ghost id: nat, ghost others: set<array<bv64>>)
    requires Threaded(sc, path) && path == path' + [id] && sc.HasOp(id) && entry == sc.nodes[sc.ops[id].call]
    modifies sc.head`next, sc.head`prev, sc.nodes`next, sc.nodes`prev
    ensures Threaded(sc, path') && unchanged(others)
  {
    ghost var p, q := LastSuspended(sc, path, path', id);
    RestInside(sc, Done(path'));
    KeptAreOut(sc, path');
    UnliftOnly(entry, Rest(sc, Done(path')), p, q, Kept(sc, path'), others);
    forall j: nat | j < |path'| ensures SuspendedAt(sc, path, j) {
      assert path[j] == path'[j] && sc.OpNodes(path[j]) <= Kept(sc, path');
      assert old(SuspendedAt(sc, path, j));
    }
    ThreadedLess(sc, path, path');
  }

  lemma LastSuspended<I, O>(sc: Scene<I, O>, path: seq<nat>, path': seq<nat>, id: nat) returns (p: nat, q: nat)
    requires Threaded(sc, path) && path == path' + [id]
    ensures Facing(sc, Done(path'), id, p, q) && Lifted(Rest(sc, Done(path')), p, q)
    ensures Linked(Without(Rest(sc, Done(path')), p, q))
  {
    assert SuspendedAt(sc, path, |path'|);
    assert path[..|path'|] == path';
    DoneMore(path', id);
    p, q :| Facing(sc, Done(path'), id, p, q) && Lifted(Rest(sc, Done(path')), p, q);
  }

  // ---------------------------------------------------------------- going along the list

  /** The node at a place, or null past the last. */
  ghost function NodeAt<I, O>(sc: Scene<I, O>, t: nat): Node?<I, O> {
    if t < |sc.nodes| then sc.nodes[t] else null
  }

  /** No operation left over has its call or return among places that are not live. */
  lemma GapIsEmpty<I, O>(es: seq<Entry<I, O>>, ops: seq<Op<I, O>>, done: set<nat>, t: int, u: int)
    requires Describes(es, ops) && forall p: nat | t < p < u :: !LiveAt(es, done, p)
    ensures NoneBetween(ops, done, t, u)
  {
    forall id: nat | Left(ops, done, id) ensures !(t < ops[id].call < u) && !(t < ops[id].ret < u) {
      assert CallAndReturn(es, ops, id);
      assert LiveAt(es, done, ops[id].call) && LiveAt(es, done, ops[id].ret);
    }
  }

  lemma NotBetween(c: seq<nat>, k: nat, p: nat)
    requires Increasing(c) && k <= |c| && (k > 0 ==> c[k - 1] < p) && (k < |c| ==> p < c[k])
    ensures p !in c
  {
    forall i | 0 <= i < |c| ensures c[i] != p {}
  }

  /** Node k of the list points at the next live place: nothing lies between. */
  lemma NextInList<I, O>(sc: Scene<I, O>, done: set<nat>, k: nat) returns (u: nat)
    requires sc.Valid() && Linked(Rest(sc, done)) && k <= |Live(sc.es, done)|
    ensures |Rest(sc, done)| == |Live(sc.es, done)| + 1 && Rest(sc, done)[k].next == NodeAt(sc, u)
    ensures u <= |sc.es| && (u < |sc.es| ==> LiveAt(sc.es, done, u))
    ensures NoneBetween(sc.ops, done, if k == 0 then -1 else Live(sc.es, done)[k - 1], u)
    ensures k > 0 ==> Live(sc.es, done)[k - 1] < u
  {
    var c := Live(sc.es, done);
    LiveIs(sc.es, done);
    RestAt(sc, done, k);
    assert LinkAt(Rest(sc, done), k);
    u := if k < |c| then c[k] else |sc.es|;
    assert k < |c| ==> c[k] in c;
    var t := if k == 0 then -1 else c[k - 1];
    forall p: nat | t < p < u ensures !LiveAt(sc.es, done, p) { NotBetween(c, k, p); }
    GapIsEmpty(sc.es, sc.ops, done, t, u);
  }

  lemma FirstInList<I, O>(sc: Scene<I, O>, done: set<nat>) returns (u: nat)
    requires sc.Valid() && Linked(Rest(sc, done))
    ensures u <= |sc.es| && sc.head.next == NodeAt(sc, u) && NoneBetween(sc.ops, done, -1, u)
    ensures u < |sc.es| ==> LiveAt(sc.es, done, u)
  {
    RestAt(sc, done, 0);
    u := NextInList(sc, done, 0);
  }

  lemma AfterInList<I, O>(sc: Scene<I, O>, done: set<nat>, t: nat) returns (u: nat)
    requires sc.Valid() && Linked(Rest(sc, done)) && LiveAt(sc.es, done, t)
    ensures t < u <= |sc.es| && sc.nodes[t].next == NodeAt(sc, u) && NoneBetween(sc.ops, done, t, u)
    ensures u < |sc.es| ==> LiveAt(sc.es, done, u)
  {
    LiveIs(sc.es, done);
    var k := Index(Live(sc.es, done), t);
    RestAt(sc, done, k);
    u := NextInList(sc, done, k + 1);
  }
}
