/** The doubly linked list of calls and returns that the checker searches (linearizability.go). */
module LinkedEntries {

  /** What an entry carries; the head of the list carries nothing. */
  datatype Value<I, O> = Nil | Input(input: I) | Output(output: O)

  /** A call or a return, told apart by the value it carries. */
  datatype Entry<I, O> = Entry(value: Value<I, O>, id: nat, time: int) {
    predicate IsReturn() { value.Output? }
  }

  /** `mate` is the node's match: the return of a call, and null in a return. */
  class Node<I, O> {
    const value: Value<I, O>
    const mate: Node?<I, O>
    const id: nat
    var next: Node?<I, O>
    var prev: Node?<I, O>

    constructor (value: Value<I, O>, mate: Node?<I, O>, id: nat)
      ensures this.value == value && this.mate == mate && this.id == id && next == null && prev == null
    {
      this.value, this.mate, this.id, next, prev := value, mate, id, null, null;
    }
  }

  ghost predicate AllDifferent<I, O>(l: seq<Node<I, O>>) {
    forall i, j | 0 <= i < j < |l| :: l[i] != l[j]
  }

  /** Node i of the list points at its neighbours. */
  ghost predicate LinkAt<I, O>(l: seq<Node<I, O>>, i: nat)
    requires i < |l|
    reads l
  {
    && l[i].next == (if i + 1 < |l| then l[i + 1] else null)
    && l[i].prev == (if i > 0 then l[i - 1] else null)
  }

  /** The nodes of l, in this order, form one doubly linked list. */
  ghost predicate Linked<I, O>(l: seq<Node<I, O>>)
    reads l
  {
    AllDifferent(l) && forall i: nat | i < |l| :: LinkAt(l, i)
  }

  function First<I, O>(l: seq<Node<I, O>>): Node?<I, O> {
    if l == [] then null else l[0]
  }

  method InsertBefore<I, O>(n: Node<I, O>, mark: Node?<I, O>, ghost l: seq<Node<I, O>>, ghost i: nat)
    returns (r: Node<I, O>)
    requires Linked(l) && n !in l && n.next == null && n.prev == null
    requires if mark == null then l == [] && i == 0 else i < |l| && mark == l[i]
    modifies n`next, n`prev, l`next, l`prev
    ensures r == n && Linked(l[..i] + [n] + l[i..])
  {
    ghost var l' := l[..i] + [n] + l[i..];
    assert forall k: nat | k < |l'| :: l'[k] == if k < i then l[k] else if k == i then n else l[k - 1];
    assert forall k: nat | k < |l| :: LinkAt(l, k);
    if mark != null {
      assert LinkAt(l, i);
      var beforeMark := mark.prev;
      assert beforeMark != null ==> i > 0 && beforeMark == l[i - 1] && LinkAt(l, i - 1);
      mark.prev := n;
      n.next := mark;
      if beforeMark != null {
        n.prev := beforeMark;
        beforeMark.next := n;
      }
    }
    forall k: nat | k < |l'| ensures LinkAt(l', k) {
      assert old(k < i ==> LinkAt(l, k)) && old(k > i ==> LinkAt(l, k - 1));
    }
    r := n;
  }

  method Length<I, O>(n: Node?<I, O>, ghost l: seq<Node<I, O>>) returns (count: nat)
    requires Linked(l) && n == First(l)
    ensures count == |l|
  {
    var at := n;
    count := 0;
    while at != null
      invariant count <= |l| && at == (if count < |l| then l[count] else null)
      decreases |l| - count
    {
      assert LinkAt(l, count);
      at := at.next;
      count := count + 1;
    }
  }

  // ---------------------------------------------------------------- taking an operation out and putting it back

  /** The list without its element p. */
  function Removed<T>(l: seq<T>, p: nat): (r: seq<T>)
    requires p < |l|
  {
    l[..p] + l[p + 1..]
  }

  lemma RemovedAt<T>(l: seq<T>, p: nat, k: nat)
    requires p < |l| && k < |l| && k != p
    ensures Removed(l, p)[if k < p then k else k - 1] == l[k]
  {
  }

  lemma RemovedIsOut<T>(l: seq<T>, p: nat)
    requires p < |l| && forall i, j | 0 <= i < j < |l| :: l[i] != l[j]
    ensures l[p] !in Removed(l, p)
  {
  }

  /** Node p is out of the list but still remembers where in it it was. */
  ghost predicate OutAt<I, O>(l: seq<Node<I, O>>, p: nat)
    requires 0 < p < |l|
    reads l[p]
  {
    l[p].prev == l[p - 1] && l[p].next == (if p + 1 < |l| then l[p + 1] else null)
  }

  method Unlink<I, O>(node: Node<I, O>, ghost l: seq<Node<I, O>>, ghost p: nat)
    requires Linked(l) && 0 < p < |l| && node == l[p]
    modifies l`next, l`prev
    ensures Linked(Removed(l, p)) && OutAt(l, p)
    ensures node.next == old(node.next) && node.prev == old(node.prev)
  {
    assert LinkAt(l, p) && LinkAt(l, p - 1);
    assert p + 1 < |l| ==> LinkAt(l, p + 1);
    node.prev.next := node.next;
    if node.next != null {
      node.next.prev := node.prev;
    }
    ghost var l' := Removed(l, p);
    forall k: nat | k < |l'| ensures LinkAt(l', k) {
      assert old(LinkAt(l, if k < p then k else k + 1));
    }
  }

  method Relink<I, O>(node: Node<I, O>, ghost l: seq<Node<I, O>>, ghost p: nat)
    requires AllDifferent(l) && 0 < p < |l| && node == l[p] && Linked(Removed(l, p)) && OutAt(l, p)
    modifies l`next, l`prev
    ensures Linked(l)
    ensures node.next == old(node.next) && node.prev == old(node.prev)
  {
    ghost var l' := Removed(l, p);
    assert l'[p - 1] == l[p - 1] && LinkAt(l', p - 1);
    node.prev.next := node;
    if node.next != null {
      node.next.prev := node;
    }
    forall k: nat | k < |l| ensures LinkAt(l, k) {
      if k != p { assert old(LinkAt(l', if k < p then k else k - 1)); }
    }
  }

  /** The list without its nodes p and q. */
  function Without<T>(l: seq<T>, p: nat, q: nat): (r: seq<T>)
    requires p < q < |l|
  {
    Removed(Removed(l, p), q - 1)
  }

  /** Nodes p and q, taken out in this order, still remember where they were. */
  ghost predicate Lifted<I, O>(l: seq<Node<I, O>>, p: nat, q: nat)
    requires 0 < p < q < |l|
    reads l[p], l[q]
  {
    RemovedAt(l, p, q);
    OutAt(l, p) && OutAt(Removed(l, p), q - 1)
  }

  method Lift<I, O>(entry: Node<I, O>, ghost l: seq<Node<I, O>>, ghost p: nat, ghost q: nat)
    requires Linked(l) && 0 < p < q < |l| && entry == l[p] && entry.mate == l[q]
    modifies l`next, l`prev
    ensures Linked(Without(l, p, q)) && Lifted(l, p, q)
  {
    RemovedAt(l, p, q);
    RemovedIsOut(l, p);
    Unlink(entry, l, p);
    Unlink(entry.mate, Removed(l, p), q - 1);
    assert OutAt(l, p);
  }

  /** The same, with the nodes and arrays named that it leaves alone. */
  method LiftOnly<I, O>(entry: Node<I, O>, ghost l: seq<Node<I, O>>, ghost p: nat, ghost q: nat,
                        ghost kept: set<Node<I, O>>, ghost others: set<array<bv64>>)
    requires Linked(l) && 0 < p < q < |l| && entry == l[p] && entry.mate == l[q]
    requires forall x | x in kept :: x !in l
    modifies l`next, l`prev
    ensures Linked(Without(l, p, q)) && Lifted(l, p, q) && unchanged(kept) && unchanged(others)
  {
    Lift(entry, l, p, q);
  }

  method Unlift<I, O>(entry: Node<I, O>, ghost l: seq<Node<I, O>>, ghost p: nat, ghost q: nat)
    requires AllDifferent(l) && 0 < p < q < |l| && entry == l[p] && entry.mate == l[q]
    requires Linked(Without(l, p, q)) && Lifted(l, p, q)
    modifies l`next, l`prev
    ensures Linked(l)
  {
    RemovedAt(l, p, q);
    RemovedIsOut(l, p);
    Relink(entry.mate, Removed(l, p), q - 1);
    assert OutAt(l, p);
    Relink(entry, l, p);
  }

  method UnliftOnly<I, O>(entry: Node<I, O>, ghost l: seq<Node<I, O>>, ghost p: nat, ghost q: nat,
                          ghost kept: set<Node<I, O>>, ghost others: set<array<bv64>>)
    requires AllDifferent(l) && 0 < p < q < |l| && entry == l[p] && entry.mate == l[q]
    requires Linked(Without(l, p, q)) && Lifted(l, p, q)
    requires forall x | x in kept :: x !in l
    modifies l`next, l`prev
    ensures Linked(l) && unchanged(kept) && unchanged(others)
  {
    Unlift(entry, l, p, q);
  }

  // ---------------------------------------------------------------- building the list

  /** The first return of operation `id` at or after position j, or the number of entries. */
  ghost function NextReturn<I, O>(entries: seq<Entry<I, O>>, id: nat, j: nat): (r: nat)
    requires j <= |entries|
    ensures j <= r <= |entries|
    ensures r < |entries| ==> entries[r].IsReturn() && entries[r].id == id
    ensures forall k | j <= k < r :: !(entries[k].IsReturn() && entries[k].id == id)
    decreases |entries| - j
  {
    if j == |entries| || (entries[j].IsReturn() && entries[j].id == id) then j else NextReturn(entries, id, j + 1)
  }

  /** The mate that entry i should have when node k stands for entry k + base. */
  ghost function MateOf<I, O>(entries: seq<Entry<I, O>>, nodes: seq<Node<I, O>>, base: nat, i: nat): Node?<I, O>
    requires i < |entries| && base <= i && base + |nodes| == |entries|
  {
    var j := NextReturn(entries, entries[i].id, i + 1);
    if entries[i].IsReturn() || j == |entries| then null else nodes[j - base]
  }

  ghost predicate StandsFor<I, O>(nodes: seq<Node<I, O>>, base: nat, entries: seq<Entry<I, O>>, i: nat)
    requires i < |entries| && base <= i && base + |nodes| == |entries|
  {
    var node := nodes[i - base];
    node.value == entries[i].value && node.id == entries[i].id && node.mate == MateOf(entries, nodes, base, i)
  }

  /** The nodes stand for the entries from position `base` on. */
  ghost predicate Built<I, O>(nodes: seq<Node<I, O>>, base: nat, entries: seq<Entry<I, O>>) {
    base + |nodes| == |entries| && forall i: nat | base <= i < |entries| :: StandsFor(nodes, base, entries, i)
  }

  /** The nodes stand for the entries, every call knowing the first return after it with its id. */
  ghost predicate Represents<I, O>(nodes: seq<Node<I, O>>, entries: seq<Entry<I, O>>) {
    Built(nodes, 0, entries)
  }

  /** The map gives the first return of every operation that has one at or after `base`. */
  ghost predicate Knows<I, O>(returnOf: map<nat, Node<I, O>>, nodes: seq<Node<I, O>>, base: nat,
                              entries: seq<Entry<I, O>>)
    requires base + |nodes| == |entries|
  {
    forall id: nat :: if NextReturn(entries, id, base) < |entries|
      then id in returnOf && returnOf[id] == nodes[NextReturn(entries, id, base) - base]
      else id !in returnOf
  }

  lemma KnowsOneMore<I, O>(returnOf: map<nat, Node<I, O>>, node: Node<I, O>, later: seq<Node<I, O>>, base: nat,
                           entries: seq<Entry<I, O>>)
    requires base + 1 + |later| == |entries| && Knows(returnOf, later, base + 1, entries)
    ensures Knows(if entries[base].IsReturn() then returnOf[entries[base].id := node] else returnOf,
                  [node] + later, base, entries)
  {
  }

  lemma BuiltOneMore<I, O>(node: Node<I, O>, later: seq<Node<I, O>>, base: nat, entries: seq<Entry<I, O>>)
    requires Built(later, base + 1, entries)
    requires StandsFor([node] + later, base, entries, base)
    ensures Built([node] + later, base, entries)
  {
    forall i: nat | base <= i < |entries| ensures StandsFor([node] + later, base, entries, i) {
      if i > base { assert StandsFor(later, base + 1, entries, i); }
    }
  }

  method MakeLinkedEntries<I, O>(entries: seq<Entry<I, O>>) returns (root: Node?<I, O>, ghost nodes: seq<Node<I, O>>)
    ensures Represents(nodes, entries) && Linked(nodes) && root == First(nodes)
    ensures forall i | 0 <= i < |nodes| :: fresh(nodes[i])
  {
    root, nodes := null, [];
    var returnOf: map<nat, Node<I, O>> := map[];
    var i := |entries|;
    while i > 0
      invariant 0 <= i <= |entries| && Built(nodes, i, entries) && Knows(returnOf, nodes, i, entries)
      invariant Linked(nodes) && root == First(nodes)
      invariant forall k | 0 <= k < |nodes| :: fresh(nodes[k])
    {
      i := i - 1;
      var node;
      ghost var later, known := nodes, returnOf;
      if entries[i].IsReturn() {
        node := new Node(entries[i].value, null, entries[i].id);
        returnOf := returnOf[entries[i].id := node];
      } else {
        var mate := if entries[i].id in returnOf then returnOf[entries[i].id] else null;
        node := new Node(entries[i].value, mate, entries[i].id);
      }
      root := Prepend(node, root, later);
      nodes := [node] + later;
      KnowsOneMore(known, node, later, i, entries);
      BuiltOneMore(node, later, i, entries);
    }
  }

  /** The list with a new node at its front. */
  method Prepend<I, O>(node: Node<I, O>, root: Node?<I, O>, ghost l: seq<Node<I, O>>) returns (r: Node<I, O>)
    requires Linked(l) && root == First(l) && node !in l && node.next == null && node.prev == null
    modifies node`next, node`prev, l`next, l`prev
    ensures r == node && Linked([node] + l)
  {
    r := InsertBefore(node, root, l, 0);
    assert l[..0] + [node] + l[0..] == [node] + l;
  }
}
