/**
 * The unrolled circuit of the BMC engine (BMC.hpp): a node per unrolled
 * variable with the count of its fathers, the gates built so far, the
 * inputs, outputs and constraints of every step, and the buckets of the
 * structural hash, one per node, listing the gates that node feeds.
 */
module BmcTypes {
  import opened Literals
  import opened PdrTypes

  /** A node: kind 0 is NULL, 1 the constant, 2 an input (or a latch with no
      reset value), 3 a gate over child1 and child2 (signed node numbers).
      fathers counts its references, activate is cleared when the node is
      found dead. The source's `type` field is `kind` here. */
  datatype Node = Node(kind: int, fathers: int, child1: int, child2: int, activate: bool)

  /** The children of every gate are nodes made before it. */
  predicate ChildrenBelow(ns: seq<Node>)
  {
    forall j :: 0 <= j < |ns| && ns[j].kind == 3 ==> Abs(ns[j].child1) < j && Abs(ns[j].child2) < j
  }

  /** ms keeps the kind and the children of every node of ns (the father
      counts and activation may differ). */
  predicate Extends(ns: seq<Node>, ms: seq<Node>)
  {
    |ns| <= |ms| &&
    forall j :: 0 <= j < |ns| ==>
      ms[j].kind == ns[j].kind && ms[j].child1 == ns[j].child1 && ms[j].child2 == ns[j].child2
  }

  lemma ExtendsTrans(a: seq<Node>, b: seq<Node>, c: seq<Node>)
    requires Extends(a, b) && Extends(b, c)
    ensures Extends(a, c)
  {
  }

  /** One more father for node k. */
  function Adopt(ns: seq<Node>, k: int): (r: seq<Node>)
    requires 0 <= k < |ns|
    ensures |r| == |ns| && Extends(ns, r) && r[k].fathers == ns[k].fathers + 1
    ensures forall j :: 0 <= j < |ns| && j != k ==> r[j] == ns[j]
  {
    ns[k := ns[k].(fathers := ns[k].fathers + 1)]
  }

  /** One more father for each node the literals name, in order. */
  function AdoptAll(ns: seq<Node>, xs: seq<int>): (r: seq<Node>)
    requires forall k :: 0 <= k < |xs| ==> Abs(xs[k]) < |ns|
    ensures |r| == |ns| && Extends(ns, r)
  {
    if xs == [] then ns else Adopt(AdoptAll(ns, xs[..|xs| - 1]), Abs(xs[|xs| - 1]))
  }

  /** One father less for node k. */
  function Orphan(ns: seq<Node>, k: int): (r: seq<Node>)
    requires 0 <= k < |ns|
    ensures |r| == |ns| && Extends(ns, r) && Extends(r, ns) && r[k].fathers == ns[k].fathers - 1
    ensures r[k].activate == ns[k].activate
    ensures forall j :: 0 <= j < |ns| && j != k ==> r[j] == ns[j]
  {
    ns[k := ns[k].(fathers := ns[k].fathers - 1)]
  }

  // ---------------------------------------------------------------------------
  // CleanupFrame (BMC.hpp:48-68)
  // ---------------------------------------------------------------------------

  /** The visit of node j in the sweep: a gate with no father is deactivated
      and each child loses one father (twice for a gate over one child). */
  function Visit(ns: seq<Node>, j: int): (r: seq<Node>)
    requires 0 <= j < |ns| && ChildrenBelow(ns)
    ensures |r| == |ns| && Extends(ns, r) && Extends(r, ns) && ChildrenBelow(r)
    ensures forall k :: j < k < |ns| ==> r[k] == ns[k]
    ensures r[j].fathers == ns[j].fathers
    ensures r[j].activate == (ns[j].activate && !(ns[j].kind == 3 && ns[j].fathers == 0))
    ensures forall k :: 0 <= k < j ==> r[k].activate == ns[k].activate
  {
    if ns[j].fathers == 0 && ns[j].kind == 3 then
      var off := ns[j := ns[j].(activate := false)];
      Orphan(Orphan(off, Abs(ns[j].child1)), Abs(ns[j].child2))
    else ns
  }

  /** The nodes after the sweep has visited n - 1 down to i. */
  function Swept(ns: seq<Node>, n: int, i: int): (r: seq<Node>)
    requires 0 <= i <= n <= |ns| && ChildrenBelow(ns)
    ensures |r| == |ns| && Extends(ns, r) && Extends(r, ns) && ChildrenBelow(r)
    decreases n - i
  {
    if i == n then ns else Visit(Swept(ns, n, i + 1), i)
  }

  /** Visiting lower nodes leaves node j alone once it has been visited. */
  lemma {:induction false} SweptFrozen(ns: seq<Node>, n: int, i: int, j: int)
    requires 0 <= i <= j < n <= |ns| && ChildrenBelow(ns)
    ensures Swept(ns, n, i)[j] == Swept(ns, n, j)[j]
    decreases j - i
  {
    if i < j {
      SweptFrozen(ns, n, i + 1, j);
    }
  }

  /** Before its visit, a node has its old activation. */
  lemma {:induction false} SweptKeepsLowerActivation(ns: seq<Node>, n: int, i: int, j: int)
    requires 0 <= j < i <= n <= |ns| && ChildrenBelow(ns)
    ensures Swept(ns, n, i)[j].activate == ns[j].activate
    decreases n - i
  {
    if i < n {
      SweptKeepsLowerActivation(ns, n, i + 1, j);
    }
  }

  /** After the sweep a node is active exactly when it was active and is not
      a gate left with no father: the father count a node has when visited
      is its final one, so dead gates feeding lower dead gates all go in the
      same pass. */
  lemma DeadGatesRemoved(ns: seq<Node>, j: int)
    requires ChildrenBelow(ns) && 0 <= j < |ns|
    ensures var r := Swept(ns, |ns|, 0);
      r[j].activate <==> ns[j].activate && !(r[j].kind == 3 && r[j].fathers == 0)
  {
    var n := |ns|;
    SweptFrozen(ns, n, 0, j);
    var before := Swept(ns, n, j + 1);
    SweptKeepsLowerActivation(ns, n, j + 1, j);
    assert Swept(ns, n, j) == Visit(before, j);
  }

  /** The gates that are still active among nodes[..n], each as its output
      node and its two children, in ascending order of output. */
  function ActiveAnds(ns: seq<Node>, n: int): (r: seq<And>)
    requires 0 <= n <= |ns|
    ensures forall k :: 0 <= k < |r| ==> 0 <= r[k].o < n && Active(ns, r[k])
    ensures forall k, l :: 0 <= k < l < |r| ==> r[k].o < r[l].o
  {
    if n == 0 then []
    else
      var last := ns[n - 1];
      ActiveAnds(ns, n - 1) + (if last.kind == 3 && last.activate then [And(n - 1, last.child1, last.child2)] else [])
  }

  /** g is an active gate node, listed with its children. */
  predicate Active(ns: seq<Node>, g: And)
    requires 0 <= g.o < |ns|
  {
    ns[g.o].kind == 3 && ns[g.o].activate && g.i1 == ns[g.o].child1 && g.i2 == ns[g.o].child2
  }

  /** The rebuilt gate list misses no active gate. */
  lemma {:induction false} ActiveAndsComplete(ns: seq<Node>, n: int, j: int)
    requires 0 <= j < n <= |ns| && ns[j].kind == 3 && ns[j].activate
    ensures exists k :: 0 <= k < |ActiveAnds(ns, n)| && ActiveAnds(ns, n)[k].o == j
  {
    var r := ActiveAnds(ns, n);
    var p := ActiveAnds(ns, n - 1);
    var last := ns[n - 1];
    assert r == p + (if last.kind == 3 && last.activate then [And(n - 1, last.child1, last.child2)] else []);
    if j < n - 1 {
      ActiveAndsComplete(ns, n - 1, j);
      var k :| 0 <= k < |p| && p[k].o == j;
      assert r[k] == p[k];
    } else {
      assert r[|p|].o == j;
    }
  }

  /** A second cleanup is not harmless: the sweep looks at the father counts and not
      the activation, so a gate already removed is visited again and its
      child loses its fathers once more, here going below zero. */
  lemma CleanupNotIdempotent()
    ensures var ns := [Node(0, 0, 0, 0, true), Node(1, 0, 0, 0, true), Node(2, 2, 0, 0, true), Node(3, 0, 2, 2, true)];
      ChildrenBelow(ns) &&
      Swept(ns, 4, 0)[2].fathers == 0 && !Swept(ns, 4, 0)[3].activate &&
      Swept(Swept(ns, 4, 0), 4, 0)[2].fathers == -2
  {
    var ns := [Node(0, 0, 0, 0, true), Node(1, 0, 0, 0, true), Node(2, 2, 0, 0, true), Node(3, 0, 2, 2, true)];
    var once := [Node(0, 0, 0, 0, true), Node(1, 0, 0, 0, true), Node(2, 0, 0, 0, true), Node(3, 0, 2, 2, false)];
    assert Swept(ns, 4, 3) == once;
    assert Swept(ns, 4, 0) == once;
    var twice := [Node(0, 0, 0, 0, true), Node(1, 0, 0, 0, true), Node(2, -2, 0, 0, true), Node(3, 0, 2, 2, false)];
    assert Swept(once, 4, 3) == twice;
    assert Swept(once, 4, 0) == twice;
  }

  // ---------------------------------------------------------------------------
  // The structural hash (BMC.cpp:294-321)
  // ---------------------------------------------------------------------------

  /** Bucket k of hash_table (buckets never touched are empty). */
  function Bucket(m: map<int, seq<And>>, k: int): seq<And>
  {
    if k in m then m[k] else []
  }

  /** g appended to bucket k. */
  function File(m: map<int, seq<And>>, k: int, g: And): map<int, seq<And>>
  {
    m[k := Bucket(m, k) + [g]]
  }

  /** Gate e has operands i1 and i2, in either order. */
  predicate SamePair(e: And, i1: int, i2: int)
  {
    (e.i1 == i1 && e.i2 == i2) || (e.i2 == i1 && e.i1 == i2)
  }

  /** The output of the last gate of bucket b over the pair (i1, i2), in
      either order; 0 when there is none. */
  function LastMatch(b: seq<And>, i1: int, i2: int): (r: int)
    ensures r != 0 ==> exists k :: 0 <= k < |b| && b[k].o == r && SamePair(b[k], i1, i2)
    ensures (forall k :: 0 <= k < |b| ==> !SamePair(b[k], i1, i2)) ==> r == 0
  {
    if b == [] then 0
    else if SamePair(b[|b| - 1], i1, i2) then b[|b| - 1].o
    else LastMatch(b[..|b| - 1], i1, i2)
  }

  /** Every gate recorded in a bucket is the node it names, a gate over the
      recorded children. */
  predicate HashOk(ns: seq<Node>, m: map<int, seq<And>>)
  {
    forall k, e :: k in m && e in m[k] ==>
      2 <= e.o < |ns| && ns[e.o].kind == 3 && ns[e.o].child1 == e.i1 && ns[e.o].child2 == e.i2
  }

  lemma HashOkExtends(ns: seq<Node>, ms: seq<Node>, m: map<int, seq<And>>)
    requires HashOk(ns, m) && Extends(ns, ms)
    ensures HashOk(ms, m)
  {
  }

  /** A match found in a sound bucket is a gate over the pair. */
  lemma LastMatchIsGate(ns: seq<Node>, m: map<int, seq<And>>, k: int, i1: int, i2: int)
    requires HashOk(ns, m)
    ensures var r := LastMatch(Bucket(m, k), i1, i2);
      r != 0 ==> (2 <= r < |ns| && ns[r].kind == 3 &&
                  ((ns[r].child1 == i1 && ns[r].child2 == i2) || (ns[r].child1 == i2 && ns[r].child2 == i1)))
  {
    var b := Bucket(m, k);
    var r := LastMatch(b, i1, i2);
    if r != 0 {
      var j :| 0 <= j < |b| && b[j].o == r && SamePair(b[j], i1, i2);
      assert k in m && b[j] in m[k];
    }
  }

  /** The nodes after a new gate over (i1, i2): the gate node, and one more
      father for each child. */
  function WithGate(ns: seq<Node>, i1: int, i2: int): (r: seq<Node>)
    requires Abs(i1) < |ns| && Abs(i2) < |ns|
    ensures |r| == |ns| + 1 && Extends(ns, r)
    ensures r[|ns|].kind == 3 && r[|ns|].child1 == i1 && r[|ns|].child2 == i2 && r[|ns|].activate
  {
    Adopt(Adopt(ns + [Node(3, 0, i1, i2, true)], Abs(i1)), Abs(i2))
  }

  /** A new gate keeps the buckets sound and the children below their gate. */
  lemma WithGateOk(ns: seq<Node>, m: map<int, seq<And>>, i1: int, i2: int)
    requires Abs(i1) < |ns| && Abs(i2) < |ns| && 2 <= |ns| && HashOk(ns, m) && ChildrenBelow(ns)
    ensures var g := And(|ns|, i1, i2); var r := WithGate(ns, i1, i2);
      HashOk(r, File(File(m, Abs(i1), g), Abs(i2), g)) && ChildrenBelow(r)
  {
    var g := And(|ns|, i1, i2);
    var r := WithGate(ns, i1, i2);
    HashOkExtends(ns, r, m);
    var m2 := File(File(m, Abs(i1), g), Abs(i2), g);
    forall k: int, e: And | k in m2 && e in m2[k]
      ensures 2 <= e.o < |r| && r[e.o].kind == 3 && r[e.o].child1 == e.i1 && r[e.o].child2 == e.i2
    {
      if e != g {
        assert k in m && e in m[k];
      }
    }
  }

  /** The sweep of CleanupFrame over the nodes, from the highest down. */
  method Sweep(ns: seq<Node>) returns (sw: seq<Node>)
    requires ChildrenBelow(ns)
    ensures sw == Swept(ns, |ns|, 0)
  {
    sw := ns;
    var i := |ns| - 1;
    while i >= 0
      invariant -1 <= i < |ns| && |sw| == |ns|
      invariant sw == Swept(ns, |ns|, i + 1)
    {
      ghost var before := sw;
      if sw[i].fathers == 0 && sw[i].kind == 3 {
        var i1 := Abs(sw[i].child1);
        var i2 := Abs(sw[i].child2);
        sw := sw[i := sw[i].(activate := false)];
        sw := sw[i1 := sw[i1].(fathers := sw[i1].fathers - 1)];
        sw := sw[i2 := sw[i2].(fathers := sw[i2].fathers - 1)];
      }
      assert sw == Visit(before, i) == Swept(ns, |ns|, i);
      i := i - 1;
    }
  }

  /** The rebuild of the gate list in CleanupFrame: the active gates, in
      ascending order of output. */
  method Gather(ns: seq<Node>) returns (active: seq<And>)
    ensures active == ActiveAnds(ns, |ns|)
  {
    active := [];
    var i := 0;
    while i < |ns|
      invariant 0 <= i <= |ns|
      invariant active == ActiveAnds(ns, i)
    {
      if ns[i].kind == 3 && ns[i].activate {
        active := active + [And(i, ns[i].child1, ns[i].child2)];
      }
      i := i + 1;
    }
  }

  // ---------------------------------------------------------------------------
  // UnfoldAiger
  // ---------------------------------------------------------------------------

  class UnfoldAiger {
    var inputs: seq<int>
    var outputs: seq<int>
    var constraints: seq<int>
    var ands: seq<And>
    var nodes: seq<Node>
    /** hash_table: bucket k lists the gates node k feeds. */
    var hashTable: map<int, seq<And>>

    /** A new unrolled circuit: no node, gate, input, output or constraint. */
    constructor ()
      ensures inputs == [] && outputs == [] && constraints == [] && ands == [] && nodes == [] && hashTable == map[]
    {
      inputs, outputs, constraints, ands, nodes, hashTable := [], [], [], [], [], map[];
    }

    /** CleanupFrame: sweep the nodes from the highest down, removing the
        gates with no father, then rebuild the gate list from the active
        gates. The number of nodes does not change. */
    method CleanupFrame()
      requires ChildrenBelow(nodes)
      modifies this`nodes, this`ands
      ensures nodes == Swept(old(nodes), |old(nodes)|, 0) && |nodes| == |old(nodes)|
      ensures ands == ActiveAnds(nodes, |nodes|)
    {
      nodes := Sweep(nodes);
      ands := Gather(nodes);
    }

    /** A new input node: Node(2, 0, 0, 0), listed among the inputs. */
    method NewInput() returns (x: int)
      modifies this`nodes, this`inputs
      ensures x == |old(nodes)| && nodes == old(nodes) + [Node(2, 0, 0, 0, true)]
      ensures inputs == old(inputs) + [x]
    {
      nodes := nodes + [Node(2, 0, 0, 0, true)];
      inputs := inputs + [|nodes| - 1];
      x := |nodes| - 1;
    }

    /** A new node of the given kind with no children. */
    method NewLeaf(kind: int) returns (x: int)
      modifies this`nodes
      ensures x == |old(nodes)| && nodes == old(nodes) + [Node(kind, 0, 0, 0, true)]
    {
      nodes := nodes + [Node(kind, 0, 0, 0, true)];
      x := |nodes| - 1;
    }

    /** The search of bucket |i1| for a gate over (i1, i2): the last one
        found wins, 0 when there is none. */
    method Lookup(i1: int, i2: int) returns (o: int)
      ensures o == LastMatch(Bucket(hashTable, Abs(i1)), i1, i2)
    {
      var b := Bucket(hashTable, Abs(i1));
      o := 0;
      var k := 0;
      while k < |b|
        invariant 0 <= k <= |b|
        invariant o == LastMatch(b[..k], i1, i2)
      {
        assert b[..k + 1][..k] == b[..k];
        if b[k].i1 == i1 && b[k].i2 == i2 {
          o := b[k].o;
        } else if b[k].i2 == i1 && b[k].i1 == i2 {
          o := b[k].o;
        }
        k := k + 1;
      }
      assert b[..k] == b;
    }

    /** A new gate node over (i1, i2): both children gain a father, and the
        gate joins the gate list and the buckets of both children. */
    method NewGate(i1: int, i2: int) returns (o: int)
      requires Abs(i1) < |nodes| && Abs(i2) < |nodes|
      modifies this`nodes, this`ands, this`hashTable
      ensures o == |old(nodes)| && nodes == WithGate(old(nodes), i1, i2)
      ensures ands == old(ands) + [And(o, i1, i2)]
      ensures hashTable == File(File(old(hashTable), Abs(i1), And(o, i1, i2)), Abs(i2), And(o, i1, i2))
    {
      nodes := nodes + [Node(3, 0, i1, i2, true)];
      nodes := nodes[Abs(i1) := nodes[Abs(i1)].(fathers := nodes[Abs(i1)].fathers + 1)];
      nodes := nodes[Abs(i2) := nodes[Abs(i2)].(fathers := nodes[Abs(i2)].fathers + 1)];
      o := |nodes| - 1;
      ands := ands + [And(o, i1, i2)];
      hashTable := File(hashTable, Abs(i1), And(o, i1, i2));
      hashTable := File(hashTable, Abs(i2), And(o, i1, i2));
    }

    /** A step's output: listed, and its node gains a father. */
    method AddOutput(x: int)
      requires Abs(x) < |nodes|
      modifies this`nodes, this`outputs
      ensures outputs == old(outputs) + [x] && nodes == Adopt(old(nodes), Abs(x))
    {
      outputs := outputs + [x];
      nodes := nodes[Abs(x) := nodes[Abs(x)].(fathers := nodes[Abs(x)].fathers + 1)];
    }

    /** add_output for each literal of xs, in order. */
    method AddOutputs(xs: seq<int>)
      requires forall k :: 0 <= k < |xs| ==> Abs(xs[k]) < |nodes|
      modifies this`nodes, this`outputs
      ensures outputs == old(outputs) + xs && nodes == AdoptAll(old(nodes), xs)
    {
      var index := 0;
      while index < |xs|
        invariant 0 <= index <= |xs|
        invariant outputs == old(outputs) + xs[..index]
        invariant nodes == AdoptAll(old(nodes), xs[..index])
      {
        assert xs[..index + 1][..index] == xs[..index];
        AddOutput(xs[index]);
        index := index + 1;
      }
      assert xs[..index] == xs;
    }

    method AddConstraint(x: int)
      modifies this`constraints
      ensures constraints == old(constraints) + [x]
    {
      constraints := constraints + [x];
    }
  }
}
