/** The expression graph: nodes register themselves in one graph as they
    are built, operations record themselves as consumers of their inputs,
    post-order traversals give the evaluation order, and an environment
    evaluates the traversals. The global graph the singleton decorator
    hands out is an explicit object here. */
module ComputationGraph {
  import opened Wrappers

  /** The Operation subclasses. */
  datatype OpKind = Add | Divide | Multiply | Subtract | Sqrt | Matmul | InputPort | Output

  /** What a node is: an operation, a placeholder fed at run time, a
      parameter with its value, or a state with the node of its derivative. */
  datatype Kind = Operation(op: OpKind) | Placeholder | Parameter(value: seq<real>) | State(deriv: Node)

  /** The outputs of a set of nodes, node by node. */
  type Outs = map<Node, seq<real>>

  /** A node of the graph. Only operations have inputs; every node has
      consumers and an output, which is empty until run computes it. */
  class Node {
    const name: string
    const kind: Kind
    var inputNodes: seq<Node>
    var consumers: seq<Node>
    var output: seq<real>

    constructor (name: string, kind: Kind, inputNodes: seq<Node>, output: seq<real>)
      ensures this.name == name && this.kind == kind && this.inputNodes == inputNodes
      ensures consumers == [] && this.output == output
    {
      this.name := name;
      this.kind := kind;
      this.inputNodes := inputNodes;
      consumers := [];
      this.output := output;
    }
  }

  /** Every node of ns is in dom. */
  ghost predicate AllIn(ns: seq<Node>, dom: set<Node>)
  {
    forall i :: 0 <= i < |ns| ==> ns[i] in dom
  }

  /** The inputs of every node in dom are in dom. */
  ghost predicate InputsIn(dom: set<Node>)
    reads dom`inputNodes
  {
    forall n, i :: n in dom && 0 <= i < |n.inputNodes| ==> n.inputNodes[i] in dom
  }

  /** A node whose inputs are in dom can join it. */
  lemma InputsInAdd(dom: set<Node>, n: Node)
    requires InputsIn(dom) && AllIn(n.inputNodes, dom)
    ensures InputsIn(dom + {n})
  {
  }

  /** The lists every node constructor appends itself to; nodes is the
      set of all of them. */
  class Graph {
    var operations: seq<Node>
    var placeholders: seq<Node>
    var parameters: seq<Node>
    var states: seq<Node>
    var outputs: seq<Node>
    ghost var nodes: set<Node>

    constructor ()
      ensures operations == [] && placeholders == [] && parameters == [] && states == [] && outputs == []
      ensures nodes == {} && Valid()
    {
      operations := [];
      placeholders := [];
      parameters := [];
      states := [];
      outputs := [];
      nodes := {};
    }

    /** Inputs and derivatives are nodes of this graph. */
    ghost predicate Valid()
      reads this, nodes`inputNodes
    {
      InputsIn(nodes) && Registered()
    }

    /** Every listed node is in nodes, states have their derivatives in
        nodes, and outputs are output operations. */
    ghost predicate Registered()
      reads this
    {
      AllIn(operations, nodes) && AllIn(placeholders, nodes) && AllIn(parameters, nodes) && AllIn(states, nodes) &&
      (forall i :: 0 <= i < |states| ==> states[i].kind.State? && states[i].kind.deriv in nodes) &&
      (forall i :: 0 <= i < |outputs| ==> outputs[i] in nodes && outputs[i].kind == Operation(Output))
    }

    /** Operation.__init__: the new operation is appended to the consumers
        of each input, once per occurrence and in input order, and to the
        graph's operations. */
    method NewOperation(name: string, op: OpKind, inputs: seq<Node>) returns (n: Node)
      requires Valid() && AllIn(inputs, nodes)
      modifies this`operations, this`nodes, (set m | m in inputs)`consumers
      ensures Valid() && fresh(n) && nodes == old(nodes) + {n}
      ensures n.name == name && n.kind == Operation(op) && n.inputNodes == inputs && n.consumers == [] && n.output == []
      ensures operations == old(operations) + [n]
      ensures forall m :: m in inputs ==> m.consumers == old(m.consumers) + Repeat(n, Count(inputs, m))
    {
      n := new Node(name, Operation(op), inputs, []);
      AddConsumer(n, inputs);
      InputsInAdd(nodes, n);
      operations := operations + [n];
      nodes := nodes + {n};
    }

    /** inputPort(name): an operation with no inputs yet. */
    method NewInputPort(name: string) returns (n: Node)
      requires Valid()
      modifies this`operations, this`nodes
      ensures Valid() && fresh(n) && nodes == old(nodes) + {n}
      ensures n.kind == Operation(InputPort) && n.inputNodes == [] && n.consumers == [] && n.output == []
      ensures operations == old(operations) + [n]
    {
      n := NewOperation(name, InputPort, []);
    }

    /** inputPort.connect: the port gains the node as its last input and
        the node gains the port as its last consumer. */
    method Connect(port: Node, m: Node)
      requires Valid() && port in nodes && m in nodes
      modifies port`inputNodes, m`consumers
      ensures Valid()
      ensures port.inputNodes == old(port.inputNodes) + [m]
      ensures m.consumers == old(m.consumers) + [port]
    {
      port.inputNodes := port.inputNodes + [m];
      m.consumers := m.consumers + [port];
    }

    /** output(name, prev): an operation on prev that is also appended to
        the graph's outputs. */
    method NewOutput(name: string, prev: Node) returns (n: Node)
      requires Valid() && prev in nodes
      modifies this`operations, this`outputs, this`nodes, prev`consumers
      ensures Valid() && fresh(n) && nodes == old(nodes) + {n}
      ensures n.kind == Operation(Output) && n.inputNodes == [prev] && n.output == []
      ensures prev.consumers == old(prev.consumers) + [n]
      ensures operations == old(operations) + [n] && outputs == old(outputs) + [n]
    {
      n := NewOperation(name, Output, [prev]);
      assert Count([prev], prev) == 1 by {
        assert [prev][..0] == [];
      }
      outputs := outputs + [n];
    }

    /** placeholder(name): a node with an empty output, fed at run time. */
    method NewPlaceholder(name: string) returns (n: Node)
      requires Valid()
      modifies this`placeholders, this`nodes
      ensures Valid() && fresh(n) && nodes == old(nodes) + {n}
      ensures n.kind == Placeholder && n.inputNodes == [] && n.consumers == [] && n.output == []
      ensures placeholders == old(placeholders) + [n]
    {
      n := new Node(name, Placeholder, [], []);
      InputsInAdd(nodes, n);
      placeholders := placeholders + [n];
      nodes := nodes + {n};
    }

    /** parameter(name, value): a node whose output run sets to its value. */
    method NewParameter(name: string, value: seq<real>) returns (n: Node)
      requires Valid()
      modifies this`parameters, this`nodes
      ensures Valid() && fresh(n) && nodes == old(nodes) + {n}
      ensures n.kind == Parameter(value) && n.inputNodes == [] && n.consumers == [] && n.output == []
      ensures parameters == old(parameters) + [n]
    {
      n := new Node(name, Parameter(value), [], []);
      InputsInAdd(nodes, n);
      parameters := parameters + [n];
      nodes := nodes + {n};
    }

    /** state(name, deriv, initial): a node whose output starts as the
        initial value. */
    method NewState(name: string, deriv: Node, initial: seq<real>) returns (n: Node)
      requires Valid() && deriv in nodes
      modifies this`states, this`nodes
      ensures Valid() && fresh(n) && nodes == old(nodes) + {n}
      ensures n.kind == State(deriv) && n.inputNodes == [] && n.consumers == [] && n.output == initial
      ensures states == old(states) + [n]
    {
      n := new Node(name, State(deriv), [], initial);
      InputsInAdd(nodes, n);
      states := states + [n];
      nodes := nodes + {n};
    }
  }

  /** The consumers loop of Operation.__init__: n is appended to the
      consumers of each input, once per occurrence, in input order. */
  method AddConsumer(n: Node, inputs: seq<Node>)
    requires n !in inputs
    modifies (set m | m in inputs)`consumers
    ensures forall m :: m in inputs ==> m.consumers == old(m.consumers) + Repeat(n, Count(inputs, m))
  {
    var i := 0;
    while i < |inputs|
      invariant 0 <= i <= |inputs|
      invariant forall m :: m in inputs ==> m.consumers == old(m.consumers) + Repeat(n, Count(inputs[..i], m))
    {
      var m := inputs[i];
      assert inputs[..i + 1] == inputs[..i] + [m];
      forall x | x in inputs
        ensures Count(inputs[..i + 1], x) == Count(inputs[..i], x) + (if x == m then 1 else 0)
      {
        CountAppend(inputs[..i], [m], x);
        assert [m][..0] == [];
      }
      assert Repeat(n, Count(inputs[..i], m) + 1) == Repeat(n, Count(inputs[..i], m)) + [n];
      m.consumers := m.consumers + [n];
      i := i + 1;
    }
    assert inputs[..|inputs|] == inputs;
  }

  /** The wrapper the singleton decorator puts in place of Graph: the first
      call builds the graph, every later call returns that same graph. */
  class GraphSingleton {
    var instance: Graph?

    constructor ()
      ensures instance == null
    {
      instance := null;
    }

    method Get() returns (g: Graph)
      modifies this
      ensures old(instance) != null ==> g == old(instance)
      ensures old(instance) == null ==> fresh(g) && g.nodes == {} && g.outputs == []
      ensures instance == g
    {
      if instance == null {
        instance := new Graph();
      }
      g := instance;
    }
  }

  /** traverse_postorder: the traversals of an operation's inputs in input
      order, then the operation; any other node is a leaf. Every call of
      the recursion uses one of depth frames; running out raises
      RecursionError, as a cycle through an input port always does. */
  function Postorder(ghost dom: set<Node>, n: Node, depth: nat): (r: Result<seq<Node>>)
    requires InputsIn(dom) && n in dom
    reads dom`inputNodes
    ensures r.Raise? ==> r.error == RecursionError
    ensures r.Ok? ==> |r.value| > 0 && r.value[|r.value| - 1] == n
    ensures r.Ok? ==> AllIn(r.value, dom)
    decreases depth, 0
  {
    if depth == 0 then Raise(RecursionError)
    else if !n.kind.Operation? then Ok([n])
    else
      var front :- PostorderAll(dom, n.inputNodes, depth - 1);
      Ok(front + [n])
  }

  /** The traversals of ns, one after the other. */
  function PostorderAll(ghost dom: set<Node>, ns: seq<Node>, depth: nat): (r: Result<seq<Node>>)
    requires InputsIn(dom) && AllIn(ns, dom)
    reads dom`inputNodes
    ensures r.Raise? ==> r.error == RecursionError
    ensures r.Ok? ==> AllIn(r.value, dom)
    decreases depth, |ns| + 1
  {
    if ns == [] then Ok([])
    else
      var front :- PostorderAll(dom, ns[..|ns| - 1], depth);
      var last :- Postorder(dom, ns[|ns| - 1], depth);
      Ok(front + last)
  }

  /** Every input of every operation in s occurs before it. */
  ghost predicate InputsFirst(s: seq<Node>)
    reads (set m | m in s)`inputNodes
  {
    forall p, j :: 0 <= p < |s| && s[p].kind.Operation? && 0 <= j < |s[p].inputNodes| ==> s[p].inputNodes[j] in s[..p]
  }

  lemma InputsFirstAppend(a: seq<Node>, b: seq<Node>)
    requires InputsFirst(a) && InputsFirst(b)
    ensures InputsFirst(a + b)
  {
    var s := a + b;
    forall p, j | 0 <= p < |s| && s[p].kind.Operation? && 0 <= j < |s[p].inputNodes|
      ensures s[p].inputNodes[j] in s[..p]
    {
      if p < |a| {
        assert s[..p] == a[..p];
      } else {
        assert s[p] == b[p - |a|];
        assert s[..p] == a + b[..p - |a|];
      }
    }
  }

  /** A traversal is an evaluation order: every input of an operation in
      it occurs before that operation. */
  lemma {:induction false} PostorderInputsFirst(dom: set<Node>, n: Node, depth: nat)
    requires InputsIn(dom) && n in dom && Postorder(dom, n, depth).Ok?
    ensures InputsFirst(Postorder(dom, n, depth).value)
    decreases depth, 0
  {
    if n.kind.Operation? {
      var front := PostorderAll(dom, n.inputNodes, depth - 1).value;
      PostorderAllInputsFirst(dom, n.inputNodes, depth - 1);
      var s := front + [n];
      forall p, j | 0 <= p < |s| && s[p].kind.Operation? && 0 <= j < |s[p].inputNodes|
        ensures s[p].inputNodes[j] in s[..p]
      {
        if p < |front| {
          assert s[..p] == front[..p];
        } else {
          assert s[..p] == front;
        }
      }
    }
  }

  /** The traversals of ns in order form an evaluation order that holds
      every node of ns. */
  lemma {:induction false} PostorderAllInputsFirst(dom: set<Node>, ns: seq<Node>, depth: nat)
    requires InputsIn(dom) && AllIn(ns, dom) && PostorderAll(dom, ns, depth).Ok?
    ensures InputsFirst(PostorderAll(dom, ns, depth).value)
    ensures forall m :: m in ns ==> m in PostorderAll(dom, ns, depth).value
    decreases depth, |ns| + 1
  {
    if ns != [] {
      var front := PostorderAll(dom, ns[..|ns| - 1], depth).value;
      var last := Postorder(dom, ns[|ns| - 1], depth).value;
      PostorderAllInputsFirst(dom, ns[..|ns| - 1], depth);
      PostorderInputsFirst(dom, ns[|ns| - 1], depth);
      InputsFirstAppend(front, last);
      forall m | m in ns
        ensures m in front + last
      {
        if m != ns[|ns| - 1] {
          assert m in ns[..|ns| - 1];
        } else {
          assert last[|last| - 1] == m;
        }
      }
    }
  }

  /** Shared inputs are not merged: an operation on x and x, a leaf,
      traverses to x, x, then the operation. */
  lemma SharedInputTwice(dom: set<Node>, a: Node, x: Node, depth: nat)
    requires InputsIn(dom) && a in dom && a.kind.Operation? && a.inputNodes == [x, x]
    requires !x.kind.Operation? && depth >= 2
    ensures Postorder(dom, a, depth) == Ok([x, x, a])
  {
    var d := depth - 1;
    assert [x, x][..1] == [x] && [x][..0] == [];
    assert a.inputNodes[0] == x && x in dom;
    assert PostorderAll(dom, [], d) == Ok([]);
    assert Postorder(dom, x, d) == Ok([x]);
    assert PostorderAll(dom, [x], d) == Ok([] + [x]);
    assert [] + [x] == [x];
    assert PostorderAll(dom, [x, x], d) == Ok([x] + [x]);
    assert [x] + [x] == [x, x];
    assert Postorder(dom, a, depth) == Ok([x, x] + [a]);
    assert [x, x] + [a] == [x, x, a];
  }

  /** The number of input paths from n down to m (the empty path when
      n is m), counting only paths that fit in depth frames. */
  ghost function PathsTo(dom: set<Node>, n: Node, m: Node, depth: nat): nat
    requires InputsIn(dom) && n in dom
    reads dom`inputNodes
    decreases depth, 0
  {
    if depth == 0 then 0
    else (if n == m then 1 else 0) + (if n.kind.Operation? then PathsToAll(dom, n.inputNodes, m, depth - 1) else 0)
  }

  /** The input paths down to m from each node of ns, added up. */
  ghost function PathsToAll(dom: set<Node>, ns: seq<Node>, m: Node, depth: nat): nat
    requires InputsIn(dom) && AllIn(ns, dom)
    reads dom`inputNodes
    decreases depth, |ns| + 1
  {
    if ns == [] then 0
    else PathsToAll(dom, ns[..|ns| - 1], m, depth) + PathsTo(dom, ns[|ns| - 1], m, depth)
  }

  /** The number of input paths from n to any node, counting only paths
      that fit in depth frames. */
  ghost function Paths(dom: set<Node>, n: Node, depth: nat): nat
    requires InputsIn(dom) && n in dom
    reads dom`inputNodes
    decreases depth, 0
  {
    if depth == 0 then 0
    else 1 + (if n.kind.Operation? then PathsAll(dom, n.inputNodes, depth - 1) else 0)
  }

  /** The input paths from each node of ns, added up. */
  ghost function PathsAll(dom: set<Node>, ns: seq<Node>, depth: nat): nat
    requires InputsIn(dom) && AllIn(ns, dom)
    reads dom`inputNodes
    decreases depth, |ns| + 1
  {
    if ns == [] then 0
    else PathsAll(dom, ns[..|ns| - 1], depth) + Paths(dom, ns[|ns| - 1], depth)
  }

  /** A traversal holds every node once per input path that reaches it,
      so it is as long as the number of paths: shared inputs are visited
      again on every path. */
  lemma {:induction false} PostorderCounts(dom: set<Node>, n: Node, m: Node, depth: nat)
    requires InputsIn(dom) && n in dom && Postorder(dom, n, depth).Ok?
    ensures multiset(Postorder(dom, n, depth).value)[m] == PathsTo(dom, n, m, depth)
    ensures |Postorder(dom, n, depth).value| == Paths(dom, n, depth)
    decreases depth, 0
  {
    if n.kind.Operation? {
      PostorderAllCounts(dom, n.inputNodes, m, depth - 1);
    }
  }

  /** The traversals of ns hold every node once per path from ns to it. */
  lemma {:induction false} PostorderAllCounts(dom: set<Node>, ns: seq<Node>, m: Node, depth: nat)
    requires InputsIn(dom) && AllIn(ns, dom) && PostorderAll(dom, ns, depth).Ok?
    ensures multiset(PostorderAll(dom, ns, depth).value)[m] == PathsToAll(dom, ns, m, depth)
    ensures |PostorderAll(dom, ns, depth).value| == PathsAll(dom, ns, depth)
    decreases depth, |ns| + 1
  {
    if ns != [] {
      PostorderAllCounts(dom, ns[..|ns| - 1], m, depth);
      PostorderCounts(dom, ns[|ns| - 1], m, depth);
    }
  }

  /** The derivative of every state, in the order the states were built. */
  function Derivs(states: seq<Node>): (ds: seq<Node>)
    requires forall i :: 0 <= i < |states| ==> states[i].kind.State?
    ensures |ds| == |states| && forall i :: 0 <= i < |states| ==> ds[i] == states[i].kind.deriv
  {
    if states == [] then [] else Derivs(states[..|states| - 1]) + [states[|states| - 1].kind.deriv]
  }

  /** The nodes compile traverses from: the states' derivatives, then the
      outputs. */
  function Roots(g: Graph): (rs: seq<Node>)
    requires g.Registered()
    reads g
    ensures AllIn(rs, g.nodes)
  {
    Derivs(g.states) + g.outputs
  }

  /** Each node's inputs, as a value: run reads the inputs of the nodes it
      evaluates but never changes them. */
  type Ins = map<Node, seq<Node>>

  /** The computation an arithmetic operation performs on its arguments. */
  type Arith = (OpKind, seq<seq<real>>) -> seq<real>

  /** What one run is given: the inputs of the nodes, the feed dictionary
      and the arithmetic. */
  datatype Ctx = Ctx(ins: Ins, feed: map<Node, seq<real>>, arith: Arith)

  /** The inputs of the nodes in dom. */
  ghost function Inputs(dom: set<Node>): (ins: Ins)
    reads dom`inputNodes
    ensures ins.Keys == dom && forall n :: n in dom ==> ins[n] == n.inputNodes
  {
    map n | n in dom :: n.inputNodes
  }

  /** The nodes of a list, and their inputs, are all known to ins. */
  ghost predicate Closed(nodes: seq<Node>, ins: Ins)
  {
    forall n :: n in nodes ==> n in ins && forall m :: m in ins[n] ==> m in ins
  }

  /** Every node of every tree is in dom. */
  ghost predicate Within(trees: seq<seq<Node>>, dom: set<Node>)
  {
    forall i :: 0 <= i < |trees| ==> forall n :: n in trees[i] ==> n in dom
  }

  ghost predicate AllClosed(trees: seq<seq<Node>>, ins: Ins)
    ensures AllClosed(trees, ins) ==> Within(trees, ins.Keys)
  {
    forall i :: 0 <= i < |trees| ==> Closed(trees[i], ins)
  }

  /** The trees compile builds for the given roots: one traversal per
      root, in order. */
  function Traversals(ghost dom: set<Node>, roots: seq<Node>, depth: nat): (r: Result<seq<seq<Node>>>)
    requires InputsIn(dom) && AllIn(roots, dom)
    reads dom`inputNodes
    ensures r.Raise? ==> r.error == RecursionError
  {
    if roots == [] then Ok([])
    else
      var front :- Traversals(dom, roots[..|roots| - 1], depth);
      var last :- Postorder(dom, roots[|roots| - 1], depth);
      Ok(front + [last])
  }

  /** The trees are the roots' traversals, and they fail exactly when the
      traversal of some root does. */
  lemma {:induction false} TraversalsOfRoots(dom: set<Node>, roots: seq<Node>, depth: nat)
    requires InputsIn(dom) && AllIn(roots, dom)
    ensures Traversals(dom, roots, depth).Ok? ==>
      |Traversals(dom, roots, depth).value| == |roots| &&
      forall i :: 0 <= i < |roots| ==> Postorder(dom, roots[i], depth) == Ok(Traversals(dom, roots, depth).value[i])
    ensures Traversals(dom, roots, depth).Raise? <==> exists i :: 0 <= i < |roots| && Postorder(dom, roots[i], depth).Raise?
  {
    if roots != [] {
      var front := roots[..|roots| - 1];
      TraversalsOfRoots(dom, front, depth);
      if Traversals(dom, front, depth).Raise? {
        var i :| 0 <= i < |front| && Postorder(dom, front[i], depth).Raise?;
        assert roots[i] == front[i];
      }
      if Traversals(dom, roots, depth).Ok? {
        forall i | 0 <= i < |roots| ensures Postorder(dom, roots[i], depth).Ok? {
          if i < |front| {
            assert roots[i] == front[i];
          }
        }
      }
    }
  }

  /** Every tree compile builds is closed in the graph, so run may
      evaluate it. */
  lemma {:induction false} TraversalsClosed(dom: set<Node>, roots: seq<Node>, depth: nat)
    requires InputsIn(dom) && AllIn(roots, dom) && Traversals(dom, roots, depth).Ok?
    ensures AllClosed(Traversals(dom, roots, depth).value, Inputs(dom))
  {
    if roots != [] {
      TraversalsClosed(dom, roots[..|roots| - 1], depth);
      var last := Postorder(dom, roots[|roots| - 1], depth).value;
      forall n | n in last
        ensures n in dom && forall m :: m in n.inputNodes ==> m in dom
      {
        var p :| 0 <= p < |last| && last[p] == n;
        forall m | m in n.inputNodes
          ensures m in dom
        {
          var q :| 0 <= q < |n.inputNodes| && n.inputNodes[q] == m;
        }
      }
    }
  }

  /** The trees of one more root: its traversal appended, or a failure. */
  lemma TraversalsNext(dom: set<Node>, roots: seq<Node>, k: nat, depth: nat, built: seq<seq<Node>>)
    requires InputsIn(dom) && AllIn(roots, dom) && k < |roots|
    requires Traversals(dom, roots[..k], depth) == Ok(built)
    ensures Postorder(dom, roots[k], depth).Ok? ==> Traversals(dom, roots[..k + 1], depth) == Ok(built + [Postorder(dom, roots[k], depth).value])
    ensures Postorder(dom, roots[k], depth).Raise? ==> Traversals(dom, roots[..k + 1], depth).Raise?
  {
    assert roots[..k + 1][..k] == roots[..k];
  }

  /** Once the trees of a prefix of the roots fail, so do all. */
  lemma {:induction false} TraversalsFail(dom: set<Node>, roots: seq<Node>, k: nat, depth: nat)
    requires InputsIn(dom) && AllIn(roots, dom) && k <= |roots|
    requires Traversals(dom, roots[..k], depth).Raise?
    ensures Traversals(dom, roots, depth).Raise?
    decreases |roots| - k
  {
    if k < |roots| {
      assert roots[..k + 1][..k] == roots[..k];
      TraversalsFail(dom, roots, k + 1, depth);
    } else {
      assert roots[..k] == roots;
    }
  }

  /** The outputs of the nodes in dom. */
  ghost function Outputs(dom: set<Node>): (outs: Outs)
    reads dom`output
    ensures outs.Keys == dom
  {
    map n | n in dom :: n.output
  }

  /** The argument count each compute method takes. */
  function Arity(op: OpKind): nat
  {
    match op
    case Sqrt | InputPort | Output => 1
    case _ => 2
  }

  /** node.compute(*inputs): input ports and outputs pass their one
      argument on, the arithmetic kinds are arith; a wrong number of
      arguments raises TypeError. */
  function Compute(op: OpKind, args: seq<seq<real>>, arith: Arith): (r: Result<seq<real>>)
    ensures r.Ok? <==> |args| == Arity(op)
    ensures r.Ok? && (op == InputPort || op == Output) ==> r.value == args[0]
    ensures r.Raise? ==> r.error == TypeError
  {
    if |args| != Arity(op) then Raise(TypeError)
    else if op == InputPort || op == Output then Ok(args[0])
    else Ok(arith(op, args))
  }

  /** The outputs of ns, in order. */
  function Args(ns: seq<Node>, outs: Outs): (args: seq<seq<real>>)
    requires forall m :: m in ns ==> m in outs
    ensures |args| == |ns| && forall i :: 0 <= i < |ns| ==> args[i] == outs[ns[i]]
  {
    seq(|ns|, i requires 0 <= i < |ns| => outs[ns[i]])
  }

  /** What run gives node n when the outputs so far are outs. A node with
      a non-empty output keeps it; otherwise a placeholder takes its feed,
      a parameter its value, an operation the compute of its inputs'
      outputs, and a state stays as it is. */
  function Eval(n: Node, c: Ctx, outs: Outs): Result<seq<real>>
    requires n in c.ins && n in outs && forall m :: m in c.ins[n] ==> m in outs
  {
    if |outs[n]| != 0 then Ok(outs[n])
    else
      match n.kind
      case Placeholder => if n in c.feed then Ok(c.feed[n]) else Raise(KeyError)
      case Parameter(v) => Ok(v)
      case Operation(op) => Compute(op, Args(c.ins[n], outs), c.arith)
      case State(_) => Ok(outs[n])
  }

  /** Evaluating the nodes of one traversal in order. */
  function RunNodes(nodes: seq<Node>, c: Ctx, outs: Outs): (r: Result<Outs>)
    requires Closed(nodes, c.ins) && c.ins.Keys == outs.Keys
    ensures r.Ok? ==> r.value.Keys == outs.Keys
  {
    if nodes == [] then Ok(outs)
    else
      var before :- RunNodes(nodes[..|nodes| - 1], c, outs);
      var n := nodes[|nodes| - 1];
      var v :- Eval(n, c, before);
      Ok(before[n := v])
  }

  /** Evaluating the traversals in order. */
  function RunTrees(trees: seq<seq<Node>>, c: Ctx, outs: Outs): (r: Result<Outs>)
    requires AllClosed(trees, c.ins) && c.ins.Keys == outs.Keys
    ensures r.Ok? ==> r.value.Keys == outs.Keys
  {
    if trees == [] then Ok(outs)
    else
      var before :- RunTrees(trees[..|trees| - 1], c, outs);
      RunNodes(trees[|trees| - 1], c, before)
  }

  /** clean_operations on one traversal. */
  function CleanTree(nodes: seq<Node>, outs: Outs): (r: Outs)
    requires forall n :: n in nodes ==> n in outs
    ensures r.Keys == outs.Keys
  {
    if nodes == [] then outs
    else
      var before := CleanTree(nodes[..|nodes| - 1], outs);
      var n := nodes[|nodes| - 1];
      if n.kind.Operation? then before[n := []] else before
  }

  /** clean_operations: every traversal in turn. */
  function Cleaned(trees: seq<seq<Node>>, outs: Outs): (r: Outs)
    requires Within(trees, outs.Keys)
    ensures r.Keys == outs.Keys
  {
    if trees == [] then outs
    else CleanTree(trees[|trees| - 1], Cleaned(trees[..|trees| - 1], outs))
  }

  /** Cleaning one traversal empties exactly its operations. */
  lemma {:induction false} CleanTreeAt(nodes: seq<Node>, outs: Outs, n: Node)
    requires (forall m :: m in nodes ==> m in outs) && n in outs
    ensures CleanTree(nodes, outs)[n] == if n.kind.Operation? && n in nodes then [] else outs[n]
  {
    if nodes != [] {
      CleanTreeAt(nodes[..|nodes| - 1], outs, n);
      if n in nodes && n != nodes[|nodes| - 1] {
        assert n in nodes[..|nodes| - 1];
      }
    }
  }

  /** After cleaning, an operation of some traversal has an empty output
      and every other node keeps its own. */
  lemma {:induction false} CleanedAt(trees: seq<seq<Node>>, outs: Outs, n: Node)
    requires Within(trees, outs.Keys) && n in outs
    ensures Cleaned(trees, outs)[n] == if n.kind.Operation? && exists i :: 0 <= i < |trees| && n in trees[i] then [] else outs[n]
  {
    if trees != [] {
      var front := trees[..|trees| - 1];
      CleanedAt(front, outs, n);
      CleanTreeAt(trees[|trees| - 1], Cleaned(front, outs), n);
      if exists i :: 0 <= i < |trees| && n in trees[i] {
        var i :| 0 <= i < |trees| && n in trees[i];
        if i < |front| {
          assert front[i] == trees[i];
        }
      }
      if exists i :: 0 <= i < |front| && n in front[i] {
        var i :| 0 <= i < |front| && n in front[i];
        assert trees[i] == front[i];
      }
    }
  }

  /** Evaluating a traversal changes no output that is not empty. */
  lemma {:induction false} RunNodesKeeps(nodes: seq<Node>, c: Ctx, outs: Outs, n: Node)
    requires Closed(nodes, c.ins) && c.ins.Keys == outs.Keys && RunNodes(nodes, c, outs).Ok?
    requires n in outs && |outs[n]| != 0
    ensures RunNodes(nodes, c, outs).value[n] == outs[n]
  {
    if nodes != [] {
      RunNodesKeeps(nodes[..|nodes| - 1], c, outs, n);
    }
  }

  /** Evaluating a traversal changes no output of a node outside it. */
  lemma {:induction false} RunNodesOutside(nodes: seq<Node>, c: Ctx, outs: Outs, n: Node)
    requires Closed(nodes, c.ins) && c.ins.Keys == outs.Keys && RunNodes(nodes, c, outs).Ok?
    requires n in outs && n !in nodes
    ensures RunNodes(nodes, c, outs).value[n] == outs[n]
  {
    if nodes != [] {
      RunNodesOutside(nodes[..|nodes| - 1], c, outs, n);
    }
  }

  /** Running the traversals changes no output that is not empty, and no
      output of a node outside them. */
  lemma {:induction false} RunTreesKeeps(trees: seq<seq<Node>>, c: Ctx, outs: Outs, n: Node)
    requires AllClosed(trees, c.ins) && c.ins.Keys == outs.Keys && RunTrees(trees, c, outs).Ok?
    requires n in outs && (|outs[n]| != 0 || forall i :: 0 <= i < |trees| ==> n !in trees[i])
    ensures RunTrees(trees, c, outs).value[n] == outs[n]
  {
    if trees != [] {
      var front := trees[..|trees| - 1];
      RunTreesKeeps(front, c, outs, n);
      var before := RunTrees(front, c, outs).value;
      if |outs[n]| != 0 {
        RunNodesKeeps(trees[|trees| - 1], c, before, n);
      } else {
        RunNodesOutside(trees[|trees| - 1], c, before, n);
      }
    }
  }

  /** A placeholder fed in an earlier run keeps that value in a later one,
      whatever the new feed says: cleaning spares it and its output is no
      longer empty. */
  lemma PlaceholderKeepsFirstValue(trees: seq<seq<Node>>, c: Ctx, outs: Outs, p: Node)
    requires AllClosed(trees, c.ins) && c.ins.Keys == outs.Keys && RunTrees(trees, c, Cleaned(trees, outs)).Ok?
    requires p in outs && p.kind.Placeholder? && |outs[p]| != 0
    ensures RunTrees(trees, c, Cleaned(trees, outs)).value[p] == outs[p]
  {
    CleanedAt(trees, outs, p);
    RunTreesKeeps(trees, c, Cleaned(trees, outs), p);
  }

  /** Once the traversals up to k fail to run, so do all of them. */
  lemma {:induction false} RunTreesFails(trees: seq<seq<Node>>, k: nat, c: Ctx, outs: Outs)
    requires k <= |trees| && AllClosed(trees, c.ins) && c.ins.Keys == outs.Keys
    requires RunTrees(trees[..k], c, outs).Raise?
    ensures RunTrees(trees, c, outs).Raise?
    decreases |trees| - k
  {
    if k < |trees| {
      assert trees[..k + 1][..k] == trees[..k];
      RunTreesFails(trees, k + 1, c, outs);
    } else {
      assert trees[..k] == trees;
    }
  }

  /** Once the nodes up to j fail to evaluate, so does the traversal. */
  lemma {:induction false} RunNodesFails(nodes: seq<Node>, j: nat, c: Ctx, outs: Outs)
    requires j <= |nodes| && Closed(nodes, c.ins) && c.ins.Keys == outs.Keys
    requires RunNodes(nodes[..j], c, outs).Raise?
    ensures RunNodes(nodes, c, outs).Raise?
    decreases |nodes| - j
  {
    if j < |nodes| {
      assert nodes[..j + 1][..j] == nodes[..j];
      RunNodesFails(nodes, j + 1, c, outs);
    } else {
      assert nodes[..j] == nodes;
    }
  }

  /** One more traversal: its nodes are run on the outputs so far. */
  lemma RunTreesNext(ts: seq<seq<Node>>, i: nat, c: Ctx, outs: Outs)
    requires i < |ts| && AllClosed(ts, c.ins) && c.ins.Keys == outs.Keys && RunTrees(ts[..i], c, outs).Ok?
    ensures RunTrees(ts[..i + 1], c, outs) == RunNodes(ts[i], c, RunTrees(ts[..i], c, outs).value)
  {
    assert ts[..i + 1][..i] == ts[..i];
  }

  /** One more node of a traversal: its value is added, or the run fails. */
  lemma RunNodesNext(nodes: seq<Node>, j: nat, c: Ctx, outs: Outs)
    requires j < |nodes| && Closed(nodes, c.ins) && c.ins.Keys == outs.Keys && RunNodes(nodes[..j], c, outs).Ok?
    ensures var before := RunNodes(nodes[..j], c, outs).value;
      nodes[j] in before && nodes[j] in c.ins && (forall m :: m in c.ins[nodes[j]] ==> m in before) &&
      RunNodes(nodes[..j + 1], c, outs) ==
        match Eval(nodes[j], c, before)
        case Ok(v) => Ok(before[nodes[j] := v])
        case Raise(e) => Raise(e)
  {
    assert nodes[..j + 1][..j] == nodes[..j];
  }

  /** One loop of compile: the traversals of roots[from..to] appended in
      turn to the trees of the roots before them. A RecursionError stops
      the loop with the trees built so far. */
  method AppendTraversals(ghost dom: set<Node>, roots: seq<Node>, from: nat, to: nat, depth: nat, built0: seq<seq<Node>>)
      returns (built: seq<seq<Node>>, o: Outcome)
    requires InputsIn(dom) && AllIn(roots, dom) && from <= to <= |roots|
    requires Traversals(dom, roots[..from], depth) == Ok(built0)
    ensures o.Pass? <==> Traversals(dom, roots[..to], depth).Ok?
    ensures o.Pass? ==> Traversals(dom, roots[..to], depth) == Ok(built)
    ensures o.Fail? ==> o.error == RecursionError
  {
    built := built0;
    var i := from;
    while i < to
      invariant from <= i <= to
      invariant Traversals(dom, roots[..i], depth) == Ok(built)
    {
      TraversalsNext(dom, roots, i, depth, built);
      var t := Postorder(dom, roots[i], depth);
      if t.Raise? {
        assert roots[..to][..i + 1] == roots[..i + 1];
        TraversalsFail(dom, roots[..to], i + 1, depth);
        return built, Fail(t.error);
      }
      built := built + [t.value];
      i := i + 1;
    }
    o := Pass;
  }

  /** An Environment: the traversals compile builds, evaluated by run. */
  class Environment {
    var trees: Option<seq<seq<Node>>>

    constructor ()
      ensures trees == None
    {
      trees := None;
    }

    /** compile: one traversal per state, from its derivative, then one
        per output, in the order they were built. */
    method Compile(g: Graph, depth: nat) returns (o: Outcome)
      requires g.Valid()
      modifies this`trees
      ensures Traversals(g.nodes, Roots(g), depth).Ok? <==> o.Pass?
      ensures o.Fail? ==> o.error == RecursionError
      ensures o.Pass? ==> trees == Some(Traversals(g.nodes, Roots(g), depth).value)
    {
      ghost var dom := g.nodes;
      var roots := Roots(g);
      assert roots[..0] == [];
      var built;
      built, o := AppendTraversals(dom, roots, 0, |g.states|, depth, []);
      if o.Pass? {
        built, o := AppendTraversals(dom, roots, |g.states|, |roots|, depth, built);
      } else {
        TraversalsFail(dom, roots, |g.states|, depth);
      }
      assert roots[..|roots|] == roots;
      trees := Some(built);
    }

    /** run: clean_operations, then every node of every traversal in order
        gets its value if its output is empty. A placeholder missing from
        the feed raises KeyError, and a run before compile AttributeError. */
    method Run(g: Graph, feed: map<Node, seq<real>>, arith: Arith) returns (o: Outcome)
      requires trees.Some? ==> AllClosed(trees.value, Inputs(g.nodes))
      modifies g.nodes`output
      ensures trees.None? ==> o == Fail(AttributeError)
      ensures trees.Some? ==> (RunTrees(trees.value, Ctx(Inputs(g.nodes), feed, arith), Cleaned(trees.value, old(Outputs(g.nodes)))).Ok? <==> o.Pass?)
      ensures o.Pass? ==> trees.Some? && RunTrees(trees.value, Ctx(Inputs(g.nodes), feed, arith), Cleaned(trees.value, old(Outputs(g.nodes)))) == Ok(Outputs(g.nodes))
    {
      if trees.None? {
        return Fail(AttributeError);
      }
      CleanOperations(trees.value, g.nodes);
      o := RunAll(trees.value, g.nodes, Inputs(g.nodes), feed, arith);
    }
  }

  /** The loops of run after cleaning: the traversals in order. */
  method RunAll(ts: seq<seq<Node>>, ghost dom: set<Node>, ghost ins: Ins, feed: map<Node, seq<real>>, arith: Arith) returns (o: Outcome)
    requires ins == Inputs(dom) && AllClosed(ts, ins)
    modifies dom`output
    ensures RunTrees(ts, Ctx(ins, feed, arith), old(Outputs(dom))).Ok? <==> o.Pass?
    ensures o.Pass? ==> RunTrees(ts, Ctx(ins, feed, arith), old(Outputs(dom))) == Ok(Outputs(dom))
  {
    ghost var start := Outputs(dom);
    var i := 0;
    while i < |ts|
      invariant 0 <= i <= |ts|
      invariant RunTrees(ts[..i], Ctx(ins, feed, arith), start) == Ok(Outputs(dom))
    {
      RunTreesNext(ts, i, Ctx(ins, feed, arith), start);
      o := RunNodesIn(ts[i], dom, ins, feed, arith);
      if o.Fail? {
        RunTreesFails(ts, i + 1, Ctx(ins, feed, arith), start);
        return;
      }
      i := i + 1;
    }
    assert ts[..|ts|] == ts;
    o := Pass;
  }

  /** clean_operations: every operation in the traversals gets an empty
      output; nothing else changes. */
  method CleanOperations(trees: seq<seq<Node>>, ghost dom: set<Node>)
    requires Within(trees, dom)
    modifies dom`output
    ensures Outputs(dom) == Cleaned(trees, old(Outputs(dom)))
  {
    ghost var start := Outputs(dom);
    var i := 0;
    while i < |trees|
      invariant 0 <= i <= |trees|
      invariant Outputs(dom) == Cleaned(trees[..i], start)
    {
      assert trees[..i + 1][..i] == trees[..i];
      CleanTreeIn(trees[i], dom);
      i := i + 1;
    }
    assert trees[..|trees|] == trees;
  }

  /** clean_operations on one traversal. */
  method CleanTreeIn(tree: seq<Node>, ghost dom: set<Node>)
    requires forall n :: n in tree ==> n in dom
    modifies dom`output
    ensures Outputs(dom) == CleanTree(tree, old(Outputs(dom)))
  {
    ghost var before := Outputs(dom);
    var j := 0;
    while j < |tree|
      invariant 0 <= j <= |tree|
      invariant Outputs(dom) == CleanTree(tree[..j], before)
    {
      assert tree[..j + 1][..j] == tree[..j];
      var n := tree[j];
      ghost var cur := Outputs(dom);
      if n.kind.Operation? {
        n.output := [];
        assert Outputs(dom) == cur[n := []];
      }
      j := j + 1;
    }
    assert tree[..|tree|] == tree;
  }

  /** One traversal of run: each node with an empty output gets its value,
      in order. */
  method RunNodesIn(tree: seq<Node>, ghost dom: set<Node>, ghost ins: Ins, feed: map<Node, seq<real>>, arith: Arith) returns (o: Outcome)
    requires ins == Inputs(dom) && Closed(tree, ins)
    modifies dom`output
    ensures RunNodes(tree, Ctx(ins, feed, arith), old(Outputs(dom))).Ok? <==> o.Pass?
    ensures o.Pass? ==> RunNodes(tree, Ctx(ins, feed, arith), old(Outputs(dom))) == Ok(Outputs(dom))
  {
    ghost var start := Outputs(dom);
    var j := 0;
    while j < |tree|
      invariant 0 <= j <= |tree|
      invariant RunNodes(tree[..j], Ctx(ins, feed, arith), start) == Ok(Outputs(dom))
    {
      o := RunNodeAt(tree, j, dom, ins, feed, arith, start);
      if o.Fail? {
        return;
      }
      j := j + 1;
    }
    assert tree[..|tree|] == tree;
    o := Pass;
  }

  /** One step of run's inner loop: node j of a traversal gets its value,
      or the traversal fails. */
  method RunNodeAt(tree: seq<Node>, j: nat, ghost dom: set<Node>, ghost ins: Ins, feed: map<Node, seq<real>>, arith: Arith, ghost start: Outs)
    returns (o: Outcome)
    requires ins == Inputs(dom) && Closed(tree, ins) && j < |tree| && start.Keys == dom
    requires RunNodes(tree[..j], Ctx(ins, feed, arith), start) == Ok(Outputs(dom))
    modifies dom`output
    ensures o.Pass? ==> RunNodes(tree[..j + 1], Ctx(ins, feed, arith), start) == Ok(Outputs(dom))
    ensures o.Fail? ==> RunNodes(tree, Ctx(ins, feed, arith), start).Raise?
  {
    RunNodesNext(tree, j, Ctx(ins, feed, arith), start);
    o := EvalNode(tree[j], dom, ins, feed, arith);
    if o.Fail? {
      RunNodesFails(tree, j + 1, Ctx(ins, feed, arith), start);
    }
  }

  /** The body of run's inner loop: a node with an empty output gets its
      value; nothing else changes. */
  method EvalNode(n: Node, ghost dom: set<Node>, ghost ins: Ins, feed: map<Node, seq<real>>, arith: Arith) returns (o: Outcome)
    requires n in dom && n in ins && ins[n] == n.inputNodes && forall m :: m in n.inputNodes ==> m in dom
    modifies n`output
    ensures Eval(n, Ctx(ins, feed, arith), old(Outputs(dom))).Ok? <==> o.Pass?
    ensures o.Pass? ==> Outputs(dom) == old(Outputs(dom))[n := Eval(n, Ctx(ins, feed, arith), old(Outputs(dom))).value]
  {
    ghost var outs := Outputs(dom);
    var v := Value(n, dom, ins, feed, arith);
    if v.Raise? {
      return Fail(v.error);
    }
    n.output := v.value;
    assert Outputs(dom) == outs[n := v.value];
    o := Pass;
  }

  /** The value run gives one node, read from the nodes' current outputs. */
  method Value(n: Node, ghost dom: set<Node>, ghost ins: Ins, feed: map<Node, seq<real>>, arith: Arith) returns (v: Result<seq<real>>)
    requires n in dom && n in ins && ins[n] == n.inputNodes && forall m :: m in n.inputNodes ==> m in dom
    ensures v == Eval(n, Ctx(ins, feed, arith), Outputs(dom))
  {
    if |n.output| != 0 {
      return Ok(n.output);
    }
    match n.kind
    case Placeholder =>
      if n !in feed {
        return Raise(KeyError);
      }
      v := Ok(feed[n]);
    case Parameter(value) =>
      v := Ok(value);
    case Operation(op) =>
      var args := InputOutputs(n.inputNodes);
      assert args == Args(n.inputNodes, Outputs(dom));
      v := Compute(op, args, arith);
    case State(_) =>
      v := Ok(n.output);
  }

  /** The outputs of ns, in order: the inputs run hands to compute. */
  method InputOutputs(ns: seq<Node>) returns (args: seq<seq<real>>)
    ensures |args| == |ns| && forall i :: 0 <= i < |ns| ==> args[i] == ns[i].output
  {
    args := [];
    var i := 0;
    while i < |ns|
      invariant 0 <= i <= |ns| && |args| == i
      invariant forall p :: 0 <= p < i ==> args[p] == ns[p].output
    {
      args := args + [ns[i].output];
      i := i + 1;
    }
  }
}
