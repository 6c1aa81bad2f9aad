/**
 * The propagation engine: nodes (mutable value cells) and edges (guarded
 * transformations from input nodes to output nodes), as heap objects that
 * refer to each other, together with a value-level specification of what an
 * update or a forced propagation does to the values of a closed set of nodes.
 *
 * Every `await` of the original is one sequential step here. A sweep that keeps
 * going round a cycle (every constraint and guard on it passing) never finishes
 * in the original: each step awaits the next, so the update's promise never
 * settles and no error reaches the caller; a cycle that some guard or constraint
 * eventually blocks finishes like any other sweep. The model
 * bounds the nesting of a sweep by a budget `fuel` and cuts a sweep that would
 * nest deeper off with `OutOfFuel`; a sweep that is not cut off is the same for
 * every larger budget (PropagationLemmas.UpdateFuel).
 */
module Engine {
  import opened Values

  /** What a propagation sweep does that a host can observe, in the order it does it. */
  datatype Event =
    | Stored(node: Node, value: Value)                     // a node committed a merged value
    | Blocked(edge: Edge, inputs: seq<Value>)              // an edge's guard yielded exactly false
    | Ran(edge: Edge, inputs: seq<Value>, output: Value)   // an edge's transform ran

  /** The values after a sweep, the events of the sweep, and how it ended. */
  datatype Sweep = Sweep(vals: map<Node, Value>, trace: seq<Event>, outcome: Outcome)

  /** A sweep that first did the events `t`. */
  function After(t: seq<Event>, s: Sweep): Sweep
  {
    Sweep(s.vals, t + s.trace, s.outcome)
  }

  lemma AfterAfter(t: seq<Event>, u: seq<Event>, s: Sweep)
    ensures After(t, After(u, s)) == After(t + u, s)
  {
    assert t + (u + s.trace) == (t + u) + s.trace;
  }

  /** One turn of the loop over a node's edges: `total` is what the loop does when the
      turns so far did `done` and the edges from `i` on remain, starting from `cur`. */
  lemma EdgesTurn(w: Wiring, total: Sweep, cur: map<Node, Value>, es: seq<Edge>, i: nat,
                  done: seq<Event>, fuel: nat)
    requires i < |es|
    requires total == After(done, EdgesSpec(w, cur, es[i..], fuel))
    ensures var first := EdgeSpec(w, cur, es[i], fuel);
      if first.outcome.Failed? then total == After(done, first)
      else total == After(done + first.trace, EdgesSpec(w, first.vals, es[i + 1..], fuel))
  {
    assert es[i..][0] == es[i] && es[i..][1..] == es[i + 1..];
    var first := EdgeSpec(w, cur, es[i], fuel);
    if !first.outcome.Failed? {
      AfterAfter(done, first.trace, EdgesSpec(w, first.vals, es[i + 1..], fuel));
    }
  }

  /** One turn of the loop over an edge's outputs, in the same terms as EdgesTurn. */
  lemma OutputsTurn(w: Wiring, total: Sweep, cur: map<Node, Value>, outs: seq<Node>, i: nat,
                    v: Value, done: seq<Event>, fuel: nat)
    requires i < |outs|
    requires total == After(done, OutputsSpec(w, cur, outs[i..], v, fuel))
    ensures var first := UpdateSpec(w, cur, outs[i], v, fuel);
      if first.outcome.Failed? then total == After(done, first)
      else total == After(done + first.trace, OutputsSpec(w, first.vals, outs[i + 1..], v, fuel))
  {
    assert outs[i..][0] == outs[i] && outs[i..][1..] == outs[i + 1..];
    var first := UpdateSpec(w, cur, outs[i], v, fuel);
    if !first.outcome.Failed? {
      AfterAfter(done, first.trace, OutputsSpec(w, first.vals, outs[i + 1..], v, fuel));
    }
  }

  /** The structure propagation follows: each node's edges, each edge's inputs and outputs. */
  datatype Wiring = Wiring(edgesOf: map<Node, seq<Edge>>,
                           inputsOf: map<Edge, seq<Node>>,
                           outputsOf: map<Edge, seq<Node>>)
  {
    /** Every edge of a known node is known, and every node of a known edge is known. */
    ghost predicate Closed()
    {
      && inputsOf.Keys == outputsOf.Keys
      && (forall n, i | n in edgesOf && 0 <= i < |edgesOf[n]| :: edgesOf[n][i] in inputsOf)
      && (forall e, i | e in inputsOf && 0 <= i < |inputsOf[e]| :: inputsOf[e][i] in edgesOf)
      && (forall e, i | e in outputsOf && 0 <= i < |outputsOf[e]| :: outputsOf[e][i] in edgesOf)
    }

    /** The edges of `n`; none for a node outside the wiring. */
    function EdgesOf(n: Node): seq<Edge>
    {
      if n in edgesOf then edgesOf[n] else []
    }

    /** The input nodes of `e`; none for an edge outside the wiring. */
    function InputsOf(e: Edge): seq<Node>
    {
      if e in inputsOf then inputsOf[e] else []
    }

    /** The output nodes of `e`; none for an edge outside the wiring. */
    function OutputsOf(e: Edge): seq<Node>
    {
      if e in outputsOf then outputsOf[e] else []
    }
  }

  /** The current values of the nodes `ns`, in order. */
  function InputValues(vals: map<Node, Value>, ns: seq<Node>): (r: seq<Value>)
    ensures |r| == |ns|
    ensures forall i | 0 <= i < |ns| :: r[i] == Get(vals, ns[i])
  {
    seq(|ns|, i requires 0 <= i < |ns| => Get(vals, ns[i]))
  }

  /** The value `vals` gives `n`; `Undefined` for a node it does not cover. */
  function Get(vals: map<Node, Value>, n: Node): Value
  {
    if n in vals then vals[n] else Undefined
  }

  /** Node.update: store merge(v, stored), then propagate from the stored value. */
  ghost function UpdateSpec(w: Wiring, vals: map<Node, Value>, n: Node, v: Value, fuel: nat): (s: Sweep)
    decreases fuel, 0, 0
  {
    if fuel == 0 then Sweep(vals, [], Failed(OutOfFuel))
    else
      match n.merge(v, Get(vals, n))
      case Err(e) => Sweep(vals, [], Failed(e))
      case Ok(m) => After([Stored(n, m)], PropagateSpec(w, vals[n := m], n, fuel - 1))
  }

  /** Node.propagate: visit the node's edges in order when its constraint yields exactly true. */
  ghost function PropagateSpec(w: Wiring, vals: map<Node, Value>, n: Node, fuel: nat): (s: Sweep)
    decreases fuel, 4, 0
  {
    match n.constraint(Get(vals, n))
    case Err(e) => Sweep(vals, [], Failed(e))
    case Ok(c) =>
      if ConstraintPasses(c) then EdgesSpec(w, vals, w.EdgesOf(n), fuel)
      else Sweep(vals, [], Done)
  }

  /** The sequential loop over a node's edges: each edge completes before the next
      starts, and the first failure ends the loop. */
  ghost function EdgesSpec(w: Wiring, vals: map<Node, Value>, es: seq<Edge>, fuel: nat): (s: Sweep)
    decreases fuel, 3, |es|
  {
    if es == [] then Sweep(vals, [], Done)
    else
      var first := EdgeSpec(w, vals, es[0], fuel);
      if first.outcome.Failed? then first
      else After(first.trace, EdgesSpec(w, first.vals, es[1..], fuel))
  }

  /** Edge.propagate: read the inputs' current values, check the guard, run the
      transform once, and send its result to every output in order. */
  ghost function EdgeSpec(w: Wiring, vals: map<Node, Value>, e: Edge, fuel: nat): (s: Sweep)
    decreases fuel, 2, 0
  {
    var ins := InputValues(vals, w.InputsOf(e));
    match e.guard(ins)
    case Err(err) => Sweep(vals, [], Failed(err))
    case Ok(g) =>
      if GuardBlocks(g) then Sweep(vals, [Blocked(e, ins)], Done)
      else
        match e.transform(ins)
        case Err(err) => Sweep(vals, [], Failed(err))
        case Ok(out) => After([Ran(e, ins, out)], OutputsSpec(w, vals, w.OutputsOf(e), out, fuel))
  }

  /** The sequential loop over an edge's outputs: each receives the same value `v`. */
  ghost function OutputsSpec(w: Wiring, vals: map<Node, Value>, outs: seq<Node>, v: Value, fuel: nat): (s: Sweep)
    decreases fuel, 1, |outs|
  {
    if outs == [] then Sweep(vals, [], Done)
    else
      var first := UpdateSpec(w, vals, outs[0], v, fuel);
      if first.outcome.Failed? then first
      else After(first.trace, OutputsSpec(w, first.vals, outs[1..], v, fuel))
  }

  /** The stored values of the nodes `ns`. */
  ghost function ValuesOf(ns: set<Node>): (m: map<Node, Value>)
    reads ns`value
    ensures m.Keys == ns
    ensures forall n | n in ns :: m[n] == n.value
  {
    map n | n in ns :: n.value
  }

  /** The wiring of the nodes `ns` and the edges `es`, as it stands on the heap. */
  ghost function WiringOf(ns: set<Node>, es: set<Edge>): (w: Wiring)
    reads ns`edges, es`inputNodes, es`outputNodes
    ensures w.edgesOf.Keys == ns && w.inputsOf.Keys == es && w.outputsOf.Keys == es
    ensures forall n | n in ns :: w.edgesOf[n] == n.edges
    ensures forall e | e in es :: w.inputsOf[e] == e.inputNodes && w.outputsOf[e] == e.outputNodes
  {
    Wiring(map n | n in ns :: n.edges,
           map e | e in es :: e.inputNodes,
           map e | e in es :: e.outputNodes)
  }

  /** `k` copies of `x`. */
  function Repeat<T>(x: T, k: nat): (r: seq<T>)
    ensures |r| == k && forall i | 0 <= i < k :: r[i] == x
  {
    if k == 0 then [] else Repeat(x, k - 1) + [x]
  }

  /** The name of a node, or the marker an edge without outputs reports instead. */
  datatype Label = Named(name: string) | NoOutputNode

  /** Three parallel lists describing some nodes. */
  datatype NodeList = NodeList(nodes: seq<Node>, names: seq<Label>, values: seq<Value>)

  /** A value cell. Its value changes through Update; its edge list grows through AddEdge. */
  class Node {
    const name: string
    var value: Value
    var edges: seq<Edge>
    const constraint: Constraint
    const merge: Merge
    const debug: bool

    /** A node; a missing edge list is empty, a missing constraint always passes,
        a missing merge keeps the incoming value. */
    constructor (name: string, value: Value, edges: Option<seq<Edge>>,
                 constraint: Option<Constraint>, merge: Option<Merge>, debug: Option<bool>)
      ensures this.name == name && this.value == value
      ensures this.edges == edges.GetOr([])
      ensures this.constraint == constraint.GetOr(AlwaysTrue)
      ensures this.merge == merge.GetOr(Replace)
      ensures this.debug == IsDebug(debug)
    {
      this.name := name;
      this.value := value;
      this.edges := edges.GetOr([]);
      this.constraint := constraint.GetOr(AlwaysTrue);
      this.merge := merge.GetOr(Replace);
      this.debug := IsDebug(debug);
    }

    /** Attach one more edge, after all earlier ones. */
    method AddEdge(e: Edge)
      modifies this`edges
      ensures edges == old(edges) + [e]
    {
      edges := edges + [e];
    }

    /** Store merge(v, stored), then propagate. A failing merge leaves the stored value as it was. */
    method Update(v: Value, fuel: nat, ghost ns: set<Node>, ghost es: set<Edge>, ghost w: Wiring)
      returns (out: Outcome, ghost trace: seq<Event>)
      requires this in ns && w == WiringOf(ns, es) && w.Closed()
      modifies ns`value
      ensures Sweep(ValuesOf(ns), trace, out) == UpdateSpec(w, old(ValuesOf(ns)), this, v, fuel)
      decreases fuel, 0, 0
    {
      if fuel == 0 {
        return Failed(OutOfFuel), [];
      }
      var merged := merge(v, value);
      if merged.Err? {
        return Failed(merged.error), [];
      }
      ghost var before := ValuesOf(ns);
      value := merged.value;
      assert ValuesOf(ns) == before[this := merged.value];
      ghost var rest;
      out, rest := Propagate(fuel - 1, ns, es, w);
      trace := [Stored(this, merged.value)] + rest;
    }

    /** Propagate from the stored value without merging anything. */
    method Force(fuel: nat, ghost ns: set<Node>, ghost es: set<Edge>, ghost w: Wiring)
      returns (out: Outcome, ghost trace: seq<Event>)
      requires this in ns && w == WiringOf(ns, es) && w.Closed()
      modifies ns`value
      ensures Sweep(ValuesOf(ns), trace, out) == PropagateSpec(w, old(ValuesOf(ns)), this, fuel)
      decreases fuel, 5, 0
    {
      out, trace := Propagate(fuel, ns, es, w);
    }

    /** Visit every edge, in attachment order, when the constraint on the stored value
        yields exactly true; stop at the first edge that fails. */
    method Propagate(fuel: nat, ghost ns: set<Node>, ghost es: set<Edge>, ghost w: Wiring)
      returns (out: Outcome, ghost trace: seq<Event>)
      requires this in ns && w == WiringOf(ns, es) && w.Closed()
      modifies ns`value
      ensures Sweep(ValuesOf(ns), trace, out) == PropagateSpec(w, old(ValuesOf(ns)), this, fuel)
      decreases fuel, 4, 0
    {
      var c := constraint(value);
      if c.Err? {
        return Failed(c.error), [];
      }
      if !ConstraintPasses(c.value) {
        return Done, [];
      }
      out, trace := VisitEdges(fuel, ns, es, w);
    }

    /** The loop over the edges, in attachment order; it stops at the first edge that fails. */
    method VisitEdges(fuel: nat, ghost ns: set<Node>, ghost es: set<Edge>, ghost w: Wiring)
      returns (out: Outcome, ghost trace: seq<Event>)
      requires this in ns && w == WiringOf(ns, es) && w.Closed()
      modifies ns`value
      ensures Sweep(ValuesOf(ns), trace, out) == EdgesSpec(w, old(ValuesOf(ns)), edges, fuel)
      decreases fuel, 3, |edges|
    {
      ghost var start := ValuesOf(ns);
      var list := edges;
      out, trace := Done, [];
      var i := 0;
      while i < |list|
        invariant 0 <= i <= |list|
        invariant ValuesOf(ns).Keys == ns
        invariant EdgesSpec(w, start, list, fuel)
               == After(trace, EdgesSpec(w, ValuesOf(ns), list[i..], fuel))
      {
        EdgesTurn(w, EdgesSpec(w, start, list, fuel), ValuesOf(ns), list, i, trace, fuel);
        var o;
        ghost var t;
        o, t := list[i].Propagate(fuel, ns, es, w);
        if o.Failed? {
          return o, trace + t;
        }
        trace := trace + t;
        i := i + 1;
      }
    }
  }

  /** A guarded transformation from a fixed, non-empty list of input nodes to
      zero or more output nodes. */
  class Edge {
    var inputNodes: seq<Node>
    var outputNodes: seq<Node>
    const guard: Guard
    const transform: Transform
    const debug: bool

    /** The edge over `inputs` and `outputs`, registered on every input, once per occurrence.
        A missing guard always passes; a missing transform yields the input vector. */
    constructor (inputs: seq<Node>, outputs: seq<Node>, guard: Option<Guard>,
                 transform: Option<Transform>, debug: Option<bool>)
      requires |inputs| > 0
      modifies (set n | n in inputs)`edges
      ensures inputNodes == inputs && outputNodes == outputs
      ensures forall n | n in inputs :: n.edges == old(n.edges) + Repeat(this, multiset(inputs)[n])
      ensures this.guard == guard.GetOr(AlwaysTrue)
      ensures this.transform == transform.GetOr(InputVector)
      ensures this.debug == IsDebug(debug)
    {
      inputNodes, outputNodes := [], [];
      this.guard := guard.GetOr(AlwaysTrue);
      this.transform := transform.GetOr(InputVector);
      this.debug := IsDebug(debug);
      new;
      PropagateFromAll(inputs);
      PropagateToAll(outputs);
    }

    /** The loop over the inputs: each becomes an input and registers this edge. */
    method PropagateFromAll(inputs: seq<Node>)
      modifies this`inputNodes, (set n | n in inputs)`edges
      ensures inputNodes == old(inputNodes) + inputs
      ensures forall n | n in inputs :: n.edges == old(n.edges) + Repeat(this, multiset(inputs)[n])
    {
      for i := 0 to |inputs|
        invariant inputNodes == old(inputNodes) + inputs[..i]
        invariant forall n | n in inputs :: n.edges == old(n.edges) + Repeat(this, multiset(inputs[..i])[n])
      {
        assert inputs[..i + 1] == inputs[..i] + [inputs[i]];
        PropagateFrom(inputs[i]);
      }
      assert inputs[..|inputs|] == inputs;
    }

    /** The loop over the outputs: each becomes an output. */
    method PropagateToAll(outputs: seq<Node>)
      modifies this`outputNodes
      ensures outputNodes == old(outputNodes) + outputs
    {
      for i := 0 to |outputs|
        invariant outputNodes == old(outputNodes) + outputs[..i]
      {
        assert outputs[..i + 1] == outputs[..i] + [outputs[i]];
        PropagateTo(outputs[i]);
      }
      assert outputs[..|outputs|] == outputs;
    }

    /** The edge over `inputs` and `outputs` as a caller hands them in: it fails, before
        touching any node, unless the inputs are a non-empty list; missing outputs are none. */
    static method New(inputs: Arg<Node>, outputs: Option<seq<Node>>, guard: Option<Guard>,
                      transform: Option<Transform>, debug: Option<bool>)
      returns (r: Result<Edge>)
      modifies (set n | inputs.Array? && n in inputs.items)`edges
      ensures !(inputs.Array? && |inputs.items| > 0) <==> r == Err(NoInputNodes)
      ensures r.Err? ==> forall n | inputs.Array? && n in inputs.items :: n.edges == old(n.edges)
      ensures r.Ok? ==> var e := r.value;
        && fresh(e)
        && e.inputNodes == inputs.items && e.outputNodes == outputs.GetOr([])
        && (forall n | n in inputs.items :: n.edges == old(n.edges) + Repeat(e, multiset(inputs.items)[n]))
        && e.guard == guard.GetOr(AlwaysTrue)
        && e.transform == transform.GetOr(InputVector)
        && e.debug == IsDebug(debug)
    {
      if !inputs.Array? || |inputs.items| == 0 {
        return Err(NoInputNodes);
      }
      var e := new Edge(inputs.items, outputs.GetOr([]), guard, transform, debug);
      return Ok(e);
    }

    /** Add an output node after all earlier ones. */
    method PropagateTo(node: Node)
      modifies this`outputNodes
      ensures outputNodes == old(outputNodes) + [node]
    {
      outputNodes := outputNodes + [node];
    }

    /** Add an input node and register this edge on it. */
    method PropagateFrom(node: Node)
      modifies this`inputNodes, node`edges
      ensures inputNodes == old(inputNodes) + [node]
      ensures node.edges == old(node.edges) + [this]
    {
      node.AddEdge(this);
      inputNodes := inputNodes + [node];
    }

    /** The input nodes, their names and their current values. */
    function GetInputNodes(): (r: NodeList)
      reads this, inputNodes
      ensures r.nodes == inputNodes
      ensures |r.values| == |inputNodes| && forall i | 0 <= i < |inputNodes| :: r.values[i] == inputNodes[i].value
    {
      GetNodes(inputNodes)
    }

    /** The output nodes, their names and their current values; with no outputs the
        names hold the no-output marker alone. */
    function GetOutputNodes(): (r: NodeList)
      reads this, outputNodes
      ensures r.nodes == outputNodes
      ensures outputNodes == [] ==> r.names == [NoOutputNode] && r.values == []
      ensures outputNodes != [] ==> r == GetNodes(outputNodes)
    {
      if |outputNodes| > 0 then GetNodes(outputNodes)
      else NodeList([], [NoOutputNode], [])
    }

    /** Each node, its name and its value, as three lists parallel to `ns`. */
    static function GetNodes(ns: seq<Node>): (r: NodeList)
      reads ns
      ensures |r.nodes| == |r.names| == |r.values| == |ns|
      ensures forall i | 0 <= i < |ns| ::
        r.nodes[i] == ns[i] && r.names[i] == Named(ns[i].name) && r.values[i] == ns[i].value
    {
      if ns == [] then NodeList([], [], [])
      else
        var acc := GetNodes(ns[..|ns| - 1]);
        var n := ns[|ns| - 1];
        NodeList(acc.nodes + [n], acc.names + [Named(n.name)], acc.values + [n.value])
    }

    /** Read the inputs' current values, check the guard, run the transform once and
        update every output with its result, one after the other. */
    method Propagate(fuel: nat, ghost ns: set<Node>, ghost es: set<Edge>, ghost w: Wiring)
      returns (out: Outcome, ghost trace: seq<Event>)
      requires this in es && w == WiringOf(ns, es) && w.Closed()
      modifies ns`value
      ensures Sweep(ValuesOf(ns), trace, out) == EdgeSpec(w, old(ValuesOf(ns)), this, fuel)
      decreases fuel, 2, 0
    {
      ghost var start := ValuesOf(ns);
      var inputs := GetInputNodes();
      var ins := inputs.values;
      assert ins == InputValues(start, inputNodes);
      var g := guard(ins);
      if g.Err? {
        return Failed(g.error), [];
      }
      if GuardBlocks(g.value) {
        return Done, [Blocked(this, ins)];
      }
      var t := transform(ins);
      if t.Err? {
        return Failed(t.error), [];
      }
      var v := t.value;
      ghost var rest;
      out, rest := Broadcast(v, fuel, ns, es, w);
      trace := [Ran(this, ins, v)] + rest;
    }

    /** Update every output with `v`, in order; stop at the first that fails. */
    method Broadcast(v: Value, fuel: nat, ghost ns: set<Node>, ghost es: set<Edge>, ghost w: Wiring)
      returns (out: Outcome, ghost trace: seq<Event>)
      requires this in es && w == WiringOf(ns, es) && w.Closed()
      modifies ns`value
      ensures Sweep(ValuesOf(ns), trace, out) == OutputsSpec(w, old(ValuesOf(ns)), outputNodes, v, fuel)
      decreases fuel, 1, |outputNodes|
    {
      ghost var start := ValuesOf(ns);
      var outs := outputNodes;
      out, trace := Done, [];
      var i := 0;
      while i < |outs|
        invariant 0 <= i <= |outs|
        invariant ValuesOf(ns).Keys == ns
        invariant OutputsSpec(w, start, outs, v, fuel)
               == After(trace, OutputsSpec(w, ValuesOf(ns), outs[i..], v, fuel))
      {
        OutputsTurn(w, OutputsSpec(w, start, outs, v, fuel), ValuesOf(ns), outs, i, v, trace, fuel);
        var o;
        ghost var u;
        o, u := outs[i].Update(v, fuel, ns, es, w);
        if o.Failed? {
          return o, trace + u;
        }
        trace := trace + u;
        i := i + 1;
      }
    }
  }
}
