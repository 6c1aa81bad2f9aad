/**
 * The graph facade: a registry of named nodes, the definition of a node by
 * projections, side-effect edges, and the from-projection that turns input
 * names and rules into edges. The projection lives here beside the graph
 * because each refers to the other.
 */
module Graph {
  import opened Values
  import opened Engine

  /** One rule of a from-projection: its optional transform (`as`) and guard (`when`). */
  datatype Rule = Rule(transform: Option<Transform>, guard: Option<Guard>)

  /** What `define` can be handed in place of a projection. */
  datatype Projection =
    | From(p: FromProjection)   // a from-projection
    | Base                      // the projection base itself, whose applyTo always fails
    | NotAProjection            // a value without an applyTo

  /** One edge that `define` makes: the inputs it reads and the rule it follows. */
  datatype Plan = Plan(inputs: seq<Node>, rule: Rule)

  /** The edges a `define` makes, in order, and how it ends. */
  datatype Definition = Definition(plans: seq<Plan>, outcome: Outcome)

  /** The items of a list argument; a single item stands for the list holding it. */
  function Listed<T>(a: Arg<T>): seq<T>
  {
    match a
    case Array(items) => items
    case Single(item) => [item]
  }

  /** The nodes `names` denote in `nodes`, in order, or the first name that is unbound. */
  function Resolve(nodes: map<string, Node>, names: seq<string>): (r: Result<seq<Node>>)
    ensures r.Ok? ==> |r.value| == |names|
    ensures r.Ok? ==> forall i | 0 <= i < |names| :: names[i] in nodes && r.value[i] == nodes[names[i]]
  {
    if names == [] then Ok([])
    else if names[0] !in nodes then Err(NodeNotFound(names[0]))
    else
      match Resolve(nodes, names[1..])
      case Err(e) => Err(e)
      case Ok(rest) => Ok([nodes[names[0]]] + rest)
  }

  /** The checks of the from-projection's constructor: the rules must be a list, then the
      input names must be a list. */
  function NewFromProjection(inputNames: Arg<string>, rules: Arg<Rule>): (r: Result<FromProjection>)
    ensures r.Ok? <==> inputNames.Array? && rules.Array?
    ensures !rules.Array? ==> r == Err(RulesNotArray)
    ensures rules.Array? && !inputNames.Array? ==> r == Err(InputsNotArray)
    ensures r.Ok? ==> r.value.inputNames == inputNames.items && r.value.rules == rules.items
  {
    if !rules.Array? then Err(RulesNotArray)
    else if !inputNames.Array? then Err(InputsNotArray)
    else Ok(FromProjection(inputNames.items, rules.items))
  }

  /** A from-projection whose inputs and rules passed the constructor's checks. */
  datatype FromProjection = FromProjection(inputNames: seq<string>, rules: seq<Rule>)
  {
    /** The inputs every edge of this projection reads in `nodes`, or why applying it fails:
        an unbound input name, or no inputs at all while there is a rule to make an edge from. */
    function Inputs(nodes: map<string, Node>): Result<seq<Node>>
    {
      match Resolve(nodes, inputNames)
      case Err(e) => Err(e)
      case Ok(ins) => if ins == [] && rules != [] then Err(NoInputNodes) else Ok(ins)
    }

    /** One new edge per rule, in rule order, each over the named inputs and without
        outputs. Either every edge is made or, on an error, none is. */
    method ApplyTo(g: SemanticGraph) returns (r: Result<seq<Edge>>)
      requires g.Valid()
      modifies g`Edges, g.Nodes`edges
      ensures g.Valid()
      ensures r.Err? <==> Inputs(g.nodes).Err?
      ensures r.Err? ==> r.error == Inputs(g.nodes).error && g.Edges == old(g.Edges)
      ensures r.Err? ==> forall n | n in g.Nodes :: n.edges == old(n.edges)
      ensures r.Ok? ==> |r.value| == |rules| && Distinct(r.value)
      ensures r.Ok? ==> forall k | 0 <= k < |r.value| ::
        fresh(r.value[k]) && Makes(r.value[k], Inputs(g.nodes).value, rules[k], g.debug)
      ensures r.Ok? ==> g.Edges == old(g.Edges) + Elements(r.value)
      ensures r.Ok? ==> forall n {:trigger Grown(r.value, multiset(Inputs(g.nodes).value)[n])} | n in g.Nodes ::
        n.edges == old(n.edges) + Grown(r.value, multiset(Inputs(g.nodes).value)[n])
    {
      var resolved := g.ResolveNames(inputNames);
      if resolved.Err? {
        return Err(resolved.error);
      }
      var ins: seq<Node> := resolved.value;
      if rules == [] {
        return Ok([]);
      }
      if ins == [] {
        // the first edge's constructor rejects the empty input list before touching a node
        return Err(NoInputNodes);
      }
      var made := g.MakeEdges(ins, rules);
      return Ok(made);
    }
  }

  /** What applying `item` to a graph with `nodes` makes, or why it fails. */
  function Applies(nodes: map<string, Node>, item: Projection): Result<seq<Plan>>
  {
    match item
    case NotAProjection => Err(MissingApplyTo)
    case Base => Err(AbstractApplyTo)
    case From(p) =>
      match p.Inputs(nodes)
      case Err(e) => Err(e)
      case Ok(ins) => Ok(seq(|p.rules|, k requires 0 <= k < |p.rules| => Plan(ins, p.rules[k])))
  }

  /** What `define` does with `items`, one after the other, up to the first that fails. */
  function Planned(nodes: map<string, Node>, items: seq<Projection>): Definition
  {
    if items == [] then Definition([], Done)
    else
      var before := Planned(nodes, items[..|items| - 1]);
      if before.outcome.Failed? then before
      else
        match Applies(nodes, items[|items| - 1])
        case Err(e) => Definition(before.plans, Failed(e))
        case Ok(plans) => Definition(before.plans + plans, Done)
  }

  /** What `define` of the node `name` by `items` does on a graph with `nodes`. */
  function DefinePlan(nodes: map<string, Node>, name: string, items: seq<Projection>): Definition
  {
    if name !in nodes then Definition([], Failed(NodeNotFound(name)))
    else Planned(nodes, items)
  }

  /** The elements of `s`. */
  function Elements<T>(s: seq<T>): set<T>
  {
    set x | x in s
  }

  /** No element of `s` occurs twice. */
  predicate Distinct<T(==)>(s: seq<T>)
  {
    forall i, j | 0 <= i < j < |s| :: s[i] != s[j]
  }

  /** `e` is the edge `rule` makes over `ins`: without outputs yet, with the rule's guard
      and transform, or the defaults where the rule has none. */
  ghost predicate Makes(e: Edge, ins: seq<Node>, rule: Rule, debug: Option<bool>)
    reads e`inputNodes, e`outputNodes
  {
    && e.inputNodes == ins && e.outputNodes == []
    && e.guard == rule.guard.GetOr(AlwaysTrue)
    && e.transform == rule.transform.GetOr(InputVector)
    && e.debug == IsDebug(debug)
  }

  /** `e` is the edge `define` made from `plan` for the node `target`. */
  ghost predicate Built(e: Edge, plan: Plan, target: Node, debug: Option<bool>)
    reads e`inputNodes, e`outputNodes
  {
    && e.inputNodes == plan.inputs && e.outputNodes == [target]
    && e.guard == plan.rule.guard.GetOr(AlwaysTrue)
    && e.transform == plan.rule.transform.GetOr(InputVector)
    && e.debug == IsDebug(debug)
  }

  /** Each of `es` is the edge `define` made from the plan at the same position. */
  ghost predicate BuiltAll(es: seq<Edge>, plans: seq<Plan>, target: Node, debug: Option<bool>)
    reads es
  {
    |es| == |plans| && forall k | 0 <= k < |es| :: Built(es[k], plans[k], target, debug)
  }

  lemma BuiltAppend(a: seq<Edge>, p: seq<Plan>, b: seq<Edge>, q: seq<Plan>, target: Node, debug: Option<bool>)
    requires BuiltAll(a, p, target, debug) && BuiltAll(b, q, target, debug)
    ensures BuiltAll(a + b, p + q, target, debug)
  {
    forall k | 0 <= k < |a + b|
      ensures Built((a + b)[k], (p + q)[k], target, debug)
    {
      if k < |a| {
        assert (a + b)[k] == a[k] && (p + q)[k] == p[k];
      } else {
        assert (a + b)[k] == b[k - |a|] && (p + q)[k] == q[k - |a|];
      }
    }
  }

  /** What making the edges `made` appends to a node that is `c` times among their inputs:
      each edge `c` times, in the order the edges were made. */
  function Grown(made: seq<Edge>, c: nat): seq<Edge>
  {
    if made == [] then [] else Grown(made[..|made| - 1], c) + Repeat(made[|made| - 1], c)
  }

  /** What a definition that made `es` from `plans` appends to `n`: each edge once for each
      time `n` is among its plan's inputs, in the order the edges were made. */
  ghost function Attached(es: seq<Edge>, plans: seq<Plan>, n: Node): seq<Edge>
  {
    if es == [] || plans == [] then []
    else Attached(es[..|es| - 1], plans[..|plans| - 1], n) + Repeat(es[|es| - 1], multiset(plans[|plans| - 1].inputs)[n])
  }

  /** `n` holds its edges of `start`, then what a definition that made `es` from `plans`
      attached to it. */
  ghost predicate GrewFrom(n: Node, start: map<Node, seq<Edge>>, es: seq<Edge>, plans: seq<Plan>)
    reads n`edges
  {
    n in start && n.edges == start[n] + Attached(es, plans, n)
  }

  /** A node that held `before` plus what `added` attached, and then grew by what `es`
      attach, holds `before` plus what both attach. */
  lemma AttachedStep(before: seq<Edge>, head: seq<Edge>, now: seq<Edge>, added: seq<Edge>, plans: seq<Plan>,
                     es: seq<Edge>, ps: seq<Plan>, n: Node)
    requires |added| == |plans| && |es| == |ps|
    requires head == before + Attached(added, plans, n) && now == head + Attached(es, ps, n)
    ensures now == before + Attached(added + es, plans + ps, n)
  {
    AttachedAppend(added, plans, es, ps, n);
    Associative(before, Attached(added, plans, n), Attached(es, ps, n));
  }

  /** Concatenation is associative. */
  lemma Associative<T>(a: seq<T>, b: seq<T>, c: seq<T>)
    ensures (a + b) + c == a + (b + c)
  {
  }

  /** Plans that all read `ins` attach to a node what making their edges over `ins` grows it by. */
  lemma {:induction false} AttachedGrown(es: seq<Edge>, plans: seq<Plan>, ins: seq<Node>, n: Node)
    requires |es| == |plans| && forall k | 0 <= k < |plans| :: plans[k].inputs == ins
    ensures Attached(es, plans, n) == Grown(es, multiset(ins)[n])
    decreases |es|
  {
    if es != [] {
      AttachedGrown(es[..|es| - 1], plans[..|plans| - 1], ins, n);
    }
  }

  /** What two runs of a definition attach, one after the other. */
  lemma {:induction false} AttachedAppend(a: seq<Edge>, p: seq<Plan>, b: seq<Edge>, q: seq<Plan>, n: Node)
    requires |a| == |p| && |b| == |q|
    ensures Attached(a + b, p + q, n) == Attached(a, p, n) + Attached(b, q, n)
    decreases |b|
  {
    if b == [] {
      assert a + b == a && p + q == p;
    } else {
      assert (a + b)[..|a + b| - 1] == a + b[..|b| - 1];
      assert (p + q)[..|p + q| - 1] == p + q[..|q| - 1];
      AttachedAppend(a, p, b[..|b| - 1], q[..|q| - 1], n);
    }
  }

  /** The graph: nodes by name. `Nodes` and `Edges` are the model's record of the nodes
      bound in it and of every edge made on it. */
  class SemanticGraph {
    var nodes: map<string, Node>
    const debug: Option<bool>
    ghost var Nodes: set<Node>
    ghost var Edges: set<Edge>

    /** `Nodes` are the bound nodes, and they form a closed wiring with the recorded edges:
        every edge of a node is recorded, and every input and output of a recorded edge is
        a node of the graph. No recorded edge is without inputs. */
    ghost predicate Valid()
      reads this, Nodes`edges, Edges`inputNodes, Edges`outputNodes
    {
      && nodes.Values == Nodes
      && (forall n, e | n in Nodes && e in n.edges :: e in Edges)
      && (forall e, n | e in Edges && n in e.inputNodes :: n in Nodes)
      && (forall e, n | e in Edges && n in e.outputNodes :: n in Nodes)
      && (forall e | e in Edges :: e.inputNodes != [])
    }

    /** The wiring of a valid graph is closed: propagation never leaves the graph. */
    lemma ClosedWiring()
      requires Valid()
      ensures WiringOf(Nodes, Edges).Closed()
    {
      var w := WiringOf(Nodes, Edges);
      forall n, i | n in w.edgesOf && 0 <= i < |w.edgesOf[n]|
        ensures w.edgesOf[n][i] in w.inputsOf
      {
        assert n.edges[i] in n.edges;
      }
      forall e, i | e in w.inputsOf && 0 <= i < |w.inputsOf[e]|
        ensures w.inputsOf[e][i] in w.edgesOf
      {
        assert e.inputNodes[i] in e.inputNodes;
      }
      forall e, i | e in w.outputsOf && 0 <= i < |w.outputsOf[e]|
        ensures w.outputsOf[e][i] in w.edgesOf
      {
        assert e.outputNodes[i] in e.outputNodes;
      }
    }

    /** An empty graph. */
    constructor (debug: Option<bool>)
      ensures Valid() && nodes == map[] && this.debug == debug
      ensures Nodes == {} && Edges == {}
    {
      nodes := map[];
      this.debug := debug;
      Nodes := {};
      Edges := {};
    }

    /** Bind a new node under `name`; a name already bound is refused and nothing changes.
        A missing debug flag is the graph's. */
    method Binding(name: string, value: Value, constraint: Option<Constraint>, merge: Option<Merge>,
                   debug: Option<bool>) returns (out: Outcome)
      requires Valid()
      modifies this`nodes, this`Nodes
      ensures Valid() && Edges == old(Edges)
      ensures name in old(nodes) ==> out == Failed(DuplicateNode(name)) && nodes == old(nodes) && Nodes == old(Nodes)
      ensures name !in old(nodes) ==>
        && out == Done && name in nodes && fresh(nodes[name])
        && nodes == old(nodes)[name := nodes[name]] && Nodes == old(Nodes) + {nodes[name]}
        && nodes[name].name == name && nodes[name].value == value && nodes[name].edges == []
        && nodes[name].constraint == constraint.GetOr(AlwaysTrue)
        && nodes[name].merge == merge.GetOr(Replace)
        && nodes[name].debug == IsDebug(if debug.Some? then debug else this.debug)
    {
      if name in nodes {
        return Failed(DuplicateNode(name));
      }
      var node := new Node(name, value, Some([]), constraint, merge, if debug.Some? then debug else this.debug);
      ghost var before := nodes;
      nodes := nodes[name := node];
      Nodes := Nodes + {node};
      forall v | v in nodes.Values ensures v in before.Values + {node} {
        var k :| k in nodes && nodes[k] == v;
        if k != name {
          assert before[k] == v;
        }
      }
      forall v | v in before.Values ensures v in nodes.Values {
        var k :| k in before && before[k] == v;
        assert nodes[k] == v;
      }
      assert nodes[name] == node;
      out := Done;
    }

    /** The node bound under `name`. */
    function GetNode(name: string): (r: Result<Node>)
      reads this
      ensures r.Ok? <==> name in nodes
      ensures r.Ok? ==> r.value == nodes[name]
      ensures r.Err? ==> r.error == NodeNotFound(name)
    {
      if name in nodes then Ok(nodes[name]) else Err(NodeNotFound(name))
    }

    /** The nodes bound under `names`, in order; the first unbound name fails. */
    function ResolveNames(names: seq<string>): (r: Result<seq<Node>>)
      reads this
    {
      Resolve(nodes, names)
    }

    /** Update the node bound under `name` with `value` and propagate. */
    method Update(name: string, value: Value, fuel: nat) returns (out: Outcome, ghost trace: seq<Event>)
      requires Valid()
      modifies Nodes`value
      ensures Valid()
      ensures name !in nodes ==> out == Failed(NodeNotFound(name)) && trace == []
      ensures name !in nodes ==> ValuesOf(Nodes) == old(ValuesOf(Nodes))
      ensures name in nodes ==>
        Sweep(ValuesOf(Nodes), trace, out)
          == UpdateSpec(old(WiringOf(Nodes, Edges)), old(ValuesOf(Nodes)), nodes[name], value, fuel)
    {
      var node := GetNode(name);
      if node.Err? {
        return Failed(node.error), [];
      }
      ClosedWiring();
      out, trace := node.value.Update(value, fuel, Nodes, Edges, WiringOf(Nodes, Edges));
    }

    /** Propagate from the stored value of the node bound under `name`. */
    method Force(name: string, fuel: nat) returns (out: Outcome, ghost trace: seq<Event>)
      requires Valid()
      modifies Nodes`value
      ensures Valid()
      ensures name !in nodes ==> out == Failed(NodeNotFound(name)) && trace == []
      ensures name !in nodes ==> ValuesOf(Nodes) == old(ValuesOf(Nodes))
      ensures name in nodes ==>
        Sweep(ValuesOf(Nodes), trace, out)
          == PropagateSpec(old(WiringOf(Nodes, Edges)), old(ValuesOf(Nodes)), nodes[name], fuel)
    {
      var node := GetNode(name);
      if node.Err? {
        return Failed(node.error), [];
      }
      ClosedWiring();
      out, trace := node.value.Force(fuel, Nodes, Edges, WiringOf(Nodes, Edges));
    }

    /** A side-effect edge over the nodes named `inputNames`: `run` is its transform, `when`
        its guard, and it has no outputs. An unbound name or an empty list makes nothing. */
    method Effect(inputNames: seq<string>, run: Option<Transform>, when: Option<Guard>)
      returns (out: Outcome, ghost made: seq<Edge>)
      requires Valid()
      modifies this`Edges, Nodes`edges
      ensures Valid()
      ensures Resolve(nodes, inputNames).Err? ==> out == Failed(Resolve(nodes, inputNames).error)
      ensures Resolve(nodes, inputNames) == Ok([]) ==> out == Failed(NoInputNodes)
      ensures out.Failed? ==> made == [] && Edges == old(Edges) && forall n | n in Nodes :: n.edges == old(n.edges)
      ensures out.Done? <==> Resolve(nodes, inputNames).Ok? && inputNames != []
      ensures out.Done? ==> |made| == 1 && fresh(made[0]) && Edges == old(Edges) + {made[0]}
      ensures out.Done? ==> Makes(made[0], Resolve(nodes, inputNames).value, Rule(run, when), debug)
      ensures out.Done? ==> forall n | n in Nodes ::
        n.edges == old(n.edges) + Repeat(made[0], multiset(Resolve(nodes, inputNames).value)[n])
    {
      var resolved := ResolveNames(inputNames);
      if resolved.Err? {
        return Failed(resolved.error), [];
      }
      var ins: seq<Node> := resolved.value;
      if ins == [] {
        return Failed(NoInputNodes), [];
      }
      var e := MakeEdge(ins, Rule(run, when));
      return Done, [e];
    }

    /** Define the node bound under `name` by `projections`: apply each, in order, and make
        the node the one output of every edge it returns. The first failure ends the
        definition; what earlier projections made stays. */
    method Define(name: string, projections: Arg<Projection>) returns (out: Outcome, ghost added: seq<Edge>)
      requires Valid()
      modifies this`Edges, Nodes`edges
      ensures Valid()
      ensures out == DefinePlan(nodes, name, Listed(projections)).outcome
      ensures name !in nodes ==> added == []
      ensures name in nodes ==> BuiltAll(added, DefinePlan(nodes, name, Listed(projections)).plans, nodes[name], debug)
      ensures forall e | e in added :: fresh(e)
      ensures Edges == old(Edges) + Elements(added)
      ensures name !in nodes ==> forall n | n in Nodes :: n.edges == old(n.edges)
      ensures name in nodes ==> forall n {:trigger Attached(added, DefinePlan(nodes, name, Listed(projections)).plans, n)} | n in Nodes ::
        n.edges == old(n.edges) + Attached(added, DefinePlan(nodes, name, Listed(projections)).plans, n)
    {
      var target := GetNode(name);
      if target.Err? {
        return Failed(target.error), [];
      }
      out, added := DefineAll(target.value, Listed(projections));
    }

    /** Apply each of `list`, in order, making `target` the output of every edge each returns,
        up to the first that fails. */
    method DefineAll(target: Node, list: seq<Projection>) returns (out: Outcome, ghost added: seq<Edge>)
      requires Valid() && target in Nodes
      modifies this`Edges, Nodes`edges
      ensures Valid()
      ensures out == Planned(nodes, list).outcome
      ensures BuiltAll(added, Planned(nodes, list).plans, target, debug)
      ensures forall e | e in added :: fresh(e)
      ensures Edges == old(Edges) + Elements(added)
      ensures forall n {:trigger Attached(added, Planned(nodes, list).plans, n)} | n in Nodes ::
        n.edges == old(n.edges) + Attached(added, Planned(nodes, list).plans, n)
    {
      added := [];
      ghost var plans: seq<Plan> := [];
      ghost var start: map<Node, seq<Edge>> := map n | n in Nodes :: n.edges;
      for i := 0 to |list|
        invariant Valid() && target in Nodes
        invariant Planned(nodes, list[..i]) == Definition(plans, Done)
        invariant BuiltAll(added, plans, target, debug)
        invariant forall e | e in added :: fresh(e)
        invariant Edges == old(Edges) + Elements(added)
        invariant forall n | n in Nodes :: GrewFrom(n, start, added, plans)
      {
        var r := DefineStep(target, list[i], start, added, plans);
        PlannedNext(nodes, list, i);
        if r.Err? {
          PlannedStops(nodes, list, i + 1);
          return Failed(r.error), added;
        }
        assert Elements(added + r.value) == Elements(added) + Elements(r.value);
        added := added + r.value;
        plans := plans + Applies(nodes, list[i]).value;
      }
      assert list[..|list|] == list;
      out := Done;
    }

    /** One projection of a definition: `DefineOne`, with the record of what the projections
        before it made (`added`, from `plans`, on nodes whose edges were `start`) carried on. */
    method DefineStep(target: Node, item: Projection, ghost start: map<Node, seq<Edge>>,
                      ghost added: seq<Edge>, ghost plans: seq<Plan>) returns (r: Result<seq<Edge>>)
      requires Valid() && target in Nodes && BuiltAll(added, plans, target, debug)
      requires forall n | n in Nodes :: GrewFrom(n, start, added, plans)
      modifies this`Edges, Nodes`edges
      ensures Valid()
      ensures r.Err? <==> Applies(nodes, item).Err?
      ensures r.Err? ==> r.error == Applies(nodes, item).error
      ensures r.Err? ==> BuiltAll(added, plans, target, debug) && Edges == old(Edges)
      ensures r.Err? ==> forall n | n in Nodes :: GrewFrom(n, start, added, plans)
      ensures r.Ok? ==> BuiltAll(added + r.value, plans + Applies(nodes, item).value, target, debug)
      ensures r.Ok? ==> forall e | e in r.value :: fresh(e)
      ensures r.Ok? ==> Edges == old(Edges) + Elements(r.value)
      ensures r.Ok? ==> forall n | n in Nodes :: GrewFrom(n, start, added + r.value, plans + Applies(nodes, item).value)
    {
      r := DefineOne(target, item);
      if r.Ok? {
        BuiltAppend(added, plans, r.value, Applies(nodes, item).value, target, debug);
        forall n | n in Nodes
          ensures GrewFrom(n, start, added + r.value, plans + Applies(nodes, item).value)
        {
          assert old(GrewFrom(n, start, added, plans));
          AttachedStep(start[n], old(n.edges), n.edges, added, plans, r.value, Applies(nodes, item).value, n);
        }
      } else {
        forall n | n in Nodes
          ensures GrewFrom(n, start, added, plans)
        {
          assert old(GrewFrom(n, start, added, plans));
        }
      }
    }

    /** Apply one projection and connect every edge it made to `target`. */
    method DefineOne(target: Node, item: Projection) returns (r: Result<seq<Edge>>)
      requires Valid() && target in Nodes
      modifies this`Edges, Nodes`edges
      ensures Valid()
      ensures r.Err? <==> Applies(nodes, item).Err?
      ensures r.Err? ==> r.error == Applies(nodes, item).error && Edges == old(Edges)
      ensures r.Ok? ==> BuiltAll(r.value, Applies(nodes, item).value, target, debug)
      ensures r.Ok? ==> forall e | e in r.value :: fresh(e)
      ensures r.Ok? ==> Edges == old(Edges) + Elements(r.value)
      ensures r.Err? ==> forall n | n in Nodes :: n.edges == old(n.edges)
      ensures r.Ok? ==> forall n {:trigger Attached(r.value, Applies(nodes, item).value, n)} | n in Nodes ::
        n.edges == old(n.edges) + Attached(r.value, Applies(nodes, item).value, n)
    {
      match item
      case NotAProjection =>
        return Err(MissingApplyTo);
      case Base =>
        return Err(AbstractApplyTo);
      case From(p) =>
        r := DefineFrom(target, p);
        if r.Ok? {
          forall n | n in Nodes
            ensures n.edges == old(n.edges) + Attached(r.value, Applies(nodes, item).value, n)
          {
            AttachedGrown(r.value, Applies(nodes, item).value, p.Inputs(nodes).value, n);
          }
        }
    }

    /** Apply the from-projection `p` and connect every edge it made to `target`. */
    method DefineFrom(target: Node, p: FromProjection) returns (r: Result<seq<Edge>>)
      requires Valid() && target in Nodes
      modifies this`Edges, Nodes`edges
      ensures Valid()
      ensures r.Err? <==> p.Inputs(nodes).Err?
      ensures r.Err? ==> r.error == p.Inputs(nodes).error && Edges == old(Edges)
      ensures r.Err? ==> forall n | n in Nodes :: n.edges == old(n.edges)
      ensures r.Ok? ==> |r.value| == |p.rules| && forall k | 0 <= k < |r.value| ::
        fresh(r.value[k]) && Built(r.value[k], Plan(p.Inputs(nodes).value, p.rules[k]), target, debug)
      ensures r.Ok? ==> Edges == old(Edges) + Elements(r.value)
      ensures r.Ok? ==> forall n {:trigger Grown(r.value, multiset(p.Inputs(nodes).value)[n])} | n in Nodes ::
        n.edges == old(n.edges) + Grown(r.value, multiset(p.Inputs(nodes).value)[n])
    {
      r := p.ApplyTo(this);
      if r.Ok? {
        Connect(r.value, target);
      }
    }

    /** Make `target` the output of each of the new edges `es`. */
    method Connect(es: seq<Edge>, target: Node)
      requires Distinct(es)
      modifies (set e | e in es)`outputNodes
      ensures forall k | 0 <= k < |es| :: es[k].outputNodes == old(es[k].outputNodes) + [target]
    {
      for i := 0 to |es|
        invariant forall k | 0 <= k < i :: es[k].outputNodes == old(es[k].outputNodes) + [target]
        invariant forall k | i <= k < |es| :: es[k].outputNodes == old(es[k].outputNodes)
      {
        es[i].PropagateTo(target);
      }
    }

    /** One new edge per rule, in rule order, each over `ins` and recorded in the graph. */
    method MakeEdges(ins: seq<Node>, rules: seq<Rule>) returns (made: seq<Edge>)
      requires Valid() && ins != [] && forall n | n in ins :: n in Nodes
      modifies this`Edges, Nodes`edges
      ensures Valid()
      ensures |made| == |rules| && Distinct(made)
      ensures forall k | 0 <= k < |made| :: fresh(made[k]) && Makes(made[k], ins, rules[k], debug)
      ensures Edges == old(Edges) + Elements(made)
      ensures forall n {:trigger Grown(made, multiset(ins)[n])} | n in Nodes :: n.edges == old(n.edges) + Grown(made, multiset(ins)[n])
    {
      made := [];
      for i := 0 to |rules|
        invariant Valid()
        invariant |made| == i && Distinct(made)
        invariant forall k | 0 <= k < i :: fresh(made[k]) && Makes(made[k], ins, rules[k], debug)
        invariant Edges == old(Edges) + Elements(made)
        invariant forall n {:trigger Grown(made, multiset(ins)[n])} | n in Nodes :: n.edges == old(n.edges) + Grown(made, multiset(ins)[n])
      {
        var e := MakeEdge(ins, rules[i]);
        assert Elements(made + [e]) == Elements(made) + {e};
        assert (made + [e])[..i] == made;
        made := made + [e];
      }
    }

    /** A new edge over `ins` following `rule`, recorded in the graph. */
    method MakeEdge(ins: seq<Node>, rule: Rule) returns (e: Edge)
      requires Valid() && ins != [] && forall n | n in ins :: n in Nodes
      modifies this`Edges, Nodes`edges
      ensures Valid() && fresh(e) && Makes(e, ins, rule, debug)
      ensures Edges == old(Edges) + {e}
      ensures forall n {:trigger Repeat(e, multiset(ins)[n])} | n in Nodes :: n.edges == old(n.edges) + Repeat(e, multiset(ins)[n])
    {
      e := new Edge(ins, [], rule.guard, rule.transform, debug);
      Edges := Edges + {e};
    }

    /** The entries of `m` under `names`, in order, skipping names `m` does not hold. */
    static function LookupByName<T>(names: seq<string>, m: map<string, T>): (r: seq<T>)
      ensures |r| <= |names|
    {
      if names == [] then []
      else
        var name := names[|names| - 1];
        LookupByName(names[..|names| - 1], m) + if name in m then [m[name]] else []
    }

    /** `SemanticGraph.from`: a from-projection over `inputNames`; a single rule stands for
        the list holding it. */
    static function From(inputNames: Arg<string>, rules: Arg<Rule>): (r: Result<FromProjection>)
      ensures r.Err? <==> !inputNames.Array?
      ensures r.Err? ==> r.error == InputsNotArray
      ensures r.Ok? ==> r.value.inputNames == inputNames.items && r.value.rules == Listed(rules)
    {
      NewFromProjection(inputNames, Array(Listed(rules)))
    }
  }

  /** One more projection: `define` stops at a failure, or applies the next projection. */
  lemma PlannedNext(nodes: map<string, Node>, items: seq<Projection>, i: nat)
    requires i < |items|
    ensures var before := Planned(nodes, items[..i]);
      Planned(nodes, items[..i + 1])
        == if before.outcome.Failed? then before
           else match Applies(nodes, items[i])
                case Err(e) => Definition(before.plans, Failed(e))
                case Ok(plans) => Definition(before.plans + plans, Done)
  {
    assert items[..i + 1][..i] == items[..i];
  }

  /** Once `define` has failed on a prefix of the projections, the rest change nothing. */
  lemma {:induction false} PlannedStops(nodes: map<string, Node>, items: seq<Projection>, i: nat)
    requires i <= |items| && Planned(nodes, items[..i]).outcome.Failed?
    ensures Planned(nodes, items) == Planned(nodes, items[..i])
    decreases |items| - i
  {
    if i == |items| {
      assert items[..i] == items;
    } else {
      assert items[..i + 1][..i] == items[..i];
      PlannedStops(nodes, items, i + 1);
    }
  }
}
