/**
 * What the propagation specification promises: the guard blocks only on exactly
 * false, the constraint gates only on exactly true, an update stores before it
 * propagates, a failing merge changes nothing, edges run in attachment order and
 * the first failure ends the sweep, every output receives the same value,
 * edges without outputs leave every value as it was, a cycle that its guard
 * eventually blocks finishes, and a sweep not cut off for depth is the same
 * with any larger budget.
 */
module PropagationLemmas {
  import opened Values
  import opened Engine

  /** A guard yielding exactly false blocks the edge: the transform does not run,
      no value changes, and the sweep ends normally. */
  lemma GuardFalseBlocks(w: Wiring, vals: map<Node, Value>, e: Edge, fuel: nat)
    requires e.guard(InputValues(vals, w.InputsOf(e))) == Ok(Bool(false))
    ensures var s := EdgeSpec(w, vals, e, fuel);
      s.vals == vals && s.outcome == Done && s.trace == [Blocked(e, InputValues(vals, w.InputsOf(e)))]
  {
  }

  /** Any other guard result lets the edge through: the transform runs once on the input
      values, and its single result goes to the outputs. */
  lemma GuardOtherwiseProceeds(w: Wiring, vals: map<Node, Value>, e: Edge, fuel: nat, g: Value)
    requires e.guard(InputValues(vals, w.InputsOf(e))) == Ok(g) && g != Bool(false)
    ensures var ins := InputValues(vals, w.InputsOf(e));
      var s := EdgeSpec(w, vals, e, fuel);
      var t := e.transform(ins);
      && (t.Err? ==> s == Sweep(vals, [], Failed(t.error)))
      && (t.Ok? ==> s == After([Ran(e, ins, t.value)], OutputsSpec(w, vals, w.OutputsOf(e), t.value, fuel)))
  {
  }

  /** The guard and the transform see the current values of the inputs, in input order. */
  lemma EdgeSeesInputs(w: Wiring, vals: map<Node, Value>, e: Edge, fuel: nat)
    ensures var s := EdgeSpec(w, vals, e, fuel);
      s.trace != [] ==>
        && (s.trace[0].Blocked? || s.trace[0].Ran?) && s.trace[0].edge == e
        && |s.trace[0].inputs| == |w.InputsOf(e)|
        && forall i | 0 <= i < |w.InputsOf(e)| :: s.trace[0].inputs[i] == Get(vals, w.InputsOf(e)[i])
  {
  }

  /** With no outputs the transform still runs, and no value changes. */
  lemma NoOutputsStillRuns(w: Wiring, vals: map<Node, Value>, e: Edge, fuel: nat, out: Value)
    requires w.OutputsOf(e) == []
    requires var ins := InputValues(vals, w.InputsOf(e));
      e.guard(ins).Ok? && !GuardBlocks(e.guard(ins).value) && e.transform(ins) == Ok(out)
    ensures EdgeSpec(w, vals, e, fuel)
      == Sweep(vals, [Ran(e, InputValues(vals, w.InputsOf(e)), out)], Done)
  {
  }

  /** An update stores the merged value first, whether or not the constraint then lets
      the node propagate. */
  lemma UpdateStoresFirst(w: Wiring, vals: map<Node, Value>, n: Node, v: Value, fuel: nat)
    requires fuel > 0 && n.merge(v, Get(vals, n)).Ok?
    ensures var m := n.merge(v, Get(vals, n)).value;
      var s := UpdateSpec(w, vals, n, v, fuel);
      && s.trace != [] && s.trace[0] == Stored(n, m)
      && (n.constraint(m).Ok? && !ConstraintPasses(n.constraint(m).value) ==>
            s == Sweep(vals[n := m], [Stored(n, m)], Done))
  {
  }

  /** A failing merge leaves every value as it was and propagates nothing. */
  lemma MergeFailureKeeps(w: Wiring, vals: map<Node, Value>, n: Node, v: Value, fuel: nat)
    requires fuel > 0 && n.merge(v, Get(vals, n)).Err?
    ensures UpdateSpec(w, vals, n, v, fuel) == Sweep(vals, [], Failed(n.merge(v, Get(vals, n)).error))
  {
  }

  /** A node propagates only when its constraint yields exactly true: any trace at all
      means the constraint passed, otherwise no value changes, and a constraint that
      yields anything but true ends the sweep quietly rather than with an error. */
  lemma ConstraintGates(w: Wiring, vals: map<Node, Value>, n: Node, fuel: nat)
    ensures var s := PropagateSpec(w, vals, n, fuel);
      && (s.trace != [] ==> n.constraint(Get(vals, n)) == Ok(Bool(true)))
      && (n.constraint(Get(vals, n)) != Ok(Bool(true)) ==> s.vals == vals)
      && (n.constraint(Get(vals, n)).Ok? && !ConstraintPasses(n.constraint(Get(vals, n)).value) ==>
            s == Sweep(vals, [], Done))
  {
  }

  /** A sweep of an edge that does nothing observable changes no value. */
  lemma SilentEdgeKeeps(w: Wiring, vals: map<Node, Value>, e: Edge, fuel: nat)
    ensures var s := EdgeSpec(w, vals, e, fuel);
      && (s.trace == [] ==> s.vals == vals && s.outcome.Failed?)
      && (s.trace != [] ==> s.trace[0].Blocked? || s.trace[0].Ran?)
  {
  }

  /** Forcing a node merges nothing into it: whatever it does starts at the node's first
      edge, and if it does nothing no value changes. */
  lemma {:induction false} ForceStartsAtEdges(w: Wiring, vals: map<Node, Value>, n: Node, fuel: nat)
    ensures var s := PropagateSpec(w, vals, n, fuel);
      && (s.trace == [] ==> s.vals == vals)
      && (s.trace != [] ==>
            && w.EdgesOf(n) != []
            && (s.trace[0].Blocked? || s.trace[0].Ran?) && s.trace[0].edge == w.EdgesOf(n)[0])
  {
    match n.constraint(Get(vals, n))
    case Err(_) =>
    case Ok(c) =>
      var es := w.EdgesOf(n);
      if ConstraintPasses(c) && es != [] {
        SilentEdgeKeeps(w, vals, es[0], fuel);
        EdgeSeesInputs(w, vals, es[0], fuel);
      }
  }

  /** Visiting `a + b` is visiting `a` and then, unless that failed, `b` from where `a`
      left the values: edges run in attachment order and a failure skips the rest. */
  lemma {:induction false} EdgesAppend(w: Wiring, vals: map<Node, Value>, a: seq<Edge>, b: seq<Edge>, fuel: nat)
    ensures var s := EdgesSpec(w, vals, a, fuel);
      EdgesSpec(w, vals, a + b, fuel)
        == if s.outcome.Failed? then s else After(s.trace, EdgesSpec(w, s.vals, b, fuel))
    decreases |a|
  {
    if a == [] {
      assert a + b == b;
    } else {
      assert (a + b)[0] == a[0] && (a + b)[1..] == a[1..] + b;
      var first := EdgeSpec(w, vals, a[0], fuel);
      if !first.outcome.Failed? {
        EdgesAppend(w, first.vals, a[1..], b, fuel);
        var rest := EdgesSpec(w, first.vals, a[1..], fuel);
        if !rest.outcome.Failed? {
          AfterAfter(first.trace, rest.trace, EdgesSpec(w, rest.vals, b, fuel));
        }
      }
    }
  }

  /** An edge that fails ends the visit: the edges after it are not visited. */
  lemma FailedEdgeStops(w: Wiring, vals: map<Node, Value>, es: seq<Edge>, i: nat, fuel: nat)
    requires i < |es|
    requires var s := EdgesSpec(w, vals, es[..i], fuel);
      !s.outcome.Failed? && EdgeSpec(w, s.vals, es[i], fuel).outcome.Failed?
    ensures var s := EdgesSpec(w, vals, es[..i], fuel);
      EdgesSpec(w, vals, es, fuel) == After(s.trace, EdgeSpec(w, s.vals, es[i], fuel))
  {
    assert es == es[..i] + ([es[i]] + es[i + 1..]);
    EdgesAppend(w, vals, es[..i], [es[i]] + es[i + 1..], fuel);
  }

  /** An output that keeps what it receives, has no edges of its own, and whose
      constraint accepts `v` without failing. */
  ghost predicate Leaf(w: Wiring, o: Node, v: Value)
  {
    o.merge == Replace && w.EdgesOf(o) == [] && o.constraint(v).Ok?
  }

  /** Every output of an edge receives the same value, in order: when the outputs keep what
      they receive and have no edges of their own, each ends up holding `v`, one store per
      output in output order, and no other node changes. */
  lemma {:induction false} FanOut(w: Wiring, vals: map<Node, Value>, outs: seq<Node>, v: Value, fuel: nat)
    requires fuel > 0 && forall o | o in outs :: Leaf(w, o, v)
    ensures var s := OutputsSpec(w, vals, outs, v, fuel);
      && s.outcome == Done
      && (forall o | o in outs :: o in s.vals && s.vals[o] == v)
      && (forall n | n in vals && n !in outs :: n in s.vals && s.vals[n] == vals[n])
      && |s.trace| == |outs| && (forall i | 0 <= i < |outs| :: s.trace[i] == Stored(outs[i], v))
    decreases |outs|
  {
    if outs != [] {
      var o := outs[0];
      assert Leaf(w, o, v);
      var first := UpdateSpec(w, vals, o, v, fuel);
      assert o.merge(v, Get(vals, o)) == Ok(v);
      assert Get(vals[o := v], o) == v;
      var after := PropagateSpec(w, vals[o := v], o, fuel - 1);
      assert after == Sweep(vals[o := v], [], Done) by {
        assert EdgesSpec(w, vals[o := v], [], fuel - 1) == Sweep(vals[o := v], [], Done);
      }
      assert first == After([Stored(o, v)], after);
      forall p | p in outs[1..] ensures Leaf(w, p, v) {
        assert p in outs;
      }
      FanOut(w, vals[o := v], outs[1..], v, fuel);
      var rest := OutputsSpec(w, vals[o := v], outs[1..], v, fuel);
      var s := OutputsSpec(w, vals, outs, v, fuel);
      assert s == After([Stored(o, v)], rest);
      forall p | p in outs ensures p in s.vals && s.vals[p] == v {
        if p != o {
          assert p in outs[1..];
        }
      }
      forall i | 0 <= i < |outs| ensures s.trace[i] == Stored(outs[i], v) {
        if i > 0 {
          assert s.trace[i] == rest.trace[i - 1];
        }
      }
    }
  }

  /** An edge without outputs changes no value, whatever its guard and transform do. */
  lemma EffectKeepsValues(w: Wiring, vals: map<Node, Value>, e: Edge, fuel: nat)
    requires w.OutputsOf(e) == []
    ensures EdgeSpec(w, vals, e, fuel).vals == vals
  {
    var ins := InputValues(vals, w.InputsOf(e));
    if e.guard(ins).Ok? && !GuardBlocks(e.guard(ins).value) && e.transform(ins).Ok? {
      assert OutputsSpec(w, vals, [], e.transform(ins).value, fuel) == Sweep(vals, [], Done);
    }
  }

  /** Edges without outputs change no value, however many run. */
  lemma {:induction false} EffectsKeepValues(w: Wiring, vals: map<Node, Value>, es: seq<Edge>, fuel: nat)
    requires forall i | 0 <= i < |es| :: w.OutputsOf(es[i]) == []
    ensures EdgesSpec(w, vals, es, fuel).vals == vals
    decreases |es|
  {
    if es != [] {
      EffectKeepsValues(w, vals, es[0], fuel);
      EffectsKeepValues(w, vals, es[1..], fuel);
    }
  }

  /** Forcing a node whose edges are all side effects changes no value, so forcing it a
      second time does exactly what the first did. */
  lemma ForceEffectsTwice(w: Wiring, vals: map<Node, Value>, n: Node, fuel: nat)
    requires forall i | 0 <= i < |w.EdgesOf(n)| :: w.OutputsOf(w.EdgesOf(n)[i]) == []
    ensures var s := PropagateSpec(w, vals, n, fuel);
      s.vals == vals && PropagateSpec(w, s.vals, n, fuel) == s
  {
    EffectsKeepValues(w, vals, w.EdgesOf(n), fuel);
  }

  /** Fuel only cuts a sweep off: an update that was not cut off with budget `f` does
      exactly the same with any larger budget `g`. */
  lemma {:induction false} UpdateFuel(w: Wiring, vals: map<Node, Value>, n: Node, v: Value, f: nat, g: nat)
    requires f <= g && UpdateSpec(w, vals, n, v, f).outcome != Failed(OutOfFuel)
    ensures UpdateSpec(w, vals, n, v, g) == UpdateSpec(w, vals, n, v, f)
    decreases f, 0, 0
  {
    match n.merge(v, Get(vals, n))
    case Err(_) =>
    case Ok(m) =>
      PropagateFuel(w, vals[n := m], n, f - 1, g - 1);
  }

  /** The same for a forced propagation. */
  lemma {:induction false} PropagateFuel(w: Wiring, vals: map<Node, Value>, n: Node, f: nat, g: nat)
    requires f <= g && PropagateSpec(w, vals, n, f).outcome != Failed(OutOfFuel)
    ensures PropagateSpec(w, vals, n, g) == PropagateSpec(w, vals, n, f)
    decreases f, 4, 0
  {
    match n.constraint(Get(vals, n))
    case Err(_) =>
    case Ok(c) =>
      if ConstraintPasses(c) {
        EdgesFuel(w, vals, w.EdgesOf(n), f, g);
      }
  }

  /** The same for the loop over a node's edges. */
  lemma {:induction false} EdgesFuel(w: Wiring, vals: map<Node, Value>, es: seq<Edge>, f: nat, g: nat)
    requires f <= g && EdgesSpec(w, vals, es, f).outcome != Failed(OutOfFuel)
    ensures EdgesSpec(w, vals, es, g) == EdgesSpec(w, vals, es, f)
    decreases f, 3, |es|
  {
    if es != [] {
      var first := EdgeSpec(w, vals, es[0], f);
      EdgeFuel(w, vals, es[0], f, g);
      if !first.outcome.Failed? {
        EdgesFuel(w, first.vals, es[1..], f, g);
      }
    }
  }

  /** The same for one edge. */
  lemma {:induction false} EdgeFuel(w: Wiring, vals: map<Node, Value>, e: Edge, f: nat, g: nat)
    requires f <= g && EdgeSpec(w, vals, e, f).outcome != Failed(OutOfFuel)
    ensures EdgeSpec(w, vals, e, g) == EdgeSpec(w, vals, e, f)
    decreases f, 2, 0
  {
    var ins := InputValues(vals, w.InputsOf(e));
    if e.guard(ins).Ok? && !GuardBlocks(e.guard(ins).value) && e.transform(ins).Ok? {
      OutputsFuel(w, vals, w.OutputsOf(e), e.transform(ins).value, f, g);
    }
  }

  /** The same for the loop over an edge's outputs. */
  lemma {:induction false} OutputsFuel(w: Wiring, vals: map<Node, Value>, outs: seq<Node>, v: Value, f: nat, g: nat)
    requires f <= g && OutputsSpec(w, vals, outs, v, f).outcome != Failed(OutOfFuel)
    ensures OutputsSpec(w, vals, outs, v, g) == OutputsSpec(w, vals, outs, v, f)
    decreases f, 1, |outs|
  {
    if outs != [] {
      var first := UpdateSpec(w, vals, outs[0], v, f);
      UpdateFuel(w, vals, outs[0], v, f, g);
      if !first.outcome.Failed? {
        OutputsFuel(w, first.vals, outs[1..], v, f, g);
      }
    }
  }

  /** A guard that lets a counter through while it is below two. */
  function BelowTwo(vs: seq<Value>): Result<Value>
  {
    Ok(Bool(|vs| == 1 && vs[0].Num? && vs[0].n < 2))
  }

  /** A transform that adds one to a single number. */
  function Increment(vs: seq<Value>): Result<Value>
  {
    if |vs| == 1 && vs[0].Num? then Ok(Num(vs[0].n + 1)) else Ok(Undefined)
  }

  /** `a` is a node bound with the defaults whose only edge `e` reads `a`, writes `a`,
      passes only below two and adds one: a cycle its own guard eventually blocks. */
  ghost predicate Counter(w: Wiring, a: Node, e: Edge)
  {
    && a.merge == Replace && a.constraint == AlwaysTrue
    && w.EdgesOf(a) == [e] && w.InputsOf(e) == [a] && w.OutputsOf(e) == [a]
    && e.guard == BelowTwo && e.transform == Increment
  }

  /** One turn round the counter's cycle below two: store `k`, then run the edge, which
      updates `a` with `k + 1` one level deeper. */
  lemma CounterTurn(w: Wiring, vals: map<Node, Value>, a: Node, e: Edge, k: int, fuel: nat)
    requires Counter(w, a, e) && k < 2 && fuel > 0
    ensures UpdateSpec(w, vals, a, Num(k), fuel)
         == After([Stored(a, Num(k)), Ran(e, [Num(k)], Num(k + 1))],
                  UpdateSpec(w, vals[a := Num(k)], a, Num(k + 1), fuel - 1))
  {
    var after := vals[a := Num(k)];
    assert InputValues(after, [a]) == [Num(k)];
    var next := UpdateSpec(w, after, a, Num(k + 1), fuel - 1);
    assert OutputsSpec(w, after, [a], Num(k + 1), fuel - 1) == next by {
      assert [a][1..] == [];
    }
    var edge := EdgeSpec(w, after, e, fuel - 1);
    assert edge == After([Ran(e, [Num(k)], Num(k + 1))], next);
    assert EdgesSpec(w, after, [e], fuel - 1) == edge by {
      assert [e][1..] == [];
    }
  }

  /** A cycle that a guard eventually blocks finishes: updating the counter with 0 stores
      0, 1 and 2, each below-two value running the edge once, and the guard then blocks
      the edge on 2 and the sweep ends normally. */
  lemma {:induction false} BlockedCycleFinishes(w: Wiring, vals: map<Node, Value>, a: Node, e: Edge, fuel: nat)
    requires Counter(w, a, e) && fuel >= 3
    ensures var s := UpdateSpec(w, vals, a, Num(0), fuel);
      && s.outcome == Done
      && s.vals == vals[a := Num(2)]
      && s.trace == [Stored(a, Num(0)), Ran(e, [Num(0)], Num(1)),
                     Stored(a, Num(1)), Ran(e, [Num(1)], Num(2)),
                     Stored(a, Num(2)), Blocked(e, [Num(2)])]
  {
    CounterTurn(w, vals, a, e, 0, fuel);
    CounterTurn(w, vals[a := Num(0)], a, e, 1, fuel - 1);
    var last := vals[a := Num(0)][a := Num(1)][a := Num(2)];
    assert last == vals[a := Num(2)];
    assert InputValues(last, [a]) == [Num(2)];
    assert EdgesSpec(w, last, [e], fuel - 3) == Sweep(last, [Blocked(e, [Num(2)])], Done) by {
      assert [e][1..] == [];
    }
  }
}
