/**
 * What the graph's lookups and its definition plan promise: name lookups keep
 * name order, `lookupByName` skips exactly the unbound names while `getNode`-based
 * resolution fails on the first of them, and a definition keeps what its earlier
 * projections made when a later one fails.
 */
module GraphLemmas {
  import opened Values
  import opened Engine
  import opened Graph

  /** Looking up `a + b` is looking up `a`, then `b`: lookups keep name order. */
  lemma {:induction false} LookupAppend<T>(a: seq<string>, b: seq<string>, m: map<string, T>)
    ensures SemanticGraph.LookupByName(a + b, m)
         == SemanticGraph.LookupByName(a, m) + SemanticGraph.LookupByName(b, m)
    decreases |b|
  {
    if b == [] {
      assert a + b == a;
    } else {
      assert (a + b)[..|a + b| - 1] == a + b[..|b| - 1];
      LookupAppend(a, b[..|b| - 1], m);
    }
  }

  /** The entry of one name: the bound value, or nothing. */
  lemma LookupOne<T>(name: string, m: map<string, T>)
    ensures SemanticGraph.LookupByName([name], m) == if name in m then [m[name]] else []
  {
    assert [name][..0] == [];
  }

  /** Nothing is skipped exactly when every name is bound. */
  lemma {:induction false} LookupAllBound<T>(names: seq<string>, m: map<string, T>)
    ensures |SemanticGraph.LookupByName(names, m)| == |names| <==> forall i | 0 <= i < |names| :: names[i] in m
    decreases |names|
  {
    if names != [] {
      var front := names[..|names| - 1];
      LookupAllBound(front, m);
      assert |SemanticGraph.LookupByName(front, m)| <= |front|;
      if forall i | 0 <= i < |names| :: names[i] in m {
        assert forall i | 0 <= i < |front| :: front[i] in m by {
          forall i | 0 <= i < |front| ensures front[i] in m {
            assert front[i] == names[i];
          }
        }
      } else if names[|names| - 1] in m {
        var i :| 0 <= i < |names| && names[i] !in m;
        assert front[i] == names[i];
      }
    }
  }

  /** Resolution succeeds exactly when every name is bound. */
  lemma {:induction false} ResolveOk(nodes: map<string, Node>, names: seq<string>)
    ensures Resolve(nodes, names).Ok? <==> forall i | 0 <= i < |names| :: names[i] in nodes
    decreases |names|
  {
    if names != [] {
      ResolveOk(nodes, names[1..]);
      if forall i | 0 <= i < |names| :: names[i] in nodes {
        forall i | 0 <= i < |names[1..]| ensures names[1..][i] in nodes {
          assert names[1..][i] == names[i + 1];
        }
      } else if names[0] in nodes {
        var i :| 0 <= i < |names| && names[i] !in nodes;
        assert names[1..][i - 1] == names[i];
      }
    }
  }

  /** Resolution fails on the first unbound name, before looking at the rest. */
  lemma {:induction false} ResolveFirstMissing(nodes: map<string, Node>, names: seq<string>, i: nat)
    requires i < |names| && names[i] !in nodes
    requires forall j | 0 <= j < i :: names[j] in nodes
    ensures Resolve(nodes, names) == Err(NodeNotFound(names[i]))
    decreases i
  {
    if i > 0 {
      forall j | 0 <= j < i - 1 ensures names[1..][j] in nodes {
        assert names[1..][j] == names[j + 1];
      }
      ResolveFirstMissing(nodes, names[1..], i - 1);
    }
  }

  /** Where resolution succeeds, it yields what `lookupByName` yields. */
  lemma {:induction false} ResolveIsLookup(nodes: map<string, Node>, names: seq<string>)
    requires Resolve(nodes, names).Ok?
    ensures Resolve(nodes, names).value == SemanticGraph.LookupByName(names, nodes)
    decreases |names|
  {
    if names != [] {
      ResolveIsLookup(nodes, names[1..]);
      assert names == [names[0]] + names[1..];
      LookupAppend([names[0]], names[1..], nodes);
      LookupOne(names[0], nodes);
    }
  }

  /** A definition's edges only ever grow: what the first `i` projections planned is a
      prefix of what all of them plan. */
  lemma {:induction false} PlannedPrefix(nodes: map<string, Node>, items: seq<Projection>, i: nat)
    requires i <= |items|
    ensures Planned(nodes, items[..i]).plans <= Planned(nodes, items).plans
    decreases |items| - i
  {
    if i == |items| {
      assert items[..i] == items;
    } else {
      PlannedNext(nodes, items, i);
      PlannedPrefix(nodes, items, i + 1);
    }
  }

  /** The first projection that cannot be applied ends the definition with its error. */
  lemma PlannedFailsAt(nodes: map<string, Node>, items: seq<Projection>, i: nat)
    requires i < |items| && Applies(nodes, items[i]).Err?
    requires Planned(nodes, items[..i]).outcome == Done
    ensures Planned(nodes, items).outcome == Failed(Applies(nodes, items[i]).error)
    ensures Planned(nodes, items).plans == Planned(nodes, items[..i]).plans
  {
    PlannedNext(nodes, items, i);
    PlannedStops(nodes, items, i + 1);
  }

  /** A definition made only of from-projections whose inputs are all bound and
      non-empty completes, with one plan per rule, projection by projection. */
  lemma {:induction false} PlannedAllApply(nodes: map<string, Node>, items: seq<Projection>)
    requires forall k | 0 <= k < |items| :: Applies(nodes, items[k]).Ok?
    ensures Planned(nodes, items).outcome == Done
    ensures |Planned(nodes, items).plans| == Rules(nodes, items)
    decreases |items|
  {
    if items != [] {
      var front := items[..|items| - 1];
      forall k | 0 <= k < |front| ensures Applies(nodes, front[k]).Ok? {
        assert front[k] == items[k];
      }
      PlannedAllApply(nodes, front);
    }
  }

  /** The number of edges `items` make between them, when each can be applied. */
  function Rules(nodes: map<string, Node>, items: seq<Projection>): nat
  {
    if items == [] then 0
    else
      var last := Applies(nodes, items[|items| - 1]);
      Rules(nodes, items[..|items| - 1]) + if last.Ok? then |last.value| else 0
  }

  /** A from-projection makes one edge per rule, each over the same resolved inputs. */
  lemma AppliesFrom(nodes: map<string, Node>, p: FromProjection)
    requires p.Inputs(nodes).Ok?
    ensures var r := Applies(nodes, From(p));
      && r.Ok? && |r.value| == |p.rules|
      && forall k | 0 <= k < |p.rules| :: r.value[k] == Plan(p.Inputs(nodes).value, p.rules[k])
  {
  }

  /** Applying a from-projection fails exactly when one of its input names is unbound, or
      when it has rules but no inputs. */
  lemma InputsFail(nodes: map<string, Node>, p: FromProjection)
    ensures p.Inputs(nodes).Err? <==>
      (exists i | 0 <= i < |p.inputNames| :: p.inputNames[i] !in nodes)
      || (p.inputNames == [] && p.rules != [])
  {
    ResolveOk(nodes, p.inputNames);
  }
}
