/**
 * The sign-up form of the repository's basic example, end to end: two bound
 * nodes, `email` and `password`, and one side-effect edge over both whose guard
 * lets it submit only when the email is non-empty and the password has at least
 * eight characters. Updating either field stores the new value and then either
 * submits once or is blocked, and no value besides the field's changes.
 */
module FormScenario {
  import opened Values
  import opened Engine

  /** The example's `when`: a non-empty email and a password of eight characters or more. */
  function Submittable(vs: seq<Value>): Result<Value>
  {
    Ok(Bool(|vs| == 2 && vs[0].Str? && vs[1].Str? && |vs[0].s| > 0 && |vs[1].s| >= 8))
  }

  /** The example's `run`: it reports the form and yields nothing. */
  function Submit(vs: seq<Value>): Result<Value>
  {
    Ok(Undefined)
  }

  /** `field` is a node bound with the defaults, whose only edge is the submit effect `e`
      over `email` and `password`. */
  ghost predicate FormField(w: Wiring, field: Node, email: Node, password: Node, e: Edge)
  {
    && field.merge == Replace && field.constraint == AlwaysTrue
    && w.EdgesOf(field) == [e]
    && w.InputsOf(e) == [email, password] && w.OutputsOf(e) == []
    && e.guard == Submittable && e.transform == Submit
  }

  /** Updating a field of the form stores the new value, then runs the submit effect once
      over both fields' current values, or is blocked by its guard; nothing else changes. */
  lemma {:induction false} FieldUpdate(w: Wiring, vals: map<Node, Value>, field: Node,
                                       email: Node, password: Node, e: Edge, v: Value, fuel: nat)
    requires fuel > 0 && field in {email, password} && email != password
    requires FormField(w, field, email, password, e)
    ensures var after := vals[field := v];
      var ins := [Get(after, email), Get(after, password)];
      var s := UpdateSpec(w, vals, field, v, fuel);
      && s.vals == after && s.outcome == Done
      && s.trace == [Stored(field, v), if Submittable(ins) == Ok(Bool(true)) then Ran(e, ins, Undefined) else Blocked(e, ins)]
  {
    var after := vals[field := v];
    var ins := [Get(after, email), Get(after, password)];
    assert InputValues(after, [email, password]) == ins;
    assert Get(after, field) == v;
    var edge := EdgeSpec(w, after, e, fuel - 1);
    assert OutputsSpec(w, after, [], Undefined, fuel - 1) == Sweep(after, [], Done);
    assert edge == Sweep(after, [if Submittable(ins) == Ok(Bool(true)) then Ran(e, ins, Undefined) else Blocked(e, ins)], Done);
    assert [e][1..] == [];
    assert EdgesSpec(w, edge.vals, [], fuel - 1) == Sweep(after, [], Done);
    assert EdgesSpec(w, after, [e], fuel - 1) == edge;
  }

  /** The example's run, from empty fields: filling in the email alone is blocked, and the
      password that completes the form submits it exactly once. */
  lemma FormRun(w: Wiring, email: Node, password: Node, e: Edge, fuel: nat)
    requires fuel > 0 && email != password
    requires FormField(w, email, email, password, e) && FormField(w, password, email, password, e)
    ensures var start := map[email := Str(""), password := Str("")];
      var first := UpdateSpec(w, start, email, Str("a@b.com"), fuel);
      var second := UpdateSpec(w, first.vals, password, Str("12345678"), fuel);
      && first.trace == [Stored(email, Str("a@b.com")), Blocked(e, [Str("a@b.com"), Str("")])]
      && second.trace == [Stored(password, Str("12345678")), Ran(e, [Str("a@b.com"), Str("12345678")], Undefined)]
      && second.vals == map[email := Str("a@b.com"), password := Str("12345678")]
  {
    var start := map[email := Str(""), password := Str("")];
    FieldUpdate(w, start, email, email, password, e, Str("a@b.com"), fuel);
    var mid := start[email := Str("a@b.com")];
    assert Get(mid, email) == Str("a@b.com") && Get(mid, password) == Str("");
    FieldUpdate(w, mid, password, email, password, e, Str("12345678"), fuel);
    var last := mid[password := Str("12345678")];
    assert Get(last, email) == Str("a@b.com") && Get(last, password) == Str("12345678");
    assert last == map[email := Str("a@b.com"), password := Str("12345678")];
  }
}
