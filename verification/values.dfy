/**
 * The values a semantic graph carries, the errors it raises, and the shapes of
 * the user-supplied functions (guards, transforms, constraints, merges) that
 * the engine calls but does not define.
 */
module Values {

  datatype Option<+T> = None | Some(value: T)
  {
    /** The value, or `default` when there is none (the `??` operator). */
    function GetOr(default: T): T
    {
      if Some? then value else default
    }
  }

  /** An application value stored in a node or passed along an edge.
      `List` is what the engine itself builds: the vector of an edge's input values. */
  datatype Value =
    | Undefined
    | Null
    | Bool(b: bool)
    | Num(n: int)
    | Str(s: string)
    | List(items: seq<Value>)

  /** Everything the engine can fail with. */
  datatype Error =
    | DuplicateNode(name: string)   // binding a name twice
    | NodeNotFound(name: string)    // looking up an unbound name
    | NoInputNodes                  // an edge over no input nodes
    | RulesNotArray                 // a from-projection whose rules are not a list
    | InputsNotArray                // a from-projection whose input names are not a list
    | MissingApplyTo                // `define` given an item that is not a projection
    | AbstractApplyTo               // the abstract projection's applyTo was called
    | Thrown(reason: Value)         // a user guard, transform, constraint or merge failed
    | OutOfFuel                     // the model's cut-off for a sweep nested deeper than its budget

  datatype Result<+T> = Ok(value: T) | Err(error: Error)

  /** The completion of a command that returns no value: it finished or it failed. */
  datatype Outcome = Done | Failed(error: Error)

  /** A JavaScript argument that the code tests with `Array.isArray`. */
  datatype Arg<+T> = Array(items: seq<T>) | Single(item: T)

  /** An edge's guard: it sees the input values in input order. */
  type Guard = seq<Value> -> Result<Value>
  /** An edge's transform: it sees the input values in input order. */
  type Transform = seq<Value> -> Result<Value>
  /** A node's constraint: it sees the node's stored value. */
  type Constraint = Value -> Result<Value>
  /** A node's merge: it sees the incoming value and the node's stored value. */
  type Merge = (Value, Value) -> Result<Value>

  /** The guard and constraint used when none is given: always `true`. */
  function AlwaysTrue<X>(x: X): Result<Value>
  {
    Ok(Bool(true))
  }

  /** The transform used when none is given: the input vector itself. */
  function InputVector(vs: seq<Value>): Result<Value>
  {
    Ok(List(vs))
  }

  /** The merge used when none is given: the incoming value replaces the stored one. */
  function Replace(incoming: Value, current: Value): Result<Value>
  {
    Ok(incoming)
  }

  /** An edge propagates unless its guard yields exactly `false`. */
  predicate GuardBlocks(r: Value)
  {
    r == Bool(false)
  }

  /** A node propagates only when its constraint yields exactly `true`. */
  predicate ConstraintPasses(r: Value)
  {
    r == Bool(true)
  }

  /** `debug === true ? true : false`. */
  function IsDebug(debug: Option<bool>): bool
  {
    debug == Some(true)
  }
}
