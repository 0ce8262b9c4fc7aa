/** The entities of a mathematical program that both the problem container
    and the perspective detector work on: bounds, variable and function
    types, functions made of a linear, a quadratic and a nonlinear part,
    variables and constraints. */
module Entities {
  import opened OrderedSets

  datatype Option<T> = None | Some(value: T)

  /** Variables and constraints are identified by the number the problem
      gave them at creation. */
  type VarId = nat
  type ConId = nat

  /** A bound: a finite real or one of the two infinities.  The detector
      only ever compares bounds with 0. */
  datatype Bound = NegInf | Fin(value: real) | PosInf {
    predicate IsZero() { this == Fin(0.0) }
    predicate AtMostZero() { NegInf? || (Fin? && value <= 0.0) }
    predicate AtLeastZero() { PosInf? || (Fin? && value >= 0.0) }
    predicate AboveZero() { PosInf? || (Fin? && value > 0.0) }
  }

  datatype VarType = Continuous | Integer | Binary | ImplBin | ImplInt

  datatype FunctionType =
    | Constant | Linear | Bilinear | Multilinear | Quadratic | Nonlinear
    | Polynomial | UnknownFunction

  datatype VarState = NormalVar | DeletedVar
  datatype ConsState = NormalCons | DeletedCons

  /** A quadratic part: its terms (variable pair to coefficient; a pair
      (v, v) is a square) and the set of variables it keeps for them. */
  datatype Quadratic = Quadratic(terms: map<(VarId, VarId), real>, vars: set<VarId>)

  /** A function as a sum of at most one linear part (variable to
      coefficient), one quadratic part and one opaque nonlinear part, of
      which only the variable set is visible.  `vars` is the variable set
      the function keeps and `ftype` the structural type the function
      classifier reports for it.  A constraint without a function carries
      `Empty`. */
  datatype Function = Function(
    lin: Option<map<VarId, real>>,
    quad: Option<Quadratic>,
    nonlin: Option<set<VarId>>,
    vars: set<VarId>,
    ftype: FunctionType)

  const Empty: Function := Function(None, None, None, {}, Constant)

  /** The variables of the linear part. */
  function LinVars(f: Function): set<VarId>
  {
    if f.lin.Some? then f.lin.value.Keys else {}
  }

  function QuadVars(f: Function): set<VarId>
  {
    if f.quad.Some? then f.quad.value.vars else {}
  }

  function NonlinVars(f: Function): set<VarId>
  {
    if f.nonlin.Some? then f.nonlin.value else {}
  }

  /** The variable set a function keeps is the union over its parts. */
  predicate Consistent(f: Function)
  {
    f.vars == LinVars(f) + QuadVars(f) + NonlinVars(f)
  }

  /** The number of variables the function reports. */
  function NumVars(f: Function): nat
  {
    |f.vars|
  }

  /** The coefficient of `v` in the linear part; 0 when it has none. */
  function Weight(f: Function, v: VarId): real
  {
    if f.lin.Some? && v in f.lin.value then f.lin.value[v] else 0.0
  }

  datatype Variable = Variable(
    id: VarId,
    index: nat,
    lb: Bound,
    ub: Bound,
    vtype: VarType,
    name: string,
    state: VarState,
    cons: seq<ConId>)   // the constraints it occurs in, in the order they are visited

  datatype Constraint = Constraint(
    id: ConId,
    index: nat,
    f: Function,
    lb: Bound,
    ub: Bound,
    name: string,
    state: ConsState)
}
