/** The problem container: an arena of variables and constraints that
    hands out identifiers and positions when entities are created, keeps
    every variable's back-references to the constraints that use it,
    deletes by marking and then compacting, and keeps counters of variable
    and constraint types from which it decides the class of the program
    (LP, QP, ..., MINLP). */
module Problems {
  import opened Entities
  import opened Seqs
  import OrderedSets

  // ---------------------------------------------------------------------
  // Unsigned counters and default names
  // ---------------------------------------------------------------------

  /** The counters of the size record are 32-bit unsigned integers. */
  const UIntRange: nat := 0x1_0000_0000

  /** `++` on an unsigned counter below 2^32: the largest value wraps to
      0. */
  function Inc(x: nat): nat
  {
    if x + 1 < UIntRange then x + 1 else 0
  }

  /** `--` on an unsigned counter: 0 wraps to the largest value. */
  function Dec(x: nat): nat
  {
    if x == 0 then UIntRange - 1 else x - 1
  }

  function Digit(d: nat): char
    requires d < 10
  {
    "0123456789"[d]
  }

  /** The decimal text of `n`, as a string stream writes it. */
  function Decimal(n: nat): string
  {
    if n < 10 then [Digit(n)] else Decimal(n / 10) + [Digit(n % 10)]
  }

  /** The name a variable created without one gets: "var" and the number
      of variables before it. */
  function VarName(n: nat): string
  {
    "var" + Decimal(n)
  }

  /** The name a constraint created without one gets. */
  function ConsName(n: nat): string
  {
    "cons" + Decimal(n)
  }

  // ---------------------------------------------------------------------
  // The size record and the counts it is filled from
  // ---------------------------------------------------------------------

  datatype VarCounts = VarCounts(bins: nat, ints: nat, conts: nat)

  /** The type buckets of the constraints. */
  datatype TypeCounts = TypeCounts(
    linCons: nat, bilinCons: nat, multilinCons: nat, quadCons: nat, nonlinCons: nat)

  /** How many constraints have each kind of part, and how many linear
      and quadratic terms they have in all. */
  datatype PartCounts = PartCounts(
    consWithLin: nat, consWithBilin: nat, consWithMultilin: nat, consWithQuad: nat,
    consWithNonlin: nat, linTerms: nat, quadTerms: nat)

  datatype ConsCounts = ConsCounts(types: TypeCounts, parts: PartCounts)

  datatype ObjCounts = ObjCounts(objType: FunctionType, objLinTerms: nat, objQuadTerms: nat)

  datatype Size = Size(vars: nat, cons: nat, objs: nat, v: VarCounts, c: ConsCounts, o: ObjCounts)

  /** One variable counted: Binary, Integer and Continuous each have a
      counter; the implied types have none. */
  function CountVar(t: VarCounts, ty: VarType): VarCounts
  {
    match ty
    case Binary => t.(bins := t.bins + 1)
    case Integer => t.(ints := t.ints + 1)
    case Continuous => t.(conts := t.conts + 1)
    case _ => t
  }

  /** The variable counters a recount over `vs` yields. */
  function VarTally(vs: seq<Variable>): (t: VarCounts)
    ensures t.bins + t.ints + t.conts <= |vs|
  {
    if vs == [] then VarCounts(0, 0, 0)
    else CountVar(VarTally(vs[..|vs| - 1]), vs[|vs| - 1].vtype)
  }

  predicate IsMixedType(ty: VarType)
  {
    ty == Binary || ty == Integer
  }

  predicate HasIntegerVar(vs: seq<Variable>)
  {
    exists i :: 0 <= i < |vs| && IsMixedType(vs[i].vtype)
  }

  /** The counters that decide "mixed-integer" are positive exactly when
      some variable is Binary or Integer; implied binaries and implied
      integers do not make a program mixed-integer. */
  lemma {:induction false} VarTallyMixed(vs: seq<Variable>)
    ensures VarTally(vs).bins + VarTally(vs).ints > 0 <==> HasIntegerVar(vs)
  {
    if vs != [] {
      var p := vs[..|vs| - 1];
      VarTallyMixed(p);
      if HasIntegerVar(p) {
        var i :| 0 <= i < |p| && IsMixedType(p[i].vtype);
        assert vs[i] == p[i];
      }
      if HasIntegerVar(vs) {
        var i :| 0 <= i < |vs| && IsMixedType(vs[i].vtype);
        if i < |p| {
          assert p[i] == vs[i];
        }
      }
    }
  }

  /** A type the recount gives a counter to. */
  predicate CountedType(ty: VarType)
  {
    ty == Binary || ty == Integer || ty == Continuous
  }

  /** The recount counts every variable exactly when none is an implied
      binary or implied integer. */
  lemma {:induction false} VarTallyCounted(vs: seq<Variable>)
    ensures Total(VarTally(vs)) == |vs| <==> forall i :: 0 <= i < |vs| ==> CountedType(vs[i].vtype)
  {
    if vs != [] {
      var p := vs[..|vs| - 1];
      VarTallyCounted(p);
      assert forall i :: 0 <= i < |p| ==> p[i] == vs[i];
    }
  }

  /** The bucket of a constraint by its function type; a Constant
      function counts as linear. */
  predicate LinearType(ty: FunctionType)
  {
    ty == Constant || ty == Linear
  }

  predicate QuadraticType(ty: FunctionType)
  {
    ty == Constant || ty == Linear || ty == Bilinear || ty == FunctionType.Quadratic
  }

  function TypeBuckets(t: TypeCounts): nat
  {
    t.linCons + t.bilinCons + t.multilinCons + t.quadCons + t.nonlinCons
  }

  /** One constraint counted by its function type: exactly one bucket
      grows. */
  function CountType(t: TypeCounts, ty: FunctionType): (r: TypeCounts)
    ensures r.linCons == t.linCons + 1 <==> LinearType(ty)
    ensures r.linCons + r.bilinCons + r.quadCons == t.linCons + t.bilinCons + t.quadCons + 1
      <==> QuadraticType(ty)
  {
    match ty
    case Constant => t.(linCons := t.linCons + 1)
    case Linear => t.(linCons := t.linCons + 1)
    case Bilinear => t.(bilinCons := t.bilinCons + 1)
    case Multilinear => t.(multilinCons := t.multilinCons + 1)
    case Quadratic => t.(quadCons := t.quadCons + 1)
    case _ => t.(nonlinCons := t.nonlinCons + 1)
  }

  /** One constraint counted by the parts its function has. */
  function CountParts(t: PartCounts, f: Function): PartCounts
  {
    var t1 := if f.lin.Some?
      then t.(consWithLin := t.consWithLin + 1, linTerms := t.linTerms + |f.lin.value|)
      else t;
    var t2 := if f.quad.Some?
      then t1.(consWithQuad := t1.consWithQuad + 1, quadTerms := t1.quadTerms + |f.quad.value.terms|)
      else t1;
    if f.nonlin.Some? then t2.(consWithNonlin := t2.consWithNonlin + 1) else t2
  }

  /** The type buckets a recount over `cs` yields. */
  function TypeTally(cs: seq<Constraint>): TypeCounts
  {
    if cs == [] then TypeCounts(0, 0, 0, 0, 0)
    else CountType(TypeTally(cs[..|cs| - 1]), cs[|cs| - 1].f.ftype)
  }

  /** Every constraint lands in exactly one type bucket: the buckets add
      up to the number of constraints. */
  lemma {:induction false} TypeTallyTotal(cs: seq<Constraint>)
    ensures TypeBuckets(TypeTally(cs)) == |cs|
  {
    if cs != [] {
      TypeTallyTotal(cs[..|cs| - 1]);
    }
  }

  /** The part counters a recount over `cs` yields; the bilinear and
      multilinear ones are never raised. */
  function PartTally(cs: seq<Constraint>): (t: PartCounts)
    ensures t.consWithLin <= |cs| && t.consWithQuad <= |cs| && t.consWithNonlin <= |cs|
    ensures t.consWithBilin == 0 && t.consWithMultilin == 0
  {
    if cs == [] then PartCounts(0, 0, 0, 0, 0, 0, 0)
    else CountParts(PartTally(cs[..|cs| - 1]), cs[|cs| - 1].f)
  }

  function ConsTally(cs: seq<Constraint>): ConsCounts
  {
    ConsCounts(TypeTally(cs), PartTally(cs))
  }

  predicate AllLinear(cs: seq<Constraint>)
  {
    forall j :: 0 <= j < |cs| ==> LinearType(cs[j].f.ftype)
  }

  predicate AllQuadratic(cs: seq<Constraint>)
  {
    forall j :: 0 <= j < |cs| ==> QuadraticType(cs[j].f.ftype)
  }

  /** The linear bucket holds every constraint exactly when every
      constraint is Constant or Linear. */
  lemma {:induction false} TypeTallyLinear(cs: seq<Constraint>)
    ensures TypeTally(cs).linCons == |cs| <==> AllLinear(cs)
  {
    if cs != [] {
      var p, c := cs[..|cs| - 1], cs[|cs| - 1];
      TypeTallyLinear(p);
      TypeTallyTotal(p);
      assert TypeTally(cs) == CountType(TypeTally(p), c.f.ftype);
      assert AllLinear(cs) <==> AllLinear(p) && LinearType(c.f.ftype) by {
        assert forall j :: 0 <= j < |p| ==> p[j] == cs[j];
      }
    }
  }

  /** The linear, bilinear and quadratic buckets together hold every
      constraint exactly when none is Multilinear, Nonlinear, Polynomial
      or of unknown type. */
  lemma {:induction false} TypeTallyQuadratic(cs: seq<Constraint>)
    ensures TypeTally(cs).linCons + TypeTally(cs).bilinCons + TypeTally(cs).quadCons == |cs|
      <==> AllQuadratic(cs)
  {
    if cs != [] {
      var p, c := cs[..|cs| - 1], cs[|cs| - 1];
      TypeTallyQuadratic(p);
      TypeTallyTotal(p);
      assert TypeTally(cs) == CountType(TypeTally(p), c.f.ftype);
      assert AllQuadratic(cs) <==> AllQuadratic(p) && QuadraticType(c.f.ftype) by {
        assert forall j :: 0 <= j < |p| ==> p[j] == cs[j];
      }
    }
  }

  /** The objective counters: the objective's type and term counts; with
      no objective the type is left as it was and the term counts are 0. */
  function ObjTally(obj: Option<Function>, prev: FunctionType): ObjCounts
  {
    match obj
    case None => ObjCounts(prev, 0, 0)
    case Some(f) => ObjCounts(f.ftype,
      if f.lin.Some? then |f.lin.value| else 0,
      if f.quad.Some? then |f.quad.value.terms| else 0)
  }

  /** The size record a full recount produces. */
  function Recount(vars: seq<Variable>, cons: seq<Constraint>, obj: Option<Function>,
                   prev: FunctionType): Size
  {
    Size(|vars|, |cons|, if obj.Some? then 1 else 0, VarTally(vars), ConsTally(cons),
      ObjTally(obj, prev))
  }

  method CountVarTypes(vs: seq<Variable>) returns (t: VarCounts)
    ensures t == VarTally(vs)
  {
    t := VarCounts(0, 0, 0);
    for i := 0 to |vs|
      invariant t == VarTally(vs[..i])
    {
      TakeStep(vs, i);
      match vs[i].vtype {
        case Binary => t := t.(bins := t.bins + 1);
        case Integer => t := t.(ints := t.ints + 1);
        case Continuous => t := t.(conts := t.conts + 1);
        case _ =>
      }
    }
    TakeAll(vs);
  }

  /** The switch of countConsTypes_ on one constraint's function type. */
  method CountTypeStep(ty: TypeCounts, ftype: FunctionType) returns (r: TypeCounts)
    ensures r == CountType(ty, ftype)
  {
    match ftype {
      case Constant => r := ty.(linCons := ty.linCons + 1);
      case Linear => r := ty.(linCons := ty.linCons + 1);
      case Bilinear => r := ty.(bilinCons := ty.bilinCons + 1);
      case Multilinear => r := ty.(multilinCons := ty.multilinCons + 1);
      case Quadratic => r := ty.(quadCons := ty.quadCons + 1);
      case _ => r := ty.(nonlinCons := ty.nonlinCons + 1);
    }
  }

  /** The part counts of countConsTypes_ on one constraint's function. */
  method CountPartsStep(parts: PartCounts, f: Function) returns (r: PartCounts)
    ensures r == CountParts(parts, f)
  {
    r := parts;
    if f.lin.Some? {
      r := r.(consWithLin := r.consWithLin + 1, linTerms := r.linTerms + |f.lin.value|);
    }
    if f.quad.Some? {
      r := r.(consWithQuad := r.consWithQuad + 1, quadTerms := r.quadTerms + |f.quad.value.terms|);
    }
    if f.nonlin.Some? {
      r := r.(consWithNonlin := r.consWithNonlin + 1);
    }
  }

  method CountConsTypes(cs: seq<Constraint>) returns (t: ConsCounts)
    ensures t == ConsTally(cs)
  {
    var ty := TypeCounts(0, 0, 0, 0, 0);
    var parts := PartCounts(0, 0, 0, 0, 0, 0, 0);
    for i := 0 to |cs|
      invariant ty == TypeTally(cs[..i]) && parts == PartTally(cs[..i])
    {
      TakeStep(cs, i);
      var c := cs[i];
      ty := CountTypeStep(ty, c.f.ftype);
      parts := CountPartsStep(parts, c.f);
    }
    TakeAll(cs);
    t := ConsCounts(ty, parts);
  }

  // ---------------------------------------------------------------------
  // Changing a variable's type: the counters kept by hand
  // ---------------------------------------------------------------------

  /** The counter update of setVarType as written: Binary and ImplBin
      share bins, Integer and ImplInt share ints, every other type is
      conts; one unit leaves the old type's counter and one joins the new
      one's, in unsigned arithmetic. */
  function RetypeAsWritten(t: VarCounts, from: VarType, to: VarType): VarCounts
  {
    var t1 := match from
      case Binary => t.(bins := Dec(t.bins))
      case ImplBin => t.(bins := Dec(t.bins))
      case Integer => t.(ints := Dec(t.ints))
      case ImplInt => t.(ints := Dec(t.ints))
      case _ => t.(conts := Dec(t.conts));
    match to
    case Binary => t1.(bins := Inc(t1.bins))
    case ImplBin => t1.(bins := Inc(t1.bins))
    case Integer => t1.(ints := Inc(t1.ints))
    case ImplInt => t1.(ints := Inc(t1.ints))
    case _ => t1.(conts := Inc(t1.conts))
  }

  function Total(t: VarCounts): nat
  {
    t.bins + t.ints + t.conts
  }

  predicate Fits(t: VarCounts)
  {
    t.bins < UIntRange && t.ints < UIntRange && t.conts < UIntRange
  }

  /** As written, the update moves one unit between counters: their sum
      is unchanged in unsigned arithmetic, and unchanged outright when the
      old type's counter is positive and the new type's is below its
      largest value, so that neither wraps. */
  lemma RetypeAsWrittenMoves(t: VarCounts, from: VarType, to: VarType)
    requires Fits(t)
    ensures var r := RetypeAsWritten(t, from, to);
      Fits(r) && (Total(r) == Total(t) || Total(r) == Total(t) + UIntRange
                  || Total(r) + UIntRange == Total(t))
    ensures AsWrittenCounter(t, from) > 0 && AsWrittenCounter(t, to) < UIntRange - 1 ==>
      Total(RetypeAsWritten(t, from, to)) == Total(t)
  {
  }

  /** The counter setVarType as written charges a variable of type `ty` to. */
  function AsWrittenCounter(t: VarCounts, ty: VarType): nat
  {
    match ty
    case Binary => t.bins
    case ImplBin => t.bins
    case Integer => t.ints
    case ImplInt => t.ints
    case _ => t.conts
  }

  /** As written, the update disagrees with the recount, which gives the
      implied types no counter: a problem with one ImplBin variable whose
      sizes were just counted has bins = 0, and turning that variable
      Continuous wraps bins to 4294967295 where a recount gives 0. */
  lemma RetypeAsWrittenWraps()
    ensures var v := Variable(0, 0, Fin(0.0), Fin(1.0), ImplBin, "var0", NormalVar, []);
      var after := RetypeAsWritten(VarTally([v]), ImplBin, Continuous);
      after.bins == 4294967295 && VarTally([v.(vtype := Continuous)]).bins == 0
  {
    var v := Variable(0, 0, Fin(0.0), Fin(1.0), ImplBin, "var0", NormalVar, []);
    assert [v][..0] == [];
    assert [v.(vtype := Continuous)][..0] == [];
  }

  /** One unit out of the counter the recount gives `ty`, if any. */
  function Uncount(t: VarCounts, ty: VarType): VarCounts
  {
    match ty
    case Binary => t.(bins := Dec(t.bins))
    case Integer => t.(ints := Dec(t.ints))
    case Continuous => t.(conts := Dec(t.conts))
    case _ => t
  }

  /** One unit into the counter the recount gives `ty`, if any. */
  function Recount1(t: VarCounts, ty: VarType): VarCounts
  {
    match ty
    case Binary => t.(bins := Inc(t.bins))
    case Integer => t.(ints := Inc(t.ints))
    case Continuous => t.(conts := Inc(t.conts))
    case _ => t
  }

  /** The counter update with the recount's buckets. */
  function Retype(t: VarCounts, from: VarType, to: VarType): VarCounts
  {
    Recount1(Uncount(t, from), to)
  }

  /** Changing the type of variable i changes the recount by one unit out
      of the old type's counter and one into the new type's. */
  lemma CountVarCommutes(t: VarCounts, a: VarType, b: VarType)
    ensures CountVar(CountVar(t, a), b) == CountVar(CountVar(t, b), a)
  {
  }

  lemma {:induction false} VarTallyRetypeNat(vs: seq<Variable>, i: nat, ty: VarType)
    requires i < |vs|
    ensures var t := VarTally(vs); var t' := VarTally(vs[i := vs[i].(vtype := ty)]);
      CountVar(t', vs[i].vtype) == CountVar(t, ty)
  {
    var p, last := vs[..|vs| - 1], vs[|vs| - 1];
    var vs' := vs[i := vs[i].(vtype := ty)];
    if i < |p| {
      var p' := p[i := p[i].(vtype := ty)];
      assert vs' == p' + [last];
      assert vs'[..|vs| - 1] == p';
      VarTallyRetypeNat(p, i, ty);
      assert p[i] == vs[i];
      CountVarCommutes(VarTally(p'), last.vtype, vs[i].vtype);
      CountVarCommutes(VarTally(p), last.vtype, ty);
    } else {
      assert vs'[..|vs| - 1] == p;
      CountVarCommutes(VarTally(p), ty, last.vtype);
    }
  }

  /** With the recount's buckets the update keeps the counters equal to a
      recount and never wraps. */
  lemma VarTallyRetype(vs: seq<Variable>, i: nat, ty: VarType)
    requires i < |vs| < UIntRange
    ensures Retype(VarTally(vs), vs[i].vtype, ty) == VarTally(vs[i := vs[i].(vtype := ty)])
  {
    VarTallyRetypeNat(vs, i, ty);
  }

  // ---------------------------------------------------------------------
  // The class of a program
  // ---------------------------------------------------------------------

  datatype ProblemType = LP | MILP | QP | MIQP | QCQP | MIQCQP | POLYP | MIPOLYP | NLP | MINLP

  predicate IsMixed(t: ProblemType)
  {
    t == MILP || t == MIQP || t == MIQCQP || t == MIPOLYP || t == MINLP
  }

  predicate LinearObj(ty: FunctionType)
  {
    ty == Constant || ty == Linear
  }

  predicate QuadraticObj(ty: FunctionType)
  {
    ty == FunctionType.Quadratic || ty == Bilinear
  }

  /** The decision table of findType over a size record; `polyp` is the
      polynomial test's answer. */
  function Classify(s: Size, polyp: bool): (t: ProblemType)
    ensures IsMixed(t) <==> s.v.bins + s.v.ints > 0
    ensures (t == POLYP || t == MIPOLYP) ==> polyp
  {
    var mixed := s.v.bins + s.v.ints > 0;
    if s.cons == s.c.types.linCons && LinearObj(s.o.objType) then (if mixed then MILP else LP)
    else if s.cons == s.c.types.linCons && QuadraticObj(s.o.objType) then (if mixed then MIQP else QP)
    else if s.cons == s.c.types.linCons + s.c.types.bilinCons + s.c.types.quadCons && QuadraticObj(s.o.objType)
    then (if mixed then MIQCQP else QCQP)
    else if polyp then (if mixed then MIPOLYP else POLYP)
    else (if mixed then MINLP else NLP)
  }

  function IsLinear(size: Option<Size>): bool
  {
    size.Some? && size.value.cons == size.value.c.types.linCons && LinearObj(size.value.o.objType)
  }

  function IsQP(size: Option<Size>): bool
  {
    if size.None? || IsLinear(size) then false
    else
      size.value.c.types.linCons == size.value.cons
      && (LinearObj(size.value.o.objType) || QuadraticObj(size.value.o.objType))
  }

  function IsQuadratic(size: Option<Size>): bool
  {
    if size.None? || IsLinear(size) then false
    else
      size.value.c.types.linCons + size.value.c.types.quadCons + size.value.c.types.bilinCons == size.value.cons
      && (LinearObj(size.value.o.objType) || QuadraticObj(size.value.o.objType))
  }

  /** isLinear holds exactly when findType would answer LP or MILP from
      the same record; without a record it is false. */
  lemma IsLinearSpec(size: Option<Size>, polyp: bool)
    ensures size.None? ==> !IsLinear(size)
    ensures size.Some? ==> (IsLinear(size) <==> Classify(size.value, polyp) in {LP, MILP})
  {
  }

  /** isQP holds exactly when findType would answer QP or MIQP: a
      quadratic objective over linear constraints. */
  lemma IsQPSpec(size: Option<Size>, polyp: bool)
    ensures size.None? ==> !IsQP(size)
    ensures size.Some? ==> (IsQP(size) <==> Classify(size.value, polyp) in {QP, MIQP})
  {
  }

  /** Whenever findType answers a QP or QCQP class, isQuadratic holds,
      provided every constraint is in one type bucket. */
  lemma IsQuadraticSpec(s: Size, polyp: bool)
    requires TypeBuckets(s.c.types) == s.cons
    ensures Classify(s, polyp) in {QP, MIQP, QCQP, MIQCQP} ==> IsQuadratic(Some(s))
    ensures IsQuadratic(Some(s)) ==> !IsLinear(Some(s))
  {
  }

  /** The converse fails: quadratic constraints under a linear objective
      satisfy isQuadratic, yet findType's QCQP row asks for a quadratic
      objective, so findType answers NLP. */
  lemma QuadraticLinearObjective()
    ensures var s := Size(1, 1, 1, VarCounts(0, 0, 1),
        ConsCounts(TypeCounts(0, 0, 0, 1, 0), PartCounts(0, 0, 0, 1, 0, 0, 1)), ObjCounts(Linear, 1, 0));
      IsQuadratic(Some(s)) && Classify(s, false) == NLP
  {
  }

  /** Over a recount, findType's answer reads as a statement about the
      program: LP or MILP exactly when every constraint is Constant or
      Linear and so is the objective; QP or MIQP exactly when the
      constraints are all so and the objective is Quadratic or Bilinear;
      mixed-integer exactly when some variable is Binary or Integer; never
      POLYP or MIPOLYP. */
  lemma ClassifyRecount(vars: seq<Variable>, cons: seq<Constraint>, obj: Option<Function>,
                        prev: FunctionType)
    ensures var s := Recount(vars, cons, obj, prev); var t := Classify(s, false);
      && ((t == LP || t == MILP) <==> AllLinear(cons) && LinearObj(s.o.objType))
      && ((t == QP || t == MIQP) <==> AllLinear(cons) && QuadraticObj(s.o.objType))
      && ((t == QCQP || t == MIQCQP) <==>
          !AllLinear(cons) && AllQuadratic(cons) && QuadraticObj(s.o.objType))
      && (IsMixed(t) <==> HasIntegerVar(vars))
      && t != POLYP && t != MIPOLYP
  {
    TypeTallyLinear(cons);
    TypeTallyQuadratic(cons);
    VarTallyMixed(vars);
  }

  // ---------------------------------------------------------------------
  // The arena: positions, identifiers and back-references
  // ---------------------------------------------------------------------

  /** Every variable sits at the position its index names. */
  predicate VarsIndexed(vs: seq<Variable>)
  {
    forall i :: 0 <= i < |vs| ==> vs[i].index == i
  }

  predicate ConsIndexed(cs: seq<Constraint>)
  {
    forall j :: 0 <= j < |cs| ==> cs[j].index == j
  }

  /** Identifiers ascend along the vector, all below the next one to be
      handed out. */
  predicate VarIdsBelow(vs: seq<Variable>, next: nat)
  {
    (forall i, k :: 0 <= i < k < |vs| ==> vs[i].id < vs[k].id)
    && (forall i :: 0 <= i < |vs| ==> vs[i].id < next)
  }

  predicate ConIdsBelow(cs: seq<Constraint>, next: nat)
  {
    (forall j, k :: 0 <= j < k < |cs| ==> cs[j].id < cs[k].id)
    && (forall j :: 0 <= j < |cs| ==> cs[j].id < next)
  }

  predicate Arena(vs: seq<Variable>, cs: seq<Constraint>, nextV: nat, nextC: nat)
  {
    VarsIndexed(vs) && ConsIndexed(cs) && VarIdsBelow(vs, nextV) && ConIdsBelow(cs, nextC)
  }

  /** The identifiers of the constraints in `cs` whose function uses
      variable `x`, in the order of `cs`. */
  function Mentioning(cs: seq<Constraint>, x: VarId): seq<ConId>
  {
    if cs == [] then []
    else
      var c := cs[|cs| - 1];
      Mentioning(cs[..|cs| - 1], x) + (if x in c.f.vars then [c.id] else [])
  }

  /** Each variable's back-references are exactly the constraints that
      use it, in constraint order.  The source keeps them in an ordered set
      whose comparator is not part of this model; the model takes them in
      the order of the constraint vector, which `LinkedAscending` shows to
      be ascending identifier order. */
  predicate Linked(vs: seq<Variable>, cs: seq<Constraint>)
  {
    forall i :: 0 <= i < |vs| ==> vs[i].cons == Mentioning(cs, vs[i].id)
  }

  lemma MentioningPush(cs: seq<Constraint>, c: Constraint, x: VarId)
    ensures Mentioning(cs + [c], x) == Mentioning(cs, x) + (if x in c.f.vars then [c.id] else [])
  {
    assert (cs + [c])[..|cs|] == cs;
  }

  /** The identifiers listed for `x` are identifiers of constraints in
      `cs`. */
  lemma {:induction false} MentioningBelow(cs: seq<Constraint>, x: VarId, n: nat)
    requires forall c :: c in cs ==> c.id < n
    ensures forall y :: y in Mentioning(cs, x) ==> y < n
  {
    if cs != [] {
      var p := cs[..|cs| - 1];
      assert forall c :: c in p ==> c in cs;
      MentioningBelow(p, x, n);
    }
  }

  /** Along a vector with ascending identifiers, the constraints using x
      come in ascending identifier order. */
  lemma {:induction false} MentioningAscending(cs: seq<Constraint>, x: VarId, n: nat)
    requires ConIdsBelow(cs, n)
    ensures OrderedSets.Ascending(Mentioning(cs, x))
  {
    if cs != [] {
      var p, c := cs[..|cs| - 1], cs[|cs| - 1];
      assert ConIdsBelow(p, c.id);
      MentioningAscending(p, x, c.id);
      MentioningBelow(p, x, c.id);
      var m, r := Mentioning(p, x), Mentioning(cs, x);
      if x in c.f.vars {
        assert r == m + [c.id];
        forall i, j | 0 <= i < j < |r|
          ensures r[i] < r[j]
        {
          assert r[i] == m[i] && r[i] in m;
        }
      } else {
        assert r == m;
      }
    }
  }

  /** In a well-numbered arena with exact back-references, every
      variable's back-references ascend by identifier. */
  lemma LinkedAscending(vs: seq<Variable>, cs: seq<Constraint>, nextV: nat, nextC: nat)
    requires Arena(vs, cs, nextV, nextC) && Linked(vs, cs)
    ensures forall i :: 0 <= i < |vs| ==> OrderedSets.Ascending(vs[i].cons)
  {
    forall i | 0 <= i < |vs|
      ensures OrderedSets.Ascending(vs[i].cons)
    {
      MentioningAscending(cs, vs[i].id, nextC);
    }
  }

  /** The constraint's state plays no part in who uses what. */
  lemma {:induction false} MentioningState(cs: seq<Constraint>, j: nat, st: ConsState, x: VarId)
    requires j < |cs|
    ensures Mentioning(cs[j := cs[j].(state := st)], x) == Mentioning(cs, x)
  {
    var cs' := cs[j := cs[j].(state := st)];
    var p, p' := cs[..|cs| - 1], cs'[..|cs| - 1];
    if j < |p| {
      assert p' == p[j := p[j].(state := st)];
      MentioningState(p, j, st, x);
    } else {
      assert p' == p;
    }
  }

  /** A variable as created: the next identifier, the next position, no
      back-references. */
  function NewVar(id: VarId, index: nat, lb: Bound, ub: Bound, vtype: VarType, name: string): Variable
  {
    Variable(id, index, lb, ub, vtype, name, NormalVar, [])
  }

  /** Appending a new variable keeps the arena. */
  lemma PushVar(vs: seq<Variable>, cs: seq<Constraint>, nextV: nat, nextC: nat, v: Variable)
    requires Arena(vs, cs, nextV, nextC) && v.id == nextV && v.index == |vs|
    ensures Arena(vs + [v], cs, nextV + 1, nextC)
  {
  }

  /** Appending a new variable keeps the back-references exact, unless a
      constraint already used the identifier it gets. */
  lemma PushVarLinked(vs: seq<Variable>, cs: seq<Constraint>, v: Variable)
    requires Linked(vs, cs) && v.cons == [] && Mentioning(cs, v.id) == []
    ensures Linked(vs + [v], cs)
  {
  }

  /** The variables of the problem that `c`'s function uses get `c` in
      their back-references. */
  function Attach(vs: seq<Variable>, c: Constraint): (r: seq<Variable>)
    ensures |r| == |vs|
  {
    seq(|vs|, i requires 0 <= i < |vs| =>
      if vs[i].id in c.f.vars then vs[i].(cons := vs[i].cons + [c.id]) else vs[i])
  }

  method AttachAll(vs: seq<Variable>, c: Constraint) returns (r: seq<Variable>)
    ensures r == Attach(vs, c)
  {
    r := vs;
    for i := 0 to |vs|
      invariant |r| == |vs|
      invariant forall k :: 0 <= k < i ==> r[k] == Attach(vs, c)[k]
      invariant forall k :: i <= k < |vs| ==> r[k] == vs[k]
    {
      if vs[i].id in c.f.vars {
        r := r[i := vs[i].(cons := vs[i].cons + [c.id])];
      }
    }
  }

  /** Appending a constraint and attaching it keeps the back-references
      exact. */
  lemma AttachLinked(vs: seq<Variable>, cs: seq<Constraint>, c: Constraint)
    requires Linked(vs, cs)
    ensures Linked(Attach(vs, c), cs + [c])
  {
    forall i | 0 <= i < |vs|
      ensures Attach(vs, c)[i].cons == Mentioning(cs + [c], vs[i].id)
    {
      MentioningPush(cs, c, vs[i].id);
    }
  }

  /** Appending a new constraint keeps the arena; attaching changes no
      variable's identifier or position. */
  lemma PushCon(vs: seq<Variable>, cs: seq<Constraint>, nextV: nat, nextC: nat, c: Constraint)
    requires Arena(vs, cs, nextV, nextC) && c.id == nextC && c.index == |cs|
    ensures Arena(Attach(vs, c), cs + [c], nextV, nextC + 1)
  {
    var r := Attach(vs, c);
    assert forall i :: 0 <= i < |vs| ==> r[i].id == vs[i].id && r[i].index == vs[i].index;
  }

  // ---------------------------------------------------------------------
  // Deletion: mark, then compact
  // ---------------------------------------------------------------------

  predicate LiveVar(v: Variable)
  {
    v.state != DeletedVar
  }

  predicate LiveCon(c: Constraint)
  {
    c.state != DeletedCons
  }

  predicate DeadCon(c: Constraint)
  {
    c.state == DeletedCons
  }

  /** Positions renumbered 0, 1, ... in vector order. */
  function ReindexVars(vs: seq<Variable>): (r: seq<Variable>)
    ensures |r| == |vs| && VarsIndexed(r)
    ensures forall i :: 0 <= i < |vs| ==> r[i] == vs[i].(index := i)
  {
    seq(|vs|, i requires 0 <= i < |vs| => vs[i].(index := i))
  }

  function ReindexCons(cs: seq<Constraint>): (r: seq<Constraint>)
    ensures |r| == |cs| && ConsIndexed(r)
    ensures forall j :: 0 <= j < |cs| ==> r[j] == cs[j].(index := j)
  {
    seq(|cs|, j requires 0 <= j < |cs| => cs[j].(index := j))
  }

  /** `s` without `y`. */
  function Remove(s: seq<ConId>, y: ConId): seq<ConId>
  {
    if s == [] then []
    else Remove(s[..|s| - 1], y) + (if s[|s| - 1] == y then [] else [s[|s| - 1]])
  }

  lemma {:induction false} RemoveAbsent(s: seq<ConId>, y: ConId)
    requires y !in s
    ensures Remove(s, y) == s
  {
    if s != [] {
      RemoveAbsent(s[..|s| - 1], y);
    }
  }

  lemma {:induction false} RemoveConcat(a: seq<ConId>, b: seq<ConId>, y: ConId)
    ensures Remove(a + b, y) == Remove(a, y) + Remove(b, y)
  {
    if b != [] {
      assert (a + b)[..|a + b| - 1] == a + b[..|b| - 1];
      RemoveConcat(a, b[..|b| - 1], y);
    } else {
      assert a + b == a;
    }
  }

  /** The variables of the problem that `c`'s function uses lose `c` from
      their back-references. */
  function Detach(vs: seq<Variable>, c: Constraint): (r: seq<Variable>)
    ensures |r| == |vs|
  {
    seq(|vs|, i requires 0 <= i < |vs| =>
      if vs[i].id in c.f.vars then vs[i].(cons := Remove(vs[i].cons, c.id)) else vs[i])
  }

  /** `Detach` for each of `ds` in turn. */
  function DetachAll(vs: seq<Variable>, ds: seq<Constraint>): (r: seq<Variable>)
    ensures |r| == |vs|
  {
    if ds == [] then vs else Detach(DetachAll(vs, ds[..|ds| - 1]), ds[|ds| - 1])
  }

  /** What `DetachAll` does to the back-references of a variable `x`. */
  function Strip(s: seq<ConId>, ds: seq<Constraint>, x: VarId): seq<ConId>
  {
    if ds == [] then s
    else
      var d := ds[|ds| - 1];
      var rest := Strip(s, ds[..|ds| - 1], x);
      if x in d.f.vars then Remove(rest, d.id) else rest
  }

  lemma {:induction false} DetachAllAt(vs: seq<Variable>, ds: seq<Constraint>, i: nat)
    requires i < |vs|
    ensures DetachAll(vs, ds)[i] == vs[i].(cons := Strip(vs[i].cons, ds, vs[i].id))
  {
    if ds != [] {
      DetachAllAt(vs, ds[..|ds| - 1], i);
    }
  }

  lemma {:induction false} StripConcat(a: seq<ConId>, b: seq<ConId>, ds: seq<Constraint>, x: VarId)
    ensures Strip(a + b, ds, x) == Strip(a, ds, x) + Strip(b, ds, x)
  {
    if ds != [] {
      var d := ds[|ds| - 1];
      StripConcat(a, b, ds[..|ds| - 1], x);
      if x in d.f.vars {
        RemoveConcat(Strip(a, ds[..|ds| - 1], x), Strip(b, ds[..|ds| - 1], x), d.id);
      }
    }
  }

  lemma {:induction false} StripAbsent(y: ConId, ds: seq<Constraint>, x: VarId)
    requires forall d :: d in ds ==> d.id != y
    ensures Strip([y], ds, x) == [y]
  {
    if ds != [] {
      var p := ds[..|ds| - 1];
      assert forall d :: d in p ==> d in ds;
      StripAbsent(y, p, x);
      RemoveAbsent([y], ds[|ds| - 1].id);
    }
  }

  lemma {:induction false} StripNil(ds: seq<Constraint>, x: VarId)
    ensures Strip([], ds, x) == []
  {
    if ds != [] {
      StripNil(ds[..|ds| - 1], x);
    }
  }

  /** One more constraint, not deleted: it stays in the back-references
      of the variables it uses. */
  lemma StripStepLive(m: seq<ConId>, dead: seq<Constraint>, ml: seq<ConId>, c: Constraint, x: VarId)
    requires Strip(m, dead, x) == ml
    requires forall d :: d in dead ==> d.id != c.id
    ensures var t := if x in c.f.vars then [c.id] else [];
      Strip(m + t, dead, x) == ml + t
  {
    var t := if x in c.f.vars then [c.id] else [];
    StripConcat(m, t, dead, x);
    if x in c.f.vars {
      StripAbsent(c.id, dead, x);
    } else {
      StripNil(dead, x);
      assert m + t == m && ml + t == ml;
    }
  }

  /** One more constraint, deleted: it leaves the back-references of the
      variables it uses. */
  lemma StripStepDead(m: seq<ConId>, dead: seq<Constraint>, ml: seq<ConId>, c: Constraint, x: VarId)
    requires Strip(m, dead, x) == ml && c.id !in ml
    requires forall d :: d in dead ==> d.id != c.id
    ensures var t := if x in c.f.vars then [c.id] else [];
      Strip(m + t, dead + [c], x) == ml
  {
    var t := if x in c.f.vars then [c.id] else [];
    assert (dead + [c])[..|dead|] == dead;
    StripStepLive(m, dead, ml, c, x);
    if x in c.f.vars {
      RemoveConcat(ml, t, c.id);
      RemoveAbsent(ml, c.id);
    }
  }

  /** Removing the deleted constraints from the back-references of the
      variables they use leaves exactly the surviving constraints that use
      the variable, provided identifiers ascend. */
  lemma {:induction false} StripMentioning(cs: seq<Constraint>, x: VarId, n: nat)
    requires ConIdsBelow(cs, n)
    ensures Strip(Mentioning(cs, x), Filter(cs, DeadCon), x) == Mentioning(Filter(cs, LiveCon), x)
  {
    if cs != [] {
      var p, c := cs[..|cs| - 1], cs[|cs| - 1];
      assert cs == p + [c];
      assert ConIdsBelow(p, c.id);
      StripMentioning(p, x, c.id);
      var dead, live := Filter(p, DeadCon), Filter(p, LiveCon);
      MentioningPush(p, c, x);
      FilterPush(p, c, DeadCon);
      FilterPush(p, c, LiveCon);
      FilterMembers(p, DeadCon);
      FilterMembers(p, LiveCon);
      assert forall d :: d in p ==> d.id < c.id;
      if LiveCon(c) {
        assert Filter(cs, DeadCon) == dead + [] == dead;
        assert Filter(cs, LiveCon) == live + [c];
        StripStepLive(Mentioning(p, x), dead, Mentioning(live, x), c, x);
        MentioningPush(live, c, x);
      } else {
        assert Filter(cs, DeadCon) == dead + [c];
        assert Filter(cs, LiveCon) == live + [] == live;
        MentioningBelow(live, x, c.id);
        StripStepDead(Mentioning(p, x), dead, Mentioning(live, x), c, x);
      }
    }
  }

  /** Compacting the constraints keeps the back-references exact. */
  lemma CompactLinked(vs: seq<Variable>, cs: seq<Constraint>, n: nat)
    requires Linked(vs, cs) && ConIdsBelow(cs, n)
    ensures Linked(DetachAll(vs, Filter(cs, DeadCon)), ReindexCons(Filter(cs, LiveCon)))
  {
    var r := DetachAll(vs, Filter(cs, DeadCon));
    forall i | 0 <= i < |vs|
      ensures r[i].cons == Mentioning(ReindexCons(Filter(cs, LiveCon)), r[i].id)
    {
      DetachAllAt(vs, Filter(cs, DeadCon), i);
      StripMentioning(cs, vs[i].id, n);
      MentioningReindex(Filter(cs, LiveCon), vs[i].id);
    }
  }

  /** Renumbering positions changes no one's use of a variable. */
  lemma {:induction false} MentioningReindex(cs: seq<Constraint>, x: VarId)
    ensures Mentioning(ReindexCons(cs), x) == Mentioning(cs, x)
  {
    if cs != [] {
      var p := cs[..|cs| - 1];
      assert ReindexCons(cs)[..|cs| - 1] == ReindexCons(p);
      MentioningReindex(p, x);
    }
  }

  /** A filter keeps ascending identifiers ascending. */
  lemma FilterConIds(cs: seq<Constraint>, n: nat)
    requires ConIdsBelow(cs, n)
    ensures ConIdsBelow(ReindexCons(Filter(cs, LiveCon)), n)
  {
    FilterSpec(cs, LiveCon);
    var k := Kept(cs, LiveCon);
    assert forall a, b :: 0 <= a < b < |k| ==> k[a] < k[b];
  }

  lemma FilterVarIds(vs: seq<Variable>, n: nat)
    requires VarIdsBelow(vs, n)
    ensures VarIdsBelow(ReindexVars(Filter(vs, LiveVar)), n)
  {
    FilterSpec(vs, LiveVar);
    var k := Kept(vs, LiveVar);
    assert forall a, b :: 0 <= a < b < |k| ==> k[a] < k[b];
  }

  /** Dropping deleted variables keeps the back-references of the others
      exact. */
  lemma FilterVarsLinked(vs: seq<Variable>, cs: seq<Constraint>)
    requires Linked(vs, cs)
    ensures Linked(ReindexVars(Filter(vs, LiveVar)), cs)
  {
    FilterSpec(vs, LiveVar);
  }

  /** With nothing marked, compacting changes nothing. */
  lemma CompactVarsIdle(vs: seq<Variable>)
    requires VarsIndexed(vs) && forall i :: 0 <= i < |vs| ==> LiveVar(vs[i])
    ensures ReindexVars(Filter(vs, LiveVar)) == vs
  {
    FilterAll(vs, LiveVar);
  }

  lemma CompactConsIdle(vs: seq<Variable>, cs: seq<Constraint>)
    requires ConsIndexed(cs) && forall j :: 0 <= j < |cs| ==> LiveCon(cs[j])
    ensures ReindexCons(Filter(cs, LiveCon)) == cs
    ensures DetachAll(vs, Filter(cs, DeadCon)) == vs
  {
    FilterAll(cs, LiveCon);
    FilterNone(cs, DeadCon);
  }

  /** The rebuilding loop of delMarkedVars: survivors are renumbered as
      they are pushed. */
  method CompactVars(vs: seq<Variable>) returns (r: seq<Variable>)
    ensures r == ReindexVars(Filter(vs, LiveVar))
  {
    r := [];
    for i := 0 to |vs|
      invariant r == ReindexVars(Filter(vs[..i], LiveVar))
    {
      TakeStep(vs, i);
      FilterPush(vs[..i], vs[i], LiveVar);
      if vs[i].state != DeletedVar {
        ghost var f := Filter(vs[..i], LiveVar);
        assert ReindexVars(f + [vs[i]]) == ReindexVars(f) + [vs[i].(index := |f|)];
        r := r + [vs[i].(index := |r|)];
      }
    }
    TakeAll(vs);
  }

  /** The loops of delMarkedCons: split into survivors and deleted, take
      each deleted constraint out of the back-references of the variables
      it uses, renumber the survivors. */
  method CompactCons(vs: seq<Variable>, cs: seq<Constraint>) returns (vs': seq<Variable>, cs': seq<Constraint>)
    ensures cs' == ReindexCons(Filter(cs, LiveCon))
    ensures vs' == DetachAll(vs, Filter(cs, DeadCon))
  {
    var copycons, delcons := [], [];
    for i := 0 to |cs|
      invariant copycons == Filter(cs[..i], LiveCon) && delcons == Filter(cs[..i], DeadCon)
    {
      TakeStep(cs, i);
      FilterPush(cs[..i], cs[i], LiveCon);
      FilterPush(cs[..i], cs[i], DeadCon);
      if cs[i].state == DeletedCons {
        delcons := delcons + [cs[i]];
      } else {
        copycons := copycons + [cs[i]];
      }
    }
    TakeAll(cs);
    vs' := vs;
    for k := 0 to |delcons|
      invariant vs' == DetachAll(vs, delcons[..k])
    {
      TakeStep(delcons, k);
      assert delcons[..k + 1][..k] == delcons[..k];
      vs' := OutOfConstraint(vs', delcons[k]);
    }
    TakeAll(delcons);
    cs' := copycons;
    for j := 0 to |cs'|
      invariant |cs'| == |copycons|
      invariant forall m :: 0 <= m < j ==> cs'[m] == copycons[m].(index := m)
      invariant forall m :: j <= m < |cs'| ==> cs'[m] == copycons[m]
    {
      cs' := cs'[j := cs'[j].(index := j)];
    }
  }

  /** The walk over a deleted constraint's variables. */
  method OutOfConstraint(vs: seq<Variable>, c: Constraint) returns (r: seq<Variable>)
    ensures r == Detach(vs, c)
  {
    r := vs;
    for i := 0 to |vs|
      invariant |r| == |vs|
      invariant forall k :: 0 <= k < i ==> r[k] == Detach(vs, c)[k]
      invariant forall k :: i <= k < |vs| ==> r[k] == vs[k]
    {
      if vs[i].id in c.f.vars {
        r := r[i := vs[i].(cons := Remove(vs[i].cons, c.id))];
      }
    }
  }

  /** The recount reads only variable types and constraint functions. */
  lemma {:induction false} VarTallyAgree(a: seq<Variable>, b: seq<Variable>)
    requires |a| == |b| && forall i :: 0 <= i < |a| ==> a[i].vtype == b[i].vtype
    ensures VarTally(a) == VarTally(b)
  {
    if a != [] {
      VarTallyAgree(a[..|a| - 1], b[..|b| - 1]);
    }
  }

  lemma {:induction false} ConsTallyAgree(a: seq<Constraint>, b: seq<Constraint>)
    requires |a| == |b| && forall j :: 0 <= j < |a| ==> a[j].f == b[j].f
    ensures ConsTally(a) == ConsTally(b)
  {
    if a != [] {
      ConsTallyAgree(a[..|a| - 1], b[..|b| - 1]);
    }
  }

  /** Marking a variable or a constraint deleted changes no counter. */
  lemma MarkKeepsCounts(vs: seq<Variable>, cs: seq<Constraint>, obj: Option<Function>, prev: FunctionType,
                        i: nat, j: nat)
    ensures i < |vs| ==> Recount(vs[i := vs[i].(state := DeletedVar)], cs, obj, prev) == Recount(vs, cs, obj, prev)
    ensures j < |cs| ==> Recount(vs, cs[j := cs[j].(state := DeletedCons)], obj, prev) == Recount(vs, cs, obj, prev)
  {
    if i < |vs| {
      VarTallyAgree(vs[i := vs[i].(state := DeletedVar)], vs);
    }
    if j < |cs| {
      ConsTallyAgree(cs[j := cs[j].(state := DeletedCons)], cs);
    }
  }

  /** isPolyp_: whatever the functions, the answer is no. */
  method IsPolyp(cs: seq<Constraint>, obj: Option<Function>) returns (r: bool)
    ensures !r
  {
    if obj.Some? && (obj.value.ftype == Nonlinear || obj.value.ftype == UnknownFunction) {
      return false;
    }
    for i := 0 to |cs| {
      var f := cs[i].f;
      if f.ftype == Nonlinear || f.ftype == UnknownFunction {
        return false;
      }
    }
    return false;
  }

  // ---------------------------------------------------------------------
  // The initial point
  // ---------------------------------------------------------------------

  function Zeros(n: nat): (r: seq<real>)
    ensures |r| == n && forall i :: 0 <= i < n ==> r[i] == 0.0
  {
    seq(n, _ => 0.0)
  }

  /** setInitialPoint's copy and fill: the first k entries from `x`, zeros
      up to n, the rest of the buffer untouched. */
  method FillPoint(a: array<real>, x: seq<real>, k: nat, n: nat)
    requires k <= |x| && k <= n <= a.Length
    modifies a
    ensures a[..n] == x[..k] + Zeros(n - k)
    ensures a[n..] == old(a[n..])
  {
    for i := 0 to k
      invariant forall m :: 0 <= m < i ==> a[m] == x[m]
      invariant a[i..] == old(a[i..])
    {
      a[i] := x[i];
    }
    for i := k to n
      invariant forall m :: 0 <= m < k ==> a[m] == x[m]
      invariant forall m :: k <= m < i ==> a[m] == 0.0
      invariant a[i..] == old(a[i..])
    {
      a[i] := 0.0;
    }
    assert a[..n] == x[..k] + Zeros(n - k);
  }

  /** The length of the buffer setInitialPoint writes into, as written: a
      new one sized to the current number of variables when none exists,
      otherwise the existing one, whatever it was sized to. */
  function BufferAsWritten(prior: Option<nat>, n: nat): nat
  {
    if prior.None? then n else prior.value
  }

  /** The copy writes entries [0, k) and the fill entries [k, n). */
  predicate WritesFit(len: nat, k: nat, n: nat)
  {
    k <= len && n <= len
  }

  /** As written, the buffer goes stale: allocated for one variable, it is
      reused after a second variable is added, and setting a two-entry
      point, with either overload, writes past its end. */
  lemma StaleInitialPoint()
    ensures WritesFit(BufferAsWritten(None, 1), 1, 1)
    ensures !WritesFit(BufferAsWritten(Some(BufferAsWritten(None, 1)), 2), 2, 2)
  {
  }

  /** The length of the buffer with reallocation when it is too small. */
  function BufferCorrected(prior: Option<nat>, n: nat): (len: nat)
    ensures len >= n
    ensures prior.Some? && prior.value >= n ==> len == prior.value
  {
    if prior.None? || prior.value < n then n else prior.value
  }

  /** With reallocation every write of a call the source admits fits. */
  lemma CorrectedFits(prior: Option<nat>, k: nat, n: nat)
    requires k <= n
    ensures WritesFit(BufferCorrected(prior, n), k, n)
  {
  }

  // ---------------------------------------------------------------------
  // The invariant of the container and the operations that keep it
  // ---------------------------------------------------------------------

  /** The container's invariant: the arena is well numbered, nothing is
      marked deleted while the deletion counter is 0, and a size record
      that nothing has touched since it was counted agrees with a
      recount. */
  predicate Invariant(vs: seq<Variable>, cs: seq<Constraint>, obj: Option<Function>,
                      nextV: nat, nextC: nat, numDVars: nat, numDCons: nat,
                      consModed: bool, varsModed: bool, size: Option<Size>)
  {
    Arena(vs, cs, nextV, nextC)
    && (numDVars == 0 ==> forall i :: 0 <= i < |vs| ==> LiveVar(vs[i]))
    && (numDCons == 0 ==> forall j :: 0 <= j < |cs| ==> LiveCon(cs[j]))
    && (size.Some? && !consModed && !varsModed ==> size.value == Recount(vs, cs, obj, size.value.o.objType))
  }

  lemma NewVarKeeps(vs: seq<Variable>, cs: seq<Constraint>, obj: Option<Function>,
                    nextV: nat, nextC: nat, numDVars: nat, numDCons: nat,
                    consModed: bool, varsModed: bool, size: Option<Size>, v: Variable)
    requires Invariant(vs, cs, obj, nextV, nextC, numDVars, numDCons, consModed, varsModed, size)
    requires v == NewVar(nextV, |vs|, v.lb, v.ub, v.vtype, v.name)
    ensures Invariant(vs + [v], cs, obj, nextV + 1, nextC, numDVars, numDCons, consModed, true, size)
    ensures Linked(vs, cs) && Mentioning(cs, v.id) == [] ==> Linked(vs + [v], cs)
  {
    PushVar(vs, cs, nextV, nextC, v);
    if Linked(vs, cs) && Mentioning(cs, v.id) == [] {
      PushVarLinked(vs, cs, v);
    }
  }

  lemma NewConKeeps(vs: seq<Variable>, cs: seq<Constraint>, obj: Option<Function>,
                    nextV: nat, nextC: nat, numDVars: nat, numDCons: nat,
                    consModed: bool, varsModed: bool, size: Option<Size>, c: Constraint)
    requires Invariant(vs, cs, obj, nextV, nextC, numDVars, numDCons, consModed, varsModed, size)
    requires c.id == nextC && c.index == |cs| && c.state == NormalCons
    ensures Invariant(Attach(vs, c), cs + [c], obj, nextV, nextC + 1, numDVars, numDCons, true, varsModed, size)
    ensures Linked(vs, cs) ==> Linked(Attach(vs, c), cs + [c])
  {
    PushCon(vs, cs, nextV, nextC, c);
    var r := Attach(vs, c);
    assert forall i :: 0 <= i < |vs| ==> r[i].state == vs[i].state;
    if Linked(vs, cs) {
      AttachLinked(vs, cs, c);
    }
  }

  lemma MarkConKeeps(vs: seq<Variable>, cs: seq<Constraint>, obj: Option<Function>,
                     nextV: nat, nextC: nat, numDVars: nat, numDCons: nat,
                     consModed: bool, varsModed: bool, size: Option<Size>, j: nat)
    requires Invariant(vs, cs, obj, nextV, nextC, numDVars, numDCons, consModed, varsModed, size)
    requires j < |cs|
    ensures Invariant(vs, cs[j := cs[j].(state := DeletedCons)], obj, nextV, nextC, numDVars, numDCons + 1,
      consModed, varsModed, size)
    ensures Linked(vs, cs) ==> Linked(vs, cs[j := cs[j].(state := DeletedCons)])
  {
    if size.Some? {
      MarkKeepsCounts(vs, cs, obj, size.value.o.objType, |vs|, j);
    }
    forall x {
      MentioningState(cs, j, DeletedCons, x);
    }
  }

  lemma MarkVarKeeps(vs: seq<Variable>, cs: seq<Constraint>, obj: Option<Function>,
                     nextV: nat, nextC: nat, numDVars: nat, numDCons: nat,
                     consModed: bool, varsModed: bool, size: Option<Size>, i: nat)
    requires Invariant(vs, cs, obj, nextV, nextC, numDVars, numDCons, consModed, varsModed, size)
    requires i < |vs|
    ensures Invariant(vs[i := vs[i].(state := DeletedVar)], cs, obj, nextV, nextC, numDVars + 1, numDCons,
      consModed, varsModed, size)
    ensures Linked(vs, cs) ==> Linked(vs[i := vs[i].(state := DeletedVar)], cs)
  {
    if size.Some? {
      MarkKeepsCounts(vs, cs, obj, size.value.o.objType, i, |cs|);
    }
  }

  /** Detaching changes only back-references. */
  lemma DetachAllShape(vs: seq<Variable>, ds: seq<Constraint>)
    ensures var r := DetachAll(vs, ds);
      |r| == |vs| && forall i :: 0 <= i < |vs| ==>
        r[i].id == vs[i].id && r[i].index == vs[i].index && r[i].state == vs[i].state
  {
    var r := DetachAll(vs, ds);
    forall i | 0 <= i < |vs|
      ensures r[i].id == vs[i].id && r[i].index == vs[i].index && r[i].state == vs[i].state
    {
      DetachAllAt(vs, ds, i);
    }
  }

  /** After compaction every constraint is live and well placed. */
  lemma FilterLiveCons(cs: seq<Constraint>)
    ensures var r := ReindexCons(Filter(cs, LiveCon));
      ConsIndexed(r) && forall j :: 0 <= j < |r| ==> LiveCon(r[j])
  {
    FilterSpec(cs, LiveCon);
  }

  lemma DelConsKeeps(vs: seq<Variable>, cs: seq<Constraint>, obj: Option<Function>,
                     nextV: nat, nextC: nat, numDVars: nat, numDCons: nat,
                     consModed: bool, varsModed: bool, size: Option<Size>)
    requires Invariant(vs, cs, obj, nextV, nextC, numDVars, numDCons, consModed, varsModed, size)
    ensures Invariant(DetachAll(vs, Filter(cs, DeadCon)), ReindexCons(Filter(cs, LiveCon)), obj,
      nextV, nextC, numDVars, 0, true, varsModed, size)
    ensures Linked(vs, cs) ==> Linked(DetachAll(vs, Filter(cs, DeadCon)), ReindexCons(Filter(cs, LiveCon)))
  {
    DetachAllShape(vs, Filter(cs, DeadCon));
    FilterConIds(cs, nextC);
    FilterLiveCons(cs);
    if Linked(vs, cs) {
      CompactLinked(vs, cs, nextC);
    }
  }

  lemma DelVarsKeeps(vs: seq<Variable>, cs: seq<Constraint>, obj: Option<Function>,
                     nextV: nat, nextC: nat, numDVars: nat, numDCons: nat,
                     consModed: bool, varsModed: bool, size: Option<Size>)
    requires Invariant(vs, cs, obj, nextV, nextC, numDVars, numDCons, consModed, varsModed, size)
    ensures Invariant(ReindexVars(Filter(vs, LiveVar)), cs, obj, nextV, nextC, 0, numDCons,
      consModed, true, size)
    ensures Linked(vs, cs) ==> Linked(ReindexVars(Filter(vs, LiveVar)), cs)
  {
    FilterVarIds(vs, nextV);
    FilterSpec(vs, LiveVar);
    if Linked(vs, cs) {
      FilterVarsLinked(vs, cs);
    }
  }

  /** Any change to the variables that raises varsModed keeps the
      invariant, provided the arena and the deletion marks stay. */
  lemma VarsTouchedKeeps(vs: seq<Variable>, cs: seq<Constraint>, obj: Option<Function>,
                         nextV: nat, nextC: nat, numDVars: nat, numDCons: nat,
                         consModed: bool, varsModed: bool, size: Option<Size>,
                         vs': seq<Variable>, size': Option<Size>)
    requires Invariant(vs, cs, obj, nextV, nextC, numDVars, numDCons, consModed, varsModed, size)
    requires |vs'| == |vs|
    requires forall i :: 0 <= i < |vs| ==>
      vs'[i].id == vs[i].id && vs'[i].index == vs[i].index && vs'[i].state == vs[i].state
    ensures Invariant(vs', cs, obj, nextV, nextC, numDVars, numDCons, consModed, true, size')
  {
  }

  lemma RecountKeeps(vs: seq<Variable>, cs: seq<Constraint>, obj: Option<Function>,
                     nextV: nat, nextC: nat, numDVars: nat, numDCons: nat,
                     consModed: bool, varsModed: bool, size: Option<Size>, prev: FunctionType)
    requires Invariant(vs, cs, obj, nextV, nextC, numDVars, numDCons, consModed, varsModed, size)
    ensures Invariant(vs, cs, obj, nextV, nextC, numDVars, numDCons, false, false,
      Some(Recount(vs, cs, obj, prev)))
  {
  }

  /** delMarkedCons on values, when something is marked. */
  method DelConsStep(vs: seq<Variable>, cs: seq<Constraint>, obj: Option<Function>,
                     nextV: nat, nextC: nat, numDVars: nat, numDCons: nat,
                     consModed: bool, varsModed: bool, size: Option<Size>)
    returns (vs': seq<Variable>, cs': seq<Constraint>)
    requires Invariant(vs, cs, obj, nextV, nextC, numDVars, numDCons, consModed, varsModed, size)
    ensures cs' == ReindexCons(Filter(cs, LiveCon)) && vs' == DetachAll(vs, Filter(cs, DeadCon))
    ensures Invariant(vs', cs', obj, nextV, nextC, numDVars, 0, true, varsModed, size)
    ensures Linked(vs, cs) ==> Linked(vs', cs')
  {
    DelConsKeeps(vs, cs, obj, nextV, nextC, numDVars, numDCons, consModed, varsModed, size);
    vs', cs' := CompactCons(vs, cs);
  }

  /** delMarkedVars on values, when something is marked. */
  method DelVarsStep(vs: seq<Variable>, cs: seq<Constraint>, obj: Option<Function>,
                     nextV: nat, nextC: nat, numDVars: nat, numDCons: nat,
                     consModed: bool, varsModed: bool, size: Option<Size>)
    returns (vs': seq<Variable>)
    requires Invariant(vs, cs, obj, nextV, nextC, numDVars, numDCons, consModed, varsModed, size)
    ensures vs' == ReindexVars(Filter(vs, LiveVar))
    ensures Invariant(vs', cs, obj, nextV, nextC, 0, numDCons, consModed, true, size)
    ensures Linked(vs, cs) ==> Linked(vs', cs)
  {
    DelVarsKeeps(vs, cs, obj, nextV, nextC, numDVars, numDCons, consModed, varsModed, size);
    vs' := CompactVars(vs);
  }

  /** newConstraint on values: the constraint as created and the
      variables with their back-references extended. */
  method AddConStep(vs: seq<Variable>, cs: seq<Constraint>, obj: Option<Function>,
                    nextV: nat, nextC: nat, numDVars: nat, numDCons: nat,
                    consModed: bool, varsModed: bool, size: Option<Size>,
                    f: Option<Function>, lb: Bound, ub: Bound, name: string)
    returns (vs': seq<Variable>, c: Constraint)
    requires Invariant(vs, cs, obj, nextV, nextC, numDVars, numDCons, consModed, varsModed, size)
    ensures c == Constraint(nextC, |cs|, if f.Some? then f.value else Empty, lb, ub, name, NormalCons)
    ensures vs' == Attach(vs, c)
    ensures Invariant(vs', cs + [c], obj, nextV, nextC + 1, numDVars, numDCons, true, varsModed, size)
    ensures Linked(vs, cs) ==> Linked(vs', cs + [c])
  {
    c := Constraint(nextC, |cs|, if f.Some? then f.value else Empty, lb, ub, name, NormalCons);
    NewConKeeps(vs, cs, obj, nextV, nextC, numDVars, numDCons, consModed, varsModed, size, c);
    if f.Some? {
      vs' := AttachAll(vs, c);
    } else {
      vs' := vs;
      assert Attach(vs, c) == vs;
    }
  }

  /** setVarType on values: the retyped vector and the size record with
      one unit moved between the recount's buckets. */
  method RetypeStep(vs: seq<Variable>, cs: seq<Constraint>, obj: Option<Function>,
                    nextV: nat, nextC: nat, numDVars: nat, numDCons: nat,
                    consModed: bool, varsModed: bool, size: Option<Size>, i: nat, t: VarType)
    returns (vs': seq<Variable>, size': Option<Size>)
    requires Invariant(vs, cs, obj, nextV, nextC, numDVars, numDCons, consModed, varsModed, size)
    requires i < |vs|
    ensures vs' == vs[i := vs[i].(vtype := t)]
    ensures size.None? ==> size'.None?
    ensures size.Some? ==> size' == Some(size.value.(v := Retype(size.value.v, vs[i].vtype, t)))
    ensures size.Some? && size.value.v == VarTally(vs) && |vs| < UIntRange ==> size'.value.v == VarTally(vs')
    ensures Invariant(vs', cs, obj, nextV, nextC, numDVars, numDCons, consModed, true, size')
    ensures Linked(vs, cs) ==> Linked(vs', cs)
  {
    vs' := vs[i := vs[i].(vtype := t)];
    size' := size;
    if size.Some? {
      size' := Some(size.value.(v := Retype(size.value.v, vs[i].vtype, t)));
      if |vs| < UIntRange {
        VarTallyRetype(vs, i, t);
      }
    }
    VarsTouchedKeeps(vs, cs, obj, nextV, nextC, numDVars, numDCons, consModed, varsModed, size, vs', size');
  }

  // ---------------------------------------------------------------------
  // The container
  // ---------------------------------------------------------------------

  /** A mathematical program under construction: its variables and
      constraints in creation order, its objective, the identifier
      counters, the deletion counters, the two modification flags, the
      size record and the initial-point buffer. */
  class Problem {
    var vars: seq<Variable>
    var cons: seq<Constraint>
    var obj: Option<Function>
    var nextVId: nat
    var nextCId: nat
    var numDVars: nat
    var numDCons: nat
    var consModed: bool
    var varsModed: bool
    var size: Option<Size>
    var initialPt: array?<real>
    /** The objective type a newly created size record carries. */
    const freshObjType: FunctionType

    ghost predicate Valid()
      reads this
    {
      Invariant(vars, cons, obj, nextVId, nextCId, numDVars, numDCons, consModed, varsModed, size)
    }

    constructor (freshObjType: FunctionType)
      ensures Valid() && Linked(vars, cons)
      ensures vars == [] && cons == [] && obj.None? && size.None? && initialPt == null
      ensures nextVId == 0 && nextCId == 0 && numDVars == 0 && numDCons == 0
      ensures !consModed && !varsModed && this.freshObjType == freshObjType
    {
      vars := [];
      cons := [];
      obj := None;
      nextVId := 0;
      nextCId := 0;
      numDVars := 0;
      numDCons := 0;
      consModed := false;
      varsModed := false;
      size := None;
      initialPt := null;
      this.freshObjType := freshObjType;
    }

    /** A new variable gets the next identifier and the next position and
      goes last; the back-references stay exact unless a constraint
      already used that identifier. */
    method NewVariable(lb: Bound, ub: Bound, vtype: VarType, name: string) returns (v: Variable)
      requires Valid()
      modifies this
      ensures Valid()
      ensures v == NewVar(old(nextVId), old(|vars|), lb, ub, vtype, name)
      ensures vars == old(vars) + [v] && nextVId == old(nextVId) + 1 && varsModed
      ensures cons == old(cons) && obj == old(obj) && nextCId == old(nextCId) && size == old(size)
      ensures numDVars == old(numDVars) && numDCons == old(numDCons) && consModed == old(consModed)
      ensures initialPt == old(initialPt)
      ensures old(Linked(vars, cons)) && Mentioning(cons, v.id) == [] ==> Linked(vars, cons)
    {
      v := NewVar(nextVId, |vars|, lb, ub, vtype, name);
      NewVarKeeps(vars, cons, obj, nextVId, nextCId, numDVars, numDCons, consModed, varsModed, size, v);
      nextVId := nextVId + 1;
      vars := vars + [v];
      varsModed := true;
    }

    /** The same, named "var" followed by the position. */
    method NewVariableOfType(lb: Bound, ub: Bound, vtype: VarType) returns (v: Variable)
      requires Valid()
      modifies this
      ensures Valid()
      ensures v == NewVar(old(nextVId), old(|vars|), lb, ub, vtype, VarName(old(|vars|)))
      ensures vars == old(vars) + [v] && nextVId == old(nextVId) + 1 && varsModed
      ensures cons == old(cons) && obj == old(obj) && nextCId == old(nextCId) && size == old(size)
      ensures numDVars == old(numDVars) && numDCons == old(numDCons) && consModed == old(consModed)
      ensures initialPt == old(initialPt)
      ensures old(Linked(vars, cons)) && Mentioning(cons, v.id) == [] ==> Linked(vars, cons)
    {
      v := NewVariable(lb, ub, vtype, VarName(|vars|));
    }

    /** A free continuous variable, named by its position. */
    method NewContinuousVariable() returns (v: Variable)
      requires Valid()
      modifies this
      ensures Valid()
      ensures v == NewVar(old(nextVId), old(|vars|), NegInf, PosInf, Continuous, VarName(old(|vars|)))
      ensures vars == old(vars) + [v] && nextVId == old(nextVId) + 1 && varsModed
      ensures cons == old(cons) && obj == old(obj) && nextCId == old(nextCId) && size == old(size)
      ensures numDVars == old(numDVars) && numDCons == old(numDCons) && consModed == old(consModed)
      ensures initialPt == old(initialPt)
      ensures old(Linked(vars, cons)) && Mentioning(cons, v.id) == [] ==> Linked(vars, cons)
    {
      v := NewVariable(NegInf, PosInf, Continuous, VarName(|vars|));
    }

    /** A binary variable: bounds [0, 1]. */
    method NewBinaryVariable(name: string) returns (v: Variable)
      requires Valid()
      modifies this
      ensures Valid()
      ensures v == NewVar(old(nextVId), old(|vars|), Fin(0.0), Fin(1.0), Binary, name)
      ensures vars == old(vars) + [v] && nextVId == old(nextVId) + 1 && varsModed
      ensures cons == old(cons) && obj == old(obj) && nextCId == old(nextCId) && size == old(size)
      ensures numDVars == old(numDVars) && numDCons == old(numDCons) && consModed == old(consModed)
      ensures initialPt == old(initialPt)
      ensures old(Linked(vars, cons)) && Mentioning(cons, v.id) == [] ==> Linked(vars, cons)
    {
      v := NewVariable(Fin(0.0), Fin(1.0), Binary, name);
    }

    method NewBinaryVariableUnnamed() returns (v: Variable)
      requires Valid()
      modifies this
      ensures Valid()
      ensures v == NewVar(old(nextVId), old(|vars|), Fin(0.0), Fin(1.0), Binary, VarName(old(|vars|)))
      ensures vars == old(vars) + [v] && nextVId == old(nextVId) + 1 && varsModed
      ensures cons == old(cons) && obj == old(obj) && nextCId == old(nextCId) && size == old(size)
      ensures numDVars == old(numDVars) && numDCons == old(numDCons) && consModed == old(consModed)
      ensures initialPt == old(initialPt)
      ensures old(Linked(vars, cons)) && Mentioning(cons, v.id) == [] ==> Linked(vars, cons)
    {
      v := NewVariable(Fin(0.0), Fin(1.0), Binary, VarName(|vars|));
    }

    /** A new constraint gets the next identifier and the next position,
        goes last, and every variable its function uses gets it among its
        back-references; without a function it carries the empty one. */
    method NewConstraint(f: Option<Function>, lb: Bound, ub: Bound, name: string) returns (c: Constraint)
      requires Valid()
      modifies this
      ensures Valid()
      ensures c == Constraint(old(nextCId), old(|cons|), if f.Some? then f.value else Empty, lb, ub, name,
        NormalCons)
      ensures cons == old(cons) + [c] && nextCId == old(nextCId) + 1 && consModed
      ensures vars == Attach(old(vars), c)
      ensures obj == old(obj) && nextVId == old(nextVId) && size == old(size)
      ensures numDVars == old(numDVars) && numDCons == old(numDCons) && varsModed == old(varsModed)
      ensures initialPt == old(initialPt)
      ensures old(Linked(vars, cons)) ==> Linked(vars, cons)
    {
      vars, c := AddConStep(vars, cons, obj, nextVId, nextCId, numDVars, numDCons, consModed, varsModed,
        size, f, lb, ub, name);
      nextCId := nextCId + 1;
      cons := cons + [c];
      consModed := true;
    }

    /** The same, named "cons" followed by the position. */
    method NewConstraintUnnamed(f: Option<Function>, lb: Bound, ub: Bound) returns (c: Constraint)
      requires Valid()
      modifies this
      ensures Valid()
      ensures c == Constraint(old(nextCId), old(|cons|), if f.Some? then f.value else Empty, lb, ub,
        ConsName(old(|cons|)), NormalCons)
      ensures cons == old(cons) + [c] && nextCId == old(nextCId) + 1 && consModed
      ensures vars == Attach(old(vars), c)
      ensures obj == old(obj) && nextVId == old(nextVId) && size == old(size)
      ensures numDVars == old(numDVars) && numDCons == old(numDCons) && varsModed == old(varsModed)
      ensures initialPt == old(initialPt)
      ensures old(Linked(vars, cons)) ==> Linked(vars, cons)
    {
      c := NewConstraint(f, lb, ub, ConsName(|cons|));
    }

    /** A new objective replaces the old one; without a function it
        carries the empty one. */
    method NewObjective(f: Option<Function>)
      requires Valid()
      modifies this
      ensures Valid()
      ensures obj == Some(if f.Some? then f.value else Empty) && consModed
      ensures vars == old(vars) && cons == old(cons) && nextVId == old(nextVId) && nextCId == old(nextCId)
      ensures numDVars == old(numDVars) && numDCons == old(numDCons) && varsModed == old(varsModed)
      ensures size == old(size) && initialPt == old(initialPt)
    {
      obj := Some(if f.Some? then f.value else Empty);
      consModed := true;
    }

    /** Marks the constraint at position j deleted; nothing moves until
        delMarkedCons. */
    method MarkDeleteCons(j: nat)
      requires Valid() && j < |cons|
      modifies this
      ensures Valid()
      ensures cons == old(cons)[j := old(cons)[j].(state := DeletedCons)] && numDCons == old(numDCons) + 1
      ensures vars == old(vars) && obj == old(obj) && nextVId == old(nextVId) && nextCId == old(nextCId)
      ensures numDVars == old(numDVars) && consModed == old(consModed) && varsModed == old(varsModed)
      ensures size == old(size) && initialPt == old(initialPt)
      ensures old(Linked(vars, cons)) ==> Linked(vars, cons)
    {
      MarkConKeeps(vars, cons, obj, nextVId, nextCId, numDVars, numDCons, consModed, varsModed, size, j);
      cons := cons[j := cons[j].(state := DeletedCons)];
      numDCons := numDCons + 1;
    }

    method MarkDeleteVar(i: nat)
      requires Valid() && i < |vars|
      modifies this
      ensures Valid()
      ensures vars == old(vars)[i := old(vars)[i].(state := DeletedVar)] && numDVars == old(numDVars) + 1
      ensures cons == old(cons) && obj == old(obj) && nextVId == old(nextVId) && nextCId == old(nextCId)
      ensures numDCons == old(numDCons) && consModed == old(consModed) && varsModed == old(varsModed)
      ensures size == old(size) && initialPt == old(initialPt)
      ensures old(Linked(vars, cons)) ==> Linked(vars, cons)
    {
      MarkVarKeeps(vars, cons, obj, nextVId, nextCId, numDVars, numDCons, consModed, varsModed, size, i);
      vars := vars[i := vars[i].(state := DeletedVar)];
      numDVars := numDVars + 1;
    }

    /** Drops the constraints marked deleted, renumbers the others in
        order and takes the dropped ones out of the back-references; with
        nothing marked it does nothing at all. */
    method DelMarkedCons()
      requires Valid()
      modifies this
      ensures Valid()
      ensures cons == ReindexCons(Filter(old(cons), LiveCon))
      ensures vars == DetachAll(old(vars), Filter(old(cons), DeadCon))
      ensures numDCons == 0 && consModed == (old(consModed) || old(numDCons) > 0)
      ensures old(numDCons) == 0 ==> vars == old(vars) && cons == old(cons)
      ensures obj == old(obj) && nextVId == old(nextVId) && nextCId == old(nextCId)
      ensures numDVars == old(numDVars) && varsModed == old(varsModed)
      ensures size == old(size) && initialPt == old(initialPt)
      ensures old(Linked(vars, cons)) ==> Linked(vars, cons)
    {
      if numDCons > 0 {
        vars, cons := DelConsStep(vars, cons, obj, nextVId, nextCId, numDVars, numDCons, consModed, varsModed,
          size);
        consModed := true;
        numDCons := 0;
      } else {
        CompactConsIdle(vars, cons);
      }
    }

    /** Drops the variables marked deleted and renumbers the others in
        order; with nothing marked it does nothing at all. */
    method DelMarkedVars()
      requires Valid()
      modifies this
      ensures Valid()
      ensures vars == ReindexVars(Filter(old(vars), LiveVar))
      ensures numDVars == 0 && varsModed == (old(varsModed) || old(numDVars) > 0)
      ensures old(numDVars) == 0 ==> vars == old(vars)
      ensures cons == old(cons) && obj == old(obj) && nextVId == old(nextVId) && nextCId == old(nextCId)
      ensures numDCons == old(numDCons) && consModed == old(consModed)
      ensures size == old(size) && initialPt == old(initialPt)
      ensures old(Linked(vars, cons)) ==> Linked(vars, cons)
    {
      if numDVars > 0 {
        vars := DelVarsStep(vars, cons, obj, nextVId, nextCId, numDVars, numDCons, consModed, varsModed, size);
        varsModed := true;
        numDVars := 0;
      } else {
        CompactVarsIdle(vars);
      }
    }

    /** Changes the type of the variable at position i.  A size record, if
        any, moves one unit between the buckets the recount uses, so
        counters that agreed with a recount still do. */
    method SetVarType(i: nat, t: VarType)
      requires Valid() && i < |vars|
      modifies this
      ensures Valid()
      ensures vars == old(vars)[i := old(vars)[i].(vtype := t)] && varsModed
      ensures old(size).None? ==> size.None?
      ensures old(size).Some? ==> size == Some(old(size).value.(v := Retype(old(size).value.v, old(vars)[i].vtype, t)))
      ensures old(size).Some? && old(size).value.v == old(VarTally(vars)) && |vars| < UIntRange ==>
        size.value.v == VarTally(vars)
      ensures cons == old(cons) && obj == old(obj) && nextVId == old(nextVId) && nextCId == old(nextCId)
      ensures numDVars == old(numDVars) && numDCons == old(numDCons) && consModed == old(consModed)
      ensures initialPt == old(initialPt)
      ensures old(Linked(vars, cons)) ==> Linked(vars, cons)
    {
      vars, size := RetypeStep(vars, cons, obj, nextVId, nextCId, numDVars, numDCons, consModed, varsModed,
        size, i, t);
      varsModed := true;
    }

    /** Recounts when asked to, when there is no record yet or when
        anything changed since the last count; either way both flags end
        false and the record agrees with a recount. */
    method CalculateSize(shouldRedo: bool)
      requires Valid()
      modifies this
      ensures Valid() && !consModed && !varsModed && size.Some?
      ensures size.value == Recount(vars, cons, obj, size.value.o.objType)
      ensures old(size).None? || shouldRedo || old(consModed) || old(varsModed) ==>
        size == Some(Recount(vars, cons, obj,
          if old(size).Some? then old(size).value.o.objType else freshObjType))
      ensures old(size).Some? && !shouldRedo && !old(consModed) && !old(varsModed) ==> size == old(size)
      ensures vars == old(vars) && cons == old(cons) && obj == old(obj)
      ensures nextVId == old(nextVId) && nextCId == old(nextCId)
      ensures numDVars == old(numDVars) && numDCons == old(numDCons) && initialPt == old(initialPt)
    {
      var prev := if size.Some? then size.value.o.objType else freshObjType;
      if shouldRedo || size.None? || consModed || varsModed {
        RecountKeeps(vars, cons, obj, nextVId, nextCId, numDVars, numDCons, consModed, varsModed, size, prev);
        var vt := CountVarTypes(vars);
        var ct := CountConsTypes(cons);
        size := Some(Size(|vars|, |cons|, if obj.Some? then 1 else 0, vt, ct, ObjTally(obj, prev)));
      }
      consModed := false;
      varsModed := false;
    }

    /** findType: counts if need be, then classifies; the answer describes
        the program as it now is. */
    method FindType() returns (t: ProblemType)
      requires Valid()
      modifies this
      ensures Valid() && !consModed && !varsModed && size.Some?
      ensures size.value == Recount(vars, cons, obj, size.value.o.objType)
      ensures t == Classify(size.value, false)
      ensures (t == LP || t == MILP) <==> AllLinear(cons) && LinearObj(size.value.o.objType)
      ensures (t == QP || t == MIQP) <==> AllLinear(cons) && QuadraticObj(size.value.o.objType)
      ensures (t == QCQP || t == MIQCQP) <==>
        !AllLinear(cons) && AllQuadratic(cons) && QuadraticObj(size.value.o.objType)
      ensures IsMixed(t) <==> HasIntegerVar(vars)
      ensures t != POLYP && t != MIPOLYP
      ensures vars == old(vars) && cons == old(cons) && obj == old(obj)
      ensures nextVId == old(nextVId) && nextCId == old(nextCId)
      ensures numDVars == old(numDVars) && numDCons == old(numDCons) && initialPt == old(initialPt)
    {
      CalculateSize(false);
      var polyp := IsPolyp(cons, obj);
      t := Classify(size.value, polyp);
      ClassifyRecount(vars, cons, obj, size.value.o.objType);
    }

    /** Sets the initial point to the first k entries of x followed by
        zeros, reallocating the buffer when there is none or when it is
        shorter than the number of variables; with no x or no variables it
        does nothing. */
    method SetInitialPoint(x: Option<seq<real>>, k: nat)
      requires Valid()
      requires x.Some? && |vars| > 0 ==> k <= |x.value| && k <= |vars|
      modifies this, initialPt
      ensures Valid()
      ensures vars == old(vars) && cons == old(cons) && obj == old(obj) && size == old(size)
      ensures nextVId == old(nextVId) && nextCId == old(nextCId)
      ensures numDVars == old(numDVars) && numDCons == old(numDCons)
      ensures consModed == old(consModed) && varsModed == old(varsModed)
      ensures x.None? || |vars| == 0 ==>
        initialPt == old(initialPt) && (initialPt != null ==> initialPt[..] == old(initialPt[..]))
      ensures x.Some? && |vars| > 0 ==>
        initialPt != null
        && initialPt.Length == BufferCorrected(if old(initialPt) == null then None else Some(old(initialPt.Length)), |vars|)
        && initialPt[..|vars|] == x.value[..k] + Zeros(|vars| - k)
      ensures x.Some? && |vars| > 0 && old(initialPt) != null && old(initialPt.Length) >= |vars| ==>
        initialPt == old(initialPt) && initialPt[|vars|..] == old(initialPt[|vars|..])
      ensures x.Some? && |vars| > 0 && (old(initialPt) == null || old(initialPt.Length) < |vars|) ==>
        fresh(initialPt)
    {
      if x.None? || |vars| == 0 {
        return;
      }
      if initialPt == null || initialPt.Length < |vars| {
        initialPt := new real[|vars|];
      }
      FillPoint(initialPt, x.value, k, |vars|);
    }

    /** Sets the initial point to the first |vars| entries of x. */
    method SetInitialPointAll(x: Option<seq<real>>)
      requires Valid()
      requires x.Some? ==> |vars| <= |x.value|
      modifies this, initialPt
      ensures Valid()
      ensures vars == old(vars) && cons == old(cons) && obj == old(obj) && size == old(size)
      ensures nextVId == old(nextVId) && nextCId == old(nextCId)
      ensures numDVars == old(numDVars) && numDCons == old(numDCons)
      ensures consModed == old(consModed) && varsModed == old(varsModed)
      ensures x.None? || |vars| == 0 ==>
        initialPt == old(initialPt) && (initialPt != null ==> initialPt[..] == old(initialPt[..]))
      ensures x.Some? && |vars| > 0 ==>
        initialPt != null
        && initialPt.Length == BufferCorrected(if old(initialPt) == null then None else Some(old(initialPt.Length)), |vars|)
        && initialPt[..|vars|] == x.value[..|vars|]
      ensures x.Some? && |vars| > 0 && old(initialPt) != null && old(initialPt.Length) >= |vars| ==>
        initialPt == old(initialPt) && initialPt[|vars|..] == old(initialPt[|vars|..])
      ensures x.Some? && |vars| > 0 && (old(initialPt) == null || old(initialPt.Length) < |vars|) ==>
        fresh(initialPt)
    {
      SetInitialPoint(x, |vars|);
      if x.Some? && |vars| > 0 {
        assert x.value[..|vars|] + Zeros(0) == x.value[..|vars|];
      }
    }
  }
}
