/** Detection of constraints amenable to the perspective reformulation.

    A constraint qualifies when its nonlinear content is switched on by a
    single 0/1 indicator variable b: every continuous variable v of the
    nonlinear part is forced to 0 when b is 0, as certified by two-variable
    linear constraints over v and b (the "witnesses").  The detector runs a
    fixed chain of boolean checks per constraint and appends every accepted
    constraint, its indicator and the names of its witnesses to four
    parallel lists. */
module Perspective {
  import opened OrderedSets
  import opened Entities
  import opened Seqs

  /** The read-only view of the problem the detector runs on: the
      constraints in index order, and the variables and constraints by id
      (the targets of a function's variables and of a variable's
      back-references). */
  datatype Snapshot = Snapshot(
    cons: seq<Constraint>,
    vars: map<VarId, Variable>,
    byId: map<ConId, Constraint>)

  /** Every back-reference of a variable names a constraint. */
  ghost predicate RefsResolve(s: Snapshot)
  {
    forall v, i :: v in s.vars && 0 <= i < |s.vars[v].cons| ==> s.vars[v].cons[i] in s.byId
  }

  /** Every variable of a linear part names a variable. */
  ghost predicate LinearKnown(s: Snapshot)
  {
    forall k :: k in s.byId ==> LinVars(s.byId[k].f) <= s.vars.Keys
  }

  /** Every reference resolves. */
  ghost predicate WellFormed(s: Snapshot)
  {
    RefsResolve(s) && LinearKnown(s)
  }

  /** The function is consistent and its variables are known. */
  ghost predicate FunKnown(s: Snapshot, f: Function)
  {
    Consistent(f) && f.vars <= s.vars.Keys
  }

  predicate AllKnown(s: Snapshot, vs: seq<VarId>)
  {
    forall i :: 0 <= i < |vs| ==> vs[i] in s.vars
  }

  lemma KnownSorted(s: Snapshot, xs: set<VarId>)
    requires xs <= s.vars.Keys
    ensures AllKnown(s, Sorted(xs))
  {
    SortedSpec(xs);
  }

  // ---------------------------------------------------------------------
  // Variable types

  /** A 0/1 variable: Binary, ImplBin, or an Integer with bounds exactly
      [0, 1]. */
  predicate IsBinaryLike(v: Variable)
  {
    v.vtype == Binary || v.vtype == ImplBin ||
    (v.vtype == Integer && v.lb.IsZero() && v.ub == Fin(1.0))
  }

  /** A type the detector does not handle: a general integer, or a type
      outside the cases it lists (ImplInt). */
  predicate IsRefusedType(v: Variable)
  {
    v.vtype == ImplInt ||
    (v.vtype == Integer && !(v.lb.IsZero() && v.ub == Fin(1.0)))
  }

  datatype TypeCheck = Refused | NoIndicator | Indicator(bin: VarId)

  /** The type tally over `vs` in visiting order, `seen` being the 0/1
      variable met so far: a refused type or a second 0/1 variable ends
      it with Refused. */
  function Tally(s: Snapshot, vs: seq<VarId>, seen: Option<VarId>): TypeCheck
    requires AllKnown(s, vs)
  {
    if vs == [] then
      match seen
      case Some(b) => Indicator(b)
      case None => NoIndicator
    else
      var v := s.vars[vs[0]];
      if IsRefusedType(v) then Refused
      else if !IsBinaryLike(v) then Tally(s, vs[1..], seen)
      else if seen.Some? then Refused
      else Tally(s, vs[1..], Some(vs[0]))
  }

  /** What the tally decides for a function's variables. */
  function VarTypes(s: Snapshot, f: Function): TypeCheck
    requires f.vars <= s.vars.Keys
  {
    KnownSorted(s, f.vars);
    Tally(s, Sorted(f.vars), None)
  }

  /** The tally ends without an indicator iff none was seen before and
      every visited variable is continuous. */
  lemma {:induction false} TallyNoIndicator(s: Snapshot, vs: seq<VarId>, seen: Option<VarId>)
    requires AllKnown(s, vs)
    ensures Tally(s, vs, seen).NoIndicator? <==>
      seen.None? && forall i :: 0 <= i < |vs| ==> s.vars[vs[i]].vtype == Continuous
  {
    if vs != [] {
      var rest := vs[1..];
      assert forall i :: 1 <= i < |vs| ==> vs[i] == rest[i - 1];
      var v := s.vars[vs[0]];
      if IsRefusedType(v) {
      } else if !IsBinaryLike(v) {
        TallyNoIndicator(s, rest, seen);
      } else if seen.None? {
        TallyNoIndicator(s, rest, Some(vs[0]));
      }
    }
  }

  /** The indicator the tally reports is the 0/1 variable seen before or
      one met on the way, and every other visited variable is
      continuous. */
  lemma {:induction false} TallyIndicator(s: Snapshot, vs: seq<VarId>, seen: Option<VarId>)
    requires AllKnown(s, vs)
    ensures Tally(s, vs, seen).Indicator? ==>
      var b := Tally(s, vs, seen).bin;
      (seen.Some? ==> b == seen.value) &&
      (seen.None? ==> exists i :: 0 <= i < |vs| && vs[i] == b && IsBinaryLike(s.vars[vs[i]])) &&
      forall i :: 0 <= i < |vs| && vs[i] != b ==> s.vars[vs[i]].vtype == Continuous
  {
    if vs != [] {
      var rest := vs[1..];
      assert forall i :: 1 <= i < |vs| ==> vs[i] == rest[i - 1];
      var v := s.vars[vs[0]];
      if IsRefusedType(v) {
      } else if !IsBinaryLike(v) {
        TallyIndicator(s, rest, seen);
        if Tally(s, vs, seen).Indicator? && seen.None? {
          var i :| 0 <= i < |rest| && rest[i] == Tally(s, vs, seen).bin && IsBinaryLike(s.vars[rest[i]]);
          assert vs[i + 1] == rest[i];
        }
      } else if seen.None? {
        TallyIndicator(s, rest, Some(vs[0]));
      }
    }
  }

  /** The tally refuses nothing exactly when no visited variable has a
      refused type, at most one of them is a 0/1 variable, and none is
      when one was seen before. */
  lemma {:induction false} TallyAdmits(s: Snapshot, vs: seq<VarId>, seen: Option<VarId>)
    requires AllKnown(s, vs)
    ensures !Tally(s, vs, seen).Refused? <==>
      (forall i :: 0 <= i < |vs| ==> !IsRefusedType(s.vars[vs[i]])) &&
      (forall i, j :: 0 <= i < j < |vs| && IsBinaryLike(s.vars[vs[i]]) ==> !IsBinaryLike(s.vars[vs[j]])) &&
      (seen.Some? ==> forall i :: 0 <= i < |vs| ==> !IsBinaryLike(s.vars[vs[i]]))
  {
    if vs != [] {
      var rest := vs[1..];
      assert forall i :: 1 <= i < |vs| ==> vs[i] == rest[i - 1];
      var v := s.vars[vs[0]];
      if IsRefusedType(v) {
      } else if !IsBinaryLike(v) {
        TallyAdmits(s, rest, seen);
        if !Tally(s, vs, seen).Refused? {
          forall i, j | 0 <= i < j < |vs| && IsBinaryLike(s.vars[vs[i]])
            ensures !IsBinaryLike(s.vars[vs[j]])
          {
            assert vs[i] == rest[i - 1] && vs[j] == rest[j - 1];
          }
        }
      } else if seen.None? {
        TallyAdmits(s, rest, Some(vs[0]));
        if !Tally(s, vs, seen).Refused? {
          forall i, j | 0 <= i < j < |vs| && IsBinaryLike(s.vars[vs[i]])
            ensures !IsBinaryLike(s.vars[vs[j]])
          {
            assert vs[j] == rest[j - 1];
            if i > 0 {
              assert vs[i] == rest[i - 1];
            }
          }
        } else {
          assert IsBinaryLike(s.vars[vs[0]]);
        }
      } else {
        assert IsBinaryLike(s.vars[vs[0]]);
      }
    }
  }

  /** No indicator exactly when every variable of the function is
      continuous. */
  lemma VarTypesNoIndicator(s: Snapshot, f: Function)
    requires f.vars <= s.vars.Keys
    ensures VarTypes(s, f).NoIndicator? <==>
      forall v :: v in f.vars ==> s.vars[v].vtype == Continuous
  {
    var vs := Sorted(f.vars);
    SortedSpec(f.vars);
    KnownSorted(s, f.vars);
    TallyNoIndicator(s, vs, None);
    assert forall v :: v in f.vars ==> exists i :: 0 <= i < |vs| && vs[i] == v;
  }

  /** An indicator is a 0/1 variable of the function, and every other
      variable of the function is continuous. */
  lemma VarTypesIndicator(s: Snapshot, f: Function)
    requires f.vars <= s.vars.Keys
    ensures VarTypes(s, f).Indicator? ==>
      var b := VarTypes(s, f).bin;
      b in f.vars && IsBinaryLike(s.vars[b]) &&
      forall v :: v in f.vars && v != b ==> s.vars[v].vtype == Continuous
  {
    var vs := Sorted(f.vars);
    SortedSpec(f.vars);
    KnownSorted(s, f.vars);
    TallyIndicator(s, vs, None);
    assert forall v :: v in f.vars ==> exists i :: 0 <= i < |vs| && vs[i] == v;
  }

  /** Nothing is refused exactly when no variable of the function has a
      refused type and at most one is a 0/1 variable. */
  lemma VarTypesAdmits(s: Snapshot, f: Function)
    requires f.vars <= s.vars.Keys
    ensures !VarTypes(s, f).Refused? <==>
      (forall v :: v in f.vars ==> !IsRefusedType(s.vars[v])) &&
      (forall v, w :: v in f.vars && w in f.vars && IsBinaryLike(s.vars[v]) && IsBinaryLike(s.vars[w]) ==> v == w)
  {
    var vs := Sorted(f.vars);
    SortedSpec(f.vars);
    KnownSorted(s, f.vars);
    TallyAdmits(s, vs, None);
    if !VarTypes(s, f).Refused? {
      AdmittedSet(s, f.vars, vs);
    } else {
      RefusedSet(s, f.vars, vs);
    }
  }

  /** Index-wise admission of an enumeration carries over to its set. */
  lemma AdmittedSet(s: Snapshot, xs: set<VarId>, vs: seq<VarId>)
    requires AllKnown(s, vs) && xs <= s.vars.Keys
    requires forall x :: x in xs <==> x in vs
    requires forall i :: 0 <= i < |vs| ==> !IsRefusedType(s.vars[vs[i]])
    requires forall i, j :: 0 <= i < j < |vs| && IsBinaryLike(s.vars[vs[i]]) ==> !IsBinaryLike(s.vars[vs[j]])
    ensures forall v :: v in xs ==> !IsRefusedType(s.vars[v])
    ensures forall v, w :: v in xs && w in xs && IsBinaryLike(s.vars[v]) && IsBinaryLike(s.vars[w]) ==> v == w
  {
    forall v | v in xs
      ensures !IsRefusedType(s.vars[v])
    {
      var i :| 0 <= i < |vs| && vs[i] == v;
    }
    forall v, w | v in xs && w in xs && IsBinaryLike(s.vars[v]) && IsBinaryLike(s.vars[w])
      ensures v == w
    {
      var i :| 0 <= i < |vs| && vs[i] == v;
      var j :| 0 <= j < |vs| && vs[j] == w;
      if i < j {
        assert IsBinaryLike(s.vars[vs[i]]);
      } else if j < i {
        assert IsBinaryLike(s.vars[vs[j]]);
      }
    }
  }

  /** An index-wise refusal of an ascending enumeration carries over to
      its set. */
  lemma RefusedSet(s: Snapshot, xs: set<VarId>, vs: seq<VarId>)
    requires AllKnown(s, vs) && xs <= s.vars.Keys && Ascending(vs)
    requires forall x :: x in xs <==> x in vs
    requires !((forall i :: 0 <= i < |vs| ==> !IsRefusedType(s.vars[vs[i]])) &&
               (forall i, j :: 0 <= i < j < |vs| && IsBinaryLike(s.vars[vs[i]]) ==> !IsBinaryLike(s.vars[vs[j]])))
    ensures !((forall v :: v in xs ==> !IsRefusedType(s.vars[v])) &&
              (forall v, w :: v in xs && w in xs && IsBinaryLike(s.vars[v]) && IsBinaryLike(s.vars[w]) ==> v == w))
  {
    if exists i :: 0 <= i < |vs| && IsRefusedType(s.vars[vs[i]]) {
      var i :| 0 <= i < |vs| && IsRefusedType(s.vars[vs[i]]);
      assert vs[i] in xs;
    } else {
      var i, j :| 0 <= i < j < |vs| && IsBinaryLike(s.vars[vs[i]]) && IsBinaryLike(s.vars[vs[j]]);
      assert vs[i] in xs && vs[j] in xs && vs[i] != vs[j];
    }
  }

  /** What the tally lets through, in terms of the function's variable
      set: no indicator exactly when every variable is continuous; an
      indicator is a 0/1 variable of the function and every other variable
      is continuous; nothing is refused exactly when no variable has a
      refused type and at most one is a 0/1 variable. */
  lemma VarTypesSpec(s: Snapshot, f: Function)
    requires f.vars <= s.vars.Keys
    ensures VarTypes(s, f).NoIndicator? <==>
      forall v :: v in f.vars ==> s.vars[v].vtype == Continuous
    ensures VarTypes(s, f).Indicator? ==>
      var b := VarTypes(s, f).bin;
      b in f.vars && IsBinaryLike(s.vars[b]) &&
      forall v :: v in f.vars && v != b ==> s.vars[v].vtype == Continuous
    ensures !VarTypes(s, f).Refused? <==>
      (forall v :: v in f.vars ==> !IsRefusedType(s.vars[v])) &&
      (forall v, w :: v in f.vars && w in f.vars && IsBinaryLike(s.vars[v]) && IsBinaryLike(s.vars[w]) ==> v == w)
  {
    VarTypesNoIndicator(s, f);
    VarTypesIndicator(s, f);
    VarTypesAdmits(s, f);
  }

  /** The tally as the detector runs it: one pass over the function's
      variables that stops as soon as a refused type is seen or the count
      of 0/1 variables reaches 2, remembering the last 0/1 variable seen. */
  method CheckVarTypes(s: Snapshot, f: Function) returns (ok: bool, binvar: Option<VarId>)
    requires f.vars <= s.vars.Keys
    ensures ok <==> !VarTypes(s, f).Refused?
    ensures ok && VarTypes(s, f).Indicator? ==> binvar == Some(VarTypes(s, f).bin)
    ensures ok && VarTypes(s, f).NoIndicator? ==> binvar == None
  {
    var vs := Sorted(f.vars);
    KnownSorted(s, f.vars);
    var numbins, numintbins := 0, 0;
    binvar := None;
    for i := 0 to |vs|
      invariant numbins >= 0 && numintbins >= 0 && numbins + numintbins <= 1
      invariant binvar.None? <==> numbins + numintbins == 0
      invariant Tally(s, vs, None) == Tally(s, vs[i..], binvar)
    {
      DropStep(vs, i);
      var v := s.vars[vs[i]];
      match v.vtype {
        case Binary =>
          binvar := Some(vs[i]);
          numbins := numbins + 1;
          if numbins + numintbins >= 2 {
            return false, binvar;
          }
        case ImplBin =>
          binvar := Some(vs[i]);
          numbins := numbins + 1;
          if numbins + numintbins >= 2 {
            return false, binvar;
          }
        case Integer =>
          if v.lb.IsZero() && v.ub == Fin(1.0) {
            binvar := Some(vs[i]);
            numintbins := numintbins + 1;
            if numbins + numintbins >= 2 {
              return false, binvar;
            }
          } else {
            return false, binvar;
          }
        case Continuous =>
        case ImplInt =>
          return false, binvar;
      }
    }
    assert vs[|vs|..] == [];
    ok := true;
  }

  // ---------------------------------------------------------------------
  // Separability

  /** A nonzero term of the quadratic part over two different variables. */
  predicate HasCrossTerm(q: map<(VarId, VarId), real>)
  {
    exists p :: p in q && q[p] != 0.0 && p.0 != p.1
  }

  /** Whether the constraint's nonlinear content is separable from the
      indicator b.  With a quadratic part only that part is consulted. */
  function Separable(c: Constraint, b: VarId): bool
  {
    match c.f.quad
    case Some(q) => b !in q.vars && !HasCrossTerm(q.terms)
    case None => c.f.nonlin.Some? && b !in c.f.nonlin.value
  }

  /** What a caller learns from a positive verdict: b lies outside the
      quadratic part, and outside the nonlinear part when there is no
      quadratic one; every nonzero quadratic term is a square.  A function
      with neither part is never separable. */
  lemma SeparableSpec(c: Constraint, b: VarId)
    ensures Separable(c, b) ==>
      b !in QuadVars(c.f) && (c.f.quad.None? ==> b !in NonlinVars(c.f))
    ensures Separable(c, b) && c.f.quad.Some? ==>
      forall p :: p in c.f.quad.value.terms && c.f.quad.value.terms[p] != 0.0 ==> p.0 == p.1
    ensures c.f.quad.None? && c.f.nonlin.None? ==> !Separable(c, b)
  {
  }

  /** With a quadratic part present, the nonlinear part never changes the
      verdict. */
  lemma SeparableIgnoresNonlinear(c: Constraint, b: VarId, n: Option<set<VarId>>)
    requires c.f.quad.Some?
    ensures Separable(c, b) == Separable(c.(f := c.f.(nonlin := n)), b)
  {
  }

  // ---------------------------------------------------------------------
  // Bound witnesses

  datatype Side = Lower | Upper

  /** A linear constraint over exactly two variables in which both v and b
      have a nonzero coefficient. */
  predicate Couples(c: Constraint, v: VarId, b: VarId)
  {
    c.f.ftype == Linear && NumVars(c.f) == 2 &&
    Weight(c.f, v) != 0.0 && Weight(c.f, b) != 0.0
  }

  /** The sign-and-bound table: which side of v a coupling constraint
      fixes at 0, by the sign of v's coefficient and which constraint
      bound is 0. */
  predicate Certifies(c: Constraint, v: VarId, side: Side)
  {
    var cv := Weight(c.f, v);
    match side
    case Lower => (cv < 0.0 && c.ub.IsZero()) || (cv > 0.0 && c.lb.IsZero())
    case Upper => (cv < 0.0 && c.lb.IsZero()) || (cv > 0.0 && c.ub.IsZero())
  }

  predicate Witnesses(c: Constraint, v: VarId, b: VarId, side: Side)
  {
    Couples(c, v, b) && Certifies(c, v, side)
  }

  /** The first constraint of `cs` that is a `side` witness for v under b. */
  function FirstWitness(s: Snapshot, cs: seq<ConId>, v: VarId, b: VarId, side: Side): (r: Option<ConId>)
    requires forall i :: 0 <= i < |cs| ==> cs[i] in s.byId
    ensures r.Some? ==> r.value in s.byId
  {
    if cs == [] then None
    else if Witnesses(s.byId[cs[0]], v, b, side) then Some(cs[0])
    else FirstWitness(s, cs[1..], v, b, side)
  }

  /** The witness found is the one at the first position of `cs` that is
      a witness: no earlier position is; none found means no position is. */
  lemma {:induction false} FirstWitnessSpec(s: Snapshot, cs: seq<ConId>, v: VarId, b: VarId, side: Side)
    requires forall i :: 0 <= i < |cs| ==> cs[i] in s.byId
    ensures var r := FirstWitness(s, cs, v, b, side);
      r.Some? ==>
        exists k :: 0 <= k < |cs| && cs[k] == r.value && Witnesses(s.byId[cs[k]], v, b, side) &&
          forall i :: 0 <= i < k ==> !Witnesses(s.byId[cs[i]], v, b, side)
    ensures FirstWitness(s, cs, v, b, side).None? ==>
      forall i :: 0 <= i < |cs| ==> !Witnesses(s.byId[cs[i]], v, b, side)
  {
    if cs != [] {
      var rest := cs[1..];
      assert forall i :: 1 <= i < |cs| ==> cs[i] == rest[i - 1];
      FirstWitnessSpec(s, rest, v, b, side);
      if !Witnesses(s.byId[cs[0]], v, b, side) && FirstWitness(s, rest, v, b, side).Some? {
        var k :| 0 <= k < |rest| && rest[k] == FirstWitness(s, rest, v, b, side).value &&
          Witnesses(s.byId[rest[k]], v, b, side) &&
          forall i :: 0 <= i < k ==> !Witnesses(s.byId[rest[i]], v, b, side);
        assert cs[k + 1] == rest[k];
      }
    }
  }

  /** Over an ascending sequence the first witness is the least-id one. */
  lemma FirstWitnessLeast(s: Snapshot, cs: seq<ConId>, v: VarId, b: VarId, side: Side)
    requires (forall i :: 0 <= i < |cs| ==> cs[i] in s.byId) && Ascending(cs)
    ensures var r := FirstWitness(s, cs, v, b, side);
      r.Some? ==>
        r.value in cs && Witnesses(s.byId[r.value], v, b, side) &&
        forall i :: 0 <= i < |cs| && cs[i] < r.value ==> !Witnesses(s.byId[cs[i]], v, b, side)
  {
    FirstWitnessSpec(s, cs, v, b, side);
  }

  /** The back-references of v in the order they are visited. */
  function BackRefs(s: Snapshot, v: VarId): (cs: seq<ConId>)
    requires RefsResolve(s) && v in s.vars
    ensures forall i :: 0 <= i < |cs| ==> cs[i] in s.byId
  {
    s.vars[v].cons
  }

  /** When the back-references come in ascending id order, the first
      witness among them is the least-id one. */
  lemma LeastWitnessSpec(s: Snapshot, v: VarId, b: VarId, side: Side)
    requires RefsResolve(s) && v in s.vars && Ascending(s.vars[v].cons)
    ensures var c := FirstWitness(s, BackRefs(s, v), v, b, side);
      c.Some? ==>
        c.value in s.vars[v].cons && Witnesses(s.byId[c.value], v, b, side) &&
        forall d :: d in s.vars[v].cons && d < c.value ==> !Witnesses(s.byId[d], v, b, side)
  {
    FirstWitnessLeast(s, BackRefs(s, v), v, b, side);
  }

  /** The names reported for one controlled variable. */
  datatype Witness = Witness(lower: string, upper: string)

  /** The name carried by a default-constructed constraint, reported when
      the lower side comes from the variable's own lower bound. */
  const PlaceholderName: string := ""

  /** The bound-witness verdict for v under indicator b: an upper witness
      is needed, and a lower witness or a lower bound of 0 on v itself;
      the first witness of each side (in back-reference order) is the one
      reported. */
  function VarWitness(s: Snapshot, v: VarId, b: VarId): Option<Witness>
    requires RefsResolve(s) && v in s.vars
  {
    var cs := BackRefs(s, v);
    var lo := FirstWitness(s, cs, v, b, Lower);
    var up := FirstWitness(s, cs, v, b, Upper);
    if up.Some? && (lo.Some? || s.vars[v].lb.IsZero()) then
      Some(Witness(if lo.Some? then s.byId[lo.value].name else PlaceholderName,
                   s.byId[up.value].name))
    else None
  }

  /** The verdict in terms of the witnesses themselves, in any visiting
      order: success iff an upper witness exists and a lower witness exists
      or v's own lower bound is 0.  The names reported are those of the
      witness of each side met first among the back-references, and the
      placeholder when v's lower bound stood in. */
  lemma VarWitnessSpec(s: Snapshot, v: VarId, b: VarId)
    requires RefsResolve(s) && v in s.vars
    ensures VarWitness(s, v, b).Some? <==>
      (exists c :: c in s.vars[v].cons && Witnesses(s.byId[c], v, b, Upper)) &&
      ((exists c :: c in s.vars[v].cons && Witnesses(s.byId[c], v, b, Lower)) ||
       s.vars[v].lb.IsZero())
    ensures VarWitness(s, v, b).Some? ==>
      var cs := s.vars[v].cons;
      exists k :: 0 <= k < |cs| && Witnesses(s.byId[cs[k]], v, b, Upper) &&
        VarWitness(s, v, b).value.upper == s.byId[cs[k]].name &&
        forall i :: 0 <= i < k ==> !Witnesses(s.byId[cs[i]], v, b, Upper)
    ensures VarWitness(s, v, b).Some? ==>
      var cs := s.vars[v].cons;
      (exists k :: 0 <= k < |cs| && Witnesses(s.byId[cs[k]], v, b, Lower) &&
        VarWitness(s, v, b).value.lower == s.byId[cs[k]].name &&
        forall i :: 0 <= i < k ==> !Witnesses(s.byId[cs[i]], v, b, Lower)) ||
      ((forall i :: 0 <= i < |cs| ==> !Witnesses(s.byId[cs[i]], v, b, Lower)) &&
        s.vars[v].lb.IsZero() && VarWitness(s, v, b).value.lower == PlaceholderName)
  {
    FirstWitnessSpec(s, BackRefs(s, v), v, b, Lower);
    FirstWitnessSpec(s, BackRefs(s, v), v, b, Upper);
  }

  /** With back-references in ascending id order, the names reported are
      those of the least-id witness of each side. */
  lemma VarWitnessLeast(s: Snapshot, v: VarId, b: VarId)
    requires RefsResolve(s) && v in s.vars && Ascending(s.vars[v].cons)
    ensures VarWitness(s, v, b).Some? ==>
      exists c :: c in s.vars[v].cons && Witnesses(s.byId[c], v, b, Upper) &&
        VarWitness(s, v, b).value.upper == s.byId[c].name &&
        forall d :: d in s.vars[v].cons && d < c ==> !Witnesses(s.byId[d], v, b, Upper)
    ensures VarWitness(s, v, b).Some? ==>
      (exists c :: c in s.vars[v].cons && Witnesses(s.byId[c], v, b, Lower) &&
        VarWitness(s, v, b).value.lower == s.byId[c].name &&
        forall d :: d in s.vars[v].cons && d < c ==> !Witnesses(s.byId[d], v, b, Lower)) ||
      (s.vars[v].lb.IsZero() && VarWitness(s, v, b).value.lower == PlaceholderName)
  {
    LeastWitnessSpec(s, v, b, Lower);
    LeastWitnessSpec(s, v, b, Upper);
  }

  /** One side's flag update for a coupling constraint c, as the scan
      does it: a flag already set stays as it is; an unset one is set,
      with c's name, when c fixes that side of v at 0. */
  method Mark(c: Constraint, v: VarId, side: Side, found: bool, name: string) returns (found': bool, name': string)
    ensures found ==> found' && name' == name
    ensures !found ==> (found' <==> Certifies(c, v, side)) && name' == (if found' then c.name else name)
  {
    found', name' := found, name;
    if !found {
      var coeffvar := Weight(c.f, v);
      match side
      case Lower =>
        if coeffvar < 0.0 && c.ub.IsZero() {
          found', name' := true, c.name;
        }
        if coeffvar > 0.0 && c.lb.IsZero() {
          found', name' := true, c.name;
        }
      case Upper =>
        if coeffvar < 0.0 && c.lb.IsZero() {
          found', name' := true, c.name;
        }
        if coeffvar > 0.0 && c.ub.IsZero() {
          found', name' := true, c.name;
        }
    }
  }

  /** The witness scan as the detector runs it: one pass over v's
      back-references with a flag per side, each side set at most once,
      stopping as soon as both are set. */
  method FindWitness(s: Snapshot, v: VarId, b: VarId) returns (w: Option<Witness>)
    requires RefsResolve(s) && v in s.vars
    ensures w == VarWitness(s, v, b)
  {
    var cs := BackRefs(s, v);
    var vlb, vub := false, false;
    var lbName, ubName := PlaceholderName, PlaceholderName;
    var i := 0;
    while i < |cs|
      invariant 0 <= i <= |cs|
      invariant vlb ==> FirstWitness(s, cs, v, b, Lower).Some? &&
                        lbName == s.byId[FirstWitness(s, cs, v, b, Lower).value].name
      invariant !vlb ==> lbName == PlaceholderName &&
                         FirstWitness(s, cs, v, b, Lower) == FirstWitness(s, cs[i..], v, b, Lower)
      invariant vub ==> FirstWitness(s, cs, v, b, Upper).Some? &&
                        ubName == s.byId[FirstWitness(s, cs, v, b, Upper).value].name
      invariant !vub ==> FirstWitness(s, cs, v, b, Upper) == FirstWitness(s, cs[i..], v, b, Upper)
    {
      DropStep(cs, i);
      var c := s.byId[cs[i]];
      if c.f.ftype == Linear && NumVars(c.f) == 2 {
        var coeffvar := Weight(c.f, v);
        var coeffbin := Weight(c.f, b);
        if coeffbin != 0.0 && coeffvar != 0.0 {
          vlb, lbName := Mark(c, v, Lower, vlb, lbName);
          vub, ubName := Mark(c, v, Upper, vub, ubName);
          if vlb && vub {
            break;
          }
        }
      }
      i := i + 1;
    }
    assert cs[|cs|..] == [];
    if !vlb && s.vars[v].lb.IsZero() {
      vlb := true;
    }
    if vub && vlb {
      w := Some(Witness(lbName, ubName));
    } else {
      w := None;
    }
  }

  // ---------------------------------------------------------------------
  // Scans over the nonlinear and the linear part

  /** What a scan over a list of variables decides and the witness names
      it appends on the way. */
  datatype Scan = Scan(ok: bool, lower: seq<string>, upper: seq<string>)

  /** The nonlinear-part check: all or nothing, stopping at the first
      variable without witnesses; one name per side for each variable that
      passed before it. */
  function NVarsScan(s: Snapshot, vs: seq<VarId>, b: VarId): (r: Scan)
    requires RefsResolve(s) && AllKnown(s, vs)
    ensures |r.lower| == |r.upper| <= |vs|
    ensures r.ok ==> |r.lower| == |vs|
  {
    if vs == [] then Scan(true, [], [])
    else match VarWitness(s, vs[0], b)
      case None => Scan(false, [], [])
      case Some(w) =>
        var rest := NVarsScan(s, vs[1..], b);
        Scan(rest.ok, [w.lower] + rest.lower, [w.upper] + rest.upper)
  }

  /** The nonlinear-part check passes iff every variable has its
      witnesses, and then the names come one per variable, in order. */
  lemma {:induction false} NVarsScanSpec(s: Snapshot, vs: seq<VarId>, b: VarId)
    requires RefsResolve(s) && AllKnown(s, vs)
    ensures NVarsScan(s, vs, b).ok <==> forall i :: 0 <= i < |vs| ==> VarWitness(s, vs[i], b).Some?
    ensures NVarsScan(s, vs, b).ok ==> forall i :: 0 <= i < |vs| ==>
      NVarsScan(s, vs, b).lower[i] == VarWitness(s, vs[i], b).value.lower &&
      NVarsScan(s, vs, b).upper[i] == VarWitness(s, vs[i], b).value.upper
  {
    if vs != [] {
      NVarsScanSpec(s, vs[1..], b);
      assert forall i :: 1 <= i < |vs| ==> vs[i] == vs[1..][i - 1];
    }
  }

  /** The nonlinear-part check as the detector runs it: the bound check
      under b for every variable of `vs` in turn, stopping at the first
      that fails, with the names of each variable that passed. */
  method ScanNVars(s: Snapshot, vs: seq<VarId>, b: VarId) returns (ok: bool, lower: seq<string>, upper: seq<string>)
    requires RefsResolve(s) && AllKnown(s, vs)
    ensures Scan(ok, lower, upper) == NVarsScan(s, vs, b)
  {
    lower, upper := [], [];
    for i := 0 to |vs|
      invariant NVarsScan(s, vs, b).ok == NVarsScan(s, vs[i..], b).ok
      invariant NVarsScan(s, vs, b).lower == lower + NVarsScan(s, vs[i..], b).lower
      invariant NVarsScan(s, vs, b).upper == upper + NVarsScan(s, vs[i..], b).upper
    {
      DropStep(vs, i);
      var w := FindWitness(s, vs[i], b);
      if w.None? {
        return false, lower, upper;
      }
      ghost var rest := NVarsScan(s, vs[i + 1..], b);
      AppendAssoc(lower, [w.value.lower], rest.lower);
      AppendAssoc(upper, [w.value.upper], rest.upper);
      lower, upper := lower + [w.value.lower], upper + [w.value.upper];
    }
    assert vs[|vs|..] == [];
    return true, lower, upper;
  }

  /** The nonlinear-part check on the variables of `nl`, in ascending
      order. */
  method CheckNVars(s: Snapshot, nl: set<VarId>, b: VarId) returns (ok: bool, lower: seq<string>, upper: seq<string>)
    requires RefsResolve(s) && nl <= s.vars.Keys
    ensures AllKnown(s, Sorted(nl))
    ensures Scan(ok, lower, upper) == NVarsScan(s, Sorted(nl), b)
  {
    KnownSorted(s, nl);
    ok, lower, upper := ScanNVars(s, Sorted(nl), b);
  }

  /** The linear-residual check over the linear part's variables other
      than b: the first variable without witnesses decides (accept iff the
      constraint's upper bound is <= 0); with none, accept iff the upper
      bound is >= 0. */
  function LVarsScan(s: Snapshot, c: Constraint, vs: seq<VarId>, b: VarId): (r: Scan)
    requires RefsResolve(s) && AllKnown(s, vs)
    ensures |r.lower| == |r.upper|
  {
    if vs == [] then Scan(c.ub.AtLeastZero(), [], [])
    else if vs[0] == b then LVarsScan(s, c, vs[1..], b)
    else match VarWitness(s, vs[0], b)
      case None => Scan(c.ub.AtMostZero(), [], [])
      case Some(w) =>
        var rest := LVarsScan(s, c, vs[1..], b);
        Scan(rest.ok, [w.lower] + rest.lower, [w.upper] + rest.upper)
  }

  /** The verdict of the linear-residual check: with every variable other
      than b controlled it is "upper bound >= 0", otherwise it is "upper
      bound <= 0". */
  lemma {:induction false} LVarsScanSpec(s: Snapshot, c: Constraint, vs: seq<VarId>, b: VarId)
    requires RefsResolve(s) && AllKnown(s, vs)
    ensures (forall i :: 0 <= i < |vs| && vs[i] != b ==> VarWitness(s, vs[i], b).Some?) ==>
      (LVarsScan(s, c, vs, b).ok <==> c.ub.AtLeastZero())
    ensures (exists i :: 0 <= i < |vs| && vs[i] != b && VarWitness(s, vs[i], b).None?) ==>
      (LVarsScan(s, c, vs, b).ok <==> c.ub.AtMostZero())
  {
    if vs != [] {
      LVarsScanSpec(s, c, vs[1..], b);
      assert forall i :: 1 <= i < |vs| ==> vs[i] == vs[1..][i - 1];
    }
  }

  /** The linear-residual check of a constraint: trivially passed without
      a linear part. */
  function LVars(s: Snapshot, c: Constraint, b: VarId): (r: Scan)
    requires RefsResolve(s) && LinVars(c.f) <= s.vars.Keys
    ensures c.f.lin.None? ==> r.ok && r.lower == [] && r.upper == []
    ensures |r.lower| == |r.upper|
  {
    if c.f.lin.None? then Scan(true, [], [])
    else
      KnownSorted(s, c.f.lin.value.Keys);
      LVarsScan(s, c, Sorted(c.f.lin.value.Keys), b)
  }

  /** The linear-residual check as the detector runs it over the
      variables `vs`: b is skipped; the first variable without witnesses
      ends the pass, accepting iff the upper bound is <= 0; after a full
      pass, accept iff the upper bound is >= 0. */
  method ScanLVars(s: Snapshot, c: Constraint, vs: seq<VarId>, b: VarId) returns (ok: bool, lower: seq<string>, upper: seq<string>)
    requires RefsResolve(s) && AllKnown(s, vs)
    ensures Scan(ok, lower, upper) == LVarsScan(s, c, vs, b)
  {
    lower, upper := [], [];
    for i := 0 to |vs|
      invariant LVarsScan(s, c, vs, b).ok == LVarsScan(s, c, vs[i..], b).ok
      invariant LVarsScan(s, c, vs, b).lower == lower + LVarsScan(s, c, vs[i..], b).lower
      invariant LVarsScan(s, c, vs, b).upper == upper + LVarsScan(s, c, vs[i..], b).upper
    {
      DropStep(vs, i);
      if vs[i] != b {
        var w := FindWitness(s, vs[i], b);
        if w.None? && c.ub.AtMostZero() {
          return true, lower, upper;
        }
        if w.None? && c.ub.AboveZero() {
          return false, lower, upper;
        }
        if w.Some? {
          ghost var rest := LVarsScan(s, c, vs[i + 1..], b);
          AppendAssoc(lower, [w.value.lower], rest.lower);
          AppendAssoc(upper, [w.value.upper], rest.upper);
          lower, upper := lower + [w.value.lower], upper + [w.value.upper];
        }
      }
    }
    assert vs[|vs|..] == [];
    return c.ub.AtLeastZero(), lower, upper;
  }

  /** The linear-residual check of a constraint: trivially passed without
      a linear part, otherwise one pass over the linear variables in
      ascending order. */
  method CheckLVars(s: Snapshot, c: Constraint, b: VarId) returns (ok: bool, lower: seq<string>, upper: seq<string>)
    requires RefsResolve(s) && LinVars(c.f) <= s.vars.Keys
    ensures Scan(ok, lower, upper) == LVars(s, c, b)
  {
    if c.f.lin.None? {
      return true, [], [];
    }
    KnownSorted(s, c.f.lin.value.Keys);
    ok, lower, upper := ScanLVars(s, c, Sorted(c.f.lin.value.Keys), b);
  }

  // ---------------------------------------------------------------------
  // Indicator candidates

  predicate TwoVarLinear(c: Constraint)
  {
    c.f.ftype == Linear && NumVars(c.f) == 2
  }

  /** The 0/1 variables among `ts`. */
  function BinaryLikeIn(s: Snapshot, ts: seq<VarId>): set<VarId>
    requires AllKnown(s, ts)
  {
    if ts == [] then {}
    else (if IsBinaryLike(s.vars[ts[0]]) then {ts[0]} else {}) + BinaryLikeIn(s, ts[1..])
  }

  lemma {:induction false} BinaryLikeInSpec(s: Snapshot, ts: seq<VarId>)
    requires AllKnown(s, ts)
    ensures forall w :: w in BinaryLikeIn(s, ts) <==>
      (exists i :: 0 <= i < |ts| && ts[i] == w) && w in s.vars && IsBinaryLike(s.vars[w])
  {
    if ts != [] {
      BinaryLikeInSpec(s, ts[1..]);
      assert forall i :: 1 <= i < |ts| ==> ts[i] == ts[1..][i - 1];
      forall w | (exists i :: 0 <= i < |ts| && ts[i] == w) && w in s.vars && IsBinaryLike(s.vars[w])
        ensures w in BinaryLikeIn(s, ts)
      {
        var i :| 0 <= i < |ts| && ts[i] == w;
        if i > 0 {
          assert ts[1..][i - 1] == w;
        }
      }
    }
  }

  /** The 0/1 variables of the linear part of a two-variable linear
      constraint. */
  function CandidatesOf(s: Snapshot, c: Constraint): set<VarId>
    requires LinVars(c.f) <= s.vars.Keys
  {
    if TwoVarLinear(c) then
      KnownSorted(s, LinVars(c.f));
      BinaryLikeIn(s, Sorted(LinVars(c.f)))
    else {}
  }

  /** The candidates met along the constraints `cs`. */
  function CandidatesIn(s: Snapshot, cs: seq<ConId>): set<VarId>
    requires WellFormed(s) && forall i :: 0 <= i < |cs| ==> cs[i] in s.byId
  {
    if cs == [] then {}
    else CandidatesOf(s, s.byId[cs[0]]) + CandidatesIn(s, cs[1..])
  }

  /** The indicator candidates for v, taken from v's back-references. */
  function Candidates(s: Snapshot, v: VarId): set<VarId>
    requires WellFormed(s) && v in s.vars
  {
    CandidatesIn(s, BackRefs(s, v))
  }

  /** The candidates of one constraint are the 0/1 variables of its
      linear part, and only when it is a two-variable linear constraint. */
  lemma CandidatesOfSpec(s: Snapshot, c: Constraint)
    requires LinVars(c.f) <= s.vars.Keys
    ensures forall w :: w in CandidatesOf(s, c) <==>
      TwoVarLinear(c) && w in LinVars(c.f) && w in s.vars && IsBinaryLike(s.vars[w])
  {
    if TwoVarLinear(c) {
      KnownSorted(s, LinVars(c.f));
      SortedSpec(LinVars(c.f));
      BinaryLikeInSpec(s, Sorted(LinVars(c.f)));
    }
  }

  lemma {:induction false} CandidatesInSpec(s: Snapshot, cs: seq<ConId>)
    requires WellFormed(s) && forall i :: 0 <= i < |cs| ==> cs[i] in s.byId
    ensures forall w :: w in CandidatesIn(s, cs) <==>
      exists i :: 0 <= i < |cs| && TwoVarLinear(s.byId[cs[i]]) &&
                  w in LinVars(s.byId[cs[i]].f) && w in s.vars && IsBinaryLike(s.vars[w])
  {
    if cs != [] {
      var c := s.byId[cs[0]];
      CandidatesInSpec(s, cs[1..]);
      assert forall i :: 1 <= i < |cs| ==> cs[i] == cs[1..][i - 1];
      CandidatesOfSpec(s, c);
      forall w | exists i :: 0 <= i < |cs| && TwoVarLinear(s.byId[cs[i]]) &&
                  w in LinVars(s.byId[cs[i]].f) && w in s.vars && IsBinaryLike(s.vars[w])
        ensures w in CandidatesIn(s, cs)
      {
        var i :| 0 <= i < |cs| && TwoVarLinear(s.byId[cs[i]]) &&
                 w in LinVars(s.byId[cs[i]].f) && w in s.vars && IsBinaryLike(s.vars[w]);
        if i > 0 {
          assert cs[1..][i - 1] == cs[i];
        }
      }
    }
  }

  /** The candidates are exactly the 0/1 variables that occur with v in a
      two-variable linear constraint. */
  lemma CandidatesSpec(s: Snapshot, v: VarId)
    requires WellFormed(s) && v in s.vars
    ensures forall w :: w in Candidates(s, v) <==>
      exists c :: c in s.vars[v].cons && TwoVarLinear(s.byId[c]) &&
                  w in LinVars(s.byId[c].f) && w in s.vars && IsBinaryLike(s.vars[w])
  {
    CandidatesInSpec(s, BackRefs(s, v));
  }

  /** The inner scan of the candidate search: inserts into `acc` every
      0/1 variable among the linear terms `terms` of one constraint. */
  method AddBinaryLike(s: Snapshot, terms: seq<VarId>, acc: set<VarId>) returns (result: set<VarId>)
    requires AllKnown(s, terms)
    ensures result == acc + BinaryLikeIn(s, terms)
  {
    result := acc;
    for k := 0 to |terms|
      invariant result + BinaryLikeIn(s, terms[k..]) == acc + BinaryLikeIn(s, terms)
    {
      assert terms[k..][1..] == terms[k + 1..];
      var curvar := s.vars[terms[k]];
      if curvar.vtype != Continuous {
        if curvar.vtype == Binary {
          result := result + {terms[k]};
        }
        if curvar.vtype == ImplBin {
          result := result + {terms[k]};
        }
        if curvar.vtype == Integer {
          if curvar.lb.IsZero() && curvar.ub == Fin(1.0) {
            result := result + {terms[k]};
          }
        }
      }
    }
    assert terms[|terms|..] == [];
  }

  /** The candidate search as the detector runs it: inserts into the
      given set every 0/1 variable met in v's two-variable linear
      constraints. */
  method InitialBinary(s: Snapshot, v: VarId, binaries: set<VarId>) returns (result: set<VarId>)
    requires WellFormed(s) && v in s.vars
    ensures result == binaries + Candidates(s, v)
  {
    result := binaries;
    var cs := BackRefs(s, v);
    for i := 0 to |cs|
      invariant result + CandidatesIn(s, cs[i..]) == binaries + CandidatesIn(s, cs)
    {
      DropStep(cs, i);
      var c := s.byId[cs[i]];
      if c.f.ftype == Linear && NumVars(c.f) == 2 {
        KnownSorted(s, LinVars(c.f));
        result := AddBinaryLike(s, Sorted(LinVars(c.f)), result);
      }
    }
    assert cs[|cs|..] == [];
  }

  // ---------------------------------------------------------------------
  // One constraint

  /** Whether indicator b passes the nonlinear-part and the linear-part
      checks of c. */
  predicate Passes(s: Snapshot, c: Constraint, b: VarId)
    requires RefsResolve(s) && FunKnown(s, c.f)
  {
    KnownSorted(s, NonlinVars(c.f));
    NVarsScan(s, Sorted(NonlinVars(c.f)), b).ok && LVars(s, c, b).ok
  }

  /** The candidates of `pool` that pass. */
  ghost function Passing(s: Snapshot, c: Constraint, pool: set<VarId>): set<VarId>
    requires RefsResolve(s) && FunKnown(s, c.f)
  {
    set b | b in pool && Passes(s, c, b)
  }

  /** The first element of `r` that lies in `good`. */
  function FirstIn(r: seq<nat>, good: set<nat>): Option<nat>
  {
    if r == [] then None
    else if r[0] in good then Some(r[0])
    else FirstIn(r[1..], good)
  }

  /** Over an ascending sequence the first element lying in `good` is the
      least one. */
  lemma {:induction false} FirstInSpec(r: seq<nat>, good: set<nat>)
    requires Ascending(r)
    ensures FirstIn(r, good).Some? ==>
      var m := FirstIn(r, good).value;
      m in r && m in good && forall i :: 0 <= i < |r| && r[i] < m ==> r[i] !in good
    ensures FirstIn(r, good).None? ==> forall i :: 0 <= i < |r| ==> r[i] !in good
  {
    if r != [] {
      var rest := r[1..];
      assert forall i :: 1 <= i < |r| ==> r[i] == rest[i - 1] && r[0] < r[i];
      assert Ascending(rest) by {
        forall i, j | 0 <= i < j < |rest|
          ensures rest[i] < rest[j]
        {
          assert rest[i] == r[i + 1] && rest[j] == r[j + 1];
        }
      }
      FirstInSpec(rest, good);
    }
  }

  /** The paths that read the nonlinear part only run when it is there:
      the candidate search starts from its first variable, and the
      explicit-indicator path scans it once separability passed. */
  ghost predicate ReadsNonlinearSafely(s: Snapshot, c: Constraint)
    requires FunKnown(s, c.f)
  {
    c.f.ftype == Linear ||
    match VarTypes(s, c.f)
    case Refused => true
    case Indicator(b) => !Separable(c, b) || c.f.nonlin.Some?
    case NoIndicator => c.f.nonlin.Some? && c.f.nonlin.value != {}
  }

  /** The guarded read is not idle: x*x - 5*b <= 0 with x continuous and b
      binary names b explicitly, passes separability through its quadratic
      part and has no nonlinear part, so the explicit-indicator path reads
      a part that is not there. */
  lemma QuadraticOnlyReadsMissingPart()
    ensures var x := Variable(0, 0, NegInf, PosInf, Continuous, "x", NormalVar, [0]);
      var b := Variable(1, 1, Fin(0.0), Fin(1.0), Binary, "b", NormalVar, [0]);
      var f := Function(Some(map[1 := -5.0]), Some(Quadratic.Quadratic(map[(0, 0) := 1.0], {0})), None,
                        {0, 1}, FunctionType.Quadratic);
      var c := Constraint(0, 0, f, NegInf, Fin(0.0), "c0", NormalCons);
      var s := Snapshot([c], map[0 := x, 1 := b], map[0 := c]);
      WellFormed(s) && FunKnown(s, f) && f.ftype != Linear &&
      VarTypes(s, f) == Indicator(1) && Separable(c, 1) && f.nonlin.None? &&
      !ReadsNonlinearSafely(s, c)
  {
    var x := Variable(0, 0, NegInf, PosInf, Continuous, "x", NormalVar, [0]);
    var b := Variable(1, 1, Fin(0.0), Fin(1.0), Binary, "b", NormalVar, [0]);
    var f := Function(Some(map[1 := -5.0]), Some(Quadratic.Quadratic(map[(0, 0) := 1.0], {0})), None,
                      {0, 1}, FunctionType.Quadratic);
    var c := Constraint(0, 0, f, NegInf, Fin(0.0), "c0", NormalCons);
    var s := Snapshot([c], map[0 := x, 1 := b], map[0 := c]);
    VarTypesSpec(s, f);
    assert !IsRefusedType(s.vars[0]) && !IsRefusedType(s.vars[1]);
    assert !IsBinaryLike(s.vars[0]) && IsBinaryLike(s.vars[1]);
    assert !HasCrossTerm(map[(0, 0) := 1.0]);
  }

  /** The verdict for one constraint and what is left in the two name
      lists afterwards. */
  datatype Outcome =
    | Accepted(bin: VarId, lower: seq<string>, upper: seq<string>)
    | Rejected(lower: seq<string>, upper: seq<string>)

  /** The constraint can be put through the chain of checks. */
  ghost predicate Evaluable(s: Snapshot, c: Constraint)
  {
    WellFormed(s) && FunKnown(s, c.f) && ReadsNonlinearSafely(s, c)
  }

  /** The two part checks for the indicator b: the nonlinear-part check,
      then, if it passed, the linear-part check; the names appended on the
      way stay in the lists. */
  ghost function WithIndicator(s: Snapshot, c: Constraint, b: VarId): Outcome
    requires RefsResolve(s) && FunKnown(s, c.f)
  {
    KnownSorted(s, NonlinVars(c.f));
    var n := NVarsScan(s, Sorted(NonlinVars(c.f)), b);
    if !n.ok then Rejected(n.lower, n.upper)
    else
      var l := LVars(s, c, b);
      if l.ok then Accepted(b, n.lower + l.lower, n.upper + l.upper)
      else Rejected(n.lower + l.lower, n.upper + l.upper)
  }

  /** The part checks accept b exactly when b passes them, and then b is
      the indicator reported. */
  lemma WithIndicatorSpec(s: Snapshot, c: Constraint, b: VarId)
    requires RefsResolve(s) && FunKnown(s, c.f)
    ensures WithIndicator(s, c, b).Accepted? <==> Passes(s, c, b)
    ensures WithIndicator(s, c, b).Accepted? ==> WithIndicator(s, c, b).bin == b
    ensures |WithIndicator(s, c, b).lower| == |WithIndicator(s, c, b).upper|
  {
  }

  /** What passing means: every variable of the nonlinear part has its
      witnesses, the linear-part check passes, and the names come one pair
      per nonlinear variable first. */
  lemma PassesSpec(s: Snapshot, c: Constraint, b: VarId)
    requires RefsResolve(s) && FunKnown(s, c.f)
    ensures Passes(s, c, b) <==>
      (forall v :: v in NonlinVars(c.f) ==> VarWitness(s, v, b).Some?) && LVars(s, c, b).ok
    ensures Passes(s, c, b) ==>
      |WithIndicator(s, c, b).lower| == |WithIndicator(s, c, b).upper| >= |NonlinVars(c.f)|
  {
    var nl := NonlinVars(c.f);
    var vs := Sorted(nl);
    SortedSpec(nl);
    KnownSorted(s, nl);
    NVarsScanSpec(s, vs, b);
    assert forall v :: v in nl ==> exists i :: 0 <= i < |vs| && vs[i] == v;
  }

  /** The chain of checks for one constraint: reject linear constraints,
      tally the variable types, test separability against an explicit
      indicator and run the part checks for it or, without one, run them
      for the candidates in ascending order until one passes. */
  ghost function Evaluate(s: Snapshot, c: Constraint): Outcome
    requires Evaluable(s, c)
  {
    if c.f.ftype == Linear then Rejected([], [])
    else match VarTypes(s, c.f)
      case Refused => Rejected([], [])
      case Indicator(b) =>
        if !Separable(c, b) then Rejected([], []) else WithIndicator(s, c, b)
      case NoIndicator =>
        var pool := Candidates(s, MinOf(c.f.nonlin.value));
        match FirstIn(Sorted(pool), Passing(s, c, pool))
        case None => Rejected([], [])
        case Some(b) => WithIndicator(s, c, b)
  }

  /** Linear constraints, and constraints with a general integer or with
      two 0/1 variables, are never accepted. */
  lemma EvaluateRejects(s: Snapshot, c: Constraint)
    requires Evaluable(s, c)
    ensures c.f.ftype == Linear ==> Evaluate(s, c).Rejected?
    ensures VarTypes(s, c.f).Refused? ==> Evaluate(s, c).Rejected?
  {
  }

  /** Which indicator wins when the function has one: the constraint is
      accepted iff the indicator is separable and passes, and then it is
      the indicator reported. */
  lemma EvaluateExplicit(s: Snapshot, c: Constraint)
    requires Evaluable(s, c) && c.f.ftype != Linear && VarTypes(s, c.f).Indicator?
    ensures var b := VarTypes(s, c.f).bin;
      (Evaluate(s, c).Accepted? <==> Separable(c, b) && Passes(s, c, b)) &&
      (Evaluate(s, c).Accepted? ==> Evaluate(s, c) == WithIndicator(s, c, b))
  {
    WithIndicatorSpec(s, c, VarTypes(s, c.f).bin);
  }

  /** Which indicator wins when the function has none: the constraint is
      accepted iff some candidate passes, the least passing candidate is
      the one reported, and a rejection leaves no names behind. */
  lemma EvaluateSearch(s: Snapshot, c: Constraint)
    requires Evaluable(s, c) && c.f.ftype != Linear && VarTypes(s, c.f).NoIndicator?
    ensures var pool := Candidates(s, MinOf(NonlinVars(c.f)));
      (Evaluate(s, c).Accepted? <==> exists b :: b in pool && Passes(s, c, b)) &&
      (Evaluate(s, c).Accepted? ==>
        var b := Evaluate(s, c).bin;
        b in pool && Passes(s, c, b) && Evaluate(s, c) == WithIndicator(s, c, b) &&
        forall b' :: b' in pool && b' < b ==> !Passes(s, c, b')) &&
      (Evaluate(s, c).Rejected? ==> Evaluate(s, c).lower == [] && Evaluate(s, c).upper == [])
  {
    var pool := Candidates(s, MinOf(c.f.nonlin.value));
    var cands := Sorted(pool);
    var good := Passing(s, c, pool);
    SortedSpec(pool);
    FirstInSpec(cands, good);
    var r := FirstIn(cands, good);
    if r.Some? {
      WithIndicatorSpec(s, c, r.value);
      forall b' | b' in pool && b' < r.value
        ensures !Passes(s, c, b')
      {
        var i :| 0 <= i < |cands| && cands[i] == b';
      }
    } else {
      forall b' | b' in pool
        ensures !Passes(s, c, b')
      {
        var i :| 0 <= i < |cands| && cands[i] == b';
      }
    }
  }

  /** What an accepted constraint satisfies: it is nonlinear, its
      indicator is a 0/1 variable that passes both part checks and is
      separable from the quadratic part (and from the nonlinear part when
      there is no quadratic one), and the outcome is that of the part
      checks for it. */
  lemma EvaluateSound(s: Snapshot, c: Constraint)
    requires Evaluable(s, c)
    ensures var r := Evaluate(s, c);
      r.Accepted? ==>
        c.f.ftype != Linear && c.f.nonlin.Some? &&
        r.bin in s.vars && IsBinaryLike(s.vars[r.bin]) &&
        r.bin !in QuadVars(c.f) && (c.f.quad.None? ==> r.bin !in NonlinVars(c.f)) &&
        Passes(s, c, r.bin) && r == WithIndicator(s, c, r.bin)
  {
    var r := Evaluate(s, c);
    if r.Accepted? {
      if VarTypes(s, c.f).Indicator? {
        EvaluateExplicit(s, c);
        VarTypesIndicator(s, c.f);
        SeparableSpec(c, r.bin);
      } else {
        EvaluateSearch(s, c);
        CandidatesSpec(s, MinOf(c.f.nonlin.value));
        VarTypesNoIndicator(s, c.f);
        assert r.bin !in c.f.vars;
      }
    }
  }

  /** The two part checks for the indicator b as the detector runs them:
      the nonlinear-part check and, once it passed, the linear-part check,
      the names of both going to the same two lists. */
  method CheckParts(s: Snapshot, c: Constraint, nl: set<VarId>, b: VarId)
    returns (ok: bool, lower: seq<string>, upper: seq<string>)
    requires RefsResolve(s) && FunKnown(s, c.f) && nl == NonlinVars(c.f)
    ensures WithIndicator(s, c, b).Accepted? == ok
    ensures lower == WithIndicator(s, c, b).lower && upper == WithIndicator(s, c, b).upper
  {
    ok, lower, upper := CheckNVars(s, nl, b);
    if ok {
      var lo, up;
      ok, lo, up := CheckLVars(s, c, b);
      lower, upper := lower + lo, upper + up;
    }
  }

  /** The candidate loop: the part checks for each candidate of `pool` in
      ascending order until one passes; the names of a failed candidate
      are cleared before the next. */
  method SearchIndicator(s: Snapshot, c: Constraint, pool: set<VarId>)
    returns (found: Option<VarId>, lower: seq<string>, upper: seq<string>)
    requires RefsResolve(s) && FunKnown(s, c.f) && c.f.nonlin.Some?
    ensures found == FirstIn(Sorted(pool), Passing(s, c, pool))
    ensures found.Some? ==> WithIndicator(s, c, found.value).Accepted?
    ensures found.Some? ==> lower == WithIndicator(s, c, found.value).lower &&
                            upper == WithIndicator(s, c, found.value).upper
    ensures found.None? ==> lower == [] && upper == []
  {
    var cands := Sorted(pool);
    ghost var good := Passing(s, c, pool);
    SortedSpec(pool);
    lower, upper := [], [];
    for i := 0 to |cands|
      invariant lower == [] && upper == []
      invariant FirstIn(cands, good) == FirstIn(cands[i..], good)
    {
      DropStep(cands, i);
      var ok;
      ok, lower, upper := CheckParts(s, c, c.f.nonlin.value, cands[i]);
      WithIndicatorSpec(s, c, cands[i]);
      if ok {
        return Some(cands[i]), lower, upper;
      }
      lower, upper := [], [];
    }
    assert cands[|cands|..] == [];
    return None, lower, upper;
  }

  /** The path of a constraint without an explicit indicator: gather the
      candidates of the first nonlinear variable and search them. */
  method SearchPath(s: Snapshot, c: Constraint)
    returns (ok: bool, binvar: VarId, lower: seq<string>, upper: seq<string>)
    requires Evaluable(s, c) && c.f.ftype != Linear && VarTypes(s, c.f).NoIndicator?
    ensures ok == Evaluate(s, c).Accepted?
    ensures ok ==> binvar == Evaluate(s, c).bin
    ensures lower == Evaluate(s, c).lower && upper == Evaluate(s, c).upper
  {
    var initvar := MinOf(c.f.nonlin.value);
    var binaries := InitialBinary(s, initvar, {});
    assert binaries == Candidates(s, initvar);
    if |binaries| == 0 {
      return false, 0, [], [];
    }
    var found;
    found, lower, upper := SearchIndicator(s, c, binaries);
    if found.Some? {
      WithIndicatorSpec(s, c, found.value);
      return true, found.value, lower, upper;
    }
    return false, 0, lower, upper;
  }

  /** The chain of checks for one constraint as the detector runs it:
      whether it is accepted, its indicator when it is, and the names left
      in the two lists. */
  method EvalConstraint(s: Snapshot, c: Constraint)
    returns (ok: bool, binvar: VarId, lower: seq<string>, upper: seq<string>)
    requires Evaluable(s, c)
    ensures ok == Evaluate(s, c).Accepted?
    ensures ok ==> binvar == Evaluate(s, c).bin
    ensures lower == Evaluate(s, c).lower && upper == Evaluate(s, c).upper
  {
    if c.f.ftype == Linear {
      return false, 0, [], [];
    }
    var vartypeok, bv := CheckVarTypes(s, c.f);
    if !vartypeok {
      return false, 0, [], [];
    }
    var issep := false;
    if bv.None? {
      issep := true;
    } else {
      issep := Separable(c, bv.value);
    }
    if !issep {
      return false, 0, [], [];
    }
    if bv.None? {
      ok, binvar, lower, upper := SearchPath(s, c);
      return;
    }
    binvar := bv.value;
    ok, lower, upper := CheckParts(s, c, NonlinVars(c.f), binvar);
    WithIndicatorSpec(s, c, binvar);
  }

  // ---------------------------------------------------------------------
  // All constraints

  /** One accepted constraint: its id, its indicator and its witness names. */
  datatype Record = Record(con: ConId, bin: VarId, lower: seq<string>, upper: seq<string>)

  /** Every constraint of `cs` can be put through the checks. */
  ghost predicate AllEvaluable(s: Snapshot, cs: seq<Constraint>)
  {
    forall i :: 0 <= i < |cs| ==> FunKnown(s, cs[i].f) && ReadsNonlinearSafely(s, cs[i])
  }

  /** Every constraint of the snapshot can be put through the checks. */
  ghost predicate Detectable(s: Snapshot)
  {
    WellFormed(s) && AllEvaluable(s, s.cons)
  }

  /** The ids of the constraints `cs`, in order. */
  function Ids(cs: seq<Constraint>): (r: seq<ConId>)
    ensures |r| == |cs| && forall j :: 0 <= j < |cs| ==> r[j] == cs[j].id
  {
    seq(|cs|, j requires 0 <= j < |cs| => cs[j].id)
  }

  /** The outcome of the checks on each constraint of the snapshot, in
      order. */
  ghost function Outcomes(s: Snapshot): (r: seq<Outcome>)
    requires Detectable(s)
    ensures |r| == |s.cons| && forall j :: 0 <= j < |s.cons| ==> r[j] == Evaluate(s, s.cons[j])
  {
    seq(|s.cons|, j requires 0 <= j < |s.cons| => Evaluate(s, s.cons[j]))
  }

  /** The records for the constraints with ids `ids` and outcomes `os`: one
      per accepted outcome, in order. */
  function Collect(ids: seq<ConId>, os: seq<Outcome>): (r: seq<Record>)
    requires |ids| == |os|
    ensures |r| <= |ids|
  {
    if ids == [] then []
    else
      var rest := Collect(ids[1..], os[1..]);
      match os[0]
      case Accepted(b, lo, up) => [Record(ids[0], b, lo, up)] + rest
      case Rejected(_, _) => rest
  }

  /** Record r carries an accepted outcome of `os` and the id beside it. */
  predicate FromOutcome(ids: seq<ConId>, os: seq<Outcome>, r: Record)
    requires |ids| == |os|
  {
    exists j :: 0 <= j < |ids| && ids[j] == r.con && os[j] == Accepted(r.bin, r.lower, r.upper)
  }

  /** Every record carries an accepted outcome, and there is none exactly
      when every outcome is a rejection. */
  lemma {:induction false} CollectSpec(ids: seq<ConId>, os: seq<Outcome>)
    requires |ids| == |os|
    ensures forall k :: 0 <= k < |Collect(ids, os)| ==> FromOutcome(ids, os, Collect(ids, os)[k])
    ensures Collect(ids, os) == [] <==> forall j :: 0 <= j < |os| ==> os[j].Rejected?
  {
    if ids != [] {
      var all := Collect(ids, os);
      var tail := Collect(ids[1..], os[1..]);
      CollectSpec(ids[1..], os[1..]);
      assert forall j :: 1 <= j < |os| ==> os[j] == os[1..][j - 1] && ids[j] == ids[1..][j - 1];
      var shift := if os[0].Accepted? then 1 else 0;
      forall k | 0 <= k < |all|
        ensures FromOutcome(ids, os, all[k])
      {
        if k < shift {
          assert os[0] == Accepted(all[k].bin, all[k].lower, all[k].upper);
        } else {
          assert all[k] == tail[k - shift];
          var j :| 0 <= j < |ids| - 1 && ids[1..][j] == all[k].con &&
                   os[1..][j] == Accepted(all[k].bin, all[k].lower, all[k].upper);
          assert ids[j + 1] == ids[1..][j];
        }
      }
    }
  }

  /** One more constraint adds its record exactly when it is accepted. */
  lemma {:induction false} CollectPush(ids: seq<ConId>, os: seq<Outcome>, id: ConId, o: Outcome)
    requires |ids| == |os|
    ensures Collect(ids + [id], os + [o]) ==
      Collect(ids, os) + (if o.Accepted? then [Record(id, o.bin, o.lower, o.upper)] else [])
  {
    if ids != [] {
      assert (ids + [id])[1..] == ids[1..] + [id];
      assert (os + [o])[1..] == os[1..] + [o];
      CollectPush(ids[1..], os[1..], id, o);
    }
  }

  /** The records the detector produces, in constraint order. */
  ghost function Detect(s: Snapshot): seq<Record>
    requires Detectable(s)
  {
    Collect(Ids(s.cons), Outcomes(s))
  }

  /** Record r carries the outcome of an accepted, nonlinear constraint of
      the snapshot and that constraint's id. */
  ghost predicate Stems(s: Snapshot, r: Record)
    requires Detectable(s)
  {
    exists j :: 0 <= j < |s.cons| && s.cons[j].id == r.con && s.cons[j].f.ftype != Linear &&
                Evaluate(s, s.cons[j]) == Accepted(r.bin, r.lower, r.upper)
  }

  /** There is no record exactly when every constraint is rejected. */
  lemma DetectEmpty(s: Snapshot)
    requires Detectable(s)
    ensures Detect(s) == [] <==> forall j :: 0 <= j < |s.cons| ==> Evaluate(s, s.cons[j]).Rejected?
  {
    CollectSpec(Ids(s.cons), Outcomes(s));
  }

  /** Every record of the detector stems from an accepted, nonlinear
      constraint whose outcome it carries. */
  lemma DetectSpec(s: Snapshot)
    requires Detectable(s)
    ensures forall k :: 0 <= k < |Detect(s)| ==> Stems(s, Detect(s)[k])
  {
    var ids, os := Ids(s.cons), Outcomes(s);
    CollectSpec(ids, os);
    forall k | 0 <= k < |Detect(s)|
      ensures Stems(s, Detect(s)[k])
    {
      var r := Detect(s)[k];
      assert FromOutcome(ids, os, r);
      var j :| 0 <= j < |ids| && ids[j] == r.con && os[j] == Accepted(r.bin, r.lower, r.upper);
      EvaluateRejects(s, s.cons[j]);
    }
  }

  /** The records read across four parallel lists. */
  function Zip(cs: seq<ConId>, bs: seq<VarId>, ls: seq<seq<string>>, us: seq<seq<string>>): (r: seq<Record>)
    requires |cs| == |bs| == |ls| == |us|
    ensures |r| == |cs|
    ensures forall i :: 0 <= i < |r| ==> r[i] == Record(cs[i], bs[i], ls[i], us[i])
  {
    if cs == [] then []
    else [Record(cs[0], bs[0], ls[0], us[0])] + Zip(cs[1..], bs[1..], ls[1..], us[1..])
  }

  /** Appending to each list appends the records. */
  lemma ZipAppend(cs: seq<ConId>, bs: seq<VarId>, ls: seq<seq<string>>, us: seq<seq<string>>,
                  cs': seq<ConId>, bs': seq<VarId>, ls': seq<seq<string>>, us': seq<seq<string>>)
    requires |cs| == |bs| == |ls| == |us| && |cs'| == |bs'| == |ls'| == |us'|
    ensures Zip(cs + cs', bs + bs', ls + ls', us + us') == Zip(cs, bs, ls, us) + Zip(cs', bs', ls', us')
  {
    var r := Zip(cs + cs', bs + bs', ls + ls', us + us');
    var q := Zip(cs, bs, ls, us) + Zip(cs', bs', ls', us');
    forall i | 0 <= i < |r|
      ensures r[i] == q[i]
    {
      if i < |cs| {
        assert (cs + cs')[i] == cs[i] && (bs + bs')[i] == bs[i];
        assert (ls + ls')[i] == ls[i] && (us + us')[i] == us[i];
      } else {
        var k := i - |cs|;
        assert (cs + cs')[i] == cs'[k] && (bs + bs')[i] == bs'[k];
        assert (ls + ls')[i] == ls'[k] && (us + us')[i] == us'[k];
      }
    }
  }

  /** Pushing one entry onto each list appends one record. */
  lemma ZipPush(cs: seq<ConId>, bs: seq<VarId>, ls: seq<seq<string>>, us: seq<seq<string>>,
                c: ConId, b: VarId, lo: seq<string>, up: seq<string>)
    requires |cs| == |bs| == |ls| == |us|
    ensures Zip(cs + [c], bs + [b], ls + [lo], us + [up]) == Zip(cs, bs, ls, us) + [Record(c, b, lo, up)]
  {
    ZipAppend(cs, bs, ls, us, [c], [b], [lo], [up]);
  }

  /** The detection loop: the checks on every constraint in index order,
      each accepted one pushed onto the four lists. */
  method DetectAll(p: Snapshot) returns (cs: seq<ConId>, bs: seq<VarId>, ls: seq<seq<string>>, us: seq<seq<string>>)
    requires Detectable(p)
    ensures |cs| == |bs| == |ls| == |us|
    ensures Zip(cs, bs, ls, us) == Detect(p)
  {
    cs, bs, ls, us := [], [], [], [];
    ghost var all, outs := Ids(p.cons), Outcomes(p);
    for i := 0 to |p.cons|
      invariant |cs| == |bs| == |ls| == |us|
      invariant Zip(cs, bs, ls, us) == Collect(all[..i], outs[..i])
    {
      var cons := p.cons[i];
      var ispersp, binvar, l, u := EvalConstraint(p, cons);
      assert outs[i] == Evaluate(p, cons) && all[i] == cons.id;
      CollectPush(all[..i], outs[..i], all[i], outs[i]);
      TakeStep(all, i);
      TakeStep(outs, i);
      if ispersp {
        ZipPush(cs, bs, ls, us, cons.id, binvar, l, u);
        cs, bs, ls, us := cs + [cons.id], bs + [binvar], ls + [l], us + [u];
      }
    }
    TakeAll(all);
    TakeAll(outs);
  }

  /** The four lists after the detection loop ran on top of them. */
  method Extend(p: Snapshot, cs0: seq<ConId>, bs0: seq<VarId>, ls0: seq<seq<string>>, us0: seq<seq<string>>)
    returns (cs: seq<ConId>, bs: seq<VarId>, ls: seq<seq<string>>, us: seq<seq<string>>)
    requires Detectable(p) && |cs0| == |bs0| == |ls0| == |us0|
    ensures |cs| == |bs| == |ls| == |us|
    ensures Zip(cs, bs, ls, us) == Zip(cs0, bs0, ls0, us0) + Detect(p)
    ensures |cs| == |cs0| + |Detect(p)|
    ensures |cs| > 0 <==> |cs0| > 0 || exists i :: 0 <= i < |p.cons| && Evaluate(p, p.cons[i]).Accepted?
  {
    var cs1, bs1, ls1, us1 := DetectAll(p);
    DetectEmpty(p);
    ZipAppend(cs0, bs0, ls0, us0, cs1, bs1, ls1, us1);
    cs, bs, ls, us := cs0 + cs1, bs0 + bs1, ls0 + ls1, us0 + us1;
  }

  /** The detector's state: the four parallel lists of accepted
      constraints, their indicators and their lower and upper witness
      names. */
  class PerspCon {
    const p: Snapshot
    var cList: seq<ConId>
    var binVar: seq<VarId>
    var lbc: seq<seq<string>>
    var ubc: seq<seq<string>>

    /** The four lists have equal length. */
    ghost predicate Valid()
      reads this
    {
      |cList| == |binVar| == |lbc| == |ubc|
    }

    /** The accepted records, read across the four lists. */
    ghost function Records(): seq<Record>
      reads this
      requires Valid()
    {
      Zip(cList, binVar, lbc, ubc)
    }

    constructor (snapshot: Snapshot)
      ensures p == snapshot && Valid() && Records() == []
    {
      p := snapshot;
      cList, binVar, lbc, ubc := [], [], [], [];
    }

    /** Whether any constraint was accepted. */
    function GetStatus(): bool
      reads this
    {
      |cList| > 0
    }

    /** The number of accepted constraints, as the report's last line
        gives it. */
    function AcceptedCount(): nat
      reads this
    {
      |cList|
    }

    /** Runs the checks on every constraint in index order and appends the
        accepted ones to the four lists. */
    method GenerateList()
      requires Valid() && Detectable(p)
      modifies this
      ensures Valid()
      ensures Records() == old(Records()) + Detect(p)
      ensures AcceptedCount() == old(AcceptedCount()) + |Detect(p)|
      ensures GetStatus() <==>
        old(GetStatus()) || exists i :: 0 <= i < |p.cons| && Evaluate(p, p.cons[i]).Accepted?
    {
      cList, binVar, lbc, ubc := Extend(p, cList, binVar, lbc, ubc);
    }
  }
}
