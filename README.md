# Minotaur: perspective detection and problem bookkeeping, in Dafny

This project models two parts of the Minotaur mixed-integer nonlinear
optimisation toolkit and proves properties of them.

**The perspective-constraint detector** (`PerspCon`) walks the constraints of
a problem in index order. For each constraint it decides whether the
constraint's nonlinear content is switched on by a single 0/1 indicator
variable `b`. The decision is a fixed chain of checks:

1. a linear constraint is rejected outright;
2. a tally of the variable types allows at most one 0/1 variable and no
   general integer;
3. a separability test runs on the quadratic or the nonlinear part;
4. a sign-and-bound witness search runs for every variable of the nonlinear
   part;
5. a residual check runs on the constraint's own linear part.

When the function names no indicator, the detector tries candidates taken
from two-variable linear constraints instead. Each accepted constraint is
appended to four parallel lists, together with its indicator and the names
of its lower and upper witness constraints.

**The problem container** (`Problem`) is an arena of variables and
constraints. It works as follows:

- Creating a variable or a constraint hands out the next identifier and the
  next position.
- Every variable keeps back-references to the constraints whose function
  uses it.
- Deletion works in two steps: `markDelete` marks an entity, and
  `delMarkedCons`/`delMarkedVars` later drop the marked ones, keep the rest
  in order and renumber their positions 0..n-1.
- A size record keeps counters of variable types and constraint types.
  `findType` decides the class of the program (LP, MILP, QP, …, MINLP) from
  these counters.

Layout:

| file | module | content |
|---|---|---|
| `ordered_sets.dfy` | `OrderedSets` | ascending enumeration of finite id sets (the iteration order of the source's ordered containers) |
| `seqs.dfy` | `Seqs` | order-preserving `Filter`, with its positions and lemmas |
| `entities.dfy` | `Entities` | bounds, variable and function types, functions (linear, quadratic and nonlinear parts), variables, constraints |
| `persp_con.dfy` | `Perspective` | the detector: pure functions stating each check, the methods that run the checks as the source does, and class `PerspCon` |
| `problem.dfy` | `Problems` | counting, classification, arena and deletion on values, the container invariant, and class `Problem` |

### Modelling decisions

**Numbers.**
- Bounds are reals with an explicit ±infinity tag, and coefficients are
  reals. The detector only ever compares them exactly with 0, and the model
  does the same.
- The counters of the size record are unbounded naturals. Where a 32-bit
  unsigned wrap matters (`--` in `setVarType`), it is written out as `Dec`
  and `Inc`.

**Iteration order.**
- The source visits a function's `VarSet`, the `VariableGroup` of linear
  terms and the candidate set through ordered containers. The model visits
  them in ascending identifier order (`OrderedSets.Sorted`).
- A variable's back-references (its `ConstrSet`) are visited in their
  stored order, not through `Sorted`. They are in ascending id order only
  where `Problems.LinkedAscending` applies.
- A variable's back-references are a sequence of constraint ids in the order
  they are visited. The container model keeps them in the order of the
  constraint vector; `Problems.LinkedAscending` proves that this is
  ascending id order.

**The detector.**
- It reads an immutable `Snapshot` of the problem: the constraints in index
  order, plus the variables and constraints by id.
- A missing function part is `None`. A constraint created without a function
  carries `Entities.Empty`.
- The explicit-indicator path reads the nonlinear part once separability
  passed through the quadratic branch. The candidate path reads the first
  variable of the nonlinear part. Neither path checks that the part exists,
  so the model requires that it does on those paths
  (`ReadsNonlinearSafely`).
- The source keeps the witness names of the constraint under test in the
  member vectors `l_` and `u_`. The model returns them as values from
  `EvalConstraint`, so `class PerspCon` has no such fields; their contents
  only matter within one constraint.
- A variable's back-references are visited in the order of its ordered
  set, whose comparator is not part of this model. The witness lemmas
  (`FirstWitnessSpec`, `VarWitnessSpec`) hold in any visiting order. The
  least-id form (`LeastWitnessSpec`, `VarWitnessLeast`) assumes ascending
  identifier order, which the container model provides
  (`Problems.LinkedAscending`).
- The name pushed for a lower witness supplied only by the variable's own
  lower bound of 0 is that of a default-constructed constraint. The model
  uses the placeholder `PlaceholderName`.

**The container.**
- `Problem.Valid` is the container invariant (`Invariant`):
  - positions are 0..n-1;
  - identifiers ascend along each vector and stay below the next one to be
    handed out;
  - nothing is marked deleted while the matching deletion counter is 0;
  - a size record that nothing has modified since it was counted equals a
    recount.
- Exact back-references (`Linked`) are stated separately, as a property each
  operation keeps.
- `Problem` methods address variables and constraints by position. The
  source uses shared pointers.

### Behaviour of the code worth knowing

- **ImplInt in the type tally.** `checkVarTypes` refuses an `ImplInt`
  variable through its `default` branch (src/base/PerspCon.cpp:545-548), so
  an implied integer is never an indicator.
- **Candidate types.** `initialBinary` collects `Binary`, `ImplBin` and
  `Integer` variables with bounds exactly [0, 1]. It does not collect
  `ImplInt` variables (src/base/PerspCon.cpp:588-607).
- **Separability.** When a quadratic part exists, `separable` decides from
  that part alone and never looks at the nonlinear part
  (`SeparableIgnoresNonlinear`). Separability with respect to the nonlinear
  part is therefore only checked when there is no quadratic part.
- **`isQuadratic` and the QCQP row.** `isQuadratic` accepts quadratic
  constraints under a linear objective. `findType`'s QCQP row requires a
  quadratic or bilinear objective, so for such a program `findType` answers
  NLP (`QuadraticLinearObjective`).

## Model

| member | source | states |
|---|---|---|
| Perspective.TallyNoIndicator | src/base/PerspCon.cpp:507-554 | the type tally ends without an indicator iff none was seen and every visited variable is Continuous |
| Perspective.TallyIndicator | src/base/PerspCon.cpp:507-554 | a reported indicator is the 0/1 variable met on the way, and every other visited variable is Continuous |
| Perspective.TallyAdmits | src/base/PerspCon.cpp:507-554 | the tally refuses nothing iff no refused type (general integer, unexpected type) and at most one 0/1 variable occur |
| Perspective.VarTypesSpec | src/base/PerspCon.cpp:496-555 | the same three facts over the function's variable set: no indicator iff all Continuous; an indicator is the single 0/1 variable; admitted iff no refused type and at most one 0/1 variable |
| Perspective.CheckVarTypes | src/base/PerspCon.cpp:496-555 | the early-exit loop with its two counters returns true iff the tally admits the function, and reports the tally's indicator (none when all are Continuous) |
| Perspective.SeparableSpec | src/base/PerspCon.cpp:205-241 | a separable verdict puts b outside the quadratic part, and outside the nonlinear part when there is no quadratic one, and leaves only square terms with nonzero coefficient; a function with neither part is not separable |
| Perspective.SeparableIgnoresNonlinear | src/base/PerspCon.cpp:210-228 | with a quadratic part present, replacing the nonlinear part never changes the verdict |
| Perspective.FirstWitnessSpec | src/base/PerspCon.cpp:377-475 | in any visiting order, the witness found sits at the first position of the back-references that holds a witness of that side; none found means no back-reference is one |
| Perspective.LeastWitnessSpec | src/base/PerspCon.cpp:377-475 | when the back-references ascend by id, the witness found is the least-id witness of that side |
| Perspective.FirstWitnessLeast | src/base/PerspCon.cpp:377-475 | over an ascending sequence the witness found is a member, is a witness, and no smaller id is one |
| Perspective.VarWitnessSpec | src/base/PerspCon.cpp:358-493 | in any visiting order: checkVarBounds succeeds iff an upper witness exists and a lower witness exists or v's lower bound is 0; the names are those of the witnesses met first, or the placeholder when the lower bound stood in |
| Perspective.VarWitnessLeast | src/base/PerspCon.cpp:358-493 | when the back-references ascend by id, the names reported are those of the least-id witnesses |
| Perspective.Mark | src/base/PerspCon.cpp:441-469 | a side flag once set is never overwritten; an unset one is set, with the constraint's name, exactly when the sign-and-bound table certifies that side |
| Perspective.FindWitness | src/base/PerspCon.cpp:358-493 | the scan with two flags that stops when both are set computes exactly VarWitness |
| Perspective.NVarsScan | src/base/PerspCon.cpp:261-276 | equal numbers of lower and upper names, at most one pair per variable, and one per variable on success |
| Perspective.NVarsScanSpec | src/base/PerspCon.cpp:261-276 | checkNVars passes iff every nonlinear variable has its witnesses; the names then come one pair per variable in order |
| Perspective.ScanNVars | src/base/PerspCon.cpp:267-275 | the early-exit loop computes NVarsScan |
| Perspective.CheckNVars | src/base/PerspCon.cpp:261-276 | checkNVars over the nonlinear variable set in ascending order computes NVarsScan |
| Perspective.LVarsScanSpec | src/base/PerspCon.cpp:289-334 | with every linear variable other than b controlled the verdict is ub >= 0; otherwise the first uncontrolled one makes it ub <= 0 |
| Perspective.LVars | src/base/PerspCon.cpp:284-337 | without a linear part the check passes with no names; names come in pairs |
| Perspective.ScanLVars | src/base/PerspCon.cpp:290-334 | the loop that skips b and exits at the first uncontrolled variable computes LVarsScan |
| Perspective.CheckLVars | src/base/PerspCon.cpp:278-338 | checkLVars computes LVars |
| Perspective.BinaryLikeInSpec | src/base/PerspCon.cpp:588-607 | the inner scan collects exactly the Binary, ImplBin and [0,1]-Integer variables of the terms |
| Perspective.CandidatesOfSpec | src/base/PerspCon.cpp:564-607 | a constraint contributes candidates only when it is linear with two variables, and then exactly its 0/1 linear variables |
| Perspective.CandidatesInSpec | src/base/PerspCon.cpp:564-609 | the candidates over a list of constraints are the union of those per constraint |
| Perspective.CandidatesSpec | src/base/PerspCon.cpp:557-616 | the candidates of v are exactly the 0/1 variables that occur with v in a two-variable linear constraint |
| Perspective.AddBinaryLike | src/base/PerspCon.cpp:588-607 | the insertion loop adds exactly BinaryLikeIn to the set |
| Perspective.InitialBinary | src/base/PerspCon.cpp:557-616 | initialBinary inserts exactly the candidates of v into the given set |
| Perspective.FirstInSpec | src/base/PerspCon.cpp:169-183 | the first passing element of an ascending candidate list is the least passing candidate; none found means none passes |
| Perspective.WithIndicatorSpec | src/base/PerspCon.cpp:174-180 | the part checks accept b iff b passes both, report b, and leave names in pairs |
| Perspective.PassesSpec | src/base/PerspCon.cpp:174-193 | b passes iff every nonlinear variable has its witnesses and the linear-part check passes; then at least one name pair per nonlinear variable |
| Perspective.QuadraticOnlyReadsMissingPart | src/base/PerspCon.cpp:184-194 | a quadratic-only constraint x*x - 5*b <= 0 with binary b reaches the explicit-indicator path that reads the absent nonlinear part |
| Perspective.EvaluateRejects | src/base/PerspCon.cpp:120-134 | a Linear constraint, and a constraint whose type tally refuses, is never accepted |
| Perspective.EvaluateExplicit | src/base/PerspCon.cpp:137-194 | with an explicit indicator: accepted iff it is separable and passes both part checks, with that indicator |
| Perspective.EvaluateSearch | src/base/PerspCon.cpp:156-183 | without one: accepted iff some candidate of the first nonlinear variable passes; the least passing candidate wins; a rejection leaves both name lists empty |
| Perspective.EvaluateSound | src/base/PerspCon.cpp:115-203 | an accepted constraint is nonlinear, has a 0/1 indicator outside the quadratic part (and outside the nonlinear part when there is no quadratic one) that passes both part checks |
| Perspective.CheckParts | src/base/PerspCon.cpp:174-180 | checkNVars then checkLVars, appending to the same lists, computes WithIndicator |
| Perspective.SearchIndicator | src/base/PerspCon.cpp:169-183 | the candidate loop returns the first passing candidate in ascending order with its names, and clears the lists after each failing one |
| Perspective.SearchPath | src/base/PerspCon.cpp:156-183 | the no-indicator path computes Evaluate |
| Perspective.EvalConstraint | src/base/PerspCon.cpp:115-203 | evalConstraint returns true iff Evaluate accepts; it reports Evaluate's indicator and leaves Evaluate's names |
| Perspective.CollectSpec | src/base/PerspCon.cpp:63-103 | every record carries an accepted outcome and its constraint's id; no record iff every constraint is rejected |
| Perspective.CollectPush | src/base/PerspCon.cpp:75-87 | one more constraint adds its record exactly when it is accepted |
| Perspective.DetectEmpty | src/base/PerspCon.cpp:618-625 | no record (getStatus false) iff every constraint is rejected |
| Perspective.DetectSpec | src/base/PerspCon.cpp:63-103 | every record stems from an accepted, nonlinear constraint whose outcome it carries |
| Perspective.Zip | src/base/PerspCon.cpp:82-87 | the i-th record reads the i-th entry of each of the four lists |
| Perspective.ZipAppend | src/base/PerspCon.cpp:82-87 | appending to each list appends the records |
| Perspective.ZipPush | src/base/PerspCon.cpp:82-87 | pushing one entry onto each list appends exactly one record |
| Perspective.DetectAll | src/base/PerspCon.cpp:63-103 | the detection loop keeps the four lists of equal length and their records equal to Detect |
| Perspective.Extend | src/base/PerspCon.cpp:56-113 | running the loop on top of existing lists appends Detect; the count grows by the number of accepted constraints; the lists are nonempty iff they were or some constraint is accepted |
| Perspective.PerspCon.constructor | src/base/PerspCon.cpp:41-52 | the four lists start empty and of equal length |
| Perspective.PerspCon.GenerateList | src/base/PerspCon.cpp:56-113 | the lists stay of equal length, gain Detect's records in constraint order, the count line grows by their number, and getStatus becomes true iff some constraint was accepted or it already was |
| Problems.VarTally | src/base/Problem.cpp:471-500 | the recount never counts more variables than there are |
| Problems.VarTallyCounted | src/base/Problem.cpp:471-500 | the recount counts every variable iff none is an ImplBin or an ImplInt |
| Problems.VarTallyMixed | src/base/Problem.cpp:471-500 | bins + ints > 0 after a recount iff some variable is Binary or Integer |
| Problems.CountType | src/base/Problem.cpp:392-411 | linCons grows exactly for Constant or Linear; the linear, bilinear and quadratic buckets together grow exactly for those and Bilinear and Quadratic |
| Problems.TypeTallyTotal | src/base/Problem.cpp:392-411 | every constraint lands in exactly one type bucket: the buckets sum to the number of constraints |
| Problems.PartTally | src/base/Problem.cpp:412-425 | each consWith counter is at most the number of constraints; consWithBilin and consWithMultilin stay 0 |
| Problems.TypeTallyLinear | src/base/Problem.cpp:392-411 | linCons equals the number of constraints iff every constraint is Constant or Linear |
| Problems.TypeTallyQuadratic | src/base/Problem.cpp:392-411 | linCons + bilinCons + quadCons equals the number of constraints iff every constraint is Constant, Linear, Bilinear or Quadratic |
| Problems.CountVarTypes | src/base/Problem.cpp:471-500 | the counting loop computes VarTally |
| Problems.CountTypeStep | src/base/Problem.cpp:393-411 | the switch on the function type computes CountType |
| Problems.CountPartsStep | src/base/Problem.cpp:412-425 | the part counting computes CountParts |
| Problems.CountConsTypes | src/base/Problem.cpp:381-442 | the counting loop computes TypeTally and PartTally |
| Problems.RetypeAsWrittenMoves | src/base/Problem.cpp:1143-1177 | setVarType's update as written keeps counters below 2^32 and changes their sum by 0 or ±2^32; by 0 when the old type's counter is positive and the new type's below its largest value |
| Problems.RetypeAsWrittenWraps | src/base/Problem.cpp:1148-1171 | as written, retyping an ImplBin variable to Continuous after a recount wraps bins to 4294967295, while a recount gives 0 |
| Problems.VarTallyRetype | src/base/Problem.cpp:1143-1177 | with the recount's buckets the update turns the recount of the old variables into the recount of the retyped ones |
| Problems.Classify | src/base/Problem.cpp:582-601 | the answer is a mixed-integer class iff bins + ints > 0, and POLYP or MIPOLYP only on a positive polynomial test |
| Problems.IsLinearSpec | src/base/Problem.cpp:766-776 | isLinear holds iff findType would answer LP or MILP from the same record; false without a record |
| Problems.IsQPSpec | src/base/Problem.cpp:809-822 | isQP holds iff findType would answer QP or MIQP; false without a record |
| Problems.IsQuadraticSpec | src/base/Problem.cpp:824-838 | when every constraint is in one bucket, each QP and QCQP answer of findType implies isQuadratic, and isQuadratic excludes isLinear |
| Problems.QuadraticLinearObjective | src/base/Problem.cpp:824-838 | a quadratic constraint under a linear objective satisfies isQuadratic while findType answers NLP |
| Problems.ClassifyRecount | src/base/Problem.cpp:582-601 | over a recount: LP/MILP iff all constraints and the objective are Constant or Linear; QP/MIQP iff the constraints are and the objective is Quadratic or Bilinear; QCQP/MIQCQP iff some constraint is not linear, all are at most quadratic and the objective is quadratic; mixed iff some variable is Binary or Integer; never POLYP or MIPOLYP |
| Problems.PushVar | src/base/Problem.cpp:992-1003 | a new variable with the next id and the next position keeps positions 0..n-1 and ascending ids below the counter |
| Problems.PushVarLinked | src/base/Problem.cpp:992-1003 | a new variable without back-references keeps them exact, unless a constraint already used its id |
| Problems.AttachAll | src/base/Problem.cpp:898-902 | the loop over the function's variables computes Attach |
| Problems.AttachLinked | src/base/Problem.cpp:893-910 | appending a constraint and attaching it keeps every back-reference list exactly the ids of the constraints that use the variable |
| Problems.MentioningAscending | src/base/Problem.cpp:898-902 | along a constraint vector with ascending ids, the constraints using a variable come in ascending id order |
| Problems.LinkedAscending | src/base/Problem.cpp:893-910 | in a well-numbered arena with exact back-references, every variable's back-references ascend by id |
| Problems.PushCon | src/base/Problem.cpp:893-910 | a new constraint with the next id and the next position keeps the arena well numbered |
| Problems.ReindexVars | src/base/Problem.cpp:559-564 | the survivors are renumbered 0..n-1 and change in nothing else |
| Problems.ReindexCons | src/base/Problem.cpp:533-538 | the same for constraints |
| Problems.StripMentioning | src/base/Problem.cpp:526-531 | removing the deleted ids from the exact back-references of x leaves exactly those of the live constraints |
| Problems.CompactLinked | src/base/Problem.cpp:505-545 | delMarkedCons keeps the back-references exact |
| Problems.FilterConIds | src/base/Problem.cpp:513-541 | the surviving constraints still have ascending ids below the counter |
| Problems.FilterVarIds | src/base/Problem.cpp:553-569 | the surviving variables still have ascending ids below the counter |
| Problems.FilterVarsLinked | src/base/Problem.cpp:548-579 | dropping deleted variables keeps the back-references of the others exact |
| Problems.CompactVarsIdle | src/base/Problem.cpp:551 | with nothing marked, compacting the variables is the identity |
| Problems.CompactConsIdle | src/base/Problem.cpp:507 | with nothing marked, compacting the constraints is the identity on both vectors |
| Problems.CompactVars | src/base/Problem.cpp:553-571 | the loop keeps the live variables in order, renumbered 0..n-1 |
| Problems.CompactCons | src/base/Problem.cpp:505-545 | the three loops keep the live constraints in order, renumbered 0..n-1, and take the deleted ones out of the back-references |
| Problems.OutOfConstraint | src/base/Problem.cpp:526-531 | the loop over a deleted constraint's variables computes Detach |
| Problems.VarTallyAgree | src/base/Problem.cpp:471-500 | the variable recount reads only the variable types |
| Problems.ConsTallyAgree | src/base/Problem.cpp:381-442 | the constraint recount reads only the functions |
| Problems.MarkKeepsCounts | src/base/Problem.cpp:840-853 | marking a variable or a constraint deleted changes no counter of a recount |
| Problems.IsPolyp | src/base/Problem.cpp:790-806 | isPolyp_ answers false for every problem |
| Problems.FillPoint | src/base/Problem.cpp:1117-1118 | the first k entries come from x, zeros follow up to n, and the rest of the buffer is untouched |
| Problems.StaleInitialPoint | src/base/Problem.cpp:1094-1118 | as written, a buffer allocated for one variable is reused after a second is added, and a two-entry point does not fit |
| Problems.BufferCorrected | src/base/Problem.cpp:1103-1119 | with reallocation the buffer holds every variable, and an existing one large enough is kept |
| Problems.CorrectedFits | src/base/Problem.cpp:1103-1119 | with reallocation every write of a call with k <= n fits |
| Problems.NewVarKeeps | src/base/Problem.cpp:992-1003 | newVariable keeps the container invariant, and exact back-references unless the id was already used |
| Problems.NewConKeeps | src/base/Problem.cpp:893-910 | newConstraint keeps the container invariant and exact back-references |
| Problems.MarkConKeeps | src/base/Problem.cpp:840-844 | markDelete(con) keeps the invariant, with numDCons one higher, and the back-references exact |
| Problems.MarkVarKeeps | src/base/Problem.cpp:847-853 | markDelete(var) keeps the invariant, with numDVars one higher, and the back-references exact |
| Problems.DetachAllShape | src/base/Problem.cpp:526-531 | taking deleted constraints out of the back-references keeps each variable's id, position and state |
| Problems.FilterLiveCons | src/base/Problem.cpp:513-541 | after compaction every constraint is live and at its position |
| Problems.DelConsKeeps | src/base/Problem.cpp:505-545 | delMarkedCons keeps the invariant with numDCons 0, and the back-references exact |
| Problems.DelVarsKeeps | src/base/Problem.cpp:548-579 | delMarkedVars keeps the invariant with numDVars 0, and the back-references exact |
| Problems.VarsTouchedKeeps | src/base/Problem.cpp:1143-1177 | a change to the variables that raises varsModed and keeps ids, positions and states keeps the invariant |
| Problems.RecountKeeps | src/base/Problem.cpp:101-125 | a recount with both flags cleared keeps the invariant |
| Problems.DelConsStep | src/base/Problem.cpp:505-545 | the compaction of the constraints on values, keeping the invariant |
| Problems.DelVarsStep | src/base/Problem.cpp:548-579 | the compaction of the variables on values, keeping the invariant |
| Problems.AddConStep | src/base/Problem.cpp:893-910 | the created constraint has the next id and position, the variables get it as back-reference, and the invariant holds |
| Problems.RetypeStep | src/base/Problem.cpp:1143-1177 | the retyped variables, the size record with one unit moved, counters that agreed with a recount still agree, and the invariant |
| Problems.Problem.constructor | src/base/Problem.cpp:35-52 | an empty problem: no entities, counters 0, flags false, no size record, no initial point |
| Problems.Problem.NewVariable | src/base/Problem.cpp:992-1003 | id nextVId, position the old number of variables, appended last, nextVId one higher, varsModed set, nothing else changed |
| Problems.Problem.NewVariableOfType | src/base/Problem.cpp:977-989 | the same, named "var" and the position |
| Problems.Problem.NewContinuousVariable | src/base/Problem.cpp:963-974 | the same, a free Continuous variable named by its position |
| Problems.Problem.NewBinaryVariable | src/base/Problem.cpp:884-890 | the same, a Binary variable with bounds [0, 1] |
| Problems.Problem.NewBinaryVariableUnnamed | src/base/Problem.cpp:870-881 | the same, named by its position |
| Problems.Problem.NewConstraint | src/base/Problem.cpp:893-910 | id nextCId, position the old number of constraints, appended last, every variable of f gets it as back-reference, consModed set, back-references stay exact |
| Problems.Problem.NewConstraintUnnamed | src/base/Problem.cpp:913-931 | the same, named "cons" and the position |
| Problems.Problem.NewObjective | src/base/Problem.cpp:951-960 | the objective is replaced and consModed set |
| Problems.Problem.MarkDeleteCons | src/base/Problem.cpp:840-844 | the constraint is marked deleted, numDCons is one higher, nothing else changes |
| Problems.Problem.MarkDeleteVar | src/base/Problem.cpp:847-853 | the variable is marked deleted, numDVars is one higher, nothing else changes |
| Problems.Problem.DelMarkedCons | src/base/Problem.cpp:505-545 | the live constraints in order renumbered 0..n-1, deleted ones out of the back-references, numDCons 0; a no-op when nothing is marked |
| Problems.Problem.DelMarkedVars | src/base/Problem.cpp:548-579 | the live variables in order renumbered 0..n-1, numDVars 0; a no-op when nothing is marked |
| Problems.Problem.SetVarType | src/base/Problem.cpp:1143-1177 | the variable is retyped and varsModed set; a size record moves one unit between buckets, so counters that agreed with a recount still do |
| Problems.Problem.CalculateSize | src/base/Problem.cpp:101-125 | both flags end false; the record is recounted when asked, when there was none or when something changed, and kept otherwise; either way it equals a recount |
| Problems.Problem.FindType | src/base/Problem.cpp:582-601 | the class of the program as ClassifyRecount describes it, never POLYP or MIPOLYP, mixed iff some variable is Binary or Integer |
| Problems.Problem.SetInitialPoint | src/base/Problem.cpp:1103-1119 | a no-op without x or without variables; otherwise the first k entries of x then zeros, in a buffer that holds every variable; an existing buffer large enough is kept with its tail untouched |
| Problems.Problem.SetInitialPointAll | src/base/Problem.cpp:1085-1100 | a no-op without x or without variables; otherwise the first n entries of x, in a buffer that holds every variable; an existing buffer large enough is kept with its tail untouched |

## Left out

- Debug-file writing in `generateList` and the text of `displayInfo`. Only the
  count line of the report is modelled (`AcceptedCount`).
- `engine_` calls, `Logger`, `Jacobian`/`HessianOfLag`, `clone`, `subst`,
  `changeConstraint`, `write`/`writeSize`. These are foreign collaborators or
  output code. The problem is modelled with no engine loaded, so the engine
  assertions always hold.
- `delFixedVar_` in `delMarkedVars`. It rewrites constraint and objective
  functions, whose internals are not modelled. The model's constraints keep
  their functions.
- The fixed-variable count in `countVarTypes_` (a floating-point tolerance)
  and `findVarFunTypes_`. Neither feeds `findType`.
- Functions are values. Their structural type is a field rather than the
  result of a classifier. A term count is the size of the part's term map.
- Objectives are modelled as an optional function only. Their name, constant
  and sense are not modelled.
- The default argument of `calculateSize` and the initial objective type of a
  new size record come from headers that are not part of this model.
  `findType` is modelled as calling it with `false`, and the initial type is
  the constructor parameter `freshObjType`.
- The 32-bit width of `nextVId_`, `nextCId_`, `numDCons_`, `numDVars_` and of
  the counters filled by `countConsTypes_`. These are unbounded naturals.
- Problems.VarTallyRetype: requires fewer than 2^32 variables, so that no
  counter of a recount wraps.
- Problems.Problem.SetVarType: moves units between the buckets the recount
  uses (ImplBin and ImplInt in no bucket), not the buckets of the code as
  written; see Findings.
- Problems.Problem.SetInitialPoint: reallocates a buffer that is too short;
  the code as written does not; see Findings.
- Problems.Problem.SetInitialPointAll: reallocates a buffer that is too
  short, as `SetInitialPoint` does; the one-argument `setInitialPoint` as
  written (src/base/Problem.cpp:1094-1099) reuses it; see Findings.
- Problems.Problem.DelMarkedCons: a constraint created without a function
  (`newConstraint` accepts a null one, src/base/Problem.cpp:899) is stored
  with `Entities.Empty`, so deleting it detaches nothing. The code as
  written reads that null function's variables at
  src/base/Problem.cpp:528-529; the model does not capture that
  dereference. The same holds for `Problems.CompactCons` and
  `Problems.Detach`. How `Constraint` reports the type of a null function
  is in Constraint.cpp, which is not part of this model; the model counts
  it as Constant.
- Problems.Problem.NewVariable: keeps back-references exact only when no
  constraint already names the new identifier. A function using a variable
  that is not (yet) in the problem is not modelled further.
- Variables and constraints are addressed by position in `markDelete` and
  `setVarType`. Aliasing of shared pointers outside the container is not
  modelled.
- The null nonlinear-part dereferences at src/base/PerspCon.cpp:160 and :187
  are preconditions (`ReadsNonlinearSafely`), not a modelled crash. They
  are reachable: `QuadraticOnlyReadsMissingPart` exhibits x*x - 5*b <= 0,
  which reaches :187 without a nonlinear part. What the code should do
  there is not evident from the source, so no corrected verdict is
  modelled.

## Findings

| source | as written | input that shows it | evidently intended | confidence | as-written member | corrected member |
|---|---|---|---|---|---|---|
| src/base/Problem.cpp:1148-1171 | `setVarType` counts ImplBin in bins and ImplInt in ints. The recount in `countVarTypes_` (src/base/Problem.cpp:476-490) counts neither type. | One ImplBin variable, `calculateSize()` (bins = 0), then `setVarType(v, Continuous)`: `--bins` wraps to 4294967295. | The incremental update uses the recount's buckets, so it agrees with a recount. | not executed | Problems.RetypeAsWrittenWraps | Problems.VarTallyRetype |
| src/base/Problem.cpp:1094-1118 | Both overloads of `setInitialPoint` allocate the buffer only when there is none. A later call after more variables were added copies (and, with `k`, fills) past its end. | One variable, `setInitialPoint(x, 1)`, a second `newVariable()`, then `setInitialPoint(y, 2)` (or `setInitialPoint(y)`): entry 1 of a one-entry buffer is written. | The buffer is reallocated whenever it is shorter than the number of variables. | not executed | Problems.StaleInitialPoint | Problems.Problem.SetInitialPoint |
