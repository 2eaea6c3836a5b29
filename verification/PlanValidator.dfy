/** The whole plan validation (validate in tools/plan_validate.py) over loaded files. */
module PlanValidator {
  import opened Outcomes
  import opened PlanDocuments
  import opened PlanMrs
  import opened PlanTree
  import opened PlanMatrices

  datatype Plan = Plan(spec: Loaded, files: seq<StepFile>, matrices: Matrices)

  datatype InventoryCounts = InventoryCounts(gSteps: nat, tSteps: nat, aSteps: nat, concepts: nat, relations: nat, objects: nat)

  datatype Report = Report(ok: bool, inventory: InventoryCounts, findings: seq<Finding>)

  const BASELINE := InventoryCounts(7, 20, 92, 49, 0, 0)

  /** A clean concept file, and steps and matrices that are clean over its ids. */
  ghost predicate WellFormedPlan(plan: Plan) {
    && MrsWellFormed(plan.spec)
    && TreeWellFormed(plan.files, MrsIds(plan.spec))
    && MatricesWellFormed(plan.matrices, MrsIds(plan.spec))
  }

  ghost predicate PlanRaises(plan: Plan) {
    || MrsRaises(plan.spec)
    || (exists i | 0 <= i < |plan.files| :: FileRaises(plan.files[i]))
    || MatricesRaise(plan.matrices)
  }

  /** Everything the checks find, in the order they run. */
  ghost function PlanFindings(plan: Plan): seq<Finding>
    requires !PlanRaises(plan)
  {
    MrsFindings(plan.spec)
    + TreeFindings(plan.files, MrsIds(plan.spec))
    + MatrixFindings(plan.matrices, MrsIds(plan.spec))
  }

  lemma MrsIdsAreValid(data: Loaded)
    ensures forall s | s in MrsIds(data) :: MatchesId('C', s)
  {}

  function NoteOn(key: string, counted: nat, expected: nat): seq<Finding> {
    if counted != expected then [Finding(Inv, Info, Inventory, key)] else []
  }

  function InventoryNotes(inventory: InventoryCounts): seq<Finding> {
    NoteOn("g_steps", inventory.gSteps, BASELINE.gSteps) + NoteOn("t_steps", inventory.tSteps, BASELINE.tSteps)
    + NoteOn("a_steps", inventory.aSteps, BASELINE.aSteps) + NoteOn("concepts", inventory.concepts, BASELINE.concepts)
  }

  /** Which counts are noted: those other than 7 global, 20 tactical and 92 atomic steps and 49 concepts. */
  lemma InventoryNotesExact(inventory: InventoryCounts, f: Finding)
    ensures f in InventoryNotes(inventory) <==>
              && f.check == Inv && f.severity == Info && f.place == Inventory
              && (|| (f.subject == "g_steps" && inventory.gSteps != 7)
                  || (f.subject == "t_steps" && inventory.tSteps != 20)
                  || (f.subject == "a_steps" && inventory.aSteps != 92)
                  || (f.subject == "concepts" && inventory.concepts != 49))
  {}

  /** What the inventory counts: mapping files of each kind, concept ids, relations
      that are mappings, and object names met. */
  lemma InventoryMeaning(plan: Plan)
    ensures var inventory := InventoryOf(plan);
            && inventory.gSteps == |OfKind(plan.files, G)|
            && inventory.tSteps == |OfKind(plan.files, T)|
            && inventory.aSteps == |OfKind(plan.files, A)|
            && inventory.concepts == |MrsIds(plan.spec)|
            && inventory.relations == MrsRelationCount(plan.spec)
            && inventory.objects == ObjectCount(plan.matrices.objects)
  {
    CountsExact(plan.files);
  }

  /** Differences from the baseline inventory are told, one note each, never as errors. */
  method CompareInventory(inventory: InventoryCounts, findings: Findings)
    modifies findings
    ensures AnyError(findings.items) <==> AnyError(old(findings.items))
    ensures findings.items == old(findings.items) + InventoryNotes(inventory)
  {
    if inventory.gSteps != BASELINE.gSteps { Note("g_steps", findings); }
    if inventory.tSteps != BASELINE.tSteps { Note("t_steps", findings); }
    if inventory.aSteps != BASELINE.aSteps { Note("a_steps", findings); }
    if inventory.concepts != BASELINE.concepts { Note("concepts", findings); }
    NotesAppend(old(findings.items), inventory);
  }

  lemma NotesAppend(base: seq<Finding>, inventory: InventoryCounts)
    ensures base + InventoryNotes(inventory)
         == base + NoteOn("g_steps", inventory.gSteps, BASELINE.gSteps) + NoteOn("t_steps", inventory.tSteps, BASELINE.tSteps)
            + NoteOn("a_steps", inventory.aSteps, BASELINE.aSteps) + NoteOn("concepts", inventory.concepts, BASELINE.concepts)
  {}

  method Note(key: string, findings: Findings)
    modifies findings
    ensures findings.items == old(findings.items) + [Finding(Inv, Info, Inventory, key)]
    ensures AnyError(findings.items) <==> AnyError(old(findings.items))
  {
    AnyErrorConcat(findings.items, [Finding(Inv, Info, Inventory, key)]);
    findings.Add(Inv, Info, Inventory, key);
  }

  function InventoryOf(plan: Plan): InventoryCounts {
    var steps := CountsOf(plan.files);
    InventoryCounts(steps.g, steps.t, steps.a,
                    |MrsIds(plan.spec)|, MrsRelationCount(plan.spec), ObjectCount(plan.matrices.objects))
  }

  /** The steps and matrices, checked against the ids of the concept file. */
  method CheckAgainst(ids: set<string>, plan: Plan, findings: Findings) returns (counts: Outcome<(Counts, nat)>)
    requires forall s | s in ids :: MatchesId('C', s)
    modifies findings
    ensures counts.Raised? <==> (exists i | 0 <= i < |plan.files| :: FileRaises(plan.files[i])) || MatricesRaise(plan.matrices)
    ensures counts.Returned? ==>
              && findings.items == old(findings.items) + TreeFindings(plan.files, ids) + MatrixFindings(plan.matrices, ids)
              && counts.value == (CountsOf(plan.files), ObjectCount(plan.matrices.objects))
  {
    var tree := CheckPlanTree(plan.files, ids, findings);
    if tree.Raised? { return Raised(tree.exception); }
    var objects := CheckMatrices(plan.matrices, ids, findings);
    if objects.Raised? { return Raised(objects.exception); }
    counts := Returned((tree.value, objects.value));
  }

  /** The three groups of checks, and the inventory they count. */
  method RunChecks(plan: Plan, findings: Findings) returns (inventory: Outcome<InventoryCounts>)
    requires findings.items == []
    modifies findings
    ensures inventory.Raised? <==> PlanRaises(plan)
    ensures inventory.Returned? ==> findings.items == PlanFindings(plan) && inventory.value == InventoryOf(plan)
  {
    var mrs := CheckMrs(plan.spec, findings);
    if mrs.Raised? { return Raised(mrs.exception); }
    MrsIdsAreValid(plan.spec);
    assert findings.items == MrsFindings(plan.spec);
    var counts := CheckAgainst(mrs.value.conceptIds, plan, findings);
    if counts.Raised? { return Raised(counts.exception); }
    var (steps, objects) := counts.value;
    inventory := Returned(InventoryCounts(
      steps.g, steps.t, steps.a, |mrs.value.conceptIds|, mrs.value.relationCount, objects));
  }

  /** The validator accepts exactly the well-formed plans. It raises exactly when
      loading a file does, or some value it must look up or run through does not allow that. */
  method Validate(plan: Plan) returns (result: Outcome<Report>)
    ensures result.Raised? <==> PlanRaises(plan)
    ensures result.Returned? ==>
              && (result.value.ok <==> WellFormedPlan(plan))
              && result.value.inventory == InventoryOf(plan)
              && result.value.findings == PlanFindings(plan) + InventoryNotes(InventoryOf(plan))
  {
    var findings := new Findings();
    var inventory := RunChecks(plan, findings);
    if inventory.Raised? { return Raised(inventory.exception); }
    VerdictOf(plan);
    CompareInventory(inventory.value, findings);
    var errors := findings.HasErrors();
    result := Returned(Report(!errors, inventory.value, findings.items));
  }

  lemma VerdictOf(plan: Plan)
    requires !PlanRaises(plan)
    ensures !AnyError(PlanFindings(plan)) <==> WellFormedPlan(plan)
  {
    var a, b := MrsFindings(plan.spec), TreeFindings(plan.files, MrsIds(plan.spec));
    AnyErrorConcat(a + b, MatrixFindings(plan.matrices, MrsIds(plan.spec)));
    AnyErrorConcat(a, b);
    MrsErrorFree(plan.spec);
    TreeErrorFree(plan.files, MrsIds(plan.spec));
    MatricesErrorFree(plan.matrices, MrsIds(plan.spec));
  }

  // ----- empty files -----

  /** A well-formed plan in which the concept file and every step file hold a mapping
      and the first matrix really mentions every concept. */
  ghost predicate WellFormedWithoutEmptyFiles(plan: Plan) {
    && MrsWellFormed(plan.spec) && Shaped(plan.spec)
    && TreeWellFormed(plan.files, MrsIds(plan.spec))
    && (forall i | 0 <= i < |plan.files| :: IsArtifact(plan.files[i]))
    && MatricesWellFormed(plan.matrices, MrsIds(plan.spec))
    && forall s | s in MrsIds(plan.spec) :: Occurs(plan.matrices.gs.doc, s)
  }

  /** An empty file is skipped by its check. That matters for a plan that passes
      exactly when the concept file is empty, a step file is, or the first matrix is
      although there are concepts to cover. */
  lemma EmptyFilesPass(plan: Plan)
    requires WellFormedPlan(plan)
    ensures !WellFormedWithoutEmptyFiles(plan) <==>
              || plan.spec == Parsed(YNull)
              || (exists i | 0 <= i < |plan.files| :: plan.files[i].content == Parsed(YNull))
              || (plan.matrices.gs == Parsed(YNull) && MrsIds(plan.spec) != {})
  {
    forall i | 0 <= i < |plan.files| ensures IsArtifact(plan.files[i]) <==> plan.files[i].content != Parsed(YNull) {
      assert FileOk(plan.files[i], MrsIds(plan.spec));
    }
  }

  /** A plan of nothing but empty files is accepted. */
  lemma EmptyPlanAccepted(step: StepFile)
    requires step.content == Parsed(YNull)
    ensures var empty := Parsed(YNull);
            var plan := Plan(empty, [step], Matrices(empty, empty, empty));
            && !PlanRaises(plan) && WellFormedPlan(plan) && !WellFormedWithoutEmptyFiles(plan)
  {}
}
