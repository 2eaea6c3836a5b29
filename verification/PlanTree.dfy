/** Checks P1 to P4 of the step files (check_plan_tree in tools/plan_validate.py).
    The files come in the order the directory walk lists them. */
module PlanTree {
  import opened Outcomes
  import opened PlanDocuments

  datatype Kind = G | T | A

  /** One step file: its path, the names of the global and tactical directories above it, its document. */
  datatype StepFile = StepFile(kind: Kind, path: string, gDir: string, tDir: string, content: Loaded)

  function Letter(kind: Kind): char {
    match kind case G => 'G' case T => 'T' case A => 'A'
  }

  predicate IsArtifact(f: StepFile) {
    f.content.Parsed? && f.content.doc.YMap?
  }

  /** The step id, when it is a string at all. */
  function StepId(f: StepFile): Option<string> {
    if IsArtifact(f) && Get(f.content.doc.entries, "step_id").YStr?
    then Some(Get(f.content.doc.entries, "step_id").s) else None
  }

  /** Where an id must be unique: globally, within a global directory, or within a
      tactical directory name, whichever global directory that name is in. */
  function Bucket(f: StepFile): (Kind, string) {
    match f.kind
    case G => (G, "")
    case T => (T, f.gDir)
    case A => (A, f.tDir)
  }

  /** A valid id which, for global and tactical steps, starts the directory's name. */
  predicate IdOk(f: StepFile) {
    && StepId(f).Some?
    && MatchesId(Letter(f.kind), StepId(f).value)
    && (f.kind == G ==> StepId(f).value <= f.gDir)
    && (f.kind == T ==> StepId(f).value <= f.tDir)
  }

  function StepConcepts(f: StepFile): Outcome<seq<Yaml>>
    requires IsArtifact(f)
  {
    Iterate(Get(f.content.doc.entries, "concepts"))
  }

  predicate FileRaises(f: StepFile) {
    || f.content.LoadRaises?
    || (IsArtifact(f)
        && (StepConcepts(f).Raised? || exists i | 0 <= i < |StepConcepts(f).value| :: !Hashable(StepConcepts(f).value[i])))
  }

  type Slot = ((Kind, string), string)

  /** The bucket and id a file occupies. */
  function SlotOf(f: StepFile): Option<Slot> {
    if StepId(f).Some? then Some((Bucket(f), StepId(f).value)) else None
  }

  function Slots(files: seq<StepFile>): set<Slot> {
    set i | 0 <= i < |files| && SlotOf(files[i]).Some? :: SlotOf(files[i]).value
  }

  lemma SlotsStep(files: seq<StepFile>, n: nat)
    requires n < |files|
    ensures Slots(files[..n + 1]) == Slots(files[..n]) + (if SlotOf(files[n]).Some? then {SlotOf(files[n]).value} else {})
  {
    var all := files[..n + 1];
    assert forall i | 0 <= i < n :: all[i] == files[..n][i];
    assert all[n] == files[n];
  }

  // ----- findings -----

  function UnknownConcepts(concepts: seq<Yaml>, path: string, ids: set<string>): (findings: seq<Finding>)
    ensures AllErrors(findings)
    ensures forall f | f in findings :: f.check == P4
    ensures findings == [] <==> forall i | 0 <= i < |concepts| :: IsIn(concepts[i], ids)
  {
    if concepts == [] then []
    else
      var n := |concepts| - 1;
      assert concepts == concepts[..n] + [concepts[n]];
      UnknownConcepts(concepts[..n], path, ids)
      + (if IsIn(concepts[n], ids) then [] else [Finding(P4, Error, StepAt(path), "")])
  }

  function IdFindings(f: StepFile, slots: set<Slot>): (findings: seq<Finding>)
    ensures AllErrors(findings)
    ensures findings == [] <==> IdOk(f) && SlotOf(f).value !in slots
    ensures CountP3(findings) == (if SlotOf(f).Some? && SlotOf(f).value in slots then 1 else 0)
  {
    var place := StepAt(f.path);
    var wrong := if IdOk(f) then [] else [Finding(P2, Error, place, StepId(f).GetOr(""))];
    var duplicate := if SlotOf(f).Some? && SlotOf(f).value in slots then [Finding(P3, Error, place, StepId(f).value)] else [];
    NoP3(wrong);
    CountP3Concat(wrong, duplicate);
    assert duplicate != [] ==> duplicate[..0] == [];
    wrong + duplicate
  }

  function CountP3(findings: seq<Finding>): nat {
    if findings == [] then 0
    else CountP3(findings[..|findings| - 1]) + (if findings[|findings| - 1].check == P3 then 1 else 0)
  }

  lemma {:induction false} CountP3Concat(a: seq<Finding>, b: seq<Finding>)
    ensures CountP3(a + b) == CountP3(a) + CountP3(b)
  {
    if b == [] {
      assert a + b == a;
    } else {
      assert (a + b)[..|a + b| - 1] == a + b[..|b| - 1];
      CountP3Concat(a, b[..|b| - 1]);
    }
  }

  lemma {:induction false} NoP3(findings: seq<Finding>)
    requires forall f | f in findings :: f.check != P3
    ensures CountP3(findings) == 0
  {
    if findings != [] { NoP3(findings[..|findings| - 1]); }
  }

  function FileFindings(f: StepFile, slots: set<Slot>, ids: set<string>): (findings: seq<Finding>)
    requires !FileRaises(f)
    ensures AllErrors(findings)
  {
    if f.content == Parsed(YNull) then []
    else if !IsArtifact(f) then [Finding(P1, Error, StepAt(f.path), "")]
    else IdFindings(f, slots) + UnknownConcepts(StepConcepts(f).value, f.path, ids)
  }

  /** A file that is empty, or a mapping with a good id and known concepts only. */
  predicate FileOk(f: StepFile, ids: set<string>) {
    || f.content == Parsed(YNull)
    || (&& IsArtifact(f) && IdOk(f) && StepConcepts(f).Returned?
        && forall i | 0 <= i < |StepConcepts(f).value| :: IsIn(StepConcepts(f).value[i], ids))
  }

  lemma FileClean(f: StepFile, slots: set<Slot>, ids: set<string>)
    requires !FileRaises(f)
    ensures FileFindings(f, slots, ids) == [] <==> FileOk(f, ids) && (SlotOf(f).Some? ==> SlotOf(f).value !in slots)
    ensures CountP3(FileFindings(f, slots, ids)) == (if SlotOf(f).Some? && SlotOf(f).value in slots then 1 else 0)
  {
    if IsArtifact(f) {
      var a, b := IdFindings(f, slots), UnknownConcepts(StepConcepts(f).value, f.path, ids);
      assert a + b == [] <==> a == [] && b == [];
      CountP3Concat(a, b);
      NoP3(b);
    }
  }

  function TreeFindings(files: seq<StepFile>, ids: set<string>): (findings: seq<Finding>)
    requires forall i | 0 <= i < |files| :: !FileRaises(files[i])
    ensures AllErrors(findings)
  {
    if files == [] then []
    else
      var n := |files| - 1;
      TreeFindings(files[..n], ids) + FileFindings(files[n], Slots(files[..n]), ids)
  }

  // ----- the check -----

  datatype Counts = Counts(g: nat, t: nat, a: nat)

  function Counted(counts: Counts, f: StepFile): Counts {
    if !IsArtifact(f) then counts
    else
      match f.kind
      case G => counts.(g := counts.g + 1)
      case T => counts.(t := counts.t + 1)
      case A => counts.(a := counts.a + 1)
  }

  /** How many mapping files of each kind there are. */
  function CountsOf(files: seq<StepFile>): Counts {
    if files == [] then Counts(0, 0, 0)
    else Counted(CountsOf(files[..|files| - 1]), files[|files| - 1])
  }

  /** The ids seen so far, as the check keeps them: one set of global ids, and one
      set of ids for each directory name. */
  class SeenIds {
    var gIds: set<string>
    var tIds: map<string, set<string>>
    var aIds: map<string, set<string>>

    constructor ()
      ensures gIds == {} && tIds == map[] && aIds == map[]
    {
      gIds, tIds, aIds := {}, map[], map[];
    }

    predicate Contains(slot: Slot)
      reads this
    {
      match slot.0.0
      case G => slot.0.1 == "" && slot.1 in gIds
      case T => slot.0.1 in tIds && slot.1 in tIds[slot.0.1]
      case A => slot.0.1 in aIds && slot.1 in aIds[slot.0.1]
    }

    ghost predicate Represents(slots: set<Slot>)
      reads this
    {
      forall slot :: Contains(slot) <==> slot in slots
    }

    /** Whether the id was already there; it is afterwards. */
    method Insert(f: StepFile, ghost slots: set<Slot>) returns (duplicate: bool)
      requires StepId(f).Some? && Represents(slots)
      modifies this
      ensures duplicate <==> SlotOf(f).value in slots
      ensures Represents(slots + {SlotOf(f).value})
    {
      var id := StepId(f).value;
      duplicate := Contains(SlotOf(f).value);
      match f.kind {
        case G => gIds := gIds + {id};
        case T => tIds := tIds[f.gDir := (if f.gDir in tIds then tIds[f.gDir] else {}) + {id}];
        case A => aIds := aIds[f.tDir := (if f.tDir in aIds then aIds[f.tDir] else {}) + {id}];
      }
    }
  }

  lemma UnknownExtend(base: seq<Finding>, concepts: seq<Yaml>, n: nat, path: string, ids: set<string>)
    requires n < |concepts|
    ensures base + UnknownConcepts(concepts[..n + 1], path, ids)
         == base + UnknownConcepts(concepts[..n], path, ids)
            + (if IsIn(concepts[n], ids) then [] else [Finding(P4, Error, StepAt(path), "")])
  {
    assert concepts[..n + 1][..n] == concepts[..n];
    Associate(base, UnknownConcepts(concepts[..n], path, ids),
              if IsIn(concepts[n], ids) then [] else [Finding(P4, Error, StepAt(path), "")]);
  }

  method CheckStepConcepts(concepts: seq<Yaml>, path: string, ids: set<string>, findings: Findings) returns (raised: bool)
    modifies findings
    ensures raised <==> exists i | 0 <= i < |concepts| :: !Hashable(concepts[i])
    ensures !raised ==> findings.items == old(findings.items) + UnknownConcepts(concepts, path, ids)
  {
    for i := 0 to |concepts|
      invariant forall j | 0 <= j < i :: Hashable(concepts[j])
      invariant findings.items == old(findings.items) + UnknownConcepts(concepts[..i], path, ids)
    {
      if !Hashable(concepts[i]) { return true; }
      UnknownExtend(old(findings.items), concepts, i, path, ids);
      if !IsIn(concepts[i], ids) {
        findings.Add(P4, Error, StepAt(path), "");
      }
    }
    assert concepts[..|concepts|] == concepts;
    raised := false;
  }

  method CheckId(f: StepFile, seen: SeenIds, ghost slots: set<Slot>, findings: Findings)
    requires IsArtifact(f) && seen.Represents(slots)
    modifies seen, findings
    ensures seen.Represents(slots + (if SlotOf(f).Some? then {SlotOf(f).value} else {}))
    ensures findings.items == old(findings.items) + IdFindings(f, slots)
  {
    if !IdOk(f) {
      findings.Add(P2, Error, StepAt(f.path), StepId(f).GetOr(""));
    }
    if StepId(f).Some? {
      var duplicate := seen.Insert(f, slots);
      if duplicate {
        findings.Add(P3, Error, StepAt(f.path), StepId(f).value);
      }
    } else {
      assert slots + {} == slots;
    }
  }

  method CheckFile(f: StepFile, seen: SeenIds, ghost slots: set<Slot>, ids: set<string>, findings: Findings) returns (raised: bool)
    requires seen.Represents(slots)
    modifies seen, findings
    ensures raised <==> FileRaises(f)
    ensures !raised ==>
              && seen.Represents(slots + (if SlotOf(f).Some? then {SlotOf(f).value} else {}))
              && findings.items == old(findings.items) + FileFindings(f, slots, ids)
  {
    if f.content.LoadRaises? { return true; }
    if !IsArtifact(f) {
      if f.content != Parsed(YNull) {
        findings.Add(P1, Error, StepAt(f.path), "");
      }
      assert slots + {} == slots;
      return false;
    }
    CheckId(f, seen, slots, findings);
    var concepts := StepConcepts(f);
    if concepts.Raised? { return true; }
    raised := CheckStepConcepts(concepts.value, f.path, ids, findings);
    FileFindingsAppend(old(findings.items), f, slots, ids);
  }

  lemma FileFindingsAppend(base: seq<Finding>, f: StepFile, slots: set<Slot>, ids: set<string>)
    requires IsArtifact(f) && StepConcepts(f).Returned?
    ensures !FileRaises(f) ==>
              base + FileFindings(f, slots, ids)
              == base + IdFindings(f, slots) + UnknownConcepts(StepConcepts(f).value, f.path, ids)
  {}

  lemma TreeExtend(base: seq<Finding>, files: seq<StepFile>, n: nat, ids: set<string>)
    requires n < |files| && forall i | 0 <= i <= n :: !FileRaises(files[i])
    ensures base + TreeFindings(files[..n + 1], ids)
         == base + TreeFindings(files[..n], ids) + FileFindings(files[n], Slots(files[..n]), ids)
    ensures CountsOf(files[..n + 1]) == Counted(CountsOf(files[..n]), files[n])
  {
    assert files[..n + 1][..n] == files[..n];
    Associate(base, TreeFindings(files[..n], ids), FileFindings(files[n], Slots(files[..n]), ids));
  }

  lemma Associate(a: seq<Finding>, b: seq<Finding>, c: seq<Finding>)
    ensures a + (b + c) == a + b + c
  {}

  method CheckPlanTree(files: seq<StepFile>, ids: set<string>, findings: Findings) returns (result: Outcome<Counts>)
    modifies findings
    ensures result.Raised? <==> exists i | 0 <= i < |files| :: FileRaises(files[i])
    ensures result.Returned? ==>
              && findings.items == old(findings.items) + TreeFindings(files, ids)
              && result.value == CountsOf(files)
  {
    var counts := Counts(0, 0, 0);
    var seen := new SeenIds();
    for n := 0 to |files|
      invariant forall i | 0 <= i < n :: !FileRaises(files[i])
      invariant seen.Represents(Slots(files[..n]))
      invariant findings.items == old(findings.items) + TreeFindings(files[..n], ids)
      invariant counts == CountsOf(files[..n])
    {
      SlotsStep(files, n);
      var raised := CheckFile(files[n], seen, Slots(files[..n]), ids, findings);
      if raised { return Raised(if files[n].content.LoadRaises? then files[n].content.exception else TYPE_ERROR); }
      TreeExtend(old(findings.items), files, n, ids);
      if IsArtifact(files[n]) {
        match files[n].kind {
          case G => counts := counts.(g := counts.g + 1);
          case T => counts := counts.(t := counts.t + 1);
          case A => counts := counts.(a := counts.a + 1);
        }
      }
    }
    assert files[..|files|] == files;
    result := Returned(counts);
  }

  // ----- what the check decides -----

  ghost predicate TreeWellFormed(files: seq<StepFile>, ids: set<string>) {
    && (forall i | 0 <= i < |files| :: FileOk(files[i], ids))
    && (forall i, j | 0 <= i < j < |files| && SlotOf(files[i]).Some? :: SlotOf(files[i]) != SlotOf(files[j]))
  }

  /** Sound and complete: no error is reported exactly for a tree of good files
      without two equal ids in one bucket. */
  lemma {:induction false} TreeErrorFree(files: seq<StepFile>, ids: set<string>)
    requires forall i | 0 <= i < |files| :: !FileRaises(files[i])
    ensures !AnyError(TreeFindings(files, ids)) <==> TreeWellFormed(files, ids)
  {
    ErrorsOnly(TreeFindings(files, ids));
    TreeClean(files, ids);
  }

  lemma {:induction false} TreeClean(files: seq<StepFile>, ids: set<string>)
    requires forall i | 0 <= i < |files| :: !FileRaises(files[i])
    ensures TreeFindings(files, ids) == [] <==> TreeWellFormed(files, ids)
  {
    if files != [] {
      var n := |files| - 1;
      TreeClean(files[..n], ids);
      FileClean(files[n], Slots(files[..n]), ids);
      TreeWellFormedStep(files, ids);
      var a, b := TreeFindings(files[..n], ids), FileFindings(files[n], Slots(files[..n]), ids);
      assert a + b == [] <==> a == [] && b == [];
    }
  }

  lemma TreeWellFormedStep(files: seq<StepFile>, ids: set<string>)
    requires files != []
    ensures var n := |files| - 1;
            TreeWellFormed(files, ids) <==>
              && TreeWellFormed(files[..n], ids) && FileOk(files[n], ids)
              && (SlotOf(files[n]).Some? ==> SlotOf(files[n]).value !in Slots(files[..n]))
  {
    var n := |files| - 1;
    var prefix := files[..n];
    assert forall i | 0 <= i < n :: prefix[i] == files[i];
    if SlotOf(files[n]).Some? && SlotOf(files[n]).value !in Slots(prefix) {
      forall i | 0 <= i < n && SlotOf(files[i]).Some? ensures SlotOf(files[i]) != SlotOf(files[n]) {
        assert SlotOf(prefix[i]).value in Slots(prefix);
      }
    }
  }

  function StringIdFiles(files: seq<StepFile>): nat {
    if files == [] then 0
    else StringIdFiles(files[..|files| - 1]) + (if StepId(files[|files| - 1]).Some? then 1 else 0)
  }

  lemma LastStep(files: seq<StepFile>, ids: set<string>)
    requires files != [] && forall i | 0 <= i < |files| :: !FileRaises(files[i])
    ensures var n := |files| - 1;
            var repeated := SlotOf(files[n]).Some? && SlotOf(files[n]).value in Slots(files[..n]);
            && CountP3(TreeFindings(files, ids)) == CountP3(TreeFindings(files[..n], ids)) + (if repeated then 1 else 0)
            && |Slots(files)| == |Slots(files[..n])| + (if SlotOf(files[n]).Some? && !repeated then 1 else 0)
  {
    var n := |files| - 1;
    var before := Slots(files[..n]);
    FileClean(files[n], before, ids);
    CountP3Concat(TreeFindings(files[..n], ids), FileFindings(files[n], before, ids));
    SlotsStep(files, n);
    assert files[..n + 1] == files;
    if SlotOf(files[n]).Some? && SlotOf(files[n]).value in before {
      assert before + {SlotOf(files[n]).value} == before;
    }
  }

  /** The uniqueness errors number exactly the files with an id less the distinct
      bucket and id pairs. */
  lemma {:induction false} UniquenessErrorCount(files: seq<StepFile>, ids: set<string>)
    requires forall i | 0 <= i < |files| :: !FileRaises(files[i])
    ensures CountP3(TreeFindings(files, ids)) + |Slots(files)| == StringIdFiles(files)
  {
    if files != [] {
      UniquenessErrorCount(files[..|files| - 1], ids);
      LastStep(files, ids);
    }
  }

  // ----- the scope of atomic step ids -----

  /** The scope a step belongs to: for an atomic step, the one tactical step it is in. */
  function Scope(f: StepFile): (Kind, string, string) {
    match f.kind
    case G => (G, "", "")
    case T => (T, f.gDir, "")
    case A => (A, f.gDir, f.tDir)
  }

  predicate SameId(f: StepFile, g: StepFile) {
    StepId(f).Some? && StepId(f) == StepId(g)
  }

  /** Two files clash in the check exactly when they share an id within one scope,
      or are atomic steps of equally named tactical directories in different global
      directories: that second kind is reported although the scopes differ. */
  lemma ClashExact(f: StepFile, g: StepFile)
    ensures SlotOf(f).Some? && SlotOf(f) == SlotOf(g) <==>
              SameId(f, g) && (Scope(f) == Scope(g) || (f.kind == A && g.kind == A && f.tDir == g.tDir && f.gDir != g.gDir))
  {}

  /** Two atomic steps with one id, in equally named tactical directories of different global ones. */
  predicate CrossPair(f: StepFile, g: StepFile) {
    SameId(f, g) && f.kind == A && g.kind == A && f.tDir == g.tDir && f.gDir != g.gDir
  }

  /** Good files, each id once in its own scope. */
  ghost predicate ScopedTreeWellFormed(files: seq<StepFile>, ids: set<string>) {
    && (forall i | 0 <= i < |files| :: FileOk(files[i], ids))
    && (forall i, j | 0 <= i < j < |files| && SameId(files[i], files[j]) :: Scope(files[i]) != Scope(files[j]))
  }

  /** The check accepts exactly the trees with unique ids in every scope and no such pair. */
  lemma ScopedTreeExact(files: seq<StepFile>, ids: set<string>)
    requires forall i | 0 <= i < |files| :: !FileRaises(files[i])
    ensures !AnyError(TreeFindings(files, ids)) <==>
              && ScopedTreeWellFormed(files, ids)
              && forall i, j | 0 <= i < j < |files| :: !CrossPair(files[i], files[j])
  {
    TreeErrorFree(files, ids);
    forall i, j | 0 <= i < j < |files|
      ensures SlotOf(files[i]).Some? && SlotOf(files[i]) == SlotOf(files[j]) <==>
                SameId(files[i], files[j]) && (Scope(files[i]) == Scope(files[j]) || CrossPair(files[i], files[j]))
    {
      ClashExact(files[i], files[j]);
    }
  }

  function AtomicStep(gDir: string, path: string): StepFile {
    StepFile(A, path, gDir, "T-001", Parsed(YMap([Entry(YStr("step_id"), YStr("A-001"))])))
  }

  /** Two files each alone in its tactical step, rejected because both directories are named T-001. */
  lemma CrossPairRejected(ids: set<string>)
    ensures var files := [AtomicStep("G-001", "G-001/T-001/A-001"), AtomicStep("G-002", "G-002/T-001/A-001")];
            && (forall i | 0 <= i < |files| :: !FileRaises(files[i]))
            && ScopedTreeWellFormed(files, ids)
            && AnyError(TreeFindings(files, ids))
  {
    var files := [AtomicStep("G-001", "G-001/T-001/A-001"), AtomicStep("G-002", "G-002/T-001/A-001")];
    forall i | 0 <= i < |files| ensures FileOk(files[i], ids) && !FileRaises(files[i]) && StepId(files[i]) == Some("A-001") {
      assert files[i].content.doc.entries[1..] == [];
      assert Get(files[i].content.doc.entries, "concepts") == YNull;
    }
    assert Scope(files[0]) != Scope(files[1]);
    assert CrossPair(files[0], files[1]);
    ScopedTreeExact(files, ids);
  }

  // ----- the rules, spelled out -----

  /** What a good step id is, for each kind of step. */
  lemma StepIdMeaning(f: StepFile, id: string)
    requires f.content.Parsed? && f.content.doc.YMap? && Get(f.content.doc.entries, "step_id") == YStr(id)
    ensures f.kind == G ==> (IdOk(f) <==> MatchesId('G', id) && id <= f.gDir)
    ensures f.kind == T ==> (IdOk(f) <==> MatchesId('T', id) && id <= f.tDir)
    ensures f.kind == A ==> (IdOk(f) <==> MatchesId('A', id))
    ensures StepId(f) == Some(id)
  {}

  /** What a good step file is: a mapping with a good string id and known concepts, or empty. */
  lemma GoodFileMeaning(f: StepFile, ids: set<string>)
    ensures FileOk(f, ids) <==>
              || f.content == Parsed(YNull)
              || (&& f.content.Parsed? && f.content.doc.YMap?
                  && Get(f.content.doc.entries, "step_id").YStr? && IdOk(f)
                  && var concepts := Iterate(Get(f.content.doc.entries, "concepts"));
                     && concepts.Returned?
                     && forall i | 0 <= i < |concepts.value| :: concepts.value[i].YStr? && concepts.value[i].s in ids)
  {}

  /** Which findings one file gives: it is no mapping, its id is bad, its id is taken, or a concept is unknown. */
  lemma FileFindingsExact(f: StepFile, slots: set<Slot>, ids: set<string>, finding: Finding)
    requires !FileRaises(f)
    ensures finding in FileFindings(f, slots, ids) <==>
              && f.content != Parsed(YNull) && finding.severity == Error && finding.place == StepAt(f.path)
              && (if !(f.content.Parsed? && f.content.doc.YMap?) then finding.check == P1 && finding.subject == ""
                  else
                    || (finding.check == P2 && !IdOk(f) && finding.subject == StepId(f).GetOr(""))
                    || (finding.check == P3 && StepId(f) == Some(finding.subject) && SlotOf(f).value in slots)
                    || (finding.check == P4 && finding.subject == ""
                        && exists i | 0 <= i < |StepConcepts(f).value| :: !IsIn(StepConcepts(f).value[i], ids)))
  {
    if IsArtifact(f) { UnknownConceptsExact(StepConcepts(f).value, f.path, ids, finding); }
  }

  lemma {:induction false} UnknownConceptsExact(concepts: seq<Yaml>, path: string, ids: set<string>, finding: Finding)
    ensures finding in UnknownConcepts(concepts, path, ids) <==>
              finding == Finding(P4, Error, StepAt(path), "") && exists i | 0 <= i < |concepts| :: !IsIn(concepts[i], ids)
  {
    if concepts != [] { UnknownConceptsExact(concepts[..|concepts| - 1], path, ids, finding); }
  }

  /** A finding of the i-th file, against the ids of the files before it. */
  predicate OfFile(files: seq<StepFile>, ids: set<string>, i: int, finding: Finding) {
    0 <= i < |files| && !FileRaises(files[i]) && finding in FileFindings(files[i], Slots(files[..i]), ids)
  }

  lemma OfFilePrefix(files: seq<StepFile>, ids: set<string>, n: nat, i: int, finding: Finding)
    requires n <= |files|
    ensures OfFile(files[..n], ids, i, finding) <==> i < n && OfFile(files, ids, i, finding)
  {
    if 0 <= i < n { assert files[..n][..i] == files[..i]; }
  }

  lemma SomeFile(files: seq<StepFile>, ids: set<string>, finding: Finding)
    requires files != []
    ensures var n := |files| - 1;
            (exists i :: OfFile(files, ids, i, finding))
            <==> (exists i :: OfFile(files[..n], ids, i, finding)) || OfFile(files, ids, n, finding)
  {
    var n := |files| - 1;
    if i :| OfFile(files[..n], ids, i, finding) { OfFilePrefix(files, ids, n, i, finding); }
    if i :| OfFile(files, ids, i, finding) { OfFilePrefix(files, ids, n, i, finding); }
  }

  /** Every finding of the tree is one of some file. */
  lemma {:induction false} TreeFindingsExact(files: seq<StepFile>, ids: set<string>, finding: Finding)
    requires forall i | 0 <= i < |files| :: !FileRaises(files[i])
    ensures finding in TreeFindings(files, ids) <==> exists i :: OfFile(files, ids, i, finding)
  {
    if files != [] {
      var n := |files| - 1;
      TreeFindingsExact(files[..n], ids, finding);
      SomeFile(files, ids, finding);
      FindingOfConcat(TreeFindings(files[..n], ids), FileFindings(files[n], Slots(files[..n]), ids), finding);
    }
  }

  predicate CountsAs(f: StepFile, kind: Kind) {
    f.kind == kind && f.content.Parsed? && f.content.doc.YMap?
  }

  function OfKind(files: seq<StepFile>, kind: Kind): set<int> {
    set i | 0 <= i < |files| && CountsAs(files[i], kind)
  }

  lemma OfKindStep(files: seq<StepFile>, kind: Kind)
    requires files != []
    ensures var n := |files| - 1;
            |OfKind(files, kind)| == |OfKind(files[..n], kind)| + (if CountsAs(files[n], kind) then 1 else 0)
  {
    var n := |files| - 1;
    var before := OfKind(files[..n], kind);
    forall i ensures i in OfKind(files, kind) <==> i in before || (i == n && CountsAs(files[n], kind)) {
      if 0 <= i < n { assert files[..n][i] == files[i]; }
    }
    assert n !in before;
    assert OfKind(files, kind) == if CountsAs(files[n], kind) then before + {n} else before;
  }

  /** The step counts are the numbers of mapping files of each kind. */
  lemma {:induction false} CountsExact(files: seq<StepFile>)
    ensures var counts := CountsOf(files);
            counts.g == |OfKind(files, G)| && counts.t == |OfKind(files, T)| && counts.a == |OfKind(files, A)|
  {
    if files != [] {
      CountsExact(files[..|files| - 1]);
      OfKindStep(files, G);
      OfKindStep(files, T);
      OfKindStep(files, A);
    }
  }
}
