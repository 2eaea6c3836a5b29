/** Checks M1 to M5 of the concept and relation file (check_mrs in tools/plan_validate.py). */
module PlanMrs {
  import opened Outcomes
  import opened PlanDocuments

  const REQUIRED_FIELDS := ["concept_id", "name", "definition", "properties", "source_labels"]
  const ALLOWED_RELATION_TYPES := {"uses", "owns", "implements", "extends", "depends_on", "produces", "consumes"}

  // ----- one concept -----

  /** The concept's id when it has a valid one. */
  function ValidId(concept: Yaml): Option<string> {
    if concept.YMap? && Get(concept.entries, "concept_id").YStr? && MatchesId('C', Get(concept.entries, "concept_id").s)
    then Some(Get(concept.entries, "concept_id").s) else None
  }

  /** A finding for each of the first n required fields that is missing. */
  function MissingFields(entries: seq<Entry>, place: Place, n: nat): (findings: seq<Finding>)
    requires n <= |REQUIRED_FIELDS|
    ensures AllErrors(findings)
    ensures findings == [] <==> forall i | 0 <= i < n :: HasKey(entries, REQUIRED_FIELDS[i])
  {
    if n == 0 then []
    else
      MissingFields(entries, place, n - 1)
      + (if HasKey(entries, REQUIRED_FIELDS[n - 1]) then [] else [Finding(M2, Error, place, REQUIRED_FIELDS[n - 1])])
  }

  function ConceptFindings(concept: Yaml, index: nat, seen: set<string>): (findings: seq<Finding>)
    ensures AllErrors(findings)
    ensures findings == [] <==> ConceptOk(concept) && ValidId(concept).value !in seen
  {
    var place := ConceptAt(index);
    if !concept.YMap? then [Finding(M2, Error, place, "")]
    else
      MissingFields(concept.entries, place, |REQUIRED_FIELDS|)
      + (match ValidId(concept)
         case None => [Finding(M3, Error, place, "")]
         case Some(id) => if id in seen then [Finding(M3, Error, place, id)] else [])
  }

  /** A mapping with every required field and a valid id. */
  predicate ConceptOk(concept: Yaml) {
    && concept.YMap?
    && (forall i | 0 <= i < |REQUIRED_FIELDS| :: HasKey(concept.entries, REQUIRED_FIELDS[i]))
    && ValidId(concept).Some?
  }

  // ----- the concept list -----

  function Ids(concepts: seq<Yaml>): set<string> {
    set i | 0 <= i < |concepts| && ValidId(concepts[i]).Some? :: ValidId(concepts[i]).value
  }

  lemma IdsStep(concepts: seq<Yaml>, concept: Yaml)
    ensures Ids(concepts + [concept])
         == Ids(concepts) + (if ValidId(concept).Some? then {ValidId(concept).value} else {})
  {
    var all := concepts + [concept];
    assert forall i | 0 <= i < |concepts| :: all[i] == concepts[i];
    assert all[|concepts|] == concept;
  }

  function ConceptListFindings(concepts: seq<Yaml>): (findings: seq<Finding>)
    ensures AllErrors(findings)
  {
    if concepts == [] then []
    else
      var n := |concepts| - 1;
      ConceptListFindings(concepts[..n]) + ConceptFindings(concepts[n], n, Ids(concepts[..n]))
  }

  ghost predicate ConceptsOk(concepts: seq<Yaml>) {
    && (forall i | 0 <= i < |concepts| :: ConceptOk(concepts[i]))
    && (forall i, j | 0 <= i < j < |concepts| :: ValidId(concepts[i]) != ValidId(concepts[j]))
  }

  lemma ConceptListStep(concepts: seq<Yaml>)
    requires concepts != []
    ensures var n := |concepts| - 1;
            ConceptListFindings(concepts) == [] <==>
              && ConceptListFindings(concepts[..n]) == []
              && ConceptOk(concepts[n]) && ValidId(concepts[n]).value !in Ids(concepts[..n])
  {
    var n := |concepts| - 1;
    var before, last := ConceptListFindings(concepts[..n]), ConceptFindings(concepts[n], n, Ids(concepts[..n]));
    assert before + last == [] <==> before == [] && last == [];
  }

  lemma ConceptsOkStep(concepts: seq<Yaml>)
    requires concepts != []
    ensures var n := |concepts| - 1;
            ConceptsOk(concepts) <==>
              ConceptsOk(concepts[..n]) && ConceptOk(concepts[n]) && ValidId(concepts[n]).value !in Ids(concepts[..n])
  {
    var n := |concepts| - 1;
    var prefix := concepts[..n];
    assert forall i | 0 <= i < n :: concepts[i] == prefix[i];
    if ConceptOk(concepts[n]) && ConceptsOk(prefix) {
      if i :| 0 <= i < n && ValidId(concepts[i]) == ValidId(concepts[n]) {
        assert ValidId(prefix[i]).value in Ids(prefix);
      }
    }
  }

  lemma {:induction false} ConceptsClean(concepts: seq<Yaml>)
    ensures ConceptListFindings(concepts) == [] <==> ConceptsOk(concepts)
  {
    if concepts != [] {
      ConceptsClean(concepts[..|concepts| - 1]);
      ConceptListStep(concepts);
      ConceptsOkStep(concepts);
    }
  }

  // ----- relations -----

  /** Looking up an unhashable type or endpoint in a set raises. */
  predicate RelationRaises(relation: Yaml) {
    relation.YMap?
    && (!Hashable(Get(relation.entries, "type"))
        || !Hashable(Get(relation.entries, "from_concept"))
        || !Hashable(Get(relation.entries, "to_concept")))
  }

  ghost predicate SomeRaises(relations: seq<Yaml>) {
    exists i | 0 <= i < |relations| :: RelationRaises(relations[i])
  }

  lemma SomeRaisesStep(relations: seq<Yaml>, n: nat)
    requires n < |relations|
    ensures SomeRaises(relations[..n + 1]) <==> SomeRaises(relations[..n]) || RelationRaises(relations[n])
    ensures RelationRaises(relations[n]) ==> SomeRaises(relations)
  {
    var all := relations[..n + 1];
    assert forall i | 0 <= i < n :: all[i] == relations[..n][i];
    assert all[n] == relations[n];
  }

  function RelationFindings(relation: Yaml, index: nat, ids: set<string>): (findings: seq<Finding>)
    ensures AllErrors(findings)
    ensures findings == [] <==> RelationOk(relation, ids)
  {
    var place := RelationAt(index);
    if !relation.YMap? then [Finding(M4, Error, place, "")]
    else
      (if IsIn(Get(relation.entries, "type"), ALLOWED_RELATION_TYPES) then [] else [Finding(M4, Error, place, "type")])
      + (if IsIn(Get(relation.entries, "from_concept"), ids) then [] else [Finding(M5, Error, place, "from_concept")])
      + (if IsIn(Get(relation.entries, "to_concept"), ids) then [] else [Finding(M5, Error, place, "to_concept")])
  }

  /** A mapping of an allowed type between existing concepts. */
  predicate RelationOk(relation: Yaml, ids: set<string>) {
    && relation.YMap?
    && IsIn(Get(relation.entries, "type"), ALLOWED_RELATION_TYPES)
    && IsIn(Get(relation.entries, "from_concept"), ids)
    && IsIn(Get(relation.entries, "to_concept"), ids)
  }

  function RelationListFindings(relations: seq<Yaml>, ids: set<string>): (findings: seq<Finding>)
    ensures AllErrors(findings)
    ensures findings == [] <==> forall i | 0 <= i < |relations| :: RelationOk(relations[i], ids)
  {
    if relations == [] then []
    else
      var n := |relations| - 1;
      assert relations == relations[..n] + [relations[n]];
      RelationListFindings(relations[..n], ids) + RelationFindings(relations[n], n, ids)
  }

  function MappingCount(relations: seq<Yaml>): nat {
    if relations == [] then 0
    else MappingCount(relations[..|relations| - 1]) + (if relations[|relations| - 1].YMap? then 1 else 0)
  }

  // ----- the file -----

  datatype MrsResult = MrsResult(conceptIds: set<string>, relationCount: nat)

  /** The parts of a well-shaped file. */
  predicate Shaped(data: Loaded) {
    data.Parsed? && data.doc.YMap? && HasKey(data.doc.entries, "concepts") && HasKey(data.doc.entries, "relations")
  }

  function Concepts(data: Loaded): Outcome<seq<Yaml>>
    requires Shaped(data)
  {
    Iterate(Get(data.doc.entries, "concepts"))
  }

  function Relations(data: Loaded): Outcome<seq<Yaml>>
    requires Shaped(data)
  {
    Iterate(Get(data.doc.entries, "relations"))
  }

  ghost predicate MrsRaises(data: Loaded) {
    || data.LoadRaises?
    || (Shaped(data) && (Concepts(data).Raised? || Relations(data).Raised? || SomeRaises(Relations(data).value)))
  }

  function MrsIds(data: Loaded): set<string> {
    if Shaped(data) && Concepts(data).Returned? then Ids(Concepts(data).value) else {}
  }

  function MrsRelationCount(data: Loaded): nat {
    if Shaped(data) && Relations(data).Returned? then MappingCount(Relations(data).value) else 0
  }

  ghost function MrsFindings(data: Loaded): (findings: seq<Finding>)
    requires !MrsRaises(data)
    ensures AllErrors(findings)
  {
    if data == Parsed(YNull) then []
    else if !Shaped(data) then [Finding(M1, Error, SpecFile, "")]
    else ConceptListFindings(Concepts(data).value) + RelationListFindings(Relations(data).value, MrsIds(data))
  }

  method CheckConcept(concept: Yaml, idx: nat, seen: set<string>, findings: Findings) returns (seen': set<string>)
    modifies findings
    ensures seen' == seen + (if ValidId(concept).Some? then {ValidId(concept).value} else {})
    ensures findings.items == old(findings.items) + ConceptFindings(concept, idx, seen)
  {
    seen' := seen;
    if !concept.YMap? {
      findings.Add(M2, Error, ConceptAt(idx), "");
      return;
    }
    CheckFields(concept.entries, ConceptAt(idx), findings);
    var id := ValidId(concept);
    if id.None? {
      findings.Add(M3, Error, ConceptAt(idx), "");
    } else if id.value in seen {
      findings.Add(M3, Error, ConceptAt(idx), id.value);
    } else {
      seen' := seen + {id.value};
    }
  }

  method CheckConcepts(concepts: seq<Yaml>, findings: Findings) returns (seen: set<string>)
    modifies findings
    ensures seen == Ids(concepts)
    ensures findings.items == old(findings.items) + ConceptListFindings(concepts)
  {
    seen := {};
    for idx := 0 to |concepts|
      invariant seen == Ids(concepts[..idx])
      invariant findings.items == old(findings.items) + ConceptListFindings(concepts[..idx])
    {
      ConceptListExtend(old(findings.items), concepts, idx);
      seen := CheckConcept(concepts[idx], idx, seen, findings);
    }
    assert concepts[..|concepts|] == concepts;
  }

  lemma ConceptListExtend(base: seq<Finding>, concepts: seq<Yaml>, n: nat)
    requires n < |concepts|
    ensures base + ConceptListFindings(concepts[..n + 1])
         == base + ConceptListFindings(concepts[..n]) + ConceptFindings(concepts[n], n, Ids(concepts[..n]))
    ensures Ids(concepts[..n + 1])
         == Ids(concepts[..n]) + (if ValidId(concepts[n]).Some? then {ValidId(concepts[n]).value} else {})
  {
    assert concepts[..n + 1] == concepts[..n] + [concepts[n]];
    assert concepts[..n + 1][..n] == concepts[..n];
    IdsStep(concepts[..n], concepts[n]);
    Associate(base, ConceptListFindings(concepts[..n]), ConceptFindings(concepts[n], n, Ids(concepts[..n])));
  }

  lemma Associate(a: seq<Finding>, b: seq<Finding>, c: seq<Finding>)
    ensures a + (b + c) == a + b + c
  {}

  lemma RelationListExtend(base: seq<Finding>, relations: seq<Yaml>, n: nat, ids: set<string>)
    requires n < |relations|
    ensures base + RelationListFindings(relations[..n + 1], ids)
         == base + RelationListFindings(relations[..n], ids) + RelationFindings(relations[n], n, ids)
    ensures MappingCount(relations[..n + 1]) == MappingCount(relations[..n]) + (if relations[n].YMap? then 1 else 0)
  {
    assert relations[..n + 1][..n] == relations[..n];
    Associate(base, RelationListFindings(relations[..n], ids), RelationFindings(relations[n], n, ids));
  }

  method CheckFields(entries: seq<Entry>, place: Place, findings: Findings)
    modifies findings
    ensures findings.items == old(findings.items) + MissingFields(entries, place, |REQUIRED_FIELDS|)
  {
    for i := 0 to |REQUIRED_FIELDS|
      invariant findings.items == old(findings.items) + MissingFields(entries, place, i)
    {
      if !HasKey(entries, REQUIRED_FIELDS[i]) {
        findings.Add(M2, Error, place, REQUIRED_FIELDS[i]);
      }
    }
  }

  method CheckRelation(relation: Yaml, idx: nat, ids: set<string>, findings: Findings)
    requires !RelationRaises(relation)
    modifies findings
    ensures findings.items == old(findings.items) + RelationFindings(relation, idx, ids)
  {
    if !relation.YMap? {
      findings.Add(M4, Error, RelationAt(idx), "");
      return;
    }
    if !IsIn(Get(relation.entries, "type"), ALLOWED_RELATION_TYPES) {
      findings.Add(M4, Error, RelationAt(idx), "type");
    }
    if !IsIn(Get(relation.entries, "from_concept"), ids) {
      findings.Add(M5, Error, RelationAt(idx), "from_concept");
    }
    if !IsIn(Get(relation.entries, "to_concept"), ids) {
      findings.Add(M5, Error, RelationAt(idx), "to_concept");
    }
  }

  /** Raises at the first relation whose lookup cannot be made. */
  method CheckRelations(relations: seq<Yaml>, ids: set<string>, findings: Findings) returns (count: Outcome<nat>)
    modifies findings
    ensures count.Raised? <==> SomeRaises(relations)
    ensures count.Returned? ==>
              && count.value == MappingCount(relations)
              && findings.items == old(findings.items) + RelationListFindings(relations, ids)
  {
    var n := 0;
    for idx := 0 to |relations|
      invariant n == MappingCount(relations[..idx])
      invariant !SomeRaises(relations[..idx])
      invariant findings.items == old(findings.items) + RelationListFindings(relations[..idx], ids)
    {
      SomeRaisesStep(relations, idx);
      if RelationRaises(relations[idx]) { return Raised(TYPE_ERROR); }
      RelationListExtend(old(findings.items), relations, idx, ids);
      CheckRelation(relations[idx], idx, ids, findings);
      if relations[idx].YMap? { n := n + 1; }
    }
    assert relations[..|relations|] == relations;
    count := Returned(n);
  }

  method CheckMrs(data: Loaded, findings: Findings) returns (result: Outcome<MrsResult>)
    modifies findings
    ensures result.Raised? <==> MrsRaises(data)
    ensures result.Returned? ==>
              && result.value == MrsResult(MrsIds(data), MrsRelationCount(data))
              && findings.items == old(findings.items) + MrsFindings(data)
  {
    if data.LoadRaises? { return Raised(data.exception); }
    if data == Parsed(YNull) { return Returned(MrsResult({}, 0)); }
    if !Shaped(data) {
      findings.Add(M1, Error, SpecFile, "");
      return Returned(MrsResult({}, 0));
    }
    var concepts := Concepts(data);
    if concepts.Raised? { return Raised(TYPE_ERROR); }
    var ids := CheckConcepts(concepts.value, findings);
    var relations := Relations(data);
    if relations.Raised? { return Raised(TYPE_ERROR); }
    var count := CheckRelations(relations.value, ids, findings);
    if count.Raised? { return Raised(TYPE_ERROR); }
    Associate(old(findings.items), ConceptListFindings(concepts.value), RelationListFindings(relations.value, ids));
    result := Returned(MrsResult(ids, count.value));
  }

  /** What a clean file is: empty, or well shaped with well-formed concepts, unique
      valid ids, and relations of allowed types between existing concepts. */
  ghost predicate MrsWellFormed(data: Loaded) {
    || data == Parsed(YNull)
    || (&& Shaped(data) && Concepts(data).Returned? && Relations(data).Returned?
        && ConceptsOk(Concepts(data).value)
        && forall i | 0 <= i < |Relations(data).value| :: RelationOk(Relations(data).value[i], MrsIds(data)))
  }

  /** Sound and complete: no error is reported exactly for a clean file. */
  lemma MrsErrorFree(data: Loaded)
    requires !MrsRaises(data)
    ensures !AnyError(MrsFindings(data)) <==> MrsWellFormed(data)
  {
    ErrorsOnly(MrsFindings(data));
    if Shaped(data) { ConceptsClean(Concepts(data).value); }
  }

  /** A clean file never makes the check raise. */
  lemma WellFormedNeverRaises(data: Loaded)
    requires MrsWellFormed(data)
    ensures !MrsRaises(data)
  {}

  // ----- the rules, spelled out -----

  lemma RequiredFields(entries: seq<Entry>)
    ensures (forall i | 0 <= i < |REQUIRED_FIELDS| :: HasKey(entries, REQUIRED_FIELDS[i])) <==>
              && HasKey(entries, "concept_id") && HasKey(entries, "name") && HasKey(entries, "definition")
              && HasKey(entries, "properties") && HasKey(entries, "source_labels")
  {
    assert REQUIRED_FIELDS[0] == "concept_id" && REQUIRED_FIELDS[1] == "name" && REQUIRED_FIELDS[2] == "definition";
    assert REQUIRED_FIELDS[3] == "properties" && REQUIRED_FIELDS[4] == "source_labels";
  }

  /** A good concept has the five fields and a C id; a good relation has one of the
      seven types and two known ends. */
  lemma EntryMeaning(y: Yaml, ids: set<string>)
    ensures ConceptOk(y) <==>
              && y.YMap?
              && HasKey(y.entries, "concept_id") && HasKey(y.entries, "name") && HasKey(y.entries, "definition")
              && HasKey(y.entries, "properties") && HasKey(y.entries, "source_labels")
              && Get(y.entries, "concept_id").YStr? && MatchesId('C', Get(y.entries, "concept_id").s)
    ensures ConceptOk(y) ==> ValidId(y) == Some(Get(y.entries, "concept_id").s)
    ensures RelationOk(y, ids) <==>
              && y.YMap?
              && Get(y.entries, "type") in {YStr("uses"), YStr("owns"), YStr("implements"), YStr("extends"),
                                            YStr("depends_on"), YStr("produces"), YStr("consumes")}
              && Get(y.entries, "from_concept").YStr? && Get(y.entries, "from_concept").s in ids
              && Get(y.entries, "to_concept").YStr? && Get(y.entries, "to_concept").s in ids
  {
    if y.YMap? { RequiredFields(y.entries); }
  }

  /** What a clean file is, from its two lists. */
  lemma CleanFileMeaning(data: Loaded, concepts: seq<Yaml>, relations: seq<Yaml>)
    requires data.Parsed? && data.doc.YMap?
    requires Iterate(Get(data.doc.entries, "concepts")) == Returned(concepts)
    requires Iterate(Get(data.doc.entries, "relations")) == Returned(relations)
    ensures MrsWellFormed(data) <==>
              && HasKey(data.doc.entries, "concepts") && HasKey(data.doc.entries, "relations")
              && (forall i | 0 <= i < |concepts| :: ConceptOk(concepts[i]))
              && (forall i, j | 0 <= i < j < |concepts| :: ValidId(concepts[i]) != ValidId(concepts[j]))
              && (forall i | 0 <= i < |relations| :: RelationOk(relations[i], Ids(concepts)))
    ensures HasKey(data.doc.entries, "concepts") && HasKey(data.doc.entries, "relations") ==>
              MrsIds(data) == Ids(concepts) && MrsRelationCount(data) == MappingCount(relations)
  {}

  /** Which findings one concept gives: one for each missing field, and one for a bad or repeated id. */
  lemma {:induction false} MissingFieldsExact(entries: seq<Entry>, place: Place, n: nat, f: Finding)
    requires n <= |REQUIRED_FIELDS|
    ensures f in MissingFields(entries, place, n) <==>
              exists i | 0 <= i < n :: !HasKey(entries, REQUIRED_FIELDS[i]) && f == Finding(M2, Error, place, REQUIRED_FIELDS[i])
  {
    if n > 0 { MissingFieldsExact(entries, place, n - 1, f); }
  }

  lemma ConceptFindingsExact(concept: Yaml, index: nat, seen: set<string>, f: Finding)
    ensures f in ConceptFindings(concept, index, seen) <==>
              && f.severity == Error && f.place == ConceptAt(index)
              && (if !concept.YMap? then f.check == M2 && f.subject == ""
                  else
                    || (f.check == M2 && f.subject in {"concept_id", "name", "definition", "properties", "source_labels"}
                        && !HasKey(concept.entries, f.subject))
                    || (f.check == M3 && ValidId(concept).None? && f.subject == "")
                    || (f.check == M3 && ValidId(concept) == Some(f.subject) && f.subject in seen))
  {
    if concept.YMap? {
      MissingFieldsExact(concept.entries, ConceptAt(index), |REQUIRED_FIELDS|, f);
      assert REQUIRED_FIELDS[0] == "concept_id" && REQUIRED_FIELDS[1] == "name" && REQUIRED_FIELDS[2] == "definition";
      assert REQUIRED_FIELDS[3] == "properties" && REQUIRED_FIELDS[4] == "source_labels";
    }
  }

  lemma RelationFindingsExact(relation: Yaml, index: nat, ids: set<string>, f: Finding)
    ensures f in RelationFindings(relation, index, ids) <==>
              && f.severity == Error && f.place == RelationAt(index)
              && (if !relation.YMap? then f.check == M4 && f.subject == ""
                  else
                    || (f.check == M4 && f.subject == "type" && !IsIn(Get(relation.entries, "type"), ALLOWED_RELATION_TYPES))
                    || (f.check == M5 && f.subject in {"from_concept", "to_concept"}
                        && !IsIn(Get(relation.entries, f.subject), ids)))
  {}

  /** A finding of the i-th concept, against the ids before it. */
  predicate OfConcept(concepts: seq<Yaml>, i: int, f: Finding) {
    0 <= i < |concepts| && f in ConceptFindings(concepts[i], i, Ids(concepts[..i]))
  }

  predicate OfRelation(relations: seq<Yaml>, ids: set<string>, i: int, f: Finding) {
    0 <= i < |relations| && f in RelationFindings(relations[i], i, ids)
  }

  lemma OfConceptPrefix(concepts: seq<Yaml>, n: nat, i: int, f: Finding)
    requires n <= |concepts|
    ensures OfConcept(concepts[..n], i, f) <==> i < n && OfConcept(concepts, i, f)
  {
    if 0 <= i < n { assert concepts[..n][..i] == concepts[..i]; }
  }

  lemma SomeConcept(concepts: seq<Yaml>, f: Finding)
    requires concepts != []
    ensures var n := |concepts| - 1;
            (exists i :: OfConcept(concepts, i, f)) <==> (exists i :: OfConcept(concepts[..n], i, f)) || OfConcept(concepts, n, f)
  {
    var n := |concepts| - 1;
    if i :| OfConcept(concepts[..n], i, f) { OfConceptPrefix(concepts, n, i, f); }
    if i :| OfConcept(concepts, i, f) { OfConceptPrefix(concepts, n, i, f); }
  }

  lemma {:induction false} ConceptListFindingsExact(concepts: seq<Yaml>, f: Finding)
    ensures f in ConceptListFindings(concepts) <==> exists i :: OfConcept(concepts, i, f)
  {
    if concepts != [] {
      var n := |concepts| - 1;
      ConceptListFindingsExact(concepts[..n], f);
      SomeConcept(concepts, f);
      FindingOfConcat(ConceptListFindings(concepts[..n]), ConceptFindings(concepts[n], n, Ids(concepts[..n])), f);
    }
  }

  lemma OfRelationPrefix(relations: seq<Yaml>, ids: set<string>, n: nat, i: int, f: Finding)
    requires n <= |relations|
    ensures OfRelation(relations[..n], ids, i, f) <==> i < n && OfRelation(relations, ids, i, f)
  {}

  lemma SomeRelation(relations: seq<Yaml>, ids: set<string>, f: Finding)
    requires relations != []
    ensures var n := |relations| - 1;
            (exists i :: OfRelation(relations, ids, i, f))
            <==> (exists i :: OfRelation(relations[..n], ids, i, f)) || OfRelation(relations, ids, n, f)
  {
    var n := |relations| - 1;
    if i :| OfRelation(relations[..n], ids, i, f) { OfRelationPrefix(relations, ids, n, i, f); }
    if i :| OfRelation(relations, ids, i, f) { OfRelationPrefix(relations, ids, n, i, f); }
  }

  lemma {:induction false} RelationListFindingsExact(relations: seq<Yaml>, ids: set<string>, f: Finding)
    ensures f in RelationListFindings(relations, ids) <==> exists i :: OfRelation(relations, ids, i, f)
  {
    if relations != [] {
      var n := |relations| - 1;
      RelationListFindingsExact(relations[..n], ids, f);
      SomeRelation(relations, ids, f);
      FindingOfConcat(RelationListFindings(relations[..n], ids), RelationFindings(relations[n], n, ids), f);
    }
  }

  /** Every finding of the file: a shape error alone, or those of its concepts, each
      against the ids before it, and of its relations against all ids. */
  lemma MrsFindingsExact(data: Loaded, f: Finding)
    requires !MrsRaises(data)
    ensures f in MrsFindings(data) <==>
              if data == Parsed(YNull) then false
              else if !Shaped(data) then f == Finding(M1, Error, SpecFile, "")
              else
                var concepts, relations := Concepts(data).value, Relations(data).value;
                || (exists i :: OfConcept(concepts, i, f))
                || (exists i :: OfRelation(relations, Ids(concepts), i, f))
  {
    if Shaped(data) {
      ConceptListFindingsExact(Concepts(data).value, f);
      RelationListFindingsExact(Relations(data).value, MrsIds(data), f);
    }
  }

  /** The relation count is the number of relations that are mappings. */
  lemma {:induction false} MappingCountExact(relations: seq<Yaml>)
    ensures MappingCount(relations) == |set i | 0 <= i < |relations| && relations[i].YMap?|
  {
    if relations != [] {
      var n := |relations| - 1;
      MappingCountExact(relations[..n]);
      var before := set i | 0 <= i < n && relations[..n][i].YMap?;
      assert (set i | 0 <= i < |relations| && relations[i].YMap?) == before + (if relations[n].YMap? then {n} else {});
    }
  }
}
