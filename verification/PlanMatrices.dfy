/** Checks X1 to X3 of the coverage matrices (check_matrices in tools/plan_validate.py). */
module PlanMatrices {
  import opened Outcomes
  import opened Text
  import opened PlanDocuments

  // ----- concepts mentioned anywhere in a matrix -----

  /** The string occurs in the document, as a scalar or as a mapping key. */
  predicate Occurs(node: Yaml, s: string) {
    match node
    case YStr(t) => t == s
    case YList(items) => exists i | 0 <= i < |items| :: Occurs(items[i], s)
    case YMap(entries) => exists i | 0 <= i < |entries| :: entries[i].key == YStr(s) || Occurs(entries[i].value, s)
    case _ => false
  }

  /** Collects the concept ids met on a walk of a document. */
  class ConceptCollector {
    var found: set<string>

    constructor ()
      ensures found == {}
    {
      found := {};
    }

    method Walk(node: Yaml)
      modifies this
      ensures forall s :: s in found <==> s in old(found) || (MatchesId('C', s) && Occurs(node, s))
      decreases node
    {
      match node {
        case YStr(s) =>
          if MatchesId('C', s) { found := found + {s}; }
        case YMap(entries) =>
          for i := 0 to |entries|
            invariant forall s :: s in found <==>
                        s in old(found) || (MatchesId('C', s) && exists j | 0 <= j < i :: entries[j].key == YStr(s) || Occurs(entries[j].value, s))
          {
            var key := entries[i].key;
            if key.YStr? && MatchesId('C', key.s) { found := found + {key.s}; }
            Walk(entries[i].value);
          }
        case YList(items) =>
          for i := 0 to |items|
            invariant forall s :: s in found <==>
                        s in old(found) || (MatchesId('C', s) && exists j | 0 <= j < i :: Occurs(items[j], s))
          {
            Walk(items[i]);
          }
        case _ =>
      }
    }
  }

  // ----- object names -----

  /** How often a string is in a list. */
  function Times(items: seq<string>, s: string): nat {
    multiset(items)[s]
  }

  lemma TimesAppend(items: seq<string>, item: string)
    ensures forall s :: Times(items + [item], s) == Times(items, s) + (if s == item then 1 else 0)
  {
    forall s ensures Times(items + [item], s) == Times(items, s) + (if s == item then 1 else 0) {
      assert multiset(items + [item]) == multiset(items) + multiset{item};
    }
  }

  const NAME_KEYS := ["object", "name", "object_name", "qualified_name"]

  /** How often a walk of a document meets the name under one of the name keys. */
  function NameCount(node: Yaml, name: string): nat {
    match node
    case YList(items) => ItemsCount(items, name)
    case YMap(entries) => OwnCount(entries, name, |NAME_KEYS|) + ValuesCount(entries, name)
    case _ => 0
  }

  function ItemsCount(items: seq<Yaml>, name: string): nat {
    if items == [] then 0 else ItemsCount(items[..|items| - 1], name) + NameCount(items[|items| - 1], name)
  }

  function ValuesCount(entries: seq<Entry>, name: string): nat {
    if entries == [] then 0
    else ValuesCount(entries[..|entries| - 1], name) + EntryCount(entries[|entries| - 1], name)
  }

  function EntryCount(entry: Entry, name: string): nat {
    NameCount(entry.value, name)
  }

  /** How many of the first n name keys of a mapping hold the name. */
  function OwnCount(entries: seq<Entry>, name: string, n: nat): nat
    requires n <= |NAME_KEYS|
  {
    if n == 0 then 0
    else OwnCount(entries, name, n - 1) + (if Get(entries, NAME_KEYS[n - 1]) == YStr(name) then 1 else 0)
  }

  /** The names in the order a walk meets them: a mapping's own, then those of its values. */
  function ObjectNames(node: Yaml): seq<string> {
    match node
    case YList(items) => ItemNames(items)
    case YMap(entries) => OwnNames(entries, |NAME_KEYS|) + ValueNames(entries)
    case _ => []
  }

  function ItemNames(items: seq<Yaml>): seq<string> {
    if items == [] then [] else ItemNames(items[..|items| - 1]) + ObjectNames(items[|items| - 1])
  }

  function ValueNames(entries: seq<Entry>): seq<string> {
    if entries == [] then [] else ValueNames(entries[..|entries| - 1]) + EntryNames(entries[|entries| - 1])
  }

  function EntryNames(entry: Entry): seq<string> {
    ObjectNames(entry.value)
  }

  function OwnNames(entries: seq<Entry>, n: nat): seq<string>
    requires n <= |NAME_KEYS|
  {
    if n == 0 then []
    else
      var value := Get(entries, NAME_KEYS[n - 1]);
      OwnNames(entries, n - 1) + (if value.YStr? then [value.s] else [])
  }

  lemma TimesConcat(a: seq<string>, b: seq<string>, s: string)
    ensures Times(a + b, s) == Times(a, s) + Times(b, s)
  {
    assert multiset(a + b) == multiset(a) + multiset(b);
  }

  /** The list holds each name as often as the count says. */
  lemma {:induction false} NamesAreCounted(node: Yaml, name: string)
    ensures Times(ObjectNames(node), name) == NameCount(node, name)
    decreases node
  {
    match node
    case YList(items) => ItemsAreCounted(items, name);
    case YMap(entries) =>
      OwnAreCounted(entries, name, |NAME_KEYS|);
      ValuesAreCounted(entries, name);
      TimesConcat(OwnNames(entries, |NAME_KEYS|), ValueNames(entries), name);
    case _ =>
  }

  lemma {:induction false} ItemsAreCounted(items: seq<Yaml>, name: string)
    ensures Times(ItemNames(items), name) == ItemsCount(items, name)
    decreases items
  {
    if items != [] {
      ItemsAreCounted(items[..|items| - 1], name);
      NamesAreCounted(items[|items| - 1], name);
      TimesConcat(ItemNames(items[..|items| - 1]), ObjectNames(items[|items| - 1]), name);
    }
  }

  lemma {:induction false} ValuesAreCounted(entries: seq<Entry>, name: string)
    ensures Times(ValueNames(entries), name) == ValuesCount(entries, name)
    decreases entries
  {
    if entries != [] {
      var last := entries[|entries| - 1];
      ValuesAreCounted(entries[..|entries| - 1], name);
      EntryIsCounted(last, name);
      TimesConcat(ValueNames(entries[..|entries| - 1]), EntryNames(last), name);
    }
  }

  lemma {:induction false} EntryIsCounted(entry: Entry, name: string)
    ensures Times(EntryNames(entry), name) == EntryCount(entry, name)
    decreases entry
  {
    NamesAreCounted(entry.value, name);
  }

  lemma {:induction false} OwnAreCounted(entries: seq<Entry>, name: string, n: nat)
    requires n <= |NAME_KEYS|
    ensures Times(OwnNames(entries, n), name) == OwnCount(entries, name, n)
  {
    if n > 0 {
      OwnAreCounted(entries, name, n - 1);
      var value := Get(entries, NAME_KEYS[n - 1]);
      TimesConcat(OwnNames(entries, n - 1), if value.YStr? then [value.s] else [], name);
    }
  }

  /** Collects the object names met on a walk of a document, duplicates included. */
  class NameCollector {
    var names: seq<string>

    constructor ()
      ensures names == []
    {
      names := [];
    }

    method Take(entries: seq<Entry>)
      modifies this
      ensures names == old(names) + OwnNames(entries, |NAME_KEYS|)
    {
      for k := 0 to |NAME_KEYS|
        invariant names == old(names) + OwnNames(entries, k)
      {
        var value := Get(entries, NAME_KEYS[k]);
        if value.YStr? { names := names + [value.s]; }
      }
    }

    method Walk(node: Yaml)
      modifies this
      ensures names == old(names) + ObjectNames(node)
      decreases node
    {
      match node {
        case YMap(entries) =>
          Take(entries);
          ghost var before := names;
          for i := 0 to |entries|
            invariant names == before + ValueNames(entries[..i])
          {
            assert entries[..i + 1][..i] == entries[..i];
            Walk(entries[i].value);
          }
          assert entries[..|entries|] == entries;
        case YList(items) =>
          for i := 0 to |items|
            invariant names == old(names) + ItemNames(items[..i])
          {
            assert items[..i + 1][..i] == items[..i];
            Walk(items[i]);
          }
          assert items[..|items|] == items;
        case _ =>
      }
    }
  }

  /** The strings that occur at least twice. */
  method Duplicates(items: seq<string>) returns (dupes: set<string>)
    ensures forall s :: s in dupes <==> Times(items, s) >= 2
  {
    var seen: set<string> := {};
    dupes := {};
    for i := 0 to |items|
      invariant forall s :: s in seen <==> Times(items[..i], s) >= 1
      invariant forall s :: s in dupes <==> Times(items[..i], s) >= 2
    {
      var item := items[i];
      assert items[..i + 1] == items[..i] + [item];
      TimesAppend(items[..i], item);
      if item in seen { dupes := dupes + {item}; }
      seen := seen + {item};
    }
    assert items[..|items|] == items;
  }

  // ----- the checks -----

  ghost function Reported(subjects: seq<string>, check: Check, severity: Severity, place: Place): (findings: seq<Finding>)
    ensures |findings| == |subjects|
    ensures forall i | 0 <= i < |findings| :: findings[i] == Finding(check, severity, place, subjects[i])
  {
    seq(|subjects|, i requires 0 <= i < |subjects| => Finding(check, severity, place, subjects[i]))
  }

  ghost function Uncovered(ids: set<string>, matrix: Yaml): set<string> {
    set s | s in ids && !Occurs(matrix, s)
  }

  /** A matrix that could not be loaded is an error; an empty one is skipped;
      otherwise each id it does not mention is reported once, in order. */
  ghost function CoverageFindings(ids: set<string>, matrix: Loaded, check: Check, severity: Severity, place: Place): seq<Finding>
    requires !matrix.LoadRaises?
  {
    match matrix
    case Unreadable => [Finding(check, Error, place, "")]
    case Parsed(YNull) => []
    case Parsed(doc) => Reported(SortedSet(Uncovered(ids, doc)), check, severity, place)
  }

  method ReportEach(subjects: seq<string>, check: Check, severity: Severity, place: Place, findings: Findings)
    modifies findings
    ensures findings.items == old(findings.items) + Reported(subjects, check, severity, place)
  {
    for i := 0 to |subjects|
      invariant findings.items == old(findings.items) + Reported(subjects[..i], check, severity, place)
    {
      ReportedStep(subjects, i, check, severity, place);
      findings.Add(check, severity, place, subjects[i]);
    }
    assert subjects[..|subjects|] == subjects;
  }

  lemma ReportedStep(subjects: seq<string>, i: nat, check: Check, severity: Severity, place: Place)
    requires i < |subjects|
    ensures Reported(subjects[..i + 1], check, severity, place)
         == Reported(subjects[..i], check, severity, place) + [Finding(check, severity, place, subjects[i])]
  {}

  /** Reports each subject once, in the order of their names. */
  method Report(subjects: set<string>, check: Check, severity: Severity, place: Place, findings: Findings)
    modifies findings
    ensures findings.items == old(findings.items) + Reported(SortedSet(subjects), check, severity, place)
  {
    var sorted := Sort(subjects);
    ReportEach(sorted, check, severity, place, findings);
  }

  method CheckCoverage(ids: set<string>, matrix: Loaded, check: Check, severity: Severity, place: Place, findings: Findings)
    requires forall s | s in ids :: MatchesId('C', s)
    requires !matrix.LoadRaises?
    modifies findings
    ensures findings.items == old(findings.items) + CoverageFindings(ids, matrix, check, severity, place)
  {
    if matrix.Unreadable? {
      findings.Add(check, Error, place, "");
      return;
    }
    if matrix.doc == YNull { return; }
    var collector := new ConceptCollector();
    collector.Walk(matrix.doc);
    var uncovered := ids - collector.found;
    assert uncovered == Uncovered(ids, matrix.doc);
    Report(uncovered, check, severity, place, findings);
  }

  /** The names a walk meets at least twice. */
  function Collisions(doc: Yaml): set<string> {
    set n | n in ObjectNames(doc) && Times(ObjectNames(doc), n) >= 2
  }

  lemma CollisionsExact(doc: Yaml, name: string)
    ensures name in Collisions(doc) <==> NameCount(doc, name) >= 2
  {
    NamesAreCounted(doc, name);
  }

  ghost function ObjectFindings(matrix: Loaded): seq<Finding>
    requires !matrix.LoadRaises?
  {
    match matrix
    case Unreadable => [Finding(X3, Error, ObjectMatrix, "")]
    case Parsed(YNull) => []
    case Parsed(doc) => Reported(SortedSet(Collisions(doc)), X3, Error, ObjectMatrix)
  }

  function ObjectCount(matrix: Loaded): nat {
    if matrix.Parsed? then |ObjectNames(matrix.doc)| else 0
  }

  method CheckObjects(matrix: Loaded, findings: Findings) returns (count: nat)
    requires !matrix.LoadRaises?
    modifies findings
    ensures findings.items == old(findings.items) + ObjectFindings(matrix)
    ensures count == ObjectCount(matrix)
  {
    if matrix.Unreadable? {
      findings.Add(X3, Error, ObjectMatrix, "");
      return 0;
    }
    if matrix.doc == YNull { return 0; }
    var collector := new NameCollector();
    collector.Walk(matrix.doc);
    var names := collector.names;
    var collisions := Duplicates(names);
    assert collisions == Collisions(matrix.doc);
    Report(collisions, X3, Error, ObjectMatrix, findings);
    count := |names|;
  }

  datatype Matrices = Matrices(gs: Loaded, t: Loaded, objects: Loaded)

  predicate MatricesRaise(m: Matrices) {
    m.gs.LoadRaises? || m.t.LoadRaises? || m.objects.LoadRaises?
  }

  ghost function MatrixFindings(m: Matrices, ids: set<string>): seq<Finding>
    requires !MatricesRaise(m)
  {
    CoverageFindings(ids, m.gs, X1, Error, GsMatrix)
    + CoverageFindings(ids, m.t, X2, Warn, TMatrix)
    + ObjectFindings(m.objects)
  }

  method CheckMatrices(m: Matrices, ids: set<string>, findings: Findings) returns (objects: Outcome<nat>)
    requires forall s | s in ids :: MatchesId('C', s)
    modifies findings
    ensures objects.Raised? <==> MatricesRaise(m)
    ensures objects.Returned? ==>
              && findings.items == old(findings.items) + MatrixFindings(m, ids)
              && objects.value == ObjectCount(m.objects)
  {
    if m.gs.LoadRaises? { return Raised(m.gs.exception); }
    CheckCoverage(ids, m.gs, X1, Error, GsMatrix, findings);
    if m.t.LoadRaises? { return Raised(m.t.exception); }
    CheckCoverage(ids, m.t, X2, Warn, TMatrix, findings);
    if m.objects.LoadRaises? { return Raised(m.objects.exception); }
    var count := CheckObjects(m.objects, findings);
    Associate(old(findings.items), CoverageFindings(ids, m.gs, X1, Error, GsMatrix),
              CoverageFindings(ids, m.t, X2, Warn, TMatrix), ObjectFindings(m.objects));
    objects := Returned(count);
  }

  lemma Associate(base: seq<Finding>, a: seq<Finding>, b: seq<Finding>, c: seq<Finding>)
    ensures base + a + b + c == base + (a + b + c)
  {}

  // ----- what the checks decide -----

  /** Every id is mentioned in the first matrix and no object name is met twice; the
      tactical matrix only has to load. An empty matrix passes. */
  ghost predicate MatricesWellFormed(m: Matrices, ids: set<string>) {
    && m.gs.Parsed? && m.t.Parsed? && m.objects.Parsed?
    && (m.gs.doc == YNull || forall s | s in ids :: Occurs(m.gs.doc, s))
    && (m.objects.doc == YNull || forall name :: NameCount(m.objects.doc, name) < 2)
  }

  lemma ReportedErrors(subjects: set<string>, check: Check, severity: Severity, place: Place)
    ensures AnyError(Reported(SortedSet(subjects), check, severity, place)) <==> severity == Error && subjects != {}
  {
    var sorted := SortedSet(subjects);
    var findings := Reported(sorted, check, severity, place);
    if severity == Error && subjects != {} {
      var s :| s in subjects;
      assert s in sorted;
      assert findings[0] in findings;
    }
  }

  lemma CoverageErrors(ids: set<string>, matrix: Loaded, check: Check, severity: Severity, place: Place)
    requires !matrix.LoadRaises?
    ensures AnyError(CoverageFindings(ids, matrix, check, severity, place)) <==>
              || matrix.Unreadable?
              || (severity == Error && matrix.doc != YNull && exists s | s in ids :: !Occurs(matrix.doc, s))
  {
    if matrix.Parsed? {
      ReportedErrors(Uncovered(ids, matrix.doc), check, severity, place);
      if s :| s in ids && !Occurs(matrix.doc, s) { assert s in Uncovered(ids, matrix.doc); }
    } else {
      assert CoverageFindings(ids, matrix, check, severity, place)[0].severity == Error;
    }
  }

  lemma ObjectErrors(matrix: Loaded)
    requires !matrix.LoadRaises?
    ensures AnyError(ObjectFindings(matrix)) <==>
              matrix.Unreadable? || (matrix.doc != YNull && exists name :: NameCount(matrix.doc, name) >= 2)
  {
    match matrix
    case Unreadable => assert ObjectFindings(matrix)[0].severity == Error;
    case Parsed(YNull) =>
    case Parsed(doc) =>
      ReportedErrors(Collisions(doc), X3, Error, ObjectMatrix);
      if name :| name in Collisions(doc) { CollisionsExact(doc, name); }
      if name :| NameCount(doc, name) >= 2 { CollisionsExact(doc, name); }
  }

  /** Sound and complete: the matrices add an error exactly when they are not well formed. */
  lemma MatricesErrorFree(m: Matrices, ids: set<string>)
    requires !MatricesRaise(m)
    ensures !AnyError(MatrixFindings(m, ids)) <==> MatricesWellFormed(m, ids)
  {
    var a, b := CoverageFindings(ids, m.gs, X1, Error, GsMatrix), CoverageFindings(ids, m.t, X2, Warn, TMatrix);
    AnyErrorConcat(a + b, ObjectFindings(m.objects));
    AnyErrorConcat(a, b);
    CoverageErrors(ids, m.gs, X1, Error, GsMatrix);
    CoverageErrors(ids, m.t, X2, Warn, TMatrix);
    ObjectErrors(m.objects);
    assert !AnyError(a) <==> m.gs.Parsed? && (m.gs.doc == YNull || forall s | s in ids :: Occurs(m.gs.doc, s));
    assert !AnyError(b) <==> m.t.Parsed?;
    assert !AnyError(ObjectFindings(m.objects)) <==>
      m.objects.Parsed? && (m.objects.doc == YNull || forall name :: NameCount(m.objects.doc, name) < 2);
  }

  /** The coverage errors name exactly the ids the first matrix does not mention, and
      the collision errors exactly the names met at least twice, each once and in order. */
  lemma MatrixErrorsExact(m: Matrices, ids: set<string>)
    requires m.gs.Parsed? && m.gs.doc != YNull && m.objects.Parsed? && m.objects.doc != YNull
    ensures var x1 := CoverageFindings(ids, m.gs, X1, Error, GsMatrix);
            && (forall s :: Finding(X1, Error, GsMatrix, s) in x1 <==> s in ids && !Occurs(m.gs.doc, s))
            && (forall i, j | 0 <= i < j < |x1| :: x1[i].subject != x1[j].subject && StrLe(x1[i].subject, x1[j].subject))
    ensures var x3 := ObjectFindings(m.objects);
            && (forall s :: Finding(X3, Error, ObjectMatrix, s) in x3 <==> NameCount(m.objects.doc, s) >= 2)
            && (forall i, j | 0 <= i < j < |x3| :: x3[i].subject != x3[j].subject && StrLe(x3[i].subject, x3[j].subject))
  {
    ReportedExactly(Uncovered(ids, m.gs.doc), X1, GsMatrix);
    ReportedExactly(Collisions(m.objects.doc), X3, ObjectMatrix);
    forall s ensures s in Collisions(m.objects.doc) <==> NameCount(m.objects.doc, s) >= 2 {
      CollisionsExact(m.objects.doc, s);
    }
  }

  lemma ReportedExactly(subjects: set<string>, check: Check, place: Place)
    ensures var r := Reported(SortedSet(subjects), check, Error, place);
            && (forall s :: Finding(check, Error, place, s) in r <==> s in subjects)
            && (forall i, j | 0 <= i < j < |r| :: r[i].subject != r[j].subject && StrLe(r[i].subject, r[j].subject))
  {
    var sorted := SortedSet(subjects);
    SortedSetIsSorted(subjects);
    var r := Reported(sorted, check, Error, place);
    forall s ensures Finding(check, Error, place, s) in r <==> s in subjects {
      if s in subjects {
        assert s in sorted;
        var i :| 0 <= i < |sorted| && sorted[i] == s;
        assert r[i] == Finding(check, Error, place, s);
      }
    }
  }

  /** The warnings of the tactical matrix name exactly the ids it does not mention. */
  lemma MatrixWarningsExact(m: Matrices, ids: set<string>)
    requires m.t.Parsed? && m.t.doc != YNull
    ensures var x2 := CoverageFindings(ids, m.t, X2, Warn, TMatrix);
            && (forall f | f in x2 :: f.check == X2 && f.severity == Warn && f.place == TMatrix)
            && (forall s :: Finding(X2, Warn, TMatrix, s) in x2 <==> s in ids && !Occurs(m.t.doc, s))
  {
    var sorted := SortedSet(Uncovered(ids, m.t.doc));
    var x2 := CoverageFindings(ids, m.t, X2, Warn, TMatrix);
    forall s ensures Finding(X2, Warn, TMatrix, s) in x2 <==> s in ids && !Occurs(m.t.doc, s) {
      if s in sorted {
        var i :| 0 <= i < |sorted| && sorted[i] == s;
        assert x2[i] == Finding(X2, Warn, TMatrix, s);
      }
    }
  }

  /** A mapping names an object once for each of the four keys that holds the name,
      and again for what its values name. */
  lemma NamedOnce(entries: seq<Entry>, name: string)
    ensures NameCount(YMap(entries), name) ==
              (if Get(entries, "object") == YStr(name) then 1 else 0) + (if Get(entries, "name") == YStr(name) then 1 else 0)
              + (if Get(entries, "object_name") == YStr(name) then 1 else 0)
              + (if Get(entries, "qualified_name") == YStr(name) then 1 else 0)
              + ValuesCount(entries, name)
    ensures forall y :: ItemsCount([y], name) == NameCount(y, name)
    ensures forall e :: ValuesCount([e], name) == NameCount(e.value, name)
    ensures forall t :: NameCount(YStr(t), name) == 0
  {
    assert NAME_KEYS[0] == "object" && NAME_KEYS[1] == "name" && NAME_KEYS[2] == "object_name" && NAME_KEYS[3] == "qualified_name";
    assert OwnCount(entries, name, 4) == OwnCount(entries, name, 3) + (if Get(entries, NAME_KEYS[3]) == YStr(name) then 1 else 0);
    assert OwnCount(entries, name, 2) == OwnCount(entries, name, 1) + (if Get(entries, NAME_KEYS[1]) == YStr(name) then 1 else 0);
    forall y ensures ItemsCount([y], name) == NameCount(y, name) { assert [y][..0] == []; }
    forall e: Entry ensures ValuesCount([e], name) == NameCount(e.value, name) { assert [e][..0] == []; }
  }

  /** Lists and mappings name what their parts name, part by part. */
  lemma {:induction false} CountsAdd(items: seq<Yaml>, more: seq<Yaml>, entries: seq<Entry>, rest: seq<Entry>, name: string)
    ensures ItemsCount(items + more, name) == ItemsCount(items, name) + ItemsCount(more, name)
    ensures ValuesCount(entries + rest, name) == ValuesCount(entries, name) + ValuesCount(rest, name)
    ensures NameCount(YList(items), name) == ItemsCount(items, name)
    decreases |more| + |rest|
  {
    if more == [] { assert items + more == items; }
    if rest == [] { assert entries + rest == entries; }
    if more != [] || rest != [] {
      var more', rest' := if more == [] then more else more[..|more| - 1], if rest == [] then rest else rest[..|rest| - 1];
      CountsAdd(items, more', entries, rest', name);
      if more != [] { assert (items + more)[..|items + more| - 1] == items + more'; }
      if rest != [] { assert (entries + rest)[..|entries + rest| - 1] == entries + rest'; }
    }
  }

  // ----- mentioned and covered -----

  /** The concept's column is not empty: under "matrix", the row of some global step
      has the concept in its "concepts" list. */
  predicate InColumn(matrix: Yaml, s: string) {
    matrix.YMap? && exists i | 0 <= i < |matrix.entries| :: InRows(matrix.entries[i], s)
  }

  predicate InRows(entry: Entry, s: string) {
    entry.key == YStr("matrix") && entry.value.YMap?
    && exists i | 0 <= i < |entry.value.entries| :: InRow(entry.value.entries[i].value, s)
  }

  predicate InRow(row: Yaml, s: string) {
    row.YMap? && exists i | 0 <= i < |row.entries| :: InList(row.entries[i], s)
  }

  predicate InList(entry: Entry, s: string) {
    entry.key == YStr("concepts") && entry.value.YList? && YStr(s) in entry.value.items
  }

  /** The concept is mentioned somewhere else: as a key, under another key, or nested deeper. */
  predicate Elsewhere(matrix: Yaml, s: string) {
    if matrix.YMap? then exists i | 0 <= i < |matrix.entries| :: ElsewhereInRows(matrix.entries[i], s)
    else Occurs(matrix, s)
  }

  predicate ElsewhereInRows(entry: Entry, s: string) {
    || entry.key == YStr(s)
    || (if entry.key == YStr("matrix") && entry.value.YMap?
        then exists i | 0 <= i < |entry.value.entries| ::
               entry.value.entries[i].key == YStr(s) || ElsewhereInRow(entry.value.entries[i].value, s)
        else Occurs(entry.value, s))
  }

  predicate ElsewhereInRow(row: Yaml, s: string) {
    if row.YMap? then exists i | 0 <= i < |row.entries| :: ElsewhereInList(row.entries[i], s)
    else Occurs(row, s)
  }

  predicate ElsewhereInList(entry: Entry, s: string) {
    || entry.key == YStr(s)
    || (if entry.key == YStr("concepts") && entry.value.YList?
        then exists i | 0 <= i < |entry.value.items| :: entry.value.items[i] != YStr(s) && Occurs(entry.value.items[i], s)
        else Occurs(entry.value, s))
  }

  lemma ListOccurs(entry: Entry, s: string)
    ensures entry.key == YStr(s) || Occurs(entry.value, s) <==> InList(entry, s) || ElsewhereInList(entry, s)
  {
    if entry.value.YList? && YStr(s) in entry.value.items {
      var i :| 0 <= i < |entry.value.items| && entry.value.items[i] == YStr(s);
      assert Occurs(entry.value.items[i], s);
    }
  }

  lemma RowOccurs(row: Yaml, s: string)
    ensures Occurs(row, s) <==> InRow(row, s) || ElsewhereInRow(row, s)
  {
    if row.YMap? {
      forall i | 0 <= i < |row.entries|
        ensures row.entries[i].key == YStr(s) || Occurs(row.entries[i].value, s)
           <==> InList(row.entries[i], s) || ElsewhereInList(row.entries[i], s)
      {
        ListOccurs(row.entries[i], s);
      }
    }
  }

  lemma RowsOccur(entry: Entry, s: string)
    ensures entry.key == YStr(s) || Occurs(entry.value, s) <==> InRows(entry, s) || ElsewhereInRows(entry, s)
  {
    if entry.value.YMap? {
      forall i | 0 <= i < |entry.value.entries|
        ensures Occurs(entry.value.entries[i].value, s)
           <==> InRow(entry.value.entries[i].value, s) || ElsewhereInRow(entry.value.entries[i].value, s)
      {
        RowOccurs(entry.value.entries[i].value, s);
      }
    }
  }

  /** A concept is mentioned exactly when its column lists it or it is mentioned elsewhere. */
  lemma MentionedExactly(matrix: Yaml, s: string)
    ensures Occurs(matrix, s) <==> InColumn(matrix, s) || Elsewhere(matrix, s)
  {
    if matrix.YMap? {
      forall i | 0 <= i < |matrix.entries|
        ensures matrix.entries[i].key == YStr(s) || Occurs(matrix.entries[i].value, s)
           <==> InRows(matrix.entries[i], s) || ElsewhereInRows(matrix.entries[i], s)
      {
        RowsOccur(matrix.entries[i], s);
      }
    }
  }

  ghost predicate NamesUncovered(m: Matrices, ids: set<string>, s: string)
    requires !m.gs.LoadRaises?
  {
    Finding(X1, Error, GsMatrix, s) in CoverageFindings(ids, m.gs, X1, Error, GsMatrix)
  }

  /** X1 names a concept only if its column is empty, and misses one with an empty
      column exactly when it is mentioned elsewhere in the matrix. */
  lemma EmptyColumnsExact(m: Matrices, ids: set<string>, s: string)
    requires m.gs.Parsed? && m.gs.doc != YNull && s in ids
    ensures NamesUncovered(m, ids, s) ==> !InColumn(m.gs.doc, s)
    ensures !InColumn(m.gs.doc, s) ==> (NamesUncovered(m, ids, s) <==> !Elsewhere(m.gs.doc, s))
  {
    ReportedExactly(Uncovered(ids, m.gs.doc), X1, GsMatrix);
    MentionedExactly(m.gs.doc, s);
  }

  const ADMITTED_GAP := YMap([Entry(YStr("uncovered_concepts"), YList([YStr("C-001")]))])

  /** A matrix that itself lists a concept as uncovered passes for it. */
  lemma AdmittedGapPasses(m: Matrices)
    requires m.gs == Parsed(ADMITTED_GAP)
    ensures !InColumn(m.gs.doc, "C-001") && !NamesUncovered(m, {"C-001"}, "C-001")
  {
    var entry := ADMITTED_GAP.entries[0];
    assert Occurs(entry.value.items[0], "C-001");
    assert ElsewhereInRows(entry, "C-001");
    EmptyColumnsExact(m, {"C-001"}, "C-001");
  }
}
