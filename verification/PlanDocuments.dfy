/** Parsed plan artifacts and the findings of a check (tools/plan_validate.py). A
    document is what the YAML loader returns, with Python's truth, iteration and
    hashing rules where the checks rely on them. */
module PlanDocuments {
  import opened Outcomes

  datatype Yaml =
    | YNull
    | YBool(b: bool)
    | YInt(i: int)
    | YReal(isZero: bool)
    | YStr(s: string)
    | YList(items: seq<Yaml>)
    | YMap(entries: seq<Entry>)

  datatype Entry = Entry(key: Yaml, value: Yaml)

  /** A file that could not be read or parsed, one whose loading raises something
      else (it is not UTF-8), or its document; an empty file gives YNull. */
  datatype Loaded = Unreadable | LoadRaises(exception: string) | Parsed(doc: Yaml)

  predicate Truthy(y: Yaml) {
    match y
    case YNull => false
    case YBool(b) => b
    case YInt(i) => i != 0
    case YReal(isZero) => !isZero
    case YStr(s) => s != ""
    case YList(items) => items != []
    case YMap(entries) => entries != []
  }

  function Get(entries: seq<Entry>, key: string): Yaml {
    if entries == [] then YNull
    else if entries[0].key == YStr(key) then entries[0].value
    else Get(entries[1..], key)
  }

  predicate HasKey(entries: seq<Entry>, key: string) {
    exists i | 0 <= i < |entries| :: entries[i].key == YStr(key)
  }

  const TYPE_ERROR := "TypeError"

  /** What a for loop over `value or []` runs through: list items, mapping keys or
      the characters of a string; anything else that is truthy cannot be iterated. */
  function Iterate(value: Yaml): Outcome<seq<Yaml>> {
    if !Truthy(value) then Returned([])
    else
      match value
      case YList(items) => Returned(items)
      case YMap(entries) => Returned(seq(|entries|, i requires 0 <= i < |entries| => entries[i].key))
      case YStr(s) => Returned(seq(|s|, i requires 0 <= i < |s| => YStr([s[i]])))
      case _ => Raised(TYPE_ERROR)
  }

  /** Lists and mappings cannot be looked up in a set. */
  predicate Hashable(y: Yaml) {
    !y.YList? && !y.YMap?
  }

  predicate IsDigit(c: char) { '0' <= c <= '9' }

  /** A letter, a dash and three digits; the pattern's "$" also lets one final newline through. */
  predicate MatchesId(letter: char, s: string) {
    && (|s| == 5 || (|s| == 6 && s[5] == '\n'))
    && s[0] == letter && s[1] == '-'
    && IsDigit(s[2]) && IsDigit(s[3]) && IsDigit(s[4])
  }

  predicate IsIn(y: Yaml, ids: set<string>) {
    y.YStr? && y.s in ids
  }

  // ----- what these rules say -----

  /** The shape of an id: the letter, a dash, three digits, and at most a newline after them. */
  lemma IdShape(letter: char, s: string)
    ensures MatchesId(letter, s) <==> exists a, b, c ::
              && '0' <= a <= '9' && '0' <= b <= '9' && '0' <= c <= '9'
              && (s == [letter, '-', a, b, c] || s == [letter, '-', a, b, c, '\n'])
  {
    if MatchesId(letter, s) {
      assert s == [letter, '-', s[2], s[3], s[4]] || s == [letter, '-', s[2], s[3], s[4], '\n'];
    }
  }

  /** A mapping gives the value under the key, and nothing exactly when it lacks the key. */
  lemma {:induction false} GetMeaning(entries: seq<Entry>, key: string, i: nat)
    ensures !HasKey(entries, key) ==> Get(entries, key) == YNull
    ensures i < |entries| && entries[i].key == YStr(key) ==> HasKey(entries, key)
    ensures i < |entries| && entries[i].key == YStr(key) && (forall j | 0 <= j < i :: entries[j].key != YStr(key)) ==>
              Get(entries, key) == entries[i].value
  {
    if entries != [] && entries[0].key != YStr(key) {
      assert forall j | 0 <= j < |entries| - 1 :: entries[1..][j] == entries[j + 1];
      GetMeaning(entries[1..], key, if i > 0 then i - 1 else 0);
    }
  }

  /** What a loop over a value runs through: nothing for what Python takes for false,
      items, keys or characters in order, and an exception for true and other numbers. */
  lemma IterateMeaning(y: Yaml)
    ensures y in {YNull, YBool(false), YInt(0), YReal(true), YStr(""), YList([]), YMap([])} ==> Iterate(y) == Returned([])
    ensures y.YList? ==> Iterate(y) == Returned(y.items)
    ensures y.YMap? ==>
              && Iterate(y).Returned? && |Iterate(y).value| == |y.entries|
              && forall i | 0 <= i < |y.entries| :: Iterate(y).value[i] == y.entries[i].key
    ensures y.YStr? ==>
              && Iterate(y).Returned? && |Iterate(y).value| == |y.s|
              && forall i | 0 <= i < |y.s| :: Iterate(y).value[i] == YStr([y.s[i]])
    ensures Iterate(y).Raised? <==> y == YBool(true) || (y.YInt? && y.i != 0) || y == YReal(false)
  {}

  // ----- findings -----

  datatype Severity = Error | Warn | Info

  datatype Check = M1 | M2 | M3 | M4 | M5 | P1 | P2 | P3 | P4 | X1 | X2 | X3 | Inv

  datatype Place =
    | SpecFile | ConceptAt(index: nat) | RelationAt(index: nat) | StepAt(path: string)
    | GsMatrix | TMatrix | ObjectMatrix | Inventory

  datatype Finding = Finding(check: Check, severity: Severity, place: Place, subject: string)

  predicate AnyError(items: seq<Finding>) {
    exists f | f in items :: f.severity == Error
  }

  predicate AllErrors(items: seq<Finding>) {
    forall f | f in items :: f.severity == Error
  }

  lemma FindingOfConcat(a: seq<Finding>, b: seq<Finding>, f: Finding)
    ensures f in a + b <==> f in a || f in b
  {}

  lemma AnyErrorConcat(a: seq<Finding>, b: seq<Finding>)
    ensures AnyError(a + b) <==> AnyError(a) || AnyError(b)
  {
    assert forall f :: f in a + b <==> f in a || f in b;
  }

  lemma ErrorsOnly(items: seq<Finding>)
    requires AllErrors(items)
    ensures AnyError(items) <==> items != []
  {
    if items != [] { assert items[0] in items; }
  }

  /** Ordered collector of findings. */
  class Findings {
    var items: seq<Finding>

    constructor ()
      ensures items == []
    {
      items := [];
    }

    method Add(check: Check, severity: Severity, place: Place, subject: string)
      modifies this
      ensures items == old(items) + [Finding(check, severity, place, subject)]
    {
      items := items + [Finding(check, severity, place, subject)];
    }

    method HasErrors() returns (any: bool)
      ensures any <==> AnyError(items)
    {
      any := exists f | f in items :: f.severity == Error;
    }
  }
}
