/** The release-readiness record: what the validator reports, and what a record without reports looks like. */
module Readiness {
  import opened Wrappers
  import opened Sorting

  /** A loaded YAML value; mappings are seen through their text keys. */
  datatype Yaml =
    | Null
    | Bool(b: bool)
    | Int(i: int)
    | Real(x: real)
    | Text(s: string)
    | List(items: seq<Yaml>)
    | Mapping(fields: map<string, Yaml>)
    | Other   // a date, a set, a byte string: none of the expected values, and fit for a set lookup

  datatype Problem =
    | Unreadable
    | NotAMapping
    | WrongSchema
    | WrongPhase
    | WrongTarget
    | CriteriaNotAList
    | CriterionNotAMapping(index: nat)
    | BadId(index: nat)
    | Duplicate(id: int)
    | NoRequirement(id: int)
    | NoGate(id: int)
    | BadState(id: int)
    | BadEvidence(id: int)
    | NoSuchEvidence(id: int, path: string)
    | Missing(ids: set<int>)
    | Unexpected(ids: set<int>)
    | WrongOverall(expected: string)

  datatype Validation = TypeError | Checked(errors: seq<Problem>, incomplete: seq<int>)

  // ---- reading values ----

  /** mapping.get(name) */
  function Field(fields: map<string, Yaml>, name: string): Yaml {
    if name in fields then fields[name] else Null
  }

  function Fields(v: Yaml): map<string, Yaml> {
    if v.Mapping? then v.fields else map[]
  }

  /** v == n in the host language, where true equals 1 and 1.0 equals 1. */
  predicate Equals(v: Yaml, n: int) {
    match v
    case Int(i) => i == n
    case Bool(b) => (if b then 1 else 0) == n
    case Real(x) => x == n as real
    case _ => false
  }

  /** str.isspace on one character */
  predicate Space(c: char) {
    || '\U{9}' <= c <= '\U{D}' || '\U{1C}' <= c <= '\U{20}' || c == '\U{85}' || c == '\U{A0}' || c == '\U{1680}'
    || '\U{2000}' <= c <= '\U{200A}' || c == '\U{2028}' || c == '\U{2029}' || c == '\U{202F}' || c == '\U{205F}' || c == '\U{3000}'
  }

  predicate Worded(v: Yaml) {
    v.Text? && exists i :: 0 <= i < |v.s| && !Space(v.s[i])
  }

  predicate KnownState(v: Yaml) {
    v.Text? && v.s in {"pending", "partial", "evidence_available", "external_evidence_required", "passed"}
  }

  function Id(criterion: Yaml): Option<int> {
    match Field(Fields(criterion), "id") case Int(i) => Some(i) case _ => None
  }

  function State(criterion: Yaml): Yaml {
    Field(Fields(criterion), "state")
  }

  /** criterion.get("evidence", []) */
  function Evidence(criterion: Yaml): Yaml {
    if "evidence" in Fields(criterion) then Fields(criterion)["evidence"] else List([])
  }

  predicate PathList(v: Yaml) {
    v.List? && forall k :: 0 <= k < |v.items| ==> v.items[k].Text?
  }

  function Criteria(document: Option<Yaml>): seq<Yaml> {
    match Field(Document(document), "criteria") case List(items) => items case _ => []
  }

  function Document(document: Option<Yaml>): map<string, Yaml> {
    if document.Some? then Fields(document.value) else map[]
  }

  // ---- what a report means ----

  ghost predicate HeaderReports(p: Problem, document: Option<Yaml>) {
    var fields := Document(document);
    match p
    case Unreadable => document.None?
    case NotAMapping => document.Some? && !document.value.Mapping?
    case WrongSchema => !Equals(Field(fields, "schema_version"), 1)
    case WrongPhase => !Equals(Field(fields, "phase"), 9)
    case WrongTarget => Field(fields, "target_release") != Text("1.0.0")
    case CriteriaNotAList => !Field(fields, "criteria").List?
    case _ => false
  }

  predicate UsedBefore(criteria: seq<Yaml>, n: nat, id: int)
    requires n <= |criteria|
  {
    exists k :: 0 <= k < n && Id(criteria[k]) == Some(id)
  }

  ghost predicate CriterionReports(p: Problem, criteria: seq<Yaml>, j: nat, present: string -> bool)
    requires j < |criteria|
  {
    var c := criteria[j];
    match p
    case CriterionNotAMapping(index) => index == j && !c.Mapping?
    case BadId(index) => index == j && Id(c).None?
    case Duplicate(id) => Id(c) == Some(id) && UsedBefore(criteria, j, id)
    case NoRequirement(id) => Id(c) == Some(id) && !Worded(Field(Fields(c), "requirement"))
    case NoGate(id) => Id(c) == Some(id) && !Worded(Field(Fields(c), "gate"))
    case BadState(id) => Id(c) == Some(id) && !KnownState(State(c))
    case BadEvidence(id) => Id(c) == Some(id) && !PathList(Evidence(c))
    case NoSuchEvidence(id, path) =>
      Id(c) == Some(id) && PathList(Evidence(c)) && Text(path) in Evidence(c).items && !present(path)
    case _ => false
  }

  predicate Within(i: int, n: int) {
    1 <= i <= n
  }

  /** set(range(1, n + 1)) */
  function UpTo(n: nat): set<int> {
    set i | 1 <= i <= n && Within(i, n)
  }

  /** The ids of the sixty criteria. */
  function Wanted(): set<int> {
    UpTo(60)
  }

  /** The ids in use. */
  function Used(criteria: seq<Yaml>): (used: set<int>)
    ensures forall i :: i in used <==> UsedBefore(criteria, |criteria|, i)
  {
    if criteria == [] then {}
    else
      var n := |criteria| - 1;
      assert forall j :: 0 <= j < n ==> criteria[..n][j] == criteria[j];
      Used(criteria[..n]) + match Id(criteria[n]) case None => {} case Some(i) => {i}
  }

  ghost predicate RangeReports(p: Problem, criteria: seq<Yaml>) {
    match p
    case Missing(ids) => ids == Wanted() - Used(criteria) && ids != {}
    case Unexpected(ids) => ids == Used(criteria) - Wanted() && ids != {}
    case _ => false
  }

  /** Every report but the one about the overall status. */
  ghost predicate RecordReports(p: Problem, document: Option<Yaml>, present: string -> bool) {
    var criteria := Criteria(document);
    || HeaderReports(p, document)
    || (exists j :: 0 <= j < |criteria| && CriterionReports(p, criteria, j, present))
    || RangeReports(p, criteria)
  }

  ghost predicate RecordSilent(document: Option<Yaml>, present: string -> bool) {
    forall p :: !RecordReports(p, document, present)
  }

  /** A criterion with an id that has not passed. */
  predicate Incomplete(criterion: Yaml) {
    Id(criterion).Some? && State(criterion) != Text("passed")
  }

  ghost function Expected(document: Option<Yaml>, present: string -> bool): string {
    if (forall j :: 0 <= j < |Criteria(document)| ==> !Incomplete(Criteria(document)[j]))
      && RecordSilent(document, present)
    then "READY" else "NOT_READY"
  }

  ghost predicate Reports(p: Problem, document: Option<Yaml>, present: string -> bool) {
    if p.WrongOverall? then
      p.expected == Expected(document, present) && Field(Document(document), "overall_status") != Text(p.expected)
    else RecordReports(p, document, present)
  }

  /** Nothing is reported. */
  ghost predicate Silent(document: Option<Yaml>, present: string -> bool) {
    forall p :: !Reports(p, document, present)
  }

  /** A state that cannot be a set member stops the validator. */
  predicate Stops(criterion: Yaml) {
    Id(criterion).Some? && (State(criterion).List? || State(criterion).Mapping?)
  }

  function IncompleteIds(criteria: seq<Yaml>): seq<int> {
    if criteria == [] then []
    else
      var last := criteria[|criteria| - 1];
      IncompleteIds(criteria[..|criteria| - 1]) + if Incomplete(last) then [Id(last).value] else []
  }

  function Number(i: int): real {
    i as real
  }

  // ---- the reports in the order in which they are made ----

  ghost function IfHeader(p: Problem, document: Option<Yaml>): seq<Problem> {
    if HeaderReports(p, document) then [p] else []
  }

  ghost function HeaderList(document: Option<Yaml>): seq<Problem> {
    IfHeader(Unreadable, document) + IfHeader(NotAMapping, document) + IfHeader(WrongSchema, document)
    + IfHeader(WrongPhase, document) + IfHeader(WrongTarget, document) + IfHeader(CriteriaNotAList, document)
  }

  /** One report for every absent path, as often as it is listed. */
  ghost function EvidenceList(id: int, items: seq<Yaml>, present: string -> bool): seq<Problem>
    requires PathList(List(items))
  {
    if items == [] then []
    else
      var init, last := items[..|items| - 1], items[|items| - 1];
      EvidenceList(id, init, present) + if present(last.s) then [] else [NoSuchEvidence(id, last.s)]
  }

  function If(condition: bool, p: Problem): seq<Problem> {
    if condition then [p] else []
  }

  function TextList(criteria: seq<Yaml>, j: nat, id: int): seq<Problem>
    requires j < |criteria|
  {
    var c := criteria[j];
    If(UsedBefore(criteria, j, id), Duplicate(id))
    + If(!Worded(Field(Fields(c), "requirement")), NoRequirement(id))
    + If(!Worded(Field(Fields(c), "gate")), NoGate(id))
  }

  function StateList(c: Yaml, id: int): seq<Problem> {
    If(!KnownState(State(c)), BadState(id)) + If(!PathList(Evidence(c)), BadEvidence(id))
  }

  /** The reports on the fields of a criterion with an id. */
  function FieldList(criteria: seq<Yaml>, j: nat, id: int): seq<Problem>
    requires j < |criteria|
  {
    TextList(criteria, j, id) + StateList(criteria[j], id)
  }

  ghost function CriterionList(criteria: seq<Yaml>, j: nat, present: string -> bool): seq<Problem>
    requires j < |criteria|
  {
    var c := criteria[j];
    If(!c.Mapping?, CriterionNotAMapping(j)) + If(Id(c).None?, BadId(j))
    + (match Id(c) case None => [] case Some(id) => FieldList(criteria, j, id))
    + if Id(c).Some? && PathList(Evidence(c)) then EvidenceList(Id(c).value, Evidence(c).items, present) else []
  }

  ghost function CriterionLists(criteria: seq<Yaml>, present: string -> bool): seq<seq<Problem>> {
    seq(|criteria|, j requires 0 <= j < |criteria| => CriterionList(criteria, j, present))
  }

  function Concat<T>(lists: seq<seq<T>>): seq<T> {
    if lists == [] then [] else Concat(lists[..|lists| - 1]) + lists[|lists| - 1]
  }

  /** The header's reports and those of the first n criteria. */
  ghost function RecordList(document: Option<Yaml>, n: nat, present: string -> bool): seq<Problem>
    requires n <= |Criteria(document)|
  {
    HeaderList(document) + Concat(CriterionLists(Criteria(document), present)[..n])
  }

  ghost function IfRange(p: Problem, criteria: seq<Yaml>): seq<Problem> {
    if RangeReports(p, criteria) then [p] else []
  }

  ghost function RangeList(criteria: seq<Yaml>): seq<Problem> {
    IfRange(Missing(Wanted() - Used(criteria)), criteria) + IfRange(Unexpected(Used(criteria) - Wanted()), criteria)
  }

  ghost function OverallList(document: Option<Yaml>, present: string -> bool): seq<Problem> {
    var p := WrongOverall(Expected(document, present));
    if Reports(p, document, present) then [p] else []
  }

  /** All reports of a record that does not stop the validator. */
  ghost function ReportList(document: Option<Yaml>, present: string -> bool): seq<Problem> {
    RecordList(document, |Criteria(document)|, present) + RangeList(Criteria(document)) + OverallList(document, present)
  }

  lemma {:induction false} HeaderListed(document: Option<Yaml>, p: Problem)
    ensures p in HeaderList(document) <==> HeaderReports(p, document)
  {
    assert p in HeaderList(document) <==>
      (p in [Unreadable, NotAMapping, WrongSchema, WrongPhase, WrongTarget, CriteriaNotAList] && HeaderReports(p, document));
  }

  lemma {:induction false} EvidenceListed(id: int, items: seq<Yaml>, present: string -> bool, p: Problem)
    requires PathList(List(items))
    ensures p in EvidenceList(id, items, present) <==>
              (p.NoSuchEvidence? && p.id == id && Text(p.path) in items && !present(p.path))
  {
    if items != [] {
      var init, last := items[..|items| - 1], items[|items| - 1];
      EvidenceListed(id, init, present, p);
      assert items == init + [last];
      assert p.NoSuchEvidence? ==> (Text(p.path) == last <==> p.path == last.s);
    }
  }

  lemma {:induction false} TextListed(criteria: seq<Yaml>, j: nat, id: int, present: string -> bool, p: Problem)
    requires j < |criteria| && Id(criteria[j]) == Some(id)
    ensures p in TextList(criteria, j, id) <==>
              (CriterionReports(p, criteria, j, present) && (p.Duplicate? || p.NoRequirement? || p.NoGate?))
  {
  }

  lemma {:induction false} StateListed(criteria: seq<Yaml>, j: nat, id: int, present: string -> bool, p: Problem)
    requires j < |criteria| && Id(criteria[j]) == Some(id)
    ensures p in StateList(criteria[j], id) <==>
              (CriterionReports(p, criteria, j, present) && (p.BadState? || p.BadEvidence?))
  {
  }

  lemma {:induction false} CriterionListed(criteria: seq<Yaml>, j: nat, present: string -> bool, p: Problem)
    requires j < |criteria|
    ensures p in CriterionList(criteria, j, present) <==> CriterionReports(p, criteria, j, present)
  {
    var c := criteria[j];
    if Id(c).Some? {
      TextListed(criteria, j, Id(c).value, present, p);
      StateListed(criteria, j, Id(c).value, present, p);
      if PathList(Evidence(c)) {
        EvidenceListed(Id(c).value, Evidence(c).items, present, p);
      }
    }
  }

  lemma {:induction false} ConcatListed<T>(lists: seq<seq<T>>, x: T)
    ensures x in Concat(lists) <==> exists j :: 0 <= j < |lists| && x in lists[j]
  {
    if lists != [] {
      ConcatListed(lists[..|lists| - 1], x);
    }
  }

  lemma {:induction false} ConcatNext<T>(lists: seq<seq<T>>, n: nat)
    requires n < |lists|
    ensures Concat(lists[..n + 1]) == Concat(lists[..n]) + lists[n]
  {
    assert lists[..n + 1][..n] == lists[..n];
  }

  lemma {:induction false} RecordNext(document: Option<Yaml>, n: nat, present: string -> bool)
    requires n < |Criteria(document)|
    ensures RecordList(document, n + 1, present) ==
            RecordList(document, n, present) + CriterionList(Criteria(document), n, present)
  {
    var lists := CriterionLists(Criteria(document), present);
    ConcatNext(lists, n);
    Associate(HeaderList(document), Concat(lists[..n]), lists[n]);
  }

  lemma {:induction false} Associate<T>(a: seq<T>, b: seq<T>, c: seq<T>)
    ensures a + (b + c) == (a + b) + c
  {
  }

  lemma {:induction false} CriteriaListed(criteria: seq<Yaml>, present: string -> bool, p: Problem)
    ensures p in Concat(CriterionLists(criteria, present)) <==>
              exists j :: 0 <= j < |criteria| && CriterionReports(p, criteria, j, present)
  {
    var lists := CriterionLists(criteria, present);
    ConcatListed(lists, p);
    forall j | 0 <= j < |criteria| ensures p in lists[j] <==> CriterionReports(p, criteria, j, present) {
      CriterionListed(criteria, j, present, p);
    }
  }

  lemma {:induction false} RecordListed(document: Option<Yaml>, present: string -> bool, p: Problem)
    ensures p in RecordList(document, |Criteria(document)|, present) + RangeList(Criteria(document)) <==>
              RecordReports(p, document, present)
  {
    var criteria := Criteria(document);
    var lists := CriterionLists(criteria, present);
    assert lists[..|lists|] == lists;
    HeaderListed(document, p);
    CriteriaListed(criteria, present, p);
    RangeListed(criteria, p);
  }

  lemma {:induction false} RangeListed(criteria: seq<Yaml>, p: Problem)
    ensures p in RangeList(criteria) <==> RangeReports(p, criteria)
  {
  }

  lemma {:induction false} OverallListed(document: Option<Yaml>, present: string -> bool, p: Problem)
    ensures p in OverallList(document, present) <==> p.WrongOverall? && Reports(p, document, present)
  {
  }

  lemma {:induction false} RecordNeverOverall(document: Option<Yaml>, present: string -> bool, p: Problem)
    ensures p.WrongOverall? ==> !RecordReports(p, document, present)
  {
  }

  lemma {:induction false} InThree(a: seq<Problem>, b: seq<Problem>, c: seq<Problem>, p: Problem)
    ensures p in a + b + c <==> p in a + b || p in c
  {
  }

  /** The list holds exactly what the record calls for. */
  lemma {:induction false} ReportsListed(document: Option<Yaml>, present: string -> bool, p: Problem)
    ensures p in ReportList(document, present) <==> Reports(p, document, present)
  {
    var criteria := Criteria(document);
    RecordListed(document, present, p);
    OverallListed(document, present, p);
    RecordNeverOverall(document, present, p);
    InThree(RecordList(document, |criteria|, present), RangeList(criteria), OverallList(document, present), p);
  }

  lemma {:induction false} NoRecordListed(document: Option<Yaml>, present: string -> bool)
    ensures RecordList(document, |Criteria(document)|, present) + RangeList(Criteria(document)) == []
      <==> RecordSilent(document, present)
  {
    var record := RecordList(document, |Criteria(document)|, present) + RangeList(Criteria(document));
    if record != [] {
      RecordListed(document, present, record[0]);
    } else {
      forall p ensures !RecordReports(p, document, present) {
        RecordListed(document, present, p);
      }
    }
  }

  lemma {:induction false} NoneListed(document: Option<Yaml>, present: string -> bool)
    ensures ReportList(document, present) == [] <==> Silent(document, present)
  {
    var all := ReportList(document, present);
    if all != [] {
      ReportsListed(document, present, all[0]);
    } else {
      forall p ensures !Reports(p, document, present) {
        ReportsListed(document, present, p);
      }
    }
  }

  // ---- the validator ----

  method CheckHeader(document: Option<Yaml>) returns (errors: seq<Problem>)
    ensures errors == HeaderList(document)
  {
    errors := [];
    if document.None? {
      errors := errors + [Unreadable];
    } else if !document.value.Mapping? {
      errors := errors + [NotAMapping];
    }
    var fields := Document(document);
    if !Equals(Field(fields, "schema_version"), 1) {
      errors := errors + [WrongSchema];
    }
    if !Equals(Field(fields, "phase"), 9) {
      errors := errors + [WrongPhase];
    }
    if Field(fields, "target_release") != Text("1.0.0") {
      errors := errors + [WrongTarget];
    }
    if !Field(fields, "criteria").List? {
      errors := errors + [CriteriaNotAList];
    }
  }

  method CheckCriterion(criteria: seq<Yaml>, index: nat, seen: set<int>, present: string -> bool)
    returns (errors: seq<Problem>)
    requires index < |criteria| && !Stops(criteria[index])
    requires forall id :: id in seen <==> UsedBefore(criteria, index, id)
    ensures errors == CriterionList(criteria, index, present)
  {
    errors := [];
    var c := criteria[index];
    if !c.Mapping? {
      errors := errors + [CriterionNotAMapping(index)];
    }
    if Id(c).None? {
      errors := errors + [BadId(index)];
      return;
    }
    var texts := CheckTexts(criteria, index, Id(c).value, seen);
    var state := CheckState(c, Id(c).value);
    errors := errors + (texts + state);
    if PathList(Evidence(c)) {
      var absent := CheckEvidence(Id(c).value, Evidence(c).items, present);
      errors := errors + absent;
    }
  }

  method CheckTexts(criteria: seq<Yaml>, index: nat, id: int, seen: set<int>) returns (errors: seq<Problem>)
    requires index < |criteria| && Id(criteria[index]) == Some(id)
    requires id in seen <==> UsedBefore(criteria, index, id)
    ensures errors == TextList(criteria, index, id)
  {
    errors := [];
    var c := criteria[index];
    if id in seen {
      errors := errors + [Duplicate(id)];
    }
    if !Worded(Field(Fields(c), "requirement")) {
      errors := errors + [NoRequirement(id)];
    }
    if !Worded(Field(Fields(c), "gate")) {
      errors := errors + [NoGate(id)];
    }
  }

  method CheckState(c: Yaml, id: int) returns (errors: seq<Problem>)
    ensures errors == StateList(c, id)
  {
    errors := [];
    if !KnownState(State(c)) {
      errors := errors + [BadState(id)];
    }
    if !PathList(Evidence(c)) {
      errors := errors + [BadEvidence(id)];
    }
  }

  method CheckEvidence(id: int, items: seq<Yaml>, present: string -> bool) returns (errors: seq<Problem>)
    requires PathList(List(items))
    ensures errors == EvidenceList(id, items, present)
  {
    errors := [];
    for k := 0 to |items|
      invariant errors == EvidenceList(id, items[..k], present)
    {
      assert items[..k + 1][..k] == items[..k];
      if !present(items[k].s) {
        errors := errors + [NoSuchEvidence(id, items[k].s)];
      }
    }
    assert items[..|items|] == items;
  }

  ghost predicate Scanned(criteria: seq<Yaml>, n: nat, seen: set<int>, incomplete: seq<int>)
    requires n <= |criteria|
  {
    && (forall id :: id in seen <==> UsedBefore(criteria, n, id))
    && incomplete == IncompleteIds(criteria[..n])
    && forall j :: 0 <= j < n ==> !Stops(criteria[j])
  }

  lemma {:induction false} RangeIs(criteria: seq<Yaml>, seen: set<int>)
    requires forall id :: id in seen <==> UsedBefore(criteria, |criteria|, id)
    ensures RangeList(criteria) ==
      (if Wanted() - seen != {} then [Missing(Wanted() - seen)] else [])
      + if seen - Wanted() != {} then [Unexpected(seen - Wanted())] else []
  {
    forall id ensures id in seen <==> id in Used(criteria) {
      assert id in seen <==> UsedBefore(criteria, |criteria|, id);
    }
    assert seen == Used(criteria);
  }

  lemma {:induction false} OverallIs(document: Option<Yaml>, errors: seq<Problem>, present: string -> bool)
    requires errors == RecordList(document, |Criteria(document)|, present) + RangeList(Criteria(document))
    ensures Expected(document, present) ==
            if IncompleteIds(Criteria(document)) == [] && errors == [] then "READY" else "NOT_READY"
  {
    NoneIncomplete(Criteria(document));
    NoRecordListed(document, present);
  }

  lemma {:induction false} Verdict(document: Option<Yaml>, r: Validation, present: string -> bool)
    requires r.Checked? && (r.errors == [] <==> Silent(document, present))
    requires |r.incomplete| == |IncompleteIds(Criteria(document))|
    ensures r.errors == [] <==> Clean(document, present)
    ensures Releasable(r) <==> Clean(document, present) && AllPassed(Criteria(document))
  {
    NoReportsIff(document, present);
    NoneIncomplete(Criteria(document));
  }

  lemma {:induction false} IncompleteNext(criteria: seq<Yaml>, n: nat)
    requires n < |criteria|
    ensures IncompleteIds(criteria[..n + 1]) ==
            IncompleteIds(criteria[..n]) + if Incomplete(criteria[n]) then [Id(criteria[n]).value] else []
  {
    assert criteria[..n + 1][..n] == criteria[..n];
  }

  lemma {:induction false} ScanNext(criteria: seq<Yaml>, n: nat, seen: set<int>, incomplete: seq<int>)
    requires n < |criteria| && Scanned(criteria, n, seen, incomplete) && !Stops(criteria[n])
    ensures var c := criteria[n];
      Scanned(criteria, n + 1, seen + (if Id(c).Some? then {Id(c).value} else {}),
              incomplete + if Incomplete(c) then [Id(c).value] else [])
  {
    IncompleteNext(criteria, n);
  }

  /** The loop over the criteria, which the header's errors precede. */
  method CheckCriteria(document: Option<Yaml>, header: seq<Problem>, present: string -> bool)
    returns (stopped: bool, errors: seq<Problem>, seen: set<int>, incomplete: seq<int>)
    requires header == HeaderList(document)
    ensures stopped <==> exists j :: 0 <= j < |Criteria(document)| && Stops(Criteria(document)[j])
    ensures !stopped ==>
              && errors == RecordList(document, |Criteria(document)|, present)
              && Scanned(Criteria(document), |Criteria(document)|, seen, incomplete)
  {
    var criteria := Criteria(document);
    stopped, errors, seen, incomplete := false, header, {}, [];
    for index := 0 to |criteria|
      invariant errors == RecordList(document, index, present) && Scanned(criteria, index, seen, incomplete) && !stopped
    {
      if Stops(criteria[index]) {
        return true, errors, seen, incomplete;
      }
      var found := CheckCriterion(criteria, index, seen, present);
      RecordNext(document, index, present);
      ScanNext(criteria, index, seen, incomplete);
      errors := errors + found;
      if Id(criteria[index]).Some? {
        seen := seen + {Id(criteria[index]).value};
        if State(criteria[index]) != Text("passed") {
          incomplete := incomplete + [Id(criteria[index]).value];
        }
      }
    }
  }

  method CheckRange(criteria: seq<Yaml>, seen: set<int>) returns (errors: seq<Problem>)
    requires forall id :: id in seen <==> UsedBefore(criteria, |criteria|, id)
    ensures errors == RangeList(criteria)
  {
    RangeIs(criteria, seen);
    var missing, unexpected := Wanted() - seen, seen - Wanted();
    errors := [];
    if missing != {} {
      errors := errors + [Missing(missing)];
    }
    if unexpected != {} {
      errors := errors + [Unexpected(unexpected)];
    }
  }

  method CheckOverall(document: Option<Yaml>, expected: string, present: string -> bool) returns (errors: seq<Problem>)
    requires expected == Expected(document, present)
    ensures errors == OverallList(document, present)
  {
    errors := [];
    if Field(Document(document), "overall_status") != Text(expected) {
      errors := errors + [WrongOverall(expected)];
    }
  }

  /** `validate_readiness`: it raises exactly when some criterion stops it; otherwise it reports exactly what
      the record calls for, and lists the incomplete criteria in ascending order. */
  method ValidateReadiness(document: Option<Yaml>, present: string -> bool) returns (r: Validation)
    ensures r == TypeError <==> exists j :: 0 <= j < |Criteria(document)| && Stops(Criteria(document)[j])
    ensures r.Checked? ==> r.errors == ReportList(document, present)
    ensures r.Checked? ==>
              && Ascending(r.incomplete, Number)
              && multiset(r.incomplete) == multiset(IncompleteIds(Criteria(document)))
              && forall id :: multiset(r.incomplete)[id] == |Pending(Criteria(document), id)|
    ensures r.Checked? ==> (r.errors == [] <==> Clean(document, present))
    ensures r.Checked? ==> (Releasable(r) <==> Clean(document, present) && AllPassed(Criteria(document)))
  {
    var header := CheckHeader(document);
    var stopped, errors, seen, incomplete := CheckCriteria(document, header, present);
    if stopped {
      return TypeError;
    }
    assert Criteria(document)[..|Criteria(document)|] == Criteria(document);
    var range := CheckRange(Criteria(document), seen);
    errors := errors + range;
    OverallIs(document, errors, present);
    var overall := CheckOverall(document, if incomplete == [] && errors == [] then "READY" else "NOT_READY", present);
    r := Checked(errors + overall, Sorted(incomplete, Number));
    SortedSorts(incomplete, Number);
    NoneListed(document, present);
    Verdict(document, r, present);
    forall id ensures multiset(r.incomplete)[id] == |Pending(Criteria(document), id)| {
      IncompleteExactly(Criteria(document), id);
    }
  }

  predicate Releasable(r: Validation) {
    r.Checked? && r.errors == [] && r.incomplete == []
  }

  lemma {:induction false} NoneIncomplete(criteria: seq<Yaml>)
    ensures IncompleteIds(criteria) == [] <==> forall j :: 0 <= j < |criteria| ==> !Incomplete(criteria[j])
  {
    if criteria != [] {
      var n := |criteria| - 1;
      NoneIncomplete(criteria[..n]);
      assert forall j :: 0 <= j < n ==> criteria[..n][j] == criteria[j];
    }
  }

  // ---- a record without reports ----

  predicate AllPassed(criteria: seq<Yaml>) {
    forall j :: 0 <= j < |criteria| ==> State(criteria[j]) == Text("passed")
  }

  function Ids(criteria: seq<Yaml>): seq<int>
    requires forall j :: 0 <= j < |criteria| ==> Id(criteria[j]).Some?
  {
    seq(|criteria|, j requires 0 <= j < |criteria| => Id(criteria[j]).value)
  }

  predicate WellFormed(c: Yaml, present: string -> bool) {
    && c.Mapping? && Id(c).Some?
    && Worded(Field(Fields(c), "requirement")) && Worded(Field(Fields(c), "gate")) && KnownState(State(c))
    && PathList(Evidence(c))
    && forall k :: 0 <= k < |Evidence(c).items| ==> present(Evidence(c).items[k].s)
  }

  predicate GoodHeader(document: Option<Yaml>) {
    var fields := Document(document);
    && document.Some? && document.value.Mapping?
    && Equals(Field(fields, "schema_version"), 1) && Equals(Field(fields, "phase"), 9)
    && Field(fields, "target_release") == Text("1.0.0") && Field(fields, "criteria").List?
  }

  /** A right header, and well-formed criteria whose ids are a permutation of 1 to 60. */
  predicate Sound(document: Option<Yaml>, present: string -> bool) {
    var criteria := Criteria(document);
    && GoodHeader(document)
    && (forall j :: 0 <= j < |criteria| ==> WellFormed(criteria[j], present))
    && multiset(Ids(criteria)) == multiset(Wanted())
  }

  /** Sound, and the overall status is the one the criteria call for. */
  predicate Clean(document: Option<Yaml>, present: string -> bool) {
    && Sound(document, present)
    && Field(Document(document), "overall_status") == Text(if AllPassed(Criteria(document)) then "READY" else "NOT_READY")
  }

  ghost predicate Distinct<T>(s: seq<T>) {
    forall i, j :: 0 <= i < j < |s| ==> s[i] != s[j]
  }

  ghost predicate Lists<T(!new)>(s: seq<T>, members: set<T>) {
    Distinct(s) && forall x :: x in s <==> x in members
  }

  /** A sequence lists a set as a permutation exactly when it repeats nothing and has the same members. */
  lemma {:induction false} PermutationIff<T(!new)>(s: seq<T>, members: set<T>)
    ensures multiset(s) == multiset(members) <==> Lists(s, members)
  {
    if multiset(s) == multiset(members) {
      PermutationLists(s, members);
    } else if Lists(s, members) {
      ListsPermutation(s, members);
    }
  }

  lemma {:induction false} PermutationLists<T(!new)>(s: seq<T>, members: set<T>)
    requires multiset(s) == multiset(members)
    ensures Lists(s, members)
  {
    SameMembers(s, members);
    if s != [] {
      var last, front := s[|s| - 1], s[..|s| - 1];
      DropLast(s, members);
      PermutationLists(front, members - {last});
      assert s == front + [last];
    }
  }

  lemma {:induction false} SameMembers<T(!new)>(s: seq<T>, members: set<T>)
    requires multiset(s) == multiset(members)
    ensures forall x :: x in s <==> x in members
  {
    forall x ensures x in s <==> x in members {
      assert (x in s <==> x in multiset(s)) && (x in members <==> x in multiset(members));
    }
  }

  lemma {:induction false} DropLast<T(!new)>(s: seq<T>, members: set<T>)
    requires multiset(s) == multiset(members) && s != []
    ensures multiset(s[..|s| - 1]) == multiset(members - {s[|s| - 1]})
  {
    var last, front := s[|s| - 1], s[..|s| - 1];
    assert s == front + [last];
    assert multiset(front) == multiset(s) - multiset{last} == multiset(members) - multiset{last} == multiset(members - {last});
  }

  lemma {:induction false} ListsPermutation<T(!new)>(s: seq<T>, members: set<T>)
    requires Lists(s, members)
    ensures multiset(s) == multiset(members)
  {
    if s == [] {
      assert members == {};
    } else {
      var last, front := s[|s| - 1], s[..|s| - 1];
      assert s == front + [last];
      ListsPermutation(front, members - {last});
      assert multiset(members) == multiset(members - {last}) + multiset{last};
    }
  }

  lemma {:induction false} UpToSize(n: nat)
    ensures |UpTo(n)| == n
  {
    if n > 0 {
      UpToSize(n - 1);
      assert UpTo(n) == UpTo(n - 1) + {n};
    }
  }

  /** A record without reports has exactly sixty criteria, and each number from 1 to 60 is the id of exactly one. */
  lemma {:induction false} CleanHasSixty(document: Option<Yaml>, present: string -> bool)
    requires Clean(document, present)
    ensures |Criteria(document)| == 60
    ensures forall i :: 1 <= i <= 60 ==> UsedBefore(Criteria(document), 60, i)
    ensures forall j, k :: 0 <= j < k < 60 ==> Id(Criteria(document)[j]) != Id(Criteria(document)[k])
    ensures forall j :: 0 <= j < 60 ==> Id(Criteria(document)[j]).Some? && 1 <= Id(Criteria(document)[j]).value <= 60
  {
    var criteria := Criteria(document);
    var ids := Ids(criteria);
    UpToSize(60);
    PermutationIff(ids, Wanted());
    assert |multiset(ids)| == |ids|;
    forall i | 1 <= i <= 60 ensures UsedBefore(criteria, 60, i) {
      assert i in Wanted();
      var k :| 0 <= k < |ids| && ids[k] == i;
      assert Id(criteria[k]) == Some(i);
    }
    forall j | 0 <= j < 60 ensures Id(criteria[j]).Some? && 1 <= Id(criteria[j]).value <= 60 {
      assert ids[j] in Wanted();
    }
    forall j, k | 0 <= j < k < 60 ensures Id(criteria[j]) != Id(criteria[k]) {
      assert ids[j] != ids[k];
    }
  }

  ghost predicate HeaderSilent(document: Option<Yaml>) {
    forall p :: !HeaderReports(p, document)
  }

  ghost predicate CriterionSilent(criteria: seq<Yaml>, j: nat, present: string -> bool)
    requires j < |criteria|
  {
    forall p :: !CriterionReports(p, criteria, j, present)
  }

  ghost predicate RangeSilent(criteria: seq<Yaml>) {
    forall p :: !RangeReports(p, criteria)
  }

  lemma {:induction false} HeaderSilentIff(document: Option<Yaml>)
    ensures HeaderSilent(document) <==> GoodHeader(document)
  {
    if HeaderSilent(document) {
      assert !HeaderReports(Unreadable, document) && !HeaderReports(NotAMapping, document);
      assert !HeaderReports(WrongSchema, document) && !HeaderReports(WrongPhase, document);
      assert !HeaderReports(WrongTarget, document) && !HeaderReports(CriteriaNotAList, document);
    }
  }

  lemma {:induction false} CriterionSilentIff(criteria: seq<Yaml>, j: nat, present: string -> bool)
    requires j < |criteria|
    ensures CriterionSilent(criteria, j, present) <==>
              (WellFormed(criteria[j], present) && !UsedBefore(criteria, j, Id(criteria[j]).value))
  {
    var c := criteria[j];
    if CriterionSilent(criteria, j, present) {
      assert !CriterionReports(CriterionNotAMapping(j), criteria, j, present);
      assert !CriterionReports(BadId(j), criteria, j, present);
      var id := Id(c).value;
      assert !CriterionReports(Duplicate(id), criteria, j, present);
      assert !CriterionReports(NoRequirement(id), criteria, j, present);
      assert !CriterionReports(NoGate(id), criteria, j, present);
      assert !CriterionReports(BadState(id), criteria, j, present);
      assert !CriterionReports(BadEvidence(id), criteria, j, present);
      forall k | 0 <= k < |Evidence(c).items| ensures present(Evidence(c).items[k].s) {
        assert Evidence(c).items[k] in Evidence(c).items;
        assert !CriterionReports(NoSuchEvidence(id, Evidence(c).items[k].s), criteria, j, present);
      }
    }
  }

  ghost predicate NothingUsedTwice(criteria: seq<Yaml>) {
    forall j :: 0 <= j < |criteria| ==> Id(criteria[j]).Some? && !UsedBefore(criteria, j, Id(criteria[j]).value)
  }

  lemma {:induction false} RangeSilentIff(criteria: seq<Yaml>)
    ensures RangeSilent(criteria) <==> Used(criteria) == Wanted()
  {
    if RangeSilent(criteria) {
      assert !RangeReports(Missing(Wanted() - Used(criteria)), criteria);
      assert !RangeReports(Unexpected(Used(criteria) - Wanted()), criteria);
    }
  }

  lemma {:induction false} DistinctIds(criteria: seq<Yaml>)
    requires forall j :: 0 <= j < |criteria| ==> Id(criteria[j]).Some?
    ensures NothingUsedTwice(criteria) <==> Distinct(Ids(criteria))
  {
    var ids := Ids(criteria);
    if NothingUsedTwice(criteria) {
      forall i, j | 0 <= i < j < |ids| ensures ids[i] != ids[j] {
        assert !UsedBefore(criteria, j, Id(criteria[j]).value);
      }
    }
    if Distinct(ids) {
      forall j, k | 0 <= k < j < |criteria| ensures Id(criteria[k]) != Id(criteria[j]) {
        assert ids[k] != ids[j];
      }
    }
  }

  lemma {:induction false} UsedIds(criteria: seq<Yaml>)
    requires forall j :: 0 <= j < |criteria| ==> Id(criteria[j]).Some?
    ensures forall i :: i in Ids(criteria) <==> i in Used(criteria)
  {
    var ids := Ids(criteria);
    forall i ensures i in ids <==> i in Used(criteria) {
      if i in Used(criteria) {
        var k :| 0 <= k < |criteria| && Id(criteria[k]) == Some(i);
        assert ids[k] == i;
      }
    }
  }

  /** No id is used twice and the right ones are used exactly when the ids are a permutation of 1 to 60. */
  lemma {:induction false} PermutationOfIds(criteria: seq<Yaml>)
    requires forall j :: 0 <= j < |criteria| ==> Id(criteria[j]).Some?
    ensures multiset(Ids(criteria)) == multiset(Wanted()) <==> NothingUsedTwice(criteria) && Used(criteria) == Wanted()
  {
    PermutationIff(Ids(criteria), Wanted());
    DistinctIds(criteria);
    UsedIds(criteria);
  }

  lemma {:induction false} SilentParts(document: Option<Yaml>, present: string -> bool)
    ensures RecordSilent(document, present) <==>
              && HeaderSilent(document) && RangeSilent(Criteria(document))
              && forall j :: 0 <= j < |Criteria(document)| ==> CriterionSilent(Criteria(document), j, present)
  {
    var criteria := Criteria(document);
    if RecordSilent(document, present) {
      forall p ensures !HeaderReports(p, document) && !RangeReports(p, criteria) {
        assert !RecordReports(p, document, present);
      }
      forall j | 0 <= j < |criteria| ensures CriterionSilent(criteria, j, present) {
        forall p ensures !CriterionReports(p, criteria, j, present) {
          assert !RecordReports(p, document, present);
        }
      }
    } else if forall j :: 0 <= j < |criteria| ==> CriterionSilent(criteria, j, present) {
      forall p | RecordReports(p, document, present) ensures !HeaderSilent(document) || !RangeSilent(criteria) {
        forall j | 0 <= j < |criteria| ensures !CriterionReports(p, criteria, j, present) {
          assert CriterionSilent(criteria, j, present);
        }
      }
    }
  }

  lemma {:induction false} NoRecordReportsIff(document: Option<Yaml>, present: string -> bool)
    ensures RecordSilent(document, present) <==> Sound(document, present)
  {
    var criteria := Criteria(document);
    SilentParts(document, present);
    HeaderSilentIff(document);
    RangeSilentIff(criteria);
    forall j | 0 <= j < |criteria|
      ensures CriterionSilent(criteria, j, present) <==>
                (WellFormed(criteria[j], present) && !UsedBefore(criteria, j, Id(criteria[j]).value))
    {
      CriterionSilentIff(criteria, j, present);
    }
    if forall j :: 0 <= j < |criteria| ==> WellFormed(criteria[j], present) {
      PermutationOfIds(criteria);
    }
  }

  /** Nothing is reported exactly when the record is clean. */
  lemma {:induction false} NoReportsIff(document: Option<Yaml>, present: string -> bool)
    ensures Silent(document, present) <==> Clean(document, present)
  {
    NoRecordReportsIff(document, present);
    var wrong := WrongOverall(Expected(document, present));
    assert Reports(wrong, document, present) <==> Field(Document(document), "overall_status") != Text(wrong.expected);
    if Silent(document, present) {
      forall p ensures !RecordReports(p, document, present) {
        assert !Reports(p, document, present);
      }
    }
  }

  // ---- the same in terms of the values themselves ----

  /** White space, by code point. */
  lemma {:induction false} SpaceExactly(c: char)
    ensures Space(c) <==>
              || 9 <= c as int <= 13 || 28 <= c as int <= 32 || c as int in {133, 160, 5760}
              || 8192 <= c as int <= 8202 || c as int in {8232, 8233, 8239, 8287, 12288}
  {
  }

  function StripStart(s: string): string {
    if s != "" && Space(s[0]) then StripStart(s[1..]) else s
  }

  function StripEnd(s: string): string {
    if s != "" && Space(s[|s| - 1]) then StripEnd(s[..|s| - 1]) else s
  }

  /** str.strip */
  function Strip(s: string): string {
    StripEnd(StripStart(s))
  }

  lemma {:induction false} StripStartEmpty(s: string)
    ensures StripStart(s) == "" <==> forall i :: 0 <= i < |s| ==> Space(s[i])
  {
    if s != "" {
      StripStartEmpty(s[1..]);
      assert s == [s[0]] + s[1..];
    }
  }

  lemma {:induction false} StripStartTight(s: string)
    ensures StripStart(s) != "" ==> !Space(StripStart(s)[0])
  {
    if s != "" {
      StripStartTight(s[1..]);
    }
  }

  lemma {:induction false} StripEndKeeps(s: string)
    requires s != "" && !Space(s[0])
    ensures StripEnd(s) != ""
  {
    if Space(s[|s| - 1]) {
      StripEndKeeps(s[..|s| - 1]);
    }
  }

  /** A text is worded exactly when stripping leaves something. */
  lemma {:induction false} WordedExactly(v: Yaml)
    ensures Worded(v) <==> v.Text? && Strip(v.s) != ""
  {
    if v.Text? {
      StripStartEmpty(v.s);
      StripStartTight(v.s);
      if StripStart(v.s) != "" {
        StripEndKeeps(StripStart(v.s));
      }
    }
  }

  predicate HasWords(fields: map<string, Yaml>, name: string) {
    name in fields && fields[name].Text? && Strip(fields[name].s) != ""
  }

  /** A criterion is well formed exactly when it is a mapping with an integer id, a requirement and a gate
      that are more than white space, one of the five states, and paths that all exist as its evidence. */
  lemma {:induction false} WellFormedExactly(c: Yaml, present: string -> bool)
    ensures WellFormed(c, present) <==>
              && c.Mapping? && "id" in c.fields && c.fields["id"].Int?
              && HasWords(c.fields, "requirement") && HasWords(c.fields, "gate")
              && "state" in c.fields
              && c.fields["state"] in [Text("pending"), Text("partial"), Text("evidence_available"),
                                       Text("external_evidence_required"), Text("passed")]
              && ("evidence" in c.fields ==>
                    c.fields["evidence"].List?
                    && forall item :: item in c.fields["evidence"].items ==> item.Text? && present(item.s))
  {
    if c.Mapping? {
      WordedExactly(Field(c.fields, "requirement"));
      WordedExactly(Field(c.fields, "gate"));
    }
  }

  /** The header is right exactly when the four entries are there with these values. */
  lemma {:induction false} HeaderExactly(document: Option<Yaml>)
    ensures GoodHeader(document) <==>
              && document.Some? && document.value.Mapping?
              && var f := document.value.fields;
              && "schema_version" in f && f["schema_version"] in [Int(1), Real(1.0), Bool(true)]
              && "phase" in f && f["phase"] in [Int(9), Real(9.0)]
              && "target_release" in f && f["target_release"] == Text("1.0.0")
              && "criteria" in f && f["criteria"] == List(Criteria(document))
  {
  }

  /** The validator is stopped exactly by a criterion with an integer id whose state is a list or a mapping. */
  lemma {:induction false} StopsExactly(c: Yaml)
    ensures Stops(c) <==>
              && c.Mapping? && "id" in c.fields && c.fields["id"].Int?
              && "state" in c.fields && (c.fields["state"].List? || c.fields["state"].Mapping?)
  {
  }

  /** The positions of the criteria with this id that have not passed. */
  function Pending(criteria: seq<Yaml>, id: int): set<nat> {
    set j: nat | j < |criteria| && criteria[j].Mapping?
      && "id" in criteria[j].fields && criteria[j].fields["id"] == Int(id)
      && !("state" in criteria[j].fields && criteria[j].fields["state"] == Text("passed"))
  }

  /** The incomplete ids are those of the criteria that have not passed, as often as there are such criteria. */
  lemma {:induction false} IncompleteExactly(criteria: seq<Yaml>, id: int)
    ensures multiset(IncompleteIds(criteria))[id] == |Pending(criteria, id)|
  {
    if criteria == [] {
      assert Pending(criteria, id) == {};
    } else {
      var n := |criteria| - 1;
      IncompleteExactly(criteria[..n], id);
      PendingLast(criteria, n, id);
    }
  }

  lemma {:induction false} PendingLast(criteria: seq<Yaml>, n: nat, id: int)
    requires |criteria| == n + 1
    ensures |Pending(criteria, id)| ==
            |Pending(criteria[..n], id)| + if Id(criteria[n]) == Some(id) && Incomplete(criteria[n]) then 1 else 0
  {
    assert Pending(criteria, id) ==
      Pending(criteria[..n], id) + if Id(criteria[n]) == Some(id) && Incomplete(criteria[n]) then {n} else {};
  }

  lemma {:induction false} AllPassedExactly(criteria: seq<Yaml>)
    ensures AllPassed(criteria) <==>
      forall c :: c in criteria ==> c.Mapping? && "state" in c.fields && c.fields["state"] == Text("passed")
  {
  }

  // ---- a record that is ready ----

  function Passed(id: int): Yaml {
    Mapping(map["id" := Int(id), "requirement" := Text("r"), "gate" := Text("g"), "state" := Text("passed")])
  }

  function SixtyPassed(): (criteria: seq<Yaml>)
    ensures |criteria| == 60 && forall j :: 0 <= j < 60 ==> criteria[j] == Passed(j + 1)
  {
    seq(60, i => Passed(i + 1))
  }

  function ReadyRecord(): Option<Yaml> {
    Some(Mapping(map[
      "schema_version" := Int(1), "phase" := Int(9), "target_release" := Text("1.0.0"),
      "criteria" := List(SixtyPassed()), "overall_status" := Text("READY")]))
  }

  /** Sixty passed criteria in the right order, under the right header, are clean. */
  lemma {:induction false} ReadyIsClean(present: string -> bool)
    ensures Clean(ReadyRecord(), present) && AllPassed(Criteria(ReadyRecord()))
  {
    var criteria := Criteria(ReadyRecord());
    HeaderExactly(ReadyRecord());
    forall j | 0 <= j < |criteria| ensures WellFormed(criteria[j], present) && State(criteria[j]) == Text("passed") {
      PassedIsWellFormed(j + 1, present);
    }
    ReadyIds(criteria);
  }

  lemma {:induction false} ReadyIds(criteria: seq<Yaml>)
    requires |criteria| == 60 && forall j :: 0 <= j < 60 ==> Id(criteria[j]) == Some(j + 1)
    ensures multiset(Ids(criteria)) == multiset(Wanted())
  {
    var ids := Ids(criteria);
    assert forall j :: 0 <= j < 60 ==> ids[j] == j + 1;
    forall i | i in Wanted() ensures i in ids {
      assert ids[i - 1] == i;
    }
    PermutationIff(ids, Wanted());
  }

  lemma {:induction false} PassedIsWellFormed(id: int, present: string -> bool)
    ensures WellFormed(Passed(id), present) && Id(Passed(id)) == Some(id) && State(Passed(id)) == Text("passed")
  {
    var r, g := Text("r"), Text("g");
    assert !Space(r.s[0]) && !Space(g.s[0]);
    assert Worded(r) && Worded(g);
  }
}
