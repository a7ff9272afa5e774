/**
 * The paper-generation form of frontend/src/components/GeneratePaper.jsx: its state updaters,
 * the configuration it builds, its own copy of the configuration check, the subject list
 * filter, `getUniqueValues` for numeric fields, and the `handleSubmit` guard chain.
 */
module GenerateForm {
  import opened Wrappers
  import Js
  import opened ConfigValidation
  import PaperAssembler
  import SubjectCatalog

  /** A `{ short, long }` state object. */
  datatype PerKind<T> = PerKind(short: T, long: T) {
    function Get(kind: Kind): T {
      match kind
      case Short => short
      case Long => long
    }

    /** `{ ...prev, [type]: v }`. */
    function Set(kind: Kind, v: T): (r: PerKind<T>)
      ensures r.Get(kind) == v && r.Get(Other(kind)) == Get(Other(kind))
    {
      match kind
      case Short => this.(short := v)
      case Long => this.(long := v)
    }
  }

  function Other(kind: Kind): (o: Kind)
    ensures o != kind
  {
    match kind
    case Short => Long
    case Long => Short
  }

  /** The `[{ level, count }]` or `[{ unit, count }]` rows of the form, as (key, count). */
  type Rows = seq<(nat, int)>

  /** Rows with ascending keys; level keys are positive. */
  predicate RowsOk(rows: Rows, positive: bool) {
    KeysAscending(rows) && (positive ==> forall i :: 0 <= i < |rows| ==> rows[i].0 >= 1)
  }

  /** `handleBtLevelToggle(type)`: flips the given type's flag and no other. */
  function Toggle(flags: PerKind<bool>, kind: Kind): (r: PerKind<bool>)
    ensures r.Get(kind) == !flags.Get(kind)
    ensures r.Get(Other(kind)) == flags.Get(Other(kind))
  {
    flags.Set(kind, !flags.Get(kind))
  }

  /**
   * `prev[type].map(bt => bt.level === key ? { ...bt, count: parseInt(input) || 0 } : bt)`:
   * the rows with that key get the parsed count, every other row is kept.
   */
  function SetCount(rows: Rows, key: nat, input: string): (r: Rows)
    ensures |r| == |rows|
    ensures forall i :: 0 <= i < |rows| ==> r[i].0 == rows[i].0
    ensures forall i :: 0 <= i < |rows| && rows[i].0 == key ==> r[i].1 == Js.ParseIntOrZero(input)
    ensures forall i :: 0 <= i < |rows| && rows[i].0 != key ==> r[i] == rows[i]
  {
    if rows == [] then []
    else [if rows[0].0 == key then (rows[0].0, Js.ParseIntOrZero(input)) else rows[0]]
         + SetCount(rows[1..], key, input)
  }

  /** A count typed as text that is not a number becomes 0. */
  lemma NonNumericCountIsZero(rows: Rows, key: nat, input: string, i: nat)
    requires i < |rows| && rows[i].0 == key && Js.ParseInt(input).None?
    ensures SetCount(rows, key, input)[i] == (key, 0)
  {
  }

  /** `Object.fromEntries(rows.filter(r => r.count > 0).map(r => [r.key, r.count]))`. */
  function PositiveOnly(rows: Rows): (r: Counts)
    ensures forall e :: e in r <==> e in rows && e.1 > 0
    ensures |r| <= |rows|
  {
    if rows == [] then []
    else (if rows[0].1 > 0 then [rows[0]] else []) + PositiveOnly(rows[1..])
  }

  /** Filtering keeps keys ascending, so the object's property order is the rows' order. */
  lemma {:induction false} PositiveOnlyAscending(rows: Rows)
    ensures KeysAscending(rows) ==> KeysAscending(PositiveOnly(rows))
  {
    if rows != [] && KeysAscending(rows) {
      PositiveOnlyAscending(rows[1..]);
      var rest := PositiveOnly(rows[1..]);
      if rows[0].1 > 0 {
        forall j | 0 < j < |[rows[0]] + rest| ensures rows[0].0 < ([rows[0]] + rest)[j].0 {
          assert rest[j - 1] in rows[1..];
        }
      }
    }
  }

  /** The per-type part of `config` built in `handleSubmit`. */
  function BuildConfig(mode: string, useBt: bool, total: int, levels: Rows, units: Rows): (c: GenerationConfig)
    ensures c.useUnitWise <==> mode == "unitWise"
    ensures c.useBtLevels == useBt && c.totalCount == total
    ensures forall e :: e in c.btLevelCounts <==> e in levels && e.1 > 0
    ensures forall e :: e in c.unitCounts <==> e in units && e.1 > 0
    ensures RowsOk(levels, true) && RowsOk(units, false) ==> WellFormed(c)
  {
    var c := GenerationConfig(mode == "unitWise", useBt, total, PositiveOnly(levels), PositiveOnly(units));
    PositiveOnlyAscending(levels);
    PositiveOnlyAscending(units);
    c
  }

  function ClientBtMessage(kind: Kind, total: int, btTotal: int): string {
    "For " + KindName(kind) + " questions: Total questions (" + Js.IntToString(total)
    + ") must match total BT level questions (" + Js.IntToString(btTotal) + ")"
  }

  function ClientUnitMessage(kind: Kind, unitTotal: int, btTotal: int): string {
    "For " + KindName(kind) + " questions: Total unit-wise count (" + Js.IntToString(unitTotal)
    + ") must match total BT level count (" + Js.IntToString(btTotal) + ")"
  }

  /** The component's own `validateConfig(config, type)`. */
  function ClientValidate(config: GenerationConfig, kind: Kind): (r: Outcome)
    ensures !config.useUnitWise && config.useBtLevels ==>
              (r.Fail? <==> Sum(config.btLevelCounts) != config.totalCount)
    ensures config.useUnitWise && config.useBtLevels ==>
              (r.Fail? <==> Sum(config.unitCounts) != Sum(config.btLevelCounts))
    ensures !config.useBtLevels ==> r == Pass
    ensures r.Fail? && !config.useUnitWise ==>
              r.message == ClientBtMessage(kind, config.totalCount, Sum(config.btLevelCounts))
    ensures r.Fail? && config.useUnitWise ==>
              r.message == ClientUnitMessage(kind, Sum(config.unitCounts), Sum(config.btLevelCounts))
  {
    if !config.useUnitWise && config.useBtLevels then
      if Sum(config.btLevelCounts) != config.totalCount then
        Fail(ClientBtMessage(kind, config.totalCount, Sum(config.btLevelCounts)))
      else Pass
    else if config.useUnitWise && config.useBtLevels && Sum(config.unitCounts) != Sum(config.btLevelCounts) then
      Fail(ClientUnitMessage(kind, Sum(config.unitCounts), Sum(config.btLevelCounts)))
    else Pass
  }

  /** Client and server accept and refuse the same configurations; only the wording differs. */
  lemma ClientAgreesWithServer(config: GenerationConfig, kind: Kind)
    ensures ClientValidate(config, kind).Fail? <==> ValidateConfig(config, kind).Fail?
  {
  }

  // ---- The subject list -------------------------------------------------------------------

  /** A JSON field that may hold one value or an array of them. */
  datatype Values<T> = One(value: T) | Many(values: seq<T>)

  /** An element of the component's `subjects` state, as the catalogue endpoint sends it. */
  datatype ListedSubject = ListedSubject(
    subjectCode: string,
    subject: string,
    branch: string,
    regulation: string,
    year: Values<string>,
    semester: Values<int>)

  /** The `filters` state. */
  datatype FormFilters = FormFilters(
    subject: string,
    branch: string,
    regulation: string,
    year: string,
    semester: string,
    unit: string)

  /** The `name` of a filter `<select>`. */
  datatype FilterField = SubjectField | BranchField | RegulationField | YearField | SemesterField | UnitField

  /** `{ ...prev, [name]: value }`: the named filter takes the value, the others are kept. */
  function SetFilter(f: FormFilters, field: FilterField, value: string): (r: FormFilters)
    ensures r.subject == (if field == SubjectField then value else f.subject)
    ensures r.branch == (if field == BranchField then value else f.branch)
    ensures r.regulation == (if field == RegulationField then value else f.regulation)
    ensures r.year == (if field == YearField then value else f.year)
    ensures r.semester == (if field == SemesterField then value else f.semester)
    ensures r.unit == (if field == UnitField then value else f.unit)
  {
    match field
    case SubjectField => f.(subject := value)
    case BranchField => f.(branch := value)
    case RegulationField => f.(regulation := value)
    case YearField => f.(year := value)
    case SemesterField => f.(semester := value)
    case UnitField => f.(unit := value)
  }

  /** `Array.isArray(v) ? v.includes(x) : v === x`. */
  predicate Holds<T(==)>(v: Values<T>, x: T) {
    match v
    case One(y) => y == x
    case Many(ys) => x in ys
  }

  /** The predicate of the subject drop-down: an empty filter matches everything. */
  predicate Listed(s: ListedSubject, f: FormFilters) {
    && (f.branch == "" || s.branch == f.branch)
    && (f.regulation == "" || s.regulation == f.regulation)
    && (f.year == "" || Holds(s.year, f.year))
    && (f.semester == "" || match Js.ToNumber(f.semester)
                            case None => false
                            case Some(n) => Holds(s.semester, n))
  }

  /** `subjects.filter(...)`. */
  function SubjectOptions(subjects: seq<ListedSubject>, f: FormFilters): (r: seq<ListedSubject>)
    ensures forall s :: s in r <==> s in subjects && Listed(s, f)
    ensures |r| <= |subjects|
  {
    if subjects == [] then []
    else (if Listed(subjects[0], f) then [subjects[0]] else []) + SubjectOptions(subjects[1..], f)
  }

  /** A catalogue entry as the form receives it: years and semesters are arrays. */
  function FromCatalogue(e: SubjectCatalog.Subject): ListedSubject {
    ListedSubject(e.subjectCode, e.subject, e.branch, e.regulation, Many(e.years), Many(e.semesters))
  }

  /**
   * For a catalogue entry the filter means: same branch and regulation, the year among its
   * years, and the semester text read as a number among its semesters.
   */
  lemma CatalogueEntryListed(e: SubjectCatalog.Subject, f: FormFilters)
    ensures Listed(FromCatalogue(e), f) <==>
              && (f.branch == "" || e.branch == f.branch)
              && (f.regulation == "" || e.regulation == f.regulation)
              && (f.year == "" || f.year in e.years)
              && (f.semester == "" || (Js.ToNumber(f.semester).Some? && Js.ToNumber(f.semester).value in e.semesters))
  {
  }

  /** With no filter set, every subject is offered. */
  lemma NoFilterListsAll(subjects: seq<ListedSubject>, f: FormFilters)
    requires f.branch == "" && f.regulation == "" && f.year == "" && f.semester == ""
    ensures SubjectOptions(subjects, f) == subjects
  {
    if subjects != [] {
      NoFilterListsAll(subjects[1..], f);
    }
  }

  // ---- getUniqueValues for a numeric field -------------------------------------------------

  /** `Array.isArray(v) ? v : [v]`. */
  function AsList(v: Values<int>): (r: seq<int>)
    ensures forall x :: x in r <==> Holds(v, x)
  {
    match v
    case One(x) => [x]
    case Many(xs) => xs
  }

  /** `subjects.flatMap(s => Array.isArray(s.semester) ? s.semester : [s.semester])`. */
  function Semesters(subjects: seq<ListedSubject>): (r: seq<int>)
    ensures forall n :: n in r <==> exists s :: s in subjects && Holds(s.semester, n)
  {
    if subjects == [] then []
    else
      assert forall s :: s in subjects <==> s == subjects[0] || s in subjects[1..];
      AsList(subjects[0].semester) + Semesters(subjects[1..])
  }

  predicate StrictlyAscending(s: seq<int>) {
    forall i, j :: 0 <= i < j < |s| ==> s[i] < s[j]
  }

  /** Puts `x` into a strictly ascending list, unless it is already there. */
  function InsertUnique(x: int, s: seq<int>): (r: seq<int>)
    requires StrictlyAscending(s)
    ensures StrictlyAscending(r)
    ensures forall y :: y in r <==> y == x || y in s
  {
    if s == [] then [x]
    else if x == s[0] then s
    else if x < s[0] then [x] + s
    else
      var rest := InsertUnique(x, s[1..]);
      assert forall y :: y in rest ==> s[0] < y;
      var r := [s[0]] + rest;
      assert forall i :: 0 < i < |r| ==> r[i] == rest[i - 1] && rest[i - 1] in rest;
      r
  }

  /** `[...new Set(values)].sort((a, b) => Number(a) - Number(b))`. */
  function UniqueSorted(xs: seq<int>): (r: seq<int>)
    ensures StrictlyAscending(r)
    ensures forall y :: y in r <==> y in xs
  {
    if xs == [] then []
    else
      var rest := UniqueSorted(xs[..|xs| - 1]);
      assert forall y :: y in xs <==> y in xs[..|xs| - 1] || y == xs[|xs| - 1];
      InsertUnique(xs[|xs| - 1], rest)
  }

  /** `getUniqueValues("semester")`. */
  function UniqueSemesters(subjects: seq<ListedSubject>): (r: seq<int>)
    ensures StrictlyAscending(r)
    ensures forall n :: n in r <==> exists s :: s in subjects && Holds(s.semester, n)
  {
    UniqueSorted(Semesters(subjects))
  }

  /** The head of a strictly ascending list is its least element. */
  lemma FirstIsLeast(s: seq<int>, x: int)
    requires StrictlyAscending(s) && x in s
    ensures s[0] <= x
  {
  }

  /** Two strictly ascending lists with the same elements are the same list. */
  lemma {:induction false} AscendingUnique(a: seq<int>, b: seq<int>)
    requires StrictlyAscending(a) && StrictlyAscending(b)
    requires forall x :: x in a <==> x in b
    ensures a == b
  {
    if a != [] {
      assert a[0] in a;
    }
    if b != [] {
      assert b[0] in b;
    }
    if a != [] && b != [] {
      FirstIsLeast(a, b[0]);
      FirstIsLeast(b, a[0]);
      forall x ensures x in a[1..] <==> x in b[1..] {
        if x in a[1..] {
          var i :| 1 <= i < |a| && a[i] == x;
          assert a[0] < x && x in b;
          var j :| 0 <= j < |b| && b[j] == x;
          assert j != 0 && b[1..][j - 1] == x;
        }
        if x in b[1..] {
          var i :| 1 <= i < |b| && b[i] == x;
          assert b[0] < x && x in a;
          var j :| 0 <= j < |a| && a[j] == x;
          assert j != 0 && a[1..][j - 1] == x;
        }
      }
      AscendingUnique(a[1..], b[1..]);
      assert a == [a[0]] + a[1..] && b == [b[0]] + b[1..];
    }
  }

  /** The order of the subjects does not change the semester list. */
  lemma UniqueSemestersOrderFree(subjects: seq<ListedSubject>, other: seq<ListedSubject>)
    requires forall s :: s in subjects <==> s in other
    ensures UniqueSemesters(subjects) == UniqueSemesters(other)
  {
    AscendingUnique(UniqueSemesters(subjects), UniqueSemesters(other));
  }

  // ---- The component ----------------------------------------------------------------------

  const LoginRequired := "Please log in to generate a paper"
  const VerifyRequired := "Please verify your account before generating a paper"
  const FileRequired := "Please select a question bank file"

  class GeneratePaperForm {
    var filters: FormFilters
    var generationMode: PerKind<string>
    var useBtLevels: PerKind<bool>
    var totalCounts: PerKind<int>
    var btLevels: PerKind<Rows>
    var unitCounts: PerKind<Rows>
    var selectedFile: string
    var error: Option<string>
    var loading: bool

    ghost predicate Valid()
      reads this
    {
      && RowsOk(btLevels.short, true) && RowsOk(btLevels.long, true)
      && RowsOk(unitCounts.short, false) && RowsOk(unitCounts.long, false)
    }

    /** The initial state: total mode, no BT levels, levels 1-4 and units 1-5 at count 0. */
    constructor ()
      ensures Valid()
      ensures filters == FormFilters("", "", "", "", "", "") && selectedFile == ""
      ensures generationMode == PerKind("total", "total") && useBtLevels == PerKind(false, false)
      ensures totalCounts == PerKind(0, 0)
      ensures btLevels.short == btLevels.long == [(1, 0), (2, 0), (3, 0), (4, 0)]
      ensures unitCounts.short == unitCounts.long == [(1, 0), (2, 0), (3, 0), (4, 0), (5, 0)]
      ensures error.None? && !loading
    {
      filters := FormFilters("", "", "", "", "", "");
      generationMode := PerKind("total", "total");
      useBtLevels := PerKind(false, false);
      totalCounts := PerKind(0, 0);
      var levels: Rows := [(1, 0), (2, 0), (3, 0), (4, 0)];
      var units: Rows := [(1, 0), (2, 0), (3, 0), (4, 0), (5, 0)];
      btLevels := PerKind(levels, levels);
      unitCounts := PerKind(units, units);
      selectedFile := "";
      error := None;
      loading := false;
    }

    /** `handleFilterChange(e)` for the `<select>` named `field`. */
    method HandleFilterChange(field: FilterField, value: string)
      modifies this
      ensures filters == SetFilter(old(filters), field, value)
      ensures generationMode == old(generationMode) && useBtLevels == old(useBtLevels) && totalCounts == old(totalCounts)
      ensures btLevels == old(btLevels) && unitCounts == old(unitCounts)
      ensures selectedFile == old(selectedFile) && error == old(error) && loading == old(loading)
    {
      filters := SetFilter(filters, field, value);
    }

    /** The question-bank `<select>`: `setSelectedFile(e.target.value)`. */
    method HandleFileSelect(fileId: string)
      modifies this
      ensures selectedFile == fileId
      ensures filters == old(filters) && generationMode == old(generationMode) && useBtLevels == old(useBtLevels)
      ensures totalCounts == old(totalCounts) && btLevels == old(btLevels) && unitCounts == old(unitCounts)
      ensures error == old(error) && loading == old(loading)
    {
      selectedFile := fileId;
    }

    /** `handleModeChange(type, mode)`. */
    method HandleModeChange(kind: Kind, mode: string)
      modifies this
      ensures generationMode == old(generationMode).Set(kind, mode)
      ensures filters == old(filters) && useBtLevels == old(useBtLevels) && totalCounts == old(totalCounts)
      ensures btLevels == old(btLevels) && unitCounts == old(unitCounts)
      ensures selectedFile == old(selectedFile) && error == old(error) && loading == old(loading)
    {
      generationMode := generationMode.Set(kind, mode);
    }

    /** `handleBtLevelToggle(type)`. */
    method HandleBtLevelToggle(kind: Kind)
      modifies this
      ensures useBtLevels == Toggle(old(useBtLevels), kind)
      ensures filters == old(filters) && generationMode == old(generationMode) && totalCounts == old(totalCounts)
      ensures btLevels == old(btLevels) && unitCounts == old(unitCounts)
      ensures selectedFile == old(selectedFile) && error == old(error) && loading == old(loading)
    {
      useBtLevels := Toggle(useBtLevels, kind);
    }

    /** `handleTotalCountChange(type, count)`. */
    method HandleTotalCountChange(kind: Kind, input: string)
      modifies this
      ensures totalCounts == old(totalCounts).Set(kind, Js.ParseIntOrZero(input))
      ensures filters == old(filters) && generationMode == old(generationMode) && useBtLevels == old(useBtLevels)
      ensures btLevels == old(btLevels) && unitCounts == old(unitCounts)
      ensures selectedFile == old(selectedFile) && error == old(error) && loading == old(loading)
    {
      var count := Js.ParseIntOrZero(input);
      totalCounts := totalCounts.Set(kind, count);
    }

    /** `handleBTLevelChange(type, level, count)`. */
    method HandleBTLevelChange(kind: Kind, level: nat, input: string)
      modifies this
      requires Valid()
      ensures Valid()
      ensures btLevels == old(btLevels).Set(kind, SetCount(old(btLevels).Get(kind), level, input))
      ensures filters == old(filters) && generationMode == old(generationMode) && useBtLevels == old(useBtLevels)
      ensures totalCounts == old(totalCounts) && unitCounts == old(unitCounts)
      ensures selectedFile == old(selectedFile) && error == old(error) && loading == old(loading)
    {
      btLevels := btLevels.Set(kind, SetCount(btLevels.Get(kind), level, input));
      assert btLevels.short == old(btLevels).short || btLevels.short == SetCount(old(btLevels).short, level, input);
      assert btLevels.long == old(btLevels).long || btLevels.long == SetCount(old(btLevels).long, level, input);
    }

    /** `handleUnitCountChange(type, unit, count)`. */
    method HandleUnitCountChange(kind: Kind, unit: nat, input: string)
      modifies this
      requires Valid()
      ensures Valid()
      ensures unitCounts == old(unitCounts).Set(kind, SetCount(old(unitCounts).Get(kind), unit, input))
      ensures filters == old(filters) && generationMode == old(generationMode) && useBtLevels == old(useBtLevels)
      ensures totalCounts == old(totalCounts) && btLevels == old(btLevels)
      ensures selectedFile == old(selectedFile) && error == old(error) && loading == old(loading)
    {
      unitCounts := unitCounts.Set(kind, SetCount(unitCounts.Get(kind), unit, input));
      assert unitCounts.short == old(unitCounts).short || unitCounts.short == SetCount(old(unitCounts).short, unit, input);
      assert unitCounts.long == old(unitCounts).long || unitCounts.long == SetCount(old(unitCounts).long, unit, input);
    }

    /** The configuration `handleSubmit` builds for one type from the current state. */
    function Config(kind: Kind): (c: GenerationConfig)
      reads this
      ensures Valid() ==> WellFormed(c)
    {
      BuildConfig(generationMode.Get(kind), useBtLevels.Get(kind), totalCounts.Get(kind),
                  btLevels.Get(kind), unitCounts.Get(kind))
    }

    /**
     * `handleSubmit`. `isLoggedin` and `verified` come from the app context (`verified` is
     * `None` when there is no `userData`). `sent` is the request passed to `generatePaper`;
     * the handling of its response is not modelled, so `loading` stays set once it is sent.
     */
    method HandleSubmit(isLoggedin: bool, verified: Option<bool>) returns (sent: Option<PaperAssembler.PaperRequest>)
      modifies this
      requires Valid()
      ensures Valid()
      ensures filters == old(filters) && generationMode == old(generationMode) && useBtLevels == old(useBtLevels)
      ensures totalCounts == old(totalCounts) && btLevels == old(btLevels) && unitCounts == old(unitCounts)
      ensures selectedFile == old(selectedFile)
      ensures !isLoggedin || verified.None? ==>
                sent.None? && error == Some(LoginRequired) && loading == old(loading)
      ensures isLoggedin && verified == Some(false) ==>
                sent.None? && error == Some(VerifyRequired) && loading == old(loading)
      ensures isLoggedin && verified == Some(true) ==>
                && (selectedFile == "" ==> sent.None? && error == Some(FileRequired) && !loading)
                && (selectedFile != "" ==>
                      var short, long := ClientValidate(Config(Short), Short), ClientValidate(Config(Long), Long);
                      && (short.Fail? ==> sent.None? && error == Some(short.message) && !loading)
                      && (short.Pass? && long.Fail? ==> sent.None? && error == Some(long.message) && !loading)
                      && (short.Pass? && long.Pass? ==>
                            sent == Some(PaperAssembler.PaperRequest(selectedFile, filters.subject, filters.branch,
                                           filters.regulation, filters.year, filters.semester, filters.unit,
                                           PaperAssembler.PaperConfig(Config(Short), Config(Long))))
                            && error.None? && loading))
      ensures sent.Some? ==>
                && WellFormed(sent.value.config.short) && WellFormed(sent.value.config.long)
                && ValidateConfig(sent.value.config.short, Short).Pass?
                && ValidateConfig(sent.value.config.long, Long).Pass?
    {
      sent := None;
      if !isLoggedin || verified.None? {
        error := Some(LoginRequired);
        return;
      }
      if !verified.value {
        error := Some(VerifyRequired);
        return;
      }
      loading := true;
      error := None;
      if selectedFile == "" {
        error := Some(FileRequired);
        loading := false;
        return;
      }
      var short, long := Config(Short), Config(Long);
      var shortCheck := ClientValidate(short, Short);
      if shortCheck.Fail? {
        error := Some(shortCheck.message);
        loading := false;
        return;
      }
      var longCheck := ClientValidate(long, Long);
      if longCheck.Fail? {
        error := Some(longCheck.message);
        loading := false;
        return;
      }
      ClientAgreesWithServer(short, Short);
      ClientAgreesWithServer(long, Long);
      sent := Some(PaperAssembler.PaperRequest(selectedFile, filters.subject, filters.branch, filters.regulation,
                                               filters.year, filters.semester, filters.unit,
                                               PaperAssembler.PaperConfig(short, long)));
    }
  }
}
