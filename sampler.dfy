/**
 * Question selection: `getQuestions` and `getRandomQuestionsWithConstraints` in
 * backend/controlllers/generateController.js. The question store is a sequence; MongoDB's
 * `$match` is a filter over it and `$sample` is a nondeterministic draw without repetition.
 */
module Sampler {
  import opened Wrappers
  import opened Models
  import opened ConfigValidation
  import Js

  /** A JavaScript number held in a filter object: `None` is NaN. */
  type JsNumber = Option<int>

  /**
   * The `filters` object generatePaper passes down. `unit` is absent unless the request's
   * unit was truthy. `fileQuestions` is the `_id: { $in: file.questions }` restriction.
   */
  datatype Filters = Filters(
    fileQuestions: seq<QuestionId>,
    subjectCode: string,
    branch: string,
    regulation: string,
    year: string,
    semester: JsNumber,
    uploadedBy: UserId,
    unit: Option<JsNumber>)

  /** The `matchQuery` of getQuestions: equality on each present field, non-empty text. */
  datatype MatchQuery = MatchQuery(
    subjectCode: string,
    branch: string,
    regulation: string,
    year: string,
    semester: JsNumber,
    textField: Kind,
    uploadedBy: UserId,
    unit: Option<int>,
    btLevel: Option<int>)

  /** `shortQuestion` or `longQuestion`, according to the type. */
  function QuestionText(q: Question, kind: Kind): string {
    match kind
    case Short => q.shortQuestion
    case Long => q.longQuestion
  }

  /** Whether a question satisfies a match query (NaN equals no stored number). */
  predicate Matches(q: Question, query: MatchQuery) {
    && q.subjectCode == query.subjectCode
    && q.branch == query.branch
    && q.regulation == query.regulation
    && q.year == query.year
    && query.semester == Some(q.semester)
    && QuestionText(q, query.textField) != ""
    && q.uploadedBy == query.uploadedBy
    && (query.unit.Some? ==> q.unit == query.unit.value)
    && (query.btLevel.Some? ==> q.btLevel == query.btLevel.value)
  }

  /** The named-field part every query of getQuestions imposes, whatever unit and level. */
  predicate MatchesBase(q: Question, filters: Filters, kind: Kind, userId: UserId) {
    && q.subjectCode == filters.subjectCode
    && q.branch == filters.branch
    && q.regulation == filters.regulation
    && q.year == filters.year
    && filters.semester == Some(q.semester)
    && QuestionText(q, kind) != ""
    && q.uploadedBy == userId
  }

  /** `if (filters.unit)`: the unit filter is present, not NaN and not zero. */
  predicate UnitTruthy(filters: Filters) {
    filters.unit.Some? && filters.unit.value.Some? && filters.unit.value.value != 0
  }

  /** `if (btLevel)`: a level is given and is not zero. */
  predicate LevelTruthy(btLevel: Option<nat>) {
    btLevel.Some? && btLevel.value != 0
  }

  /**
   * The query getQuestions runs. It is rebuilt from the named fields only, so the
   * `_id`-in-file restriction of `filters` is not part of it.
   */
  function QueryFor(filters: Filters, btLevel: Option<nat>, kind: Kind, userId: UserId): MatchQuery {
    MatchQuery(
      filters.subjectCode, filters.branch, filters.regulation, filters.year, filters.semester,
      kind, userId,
      if UnitTruthy(filters) then Some(filters.unit.value.value) else None,
      if LevelTruthy(btLevel) then Some(btLevel.value) else None)
  }

  lemma QueryForMeaning(q: Question, filters: Filters, btLevel: Option<nat>, kind: Kind, userId: UserId)
    ensures Matches(q, QueryFor(filters, btLevel, kind, userId)) <==>
              && MatchesBase(q, filters, kind, userId)
              && (UnitTruthy(filters) ==> q.unit == filters.unit.value.value)
              && (LevelTruthy(btLevel) ==> q.btLevel == btLevel.value)
  {
  }

  predicate Distinct(rows: seq<Question>) {
    forall i, j :: 0 <= i < j < |rows| ==> rows[i] != rows[j]
  }

  /** What a `$sample` of size `size` after `$match: query` may return. */
  ghost predicate IsSample(rows: seq<Question>, store: seq<Question>, query: MatchQuery, size: int) {
    && |rows| <= size
    && Distinct(rows)
    && forall x :: x in rows ==> x in store && Matches(x, query)
  }

  /** `$match`: the matching questions in store order. */
  function Matching(store: seq<Question>, query: MatchQuery): (r: seq<Question>)
    ensures forall x :: x in r <==> x in store && Matches(x, query)
  {
    if store == [] then []
    else (if Matches(store[0], query) then [store[0]] else []) + Matching(store[1..], query)
  }

  /** `$sample`: draws matching questions at random, never the same one twice. */
  method Sample(store: seq<Question>, query: MatchQuery, size: nat) returns (rows: seq<Question>)
    ensures IsSample(rows, store, query, size)
  {
    var remaining := Matching(store, query);
    rows := [];
    while |rows| < size && remaining != []
      invariant |rows| <= size
      invariant Distinct(rows)
      invariant forall x :: x in rows ==> x in store && Matches(x, query)
      invariant forall x :: x in remaining ==> x in store && Matches(x, query)
      decreases |remaining|
    {
      var i :| 0 <= i < |remaining|;
      var pick := remaining[i];
      if pick !in rows {
        rows := rows + [pick];
      }
      assert forall x :: x in remaining[..i] + remaining[i + 1..] ==> x in remaining;
      remaining := remaining[..i] + remaining[i + 1..];
    }
  }

  /** `count || 100`: the sample size asked of the store. */
  function SampleSize(count: int): int {
    if count == 0 then 100 else count
  }

  /** `rows.slice(0, n)` for `n >= 0`. */
  function Take(rows: seq<Question>, n: int): (r: seq<Question>)
    requires n >= 0
    ensures |r| == (if |rows| <= n then |rows| else n) && r == rows[..|r|]
  {
    if |rows| <= n then rows else rows[..n]
  }

  /**
   * `getQuestions(filters, btLevel, type, count, userId)`. `None` is the store's refusal of a
   * negative sample size (which only a negative `count` produces).
   */
  method GetQuestions(store: seq<Question>, filters: Filters, btLevel: Option<nat>, kind: Kind,
                      count: int, userId: UserId)
    returns (r: Option<seq<Question>>)
    ensures r.None? <==> count < 0
    ensures r.Some? ==> IsSample(r.value, store, QueryFor(filters, btLevel, kind, userId), SampleSize(count))
    ensures r.Some? && count > 0 ==> |r.value| <= count
  {
    var size := SampleSize(count);
    if size < 0 {
      return None;
    }
    var rows := Sample(store, QueryFor(filters, btLevel, kind, userId), size);
    return Some(rows);
  }

  // ---------------------------------------------------------------------------------------
  // The order of the available BT levels: JavaScript's default `sort()` compares the
  // decimal strings of the numbers.

  /** Lexicographic order on strings by character code. */
  predicate StringLe(a: string, b: string) {
    a == [] || (b != [] && (a[0] < b[0] || (a[0] == b[0] && StringLe(a[1..], b[1..]))))
  }

  lemma {:induction false} StringLeTotal(a: string, b: string)
    ensures StringLe(a, b) || StringLe(b, a)
  {
    if a != [] && b != [] && a[0] == b[0] {
      StringLeTotal(a[1..], b[1..]);
    }
  }

  /** The order `sort()` puts numbers in: by their decimal strings. */
  predicate DecimalLe(a: nat, b: nat) {
    StringLe(Js.NatToString(a), Js.NatToString(b))
  }

  predicate SortedByDecimal(s: seq<nat>) {
    forall i :: 0 <= i < |s| - 1 ==> DecimalLe(s[i], s[i + 1])
  }

  predicate DistinctNats(s: seq<nat>) {
    forall i, j :: 0 <= i < j < |s| ==> s[i] != s[j]
  }

  function InsertByDecimal(x: nat, s: seq<nat>): (r: seq<nat>)
    ensures |r| == |s| + 1
    ensures forall y :: y in r <==> y == x || y in s
    ensures r != [] && (r[0] == x || (s != [] && r[0] == s[0]))
    ensures SortedByDecimal(s) ==> SortedByDecimal(r)
    ensures DistinctNats(s) && x !in s ==> DistinctNats(r)
  {
    if s == [] || DecimalLe(x, s[0]) then [x] + s
    else
      StringLeTotal(Js.NatToString(x), Js.NatToString(s[0]));
      var rest := InsertByDecimal(x, s[1..]);
      assert DistinctNats(s) && x !in s ==> s[0] !in rest;
      [s[0]] + rest
  }

  /** `keys.sort()`: an insertion sort by decimal string; the result is a permutation. */
  function SortByDecimal(s: seq<nat>): (r: seq<nat>)
    ensures |r| == |s|
    ensures forall y :: y in r <==> y in s
    ensures SortedByDecimal(r)
    ensures DistinctNats(s) ==> DistinctNats(r)
  {
    if s == [] then []
    else
      assert DistinctNats(s) ==> s[0] !in s[1..];
      InsertByDecimal(s[0], SortByDecimal(s[1..]))
  }

  function Keys(counts: Counts): (r: seq<nat>)
    ensures |r| == |counts| && forall i :: 0 <= i < |r| ==> r[i] == counts[i].0
  {
    if counts == [] then [] else Keys(counts[..|counts| - 1]) + [counts[|counts| - 1].0]
  }

  /** `availableBtLevels`: every key of `btLevelCounts`, whatever its count, in `sort()` order. */
  function AvailableLevels(config: GenerationConfig): (r: seq<nat>)
    requires WellFormed(config)
    ensures DistinctNats(r)
    ensures forall l :: l in r <==> exists i :: 0 <= i < |config.btLevelCounts| && config.btLevelCounts[i].0 == l
    ensures forall l :: l in r ==> l >= 1
  {
    var keys := Keys(config.btLevelCounts);
    assert forall l :: l in keys <==> exists i :: 0 <= i < |keys| && keys[i] == l;
    SortByDecimal(keys)
  }

  /** For single-digit levels the string order is the numeric order. */
  lemma {:induction false} SingleDigitSortIsNumeric(s: seq<nat>)
    requires forall i :: 0 <= i < |s| ==> 1 <= s[i] <= 9
    requires forall i, j :: 0 <= i < j < |s| ==> s[i] < s[j]
    ensures SortByDecimal(s) == s
  {
    if s != [] {
      SingleDigitSortIsNumeric(s[1..]);
      if |s| > 1 {
        assert Js.NatToString(s[0]) == [Js.DigitChar(s[0])];
        assert Js.NatToString(s[1]) == [Js.DigitChar(s[1])];
        assert DecimalLe(s[0], s[1]);
      }
    }
  }

  /** With levels 2 and 10 the string order puts 10 first. */
  lemma TenSortsBeforeTwo()
    ensures SortByDecimal([2, 10]) == [10, 2]
  {
    assert Js.NatToString(10) == "10";
    assert Js.NatToString(2) == "2";
    assert !DecimalLe(2, 10);
    assert SortByDecimal([10]) == [10];
  }

  // ---------------------------------------------------------------------------------------
  // Greedy assignment of BT levels to units.

  /** The first level of the list that is not in `used`. */
  function FirstUnused(levels: seq<nat>, used: set<nat>): (r: Option<nat>)
    ensures r.Some? ==> r.value in levels && r.value !in used
    ensures r.None? ==> forall l :: l in levels ==> l in used
  {
    if levels == [] then None
    else if levels[0] !in used then Some(levels[0])
    else FirstUnused(levels[1..], used)
  }

  /**
   * The greedy policy as the source states it, for `n` units in turn: the assignments so far
   * and the set of used levels. A unit takes the first unused level and marks it; when all are
   * used it takes the first level without marking anything (undefined when there is none).
   */
  function Greedy(levels: seq<nat>, n: nat): (r: (seq<Option<nat>>, set<nat>))
    ensures |r.0| == n
  {
    if n == 0 then ([], {})
    else
      var (picks, used) := Greedy(levels, n - 1);
      match FirstUnused(levels, used)
      case Some(l) => (picks + [Some(l)], used + {l})
      case None => (picks + [if levels == [] then None else Some(levels[0])], used)
  }

  /** The level the `k`-th unit (from 0) receives: in closed form. */
  function AssignedLevel(levels: seq<nat>, k: nat): Option<nat> {
    if k < |levels| then Some(levels[k])
    else if levels != [] then Some(levels[0])
    else None
  }

  function Min(a: nat, b: nat): nat {
    if a <= b then a else b
  }

  function LevelSet(levels: seq<nat>): set<nat> {
    set l | l in levels
  }

  lemma FirstUnusedOfPrefix(levels: seq<nat>, k: nat)
    requires DistinctNats(levels)
    ensures FirstUnused(levels, LevelSet(levels[..Min(k, |levels|)])) ==
              if k < |levels| then Some(levels[k]) else None
  {
    var used := LevelSet(levels[..Min(k, |levels|)]);
    if k < |levels| {
      FirstUnusedAt(levels, used, k);
    }
  }

  lemma {:induction false} FirstUnusedAt(levels: seq<nat>, used: set<nat>, k: nat)
    requires k < |levels| && levels[k] !in used
    requires forall i :: 0 <= i < k ==> levels[i] in used
    ensures FirstUnused(levels, used) == Some(levels[k])
  {
    if k > 0 {
      FirstUnusedAt(levels[1..], used, k - 1);
    }
  }

  /**
   * After `n` units the used set is exactly the first min(n, |levels|) levels, and unit `k`
   * received levels[k], or levels[0] once every level was used.
   */
  lemma {:induction false} GreedyClosedForm(levels: seq<nat>, n: nat)
    requires DistinctNats(levels)
    ensures Greedy(levels, n).1 == LevelSet(levels[..Min(n, |levels|)])
    ensures forall k :: 0 <= k < n ==> Greedy(levels, n).0[k] == AssignedLevel(levels, k)
  {
    if n > 0 {
      GreedyClosedForm(levels, n - 1);
      var (before, used) := Greedy(levels, n - 1);
      FirstUnusedOfPrefix(levels, n - 1);
      var next := if n - 1 < |levels| then Some(levels[n - 1]) else AssignedLevel(levels, n - 1);
      if n - 1 < |levels| {
        UsedGrows(levels, n - 1);
        assert Greedy(levels, n) == (before + [next], used + {levels[n - 1]});
      } else {
        assert Greedy(levels, n) == (before + [next], used);
      }
      assert next == AssignedLevel(levels, n - 1);
      forall k | 0 <= k < n ensures Greedy(levels, n).0[k] == AssignedLevel(levels, k) {
        if k < n - 1 {
          assert Greedy(levels, n).0[k] == before[k];
        }
      }
    }
  }

  lemma UsedGrows(levels: seq<nat>, i: nat)
    requires i < |levels|
    ensures LevelSet(levels[..Min(i + 1, |levels|)]) == LevelSet(levels[..Min(i, |levels|)]) + {levels[i]}
  {
    assert levels[..i + 1] == levels[..i] + [levels[i]];
  }

  // ---------------------------------------------------------------------------------------
  // Unit-wise mode.

  /** The levels other than the assigned one, in list order (`fallbackLevel !== assignedBtLevel`). */
  function OtherLevels(levels: seq<nat>, choice: Option<nat>): (r: seq<nat>)
    ensures |r| <= |levels|
  {
    if levels == [] then []
    else
      var last := levels[|levels| - 1];
      OtherLevels(levels[..|levels| - 1], choice) + (if Some(last) != choice then [last] else [])
  }

  lemma {:induction false} OtherLevelsPrefix(levels: seq<nat>, k: nat, choice: Option<nat>)
    requires k <= |levels|
    ensures var p := OtherLevels(levels[..k], choice);
            |p| <= |OtherLevels(levels, choice)| && p == OtherLevels(levels, choice)[..|p|]
  {
    if k < |levels| {
      OtherLevelsPrefix(levels[..|levels| - 1], k, choice);
      assert levels[..|levels| - 1][..k] == levels[..k];
    } else {
      assert levels[..k] == levels;
    }
  }

  lemma OtherLevelsStep(levels: seq<nat>, j: nat, choice: Option<nat>)
    requires j < |levels|
    ensures OtherLevels(levels[..j + 1], choice) ==
              OtherLevels(levels[..j], choice) + (if Some(levels[j]) != choice then [levels[j]] else [])
  {
    assert levels[..j + 1][..j] == levels[..j];
  }

  /** `{ ...filters, unit: parseInt(unit) }`: the unit replaces any outer unit filter. */
  function UnitFilters(filters: Filters, unit: nat): Filters {
    filters.(unit := Some(Some(unit)))
  }

  /**
   * The draws made for one unit: first the assigned level; only if that came back empty, the
   * other levels in list order until one is non-empty. Every draw asks for `count` questions.
   */
  ghost predicate FallbackTrace(store: seq<Question>, filters: Filters, choice: Option<nat>,
                                levels: seq<nat>, kind: Kind, count: int, userId: UserId,
                                tried: seq<Option<nat>>, drawn: seq<seq<Question>>)
  {
    var others := OtherLevels(levels, choice);
    && 1 <= |tried| == |drawn| <= 1 + |others|
    && tried[0] == choice
    && (forall j :: 1 <= j < |tried| ==> tried[j] == Some(others[j - 1]))
    && (forall j :: 0 <= j < |drawn| ==> IsSample(drawn[j], store, QueryFor(filters, tried[j], kind, userId), count))
    && (forall j :: 0 <= j < |drawn| - 1 ==> drawn[j] == [])
    && (drawn[|drawn| - 1] == [] ==> |tried| == 1 + |others|)
  }

  /** One unit's draws: its assigned level, then the fallback scan. */
  method DrawUnit(store: seq<Question>, filters: Filters, choice: Option<nat>, levels: seq<nat>,
                  kind: Kind, count: int, userId: UserId)
    returns (taken: seq<Question>, ghost tried: seq<Option<nat>>, ghost drawn: seq<seq<Question>>)
    requires count > 0
    ensures FallbackTrace(store, filters, choice, levels, kind, count, userId, tried, drawn)
    ensures taken == Take(drawn[|drawn| - 1], count)
  {
    var first := GetQuestions(store, filters, choice, kind, count, userId);
    var primary := first.value;
    if |primary| > 0 {
      taken := Take(primary, count);
      tried, drawn := [choice], [primary];
      FallbackTraceIntro(store, filters, choice, levels, kind, count, userId, drawn, []);
      return;
    }
    ghost var others;
    taken, drawn, others := ScanFallback(store, filters, choice, levels, kind, count, userId);
    tried := [choice] + SomeOf(others);
    FallbackTraceIntro(store, filters, choice, levels, kind, count, userId, drawn, others);
  }

  /** Each element wrapped in `Some`. */
  function SomeOf(s: seq<nat>): (r: seq<Option<nat>>)
    ensures |r| == |s| && forall k :: 0 <= k < |s| ==> r[k] == Some(s[k])
  {
    if s == [] then [] else [Some(s[0])] + SomeOf(s[1..])
  }

  /** The state of the fallback loop after looking at the first `j` levels. */
  ghost predicate ScanState(store: seq<Question>, filters: Filters, choice: Option<nat>, levels: seq<nat>,
                            kind: Kind, count: int, userId: UserId, j: nat, taken: seq<Question>,
                            drawn: seq<seq<Question>>, others: seq<nat>)
  {
    && 0 < count
    && j <= |levels|
    && others == OtherLevels(levels[..j], choice)
    && |drawn| == 1 + |others|
    && (forall k :: 0 <= k < |drawn| - 1 ==> drawn[k] == [])
    && taken == Take(drawn[|drawn| - 1], count)
    && IsSample(drawn[|drawn| - 1], store,
                QueryFor(filters, if others == [] then choice else Some(others[|others| - 1]), kind, userId), count)
  }

  /**
   * The fallback loop: the other levels in list order, stopping at the first non-empty draw.
   * `others` are the levels tried; `drawn` starts with the (empty) draw of the assigned level.
   */
  method ScanFallback(store: seq<Question>, filters: Filters, choice: Option<nat>, levels: seq<nat>,
                      kind: Kind, count: int, userId: UserId)
    returns (taken: seq<Question>, ghost drawn: seq<seq<Question>>, ghost others: seq<nat>)
    requires count > 0
    ensures |others| <= |OtherLevels(levels, choice)| && others == OtherLevels(levels, choice)[..|others|]
    ensures |drawn| == 1 + |others|
    ensures forall k :: 0 <= k < |drawn| - 1 ==> drawn[k] == []
    ensures IsSample(drawn[|drawn| - 1], store,
                     QueryFor(filters, if others == [] then choice else Some(others[|others| - 1]), kind, userId), count)
    ensures drawn[|drawn| - 1] == [] ==> others == OtherLevels(levels, choice)
    ensures taken == Take(drawn[|drawn| - 1], count)
  {
    taken, drawn, others := [], [[]], [];
    var j := 0;
    while j < |levels| && taken == []
      invariant ScanState(store, filters, choice, levels, kind, count, userId, j, taken, drawn, others)
      decreases |levels| - j
    {
      taken, drawn, others := FallbackStep(store, filters, choice, levels, kind, count, userId, j, taken, drawn, others);
      j := j + 1;
    }
    ScanFinished(store, filters, choice, levels, kind, count, userId, j, taken, drawn, others);
  }

  /** One iteration: skip the assigned level, otherwise draw from the next one. */
  method FallbackStep(store: seq<Question>, filters: Filters, choice: Option<nat>, levels: seq<nat>,
                      kind: Kind, count: int, userId: UserId, j: nat, taken: seq<Question>,
                      ghost drawn: seq<seq<Question>>, ghost others: seq<nat>)
    returns (taken': seq<Question>, ghost drawn': seq<seq<Question>>, ghost others': seq<nat>)
    requires ScanState(store, filters, choice, levels, kind, count, userId, j, taken, drawn, others)
    requires j < |levels| && taken == []
    ensures ScanState(store, filters, choice, levels, kind, count, userId, j + 1, taken', drawn', others')
  {
    OtherLevelsStep(levels, j, choice);
    if Some(levels[j]) != choice {
      var fallback := GetQuestions(store, filters, Some(levels[j]), kind, count, userId);
      drawn', others' := drawn + [fallback.value], others + [levels[j]];
      taken' := Take(fallback.value, count);
    } else {
      taken', drawn', others' := taken, drawn, others;
    }
  }

  lemma ScanFinished(store: seq<Question>, filters: Filters, choice: Option<nat>, levels: seq<nat>,
                     kind: Kind, count: int, userId: UserId, j: nat, taken: seq<Question>,
                     drawn: seq<seq<Question>>, others: seq<nat>)
    requires ScanState(store, filters, choice, levels, kind, count, userId, j, taken, drawn, others)
    requires j == |levels| || taken != []
    ensures |others| <= |OtherLevels(levels, choice)| && others == OtherLevels(levels, choice)[..|others|]
    ensures drawn[|drawn| - 1] == [] ==> others == OtherLevels(levels, choice)
  {
    OtherLevelsPrefix(levels, j, choice);
    assert levels[..|levels|] == levels;
  }

  /** Assembles a fallback trace from a scan over a prefix `others` of the other levels. */
  lemma FallbackTraceIntro(store: seq<Question>, filters: Filters, choice: Option<nat>,
                           levels: seq<nat>, kind: Kind, count: int, userId: UserId,
                           drawn: seq<seq<Question>>, others: seq<nat>)
    requires |others| <= |OtherLevels(levels, choice)| && others == OtherLevels(levels, choice)[..|others|]
    requires |drawn| == 1 + |others|
    requires count >= 0
    requires forall k :: 0 <= k < |drawn| - 1 ==> drawn[k] == []
    requires IsSample(drawn[|drawn| - 1], store,
                      QueryFor(filters, if others == [] then choice else Some(others[|others| - 1]), kind, userId), count)
    requires drawn[|drawn| - 1] == [] ==> others == OtherLevels(levels, choice)
    ensures FallbackTrace(store, filters, choice, levels, kind, count, userId, [choice] + SomeOf(others), drawn)
  {
  }

  /** One unit's part of a unit-wise selection. */
  datatype UnitDraw = UnitDraw(
    unit: nat,
    count: int,
    choice: Option<nat>,
    tried: seq<Option<nat>>,
    drawn: seq<seq<Question>>,
    taken: seq<Question>)

  /** `Object.entries(counts).filter(([_, count]) => count > 0)`. */
  function PositiveEntries(counts: Counts): (r: Counts)
    ensures |r| <= |counts|
    ensures forall e :: e in r <==> e in counts && e.1 > 0
  {
    if counts == [] then []
    else
      var last := counts[|counts| - 1];
      PositiveEntries(counts[..|counts| - 1]) + (if last.1 > 0 then [last] else [])
  }

  /**
   * The filtered entries keep ascending keys, so sorting them by numeric key, as the source
   * does, leaves them as they are.
   */
  lemma {:induction false} PositiveEntriesAscending(counts: Counts)
    requires KeysAscending(counts)
    ensures KeysAscending(PositiveEntries(counts))
  {
    if counts != [] {
      var init := counts[..|counts| - 1];
      var last := counts[|counts| - 1];
      PositiveEntriesAscending(init);
      forall e | e in PositiveEntries(init) ensures e.0 < last.0 {
        var j :| 0 <= j < |init| && init[j] == e;
      }
    }
  }

  lemma PositiveEntriesStep(counts: Counts, i: nat)
    requires i < |counts|
    ensures PositiveEntries(counts[..i + 1]) ==
              PositiveEntries(counts[..i]) + (if counts[i].1 > 0 then [counts[i]] else [])
  {
    assert counts[..i + 1][..i] == counts[..i];
  }

  lemma SumStep(counts: Counts, i: nat)
    requires i < |counts|
    ensures Sum(counts[..i + 1]) == Sum(counts[..i]) + counts[i].1
  {
    assert counts[..i + 1][..i] == counts[..i];
  }

  function Flatten(blocks: seq<seq<Question>>): seq<Question> {
    if blocks == [] then [] else Flatten(blocks[..|blocks| - 1]) + blocks[|blocks| - 1]
  }

  function TakenOf(draws: seq<UnitDraw>): (r: seq<seq<Question>>)
    ensures |r| == |draws| && forall i :: 0 <= i < |r| ==> r[i] == draws[i].taken
  {
    if draws == [] then [] else TakenOf(draws[..|draws| - 1]) + [draws[|draws| - 1].taken]
  }

  /** The `k`-th unit's draws, for the unit entry `entry`. */
  ghost predicate DrawOk(store: seq<Question>, filters: Filters, levels: seq<nat>, kind: Kind,
                         userId: UserId, entry: (nat, int), k: nat, d: UnitDraw)
  {
    && d.unit == entry.0
    && d.count == entry.1
    && d.choice == AssignedLevel(levels, k)
    && FallbackTrace(store, UnitFilters(filters, d.unit), d.choice, levels, kind, d.count, userId,
                     d.tried, d.drawn)
    && d.taken == Take(d.drawn[|d.drawn| - 1], d.count)
  }

  /** The draws of a unit-wise selection, unit by unit in ascending order. */
  ghost predicate UnitWiseTrace(store: seq<Question>, filters: Filters, config: GenerationConfig,
                                kind: Kind, userId: UserId, draws: seq<UnitDraw>)
    requires WellFormed(config)
  {
    var units := PositiveEntries(config.unitCounts);
    && |draws| == |units|
    && forall i :: 0 <= i < |draws| ==>
         DrawOk(store, filters, AvailableLevels(config), kind, userId, units[i], i, draws[i])
  }

  /** The first level not yet used, by a scan of the list. */
  method FindUnusedLevel(levels: seq<nat>, used: set<nat>) returns (r: Option<nat>)
    ensures r == FirstUnused(levels, used)
  {
    for j := 0 to |levels|
      invariant FirstUnused(levels, used) == FirstUnused(levels[j..], used)
    {
      assert levels[j..][1..] == levels[j + 1..];
      if levels[j] !in used {
        return Some(levels[j]);
      }
    }
    return None;
  }

  /** One iteration of the unit loop: pick the unit's level, mark it used, draw. */
  method DrawForUnit(store: seq<Question>, filters: Filters, levels: seq<nat>, kind: Kind,
                     userId: UserId, entry: (nat, int), k: nat, used: set<nat>)
    returns (taken: seq<Question>, ghost d: UnitDraw, used': set<nat>)
    requires DistinctNats(levels) && entry.1 > 0
    requires used == LevelSet(levels[..Min(k, |levels|)])
    ensures used' == LevelSet(levels[..Min(k + 1, |levels|)])
    ensures DrawOk(store, filters, levels, kind, userId, entry, k, d)
    ensures taken == d.taken && |taken| <= entry.1
    ensures forall x :: x in taken ==>
              x in store && MatchesBase(x, filters, kind, userId) && (entry.0 != 0 ==> x.unit == entry.0)
  {
    var (unit, unitCount) := entry;
    FirstUnusedOfPrefix(levels, k);
    var choice := FindUnusedLevel(levels, used);
    if choice.Some? {
      UsedGrows(levels, k);
      used' := used + {choice.value};
    } else {
      // `if (!assignedBtLevel)`: levels are positive, so only a missing level is falsy.
      choice := if |levels| > 0 then Some(levels[0]) else None;
      used' := used;
    }
    ghost var tried, drawn;
    taken, tried, drawn := DrawUnit(store, UnitFilters(filters, unit), choice, levels, kind, unitCount, userId);
    d := UnitDraw(unit, unitCount, choice, tried, drawn, taken);
    var last := drawn[|drawn| - 1];
    assert IsSample(last, store, QueryFor(UnitFilters(filters, unit), tried[|drawn| - 1], kind, userId), unitCount);
    forall x | x in taken
      ensures x in store && MatchesBase(x, filters, kind, userId) && (unit != 0 ==> x.unit == unit)
    {
      assert x in last;
      QueryForMeaning(x, UnitFilters(filters, unit), tried[|drawn| - 1], kind, userId);
    }
  }

  /** The unit-wise branch of getRandomQuestionsWithConstraints. */
  method UnitWiseSelect(store: seq<Question>, filters: Filters, config: GenerationConfig, kind: Kind,
                        userId: UserId)
    returns (rows: seq<Question>, ghost draws: seq<UnitDraw>)
    requires WellFormed(config)
    ensures UnitWiseTrace(store, filters, config, kind, userId, draws)
    ensures rows == Flatten(TakenOf(draws))
    ensures |rows| <= Sum(PositiveEntries(config.unitCounts))
    ensures forall x :: x in rows ==> x in store && MatchesBase(x, filters, kind, userId)
  {
    var levels := AvailableLevels(config);
    var units := PositiveEntries(config.unitCounts);
    forall k | 0 <= k < |units| ensures units[k].1 > 0 {
      assert units[k] in units;
    }
    rows, draws := UnitLoop(store, filters, levels, units, kind, userId);
    UnitWiseDone(store, filters, config, kind, userId, rows, draws);
  }

  /** The loop over the units with a positive count. */
  method UnitLoop(store: seq<Question>, filters: Filters, levels: seq<nat>, units: Counts, kind: Kind,
                  userId: UserId)
    returns (rows: seq<Question>, ghost draws: seq<UnitDraw>)
    requires DistinctNats(levels)
    requires forall k :: 0 <= k < |units| ==> units[k].1 > 0
    ensures UnitWiseState(store, filters, levels, units, kind, userId, |units|, rows, draws)
  {
    var used: set<nat> := {};
    rows, draws := [], [];
    for i := 0 to |units|
      invariant used == LevelSet(levels[..Min(i, |levels|)])
      invariant UnitWiseState(store, filters, levels, units, kind, userId, i, rows, draws)
    {
      used, rows, draws := UnitStep(store, filters, levels, units, kind, userId, i, used, rows, draws);
    }
  }

  /** One iteration of the unit loop. */
  method UnitStep(store: seq<Question>, filters: Filters, levels: seq<nat>, units: Counts, kind: Kind,
                  userId: UserId, i: nat, used: set<nat>, rows: seq<Question>, ghost draws: seq<UnitDraw>)
    returns (used': set<nat>, rows': seq<Question>, ghost draws': seq<UnitDraw>)
    requires DistinctNats(levels) && i < |units| && units[i].1 > 0
    requires used == LevelSet(levels[..Min(i, |levels|)])
    requires UnitWiseState(store, filters, levels, units, kind, userId, i, rows, draws)
    ensures used' == LevelSet(levels[..Min(i + 1, |levels|)])
    ensures UnitWiseState(store, filters, levels, units, kind, userId, i + 1, rows', draws')
  {
    var taken; ghost var d;
    taken, d, used' := DrawForUnit(store, filters, levels, kind, userId, units[i], i, used);
    UnitWiseExtend(store, filters, levels, units, kind, userId, i, rows, draws, taken, d);
    rows', draws' := rows + taken, draws + [d];
  }

  lemma UnitWiseDone(store: seq<Question>, filters: Filters, config: GenerationConfig, kind: Kind,
                     userId: UserId, rows: seq<Question>, draws: seq<UnitDraw>)
    requires WellFormed(config)
    requires var units := PositiveEntries(config.unitCounts);
             UnitWiseState(store, filters, AvailableLevels(config), units, kind, userId, |units|, rows, draws)
    ensures UnitWiseTrace(store, filters, config, kind, userId, draws)
    ensures rows == Flatten(TakenOf(draws))
    ensures |rows| <= Sum(PositiveEntries(config.unitCounts))
    ensures forall x :: x in rows ==> x in store && MatchesBase(x, filters, kind, userId)
  {
    var units := PositiveEntries(config.unitCounts);
    assert units[..|units|] == units;
  }

  /** The state of the unit loop after the first `i` units. */
  ghost predicate UnitWiseState(store: seq<Question>, filters: Filters, levels: seq<nat>, units: Counts,
                                kind: Kind, userId: UserId, i: nat, rows: seq<Question>,
                                draws: seq<UnitDraw>)
  {
    && i <= |units|
    && |draws| == i
    && (forall k :: 0 <= k < i ==> DrawOk(store, filters, levels, kind, userId, units[k], k, draws[k]))
    && rows == Flatten(TakenOf(draws))
    && |rows| <= Sum(units[..i])
    && forall x :: x in rows ==> x in store && MatchesBase(x, filters, kind, userId)
  }

  lemma UnitWiseExtend(store: seq<Question>, filters: Filters, levels: seq<nat>, units: Counts,
                       kind: Kind, userId: UserId, i: nat, rows: seq<Question>, draws: seq<UnitDraw>,
                       taken: seq<Question>, d: UnitDraw)
    requires UnitWiseState(store, filters, levels, units, kind, userId, i, rows, draws) && i < |units|
    requires DrawOk(store, filters, levels, kind, userId, units[i], i, d)
    requires taken == d.taken && |taken| <= units[i].1
    requires forall x :: x in taken ==> x in store && MatchesBase(x, filters, kind, userId)
    ensures UnitWiseState(store, filters, levels, units, kind, userId, i + 1, rows + taken, draws + [d])
  {
    SumStep(units, i);
    assert (draws + [d])[..i] == draws;
    assert TakenOf(draws + [d]) == TakenOf(draws) + [taken];
    assert (TakenOf(draws) + [taken])[..i] == TakenOf(draws);
    forall k | 0 <= k < i + 1
      ensures DrawOk(store, filters, levels, kind, userId, units[k], k, (draws + [d])[k])
    {
      if k < i {
        assert (draws + [d])[k] == draws[k];
      }
    }
  }

  // ---------------------------------------------------------------------------------------
  // BT-level mode and flat mode.

  /** The blocks of a BT-level selection: one per level with a positive count, in key order. */
  ghost predicate ByLevelTrace(store: seq<Question>, filters: Filters, counts: Counts, kind: Kind,
                               userId: UserId, blocks: seq<seq<Question>>)
  {
    var levels := PositiveEntries(counts);
    && |blocks| == |levels|
    && forall i :: 0 <= i < |blocks| ==>
         IsSample(blocks[i], store, QueryFor(filters, Some(levels[i].0), kind, userId), levels[i].1)
  }

  /** The keys seen so far, as a set. */
  function KeySet(counts: Counts): set<nat> {
    set e | e in counts :: e.0
  }

  /** The state of the BT-level loop after the first `i` entries. */
  ghost predicate ByLevelState(store: seq<Question>, filters: Filters, counts: Counts, kind: Kind,
                               userId: UserId, i: nat, rows: seq<Question>, blocks: seq<seq<Question>>)
  {
    && i <= |counts|
    && ByLevelTrace(store, filters, counts[..i], kind, userId, blocks)
    && rows == Flatten(blocks)
    && |rows| <= Sum(PositiveEntries(counts[..i]))
    && Distinct(rows)
    && forall x :: x in rows ==>
         x in store && MatchesBase(x, filters, kind, userId) && x.btLevel in KeySet(counts[..i])
  }

  /** The BT-level branch of getRandomQuestionsWithConstraints. */
  method ByLevelSelect(store: seq<Question>, filters: Filters, config: GenerationConfig, kind: Kind,
                       userId: UserId)
    returns (rows: seq<Question>, ghost blocks: seq<seq<Question>>)
    requires WellFormed(config)
    ensures ByLevelTrace(store, filters, config.btLevelCounts, kind, userId, blocks)
    ensures rows == Flatten(blocks)
    ensures |rows| <= Sum(PositiveEntries(config.btLevelCounts))
    ensures Distinct(rows)
    ensures forall x :: x in rows ==> x in store && MatchesBase(x, filters, kind, userId)
  {
    var counts := config.btLevelCounts;
    rows, blocks := [], [];
    for i := 0 to |counts|
      invariant ByLevelState(store, filters, counts, kind, userId, i, rows, blocks)
    {
      rows, blocks := LevelStep(store, filters, config, kind, userId, i, rows, blocks);
    }
    assert counts[..|counts|] == counts;
  }

  /** One entry of the BT-level loop: `if (count <= 0) continue`, otherwise draw `count`. */
  method LevelStep(store: seq<Question>, filters: Filters, config: GenerationConfig, kind: Kind,
                   userId: UserId, i: nat, rows: seq<Question>, ghost blocks: seq<seq<Question>>)
    returns (rows': seq<Question>, ghost blocks': seq<seq<Question>>)
    requires WellFormed(config) && i < |config.btLevelCounts|
    requires ByLevelState(store, filters, config.btLevelCounts, kind, userId, i, rows, blocks)
    ensures ByLevelState(store, filters, config.btLevelCounts, kind, userId, i + 1, rows', blocks')
  {
    var counts := config.btLevelCounts;
    var (level, count) := counts[i];
    if count <= 0 {
      ByLevelSkip(store, filters, counts, kind, userId, i, rows, blocks);
      return rows, blocks;
    }
    var sample := GetQuestions(store, filters, Some(level), kind, count, userId);
    var block := Take(sample.value, count);
    LevelKeyFresh(counts, i);
    ByLevelExtend(store, filters, counts, kind, userId, i, rows, blocks, block);
    rows', blocks' := rows + block, blocks + [block];
  }

  lemma LevelKeyFresh(counts: Counts, i: nat)
    requires KeysAscending(counts) && i < |counts|
    ensures counts[i].0 !in KeySet(counts[..i])
  {
    forall e | e in counts[..i] ensures e.0 < counts[i].0 {
      var j :| 0 <= j < i && counts[..i][j] == e;
      assert counts[j] == e;
    }
  }

  lemma ByLevelSkip(store: seq<Question>, filters: Filters, counts: Counts, kind: Kind,
                    userId: UserId, i: nat, rows: seq<Question>, blocks: seq<seq<Question>>)
    requires ByLevelState(store, filters, counts, kind, userId, i, rows, blocks)
    requires i < |counts| && counts[i].1 <= 0
    ensures ByLevelState(store, filters, counts, kind, userId, i + 1, rows, blocks)
  {
    PositiveEntriesStep(counts, i);
    KeySetStep(counts, i);
    assert PositiveEntries(counts[..i + 1]) == PositiveEntries(counts[..i]);
  }

  lemma ByLevelExtend(store: seq<Question>, filters: Filters, counts: Counts, kind: Kind,
                      userId: UserId, i: nat, rows: seq<Question>, blocks: seq<seq<Question>>,
                      block: seq<Question>)
    requires ByLevelState(store, filters, counts, kind, userId, i, rows, blocks)
    requires i < |counts| && counts[i].0 >= 1 && counts[i].1 > 0
    requires IsSample(block, store, QueryFor(filters, Some(counts[i].0), kind, userId), counts[i].1)
    requires counts[i].0 !in KeySet(counts[..i])
    ensures ByLevelState(store, filters, counts, kind, userId, i + 1, rows + block, blocks + [block])
  {
    PositiveEntriesStep(counts, i);
    KeySetStep(counts, i);
    var level := counts[i].0;
    forall x | x in block ensures x.btLevel == level && x in store && MatchesBase(x, filters, kind, userId) {
      QueryForMeaning(x, filters, Some(level), kind, userId);
    }
    DistinctAppend(rows, block);
    var positive := PositiveEntries(counts[..i]);
    assert (positive + [counts[i]])[..|positive|] == positive;
    assert (blocks + [block])[..|blocks|] == blocks;
    assert forall k :: 0 <= k < |blocks| ==> (blocks + [block])[k] == blocks[k];
  }

  lemma KeySetStep(counts: Counts, i: nat)
    requires i < |counts|
    ensures KeySet(counts[..i + 1]) == KeySet(counts[..i]) + {counts[i].0}
  {
    assert counts[..i + 1] == counts[..i] + [counts[i]];
  }

  lemma DistinctAppend(a: seq<Question>, b: seq<Question>)
    requires Distinct(a) && Distinct(b)
    requires forall x :: x in a ==> x !in b
    ensures Distinct(a + b)
  {
    forall i, j | 0 <= i < j < |a + b| ensures (a + b)[i] != (a + b)[j] {
      if i < |a| && j >= |a| {
        assert (a + b)[i] in a && (a + b)[j] in b;
      }
    }
  }

  /** The flat branch: `totalCount` random questions of the type. */
  method TotalSelect(store: seq<Question>, filters: Filters, config: GenerationConfig, kind: Kind,
                     userId: UserId)
    returns (r: Option<seq<Question>>)
    ensures r.None? <==> config.totalCount < 0
    ensures r.Some? ==> IsSample(r.value, store, QueryFor(filters, None, kind, userId), config.totalCount)
  {
    var sample := GetQuestions(store, filters, None, kind, config.totalCount, userId);
    if sample.None? {
      return None;
    }
    var rows := Take(sample.value, config.totalCount);
    assert forall x :: x in rows ==> x in sample.value;
    return Some(rows);
  }

  /** The number of questions a configuration asks for, by its mode. */
  function Planned(config: GenerationConfig): int {
    if config.useUnitWise then Sum(PositiveEntries(config.unitCounts))
    else if config.useBtLevels then Sum(PositiveEntries(config.btLevelCounts))
    else config.totalCount
  }

  /** A flat-mode configuration with a negative total: its sample size is refused by the store. */
  predicate RefusedSample(config: GenerationConfig) {
    !config.useUnitWise && !config.useBtLevels && config.totalCount < 0
  }

  /** Which branch a selection took, with its draws. */
  datatype Selection =
    | UnitWise(draws: seq<UnitDraw>)
    | ByLevel(blocks: seq<seq<Question>>)
    | Total

  /**
   * `getRandomQuestionsWithConstraints(filters, config, type, userId)`. `None` is the store's
   * refusal of a negative sample size, reachable only through a negative `totalCount` in the
   * flat mode.
   */
  method SelectQuestions(store: seq<Question>, filters: Filters, config: GenerationConfig, kind: Kind,
                         userId: UserId)
    returns (r: Option<seq<Question>>, ghost trace: Selection)
    requires WellFormed(config)
    ensures config.useUnitWise ==>
              && trace.UnitWise? && r.Some?
              && UnitWiseTrace(store, filters, config, kind, userId, trace.draws)
              && r.value == Flatten(TakenOf(trace.draws))
              && |r.value| <= Sum(PositiveEntries(config.unitCounts))
    ensures !config.useUnitWise && config.useBtLevels ==>
              && trace.ByLevel? && r.Some?
              && ByLevelTrace(store, filters, config.btLevelCounts, kind, userId, trace.blocks)
              && r.value == Flatten(trace.blocks)
              && |r.value| <= Sum(PositiveEntries(config.btLevelCounts))
              && Distinct(r.value)
    ensures !config.useUnitWise && !config.useBtLevels ==>
              && trace.Total?
              && (r.None? <==> config.totalCount < 0)
              && (r.Some? ==> IsSample(r.value, store, QueryFor(filters, None, kind, userId), config.totalCount))
    ensures r.None? <==> RefusedSample(config)
    ensures r.Some? ==> |r.value| <= Planned(config)
    ensures r.Some? ==> forall x :: x in r.value ==> x in store && MatchesBase(x, filters, kind, userId)
  {
    if config.useUnitWise {
      var rows, draws := UnitWiseSelect(store, filters, config, kind, userId);
      return Some(rows), UnitWise(draws);
    } else if config.useBtLevels {
      var rows, blocks := ByLevelSelect(store, filters, config, kind, userId);
      return Some(rows), ByLevel(blocks);
    } else {
      r := TotalSelect(store, filters, config, kind, userId);
      trace := Total;
      if r.Some? {
        forall x | x in r.value ensures x in store && MatchesBase(x, filters, kind, userId) {
          QueryForMeaning(x, filters, None, kind, userId);
        }
      }
    }
  }
}
