/**
 * `getSubjectsByFile` in backend/controlllers/generateController.js: the questions of one
 * uploaded file grouped by subject code, each group with its duplicate-free year and
 * semester lists.
 */
module SubjectCatalog {
  import opened Wrappers
  import opened Models

  /** One catalogue entry; `years` and `semesters` are the `Set`s spread into arrays. */
  datatype Subject = Subject(
    subjectCode: string,
    subject: string,
    branch: string,
    regulation: string,
    years: seq<string>,
    semesters: seq<int>)

  datatype CatalogResponse =
    | Subjects(subjects: seq<Subject>)
    | CatalogFailure(status: nat, error: string)

  predicate NoDuplicates<T(==)>(s: seq<T>) {
    forall i, j :: 0 <= i < j < |s| ==> s[i] != s[j]
  }

  /** The distinct elements of `s` in first-seen order: what a JavaScript `Set` iterates. */
  function Dedup<T(==,!new)>(s: seq<T>): (r: seq<T>)
    ensures forall x :: x in r <==> x in s
    ensures NoDuplicates(r)
  {
    if s == [] then []
    else
      var d := Dedup(s[..|s| - 1]);
      var x := s[|s| - 1];
      assert forall y :: y in s[..|s| - 1] ==> y in s;
      assert forall y :: y in s ==> y in s[..|s| - 1] || y == x;
      if x in d then d else d + [x]
  }

  lemma DedupSnoc<T(!new)>(s: seq<T>, x: T)
    ensures Dedup(s + [x]) == if x in Dedup(s) then Dedup(s) else Dedup(s) + [x]
  {
    assert (s + [x])[..|s|] == s;
  }

  /** `Question.find({ _id: { $in: ids } })`: the file's questions in store order. */
  function FileQuestions(store: seq<Question>, ids: seq<QuestionId>): (r: seq<Question>)
    ensures forall q :: q in r <==> q in store && q.id in ids
  {
    if store == [] then []
    else (if store[0].id in ids then [store[0]] else []) + FileQuestions(store[1..], ids)
  }

  function Codes(qs: seq<Question>): (r: seq<string>)
    ensures |r| == |qs| && forall i :: 0 <= i < |qs| ==> r[i] == qs[i].subjectCode
  {
    if qs == [] then [] else Codes(qs[..|qs| - 1]) + [qs[|qs| - 1].subjectCode]
  }

  function Years(qs: seq<Question>): (r: seq<string>)
    ensures |r| == |qs| && forall i :: 0 <= i < |qs| ==> r[i] == qs[i].year
  {
    if qs == [] then [] else Years(qs[..|qs| - 1]) + [qs[|qs| - 1].year]
  }

  function Semesters(qs: seq<Question>): (r: seq<int>)
    ensures |r| == |qs| && forall i :: 0 <= i < |qs| ==> r[i] == qs[i].semester
  {
    if qs == [] then [] else Semesters(qs[..|qs| - 1]) + [qs[|qs| - 1].semester]
  }

  /** The questions with one subject code, in order. */
  function WithCode(qs: seq<Question>, code: string): seq<Question> {
    if qs == [] then []
    else
      var last := qs[|qs| - 1];
      WithCode(qs[..|qs| - 1], code) + (if last.subjectCode == code then [last] else [])
  }

  lemma {:induction false} WithCodeMembers(qs: seq<Question>, code: string)
    ensures forall q :: q in WithCode(qs, code) <==> q in qs && q.subjectCode == code
  {
    if qs != [] {
      var init := qs[..|qs| - 1];
      WithCodeMembers(init, code);
      assert qs == init + [qs[|qs| - 1]];
    }
  }

  /**
   * The entry for one subject code: names from the first question with that code, every
   * year and semester of its questions in first-seen order.
   */
  function SummaryOf(qs: seq<Question>, code: string): (r: Subject)
    ensures r.subjectCode == code
  {
    var group := WithCode(qs, code);
    if group == [] then Subject(code, "", "", "", [], [])
    else Subject(code, group[0].subject, group[0].branch, group[0].regulation,
                 Dedup(Years(group)), Dedup(Semesters(group)))
  }

  function SummariesFor(qs: seq<Question>, codes: seq<string>): (r: seq<Subject>)
    ensures |r| == |codes| && forall i :: 0 <= i < |codes| ==> r[i].subjectCode == codes[i]
  {
    if codes == [] then [] else SummariesFor(qs, codes[..|codes| - 1]) + [SummaryOf(qs, codes[|codes| - 1])]
  }

  lemma {:induction false} SummaryAt(qs: seq<Question>, codes: seq<string>, k: nat)
    requires k < |codes|
    ensures SummariesFor(qs, codes)[k] == SummaryOf(qs, codes[k])
  {
    if k < |codes| - 1 {
      SummaryAt(qs, codes[..|codes| - 1], k);
    }
  }

  /** The catalogue as defined: one entry per distinct code, codes in first-seen order. */
  function Catalogue(qs: seq<Question>): seq<Subject> {
    SummariesFor(qs, Dedup(Codes(qs)))
  }

  /** `acc[key] = { ... , year: new Set([q.year]), semester: new Set([q.semester]) }`. */
  function NewEntry(q: Question): Subject {
    Subject(q.subjectCode, q.subject, q.branch, q.regulation, [q.year], [q.semester])
  }

  /** `acc[key].year.add(q.year); acc[key].semester.add(q.semester)`. */
  function AddTo(s: Subject, q: Question): Subject {
    s.(years := if q.year in s.years then s.years else s.years + [q.year],
       semesters := if q.semester in s.semesters then s.semesters else s.semesters + [q.semester])
  }

  /** The position of `code` among the entries' keys, or `|acc|` when it is absent. */
  method IndexOfCode(acc: seq<Subject>, code: string) returns (j: nat)
    ensures j <= |acc|
    ensures j < |acc| ==> acc[j].subjectCode == code
    ensures forall k :: 0 <= k < j ==> acc[k].subjectCode != code
  {
    j := 0;
    while j < |acc| && acc[j].subjectCode != code
      invariant j <= |acc|
      invariant forall k :: 0 <= k < j ==> acc[k].subjectCode != code
    {
      j := j + 1;
    }
  }

  /** The `reduce` over the file's questions, followed by `Object.values`. */
  method GroupBySubject(qs: seq<Question>) returns (subjects: seq<Subject>)
    ensures subjects == Catalogue(qs)
  {
    subjects := [];
    for i := 0 to |qs|
      invariant subjects == Catalogue(qs[..i])
    {
      subjects := AddQuestion(subjects, qs, i);
    }
    assert qs[..|qs|] == qs;
  }

  /** One step of the `reduce`: start a new entry or extend the one with the same code. */
  method AddQuestion(acc: seq<Subject>, qs: seq<Question>, i: nat) returns (next: seq<Subject>)
    requires i < |qs| && acc == Catalogue(qs[..i])
    ensures next == Catalogue(qs[..i + 1])
  {
    ghost var seen := qs[..i];
    var q := qs[i];
    assert qs[..i + 1] == seen + [q];
    var j := IndexOfCode(acc, q.subjectCode);
    if j < |acc| {
      CodeAtIndex(seen, q.subjectCode, j);
      CatalogueSnocSeen(seen, q, j);
      next := acc[j := AddTo(acc[j], q)];
    } else {
      CodeAbsent(seen, q.subjectCode);
      CatalogueSnocNew(seen, q);
      next := acc + [NewEntry(q)];
    }
  }

  lemma CodeAtIndex(qs: seq<Question>, code: string, j: nat)
    requires j < |Catalogue(qs)| && Catalogue(qs)[j].subjectCode == code
    ensures j < |Dedup(Codes(qs))| && Dedup(Codes(qs))[j] == code
  {
  }

  lemma CodeAbsent(qs: seq<Question>, code: string)
    requires forall k :: 0 <= k < |Catalogue(qs)| ==> Catalogue(qs)[k].subjectCode != code
    ensures code !in Dedup(Codes(qs))
  {
    var d := Dedup(Codes(qs));
    forall k | 0 <= k < |d| ensures d[k] != code {
      assert Catalogue(qs)[k].subjectCode == d[k];
    }
  }

  /** A code has a non-empty group exactly when some question carries it. */
  lemma CodeSeen(qs: seq<Question>, code: string)
    ensures code in Dedup(Codes(qs)) <==> WithCode(qs, code) != []
  {
    WithCodeMembers(qs, code);
    var codes := Codes(qs);
    if code in Dedup(codes) {
      var k :| 0 <= k < |codes| && codes[k] == code;
      assert qs[k] in WithCode(qs, code);
    }
    if WithCode(qs, code) != [] {
      var q := WithCode(qs, code)[0];
      assert q in WithCode(qs, code);
      var k :| 0 <= k < |qs| && qs[k] == q;
      assert codes[k] == code;
    }
  }

  lemma CodesSnoc(qs: seq<Question>, q: Question)
    ensures Codes(qs + [q]) == Codes(qs) + [q.subjectCode]
    ensures Dedup(Codes(qs + [q])) ==
              if q.subjectCode in Dedup(Codes(qs)) then Dedup(Codes(qs))
              else Dedup(Codes(qs)) + [q.subjectCode]
  {
    assert Codes(qs + [q]) == Codes(qs) + [q.subjectCode];
    DedupSnoc(Codes(qs), q.subjectCode);
  }

  /** A question leaves the entries of the other codes as they were. */
  lemma SummaryUnchanged(qs: seq<Question>, q: Question, code: string)
    requires code != q.subjectCode
    ensures SummaryOf(qs + [q], code) == SummaryOf(qs, code)
  {
    assert (qs + [q])[..|qs|] == qs;
    assert WithCode(qs + [q], code) == WithCode(qs, code);
  }

  /** The entries of the codes seen earlier, other than the new question's, keep their place. */
  lemma EntryUnchanged(qs: seq<Question>, q: Question, k: nat)
    requires k < |Dedup(Codes(qs))| && Dedup(Codes(qs))[k] != q.subjectCode
    ensures k < |Catalogue(qs)| && k < |Catalogue(qs + [q])|
    ensures Catalogue(qs + [q])[k] == Catalogue(qs)[k]
  {
    var before, after := Dedup(Codes(qs)), Dedup(Codes(qs + [q]));
    CodesSnoc(qs, q);
    assert after[k] == before[k];
    SummaryAt(qs, before, k);
    SummaryAt(qs + [q], after, k);
    SummaryUnchanged(qs, q, before[k]);
  }

  /** One entry after a question with an already seen code joins its group. */
  lemma SeenEntryAt(qs: seq<Question>, q: Question, j: nat, k: nat)
    requires j < |Dedup(Codes(qs))| && Dedup(Codes(qs))[j] == q.subjectCode
    requires k < |Catalogue(qs)|
    ensures j < |Catalogue(qs)| && |Catalogue(qs + [q])| == |Catalogue(qs)|
    ensures Catalogue(qs + [q])[k] == if k == j then AddTo(Catalogue(qs)[j], q) else Catalogue(qs)[k]
  {
    var before := Dedup(Codes(qs));
    CodesSnoc(qs, q);
    if k == j {
      CodeSeen(qs, q.subjectCode);
      GroupGrows(qs, q);
      SummaryAt(qs, before, j);
      SummaryAt(qs + [q], before, j);
    } else {
      assert NoDuplicates(before);
      assert before[k] != before[j];
      EntryUnchanged(qs, q, k);
    }
  }

  lemma CatalogueSnocSeen(qs: seq<Question>, q: Question, j: nat)
    requires j < |Dedup(Codes(qs))| && Dedup(Codes(qs))[j] == q.subjectCode
    ensures j < |Catalogue(qs)|
    ensures Catalogue(qs + [q]) == Catalogue(qs)[j := AddTo(Catalogue(qs)[j], q)]
  {
    var cat, cat' := Catalogue(qs), Catalogue(qs + [q]);
    assert |cat| == |Dedup(Codes(qs))|;
    SeenEntryAt(qs, q, j, j);
    var expected := cat[j := AddTo(cat[j], q)];
    forall k | 0 <= k < |cat| ensures cat'[k] == expected[k] {
      SeenEntryAt(qs, q, j, k);
    }
  }

  /** The first question with a code starts its entry. */
  lemma FirstOfGroup(qs: seq<Question>, q: Question)
    requires WithCode(qs, q.subjectCode) == []
    ensures SummaryOf(qs + [q], q.subjectCode) == NewEntry(q)
  {
    assert (qs + [q])[..|qs|] == qs;
    assert WithCode(qs + [q], q.subjectCode) == [q];
    assert Years([q]) == [q.year] && Semesters([q]) == [q.semester];
    DedupSnoc([], q.year);
    DedupSnoc([], q.semester);
  }

  /** One entry after a question with a new code: the old entries, then the new one. */
  lemma NewEntryAt(qs: seq<Question>, q: Question, k: nat)
    requires q.subjectCode !in Dedup(Codes(qs))
    requires k <= |Dedup(Codes(qs))|
    ensures |Catalogue(qs + [q])| == |Catalogue(qs)| + 1
    ensures Catalogue(qs + [q])[k] == if k < |Catalogue(qs)| then Catalogue(qs)[k] else NewEntry(q)
  {
    var before := Dedup(Codes(qs));
    CodesSnoc(qs, q);
    if k < |before| {
      EntryUnchanged(qs, q, k);
    } else {
      LastIsNewEntry(qs, q);
    }
  }

  lemma LastIsNewEntry(qs: seq<Question>, q: Question)
    requires q.subjectCode !in Dedup(Codes(qs))
    ensures |Catalogue(qs + [q])| == |Dedup(Codes(qs))| + 1
    ensures Catalogue(qs + [q])[|Dedup(Codes(qs))|] == NewEntry(q)
  {
    var before := Dedup(Codes(qs));
    CodesSnoc(qs, q);
    CodeSeen(qs, q.subjectCode);
    FirstOfGroup(qs, q);
    SummaryAt(qs + [q], before + [q.subjectCode], |before|);
  }

  lemma CatalogueSnocNew(qs: seq<Question>, q: Question)
    requires q.subjectCode !in Dedup(Codes(qs))
    ensures Catalogue(qs + [q]) == Catalogue(qs) + [NewEntry(q)]
  {
    var cat, cat' := Catalogue(qs), Catalogue(qs + [q]);
    NewEntryAt(qs, q, 0);
    forall k | 0 <= k < |cat'| ensures cat'[k] == (cat + [NewEntry(q)])[k] {
      NewEntryAt(qs, q, k);
    }
  }

  /** A question joining a non-empty group adds its year and semester when they are new. */
  lemma GroupGrows(qs: seq<Question>, q: Question)
    requires WithCode(qs, q.subjectCode) != []
    ensures SummaryOf(qs + [q], q.subjectCode) == AddTo(SummaryOf(qs, q.subjectCode), q)
  {
    var all := qs + [q];
    assert all[..|qs|] == qs;
    var group := WithCode(qs, q.subjectCode);
    assert WithCode(all, q.subjectCode) == group + [q];
    assert (group + [q])[0] == group[0];
    assert (group + [q])[..|group|] == group;
    assert Years(group + [q]) == Years(group) + [q.year];
    assert Semesters(group + [q]) == Semesters(group) + [q.semester];
    DedupSnoc(Years(group), q.year);
    DedupSnoc(Semesters(group), q.semester);
  }

  /** No code has two entries. */
  lemma CatalogueCodesDistinct(qs: seq<Question>)
    ensures var cat := Catalogue(qs);
            forall i, j :: 0 <= i < j < |cat| ==> cat[i].subjectCode != cat[j].subjectCode
  {
    var codes := Dedup(Codes(qs));
    assert NoDuplicates(codes);
  }

  /** Every question's code has an entry. */
  lemma CatalogueCoversQuestions(qs: seq<Question>, q: Question)
    requires q in qs
    ensures exists i :: 0 <= i < |Catalogue(qs)| && Catalogue(qs)[i].subjectCode == q.subjectCode
  {
    var codes := Dedup(Codes(qs));
    var k :| 0 <= k < |qs| && qs[k] == q;
    assert Codes(qs)[k] == q.subjectCode;
    assert q.subjectCode in codes;
    var i :| 0 <= i < |codes| && codes[i] == q.subjectCode;
    assert Catalogue(qs)[i].subjectCode == q.subjectCode;
  }

  /** Every entry's code is carried by some question. */
  lemma CatalogueEntryHasQuestion(qs: seq<Question>, i: nat)
    requires i < |Catalogue(qs)|
    ensures exists q :: q in qs && q.subjectCode == Catalogue(qs)[i].subjectCode
  {
    var codes := Dedup(Codes(qs));
    assert codes[i] in Codes(qs);
    var k :| 0 <= k < |qs| && Codes(qs)[k] == codes[i];
    assert qs[k] in qs;
  }

  lemma YearsMembers(group: seq<Question>)
    ensures forall y :: y in Years(group) <==> exists q :: q in group && q.year == y
  {
    forall y ensures y in Years(group) <==> exists q :: q in group && q.year == y {
      if y in Years(group) {
        var m :| 0 <= m < |group| && Years(group)[m] == y;
        assert group[m] in group;
      }
      if exists q :: q in group && q.year == y {
        var q :| q in group && q.year == y;
        var m :| 0 <= m < |group| && group[m] == q;
        assert Years(group)[m] == y;
      }
    }
  }

  lemma SemestersMembers(group: seq<Question>)
    ensures forall s :: s in Semesters(group) <==> exists q :: q in group && q.semester == s
  {
    forall s ensures s in Semesters(group) <==> exists q :: q in group && q.semester == s {
      if s in Semesters(group) {
        var m :| 0 <= m < |group| && Semesters(group)[m] == s;
        assert group[m] in group;
      }
      if exists q :: q in group && q.semester == s {
        var q :| q in group && q.semester == s;
        var m :| 0 <= m < |group| && group[m] == q;
        assert Semesters(group)[m] == s;
      }
    }
  }

  /**
   * One entry: names from the first question with its code; year and semester lists free of
   * duplicates and holding exactly the values its questions carry.
   */
  lemma CatalogueEntry(qs: seq<Question>, i: nat)
    requires i < |Catalogue(qs)|
    ensures var e := Catalogue(qs)[i];
            var group := WithCode(qs, e.subjectCode);
            && group != []
            && e.subject == group[0].subject
            && e.branch == group[0].branch
            && e.regulation == group[0].regulation
            && NoDuplicates(e.years) && NoDuplicates(e.semesters)
            && (forall y :: y in e.years <==> exists q :: q in group && q.year == y)
            && (forall s :: s in e.semesters <==> exists q :: q in group && q.semester == s)
  {
    var codes := Dedup(Codes(qs));
    SummaryAt(qs, codes, i);
    CodeSeen(qs, codes[i]);
    var group := WithCode(qs, codes[i]);
    YearsMembers(group);
    SemestersMembers(group);
  }

  const FileIdRequired := "File ID is required"
  const FileNotFound := "File not found"
  const FetchFailed := "Failed to fetch subjects"

  /**
   * `getSubjectsByFile`. A missing user makes `user.uploadedFiles` throw, which the catch
   * block turns into a 500.
   */
  method GetSubjectsByFile(users: seq<User>, store: seq<Question>, userId: UserId, fileId: string)
    returns (r: CatalogResponse)
    ensures fileId == "" ==> r == CatalogFailure(400, FileIdRequired)
    ensures fileId != "" && userId >= |users| ==> r == CatalogFailure(500, FetchFailed)
    ensures fileId != "" && userId < |users| ==>
              match FindFile(users[userId].uploadedFiles, fileId)
              case None => r == CatalogFailure(404, FileNotFound)
              case Some(file) => r == Subjects(Catalogue(FileQuestions(store, file.questions)))
  {
    if fileId == "" {
      return CatalogFailure(400, FileIdRequired);
    }
    var user := FindById(users, userId);
    if user.None? {
      return CatalogFailure(500, FetchFailed);
    }
    var file := FindFile(user.value.uploadedFiles, fileId);
    if file.None? {
      return CatalogFailure(404, FileNotFound);
    }
    var questions := FileQuestions(store, file.value.questions);
    var subjects := GroupBySubject(questions);
    return Subjects(subjects);
  }
}
