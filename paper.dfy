/**
 * `generatePaper` in backend/controlllers/generateController.js: the guard chain, the pool
 * check, the two selections and the numbered response.
 */
module PaperAssembler {
  import opened Wrappers
  import opened Models
  import opened ConfigValidation
  import opened Sampler
  import Js

  /** `config` of a generation request: one configuration per type. */
  datatype PaperConfig = PaperConfig(short: GenerationConfig, long: GenerationConfig)

  /** The request body; the client sends every filter as a string. */
  datatype PaperRequest = PaperRequest(
    fileId: string,
    subject: string,
    branch: string,
    regulation: string,
    year: string,
    semester: string,
    unit: string,
    config: PaperConfig)

  /** One numbered question of the paper. */
  datatype Entry = Entry(number: nat, question: string, btLevel: int, unit: int)

  datatype Metadata = Metadata(
    fileId: string,
    filename: string,
    subjectCode: string,
    subject: string,
    branch: string,
    regulation: string,
    year: string,
    semester: string,
    unit: string,
    totalQuestions: nat,
    generatedBy: string,
    generatedAt: string)

  /** The `details` object of a 404 answer. */
  datatype Details =
    | NoDetails
    | RequestedCounts(shortTotal: int, longTotal: int)
    | SampledCounts(shortCount: nat, longCount: nat)

  datatype Response =
    | Paper(metadata: Metadata, shortAnswers: seq<Entry>, longAnswers: seq<Entry>)
    | Failure(status: nat, error: string, details: Details)

  const UserNotFound := "User not found. Please log in again."
  const NotVerified := "Please verify your account before generating a paper."
  const FileIdRequired := "File ID is required"
  const FileNotFound := "File not found"
  const EmptyFile := "Selected file contains no questions. Please upload questions first."
  const NoMatch := "No questions found matching your criteria in your question bank."
  const SubjectNotFound := "Subject not found in your question bank."
  /** The store's error for a negative `$sample` size; its exact wording is the store's. */
  const SampleSizeError := "size argument to $sample must not be negative"
  /**
   * The store's refusal to cast a NaN filter value to a number, for the `semester` and the
   * `unit` paths; the exact wording is the store's.
   */
  const SemesterCastError := "Cast to Number failed for value \"NaN\" (type number) at path \"semester\" for model \"Question\""
  const UnitCastError := "Cast to Number failed for value \"NaN\" (type number) at path \"unit\" for model \"Question\""

  /** The `filters` object: the file restriction, the named fields, and the unit when truthy. */
  function BuildFilters(file: UploadedFile, request: PaperRequest, userId: UserId): (f: Filters)
    ensures f.fileQuestions == file.questions && f.subjectCode == request.subject
    ensures f.semester == Js.ParseInt(request.semester) && f.uploadedBy == userId
    ensures f.unit.Some? <==> request.unit != ""
    ensures f.unit.Some? ==> f.unit.value == Js.ParseInt(request.unit)
  {
    Filters(file.questions, request.subject, request.branch, request.regulation, request.year,
            Js.ParseInt(request.semester), userId,
            if request.unit != "" then Some(Js.ParseInt(request.unit)) else None)
  }

  /** `Question.find(filters)`: every field of `filters`, the file restriction included. */
  predicate InPool(q: Question, filters: Filters) {
    && q.id in filters.fileQuestions
    && q.subjectCode == filters.subjectCode
    && q.branch == filters.branch
    && q.regulation == filters.regulation
    && q.year == filters.year
    && filters.semester == Some(q.semester)
    && q.uploadedBy == filters.uploadedBy
    && (filters.unit.Some? ==> filters.unit.value == Some(q.unit))
  }

  function Pool(store: seq<Question>, filters: Filters): (r: seq<Question>)
    ensures forall q :: q in r <==> q in store && InPool(q, filters)
  {
    if store == [] then []
    else (if InPool(store[0], filters) then [store[0]] else []) + Pool(store[1..], filters)
  }

  /** `Question.findOne({ subjectCode, uploadedBy })`: the first such question in the store. */
  function FindSubject(store: seq<Question>, code: string, userId: UserId): (r: Option<Question>)
    ensures r.None? <==> forall q :: q in store ==> !(q.subjectCode == code && q.uploadedBy == userId)
    ensures r.Some? ==> r.value in store && r.value.subjectCode == code && r.value.uploadedBy == userId
  {
    if store == [] then None
    else if store[0].subjectCode == code && store[0].uploadedBy == userId then Some(store[0])
    else FindSubject(store[1..], code, userId)
  }

  /** `answers.map((q, index) => ({ number: index + 1, ... }))`. */
  function Entries(rows: seq<Question>, kind: Kind): (r: seq<Entry>)
    ensures |r| == |rows|
    ensures forall i :: 0 <= i < |r| ==>
              r[i] == Entry(i + 1, QuestionText(rows[i], kind), rows[i].btLevel, rows[i].unit)
  {
    if rows == [] then []
    else
      var init := rows[..|rows| - 1];
      var last := rows[|rows| - 1];
      Entries(init, kind) + [Entry(|rows|, QuestionText(last, kind), last.btLevel, last.unit)]
  }

  /** `Question.find(filters)` casts the numeric filters and refuses a NaN `semester` or `unit`. */
  predicate CastRefused(filters: Filters) {
    filters.semester.None? || (filters.unit.Some? && filters.unit.value.None?)
  }

  /** The refusal's message: the `semester` path is cast before the `unit` path. */
  function CastError(filters: Filters): (e: string)
    ensures filters.semester.None? ==> e == SemesterCastError
    ensures filters.semester.Some? ==> e == UnitCastError
  {
    if filters.semester.None? then SemesterCastError else UnitCastError
  }

  /** Every check before the first question query passes. */
  predicate GuardsPass(users: seq<User>, userId: UserId, request: PaperRequest) {
    && userId < |users|
    && users[userId].isAccountVerified
    && request.fileId != ""
    && FindFile(users[userId].uploadedFiles, request.fileId).Some?
    && |FindFile(users[userId].uploadedFiles, request.fileId).value.questions| > 0
    && ValidateConfig(request.config.short, Short) == Pass
    && ValidateConfig(request.config.long, Long) == Pass
  }

  /** What happens once every guard has passed, for the user and the file they selected. */
  ghost predicate Assembled(store: seq<Question>, userId: UserId, user: User, file: UploadedFile,
                            request: PaperRequest, now: string, r: Response,
                            shortRows: seq<Question>, longRows: seq<Question>)
  {
    var filters := BuildFilters(file, request, userId);
    var config := request.config;
    var queried := !CastRefused(filters);
    var sampled := queried && Pool(store, filters) != [] && !RefusedSample(config.short) && !RefusedSample(config.long);
    && (CastRefused(filters) ==> r == Failure(500, CastError(filters), NoDetails))
    && (queried && Pool(store, filters) == [] ==>
          r == Failure(404, NoMatch, RequestedCounts(config.short.totalCount, config.long.totalCount)))
    && (queried && Pool(store, filters) != [] && (RefusedSample(config.short) || RefusedSample(config.long)) ==>
          r == Failure(500, SampleSizeError, NoDetails))
    && (sampled && shortRows == [] && longRows == [] ==> r == Failure(404, NoMatch, SampledCounts(0, 0)))
    && (r.Paper? <==> sampled && (shortRows != [] || longRows != []))
    && (r.Paper? ==>
          && (forall q :: q in shortRows ==> q in store && MatchesBase(q, filters, Short, userId))
          && (forall q :: q in longRows ==> q in store && MatchesBase(q, filters, Long, userId))
          && |shortRows| <= Planned(config.short)
          && |longRows| <= Planned(config.long)
          && r.shortAnswers == Entries(shortRows, Short)
          && r.longAnswers == Entries(longRows, Long)
          && r.metadata.totalQuestions == |r.shortAnswers| + |r.longAnswers| > 0
          && r.metadata.fileId == request.fileId
          && r.metadata.filename == file.filename
          && r.metadata.subjectCode == request.subject
          && r.metadata.branch == request.branch && r.metadata.regulation == request.regulation
          && r.metadata.year == request.year && r.metadata.semester == request.semester
          && r.metadata.unit == request.unit
          && FindSubject(store, request.subject, userId).Some?
          && r.metadata.subject == FindSubject(store, request.subject, userId).value.subject
          && r.metadata.generatedBy == user.email
          && r.metadata.generatedAt == now)
  }

  /**
   * `generatePaper`. `now` is the ISO time stamp. The ghost `queried` records whether any
   * question query was made; `shortRows` and `longRows` are the selected questions.
   */
  method GeneratePaper(users: seq<User>, store: seq<Question>, userId: UserId, request: PaperRequest,
                       now: string)
    returns (r: Response, ghost queried: bool, ghost shortRows: seq<Question>, ghost longRows: seq<Question>)
    requires WellFormed(request.config.short) && WellFormed(request.config.long)
    // The guards, in order.
    ensures userId >= |users| ==> r == Failure(401, UserNotFound, NoDetails)
    ensures userId < |users| && !users[userId].isAccountVerified ==> r == Failure(401, NotVerified, NoDetails)
    ensures userId < |users| && users[userId].isAccountVerified && request.fileId == "" ==>
              r == Failure(400, FileIdRequired, NoDetails)
    ensures userId < |users| && users[userId].isAccountVerified && request.fileId != "" ==>
              var file := FindFile(users[userId].uploadedFiles, request.fileId);
              && (file.None? ==> r == Failure(404, FileNotFound, NoDetails))
              && (file.Some? && file.value.questions == [] ==> r == Failure(400, EmptyFile, NoDetails))
              && (file.Some? && file.value.questions != [] ==>
                    var shortCheck := ValidateConfig(request.config.short, Short);
                    var longCheck := ValidateConfig(request.config.long, Long);
                    && (shortCheck.Fail? ==> r == Failure(500, shortCheck.message, NoDetails))
                    && (shortCheck.Pass? && longCheck.Fail? ==> r == Failure(500, longCheck.message, NoDetails)))
    // No question query before every guard has passed.
    ensures queried <==> GuardsPass(users, userId, request)
    ensures GuardsPass(users, userId, request) ==>
              Assembled(store, userId, users[userId], FindFile(users[userId].uploadedFiles, request.fileId).value,
                        request, now, r, shortRows, longRows)
    ensures r.Failure? ==> r.error != SubjectNotFound
  {
    queried, shortRows, longRows := false, [], [];
    var found := FindById(users, userId);
    if found.None? {
      return Failure(401, UserNotFound, NoDetails), queried, shortRows, longRows;
    }
    var user := found.value;
    if !user.isAccountVerified {
      return Failure(401, NotVerified, NoDetails), queried, shortRows, longRows;
    }
    if request.fileId == "" {
      return Failure(400, FileIdRequired, NoDetails), queried, shortRows, longRows;
    }
    var file := FindFile(user.uploadedFiles, request.fileId);
    if file.None? {
      return Failure(404, FileNotFound, NoDetails), queried, shortRows, longRows;
    }
    if |file.value.questions| == 0 {
      return Failure(400, EmptyFile, NoDetails), queried, shortRows, longRows;
    }
    // A thrown validation error reaches the catch block: status 500 with its message.
    var shortCheck := ValidateConfig(request.config.short, Short);
    if shortCheck.Fail? {
      return Failure(500, shortCheck.message, NoDetails), queried, shortRows, longRows;
    }
    var longCheck := ValidateConfig(request.config.long, Long);
    if longCheck.Fail? {
      return Failure(500, longCheck.message, NoDetails), queried, shortRows, longRows;
    }
    queried := true;
    r, shortRows, longRows := AssemblePaper(store, userId, user, file.value, request, now);
  }

  /** An empty or non-numeric semester, or a non-numeric unit, is refused by the cast with status 500. */
  lemma NaNFiltersRefused(store: seq<Question>, userId: UserId, user: User, file: UploadedFile,
                          request: PaperRequest, now: string, r: Response,
                          shortRows: seq<Question>, longRows: seq<Question>)
    requires Assembled(store, userId, user, file, request, now, r, shortRows, longRows)
    ensures request.semester == "" || request.semester == "abc" ==> r == Failure(500, SemesterCastError, NoDetails)
    ensures Js.ParseInt(request.semester).Some? && request.unit == "abc" ==> r == Failure(500, UnitCastError, NoDetails)
  {
    assert Js.TrimStart("abc") == "abc";
    assert Js.SplitSign("abc") == (false, "abc");
    assert Js.SplitRadix("abc") == (10, "abc");
    assert Js.DigitOf('a') == 10;
    assert Js.ParseInt("abc").None?;
  }

  /** The part of `generatePaper` after the guards: pool check, selections, response. */
  method AssemblePaper(store: seq<Question>, userId: UserId, user: User, file: UploadedFile,
                       request: PaperRequest, now: string)
    returns (r: Response, ghost shortRows: seq<Question>, ghost longRows: seq<Question>)
    requires WellFormed(request.config.short) && WellFormed(request.config.long)
    ensures Assembled(store, userId, user, file, request, now, r, shortRows, longRows)
    ensures r.Failure? ==> r.error in {SemesterCastError, UnitCastError, NoMatch, SampleSizeError}
  {
    shortRows, longRows := [], [];
    var filters := BuildFilters(file, request, userId);
    // A thrown cast error reaches the catch block: status 500 with its message.
    if CastRefused(filters) {
      return Failure(500, CastError(filters), NoDetails), shortRows, longRows;
    }
    var pool := Pool(store, filters);
    if |pool| == 0 {
      r := Failure(404, NoMatch, RequestedCounts(request.config.short.totalCount, request.config.long.totalCount));
      return;
    }
    // `countDocuments(filters)` counts the same filter as the `find` above, so it is not zero here.

    var shortAnswers := DrawAnswers(store, filters, request.config.short, Short, userId);
    if shortAnswers.None? {
      return Failure(500, SampleSizeError, NoDetails), shortRows, longRows;
    }
    var longAnswers := DrawAnswers(store, filters, request.config.long, Long, userId);
    if longAnswers.None? {
      return Failure(500, SampleSizeError, NoDetails), shortRows, longRows;
    }
    var shortList, longList := shortAnswers.value, longAnswers.value;
    shortRows, longRows := shortList, longList;
    r := Respond(store, userId, user, file, request, now, shortList, longList);
  }

  /**
   * The last step of `generatePaper`: "no questions" when nothing was drawn, otherwise the
   * numbered answers and the paper's metadata.
   */
  function Respond(store: seq<Question>, userId: UserId, user: User, file: UploadedFile,
                   request: PaperRequest, now: string, shortList: seq<Question>, longList: seq<Question>)
    : (r: Response)
    requires forall q :: q in shortList ==> q in store && MatchesBase(q, BuildFilters(file, request, userId), Short, userId)
    requires forall q :: q in longList ==> q in store && MatchesBase(q, BuildFilters(file, request, userId), Long, userId)
    ensures shortList == [] && longList == [] ==> r == Failure(404, NoMatch, SampledCounts(0, 0))
    ensures r.Paper? <==> shortList != [] || longList != []
    ensures r.Paper? ==>
              && r.shortAnswers == Entries(shortList, Short)
              && r.longAnswers == Entries(longList, Long)
              && r.metadata.totalQuestions == |r.shortAnswers| + |r.longAnswers| > 0
              && r.metadata.fileId == request.fileId
              && r.metadata.filename == file.filename
              && r.metadata.subjectCode == request.subject
              && r.metadata.branch == request.branch && r.metadata.regulation == request.regulation
              && r.metadata.year == request.year && r.metadata.semester == request.semester
              && r.metadata.unit == request.unit
              && FindSubject(store, request.subject, userId).Some?
              && r.metadata.subject == FindSubject(store, request.subject, userId).value.subject
              && r.metadata.generatedBy == user.email
              && r.metadata.generatedAt == now
  {
    if |shortList| == 0 && |longList| == 0 then Failure(404, NoMatch, SampledCounts(0, 0))
    else
      // Every selected question has this subject code and uploader, so `findOne` finds one:
      // the "Subject not found" answer cannot be produced.
      var sampleRow := if |shortList| > 0 then shortList[0] else longList[0];
      assert sampleRow in store && sampleRow.subjectCode == request.subject && sampleRow.uploadedBy == userId by {
        var filters := BuildFilters(file, request, userId);
        assert filters.subjectCode == request.subject;
        if |shortList| > 0 {
          assert shortList[0] in shortList;
          assert MatchesBase(shortList[0], filters, Short, userId);
        } else {
          assert longList[0] in longList;
          assert MatchesBase(longList[0], filters, Long, userId);
        }
      }
      var subjectInfo := FindSubject(store, request.subject, userId);
      var shortEntries, longEntries := Entries(shortList, Short), Entries(longList, Long);
      var metadata := Metadata(
        request.fileId, file.filename, request.subject, subjectInfo.value.subject,
        request.branch, request.regulation, request.year, request.semester, request.unit,
        |shortEntries| + |longEntries|, user.email, now);
      Paper(metadata, shortEntries, longEntries)
  }

  /** `getRandomQuestionsWithConstraints` as the assembler relies on it. */
  method DrawAnswers(store: seq<Question>, filters: Filters, config: GenerationConfig, kind: Kind,
                     userId: UserId)
    returns (r: Option<seq<Question>>)
    requires WellFormed(config)
    ensures r.None? <==> RefusedSample(config)
    ensures r.Some? ==> |r.value| <= Planned(config)
    ensures r.Some? ==> forall x :: x in r.value ==> x in store && MatchesBase(x, filters, kind, userId)
  {
    ghost var trace;
    r, trace := SelectQuestions(store, filters, config, kind, userId);
  }
}
