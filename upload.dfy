/**
 * `uploadQuestions` in backend/controlllers/uploadController.js: the guards, the normalisation
 * of spreadsheet rows into question records, the required-header check on the first row, and
 * the replace-by-subject-code update of the question store and of the uploader's record.
 */
module Upload {
  import opened Wrappers
  import opened Models
  import Js

  /** A spreadsheet cell as `sheet_to_json` gives it: a string or a whole number. */
  datatype Cell = Text(text: string) | Number(number: int)

  /** A parsed row: header to cell. Blank cells have no key. */
  type Row = map<string, Cell>

  datatype UploadResponse =
    | Uploaded(message: string, count: nat)
    | UploadFailure(status: nat, error: string, missingHeaders: seq<string>)

  const UserNotFound := "User not found. Please log in again."
  const NotVerified := "Please verify your account before uploading files."
  const FileRequired := "File is required"
  const EmptySheet := "Excel file is empty"
  const MissingHeadersError := "Excel file is missing required headers"
  const UploadedMessage := "Questions uploaded successfully!"
  /** Stands for the message of the schema's validation error; its wording is not modelled. */
  const RecordRejected := "Question validation failed"

  /** `String(row[header] || "")`: a blank cell, `""` and `0` all give `""`. */
  function TextField(row: Row, header: string): (s: string)
    ensures header !in row ==> s == ""
    ensures header in row && row[header].Text? ==> s == row[header].text
    ensures header in row && row[header] == Number(0) ==> s == ""
    ensures header in row && row[header].Number? && row[header].number != 0 ==>
              Js.ToNumber(s) == Some(row[header].number)
  {
    if header !in row then ""
    else match row[header]
      case Text(t) => t
      case Number(n) => if n == 0 then "" else Js.ToNumberOfIntToString(n); Js.IntToString(n)
  }

  /** `parseInt(row[header]) || 0`: a blank cell or an unparseable one gives 0. */
  function NumberField(row: Row, header: string): (n: int)
    ensures header !in row ==> n == 0
    ensures header in row && row[header].Text? ==> n == Js.ParseIntOrZero(row[header].text)
    ensures header in row && row[header].Number? ==> n == row[header].number
  {
    if header !in row then 0
    else match row[header]
      case Text(t) => Js.ParseIntOrZero(t)
      case Number(m) => Js.ParseIntOfIntToString(m); Js.ParseIntOrZero(Js.IntToString(m))
  }

  /** The record one row becomes (its id is given by the store on insertion). */
  function Normalize(row: Row, userId: UserId): (q: Question)
    ensures q.uploadedBy == userId && q.id == 0
    ensures q.subjectCode == TextField(row, "Subject Code") && q.subject == TextField(row, "Subject")
    ensures q.branch == TextField(row, "Branch") && q.regulation == TextField(row, "Regulation")
    ensures q.year == TextField(row, "Year") && q.examMonth == TextField(row, "Month")
    ensures q.shortQuestion == TextField(row, "Short Questions")
    ensures q.longQuestion == TextField(row, "Long Questions")
    ensures q.semester == NumberField(row, "Sem") && q.serialNo == NumberField(row, "S.No.")
    ensures q.unit == NumberField(row, "Unit") && q.btLevel == NumberField(row, "B.T Level")
  {
    Question(
      0,
      TextField(row, "Subject Code"),
      TextField(row, "Subject"),
      TextField(row, "Branch"),
      TextField(row, "Regulation"),
      TextField(row, "Year"),
      NumberField(row, "Sem"),
      TextField(row, "Month"),
      NumberField(row, "S.No."),
      TextField(row, "Short Questions"),
      TextField(row, "Long Questions"),
      NumberField(row, "Unit"),
      NumberField(row, "B.T Level"),
      userId)
  }

  /** `data.map(row => ...)`. */
  function NormalizeAll(rows: seq<Row>, userId: UserId): (qs: seq<Question>)
    ensures |qs| == |rows|
    ensures forall i :: 0 <= i < |rows| ==> qs[i] == Normalize(rows[i], userId)
  {
    if rows == [] then [] else [Normalize(rows[0], userId)] + NormalizeAll(rows[1..], userId)
  }

  /** Every normalised row is filed under the uploader, whatever the sheet says. */
  lemma NormalizedUploader(rows: seq<Row>, userId: UserId)
    ensures forall q :: q in NormalizeAll(rows, userId) ==> q.uploadedBy == userId
  {
  }

  const RequiredFields: seq<string> :=
    ["Subject Code", "Subject", "Branch", "Regulation", "Year", "Sem", "Month", "Unit", "B.T Level"]

  /** The headers of `fields` that `row` lacks, in `fields` order. */
  function Absent(fields: seq<string>, row: Row): seq<string> {
    if fields == [] then []
    else Absent(fields[..|fields| - 1], row)
         + (if fields[|fields| - 1] in row then [] else [fields[|fields| - 1]])
  }

  /** A header is reported exactly when it is required and the row lacks it. */
  lemma {:induction false} AbsentMembers(fields: seq<string>, row: Row)
    ensures forall h :: h in Absent(fields, row) <==> h in fields && h !in row
  {
    if fields != [] {
      var init := fields[..|fields| - 1];
      AbsentMembers(init, row);
      assert fields == init + [fields[|fields| - 1]];
    }
  }

  /** `p` places each element of `a` at a position of `b`, and the positions strictly increase. */
  predicate Embeds(p: seq<nat>, a: seq<string>, b: seq<string>) {
    && |p| == |a|
    && (forall i :: 0 <= i < |p| ==> p[i] < |b| && a[i] == b[p[i]])
    && (forall i, k :: 0 <= i < k < |p| ==> p[i] < p[k])
  }

  /** The reported headers are a subsequence of `fields`: they keep the required-fields order. */
  lemma {:induction false} AbsentIsSubsequence(fields: seq<string>, row: Row)
    ensures |Absent(fields, row)| <= |fields|
    ensures exists p: seq<nat> :: Embeds(p, Absent(fields, row), fields)
  {
    if fields == [] {
      assert Embeds([], [], fields);
    } else {
      var init := fields[..|fields| - 1];
      var last := fields[|fields| - 1];
      AbsentIsSubsequence(init, row);
      var a := Absent(init, row);
      var p: seq<nat> :| Embeds(p, a, init);
      assert forall i :: 0 <= i < |p| ==> fields[p[i]] == init[p[i]];
      if last in row {
        assert Embeds(p, Absent(fields, row), fields);
      } else {
        var q: seq<nat> := p + [|fields| - 1];
        assert Absent(fields, row) == a + [last];
        assert Embeds(q, Absent(fields, row), fields);
      }
    }
  }

  /** Order counts: `["c", "b"]` is not a subsequence of `["a", "b", "c"]`. */
  lemma ReorderedIsNotEmbedded(p: seq<nat>)
    ensures !Embeds(p, ["c", "b"], ["a", "b", "c"])
  {
    var a, b := ["c", "b"], ["a", "b", "c"];
    if |p| == 2 && p[0] < 3 && p[1] < 3 {
      assert a[0] == b[p[0]] ==> p[0] == 2;
      assert a[1] == b[p[1]] ==> p[1] == 1;
    }
  }

  /** The `for (const field of requiredFields)` loop over the first row. */
  method MissingHeaders(first: Row) returns (missing: seq<string>)
    ensures missing == Absent(RequiredFields, first)
  {
    missing := [];
    for i := 0 to |RequiredFields|
      invariant missing == Absent(RequiredFields[..i], first)
    {
      assert RequiredFields[..i + 1][..i] == RequiredFields[..i];
      if RequiredFields[i] !in first {
        missing := missing + [RequiredFields[i]];
      }
    }
    assert RequiredFields[..|RequiredFields|] == RequiredFields;
  }

  /** The schema's `required` string fields are non-empty (`shortQuestion` and `longQuestion` are optional). */
  predicate SchemaValid(q: Question) {
    q.subjectCode != "" && q.subject != "" && q.branch != "" && q.regulation != ""
    && q.year != "" && q.examMonth != ""
  }

  /**
   * `uploadQuestions`. `file` is `req.file` after `xlsx` has parsed its first sheet. The
   * store rejects an `insertMany` batch with a record that breaks the schema as a whole, after
   * the `deleteMany` has already run.
   */
  method UploadQuestions(users: UserCollection, bank: QuestionBank, userId: UserId, file: Option<seq<Row>>)
    returns (r: UploadResponse)
    modifies users, bank
    requires users.Valid() && bank.Valid()
    ensures users.Valid() && bank.Valid()
    ensures userId >= |old(users.users)| ==> r == UploadFailure(401, UserNotFound, [])
    ensures userId < |old(users.users)| && !old(users.users)[userId].isAccountVerified ==>
              r == UploadFailure(401, NotVerified, [])
    ensures userId < |old(users.users)| && old(users.users)[userId].isAccountVerified ==>
              (file.None? ==> r == UploadFailure(400, FileRequired, []))
              && (file == Some([]) ==> r == UploadFailure(400, EmptySheet, []))
              && (file.Some? && file.value != [] && Absent(RequiredFields, file.value[0]) != [] ==>
                    r == UploadFailure(400, MissingHeadersError, Absent(RequiredFields, file.value[0])))
    ensures userId < |old(users.users)| && old(users.users)[userId].isAccountVerified
            && file.Some? && file.value != [] && Absent(RequiredFields, file.value[0]) == [] ==>
              && (r.Uploaded? <==> forall q :: q in NormalizeAll(file.value, userId) ==> SchemaValid(q))
              && (r.UploadFailure? ==> r == UploadFailure(500, RecordRejected, []))
    ensures r.UploadFailure? && r.status != 500 ==> unchanged(users, bank)
    ensures r.UploadFailure? && r.status == 500 ==>
              && file.Some? && file.value != [] && userId < |old(users.users)|
              && Absent(RequiredFields, file.value[0]) == []
              && unchanged(users)
              && Rejected(old(bank.questions), old(bank.nextId), bank.questions, bank.nextId,
                          userId, NormalizeAll(file.value, userId), r)
    ensures r.Uploaded? ==>
              && file.Some? && file.value != [] && userId < |old(users.users)|
              && old(users.users)[userId].isAccountVerified
              && Absent(RequiredFields, file.value[0]) == []
              && Stored(old(bank.questions), old(bank.nextId), old(users.users),
                        bank.questions, bank.nextId, users.users, userId, NormalizeAll(file.value, userId), r)
  {
    var user := FindById(users.users, userId);
    if user.None? {
      return UploadFailure(401, UserNotFound, []);
    }
    if !user.value.isAccountVerified {
      return UploadFailure(401, NotVerified, []);
    }
    if file.None? {
      return UploadFailure(400, FileRequired, []);
    }
    var rows := file.value;
    if |rows| == 0 {
      return UploadFailure(400, EmptySheet, []);
    }
    var questions := NormalizeAll(rows, userId);
    var missing := MissingHeaders(rows[0]);
    if |missing| > 0 {
      return UploadFailure(400, MissingHeadersError, missing);
    }
    r := ReplaceSubject(users, bank, userId, questions);
  }

  /**
   * The delete-then-insert outcome: the uploader's old questions of the first row's subject code
   * are gone, the batch follows with fresh ids, and the ids are appended to the uploader's list.
   */
  ghost predicate Stored(before: seq<Question>, nextBefore: QuestionId, usersBefore: seq<User>,
                         after: seq<Question>, nextAfter: QuestionId, usersAfter: seq<User>,
                         userId: UserId, batch: seq<Question>, r: UploadResponse)
  {
    && batch != [] && userId < |usersBefore|
    && r == Uploaded(UploadedMessage, |batch|)
    && (forall q :: q in batch ==> SchemaValid(q))
    && nextAfter == nextBefore + |batch|
    && after == Keep(before, batch[0].subjectCode, userId) + WithIds(batch, nextBefore)
    && var user := usersBefore[userId];
       usersAfter == usersBefore[userId := user.(uploadedQuestions :=
                       user.uploadedQuestions + seq(|batch|, i => nextBefore + i))]
  }

  /** The schema rejects the batch: the deletion has happened and nothing is inserted. */
  ghost predicate Rejected(before: seq<Question>, nextBefore: QuestionId,
                           after: seq<Question>, nextAfter: QuestionId,
                           userId: UserId, batch: seq<Question>, r: UploadResponse)
  {
    && batch != []
    && r == UploadFailure(500, RecordRejected, [])
    && (exists q :: q in batch && !SchemaValid(q))
    && nextAfter == nextBefore
    && after == Keep(before, batch[0].subjectCode, userId)
  }

  /** `deleteMany`, `insertMany` and the `$push` onto the uploader's `uploadedQuestions`. */
  method ReplaceSubject(users: UserCollection, bank: QuestionBank, userId: UserId, batch: seq<Question>)
    returns (r: UploadResponse)
    modifies users, bank
    requires users.Valid() && bank.Valid() && userId < |users.users| && batch != []
    ensures users.Valid() && bank.Valid()
    ensures r.Uploaded? || r.UploadFailure?
    ensures r.UploadFailure? ==>
              unchanged(users) && Rejected(old(bank.questions), old(bank.nextId), bank.questions, bank.nextId, userId, batch, r)
    ensures r.Uploaded? ==>
              Stored(old(bank.questions), old(bank.nextId), old(users.users),
                     bank.questions, bank.nextId, users.users, userId, batch, r)
  {
    var user := users.users[userId];
    bank.DeleteMany(batch[0].subjectCode, userId);
    if exists q :: q in batch && !SchemaValid(q) {
      return UploadFailure(500, RecordRejected, []);
    }
    var ids := bank.InsertMany(batch);
    assert ids == seq(|batch|, i => old(bank.nextId) + i);
    users.Replace(userId, user.(uploadedQuestions := user.uploadedQuestions + ids));
    return Uploaded(UploadedMessage, |batch|);
  }

  /** A question of another subject, or of another uploader, survives any upload. */
  lemma UploadKeepsOthers(qs: seq<Question>, subjectCode: string, userId: UserId, q: Question)
    requires q in qs && (q.subjectCode != subjectCode || q.uploadedBy != userId)
    ensures q in Keep(qs, subjectCode, userId)
  {
    KeepMembers(qs, subjectCode, userId);
  }

  /** Nothing of the uploader's old questions for the replaced subject survives. */
  lemma UploadReplacesSubject(qs: seq<Question>, subjectCode: string, userId: UserId)
    ensures forall q :: q in Keep(qs, subjectCode, userId) ==>
              q.subjectCode != subjectCode || q.uploadedBy != userId
  {
    KeepMembers(qs, subjectCode, userId);
  }
}
