# Question-paper generator: a Dafny model

This project models the core of a question-paper generator. Teachers upload question banks
as Excel sheets and then generate papers of short- and long-answer questions, drawn at random
from their own bank. The generation can be shaped by Bloom's-taxonomy (BT) levels and by
syllabus units. The model covers:

- the backend controllers for paper generation and the subject catalogue
  (`generateController.js`), for spreadsheet upload (`uploadController.js`) and for accounts
  (`authController.js`);
- four front-end components: the generation form (`GeneratePaper.jsx`), the password-change
  form (`UpdatePassword.jsx`), the upload form (`FileUpload.jsx`), and the HTML stripping of the
  PDF view (`PaperPDF.jsx`).

Modules, one concern each:

- `Wrappers` (wrappers.dfy): `Option` and the pass/fail `Outcome`.
- `Js` (js.dfy): the JavaScript conversions the code relies on: `String(n)`, `parseInt` with
  its `0x` prefix and the full ECMAScript white-space set, `parseInt(x) || 0`, `Number(s)`,
  `trim`, `endsWith`, and `length` in UTF-16 code units.
- `Models` (models.dfy): the `Question` and `User` records, the users and questions
  collections as classes, and their `insertMany`, `deleteMany`, lookup and update.
- `ConfigValidation` (config_validation.dfy): the per-type generation configuration and the
  backend `validateConfig`.
- `Sampler` (sampler.dfy): `getQuestions` and its `$sample`, plus
  `getRandomQuestionsWithConstraints` with its three modes. The unit-wise mode keeps its greedy
  BT-level assignment and fallback scan.
- `PaperAssembler` (paper.dfy): `generatePaper`, with its guard chain, the pool check, the two
  selections and the numbered response.
- `SubjectCatalog` (catalogue.dfy): `getSubjectsByFile` and its `reduce` grouping by subject
  code.
- `Upload` (upload.dfy): `uploadQuestions`. It covers row normalisation, the required-header
  loop, and delete-then-insert with the `$push` of the new ids.
- `Auth` (auth.dfy): `register`, `login`, the two OTP senders, `verifyEmail`, `resetPassword`
  and `updatePassword`. Each record change is stated on its own as a pure transition, and each
  handler is a method over the users collection.
- `GenerateForm` (generate_form.dfy): the form's state handlers, its configuration building,
  its own `validateConfig`, `getUniqueValues` for the semester field, the subject filter and
  `handleSubmit`.
- `PasswordForm` (update_password.dfy), `UploadForm` (file_upload.dfy) and `HtmlText`
  (paper_pdf.dfy): the three smaller components.

Conventions:

- State the code changes in place is a class: the collections and the form components.
  Everything computed from values is a function.
- Loops that the code writes as loops are methods with invariants. These are the unit, level
  and fallback loops of the sampler, the header check, `insertMany`, the `reduce` of the
  catalogue and the level search.
- The following are parameters: a user's id (an index into the users collection, standing
  for the authenticated user the middleware supplies; see "## Left out" for `req.user`), the clock,
  and what a request sent by a component brings back. `$sample` and the OTP generator are
  nondeterministic choices.
- Password hashing is an injective tag `Hashed(password)`, so `bcrypt.compare` is equality
  with that tag.
- A JavaScript object with integer-like keys, such as `btLevelCounts` or `unitCounts`, is the
  sequence of its entries in property order. For such keys that order is ascending.

Where the code and its description disagree, the model follows the code. In particular:

- `validateConfig` throws inside the handler's `try`, so a bad configuration is a status 500
  carrying the thrown message.
- `generatePaper` passes `parseInt(semester)`, and `parseInt(unit)` when a unit is given, to the store unchecked. An empty or non-numeric value is NaN, which the store refuses to cast, so the answer is a status 500 and not "no questions found".
- A flat-mode configuration with a negative `totalCount` makes `$sample` refuse its size,
  which is also a status 500.
- The upload deletes the subject's old questions before `insertMany` can fail schema
  validation on an empty required field, so such a failure loses the old questions.
- A missing user record in `sendVerifyOtp` and `verifyEmail` is a `TypeError`, reported by the
  catch block with its own message.
- The file restriction `_id ∈ file.questions` reaches the pool check but never the sampled
  rows.
- In unit-wise mode, each unit replaces the outer `unit` filter instead of being combined
  with it.
- The upload form reads `response.questionsCount`, but the backend's reply names the field
  `count`. The success message therefore always says 0 questions were processed.

## Model

| member | source | states |
|---|---|---|
| `Js.NatToString` | backend/controlllers/authController.js:229 | `String(n)` of a non-negative integer is a non-empty run of decimal digits, one character long exactly when n < 10 |
| `Js.IntToString` | backend/controlllers/generateController.js:148-151 | `String(n)` is non-empty and starts with `-` exactly when n is negative |
| `Js.NaNWithoutDigits` | backend/controlllers/uploadController.js:42-48 | `parseInt` is NaN exactly when no digit of the chosen base follows the leading white space, the optional sign and the optional `0x` prefix |
| `Js.SplitRadix` | backend/controlllers/uploadController.js:42-48 | base 16 exactly when the text starts with `0x` or `0X`, which is then dropped; otherwise base 10 and the text unchanged |
| `Js.HexPrefixRead` | backend/controlllers/generateController.js:231 | after a `0x` or `0X` prefix, the longest run of hexadecimal digits is read in base 16 |
| `Js.TwoHexDigits` | backend/controlllers/generateController.js:231 | two hexadecimal digits are worth sixteen times the first plus the second |
| `Js.MinusNegates` | backend/controlllers/generateController.js:231 | a leading `-` negates the number that follows it, and NaN stays NaN |
| `Js.LeadingWhitespaceSkipped` | backend/controlllers/uploadController.js:42-48 | a leading ECMAScript white-space character does not change what `parseInt` reads |
| `Js.HexNumeralRead` | backend/controlllers/uploadController.js:42 | `parseInt("0x10")` is 16 |
| `Js.BarePrefixIsNaN` | backend/controlllers/uploadController.js:42 | `parseInt("0x")` is NaN |
| `Js.SignBeforePrefix` | backend/controlllers/generateController.js:231 | `parseInt("-0X1f")` is -31: the sign comes before the prefix |
| `Js.UnicodeSpaceSkipped` | backend/controlllers/uploadController.js:42 | `parseInt("\uFEFF7")` is 7: the byte-order mark counts as white space |
| `Js.ParseIntOrZero` | backend/controlllers/uploadController.js:42-48 | `parseInt(x) \|\| 0` is the parsed value, and 0 when the text is not a number |
| `Js.TrimStart` | backend/controlllers/generateController.js:231 | the result is a suffix of the text that does not start with ECMAScript white space (tab, vertical tab, form feed, space, no-break space, U+FEFF, the Unicode space separators, and the line terminators) |
| `Js.TrimStartRemovesWhitespace` | backend/controlllers/generateController.js:231 | everything removed before that suffix is white space |
| `Js.TrimEnd` | frontend/src/components/GeneratePaper.jsx:567-569 | the result is a prefix of the text that does not end in ECMAScript white space |
| `Js.TrimEndRemovesWhitespace` | frontend/src/components/GeneratePaper.jsx:567-569 | everything removed after that prefix is white space |
| `Js.DigitPrefixLength` | backend/controlllers/uploadController.js:42-48 | the prefix `parseInt` reads is all digits of the chosen base and is followed by the end or by a character that is not a digit of that base |
| `Js.DigitPrefixOfDigits` | backend/controlllers/uploadController.js:42-48 | a run of digits followed by the end or a non-digit is exactly the prefix read |
| `Js.IntToStringShape` | backend/controlllers/generateController.js:231 | `String(n)` has no white space to skip, an optional `-` and then decimal digits with no `0x` prefix |
| `Js.Utf16Length` | frontend/src/components/UpdatePassword.jsx:38 | `s.length` counts UTF-16 code units: at least one and at most two per character |
| `Js.Utf16LengthOfBasicPlane` | frontend/src/components/UpdatePassword.jsx:38 | a text with no character above U+FFFF has one code unit per character |
| `Js.ParseIntOfIntToString` | backend/controlllers/generateController.js:231 | `parseInt(String(n)) === n` for every integer n |
| `Js.ToNumberOfIntToString` | frontend/src/components/GeneratePaper.jsx:567-569 | `Number(String(n)) === n`, so a semester chosen from the list selects subjects with that semester |
| `Js.TrimOfIntToString` | frontend/src/components/GeneratePaper.jsx:567-569 | the decimal form of an integer has no white space to trim |
| `Js.NatToStringLength` | backend/controlllers/authController.js:229 | a number with k decimal digits prints as k characters |
| `Models.NewUser` | backend/controlllers/authController.js:69-75 | a registered record has the given name, email and hash, no OTPs, zero expiries, is unverified and owns nothing |
| `Models.FindById` | backend/controlllers/generateController.js:162 | `findById` finds a record exactly when the id is in the collection, and returns that record |
| `Models.FindByEmail` | backend/controlllers/authController.js:37 | `findOne({ email })` is empty exactly when no record has the email, otherwise it is the first record with it |
| `Models.FindFile` | backend/controlllers/generateController.js:194 | `uploadedFiles.id(fileId)` is empty exactly when no file has the id, otherwise a file with it |
| `Models.UserCollection.Add` | backend/controlllers/authController.js:69-75 | saving a new user appends it, keeps emails unique and returns its id |
| `Models.UserCollection.Replace` | backend/controlllers/authController.js:283-287 | `user.save()` replaces that one record and keeps emails unique |
| `Models.QuestionBank.DeleteMany` | backend/controlllers/uploadController.js:74 | exactly the questions with that subject code and uploader are removed, the rest keep their order |
| `Models.QuestionBank.InsertMany` | backend/controlllers/uploadController.js:77-80 | the batch is appended with fresh consecutive ids, and those ids are returned in batch order |
| `Models.KeepMembers` | backend/controlllers/uploadController.js:74 | a question survives the delete exactly when its subject code or its uploader differs |
| `Models.WithIds` | backend/controlllers/uploadController.js:77-80 | the i-th inserted question is the i-th row with id first + i |
| `ConfigValidation.ValidateConfig` | backend/controlllers/generateController.js:127-157 | BT-flat mode fails exactly when the BT sum differs from `totalCount`; unit-wise mode with BT fails exactly when the unit sum differs from the BT sum; every other mode passes; the message names the type and both totals |
| `ConfigValidation.UnitWiseIgnoresTotalCount` | backend/controlllers/generateController.js:140-156 | in unit-wise mode `totalCount` never affects the verdict |
| `Sampler.QueryForMeaning` | backend/controlllers/generateController.js:4-22 | a question matches exactly when the named fields agree, its text for the type is non-empty, the uploader is the user, and the unit and level agree when they are truthy |
| `Sampler.Matching` | backend/controlllers/generateController.js:25 | `$match` keeps exactly the stored questions that satisfy the query |
| `Sampler.Sample` | backend/controlllers/generateController.js:26 | `$sample` returns at most `size` distinct stored questions that match |
| `Sampler.Take` | backend/controlllers/generateController.js:120 | `slice(0, n)` is the first min(n, length) rows |
| `Sampler.GetQuestions` | backend/controlllers/generateController.js:4-28 | the store refuses exactly a negative count; otherwise the rows are a sample of size `count \|\| 100` of the query, at most `count` when it is positive |
| `Sampler.StringLeTotal` | backend/controlllers/generateController.js:40 | the string order `sort()` uses compares any two strings |
| `Sampler.InsertByDecimal` | backend/controlllers/generateController.js:40 | inserting one level keeps the list sorted by decimal string and adds exactly that element |
| `Sampler.SortByDecimal` | backend/controlllers/generateController.js:38-40 | `sort()` returns a list with the same elements and length, ordered by decimal string, without duplicates when there were none |
| `Sampler.Keys` | backend/controlllers/generateController.js:38 | `Object.keys` lists the entry keys in property order |
| `Sampler.AvailableLevels` | backend/controlllers/generateController.js:38-40 | the available levels are every key of `btLevelCounts`, including ones with count 0, each once |
| `Sampler.SingleDigitSortIsNumeric` | backend/controlllers/generateController.js:40 | for levels 1 to 9 the string order is the numeric order |
| `Sampler.TenSortsBeforeTwo` | backend/controlllers/generateController.js:40 | with levels 2 and 10, level 10 is tried first |
| `Sampler.FirstUnused` | backend/controlllers/generateController.js:50-56 | the scan finds a level of the list not yet used, or reports that all are used |
| `Sampler.FindUnusedLevel` | backend/controlllers/generateController.js:50-56 | the loop with `break` returns the first unused level in list order |
| `Sampler.Greedy` | backend/controlllers/generateController.js:47-63 | the greedy assignment gives one level choice per unit |
| `Sampler.GreedyClosedForm` | backend/controlllers/generateController.js:47-63 | the k-th unit gets the k-th available level, and `availableBtLevels[0]` once the list is used up |
| `Sampler.DrawUnit` | backend/controlllers/generateController.js:66-96 | a unit draws its assigned level first, then scans the fallback levels; it keeps at most `unitCount` rows of the last draw |
| `Sampler.ScanFallback` | backend/controlllers/generateController.js:81-95 | the fallback tries the other levels in list order, skipping the assigned one, and stops at the first non-empty draw; every earlier draw was empty, and an empty result means every level was tried |
| `Sampler.PositiveEntries` | backend/controlllers/generateController.js:43-44 | the entries with a positive count, exactly |
| `Sampler.PositiveEntriesAscending` | backend/controlllers/generateController.js:45 | the filtered units stay in ascending order, so the numeric sort leaves them as they are |
| `Sampler.DrawForUnit` | backend/controlllers/generateController.js:47-96 | one unit iteration marks its level used and draws at most `unitCount` rows, all of that unit and of the base query |
| `Sampler.UnitWiseSelect` | backend/controlllers/generateController.js:42-97 | the unit-wise rows are the units' draws in ascending unit order; there are at most the sum of the positive unit counts, and all are stored rows of the base query |
| `Sampler.ByLevelSelect` | backend/controlllers/generateController.js:99-111 | BT-flat mode skips counts ≤ 0 and concatenates one sample per remaining level; the rows are distinct, at most the sum of positive counts, and all are stored rows of the base query |
| `Sampler.TotalSelect` | backend/controlllers/generateController.js:112-121 | flat mode is one sample of `totalCount` rows without a level; the store refuses it exactly when `totalCount` is negative |
| `Sampler.SelectQuestions` | backend/controlllers/generateController.js:30-125 | the mode is chosen by `useUnitWise`, then `useBtLevels`; it fails only on a refused flat sample and returns at most the planned number of rows, all matching the base query |
| `PaperAssembler.BuildFilters` | backend/controlllers/generateController.js:225-239 | the filter object takes the file's question ids, the subject as subject code, the parsed semester and the user, and a unit exactly when one was given |
| `PaperAssembler.Pool` | backend/controlllers/generateController.js:245-247 | `Question.find(filters)` returns exactly the stored questions in the filter |
| `PaperAssembler.FindSubject` | backend/controlllers/generateController.js:326-329 | `findOne` finds a question of that subject code and user exactly when one exists |
| `PaperAssembler.Entries` | backend/controlllers/generateController.js:352-363 | the i-th entry is numbered i + 1 and carries the type's text, BT level and unit of the i-th row |
| `PaperAssembler.DrawAnswers` | backend/controlllers/generateController.js:301-312 | a selection fails only on a refused sample size, and has at most the planned rows, all matching the base query |
| `PaperAssembler.AssemblePaper` | backend/controlllers/generateController.js:225-366 | after the guards: a semester, or a given unit, that `parseInt` reads as NaN is refused by the store's number cast with status 500 and its message; otherwise an empty pool is 404, a refused sample is 500, both lists empty is 404, otherwise the numbered paper with `totalQuestions` = the two lengths |
| `PaperAssembler.Respond` | backend/controlllers/generateController.js:314-366 | both lists empty is 404; otherwise the numbered answers, and metadata that echoes the request's file, subject, branch, regulation, year, semester and unit, with the subject name found for that code and user |
| `PaperAssembler.CastError` | backend/controlllers/generateController.js:231-247 | the cast refusal names the `semester` path when the semester is NaN, and otherwise the `unit` path |
| `PaperAssembler.NaNFiltersRefused` | backend/controlllers/generateController.js:231-247 | an empty or non-numeric semester, or a non-numeric unit after a numeric semester, gets the 500 cast refusal rather than a 404 |
| `PaperAssembler.GeneratePaper` | backend/controlllers/generateController.js:159-374 | the guards run in order (401, 401, 400, 404, 400, 500, 500); no question is queried unless all pass; the subject-not-found branch is never taken |
| `SubjectCatalog.Dedup` | backend/controlllers/generateController.js:402-407 | a `Set` keeps each value once and holds exactly the values seen |
| `SubjectCatalog.FileQuestions` | backend/controlllers/generateController.js:392-394 | `find({ _id: { $in: file.questions } })` returns exactly the stored questions of the file |
| `SubjectCatalog.WithCodeMembers` | backend/controlllers/generateController.js:397-398 | a group holds exactly the questions with its subject code |
| `SubjectCatalog.SummaryAt` | backend/controlllers/generateController.js:396-418 | the k-th catalogue entry is the summary of the k-th distinct code |
| `SubjectCatalog.IndexOfCode` | backend/controlllers/generateController.js:398 | `acc[key]` finds the entry with the code, or reports that none has it |
| `SubjectCatalog.AddQuestion` | backend/controlllers/generateController.js:397-410 | one `reduce` step turns the catalogue of a prefix into the catalogue of the prefix extended by one question |
| `SubjectCatalog.GroupBySubject` | backend/controlllers/generateController.js:396-418 | the `reduce` and `Object.values` build exactly the catalogue of the questions, for subject codes that are not `Object.prototype` property names |
| `SubjectCatalog.CatalogueSnocSeen` | backend/controlllers/generateController.js:407-410 | a question with a known code adds its year and semester to that code's entry only |
| `SubjectCatalog.CatalogueSnocNew` | backend/controlllers/generateController.js:399-406 | a question with a new code appends a new entry built from it |
| `SubjectCatalog.CatalogueCodesDistinct` | backend/controlllers/generateController.js:396-418 | no subject code has two entries |
| `SubjectCatalog.CatalogueCoversQuestions` | backend/controlllers/generateController.js:396-418 | every question's code has an entry |
| `SubjectCatalog.CatalogueEntryHasQuestion` | backend/controlllers/generateController.js:396-418 | every entry's code belongs to some question |
| `SubjectCatalog.CatalogueEntry` | backend/controlllers/generateController.js:396-418 | an entry's names come from the first question with its code; its years and semesters are duplicate-free and are exactly the values of that code's questions |
| `SubjectCatalog.GetSubjectsByFile` | backend/controlllers/generateController.js:376-425 | a missing file id is 400 and an unknown file 404; otherwise the response is the catalogue of the file's questions |
| `Upload.TextField` | backend/controlllers/uploadController.js:37-46 | `String(row[h] \|\| "")` is empty for a missing cell or the number 0, the text itself for a text cell, and a numeral that reads back as the number otherwise |
| `Upload.NumberField` | backend/controlllers/uploadController.js:42-48 | `parseInt(row[h]) \|\| 0` is 0 for a missing cell, the number for a numeric cell and the parsed text otherwise |
| `Upload.Normalize` | backend/controlllers/uploadController.js:36-50 | each question field is read from its header, and `uploadedBy` is the user |
| `Upload.NormalizeAll` | backend/controlllers/uploadController.js:36-50 | one question per row, in row order |
| `Upload.NormalizedUploader` | backend/controlllers/uploadController.js:49 | every normalised row is owned by the uploading user |
| `Upload.AbsentMembers` | backend/controlllers/uploadController.js:53-63 | the missing headers are exactly the required headers the first row lacks |
| `Upload.AbsentIsSubsequence` | backend/controlllers/uploadController.js:58-63 | the missing headers are a subsequence of `requiredFields`: strictly increasing positions place each of them in that list, so they keep its order |
| `Upload.ReorderedIsNotEmbedded` | backend/controlllers/uploadController.js:58-63 | order matters: `["c", "b"]` is not a subsequence of `["a", "b", "c"]` |
| `Upload.MissingHeaders` | backend/controlllers/uploadController.js:58-63 | the loop pushes exactly the absent required headers, in order |
| `Upload.ReplaceSubject` | backend/controlllers/uploadController.js:72-90 | the questions of the first row's subject by this user are deleted; then either all rows are inserted and their ids appended to the user, or schema validation fails with the deletion done and the user unchanged |
| `Upload.UploadQuestions` | backend/controlllers/uploadController.js:5-98 | the guards run in order (401, 401, 400, 400, 400 with the missing headers) and change nothing; success reports the row count and replaces that subject's questions; for a verified user and a file whose header row is complete, the upload succeeds exactly when every normalised row passes the schema, and otherwise fails with status 500 and the schema error |
| `Upload.UploadKeepsOthers` | backend/controlllers/uploadController.js:74 | questions of other subjects or other users survive an upload |
| `Upload.UploadReplacesSubject` | backend/controlllers/uploadController.js:74 | no question of the uploaded subject by this user survives the delete |
| `Auth.OtpIsSixDigits` | backend/controlllers/authController.js:229 | every OTP prints as six digits that read back as the code |
| `Auth.VerifyEmailStep` | backend/controlllers/authController.js:267-287 | verification succeeds exactly on a matching, unexpired OTP and then sets verified with the OTP and expiry cleared; otherwise the record is unchanged and the reply says which check failed |
| `Auth.ResetPasswordStep` | backend/controlllers/authController.js:397-418 | a reset succeeds exactly on a non-empty, matching, unexpired reset OTP and then replaces the password and clears the OTP; otherwise nothing changes |
| `Auth.UpdatePasswordStep` | backend/controlllers/authController.js:523-534 | the password changes exactly when the old one matches; otherwise nothing changes |
| `Auth.SentVerifyOtpVerifies` | backend/controlllers/authController.js:229-231 | the mailed OTP verifies the account until its 24-hour expiry, and only then |
| `Auth.VerifiedOtpIsSpent` | backend/controlllers/authController.js:275-285 | after a verification, any later one at a positive clock fails and changes nothing; the spent empty OTP is reported as expired |
| `Auth.SentResetOtpResets` | backend/controlllers/authController.js:346-348 | the mailed reset OTP sets the new password until its 15-minute expiry, and only then |
| `Auth.ResetOtpIsSingleUse` | backend/controlllers/authController.js:413-418 | after a reset, any further reset is refused as an invalid OTP |
| `Auth.FreshRecordNeverVerifies` | backend/controlllers/authController.js:69-75 | a newly registered record cannot be verified before an OTP is sent |
| `Auth.Register` | backend/controlllers/authController.js:25-101 | empty fields are refused; an existing email is refused, or re-offered verification when it is unverified; otherwise the new user is appended |
| `Auth.Login` | backend/controlllers/authController.js:105-190 | refused on empty fields, an unknown email or a wrong password; an unverified user gets `requiresVerification`; only a verified user logs in |
| `Auth.SendVerifyOtp` | backend/controlllers/authController.js:216-256 | a verified user is refused; otherwise a six-digit OTP in [100000, 999999] is stored with a 24-hour expiry |
| `Auth.VerifyEmail` | backend/controlllers/authController.js:260-310 | the handler applies the verification transition to that one record |
| `Auth.SendResetOtp` | backend/controlllers/authController.js:326-373 | refused on an empty or unknown email; otherwise a six-digit reset OTP is stored with a 15-minute expiry |
| `Auth.ResetPassword` | backend/controlllers/authController.js:377-429 | refused on empty fields or an unknown email; otherwise the reset transition is applied to that record |
| `Auth.UpdatePassword` | backend/controlllers/authController.js:502-545 | refused on empty fields or a missing user; otherwise the update transition is applied to that record |
| `GenerateForm.Toggle` | frontend/src/components/GeneratePaper.jsx:128-133 | the toggle flips the given type's flag and leaves the other's |
| `GenerateForm.SetCount` | frontend/src/components/GeneratePaper.jsx:142-158 | only rows with the key change, to `parseInt(count) \|\| 0`; every row keeps its key |
| `GenerateForm.NonNumericCountIsZero` | frontend/src/components/GeneratePaper.jsx:145 | a count typed as non-numeric text becomes 0 |
| `GenerateForm.PositiveOnly` | frontend/src/components/GeneratePaper.jsx:231-236 | the configuration's counts are exactly the rows with a positive count |
| `GenerateForm.PositiveOnlyAscending` | frontend/src/components/GeneratePaper.jsx:231-236 | the filtered keys stay ascending, so the object keeps the rows' order |
| `GenerateForm.BuildConfig` | frontend/src/components/GeneratePaper.jsx:226-249 | `useUnitWise` holds exactly for mode `unitWise`; the flag and total are copied; the counts are the positive rows; the result is well formed |
| `GenerateForm.ClientValidate` | frontend/src/components/GeneratePaper.jsx:170-200 | the same verdicts as the backend rules, with the client's own messages naming the type and the totals |
| `GenerateForm.ClientAgreesWithServer` | frontend/src/components/GeneratePaper.jsx:170-200 | the client fails a configuration exactly when the backend `validateConfig` does |
| `GenerateForm.SetFilter` | frontend/src/components/GeneratePaper.jsx:114-119 | the named filter takes the value and the others are kept |
| `GenerateForm.SubjectOptions` | frontend/src/components/GeneratePaper.jsx:557-570 | a subject is offered exactly when every non-empty filter matches it |
| `GenerateForm.CatalogueEntryListed` | frontend/src/components/GeneratePaper.jsx:557-570 | for a catalogue entry: same branch and regulation, the year among its years, and the semester read by `Number()` among its semesters |
| `GenerateForm.NoFilterListsAll` | frontend/src/components/GeneratePaper.jsx:557-570 | with no filter set every subject is offered, in order |
| `GenerateForm.AsList` | frontend/src/components/GeneratePaper.jsx:161-163 | a scalar field counts as a one-element array |
| `GenerateForm.Semesters` | frontend/src/components/GeneratePaper.jsx:161-163 | the flattened semesters are exactly those of some subject |
| `GenerateForm.InsertUnique` | frontend/src/components/GeneratePaper.jsx:164-167 | inserting a value keeps the list strictly ascending and adds exactly that value |
| `GenerateForm.UniqueSorted` | frontend/src/components/GeneratePaper.jsx:164-167 | `new Set` then the numeric sort gives a strictly ascending list of exactly the values |
| `GenerateForm.UniqueSemesters` | frontend/src/components/GeneratePaper.jsx:160-168 | the semester drop-down lists each semester of some subject once, ascending |
| `GenerateForm.AscendingUnique` | frontend/src/components/GeneratePaper.jsx:164-167 | two strictly ascending lists with the same values are equal |
| `GenerateForm.UniqueSemestersOrderFree` | frontend/src/components/GeneratePaper.jsx:160-168 | the order in which subjects arrive does not change the semester list |
| `GenerateForm.GeneratePaperForm.constructor` | frontend/src/components/GeneratePaper.jsx:9-60 | the initial state: total mode, no BT levels, levels 1 to 4 and units 1 to 5 at count 0, empty filters |
| `GenerateForm.GeneratePaperForm.HandleFilterChange` | frontend/src/components/GeneratePaper.jsx:114-119 | only the named filter changes |
| `GenerateForm.GeneratePaperForm.HandleFileSelect` | frontend/src/components/GeneratePaper.jsx:459-461 | the question-bank select changes only the selected file |
| `GenerateForm.GeneratePaperForm.HandleModeChange` | frontend/src/components/GeneratePaper.jsx:121-126 | only the given type's mode changes |
| `GenerateForm.GeneratePaperForm.HandleBtLevelToggle` | frontend/src/components/GeneratePaper.jsx:128-133 | only the given type's BT flag flips |
| `GenerateForm.GeneratePaperForm.HandleTotalCountChange` | frontend/src/components/GeneratePaper.jsx:135-140 | only the given type's total changes, to `parseInt(count) \|\| 0` |
| `GenerateForm.GeneratePaperForm.HandleBTLevelChange` | frontend/src/components/GeneratePaper.jsx:142-149 | only the given type's row for that level changes; the rows stay well formed |
| `GenerateForm.GeneratePaperForm.HandleUnitCountChange` | frontend/src/components/GeneratePaper.jsx:151-158 | only the given type's row for that unit changes; the rows stay well formed |
| `GenerateForm.GeneratePaperForm.Config` | frontend/src/components/GeneratePaper.jsx:226-249 | the configuration built from a valid form state is well formed |
| `GenerateForm.GeneratePaperForm.HandleSubmit` | frontend/src/components/GeneratePaper.jsx:202-263 | checks run in order: logged in, verified, file selected, short valid, long valid; the first failure sets its error and sends nothing; a sent request carries the filters, file and both configurations, and passes the backend check |
| `PasswordForm.PasswordCheck` | frontend/src/components/UpdatePassword.jsx:27-41 | empty fields come first, then a mismatch, then the length rule; the form may send exactly when all three fields are filled, the new password equals the confirmation and is at least 6 UTF-16 code units long (`length`) |
| `PasswordForm.SentPasswordIsConfirmed` | frontend/src/components/UpdatePassword.jsx:33-41 | a sent new password is confirmed and at least six UTF-16 code units long; with no character above U+FFFF that is at least six characters |
| `PasswordForm.AstralCharactersCountTwice` | frontend/src/components/UpdatePassword.jsx:38 | three characters above U+FFFF are six code units, so `"😀😀😀"` passes the length rule |
| `PasswordForm.MismatchBeforeLength` | frontend/src/components/UpdatePassword.jsx:33-41 | a short mismatching password is reported as a mismatch |
| `PasswordForm.UpdatePasswordForm.constructor` | frontend/src/components/UpdatePassword.jsx:6-18 | empty fields, hidden passwords, no error, not editing |
| `PasswordForm.UpdatePasswordForm.StartEditing` | frontend/src/components/UpdatePassword.jsx:77 | "Change" turns editing on and changes nothing else |
| `PasswordForm.UpdatePasswordForm.Edit` | frontend/src/components/UpdatePassword.jsx:105 | an input changes only its own field |
| `PasswordForm.UpdatePasswordForm.TogglePassword` | frontend/src/components/UpdatePassword.jsx:20-25 | only the given visibility flag flips |
| `PasswordForm.UpdatePasswordForm.Cancel` | frontend/src/components/UpdatePassword.jsx:159-163 | cancel clears the fields and the error and leaves editing |
| `PasswordForm.UpdatePasswordForm.HandleUpdatePassword` | frontend/src/components/UpdatePassword.jsx:27-64 | a failed check shows its error and sends nothing; otherwise the old and new passwords are sent, success clears the fields and leaves editing, a refusal shows the server's message and a request error its own |
| `UploadForm.ExcelNamesAccepted` | frontend/src/components/FileUpload.jsx:26 | any name ending in `.xlsx` or `.xls` is accepted |
| `UploadForm.AcceptedNamesAreExcel` | frontend/src/components/FileUpload.jsx:26 | a name is accepted exactly when it ends in `.xlsx` or `.xls` |
| `UploadForm.ExcelMatchIsStrict` | frontend/src/components/FileUpload.jsx:26 | the match is case-sensitive and anchored at the end |
| `UploadForm.Join` | frontend/src/components/FileUpload.jsx:84 | joining no headers is empty and joining one is that header |
| `UploadForm.FileUploadForm.constructor` | frontend/src/components/FileUpload.jsx:7-9 | no file, no message, not loading |
| `UploadForm.FileUploadForm.HandleFileChange` | frontend/src/components/FileUpload.jsx:15-40 | the message is cleared first; an empty selection changes nothing else; a rejected name clears the file and sets the error; an accepted one is selected |
| `UploadForm.FileUploadForm.RemoveFile` | frontend/src/components/FileUpload.jsx:109-115 | the remove button clears the file and the message |
| `UploadForm.FileUploadForm.HandleUpload` | frontend/src/components/FileUpload.jsx:42-93 | checks run in order: logged in, verified, file present; the first failure sends nothing; success clears the file and shows the message for 0 processed questions whatever the backend's `count`; a failure lists the missing headers or shows the error |
| `UploadForm.ShownCountIsNotTheCount` | frontend/src/components/FileUpload.jsx:65 | the message shown differs from the one the backend's `count` would give whenever that count is not 0 |
| `HtmlText.AfterTag` | frontend/src/components/PaperPDF.jsx:59 | the text after a tag is a suffix of it |
| `HtmlText.StripHtml` | frontend/src/components/PaperPDF.jsx:58-60 | the output contains no `<` and is no longer than the input |
| `HtmlText.NoTagUnchanged` | frontend/src/components/PaperPDF.jsx:58-60 | a text with no `<` is returned unchanged |
| `HtmlText.UnchangedIffNoTag` | frontend/src/components/PaperPDF.jsx:58-60 | the text is returned unchanged exactly when it holds no `<` |
| `HtmlText.Idempotent` | frontend/src/components/PaperPDF.jsx:58-60 | stripping twice is stripping once |
| `HtmlText.PlainPrefixKept` | frontend/src/components/PaperPDF.jsx:59 | text before the first `<` is kept as it is |
| `HtmlText.TagBodySkipped` | frontend/src/components/PaperPDF.jsx:59 | a tag runs through the next `>`, or to the end when there is none |
| `HtmlText.ClosedTagRemoved` | frontend/src/components/PaperPDF.jsx:59 | a span `<`, non-`>` characters, `>` is removed and the text around it is kept |
| `HtmlText.UnclosedTagRemoved` | frontend/src/components/PaperPDF.jsx:59 | an unclosed `<` removes the rest of the text |
| `HtmlText.StripIsSubsequence` | frontend/src/components/PaperPDF.jsx:58-60 | the output is a subsequence of the input |

## Left out

- MongoDB itself: queries are functions over a sequence of stored questions in store order, and `$sample` is a nondeterministic choice. The `find` and `countDocuments` emptiness checks of `generatePaper` test the same filter, so they are one check.
- Randomness: the OTP is any code in [100000, 999999], and `Math.random` is not modelled as a float.
- The clock: `Date.now()` is a parameter, and `toISOString` is a string parameter.
- bcrypt, JWT, cookies, mail and the `userAuth` middleware. A hash is the tag `Hashed(password)`. Token issuing, cookie setting and mail sending are not modelled.
- `logout`, `isAuthenticated`, `getProfile` and `updateProfileName` are not part of this model.
- Spreadsheet parsing: the rows are given as maps from header to a text or integer cell. Boolean, date and fractional cells are not modelled.
- The error message of a Mongoose required-field validation failure is the constant `RecordRejected`, and a negative `$sample` size is the constant `SampleSizeError`. Both stand for the database's own wording.
- Object ids: users are positions in the users collection, and question ids are consecutive numbers from the bank's counter.
- BT levels and units are natural numbers, and a BT level key of 0 is not modelled.
- Sampler.SortByDecimal: `sort()` compares decimal strings. It is modelled for non-negative integer keys only.
- SubjectCatalog.GroupBySubject: entries are in first-seen order. `Object.values` would list integer-like subject codes (such as `"101"`) first, in ascending order; that is not modelled.
- SubjectCatalog.GroupBySubject: subject codes are assumed not to name an `Object.prototype` property such as `"constructor"`, `"toString"` or `"__proto__"`. For such a code, `acc[key]` is already truthy, `acc[key].year.add` throws, and `getSubjectsByFile` answers 500 "Failed to fetch subjects". The model instead starts a fresh entry and returns the catalogue.
- SubjectCatalog.GetSubjectsByFile: its answer is the catalogue built by `GroupBySubject`, so it has both gaps above. Its entries come in first-seen order, and a subject code that names an `Object.prototype` property gets a fresh entry where the code answers 500 "Failed to fetch subjects".
- GenerateForm.UniqueSemesters: `getUniqueValues` is modelled for the numeric semester field only. The `localeCompare` branch used for branch, regulation and year is not modelled.
- GenerateForm.GeneratePaperForm.HandleSubmit: `generatePaper`'s reply is not modelled. This covers the "No response" and "No questions were generated" errors, `setQuestions`, the `Details:` suffix and the `loading` reset in `finally`, so `loading` stays set once a request is sent.
- The fetch effects of GeneratePaper.jsx (`fetchUploadedFiles`, `fetchSubjects`), the collapsible sections and the PDF rendering are not modelled.
- UploadForm.FileUploadForm.HandleUpload: `userData` from AppContext.jsx is given through `verified`. Its value `false` (the logged-out default) and a record that is not verified are both `Some(false)`, because `isAccountVerified` then reads as undefined or false. A verified record is `Some(true)`. An `undefined` `userData`, stored when the profile request answers "user not found", is `None`, and the handler then throws. `uploadFile` in AppContext.jsx is not part of this model. Its outcome is a parameter: the backend's reply with its `message` and `count`, or an error message with the missing headers. `fileInputRef` and the toasts' styling are not modelled.
- PasswordForm.UpdatePasswordForm.HandleUpdatePassword: the `onSuccess` callback is not modelled, and neither is the HTTP layer. The server's reply is a parameter.
- Js.ParseInt: the value is an unbounded integer, so digits past 2^53 lose no precision, and `"-0"` is 0 rather than -0.
- Js.ToNumber: `Number(s)` is modelled for decimal integer numerals only. Fractions, exponents, `Infinity` and the `0x`, `0o` and `0b` prefixes are not modelled.
- The `details: error.stack` of `generatePaper`'s status 500 reply is not modelled: a stack trace is not part of the model.
- PaperAssembler.GeneratePaper, SubjectCatalog.GetSubjectsByFile, Auth.UpdatePassword: their `userId` parameter stands for `req.user._id` (generateController.js:161 and :378) and `req.user.id` (authController.js:504). The only authentication middleware in the repository, `userAuth` (middleware/userAuth.js:19), sets `req.body.userId` and not `req.user`. As written, the three handlers therefore read a field of `undefined` and throw before their first guard. `generatePaper` and `getSubjectsByFile` then answer 500, and `updatePassword` answers `success: false` with the TypeError's message. The model assumes that some middleware not shown sets `req.user` to the logged-in user.
- Js.NatToString, Js.IntToString: `String(n)` is modelled for exact integers, with every digit written out. For a magnitude of 1e21 or more, JavaScript writes an exponent form such as `1e+21`, and above 2^53 a JavaScript number does not hold the integer exactly. Neither is modelled.
- React rendering, routing, navigation and the other components and pages are not modelled.
