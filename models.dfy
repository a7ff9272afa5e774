/**
 * The persisted records (backend/models/Question.js and backend/models/userModel.js) and the
 * two collections holding them. A user's id is its position in the user collection; a
 * question's id is drawn from a counter when it is inserted.
 */
module Models {
  import opened Wrappers

  type UserId = nat
  type QuestionId = nat

  /** A question record. `examMonth` and `serialNo` are provenance only. */
  datatype Question = Question(
    id: QuestionId,
    subjectCode: string,
    subject: string,
    branch: string,
    regulation: string,
    year: string,
    semester: int,
    examMonth: string,
    serialNo: int,
    shortQuestion: string,
    longQuestion: string,
    unit: int,
    btLevel: int,
    uploadedBy: UserId)

  /** An entry of a user's `uploadedFiles` list: a named batch of question ids. */
  datatype UploadedFile = UploadedFile(id: string, filename: string, questions: seq<QuestionId>)

  /** A stored password. Hashing is modelled as an injective tag: no salt, no cost factor. */
  datatype PasswordHash = Hashed(secret: string)

  /** `bcrypt.compare(candidate, hash)`. */
  predicate PasswordMatches(candidate: string, hash: PasswordHash) {
    hash == Hashed(candidate)
  }

  datatype User = User(
    name: string,
    email: string,
    password: PasswordHash,
    verifyOtp: string,
    verifyOtpExpireAt: int,
    isAccountVerified: bool,
    resetOtp: string,
    resetOtpExpireAt: int,
    uploadedQuestions: seq<QuestionId>,
    uploadedFiles: seq<UploadedFile>)

  /** `new userModel({ name, email, password })`: every other field takes its schema default. */
  function NewUser(name: string, email: string, password: PasswordHash): (u: User)
    ensures u.name == name && u.email == email && u.password == password
    ensures u.verifyOtp == "" && u.verifyOtpExpireAt == 0 && !u.isAccountVerified
    ensures u.resetOtp == "" && u.resetOtpExpireAt == 0
    ensures u.uploadedQuestions == [] && u.uploadedFiles == []
  {
    User(name, email, password, "", 0, false, "", 0, [], [])
  }

  /** `userModel.findById(id)`. */
  function FindById(users: seq<User>, id: UserId): (r: Option<User>)
    ensures r.Some? <==> id < |users|
    ensures r.Some? ==> r.value == users[id]
  {
    if id < |users| then Some(users[id]) else None
  }

  /** `userModel.findOne({ email })`: the first user with that email. */
  function FindByEmail(users: seq<User>, email: string): (r: Option<UserId>)
    ensures r.None? <==> forall i :: 0 <= i < |users| ==> users[i].email != email
    ensures r.Some? ==> r.value < |users| && users[r.value].email == email
    ensures r.Some? ==> forall i :: 0 <= i < r.value ==> users[i].email != email
  {
    if users == [] then None
    else if users[0].email == email then Some(0)
    else
      match FindByEmail(users[1..], email)
      case None => None
      case Some(i) => Some(i + 1)
  }

  /** `user.uploadedFiles.id(fileId)`: the first file with that id. */
  function FindFile(files: seq<UploadedFile>, id: string): (r: Option<UploadedFile>)
    ensures r.None? <==> forall i :: 0 <= i < |files| ==> files[i].id != id
    ensures r.Some? ==> r.value in files && r.value.id == id
  {
    if files == [] then None
    else if files[0].id == id then Some(files[0])
    else FindFile(files[1..], id)
  }

  /** The `email` field is declared `unique`. */
  ghost predicate EmailsUnique(users: seq<User>) {
    forall i, j :: 0 <= i < j < |users| ==> users[i].email != users[j].email
  }

  /** The `users` collection. */
  class UserCollection {
    var users: seq<User>

    ghost predicate Valid()
      reads this
    {
      EmailsUnique(users)
    }

    constructor ()
      ensures Valid() && users == []
    {
      users := [];
    }

    /** `new userModel(...).save()` for an email not yet taken. */
    method Add(u: User) returns (id: UserId)
      modifies this
      requires Valid() && FindByEmail(users, u.email).None?
      ensures Valid() && users == old(users) + [u] && id == |old(users)|
    {
      id := |users|;
      users := users + [u];
    }

    /** `user.save()` after changing fields other than `email`. */
    method Replace(id: UserId, u: User)
      modifies this
      requires Valid() && id < |users| && u.email == users[id].email
      ensures Valid() && users == old(users)[id := u]
    {
      users := users[id := u];
    }
  }

  /** The `questions` collection and the counter that hands out fresh ids. */
  class QuestionBank {
    var questions: seq<Question>
    var nextId: QuestionId

    ghost predicate Valid()
      reads this
    {
      forall i :: 0 <= i < |questions| ==> questions[i].id < nextId
    }

    constructor ()
      ensures Valid() && questions == [] && nextId == 0
    {
      questions, nextId := [], 0;
    }

    /** `Question.deleteMany({ subjectCode, uploadedBy })`. */
    method DeleteMany(subjectCode: string, uploader: UserId)
      modifies this
      requires Valid()
      ensures Valid() && nextId == old(nextId)
      ensures questions == Keep(old(questions), subjectCode, uploader)
    {
      KeepMembers(questions, subjectCode, uploader);
      questions := Keep(questions, subjectCode, uploader);
    }

    /** `Question.insertMany(batch)`: each record gets the next fresh id, in batch order. */
    method InsertMany(batch: seq<Question>) returns (ids: seq<QuestionId>)
      modifies this
      requires Valid()
      ensures Valid()
      ensures nextId == old(nextId) + |batch|
      ensures |ids| == |batch| && forall i :: 0 <= i < |batch| ==> ids[i] == old(nextId) + i
      ensures questions == old(questions) + WithIds(batch, old(nextId))
    {
      ids := [];
      ghost var start := questions;
      for i := 0 to |batch|
        invariant Valid() && nextId == old(nextId) + i
        invariant |ids| == i && forall k :: 0 <= k < i ==> ids[k] == old(nextId) + k
        invariant questions == start + WithIds(batch[..i], old(nextId))
      {
        assert batch[..i + 1] == batch[..i] + [batch[i]];
        WithIdsSnoc(batch[..i], batch[i], old(nextId));
        questions := questions + [batch[i].(id := nextId)];
        ids := ids + [nextId];
        nextId := nextId + 1;
      }
      assert batch[..|batch|] == batch;
    }
  }

  /** The records `deleteMany({ subjectCode, uploadedBy })` leaves, in order. */
  function Keep(qs: seq<Question>, subjectCode: string, uploader: UserId): seq<Question> {
    if qs == [] then []
    else (if qs[0].subjectCode == subjectCode && qs[0].uploadedBy == uploader then [] else [qs[0]])
         + Keep(qs[1..], subjectCode, uploader)
  }

  /** Exactly the records of another subject or another uploader survive. */
  lemma {:induction false} KeepMembers(qs: seq<Question>, subjectCode: string, uploader: UserId)
    ensures forall q :: q in Keep(qs, subjectCode, uploader) <==>
              q in qs && (q.subjectCode != subjectCode || q.uploadedBy != uploader)
  {
    if qs != [] {
      KeepMembers(qs[1..], subjectCode, uploader);
      assert qs == [qs[0]] + qs[1..];
    }
  }

  /** The batch with ids `first`, `first + 1`, ... */
  function WithIds(batch: seq<Question>, first: QuestionId): (r: seq<Question>)
    ensures |r| == |batch|
    ensures forall i :: 0 <= i < |batch| ==> r[i] == batch[i].(id := first + i)
  {
    if batch == [] then [] else [batch[0].(id := first)] + WithIds(batch[1..], first + 1)
  }

  lemma WithIdsSnoc(batch: seq<Question>, q: Question, first: QuestionId)
    ensures WithIds(batch + [q], first) == WithIds(batch, first) + [q.(id := first + |batch|)]
  {
    var r, s := WithIds(batch + [q], first), WithIds(batch, first) + [q.(id := first + |batch|)];
    assert |r| == |s|;
    forall i | 0 <= i < |r| ensures r[i] == s[i] {
      if i < |batch| {
        assert (batch + [q])[i] == batch[i];
      }
    }
  }
}
