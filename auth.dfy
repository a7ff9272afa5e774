/**
 * The account handlers of backend/controlllers/authController.js as transitions on the user
 * collection: registration, login, the e-mail verification OTP, the password-reset OTP and
 * the password change. Tokens, cookies and mail are not modelled; the clock is a parameter
 * and the OTP is chosen nondeterministically in its range.
 */
module Auth {
  import opened Wrappers
  import opened Models
  import Js

  /** The JSON body every handler answers with. `account` is the `user._id` it reports, if any. */
  datatype Reply = Reply(success: bool, message: string, requiresVerification: bool, account: Option<UserId>)

  function Ok(message: string): Reply { Reply(true, message, false, None) }
  function Refuse(message: string): Reply { Reply(false, message, false, None) }

  const AllFieldsRequired := "All fields are required"
  const ExistsUnverified := "User exists but not verified"
  const AlreadyExists := "User already exists. Please log in."
  const Registered := "Registration successful, please verify your email."
  const UnknownUser := "User doesn't exist"
  const InvalidPassword := "Invalid password"
  const VerificationRequired := "Email verification required"
  const LoggedIn := "Login successful"
  const AlreadyVerified := "Account already verified"
  const OtpSent := "OTP sent to your email"
  const InvalidOtp := "Invalid OTP"
  const OtpExpired := "OTP expired"
  const EmailVerified := "Email verified successfully"
  const EmailRequired := "Email is required"
  const UserNotFound := "User not found"
  const PasswordReset := "Password reset successfully"
  const WrongCurrentPassword := "Current password is incorrect"
  const PasswordUpdated := "Password updated successfully"
  /** The `TypeError` messages a missing user record raises; the catch block reports them. */
  const NoRecordVerified := "Cannot read properties of null (reading 'isAccountVerified')"
  const NoRecordOtp := "Cannot read properties of null (reading 'verifyOtp')"

  /** `24 * 60 * 60 * 1000` and `15 * 60 * 1000` milliseconds. */
  const VerifyOtpLifetime := 86400000
  const ResetOtpLifetime := 900000

  /** `Math.floor(100000 + Math.random() * 900000)` lies in this range. */
  predicate OtpCode(code: nat) {
    100000 <= code <= 999999
  }

  /** Every OTP is a string of exactly six decimal digits that reads back as its code. */
  lemma OtpIsSixDigits(code: nat)
    requires OtpCode(code)
    ensures |Js.NatToString(code)| == 6 && Js.AllDigits(Js.NatToString(code))
    ensures Js.DigitsValue(Js.NatToString(code), 10) == code
  {
    assert Js.Pow10(5) == 100000 && Js.Pow10(6) == 1000000;
    Js.NatToStringLength(code, 6);
    Js.DigitsValueOfNatToString(code);
  }

  // ---- The record transitions -------------------------------------------------------------

  /** `verifyEmail` on one record: the OTP must match and not have expired (`expireAt < now`). */
  function VerifyEmailStep(u: User, otp: Option<string>, now: int): (r: (Reply, User))
    ensures r.0.success <==> otp == Some(u.verifyOtp) && now <= u.verifyOtpExpireAt
    ensures !r.0.success ==> r.1 == u
    ensures !r.0.success ==> r.0 == Refuse(if otp != Some(u.verifyOtp) then InvalidOtp else OtpExpired)
    ensures r.0.success ==>
              r.0 == Ok(EmailVerified) && r.1 == u.(isAccountVerified := true, verifyOtp := "", verifyOtpExpireAt := 0)
  {
    if otp != Some(u.verifyOtp) then (Refuse(InvalidOtp), u)
    else if u.verifyOtpExpireAt < now then (Refuse(OtpExpired), u)
    else (Ok(EmailVerified), u.(isAccountVerified := true, verifyOtp := "", verifyOtpExpireAt := 0))
  }

  /** `resetPassword` on one record: a reset OTP must be pending, match, and not have expired. */
  function ResetPasswordStep(u: User, otp: string, newPassword: string, now: int): (r: (Reply, User))
    ensures r.0.success <==> u.resetOtp != "" && otp == u.resetOtp && now <= u.resetOtpExpireAt
    ensures !r.0.success ==> r.1 == u
    ensures !r.0.success ==>
              r.0 == Refuse(if u.resetOtp == "" || otp != u.resetOtp then InvalidOtp else OtpExpired)
    ensures r.0.success ==>
              r.0 == Ok(PasswordReset) && r.1 == u.(password := Hashed(newPassword), resetOtp := "", resetOtpExpireAt := 0)
  {
    if u.resetOtp == "" || u.resetOtp != otp then (Refuse(InvalidOtp), u)
    else if u.resetOtpExpireAt < now then (Refuse(OtpExpired), u)
    else (Ok(PasswordReset), u.(password := Hashed(newPassword), resetOtp := "", resetOtpExpireAt := 0))
  }

  /** `updatePassword` on one record: only the current password unlocks the change. */
  function UpdatePasswordStep(u: User, oldPassword: string, newPassword: string): (r: (Reply, User))
    ensures r.0.success <==> PasswordMatches(oldPassword, u.password)
    ensures !r.0.success ==> r == (Refuse(WrongCurrentPassword), u)
    ensures r.0.success ==> r == (Ok(PasswordUpdated), u.(password := Hashed(newPassword)))
  {
    if !PasswordMatches(oldPassword, u.password) then (Refuse(WrongCurrentPassword), u)
    else (Ok(PasswordUpdated), u.(password := Hashed(newPassword)))
  }

  // ---- Properties of the transitions ------------------------------------------------------

  /** The code mailed by `sendVerifyOtp` verifies the account until it expires, and only then. */
  lemma SentVerifyOtpVerifies(u: User, code: nat, sentAt: int, now: int)
    requires OtpCode(code)
    ensures var u' := u.(verifyOtp := Js.NatToString(code), verifyOtpExpireAt := sentAt + VerifyOtpLifetime);
            var (reply, after) := VerifyEmailStep(u', Some(Js.NatToString(code)), now);
            (reply.success <==> now <= sentAt + VerifyOtpLifetime)
            && (reply.success ==> after.isAccountVerified)
  {
  }

  /** Once verified, the cleared OTP with expiry 0 is refused at any positive clock. */
  lemma VerifiedOtpIsSpent(u: User, otp: Option<string>, now: int, otp': Option<string>, now': int)
    requires VerifyEmailStep(u, otp, now).0.success && now' > 0
    ensures var (reply, after) := VerifyEmailStep(VerifyEmailStep(u, otp, now).1, otp', now');
            !reply.success && after == VerifyEmailStep(u, otp, now).1
            && (otp' == Some("") ==> reply.message == OtpExpired)
  {
  }

  /** The code mailed by `sendResetOtp` resets the password until it expires, and only then. */
  lemma SentResetOtpResets(u: User, code: nat, sentAt: int, newPassword: string, now: int)
    requires OtpCode(code)
    ensures var u' := u.(resetOtp := Js.NatToString(code), resetOtpExpireAt := sentAt + ResetOtpLifetime);
            var (reply, after) := ResetPasswordStep(u', Js.NatToString(code), newPassword, now);
            (reply.success <==> now <= sentAt + ResetOtpLifetime)
            && (reply.success ==> PasswordMatches(newPassword, after.password))
  {
  }

  /** A reset OTP works once: after a reset every further attempt is refused as invalid. */
  lemma ResetOtpIsSingleUse(u: User, otp: string, pw: string, now: int, otp': string, pw': string, now': int)
    requires ResetPasswordStep(u, otp, pw, now).0.success
    ensures var (reply, after) := ResetPasswordStep(ResetPasswordStep(u, otp, pw, now).1, otp', pw', now');
            reply == Refuse(InvalidOtp) && after == ResetPasswordStep(u, otp, pw, now).1
  {
  }

  /** A record that never asked for an OTP cannot be verified with the empty code after time 0. */
  lemma FreshRecordNeverVerifies(name: string, email: string, pw: PasswordHash, otp: Option<string>, now: int)
    requires now > 0
    ensures !VerifyEmailStep(NewUser(name, email, pw), otp, now).0.success
  {
  }

  // ---- The handlers -----------------------------------------------------------------------

  /** `register`. */
  method Register(users: UserCollection, name: string, email: string, password: string)
    returns (r: Reply)
    modifies users
    requires users.Valid()
    ensures users.Valid()
    ensures name == "" || email == "" || password == "" ==>
              r == Refuse(AllFieldsRequired) && unchanged(users)
    ensures name != "" && email != "" && password != "" ==>
              match FindByEmail(old(users.users), email)
              case Some(id) =>
                unchanged(users)
                && r == (if old(users.users)[id].isAccountVerified then Refuse(AlreadyExists)
                         else Reply(true, ExistsUnverified, true, Some(id)))
              case None =>
                users.users == old(users.users) + [NewUser(name, email, Hashed(password))]
                && r == Reply(true, Registered, true, Some(|old(users.users)|))
  {
    if name == "" || email == "" || password == "" {
      return Refuse(AllFieldsRequired);
    }
    var existing := FindByEmail(users.users, email);
    if existing.Some? {
      if !users.users[existing.value].isAccountVerified {
        return Reply(true, ExistsUnverified, true, Some(existing.value));
      }
      return Refuse(AlreadyExists);
    }
    var id := users.Add(NewUser(name, email, Hashed(password)));
    return Reply(true, Registered, true, Some(id));
  }

  /** `login` changes nothing: it only answers. */
  method Login(users: seq<User>, email: string, password: string) returns (r: Reply)
    ensures email == "" || password == "" ==> r == Refuse(AllFieldsRequired)
    ensures email != "" && password != "" ==>
              match FindByEmail(users, email)
              case None => r == Refuse(UnknownUser)
              case Some(id) =>
                if !PasswordMatches(password, users[id].password) then r == Refuse(InvalidPassword)
                else if !users[id].isAccountVerified then r == Reply(true, VerificationRequired, true, Some(id))
                else r == Reply(true, LoggedIn, false, Some(id))
    ensures r.success && !r.requiresVerification ==>
              r.account.Some? && r.account.value < |users| && users[r.account.value].isAccountVerified
  {
    if email == "" || password == "" {
      return Refuse(AllFieldsRequired);
    }
    var user := FindByEmail(users, email);
    if user.None? {
      return Refuse(UnknownUser);
    }
    var id := user.value;
    if !PasswordMatches(password, users[id].password) {
      return Refuse(InvalidPassword);
    }
    if !users[id].isAccountVerified {
      return Reply(true, VerificationRequired, true, Some(id));
    }
    return Reply(true, LoggedIn, false, Some(id));
  }

  /** `sendVerifyOtp`: `sent` is the code put into the mail. */
  method SendVerifyOtp(users: UserCollection, userId: UserId, now: int) returns (r: Reply, sent: string)
    modifies users
    requires users.Valid()
    ensures users.Valid()
    ensures userId >= |old(users.users)| ==> r == Refuse(NoRecordVerified) && unchanged(users)
    ensures userId < |old(users.users)| && old(users.users)[userId].isAccountVerified ==>
              r == Refuse(AlreadyVerified) && unchanged(users)
    ensures userId < |old(users.users)| && !old(users.users)[userId].isAccountVerified ==>
              && r == Ok(OtpSent)
              && |sent| == 6 && Js.AllDigits(sent) && OtpCode(Js.DigitsValue(sent, 10))
              && users.users == old(users.users)[userId := old(users.users)[userId].(
                   verifyOtp := sent, verifyOtpExpireAt := now + VerifyOtpLifetime)]
  {
    sent := "";
    if userId >= |users.users| {
      return Refuse(NoRecordVerified), sent;
    }
    var user := users.users[userId];
    if user.isAccountVerified {
      return Refuse(AlreadyVerified), sent;
    }
    assert OtpCode(100000);
    var code: nat :| OtpCode(code);
    OtpIsSixDigits(code);
    sent := Js.NatToString(code);
    user := user.(verifyOtp := sent);
    user := user.(verifyOtpExpireAt := now + VerifyOtpLifetime);
    users.Replace(userId, user);
    r := Ok(OtpSent);
  }

  /** `verifyEmail`. `otp` is `None` when the request carries none. */
  method VerifyEmail(users: UserCollection, userId: UserId, otp: Option<string>, now: int) returns (r: Reply)
    modifies users
    requires users.Valid()
    ensures users.Valid()
    ensures userId >= |old(users.users)| ==> r == Refuse(NoRecordOtp) && unchanged(users)
    ensures userId < |old(users.users)| ==>
              |users.users| == |old(users.users)| && (r, users.users[userId]) == VerifyEmailStep(old(users.users)[userId], otp, now)
              && users.users == old(users.users)[userId := users.users[userId]]
  {
    if userId >= |users.users| {
      return Refuse(NoRecordOtp);
    }
    var user := users.users[userId];
    if Some(user.verifyOtp) != otp {
      return Refuse(InvalidOtp);
    }
    if user.verifyOtpExpireAt < now {
      return Refuse(OtpExpired);
    }
    user := user.(isAccountVerified := true);
    user := user.(verifyOtp := "");
    user := user.(verifyOtpExpireAt := 0);
    users.Replace(userId, user);
    r := Ok(EmailVerified);
  }

  /** `sendResetOtp`: `sent` is the code put into the mail. */
  method SendResetOtp(users: UserCollection, email: string, now: int) returns (r: Reply, sent: string)
    modifies users
    requires users.Valid()
    ensures users.Valid()
    ensures email == "" ==> r == Refuse(EmailRequired) && unchanged(users)
    ensures email != "" ==>
              match FindByEmail(old(users.users), email)
              case None => r == Refuse(UserNotFound) && unchanged(users)
              case Some(id) =>
                && r == Ok(OtpSent)
                && |sent| == 6 && Js.AllDigits(sent) && OtpCode(Js.DigitsValue(sent, 10))
                && users.users == old(users.users)[id := old(users.users)[id].(
                     resetOtp := sent, resetOtpExpireAt := now + ResetOtpLifetime)]
  {
    sent := "";
    if email == "" {
      return Refuse(EmailRequired), sent;
    }
    var found := FindByEmail(users.users, email);
    if found.None? {
      return Refuse(UserNotFound), sent;
    }
    var id := found.value;
    var user := users.users[id];
    assert OtpCode(100000);
    var code: nat :| OtpCode(code);
    OtpIsSixDigits(code);
    sent := Js.NatToString(code);
    user := user.(resetOtp := sent);
    user := user.(resetOtpExpireAt := now + ResetOtpLifetime);
    users.Replace(id, user);
    r := Ok(OtpSent);
  }

  /** `resetPassword`. */
  method ResetPassword(users: UserCollection, email: string, otp: string, newPassword: string, now: int)
    returns (r: Reply)
    modifies users
    requires users.Valid()
    ensures users.Valid()
    ensures email == "" || otp == "" || newPassword == "" ==> r == Refuse(AllFieldsRequired) && unchanged(users)
    ensures email != "" && otp != "" && newPassword != "" ==>
              match FindByEmail(old(users.users), email)
              case None => r == Refuse(UserNotFound) && unchanged(users)
              case Some(id) =>
                |users.users| == |old(users.users)| && (r, users.users[id]) == ResetPasswordStep(old(users.users)[id], otp, newPassword, now)
                && users.users == old(users.users)[id := users.users[id]]
  {
    if email == "" || otp == "" || newPassword == "" {
      return Refuse(AllFieldsRequired);
    }
    var found := FindByEmail(users.users, email);
    if found.None? {
      return Refuse(UserNotFound);
    }
    var id := found.value;
    var user := users.users[id];
    if user.resetOtp == "" || user.resetOtp != otp {
      return Refuse(InvalidOtp);
    }
    if user.resetOtpExpireAt < now {
      return Refuse(OtpExpired);
    }
    user := user.(password := Hashed(newPassword));
    user := user.(resetOtp := "");
    user := user.(resetOtpExpireAt := 0);
    users.Replace(id, user);
    r := Ok(PasswordReset);
  }

  /** `updatePassword` for the signed-in user. */
  method UpdatePassword(users: UserCollection, userId: UserId, oldPassword: string, newPassword: string)
    returns (r: Reply)
    modifies users
    requires users.Valid()
    ensures users.Valid()
    ensures oldPassword == "" || newPassword == "" ==> r == Refuse(AllFieldsRequired) && unchanged(users)
    ensures oldPassword != "" && newPassword != "" && userId >= |old(users.users)| ==>
              r == Refuse(UserNotFound) && unchanged(users)
    ensures oldPassword != "" && newPassword != "" && userId < |old(users.users)| ==>
              |users.users| == |old(users.users)| && (r, users.users[userId]) == UpdatePasswordStep(old(users.users)[userId], oldPassword, newPassword)
              && users.users == old(users.users)[userId := users.users[userId]]
  {
    if oldPassword == "" || newPassword == "" {
      return Refuse(AllFieldsRequired);
    }
    if userId >= |users.users| {
      return Refuse(UserNotFound);
    }
    var user := users.users[userId];
    if !PasswordMatches(oldPassword, user.password) {
      return Refuse(WrongCurrentPassword);
    }
    user := user.(password := Hashed(newPassword));
    users.Replace(userId, user);
    r := Ok(PasswordUpdated);
  }
}
