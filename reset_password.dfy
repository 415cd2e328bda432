/**
 * The password-reset code lifecycle (app/api/auth/reset-password/route.ts):
 * POST issues a six-digit code valid for fifteen minutes, PUT checks it and
 * replaces the password, clearing the code so it works once. Users are found
 * by email; when several share one, the writes go to the first of them.
 */
module ResetPasswordRoute {
  import opened Wrappers
  import opened Models
  import opened Store
  import opened Http
  import Js

  /** Fifteen minutes, in milliseconds. */
  const CODE_LIFETIME: int := 15 * 60 * 1000

  const EMAIL_REQUIRED := "Email is required"
  const NO_ACCOUNT := "No account found with this email"
  const SOMETHING_WENT_WRONG := "Something went wrong"
  const INSTRUCTIONS_SENT := "Password reset instructions sent to your email"
  const FIELDS_REQUIRED := "Email, code, and new password are required"
  const INVALID_OR_EXPIRED := "Invalid or expired verification code"
  const PASSWORD_RESET := "Password successfully reset"

  /**
   * `generateVerificationCode`: `Math.floor(100000 + r * 900000).toString()` for
   * the value `r` that `Math.random()` returned. The code is always six digits.
   */
  function GenerateVerificationCode(r: real): (code: string)
    requires 0.0 <= r < 1.0
    ensures |code| == 6 && Js.AllDigits(code) && code[0] != '0'
    ensures code == Js.NatToString(CodeValue(r))
  {
    var n := CodeValue(r);
    assert Js.Pow10(5) == 100000;
    Js.NatToStringLength(n, 6, 100000);
    Js.NatToString(n)
  }

  /** The number behind a code: an integer from 100000 to 999999. */
  function CodeValue(r: real): (n: nat)
    requires 0.0 <= r < 1.0
    ensures 100000 <= n <= 999999
    ensures n as real <= 100000.0 + r * 900000.0 < n as real + 1.0
  {
    (100000.0 + r * 900000.0).Floor
  }

  /** The index of the first user whose email is `email`, or `|users|` when there is none. */
  function FirstWithEmail(users: seq<User>, email: string): (i: nat)
    ensures i <= |users|
    ensures i < |users| ==> users[i].email == email
    ensures forall j :: 0 <= j < i ==> users[j].email != email
  {
    if users == [] then 0
    else if users[0].email == email then 0
    else 1 + FirstWithEmail(users[1..], email)
  }

  /** The lookup both the reset PUT and the verify route make: the code matches and has not expired. */
  predicate CodeMatches(u: User, email: string, code: string, now: Millis)
  {
    u.email == email && u.resetPasswordCode == Some(code)
    && u.resetPasswordExpires.Some? && u.resetPasswordExpires.value > now
  }

  predicate SomeCodeMatches(users: seq<User>, email: string, code: string, now: Millis)
  {
    exists i :: 0 <= i < |users| && CodeMatches(users[i], email, code, now)
  }

  /** Email addresses identify users: the schema's intended uniqueness. */
  predicate UniqueEmails(users: seq<User>)
  {
    forall i, j :: 0 <= i < j < |users| ==> users[i].email != users[j].email
  }

  /**
   * POST. The code comes from `r` and the mail is sent only after the code is
   * written; when sending fails (`mailSent` is false) the write is rolled back.
   */
  method Post(db: Db, email: string, r: real, mailSent: bool, now: Millis) returns (resp: Response)
    requires 0.0 <= r < 1.0
    modifies db
    ensures db.infos == old(db.infos) && db.positions == old(db.positions) && db.kycs == old(db.kycs)
    ensures db.proofs == old(db.proofs) && db.withdrawals == old(db.withdrawals)
    ensures email == "" ==> resp == Response(BAD_REQUEST, EMAIL_REQUIRED) && db.users == old(db.users)
    ensures email != "" && FirstWithEmail(old(db.users), email) == |old(db.users)| ==>
      resp == Response(NOT_FOUND, NO_ACCOUNT) && db.users == old(db.users)
    ensures email != "" && FirstWithEmail(old(db.users), email) < |old(db.users)| && !mailSent ==>
      resp == Response(SERVER_ERROR, SOMETHING_WENT_WRONG) && db.users == old(db.users)
    ensures email != "" && FirstWithEmail(old(db.users), email) < |old(db.users)| && mailSent ==>
      var i := FirstWithEmail(old(db.users), email);
      resp == Response(OK, INSTRUCTIONS_SENT)
      && db.users == old(db.users)[i := Issued(old(db.users)[i], GenerateVerificationCode(r), now)]
  {
    if email == "" {
      return Response(BAD_REQUEST, EMAIL_REQUIRED);
    }
    var i := FirstWithEmail(db.users, email);
    if i == |db.users| {
      return Response(NOT_FOUND, NO_ACCOUNT);
    }
    var code := GenerateVerificationCode(r);
    var before := db.users;
    db.users := db.users[i := Issued(db.users[i], code, now)];
    if !mailSent {
      db.users := before;
      return Response(SERVER_ERROR, SOMETHING_WENT_WRONG);
    }
    resp := Response(OK, INSTRUCTIONS_SENT);
  }

  /** A user holding a freshly issued code; any earlier code is overwritten. */
  function Issued(u: User, code: string, now: Millis): (v: User)
    ensures v.resetPasswordCode == Some(code) && v.resetPasswordExpires == Some(now + CODE_LIFETIME)
    ensures v.(resetPasswordCode := u.resetPasswordCode, resetPasswordExpires := u.resetPasswordExpires) == u
  {
    u.(resetPasswordCode := Some(code), resetPasswordExpires := Some(now + CODE_LIFETIME))
  }

  /** A user after a reset: the new password hash, and no code or expiry. */
  function Reset(u: User, hashedPassword: string): (v: User)
    ensures v.password == hashedPassword && v.resetPasswordCode == None && v.resetPasswordExpires == None
    ensures v.(password := u.password, resetPasswordCode := u.resetPasswordCode,
               resetPasswordExpires := u.resetPasswordExpires) == u
  {
    u.(password := hashedPassword, resetPasswordCode := None, resetPasswordExpires := None)
  }

  /**
   * The guards of PUT: all three fields are given and some user with that
   * email holds that code unexpired. `Ok` carries the index of the user the
   * update goes to, the first one with that email.
   */
  function CheckReset(users: seq<User>, email: string, code: string, newPassword: string, now: Millis)
    : (r: Result<nat, Response>)
    ensures email == "" || code == "" || newPassword == "" ==> r == Err(Response(BAD_REQUEST, FIELDS_REQUIRED))
    ensures email != "" && code != "" && newPassword != "" && !SomeCodeMatches(users, email, code, now)
      ==> r == Err(Response(BAD_REQUEST, INVALID_OR_EXPIRED))
    ensures r.Ok? <==> email != "" && code != "" && newPassword != "" && SomeCodeMatches(users, email, code, now)
    ensures r.Ok? ==> r.value < |users| && r.value == FirstWithEmail(users, email)
  {
    if email == "" || code == "" || newPassword == "" then Err(Response(BAD_REQUEST, FIELDS_REQUIRED))
    else if !SomeCodeMatches(users, email, code, now) then Err(Response(BAD_REQUEST, INVALID_OR_EXPIRED))
    else
      var i := FirstWithEmail(users, email);
      assert i < |users| by {
        var j :| 0 <= j < |users| && CodeMatches(users[j], email, code, now);
        assert !(j < i);
      }
      Ok(i)
  }

  /** PUT: replace the password with `hashedPassword` (the hash of the new password) and clear the code. */
  method Put(db: Db, email: string, code: string, newPassword: string, hashedPassword: string, now: Millis)
    returns (resp: Response)
    modifies db
    ensures db.infos == old(db.infos) && db.positions == old(db.positions) && db.kycs == old(db.kycs)
    ensures db.proofs == old(db.proofs) && db.withdrawals == old(db.withdrawals)
    ensures var c := CheckReset(old(db.users), email, code, newPassword, now);
      && (c.Err? ==> resp == c.error && db.users == old(db.users))
      && (c.Ok? ==>
            resp == Response(OK, PASSWORD_RESET)
            && db.users == old(db.users)[c.value := Reset(old(db.users)[c.value], hashedPassword)])
  {
    var c := CheckReset(db.users, email, code, newPassword, now);
    if c.Err? {
      return c.error;
    }
    db.users := db.users[c.value := Reset(db.users[c.value], hashedPassword)];
    resp := Response(OK, PASSWORD_RESET);
  }

  /** With unique emails, the user holding a matching code is the one the update reaches. */
  lemma {:induction false} MatchIsFirst(users: seq<User>, i: nat, email: string, code: string, now: Millis)
    requires UniqueEmails(users) && i < |users| && CodeMatches(users[i], email, code, now)
    ensures FirstWithEmail(users, email) == i
  {
    var f := FirstWithEmail(users, email);
    assert !(i < f);
    assert f < |users|;
    assert !(f < i);
  }

  /** With unique emails, a code works once: after a reset, the same code is refused, at any time. */
  lemma {:induction false} CodeSingleUse(users: seq<User>, email: string, code: string, newPassword: string,
                                         hashedPassword: string, now: Millis, later: Millis)
    requires UniqueEmails(users)
    requires CheckReset(users, email, code, newPassword, now).Ok?
    ensures var i := CheckReset(users, email, code, newPassword, now).value;
      CheckReset(users[i := Reset(users[i], hashedPassword)], email, code, newPassword, later)
        == Err(Response(BAD_REQUEST, INVALID_OR_EXPIRED))
  {
    var i := CheckReset(users, email, code, newPassword, now).value;
    var after := users[i := Reset(users[i], hashedPassword)];
    forall j | 0 <= j < |after|
      ensures !CodeMatches(after[j], email, code, later)
    {
      if j != i {
        assert after[j].email == users[j].email != users[i].email;
      }
    }
  }

  /**
   * With unique emails, an issued code is accepted until just before fifteen
   * minutes have passed and refused from then on, because expiry is compared
   * strictly.
   */
  lemma {:induction false} CodeLifetime(users: seq<User>, i: nat, code: string, issuedAt: Millis, now: Millis)
    requires UniqueEmails(users) && i < |users|
    ensures var after := users[i := Issued(users[i], code, issuedAt)];
      SomeCodeMatches(after, users[i].email, code, now) <==> now < issuedAt + CODE_LIFETIME
  {
    var after := users[i := Issued(users[i], code, issuedAt)];
    var email := users[i].email;
    if now < issuedAt + CODE_LIFETIME {
      assert CodeMatches(after[i], email, code, now);
    } else {
      forall j | 0 <= j < |after|
        ensures !CodeMatches(after[j], email, code, now)
      {
        if j != i {
          assert after[j].email == users[j].email != email;
        }
      }
    }
  }
}
