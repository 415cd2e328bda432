/**
 * The read-only code check the reset form calls before asking for a new
 * password (app/api/auth/verify-reset-code/route.ts). It makes the same lookup
 * as the reset PUT.
 */
module VerifyResetCodeRoute {
  import opened Models
  import opened Http
  import opened ResetPasswordRoute

  const EMAIL_AND_CODE_REQUIRED := "Email and code are required"
  const CODE_VERIFIED := "Code verified successfully"

  /** POST: check `code` for `email` at time `now`; nothing is written. */
  function Verify(users: seq<User>, email: string, code: string, now: Millis): (r: Response)
    ensures email == "" || code == "" ==> r == Response(BAD_REQUEST, EMAIL_AND_CODE_REQUIRED)
    ensures r.status == OK <==> email != "" && code != "" && SomeCodeMatches(users, email, code, now)
    ensures r.status == OK ==> r.message == CODE_VERIFIED
    ensures r.status != OK ==> r.status == BAD_REQUEST
  {
    if email == "" || code == "" then Response(BAD_REQUEST, EMAIL_AND_CODE_REQUIRED)
    else if SomeCodeMatches(users, email, code, now) then Response(OK, CODE_VERIFIED)
    else Response(BAD_REQUEST, INVALID_OR_EXPIRED)
  }

  /**
   * A code that verifies is accepted by the reset at the same time, whatever
   * new password is given, and the other way round; verifying changes nothing,
   * so the reset can follow it.
   */
  lemma VerifyAgreesWithReset(users: seq<User>, email: string, code: string, newPassword: string, now: Millis)
    requires newPassword != ""
    ensures Verify(users, email, code, now).status == OK <==> CheckReset(users, email, code, newPassword, now).Ok?
  {
  }

  /** With unique emails, a code issued at `t` verifies at `t + 899999` and not at `t + 900000`. */
  lemma {:induction false} ExpiryIsStrict(users: seq<User>, i: nat, code: string, t: Millis)
    requires UniqueEmails(users) && i < |users| && users[i].email != "" && code != ""
    ensures var after := users[i := Issued(users[i], code, t)];
      && Verify(after, users[i].email, code, t + CODE_LIFETIME - 1).status == OK
      && Verify(after, users[i].email, code, t + CODE_LIFETIME).status == BAD_REQUEST
  {
    CodeLifetime(users, i, code, t, t + CODE_LIFETIME - 1);
    CodeLifetime(users, i, code, t, t + CODE_LIFETIME);
  }
}
