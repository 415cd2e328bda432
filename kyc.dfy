/**
 * Identity verification (app/api/kyc/route.ts): a user submits two document
 * images, and an admin reviews the submission; validating it marks the owner
 * verified. A validated submission is final.
 */
module KycRoute {
  import opened Wrappers
  import opened Models
  import opened Store
  import opened Http

  const NOT_AUTHORIZED := "You are not authorized to carry out this operation!"
  const ALREADY_SUBMITTED := "You already have a KYC submission that is pending or validated"
  const MISSING_FIELDS := "Missing required fields"
  const NOT_AN_IMAGE := "Invalid file type. Only images are allowed"
  const SUBMITTED := "KYC documents submitted successfully"
  const ADMINS_ONLY := "Only admins can update KYC status"
  const ID_AND_STATUS_REQUIRED := "KYC ID and status are required"
  const INVALID_STATUS := "Invalid status value"
  const KYC_NOT_FOUND := "KYC submission not found"
  const ALREADY_VALIDATED := "This KYC is already validated"

  /** A submission still under review or accepted. */
  predicate IsOpen(k: Kyc)
  {
    k.status == Pending || k.status == Validated
  }

  /** `KYC.findOne({ userId, status: { $in: ["pending", "validated"] } })` finds one. */
  predicate HasOpenKyc(kycs: seq<Kyc>, u: UserId)
  {
    exists i :: 0 <= i < |kycs| && kycs[i].userId == u && IsOpen(kycs[i])
  }

  /** No user has two open submissions. */
  predicate AtMostOneOpen(kycs: seq<Kyc>)
  {
    forall i, j :: 0 <= i < j < |kycs| && kycs[i].userId == kycs[j].userId ==> !(IsOpen(kycs[i]) && IsOpen(kycs[j]))
  }

  /**
   * The guards of POST in the route's order: the caller must be a stored user
   * without an open submission, the document type and both files must be
   * present, and both files must be images.
   */
  function CheckSubmission(users: seq<User>, kycs: seq<Kyc>, caller: UserId, documentType: string,
                           idFront: Option<File>, idBack: Option<File>): (r: Result<(), Response>)
    ensures caller >= |users| ==> r == Err(Response(NOT_FOUND, NOT_AUTHORIZED))
    ensures (caller < |users| && HasOpenKyc(kycs, caller)) ==> r == Err(Response(BAD_REQUEST, ALREADY_SUBMITTED))
    ensures (caller < |users| && !HasOpenKyc(kycs, caller) && (documentType == "" || idFront.None? || idBack.None?))
      ==> r == Err(Response(BAD_REQUEST, MISSING_FIELDS))
    ensures (caller < |users| && !HasOpenKyc(kycs, caller) && documentType != "" && idFront.Some? && idBack.Some?
             && (!IsImage(idFront.value) || !IsImage(idBack.value)))
      ==> r == Err(Response(BAD_REQUEST, NOT_AN_IMAGE))
    ensures r.Ok? <==>
      caller < |users| && !HasOpenKyc(kycs, caller) && documentType != ""
      && idFront.Some? && idBack.Some? && IsImage(idFront.value) && IsImage(idBack.value)
  {
    if caller >= |users| then Err(Response(NOT_FOUND, NOT_AUTHORIZED))
    else if HasOpenKyc(kycs, caller) then Err(Response(BAD_REQUEST, ALREADY_SUBMITTED))
    else if documentType == "" || idFront.None? || idBack.None? then Err(Response(BAD_REQUEST, MISSING_FIELDS))
    else if !IsImage(idFront.value) || !IsImage(idBack.value) then Err(Response(BAD_REQUEST, NOT_AN_IMAGE))
    else Ok(())
  }

  /**
   * The guards of PUT in the route's order: the caller must be an admin, an id
   * and a status must be given, the status must be a review state, and the
   * submission must exist and not be validated. `Ok` carries the index and the
   * new state.
   */
  function CheckReview(users: seq<User>, kycs: seq<Kyc>, caller: UserId, kycId: Option<nat>, status: string)
    : (r: Result<(nat, ReviewStatus), Response>)
    ensures !IsAdmin(users, caller) ==> r == Err(Response(FORBIDDEN, ADMINS_ONLY))
    ensures (IsAdmin(users, caller) && (kycId.None? || status == ""))
      ==> r == Err(Response(BAD_REQUEST, ID_AND_STATUS_REQUIRED))
    ensures (IsAdmin(users, caller) && kycId.Some? && status != "" && ParseReviewStatus(status).None?)
      ==> r == Err(Response(BAD_REQUEST, INVALID_STATUS))
    ensures (IsAdmin(users, caller) && kycId.Some? && ParseReviewStatus(status).Some? && kycId.value >= |kycs|)
      ==> r == Err(Response(NOT_FOUND, KYC_NOT_FOUND))
    ensures (IsAdmin(users, caller) && kycId.Some? && ParseReviewStatus(status).Some?
             && kycId.value < |kycs| && kycs[kycId.value].status == Validated)
      ==> r == Err(Response(BAD_REQUEST, ALREADY_VALIDATED))
    ensures r.Ok? <==>
      IsAdmin(users, caller) && kycId.Some? && ParseReviewStatus(status).Some?
      && kycId.value < |kycs| && kycs[kycId.value].status != Validated
    ensures r.Ok? ==> r.value == (kycId.value, ParseReviewStatus(status).value)
  {
    if !IsAdmin(users, caller) then Err(Response(FORBIDDEN, ADMINS_ONLY))
    else if kycId.None? || status == "" then Err(Response(BAD_REQUEST, ID_AND_STATUS_REQUIRED))
    else match ParseReviewStatus(status)
      case None => Err(Response(BAD_REQUEST, INVALID_STATUS))
      case Some(st) =>
        var id := kycId.value;
        if id >= |kycs| then Err(Response(NOT_FOUND, KYC_NOT_FOUND))
        else if kycs[id].status == Validated then Err(Response(BAD_REQUEST, ALREADY_VALIDATED))
        else Ok((id, st))
  }

  /**
   * The reviewed submission: the new state, the rejection reason only when the
   * new state is rejected and a reason is given (an earlier reason stays
   * otherwise), and the save hook's stamp.
   */
  function Reviewed(k: Kyc, st: ReviewStatus, rejectionReason: string, now: Millis): (r: Kyc)
    ensures r.status == st && r.updatedAt == now
    ensures r.rejectionReason == (if st == Rejected && rejectionReason != "" then Some(rejectionReason) else k.rejectionReason)
    ensures r.(status := k.status, rejectionReason := k.rejectionReason, updatedAt := k.updatedAt) == k
  {
    var withReason := if st == Rejected && rejectionReason != "" then k.(rejectionReason := Some(rejectionReason)) else k;
    withReason.(status := st, updatedAt := now)
  }

  /**
   * POST: append a pending submission holding the two uploaded image
   * addresses. A user never gets a second open submission this way.
   */
  method Post(db: Db, caller: UserId, documentType: string, idFront: Option<File>, idBack: Option<File>,
              frontUrl: string, backUrl: string, now: Millis) returns (resp: Response)
    modifies db
    ensures db.users == old(db.users) && db.infos == old(db.infos) && db.proofs == old(db.proofs)
    ensures db.positions == old(db.positions) && db.withdrawals == old(db.withdrawals)
    ensures var c := CheckSubmission(old(db.users), old(db.kycs), caller, documentType, idFront, idBack);
      && (c.Err? ==> resp == c.error && db.kycs == old(db.kycs))
      && (c.Ok? ==>
            resp == Response(CREATED, SUBMITTED)
            && db.kycs == old(db.kycs) + [Kyc(caller, documentType, frontUrl, backUrl, Pending, None, now, now)])
    ensures AtMostOneOpen(old(db.kycs)) ==> AtMostOneOpen(db.kycs)
  {
    var c := CheckSubmission(db.users, db.kycs, caller, documentType, idFront, idBack);
    if c.Err? {
      return c.error;
    }
    var k := Kyc(caller, documentType, frontUrl, backUrl, Pending, None, now, now);
    var ks := db.kycs + [k];
    assert forall i :: 0 <= i < |db.kycs| && db.kycs[i].userId == caller ==> !IsOpen(db.kycs[i]);
    assert forall i :: 0 <= i < |db.kycs| ==> ks[i] == db.kycs[i];
    db.kycs := ks;
    resp := Response(CREATED, SUBMITTED);
  }

  /**
   * PUT: an admin moves a submission that is not validated to a review state.
   * Validating it also marks the owner verified at `now`, when the owner is a
   * stored user. The route makes these two writes one after the other without
   * a transaction; the model takes the handler as one step.
   *
   * A validated submission is never changed, and the one-open-submission rule
   * is kept when the submission was already open or is being rejected.
   */
  method Put(db: Db, caller: UserId, kycId: Option<nat>, status: string, rejectionReason: string, now: Millis)
    returns (resp: Response)
    modifies db
    ensures db.infos == old(db.infos) && db.proofs == old(db.proofs)
    ensures db.positions == old(db.positions) && db.withdrawals == old(db.withdrawals)
    ensures var c := CheckReview(old(db.users), old(db.kycs), caller, kycId, status);
      && (c.Err? ==> resp == c.error && db.kycs == old(db.kycs) && db.users == old(db.users))
      && (c.Ok? ==>
            var (id, st) := c.value;
            var k := old(db.kycs)[id];
            resp == Response(OK, "KYC " + status + " successfully")
            && db.kycs == old(db.kycs)[id := Reviewed(k, st, rejectionReason, now)]
            && db.users == (if st == Validated && k.userId < |old(db.users)| then
                              old(db.users)[k.userId := old(db.users)[k.userId].(isVerified := true, verificationDate := Some(now))]
                            else old(db.users)))
    ensures |db.kycs| == |old(db.kycs)|
    ensures forall i :: 0 <= i < |old(db.kycs)| && old(db.kycs)[i].status == Validated ==> db.kycs[i] == old(db.kycs)[i]
    ensures (AtMostOneOpen(old(db.kycs)) && kycId.Some? && kycId.value < |old(db.kycs)|
             && (status == "rejected" || old(db.kycs)[kycId.value].status == Pending))
      ==> AtMostOneOpen(db.kycs)
  {
    var c := CheckReview(db.users, db.kycs, caller, kycId, status);
    if c.Err? {
      return c.error;
    }
    var (id, st) := c.value;
    var k := db.kycs[id];
    var updated := Reviewed(k, st, rejectionReason, now);
    if st == Validated && k.userId < |db.users| {
      db.users := db.users[k.userId := db.users[k.userId].(isVerified := true, verificationDate := Some(now))];
    }
    db.kycs := db.kycs[id := updated];
    resp := Response(OK, "KYC " + status + " successfully");
  }

  /**
   * The one-open-submission rule is not kept by PUT in general: after a
   * rejection the user may submit again, and an admin may then move the
   * rejected submission back to pending.
   */
  lemma ReopeningBreaksOneOpen()
    ensures var old0 := [Kyc(0, "passport", "f", "b", Rejected, None, 0, 0),
                         Kyc(0, "passport", "f", "b", Pending, None, 1, 1)];
      && AtMostOneOpen(old0)
      && CheckReview([User("a@x", "admin", false, None, "", None, None)], old0, 0, Some(0), "pending") == Ok((0, Pending))
      && !AtMostOneOpen(old0[0 := Reviewed(old0[0], Pending, "", 2)])
  {
    var old0 := [Kyc(0, "passport", "f", "b", Rejected, None, 0, 0),
                 Kyc(0, "passport", "f", "b", Pending, None, 1, 1)];
    var new0 := old0[0 := Reviewed(old0[0], Pending, "", 2)];
    assert IsOpen(new0[0]) && IsOpen(new0[1]);
  }
}
