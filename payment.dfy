/**
 * Deposits by payment proof (app/api/payment/route.ts): a user submits a
 * proof of payment, and an admin reviews it; validating a proof credits its
 * amount to the owner's balance in the same transaction.
 */
module PaymentRoute {
  import opened Wrappers
  import opened Models
  import opened Store
  import opened Http
  import Js

  const NOT_AUTHORIZED := "You are not authorized to carry out this operation!"
  const MISSING_FIELDS := "Missing required fields"
  const NOT_AN_IMAGE := "Invalid file type. Only images are allowed"
  const SUBMITTED := "Payment proof submitted successfully"
  const ADMINS_ONLY := "Only admins can update payment status"
  const ID_AND_STATUS_REQUIRED := "Payment ID and status are required"
  const INVALID_STATUS := "Invalid status value"
  const PROOF_NOT_FOUND := "Payment proof not found"
  const ALREADY_VALIDATED := "This payment is already validated"

  /**
   * The guards of POST in the route's order: the caller must be a stored user,
   * the wallet, a non-zero amount and a proof file must be present, and the file
   * must be an image. `Ok` carries the amount to record. A negative amount
   * passes.
   */
  function CheckSubmission(users: seq<User>, caller: UserId, wallet: string, amount: Js.Number, proof: Option<File>)
    : (r: Result<real, Response>)
    ensures caller >= |users| ==> r == Err(Response(NOT_FOUND, NOT_AUTHORIZED))
    ensures (caller < |users| && (wallet == "" || !Js.Truthy(amount) || proof.None?))
      ==> r == Err(Response(BAD_REQUEST, MISSING_FIELDS))
    ensures (caller < |users| && wallet != "" && Js.Truthy(amount) && proof.Some? && !IsImage(proof.value))
      ==> r == Err(Response(BAD_REQUEST, NOT_AN_IMAGE))
    ensures r.Ok? <==>
      caller < |users| && wallet != "" && Js.Truthy(amount) && proof.Some? && IsImage(proof.value)
    ensures r.Ok? ==> amount == Js.Num(r.value) && r.value != 0.0
  {
    if caller >= |users| then Err(Response(NOT_FOUND, NOT_AUTHORIZED))
    else if wallet == "" || !Js.Truthy(amount) || proof.None? then Err(Response(BAD_REQUEST, MISSING_FIELDS))
    else if !IsImage(proof.value) then Err(Response(BAD_REQUEST, NOT_AN_IMAGE))
    else Ok(amount.value)
  }

  /**
   * The guards of PUT in the route's order: the caller must be an admin, an id
   * and a status must be given, the status must be one of the three review
   * states, the proof must exist and must not be validated already. `Ok`
   * carries the proof's index and the new state.
   */
  function CheckReview(users: seq<User>, proofs: seq<PaymentProof>, caller: UserId,
                       paymentId: Option<nat>, status: string): (r: Result<(nat, ReviewStatus), Response>)
    ensures !IsAdmin(users, caller) ==> r == Err(Response(FORBIDDEN, ADMINS_ONLY))
    ensures (IsAdmin(users, caller) && (paymentId.None? || status == ""))
      ==> r == Err(Response(BAD_REQUEST, ID_AND_STATUS_REQUIRED))
    ensures (IsAdmin(users, caller) && paymentId.Some? && status != "" && ParseReviewStatus(status).None?)
      ==> r == Err(Response(BAD_REQUEST, INVALID_STATUS))
    ensures (IsAdmin(users, caller) && paymentId.Some? && ParseReviewStatus(status).Some?
             && paymentId.value >= |proofs|)
      ==> r == Err(Response(NOT_FOUND, PROOF_NOT_FOUND))
    ensures (IsAdmin(users, caller) && paymentId.Some? && ParseReviewStatus(status).Some?
             && paymentId.value < |proofs| && proofs[paymentId.value].status == Validated)
      ==> r == Err(Response(BAD_REQUEST, ALREADY_VALIDATED))
    ensures r.Ok? <==>
      IsAdmin(users, caller) && paymentId.Some? && ParseReviewStatus(status).Some?
      && paymentId.value < |proofs| && proofs[paymentId.value].status != Validated
    ensures r.Ok? ==> r.value == (paymentId.value, ParseReviewStatus(status).value)
  {
    if !IsAdmin(users, caller) then Err(Response(FORBIDDEN, ADMINS_ONLY))
    else if paymentId.None? || status == "" then Err(Response(BAD_REQUEST, ID_AND_STATUS_REQUIRED))
    else match ParseReviewStatus(status)
      case None => Err(Response(BAD_REQUEST, INVALID_STATUS))
      case Some(st) =>
        var id := paymentId.value;
        if id >= |proofs| then Err(Response(NOT_FOUND, PROOF_NOT_FOUND))
        else if proofs[id].status == Validated then Err(Response(BAD_REQUEST, ALREADY_VALIDATED))
        else Ok((id, st))
  }

  /** The owner's ledger, or a fresh one with the schema's defaults when there is none. */
  function LedgerOrNew(infos: map<UserId, InvestmentInfo>, u: UserId, now: Millis): (info: InvestmentInfo)
    ensures info.accountBalance == BalanceOf(infos, u)
    ensures u in infos ==> info == infos[u]
    ensures u !in infos ==>
      info.investmentAmount == 0.0 && info.totalProfit == 0.0 && info.totalReturnsEarned == 0.0
      && info.package == NO_INVESTMENT && info.lastInvestmentDate == None && info.createdAt == now && info.updatedAt == now
  {
    if u in infos then infos[u] else NewInvestmentInfo(now)
  }

  /** The balance of `u`, zero when `u` has no ledger. */
  function BalanceOf(infos: map<UserId, InvestmentInfo>, u: UserId): real
  {
    if u in infos then infos[u].accountBalance else 0.0
  }

  /** What one proof contributes to the validated deposits of `u`. */
  function Contribution(p: PaymentProof, u: UserId): real
  {
    if p.userId == u && p.status == Validated then p.amount else 0.0
  }

  /** The total amount of the validated proofs of `u`. */
  function ValidatedTotal(ps: seq<PaymentProof>, u: UserId): real
  {
    if ps == [] then 0.0 else ValidatedTotal(ps[..|ps| - 1], u) + Contribution(ps[|ps| - 1], u)
  }

  /** Appending a proof adds exactly its own contribution. */
  lemma ValidatedTotalAppend(ps: seq<PaymentProof>, p: PaymentProof, u: UserId)
    ensures ValidatedTotal(ps + [p], u) == ValidatedTotal(ps, u) + Contribution(p, u)
  {
    assert (ps + [p])[..|ps + [p]| - 1] == ps;
  }

  /** Replacing one proof swaps its contribution and leaves the others'. */
  lemma {:induction false} ValidatedTotalUpdate(ps: seq<PaymentProof>, i: nat, p: PaymentProof, u: UserId)
    requires i < |ps|
    ensures ValidatedTotal(ps[i := p], u) == ValidatedTotal(ps, u) - Contribution(ps[i], u) + Contribution(p, u)
    decreases |ps|
  {
    var last := |ps| - 1;
    assert ps[i := p][..last] == (if i == last then ps[..last] else ps[..last][i := p]);
    if i < last {
      ValidatedTotalUpdate(ps[..last], i, p, u);
    }
  }

  /**
   * POST: record a pending proof of `amount` for `caller`; `proofUrl` is the
   * address the upload service returned. No balance changes, and the validated
   * deposits of every user stay what they were.
   */
  method Post(db: Db, caller: UserId, wallet: string, amount: Js.Number, proof: Option<File>,
              proofUrl: string, now: Millis) returns (resp: Response)
    modifies db
    ensures db.users == old(db.users) && db.infos == old(db.infos) && db.kycs == old(db.kycs)
    ensures db.positions == old(db.positions) && db.withdrawals == old(db.withdrawals)
    ensures var c := CheckSubmission(old(db.users), caller, wallet, amount, proof);
      && (c.Err? ==> resp == c.error && db.proofs == old(db.proofs))
      && (c.Ok? ==>
            resp == Response(CREATED, SUBMITTED)
            && db.proofs == old(db.proofs) + [PaymentProof(caller, wallet, c.value, proofUrl, Pending, now, now)])
    ensures forall u :: ValidatedTotal(db.proofs, u) == ValidatedTotal(old(db.proofs), u)
  {
    var c := CheckSubmission(db.users, caller, wallet, amount, proof);
    if c.Err? {
      return c.error;
    }
    var p := PaymentProof(caller, wallet, c.value, proofUrl, Pending, now, now);
    forall u | true
      ensures ValidatedTotal(db.proofs + [p], u) == ValidatedTotal(db.proofs, u)
    {
      ValidatedTotalAppend(db.proofs, p, u);
    }
    db.proofs := db.proofs + [p];
    resp := Response(CREATED, SUBMITTED);
  }

  /**
   * PUT: an admin moves a proof that is not validated to a review state. The
   * save hook stamps the proof. Moving it to validated also adds its amount to
   * the owner's balance, creating the ledger first if there is none; the other
   * states leave every ledger alone. Both writes happen or neither does.
   *
   * So every user's balance moves exactly as that user's validated deposits do,
   * and a validated proof is never changed again: a deposit is credited once.
   */
  method Put(db: Db, caller: UserId, paymentId: Option<nat>, status: string, now: Millis) returns (resp: Response)
    modifies db
    ensures db.users == old(db.users) && db.kycs == old(db.kycs)
    ensures db.positions == old(db.positions) && db.withdrawals == old(db.withdrawals)
    ensures var c := CheckReview(old(db.users), old(db.proofs), caller, paymentId, status);
      && (c.Err? ==> resp == c.error && db.proofs == old(db.proofs) && db.infos == old(db.infos))
      && (c.Ok? ==>
            var (id, st) := c.value;
            var p := old(db.proofs)[id];
            resp == Response(OK, "Payment " + status + " successfully")
            && db.proofs == old(db.proofs)[id := p.(status := st, updatedAt := now)]
            && db.infos == (if st == Validated then
                              var info := LedgerOrNew(old(db.infos), p.userId, now);
                              old(db.infos)[p.userId := info.(accountBalance := info.accountBalance + p.amount)]
                            else old(db.infos)))
    ensures forall u :: BalanceOf(db.infos, u) - ValidatedTotal(db.proofs, u)
                        == BalanceOf(old(db.infos), u) - ValidatedTotal(old(db.proofs), u)
    ensures |db.proofs| == |old(db.proofs)|
    ensures forall i :: 0 <= i < |old(db.proofs)| && old(db.proofs)[i].status == Validated ==> db.proofs[i] == old(db.proofs)[i]
  {
    var c := CheckReview(db.users, db.proofs, caller, paymentId, status);
    if c.Err? {
      return c.error;
    }
    var (id, st) := c.value;
    var proof := db.proofs[id];
    var updated := proof.(status := st, updatedAt := now);
    forall u | true
      ensures ValidatedTotal(db.proofs[id := updated], u)
              == ValidatedTotal(db.proofs, u) - Contribution(proof, u) + Contribution(updated, u)
    {
      ValidatedTotalUpdate(db.proofs, id, updated, u);
    }
    db.proofs := db.proofs[id := updated];
    if st == Validated {
      var info := LedgerOrNew(db.infos, proof.userId, now);
      db.infos := db.infos[proof.userId := info.(accountBalance := info.accountBalance + proof.amount)];
    }
    resp := Response(OK, "Payment " + status + " successfully");
  }
}
