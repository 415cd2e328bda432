/**
 * Requesting a withdrawal (app/api/withdrawal/route.ts): a KYC check, input
 * checks and a balance check, then a pending withdrawal record and a debit of
 * the balance.
 */
module WithdrawalRoute {
  import opened Wrappers
  import opened Models
  import opened Store
  import opened Http
  import Js

  const KYC_REQUIRED :=
    "KYC verification is required before making withdrawals. Please complete your KYC verification first."
  const FIELDS_REQUIRED := "All fields are required"
  const NOT_POSITIVE := "Withdrawal amount must be greater than 0"
  const INFO_NOT_FOUND := "Investment information not found"
  const INSUFFICIENT := "Insufficient balance for the requested withdrawal"
  const SUBMITTED := "Withdrawal request submitted successfully"

  /** `validateKYC`: some KYC record of `u` has been validated. */
  predicate HasValidatedKyc(kycs: seq<Kyc>, u: UserId)
  {
    exists i :: 0 <= i < |kycs| && kycs[i].userId == u && kycs[i].status == Validated
  }

  /** `validateWithdrawal`: a ledger exists and its balance is not below the amount. */
  function ValidateWithdrawal(info: Option<InvestmentInfo>, amount: real): (r: Result<InvestmentInfo, string>)
    ensures r.Ok? <==> info.Some? && info.value.accountBalance >= amount
    ensures r.Ok? ==> r.value == info.value
    ensures info.None? ==> r == Err(INFO_NOT_FOUND)
    ensures info.Some? && info.value.accountBalance < amount ==> r == Err(INSUFFICIENT)
  {
    match info
    case None => Err(INFO_NOT_FOUND)
    case Some(i) => if i.accountBalance < amount then Err(INSUFFICIENT) else Ok(i)
  }

  /**
   * Every guard of POST in the route's order. A missing payment method or
   * wallet address is the empty string. `Ok` carries the amount to withdraw.
   */
  function CheckWithdrawal(kycs: seq<Kyc>, info: Option<InvestmentInfo>, u: UserId,
                           amount: Js.Number, paymentMethod: string, walletAddress: string): (r: Result<real, Response>)
    ensures !HasValidatedKyc(kycs, u) ==> r == Err(Response(FORBIDDEN, KYC_REQUIRED))
    ensures HasValidatedKyc(kycs, u) && (!Js.Truthy(amount) || paymentMethod == "" || walletAddress == "")
      ==> r == Err(Response(BAD_REQUEST, FIELDS_REQUIRED))
    ensures (HasValidatedKyc(kycs, u) && Js.Truthy(amount) && paymentMethod != "" && walletAddress != ""
             && amount.value < 0.0) ==> r == Err(Response(BAD_REQUEST, NOT_POSITIVE))
    ensures (HasValidatedKyc(kycs, u) && Js.Truthy(amount) && paymentMethod != "" && walletAddress != ""
             && amount.value > 0.0) ==>
        r == (match ValidateWithdrawal(info, amount.value)
              case Err(msg) => Err(Response(BAD_REQUEST, msg))
              case Ok(_) => Ok(amount.value))
    ensures r.Ok? <==>
      HasValidatedKyc(kycs, u) && paymentMethod != "" && walletAddress != ""
      && amount.Num? && amount.value > 0.0 && info.Some? && info.value.accountBalance >= amount.value
    ensures r.Ok? ==> amount == Js.Num(r.value)
  {
    if !HasValidatedKyc(kycs, u) then Err(Response(FORBIDDEN, KYC_REQUIRED))
    else if !Js.Truthy(amount) || paymentMethod == "" || walletAddress == "" then Err(Response(BAD_REQUEST, FIELDS_REQUIRED))
    else if amount.value <= 0.0 then Err(Response(BAD_REQUEST, NOT_POSITIVE))
    else
      match ValidateWithdrawal(info, amount.value)
      case Err(msg) => Err(Response(BAD_REQUEST, msg))
      case Ok(_) => Ok(amount.value)
  }

  /** `updateBalance`: debit the balance and stamp the update; nothing else moves. */
  function Debited(info: InvestmentInfo, amount: real, now: Millis): (r: InvestmentInfo)
    ensures r.accountBalance == info.accountBalance - amount
    ensures r.(accountBalance := info.accountBalance, updatedAt := info.updatedAt) == info
    ensures r.updatedAt == now
  {
    info.(accountBalance := info.accountBalance - amount, updatedAt := now)
  }

  /** The total amount of the withdrawal records of `u`. */
  function WithdrawnBy(ws: seq<Withdrawal>, u: UserId): real
  {
    if ws == [] then 0.0
    else WithdrawnBy(ws[..|ws| - 1], u) + (if ws[|ws| - 1].userId == u then ws[|ws| - 1].amount else 0.0)
  }

  /**
   * POST: on success append a pending withdrawal of `amount` and debit the
   * caller's balance by it; on any failure nothing changes. The caller's balance
   * plus what the caller has requested to withdraw is the same before and after.
   */
  method Post(db: Db, caller: UserId, amount: Js.Number, paymentMethod: string, walletAddress: string, now: Millis)
    returns (resp: Response)
    modifies db
    ensures db.users == old(db.users) && db.kycs == old(db.kycs)
    ensures db.positions == old(db.positions) && db.proofs == old(db.proofs)
    ensures var c := CheckWithdrawal(old(db.kycs), InfoOf(old(db.infos), caller), caller, amount, paymentMethod, walletAddress);
      && (c.Err? ==> resp == c.error && db.withdrawals == old(db.withdrawals) && db.infos == old(db.infos))
      && (c.Ok? ==>
            resp == Response(CREATED, SUBMITTED)
            && db.withdrawals == old(db.withdrawals)
               + [Withdrawal(caller, c.value, paymentMethod, walletAddress, WithdrawalPending, now, now)]
            && db.infos == old(db.infos)[caller := Debited(old(db.infos)[caller], c.value, now)])
    ensures resp.status == CREATED ==>
      caller in old(db.infos) && caller in db.infos
      && db.infos[caller].accountBalance >= 0.0
      && db.infos[caller].accountBalance + WithdrawnBy(db.withdrawals, caller)
         == old(db.infos)[caller].accountBalance + WithdrawnBy(old(db.withdrawals), caller)
  {
    var c := CheckWithdrawal(db.kycs, InfoOf(db.infos, caller), caller, amount, paymentMethod, walletAddress);
    if c.Err? {
      return c.error;
    }
    var w := Withdrawal(caller, c.value, paymentMethod, walletAddress, WithdrawalPending, now, now);
    WithdrawnByAppend(db.withdrawals, w, caller);
    db.withdrawals := db.withdrawals + [w];
    db.infos := db.infos[caller := Debited(db.infos[caller], c.value, now)];
    resp := Response(CREATED, SUBMITTED);
  }

  /** Appending a record adds its amount to its owner's total and nothing to anyone else's. */
  lemma WithdrawnByAppend(ws: seq<Withdrawal>, w: Withdrawal, u: UserId)
    ensures WithdrawnBy(ws + [w], u) == WithdrawnBy(ws, u) + (if w.userId == u then w.amount else 0.0)
  {
    assert (ws + [w])[..|ws + [w]| - 1] == ws;
  }
}
