/**
 * The stored records the routes read and write: the per-user investment
 * information (models/InvestmentInformation.ts), the investment positions
 * (models/CreateInvestment.ts), and the KYC, payment-proof, withdrawal and
 * user records the routes consult. Times are milliseconds since the epoch.
 */
module Models {
  import opened Wrappers

  type Millis = int

  /** A user is identified by its index in the user collection. */
  type UserId = nat

  const NO_INVESTMENT := "No investment"

  /**
   * One user's ledger: withdrawable balance, the amount currently invested, the
   * profit credited by completions, the returns accrued by the daily batch, and
   * the name of the current plan. The collection holding these is keyed by
   * user, which is the schema's `unique: true` on `userId`.
   */
  datatype InvestmentInfo = InvestmentInfo(
    accountBalance: real,
    investmentAmount: real,
    totalProfit: real,
    totalReturnsEarned: real,
    package: string,
    lastInvestmentDate: Option<Millis>,
    createdAt: Millis,
    updatedAt: Millis)

  /** A ledger created with the schema's defaults at time `now`. */
  function NewInvestmentInfo(now: Millis): (info: InvestmentInfo)
    ensures info.accountBalance == 0.0 && info.investmentAmount == 0.0
    ensures info.totalProfit == 0.0 && info.totalReturnsEarned == 0.0
    ensures info.package == NO_INVESTMENT
    ensures info.lastInvestmentDate == None
  {
    InvestmentInfo(0.0, 0.0, 0.0, 0.0, NO_INVESTMENT, None, now, now)
  }

  /** The values the schema's enum admits for a position's status. */
  const INACTIVE := "inactive"
  const ACTIVE := "active"
  const COMPLETED := "completed"

  predicate IsInvestmentStatus(s: string)
  {
    s == INACTIVE || s == ACTIVE || s == COMPLETED
  }

  /**
   * The accrual fields the daily batch reads from a position. The schema does not
   * declare them and no route in this model sets them when a position is
   * opened, so a position carries all of them or none.
   */
  datatype Schedule = Schedule(
    maturityDate: Millis,
    lastReturnUpdate: Millis,
    currentReturn: real,
    dailyReturn: real)

  /**
   * One investment position. `status` is a string because an update written
   * with `findOneAndUpdate` is not checked against the enum.
   */
  datatype Position = Position(
    userId: UserId,
    plan: string,
    amount: real,
    status: string,
    lastProfitUpdate: Millis,
    createdAt: Millis,
    updatedAt: Millis,
    schedule: Option<Schedule>)

  /** The `pre("save")` hook: every save refreshes `updatedAt` and nothing else. */
  function SavedPosition(p: Position, now: Millis): (q: Position)
    ensures q.updatedAt == now
    ensures q.(updatedAt := p.updatedAt) == p
  {
    p.(updatedAt := now)
  }

  /**
   * `CreateInvestment.create(...)`: the required fields as given, the status
   * when one is given and "inactive" otherwise, the date defaults at `now`, and
   * no accrual fields; the save hook then stamps `updatedAt`.
   */
  function CreatedPosition(userId: UserId, plan: string, amount: real, status: Option<string>, now: Millis): (p: Position)
    ensures p.userId == userId && p.plan == plan && p.amount == amount
    ensures p.status == (if status.Some? then status.value else INACTIVE)
    ensures p.createdAt == now && p.updatedAt == now && p.lastProfitUpdate == now
    ensures p.schedule == None
  {
    var st := match status case Some(s) => s case None => INACTIVE;
    SavedPosition(Position(userId, plan, amount, st, now, now, now, None), now)
  }

  /** The review state shared by KYC submissions and payment proofs. */
  datatype ReviewStatus = Pending | Validated | Rejected

  /** The `includes` check of the status a PUT asks for. */
  function ParseReviewStatus(s: string): (r: Option<ReviewStatus>)
    ensures r == Some(Pending) <==> s == "pending"
    ensures r == Some(Validated) <==> s == "validated"
    ensures r == Some(Rejected) <==> s == "rejected"
  {
    if s == "pending" then Some(Pending)
    else if s == "validated" then Some(Validated)
    else if s == "rejected" then Some(Rejected)
    else None
  }

  function ReviewStatusName(s: ReviewStatus): string
  {
    match s
    case Pending => "pending"
    case Validated => "validated"
    case Rejected => "rejected"
  }

  datatype Kyc = Kyc(
    userId: UserId,
    documentType: string,
    idFrontImg: string,
    idBackImg: string,
    status: ReviewStatus,
    rejectionReason: Option<string>,
    createdAt: Millis,
    updatedAt: Millis)

  datatype PaymentProof = PaymentProof(
    userId: UserId,
    wallet: string,
    amount: real,
    proofURL: string,
    status: ReviewStatus,
    createdAt: Millis,
    updatedAt: Millis)

  datatype WithdrawalStatus = WithdrawalPending | Processing | WithdrawalCompleted | WithdrawalRejected

  datatype Withdrawal = Withdrawal(
    userId: UserId,
    amount: real,
    paymentMethod: string,
    walletAddress: string,
    status: WithdrawalStatus,
    createdAt: Millis,
    updatedAt: Millis)

  /** The user fields the routes read or write; the password is already hashed. */
  datatype User = User(
    email: string,
    role: string,
    isVerified: bool,
    verificationDate: Option<Millis>,
    password: string,
    resetPasswordCode: Option<string>,
    resetPasswordExpires: Option<Millis>)

  /** An uploaded file, reduced to the MIME type the routes check. */
  datatype File = File(mimeType: string)

  /** `file.type.startsWith("image/")` */
  predicate IsImage(f: File)
  {
    |"image/"| <= |f.mimeType| && f.mimeType[..|"image/"|] == "image/"
  }
}

/** The database as in-memory collections; every route method changes it as one atomic step. */
module Store {
  import opened Wrappers
  import opened Models

  class Db {
    var users: seq<User>
    var infos: map<UserId, InvestmentInfo>
    var positions: seq<Position>
    var kycs: seq<Kyc>
    var proofs: seq<PaymentProof>
    var withdrawals: seq<Withdrawal>

    constructor (users: seq<User>)
      ensures this.users == users
      ensures infos == map[] && positions == [] && kycs == [] && proofs == [] && withdrawals == []
    {
      this.users := users;
      infos := map[];
      positions := [];
      kycs := [];
      proofs := [];
      withdrawals := [];
    }
  }

  /** `InvestmentInformation.findOne({ userId })`. */
  function InfoOf(infos: map<UserId, InvestmentInfo>, u: UserId): Option<InvestmentInfo>
  {
    if u in infos then Some(infos[u]) else None
  }

  /** `User.findById(id)` found a user whose role is "admin". */
  predicate IsAdmin(users: seq<User>, id: UserId)
  {
    id < |users| && users[id].role == "admin"
  }
}
