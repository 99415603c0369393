/** Value types shared by the tontine engine: the enumerations the schema
    declares, the pivot, penalty and history rows, and the error outcomes of
    the controllers. Money is held in integer minor units (hundredths). */
module Domain {

  type UserId = nat
  type Phone = string
  /** An amount in minor currency units; the columns are decimal(15,2). */
  type Money = int

  datatype Option<T> = None | Some(value: T) {
    function GetOr(default: T): T {
      match this
      case Some(v) => v
      case None => default
    }
  }

  /** Group lifecycle, the `tontines.status` enum. */
  datatype GroupStatus = Pending | Active | Completed | Cancelled

  /** How the turn order was produced, the `tontines.order_type` enum. */
  datatype OrderType = Manual | Random | NotDefined

  /** The `tontine_user.role` enum. */
  datatype Role = Admin | Member

  /** The `tontine_user.status` enum: `pending` is Invited, `active` is Joined. */
  datatype MembershipStatus = Invited | Joined

  /** One pivot row of a group: role, membership status and the nullable turn order. */
  datatype Membership = Membership(role: Role, status: MembershipStatus, turnOrder: Option<int>)

  /** A contribution as returned to the caller. */
  datatype Payment = Payment(user: UserId, round: int, amount: Money)

  datatype PenaltyStatus = Unpaid | Paid

  datatype Penalty = Penalty(user: UserId, round: int, amount: Money, status: PenaltyStatus)

  /** The `type` column of the activity log. */
  datatype EntryKind = StartEntry | PaymentEntry | PenaltyEntry | InfoEntry

  /** One activity-log row; the human-readable description is not modelled. */
  datatype Entry = Entry(kind: EntryKind, user: Option<UserId>, amount: Money, round: int)

  /** The ways a controller action can fail. */
  datatype Error =
    | Forbidden        // caller is not the creator
    | NotFound         // group, user (by phone) or penalty does not exist
    | Invalid          // request validation failed
    | AlreadyPaid      // a payment exists for (group, user, round)
    | TooFewMembers    // start with fewer than two members
    | ServerError      // an exception answered with 500

  /** The HTTP status each failure is answered with. */
  function HttpStatus(e: Error): int
  {
    match e
    case Forbidden => 403
    case NotFound => 404
    case ServerError => 500
    case _ => 422
  }

  datatype Result<T> = Ok(value: T) | Err(error: Error)

  datatype Outcome = Pass | Fail(error: Error)
}
