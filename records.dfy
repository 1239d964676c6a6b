/** Records, sessions and outcomes shared by both variants of the loan service. */
module Records {

  datatype Option<T> = None | Some(value: T)

  /** A Python float as `float(...)` yields it from a form field: a finite value, an infinity or NaN. */
  datatype Float = Finite(value: real) | PosInf | NegInf | NaN

  /** `x < c` between a Python float and a finite constant; NaN compares false (IEEE 754). */
  predicate Less(x: Float, c: real)
  {
    match x
    case Finite(v) => v < c
    case NegInf => true
    case PosInf => false
    case NaN => false
  }

  /** `x > c` between a Python float and a finite constant; NaN compares false (IEEE 754). */
  predicate Greater(x: Float, c: real)
  {
    match x
    case Finite(v) => v > c
    case PosInf => true
    case NegInf => false
    case NaN => false
  }

  /** What `hash_password` returns: a hex digest, kept as an opaque string. */
  type Digest = string

  datatype Status = Pending | Approved | Rejected

  /**
   * A row of the users table. `isAdmin` is None where the variant's user record has
   * no admin attribute at all.
   */
  datatype User = User(id: nat, email: string, password: Digest, name: string, isAdmin: Option<bool>)

  /**
   * A row of the loans table. `status` is None where the variant's loan record has
   * no status attribute yet.
   */
  datatype Loan = Loan(id: nat, userId: nat, amount: Float, tenure: int, purpose: string, status: Option<Status>)

  /** The caller of a handler: nobody, or a logged-in user with that id and admin flag. */
  datatype Session = Anonymous | Authenticated(userId: nat, isAdmin: bool)

  predicate IsAdmin(session: Session)
  {
    session.Authenticated? && session.isAdmin
  }

  /** Why a handler refused a request; each stands for one flashed message and redirect. */
  datatype Error =
    | InvalidEmail
    | InvalidPassword
    | InvalidName
    | EmailTaken
    | LoginFailed
    | NotLoggedIn
    | BadAmount
    | BadTenure
    | BadPurpose
    | DuplicatePurpose
    | Forbidden
    | NotFound
    | InvalidStatus
    | MissingAttribute

  /** The outcome of a handler that changes a table. */
  datatype Outcome = Ok | Fail(error: Error)

  /** The outcome of a handler that returns a value. */
  datatype Result<T> = Success(value: T) | Failure(error: Error)

  /** A handler's outcome together with the table it leaves behind. */
  datatype Step<T> = Step(outcome: Outcome, table: seq<T>)

  /** The status form field: only the two review decisions are accepted. */
  function ParseStatus(s: string): (r: Option<Status>)
    ensures r.Some? <==> s == "Approved" || s == "Rejected"
    ensures r != Some(Pending)
    ensures r == Some(Approved) <==> s == "Approved"
  {
    if s == "Approved" then Some(Approved)
    else if s == "Rejected" then Some(Rejected)
    else None
  }
}
