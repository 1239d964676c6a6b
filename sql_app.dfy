/**
 * The relational variant (loan/app.py). Its user record has no admin attribute and its
 * loan record no status attribute; the status update is open to every caller and looks
 * the loan up before it reads the status.
 */
module SqlApp {
  import opened Records
  import opened Validation
  import opened Tables
  import opened Lifecycle

  /** What this variant's rows look like: no admin flag on users, and no loan is ever Pending. */
  ghost predicate SqlShaped(users: seq<User>, loans: seq<Loan>)
  {
    && (forall i :: 0 <= i < |users| ==> users[i].isAdmin == None)
    && (forall i :: 0 <= i < |loans| ==> loans[i].status != Some(Pending))
  }

  /**
   * update_loan_status: a missing id is refused as not found before the status is read;
   * a status other than Approved or Rejected changes nothing; otherwise exactly that
   * loan's status is set, whatever it was before.
   */
  function StatusUpdate(loans: seq<Loan>, loanId: nat, status: string): (s: Step<Loan>)
    ensures !LoanExists(loans, loanId) ==> s == Step(Fail(NotFound), loans)
    ensures LoanExists(loans, loanId) && ParseStatus(status).None? ==> s == Step(Fail(InvalidStatus), loans)
    ensures LoanExists(loans, loanId) && ParseStatus(status).Some? ==>
              s == Step(Ok, UpdateOne(loans, loanId, ParseStatus(status).value))
  {
    match IndexOfLoan(loans, loanId)
    case None => Step(Fail(NotFound), loans)
    case Some(i) =>
      match ParseStatus(status)
      case None => Step(Fail(InvalidStatus), loans)
      case Some(decision) => Step(Ok, loans[i := loans[i].(status := Some(decision))])
  }

  /**
   * admin_dashboard as written: it reads an admin attribute that this variant's user
   * record does not have, so every logged-in caller, an intended admin too, gets an error.
   */
  function AdminListingAsWritten(session: Session): (r: Result<seq<Loan>>)
    ensures r.Failure?
    ensures session.Anonymous? <==> r.error == NotLoggedIn
    ensures session.Authenticated? ==> r == Failure(MissingAttribute)
  {
    match session
    case Anonymous => Failure(NotLoggedIn)
    case Authenticated(_, _) => Failure(MissingAttribute)
  }

  /** An admin caller gets an error from the dashboard as written, and every loan from the corrected one. */
  lemma AdminRefusedAsWritten(loans: seq<Loan>)
    ensures AdminListingAsWritten(Authenticated(1, true)) == Failure(MissingAttribute)
    ensures AdminListing(loans, Authenticated(1, true)) == Success(loans)
  {
  }

  lemma StatusUpdateKeepsShape(users: seq<User>, loans: seq<Loan>, loanId: nat, status: string)
    requires WellFormed(users, loans) && SqlShaped(users, loans)
    ensures WellFormed(users, StatusUpdate(loans, loanId, status).table)
    ensures SqlShaped(users, StatusUpdate(loans, loanId, status).table)
  {
  }

  class LoanStore {
    var users: seq<User>
    var loans: seq<Loan>
    /** hash_password, SHA-256 in the source; any function will do here. */
    const hash: string -> Digest

    ghost predicate Valid()
      reads this
    {
      WellFormed(users, loans) && SqlShaped(users, loans)
    }

    /** A store over tables that already exist. */
    constructor (hash: string -> Digest, users: seq<User>, loans: seq<Loan>)
      requires WellFormed(users, loans) && SqlShaped(users, loans)
      ensures Valid()
      ensures this.hash == hash && this.users == users && this.loans == loans
    {
      this.hash := hash;
      this.users := users;
      this.loans := loans;
    }

    method Register(email: string, password: string, name: string) returns (r: Outcome)
      requires Valid()
      modifies this
      ensures Valid() && loans == old(loans)
      ensures Step(r, users) == Registration(old(users), email, password, name, hash, None)
    {
      var err := RegistrationError(email, password, name);
      if err.Some? {
        return Fail(err.value);
      }
      if FindUserByEmail(users, email).Some? {
        return Fail(EmailTaken);
      }
      RegistrationKeepsWellFormed(users, loans, email, password, name, hash, None);
      users := users + [User(|users| + 1, email, hash(password), name, None)];
      r := Ok;
    }

    method Login(email: string, password: string) returns (r: Result<User>)
      requires Valid()
      ensures r == Authentication(users, email, password, hash)
    {
      r := Authentication(users, email, password, hash);
    }

    method ApplyLoan(session: Session, amount: Float, tenure: int, purpose: string) returns (r: Outcome)
      requires Valid()
      modifies this
      ensures Valid() && users == old(users)
      ensures Step(r, loans) == Application(old(loans), session, amount, tenure, purpose, None)
    {
      if session.Anonymous? {
        return Fail(NotLoggedIn);
      }
      var err := ApplicationError(amount, tenure, purpose);
      if err.Some? {
        return Fail(err.value);
      }
      if FindApplication(loans, session.userId, purpose).Some? {
        return Fail(DuplicatePurpose);
      }
      ApplicationKeepsWellFormed(users, loans, session, amount, tenure, purpose, None);
      loans := loans + [Loan(|loans| + 1, session.userId, amount, tenure, purpose, None)];
      r := Ok;
    }

    method LoanStatus(session: Session) returns (r: Result<seq<Loan>>)
      requires Valid()
      ensures r == StatusListing(loans, session)
    {
      r := StatusListing(loans, session);
    }

    /** The dashboard with the admin check the source intends, the caller's flag taken from the session. */
    method AdminDashboard(session: Session) returns (r: Result<seq<Loan>>)
      requires Valid()
      ensures r == AdminListing(loans, session)
    {
      r := AdminListing(loans, session);
    }

    /** Open to every caller: this variant guards the update neither by login nor by admin flag. */
    method UpdateStatus(loanId: nat, status: string) returns (r: Outcome)
      requires Valid()
      modifies this
      ensures Valid() && users == old(users)
      ensures Step(r, loans) == StatusUpdate(old(loans), loanId, status)
    {
      var found := IndexOfLoan(loans, loanId);
      if found.None? {
        return Fail(NotFound);
      }
      var decision := ParseStatus(status);
      if decision.None? {
        return Fail(InvalidStatus);
      }
      StatusUpdateKeepsShape(users, loans, loanId, status);
      loans := loans[found.value := loans[found.value].(status := decision)];
      r := Ok;
    }
  }
}
