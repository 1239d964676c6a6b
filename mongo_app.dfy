/**
 * The document variant (Loan_management_system/application.py). New users carry
 * `is_admin = False`, new loans start Pending, and the status update is for admins only;
 * an update naming no loan matches nothing and still reports success.
 */
module MongoApp {
  import opened Records
  import opened Validation
  import opened Tables
  import opened Lifecycle

  /** What this variant's documents look like: every user has an admin flag and every loan a status. */
  ghost predicate MongoShaped(users: seq<User>, loans: seq<Loan>)
  {
    && (forall i :: 0 <= i < |users| ==> users[i].isAdmin.Some?)
    && (forall i :: 0 <= i < |loans| ==> loans[i].status.Some?)
  }

  /**
   * update_loan_status: a caller who is not logged in, or not an admin, is refused before
   * anything else and changes nothing; a status other than Approved or Rejected changes
   * nothing; otherwise the loan with that id, if any, gets that status whatever it was.
   */
  function StatusUpdate(loans: seq<Loan>, session: Session, loanId: nat, status: string): (s: Step<Loan>)
    ensures !IsAdmin(session) ==> s.table == loans
    ensures session.Anonymous? ==> s.outcome == Fail(NotLoggedIn)
    ensures session.Authenticated? && !session.isAdmin ==> s.outcome == Fail(Forbidden)
    ensures IsAdmin(session) && ParseStatus(status).None? ==> s == Step(Fail(InvalidStatus), loans)
    ensures IsAdmin(session) && ParseStatus(status).Some? ==>
              s == Step(Ok, UpdateOne(loans, loanId, ParseStatus(status).value))
    ensures !LoanExists(loans, loanId) ==> s.table == loans
  {
    match session
    case Anonymous => Step(Fail(NotLoggedIn), loans)
    case Authenticated(_, isAdmin) =>
      if !isAdmin then Step(Fail(Forbidden), loans)
      else
        match ParseStatus(status)
        case None => Step(Fail(InvalidStatus), loans)
        case Some(decision) => Step(Ok, UpdateOne(loans, loanId, decision))
  }

  lemma StatusUpdateKeepsShape(users: seq<User>, loans: seq<Loan>, session: Session, loanId: nat, status: string)
    requires WellFormed(users, loans) && MongoShaped(users, loans)
    ensures WellFormed(users, StatusUpdate(loans, session, loanId, status).table)
    ensures MongoShaped(users, StatusUpdate(loans, session, loanId, status).table)
  {
  }

  class LoanStore {
    var users: seq<User>
    var loans: seq<Loan>
    /** hash_password, SHA-256 in the source; any function will do here. */
    const hash: string -> Digest

    ghost predicate Valid()
      reads this
    {
      WellFormed(users, loans) && MongoShaped(users, loans)
    }

    /** A store over collections that already exist (admins are flagged outside the service). */
    constructor (hash: string -> Digest, users: seq<User>, loans: seq<Loan>)
      requires WellFormed(users, loans) && MongoShaped(users, loans)
      ensures Valid()
      ensures this.hash == hash && this.users == users && this.loans == loans
    {
      this.hash := hash;
      this.users := users;
      this.loans := loans;
    }

    /** New users are stored with the digest of the password and `is_admin = False`. */
    method Register(email: string, password: string, name: string) returns (r: Outcome)
      requires Valid()
      modifies this
      ensures Valid() && loans == old(loans)
      ensures Step(r, users) == Registration(old(users), email, password, name, hash, Some(false))
    {
      var err := RegistrationError(email, password, name);
      if err.Some? {
        return Fail(err.value);
      }
      if FindUserByEmail(users, email).Some? {
        return Fail(EmailTaken);
      }
      RegistrationKeepsWellFormed(users, loans, email, password, name, hash, Some(false));
      users := users + [User(|users| + 1, email, hash(password), name, Some(false))];
      r := Ok;
    }

    method Login(email: string, password: string) returns (r: Result<User>)
      requires Valid()
      ensures r == Authentication(users, email, password, hash)
    {
      r := Authentication(users, email, password, hash);
    }

    /** New loans start Pending. */
    method ApplyLoan(session: Session, amount: Float, tenure: int, purpose: string) returns (r: Outcome)
      requires Valid()
      modifies this
      ensures Valid() && users == old(users)
      ensures Step(r, loans) == Application(old(loans), session, amount, tenure, purpose, Some(Pending))
    {
      if session.Anonymous? {
        return Fail(NotLoggedIn);
      }
      var err := ApplicationError(amount, tenure, purpose);
      if err.Some? {
        return Fail(err.value);
      }
      if FindApplication(loans, session.userId, purpose).Some? {
        return Fail(DuplicatePurpose);
      }
      ApplicationKeepsWellFormed(users, loans, session, amount, tenure, purpose, Some(Pending));
      loans := loans + [Loan(|loans| + 1, session.userId, amount, tenure, purpose, Some(Pending))];
      r := Ok;
    }

    method LoanStatus(session: Session) returns (r: Result<seq<Loan>>)
      requires Valid()
      ensures r == StatusListing(loans, session)
    {
      r := StatusListing(loans, session);
    }

    method AdminDashboard(session: Session) returns (r: Result<seq<Loan>>)
      requires Valid()
      ensures r == AdminListing(loans, session)
    {
      r := AdminListing(loans, session);
    }

    method UpdateStatus(session: Session, loanId: nat, status: string) returns (r: Outcome)
      requires Valid()
      modifies this
      ensures Valid() && users == old(users)
      ensures Step(r, loans) == StatusUpdate(old(loans), session, loanId, status)
    {
      if session.Anonymous? {
        return Fail(NotLoggedIn);
      }
      if !session.isAdmin {
        return Fail(Forbidden);
      }
      var decision := ParseStatus(status);
      if decision.None? {
        return Fail(InvalidStatus);
      }
      StatusUpdateKeepsShape(users, loans, session, loanId, status);
      loans := UpdateOne(loans, loanId, decision.value);
      r := Ok;
    }
  }
}
