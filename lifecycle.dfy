/**
 * The handlers both variants share, as functions from the tables before a request to the
 * outcome and the tables after it. The variants differ only in the initial admin flag of a
 * new user and the initial status of a new loan, which are parameters here.
 */
module Lifecycle {
  import opened Records
  import opened Validation
  import opened Tables

  /**
   * register: the field cascade, then the duplicate-email check, then one insert that
   * stores the digest of the password, never the password itself.
   */
  function Registration(users: seq<User>, email: string, password: string, name: string,
                        hash: string -> Digest, isAdmin: Option<bool>): (s: Step<User>)
    ensures s.outcome == Ok <==> RegistrationError(email, password, name).None? && !EmailInUse(users, email)
    ensures s.outcome == Fail(EmailTaken) <==> RegistrationError(email, password, name).None? && EmailInUse(users, email)
    ensures RegistrationError(email, password, name).Some? ==> s.outcome == Fail(RegistrationError(email, password, name).value)
    ensures s.outcome.Ok? ==> s.table == users + [User(|users| + 1, email, hash(password), name, isAdmin)]
    ensures s.outcome.Fail? ==> s.table == users
  {
    match RegistrationError(email, password, name)
    case Some(e) => Step(Fail(e), users)
    case None =>
      if FindUserByEmail(users, email).Some? then Step(Fail(EmailTaken), users)
      else Step(Ok, users + [User(|users| + 1, email, hash(password), name, isAdmin)])
  }

  /**
   * login: the user found by email, when its stored digest equals the digest of the
   * supplied password. A missing user and a wrong password fail alike.
   */
  function Authentication(users: seq<User>, email: string, password: string, hash: string -> Digest): (r: Result<User>)
    ensures r.Success? ==> r.value in users && r.value.email == email && r.value.password == hash(password)
    ensures r.Failure? ==> r.error == LoginFailed
    ensures !EmailInUse(users, email) ==> r == Failure(LoginFailed)
  {
    match FindUserByEmail(users, email)
    case Some(u) => if u.password == hash(password) then Success(u) else Failure(LoginFailed)
    case None => Failure(LoginFailed)
  }

  /**
   * apply_loan: only for a logged-in caller; the field cascade, then the duplicate
   * (owner, purpose) check, then one insert owned by the caller.
   */
  function Application(loans: seq<Loan>, session: Session, amount: Float, tenure: int, purpose: string,
                       initial: Option<Status>): (s: Step<Loan>)
    ensures s.outcome.Fail? ==> s.table == loans
    ensures session.Anonymous? ==> s.outcome == Fail(NotLoggedIn)
    ensures session.Authenticated? ==>
              (s.outcome == Ok <==> ApplicationError(amount, tenure, purpose).None? && !HasApplication(loans, session.userId, purpose))
    ensures session.Authenticated? ==>
              (s.outcome == Fail(DuplicatePurpose) <==> ApplicationError(amount, tenure, purpose).None? && HasApplication(loans, session.userId, purpose))
    ensures session.Authenticated? && ApplicationError(amount, tenure, purpose).Some? ==>
              s.outcome == Fail(ApplicationError(amount, tenure, purpose).value)
    ensures s.outcome.Ok? ==>
              session.Authenticated? && s.table == loans + [Loan(|loans| + 1, session.userId, amount, tenure, purpose, initial)]
  {
    match session
    case Anonymous => Step(Fail(NotLoggedIn), loans)
    case Authenticated(userId, _) =>
      match ApplicationError(amount, tenure, purpose)
      case Some(e) => Step(Fail(e), loans)
      case None =>
        if FindApplication(loans, userId, purpose).Some? then Step(Fail(DuplicatePurpose), loans)
        else Step(Ok, loans + [Loan(|loans| + 1, userId, amount, tenure, purpose, initial)])
  }

  /** loan_status: exactly the caller's own loans, for a logged-in caller. */
  function StatusListing(loans: seq<Loan>, session: Session): (r: Result<seq<Loan>>)
    ensures r.Success? <==> session.Authenticated?
    ensures r.Failure? ==> r.error == NotLoggedIn
    ensures r.Success? ==> forall l :: l in r.value <==> l in loans && l.userId == session.userId
  {
    match session
    case Anonymous => Failure(NotLoggedIn)
    case Authenticated(userId, _) => Success(LoansOf(loans, userId))
  }

  /** admin_dashboard: every loan, unfiltered, for an admin; no loan data for anybody else. */
  function AdminListing(loans: seq<Loan>, session: Session): (r: Result<seq<Loan>>)
    ensures r.Success? <==> IsAdmin(session)
    ensures r.Success? ==> r.value == loans
    ensures session.Anonymous? ==> r == Failure(NotLoggedIn)
    ensures session.Authenticated? && !session.isAdmin ==> r == Failure(Forbidden)
  {
    match session
    case Anonymous => Failure(NotLoggedIn)
    case Authenticated(_, isAdmin) => if isAdmin then Success(loans) else Failure(Forbidden)
  }

  // Invariants the handlers keep.

  lemma RegistrationKeepsWellFormed(users: seq<User>, loans: seq<Loan>, email: string, password: string,
                                    name: string, hash: string -> Digest, isAdmin: Option<bool>)
    requires WellFormed(users, loans)
    ensures WellFormed(Registration(users, email, password, name, hash, isAdmin).table, loans)
  {
  }

  lemma ApplicationKeepsWellFormed(users: seq<User>, loans: seq<Loan>, session: Session, amount: Float,
                                   tenure: int, purpose: string, initial: Option<Status>)
    requires WellFormed(users, loans)
    ensures WellFormed(users, Application(loans, session, amount, tenure, purpose, initial).table)
  {
  }

  // Properties that relate several requests.

  /** With unique emails, login succeeds iff some user has that email and the digest of that password. */
  lemma AuthenticationIff(users: seq<User>, email: string, password: string, hash: string -> Digest)
    requires UniqueEmails(users)
    ensures Authentication(users, email, password, hash).Success? <==>
              exists i :: 0 <= i < |users| && users[i].email == email && users[i].password == hash(password)
  {
  }

  /** Login with the registered credentials fails before a registration and succeeds after it. */
  lemma LoginAfterRegistration(users: seq<User>, email: string, password: string, name: string,
                               hash: string -> Digest, isAdmin: Option<bool>)
    requires UniqueEmails(users)
    requires Registration(users, email, password, name, hash, isAdmin).outcome == Ok
    ensures Authentication(users, email, password, hash) == Failure(LoginFailed)
    ensures Authentication(Registration(users, email, password, name, hash, isAdmin).table, email, password, hash).Success?
  {
    var after := Registration(users, email, password, name, hash, isAdmin).table;
    assert after[|users|].email == email && after[|users|].password == hash(password);
    forall i | 0 <= i < |users| ensures after[i].email != email {
      assert users[i].email != email;
    }
    assert UniqueEmails(after);
    AuthenticationIff(after, email, password, hash);
  }

  /** Once an email is registered, registering it again with valid fields is refused as taken. */
  lemma RegistrationTwice(users: seq<User>, email: string, password: string, name: string,
                          password2: string, name2: string, hash: string -> Digest, isAdmin: Option<bool>)
    requires Registration(users, email, password, name, hash, isAdmin).outcome == Ok
    requires ValidPassword(password2) && ValidName(name2)
    ensures Registration(Registration(users, email, password, name, hash, isAdmin).table,
                         email, password2, name2, hash, isAdmin).outcome == Fail(EmailTaken)
  {
    var after := Registration(users, email, password, name, hash, isAdmin).table;
    assert after[|users|].email == email;
  }

  /**
   * Once a caller's application is accepted, the same purpose is refused as a duplicate,
   * also after an admin has since set the loan's status.
   */
  lemma ApplicationTwice(loans: seq<Loan>, session: Session, amount: Float, tenure: int, purpose: string,
                         initial: Option<Status>, amount2: Float, tenure2: int, loanId: nat, decision: Status)
    requires Application(loans, session, amount, tenure, purpose, initial).outcome == Ok
    requires ValidAmount(amount2) && ValidTenure(tenure2)
    ensures Application(Application(loans, session, amount, tenure, purpose, initial).table,
                        session, amount2, tenure2, purpose, initial).outcome == Fail(DuplicatePurpose)
    ensures Application(UpdateOne(Application(loans, session, amount, tenure, purpose, initial).table, loanId, decision),
                        session, amount2, tenure2, purpose, initial).outcome == Fail(DuplicatePurpose)
  {
    var after := Application(loans, session, amount, tenure, purpose, initial).table;
    assert after[|loans|].userId == session.userId && after[|loans|].purpose == purpose;
    assert HasApplication(after, session.userId, purpose);
    UpdateOneKeepsApplications(after, loanId, decision, session.userId, purpose);
  }

  /**
   * An accepted application appears at the end of its owner's status listing, and every
   * other user's listing is unchanged.
   */
  lemma ListingAfterApplication(loans: seq<Loan>, session: Session, amount: Float, tenure: int, purpose: string,
                                initial: Option<Status>, other: nat)
    requires Application(loans, session, amount, tenure, purpose, initial).outcome == Ok
    ensures LoansOf(Application(loans, session, amount, tenure, purpose, initial).table, session.userId) ==
              LoansOf(loans, session.userId) + [Loan(|loans| + 1, session.userId, amount, tenure, purpose, initial)]
    ensures other != session.userId ==>
              LoansOf(Application(loans, session, amount, tenure, purpose, initial).table, other) == LoansOf(loans, other)
  {
    var l := Loan(|loans| + 1, session.userId, amount, tenure, purpose, initial);
    LoansOfAppend(loans, l, session.userId);
    LoansOfAppend(loans, l, other);
  }
}
