/** How the two variants compare, and the loan lifecycle run end to end against the document variant. */
module Scenario {
  import opened Records
  import opened Validation
  import opened Tables
  import opened Lifecycle
  import SqlApp
  import MongoApp

  /**
   * An admin's update naming a loan that does not exist: the relational variant answers
   * not found, the document variant reports success; neither changes a loan.
   */
  lemma MissingLoanVariantsDisagree(loans: seq<Loan>, loanId: nat, admin: nat, status: string)
    requires !LoanExists(loans, loanId)
    ensures SqlApp.StatusUpdate(loans, loanId, status) == Step(Fail(NotFound), loans)
    ensures MongoApp.StatusUpdate(loans, Authenticated(admin, true), loanId, status).table == loans
    ensures ParseStatus(status).Some? ==> MongoApp.StatusUpdate(loans, Authenticated(admin, true), loanId, status).outcome == Ok
  {
  }

  /** A caller who is not an admin can update any loan in the relational variant and none in the document variant. */
  lemma UpdateGuardVariantsDisagree(loans: seq<Loan>, userId: nat, i: nat)
    requires LoanIdsAreRowNumbers(loans) && i < |loans|
    ensures SqlApp.StatusUpdate(loans, i + 1, "Approved").table[i].status == Some(Approved)
    ensures MongoApp.StatusUpdate(loans, Authenticated(userId, false), i + 1, "Approved") == Step(Fail(Forbidden), loans)
  {
  }

  /** The admin the scenario starts from, flagged outside the service, and the applicant it registers. */
  function AdminRow(hash: string -> Digest): (u: User)
    ensures u.id == 1 && u.isAdmin == Some(true) && u.password == hash("adminpass")
  {
    User(1, "admin@x.com", hash("adminpass"), "Admin", Some(true))
  }

  function AliceRow(hash: string -> Digest): (u: User)
    ensures u.id == 2 && u.isAdmin == Some(false) && u.password == hash("password1")
  {
    User(2, "a@x.com", hash("password1"), "Alice", Some(false))
  }

  /** The loan the applicant asks for, as the document store records it. */
  function PendingLoan(): (l: Loan)
    ensures l.userId == 2 && l.status == Some(Pending) && ApplicationError(l.amount, l.tenure, l.purpose).None?
  {
    Loan(1, 2, Finite(100000.0), 2, "home repair", Some(Pending))
  }

  /** Register a user and log in: the login yields the stored row, with the digest and no admin flag. */
  method RegisterAndLogin(store: MongoApp.LoanStore) returns (session: Session)
    requires store.Valid() && store.users == [AdminRow(store.hash)] && store.loans == []
    modifies store
    ensures store.Valid() && store.users == [AdminRow(store.hash), AliceRow(store.hash)] && store.loans == []
    ensures session == Authenticated(2, false)
  {
    var registered := store.Register("a@x.com", "password1", "Alice");
    assert registered == Ok;
    assert store.users == [AdminRow(store.hash), AliceRow(store.hash)];
    assert "admin@x.com"[1] != "a@x.com"[1];
    FindUserUnique(store.users, 1);
    var alice := store.Login("a@x.com", "password1");
    assert alice == Success(AliceRow(store.hash));
    session := Authenticated(alice.value.id, alice.value.isAdmin == Some(true));
  }

  /** Apply for a loan: it is listed Pending, a second application for the same purpose is refused. */
  method ApplyAndList(store: MongoApp.LoanStore, session: Session) returns (listing: Result<seq<Loan>>, again: Outcome)
    requires store.Valid() && store.loans == [] && session == Authenticated(2, false)
    modifies store
    ensures store.Valid() && store.users == old(store.users) && store.loans == [PendingLoan()]
    ensures listing == Success([PendingLoan()])
    ensures again == Fail(DuplicatePurpose)
  {
    var applied := store.ApplyLoan(session, Finite(100000.0), 2, "home repair");
    assert applied == Ok;
    assert [PendingLoan()] == [] + [PendingLoan()];
    LoansOfAppend([], PendingLoan(), 2);
    listing := store.LoanStatus(session);
    again := store.ApplyLoan(session, Finite(60000.0), 3, "home repair");
  }

  /** Review: the applicant cannot decide, an admin sees the loan, "Pending" is refused, approval shows in the listing. */
  method Review(store: MongoApp.LoanStore, applicant: Session, admin: Session)
    returns (refused: Outcome, all: Result<seq<Loan>>, bogus: Outcome, approved: Outcome, listing: Result<seq<Loan>>)
    requires store.Valid() && store.loans == [PendingLoan()]
    requires applicant == Authenticated(2, false) && admin == Authenticated(1, true)
    modifies store
    ensures store.Valid() && store.loans == [PendingLoan().(status := Some(Approved))]
    ensures refused == Fail(Forbidden) && all == Success([PendingLoan()])
    ensures bogus == Fail(InvalidStatus) && approved == Ok
    ensures listing == Success([PendingLoan().(status := Some(Approved))])
  {
    refused := store.UpdateStatus(applicant, 1, "Approved");
    all := store.AdminDashboard(admin);
    bogus := store.UpdateStatus(admin, 1, "Pending");
    approved := store.UpdateStatus(admin, 1, "Approved");
    var decided := PendingLoan().(status := Some(Approved));
    assert decided.userId == 2;
    assert store.loans == [] + [decided];
    LoansOfAppend([], decided, 2);
    assert LoansOf([], 2) == [];
    assert LoansOf(store.loans, 2) == [decided];
    assert StatusListing(store.loans, applicant) == Success([decided]);
    listing := store.LoanStatus(applicant);
  }

  /** The whole lifecycle, from an empty loan collection with one admin. */
  method EndToEnd(hash: string -> Digest)
  {
    var store := new MongoApp.LoanStore(hash, [AdminRow(hash)], []);
    var applicant := RegisterAndLogin(store);
    var _, _ := ApplyAndList(store, applicant);
    var adminUser := store.Login("admin@x.com", "adminpass");
    assert adminUser == Success(AdminRow(hash));
    var admin := Authenticated(adminUser.value.id, adminUser.value.isAdmin == Some(true));
    var _, _, _, _, _ := Review(store, applicant, admin);
  }
}
