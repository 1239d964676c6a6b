/**
 * The users and loans tables as sequences in insertion order, the queries the handlers
 * issue against them, and the invariants the stored data keeps.
 */
module Tables {
  import opened Records

  // Reference definitions of what the queries look for.

  ghost predicate EmailInUse(users: seq<User>, email: string)
  {
    exists i :: 0 <= i < |users| && users[i].email == email
  }

  ghost predicate HasApplication(loans: seq<Loan>, userId: nat, purpose: string)
  {
    exists i :: 0 <= i < |loans| && loans[i].userId == userId && loans[i].purpose == purpose
  }

  ghost predicate LoanExists(loans: seq<Loan>, id: nat)
  {
    exists i :: 0 <= i < |loans| && loans[i].id == id
  }

  // Invariants of the stored tables.

  /** No two users share an email (the unique column, and the check registration makes). */
  ghost predicate UniqueEmails(users: seq<User>)
  {
    forall i, j :: 0 <= i < j < |users| ==> users[i].email != users[j].email
  }

  /** No user has two applications with the same purpose. */
  ghost predicate UniqueApplications(loans: seq<Loan>)
  {
    forall i, j :: 0 <= i < j < |loans| ==> loans[i].userId != loans[j].userId || loans[i].purpose != loans[j].purpose
  }

  /** Ids are handed out in insertion order, starting at 1, and rows are never deleted. */
  ghost predicate UserIdsAreRowNumbers(users: seq<User>)
  {
    forall i :: 0 <= i < |users| ==> users[i].id == i + 1
  }

  ghost predicate LoanIdsAreRowNumbers(loans: seq<Loan>)
  {
    forall i :: 0 <= i < |loans| ==> loans[i].id == i + 1
  }

  ghost predicate WellFormed(users: seq<User>, loans: seq<Loan>)
  {
    UniqueEmails(users) && UserIdsAreRowNumbers(users) && UniqueApplications(loans) && LoanIdsAreRowNumbers(loans)
  }

  // Queries.

  /** The first user with that email, as `filter_by(email=...).first()` / `find_one({"email": ...})` return it. */
  function FindUserByEmail(users: seq<User>, email: string): (r: Option<User>)
    ensures r.Some? ==> r.value in users && r.value.email == email
    ensures r.None? <==> !EmailInUse(users, email)
  {
    if users == [] then None
    else if users[0].email == email then Some(users[0])
    else
      var r := FindUserByEmail(users[1..], email);
      assert EmailInUse(users, email) ==> EmailInUse(users[1..], email) by {
        if EmailInUse(users, email) {
          var i :| 0 <= i < |users| && users[i].email == email;
          assert users[1..][i - 1].email == email;
        }
      }
      r
  }

  /** The first loan of that user with that purpose, as the duplicate-application query returns it. */
  function FindApplication(loans: seq<Loan>, userId: nat, purpose: string): (r: Option<Loan>)
    ensures r.Some? ==> r.value in loans && r.value.userId == userId && r.value.purpose == purpose
    ensures r.None? <==> !HasApplication(loans, userId, purpose)
  {
    if loans == [] then None
    else if loans[0].userId == userId && loans[0].purpose == purpose then Some(loans[0])
    else
      var r := FindApplication(loans[1..], userId, purpose);
      assert HasApplication(loans, userId, purpose) ==> HasApplication(loans[1..], userId, purpose) by {
        if HasApplication(loans, userId, purpose) {
          var i :| 0 <= i < |loans| && loans[i].userId == userId && loans[i].purpose == purpose;
          assert loans[1..][i - 1].userId == userId && loans[1..][i - 1].purpose == purpose;
        }
      }
      r
  }

  /** The position of the first loan with that id, as the lookup by primary key finds it. */
  function IndexOfLoan(loans: seq<Loan>, id: nat): (r: Option<nat>)
    ensures r.Some? ==> r.value < |loans| && loans[r.value].id == id
    ensures r.None? <==> !LoanExists(loans, id)
  {
    if loans == [] then None
    else if loans[0].id == id then Some(0)
    else
      assert LoanExists(loans, id) ==> LoanExists(loans[1..], id) by {
        if LoanExists(loans, id) {
          var i :| 0 <= i < |loans| && loans[i].id == id;
          assert loans[1..][i - 1].id == id;
        }
      }
      match IndexOfLoan(loans[1..], id)
      case None => None
      case Some(j) => Some(j + 1)
  }

  /** The loans owned by that user, in insertion order (`filter_by(user_id=...).all()`). */
  function LoansOf(loans: seq<Loan>, userId: nat): (r: seq<Loan>)
    ensures forall l :: l in r <==> l in loans && l.userId == userId
    ensures |r| <= |loans|
  {
    if loans == [] then []
    else if loans[0].userId == userId then [loans[0]] + LoansOf(loans[1..], userId)
    else LoansOf(loans[1..], userId)
  }

  /**
   * Sets the status of the loan with that id and touches nothing else; with no such
   * loan the table is unchanged (`update_one` matching no document).
   */
  function UpdateOne(loans: seq<Loan>, id: nat, s: Status): (r: seq<Loan>)
    ensures |r| == |loans|
    ensures forall i :: 0 <= i < |loans| && loans[i].id != id ==> r[i] == loans[i]
    ensures forall i :: 0 <= i < |loans| ==> r[i] == loans[i] || r[i] == loans[i].(status := Some(s))
    ensures !LoanExists(loans, id) ==> r == loans
    ensures LoanIdsAreRowNumbers(loans) ==>
              forall i :: 0 <= i < |loans| && loans[i].id == id ==> r[i] == loans[i].(status := Some(s))
  {
    match IndexOfLoan(loans, id)
    case None => loans
    case Some(k) => loans[k := loans[k].(status := Some(s))]
  }

  /** Appending a loan extends each owner's listing at its end, in insertion order. */
  lemma {:induction false} LoansOfAppend(loans: seq<Loan>, l: Loan, userId: nat)
    ensures LoansOf(loans + [l], userId) == LoansOf(loans, userId) + (if l.userId == userId then [l] else [])
  {
    if loans != [] {
      assert (loans + [l])[1..] == loans[1..] + [l];
      LoansOfAppend(loans[1..], l, userId);
    }
  }

  /** With unique emails the lookup finds exactly the user holding that email. */
  lemma FindUserUnique(users: seq<User>, i: nat)
    requires UniqueEmails(users) && i < |users|
    ensures FindUserByEmail(users, users[i].email) == Some(users[i])
  {
  }

  /** A status update leaves every (owner, purpose) pair where it was. */
  lemma UpdateOneKeepsApplications(loans: seq<Loan>, id: nat, s: Status, userId: nat, purpose: string)
    ensures HasApplication(UpdateOne(loans, id, s), userId, purpose) <==> HasApplication(loans, userId, purpose)
  {
  }

  /** A status update keeps the loans table well formed. */
  lemma UpdateOneKeepsWellFormed(users: seq<User>, loans: seq<Loan>, id: nat, s: Status)
    requires WellFormed(users, loans)
    ensures WellFormed(users, UpdateOne(loans, id, s))
  {
  }
}
