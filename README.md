# Loan lifecycle service, modelled in Dafny

The repository holds two near-identical Flask handler layers for a small loan service.
Users register, log in, apply for loans and list their own loans. An administrator lists
every loan and approves or rejects them. `loan/app.py` keeps its data in a relational
database. `Loan_management_system/application.py` keeps it in a document store. This
project models what both do to their two tables, and proves properties of that model:
- the field checks run in a fixed order and the first failure wins;
- duplicate emails and duplicate (owner, purpose) pairs are refused;
- the login predicate;
- filtered and unfiltered listings;
- the status update, with each variant's own guards.

Modules:
- `Records` (records.dfy): rows, sessions, outcomes, and Python floats with NaN and the infinities.
- `Validation` (validation.dfy): the registration and application check cascades.
- `Tables` (tables.dfy): the tables as sequences in insertion order, and the queries the handlers issue
  (first match by email, by owner and purpose, by id; filter by owner; set one loan's status).
  Also the invariants the stored data keeps: unique emails, unique (owner, purpose) pairs, ids equal to row numbers.
- `Lifecycle` (lifecycle.dfy): the handlers both variants share, as functions from the tables before a
  request to its outcome and the tables after it. Also lemmas relating several requests.
- `SqlApp` (sql_app.dfy) and `MongoApp` (mongo_app.dfy): one class `LoanStore` per source file.
  The class holds the `users` and `loans` tables, which its methods reassign in place.
  Each method does the source's steps in order and ensures that its outcome and new table are what the
  matching `Lifecycle` or variant function gives. The class invariant `Valid()` is kept by every method.
- `Scenario` (scenario.dfy): the two variants compared on the status update, and a client that runs the
  whole lifecycle against the document store: register, log in, apply, list Pending, admin approves, list Approved.

Variant differences kept apart:
- A new user's admin flag: none in `loan/app.py` (`isAdmin == None`), `False` in `application.py`.
- A new loan's status: none in `loan/app.py` (`status == None`), `Pending` in `application.py`.
- The status update: `loan/app.py` has no login or admin guard, and refuses a missing id as not found
  before it reads the status. `application.py` refuses anyone but an admin first, then checks the status.
  There an id that matches no loan changes nothing and still reports success.

Where the service's intended design and its code differ, the model follows the code, with two exceptions.
Both are source defects listed under "## Findings", and there the stores follow the corrected member:
the amount check of both `ApplyLoan` methods refuses NaN, and `SqlApp.LoanStore.AdminDashboard` serves an admin.
The members `Validation.ApplicationErrorAsWritten` and `SqlApp.AdminListingAsWritten` model the code as written.
Everywhere else the model follows the code:
- A duplicate email is reported only when all three fields are valid. Otherwise the field error wins.
- In `loan/app.py` loans start with no status and the update needs no admin.
- In `application.py` a missing loan id is a silent success, not "not found".
- Neither variant stops a decided loan from being decided again. `Tables.UpdateOne` sets the status whatever it was.

## Model

| member | source | states |
|---|---|---|
| `Records.ParseStatus` | loan/app.py:150 | Exactly "Approved" and "Rejected" are accepted; "Pending" and every other string are refused. |
| `Validation.RegistrationError` | loan/app.py:47-55 | No error iff email (length at least 4, contains '@'), password (at least 8) and name (at least 2) are all valid. Otherwise the error names the first check that fails, in that order. |
| `Validation.RegistrationBoundsInclusive` | Loan_management_system/application.py:22-30 | A 4-character email with '@', an 8-character password and a 2-character name pass. One character less, or an email without '@', fails with the matching error. |
| `Validation.ApplicationErrorAsWritten` | loan/app.py:100-108 | The application checks as written: amount refused iff `amount < 50000 or amount > 1000000` under IEEE comparison; otherwise a tenure outside [1, 5] is refused, then a purpose outside 1 to 200 characters; no error iff all three pass. This holds for a NaN amount too. |
| `Validation.ApplicationError` | Loan_management_system/application.py:74-82 | No error iff the amount is finite in [50000, 1000000], tenure is in [1, 5] and purpose has 1 to 200 characters. Otherwise the error names the first failing check: amount, then tenure, then purpose. |
| `Validation.NaNAmountAccepted` | loan/app.py:100 | A NaN amount with tenure 1 and purpose "car" passes the checks as written and is refused by the corrected ones. |
| `Validation.ApplicationErrorAgreesOffNaN` | Loan_management_system/application.py:74 | On every amount except NaN the corrected and the written checks give the same result. |
| `Validation.ApplicationBoundsInclusive` | loan/app.py:100-108 | 50000 and 1000000 pass, 49999, 1000001 and both infinities fail; tenure 1 and 5 pass, 0 and 6 fail; a 200-character purpose passes, 201 characters and the empty purpose fail. |
| `Tables.FindUserByEmail` | loan/app.py:58 | The result is a stored user with that email, and it is absent iff no stored user has that email. |
| `Tables.FindApplication` | loan/app.py:111 | The result is a stored loan of that owner with that purpose, and it is absent iff there is none. |
| `Tables.IndexOfLoan` | loan/app.py:147 | The result is the position of a loan with that id, and it is absent iff no loan has that id. |
| `Tables.LoansOf` | loan/app.py:128 | A loan is listed iff it is stored and owned by that user. |
| `Tables.UpdateOne` | Loan_management_system/application.py:135 | Same length; loans with other ids unchanged; every loan either unchanged or changed only in status; with ids equal to row numbers the loan with that id gets exactly the new status; no such loan, no change. |
| `Tables.LoansOfAppend` | Loan_management_system/application.py:107 | Appending a loan adds it at the end of its owner's listing and leaves every other listing as it was, so listings follow insertion order. |
| `Tables.FindUserUnique` | loan/app.py:14 | With unique emails, the lookup by a user's email returns that very user. |
| `Tables.UpdateOneKeepsApplications` | loan/app.py:154 | A status update neither adds nor removes any (owner, purpose) pair. |
| `Tables.UpdateOneKeepsWellFormed` | Loan_management_system/application.py:135 | A status update keeps emails unique, (owner, purpose) pairs unique and ids equal to row numbers. |
| `Lifecycle.Registration` | loan/app.py:40-69 | Succeeds iff the fields are valid and the email is unused. A used email with valid fields is refused as taken; a field error comes before that. On success exactly one user is appended, holding the digest of the password; on failure the table is unchanged. |
| `Lifecycle.Authentication` | loan/app.py:79-86 | A success returns a stored user with that email whose stored digest equals the digest of the password. Every failure, including an unknown email, is the same `LoginFailed`. |
| `Lifecycle.Application` | loan/app.py:93-120 | An anonymous caller is refused. Otherwise it succeeds iff the fields are valid and the caller has no loan with that purpose; a duplicate is reported only after the field checks. On success exactly one loan owned by the caller, with the given initial status, is appended; on failure nothing changes. |
| `Lifecycle.StatusListing` | Loan_management_system/application.py:104-108 | A logged-in caller gets exactly the stored loans they own; an anonymous caller gets no data. |
| `Lifecycle.AdminListing` | Loan_management_system/application.py:113-119 | Data is returned iff the caller is a logged-in admin, and then it is every loan, unfiltered. A non-admin is refused as forbidden. |
| `Lifecycle.RegistrationKeepsWellFormed` | loan/app.py:57-67 | Registration keeps emails unique and user ids equal to row numbers. |
| `Lifecycle.ApplicationKeepsWellFormed` | loan/app.py:110-118 | An application keeps (owner, purpose) pairs unique and loan ids equal to row numbers. |
| `Lifecycle.AuthenticationIff` | Loan_management_system/application.py:53-60 | With unique emails, login succeeds iff some stored user has that email and the digest of that password. |
| `Lifecycle.LoginAfterRegistration` | loan/app.py:64-80 | Logging in with just-registered credentials fails before the registration and succeeds after it. |
| `Lifecycle.RegistrationTwice` | Loan_management_system/application.py:33-36 | After a successful registration the same email with any valid password and name is refused as taken. |
| `Lifecycle.ApplicationTwice` | Loan_management_system/application.py:85-88 | After an accepted application the same caller and purpose is refused as a duplicate. This also holds after the loan's status has since been set. |
| `Lifecycle.ListingAfterApplication` | Loan_management_system/application.py:90-107 | An accepted application is the last entry of its owner's listing; other users' listings are unchanged. |
| `SqlApp.StatusUpdate` | loan/app.py:145-155 | A missing id is refused as not found, whatever the status. With the loan present, a status other than Approved or Rejected is refused and changes nothing. Otherwise it succeeds and only that loan's status is set, whatever it was before. |
| `SqlApp.AdminListingAsWritten` | loan/app.py:135-142 | As written the dashboard never returns loan data: anonymous callers are sent to log in, and every logged-in caller, admin or not, fails with `MissingAttribute`. |
| `SqlApp.AdminRefusedAsWritten` | loan/app.py:137 | An admin caller gets an error from the dashboard as written, and every loan from the corrected check. |
| `SqlApp.StatusUpdateKeepsShape` | loan/app.py:150-154 | The update keeps the tables well formed and no loan Pending. |
| `SqlApp.LoanStore.constructor` | loan/app.py:10-32 | A store over existing well-formed tables, holding exactly those tables. |
| `SqlApp.LoanStore.Register` | loan/app.py:39-69 | Outcome and new users table are those of `Lifecycle.Registration` with no admin flag; loans unchanged; invariant kept. |
| `SqlApp.LoanStore.Login` | loan/app.py:73-86 | The result is that of `Lifecycle.Authentication` on the stored users. |
| `SqlApp.LoanStore.ApplyLoan` | loan/app.py:91-120 | Outcome and new loans table are those of `Lifecycle.Application` with no initial status; users unchanged; invariant kept. The amount check is the corrected one, which refuses NaN. |
| `SqlApp.LoanStore.LoanStatus` | loan/app.py:125-129 | The result is the caller's own loans, as `Lifecycle.StatusListing` gives them. |
| `SqlApp.LoanStore.AdminDashboard` | loan/app.py:133-142 | The corrected dashboard: the result of `Lifecycle.AdminListing`, with the admin flag taken from the session. |
| `SqlApp.LoanStore.UpdateStatus` | loan/app.py:145-158 | Needs no session. Outcome and new loans table are those of `SqlApp.StatusUpdate`; users unchanged; invariant kept. |
| `MongoApp.StatusUpdate` | Loan_management_system/application.py:122-137 | Anyone but a logged-in admin is refused first and changes nothing. A status other than Approved or Rejected is then refused, again changing nothing. Otherwise it succeeds and sets the status of the loan with that id, whatever it was; an id matching no loan changes nothing and still succeeds. |
| `MongoApp.StatusUpdateKeepsShape` | Loan_management_system/application.py:131-135 | The update keeps the collections well formed and every loan with a status. |
| `MongoApp.LoanStore.constructor` | Loan_management_system/application.py:6-8 | A store over existing well-formed collections, holding exactly those collections. |
| `MongoApp.LoanStore.Register` | Loan_management_system/application.py:14-43 | Outcome and new users collection are those of `Lifecycle.Registration` with `is_admin` false; loans unchanged; invariant kept. |
| `MongoApp.LoanStore.Login` | Loan_management_system/application.py:47-60 | The result is that of `Lifecycle.Authentication` on the stored users. |
| `MongoApp.LoanStore.ApplyLoan` | Loan_management_system/application.py:65-99 | Outcome and new loans collection are those of `Lifecycle.Application` with initial status Pending; users unchanged; invariant kept. The amount check is the corrected one, which refuses NaN. |
| `MongoApp.LoanStore.LoanStatus` | Loan_management_system/application.py:104-108 | The result is the caller's own loans, as `Lifecycle.StatusListing` gives them. |
| `MongoApp.LoanStore.AdminDashboard` | Loan_management_system/application.py:111-119 | The result is that of `Lifecycle.AdminListing`: all loans for an admin, nothing for anyone else. |
| `MongoApp.LoanStore.UpdateStatus` | Loan_management_system/application.py:122-137 | Outcome and new loans collection are those of `MongoApp.StatusUpdate`; users unchanged; invariant kept. |
| `Scenario.MissingLoanVariantsDisagree` | loan/app.py:147 | For an id that matches no loan, the relational update answers not found. The document update by an admin changes nothing and, for a valid status, reports success. |
| `Scenario.UpdateGuardVariantsDisagree` | loan/app.py:145-146 | A caller who is not an admin approves a loan in the relational variant and is refused, changing nothing, in the document variant. |

## Left out

- Flask routing, `render_template`, `flash`, `redirect`, `url_for`, the home page and `app.run`: each handler's outcome is a value (`Outcome` or `Result`) instead of a message and a redirect.
- `login_user`, `login_required` and `current_user`: the caller is a `Session` parameter, either anonymous (what `login_required` turns away) or a user id with an admin flag. The model does not check a session against the users table.
- Loan_management_system/application.py:55 builds the session user with a name `User` that the file neither defines nor imports. That is part of session creation, which is outside the model.
- SQLAlchemy and PyMongo: the tables are sequences in insertion order. A new row's id is its row number, since nothing is ever deleted. For the document store, `ObjectId` ids and the match of a string id against them (application.py:129, 135) are not modelled: an id given to the update matches the loan that has it.
- `hash_password`: SHA-256 is foreign code, so each store takes the hash as an arbitrary function `hash` given to its constructor. Nothing depends on which function it is.
- The parsing of form fields with `float(...)` and `int(...)`, its exceptions, and missing fields (`None` reaching `len`): handlers take the parsed values. Amounts are Python floats modelled as exact reals plus NaN and the infinities. Rounding to binary64 is not modelled, and every comparison the source makes is against a constant that binary64 holds exactly.
- loan/app.py:154 assigns a `status` attribute for which the `Loan` model declares no column. The model records the new status on the row. Whether the assignment survives the commit into later requests is persistence behaviour, outside the model.
- The race between a duplicate check and the insert that follows it, and last-writer-wins between concurrent updates: concurrency is out of scope.
- Lengths are counted in Unicode scalar values, as Python's `len` counts code points.
- SqlApp.LoanStore.ApplyLoan: follows the corrected `Validation.ApplicationError`, so a NaN amount is refused. loan/app.py:100 accepts it and inserts the loan; that behaviour is only in `Validation.ApplicationErrorAsWritten`.
- MongoApp.LoanStore.ApplyLoan: follows the corrected `Validation.ApplicationError`, so a NaN amount is refused. Loan_management_system/application.py:74 accepts it and inserts the loan; that behaviour is only in `Validation.ApplicationErrorAsWritten`.
- SqlApp.LoanStore.AdminDashboard: follows the corrected `Lifecycle.AdminListing` and serves an admin. loan/app.py:137 raises for every logged-in caller; that behaviour is only in `SqlApp.AdminListingAsWritten`.

## Findings

| source | as written | input that shows it | evidently intended | confidence | as-written member | corrected member |
|---|---|---|---|---|---|---|
| loan/app.py:100 | `loan_amount < 50000 or loan_amount > 1000000` lets NaN through, since both comparisons are false for NaN. Loan_management_system/application.py:74 has the same guard. | loan_amount `nan` (accepted by `float`), tenure 1, purpose `car` | only amounts in [50000, 1000000] are accepted, so NaN is refused | high; not executed | `Validation.NaNAmountAccepted` | `Validation.ApplicationError` |
| loan/app.py:137 | `current_user.is_admin` reads an attribute that the `User` model (lines 12-16) does not declare, so every logged-in call raises an attribute error | any logged-in caller, an intended admin included | an admin gets every loan, anyone else is refused, as in Loan_management_system/application.py:114-118 | high; not executed | `SqlApp.AdminRefusedAsWritten` | `Lifecycle.AdminListing` |

Both stores use the corrected members. `SqlApp.LoanStore.AdminDashboard` takes the admin flag from the session, because the relational user record has none.
