# Verified model of the library service

The repository is a web service that lends books: users borrow and return copies, log in with
rotating refresh tokens, page through a catalogue and browse it from a single-page client. This
project models its stateful protocols and its two algorithmic pieces in Dafny and proves what every
run of them keeps. `dafny verify dfyconfig.toml` checks the whole project.

## What is modelled

**Loans.** `Tables` holds the users, books and book_loans tables as maps and the seven kinds of
committed change as one indivisible function `Apply`. Three layers execute the same requests:

* `Transactions` runs any number of requests at once, one SQL statement at a time. Each transaction
  has a program counter, local variables, private row versions and row locks. The isolation
  assumed of PostgreSQL is read committed: a query reads committed rows (no program here re-reads a
  row it wrote); a guarded UPDATE whose guard fails on the committed row matches nothing and does not
  wait; otherwise it waits for the row lock, and its guard and new value are computed from the row
  committed at the moment the lock is granted; an INSERT of an open loan waits for every
  transaction that is inserting, closing or deleting an open loan of the same user and book; a
  DELETE locks its own row and then, through the foreign keys, one loan row at a time; locks are
  held until commit or abort. The scheduler interleaves anything and may abort any transaction.
* `LoanService` is the request path as classes: a session with an undo log, the repositories'
  statements on it, and the use cases in the order the code runs them, with every early raise.
* `SerialRuns` serves requests one after the other as plain functions. `Outcomes` says what a caller
  sees of them in terms of the rows and the clock alone, with limits and periods as numbers.

`Serializability` proves that the first layer commits exactly what some serial order of `Apply`
commits, and `Completeness` that every serial run is a run of the first layer. `LoanService.Handle`
and `Completeness.CallReaches` tie the layers to the same serial functions, errors included.
`Histories` then proves what all histories, hence all interleavings, keep; `Progress` and
`Deadlocks` which kinds of request can wait for each other in a circle, and `Lockout` where
drifting counters end.

**Refresh sessions.** `Tokens` makes a token the value of its claims: signing is deterministic,
hashing injective, times are whole seconds. `SessionStore` is the table with its committed changes
and every history of them, `SessionTransactions` the interleaving of statements under the same
isolation, `AuthService` the code as classes and its whole-request meaning, `SessionCompleteness` the
proof that serial runs are interleavings.

**The browser client.** `ClientRefresh` is one page with concurrent API calls sharing one refresh,
logins and logouts, composed with the server of `AuthService`; messages may be lost. `ClientCalls`
follows single calls and whole exchanges through its runs. `LoanCache` is
the loan list in local storage against the server's open-loan query.

**Catalogue pages.** `Pagination` relates the page query, its total and the client's Next button to
the ordered list of matching rows; the author list uses the same query shape.

**Log scrubber.** `Scrubber` is the depth-bounded walk and the two in-place loops over the event
dictionary.

Clock readings, dates, new identifiers and the scheduler's choices are parameters.

## Where the code does less than one might expect

* Deleting a book takes its open loans with it but leaves `books_on_hand`. `CounterExplained` gives
  the exact drift. `Lockout` shows where it ends: from every initial state every user can come to
  stand at the limit with no open loan (`EveryUserCanBeBarred`), and stays barred from borrowing in
  every interleaving until created anew (`BarredForGood`).
* Two kinds of request clash if they can take two locks in opposite orders: a return clashes
  with an issue, a user deletion and a book deletion, and the two deletions clash with each other.
  Without a clash there is always progress (`SomeoneProceeds`); requests of some kinds can deadlock
  if and only if two of these kinds clash (`DeadlockExactly`).
* A refresh in the second in which the same user already got a session fails on the unique token
  hash with an untranslated database error and rolls back: `RefreshSucceedsExactly` is the exact
  condition.
* If the answer that replaces the stored token is lost, the page keeps a dead token. Over whole
  runs that loss, and no other, does it (`StoredTokenIsLive`).
* `list_paginated` with a limit of 0 and offset 0 would report a total of 0; the request model
  forbids that limit. `TotalIsExact` is the exact condition.
* The conflict error of an issue and of a return needs company: `NoConflictAlone`.

## Model

| member | source | states |
|---|---|---|
| Tables.OpenOfUserAfter | src/infrastructure/database/models.py:173-184 | the set of open loans of any user after each kind of committed change, cascades included |
| Tables.OpenOfBookAfter | src/infrastructure/database/models.py:173-184 | the same for the open loans of any book |
| Tables.ApplyKeepsCounted | src/infrastructure/repositories/sqlalchemy_user_repository.py:88-110 | no change lets the open loans of a user exceed `books_on_hand`, or the counter exceed the limit of 5 |
| Tables.ApplyKeepsOneOpenEach | src/infrastructure/database/models.py:228-234 | no change creates a second open loan of one user for one book |
| Tables.ApplyKeepsValid | src/application/use_cases/book_use_cases.py:99-147 | every committed change keeps references, counter bounds, non-negative shelves and the one-open-loan rule together |
| Serializability.ReturnNeverStumbles | src/application/use_cases/book_use_cases.py:141-145 | a return that has marked its loan always finds its book, and the `> 0` guard never suppresses its decrement |
| Serializability.StepOk | src/application/use_cases/book_use_cases.py:99-147 | one statement of any transaction, on any valid committed tables, keeps what its program counter promises of its private rows and locks, and locks only what it waited for |
| Serializability.NeededIsTaken | src/infrastructure/repositories/sqlalchemy_book_repository.py:142-194 | a statement waits only for rows it then locks, or for the open loan its insert or key would collide with |
| Serializability.StatementsWait | src/infrastructure/repositories/sqlalchemy_book_repository.py:142-194 | no statement runs while another transaction holds a row it locks, nor an insert while one holds an open loan of the same pair |
| Serializability.CancelLeavesNothing | src/dependencies/database.py:46-48 | any unfinished transaction can be aborted; tables, log and the others stay, its locks and writes are gone |
| Serializability.CommitApplies | src/dependencies/database.py:39-48 | installing the private rows of a finished transaction is exactly its one `Apply` change, which is enabled at that moment |
| Serializability.UnlockedRowsMayChange | src/infrastructure/repositories/sqlalchemy_book_repository.py:142-194 | a commit changes nothing about a row (or a user and book pair) that its transaction has not locked |
| Serializability.DoKeepsInv | src/application/use_cases/book_use_cases.py:99-147 | every action of the scheduler, aborts included, keeps the invariant of the whole machine |
| Serializability.RunReplays | src/dependencies/database.py:39-48 | at every point of every run the committed tables are the replay of the commit log |
| Serializability.Serializable | src/dependencies/database.py:39-48 | every interleaving of issues, returns and administrative requests commits exactly a serial history of whole requests in commit order; aborted ones leave no trace; the result is valid |
| Histories.InterleavingIsHistory | src/application/use_cases/book_use_cases.py:99-147 | the commit log of any interleaving is a serial history that never reuses a loan identifier |
| Histories.CounterExplained | src/infrastructure/repositories/sqlalchemy_user_repository.py:88-110 | over any history the counter exceeds the open loans by exactly the open loans that book deletions took away since the user was created |
| Histories.LossAccumulates | src/infrastructure/database/models.py:179-184 | that difference is never negative, and is zero if and only if no deleted book had an open loan of this user |
| Histories.CountersInInterleavings | src/application/use_cases/book_use_cases.py:107-127 | in every committed state of every interleaving: open loans <= counter <= 5, with equality of the first two if and only if nothing was lost to a book deletion; one open loan per user and book |
| Histories.CounterExactWithoutBookDeletion | src/application/use_cases/book_use_cases.py:99-147 | in interleavings in which no book deletion commits, the counter is the number of open loans |
| Lockout.DeletionsTakeAllLoans | src/infrastructure/database/models.py:179-184 | from any reachable quiet state, deleting the books a user holds, and nothing else, reaches a state with the same counter and no open loan of this user |
| Lockout.EveryUserCanBeBarred | src/application/use_cases/book_use_cases.py:107-115 | from every initial state and for every user the machine reaches a state with the counter at 5 and no open loan |
| Lockout.CounterCanDrift | src/application/use_cases/book_use_cases.py:94-97 | a run from an exact counter of 0 to a counter of 5 with no open loan: the counter is not always the number of open loans |
| Lockout.StillLockedOut | src/application/use_cases/book_use_cases.py:107-115 | no single change but creating the user anew ends it |
| Lockout.LockedOut | src/application/use_cases/book_use_cases.py:107-115 | in every history from there no issue of this user is committed |
| Lockout.BarredForGood | src/application/use_cases/book_use_cases.py:107-115 | in every interleaving from any such state on no issue of this user commits, not even one under way, until the user is created anew |
| Histories.StockAfter | src/infrastructure/repositories/sqlalchemy_book_repository.py:142-164 | what each change does to available plus lent copies of a book |
| Histories.CopiesConserved | src/infrastructure/repositories/sqlalchemy_book_repository.py:142-175 | available plus lent copies equal a ledger that only creation, update and user deletions move; issues and returns never do |
| Histories.CopiesInInterleavings | src/application/use_cases/book_use_cases.py:117-141 | the same in every interleaving, and no shelf goes below zero |
| Histories.ClosedForGood | src/infrastructure/repositories/sqlalchemy_book_repository.py:184-194 | a loan that is closed at any point of a history, in it or before it, keeps its return time and every other column from then on, or is deleted and never comes back |
| Histories.ClosedForGoodInInterleavings | src/infrastructure/repositories/sqlalchemy_book_repository.py:184-194 | the same in every interleaving, from any state it passes through on |
| Histories.ReturnedOnce | src/application/use_cases/book_use_cases.py:130-147 | no history returns one loan twice |
| Histories.OverlappingReturns | src/application/use_cases/book_use_cases.py:130-139 | of any number of overlapping returns of one loan at most one commits |
| Histories.ReturnTimeWrittenOnce | src/infrastructure/repositories/sqlalchemy_book_repository.py:142-194 | only the return of a loan closes it, no change reopens or rewrites it, and that return moves one copy of its book, one unit of its user, and nothing else |
| Histories.ReturnsInInterleavings | src/application/use_cases/book_use_cases.py:130-147 | in every interleaving a return past its first update has its loan still open, its book present and its decrement enabled, and a return never raises a missing book |
| Progress.WaitingRises | src/application/use_cases/book_use_cases.py:107-145 | a transaction waits only for one that is further along, unless the two kinds of request clash |
| Progress.CycleClashes | src/application/use_cases/book_use_cases.py:107-145 | every wait cycle contains two requests whose kinds clash: a return with an issue or a deletion, or a user deletion with a book deletion |
| Progress.SomeoneProceeds | src/application/use_cases/book_use_cases.py:107-145 | while no two unfinished requests clash (only issues, only returns, returns beside updates, ...) some unfinished one can run its next action |
| Deadlocks.IssueAndReturnCanDeadlock | src/application/use_cases/book_use_cases.py:107-145 | a reachable state in which an issue and a return wait for each other |
| Deadlocks.DeletionsCanDeadlock | src/infrastructure/database/models.py:173-184 | a reachable state in which the cascades of a user deletion and of a book deletion wait for each other |
| Deadlocks.ReturnAndBookDeletionCanDeadlock | src/infrastructure/database/models.py:179-184 | a reachable state in which a return and the deletion of its book wait for each other |
| Deadlocks.ReturnAndUserDeletionCanDeadlock | src/infrastructure/database/models.py:173-178 | a reachable state in which a return and the deletion of its user wait for each other |
| Deadlocks.DeadlockExactly | src/application/use_cases/book_use_cases.py:94-147 | requests of a set of kinds can reach a wait cycle if and only if two of these kinds clash |
| SerialRuns.ReturnIsApplied | src/application/use_cases/book_use_cases.py:130-147 | on valid tables a return succeeds if and only if the loan is open and not issued later than now; then it is exactly `ReturnOp`; it never raises a missing book |
| SerialRuns.IssueIsApplied | src/application/use_cases/book_use_cases.py:99-128 | an issue succeeds if and only if nothing is overdue and the change is enabled; then it is exactly `IssueOp`, otherwise the tables stay |
| SerialRuns.ServedIsApplied | src/application/use_cases/book_use_cases.py:76-147 | every served request is one enabled change or none, and keeps the tables valid |
| SerialRuns.ServedStaysValid | src/infrastructure/database/models.py:173-184 | references and counters hold after any serial run |
| SerialRuns.StaysClosed | src/infrastructure/repositories/sqlalchemy_book_repository.py:184-194 | a loan that is closed or gone is never open again in a serial run |
| SerialRuns.OverdueBlocks | src/application/use_cases/book_use_cases.py:100-102 | while an overdue loan stays open no loan is added for its user, whatever else is served |
| SerialRuns.ServedStaysDueDated | src/application/use_cases/book_use_cases.py:126-127 | due dates stay within fourteen days of the day of issue |
| SerialRuns.IssueFindsRecentLoansOnly | src/application/use_cases/book_use_cases.py:100-127 | at every successful issue of a serial run all open loans of the user are at most fourteen days old |
| SerialRuns.TakeAlone | src/application/use_cases/book_use_cases.py:117-128 | the second half of an issue, statement by statement without company, ends as the whole request does |
| SerialRuns.IssueAlone | src/application/use_cases/book_use_cases.py:99-128 | the interleaved program of an issue, run alone, raises or commits exactly what the serial request does |
| SerialRuns.ReturnAlone | src/application/use_cases/book_use_cases.py:130-147 | the same for a return |
| SerialRuns.NoConflictAlone | src/application/use_cases/book_use_cases.py:118-143 | without company neither request reports a concurrency conflict, and a return of valid tables no missing book |
| Outcomes.IssueRaises | src/application/use_cases/book_use_cases.py:99-128 | which error an issue raises, each if and only if its own condition on the rows and the clock holds (an open loan whose due day has passed, an open loan of the pair, counter at 5, ...), and exactly when it raises none |
| Outcomes.IssueChanges | src/application/use_cases/book_use_cases.py:107-128 | the rows and the reply after an issue: one loan due on the fourteenth day after the start, one book on hand more, one copy less; nothing after a refusal |
| Outcomes.ReturnRaises | src/application/use_cases/book_use_cases.py:130-147 | which error a return raises, each if and only if its own condition on the rows holds |
| Outcomes.ReturnChanges | src/application/use_cases/book_use_cases.py:137-147 | the rows and the reply after a return; nothing changes after a refusal |
| Outcomes.ReturnUndoesIssue | src/application/use_cases/book_use_cases.py:99-147 | returning what was just issued succeeds and restores the counters and the shelves |
| Outcomes.AdminChanges | src/application/use_cases/book_use_cases.py:76-97 | the reply and the rows after a creation, update or deletion: named columns, cascades, and nothing else |
| Outcomes.RunStaysOnDay | src/application/use_cases/book_use_cases.py:126-127 | in serial runs due dates stay on the fourteenth day after the day of issue, up to the days a request may run on |
| Outcomes.RefusedByIssueDate | src/application/use_cases/book_use_cases.py:100-102 | after any serial run: refused as overdue whenever an open loan was issued more than 14 days ago, and only when one was issued more than 14 days, less the days a request may run on, ago |
| Completeness.AdminStatement | src/application/use_cases/book_use_cases.py:76-97 | the statement of an administrative request raises exactly when the change is not enabled, with the error of the served request |
| Completeness.AdminReaches | src/application/use_cases/book_use_cases.py:76-97 | the machine alone serves an administrative request, cascade included, with the tables and the error of `ServeAdmin` |
| Completeness.IssueReaches | src/application/use_cases/book_use_cases.py:99-128 | the machine alone serves an issue with the tables and the error of `ServeIssue` |
| Completeness.ReturnReaches | src/application/use_cases/book_use_cases.py:130-147 | the machine alone serves a return with the tables and the error of `ServeReturn` |
| Completeness.CallReaches | src/dependencies/database.py:39-48 | from any quiet state the machine can serve any call as the serial functions do, and ends quiet |
| Completeness.SerialRunsAreInterleavings | src/dependencies/database.py:39-48 | the converse of serializability: every serial run of calls is a run of the machine with the same final tables |
| Common.PutBack | src/dependencies/database.py:46-48 | writing back the row a statement replaced restores the table |
| LoanService.RewindLast | src/dependencies/database.py:46-48 | the undo log is played back newest first |
| LoanService.Session.WriteUser | src/dependencies/database.py:42-48 | writes a row; rolling back now would still restore the committed tables |
| LoanService.Session.WriteBook | src/dependencies/database.py:42-48 | writes a row; rolling back now would still restore the committed tables |
| LoanService.Session.WriteLoan | src/dependencies/database.py:42-48 | writes a row; rolling back now would still restore the committed tables |
| LoanService.Session.Commit | src/dependencies/database.py:45 | makes the written rows the committed ones |
| LoanService.Session.Rollback | src/dependencies/database.py:46-48 | restores the committed tables after any writes |
| LoanService.UserRepository.IncrementBooksOnHand | src/infrastructure/repositories/sqlalchemy_user_repository.py:88-98 | adds one exactly when the user exists below the limit, and changes nothing else |
| LoanService.UserRepository.DecrementBooksOnHand | src/infrastructure/repositories/sqlalchemy_user_repository.py:100-110 | takes one exactly when the counter is positive, and changes nothing else |
| LoanService.UserRepository.Create | src/infrastructure/database/models.py:39-49 | a new user starts with no book on hand; an existing key fails and changes nothing |
| LoanService.UserRepository.Delete | src/infrastructure/repositories/sqlalchemy_user_repository.py:112-117 | deletes the user and all its loans, leaving every book as it was |
| LoanService.DeleteLoans | src/infrastructure/database/models.py:173-184 | the cascade deletes exactly the loans of the deleted row |
| LoanService.BookRepository.Create | src/infrastructure/database/models.py:128-156 | a new book starts with its copies on the shelf; an existing key fails and changes nothing |
| LoanService.BookRepository.TakeAvailableInstance | src/infrastructure/repositories/sqlalchemy_book_repository.py:142-152 | takes one copy exactly when one is there |
| LoanService.BookRepository.ReturnInstance | src/infrastructure/repositories/sqlalchemy_book_repository.py:154-164 | gives one copy back exactly when the book exists |
| LoanService.BookRepository.CreateLoan | src/infrastructure/repositories/sqlalchemy_book_repository.py:166-175 | adds the loan, or fails on the key, the due-date check or the unique index and adds nothing |
| LoanService.BookRepository.MarkLoanReturned | src/infrastructure/repositories/sqlalchemy_book_repository.py:184-194 | closes the loan exactly when it is open, or fails on the date check |
| LoanService.BookRepository.Update | src/infrastructure/repositories/sqlalchemy_book_repository.py:95-105 | an update of an existing book is `UpdateBookOp` |
| LoanService.BookRepository.Delete | src/infrastructure/repositories/sqlalchemy_book_repository.py:107-112 | a delete of an existing book is `DeleteBookOp`, cascade included |
| LoanService.BookUseCases.IssueBook | src/application/use_cases/book_use_cases.py:99-128 | statement by statement: the reply of the serial request in every case, its tables on success, and a session that can be rolled back on failure |
| LoanService.BookUseCases.ReturnBook | src/application/use_cases/book_use_cases.py:130-147 | the same for a return |
| LoanService.BookUseCases.UpdateBook | src/application/use_cases/book_use_cases.py:89-92 | updates or raises a missing book |
| LoanService.BookUseCases.DeleteBook | src/application/use_cases/book_use_cases.py:94-97 | deletes or raises a missing book |
| LoanService.HandleAdmin | src/application/use_cases/book_use_cases.py:76-97 | each administrative request has the tables and the reply of the serial one |
| LoanService.Handle | src/dependencies/database.py:39-48 | all or nothing: the stored tables move by the whole serial request, or on any raise are exactly as before |
| Tokens.VerifyUndoesCreate | src/infrastructure/services/jwt.py:67-115 | a created token verifies as its own type only, through the last second of its lifetime, with the claims it was made of |
| Tokens.VerifiedIsSigned | src/infrastructure/services/jwt.py:103-115 | only signed tokens of the expected type verify, through the second of their expiry, with the claims that were signed |
| Tokens.TokensCoincide | src/infrastructure/services/jwt.py:74-89 | two refresh tokens are equal if and only if made for one user in one whole second |
| SessionStore.SpentForGood | src/infrastructure/repositories/sqlalchemy_session_repository.py:37-63 | a session that is revoked at any point of a history, in it or before it, is the same row ever after |
| SessionStore.SpentOnce | src/infrastructure/auth/refresh_sessions.py:58-68 | after a committed rotation or logout of a token nothing spends or adds that token again |
| SessionStore.LiveAfter | src/infrastructure/auth/refresh_sessions.py:42-68 | a rotation keeps the number of live sessions of every user, a login adds one, a logout takes one |
| SessionStore.LiveSessionsCounted | src/application/use_cases/auth_use_cases.py:67-115 | live sessions are the logins less the logouts that found one, so never more than the logins |
| SessionStore.ChainsHold | src/infrastructure/auth/refresh_sessions.py:42-68 | every session descends from one login; a chain has one user, distinct depths, and only its deepest session can be live |
| SessionStore.OneLivePerLogin | src/application/use_cases/auth_use_cases.py:92-115 | of two sessions of one login at most one is live, and it is the later one |
| SessionTransactions.StepOk | src/infrastructure/auth/refresh_sessions.py:58-68 | one statement keeps what the program counter promises and locks only what it waited for |
| SessionTransactions.NeededIsTaken | src/infrastructure/repositories/sqlalchemy_session_repository.py:37-63 | a statement waits only for the session it then writes or whose hash it collides with |
| SessionTransactions.CancelLeavesNothing | src/dependencies/database.py:46-48 | any unfinished transaction can be aborted and leaves nothing behind |
| SessionTransactions.CommitKeepsInv | src/dependencies/database.py:39-48 | a commit makes exactly its one change of the session table and disturbs no other transaction |
| SessionTransactions.Serializable | src/application/use_cases/auth_use_cases.py:67-115 | every interleaving of logins, refreshes and logouts commits a serial history of whole requests |
| SessionTransactions.RedeemedOnce | src/infrastructure/repositories/sqlalchemy_session_repository.py:49-63 | in every interleaving no refresh commits with a token that an earlier refresh or logout has spent |
| SessionTransactions.RevokedForGoodInInterleavings | src/infrastructure/repositories/sqlalchemy_session_repository.py:37-63 | in every interleaving, from any state on, a revoked session is never changed |
| SessionTransactions.SessionsInInterleavings | src/application/use_cases/auth_use_cases.py:67-115 | the count of live sessions and the rotation chains hold in every interleaving |
| AuthService.ServedStaysMinted | src/application/use_cases/auth_use_cases.py:117-124 | every stored hash is that of a refresh token made for the row's user |
| AuthService.CollisionIsSameSecond | src/infrastructure/database/models.py:75 | a new token hits the unique hash if and only if the user already got a session in the same second |
| AuthService.RefreshSucceedsExactly | src/application/use_cases/auth_use_cases.py:92-115 | which error a refresh raises and when it succeeds: if and only if the token is a signed, unexpired refresh token whose session is the user's, unrevoked and unexpired, the user exists, the new session outlives its insertion and there is no same-second session; a failed one changes nothing |
| AuthService.RefreshChanges | src/application/use_cases/auth_use_cases.py:104-115 | the rows and the reply after a refresh: the old session stamped, one live session a lifetime long added, the claims of the new token |
| AuthService.LoginChanges | src/application/use_cases/auth_use_cases.py:67-81 | which error a login raises, when it succeeds, and the rows and the token it then leaves |
| AuthService.LogoutChanges | src/application/use_cases/auth_use_cases.py:83-90 | the rows after a logout: the session of a verifying token stamped if it is there and unrevoked, nothing else |
| AuthService.LoginLastsItsLifetime | src/application/use_cases/auth_use_cases.py:123-124 | the token of a login can be refreshed later if and only if less than the configured lifetime has passed |
| AuthService.RefreshLastsItsLifetime | src/application/use_cases/auth_use_cases.py:123-124 | the same for the token of a refresh, counted from that refresh |
| AuthService.NoRefreshInOwnSecond | src/application/use_cases/auth_use_cases.py:92-115 | a refresh in the second its token was made fails and leaves that session live |
| AuthService.LogoutEffect | src/application/use_cases/auth_use_cases.py:83-90 | logging out a spent token changes nothing, its successor included; after logging out a verifying token no refresh with it succeeds |
| AuthService.RefreshAlone | src/application/use_cases/auth_use_cases.py:92-115 | the interleaved refresh, run alone, ends as the whole request does, with its error |
| AuthService.LoginAlone | src/application/use_cases/auth_use_cases.py:67-81 | the same for a login |
| AuthService.LogoutAlone | src/application/use_cases/auth_use_cases.py:83-90 | the same for a logout |
| SessionCompleteness.RequestReaches | src/application/use_cases/auth_use_cases.py:67-115 | from any quiet state the machine can serve a login, refresh or logout as the whole requests do, with their errors |
| SessionCompleteness.SerialSessionsAreInterleavings | src/application/use_cases/auth_use_cases.py:67-115 | every serial run of requests is a run of the machine with the same final table |
| AuthService.SessionRepository.Write | src/dependencies/database.py:42-48 | writes a session row; rolling back now would still restore the committed table |
| AuthService.SessionRepository.Commit | src/dependencies/database.py:45 | makes the written rows the committed ones |
| AuthService.SessionRepository.Rollback | src/dependencies/database.py:46-48 | restores the committed table after any writes |
| AuthService.SessionRepository.Create | src/infrastructure/repositories/sqlalchemy_session_repository.py:21-35 | adds the session, or fails on the expiry check or the unique hash and adds nothing |
| AuthService.SessionRepository.Revoke | src/infrastructure/repositories/sqlalchemy_session_repository.py:37-47 | revokes exactly an unrevoked session with this hash |
| AuthService.SessionRepository.RevokeForUser | src/infrastructure/repositories/sqlalchemy_session_repository.py:49-63 | revokes exactly when owner, revocation and expiry allow it, and says so |
| AuthService.RefreshSessionStore.Rotate | src/infrastructure/auth/refresh_sessions.py:42-68 | spends the old session, then adds the new one; says which of the two failed |
| AuthService.AuthUseCases.Login | src/application/use_cases/auth_use_cases.py:67-81 | the reply of the whole login request, and its table on success |
| AuthService.AuthUseCases.Logout | src/application/use_cases/auth_use_cases.py:83-90 | the table of the whole logout request |
| AuthService.AuthUseCases.Refresh | src/application/use_cases/auth_use_cases.py:92-115 | the reply of the whole refresh request, and its table on success |
| AuthService.HandleRefresh | src/dependencies/database.py:39-48 | inside the transactional session a refresh that raises is undone row by row: the spent session is live again |
| AuthService.HandleLogin | src/dependencies/database.py:39-48 | inside the transactional session a login that raises adds no row |
| AuthService.HandleLogout | src/dependencies/database.py:39-48 | inside the transactional session a logout commits the table of the whole request |
| ClientRefresh.CallsKeepSingleFlight | static/app.js:215-284 | every step of the page, network or server keeps: the refresh under way is the one of `refreshPromise`, and every call has sent its request as often as its state allows |
| ClientRefresh.DoKeepsInv | static/app.js:99-110 | every step but the loss of the answer that replaces the stored token keeps the stored and expected tokens live |
| ClientRefresh.AtMostOneRefresh | static/app.js:215-241 | in every interleaving, losses included, at most one refresh is under way, every waiting call waits for it, and no call sends its request more than twice |
| ClientCalls.CallMovesByItself | static/app.js:252-283 | a first answer settles a call or makes it wait for the one refresh; it resumes by being sent again or gives up; a second answer settles it |
| ClientCalls.CallMovesWithItsRefresh | static/app.js:255-259 | the end of the refresh wakes the waiting call, with or without a token; a lost one settles it |
| ClientCalls.CallRests | static/app.js:243-284 | nothing else moves a call |
| ClientCalls.RetriedExactly | static/app.js:254-257 | in every run a call has been sent twice if and only if it resumed after a refresh that delivered a token, and once otherwise |
| ClientCalls.RetryHappens | static/app.js:254-257 | from every fresh page whose token the server accepts a call answered 401 is sent again and settles after two sends |
| ClientCalls.RetryEnds | static/app.js:264-270 | the second answer ends the call; a second 401 clears the session |
| ClientCalls.NoCallIsStuck | static/app.js:243-284 | from every state every call can run to its end without any loss |
| ClientCalls.StoredMoves | static/app.js:99-110 | what each action does to the stored refresh token |
| ClientCalls.RefreshExchange | static/app.js:217-259 | the whole exchange after a 401: the server serves the stored token once, and the page stores the new one and sends again, or clears the session and gives up |
| ClientCalls.OthersJoin | static/app.js:234-241 | while a refresh is under way, further calls answered 401 wait for it and start none |
| ClientCalls.LoginExchange | static/app.js:782-792 | a login stores the token the server made, or leaves the page as it was |
| ClientCalls.LogoutExchange | static/app.js:767-776 | a logout clears the page at once and revokes exactly the token that was stored |
| ClientCalls.AnythingCanHappen | static/app.js:215-284 | which actions of the page, the network, the server and other devices are possible at any moment |
| ClientRefresh.StoredTokenIsLive | static/app.js:217-232 | over whole runs: the stored token is unrevoked at every moment without a refresh under way if and only if no answer is lost that carries its replacement, whatever other losses, logins, logouts, expiries and collisions happen |
| ClientRefresh.LostAnswerStrands | static/app.js:217-232 | losing an answer leaves a dead token stored if and only if the answer carried its replacement; the stored token itself stays |
| LoanCache.OpenListExists | src/infrastructure/repositories/sqlalchemy_book_repository.py:196-205 | the query has an answer for every user: each open loan once, newest first |
| LoanCache.GetOpenLoansForUser | src/application/use_cases/book_use_cases.py:149-162 | lists each loan of the query in order with its own fields; with valid tables no title is missing |
| LoanCache.LocalStorage.AddLoanEntry | static/app.js:124-128 | the entry comes first and is the only one with its id, all others stay; after an own issue a cache that agreed with the server agrees with it again |
| LoanCache.LocalStorage.RemoveLoanById | static/app.js:130-132 | no entry with the id is left, all others stay; after an own return a cache that agreed with the server agrees with it again |
| LoanCache.LocalStorage.SyncLoansFromServer | static/app.js:134-150 | the cache becomes the server's answer for the stored user, or empty without one |
| LoanCache.WithoutDrops | static/app.js:125-131 | filtering by id keeps exactly the other entries |
| LoanCache.WithoutKeepsOrder | static/app.js:125-131 | filtering by id keeps the order, newest first, ids distinct |
| LoanCache.AgreementIsUnique | src/infrastructure/repositories/sqlalchemy_book_repository.py:202 | when issue times differ, two caches that agree with the server are the same list |
| LoanCache.CacheShows | static/app.js:134-150 | a cache that agrees with the server shows exactly the user's open loans, each with its own book, issue time and due date, newest first |
| LoanCache.OwnIssueReaction | static/app.js:350-357 | after an own issue the cache again agrees with the server |
| LoanCache.IssueReaction | static/app.js:350-357 | after any issue the cache agrees with the server |
| LoanCache.ReturnReaction | static/app.js:377-378 | after a return the cache agrees with the server |
| LoanCache.OtherReaction | src/infrastructure/repositories/sqlalchemy_book_repository.py:196-205 | after any other change that spares this user's loans the cache agrees with the server |
| LoanCache.ReactionExactly | static/app.js:112-132 | the page's reaction to a change agrees with the server if and only if the change is its own issue no earlier than its open loans, a return, or one that takes none of its open loans |
| LoanCache.CacheFollowsServer | static/app.js:112-150 | from a sync on, through any history of own issues and returns and others' business, the cache has the loans of the server query in its order (the storage methods are proved to make exactly these reactions) |
| Pagination.RowsAreOrdered | src/infrastructure/repositories/sqlalchemy_book_repository.py:78 | (title, id) is a strict total order |
| Pagination.TitlesCompareAtFirstDifference | src/infrastructure/repositories/sqlalchemy_book_repository.py:78 | a title is before another if and only if it has the smaller character at their first difference, or ends there |
| Pagination.PositionIsRank | src/infrastructure/repositories/sqlalchemy_book_repository.py:78 | the row at position i of the list has exactly i matching rows before it |
| Pagination.ListingIsUnique | src/infrastructure/repositories/sqlalchemy_book_repository.py:78 | the ordered list of matching rows is unique |
| Pagination.ListingExists | src/infrastructure/repositories/sqlalchemy_book_repository.py:78 | and always exists |
| Pagination.PageIsRankWindow | src/infrastructure/repositories/sqlalchemy_book_repository.py:67-93 | a page is exactly the matching rows ranked offset to offset + limit, in order |
| Pagination.PageOrder | src/infrastructure/repositories/sqlalchemy_book_repository.py:78 | rows of a page stand in the order of their titles, compared at the first difference, and equal titles in the order of their ids |
| Pagination.FirstRowIsLeast | src/infrastructure/repositories/sqlalchemy_book_repository.py:78 | the first page starts with the matching row that has the least title |
| Pagination.TotalIsExact | src/infrastructure/repositories/sqlalchemy_book_repository.py:86-93 | the total is the number of matching rows, past the end too, if and only if the limit or the offset is positive or nothing matches |
| Pagination.NextStopsOnLastPage | static/app.js:317 | Next is disabled if and only if the following page would be empty |
| Pagination.PagesCover | static/app.js:313 | the number of pages is the rows divided by the limit, rounded up, and at least one |
| Pagination.WalkPages | static/app.js:830-833 | clicking Next to the end reads the whole list once, in order, in as many pages as needed |
| Scrubber.ContainsIsFactor | src/infrastructure/logging/config.py:169 | the substring search finds a word if and only if the key is some text, the word, some text |
| Scrubber.SensitiveExactly | src/infrastructure/logging/config.py:34-61 | a key is sensitive if and only if one of the 26 denied words, spelled out, is written in it in any mix of cases |
| Scrubber.OnlyTextIsSensitive | src/infrastructure/logging/config.py:179 | keys that are not strings are never sensitive |
| Scrubber.ScrubValue | src/infrastructure/logging/config.py:172-188 | the walk rebuilds every container element by element into the scrubbed value |
| Scrubber.ScrubDictionary | src/infrastructure/logging/config.py:176-183 | the dictionary branch of the walk |
| Scrubber.ScrubSequence | src/infrastructure/logging/config.py:184-187 | the list and tuple branches of the walk |
| Scrubber.ScrubKeepsShape | src/infrastructure/logging/config.py:172-188 | kinds, keys and lengths are kept, and each child is the mask or the child scrubbed one level less |
| Scrubber.ScrubAt | src/infrastructure/logging/config.py:172-188 | along any path: the mask right under the first sensitive key within the depth, otherwise the same value, untouched below the depth |
| Scrubber.ScrubAddsNothing | src/infrastructure/logging/config.py:172-188 | every position of the result is one of the original that passes no mask |
| Scrubber.ScrubTwice | src/infrastructure/logging/config.py:172-188 | scrubbing is idempotent |
| Scrubber.EventDict.Keys | src/infrastructure/logging/config.py:197 | the snapshot of keys the loops run over: every key once |
| Scrubber.EventDict.ScrubPii | src/infrastructure/logging/config.py:216-227 | the in-place loop maps every entry exactly once |
| Scrubber.EventDict.DropNoneValues | src/infrastructure/logging/config.py:191-200 | the in-place loop removes exactly the null entries |
| Scrubber.EventDict.Process | src/infrastructure/logging/config.py:309-310 | both loops in their configured order |
| Scrubber.ProcessedExactly | src/infrastructure/logging/config.py:191-227 | a key survives if and only if it is sensitive or not null; sensitive nulls become the mask |
| Scrubber.DeniedWordsAreMasked | src/infrastructure/logging/config.py:167-169 | a denied word in any mix of cases between any other text: the processed event shows `***` under that key |
| Scrubber.OtherKeysAreKept | src/infrastructure/logging/config.py:216-227 | a key without any denied word keeps its value, scrubbed six levels down |
| Scrubber.ProcessedOnce | src/infrastructure/logging/config.py:191-227 | running the pair again changes nothing |
| Scrubber.EventAt | src/infrastructure/logging/config.py:216-227 | in a processed event a sensitive key within six levels shows the mask and everything deeper is as it was |

## Left out

* Author and user administration, title and username uniqueness, publication dates, author links: they touch none of the counters and would only add easy members.
* Routing, request models, permissions, middleware, settings and log handlers.
* SQLAlchemy and PostgreSQL themselves, including the identity map and the read of the current user in the same session; the isolation stated above is an assumption. Deadlock detection is an abort by the scheduler.
* An update that sets `available_instances` to an explicit null, which the database rejects.
* The deletion of a user also deletes its refresh sessions; in the session models the set of accounts is fixed during a run.
* Password hashing: a login stands for one whose password check succeeded.
* SHA-256 is injective, signing is deterministic and cannot be forged; the key and algorithm checks of the JWT library are not part of this model. A token is accepted through the second of its expiry.
* The code reads the clock separately for a token and for its session's expiry; the model uses one reading for both. Rounding of floating-point timestamps is not modelled.
* The overdue rule in interleavings: an issue checks it on an earlier snapshot than the one it commits on, so it is stated for serial runs.
* Search text: the filter is any set of matching rows. Titles are compared character by character, not by a database collation.
* Client: rendering, other tabs sharing the local storage, malformed stored JSON, the access token. The credentials request of a login is an exchange of its own.
* Client loan cache: titles; clearing the session, which empties the cache until the next sync; a sync whose answer arrives after a later issue; returns of this user's loans made by someone else and deletions of books this user holds.
* Scrubber: values that are neither dictionaries, lists nor tuples are opaque, upper-case letters outside ASCII are not folded, and the order of the event dictionary is not observed.
- LoanCache.CacheFollowsServer: assumes that own issues are no earlier than the open loans and that nobody else deletes them; ReactionExactly shows that the page keeps up in no other case.
- SerialRuns.IssueFindsRecentLoansOnly: assumes that within one request the clock does not run backwards.
- LoanService.BookRepository.Update: does not model the unique title and the other columns of a book; none of them meets a counter.
- LoanService.BookUseCases.UpdateBook: does not model the checks of the publication date and of the title, which raise before anything is written.
