# nuruja rental engine in Dafny

A model of the borrow/return engine of the nuruja library backend and the
append-only balance ledger it drives, with proofs of what the two routes
promise.

The store (`Ledger.State`) holds:

- the registered user ids;
- the books by id, each with a status string ("rented", or anything else such
  as "not-rented"), a rent fee and a late penalty fee;
- an append-only log of transaction rows `(user, book, rent_fee, is_return,
  date_borrowed, date_due)`;
- an append-only ledger of balance entries `(user, balance, date_of_entry,
  transaction?)`.

A row's id is its position in its log, as an auto-incremented key gives it.

`Rental.Borrow` and `Rental.Return` are pure functions from a store to a
`Step`, an outcome plus the new store. The outcome is `BorrowInitiated`,
`ReturnInitiated`, `LateReturnNoted`, `UserNotRegistered`, `BookUnavailable`,
`BookNotRented` or `Crash`. `Crash` stands for the uncaught `None`
dereferences of the return route.

Two versions of the engine share this one definition. The `Rental.Engine`
parameter says which one runs:

- `Current` is nuruja/controllers/transactions.py. The rent and the late
  penalty come from the book, an on-time return deducts the book's rent, and
  each balance entry links to its transaction.
- `Legacy` is nuruja/controllers/borrowing.py. The rent comes from the request,
  the late penalty is a fixed 15, an on-time return deducts a fixed 100, and
  balance entries carry no link.

A user's current balance is the balance of that user's last appended entry,
or 0 when there is none. `Ledger.LatestHasNewestDate` shows this is the entry
with the greatest `date_of_entry` whenever the ledger is in date order.
`RentalProperties.StepsKeepLedgerOrdered` shows both routes keep that order
when the clock never runs backwards.

The user id is resolved the way `CRUDMixin.get_by_id` does it (`Ids`). Digit
strings and numbers are normalised with `int(...)`, which truncates a float
toward zero. Anything else is refused without a lookup. The current routes
pass an integer path segment and the legacy routes a string one;
`Ids.PathSpellingsAgree` shows both name the same row. `Crud` models the
`create` and `update` helpers every model inherits.

Behaviour of the code that the model keeps as written:

- A late return adds the penalty to the previous balance. It does not first
  deduct the rent charged at the borrow (`RentalProperties.CurrentLateKeepsRent`).
  A settling formula, previous − rent + penalty, would treat the rent as paid
  back; the code does not do that, and neither does the model.
- The due-date test reads the first row ever stored for the book and user.
  That row may be a return row, and the query neither orders nor filters on
  `is_return`. So a second loan of the same book is judged against the first
  loan's due date (`RentalProperties.SecondLoanJudgedByFirstDueDate`). The
  query has no `ORDER BY`; the model takes insertion order.
- The return route does not check who borrowed the book. Any registered user
  with an earlier row for that book can return it
  (`RentalProperties.ReturnByNonHolderGoesNegative`).
- Writes are committed one by one, not atomically. An on-time return by a user
  with no balance entry fails after `Transactions.create` has already committed
  the return row. The model's `Crash` state therefore holds that row, but no
  balance entry, and the book stays rented (`RentalProperties.ReturnCrashes`).
- An on-time return can drive a balance negative, as the TODO at
  nuruja/controllers/transactions.py:82 notes (same lemma).

## Model

| member | source | states |
|---|---|---|
| Rental.Borrow | nuruja/controllers/transactions.py:17-74 | Borrow succeeds exactly when the user resolves and the book exists with status other than "rented". A missing user is reported first, whatever the book. An error changes nothing. A success appends one row to each log, sets this book to "rented" while keeping its fees, keeps the users, and leaves every other book unchanged. |
| Rental.Return | nuruja/controllers/transactions.py:79-166 | Return reports a missing user first, then a book that is not "rented". Neither error changes anything. A success appends one row to each log, sets the book to "not-rented" while keeping its fees, and leaves every other book unchanged. A crash writes no balance entry and changes no book. |
| RentalProperties.BorrowRecords | nuruja/controllers/transactions.py:26-57 | The borrow row holds the user, the book, the engine's charge, is_return = false, the borrow time, and a due date 14 days later. The balance entry links to the new row (current engine only). The user's latest balance becomes previous + charge, or the charge alone; other users' latest balances are unchanged. |
| RentalProperties.LateReturnRecords | nuruja/controllers/transactions.py:99-134 | A late return happens when now is strictly after the due date of the first stored row for the pair. The return row charges the late penalty and copies the borrow date. The new entry is the user's, dated now, linked to the return row (current engine only). The balance becomes previous + penalty, or the penalty alone; other users are unchanged. |
| RentalProperties.OnTimeReturnRecords | nuruja/controllers/transactions.py:136-157 | An on-time return has now at or before that due date and requires a previous entry. The return row has fee 0 and copies the borrow date. The new entry is the user's, dated now, linked to the return row (current engine only). The balance becomes previous − the engine's deduction; other users are unchanged. |
| RentalProperties.ReturnCrashes | nuruja/controllers/transactions.py:88-152 | With no stored row for the pair, Return crashes and writes nothing. Otherwise it crashes exactly when it is on time and the user has no entry. In that case the return row is stored, no entry is added and the book stays "rented". |
| RentalProperties.LoanBalance | nuruja/controllers/transactions.py:26-155 | Take a borrow of a book the user never had, followed by a return. On time, the balance moves by charge − deduction. Late, it moves by charge + penalty. Either way the book ends "not-rented". |
| RentalProperties.BorrowThenReturnBalance | nuruja/controllers/transactions.py:26-155 | After any successful borrow, including a repeat loan of the book, a return by the same user moves the balance by charge − deduction when on time and by charge + penalty when late. |
| RentalProperties.CurrentRoundTrip | nuruja/controllers/transactions.py:44-148 | Current engine: any successful borrow followed by an on-time return restores the user's balance to its value before the borrow (0 if none). |
| RentalProperties.CurrentLateKeepsRent | nuruja/controllers/transactions.py:110-126 | Current engine: any successful borrow followed by a late return leaves the user owing rent + penalty more than before, because the rent is never deducted. |
| RentalProperties.ReturnByNonHolderGoesNegative | nuruja/controllers/transactions.py:82-157 | A concrete store: user 2 holds the book, and user 1, who had an earlier loan of it, returns it on time. The return succeeds, the book becomes "not-rented", and user 1's balance falls from 0 to −100. |
| RentalProperties.NoDoubleRent | nuruja/controllers/transactions.py:21-23 | After a successful borrow, any further borrow of the same book fails and changes nothing. |
| RentalProperties.RentAgain | nuruja/controllers/transactions.py:20-25 | After a successful return, any registered user can borrow the book again (borrow, return, borrow). |
| RentalProperties.SecondLoanJudgedByFirstDueDate | nuruja/controllers/transactions.py:89-100 | After one complete loan, a second loan of the same book returned after the first loan's due date is judged late. This holds however recent the second borrow is. |
| RentalProperties.StepsKeepLedgerOrdered | nuruja/controllers/transactions.py:93-97 | If the clock never runs backwards, both routes keep the balance ledger in date order. |
| RentalProperties.RunOnlyAppends | nuruja/controllers/transactions.py:26-60 | Take any sequence of borrow and return requests, served one after another. Every transaction and balance entry written before stays unchanged, and the users and the set of book ids stay the same. |
| RentalProperties.RunKeepsLedgerOrdered | nuruja/controllers/transactions.py:42-55 | Take a sequence of requests whose clock never runs backwards and never precedes the ledger's dates. The balance ledger stays in date order. |
| RentalProperties.CurrentIgnoresRequestFee | nuruja/controllers/transactions.py:29 | The current borrow depends on no fee from the request. |
| RentalProperties.LegacyBorrowChargesRequestFee | nuruja/controllers/borrowing.py:24-44 | Legacy borrow: the request's fee is stored on the borrow row (due 14 days later) and added to the balance. |
| RentalProperties.LegacyLateChargesFifteen | nuruja/controllers/borrowing.py:65-93 | Legacy late return: the return row charges 15 and the balance becomes previous + 15, or 15. |
| RentalProperties.LegacyRoundTrip | nuruja/controllers/borrowing.py:101-108 | Legacy: any successful borrow followed by an on-time return restores the balance exactly when the request's fee was 100. |
| RentalProperties.LegacyEntriesUnlinked | nuruja/controllers/borrowing.py:36-43 | No balance entry written by the legacy borrow or return links to a transaction. |
| RentalProperties.NewBookBorrowable | nuruja/models/__init__.py:79-82 | A book created with the default status can be borrowed by any registered user. |
| Ledger.NewBook | nuruja/models/__init__.py:81-88 | A new book's status defaults to "not-rented", which is not "rented"; a given status is kept. |
| Ledger.FirstTxnFor | nuruja/controllers/transactions.py:89-91 | Returns the least index of a row for the book and user, borrow or return, or None when there is no such row. |
| Ledger.FirstTxnStable | nuruja/controllers/transactions.py:89-91 | The first row for a pair stays first however many rows are appended. |
| Ledger.FirstTxnOfFresh | nuruja/controllers/transactions.py:26-33 | If a pair has no earlier row, the borrow row appended for it becomes its first row. |
| Ledger.LatestEntryFor | nuruja/controllers/transactions.py:35-39 | Returns the greatest index of an entry for the user, or None when the user has none. |
| Ledger.LatestAfterAppend | nuruja/controllers/transactions.py:41-57 | An appended entry becomes its user's latest balance; every other user's latest balance is unchanged. |
| Ledger.LatestHasNewestDate | nuruja/controllers/transactions.py:93-97 | In a date-ordered ledger, the user's last entry has the greatest date_of_entry among that user's entries. |
| Ids.NormaliseId | nuruja/models/__init__.py:14-19 | A string is accepted exactly when it is non-empty and all digits. Ints and bools map to themselves (bools to 1 or 0). A float maps to its truncation. None is refused. |
| Ids.GetById | nuruja/models/__init__.py:15-19 | Finds a row exactly when the normalised key exists, and returns that key. |
| Ids.TruncateTowardZero | nuruja/models/__init__.py:17-18 | int() of a decimal float gives the integer nearest the value on the side of zero. It is bounded from both sides, for either sign. |
| Ids.PathSpellingsAgree | nuruja/models/__init__.py:16-18 | The decimal spelling of a key normalises to that key, the same as the integer itself, and so does that spelling with a leading zero. |
| Ids.ParseShow | nuruja/models/__init__.py:16-18 | Parsing the printed decimal form of n gives back n. |
| Ids.ShowParse | nuruja/models/__init__.py:16-18 | A canonical digit string is the printed form of the number it denotes. |
| Ids.LeadingZero | nuruja/models/__init__.py:16-18 | A leading zero does not change the key a digit string denotes. |
| Ids.RejectsNonDigit | nuruja/models/__init__.py:16-19 | A string containing any non-digit (sign, point, space) is refused. |
| Crud.Create | nuruja/models/__init__.py:21-31 | create stores the row under a fresh id, leaves every earlier row unchanged and returns the instance itself. |
| Crud.SetAttributes | nuruja/models/__init__.py:40-42 | After the setattr loop, each keyword attribute holds its value and every other attribute is unchanged. |
| Crud.Update | nuruja/models/__init__.py:40-43 | update assigns exactly the keyword attributes, leaves the rest unchanged, and reports whether it committed. |
| Crud.UpdateIsExact | nuruja/models/__init__.py:40-43 | The instance update returns is the same whether or not it commits. It is the unique record that holds exactly the keyword values and keeps every other attribute. |

## Left out

- HTTP plumbing: routing, `jsonify`, status codes and message texts. Only the outcome kind is kept; the legacy "Fee of 100 applied" text is cosmetic.
- Request schema validation, and the CRUD, search, analytics and balances controllers. They are database wrappers and reports outside the engine.
- Persistence: sessions, per-`save` commits and races between requests. Each route is one state transition. The only partial write kept is the one an uncaught exception leaves behind (see `RentalProperties.ReturnCrashes`). A crash before any write leaves the store unchanged.
- Time: `pendulum.now()` is one integer `now` per request, in seconds, and 14 days is the constant `Ledger.LoanPeriod`. Time zones and the small gaps between the several `now()` calls of one request are not modelled.
- Floats: the Float columns are integers, and all fees are integers.
- Ledger.LatestEntryFor: picks the last appended entry for the user rather than sorting by `date_of_entry`. The two agree when the clock is monotonic (`Ledger.LatestHasNewestDate`), and ties are not resolved.
- Ledger.FirstTxnFor: `.first()` without `ORDER BY` has no defined order in the database; the model takes insertion order.
- Ids.NormaliseId: counts only the ASCII digits 0-9 as digits. Python's `isdigit` also accepts other Unicode digits, some of which `int` then rejects. `int` of a NaN or infinite float raises, and floats are modelled as finite decimals.
- Book title, author, isbn, publication date and category are not modelled; the engine never reads them. User profile fields and `CRUDMixin.delete` are left out for the same reason.
- nuruja/models/__init__.py as it stands has no `Transactions` or `UserBalance` class, and its `Book` has no fee columns. The record shapes follow the migration (migrations/versions/fdd0e107ae31_.py) and the controllers. `ReturnBookSchema` is not part of this model; the legacy return only reads `book_id` from it. `BorrowBookSchema` (nuruja/controllers/schemas.py:48-49) declares only `book_id`, while the legacy borrow reads `body.rent_fee`; the model takes that fee as the `requestFee` argument.
- No credit ceiling: no route in these files rejects a borrow for an excessive balance.
