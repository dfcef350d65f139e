/**
 * The borrow/return state machine behind the member routes. Two versions of
 * it exist and share this one definition; they differ only in where the fees
 * come from and whether balance entries link to their transaction:
 *
 *  - `Current` (controllers/transactions.py): the rent and the late penalty
 *    come from the book; an on-time return deducts the book's rent.
 *  - `Legacy` (controllers/borrowing.py): the rent comes from the request, the
 *    late penalty is a fixed 15 and an on-time return deducts a fixed 100.
 *
 * Each call either reports an error and leaves the store alone, or appends one
 * transaction and one balance entry and flips the book's status.
 */
module Rental {
  import opened Options
  import opened Ids
  import opened Ledger
  import Crud

  datatype Engine = Current | Legacy

  /** `LATE_PENALTY` of the legacy return route. */
  const LegacyLatePenalty: int := 15
  /** The amount the legacy on-time return subtracts, whatever was charged. */
  const LegacyReturnDeduction: int := 100

  /** What a successful borrow charges. */
  function BorrowCharge(e: Engine, book: Book, requestFee: int): int {
    match e
    case Current => book.rentFee
    case Legacy => requestFee
  }

  /** What a late return charges on top of the previous balance. */
  function LateCharge(e: Engine, book: Book): int {
    match e
    case Current => book.latePenaltyFee
    case Legacy => LegacyLatePenalty
  }

  /** What an on-time return subtracts from the previous balance. */
  function OnTimeDeduction(e: Engine, book: Book): int {
    match e
    case Current => book.rentFee
    case Legacy => LegacyReturnDeduction
  }

  /** The `transaction_id` of a new balance entry: only the current engine sets it. */
  function EntryLink(e: Engine, txnId: nat): Option<nat> {
    match e
    case Current => Some(txnId)
    case Legacy => None
  }

  /** The result kinds of the two routes; `Crash` is an uncaught `None` dereference. */
  datatype Outcome =
    | BorrowInitiated
    | ReturnInitiated
    | LateReturnNoted
    | UserNotRegistered
    | BookUnavailable
    | BookNotRented
    | Crash

  datatype Step = Step(outcome: Outcome, state: State)

  /** The borrow query `Book.id == book_id and Book.status != "rented"` finds a row. */
  predicate Borrowable(s: State, bookId: int) {
    bookId in s.books && s.books[bookId].status != Rented
  }

  /** The return query `Book.id == book_id and Book.status == "rented"` finds a row. */
  predicate RentedOut(s: State, bookId: int) {
    bookId in s.books && s.books[bookId].status == Rented
  }

  /** The new balance after a charge: the previous balance plus it, or the charge alone. */
  function ChargeOnto(previous: Option<int>, charge: int): int {
    match previous
    case Some(p) => p + charge
    case None => charge
  }

  /** `s'` extends `s` by one transaction and one balance entry, users and catalogue kept. */
  predicate AppendsOne(s: State, s': State) {
    && s'.users == s.users
    && s'.books.Keys == s.books.Keys
    && |s'.txns| == |s.txns| + 1 && s'.txns[..|s.txns|] == s.txns
    && |s'.balances| == |s.balances| + 1 && s'.balances[..|s.balances|] == s.balances
  }

  /**
   * `initiate_borrow` / `initiate_borrowing` at time `now`. On success only the
   * book's status changes (`book.update(status="rented")`): its fees and every
   * other book are kept.
   */
  function Borrow(e: Engine, s: State, user: PyValue, bookId: int, requestFee: int, now: int): (r: Step)
    ensures r.outcome in {BorrowInitiated, UserNotRegistered, BookUnavailable}
    ensures r.outcome == UserNotRegistered <==> GetById(s.users, user).None?
    ensures r.outcome == BookUnavailable <==> GetById(s.users, user).Some? && !Borrowable(s, bookId)
    ensures r.outcome == BorrowInitiated <==> GetById(s.users, user).Some? && Borrowable(s, bookId)
    ensures r.outcome != BorrowInitiated ==> r.state == s
    ensures r.outcome == BorrowInitiated ==>
      && AppendsOne(s, r.state)
      && r.state.books[bookId].status == Rented
      && r.state.books == s.books[bookId := s.books[bookId].(status := Rented)]
  {
    match GetById(s.users, user)
    case None => Step(UserNotRegistered, s)
    case Some(u) =>
      if !Borrowable(s, bookId) then Step(BookUnavailable, s)
      else
        var book := s.books[bookId];
        var charge := BorrowCharge(e, book, requestFee);
        var borrow := Crud.Create(s.txns, Txn(u, bookId, charge, false, now, now + LoanPeriod));
        var previous := LatestBalance(s.balances, u);
        var entry := Crud.Create(s.balances, BalanceEntry(u, ChargeOnto(previous, charge), now, EntryLink(e, borrow.id)));
        Step(BorrowInitiated, State(s.users, s.books[bookId := book.(status := Rented)], borrow.rows, entry.rows))
  }

  /**
   * `initiate_book_return` of either engine at time `now`. On success only the
   * book's status changes (`book.update(status="not-rented")`).
   */
  function Return(e: Engine, s: State, user: PyValue, bookId: int, now: int): (r: Step)
    ensures r.outcome in {ReturnInitiated, LateReturnNoted, UserNotRegistered, BookNotRented, Crash}
    ensures r.outcome == UserNotRegistered <==> GetById(s.users, user).None?
    ensures r.outcome == BookNotRented <==> GetById(s.users, user).Some? && !RentedOut(s, bookId)
    ensures r.outcome in {UserNotRegistered, BookNotRented} ==> r.state == s
    ensures r.outcome in {ReturnInitiated, LateReturnNoted} ==>
      && AppendsOne(s, r.state)
      && r.state.books[bookId].status == NotRented
      && r.state.books == s.books[bookId := s.books[bookId].(status := NotRented)]
    ensures r.outcome == Crash ==>
      && r.state.users == s.users && r.state.books == s.books && r.state.balances == s.balances
      && |s.txns| <= |r.state.txns| && r.state.txns[..|s.txns|] == s.txns
  {
    match GetById(s.users, user)
    case None => Step(UserNotRegistered, s)
    case Some(u) =>
      if !RentedOut(s, bookId) then Step(BookNotRented, s)
      else
        match FirstTxnFor(s.txns, bookId, u)
        case None => Step(Crash, s)
        case Some(i) =>
          var book := s.books[bookId];
          var initial := s.txns[i];
          var previous := LatestBalance(s.balances, u);
          var returned := s.books[bookId := book.(status := NotRented)];
          if now > initial.dateDue then
            var fee := LateCharge(e, book);
            var late := Crud.Create(s.txns, Txn(u, bookId, fee, true, initial.dateBorrowed, now));
            var entry := Crud.Create(s.balances, BalanceEntry(u, ChargeOnto(previous, fee), now, EntryLink(e, late.id)));
            Step(LateReturnNoted, State(s.users, returned, late.rows, entry.rows))
          else
            // The return row is committed by `create` before the balance is read.
            var onTime := Crud.Create(s.txns, Txn(u, bookId, 0, true, initial.dateBorrowed, now));
            match previous
            case None => Step(Crash, s.(txns := onTime.rows))
            case Some(p) =>
              var entry := Crud.Create(s.balances, BalanceEntry(u, p - OnTimeDeduction(e, book), now, EntryLink(e, onTime.id)));
              Step(ReturnInitiated, State(s.users, returned, onTime.rows, entry.rows))
  }

  /** One request to either route, with the time it is served at. */
  datatype Request =
    | BorrowRequest(user: PyValue, bookId: int, requestFee: int, at: int)
    | ReturnRequest(user: PyValue, bookId: int, at: int)

  function Serve(e: Engine, s: State, req: Request): Step {
    match req
    case BorrowRequest(user, bookId, fee, at) => Borrow(e, s, user, bookId, fee, at)
    case ReturnRequest(user, bookId, at) => Return(e, s, user, bookId, at)
  }

  /** The store after serving `reqs` one after another, whatever their outcomes. */
  function Run(e: Engine, s: State, reqs: seq<Request>): State
    decreases |reqs|
  {
    if |reqs| == 0 then s else Run(e, Serve(e, s, reqs[0]).state, reqs[1..])
  }
}
