/**
 * What the borrow and return routes promise, stated over the model in
 * `Rental`: the records each step appends, the balance arithmetic, what
 * happens over a whole loan, and what the error paths leave alone.
 */
module RentalProperties {
  import opened Options
  import opened Ids
  import opened Ledger
  import opened Rental

  /**
   * A successful borrow appends the borrow row (the engine's charge, due 14
   * days later) and a balance entry that raises the user's latest balance by
   * the charge; every other user's latest balance is untouched.
   */
  lemma BorrowRecords(e: Engine, s: State, user: PyValue, bookId: int, requestFee: int, now: int)
    requires Borrow(e, s, user, bookId, requestFee, now).outcome == BorrowInitiated
    ensures
      var s' := Borrow(e, s, user, bookId, requestFee, now).state;
      var u := GetById(s.users, user).value;
      var charge := BorrowCharge(e, s.books[bookId], requestFee);
      && s'.txns[|s.txns|] == Txn(u, bookId, charge, false, now, now + LoanPeriod)
      && s'.balances[|s.balances|].user == u
      && s'.balances[|s.balances|].dateOfEntry == now
      && s'.balances[|s.balances|].txn == EntryLink(e, |s.txns|)
      && LatestBalance(s'.balances, u) == Some(ChargeOnto(LatestBalance(s.balances, u), charge))
      && CurrentBalance(s'.balances, u) == CurrentBalance(s.balances, u) + charge
      && (forall v | v != u :: LatestBalance(s'.balances, v) == LatestBalance(s.balances, v))
  {
  }

  /**
   * A late return (now strictly after the due date of the first stored row for
   * the book and user) appends a return row charging the late penalty and adds
   * the penalty to the previous balance, without deducting the rent.
   */
  lemma LateReturnRecords(e: Engine, s: State, user: PyValue, bookId: int, now: int)
    requires Return(e, s, user, bookId, now).outcome == LateReturnNoted
    ensures
      var s' := Return(e, s, user, bookId, now).state;
      var u := GetById(s.users, user).value;
      var book := s.books[bookId];
      && FirstTxnFor(s.txns, bookId, u).Some?
      && var initial := s.txns[FirstTxnFor(s.txns, bookId, u).value];
      && now > initial.dateDue
      && s'.txns[|s.txns|] == Txn(u, bookId, LateCharge(e, book), true, initial.dateBorrowed, now)
      && s'.balances[|s.balances|].user == u
      && s'.balances[|s.balances|].dateOfEntry == now
      && s'.balances[|s.balances|].txn == EntryLink(e, |s.txns|)
      && LatestBalance(s'.balances, u) == Some(ChargeOnto(LatestBalance(s.balances, u), LateCharge(e, book)))
      && CurrentBalance(s'.balances, u) == CurrentBalance(s.balances, u) + LateCharge(e, book)
      && (forall v | v != u :: LatestBalance(s'.balances, v) == LatestBalance(s.balances, v))
  {
  }

  /**
   * An on-time return needs a previous balance entry; it appends a return row
   * with no fee that copies the borrow date, and subtracts the engine's
   * deduction from the previous balance.
   */
  lemma OnTimeReturnRecords(e: Engine, s: State, user: PyValue, bookId: int, now: int)
    requires Return(e, s, user, bookId, now).outcome == ReturnInitiated
    ensures
      var s' := Return(e, s, user, bookId, now).state;
      var u := GetById(s.users, user).value;
      var book := s.books[bookId];
      && FirstTxnFor(s.txns, bookId, u).Some?
      && var initial := s.txns[FirstTxnFor(s.txns, bookId, u).value];
      && now <= initial.dateDue
      && LatestBalance(s.balances, u).Some?
      && s'.txns[|s.txns|] == Txn(u, bookId, 0, true, initial.dateBorrowed, now)
      && s'.balances[|s.balances|].user == u
      && s'.balances[|s.balances|].dateOfEntry == now
      && s'.balances[|s.balances|].txn == EntryLink(e, |s.txns|)
      && LatestBalance(s'.balances, u) == Some(LatestBalance(s.balances, u).value - OnTimeDeduction(e, book))
      && (forall v | v != u :: LatestBalance(s'.balances, v) == LatestBalance(s.balances, v))
  {
  }

  /**
   * The two `None` dereferences of the return route. With no stored row for the
   * book and user nothing is written. An on-time return by a user with no
   * balance entry fails after its return row was committed: that row is
   * stored, but no balance entry, and the book stays rented.
   */
  lemma ReturnCrashes(e: Engine, s: State, user: PyValue, bookId: int, now: int)
    requires GetById(s.users, user).Some? && RentedOut(s, bookId)
    ensures
      var u := GetById(s.users, user).value;
      var r := Return(e, s, user, bookId, now);
      && (FirstTxnFor(s.txns, bookId, u).None? ==> r == Step(Crash, s))
      && (FirstTxnFor(s.txns, bookId, u).Some? ==>
            (r.outcome == Crash <==>
               now <= s.txns[FirstTxnFor(s.txns, bookId, u).value].dateDue
               && LatestBalance(s.balances, u).None?))
      && (FirstTxnFor(s.txns, bookId, u).Some? && r.outcome == Crash ==>
            && |r.state.txns| == |s.txns| + 1
            && r.state.txns[|s.txns|].isReturn
            && r.state.txns[|s.txns|].rentFee == 0
            && r.state.books[bookId].status == Rented
            && LatestBalance(r.state.balances, u).None?)
  {
  }

  /**
   * A whole loan of a book the user never had before: borrow at `t1`, then
   * return at `t2`. On time, the balance moves by the charge minus the
   * deduction; late, by the charge plus the late penalty. Either way the book
   * ends "not-rented" and no other book changes.
   */
  lemma LoanBalance(e: Engine, s0: State, user: PyValue, bookId: int, requestFee: int, t1: int, t2: int)
    requires Borrow(e, s0, user, bookId, requestFee, t1).outcome == BorrowInitiated
    requires FirstTxnFor(s0.txns, bookId, GetById(s0.users, user).value).None?
    ensures
      var u := GetById(s0.users, user).value;
      var book := s0.books[bookId];
      var charge := BorrowCharge(e, book, requestFee);
      var r2 := Return(e, Borrow(e, s0, user, bookId, requestFee, t1).state, user, bookId, t2);
      && (t2 <= t1 + LoanPeriod ==>
            && r2.outcome == ReturnInitiated
            && CurrentBalance(r2.state.balances, u) == CurrentBalance(s0.balances, u) + charge - OnTimeDeduction(e, book))
      && (t2 > t1 + LoanPeriod ==>
            && r2.outcome == LateReturnNoted
            && CurrentBalance(r2.state.balances, u) == CurrentBalance(s0.balances, u) + charge + LateCharge(e, book))
      && r2.state.books == s0.books[bookId := book.(status := NotRented)]
  {
    var u := GetById(s0.users, user).value;
    var book := s0.books[bookId];
    var s1 := Borrow(e, s0, user, bookId, requestFee, t1).state;
    BorrowRecords(e, s0, user, bookId, requestFee, t1);
    var borrow := s1.txns[|s0.txns|];
    assert s1.txns == s0.txns + [borrow];
    FirstTxnOfFresh(s0.txns, borrow);
    assert s1.books[bookId] == book.(status := Rented);
    var r2 := Return(e, s1, user, bookId, t2);
    if t2 <= t1 + LoanPeriod {
      OnTimeReturnRecords(e, s1, user, bookId, t2);
    } else {
      LateReturnRecords(e, s1, user, bookId, t2);
    }
    assert r2.state.books == s0.books[bookId := book.(status := NotRented)];
  }

  /**
   * Any borrow followed by a return of the same book by the same user, whatever
   * loans of it came before: an on-time return moves the balance by charge −
   * deduction, a late one by charge + penalty.
   */
  lemma BorrowThenReturnBalance(e: Engine, s0: State, user: PyValue, bookId: int, requestFee: int, t1: int, t2: int)
    requires Borrow(e, s0, user, bookId, requestFee, t1).outcome == BorrowInitiated
    requires Return(e, Borrow(e, s0, user, bookId, requestFee, t1).state, user, bookId, t2).outcome
          in {ReturnInitiated, LateReturnNoted}
    ensures
      var u := GetById(s0.users, user).value;
      var book := s0.books[bookId];
      var charge := BorrowCharge(e, book, requestFee);
      var r2 := Return(e, Borrow(e, s0, user, bookId, requestFee, t1).state, user, bookId, t2);
      && (r2.outcome == ReturnInitiated ==>
            CurrentBalance(r2.state.balances, u) == CurrentBalance(s0.balances, u) + charge - OnTimeDeduction(e, book))
      && (r2.outcome == LateReturnNoted ==>
            CurrentBalance(r2.state.balances, u) == CurrentBalance(s0.balances, u) + charge + LateCharge(e, book))
  {
  }

  /**
   * Current engine: a borrow followed by an on-time return leaves the user's
   * balance where it was before the borrow (0 when there was no entry), also on
   * a repeat loan of the book.
   */
  lemma CurrentRoundTrip(s0: State, user: PyValue, bookId: int, requestFee: int, t1: int, t2: int)
    requires Borrow(Current, s0, user, bookId, requestFee, t1).outcome == BorrowInitiated
    requires Return(Current, Borrow(Current, s0, user, bookId, requestFee, t1).state, user, bookId, t2).outcome
          == ReturnInitiated
    ensures
      var u := GetById(s0.users, user).value;
      var r2 := Return(Current, Borrow(Current, s0, user, bookId, requestFee, t1).state, user, bookId, t2);
      CurrentBalance(r2.state.balances, u) == CurrentBalance(s0.balances, u)
  {
  }

  /**
   * Legacy engine: the on-time return deducts 100 whatever the request charged,
   * so the round trip restores the balance exactly when the request's fee is 100.
   */
  lemma LegacyRoundTrip(s0: State, user: PyValue, bookId: int, requestFee: int, t1: int, t2: int)
    requires Borrow(Legacy, s0, user, bookId, requestFee, t1).outcome == BorrowInitiated
    requires Return(Legacy, Borrow(Legacy, s0, user, bookId, requestFee, t1).state, user, bookId, t2).outcome
          == ReturnInitiated
    ensures
      var u := GetById(s0.users, user).value;
      var r2 := Return(Legacy, Borrow(Legacy, s0, user, bookId, requestFee, t1).state, user, bookId, t2);
      CurrentBalance(r2.state.balances, u) == CurrentBalance(s0.balances, u) <==> requestFee == LegacyReturnDeduction
  {
  }

  /**
   * Current engine, late: the rent charged at the borrow is never deducted, so
   * the user ends up owing rent plus penalty more than before.
   */
  lemma CurrentLateKeepsRent(s0: State, user: PyValue, bookId: int, requestFee: int, t1: int, t2: int)
    requires Borrow(Current, s0, user, bookId, requestFee, t1).outcome == BorrowInitiated
    requires Return(Current, Borrow(Current, s0, user, bookId, requestFee, t1).state, user, bookId, t2).outcome
          == LateReturnNoted
    ensures
      var u := GetById(s0.users, user).value;
      var book := s0.books[bookId];
      var r2 := Return(Current, Borrow(Current, s0, user, bookId, requestFee, t1).state, user, bookId, t2);
      CurrentBalance(r2.state.balances, u) == CurrentBalance(s0.balances, u) + book.rentFee + book.latePenaltyFee
  {
  }

  /**
   * The return route neither checks who holds the book nor guards the balance.
   * User 2 holds book 7; user 1, who borrowed and returned it before, returns
   * it on time: the return succeeds, the book becomes "not-rented" although
   * user 2 still has it, and user 1's balance drops from 0 to −100.
   */
  lemma ReturnByNonHolderGoesNegative()
    ensures
      var book := Book(Rented, 100, 25);
      var s := State({1, 2}, map[7 := book],
                     [Txn(1, 7, 100, false, 0, LoanPeriod), Txn(1, 7, 0, true, 0, 10), Txn(2, 7, 100, false, 20, 20 + LoanPeriod)],
                     [BalanceEntry(1, 100, 0, Some(0)), BalanceEntry(1, 0, 10, Some(1)), BalanceEntry(2, 100, 20, Some(2))]);
      var r := Return(Current, s, PyInt(1), 7, 30);
      && r.outcome == ReturnInitiated
      && r.state.books[7].status == NotRented
      && CurrentBalance(r.state.balances, 1) == -100
      && CurrentBalance(r.state.balances, 2) == 100
  {
  }

  /** Once a borrow succeeds, no second borrow of that book succeeds or writes anything. */
  lemma NoDoubleRent(e: Engine, s: State, user1: PyValue, user2: PyValue, bookId: int,
                     fee1: int, fee2: int, t1: int, t2: int)
    requires Borrow(e, s, user1, bookId, fee1, t1).outcome == BorrowInitiated
    ensures
      var s1 := Borrow(e, s, user1, bookId, fee1, t1).state;
      var r2 := Borrow(e, s1, user2, bookId, fee2, t2);
      r2.outcome != BorrowInitiated && r2.state == s1
  {
  }

  /** After a successful return, any registered user can borrow the book again. */
  lemma RentAgain(e: Engine, s: State, user: PyValue, bookId: int, now: int,
                  other: PyValue, requestFee: int, later: int)
    requires Return(e, s, user, bookId, now).outcome in {ReturnInitiated, LateReturnNoted}
    requires GetById(s.users, other).Some?
    ensures Borrow(e, Return(e, s, user, bookId, now).state, other, bookId, requestFee, later).outcome
         == BorrowInitiated
  {
  }

  /**
   * The due-date test reads the first row ever stored for the book and user, so
   * a second loan of the same book is judged against the first loan's due
   * date: returning it after that date counts as late however recent the
   * second borrow is.
   */
  lemma SecondLoanJudgedByFirstDueDate(e: Engine, s0: State, user: PyValue, bookId: int,
                                       fee1: int, fee2: int, t1: int, t2: int, t3: int, t4: int)
    requires Borrow(e, s0, user, bookId, fee1, t1).outcome == BorrowInitiated
    requires FirstTxnFor(s0.txns, bookId, GetById(s0.users, user).value).None?
    requires Return(e, Borrow(e, s0, user, bookId, fee1, t1).state, user, bookId, t2).outcome
          in {ReturnInitiated, LateReturnNoted}
    requires t4 > t1 + LoanPeriod
    ensures
      var s2 := Return(e, Borrow(e, s0, user, bookId, fee1, t1).state, user, bookId, t2).state;
      var s3 := Borrow(e, s2, user, bookId, fee2, t3).state;
      Return(e, s3, user, bookId, t4).outcome == LateReturnNoted
  {
    var u := GetById(s0.users, user).value;
    var s1 := Borrow(e, s0, user, bookId, fee1, t1).state;
    var borrow := s1.txns[|s0.txns|];
    BorrowRecords(e, s0, user, bookId, fee1, t1);
    assert s1.txns == s0.txns + [borrow];
    FirstTxnOfFresh(s0.txns, borrow);
    var s2 := Return(e, s1, user, bookId, t2).state;
    RentAgain(e, s1, user, bookId, t2, user, fee2, t3);
    var s3 := Borrow(e, s2, user, bookId, fee2, t3).state;
    FirstTxnStable(s1.txns, s2.txns[|s1.txns|..], bookId, u);
    assert s2.txns == s1.txns + s2.txns[|s1.txns|..];
    FirstTxnStable(s2.txns, s3.txns[|s2.txns|..], bookId, u);
    assert s3.txns == s2.txns + s3.txns[|s2.txns|..];
  }

  /**
   * With a clock that never runs backwards both routes keep the ledger in
   * date order, so "the last entry for the user" stays the entry with the
   * latest `date_of_entry`.
   */
  lemma StepsKeepLedgerOrdered(e: Engine, s: State, user: PyValue, bookId: int, requestFee: int, now: int)
    requires DatesOrdered(s.balances)
    requires forall i | 0 <= i < |s.balances| :: s.balances[i].dateOfEntry <= now
    ensures DatesOrdered(Borrow(e, s, user, bookId, requestFee, now).state.balances)
    ensures DatesOrdered(Return(e, s, user, bookId, now).state.balances)
  {
  }

  /** The current engine reads no fee from the request. */
  lemma CurrentIgnoresRequestFee(s: State, user: PyValue, bookId: int, fee1: int, fee2: int, now: int)
    ensures Borrow(Current, s, user, bookId, fee1, now) == Borrow(Current, s, user, bookId, fee2, now)
  {
  }

  /** A book created with the default status can be borrowed by any registered user. */
  lemma NewBookBorrowable(e: Engine, s: State, user: PyValue, bookId: int, rentFee: int, latePenaltyFee: int,
                          requestFee: int, now: int)
    requires GetById(s.users, user).Some?
    ensures
      var s' := s.(books := s.books[bookId := NewBook(rentFee, latePenaltyFee, None)]);
      Borrow(e, s', user, bookId, requestFee, now).outcome == BorrowInitiated
  {
  }

  /**
   * Legacy borrow: the request's fee, not the book's, is stored on the borrow
   * row and added to the balance (or becomes the balance).
   */
  lemma LegacyBorrowChargesRequestFee(s: State, user: PyValue, bookId: int, requestFee: int, now: int)
    requires Borrow(Legacy, s, user, bookId, requestFee, now).outcome == BorrowInitiated
    ensures
      var s' := Borrow(Legacy, s, user, bookId, requestFee, now).state;
      var u := GetById(s.users, user).value;
      && s'.txns[|s.txns|].rentFee == requestFee
      && s'.txns[|s.txns|].dateDue == now + LoanPeriod
      && CurrentBalance(s'.balances, u) == CurrentBalance(s.balances, u) + requestFee
  {
  }

  /**
   * Legacy late return: the fixed penalty of 15 is stored on the return row and
   * added to the balance (or becomes the balance), whatever the book's penalty.
   */
  lemma LegacyLateChargesFifteen(s: State, user: PyValue, bookId: int, now: int)
    requires Return(Legacy, s, user, bookId, now).outcome == LateReturnNoted
    ensures
      var s' := Return(Legacy, s, user, bookId, now).state;
      var u := GetById(s.users, user).value;
      && s'.txns[|s.txns|].rentFee == 15
      && LatestBalance(s'.balances, u) == Some(LatestBalance(s.balances, u).GetOr(0) + 15)
  {
  }

  /** No balance entry the legacy engine writes links to a transaction. */
  lemma LegacyEntriesUnlinked(s: State, user: PyValue, bookId: int, requestFee: int, now: int)
    ensures
      var b := Borrow(Legacy, s, user, bookId, requestFee, now).state;
      forall i | |s.balances| <= i < |b.balances| :: b.balances[i].txn.None?
    ensures
      var r := Return(Legacy, s, user, bookId, now).state;
      forall i | |s.balances| <= i < |r.balances| :: r.balances[i].txn.None?
  {
  }

  /** `s'` holds every record of `s` unchanged, and the same users and books. */
  predicate Extends(s: State, s': State) {
    && s'.users == s.users
    && s'.books.Keys == s.books.Keys
    && |s.txns| <= |s'.txns| && s'.txns[..|s.txns|] == s.txns
    && |s.balances| <= |s'.balances| && s'.balances[..|s.balances|] == s.balances
  }

  /**
   * Over any sequence of requests the two logs only grow: no transaction or
   * balance entry, once written, is changed or removed, and no user or book
   * appears or disappears.
   */
  lemma {:induction false} RunOnlyAppends(e: Engine, s: State, reqs: seq<Request>)
    ensures Extends(s, Run(e, s, reqs))
    decreases |reqs|
  {
    if |reqs| > 0 {
      var s1 := Serve(e, s, reqs[0]).state;
      assert Extends(s, s1);
      RunOnlyAppends(e, s1, reqs[1..]);
      var t := Run(e, s1, reqs[1..]);
      assert t.txns[..|s.txns|] == t.txns[..|s1.txns|][..|s.txns|];
      assert t.balances[..|s.balances|] == t.balances[..|s1.balances|][..|s.balances|];
    }
  }

  /** Request times never go backwards and none precedes the ledger's entries. */
  ghost predicate ClockMonotone(s: State, reqs: seq<Request>) {
    && (forall i, j | 0 <= i < j < |reqs| :: reqs[i].at <= reqs[j].at)
    && (forall i, k | 0 <= i < |s.balances| && 0 <= k < |reqs| :: s.balances[i].dateOfEntry <= reqs[k].at)
  }

  /**
   * Served with a clock that never runs backwards, any sequence of requests
   * keeps the ledger in date order, so every user's last entry stays the one
   * with the newest date.
   */
  lemma {:induction false} RunKeepsLedgerOrdered(e: Engine, s: State, reqs: seq<Request>)
    requires DatesOrdered(s.balances)
    requires ClockMonotone(s, reqs)
    ensures DatesOrdered(Run(e, s, reqs).balances)
    decreases |reqs|
  {
    if |reqs| > 0 {
      ServeKeepsClock(e, s, reqs);
      RunKeepsLedgerOrdered(e, Serve(e, s, reqs[0]).state, reqs[1..]);
    }
  }

  /** Serving the first request keeps the ledger ordered and the rest of the clock monotone. */
  lemma ServeKeepsClock(e: Engine, s: State, reqs: seq<Request>)
    requires |reqs| > 0
    requires DatesOrdered(s.balances)
    requires ClockMonotone(s, reqs)
    ensures DatesOrdered(Serve(e, s, reqs[0]).state.balances)
    ensures ClockMonotone(Serve(e, s, reqs[0]).state, reqs[1..])
  {
    var s1 := Serve(e, s, reqs[0]).state;
    var now := reqs[0].at;
    match reqs[0] {
      case BorrowRequest(user, bookId, fee, at) =>
        StepsKeepLedgerOrdered(e, s, user, bookId, fee, at);
      case ReturnRequest(user, bookId, at) =>
        StepsKeepLedgerOrdered(e, s, user, bookId, 0, at);
    }
    assert forall i | 0 <= i < |s1.balances| :: s1.balances[i].dateOfEntry <= now by {
      forall i | 0 <= i < |s1.balances|
        ensures s1.balances[i].dateOfEntry <= now
      {
        if i < |s.balances| {
          assert s1.balances[..|s.balances|][i] == s.balances[i];
        }
      }
    }
    forall i, k | 0 <= i < |s1.balances| && 0 <= k < |reqs[1..]|
      ensures s1.balances[i].dateOfEntry <= reqs[1..][k].at
    {
      assert reqs[1..][k] == reqs[k + 1];
    }
  }
}
