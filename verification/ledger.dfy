/**
 * The records the rental engine reads and writes: books, the append-only
 * transaction log and the append-only balance ledger, and the two queries the
 * engine runs against them (the first transaction for a book and user, and a
 * user's latest balance entry).
 */
module Ledger {
  import opened Options

  const Rented: string := "rented"
  const NotRented: string := "not-rented"

  /** Time is an integer count of seconds. */
  const SecondsPerDay: int := 86400
  /** The loan window: a borrow is due 14 days after it starts. */
  const LoanPeriod: int := 14 * SecondsPerDay

  /** The columns of a book row the engine uses; fees are integers. */
  datatype Book = Book(status: string, rentFee: int, latePenaltyFee: int)

  /**
   * `Book(...)`: the status argument defaults to "not-rented", the column
   * default, so a book created without one is available for renting.
   */
  function NewBook(rentFee: int, latePenaltyFee: int, status: Option<string>): (b: Book)
    ensures status.None? ==> b.status == NotRented && b.status != Rented
    ensures status.Some? ==> b.status == status.value
    ensures b.rentFee == rentFee && b.latePenaltyFee == latePenaltyFee
  {
    Book(status.GetOr(NotRented), rentFee, latePenaltyFee)
  }

  /** One row of the transaction log; a return is a new row, not an edit. */
  datatype Txn = Txn(user: int, book: int, rentFee: int, isReturn: bool, dateBorrowed: int, dateDue: int)

  /** One row of the balance ledger, optionally linked to the transaction (by id) that produced it. */
  datatype BalanceEntry = BalanceEntry(user: int, balance: int, dateOfEntry: int, txn: Option<nat>)

  /**
   * The store. A transaction's or entry's id is its position in its log, as
   * an auto-incremented key would give.
   */
  datatype State = State(users: set<int>, books: map<int, Book>, txns: seq<Txn>, balances: seq<BalanceEntry>)

  predicate IsFor(t: Txn, book: int, user: int) {
    t.book == book && t.user == user
  }

  /**
   * The row `filter(book_id == book, user_id == user).first()` returns: the
   * earliest stored transaction for the pair, whether a borrow or a return.
   */
  function FirstTxnFor(txns: seq<Txn>, book: int, user: int): (r: Option<nat>)
    ensures r.None? <==> forall i | 0 <= i < |txns| :: !IsFor(txns[i], book, user)
    ensures r.Some? ==> r.value < |txns| && IsFor(txns[r.value], book, user)
    ensures r.Some? ==> forall j | 0 <= j < r.value :: !IsFor(txns[j], book, user)
  {
    if |txns| == 0 then None
    else if IsFor(txns[0], book, user) then Some(0)
    else
      match FirstTxnFor(txns[1..], book, user)
      case None => None
      case Some(i) => Some(i + 1)
  }

  /** The index of the user's last balance entry, if any. */
  function LatestEntryFor(entries: seq<BalanceEntry>, user: int): (r: Option<nat>)
    ensures r.None? <==> forall i | 0 <= i < |entries| :: entries[i].user != user
    ensures r.Some? ==> r.value < |entries| && entries[r.value].user == user
    ensures r.Some? ==> forall j | r.value < j < |entries| :: entries[j].user != user
  {
    if |entries| == 0 then None
    else if entries[|entries| - 1].user == user then Some(|entries| - 1)
    else LatestEntryFor(entries[..|entries| - 1], user)
  }

  /** The user's latest balance, or None when the user has no entry yet. */
  function LatestBalance(entries: seq<BalanceEntry>, user: int): Option<int> {
    match LatestEntryFor(entries, user)
    case None => None
    case Some(i) => Some(entries[i].balance)
  }

  /** The balance a user owes: the latest entry's, or 0 before any borrow. */
  function CurrentBalance(entries: seq<BalanceEntry>, user: int): int {
    LatestBalance(entries, user).GetOr(0)
  }

  /** Appending an entry makes it its user's latest and changes nobody else's. */
  lemma LatestAfterAppend(entries: seq<BalanceEntry>, e: BalanceEntry, user: int)
    ensures LatestBalance(entries + [e], user)
         == if e.user == user then Some(e.balance) else LatestBalance(entries, user)
  {
    assert (entries + [e])[..|entries|] == entries;
  }

  /** Entries appear in the ledger in order of their `date_of_entry`. */
  ghost predicate DatesOrdered(entries: seq<BalanceEntry>) {
    forall i, j | 0 <= i < j < |entries| :: entries[i].dateOfEntry <= entries[j].dateOfEntry
  }

  /**
   * On a ledger written with a clock that never runs backwards, the last entry
   * for a user is one with the greatest `date_of_entry`, i.e. the row that
   * `order_by(desc(date_of_entry)).first()` returns (up to ties).
   */
  lemma LatestHasNewestDate(entries: seq<BalanceEntry>, user: int)
    requires DatesOrdered(entries)
    requires LatestEntryFor(entries, user).Some?
    ensures forall j | 0 <= j < |entries| && entries[j].user == user ::
      entries[j].dateOfEntry <= entries[LatestEntryFor(entries, user).value].dateOfEntry
  {
  }

  /** The first transaction for a pair stays first as the log grows. */
  lemma FirstTxnStable(txns: seq<Txn>, more: seq<Txn>, book: int, user: int)
    requires FirstTxnFor(txns, book, user).Some?
    ensures FirstTxnFor(txns + more, book, user) == FirstTxnFor(txns, book, user)
  {
    var i := FirstTxnFor(txns, book, user).value;
    var all := txns + more;
    assert IsFor(all[i], book, user);
    assert forall j | 0 <= j < i :: all[j] == txns[j];
  }

  /** With no earlier row for the pair, an appended row for it becomes the first. */
  lemma FirstTxnOfFresh(txns: seq<Txn>, t: Txn)
    requires FirstTxnFor(txns, t.book, t.user).None?
    ensures FirstTxnFor(txns + [t], t.book, t.user) == Some(|txns|)
  {
    var all := txns + [t];
    assert IsFor(all[|txns|], t.book, t.user);
    assert forall j | 0 <= j < |txns| :: all[j] == txns[j];
  }
}
