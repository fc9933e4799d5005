/**
 * The lending rules of Services/libraryService.js: borrowing, returning with
 * a late fine, selling, adding funds and the overdue listing, each as an
 * operation on the shared `Database`.
 *
 * `now` is the moment the operation reads the clock. The fine is 0.5 per
 * whole day late, that is one half-unit per day.
 */
module Library {
  import opened Wrappers
  import opened Schema
  import opened Store

  /** The errors the service throws, by message. */
  datatype LibError =
    | BookNotFound        // 'Book not found'
    | UserNotFound        // 'User not found'
    | NoCopies            // 'No copies available for borrowing'
    | NotABorrowing       // 'Transaction not found or not a borrowing transaction'
    | AlreadyReturned     // 'Book already returned'
    | NotForSale          // 'Book is not available for sale'
    | InsufficientFunds   // 'Insufficient funds'
    | NonPositiveAmount   // 'Amount must be positive'
    | DanglingReference   // a TypeError: a populated book or user no longer exists

  /** The loan period when the caller gives none. */
  const DefaultLoanDays: int := 14

  /** The due date of a loan of `days` days (14 by default) starting at `now`. */
  function DueDate(now: Millis, days: Option<int>): (due: Millis)
    ensures days.None? ==> due - now == DefaultLoanDays * MsPerDay
    ensures days.Some? ==> due - now == days.value * MsPerDay
  {
    now + (match days case None => DefaultLoanDays case Some(d) => d) * MsPerDay
  }

  /** `Math.floor((now - due) / MS_PER_DAY)` for a return after the due date. */
  function DaysLate(due: Millis, now: Millis): (d: nat)
    requires now > due
    ensures d * MsPerDay <= now - due < (d + 1) * MsPerDay
  {
    (now - due) / MsPerDay
  }

  /** The fine branch is taken: the loan is still active and `now` is past its due date. */
  predicate FinedOnReturn(t: Transaction, now: Millis)
  {
    t.status == Active && t.dueDate.Some? && now > t.dueDate.value
  }

  /** The fine of returning `t` at `now`, in half-units. */
  function Fine(t: Transaction, now: Millis): (f: nat)
    ensures FinedOnReturn(t, now) ==> f == DaysLate(t.dueDate.value, now)
    ensures !FinedOnReturn(t, now) ==> f == 0
  {
    if FinedOnReturn(t, now) then DaysLate(t.dueDate.value, now) else 0
  }

  /** A later return is never fined less. */
  lemma FineMonotone(t: Transaction, now1: Millis, now2: Millis)
    requires now1 <= now2
    ensures Fine(t, now1) <= Fine(t, now2)
  {
    if FinedOnReturn(t, now1) {
      var due := t.dueDate.value;
      assert DaysLate(due, now1) <= DaysLate(due, now2);
    }
  }

  /**
   * A loan that `markOverdueTransactions` has already flagged escapes the
   * fine: the same late return costs a whole day's fine per day while the
   * loan is active, and nothing once it is overdue.
   */
  lemma FlaggedLoanEscapesFine(t: Transaction, now: Millis)
    requires t.status == Active && t.dueDate.Some? && now - t.dueDate.value >= MsPerDay
    ensures Fine(t, now) >= 1
    ensures Fine(t.(status := Overdue), now) == 0
  {
    assert DaysLate(t.dueDate.value, now) >= 1;
  }

  /** `tid` names a borrow that is not completed yet. */
  predicate Returnable(transactions: map<Id, Transaction>, tid: Id)
  {
    tid in transactions && transactions[tid].txType == Borrow && transactions[tid].status != Completed
  }

  /** A returnable loan whose fine, if any, has a borrower to charge. */
  predicate ReturnProceeds(transactions: map<Id, Transaction>, users: map<Id, User>, tid: Id, now: Millis)
  {
    Returnable(transactions, tid) && (FinedOnReturn(transactions[tid], now) ==> transactions[tid].user in users)
  }

  /** The transaction as the return leaves it. */
  function Returned(t: Transaction, now: Millis): (r: Transaction)
    ensures r.status == Completed && r.returnDate == Some(now)
    ensures r.(status := t.status, returnDate := t.returnDate) == t
    ensures ValidTransaction(t) ==> ValidTransaction(r)
  {
    t.(status := Completed, returnDate := Some(now))
  }

  /**
   * `borrowBook`: the book, then the user must exist and the book must have
   * a copy; a new active borrow is recorded and one copy taken.
   */
  method BorrowBook(db: Database, bookId: Id, userId: Id, days: Option<int>, now: Millis) returns (r: Result<Id, LibError>)
    requires db.Valid()
    modifies db
    ensures db.Valid()
    ensures bookId !in old(db.books) ==> r == Err(BookNotFound)
    ensures bookId in old(db.books) && userId !in old(db.users) ==> r == Err(UserNotFound)
    ensures bookId in old(db.books) && userId in old(db.users) && old(db.books)[bookId].copiesAvailable <= 0 ==>
              r == Err(NoCopies)
    ensures r.Ok? <==> bookId in old(db.books) && userId in old(db.users) && old(db.books)[bookId].copiesAvailable > 0
    ensures r.Err? ==> unchanged(db)
    ensures r.Ok? ==>
              && r.value == old(db.nextId) && r.value !in old(db.transactions)
              && db.transactions == old(db.transactions)[r.value :=
                   Transaction(bookId, userId, Borrow, now, Some(DueDate(now, days)), None, Active, None)]
              && db.books == old(db.books)[bookId := old(db.books)[bookId].(copiesAvailable := old(db.books)[bookId].copiesAvailable - 1)]
              && db.users == old(db.users)
    ensures LifecycleKept(old(db.transactions), db.transactions)
  {
    if bookId !in db.books {
      return Err(BookNotFound);
    }
    if userId !in db.users {
      return Err(UserNotFound);
    }
    var book := db.books[bookId];
    if book.copiesAvailable <= 0 {
      return Err(NoCopies);
    }
    var t := NewTransaction(bookId, userId, Borrow, Some(now), Some(DueDate(now, days)), None, Some(Active), None, now);
    var saved := db.SaveTransaction(t);
    assert saved.Ok?;
    db.books := db.books[bookId := book.(copiesAvailable := book.copiesAvailable - 1)];
    r := Ok(saved.value);
  }

  /**
   * `returnBook`: only an existing borrow that is not completed can be
   * returned. A late active loan first fines its borrower, then the loan is
   * completed at `now` and its copy put back. The fine is charged through
   * the populated user, so a borrower who no longer exists makes the late
   * branch throw before anything is written; a book that no longer exists
   * makes the final increment throw after the loan and the fine are saved.
   */
  method ReturnBook(db: Database, tid: Id, now: Millis) returns (r: Result<Transaction, LibError>)
    requires db.Valid()
    modifies db
    ensures db.Valid()
    ensures !Returnable(old(db.transactions), tid) ==>
              unchanged(db) &&
              r == (if tid in old(db.transactions) && old(db.transactions)[tid].txType == Borrow
                    then Err(AlreadyReturned) else Err(NotABorrowing))
    ensures Returnable(old(db.transactions), tid) && !ReturnProceeds(old(db.transactions), old(db.users), tid, now) ==>
              r == Err(DanglingReference) && unchanged(db)
    ensures ReturnProceeds(old(db.transactions), old(db.users), tid, now) ==>
              var t := old(db.transactions)[tid];
              && db.nextId == old(db.nextId)
              && db.transactions == old(db.transactions)[tid := Returned(t, now)]
              && db.users == (if FinedOnReturn(t, now)
                              then old(db.users)[t.user := old(db.users)[t.user].(balance := old(db.users)[t.user].balance - Fine(t, now))]
                              else old(db.users))
              && db.books == (if t.book in old(db.books)
                              then old(db.books)[t.book := old(db.books)[t.book].(copiesAvailable := old(db.books)[t.book].copiesAvailable + 1)]
                              else old(db.books))
              && r == (if t.book in old(db.books) then Ok(Returned(t, now)) else Err(DanglingReference))
    ensures LifecycleKept(old(db.transactions), db.transactions)
  {
    if tid !in db.transactions || db.transactions[tid].txType != Borrow {
      return Err(NotABorrowing);
    }
    var t := db.transactions[tid];
    if t.status == Completed {
      return Err(AlreadyReturned);
    }
    if FinedOnReturn(t, now) {
      if t.user !in db.users {
        return Err(DanglingReference);
      }
      var u := db.users[t.user];
      RewriteUser(db.books, db.users, db.transactions, db.nextId, t.user, u.(balance := u.balance - Fine(t, now)));
      db.users := db.users[t.user := u.(balance := u.balance - Fine(t, now))];
    }
    RewriteTransaction(db.books, db.users, db.transactions, db.nextId, tid, Returned(t, now));
    db.transactions := db.transactions[tid := Returned(t, now)];
    if t.book !in db.books {
      return Err(DanglingReference);
    }
    var b := db.books[t.book];
    RewriteBook(db.books, db.users, db.transactions, db.nextId, t.book, b.(copiesAvailable := b.copiesAvailable + 1));
    db.books := db.books[t.book := b.(copiesAvailable := b.copiesAvailable + 1)];
    r := Ok(Returned(t, now));
  }

  /**
   * `sellBook`: the book, then the user must exist; the book must have a
   * copy and be for sale; the buyer must afford the price. A completed
   * purchase at the book's price is recorded, one copy taken and the price
   * charged.
   */
  method SellBook(db: Database, bookId: Id, userId: Id, now: Millis) returns (r: Result<Id, LibError>)
    requires db.Valid()
    modifies db
    ensures db.Valid()
    ensures bookId !in old(db.books) ==> r == Err(BookNotFound)
    ensures bookId in old(db.books) && userId !in old(db.users) ==> r == Err(UserNotFound)
    ensures bookId in old(db.books) && userId in old(db.users) ==>
              var b, u := old(db.books)[bookId], old(db.users)[userId];
              && ((b.copiesAvailable <= 0 || !b.forSale) ==> r == Err(NotForSale))
              && (b.copiesAvailable > 0 && b.forSale && u.balance < b.price.value ==> r == Err(InsufficientFunds))
              && (b.copiesAvailable > 0 && b.forSale && u.balance >= b.price.value ==>
                    && r == Ok(old(db.nextId)) && old(db.nextId) !in old(db.transactions)
                    && db.transactions == old(db.transactions)[old(db.nextId) :=
                         Transaction(bookId, userId, Purchase, now, None, None, Completed, Some(b.price.value))]
                    && db.books == old(db.books)[bookId := b.(copiesAvailable := b.copiesAvailable - 1)]
                    && db.users == old(db.users)[userId := u.(balance := u.balance - b.price.value)])
    ensures r.Err? ==> unchanged(db)
    ensures LifecycleKept(old(db.transactions), db.transactions)
  {
    if bookId !in db.books {
      return Err(BookNotFound);
    }
    if userId !in db.users {
      return Err(UserNotFound);
    }
    var book := db.books[bookId];
    var user := db.users[userId];
    if book.copiesAvailable <= 0 || !book.forSale {
      return Err(NotForSale);
    }
    var price := book.price.value;
    if user.balance < price {
      return Err(InsufficientFunds);
    }
    var t := NewTransaction(bookId, userId, Purchase, None, None, None, Some(Completed), Some(price), now);
    var saved := db.SaveTransaction(t);
    assert saved.Ok?;
    db.books := db.books[bookId := book.(copiesAvailable := book.copiesAvailable - 1)];
    db.users := db.users[userId := user.(balance := user.balance - price)];
    r := Ok(saved.value);
  }

  /** `addUserFunds`: a positive amount is added to an existing user's balance. */
  method AddUserFunds(db: Database, userId: Id, amount: Money) returns (r: Result<User, LibError>)
    requires db.Valid()
    modifies db
    ensures db.Valid()
    ensures amount <= 0 ==> r == Err(NonPositiveAmount)
    ensures amount > 0 && userId !in old(db.users) ==> r == Err(UserNotFound)
    ensures r.Err? ==> unchanged(db)
    ensures r.Ok? <==> amount > 0 && userId in old(db.users)
    ensures r.Ok? ==> && r.value == old(db.users)[userId].(balance := old(db.users)[userId].balance + amount)
                      && db.users == old(db.users)[userId := r.value]
                      && db.books == old(db.books) && db.transactions == old(db.transactions)
                      && db.nextId == old(db.nextId)
  {
    if amount <= 0 {
      return Err(NonPositiveAmount);
    }
    if userId !in db.users {
      return Err(UserNotFound);
    }
    var u := db.users[userId];
    var updated := u.(balance := u.balance + amount);
    db.users := db.users[userId := updated];
    r := Ok(updated);
  }

  /** The filter of `getOverdueTransactions`: an active borrow due before `now`. */
  predicate OverdueLoan(t: Transaction, now: Millis)
  {
    t.txType == Borrow && t.status == Active && t.dueDate.Some? && t.dueDate.value < now
  }

  /** `getOverdueTransactions`: the active borrows due before `now`, in natural order. */
  function OverdueLoans(transactions: map<Id, Transaction>, nextId: Id, now: Millis): (r: seq<Id>)
    ensures forall id :: id in r <==> id in transactions && id < nextId && OverdueLoan(transactions[id], now)
    ensures forall i, j :: 0 <= i < j < |r| ==> r[i] < r[j]
  {
    Scan(transactions, nextId, (t: Transaction) => OverdueLoan(t, now))
  }

  /** Every loan the listing reports would be fined if returned at the same moment. */
  lemma ListedLoansAreFined(transactions: map<Id, Transaction>, nextId: Id, now: Millis, id: Id)
    requires id in OverdueLoans(transactions, nextId, now)
    ensures FinedOnReturn(transactions[id], now)
  {
  }
}
