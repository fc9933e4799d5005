/**
 * The catalogue rules of backend/src/services/bookService.js: submitting a
 * book, approving it, changing its stock, putting it on and taking it off
 * sale, and the two paged listings (pending approval, for sale).
 *
 * `findByIdAndUpdate` runs no validators and answers `null` for an unknown
 * id; the update methods below answer `None` for that case and change nothing.
 */
module Books {
  import opened Wrappers
  import opened Schema
  import opened Store

  /** The errors the service throws. */
  datatype BookError =
    | NotANumber        // 'incrementBy must be a number'
    | NonPositivePrice  // 'Price must be greater than zero'
    | MissingBook       // a TypeError: the updated book is `null`
    | NegativeStock     // the corrected stock update refuses to go below zero
    | Rejected(cause: DbError)

  /** What a caller submits; fields beyond the five copied ones are ignored. */
  datatype BookData = BookData(
    title: string,
    isbn: string,
    author: string,
    publicationYear: Option<int>,
    copiesAvailable: Option<int>,
    approved: Option<bool>,
    forSale: Option<bool>,
    price: Option<Money>)

  /** The page size when the caller gives none. */
  const DefaultLimit: int := 20

  /** The number of leading results skipped when the caller gives none. */
  const DefaultSkip: int := 0

  function OrDefault(x: Option<int>, d: int): int
  {
    match x case None => d case Some(v) => v
  }

  /** The book `addBook` builds from the submitted data; title and author are trimmed. */
  function Submitted(data: BookData, userId: Id): (b: Book)
    ensures b.title == Trim(data.title) && b.isbn == data.isbn && b.author == Trim(data.author)
    ensures b.publicationYear == data.publicationYear
    ensures b.copiesAvailable == OrDefault(data.copiesAvailable, 1)
    ensures !b.approved && b.submittedBy == userId && !b.forSale && b.price.None?
  {
    NewBook(data.title, data.isbn, data.author, data.publicationYear, data.copiesAvailable, userId)
  }

  /** Only the five copied fields decide the stored book. */
  lemma SubmissionIgnoresFlags(data: BookData, userId: Id, approved: Option<bool>, forSale: Option<bool>, price: Option<Money>)
    ensures Submitted(data.(approved := approved, forSale := forSale, price := price), userId) == Submitted(data, userId)
  {
  }

  /**
   * `addBook`: the submitted book is stored unapproved, not for sale and
   * credited to the caller, unless a validator or the isbn index refuses it.
   */
  method AddBook(db: Database, data: BookData, userId: Id) returns (r: Result<Id, BookError>)
    requires db.Valid()
    modifies db
    ensures db.Valid()
    ensures r.Ok? <==> ValidBook(Submitted(data, userId))
                       && forall id :: id in old(db.books) ==> old(db.books)[id].isbn != data.isbn
    ensures !ValidBook(Submitted(data, userId)) ==> r == Err(Rejected(ValidationError))
    ensures AllSpace(data.title) || AllSpace(data.author) ==> r == Err(Rejected(ValidationError))
    ensures r.Err? ==> db.books == old(db.books) && db.nextId == old(db.nextId)
    ensures r.Ok? ==> r.value == old(db.nextId) && db.books == old(db.books)[r.value := Submitted(data, userId)]
                      && db.nextId == old(db.nextId) + 1
    ensures db.users == old(db.users) && db.transactions == old(db.transactions)
  {
    var saved := db.SaveBook(Submitted(data, userId));
    if saved.Err? {
      return Err(Rejected(saved.error));
    }
    r := Ok(saved.value);
  }

  /** `approveBook`: sets `approved` and nothing else; `None` for an unknown id. */
  method ApproveBook(db: Database, bookId: Id) returns (r: Option<Book>)
    requires db.Valid()
    modifies db
    ensures db.Valid()
    ensures r.Some? <==> bookId in old(db.books)
    ensures r.None? ==> unchanged(db)
    ensures r.Some? ==> r.value == old(db.books)[bookId].(approved := true)
                        && db.books == old(db.books)[bookId := r.value]
    ensures db.users == old(db.users) && db.transactions == old(db.transactions) && db.nextId == old(db.nextId)
  {
    if bookId !in db.books {
      return None;
    }
    var b := db.books[bookId].(approved := true);
    RewriteBook(db.books, db.users, db.transactions, db.nextId, bookId, b);
    db.books := db.books[bookId := b];
    r := Some(b);
  }

  /**
   * `updateBookCopies` as written: a non-number is refused, an unknown id
   * fails on the `null` result, and otherwise `$inc` adds the increment
   * without running the `min: 0` validator.
   */
  function UpdateBookCopiesAsWritten(books: map<Id, Book>, bookId: Id, incrementBy: Option<int>): (r: Result<map<Id, Book>, BookError>)
    ensures incrementBy.None? ==> r == Err(NotANumber)
    ensures incrementBy.Some? && bookId !in books ==> r == Err(MissingBook)
    ensures r.Ok? <==> incrementBy.Some? && bookId in books
    ensures r.Ok? ==> r.value.Keys == books.Keys
                      && r.value[bookId].copiesAvailable == books[bookId].copiesAvailable + incrementBy.value
    ensures r.Ok? ==> forall id :: id in books && id != bookId ==> r.value[id] == books[id]
    ensures r.Ok? ==> r.value[bookId] == books[bookId].(copiesAvailable := r.value[bookId].copiesAvailable)
  {
    match incrementBy
    case None => Err(NotANumber)
    case Some(inc) =>
      if bookId !in books then Err(MissingBook)
      else Ok(books[bookId := books[bookId].(copiesAvailable := books[bookId].copiesAvailable + inc)])
  }

  /** The update as written takes a book with no copies to -1 copies. */
  lemma AsWrittenStockGoesNegative()
    ensures var books := map[0 := Book("Dune", "9780441013593", "Herbert", None, 0, true, 0, false, None)];
            && Consistent(books, map[], map[], 1)
            && UpdateBookCopiesAsWritten(books, 0, Some(-1)).Ok?
            && !Consistent(UpdateBookCopiesAsWritten(books, 0, Some(-1)).value, map[], map[], 1)
  {
    var books := map[0 := Book("Dune", "9780441013593", "Herbert", None, 0, true, 0, false, None)];
    var after := UpdateBookCopiesAsWritten(books, 0, Some(-1)).value;
    assert after[0].copiesAvailable == -1;
    assert !ValidBook(after[0]);
  }

  /**
   * `updateBookCopies` with the `min: 0` constraint kept: the count changes
   * by exactly the increment, unless that would leave fewer than no copies.
   */
  method UpdateBookCopies(db: Database, bookId: Id, incrementBy: Option<int>) returns (r: Result<Book, BookError>)
    requires db.Valid()
    modifies db
    ensures db.Valid()
    ensures incrementBy.None? ==> r == Err(NotANumber)
    ensures incrementBy.Some? && bookId !in old(db.books) ==> r == Err(MissingBook)
    ensures incrementBy.Some? && bookId in old(db.books) ==>
              (old(db.books)[bookId].copiesAvailable + incrementBy.value < 0 ==> r == Err(NegativeStock))
    ensures r.Err? ==> unchanged(db)
    ensures r.Ok? <==> incrementBy.Some? && bookId in old(db.books)
                       && old(db.books)[bookId].copiesAvailable + incrementBy.value >= 0
    ensures r.Ok? ==> && r.value == old(db.books)[bookId].(copiesAvailable := old(db.books)[bookId].copiesAvailable + incrementBy.value)
                      && db.books == old(db.books)[bookId := r.value]
                      && UpdateBookCopiesAsWritten(old(db.books), bookId, incrementBy) == Ok(db.books)
    ensures db.users == old(db.users) && db.transactions == old(db.transactions) && db.nextId == old(db.nextId)
  {
    if incrementBy.None? {
      return Err(NotANumber);
    }
    if bookId !in db.books {
      return Err(MissingBook);
    }
    var b := db.books[bookId];
    var count := b.copiesAvailable + incrementBy.value;
    if count < 0 {
      return Err(NegativeStock);
    }
    var updated := b.(copiesAvailable := count);
    RewriteBook(db.books, db.users, db.transactions, db.nextId, bookId, updated);
    db.books := db.books[bookId := updated];
    r := Ok(updated);
  }

  /** `!price || price <= 0`: a missing, zero or negative price. */
  predicate NoPrice(price: Option<Money>)
  {
    price.None? || price.value <= 0
  }

  /**
   * `markBookForSale`: a missing or non-positive price is refused before any
   * lookup; otherwise the book is put on sale at that price.
   */
  method MarkBookForSale(db: Database, bookId: Id, price: Option<Money>) returns (r: Result<Option<Book>, BookError>)
    requires db.Valid()
    modifies db
    ensures db.Valid()
    ensures r.Err? <==> NoPrice(price)
    ensures r.Err? ==> r.error == NonPositivePrice
    ensures r == Ok(None) <==> !NoPrice(price) && bookId !in old(db.books)
    ensures r.Err? || r == Ok(None) ==> unchanged(db)
    ensures r.Ok? && r.value.Some? ==>
              && r.value.value == old(db.books)[bookId].(forSale := true, price := price)
              && db.books == old(db.books)[bookId := r.value.value]
    ensures db.users == old(db.users) && db.transactions == old(db.transactions) && db.nextId == old(db.nextId)
  {
    if NoPrice(price) {
      return Err(NonPositivePrice);
    }
    if bookId !in db.books {
      return Ok(None);
    }
    var b := db.books[bookId].(forSale := true, price := price);
    RewriteBook(db.books, db.users, db.transactions, db.nextId, bookId, b);
    db.books := db.books[bookId := b];
    r := Ok(Some(b));
  }

  /** `removeBookFromSale`: clears `forSale` and leaves the price as it was. */
  method RemoveBookFromSale(db: Database, bookId: Id) returns (r: Option<Book>)
    requires db.Valid()
    modifies db
    ensures db.Valid()
    ensures r.Some? <==> bookId in old(db.books)
    ensures r.None? ==> unchanged(db)
    ensures r.Some? ==> r.value == old(db.books)[bookId].(forSale := false)
                        && r.value.price == old(db.books)[bookId].price
                        && db.books == old(db.books)[bookId := r.value]
    ensures db.users == old(db.users) && db.transactions == old(db.transactions) && db.nextId == old(db.nextId)
  {
    if bookId !in db.books {
      return None;
    }
    var b := db.books[bookId].(forSale := false);
    RewriteBook(db.books, db.users, db.transactions, db.nextId, bookId, b);
    db.books := db.books[bookId := b];
    r := Some(b);
  }

  /** The filter of `getPendingBooks`. */
  predicate Pending(b: Book)
  {
    !b.approved
  }

  /** The filter of `getBooksForSale`: approved, on sale, and at least one copy. */
  predicate OnSale(b: Book)
  {
    b.approved && b.forSale && b.copiesAvailable > 0
  }

  /**
   * `getPendingBooks`: the window `skip` (0 by default), `limit` (20 by
   * default) of the unapproved books in natural order.
   */
  function GetPendingBooks(books: map<Id, Book>, nextId: Id, limit: Option<int>, skip: Option<int>): (r: Result<seq<Id>, DbError>)
    ensures r.Err? <==> OrDefault(skip, DefaultSkip) < 0
    ensures r.Ok? ==> forall id :: id in r.value ==> id in books && id < nextId && Pending(books[id])
    ensures r.Ok? && limit.None? ==> |r.value| <= DefaultLimit
    ensures r.Ok? && limit.None? && skip.None? ==>
              r.value == Scan(books, nextId, Pending)[..Min(DefaultLimit, |Scan(books, nextId, Pending)|)]
  {
    Window(Scan(books, nextId, Pending), OrDefault(skip, DefaultSkip), OrDefault(limit, DefaultLimit))
  }

  /**
   * `getBooksForSale`: the window `skip` (0 by default), `limit` (20 by
   * default) of the approved books on sale with a copy left, in natural order.
   */
  function GetBooksForSale(books: map<Id, Book>, nextId: Id, limit: Option<int>, skip: Option<int>): (r: Result<seq<Id>, DbError>)
    ensures r.Err? <==> OrDefault(skip, DefaultSkip) < 0
    ensures r.Ok? ==> forall id :: id in r.value ==> id in books && id < nextId && OnSale(books[id])
    ensures r.Ok? && limit.None? ==> |r.value| <= DefaultLimit
    ensures r.Ok? && limit.None? && skip.None? ==>
              r.value == Scan(books, nextId, OnSale)[..Min(DefaultLimit, |Scan(books, nextId, OnSale)|)]
  {
    Window(Scan(books, nextId, OnSale), OrDefault(skip, DefaultSkip), OrDefault(limit, DefaultLimit))
  }

  /**
   * With no limit, the listing of books for sale holds exactly the matching
   * books from `skip` on: none is left out and none is listed twice.
   */
  lemma UnlimitedSaleListingIsExact(books: map<Id, Book>, nextId: Id)
    ensures var r := GetBooksForSale(books, nextId, Some(0), None);
            && r.Ok?
            && (forall id :: id in r.value <==> id in books && id < nextId && OnSale(books[id]))
            && (forall i, j :: 0 <= i < j < |r.value| ==> r.value[i] < r.value[j])
  {
    var all := Scan(books, nextId, OnSale);
    var r := GetBooksForSale(books, nextId, Some(0), None);
    assert r.value == all[0..|all|];
    assert all[0..|all|] == all;
  }

  /** A book listed for sale has a price and passes every check of `sellBook` but the buyer's funds. */
  lemma ListedBooksAreSellable(books: map<Id, Book>, nextId: Id, limit: Option<int>, skip: Option<int>, id: Id)
    requires forall k :: k in books ==> ValidBook(books[k])
    requires GetBooksForSale(books, nextId, limit, skip).Ok?
    requires id in GetBooksForSale(books, nextId, limit, skip).value
    ensures id in books && books[id].forSale && books[id].copiesAvailable > 0 && books[id].price.Some?
  {
  }

  /** Taking a book off sale removes it from the listing of books for sale. */
  lemma RemovedBookLeavesSaleListing(books: map<Id, Book>, nextId: Id, limit: Option<int>, skip: Option<int>, id: Id)
    requires id in books
    requires GetBooksForSale(books[id := books[id].(forSale := false)], nextId, limit, skip).Ok?
    ensures id !in GetBooksForSale(books[id := books[id].(forSale := false)], nextId, limit, skip).value
  {
  }
}
