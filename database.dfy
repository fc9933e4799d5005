/**
 * The three Mongoose collections as in-memory maps from document id to
 * record, with the save-time checks (validators and unique indexes) and the
 * query helpers every service uses: a scan in natural (creation) order and
 * the `skip`/`limit` window of a cursor.
 */
module Store {
  import opened Wrappers
  import opened Schema

  /** Why a write or a query is refused by the database. */
  datatype DbError =
    | ValidationError  // a schema validator failed
    | DuplicateKey     // a unique index already holds the value
    | NegativeSkip     // a cursor was given a negative `skip`

  /** The unique index on `isbn`. */
  predicate IsbnUnique(books: map<Id, Book>)
  {
    forall a, b :: a in books && b in books && a != b ==> books[a].isbn != books[b].isbn
  }

  /** The unique index on `email`. */
  predicate EmailUnique(users: map<Id, User>)
  {
    forall a, b :: a in users && b in users && a != b ==> users[a].email != users[b].email
  }

  /**
   * The ids below `n` of the records of `m` that satisfy `p`, in natural
   * order (ascending id, that is, creation order).
   */
  function Scan<T>(m: map<Id, T>, n: nat, p: T -> bool): (r: seq<Id>)
    ensures forall id :: id in r <==> id in m && id < n && p(m[id])
    ensures forall i, j :: 0 <= i < j < |r| ==> r[i] < r[j]
  {
    if n == 0 then []
    else
      var earlier := Scan(m, n - 1, p);
      assert forall k :: 0 <= k < |earlier| ==> earlier[k] < n - 1 by {
        forall k | 0 <= k < |earlier| ensures earlier[k] < n - 1 { assert earlier[k] in earlier; }
      }
      earlier + (if n - 1 in m && p(m[n - 1]) then [n - 1] else [])
  }

  function Min(a: int, b: int): int { if a <= b then a else b }
  function Abs(a: int): nat { if a < 0 then -a else a }

  /**
   * The window a cursor returns after `.skip(skip).limit(limit)`: a negative
   * skip is refused; a limit of 0 means no limit and a negative limit
   * returns at most its absolute value.
   */
  function Window<T>(xs: seq<T>, skip: int, limit: int): (r: Result<seq<T>, DbError>)
    ensures r.Err? <==> skip < 0
    ensures r.Err? ==> r.error == NegativeSkip
    ensures r.Ok? ==> Min(skip, |xs|) + |r.value| <= |xs| && r.value == xs[Min(skip, |xs|)..Min(skip, |xs|) + |r.value|]
    ensures r.Ok? && limit == 0 ==> |r.value| == |xs| - Min(skip, |xs|)
    ensures r.Ok? && limit != 0 ==> |r.value| == Min(Abs(limit), |xs| - Min(skip, |xs|))
    ensures r.Ok? ==> forall x :: x in r.value ==> x in xs
  {
    if skip < 0 then Err(NegativeSkip)
    else
      var rest := xs[Min(skip, |xs|)..];
      if limit == 0 || |rest| <= Abs(limit) then Ok(rest) else Ok(rest[..Abs(limit)])
  }

  /** The records at the given ids, in the same order. */
  function Records<T>(m: map<Id, T>, ids: seq<Id>): (r: seq<T>)
    requires forall i :: 0 <= i < |ids| ==> ids[i] in m
    ensures |r| == |ids| && forall i :: 0 <= i < |ids| ==> r[i] == m[ids[i]]
  {
    seq(|ids|, i requires 0 <= i < |ids| => m[ids[i]])
  }

  /** Every stored document passed its validators and the unique indexes hold. */
  predicate Consistent(books: map<Id, Book>, users: map<Id, User>, transactions: map<Id, Transaction>, nextId: Id)
  {
    && (forall id :: id in books ==> id < nextId && ValidBook(books[id]))
    && (forall id :: id in users ==> id < nextId && ValidUser(users[id]))
    && (forall id :: id in transactions ==> id < nextId && ValidTransaction(transactions[id]))
    && IsbnUnique(books)
    && EmailUnique(users)
  }

  /** Rewriting stored transactions in place, each still valid, keeps the collections consistent. */
  lemma RewriteTransactions(books: map<Id, Book>, users: map<Id, User>, transactions: map<Id, Transaction>,
                            rewritten: map<Id, Transaction>, nextId: Id)
    requires Consistent(books, users, transactions, nextId)
    requires rewritten.Keys == transactions.Keys
    requires forall id :: id in rewritten ==> ValidTransaction(rewritten[id])
    ensures Consistent(books, users, rewritten, nextId)
  {
  }

  /** Rewriting one stored transaction with a valid record keeps the collections consistent. */
  lemma RewriteTransaction(books: map<Id, Book>, users: map<Id, User>, transactions: map<Id, Transaction>,
                           nextId: Id, id: Id, t: Transaction)
    requires Consistent(books, users, transactions, nextId)
    requires id in transactions && ValidTransaction(t)
    ensures Consistent(books, users, transactions[id := t], nextId)
  {
  }

  /** Rewriting one stored user, email kept, keeps the collections consistent. */
  lemma RewriteUser(books: map<Id, Book>, users: map<Id, User>, transactions: map<Id, Transaction>,
                    nextId: Id, id: Id, u: User)
    requires Consistent(books, users, transactions, nextId)
    requires id in users && ValidUser(u) && u.email == users[id].email
    ensures Consistent(books, users[id := u], transactions, nextId)
  {
  }

  /** Rewriting one stored book, isbn kept, keeps the collections consistent. */
  lemma RewriteBook(books: map<Id, Book>, users: map<Id, User>, transactions: map<Id, Transaction>,
                    nextId: Id, id: Id, b: Book)
    requires Consistent(books, users, transactions, nextId)
    requires id in books && ValidBook(b) && b.isbn == books[id].isbn
    ensures Consistent(books[id := b], users, transactions, nextId)
  {
  }

  class Database {
    var books: map<Id, Book>
    var users: map<Id, User>
    var transactions: map<Id, Transaction>
    /** The next document id; ids are shared by the three collections. */
    var nextId: Id

    ghost predicate Valid()
      reads this
    {
      Consistent(books, users, transactions, nextId)
    }

    constructor ()
      ensures Valid()
      ensures books == map[] && users == map[] && transactions == map[]
    {
      books := map[];
      users := map[];
      transactions := map[];
      nextId := 0;
    }

    /** `new Book(b).save()`: refused by a failing validator or a taken isbn. */
    method SaveBook(b: Book) returns (r: Result<Id, DbError>)
      requires Valid()
      modifies this
      ensures Valid()
      ensures !ValidBook(b) ==> r == Err(ValidationError)
      ensures ValidBook(b) && (exists id :: id in old(books) && old(books)[id].isbn == b.isbn) ==> r == Err(DuplicateKey)
      ensures r.Ok? <==> ValidBook(b) && forall id :: id in old(books) ==> old(books)[id].isbn != b.isbn
      ensures r.Err? ==> books == old(books) && nextId == old(nextId)
      ensures r.Ok? ==> r.value == old(nextId) && r.value !in old(books) && books == old(books)[r.value := b]
                        && nextId == old(nextId) + 1
      ensures users == old(users) && transactions == old(transactions)
    {
      if !ValidBook(b) {
        return Err(ValidationError);
      }
      if exists id :: id in books && books[id].isbn == b.isbn {
        return Err(DuplicateKey);
      }
      r := Ok(nextId);
      books := books[nextId := b];
      nextId := nextId + 1;
    }

    /** `new User(u).save()`: refused by a failing validator or a taken email. */
    method SaveUser(u: User) returns (r: Result<Id, DbError>)
      requires Valid()
      modifies this
      ensures Valid()
      ensures !ValidUser(u) ==> r == Err(ValidationError)
      ensures ValidUser(u) && (exists id :: id in old(users) && old(users)[id].email == u.email) ==> r == Err(DuplicateKey)
      ensures r.Ok? <==> ValidUser(u) && forall id :: id in old(users) ==> old(users)[id].email != u.email
      ensures r.Err? ==> users == old(users) && nextId == old(nextId)
      ensures r.Ok? ==> r.value == old(nextId) && r.value !in old(users) && users == old(users)[r.value := u]
                        && nextId == old(nextId) + 1
      ensures books == old(books) && transactions == old(transactions)
    {
      if !ValidUser(u) {
        return Err(ValidationError);
      }
      if exists id :: id in users && users[id].email == u.email {
        return Err(DuplicateKey);
      }
      r := Ok(nextId);
      users := users[nextId := u];
      nextId := nextId + 1;
    }

    /** `new Transaction(t).save()`: refused by a failing validator. */
    method SaveTransaction(t: Transaction) returns (r: Result<Id, DbError>)
      requires Valid()
      modifies this
      ensures Valid()
      ensures r.Err? <==> !ValidTransaction(t)
      ensures r.Err? ==> r.error == ValidationError && transactions == old(transactions) && nextId == old(nextId)
      ensures r.Ok? ==> r.value == old(nextId) && r.value !in old(transactions)
                        && transactions == old(transactions)[r.value := t] && nextId == old(nextId) + 1
      ensures books == old(books) && users == old(users)
    {
      if !ValidTransaction(t) {
        return Err(ValidationError);
      }
      r := Ok(nextId);
      transactions := transactions[nextId := t];
      nextId := nextId + 1;
    }
  }
}
