/**
 * The records of the three collections declared in backend/src/models:
 * books, users and transactions, with their enumerations, their defaults and
 * the constraints Mongoose checks when a document is saved.
 *
 * Timestamps are milliseconds since the epoch. Money (balances and prices)
 * is counted in half-units, the granularity of the late fine of 0.5 per day.
 */
module Schema {
  import opened Wrappers

  /** A document id; ids are handed out in creation order. */
  type Id = nat

  /** A `Date`, as milliseconds since the epoch. */
  type Millis = int

  /** An amount of money in half-units: 1 is 0.5, 2 is 1.0. */
  type Money = int

  /** `1000 * 60 * 60 * 24`. */
  const MsPerDay: int := 86400000

  // ---------------------------------------------------------------- enums

  /** `role`: one of 'ADMIN' or 'MEMBER'. */
  datatype Role = Admin | Member

  /** `type` of a transaction: one of 'borrow' or 'purchase'. */
  datatype TxType = Borrow | Purchase

  /** `status` of a transaction: one of 'active', 'completed' or 'overdue'. */
  datatype TxStatus = Active | Completed | Overdue

  /** The stored spelling of a role. */
  function RoleName(r: Role): (s: string)
    ensures ParseRole(s) == Some(r)
  {
    match r
    case Admin => "ADMIN"
    case Member => "MEMBER"
  }

  /** The enum check of `role`: exactly the two spellings are accepted. */
  function ParseRole(s: string): (r: Option<Role>)
    ensures r.Some? <==> (s == "ADMIN" || s == "MEMBER")
    ensures r == Some(Admin) ==> s == "ADMIN"
    ensures r == Some(Member) ==> s == "MEMBER"
  {
    if s == "ADMIN" then Some(Admin)
    else if s == "MEMBER" then Some(Member)
    else None
  }

  /** The stored spelling of a transaction type. */
  function TxTypeName(t: TxType): (s: string)
    ensures ParseTxType(s) == Some(t)
  {
    match t
    case Borrow => "borrow"
    case Purchase => "purchase"
  }

  /** The enum check of `type`. */
  function ParseTxType(s: string): (r: Option<TxType>)
    ensures r.Some? <==> (s == "borrow" || s == "purchase")
    ensures r == Some(Borrow) ==> s == "borrow"
    ensures r == Some(Purchase) ==> s == "purchase"
  {
    if s == "borrow" then Some(Borrow)
    else if s == "purchase" then Some(Purchase)
    else None
  }

  /** The stored spelling of a transaction status. */
  function StatusName(s: TxStatus): (n: string)
    ensures ParseStatus(n) == Some(s)
  {
    match s
    case Active => "active"
    case Completed => "completed"
    case Overdue => "overdue"
  }

  /** The enum check of `status`. */
  function ParseStatus(n: string): (r: Option<TxStatus>)
    ensures r.Some? <==> (n == "active" || n == "completed" || n == "overdue")
    ensures r == Some(Active) ==> n == "active"
    ensures r == Some(Completed) ==> n == "completed"
    ensures r == Some(Overdue) ==> n == "overdue"
  {
    if n == "active" then Some(Active)
    else if n == "completed" then Some(Completed)
    else if n == "overdue" then Some(Overdue)
    else None
  }

  // -------------------------------------------------------------- records

  datatype Book = Book(
    title: string,
    isbn: string,
    author: string,
    publicationYear: Option<int>,
    copiesAvailable: int,
    approved: bool,
    submittedBy: Id,
    forSale: bool,
    price: Option<Money>)

  datatype User = User(
    name: Option<string>,
    username: string,
    passwordHash: Option<string>,
    email: string,
    googleId: Option<string>,
    role: Role,
    tokenVersion: int,
    balance: Money)

  datatype Transaction = Transaction(
    book: Id,
    user: Id,
    txType: TxType,
    startDate: Millis,
    dueDate: Option<Millis>,
    returnDate: Option<Millis>,
    status: TxStatus,
    price: Option<Money>)

  // ------------------------------------------------------------- trimming

  /**
   * The white space and line terminators `String.prototype.trim` removes:
   * tab, line feed, vertical tab, form feed, carriage return, space, the
   * Unicode space separators, the line and paragraph separators and the byte
   * order mark.
   */
  predicate IsJsSpace(c: char)
  {
    || c == '\t' || c == '\n' || c == '\U{B}' || c == '\U{C}' || c == '\r' || c == ' '
    || c == '\U{A0}' || c == '\U{1680}' || ('\U{2000}' <= c <= '\U{200A}')
    || c == '\U{2028}' || c == '\U{2029}' || c == '\U{202F}' || c == '\U{205F}'
    || c == '\U{3000}' || c == '\U{FEFF}'
  }

  /** Every character of `s` is white space (so is the empty string). */
  predicate AllSpace(s: string)
  {
    forall i :: 0 <= i < |s| ==> IsJsSpace(s[i])
  }

  /** The first index at or after `from` that is not white space, or `|s|`. */
  function LeadingSpace(s: string, from: nat): (lo: nat)
    requires from <= |s|
    ensures from <= lo <= |s|
    ensures forall i :: from <= i < lo ==> IsJsSpace(s[i])
    ensures lo < |s| ==> !IsJsSpace(s[lo])
    decreases |s| - from
  {
    if from == |s| || !IsJsSpace(s[from]) then from else LeadingSpace(s, from + 1)
  }

  /** The end of `s[lo..hi]` once its trailing white space is cut. */
  function TrailingCut(s: string, lo: nat, hi: nat): (e: nat)
    requires lo <= hi <= |s|
    ensures lo <= e <= hi
    ensures forall i :: e <= i < hi ==> IsJsSpace(s[i])
    ensures e > lo ==> !IsJsSpace(s[e - 1])
  {
    if hi == lo || !IsJsSpace(s[hi - 1]) then hi else TrailingCut(s, lo, hi - 1)
  }

  /**
   * `s.trim()`, the setter of a `trim: true` path: the infix of `s` that
   * neither starts nor ends with white space, everything around it being
   * white space.
   */
  function Trim(s: string): (r: string)
    ensures var lo := LeadingSpace(s, 0);
            && lo + |r| <= |s| && r == s[lo..lo + |r|]
            && (forall i :: 0 <= i < lo ==> IsJsSpace(s[i]))
            && (forall i :: lo + |r| <= i < |s| ==> IsJsSpace(s[i]))
    ensures r != [] ==> !IsJsSpace(r[0]) && !IsJsSpace(r[|r| - 1])
    ensures r == [] <==> AllSpace(s)
  {
    var lo := LeadingSpace(s, 0);
    var hi := TrailingCut(s, lo, |s|);
    s[lo..hi]
  }

  /** Trimming twice is trimming once. */
  lemma TrimIdempotent(s: string)
    ensures Trim(Trim(s)) == Trim(s)
  {
    var r := Trim(s);
    if r != [] {
      assert LeadingSpace(r, 0) == 0;
      assert TrailingCut(r, 0, |r|) == |r|;
    }
  }

  /** A title submitted as " Dune " is stored as "Dune". */
  lemma TrimDropsSurroundingSpace()
    ensures Trim(" Dune ") == "Dune"
  {
    assert LeadingSpace(" Dune ", 0) == 1;
    assert TrailingCut(" Dune ", 1, 6) == 5;
  }

  // ---------------------------------------------------------- constraints

  /**
   * The validators of a book: the required strings are present (Mongoose
   * rejects an empty string as missing), copies are never negative, and a
   * book for sale has a price.
   */
  predicate ValidBook(b: Book)
  {
    && b.title != "" && b.isbn != "" && b.author != ""
    && b.copiesAvailable >= 0
    && (b.forSale ==> b.price.Some?)
  }

  /** The validators of a user: username and email are present. */
  predicate ValidUser(u: User)
  {
    u.username != "" && u.email != ""
  }

  /** The validators of a transaction: a borrow has a due date, a purchase a price. */
  predicate ValidTransaction(t: Transaction)
  {
    && (t.txType == Borrow ==> t.dueDate.Some?)
    && (t.txType == Purchase ==> t.price.Some?)
  }

  // ------------------------------------------------------------- defaults

  /**
   * A new book as the schema builds it: title and author are trimmed,
   * `copiesAvailable` defaults to 1, `approved` and `forSale` to false, and
   * there is no price.
   */
  function NewBook(title: string, isbn: string, author: string, publicationYear: Option<int>,
                   copies: Option<int>, submittedBy: Id): (b: Book)
    ensures b.title == Trim(title) && b.isbn == isbn && b.author == Trim(author)
    ensures b.publicationYear == publicationYear && b.submittedBy == submittedBy
    ensures copies.None? ==> b.copiesAvailable == 1
    ensures copies.Some? ==> b.copiesAvailable == copies.value
    ensures !b.approved && !b.forSale && b.price.None?
    ensures ValidBook(b) <==> !AllSpace(title) && isbn != "" && !AllSpace(author) && b.copiesAvailable >= 0
  {
    Book(Trim(title), isbn, Trim(author), publicationYear,
         match copies case None => 1 case Some(c) => c,
         false, submittedBy, false, None)
  }

  /** A new user as the schema builds it: role MEMBER, token version 1, balance 0. */
  function NewUser(name: Option<string>, username: string, email: string, passwordHash: Option<string>): (u: User)
    ensures u.name == name && u.username == username && u.email == email && u.passwordHash == passwordHash
    ensures u.googleId.None? && u.role == Member && u.tokenVersion == 1 && u.balance == 0
    ensures ValidUser(u) <==> username != "" && email != ""
  {
    User(name, username, passwordHash, email, None, Member, 1, 0)
  }

  /**
   * A new transaction as the schema builds it: `status` defaults to active
   * and `startDate` to the moment of creation.
   */
  function NewTransaction(book: Id, user: Id, txType: TxType, startDate: Option<Millis>, dueDate: Option<Millis>,
                          returnDate: Option<Millis>, status: Option<TxStatus>, price: Option<Money>, now: Millis): (t: Transaction)
    ensures t.book == book && t.user == user && t.txType == txType
    ensures t.dueDate == dueDate && t.returnDate == returnDate && t.price == price
    ensures status.None? ==> t.status == Active
    ensures status.Some? ==> t.status == status.value
    ensures startDate.None? ==> t.startDate == now
    ensures startDate.Some? ==> t.startDate == startDate.value
  {
    Transaction(book, user, txType,
                match startDate case None => now case Some(d) => d,
                dueDate, returnDate,
                match status case None => Active case Some(s) => s,
                price)
  }

  /**
   * The lifecycle of a transaction under the library operations: active to
   * completed, or active to overdue to completed (staying put is allowed).
   */
  predicate StatusAdvances(from: TxStatus, to: TxStatus)
  {
    from == to || (from == Active && to == Overdue) || (from != Completed && to == Completed)
  }

  /** Every transaction present before and after kept to the lifecycle. */
  predicate LifecycleKept(before: map<Id, Transaction>, after: map<Id, Transaction>)
  {
    forall id :: id in before && id in after ==> StatusAdvances(before[id].status, after[id].status)
  }
}
