/**
 * Services/transactionService.js: validation and creation of transactions,
 * status updates, the overdue sweep and listing, per-user statistics and
 * the pagination of the transaction lists.
 */
module Transactions {
  import opened Wrappers
  import opened Schema
  import opened Store
  import Library

  /**
   * `transactionData` as a caller passes it. An absent id or date is None;
   * strings and numbers keep their value, so that the truthiness tests of
   * the validation can be stated (an empty string and 0 are falsy).
   */
  datatype TxData = TxData(
    user: Option<Id>,
    book: Option<Id>,
    txType: Option<string>,
    dueDate: Option<Millis>,
    price: Option<Money>,
    status: Option<string>,
    startDate: Option<Millis>,
    returnDate: Option<Millis>)

  /** The errors the service throws. */
  datatype TxError =
    | MissingFields(fields: seq<string>)  // 'Missing required fields: …'
    | InvalidType                         // 'Invalid transaction type. …'
    | DueDateRequired                     // 'Due date is required for borrow transactions'
    | PriceRequired                       // 'Price is required for purchase transactions'
    | BookNotFound                        // 'Book not found'
    | UserNotFound                        // 'User not found'
    | InvalidStatusValue                  // the schema's enum check of `status` on save
    | IdAndStatusRequired                 // 'Transaction ID and status are required'
    | InvalidStatus                       // 'Invalid status. Must be one of: …'
    | TransactionNotFound                 // 'Transaction not found'
    | UserIdRequired                      // 'User ID is required'
    | QueryFailed(cause: DbError)         // a database error, rethrown

  /** A string is truthy when it is not empty. */
  predicate Truthy(s: Option<string>)
  {
    s.Some? && s.value != ""
  }

  /** The fields checked for presence, in the order they are reported. */
  const RequiredFields: seq<string> := ["user", "book", "type"]

  /** Where a required field stands in `RequiredFields`. */
  function Position(f: string): nat
  {
    if f == "user" then 0 else if f == "book" then 1 else 2
  }

  /** `!transactionData[field]` for a required field. */
  predicate IsMissing(d: TxData, f: string)
  {
    (f == "user" && d.user.None?) || (f == "book" && d.book.None?) || (f == "type" && !Truthy(d.txType))
  }

  /** `requiredFields.filter(field => !transactionData[field])`. */
  function Absent(d: TxData): (m: seq<string>)
    ensures forall f :: f in m <==> f in RequiredFields && IsMissing(d, f)
    ensures forall i, j :: 0 <= i < j < |m| ==> Position(m[i]) < Position(m[j])
  {
    (if d.user.None? then ["user"] else [])
    + (if d.book.None? then ["book"] else [])
    + (if !Truthy(d.txType) then ["type"] else [])
  }

  /** The checks `createTransaction` makes before any lookup: required fields, the type, and the conditional fields. */
  predicate FieldChecksPass(d: TxData)
  {
    && Absent(d) == [] && ParseTxType(d.txType.value).Some?
    && (d.txType.value == "borrow" ==> d.dueDate.Some?)
    && (d.txType.value == "purchase" ==> d.price.Some? && d.price.value != 0)
  }

  /**
   * `_validateTransactionData`: the checks in their order. On success the
   * parsed transaction type is returned.
   */
  function Validate(d: TxData, books: map<Id, Book>, users: map<Id, User>): (r: Result<TxType, TxError>)
    ensures Absent(d) != [] ==> r == Err(MissingFields(Absent(d)))
    ensures Absent(d) == [] && ParseTxType(d.txType.value).None? ==> r == Err(InvalidType)
    ensures Absent(d) == [] && d.txType.value == "borrow" && d.dueDate.None? ==> r == Err(DueDateRequired)
    ensures Absent(d) == [] && d.txType.value == "purchase" && (d.price.None? || d.price.value == 0) ==>
              r == Err(PriceRequired)
    ensures r.Ok? ==> r.value == ParseTxType(d.txType.value).value
    ensures r.Ok? <==>
              && d.user.Some? && d.book.Some? && Truthy(d.txType)
              && ParseTxType(d.txType.value).Some?
              && (d.txType.value == "borrow" ==> d.dueDate.Some?)
              && (d.txType.value == "purchase" ==> d.price.Some? && d.price.value != 0)
              && d.book.value in books && d.user.value in users
    ensures r.Err? && r.error == BookNotFound ==> d.book.value !in books
    ensures r.Err? && r.error == UserNotFound ==> d.book.value in books && d.user.value !in users
    ensures FieldChecksPass(d) && d.book.value !in books ==> r == Err(BookNotFound)
    ensures FieldChecksPass(d) && d.book.value in books && d.user.value !in users ==> r == Err(UserNotFound)
  {
    var missing := Absent(d);
    if missing != [] then Err(MissingFields(missing))
    else match ParseTxType(d.txType.value)
      case None => Err(InvalidType)
      case Some(kind) =>
        if kind == Borrow && d.dueDate.None? then Err(DueDateRequired)
        else if kind == Purchase && (d.price.None? || d.price.value == 0) then Err(PriceRequired)
        else if d.book.value !in books then Err(BookNotFound)
        else if d.user.value !in users then Err(UserNotFound)
        else Ok(kind)
  }

  /** `transactionData.status || 'active'`, then the enum check: None when the status is not one of the three. */
  function StatusOrDefault(s: Option<string>): (r: Option<TxStatus>)
    ensures !Truthy(s) ==> r == Some(Active)
    ensures Truthy(s) ==> r == ParseStatus(s.value)
  {
    if Truthy(s) then ParseStatus(s.value) else Some(Active)
  }

  /** The record `createTransaction` builds from validated data. */
  function Built(d: TxData, kind: TxType, status: TxStatus, now: Millis): Transaction
    requires d.user.Some? && d.book.Some?
  {
    NewTransaction(d.book.value, d.user.value, kind, d.startDate, d.dueDate, d.returnDate, Some(status), d.price, now)
  }

  /** Data that passes the validation always satisfies the schema's conditional requirements. */
  lemma ValidatedDataSaves(d: TxData, books: map<Id, Book>, users: map<Id, User>, status: TxStatus, now: Millis)
    requires Validate(d, books, users).Ok?
    ensures ValidTransaction(Built(d, Validate(d, books, users).value, status, now))
  {
    var kind := Validate(d, books, users).value;
    assert kind == Borrow ==> d.txType.value == "borrow";
    assert kind == Purchase ==> d.txType.value == "purchase";
  }

  /** `createTransaction`: validate, default the status, save. */
  method CreateTransaction(db: Database, d: TxData, now: Millis) returns (r: Result<Id, TxError>)
    requires db.Valid()
    modifies db
    ensures db.Valid()
    ensures Validate(d, old(db.books), old(db.users)).Err? ==>
              r == Err(Validate(d, old(db.books), old(db.users)).error)
    ensures Validate(d, old(db.books), old(db.users)).Ok? && StatusOrDefault(d.status).None? ==>
              r == Err(InvalidStatusValue)
    ensures r.Err? ==> unchanged(db)
    ensures r.Ok? <==> Validate(d, old(db.books), old(db.users)).Ok? && StatusOrDefault(d.status).Some?
    ensures r.Ok? ==>
              && r.value == old(db.nextId)
              && db.transactions == old(db.transactions)[r.value :=
                   Built(d, Validate(d, old(db.books), old(db.users)).value, StatusOrDefault(d.status).value, now)]
              && db.books == old(db.books) && db.users == old(db.users)
  {
    var v := Validate(d, db.books, db.users);
    if v.Err? {
      return Err(v.error);
    }
    var status := StatusOrDefault(d.status);
    if status.None? {
      return Err(InvalidStatusValue);
    }
    ValidatedDataSaves(d, db.books, db.users, status.value, now);
    var saved := db.SaveTransaction(Built(d, v.value, status.value, now));
    assert saved.Ok?;
    r := Ok(saved.value);
  }

  /** The record after `findByIdAndUpdate(id, {status})`: completing stamps the return date. */
  function WithStatus(t: Transaction, s: TxStatus, now: Millis): (u: Transaction)
    ensures u.status == s
    ensures s == Completed ==> u.returnDate == Some(now)
    ensures s != Completed ==> u.returnDate == t.returnDate
    ensures u.(status := t.status, returnDate := t.returnDate) == t
  {
    t.(status := s, returnDate := if s == Completed then Some(now) else t.returnDate)
  }

  /**
   * `updateTransactionStatus`: id and status are required and the status
   * must be one of the three; any stored transaction can be moved to any
   * status, so this path does not keep the lending lifecycle.
   */
  method UpdateTransactionStatus(db: Database, tid: Option<Id>, status: string, now: Millis) returns (r: Result<Transaction, TxError>)
    requires db.Valid()
    modifies db
    ensures db.Valid()
    ensures tid.None? || status == "" ==> r == Err(IdAndStatusRequired)
    ensures tid.Some? && status != "" && ParseStatus(status).None? ==> r == Err(InvalidStatus)
    ensures tid.Some? && ParseStatus(status).Some? && tid.value !in old(db.transactions) ==> r == Err(TransactionNotFound)
    ensures r.Err? ==> unchanged(db)
    ensures r.Ok? <==> tid.Some? && ParseStatus(status).Some? && tid.value in old(db.transactions)
    ensures r.Ok? ==>
              && r.value == WithStatus(old(db.transactions)[tid.value], ParseStatus(status).value, now)
              && db.transactions == old(db.transactions)[tid.value := r.value]
              && db.books == old(db.books) && db.users == old(db.users) && db.nextId == old(db.nextId)
  {
    if tid.None? || status == "" {
      return Err(IdAndStatusRequired);
    }
    var s := ParseStatus(status);
    if s.None? {
      return Err(InvalidStatus);
    }
    if tid.value !in db.transactions {
      return Err(TransactionNotFound);
    }
    var updated := WithStatus(db.transactions[tid.value], s.value, now);
    db.transactions := db.transactions[tid.value := updated];
    r := Ok(updated);
  }

  /** A completed loan can be reopened through `updateTransactionStatus`. */
  lemma StatusUpdateCanReopen(t: Transaction, now: Millis)
    requires t.status == Completed
    ensures WithStatus(t, Active, now).status == Active
    ensures !LifecycleKept(map[0 := t], map[0 := WithStatus(t, Active, now)])
  {
    assert !StatusAdvances(map[0 := t][0].status, map[0 := WithStatus(t, Active, now)][0].status);
  }

  // ------------------------------------------------------------ statistics

  /** One row of the `$group` stage: a status and how many of the user's transactions have it. */
  datatype Group = Group(status: TxStatus, count: nat)

  /** `{ total, active, completed, overdue }`. */
  datatype Stats = Stats(total: nat, active: nat, completed: nat, overdue: nat)

  /** The count the tally leaves for `s`: the last row for it wins, and no row means 0. */
  function CountOf(groups: seq<Group>, s: TxStatus): nat
  {
    if groups == [] then 0
    else if groups[|groups| - 1].status == s then groups[|groups| - 1].count
    else CountOf(groups[..|groups| - 1], s)
  }

  /** The sum of the counts of all rows. */
  function SumCounts(groups: seq<Group>): nat
  {
    if groups == [] then 0 else SumCounts(groups[..|groups| - 1]) + groups[|groups| - 1].count
  }

  /** The `forEach` of `getUserTransactionStats` over the rows of the aggregation. */
  method Tally(groups: seq<Group>) returns (st: Stats)
    ensures st.total == SumCounts(groups)
    ensures st.active == CountOf(groups, Active)
    ensures st.completed == CountOf(groups, Completed)
    ensures st.overdue == CountOf(groups, Overdue)
  {
    st := Stats(0, 0, 0, 0);
    var i := 0;
    while i < |groups|
      invariant 0 <= i <= |groups|
      invariant st == Stats(SumCounts(groups[..i]), CountOf(groups[..i], Active),
                            CountOf(groups[..i], Completed), CountOf(groups[..i], Overdue))
    {
      var g := groups[i];
      assert groups[..i + 1][..i] == groups[..i];
      match g.status {
        case Active => st := st.(active := g.count);
        case Completed => st := st.(completed := g.count);
        case Overdue => st := st.(overdue := g.count);
      }
      st := st.(total := st.total + g.count);
      i := i + 1;
    }
    assert groups[..i] == groups;
  }

  /** The user's transactions. */
  function OwnedBy(transactions: map<Id, Transaction>, user: Id): set<Id>
  {
    set id | id in transactions && transactions[id].user == user
  }

  /** The user's transactions with status `s`. */
  function OwnedWith(transactions: map<Id, Transaction>, user: Id, s: TxStatus): set<Id>
  {
    set id | id in transactions && transactions[id].user == user && transactions[id].status == s
  }

  /** The rows of the aggregation: one per status that occurs, with its count. */
  function Aggregate(transactions: map<Id, Transaction>, user: Id): (groups: seq<Group>)
    ensures forall g :: g in groups ==> g.count > 0
  {
    Row(transactions, user, Active) + Row(transactions, user, Completed) + Row(transactions, user, Overdue)
  }

  /** The row of status `s`, absent when the user has no such transaction. */
  function Row(transactions: map<Id, Transaction>, user: Id, s: TxStatus): (row: seq<Group>)
    ensures |row| <= 1
  {
    var n := |OwnedWith(transactions, user, s)|;
    if n > 0 then [Group(s, n)] else []
  }

  /** Appending at most one row overrides the count of its status only. */
  lemma CountOfAppend(groups: seq<Group>, extra: seq<Group>, s: TxStatus)
    requires |extra| <= 1
    ensures CountOf(groups + extra, s) == if extra != [] && extra[0].status == s then extra[0].count else CountOf(groups, s)
  {
    if extra != [] {
      assert (groups + extra)[..|groups + extra| - 1] == groups;
    } else {
      assert groups + extra == groups;
    }
  }

  /** The tally reads back, for each status, the number of the user's transactions with it. */
  lemma AggregateCounts(transactions: map<Id, Transaction>, user: Id, s: TxStatus)
    ensures CountOf(Aggregate(transactions, user), s) == |OwnedWith(transactions, user, s)|
  {
    var ra, rc, ro := Row(transactions, user, Active), Row(transactions, user, Completed), Row(transactions, user, Overdue);
    CountOfAppend([], ra, s);
    assert [] + ra == ra;
    CountOfAppend(ra, rc, s);
    CountOfAppend(ra + rc, ro, s);
  }

  /** Every transaction of a user has exactly one of the three statuses. */
  lemma StatusesPartition(transactions: map<Id, Transaction>, user: Id)
    ensures |OwnedBy(transactions, user)| ==
            |OwnedWith(transactions, user, Active)| + |OwnedWith(transactions, user, Completed)|
            + |OwnedWith(transactions, user, Overdue)|
  {
    var a, c, o := OwnedWith(transactions, user, Active), OwnedWith(transactions, user, Completed),
                   OwnedWith(transactions, user, Overdue);
    assert OwnedBy(transactions, user) == a + c + o;
    assert a * c == {};
    assert (a + c) * o == {};
  }

  /** Appending at most one row adds its count. */
  lemma SumCountsAppend(groups: seq<Group>, extra: seq<Group>)
    requires |extra| <= 1
    ensures SumCounts(groups + extra) == SumCounts(groups) + if extra != [] then extra[0].count else 0
  {
    if extra != [] {
      assert (groups + extra)[..|groups + extra| - 1] == groups;
    } else {
      assert groups + extra == groups;
    }
  }

  /** The rows' counts add up to the number of the user's transactions. */
  lemma AggregateSumsToTotal(transactions: map<Id, Transaction>, user: Id)
    ensures SumCounts(Aggregate(transactions, user)) == |OwnedBy(transactions, user)|
  {
    StatusesPartition(transactions, user);
    var ga, gc, go := Row(transactions, user, Active), Row(transactions, user, Completed), Row(transactions, user, Overdue);
    assert SumCounts(ga) == |OwnedWith(transactions, user, Active)| by {
      if ga != [] { assert ga[..0] == []; }
    }
    SumCountsAppend(ga, gc);
    SumCountsAppend(ga + gc, go);
  }

  /**
   * `getUserTransactionStats`: the user's transactions counted per status;
   * a status with no transactions reports 0 and the total is their sum.
   */
  method GetUserTransactionStats(db: Database, user: Option<Id>) returns (r: Result<Stats, TxError>)
    ensures user.None? <==> r == Err(UserIdRequired)
    ensures r.Ok? ==>
              && r.value.active == |OwnedWith(db.transactions, user.value, Active)|
              && r.value.completed == |OwnedWith(db.transactions, user.value, Completed)|
              && r.value.overdue == |OwnedWith(db.transactions, user.value, Overdue)|
              && r.value.total == |OwnedBy(db.transactions, user.value)|
              && r.value.total == r.value.active + r.value.completed + r.value.overdue
  {
    if user.None? {
      return Err(UserIdRequired);
    }
    var groups := Aggregate(db.transactions, user.value);
    var st := Tally(groups);
    AggregateCounts(db.transactions, user.value, Active);
    AggregateCounts(db.transactions, user.value, Completed);
    AggregateCounts(db.transactions, user.value, Overdue);
    AggregateSumsToTotal(db.transactions, user.value);
    StatusesPartition(db.transactions, user.value);
    r := Ok(st);
  }

  // ------------------------------------------------------- overdue marking

  /** The transactions after `updateMany` flagged every overdue loan. */
  function MarkedOverdue(transactions: map<Id, Transaction>, now: Millis): (m: map<Id, Transaction>)
    ensures m.Keys == transactions.Keys
    ensures forall id :: id in transactions && Library.OverdueLoan(transactions[id], now) ==>
              m[id] == transactions[id].(status := Overdue)
    ensures forall id :: id in transactions && !Library.OverdueLoan(transactions[id], now) ==>
              m[id] == transactions[id]
  {
    map id | id in transactions :: if Library.OverdueLoan(transactions[id], now) then transactions[id].(status := Overdue) else transactions[id]
  }

  /** The ids `markOverdueTransactions` changes. */
  function OverdueIds(transactions: map<Id, Transaction>, now: Millis): set<Id>
  {
    set id | id in transactions && Library.OverdueLoan(transactions[id], now)
  }

  /** After a sweep no loan is left to flag, so a second sweep at the same moment changes nothing. */
  lemma MarkingIsIdempotent(transactions: map<Id, Transaction>, now: Millis)
    ensures OverdueIds(MarkedOverdue(transactions, now), now) == {}
    ensures MarkedOverdue(MarkedOverdue(transactions, now), now) == MarkedOverdue(transactions, now)
  {
    var m := MarkedOverdue(transactions, now);
    forall id | id in m ensures !Library.OverdueLoan(m[id], now) {
    }
  }

  /** The sweep keeps the lending lifecycle: it only moves active loans to overdue. */
  lemma MarkingKeepsLifecycle(transactions: map<Id, Transaction>, now: Millis)
    ensures LifecycleKept(transactions, MarkedOverdue(transactions, now))
  {
  }

  /**
   * `markOverdueTransactions`: every active borrow due before `now` becomes
   * overdue; the number changed is returned.
   */
  method MarkOverdueTransactions(db: Database, now: Millis) returns (count: nat)
    requires db.Valid()
    modifies db
    ensures db.Valid()
    ensures db.transactions == MarkedOverdue(old(db.transactions), now)
    ensures count == |OverdueIds(old(db.transactions), now)|
    ensures db.books == old(db.books) && db.users == old(db.users) && db.nextId == old(db.nextId)
  {
    var t0 := db.transactions;
    var m := t0;
    var rest := t0.Keys;
    ghost var done: set<Id> := {};
    ghost var flagged: set<Id> := {};
    count := 0;
    while rest != {}
      invariant rest <= t0.Keys && done == t0.Keys - rest
      invariant Swept(t0, now, m, done, flagged)
      invariant count == |flagged|
      invariant unchanged(db)
      decreases rest
    {
      var id :| id in rest;
      SweepStep(t0, now, m, rest, done, flagged, id);
      var t := m[id];
      if Library.OverdueLoan(t, now) {
        m := m[id := t.(status := Overdue)];
        count := count + 1;
        flagged := flagged + {id};
      }
      rest := rest - {id};
      done := done + {id};
    }
    assert done == t0.Keys;
    SweepDone(t0, now, m, flagged);
    MarkingKeepsValid(t0, now);
    RewriteTransactions(db.books, db.users, t0, m, db.nextId);
    db.transactions := m;
  }

  /** After visiting `done`, `m` holds the swept records there and the originals elsewhere, and `flagged` the ids changed. */
  ghost predicate Swept(t0: map<Id, Transaction>, now: Millis, m: map<Id, Transaction>, done: set<Id>, flagged: set<Id>)
  {
    && m.Keys == t0.Keys
    && (forall k :: k in m ==> m[k] == if k in flagged then t0[k].(status := Overdue) else t0[k])
    && (forall k :: k in flagged <==> k in done && k in t0 && Library.OverdueLoan(t0[k], now))
  }

  /** A sweep that visited every id has flagged exactly the overdue loans. */
  lemma SweepDone(t0: map<Id, Transaction>, now: Millis, m: map<Id, Transaction>, flagged: set<Id>)
    requires Swept(t0, now, m, t0.Keys, flagged)
    ensures m == MarkedOverdue(t0, now) && flagged == OverdueIds(t0, now)
  {
  }

  /** Visiting one more id of the sweep keeps `Swept`. */
  lemma SweepStep(t0: map<Id, Transaction>, now: Millis, m: map<Id, Transaction>, rest: set<Id>, done: set<Id>, flagged: set<Id>, id: Id)
    requires id in rest && rest <= t0.Keys && done == t0.Keys - rest
    requires Swept(t0, now, m, done, flagged)
    ensures done + {id} == t0.Keys - (rest - {id})
    ensures id !in flagged && |flagged + {id}| == |flagged| + 1
    ensures m[id] == t0[id]
    ensures Library.OverdueLoan(t0[id], now) ==>
              Swept(t0, now, m[id := t0[id].(status := Overdue)], done + {id}, flagged + {id})
    ensures !Library.OverdueLoan(t0[id], now) ==> Swept(t0, now, m, done + {id}, flagged)
  {
  }

  /** The sweep changes only statuses, so every transaction still passes the schema's validators. */
  lemma MarkingKeepsValid(transactions: map<Id, Transaction>, now: Millis)
    requires forall id :: id in transactions ==> ValidTransaction(transactions[id])
    ensures forall id :: id in MarkedOverdue(transactions, now) ==> ValidTransaction(MarkedOverdue(transactions, now)[id])
  {
  }

  // ------------------------------------------------------- overdue listing

  /** A listed loan with its due date. */
  datatype DueLoan = DueLoan(id: Id, due: Millis)

  predicate SortedByDue(s: seq<DueLoan>)
  {
    forall i, j :: 0 <= i < j < |s| ==> s[i].due <= s[j].due
  }

  /** `x` placed before the first loan due strictly later. */
  function InsertByDue(x: DueLoan, s: seq<DueLoan>): (r: seq<DueLoan>)
    requires SortedByDue(s)
    ensures SortedByDue(r)
    ensures multiset(r) == multiset(s) + multiset{x}
  {
    if s == [] then [x]
    else if x.due < s[0].due then [x] + s
    else
      SortedTail(s);
      var tail := InsertByDue(x, s[1..]);
      assert s == [s[0]] + s[1..];
      LowerBoundKept(s[0].due, x, s[1..], tail);
      ConsSorted(s[0], tail);
      [s[0]] + tail
  }

  /** A loan no earlier than `lo`, inserted among loans no earlier than `lo`, leaves every loan no earlier than `lo`. */
  lemma LowerBoundKept(lo: Millis, x: DueLoan, s: seq<DueLoan>, r: seq<DueLoan>)
    requires lo <= x.due && forall i :: 0 <= i < |s| ==> lo <= s[i].due
    requires multiset(r) == multiset(s) + multiset{x}
    ensures forall i :: 0 <= i < |r| ==> lo <= r[i].due
  {
    forall i | 0 <= i < |r| ensures lo <= r[i].due {
      assert r[i] in multiset(r);
      if r[i] != x {
        assert r[i] in multiset(s);
      }
    }
  }

  /** The rest of a sorted sequence is sorted and due no earlier than its head. */
  lemma SortedTail(s: seq<DueLoan>)
    requires SortedByDue(s) && s != []
    ensures SortedByDue(s[1..]) && forall i :: 0 <= i < |s| - 1 ==> s[0].due <= s[1..][i].due
  {
  }

  /** A loan due no later than every loan of a sorted sequence can head it. */
  lemma ConsSorted(h: DueLoan, t: seq<DueLoan>)
    requires SortedByDue(t) && forall i :: 0 <= i < |t| ==> h.due <= t[i].due
    ensures SortedByDue([h] + t)
  {
  }

  /** `.sort({ dueDate: 1 })`. */
  function SortByDue(s: seq<DueLoan>): (r: seq<DueLoan>)
    ensures SortedByDue(r)
    ensures multiset(r) == multiset(s)
  {
    if s == [] then []
    else
      assert s == [s[0]] + s[1..];
      InsertByDue(s[0], SortByDue(s[1..]))
  }

  /** The filter of the overdue listing: an active or overdue borrow due before the cutoff. */
  predicate PastCutoff(t: Transaction, cutoff: Millis)
  {
    (t.status == Active || t.status == Overdue) && t.txType == Borrow && t.dueDate.Some? && t.dueDate.value < cutoff
  }

  /** The matching loans, in natural order, with their due dates. */
  function DueLoans(transactions: map<Id, Transaction>, ids: seq<Id>): (r: seq<DueLoan>)
    requires forall i :: 0 <= i < |ids| ==> ids[i] in transactions && transactions[ids[i]].dueDate.Some?
    ensures |r| == |ids|
    ensures forall i :: 0 <= i < |ids| ==> r[i] == DueLoan(ids[i], transactions[ids[i]].dueDate.value)
  {
    seq(|ids|, i requires 0 <= i < |ids| => DueLoan(ids[i], transactions[ids[i]].dueDate.value))
  }

  /**
   * `getOverdueTransactions(graceDays)`: the active or overdue borrows due
   * more than `graceDays` days before `now`, by ascending due date.
   */
  function OverdueListing(transactions: map<Id, Transaction>, nextId: Id, graceDays: int, now: Millis): (r: seq<DueLoan>)
    ensures SortedByDue(r)
    ensures multiset(r) == multiset(DueLoans(transactions, Candidates(transactions, nextId, Cutoff(now, graceDays))))
  {
    SortByDue(DueLoans(transactions, Candidates(transactions, nextId, Cutoff(now, graceDays))))
  }

  /** The due-date cutoff: `graceDays` whole days before `now`. */
  function Cutoff(now: Millis, graceDays: int): (cutoff: Millis)
    ensures now - cutoff == graceDays * MsPerDay
  {
    now - graceDays * MsPerDay
  }

  /** The ids the listing selects, in natural order. */
  function Candidates(transactions: map<Id, Transaction>, nextId: Id, cutoff: Millis): (ids: seq<Id>)
    ensures forall id :: id in ids <==> id in transactions && id < nextId && PastCutoff(transactions[id], cutoff)
    ensures forall i :: 0 <= i < |ids| ==> ids[i] in transactions && transactions[ids[i]].dueDate.Some?
    ensures forall i, j :: 0 <= i < j < |ids| ==> ids[i] < ids[j]
  {
    var ids := Scan(transactions, nextId, (t: Transaction) => PastCutoff(t, cutoff));
    assert forall i :: 0 <= i < |ids| ==> ids[i] in ids;
    ids
  }

  /**
   * The listing holds each selected loan exactly once, with its due date,
   * and nothing else.
   */
  lemma ListingIsExact(transactions: map<Id, Transaction>, nextId: Id, graceDays: int, now: Millis, x: DueLoan)
    ensures var cutoff := Cutoff(now, graceDays);
            var r := OverdueListing(transactions, nextId, graceDays, now);
            multiset(r)[x] == if x.id in transactions && x.id < nextId && PastCutoff(transactions[x.id], cutoff)
                                 && x.due == transactions[x.id].dueDate.value then 1 else 0
  {
    var cutoff := Cutoff(now, graceDays);
    var ids := Candidates(transactions, nextId, cutoff);
    var loans := DueLoans(transactions, ids);
    var r := SortByDue(loans);
    assert r == OverdueListing(transactions, nextId, graceDays, now);
    DistinctIdsCountOnce(ids, loans);
    LoanMembership(transactions, ids, x);
    assert x in loans <==> x in multiset(loans);
  }

  /** A loan occurs in `DueLoans` exactly when its id is listed with its own due date. */
  lemma LoanMembership(transactions: map<Id, Transaction>, ids: seq<Id>, x: DueLoan)
    requires forall i :: 0 <= i < |ids| ==> ids[i] in transactions && transactions[ids[i]].dueDate.Some?
    ensures x in DueLoans(transactions, ids) <==>
            x.id in ids && x.due == transactions[x.id].dueDate.value
  {
    var loans := DueLoans(transactions, ids);
    if x in loans {
      var i :| 0 <= i < |loans| && loans[i] == x;
      assert ids[i] == x.id;
    }
    if x.id in ids && x.due == transactions[x.id].dueDate.value {
      var i :| 0 <= i < |ids| && ids[i] == x.id;
      assert loans[i] == x;
    }
  }

  /** Loans built from ids in strictly increasing order occur at most once each. */
  lemma DistinctIdsCountOnce(ids: seq<Id>, loans: seq<DueLoan>)
    requires |loans| == |ids|
    requires forall i :: 0 <= i < |ids| ==> loans[i].id == ids[i]
    requires forall i, j :: 0 <= i < j < |ids| ==> ids[i] < ids[j]
    ensures forall x :: multiset(loans)[x] <= 1
  {
    if ids != [] {
      var k := |ids| - 1;
      DistinctIdsCountOnce(ids[..k], loans[..k]);
      assert loans == loans[..k] + [loans[k]];
      forall x ensures multiset(loans)[x] <= 1 {
        if x == loans[k] {
          assert x !in loans[..k] by {
            forall i | 0 <= i < k ensures loans[..k][i] != x { }
          }
        }
      }
    }
  }

  // ------------------------------------------------------------ pagination

  /** Which transactions a list is about. */
  datatype Scope = Everyone | OfUser(user: Id) | OfBook(book: Id)

  /** `{ page, limit, status, type }`; an absent page or limit takes its default. */
  datatype PageOptions = PageOptions(page: Option<int>, limit: Option<int>, status: Option<string>, txType: Option<string>)

  /** `Math.ceil(total / limit)`: a count, or Infinity / NaN when the limit is 0. */
  datatype PageCount = Count(n: int) | Infinity | NotANumber

  datatype Pagination = Pagination(page: int, limit: int, total: nat, pages: PageCount)

  /** `{ transactions, pagination }`, newest first. */
  datatype PageResult = PageResult(transactions: seq<Id>, pagination: Pagination)

  const DefaultPage: int := 1
  const DefaultLimit: int := 10

  /**
   * One guard at the top of `_getPaginatedTransactions`: `id && !id` for an
   * id whose truthiness is `truthy`. It holds for neither value.
   */
  function GuardFires(truthy: bool): (fires: bool)
    ensures !fires
  {
    truthy && !truthy
  }

  /**
   * Both guards, on the base query of `scope`: its `user` is truthy only
   * for a list of one user, its `book` only for a list of one book. Neither
   * guard ever throws.
   */
  function GuardRejects(scope: Scope): (fires: bool)
    ensures !fires
  {
    GuardFires(scope.OfUser?) || GuardFires(scope.OfBook?)
  }

  /** The base query, narrowed by a truthy status and a truthy type. */
  predicate Matches(t: Transaction, scope: Scope, opts: PageOptions)
  {
    && (match scope
        case Everyone => true
        case OfUser(u) => t.user == u
        case OfBook(b) => t.book == b)
    && (Truthy(opts.status) ==> StatusName(t.status) == opts.status.value)
    && (Truthy(opts.txType) ==> TxTypeName(t.txType) == opts.txType.value)
  }

  /** The options only narrow the base query. */
  lemma FiltersOnlyNarrow(t: Transaction, scope: Scope, opts: PageOptions)
    ensures Matches(t, scope, opts) ==> Matches(t, scope, PageOptions(opts.page, opts.limit, None, None))
  {
  }

  /** `Math.ceil(total / limit)` for a non-negative total. */
  function PagesFor(total: nat, limit: int): (p: PageCount)
    ensures limit == 0 ==> p == (if total == 0 then NotANumber else Infinity)
    ensures limit > 0 ==> p.Count? && 0 <= p.n && (p.n - 1) * limit < total <= p.n * limit
    ensures limit < 0 ==> p.Count? && p.n <= 0 && p.n * limit <= total < (1 - p.n) * -limit
  {
    if limit == 0 then (if total == 0 then NotANumber else Infinity)
    else if limit > 0 then
      CeilBounds(total, limit);
      Count((total + limit - 1) / limit)
    else
      NegativeCeilBounds(total, -limit);
      Count(-(total / -limit))
  }

  /** `(total + limit - 1) / limit` is the ceiling of `total / limit`. */
  lemma CeilBounds(total: nat, limit: int)
    requires limit > 0
    ensures var n := (total + limit - 1) / limit;
            0 <= n && (n - 1) * limit < total <= n * limit
  {
    var n := (total + limit - 1) / limit;
    DivBounds(total + limit - 1, limit);
    assert (n - 1) * limit == n * limit - limit;
  }

  /** With a negative limit `-d`, the ceiling of `total / -d` is `-(total / d)`. */
  lemma NegativeCeilBounds(total: nat, d: int)
    requires d > 0
    ensures var n := -(total / d);
            n <= 0 && n * -d <= total < (1 - n) * d
  {
    var q := total / d;
    DivBounds(total, d);
    assert -q * -d == q * d;
    assert (1 + q) * d == q * d + d;
  }

  /** Euclidean division brackets its dividend. */
  lemma DivBounds(a: int, b: int)
    requires b > 0
    ensures (a / b) * b <= a < (a / b) * b + b
  {
  }

  /** Reversal: the default sort `{ createdAt: -1 }` lists the newest first. */
  function Reversed(s: seq<Id>): (r: seq<Id>)
    ensures |r| == |s| && forall i :: 0 <= i < |s| ==> r[i] == s[|s| - 1 - i]
  {
    if s == [] then [] else Reversed(s[1..]) + [s[0]]
  }

  /** Reversal keeps the members. */
  lemma ReversedSameMembers(s: seq<Id>)
    ensures forall x :: x in Reversed(s) <==> x in s
  {
    var r := Reversed(s);
    forall x | x in r ensures x in s {
      var i :| 0 <= i < |r| && r[i] == x;
      assert s[|s| - 1 - i] == x;
    }
    forall x | x in s ensures x in r {
      var i :| 0 <= i < |s| && s[i] == x;
      assert r[|s| - 1 - i] == x;
    }
  }

  /**
   * `_getPaginatedTransactions` with the default sort: skip `(page - 1) *
   * limit` of the matching transactions, newest first, take `limit`, and
   * report the total and the page count. A negative skip is refused by the
   * database and rethrown.
   */
  function Paginate(transactions: map<Id, Transaction>, nextId: Id, scope: Scope, opts: PageOptions): (r: Result<PageResult, TxError>)
    ensures r.Err? <==> (PageOf(opts) - 1) * LimitOf(opts) < 0
    ensures r.Err? ==> r.error == QueryFailed(NegativeSkip)
    ensures r.Ok? ==> var all := MatchingIds(transactions, nextId, scope, opts);
                      r.value.pagination == Pagination(PageOf(opts), LimitOf(opts), |all|, PagesFor(|all|, LimitOf(opts)))
    ensures r.Ok? ==> r.value.transactions
                      == Window(Reversed(MatchingIds(transactions, nextId, scope, opts)), (PageOf(opts) - 1) * LimitOf(opts), LimitOf(opts)).value
    ensures r.Ok? ==> forall id :: id in r.value.transactions ==> id in transactions && Matches(transactions[id], scope, opts)
  {
    var limit := LimitOf(opts);
    var skip := (PageOf(opts) - 1) * limit;
    var all := MatchingIds(transactions, nextId, scope, opts);
    var newest := Reversed(all);
    ReversedSameMembers(all);
    var w := Window(newest, skip, limit);
    if w.Err? then Err(QueryFailed(w.error))
    else Ok(PageResult(w.value, Pagination(PageOf(opts), limit, |all|, PagesFor(|all|, limit))))
  }

  /** The requested page, 1 by default. */
  function PageOf(opts: PageOptions): int
  {
    match opts.page case None => DefaultPage case Some(p) => p
  }

  /** The requested page size, 10 by default. */
  function LimitOf(opts: PageOptions): int
  {
    match opts.limit case None => DefaultLimit case Some(l) => l
  }

  /** The ids `find(query)` matches, in natural order. */
  function MatchingIds(transactions: map<Id, Transaction>, nextId: Id, scope: Scope, opts: PageOptions): (ids: seq<Id>)
    ensures forall id :: id in ids <==> id in transactions && id < nextId && Matches(transactions[id], scope, opts)
  {
    Scan(transactions, nextId, (t: Transaction) => Matches(t, scope, opts))
  }

  /**
   * With a positive limit, pages 1 to `pages` each hold at least one
   * transaction and the page after the last holds none.
   */
  lemma PagesCoverTotal(xs: seq<Id>, limit: int, page: int)
    requires limit > 0 && page >= 1
    ensures var pages := PagesFor(|xs|, limit).n;
            var rows := Window(xs, (page - 1) * limit, limit).value;
            (page <= pages ==> |rows| > 0) && (page > pages ==> rows == [])
  {
    var pages := PagesFor(|xs|, limit).n;
    var skip := (page - 1) * limit;
    if page <= pages {
      assert skip <= (pages - 1) * limit;
    } else {
      assert skip >= pages * limit;
    }
  }
}
