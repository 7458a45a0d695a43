/**
 * The readers of complete_app.py: each is a SELECT over the current tables,
 * modelled as a function of those tables. A caught database error (which
 * returns None, [] or {}) is not modelled.
 */
module Queries {
  import opened Wrappers
  import opened Records
  import opened Sorting

  /** Python truthiness of the optional user_id argument: None and 0 both mean "all users". */
  predicate Truthy(userId: Option<int>) {
    userId.Some? && userId.value != 0
  }

  /** The WHERE clause shared by the scoped readers. */
  predicate InScope(s: Sale, userId: Option<int>) {
    !Truthy(userId) || s.userId == userId.value
  }

  // ---------------------------------------------------------------- authenticate_user

  /** SELECT * FROM user WHERE username = ? AND password_hash = ?, first row or None. */
  function Authenticate(users: seq<User>, username: string, password: string): (r: Option<User>)
    ensures r.Some? <==>
      exists i :: 0 <= i < |users| && users[i].username == username && users[i].passwordHash == password
    ensures r.Some? ==> r.value in users && r.value.username == username && r.value.passwordHash == password
    decreases |users|
  {
    if users == [] then None
    else if users[0].username == username && users[0].passwordHash == password then Some(users[0])
    else
      var r := Authenticate(users[1..], username, password);
      assert r.Some? ==> r.value in users;
      assert forall i :: 1 <= i < |users| ==> users[i] == users[1..][i - 1];
      r
  }

  /** With UNIQUE usernames the result is decided by the one row holding the username. */
  lemma AuthenticateByUsername(users: seq<User>, nextId: int, u: User, password: string)
    requires UsersOk(users, nextId) && u in users
    ensures Authenticate(users, u.username, password) == if u.passwordHash == password then Some(u) else None
  {
    var r := Authenticate(users, u.username, password);
    var i :| 0 <= i < |users| && users[i] == u;
    if r.Some? {
      var j :| 0 <= j < |users| && users[j] == r.value;
      assert i == j;
    }
  }

  /** An unknown username never authenticates, whatever the password. */
  lemma AuthenticateUnknown(users: seq<User>, username: string, password: string)
    requires forall i :: 0 <= i < |users| ==> users[i].username != username
    ensures Authenticate(users, username, password) == None
  {
  }

  // ---------------------------------------------------------------- get_sales_data

  /** The owner lookup of the JOIN: the first user row with that id. */
  function FindUser(users: seq<User>, id: int): (r: Option<User>)
    ensures r.Some? <==> exists i :: 0 <= i < |users| && users[i].id == id
    ensures r.Some? ==> r.value in users && r.value.id == id
    decreases |users|
  {
    if users == [] then None
    else if users[0].id == id then Some(users[0])
    else
      var r := FindUser(users[1..], id);
      assert forall i :: 1 <= i < |users| ==> users[i] == users[1..][i - 1];
      r
  }

  lemma FindUserUnique(users: seq<User>, u: User)
    requires UniqueUserIds(users) && u in users
    ensures FindUser(users, u.id) == Some(u)
  {
    var r := FindUser(users, u.id);
    var i :| 0 <= i < |users| && users[i] == u;
    var j :| 0 <= j < |users| && users[j] == r.value;
    assert i == j;
  }

  /** A row of get_sales_data: the sale's columns plus the owner's username as salesperson. */
  datatype SaleRow = SaleRow(sale: Sale, salesperson: string)

  /** sale JOIN user ON s.user_id = u.id, restricted to the scope, in table order. */
  function Joined(sales: seq<Sale>, users: seq<User>, userId: Option<int>): (r: seq<SaleRow>)
    ensures |r| <= |sales|
    ensures forall row :: row in r <==>
      row.sale in sales && InScope(row.sale, userId) &&
      FindUser(users, row.sale.userId).Some? && row.salesperson == FindUser(users, row.sale.userId).value.username
    ensures forall row :: row in r ==> multiset(r)[row] == multiset(sales)[row.sale]
    decreases |sales|
  {
    if sales == [] then []
    else
      var last := sales[|sales| - 1];
      assert sales == sales[..|sales| - 1] + [last];
      var front := Joined(sales[..|sales| - 1], users, userId);
      match FindUser(users, last.userId)
      case Some(u) => if InScope(last, userId) then front + [SaleRow(last, u.username)] else front
      case None => front
  }

  /** The rows of the JOIN: in-scope sales whose owner exists, each paired with that owner's username. */
  lemma {:induction false} JoinedRows(sales: seq<Sale>, users: seq<User>, userId: Option<int>, row: SaleRow)
    requires UniqueUserIds(users)
    ensures row in Joined(sales, users, userId) <==>
      row.sale in sales && InScope(row.sale, userId) &&
      exists u :: u in users && u.id == row.sale.userId && u.username == row.salesperson
    decreases |sales|
  {
    if sales != [] {
      var front := sales[..|sales| - 1];
      var last := sales[|sales| - 1];
      assert sales == front + [last];
      JoinedRows(front, users, userId, row);
      if row.sale == last && InScope(last, userId) {
        if u :| u in users && u.id == row.sale.userId && u.username == row.salesperson {
          FindUserUnique(users, u);
        }
      }
    }
  }

  /** ORDER BY s.sale_date DESC. */
  predicate LaterOrSame(a: SaleRow, b: SaleRow) {
    a.sale.saleDate >= b.sale.saleDate
  }

  lemma LaterOrSameIsTotalPreorder()
    ensures TotalPreorder(LaterOrSame)
  {
  }

  /** get_sales_data: the joined, scoped rows ordered by sale date, newest first; ties in no promised order. */
  function SalesData(sales: seq<Sale>, users: seq<User>, userId: Option<int>): (r: seq<SaleRow>)
    ensures multiset(r) == multiset(Joined(sales, users, userId))
    ensures SortedBy(r, LaterOrSame)
  {
    LaterOrSameIsTotalPreorder();
    SortBy(Joined(sales, users, userId), LaterOrSame)
  }

  /** What get_sales_data lists, row by row. */
  lemma SalesDataRows(sales: seq<Sale>, users: seq<User>, userId: Option<int>, row: SaleRow)
    requires UniqueUserIds(users)
    ensures row in SalesData(sales, users, userId) <==>
      row.sale in sales && InScope(row.sale, userId) &&
      exists u :: u in users && u.id == row.sale.userId && u.username == row.salesperson
  {
    JoinedRows(sales, users, userId, row);
    assert row in SalesData(sales, users, userId) <==> row in multiset(SalesData(sales, users, userId));
  }

  // ---------------------------------------------------------------- get_sales_stats

  /** FROM sale [WHERE user_id = ?], in table order; no JOIN, so sales of missing users still count. */
  function ScopedSales(sales: seq<Sale>, userId: Option<int>): (r: seq<Sale>)
    ensures forall s :: s in r <==> s in sales && InScope(s, userId)
    ensures |r| <= |sales|
    decreases |sales|
  {
    if sales == [] then []
    else
      var last := sales[|sales| - 1];
      assert sales == sales[..|sales| - 1] + [last];
      ScopedSales(sales[..|sales| - 1], userId) + (if InScope(last, userId) then [last] else [])
  }

  /** COALESCE(SUM(amount), 0). */
  function SumAmount(sales: seq<Sale>): (total: real)
    ensures (forall i :: 0 <= i < |sales| ==> sales[i].amount >= 0.0) ==> total >= 0.0
    decreases |sales|
  {
    if sales == [] then 0.0 else SumAmount(sales[..|sales| - 1]) + sales[|sales| - 1].amount
  }

  /** COALESCE(SUM(commission_amount), 0). */
  function SumCommission(sales: seq<Sale>): (total: real)
    ensures (forall i :: 0 <= i < |sales| ==> sales[i].commission >= 0.0) ==> total >= 0.0
    decreases |sales|
  {
    if sales == [] then 0.0 else SumCommission(sales[..|sales| - 1]) + sales[|sales| - 1].commission
  }

  datatype Stats = Stats(totalSales: nat, totalAmount: real, totalCommission: real, averageSale: real)

  /** COALESCE(AVG(amount), 0): the mean of a non-empty scope, else 0. */
  function Average(total: real, count: nat): (a: real)
    ensures count > 0 ==> a * (count as real) == total
    ensures count == 0 ==> a == 0.0
  {
    if count == 0 then 0.0 else total / count as real
  }

  /** get_sales_stats: count, the two sums and AVG(amount), each 0 on an empty scope. */
  function SalesStats(sales: seq<Sale>, userId: Option<int>): (r: Stats)
    ensures r.totalSales == |ScopedSales(sales, userId)|
    ensures r.totalAmount == SumAmount(ScopedSales(sales, userId))
    ensures r.totalCommission == SumCommission(ScopedSales(sales, userId))
    ensures r.totalSales == 0 ==> r.totalAmount == 0.0 && r.totalCommission == 0.0 && r.averageSale == 0.0
    ensures r.averageSale == Average(r.totalAmount, r.totalSales)
  {
    var scoped := ScopedSales(sales, userId);
    var total := SumAmount(scoped);
    Stats(|scoped|, total, SumCommission(scoped), Average(total, |scoped|))
  }

  /** Recording one more sale moves the statistics of every scope that sees it by exactly that sale. */
  lemma StatsAfterAppend(sales: seq<Sale>, s: Sale, userId: Option<int>)
    ensures var before, after := SalesStats(sales, userId), SalesStats(sales + [s], userId);
      if InScope(s, userId) then
        after.totalSales == before.totalSales + 1 &&
        after.totalAmount == before.totalAmount + s.amount &&
        after.totalCommission == before.totalCommission + s.commission
      else
        after == before
  {
    assert (sales + [s])[..|sales|] == sales;
    var scoped := ScopedSales(sales, userId);
    assert ScopedSales(sales + [s], userId) == scoped + (if InScope(s, userId) then [s] else []);
    if InScope(s, userId) {
      assert (scoped + [s])[..|scoped|] == scoped;
    } else {
      assert ScopedSales(sales + [s], userId) == scoped;
    }
  }

  /** A scope holding no sale reports all four statistics as 0. */
  lemma {:induction false} StatsOfEmptyScope(sales: seq<Sale>, userId: Option<int>)
    requires forall i :: 0 <= i < |sales| ==> !InScope(sales[i], userId)
    ensures SalesStats(sales, userId) == Stats(0, 0.0, 0.0, 0.0)
    decreases |sales|
  {
    if sales != [] {
      StatsOfEmptyScope(sales[..|sales| - 1], userId);
    }
  }

  /**
   * When every sale's owner exists the dashboard's two readers agree on the
   * number of sales in a scope; orphaned sales are counted by get_sales_stats only.
   */
  lemma {:induction false} StatsCountMatchesListing(sales: seq<Sale>, users: seq<User>, userId: Option<int>)
    requires OwnersExist(users, sales)
    ensures |SalesData(sales, users, userId)| == SalesStats(sales, userId).totalSales
    decreases |sales|
  {
    if sales != [] {
      var front := sales[..|sales| - 1];
      var last := sales[|sales| - 1];
      assert last in sales;
      assert OwnersExist(users, front) by {
        forall s | s in front ensures exists u :: u in users && u.id == s.userId {
          assert s in sales;
        }
      }
      StatsCountMatchesListing(front, users, userId);
      var u :| u in users && u.id == last.userId;
      assert FindUser(users, last.userId).Some?;
      assert |multiset(SalesData(sales, users, userId))| == |multiset(Joined(sales, users, userId))|;
      assert |multiset(SalesData(front, users, userId))| == |multiset(Joined(front, users, userId))|;
    }
  }

  // ---------------------------------------------------------------- get_commission_rules, get_all_users

  /** ORDER BY product_name. */
  predicate ProductOrder(a: Rule, b: Rule) {
    LexLeq(a.product, b.product)
  }

  /** ORDER BY username. */
  predicate UsernameOrder(a: User, b: User) {
    LexLeq(a.username, b.username)
  }

  lemma ProductOrderIsTotalPreorder()
    ensures TotalPreorder(ProductOrder)
  {
    forall a: Rule, b: Rule ensures ProductOrder(a, b) || ProductOrder(b, a) {
      LexLeqTotal(a.product, b.product);
    }
    forall a: Rule, b: Rule, c: Rule | ProductOrder(a, b) && ProductOrder(b, c) ensures ProductOrder(a, c) {
      LexLeqTransitive(a.product, b.product, c.product);
    }
  }

  lemma UsernameOrderIsTotalPreorder()
    ensures TotalPreorder(UsernameOrder)
  {
    forall a: User, b: User ensures UsernameOrder(a, b) || UsernameOrder(b, a) {
      LexLeqTotal(a.username, b.username);
    }
    forall a: User, b: User, c: User | UsernameOrder(a, b) && UsernameOrder(b, c) ensures UsernameOrder(a, c) {
      LexLeqTransitive(a.username, b.username, c.username);
    }
  }

  /** get_commission_rules: every rule, each as often as stored, ordered by product name. */
  function CommissionRules(rules: seq<Rule>): (r: seq<Rule>)
    ensures multiset(r) == multiset(rules)
    ensures SortedBy(r, ProductOrder)
  {
    ProductOrderIsTotalPreorder();
    SortBy(rules, ProductOrder)
  }

  /** get_all_users: every user, ordered by username. */
  function AllUsers(users: seq<User>): (r: seq<User>)
    ensures multiset(r) == multiset(users)
    ensures SortedBy(r, UsernameOrder)
  {
    UsernameOrderIsTotalPreorder();
    SortBy(users, UsernameOrder)
  }

  /** A value found at two positions occurs at least twice. */
  lemma OccursTwice<T>(s: seq<T>, i: int, j: int)
    requires 0 <= i < j < |s| && s[i] == s[j]
    ensures multiset(s)[s[i]] >= 2
  {
    assert s == s[..i] + [s[i]] + s[i + 1..j] + [s[j]] + s[j + 1..];
  }

  /** Rows with distinct ids are distinct, so each occurs at most once. */
  lemma {:induction false} OccursOnce(users: seq<User>, x: User)
    requires UniqueUserIds(users)
    ensures multiset(users)[x] <= 1
    decreases |users|
  {
    if users != [] {
      var front, last := users[..|users| - 1], users[|users| - 1];
      assert users == front + [last];
      OccursOnce(front, x);
      if last == x {
        assert x !in front;
      }
    }
  }

  /** Usernames are UNIQUE, so the user listing is strictly increasing by username and its order is fully determined. */
  lemma AllUsersStrictlyIncreasing(users: seq<User>, nextId: int, i: int, j: int)
    requires UsersOk(users, nextId)
    requires 0 <= i < j < |AllUsers(users)|
    ensures LexLeq(AllUsers(users)[i].username, AllUsers(users)[j].username)
    ensures AllUsers(users)[i].username != AllUsers(users)[j].username
    ensures !LexLeq(AllUsers(users)[j].username, AllUsers(users)[i].username)
  {
    var r := AllUsers(users);
    assert r[i] in multiset(users) && r[j] in multiset(users);
    var a :| 0 <= a < |users| && users[a] == r[i];
    var b :| 0 <= b < |users| && users[b] == r[j];
    if r[i].username == r[j].username {
      assert a == b;
      OccursTwice(r, i, j);
      OccursOnce(users, r[i]);
    }
    if LexLeq(r[j].username, r[i].username) {
      LexLeqAntisymmetric(r[i].username, r[j].username);
    }
  }
}
