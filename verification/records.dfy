/**
 * The three tables of the dashboard's SQLite store (complete_app.py), one
 * datatype per row, and the constraints the table definitions impose.
 * Amounts and rates are reals (no floating-point rounding); dates are an
 * abstract, totally ordered int. created_at columns are not modelled.
 */
module Records {
  import opened Wrappers

  /** A row of `user`. password_hash holds whatever the caller passed (the dashboard passes the plain password). */
  datatype User = User(id: int, username: string, email: string, passwordHash: string, role: string)

  /** A row of `sale`. The table has no commission_rate column: only the computed commission is kept. */
  datatype Sale = Sale(
    id: int, userId: int, customer: string, product: string,
    amount: real, commission: real, saleDate: int)

  /** A row of `commission_rule`; commission_rate is a percentage (10.0 means 10%). */
  datatype Rule = Rule(id: int, product: string, rate: real, minAmount: real, maxAmount: Option<real>)

  /** Column default of user.role. */
  const DefaultRole: string := "sales_rep"
  const AdminRole: string := "admin"

  /** add_sale's commission: the rate is a percentage. */
  function PercentCommission(amount: real, ratePercent: real): (c: real)
    ensures amount > 0.0 && ratePercent > 0.0 ==> c > 0.0
    ensures amount >= 0.0 && 0.0 <= ratePercent <= 100.0 ==> c <= amount
  {
    amount * (ratePercent / 100.0)
  }

  /** Some row already holds this username or this email (UNIQUE would reject the write). */
  predicate Collides(users: seq<User>, username: string, email: string) {
    exists i :: 0 <= i < |users| && (users[i].username == username || users[i].email == email)
  }

  ghost predicate UniqueUserIds(users: seq<User>) {
    forall i, j :: 0 <= i < j < |users| ==> users[i].id != users[j].id
  }

  /** The user table: AUTOINCREMENT ids below the next id, UNIQUE id, username and email. */
  ghost predicate UsersOk(users: seq<User>, nextId: int) {
    && 1 <= nextId
    && (forall i :: 0 <= i < |users| ==> 1 <= users[i].id < nextId)
    && UniqueUserIds(users)
    && (forall i, j :: 0 <= i < j < |users| ==>
          users[i].username != users[j].username && users[i].email != users[j].email)
  }

  ghost predicate SalesOk(sales: seq<Sale>, nextId: int) {
    && 1 <= nextId
    && (forall i :: 0 <= i < |sales| ==> 1 <= sales[i].id < nextId)
    && (forall i, j :: 0 <= i < j < |sales| ==> sales[i].id != sales[j].id)
  }

  ghost predicate RulesOk(rules: seq<Rule>, nextId: int) {
    && 1 <= nextId
    && (forall i :: 0 <= i < |rules| ==> 1 <= rules[i].id < nextId)
    && (forall i, j :: 0 <= i < j < |rules| ==> rules[i].id != rules[j].id)
  }

  /** Every sale's user_id names an existing user (SQLite does not enforce the FOREIGN KEY by default). */
  ghost predicate OwnersExist(users: seq<User>, sales: seq<Sale>) {
    forall s :: s in sales ==> exists u :: u in users && u.id == s.userId
  }
}
