/**
 * The dashboard's form guards and role scope (complete_app.py): the checks a
 * page makes before it calls a writer, and which scope it passes to the
 * readers. Rendering, widgets and navigation are not modelled.
 */
module Forms {
  import opened Wrappers
  import opened Records
  import opened Queries
  import Store

  /** The sale form submits only with a customer, a product and a positive amount. */
  predicate SaleFormAccepts(customer: string, product: string, amount: real) {
    customer != "" && product != "" && amount > 0.0
  }

  /** The rule form submits only with a product name and a positive rate. */
  predicate RuleFormAccepts(product: string, ratePercent: real) {
    product != "" && ratePercent > 0.0
  }

  /** The rule form's maximum: 0 (or less) means "no limit" and is stored as NULL. */
  function StoredMaxAmount(maxAmount: real): (r: Option<real>)
    ensures r.None? <==> maxAmount <= 0.0
    ensures r.Some? ==> r.value == maxAmount && r.value > 0.0
  {
    if maxAmount > 0.0 then Some(maxAmount) else None
  }

  /** The user form submits only with a username, an email and a password. */
  predicate UserFormAccepts(username: string, email: string, password: string) {
    username != "" && email != "" && password != ""
  }

  /** The user page never deletes the logged-in account. */
  predicate MayDelete(actor: User, targetId: int) {
    targetId != actor.id
  }

  /** The session's role decides the dashboard's scope. */
  predicate IsAdmin(u: User) {
    u.role == AdminRole
  }

  /** Admins read every sale; everyone else passes their own id. */
  function ScopeFor(actor: User): (scope: Option<int>)
    ensures IsAdmin(actor) ==> !Truthy(scope)
    ensures !IsAdmin(actor) && actor.id != 0 ==> Truthy(scope) && scope.value == actor.id
  {
    if IsAdmin(actor) then None else Some(actor.id)
  }

  /** The dashboard's listing for a logged-in user (ids start at 1): everything for an admin, only their own sales otherwise. */
  lemma DashboardListingScope(users: seq<User>, nextId: int, sales: seq<Sale>, actor: User, row: SaleRow)
    requires UsersOk(users, nextId) && actor.id != 0
    ensures row in SalesData(sales, users, ScopeFor(actor)) <==>
      row.sale in sales && (IsAdmin(actor) || row.sale.userId == actor.id) &&
      exists u :: u in users && u.id == row.sale.userId && u.username == row.salesperson
  {
    SalesDataRows(sales, users, ScopeFor(actor), row);
  }

  /** The dashboard's statistics for a stored user cover the same sales, orphans included. */
  lemma DashboardStatsScope(sales: seq<Sale>, actor: User, s: Sale)
    requires actor.id != 0
    ensures s in ScopedSales(sales, ScopeFor(actor)) <==> s in sales && (IsAdmin(actor) || s.userId == actor.id)
  {
  }

  /** Once a user is deleted, their statistics read as an empty scope. */
  lemma StatsAfterDelete(sales: seq<Sale>, userId: int)
    requires userId != 0
    ensures SalesStats(Store.SalesNotOf(sales, userId), Some(userId)) == Stats(0, 0.0, 0.0, 0.0)
  {
    var rest := Store.SalesNotOf(sales, userId);
    forall i | 0 <= i < |rest| ensures !InScope(rest[i], Some(userId)) {
      assert rest[i] in rest;
    }
    StatsOfEmptyScope(rest, Some(userId));
  }

  /** Submitting the sale form: add_sale for the logged-in user when the guard passes. */
  method SubmitSale(db: Store.SalesDb, actor: User, customer: string, product: string,
                    amount: real, ratePercent: real, today: int) returns (ok: bool)
    requires db.Valid()
    modifies db
    ensures db.Valid()
    ensures ok <==> SaleFormAccepts(customer, product, amount)
    ensures ok ==> db.sales == old(db.sales) + [Sale(old(db.nextSaleId), actor.id, customer, product, amount,
                                                     PercentCommission(amount, ratePercent), today)]
    ensures ok ==> db.nextSaleId == old(db.nextSaleId) + 1
    ensures !ok ==> unchanged(db)
    ensures db.users == old(db.users) && db.rules == old(db.rules)
    ensures db.nextUserId == old(db.nextUserId) && db.nextRuleId == old(db.nextRuleId)
  {
    if SaleFormAccepts(customer, product, amount) {
      ok := db.AddSale(actor.id, customer, product, amount, ratePercent, today);
    } else {
      ok := false;
    }
  }

  /** Submitting the rule form: add_commission_rule with a zero maximum stored as NULL. */
  method SubmitRule(db: Store.SalesDb, product: string, ratePercent: real, minAmount: real, maxAmount: real)
    returns (ok: bool)
    requires db.Valid()
    modifies db
    ensures db.Valid()
    ensures ok <==> RuleFormAccepts(product, ratePercent)
    ensures ok && Store.HasRuleFor(old(db.rules), product) ==>
      && |db.rules| == |old(db.rules)| && db.nextRuleId == old(db.nextRuleId)
      && forall i :: 0 <= i < |db.rules| ==>
           db.rules[i] == Store.Retuned(old(db.rules)[i], product, ratePercent, minAmount, StoredMaxAmount(maxAmount))
    ensures ok && !Store.HasRuleFor(old(db.rules), product) ==>
      && db.rules == old(db.rules) + [Rule(old(db.nextRuleId), product, ratePercent, minAmount, StoredMaxAmount(maxAmount))]
      && db.nextRuleId == old(db.nextRuleId) + 1
    ensures ok ==> Store.HasRuleFor(db.rules, product)
    ensures ok ==> forall r :: r in db.rules && r.product == product ==>
      r.rate == ratePercent && r.minAmount == minAmount && r.maxAmount == StoredMaxAmount(maxAmount)
    ensures ok ==> forall i :: 0 <= i < |old(db.rules)| && old(db.rules)[i].product != product ==>
      i < |db.rules| && db.rules[i] == old(db.rules)[i]
    ensures !ok ==> unchanged(db)
    ensures db.users == old(db.users) && db.sales == old(db.sales)
    ensures db.nextUserId == old(db.nextUserId) && db.nextSaleId == old(db.nextSaleId)
  {
    if RuleFormAccepts(product, ratePercent) {
      var maxAmt := StoredMaxAmount(maxAmount);
      ok := db.AddCommissionRule(product, ratePercent, minAmount, maxAmt);
    } else {
      ok := false;
    }
  }

  /** Submitting the user form: add_user when every field is filled in. */
  method SubmitUser(db: Store.SalesDb, username: string, email: string, password: string, role: string)
    returns (ok: bool)
    requires db.Valid()
    modifies db
    ensures db.Valid()
    ensures ok <==> UserFormAccepts(username, email, password) && !Collides(old(db.users), username, email)
    ensures ok ==> db.users == old(db.users) + [User(old(db.nextUserId), username, email, password, role)]
    ensures ok ==> db.nextUserId == old(db.nextUserId) + 1
    ensures !ok ==> db.users == old(db.users) && db.nextUserId == old(db.nextUserId)
    ensures db.sales == old(db.sales) && db.rules == old(db.rules)
    ensures db.nextSaleId == old(db.nextSaleId) && db.nextRuleId == old(db.nextRuleId)
  {
    if UserFormAccepts(username, email, password) {
      ok := db.AddUser(username, email, password, role);
    } else {
      ok := false;
    }
  }

  /** The delete button of the user page: refused for the logged-in account, delete_user otherwise. */
  method DeleteFromUserPage(db: Store.SalesDb, actor: User, targetId: int) returns (ok: bool)
    requires db.Valid()
    modifies db
    ensures db.Valid()
    ensures ok <==> MayDelete(actor, targetId)
    ensures !ok ==> unchanged(db)
    ensures ok ==> db.users == Store.UsersNotWithId(old(db.users), targetId)
    ensures ok ==> db.sales == Store.SalesNotOf(old(db.sales), targetId)
    ensures db.rules == old(db.rules)
    ensures db.nextUserId == old(db.nextUserId) && db.nextSaleId == old(db.nextSaleId)
    ensures db.nextRuleId == old(db.nextRuleId)
    ensures forall u :: u in old(db.users) && u.id == actor.id ==> u in db.users
    ensures forall s :: s in old(db.sales) && s.userId == actor.id ==> s in db.sales
  {
    if MayDelete(actor, targetId) {
      ok := db.DeleteUser(targetId);
    } else {
      ok := false;
    }
  }
}
