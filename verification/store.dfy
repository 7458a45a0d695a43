/**
 * The dashboard's SQLite store (complete_app.py) as an object holding its
 * three tables and their AUTOINCREMENT counters. Each writer of the source
 * is a method; a write that SQLite rejects returns false and changes
 * nothing. The readers are the functions of module Queries.
 */
module Store {
  import opened Wrappers
  import opened Records

  // ---------------------------------------------------------------- seed data of init_database

  datatype UserSeed = UserSeed(username: string, email: string, password: string, role: string)
  datatype SaleSeed = SaleSeed(userId: int, customer: string, product: string, amount: real, commission: real, saleDate: int)
  datatype RuleSeed = RuleSeed(product: string, rate: real, minAmount: real, maxAmount: Option<real>)

  const UserSeeds: seq<UserSeed> := [
    UserSeed("admin", "admin@example.com", "admin123", "admin"),
    UserSeed("salesrep", "salesrep@example.com", "sales123", "sales_rep"),
    UserSeed("demo", "demo@example.com", "demo123", "sales_rep"),
    UserSeed("manager", "manager@example.com", "manager123", "admin")
  ]

  /** Sale dates are written yyyymmdd, which keeps their order. */
  const SaleSeeds: seq<SaleSeed> := [
    SaleSeed(1, "Nestle India", "Cloud Analytics Suite", 5200.0, 520.0, 20240115),
    SaleSeed(2, "PepsiCo Beverages", "ERP Subscription", 7600.0, 608.0, 20240117),
    SaleSeed(3, "Samsung Electronics", "IoT Device Package", 11200.0, 1344.0, 20240120),
    SaleSeed(3, "ICICI Bank", "Cybersecurity Service", 4500.0, 360.0, 20240122),
    SaleSeed(4, "Nike Sports India", "E-Commerce Integration", 9800.0, 980.0, 20240125),
    SaleSeed(1, "Apple Inc.", "Cloud Storage Solution", 12500.0, 1500.0, 20240127),
    SaleSeed(2, "Sony Pictures", "AI Marketing Tool", 8800.0, 704.0, 20240128),
    SaleSeed(4, "Deloitte Consulting", "Enterprise SaaS Platform", 15800.0, 1896.0, 20240130)
  ]

  const RuleSeeds: seq<RuleSeed> := [
    RuleSeed("Premium Package", 10.0, 0.0, None),
    RuleSeed("Standard Package", 8.0, 0.0, None),
    RuleSeed("Basic Package", 5.0, 0.0, None),
    RuleSeed("Enterprise Solution", 12.0, 10000.0, None)
  ]

  /** INSERT OR IGNORE INTO user: skipped when the username or the email is taken. */
  function InsertOrIgnore(users: seq<User>, nextId: int, seed: UserSeed): (r: (seq<User>, int))
    ensures users <= r.0 && |r.0| <= |users| + 1
    ensures Collides(r.0, seed.username, seed.email)
    ensures Collides(users, seed.username, seed.email) ==> r == (users, nextId)
    ensures !Collides(users, seed.username, seed.email) ==>
      r == (users + [User(nextId, seed.username, seed.email, seed.password, seed.role)], nextId + 1)
  {
    if Collides(users, seed.username, seed.email) then (users, nextId)
    else
      var grown := users + [User(nextId, seed.username, seed.email, seed.password, seed.role)];
      assert grown[|users|].username == seed.username;
      (grown, nextId + 1)
  }

  /** The user-seeding loop of init_database over `seeds`, in order. */
  function SeedUsersInto(users: seq<User>, nextId: int, seeds: seq<UserSeed>): (r: (seq<User>, int))
    ensures users <= r.0 && nextId <= r.1
    decreases |seeds|
  {
    if seeds == [] then (users, nextId)
    else
      var mid := SeedUsersInto(users, nextId, seeds[..|seeds| - 1]);
      InsertOrIgnore(mid.0, mid.1, seeds[|seeds| - 1])
  }

  /** Rows are only ever appended, so a taken username or email stays taken. */
  lemma CollidesGrows(users: seq<User>, more: seq<User>, username: string, email: string)
    requires users <= more && Collides(users, username, email)
    ensures Collides(more, username, email)
  {
    var i :| 0 <= i < |users| && (users[i].username == username || users[i].email == email);
    assert more[i] == users[i];
  }

  lemma InsertOrIgnoreKeepsTable(users: seq<User>, nextId: int, seed: UserSeed)
    requires UsersOk(users, nextId)
    ensures UsersOk(InsertOrIgnore(users, nextId, seed).0, InsertOrIgnore(users, nextId, seed).1)
  {
  }

  lemma {:induction false} SeedUsersKeepTable(users: seq<User>, nextId: int, seeds: seq<UserSeed>)
    requires UsersOk(users, nextId)
    ensures UsersOk(SeedUsersInto(users, nextId, seeds).0, SeedUsersInto(users, nextId, seeds).1)
    decreases |seeds|
  {
    if seeds != [] {
      SeedUsersKeepTable(users, nextId, seeds[..|seeds| - 1]);
      var mid := SeedUsersInto(users, nextId, seeds[..|seeds| - 1]);
      InsertOrIgnoreKeepsTable(mid.0, mid.1, seeds[|seeds| - 1]);
    }
  }

  /** After seeding, every seed's username or email is present. */
  lemma {:induction false} SeedUsersBlockAll(users: seq<User>, nextId: int, seeds: seq<UserSeed>)
    ensures forall k :: 0 <= k < |seeds| ==>
      Collides(SeedUsersInto(users, nextId, seeds).0, seeds[k].username, seeds[k].email)
    decreases |seeds|
  {
    if seeds != [] {
      var front := seeds[..|seeds| - 1];
      var last := seeds[|seeds| - 1];
      SeedUsersBlockAll(users, nextId, front);
      var mid := SeedUsersInto(users, nextId, front);
      var r := InsertOrIgnore(mid.0, mid.1, last);
      forall k | 0 <= k < |seeds| ensures Collides(r.0, seeds[k].username, seeds[k].email) {
        if k < |seeds| - 1 {
          assert seeds[k] == front[k];
          CollidesGrows(mid.0, r.0, seeds[k].username, seeds[k].email);
        } else if !Collides(mid.0, last.username, last.email) {
          assert r.0[|mid.0|].username == last.username;
        }
      }
    }
  }

  /** Seeding is a no-op when every seed is already blocked: the user table and its counter stay put. */
  lemma {:induction false} SeedUsersNoop(users: seq<User>, nextId: int, seeds: seq<UserSeed>)
    requires forall k :: 0 <= k < |seeds| ==> Collides(users, seeds[k].username, seeds[k].email)
    ensures SeedUsersInto(users, nextId, seeds) == (users, nextId)
    decreases |seeds|
  {
    if seeds != [] {
      SeedUsersNoop(users, nextId, seeds[..|seeds| - 1]);
      assert Collides(users, seeds[|seeds| - 1].username, seeds[|seeds| - 1].email);
    }
  }

  /** The sample sales as rows, numbered from `firstId`. */
  function SeededSales(firstId: int, seeds: seq<SaleSeed>): (r: seq<Sale>)
    ensures |r| == |seeds|
    ensures forall k :: 0 <= k < |r| ==>
      r[k] == Sale(firstId + k, seeds[k].userId, seeds[k].customer, seeds[k].product,
                   seeds[k].amount, seeds[k].commission, seeds[k].saleDate)
  {
    seq(|seeds|, k requires 0 <= k < |seeds| =>
      Sale(firstId + k, seeds[k].userId, seeds[k].customer, seeds[k].product,
           seeds[k].amount, seeds[k].commission, seeds[k].saleDate))
  }

  /** The sample rules as rows, numbered from `firstId`. */
  function SeededRules(firstId: int, seeds: seq<RuleSeed>): (r: seq<Rule>)
    ensures |r| == |seeds|
    ensures forall k :: 0 <= k < |r| ==>
      r[k] == Rule(firstId + k, seeds[k].product, seeds[k].rate, seeds[k].minAmount, seeds[k].maxAmount)
  {
    seq(|seeds|, k requires 0 <= k < |seeds| =>
      Rule(firstId + k, seeds[k].product, seeds[k].rate, seeds[k].minAmount, seeds[k].maxAmount))
  }

  // ---------------------------------------------------------------- row-level helpers of the writers

  /** There is a rule for this product name. */
  predicate HasRuleFor(rules: seq<Rule>, product: string) {
    exists i :: 0 <= i < |rules| && rules[i].product == product
  }

  /** UPDATE commission_rule SET ... WHERE product_name = ?, applied to one row. */
  function Retuned(r: Rule, product: string, rate: real, minAmount: real, maxAmount: Option<real>): (t: Rule)
    ensures t.id == r.id && t.product == r.product
    ensures r.product == product ==> t.rate == rate && t.minAmount == minAmount && t.maxAmount == maxAmount
    ensures r.product != product ==> t == r
  {
    if r.product == product then r.(rate := rate, minAmount := minAmount, maxAmount := maxAmount) else r
  }

  /** UPDATE user SET username, email, role WHERE id = ?, applied to one row. */
  function Renamed(u: User, userId: int, username: string, email: string, role: string): (v: User)
    ensures v.id == u.id && v.passwordHash == u.passwordHash
    ensures u.id == userId ==> v.username == username && v.email == email && v.role == role
    ensures u.id != userId ==> v == u
  {
    if u.id == userId then u.(username := username, email := email, role := role) else u
  }

  /** The update of user `userId` would break UNIQUE: the row exists and another row holds the username or email. */
  predicate UpdateCollides(users: seq<User>, userId: int, username: string, email: string) {
    && (exists i :: 0 <= i < |users| && users[i].id == userId)
    && (exists j :: 0 <= j < |users| && users[j].id != userId &&
          (users[j].username == username || users[j].email == email))
  }

  /** The sales left by DELETE FROM sale WHERE user_id = ?. */
  function SalesNotOf(sales: seq<Sale>, userId: int): (r: seq<Sale>)
    ensures forall s :: s in r <==> s in sales && s.userId != userId
    ensures |r| <= |sales|
    decreases |sales|
  {
    if sales == [] then []
    else
      var last := sales[|sales| - 1];
      assert sales == sales[..|sales| - 1] + [last];
      SalesNotOf(sales[..|sales| - 1], userId) + (if last.userId != userId then [last] else [])
  }

  /** The users left by DELETE FROM user WHERE id = ?. */
  function UsersNotWithId(users: seq<User>, userId: int): (r: seq<User>)
    ensures forall u :: u in r <==> u in users && u.id != userId
    ensures |r| <= |users|
    decreases |users|
  {
    if users == [] then []
    else
      var last := users[|users| - 1];
      assert users == users[..|users| - 1] + [last];
      UsersNotWithId(users[..|users| - 1], userId) + (if last.id != userId then [last] else [])
  }

  /** Deleting rows keeps the relative order of the rest, so a well-formed user table stays well formed. */
  lemma {:induction false} UsersNotWithIdKeepsTable(users: seq<User>, nextId: int, userId: int)
    requires UsersOk(users, nextId)
    ensures UsersOk(UsersNotWithId(users, userId), nextId)
    decreases |users|
  {
    if users != [] {
      var front, last := users[..|users| - 1], users[|users| - 1];
      UsersNotWithIdKeepsTable(front, nextId, userId);
      var kept := UsersNotWithId(front, userId);
      assert UsersNotWithId(users, userId) == kept + (if last.id != userId then [last] else []);
      if last.id != userId {
        forall i | 0 <= i < |kept|
          ensures kept[i].id != last.id && kept[i].username != last.username && kept[i].email != last.email
        {
          assert kept[i] in front;
        }
        SnocKeepsUsersOk(kept, last, nextId);
      }
    }
  }

  /** Appending a row whose id, username and email are all fresh keeps a user table well formed. */
  lemma SnocKeepsUsersOk(kept: seq<User>, last: User, nextId: int)
    requires UsersOk(kept, nextId)
    requires 1 <= last.id < nextId
    requires forall i :: 0 <= i < |kept| ==>
      kept[i].id != last.id && kept[i].username != last.username && kept[i].email != last.email
    ensures UsersOk(kept + [last], nextId)
  {
    var r := kept + [last];
    forall i, j | 0 <= i < j < |r| ensures r[i].id != r[j].id {
      if j == |kept| { assert r[i] == kept[i]; }
    }
    forall i, j | 0 <= i < j < |r|
      ensures r[i].username != r[j].username && r[i].email != r[j].email
    {
      if j == |kept| { assert r[i] == kept[i]; }
    }
  }

  lemma {:induction false} SalesNotOfKeepsTable(sales: seq<Sale>, nextId: int, userId: int)
    requires SalesOk(sales, nextId)
    ensures SalesOk(SalesNotOf(sales, userId), nextId)
    decreases |sales|
  {
    if sales != [] {
      var front, last := sales[..|sales| - 1], sales[|sales| - 1];
      SalesNotOfKeepsTable(front, nextId, userId);
      var kept := SalesNotOf(front, userId);
      forall i | 0 <= i < |kept| ensures kept[i].id != last.id {
        assert kept[i] in front;
      }
    }
  }

  // ---------------------------------------------------------------- the store

  class SalesDb {
    var users: seq<User>
    var sales: seq<Sale>
    var rules: seq<Rule>
    var nextUserId: int
    var nextSaleId: int
    var nextRuleId: int

    /** The table constraints: AUTOINCREMENT ids, UNIQUE username and email. */
    ghost predicate Valid()
      reads this
    {
      UsersOk(users, nextUserId) && SalesOk(sales, nextSaleId) && RulesOk(rules, nextRuleId)
    }

    /** CREATE TABLE on a fresh database file: three empty tables, ids counting from 1. */
    constructor ()
      ensures Valid()
      ensures users == [] && sales == [] && rules == []
      ensures nextUserId == 1 && nextSaleId == 1 && nextRuleId == 1
    {
      users, sales, rules := [], [], [];
      nextUserId, nextSaleId, nextRuleId := 1, 1, 1;
    }

    /**
     * init_database: seeds the four users with INSERT OR IGNORE, then appends the
     * eight sample sales and the four rules, which no UNIQUE constraint stops.
     */
    method InitDatabase() returns (ok: bool)
      requires Valid()
      modifies this
      ensures Valid() && ok
      ensures (users, nextUserId) == SeedUsersInto(old(users), old(nextUserId), UserSeeds)
      ensures sales == old(sales) + SeededSales(old(nextSaleId), SaleSeeds)
      ensures nextSaleId == old(nextSaleId) + |SaleSeeds|
      ensures rules == old(rules) + SeededRules(old(nextRuleId), RuleSeeds)
      ensures nextRuleId == old(nextRuleId) + |RuleSeeds|
      ensures forall k :: 0 <= k < |UserSeeds| ==> Collides(users, UserSeeds[k].username, UserSeeds[k].email)
      ensures (forall k :: 0 <= k < |UserSeeds| ==> Collides(old(users), UserSeeds[k].username, UserSeeds[k].email))
                ==> users == old(users) && nextUserId == old(nextUserId)
    {
      SeedUsers();
      SeedSales();
      SeedRules();
      SeedUsersBlockAll(old(users), old(nextUserId), UserSeeds);
      if forall k :: 0 <= k < |UserSeeds| ==> Collides(old(users), UserSeeds[k].username, UserSeeds[k].email) {
        SeedUsersNoop(old(users), old(nextUserId), UserSeeds);
      }
      ok := true;
    }

    /** The first seeding loop of init_database (INSERT OR IGNORE INTO user). */
    method SeedUsers()
      requires Valid()
      modifies this`users, this`nextUserId
      ensures Valid()
      ensures (users, nextUserId) == SeedUsersInto(old(users), old(nextUserId), UserSeeds)
    {
      var i := 0;
      while i < |UserSeeds|
        invariant 0 <= i <= |UserSeeds|
        invariant (users, nextUserId) == SeedUsersInto(old(users), old(nextUserId), UserSeeds[..i])
        invariant UsersOk(users, nextUserId)
      {
        var seed := UserSeeds[i];
        assert UserSeeds[..i + 1][..i] == UserSeeds[..i];
        ghost var step := InsertOrIgnore(users, nextUserId, seed);
        assert step == SeedUsersInto(old(users), old(nextUserId), UserSeeds[..i + 1]);
        InsertOrIgnoreKeepsTable(users, nextUserId, seed);
        if !Collides(users, seed.username, seed.email) {
          users := users + [User(nextUserId, seed.username, seed.email, seed.password, seed.role)];
          nextUserId := nextUserId + 1;
        }
        assert (users, nextUserId) == step;
        i := i + 1;
      }
      assert UserSeeds[..i] == UserSeeds;
    }

    /** The second seeding loop of init_database (the sample sales). */
    method SeedSales()
      requires Valid()
      modifies this`sales, this`nextSaleId
      ensures Valid()
      ensures sales == old(sales) + SeededSales(old(nextSaleId), SaleSeeds)
      ensures nextSaleId == old(nextSaleId) + |SaleSeeds|
    {
      var j := 0;
      while j < |SaleSeeds|
        invariant 0 <= j <= |SaleSeeds|
        invariant sales == old(sales) + SeededSales(old(nextSaleId), SaleSeeds[..j])
        invariant nextSaleId == old(nextSaleId) + j
        invariant SalesOk(sales, nextSaleId)
      {
        var seed := SaleSeeds[j];
        sales := sales + [Sale(nextSaleId, seed.userId, seed.customer, seed.product, seed.amount, seed.commission, seed.saleDate)];
        nextSaleId := nextSaleId + 1;
        assert SeededSales(old(nextSaleId), SaleSeeds[..j + 1])
            == SeededSales(old(nextSaleId), SaleSeeds[..j]) + [sales[|sales| - 1]];
        j := j + 1;
      }
      assert SaleSeeds[..j] == SaleSeeds;
    }

    /** The third seeding loop of init_database (the sample rules). */
    method SeedRules()
      requires Valid()
      modifies this`rules, this`nextRuleId
      ensures Valid()
      ensures rules == old(rules) + SeededRules(old(nextRuleId), RuleSeeds)
      ensures nextRuleId == old(nextRuleId) + |RuleSeeds|
    {
      var k := 0;
      while k < |RuleSeeds|
        invariant 0 <= k <= |RuleSeeds|
        invariant rules == old(rules) + SeededRules(old(nextRuleId), RuleSeeds[..k])
        invariant nextRuleId == old(nextRuleId) + k
        invariant RulesOk(rules, nextRuleId)
      {
        var seed := RuleSeeds[k];
        rules := rules + [Rule(nextRuleId, seed.product, seed.rate, seed.minAmount, seed.maxAmount)];
        nextRuleId := nextRuleId + 1;
        assert SeededRules(old(nextRuleId), RuleSeeds[..k + 1])
            == SeededRules(old(nextRuleId), RuleSeeds[..k]) + [rules[|rules| - 1]];
        k := k + 1;
      }
      assert RuleSeeds[..k] == RuleSeeds;
    }

    /**
     * add_commission_rule: when some rule has this product name, every such rule
     * takes the new rate, minimum and maximum; otherwise one rule is appended.
     */
    method AddCommissionRule(product: string, rate: real, minAmount: real, maxAmount: Option<real>) returns (ok: bool)
      requires Valid()
      modifies this
      ensures Valid() && ok
      ensures users == old(users) && sales == old(sales)
      ensures nextUserId == old(nextUserId) && nextSaleId == old(nextSaleId)
      ensures HasRuleFor(old(rules), product) ==>
        && |rules| == |old(rules)| && nextRuleId == old(nextRuleId)
        && forall i :: 0 <= i < |rules| ==> rules[i] == Retuned(old(rules)[i], product, rate, minAmount, maxAmount)
      ensures !HasRuleFor(old(rules), product) ==>
        && rules == old(rules) + [Rule(old(nextRuleId), product, rate, minAmount, maxAmount)]
        && nextRuleId == old(nextRuleId) + 1
      ensures HasRuleFor(rules, product)
      ensures forall r :: r in rules && r.product == product ==>
        r.rate == rate && r.minAmount == minAmount && r.maxAmount == maxAmount
      ensures forall i :: 0 <= i < |old(rules)| && old(rules)[i].product != product ==>
        i < |rules| && rules[i] == old(rules)[i]
    {
      if HasRuleFor(rules, product) {
        var i := 0;
        while i < |rules|
          invariant 0 <= i <= |rules| == |old(rules)|
          invariant forall k :: 0 <= k < i ==> rules[k] == Retuned(old(rules)[k], product, rate, minAmount, maxAmount)
          invariant forall k :: i <= k < |rules| ==> rules[k] == old(rules)[k]
          invariant forall k :: 0 <= k < |rules| ==> rules[k].id == old(rules)[k].id
          invariant users == old(users) && sales == old(sales)
          invariant nextUserId == old(nextUserId) && nextSaleId == old(nextSaleId) && nextRuleId == old(nextRuleId)
        {
          if rules[i].product == product {
            rules := rules[i := rules[i].(rate := rate, minAmount := minAmount, maxAmount := maxAmount)];
          }
          i := i + 1;
        }
        ghost var i0 :| 0 <= i0 < |old(rules)| && old(rules)[i0].product == product;
        assert rules[i0].product == product;
        forall r | r in rules && r.product == product
          ensures r.rate == rate && r.minAmount == minAmount && r.maxAmount == maxAmount
        {
          var k :| 0 <= k < |rules| && rules[k] == r;
          assert rules[k] == Retuned(old(rules)[k], product, rate, minAmount, maxAmount);
        }
      } else {
        rules := rules + [Rule(nextRuleId, product, rate, minAmount, maxAmount)];
        nextRuleId := nextRuleId + 1;
        assert rules[|rules| - 1].product == product;
      }
      ok := true;
    }

    /** add_user: INSERT INTO user, refused by UNIQUE when the username or the email is taken. */
    method AddUser(username: string, email: string, password: string, role: string) returns (ok: bool)
      requires Valid()
      modifies this
      ensures Valid()
      ensures ok <==> !Collides(old(users), username, email)
      ensures ok ==> users == old(users) + [User(old(nextUserId), username, email, password, role)]
                     && nextUserId == old(nextUserId) + 1
      ensures !ok ==> users == old(users) && nextUserId == old(nextUserId)
      ensures sales == old(sales) && rules == old(rules)
      ensures nextSaleId == old(nextSaleId) && nextRuleId == old(nextRuleId)
    {
      if Collides(users, username, email) {
        ok := false;
      } else {
        users := users + [User(nextUserId, username, email, password, role)];
        nextUserId := nextUserId + 1;
        ok := true;
      }
    }

    /**
     * update_user: UPDATE user SET username, email, role WHERE id = ?. Refused by
     * UNIQUE when another row holds the new username or email; an unknown id
     * matches no row and succeeds without changing anything.
     */
    method UpdateUser(userId: int, username: string, email: string, role: string) returns (ok: bool)
      requires Valid()
      modifies this
      ensures Valid()
      ensures ok <==> !UpdateCollides(old(users), userId, username, email)
      ensures ok ==> |users| == |old(users)| &&
                     (forall i :: 0 <= i < |users| ==> users[i] == Renamed(old(users)[i], userId, username, email, role))
      ensures !ok ==> users == old(users)
      ensures nextUserId == old(nextUserId) && sales == old(sales) && rules == old(rules)
      ensures nextSaleId == old(nextSaleId) && nextRuleId == old(nextRuleId)
    {
      if UpdateCollides(users, userId, username, email) {
        ok := false;
        return;
      }
      var i := 0;
      while i < |users|
        invariant 0 <= i <= |users| == |old(users)|
        invariant forall k :: 0 <= k < i ==> users[k] == Renamed(old(users)[k], userId, username, email, role)
        invariant forall k :: i <= k < |users| ==> users[k] == old(users)[k]
        invariant nextUserId == old(nextUserId) && sales == old(sales) && rules == old(rules)
        invariant nextSaleId == old(nextSaleId) && nextRuleId == old(nextRuleId)
      {
        if users[i].id == userId {
          users := users[i := users[i].(username := username, email := email, role := role)];
        }
        i := i + 1;
      }
      ok := true;
      forall a, b | 0 <= a < b < |users|
        ensures users[a].username != users[b].username && users[a].email != users[b].email
      {
        assert old(users)[a].id != old(users)[b].id;
      }
    }

    /**
     * delete_user: removes every sale of the user, then the user row; the two
     * deletions are committed together.
     */
    method DeleteUser(userId: int) returns (ok: bool)
      requires Valid()
      modifies this
      ensures Valid() && ok
      ensures sales == SalesNotOf(old(sales), userId)
      ensures users == UsersNotWithId(old(users), userId)
      ensures rules == old(rules)
      ensures nextUserId == old(nextUserId) && nextSaleId == old(nextSaleId) && nextRuleId == old(nextRuleId)
      ensures forall s :: s in sales ==> s.userId != userId
      ensures OwnersExist(old(users), old(sales)) ==> OwnersExist(users, sales)
    {
      DeleteSalesOf(userId);
      DeleteUserRow(userId);
      ok := true;
      if OwnersExist(old(users), old(sales)) {
        forall s | s in sales ensures exists u :: u in users && u.id == s.userId {
          assert s in old(sales);
          var u :| u in old(users) && u.id == s.userId;
          assert u in users;
        }
      }
    }

    /** DELETE FROM sale WHERE user_id = ?. */
    method DeleteSalesOf(userId: int)
      requires Valid()
      modifies this`sales
      ensures Valid()
      ensures sales == SalesNotOf(old(sales), userId)
    {
      var kept: seq<Sale> := [];
      var i := 0;
      while i < |sales|
        invariant 0 <= i <= |sales|
        invariant kept == SalesNotOf(sales[..i], userId)
      {
        assert sales[..i + 1][..i] == sales[..i];
        if sales[i].userId != userId {
          kept := kept + [sales[i]];
        }
        i := i + 1;
      }
      assert sales[..i] == sales;
      SalesNotOfKeepsTable(sales, nextSaleId, userId);
      sales := kept;
    }

    /** DELETE FROM user WHERE id = ?. */
    method DeleteUserRow(userId: int)
      requires Valid()
      modifies this`users
      ensures Valid()
      ensures users == UsersNotWithId(old(users), userId)
    {
      var kept: seq<User> := [];
      var j := 0;
      while j < |users|
        invariant 0 <= j <= |users|
        invariant kept == UsersNotWithId(users[..j], userId)
      {
        assert users[..j + 1][..j] == users[..j];
        if users[j].id != userId {
          kept := kept + [users[j]];
        }
        j := j + 1;
      }
      assert users[..j] == users;
      UsersNotWithIdKeepsTable(users, nextUserId, userId);
      users := kept;
    }

    /**
     * add_sale: appends one sale dated `today` with commission amount × rate / 100
     * (the rate is a percentage). No check that the user exists.
     */
    method AddSale(userId: int, customer: string, product: string, amount: real, ratePercent: real, today: int)
      returns (ok: bool)
      requires Valid()
      modifies this
      ensures Valid() && ok
      ensures sales == old(sales) + [Sale(old(nextSaleId), userId, customer, product, amount,
                                          PercentCommission(amount, ratePercent), today)]
      ensures sales[|sales| - 1].commission == amount * ratePercent / 100.0
      ensures nextSaleId == old(nextSaleId) + 1
      ensures users == old(users) && rules == old(rules)
      ensures nextUserId == old(nextUserId) && nextRuleId == old(nextRuleId)
    {
      var commission := PercentCommission(amount, ratePercent);
      sales := sales + [Sale(nextSaleId, userId, customer, product, amount, commission, today)];
      nextSaleId := nextSaleId + 1;
      ok := true;
    }
  }

  /** Seeding one more user is one more INSERT OR IGNORE after the others. */
  lemma SeedUsersSnoc(users: seq<User>, nextId: int, seeds: seq<UserSeed>, x: UserSeed)
    ensures SeedUsersInto(users, nextId, seeds + [x])
         == InsertOrIgnore(SeedUsersInto(users, nextId, seeds).0, SeedUsersInto(users, nextId, seeds).1, x)
  {
    assert (seeds + [x])[..|seeds|] == seeds;
  }

  /** On a fresh database the four seed users are all inserted, with ids 1 to 4 in seed order. */
  lemma FreshSeedUsers()
    ensures SeedUsersInto([], 1, UserSeeds) == ([
      User(1, "admin", "admin@example.com", "admin123", "admin"),
      User(2, "salesrep", "salesrep@example.com", "sales123", "sales_rep"),
      User(3, "demo", "demo@example.com", "demo123", "sales_rep"),
      User(4, "manager", "manager@example.com", "manager123", "admin")], 5)
  {
    var s := UserSeeds;
    assert s == [s[0]] + [s[1]] + [s[2]] + [s[3]];
    assert [s[0]] == [] + [s[0]];
    SeedUsersSnoc([], 1, [], s[0]);
    assert SeedUsersInto([], 1, []) == ([], 1);
    assert !Collides([], s[0].username, s[0].email);
    assert s[0] == UserSeed("admin", "admin@example.com", "admin123", "admin");
    assert InsertOrIgnore([], 1, s[0]).0 == [] + [User(1, "admin", "admin@example.com", "admin123", "admin")];
    assert [] + [User(1, "admin", "admin@example.com", "admin123", "admin")] == [User(1, "admin", "admin@example.com", "admin123", "admin")];
    assert InsertOrIgnore([], 1, s[0]).1 == 2;
    assert InsertOrIgnore([], 1, s[0]) == ([User(1, "admin", "admin@example.com", "admin123", "admin")], 2);
    var r1 := SeedUsersInto([], 1, [s[0]]);
    assert r1 == ([User(1, "admin", "admin@example.com", "admin123", "admin")], 2);
    SeedUsersSnoc([], 1, [s[0]], s[1]);
    var r2 := SeedUsersInto([], 1, [s[0]] + [s[1]]);
    assert !Collides(r1.0, s[1].username, s[1].email);
    assert r2 == (r1.0 + [User(2, "salesrep", "salesrep@example.com", "sales123", "sales_rep")], 3);
    SeedUsersSnoc([], 1, [s[0]] + [s[1]], s[2]);
    var r3 := SeedUsersInto([], 1, [s[0]] + [s[1]] + [s[2]]);
    assert !Collides(r2.0, s[2].username, s[2].email);
    assert r3 == (r2.0 + [User(3, "demo", "demo@example.com", "demo123", "sales_rep")], 4);
    SeedUsersSnoc([], 1, [s[0]] + [s[1]] + [s[2]], s[3]);
    assert !Collides(r3.0, s[3].username, s[3].email);
    var r4 := SeedUsersInto([], 1, [s[0]] + [s[1]] + [s[2]] + [s[3]]);
    assert r4 == (r3.0 + [User(4, "manager", "manager@example.com", "manager123", "admin")], 5);
    assert SeedUsersInto([], 1, UserSeeds) == r4;
    assert r4.0 == [
      User(1, "admin", "admin@example.com", "admin123", "admin"),
      User(2, "salesrep", "salesrep@example.com", "sales123", "sales_rep"),
      User(3, "demo", "demo@example.com", "demo123", "sales_rep"),
      User(4, "manager", "manager@example.com", "manager123", "admin")];
  }

  /** On a fresh database every seeded sale belongs to a seeded user. */
  lemma FreshSeedOwnersExist()
    ensures OwnersExist(SeedUsersInto([], 1, UserSeeds).0, SeededSales(1, SaleSeeds))
  {
    FreshSeedUsers();
    var users := SeedUsersInto([], 1, UserSeeds).0;
    var sales := SeededSales(1, SaleSeeds);
    forall s | s in sales ensures exists u :: u in users && u.id == s.userId {
      var k :| 0 <= k < |sales| && sales[k] == s;
      assert 1 <= s.userId <= 4;
      assert users[s.userId - 1].id == s.userId;
    }
  }

  /** The sample commissions are the percentage formula of add_sale at 8, 10 or 12 percent. */
  lemma SeedCommissionsArePercentages()
    ensures forall k :: 0 <= k < |SaleSeeds| ==>
      exists p :: p in {8.0, 10.0, 12.0} && SaleSeeds[k].commission == PercentCommission(SaleSeeds[k].amount, p)
  {
    assert SaleSeeds[0].commission == PercentCommission(SaleSeeds[0].amount, 10.0);
    assert SaleSeeds[1].commission == PercentCommission(SaleSeeds[1].amount, 8.0);
    assert SaleSeeds[2].commission == PercentCommission(SaleSeeds[2].amount, 12.0);
    assert SaleSeeds[3].commission == PercentCommission(SaleSeeds[3].amount, 8.0);
    assert SaleSeeds[4].commission == PercentCommission(SaleSeeds[4].amount, 10.0);
    assert SaleSeeds[5].commission == PercentCommission(SaleSeeds[5].amount, 12.0);
    assert SaleSeeds[6].commission == PercentCommission(SaleSeeds[6].amount, 8.0);
    assert SaleSeeds[7].commission == PercentCommission(SaleSeeds[7].amount, 12.0);
  }
}
