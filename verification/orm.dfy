/**
 * The ORM records of the REST back end (backend/models.py). Here the
 * commission rate is a fraction (0.05 means 5%), unlike the percentage of
 * the dashboard's store. Timestamps are abstract ints; isoformat() is the
 * identity on them.
 */
module Orm {
  import opened Wrappers
  import Records

  /** A JSON value of a to_dict() result. */
  datatype Value = IntV(i: int) | StrV(s: string) | RealV(r: real) | BoolV(b: bool) | DateV(d: int) | NullV

  type Dict = map<string, Value>

  /** Column default of Sale.commission_rate. */
  const DefaultSaleRate: real := 0.05
  /** Column default of User.role. */
  const DefaultUserRole: string := "user"

  /** calculate_commission's formula: the rate is a fraction. */
  function FractionCommission(amount: real, rate: real): (c: real)
    ensures amount > 0.0 && rate > 0.0 ==> c > 0.0
    ensures 0.0 <= rate <= 1.0 && amount >= 0.0 ==> 0.0 <= c <= amount
  {
    amount * rate
  }

  /** The two conventions agree once the percentage is divided by 100. */
  lemma PercentIsFractionOverHundred(amount: real, ratePercent: real)
    ensures Records.PercentCommission(amount, ratePercent) == FractionCommission(amount, ratePercent / 100.0)
  {
  }

  /** The same number read under the wrong convention is off by a factor of 100. */
  lemma ConventionsDiffer(amount: real, rate: real)
    requires amount != 0.0 && rate != 0.0
    ensures FractionCommission(amount, rate) == 100.0 * Records.PercentCommission(amount, rate)
    ensures FractionCommission(amount, rate) != Records.PercentCommission(amount, rate)
  {
  }

  function OptReal(x: Option<real>): Value {
    if x.Some? then RealV(x.value) else NullV
  }

  function OptStr(x: Option<string>): Value {
    if x.Some? then StrV(x.value) else NullV
  }

  // ---------------------------------------------------------------- User

  datatype User = User(id: int, username: string, email: string, passwordHash: Option<string>, role: string, createdAt: int)

  /** A new User with the column defaults: role 'user', no password hash yet. */
  function NewUser(id: int, username: string, email: string, createdAt: int): (u: User)
    ensures u.role == DefaultUserRole && u.role != Records.DefaultRole
    ensures u.passwordHash.None?
    ensures u.id == id && u.username == username && u.email == email && u.createdAt == createdAt
  {
    User(id, username, email, None, DefaultUserRole, createdAt)
  }

  /** User.to_dict: id, username, email, role and created_at, never the password hash. */
  function UserToDict(u: User): (d: Dict)
    ensures d.Keys == {"id", "username", "email", "role", "created_at"}
    ensures "password_hash" !in d
    ensures d["id"] == IntV(u.id) && d["username"] == StrV(u.username) && d["email"] == StrV(u.email)
    ensures d["role"] == StrV(u.role) && d["created_at"] == DateV(u.createdAt)
  {
    map["id" := IntV(u.id), "username" := StrV(u.username), "email" := StrV(u.email),
        "role" := StrV(u.role), "created_at" := DateV(u.createdAt)]
  }

  /** Nothing about the password can be read from the dictionary. */
  lemma UserDictHidesPassword(u: User, other: Option<string>)
    ensures UserToDict(u) == UserToDict(u.(passwordHash := other))
  {
  }

  // ---------------------------------------------------------------- CommissionRule

  datatype CommissionRule = CommissionRule(
    id: int, name: string, rate: real, threshold: real,
    description: Option<string>, isActive: bool, createdAt: int)

  /** A new CommissionRule with the column defaults: threshold 0, active, no description. */
  function NewCommissionRule(id: int, name: string, rate: real, createdAt: int): (r: CommissionRule)
    ensures r.threshold == 0.0 && r.isActive && r.description.None?
    ensures r.id == id && r.name == name && r.rate == rate && r.createdAt == createdAt
  {
    CommissionRule(id, name, rate, 0.0, None, true, createdAt)
  }

  /** CommissionRule.to_dict: every column, the values unchanged. */
  function RuleToDict(r: CommissionRule): (d: Dict)
    ensures d.Keys == {"id", "name", "rate", "threshold", "description", "is_active", "created_at"}
    ensures d["rate"] == RealV(r.rate) && d["threshold"] == RealV(r.threshold)
    ensures d["is_active"] == BoolV(r.isActive) && d["name"] == StrV(r.name)
    ensures d["description"] == OptStr(r.description)
    ensures d["id"] == IntV(r.id) && d["created_at"] == DateV(r.createdAt)
  {
    map["id" := IntV(r.id), "name" := StrV(r.name), "rate" := RealV(r.rate),
        "threshold" := RealV(r.threshold), "description" := OptStr(r.description),
        "is_active" := BoolV(r.isActive), "created_at" := DateV(r.createdAt)]
  }

  // ---------------------------------------------------------------- Sale

  /**
   * The default of Sale.sale_date AS WRITTEN: `datetime.utcnow().date()` is
   * evaluated once, when the module is imported, so every sale saved without
   * a date gets the import date, not the day it is saved.
   */
  function SaleDateDefaultAsWritten(saleDate: Option<int>, importedOn: int, today: int): (d: int)
    ensures saleDate.None? ==> d == importedOn
    ensures saleDate.Some? ==> d == saleDate.value
  {
    if saleDate.Some? then saleDate.value else importedOn
  }

  /** A sale saved the day after the import is dated the import day. */
  lemma StaleSaleDateDefault()
    ensures SaleDateDefaultAsWritten(None, 20240101, 20240102) != 20240102
  {
  }

  /** The evidently intended default: the day the sale is saved. */
  function SaleDateOrDefault(saleDate: Option<int>, today: int): (d: int)
    ensures saleDate.None? ==> d == today
    ensures saleDate.Some? ==> d == saleDate.value
  {
    if saleDate.Some? then saleDate.value else today
  }

  class Sale {
    var id: int
    var userId: int
    var customerName: string
    var productName: string
    var amount: real
    var saleDate: int
    var commissionRate: real
    var commissionAmount: Option<real>
    var createdAt: int

    /** A saved Sale: an omitted rate takes the 0.05 default; commission_amount starts NULL. */
    constructor (id: int, userId: int, customerName: string, productName: string, amount: real,
                 saleDate: Option<int>, commissionRate: Option<real>, today: int, createdAt: int)
      ensures this.id == id && this.userId == userId && this.amount == amount
      ensures this.customerName == customerName && this.productName == productName
      ensures this.saleDate == SaleDateOrDefault(saleDate, today)
      ensures this.commissionRate == if commissionRate.Some? then commissionRate.value else DefaultSaleRate
      ensures this.commissionAmount.None? && this.createdAt == createdAt
    {
      this.id := id;
      this.userId := userId;
      this.customerName := customerName;
      this.productName := productName;
      this.amount := amount;
      this.saleDate := SaleDateOrDefault(saleDate, today);
      this.commissionRate := if commissionRate.Some? then commissionRate.value else DefaultSaleRate;
      this.commissionAmount := None;
      this.createdAt := createdAt;
    }

    /** calculate_commission: stores amount × rate in commission_amount and returns it; nothing else changes. */
    method CalculateCommission() returns (c: real)
      modifies this`commissionAmount
      ensures c == FractionCommission(amount, commissionRate)
      ensures commissionAmount == Some(c)
    {
      commissionAmount := Some(amount * commissionRate);
      c := commissionAmount.value;
    }

    /** Sale.to_dict: the stored figures unchanged, with salesperson set to the owner's username. */
    function ToDict(owner: User): (d: Dict)
      reads this
      requires owner.id == userId
      ensures d.Keys == {"id", "user_id", "salesperson", "customer_name", "product_name", "amount",
                         "sale_date", "commission_rate", "commission_amount", "created_at"}
      ensures d["salesperson"] == StrV(owner.username)
      ensures d["amount"] == RealV(amount) && d["commission_rate"] == RealV(commissionRate)
      ensures d["commission_amount"] == OptReal(commissionAmount)
      ensures d["user_id"] == IntV(userId) && d["sale_date"] == DateV(saleDate)
      ensures d["id"] == IntV(id) && d["created_at"] == DateV(createdAt)
      ensures d["customer_name"] == StrV(customerName) && d["product_name"] == StrV(productName)
    {
      map["id" := IntV(id), "user_id" := IntV(userId), "salesperson" := StrV(owner.username),
          "customer_name" := StrV(customerName), "product_name" := StrV(productName),
          "amount" := RealV(amount), "sale_date" := DateV(saleDate),
          "commission_rate" := RealV(commissionRate), "commission_amount" := OptReal(commissionAmount),
          "created_at" := DateV(createdAt)]
    }
  }

  /** Calling calculate_commission a second time leaves the same commission_amount. */
  method CalculateCommissionTwice(s: Sale) returns (first: real, second: real)
    modifies s`commissionAmount
    ensures first == second && s.commissionAmount == Some(first)
  {
    first := s.CalculateCommission();
    second := s.CalculateCommission();
  }

  /** A sale saved without a rate earns 5% of its amount. */
  method DefaultRateCommission(id: int, userId: int, customer: string, product: string, amount: real,
                               today: int, createdAt: int) returns (c: real)
    ensures c == amount * 0.05
  {
    var s := new Sale(id, userId, customer, product, amount, None, None, today, createdAt);
    c := s.CalculateCommission();
  }

  /** After calculate_commission, to_dict reports commission_amount as amount × commission_rate. */
  method CalculatedSaleDict(s: Sale, owner: User) returns (d: Dict)
    requires owner.id == s.userId
    modifies s`commissionAmount
    ensures d == s.ToDict(owner)
    ensures d["commission_amount"] == RealV(s.amount * s.commissionRate)
  {
    var c := s.CalculateCommission();
    d := s.ToDict(owner);
  }

  /** The seeded figures 15800 at 12% and 7600 at 8% come out the same under both conventions. */
  lemma CommissionVectors()
    ensures FractionCommission(15800.0, 0.12) == 1896.0
    ensures Records.PercentCommission(15800.0, 12.0) == 1896.0
    ensures Records.PercentCommission(7600.0, 8.0) == 608.0
    ensures FractionCommission(7600.0, 0.08) == 608.0
    ensures FractionCommission(5000.0, DefaultSaleRate) == 250.0
  {
  }
}
