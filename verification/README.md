# Sales incentive calculator: a Dafny model of the sales and commission data layer

The application records sales, computes the commission earned on each sale, keeps
commission rules per product and shows per-user or organisation-wide statistics.
It exists twice: a single-process dashboard over a SQLite file (`complete_app.py`)
and an ORM-backed REST back end (`backend/models.py`). This project models the data
layer of both.

- `records.dfy` (module `Records`): the rows of the dashboard's three tables
  (`user`, `sale`, `commission_rule`), the table constraints (AUTOINCREMENT ids,
  UNIQUE username and email) and the dashboard's commission formula, where the rate
  is a percentage: commission = amount × rate / 100.
- `queries.dfy` (module `Queries`): the readers `authenticate_user`,
  `get_sales_data`, `get_sales_stats`, `get_commission_rules` and `get_all_users`,
  as functions of the tables.
- `store.dfy` (module `Store`): the store as a class `SalesDb` holding the three
  tables and their id counters, with one method per writer: `init_database`,
  `add_commission_rule`, `add_user`, `update_user`, `delete_user` and `add_sale`.
- `forms.dfy` (module `Forms`): the guards the pages check before calling a writer,
  the no-self-deletion rule and the admin-versus-own scope of the dashboard.
- `orm.dfy` (module `Orm`): the ORM records `User`, `Sale` and `CommissionRule`,
  their column defaults and `to_dict` serialisers, and `Sale.calculate_commission`.
  There the rate is a fraction: commission = amount × rate, default rate 0.05.
- `sorting.dfy` (module `Sorting`): the insertion sort behind every ORDER BY, and
  SQLite's BINARY text collation. `wrappers.dfy`: the `Option` type.

Amounts and rates are `real`. Dates and timestamps are abstract integers; the seed
dates are written yyyymmdd, which keeps their order.

Behaviour of the code that a reader might not expect, and which the model keeps:
- No code looks up a commission rule or applies its minimum, maximum or threshold.
  `add_sale` uses the rate typed into the form, and the ORM uses the sale's own
  `commission_rate`. Rules are stored and listed, never consulted.
- The dashboard's rate is a percentage; the ORM's rate is a fraction. Both
  conventions are kept, as `Records.PercentCommission` and `Orm.FractionCommission`.
- `get_sales_data` orders by `sale_date` only, so sales on the same date come in no
  promised order. The model promises sortedness and nothing about ties.
- `get_sales_stats` has no JOIN, so it counts sales whose owner no longer exists;
  `get_sales_data` drops them. SQLite does not enforce the FOREIGN KEY by default,
  so `add_sale` accepts any user id. `Queries.StatsCountMatchesListing` shows that
  the two readers agree when every owner exists.
- `update_user` with an unknown id updates no row and reports success.
- Every call of `init_database` inserts the sample sales and rules again. Only the
  users are protected, by UNIQUE.
- The dashboard's `user.role` defaults to `sales_rep`; the ORM's defaults to `user`.

## Model

| member | source | states |
|---|---|---|
| Sorting.SortBy | complete_app.py:169 | every ORDER BY returns a permutation of its rows sorted by the key |
| Sorting.LexLeqTotal | complete_app.py:225 | SQLite's BINARY collation on text is total, so ORDER BY on a text column is well defined |
| Sorting.LexLeq | complete_app.py:225 | SQLite's BINARY order on text: compare code points from the left; a proper prefix sorts first |
| Records.PercentCommission | complete_app.py:348 | a positive amount at a positive percentage earns a positive commission, and at most 100% never more than the amount |
| Records.Collides | complete_app.py:37-38 | a write of this username and email would break UNIQUE: some row already holds the username or the email |
| Records.UsersOk | complete_app.py:35-42 | the user table's constraints: AUTOINCREMENT ids from 1 below the next id, distinct ids, UNIQUE username and UNIQUE email |
| Records.SalesOk | complete_app.py:46-56 | the sale table's constraints: AUTOINCREMENT ids from 1 below the next id, all distinct |
| Records.RulesOk | complete_app.py:60-67 | the commission_rule table's constraints: AUTOINCREMENT ids from 1 below the next id, all distinct; product_name is not UNIQUE |
| Records.OwnersExist | complete_app.py:55 | the FOREIGN KEY of sale.user_id: every sale's user_id names a user. SQLite does not enforce it, so it is a property of a state, not an invariant of the store |
| Orm.FractionCommission | backend/models.py:44 | a positive amount at a positive fractional rate earns a positive commission, and a rate of at most 1 never more than the amount |
| Queries.Authenticate | complete_app.py:142-150 | a user comes back exactly when some row has that username and a password_hash equal to the given password; None otherwise |
| Queries.AuthenticateByUsername | complete_app.py:142-150 | with UNIQUE usernames the result is that user's row when the password matches, and None when it does not |
| Queries.AuthenticateUnknown | complete_app.py:142-150 | an unknown username never authenticates |
| Queries.Truthy | complete_app.py:163 | Python truthiness of the user_id argument: given and not 0 |
| Queries.InScope | complete_app.py:192 | a sale is in scope when user_id is falsy, or when the sale's user_id equals it |
| Queries.FindUser | complete_app.py:167 | the JOIN finds an owner exactly when some user row has the sale's user_id |
| Queries.LaterOrSame | complete_app.py:169 | ORDER BY s.sale_date DESC: a row may come before another when its sale_date is the same or later; a total preorder by the lemma beside it |
| Queries.Joined | complete_app.py:164-177 | a row is joined exactly when its sale is stored and in scope and its user_id finds an owner, whose username is the salesperson; each such row occurs as often as its sale does |
| Queries.JoinedRows | complete_app.py:164-177 | a row is joined exactly when its sale is stored, in scope, and paired with its owner's username as salesperson |
| Queries.SalesData | complete_app.py:163-180 | get_sales_data returns the joined in-scope rows, each as often as the JOIN yields it, ordered by sale_date newest first |
| Queries.SalesDataRows | complete_app.py:163-180 | the rows listed are exactly the in-scope sales whose owner exists (one user when user_id is truthy, else all) |
| Queries.ScopedSales | complete_app.py:192-209 | the statistics see exactly the sales of the user when user_id is truthy, and all sales otherwise, with no JOIN |
| Queries.SumAmount | complete_app.py:196 | COALESCE(SUM(amount), 0) over the given rows: never negative when no amount is negative |
| Queries.SumCommission | complete_app.py:197 | COALESCE(SUM(commission_amount), 0) over the given rows: never negative when no commission is negative |
| Queries.Average | complete_app.py:198 | AVG(amount) times the count is the total; 0 when there are no sales |
| Queries.SalesStats | complete_app.py:192-212 | total_sales is the count and total_amount, total_commission are the sums over the scope; all four are 0 on an empty scope |
| Queries.StatsAfterAppend | complete_app.py:192-209 | one more sale raises the count by 1 and the sums by its amount and commission in every scope that sees it, and changes no other scope |
| Queries.StatsOfEmptyScope | complete_app.py:196-198 | a scope with no sale reports 0, 0, 0, 0 |
| Queries.StatsCountMatchesListing | complete_app.py:163-212 | when every sale's owner exists, the listing and the statistics agree on the number of sales |
| Queries.CommissionRules | complete_app.py:224-229 | every rule is returned, each as often as stored, sorted by product_name |
| Queries.ProductOrder | complete_app.py:225 | ORDER BY product_name: BINARY order on the product names, a total preorder on rules |
| Queries.AllUsers | complete_app.py:275-280 | every user is returned, sorted by username |
| Queries.UsernameOrder | complete_app.py:276 | ORDER BY username: BINARY order on the usernames, a total preorder on users |
| Queries.AllUsersStrictlyIncreasing | complete_app.py:276 | with UNIQUE usernames each username in the listing sorts strictly before the next, so its order is fully determined |
| Store.InsertOrIgnore | complete_app.py:79-82 | when the seed's username or email is taken nothing changes; otherwise the row with the next id and the seed's columns is appended and the counter moves on by one |
| Store.SeedUsersInto | complete_app.py:78-82 | the seeding loop only appends users and never lowers the id counter |
| Store.SeedUsersKeepTable | complete_app.py:35-42 | seeding keeps ids, usernames and emails unique |
| Store.SeedUsersBlockAll | complete_app.py:78-82 | after seeding every sample user's username or email is present |
| Store.SeedUsersNoop | complete_app.py:78-82 | when every sample user is already blocked, re-seeding leaves the user table and its counter unchanged |
| Store.SeededSales | complete_app.py:85-101 | the eight sample sales become rows with consecutive ids and the listed columns |
| Store.SeededRules | complete_app.py:104-115 | the four sample rules become rows with consecutive ids and the listed columns |
| Store.SalesNotOf | complete_app.py:333 | the sales left are exactly those whose user_id differs from the deleted id |
| Store.UsersNotWithId | complete_app.py:335 | the users left are exactly those whose id differs from the deleted id |
| Store.Retuned | complete_app.py:248-252 | the UPDATE of add_commission_rule on one row: a row of that product gets the new rate, min and max and keeps its id and name; any other row is unchanged |
| Store.Renamed | complete_app.py:312-315 | the UPDATE of update_user on one row: the row with that id gets the new username, email and role and keeps its id and password; any other row is unchanged |
| Store.UpdateCollides | complete_app.py:312-323 | the UPDATE raises on UNIQUE, and update_user returns False, exactly when the row exists and another row holds the new username or email |
| Store.HasRuleFor | complete_app.py:242-246 | the `existing` lookup of add_commission_rule: some rule already has this product_name |
| Store.SalesDb.constructor | complete_app.py:34-68 | a fresh database has three empty tables and ids counting from 1 |
| Store.SalesDb.Valid | complete_app.py:34-68 | the three tables satisfy their CREATE TABLE constraints; every writer keeps this |
| Store.SalesDb.InitDatabase | complete_app.py:24-123 | users are seeded with INSERT OR IGNORE; the 8 sales and 4 rules are appended again on every call; a re-run leaves the user table unchanged |
| Store.SalesDb.SeedUsers | complete_app.py:78-82 | the user-seeding loop, keeping the table constraints |
| Store.SalesDb.SeedSales | complete_app.py:97-101 | the sale-seeding loop appends the sample sales |
| Store.SalesDb.SeedRules | complete_app.py:111-115 | the rule-seeding loop appends the sample rules |
| Store.SalesDb.AddCommissionRule | complete_app.py:234-266 | when a rule for the product exists, every such rule gets the new rate, min and max, and no row is added; otherwise one rule is appended; other products' rules are unchanged |
| Store.SalesDb.AddUser | complete_app.py:285-303 | succeeds exactly when neither the username nor the email is taken; then appends one user, otherwise leaves the table unchanged; uniqueness is kept |
| Store.SalesDb.UpdateUser | complete_app.py:305-323 | fails and changes nothing exactly when the row exists and another row holds the new username or email; otherwise renames that row only |
| Store.SalesDb.DeleteUser | complete_app.py:325-343 | removes all of the user's sales and then the user row; afterwards no sale references the id; other users and their sales remain, and existing owners stay existing |
| Store.SalesDb.DeleteSalesOf | complete_app.py:333 | the first deletion of delete_user |
| Store.SalesDb.DeleteUserRow | complete_app.py:335 | the second deletion of delete_user |
| Store.SalesDb.AddSale | complete_app.py:345-365 | appends exactly one sale with the given user, customer, product and amount, dated today, with commission amount × rate / 100; existing rows unchanged |
| Store.FreshSeedUsers | complete_app.py:71-82 | on a fresh database the four sample users get ids 1 to 4 in order |
| Store.FreshSeedOwnersExist | complete_app.py:85-101 | on a fresh database every sample sale belongs to a sample user |
| Store.SeedCommissionsArePercentages | complete_app.py:85-94 | every sample commission is the percentage formula at 8, 10 or 12 percent |
| Forms.StoredMaxAmount | complete_app.py:556 | a maximum of 0 is stored as None; a positive one is stored as given |
| Forms.SaleFormAccepts | complete_app.py:512 | the sale form goes through only with a customer, a product and an amount above 0 |
| Forms.RuleFormAccepts | complete_app.py:555 | the rule form goes through only with a product name and a rate above 0 |
| Forms.UserFormAccepts | complete_app.py:601 | the user form goes through only with a username, an email and a password |
| Forms.MayDelete | complete_app.py:635 | the delete button acts only on an id other than the logged-in user's |
| Forms.IsAdmin | complete_app.py:421 | the dashboard treats a session as admin exactly when its role is 'admin' |
| Forms.ScopeFor | complete_app.py:426-433 | an admin reads with no user filter; any other user reads with their own id |
| Forms.DashboardListingScope | complete_app.py:426-433 | for a logged-in user (ids start at 1), an admin's listing holds every sale whose owner exists; a sales rep's holds only their own |
| Forms.DashboardStatsScope | complete_app.py:426-433 | for a logged-in user, an admin's statistics cover all sales; a sales rep's cover exactly their own |
| Forms.StatsAfterDelete | complete_app.py:333 | after a user's sales are deleted, that user's statistics are all 0 |
| Forms.SubmitSale | complete_app.py:511-517 | add_sale runs exactly when customer and product are non-empty and the amount is above 0, and then appends the logged-in user's sale with the next sale id; the other tables and counters are unchanged |
| Forms.SubmitRule | complete_app.py:554-561 | add_commission_rule runs exactly when the product is non-empty and the rate above 0, with a maximum of 0 stored as None; then every rule of the product is updated in place with no row added, or else one rule is appended with the next id |
| Forms.SubmitUser | complete_app.py:600-606 | add_user runs when username, email and password are all filled in, and succeeds exactly when neither username nor email is taken; then one user with the next id is appended; sales, rules and their counters are unchanged |
| Forms.DeleteFromUserPage | complete_app.py:633-640 | the logged-in user's own id never reaches delete_user; otherwise the user and their sales are removed; the rules and every id counter are unchanged |
| Orm.PercentIsFractionOverHundred | backend/models.py:44 | the dashboard's percentage formula is the ORM's fraction formula at rate / 100 |
| Orm.ConventionsDiffer | backend/models.py:44 | reading one rate under the other convention is off by a factor of 100 |
| Orm.NewUser | backend/models.py:5-11 | a new User's role defaults to 'user', unlike the dashboard's 'sales_rep', and has no password hash |
| Orm.UserToDict | backend/models.py:22-29 | exposes exactly id, username, email, role and created_at, and never password_hash |
| Orm.UserDictHidesPassword | backend/models.py:22-29 | the dictionary does not depend on the password hash |
| Orm.NewCommissionRule | backend/models.py:61-68 | a new rule has threshold 0, is active and has no description |
| Orm.RuleToDict | backend/models.py:70-79 | exposes exactly the seven columns of the rule, each with its stored value |
| Orm.SaleDateDefaultAsWritten | backend/models.py:37 | a sale saved without a date is dated the day the module was imported |
| Orm.StaleSaleDateDefault | backend/models.py:37 | a sale saved the day after the import gets the import day |
| Orm.SaleDateOrDefault | backend/models.py:37 | a sale saved without a date is dated the day it is saved |
| Orm.Sale.constructor | backend/models.py:31-40 | a saved Sale without a rate has commission_rate 0.05 and no commission_amount yet |
| Orm.Sale.CalculateCommission | backend/models.py:42-45 | sets commission_amount to amount × commission_rate and returns that value; no other field changes |
| Orm.Sale.ToDict | backend/models.py:47-59 | reports amount, commission_rate and commission_amount unchanged, with salesperson the owner's username |
| Orm.CalculateCommissionTwice | backend/models.py:42-45 | calling calculate_commission twice leaves the same commission_amount |
| Orm.DefaultRateCommission | backend/models.py:38-44 | a sale saved without a rate earns amount × 0.05 |
| Orm.CalculatedSaleDict | backend/models.py:42-59 | after calculate_commission, to_dict reports commission_amount as amount × commission_rate |
| Orm.CommissionVectors | complete_app.py:86-93 | 15800 at 12% gives 1896 and 7600 at 8% gives 608 under either convention; 5000 at the 0.05 default gives 250 |

## Findings

| source | as written | input that shows it | evidently intended | confidence | as-written member | corrected member |
|---|---|---|---|---|---|---|
| backend/models.py:37 | the sale_date default is a date computed once, when the module is imported, not a callable run on each insert | module imported on 2024-01-01, sale saved without a date on 2024-01-02: it is dated 2024-01-01 | the date of the insert, as with the callable created_at default on line 40 | high, not executed | Orm.StaleSaleDateDefault | Orm.SaleDateOrDefault |

## Left out

- SQLite plumbing: the connection, `os.makedirs`, commits and `st.error`. A writer that raises is caught and returns False; the model has no such failure. The only failures it has are the UNIQUE violations of `add_user` and `update_user`. The `{}` and `[]` returned by readers on error are not modelled.
- Store.SalesDb.InitDatabase: always returns true; the `except` path that returns False after a database error is not modelled.
- The Streamlit pages: rendering, charts, `head(10)`, navigation, reruns, session state and the login page. Only the guards at complete_app.py:512, 555-556, 601 and 635 and the role scope at 426-433 are kept.
- The widget ranges of the number inputs (amount at least 0.01, rate 0.1 to 50 percent). They are widget settings, not checks in the code.
- Floating point: amounts and rates are exact reals. DECIMAL columns get NUMERIC affinity in SQLite, so a value such as 5200.00 is stored as INTEGER and others as REAL; no rounding is claimed.
- `created_at` columns of the SQLite tables (CURRENT_TIMESTAMP). `date.today()` is a parameter of `add_sale`.
- AUTOINCREMENT may skip ids after a failed insert. In the model the counter moves only on a successful insert; ids are only compared for equality.
- Password hashing: `User.set_password` and `check_password` (Werkzeug). The dashboard stores and compares the plain password, and the model does the same.
- backend/auth.py, backend/db.py, backend/factory.py and config/config.py are not part of this model: JWT, Flask wiring, SQLAlchemy setup and configuration.
- Orm.Sale.constructor: models a saved Sale. SQLAlchemy applies column defaults only at insert; a transient Sale still has rate None, and there `calculate_commission` would raise.
- Orm.Sale.constructor: an omitted sale_date takes the corrected default, the day the sale is saved (`Orm.SaleDateOrDefault`). The code's default is the day the module was imported (`Orm.SaleDateDefaultAsWritten`, see Findings), so the class and its `sale_date` in `Orm.Sale.ToDict` follow the intended behaviour, not the written one.
- Orm.Sale.ToDict: the `salesperson` relationship is passed in as the owner's record.
- The ORM's `id` autoincrement, `nullable` checks and string lengths (VARCHAR sizes are not enforced by SQLite either).
