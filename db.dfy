/** `DatabaseManager` (bank2mqtt/db.py): the accounts, authentication and
    transactions tables as in-memory tables, the upserts that change them and
    the queries that read them. A session's uncommitted work is a local copy
    that becomes the table on `commit()`; an exception inside `with_session`
    rolls back, which leaves the tables as they were. */
module Database {

  import opened Common

  /** A `DateTime` column value, as a point on a totally ordered time line. */
  type Instant = int

  /** How a date key of a transaction dict reads through
      `datetime.fromisoformat`: absent (or, for `powens_date`, falsy),
      malformed (including `None` or `""` under `date`), or a valid instant. */
  datatype DateField = Missing | Malformed | At(t: Instant)

  /** A transaction dict handed to `update_transactions`: its `id` value, its
      `date` and `powens_date` keys, and the rest of its fields. */
  datatype TxInput = TxInput(id: Value, date: DateField, powensDate: DateField, fields: string)

  /** `Account`, keyed by its autoincremented id. */
  datatype AccountRow = AccountRow(domain: string, clientId: string, clientSecret: string)

  /** `Authentication` */
  datatype AuthRow = AuthRow(id: nat, accountId: int, token: string, registerDate: Instant)

  /** `Transaction`; `data` is the whole input dict. */
  datatype TxRow = TxRow(id: Value, accountId: int, registerDate: Instant, transactionDate: Instant,
                         powensDate: Option<Instant>, sent: bool, data: TxInput)

  /** The `ValueError` (or `TypeError`) of `datetime.fromisoformat`. */
  datatype DbError = InvalidIsoDate

  // ---------------------------------------------------------------------
  // Transaction upsert (bank2mqtt/db.py:355-419)
  // ---------------------------------------------------------------------

  /** `datetime.fromisoformat(d.get("date", now.isoformat()))` */
  function TransactionDate(x: TxInput, now: Instant): (r: Result<Instant, DbError>)
    ensures r.Err? <==> x.date.Malformed?
    ensures x.date.At? ==> r == Ok(x.date.t)
    ensures x.date.Missing? ==> r == Ok(now)
  {
    match x.date
    case Missing => Ok(now)
    case Malformed => Err(InvalidIsoDate)
    case At(t) => Ok(t)
  }

  /** The `powens_date` to store: `None` when the key is absent or falsy. */
  function PowensDate(x: TxInput): (r: Result<Option<Instant>, DbError>)
    ensures r.Err? <==> x.powensDate.Malformed?
    ensures x.powensDate.At? ==> r == Ok(Some(x.powensDate.t))
    ensures x.powensDate.Missing? ==> r == Ok(None)
  {
    match x.powensDate
    case Missing => Ok(None)
    case Malformed => Err(InvalidIsoDate)
    case At(t) => Ok(Some(t))
  }

  /** `session.query(Transaction).filter_by(id=...).first()`: the position of
      the row with that id, if any. */
  function FindTx(rows: seq<TxRow>, id: Value): (r: Option<nat>)
    ensures r.Some? ==> r.value < |rows| && rows[r.value].id == id
    ensures r.None? ==> forall i :: 0 <= i < |rows| ==> rows[i].id != id
    ensures r.Some? ==> forall i :: 0 <= i < r.value ==> rows[i].id != id
  {
    if rows == [] then None
    else if rows[0].id == id then Some(0)
    else match FindTx(rows[1..], id)
      case None => None
      case Some(i) => Some(i + 1)
  }

  /** The row of a new transaction: registered `now`, not sent. */
  function NewRow(x: TxInput, accountId: int, now: Instant, date: Instant, powens: Option<Instant>): TxRow
  {
    TxRow(x.id, accountId, now, date, powens, false, x)
  }

  /** An existing row after an update: new date and data, and a new
      `powens_date` only when one is supplied. */
  function UpdatedRow(row: TxRow, x: TxInput, date: Instant, powens: Option<Instant>): TxRow
  {
    row.(transactionDate := date, powensDate := if powens.Some? then powens else row.powensDate, data := x)
  }

  /** One iteration of the loop of `update_transactions`. */
  function Upsert(rows: seq<TxRow>, accountId: int, x: TxInput, now: Instant): Result<seq<TxRow>, DbError>
  {
    if !Truthy(x.id) then Ok(rows)
    else match (TransactionDate(x, now), PowensDate(x))
      case (Err(e), _) => Err(e)
      case (_, Err(e)) => Err(e)
      case (Ok(date), Ok(powens)) =>
        match FindTx(rows, x.id)
        case Some(i) => Ok(rows[i := UpdatedRow(rows[i], x, date, powens)])
        case None => Ok(rows + [NewRow(x, accountId, now, date, powens)])
  }

  /** The whole loop: the table to commit, or the exception that rolls back. */
  function ApplyBatch(rows: seq<TxRow>, accountId: int, batch: seq<TxInput>, now: Instant): Result<seq<TxRow>, DbError>
    decreases |batch|
  {
    if batch == [] then Ok(rows)
    else match Upsert(rows, accountId, batch[0], now)
      case Err(e) => Err(e)
      case Ok(rows') => ApplyBatch(rows', accountId, batch[1..], now)
  }

  /** The ids that `update_transactions` does not skip are pairwise distinct:
      two entries with one id in one batch are not modelled. */
  predicate DistinctTruthyIds(batch: seq<TxInput>)
  {
    forall i, j :: 0 <= i < j < |batch| && Truthy(batch[i].id) ==> batch[i].id != batch[j].id
  }

  /** The primary key: every stored id is truthy and appears once. */
  predicate TxKeyed(rows: seq<TxRow>)
  {
    && (forall i :: 0 <= i < |rows| ==> Truthy(rows[i].id))
    && (forall i, j :: 0 <= i < j < |rows| ==> rows[i].id != rows[j].id)
  }

  // ---------------------------------------------------------------------
  // Queries (bank2mqtt/db.py:265-285, 321-352, 479-500)
  // ---------------------------------------------------------------------

  /** `order_by(date.desc()).first()` over the rows that `keep` selects: the
      first of the latest. */
  function Latest<T>(s: seq<T>, keep: T -> bool, date: T -> Instant): (r: Option<T>)
    ensures r.None? <==> forall i :: 0 <= i < |s| ==> !keep(s[i])
    ensures r.Some? ==> r.value in s && keep(r.value)
    ensures r.Some? ==> forall i :: 0 <= i < |s| && keep(s[i]) ==> date(s[i]) <= date(r.value)
    decreases |s|
  {
    if s == [] then None
    else
      var rest := Latest(s[1..], keep, date);
      assert forall i :: 1 <= i < |s| ==> s[i] == s[1..][i - 1];
      if keep(s[0]) && (rest.None? || date(rest.value) <= date(s[0])) then Some(s[0]) else rest
  }

  /** `get_authentication(account_id)`: the account's most recently
      registered authentication. */
  function LatestAuthentication(auths: seq<AuthRow>, accountId: int): (r: Option<AuthRow>)
    ensures r.None? <==> forall i :: 0 <= i < |auths| ==> auths[i].accountId != accountId
    ensures r.Some? ==> r.value in auths && r.value.accountId == accountId
    ensures r.Some? ==> forall a :: a in auths && a.accountId == accountId ==> a.registerDate <= r.value.registerDate
  {
    Latest(auths, (a: AuthRow) => a.accountId == accountId, (a: AuthRow) => a.registerDate)
  }

  /** `latest_sent_transaction(account_id)`: the account's latest sent
      transaction. */
  function LatestSentTransaction(rows: seq<TxRow>, accountId: int): (r: Option<TxRow>)
    ensures r.None? <==> forall i :: 0 <= i < |rows| ==> rows[i].accountId != accountId || !rows[i].sent
    ensures r.Some? ==> r.value in rows && r.value.accountId == accountId && r.value.sent
    ensures r.Some? ==> forall t :: t in rows && t.accountId == accountId && t.sent ==>
                          t.transactionDate <= r.value.transactionDate
  {
    Latest(rows, (t: TxRow) => t.accountId == accountId && t.sent, (t: TxRow) => t.transactionDate)
  }

  /** The rows of one account, in table order. */
  function OfAccount(rows: seq<TxRow>, accountId: int): (r: seq<TxRow>)
    ensures |r| <= |rows|
    ensures forall i :: 0 <= i < |r| ==> r[i].accountId == accountId
    ensures multiset(r) <= multiset(rows)
    ensures forall x :: x in rows && x.accountId == accountId ==> x in r
    decreases |rows|
  {
    if rows == [] then []
    else
      assert rows == [rows[0]] + rows[1..];
      (if rows[0].accountId == accountId then [rows[0]] else []) + OfAccount(rows[1..], accountId)
  }

  /** Latest `transaction_date` first. */
  predicate DateDescending(s: seq<TxRow>)
  {
    forall i, j :: 0 <= i < j < |s| ==> s[j].transactionDate <= s[i].transactionDate
  }

  /** Inserts `x` after every row that is not older, keeping ties in order. */
  function InsertByDate(x: TxRow, s: seq<TxRow>): (r: seq<TxRow>)
    requires DateDescending(s)
    ensures DateDescending(r)
    ensures |r| == |s| + 1
    ensures multiset(r) == multiset(s) + multiset{x}
    decreases |s|
  {
    if s == [] then [x]
    else if s[0].transactionDate < x.transactionDate then
      NewerHead(x, s);
      [x] + s
    else
      var r' := InsertByDate(x, s[1..]);
      assert s == [s[0]] + s[1..];
      InsertBelowHead(s[0], x, s[1..], r');
      [s[0]] + r'
  }

  lemma NewerHead(x: TxRow, s: seq<TxRow>)
    requires DateDescending(s) && s != [] && s[0].transactionDate < x.transactionDate
    ensures DateDescending([x] + s)
  {
    var r := [x] + s;
    forall i, j | 0 <= i < j < |r| ensures r[j].transactionDate <= r[i].transactionDate {
      assert r[j] == s[j - 1];
      if i > 0 {
        assert r[i] == s[i - 1];
      } else {
        assert s[0].transactionDate >= s[j - 1].transactionDate;
      }
    }
  }

  lemma InsertBelowHead(h: TxRow, x: TxRow, t: seq<TxRow>, r': seq<TxRow>)
    requires DateDescending([h] + t) && x.transactionDate <= h.transactionDate
    requires DateDescending(r') && multiset(r') == multiset(t) + multiset{x}
    ensures DateDescending([h] + r')
  {
    forall j | 0 <= j < |r'| ensures r'[j].transactionDate <= h.transactionDate {
      assert r'[j] in multiset(r');
      if r'[j] != x {
        assert r'[j] in multiset(t);
        assert r'[j] in t;
        var k :| 0 <= k < |t| && t[k] == r'[j];
        assert ([h] + t)[k + 1] == t[k] && ([h] + t)[0] == h;
      }
    }
    var s := [h] + r';
    forall i, j | 0 <= i < j < |s| ensures s[j].transactionDate <= s[i].transactionDate {
      if i > 0 {
        assert s[i] == r'[i - 1] && s[j] == r'[j - 1];
      } else {
        assert s[j] == r'[j - 1];
      }
    }
  }

  /** `order_by(Transaction.transaction_date.desc())`, rows of equal date
      staying in table order. */
  function SortByDateDesc(s: seq<TxRow>): (r: seq<TxRow>)
    ensures DateDescending(r)
    ensures |r| == |s|
    ensures multiset(r) == multiset(s)
    decreases |s|
  {
    if s == [] then []
    else
      assert s == s[..|s| - 1] + [s[|s| - 1]];
      InsertByDate(s[|s| - 1], SortByDateDesc(s[..|s| - 1]))
  }

  /** How many rows `OFFSET offset` passes over in `n`: none unless the
      offset is positive. */
  function Skipped(offset: int, n: nat): (k: nat)
    ensures k <= n
    ensures offset <= 0 ==> k == 0
    ensures 0 < offset <= n ==> k == offset
  {
    if offset <= 0 then 0 else if offset < n then offset else n
  }

  /** `OFFSET` then `LIMIT` (a negative `LIMIT` means none, as in SQLite):
      a slice starting after the skipped rows. */
  function Window(s: seq<TxRow>, limit: Option<int>, offset: int): (r: seq<TxRow>)
    ensures Skipped(offset, |s|) + |r| <= |s|
    ensures r == s[Skipped(offset, |s|)..Skipped(offset, |s|) + |r|]
    ensures limit.Some? && limit.value >= 0 ==> |r| <= limit.value
    ensures limit.Some? && limit.value >= 0 ==>
      |r| == (if limit.value < |s| - Skipped(offset, |s|) then limit.value else |s| - Skipped(offset, |s|))
    ensures (limit.None? || limit.value < 0) ==> |r| == |s| - Skipped(offset, |s|)
  {
    var lo := Skipped(offset, |s|);
    if limit.Some? && 0 <= limit.value < |s| - lo then s[lo..lo + limit.value] else s[lo..]
  }

  /** `get_transactions(account_id, limit, offset)`: filtered by account when
      one is given, latest first, then the window. */
  function QueryTransactions(rows: seq<TxRow>, accountId: Option<int>, limit: Option<int>, offset: int)
    : seq<TxRow>
  {
    var selected := if accountId.Some? then OfAccount(rows, accountId.value) else rows;
    Window(SortByDateDesc(selected), limit, offset)
  }

  // ---------------------------------------------------------------------
  // The manager
  // ---------------------------------------------------------------------

  /** `delete_account`'s cascade: the rows not of the account, in order. */
  function WithoutAccount<T>(s: seq<T>, owner: T -> int, accountId: int): (r: seq<T>)
    ensures forall i :: 0 <= i < |r| ==> owner(r[i]) != accountId
    ensures forall x :: x in s && owner(x) != accountId ==> x in r
    ensures forall x :: x in r ==> x in s
    decreases |s|
  {
    if s == [] then []
    else
      var rest := WithoutAccount(s[1..], owner, accountId);
      assert forall x :: x in s ==> x == s[0] || x in s[1..];
      if owner(s[0]) == accountId then rest else [s[0]] + rest
  }

  /** No two rows of `s` share a `key`. */
  predicate KeyUnique<T, K(==)>(s: seq<T>, key: T -> K)
  {
    forall i, j :: 0 <= i < j < |s| ==> key(s[i]) != key(s[j])
  }

  /** The cascade keeps a unique key unique. */
  lemma {:induction false} WithoutAccountKeepsKey<T, K>(s: seq<T>, owner: T -> int, accountId: int, key: T -> K)
    requires KeyUnique(s, key)
    ensures KeyUnique(WithoutAccount(s, owner, accountId), key)
    decreases |s|
  {
    if s != [] {
      var t := s[1..];
      forall i, j | 0 <= i < j < |t| ensures key(t[i]) != key(t[j]) {
        assert t[i] == s[i + 1] && t[j] == s[j + 1];
      }
      WithoutAccountKeepsKey(t, owner, accountId, key);
      var rest := WithoutAccount(t, owner, accountId);
      if owner(s[0]) != accountId {
        var r := [s[0]] + rest;
        assert WithoutAccount(s, owner, accountId) == r;
        forall i, j | 0 <= i < j < |r| ensures key(r[i]) != key(r[j]) {
          assert r[j] == rest[j - 1];
          if i > 0 {
            assert r[i] == rest[i - 1];
          } else {
            assert rest[j - 1] in rest;
            var k :| 0 <= k < |t| && t[k] == rest[j - 1];
            assert s[k + 1] == t[k] && s[0] == r[0];
          }
        }
      }
    }
  }

  /** The unique constraint on `(domain, client_id)` (db.py:82-84). */
  predicate AccountsUnique(accounts: map<int, AccountRow>)
  {
    forall k, k' :: k in accounts && k' in accounts && k != k' ==>
      (accounts[k].domain, accounts[k].clientId) != (accounts[k'].domain, accounts[k'].clientId)
  }

  /** The constraints the three tables are declared with: unique account
      `(domain, client_id)`, unique authentication id and token, unique
      transaction id. */
  predicate Constrained(accounts: map<int, AccountRow>, auths: seq<AuthRow>, rows: seq<TxRow>)
  {
    && AccountsUnique(accounts)
    && (forall i, j :: 0 <= i < j < |auths| ==> auths[i].token != auths[j].token && auths[i].id != auths[j].id)
    && TxKeyed(rows)
  }

  /** A non-empty set of keys has a member to pick. */
  lemma HasKey(s: set<int>)
    requires s != {}
    ensures exists k :: k in s
  {
    if forall k :: k !in s {
      assert false;
    }
  }

  /** The id SQLite gives the next account: above every stored one. */
  method NextAccountId(keys: set<int>) returns (n: int)
    ensures 1 <= n && forall k :: k in keys ==> k < n
  {
    n := 1;
    var left := keys;
    while left != {}
      invariant left <= keys
      invariant 1 <= n
      invariant forall k :: k in keys && k !in left ==> k < n
      decreases left
    {
      HasKey(left);
      var k :| k in left;
      if n <= k {
        n := k + 1;
      }
      left := left - {k};
    }
  }

  /** The id SQLite gives the next authentication: above every stored one. */
  function NextAuthId(auths: seq<AuthRow>): (n: nat)
    ensures forall i :: 0 <= i < |auths| ==> auths[i].id < n
  {
    if auths == [] then 1
    else
      var m := NextAuthId(auths[..|auths| - 1]);
      if auths[|auths| - 1].id < m then m else auths[|auths| - 1].id + 1
  }

  /** What `get_or_create_account` does to the accounts table: the account
      `id` for `(domain, client_id)` now has `secret`; it is the stored one
      with those credentials, or a new key when there was none. */
  predicate AccountUpserted(before: map<int, AccountRow>, after: map<int, AccountRow>, id: int,
                            domain: string, clientId: string, secret: string)
  {
    && after == before[id := AccountRow(domain, clientId, secret)]
    && (id in before ==> before[id].domain == domain && before[id].clientId == clientId)
    && (id !in before ==> forall k :: k in before ==> before[k].domain != domain || before[k].clientId != clientId)
  }

  class DatabaseManager {
    var accounts: map<int, AccountRow>
    var nextAccountId: int
    var authentications: seq<AuthRow>
    var nextAuthId: nat
    var transactions: seq<TxRow>

    /** The tables' keys and unique constraints, and the next ids the
        autoincrementing keys hand out. */
    predicate Valid()
      reads this
    {
      && 1 <= nextAccountId
      && (forall k :: k in accounts ==> k < nextAccountId)
      && (forall i :: 0 <= i < |authentications| ==> authentications[i].id < nextAuthId)
      && Constrained(accounts, authentications, transactions)
    }

    /** `__init__`: `create_all` keeps the rows a database already holds, so
        the manager opens on the stored tables (empty for a new file). */
    constructor (storedAccounts: map<int, AccountRow>, storedAuthentications: seq<AuthRow>, storedTransactions: seq<TxRow>)
      requires Constrained(storedAccounts, storedAuthentications, storedTransactions)
      ensures Valid()
      ensures accounts == storedAccounts && authentications == storedAuthentications
      ensures transactions == storedTransactions
    {
      var next := NextAccountId(storedAccounts.Keys);
      accounts := storedAccounts;
      nextAccountId := next;
      authentications := storedAuthentications;
      nextAuthId := NextAuthId(storedAuthentications);
      transactions := storedTransactions;
    }

    /** `get_or_create_account`: the id of the account for `(domain,
        client_id)`, created if missing, its secret updated if different. */
    method GetOrCreateAccount(domain: string, clientId: string, clientSecret: string) returns (id: int)
      requires Valid()
      modifies this
      ensures Valid()
      ensures id in accounts && accounts[id] == AccountRow(domain, clientId, clientSecret)
      ensures (exists k :: k in old(accounts) && old(accounts)[k].domain == domain && old(accounts)[k].clientId == clientId)
        ==> id in old(accounts) && accounts == old(accounts)[id := AccountRow(domain, clientId, clientSecret)]
            && nextAccountId == old(nextAccountId)
      ensures (forall k :: k in old(accounts) ==> old(accounts)[k].domain != domain || old(accounts)[k].clientId != clientId)
        ==> id !in old(accounts) && accounts == old(accounts)[id := AccountRow(domain, clientId, clientSecret)]
      ensures AccountUpserted(old(accounts), accounts, id, domain, clientId, clientSecret)
      ensures authentications == old(authentications) && transactions == old(transactions)
    {
      if k :| k in accounts && accounts[k].domain == domain && accounts[k].clientId == clientId {
        if accounts[k].clientSecret != clientSecret {
          accounts := accounts[k := accounts[k].(clientSecret := clientSecret)];
        }
        id := k;
      } else {
        id := nextAccountId;
        accounts := accounts[id := AccountRow(domain, clientId, clientSecret)];
        nextAccountId := nextAccountId + 1;
      }
    }

    /** `save_authentication`: gets or creates the account (committed on its
        own), then returns the row already holding `token`, or inserts a new
        one registered `now`. */
    method SaveAuthentication(domain: string, clientId: string, clientSecret: string, token: string, now: Instant)
      returns (auth: AuthRow)
      requires Valid()
      modifies this
      ensures Valid()
      ensures auth in authentications && auth.token == token
      ensures (exists i :: 0 <= i < |old(authentications)| && old(authentications)[i].token == token)
        ==> authentications == old(authentications)
      ensures (forall i :: 0 <= i < |old(authentications)| ==> old(authentications)[i].token != token)
        ==> && authentications == old(authentications) + [auth]
            && auth.accountId in accounts
            && accounts[auth.accountId] == AccountRow(domain, clientId, clientSecret)
            && auth.registerDate == now
            && AccountUpserted(old(accounts), accounts, auth.accountId, domain, clientId, clientSecret)
      ensures exists id :: AccountUpserted(old(accounts), accounts, id, domain, clientId, clientSecret)
      ensures transactions == old(transactions)
    {
      var accountId := GetOrCreateAccount(domain, clientId, clientSecret);
      if i :| 0 <= i < |authentications| && authentications[i].token == token {
        return authentications[i];
      }
      auth := AuthRow(nextAuthId, accountId, token, now);
      authentications := authentications + [auth];
      nextAuthId := nextAuthId + 1;
    }

    /** `update_transactions(account_id, transactions)` at time `now`. */
    method UpdateTransactions(accountId: int, batch: seq<TxInput>, now: Instant) returns (o: Outcome<DbError>)
      requires Valid() && DistinctTruthyIds(batch)
      modifies this
      ensures Valid()
      ensures match ApplyBatch(old(transactions), accountId, batch, now)
        case Ok(rows) => o == Pass && transactions == rows
        case Err(e) => o == Fail(e) && transactions == old(transactions)
      ensures accounts == old(accounts) && authentications == old(authentications)
    {
      var rows := transactions;
      var k := 0;
      while k < |batch|
        invariant 0 <= k <= |batch|
        invariant TxKeyed(rows)
        invariant ApplyBatch(transactions, accountId, batch, now) == ApplyBatch(rows, accountId, batch[k..], now)
      {
        var x := batch[k];
        assert batch[k..][1..] == batch[k + 1..];
        k := k + 1;
        if !Truthy(x.id) {
          continue;
        }
        var found := FindTx(rows, x.id);
        var date := TransactionDate(x, now);
        if date.Err? {
          return Fail(date.error);
        }
        var powens := PowensDate(x);
        if powens.Err? {
          return Fail(powens.error);
        }
        if found.Some? {
          var i := found.value;
          rows := rows[i := UpdatedRow(rows[i], x, date.value, powens.value)];
        } else {
          rows := rows + [NewRow(x, accountId, now, date.value, powens.value)];
        }
      }
      transactions := rows;
      return Pass;
    }

    /** `delete_account(account_id)`: whether the account existed; if so it
        is removed with its authentications and transactions. */
    method DeleteAccount(accountId: int) returns (deleted: bool)
      requires Valid()
      modifies this
      ensures Valid()
      ensures deleted <==> accountId in old(accounts)
      ensures deleted ==> && accounts == old(accounts) - {accountId}
                          && authentications == WithoutAccount(old(authentications), (a: AuthRow) => a.accountId, accountId)
                          && transactions == WithoutAccount(old(transactions), (t: TxRow) => t.accountId, accountId)
      ensures !deleted ==> accounts == old(accounts) && authentications == old(authentications)
                           && transactions == old(transactions)
    {
      if accountId !in accounts {
        return false;
      }
      WithoutAccountKeepsKey(authentications, (a: AuthRow) => a.accountId, accountId, (a: AuthRow) => a.token);
      WithoutAccountKeepsKey(authentications, (a: AuthRow) => a.accountId, accountId, (a: AuthRow) => a.id);
      WithoutAccountKeepsKey(transactions, (t: TxRow) => t.accountId, accountId, (t: TxRow) => t.id);
      accounts := accounts - {accountId};
      authentications := WithoutAccount(authentications, (a: AuthRow) => a.accountId, accountId);
      transactions := WithoutAccount(transactions, (t: TxRow) => t.accountId, accountId);
      return true;
    }
  }
}
