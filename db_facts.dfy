/** What `update_transactions` does to the transactions table, stated on the
    table seen as a map from primary key to row, and what the queries return. */
module DatabaseFacts {

  import opened Common
  import opened Database

  /** The primary keys present. */
  function Ids(rows: seq<TxRow>): set<Value>
  {
    set i | 0 <= i < |rows| :: rows[i].id
  }

  /** The table by primary key. */
  function Table(rows: seq<TxRow>): (m: map<Value, TxRow>)
    ensures m.Keys == Ids(rows)
  {
    map id | id in Ids(rows) :: rows[FindTx(rows, id).value]
  }

  lemma TableAt(rows: seq<TxRow>, i: nat)
    requires TxKeyed(rows) && i < |rows|
    ensures rows[i].id in Table(rows) && Table(rows)[rows[i].id] == rows[i]
  {
    assert rows[i].id in Ids(rows);
  }

  /** No truthy-id entry has a date `fromisoformat` rejects. */
  predicate Accepted(batch: seq<TxInput>)
  {
    forall k :: 0 <= k < |batch| && Truthy(batch[k].id) ==>
      !batch[k].date.Malformed? && !batch[k].powensDate.Malformed?
  }

  /** The row an accepted entry leaves under its id, given the table `m`
      before it. */
  function Stored(m: map<Value, TxRow>, accountId: int, x: TxInput, now: Instant): (r: TxRow)
    requires !x.date.Malformed? && !x.powensDate.Malformed?
    ensures r.data == x
    ensures r.transactionDate == (if x.date.At? then x.date.t else now)
    ensures x.powensDate.At? ==> r.powensDate == Some(x.powensDate.t)
    ensures x.id in m ==>
      (&& r.id == m[x.id].id && r.accountId == m[x.id].accountId && r.sent == m[x.id].sent
       && r.registerDate == m[x.id].registerDate
       && (x.powensDate.Missing? ==> r.powensDate == m[x.id].powensDate))
    ensures x.id !in m ==>
      (&& r.id == x.id && r.accountId == accountId && !r.sent && r.registerDate == now
       && (x.powensDate.Missing? ==> r.powensDate == None))
  {
    var date := TransactionDate(x, now).value;
    var powens := PowensDate(x).value;
    if x.id in m then UpdatedRow(m[x.id], x, date, powens) else NewRow(x, accountId, now, date, powens)
  }

  /** The batch applied to the table by primary key. */
  function BatchTable(m: map<Value, TxRow>, accountId: int, batch: seq<TxInput>, now: Instant): map<Value, TxRow>
    requires Accepted(batch)
    decreases |batch|
  {
    if batch == [] then m
    else
      var x := batch[0];
      var m' := if Truthy(x.id) then m[x.id := Stored(m, accountId, x, now)] else m;
      BatchTable(m', accountId, batch[1..], now)
  }

  /** The ids of the entries that are not skipped. */
  function BatchIds(batch: seq<TxInput>): set<Value>
  {
    set k | 0 <= k < |batch| && Truthy(batch[k].id) :: batch[k].id
  }

  // ---------------------------------------------------------------------
  // One entry
  // ---------------------------------------------------------------------

  /** An accepted entry updates its row in place or appends one, and the
      table by key changes exactly under its id. */
  lemma UpsertTable(rows: seq<TxRow>, accountId: int, x: TxInput, now: Instant)
    requires TxKeyed(rows) && Truthy(x.id) && !x.date.Malformed? && !x.powensDate.Malformed?
    ensures Upsert(rows, accountId, x, now).Ok?
    ensures var rows' := Upsert(rows, accountId, x, now).value;
            && TxKeyed(rows')
            && Table(rows') == Table(rows)[x.id := Stored(Table(rows), accountId, x, now)]
            && |rows| <= |rows'|
            && (forall i :: 0 <= i < |rows| ==> rows'[i].id == rows[i].id)
            && (forall i :: |rows| <= i < |rows'| ==> rows'[i].id !in Ids(rows))
            && (x.id in Ids(rows) ==> |rows'| == |rows|)
  {
    match FindTx(rows, x.id)
    case Some(p) =>
      TableAt(rows, p);
      UpsertInPlace(rows, p, Stored(Table(rows), accountId, x, now));
    case None =>
      UpsertAppends(rows, Stored(Table(rows), accountId, x, now));
  }

  /** `Table` is the one map keyed by the ids that holds every row under its
      own id. */
  lemma TableIs(rows: seq<TxRow>, m: map<Value, TxRow>)
    requires TxKeyed(rows) && m.Keys == Ids(rows)
    requires forall i :: 0 <= i < |rows| ==> m[rows[i].id] == rows[i]
    ensures Table(rows) == m
  {
    forall id | id in m ensures Table(rows)[id] == m[id] {
      var i :| 0 <= i < |rows| && rows[i].id == id;
      TableAt(rows, i);
    }
  }

  lemma SameIdsInPlace(rows: seq<TxRow>, p: nat, row: TxRow)
    requires p < |rows| && row.id == rows[p].id
    ensures Ids(rows[p := row]) == Ids(rows)
  {
    var rows' := rows[p := row];
    forall id | id in Ids(rows) ensures id in Ids(rows') {
      var i :| 0 <= i < |rows| && rows[i].id == id;
      assert rows'[i].id == id;
    }
  }

  lemma UpsertInPlace(rows: seq<TxRow>, p: nat, row: TxRow)
    requires TxKeyed(rows) && p < |rows| && row.id == rows[p].id
    ensures TxKeyed(rows[p := row])
    ensures Table(rows[p := row]) == Table(rows)[row.id := row]
  {
    var rows' := rows[p := row];
    var m := Table(rows)[row.id := row];
    assert rows[p].id in Ids(rows);
    SameIdsInPlace(rows, p, row);
    forall i | 0 <= i < |rows'| ensures m[rows'[i].id] == rows'[i] {
      if i != p {
        TableAt(rows, i);
      }
    }
    TableIs(rows', m);
  }

  lemma UpsertAppends(rows: seq<TxRow>, row: TxRow)
    requires TxKeyed(rows) && Truthy(row.id) && row.id !in Ids(rows)
    ensures TxKeyed(rows + [row])
    ensures Table(rows + [row]) == Table(rows)[row.id := row]
  {
    var rows' := rows + [row];
    var m := Table(rows)[row.id := row];
    assert Ids(rows') == Ids(rows) + {row.id} by {
      assert rows'[|rows|] == row;
      forall id | id in Ids(rows) ensures id in Ids(rows') {
        var i :| 0 <= i < |rows| && rows[i].id == id;
        assert rows'[i] == rows[i];
      }
    }
    forall i | 0 <= i < |rows'| ensures m[rows'[i].id] == rows'[i] && Truthy(rows'[i].id) {
      if i < |rows| {
        assert rows'[i] == rows[i] && rows[i].id in Ids(rows);
        TableAt(rows, i);
      }
    }
    forall i, j | 0 <= i < j < |rows'| ensures rows'[i].id != rows'[j].id {
      assert rows'[i] == rows[i] && rows[i].id in Ids(rows);
      if j < |rows| {
        assert rows'[j] == rows[j];
      }
    }
    TableIs(rows', m);
  }

  // ---------------------------------------------------------------------
  // The whole batch
  // ---------------------------------------------------------------------

  /** `update_transactions` commits exactly when no entry it reads carries a
      date `fromisoformat` rejects; what it commits is the batch applied to
      the table by primary key, the key staying unique, existing rows staying
      in place and new rows carrying new ids. */
  lemma {:induction false} ApplyBatchTable(rows: seq<TxRow>, accountId: int, batch: seq<TxInput>, now: Instant)
    requires TxKeyed(rows)
    ensures ApplyBatch(rows, accountId, batch, now).Ok? <==> Accepted(batch)
    ensures Accepted(batch) ==>
      var rows' := ApplyBatch(rows, accountId, batch, now).value;
      && TxKeyed(rows')
      && Table(rows') == BatchTable(Table(rows), accountId, batch, now)
      && |rows| <= |rows'|
      && (forall i :: 0 <= i < |rows| ==> rows'[i].id == rows[i].id)
      && (forall i :: |rows| <= i < |rows'| ==> rows'[i].id !in Ids(rows))
      && (BatchIds(batch) <= Ids(rows) ==> |rows'| == |rows|)
    decreases |batch|
  {
    if batch != [] {
      var x := batch[0];
      var rest := batch[1..];
      BatchTail(batch);
      if !Truthy(x.id) {
        ApplyBatchTable(rows, accountId, rest, now);
      } else if x.date.Malformed? || x.powensDate.Malformed? {
        assert Upsert(rows, accountId, x, now).Err?;
      } else {
        UpsertTable(rows, accountId, x, now);
        var mid := Upsert(rows, accountId, x, now).value;
        ApplyBatchTable(mid, accountId, rest, now);
        if Accepted(batch) {
          var rows' := ApplyBatch(mid, accountId, rest, now).value;
          IdsKept(rows, mid);
          forall i | |rows| <= i < |rows'| ensures rows'[i].id !in Ids(rows) {
            if i < |mid| {
              assert rows'[i].id == mid[i].id;
            } else {
              assert rows'[i].id !in Ids(mid);
            }
          }
        }
      }
    }
  }

  /** An entry in front of the rest. */
  lemma BatchTail(batch: seq<TxInput>)
    requires batch != []
    ensures Accepted(batch) <==>
      (Truthy(batch[0].id) ==> !batch[0].date.Malformed? && !batch[0].powensDate.Malformed?) && Accepted(batch[1..])
    ensures BatchIds(batch) == (if Truthy(batch[0].id) then {batch[0].id} else {}) + BatchIds(batch[1..])
  {
    var rest := batch[1..];
    assert forall k :: 0 <= k < |rest| ==> rest[k] == batch[k + 1];
    forall id | id in BatchIds(batch) ensures id in (if Truthy(batch[0].id) then {batch[0].id} else {}) + BatchIds(rest) {
      var k :| 0 <= k < |batch| && Truthy(batch[k].id) && batch[k].id == id;
      if k > 0 {
        assert batch[k] == rest[k - 1];
      }
    }
  }

  /** Rows kept in place keep their ids in the table. */
  lemma IdsKept(rows: seq<TxRow>, rows': seq<TxRow>)
    requires |rows| <= |rows'| && forall i :: 0 <= i < |rows| ==> rows'[i].id == rows[i].id
    ensures Ids(rows) <= Ids(rows')
  {
    forall id | id in Ids(rows) ensures id in Ids(rows') {
      var j :| 0 <= j < |rows| && rows[j].id == id;
      assert rows'[j].id == id;
    }
  }

  /** Entries with a falsy id are skipped: dropping them changes nothing. */
  function WithIds(batch: seq<TxInput>): (r: seq<TxInput>)
    ensures forall k :: 0 <= k < |r| ==> Truthy(r[k].id)
    ensures |r| <= |batch|
    decreases |batch|
  {
    if batch == [] then []
    else if Truthy(batch[0].id) then [batch[0]] + WithIds(batch[1..])
    else WithIds(batch[1..])
  }

  lemma {:induction false} SkipsFalsyIds(rows: seq<TxRow>, accountId: int, batch: seq<TxInput>, now: Instant)
    ensures ApplyBatch(rows, accountId, batch, now) == ApplyBatch(rows, accountId, WithIds(batch), now)
    decreases |batch|
  {
    if batch != [] {
      if Truthy(batch[0].id) {
        match Upsert(rows, accountId, batch[0], now)
        case Err(_) =>
        case Ok(mid) =>
          SkipsFalsyIds(mid, accountId, batch[1..], now);
          assert ([batch[0]] + WithIds(batch[1..]))[1..] == WithIds(batch[1..]);
      } else {
        SkipsFalsyIds(rows, accountId, batch[1..], now);
      }
    }
  }

  /** With distinct ids, each entry's row is `Stored` from the table as it was
      before the batch, and every other row is left alone. */
  lemma {:induction false} BatchTableFate(m: map<Value, TxRow>, accountId: int, batch: seq<TxInput>, now: Instant)
    requires Accepted(batch) && DistinctTruthyIds(batch)
    ensures var r := BatchTable(m, accountId, batch, now);
      && r.Keys == m.Keys + BatchIds(batch)
      && (forall k :: 0 <= k < |batch| && Truthy(batch[k].id) ==>
            r[batch[k].id] == Stored(m, accountId, batch[k], now))
      && (forall id :: id in m && id !in BatchIds(batch) ==> r[id] == m[id])
    decreases |batch|
  {
    if batch != [] {
      var x := batch[0];
      var rest := batch[1..];
      assert forall k :: 0 <= k < |rest| ==> rest[k] == batch[k + 1];
      assert Accepted(rest);
      assert DistinctTruthyIds(rest);
      var m' := if Truthy(x.id) then m[x.id := Stored(m, accountId, x, now)] else m;
      BatchTableFate(m', accountId, rest, now);
      var r := BatchTable(m', accountId, rest, now);
      BatchTail(batch);
      forall k | 0 <= k < |rest| && Truthy(x.id) ensures rest[k].id != x.id {
        assert batch[0].id != batch[k + 1].id;
      }
      forall k | 0 <= k < |batch| && Truthy(batch[k].id) ensures r[batch[k].id] == Stored(m, accountId, batch[k], now) {
        if k > 0 {
          assert batch[k] == rest[k - 1];
          if Truthy(x.id) {
            assert x.id != batch[k].id;
          }
        }
      }
    }
  }

  /** Sending the same batch again, with distinct ids, at a time that only
      matters for entries without a date, leaves the table as it is. */
  lemma BatchTableIdempotent(m: map<Value, TxRow>, accountId: int, batch: seq<TxInput>, now: Instant, later: Instant)
    requires Accepted(batch) && DistinctTruthyIds(batch)
    requires now == later || forall k :: 0 <= k < |batch| ==> batch[k].date.At?
    ensures var once := BatchTable(m, accountId, batch, now);
            BatchTable(once, accountId, batch, later) == once
  {
    var once := BatchTable(m, accountId, batch, now);
    BatchTableFate(m, accountId, batch, now);
    BatchTableFate(once, accountId, batch, later);
    var twice := BatchTable(once, accountId, batch, later);
    forall id | id in twice ensures twice[id] == once[id] {
      if id in BatchIds(batch) {
        var k :| 0 <= k < |batch| && Truthy(batch[k].id) && batch[k].id == id;
        assert twice[id] == Stored(once, accountId, batch[k], later);
      }
    }
  }

  /** The same on the committed rows: a second `update_transactions` with the
      same batch commits the table it finds, row for row. */
  lemma UpdateIdempotent(rows: seq<TxRow>, accountId: int, batch: seq<TxInput>, now: Instant, later: Instant)
    requires TxKeyed(rows) && DistinctTruthyIds(batch)
    requires now == later || forall k :: 0 <= k < |batch| ==> batch[k].date.At?
    requires ApplyBatch(rows, accountId, batch, now).Ok?
    ensures var once := ApplyBatch(rows, accountId, batch, now).value;
            ApplyBatch(once, accountId, batch, later) == Ok(once)
  {
    ApplyBatchTable(rows, accountId, batch, now);
    var once := ApplyBatch(rows, accountId, batch, now).value;
    ApplyBatchTable(once, accountId, batch, later);
    var twice := ApplyBatch(once, accountId, batch, later).value;
    BatchTableIdempotent(Table(rows), accountId, batch, now, later);
    assert Table(twice) == Table(once);
    assert BatchIds(batch) <= Ids(once) by {
      BatchTableFate(Table(rows), accountId, batch, now);
    }
    forall i | 0 <= i < |once| ensures twice[i] == once[i] {
      TableAt(once, i);
      TableAt(twice, i);
    }
    assert twice == once;
  }

  // ---------------------------------------------------------------------
  // Queries
  // ---------------------------------------------------------------------

  /** `get_transactions`: only rows of the table, of the account when one is
      given, latest first, at most `limit` of them. */
  lemma QueryShape(rows: seq<TxRow>, accountId: Option<int>, limit: Option<int>, offset: int)
    ensures var r := QueryTransactions(rows, accountId, limit, offset);
      && DateDescending(r)
      && multiset(r) <= multiset(rows)
      && (accountId.Some? ==> forall i :: 0 <= i < |r| ==> r[i].accountId == accountId.value)
      && (limit.Some? && limit.value >= 0 ==> |r| <= limit.value)
  {
    var selected := if accountId.Some? then OfAccount(rows, accountId.value) else rows;
    var r := QueryTransactions(rows, accountId, limit, offset);
    WindowShape(SortByDateDesc(selected), limit, offset);
    assert multiset(r) <= multiset(selected);
    forall i | 0 <= i < |r| ensures r[i] in selected {
      assert r[i] in multiset(selected);
    }
  }

  /** A window of a descending listing is descending and takes rows of it. */
  lemma WindowShape(s: seq<TxRow>, limit: Option<int>, offset: int)
    requires DateDescending(s)
    ensures DateDescending(Window(s, limit, offset))
    ensures multiset(Window(s, limit, offset)) <= multiset(s)
  {
    var r := Window(s, limit, offset);
    var lo := Skipped(offset, |s|);
    SliceWithin(s, lo, lo + |r|);
    DescendingSlice(s, lo, lo + |r|);
  }

  lemma SliceWithin(s: seq<TxRow>, lo: nat, hi: nat)
    requires lo <= hi <= |s|
    ensures multiset(s[lo..hi]) <= multiset(s)
  {
    assert s == s[..lo] + s[lo..hi] + s[hi..];
  }

  lemma DescendingSlice(s: seq<TxRow>, lo: nat, hi: nat)
    requires lo <= hi <= |s| && DateDescending(s)
    ensures DateDescending(s[lo..hi])
  {
    var t := s[lo..hi];
    forall i, j | 0 <= i < j < |t| ensures t[j].transactionDate <= t[i].transactionDate {
      assert t[i] == s[lo + i] && t[j] == s[lo + j];
    }
  }

  /** Without offset or limit, every row of the account comes back. */
  lemma QueryWhole(rows: seq<TxRow>, accountId: int)
    ensures var r := QueryTransactions(rows, Some(accountId), None, 0);
            forall x :: x in rows && x.accountId == accountId ==> x in r
  {
    var selected := OfAccount(rows, accountId);
    var r := QueryTransactions(rows, Some(accountId), None, 0);
    assert r == SortByDateDesc(selected);
    forall x | x in rows && x.accountId == accountId ensures x in r {
      assert x in multiset(selected);
    }
  }

  /** Pages fit together: `limit n` at offset `o` followed by everything from
      offset `o + n` is everything from offset `o`. */
  lemma QueryPages(rows: seq<TxRow>, accountId: Option<int>, n: nat, offset: nat)
    ensures QueryTransactions(rows, accountId, Some(n), offset) + QueryTransactions(rows, accountId, None, offset + n)
         == QueryTransactions(rows, accountId, None, offset)
  {
    var selected := if accountId.Some? then OfAccount(rows, accountId.value) else rows;
    WindowPages(SortByDateDesc(selected), n, offset);
  }

  lemma WindowPages(s: seq<TxRow>, n: nat, offset: nat)
    ensures Window(s, Some(n), offset) + Window(s, None, offset + n) == Window(s, None, offset)
  {
    var lo := Skipped(offset, |s|);
    var page := Window(s, Some(n), offset);
    assert Skipped(offset + n, |s|) == lo + |page|;
    assert s[lo..] == s[lo..lo + |page|] + s[lo + |page|..];
  }

  /** An authentication saved later than every other of its account is the
      one `get_authentication` returns. */
  lemma {:induction false} SavedIsLatest(auths: seq<AuthRow>, auth: AuthRow)
    requires forall a :: a in auths && a.accountId == auth.accountId ==> a.registerDate < auth.registerDate
    ensures LatestAuthentication(auths + [auth], auth.accountId) == Some(auth)
    decreases |auths|
  {
    var keep := (a: AuthRow) => a.accountId == auth.accountId;
    var date := (a: AuthRow) => a.registerDate;
    var s := auths + [auth];
    if auths == [] {
      assert s == [auth];
    } else {
      assert s[1..] == auths[1..] + [auth];
      SavedIsLatest(auths[1..], auth);
      assert Latest(s[1..], keep, date) == Some(auth);
      assert s[0] == auths[0];
    }
  }
}
