/** What `PowensClient.stream_new_transactions` computes, as functions of the
    cache contents it starts from and the pages the API answers with
    (bank2mqtt/client.py:307-497). The imperative method in module Client is
    proved equal to `Stream`; the lemmas below state what the source promises
    about it. */
module Streaming {

  import opened Common
  import opened Text
  import opened IsoDate
  import opened Requests

  /** The cache keys of the checkpoint (bank2mqtt/client.py:20-21). */
  const IdKey := "last_transaction_id"
  const DateKey := "last_transaction_date"

  /** A transaction as the API returns it. A missing `id` or `date` key is
      `None`; `rest` stands for the other fields, carried along unchanged. */
  datatype Tx = Tx(id: Option<int>, date: Option<string>, rest: string)

  /** One page of `GET /users/me/transactions`: its `transactions` and the
      `href` of its `_links.next` (`None` when there is no truthy next link;
      a next link without `href` reads as `Some("")`). */
  datatype Page = Page(transactions: seq<Tx>, next: Option<string>)

  /** The answer to one request: a page, or a failure (HTTP error status,
      connection error) that `requests` raises. */
  datatype Response = Received(page: Page) | Failed

  /** What can make the stream raise. `HttpError(k)` is the failure of the
      k-th request (counting from 0); a request beyond the given responses
      fails too. */
  datatype StreamError =
    | NotAuthenticated
    | HttpError(request: nat)
    | IdTypeError
    | DateOverflow

  type Params = map<string, Value>

  /** `get_last_transaction_id()`: the stored id, `None` when absent. */
  function StoredId(cache: map<string, Value>): (v: Value)
    ensures IdKey !in cache ==> v == Null
    ensures IdKey in cache ==> v == cache[IdKey]
  {
    Lookup(cache, IdKey, Null)
  }

  /** `get_last_transaction_date()`: the stored date, `None` when absent. */
  function StoredDate(cache: map<string, Value>): (v: Value)
    ensures DateKey !in cache ==> v == Null
    ensures DateKey in cache ==> v == cache[DateKey]
  {
    Lookup(cache, DateKey, Null)
  }

  /** What the id slot can hold: the client only writes ints there. */
  predicate IdSlot(v: Value)
  {
    v.Null? || v.Int?
  }

  /** What the date slot can hold: the client only writes strings there. */
  predicate DateSlot(v: Value)
  {
    v.Null? || v.Str?
  }

  /** The checkpoint keys hold what the client writes into them. */
  predicate CheckpointSlots(cache: map<string, Value>)
  {
    IdSlot(StoredId(cache)) && DateSlot(StoredDate(cache))
  }

  // ---------------------------------------------------------------------
  // Initial request parameters (bank2mqtt/client.py:338-354)
  // ---------------------------------------------------------------------

  /** `{"limit": limit, **kwargs}`, plus `min_date` one day before the stored
      date when a date but no id is stored. A non-string date (an
      `AttributeError`) or an unparseable one (a `ValueError`) is logged and
      leaves the parameters unchanged; the first representable day raises
      `OverflowError`, which is not caught. */
  function InitialParams(limit: int, kwargs: Params, lastId: Value, lastDate: Value): (r: Result<Params, StreamError>)
    ensures r.Err? <==> Truthy(lastDate) && !Truthy(lastId) && lastDate.Str? && Widen(lastDate.s).Overflow?
    ensures Truthy(lastDate) && !Truthy(lastId) && lastDate.Str? && Widen(lastDate.s).MinDateParam? ==>
      r == Ok(BaseParams(limit, kwargs)["min_date" := Str(Widen(lastDate.s).minDate)])
    ensures r.Ok? && !(Truthy(lastDate) && !Truthy(lastId) && lastDate.Str? && Widen(lastDate.s).MinDateParam?) ==>
      r.value == BaseParams(limit, kwargs)
  {
    var params := BaseParams(limit, kwargs);
    if Truthy(lastDate) && !Truthy(lastId) && lastDate.Str? then
      match Widen(lastDate.s)
      case Unchanged => Ok(params)
      case Overflow => Err(DateOverflow)
      case MinDateParam(d) => Ok(params["min_date" := Str(d)])
    else Ok(params)
  }

  // ---------------------------------------------------------------------
  // Filtering one page (bank2mqtt/client.py:400-416)
  // ---------------------------------------------------------------------

  /** `last_transaction_id and transaction_id <= last_transaction_id`: whether
      an earlier run already delivered the transaction. Comparing a missing
      id (or a non-int stored id) raises `TypeError`. */
  function AlreadyDelivered(id: Option<int>, lastId: Value): (r: Result<bool, StreamError>)
    ensures !Truthy(lastId) ==> r == Ok(false)
    ensures Truthy(lastId) && lastId.Int? && id.Some? ==> r == Ok(id.value <= lastId.i)
    ensures r.Err? <==> Truthy(lastId) && (id.None? || !lastId.Int?)
  {
    if !Truthy(lastId) then Ok(false)
    else match (id, lastId)
      case (Some(i), Int(n)) => Ok(i <= n)
      case _ => Err(IdTypeError)
  }

  /** The loop's state: `processed_ids` and `new_transactions`. */
  datatype ScanState = ScanState(seen: set<Option<int>>, kept: seq<Tx>)

  /** One iteration of the inner loop. */
  function Step(st: ScanState, tx: Tx, lastId: Value): Result<ScanState, StreamError>
  {
    if tx.id in st.seen then Ok(st)
    else match AlreadyDelivered(tx.id, lastId)
      case Err(e) => Err(e)
      case Ok(true) => Ok(st)
      case Ok(false) => Ok(ScanState(st.seen + {tx.id}, st.kept + [tx]))
  }

  /** The inner loop over a batch of transactions: it only adds to
      `processed_ids` and `new_transactions`, one entry per transaction at
      most, each of them a transaction of the batch. */
  function ScanBatch(st: ScanState, txs: seq<Tx>, lastId: Value): (r: Result<ScanState, StreamError>)
    ensures r.Ok? ==> st.seen <= r.value.seen && st.kept <= r.value.kept
    ensures r.Ok? ==> |r.value.kept| <= |st.kept| + |txs|
    ensures r.Ok? ==> forall k :: |st.kept| <= k < |r.value.kept| ==> r.value.kept[k] in txs
    decreases |txs|
  {
    if txs == [] then Ok(st)
    else match Step(st, txs[0], lastId)
      case Err(e) => Err(e)
      case Ok(st') => ScanBatch(st', txs[1..], lastId)
  }

  // ---------------------------------------------------------------------
  // Pagination (bank2mqtt/client.py:366-440)
  // ---------------------------------------------------------------------

  /** The parameters of the request after a non-empty page, or `None` when
      pagination stops: no next link, or a next href without `cursor=`. The
      following request only changes the `cursor` parameter, to the value
      the link carries, which holds no `&`. */
  function NextParams(next: Option<string>, params: Params): (r: Option<Params>)
    ensures r.Some? <==> next.Some? && Contains(next.value, CursorMarker)
    ensures r.Some? ==>
      && r.value.Keys == params.Keys + {"cursor"}
      && (forall k :: k in params && k != "cursor" ==> r.value[k] == params[k])
      && r.value["cursor"].Str? && !Contains(r.value["cursor"].s, "&")
      && r.value["cursor"] == Str(NextCursor(next.value).value)
  {
    match next
    case None => None
    case Some(href) =>
      match NextCursor(href)
      case None => None
      case Some(c) => Some(params["cursor" := Str(c)])
  }

  /** The result of the fetching loop: its state and the parameters of every
      request made, in order. */
  datatype Walked = Walked(state: ScanState, requests: seq<Params>)

  /** The `while True` loop from the `i`-th request on, `made` being the
      parameters already sent. */
  function Walk(pages: seq<Response>, i: nat, st: ScanState, params: Params, lastId: Value, made: seq<Params>)
    : Result<Walked, StreamError>
    decreases |pages| - i
  {
    if i >= |pages| || pages[i].Failed? then Err(HttpError(|made|))
    else
      var page := pages[i].page;
      var made' := made + [params];
      if page.transactions == [] then Ok(Walked(st, made'))
      else match ScanBatch(st, page.transactions, lastId)
        case Err(e) => Err(e)
        case Ok(st') =>
          match NextParams(page.next, params)
          case None => Ok(Walked(st', made'))
          case Some(params') => Walk(pages, i + 1, st', params', lastId, made')
  }

  // ---------------------------------------------------------------------
  // Ordering (bank2mqtt/client.py:448-454)
  // ---------------------------------------------------------------------

  /** `tx.get("date", "")` and `tx.get("id", 0)` */
  function SortDate(tx: Tx): string
  {
    if tx.date.Some? then tx.date.value else ""
  }

  function SortId(tx: Tx): int
  {
    if tx.id.Some? then tx.id.value else 0
  }

  /** The tuple order `(date, id) < (date', id')`. */
  predicate KeyLess(a: Tx, b: Tx)
  {
    StrLess(SortDate(a), SortDate(b)) || (SortDate(a) == SortDate(b) && SortId(a) < SortId(b))
  }

  lemma KeyLessTransitive(a: Tx, b: Tx, c: Tx)
    requires KeyLess(a, b) && KeyLess(b, c)
    ensures KeyLess(a, c)
  {
    if StrLess(SortDate(a), SortDate(b)) && StrLess(SortDate(b), SortDate(c)) {
      StrLessTransitive(SortDate(a), SortDate(b), SortDate(c));
    }
  }

  lemma KeyLessAsymmetric(a: Tx, b: Tx)
    requires KeyLess(a, b)
    ensures !KeyLess(b, a)
  {
    if StrLess(SortDate(a), SortDate(b)) {
      StrLessAsymmetric(SortDate(a), SortDate(b));
    } else {
      StrLessIrreflexive(SortDate(a));
    }
  }

  /** Ascending `(date, id)` order. */
  predicate SortedByKey(s: seq<Tx>)
  {
    forall i, j :: 0 <= i < j < |s| ==> !KeyLess(s[j], s[i])
  }

  /** Inserts `x` after every element whose key is not greater, which keeps
      equal keys in their original order. */
  function Insert(x: Tx, s: seq<Tx>): (r: seq<Tx>)
    requires SortedByKey(s)
    ensures SortedByKey(r)
    ensures |r| == |s| + 1
    ensures multiset(r) == multiset(s) + multiset{x}
    decreases |s|
  {
    if s == [] then [x]
    else if KeyLess(x, s[0]) then
      KeyLessAfter(x, s);
      [x] + s
    else
      var r' := Insert(x, s[1..]);
      assert s == [s[0]] + s[1..];
      InsertHead(s[0], x, s[1..], r');
      [s[0]] + r'
  }

  lemma KeyLessAfter(x: Tx, s: seq<Tx>)
    requires SortedByKey(s) && s != [] && KeyLess(x, s[0])
    ensures SortedByKey([x] + s)
  {
    forall j | 0 <= j < |s| ensures !KeyLess(s[j], x) {
      if j > 0 && KeyLess(s[j], x) {
        KeyLessTransitive(s[j], x, s[0]);
      }
      KeyLessAsymmetric(x, s[0]);
    }
  }

  lemma InsertHead(h: Tx, x: Tx, t: seq<Tx>, r': seq<Tx>)
    requires SortedByKey([h] + t) && !KeyLess(x, h)
    requires SortedByKey(r') && multiset(r') == multiset(t) + multiset{x}
    ensures SortedByKey([h] + r')
  {
    forall j | 0 <= j < |r'| ensures !KeyLess(r'[j], h) {
      assert r'[j] in multiset(r');
      if r'[j] != x {
        assert r'[j] in multiset(t);
        assert r'[j] in t;
        var k :| 0 <= k < |t| && t[k] == r'[j];
        assert ([h] + t)[k + 1] == t[k] && ([h] + t)[0] == h;
      }
    }
    var s := [h] + r';
    forall i, j | 0 <= i < j < |s| ensures !KeyLess(s[j], s[i]) {
      if i > 0 {
        assert s[i] == r'[i - 1] && s[j] == r'[j - 1];
      } else {
        assert s[j] == r'[j - 1];
      }
    }
  }

  /** `new_transactions.sort(key=sort_key)`: Python's sort is stable; so is
      this insertion sort. */
  function SortByKey(s: seq<Tx>): (r: seq<Tx>)
    ensures SortedByKey(r)
    ensures |r| == |s|
    ensures multiset(r) == multiset(s)
    decreases |s|
  {
    if s == [] then []
    else
      assert s == s[..|s| - 1] + [s[|s| - 1]];
      Insert(s[|s| - 1], SortByKey(s[..|s| - 1]))
  }

  // ---------------------------------------------------------------------
  // Checkpoint maxima and cache writes (bank2mqtt/client.py:458-490)
  // ---------------------------------------------------------------------

  /** `current_max_id` after one transaction. */
  function AdvanceId(cur: Value, tx: Tx): (r: Value)
    requires IdSlot(cur)
    ensures IdSlot(r)
  {
    match tx.id
    case Some(i) => if i != 0 && (!Truthy(cur) || i > cur.i) then Int(i) else cur
    case None => cur
  }

  /** `current_max_date` after one transaction. */
  function AdvanceDate(cur: Value, tx: Tx): (r: Value)
    requires DateSlot(cur)
    ensures DateSlot(r)
  {
    match tx.date
    case Some(d) => if d != "" && (!Truthy(cur) || StrLess(cur.s, d)) then Str(d) else cur
    case None => cur
  }

  /** The cache writes made before yielding each of `txs`, starting from the
      running maxima `curId` and `curDate`. */
  function Checkpoint(cache: map<string, Value>, curId: Value, curDate: Value, txs: seq<Tx>): map<string, Value>
    requires IdSlot(curId) && DateSlot(curDate)
    decreases |txs|
  {
    if txs == [] then cache
    else
      var id' := AdvanceId(curId, txs[0]);
      var date' := AdvanceDate(curDate, txs[0]);
      var cache' := cache[IdKey := id'];
      var cache'' := if Truthy(date') then cache'[DateKey := date'] else cache';
      Checkpoint(cache'', id', date', txs[1..])
  }

  /** The running maxima after `txs`. */
  function MaxId(cur: Value, txs: seq<Tx>): (r: Value)
    requires IdSlot(cur)
    ensures IdSlot(r)
    decreases |txs|
  {
    if txs == [] then cur else MaxId(AdvanceId(cur, txs[0]), txs[1..])
  }

  function MaxDate(cur: Value, txs: seq<Tx>): (r: Value)
    requires DateSlot(cur)
    ensures DateSlot(r)
    decreases |txs|
  {
    if txs == [] then cur else MaxDate(AdvanceDate(cur, txs[0]), txs[1..])
  }

  // ---------------------------------------------------------------------
  // The whole run
  // ---------------------------------------------------------------------

  /** What a consumer that calls `next()` `pulls` times observes: the
      transactions yielded, the parameters of every request sent and the cache
      contents afterwards. */
  datatype Run = Run(yielded: seq<Tx>, requests: seq<Params>, cache: map<string, Value>)

  /** `stream_new_transactions(limit, **kwargs)` consumed by `pulls` calls to
      `next()`. A generator does nothing before its first `next()`; any error
      is raised by that first call, before any cache write. */
  function Stream(cache: map<string, Value>, authToken: Value, pages: seq<Response>,
                  limit: int, kwargs: Params, pulls: nat): Result<Run, StreamError>
    requires CheckpointSlots(cache)
  {
    if pulls == 0 then Ok(Run([], [], cache))
    else if EnsureAuthenticated(authToken).Fail? then Err(StreamError.NotAuthenticated)
    else
      var lastId := StoredId(cache);
      var lastDate := StoredDate(cache);
      match InitialParams(limit, kwargs, lastId, lastDate)
      case Err(e) => Err(e)
      case Ok(params) =>
        match Walk(pages, 0, ScanState({}, []), params, lastId, [])
        case Err(e) => Err(e)
        case Ok(w) =>
          var sorted := SortByKey(w.state.kept);
          var yielded := sorted[..if pulls < |sorted| then pulls else |sorted|];
          Ok(Run(yielded, w.requests, Checkpoint(cache, lastId, lastDate, yielded)))
  }
}
