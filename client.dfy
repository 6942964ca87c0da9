/** `PowensClient` (bank2mqtt/client.py): `authenticate`, the one-time code
    behind the `temp_code` property, the authentication guard, the requests
    it builds, the checkpoint accessors and
    `stream_new_transactions`, proved equal to `Streaming.Stream`. HTTP itself
    is replaced by the sequence of answers the API gives. */
module Client {

  import opened Common
  import opened Text
  import opened IsoDate
  import opened Requests
  import opened Streaming
  import opened CacheStore

  /** A GET request: the URL before `?` and the query parameters. */
  datatype Request = Request(url: string, params: Params)

  /** What a consumer of the generator received: the transactions, and the
      query parameters of every page request sent on its behalf. */
  datatype Streamed = Streamed(transactions: seq<Tx>, requests: seq<Params>)

  /** The base URL always has a `//`, so the webview's domain lookup cannot
      raise. */
  lemma BaseUrlHasDomain(domain: string)
    ensures DomainOf(BaseUrl(domain)).Some?
  {
    var url := BaseUrl(domain);
    assert url[6..8] == "//";
    assert OccursAt(url, "//", 6);
  }

  class PowensClient {
    const domain: string
    const baseUrl: string
    const clientId: string
    const clientSecret: string
    const callbackUrl: Option<string>
    const cache: Cache
    var authToken: Value
    /** The `temp_code` cached property: `None` until it was first read
        successfully. */
    var tempCode: Option<Value>

    /** The base URL is built from the domain, and the checkpoint keys hold
        what this client writes into them. */
    predicate Valid()
      reads this, cache
    {
      baseUrl == BaseUrl(domain) && CheckpointSlots(cache.shelf)
    }

    /** `__init__`: the cache opened for this domain and credentials holds
        `persisted`; no token is held yet. */
    constructor (domain: string, clientId: string, clientSecret: string, callbackUrl: Option<string>,
                 persisted: map<string, Value>)
      requires CheckpointSlots(persisted)
      ensures Valid() && fresh(cache)
      ensures this.domain == domain && this.clientId == clientId && this.clientSecret == clientSecret
      ensures this.callbackUrl == callbackUrl
      ensures cache.shelf == persisted && authToken == Null && tempCode == None
    {
      this.domain := domain;
      this.baseUrl := BaseUrl(domain);
      this.clientId := clientId;
      this.clientSecret := clientSecret;
      this.callbackUrl := callbackUrl;
      this.cache := new Cache(persisted);
      this.authToken := Null;
      this.tempCode := None;
    }

    /** `authenticate()`, the API answering `/auth/init` with `answer`
        (`None` when the request raises). A cached answer is used without a
        request; a fresh one is cached before its token is looked at. The
        token is kept only when it is truthy, and is kept even when taking
        its length for the log then raises. */
    method Authenticate(answer: Option<Value>) returns (r: Result<Value, AuthError>)
      requires Valid()
      modifies this, cache
      ensures Valid()
      ensures r == AuthenticateResult(old(cache.shelf), answer)
      ensures cache.shelf == AuthenticatedCache(old(cache.shelf), answer)
      ensures authToken == (if AuthToken(old(cache.shelf), answer).Ok? then AuthToken(old(cache.shelf), answer).value
                            else old(authToken))
      ensures tempCode == old(tempCode)
    {
      var cached := cache.Contains(AuthKey);
      var data;
      if cached {
        var item := cache.GetItem(AuthKey);
        data := item.value;
      } else {
        if answer.None? {
          return Err(RequestFailed);
        }
        data := answer.value;
        cache.SetItem(AuthKey, data);
      }
      var token := TruthyEntry(data, "auth_token", NoToken);
      if token.Err? {
        return Err(token.error);
      }
      authToken := token.value;
      r := Measured(token);
    }

    /** `get_temp_code()`, the API answering `/auth/token/code` with
        `answer`: the guard first, then the truthy `code` of the answer. */
    method GetTempCode(answer: Option<Value>) returns (r: Result<Value, AuthError>)
      requires Valid()
      ensures !Truthy(authToken) ==> r == Err(AuthError.NotAuthenticated)
      ensures Truthy(authToken) ==> r == TempCodeResult(answer)
      ensures r.Ok? ==> Truthy(r.value)
    {
      var guard := EnsureAuthenticated(authToken);
      if guard.Fail? {
        return Err(guard.error);
      }
      r := TempCodeResult(answer);
    }

    /** Reading the `temp_code` property: the remembered code, or
        `get_temp_code()`, whose result is remembered only when it does not
        raise. */
    method TempCode(answer: Option<Value>) returns (r: Result<Value, AuthError>)
      requires Valid()
      modifies this
      ensures Valid()
      ensures authToken == old(authToken)
      ensures old(tempCode).Some? ==> r == Ok(old(tempCode).value) && tempCode == old(tempCode)
      ensures old(tempCode).None? && !Truthy(authToken) ==> r == Err(AuthError.NotAuthenticated) && tempCode == None
      ensures old(tempCode).None? && Truthy(authToken) ==> r == TempCodeResult(answer)
      ensures old(tempCode).None? ==> tempCode == (if r.Ok? then Some(r.value) else None)
    {
      if tempCode.Some? {
        return Ok(tempCode.value);
      }
      r := GetTempCode(answer);
      if r.Ok? {
        tempCode := Some(r.value);
      }
    }

    /** `list_accounts`: the URL requested, once the guard has passed. */
    method ListAccountsRequest(allAccounts: bool) returns (r: Result<string, AuthError>)
      requires Valid()
      ensures r.Err? <==> !Truthy(authToken)
      ensures r.Err? ==> r.error == AuthError.NotAuthenticated
      ensures r.Ok? ==> r.value == AccountsUrl(BaseUrl(domain), allAccounts)
    {
      var guard := EnsureAuthenticated(authToken);
      if guard.Fail? {
        return Err(guard.error);
      }
      return Ok(AccountsUrl(baseUrl, allAccounts));
    }

    /** `list_transactions`: the URL and parameters requested, once the guard
        has passed. */
    method ListTransactionsRequest(accountId: Option<int>, limit: int, dateFrom: Option<string>,
                                   dateTo: Option<string>, kwargs: Params)
      returns (r: Result<Request, AuthError>)
      requires Valid()
      ensures r.Err? <==> !Truthy(authToken)
      ensures r.Err? ==> r.error == AuthError.NotAuthenticated
      ensures r.Ok? ==> r.value.url == BaseUrl(domain) + "/users/me/" + TransactionsPath(accountId)
      ensures r.Ok? ==> r.value.params == TransactionsParams(limit, kwargs, dateFrom, dateTo)
    {
      var guard := EnsureAuthenticated(authToken);
      if guard.Fail? {
        return Err(guard.error);
      }
      var path := TransactionsPath(accountId);
      return Ok(Request(baseUrl + "/users/me/" + path, TransactionsParams(limit, kwargs, dateFrom, dateTo)));
    }

    /** `get_webview_url(lang, flow, **kwargs)`, the API answering a
        `/auth/token/code` request, if one is made, with `answer`: the URL up
        to `?` and the parameters, whose `code` is the `temp_code` property
        and whose `domain` is the one the client was built with (when that
        domain has no `.` or `/` and `kwargs` does not override it). Reading
        the property raises on a client that holds no token and has no code
        remembered. */
    method WebviewRequest(lang: string, flow: string, answer: Option<Value>, kwargs: Params)
      returns (r: Result<Request, AuthError>)
      requires Valid()
      modifies this
      ensures Valid()
      ensures authToken == old(authToken)
      ensures old(tempCode).None? && !Truthy(authToken) ==> r == Err(AuthError.NotAuthenticated)
      ensures r.Err? <==> old(tempCode).None? && (!Truthy(authToken) || TempCodeResult(answer).Err?)
      ensures r.Err? ==> tempCode == None && r.error == (if Truthy(authToken) then TempCodeResult(answer).error else AuthError.NotAuthenticated)
      ensures r.Ok? ==> tempCode.Some? && (old(tempCode).Some? ==> tempCode == old(tempCode))
      ensures old(tempCode).None? && r.Ok? ==> tempCode == Some(TempCodeResult(answer).value)
      ensures DomainOf(BaseUrl(domain)).Some?
      ensures r.Ok? ==> r.value.url == WebviewPrefix(lang, flow)
      ensures r.Ok? ==> r.value.params == WebviewParams(DomainOf(BaseUrl(domain)).value, clientId, tempCode.value, kwargs, callbackUrl)
      ensures r.Ok? && (forall i :: 0 <= i < |domain| ==> domain[i] != '.' && domain[i] != '/') && "domain" !in kwargs ==>
        r.value.params["domain"] == Str(domain)
    {
      BaseUrlHasDomain(domain);
      var d := DomainOf(baseUrl).value;
      var code := TempCode(answer);
      if code.Err? {
        return Err(code.error);
      }
      if forall i :: 0 <= i < |domain| ==> domain[i] != '.' && domain[i] != '/' {
        DomainRoundTrip(domain);
      }
      r := Ok(Request(WebviewPrefix(lang, flow), WebviewParams(d, clientId, code.value, kwargs, callbackUrl)));
    }

    /** `get_last_transaction_id()` */
    method GetLastTransactionId() returns (v: Value)
      requires Valid()
      ensures v == StoredId(cache.shelf)
      ensures v.Null? || v.Int?
    {
      v := cache.Get(IdKey, Null);
    }

    /** `get_last_transaction_date()` */
    method GetLastTransactionDate() returns (v: Value)
      requires Valid()
      ensures v == StoredDate(cache.shelf)
      ensures v.Null? || v.Str?
    {
      v := cache.Get(DateKey, Null);
    }

    /** `reset_streaming_state()`: forgets both checkpoint keys and nothing
        else. */
    method ResetStreamingState()
      requires Valid()
      modifies cache
      ensures Valid()
      ensures cache.shelf == old(cache.shelf) - {IdKey, DateKey}
      ensures StoredId(cache.shelf) == Null && StoredDate(cache.shelf) == Null
    {
      var _ := cache.Delete(IdKey);
      var _ := cache.Delete(DateKey);
    }

    /** `stream_new_transactions(limit, **kwargs)` driven by `pulls` calls to
        `next()`, the API answering the successive page requests with
        `pages`. What it yields, what it sends and what it leaves in the cache
        are those of `Stream`. */
    method StreamNewTransactions(pages: seq<Response>, limit: int, kwargs: Params, pulls: nat)
      returns (r: Result<Streamed, StreamError>)
      requires Valid()
      modifies cache
      ensures Valid()
      ensures match Stream(old(cache.shelf), authToken, pages, limit, kwargs, pulls)
        case Ok(run) => r == Ok(Streamed(run.yielded, run.requests)) && cache.shelf == run.cache
        case Err(e) => r == Err(e) && cache.shelf == old(cache.shelf)
    {
      if pulls == 0 {
        return Ok(Streamed([], []));
      }
      if EnsureAuthenticated(authToken).Fail? {
        return Err(StreamError.NotAuthenticated);
      }
      var lastId := cache.Get(IdKey, Null);
      var lastDate := cache.Get(DateKey, Null);

      var params := StartParams(limit, kwargs, lastId, lastDate);
      if params.Err? {
        return Err(params.error);
      }
      var fetched := FetchNewTransactions(pages, params.value, lastId);
      if fetched.Err? {
        return Err(fetched.error);
      }
      var sorted := SortByKey(fetched.value.state.kept);
      var n := if pulls < |sorted| then pulls else |sorted|;
      YieldInOrder(sorted[..n], lastId, lastDate);
      return Ok(Streamed(sorted[..n], fetched.value.requests));
    }

    /** The first request's parameters: `min_date` is added one day before
        a stored date when no id is stored. */
    method StartParams(limit: int, kwargs: Params, lastId: Value, lastDate: Value)
      returns (r: Result<Params, StreamError>)
      ensures r == InitialParams(limit, kwargs, lastId, lastDate)
    {
      var params := BaseParams(limit, kwargs);
      if Truthy(lastDate) && !Truthy(lastId) && lastDate.Str? {
        match Widen(lastDate.s) {
          case Unchanged =>
          case Overflow =>
            return Err(DateOverflow);
          case MinDateParam(d) =>
            params := params["min_date" := Str(d)];
        }
      }
      return Ok(params);
    }

    /** The fetching loop of `stream_new_transactions`: page requests from
        `params` on, following cursors, keeping each transaction whose id was
        neither seen on an earlier page nor delivered by an earlier run. */
    method FetchNewTransactions(pages: seq<Response>, params: Params, lastId: Value)
      returns (r: Result<Walked, StreamError>)
      ensures r == Walk(pages, 0, ScanState({}, []), params, lastId, [])
    {
      ghost var walk := Walk(pages, 0, ScanState({}, []), params, lastId, []);
      var params := params;
      var seen: set<Option<int>> := {};
      var kept: seq<Tx> := [];
      var requests: seq<Params> := [];
      while true
        invariant |requests| <= |pages|
        invariant walk == Walk(pages, |requests|, ScanState(seen, kept), params, lastId, requests)
        decreases |pages| - |requests|
      {
        var i := |requests|;
        if i >= |pages| || pages[i].Failed? {
          return Err(HttpError(i));
        }
        var page := pages[i].page;
        requests := requests + [params];
        if page.transactions == [] {
          break;
        }
        var scanned := ScanPage(ScanState(seen, kept), page.transactions, lastId);
        if scanned.Err? {
          return Err(scanned.error);
        }
        seen, kept := scanned.value.seen, scanned.value.kept;
        if page.next.None? {
          break;
        }
        var href := page.next.value;
        if Contains(href, CursorMarker) {
          var cursor := SplitHead(SplitSecond(href, CursorMarker), "&");
          params := params["cursor" := Str(cursor)];
        } else {
          break;
        }
      }
      return Ok(Walked(ScanState(seen, kept), requests));
    }

    /** The loop over one page's transactions. */
    method ScanPage(st: ScanState, txs: seq<Tx>, lastId: Value) returns (r: Result<ScanState, StreamError>)
      ensures r == ScanBatch(st, txs, lastId)
    {
      var seen, kept := st.seen, st.kept;
      var j := 0;
      while j < |txs|
        invariant 0 <= j <= |txs|
        invariant ScanBatch(st, txs, lastId) == ScanBatch(ScanState(seen, kept), txs[j..], lastId)
      {
        var tx := txs[j];
        assert txs[j..][1..] == txs[j + 1..];
        j := j + 1;
        if tx.id in seen {
          continue;
        }
        var delivered := AlreadyDelivered(tx.id, lastId);
        if delivered.Err? {
          return Err(delivered.error);
        }
        if delivered.value {
          continue;
        }
        seen := seen + {tx.id};
        kept := kept + [tx];
      }
      return Ok(ScanState(seen, kept));
    }

    /** The yielding loop: before handing out each transaction, raise the
        running maxima and write them to the cache. */
    method YieldInOrder(txs: seq<Tx>, lastId: Value, lastDate: Value)
      requires IdSlot(lastId) && DateSlot(lastDate) && CheckpointSlots(cache.shelf)
      modifies cache
      ensures CheckpointSlots(cache.shelf)
      ensures cache.shelf == Checkpoint(old(cache.shelf), lastId, lastDate, txs)
    {
      var curId := lastId;
      var curDate := lastDate;
      ghost var target := Checkpoint(cache.shelf, lastId, lastDate, txs);
      var k := 0;
      while k < |txs|
        invariant 0 <= k <= |txs|
        invariant IdSlot(curId) && DateSlot(curDate)
        invariant CheckpointSlots(cache.shelf)
        invariant target == Checkpoint(cache.shelf, curId, curDate, txs[k..])
      {
        var tx := txs[k];
        assert txs[k..][1..] == txs[k + 1..];
        if tx.id.Some? && tx.id.value != 0 && (!Truthy(curId) || tx.id.value > curId.i) {
          curId := Int(tx.id.value);
        }
        if tx.date.Some? && tx.date.value != "" && (!Truthy(curDate) || StrLess(curDate.s, tx.date.value)) {
          curDate := Str(tx.date.value);
        }
        cache.SetItem(IdKey, curId);
        if Truthy(curDate) {
          cache.SetItem(DateKey, curDate);
        }
        k := k + 1;
      }
    }
  }

  /** After `reset_streaming_state()`, both accessors report `None`. */
  method ResetThenRead(c: PowensClient) returns (id: Value, date: Value)
    requires c.Valid()
    modifies c.cache
    ensures id == Null && date == Null
  {
    c.ResetStreamingState();
    id := c.GetLastTransactionId();
    date := c.GetLastTransactionDate();
  }
}
