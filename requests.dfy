/** How `PowensClient` builds what it sends: the pagination cursor taken
    from a `next` link, the URLs and query parameters of `list_accounts`,
    `list_transactions` and `get_webview_url`, the authentication guard, and
    what `authenticate` and `get_temp_code` make of the cache and the answers
    they get (bank2mqtt/client.py). Percent-encoding (`urlencode`) is not modelled:
    query parameters stay a map. */
module Requests {

  import opened Common
  import opened Text

  const CursorMarker := "cursor="

  /** The cursor of a `next` link's `href`: `None` when the href has no
      `cursor=`, else `href.split("cursor=")[1].split("&")[0]`, the text after
      the first `cursor=` up to the next `&` or the next `cursor=`. */
  function NextCursor(href: string): (r: Option<string>)
    ensures r.None? <==> !Contains(href, CursorMarker)
    ensures r.Some? ==> !Contains(r.value, "&") && !Contains(r.value, CursorMarker)
  {
    if Contains(href, CursorMarker) then
      var piece := SplitSecond(href, CursorMarker);
      var c := SplitHead(piece, "&");
      NoOccurrenceInPrefix(c, piece, CursorMarker);
      Some(c)
    else None
  }

  lemma NoOccurrenceInPrefix(a: string, b: string, pat: string)
    requires a <= b && !Contains(b, pat)
    ensures !Contains(a, pat)
  {
    forall j | 0 <= j && OccursAt(a, pat, j) ensures OccursAt(b, pat, j) {
      assert a[j..j + |pat|] == b[j..j + |pat|];
    }
  }

  /** A cursor written into a link the usual way (`...?...&cursor=<c>&...`) is
      read back unchanged, provided nothing before it already says `cursor=`. */
  lemma CursorRoundTrip(prefix: string, cursor: string, suffix: string)
    requires !Contains(prefix, CursorMarker)
    requires !Contains(cursor, "&") && !Contains(cursor, CursorMarker)
    requires suffix == [] || suffix[0] == '&'
    ensures NextCursor(prefix + CursorMarker + cursor + suffix) == Some(cursor)
  {
    var href := prefix + CursorMarker + cursor + suffix;
    FirstMarkerAfterPrefix(prefix, cursor + suffix);
    assert href == prefix + CursorMarker + (cursor + suffix);
    assert href[|prefix| + 7..] == cursor + suffix;
    var piece := SplitHead(cursor + suffix, CursorMarker);
    PieceStartsWithCursor(cursor, suffix);
    PieceUpToAmpersand(piece, cursor);
  }

  /** The first `cursor=` of `prefix + "cursor=" + tail` is the one after the
      prefix when the prefix has none: `cursor=` cannot overlap itself. */
  lemma FirstMarkerAfterPrefix(prefix: string, tail: string)
    requires !Contains(prefix, CursorMarker)
    ensures Find(prefix + CursorMarker + tail, CursorMarker) == Some(|prefix|)
  {
    var href := prefix + CursorMarker + tail;
    var n := |prefix|;
    assert href[n..n + 7] == CursorMarker;
    forall j | 0 <= j < n ensures !OccursAt(href, CursorMarker, j) {
      if j + 7 <= n {
        assert href[j..j + 7] == prefix[j..j + 7];
        assert !OccursAt(prefix, CursorMarker, j);
      } else if j + 7 <= |href| {
        assert href[j..j + 7][6] == href[j + 6] == CursorMarker[j + 6 - n];
        assert CursorMarker[j + 6 - n] != '=';
      }
    }
    FindIs(href, CursorMarker, n);
  }

  /** Cutting `cursor + suffix` at its first `cursor=` keeps the whole cursor,
      followed by nothing or by the `&` that starts the suffix. */
  lemma PieceStartsWithCursor(cursor: string, suffix: string)
    requires !Contains(cursor, CursorMarker)
    requires suffix == [] || suffix[0] == '&'
    ensures var piece := SplitHead(cursor + suffix, CursorMarker);
      |piece| >= |cursor| && piece[..|cursor|] == cursor && (|piece| > |cursor| ==> piece[|cursor|] == '&')
  {
    var rest := cursor + suffix;
    var piece := SplitHead(rest, CursorMarker);
    var m := |cursor|;
    forall j | 0 <= j < m ensures !OccursAt(rest, CursorMarker, j) {
      if j + 7 <= m {
        assert rest[j..j + 7] == cursor[j..j + 7];
        assert !OccursAt(cursor, CursorMarker, j);
      } else if j + 7 <= |rest| {
        assert rest[j..j + 7][m - j] == rest[m] == suffix[0] == '&';
        assert CursorMarker[m - j] != '&';
      }
    }
    if Contains(rest, CursorMarker) {
      assert OccursAt(rest, CursorMarker, |piece|);
    }
  }

  /** Cutting that piece at its first `&` leaves exactly the cursor. */
  lemma PieceUpToAmpersand(piece: string, cursor: string)
    requires !Contains(cursor, "&")
    requires |piece| >= |cursor| && piece[..|cursor|] == cursor
    requires |piece| > |cursor| ==> piece[|cursor|] == '&'
    ensures SplitHead(piece, "&") == cursor
  {
    var m := |cursor|;
    forall j | 0 <= j < m ensures !OccursAt(piece, "&", j) {
      assert piece[j] == piece[..m][j] == cursor[j];
      assert piece[j..j + 1] == [piece[j]] && cursor[j..j + 1] == [cursor[j]];
      assert !OccursAt(cursor, "&", j);
    }
    if |piece| > m {
      assert OccursAt(piece, "&", m);
      FindIs(piece, "&", m);
    } else {
      assert piece == cursor;
    }
  }

  /** `f"{n}"` for a natural number. */
  function NatString(n: nat): (s: string)
    ensures s != [] && forall i :: 0 <= i < |s| ==> IsDigit(s[i])
  {
    if n < 10 then [DigitChar(n)] else NatString(n / 10) + [DigitChar(n % 10)]
  }

  lemma {:induction false} ParseNatString(n: nat)
    ensures ParseNat(NatString(n)) == Some(n)
  {
    if n >= 10 {
      var s := NatString(n);
      assert s[..|s| - 1] == NatString(n / 10);
      ParseNatString(n / 10);
    }
  }

  /** `f"{i}"` for an integer. */
  function IntString(i: int): (s: string)
    ensures i >= 0 ==> ParseNat(s) == Some(i)
    ensures i < 0 ==> |s| > 1 && s[0] == '-' && ParseNat(s[1..]) == Some(-i)
  {
    if i < 0 then
      var t := NatString(-i);
      ParseNatString(-i);
      assert ("-" + t)[1..] == t;
      "-" + t
    else
      ParseNatString(i);
      NatString(i)
  }

  /** `f"https://{domain}.biapi.pro/2.0"` */
  function BaseUrl(domain: string): string
  {
    "https://" + domain + ".biapi.pro/2.0"
  }

  /** The URL of `list_accounts`: `?all` asks for disabled accounts too. */
  function AccountsUrl(baseUrl: string, allAccounts: bool): (url: string)
    ensures |url| >= |baseUrl| + 18 && url[..|baseUrl|] == baseUrl
    ensures url[|baseUrl|..|baseUrl| + 18] == "/users/me/accounts"
    ensures allAccounts <==> |url| == |baseUrl| + 22
    ensures !allAccounts <==> |url| == |baseUrl| + 18
    ensures allAccounts ==> url[|baseUrl| + 18..] == "?all"
  {
    baseUrl + "/users/me/accounts" + (if allAccounts then "?all" else "")
  }

  /** The path of `list_transactions`: one account's transactions when an id is
      given and truthy, else every account's. */
  function TransactionsPath(accountId: Option<int>): (path: string)
    ensures accountId.Some? && accountId.value != 0 ==>
      path == "accounts/" + IntString(accountId.value) + "/transactions"
    ensures accountId.None? || accountId.value == 0 ==> path == "transactions"
  {
    match accountId
    case Some(i) => if i != 0 then "accounts/" + IntString(i) + "/transactions" else "transactions"
    case None => "transactions"
  }

  /** `{"limit": limit, **kwargs}`: extra parameters win over the default. */
  function BaseParams(limit: int, kwargs: map<string, Value>): (p: map<string, Value>)
    ensures p.Keys == kwargs.Keys + {"limit"}
    ensures forall k :: k in kwargs ==> p[k] == kwargs[k]
    ensures "limit" !in kwargs ==> p["limit"] == Int(limit)
  {
    map["limit" := Int(limit)] + kwargs
  }

  /** The query parameters of `list_transactions`: `start_date`/`end_date` are
      set from truthy `date_from`/`date_to`, overriding `kwargs`. */
  function TransactionsParams(limit: int, kwargs: map<string, Value>, dateFrom: Option<string>, dateTo: Option<string>)
    : (p: map<string, Value>)
    ensures p.Keys == kwargs.Keys + {"limit"}
      + (if dateFrom.Some? && dateFrom.value != "" then {"start_date"} else {})
      + (if dateTo.Some? && dateTo.value != "" then {"end_date"} else {})
    ensures dateFrom.Some? && dateFrom.value != "" ==> p["start_date"] == Str(dateFrom.value)
    ensures dateTo.Some? && dateTo.value != "" ==> p["end_date"] == Str(dateTo.value)
    ensures forall k :: k in kwargs && k != "start_date" && k != "end_date" ==> p[k] == kwargs[k]
    ensures !(dateFrom.Some? && dateFrom.value != "") && "start_date" in kwargs ==>
      p["start_date"] == kwargs["start_date"]
    ensures !(dateTo.Some? && dateTo.value != "") && "end_date" in kwargs ==>
      p["end_date"] == kwargs["end_date"]
    ensures "limit" !in kwargs ==> p["limit"] == Int(limit)
  {
    var p := BaseParams(limit, kwargs);
    var p := if dateFrom.Some? && dateFrom.value != "" then p["start_date" := Str(dateFrom.value)] else p;
    if dateTo.Some? && dateTo.value != "" then p["end_date" := Str(dateTo.value)] else p
  }

  /** `base_url.split("//")[1].split(".")[0]`; `None` stands for the
      `IndexError` of a base URL without `//`. */
  function DomainOf(baseUrl: string): (r: Option<string>)
    ensures r.Some? <==> Contains(baseUrl, "//")
    ensures r.Some? ==> !Contains(r.value, ".")
  {
    if Contains(baseUrl, "//") then Some(SplitHead(SplitSecond(baseUrl, "//"), ".")) else None
  }

  /** The webview's `domain` parameter recovers the domain the client was
      built with, when that domain has no `.` and no `/`. */
  lemma NoDoubleSlash(domain: string)
    requires forall i :: 0 <= i < |domain| ==> domain[i] != '/'
    ensures forall j :: 0 <= j && j + 2 <= |domain + ".biapi.pro/2.0"| ==> !OccursAt(domain + ".biapi.pro/2.0", "//", j)
  {
    var rest := domain + ".biapi.pro/2.0";
    var n := |domain|;
    forall j | 0 <= j && j + 2 <= |rest| ensures !OccursAt(rest, "//", j) {
      assert rest[j..j + 2][0] == rest[j];
      assert rest[j..j + 2][1] == rest[j + 1];
      if j < n {
        assert rest[j] == domain[j] != '/';
      } else {
        assert rest[j] == ".biapi.pro/2.0"[j - n];
        assert rest[j + 1] == ".biapi.pro/2.0"[j + 1 - n];
        assert ".biapi.pro/2.0"[j - n] != '/' || ".biapi.pro/2.0"[j + 1 - n] != '/';
      }
    }
  }

  lemma DomainRoundTrip(domain: string)
    requires forall i :: 0 <= i < |domain| ==> domain[i] != '.' && domain[i] != '/'
    ensures DomainOf(BaseUrl(domain)) == Some(domain)
  {
    var url := BaseUrl(domain);
    assert url[..8] == "https://";
    assert OccursAt(url, "//", 6);
    forall j | 0 <= j < 6 ensures !OccursAt(url, "//", j) {
      assert url[j] == "https://"[j] != '/';
      assert url[j..j + 2][0] == url[j];
    }
    FindIs(url, "//", 6);
    var rest := url[8..];
    assert rest == domain + ".biapi.pro/2.0";
    var n := |domain|;
    NoDoubleSlash(domain);
    assert SplitHead(rest, "//") == rest;
    assert OccursAt(rest, ".", n);
    forall j | 0 <= j < n ensures !OccursAt(rest, ".", j) {
      assert rest[j..j + 1] == [domain[j]];
    }
    FindIs(rest, ".", n);
  }

  /** The query parameters of `get_webview_url`: domain, client id and code,
      then `kwargs` (which may override them), then `redirect_uri` when a
      callback URL is configured. */
  function WebviewParams(domain: string, clientId: string, code: Value, kwargs: map<string, Value>, callbackUrl: Option<string>)
    : (p: map<string, Value>)
    ensures p.Keys == {"domain", "client_id", "code"} + kwargs.Keys + (if callbackUrl.Some? then {"redirect_uri"} else {})
    ensures callbackUrl.Some? ==> p["redirect_uri"] == Str(callbackUrl.value)
    ensures "domain" !in kwargs ==> p["domain"] == Str(domain)
    ensures "client_id" !in kwargs ==> p["client_id"] == Str(clientId)
    ensures "code" !in kwargs ==> p["code"] == code
    ensures forall k :: k in kwargs && (callbackUrl.None? || k != "redirect_uri") ==> p[k] == kwargs[k]
  {
    var p := map["domain" := Str(domain), "client_id" := Str(clientId), "code" := code] + kwargs;
    if callbackUrl.Some? then p["redirect_uri" := Str(callbackUrl.value)] else p
  }

  /** `f"https://webview.powens.com/{lang}/{flow}?"`, the part of the webview
      URL before the encoded parameters. */
  function WebviewPrefix(lang: string, flow: string): string
  {
    "https://webview.powens.com/" + lang + "/" + flow + "?"
  }

  /** The exceptions of the authentication calls: the `RuntimeError` of the
      guard, a `requests.RequestException` (connection, status or JSON
      decoding), the `ValueError` of an answer without a token or a code, and
      the `AttributeError` of `.get` on a decoded value that is not a dict,
      and the `TypeError` of `len` on an int token or code. */
  datatype AuthError = NotAuthenticated | RequestFailed | NoToken | NoCode | NotADict | NoLength

  /** `_ensure_authenticated`: raises unless a truthy token is held. */
  function EnsureAuthenticated(authToken: Value): (o: Outcome<AuthError>)
    ensures o.Pass? <==> Truthy(authToken)
    ensures o.Fail? ==> o.error == NotAuthenticated
  {
    if Truthy(authToken) then Pass else Fail(NotAuthenticated)
  }

  /** `data.get(key)` followed by `if not ...: raise`: the entry when the
      decoded value is a dict holding a truthy one, `missing` when it is a
      dict without one, and an `AttributeError` when it is not a dict. */
  function TruthyEntry(data: Value, key: string, missing: AuthError): (r: Result<Value, AuthError>)
    ensures r.Ok? <==> data.Dict? && key in data.entries && Truthy(data.entries[key])
    ensures r.Ok? ==> r.value == data.entries[key]
    ensures r.Err? && data.Dict? ==> r.error == missing
    ensures !data.Dict? ==> r == Err(NotADict)
  {
    match data
    case Dict(m) =>
      var v := Lookup(m, key, Null);
      if Truthy(v) then Ok(v) else Err(missing)
    case _ => Err(NotADict)
  }

  /** The cache key of the authentication answer. */
  const AuthKey := "authenticate"

  /** The token `authenticate` assigns to `auth_token`, given the cache and
      the answer `/auth/init` would give (`None` for a failed request): taken
      from the cached answer when there is one, otherwise from the fresh one. */
  function AuthToken(cache: map<string, Value>, answer: Option<Value>): (r: Result<Value, AuthError>)
    ensures AuthKey in cache ==> r == TruthyEntry(cache[AuthKey], "auth_token", NoToken)
    ensures AuthKey !in cache && answer.None? ==> r == Err(RequestFailed)
    ensures AuthKey !in cache && answer.Some? ==> r == TruthyEntry(answer.value, "auth_token", NoToken)
    ensures r.Ok? ==> Truthy(r.value)
  {
    if AuthKey in cache then TruthyEntry(cache[AuthKey], "auth_token", NoToken)
    else if answer.None? then Err(RequestFailed)
    else TruthyEntry(answer.value, "auth_token", NoToken)
  }

  /** The `len` taken of a token or code for the log: a `TypeError` for an
      int. `None` and other falsy values never get this far. */
  function Measured(r: Result<Value, AuthError>): (m: Result<Value, AuthError>)
    ensures m.Ok? <==> r.Ok? && !r.value.Int?
    ensures m.Ok? ==> m.value == r.value
    ensures m.Err? ==> m.error == (if r.Err? then r.error else NoLength)
  {
    if r.Ok? && r.value.Int? then Err(NoLength) else r
  }

  /** What `authenticate` returns: the token it assigned, once measured. */
  function AuthenticateResult(cache: map<string, Value>, answer: Option<Value>): (r: Result<Value, AuthError>)
    ensures r.Ok? ==> AuthToken(cache, answer) == r && Truthy(r.value) && (r.value.Str? || r.value.Dict?)
    ensures r.Err? ==> AuthToken(cache, answer).Err? || r.error == NoLength
  {
    Measured(AuthToken(cache, answer))
  }

  /** The cache after `authenticate`: a fresh answer is stored before its
      token is looked at, so an answer without a token is stored too. */
  function AuthenticatedCache(cache: map<string, Value>, answer: Option<Value>): (c: map<string, Value>)
    ensures c.Keys == cache.Keys + (if answer.Some? then {AuthKey} else {})
    ensures forall k :: k in cache && k != AuthKey ==> c[k] == cache[k]
    ensures AuthKey in cache ==> c == cache
    ensures AuthKey !in cache && answer.Some? ==> c[AuthKey] == answer.value
  {
    if AuthKey in cache || answer.None? then cache else cache[AuthKey := answer.value]
  }

  /** A second `authenticate` sends no request and repeats the first one's
      outcome, whatever the server would now answer: once an answer is
      cached, a token is reused, and a missing token keeps raising
      `ValueError` until the cache is cleared. */
  lemma AuthenticateIsCached(cache: map<string, Value>, first: Option<Value>, second: Option<Value>)
    requires AuthKey in cache || first.Some?
    ensures AuthenticatedCache(AuthenticatedCache(cache, first), second) == AuthenticatedCache(cache, first)
    ensures AuthToken(AuthenticatedCache(cache, first), second) == AuthToken(cache, first)
    ensures AuthenticateResult(AuthenticatedCache(cache, first), second) == AuthenticateResult(cache, first)
  {
  }

  /** The code `get_temp_code` returns given the answer `/auth/token/code`
      would give, once the guard has passed: the answer's truthy `code`,
      measured for the log. */
  function TempCodeResult(answer: Option<Value>): (r: Result<Value, AuthError>)
    ensures answer.None? ==> r == Err(RequestFailed)
    ensures answer.Some? ==> r == Measured(TruthyEntry(answer.value, "code", NoCode))
    ensures r.Ok? ==> Truthy(r.value) && (r.value.Str? || r.value.Dict?)
  {
    if answer.None? then Err(RequestFailed) else Measured(TruthyEntry(answer.value, "code", NoCode))
  }
}
