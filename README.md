# bank2mqtt core, modelled in Dafny

bank2mqtt pulls bank transactions from the Powens (Budget Insight) API and
republishes them. This project models three parts of it and proves what they
promise:

- **`PowensClient`** (`bank2mqtt/client.py`). This is the incremental transaction stream `stream_new_transactions`:
  - it builds the first request from the checkpoint in the cache, widening the window by one day when only a date is stored;
  - it follows `cursor=` links page by page and filters out duplicates and already delivered transactions;
  - it sorts by `(date, id)`;
  - it advances the `last_transaction_id` / `last_transaction_date` checkpoint before each transaction it yields.

  Around it sit the checkpoint getters, `reset_streaming_state`, the authentication guard, `authenticate` with its cached answer, `get_temp_code` and the `temp_code` property, and the URLs and parameters of `list_accounts`, `list_transactions` and `get_webview_url`. Because `authenticate` caches a fresh answer before looking for its token, an answer without a token keeps raising `ValueError` on every later call without a new request, until the cache is cleared (`Requests.AuthenticateIsCached`).
- **`DatabaseManager`** (`bank2mqtt/db.py`). This covers:
  - the transaction upsert `update_transactions` and its rollback;
  - `get_or_create_account`, `save_authentication` and `delete_account` with its cascade;
  - the read queries `get_transactions`, `get_authentication` and `latest_sent_transaction`.
- **`Cache`** (`bank2mqtt/cache.py`): a persistent key/value store, modelled as a map the methods reassign.

One module per file:

| file | module | what it holds |
|---|---|---|
| common.dfy | Common | `Option`, `Result`, `Outcome`, Python values (`None`, int, str, dict), truthiness, `dict.get` |
| text.dfy | Text | `str` ordering, `find`, `split(...)[0]` / `[1]`, digits |
| isodate.dfy | IsoDate | calendar dates, `fromisoformat` on `YYYY-MM-DD`, the day before, `strftime("%Y-%m-%d")` |
| requests.dfy | Requests | the cursor of a next link, base URL, paths and query parameters, the auth guard, what `authenticate` and `get_temp_code` return |
| cache.dfy | CacheStore | class `Cache` |
| streaming.dfy | Streaming | `stream_new_transactions` as functions: initial parameters, page filtering, pagination, sort, checkpoint, the whole run |
| streaming_facts.dfy | StreamingFacts | what a run guarantees, proved about those functions |
| client.dfy | Client | class `PowensClient`, whose imperative methods are proved equal to the functions |
| db.dfy | Database | rows, the upsert and query functions, class `DatabaseManager` |
| db_facts.dfy | DatabaseFacts | the upsert seen as a map from primary key to row; query properties |

External effects become inputs:
- **HTTP responses:** a sequence of `Response` values, `Received(page)` or `Failed`. A request past the end of the sequence fails like an HTTP error.
- **The generator's consumer:** the number `pulls` of `next()` calls.
- **`datetime.utcnow()`:** a parameter `now`.
- **What `fromisoformat` makes of each date of a transaction dict:** a `DateField`.
- **The answers of `/auth/init` and `/auth/token/code`:** an optional decoded JSON value, `None` when the request raises.

## Model

| member | source | states |
|---|---|---|
| Common.Lookup | bank2mqtt/client.py:331-332 | `d.get(k, default)`: the stored value when the key is present, the default otherwise |
| Text.StrLessTransitive | bank2mqtt/client.py:474-477 | Python's `str` `<`, used to advance the date checkpoint, is transitive |
| Text.StrLessTotal | bank2mqtt/client.py:474-477 | any two different strings are ordered one way or the other |
| Text.StrLessAsymmetric | bank2mqtt/client.py:474-477 | `a < b` excludes `b < a` |
| Text.Find | bank2mqtt/client.py:434-435 | the first index where the pattern occurs, none before it, or none at all |
| Text.SplitHead | bank2mqtt/client.py:435 | `split(sep)[0]` is the prefix before the first occurrence of `sep`, which it does not contain, and the whole string when `sep` does not occur |
| Text.SplitSecond | bank2mqtt/client.py:435 | `split(sep)[1]` is the text after the first `sep` up to the next `sep`, or to the end when there is none; it contains no `sep` |
| Text.ParseDigits | bank2mqtt/client.py:346-349 | zero-padded digits read back as the number written |
| Text.DigitsOfParse | bank2mqtt/client.py:346-349 | digits read as a number and written back with as many digits give the same string, leading zeros included |
| IsoDate.PrevDay | bank2mqtt/client.py:349 | `date - timedelta(days=1)`: a valid earlier date, and an overflow exactly on 0001-01-01 |
| IsoDate.Format | bank2mqtt/client.py:349 | `strftime("%Y-%m-%d")` gives ten characters |
| IsoDate.ParseFormat | bank2mqtt/client.py:346-349 | parsing a formatted date gives it back |
| IsoDate.ParseIsoFormat | bank2mqtt/client.py:346-349 | a string that parses starts with the formatted date it parses to |
| IsoDate.ParseIsoPrefix | bank2mqtt/client.py:346-348 | the converse: a formatted valid date followed by anything (time part, offset) parses to that date |
| IsoDate.ParseIso | bank2mqtt/client.py:346-348 | `fromisoformat` gives a valid date, read from a string starting `YYYY-MM-DD`; with `ParseIsoFormat` and `ParseIsoPrefix`, exactly the strings that start with a formatted valid date parse, whatever follows |
| IsoDate.ReplaceZ | bank2mqtt/client.py:347 | `replace("Z", "+00:00")` leaves no `Z` and never shortens the string |
| IsoDate.ReplaceZAppend | bank2mqtt/client.py:347 | the replacement distributes over concatenation: each `Z` becomes `+00:00` in place and everything else is kept in order |
| IsoDate.ReplaceZIdentity | bank2mqtt/client.py:347 | a string without `Z` is unchanged |
| IsoDate.Widen | bank2mqtt/client.py:342-354 | a `min_date` exactly when the stored date parses to a day other than the first; an overflow exactly on the first day; nothing otherwise |
| IsoDate.WidenStoredDate | bank2mqtt/client.py:346-350 | a stored `YYYY-MM-DD…` timestamp, whatever time part, `Z` or offset follows, widens to the formatted previous day, and overflows on 0001-01-01 |
| Requests.NextCursor | bank2mqtt/client.py:433-440 | a cursor exactly when the href contains `cursor=`, and it holds neither `&` nor `cursor=` |
| Requests.CursorRoundTrip | bank2mqtt/client.py:434-436 | a cursor written into a link as `cursor=<c>` and followed by `&` or the end is read back unchanged |
| Requests.ParseNatString | bank2mqtt/client.py:227 | the account id written into the path reads back as that number |
| Requests.IntString | bank2mqtt/client.py:227 | the same for negative ids, with a leading `-` |
| Requests.AccountsUrl | bank2mqtt/client.py:150-152 | the base URL followed by `/users/me/accounts`, then `?all` when disabled accounts are requested and nothing otherwise |
| Requests.TransactionsPath | bank2mqtt/client.py:226-230 | one account's path for a truthy id, the all-accounts path otherwise |
| Requests.BaseParams | bank2mqtt/client.py:338 | `{"limit": limit, **kwargs}`: the keys of both, and `kwargs` wins |
| Requests.TransactionsParams | bank2mqtt/client.py:233-237 | `start_date` / `end_date` are set from truthy bounds; without one, a value given in `kwargs` is kept; everything else is as in `BaseParams` |
| Requests.DomainOf | bank2mqtt/client.py:127 | `split("//")[1].split(".")[0]` is defined exactly when `//` occurs, and holds no `.` |
| Requests.DomainRoundTrip | bank2mqtt/client.py:127 | the webview `domain` parameter recovers the domain the base URL was built from at line 31, when that domain has no `.` or `/` |
| Requests.WebviewParams | bank2mqtt/client.py:126-133 | domain, client id and code, which `kwargs` may override, and `redirect_uri` exactly when a callback URL is set |
| Requests.EnsureAuthenticated | bank2mqtt/client.py:267-272 | passes exactly when the token held is truthy, and raises the authentication error otherwise |
| Requests.TruthyEntry | bank2mqtt/client.py:76-79 | `data.get(key)` then `if not ...: raise ValueError`: the entry exactly when `data` is a dict holding a truthy one; the `ValueError` for a dict without one; the `AttributeError` of `.get` for anything that is not a dict |
| Requests.AuthToken | bank2mqtt/client.py:50-81 | the token assigned to `auth_token`: from the cached answer when present, otherwise the request's exception or the fresh answer's; it is truthy |
| Requests.Measured | bank2mqtt/client.py:83 | `len` of the token or code for the log raises `TypeError` exactly on an int, and passes anything else through |
| Requests.AuthenticateResult | bank2mqtt/client.py:45-84 | a returned token is the assigned one, truthy, a string or dict; an error is the assignment's or the `TypeError` of `len` |
| Requests.AuthenticatedCache | bank2mqtt/client.py:51-70 | only the `authenticate` key may change, and only when it was absent and the request succeeded, to the fresh answer, whether or not it holds a token |
| Requests.AuthenticateIsCached | bank2mqtt/client.py:51-84 | after one call that got an answer, a second call leaves the cache as it is and repeats the first outcome, token or `ValueError`, whatever the server would now answer |
| Requests.TempCodeResult | bank2mqtt/client.py:97-114 | the request's exception, or the answer's truthy `code` once `len` has been taken of it, or the `ValueError` of an answer without one; a returned code is truthy and a string or dict |
| CacheStore.Cache.constructor | bank2mqtt/cache.py:17-39 | the cache holds what was persisted |
| CacheStore.Cache.Set | bank2mqtt/cache.py:57-69 | the key now maps to the value; nothing else changes |
| CacheStore.Cache.Get | bank2mqtt/cache.py:71-86 | the stored value, or the default when absent |
| CacheStore.Cache.Delete | bank2mqtt/cache.py:88-105 | true exactly when the key was present; the key is gone, nothing else changes |
| CacheStore.Cache.Exists | bank2mqtt/cache.py:107-118 | membership |
| CacheStore.Cache.Clear | bank2mqtt/cache.py:120-126 | the cache is empty |
| CacheStore.Cache.Keys | bank2mqtt/cache.py:128-131 | exactly the stored keys |
| CacheStore.Cache.ToDict | bank2mqtt/cache.py:138-141 | a copy with the same keys and values |
| CacheStore.Cache.GetItem | bank2mqtt/cache.py:143-148 | the stored value, or `KeyError(key)` exactly when absent, including for a stored `None` value only when it is absent |
| CacheStore.Cache.SetItem | bank2mqtt/cache.py:150-152 | the same as `Set` |
| CacheStore.Cache.DelItem | bank2mqtt/cache.py:154-157 | `KeyError(key)` exactly when absent; the key is gone afterwards |
| CacheStore.Cache.Contains | bank2mqtt/cache.py:159-161 | membership, as `exists` |
| CacheStore.Cache.Len | bank2mqtt/cache.py:163-166 | the number of stored keys |
| CacheStore.SetThenRead | bank2mqtt/cache.py:57-118 | a value set is read back and present, and another key is unaffected |
| CacheStore.ClearThenRead | bank2mqtt/cache.py:120-166 | after `clear`, the length is 0, nothing is present and indexing raises `KeyError` |
| Streaming.StoredId | bank2mqtt/client.py:331 | the stored id, or `None` when there is none |
| Streaming.StoredDate | bank2mqtt/client.py:332 | the stored date, or `None` when there is none |
| Streaming.InitialParams | bank2mqtt/client.py:337-354 | `min_date` is added exactly when a date but no id is stored and it parses to a day other than the first; an overflow error exactly on the first day; otherwise the base parameters |
| Streaming.AlreadyDelivered | bank2mqtt/client.py:409 | skipped exactly when a truthy stored id is at least the transaction's id; a `TypeError` exactly when a truthy stored id meets a missing id or is not an int |
| Streaming.NextParams | bank2mqtt/client.py:426-440 | pagination goes on exactly when the next href contains `cursor=`; the next request changes only `cursor`, set to the extracted value, which holds no `&` |
| Streaming.Insert | bank2mqtt/client.py:448-454 | inserting into a list sorted by `(date, id)` keeps it sorted and adds exactly that element |
| Streaming.SortByKey | bank2mqtt/client.py:448-454 | sorted by `(date, id)` and a permutation of the input (stable by construction, as `list.sort`, though not stated) |
| Streaming.KeyLessTransitive | bank2mqtt/client.py:448-452 | the `(date, id)` order is transitive |
| Streaming.AdvanceId | bank2mqtt/client.py:469-472 | the running maximum id stays `None` or an int |
| Streaming.AdvanceDate | bank2mqtt/client.py:474-477 | the running maximum date stays `None` or a string |
| Streaming.Step | bank2mqtt/client.py:400-416 | one iteration of the filter; `StreamingFacts.StepKeepsInv` proves it keeps the seen ids equal to the kept ids, with no id twice and only transactions that pass the checkpoint, each the first with its id |
| Streaming.ScanBatch | bank2mqtt/client.py:400-424 | the filter over one page only adds to `processed_ids` and `new_transactions`, at most one kept transaction per transaction of the page, each from the page; `ScanKeepsInv`, `ScanConcat` and `ScanFailsOnMissingId` give the rest |
| Streaming.Walk | bank2mqtt/client.py:366-440 | the fetching loop; `WalkAnswered`, `WalkScansPages` and `WalkFollowsCursors` prove that every request was answered, that what it gathered is the filter over the fetched pages, that each request carries the previous page's cursor, and (`WalkEndsOnStop`) that it stops only on an empty page or one without a cursor |
| Streaming.MaxId | bank2mqtt/client.py:458-472 | the running maximum id stays `None` or an int; `StreamingFacts.MaxIdIsMaximum` proves it is the greatest truthy id seen, or the starting one |
| Streaming.MaxDate | bank2mqtt/client.py:459-477 | the running maximum date stays `None` or a string; `StreamingFacts.MaxDateIsMaximum` proves it is the greatest truthy date seen under `str` order, or the starting one |
| Streaming.Checkpoint | bank2mqtt/client.py:458-482 | the cache writes of the yielding loop; `StreamingFacts.CheckpointWrites` proves they touch only the two checkpoint keys and leave the running maxima there |
| Streaming.Stream | bank2mqtt/client.py:307-497 | a whole run seen by a consumer making `pulls` calls; `StreamYieldsNewTransactions`, `StreamIsComplete`, `StreamFollowsCursors`, `StreamUpdatesCheckpoint` and `StreamNeverRedelivers` state what it yields, sends and stores |
| StreamingFacts.StepKeepsInv | bank2mqtt/client.py:400-416 | one iteration of the filter keeps its invariant: seen ids are the kept ids, no id twice, each kept transaction passes the checkpoint and is the first with its id, and every passing id is seen |
| StreamingFacts.ScanKeepsInv | bank2mqtt/client.py:400-416 | the same invariant holds after a whole batch |
| StreamingFacts.ScanConcat | bank2mqtt/client.py:366-424 | filtering two pages in turn is filtering their concatenation, errors included |
| StreamingFacts.ScanFailsOnMissingId | bank2mqtt/client.py:401-409 | with an int checkpoint, a batch raises exactly when some transaction lacks an id |
| StreamingFacts.WalkAnswered | bank2mqtt/client.py:366-396 | a successful fetch made at most one request per available response, each answered |
| StreamingFacts.WalkScansPages | bank2mqtt/client.py:391-424 | what the fetch gathered is the filter run over all fetched pages |
| StreamingFacts.WalkFollowsCursors | bank2mqtt/client.py:426-440 | every request after the first is the previous one with the cursor of the previous non-empty page's next link |
| StreamingFacts.WalkEndsOnStop | bank2mqtt/client.py:394-440 | the last request of a successful walk was answered by an empty page or by a page whose next link carries no `cursor=` |
| StreamingFacts.SortKeepsDistinct | bank2mqtt/client.py:454 | sorting keeps ids distinct |
| StreamingFacts.MaxIdIsMaximum | bank2mqtt/client.py:458-472 | the final id is at least every truthy id yielded and the starting id, and is one of them |
| StreamingFacts.MaxDateIsMaximum | bank2mqtt/client.py:458-477 | the same for dates under `str` order |
| StreamingFacts.CheckpointWrites | bank2mqtt/client.py:479-482 | the cache writes touch only the two checkpoint keys, set them to the running maxima (the date only when truthy), and do nothing when nothing is yielded |
| StreamingFacts.WalkGathers | bank2mqtt/client.py:357-440 | the whole fetch establishes the filter invariant over all fetched pages |
| StreamingFacts.StreamYieldsNewTransactions | bank2mqtt/client.py:307-490 | the transactions a run yields came from answered pages, are in `(date, id)` order, have distinct ids, pass the stored checkpoint and are each the first with their id, and number at most the `next()` calls |
| StreamingFacts.StreamIsComplete | bank2mqtt/client.py:307-490 | a consumer that exhausts the generator gets every fetched transaction the checkpoint lets through |
| StreamingFacts.StreamFollowsCursors | bank2mqtt/client.py:337-440 | the first request carries the initial parameters, each later one the previous page's cursor, and the last one was answered by an empty page or a page without a cursor |
| StreamingFacts.StreamUpdatesCheckpoint | bank2mqtt/client.py:458-490 | after a run, only the checkpoint keys changed, to the maxima over what was yielded, and nothing changed if nothing was yielded |
| StreamingFacts.StreamNeverRedelivers | bank2mqtt/client.py:458-482 | after a run, every yielded transaction with a truthy id would be skipped by the next run's checkpoint test at line 409 |
| Client.PowensClient.constructor | bank2mqtt/client.py:23-39 | the base URL is built from the domain; no token is held and no code is remembered |
| Client.PowensClient.Authenticate | bank2mqtt/client.py:45-84 | returns `AuthenticateResult` and leaves `AuthenticatedCache` in the cache; `auth_token` becomes `AuthToken` whenever that is found, even if `len` then raises, and is otherwise unchanged |
| Client.PowensClient.GetTempCode | bank2mqtt/client.py:86-114 | the authentication error without a truthy token; otherwise `TempCodeResult`; a returned code is truthy |
| Client.PowensClient.TempCode | bank2mqtt/client.py:116-118 | a remembered code is returned without a request; otherwise `get_temp_code` runs, and its code is remembered only when it does not raise |
| Client.PowensClient.ListAccountsRequest | bank2mqtt/client.py:143-152 | the authentication error exactly without a truthy token; otherwise the accounts URL |
| Client.PowensClient.ListTransactionsRequest | bank2mqtt/client.py:209-241 | the authentication error exactly without a truthy token; otherwise the path and parameters chosen from the arguments |
| Client.PowensClient.WebviewRequest | bank2mqtt/client.py:120-141 | fails exactly when no code is remembered and reading `temp_code` raises: the authentication error without a truthy token, else the error of `TempCodeResult`; otherwise the webview URL and parameters, with the remembered or newly fetched code and the client's own `domain` |
| Client.PowensClient.GetLastTransactionId | bank2mqtt/client.py:499-508 | the stored id, `None` or an int |
| Client.PowensClient.GetLastTransactionDate | bank2mqtt/client.py:510-519 | the stored date, `None` or a string |
| Client.PowensClient.ResetStreamingState | bank2mqtt/client.py:521-538 | both checkpoint keys are gone and every other key is unchanged |
| Client.PowensClient.StreamNewTransactions | bank2mqtt/client.py:307-497 | the transactions yielded, the requests sent and the new cache are those of `Stream`; on an error the cache is untouched |
| Client.PowensClient.StartParams | bank2mqtt/client.py:337-354 | the first request's parameters are `InitialParams` |
| Client.PowensClient.FetchNewTransactions | bank2mqtt/client.py:356-440 | the fetching loop computes `Walk` |
| Client.PowensClient.ScanPage | bank2mqtt/client.py:398-424 | the inner loop computes `ScanBatch` |
| Client.PowensClient.YieldInOrder | bank2mqtt/client.py:457-490 | the yielding loop writes exactly `Checkpoint` into the cache |
| Client.ResetThenRead | bank2mqtt/client.py:499-538 | after a reset both getters return `None` |
| Database.TransactionDate | bank2mqtt/db.py:383-385 | the parsed `date`, `now` when it is absent, and an error exactly when it is malformed |
| Database.PowensDate | bank2mqtt/db.py:386-392 | the parsed `powens_date`, nothing when absent or falsy, and an error exactly when malformed |
| Database.FindTx | bank2mqtt/db.py:377-379 | the position of the row with that id, none before it, or none at all |
| Database.Upsert | bank2mqtt/db.py:370-416 | one entry of the batch; `DatabaseFacts.UpsertTable` proves it sets the row under the entry's id to `Stored` and keeps the id unique |
| Database.ApplyBatch | bank2mqtt/db.py:370-419 | the whole loop; `DatabaseFacts.ApplyBatchTable` proves it succeeds exactly when no entry it reads has a malformed date, and then equals the map fold `BatchTable` |
| Database.Latest | bank2mqtt/db.py:275-280 | `order_by(desc).first()`: nothing exactly when no row matches, otherwise a matching row no other matching row is later than |
| Database.LatestAuthentication | bank2mqtt/db.py:261-281 | `None` exactly when the account has no authentication, otherwise its latest registered one |
| Database.LatestSentTransaction | bank2mqtt/db.py:479-499 | `None` exactly when the account has no sent transaction, otherwise its latest sent one |
| Database.OfAccount | bank2mqtt/db.py:341-342 | exactly the account's rows |
| Database.SortByDateDesc | bank2mqtt/db.py:344 | latest first, and a permutation |
| Database.Window | bank2mqtt/db.py:346-350 | a slice that starts after the skipped rows and holds `limit` of them, or all the remaining rows when fewer remain or no `limit` is set |
| Database.QueryTransactions | bank2mqtt/db.py:319-352 | `get_transactions`; `DatabaseFacts.QueryShape`, `QueryWhole` and `QueryPages` prove it returns the account's rows latest first, all of them without offset or limit, in pages that fit together |
| Database.WithoutAccount | bank2mqtt/db.py:471-474 | the cascade removes every row of the account and keeps all others, as the `delete-orphan` cascade of lines 87-92 does |
| Database.WithoutAccountKeepsKey | bank2mqtt/db.py:106-126 | the cascade keeps unique keys unique |
| Database.DatabaseManager.constructor | bank2mqtt/db.py:147-162 | the manager opens on the stored tables, which satisfy their key and unique constraints (empty for a new database) |
| Database.DatabaseManager.GetOrCreateAccount | bank2mqtt/db.py:174-211 | the account for `(domain, client_id)` now has the given secret; an existing one is updated in place, otherwise a new id is added; at most one account per `(domain, client_id)` |
| Database.DatabaseManager.SaveAuthentication | bank2mqtt/db.py:213-259 | in both branches the accounts table is what `get_or_create_account` makes it (that account gets the secret, no other account changes); the returned row holds the token; an already stored token inserts nothing; otherwise a row for that account, registered `now`, is appended |
| Database.DatabaseManager.UpdateTransactions | bank2mqtt/db.py:354-422 | commits `ApplyBatch` of the table when it succeeds; otherwise it reports the error and the table is as before (the rollback of `with_session`, lines 30-48) |
| Database.DatabaseManager.DeleteAccount | bank2mqtt/db.py:459-477 | true exactly when the account existed; then it and its authentications and transactions are gone; otherwise nothing changes |
| DatabaseFacts.Stored | bank2mqtt/db.py:381-416 | an update keeps id, account, `sent` and `register_date`, and sets date and data, with `powens_date` only when supplied; an insert carries the account, `now`, `sent = False` (the column defaults of lines 128-131) and the data |
| DatabaseFacts.TableIs | bank2mqtt/db.py:126 | a keyed table is determined by the row under each id |
| DatabaseFacts.UpsertTable | bank2mqtt/db.py:376-416 | one accepted entry changes the table exactly under its id, keeps the key unique and appends only a new id |
| DatabaseFacts.UpsertInPlace | bank2mqtt/db.py:381-393 | an update in place changes the table only under its id |
| DatabaseFacts.UpsertAppends | bank2mqtt/db.py:395-416 | an insert adds exactly its id to the table |
| DatabaseFacts.ApplyBatchTable | bank2mqtt/db.py:354-422 | the batch commits exactly when no entry it reads has a malformed date, and then the table is the batch applied by primary key, the key unique, old rows in place and new rows with new ids |
| DatabaseFacts.SkipsFalsyIds | bank2mqtt/db.py:370-374 | entries with a missing or falsy id do not affect the outcome |
| DatabaseFacts.BatchTableFate | bank2mqtt/db.py:370-416 | with distinct ids, every entry's row is `Stored` from the table before the batch and every other row is unchanged |
| DatabaseFacts.BatchTableIdempotent | bank2mqtt/db.py:377-416 | applying the same batch twice gives the same table as once, the id being the primary key (line 126) |
| DatabaseFacts.UpdateIdempotent | bank2mqtt/db.py:354-422 | a second `update_transactions` with the same batch commits the table it finds, row for row |
| DatabaseFacts.QueryShape | bank2mqtt/db.py:319-352 | `get_transactions` returns only stored rows, of the account when one is given, latest first, at most `limit` of them |
| DatabaseFacts.WindowShape | bank2mqtt/db.py:344-350 | offset and limit keep the order and take only listed rows |
| DatabaseFacts.QueryWhole | bank2mqtt/db.py:339-352 | without offset or limit every row of the account is returned |
| DatabaseFacts.QueryPages | bank2mqtt/db.py:346-350 | a page of `limit n` at offset `o`, followed by everything from `o + n`, is everything from `o` |
| DatabaseFacts.SavedIsLatest | bank2mqtt/db.py:250-281 | an authentication registered after all others of its account is what `get_authentication` returns |

## Left out

- HTTP, `requests`, JSON decoding and `urlencode`. Responses are inputs, and the URLs and parameter maps are modelled before encoding. The `Authorization` header is not modelled.
- Failed requests: in the stream, `raise_for_status` and any other failed request are one `HttpError` carrying the request number, and a JSON decoding error is not modelled. In `authenticate` and `get_temp_code`, a `None` answer stands for any exception of the request, status check or decoding.
- `activate_account` (one POST whose answer is returned) and `from_env` (reads the environment): not part of the modelled core.
- Client.PowensClient.Authenticate: decoded answers are `None`, ints, strings or dicts of those. Lists and floats are not modelled. Any truthy `auth_token` is kept as the token, as in the source; an int one then raises `TypeError` from the `len` of the log line.
- Streaming.Walk: the source's pagination loop has no guard against a server that keeps sending the same `next` link, and then it requests pages forever. The model's answers are a finite sequence, so such a run ends with a request past its end, which fails like an HTTP error. Endless pagination is therefore not modelled.
- The md5 cache key and the on-disk `shelve` file: `_get_shelf`, `sync`, `close` and the context manager. The cache is its map. `items` is the same as `ToDict` and is not repeated.
- Logging, configuration, the CLI, the MQTT handlers, the global `_default_cache` and `_db_manager` singletons, and the test files.
- `datetime.fromisoformat` beyond the calendar date. A time or offset after `YYYY-MM-DD` is not checked, and a string of that shape is taken as parsed, whatever its separator character. Python rejects some of these suffixes.
- IsoDate.ParseIso: the compact and week/ordinal date forms that `fromisoformat` accepts from Python 3.11 on (`YYYYMMDD`, `YYYY-Www-D`, `YYYY-DDD` and the like) are rejected. The repository pins no Python version, and the model follows the `YYYY-MM-DD` form that every version since 3.7 accepts.
- `strftime` of years below 1000, which platforms pad differently: `Format` pads to four digits.
- Streaming.Tx: a transaction's `id` is an int or missing, and its `date` a string or missing. Ids of other types, and an explicit `null` date, are not modelled. Sorting on them would raise `TypeError`.
- Client.PowensClient.StreamNewTransactions: a checkpoint value of another type than the client itself writes (an id that is not an int, a date that is not a string) is excluded by `CheckpointSlots`. This holds as long as only the client writes those two keys.
- Streaming.SortByKey: `list.sort` is in place. It is modelled as a pure stable insertion sort whose result the method uses. Its stability is not stated as a contract; two kept transactions share a key only when, on the same date, one has id 0 and the other none.
- Generators: a generator abandoned part-way is modelled by the number of `next()` calls. What happens after the last call is not modelled.
- Client.PowensClient.StreamNewTransactions: an error raised by `_ensure_authenticated`, the `OverflowError` of the date widening, an HTTP error or a `TypeError` in the filter is raised by the first `next()` call. In every case the cache is unchanged. The model returns it instead of raising it.
- The SQLAlchemy engine and sessions, and foreign-key enforcement. SQLite does not enforce foreign keys by default, so rows may name an account that does not exist. `JSONType` is not modelled, and a transaction's `data` is the input entry itself.
- `get_accounts`, `get_account` and `get_authentication_by_credentials`: plain filtered reads, not part of the modelled core.
- Database.DatabaseManager.UpdateTransactions: two entries with one id in one batch are required not to occur. With `autoflush=False` a pending insert is not found by the second lookup, and the outcome depends on the ORM's flush.
- Database: transaction ids are compared as the Python values passed in. The `String(255)` column's conversion of an int id is not modelled.
- Database.QueryTransactions: SQL leaves the order of rows with equal dates unspecified. The model keeps table order for ties, and `get_authentication` / `latest_sent_transaction` return the first latest row.
- DatabaseFacts.BatchTableIdempotent: the statement assumes distinct ids, and the same `now` unless every entry carries its `date`.
- `sent` is never set to `True` by the modelled code. `latest_sent_transaction` is modelled over whatever rows carry it.
- Timestamps are abstract ordered integers. `utcnow()` is one `now` parameter per call.
