/** What `stream_new_transactions` promises (bank2mqtt/client.py:307-497),
    proved about the functions of module Streaming. */
module StreamingFacts {

  import opened Common
  import opened Text
  import opened Requests
  import opened Streaming

  // ---------------------------------------------------------------------
  // The filtering loop
  // ---------------------------------------------------------------------

  function Ids(s: seq<Tx>): set<Option<int>>
  {
    set k | 0 <= k < |s| :: s[k].id
  }

  /** A transaction that the checkpoint lets through. */
  predicate Passes(tx: Tx, lastId: Value)
  {
    AlreadyDelivered(tx.id, lastId) == Ok(false)
  }

  /** No two transactions share an id (a missing id counting as one id). */
  predicate DistinctIds(s: seq<Tx>)
  {
    forall i, j :: 0 <= i < j < |s| ==> s[i].id != s[j].id
  }

  /** `tx` occurs in `xs`, and no transaction before it has its id. */
  predicate FirstWithId(tx: Tx, xs: seq<Tx>)
  {
    exists j :: 0 <= j < |xs| && xs[j] == tx && forall k :: 0 <= k < j ==> xs[k].id != tx.id
  }

  /** What holds of the loop's state after it has looked at `xs`. */
  predicate ScanInv(st: ScanState, xs: seq<Tx>, lastId: Value)
  {
    && st.seen == Ids(st.kept)
    && DistinctIds(st.kept)
    && (forall k :: 0 <= k < |st.kept| ==> Passes(st.kept[k], lastId))
    && (forall k :: 0 <= k < |st.kept| ==> FirstWithId(st.kept[k], xs))
    && (forall j :: 0 <= j < |xs| && Passes(xs[j], lastId) ==> xs[j].id in st.seen)
  }

  lemma StepKeepsInv(st: ScanState, xs: seq<Tx>, y: Tx, lastId: Value)
    requires ScanInv(st, xs, lastId) && Step(st, y, lastId).Ok?
    ensures ScanInv(Step(st, y, lastId).value, xs + [y], lastId)
  {
    var st' := Step(st, y, lastId).value;
    var xs' := xs + [y];
    forall k | 0 <= k < |st.kept| ensures FirstWithId(st.kept[k], xs') {
      FirstWithIdExtends(st.kept[k], xs, y);
    }
    if y.id !in st.seen && AlreadyDelivered(y.id, lastId) == Ok(false) {
      assert st'.kept == st.kept + [y];
      forall i | 0 <= i < |xs| ensures xs'[i].id != y.id {
        assert xs'[i] == xs[i];
        if Passes(xs[i], lastId) {
          assert xs[i].id in st.seen;
        }
      }
      assert xs'[|xs|] == y;
      assert FirstWithId(y, xs');
      forall i | 0 <= i < |st.kept| ensures st.kept[i].id != y.id {
        assert st.kept[i].id in Ids(st.kept);
      }
      IdsAppend(st.kept, y);
    } else {
      assert st' == st;
      forall i | 0 <= i < |xs'| && Passes(xs'[i], lastId) ensures xs'[i].id in st.seen {
        if i < |xs| {
          assert xs'[i] == xs[i];
        }
      }
    }
  }

  lemma FirstWithIdExtends(tx: Tx, xs: seq<Tx>, y: Tx)
    requires FirstWithId(tx, xs)
    ensures FirstWithId(tx, xs + [y])
  {
    var j :| 0 <= j < |xs| && xs[j] == tx && forall i :: 0 <= i < j ==> xs[i].id != tx.id;
    assert (xs + [y])[j] == xs[j];
    assert forall i :: 0 <= i < j ==> (xs + [y])[i] == xs[i];
  }

  lemma IdsAppend(s: seq<Tx>, y: Tx)
    ensures Ids(s + [y]) == Ids(s) + {y.id}
  {
    var s' := s + [y];
    forall o ensures o in Ids(s') <==> o in Ids(s) + {y.id} {
      if o in Ids(s') {
        var k :| 0 <= k < |s'| && s'[k].id == o;
        if k < |s| {
          assert s[k].id in Ids(s);
        }
      }
      if o in Ids(s) {
        var k :| 0 <= k < |s| && s[k].id == o;
        assert s'[k] == s[k];
      }
      if o == y.id {
        assert s'[|s|] == y;
      }
    }
  }

  lemma {:induction false} ScanKeepsInv(st: ScanState, xs: seq<Tx>, ys: seq<Tx>, lastId: Value)
    requires ScanInv(st, xs, lastId) && ScanBatch(st, ys, lastId).Ok?
    ensures ScanInv(ScanBatch(st, ys, lastId).value, xs + ys, lastId)
    decreases |ys|
  {
    if ys == [] {
      assert xs + ys == xs;
    } else {
      StepKeepsInv(st, xs, ys[0], lastId);
      assert (xs + [ys[0]]) + ys[1..] == xs + ys;
      ScanKeepsInv(Step(st, ys[0], lastId).value, xs + [ys[0]], ys[1..], lastId);
    }
  }

  /** The inner loop run on `a` and then on `b` is the loop run on `a + b`. */
  lemma {:induction false} ScanConcat(st: ScanState, a: seq<Tx>, b: seq<Tx>, lastId: Value)
    ensures ScanBatch(st, a + b, lastId) ==
      match ScanBatch(st, a, lastId)
      case Err(e) => Err(e)
      case Ok(st') => ScanBatch(st', b, lastId)
    decreases |a|
  {
    if a == [] {
      assert a + b == b;
    } else {
      assert (a + b)[0] == a[0] && (a + b)[1..] == a[1..] + b;
      if Step(st, a[0], lastId).Ok? {
        ScanConcat(Step(st, a[0], lastId).value, a[1..], b, lastId);
      }
    }
  }

  /** With a truthy int checkpoint, the loop raises exactly when it meets a
      transaction without an id, and then with a `TypeError`. */
  lemma {:induction false} ScanFailsOnMissingId(st: ScanState, xs: seq<Tx>, lastId: Value)
    requires Truthy(lastId) && lastId.Int? && None !in st.seen
    ensures ScanBatch(st, xs, lastId).Err? <==> exists j :: 0 <= j < |xs| && xs[j].id.None?
    ensures ScanBatch(st, xs, lastId).Err? ==> ScanBatch(st, xs, lastId).error == IdTypeError
    decreases |xs|
  {
    if xs != [] {
      if xs[0].id.Some? {
        var st' := Step(st, xs[0], lastId).value;
        assert None !in st'.seen;
        ScanFailsOnMissingId(st', xs[1..], lastId);
        assert forall j :: 1 <= j < |xs| ==> xs[j] == xs[1..][j - 1];
        assert forall j :: 0 <= j < |xs| - 1 ==> xs[1..][j] == xs[j + 1];
      }
    }
  }

  // ---------------------------------------------------------------------
  // Pagination
  // ---------------------------------------------------------------------

  /** The transactions of a run of received pages, in order. */
  function Flatten(pages: seq<Response>): seq<Tx>
  {
    if pages == [] then []
    else (if pages[0].Received? then pages[0].page.transactions else []) + Flatten(pages[1..])
  }

  /** One step of a successful walk. */
  lemma WalkStep(pages: seq<Response>, i: nat, st: ScanState, params: Params, lastId: Value, made: seq<Params>)
    requires Walk(pages, i, st, params, lastId, made).Ok?
    ensures i < |pages| && pages[i].Received?
    ensures pages[i].page.transactions == [] ==>
      Walk(pages, i, st, params, lastId, made) == Ok(Walked(st, made + [params]))
    ensures pages[i].page.transactions != [] ==>
      var sc := ScanBatch(st, pages[i].page.transactions, lastId);
      var next := NextParams(pages[i].page.next, params);
      && sc.Ok?
      && (next.None? ==> Walk(pages, i, st, params, lastId, made) == Ok(Walked(sc.value, made + [params])))
      && (next.Some? ==> Walk(pages, i, st, params, lastId, made) ==
                         Walk(pages, i + 1, sc.value, next.value, lastId, made + [params]))
  {
  }

  lemma FlattenCons(pages: seq<Response>, i: nat, j: nat)
    requires i < j <= |pages| && pages[i].Received?
    ensures Flatten(pages[i..j]) == pages[i].page.transactions + Flatten(pages[i + 1..j])
  {
    assert pages[i..j][0] == pages[i];
    assert pages[i..j][1..] == pages[i + 1..j];
  }

  lemma ScanPagesCons(pages: seq<Response>, i: nat, j: nat, st: ScanState, st': ScanState, st'': ScanState, lastId: Value)
    requires i < j <= |pages| && pages[i].Received?
    requires ScanBatch(st, pages[i].page.transactions, lastId) == Ok(st')
    requires ScanBatch(st', Flatten(pages[i + 1..j]), lastId) == Ok(st'')
    ensures ScanBatch(st, Flatten(pages[i..j]), lastId) == Ok(st'')
  {
    FlattenCons(pages, i, j);
    ScanConcat(st, pages[i].page.transactions, Flatten(pages[i + 1..j]), lastId);
  }

  lemma WalkStops(pages: seq<Response>, i: nat, st: ScanState, params: Params,
                  lastId: Value, made: seq<Params>, w: Walked)
    requires Walk(pages, i, st, params, lastId, made) == Ok(w)
    requires i < |pages| && pages[i].Received?
    requires pages[i].page.transactions == [] || NextParams(pages[i].page.next, params).None?
    ensures w.requests == made + [params]
    ensures ScanBatch(st, Flatten(pages[i..i + 1]), lastId) == Ok(w.state)
  {
    FlattenCons(pages, i, i + 1);
    assert Flatten(pages[i + 1..i + 1]) == [];
    assert pages[i].page.transactions + [] == pages[i].page.transactions;
  }

  /** A successful walk sent at least one more request, and every one of them
      was answered. */
  lemma {:induction false} WalkAnswered(pages: seq<Response>, i: nat, st: ScanState, params: Params,
                                        lastId: Value, made: seq<Params>, w: Walked)
    requires |made| == i && Walk(pages, i, st, params, lastId, made) == Ok(w)
    ensures i < |w.requests| <= |pages|
    ensures w.requests[..i] == made
    ensures forall k :: i <= k < |w.requests| ==> pages[k].Received?
    decreases |pages| - i
  {
    WalkStep(pages, i, st, params, lastId, made);
    var page := pages[i].page;
    var next := NextParams(page.next, params);
    if page.transactions != [] && next.Some? {
      var made' := made + [params];
      WalkAnswered(pages, i + 1, ScanBatch(st, page.transactions, lastId).value, next.value, lastId, made', w);
      assert w.requests[..i] == w.requests[..i + 1][..i];
    }
  }

  /** The state of a successful walk is the inner loop run over the
      concatenation of the pages it received. */
  lemma {:induction false} WalkScansPages(pages: seq<Response>, i: nat, st: ScanState, params: Params,
                                          lastId: Value, made: seq<Params>, w: Walked)
    requires |made| == i && Walk(pages, i, st, params, lastId, made) == Ok(w)
    ensures i < |w.requests| <= |pages|
    ensures ScanBatch(st, Flatten(pages[i..|w.requests|]), lastId) == Ok(w.state)
    decreases |pages| - i
  {
    WalkStep(pages, i, st, params, lastId, made);
    var page := pages[i].page;
    var next := NextParams(page.next, params);
    if page.transactions == [] || next.None? {
      WalkStops(pages, i, st, params, lastId, made, w);
    } else {
      var st' := ScanBatch(st, page.transactions, lastId).value;
      WalkScansPages(pages, i + 1, st', next.value, lastId, made + [params], w);
      ScanPagesCons(pages, i, |w.requests|, st, st', w.state, lastId);
    }
  }

  /** From the `from`-th request on, each request but the last answered a
      non-empty page whose next link gave the following request. */
  predicate CursorChain(pages: seq<Response>, requests: seq<Params>, from: nat)
    requires |requests| <= |pages|
  {
    forall k :: from <= k < |requests| - 1 ==>
      && pages[k].Received?
      && pages[k].page.transactions != []
      && NextParams(pages[k].page.next, requests[k]) == Some(requests[k + 1])
  }

  lemma ChainExtends(pages: seq<Response>, requests: seq<Params>, i: nat)
    requires i + 1 < |requests| <= |pages| && CursorChain(pages, requests, i + 1)
    requires pages[i].Received? && pages[i].page.transactions != []
    requires NextParams(pages[i].page.next, requests[i]) == Some(requests[i + 1])
    ensures CursorChain(pages, requests, i)
  {
  }

  /** The requests a successful walk sends from the `i`-th on: the first
      carries `params`, and each later one the previous one's parameters with
      the `cursor` of the previous page's next link. */
  lemma {:induction false} WalkFollowsCursors(pages: seq<Response>, i: nat, st: ScanState, params: Params,
                                              lastId: Value, made: seq<Params>, w: Walked)
    requires |made| == i && Walk(pages, i, st, params, lastId, made) == Ok(w)
    ensures i < |w.requests| <= |pages|
    ensures w.requests[i] == params
    ensures CursorChain(pages, w.requests, i)
    decreases |pages| - i
  {
    WalkStep(pages, i, st, params, lastId, made);
    WalkAnswered(pages, i, st, params, lastId, made, w);
    var page := pages[i].page;
    var next := NextParams(page.next, params);
    if page.transactions != [] && next.Some? {
      var made' := made + [params];
      var st' := ScanBatch(st, page.transactions, lastId).value;
      WalkFollowsCursors(pages, i + 1, st', next.value, lastId, made', w);
      WalkAnswered(pages, i + 1, st', next.value, lastId, made', w);
      assert w.requests[i] == w.requests[..i + 1][i] == params;
      ChainExtends(pages, w.requests, i);
    } else {
      WalkStops(pages, i, st, params, lastId, made, w);
    }
  }

  /** The page a successful walk stopped on: its last request was answered
      by an empty page, or by a page whose next link carries no cursor. */
  predicate StopsOn(pages: seq<Response>, requests: seq<Params>)
    requires 0 < |requests| <= |pages|
  {
    var last := |requests| - 1;
    && pages[last].Received?
    && (pages[last].page.transactions == [] || NextParams(pages[last].page.next, requests[last]).None?)
  }

  /** A successful walk ends only where the `while True` loop breaks: on an
      empty page, or on a page without a next link carrying `cursor=`. */
  lemma {:induction false} WalkEndsOnStop(pages: seq<Response>, i: nat, st: ScanState, params: Params,
                                          lastId: Value, made: seq<Params>, w: Walked)
    requires |made| == i && Walk(pages, i, st, params, lastId, made) == Ok(w)
    ensures i < |w.requests| <= |pages|
    ensures StopsOn(pages, w.requests)
    decreases |pages| - i
  {
    WalkStep(pages, i, st, params, lastId, made);
    WalkAnswered(pages, i, st, params, lastId, made, w);
    var page := pages[i].page;
    var next := NextParams(page.next, params);
    if page.transactions != [] && next.Some? {
      var st' := ScanBatch(st, page.transactions, lastId).value;
      WalkEndsOnStop(pages, i + 1, st', next.value, lastId, made + [params], w);
    } else {
      WalkStops(pages, i, st, params, lastId, made, w);
      assert w.requests[i] == params;
    }
  }

  // ---------------------------------------------------------------------
  // Ordering
  // ---------------------------------------------------------------------

  lemma {:induction false} InsertKeepsDistinct(x: Tx, s: seq<Tx>)
    requires SortedByKey(s) && DistinctIds(s)
    requires forall k :: 0 <= k < |s| ==> s[k].id != x.id
    ensures DistinctIds(Insert(x, s))
    decreases |s|
  {
    if s != [] && !KeyLess(x, s[0]) {
      InsertKeepsDistinct(x, s[1..]);
      ConsDistinct(s[0], x, s[1..], Insert(x, s[1..]));
    }
  }

  lemma ConsDistinct(h: Tx, x: Tx, t: seq<Tx>, r': seq<Tx>)
    requires DistinctIds([h] + t) && h.id != x.id
    requires DistinctIds(r') && multiset(r') == multiset(t) + multiset{x}
    ensures DistinctIds([h] + r')
  {
    forall k | 0 <= k < |r'| ensures r'[k].id != h.id {
      assert r'[k] in multiset(r');
      if r'[k] != x {
        assert r'[k] in t;
        var i :| 0 <= i < |t| && t[i] == r'[k];
        assert ([h] + t)[i + 1] == t[i] && ([h] + t)[0] == h;
      }
    }
    var r := [h] + r';
    forall i, j | 0 <= i < j < |r| ensures r[i].id != r[j].id {
      assert r[j] == r'[j - 1];
      if i > 0 {
        assert r[i] == r'[i - 1];
      }
    }
  }

  /** Sorting keeps the ids distinct. */
  lemma {:induction false} SortKeepsDistinct(s: seq<Tx>)
    requires DistinctIds(s)
    ensures DistinctIds(SortByKey(s))
    decreases |s|
  {
    if s != [] {
      var init := s[..|s| - 1];
      var x := s[|s| - 1];
      SortKeepsDistinct(init);
      var sorted := SortByKey(init);
      forall k | 0 <= k < |sorted| ensures sorted[k].id != x.id {
        assert sorted[k] in multiset(sorted);
        assert sorted[k] in init;
      }
      InsertKeepsDistinct(x, sorted);
    }
  }

  // ---------------------------------------------------------------------
  // Checkpoint
  // ---------------------------------------------------------------------

  /** The stored id is the largest non-zero id yielded, or the previous one if
      that is larger: it never decreases, it bounds every yielded non-zero id,
      and it is either the previous value or one of the yielded ids. */
  lemma {:induction false} MaxIdIsMaximum(cur: Value, txs: seq<Tx>)
    requires IdSlot(cur)
    ensures var r := MaxId(cur, txs);
      && (Truthy(cur) ==> Truthy(r) && r.Int? && r.i >= cur.i)
      && (forall j :: 0 <= j < |txs| && txs[j].id.Some? && txs[j].id.value != 0 ==>
            Truthy(r) && r.Int? && r.i >= txs[j].id.value)
      && (r == cur || (r.Int? && exists j :: 0 <= j < |txs| && txs[j].id == Some(r.i)))
    decreases |txs|
  {
    if txs != [] {
      var a := AdvanceId(cur, txs[0]);
      MaxIdIsMaximum(a, txs[1..]);
      var r := MaxId(cur, txs);
      assert r == MaxId(a, txs[1..]);
      forall j | 0 <= j < |txs| && txs[j].id.Some? && txs[j].id.value != 0
        ensures Truthy(r) && r.Int? && r.i >= txs[j].id.value
      {
        if j > 0 {
          assert txs[j] == txs[1..][j - 1];
        }
      }
      if r != cur && r != a {
        var j :| 0 <= j < |txs[1..]| && txs[1..][j].id == Some(r.i);
        assert txs[j + 1].id == Some(r.i);
      }
    }
  }

  /** The stored date is the latest non-empty date yielded (in string order),
      or the previous one if that is later. */
  lemma {:induction false} MaxDateIsMaximum(cur: Value, txs: seq<Tx>)
    requires DateSlot(cur)
    ensures var r := MaxDate(cur, txs);
      && (Truthy(cur) ==> Truthy(r) && r.Str? && (r == cur || StrLess(cur.s, r.s)))
      && (forall j :: 0 <= j < |txs| && txs[j].date.Some? && txs[j].date.value != "" ==>
            Truthy(r) && r.Str? && (r.s == txs[j].date.value || StrLess(txs[j].date.value, r.s)))
      && (r == cur || (r.Str? && exists j :: 0 <= j < |txs| && txs[j].date == Some(r.s)))
    decreases |txs|
  {
    if txs != [] {
      var a := AdvanceDate(cur, txs[0]);
      MaxDateIsMaximum(a, txs[1..]);
      var r := MaxDate(cur, txs);
      assert r == MaxDate(a, txs[1..]);
      if Truthy(cur) && a != cur && r != a {
        StrLessTransitive(cur.s, a.s, r.s);
      }
      forall j | 0 <= j < |txs| && txs[j].date.Some? && txs[j].date.value != ""
        ensures Truthy(r) && r.Str? && (r.s == txs[j].date.value || StrLess(txs[j].date.value, r.s))
      {
        var d := txs[j].date.value;
        if j > 0 {
          assert txs[j] == txs[1..][j - 1];
        } else {
          if a.s != d {
            StrLessTotal(a.s, d);
          }
          if a.s != d && r != a {
            StrLessTransitive(d, a.s, r.s);
          }
        }
      }
      if r != cur && r != a {
        var j :| 0 <= j < |txs[1..]| && txs[1..][j].date == Some(r.s);
        assert txs[j + 1].date == Some(r.s);
      }
    }
  }

  /** Each yield writes the id slot and, once a date is known, the date slot;
      nothing else in the cache changes. */
  lemma {:induction false} CheckpointWrites(cache: map<string, Value>, curId: Value, curDate: Value, txs: seq<Tx>)
    requires IdSlot(curId) && DateSlot(curDate)
    ensures var r := Checkpoint(cache, curId, curDate, txs);
      && (forall k :: k != IdKey && k != DateKey ==> (k in r <==> k in cache))
      && (forall k :: k != IdKey && k != DateKey && k in cache ==> r[k] == cache[k])
      && (txs == [] ==> r == cache)
      && (txs != [] ==> IdKey in r && r[IdKey] == MaxId(curId, txs))
      && (txs != [] && Truthy(MaxDate(curDate, txs)) ==> DateKey in r && r[DateKey] == MaxDate(curDate, txs))
      && (!Truthy(MaxDate(curDate, txs)) ==> StoredDate(r) == StoredDate(cache))
    decreases |txs|
  {
    if txs != [] {
      var id' := AdvanceId(curId, txs[0]);
      var date' := AdvanceDate(curDate, txs[0]);
      var cache' := cache[IdKey := id'];
      var cache'' := if Truthy(date') then cache'[DateKey := date'] else cache';
      CheckpointWrites(cache'', id', date', txs[1..]);
      MaxDateIsMaximum(date', txs[1..]);
    }
  }

  // ---------------------------------------------------------------------
  // The whole run
  // ---------------------------------------------------------------------

  /** How a run with at least one `next()` call that did not raise came
      about. */
  lemma StreamUnfold(cache: map<string, Value>, authToken: Value, pages: seq<Response>,
                     limit: int, kwargs: Params, pulls: nat, run: Run)
    returns (params: Params, w: Walked)
    requires CheckpointSlots(cache) && pulls > 0
    requires Stream(cache, authToken, pages, limit, kwargs, pulls) == Ok(run)
    ensures EnsureAuthenticated(authToken).Pass?
    ensures InitialParams(limit, kwargs, StoredId(cache), StoredDate(cache)) == Ok(params)
    ensures Walk(pages, 0, ScanState({}, []), params, StoredId(cache), []) == Ok(w)
    ensures run.requests == w.requests
    ensures var sorted := SortByKey(w.state.kept);
      run.yielded == sorted[..if pulls < |sorted| then pulls else |sorted|]
    ensures run.cache == Checkpoint(cache, StoredId(cache), StoredDate(cache), run.yielded)
  {
    params := InitialParams(limit, kwargs, StoredId(cache), StoredDate(cache)).value;
    w := Walk(pages, 0, ScanState({}, []), params, StoredId(cache), []).value;
  }

  /** What the fetching loop of a successful walk from the first request
      gathered, in terms of the transactions on the pages it received. */
  lemma WalkGathers(pages: seq<Response>, params: Params, lastId: Value, w: Walked)
    requires Walk(pages, 0, ScanState({}, []), params, lastId, []) == Ok(w)
    ensures 0 < |w.requests| <= |pages|
    ensures forall k :: 0 <= k < |w.requests| ==> pages[k].Received?
    ensures ScanInv(w.state, Flatten(pages[..|w.requests|]), lastId)
  {
    WalkAnswered(pages, 0, ScanState({}, []), params, lastId, [], w);
    WalkScansPages(pages, 0, ScanState({}, []), params, lastId, [], w);
    var xs := Flatten(pages[..|w.requests|]);
    assert pages[0..|w.requests|] == pages[..|w.requests|];
    assert ScanInv(ScanState({}, []), [], lastId);
    ScanKeepsInv(ScanState({}, []), [], xs, lastId);
    assert [] + xs == xs;
  }

  /** A prefix of the sorted transactions gathered keeps every property the
      gathering loop established, and is in order. */
  lemma SortedPrefixOfGathered(st: ScanState, xs: seq<Tx>, lastId: Value, n: nat)
    requires ScanInv(st, xs, lastId) && n <= |st.kept|
    ensures var y := SortByKey(st.kept)[..n];
      && SortedByKey(y)
      && DistinctIds(y)
      && forall k :: 0 <= k < |y| ==> Passes(y[k], lastId) && FirstWithId(y[k], xs)
  {
    var sorted := SortByKey(st.kept);
    SortKeepsDistinct(st.kept);
    PrefixKeepsOrder(sorted, n);
    var y := sorted[..n];
    forall k | 0 <= k < |y| ensures Passes(y[k], lastId) && FirstWithId(y[k], xs) {
      assert y[k] == sorted[k] && sorted[k] in multiset(sorted);
      var j :| 0 <= j < |st.kept| && st.kept[j] == sorted[k];
    }
  }

  lemma PrefixKeepsOrder(s: seq<Tx>, n: nat)
    requires SortedByKey(s) && DistinctIds(s) && n <= |s|
    ensures SortedByKey(s[..n]) && DistinctIds(s[..n])
  {
    var y := s[..n];
    assert forall i :: 0 <= i < |y| ==> y[i] == s[i];
  }

  /** The transactions a run hands out were all on pages the API returned;
      each is the first one on those pages with its id, no two share an id,
      and none was already delivered according to the stored id. They come
      in ascending `(date, id)` order. */
  lemma StreamYieldsNewTransactions(cache: map<string, Value>, authToken: Value, pages: seq<Response>,
                                    limit: int, kwargs: Params, pulls: nat, run: Run)
    requires CheckpointSlots(cache)
    requires Stream(cache, authToken, pages, limit, kwargs, pulls) == Ok(run)
    ensures |run.requests| <= |pages|
    ensures forall k :: 0 <= k < |run.requests| ==> pages[k].Received?
    ensures |run.yielded| <= pulls
    ensures SortedByKey(run.yielded)
    ensures DistinctIds(run.yielded)
    ensures forall k :: 0 <= k < |run.yielded| ==>
      && Passes(run.yielded[k], StoredId(cache))
      && FirstWithId(run.yielded[k], Flatten(pages[..|run.requests|]))
  {
    if pulls > 0 {
      var params, w := StreamUnfold(cache, authToken, pages, limit, kwargs, pulls, run);
      WalkGathers(pages, params, StoredId(cache), w);
      SortedPrefixOfGathered(w.state, Flatten(pages[..|w.requests|]), StoredId(cache), |run.yielded|);
    }
  }

  /** A consumer that keeps calling `next()` until the generator is exhausted
      receives every transaction the stored id lets through: each such
      transaction on the fetched pages has its id among those yielded. */
  lemma StreamIsComplete(cache: map<string, Value>, authToken: Value, pages: seq<Response>,
                         limit: int, kwargs: Params, pulls: nat, run: Run)
    requires CheckpointSlots(cache)
    requires Stream(cache, authToken, pages, limit, kwargs, pulls) == Ok(run)
    requires |run.yielded| < pulls
    ensures |run.requests| <= |pages|
    ensures var xs := Flatten(pages[..|run.requests|]);
      forall j :: 0 <= j < |xs| && Passes(xs[j], StoredId(cache)) ==>
        exists k :: 0 <= k < |run.yielded| && run.yielded[k].id == xs[j].id
  {
    var params, w := StreamUnfold(cache, authToken, pages, limit, kwargs, pulls, run);
    WalkGathers(pages, params, StoredId(cache), w);
    var xs := Flatten(pages[..|w.requests|]);
    var kept := w.state.kept;
    var sorted := SortByKey(kept);
    assert run.yielded == sorted;
    forall j | 0 <= j < |xs| && Passes(xs[j], StoredId(cache))
      ensures exists k :: 0 <= k < |sorted| && sorted[k].id == xs[j].id
    {
      assert xs[j].id in Ids(kept);
      var i :| 0 <= i < |kept| && kept[i].id == xs[j].id;
      assert kept[i] in multiset(kept);
      assert kept[i] in sorted;
    }
  }

  /** The first request carries the initial parameters (with `min_date` when
      only a date is stored); each later one repeats the previous parameters
      with the cursor of the previous page's next link. */
  lemma StreamFollowsCursors(cache: map<string, Value>, authToken: Value, pages: seq<Response>,
                             limit: int, kwargs: Params, pulls: nat, run: Run)
    requires CheckpointSlots(cache) && pulls > 0
    requires Stream(cache, authToken, pages, limit, kwargs, pulls) == Ok(run)
    ensures 0 < |run.requests| <= |pages|
    ensures Ok(run.requests[0]) == InitialParams(limit, kwargs, StoredId(cache), StoredDate(cache))
    ensures forall k :: 0 <= k < |run.requests| - 1 ==>
      && pages[k].Received?
      && pages[k].page.transactions != []
      && NextParams(pages[k].page.next, run.requests[k]) == Some(run.requests[k + 1])
    ensures StopsOn(pages, run.requests)
  {
    var params, w := StreamUnfold(cache, authToken, pages, limit, kwargs, pulls, run);
    WalkFollowsCursors(pages, 0, ScanState({}, []), params, StoredId(cache), [], w);
    WalkEndsOnStop(pages, 0, ScanState({}, []), params, StoredId(cache), [], w);
  }

  /** After a run, the cache holds the new checkpoint and nothing else has
      changed; a run that yields nothing writes nothing. */
  lemma StreamUpdatesCheckpoint(cache: map<string, Value>, authToken: Value, pages: seq<Response>,
                                limit: int, kwargs: Params, pulls: nat, run: Run)
    requires CheckpointSlots(cache)
    requires Stream(cache, authToken, pages, limit, kwargs, pulls) == Ok(run)
    ensures CheckpointSlots(run.cache)
    ensures forall k :: k != IdKey && k != DateKey ==> (k in run.cache <==> k in cache)
    ensures forall k :: k != IdKey && k != DateKey && k in cache ==> run.cache[k] == cache[k]
    ensures run.yielded == [] ==> run.cache == cache
    ensures run.yielded != [] ==> StoredId(run.cache) == MaxId(StoredId(cache), run.yielded)
    ensures Truthy(MaxDate(StoredDate(cache), run.yielded)) ==>
      StoredDate(run.cache) == MaxDate(StoredDate(cache), run.yielded)
    ensures !Truthy(MaxDate(StoredDate(cache), run.yielded)) ==> StoredDate(run.cache) == StoredDate(cache)
  {
    if pulls > 0 {
      var params, w := StreamUnfold(cache, authToken, pages, limit, kwargs, pulls, run);
      CheckpointWrites(cache, StoredId(cache), StoredDate(cache), run.yielded);
      MaxDateIsMaximum(StoredDate(cache), run.yielded);
    }
  }

  /** Nothing a run yields is yielded again by the next run: the stored id
      afterwards is at least every non-zero id yielded, so the next run's
      filter skips them. */
  lemma StreamNeverRedelivers(cache: map<string, Value>, authToken: Value, pages: seq<Response>,
                              limit: int, kwargs: Params, pulls: nat, run: Run)
    requires CheckpointSlots(cache)
    requires Stream(cache, authToken, pages, limit, kwargs, pulls) == Ok(run)
    ensures forall k :: 0 <= k < |run.yielded| && run.yielded[k].id.Some? && run.yielded[k].id.value != 0 ==>
      AlreadyDelivered(run.yielded[k].id, StoredId(run.cache)) == Ok(true)
  {
    StreamUpdatesCheckpoint(cache, authToken, pages, limit, kwargs, pulls, run);
    MaxIdIsMaximum(StoredId(cache), run.yielded);
  }
}
