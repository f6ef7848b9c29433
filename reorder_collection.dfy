/** The collection reordering of `src/reorder_collection.py`: its own
    GraphQL attempt loop, the paged product listing, the discount and the
    stable sort by it, the batched `collectionReorderProducts` moves and the
    polling of the jobs they start. */
module ReorderCollection {
  import opened Wrappers
  import opened Strings
  import opened Seqs
  import opened Json
  import opened Http

  // ---------------------------------------------------------------------
  // graphql

  /** A response body: not JSON, or whether it has an `errors` key and its
      `data` when present. */
  datatype CallBody = Unparsable | CallBody(errorsKey: bool, data: Option<Json>)

  datatype CallResponse = CallResponse(status: int, retryAfter: RetryAfter, body: CallBody)

  /** Why `graphql` raised: a Retry-After `float` rejects, an HTTP status
      from 400 up, an `errors` key, no `data` key, or every attempt used. */
  datatype CallError = BadRetryAfter | HttpStatus(status: int) | GraphqlErrors | NoData | Exhausted

  /** The sleep for a 429 without Retry-After. */
  const DefaultRetryAfterMs: nat := 2000

  /** Attempt `a` (counting from 0) of `graphql`; the source's attempt
      number is `a + 1`. The backoff argument is unused: this loop derives
      its sleeps from the attempt number. */
  function CallStep(ev: Event<CallResponse>, a: nat): Attempt<Json, CallError> {
    var retry: Step<Json, CallError> := Again(Fixed(CappedStepMs(a + 1)), 0);
    if !ev.Delivered? then Attempt(false, retry)
    else
      var r := ev.response;
      if r.status == 429 then
        (match r.retryAfter
         case NoHeader => Attempt(false, Again(Fixed(DefaultRetryAfterMs), 0))
         case Seconds(ms) => Attempt(false, Again(Fixed(ms), 0))
         case _ => Attempt(false, Fail(BadRetryAfter)))
      else if 500 <= r.status < 600 then Attempt(false, retry)
      else if r.status >= 400 then Attempt(false, Fail(HttpStatus(r.status)))
      else if r.body.Unparsable? then Attempt(false, retry)
      else if r.body.errorsKey then Attempt(false, Fail(GraphqlErrors))
      else if r.body.data.None? then Attempt(false, Fail(NoData))
      else Attempt(false, Done(r.body.data.value))
  }

  function CallAt(net: nat -> Event<CallResponse>): (nat, nat) -> Attempt<Json, CallError> {
    (a: nat, b: nat) => CallStep(net(a), a)
  }

  /** `range(1, max_retries + 1)`. */
  function CallTries(maxRetries: int): nat {
    if maxRetries > 0 then maxRetries else 0
  }

  /** The time `_last_call_ts` holds after the first `m` attempts. */
  function CallTsAfter(start: int, net: nat -> Event<CallResponse>, after: nat -> int, m: nat): int {
    if m == 0 then start
    else if net(m - 1).Delivered? then after(m - 1)
    else CallTsAfter(start, net, after, m - 1)
  }

  /** The throttle sleeps of the first `m` attempts: each tops the time
      since the last recorded call up to `minInterval`. */
  function Throttles(start: int, net: nat -> Event<CallResponse>, clock: nat -> int, after: nat -> int,
                     minInterval: int, m: nat): (t: seq<nat>)
    ensures |t| == m
    ensures forall i :: 0 <= i < m ==>
      t[i] == MinIntervalWait(clock(i) - CallTsAfter(start, net, after, i), minInterval)
  {
    if m == 0 then []
    else Throttles(start, net, clock, after, minInterval, m - 1)
         + [MinIntervalWait(clock(m - 1) - CallTsAfter(start, net, after, m - 1), minInterval)]
  }

  class Reorder {
    var minIntervalMs: int
    var maxRetries: int
    var lastCallTs: int

    /** The client's spacing and retry settings; `None` when the variable
        is unset: 700 ms and 5 attempts. */
    constructor(minIntervalEnv: Option<int>, maxRetriesEnv: Option<int>)
      ensures minIntervalMs == minIntervalEnv.GetOr(700) && maxRetries == maxRetriesEnv.GetOr(5)
      ensures lastCallTs == 0
    {
      minIntervalMs := minIntervalEnv.GetOr(700);
      maxRetries := maxRetriesEnv.GetOr(5);
      lastCallTs := 0;
    }

    /** One attempt: the throttle against the last call, then the post;
        a delivered answer records the time `ts`. */
    method CallTry(ev: Event<CallResponse>, a: nat, now: int, ts: int) returns (s: Attempt<Json, CallError>, wait: nat)
      modifies this`lastCallTs
      ensures wait == MinIntervalWait(now - old(lastCallTs), minIntervalMs)
      ensures s == CallStep(ev, a)
      ensures lastCallTs == if ev.Delivered? then ts else old(lastCallTs)
    {
      wait := MinIntervalWait(now - lastCallTs, minIntervalMs);
      if ev.Delivered? {
        lastCallTs := ts;
      }
      s := CallStep(ev, a);
    }

    /** `graphql`. Attempt `a` meets `net(a)` on the wire, reads the clock
        `clock(a)` when throttling and records `after(a)`. Returned: the
        result, the throttle sleeps and the attempts. */
    method Graphql(net: nat -> Event<CallResponse>, clock: nat -> int, after: nat -> int)
      returns (out: Result<Json, CallError>, throttles: seq<nat>, attempts: seq<Attempt<Json, CallError>>)
      modifies this`lastCallTs
      ensures attempts == Trace(CallAt(net), CallTries(maxRetries), 0, 0)
      ensures out == Outcome(attempts, Exhausted)
      ensures throttles == Throttles(old(lastCallTs), net, clock, after, minIntervalMs, |attempts|)
      ensures lastCallTs == CallTsAfter(old(lastCallTs), net, after, |attempts|)
    {
      ghost var start := lastCallTs;
      ghost var at := CallAt(net);
      var n := CallTries(maxRetries);
      attempts := [];
      throttles := [];
      for attempt := 0 to n
        invariant |attempts| == attempt
        invariant Trace(at, n, 0, 0) == attempts + Trace(at, n, attempt, 0)
        invariant lastCallTs == CallTsAfter(start, net, after, attempt)
        invariant throttles == Throttles(start, net, clock, after, minIntervalMs, attempt)
        invariant attempts == [] || attempts[|attempts| - 1].next.Again?
      {
        var s;
        s, attempts, throttles := GraphqlRound(net, clock, after, n, attempt, attempts, throttles, start);
        if s.next.Done? {
          out := Ok(s.next.value);
          return;
        } else if s.next.Fail? {
          out := Err(s.next.error);
          return;
        }
      }
      assert Trace(at, n, n, 0) == [];
      out := Err(Exhausted);
    }

    /** Attempt `attempt` of `graphql`, with what it adds to the attempts
        and the throttle sleeps. */
    method GraphqlRound(net: nat -> Event<CallResponse>, clock: nat -> int, after: nat -> int, n: nat, attempt: nat,
                        attempts: seq<Attempt<Json, CallError>>, throttles: seq<nat>, ghost start: int)
      returns (s: Attempt<Json, CallError>, attempts': seq<Attempt<Json, CallError>>, throttles': seq<nat>)
      modifies this`lastCallTs
      requires attempt < n && |attempts| == attempt
      requires Trace(CallAt(net), n, 0, 0) == attempts + Trace(CallAt(net), n, attempt, 0)
      requires lastCallTs == CallTsAfter(start, net, after, attempt)
      requires throttles == Throttles(start, net, clock, after, minIntervalMs, attempt)
      ensures attempts' == attempts + [s]
      ensures s.next.Again? ==> Trace(CallAt(net), n, 0, 0) == attempts' + Trace(CallAt(net), n, attempt + 1, 0)
      ensures !s.next.Again? ==> Trace(CallAt(net), n, 0, 0) == attempts'
      ensures lastCallTs == CallTsAfter(start, net, after, attempt + 1)
      ensures throttles' == Throttles(start, net, clock, after, minIntervalMs, attempt + 1)
    {
      ghost var at := CallAt(net);
      var wait;
      s, wait := CallTry(net(attempt), attempt, clock(attempt), after(attempt));
      assert s == at(attempt, 0);
      TraceAdvance(at, n, 0, attempts, attempt, 0);
      attempts' := attempts + [s];
      throttles' := throttles + [wait];
    }
  }

  /** At most `max_retries` posts. */
  lemma CallSendsAtMost(net: nat -> Event<CallResponse>, maxRetries: int)
    ensures |Trace(CallAt(net), CallTries(maxRetries), 0, 0)| <= CallTries(maxRetries)
  {
    TraceBound(CallAt(net), CallTries(maxRetries), 0, 0);
  }

  /** Attempt `i` of the trace is `CallStep` on `net(i)`. */
  lemma CallTraceAt(net: nat -> Event<CallResponse>, maxRetries: int, i: nat)
    requires i < |Trace(CallAt(net), CallTries(maxRetries), 0, 0)|
    ensures Trace(CallAt(net), CallTries(maxRetries), 0, 0)[i] == CallStep(net(i), i)
  {
    TraceAt(CallAt(net), CallTries(maxRetries), 0, 0, i);
  }

  /** A timeout, a failed connection, a 5xx or a body that is not JSON on
      attempt `a + 1` sleeps `min(2^a, 8)` seconds and tries again. */
  lemma CallStepRetries(ev: Event<CallResponse>, a: nat)
    requires !ev.Delivered? || 500 <= ev.response.status < 600
             || (ev.response.status < 400 && ev.response.body.Unparsable?)
    ensures CallStep(ev, a).next == Again(Fixed(CappedStepMs(a + 1)), 0)
    ensures a <= 3 ==> CappedStepMs(a + 1) == 1000 * Pow2(a)
    ensures a >= 3 ==> CappedStepMs(a + 1) == 8000
  {
    CappedStepSchedule(a + 1);
  }

  /** A 429 sleeps its Retry-After, two seconds without one, and raises
      when the header is there but not a number. */
  lemma CallStepRateLimited(ev: Event<CallResponse>, a: nat)
    requires ev.Delivered? && ev.response.status == 429
    ensures ev.response.retryAfter == NoHeader ==> CallStep(ev, a).next == Again(Fixed(2000), 0)
    ensures ev.response.retryAfter.Seconds? ==> CallStep(ev, a).next == Again(Fixed(ev.response.retryAfter.ms), 0)
    ensures ev.response.retryAfter.Malformed? || ev.response.retryAfter.EmptyHeader? ==> CallStep(ev, a).next == Fail(BadRetryAfter)
  {
  }

  /** Any other status from 400 up raises at once; an `errors` key raises
      whatever it holds. */
  lemma CallStepRaises(ev: Event<CallResponse>, a: nat)
    requires ev.Delivered?
    ensures var st := ev.response.status;
      st >= 400 && st != 429 && !(500 <= st < 600) ==> CallStep(ev, a).next == Fail(HttpStatus(st))
    ensures ev.response.status < 400 && ev.response.body.CallBody? && ev.response.body.errorsKey
            ==> CallStep(ev, a).next == Fail(GraphqlErrors)
  {
  }

  /** A value comes back only from an answer below 400 with a parsable body,
      no `errors` key and that `data`. */
  lemma CallOkMeans(net: nat -> Event<CallResponse>, maxRetries: int, j: Json)
    ensures var t := Trace(CallAt(net), CallTries(maxRetries), 0, 0);
      Outcome(t, Exhausted) == Ok(j) ==>
        var ev := net(|t| - 1);
        ev.Delivered? && ev.response.status < 400 && ev.response.status != 429
        && ev.response.body == CallBody(false, Some(j))
  {
    var t := Trace(CallAt(net), CallTries(maxRetries), 0, 0);
    if Outcome(t, Exhausted) == Ok(j) {
      CallTraceAt(net, maxRetries, |t| - 1);
    }
  }

  /** "GraphQL failed after N tentativi" is raised only once every one of
      the `max_retries` attempts ended in a sleep. */
  lemma CallExhaustedMeans(net: nat -> Event<CallResponse>, maxRetries: int, i: nat)
    ensures var t := Trace(CallAt(net), CallTries(maxRetries), 0, 0);
      Outcome(t, Exhausted) == Err(Exhausted) && i < |t| ==> |t| == CallTries(maxRetries) && t[i].next.Again?
  {
    var at := CallAt(net);
    var t := Trace(at, CallTries(maxRetries), 0, 0);
    if Outcome(t, Exhausted) == Err(Exhausted) && i < |t| {
      CallTraceAt(net, maxRetries, |t| - 1);
      assert t[|t| - 1].next != Fail(Exhausted);
      ExhaustedMeansAllRetried(at, CallTries(maxRetries), 0, Exhausted, i);
    }
  }

  // ---------------------------------------------------------------------
  // get_collection_products

  datatype VariantNode = VariantNode(price: string, compareAtPrice: Option<string>)

  /** A product node with its first variant, if it has any. */
  datatype ProductNode = ProductNode(id: string, title: string, handle: string, firstVariant: Option<VariantNode>)

  datatype ProductsPage = ProductsPage(nodes: seq<ProductNode>, hasNextPage: bool, endCursor: Option<string>)

  /** One record of the listing. */
  datatype Item = Item(id: string, title: string, handle: string, price: real, compareAtPrice: Option<real>)

  datatype ListError = ListCall(error: CallError) | CollectionNotFound | PageLimit

  predicate HasVariant(n: ProductNode) {
    n.firstVariant.Some?
  }

  /** The record of a product with a variant: prices from that variant, no
      compare-at price when the field is null or empty. */
  function ItemOf(n: ProductNode, toFloat: string -> real): Item
    requires HasVariant(n)
  {
    var v := n.firstVariant.value;
    Item(n.id, n.title, n.handle, toFloat(v.price),
         if v.compareAtPrice.Some? && v.compareAtPrice.value != "" then Some(toFloat(v.compareAtPrice.value)) else None)
  }

  /** The records of one page: products without variants are skipped, the
      rest kept in order. */
  function PageItems(nodes: seq<ProductNode>, toFloat: string -> real): (items: seq<Item>)
    ensures |items| == |Filter(nodes, HasVariant)|
    ensures forall i :: 0 <= i < |items| ==>
      HasVariant(Filter(nodes, HasVariant)[i]) && items[i] == ItemOf(Filter(nodes, HasVariant)[i], toFloat)
  {
    if nodes == [] then []
    else if HasVariant(nodes[0]) then [ItemOf(nodes[0], toFloat)] + PageItems(nodes[1..], toFloat)
    else PageItems(nodes[1..], toFloat)
  }

  /** The `after` argument: only a non-empty cursor is sent. */
  function AfterArg(cursor: Option<string>): Option<string> {
    if cursor.Some? && cursor.value != "" then cursor else None
  }

  function Prepend(xs: seq<Item>, r: Result<seq<Item>, ListError>): Result<seq<Item>, ListError> {
    if r.Ok? then Ok(xs + r.value) else r
  }

  /** The listing from `cursor` on, reading at most `fuel` pages; `fetch`
      answers a page request with the collection's page, or `None` when
      the collection is missing. */
  function Crawl(fetch: Option<string> -> Result<Option<ProductsPage>, CallError>, cursor: Option<string>,
                 fuel: nat, toFloat: string -> real): Result<seq<Item>, ListError>
    decreases fuel
  {
    if fuel == 0 then Err(PageLimit)
    else
      match fetch(AfterArg(cursor))
      case Err(e) => Err(ListCall(e))
      case Ok(None) => Err(CollectionNotFound)
      case Ok(Some(page)) =>
        if !page.hasNextPage then Ok(PageItems(page.nodes, toFloat))
        else Prepend(PageItems(page.nodes, toFloat), Crawl(fetch, page.endCursor, fuel - 1, toFloat))
  }

  /** `get_collection_products`, reading at most `maxPages` pages. */
  method GetCollectionProducts(fetch: Option<string> -> Result<Option<ProductsPage>, CallError>,
                               toFloat: string -> real, maxPages: nat)
    returns (out: Result<seq<Item>, ListError>)
    ensures out == Crawl(fetch, None, maxPages, toFloat)
  {
    var products: seq<Item> := [];
    var cursor: Option<string> := None;
    PrependAssoc([], [], Crawl(fetch, None, maxPages, toFloat));
    var page := 0;
    while true
      invariant 0 <= page <= maxPages
      invariant Crawl(fetch, None, maxPages, toFloat) == Prepend(products, Crawl(fetch, cursor, maxPages - page, toFloat))
      decreases maxPages - page
    {
      if page == maxPages {
        return Err(PageLimit);
      }
      var answer := fetch(AfterArg(cursor));
      if answer.Err? {
        return Err(ListCall(answer.error));
      }
      if answer.value.None? {
        return Err(CollectionNotFound);
      }
      var p := answer.value.value;
      ghost var before := products;
      products := products + PageItems(p.nodes, toFloat);
      if !p.hasNextPage {
        return Ok(products);
      }
      PrependAssoc(before, PageItems(p.nodes, toFloat), Crawl(fetch, p.endCursor, maxPages - page - 1, toFloat));
      cursor := p.endCursor;
      page := page + 1;
    }
  }

  lemma PrependAssoc(a: seq<Item>, b: seq<Item>, r: Result<seq<Item>, ListError>)
    ensures Prepend(a, Prepend(b, r)) == Prepend(a + b, r)
    ensures Prepend([], r) == r
  {
    if r.Ok? {
      assert a + (b + r.value) == (a + b) + r.value;
      assert [] + r.value == r.value;
    }
  }

  /** Every record of a listing comes from a product that has a variant,
      with that variant's prices. */
  lemma {:induction false} CrawlItemsFromVariants(fetch: Option<string> -> Result<Option<ProductsPage>, CallError>,
                                                  cursor: Option<string>, fuel: nat, toFloat: string -> real, x: Item)
    ensures Crawl(fetch, cursor, fuel, toFloat).Ok? && x in Crawl(fetch, cursor, fuel, toFloat).value ==>
      exists c: Option<string>, p: ProductsPage, n: ProductNode ::
        fetch(c) == Ok(Some(p)) && n in p.nodes && HasVariant(n) && x == ItemOf(n, toFloat)
    decreases fuel
  {
    var r := Crawl(fetch, cursor, fuel, toFloat);
    if fuel > 0 && r.Ok? && x in r.value {
      var page := fetch(AfterArg(cursor)).value.value;
      var items := PageItems(page.nodes, toFloat);
      if x in items {
        var i :| 0 <= i < |items| && items[i] == x;
        var n := Filter(page.nodes, HasVariant)[i];
        assert fetch(AfterArg(cursor)) == Ok(Some(page)) && n in page.nodes;
      } else {
        CrawlItemsFromVariants(fetch, page.endCursor, fuel - 1, toFloat, x);
      }
    }
  }

  /** A falsy `collection` raises, whatever page it was. */
  lemma {:induction false} CrawlMissingCollection(fetch: Option<string> -> Result<Option<ProductsPage>, CallError>,
                                                  cursor: Option<string>, fuel: nat, toFloat: string -> real)
    ensures Crawl(fetch, cursor, fuel, toFloat).Ok? ==> fetch(AfterArg(cursor)).Ok? && fetch(AfterArg(cursor)).value.Some?
  {
  }

  /** The listing reads pages until one says `hasNextPage` is false: on
      success the last page fetched has no next page. */
  lemma {:induction false} CrawlEndsAtLastPage(fetch: Option<string> -> Result<Option<ProductsPage>, CallError>,
                                               cursor: Option<string>, fuel: nat, toFloat: string -> real)
    ensures Crawl(fetch, cursor, fuel, toFloat).Ok? ==>
      exists c: Option<string> :: fetch(c).Ok? && fetch(c).value.Some? && !fetch(c).value.value.hasNextPage
    decreases fuel
  {
    if fuel > 0 && Crawl(fetch, cursor, fuel, toFloat).Ok? {
      var page := fetch(AfterArg(cursor)).value.value;
      if page.hasNextPage {
        CrawlEndsAtLastPage(fetch, page.endCursor, fuel - 1, toFloat);
      } else {
        assert fetch(AfterArg(cursor)).Ok?;
      }
    }
  }

  // ---------------------------------------------------------------------
  // calculate_discount_percentage

  /** `(compare_at - price) / compare_at * 100`, before rounding. */
  function RawDiscount(price: real, compareAt: real): real
    requires compareAt > 0.0
  {
    (compareAt - price) / compareAt * 100.0
  }

  /** `calculate_discount_percentage`; `round2` is `round(., 2)`. */
  function Discount(price: real, compareAt: Option<real>, round2: real -> real): real {
    if compareAt.None? || compareAt.value <= 0.0 then 0.0
    else if price >= compareAt.value then 0.0
    else round2(RawDiscount(price, compareAt.value))
  }

  /** The discount is zero without a positive compare-at price above the
      price; otherwise it is the rounded share of the compare-at price
      saved, which lies in (0, 100] for a non-negative price. */
  lemma DiscountCases(price: real, compareAt: Option<real>, round2: real -> real)
    ensures compareAt.None? || compareAt.value <= 0.0 || price >= compareAt.value ==> Discount(price, compareAt, round2) == 0.0
    ensures compareAt.Some? && 0.0 < compareAt.value && price < compareAt.value ==>
      Discount(price, compareAt, round2) == round2(RawDiscount(price, compareAt.value))
      && 0.0 < RawDiscount(price, compareAt.value)
      && (price >= 0.0 ==> RawDiscount(price, compareAt.value) <= 100.0)
  {
    if compareAt.Some? && 0.0 < compareAt.value && price < compareAt.value {
      RawDiscountRange(price, compareAt.value);
    }
  }

  lemma RawDiscountRange(price: real, c: real)
    requires 0.0 < c && price < c
    ensures 0.0 < RawDiscount(price, c)
    ensures price >= 0.0 ==> RawDiscount(price, c) <= 100.0
  {
    var q := (c - price) / c;
    assert q * c == c - price;
    assert 0.0 < q;
    if price >= 0.0 {
      assert q <= 1.0;
    }
  }

  // ---------------------------------------------------------------------
  // sort_by_discount

  /** A record after `p["discount_pct"] = ...`. */
  datatype Ranked = Ranked(item: Item, discountPct: real)

  /** The sort key `(-discount_pct, title.lower())`. */
  datatype Key = Key(discountPct: real, lowerTitle: string)

  function KeyOf(r: Ranked): Key {
    Key(r.discountPct, Lower(r.item.title))
  }

  /** `a` may come before `b`: a larger discount, or the same discount and a
      lowercase title that is not larger. */
  predicate Before(a: Ranked, b: Ranked) {
    a.discountPct > b.discountPct || (a.discountPct == b.discountPct && StrLe(Lower(a.item.title), Lower(b.item.title)))
  }

  ghost predicate Sorted(s: seq<Ranked>) {
    forall i, j :: 0 <= i < j < |s| ==> Before(s[i], s[j])
  }

  /** The records with key `k`. */
  function HasKey(k: Key): Ranked -> bool {
    (r: Ranked) => KeyOf(r) == k
  }

  /** Places `x` before the first element it may precede. */
  function Insert(x: Ranked, s: seq<Ranked>): (r: seq<Ranked>)
    ensures multiset(r) == multiset(s) + multiset{x}
    ensures |r| == |s| + 1
  {
    if s == [] then [x]
    else if Before(x, s[0]) then [x] + s
    else
      assert s == [s[0]] + s[1..];
      [s[0]] + Insert(x, s[1..])
  }

  /** `sorted(..., key=...)`, as an insertion sort: Python's sort is stable,
      and so is this one. */
  function SortRanked(s: seq<Ranked>): (r: seq<Ranked>)
    ensures multiset(r) == multiset(s)
  {
    if s == [] then [] else
      assert s == [s[0]] + s[1..];
      Insert(s[0], SortRanked(s[1..]))
  }

  lemma BeforeTotal(a: Ranked, b: Ranked)
    ensures Before(a, b) || Before(b, a)
  {
    StrLeTotal(Lower(a.item.title), Lower(b.item.title));
  }

  lemma BeforeTrans(a: Ranked, b: Ranked, c: Ranked)
    requires Before(a, b) && Before(b, c)
    ensures Before(a, c)
  {
    if a.discountPct == b.discountPct && b.discountPct == c.discountPct {
      StrLeTrans(Lower(a.item.title), Lower(b.item.title), Lower(c.item.title));
    }
  }

  lemma SameKeyBefore(a: Ranked, b: Ranked)
    requires KeyOf(a) == KeyOf(b)
    ensures Before(a, b)
  {
    StrLeRefl(Lower(a.item.title));
  }

  lemma {:induction false} InsertSorted(x: Ranked, s: seq<Ranked>)
    requires Sorted(s)
    ensures Sorted(Insert(x, s))
  {
    if s != [] && !Before(x, s[0]) {
      BeforeTotal(x, s[0]);
      InsertSorted(x, s[1..]);
      var r := Insert(x, s);
      var t := Insert(x, s[1..]);
      assert r == [s[0]] + t;
      forall j | 0 < j < |r| ensures Before(s[0], r[j]) {
        assert r[j] in multiset(t);
        assert r[j] == x || r[j] in multiset(s[1..]);
        if r[j] != x {
          var k :| 0 <= k < |s[1..]| && s[1..][k] == r[j];
          assert s[k + 1] == r[j];
        }
      }
    } else if s != [] {
      var r := Insert(x, s);
      forall j | 0 < j < |r| ensures Before(x, r[j]) {
        assert r[j] == s[j - 1];
        if j > 1 { BeforeTrans(x, s[0], s[j - 1]); }
      }
    }
  }

  /** The sort orders its result. */
  lemma {:induction false} SortSorted(s: seq<Ranked>)
    ensures Sorted(SortRanked(s))
  {
    if s != [] {
      SortSorted(s[1..]);
      InsertSorted(s[0], SortRanked(s[1..]));
    }
  }

  lemma {:induction false} InsertOtherKey(x: Ranked, s: seq<Ranked>, k: Key)
    requires KeyOf(x) != k
    ensures Filter(Insert(x, s), HasKey(k)) == Filter(s, HasKey(k))
  {
    if s != [] && !Before(x, s[0]) {
      InsertOtherKey(x, s[1..], k);
      assert Insert(x, s) == [s[0]] + Insert(x, s[1..]);
    }
  }

  lemma {:induction false} InsertOwnKey(x: Ranked, s: seq<Ranked>)
    requires Sorted(s)
    ensures Filter(Insert(x, s), HasKey(KeyOf(x))) == [x] + Filter(s, HasKey(KeyOf(x)))
  {
    if s != [] && !Before(x, s[0]) {
      if KeyOf(s[0]) == KeyOf(x) {
        SameKeyBefore(x, s[0]);
      }
      InsertOwnKey(x, s[1..]);
      assert Insert(x, s) == [s[0]] + Insert(x, s[1..]);
    }
  }

  /** Records with equal keys keep their relative order. */
  lemma {:induction false} SortStable(s: seq<Ranked>, k: Key)
    ensures Filter(SortRanked(s), HasKey(k)) == Filter(s, HasKey(k))
  {
    if s != [] {
      SortStable(s[1..], k);
      if KeyOf(s[0]) == k {
        SortSorted(s[1..]);
        InsertOwnKey(s[0], SortRanked(s[1..]));
      } else {
        InsertOtherKey(s[0], SortRanked(s[1..]), k);
      }
    }
  }

  /** Each record with its discount. */
  function Ranks(items: seq<Item>, round2: real -> real): (rs: seq<Ranked>)
    ensures |rs| == |items|
    ensures forall i :: 0 <= i < |items| ==>
      rs[i] == Ranked(items[i], Discount(items[i].price, items[i].compareAtPrice, round2))
  {
    if items == [] then []
    else Ranks(items[..|items| - 1], round2)
         + [Ranked(items[|items| - 1], Discount(items[|items| - 1].price, items[|items| - 1].compareAtPrice, round2))]
  }

  /** `sort_by_discount`: every record gets its discount, then the records
      are ordered by discount, largest first, and lowercase title, keeping
      the input order among equal keys; nothing is added or lost. */
  method SortByDiscount(items: seq<Item>, round2: real -> real) returns (sorted: seq<Ranked>)
    ensures multiset(sorted) == multiset(Ranks(items, round2))
    ensures Sorted(sorted)
    ensures forall k :: Filter(sorted, HasKey(k)) == Filter(Ranks(items, round2), HasKey(k))
  {
    var ranked: seq<Ranked> := [];
    for i := 0 to |items|
      invariant ranked == Ranks(items[..i], round2)
    {
      assert items[..i + 1][..i] == items[..i];
      ranked := ranked + [Ranked(items[i], Discount(items[i].price, items[i].compareAtPrice, round2))];
    }
    assert items[..|items|] == items;
    sorted := SortRanked(ranked);
    SortSorted(ranked);
    forall k ensures Filter(sorted, HasKey(k)) == Filter(ranked, HasKey(k)) {
      SortStable(ranked, k);
    }
  }

  // ---------------------------------------------------------------------
  // reorder_collection

  /** One `{"id": ..., "newPosition": ...}` entry. */
  datatype Move = Move(id: string, newPosition: string)

  const BatchSize: nat := 250

  /** The moves: product `i` of the ordered list goes to position `str(i)`. */
  function Moves(ids: seq<string>): (ms: seq<Move>)
    ensures |ms| == |ids|
    ensures forall i :: 0 <= i < |ids| ==> ms[i] == Move(ids[i], ShowNat(i))
  {
    if ids == [] then [] else Moves(ids[..|ids| - 1]) + [Move(ids[|ids| - 1], ShowNat(|ids| - 1))]
  }

  /** Every position reads back as the index of its move. */
  lemma MovePositions(ids: seq<string>, i: nat)
    requires i < |ids|
    ensures ParseInt(Moves(ids)[i].newPosition) == Some(i)
  {
    ParseShowNat(i);
  }

  /** `moves[i:i+batch_size]` for the `k`-th `i` of the range. */
  function Batch(moves: seq<Move>, k: nat): seq<Move>
    requires k * BatchSize < |moves|
  {
    moves[k * BatchSize .. if (k + 1) * BatchSize <= |moves| then (k + 1) * BatchSize else |moves|]
  }

  /** `(len(moves) + batch_size - 1) // batch_size`. */
  function BatchCount(n: nat): nat {
    (n + BatchSize - 1) / BatchSize
  }

  /** The range `range(0, n, 250)` has `BatchCount(n)` elements: batch `k`
      exists exactly when `250 k < n`. */
  lemma BatchCountRange(n: nat, k: nat)
    ensures k < BatchCount(n) <==> k * BatchSize < n
  {
  }

  /** Every batch is non-empty and holds at most 250 moves; all but the
      last are full. */
  lemma BatchBounds(moves: seq<Move>, k: nat)
    requires k * BatchSize < |moves|
    ensures 0 < |Batch(moves, k)| <= BatchSize
    ensures k + 1 < BatchCount(|moves|) ==> |Batch(moves, k)| == BatchSize
  {
    BatchCountRange(|moves|, k + 1);
  }

  datatype JobInfo = JobInfo(id: string, done: bool)

  /** The part of a `collectionReorderProducts` answer the loop reads. */
  datatype ReorderAnswer = ReorderAnswer(userErrors: seq<Json>, job: Option<JobInfo>)

  datatype ReorderError = BatchCall(error: CallError) | BatchUserErrors(batch: nat)

  predicate BatchOk(send: nat -> Result<ReorderAnswer, CallError>, k: nat) {
    send(k).Ok? && send(k).value.userErrors == []
  }

  /** The job ids the first `m` batches returned, in order. */
  function JobIds(send: nat -> Result<ReorderAnswer, CallError>, m: nat): seq<string> {
    if m == 0 then []
    else if send(m - 1).Ok? && send(m - 1).value.job.Some? then JobIds(send, m - 1) + [send(m - 1).value.job.value.id]
    else JobIds(send, m - 1)
  }

  /** The moves list built by the first loop of `reorder_collection`. */
  method BuildMoves(ids: seq<string>) returns (moves: seq<Move>)
    ensures moves == Moves(ids)
  {
    moves := [];
    for idx := 0 to |ids|
      invariant moves == Moves(ids[..idx])
    {
      assert ids[..idx + 1][..idx] == ids[..idx];
      moves := moves + [Move(ids[idx], ShowNat(idx))];
    }
    assert ids[..|ids|] == ids;
  }

  /** Where the first `k` batches end. */
  function Cut(n: nat, k: nat): nat {
    if k * BatchSize <= n then k * BatchSize else n
  }

  /** The first `k` batches together are the moves up to `Cut(|moves|, k)`. */
  lemma {:induction false} FlattenBatches(moves: seq<Move>, sent: seq<seq<Move>>, k: nat)
    requires |sent| == k
    requires forall q :: 0 <= q < k ==> q * BatchSize < |moves| && sent[q] == Batch(moves, q)
    ensures Flatten(sent) == moves[..Cut(|moves|, k)]
  {
    if k > 0 {
      FlattenBatches(moves, sent[..k - 1], k - 1);
      FlattenSnoc(sent, k - 1);
      assert sent[..k] == sent;
      assert Cut(|moves|, k - 1) == (k - 1) * BatchSize;
      assert moves[..Cut(|moves|, k)] == moves[..(k - 1) * BatchSize] + Batch(moves, k - 1);
    }
  }

  /** `sent` are the first `|sent|` batches of `moves`, in order. */
  ghost predicate AreBatches(moves: seq<Move>, sent: seq<seq<Move>>) {
    forall q :: 0 <= q < |sent| ==> q * BatchSize < |moves| && sent[q] == Batch(moves, q)
  }

  /** The first `m` batches were accepted. */
  ghost predicate OkBefore(send: nat -> Result<ReorderAnswer, CallError>, m: int) {
    forall q :: 0 <= q < m ==> BatchOk(send, q)
  }

  /** The batch numbers `0 .. m - 1`. */
  function Upto(m: nat): (r: seq<nat>)
    ensures |r| == m
    ensures forall q :: 0 <= q < m ==> r[q] == q
  {
    seq(m, q => q)
  }

  /** The batch loop of `reorder_collection`; `send(k)` is what the
      mutation for batch `k` returns. Returned: the job ids, the batches
      sent and the batches followed by the one second pause. */
  method SendBatches(moves: seq<Move>, send: nat -> Result<ReorderAnswer, CallError>)
    returns (out: Result<seq<string>, ReorderError>, sent: seq<seq<Move>>, pausedAfter: seq<nat>)
    ensures |sent| <= BatchCount(|moves|)
    ensures AreBatches(moves, sent)
    ensures OkBefore(send, |sent| - 1)
    ensures out.Ok? ==> |sent| == BatchCount(|moves|) && Flatten(sent) == moves
    ensures out.Ok? ==> out.value == JobIds(send, |sent|)
    ensures out.Err? ==> sent != [] && !BatchOk(send, |sent| - 1)
    ensures out.Ok? ==> sent == [] || BatchOk(send, |sent| - 1)
    ensures pausedAfter == Upto(if sent == [] then 0 else |sent| - 1)
  {
    var jobIds: seq<string> := [];
    sent := [];
    pausedAfter := [];
    var n := BatchCount(|moves|);
    for k := 0 to n
      invariant |sent| == k
      invariant AreBatches(moves, sent) && OkBefore(send, k)
      invariant pausedAfter == Upto(if 0 < k == n then k - 1 else k)
      invariant jobIds == JobIds(send, k)
    {
      assert k * BatchSize < |moves| by { BatchCountRange(|moves|, k); }
      assert (k + 1) * BatchSize < |moves| <==> k + 1 < n by { BatchCountRange(|moves|, k + 1); }
      var stop;
      stop, sent, jobIds, pausedAfter := SendOne(moves, send, k, sent, jobIds, pausedAfter);
      if stop.Some? {
        out := Err(stop.value);
        return;
      }
    }
    assert Flatten(sent) == moves by {
      BatchCountRange(|moves|, n);
      FlattenBatches(moves, sent, n);
    }
    out := Ok(jobIds);
  }

  /** One pass of the batch loop: send batch `k`, stop on a failed call or
      on user errors, otherwise keep its job id and pause when another
      batch follows. */
  method SendOne(moves: seq<Move>, send: nat -> Result<ReorderAnswer, CallError>, k: nat,
                 sent: seq<seq<Move>>, jobIds: seq<string>, pausedAfter: seq<nat>)
    returns (stop: Option<ReorderError>, sent': seq<seq<Move>>, jobIds': seq<string>, pausedAfter': seq<nat>)
    requires k * BatchSize < |moves|
    requires |sent| == k && AreBatches(moves, sent) && OkBefore(send, k)
    requires pausedAfter == Upto(k) && jobIds == JobIds(send, k)
    ensures |sent'| == k + 1 && AreBatches(moves, sent') && OkBefore(send, k)
    ensures stop.None? <==> BatchOk(send, k)
    ensures stop.None? ==> jobIds' == JobIds(send, k + 1)
    ensures stop.None? ==> pausedAfter' == if (k + 1) * BatchSize < |moves| then Upto(k + 1) else Upto(k)
    ensures stop.Some? ==> pausedAfter' == Upto(k)
  {
    assert Upto(k) + [k] == Upto(k + 1);
    sent' := sent + [Batch(moves, k)];
    jobIds', pausedAfter' := jobIds, pausedAfter;
    var answer := send(k);
    if answer.Err? {
      stop := Some(BatchCall(answer.error));
      return;
    }
    if answer.value.userErrors != [] {
      stop := Some(BatchUserErrors(k));
      return;
    }
    stop := None;
    if answer.value.job.Some? {
      jobIds' := jobIds + [answer.value.job.value.id];
    }
    if (k + 1) * BatchSize < |moves| {
      pausedAfter' := pausedAfter + [k];
    }
  }

  /** What checking a job reported: done, still running, or the check
      raised. */
  datatype Poll = JobDone | JobRunning | CheckFailed

  /** The jobs of `s` still running after the checks of round `r`. */
  function Survivors(s: set<string>, r: nat, check: (nat, string) -> Poll): (t: set<string>)
    ensures t <= s
  {
    set j | j in s && check(r, j) == JobRunning
  }

  /** The pending set after `r` rounds. */
  function Pending(s: set<string>, r: nat, check: (nat, string) -> Poll): (t: set<string>)
    ensures t <= s
  {
    if r == 0 then s else Survivors(Pending(s, r - 1, check), r - 1, check)
  }

  /** A job is still pending after `r` rounds exactly when every check of
      it reported it running. */
  lemma {:induction false} PendingMeansRunning(s: set<string>, r: nat, check: (nat, string) -> Poll, j: string)
    ensures j in Pending(s, r, check) <==> j in s && forall q :: 0 <= q < r ==> check(q, j) == JobRunning
  {
    if r > 0 {
      PendingMeansRunning(s, r - 1, check, j);
    }
  }

  /** Rounds only remove jobs. */
  lemma {:induction false} PendingNeverGrows(s: set<string>, r: nat, r': nat, check: (nat, string) -> Poll)
    requires r <= r'
    ensures Pending(s, r', check) <= Pending(s, r, check)
  {
    if r < r' {
      PendingNeverGrows(s, r, r' - 1, check);
    }
  }

  /** `_wait_for_jobs`. Round `r` starts after `2 r` seconds of sleeping
      plus `extraMs(r)` spent in the checks; the loop runs while jobs are
      pending and less than `maxWaitMs` has elapsed. */
  method WaitForJobs(jobIds: seq<string>, check: (nat, string) -> Poll, extraMs: nat -> nat, maxWaitMs: nat)
    returns (pending: set<string>, rounds: nat)
    ensures pending == Pending((set j | j in jobIds), rounds, check)
    ensures pending == {} || 2000 * rounds + extraMs(rounds) >= maxWaitMs
    ensures rounds == 0 || 2000 * (rounds - 1) + extraMs(rounds - 1) < maxWaitMs
  {
    var all := set j | j in jobIds;
    pending := all;
    rounds := 0;
    while pending != {} && 2000 * rounds + extraMs(rounds) < maxWaitMs
      invariant pending == Pending(all, rounds, check)
      invariant rounds == 0 || 2000 * (rounds - 1) + extraMs(rounds - 1) < maxWaitMs
      decreases maxWaitMs - 2000 * rounds
    {
      var snapshot := pending;
      var todo := pending;
      while todo != {}
        invariant todo <= snapshot
        invariant pending == set j | j in snapshot && (j in todo || check(rounds, j) == JobRunning)
        decreases |todo|
      {
        var j :| j in todo;
        todo := todo - {j};
        if check(rounds, j) != JobRunning {
          pending := pending - {j};
        }
      }
      assert pending == Survivors(snapshot, rounds, check);
      rounds := rounds + 1;
    }
  }

  /** `reorder_collection`: the batches, then the wait for the jobs when
      there is at least one. */
  method ReorderCollection(ids: seq<string>, send: nat -> Result<ReorderAnswer, CallError>,
                           check: (nat, string) -> Poll, extraMs: nat -> nat)
    returns (out: Result<seq<string>, ReorderError>, sent: seq<seq<Move>>, waited: bool, pending: set<string>)
    ensures out.Ok? ==> Flatten(sent) == Moves(ids) && out.value == JobIds(send, |sent|)
    ensures out.Err? ==> sent != [] && !BatchOk(send, |sent| - 1)
    ensures waited <==> out.Ok? && out.value != []
    ensures !waited ==> pending == {}
    ensures pending <= (set j | j in JobIds(send, |sent|))
  {
    var moves := BuildMoves(ids);
    var pausedAfter;
    out, sent, pausedAfter := SendBatches(moves, send);
    waited := false;
    pending := {};
    if out.Ok? && out.value != [] {
      var rounds;
      pending, rounds := WaitForJobs(out.value, check, extraMs, 60000);
      waited := true;
    }
  }
}
