/** `fix_prices.py`: the repair of outlet products whose prices were
    written as zero. Rows come from the sheet, are selected and grouped by
    SKU; every SKU's outlet is looked up and, unless in dry-run, gets the
    sheet's price pair on all its variants. */
module FixPrices {
  import opened Wrappers
  import opened Strings
  import opened Seqs
  import opened Dicts

  /** The columns of a sheet row this script reads; `None` when the row
      has no such key. */
  datatype SheetRow = SheetRow(
    online: Option<string>, qta: Option<string>, qty: Option<string>, sku: Option<string>,
    prezzoHigh: Option<string>, prezzoOutlet: Option<string>, productId: Option<string>)

  /** Python truthiness of a string or `None`. */
  predicate Truthy(o: Option<string>) {
    o.Some? && o.value != ""
  }

  /** `a or b` on strings, with `None` or "" falsy. */
  function Or(a: Option<string>, b: string): string {
    if Truthy(a) then a.value else b
  }

  // ---------------------------------------------------------------------
  // fix_prices_for_sku

  /** The (price, compareAtPrice) pair from the cleaned `prezzo_high` and
      `prezzo_outlet`: the outlet price, else the high price, else "0.00";
      the high price unless it is missing or "0.00", else the outlet
      price just chosen. */
  function PricePair(high: Option<string>, outlet: Option<string>): (string, string) {
    var sale := Or(outlet, Or(high, "0.00"));
    var full := if !Truthy(high) || high.value == "0.00" then sale else high.value;
    (sale, full)
  }

  /** Both prices are set; the compare-at price is the high price whenever
      that is a real one, and is "0.00" only when the price is too. */
  lemma PricePairFallback(high: Option<string>, outlet: Option<string>)
    ensures PricePair(high, outlet).0 != "" && PricePair(high, outlet).1 != ""
    ensures Truthy(outlet) ==> PricePair(high, outlet).0 == outlet.value
    ensures !Truthy(outlet) && Truthy(high) ==> PricePair(high, outlet).0 == high.value
    ensures !Truthy(outlet) && !Truthy(high) ==> PricePair(high, outlet) == ("0.00", "0.00")
    ensures Truthy(high) && high.value != "0.00" ==> PricePair(high, outlet).1 == high.value
    ensures PricePair(high, outlet).1 == "0.00" ==> PricePair(high, outlet).0 == "0.00"
    ensures PricePair(high, outlet).1 != high.GetOr("") ==> PricePair(high, outlet).1 == PricePair(high, outlet).0
  {
  }

  /** What one SKU came to. */
  datatype Outcome = Success | SuccessDry | SkipNotFound | SkipDraft | SkipNoProductId | Error

  /** An outlet a lookup found; `status` is `None` without the key. */
  datatype Outlet = Outlet(id: string, status: Option<string>)

  /** What `find_product_by_handle` did: raised, found nothing, or found. */
  datatype Lookup = LookupRaised | NotFound | Found(outlet: Outlet)

  /** What `get_product_variants` did: raised, or listed `count` variants. */
  datatype Variants = VariantsRaised | Listed(count: nat)

  /** The bulk price update the script asks for. */
  datatype PriceUpdate = PriceUpdate(productGid: string, price: string, compareAtPrice: string)

  /** The remote side, whose helpers are not part of this model: the
      variant listing for a product, indexed by the number of remote reads
      already made for the same SKU (0 for the gid probe, 1 for the
      listing after the outlet lookup), the handle lookup, and whether the
      bulk update raises. */
  datatype Store = Store(variants: (nat, string) -> Variants, findByHandle: string -> Lookup,
                         updateRaises: PriceUpdate -> bool)

  /** The outcome, the number of remote reads made and the update sent. */
  datatype SkuResult = SkuResult(outcome: Outcome, remoteReads: nat, update: Option<PriceUpdate>)

  const ProductGidPrefix := "gid://shopify/Product/"

  const Active := "ACTIVE"

  /** The column Q value, stripped. */
  function ProductIdOf(r: SheetRow): string {
    Strip(r.productId.GetOr(""))
  }

  /** The steps after the outlet is known: the status check, the variant
      listing (after `calls` remote reads for this SKU), and the update
      unless dry. */
  function FinishSku(store: Store, outlet: Outlet, calls: nat, prices: (string, string), dryRun: bool): SkuResult {
    if outlet.status != Some(Active) then SkuResult(SkipDraft, calls, None)
    else match store.variants(calls, outlet.id)
      case VariantsRaised => SkuResult(Error, calls + 1, None)
      case Listed(n) =>
        if n == 0 then SkuResult(SkipNotFound, calls + 1, None)
        else if dryRun then SkuResult(SuccessDry, calls + 1, None)
        else
          var u := PriceUpdate(outlet.id, prices.0, prices.1);
          SkuResult(if store.updateRaises(u) then Error else Success, calls + 1, Some(u))
  }

  /** Where the outlet lookup got to: a verdict, or the outlet. */
  datatype Located = Stop(outcome: Outcome) | At(outlet: Outlet)

  /** The lookup by column Q: a product gid is checked through its
      variant listing and then taken as ACTIVE, anything else is looked up
      as a handle. */
  function FindOutlet(store: Store, pid: string): Located {
    if StartsWith(pid, ProductGidPrefix) then
      match store.variants(0, pid)
      case VariantsRaised => Stop(Error)
      case Listed(n) => if n == 0 then Stop(SkipNotFound) else At(Outlet(pid, Some(Active)))
    else
      match store.findByHandle(pid)
      case LookupRaised => Stop(Error)
      case NotFound => Stop(SkipNotFound)
      case Found(o) => At(o)
  }

  /** The price pair of a group's first row. */
  function RowPrices(first: SheetRow, cleanPrice: Option<string> -> Option<string>): (string, string) {
    PricePair(cleanPrice(first.prezzoHigh), cleanPrice(first.prezzoOutlet))
  }

  /** `fix_prices_for_sku` on the rows of one SKU; `cleanPrice` is
      `_clean_price`, `None` standing for a falsy result. */
  function FixPricesForSku(store: Store, rows: seq<SheetRow>, cleanPrice: Option<string> -> Option<string>,
                           dryRun: bool): SkuResult
    requires rows != []
  {
    var pid := ProductIdOf(rows[0]);
    if pid == "" then SkuResult(SkipNoProductId, 0, None)
    else match FindOutlet(store, pid)
      case Stop(o) => SkuResult(o, 1, None)
      case At(outlet) => FinishSku(store, outlet, 1, RowPrices(rows[0], cleanPrice), dryRun)
  }

  /** A lookup never stops with a verdict `fix_prices_for_sku` gives
      elsewhere: only an error or a not-found. */
  lemma FindOutletVerdicts(store: Store, pid: string)
    ensures FindOutlet(store, pid).Stop? ==> FindOutlet(store, pid).outcome in {Error, SkipNotFound}
    ensures StartsWith(pid, ProductGidPrefix) && FindOutlet(store, pid).At? ==> FindOutlet(store, pid).outlet.status == Some(Active)
  {
  }

  /** The tail never skips for a missing product id and reads once more. */
  lemma FinishSkuShape(store: Store, outlet: Outlet, calls: nat, prices: (string, string), dryRun: bool)
    ensures var r := FinishSku(store, outlet, calls, prices, dryRun);
      r.outcome != SkipNoProductId && r.remoteReads >= calls
      && (r.outcome == SkipDraft <==> outlet.status != Some(Active))
  {
  }

  lemma FinishSkuUpdate(store: Store, outlet: Outlet, calls: nat, prices: (string, string), dryRun: bool)
    ensures var r := FinishSku(store, outlet, calls, prices, dryRun);
      (dryRun ==> r.update.None? && r.outcome != Success)
      && (r.outcome == SuccessDry ==> dryRun)
      && (r.outcome == Success ==> r.update.Some? && !store.updateRaises(r.update.value))
      && (r.update.Some? ==>
            (r.outcome == Success || r.outcome == Error)
            && (r.outcome == Error <==> store.updateRaises(r.update.value))
            && r.update.value == PriceUpdate(outlet.id, prices.0, prices.1))
  {
  }

  /** An empty column Q skips the SKU before any remote read, and only
      then. */
  lemma SkipNoProductIdFirst(store: Store, rows: seq<SheetRow>, cleanPrice: Option<string> -> Option<string>, dryRun: bool)
    requires rows != []
    ensures var r := FixPricesForSku(store, rows, cleanPrice, dryRun);
      (r.outcome == SkipNoProductId <==> ProductIdOf(rows[0]) == "") && (r.remoteReads == 0 <==> ProductIdOf(rows[0]) == "")
  {
    var pid := ProductIdOf(rows[0]);
    if pid != "" {
      FindOutletVerdicts(store, pid);
      if FindOutlet(store, pid).At? {
        FinishSkuShape(store, FindOutlet(store, pid).outlet, 1, RowPrices(rows[0], cleanPrice), dryRun);
      }
    }
  }

  /** Only the first row of the group matters. */
  lemma FirstRowDecides(store: Store, rows: seq<SheetRow>, rows': seq<SheetRow>,
                        cleanPrice: Option<string> -> Option<string>, dryRun: bool)
    requires rows != [] && rows' != [] && rows[0] == rows'[0]
    ensures FixPricesForSku(store, rows, cleanPrice, dryRun) == FixPricesForSku(store, rows', cleanPrice, dryRun)
  {
  }

  /** A product gid with variants is taken as active without reading its
      status: it is never skipped as a draft. */
  lemma GidCountsAsActive(store: Store, rows: seq<SheetRow>, cleanPrice: Option<string> -> Option<string>, dryRun: bool)
    requires rows != []
    ensures StartsWith(ProductIdOf(rows[0]), ProductGidPrefix) ==>
      FixPricesForSku(store, rows, cleanPrice, dryRun).outcome != SkipDraft
  {
    var pid := ProductIdOf(rows[0]);
    if pid != "" {
      FindOutletVerdicts(store, pid);
      if FindOutlet(store, pid).At? {
        FinishSkuShape(store, FindOutlet(store, pid).outlet, 1, RowPrices(rows[0], cleanPrice), dryRun);
      }
    }
  }

  /** Any other id goes through the handle lookup: a raise is an error, no
      outlet a skip, and a found outlet that is not ACTIVE a draft skip. */
  lemma HandleLookupOutcomes(store: Store, rows: seq<SheetRow>, cleanPrice: Option<string> -> Option<string>, dryRun: bool)
    requires rows != []
    ensures var pid := ProductIdOf(rows[0]);
      var r := FixPricesForSku(store, rows, cleanPrice, dryRun);
      pid != "" && !StartsWith(pid, ProductGidPrefix) ==>
        (store.findByHandle(pid).LookupRaised? ==> r.outcome == Error)
        && (store.findByHandle(pid).NotFound? ==> r.outcome == SkipNotFound)
        && (store.findByHandle(pid).Found? && store.findByHandle(pid).outlet.status != Some(Active)
            ==> r.outcome == SkipDraft && r.update.None?)
  {
  }

  /** The update is sent exactly when the run is not dry and the SKU got
      through every check; it carries the outlet's id and the sheet's
      price pair, and the outcome then says whether it raised. A dry run
      never counts a success and never sends. */
  lemma UpdateOnlyWhenApplying(store: Store, rows: seq<SheetRow>, cleanPrice: Option<string> -> Option<string>, dryRun: bool)
    requires rows != []
    ensures var r := FixPricesForSku(store, rows, cleanPrice, dryRun);
      (dryRun ==> r.update.None? && r.outcome != Success)
      && (r.outcome == SuccessDry ==> dryRun)
      && (r.outcome == Success ==> r.update.Some? && !store.updateRaises(r.update.value))
      && (r.update.Some? ==>
            (r.outcome == Success || r.outcome == Error)
            && (r.outcome == Error <==> store.updateRaises(r.update.value))
            && (r.update.value.price, r.update.value.compareAtPrice) == RowPrices(rows[0], cleanPrice))
  {
    var pid := ProductIdOf(rows[0]);
    if pid != "" {
      var loc := FindOutlet(store, pid);
      if loc.At? {
        var prices := RowPrices(rows[0], cleanPrice);
        assert FixPricesForSku(store, rows, cleanPrice, dryRun) == FinishSku(store, loc.outlet, 1, prices, dryRun);
        FinishSkuUpdate(store, loc.outlet, 1, prices, dryRun);
      } else {
        assert FixPricesForSku(store, rows, cleanPrice, dryRun) == SkuResult(loc.outcome, 1, None);
      }
    }
  }

  // ---------------------------------------------------------------------
  // main

  /** The dry-run flag: `--dry-run` wins over `--apply`, and no flag is dry. */
  function DryRun(apply: bool, dryRunFlag: bool): bool {
    !apply || dryRunFlag
  }

  /** The quantity of a row: `qta`, else `qty`, else "0", with a comma read
      as a decimal point; `toQty` is `int(float(.))`, `None` when it
      raises, which counts as 0. */
  function Quantity(r: SheetRow, toQty: string -> Option<int>): int {
    var q := Or(r.qta, Or(r.qty, "0"));
    toQty(ReplaceChar(q, ',', ".")).GetOr(0)
  }

  /** A row is processed when `_truthy_si` accepts its `online` value (""
      without the key) and its quantity is positive. */
  predicate IsSelected(r: SheetRow, truthySi: string -> bool, toQty: string -> Option<int>) {
    truthySi(r.online.GetOr("")) && Quantity(r, toQty) > 0
  }

  function Selects(truthySi: string -> bool, toQty: string -> Option<int>): SheetRow -> bool {
    (r: SheetRow) => IsSelected(r, truthySi, toQty)
  }

  /** The selection loop of `main`. */
  method SelectRows(rows: seq<SheetRow>, truthySi: string -> bool, toQty: string -> Option<int>)
    returns (selected: seq<SheetRow>)
    ensures selected == Filter(rows, Selects(truthySi, toQty))
  {
    selected := [];
    for i := 0 to |rows|
      invariant selected == Filter(rows[..i], Selects(truthySi, toQty))
    {
      FilterSnoc(rows, i, Selects(truthySi, toQty));
      if IsSelected(rows[i], truthySi, toQty) {
        selected := selected + [rows[i]];
      }
    }
    assert rows[..|rows|] == rows;
  }

  /** A row is selected exactly when it is a sheet row that passes. */
  lemma SelectedMembers(rows: seq<SheetRow>, truthySi: string -> bool, toQty: string -> Option<int>, r: SheetRow)
    ensures r in Filter(rows, Selects(truthySi, toQty)) <==> r in rows && IsSelected(r, truthySi, toQty)
  {
    if r in rows && IsSelected(r, truthySi, toQty) {
      FilterKeeps(rows, Selects(truthySi, toQty), r);
    }
  }

  function SkuOf(r: SheetRow): string {
    Strip(r.sku.GetOr(""))
  }

  /** The (sku, row) pairs of the rows with a non-empty SKU, in order. */
  function SkuPairs(rows: seq<SheetRow>): (ps: seq<(string, SheetRow)>)
    ensures |ps| <= |rows|
  {
    if rows == [] then []
    else if SkuOf(rows[|rows| - 1]) == "" then SkuPairs(rows[..|rows| - 1])
    else SkuPairs(rows[..|rows| - 1]) + [(SkuOf(rows[|rows| - 1]), rows[|rows| - 1])]
  }

  lemma {:induction false} SkuPairsMember(rows: seq<SheetRow>, k: string, r: SheetRow)
    ensures (k, r) in SkuPairs(rows) <==> r in rows && SkuOf(r) == k && k != ""
  {
    if rows != [] {
      SkuPairsMember(rows[..|rows| - 1], k, r);
      assert rows == rows[..|rows| - 1] + [rows[|rows| - 1]];
    }
  }

  lemma {:induction false} SkuPairsKeys(rows: seq<SheetRow>)
    ensures "" !in Keys(SkuPairs(rows))
  {
    if rows != [] {
      SkuPairsKeys(rows[..|rows| - 1]);
      if SkuOf(rows[|rows| - 1]) != "" {
        KeysAppend(SkuPairs(rows[..|rows| - 1]), [(SkuOf(rows[|rows| - 1]), rows[|rows| - 1])]);
      }
    }
  }

  /** The grouping loop of `main`: rows without a SKU are dropped, the rest
      appended to their SKU's group, groups in first-seen order. */
  method GroupBySku(selected: seq<SheetRow>) returns (grouped: Dict<string, seq<SheetRow>>)
    ensures grouped == GroupPairs(SkuPairs(selected))
  {
    grouped := [];
    for i := 0 to |selected|
      invariant grouped == GroupPairs(SkuPairs(selected[..i]))
    {
      var sku := SkuOf(selected[i]);
      GroupBySkuSnoc(selected, i);
      if sku != "" {
        grouped := AppendAt(grouped, sku, selected[i]);
      }
    }
    assert selected[..|selected|] == selected;
  }

  /** One more row joins the group of its SKU, unless it has none. */
  lemma GroupBySkuSnoc(selected: seq<SheetRow>, i: nat)
    requires i < |selected|
    ensures GroupPairs(SkuPairs(selected[..i + 1]))
      == if SkuOf(selected[i]) == "" then GroupPairs(SkuPairs(selected[..i]))
         else AppendAt(GroupPairs(SkuPairs(selected[..i])), SkuOf(selected[i]), selected[i])
  {
    assert selected[..i + 1][..i] == selected[..i];
    if SkuOf(selected[i]) != "" {
      var ps := SkuPairs(selected[..i]) + [(SkuOf(selected[i]), selected[i])];
      assert ps[..|ps| - 1] == SkuPairs(selected[..i]);
    }
  }

  /** A row is in the group of `k` exactly when it was selected and its
      stripped SKU is `k`, which is never empty; the groups are the
      distinct SKUs in first-seen order. */
  lemma GroupBySkuMembers(selected: seq<SheetRow>, k: string, r: SheetRow)
    ensures r in Get(GroupPairs(SkuPairs(selected)), k).GetOr([]) <==> r in selected && SkuOf(r) == k && k != ""
    ensures Keys(GroupPairs(SkuPairs(selected))) == Dedup(Keys(SkuPairs(selected)))
    ensures "" !in Keys(GroupPairs(SkuPairs(selected)))
  {
    var ps := SkuPairs(selected);
    GroupPairsGet(ps, k);
    BucketMembers(ps, k, r);
    SkuPairsMember(selected, k, r);
    GroupPairsKeys(ps);
    SkuPairsKeys(selected);
  }

  /** The counters of `stats`. */
  datatype Stats = Stats(success: nat, successDry: nat, skipNotFound: nat, skipDraft: nat,
                         skipNoProductId: nat, errors: nat)

  /** The counter an outcome increments. */
  function Counter(s: Stats, o: Outcome): nat {
    match o
    case Success => s.success
    case SuccessDry => s.successDry
    case SkipNotFound => s.skipNotFound
    case SkipDraft => s.skipDraft
    case SkipNoProductId => s.skipNoProductId
    case Error => s.errors
  }

  function Total(s: Stats): nat {
    s.success + s.successDry + s.skipNotFound + s.skipDraft + s.skipNoProductId + s.errors
  }

  /** The counters after tallying `os` from zero, one increment each. */
  function Tally(os: seq<Outcome>): Stats {
    if os == [] then Stats(0, 0, 0, 0, 0, 0)
    else
      var s := Tally(os[..|os| - 1]);
      match os[|os| - 1]
      case Success => s.(success := s.success + 1)
      case SuccessDry => s.(successDry := s.successDry + 1)
      case SkipNotFound => s.(skipNotFound := s.skipNotFound + 1)
      case SkipDraft => s.(skipDraft := s.skipDraft + 1)
      case SkipNoProductId => s.(skipNoProductId := s.skipNoProductId + 1)
      case Error => s.(errors := s.errors + 1)
  }

  /** Each counter counts its outcome. */
  lemma {:induction false} TallyCounts(os: seq<Outcome>, o: Outcome)
    ensures Counter(Tally(os), o) == multiset(os)[o]
  {
    if os != [] {
      TallyCounts(os[..|os| - 1], o);
      assert os == os[..|os| - 1] + [os[|os| - 1]];
    }
  }

  /** Every SKU increments exactly one counter. */
  lemma {:induction false} TallyTotal(os: seq<Outcome>)
    ensures Total(Tally(os)) == |os|
  {
    if os != [] {
      TallyTotal(os[..|os| - 1]);
    }
  }

  /** No error among the outcomes exactly when the error counter is zero. */
  lemma TallyNoErrors(os: seq<Outcome>)
    ensures Tally(os).errors == 0 <==> Error !in os
  {
    TallyCounts(os, Error);
  }

  /** The outcome of every group, in the groups' order. */
  function SkuOutcomes(groups: Dict<string, seq<SheetRow>>, store: Store,
                       cleanPrice: Option<string> -> Option<string>, dryRun: bool): (os: seq<Outcome>)
    requires NoEmptyBucket(groups)
    ensures |os| == |groups|
  {
    if groups == [] then []
    else SkuOutcomes(groups[..|groups| - 1], store, cleanPrice, dryRun)
         + [FixPricesForSku(store, groups[|groups| - 1].1, cleanPrice, dryRun).outcome]
  }

  /** The processing loop of `main`: one outcome per SKU, each counted. */
  method ProcessSkus(groups: Dict<string, seq<SheetRow>>, store: Store,
                     cleanPrice: Option<string> -> Option<string>, dryRun: bool)
    returns (stats: Stats, outcomes: seq<Outcome>)
    requires NoEmptyBucket(groups)
    ensures outcomes == SkuOutcomes(groups, store, cleanPrice, dryRun)
    ensures stats == Tally(outcomes)
  {
    stats := Stats(0, 0, 0, 0, 0, 0);
    outcomes := [];
    for i := 0 to |groups|
      invariant outcomes == SkuOutcomes(groups[..i], store, cleanPrice, dryRun)
      invariant stats == Tally(outcomes)
    {
      var result := FixPricesForSku(store, groups[i].1, cleanPrice, dryRun).outcome;
      assert outcomes + [result] == SkuOutcomes(groups[..i + 1], store, cleanPrice, dryRun) by {
        assert groups[..i + 1][..i] == groups[..i];
      }
      stats := CountOutcome(stats, outcomes, result);
      outcomes := outcomes + [result];
    }
    assert groups[..|groups|] == groups;
  }

  /** One increment of the counter of `result`. */
  method CountOutcome(stats: Stats, ghost outcomes: seq<Outcome>, result: Outcome) returns (stats': Stats)
    requires stats == Tally(outcomes)
    ensures stats' == Tally(outcomes + [result])
  {
    assert (outcomes + [result])[..|outcomes|] == outcomes;
    if result == Success {
      stats' := stats.(success := stats.success + 1);
    } else if result == SuccessDry {
      stats' := stats.(successDry := stats.successDry + 1);
    } else if result == SkipNotFound {
      stats' := stats.(skipNotFound := stats.skipNotFound + 1);
    } else if result == SkipDraft {
      stats' := stats.(skipDraft := stats.skipDraft + 1);
    } else if result == SkipNoProductId {
      stats' := stats.(skipNoProductId := stats.skipNoProductId + 1);
    } else {
      stats' := stats.(errors := stats.errors + 1);
    }
  }

  /** The groups `main` processes. */
  function Groups(rows: seq<SheetRow>, truthySi: string -> bool, toQty: string -> Option<int>): Dict<string, seq<SheetRow>> {
    GroupPairs(SkuPairs(Filter(rows, Selects(truthySi, toQty))))
  }

  /** `main`. `sheet` is what `gs_read_rows` gave (`None` when it raised),
      `shopOk` whether the client could be built. Returned: the exit code,
      the mode, the counters and the SKUs' outcomes. */
  method RunMain(apply: bool, dryRunFlag: bool, sheet: Option<seq<SheetRow>>, truthySi: string -> bool,
              toQty: string -> Option<int>, shopOk: bool, store: Store, cleanPrice: Option<string> -> Option<string>)
    returns (exitCode: int, dry: bool, stats: Stats, outcomes: seq<Outcome>)
    ensures dry == DryRun(apply, dryRunFlag)
    ensures exitCode == 0 || exitCode == 1
    ensures sheet.None? ==> exitCode == 1 && outcomes == []
    ensures sheet.Some? && Filter(sheet.value, Selects(truthySi, toQty)) == [] ==> exitCode == 0 && outcomes == []
    ensures sheet.Some? && Filter(sheet.value, Selects(truthySi, toQty)) != [] && !shopOk ==> exitCode == 1 && outcomes == []
    ensures sheet.Some? && Filter(sheet.value, Selects(truthySi, toQty)) != [] && shopOk ==>
      NoEmptyBucket(Groups(sheet.value, truthySi, toQty))
      && outcomes == SkuOutcomes(Groups(sheet.value, truthySi, toQty), store, cleanPrice, dry)
      && stats == Tally(outcomes)
      && (exitCode == 0 <==> Error !in outcomes)
  {
    dry := DryRun(apply, dryRunFlag);
    stats := Stats(0, 0, 0, 0, 0, 0);
    outcomes := [];
    if sheet.None? {
      return 1, dry, stats, outcomes;
    }
    var selected := SelectRows(sheet.value, truthySi, toQty);
    if selected == [] {
      return 0, dry, stats, outcomes;
    }
    var grouped := GroupBySku(selected);
    if !shopOk {
      return 1, dry, stats, outcomes;
    }
    GroupPairsNonEmpty(SkuPairs(selected));
    stats, outcomes := ProcessSkus(grouped, store, cleanPrice, dry);
    TallyNoErrors(outcomes);
    exitCode := if stats.errors == 0 then 0 else 1;
  }
}
