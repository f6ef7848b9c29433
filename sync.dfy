/** The sheet-to-store synchronisation of `src/sync.py`: which rows are
    selected, how they are keyed and grouped, how a price cell becomes a
    two-decimal string, the product payload, the throttled retrying REST
    client with its location cache, and the apply loop with its counters. */
module Sync {
  import opened Wrappers
  import opened Strings
  import opened Seqs
  import opened Dicts
  import opened Json
  import opened Http
  import GSheets

  // ---------------------------------------------------------------------
  // _is_selected

  /** A cell value as `_is_selected` may receive it: `None`, a boolean, an
      int, a finite float, a NaN or infinite float, or a string. */
  datatype Cell = CNone | CBool(b: bool) | CInt(i: int) | CFloat(x: real) | CNonFinite | CStr(s: string)

  const SelectedWords: set<string> := {"1", "true", "yes", "si", "sì", "x", "ok"}

  /** Python's `int(x)` on a finite float: truncation toward zero. */
  function TruncToInt(x: real): (n: int)
    ensures x >= 0.0 ==> n as real <= x < n as real + 1.0
    ensures x < 0.0 ==> n as real - 1.0 < x <= n as real
  {
    if x >= 0.0 then x.Floor else -((-x).Floor)
  }

  /** `_is_selected`. Booleans are ints in Python, so `False` reaches the
      numeric test and fails it; a NaN or infinite float makes `int()`
      raise, which is swallowed. */
  predicate IsSelected(v: Cell) {
    match v
    case CNone => false
    case CBool(b) => b
    case CInt(i) => i == 1
    case CFloat(x) => TruncToInt(x) == 1
    case CNonFinite => false
    case CStr(s) => Lower(Strip(s)) in SelectedWords
  }

  /** A float is selected exactly when it lies in [1, 2). */
  lemma FloatSelected(x: real)
    ensures IsSelected(CFloat(x)) <==> 1.0 <= x < 2.0
  {
  }

  /** Lower-casing never creates or removes whitespace at the ends. */
  lemma LowerOfStripped(s: string)
    ensures Strip(Lower(Strip(s))) == Lower(Strip(s))
  {
    StripOfUnpadded(Lower(Strip(s)));
  }

  /** Selection of a string ignores surrounding whitespace and ASCII case. */
  lemma SelectedIgnoresPaddingAndCase(s: string)
    ensures IsSelected(CStr(s)) == IsSelected(CStr(Lower(Strip(s))))
  {
    LowerOfStripped(s);
    LowerIdempotent(Strip(s));
  }

  /** The `online` cell of a loaded row: missing, or the raw sheet text. */
  function OnlineCell(o: Option<string>): Cell {
    match o
    case None => CNone
    case Some(s) => CStr(s)
  }

  predicate RowSelected(r: GSheets.Row) { IsSelected(OnlineCell(r.online)) }

  // ---------------------------------------------------------------------
  // _make_key

  /** `_make_key`: the product id when there is one, else `sku::taglia`
      when both are there, else the bare sku (possibly ""). */
  function MakeKey(r: GSheets.Row): (k: string) {
    var pid := Strip(r.productId);
    var sku := Strip(r.sku);
    var taglia := Strip(r.taglia);
    if pid != "" then pid
    else if sku != "" && taglia != "" then sku + "::" + taglia
    else sku
  }

  /** A row has no key exactly when it has neither a product id nor a sku;
      a size alone keys nothing. */
  lemma MakeKeyEmpty(r: GSheets.Row)
    ensures MakeKey(r) == "" <==> Strip(r.productId) == "" && Strip(r.sku) == ""
  {
  }

  /** Without a product id, a row with a size is keyed by sku and size
      apart from a row of the same sku without one. */
  lemma MakeKeySizeSeparates(r1: GSheets.Row, r2: GSheets.Row)
    requires Strip(r1.productId) == "" && Strip(r2.productId) == ""
    requires Strip(r1.sku) == Strip(r2.sku) != ""
    requires Strip(r1.taglia) != "" && Strip(r2.taglia) == ""
    ensures MakeKey(r1) != MakeKey(r2)
  {
    assert |MakeKey(r1)| > |MakeKey(r2)|;
  }

  /** A product id decides the key, whatever sku and size say. */
  lemma MakeKeyProductIdWins(r1: GSheets.Row, r2: GSheets.Row)
    requires Strip(r1.productId) == Strip(r2.productId) != ""
    ensures MakeKey(r1) == MakeKey(r2) == Strip(r1.productId)
  {
  }

  // ---------------------------------------------------------------------
  // _group_updates

  /** `(_make_key(r), r)` for every row. */
  function KeyedPairs(rows: seq<GSheets.Row>): (ps: seq<(string, GSheets.Row)>)
    ensures |ps| == |rows|
    ensures forall i :: 0 <= i < |rows| ==> ps[i] == (MakeKey(rows[i]), rows[i])
  {
    seq(|rows|, i requires 0 <= i < |rows| => (MakeKey(rows[i]), rows[i]))
  }

  /** `_group_updates`: append every row to the bucket of its key. */
  method GroupUpdates(selected: seq<GSheets.Row>) returns (bucket: Dict<string, seq<GSheets.Row>>)
    ensures bucket == GroupPairs(KeyedPairs(selected))
    ensures Keys(bucket) == Dedup(Keys(KeyedPairs(selected)))
  {
    ghost var ps := KeyedPairs(selected);
    bucket := [];
    for i := 0 to |selected|
      invariant bucket == GroupPairs(ps[..i])
    {
      var r := selected[i];
      GroupPairsSnoc(ps, i);
      bucket := AppendAt(bucket, MakeKey(r), r);
    }
    assert ps[..|selected|] == ps;
    assert Keys(bucket) == Dedup(Keys(ps)) by { GroupPairsKeys(ps); }
  }

  lemma KeyedPairsValues(rows: seq<GSheets.Row>)
    ensures Values(KeyedPairs(rows)) == rows
  {
  }

  /** A bucket exists exactly for the keys that occur. */
  lemma GroupUpdatesKeys(selected: seq<GSheets.Row>, k: string)
    ensures k in Keys(GroupPairs(KeyedPairs(selected))) <==> k in KeysOf(selected)
  {
    GroupPairsKeys(KeyedPairs(selected));
  }

  lemma KeyedPairsMember(rows: seq<GSheets.Row>, k: string, r: GSheets.Row)
    ensures (k, r) in KeyedPairs(rows) <==> r in rows && MakeKey(r) == k
  {
    var ps := KeyedPairs(rows);
    if r in rows && MakeKey(r) == k {
      var i :| 0 <= i < |rows| && rows[i] == r;
      assert ps[i] == (k, r);
    }
  }

  /** Every row lands in the bucket of its own key and in no other; the
      bucket keeps the rows' order, being `Bucket`. */
  lemma GroupUpdatesBucket(selected: seq<GSheets.Row>, k: string, r: GSheets.Row)
    ensures r in Get(GroupPairs(KeyedPairs(selected)), k).GetOr([]) <==> r in selected && MakeKey(r) == k
  {
    var ps := KeyedPairs(selected);
    GroupPairsGet(ps, k);
    BucketMembers(ps, k, r);
    KeyedPairsMember(selected, k, r);
  }

  /** Grouping keeps every row: the buckets together hold as many rows as
      were selected, and as many satisfying any test `p`. */
  lemma GroupUpdatesCount(selected: seq<GSheets.Row>, p: GSheets.Row -> bool)
    ensures |Filter(Flatten(Values(GroupPairs(KeyedPairs(selected)))), p)| == |Filter(selected, p)|
  {
    GroupPairsCount(KeyedPairs(selected), p);
    KeyedPairsValues(selected);
  }

  // ---------------------------------------------------------------------
  // _price_to_str_num

  predicate IsPriceChar(c: char) { IsDigit(c) || c == ',' || c == '.' }

  /** A lone comma with no dot becomes the decimal point. */
  function CommaToDot(t: string): string {
    if Count(t, ',') == 1 && Count(t, '.') == 0 then ReplaceChar(t, ',', ".") else t
  }

  /** More than one dot: all dots go. */
  function DropDots(t: string): string {
    if Count(t, '.') > 1 then ReplaceChar(t, '.', "") else t
  }

  /** The string-cleaning stages of `_price_to_str_num`: keep digits, ','
      and '.', then `CommaToDot`, then `DropDots`. */
  function CleanPrice(s: string): string {
    DropDots(CommaToDot(Filter(s, IsPriceChar)))
  }

  ghost predicate PriceChars(t: string) {
    forall i :: 0 <= i < |t| ==> IsPriceChar(t[i])
  }

  lemma {:induction false} CountReplace(s: string, a: char, b: char)
    requires a != b
    ensures Count(ReplaceChar(s, a, [b]), b) == Count(s, b) + Count(s, a)
    ensures Count(ReplaceChar(s, a, [b]), a) == 0
  {
    if s != [] {
      CountReplace(s[1..], a, b);
      assert ReplaceChar(s, a, [b]) == (if s[0] == a then [b] else [s[0]]) + ReplaceChar(s[1..], a, [b]);
      CountAppend(if s[0] == a then [b] else [s[0]], ReplaceChar(s[1..], a, [b]), b);
      CountAppend(if s[0] == a then [b] else [s[0]], ReplaceChar(s[1..], a, [b]), a);
    }
  }

  lemma {:induction false} CountAppend(s: string, t: string, c: char)
    ensures Count(s + t, c) == Count(s, c) + Count(t, c)
  {
    if s == [] {
      assert s + t == t;
    } else {
      assert (s + t)[0] == s[0];
      assert (s + t)[1..] == s[1..] + t;
      CountAppend(s[1..], t, c);
    }
  }

  lemma {:induction false} FilterOfNoDigits(s: string)
    requires forall i :: 0 <= i < |s| ==> !IsDigit(s[i])
    ensures Filter(s, IsDigit) == []
  {
    if s != [] { FilterOfNoDigits(s[1..]); }
  }

  /** Replacing a non-digit by non-digits keeps the digits, in order. */
  lemma {:induction false} ReplaceKeepsDigits(s: string, a: char, b: string)
    requires !IsDigit(a) && forall i :: 0 <= i < |b| ==> !IsDigit(b[i])
    ensures Filter(ReplaceChar(s, a, b), IsDigit) == Filter(s, IsDigit)
  {
    if s != [] {
      var h := if s[0] == a then b else [s[0]];
      assert ReplaceChar(s, a, b) == h + ReplaceChar(s[1..], a, b);
      FilterAppend(h, ReplaceChar(s[1..], a, b), IsDigit);
      ReplaceKeepsDigits(s[1..], a, b);
      if s[0] == a {
        FilterOfNoDigits(b);
      } else {
        assert Filter(h, IsDigit) == (if IsDigit(s[0]) then [s[0]] else []);
      }
    }
  }

  /** Keeping the price characters keeps every digit, in order. */
  lemma {:induction false} PriceFilterKeepsDigits(s: string)
    ensures Filter(Filter(s, IsPriceChar), IsDigit) == Filter(s, IsDigit)
  {
    if s != [] { PriceFilterKeepsDigits(s[1..]); }
  }

  lemma CommaToDotChars(t: string)
    ensures PriceChars(t) ==> PriceChars(CommaToDot(t))
  {
    var r := ReplaceChar(t, ',', ".");
    if PriceChars(t) {
      forall i | 0 <= i < |r| ensures IsPriceChar(r[i]) {
        assert r[i] in r;
      }
    }
  }

  lemma DropDotsChars(t: string)
    ensures PriceChars(t) ==> PriceChars(DropDots(t))
  {
    var r := ReplaceChar(t, '.', "");
    if PriceChars(t) {
      forall i | 0 <= i < |r| ensures IsPriceChar(r[i]) {
        assert r[i] in r;
      }
    }
  }

  /** Cleaning leaves only digits, ',' and '.'. */
  lemma CleanPriceChars(s: string)
    ensures PriceChars(CleanPrice(s))
  {
    CommaToDotChars(Filter(s, IsPriceChar));
    DropDotsChars(CommaToDot(Filter(s, IsPriceChar)));
  }

  /** Cleaning leaves at most one dot. */
  lemma CleanPriceOneDot(s: string)
    ensures Count(CleanPrice(s), '.') <= 1
  {
    var t := CommaToDot(Filter(s, IsPriceChar));
    if Count(t, '.') > 1 {
      assert '.' !in ReplaceChar(t, '.', "");
    }
  }

  lemma CommaToDotDigits(t: string)
    ensures Filter(CommaToDot(t), IsDigit) == Filter(t, IsDigit)
  {
    ReplaceKeepsDigits(t, ',', ".");
  }

  lemma DropDotsDigits(t: string)
    ensures Filter(DropDots(t), IsDigit) == Filter(t, IsDigit)
  {
    ReplaceKeepsDigits(t, '.', "");
  }

  /** Cleaning keeps every digit of the input, in order. */
  lemma CleanPriceDigits(s: string)
    ensures Filter(CleanPrice(s), IsDigit) == Filter(s, IsDigit)
  {
    PriceFilterKeepsDigits(s);
    CommaToDotDigits(Filter(s, IsPriceChar));
    DropDotsDigits(CommaToDot(Filter(s, IsPriceChar)));
  }

  /** A lone comma without a dot ends up as the only dot. */
  lemma CleanPriceLoneComma(s: string)
    ensures var t := Filter(s, IsPriceChar);
      Count(t, ',') == 1 && Count(t, '.') == 0 ==> ',' !in CleanPrice(s) && Count(CleanPrice(s), '.') == 1
  {
    CountReplace(Filter(s, IsPriceChar), ',', '.');
  }

  /** `_price_to_str_num`, with `float(s2)` formatted as "%.2f" given as
      `toFixed2` (`None` when `float` raises). */
  function PriceToStrNum(v: Option<string>, toFixed2: string -> Option<string>): Option<string>
  {
    if v.None? then None
    else
      var s := Strip(v.value);
      if s == "" then None
      else
        var s2 := CleanPrice(s);
        if s2 == "" then None else toFixed2(s2)
  }

  lemma {:induction false} FilterAllPriceChars(t: string)
    ensures PriceChars(t) ==> Filter(t, IsPriceChar) == t
  {
    if t != [] {
      FilterAllPriceChars(t[1..]);
    }
  }

  lemma {:induction false} ReplaceCharAppend(s: string, t: string, a: char, b: string)
    ensures ReplaceChar(s + t, a, b) == ReplaceChar(s, a, b) + ReplaceChar(t, a, b)
  {
    if s == [] {
      assert s + t == t;
    } else {
      assert (s + t)[0] == s[0];
      assert (s + t)[1..] == s[1..] + t;
      ReplaceCharAppend(s[1..], t, a, b);
    }
  }

  lemma CommaPriceFilter(p: string, q: string)
    requires AllDigits(p) && AllDigits(q)
    ensures Filter(p + "," + q, IsPriceChar) == p + "," + q
  {
    FilterAllPriceChars(p + "," + q);
  }

  lemma CommaPriceCounts(p: string, q: string)
    requires AllDigits(p) && AllDigits(q)
    ensures Count(p + "," + q, ',') == 1 && Count(p + "," + q, '.') == 0
  {
    assert ',' !in p && ',' !in q && '.' !in p && '.' !in q;
    CountAppend(p, "," + q, ',');
    CountAppend(",", q, ',');
    CountAppend(p, "," + q, '.');
    CountAppend(",", q, '.');
    assert p + "," + q == p + ("," + q);
  }

  lemma CommaPriceReplace(p: string, q: string)
    requires AllDigits(p) && AllDigits(q)
    ensures ReplaceChar(p + "," + q, ',', ".") == p + "." + q
  {
    assert ',' !in p && ',' !in q;
    ReplaceCharAbsent(p, ',', ".");
    ReplaceCharAbsent(q, ',', ".");
    ReplaceCharAppend(p, "," + q, ',', ".");
    ReplaceCharAppend(",", q, ',', ".");
    assert p + "," + q == p + ("," + q);
    assert p + "." + q == p + ("." + q);
  }

  lemma DotPriceCount(p: string, q: string)
    requires AllDigits(p) && AllDigits(q)
    ensures Count(p + "." + q, '.') == 1
  {
    assert '.' !in p && '.' !in q;
    CountAppend(p, "." + q, '.');
    CountAppend(".", q, '.');
    assert p + "." + q == p + ("." + q);
  }

  /** A price written with a decimal comma between digits is cleaned to
      the same digits around a decimal point. */
  lemma CleanDecimalComma(p: string, q: string)
    requires AllDigits(p) && AllDigits(q)
    ensures CleanPrice(p + "," + q) == p + "." + q
  {
    CommaPriceFilter(p, q);
    CommaPriceCounts(p, q);
    CommaPriceReplace(p, q);
    DotPriceCount(p, q);
  }

  /** Digits alone are left as they are by the cleaning. */
  lemma CleanDigitsOnly(p: string)
    requires AllDigits(p)
    ensures CleanPrice(p) == p
  {
    FilterAllPriceChars(p);
    assert ',' !in p && '.' !in p;
  }

  /** A price with a decimal point between digits is left as it is. */
  lemma CleanDecimalDot(p: string, q: string)
    requires AllDigits(p) && AllDigits(q)
    ensures CleanPrice(p + "." + q) == p + "." + q
  {
    FilterAllPriceChars(p + "." + q);
    assert ',' !in p + "." + q;
    DotPriceCount(p, q);
  }

  lemma EuroNotPriceChars()
    ensures Filter("€ ", IsPriceChar) == [] && Filter("€", IsPriceChar) == []
  {
    assert "€ "[1..] == " " && " "[1..] == [] && "€"[1..] == [];
  }

  /** Digits behind a euro sign: the sign and the space are dropped. */
  lemma CleanEuroPrefix(p: string)
    requires AllDigits(p)
    ensures CleanPrice("€ " + p) == p
  {
    EuroNotPriceChars();
    FilterAppend("€ ", p, IsPriceChar);
    FilterAllPriceChars(p);
    CleanDigitsOnly(p);
  }

  /** Digits followed by a euro sign: the sign is dropped. */
  lemma CleanEuroSuffix(p: string)
    requires AllDigits(p)
    ensures CleanPrice(p + "€") == p
  {
    EuroNotPriceChars();
    FilterAppend(p, "€", IsPriceChar);
    FilterAllPriceChars(p);
    CleanDigitsOnly(p);
  }

  /** The four forms of the docstring, for any digits `p` and `q`: '€ p'
      and 'p€' are formatted from p, 'p,q' and 'p.q' from "p.q". */
  lemma PriceToStrNumForms(p: string, q: string, toFixed2: string -> Option<string>)
    requires AllDigits(p) && AllDigits(q) && p != ""
    ensures PriceToStrNum(Some("€ " + p), toFixed2) == toFixed2(p)
    ensures PriceToStrNum(Some(p + "€"), toFixed2) == toFixed2(p)
    ensures PriceToStrNum(Some(p + "," + q), toFixed2) == toFixed2(p + "." + q)
    ensures PriceToStrNum(Some(p + "." + q), toFixed2) == toFixed2(p + "." + q)
  {
    PriceToStrNumEuro(p, toFixed2);
    PriceToStrNumDecimal(p, q, ',', toFixed2);
    PriceToStrNumDecimal(p, q, '.', toFixed2);
  }

  lemma PriceToStrNumEuro(p: string, toFixed2: string -> Option<string>)
    requires AllDigits(p) && p != ""
    ensures PriceToStrNum(Some("€ " + p), toFixed2) == toFixed2(p)
    ensures PriceToStrNum(Some(p + "€"), toFixed2) == toFixed2(p)
  {
    assert ("€ " + p)[0] == '€' && ("€ " + p)[|"€ " + p| - 1] == p[|p| - 1];
    StripOfUnpadded("€ " + p);
    CleanEuroPrefix(p);
    assert (p + "€")[0] == p[0];
    StripOfUnpadded(p + "€");
    CleanEuroSuffix(p);
  }

  lemma PriceToStrNumDecimal(p: string, q: string, sep: char, toFixed2: string -> Option<string>)
    requires AllDigits(p) && AllDigits(q) && p != "" && (sep == ',' || sep == '.')
    ensures PriceToStrNum(Some(p + [sep] + q), toFixed2) == toFixed2(p + "." + q)
  {
    var t := p + [sep] + q;
    assert t[0] == p[0];
    assert q == [] || t[|t| - 1] == q[|q| - 1];
    StripOfUnpadded(t);
    if sep == ',' {
      CleanDecimalComma(p, q);
    } else {
      CleanDecimalDot(p, q);
    }
  }

  /** The docstring's examples: '€ 129' reaches the float formatting as
      "129", and '129,90' as "129.90". */
  lemma PriceToStrNumExamples(toFixed2: string -> Option<string>)
    ensures PriceToStrNum(Some("€ 129"), toFixed2) == toFixed2("129")
    ensures PriceToStrNum(Some("129,90"), toFixed2) == toFixed2("129.90")
  {
    ExampleDigits();
    PriceToStrNumForms("129", "90", toFixed2);
  }

  lemma ExampleDigits()
    ensures AllDigits("129") && AllDigits("90")
    ensures "€ 129" == "€ " + "129"
    ensures "129,90" == "129" + "," + "90" && "129.90" == "129" + "." + "90"
  {
  }

  // ---------------------------------------------------------------------
  // _gid_to_numeric

  /** `s.split("/")[-1]`: what follows the last '/', or all of `s`. */
  function LastSegment(s: string): (r: string)
    ensures |r| <= |s| && r == s[|s| - |r|..]
    ensures '/' !in r
    ensures |r| < |s| ==> s[|s| - |r| - 1] == '/'
  {
    if s == [] then []
    else if s[|s| - 1] == '/' then []
    else LastSegment(s[..|s| - 1]) + [s[|s| - 1]]
  }

  /** The last segment is the text after the final separator. */
  lemma {:induction false} LastSegmentAfterSlash(p: string, t: string)
    requires '/' !in t
    ensures LastSegment(p + "/" + t) == t
    decreases |t|
  {
    if t != [] {
      var s := p + "/" + t;
      assert s[..|s| - 1] == p + "/" + t[..|t| - 1];
      LastSegmentAfterSlash(p, t[..|t| - 1]);
      assert t == t[..|t| - 1] + [t[|t| - 1]];
    } else {
      assert p + "/" + t == p + "/";
    }
  }

  lemma {:induction false} LastSegmentNoSlash(s: string)
    requires '/' !in s
    ensures LastSegment(s) == s
  {
    if s != [] {
      LastSegmentNoSlash(s[..|s| - 1]);
      assert s == s[..|s| - 1] + [s[|s| - 1]];
    }
  }

  /** `_gid_to_numeric`. */
  function GidToNumeric(gid: string): (r: Option<string>)
    ensures r.None? <==> gid == ""
  {
    if gid == "" then None else Some(LastSegment(Strip(gid)))
  }

  /** A Shopify product gid yields its numeric tail. */
  lemma GidToNumericOfGid(n: string)
    requires n != [] && forall i :: 0 <= i < |n| ==> IsDigit(n[i])
    ensures GidToNumeric("gid://shopify/Product/" + n) == Some(n)
  {
    var g := "gid://shopify/Product/" + n;
    assert g == "gid://shopify/Product" + "/" + n;
    assert !IsSpace(g[0]) && !IsSpace(g[|g| - 1]);
    StripOfUnpadded(g);
    LastSegmentAfterSlash("gid://shopify/Product", n);
  }

  // ---------------------------------------------------------------------
  // create_product_with_one_variant

  /** Python's `a or b` on optional strings. */
  function OrElse(a: Option<string>, b: Option<string>): Option<string> {
    if a.Some? && a.value != "" then a else b
  }

  /** The variant price: the sale price, else the full price, else "0.00". */
  function ProductPrice(row: GSheets.Row, toFixed2: string -> Option<string>): (p: string)
    ensures p != ""
  {
    OrElse(OrElse(PriceToStrNum(Some(row.prezzoScontato), toFixed2),
                  PriceToStrNum(Some(row.prezzoPieno), toFixed2)), Some("0.00")).value
  }

  /** The price is the first usable of sale price, full price, "0.00". */
  lemma ProductPriceFallback(row: GSheets.Row, toFixed2: string -> Option<string>)
    ensures var sale := PriceToStrNum(Some(row.prezzoScontato), toFixed2);
      var full := PriceToStrNum(Some(row.prezzoPieno), toFixed2);
      ProductPrice(row, toFixed2)
        == if sale.Some? && sale.value != "" then sale.value
           else if full.Some? && full.value != "" then full.value
           else "0.00"
  {
  }

  /** The title: `titolo`, else `sku`, else "Untitled", stripped (a loaded
      row has no `title` key). */
  function ProductTitle(row: GSheets.Row): string {
    Strip(if row.titolo != "" then row.titolo else if row.sku != "" then row.sku else "Untitled")
  }

  function StrOrNull(s: string): Json { if s != "" then JStr(s) else JNull }

  /** The size option the product declares when the row has a size. */
  const SizeOption: Json := JArr([JObj([("name", JStr("Size"))])])

  /** The one variant as written, `None`s included. */
  function VariantFields(sku: string, taglia: string, price: string): seq<(string, Json)> {
    [("sku", StrOrNull(sku)), ("option1", StrOrNull(taglia)),
     ("price", JStr(price)), ("inventory_management", JStr("shopify"))]
  }

  /** The product object as written, `None`s included. */
  function ProductFields(title: string, vendor: string, sku: string, taglia: string, price: string)
    : seq<(string, Json)>
  {
    [("title", JStr(title)), ("vendor", StrOrNull(vendor)), ("status", JStr("active")),
     ("options", if taglia != "" then SizeOption else JNull),
     ("variants", JArr([JObj(VariantFields(sku, taglia, price))]))]
  }

  /** The payload as the code writes it, `None`s included. */
  function RawProduct(row: GSheets.Row, toFixed2: string -> Option<string>): Json {
    JObj([("product", JObj(ProductFields(ProductTitle(row), Strip(row.brand), Strip(row.sku),
                                         Strip(row.taglia), ProductPrice(row, toFixed2))))])
  }

  /** What is sent: the payload after `_purge_none`. */
  function ProductPayload(row: GSheets.Row, toFixed2: string -> Option<string>): (j: Json)
    ensures NullFree(j)
  {
    var raw := RawProduct(row, toFixed2);
    PurgeNullFree(raw);
    Purge(raw)
  }

  /** An optional string entry, present only when the string is non-empty. */
  function Entry(key: string, s: string): seq<(string, Json)> {
    if s != "" then [(key, JStr(s))] else []
  }

  function ExpectedVariant(sku: string, taglia: string, price: string): seq<(string, Json)> {
    Entry("sku", sku) + (Entry("option1", taglia)
      + [("price", JStr(price)), ("inventory_management", JStr("shopify"))])
  }

  function ExpectedFields(title: string, vendor: string, sku: string, taglia: string, price: string)
    : seq<(string, Json)>
  {
    [("title", JStr(title))] + (Entry("vendor", vendor) + ([("status", JStr("active"))]
      + ((if taglia != "" then [("options", SizeOption)] else [])
      + [("variants", JArr([JObj(ExpectedVariant(sku, taglia, price))]))])))
  }

  /** The payload written out field by field: `vendor`, `options`, `sku`
      and `option1` appear exactly when they are non-empty. */
  function ExpectedProduct(row: GSheets.Row, toFixed2: string -> Option<string>): Json {
    JObj([("product", JObj(ExpectedFields(ProductTitle(row), Strip(row.brand), Strip(row.sku),
                                          Strip(row.taglia), ProductPrice(row, toFixed2))))])
  }

  lemma PurgeVariant(sku: string, taglia: string, price: string)
    ensures PurgeFields(VariantFields(sku, taglia, price), 0) == ExpectedVariant(sku, taglia, price)
  {
    var fs := VariantFields(sku, taglia, price);
    var tail := [("price", JStr(price)), ("inventory_management", JStr("shopify"))];
    assert PurgeFields(fs, 4) == [];
    assert PurgeFields(fs, 3) == [("inventory_management", JStr("shopify"))];
    assert PurgeFields(fs, 2) == tail;
    assert PurgeFields(fs, 1) == Entry("option1", taglia) + tail;
  }

  lemma PurgeVariants(sku: string, taglia: string, price: string)
    ensures Purge(JArr([JObj(VariantFields(sku, taglia, price))]))
         == JArr([JObj(ExpectedVariant(sku, taglia, price))])
  {
    var v := JObj(VariantFields(sku, taglia, price));
    PurgeVariant(sku, taglia, price);
    assert PurgeItems([v]) == [Purge(v)] + PurgeItems([]);
  }

  lemma PurgeOptions()
    ensures Purge(SizeOption) == SizeOption
  {
    var o := JObj([("name", JStr("Size"))]);
    assert NullFree(SizeOption) by {
      assert NullFree(o);
    }
    PurgeKeepsNullFree(SizeOption);
  }

  /** The last two product fields after purging. */
  lemma PurgeProductTail(title: string, vendor: string, sku: string, taglia: string, price: string)
    ensures PurgeFields(ProductFields(title, vendor, sku, taglia, price), 3)
         == (if taglia != "" then [("options", SizeOption)] else [])
            + [("variants", JArr([JObj(ExpectedVariant(sku, taglia, price))]))]
  {
    var pfs := ProductFields(title, vendor, sku, taglia, price);
    PurgeVariants(sku, taglia, price);
    PurgeOptions();
    assert PurgeFields(pfs, 5) == [];
    assert PurgeFields(pfs, 4) == [("variants", JArr([JObj(ExpectedVariant(sku, taglia, price))]))];
  }

  lemma PurgeProductFields(title: string, vendor: string, sku: string, taglia: string, price: string)
    ensures PurgeFields(ProductFields(title, vendor, sku, taglia, price), 0)
         == ExpectedFields(title, vendor, sku, taglia, price)
  {
    var pfs := ProductFields(title, vendor, sku, taglia, price);
    PurgeProductTail(title, vendor, sku, taglia, price);
    assert PurgeFields(pfs, 2) == [("status", JStr("active"))] + PurgeFields(pfs, 3);
    assert PurgeFields(pfs, 1) == Entry("vendor", vendor) + PurgeFields(pfs, 2);
  }

  lemma PurgeProduct(title: string, vendor: string, sku: string, taglia: string, price: string)
    ensures Purge(JObj([("product", JObj(ProductFields(title, vendor, sku, taglia, price)))]))
         == JObj([("product", JObj(ExpectedFields(title, vendor, sku, taglia, price)))])
  {
    PurgeProductFields(title, vendor, sku, taglia, price);
    var pfs := ProductFields(title, vendor, sku, taglia, price);
    var top := [("product", JObj(pfs))];
    assert PurgeFields(top, 1) == [];
    assert Purge(JObj(pfs)) == JObj(ExpectedFields(title, vendor, sku, taglia, price));
    assert PurgeFields(top, 0) == [("product", Purge(JObj(pfs)))];
  }

  /** `_purge_none` turns the written payload into exactly the expected one. */
  lemma ProductPayloadExpected(row: GSheets.Row, toFixed2: string -> Option<string>)
    ensures ProductPayload(row, toFixed2) == ExpectedProduct(row, toFixed2)
  {
    PurgeProduct(ProductTitle(row), Strip(row.brand), Strip(row.sku), Strip(row.taglia), ProductPrice(row, toFixed2));
  }

  // ---------------------------------------------------------------------
  // Shopify: throttle, retrying request, location cache

  /** A response as the client sees it: status, `Retry-After`, and the body
      as JSON when it parses (`None` when `r.json()` fails). */
  datatype Response = Response(status: int, retryAfter: RetryAfter, body: Option<Json>)

  /** Why `_request` produced no response: the transport raised, or the
      retry count was below one and the loop never ran, so `return r`
      raises an unbound-local error. */
  datatype RequestError = TransportError(attempt: nat) | NoAttempt

  /** 429 and 5xx are retried; every other status is returned. */
  predicate Retryable(status: int) { status == 429 || 500 <= status < 600 }

  /** The 429 wait: `Retry-After` seconds, or one second when the header is
      absent, empty or not a number. */
  function RetryAfterMs(h: RetryAfter): nat {
    match h
    case Seconds(ms) => ms
    case _ => 1000
  }

  /** The sleep after a retried response on attempt `attempt` (1-based). */
  function RetryWaitMs(r: Response, attempt: nat): nat
    requires attempt >= 1
  {
    if r.status == 429 then RetryAfterMs(r.retryAfter) else CappedStepMs(attempt)
  }

  /** `_json_or_raise`: a status of 400 or more raises; otherwise the body,
      or `{}` when it does not parse. */
  function JsonOrRaise(r: Response): Result<Json, int>
  {
    if r.status >= 400 then Err(r.status) else Ok(r.body.GetOr(JObj([])))
  }

  /** A request that exhausted its retries hands back a 429 or 5xx, which
      `_json_or_raise` turns into an error. */
  lemma ExhaustedRaises(r: Response)
    requires Retryable(r.status)
    ensures JsonOrRaise(r).Err?
  {
  }

  /** Why one of the four request wrappers raised: `_request` produced no
      response, or `_json_or_raise` rejected the status. */
  datatype CallError = NoResponse(cause: RequestError) | Status(status: int)

  /** The first `n` attempts all get a 429 or a 5xx. */
  ghost predicate AllRetryable(net: nat -> Event<Response>, n: nat) {
    forall a :: 0 <= a < n ==> net(a).Delivered? && Retryable(net(a).response.status)
  }

  datatype Location = Location(name: string, id: int)

  /** `{loc["name"]: loc for loc in locations}`. */
  function LocationPairs(locs: seq<Location>): (ps: seq<(string, Location)>)
    ensures |ps| == |locs|
    ensures forall i :: 0 <= i < |locs| ==> ps[i] == (locs[i].name, locs[i])
  {
    seq(|locs|, i requires 0 <= i < |locs| => (locs[i].name, locs[i]))
  }

  const NoLocationError := "Nessuna location Shopify disponibile per l'inventario."

  /** The lookup on a filled cache: the named location, else the first one,
      else an error. */
  function PickLocation(cache: Dict<string, Location>, name: string): Result<Location, string> {
    match Get(cache, name)
    case Some(l) => Ok(l)
    case None => if cache != [] then Ok(cache[0].1) else Err(NoLocationError)
  }

  /** On a cache built from a location list: an error exactly when the list
      is empty; when some location has the name, the last one listed with it;
      otherwise a location with the name of the first one listed (the last
      of those, as the dict keeps the first position and the last value). */
  lemma PickLocationFromList(locs: seq<Location>, name: string)
    ensures var r := PickLocation(FromPairs(LocationPairs(locs)), name);
      && (r.Err? <==> locs == [])
      && (r.Ok? ==> r.value in locs)
      && ((exists i :: 0 <= i < |locs| && locs[i].name == name) ==>
            exists i :: 0 <= i < |locs| && locs[i] == r.value && locs[i].name == name
              && forall j :: i < j < |locs| ==> locs[j].name != name)
      && ((forall i :: 0 <= i < |locs| ==> locs[i].name != name) && locs != [] ==>
            r.value.name == locs[0].name)
  {
    var ps := LocationPairs(locs);
    var c := FromPairs(ps);
    FromPairsGet(ps, name);
    if Get(c, name).None? && c != [] {
      FromPairsUnique(ps);
      FromPairsGet(ps, c[0].0);
      GetAt(c, 0);
      assert Get(c, c[0].0) == Some(c[0].1);
      var i :| 0 <= i < |ps| && ps[i] == (c[0].0, c[0].1) && LastAt(ps, c[0].0, i);
      assert locs[i] == c[0].1;
      FromPairsFirst(ps);
    }
    if locs != [] {
      FromPairsGet(ps, locs[0].name);
      assert ps[0].0 == locs[0].name;
    }
    if exists i :: 0 <= i < |locs| && locs[i].name == name {
      var i :| 0 <= i < |locs| && locs[i].name == name;
      assert ps[i].0 == name;
      var k :| 0 <= k < |ps| && ps[k] == (name, Get(c, name).value) && LastAt(ps, name, k);
      assert locs[k] == Get(c, name).value;
    }
  }

  class Shopify {
    var minIntervalMs: int
    var maxRetries: int
    var lastCallTs: int
    var locationCache: Option<Dict<string, Location>>

    /** A new client. The two settings come from the environment; `None`
        stands for a value that does not parse, which falls back to 0.7 s
        and 5 tries. */
    constructor(minIntervalEnv: Option<int>, maxRetriesEnv: Option<int>)
      ensures minIntervalMs == minIntervalEnv.GetOr(700)
      ensures maxRetries == maxRetriesEnv.GetOr(5)
      ensures lastCallTs == 0 && locationCache.None?
    {
      minIntervalMs := minIntervalEnv.GetOr(700);
      maxRetries := maxRetriesEnv.GetOr(5);
      lastCallTs := 0;
      locationCache := None;
    }

    /** `_throttle`: the sleep before a send at time `now`. */
    function ThrottleMs(now: int): (w: nat)
      reads this
      ensures now + w >= lastCallTs + minIntervalMs
      ensures w > 0 ==> now + w == lastCallTs + minIntervalMs
    {
      MinIntervalWait(now - lastCallTs, minIntervalMs)
    }

    /** `_request`. `net(a)` is what the wire gives on attempt `a + 1`;
        `clock(2 * a)` is the time the throttle reads before that attempt
        and `clock(2 * a + 1)` the time recorded after it. Returned:
        the outcome, the attempts made, the throttle sleeps and the retry
        sleeps in order. */
    method Request(net: nat -> Event<Response>, clock: nat -> int)
      returns (out: Result<Response, RequestError>, attempts: nat, throttles: seq<nat>, waits: seq<nat>)
      modifies this`lastCallTs
      ensures maxRetries < 1 ==> out == Err(NoAttempt) && attempts == 0 && lastCallTs == old(lastCallTs)
      ensures maxRetries >= 1 ==> 1 <= attempts <= maxRetries
      ensures |throttles| == attempts
      ensures forall a :: 0 <= a < attempts ==>
        throttles[a] == MinIntervalWait(clock(2 * a) - (if a == 0 then old(lastCallTs) else clock(2 * a - 1)), minIntervalMs)
      ensures forall a :: 0 <= a < attempts - 1 ==> net(a).Delivered? && Retryable(net(a).response.status)
      ensures forall a :: 0 <= a < |waits| ==> a < attempts && net(a).Delivered? && waits[a] == RetryWaitMs(net(a).response, a + 1)
      ensures out.Err? && maxRetries >= 1 ==>
        (out == Err(TransportError(attempts)) && !net(attempts - 1).Delivered? && |waits| == attempts - 1)
      ensures out.Ok? ==> attempts >= 1 && net(attempts - 1) == Delivered(out.value) && lastCallTs == clock(2 * attempts - 1)
      ensures out.Ok? && !Retryable(out.value.status) ==> |waits| == attempts - 1
      ensures out.Ok? && Retryable(out.value.status) ==> attempts == maxRetries && |waits| == attempts
      ensures out == Err(TransportError(attempts)) ==>
        lastCallTs == if attempts == 1 then old(lastCallTs) else clock(2 * attempts - 3)
    {
      attempts := 0;
      throttles := [];
      waits := [];
      out := Err(NoAttempt);
      ghost var start := lastCallTs;
      var attempt := 1;
      while attempt <= maxRetries
        invariant 1 <= attempt && attempts == attempt - 1
        invariant maxRetries >= 1 ==> attempt <= maxRetries
        invariant maxRetries < 1 ==> attempt == 1
        invariant out == Err(NoAttempt)
        invariant |throttles| == attempts && |waits| == attempts
        invariant attempts == 0 ==> lastCallTs == start
        invariant attempts > 0 ==> lastCallTs == clock(2 * attempts - 1)
        invariant forall a :: 0 <= a < attempts ==>
          throttles[a] == MinIntervalWait(clock(2 * a) - (if a == 0 then start else clock(2 * a - 1)), minIntervalMs)
        invariant forall a :: 0 <= a < attempts ==>
          net(a).Delivered? && Retryable(net(a).response.status) && waits[a] == RetryWaitMs(net(a).response, a + 1)
      {
        throttles := throttles + [ThrottleMs(clock(2 * (attempt - 1)))];
        attempts := attempt;
        var ev := net(attempt - 1);
        if !ev.Delivered? {
          out := Err(TransportError(attempt));
          return;
        }
        var r := ev.response;
        lastCallTs := clock(2 * attempt - 1);
        if r.status == 429 {
          waits := waits + [RetryAfterMs(r.retryAfter)];
        } else if 500 <= r.status < 600 {
          waits := waits + [CappedStepMs(attempt)];
        } else {
          out := Ok(r);
          return;
        }
        if attempt == maxRetries {
          out := Ok(r);
          return;
        }
        attempt := attempt + 1;
      }
    }

    /** `_get`, `_post`, `_put` and `_delete`: `_request`, then
        `_json_or_raise` on the response it hands back. It returns a body
        only for a last response below 400. A 4xx is handed back at once
        and raises; a run of 429s and 5xx raises with the last status. */
    method Call(net: nat -> Event<Response>, clock: nat -> int) returns (out: Result<Json, CallError>, attempts: nat)
      modifies this`lastCallTs
      ensures maxRetries < 1 ==> out == Err(NoResponse(NoAttempt)) && lastCallTs == old(lastCallTs)
      ensures out.Ok? ==>
        && 1 <= attempts <= maxRetries && net(attempts - 1).Delivered?
        && net(attempts - 1).response.status < 400
        && out.value == net(attempts - 1).response.body.GetOr(JObj([]))
      ensures out.Err? && out.error.Status? ==>
        1 <= attempts <= maxRetries && net(attempts - 1).Delivered?
        && net(attempts - 1).response.status == out.error.status && out.error.status >= 400
      ensures out.Ok? || out.error.Status? ==> lastCallTs == clock(2 * attempts - 1)
      ensures out.Err? && out.error.NoResponse? && maxRetries >= 1 ==>
        && attempts >= 1 && out.error.cause == TransportError(attempts) && !net(attempts - 1).Delivered?
        && lastCallTs == if attempts == 1 then old(lastCallTs) else clock(2 * attempts - 3)
      ensures maxRetries >= 1 && net(0).Delivered? && 400 <= net(0).response.status < 600 && !Retryable(net(0).response.status)
        ==> attempts == 1 && out == Err(Status(net(0).response.status))
      ensures maxRetries >= 1 && AllRetryable(net, maxRetries)
        ==> attempts == maxRetries && out == Err(Status(net(maxRetries - 1).response.status))
    {
      var r, n, _, _ := Request(net, clock);
      attempts := n;
      if r.Err? {
        out := Err(NoResponse(r.error));
      } else {
        var j := JsonOrRaise(r.value);
        out := if j.Ok? then Ok(j.value) else Err(Status(j.error));
      }
    }

    /** `get_location_by_name`. `fetched` is what `GET /locations.json`
        yields when the cache is still empty: the location list, or the
        error it raises. */
    method GetLocationByName(name: string, fetched: Result<seq<Location>, string>)
      returns (r: Result<Location, string>, didFetch: bool)
      modifies this`locationCache
      ensures didFetch <==> old(locationCache).None?
      ensures old(locationCache).Some? ==> locationCache == old(locationCache)
      ensures didFetch && fetched.Err? ==> r == Err(fetched.error) && locationCache.None?
      ensures didFetch && fetched.Ok? ==> locationCache == Some(FromPairs(LocationPairs(fetched.value)))
      ensures locationCache.Some? ==> r == PickLocation(locationCache.value, name)
    {
      didFetch := locationCache.None?;
      if locationCache.None? {
        if fetched.Err? {
          r := Err(fetched.error);
          return;
        }
        locationCache := Some(FromPairs(LocationPairs(fetched.value)));
      }
      var cache := locationCache.value;
      var hit := Get(cache, name);
      if hit.Some? {
        r := Ok(hit.value);
      } else if cache != [] {
        r := Ok(cache[0].1);
      } else {
        r := Err(NoLocationError);
      }
    }
  }

  // ---------------------------------------------------------------------
  // _apply_updates and run_sync

  /** One store action of the apply loop: activate a product by its
      numeric id, or create a product from a row, setting its stock at
      the promo location when one is configured. */
  datatype Action = Activate(numericId: string) | Create(row: GSheets.Row, promoLocation: Option<string>)

  /** Whether a row leads to an action: every row does except one whose
      product id has an empty gid tail. */
  predicate Acts(r: GSheets.Row) {
    var pid := Strip(r.productId);
    pid == "" || GidToNumeric(pid).value != ""
  }

  function ActionOf(r: GSheets.Row, promo: Option<string>): Action {
    var pid := Strip(r.productId);
    if pid != "" then Activate(GidToNumeric(pid).value) else Create(r, promo)
  }

  /** The actions for the acting rows, in order. */
  function ActionsOf(rows: seq<GSheets.Row>, promo: Option<string>): (acts: seq<Action>)
    ensures |acts| == |Filter(rows, Acts)|
  {
    if rows == [] then []
    else if Acts(rows[0]) then [ActionOf(rows[0], promo)] + ActionsOf(rows[1..], promo)
    else ActionsOf(rows[1..], promo)
  }

  lemma {:induction false} ActionsOfAppend(xs: seq<GSheets.Row>, ys: seq<GSheets.Row>, promo: Option<string>)
    ensures ActionsOf(xs + ys, promo) == ActionsOf(xs, promo) + ActionsOf(ys, promo)
  {
    if xs == [] {
      assert xs + ys == ys;
    } else {
      assert (xs + ys)[0] == xs[0];
      assert (xs + ys)[1..] == xs[1..] + ys;
      ActionsOfAppend(xs[1..], ys, promo);
    }
  }

  /** `PROMO_LOCATION_NAME`, stripped; empty means none. */
  function PromoLocation(env: string): Option<string> {
    if Strip(env) != "" then Some(Strip(env)) else None
  }

  /** `DRY_RUN` as the apply loop reads it. */
  predicate DryRunEnv(env: string) { Lower(Strip(env)) == "true" }

  /** No acting row among `rows` makes its store call raise. */
  predicate AllSafe(rows: seq<GSheets.Row>, raises: GSheets.Row -> bool) {
    forall i :: 0 <= i < |rows| ==> (Acts(rows[i]) ==> !raises(rows[i]))
  }

  lemma AllSafeAppend(xs: seq<GSheets.Row>, ys: seq<GSheets.Row>, raises: GSheets.Row -> bool)
    ensures AllSafe(xs + ys, raises) <==> AllSafe(xs, raises) && AllSafe(ys, raises)
  {
    var zs := xs + ys;
    assert forall i :: 0 <= i < |xs| ==> zs[i] == xs[i];
    assert forall i :: 0 <= i < |ys| ==> zs[|xs| + i] == ys[i];
  }

  /** A single row yields its action exactly when it acts. */
  lemma ActionsOfOne(r: GSheets.Row, promo: Option<string>)
    ensures ActionsOf([r], promo) == if Acts(r) then [ActionOf(r, promo)] else []
  {
    assert [r][0] == r;
    assert [r][1..] == [];
  }

  /** One more acting row of a loop over `rows`: its action is appended. */
  lemma StepActs(rows: seq<GSheets.Row>, j: nat, promo: Option<string>)
    requires j < |rows|
    ensures Acts(rows[j]) ==> ActionsOf(rows[..j + 1], promo) == ActionsOf(rows[..j], promo) + [ActionOf(rows[j], promo)]
  {
    var r := rows[j];
    assert rows[..j + 1] == rows[..j] + [r];
    ActionsOfAppend(rows[..j], [r], promo);
    if Acts(r) {
      ActionsOfOne(r, promo);
    }
  }

  /** One more row that does not act: nothing is appended. */
  lemma StepSkips(rows: seq<GSheets.Row>, j: nat, promo: Option<string>)
    requires j < |rows|
    ensures !Acts(rows[j]) ==> ActionsOf(rows[..j + 1], promo) == ActionsOf(rows[..j], promo)
  {
    var r := rows[j];
    assert rows[..j + 1] == rows[..j] + [r];
    ActionsOfAppend(rows[..j], [r], promo);
    if !Acts(r) {
      ActionsOfOne(r, promo);
      var p := ActionsOf(rows[..j], promo);
      assert p + [] == p;
    }
  }

  /** One more row of a loop over `rows`: the prefix stays safe unless
      that row acts and raises. */
  lemma StepSafe(rows: seq<GSheets.Row>, j: nat, raises: GSheets.Row -> bool)
    requires j < |rows|
    ensures AllSafe(rows[..j + 1], raises) <==> AllSafe(rows[..j], raises) && (Acts(rows[j]) ==> !raises(rows[j]))
  {
    var r := rows[j];
    assert rows[..j + 1] == rows[..j] + [r];
    AllSafeAppend(rows[..j], [r], raises);
    AllSafeOne(r, raises);
  }

  lemma AllSafeOne(r: GSheets.Row, raises: GSheets.Row -> bool)
    ensures AllSafe([r], raises) <==> (Acts(r) ==> !raises(r))
  {
    assert [r][0] == r;
  }

  /** An acting row that raises makes the whole list unsafe. */
  lemma UnsafeAt(rows: seq<GSheets.Row>, j: nat, raises: GSheets.Row -> bool)
    requires j < |rows|
    ensures Acts(rows[j]) && raises(rows[j]) ==> !AllSafe(rows, raises)
  {
  }

  /** The rows of one group. `raises(r)` says whether the store call for
      `r` (activation or creation) raises; that exception ends the program.
      A failed stock update is caught and changes nothing here. */
  method ApplyGroup(rows: seq<GSheets.Row>, promo: Option<string>, raises: GSheets.Row -> bool)
    returns (ok: bool, acts: seq<Action>)
    ensures ok <==> AllSafe(rows, raises)
    ensures ok ==> acts == ActionsOf(rows, promo)
  {
    acts := [];
    for j := 0 to |rows|
      invariant acts == ActionsOf(rows[..j], promo)
      invariant AllSafe(rows[..j], raises)
    {
      var raised;
      raised, acts := GroupStep(rows, j, promo, raises, acts);
      if raised {
        ok := false;
        return;
      }
    }
    assert rows[..|rows|] == rows;
    ok := true;
  }

  /** Row `j` of the loop of `ApplyGroup`, `acts` holding the actions of
      the rows before it. */
  method GroupStep(rows: seq<GSheets.Row>, j: nat, promo: Option<string>, raises: GSheets.Row -> bool,
                   acts: seq<Action>)
    returns (raised: bool, acts': seq<Action>)
    requires j < |rows|
    requires acts == ActionsOf(rows[..j], promo) && AllSafe(rows[..j], raises)
    ensures raised ==> !AllSafe(rows, raises)
    ensures !raised ==> acts' == ActionsOf(rows[..j + 1], promo) && AllSafe(rows[..j + 1], raises)
  {
    var act;
    raised, act := ApplyRow(rows[j], promo, raises);
    acts' := acts;
    if raised {
      UnsafeAt(rows, j, raises);
      return;
    }
    StepSafe(rows, j, raises);
    if act.Some? {
      StepActs(rows, j, promo);
      acts' := acts + [act.value];
    } else {
      StepSkips(rows, j, promo);
    }
  }

  /** The body of the loop over one row: activate by numeric id, skip an
      empty id, or create; `raised` when the store call raises. */
  method ApplyRow(r: GSheets.Row, promo: Option<string>, raises: GSheets.Row -> bool)
    returns (raised: bool, act: Option<Action>)
    ensures raised <==> Acts(r) && raises(r)
    ensures !raised ==> (act.Some? <==> Acts(r))
    ensures !raised && act.Some? ==> act.value == ActionOf(r, promo)
  {
    act := None;
    var pidGid := Strip(r.productId);
    if pidGid != "" {
      var pid := GidToNumeric(pidGid);
      if pid.GetOr("") == "" {
        return false, None;
      }
      if raises(r) {
        return true, None;
      }
      act := Some(Activate(pid.GetOr("")));
    } else {
      if raises(r) {
        return true, None;
      }
      act := Some(Create(r, promo));
    }
    raised := false;
  }

  /** `_apply_updates`: with `DRY_RUN` true and no `--apply`, nothing at all;
      otherwise one action per acting row in group order, `applied` the
      number of actions and `keysDone` every group key once, in order. */
  method ApplyUpdates(grouped: Dict<string, seq<GSheets.Row>>, doApply: bool, dryEnv: string,
                      promoEnv: string, raises: GSheets.Row -> bool)
    returns (ok: bool, applied: nat, keysDone: seq<string>, actions: seq<Action>)
    ensures !doApply && DryRunEnv(dryEnv) ==> ok && applied == 0 && keysDone == [] && actions == []
    ensures doApply || !DryRunEnv(dryEnv) ==>
      var rows := Flatten(Values(grouped));
      && (ok <==> AllSafe(rows, raises))
      && (ok ==> actions == ActionsOf(rows, PromoLocation(promoEnv))
                 && applied == |actions| == |Filter(rows, Acts)|
                 && keysDone == Keys(grouped))
  {
    if !doApply && DryRunEnv(dryEnv) {
      ok, applied, keysDone, actions := true, 0, [], [];
      return;
    }
    ok, applied, keysDone, actions := ApplyGroups(Values(grouped), Keys(grouped), PromoLocation(promoEnv), raises);
  }

  /** The nested loops of `_apply_updates` over the groups `vs` with keys
      `ks`: the first group holding an acting row that raises stops the
      run; otherwise every acting row's action, in order. */
  method ApplyGroups(vs: seq<seq<GSheets.Row>>, ks: seq<string>, promo: Option<string>,
                     raises: GSheets.Row -> bool)
    returns (ok: bool, applied: nat, keysDone: seq<string>, actions: seq<Action>)
    requires |vs| == |ks|
    ensures ok <==> AllSafe(Flatten(vs), raises)
    ensures ok ==> actions == ActionsOf(Flatten(vs), promo) && applied == |actions| && keysDone == ks
  {
    applied := 0;
    keysDone := [];
    actions := [];
    for g := 0 to |vs|
      invariant actions == ActionsOf(Flatten(vs[..g]), promo) && applied == |actions|
      invariant keysDone == ks[..g]
      invariant AllSafe(Flatten(vs[..g]), raises)
    {
      var groupOk, acts := ApplyGroup(vs[g], promo, raises);
      if !groupOk {
        ok := false;
        assert !AllSafe(Flatten(vs), raises) by { GroupUnsafe(vs, g, raises); }
        return;
      }
      assert AllSafe(Flatten(vs[..g + 1]), raises) by { GroupStepSafe(vs, g, raises); }
      assert actions + acts == ActionsOf(Flatten(vs[..g + 1]), promo) by { GroupStepActions(vs, g, promo); }
      assert keysDone + [ks[g]] == ks[..g + 1] by { TakeSnoc(ks, g); }
      actions := actions + acts;
      applied := applied + |acts|;
      keysDone := keysDone + [ks[g]];
    }
    assert vs[..|vs|] == vs;
    assert ks[..|ks|] == ks;
    ok := true;
  }


  /** One more group of the outer loop: its actions and its safety. */
  lemma GroupStepActions(vs: seq<seq<GSheets.Row>>, g: nat, promo: Option<string>)
    requires g < |vs|
    ensures ActionsOf(Flatten(vs[..g + 1]), promo) == ActionsOf(Flatten(vs[..g]), promo) + ActionsOf(vs[g], promo)
  {
    FlattenSnoc(vs, g);
    ActionsOfAppend(Flatten(vs[..g]), vs[g], promo);
  }

  lemma GroupStepSafe(vs: seq<seq<GSheets.Row>>, g: nat, raises: GSheets.Row -> bool)
    requires g < |vs|
    ensures AllSafe(Flatten(vs[..g + 1]), raises) <==> AllSafe(Flatten(vs[..g]), raises) && AllSafe(vs[g], raises)
  {
    FlattenSnoc(vs, g);
    AllSafeAppend(Flatten(vs[..g]), vs[g], raises);
  }

  /** An unsafe group makes all the rows unsafe. */
  lemma GroupUnsafe(vs: seq<seq<GSheets.Row>>, g: nat, raises: GSheets.Row -> bool)
    requires g < |vs|
    ensures !AllSafe(vs[g], raises) ==> !AllSafe(Flatten(vs), raises)
  {
    GroupStepSafe(vs, g, raises);
    FlattenPrefix(vs, g + 1);
    AllSafeAppend(Flatten(vs[..g + 1]), Flatten(vs[g + 1..]), raises);
  }

  /** The rows of the first `n` groups start the rows of all groups. */
  lemma {:induction false} FlattenPrefix(vs: seq<seq<GSheets.Row>>, n: nat)
    requires n <= |vs|
    ensures Flatten(vs) == Flatten(vs[..n]) + Flatten(vs[n..])
  {
    if n > 0 {
      FlattenPrefix(vs[1..], n - 1);
      assert vs[..n][1..] == vs[1..][..n - 1];
      assert vs[1..][n - 1..] == vs[n..];
    } else {
      assert vs[..0] == [] && vs[0..] == vs;
    }
  }

  /** The summary `run_sync` logs. */
  datatype Summary = Summary(selected: nat, uniqueKeys: nat, missingKey: nat, applied: nat)

  function KeysOf(rows: seq<GSheets.Row>): (ks: seq<string>)
    ensures ks == Keys(KeyedPairs(rows))
  {
    Keys(KeyedPairs(rows))
  }

  predicate IsEmptyKey(k: string) { k == "" }

  /** `run_sync`: select the rows, count their keys, group them and apply. */
  method RunSync(rows: seq<GSheets.Row>, doApply: bool, dryEnv: string, promoEnv: string,
                 raises: GSheets.Row -> bool)
    returns (ok: bool, summary: Summary, keysDone: seq<string>)
    ensures var sel := Filter(rows, RowSelected);
      && summary.selected == |sel|
      && summary.uniqueKeys == |Dedup(KeysOf(sel))|
      && summary.missingKey == |Filter(KeysOf(sel), IsEmptyKey)|
      && (!doApply && DryRunEnv(dryEnv) ==> ok && summary.applied == 0 && keysDone == [])
      && (ok && (doApply || !DryRunEnv(dryEnv)) ==>
            summary.applied == |Filter(sel, Acts)| && keysDone == Dedup(KeysOf(sel)))
  {
    var selected := Filter(rows, RowSelected);
    var keys := KeysOf(selected);
    var grouped := GroupUpdates(selected);
    var applied, actions;
    ok, applied, keysDone, actions := ApplyUpdates(grouped, doApply, dryEnv, promoEnv, raises);
    GroupUpdatesCount(selected, Acts);
    summary := Summary(|selected|, |Dedup(keys)|, |Filter(keys, IsEmptyKey)|, applied);
  }
}
