/** src/gsheets.py: header canonicalisation, the conversion of a sheet's
    cell grid into rows and a header index, and the column lookup of the
    Product_Id write-back. The sheet itself is the grid `values`; reading
    it and writing a cell are I/O, so the write-back returns the cell it
    would write. */
module GSheets {
  import opened Wrappers
  import opened Strings
  import opened Dicts

  // ---------------------------------------------------------------- keys

  /** What `_normalize_key` does to one character of the stripped key. */
  function KeyChar(c: char): char {
    if c == '-' || c == ' ' then '_' else LowerChar(c)
  }

  function KeyChars(s: string): (r: string)
    ensures |r| == |s|
    ensures forall i :: 0 <= i < |s| ==> r[i] == KeyChar(s[i])
  {
    if s == [] then [] else [KeyChar(s[0])] + KeyChars(s[1..])
  }

  /** `_normalize_key`: `(k or "").strip().lower()`, then every '-' and
      ' ' replaced by '_'. */
  function NormalizeKey(k: Option<string>): (r: string)
    ensures '-' !in r && ' ' !in r
  {
    var t := Strip(k.GetOr(""));
    var r := KeyChars(t);
    assert forall i :: 0 <= i < |r| ==> r[i] != '-' && r[i] != ' ';
    r
  }

  /** The per-character form is the replace chain the source writes. */
  lemma NormalizeKeyIsReplaceChain(k: Option<string>)
    ensures NormalizeKey(k) == ReplaceChar(ReplaceChar(Lower(Strip(k.GetOr(""))), '-', "_"), ' ', "_")
  {
    KeyCharsIsReplaceChain(Strip(k.GetOr("")));
  }

  lemma KeyCharsIsReplaceChain(t: string)
    ensures KeyChars(t) == ReplaceChar(ReplaceChar(Lower(t), '-', "_"), ' ', "_")
  {
    var l := Lower(t);
    var a := ReplaceChar(l, '-', "_");
    var r := ReplaceChar(a, ' ', "_");
    var n := KeyChars(t);
    assert |a| == |t| && forall i :: 0 <= i < |t| ==> a[i] == (if l[i] == '-' then '_' else l[i]) by {
      ReplaceCharPointwise(l, '-', '_');
    }
    assert |r| == |t| && forall i :: 0 <= i < |t| ==> r[i] == (if a[i] == ' ' then '_' else a[i]) by {
      ReplaceCharPointwise(a, ' ', '_');
    }
    forall i | 0 <= i < |t| ensures r[i] == n[i] {
      assert l[i] == LowerChar(t[i]);
    }
  }

  lemma NormalizeKeyNone()
    ensures NormalizeKey(None) == ""
  {
  }

  lemma {:induction false} KeyCharsIdempotent(s: string)
    ensures KeyChars(KeyChars(s)) == KeyChars(s)
  {
    if s != [] { KeyCharsIdempotent(s[1..]); }
  }

  /** A normalised key normalises to itself. */
  lemma NormalizeKeyIdempotent(k: Option<string>)
    ensures NormalizeKey(Some(NormalizeKey(k))) == NormalizeKey(k)
  {
    var r := KeyChars(Strip(k.GetOr("")));
    StripOfUnpadded(r);
    KeyCharsIdempotent(Strip(k.GetOr("")));
  }

  /** Keys made of the characters `KeyChar` keeps are already normal. */
  lemma {:induction false} KeyCharsFixed(s: string)
    requires forall i :: 0 <= i < |s| ==> 'a' <= s[i] <= 'z' || s[i] == '_'
    ensures KeyChars(s) == s
  {
    if s != [] { KeyCharsFixed(s[1..]); }
  }

  lemma NormalKeyFixed(s: string)
    requires forall i :: 0 <= i < |s| ==> 'a' <= s[i] <= 'z' || s[i] == '_'
    ensures NormalizeKey(Some(s)) == s
  {
    StripOfUnpadded(s);
    KeyCharsFixed(s);
  }

  lemma KeyCharsAppend(a: string, b: string)
    ensures KeyChars(a + b) == KeyChars(a) + KeyChars(b)
  {
    var l, r := KeyChars(a + b), KeyChars(a) + KeyChars(b);
    forall i | 0 <= i < |a + b| ensures l[i] == r[i] {
      if i < |a| { assert (a + b)[i] == a[i]; } else { assert (a + b)[i] == b[i - |a|]; }
    }
  }

  predicate LowerWord(s: string) {
    forall i :: 0 <= i < |s| ==> 'a' <= s[i] <= 'z'
  }

  /** Two lower-case words joined by '-', ' ' or '_' normalise to the
      words joined by '_'. */
  lemma NormalizeJoined(s: string, t: string, sep: char)
    requires s != [] && t != [] && LowerWord(s) && LowerWord(t)
    requires sep == '-' || sep == ' ' || sep == '_'
    ensures NormalizeKey(Some(s + [sep] + t)) == s + "_" + t
  {
    JoinedUnpadded(s, t, sep);
    JoinedKeyChars(s, t, sep);
  }

  lemma JoinedUnpadded(s: string, t: string, sep: char)
    requires s != [] && t != [] && LowerWord(s) && LowerWord(t)
    ensures Strip(s + [sep] + t) == s + [sep] + t
  {
    var u := s + [sep] + t;
    assert u[0] == s[0] && u[|u| - 1] == t[|t| - 1];
    StripOfUnpadded(u);
  }

  /** The character map turns the separator into '_' and keeps the words. */
  lemma JoinedKeyChars(s: string, t: string, sep: char)
    requires LowerWord(s) && LowerWord(t)
    requires sep == '-' || sep == ' ' || sep == '_'
    ensures KeyChars(s + [sep] + t) == s + "_" + t
  {
    var u, w := s + [sep] + t, s + "_" + t;
    forall i | 0 <= i < |u| ensures KeyChars(u)[i] == w[i] {
      if i < |s| {
        assert u[i] == s[i] && w[i] == s[i];
      } else if i > |s| {
        assert u[i] == t[i - |s| - 1] && w[i] == t[i - |s| - 1];
      }
    }
  }

  /** A key that starts and ends with a letter has nothing to strip. */
  lemma WordsUnpadded(s: string, t: string)
    requires s != [] && t != [] && LowerWord(s) && LowerWord(t)
    ensures Strip(s + t) == s + t
  {
    var u := s + t;
    assert u[0] == s[0] && u[|u| - 1] == t[|t| - 1];
    StripOfUnpadded(u);
  }

  /** Two lower-case words run together are already normal. */
  lemma NormalizeConcat(s: string, t: string)
    requires s != [] && t != [] && LowerWord(s) && LowerWord(t)
    ensures NormalizeKey(Some(s + t)) == s + t
  {
    WordsUnpadded(s, t);
    LowerWordsFixed(s, t);
  }

  /** Lower-case words are left alone by the character map. */
  lemma LowerWordsFixed(s: string, t: string)
    requires LowerWord(s) && LowerWord(t)
    ensures KeyChars(s + t) == s + t
  {
    KeyCharsFixed(s + t);
  }

  lemma SpellingJoined(sep: char)
    requires sep == '-' || sep == ' ' || sep == '_'
    ensures NormalizeKey(Some("product" + [sep] + "id")) == "product_id"
  {
    ProductIdWords();
    NormalizeJoined("product", "id", sep);
    ProductIdJoined();
  }

  lemma ProductIdWords()
    ensures LowerWord("product") && LowerWord("id")
  {
  }

  lemma ProductIdJoined()
    ensures "product" + "_" + "id" == "product_id"
  {
  }

  lemma SpellingProductDashId()
    ensures NormalizeKey(Some("product-id")) == "product_id"
  {
    SpellingJoined('-');
    assert "product" + ['-'] + "id" == "product-id";
  }

  lemma SpellingProductSpaceId()
    ensures NormalizeKey(Some("product id")) == "product_id"
  {
    SpellingJoined(' ');
    assert "product" + [' '] + "id" == "product id";
  }

  lemma SpellingProductUnderscoreId()
    ensures NormalizeKey(Some("product_id")) == "product_id"
  {
    SpellingJoined('_');
    assert "product" + ['_'] + "id" == "product_id";
  }

  lemma SpellingProductid()
    ensures NormalizeKey(Some("productid")) == "productid"
  {
    ProductIdWords();
    NormalizeConcat("product", "id");
    assert "product" + "id" == "productid";
  }

  /** The spellings of the product-id column that the module tries. */
  lemma ProductIdSpellings()
    ensures NormalizeKey(Some("product-id")) == "product_id"
    ensures NormalizeKey(Some("product id")) == "product_id"
    ensures NormalizeKey(Some("product_id")) == "product_id"
    ensures NormalizeKey(Some("productid")) == "productid"
  {
    SpellingProductDashId();
    SpellingProductSpaceId();
    SpellingProductUnderscoreId();
    SpellingProductid();
  }

  /** `_CANON`: synonym -> canonical key. */
  const CanonTable: map<string, string> := map[
    "brand" := "brand",
    "modello" := "modello", "model" := "modello",
    "titolo" := "titolo", "title" := "titolo",
    "sku" := "sku",
    "taglia" := "taglia", "size" := "taglia",
    "qta" := "qta", "qty" := "qta", "quantita" := "qta", "quantità" := "qta",
    "online" := "online",
    "prezzo_pieno" := "prezzo_pieno", "prezzo_full" := "prezzo_pieno",
    "compare_at_price" := "prezzo_pieno",
    "prezzo_scontato" := "prezzo_scontato", "price" := "prezzo_scontato",
    "product_id" := "product_id", "productid" := "product_id",
    "product_id_" := "product_id", "product__id" := "product_id",
    "product_id_sheet" := "product_id"
  ]

  /** `_CANON.get(key, key)`. */
  function Canon(key: string): string {
    if key in CanonTable then CanonTable[key] else key
  }

  /** The canonical keys: the values of `_CANON`. */
  const CanonicalKeys: set<string> := {"brand", "modello", "titolo", "sku", "taglia", "qta",
    "online", "prezzo_pieno", "prezzo_scontato", "product_id"}

  lemma CanonValuesCanonical()
    ensures forall k :: k in CanonTable ==> CanonTable[k] in CanonicalKeys
  {
  }

  lemma CanonicalKeysFixed()
    ensures forall c :: c in CanonicalKeys ==> c in CanonTable && CanonTable[c] == c
  {
  }

  /** Every canonical key is its own canonical form, so canonicalising
      twice changes nothing. */
  lemma CanonValuesFixed()
    ensures forall k :: k in CanonTable ==> CanonTable[k] in CanonTable && CanonTable[CanonTable[k]] == CanonTable[k]
  {
    CanonValuesCanonical();
    CanonicalKeysFixed();
  }

  lemma CanonIdempotent(key: string)
    ensures Canon(Canon(key)) == Canon(key)
    ensures key !in CanonTable ==> Canon(key) == key
  {
    CanonValuesFixed();
  }

  /** "productid" is a synonym, so it is never the canonical form of
      anything. */
  lemma CanonNeverProductid(key: string)
    ensures Canon(key) != "productid"
  {
    CanonValuesFixed();
  }

  /** The key a raw header ends up under. */
  function CanonKey(h: string): string {
    Canon(NormalizeKey(Some(h)))
  }

  // ---------------------------------------------------------------- _canon_row

  /** Each raw (key, value) with its key canonicalised. */
  function CanonPairs(d: Dict<string, string>): (ps: seq<(string, string)>)
    ensures |ps| == |d|
    ensures forall i :: 0 <= i < |d| ==> ps[i] == (CanonKey(d[i].0), d[i].1)
  {
    seq(|d|, i requires 0 <= i < |d| => (CanonKey(d[i].0), d[i].1))
  }

  /** The dict `_canon_row` returns: canonical keys assigned in order. */
  function CanonRowSpec(d: Dict<string, string>): Dict<string, string> {
    FromPairs(CanonPairs(d))
  }

  /** `_canon_row`, including its late product-id alias branch. */
  method CanonRow(d: Dict<string, string>) returns (n: Dict<string, string>)
    ensures n == CanonRowSpec(d)
  {
    n := AssignCanon(d);
    if "product_id" !in Keys(n) {
      n := AliasProductId(n);
    }
  }

  /** The assignment loop of `_canon_row`. */
  method AssignCanon(d: Dict<string, string>) returns (n: Dict<string, string>)
    ensures n == CanonRowSpec(d)
  {
    n := [];
    var ps := CanonPairs(d);
    for i := 0 to |d|
      invariant n == FromPairs(ps[..i])
    {
      FromPairsSnoc(ps, i);
      n := Put(n, CanonKey(d[i].0), d[i].1);
    }
    assert ps[..|d|] == ps;
  }

  /** The late alias loop of `_canon_row`. Both aliases normalise to
      "product_id" itself, which the branch has just found missing, so the
      loop never assigns. */
  method AliasProductId(n: Dict<string, string>) returns (n': Dict<string, string>)
    requires "product_id" !in Keys(n)
    ensures n' == n
  {
    n' := n;
    var alts := ["product-id", "product id"];
    for j := 0 to |alts|
      invariant n' == n
    {
      var altn := NormalizeKey(Some(alts[j]));
      assert altn == "product_id" by {
        if j == 0 { SpellingProductDashId(); } else { SpellingProductSpaceId(); }
      }
      if altn in Keys(n') {
        n' := Put(n', "product_id", Get(n', altn).GetOr(""));
        break;
      }
    }
  }

  /** A canonical key is present iff some raw key canonicalises to it, and
      it carries the value of the LAST such raw key. */
  lemma CanonRowLaterWins(d: Dict<string, string>, k: string, i: nat)
    requires i < |d| && CanonKey(d[i].0) == k
    requires forall j :: i < j < |d| ==> CanonKey(d[j].0) != k
    ensures Get(CanonRowSpec(d), k) == Some(d[i].1)
  {
    var ps := CanonPairs(d);
    FromPairsGet(ps, k);
    var r := LastWith(ps, k);
    assert ps[i].0 == k;
    var i' :| 0 <= i' < |ps| && ps[i'] == (k, r.value) && LastAt(ps, k, i');
    assert i' == i;
  }

  lemma CanonRowAbsent(d: Dict<string, string>, k: string)
    requires forall j :: 0 <= j < |d| ==> CanonKey(d[j].0) != k
    ensures Get(CanonRowSpec(d), k) == None
  {
    FromPairsGet(CanonPairs(d), k);
  }

  // ---------------------------------------------------------------- load_rows

  /** One normalised row of the sheet. */
  datatype Row = Row(
    brand: string, modello: string, titolo: string, sku: string,
    taglia: string, qta: string, online: Option<string>,
    prezzoPieno: string, prezzoScontato: string, productId: string,
    rowIndex: nat)

  /** The cell of column `i` (0-based), "" past the end of a short row. */
  function Cell(row: seq<string>, i: nat): string {
    if i < |row| then row[i] else ""
  }

  /** The pairs (header[i], cell i) of one body row. */
  function RawPairs(header: seq<string>, row: seq<string>): (ps: seq<(string, string)>)
    ensures |ps| == |header|
    ensures forall i :: 0 <= i < |header| ==> ps[i] == (header[i], Cell(row, i))
  {
    seq(|header|, i requires 0 <= i < |header| => (header[i], Cell(row, i)))
  }

  /** The raw dict `{header[i-1]: cell ...}` built for one body row. */
  function RawRow(header: seq<string>, row: seq<string>): Dict<string, string> {
    FromPairs(RawPairs(header, row))
  }

  /** `str(n.get(key, "") or "").strip()`. */
  function Field(n: Dict<string, string>, key: string): string {
    if n == [] then ""
    else if n[0].0 == key then Strip(n[0].1)
    else Field(n[1..], key)
  }

  lemma {:induction false} FieldIsStrippedGet(n: Dict<string, string>, key: string)
    ensures Field(n, key) == Strip(Get(n, key).GetOr(""))
  {
    if n != [] && n[0].0 != key { FieldIsStrippedGet(n[1..], key); }
  }

  /** The record built from a canonical row dict `n`. */
  function RowFrom(n: Dict<string, string>, ridx: nat): Row {
    Row(Field(n, "brand"), Field(n, "modello"), Field(n, "titolo"), Field(n, "sku"),
        Field(n, "taglia"), Field(n, "qta"), Get(n, "online"),
        Field(n, "prezzo_pieno"), Field(n, "prezzo_scontato"), Field(n, "product_id"),
        ridx)
  }

  /** The output record of body row `row` at sheet row `ridx`. */
  function RowOf(header: seq<string>, row: seq<string>, ridx: nat): Row {
    RowFrom(CanonRowSpec(RawRow(header, row)), ridx)
  }

  /** `header_idx`: canonical header -> 1-based column, later duplicates
      winning. */
  function HeaderIndex(header: seq<string>): Dict<string, int> {
    FromPairs(HeaderPairs(header))
  }

  /** The pairs (canonical header, 1-based column). */
  function HeaderPairs(header: seq<string>): (ps: seq<(string, int)>)
    ensures |ps| == |header|
    ensures forall i :: 0 <= i < |header| ==> ps[i] == (CanonKey(header[i]), i + 1)
  {
    Columns(CanonKeys(header))
  }

  /** The canonical key of every header cell. */
  function CanonKeys(header: seq<string>): (ks: seq<string>)
    ensures |ks| == |header|
    ensures forall i :: 0 <= i < |header| ==> ks[i] == CanonKey(header[i])
  {
    seq(|header|, i requires 0 <= i < |header| => CanonKey(header[i]))
  }

  /** Each key paired with its 1-based column. */
  function Columns(ks: seq<string>): (ps: seq<(string, int)>)
    ensures |ps| == |ks|
    ensures forall i :: 0 <= i < |ks| ==> ps[i] == (ks[i], i + 1)
  {
    seq(|ks|, i requires 0 <= i < |ks| => (ks[i], i + 1))
  }

  /** The grid-to-rows part of `load_rows`. */
  method LoadRows(values: seq<seq<string>>) returns (rows: seq<Row>, headerIdx: Dict<string, int>)
    ensures values == [] ==> rows == [] && headerIdx == []
    ensures values != [] ==> headerIdx == HeaderIndex(values[0])
    ensures values != [] ==> rows == BodyRows(values[0], values[1..])
  {
    if values == [] {
      return [], [];
    }
    var header := values[0];
    var body := values[1..];
    headerIdx := BuildHeaderIndex(header);
    rows := BuildRows(header, body);
  }

  /** The `header_idx` loop. */
  method BuildHeaderIndex(header: seq<string>) returns (headerIdx: Dict<string, int>)
    ensures headerIdx == HeaderIndex(header)
  {
    ghost var hps := HeaderPairs(header);
    headerIdx := [];
    for i := 0 to |header|
      invariant headerIdx == FromPairs(hps[..i])
    {
      FromPairsSnoc(hps, i);
      headerIdx := Put(headerIdx, CanonKey(header[i]), i + 1);
    }
    assert hps[..|header|] == hps;
  }

  /** The loop over the body rows, numbered from 2. */
  method BuildRows(header: seq<string>, body: seq<seq<string>>) returns (rows: seq<Row>)
    ensures rows == BodyRows(header, body)
  {
    rows := [];
    for i := 0 to |body|
      invariant rows == BodyRows(header, body[..i])
    {
      var r := BuildRow(header, body[i], i + 2);
      BodyRowsSnoc(header, body, i);
      rows := rows + [r];
    }
    assert body[..|body|] == body;
  }

  /** One body row: its raw dict, canonicalised, read into a record. */
  method BuildRow(header: seq<string>, row: seq<string>, ridx: nat) returns (r: Row)
    ensures r == RowOf(header, row, ridx)
  {
    var raw := RawRow(header, row);
    var n := CanonRow(raw);
    r := RowFrom(n, ridx);
  }

  /** The records of the body rows, the first at sheet row 2. */
  function BodyRows(header: seq<string>, body: seq<seq<string>>): (rs: seq<Row>)
    ensures |rs| == |body|
  {
    if body == [] then []
    else BodyRows(header, body[..|body| - 1]) + [RowOf(header, body[|body| - 1], |body| + 1)]
  }

  lemma BodyRowsSnoc(header: seq<string>, body: seq<seq<string>>, i: nat)
    requires i < |body|
    ensures BodyRows(header, body[..i + 1]) == BodyRows(header, body[..i]) + [RowOf(header, body[i], i + 2)]
  {
    assert body[..i + 1][..i] == body[..i];
  }

  lemma {:induction false} BodyRowsAt(header: seq<string>, body: seq<seq<string>>, k: nat)
    requires k < |body|
    ensures BodyRows(header, body)[k] == RowOf(header, body[k], k + 2)
  {
    if k < |body| - 1 {
      BodyRowsAt(header, body[..|body| - 1], k);
    }
  }

  /** Each canonical header maps to the 1-based column of its LAST
      occurrence; every column number lies in 1..|header|. */
  lemma HeaderIndexColumn(header: seq<string>, k: string, i: nat)
    requires i < |header| && CanonKey(header[i]) == k
    requires forall j :: i < j < |header| ==> CanonKey(header[j]) != k
    ensures Get(HeaderIndex(header), k) == Some(i + 1)
  {
    var ps := HeaderPairs(header);
    FromPairsGet(ps, k);
    var r := LastWith(ps, k);
    var i' :| 0 <= i' < |ps| && ps[i'] == (k, r.value) && LastAt(ps, k, i');
    assert ps[i].0 == k;
    assert i' == i;
  }

  lemma HeaderIndexShape(header: seq<string>, k: string)
    ensures Get(HeaderIndex(header), k).Some? <==> exists i :: 0 <= i < |header| && CanonKey(header[i]) == k
    ensures Get(HeaderIndex(header), k).Some? ==> 1 <= Get(HeaderIndex(header), k).value <= |header|
  {
    var ps := HeaderPairs(header);
    FromPairsGet(ps, k);
    if exists i :: 0 <= i < |header| && CanonKey(header[i]) == k {
      var i :| 0 <= i < |header| && CanonKey(header[i]) == k;
      assert ps[i].0 == k;
    }
  }

  /** No header is ever indexed under the synonym "productid". */
  lemma HeaderIndexNoProductid(header: seq<string>)
    ensures Get(HeaderIndex(header), "productid") == None
  {
    forall i | 0 <= i < |header| ensures CanonKey(header[i]) != "productid" {
      CanonNeverProductid(NormalizeKey(Some(header[i])));
    }
    HeaderIndexShape(header, "productid");
  }

  /** A field read from a column whose header is the only one with that
      canonical key is that column's cell, stripped ("" for a short row). */
  lemma RowFieldFromColumn(header: seq<string>, row: seq<string>, key: string, i: nat)
    requires i < |header| && CanonKey(header[i]) == key
    requires forall j :: 0 <= j < |header| && j != i ==> CanonKey(header[j]) != key
    ensures Get(CanonRowSpec(RawRow(header, row)), key) == Some(Cell(row, i))
  {
    var rps := RawPairs(header, row);
    var raw := RawRow(header, row);
    FromPairsUnique(rps);
    FromPairsGet(rps, header[i]);
    var v := LastWith(rps, header[i]);
    var i' :| 0 <= i' < |rps| && rps[i'] == (header[i], v.value) && LastAt(rps, header[i], i');
    assert i' == i;
    assert Get(raw, header[i]) == Some(Cell(row, i));
    GetSomeAt(raw, header[i]);
    var ix :| 0 <= ix < |raw| && raw[ix] == (header[i], Cell(row, i));
    forall j | ix < j < |raw| ensures CanonKey(raw[j].0) != key {
      RawKeyIsHeader(header, row, j);
      var h :| 0 <= h < |header| && header[h] == raw[j].0;
      assert raw[j].0 != raw[ix].0;
      assert h != i;
    }
    CanonRowLaterWins(raw, key, ix);
  }

  /** A field whose canonical key no column has reads as "" (missing). */
  lemma RowFieldMissing(header: seq<string>, row: seq<string>, key: string)
    requires forall j :: 0 <= j < |header| ==> CanonKey(header[j]) != key
    ensures Get(CanonRowSpec(RawRow(header, row)), key) == None
  {
    var raw := RawRow(header, row);
    forall j | 0 <= j < |raw| ensures CanonKey(raw[j].0) != key {
      RawKeyIsHeader(header, row, j);
    }
    CanonRowAbsent(raw, key);
  }

  lemma RawKeyIsHeader(header: seq<string>, row: seq<string>, j: nat)
    requires j < |RawRow(header, row)|
    ensures exists h :: 0 <= h < |header| && header[h] == RawRow(header, row)[j].0
  {
    var rps := RawPairs(header, row);
    var raw := RawRow(header, row);
    FromPairsUnique(rps);
    GetAt(raw, j);
    FromPairsGet(rps, raw[j].0);
  }

  /** Every field but `online` comes out stripped. */
  lemma RowOfStripped(header: seq<string>, row: seq<string>, ridx: nat)
    ensures var r := RowOf(header, row, ridx);
      && Strip(r.brand) == r.brand && Strip(r.modello) == r.modello
      && Strip(r.titolo) == r.titolo && Strip(r.sku) == r.sku
      && Strip(r.taglia) == r.taglia && Strip(r.qta) == r.qta
      && Strip(r.prezzoPieno) == r.prezzoPieno && Strip(r.prezzoScontato) == r.prezzoScontato
      && Strip(r.productId) == r.productId
      && r.rowIndex == ridx
  {
    var n := CanonRowSpec(RawRow(header, row));
    FieldIsStrippedGet(n, "brand");
    FieldIsStrippedGet(n, "modello");
    FieldIsStrippedGet(n, "titolo");
    FieldIsStrippedGet(n, "sku");
    FieldIsStrippedGet(n, "taglia");
    FieldIsStrippedGet(n, "qta");
    FieldIsStrippedGet(n, "prezzo_pieno");
    FieldIsStrippedGet(n, "prezzo_scontato");
    FieldIsStrippedGet(n, "product_id");
    StripIdempotent(Get(n, "brand").GetOr(""));
    StripIdempotent(Get(n, "modello").GetOr(""));
    StripIdempotent(Get(n, "titolo").GetOr(""));
    StripIdempotent(Get(n, "sku").GetOr(""));
    StripIdempotent(Get(n, "taglia").GetOr(""));
    StripIdempotent(Get(n, "qta").GetOr(""));
    StripIdempotent(Get(n, "prezzo_pieno").GetOr(""));
    StripIdempotent(Get(n, "prezzo_scontato").GetOr(""));
    StripIdempotent(Get(n, "product_id").GetOr(""));
  }

  // ---------------------------------------------------------------- write_product_id

  /** The `ws.update_cell(row, col, value)` call the write-back makes. */
  datatype CellWrite = CellWrite(row: int, col: int, value: string)

  predicate TruthyCol(c: Option<int>) { c.Some? && c.value != 0 }

  /** The column lookup of `write_product_id`: "product_id" first; if that
      is missing or 0, the first of the fallback spellings present in the
      index (even one holding 0); an error if still no usable column. */
  method WriteProductId(headerIdx: Dict<string, int>, rowIndex: int, productGid: string)
    returns (r: Result<CellWrite, string>)
    ensures r.Ok? <==> (TruthyCol(Get(headerIdx, "product_id")) ||
      ("product_id" !in Keys(headerIdx) && TruthyCol(Get(headerIdx, "productid"))))
    ensures r.Ok? && TruthyCol(Get(headerIdx, "product_id")) ==>
      r.value == CellWrite(rowIndex, Get(headerIdx, "product_id").value, productGid)
    ensures r.Ok? && !TruthyCol(Get(headerIdx, "product_id")) ==>
      r.value == CellWrite(rowIndex, Get(headerIdx, "productid").value, productGid)
  {
    var col := Get(headerIdx, "product_id");
    if !TruthyCol(col) {
      var ks := ["product_id", "productid", "product-id", "product id"];
      for j := 0 to |ks|
        invariant j > 0 ==> "product_id" !in Keys(headerIdx)
        invariant j > 1 ==> "productid" !in Keys(headerIdx)
        invariant col == Get(headerIdx, "product_id")
      {
        var k2 := NormalizeKey(Some(ks[j]));
        assert k2 == (if j == 1 then "productid" else "product_id") by {
          if j == 0 { SpellingProductUnderscoreId(); }
          else if j == 1 { SpellingProductid(); }
          else if j == 2 { SpellingProductDashId(); }
          else { SpellingProductSpaceId(); }
        }
        if k2 in Keys(headerIdx) {
          col := Get(headerIdx, k2);
          break;
        }
      }
    }
    if !TruthyCol(col) {
      return Err("Colonna Product_Id non trovata nel worksheet.");
    }
    return Ok(CellWrite(rowIndex, col.value, productGid));
  }

  /** On an index built by `load_rows` the lookup succeeds iff some header
      canonicalises to "product_id", and then writes to the last such
      column. */
  lemma WriteProductIdOnSheet(header: seq<string>)
    ensures TruthyCol(Get(HeaderIndex(header), "product_id")) <==>
      exists i :: 0 <= i < |header| && CanonKey(header[i]) == "product_id"
    ensures !TruthyCol(Get(HeaderIndex(header), "productid"))
  {
    HeaderIndexShape(header, "product_id");
    HeaderIndexNoProductid(header);
  }
}
