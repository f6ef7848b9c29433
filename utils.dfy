/** src/utils.py: handle slugs, the string cleaning of `parse_price`, and
    the display-name to key renaming of `normalize_columns`. */
module Utils {
  import opened Wrappers
  import opened Strings

  // ---------------------------------------------------------------- slugify

  /** The class `[a-z0-9]` of the slug regexes. */
  predicate IsSlugChar(c: char) { 'a' <= c <= 'z' || IsDigit(c) }

  /** `re.sub(r"[^a-z0-9]+", "-", s)`: every maximal run of characters
      outside `[a-z0-9]` becomes one '-', emitted at the run's last
      character. */
  function SubNonSlug(s: string): (r: string)
    ensures forall c :: c in r ==> IsSlugChar(c) || c == '-'
    ensures s != [] ==> r != [] && r[0] == (if IsSlugChar(s[0]) then s[0] else '-')
  {
    if s == [] then []
    else if IsSlugChar(s[0]) then [s[0]] + SubNonSlug(s[1..])
    else if |s| > 1 && !IsSlugChar(s[1]) then SubNonSlug(s[1..])
    else "-" + SubNonSlug(s[1..])
  }

  /** `re.sub(r"-+", "-", s)`. */
  function SquashDashes(s: string): (r: string) {
    if s == [] then []
    else if s[0] == '-' && |s| > 1 && s[1] == '-' then SquashDashes(s[1..])
    else [s[0]] + SquashDashes(s[1..])
  }

  function LStripDash(s: string): (r: string)
    ensures |r| <= |s| && r == s[|s| - |r|..]
    ensures r == [] || r[0] != '-'
    ensures forall i :: 0 <= i < |s| - |r| ==> s[i] == '-'
  {
    if s != [] && s[0] == '-' then LStripDash(s[1..]) else s
  }

  function RStripDash(s: string): (r: string)
    ensures |r| <= |s| && r == s[..|r|]
    ensures r == [] || r[|r| - 1] != '-'
    ensures forall i :: |r| <= i < |s| ==> s[i] == '-'
  {
    if s != [] && s[|s| - 1] == '-' then RStripDash(s[..|s| - 1]) else s
  }

  /** `s.strip("-")`. */
  function StripDashes(s: string): string {
    RStripDash(LStripDash(s))
  }

  /** `slugify_handle`. */
  function SlugifyHandle(s: string): string {
    StripDashes(SquashDashes(SubNonSlug(Lower(s))))
  }

  ghost predicate NoDoubleDash(t: string) {
    forall i :: 0 <= i < |t| - 1 ==> !(t[i] == '-' && t[i + 1] == '-')
  }

  /** The shape every handle has: only `[a-z0-9-]`, no '-' at either end,
      never two in a row. */
  ghost predicate IsSlug(t: string) {
    && (forall i :: 0 <= i < |t| ==> IsSlugChar(t[i]) || t[i] == '-')
    && (t == [] || (t[0] != '-' && t[|t| - 1] != '-'))
    && NoDoubleDash(t)
  }

  lemma {:induction false} SubNonSlugNoDoubleDash(s: string)
    ensures NoDoubleDash(SubNonSlug(s))
  {
    if s != [] {
      SubNonSlugNoDoubleDash(s[1..]);
    }
  }

  lemma {:induction false} SquashDashesKeeps(s: string)
    requires NoDoubleDash(s)
    ensures SquashDashes(s) == s
  {
    if s != [] {
      SquashDashesKeeps(s[1..]);
    }
  }

  lemma {:induction false} SliceNoDoubleDash(s: string, lo: nat, hi: nat)
    requires lo <= hi <= |s| && NoDoubleDash(s)
    ensures NoDoubleDash(s[lo..hi])
  {
    var t := s[lo..hi];
    forall i | 0 <= i < |t| - 1 ensures !(t[i] == '-' && t[i + 1] == '-') {
      assert t[i] == s[lo + i] && t[i + 1] == s[lo + i + 1];
    }
  }

  lemma {:induction false} SliceSlugChars(s: string, lo: nat, hi: nat)
    requires lo <= hi <= |s|
    requires forall c :: c in s ==> IsSlugChar(c) || c == '-'
    ensures forall i :: 0 <= i < hi - lo ==> IsSlugChar(s[lo..hi][i]) || s[lo..hi][i] == '-'
  {
    forall i | 0 <= i < hi - lo ensures IsSlugChar(s[lo..hi][i]) || s[lo..hi][i] == '-' {
      assert s[lo..hi][i] == s[lo + i];
      assert s[lo + i] in s;
    }
  }

  lemma StripDashesShape(s: string)
    requires NoDoubleDash(s)
    requires forall c :: c in s ==> IsSlugChar(c) || c == '-'
    ensures IsSlug(StripDashes(s))
  {
    var l := LStripDash(s);
    var r := RStripDash(l);
    var lo := |s| - |l|;
    var hi := lo + |r|;
    assert r == s[lo..hi] by {
      assert l == s[lo..];
      assert r == l[..|r|];
    }
    assert NoDoubleDash(r) by { SliceNoDoubleDash(s, lo, hi); }
    assert forall i :: 0 <= i < |r| ==> IsSlugChar(r[i]) || r[i] == '-' by { SliceSlugChars(s, lo, hi); }
    assert r == [] || (r[0] != '-' && r[|r| - 1] != '-') by {
      if r != [] { assert r[0] == l[0]; }
    }
  }


  /** For any input, ASCII or not, the handle has the slug shape. */
  lemma SlugifyHandleIsSlug(s: string)
    ensures IsSlug(SlugifyHandle(s))
  {
    var t := SubNonSlug(Lower(s));
    SubNonSlugNoDoubleDash(Lower(s));
    SquashDashesKeeps(t);
    StripDashesShape(t);
  }

  lemma {:induction false} SubNonSlugKeepsSlugShape(t: string)
    requires NoDoubleDash(t)
    requires forall i :: 0 <= i < |t| ==> IsSlugChar(t[i]) || t[i] == '-'
    ensures SubNonSlug(t) == t
  {
    if t != [] {
      SubNonSlugKeepsSlugShape(t[1..]);
    }
  }

  /** A handle is its own handle. */
  lemma SlugifyHandleIdempotent(s: string)
    ensures SlugifyHandle(SlugifyHandle(s)) == SlugifyHandle(s)
  {
    var t := SlugifyHandle(s);
    SlugifyHandleIsSlug(s);
    assert Lower(t) == t;
    SubNonSlugKeepsSlugShape(t);
    SquashDashesKeeps(t);
  }

  /** The `[a-z0-9]` characters of `s`, in order. */
  function SlugChars(s: string): string {
    if s == [] then [] else (if IsSlugChar(s[0]) then [s[0]] else []) + SlugChars(s[1..])
  }

  lemma {:induction false} SlugCharsAppend(a: string, b: string)
    ensures SlugChars(a + b) == SlugChars(a) + SlugChars(b)
  {
    if a == [] {
      assert a + b == b;
    } else {
      assert SlugChars(a + b) == (if IsSlugChar(a[0]) then [a[0]] else []) + SlugChars(a[1..] + b) by {
        assert (a + b)[0] == a[0] && (a + b)[1..] == a[1..] + b;
      }
      SlugCharsAppend(a[1..], b);
    }
  }

  lemma {:induction false} SlugCharsOfDashes(s: string)
    requires forall i :: 0 <= i < |s| ==> s[i] == '-'
    ensures SlugChars(s) == []
  {
    if s != [] { SlugCharsOfDashes(s[1..]); }
  }

  lemma {:induction false} SubNonSlugSlugChars(s: string)
    ensures SlugChars(SubNonSlug(s)) == SlugChars(s)
  {
    if s != [] {
      SubNonSlugSlugChars(s[1..]);
      var r := SubNonSlug(s[1..]);
      if IsSlugChar(s[0]) {
        SlugCharsAppend([s[0]], r);
      } else if |s| > 1 && !IsSlugChar(s[1]) {
      } else {
        SlugCharsAppend("-", r);
      }
    }
  }

  lemma {:induction false} SquashDashesSlugChars(s: string)
    ensures SlugChars(SquashDashes(s)) == SlugChars(s)
  {
    if s != [] {
      SquashDashesSlugChars(s[1..]);
      if !(s[0] == '-' && |s| > 1 && s[1] == '-') {
        SlugCharsAppend([s[0]], SquashDashes(s[1..]));
      }
    }
  }

  lemma {:induction false} LStripDashSlugChars(s: string)
    ensures SlugChars(LStripDash(s)) == SlugChars(s)
  {
    if s != [] && s[0] == '-' {
      LStripDashSlugChars(s[1..]);
    }
  }

  lemma {:induction false} RStripDashSlugChars(s: string)
    ensures SlugChars(RStripDash(s)) == SlugChars(s)
  {
    if s != [] && s[|s| - 1] == '-' {
      var p := s[..|s| - 1];
      RStripDashSlugChars(p);
      assert s == p + "-";
      SlugCharsAppend(p, "-");
    }
  }

  lemma StripDashesSlugChars(s: string)
    ensures SlugChars(StripDashes(s)) == SlugChars(s)
  {
    LStripDashSlugChars(s);
    RStripDashSlugChars(LStripDash(s));
  }

  /** The handle keeps the lower-cased `[a-z0-9]` characters of the input,
      all of them and in order; everything else is separators. */
  lemma SlugifyHandleKeepsSlugChars(s: string)
    ensures SlugChars(SlugifyHandle(s)) == SlugChars(Lower(s))
  {
    SubNonSlugSlugChars(Lower(s));
    SquashDashesSlugChars(SubNonSlug(Lower(s)));
    StripDashesSlugChars(SquashDashes(SubNonSlug(Lower(s))));
  }

  // ---------------------------------------------------------------- parse_price

  /** The values `parse_price` distinguishes: `None`/NaN, an `int` or
      `float`, or anything `str()` turns into text. */
  datatype PriceCell = Missing | Number(value: real) | Text(s: string)

  /** The text `float()` is given: "€" removed, ',' turned into '.',
      then stripped. */
  function PriceText(s: string): string {
    Strip(ReplaceChar(ReplaceChar(s, '€', ""), ',', "."))
  }

  /** The cleaned text holds neither '€' nor ','. */
  lemma PriceTextClean(s: string)
    ensures '€' !in PriceText(s) && ',' !in PriceText(s)
  {
    StripIsSlice(ReplaceChar(ReplaceChar(s, '€', ""), ',', "."));
  }

  lemma StripIsSlice(s: string)
    ensures forall i :: 0 <= i < |Strip(s)| ==> Strip(s)[i] in s
  {
    var l := LStrip(s);
    var r := RStrip(l);
    forall i | 0 <= i < |r| ensures r[i] in s {
      assert r[i] == l[i] == s[|s| - |l| + i];
    }
  }

  /** Cleaning a cleaned text changes nothing. */
  lemma PriceTextIdempotent(s: string)
    ensures PriceText(PriceText(s)) == PriceText(s)
  {
    var t := PriceText(s);
    PriceTextClean(s);
    ReplaceCharAbsent(t, '€', "");
    ReplaceCharAbsent(t, ',', ".");
    StripIdempotent(ReplaceChar(ReplaceChar(s, '€', ""), ',', "."));
  }

  lemma CommaToDotExample()
    ensures ReplaceChar("129,90", ',', ".") == "129.90"
  {
    assert ReplaceChar("0", ',', ".") == "0";
    assert ReplaceChar("90", ',', ".") == "90";
    assert ReplaceChar(",90", ',', ".") == ".90";
    assert ReplaceChar("9,90", ',', ".") == "9.90";
    assert ReplaceChar("29,90", ',', ".") == "29.90";
  }

  /** "129,90" is read as the text "129.90". */
  lemma PriceTextExample()
    ensures PriceText("129,90") == "129.90"
  {
    ReplaceCharAbsent("129,90", '€', "");
    CommaToDotExample();
    StripOfUnpadded("129.90");
  }

  /** `parse_price`; `toFloat` is Python's `float()` on text (None where it
      raises). */
  function ParsePrice(x: PriceCell, toFloat: string -> Option<real>): real
  {
    match x
    case Missing => 0.0
    case Number(n) => n
    case Text(s) => if s == "" then 0.0 else toFloat(PriceText(s)).GetOr(0.0)
  }

  /** Parsing a price text gives the same value as parsing its cleaned
      form, whenever that form is not blank: the cleaning is done once. */
  lemma ParsePriceOfCleaned(s: string, toFloat: string -> Option<real>)
    requires s != "" && PriceText(s) != ""
    ensures ParsePrice(Text(s), toFloat) == ParsePrice(Text(PriceText(s)), toFloat)
  {
    PriceTextIdempotent(s);
  }

  // ---------------------------------------------------------------- normalize_columns

  /** `NORMALIZE_MAP`: canonical key -> sheet display name. */
  const NormalizeMap: seq<(string, string)> := [
    ("brand", "BRAND"), ("modello", "MODELLO"), ("titolo", "TITOLO"),
    ("sku", "SKU"), ("taglia", "TAGLIA"), ("qta", "Qta"), ("online", "online"),
    ("prezzo pieno", "Prezzo Pieno"), ("prezzo scontato", "Prezzo Scontato"),
    ("sconto", "Sconto"), ("aggiunte il", "Aggiunte il"),
    ("ordine in entrata", "Ordine in entrata"), ("ordine in uscita", "Ordine in uscita"),
    ("vendute il", "Vendute il"), ("note", "Note"), ("product_id", "Product_Id")
  ]

  /** The key whose display name is `d`, if any. */
  function KeyForDisplay(m: seq<(string, string)>, d: string): (k: Option<string>)
    ensures k.Some? <==> exists i :: 0 <= i < |m| && m[i].1 == d
    ensures k.Some? ==> exists i :: 0 <= i < |m| && m[i] == (k.value, d)
  {
    if m == [] then None
    else if m[0].1 == d then Some(m[0].0)
    else KeyForDisplay(m[1..], d)
  }

  /** `normalize_columns` on the column labels of a frame. */
  function NormalizeColumns(cols: seq<string>): (r: seq<string>)
    ensures |r| == |cols|
  {
    seq(|cols|, i requires 0 <= i < |cols| => KeyForDisplay(NormalizeMap, cols[i]).GetOr(cols[i]))
  }

  /** A display column is renamed to its key; any other column keeps its
      label. */
  lemma NormalizeColumnsAt(cols: seq<string>, i: nat, k: string)
    requires i < |cols|
    ensures (k, cols[i]) in NormalizeMap ==> NormalizeColumns(cols)[i] == k
    ensures (forall j :: 0 <= j < |NormalizeMap| ==> NormalizeMap[j].1 != cols[i]) ==>
      NormalizeColumns(cols)[i] == cols[i]
  {
    if (k, cols[i]) in NormalizeMap {
      DisplayNamesDistinct();
      var j :| 0 <= j < |NormalizeMap| && NormalizeMap[j] == (k, cols[i]);
      var r := KeyForDisplay(NormalizeMap, cols[i]);
      var j' :| 0 <= j' < |NormalizeMap| && NormalizeMap[j'] == (r.value, cols[i]);
      assert j == j';
    }
  }

  /** Display names are distinct, so two different display columns never
      receive the same key. */
  lemma DisplayNamesDistinct()
    ensures forall i, j :: 0 <= i < j < |NormalizeMap| ==> NormalizeMap[i].1 != NormalizeMap[j].1
    ensures forall i, j :: 0 <= i < j < |NormalizeMap| ==> NormalizeMap[i].0 != NormalizeMap[j].0
  {
  }

  lemma NormalizeColumnsInjectiveOnDisplays(d1: string, d2: string)
    requires d1 != d2
    requires KeyForDisplay(NormalizeMap, d1).Some? && KeyForDisplay(NormalizeMap, d2).Some?
    ensures KeyForDisplay(NormalizeMap, d1) != KeyForDisplay(NormalizeMap, d2)
  {
    DisplayNamesDistinct();
  }
}
