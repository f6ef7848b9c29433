/** JSON values as the Python code builds and receives them (dicts, lists,
    strings, numbers, booleans and `None`), and the `_purge_none` pass that
    `Shopify.create_product_with_one_variant` applies to a payload. */
module Json {

  datatype Json =
    | JNull
    | JBool(b: bool)
    | JNum(n: real)
    | JStr(s: string)
    | JArr(items: seq<Json>)
    | JObj(fields: seq<(string, Json)>)

  /** Python truthiness of a JSON value. */
  predicate Truthy(j: Json) {
    match j
    case JNull => false
    case JBool(b) => b
    case JNum(n) => n != 0.0
    case JStr(s) => s != ""
    case JArr(xs) => xs != []
    case JObj(fs) => fs != []
  }

  /** No `None` occurs as a dict value or a list element, at any depth. */
  ghost predicate NullFree(j: Json) {
    match j
    case JArr(xs) => forall i :: 0 <= i < |xs| ==> xs[i] != JNull && NullFree(xs[i])
    case JObj(fs) => forall i :: 0 <= i < |fs| ==> fs[i].1 != JNull && NullFree(fs[i].1)
    case _ => true
  }

  /** `_purge_none`: drop `None` dict values and list elements, recursively. */
  function Purge(j: Json): (r: Json)
    ensures r == JNull <==> j == JNull
    ensures r.JArr? <==> j.JArr?
    ensures r.JObj? <==> j.JObj?
    decreases j, 2, 0
  {
    match j
    case JArr(xs) => JArr(PurgeItems(xs))
    case JObj(fs) => JObj(PurgeFields(fs, 0))
    case _ => j
  }

  function PurgeItems(xs: seq<Json>): (r: seq<Json>)
    ensures |r| <= |xs|
    decreases xs, 1, 0
  {
    if xs == [] then []
    else if xs[0] == JNull then PurgeItems(xs[1..])
    else [Purge(xs[0])] + PurgeItems(xs[1..])
  }

  /** The purged entries of `fs[i..]`; the index keeps the termination
      argument on the enclosing dict. */
  function PurgeFields(fs: seq<(string, Json)>, i: nat): (r: seq<(string, Json)>)
    requires i <= |fs|
    ensures |r| <= |fs| - i
    decreases JObj(fs), 1, |fs| - i
  {
    if i == |fs| then []
    else if fs[i].1 == JNull then PurgeFields(fs, i + 1)
    else
      assert fs[i] in fs;
      [(fs[i].0, Purge(fs[i].1))] + PurgeFields(fs, i + 1)
  }

  lemma {:induction false} PurgeNullFree(j: Json)
    ensures NullFree(Purge(j))
    decreases j, 2, 0
  {
    match j
    case JArr(xs) => PurgeItemsNullFree(xs);
    case JObj(fs) => PurgeFieldsNullFree(fs, 0);
    case _ =>
  }

  lemma {:induction false} PurgeItemsNullFree(xs: seq<Json>)
    ensures forall k :: 0 <= k < |PurgeItems(xs)| ==>
      PurgeItems(xs)[k] != JNull && NullFree(PurgeItems(xs)[k])
    decreases xs, 1, 0
  {
    if xs != [] {
      PurgeItemsNullFree(xs[1..]);
      if xs[0] != JNull { PurgeNullFree(xs[0]); }
    }
  }

  lemma {:induction false} PurgeFieldsNullFree(fs: seq<(string, Json)>, i: nat)
    requires i <= |fs|
    ensures forall k :: 0 <= k < |PurgeFields(fs, i)| ==>
      PurgeFields(fs, i)[k].1 != JNull && NullFree(PurgeFields(fs, i)[k].1)
    decreases JObj(fs), 1, |fs| - i
  {
    if i < |fs| {
      PurgeFieldsNullFree(fs, i + 1);
      assert fs[i] in fs;
      if fs[i].1 != JNull { PurgeNullFree(fs[i].1); }
    }
  }

  /** A value with nothing to purge comes back unchanged. */
  lemma {:induction false} PurgeKeepsNullFree(j: Json)
    requires NullFree(j)
    ensures Purge(j) == j
    decreases j, 2, 0
  {
    match j
    case JArr(xs) => PurgeItemsKeep(xs);
    case JObj(fs) => PurgeFieldsKeep(fs, 0);
    case _ =>
  }

  lemma {:induction false} PurgeItemsKeep(xs: seq<Json>)
    requires forall k :: 0 <= k < |xs| ==> xs[k] != JNull && NullFree(xs[k])
    ensures PurgeItems(xs) == xs
    decreases xs, 1, 0
  {
    if xs != [] {
      PurgeKeepsNullFree(xs[0]);
      PurgeItemsKeep(xs[1..]);
    }
  }

  lemma {:induction false} PurgeFieldsKeep(fs: seq<(string, Json)>, i: nat)
    requires i <= |fs|
    requires forall k :: 0 <= k < |fs| ==> fs[k].1 != JNull && NullFree(fs[k].1)
    ensures PurgeFields(fs, i) == fs[i..]
    decreases JObj(fs), 1, |fs| - i
  {
    if i < |fs| {
      assert fs[i] in fs;
      PurgeKeepsNullFree(fs[i].1);
      PurgeFieldsKeep(fs, i + 1);
    }
  }

  lemma PurgeIdempotent(j: Json)
    ensures Purge(Purge(j)) == Purge(j)
  {
    PurgeNullFree(j);
    PurgeKeepsNullFree(Purge(j));
  }

  /** Every non-`None` entry of a dict survives, under its own key, purged. */
  lemma {:induction false} PurgeFieldsKeepsEntry(fs: seq<(string, Json)>, i: nat, k: nat)
    requires i <= k < |fs| && fs[k].1 != JNull
    ensures (fs[k].0, Purge(fs[k].1)) in PurgeFields(fs, i)
    decreases k - i
  {
    if i < k { PurgeFieldsKeepsEntry(fs, i + 1, k); }
  }

  /** ... and nothing else is in the result. */
  lemma {:induction false} PurgeFieldsOnlyEntries(fs: seq<(string, Json)>, i: nat, e: (string, Json))
    requires i <= |fs| && e in PurgeFields(fs, i)
    ensures exists k :: i <= k < |fs| && fs[k].1 != JNull && e == (fs[k].0, Purge(fs[k].1))
    decreases |fs| - i
  {
    if fs[i].1 != JNull && e == (fs[i].0, Purge(fs[i].1)) {
    } else {
      PurgeFieldsOnlyEntries(fs, i + 1, e);
    }
  }

  /** Every non-`None` list element survives, purged. */
  lemma {:induction false} PurgeItemsKeepsElement(xs: seq<Json>, k: nat)
    requires k < |xs| && xs[k] != JNull
    ensures Purge(xs[k]) in PurgeItems(xs)
  {
    if k > 0 { PurgeItemsKeepsElement(xs[1..], k - 1); }
  }
}
