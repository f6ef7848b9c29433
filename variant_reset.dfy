/** `src/variant_reset.py`: the reset of a product's variants by deleting
    and recreating them from an in-memory backup, then putting back the
    inventory levels and removing the locations the new variants gained.
    The remote side is a `Remote` of answers; what the reset does to it is
    the sequence of mutations it issues, in order. */
module VariantReset {
  import opened Wrappers
  import opened Strings
  import opened Seqs
  import opened Dicts
  import opened Json

  // ---------------------------------------------------------------------
  // _build_variant_input

  /** The `price` of a variant record: missing, `None`, or a string. */
  datatype PriceField = NoPrice | NullPrice | PriceStr(s: string)

  /** A variant record. `inventoryItem` is the id of a non-empty
      `inventoryItem` dict (`None` when the key is missing or the dict is
      empty); each selected option is its `value`, `None` when it has none.
      A null `inventoryItem` has no case here: the listing always selects
      an object, and a null one would raise at src/variant_reset.py:80. */
  datatype VariantData = VariantData(
    id: string, title: Option<string>, inventoryItem: Option<string>, selectedOptions: seq<Option<string>>,
    price: PriceField, compareAtPrice: Option<string>, sku: Option<string>, barcode: Option<string>)

  type Entry = (string, Json)

  /** The value of the `i`-th selected option, if there is one. */
  function OptionAt(opts: seq<Option<string>>, i: nat): Option<string> {
    if i < |opts| then opts[i] else None
  }

  function StrOrNone(o: Option<string>): Json {
    if o.Some? then JStr(o.value) else JNull
  }

  /** `str(variant_data.get("price", "0.00"))`. */
  function PriceText(p: PriceField): string {
    match p
    case NoPrice => "0.00"
    case NullPrice => "None"
    case PriceStr(s) => s
  }

  /** The entries that depend on the record, before `None` is dropped. */
  function VariableEntries(v: VariantData): seq<Entry> {
    [("option1", StrOrNone(OptionAt(v.selectedOptions, 0))),
     ("option2", StrOrNone(OptionAt(v.selectedOptions, 1))),
     ("option3", StrOrNone(OptionAt(v.selectedOptions, 2))),
     ("price", JStr(PriceText(v.price))),
     ("compare_at_price", StrOrNone(v.compareAtPrice)),
     ("sku", StrOrNone(v.sku)),
     ("barcode", StrOrNone(v.barcode)),
     ("inventory_management", if v.inventoryItem.Some? then JStr("shopify") else JNull)]
  }

  /** The entries every input carries. */
  const FixedEntries: seq<Entry> :=
    [("inventory_policy", JStr("deny")), ("requires_shipping", JBool(true)), ("taxable", JBool(true)),
     ("weight", JNum(0.0)), ("weight_unit", JStr("kg"))]

  predicate NotNone(e: Entry) {
    e.1 != JNull
  }

  /** `_build_variant_input`: the REST input, without its `None` values. */
  function BuildVariantInput(v: VariantData): (r: seq<Entry>)
    ensures forall i :: 0 <= i < |r| ==> r[i].1 != JNull
  {
    Filter(VariableEntries(v) + FixedEntries, NotNone)
  }

  /** The input is the set entries that depend on the record followed by
      the five fixed ones. */
  lemma BuildVariantInputShape(v: VariantData)
    ensures BuildVariantInput(v) == Filter(VariableEntries(v), NotNone) + FixedEntries
  {
    FilterAppend(VariableEntries(v), FixedEntries, NotNone);
    FixedEntriesKept();
  }

  lemma FixedEntriesKept()
    ensures Filter(FixedEntries, NotNone) == FixedEntries
  {
    FilterAll(FixedEntries, NotNone);
  }

  /** Only the first three selected options count. */
  lemma BuildVariantInputFirstThree(v: VariantData)
    ensures BuildVariantInput(v) == BuildVariantInput(v.(selectedOptions := v.selectedOptions[..Min3(|v.selectedOptions|)]))
  {
    var w := v.(selectedOptions := v.selectedOptions[..Min3(|v.selectedOptions|)]);
    assert VariableEntries(v) == VariableEntries(w);
  }

  function Min3(n: nat): nat {
    if n < 3 then n else 3
  }

  /** `optionK` is present, with the option's value, exactly when the
      record has a K-th option with a value. */
  lemma BuildVariantInputOption(v: VariantData, k: nat, x: string)
    requires k < 3
    ensures (OptionKey(k), JStr(x)) in BuildVariantInput(v) <==> OptionAt(v.selectedOptions, k) == Some(x)
  {
    var e := (OptionKey(k), JStr(x));
    InputMember(v, e);
    FixedKeysOther(e);
    VariableEntryOfKey(v, e, k);
  }

  function OptionKey(k: nat): string
    requires k < 3
  {
    if k == 0 then "option1" else if k == 1 then "option2" else "option3"
  }

  /** `inventory_management` is "shopify" exactly when the record has an
      inventory item, and absent otherwise. */
  lemma BuildVariantInputInventory(v: VariantData, j: Json)
    ensures ("inventory_management", j) in BuildVariantInput(v) <==> v.inventoryItem.Some? && j == JStr("shopify")
  {
    var e := ("inventory_management", j);
    InputMember(v, e);
    FixedKeysOther(e);
    VariableEntryOfKey(v, e, 7);
  }

  /** The entries of an input: the set record entries and the fixed ones. */
  lemma InputMember(v: VariantData, e: Entry)
    ensures e in BuildVariantInput(v) <==> (e in VariableEntries(v) && NotNone(e)) || e in FixedEntries
  {
    BuildVariantInputShape(v);
    FilterMember(VariableEntries(v), NotNone, e);
  }

  /** No fixed entry has an option key or `inventory_management`. */
  lemma FixedKeysOther(e: Entry)
    ensures e in FixedEntries ==> e.0 != "option1" && e.0 != "option2" && e.0 != "option3" && e.0 != "inventory_management"
  {
  }

  /** The record entries have distinct keys: an entry with the key of
      position `k` is the one at `k`. */
  lemma VariableEntryOfKey(v: VariantData, e: Entry, k: nat)
    requires k < 8
    ensures e in VariableEntries(v) && e.0 == VariableEntries(v)[k].0 <==> e == VariableEntries(v)[k]
  {
  }

  /** A record as `get_product_variants` lists it (id, sku, title and the
      inventory item only) becomes an input priced "0.00" with no options. */
  lemma BuildVariantInputOfListing(v: VariantData, x: string)
    requires v.price == NoPrice && v.selectedOptions == [] && v.compareAtPrice == None && v.barcode == None
    ensures ("price", JStr("0.00")) in BuildVariantInput(v)
    ensures ("option1", JStr(x)) !in BuildVariantInput(v)
  {
    BuildVariantInputShape(v);
    FilterKeeps(VariableEntries(v), NotNone, VariableEntries(v)[3]);
    BuildVariantInputOption(v, 0, x);
  }

  // ---------------------------------------------------------------------
  // reset_product_variants

  /** A field of an inventory level record: its key missing, present
      with a null value, or present with a number. */
  datatype Field = Missing | Null | Val(value: int)

  /** An inventory level record as `inventory_levels_get` lists it. */
  datatype Level = Level(location: Field, available: Field)

  /** The field's Python value when the key is there, `None` for null
      (`level["location_id"]`, and `level.get(...)` without a default). */
  function FieldValue(f: Field): (r: Option<int>)
    ensures r.Some? <==> f.Val?
  {
    if f.Val? then Some(f.value) else None
  }

  /** `level.get("available", 0)`: 0 when the key is missing, `None` when
      it holds null. */
  function AvailableArg(f: Field): (r: Option<int>)
    ensures r == None <==> f.Null?
    ensures f.Missing? ==> r == Some(0)
  {
    if f.Missing? then Some(0) else FieldValue(f)
  }

  /** The record has a `location_id` key, so `level["location_id"]` does
      not raise. */
  predicate HasLocation(l: Level) {
    !l.location.Missing?
  }

  /** Every level of the list has a `location_id` key. */
  predicate Keyed(levels: seq<Level>) {
    forall i :: 0 <= i < |levels| ==> HasLocation(levels[i])
  }

  /** A mapped variant whose backed-up levels all carry `location_id`. */
  function KeyedIn(backup: Dict<string, seq<Level>>): ((string, int)) -> bool {
    (e: (string, int)) => Keyed(Get(backup, e.0).GetOr([]))
  }

  /** A mutation the reset issues; each is attempted whether or not it
      then raises. */
  datatype Op =
    | DeleteVariant(variantGid: string)
    | CreateVariant(productGid: string, input: seq<Entry>)
    | SetLevel(item: int, location: int, available: Option<int>)
    | DeleteLevel(item: int, at: Option<int>)

  /** The answers of the remote side, whose helpers are not part of this
      model: the variant listing (`None` when it raises), `gid_to_id`
      (`None` for a falsy result), the levels of an inventory item before
      and after the recreation (`None` when the read raises), and what the
      `k`-th `variant_create` returns: `None` when it raises, else the
      inventory item gid of the new variant, if any. */
  datatype Remote = Remote(
    listing: Option<seq<VariantData>>, gidToId: string -> Option<int>,
    levelsBefore: int -> Option<seq<Level>>, levelsAfter: int -> Option<seq<Level>>,
    create: (nat, seq<Entry>) -> Option<Option<string>>)

  /** A variant whose title contains the filter, both lowercased, is left
      alone; an empty filter skips nothing. */
  predicate Skipped(skip: string, v: VariantData) {
    skip != "" && IsSubstring(Lower(skip), Lower(v.title.GetOr("")))
  }

  /** The default `skip_filter`. */
  const DefaultSkipFilter := "perso"

  /** With the default filter, a variant is left alone exactly when its
      lowercased title contains "perso". */
  lemma DefaultFilterSkips(v: VariantData)
    ensures Skipped(DefaultSkipFilter, v) <==> IsSubstring("perso", Lower(v.title.GetOr("")))
  {
    assert Lower("perso") == "perso";
  }

  function KeptBy(skip: string): VariantData -> bool {
    (v: VariantData) => !Skipped(skip, v)
  }

  /** The numeric id of an inventory item gid, when the gid and the id are
      both truthy. */
  function ItemId(remote: Remote, gid: Option<string>): Option<int> {
    if gid.Some? && gid.value != "" && remote.gidToId(gid.value).Some? && remote.gidToId(gid.value).value != 0
    then remote.gidToId(gid.value) else None
  }

  /** `inventory_backup` after the backup loop over `vs`. */
  function Backup(remote: Remote, vs: seq<VariantData>): Dict<string, seq<Level>> {
    if vs == [] then []
    else
      var b := Backup(remote, vs[..|vs| - 1]);
      var v := vs[|vs| - 1];
      var item := ItemId(remote, v.inventoryItem);
      if item.Some? && remote.levelsBefore(item.value).Some? then Put(b, v.id, remote.levelsBefore(item.value).value)
      else b
  }

  /** The inventory id the `k`-th creation gave back for `v`, if it did not
      raise and returned a truthy one. */
  function CreatedItem(remote: Remote, k: nat, v: VariantData): Option<int> {
    var answer := remote.create(k, BuildVariantInput(v));
    if answer.Some? then ItemId(remote, answer.value) else None
  }

  /** `variant_mapping` after recreating `ks`, the `k`-th creation being
      the `k`-th element's. */
  function Mapping(remote: Remote, ks: seq<VariantData>): Dict<string, int> {
    if ks == [] then []
    else
      var m := Mapping(remote, ks[..|ks| - 1]);
      var item := CreatedItem(remote, |ks| - 1, ks[|ks| - 1]);
      if item.Some? then Put(m, ks[|ks| - 1].id, item.value) else m
  }

  function DeleteOps(vs: seq<VariantData>): (ops: seq<Op>)
    ensures |ops| == |vs|
    ensures forall i :: 0 <= i < |vs| ==> ops[i] == DeleteVariant(vs[i].id)
  {
    if vs == [] then [] else DeleteOps(vs[..|vs| - 1]) + [DeleteVariant(vs[|vs| - 1].id)]
  }

  function CreateOps(product: string, vs: seq<VariantData>): (ops: seq<Op>)
    ensures |ops| == |vs|
    ensures forall i :: 0 <= i < |vs| ==> ops[i] == CreateVariant(product, BuildVariantInput(vs[i]))
  {
    if vs == [] then [] else CreateOps(product, vs[..|vs| - 1]) + [CreateVariant(product, BuildVariantInput(vs[|vs| - 1]))]
  }

  /** The restore of one variant: every backed-up level with a truthy
      location is set to its original `available` (0 when the key is
      missing, `None` when it is null). */
  function LevelSets(item: int, levels: seq<Level>): seq<Op> {
    if levels == [] then []
    else
      var l := levels[|levels| - 1];
      if l.location.Val? && l.location.value != 0
      then LevelSets(item, levels[..|levels| - 1]) + [SetLevel(item, l.location.value, AvailableArg(l.available))]
      else LevelSets(item, levels[..|levels| - 1])
  }

  /** Step 7 over the mapped variants, in mapping order. */
  function RestoreOps(m: Dict<string, int>, backup: Dict<string, seq<Level>>): seq<Op> {
    if m == [] then []
    else RestoreOps(m[..|m| - 1], backup) + LevelSets(m[|m| - 1].1, Get(backup, m[|m| - 1].0).GetOr([]))
  }

  /** `original_locations`, for backed-up levels that all carry the key. */
  function Locations(levels: seq<Level>): set<Option<int>> {
    set l | l in levels :: FieldValue(l.location)
  }

  /** The deletion of every current level whose location is not in `orig`. */
  function ExtraDeletes(item: int, current: seq<Level>, orig: set<Option<int>>): seq<Op> {
    if current == [] then []
    else
      var l := current[|current| - 1];
      if FieldValue(l.location) !in orig
      then ExtraDeletes(item, current[..|current| - 1], orig) + [DeleteLevel(item, FieldValue(l.location))]
      else ExtraDeletes(item, current[..|current| - 1], orig)
  }

  /** Step 8 for one mapped variant with keyed backed-up levels: nothing
      without a backup or when the current levels cannot be read; a
      current level without `location_id` raises a `KeyError` that the
      handler catches, so only the levels before it are looked at. */
  function CleanupFor(remote: Remote, item: int, levels: seq<Level>): seq<Op> {
    if levels == [] then []
    else if remote.levelsAfter(item).None? then []
    else ExtraDeletes(item, TakeWhile(remote.levelsAfter(item).value, HasLocation), Locations(levels))
  }

  /** The mapped variants step 8 gets through: it stops with an uncaught
      `KeyError` at the first one with a backed-up level that lacks
      `location_id`. */
  function CleanedUp(m: Dict<string, int>, backup: Dict<string, seq<Level>>): Dict<string, int> {
    TakeWhile(m, KeyedIn(backup))
  }

  /** Whether the reset ends with that `KeyError`. */
  predicate CleanupRaises(m: Dict<string, int>, backup: Dict<string, seq<Level>>) {
    exists e :: e in m && !Keyed(Get(backup, e.0).GetOr([]))
  }

  function CleanupOps(remote: Remote, m: Dict<string, int>, backup: Dict<string, seq<Level>>): seq<Op> {
    if m == [] then []
    else CleanupOps(remote, m[..|m| - 1], backup) + CleanupFor(remote, m[|m| - 1].1, Get(backup, m[|m| - 1].0).GetOr([]))
  }

  /** The variants recreated, in creation order: the kept ones from the
      second on, then the first unless skipped. */
  function Recreated(vs: seq<VariantData>, skip: string): seq<VariantData>
    requires vs != []
  {
    Filter(vs[1..], KeptBy(skip)) + (if Skipped(skip, vs[0]) then [] else [vs[0]])
  }

  /** Everything a reset of two or more variants issues. */
  function ResetOps(remote: Remote, product: string, vs: seq<VariantData>, skip: string): seq<Op>
    requires |vs| >= 2
  {
    var kept := Filter(vs[1..], KeptBy(skip));
    var ks := Recreated(vs, skip);
    var backup := Backup(remote, vs);
    var m := Mapping(remote, ks);
    DeleteOps(kept) + (CreateOps(product, kept) + [DeleteVariant(vs[0].id)] + CreateOps(product, ks[|kept|..]))
    + (RestoreOps(m, backup) + CleanupOps(remote, CleanedUp(m, backup), backup))
  }

  /** Whether a reset of two or more variants raises in step 8. */
  predicate ResetRaises(remote: Remote, vs: seq<VariantData>, skip: string)
    requires |vs| >= 2
  {
    CleanupRaises(Mapping(remote, Recreated(vs, skip)), Backup(remote, vs))
  }

  /** How `reset_product_variants` ends: it returns a flag, or the
      `KeyError` of step 8 escapes. */
  datatype Exit = Returned(ok: bool) | KeyErrorRaised

  /** The backup loop. */
  method BackupInventory(remote: Remote, vs: seq<VariantData>) returns (backup: Dict<string, seq<Level>>)
    ensures backup == Backup(remote, vs)
  {
    backup := [];
    for i := 0 to |vs|
      invariant backup == Backup(remote, vs[..i])
    {
      assert vs[..i + 1][..i] == vs[..i];
      var v := vs[i];
      var item := ItemId(remote, v.inventoryItem);
      if item.Some? {
        var levels := remote.levelsBefore(item.value);
        if levels.Some? {
          backup := Put(backup, v.id, levels.value);
        }
      }
    }
    assert vs[..|vs|] == vs;
  }

  /** Step 3: delete every kept variant of `rest`. */
  method DeletePhase(rest: seq<VariantData>, skip: string) returns (ops: seq<Op>)
    ensures ops == DeleteOps(Filter(rest, KeptBy(skip)))
  {
    ops := [];
    var keep := KeptBy(skip);
    for i := 0 to |rest|
      invariant ops == DeleteOps(Filter(rest[..i], keep))
    {
      DeleteOpsSnoc(rest, i, keep);
      if keep(rest[i]) {
        ops := ops + [DeleteVariant(rest[i].id)];
      }
    }
    assert rest[..|rest|] == rest;
  }

  /** One more listed variant adds its delete exactly when it is kept. */
  lemma DeleteOpsSnoc(rest: seq<VariantData>, i: nat, keep: VariantData -> bool)
    requires i < |rest|
    ensures DeleteOps(Filter(rest[..i + 1], keep))
      == if keep(rest[i]) then DeleteOps(Filter(rest[..i], keep)) + [DeleteVariant(rest[i].id)]
         else DeleteOps(Filter(rest[..i], keep))
  {
    FilterSnoc(rest, i, keep);
    if keep(rest[i]) {
      var kept := Filter(rest[..i + 1], keep);
      assert kept[..|kept| - 1] == Filter(rest[..i], keep);
    }
  }

  /** One recreation, the `k`-th: the create call and the mapping update. */
  method RecreateOne(remote: Remote, product: string, k: nat, v: VariantData, m: Dict<string, int>)
    returns (op: Op, m': Dict<string, int>)
    ensures op == CreateVariant(product, BuildVariantInput(v))
    ensures m' == if CreatedItem(remote, k, v).Some? then Put(m, v.id, CreatedItem(remote, k, v).value) else m
  {
    var input := BuildVariantInput(v);
    op := CreateVariant(product, input);
    m' := m;
    var answer := remote.create(k, input);
    if answer.Some? {
      var item := ItemId(remote, answer.value);
      if item.Some? {
        m' := Put(m, v.id, item.value);
      }
    }
  }

  /** Step 4: recreate every kept variant of `rest`, in order. */
  method RecreatePhase(remote: Remote, product: string, rest: seq<VariantData>, skip: string)
    returns (ops: seq<Op>, m: Dict<string, int>)
    ensures ops == CreateOps(product, Filter(rest, KeptBy(skip)))
    ensures m == Mapping(remote, Filter(rest, KeptBy(skip)))
  {
    ops := [];
    m := [];
    for i := 0 to |rest|
      invariant ops == CreateOps(product, Filter(rest[..i], KeptBy(skip)))
      invariant m == Mapping(remote, Filter(rest[..i], KeptBy(skip)))
    {
      FilterSnoc(rest, i, KeptBy(skip));
      if !Skipped(skip, rest[i]) {
        var kept := Filter(rest[..i + 1], KeptBy(skip));
        assert kept[..|kept| - 1] == Filter(rest[..i], KeptBy(skip));
        var op;
        op, m := RecreateOne(remote, product, |kept| - 1, rest[i], m);
        ops := ops + [op];
      }
    }
    assert rest[..|rest|] == rest;
  }

  /** The inner loop of step 7. */
  method SetLevels(item: int, levels: seq<Level>) returns (ops: seq<Op>)
    ensures ops == LevelSets(item, levels)
  {
    ops := [];
    for i := 0 to |levels|
      invariant ops == LevelSets(item, levels[..i])
    {
      assert levels[..i + 1][..i] == levels[..i];
      var l := levels[i];
      if l.location.Val? && l.location.value != 0 {
        ops := ops + [SetLevel(item, l.location.value, AvailableArg(l.available))];
      }
    }
    assert levels[..|levels|] == levels;
  }

  /** Step 7. */
  method RestoreLevels(m: Dict<string, int>, backup: Dict<string, seq<Level>>) returns (ops: seq<Op>)
    ensures ops == RestoreOps(m, backup)
  {
    ops := [];
    for i := 0 to |m|
      invariant ops == RestoreOps(m[..i], backup)
    {
      assert m[..i + 1][..i] == m[..i];
      var original := Get(backup, m[i].0).GetOr([]);
      if original != [] {
        var sets := SetLevels(m[i].1, original);
        ops := ops + sets;
      } else {
        assert LevelSets(m[i].1, original) == [];
        assert ops + [] == ops;
      }
    }
    assert m[..|m|] == m;
  }

  /** The inner loop of step 8, left by the `KeyError` of a level
      without `location_id`. */
  method DeleteExtra(item: int, current: seq<Level>, orig: set<Option<int>>) returns (ops: seq<Op>)
    ensures ops == ExtraDeletes(item, TakeWhile(current, HasLocation), orig)
  {
    ops := [];
    for i := 0 to |current|
      invariant ops == ExtraDeletes(item, current[..i], orig)
      invariant forall j :: 0 <= j < i ==> HasLocation(current[j])
    {
      if !HasLocation(current[i]) {
        TakeWhileAt(current, HasLocation, i);
        return;
      }
      assert current[..i + 1][..i] == current[..i];
      if FieldValue(current[i].location) !in orig {
        ops := ops + [DeleteLevel(item, FieldValue(current[i].location))];
      }
    }
    TakeWhileAt(current, HasLocation, |current|);
    assert current[..|current|] == current;
  }

  /** Step 8; `raised` when a backed-up level without `location_id` makes
      it raise. */
  method CleanupLocations(remote: Remote, m: Dict<string, int>, backup: Dict<string, seq<Level>>)
    returns (ops: seq<Op>, raised: bool)
    ensures ops == CleanupOps(remote, CleanedUp(m, backup), backup)
    ensures raised <==> CleanupRaises(m, backup)
  {
    ops := [];
    for i := 0 to |m|
      invariant ops == CleanupOps(remote, m[..i], backup)
      invariant KeyedUpTo(m, backup, i)
    {
      if !Keyed(Get(backup, m[i].0).GetOr([])) {
        CleanupStopsAt(m, backup, i);
        return ops, true;
      }
      ops := CleanupStep(remote, m, backup, i, ops);
    }
    CleanupStopsAt(m, backup, |m|);
    raised := false;
  }

  /** The first `i` mapped variants have keyed backups. */
  ghost predicate KeyedUpTo(m: Dict<string, int>, backup: Dict<string, seq<Level>>, i: nat)
    requires i <= |m|
  {
    forall j :: 0 <= j < i ==> KeyedIn(backup)(m[j])
  }

  /** Step 8 stops before `m[i]`, or gets through when `i == |m|`. */
  lemma CleanupStopsAt(m: Dict<string, int>, backup: Dict<string, seq<Level>>, i: nat)
    requires i <= |m| && KeyedUpTo(m, backup, i)
    requires i < |m| ==> !Keyed(Get(backup, m[i].0).GetOr([]))
    ensures CleanedUp(m, backup) == m[..i]
    ensures CleanupRaises(m, backup) <==> i < |m|
  {
    TakeWhileAt(m, KeyedIn(backup), i);
    if i < |m| {
      assert m[i] in m;
    } else {
      assert m[..i] == m;
      forall e | e in m ensures Keyed(Get(backup, e.0).GetOr([])) {
        var k :| 0 <= k < |m| && m[k] == e;
        assert KeyedIn(backup)(m[k]);
      }
    }
  }

  /** One mapped variant of step 8. */
  method CleanupStep(remote: Remote, m: Dict<string, int>, backup: Dict<string, seq<Level>>, i: nat, ops: seq<Op>)
    returns (ops': seq<Op>)
    requires i < |m| && ops == CleanupOps(remote, m[..i], backup)
    ensures ops' == CleanupOps(remote, m[..i + 1], backup)
  {
    assert m[..i + 1][..i] == m[..i];
    var original := Get(backup, m[i].0).GetOr([]);
    var step: seq<Op> := [];
    if original != [] {
      var current := remote.levelsAfter(m[i].1);
      if current.Some? {
        step := DeleteExtra(m[i].1, current.value, Locations(original));
      }
    }
    assert step == CleanupFor(remote, m[i].1, original);
    ops' := ops + step;
  }

  /** `reset_product_variants`. Returned: how it ends and the mutations
      issued, in order. */
  method ResetProductVariants(remote: Remote, product: string, skip: string) returns (exit: Exit, ops: seq<Op>)
    ensures remote.listing.None? || remote.listing == Some([]) ==> exit == Returned(false) && ops == []
    ensures remote.listing.Some? && |remote.listing.value| == 1 ==> exit == Returned(true) && ops == []
    ensures remote.listing.Some? && |remote.listing.value| >= 2 ==>
      var vs := remote.listing.value;
      && ops == ResetOps(remote, product, vs, skip)
      && exit == if ResetRaises(remote, vs, skip) then KeyErrorRaised else Returned(true)
  {
    if remote.listing.None? || remote.listing.value == [] {
      return Returned(false), [];
    }
    var vs := remote.listing.value;
    if |vs| == 1 {
      return Returned(true), [];
    }
    var backup := BackupInventory(remote, vs);
    var deletes := DeletePhase(vs[1..], skip);
    var creates, firstCreate, m := RecreateAll(remote, product, vs, skip);
    var restores := RestoreLevels(m, backup);
    var cleanups, raised := CleanupLocations(remote, m, backup);
    exit := if raised then KeyErrorRaised else Returned(true);
    ops := deletes + (creates + [DeleteVariant(vs[0].id)] + firstCreate) + (restores + cleanups);
  }

  /** Steps 4 and 5: the kept variants from the second on are recreated,
      then the first is deleted and, unless skipped, recreated. Returned:
      the creations before and after the first's deletion and the mapping
      from old variant ids to new inventory items. */
  method RecreateAll(remote: Remote, product: string, vs: seq<VariantData>, skip: string)
    returns (creates: seq<Op>, firstCreate: seq<Op>, m: Dict<string, int>)
    requires |vs| >= 2
    ensures creates == CreateOps(product, Filter(vs[1..], KeptBy(skip)))
    ensures firstCreate == CreateOps(product, Recreated(vs, skip)[|Filter(vs[1..], KeptBy(skip))|..])
    ensures m == Mapping(remote, Recreated(vs, skip))
  {
    creates, m := RecreatePhase(remote, product, vs[1..], skip);
    var kept := Filter(vs[1..], KeptBy(skip));
    ghost var ks := Recreated(vs, skip);
    firstCreate := [];
    if !Skipped(skip, vs[0]) {
      assert ks == kept + [vs[0]] && ks[..|ks| - 1] == kept;
      var op;
      op, m := RecreateOne(remote, product, |kept|, vs[0], m);
      firstCreate := [op];
    } else {
      assert ks == kept;
    }
  }

  // ---------------------------------------------------------------------
  // Properties of a reset

  /** Among the second to last variants, exactly the kept ones are
      deleted. */
  lemma DeletesExactlyKept(rest: seq<VariantData>, skip: string, g: string)
    ensures DeleteVariant(g) in DeleteOps(Filter(rest, KeptBy(skip)))
        <==> exists v :: v in rest && !Skipped(skip, v) && v.id == g
  {
    var kept := Filter(rest, KeptBy(skip));
    if DeleteVariant(g) in DeleteOps(kept) {
      var i :| 0 <= i < |kept| && DeleteOps(kept)[i] == DeleteVariant(g);
      assert kept[i] in rest && KeptBy(skip)(kept[i]);
    }
    if exists v :: v in rest && !Skipped(skip, v) && v.id == g {
      var v :| v in rest && !Skipped(skip, v) && v.id == g;
      FilterKeeps(rest, KeptBy(skip), v);
      var i :| 0 <= i < |kept| && kept[i] == v;
      assert DeleteOps(kept)[i] == DeleteVariant(g);
    }
  }

  /** Only kept variants are recreated: every creation input is that of a
      kept variant. */
  lemma CreatesOnlyKept(product: string, vs: seq<VariantData>, skip: string, i: nat)
    requires vs != [] && i < |Recreated(vs, skip)|
    ensures var v := Recreated(vs, skip)[i];
      v in vs && !Skipped(skip, v) && CreateOps(product, Recreated(vs, skip))[i] == CreateVariant(product, BuildVariantInput(v))
  {
    var kept := Filter(vs[1..], KeptBy(skip));
    if i < |kept| {
      assert kept[i] in vs[1..] && KeptBy(skip)(kept[i]);
    }
  }

  /** The mutations on inventory levels only. */
  ghost predicate LevelOpsOnly(ops: seq<Op>) {
    forall k :: 0 <= k < |ops| ==> ops[k].SetLevel? || ops[k].DeleteLevel?
  }

  lemma LevelOpsTail(remote: Remote, m: Dict<string, int>, backup: Dict<string, seq<Level>>)
    ensures LevelOpsOnly(RestoreOps(m, backup) + CleanupOps(remote, CleanedUp(m, backup), backup))
  {
    RestoreNoVariantOps(m, backup);
    CleanupNoVariantOps(remote, CleanedUp(m, backup), backup);
  }

  /** The layout of a reset, on any lists of mutations of the right kinds. */
  lemma LayoutOf(d: seq<Op>, c: seq<Op>, x: Op, f: seq<Op>, t: seq<Op>)
    requires |d| == |c| && x.DeleteVariant?
    requires forall k :: 0 <= k < |d| ==> d[k].DeleteVariant?
    requires forall k :: 0 <= k < |c| ==> c[k].CreateVariant?
    requires forall k :: 0 <= k < |f| ==> f[k].CreateVariant?
    requires LevelOpsOnly(t)
    ensures var ops := d + (c + [x] + f) + t;
      var n := |d|;
      (forall k :: 0 <= k < |ops| && ops[k].DeleteVariant? ==> k < n || k == 2 * n)
      && (forall k :: 0 <= k < |ops| && ops[k].CreateVariant? ==> n <= k)
  {
  }

  /** What follows the first variant's deletion, on the same lists. */
  lemma LayoutAfterFirst(d: seq<Op>, c: seq<Op>, x: Op, f: seq<Op>, t: seq<Op>)
    requires |d| == |c|
    requires LevelOpsOnly(t)
    ensures var ops := d + (c + [x] + f) + t;
      var n := |d|;
      (forall k :: 0 <= k < |f| ==> ops[2 * n + 1 + k] == f[k])
      && (forall k :: 2 * n + 1 + |f| <= k < |ops| ==> !ops[k].CreateVariant?)
  {
    var h := d + (c + [x] + f);
    assert |h| == 2 * |d| + 1 + |f|;
    forall k | |h| <= k < |h + t|
      ensures (h + t)[k] == t[k - |h|]
    {
    }
  }

  /** Where the variant deletions and creations sit in a reset. */
  lemma ResetLayout(remote: Remote, product: string, vs: seq<VariantData>, skip: string)
    requires |vs| >= 2
    ensures var ops := ResetOps(remote, product, vs, skip);
      var n := |Filter(vs[1..], KeptBy(skip))|;
      2 * n < |ops| && ops[2 * n] == DeleteVariant(vs[0].id)
      && (forall k :: 0 <= k < |ops| && ops[k].DeleteVariant? ==> k < n || k == 2 * n)
      && (forall k :: 0 <= k < |ops| && ops[k].CreateVariant? ==> n <= k)
  {
    var kept := Filter(vs[1..], KeptBy(skip));
    var ks := Recreated(vs, skip);
    var backup := Backup(remote, vs);
    var m := Mapping(remote, ks);
    LevelOpsTail(remote, m, backup);
    LayoutOf(DeleteOps(kept), CreateOps(product, kept), DeleteVariant(vs[0].id), CreateOps(product, ks[|kept|..]),
             RestoreOps(m, backup) + CleanupOps(remote, CleanedUp(m, backup), backup));
  }

  /** The first variant is recreated right after its deletion unless the
      filter skips it; when it is skipped nothing is created after its
      deletion. */
  lemma ResetFirstVariant(remote: Remote, product: string, vs: seq<VariantData>, skip: string)
    requires |vs| >= 2
    ensures var ops := ResetOps(remote, product, vs, skip);
      var n := |Filter(vs[1..], KeptBy(skip))|;
      (!Skipped(skip, vs[0]) ==> 2 * n + 1 < |ops| && ops[2 * n + 1] == CreateVariant(product, BuildVariantInput(vs[0])))
      && (Skipped(skip, vs[0]) ==> forall k :: 2 * n < k < |ops| ==> !ops[k].CreateVariant?)
  {
    var kept := Filter(vs[1..], KeptBy(skip));
    var ks := Recreated(vs, skip);
    var backup := Backup(remote, vs);
    var m := Mapping(remote, ks);
    var f := CreateOps(product, ks[|kept|..]);
    assert |f| == if Skipped(skip, vs[0]) then 0 else 1;
    LevelOpsTail(remote, m, backup);
    LayoutAfterFirst(DeleteOps(kept), CreateOps(product, kept), DeleteVariant(vs[0].id), f,
                     RestoreOps(m, backup) + CleanupOps(remote, CleanedUp(m, backup), backup));
  }

  /** The order of the mutations: the deletions of the second to last
      variants, their recreations, the deletion of the first variant (always
      made), its recreation (only when not skipped), then the level
      restores and the location deletions. The first variant's deletion is
      the only one after a creation. */
  lemma ResetOrder(remote: Remote, product: string, vs: seq<VariantData>, skip: string, i: nat, j: nat)
    requires |vs| >= 2
    requires i < j < |ResetOps(remote, product, vs, skip)|
    ensures var ops := ResetOps(remote, product, vs, skip);
      var kept := Filter(vs[1..], KeptBy(skip));
      ops[2 * |kept|] == DeleteVariant(vs[0].id)
      && (ops[i].CreateVariant? && ops[j].DeleteVariant? ==> j == 2 * |kept|)
  {
    ResetLayout(remote, product, vs, skip);
  }

  lemma {:induction false} LevelSetsAreSets(item: int, levels: seq<Level>)
    ensures forall k :: 0 <= k < |LevelSets(item, levels)| ==> LevelSets(item, levels)[k].SetLevel?
  {
    if levels != [] {
      LevelSetsAreSets(item, levels[..|levels| - 1]);
    }
  }

  lemma {:induction false} RestoreNoVariantOps(m: Dict<string, int>, backup: Dict<string, seq<Level>>)
    ensures forall k :: 0 <= k < |RestoreOps(m, backup)| ==> RestoreOps(m, backup)[k].SetLevel?
  {
    if m != [] {
      RestoreNoVariantOps(m[..|m| - 1], backup);
      LevelSetsAreSets(m[|m| - 1].1, Get(backup, m[|m| - 1].0).GetOr([]));
    }
  }

  lemma {:induction false} ExtraDeletesAreLevelDeletes(item: int, current: seq<Level>, orig: set<Option<int>>)
    ensures forall k :: 0 <= k < |ExtraDeletes(item, current, orig)| ==> ExtraDeletes(item, current, orig)[k].DeleteLevel?
  {
    if current != [] {
      ExtraDeletesAreLevelDeletes(item, current[..|current| - 1], orig);
    }
  }

  lemma {:induction false} CleanupNoVariantOps(remote: Remote, m: Dict<string, int>, backup: Dict<string, seq<Level>>)
    ensures forall k :: 0 <= k < |CleanupOps(remote, m, backup)| ==> CleanupOps(remote, m, backup)[k].DeleteLevel?
  {
    if m != [] {
      CleanupNoVariantOps(remote, m[..|m| - 1], backup);
      var item := m[|m| - 1].1;
      var levels := Get(backup, m[|m| - 1].0).GetOr([]);
      if levels != [] && remote.levelsAfter(item).Some? {
        ExtraDeletesAreLevelDeletes(item, TakeWhile(remote.levelsAfter(item).value, HasLocation), Locations(levels));
      }
    }
  }

  /** A variant is mapped only when its recreation did not raise and gave a
      truthy inventory id, which is the one mapped (the latest, for a
      repeated id). */
  lemma {:induction false} MappingMeans(remote: Remote, ks: seq<VariantData>, g: string)
    ensures Get(Mapping(remote, ks), g).Some? ==>
      exists k :: 0 <= k < |ks| && ks[k].id == g && CreatedItem(remote, k, ks[k]) == Get(Mapping(remote, ks), g)
  {
    if ks != [] {
      var last := |ks| - 1;
      MappingMeans(remote, ks[..last], g);
      if Get(Mapping(remote, ks), g).Some? {
        if ks[last].id == g && CreatedItem(remote, last, ks[last]).Some? {
          assert CreatedItem(remote, last, ks[last]) == Get(Mapping(remote, ks), g);
        } else {
          assert Get(Mapping(remote, ks), g) == Get(Mapping(remote, ks[..last]), g);
          var k :| 0 <= k < last && ks[..last][k].id == g
                   && CreatedItem(remote, k, ks[..last][k]) == Get(Mapping(remote, ks[..last]), g);
          assert ks[k] == ks[..last][k];
        }
      }
    }
  }

  lemma {:induction false} LevelSetsMembers(item: int, levels: seq<Level>, loc: int, a: Option<int>)
    ensures SetLevel(item, loc, a) in LevelSets(item, levels)
        <==> exists l :: l in levels && l.location == Val(loc) && loc != 0 && AvailableArg(l.available) == a
  {
    if levels != [] {
      LevelSetsMembers(item, levels[..|levels| - 1], loc, a);
      assert levels == levels[..|levels| - 1] + [levels[|levels| - 1]];
    }
  }

  /** Step 7 sets a level exactly for a mapped variant's backed-up level
      with a truthy location, to that level's `available` as
      `level.get("available", 0)` reads it. */
  lemma {:induction false} RestoreMeans(m: Dict<string, int>, backup: Dict<string, seq<Level>>, item: int, loc: int,
                                        a: Option<int>)
    ensures SetLevel(item, loc, a) in RestoreOps(m, backup)
        <==> exists e, l :: e in m && e.1 == item && l in Get(backup, e.0).GetOr([])
                            && l.location == Val(loc) && loc != 0 && AvailableArg(l.available) == a
  {
    if m != [] {
      var e := m[|m| - 1];
      RestoreMeans(m[..|m| - 1], backup, item, loc, a);
      LevelSetsMembers(e.1, Get(backup, e.0).GetOr([]), loc, a);
      assert m == m[..|m| - 1] + [e];
      LevelSetsItem(e.1, Get(backup, e.0).GetOr([]), item, loc, a);
    }
  }

  lemma {:induction false} LevelSetsItem(item': int, levels: seq<Level>, item: int, loc: int, a: Option<int>)
    ensures SetLevel(item, loc, a) in LevelSets(item', levels) ==> item == item'
  {
    if levels != [] {
      LevelSetsItem(item', levels[..|levels| - 1], item, loc, a);
    }
  }

  lemma {:induction false} ExtraDeletesMembers(item': int, current: seq<Level>, orig: set<Option<int>>, item: int, loc: Option<int>)
    ensures DeleteLevel(item, loc) in ExtraDeletes(item', current, orig)
        <==> item == item' && loc !in orig && exists l :: l in current && FieldValue(l.location) == loc
  {
    if current != [] {
      ExtraDeletesMembers(item', current[..|current| - 1], orig, item, loc);
      assert current == current[..|current| - 1] + [current[|current| - 1]];
    }
  }

  /** Over the mapped variants `m` it gets through, step 8 deletes a level
      exactly when it is a current level of a mapped variant with a backup,
      read before the first current level without `location_id`, whose
      location is not among the backed-up ones. */
  lemma {:induction false} CleanupMeans(remote: Remote, m: Dict<string, int>, backup: Dict<string, seq<Level>>,
                                        item: int, loc: Option<int>)
    ensures DeleteLevel(item, loc) in CleanupOps(remote, m, backup)
        <==> exists e, l :: e in m && e.1 == item && Get(backup, e.0).GetOr([]) != []
                            && remote.levelsAfter(item).Some?
                            && l in TakeWhile(remote.levelsAfter(item).value, HasLocation)
                            && FieldValue(l.location) == loc && loc !in Locations(Get(backup, e.0).GetOr([]))
  {
    CleanupHits(remote, m, backup, item, loc);
    if exists e :: e in m && CleanupHit(remote, backup, e, item, loc) {
      var e :| e in m && CleanupHit(remote, backup, e, item, loc);
      var l :| l in TakeWhile(remote.levelsAfter(item).value, HasLocation) && FieldValue(l.location) == loc;
      assert e in m && l in TakeWhile(remote.levelsAfter(item).value, HasLocation);
    }
  }

  /** Step 8 gets through the mapped variants up to the first whose backup
      holds a level without `location_id`, and raises exactly when there
      is one. */
  lemma CleanedUpMeans(m: Dict<string, int>, backup: Dict<string, seq<Level>>)
    ensures CleanedUp(m, backup) == m <==> !CleanupRaises(m, backup)
    ensures forall e :: e in CleanedUp(m, backup) ==> Keyed(Get(backup, e.0).GetOr([]))
  {
  }

  /** Mapped variant `e` has a backup and its item `item` now has a level
      at `loc` outside it. */
  ghost predicate CleanupHit(remote: Remote, backup: Dict<string, seq<Level>>, e: (string, int), item: int, loc: Option<int>) {
    var levels := Get(backup, e.0).GetOr([]);
    levels != [] && item == e.1 && remote.levelsAfter(item).Some? && loc !in Locations(levels)
    && exists l :: l in TakeWhile(remote.levelsAfter(item).value, HasLocation) && FieldValue(l.location) == loc
  }

  lemma {:induction false} CleanupHits(remote: Remote, m: Dict<string, int>, backup: Dict<string, seq<Level>>,
                                       item: int, loc: Option<int>)
    ensures DeleteLevel(item, loc) in CleanupOps(remote, m, backup)
        <==> exists e :: e in m && CleanupHit(remote, backup, e, item, loc)
  {
    if m != [] {
      var m', e := m[..|m| - 1], m[|m| - 1];
      var levels := Get(backup, e.0).GetOr([]);
      var d := DeleteLevel(item, loc);
      CleanupHits(remote, m', backup, item, loc);
      assert d in CleanupFor(remote, e.1, levels) <==> CleanupHit(remote, backup, e, item, loc) by {
        CleanupForMeans(remote, e.1, levels, item, loc);
      }
      assert d in CleanupOps(remote, m, backup) <==> d in CleanupOps(remote, m', backup) || d in CleanupFor(remote, e.1, levels) by {
        assert CleanupOps(remote, m, backup) == CleanupOps(remote, m', backup) + CleanupFor(remote, e.1, levels);
      }
      CleanupHitsSplit(remote, m, backup, item, loc);
    }
  }

  /** A hit among the mapped variants is a hit among all but the last, or
      the last. */
  lemma CleanupHitsSplit(remote: Remote, m: Dict<string, int>, backup: Dict<string, seq<Level>>, item: int, loc: Option<int>)
    requires m != []
    ensures (exists x :: x in m && CleanupHit(remote, backup, x, item, loc))
        <==> (exists x :: x in m[..|m| - 1] && CleanupHit(remote, backup, x, item, loc))
             || CleanupHit(remote, backup, m[|m| - 1], item, loc)
  {
    var m', e := m[..|m| - 1], m[|m| - 1];
    assert m == m' + [e];
    if exists x :: x in m && CleanupHit(remote, backup, x, item, loc) {
      var x :| x in m && CleanupHit(remote, backup, x, item, loc);
      assert x in m' || x == e;
    }
    if exists x :: x in m' && CleanupHit(remote, backup, x, item, loc) {
      var x :| x in m' && CleanupHit(remote, backup, x, item, loc);
      assert x in m;
    }
  }

  /** Step 8 for one mapped variant deletes a level exactly when the
      variant has a backup and the level is a current one outside it. */
  lemma CleanupForMeans(remote: Remote, item': int, levels: seq<Level>, item: int, loc: Option<int>)
    ensures DeleteLevel(item, loc) in CleanupFor(remote, item', levels)
        <==> levels != [] && item == item' && remote.levelsAfter(item).Some? && loc !in Locations(levels)
             && exists l :: l in TakeWhile(remote.levelsAfter(item).value, HasLocation) && FieldValue(l.location) == loc
  {
    if levels != [] && remote.levelsAfter(item').Some? {
      ExtraDeletesMembers(item', TakeWhile(remote.levelsAfter(item').value, HasLocation), Locations(levels), item, loc);
    }
  }
}
