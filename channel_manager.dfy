/** `src/channel_manager.py`: restricting a product to the online-store
    publications. The publications are split into those to keep and the
    others, and the product is unpublished from every other one. */
module ChannelManager {
  import opened Wrappers
  import opened Strings
  import opened Seqs

  /** A publication as listed: its id (`None` when missing) and name. */
  datatype Publication = Publication(id: Option<string>, name: string)

  /** The names kept when the caller gives none. */
  const DefaultNames: seq<string> := ["Online Store", "Negozio online", "Point of Sale"]

  function NamesOrDefault(names: Option<seq<string>>): seq<string> {
    if names.Some? then names.value else DefaultNames
  }

  /** A publication is kept when one of the names, lowercased, occurs in
      its lowercased name. */
  predicate Kept(names: seq<string>, p: Publication) {
    exists i :: 0 <= i < |names| && IsSubstring(Lower(names[i]), Lower(p.name))
  }

  function KeptBy(names: seq<string>): Publication -> bool {
    (p: Publication) => Kept(names, p)
  }

  function DroppedBy(names: seq<string>): Publication -> bool {
    (p: Publication) => !Kept(names, p)
  }

  function Ids(ps: seq<Publication>): (r: seq<Option<string>>)
    ensures |r| == |ps|
    ensures forall i :: 0 <= i < |ps| ==> r[i] == ps[i].id
  {
    if ps == [] then [] else Ids(ps[..|ps| - 1]) + [ps[|ps| - 1].id]
  }

  lemma IdsFilterSnoc(pubs: seq<Publication>, i: nat, p: Publication -> bool)
    requires i < |pubs|
    ensures Ids(Filter(pubs[..i + 1], p)) == Ids(Filter(pubs[..i], p)) + (if p(pubs[i]) then [pubs[i].id] else [])
  {
    FilterSnoc(pubs, i, p);
    var fs := Filter(pubs[..i + 1], p);
    if p(pubs[i]) {
      assert fs[..|fs| - 1] == Filter(pubs[..i], p);
    } else {
      assert Ids(Filter(pubs[..i], p)) + [] == Ids(Filter(pubs[..i], p));
    }
  }

  /** The first loop: the ids to keep and the others, each in input order. */
  method Partition(pubs: seq<Publication>, names: seq<string>) returns (keep: seq<Option<string>>, other: seq<Option<string>>)
    ensures keep == Ids(Filter(pubs, KeptBy(names)))
    ensures other == Ids(Filter(pubs, DroppedBy(names)))
  {
    keep, other := [], [];
    for i := 0 to |pubs|
      invariant keep == Ids(Filter(pubs[..i], KeptBy(names)))
      invariant other == Ids(Filter(pubs[..i], DroppedBy(names)))
    {
      IdsFilterSnoc(pubs, i, KeptBy(names));
      IdsFilterSnoc(pubs, i, DroppedBy(names));
      if Kept(names, pubs[i]) {
        keep := keep + [pubs[i].id];
      } else {
        other := other + [pubs[i].id];
      }
    }
    assert pubs[..|pubs|] == pubs;
  }

  /** Every publication lands in exactly one of the two lists, the kept
      list when it matches a name, and the two lists together are as long
      as the listing. */
  lemma PartitionExact(pubs: seq<Publication>, names: seq<string>, p: Publication)
    requires p in pubs
    ensures p in Filter(pubs, KeptBy(names)) <==> Kept(names, p)
    ensures p in Filter(pubs, DroppedBy(names)) <==> !Kept(names, p)
    ensures |Filter(pubs, KeptBy(names))| + |Filter(pubs, DroppedBy(names))| == |pubs|
  {
    if Kept(names, p) {
      FilterKeeps(pubs, KeptBy(names), p);
    } else {
      FilterKeeps(pubs, DroppedBy(names), p);
    }
    FilterSplit(pubs, KeptBy(names), DroppedBy(names));
  }

  /** Every default name keeps a publication bearing it, whatever its case. */
  lemma DefaultKeepsItsNames(p: Publication, i: nat)
    requires i < |DefaultNames| && Lower(p.name) == Lower(DefaultNames[i])
    ensures Kept(NamesOrDefault(None), p)
  {
    var n := Lower(DefaultNames[i]);
    assert OccursAt(n, Lower(p.name), 0) by {
      assert Lower(p.name)[0..|n|] == Lower(p.name);
    }
  }

  /** The number of successful unpublications when the `k`-th attempt,
      for id `ids[k]`, succeeds exactly when `succeeds(k, ids[k])`. */
  function Successes(ids: seq<Option<string>>, succeeds: (nat, Option<string>) -> bool): (n: nat)
    ensures n <= |ids|
  {
    if ids == [] then 0
    else Successes(ids[..|ids| - 1], succeeds) + (if succeeds(|ids| - 1, ids[|ids| - 1]) then 1 else 0)
  }

  /** All attempts succeeding counts every id; none succeeding counts none. */
  lemma {:induction false} SuccessesExtremes(ids: seq<Option<string>>, succeeds: (nat, Option<string>) -> bool)
    ensures (forall k :: 0 <= k < |ids| ==> succeeds(k, ids[k])) ==> Successes(ids, succeeds) == |ids|
    ensures (forall k :: 0 <= k < |ids| ==> !succeeds(k, ids[k])) ==> Successes(ids, succeeds) == 0
  {
    if ids != [] {
      var init := ids[..|ids| - 1];
      assert forall k :: 0 <= k < |init| ==> init[k] == ids[k];
      SuccessesExtremes(init, succeeds);
    }
  }

  /** The second loop: one attempt per id, in order, a failure never
      stopping it. Returned: the ids attempted and the count of successes. */
  method UnpublishAll(other: seq<Option<string>>, succeeds: (nat, Option<string>) -> bool)
    returns (attempted: seq<Option<string>>, count: nat)
    ensures attempted == other
    ensures count == Successes(other, succeeds) && count <= |other|
  {
    attempted, count := [], 0;
    for i := 0 to |other|
      invariant attempted == other[..i] && count == Successes(other[..i], succeeds)
    {
      assert other[..i + 1][..i] == other[..i];
      attempted := attempted + [other[i]];
      if succeeds(i, other[i]) {
        count := count + 1;
      }
    }
    assert other[..|other|] == other;
  }

  /** `restrict_to_online_store_only`. `listing` is `None` when fetching the
      publications raises; `names` is `None` for the default list. Returned:
      the result, the ids unpublication was attempted for, in order, and the
      number of successes. */
  method RestrictToOnlineStoreOnly(listing: Option<seq<Publication>>, names: Option<seq<string>>,
                                   succeeds: (nat, Option<string>) -> bool)
    returns (ok: bool, attempted: seq<Option<string>>, count: nat)
    ensures ok <==> listing.Some? && exists p :: p in listing.value && Kept(NamesOrDefault(names), p)
    ensures !ok ==> attempted == [] && count == 0
    ensures ok ==> attempted == Ids(Filter(listing.value, DroppedBy(NamesOrDefault(names))))
    ensures ok ==> count == Successes(attempted, succeeds) && count <= |attempted|
  {
    if listing.None? {
      return false, [], 0;
    }
    var keepNames := NamesOrDefault(names);
    var keep, other := Partition(listing.value, keepNames);
    var kept := Filter(listing.value, KeptBy(keepNames));
    if keep == [] {
      forall p | p in listing.value
        ensures !Kept(keepNames, p)
      {
        PartitionExact(listing.value, keepNames, p);
      }
      return false, [], 0;
    }
    assert kept[0] in listing.value && KeptBy(keepNames)(kept[0]);
    attempted, count := UnpublishAll(other, succeeds);
    ok := true;
  }
}
