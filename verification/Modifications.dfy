/**
  The list of modifications that a space optimisation reports, and when that list is enough to
  rebuild the optimised spaces from the original ones.
 */
module Modifications {
  import opened Common
  import opened Decimals
  import opened GeneticSpec

  datatype Delta<T> = Delta(before: T, after: T, change: T)

  datatype Relabelling = Relabelling(before: string, after: string)

  datatype Changes = Changes(labels: map<string, Relabelling>, area: Option<Delta<real>>, occupancy: Option<Delta<int>>)

  datatype Kind = Resize | Reconfigure

  datatype Modification = Modification(spaceId: string, spaceName: string, changes: Changes, kind: Kind)

  const NO_CHANGES := Changes(map[], None, None)

  /** Only keys that both spaces have are compared. */
  function ChangesOf(o: SpaceData, p: SpaceData): Changes {
    Changes(
      map k | k in o.labels && k in p.labels && o.labels[k] != p.labels[k] :: Relabelling(o.labels[k], p.labels[k]),
      if o.area.Some? && p.area.Some? && o.area != p.area
      then Some(Delta(o.area.value, p.area.value, p.area.value - o.area.value)) else None,
      if o.occupancy.Some? && p.occupancy.Some? && o.occupancy != p.occupancy
      then Some(Delta(o.occupancy.value, p.occupancy.value, p.occupancy.value - o.occupancy.value)) else None)
  }

  function LabelOr(s: SpaceData, key: string, default: string): string {
    if key in s.labels then s.labels[key] else default
  }

  function SpaceId(s: SpaceData, i: nat): string { LabelOr(s, "id", "space_" + Decimal(i)) }

  function ModificationOf(o: SpaceData, p: SpaceData, i: nat): Modification {
    var changes := ChangesOf(o, p);
    Modification(SpaceId(o, i), LabelOr(o, "name", "Space " + Decimal(i)), changes, if changes.area.Some? then Resize else Reconfigure)
  }

  /** One entry for each changed space among the first `n` pairs. */
  function ModificationsUpTo(original: Individual, optimized: Individual, n: nat): seq<Modification>
    requires n <= |original| && n <= |optimized|
  {
    if n == 0 then []
    else
      ModificationsUpTo(original, optimized, n - 1)
      + if ChangesOf(original[n - 1], optimized[n - 1]) == NO_CHANGES then []
        else [ModificationOf(original[n - 1], optimized[n - 1], n - 1)]
  }

  // ---------- applying modifications ----------

  function Patch(o: SpaceData, changes: Changes): SpaceData {
    SpaceData(
      map k | k in o.labels :: if k in changes.labels then changes.labels[k].after else o.labels[k],
      if o.area.Some? && changes.area.Some? then Some(o.area.value + changes.area.value.change) else o.area,
      if o.occupancy.Some? && changes.occupancy.Some?
      then Some(o.occupancy.value + changes.occupancy.value.change) else o.occupancy)
  }

  function ChangesFor(modifications: seq<Modification>, id: string): Changes {
    if modifications == [] then NO_CHANGES
    else if modifications[0].spaceId == id then modifications[0].changes
    else ChangesFor(modifications[1..], id)
  }

  function Rebuild(original: Individual, modifications: seq<Modification>): Individual {
    seq(|original|, j requires 0 <= j < |original| => Patch(original[j], ChangesFor(modifications, SpaceId(original[j], j))))
  }

  predicate SameKeys(o: SpaceData, p: SpaceData) {
    o.labels.Keys == p.labels.Keys && o.area.Some? == p.area.Some? && o.occupancy.Some? == p.occupancy.Some?
  }

  lemma PatchRestoresIff(o: SpaceData, p: SpaceData)
    ensures Patch(o, ChangesOf(o, p)) == p <==> SameKeys(o, p)
  {
    var q := Patch(o, ChangesOf(o, p));
    assert q.labels.Keys == o.labels.Keys;
    if SameKeys(o, p) {
      assert forall k | k in o.labels :: q.labels[k] == p.labels[k];
      assert q.labels == p.labels;
    }
  }

  predicate DistinctIds(original: Individual) {
    forall i, j | 0 <= i < j < |original| :: SpaceId(original[i], i) != SpaceId(original[j], j)
  }

  lemma {:induction false} AppendedElsewhere(modifications: seq<Modification>, m: Modification, id: string)
    requires m.spaceId != id
    ensures ChangesFor(modifications + [m], id) == ChangesFor(modifications, id)
  {
    if modifications == [] {
      assert modifications + [m] == [m];
    } else {
      assert (modifications + [m])[1..] == modifications[1..] + [m];
      AppendedElsewhere(modifications[1..], m, id);
    }
  }

  lemma {:induction false} AppendedFirst(modifications: seq<Modification>, m: Modification)
    requires forall i | 0 <= i < |modifications| :: modifications[i].spaceId != m.spaceId
    ensures ChangesFor(modifications, m.spaceId) == NO_CHANGES
    ensures ChangesFor(modifications + [m], m.spaceId) == m.changes
  {
    if modifications == [] {
      assert modifications + [m] == [m];
    } else {
      assert (modifications + [m])[1..] == modifications[1..] + [m];
      AppendedFirst(modifications[1..], m);
    }
  }

  lemma {:induction false} ListedIds(original: Individual, optimized: Individual, n: nat, k: nat)
    requires n <= |original| && n <= |optimized| && k < |ModificationsUpTo(original, optimized, n)|
    ensures exists j: nat :: j < n && ModificationsUpTo(original, optimized, n)[k] == ModificationOf(original[j], optimized[j], j)
  {
    var before := ModificationsUpTo(original, optimized, n - 1);
    if k < |before| {
      ListedIds(original, optimized, n - 1, k);
    } else {
      assert ModificationsUpTo(original, optimized, n)[k] == ModificationOf(original[n - 1], optimized[n - 1], n - 1);
    }
  }

  lemma NotListed(original: Individual, optimized: Individual, n: nat, j: nat)
    requires n <= |original| && n <= |optimized| && n <= j < |original| && DistinctIds(original)
    ensures forall k | 0 <= k < |ModificationsUpTo(original, optimized, n)| ::
      ModificationsUpTo(original, optimized, n)[k].spaceId != SpaceId(original[j], j)
  {
    var listed, id := ModificationsUpTo(original, optimized, n), SpaceId(original[j], j);
    forall k: nat | k < |listed| ensures listed[k].spaceId != id {
      ListedIds(original, optimized, n, k);
      var i: nat :| i < n && listed[k] == ModificationOf(original[i], optimized[i], i);
      assert listed[k].spaceId == SpaceId(original[i], i);
    }
  }

  /** Under distinct ids, looking a space up finds exactly its own changes. */
  lemma {:induction false} LookupFindsOwnChanges(original: Individual, optimized: Individual, n: nat, j: nat)
    requires j < n <= |original| && n <= |optimized| && DistinctIds(original)
    ensures ChangesFor(ModificationsUpTo(original, optimized, n), SpaceId(original[j], j)) == ChangesOf(original[j], optimized[j])
  {
    var before, m := ModificationsUpTo(original, optimized, n - 1), ModificationOf(original[n - 1], optimized[n - 1], n - 1);
    if j == n - 1 {
      NotListed(original, optimized, n - 1, j);
      AppendedFirst(before, m);
      assert before + [] == before;
    } else {
      LookupFindsOwnChanges(original, optimized, n - 1, j);
      AppendedElsewhere(before, m, SpaceId(original[j], j));
      assert before + [] == before;
    }
  }

  /** The report rebuilds the optimised spaces from the original ones exactly if no space gained
      or lost a key. */
  lemma RebuildsIff(original: Individual, optimized: Individual)
    requires |original| == |optimized| && DistinctIds(original)
    ensures Rebuild(original, ModificationsUpTo(original, optimized, |original|)) == optimized
      <==> forall j | 0 <= j < |original| :: SameKeys(original[j], optimized[j])
  {
    var rebuilt := Rebuild(original, ModificationsUpTo(original, optimized, |original|));
    forall j | 0 <= j < |original| ensures rebuilt[j] == optimized[j] <==> SameKeys(original[j], optimized[j]) {
      LookupFindsOwnChanges(original, optimized, |original|, j);
      PatchRestoresIff(original[j], optimized[j]);
    }
    assert rebuilt == optimized <==> forall j | 0 <= j < |original| :: rebuilt[j] == optimized[j];
  }

  /** For a space bred from the original one: its labels are never listed, and it is listed
      exactly if a size it already had has changed. */
  lemma BredChanges(s: SpaceData, o: SpaceData)
    requires Kin(s, o)
    ensures ChangesOf(o, s).labels == map[]
    ensures ChangesOf(o, s) == NO_CHANGES <==>
      (o.area.Some? ==> s.area == o.area) && (o.occupancy.Some? ==> s.occupancy == o.occupancy)
    ensures SameKeys(o, s) <==> (s.area.Some? ==> o.area.Some?) && (s.occupancy.Some? ==> o.occupancy.Some?)
  {
  }
}
