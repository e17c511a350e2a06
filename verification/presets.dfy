/** `useFilterPresets`: the list of saved filter presets and the three
    operations that replace it. Reading and writing the list in
    `localStorage` is not part of this model: the store starts from the list
    it is given. */
module Presets {
  import opened Wrappers
  import opened Strings
  import opened Types
  import opened Folds

  datatype FilterPreset = FilterPreset(id: string, name: string, filters: FilterSettings, createdAt: string)

  /** `Partial<FilterPreset>`: the fields present in an update. */
  datatype PresetUpdate = PresetUpdate(
    id: Option<string>,
    name: Option<string>,
    filters: Option<FilterSettings>,
    createdAt: Option<string>)

  const NoChange := PresetUpdate(None, None, None, None)

  /** `{ ...p, ...updates }`: each field present in the update replaces the
      preset's. */
  function Overlay(p: FilterPreset, u: PresetUpdate): FilterPreset {
    FilterPreset(u.id.GetOr(p.id), u.name.GetOr(p.name), u.filters.GetOr(p.filters), u.createdAt.GetOr(p.createdAt))
  }

  function OtherId(id: string): FilterPreset -> bool {
    (p: FilterPreset) => p.id != id
  }

  /** `prev.filter(p => p.id !== id)`. */
  function Deleted(presets: seq<FilterPreset>, id: string): seq<FilterPreset> {
    Filter(presets, OtherId(id))
  }

  /** `prev.map(p => p.id === id ? { ...p, ...updates } : p)`. */
  function Updated(presets: seq<FilterPreset>, id: string, u: PresetUpdate): seq<FilterPreset> {
    seq(|presets|, i requires 0 <= i < |presets| => if presets[i].id == id then Overlay(presets[i], u) else presets[i])
  }

  predicate HasId(presets: seq<FilterPreset>, id: string) {
    exists i :: 0 <= i < |presets| && presets[i].id == id
  }

  /** An update overlays exactly the fields it holds: an empty one changes
      nothing, and applying one twice is applying it once. */
  lemma OverlaySpec(p: FilterPreset, u: PresetUpdate)
    ensures Overlay(p, NoChange) == p
    ensures Overlay(Overlay(p, u), u) == Overlay(p, u)
    ensures u.name.Some? ==> Overlay(p, u).name == u.name.value
    ensures u.name.None? ==> Overlay(p, u).name == p.name
    ensures u.filters.Some? ==> Overlay(p, u).filters == u.filters.value
    ensures u.filters.None? ==> Overlay(p, u).filters == p.filters
    ensures u.id.Some? ==> Overlay(p, u).id == u.id.value
    ensures u.id.None? ==> Overlay(p, u).id == p.id
    ensures u.createdAt.Some? ==> Overlay(p, u).createdAt == u.createdAt.value
    ensures u.createdAt.None? ==> Overlay(p, u).createdAt == p.createdAt
  {
  }

  /** `deletePreset` removes exactly the presets with that id, keeps the
      others in their order, and is a no-op for an absent id. */
  lemma DeletedSpec(presets: seq<FilterPreset>, id: string)
    ensures forall p :: p in Deleted(presets, id) <==> p in presets && p.id != id
    ensures !HasId(Deleted(presets, id), id)
    ensures |Deleted(presets, id)| <= |presets|
    ensures !HasId(presets, id) ==> Deleted(presets, id) == presets
    ensures Deleted(Deleted(presets, id), id) == Deleted(presets, id)
  {
    FilterMembers(presets, OtherId(id));
    FilterAll(presets, OtherId(id));
    FilterIdempotent(presets, OtherId(id));
    var d := Deleted(presets, id);
    forall i | 0 <= i < |d|
      ensures d[i].id != id
    {
      assert d[i] in d;
    }
  }

  /** Deletion works piece by piece, so the order of the kept presets is the
      order they had. */
  lemma DeletedConcat(a: seq<FilterPreset>, b: seq<FilterPreset>, id: string)
    ensures Deleted(a + b, id) == Deleted(a, id) + Deleted(b, id)
  {
    FilterConcat(a, b, OtherId(id));
  }

  /** `updatePreset` keeps the length and the position of every preset,
      overlays the update on the presets with that id and leaves the others
      alone; for an absent id it is a no-op. */
  lemma UpdatedSpec(presets: seq<FilterPreset>, id: string, u: PresetUpdate)
    ensures |Updated(presets, id, u)| == |presets|
    ensures forall i :: 0 <= i < |presets| && presets[i].id != id ==> Updated(presets, id, u)[i] == presets[i]
    ensures forall i :: 0 <= i < |presets| && presets[i].id == id ==> Updated(presets, id, u)[i] == Overlay(presets[i], u)
    ensures !HasId(presets, id) ==> Updated(presets, id, u) == presets
    ensures Updated(presets, id, NoChange) == presets
  {
  }

  /** Deleting a freshly saved preset by its id gives back the list from
      before the save. */
  lemma SaveThenDelete(presets: seq<FilterPreset>, preset: FilterPreset)
    requires !HasId(presets, preset.id)
    ensures Deleted(presets + [preset], preset.id) == presets
  {
    DeletedConcat(presets, [preset], preset.id);
    DeletedSpec(presets, preset.id);
    assert Deleted([preset], preset.id) == [];
  }

  /** An update that keeps ids commutes with deleting an id. */
  lemma {:induction false} UpdateThenDelete(presets: seq<FilterPreset>, id: string, u: PresetUpdate, other: string)
    requires u.id.None?
    ensures Deleted(Updated(presets, id, u), other) == Updated(Deleted(presets, other), id, u)
    decreases |presets|
  {
    if presets != [] {
      var init, last := presets[..|presets| - 1], presets[|presets| - 1];
      UpdateThenDelete(init, id, u, other);
      assert Updated(presets, id, u) == Updated(init, id, u) + Updated([last], id, u);
      DeletedConcat(Updated(init, id, u), Updated([last], id, u), other);
      DeletedConcat(init, [last], other);
      assert presets == init + [last];
      UpdatedConcat(Deleted(init, other), Deleted([last], other), id, u);
    }
  }

  lemma UpdatedConcat(a: seq<FilterPreset>, b: seq<FilterPreset>, id: string, u: PresetUpdate)
    ensures Updated(a + b, id, u) == Updated(a, id, u) + Updated(b, id, u)
  {
  }

  /** The hook's `presets` state. */
  class PresetStore {
    var presets: seq<FilterPreset>

    /** The store starts from the stored list (or `[]` when there is none). */
    constructor(stored: seq<FilterPreset>)
      ensures presets == stored
    {
      presets := stored;
    }

    /** `savePreset`: the id is the clock reading `now` (`Date.now()`) as
        text and `createdAt` the ISO time; both are parameters here. */
    method SavePreset(name: string, filters: FilterSettings, now: nat, createdAt: string) returns (id: string)
      modifies this
      ensures id == NatText(now)
      ensures presets == old(presets) + [FilterPreset(id, name, filters, createdAt)]
    {
      var newPreset := FilterPreset(NatText(now), name, filters, createdAt);
      presets := presets + [newPreset];
      return newPreset.id;
    }

    /** `deletePreset`. */
    method DeletePreset(id: string)
      modifies this
      ensures presets == Deleted(old(presets), id)
    {
      presets := Deleted(presets, id);
    }

    /** `updatePreset`. */
    method UpdatePreset(id: string, updates: PresetUpdate)
      modifies this
      ensures presets == Updated(old(presets), id, updates)
    {
      presets := Updated(presets, id, updates);
    }
  }
}
