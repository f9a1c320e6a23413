/**
 * The batch update coalescer of URuntimeMeshComponent (the anonymous struct
 * held in BatchUpdateInfo): four sticky booleans and a growable table with one
 * ERMCBatchSectionUpdateType entry per section index.  An entry is held as
 * the set of update kinds its bits carry; UpdateTypes.KindsOfOr,
 * KindsOfAndNot and KindsOfClearThenSet show that the source's `|=` and
 * `&= ~` on the bits are exactly the union and difference used here.
 * The table operations are first given as functions on the table (MarkAdd,
 * MarkRemove, MarkUpdate), with the properties of the coalescing proved about
 * them; the class BatchUpdateInfo then performs them in place and is proved
 * to agree with them.
 */
module BatchUpdates {
  import opened UpdateTypes

  /** Largest int32: section indices and table lengths are int32 in the source. */
  const INT32_MAX: int := 0x7fff_ffff

  /** One table entry: the kinds whose bits the section's flags carry. */
  type Entry = set<UpdateKind>

  /** `n` zero entries, as TArray::AddZeroed appends them. */
  function Zeroed(n: nat): (r: seq<Entry>)
    ensures |r| == n
    ensures forall k :: 0 <= k < n ==> r[k] == {}
  {
    if n == 0 then [] else Zeroed(n - 1) + [{}]
  }

  /** What the table records for a section; an index past the end reads as None. */
  function Slot(t: seq<Entry>, index: nat): Entry
  {
    if index < |t| then t[index] else {}
  }

  /** The length a table has once it is long enough for `index`. */
  function Extent(t: seq<Entry>, index: nat): nat
  {
    if index < |t| then |t| else index + 1
  }

  /** The table grown with zero entries up to `index + 1` entries, if it is shorter. */
  function Pad(t: seq<Entry>, index: nat): (r: seq<Entry>)
    ensures |r| == Extent(t, index)
    ensures forall k :: 0 <= k < |r| ==> r[k] == Slot(t, k)
  {
    var upperBound := index + 1;
    if upperBound > |t| then t + Zeroed(upperBound - |t|) else t
  }

  /** The table with slot `index` (grown into range first) replaced by `v`. */
  function MarkSlot(t: seq<Entry>, index: nat, v: Entry): (r: seq<Entry>)
    ensures |r| == Extent(t, index)
    ensures r[index] == v
    ensures forall k :: 0 <= k < |r| && k != index ==> r[k] == Slot(t, k)
  {
    Pad(t, index)[index := v]
  }

  /** The two structural kinds. */
  const Structural: Entry := {Create, Destroy}

  /** AddSectionToAdd on the table: `&= ~Destroy`, then `|= Create`. */
  function MarkAdd(t: seq<Entry>, index: nat): (r: seq<Entry>)
    ensures |r| == Extent(t, index)
    ensures Create in r[index] && Destroy !in r[index]
    ensures r[index] - Structural == Slot(t, index) - Structural
    ensures forall k :: 0 <= k < |r| && k != index ==> r[k] == Slot(t, k)
  {
    MarkSlot(t, index, Slot(t, index) - {Destroy} + {Create})
  }

  /** AddSectionToRemove on the table: `&= ~Create`, then `|= Destroy`. */
  function MarkRemove(t: seq<Entry>, index: nat): (r: seq<Entry>)
    ensures |r| == Extent(t, index)
    ensures Destroy in r[index] && Create !in r[index]
    ensures r[index] - Structural == Slot(t, index) - Structural
    ensures forall k :: 0 <= k < |r| && k != index ==> r[k] == Slot(t, k)
  {
    MarkSlot(t, index, Slot(t, index) - {Create} + {Destroy})
  }

  /** AddUpdateForSection on the table: `|= updateType`. */
  function MarkUpdate(t: seq<Entry>, index: nat, updateType: Entry): (r: seq<Entry>)
    ensures |r| == Extent(t, index)
    ensures Slot(t, index) <= r[index] && updateType <= r[index]
    ensures forall u :: u in r[index] ==> u in Slot(t, index) || u in updateType
    ensures forall k :: 0 <= k < |r| && k != index ==> r[k] == Slot(t, k)
  {
    MarkSlot(t, index, Slot(t, index) + updateType)
  }

  // ---------------------------------------------------------------------------
  // Create and Destroy exclude each other

  /** No slot of the table holds both Create and Destroy. */
  ghost predicate Exclusive(t: seq<Entry>)
  {
    forall k :: 0 <= k < |t| ==> !(Create in t[k] && Destroy in t[k])
  }

  /** An update type that carries neither Create nor Destroy. */
  predicate Plain(updateType: Entry)
  {
    Create !in updateType && Destroy !in updateType
  }

  lemma AddKeepsExclusive(t: seq<Entry>, index: nat)
    requires Exclusive(t)
    ensures Exclusive(MarkAdd(t, index))
  {
  }

  lemma RemoveKeepsExclusive(t: seq<Entry>, index: nat)
    requires Exclusive(t)
    ensures Exclusive(MarkRemove(t, index))
  {
  }

  /** An update that carries neither structural kind keeps the two apart. */
  lemma UpdateKeepsExclusive(t: seq<Entry>, index: nat, updateType: Entry)
    requires Exclusive(t) && Plain(updateType)
    ensures Exclusive(MarkUpdate(t, index, updateType))
  {
  }

  /**
   * AddUpdateForSection itself does not keep the two apart: OR-ing Create
   * into a slot marked for removal leaves both set.
   */
  lemma UpdateCanBreakExclusive()
    ensures Exclusive(MarkRemove([], 0))
    ensures !Exclusive(MarkUpdate(MarkRemove([], 0), 0, {Create}))
  {
    var clash := MarkUpdate(MarkRemove([], 0), 0, {Create});
    assert Create in clash[0] && Destroy in clash[0];
  }

  // ---------------------------------------------------------------------------
  // Last of add/remove wins; repeated calls change nothing

  /** What a slot reads after MarkSlot. */
  lemma SlotOfMarkSlot(t: seq<Entry>, index: nat, v: Entry, k: nat)
    ensures Slot(MarkSlot(t, index, v), k) == if k == index then v else Slot(t, k)
  {
  }

  /** Writing a slot twice keeps the second value. */
  lemma MarkSlotTwice(t: seq<Entry>, index: nat, v: Entry, w: Entry)
    ensures MarkSlot(MarkSlot(t, index, v), index, w) == MarkSlot(t, index, w)
  {
    var a, b := MarkSlot(MarkSlot(t, index, v), index, w), MarkSlot(t, index, w);
    assert forall k :: 0 <= k < |a| ==> a[k] == b[k];
  }

  /** Writes to two different slots can be done in either order. */
  lemma MarkSlotCommute(t: seq<Entry>, i: nat, v: Entry, j: nat, w: Entry)
    requires i != j
    ensures MarkSlot(MarkSlot(t, i, v), j, w) == MarkSlot(MarkSlot(t, j, w), i, v)
  {
    var a, b := MarkSlot(MarkSlot(t, i, v), j, w), MarkSlot(MarkSlot(t, j, w), i, v);
    forall k | 0 <= k < |a|
      ensures a[k] == b[k]
    {
      SlotOfMarkSlot(t, i, v, k);
      SlotOfMarkSlot(t, j, w, k);
    }
  }

  /** Marking a section for removal after marking it for creation leaves only the removal. */
  lemma RemoveAfterAddWins(t: seq<Entry>, index: nat)
    ensures MarkRemove(MarkAdd(t, index), index) == MarkRemove(t, index)
  {
    var x := Slot(t, index);
    var added := x - {Destroy} + {Create};
    SlotOfMarkSlot(t, index, added, index);
    MarkSlotTwice(t, index, added, added - {Create} + {Destroy});
    assert added - {Create} + {Destroy} == x - {Create} + {Destroy};
  }

  /** Marking a section for creation after marking it for removal leaves only the creation. */
  lemma AddAfterRemoveWins(t: seq<Entry>, index: nat)
    ensures MarkAdd(MarkRemove(t, index), index) == MarkAdd(t, index)
  {
    var x := Slot(t, index);
    var removed := x - {Create} + {Destroy};
    SlotOfMarkSlot(t, index, removed, index);
    MarkSlotTwice(t, index, removed, removed - {Destroy} + {Create});
    assert removed - {Destroy} + {Create} == x - {Destroy} + {Create};
  }

  lemma AddIdempotent(t: seq<Entry>, index: nat)
    ensures MarkAdd(MarkAdd(t, index), index) == MarkAdd(t, index)
  {
    var x := Slot(t, index);
    var added := x - {Destroy} + {Create};
    SlotOfMarkSlot(t, index, added, index);
    MarkSlotTwice(t, index, added, added - {Destroy} + {Create});
    assert added - {Destroy} + {Create} == added;
  }

  lemma RemoveIdempotent(t: seq<Entry>, index: nat)
    ensures MarkRemove(MarkRemove(t, index), index) == MarkRemove(t, index)
  {
    var x := Slot(t, index);
    var removed := x - {Create} + {Destroy};
    SlotOfMarkSlot(t, index, removed, index);
    MarkSlotTwice(t, index, removed, removed - {Create} + {Destroy});
    assert removed - {Create} + {Destroy} == removed;
  }

  /** Recording the same update twice is the same as recording it once. */
  lemma UpdateIdempotent(t: seq<Entry>, index: nat, updateType: Entry)
    ensures MarkUpdate(MarkUpdate(t, index, updateType), index, updateType) == MarkUpdate(t, index, updateType)
  {
    var updated := Slot(t, index) + updateType;
    SlotOfMarkSlot(t, index, updated, index);
    MarkSlotTwice(t, index, updated, updated + updateType);
    assert updated + updateType == updated;
  }

  /** The order in which two updates are recorded does not matter. */
  lemma UpdatesCommute(t: seq<Entry>, i: nat, f: Entry, j: nat, g: Entry)
    ensures MarkUpdate(MarkUpdate(t, i, f), j, g) == MarkUpdate(MarkUpdate(t, j, g), i, f)
  {
    var x, y := Slot(t, i), Slot(t, j);
    SlotOfMarkSlot(t, i, x + f, j);
    SlotOfMarkSlot(t, j, y + g, i);
    if i == j {
      MarkSlotTwice(t, i, x + f, x + f + g);
      MarkSlotTwice(t, i, x + g, x + g + f);
      assert x + f + g == x + g + f;
    } else {
      MarkSlotCommute(t, i, x + f, j, y + g);
    }
  }

  // ---------------------------------------------------------------------------
  // Whole batches: a sequence of calls applied to the table

  /** One call on the coalescer's table: AddSectionToAdd, AddSectionToRemove or AddUpdateForSection. */
  datatype BatchCall =
    | CallAdd(index: nat)
    | CallRemove(index: nat)
    | CallUpdate(index: nat, updateType: Entry)

  function Apply(t: seq<Entry>, c: BatchCall): seq<Entry>
  {
    match c
    case CallAdd(i) => MarkAdd(t, i)
    case CallRemove(i) => MarkRemove(t, i)
    case CallUpdate(i, f) => MarkUpdate(t, i, f)
  }

  /** The table after the calls, in order. */
  function ApplyAll(t: seq<Entry>, calls: seq<BatchCall>): seq<Entry>
  {
    if calls == [] then t else Apply(ApplyAll(t, calls[..|calls| - 1]), calls[|calls| - 1])
  }

  /** Whether the last structural call for `index` added it, removed it, or there was none. */
  datatype LastMark = Added | Removed | Unmarked

  function LastMarkOf(calls: seq<BatchCall>, index: nat): LastMark
  {
    if calls == [] then Unmarked
    else
      var c := calls[|calls| - 1];
      if c.CallAdd? && c.index == index then Added
      else if c.CallRemove? && c.index == index then Removed
      else LastMarkOf(calls[..|calls| - 1], index)
  }

  /** No AddUpdateForSection among the calls carries Create or Destroy. */
  predicate PlainUpdates(calls: seq<BatchCall>)
  {
    forall k :: 0 <= k < |calls| && calls[k].CallUpdate? ==> Plain(calls[k].updateType)
  }

  /**
   * Whatever the interleaving, the slot of `index` holds Create alone if the
   * last structural call for it was an add, Destroy alone if it was a remove,
   * and its original structural kinds if there was none, provided the other
   * updates carry neither kind.
   */
  lemma {:induction false} LastMarkWins(t: seq<Entry>, calls: seq<BatchCall>, index: nat)
    requires PlainUpdates(calls)
    ensures var s := Slot(ApplyAll(t, calls), index);
      match LastMarkOf(calls, index)
      case Added => s * Structural == {Create}
      case Removed => s * Structural == {Destroy}
      case Unmarked => s * Structural == Slot(t, index) * Structural
  {
    if calls != [] {
      var init, c := calls[..|calls| - 1], calls[|calls| - 1];
      PlainUpdatesPrefix(calls);
      LastMarkWins(t, init, index);
      assert c.CallUpdate? ==> Plain(c.updateType);
      MarkStep(ApplyAll(t, init), c, index);
    }
  }

  /** The prefix of a batch of plain updates is one too. */
  lemma PlainUpdatesPrefix(calls: seq<BatchCall>)
    requires PlainUpdates(calls) && calls != []
    ensures PlainUpdates(calls[..|calls| - 1])
  {
    var init := calls[..|calls| - 1];
    forall k | 0 <= k < |init| && init[k].CallUpdate?
      ensures Plain(init[k].updateType)
    {
      assert init[k] == calls[k];
    }
  }

  /** What one call does to the structural kinds of the slot of `index`. */
  lemma MarkStep(t: seq<Entry>, c: BatchCall, index: nat)
    requires c.CallUpdate? ==> Plain(c.updateType)
    ensures var s, s0 := Slot(Apply(t, c), index), Slot(t, index);
      if c.CallAdd? && c.index == index then s * Structural == {Create}
      else if c.CallRemove? && c.index == index then s * Structural == {Destroy}
      else s * Structural == s0 * Structural
  {
    var s, s0 := Slot(Apply(t, c), index), Slot(t, index);
    match c
    case CallAdd(i) =>
      SlotOfMarkSlot(t, i, Slot(t, i) - {Destroy} + {Create}, index);
    case CallRemove(i) =>
      SlotOfMarkSlot(t, i, Slot(t, i) - {Create} + {Destroy}, index);
    case CallUpdate(i, f) =>
      SlotOfMarkSlot(t, i, Slot(t, i) + f, index);
  }

  /** From any table without a clash, plain-update batches never produce one. */
  lemma {:induction false} ExclusiveAfterCalls(t: seq<Entry>, calls: seq<BatchCall>)
    requires Exclusive(t) && PlainUpdates(calls)
    ensures Exclusive(ApplyAll(t, calls))
  {
    if calls != [] {
      var init, c := calls[..|calls| - 1], calls[|calls| - 1];
      PlainUpdatesPrefix(calls);
      ExclusiveAfterCalls(t, init);
      var before := ApplyAll(t, init);
      match c
      case CallAdd(i) => AddKeepsExclusive(before, i);
      case CallRemove(i) => RemoveKeepsExclusive(before, i);
      case CallUpdate(i, f) =>
        assert Plain(calls[|calls| - 1].updateType);
        UpdateKeepsExclusive(before, i, f);
    }
  }

  /**
   * The table never shrinks, and no non-structural update recorded during a
   * batch is lost by later calls.
   */
  lemma {:induction false} UpdatesAreKept(t: seq<Entry>, calls: seq<BatchCall>, k: nat)
    requires k < |calls| && calls[k].CallUpdate?
    ensures |ApplyAll(t, calls)| >= |t|
    ensures calls[k].updateType - Structural <= Slot(ApplyAll(t, calls), calls[k].index)
  {
    var init, c := calls[..|calls| - 1], calls[|calls| - 1];
    if k == |calls| - 1 {
      assert c == calls[k];
      UpdatesGrow(t, init);
    } else {
      assert init[k] == calls[k];
      UpdatesAreKept(t, init, k);
      SlotsAreKept(ApplyAll(t, init), c, calls[k].index);
    }
  }

  /** One call never drops a non-structural kind from any slot. */
  lemma SlotsAreKept(t: seq<Entry>, c: BatchCall, index: nat)
    ensures |Apply(t, c)| >= |t|
    ensures Slot(t, index) - Structural <= Slot(Apply(t, c), index)
  {
    match c
    case CallAdd(i) =>
      SlotOfMarkSlot(t, i, Slot(t, i) - {Destroy} + {Create}, index);
    case CallRemove(i) =>
      SlotOfMarkSlot(t, i, Slot(t, i) - {Create} + {Destroy}, index);
    case CallUpdate(i, f) =>
      SlotOfMarkSlot(t, i, Slot(t, i) + f, index);
  }

  /** The table never shrinks. */
  lemma {:induction false} UpdatesGrow(t: seq<Entry>, calls: seq<BatchCall>)
    ensures |ApplyAll(t, calls)| >= |t|
  {
    if calls != [] {
      UpdatesGrow(t, calls[..|calls| - 1]);
    }
  }

  // ---------------------------------------------------------------------------
  // The coalescer itself

  class BatchUpdateInfo {
    var isPending: bool
    var requiresSceneProxyReCreate: bool
    var requiresBoundsUpdate: bool
    var requiresCollisionUpdate: bool
    var sectionUpdates: seq<Entry>

    /** The table fits an int32-sized TArray. */
    ghost predicate Valid()
      reads this
    {
      |sectionUpdates| <= INT32_MAX
    }

    /** Every flag false and the table empty: the state Reset leaves. */
    ghost predicate IsReset()
      reads this
    {
      !isPending && !requiresSceneProxyReCreate && !requiresBoundsUpdate && !requiresCollisionUpdate
      && sectionUpdates == []
    }

    constructor ()
      ensures Valid() && IsReset()
    {
      isPending, requiresSceneProxyReCreate, requiresBoundsUpdate, requiresCollisionUpdate := false, false, false, false;
      sectionUpdates := [];
    }

    method Reset()
      modifies this
      ensures Valid() && IsReset()
    {
      isPending := false;
      requiresSceneProxyReCreate := false;
      requiresBoundsUpdate := false;
      requiresCollisionUpdate := false;
      sectionUpdates := [];
    }

    /** Grows the table with zero entries so that `index` is in range. */
    method GrowFor(index: nat)
      requires Valid() && index < INT32_MAX
      modifies this`sectionUpdates
      ensures Valid()
      ensures sectionUpdates == Pad(old(sectionUpdates), index)
    {
      var upperBound := index + 1;
      if upperBound > |sectionUpdates| {
        sectionUpdates := sectionUpdates + Zeroed(upperBound - |sectionUpdates|);
      }
    }

    method AddSectionToAdd(index: nat)
      requires Valid() && index < INT32_MAX
      modifies this`sectionUpdates
      ensures Valid()
      ensures sectionUpdates == MarkAdd(old(sectionUpdates), index)
    {
      GrowFor(index);
      sectionUpdates := sectionUpdates[index := sectionUpdates[index] - {Destroy}];
      sectionUpdates := sectionUpdates[index := sectionUpdates[index] + {Create}];
    }

    method AddUpdateForSection(index: nat, updateType: Entry)
      requires Valid() && index < INT32_MAX
      modifies this`sectionUpdates
      ensures Valid()
      ensures sectionUpdates == MarkUpdate(old(sectionUpdates), index, updateType)
    {
      GrowFor(index);
      sectionUpdates := sectionUpdates[index := sectionUpdates[index] + updateType];
    }

    method AddSectionToRemove(index: nat)
      requires Valid() && index < INT32_MAX
      modifies this`sectionUpdates
      ensures Valid()
      ensures sectionUpdates == MarkRemove(old(sectionUpdates), index)
    {
      GrowFor(index);
      sectionUpdates := sectionUpdates[index := sectionUpdates[index] - {Create}];
      sectionUpdates := sectionUpdates[index := sectionUpdates[index] + {Destroy}];
    }
  }
}
