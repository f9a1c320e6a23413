# Runtime mesh component: section bookkeeping

A Dafny model of the section bookkeeping of `URuntimeMeshComponent` in
UE4RuntimeMeshComponent. The operations modelled have their code inline in
`Source/Public/RuntimeMeshComponent.h`; the calls they make into code elsewhere are modelled by
their effect only. It covers three parts.

- **The batch update coalescer.** `BatchUpdateInfo` has four sticky booleans and a growable
  `SectionUpdates` table. The table holds one `ERMCBatchSectionUpdateType` flag set per section
  index. `AddSectionToAdd`, `AddSectionToRemove` and `AddUpdateForSection` pad the table with zero
  entries up to the index, then combine bits in the index's slot. `Reset` clears everything, and
  the component's `BeginBatchUpdates` raises `bIsPending`.
- **The sparse section store.** `MeshSections` is an array of shared section pointers in which
  null is a hole. `CreateOrResetSection` grows the array with null slots when the index is past
  the end, then puts a fresh section at the index.
- **The create/update dispatch.** The `CreateMeshSection` and `UpdateMeshSection` templates fill
  a section in place and then call `FinishCreateSectionInternal` or `FinishUpdateSectionInternal`
  with a fixed pattern of flags. The `CreateMeshSectionSimple` and `CreateMeshSectionDualUV`
  wrappers call the templates with one vertex type each.

There are four modules:

- `UpdateTypes` (`update_types.dfy`): the enumerators as `bv32` bits. `Kinds` reads a flag value
  as the set of kinds it carries. The lemmas show that `|` and `& ~` on the bits are union and
  difference on those sets, and that `Encode` is the inverse of `Kinds`.
- `BatchUpdates` (`batch_updates.dfy`): the table operations as functions on a table of kind
  sets, the properties of coalescing proved about them, and the class `BatchUpdateInfo`, whose
  methods change the table in place and are proved equal to those functions.
- `SectionStore` (`section_store.dfy`): `Option` and `Place`, the effect of `CreateOrResetSection`
  on the store, with its lemmas.
- `RuntimeMesh` (`runtime_mesh.dfy`): the class `Section` (an `FRuntimeMeshSection`, changed in
  place through its pointer) and the class `RuntimeMeshComponent`. The component holds
  `meshSections`, the `batchUpdateInfo` object, and `finishLog`. `finishLog` is the sequence of
  `Finish*Internal` calls the component has made, each with its flags.

Decisions worth knowing when reading the model:

- **Section indices are `nat` below `INT32_MAX`.** The source takes an `int32` and computes
  `SectionIndex + 1` in `int32`, so the methods require `index < INT32_MAX`. A negative index
  makes the source index a `TArray` out of range, which is outside its contract.
- **An update template requires a matching vertex format.** The template reinterprets the stored
  section with `StaticCastSharedPtr<FRuntimeMeshSection<VertexType>>`. This is only defined when
  the stored section has that vertex type, so the model requires the stored format to equal the
  caller's.
- **`UpdateVertexBuffer(Vertices, BoundingBox)` is an input.** Its result comes from
  `RuntimeMeshSection.h`, which is not part of this model. The box variants take that result as
  the parameter `boxNeedsBoundsUpdate` and pass it on unchanged.
- **Default arguments are explicit parameters.** The `UpdateFlags` argument is dropped (see
  below).

## Model

| member | source | states |
|---|---|---|
| UpdateTypes.BitsSingleAndDisjoint | Source/Public/RuntimeMeshComponent.h:11-18 | each enumerator other than None is a single non-zero bit, and two enumerators share a bit exactly when they are the same |
| UpdateTypes.HasIsBitTest | Source/Public/RuntimeMeshComponent.h:11-24 | testing a kind is and-ing with its enumerator and comparing with None |
| UpdateTypes.InKinds | Source/Public/RuntimeMeshComponent.h:11-24 | a kind is in the set a flag value stands for exactly when the value carries its bit |
| UpdateTypes.KindsOfEnumerators | Source/Public/RuntimeMeshComponent.h:13-18 | None stands for no kind, and each enumerator stands for its own kind alone |
| UpdateTypes.OrHas | Source/Public/RuntimeMeshComponent.h:24 | `a \| b` carries a kind exactly when `a` or `b` does |
| UpdateTypes.AndNotHas | Source/Public/RuntimeMeshComponent.h:24 | `a & ~b` carries a kind exactly when `a` does and `b` does not |
| UpdateTypes.KindsOfOr | Source/Public/RuntimeMeshComponent.h:24 | `\|=` on flag values is union of their kind sets |
| UpdateTypes.KindsOfAndNot | Source/Public/RuntimeMeshComponent.h:24 | `&= ~` on flag values is difference of their kind sets |
| UpdateTypes.KindsOfClearThenSet | Source/Public/RuntimeMeshComponent.h:468-469 | clearing one enumerator and then setting another removes the first kind and adds the second, so the slot carries the second kind and not the first |
| UpdateTypes.KindsOfEncode | Source/Public/RuntimeMeshComponent.h:11-18 | encoding a set of kinds as the or of their bits and reading it back gives the set |
| UpdateTypes.EncodeOfKinds | Source/Public/RuntimeMeshComponent.h:11-18 | a value using only enumerator bits is the encoding of the kinds it carries, so the set representation loses nothing |
| BatchUpdates.Zeroed | Source/Public/RuntimeMeshComponent.h:466 | `AddZeroed(n)` appends exactly `n` entries, all None |
| BatchUpdates.Pad | Source/Public/RuntimeMeshComponent.h:463-467 | padding makes the table `max(Num, index+1)` long; existing entries are kept and new ones are None |
| BatchUpdates.MarkSlot | Source/Public/RuntimeMeshComponent.h:463-469 | after padding, only the slot of `index` is written; every other slot reads as before, and a new padding slot reads None |
| BatchUpdates.MarkAdd | Source/Public/RuntimeMeshComponent.h:461-470 | the table is at least `index+1` long; slot `index` holds Create and not Destroy and keeps its non-structural kinds; other slots are unchanged |
| BatchUpdates.MarkRemove | Source/Public/RuntimeMeshComponent.h:482-491 | the table is at least `index+1` long; slot `index` holds Destroy and not Create and keeps its non-structural kinds; other slots are unchanged |
| BatchUpdates.MarkUpdate | Source/Public/RuntimeMeshComponent.h:472-480 | slot `index` becomes the least set containing both its old kinds and the update's; other slots are unchanged |
| BatchUpdates.AddKeepsExclusive | Source/Public/RuntimeMeshComponent.h:461-470 | AddSectionToAdd never leaves a slot holding both Create and Destroy |
| BatchUpdates.RemoveKeepsExclusive | Source/Public/RuntimeMeshComponent.h:482-491 | AddSectionToRemove never leaves a slot holding both Create and Destroy |
| BatchUpdates.UpdateKeepsExclusive | Source/Public/RuntimeMeshComponent.h:472-480 | an update carrying neither Create nor Destroy keeps the two apart |
| BatchUpdates.UpdateCanBreakExclusive | Source/Public/RuntimeMeshComponent.h:472-480 | an update that carries Create, or-ed into a slot marked for removal, leaves both set: the exclusivity holds only for plain updates |
| BatchUpdates.SlotOfMarkSlot | Source/Public/RuntimeMeshComponent.h:463-469 | after writing slot `index` with `v`, slot `index` reads `v` and every other slot reads as before |
| BatchUpdates.MarkSlotTwice | Source/Public/RuntimeMeshComponent.h:463-469 | writing a slot twice keeps the second value |
| BatchUpdates.MarkSlotCommute | Source/Public/RuntimeMeshComponent.h:463-469 | writes to two different slots give the same table in either order |
| BatchUpdates.RemoveAfterAddWins | Source/Public/RuntimeMeshComponent.h:461-491 | marking a section for removal after marking it for creation is the same as only marking it for removal |
| BatchUpdates.AddAfterRemoveWins | Source/Public/RuntimeMeshComponent.h:461-491 | marking a section for creation after marking it for removal is the same as only marking it for creation |
| BatchUpdates.AddIdempotent | Source/Public/RuntimeMeshComponent.h:461-470 | AddSectionToAdd twice on one index equals once |
| BatchUpdates.RemoveIdempotent | Source/Public/RuntimeMeshComponent.h:482-491 | AddSectionToRemove twice on one index equals once |
| BatchUpdates.UpdateIdempotent | Source/Public/RuntimeMeshComponent.h:472-480 | AddUpdateForSection twice with the same update type equals once |
| BatchUpdates.UpdatesCommute | Source/Public/RuntimeMeshComponent.h:472-480 | two AddUpdateForSection calls give the same table in either order, on the same or different indices |
| BatchUpdates.LastMarkWins | Source/Public/RuntimeMeshComponent.h:461-491 | after any sequence of calls with plain updates, a slot's structural kinds are {Create} if the last structural call for it was an add, {Destroy} if a remove, and unchanged if there was none |
| BatchUpdates.PlainUpdatesPrefix | Source/Public/RuntimeMeshComponent.h:472-480 | dropping the last call of a batch with plain updates leaves a batch with plain updates |
| BatchUpdates.MarkStep | Source/Public/RuntimeMeshComponent.h:461-491 | what one call does to a slot's structural kinds: an add or remove at the index fixes them, and any other call keeps them |
| BatchUpdates.ExclusiveAfterCalls | Source/Public/RuntimeMeshComponent.h:461-491 | starting from a table without a Create/Destroy clash, any sequence of calls with plain updates leaves none |
| BatchUpdates.UpdatesAreKept | Source/Public/RuntimeMeshComponent.h:461-491 | the table never shrinks, and the non-structural kinds of any recorded update stay in its slot whatever calls follow |
| BatchUpdates.SlotsAreKept | Source/Public/RuntimeMeshComponent.h:461-491 | one call never shortens the table or drops a non-structural kind from any slot |
| BatchUpdates.UpdatesGrow | Source/Public/RuntimeMeshComponent.h:461-491 | a sequence of calls never shortens the table |
| BatchUpdates.BatchUpdateInfo.constructor | Source/Public/RuntimeMeshComponent.h:442-449 | a new coalescer has all four booleans false and an empty table |
| BatchUpdates.BatchUpdateInfo.Reset | Source/Public/RuntimeMeshComponent.h:451-459 | all four booleans become false and the table becomes empty |
| BatchUpdates.BatchUpdateInfo.GrowFor | Source/Public/RuntimeMeshComponent.h:463-467 | the table is padded in place to `Pad(old table, index)` |
| BatchUpdates.BatchUpdateInfo.AddSectionToAdd | Source/Public/RuntimeMeshComponent.h:461-470 | the table becomes `MarkAdd(old table, index)`; only the table changes |
| BatchUpdates.BatchUpdateInfo.AddUpdateForSection | Source/Public/RuntimeMeshComponent.h:472-480 | the table becomes `MarkUpdate(old table, index, updateType)`; only the table changes |
| BatchUpdates.BatchUpdateInfo.AddSectionToRemove | Source/Public/RuntimeMeshComponent.h:482-491 | the table becomes `MarkRemove(old table, index)`; only the table changes |
| SectionStore.Nulls | Source/Public/RuntimeMeshComponent.h:56 | `SetNum` appends exactly `n` null pointers |
| SectionStore.Place | Source/Public/RuntimeMeshComponent.h:51-65 | the store becomes `max(Num, index+1)` long; slot `index` holds the new section; every other existing slot keeps its pointer; the new slots between the old end and `index` are null |
| SectionStore.PlaceOccupied | Source/Public/RuntimeMeshComponent.h:51-65 | after the call, a slot holds a section exactly when it is the placed one or already held one |
| SectionStore.PlaceLength | Source/Public/RuntimeMeshComponent.h:54-57 | the store never shrinks, is longer than `index`, and its length is the old length or `index+1` |
| SectionStore.PlaceTwice | Source/Public/RuntimeMeshComponent.h:51-65 | resetting the same index twice leaves only the second section |
| SectionStore.PlaceCommute | Source/Public/RuntimeMeshComponent.h:51-65 | creating sections at two different indices gives the same store in either order |
| RuntimeMesh.Section.constructor | Source/Public/RuntimeMeshComponent.h:60 | a new section has the template's vertex type |
| RuntimeMesh.Section.UpdateVertexBuffer | Source/Public/RuntimeMeshComponent.h:91 | the section's vertex buffer becomes the given vertices |
| RuntimeMesh.Section.UpdateIndexBuffer | Source/Public/RuntimeMeshComponent.h:92 | the section's index buffer becomes the given triangles |
| RuntimeMesh.RuntimeMeshComponent.constructor | Source/Public/RuntimeMeshComponent.h:75 | a component starts with no sections, an empty finish log and a reset coalescer |
| RuntimeMesh.RuntimeMeshComponent.CreateOrResetSection | Source/Public/RuntimeMeshComponent.h:51-65 | the store becomes `Place(old store, index, section)` for a fresh section of the requested vertex type, and stays valid; no existing section is changed |
| RuntimeMesh.RuntimeMeshComponent.FinishCreateSectionInternal | Source/Public/RuntimeMeshComponent.h:70 | the call is recorded with its index and bounds flag; the coalescer may change but stays valid |
| RuntimeMesh.RuntimeMeshComponent.FinishUpdateSectionInternal | Source/Public/RuntimeMeshComponent.h:72 | the call is recorded with its index and its three flags; the coalescer may change but stays valid |
| RuntimeMesh.RuntimeMeshComponent.CreateMeshSection | Source/Public/RuntimeMeshComponent.h:77-101 | the store is `Place` of the old store with a fresh section holding the vertices, triangles, collision flag and update frequency; exactly one finish call is logged, `FinishCreate(index, true)` |
| RuntimeMesh.RuntimeMeshComponent.CreateMeshSectionWithBox | Source/Public/RuntimeMeshComponent.h:103-129 | as CreateMeshSection, but the logged bounds flag is what the box-taking `UpdateVertexBuffer` returned |
| RuntimeMesh.RuntimeMeshComponent.UpdateMeshSection | Source/Public/RuntimeMeshComponent.h:131-149 | requires the section to exist; only its vertices change, no other section changes, and `FinishUpdate(index, true, false, true)` is logged |
| RuntimeMesh.RuntimeMeshComponent.UpdateMeshSectionWithBox | Source/Public/RuntimeMeshComponent.h:151-171 | requires the section to exist; only its vertices change; `FinishUpdate(index, true, false, b)` is logged with `b` the box update's answer |
| RuntimeMesh.RuntimeMeshComponent.UpdateMeshSectionWithTriangles | Source/Public/RuntimeMeshComponent.h:173-192 | requires the section to exist; only its vertices and indices change; `FinishUpdate(index, true, true, true)` is logged |
| RuntimeMesh.RuntimeMeshComponent.UpdateMeshSectionWithTrianglesAndBox | Source/Public/RuntimeMeshComponent.h:194-215 | requires the section to exist; only its vertices and indices change; `FinishUpdate(index, true, true, b)` is logged with `b` the box update's answer |
| RuntimeMesh.RuntimeMeshComponent.CreateMeshSectionSimple | Source/Public/RuntimeMeshComponent.h:219-223 | CreateMeshSection's effect with the simple vertex type |
| RuntimeMesh.RuntimeMeshComponent.CreateMeshSectionSimpleWithBox | Source/Public/RuntimeMeshComponent.h:225-229 | CreateMeshSectionWithBox's effect with the simple vertex type |
| RuntimeMesh.RuntimeMeshComponent.CreateMeshSectionSimpleUpdate | Source/Public/RuntimeMeshComponent.h:231-234 | UpdateMeshSection's effect with the simple vertex type, including its existence precondition |
| RuntimeMesh.RuntimeMeshComponent.CreateMeshSectionSimpleUpdateWithBox | Source/Public/RuntimeMeshComponent.h:236-239 | UpdateMeshSectionWithBox's effect with the simple vertex type, including its existence precondition |
| RuntimeMesh.RuntimeMeshComponent.CreateMeshSectionSimpleUpdateWithTriangles | Source/Public/RuntimeMeshComponent.h:241-244 | UpdateMeshSectionWithTriangles's effect with the simple vertex type, including its existence precondition |
| RuntimeMesh.RuntimeMeshComponent.CreateMeshSectionSimpleUpdateWithTrianglesAndBox | Source/Public/RuntimeMeshComponent.h:246-249 | UpdateMeshSectionWithTrianglesAndBox's effect with the simple vertex type, including its existence precondition |
| RuntimeMesh.RuntimeMeshComponent.CreateMeshSectionDualUV | Source/Public/RuntimeMeshComponent.h:252-256 | CreateMeshSection's effect with the dual-UV vertex type |
| RuntimeMesh.RuntimeMeshComponent.CreateMeshSectionDualUVWithBox | Source/Public/RuntimeMeshComponent.h:258-262 | CreateMeshSectionWithBox's effect with the dual-UV vertex type |
| RuntimeMesh.RuntimeMeshComponent.CreateMeshSectionDualUVUpdate | Source/Public/RuntimeMeshComponent.h:264-267 | UpdateMeshSection's effect with the dual-UV vertex type, including its existence precondition |
| RuntimeMesh.RuntimeMeshComponent.CreateMeshSectionDualUVUpdateWithBox | Source/Public/RuntimeMeshComponent.h:269-272 | UpdateMeshSectionWithBox's effect with the dual-UV vertex type, including its existence precondition |
| RuntimeMesh.RuntimeMeshComponent.CreateMeshSectionDualUVUpdateWithTriangles | Source/Public/RuntimeMeshComponent.h:274-277 | UpdateMeshSectionWithTriangles's effect with the dual-UV vertex type, including its existence precondition |
| RuntimeMesh.RuntimeMeshComponent.CreateMeshSectionDualUVUpdateWithTrianglesAndBox | Source/Public/RuntimeMeshComponent.h:279-282 | UpdateMeshSectionWithTrianglesAndBox's effect with the dual-UV vertex type, including its existence precondition |
| RuntimeMesh.RuntimeMeshComponent.BeginBatchUpdates | Source/Public/RuntimeMeshComponent.h:416-420 | `bIsPending` becomes true and nothing else changes, so a second call changes nothing |

## Left out

- **Flag values as sets.** The table holds each `ERMCBatchSectionUpdateType` value as the set of
  enumerator kinds it carries. Bits outside the five enumerators, which no caller here passes, are
  not represented. `UpdateTypes.EncodeOfKinds` shows that a value using only enumerator bits loses
  nothing this way.
- BatchUpdates.BatchUpdateInfo.AddSectionToAdd, AddUpdateForSection and AddSectionToRemove require
  `index < INT32_MAX`. `SectionIndex + 1` would overflow `int32` at the largest index, and a
  negative index is out of range for the source's `TArray` indexing.
- RuntimeMesh.RuntimeMeshComponent.CreateOrResetSection and the create variants require
  `index < INT32_MAX` for the same reason.
- RuntimeMesh.RuntimeMeshComponent.UpdateMeshSection and the other update variants require the stored section to have the caller's vertex type. With a
  different type the source's static cast is undefined.
- **`EndBatchUpdates`, `UpdateLocalBounds`, `BakeCollision`, `UpdateCollision`, `ClearMeshSection`,
  and the collision and convex setters** are only declared in this header; their code is not part
  of this model.
- RuntimeMesh.RuntimeMeshComponent.FinishCreateSectionInternal and FinishUpdateSectionInternal are
  only declared too. They are modelled as a log of the calls and their flags. They do not change
  the sections. Their code may record the change in the batch coalescer, so the coalescer is in
  their frame, and in the frame of every create and update method. Only its validity is promised
  afterwards, not its contents.
- RuntimeMesh.Section.constructor does not state what a new section holds. That is set by
  `RuntimeMeshSection.h`, which is not part of this model. Every create template overwrites the
  buffers, the collision flag and the update frequency. Bounds and visibility are not modelled.
- RuntimeMesh.Section.UpdateVertexBuffer and UpdateIndexBuffer are modelled as plain
  replacement. Their bodies, which also maintain bounds and would apply any index-buffer
  validation, are in `RuntimeMeshSection.h`, which is not part of this model.
- **The bounding box** is left out. The box variants differ only in the bounds flag, which comes
  from the unseen box-taking `UpdateVertexBuffer` and is an input here.
- **`ESectionUpdateFlags::MoveArrays`** is left out. It only chooses between moving and copying
  the arrays, and the contents stored are the same either way.
- **The `FVector`-based `CreateMeshSection` / `UpdateMeshSection` overloads, the Blueprint entry
  points and the `FLinearColor` conversions** are declared without code here.
- **The scene proxy, body setup, physics data, the pre-physics tick function and `Serialize`** are
  engine integration. They are left out.
- **`Source/Private/RuntimeMeshVersion.h`** only declares version constants and a GUID. It is
  left out.
- **`EUpdateFrequency`** is defined in a header that is not part of this model. Only `Average`, the
  default, is visible. The other two enumerator names are the hint's usual values.
- RuntimeMesh.RuntimeMeshComponent.constructor has its code elsewhere. The model starts the
  component with no sections and a reset coalescer.
