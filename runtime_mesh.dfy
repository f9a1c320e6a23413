/**
 * URuntimeMeshComponent's section bookkeeping: the sparse MeshSections store,
 * CreateOrResetSection, the CreateMeshSection / UpdateMeshSection templates
 * with their Simple and DualUV wrappers, and BeginBatchUpdates.
 *
 * The component hands each finished create or update to
 * FinishCreateSectionInternal / FinishUpdateSectionInternal, whose bodies
 * are not part of this model; each such call is recorded, with its flags, as
 * one FinishEvent appended to `finishLog`.
 */
module RuntimeMesh {
  import opened BatchUpdates
  import opened SectionStore

  /**
   * The VertexType a section template is instantiated with: the two vertex
   * types the wrappers name, or any other vertex struct, told apart by name.
   */
  datatype VertexFormat = VertexSimple | VertexDualUV | VertexCustom(name: string)

  /** One vertex, its components (position, normal, tangent, colour, UVs) left opaque. */
  type Vertex = seq<real>

  /** EUpdateFrequency, the storage hint a section is created with. */
  datatype UpdateFrequency = Infrequent | Average | Frequent

  /** What a section holds, as the create and update templates set it. */
  datatype SectionData = SectionData(
    format: VertexFormat,
    vertices: seq<Vertex>,
    indices: seq<int>,
    collisionEnabled: bool,
    updateFrequency: UpdateFrequency)

  /** One call of FinishCreateSectionInternal or FinishUpdateSectionInternal. */
  datatype FinishEvent =
    | FinishCreate(sectionIndex: nat, needsBoundsUpdate: bool)
    | FinishUpdate(sectionIndex: nat, hadPositionUpdates: bool, hadIndexUpdates: bool, needsBoundsUpdate: bool)

  /** FRuntimeMeshSection<VertexType>: one section, shared by pointer and changed in place. */
  class Section {
    const format: VertexFormat
    var vertices: seq<Vertex>
    var indices: seq<int>
    var collisionEnabled: bool
    var updateFrequency: UpdateFrequency

    function Data(): SectionData
      reads this
    {
      SectionData(format, vertices, indices, collisionEnabled, updateFrequency)
    }

    /** `new SectionType()`; what the section holds at first is set by code that is not part of this model. */
    constructor (format: VertexFormat)
      ensures this.format == format
    {
      this.format := format;
    }

    /** Replaces the vertex buffer. */
    method UpdateVertexBuffer(vertices: seq<Vertex>)
      modifies this`vertices
      ensures this.vertices == vertices
    {
      this.vertices := vertices;
    }

    /** Replaces the index buffer. */
    method UpdateIndexBuffer(triangles: seq<int>)
      modifies this`indices
      ensures indices == triangles
    {
      indices := triangles;
    }
  }

  class RuntimeMeshComponent {
    var meshSections: seq<Option<Section>>
    const batchUpdateInfo: BatchUpdateInfo
    /** The FinishCreateSectionInternal / FinishUpdateSectionInternal calls made so far, in order. */
    var finishLog: seq<FinishEvent>

    /**
     * The store fits an int32-sized TArray, the batch table is valid, and no
     * section is held by two slots (each was made by CreateOrResetSection).
     */
    ghost predicate Valid()
      reads this, batchUpdateInfo
    {
      && |meshSections| <= INT32_MAX
      && batchUpdateInfo.Valid()
      && forall i, j ::
           0 <= i < |meshSections| && 0 <= j < |meshSections| && i != j && meshSections[i].Some? && meshSections[j].Some?
           ==> meshSections[i].value != meshSections[j].value
    }

    /** `SectionIndex < MeshSections.Num() && MeshSections[SectionIndex].IsValid()`. */
    predicate HasSection(index: nat)
      reads this
    {
      index < |meshSections| && meshSections[index].Some?
    }

    /** A component with no sections and nothing batched. */
    constructor ()
      ensures Valid()
      ensures meshSections == [] && finishLog == []
      ensures fresh(batchUpdateInfo) && batchUpdateInfo.IsReset()
    {
      meshSections := [];
      finishLog := [];
      batchUpdateInfo := new BatchUpdateInfo();
    }

    /**
     * Grows the store with null slots when `index` is past the end, then puts
     * a new section of the given format at `index`.
     */
    method CreateOrResetSection(index: nat, format: VertexFormat) returns (section: Section)
      requires Valid() && index < INT32_MAX
      modifies this`meshSections
      ensures Valid()
      ensures fresh(section) && section.format == format
      ensures meshSections == Place(old(meshSections), index, section)
    {
      if index >= |meshSections| {
        meshSections := meshSections + Nulls(index + 1 - |meshSections|);
      }
      section := new Section(format);
      meshSections := meshSections[index := Some(section)];
    }

    /**
     * Records a FinishCreateSectionInternal call.  Its code is elsewhere and
     * may record the change in the batch coalescer, so the coalescer is in
     * the frame and only its validity is promised.
     */
    method FinishCreateSectionInternal(index: nat, needsBoundsUpdate: bool)
      requires batchUpdateInfo.Valid()
      modifies this`finishLog, batchUpdateInfo
      ensures batchUpdateInfo.Valid()
      ensures finishLog == old(finishLog) + [FinishCreate(index, needsBoundsUpdate)]
    {
      finishLog := finishLog + [FinishCreate(index, needsBoundsUpdate)];
    }

    /** Records a FinishUpdateSectionInternal call; the coalescer is in the frame as for FinishCreateSectionInternal. */
    method FinishUpdateSectionInternal(index: nat, hadPositionUpdates: bool, hadIndexUpdates: bool, needsBoundsUpdate: bool)
      requires batchUpdateInfo.Valid()
      modifies this`finishLog, batchUpdateInfo
      ensures batchUpdateInfo.Valid()
      ensures finishLog == old(finishLog) + [FinishUpdate(index, hadPositionUpdates, hadIndexUpdates, needsBoundsUpdate)]
    {
      finishLog := finishLog + [FinishUpdate(index, hadPositionUpdates, hadIndexUpdates, needsBoundsUpdate)];
    }

    /** Every section other than the one at `index` holds what it held before. */
    twostate predicate OthersUnchanged(index: nat)
      reads this, set k | 0 <= k < |meshSections| && meshSections[k].Some? :: meshSections[k].value
    {
      |meshSections| == |old(meshSections)|
      && forall k :: 0 <= k < |meshSections| && k != index && meshSections[k].Some? ==>
        meshSections[k] == old(meshSections[k]) && meshSections[k].value.Data() == old(meshSections[k].value.Data())
    }

    // -------------------------------------------------------------------------
    // CreateMeshSection<VertexType>

    /** The template without a bounding box: the bounds are always to be recomputed. */
    method CreateMeshSection(index: nat, format: VertexFormat, vertices: seq<Vertex>, triangles: seq<int>,
                             createCollision: bool, updateFrequency: UpdateFrequency)
      requires Valid() && index < INT32_MAX
      modifies this, batchUpdateInfo
      ensures Valid()
      ensures HasSection(index) && fresh(meshSections[index].value)
      ensures meshSections == Place(old(meshSections), index, meshSections[index].value)
      ensures meshSections[index].value.Data() == SectionData(format, vertices, triangles, createCollision, updateFrequency)
      ensures finishLog == old(finishLog) + [FinishCreate(index, true)]
    {
      var section := CreateOrResetSection(index, format);
      section.UpdateVertexBuffer(vertices);
      section.UpdateIndexBuffer(triangles);
      section.collisionEnabled := createCollision;
      section.updateFrequency := updateFrequency;
      FinishCreateSectionInternal(index, true);
    }

    /**
     * The template with a bounding box: whether the bounds still need
     * recomputing is what the section's UpdateVertexBuffer(Vertices,
     * BoundingBox) answers, passed in here as `boxNeedsBoundsUpdate`.
     */
    method CreateMeshSectionWithBox(index: nat, format: VertexFormat, vertices: seq<Vertex>, triangles: seq<int>,
                                    boxNeedsBoundsUpdate: bool, createCollision: bool, updateFrequency: UpdateFrequency)
      requires Valid() && index < INT32_MAX
      modifies this, batchUpdateInfo
      ensures Valid()
      ensures HasSection(index) && fresh(meshSections[index].value)
      ensures meshSections == Place(old(meshSections), index, meshSections[index].value)
      ensures meshSections[index].value.Data() == SectionData(format, vertices, triangles, createCollision, updateFrequency)
      ensures finishLog == old(finishLog) + [FinishCreate(index, boxNeedsBoundsUpdate)]
    {
      var section := CreateOrResetSection(index, format);
      section.UpdateVertexBuffer(vertices);
      section.UpdateIndexBuffer(triangles);
      section.collisionEnabled := createCollision;
      section.updateFrequency := updateFrequency;
      FinishCreateSectionInternal(index, boxNeedsBoundsUpdate);
    }

    // -------------------------------------------------------------------------
    // UpdateMeshSection<VertexType>

    /** Replaces the vertices of an existing section. */
    method UpdateMeshSection(index: nat, format: VertexFormat, vertices: seq<Vertex>)
      requires Valid() && HasSection(index) && meshSections[index].value.format == format
      modifies this`finishLog, meshSections[index].value, batchUpdateInfo
      ensures Valid() && meshSections == old(meshSections)
      ensures meshSections[index].value.Data() == old(meshSections[index].value.Data()).(vertices := vertices)
      ensures OthersUnchanged(index)
      ensures finishLog == old(finishLog) + [FinishUpdate(index, true, false, true)]
    {
      var section := meshSections[index].value;
      section.UpdateVertexBuffer(vertices);
      FinishUpdateSectionInternal(index, true, false, true);
    }

    /** Replaces the vertices of an existing section, with a bounding box. */
    method UpdateMeshSectionWithBox(index: nat, format: VertexFormat, vertices: seq<Vertex>, boxNeedsBoundsUpdate: bool)
      requires Valid() && HasSection(index) && meshSections[index].value.format == format
      modifies this`finishLog, meshSections[index].value, batchUpdateInfo
      ensures Valid() && meshSections == old(meshSections)
      ensures meshSections[index].value.Data() == old(meshSections[index].value.Data()).(vertices := vertices)
      ensures OthersUnchanged(index)
      ensures finishLog == old(finishLog) + [FinishUpdate(index, true, false, boxNeedsBoundsUpdate)]
    {
      var section := meshSections[index].value;
      section.UpdateVertexBuffer(vertices);
      FinishUpdateSectionInternal(index, true, false, boxNeedsBoundsUpdate);
    }

    /** Replaces the vertices and triangles of an existing section. */
    method UpdateMeshSectionWithTriangles(index: nat, format: VertexFormat, vertices: seq<Vertex>, triangles: seq<int>)
      requires Valid() && HasSection(index) && meshSections[index].value.format == format
      modifies this`finishLog, meshSections[index].value, batchUpdateInfo
      ensures Valid() && meshSections == old(meshSections)
      ensures meshSections[index].value.Data() == old(meshSections[index].value.Data()).(vertices := vertices, indices := triangles)
      ensures OthersUnchanged(index)
      ensures finishLog == old(finishLog) + [FinishUpdate(index, true, true, true)]
    {
      var section := meshSections[index].value;
      section.UpdateVertexBuffer(vertices);
      section.UpdateIndexBuffer(triangles);
      FinishUpdateSectionInternal(index, true, true, true);
    }

    /** Replaces the vertices and triangles of an existing section, with a bounding box. */
    method UpdateMeshSectionWithTrianglesAndBox(index: nat, format: VertexFormat, vertices: seq<Vertex>, triangles: seq<int>,
                                                boxNeedsBoundsUpdate: bool)
      requires Valid() && HasSection(index) && meshSections[index].value.format == format
      modifies this`finishLog, meshSections[index].value, batchUpdateInfo
      ensures Valid() && meshSections == old(meshSections)
      ensures meshSections[index].value.Data() == old(meshSections[index].value.Data()).(vertices := vertices, indices := triangles)
      ensures OthersUnchanged(index)
      ensures finishLog == old(finishLog) + [FinishUpdate(index, true, true, boxNeedsBoundsUpdate)]
    {
      var section := meshSections[index].value;
      section.UpdateVertexBuffer(vertices);
      section.UpdateIndexBuffer(triangles);
      FinishUpdateSectionInternal(index, true, true, boxNeedsBoundsUpdate);
    }

    // -------------------------------------------------------------------------
    // CreateMeshSectionSimple: the templates at VertexSimple

    method CreateMeshSectionSimple(index: nat, vertices: seq<Vertex>, triangles: seq<int>,
                                   createCollision: bool, updateFrequency: UpdateFrequency)
      requires Valid() && index < INT32_MAX
      modifies this, batchUpdateInfo
      ensures Valid()
      ensures HasSection(index) && fresh(meshSections[index].value)
      ensures meshSections == Place(old(meshSections), index, meshSections[index].value)
      ensures meshSections[index].value.Data() == SectionData(VertexSimple, vertices, triangles, createCollision, updateFrequency)
      ensures finishLog == old(finishLog) + [FinishCreate(index, true)]
    {
      CreateMeshSection(index, VertexSimple, vertices, triangles, createCollision, updateFrequency);
    }

    method CreateMeshSectionSimpleWithBox(index: nat, vertices: seq<Vertex>, triangles: seq<int>, boxNeedsBoundsUpdate: bool,
                                          createCollision: bool, updateFrequency: UpdateFrequency)
      requires Valid() && index < INT32_MAX
      modifies this, batchUpdateInfo
      ensures Valid()
      ensures HasSection(index) && fresh(meshSections[index].value)
      ensures meshSections == Place(old(meshSections), index, meshSections[index].value)
      ensures meshSections[index].value.Data() == SectionData(VertexSimple, vertices, triangles, createCollision, updateFrequency)
      ensures finishLog == old(finishLog) + [FinishCreate(index, boxNeedsBoundsUpdate)]
    {
      CreateMeshSectionWithBox(index, VertexSimple, vertices, triangles, boxNeedsBoundsUpdate, createCollision, updateFrequency);
    }

    /** The overload without a collision flag: an update, so the section must already exist. */
    method CreateMeshSectionSimpleUpdate(index: nat, vertices: seq<Vertex>)
      requires Valid() && HasSection(index) && meshSections[index].value.format == VertexSimple
      modifies this`finishLog, meshSections[index].value, batchUpdateInfo
      ensures Valid() && meshSections == old(meshSections)
      ensures meshSections[index].value.Data() == old(meshSections[index].value.Data()).(vertices := vertices)
      ensures OthersUnchanged(index)
      ensures finishLog == old(finishLog) + [FinishUpdate(index, true, false, true)]
    {
      UpdateMeshSection(index, VertexSimple, vertices);
    }

    method CreateMeshSectionSimpleUpdateWithBox(index: nat, vertices: seq<Vertex>, boxNeedsBoundsUpdate: bool)
      requires Valid() && HasSection(index) && meshSections[index].value.format == VertexSimple
      modifies this`finishLog, meshSections[index].value, batchUpdateInfo
      ensures Valid() && meshSections == old(meshSections)
      ensures meshSections[index].value.Data() == old(meshSections[index].value.Data()).(vertices := vertices)
      ensures OthersUnchanged(index)
      ensures finishLog == old(finishLog) + [FinishUpdate(index, true, false, boxNeedsBoundsUpdate)]
    {
      UpdateMeshSectionWithBox(index, VertexSimple, vertices, boxNeedsBoundsUpdate);
    }

    method CreateMeshSectionSimpleUpdateWithTriangles(index: nat, vertices: seq<Vertex>, triangles: seq<int>)
      requires Valid() && HasSection(index) && meshSections[index].value.format == VertexSimple
      modifies this`finishLog, meshSections[index].value, batchUpdateInfo
      ensures Valid() && meshSections == old(meshSections)
      ensures meshSections[index].value.Data() == old(meshSections[index].value.Data()).(vertices := vertices, indices := triangles)
      ensures OthersUnchanged(index)
      ensures finishLog == old(finishLog) + [FinishUpdate(index, true, true, true)]
    {
      UpdateMeshSectionWithTriangles(index, VertexSimple, vertices, triangles);
    }

    method CreateMeshSectionSimpleUpdateWithTrianglesAndBox(index: nat, vertices: seq<Vertex>, triangles: seq<int>,
                                                            boxNeedsBoundsUpdate: bool)
      requires Valid() && HasSection(index) && meshSections[index].value.format == VertexSimple
      modifies this`finishLog, meshSections[index].value, batchUpdateInfo
      ensures Valid() && meshSections == old(meshSections)
      ensures meshSections[index].value.Data() == old(meshSections[index].value.Data()).(vertices := vertices, indices := triangles)
      ensures OthersUnchanged(index)
      ensures finishLog == old(finishLog) + [FinishUpdate(index, true, true, boxNeedsBoundsUpdate)]
    {
      UpdateMeshSectionWithTrianglesAndBox(index, VertexSimple, vertices, triangles, boxNeedsBoundsUpdate);
    }

    // -------------------------------------------------------------------------
    // CreateMeshSectionDualUV: the templates at VertexDualUV

    method CreateMeshSectionDualUV(index: nat, vertices: seq<Vertex>, triangles: seq<int>,
                                   createCollision: bool, updateFrequency: UpdateFrequency)
      requires Valid() && index < INT32_MAX
      modifies this, batchUpdateInfo
      ensures Valid()
      ensures HasSection(index) && fresh(meshSections[index].value)
      ensures meshSections == Place(old(meshSections), index, meshSections[index].value)
      ensures meshSections[index].value.Data() == SectionData(VertexDualUV, vertices, triangles, createCollision, updateFrequency)
      ensures finishLog == old(finishLog) + [FinishCreate(index, true)]
    {
      CreateMeshSection(index, VertexDualUV, vertices, triangles, createCollision, updateFrequency);
    }

    method CreateMeshSectionDualUVWithBox(index: nat, vertices: seq<Vertex>, triangles: seq<int>, boxNeedsBoundsUpdate: bool,
                                          createCollision: bool, updateFrequency: UpdateFrequency)
      requires Valid() && index < INT32_MAX
      modifies this, batchUpdateInfo
      ensures Valid()
      ensures HasSection(index) && fresh(meshSections[index].value)
      ensures meshSections == Place(old(meshSections), index, meshSections[index].value)
      ensures meshSections[index].value.Data() == SectionData(VertexDualUV, vertices, triangles, createCollision, updateFrequency)
      ensures finishLog == old(finishLog) + [FinishCreate(index, boxNeedsBoundsUpdate)]
    {
      CreateMeshSectionWithBox(index, VertexDualUV, vertices, triangles, boxNeedsBoundsUpdate, createCollision, updateFrequency);
    }

    /** The overload without a collision flag: an update, so the section must already exist. */
    method CreateMeshSectionDualUVUpdate(index: nat, vertices: seq<Vertex>)
      requires Valid() && HasSection(index) && meshSections[index].value.format == VertexDualUV
      modifies this`finishLog, meshSections[index].value, batchUpdateInfo
      ensures Valid() && meshSections == old(meshSections)
      ensures meshSections[index].value.Data() == old(meshSections[index].value.Data()).(vertices := vertices)
      ensures OthersUnchanged(index)
      ensures finishLog == old(finishLog) + [FinishUpdate(index, true, false, true)]
    {
      UpdateMeshSection(index, VertexDualUV, vertices);
    }

    method CreateMeshSectionDualUVUpdateWithBox(index: nat, vertices: seq<Vertex>, boxNeedsBoundsUpdate: bool)
      requires Valid() && HasSection(index) && meshSections[index].value.format == VertexDualUV
      modifies this`finishLog, meshSections[index].value, batchUpdateInfo
      ensures Valid() && meshSections == old(meshSections)
      ensures meshSections[index].value.Data() == old(meshSections[index].value.Data()).(vertices := vertices)
      ensures OthersUnchanged(index)
      ensures finishLog == old(finishLog) + [FinishUpdate(index, true, false, boxNeedsBoundsUpdate)]
    {
      UpdateMeshSectionWithBox(index, VertexDualUV, vertices, boxNeedsBoundsUpdate);
    }

    method CreateMeshSectionDualUVUpdateWithTriangles(index: nat, vertices: seq<Vertex>, triangles: seq<int>)
      requires Valid() && HasSection(index) && meshSections[index].value.format == VertexDualUV
      modifies this`finishLog, meshSections[index].value, batchUpdateInfo
      ensures Valid() && meshSections == old(meshSections)
      ensures meshSections[index].value.Data() == old(meshSections[index].value.Data()).(vertices := vertices, indices := triangles)
      ensures OthersUnchanged(index)
      ensures finishLog == old(finishLog) + [FinishUpdate(index, true, true, true)]
    {
      UpdateMeshSectionWithTriangles(index, VertexDualUV, vertices, triangles);
    }

    method CreateMeshSectionDualUVUpdateWithTrianglesAndBox(index: nat, vertices: seq<Vertex>, triangles: seq<int>,
                                                            boxNeedsBoundsUpdate: bool)
      requires Valid() && HasSection(index) && meshSections[index].value.format == VertexDualUV
      modifies this`finishLog, meshSections[index].value, batchUpdateInfo
      ensures Valid() && meshSections == old(meshSections)
      ensures meshSections[index].value.Data() == old(meshSections[index].value.Data()).(vertices := vertices, indices := triangles)
      ensures OthersUnchanged(index)
      ensures finishLog == old(finishLog) + [FinishUpdate(index, true, true, boxNeedsBoundsUpdate)]
    {
      UpdateMeshSectionWithTrianglesAndBox(index, VertexDualUV, vertices, triangles, boxNeedsBoundsUpdate);
    }

    // -------------------------------------------------------------------------
    // BeginBatchUpdates

    /** Sets bIsPending and nothing else. */
    method BeginBatchUpdates()
      requires Valid()
      modifies batchUpdateInfo`isPending
      ensures Valid() && batchUpdateInfo.isPending
    {
      batchUpdateInfo.isPending := true;
    }
  }
}
