/**
 * The sparse section store of URuntimeMeshComponent: MeshSections, a TArray
 * of shared pointers indexed by section index, where a null pointer is a hole.
 * `Place` is what CreateOrResetSection does to that array.
 */
module SectionStore {

  datatype Option<T> = None | Some(value: T)

  /** `n` null slots, the entries TArray::SetNum adds for shared pointers. */
  function Nulls<T>(n: nat): (r: seq<Option<T>>)
    ensures |r| == n
    ensures forall k :: 0 <= k < n ==> r[k] == None
  {
    if n == 0 then [] else Nulls(n - 1) + [None]
  }

  /**
   * The store after CreateOrResetSection(index) made `x`: grown to
   * `index + 1` slots when `index` is past the end, then slot `index` set.
   */
  function Place<T>(slots: seq<Option<T>>, index: nat, x: T): (r: seq<Option<T>>)
    ensures |r| == if index < |slots| then |slots| else index + 1
    ensures r[index] == Some(x)
    ensures forall k :: 0 <= k < |slots| && k != index ==> r[k] == slots[k]
    ensures forall k :: |slots| <= k < |r| && k != index ==> r[k] == None
  {
    var grown := if index >= |slots| then slots + Nulls(index + 1 - |slots|) else slots;
    grown[index := Some(x)]
  }

  /** After Place, a slot holds a section exactly when it is the placed one or held one before. */
  lemma PlaceOccupied<T>(slots: seq<Option<T>>, index: nat, x: T, k: nat)
    requires k < |Place(slots, index, x)|
    ensures Place(slots, index, x)[k].Some? <==> k == index || (k < |slots| && slots[k].Some?)
  {
  }

  /** The store never shrinks, and the length is the larger of the old length and `index + 1`. */
  lemma PlaceLength<T>(slots: seq<Option<T>>, index: nat, x: T)
    ensures |Place(slots, index, x)| >= |slots|
    ensures |Place(slots, index, x)| > index
    ensures |Place(slots, index, x)| == |slots| || |Place(slots, index, x)| == index + 1
  {
  }

  /** Resetting the same index twice leaves only the second section. */
  lemma PlaceTwice<T>(slots: seq<Option<T>>, index: nat, x: T, y: T)
    ensures Place(Place(slots, index, x), index, y) == Place(slots, index, y)
  {
    var a, b := Place(Place(slots, index, x), index, y), Place(slots, index, y);
    assert forall k :: 0 <= k < |a| ==> a[k] == b[k];
  }

  /** Creating sections at two different indices gives the same store in either order. */
  lemma PlaceCommute<T>(slots: seq<Option<T>>, i: nat, x: T, j: nat, y: T)
    requires i != j
    ensures Place(Place(slots, i, x), j, y) == Place(Place(slots, j, y), i, x)
  {
    var a, b := Place(Place(slots, i, x), j, y), Place(Place(slots, j, y), i, x);
    assert |a| == |b|;
    forall k | 0 <= k < |a|
      ensures a[k] == b[k]
    {
    }
  }
}
