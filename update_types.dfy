/**
 * The batch section update types (ERMCBatchSectionUpdateType): an enum class
 * whose values are bit flags, combined with `|`, `&` and `~` through
 * ENUM_CLASS_FLAGS.  A value of the enum is its 32-bit underlying integer,
 * read here as a bit-vector; `Kinds` reads such a value as the set of update
 * kinds whose bit it carries, and the lemmas show that `|` and `& ~` on the
 * bits are union and difference on those sets.
 */
module UpdateTypes {

  /** One ERMCBatchSectionUpdateType value: the enum's underlying 32-bit integer. */
  type Flags = bv32

  /** The enumerator None (0x0): no update pending. */
  const NoUpdate: Flags := 0x0

  /** The five non-zero enumerators. */
  datatype UpdateKind = Create | Destroy | VerticesUpdate | IndicesUpdate | VisibilityOrShadowsUpdate

  const AllKinds: set<UpdateKind> := {Create, Destroy, VerticesUpdate, IndicesUpdate, VisibilityOrShadowsUpdate}

  /** The value of each enumerator. */
  function Bit(k: UpdateKind): Flags
  {
    match k
    case Create => 0x1
    case Destroy => 0x2
    case VerticesUpdate => 0x4
    case IndicesUpdate => 0x8
    case VisibilityOrShadowsUpdate => 0x10
  }

  /**
   * `f` carries the bit of `k`.  The masks are written out as literals rather
   * than as `f & Bit(k)` because the solver handles literal masks far more
   * cheaply; HasIsBitTest shows the two forms agree.
   */
  predicate Has(f: Flags, k: UpdateKind)
  {
    match k
    case Create => f & 0x1 != 0
    case Destroy => f & 0x2 != 0
    case VerticesUpdate => f & 0x4 != 0
    case IndicesUpdate => f & 0x8 != 0
    case VisibilityOrShadowsUpdate => f & 0x10 != 0
  }

  /** The kinds whose bits `f` carries (bits outside the enumerators are ignored). */
  function Kinds(f: Flags): set<UpdateKind>
  {
    set k | k in AllKinds && Has(f, k)
  }

  /** The enumerator value carrying exactly the kinds in `s`: the `|` of their bits. */
  function Encode(s: set<UpdateKind>): Flags
  {
    (if Create in s then 0x1 else 0x0)
    | (if Destroy in s then 0x2 else 0x0)
    | (if VerticesUpdate in s then 0x4 else 0x0)
    | (if IndicesUpdate in s then 0x8 else 0x0)
    | (if VisibilityOrShadowsUpdate in s then 0x10 else 0x0)
  }

  /** A mask that is one of the enumerators' values. */
  predicate IsEnumeratorMask(m: Flags) { m == 0x1 || m == 0x2 || m == 0x4 || m == 0x8 || m == 0x10 }

  lemma BitValue(k: UpdateKind)
    ensures k in AllKinds && IsEnumeratorMask(Bit(k))
  {
  }

  /** Each enumerator is a single bit, and distinct enumerators occupy distinct bits. */
  lemma BitsSingleAndDisjoint(j: UpdateKind, k: UpdateKind)
    ensures Bit(k) != 0 && Bit(k) & (Bit(k) - 1) == 0
    ensures j != k <==> Bit(j) & Bit(k) == 0
  {
  }

  /** `Has` tests the enumerator's bit. */
  lemma HasIsBitTest(f: Flags, k: UpdateKind)
    ensures Has(f, k) <==> f & Bit(k) != 0
  {
  }

  /** A kind is in `Kinds(f)` exactly when `f` carries its bit. */
  lemma InKinds(f: Flags, k: UpdateKind)
    ensures k in Kinds(f) <==> Has(f, k)
  {
    BitValue(k);
  }

  /** None carries no kind, and each enumerator carries exactly its own kind. */
  lemma KindsOfEnumerators()
    ensures Kinds(NoUpdate) == {}
    ensures forall k :: Kinds(Bit(k)) == {k}
  {
    forall k ensures Kinds(Bit(k)) == {k} {
      forall j ensures j in Kinds(Bit(k)) <==> j == k {
        InKinds(Bit(k), j);
        BitsSingleAndDisjoint(j, k);
      }
    }
  }

  lemma OrMask(a: Flags, b: Flags, m: Flags)
    requires IsEnumeratorMask(m)
    ensures (a | b) & m != 0 <==> a & m != 0 || b & m != 0
  {
  }

  lemma AndNotMask(a: Flags, b: Flags, m: Flags)
    requires IsEnumeratorMask(m)
    ensures (a & !b) & m != 0 <==> a & m != 0 && b & m == 0
  {
  }

  /** `a | b` carries a kind when `a` or `b` does. */
  lemma OrHas(a: Flags, b: Flags, k: UpdateKind)
    ensures Has(a | b, k) <==> Has(a, k) || Has(b, k)
  {
    match k
    case Create => OrMask(a, b, 0x1);
    case Destroy => OrMask(a, b, 0x2);
    case VerticesUpdate => OrMask(a, b, 0x4);
    case IndicesUpdate => OrMask(a, b, 0x8);
    case VisibilityOrShadowsUpdate => OrMask(a, b, 0x10);
  }

  /** `a & ~b` (written `a & !b` in Dafny) carries a kind when `a` does and `b` does not. */
  lemma AndNotHas(a: Flags, b: Flags, k: UpdateKind)
    ensures Has(a & !b, k) <==> Has(a, k) && !Has(b, k)
  {
    match k
    case Create => AndNotMask(a, b, 0x1);
    case Destroy => AndNotMask(a, b, 0x2);
    case VerticesUpdate => AndNotMask(a, b, 0x4);
    case IndicesUpdate => AndNotMask(a, b, 0x8);
    case VisibilityOrShadowsUpdate => AndNotMask(a, b, 0x10);
  }

  /** `|=` on flags is union on the kinds they carry. */
  lemma KindsOfOr(a: Flags, b: Flags)
    ensures Kinds(a | b) == Kinds(a) + Kinds(b)
  {
    forall k ensures k in Kinds(a | b) <==> k in Kinds(a) + Kinds(b) {
      BitValue(k);
      OrHas(a, b, k);
    }
  }

  /** `&= ~` on flags is difference on the kinds they carry. */
  lemma KindsOfAndNot(a: Flags, b: Flags)
    ensures Kinds(a & !b) == Kinds(a) - Kinds(b)
  {
    forall k ensures k in Kinds(a & !b) <==> k in Kinds(a) - Kinds(b) {
      BitValue(k);
      AndNotHas(a, b, k);
    }
  }

  /** Clearing one kind's bit and then setting another's (the AddSectionToAdd/Remove pattern). */
  lemma KindsOfClearThenSet(x: Flags, clear: UpdateKind, add: UpdateKind)
    ensures Kinds((x & !Bit(clear)) | Bit(add)) == Kinds(x) - {clear} + {add}
    ensures Has((x & !Bit(clear)) | Bit(add), add)
    ensures clear != add ==> !Has((x & !Bit(clear)) | Bit(add), clear)
  {
    var cleared := x & !Bit(clear);
    KindsOfAndNot(x, Bit(clear));
    KindsOfOr(cleared, Bit(add));
    KindsOfEnumerators();
    InKinds(cleared | Bit(add), add);
    InKinds(cleared | Bit(add), clear);
  }

  /** Encoding a set of kinds as bits and reading the bits back gives the set. */
  lemma KindsOfEncode(s: set<UpdateKind>)
    ensures Kinds(Encode(s)) == s
  {
    forall k ensures k in Kinds(Encode(s)) <==> k in s {
      InKinds(Encode(s), k);
      EncodeHas(s, k);
    }
  }

  lemma EncodeHas(s: set<UpdateKind>, k: UpdateKind)
    ensures Has(Encode(s), k) <==> k in s
  {
    match k
    case Create =>
    case Destroy =>
    case VerticesUpdate =>
    case IndicesUpdate =>
    case VisibilityOrShadowsUpdate =>
  }

  /** A value using only the enumerators' bits is the encoding of the kinds it carries. */
  lemma EncodeOfKinds(f: Flags)
    requires f & !0x1f == 0
    ensures Encode(Kinds(f)) == f
  {
    var s := Kinds(f);
    forall k ensures k in s <==> Has(f, k) {
      InKinds(f, k);
    }
    assert (Create in s <==> f & 0x1 != 0) && (Destroy in s <==> f & 0x2 != 0)
      && (VerticesUpdate in s <==> f & 0x4 != 0) && (IndicesUpdate in s <==> f & 0x8 != 0)
      && (VisibilityOrShadowsUpdate in s <==> f & 0x10 != 0);
    BitsReassemble(f, Create in s, Destroy in s, VerticesUpdate in s, IndicesUpdate in s, VisibilityOrShadowsUpdate in s);
  }

  lemma BitsReassemble(f: Flags, c: bool, d: bool, v: bool, i: bool, o: bool)
    requires f & !0x1f == 0
    requires (c <==> f & 0x1 != 0) && (d <==> f & 0x2 != 0) && (v <==> f & 0x4 != 0)
    requires (i <==> f & 0x8 != 0) && (o <==> f & 0x10 != 0)
    ensures f == (if c then 0x1 else 0x0) | (if d then 0x2 else 0x0) | (if v then 0x4 else 0x0)
      | (if i then 0x8 else 0x0) | (if o then 0x10 else 0x0)
  {
    assert f == (f & 0x1) | (f & 0x2) | (f & 0x4) | (f & 0x8) | (f & 0x10);
    assert f & 0x1 == (if c then 0x1 else 0x0);
    assert f & 0x2 == (if d then 0x2 else 0x0);
    assert f & 0x4 == (if v then 0x4 else 0x0);
    assert f & 0x8 == (if i then 0x8 else 0x0);
    assert f & 0x10 == (if o then 0x10 else 0x0);
  }
}
