/** Alignments, fields with their offsets, and struct types with a layout of their own. */
module StructLayout {
  import opened Collections
  import opened Bits

  /** An alignment is the power of two 1 << shift. */
  type Align = nat

  function Bytes(a: Align): (b: nat)
    ensures b > 0
  {
    Pow2(a)
  }

  predicate Aligned(x: nat, a: Align) { x % Bytes(a) == 0 }

  function AlignTo(x: nat, a: Align): nat {
    RoundUpNonNegative(x, Bytes(a));
    ((x + Bytes(a) - 1) / Bytes(a)) * Bytes(a)
  }

  lemma RoundUpNonNegative(x: nat, b: nat)
    requires b > 0
    ensures ((x + b - 1) / b) * b >= 0
  {
    QuotientBounds(x + b - 1, b);
    MulMonotone(0, (x + b - 1) / b, b);
  }

  /** The aligned offset is the only multiple of the alignment in [x, x + alignment). */
  lemma AlignToIs(x: nat, a: Align, y: nat)
    requires Aligned(y, a) && x <= y < x + Bytes(a)
    ensures AlignTo(x, a) == y
  {
    var b := Bytes(a);
    var q := y / b;
    assert y == q * b;
    assert x + b - 1 == q * b + (x + b - 1 - y);
    QuotientIsUnique(q, b, x + b - 1 - y);
  }

  lemma AlignToAligned(x: nat, a: Align)
    ensures Aligned(AlignTo(x, a), a) && x <= AlignTo(x, a) < x + Bytes(a)
  {
    var b := Bytes(a);
    var q := (x + b - 1) / b;
    assert x + b - 1 == q * b + (x + b - 1) % b;
    QuotientIsUnique(q, b, 0);
  }

  /** A multiple of a larger power of two is a multiple of a smaller one. */
  lemma CoarserAligned(x: nat, a: Align, b: Align)
    requires Aligned(x, a) && b <= a
    ensures Aligned(x, b)
  {
    ModOfMod(x, a, b);
    QuotientIsUnique(0, Bytes(b), 0);
  }

  // ----- types and fields -----

  datatype Ty = Ty(size: nat, abi: Align)

  datatype Field = Field(size: nat, offset: Option<nat>, ty: Ty, layoutIndex: nat, align: Align, tyAlign: Align)

  /** Where the optimised layout put a field. */
  datatype Placed = Placed(id: nat, offset: nat)

  predicate FieldOk(f: Field) {
    f.size == f.ty.size && f.tyAlign <= f.ty.abi
  }

  /** The promise of the struct-layout optimiser: every field once, at its fixed offset if it has
      one, aligned as asked, in increasing and non-overlapping order. */
  ghost predicate ValidLayout(fields: seq<Field>, layout: seq<Placed>) {
    |layout| == |fields|
    && (forall i | 0 <= i < |layout| :: layout[i].id < |fields| && Aligned(layout[i].offset, fields[layout[i].id].align)
          && (fields[layout[i].id].offset.Some? ==> layout[i].offset == fields[layout[i].id].offset.value))
    && (forall i, j | 0 <= i < j < |layout| :: layout[i].id != layout[j].id)
    && (forall i, j | 0 <= i < j < |layout| :: layout[i].offset + fields[layout[i].id].size <= layout[j].offset)
  }

  // ----- the struct type and its layout -----

  datatype Element = Padding(bytes: nat) | Body(ty: Ty)

  function ElementSize(e: Element): nat {
    match e
    case Padding(n) => n
    case Body(t) => t.size
  }

  function ElementAlign(e: Element): Align {
    match e
    case Padding(_) => 0
    case Body(t) => t.abi
  }

  /** Where a struct with this body places its last element. */
  function LastOffset(body: seq<Element>, packed: bool): nat
    requires body != []
    decreases |body|, 0
  {
    var before := EndOf(body[..|body| - 1], packed);
    if packed then before else AlignTo(before, ElementAlign(body[|body| - 1]))
  }

  function EndOf(body: seq<Element>, packed: bool): nat
    decreases |body|, 1
  {
    if body == [] then 0 else LastOffset(body, packed) + ElementSize(body[|body| - 1])
  }

  /** The offset the struct's own layout gives to element k. */
  function ElementOffset(body: seq<Element>, packed: bool, k: nat): nat
    requires k < |body|
  {
    LastOffset(body[..k + 1], packed)
  }

  lemma OffsetOfPrefix(body: seq<Element>, more: seq<Element>, packed: bool, k: nat)
    requires k < |body|
    ensures ElementOffset(body + more, packed, k) == ElementOffset(body, packed, k)
  {
    assert (body + more)[..k + 1] == body[..k + 1];
  }

  lemma {:induction false} AppendedElement(body: seq<Element>, e: Element, packed: bool)
    ensures ElementOffset(body + [e], packed, |body|)
         == if packed then EndOf(body, packed) else AlignTo(EndOf(body, packed), ElementAlign(e))
    ensures EndOf(body + [e], packed) == ElementOffset(body + [e], packed, |body|) + ElementSize(e)
  {
    assert (body + [e])[..|body| + 1] == body + [e];
    assert (body + [e])[..|body|] == body;
  }

  /** No field's natural alignment is more than its offset can honour. */
  ghost predicate NaturallyAligned(fields: seq<Field>, layout: seq<Placed>) {
    forall i | 0 <= i < |layout| && layout[i].id < |fields| :: Aligned(layout[i].offset, fields[layout[i].id].ty.abi)
  }

  /** Adding a field, with padding where the builder puts it. */
  function WithField(body: seq<Element>, f: Field, last: nat, offset: nat, packed: bool): seq<Element>
    requires last <= offset
  {
    (if offset != last && (packed || AlignTo(last, f.tyAlign) != offset) then body + [Padding(offset - last)] else body)
    + [Body(f.ty)]
  }

  /** A gap that the smaller alignment explains is explained by the larger one too. */
  lemma NaturalGap(last: nat, small: Align, large: Align, offset: nat)
    requires small <= large && Aligned(offset, large) && AlignTo(last, small) == offset
    ensures AlignTo(last, large) == offset
  {
    AlignToAligned(last, small);
    Pow2Monotone(small, large);
    AlignToIs(last, large, offset);
  }

  lemma AlignToSelf(x: nat, a: Align)
    requires Aligned(x, a)
    ensures AlignTo(x, a) == x
  {
    AlignToIs(x, a, x);
  }

  lemma ByteAligned(x: nat)
    ensures Aligned(x, 0)
  {
    assert Pow2(0) == 1;
  }

  /** Whatever comes before it, an unpacked struct puts a field at a multiple of its ABI alignment. */
  lemma UnpackedOffsetAligned(body: seq<Element>, k: nat)
    requires k < |body|
    ensures Aligned(ElementOffset(body, false, k), ElementAlign(body[k]))
  {
    var prefix := body[..k + 1];
    AlignToAligned(EndOf(prefix[..k], false), ElementAlign(body[k]));
  }

  /** Padding goes in exactly where the field would otherwise miss its offset, if its alignment is the
      natural one of its type and the offset suits it. */
  lemma {:induction false} PaddingIsNeeded(body: seq<Element>, f: Field, last: nat, offset: nat, packed: bool)
    requires last <= offset && EndOf(body, packed) == last
    requires packed || (f.tyAlign == f.ty.abi && Aligned(offset, f.ty.abi))
    ensures var body' := WithField(body, f, last, offset, packed);
            body' == if ElementOffset(body + [Body(f.ty)], packed, |body|) == offset then body + [Body(f.ty)]
                     else body + [Padding(offset - last), Body(f.ty)]
  {
    hide AlignTo, Aligned, ElementOffset, EndOf;
    AppendedElement(body, Body(f.ty), packed);
    if !packed && offset == last { AlignToSelf(last, f.ty.abi); }
  }

  /** If the body so far ends where the last field ended, the next field lands on its offset exactly
      when the struct is packed or the offset suits the type's natural alignment. */
  lemma {:induction false} FieldLands(body: seq<Element>, f: Field, last: nat, offset: nat, packed: bool)
    requires FieldOk(f) && last <= offset && EndOf(body, packed) == last
    requires !packed ==> Aligned(offset, f.tyAlign)
    ensures var body' := WithField(body, f, last, offset, packed);
            ElementOffset(body', packed, |body'| - 1) == offset <==> packed || Aligned(offset, f.ty.abi)
    ensures var body' := WithField(body, f, last, offset, packed);
            packed || Aligned(offset, f.ty.abi) ==> EndOf(body', packed) == offset + f.size
  {
    hide AlignTo, Aligned, ElementOffset, EndOf;
    if packed || Aligned(offset, f.ty.abi) {
      AlignedLands(body, f, last, offset, packed);
    } else {
      var body' := WithField(body, f, last, offset, packed);
      UnpackedOffsetAligned(body', |body'| - 1);
    }
  }

  lemma {:induction false} AlignedLands(body: seq<Element>, f: Field, last: nat, offset: nat, packed: bool)
    requires FieldOk(f) && last <= offset && EndOf(body, packed) == last
    requires !packed ==> Aligned(offset, f.tyAlign) && Aligned(offset, f.ty.abi)
    ensures var body' := WithField(body, f, last, offset, packed);
            ElementOffset(body', packed, |body'| - 1) == offset && EndOf(body', packed) == offset + f.size
  {
    hide AlignTo, Aligned, ElementOffset, EndOf;
    if offset != last && (packed || AlignTo(last, f.tyAlign) != offset) {
      var mid := body + [Padding(offset - last)];
      AppendedElement(body, Padding(offset - last), packed);
      ByteAligned(last);
      AlignToSelf(last, 0);
      AppendedElement(mid, Body(f.ty), packed);
      if !packed { AlignToSelf(offset, f.ty.abi); }
    } else {
      AppendedElement(body, Body(f.ty), packed);
      if !packed {
        if offset == last { AlignToSelf(offset, f.ty.abi); } else { NaturalGap(last, f.tyAlign, f.ty.abi, offset); }
      }
    }
  }
}
