/** The frame type builder: adding fields, and building a struct type whose own layout reproduces the
    offsets chosen. */
module FrameLayout {
  import opened Collections
  import opened StructLayout
  import opened SlotSharing

  // ----- the builder -----

  predicate IsHeader(f: Field) { f.offset.Some? }

  /** Header fields lie in order, aligned, apart from each other, and below the header's end. */
  ghost predicate HeaderOk(fields: seq<Field>, end: nat) {
    (forall i | 0 <= i < |fields| && IsHeader(fields[i]) ::
       Aligned(fields[i].offset.value, fields[i].align) && fields[i].offset.value + fields[i].size <= end)
    && forall i, j | 0 <= i < j < |fields| && IsHeader(fields[i]) && IsHeader(fields[j]) ::
         fields[i].offset.value + fields[i].size <= fields[j].offset.value
  }

  /** Two pieces of storage that share no byte. */
  predicate Apart(a: nat, asize: nat, b: nat, bsize: nat) {
    asize == 0 || bsize == 0 || a + asize <= b || b + bsize <= a
  }

  /** The field that holds a slot whose first member is this alloca. */
  predicate IsSlotField(f: Field, first: Alloca) {
    f.ty == Ty(first.size, first.abi) && f.size == first.size && f.align == first.align && f.tyAlign == first.abi
    && f.offset.None?
  }

  /** The slot owns one field, `from`, that every member has for its id; a slot of empty allocas owns
      none, and its members have id 0. */
  ghost predicate SlotHasField(allocas: seq<Alloca>, slot: seq<nat>, ids: map<nat, nat>, fields: seq<Field>,
                               from: nat, below: nat) {
    slot != [] && slot[0] < |allocas| && below <= |fields|
    && (if allocas[slot[0]].size == 0 then below == from
        else below == from + 1 && IsSlotField(fields[from], allocas[slot[0]]))
    && forall x | x in slot :: x in ids && ids[x] == if allocas[slot[0]].size == 0 then 0 else from
  }

  /** Slot s owns the fields in [bounds[s], bounds[s + 1]). */
  ghost predicate SlotFields(allocas: seq<Alloca>, slots: seq<seq<nat>>, ids: map<nat, nat>, fields: seq<Field>,
                             bounds: seq<nat>) {
    0 < |bounds| <= |slots| + 1
    && (forall s, t | 0 <= s <= t < |bounds| :: bounds[s] <= bounds[t])
    && forall s | 0 <= s < |bounds| - 1 :: SlotHasField(allocas, slots[s], ids, fields, bounds[s], bounds[s + 1])
  }

  predicate TypeAligned(fields: seq<Field>, layout: seq<Placed>) {
    forall i | 0 <= i < |layout| && layout[i].id < |fields| :: Aligned(layout[i].offset, fields[layout[i].id].tyAlign)
  }

  function EndBefore(fields: seq<Field>, layout: seq<Placed>, n: nat): nat
    requires ValidLayout(fields, layout) && n <= |layout|
  {
    if n == 0 then 0 else layout[n - 1].offset + fields[layout[n - 1].id].size
  }

  /** Field `id` sits in the body at its layout index. */
  predicate InBody(body: seq<Element>, f: Field) {
    f.layoutIndex < |body| && body[f.layoutIndex] == Body(f.ty)
  }

  /** The struct's own layout agrees with the offset assigned to the field. */
  predicate Lands(body: seq<Element>, packed: bool, f: Field) {
    f.offset.Some? && f.layoutIndex < |body| && ElementOffset(body, packed, f.layoutIndex) == f.offset.value
  }

  lemma LandsStays(body: seq<Element>, more: seq<Element>, packed: bool, f: Field)
    requires InBody(body, f)
    ensures InBody(body + more, f) && (Lands(body, packed, f) ==> Lands(body + more, packed, f))
  {
    OffsetOfPrefix(body, more, packed, f.layoutIndex);
  }

  /** `at` gives each field's offset in the layout. */
  ghost predicate At(fields: seq<Field>, layout: seq<Placed>, at: map<nat, nat>) {
    forall id | 0 <= id < |fields| :: id in at && Placed(id, at[id]) in layout
  }

  /** Two members of interfering allocas never overlap in the frame, and each is aligned. */
  lemma FrameIsSafe(allocas: seq<Alloca>, interferes: (nat, nat) -> bool, slots: seq<seq<nat>>, ids: map<nat, nat>,
                    fields: seq<Field>, bounds: seq<nat>, layout: seq<Placed>, at: map<nat, nat>, a: nat, b: nat)
    requires Partition(slots, |allocas|) && SlotsOk(allocas, interferes, slots)
    requires SlotFields(allocas, slots, ids, fields, bounds) && |bounds| == |slots| + 1
    requires ValidLayout(fields, layout) && At(fields, layout, at)
    requires a < |allocas| && b < |allocas| && a != b && (interferes(a, b) || interferes(b, a))
    requires forall x, y :: interferes(x, y) == interferes(y, x)
    requires allocas[a].size > 0 && allocas[b].size > 0
    ensures a in ids && b in ids && ids[a] in at && ids[b] in at
    ensures Apart(at[ids[a]], allocas[a].size, at[ids[b]], allocas[b].size)
    ensures Aligned(at[ids[a]], allocas[a].align)
  {
    hide Partition, SlotFields, ValidLayout, At, Aligned;
    var s := SlotOf(allocas, interferes, slots, ids, fields, bounds, a);
    var t := SlotOf(allocas, interferes, slots, ids, fields, bounds, b);
    assert SlotOk(allocas, interferes, slots[s]);
    if s == t {
      SlotMatesDoNotInterfere(allocas, interferes, slots[s], a, b);
      assert false;
    }
    BoundsApart(allocas, slots, ids, fields, bounds, s, t);
    assert ids[a] != ids[b];
    PlacedApart(fields, layout, at, ids[a], ids[b]);
    CoarserAligned(at[ids[a]], fields[ids[a]].align, allocas[a].align);
  }

  lemma SlotMatesDoNotInterfere(allocas: seq<Alloca>, interferes: (nat, nat) -> bool, slot: seq<nat>, a: nat, b: nat)
    requires SlotOk(allocas, interferes, slot) && a in slot && b in slot && a != b
    requires forall x, y :: interferes(x, y) == interferes(y, x)
    ensures !interferes(a, b) && !interferes(b, a)
  {
    var i :| 0 <= i < |slot| && slot[i] == a;
    var j :| 0 <= j < |slot| && slot[j] == b;
    assert i < j || j < i;
  }

  lemma SlotOf(allocas: seq<Alloca>, interferes: (nat, nat) -> bool, slots: seq<seq<nat>>, ids: map<nat, nat>,
               fields: seq<Field>, bounds: seq<nat>, a: nat)
    returns (s: nat)
    requires Partition(slots, |allocas|) && SlotsOk(allocas, interferes, slots)
    requires SlotFields(allocas, slots, ids, fields, bounds) && |bounds| == |slots| + 1
    requires a < |allocas| && allocas[a].size > 0
    ensures s < |slots| && a in slots[s] && a in ids && bounds[s] <= ids[a] < bounds[s + 1] && ids[a] < |fields|
    ensures allocas[a].size <= fields[ids[a]].size && allocas[a].align <= fields[ids[a]].align
  {
    assert InSomeSlot(slots, a);
    s :| 0 <= s < |slots| && a in slots[s];
    assert SlotOk(allocas, interferes, slots[s]);
    assert SlotHasField(allocas, slots[s], ids, fields, bounds[s], bounds[s + 1]);
  }

  lemma BoundsApart(allocas: seq<Alloca>, slots: seq<seq<nat>>, ids: map<nat, nat>, fields: seq<Field>,
                    bounds: seq<nat>, s: nat, t: nat)
    requires SlotFields(allocas, slots, ids, fields, bounds) && |bounds| == |slots| + 1 && s != t && s < |slots|
             && t < |slots|
    ensures bounds[s + 1] <= bounds[t] || bounds[t + 1] <= bounds[s]
  {
  }

  lemma PlacedApart(fields: seq<Field>, layout: seq<Placed>, at: map<nat, nat>, x: nat, y: nat)
    requires ValidLayout(fields, layout) && x < |fields| && y < |fields| && x != y
    requires At(fields, layout, at)
    ensures x in at && y in at
    ensures at[x] + fields[x].size <= at[y] || at[y] + fields[y].size <= at[x]
    ensures Aligned(at[x], fields[x].align)
  {
    var i :| 0 <= i < |layout| && layout[i] == Placed(x, at[x]);
    var j :| 0 <= j < |layout| && layout[j] == Placed(y, at[y]);
    assert i < j || j < i;
  }

  lemma SlotFieldsStart(allocas: seq<Alloca>, slots: seq<seq<nat>>, ids: map<nat, nat>, fields: seq<Field>,
                        bounds: seq<nat>)
    requires |bounds| == 1
    ensures SlotFields(allocas, slots, ids, fields, bounds)
  {
  }

  lemma SlotNonEmpty(allocas: seq<Alloca>, interferes: (nat, nat) -> bool, slots: seq<seq<nat>>, s: nat)
    requires SlotsOk(allocas, interferes, slots) && s < |slots|
    ensures slots[s] != [] && slots[s][0] < |allocas|
  {
    assert SlotOk(allocas, interferes, slots[s]);
  }

  /** Earlier slots keep their fields when the next slot gets one. */
  lemma SlotFieldsMore(allocas: seq<Alloca>, interferes: (nat, nat) -> bool, slots: seq<seq<nat>>, was: map<nat, nat>,
                       before: seq<Field>, bounds: seq<nat>, s: nat, id: nat, ids: map<nat, nat>, fields: seq<Field>)
    requires Partition(slots, |allocas|) && s < |slots| && |bounds| == s + 1 && bounds[s] == |before|
    requires SlotFields(allocas, slots, was, before, bounds) && before <= fields
    requires slots[s] != [] && slots[s][0] < |allocas|
    requires forall x :: x in ids <==> x in was || x in slots[s]
    requires forall x | x in ids :: ids[x] == if x in slots[s] then id else was[x]
    requires if allocas[slots[s][0]].size == 0 then id == 0
             else id == |before| == |fields| - 1 && IsSlotField(fields[id], allocas[slots[s][0]])
    requires allocas[slots[s][0]].size == 0 ==> |fields| == |before|
    ensures SlotFields(allocas, slots, ids, fields, bounds + [|fields|])
  {
    var bounds' := bounds + [|fields|];
    forall t | 0 <= t < |bounds'| - 1
      ensures SlotHasField(allocas, slots[t], ids, fields, bounds'[t], bounds'[t + 1])
    {
      if t < s {
        assert SlotHasField(allocas, slots[t], was, before, bounds[t], bounds[t + 1]);
        assert forall x | x in slots[t] :: x !in slots[s];
      }
    }
  }

  lemma SlotsUpTo(slots: seq<seq<nat>>, s: nat)
    requires s < |slots|
    ensures forall x: nat :: InSomeSlot(slots[..s + 1], x) <==> InSomeSlot(slots[..s], x) || x in slots[s]
  {
    forall x: nat ensures InSomeSlot(slots[..s + 1], x) <==> InSomeSlot(slots[..s], x) || x in slots[s] {
      if InSomeSlot(slots[..s], x) {
        var t :| 0 <= t < s && x in slots[..s][t];
        assert x in slots[..s + 1][t];
      }
      if x in slots[s] { assert x in slots[..s + 1][s]; }
      if InSomeSlot(slots[..s + 1], x) {
        var t :| 0 <= t <= s && x in slots[..s + 1][t];
        assert t < s ==> x in slots[..s][t];
      }
    }
  }

  lemma PartitionCovers(slots: seq<seq<nat>>, n: nat)
    requires Partition(slots, n)
    ensures forall x: nat :: InSomeSlot(slots, x) <==> x < n
  {
  }

  lemma WithFieldExtends(body: seq<Element>, f: Field, last: nat, offset: nat, packed: bool)
    requires last <= offset
    ensures body <= WithField(body, f, last, offset, packed)
    ensures WithField(body, f, last, offset, packed) == body + WithField(body, f, last, offset, packed)[|body|..]
  {
  }

  /** The first n placed fields are in the body, on their offsets unless an alignment was cut short. */
  ghost predicate SoFar(given: seq<Field>, layout: seq<Placed>, n: nat, fields: seq<Field>, body: seq<Element>,
                        packed: bool, last: nat)
    requires ValidLayout(given, layout) && n <= |layout|
  {
    |fields| == |given|
    && (forall id | 0 <= id < |fields| ::
        fields[id] == given[id].(offset := fields[id].offset, layoutIndex := fields[id].layoutIndex))
    && (forall i | 0 <= i < n ::
        fields[layout[i].id].offset == Some(layout[i].offset)
        && InBody(body, fields[layout[i].id]))
    && (packed || NaturallyAligned(given, layout) ==>
          EndOf(body, packed) == last && forall i | 0 <= i < n :: Lands(body, packed, fields[layout[i].id]))
  }

  lemma SoFarStart(given: seq<Field>, layout: seq<Placed>, packed: bool)
    requires ValidLayout(given, layout)
    ensures SoFar(given, layout, 0, given, [], packed, 0)
  {
  }

  lemma SoFarNext(given: seq<Field>, layout: seq<Placed>, n: nat, fields: seq<Field>, body: seq<Element>,
                  packed: bool, last: nat)
    requires ValidLayout(given, layout) && n < |layout| && SoFar(given, layout, n, fields, body, packed, last)
    requires last == EndBefore(given, layout, n) && (packed || TypeAligned(given, layout))
             && FieldOk(given[layout[n].id])
    ensures last <= layout[n].offset && layout[n].id < |fields|
    ensures fields[layout[n].id].size == given[layout[n].id].size
    ensures fields[layout[n].id].ty == given[layout[n].id].ty
            && fields[layout[n].id].tyAlign == given[layout[n].id].tyAlign
    ensures var f := fields[layout[n].id];
            var body' := WithField(body, f, last, layout[n].offset, packed);
            var placed := f.(offset := Some(layout[n].offset), layoutIndex := |body'| - 1);
            SoFar(given, layout, n + 1, fields[layout[n].id := placed], body', packed, layout[n].offset + f.size)
  {
    hide ElementOffset, EndOf, TypeAligned, NaturallyAligned;
    OffsetsInOrder(given, layout, n);
    var id, offset := layout[n].id, layout[n].offset;
    var f := fields[id];
    var body' := WithField(body, f, last, offset, packed);
    if packed || NaturallyAligned(given, layout) { NextFieldLands(given, layout, n, body, packed, f); }
    WithFieldExtends(body, f, last, offset, packed);
    forall i | 0 <= i < n
      ensures InBody(body', fields[layout[i].id])
      ensures Lands(body, packed, fields[layout[i].id]) ==> Lands(body', packed, fields[layout[i].id])
    {
      LandsStays(body, body'[|body|..], packed, fields[layout[i].id]);
    }
  }

  lemma SoFarDone(given: seq<Field>, layout: seq<Placed>, fields: seq<Field>, body: seq<Element>, packed: bool,
                  last: nat)
    requires ValidLayout(given, layout) && SoFar(given, layout, |layout|, fields, body, packed, last)
    ensures |fields| == |given|
    ensures forall id | 0 <= id < |fields| ::
            fields[id] == given[id].(offset := fields[id].offset, layoutIndex := fields[id].layoutIndex)
    ensures forall i | 0 <= i < |layout| :: layout[i].id < |fields|
    ensures forall i | 0 <= i < |layout| ::
            fields[layout[i].id].offset == Some(layout[i].offset)
            && InBody(body, fields[layout[i].id])
    ensures packed || NaturallyAligned(given, layout) ==> forall i | 0 <= i < |layout| ::
            Lands(body, packed, fields[layout[i].id])
  {
    hide ElementOffset, EndOf, NaturallyAligned;
  }

  lemma OffsetsInOrder(fields: seq<Field>, layout: seq<Placed>, n: nat)
    requires ValidLayout(fields, layout) && n < |layout|
    ensures layout[n].id < |fields| && EndBefore(fields, layout, n) <= layout[n].offset
    ensures forall i | 0 <= i < n :: layout[i].id != layout[n].id
  {
  }

  lemma {:induction false} NextFieldLands(fields: seq<Field>, layout: seq<Placed>, n: nat, body: seq<Element>,
                                          packed: bool, f: Field)
    requires ValidLayout(fields, layout) && n < |layout| && FieldOk(f)
    requires f.ty == fields[layout[n].id].ty && f.tyAlign == fields[layout[n].id].tyAlign
             && f.size == fields[layout[n].id].size
    requires EndBefore(fields, layout, n) <= layout[n].offset && EndOf(body, packed) == EndBefore(fields, layout, n)
    requires packed || (TypeAligned(fields, layout) && NaturallyAligned(fields, layout))
    ensures var body' := WithField(body, f, EndBefore(fields, layout, n), layout[n].offset, packed);
            ElementOffset(body', packed, |body'| - 1) == layout[n].offset
              && EndOf(body', packed) == layout[n].offset + f.size
  {
    hide ElementOffset, EndOf;
    FieldLands(body, f, EndBefore(fields, layout, n), layout[n].offset, packed);
  }

  lemma SomeFieldMisses(fields: seq<Field>, layout: seq<Placed>, body: seq<Element>, out: seq<Field>)
    requires ValidLayout(fields, layout) && !NaturallyAligned(fields, layout) && |out| == |fields|
    requires forall i | 0 <= i < |layout| ::
             out[layout[i].id].offset == Some(layout[i].offset)
             && InBody(body, out[layout[i].id])
             && out[layout[i].id].ty == fields[layout[i].id].ty
    ensures exists i :: 0 <= i < |layout| && !Lands(body, false, out[layout[i].id])
  {
    hide ElementOffset;
    var i :| 0 <= i < |layout| && !Aligned(layout[i].offset, fields[layout[i].id].ty.abi);
    UnpackedOffsetAligned(body, out[layout[i].id].layoutIndex);
    assert !Lands(body, false, out[layout[i].id]);
  }

  lemma UncappedIsNatural(fields: seq<Field>, layout: seq<Placed>)
    requires forall i | 0 <= i < |fields| :: fields[i].tyAlign == fields[i].ty.abi
    requires TypeAligned(fields, layout)
    ensures NaturallyAligned(fields, layout)
  {
  }

  lemma HeaderOkMore(fields: seq<Field>, end: nat, f: Field)
    requires HeaderOk(fields, end)
    requires IsHeader(f) ==> end <= f.offset.value && Aligned(f.offset.value, f.align)
    ensures HeaderOk(fields + [f], if IsHeader(f) then f.offset.value + f.size else end)
  {
  }

  /** The alignment the builder assumes a type has; only spills are capped. */
  function TypeAlignment(cap: Option<Align>, ty: Ty, isSpill: bool): Align {
    if isSpill && cap.Some? && cap.value < ty.abi then cap.value else ty.abi
  }

  /** The struct's elements after the first n placed fields. */
  function BodyUpTo(fields: seq<Field>, layout: seq<Placed>, packed: bool, n: nat): seq<Element>
    requires ValidLayout(fields, layout) && n <= |layout|
  {
    if n == 0 then []
    else
      OffsetsInOrder(fields, layout, n - 1);
      WithField(BodyUpTo(fields, layout, packed, n - 1), fields[layout[n - 1].id], EndBefore(fields, layout, n - 1),
                layout[n - 1].offset, packed)
  }

  lemma {:induction false} NothingPlaced(fields: seq<Field>, layout: seq<Placed>, packed: bool)
    requires ValidLayout(fields, layout)
    ensures BodyUpTo(fields, layout, packed, 0) == [] && EndBefore(fields, layout, 0) == 0
  {
  }

  lemma OneMorePlaced(fields: seq<Field>, layout: seq<Placed>, packed: bool, n: nat)
    requires ValidLayout(fields, layout) && n < |layout|
    ensures layout[n].id < |fields| && EndBefore(fields, layout, n) <= layout[n].offset
    ensures BodyUpTo(fields, layout, packed, n + 1)
         == WithField(BodyUpTo(fields, layout, packed, n), fields[layout[n].id], EndBefore(fields, layout, n),
                      layout[n].offset, packed)
    ensures EndBefore(fields, layout, n + 1) == layout[n].offset + fields[layout[n].id].size
  {
    hide ValidLayout;
    OffsetsInOrder(fields, layout, n);
  }

  /** Only a field's type and its alignment matter for the body. */
  lemma WithFieldSame(body: seq<Element>, f: Field, g: Field, last: nat, offset: nat, packed: bool)
    requires last <= offset && f.ty == g.ty && f.tyAlign == g.tyAlign
    ensures WithField(body, f, last, offset, packed) == WithField(body, g, last, offset, packed)
  {
  }

  /** When every field lands on its offset. */
  lemma LandingDecided(given: seq<Field>, layout: seq<Placed>, fields: seq<Field>, body: seq<Element>, packed: bool,
                       uncapped: bool)
    requires ValidLayout(given, layout) && |fields| == |given| && (packed <==> !TypeAligned(given, layout))
    requires forall id | 0 <= id < |fields| ::
               fields[id] == given[id].(offset := fields[id].offset, layoutIndex := fields[id].layoutIndex)
    requires forall i | 0 <= i < |layout| ::
               layout[i].id < |fields| && fields[layout[i].id].offset == Some(layout[i].offset)
               && InBody(body, fields[layout[i].id])
    requires packed || NaturallyAligned(given, layout) ==>
               forall i | 0 <= i < |layout| :: Lands(body, packed, fields[layout[i].id])
    requires uncapped ==> forall i | 0 <= i < |given| :: given[i].tyAlign == given[i].ty.abi
    ensures (forall i | 0 <= i < |layout| :: Lands(body, packed, fields[layout[i].id]))
       <==> packed || NaturallyAligned(given, layout)
    ensures uncapped ==> packed || NaturallyAligned(given, layout)
  {
    hide ElementOffset, EndOf, ValidLayout, TypeAligned, NaturallyAligned, InBody, Lands;
    if !packed && !NaturallyAligned(given, layout) { SomeFieldMisses(given, layout, body, fields); }
    if !packed && uncapped { UncappedIsNatural(given, layout); }
  }

  class FrameTypeBuilder {
    const maxFrameAlignment: Option<Align>
    var structSize: nat
    var isFinished: bool
    var fields: seq<Field>

    ghost predicate Building()
      reads this
    {
      !isFinished && HeaderOk(fields, structSize) && forall i | 0 <= i < |fields| ::
           FieldOk(fields[i]) && fields[i].size > 0
             && (maxFrameAlignment.None? ==> fields[i].tyAlign == fields[i].ty.abi)
    }

    constructor (maxFrameAlignment: Option<Align>)
      ensures Building() && fields == [] && structSize == 0 && this.maxFrameAlignment == maxFrameAlignment
    {
      this.maxFrameAlignment := maxFrameAlignment;
      structSize, isFinished, fields := 0, false, [];
    }

    /** Adds a field; storage of size zero gets none and points at field 0. */
    method AddField(ty: Ty, alignment: Option<Align>, isHeader: bool, isSpill: bool) returns (id: nat)
      requires Building()
      modifies this`structSize, this`fields
      ensures Building()
      ensures ty.size == 0 ==> id == 0 && fields == old(fields) && structSize == old(structSize)
      ensures ty.size > 0 ==> id == |old(fields)| && |fields| == id + 1 && fields[..id] == old(fields)
      ensures ty.size > 0 ==>
              fields[id].ty == ty && IsHeader(fields[id]) == isHeader
              && fields[id].tyAlign == TypeAlignment(maxFrameAlignment, ty, isSpill)
      ensures ty.size > 0 ==>
              if isSpill && maxFrameAlignment.Some?
              then fields[id].tyAlign <= maxFrameAlignment.value && fields[id].tyAlign <= ty.abi
                   && (fields[id].tyAlign == maxFrameAlignment.value || fields[id].tyAlign == ty.abi)
              else fields[id].tyAlign == ty.abi
      ensures ty.size > 0 ==> fields[id].align == if alignment.Some? then alignment.value
              else TypeAlignment(maxFrameAlignment, ty, isSpill)
      ensures isHeader && ty.size > 0 ==>
              old(structSize) <= fields[id].offset.value < old(structSize) + Bytes(fields[id].align)
      ensures structSize == if isHeader && ty.size > 0 then fields[id].offset.value + ty.size else old(structSize)
    {
      hide HeaderOk, Aligned, AlignTo;
      if ty.size == 0 {
        return 0;
      }
      var tyAlign := TypeAlignment(maxFrameAlignment, ty, isSpill);
      var fieldAlign := if alignment.Some? then alignment.value else tyAlign;
      var offset := None;
      if isHeader {
        AlignToAligned(structSize, fieldAlign);
        offset := Some(AlignTo(structSize, fieldAlign));
        structSize := offset.value + ty.size;
      }
      var f := Field(ty.size, offset, ty, 0, fieldAlign, tyAlign);
      HeaderOkMore(fields, old(structSize), f);
      fields := fields + [f];
      return |fields| - 1;
    }

    /** One field per slot, of the slot's first alloca; every member of the slot gets its id. */
    method AddFieldForAllocas(allocas: seq<Alloca>, interferes: (nat, nat) -> bool, reuse: bool)
      returns (ids: map<nat, nat>, slots: seq<seq<nat>>, order: seq<nat>, ghost bounds: seq<nat>)
      requires Building()
      modifies this`structSize, this`fields
      ensures Building() && old(fields) <= fields && structSize == old(structSize)
      ensures Partition(slots, |allocas|) && SlotsOk(allocas, interferes, slots)
      ensures Sharing(allocas, interferes, slots, order, reuse)
      ensures forall x: nat :: x in ids <==> x < |allocas|
      ensures |bounds| == |slots| + 1 && bounds[0] == |old(fields)| && bounds[|slots|] == |fields|
              && SlotFields(allocas, slots, ids, fields, bounds)
    {
      hide Partition, SlotsOk, HeaderOk, SlotHasField, SlotFields, Sharing;
      slots, order := ShareSlots(allocas, interferes, reuse);
      ids, bounds := map[], [|fields|];
      SlotFieldsStart(allocas, slots, ids, fields, bounds);
      for s := 0 to |slots|
        invariant Building() && old(fields) <= fields && structSize == old(structSize)
        invariant |bounds| == s + 1 && bounds[0] == |old(fields)| && bounds[s] == |fields|
        invariant SlotFields(allocas, slots, ids, fields, bounds)
        invariant forall x: nat :: x in ids <==> InSomeSlot(slots[..s], x)
      {
        SlotsUpTo(slots, s);
        SlotNonEmpty(allocas, interferes, slots, s);
        ghost var before, was := fields, ids;
        var first := allocas[slots[s][0]];
        var id := AddField(Ty(first.size, first.abi), Some(first.align), false, false);
        ids := SetFieldIndex(ids, slots[s], id);
        SlotFieldsMore(allocas, interferes, slots, was, before, bounds, s, id, ids, fields);
        bounds := bounds + [|fields|];
      }
      assert slots[..|slots|] == slots;
      PartitionCovers(slots, |allocas|);
    }

    /** Records the field id of every member of a slot. */
    method SetFieldIndex(ids0: map<nat, nat>, slot: seq<nat>, id: nat) returns (ids: map<nat, nat>)
      ensures forall x :: x in ids <==> x in ids0 || x in slot
      ensures forall x | x in ids :: ids[x] == if x in slot then id else ids0[x]
    {
      ids := ids0;
      for i := 0 to |slot|
        invariant forall x :: x in ids <==> x in ids0 || x in slot[..i]
        invariant forall x | x in ids :: ids[x] == if x in slot[..i] then id else ids0[x]
      {
        assert slot[..i + 1] == slot[..i] + [slot[i]];
        ids := ids[slot[i] := id];
      }
      assert slot[..|slot|] == slot;
    }

    /** Takes the optimiser's layout and builds the struct body. The struct's own layout reproduces
        every offset exactly when it is packed or no offset falls short of a type's alignment. */
    method Finish(layout: seq<Placed>, size: nat) returns (body: seq<Element>, packed: bool)
      requires Building() && ValidLayout(fields, layout)
      modifies this
      ensures isFinished && structSize == size && |fields| == |old(fields)|
      ensures forall id | 0 <= id < |fields| ::
                fields[id] == old(fields)[id].(offset := fields[id].offset, layoutIndex := fields[id].layoutIndex)
      ensures forall i | 0 <= i < |layout| ::
                layout[i].id < |fields| && fields[layout[i].id].offset == Some(layout[i].offset)
                  && InBody(body, fields[layout[i].id])
      ensures packed <==> !TypeAligned(old(fields), layout)
      ensures body == BodyUpTo(old(fields), layout, packed, |layout|)
      ensures (forall i | 0 <= i < |layout| :: Lands(body, packed, fields[layout[i].id]))
         <==> packed || NaturallyAligned(old(fields), layout)
      ensures maxFrameAlignment.None? ==> forall i | 0 <= i < |layout| :: Lands(body, packed, fields[layout[i].id])
    {
      hide HeaderOk, NaturallyAligned, ValidLayout, TypeAligned, SoFar, InBody, Lands, WithField, BodyUpTo, EndBefore;
      ghost var given := fields;
      structSize := size;
      packed := !TypeAligned(fields, layout);
      body := [];
      var last := 0;
      SoFarStart(given, layout, packed);
      NothingPlaced(given, layout, packed);
      for n := 0 to |layout|
        invariant !isFinished && structSize == size && |fields| == |given| && last == EndBefore(given, layout, n)
        invariant SoFar(given, layout, n, fields, body, packed, last)
        invariant body == BodyUpTo(given, layout, packed, n)
      {
        OffsetsInOrder(given, layout, n);
        SoFarNext(given, layout, n, fields, body, packed, last);
        OneMorePlaced(given, layout, packed, n);
        var id, offset := layout[n].id, layout[n].offset;
        var f := fields[id];
        WithFieldSame(body, f, given[id], last, offset, packed);
        var index;
        body, index := PlaceField(body, f, last, offset, packed);
        fields := fields[id := f.(offset := Some(offset), layoutIndex := index)];
        last := offset + f.size;
      }
      SoFarDone(given, layout, fields, body, packed, last);
      LandingDecided(given, layout, fields, body, packed, maxFrameAlignment.None?);
      isFinished := true;
    }

    /** Adds a field to the body, after a padding gap if one is needed. */
    method PlaceField(body: seq<Element>, f: Field, last: nat, offset: nat, packed: bool)
      returns (body': seq<Element>, index: nat)
      requires last <= offset
      ensures body' == WithField(body, f, last, offset, packed) && index == |body'| - 1
    {
      body', index := body, |body|;
      if offset != last && (packed || AlignTo(last, f.tyAlign) != offset) {
        body', index := body' + [Padding(offset - last)], index + 1;
      }
      body' := body' + [Body(f.ty)];
    }
  }
}
