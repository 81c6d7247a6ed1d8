/** Letting allocas that are never live together share a slot of the frame. */
module SlotSharing {
  import opened Collections
  import opened Bits
  import opened StructLayout

  datatype Alloca = Alloca(size: nat, abi: Align, align: Align)

  ghost predicate InSomeSlot(slots: seq<seq<nat>>, a: nat) {
    exists s :: 0 <= s < |slots| && a in slots[s]
  }

  /** `slots` splits the allocas named below n into slots, each in placement order. */
  ghost predicate Partition(slots: seq<seq<nat>>, n: nat) {
    (forall s | 0 <= s < |slots| :: slots[s] != [])
    && (forall s, x | 0 <= s < |slots| && x in slots[s] :: x < n)
    && (forall a | 0 <= a < n :: InSomeSlot(slots, a))
    && (forall s, t, x | 0 <= s < t < |slots| && x in slots[s] :: x !in slots[t])
  }

  /** The first member of every slot can hold each of the others, and no two of them interfere. */
  ghost predicate SlotOk(allocas: seq<Alloca>, interferes: (nat, nat) -> bool, slot: seq<nat>) {
    slot != [] && slot[0] < |allocas| && (forall x | x in slot :: x < |allocas|)
    && (forall x | x in slot :: allocas[x].size <= allocas[slot[0]].size && allocas[x].align <= allocas[slot[0]].align)
    && forall i, j | 0 <= i < j < |slot| :: slot[i] != slot[j] && !interferes(slot[j], slot[i])
  }

  ghost predicate SlotsOk(allocas: seq<Alloca>, interferes: (nat, nat) -> bool, slots: seq<seq<nat>>) {
    forall s | 0 <= s < |slots| :: SlotOk(allocas, interferes, slots[s])
  }

  predicate LargestFirst(allocas: seq<Alloca>) {
    forall i, j | 0 <= i < j < |allocas| :: allocas[i].size >= allocas[j].size
  }

  /** Whether alloca a may join a slot: it meets no member, and the first member's alignment is a
      multiple of its own. */
  predicate CouldMerge(allocas: seq<Alloca>, interferes: (nat, nat) -> bool, slot: seq<nat>, a: nat)
    requires slot != [] && a < |allocas| && slot[0] < |allocas|
  {
    (forall x | x in slot :: !interferes(a, x)) && Bytes(allocas[slot[0]].align) % Bytes(allocas[a].align) == 0
  }

  /** Alloca a could not join the slot as it stood: some earlier member meets a, or the first one's
      alignment will not do. */
  ghost predicate Blocked(allocas: seq<Alloca>, interferes: (nat, nat) -> bool, slot: seq<nat>, a: nat) {
    slot != [] && slot[0] < a < |allocas|
    && (Bytes(allocas[slot[0]].align) % Bytes(allocas[a].align) != 0
        || exists x :: x in slot && x < a && interferes(a, x))
  }

  /** Every alloca is in the first slot that could take it. */
  ghost predicate FirstFit(allocas: seq<Alloca>, interferes: (nat, nat) -> bool, slots: seq<seq<nat>>) {
    forall t, s, a | 0 <= t < s < |slots| && a in slots[s] :: Blocked(allocas, interferes, slots[t], a)
  }

  lemma FirstFitEmpty(allocas: seq<Alloca>, interferes: (nat, nat) -> bool)
    ensures FirstFit(allocas, interferes, [])
  {
  }

  lemma NotMergedIsBlocked(allocas: seq<Alloca>, interferes: (nat, nat) -> bool, slot: seq<nat>, a: nat)
    requires slot != [] && a < |allocas| && forall x | x in slot :: x < a
    requires slot[0] < |allocas| && !CouldMerge(allocas, interferes, slot, a)
    ensures Blocked(allocas, interferes, slot, a)
  {
    assert slot[0] in slot;
  }

  lemma FirstFitJoin(allocas: seq<Alloca>, interferes: (nat, nat) -> bool, slots: seq<seq<nat>>, a: nat, s: nat)
    requires FirstFit(allocas, interferes, slots) && s < |slots| && a < |allocas|
    requires forall t | 0 <= t < s :: Blocked(allocas, interferes, slots[t], a)
    ensures FirstFit(allocas, interferes, slots[s := slots[s] + [a]])
  {
    var more := slots[s := slots[s] + [a]];
    forall t, u, b | 0 <= t < u < |more| && b in more[u] ensures Blocked(allocas, interferes, more[t], b) {
      assert b in slots[u] || (u == s && b == a);
      assert Blocked(allocas, interferes, slots[t], b);
    }
  }

  lemma FirstFitNew(allocas: seq<Alloca>, interferes: (nat, nat) -> bool, slots: seq<seq<nat>>, a: nat)
    requires FirstFit(allocas, interferes, slots) && a < |allocas|
    requires forall t | 0 <= t < |slots| :: Blocked(allocas, interferes, slots[t], a)
    ensures FirstFit(allocas, interferes, slots + [[a]])
  {
  }

  lemma AlignableOrder(a: Align, b: Align)
    requires Bytes(a) % Bytes(b) == 0
    ensures b <= a
  {
    if b > a {
      Pow2Monotone(a + 1, b);
      QuotientIsUnique(0, Bytes(b), Bytes(a));
      assert false;
    }
  }

  lemma JoinSlot(allocas: seq<Alloca>, interferes: (nat, nat) -> bool, slot: seq<nat>, a: nat)
    requires SlotOk(allocas, interferes, slot) && a < |allocas| && LargestFirst(allocas)
    requires forall x | x in slot :: x < a
    requires CouldMerge(allocas, interferes, slot, a)
    ensures SlotOk(allocas, interferes, slot + [a])
  {
    AlignableOrder(allocas[slot[0]].align, allocas[a].align);
    assert slot[0] in slot;
  }

  lemma PartitionJoin(slots: seq<seq<nat>>, n: nat, s: nat)
    requires Partition(slots, n) && s < |slots|
    ensures Partition(slots[s := slots[s] + [n]], n + 1)
  {
    var slots' := slots[s := slots[s] + [n]];
    forall a | 0 <= a <= n ensures InSomeSlot(slots', a) {
      if a == n {
        assert n in slots'[s];
      } else {
        assert InSomeSlot(slots, a);
        var t :| 0 <= t < |slots| && a in slots[t];
        assert a in slots'[t];
      }
    }
  }

  lemma PartitionNew(slots: seq<seq<nat>>, n: nat)
    requires Partition(slots, n)
    ensures Partition(slots + [[n]], n + 1)
  {
    var slots' := slots + [[n]];
    forall a | 0 <= a <= n ensures InSomeSlot(slots', a) {
      if a == n {
        assert n in slots'[|slots|];
      } else {
        assert InSomeSlot(slots, a);
        var t :| 0 <= t < |slots| && a in slots[t];
        assert a in slots'[t];
      }
    }
  }

  lemma PartitionEmpty()
    ensures Partition([], 0)
  {
  }

  lemma SlotFacts(allocas: seq<Alloca>, interferes: (nat, nat) -> bool, slots: seq<seq<nat>>, a: nat, t: nat)
    requires Partition(slots, a) && SlotsOk(allocas, interferes, slots) && t < |slots|
    ensures slots[t] != [] && slots[t][0] < |allocas| && forall x | x in slots[t] :: x < a
  {
  }

  lemma SingletonSlot(allocas: seq<Alloca>, interferes: (nat, nat) -> bool, a: nat)
    requires a < |allocas|
    ensures SlotOk(allocas, interferes, [a])
  {
  }

  /** Splits allocas given largest first into slots greedily; one slot each when reuse is off. */
  method ShareInOrder(allocas: seq<Alloca>, interferes: (nat, nat) -> bool, reuse: bool) returns (slots: seq<seq<nat>>)
    requires reuse ==> LargestFirst(allocas)
    ensures Partition(slots, |allocas|) && SlotsOk(allocas, interferes, slots)
    ensures reuse ==> FirstFit(allocas, interferes, slots)
    ensures !reuse ==> forall s | 0 <= s < |slots| :: |slots[s]| == 1
  {
    hide Partition, LargestFirst, SlotOk, FirstFit, Blocked;
    slots := [];
    FirstFitEmpty(allocas, interferes);
    PartitionEmpty();
    for a := 0 to |allocas|
      invariant Partition(slots, a) && SlotsOk(allocas, interferes, slots)
      invariant reuse ==> FirstFit(allocas, interferes, slots)
      invariant !reuse ==> forall s | 0 <= s < |slots| :: |slots[s]| == 1
    {
      var s := 0;
      forall t | 0 <= t < |slots|
        ensures slots[t] != [] && slots[t][0] < |allocas| && forall x | x in slots[t] :: x < a
      {
        SlotFacts(allocas, interferes, slots, a, t);
      }
      while reuse && s < |slots| && !CouldMerge(allocas, interferes, slots[s], a)
        invariant 0 <= s <= |slots|
        invariant forall t | 0 <= t < s :: Blocked(allocas, interferes, slots[t], a)
      {
        NotMergedIsBlocked(allocas, interferes, slots[s], a);
        s := s + 1;
      }
      if reuse && s < |slots| {
        JoinSlot(allocas, interferes, slots[s], a);
        PartitionJoin(slots, a, s);
        FirstFitJoin(allocas, interferes, slots, a, s);
        slots := slots[s := slots[s] + [a]];
      } else {
        PartitionNew(slots, a);
        if reuse {
          FirstFitNew(allocas, interferes, slots, a);
        }
        SingletonSlot(allocas, interferes, a);
        slots := slots + [[a]];
      }
    }
  }

  // ----- putting larger allocas first -----

  predicate Within(order: seq<nat>, n: nat) { forall i | 0 <= i < |order| :: order[i] < n }

  /** `order` lists the numbers below n, each once. */
  ghost predicate IsOrder(order: seq<nat>, n: nat) {
    |order| == n && Distinct(order) && Within(order, n) && forall a: nat | a < n :: Listed(order, a)
  }

  ghost predicate Listed(order: seq<nat>, a: nat) { exists i :: 0 <= i < |order| && order[i] == a }

  /** Sizes fall along the order. */
  ghost predicate SizesFall(allocas: seq<Alloca>, order: seq<nat>) {
    Within(order, |allocas|) && forall i, j | 0 <= i < j < |order| :: allocas[order[i]].size >= allocas[order[j]].size
  }

  function Reordered(allocas: seq<Alloca>, order: seq<nat>): (r: seq<Alloca>)
    requires Within(order, |allocas|)
    ensures |r| == |order|
  {
    seq(|order|, i requires 0 <= i < |order| => allocas[order[i]])
  }

  /** Interference between places in the order. */
  function Renamed(interferes: (nat, nat) -> bool, order: seq<nat>): (nat, nat) -> bool {
    (i: nat, j: nat) => i < |order| && j < |order| && interferes(order[i], order[j])
  }

  /** Sorts the allocas by decreasing size. */
  method SortBySize(allocas: seq<Alloca>) returns (order: seq<nat>)
    ensures IsOrder(order, |allocas|) && SizesFall(allocas, order)
  {
    hide IsOrder, SizesFall;
    order := [];
    EmptyOrder(allocas);
    for a := 0 to |allocas|
      invariant IsOrder(order, a) && SizesFall(allocas, order)
    {
      OrderFacts(order, a);
      var i := |order|;
      while i > 0 && allocas[order[i - 1]].size < allocas[a].size
        invariant 0 <= i <= |order|
        invariant forall k | i <= k < |order| :: allocas[order[k]].size < allocas[a].size
      {
        i := i - 1;
      }
      InsertKeepsOrder(order, a, i);
      InsertKeepsSizes(allocas, order, a, i);
      order := order[..i] + [a] + order[i..];
    }
  }

  lemma EmptyOrder(allocas: seq<Alloca>)
    ensures IsOrder([], 0) && SizesFall(allocas, [])
  {
  }

  lemma OrderFacts(order: seq<nat>, n: nat)
    requires IsOrder(order, n)
    ensures |order| == n && Within(order, n)
  {
  }

  lemma InsertKeepsOrder(order: seq<nat>, a: nat, i: nat)
    requires IsOrder(order, a) && i <= |order|
    ensures IsOrder(order[..i] + [a] + order[i..], a + 1)
  {
    var more := order[..i] + [a] + order[i..];
    forall b: nat | b <= a ensures Listed(more, b) {
      if b == a {
        assert more[i] == a;
      } else {
        assert Listed(order, b);
        var k :| 0 <= k < |order| && order[k] == b;
        assert more[if k < i then k else k + 1] == b;
      }
    }
  }

  lemma InsertKeepsSizes(allocas: seq<Alloca>, order: seq<nat>, a: nat, i: nat)
    requires SizesFall(allocas, order) && a < |allocas| && i <= |order|
    requires forall k | i <= k < |order| :: allocas[order[k]].size < allocas[a].size
    requires i > 0 ==> allocas[order[i - 1]].size >= allocas[a].size
    ensures SizesFall(allocas, order[..i] + [a] + order[i..])
  {
    var more := order[..i] + [a] + order[i..];
    forall k | 0 <= k < i ensures allocas[order[k]].size >= allocas[a].size {
      assert k < i - 1 ==> allocas[order[k]].size >= allocas[order[i - 1]].size;
    }
  }

  lemma FallIsLargestFirst(allocas: seq<Alloca>, order: seq<nat>)
    requires SizesFall(allocas, order)
    ensures LargestFirst(Reordered(allocas, order))
  {
  }

  // ----- back to the allocas' own numbers -----

  predicate AllWithin(slots: seq<seq<nat>>, n: nat) { forall s | 0 <= s < |slots| :: Within(slots[s], n) }

  function RenumberSlot(slot: seq<nat>, order: seq<nat>): (r: seq<nat>)
    requires Within(slot, |order|)
    ensures |r| == |slot|
  {
    seq(|slot|, k requires 0 <= k < |slot| => order[slot[k]])
  }

  function Renumbered(places: seq<seq<nat>>, order: seq<nat>): (r: seq<seq<nat>>)
    requires AllWithin(places, |order|)
    ensures |r| == |places|
  {
    seq(|places|, s requires 0 <= s < |places| => RenumberSlot(places[s], order))
  }

  lemma RenumberedHas(slot: seq<nat>, order: seq<nat>, i: nat)
    requires Within(slot, |order|) && i in slot
    ensures i < |order| && order[i] in RenumberSlot(slot, order)
  {
    var k :| 0 <= k < |slot| && slot[k] == i;
    assert RenumberSlot(slot, order)[k] == order[i];
  }

  lemma RenumberedFrom(slot: seq<nat>, order: seq<nat>, x: nat) returns (i: nat)
    requires Within(slot, |order|) && x in RenumberSlot(slot, order)
    ensures i in slot && i < |order| && order[i] == x
  {
    var k :| 0 <= k < |slot| && RenumberSlot(slot, order)[k] == x;
    i := slot[k];
  }

  lemma RenumberedPartition(places: seq<seq<nat>>, order: seq<nat>, n: nat)
    requires Partition(places, n) && IsOrder(order, n) && AllWithin(places, |order|)
    ensures Partition(Renumbered(places, order), n)
  {
    var slots := Renumbered(places, order);
    forall s | 0 <= s < |slots| ensures slots[s] != [] {
      assert places[s] != [];
    }
    forall a | 0 <= a < n ensures InSomeSlot(slots, a) {
      assert Listed(order, a);
      var i :| 0 <= i < |order| && order[i] == a;
      assert InSomeSlot(places, i);
      var s :| 0 <= s < |places| && i in places[s];
      RenumberedHas(places[s], order, i);
      assert a in slots[s];
    }
    forall s, t, x | 0 <= s < t < |slots| && x in slots[s] ensures x !in slots[t] {
      var i := RenumberedFrom(places[s], order, x);
      if x in slots[t] {
        var j := RenumberedFrom(places[t], order, x);
      }
    }
    forall s, x | 0 <= s < |slots| && x in slots[s] ensures x < n {
      var i := RenumberedFrom(places[s], order, x);
    }
  }

  lemma RenumberedOk(allocas: seq<Alloca>, interferes: (nat, nat) -> bool, places: seq<seq<nat>>, order: seq<nat>)
    requires Within(order, |allocas|) && Distinct(order) && AllWithin(places, |order|)
    requires SlotsOk(Reordered(allocas, order), Renamed(interferes, order), places)
    ensures SlotsOk(allocas, interferes, Renumbered(places, order))
  {
    forall s | 0 <= s < |places| ensures SlotOk(allocas, interferes, Renumbered(places, order)[s]) {
      assert SlotOk(Reordered(allocas, order), Renamed(interferes, order), places[s]);
      RenumberedSlotOk(allocas, interferes, places[s], order);
    }
  }

  lemma RenumberedSlotOk(allocas: seq<Alloca>, interferes: (nat, nat) -> bool, slot: seq<nat>, order: seq<nat>)
    requires Within(order, |allocas|) && Distinct(order) && Within(slot, |order|)
    requires SlotOk(Reordered(allocas, order), Renamed(interferes, order), slot)
    ensures SlotOk(allocas, interferes, RenumberSlot(slot, order))
  {
    var r := RenumberSlot(slot, order);
    assert slot[0] in slot;
    forall x | x in r
      ensures x < |allocas| && allocas[x].size <= allocas[r[0]].size && allocas[x].align <= allocas[r[0]].align
    {
      var i := RenumberedFrom(slot, order, x);
      assert Reordered(allocas, order)[i] == allocas[x];
    }
    forall i, j | 0 <= i < j < |r| ensures r[i] != r[j] && !interferes(r[j], r[i]) {
      assert slot[i] != slot[j] && !Renamed(interferes, order)(slot[j], slot[i]);
    }
  }

  lemma PartitionWithin(slots: seq<seq<nat>>, n: nat)
    requires Partition(slots, n)
    ensures AllWithin(slots, n)
  {
    forall s, k | 0 <= s < |slots| && 0 <= k < |slots[s]| ensures slots[s][k] < n {
      assert slots[s][k] in slots[s];
    }
  }

  /** x comes before a in the order. */
  ghost predicate Precedes(order: seq<nat>, x: nat, a: nat) {
    exists i, j :: 0 <= i < j < |order| && order[i] == x && order[j] == a
  }

  /** Alloca a could not join the slot when its turn came: the alignment of the slot's first member is no
      multiple of its own, or it interferes with a member placed before. */
  ghost predicate KeptOut(allocas: seq<Alloca>, interferes: (nat, nat) -> bool, slot: seq<nat>, order: seq<nat>,
                          a: nat) {
    slot != [] && slot[0] < |allocas| && a < |allocas|
    && (Bytes(allocas[slot[0]].align) % Bytes(allocas[a].align) != 0
        || exists x :: x in slot && Precedes(order, x, a) && interferes(a, x))
  }

  /** How slots are shared: taken in an order of falling size, every alloca is in the first slot that could
      take it; without reuse each has a slot to itself. */
  ghost predicate Sharing(allocas: seq<Alloca>, interferes: (nat, nat) -> bool, slots: seq<seq<nat>>, order: seq<nat>,
                          reuse: bool) {
    IsOrder(order, |allocas|)
    && if reuse
       then SizesFall(allocas, order)
            && forall t, s, a | 0 <= t < s < |slots| && a in slots[s] ::
                 KeptOut(allocas, interferes, slots[t], order, a)
       else forall s | 0 <= s < |slots| :: |slots[s]| == 1
  }

  lemma RenumberedFirstFit(allocas: seq<Alloca>, interferes: (nat, nat) -> bool, places: seq<seq<nat>>, order: seq<nat>)
    requires IsOrder(order, |allocas|) && AllWithin(places, |order|)
    requires FirstFit(Reordered(allocas, order), Renamed(interferes, order), places)
    ensures var slots := Renumbered(places, order);
            forall t, s, a | 0 <= t < s < |slots| && a in slots[s] :: KeptOut(allocas, interferes, slots[t], order, a)
  {
    hide Blocked, KeptOut, Bytes;
    var slots := Renumbered(places, order);
    forall t, s, a | 0 <= t < s < |slots| && a in slots[s] ensures KeptOut(allocas, interferes, slots[t], order, a) {
      var j := RenumberedFrom(places[s], order, a);
      assert Blocked(Reordered(allocas, order), Renamed(interferes, order), places[t], j);
      BlockedIsKeptOut(allocas, interferes, places[t], order, j);
    }
  }

  lemma BlockedIsKeptOut(allocas: seq<Alloca>, interferes: (nat, nat) -> bool, slot: seq<nat>, order: seq<nat>, j: nat)
    requires Within(order, |allocas|) && Within(slot, |order|) && j < |order|
    requires Blocked(Reordered(allocas, order), Renamed(interferes, order), slot, j)
    ensures KeptOut(allocas, interferes, RenumberSlot(slot, order), order, order[j])
  {
    hide Bytes;
    if x :| x in slot && x < j && Renamed(interferes, order)(j, x) {
      RenumberedHas(slot, order, x);
      assert Precedes(order, order[x], order[j]);
    }
  }

  /** Sorts the allocas by size if slots are to be reused, and shares slots in that order. */
  method ShareSlots(allocas: seq<Alloca>, interferes: (nat, nat) -> bool, reuse: bool)
    returns (slots: seq<seq<nat>>, order: seq<nat>)
    ensures Partition(slots, |allocas|) && SlotsOk(allocas, interferes, slots)
    ensures Sharing(allocas, interferes, slots, order, reuse)
  {
    hide Partition, SlotOk, FirstFit, IsOrder, SizesFall, LargestFirst, KeptOut;
    if reuse {
      order := SortBySize(allocas);
      OrderFacts(order, |allocas|);
      FallIsLargestFirst(allocas, order);
    } else {
      order := seq(|allocas|, a requires 0 <= a => a);
      AsGiven(|allocas|);
    }
    OrderFacts(order, |allocas|);
    assert Distinct(order) by { OrderDistinct(order, |allocas|); }
    var places := ShareInOrder(Reordered(allocas, order), Renamed(interferes, order), reuse);
    PartitionWithin(places, |allocas|);
    RenumberedPartition(places, order, |allocas|);
    RenumberedOk(allocas, interferes, places, order);
    if reuse { RenumberedFirstFit(allocas, interferes, places, order); }
    slots := Renumbered(places, order);
  }

  lemma OrderDistinct(order: seq<nat>, n: nat)
    requires IsOrder(order, n)
    ensures Distinct(order)
  {
  }

  lemma AsGiven(n: nat)
    ensures IsOrder(seq(n, a requires 0 <= a => a), n)
  {
    var order := seq(n, a requires 0 <= a => a);
    forall a: nat | a < n ensures Listed(order, a) { assert order[a] == a; }
  }
}
