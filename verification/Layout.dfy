/** How mp_logger_allocate_buffers carves six flat arrays into slots and fields. */
module Layout {
  import opened Records

  // Offsets, written as the source computes them.

  function MessageAt(caps: Capacities, slot: nat): nat {
    slot * caps.message
  }

  function ContextAt(caps: Capacities, slot: nat): nat {
    slot * caps.context
  }

  function CellAt(caps: Capacities, slot: nat, field: nat): nat {
    slot * caps.fields + field
  }

  function KeyAt(caps: Capacities, slot: nat, field: nat): nat {
    slot * caps.fields * caps.key + field * caps.key
  }

  function TextAt(caps: Capacities, slot: nat, field: nat): nat {
    slot * caps.fields * caps.value + field * caps.value
  }

  /** The half-open regions [a, a + size) and [b, b + size) share no index. */
  predicate Apart(a: nat, b: nat, size: nat) {
    a + size <= b || b + size <= a
  }

  lemma StrideEnds(i: nat, size: nat, n: nat)
    requires i < n
    ensures i * size + size <= n * size
  {
    assert n * size == (i + 1) * size + (n - 1 - i) * size;
  }

  lemma StridesAreApart(i: nat, j: nat, size: nat, n: nat)
    requires i < n && j < n
    ensures i * size + size <= n * size
    ensures i != j ==> Apart(i * size, j * size, size)
  {
    StrideEnds(i, size, n);
    if i < j {
      StrideEnds(i, size, j);
    } else if j < i {
      StrideEnds(j, size, i);
    }
  }

  lemma CellsAreDistinct(caps: Capacities, n: nat, i: nat, k: nat, i': nat, k': nat)
    requires i < n && i' < n && k < caps.fields && k' < caps.fields
    ensures CellAt(caps, i, k) < n * caps.fields
    ensures (i, k) != (i', k') ==> CellAt(caps, i, k) != CellAt(caps, i', k')
  {
    StridesAreApart(i, i', caps.fields, n);
  }

  /** A field's key and string regions are strides of its cell number. */
  lemma RegionsFollowCells(caps: Capacities, slot: nat, field: nat)
    ensures KeyAt(caps, slot, field) == CellAt(caps, slot, field) * caps.key
    ensures TextAt(caps, slot, field) == CellAt(caps, slot, field) * caps.value
  {
    assert slot * caps.fields * caps.key + field * caps.key == (slot * caps.fields + field) * caps.key;
    assert slot * caps.fields * caps.value + field * caps.value == (slot * caps.fields + field) * caps.value;
  }

  /** The carving is a partition: in arrays for n slots every message, context, key and string
      region lies in bounds, and regions of different slots or fields never meet. */
  lemma CarvingIsPartition(caps: Capacities, n: nat, i: nat, k: nat, i': nat, k': nat)
    requires i < n && i' < n && k < caps.fields && k' < caps.fields
    ensures MessageAt(caps, i) + caps.message <= n * caps.message
    ensures ContextAt(caps, i) + caps.context <= n * caps.context
    ensures CellAt(caps, i, k) < n * caps.fields
    ensures KeyAt(caps, i, k) + caps.key <= n * caps.fields * caps.key
    ensures TextAt(caps, i, k) + caps.value <= n * caps.fields * caps.value
    ensures i != i' ==>
              && Apart(MessageAt(caps, i), MessageAt(caps, i'), caps.message)
              && Apart(ContextAt(caps, i), ContextAt(caps, i'), caps.context)
    ensures (i, k) != (i', k') ==>
              && CellAt(caps, i, k) != CellAt(caps, i', k')
              && Apart(KeyAt(caps, i, k), KeyAt(caps, i', k'), caps.key)
              && Apart(TextAt(caps, i, k), TextAt(caps, i', k'), caps.value)
  {
    StridesAreApart(i, i', caps.message, n);
    StridesAreApart(i, i', caps.context, n);
    CellsAreDistinct(caps, n, i, k, i', k');
    CellsAreDistinct(caps, n, i', k', i, k);
    RegionsFollowCells(caps, i, k);
    RegionsFollowCells(caps, i', k');
    StridesAreApart(CellAt(caps, i, k), CellAt(caps, i', k'), caps.key, n * caps.fields);
    StridesAreApart(CellAt(caps, i, k), CellAt(caps, i', k'), caps.value, n * caps.fields);
  }

  // The share of one slot in the three field arrays.

  function SlotCellsAt(caps: Capacities, slot: nat): nat {
    slot * caps.fields
  }

  function SlotKeysAt(caps: Capacities, slot: nat): nat {
    slot * (caps.fields * caps.key)
  }

  function SlotTextsAt(caps: Capacities, slot: nat): nat {
    slot * (caps.fields * caps.value)
  }

  lemma FieldLiesInSlot(caps: Capacities, slot: nat, k: nat)
    requires k < caps.fields
    ensures SlotCellsAt(caps, slot) <= CellAt(caps, slot, k) < SlotCellsAt(caps, slot) + caps.fields
    ensures SlotKeysAt(caps, slot) <= KeyAt(caps, slot, k)
    ensures KeyAt(caps, slot, k) + caps.key <= SlotKeysAt(caps, slot) + caps.fields * caps.key
    ensures SlotTextsAt(caps, slot) <= TextAt(caps, slot, k)
    ensures TextAt(caps, slot, k) + caps.value <= SlotTextsAt(caps, slot) + caps.fields * caps.value
  {
    StrideEnds(k, caps.key, caps.fields);
    StrideEnds(k, caps.value, caps.fields);
    assert slot * caps.fields * caps.key == slot * (caps.fields * caps.key);
    assert slot * caps.fields * caps.value == slot * (caps.fields * caps.value);
  }

  lemma SlotsAreApart(caps: Capacities, n: nat, i: nat, i': nat)
    requires i < n && i' < n && i != i'
    ensures Apart(SlotCellsAt(caps, i), SlotCellsAt(caps, i'), caps.fields)
    ensures Apart(SlotKeysAt(caps, i), SlotKeysAt(caps, i'), caps.fields * caps.key)
    ensures Apart(SlotTextsAt(caps, i), SlotTextsAt(caps, i'), caps.fields * caps.value)
  {
    StridesAreApart(i, i', caps.fields, n);
    StridesAreApart(i, i', caps.fields * caps.key, n);
    StridesAreApart(i, i', caps.fields * caps.value, n);
  }
}
