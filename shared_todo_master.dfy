/** The types shared by the client and the server of the jug-based chemistry
    master: the slot roles, the amount buttons and their fixed-point quantities,
    the three UI messages and the UI state the server sends back. */
module SharedTodoMaster {
  import opened Wrappers

  /** The three slot roles. Primary and Secondary are the two fixed container
      slots; Buffer is the internal multi-slot storage. */
  datatype Slot = Primary | Secondary | Buffer

  /** A TODOMasterSlot as a message delivers it: the enum's underlying integer,
      which need not name one of the three roles. */
  type RawSlot = int

  /** The integer behind each role: implicit enum numbering from 0. */
  function SlotValue(s: Slot): (v: RawSlot)
    ensures 0 <= v < 3
  {
    match s
    case Primary => 0
    case Secondary => 1
    case Buffer => 2
  }

  /** `Enum.IsDefined` followed by the cast: the role an integer names, if any.
      Exactly the three integers 0, 1 and 2 name a role. */
  function SlotFromValue(v: RawSlot): (r: Option<Slot>)
    ensures r.Some? <==> 0 <= v < 3
    ensures r.Some? ==> SlotValue(r.value) == v
  {
    if v == 0 then Some(Primary)
    else if v == 1 then Some(Secondary)
    else if v == 2 then Some(Buffer)
    else None
  }

  /** Decoding undoes the numbering: the enum has no two roles with one value. */
  lemma SlotValueRoundTrip(s: Slot)
    ensures SlotFromValue(SlotValue(s)) == Some(s)
  {
  }

  /** The amount buttons. */
  datatype ReagentAmount = U1 | U5 | U10 | U25 | U50 | U100 | All

  /** `(int)amount`: the explicit values 1 to 100 and, for `All`, the implicit
      successor of `U100`. */
  function AmountValue(a: ReagentAmount): (n: int)
    ensures 1 <= n <= 101
    ensures n == 101 <==> a == All
  {
    match a
    case U1 => 1
    case U5 => 5
    case U10 => 10
    case U25 => 25
    case U50 => 50
    case U100 => 100
    case All => 101
  }

  /** `All` carries no explicit value, so it takes the one after `U100`. */
  lemma AllFollowsU100()
    ensures AmountValue(All) == AmountValue(U100) + 1 == 101
  {
  }

  /** Every amount has its own integer. */
  lemma AmountValueInjective(a: ReagentAmount, b: ReagentAmount)
    requires AmountValue(a) == AmountValue(b)
    ensures a == b
  {
  }

  /** A FixedPoint2 kept as its raw integer, a count of hundredths. */
  datatype FixedPoint2 = FixedPoint2(value: int)

  /** Hundredths per unit. */
  const FixedPointUnit: int := 100

  /** FixedPoint2.MaxValue: the largest raw value a 32-bit integer holds. */
  const MaxValue: FixedPoint2 := FixedPoint2(0x7FFF_FFFF)

  /** FixedPoint2.New(n): n whole units. */
  function NewFixedPoint(n: int): FixedPoint2 {
    FixedPoint2(n * FixedPointUnit)
  }

  /** GetFixedPoint: `All` is the largest quantity there is, every other amount
      is its own number of whole units. */
  function GetFixedPoint(a: ReagentAmount): (r: FixedPoint2)
    ensures r.value <= MaxValue.value
    ensures r == MaxValue <==> a == All
    ensures a != All ==> r == NewFixedPoint(AmountValue(a))
  {
    if a == All then MaxValue else NewFixedPoint(AmountValue(a))
  }

  /** GetFixedPoint orders the amounts as their integers do, and `All` is the
      greatest of them. */
  lemma GetFixedPointMonotone(a: ReagentAmount, b: ReagentAmount)
    requires AmountValue(a) <= AmountValue(b)
    ensures GetFixedPoint(a).value <= GetFixedPoint(b).value
    ensures GetFixedPoint(a).value <= GetFixedPoint(All).value
  {
  }

  /** A reagent prototype id; the reagent data list is not modelled. */
  datatype ReagentId = ReagentId(prototype: string)

  /** One entry of an inventory listing. Only the slot id is read by the logic
      modelled here; `details` stands for the rest of what the entry reports. */
  datatype ReagentInventoryItem = ReagentInventoryItem(storageSlotId: Option<string>, details: string)

  /** Press of a reagent or amount button; a missing reagent id means "everything". */
  datatype ReagentAmountButtonMessage =
    ReagentAmountButtonMessage(reagentId: Option<ReagentId>, amount: ReagentAmount, source: RawSlot)

  /** Switch of the slot that buffer transfers go to. */
  datatype TargetSwitchedMessage = TargetSwitchedMessage(target: RawSlot)

  /** Selection of one buffer slot. */
  datatype StorageSelectedMessage = StorageSelectedMessage(slotId: string)

  /** The state the server sends to the UI. A missing buffer listing means the
      listing did not change. */
  datatype UiState = UiState(
    targetSlot: Slot,
    selectedSlotId: Option<string>,
    primaryContainerInfo: Option<ReagentInventoryItem>,
    secondaryContainerInfo: Option<ReagentInventoryItem>,
    bufferContainersInfo: Option<seq<Option<ReagentInventoryItem>>>)
}
