/** The collaborators the routing engine calls, as the values it hands them. */
module TodoMasterCollaborators {
  import opened Wrappers
  import opened SharedTodoMaster

  /** What an inventory query returns: a list of optional entries, or null. */
  type Inventory = Option<seq<Option<ReagentInventoryItem>>>

  /** The arguments of one SolutionTransfer call (the device is implicit). */
  datatype TransferCall = TransferCall(source: string, target: string, amount: int, reagentId: Option<ReagentId>)

  /** One outward call: a transfer, a UI state sent, the click sound played. */
  datatype Event = SolutionTransfer(call: TransferCall) | SetUiState(state: UiState) | ClickSound
}

/** The server-side routing engine: it resolves a button press into a
    (source, target) slot pair, updates the device state on selection and
    target switches, and emits UI states. Inventory queries are inputs; the
    transfer, the UI state and the click sound are appended to the device's
    ghost trace. */
module TodoMasterSystem {
  import opened Wrappers
  import opened SharedTodoMaster
  import opened TodoMasterCollaborators
  import opened TodoMasterComponents

  /** The dispenser view is usable: present, with exactly the two container entries. */
  predicate HasContainerPair(inv: Inventory) {
    inv.Some? && |inv.value| == 2
  }

  /** The slot id of entry i, or null when the entry or its id is missing. */
  function SlotIdAt(inv: seq<Option<ReagentInventoryItem>>, i: nat): Option<string>
    requires i < |inv|
  {
    if inv[i].Some? then inv[i].value.storageSlotId else None
  }

  /** The source slot of a press. */
  function ResolveSource(source: RawSlot, inv: seq<Option<ReagentInventoryItem>>, selected: Option<string>): Option<string>
    requires |inv| == 2
  {
    match SlotFromValue(source)
    case Some(Primary) => SlotIdAt(inv, 0)
    case Some(Secondary) => SlotIdAt(inv, 1)
    case Some(Buffer) => selected
    case None => None
  }

  /** The target slot of a press: unfiltered presses go between a container
      and the selected buffer slot, filtered ones from one container into the
      other. */
  function ResolveTarget(reagentId: Option<ReagentId>, source: RawSlot, inv: seq<Option<ReagentInventoryItem>>,
                         selected: Option<string>, target: Slot): Option<string>
    requires |inv| == 2
  {
    if reagentId.None? then
      match SlotFromValue(source)
      case Some(Primary) => selected
      case Some(Secondary) => selected
      case Some(Buffer) => if target == Primary then SlotIdAt(inv, 0) else SlotIdAt(inv, 1)
      case None => None
    else
      match SlotFromValue(source)
      case Some(Primary) => SlotIdAt(inv, 1)
      case Some(Secondary) => SlotIdAt(inv, 0)
      case Some(Buffer) => None
      case None => None
  }

  /** The transfer a press asks for, or None when the press is declined. The
      amount handed over is the enum's integer, not its fixed-point quantity. */
  function ResolveTransfer(msg: ReagentAmountButtonMessage, selected: Option<string>, target: Slot,
                           dispenser: Inventory): (r: Option<TransferCall>)
    ensures r.Some? ==> HasContainerPair(dispenser) && SlotFromValue(msg.source).Some?
    ensures r.Some? ==> r.value.amount == AmountValue(msg.amount) && r.value.reagentId == msg.reagentId
    ensures r.Some? && msg.reagentId.Some? ==> msg.source != SlotValue(Buffer)
  {
    if !HasContainerPair(dispenser) then None
    else
      var sourceSlot := ResolveSource(msg.source, dispenser.value, selected);
      var targetSlot := ResolveTarget(msg.reagentId, msg.source, dispenser.value, selected, target);
      if sourceSlot.None? || targetSlot.None? then None
      else Some(TransferCall(sourceSlot.value, targetSlot.value, AmountValue(msg.amount), msg.reagentId))
  }

  /** Where one end of a transfer lies, by role rather than by slot id. */
  datatype Endpoint = Container(index: nat) | SelectedStorage

  /** The intended routing table, by role:
        filtered Primary: container 0 into container 1;
        filtered Secondary: container 1 into container 0;
        filtered Buffer: not supported;
        unfiltered Primary or Secondary: that container into the selected buffer slot;
        unfiltered Buffer: the selected buffer slot into container 0 when the
        target is Primary, into container 1 otherwise. */
  function Route(filtered: bool, source: Slot, target: Slot): Option<(Endpoint, Endpoint)> {
    match source
    case Primary => Some((Container(0), if filtered then Container(1) else SelectedStorage))
    case Secondary => Some((Container(1), if filtered then Container(0) else SelectedStorage))
    case Buffer =>
      if filtered then None
      else Some((SelectedStorage, Container(if target == Primary then 0 else 1)))
  }

  /** The slot id an endpoint stands for. */
  function Locate(e: Endpoint, inv: seq<Option<ReagentInventoryItem>>, selected: Option<string>): Option<string>
    requires |inv| == 2
  {
    match e
    case Container(i) => if i < 2 then SlotIdAt(inv, i) else None
    case SelectedStorage => selected
  }

  /** The two switch tables agree with the routing table for every press,
      every state and every two-entry inventory. */
  lemma ResolveFollowsRoute(msg: ReagentAmountButtonMessage, selected: Option<string>, target: Slot, dispenser: Inventory)
    requires HasContainerPair(dispenser)
    ensures ResolveTransfer(msg, selected, target, dispenser) ==
      match SlotFromValue(msg.source)
      case None => None
      case Some(role) =>
        match Route(msg.reagentId.Some?, role, target)
        case None => None
        case Some((from, to)) =>
          var s := Locate(from, dispenser.value, selected);
          var t := Locate(to, dispenser.value, selected);
          if s.Some? && t.Some? then Some(TransferCall(s.value, t.value, AmountValue(msg.amount), msg.reagentId))
          else None
  {
  }

  /** Without two container entries every press is declined. */
  lemma DeclinedWithoutContainerPair(msg: ReagentAmountButtonMessage, selected: Option<string>, target: Slot, dispenser: Inventory)
    requires !HasContainerPair(dispenser)
    ensures ResolveTransfer(msg, selected, target, dispenser) == None
  {
  }

  /** A press naming no role is declined. */
  lemma UndefinedSourceDeclined(msg: ReagentAmountButtonMessage, selected: Option<string>, target: Slot, dispenser: Inventory)
    requires SlotFromValue(msg.source).None?
    ensures ResolveTransfer(msg, selected, target, dispenser) == None
  {
  }

  /** A filtered press from the buffer is declined whatever the state. */
  lemma FilteredBufferPressDeclined(reagent: ReagentId, amount: ReagentAmount, selected: Option<string>,
                                    target: Slot, dispenser: Inventory)
    ensures ResolveTransfer(ReagentAmountButtonMessage(Some(reagent), amount, SlotValue(Buffer)), selected, target, dispenser) == None
  {
  }

  /** A filtered transfer pours one container into the other. */
  lemma FilteredTransferSwapsContainers(msg: ReagentAmountButtonMessage, selected: Option<string>, target: Slot, dispenser: Inventory)
    requires msg.reagentId.Some?
    requires ResolveTransfer(msg, selected, target, dispenser).Some?
    ensures var call := ResolveTransfer(msg, selected, target, dispenser).value;
      var inv := dispenser.value;
      (msg.source == SlotValue(Primary) && Some(call.source) == SlotIdAt(inv, 0) && Some(call.target) == SlotIdAt(inv, 1)) ||
      (msg.source == SlotValue(Secondary) && Some(call.source) == SlotIdAt(inv, 1) && Some(call.target) == SlotIdAt(inv, 0))
  {
  }

  /** An unfiltered transfer has the selected buffer slot at one end: the
      target when a container is the source, the source otherwise, and then
      the target is the container the target role names. */
  lemma UnfilteredTransferUsesSelection(msg: ReagentAmountButtonMessage, selected: Option<string>, target: Slot, dispenser: Inventory)
    requires msg.reagentId.None?
    requires ResolveTransfer(msg, selected, target, dispenser).Some?
    ensures var call := ResolveTransfer(msg, selected, target, dispenser).value;
      var inv := dispenser.value;
      (msg.source == SlotValue(Primary) && Some(call.source) == SlotIdAt(inv, 0) && Some(call.target) == selected) ||
      (msg.source == SlotValue(Secondary) && Some(call.source) == SlotIdAt(inv, 1) && Some(call.target) == selected) ||
      (msg.source == SlotValue(Buffer) && Some(call.source) == selected &&
       Some(call.target) == SlotIdAt(inv, if target == Primary then 0 else 1))
  {
  }

  /** Right after buffer slot x is selected, an unfiltered buffer press moves
      out of x into the first container exactly when the target is Primary,
      into the second one otherwise; it is declined only when that container
      has no slot id. */
  lemma BufferPressAfterSelection(x: string, amount: ReagentAmount, target: Slot, dispenser: Inventory)
    requires HasContainerPair(dispenser)
    ensures var to := SlotIdAt(dispenser.value, if target == Primary then 0 else 1);
      ResolveTransfer(ReagentAmountButtonMessage(None, amount, SlotValue(Buffer)), Some(x), target, dispenser) ==
        if to.Some? then Some(TransferCall(x, to.value, AmountValue(amount), None)) else None
  {
  }

  /** While the device keeps its target off Buffer, an unfiltered buffer
      press pours the selected slot into exactly the container the target
      role names (entry 0 for Primary, entry 1 for Secondary), and is
      declined only when nothing is selected or that container has no slot
      id. With the target on Buffer the press would silently pick entry 1. */
  lemma BufferPressIntoTargetRole(amount: ReagentAmount, selected: Option<string>, target: Slot, dispenser: Inventory)
    requires target != Buffer
    requires HasContainerPair(dispenser)
    ensures var r := ResolveTransfer(ReagentAmountButtonMessage(None, amount, SlotValue(Buffer)), selected, target, dispenser);
      && (r.Some? <==> selected.Some? && SlotIdAt(dispenser.value, SlotValue(target)).Some?)
      && (r.Some? ==> Some(r.value.source) == selected && Some(r.value.target) == SlotIdAt(dispenser.value, SlotValue(target)))
  {
  }

  /** The `All` button hands the transfer the integer 101, one more than
      `U100`, not the maximum quantity GetFixedPoint gives `All`. */
  lemma AllTransfersOneHundredOne(msg: ReagentAmountButtonMessage, selected: Option<string>, target: Slot, dispenser: Inventory)
    requires msg.amount == All
    requires ResolveTransfer(msg, selected, target, dispenser).Some?
    ensures ResolveTransfer(msg, selected, target, dispenser).value.amount == AmountValue(U100) + 1
    ensures NewFixedPoint(ResolveTransfer(msg, selected, target, dispenser).value.amount) != GetFixedPoint(All)
  {
  }

  /** The calls of one UI update: none when the dispenser view is unusable or
      a full update finds no buffer listing, otherwise one UI state carrying
      the device state as it is; a partial update sends no buffer listing. */
  function UiRefresh(target: Slot, selected: Option<string>, partial: bool,
                     dispenser: Inventory, buffer: Inventory): (r: seq<Event>)
    ensures |r| <= 1
    ensures r != [] <==> HasContainerPair(dispenser) && (partial || buffer.Some?)
    ensures r != [] ==> r[0].SetUiState? && r[0].state.targetSlot == target && r[0].state.selectedSlotId == selected
    ensures r != [] ==>
      r[0].state.primaryContainerInfo == dispenser.value[0] && r[0].state.secondaryContainerInfo == dispenser.value[1]
    ensures r != [] ==>
      (partial ==> r[0].state.bufferContainersInfo.None?) && (!partial ==> r[0].state.bufferContainersInfo == buffer)
  {
    if !HasContainerPair(dispenser) then []
    else
      var storageInventory := if partial then None else buffer;
      if !partial && storageInventory.None? then []
      else [SetUiState(UiState(target, selected, dispenser.value[0], dispenser.value[1], storageInventory))]
  }

  /** The calls of one press: the transfer, a full UI update and the click, or nothing. */
  function PressEvents(msg: ReagentAmountButtonMessage, selected: Option<string>, target: Slot,
                       dispenser: Inventory, dispenserAfter: Inventory, bufferAfter: Inventory): seq<Event>
  {
    match ResolveTransfer(msg, selected, target, dispenser)
    case None => []
    case Some(call) => [SolutionTransfer(call)] + UiRefresh(target, selected, false, dispenserAfter, bufferAfter) + [ClickSound]
  }

  /** A press either does nothing or makes, in this order, exactly one transfer,
      at most one full UI update and one click. */
  lemma PressEventsOrder(msg: ReagentAmountButtonMessage, selected: Option<string>, target: Slot,
                         dispenser: Inventory, dispenserAfter: Inventory, bufferAfter: Inventory)
    ensures var r := PressEvents(msg, selected, target, dispenser, dispenserAfter, bufferAfter);
      var call := ResolveTransfer(msg, selected, target, dispenser);
      && (r == [] <==> call.None?)
      && (r != [] ==> 2 <= |r| <= 3 && r[0] == SolutionTransfer(call.value) && r[|r| - 1] == ClickSound)
      && (forall i :: 0 < i < |r| - 1 ==> r[i].SetUiState? && r[i].state.bufferContainersInfo.Some?)
  {
  }

  /** The role a target switch accepts: a defined role other than Buffer. */
  function AcceptedTarget(raw: RawSlot): (r: Option<Slot>)
    ensures r.Some? <==> raw == SlotValue(Primary) || raw == SlotValue(Secondary)
    ensures r.Some? ==> r.value != Buffer && SlotValue(r.value) == raw
  {
    var slot := SlotFromValue(raw);
    if slot.None? || slot.value == Buffer then None else slot
  }

  /** Host notifications (startup, container changes, UI opened) refresh fully. */
  method SubscribeUpdateUiState(comp: TodoMasterComponent, dispenser: Inventory, buffer: Inventory)
    modifies comp`trace
    ensures comp.trace == old(comp.trace) + UiRefresh(comp.storageTransferTarget, comp.selectedStorageSlot, false, dispenser, buffer)
  {
    UpdateUiState(comp, false, dispenser, buffer);
  }

  /** Send the UI the device state with the dispenser view and, on a full
      update, the buffer listing. */
  method UpdateUiState(comp: TodoMasterComponent, partial: bool, dispenser: Inventory, buffer: Inventory)
    modifies comp`trace
    ensures comp.trace == old(comp.trace) + UiRefresh(comp.storageTransferTarget, comp.selectedStorageSlot, partial, dispenser, buffer)
  {
    var dispenserInventory := dispenser;
    if dispenserInventory.None? || |dispenserInventory.value| != 2 {
      return;
    }
    var storageInventory := if partial then None else buffer;
    if !partial && storageInventory.None? {
      return;
    }
    var state := UiState(comp.storageTransferTarget, comp.selectedStorageSlot,
                         dispenserInventory.value[0], dispenserInventory.value[1], storageInventory);
    comp.trace := comp.trace + [SetUiState(state)];
  }

  /** A reagent or amount press. `dispenser` is the view queried on entry,
      `dispenserAfter` and `bufferAfter` are the views the UI update queries
      after the transfer. The device state is left as it was. */
  method OnReagentButtonMessage(comp: TodoMasterComponent, msg: ReagentAmountButtonMessage,
                                dispenser: Inventory, dispenserAfter: Inventory, bufferAfter: Inventory)
    modifies comp`trace
    ensures comp.selectedStorageSlot == old(comp.selectedStorageSlot)
    ensures comp.storageTransferTarget == old(comp.storageTransferTarget)
    ensures comp.trace == old(comp.trace) +
      PressEvents(msg, comp.selectedStorageSlot, comp.storageTransferTarget, dispenser, dispenserAfter, bufferAfter)
  {
    var dispenserInventory := dispenser;
    if dispenserInventory.None? || |dispenserInventory.value| != 2 {
      return;
    }
    var sourceSlot := ResolveSource(msg.source, dispenserInventory.value, comp.selectedStorageSlot);
    var targetSlot := ResolveTarget(msg.reagentId, msg.source, dispenserInventory.value,
                                    comp.selectedStorageSlot, comp.storageTransferTarget);
    if sourceSlot.None? || targetSlot.None? {
      return;
    }
    comp.trace := comp.trace + [SolutionTransfer(TransferCall(sourceSlot.value, targetSlot.value, AmountValue(msg.amount), msg.reagentId))];
    UpdateUiState(comp, false, dispenserAfter, bufferAfter);
    comp.trace := comp.trace + [ClickSound];
  }

  /** Selection of a buffer slot, taken as given without checking that the
      slot exists; a partial UI update and the click follow. */
  method OnStorageSelected(comp: TodoMasterComponent, msg: StorageSelectedMessage, dispenser: Inventory)
    modifies comp`selectedStorageSlot, comp`trace
    ensures comp.selectedStorageSlot == Some(msg.slotId)
    ensures comp.storageTransferTarget == old(comp.storageTransferTarget)
    ensures comp.trace == old(comp.trace) +
      UiRefresh(comp.storageTransferTarget, Some(msg.slotId), true, dispenser, None) + [ClickSound]
  {
    comp.selectedStorageSlot := Some(msg.slotId);
    UpdateUiState(comp, true, dispenser, None);
    comp.trace := comp.trace + [ClickSound];
  }

  /** A target switch: an undefined role or Buffer is ignored without a
      sound; any other role becomes the target, then a partial UI update and
      the click follow. The target therefore never becomes Buffer. */
  method OnTargetSwitched(comp: TodoMasterComponent, msg: TargetSwitchedMessage, dispenser: Inventory)
    modifies comp`storageTransferTarget, comp`trace
    ensures comp.selectedStorageSlot == old(comp.selectedStorageSlot)
    ensures AcceptedTarget(msg.target).None? ==>
      comp.storageTransferTarget == old(comp.storageTransferTarget) && comp.trace == old(comp.trace)
    ensures AcceptedTarget(msg.target).Some? ==>
      comp.storageTransferTarget == AcceptedTarget(msg.target).value &&
      comp.trace == old(comp.trace) + UiRefresh(comp.storageTransferTarget, comp.selectedStorageSlot, true, dispenser, None) + [ClickSound]
    ensures old(comp.Valid()) ==> comp.Valid()
  {
    var target := SlotFromValue(msg.target);
    if target.None? || target.value == Buffer {
      return;
    }
    comp.storageTransferTarget := target.value;
    UpdateUiState(comp, true, dispenser, None);
    comp.trace := comp.trace + [ClickSound];
  }

  /** A worked run: select buffer slot B1, pour 10 units out of the first
      container into it, switch the target to Secondary, empty B1 into the
      second container, and see a filtered buffer press declined. The
      client's storage-transfer button sends a selection followed by an
      unfiltered buffer press, the pair the first and fourth steps make. */
  method StorageTransferScenario()
  {
    var primary := Some(ReagentInventoryItem(Some("P1"), ""));
    var secondary := Some(ReagentInventoryItem(Some("S1"), ""));
    var dispenser: Inventory := Some([primary, secondary]);
    var buffer: Inventory := Some([Some(ReagentInventoryItem(Some("B1"), "")), Some(ReagentInventoryItem(Some("B2"), ""))]);
    var comp := new TodoMasterComponent();

    OnStorageSelected(comp, StorageSelectedMessage("B1"), dispenser);
    assert comp.selectedStorageSlot == Some("B1") && comp.storageTransferTarget == Primary;
    assert comp.trace == [SetUiState(UiState(Primary, Some("B1"), primary, secondary, None)), ClickSound];

    OnReagentButtonMessage(comp, ReagentAmountButtonMessage(None, U10, SlotValue(Primary)), dispenser, dispenser, buffer);
    assert comp.trace[2] == SolutionTransfer(TransferCall("P1", "B1", 10, None));
    assert comp.trace[3] == SetUiState(UiState(Primary, Some("B1"), primary, secondary, buffer));

    OnTargetSwitched(comp, TargetSwitchedMessage(SlotValue(Secondary)), dispenser);
    assert comp.storageTransferTarget == Secondary;

    ghost var before := |comp.trace|;
    OnReagentButtonMessage(comp, ReagentAmountButtonMessage(None, All, SlotValue(Buffer)), dispenser, dispenser, buffer);
    assert comp.trace[before] == SolutionTransfer(TransferCall("B1", "S1", 101, None));

    ghost var after := |comp.trace|;
    OnReagentButtonMessage(comp, ReagentAmountButtonMessage(Some(ReagentId("Water")), U5, SlotValue(Buffer)), dispenser, dispenser, buffer);
    assert |comp.trace| == after;
  }
}
