/** The per-device state of a jug-based chemistry master. */
module TodoMasterComponents {
  import opened Wrappers
  import opened SharedTodoMaster
  import opened TodoMasterCollaborators

  /** The component: the selected buffer slot and the role that buffer
      transfers go to. Only the handlers of TodoMasterSystem modify it. */
  class TodoMasterComponent {
    /** The buffer slot the operator last selected; None until one is. */
    var selectedStorageSlot: Option<string>
    /** The container that transfers out of the buffer go to. */
    var storageTransferTarget: Slot
    /** The collaborator calls made on this device's behalf, oldest first. */
    ghost var trace: seq<Event>

    /** The target of a buffer transfer is a container, never the buffer. */
    ghost predicate Valid()
      reads this
    {
      storageTransferTarget != Buffer
    }

    /** A new device: nothing selected, buffer transfers go to Primary. */
    constructor ()
      ensures selectedStorageSlot == None
      ensures storageTransferTarget == Primary
      ensures trace == []
      ensures Valid()
    {
      selectedStorageSlot := None;
      storageTransferTarget := Primary;
      trace := [];
    }
  }
}
