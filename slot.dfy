/**
 * Slots of the proxy's product: a slot belongs to a group and carries a
 * state (its status, the source and target groups of a migration, and the
 * time of the last operation). A new slot belongs to no group and is offline.
 */
module Models {

  /** The id of no group. */
  const InvalidId: int := -1

  type SlotStatus = string

  const SlotStatusOnline: SlotStatus := "online"
  const SlotStatusOffline: SlotStatus := "offline"
  const SlotStatusMigrate: SlotStatus := "migrate"
  const SlotStatusPreMigrate: SlotStatus := "pre_migrate"

  /** The statuses a slot may be in. */
  predicate KnownStatus(s: SlotStatus) {
    s == SlotStatusOnline || s == SlotStatusOffline || s == SlotStatusMigrate || s == SlotStatusPreMigrate
  }

  /** The groups a migrating slot moves from and to. */
  datatype SlotMigrateStatus = SlotMigrateStatus(from: int, to: int)

  datatype SlotState = SlotState(status: SlotStatus, migrateStatus: SlotMigrateStatus, lastOpTs: string)

  datatype Slot = Slot(productName: string, id: int, groupId: int, state: SlotState)

  /** The slot is in no group and no migration. */
  predicate Unassigned(s: Slot) {
    && s.groupId == InvalidId
    && s.state.migrateStatus.from == InvalidId
    && s.state.migrateStatus.to == InvalidId
  }

  /** Slot id of product productName, in no group, offline, with no migration and timestamp "0". */
  function NewSlot(productName: string, id: int): (s: Slot)
    ensures s.productName == productName && s.id == id
    ensures Unassigned(s) && s.groupId == -1
    ensures s.state.status == SlotStatusOffline == "offline" && KnownStatus(s.state.status)
    ensures s.state.lastOpTs == "0"
  {
    Slot(productName, id, InvalidId, SlotState(SlotStatusOffline, SlotMigrateStatus(InvalidId, InvalidId), "0"))
  }

  /** New slots differ exactly when their product or id differ: the defaults carry no other information. */
  lemma NewSlotDeterminedByArguments(p1: string, id1: int, p2: string, id2: int)
    ensures NewSlot(p1, id1) == NewSlot(p2, id2) <==> p1 == p2 && id1 == id2
  {
  }
}
