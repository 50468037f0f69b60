/** Actor references as the cluster passes them around. */
module Actors {
  import opened Basics

  // Go strings are bytes.
  type ActorId = seq<byte>

  datatype ActorRef = ActorRef(systemId: uint32, groupSlot: uint16, actorType: uint32, actorId: ActorId)
}
