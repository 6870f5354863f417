/** Identifiers carried by every message of the middleware. */
module Ids {

  datatype Option<+T> = None | Some(value: T)

  /** SDMComponent_ID: equality compares all three fields. */
  datatype ComponentId = ComponentId(address: nat, port: nat, sensorId: nat)

  /** The identifier written by InitTask and by the default constructor. */
  const NO_COMPONENT := ComponentId(0, 0, 0)

  /** Every registered Process Manager listens on this port. */
  const PORT_PM := 3508

  /** SDMTaskResources: the four nibbles of the resource word, selected by ARCHMASK, MEMMASK, OSMASK and PMIDMASK. */
  datatype Resources = Resources(arch: nat, mem: nat, os: nat, pmId: nat)

  const NO_RESOURCES := Resources(0, 0, 0, 0)
}
