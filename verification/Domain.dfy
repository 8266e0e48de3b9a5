/** Roles, users, deal statuses and the choice of ancillary units, as several components use them. */
module Domain {
  import opened Wrappers

  datatype Role = RoleUser | RoleManager | RoleSupervisor

  datatype User = User(id: int, role: Role)

  datatype DealStatus = Pending | Contract | Completed | Cancelled

  /** Ids of the parking place and storage room the client wants. */
  datatype Selection = Selection(parking: Option<int>, storage: Option<int>)
}
