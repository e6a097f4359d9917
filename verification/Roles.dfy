/** Identifiers, roles and the acting user. */
module Roles {
  /** A UUID. */
  type Id = nat

  datatype Role = Parent | Contributor | Student | SchoolAdmin | Donor | PlatformAdmin

  datatype Actor = Actor(userId: Id, role: Role)

  /** The error kinds that the service layers share; `Conflict` keeps its message. */
  datatype Error = Validation | Forbidden | NotFound | Conflict(reason: string) | Repository
}
