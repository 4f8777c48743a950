/** Tenants, their users, and whose rows are whose. */
module Tenants {
  type TenantId = string

  type UserId = string

  /** The row exists and is the tenant's. */
  predicate Belongs<Id>(rows: map<Id, TenantId>, id: Id, tenant: TenantId) {
    id in rows && rows[id] == tenant
  }
}
