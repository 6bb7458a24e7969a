/**
 * A tenant ("mirror") as recorded in `data/mirrors.json`: its bot token,
 * owner, name, creator, creation time, the fixed permission lists and its
 * usage statistics. The registry maps a tenant id to its record, in the
 * order the ids were added (ids are millisecond timestamps, too large to be
 * array indices, so a JSON object keeps them in insertion order).
 */
module Tenants {
  import opened Wrappers
  import opened OrderedMap

  /** The command names a tenant may never run (commands/owner/mirror.js:10,
      middlewares/mirrorSecurity.js:4 and mirror_bot.js:75 list the same nine). */
  const DangerousCommands: seq<string> :=
    ["eval", "shell", "exec", "restart", "cmd", "backup", "viewlogs", "clearlog", "mirror"]

  /** The owner commands a tenant gets in its own, tenant-scoped form. */
  const AllowedOwnerCommands: seq<string> :=
    ["addprem", "delprem", "addowner", "delowner", "setnamebot", "setownername", "setthumb"]

  datatype Permissions = Permissions(allowedCommands: seq<string>, blockedCommands: seq<string>, maxUsers: nat, rateLimitPerMinute: nat)

  datatype Stats = Stats(totalCommands: nat, lastActivity: Option<int>, users: seq<int>, uptime: int)

  datatype Tenant = Tenant(
    botToken: string,
    ownerId: int,
    botName: string,
    createdBy: int,
    created: int,
    permissions: Permissions,
    stats: Stats)

  type Registry = OMap<string, Tenant>

  /** The statistics of a new or reset tenant. */
  const ZeroStats := Stats(0, None, [], 0)

  const DefaultPermissions := Permissions(AllowedOwnerCommands, DangerousCommands, 1000, 30)

  /** The record the creation wizard writes. */
  function NewTenant(botToken: string, ownerId: int, botName: string, createdBy: int, created: int): Tenant
  {
    Tenant(botToken, ownerId, botName, createdBy, created, DefaultPermissions, ZeroStats)
  }
}
