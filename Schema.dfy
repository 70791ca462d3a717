/** Table rows and enums shared by several parts of the application
    (src/integrations/supabase/types.ts). */
module Schema {
  import opened Wrappers

  /** The `app_role` enum, in its declaration order: client, vendor, admin. */
  datatype Role = Client | Vendor | Admin

  function RoleName(r: Role): string {
    match r
    case Client => "client"
    case Vendor => "vendor"
    case Admin => "admin"
  }

  /** Position of a value in the enum's declaration; the database orders an
      enum column by it. */
  function RoleRank(r: Role): nat {
    match r
    case Client => 0
    case Vendor => 1
    case Admin => 2
  }

  /** The columns of a `profiles` row that the application reads or writes;
      timestamps are milliseconds since the epoch. */
  datatype Profile = Profile(username: string, active: bool, loginCount: int,
                             lastLogin: Option<int>, ipLastLogin: Option<string>)

  /** A row of the `logs` table (its JSON `metadata` column is not modelled). */
  datatype LogEntry = LogEntry(userId: Option<string>, actionType: string, message: string)

  /** JavaScript truthiness of an optional string: present and non-empty. */
  predicate Present(s: Option<string>) {
    s.Some? && s.value != ""
  }
}
