/** Shared value types: an optional value (a SQL NULL or a JavaScript
    `undefined`/`null`) and the four role names the whole system agrees on. */
module Base {

  datatype Option<+T> = None | Some(value: T) {
    function GetOr(default: T): T {
      match this
      case Some(v) => v
      case None => default
    }
  }

  const SuperAdmin: string := "super_admin"
  const Principal: string := "principal"
  const Admin: string := "admin"
  const StaffUser: string := "user"

  /** The role names in the order the seeding code inserts them. */
  const RoleNames: seq<string> := [SuperAdmin, Principal, Admin, StaffUser]

  /** JavaScript truthiness of an optional string: `undefined`, `null` and `""` are falsy. */
  predicate Truthy(s: Option<string>) {
    s.Some? && s.value != ""
  }

  /** `s || fallback` on an optional string. */
  function OrElse(s: Option<string>, fallback: string): (r: string)
    ensures Truthy(s) ==> r == s.value
    ensures !Truthy(s) ==> r == fallback
  {
    if s.Some? && s.value != "" then s.value else fallback
  }
}
