/** Classification of a guild member into the bot's three privilege levels. */
module Roles {
  import opened Text

  /** The hard-coded user id of the bot's owner. */
  const OwnerId: int := 620819429139415040

  datatype RoleLevel = Owner | HeadAdmin | User

  /** The parts of a guild member the classification looks at.
      `isGuildOwner` stands for the comparison with the guild's owner. */
  datatype Member = Member(id: int, roleNames: seq<string>, isGuildOwner: bool)

  /** The member holds a role whose lower-cased name is exactly `name`. */
  ghost predicate HasRole(m: Member, name: string) {
    exists i :: 0 <= i < |m.roleNames| && Lower(m.roleNames[i]) == name
  }

  /** The conditions under which a member is treated as an owner. */
  ghost predicate IsOwner(m: Member) {
    m.id == OwnerId || m.isGuildOwner || HasRole(m, "owner") || HasRole(m, "co-owner")
  }

  function LoweredRoles(m: Member): (r: seq<string>)
    ensures |r| == |m.roleNames|
    ensures forall i :: 0 <= i < |r| ==> r[i] == Lower(m.roleNames[i])
  {
    seq(|m.roleNames|, i requires 0 <= i < |m.roleNames| => Lower(m.roleNames[i]))
  }

  /** Owner wins over head admin, which wins over everyone else. */
  function GetRoleLevel(m: Member): (r: RoleLevel)
    ensures r == Owner <==> IsOwner(m)
    ensures r == HeadAdmin <==> !IsOwner(m) && HasRole(m, "head admin")
    ensures r == User <==> !IsOwner(m) && !HasRole(m, "head admin")
  {
    if m.id == OwnerId then
      Owner
    else
      var roles := LoweredRoles(m);
      if m.isGuildOwner || "owner" in roles || "co-owner" in roles then
        Owner
      else if "head admin" in roles then
        HeadAdmin
      else
        User
  }

  /** The users the rate limiter lets through unconditionally. */
  predicate Privileged(userId: int, level: RoleLevel) {
    userId == OwnerId || level == Owner || level == HeadAdmin
  }

  /** The level depends on role names only up to ASCII case. */
  lemma RoleLevelIgnoresCase(m: Member, names: seq<string>)
    requires |names| == |m.roleNames|
    requires forall i :: 0 <= i < |names| ==> Lower(names[i]) == Lower(m.roleNames[i])
    ensures GetRoleLevel(m.(roleNames := names)) == GetRoleLevel(m)
  {
    assert LoweredRoles(m.(roleNames := names)) == LoweredRoles(m);
  }
}
