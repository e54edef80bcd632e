/**
 * Permission helpers: whether a member holds a role granting some permission bit,
 * and whether a user owns a guild. Both answer (bool, error) as Go does.
 */
module Misc {
  import opened Wrappers
  import opened Discord

  /** A (bool, error) pair; the bool is false whenever the error is set. */
  datatype Answer = Answer(yes: bool, err: Option<LookupError>)

  /** IsOwner: a failed guild lookup answers (false, err); otherwise whether userId owns it. */
  function IsOwner(s: Session, guildId: string, userId: string): (a: Answer)
    ensures a.err.Some? <==> guildId !in s.guilds
    ensures a.err.Some? ==> a == Answer(false, Some(GuildNotFound(guildId)))
    ensures a.yes <==> guildId in s.guilds && s.guilds[guildId].ownerId == userId
  {
    if guildId !in s.guilds then Answer(false, Some(GuildNotFound(guildId)))
    else Answer(s.guilds[guildId].ownerId == userId, None)
  }

  /** The member as the state cache has it, else as the remote lookup returns it. */
  function MemberLookup(s: Session, guildId: string, userId: string): (r: Option<Member>)
    ensures r.Some? <==> (guildId, userId) in s.cachedMembers || (guildId, userId) in s.remoteMembers
    ensures (guildId, userId) in s.cachedMembers ==> r == Some(s.cachedMembers[(guildId, userId)])
    ensures r.Some? && (guildId, userId) !in s.cachedMembers ==> r.value == s.remoteMembers[(guildId, userId)]
  {
    if (guildId, userId) in s.cachedMembers then Some(s.cachedMembers[(guildId, userId)])
    else if (guildId, userId) in s.remoteMembers then Some(s.remoteMembers[(guildId, userId)])
    else None
  }

  predicate Known(s: Session, guildId: string, roleId: string) {
    (guildId, roleId) in s.roles
  }

  /** Go's `perms & mask != 0`. */
  predicate SharesBit(perms: bv64, mask: bv64) {
    perms & mask != 0
  }

  predicate Intersects(s: Session, guildId: string, roleId: string, mask: bv64) {
    Known(s, guildId, roleId) && SharesBit(s.roles[(guildId, roleId)].permissions, mask)
  }

  /** Every role before position i was found and grants none of the bits. */
  ghost predicate PassedOver(s: Session, guildId: string, roles: seq<string>, mask: bv64, i: nat) {
    i <= |roles| &&
    forall j :: 0 <= j < i ==> Known(s, guildId, roles[j]) && !Intersects(s, guildId, roles[j], mask)
  }

  /** The scan stops at role i by granting. */
  ghost predicate GrantedAt(s: Session, guildId: string, roles: seq<string>, mask: bv64, i: nat) {
    i < |roles| && PassedOver(s, guildId, roles, mask, i) && Intersects(s, guildId, roles[i], mask)
  }

  /** The scan stops at role i because that role cannot be looked up. */
  ghost predicate FailsAt(s: Session, guildId: string, roles: seq<string>, mask: bv64, i: nat) {
    i < |roles| && PassedOver(s, guildId, roles, mask, i) && !Known(s, guildId, roles[i])
  }

  /** The role loop of MemberHasPermissions, one role at a time. */
  function RolesCheck(s: Session, guildId: string, roles: seq<string>, mask: bv64): Answer
    decreases |roles|
  {
    if roles == [] then Answer(false, None)
    else if !Known(s, guildId, roles[0]) then Answer(false, Some(RoleNotFound(guildId, roles[0])))
    else if Intersects(s, guildId, roles[0], mask) then Answer(true, None)
    else RolesCheck(s, guildId, roles[1..], mask)
  }

  /**
   * What the role loop answers: roles are examined in order; the first one that
   * cannot be looked up ends the scan with its error (even if a later role would
   * grant), the first one sharing a bit with the mask ends it with true, and
   * running out of roles gives (false, nil).
   */
  lemma {:induction false} RolesCheckScan(s: Session, guildId: string, roles: seq<string>, mask: bv64)
    ensures RolesCheck(s, guildId, roles, mask).yes <==> exists i: nat :: GrantedAt(s, guildId, roles, mask, i)
    ensures RolesCheck(s, guildId, roles, mask).yes ==> RolesCheck(s, guildId, roles, mask).err.None?
    ensures forall i: nat :: FailsAt(s, guildId, roles, mask, i) ==>
      RolesCheck(s, guildId, roles, mask) == Answer(false, Some(RoleNotFound(guildId, roles[i])))
    ensures RolesCheck(s, guildId, roles, mask) == Answer(false, None) <==> PassedOver(s, guildId, roles, mask, |roles|)
    decreases |roles|
  {
    if roles == [] {
    } else if !Known(s, guildId, roles[0]) {
      assert FailsAt(s, guildId, roles, mask, 0);
    } else if Intersects(s, guildId, roles[0], mask) {
      assert GrantedAt(s, guildId, roles, mask, 0);
    } else {
      RolesCheckScan(s, guildId, roles[1..], mask);
      ShiftScan(s, guildId, roles, mask);
      if RolesCheck(s, guildId, roles, mask).yes {
        var i: nat :| GrantedAt(s, guildId, roles[1..], mask, i);
        assert GrantedAt(s, guildId, roles, mask, i + 1);
      }
      if exists i: nat :: GrantedAt(s, guildId, roles, mask, i) {
        var i: nat :| GrantedAt(s, guildId, roles, mask, i);
        assert i > 0 && GrantedAt(s, guildId, roles[1..], mask, i - 1);
      }
      forall i: nat | FailsAt(s, guildId, roles, mask, i)
        ensures RolesCheck(s, guildId, roles, mask) == Answer(false, Some(RoleNotFound(guildId, roles[i])))
      {
        assert i > 0 && FailsAt(s, guildId, roles[1..], mask, i - 1);
      }
      assert PassedOver(s, guildId, roles, mask, |roles|) <==> PassedOver(s, guildId, roles[1..], mask, |roles| - 1);
    }
  }

  /** After a passed-over first role, the scan of the rest is the scan of the whole, shifted by one. */
  lemma ShiftScan(s: Session, guildId: string, roles: seq<string>, mask: bv64)
    requires |roles| > 0 && Known(s, guildId, roles[0]) && !Intersects(s, guildId, roles[0], mask)
    ensures forall i: nat :: PassedOver(s, guildId, roles, mask, i + 1) <==> PassedOver(s, guildId, roles[1..], mask, i)
    ensures forall i: nat :: GrantedAt(s, guildId, roles, mask, i + 1) <==> GrantedAt(s, guildId, roles[1..], mask, i)
    ensures forall i: nat :: FailsAt(s, guildId, roles, mask, i + 1) <==> FailsAt(s, guildId, roles[1..], mask, i)
    ensures !GrantedAt(s, guildId, roles, mask, 0) && !FailsAt(s, guildId, roles, mask, 0)
  {
    forall i: nat ensures PassedOver(s, guildId, roles, mask, i + 1) <==> PassedOver(s, guildId, roles[1..], mask, i) {
      if PassedOver(s, guildId, roles[1..], mask, i) {
        forall j | 0 <= j < i + 1
          ensures Known(s, guildId, roles[j]) && !Intersects(s, guildId, roles[j], mask)
        {
          if j > 0 { assert roles[j] == roles[1..][j - 1]; }
        }
      }
    }
  }

  /** The value MemberHasPermissions returns. */
  function PermissionCheck(s: Session, guildId: string, userId: string, mask: bv64): Answer {
    match MemberLookup(s, guildId, userId)
    case None => Answer(false, Some(MemberNotFound(guildId, userId)))
    case Some(member) => RolesCheck(s, guildId, member.roles, mask)
  }

  /**
   * MemberHasPermissions: look the member up (state cache, then remote), then walk
   * its roles with early returns.
   */
  method MemberHasPermissions(s: Session, guildId: string, userId: string, permission: bv64)
    returns (a: Answer)
    ensures a == PermissionCheck(s, guildId, userId, permission)
  {
    var member: Member;
    if (guildId, userId) in s.cachedMembers {
      member := s.cachedMembers[(guildId, userId)];
    } else if (guildId, userId) in s.remoteMembers {
      member := s.remoteMembers[(guildId, userId)];
    } else {
      return Answer(false, Some(MemberNotFound(guildId, userId)));
    }
    assert member.roles[0..] == member.roles;
    for i := 0 to |member.roles|
      invariant RolesCheck(s, guildId, member.roles[i..], permission) == PermissionCheck(s, guildId, userId, permission)
    {
      var roleId := member.roles[i];
      assert member.roles[i..][1..] == member.roles[i + 1..];
      if (guildId, roleId) !in s.roles {
        return Answer(false, Some(RoleNotFound(guildId, roleId)));
      }
      var role := s.roles[(guildId, roleId)];
      if SharesBit(role.permissions, permission) {
        return Answer(true, None);
      }
    }
    return Answer(false, None);
  }

  /** The member is found and one of its roles grants a bit of the mask, no earlier role failing. */
  ghost predicate HoldsPermission(s: Session, guildId: string, userId: string, mask: bv64) {
    MemberLookup(s, guildId, userId).Some? &&
    exists i: nat :: GrantedAt(s, guildId, MemberLookup(s, guildId, userId).value.roles, mask, i)
  }

  /** MemberHasPermissions answers true exactly when the member holds the permission. */
  lemma PermissionCheckGrants(s: Session, guildId: string, userId: string, mask: bv64)
    ensures PermissionCheck(s, guildId, userId, mask).yes <==> HoldsPermission(s, guildId, userId, mask)
  {
    if MemberLookup(s, guildId, userId).Some? {
      RolesCheckScan(s, guildId, MemberLookup(s, guildId, userId).value.roles, mask);
    }
  }

  /** A zero mask shares no bit with any role, so the check never grants. */
  lemma ZeroMaskNeverGrants(s: Session, guildId: string, userId: string)
    ensures !PermissionCheck(s, guildId, userId, 0).yes
  {
    if MemberLookup(s, guildId, userId).Some? {
      RolesCheckScan(s, guildId, MemberLookup(s, guildId, userId).value.roles, 0);
    }
  }

  /** A member with no roles holds no permission, and the lookup reports no error. */
  lemma NoRolesNoPermission(s: Session, guildId: string, userId: string, mask: bv64)
    requires MemberLookup(s, guildId, userId) == Some(Member([]))
    ensures PermissionCheck(s, guildId, userId, mask) == Answer(false, None)
  {
  }
}
