/**
 * The role a signed-in user acts in and the capabilities derived from it:
 * owners act in the view role they selected, staff in the role their
 * assignment in the open shift gives them.
 */
module Authz {
  import opened Domain
  import Policy

  datatype SessionUser = SessionUser(id: UserId, baseRole: BaseRole)

  datatype Capabilities = Capabilities(
    owner: bool,
    takeOrders: bool,
    kitchen: bool,
    billing: bool,
    manageMenu: bool,
    manageStaff: bool,
    manageShifts: bool)

  const NoCapabilities := Capabilities(false, false, false, false, false, false, false)

  /** The role of the first assignment that names the user, if any. */
  function AssignedRole(assignments: seq<Assignment>, userId: UserId): (r: Option<ShiftRole>)
    ensures r.None? <==> forall i :: 0 <= i < |assignments| ==> assignments[i].userId != userId
    ensures r.Some? ==> exists i :: 0 <= i < |assignments| && assignments[i].userId == userId
                                    && assignments[i].role == r.value
                                    && forall j :: 0 <= j < i ==> assignments[j].userId != userId
  {
    if assignments == [] then None
    else if assignments[0].userId == userId then Some(assignments[0].role)
    else
      var r := AssignedRole(assignments[1..], userId);
      assert r.Some? ==> exists i :: 1 <= i < |assignments| && assignments[i].userId == userId
                                     && assignments[i].role == r.value
                                     && forall j :: 0 <= j < i ==> assignments[j].userId != userId by {
        if r.Some? {
          var i :| 0 <= i < |assignments[1..]| && assignments[1..][i].userId == userId
                   && assignments[1..][i].role == r.value
                   && forall j :: 0 <= j < i ==> assignments[1..][j].userId != userId;
          assert assignments[i + 1] == assignments[1..][i];
          forall j | 0 <= j < i + 1 ensures assignments[j].userId != userId {
            if j > 0 { assert assignments[j] == assignments[1..][j - 1]; }
          }
        }
      }
      r
  }

  function EffectiveRole(user: Option<SessionUser>, shift: Option<Shift>, ownerViewRole: ShiftRole): Option<ShiftRole> {
    if user.None? then None
    else if user.value.baseRole == Owner then Some(ownerViewRole)
    else if shift.None? then None
    else AssignedRole(shift.value.assignments, user.value.id)
  }

  function Can(user: Option<SessionUser>, effectiveRole: Option<ShiftRole>): Capabilities {
    var owner := user.Some? && user.value.baseRole == Owner;
    var takeOrders := owner || effectiveRole == Some(Waiter) || effectiveRole == Some(Supervisor);
    var kitchen := owner || effectiveRole == Some(Barista) || effectiveRole == Some(Shisha);
    var billing := owner || effectiveRole == Some(Supervisor);
    Capabilities(owner, takeOrders, kitchen, billing, owner, owner, owner)
  }

  /** The capabilities of a session: `Can` applied to its effective role. */
  function SessionCapabilities(user: Option<SessionUser>, shift: Option<Shift>, ownerViewRole: ShiftRole): Capabilities {
    Can(user, EffectiveRole(user, shift, ownerViewRole))
  }

  /** Without a signed-in user there is no role and no capability. */
  lemma SignedOutHasNothing(shift: Option<Shift>, ownerViewRole: ShiftRole)
    ensures EffectiveRole(None, shift, ownerViewRole).None?
    ensures SessionCapabilities(None, shift, ownerViewRole) == NoCapabilities
  {
  }

  /** An owner acts in the selected view role and holds every capability. */
  lemma OwnerHasEverything(user: SessionUser, shift: Option<Shift>, ownerViewRole: ShiftRole)
    requires user.baseRole == Owner
    ensures EffectiveRole(Some(user), shift, ownerViewRole) == Some(ownerViewRole)
    ensures SessionCapabilities(Some(user), shift, ownerViewRole)
            == Capabilities(true, true, true, true, true, true, true)
  {
  }

  /** Staff outside the open shift's assignments have no role and no capability. */
  lemma UnassignedStaffHasNothing(user: SessionUser, shift: Option<Shift>, ownerViewRole: ShiftRole)
    requires user.baseRole == Staff
    requires shift.Some? ==> forall i :: 0 <= i < |shift.value.assignments| ==> shift.value.assignments[i].userId != user.id
    ensures EffectiveRole(Some(user), shift, ownerViewRole).None?
    ensures SessionCapabilities(Some(user), shift, ownerViewRole) == NoCapabilities
  {
  }

  /** What each shift role grants a staff member. */
  lemma StaffCapabilitiesByRole(user: SessionUser, role: ShiftRole)
    requires user.baseRole == Staff
    ensures var c := Can(Some(user), Some(role));
            && !c.owner && !c.manageMenu && !c.manageStaff && !c.manageShifts
            && (c.takeOrders <==> role == Supervisor || role == Waiter)
            && (c.billing <==> role == Supervisor)
            && (c.kitchen <==> role == Barista || role == Shisha)
  {
  }

  /** The management capabilities belong to owners exactly. */
  lemma ManagementIsOwnerOnly(user: Option<SessionUser>, shift: Option<Shift>, ownerViewRole: ShiftRole)
    ensures var c := SessionCapabilities(user, shift, ownerViewRole);
            var isOwner := user.Some? && user.value.baseRole == Owner;
            c.manageMenu == isOwner && c.manageStaff == isOwner && c.manageShifts == isOwner
  {
  }

  /**
   * The permission predicates and the session capabilities agree when the
   * policy context carries the user's role in the open shift: payment and
   * discount are allowed exactly when the session holds billing, and a
   * station may update kitchen items only in a session that holds kitchen,
   * each holder having at least one such station.
   */
  lemma PolicyAgreesWithCapabilities(user: SessionUser, shift: Option<Shift>, ownerViewRole: ShiftRole)
    ensures var shiftRole := if shift.None? then None else AssignedRole(shift.value.assignments, user.id);
            var ctx := Policy.SessionContext(user.id, user.baseRole, shiftRole);
            var c := SessionCapabilities(Some(user), shift, ownerViewRole);
            && (Policy.CanTakePayment(ctx) <==> c.billing)
            && (Policy.CanApplyDiscount(ctx) <==> c.billing)
            && (forall station: Station :: Policy.CanUpdateKitchenItem(ctx, station) ==> c.kitchen)
            && (c.kitchen ==> Policy.CanUpdateKitchenItem(ctx, Barista) || Policy.CanUpdateKitchenItem(ctx, Shisha))
  {
  }
}
