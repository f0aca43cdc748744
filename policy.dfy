/**
 * Permission predicates over the session context: who may take payments,
 * apply discounts and update kitchen items.
 */
module Policy {
  import opened Domain

  datatype SessionContext = SessionContext(
    userId: UserId,
    baseRole: BaseRole,
    currentShiftRole: Option<ShiftRole>)   // role in the open shift, if any

  predicate CanTakePayment(ctx: SessionContext) {
    ctx.baseRole == Owner || ctx.currentShiftRole == Some(Supervisor)
  }

  predicate CanApplyDiscount(ctx: SessionContext) {
    CanTakePayment(ctx)
  }

  predicate CanUpdateKitchenItem(ctx: SessionContext, role: Station) {
    ctx.baseRole == Owner || ctx.currentShiftRole == Some(role)
  }

  /** An owner passes every check, whatever the shift role. */
  lemma OwnerPassesEverything(ctx: SessionContext, role: Station)
    requires ctx.baseRole == Owner
    ensures CanTakePayment(ctx) && CanApplyDiscount(ctx) && CanUpdateKitchenItem(ctx, role)
  {
  }

  /** A staff member without a shift role passes no check. */
  lemma StaffWithoutShiftPassesNothing(ctx: SessionContext, role: Station)
    requires ctx.baseRole == Staff && ctx.currentShiftRole.None?
    ensures !CanTakePayment(ctx) && !CanApplyDiscount(ctx) && !CanUpdateKitchenItem(ctx, role)
  {
  }

  /** For staff, a kitchen item may be updated only from its own station. */
  lemma StationsAreSeparate(ctx: SessionContext, role: Station)
    requires ctx.baseRole == Staff
    ensures CanUpdateKitchenItem(ctx, role) <==> ctx.currentShiftRole == Some(role)
    ensures ctx.currentShiftRole == Some(Shisha) ==> !CanUpdateKitchenItem(ctx, Barista)
    ensures ctx.currentShiftRole == Some(Barista) ==> !CanUpdateKitchenItem(ctx, Shisha)
  {
  }
}
