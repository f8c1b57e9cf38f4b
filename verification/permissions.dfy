/**
 * Request-level access checks: the two `IsPartner` classes (partners/ and
 * core/), coupon ownership, and how the promotion detail view chooses its
 * checks per HTTP method.
 */
module Permissions {
  import opened Wrappers
  import opened Ids
  import Partners

  /**
   * The requesting user as the views see it: anonymous, or a user who may
   * have a `partner` relation (partners app), a `partner_account` relation
   * (core app) and the `is_partner` flag.
   */
  datatype Caller =
    | Anonymous
    | Member(user: UserId, partner: Option<PartnerId>, partnerAccount: Option<PartnerAccountId>, isPartnerFlag: bool)

  /** `partners.permissions.IsPartner`: authenticated and holding a partner relation. */
  function IsPartner(c: Caller): (r: bool)
    ensures c.Anonymous? ==> !r
    ensures c.Member? ==> (r <==> c.partner.Some?)
  {
    c.Member? && c.partner.Some?
  }

  /** The `is_partner` flag is never consulted. */
  lemma FlagIgnored(c: Caller, flag: bool)
    requires c.Member?
    ensures IsPartner(c.(isPartnerFlag := flag)) == IsPartner(c)
  {}

  /** `IsOwnerOfCoupon`: the template belongs to the caller's partner. */
  function IsOwnerOfCoupon(c: Caller, t: Partners.CouponTemplate): (r: bool)
    ensures r <==> c.Member? && c.partner == Some(t.partner)
  {
    c.Member? && c.partner.Some? && c.partner.value == t.partner
  }

  /** The template detail view runs both checks; together they mean "the owner". */
  function CanModifyTemplate(c: Caller, t: Partners.CouponTemplate): (r: bool)
    ensures r ==> IsPartner(c)
    ensures r <==> c.Member? && c.partner == Some(t.partner)
  {
    IsPartner(c) && IsOwnerOfCoupon(c, t)
  }

  /** Two different partners can never both modify one template. */
  lemma OwnerUnique(c1: Caller, c2: Caller, t: Partners.CouponTemplate)
    requires CanModifyTemplate(c1, t) && CanModifyTemplate(c2, t)
    ensures c1.partner == c2.partner
  {}

  /** `core.permissions.IsPartner`: authenticated and holding a `partner_account`. */
  function CoreIsPartner(c: Caller): (r: bool)
    ensures c.Anonymous? ==> !r
    ensures c.Member? ==> (r <==> c.partnerAccount.Some?)
  {
    c.Member? && c.partnerAccount.Some?
  }

  datatype HttpMethod = Get | Head | Options | Post | Put | Patch | Delete

  predicate IsWrite(m: HttpMethod) { m == Put || m == Patch || m == Delete }

  /** Outcome of the permission phase of a request. */
  datatype Access = Granted | Denied | ServerError

  /**
   * `PromotionDetail.get_permissions` as written: for writes it returns the
   * instances `IsAuthenticated()` and `IsPartner()`; for every other method
   * it returns the class `IsAuthenticated` itself, whose `has_permission`
   * then fails for lack of an argument, so reads end in a server error.
   * The promotion's owner plays no part.
   */
  function PromotionDetailAccessAsWritten(m: HttpMethod, c: Caller, owner: CorePartnerId): (r: Access)
    ensures IsWrite(m) ==> (r == Granted <==> CoreIsPartner(c)) && r != ServerError
    ensures !IsWrite(m) ==> r == ServerError
  {
    if IsWrite(m) then (if c.Member? && CoreIsPartner(c) then Granted else Denied)
    else ServerError
  }

  /** As written, even an authenticated caller cannot read a promotion. */
  lemma ReadingPromotionFails(c: Caller, owner: CorePartnerId)
    requires c.Member?
    ensures PromotionDetailAccessAsWritten(Get, c, owner) == ServerError
    ensures PromotionDetailAccess(Get, c, owner) == Granted
  {}

  /**
   * The evidently intended checks: any authenticated caller may read; a
   * write needs a partner account. Never a server error.
   */
  function PromotionDetailAccess(m: HttpMethod, c: Caller, owner: CorePartnerId): (r: Access)
    ensures r != ServerError
    ensures IsWrite(m) ==> (r == Granted <==> CoreIsPartner(c))
    ensures !IsWrite(m) ==> (r == Granted <==> c.Member?)
  {
    if IsWrite(m) then (if c.Member? && CoreIsPartner(c) then Granted else Denied)
    else if c.Member? then Granted else Denied
  }

  /** The two versions agree on every write. */
  lemma WritesUnchanged(m: HttpMethod, c: Caller, owner: CorePartnerId)
    requires IsWrite(m)
    ensures PromotionDetailAccess(m, c, owner) == PromotionDetailAccessAsWritten(m, c, owner)
  {}

  /**
   * Writes compare no ownership: a caller with any partner account may
   * change or delete any partner's promotion.
   */
  lemma WritesIgnoreOwner(m: HttpMethod, c: Caller, owner1: CorePartnerId, owner2: CorePartnerId)
    requires IsWrite(m) && CoreIsPartner(c)
    ensures PromotionDetailAccess(m, c, owner1) == PromotionDetailAccess(m, c, owner2) == Granted
  {}
}
