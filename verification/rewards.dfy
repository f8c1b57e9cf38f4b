/**
 * Issued coupons (rewards/models.py) and the pure parts of the coupon views
 * (rewards/views.py): the purchase guards in their order, the redeem URL a
 * coupon's QR code encodes, and the caller's coupon list.
 */
module Rewards {
  import opened Wrappers
  import opened Ids
  import opened Uuid
  import Ordering
  import Partners

  /**
   * A coupon a user bought. `qrCode` holds the text the QR image encodes,
   * `None` while no image has been generated.
   */
  datatype UserCoupon = UserCoupon(
    user: UserId,
    template: TemplateId,
    token: Token,
    qrCode: Option<string>,
    isRedeemed: bool,
    redeemedAt: Option<Timestamp>,
    purchasedAt: Timestamp)

  const RedeemPath := "/api/rewards/redeem/"

  /** The text of the QR code: `BASE_API_URL` + "/api/rewards/redeem/" + uuid + "/". */
  function RedeemUrl(base: string, t: Token): (url: string)
    ensures |url| == |base| + 57
    ensures url[..|base|] == base
  {
    base + RedeemPath + UuidText(t) + "/"
  }

  /** Reads the token back out of a redeem URL, whatever the base. */
  function TokenOfRedeemUrl(url: string): Option<Token> {
    if |url| >= 57 && url[|url| - 57..|url| - 37] == RedeemPath && url[|url| - 1] == '/' then
      ParseUuid(url[|url| - 37..|url| - 1])
    else None
  }

  /** The URL printed on a coupon leads back to that coupon's token. */
  lemma RedeemUrlRoundTrip(base: string, t: Token)
    ensures TokenOfRedeemUrl(RedeemUrl(base, t)) == Some(t)
  {
    var url := RedeemUrl(base, t);
    var n := |base|;
    assert url[n..n + 20] == RedeemPath;
    assert url[n + 20..n + 56] == UuidText(t);
    UuidRoundTrip(t);
  }

  /** Coupons with different tokens never share a redeem URL. */
  lemma RedeemUrlInjective(base: string, t1: Token, t2: Token)
    requires RedeemUrl(base, t1) == RedeemUrl(base, t2)
    ensures t1 == t2
  {
    RedeemUrlRoundTrip(base, t1);
    RedeemUrlRoundTrip(base, t2);
  }

  /**
   * `UserCoupon.save`: fills in the QR code when it is empty and leaves
   * every other field alone.
   */
  function SaveCoupon(c: UserCoupon, base: string): (r: UserCoupon)
    ensures r.qrCode.Some?
    ensures c.qrCode.Some? ==> r == c
    ensures c.qrCode.None? ==> TokenOfRedeemUrl(r.qrCode.value) == Some(c.token)
    ensures r == c.(qrCode := r.qrCode)
  {
    if c.qrCode.None? then
      RedeemUrlRoundTrip(base, c.token);
      c.(qrCode := Some(RedeemUrl(base, c.token)))
    else c
  }

  /** Saving again keeps the code already generated, even with another base URL. */
  lemma SaveKeepsCode(c: UserCoupon, base: string, base': string)
    ensures SaveCoupon(SaveCoupon(c, base), base') == SaveCoupon(c, base)
  {}

  /** The coupon `create` inserts: unredeemed, stamped now, its QR code generated by `save`. */
  function NewCoupon(u: UserId, template: TemplateId, token: Token, now: Timestamp, base: string): (c: UserCoupon)
    ensures c.user == u && c.template == template && c.token == token && c.purchasedAt == now
    ensures !c.isRedeemed && c.redeemedAt.None?
    ensures c.qrCode.Some?
  {
    UserCoupon(u, template, token, Some(RedeemUrl(base, token)), false, None, now)
  }

  /** The inserted row is what `save` makes of the unsaved one: the defaults plus a generated QR code. */
  lemma NewCouponIsSaved(u: UserId, template: TemplateId, token: Token, now: Timestamp, base: string)
    ensures NewCoupon(u, template, token, now, base) == SaveCoupon(UserCoupon(u, template, token, None, false, None, now), base)
  {}

  /** Scanning a new coupon's QR code leads back to that coupon. */
  lemma NewCouponLeadsBack(u: UserId, template: TemplateId, token: Token, now: Timestamp, base: string)
    ensures TokenOfRedeemUrl(NewCoupon(u, template, token, now, base).qrCode.value) == Some(token)
  {
    RedeemUrlRoundTrip(base, token);
  }

  /** `__str__`: "Coupon for <user> - <template title>". */
  function CouponLabel(userLabel: string, title: string): (r: string)
    ensures |r| == 14 + |userLabel| + |title|
    ensures r[..11] == "Coupon for " && r[11..11 + |userLabel|] == userLabel
    ensures r[|r| - |title|..] == title
  {
    "Coupon for " + userLabel + " - " + title
  }

  /** Why a purchase is refused, in the order the view checks. */
  datatype Refusal = Unavailable | SoldOut | NotEnoughCoins

  /**
   * The guards of `BuyCouponView.post` on a found template: inactive first,
   * then out of stock, then too few coins.
   */
  function PurchaseRefusal(coins: int, t: Partners.CouponTemplate): (r: Option<Refusal>)
    ensures r.None? <==> t.isActive && t.quantity != Some(0) && coins >= t.costCoins
    ensures r == Some(Unavailable) <==> !t.isActive
    ensures r == Some(SoldOut) <==> t.isActive && t.quantity == Some(0)
    ensures r == Some(NotEnoughCoins) ==> coins < t.costCoins
  {
    if !t.isActive then Some(Unavailable)
    else if t.quantity.Some? && t.quantity.value <= 0 then Some(SoldOut)
    else if coins < t.costCoins then Some(NotEnoughCoins)
    else None
  }

  /** An out-of-stock refusal is given whatever the buyer's balance. */
  lemma StockCheckedBeforeCoins(t: Partners.CouponTemplate, c1: int, c2: int)
    requires t.isActive && t.quantity == Some(0)
    ensures PurchaseRefusal(c1, t) == PurchaseRefusal(c2, t) == Some(SoldOut)
  {}

  /** The template after one sale: one fewer in stock (when counted), one more sold. */
  function AfterSale(t: Partners.CouponTemplate): (r: Partners.CouponTemplate)
    requires t.quantity != Some(0)
    ensures r.purchasedCount == t.purchasedCount + 1
    ensures t.quantity.None? ==> r.quantity.None?
    ensures t.quantity.Some? ==> r.quantity.Some? && r.quantity.value + 1 == t.quantity.value
    ensures r.(quantity := t.quantity, purchasedCount := t.purchasedCount) == t
  {
    var q := if t.quantity.Some? then Some(t.quantity.value - 1) else None;
    t.(quantity := q, purchasedCount := t.purchasedCount + 1)
  }

  /** Stock plus sold is kept by a sale, so a template with quantity n sells at most n coupons. */
  lemma SaleConservesStock(t: Partners.CouponTemplate)
    requires t.quantity.Some? && t.quantity.value > 0
    ensures AfterSale(t).quantity.value + AfterSale(t).purchasedCount == t.quantity.value + t.purchasedCount
  {}

  /** Every coupon kind the marketplace lists passes the active check of a purchase. */
  lemma ListedIsAvailable(templates: map<TemplateId, Partners.CouponTemplate>, partners: map<PartnerId, Partners.Partner>, id: TemplateId, coins: int)
    requires id in Partners.Marketplace(templates, partners)
    ensures PurchaseRefusal(coins, templates[id]) != Some(Unavailable)
  {}

  /** The tokens of the coupons issued from a template. */
  function IssuedFrom(coupons: map<Token, UserCoupon>, template: TemplateId): set<Token> {
    set k | k in coupons && coupons[k].template == template
  }

  /** How many coupons have been issued from a template. */
  function CountCoupons(coupons: map<Token, UserCoupon>, template: TemplateId): nat {
    |IssuedFrom(coupons, template)|
  }

  /** Issuing a coupon of `template` counts one more for it and none for any other. */
  lemma CountAfterIssue(coupons: map<Token, UserCoupon>, k: Token, c: UserCoupon, template: TemplateId)
    requires k !in coupons
    ensures CountCoupons(coupons[k := c], template)
         == CountCoupons(coupons, template) + (if c.template == template then 1 else 0)
  {
    var coupons' := coupons[k := c];
    if c.template == template {
      assert IssuedFrom(coupons', template) == IssuedFrom(coupons, template) + {k};
    } else {
      assert IssuedFrom(coupons', template) == IssuedFrom(coupons, template);
    }
  }

  /** Changing a coupon without moving it to another template keeps every count. */
  lemma CountAfterUpdate(coupons: map<Token, UserCoupon>, k: Token, c: UserCoupon, template: TemplateId)
    requires k in coupons && c.template == coupons[k].template
    ensures CountCoupons(coupons[k := c], template) == CountCoupons(coupons, template)
  {
    var coupons' := coupons[k := c];
    assert IssuedFrom(coupons', template) == IssuedFrom(coupons, template);
  }

  /** `order_by('is_redeemed', '-purchased_at')`. */
  function CouponKey(c: UserCoupon): Ordering.Key {
    (if c.isRedeemed then 1 else 0, -(c.purchasedAt as int))
  }

  /** The caller's rows of the coupon table. */
  function OwnCoupons(coupons: map<Token, UserCoupon>, u: UserId): (m: map<Token, UserCoupon>)
    ensures forall c :: c in m.Values <==> c in coupons.Values && c.user == u
  {
    var m := map k | k in coupons && coupons[k].user == u :: coupons[k];
    assert forall c :: c in coupons.Values && c.user == u ==> c in m.Values by {
      forall c | c in coupons.Values && c.user == u ensures c in m.Values {
        var k :| k in coupons && coupons[k] == c;
        assert m[k] == c;
      }
    }
    m
  }

  /**
   * The my-coupons list: only the caller's coupons, each once, unredeemed
   * ones first and, within each group, the newest purchase first.
   */
  ghost function MyCoupons(coupons: map<Token, UserCoupon>, u: UserId): (r: seq<UserCoupon>)
    ensures forall c :: c in r <==> c in coupons.Values && c.user == u
    ensures |r| == |OwnCoupons(coupons, u)|
    ensures forall i, j :: 0 <= i < j < |r| && r[i].isRedeemed ==> r[j].isRedeemed
    ensures forall i, j :: 0 <= i < j < |r| && r[i].isRedeemed == r[j].isRedeemed ==> r[i].purchasedAt >= r[j].purchasedAt
  {
    var listed := Ordering.ValuesOf(OwnCoupons(coupons, u));
    var r := Ordering.SortBy(listed, CouponKey);
    UnredeemedFirst(r);
    assert forall c :: c in r <==> c in multiset(listed);
    assert |r| == |listed| by { assert |multiset(r)| == |multiset(listed)|; }
    r
  }

  lemma UnredeemedFirst(r: seq<UserCoupon>)
    requires Ordering.SortedBy(r, CouponKey)
    ensures forall i, j :: 0 <= i < j < |r| && r[i].isRedeemed ==> r[j].isRedeemed
    ensures forall i, j :: 0 <= i < j < |r| && r[i].isRedeemed == r[j].isRedeemed ==> r[i].purchasedAt >= r[j].purchasedAt
  {
    forall i, j | 0 <= i < j < |r|
      ensures r[i].isRedeemed ==> r[j].isRedeemed
      ensures r[i].isRedeemed == r[j].isRedeemed ==> r[i].purchasedAt >= r[j].purchasedAt
    {
      assert Ordering.KeyLe(CouponKey(r[i]), CouponKey(r[j]));
    }
  }
}
