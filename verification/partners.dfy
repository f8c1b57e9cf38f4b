/**
 * Partners and the coupon templates they sell (partners/models.py), the
 * catalogue filters and the dashboard aggregates of partners/views.py.
 */
module Partners {
  import opened Wrappers
  import opened Ids

  /** A business account, one per user (`OneToOneField`). */
  datatype Partner = Partner(
    user: UserId,
    name: string,
    description: string,
    website: Option<string>,
    isActive: bool)

  /**
   * A purchasable coupon kind. `quantity` is the remaining stock, `None`
   * meaning unlimited; `purchasedCount` counts the coupons issued from it.
   */
  datatype CouponTemplate = CouponTemplate(
    partner: PartnerId,
    category: nat,
    title: string,
    description: string,
    costCoins: nat,
    validityDays: nat,
    quantity: Option<nat>,
    purchasedCount: nat,
    isActive: bool,
    createdAt: Timestamp)

  const DefaultValidityDays: nat := 30

  /** A new partner row; `is_active` defaults to true. */
  function NewPartner(user: UserId, name: string, description: string, website: Option<string>, isActive: Option<bool>): (p: Partner)
    ensures p.user == user && p.name == name && p.description == description && p.website == website
    ensures isActive.None? ==> p.isActive
    ensures isActive.Some? ==> p.isActive == isActive.value
  {
    Partner(user, name, description, website, isActive.GetOr(true))
  }

  /**
   * The writable payload of a template creation request. `partner` and
   * `purchasedCount` may be sent, but they are read-only for the serializer.
   */
  datatype TemplateDraft = TemplateDraft(
    partner: Option<PartnerId>,
    category: nat,
    title: string,
    description: string,
    costCoins: nat,
    validityDays: Option<nat>,
    quantity: Option<nat>,
    purchasedCount: Option<nat>,
    isActive: Option<bool>)

  /**
   * The row `perform_create` saves: stamped with the caller's partner
   * whatever the payload says, no coupon sold yet, defaults filled in.
   */
  function StampTemplate(d: TemplateDraft, p: PartnerId, now: Timestamp): (t: CouponTemplate)
    ensures t.partner == p
    ensures t.purchasedCount == 0 && t.createdAt == now
    ensures t.costCoins == d.costCoins && t.quantity == d.quantity && t.title == d.title
    ensures d.validityDays.None? ==> t.validityDays == DefaultValidityDays
    ensures d.validityDays.Some? ==> t.validityDays == d.validityDays.value
    ensures d.isActive.None? ==> t.isActive
    ensures d.isActive.Some? ==> t.isActive == d.isActive.value
  {
    CouponTemplate(p, d.category, d.title, d.description, d.costCoins,
      d.validityDays.GetOr(DefaultValidityDays), d.quantity, 0, d.isActive.GetOr(true), now)
  }

  /** The payload's own partner and sold count have no effect on the saved row. */
  lemma StampIgnoresClaims(d: TemplateDraft, p: PartnerId, now: Timestamp, claimed: Option<PartnerId>, sold: Option<nat>)
    ensures StampTemplate(d.(partner := claimed, purchasedCount := sold), p, now) == StampTemplate(d, p, now)
  {}

  predicate Listed(templates: map<TemplateId, CouponTemplate>, partners: map<PartnerId, Partner>, id: TemplateId) {
    id in templates && templates[id].isActive
      && templates[id].partner in partners && partners[templates[id].partner].isActive
  }

  /** The marketplace queryset: active templates of active partners. */
  function Marketplace(templates: map<TemplateId, CouponTemplate>, partners: map<PartnerId, Partner>): (r: set<TemplateId>)
    ensures r <= templates.Keys
    ensures forall id :: id in r <==> Listed(templates, partners, id)
  {
    set id | id in templates && Listed(templates, partners, id)
  }

  /** The partner's coupon list: exactly the templates stamped with that partner. */
  function OwnTemplates(templates: map<TemplateId, CouponTemplate>, p: PartnerId): (r: set<TemplateId>)
    ensures r <= templates.Keys
    ensures forall id :: id in r <==> id in templates && templates[id].partner == p
  {
    set id | id in templates && templates[id].partner == p
  }

  /** A template created by `p` joins `p`'s list and no other partner's. */
  lemma OwnAfterCreate(templates: map<TemplateId, CouponTemplate>, id: TemplateId, d: TemplateDraft, p: PartnerId, now: Timestamp, q: PartnerId)
    requires id !in templates
    ensures OwnTemplates(templates[id := StampTemplate(d, p, now)], p) == OwnTemplates(templates, p) + {id}
    ensures q != p ==> OwnTemplates(templates[id := StampTemplate(d, p, now)], q) == OwnTemplates(templates, q)
  {
    var t' := templates[id := StampTemplate(d, p, now)];
    assert OwnTemplates(t', p) == OwnTemplates(templates, p) + {id};
  }

  /** Deactivating a partner removes exactly its templates from the marketplace. */
  lemma DeactivatedPartnerHidden(templates: map<TemplateId, CouponTemplate>, partners: map<PartnerId, Partner>, p: PartnerId)
    requires p in partners
    ensures Marketplace(templates, partners[p := partners[p].(isActive := false)])
         == Marketplace(templates, partners) - OwnTemplates(templates, p)
  {
    var partners' := partners[p := partners[p].(isActive := false)];
    assert Marketplace(templates, partners') == Marketplace(templates, partners) - OwnTemplates(templates, p);
  }

  /** Stock is not part of the filter: a sold-out template stays listed. */
  lemma SoldOutStillListed(templates: map<TemplateId, CouponTemplate>, partners: map<PartnerId, Partner>, id: TemplateId)
    requires id in Marketplace(templates, partners)
    ensures id in Marketplace(templates[id := templates[id].(quantity := Some(0))], partners)
  {
    assert Listed(templates[id := templates[id].(quantity := Some(0))], partners, id);
  }

  /** `total_active_coupons`: active templates of every partner, the caller's or not. */
  function TotalActiveCoupons(templates: map<TemplateId, CouponTemplate>): (r: nat)
    ensures r <= |templates|
    ensures forall p :: |ActiveOwn(templates, p)| <= r
  {
    var active := set id | id in templates && templates[id].isActive;
    assert active <= templates.Keys;
    SubsetSize(active, templates.Keys);
    forall p ensures |ActiveOwn(templates, p)| <= |active| {
      SubsetSize(ActiveOwn(templates, p), active);
    }
    |active|
  }

  /** The partner's own active templates. */
  function ActiveOwn(templates: map<TemplateId, CouponTemplate>, p: PartnerId): set<TemplateId> {
    set id | id in OwnTemplates(templates, p) && templates[id].isActive
  }

  /** What a template contributes to a dashboard figure. */
  datatype Measure = Sold | Revenue

  function Contribution(t: CouponTemplate, m: Measure): nat {
    match m
    case Sold => t.purchasedCount
    case Revenue => t.costCoins * t.purchasedCount
  }

  /** The sum of a measure over some templates, in whatever order they are visited. */
  ghost function SumOver(templates: map<TemplateId, CouponTemplate>, keys: set<TemplateId>, m: Measure): nat
    requires keys <= templates.Keys
    decreases keys
  {
    if keys == {} then 0
    else
      var k :| k in keys;
      Contribution(templates[k], m) + SumOver(templates, keys - {k}, m)
  }

  /** The sum does not depend on the order: any template can be taken out first. */
  lemma {:induction false} SumOverRemove(templates: map<TemplateId, CouponTemplate>, keys: set<TemplateId>, k: TemplateId, m: Measure)
    requires keys <= templates.Keys && k in keys
    ensures SumOver(templates, keys, m) == Contribution(templates[k], m) + SumOver(templates, keys - {k}, m)
    decreases keys
  {
    var j :| j in keys && SumOver(templates, keys, m) == Contribution(templates[j], m) + SumOver(templates, keys - {j}, m);
    if j != k {
      SumOverRemove(templates, keys - {j}, k, m);
      SumOverRemove(templates, keys - {k}, j, m);
      assert keys - {j} - {k} == keys - {k} - {j};
    }
  }

  /** The sum reads only the rows it is taken over. */
  lemma {:induction false} SumOverAgree(t1: map<TemplateId, CouponTemplate>, t2: map<TemplateId, CouponTemplate>, keys: set<TemplateId>, m: Measure)
    requires keys <= t1.Keys && keys <= t2.Keys
    requires forall k :: k in keys ==> t1[k] == t2[k]
    ensures SumOver(t1, keys, m) == SumOver(t2, keys, m)
    decreases keys
  {
    if keys != {} {
      var k :| k in keys;
      SumOverRemove(t1, keys, k, m);
      SumOverRemove(t2, keys, k, m);
      SumOverAgree(t1, t2, keys - {k}, m);
    }
  }

  /** Replacing one row changes the sum by the difference of its contributions. */
  lemma SumOverUpdate(templates: map<TemplateId, CouponTemplate>, keys: set<TemplateId>, k: TemplateId, t: CouponTemplate, m: Measure)
    requires keys <= templates.Keys && k in keys
    ensures SumOver(templates[k := t], keys, m) + Contribution(templates[k], m)
         == SumOver(templates, keys, m) + Contribution(t, m)
  {
    var t' := templates[k := t];
    SumOverRemove(templates, keys, k, m);
    SumOverRemove(t', keys, k, m);
    SumOverAgree(templates, t', keys - {k}, m);
  }

  /** `total_sold`: issued coupons over the partner's own templates (0 when it has none). */
  ghost function TotalSold(templates: map<TemplateId, CouponTemplate>, p: PartnerId): nat {
    SumOver(templates, OwnTemplates(templates, p), Sold)
  }

  /** `revernue_coins`: cost times issued count, summed over the partner's own templates. */
  ghost function RevenueCoins(templates: map<TemplateId, CouponTemplate>, p: PartnerId): nat {
    SumOver(templates, OwnTemplates(templates, p), Revenue)
  }

  /** One more coupon sold from an own template adds one to the sold figure and its cost to the revenue. */
  lemma SaleMovesDashboard(templates: map<TemplateId, CouponTemplate>, id: TemplateId, t: CouponTemplate)
    requires id in templates && t.partner == templates[id].partner
    requires t.costCoins == templates[id].costCoins && t.purchasedCount == templates[id].purchasedCount + 1
    ensures TotalSold(templates[id := t], t.partner) == TotalSold(templates, t.partner) + 1
    ensures RevenueCoins(templates[id := t], t.partner) == RevenueCoins(templates, t.partner) + t.costCoins
  {
    var p := t.partner;
    var own := OwnTemplates(templates, p);
    assert OwnTemplates(templates[id := t], p) == own;
    SumOverUpdate(templates, own, id, t, Sold);
    SumOverUpdate(templates, own, id, t, Revenue);
    OneMoreSale(templates[id], t);
  }

  /** A row with one more sale at the same cost contributes one more to the sold figure and its cost more to the revenue. */
  lemma OneMoreSale(before: CouponTemplate, after: CouponTemplate)
    requires after.costCoins == before.costCoins && after.purchasedCount == before.purchasedCount + 1
    ensures Contribution(after, Sold) == Contribution(before, Sold) + 1
    ensures Contribution(after, Revenue) == Contribution(before, Revenue) + after.costCoins
  {
    calc {
      Contribution(after, Revenue);
    ==
      before.costCoins * (before.purchasedCount + 1);
    ==
      before.costCoins * before.purchasedCount + before.costCoins;
    }
  }

  /** Another partner's sale leaves the dashboard unchanged. */
  lemma OtherSaleInvisible(templates: map<TemplateId, CouponTemplate>, id: TemplateId, t: CouponTemplate, p: PartnerId)
    requires id in templates && t.partner == templates[id].partner && p != t.partner
    ensures TotalSold(templates[id := t], p) == TotalSold(templates, p)
    ensures RevenueCoins(templates[id := t], p) == RevenueCoins(templates, p)
  {
    var own := OwnTemplates(templates, p);
    assert OwnTemplates(templates[id := t], p) == own;
    SumOverAgree(templates, templates[id := t], own, Sold);
    SumOverAgree(templates, templates[id := t], own, Revenue);
  }

  /** Two own templates, 50 coins x 10 sold and 100 coins x 5 sold, beside another partner's. */
  lemma DashboardExample(p: PartnerId, q: PartnerId)
    requires p != q
    ensures var templates := map[
        1 := CouponTemplate(p, 0, "A", "", 50, 30, None, 10, true, 0),
        2 := CouponTemplate(p, 0, "B", "", 100, 30, Some(3), 5, false, 0),
        3 := CouponTemplate(q, 0, "C", "", 7, 30, None, 3, true, 0)];
      TotalSold(templates, p) == 15 && RevenueCoins(templates, p) == 1000
      && TotalActiveCoupons(templates) == 2
  {
    var templates := map[
        1 := CouponTemplate(p, 0, "A", "", 50, 30, None, 10, true, 0),
        2 := CouponTemplate(p, 0, "B", "", 100, 30, Some(3), 5, false, 0),
        3 := CouponTemplate(q, 0, "C", "", 7, 30, None, 3, true, 0)];
    var own := OwnTemplates(templates, p);
    assert own == {1, 2};
    assert own - {1} == {2};
    assert own - {1} - {2} == {};
    SumOverRemove(templates, own, 1, Sold);
    SumOverRemove(templates, own - {1}, 2, Sold);
    SumOverRemove(templates, own, 1, Revenue);
    SumOverRemove(templates, own - {1}, 2, Revenue);
    assert (set id | id in templates && templates[id].isActive) == {1, 3};
  }
}
