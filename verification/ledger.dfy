/**
 * The backend's tables as one object and the request handlers that move
 * coins, stock and steps between them: the daily reward signal, coupon
 * purchase and redemption, partner and template creation, the partner
 * dashboard, promotion takes (the view and the service), registration and
 * profile updates. Each handler is one atomic step, and every refusal leaves
 * the tables as they were.
 */
module Ledger {
  import opened Wrappers
  import opened Ids
  import opened Uuid
  import Text
  import StepsTracking
  import Partners
  import Rewards
  import Promotions
  import Permissions
  import Identity

  type Users = map<UserId, Identity.User>
  type Templates = map<TemplateId, Partners.CouponTemplate>
  type Coupons = map<Token, Rewards.UserCoupon>
  type Activities = map<(UserId, Timestamp), StepsTracking.DailyActivity>

  // ---------------------------------------------------------------------
  // Integrity of the tables: foreign keys, unique columns, counters

  /** The contents of every table at one moment. */
  datatype Tables = Tables(
    users: Users,
    partners: map<PartnerId, Partners.Partner>,
    partnerOf: map<UserId, PartnerId>,
    partnerAccounts: map<UserId, PartnerAccountId>,
    templates: Templates,
    coupons: Coupons,
    activities: Activities,
    transactions: seq<StepsTracking.CoinTransaction>,
    promotions: map<Token, Promotions.Promotion>,
    userPromotions: seq<Promotions.UserPromotion>)

  /** Each partner row belongs to a user, and `partnerOf` is the reverse side of that one-to-one link. */
  ghost predicate PartnerLinks(ids: set<UserId>, partners: map<PartnerId, Partners.Partner>, partnerOf: map<UserId, PartnerId>) {
    && (forall p :: p in partners ==> partners[p].user in ids && partners[p].user in partnerOf && partnerOf[partners[p].user] == p)
    && (forall u :: u in partnerOf ==> partnerOf[u] in partners && partners[partnerOf[u]].user == u)
  }

  ghost predicate TemplateLinks(templates: Templates, partners: map<PartnerId, Partners.Partner>) {
    forall id :: id in templates ==> templates[id].partner in partners
  }

  /**
   * Coupons are keyed by their token, belong to a user and a template, carry
   * their QR text from creation on, and are redeemed exactly when they have
   * a redemption time.
   */
  ghost predicate CouponLinks(ids: set<UserId>, templates: Templates, coupons: Coupons) {
    forall k :: k in coupons ==>
      && coupons[k].token == k
      && coupons[k].user in ids
      && coupons[k].template in templates
      && coupons[k].qrCode.Some?
      && (coupons[k].isRedeemed <==> coupons[k].redeemedAt.Some?)
  }

  /** `purchased_count` of every template is the number of coupons issued from it. */
  ghost predicate StockCounts(templates: Templates, coupons: Coupons) {
    forall id :: id in templates ==> templates[id].purchasedCount == Rewards.CountCoupons(coupons, id)
  }

  /** Activities are keyed by (user, date), the `unique_together` pair, and belong to a user. */
  ghost predicate ActivityKeys(ids: set<UserId>, activities: Activities) {
    forall k :: k in activities ==> activities[k].user == k.0 && activities[k].date == k.1 && k.0 in ids
  }

  ghost predicate LogLinks(ids: set<UserId>, ts: seq<StepsTracking.CoinTransaction>) {
    forall i :: 0 <= i < |ts| ==> ts[i].user in ids
  }

  /** The `unique=True` email column: two users never share a present email. */
  ghost predicate UniqueEmails(users: Users) {
    forall a, b :: a in users && b in users && a != b && users[a].email.Some? ==> users[a].email != users[b].email
  }

  ghost predicate PromotionKeys(promotions: map<Token, Promotions.Promotion>) {
    forall id :: id in promotions ==> promotions[id].uuid == id
  }

  ghost predicate RedemptionLinks(ids: set<UserId>, promotions: map<Token, Promotions.Promotion>, rows: seq<Promotions.UserPromotion>) {
    forall i :: 0 <= i < |rows| ==> rows[i].user in ids && rows[i].promotion in promotions
  }

  /** Every integrity rule of the schema at once. */
  ghost predicate Consistent(t: Tables) {
    && PartnerLinks(t.users.Keys, t.partners, t.partnerOf)
    && t.partnerAccounts.Keys <= t.users.Keys
    && TemplateLinks(t.templates, t.partners)
    && CouponLinks(t.users.Keys, t.templates, t.coupons)
    && StockCounts(t.templates, t.coupons)
    && ActivityKeys(t.users.Keys, t.activities)
    && LogLinks(t.users.Keys, t.transactions)
    && StepsTracking.UniqueRewards(t.transactions)
    && UniqueEmails(t.users)
    && PromotionKeys(t.promotions)
    && RedemptionLinks(t.users.Keys, t.promotions, t.userPromotions)
  }

  /** Empty tables are consistent. */
  lemma EmptyConsistent()
    ensures Consistent(Tables(map[], map[], map[], map[], map[], map[], map[], [], map[], []))
  {}

  /** Saving a user without touching the email keeps the tables consistent. */
  lemma SaveKeeps(t: Tables, u: UserId, x: Identity.User)
    requires Consistent(t) && u in t.users && x.email == t.users[u].email
    ensures Consistent(t.(users := t.users[u := x]))
  {
    var users' := t.users[u := x];
    assert users'.Keys == t.users.Keys;
    forall a, b | a in users' && b in users' && a != b && users'[a].email.Some?
      ensures users'[a].email != users'[b].email
    {
      assert users'[a].email == t.users[a].email && users'[b].email == t.users[b].email;
    }
  }

  /** Reconciling the reward of one of the users keeps the log linked and one line per (user, day). */
  lemma ReconcileKeeps(t: Tables, a: StepsTracking.DailyActivity, now: Timestamp)
    requires Consistent(t) && a.user in t.users
    ensures Consistent(t.(transactions := StepsTracking.Reconcile(t.transactions, a, now).txns))
  {
    StepsTracking.ReconcileKeepsUnique(t.transactions, a, now);
    var r := StepsTracking.Reconcile(t.transactions, a, now).txns;
    forall i | 0 <= i < |r| ensures r[i].user in t.users {
      assert r[i] in t.transactions || r[i].user == a.user;
    }
  }

  /** Storing an activity of an existing user under its own (user, date) key keeps the tables consistent. */
  lemma ActivityKeeps(t: Tables, a: StepsTracking.DailyActivity)
    requires Consistent(t) && a.user in t.users
    ensures Consistent(t.(activities := t.activities[(a.user, a.date) := a]))
  {}

  /** The tables after `amount` coins were taken from user `u`. */
  function Debit(t: Tables, u: UserId, amount: int): Tables
    requires u in t.users
  {
    t.(users := t.users[u := t.users[u].(coins := t.users[u].coins - amount)])
  }

  /** The tables after `coupon` was issued from template `id`: one more sold, one less in stock, the coupon stored under its token. */
  function Issue(t: Tables, id: TemplateId, coupon: Rewards.UserCoupon): Tables
    requires id in t.templates && t.templates[id].quantity != Some(0)
  {
    t.(templates := t.templates[id := Rewards.AfterSale(t.templates[id])], coupons := t.coupons[coupon.token := coupon])
  }

  /** The tables after user `u` bought `coupon` from template `id`: the cost is debited, then the coupon issued. */
  function Sold(t: Tables, u: UserId, id: TemplateId, coupon: Rewards.UserCoupon): Tables
    requires u in t.users && id in t.templates && t.templates[id].quantity != Some(0)
  {
    Issue(Debit(t, u, t.templates[id].costCoins), id, coupon)
  }

  /**
   * What a sale changes: the buyer's balance drops by the cost, the
   * template counts one more sale and one less in stock, the coupon is
   * stored under its token; every other row and table is as it was.
   */
  lemma SaleEffect(t: Tables, u: UserId, id: TemplateId, coupon: Rewards.UserCoupon)
    requires u in t.users && id in t.templates && t.templates[id].quantity != Some(0)
    ensures Sold(t, u, id, coupon).users.Keys == t.users.Keys
    ensures Sold(t, u, id, coupon).users[u].coins == t.users[u].coins - t.templates[id].costCoins
    ensures Sold(t, u, id, coupon).users[u].(coins := t.users[u].coins) == t.users[u]
    ensures forall v :: v in t.users && v != u ==> Sold(t, u, id, coupon).users[v] == t.users[v]
    ensures Sold(t, u, id, coupon).templates.Keys == t.templates.Keys
    ensures Sold(t, u, id, coupon).templates[id] == Rewards.AfterSale(t.templates[id])
    ensures forall k :: k in t.templates && k != id ==> Sold(t, u, id, coupon).templates[k] == t.templates[k]
    ensures Sold(t, u, id, coupon).coupons == t.coupons[coupon.token := coupon]
    ensures Sold(t, u, id, coupon).(users := t.users, templates := t.templates, coupons := t.coupons) == t
  {}

  /** Taking coins from a user keeps the tables consistent. */
  lemma DebitKeeps(t: Tables, u: UserId, amount: int)
    requires Consistent(t) && u in t.users
    ensures Consistent(Debit(t, u, amount))
  {
    SaveKeeps(t, u, t.users[u].(coins := t.users[u].coins - amount));
  }

  /** A sale keeps the tables consistent: the debit keeps the users' rows, the issue keeps the stock counts. */
  lemma SaleKeeps(t: Tables, u: UserId, id: TemplateId, coupon: Rewards.UserCoupon)
    requires Consistent(t) && u in t.users && id in t.templates && t.templates[id].quantity != Some(0)
    requires coupon.token !in t.coupons && coupon.user == u && coupon.template == id
    requires coupon.qrCode.Some? && !coupon.isRedeemed && coupon.redeemedAt.None?
    ensures Consistent(Sold(t, u, id, coupon))
  {
    DebitKeeps(t, u, t.templates[id].costCoins);
    IssueKeeps(Debit(t, u, t.templates[id].costCoins), id, coupon);
  }

  /** Issuing a coupon counts it for its template and for no other, and keeps every coupon linked. */
  lemma IssueKeeps(t: Tables, id: TemplateId, coupon: Rewards.UserCoupon)
    requires Consistent(t) && id in t.templates && t.templates[id].quantity != Some(0)
    requires coupon.token !in t.coupons && coupon.user in t.users && coupon.template == id
    requires coupon.qrCode.Some? && !coupon.isRedeemed && coupon.redeemedAt.None?
    ensures Consistent(Issue(t, id, coupon))
  {
    IssueKeepsStock(t.templates, t.coupons, id, coupon);
    IssueKeepsLinks(t.users.Keys, t.partners, t.templates, t.coupons, id, coupon);
  }

  lemma IssueKeepsLinks(ids: set<UserId>, partners: map<PartnerId, Partners.Partner>, templates: Templates, coupons: Coupons,
                        id: TemplateId, coupon: Rewards.UserCoupon)
    requires CouponLinks(ids, templates, coupons) && TemplateLinks(templates, partners)
    requires id in templates && templates[id].quantity != Some(0) && coupon.token !in coupons
    requires coupon.user in ids && coupon.template == id && coupon.qrCode.Some? && !coupon.isRedeemed && coupon.redeemedAt.None?
    ensures CouponLinks(ids, templates[id := Rewards.AfterSale(templates[id])], coupons[coupon.token := coupon])
    ensures TemplateLinks(templates[id := Rewards.AfterSale(templates[id])], partners)
  {
    var coupons' := coupons[coupon.token := coupon];
    forall k | k in coupons' ensures coupons'[k].token == k {
      if k != coupon.token {
        assert coupons'[k] == coupons[k];
      }
    }
  }

  lemma IssueKeepsStock(templates: Templates, coupons: Coupons, id: TemplateId, coupon: Rewards.UserCoupon)
    requires StockCounts(templates, coupons) && id in templates && templates[id].quantity != Some(0)
    requires coupon.token !in coupons && coupon.template == id
    ensures StockCounts(templates[id := Rewards.AfterSale(templates[id])], coupons[coupon.token := coupon])
  {
    var templates' := templates[id := Rewards.AfterSale(templates[id])];
    forall k | k in templates'
      ensures templates'[k].purchasedCount == Rewards.CountCoupons(coupons[coupon.token := coupon], k)
    {
      Rewards.CountAfterIssue(coupons, coupon.token, coupon, k);
    }
  }

  /**
   * Replacing a coupon by one with the same token, owner and template, still
   * carrying its QR text and redeemed exactly when it has a redemption time,
   * keeps the tables consistent: no stock count moves.
   */
  lemma CouponUpdateKeeps(t: Tables, token: Token, c: Rewards.UserCoupon)
    requires Consistent(t) && token in t.coupons
    requires c.token == token && c.user == t.coupons[token].user && c.template == t.coupons[token].template
    requires c.qrCode.Some? && (c.isRedeemed <==> c.redeemedAt.Some?)
    ensures Consistent(t.(coupons := t.coupons[token := c]))
  {
    UpdateKeepsStock(t.templates, t.coupons, token, c);
    UpdateKeepsLinks(t.users.Keys, t.templates, t.coupons, token, c);
  }

  lemma UpdateKeepsStock(templates: Templates, coupons: Coupons, token: Token, c: Rewards.UserCoupon)
    requires StockCounts(templates, coupons) && token in coupons && c.template == coupons[token].template
    ensures StockCounts(templates, coupons[token := c])
  {
    forall k | k in templates
      ensures templates[k].purchasedCount == Rewards.CountCoupons(coupons[token := c], k)
    {
      Rewards.CountAfterUpdate(coupons, token, c, k);
    }
  }

  lemma UpdateKeepsLinks(ids: set<UserId>, templates: Templates, coupons: Coupons, token: Token, c: Rewards.UserCoupon)
    requires CouponLinks(ids, templates, coupons) && token in coupons
    requires c.token == token && c.user == coupons[token].user && c.template == coupons[token].template
    requires c.qrCode.Some? && (c.isRedeemed <==> c.redeemedAt.Some?)
    ensures CouponLinks(ids, templates, coupons[token := c])
  {
    var coupons' := coupons[token := c];
    forall k | k in coupons'
      ensures coupons'[k].token == k && coupons'[k].user in ids && coupons'[k].template in templates
      ensures coupons'[k].qrCode.Some? && (coupons'[k].isRedeemed <==> coupons'[k].redeemedAt.Some?)
    {
      if k != token {
        assert coupons'[k] == coupons[k];
      }
    }
  }

  /** A new partner row for a user without one keeps the one-to-one link. */
  lemma PartnerKeeps(t: Tables, id: PartnerId, p: Partners.Partner)
    requires Consistent(t) && id !in t.partners && p.user in t.users && p.user !in t.partnerOf
    ensures Consistent(t.(partners := t.partners[id := p], partnerOf := t.partnerOf[p.user := id]))
  {}

  /** A new template of an existing partner, with nothing sold yet, keeps the tables consistent. */
  lemma TemplateKeeps(t: Tables, id: TemplateId, x: Partners.CouponTemplate)
    requires Consistent(t) && id !in t.templates && x.partner in t.partners && x.purchasedCount == 0
    ensures Consistent(t.(templates := t.templates[id := x]))
  {
    assert Rewards.IssuedFrom(t.coupons, id) == {};
  }

  /** The tables after `row` was recorded: one more row, and the promotion's steps debited from its user. */
  function AfterTake(t: Tables, row: Promotions.UserPromotion): Tables
    requires row.user in t.users && row.promotion in t.promotions
  {
    var user := t.users[row.user];
    t.(userPromotions := t.userPromotions + [row],
       users := t.users[row.user := user.(availableSteps := user.availableSteps - t.promotions[row.promotion].requiredSteps)])
  }

  /** A take the guards let through keeps the tables consistent. */
  lemma TakeKeeps(t: Tables, row: Promotions.UserPromotion)
    requires Consistent(t) && row.user in t.users && row.promotion in t.promotions
    ensures Consistent(AfterTake(t, row))
  {
    var user := t.users[row.user];
    SaveKeeps(t, row.user, user.(availableSteps := user.availableSteps - t.promotions[row.promotion].requiredSteps));
  }

  /**
   * A take the guards let through stays within the cap, counts exactly one
   * more for its (user, promotion) pair and leaves the user's steps
   * non-negative.
   */
  lemma TakeWithinCap(t: Tables, u: UserId, id: Token, now: Timestamp)
    requires u in t.users && id in t.promotions
    requires Promotions.PromotionDenial(t.users[u].availableSteps, t.promotions[id],
               Promotions.CountRedemptions(t.userPromotions, u, id)).None?
    ensures var t' := AfterTake(t, Promotions.UserPromotion(u, id, now));
      && t'.users[u].availableSteps >= 0
      && Promotions.CountRedemptions(t'.userPromotions, u, id) == Promotions.CountRedemptions(t.userPromotions, u, id) + 1
      && Promotions.CountRedemptions(t'.userPromotions, u, id) <= t.promotions[id].maxRedemptionsPerUser
  {
    Promotions.CountAfterAppend(t.userPromotions, Promotions.UserPromotion(u, id, now), u, id);
  }

  /**
   * The outcome of a take of promotion `id` by `u` at `now` on tables `t`,
   * leaving `t'`: refused with the guards' figures and nothing changed, or
   * the row recorded within the cap and the steps debited without going
   * below zero.
   */
  ghost predicate TakeOutcome(t: Tables, u: UserId, id: Token, now: Timestamp, r: PromotionOutcome, t': Tables)
    requires u in t.users && id in t.promotions
  {
    var count := Promotions.CountRedemptions(t.userPromotions, u, id);
    var denial := Promotions.PromotionDenial(t.users[u].availableSteps, t.promotions[id], count);
    && (r.Denied? || r.Taken?)
    && (r.Denied? <==> denial.Some?)
    && (r.Denied? ==> denial == Some(r.denial) && t' == t)
    && (r.Taken? ==>
         && r.row == Promotions.UserPromotion(u, id, now)
         && t' == AfterTake(t, r.row)
         && r.remainingSteps == t'.users[u].availableSteps >= 0
         && Promotions.CountRedemptions(t'.userPromotions, u, id) == count + 1 <= t.promotions[id].maxRedemptionsPerUser)
  }

  /** Adding a user whose email no other user has keeps the tables consistent. */
  lemma UserAddKeeps(t: Tables, newId: UserId, x: Identity.User)
    requires Consistent(t) && newId !in t.users
    requires x.email.Some? ==> forall id :: id in t.users ==> t.users[id].email != x.email
    ensures Consistent(t.(users := t.users[newId := x]))
  {
    var users' := t.users[newId := x];
    forall a, b | a in users' && b in users' && a != b && users'[a].email.Some?
      ensures users'[a].email != users'[b].email
    {
      if a != newId && b != newId {
        assert users'[a] == t.users[a] && users'[b] == t.users[b];
      }
    }
  }

  /**
   * A registration that passes validation stores an email that no user has,
   * not even up to case.
   */
  lemma RegisteredEmailDiffers(users: Users, d: Identity.Registration)
    requires Identity.Validate(users, d).None? && Identity.Register(d).Made?
    ensures var email := Identity.Register(d).user.email;
      email.Some? ==>
        forall id :: id in users && users[id].email.Some? ==>
          && !Text.EqualsIgnoreCase(users[id].email.value, email.value)
          && users[id].email != email
  {
    assert d.identifier != "";
    Identity.RegisteredEmailStored(d);
    var email := Identity.Register(d).user.email;
    if email.Some? {
      forall id | id in users && users[id].email.Some?
        ensures !Text.EqualsIgnoreCase(users[id].email.value, email.value)
        ensures users[id].email != email
      {
        Identity.ValidatedEmailIsNew(users, d, id);
      }
    }
  }

  /** Some user already holds this email in the unique column. */
  predicate EmailInUse(users: Users, email: Option<string>) {
    email.Some? && exists id :: id in users && users[id].email == email
  }

  // ---------------------------------------------------------------------
  // Handler outcomes (the HTTP status each stands for is in its comment)

  /**
   * Creating an activity: 201, or the `IntegrityError` of the (user, date)
   * `unique_together` constraint at the insert (a 500: the serializer's
   * `user` is read-only, so no uniqueness validator runs before it).
   */
  datatype ActivityOutcome = Recorded | DuplicateActivity

  /** `BuyCouponView.post`: 404, one of the three 400 refusals, or 201 with the new coupon. */
  datatype BuyOutcome = TemplateNotFound | Refused(reason: Rewards.Refusal) | Bought(coupon: Rewards.UserCoupon)

  /** `RedeemCouponView.post`: 403 (not a partner), 404, 403 (not the owner), 400, or 200. */
  datatype RedeemOutcome =
    | NotPartner
    | CouponNotFound
    | NotOwner
    | AlreadyRedeemed(redeemedAt: Option<Timestamp>)
    | Redeemed(couponTitle: string, userEmail: Option<string>)

  /** Partner-only handlers: 403 for a caller without a partner, or the created row. */
  datatype TemplateOutcome = NotAllowed | Created(id: TemplateId)

  /** The dashboard figures. */
  datatype Stats = Stats(partnerName: string, totalActiveCoupons: nat, totalSold: nat, revenueCoins: nat)

  /** A promotion take: 404, 400 with the figures of the refusal, or 201 with the row and the new balance. */
  datatype PromotionOutcome =
    | PromotionNotFound
    | Denied(denial: Promotions.Denial)
    | Taken(row: Promotions.UserPromotion, remainingSteps: int)

  /**
   * Creating a user: 400 from the registration's validation, the
   * `ValueError` or `TypeError` of `create_user`, the `IntegrityError` (a
   * 500) of the unique email column, or 201.
   */
  datatype RegisterOutcome =
    | Invalid(error: Identity.RegistrationError)
    | NotCreated(reason: Identity.CreateError)
    | EmailTaken
    | Registered(id: UserId)

  class Database {
    /** `settings.BASE_API_URL`, the prefix of every redeem URL. */
    const baseApiUrl: string
    /** Every table of the schema; each handler replaces it by its new contents in one step. */
    var tables: Tables

    ghost predicate Valid()
      reads this
    {
      Consistent(tables)
    }

    /** An empty database. */
    constructor(baseApiUrl: string)
      ensures Valid() && this.baseApiUrl == baseApiUrl
      ensures tables == Tables(map[], map[], map[], map[], map[], map[], map[], [], map[], [])
    {
      this.baseApiUrl := baseApiUrl;
      tables := Tables(map[], map[], map[], map[], map[], map[], map[], [], map[], []);
      EmptyConsistent();
    }

    /** The requesting user as the permission classes see them. */
    function CallerOf(u: UserId): (c: Permissions.Caller)
      reads this
      requires u in tables.users
      ensures c.Member? && c.user == u
      ensures Permissions.IsPartner(c) <==> u in tables.partnerOf
    {
      Permissions.Member(u,
        if u in tables.partnerOf then Some(tables.partnerOf[u]) else None,
        if u in tables.partnerAccounts then Some(tables.partnerAccounts[u]) else None,
        tables.users[u].isPartner)
    }

    /** `user.save()` of a row whose email is unchanged. */
    method SaveUser(u: UserId, x: Identity.User)
      requires Valid() && u in tables.users && x.email == tables.users[u].email
      modifies this
      ensures Valid()
      ensures tables == old(tables).(users := old(tables).users[u := x])
    {
      SaveKeeps(tables, u, x);
      tables := tables.(users := tables.users[u := x]);
    }

    // -------------------------------------------------------------------
    // Daily activities and the reward signal

    /**
     * `handle_daily_reward`, the `post_save` receiver: the user's balance
     * moves by the reconciliation's difference and the log becomes the
     * reconciled log (what that preserves is proved about `Reconcile`).
     */
    method HandleDailyReward(a: StepsTracking.DailyActivity, now: Timestamp)
      requires Valid() && a.user in tables.users
      modifies this
      ensures Valid()
      ensures var t, r := old(tables), StepsTracking.Reconcile(old(tables).transactions, a, now);
        tables == t.(users := t.users[a.user := t.users[a.user].(coins := t.users[a.user].coins + r.delta)], transactions := r.txns)
    {
      var difference, log := StepsTracking.ReconcileLog(tables.transactions, a, now);
      if difference == 0 {
        return;
      }
      var user := tables.users[a.user];
      SaveUser(a.user, user.(coins := user.coins + difference));
      ReconcileKeeps(tables, a, now);
      tables := tables.(transactions := log);
    }

    /**
     * `DailyActivityListCreateView`: the activity is stamped with the
     * requester; a second activity of the same user and date is refused by
     * the table's unique constraint, and a saved one runs the reward signal.
     */
    method CreateActivity(a: StepsTracking.DailyActivity, now: Timestamp) returns (r: ActivityOutcome)
      requires Valid() && a.user in tables.users
      modifies this
      ensures Valid()
      ensures r == DuplicateActivity <==> (a.user, a.date) in old(tables).activities
      ensures r == DuplicateActivity ==> tables == old(tables)
      ensures r == Recorded ==>
        var t, rec := old(tables), StepsTracking.Reconcile(old(tables).transactions, a, now);
        tables == t.(activities := t.activities[(a.user, a.date) := a],
                     users := t.users[a.user := t.users[a.user].(coins := t.users[a.user].coins + rec.delta)],
                     transactions := rec.txns)
    {
      if (a.user, a.date) in tables.activities {
        return DuplicateActivity;
      }
      StoreActivity(a);
      HandleDailyReward(a, now);
      r := Recorded;
    }

    /** Saving new figures for an existing activity of the same user and date runs the reward signal again. */
    method UpdateActivity(a: StepsTracking.DailyActivity, now: Timestamp)
      requires Valid() && (a.user, a.date) in tables.activities
      modifies this
      ensures Valid()
      ensures var t, rec := old(tables), StepsTracking.Reconcile(old(tables).transactions, a, now);
        tables == t.(activities := t.activities[(a.user, a.date) := a],
                     users := t.users[a.user := t.users[a.user].(coins := t.users[a.user].coins + rec.delta)],
                     transactions := rec.txns)
    {
      StoreActivity(a);
      HandleDailyReward(a, now);
    }

    /** The row write of an activity, keyed by (user, date). */
    method StoreActivity(a: StepsTracking.DailyActivity)
      requires Valid() && (a.user in tables.users || (a.user, a.date) in tables.activities)
      modifies this
      ensures Valid() && a.user in tables.users
      ensures tables == old(tables).(activities := old(tables).activities[(a.user, a.date) := a])
    {
      ActivityKeeps(tables, a);
      tables := tables.(activities := tables.activities[(a.user, a.date) := a]);
    }

    // -------------------------------------------------------------------
    // Coupons

    /**
     * `BuyCouponView.post`: the template must exist; then the guards run in
     * their order (inactive, out of stock, too few coins) and a refusal
     * changes nothing; a purchase debits the cost, takes one from the stock,
     * counts one more sale and issues a fresh, unredeemed coupon.
     */
    method BuyCoupon(u: UserId, id: TemplateId, token: Token, now: Timestamp) returns (r: BuyOutcome)
      requires Valid() && u in tables.users && token !in tables.coupons
      modifies this
      ensures Valid()
      ensures var t := old(tables);
        && (r == TemplateNotFound <==> id !in t.templates)
        && (r.Refused? <==> id in t.templates && Rewards.PurchaseRefusal(t.users[u].coins, t.templates[id]).Some?)
        && (r.Refused? ==> Rewards.PurchaseRefusal(t.users[u].coins, t.templates[id]) == Some(r.reason))
      ensures !r.Bought? ==> tables == old(tables)
      ensures r.Bought? ==> r.coupon == Rewards.NewCoupon(u, id, token, now, baseApiUrl) && tables == Sold(old(tables), u, id, r.coupon)
      ensures r.Bought? ==> tables.users[u].coins >= 0
    {
      if id !in tables.templates {
        return TemplateNotFound;
      }
      var template := tables.templates[id];
      var user := tables.users[u];
      var refusal := Rewards.PurchaseRefusal(user.coins, template);
      if refusal.Some? {
        return Refused(refusal.value);
      }
      var coupon := Rewards.NewCoupon(u, id, token, now, baseApiUrl);
      SaleKeeps(tables, u, id, coupon);
      tables := Sold(tables, u, id, coupon);
      r := Bought(coupon);
    }

    /**
     * `RedeemCouponView.post`: only partners may call it; the coupon must
     * exist and be one of the caller's own templates (checked before the
     * redeemed flag); an already redeemed coupon reports its first
     * redemption time and stays as it is; otherwise it is redeemed now.
     */
    method RedeemCoupon(u: UserId, token: Token, now: Timestamp) returns (r: RedeemOutcome)
      requires Valid() && u in tables.users
      modifies this
      ensures Valid()
      ensures var t := old(tables);
        && (r == NotPartner <==> u !in t.partnerOf)
        && (r == CouponNotFound <==> u in t.partnerOf && token !in t.coupons)
        && (r == NotOwner <==>
             u in t.partnerOf && token in t.coupons && t.templates[t.coupons[token].template].partner != t.partnerOf[u])
        && (r.AlreadyRedeemed? ==> t.coupons[token].isRedeemed && r.redeemedAt == t.coupons[token].redeemedAt)
        && (r.Redeemed? <==>
             && u in t.partnerOf && token in t.coupons
             && t.templates[t.coupons[token].template].partner == t.partnerOf[u]
             && !t.coupons[token].isRedeemed)
      ensures !r.Redeemed? ==> tables == old(tables)
      ensures r.Redeemed? ==>
        var t := old(tables);
        && tables == t.(coupons := t.coupons[token := t.coupons[token].(isRedeemed := true, redeemedAt := Some(now))])
        && r.couponTitle == t.templates[t.coupons[token].template].title
        && r.userEmail == t.users[t.coupons[token].user].email
    {
      if !Permissions.IsPartner(CallerOf(u)) {
        return NotPartner;
      }
      if token !in tables.coupons {
        return CouponNotFound;
      }
      var coupon := tables.coupons[token];
      if tables.templates[coupon.template].partner != tables.partnerOf[u] {
        return NotOwner;
      }
      if coupon.isRedeemed {
        return AlreadyRedeemed(coupon.redeemedAt);
      }
      var redeemed := Rewards.SaveCoupon(coupon.(isRedeemed := true, redeemedAt := Some(now)), baseApiUrl);
      CouponUpdateKeeps(tables, token, redeemed);
      r := Redeemed(tables.templates[coupon.template].title, tables.users[coupon.user].email);
      tables := tables.(coupons := tables.coupons[token := redeemed]);
    }

    // -------------------------------------------------------------------
    // Partners and their templates

    /**
     * Creating a partner row: the one-to-one link refuses a second partner
     * for the same user; the flags default to active.
     */
    method AddPartner(u: UserId, id: PartnerId, name: string, description: string, website: Option<string>, isActive: Option<bool>)
      returns (created: bool)
      requires Valid() && u in tables.users && id !in tables.partners
      modifies this
      ensures Valid()
      ensures created <==> u !in old(tables).partnerOf
      ensures !created ==> tables == old(tables)
      ensures created ==>
        var t := old(tables);
        tables == t.(partners := t.partners[id := Partners.NewPartner(u, name, description, website, isActive)],
                     partnerOf := t.partnerOf[u := id])
    {
      if u in tables.partnerOf {
        return false;
      }
      var p := Partners.NewPartner(u, name, description, website, isActive);
      PartnerKeeps(tables, id, p);
      tables := tables.(partners := tables.partners[id := p], partnerOf := tables.partnerOf[u := id]);
      created := true;
    }

    /**
     * `PartnerCouponManagementView.perform_create`: partners only; the row is
     * stamped with the caller's own partner whatever the payload says.
     */
    method CreateTemplate(u: UserId, d: Partners.TemplateDraft, id: TemplateId, now: Timestamp) returns (r: TemplateOutcome)
      requires Valid() && u in tables.users && id !in tables.templates
      modifies this
      ensures Valid()
      ensures r == NotAllowed <==> u !in old(tables).partnerOf
      ensures r == NotAllowed ==> tables == old(tables)
      ensures r.Created? ==>
        var t, p := old(tables), old(tables).partnerOf[u];
        && r.id == id
        && tables == t.(templates := t.templates[id := Partners.StampTemplate(d, p, now)])
        && Partners.OwnTemplates(tables.templates, p) == Partners.OwnTemplates(t.templates, p) + {id}
    {
      if !Permissions.IsPartner(CallerOf(u)) {
        return NotAllowed;
      }
      var p := tables.partnerOf[u];
      var x := Partners.StampTemplate(d, p, now);
      TemplateKeeps(tables, id, x);
      Partners.OwnAfterCreate(tables.templates, id, d, p, now, p);
      tables := tables.(templates := tables.templates[id := x]);
      r := Created(id);
    }

    /**
     * `PartnerDashboardStatsView.get`: partners only; the number of active
     * templates of every partner, and the sold count and revenue summed over
     * the caller's own templates.
     */
    method DashboardStats(u: UserId) returns (r: Option<Stats>)
      requires Valid() && u in tables.users
      ensures r.None? <==> u !in tables.partnerOf
      ensures r.Some? ==>
        var p := tables.partnerOf[u];
        && r.value.partnerName == tables.partners[p].name
        && r.value.totalActiveCoupons == Partners.TotalActiveCoupons(tables.templates)
        && r.value.totalSold == Partners.TotalSold(tables.templates, p)
        && r.value.revenueCoins == Partners.RevenueCoins(tables.templates, p)
    {
      if !Permissions.IsPartner(CallerOf(u)) {
        return None;
      }
      var templates := tables.templates;
      var p := tables.partnerOf[u];
      var own := Partners.OwnTemplates(templates, p);
      var rest := own;
      var sold, revenue := 0, 0;
      while rest != {}
        invariant rest <= own
        invariant sold + Partners.SumOver(templates, rest, Partners.Sold) == Partners.TotalSold(templates, p)
        invariant revenue + Partners.SumOver(templates, rest, Partners.Revenue) == Partners.RevenueCoins(templates, p)
        decreases rest
      {
        var k :| k in rest;
        Partners.SumOverRemove(templates, rest, k, Partners.Sold);
        Partners.SumOverRemove(templates, rest, k, Partners.Revenue);
        sold := sold + templates[k].purchasedCount;
        revenue := revenue + templates[k].costCoins * templates[k].purchasedCount;
        rest := rest - {k};
      }
      r := Some(Stats(tables.partners[p].name, Partners.TotalActiveCoupons(templates), sold, revenue));
    }

    // -------------------------------------------------------------------
    // Promotions

    /**
     * `PromotionPurchaseView.post`: the promotion must exist and be active;
     * then the steps check, then the per-user cap; a take records one row
     * and debits the steps, reporting the new balance.
     */
    method PurchasePromotion(u: UserId, id: Token, now: Timestamp) returns (r: PromotionOutcome)
      requires Valid() && u in tables.users
      modifies this
      ensures Valid()
      ensures r == PromotionNotFound <==> Promotions.FindActive(old(tables).promotions, id).None?
      ensures r == PromotionNotFound ==> tables == old(tables)
      ensures r != PromotionNotFound ==> TakeOutcome(old(tables), u, id, now, r, tables)
    {
      var found := Promotions.FindActive(tables.promotions, id);
      if found.None? {
        return PromotionNotFound;
      }
      r := Take(u, id, now);
    }

    /**
     * `redeem_promotion`: the same steps check and cap on a given promotion,
     * without the active check.
     */
    method RedeemPromotion(u: UserId, id: Token, now: Timestamp) returns (r: PromotionOutcome)
      requires Valid() && u in tables.users && id in tables.promotions
      modifies this
      ensures Valid()
      ensures TakeOutcome(old(tables), u, id, now, r, tables)
    {
      r := Take(u, id, now);
    }

    /** The guards and effect shared by the view and the service. */
    method Take(u: UserId, id: Token, now: Timestamp) returns (r: PromotionOutcome)
      requires Valid() && u in tables.users && id in tables.promotions
      modifies this
      ensures Valid()
      ensures TakeOutcome(old(tables), u, id, now, r, tables)
    {
      var promotion := tables.promotions[id];
      var user := tables.users[u];
      var count := Promotions.CountRedemptions(tables.userPromotions, u, id);
      var denial := Promotions.PromotionDenial(user.availableSteps, promotion, count);
      if denial.Some? {
        return Denied(denial.value);
      }
      var row := Promotions.UserPromotion(u, id, now);
      TakeKeeps(tables, row);
      TakeWithinCap(tables, u, id, now);
      tables := AfterTake(tables, row);
      r := Taken(row, tables.users[u].availableSteps);
    }

    // -------------------------------------------------------------------
    // Users

    /**
     * `CustomUserManager.create_user` and the `save()` it ends with: the new
     * user gets key `newId`, and an email some user already holds exactly is
     * refused by the unique column.
     */
    method CreateUser(identifier: string, password: Option<string>, extras: Identity.Extras, newId: UserId)
      returns (r: RegisterOutcome)
      requires Valid() && newId !in tables.users
      modifies this
      ensures Valid()
      ensures !r.Invalid?
      ensures r.NotCreated? <==> Identity.CreateUser(identifier, password, extras).Refused?
      ensures r.NotCreated? ==> Identity.CreateUser(identifier, password, extras) == Identity.Refused(r.reason)
      ensures r.EmailTaken? <==>
        Identity.CreateUser(identifier, password, extras).Made?
        && EmailInUse(old(tables).users, Identity.CreateUser(identifier, password, extras).user.email)
      ensures !r.Registered? ==> tables == old(tables)
      ensures r.Registered? ==>
        && r.id == newId
        && tables == old(tables).(users := old(tables).users[newId := Identity.CreateUser(identifier, password, extras).user])
    {
      var creation := Identity.CreateUser(identifier, password, extras);
      if creation.Refused? {
        return NotCreated(creation.error);
      }
      var user := creation.user;
      if EmailInUse(tables.users, user.email) {
        return EmailTaken;
      }
      UserAddKeeps(tables, newId, user);
      tables := tables.(users := tables.users[newId := user]);
      r := Registered(newId);
    }

    /**
     * `UserRegisterSerializer` as written: the exact-match validation, then
     * `create_user` with the identifier, the password and the names. An
     * address equal to a stored one after normalisation passes validation
     * and fails at the unique column.
     */
    method Register(d: Identity.Registration, newId: UserId) returns (r: RegisterOutcome)
      requires Valid() && newId !in tables.users
      modifies this
      ensures Valid()
      ensures r.Invalid? <==> Identity.ValidateAsWritten(old(tables).users, d).Some?
      ensures r.Invalid? ==> Identity.ValidateAsWritten(old(tables).users, d) == Some(r.error)
      ensures r.NotCreated? ==> Identity.Register(d) == Identity.Refused(r.reason)
      ensures r.EmailTaken? <==>
        && Identity.ValidateAsWritten(old(tables).users, d).None?
        && Identity.Register(d).Made? && EmailInUse(old(tables).users, Identity.Register(d).user.email)
      ensures !r.Registered? ==> tables == old(tables)
      ensures r.Registered? ==>
        && r.id == newId && Identity.Register(d).Made?
        && tables == old(tables).(users := old(tables).users[newId := Identity.Register(d).user])
    {
      var error := Identity.ValidateAsWritten(tables.users, d);
      if error.Some? {
        return Invalid(error.value);
      }
      r := CreateUser(d.identifier, Some(d.password), Identity.NamesOnly(d), newId);
    }

    /**
     * Registration with the intended validation: the stored email is new,
     * even ignoring case, so the unique column never refuses it.
     */
    method RegisterIntended(d: Identity.Registration, newId: UserId) returns (r: RegisterOutcome)
      requires Valid() && newId !in tables.users
      modifies this
      ensures Valid()
      ensures r.Invalid? <==> Identity.Validate(old(tables).users, d).Some?
      ensures r.Invalid? ==> Identity.Validate(old(tables).users, d) == Some(r.error)
      ensures !r.EmailTaken?
      ensures r.NotCreated? ==> Identity.Register(d) == Identity.Refused(r.reason)
      ensures !r.Registered? ==> tables == old(tables)
      ensures r.Registered? ==>
        && r.id == newId && Identity.Register(d).Made?
        && tables == old(tables).(users := old(tables).users[newId := Identity.Register(d).user])
      ensures r.Registered? ==>
        var users, email := old(tables).users, Identity.Register(d).user.email;
        email.Some? ==>
          forall id :: id in users && users[id].email.Some? ==> !Text.EqualsIgnoreCase(users[id].email.value, email.value)
    {
      var error := Identity.Validate(tables.users, d);
      if error.Some? {
        return Invalid(error.value);
      }
      if Identity.Register(d).Made? {
        RegisteredEmailDiffers(tables.users, d);
      }
      r := CreateUser(d.identifier, Some(d.password), Identity.NamesOnly(d), newId);
    }

    /** `UserProfileSerializer.update`: only the names change. */
    method UpdateProfile(u: UserId, p: Identity.ProfilePatch)
      requires Valid() && u in tables.users
      modifies this
      ensures Valid()
      ensures tables == old(tables).(users := old(tables).users[u := Identity.ApplyProfile(old(tables).users[u], p)])
    {
      SaveUser(u, Identity.ApplyProfile(tables.users[u], p));
    }
  }
}
