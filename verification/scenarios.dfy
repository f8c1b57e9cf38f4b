/**
 * Replays of the repository's own test cases (steps_tracking/tests.py,
 * rewards/tests.py) on the model: each starts from an empty database,
 * makes its users with a phone number as identifier and drives the
 * handlers in the order the test does. Dates and clock values are plain parameters.
 */
module Scenarios {
  import opened Wrappers
  import opened Ids
  import Identity
  import StepsTracking
  import Partners
  import Rewards
  import Promotions
  import Ledger
  import Uuid

  const BaseUrl: string := "https://walkpoint.example/api"
  const Phone1: string := "+71"
  const Phone2: string := "+72"

  /** A registration by phone number with matching passwords. */
  function PhoneSignUp(phone: string): (d: Identity.Registration)
    ensures d.identifier == phone && d.password == d.password2
  {
    Identity.Registration(phone, "walk-secret", "walk-secret", Some("Test"), Some("User"))
  }

  /** A fresh database holding one user registered by phone under key `u`, with no coins. */
  method OneUser(u: UserId) returns (db: Ledger.Database)
    ensures fresh(db) && db.Valid()
    ensures db.tables.users.Keys == {u} && db.tables.users[u].coins == 0
    ensures db.tables.users[u].phoneNumber == Some(Phone1) && db.tables.users[u].email == None
    ensures db.tables.activities == map[] && db.tables.transactions == []
    ensures db.tables.partnerOf == map[] && db.tables.partners == map[]
    ensures db.tables.templates == map[] && db.tables.coupons == map[]
  {
    db := new Ledger.Database(BaseUrl);
    assert '@' !in Phone1 by {
      assert Phone1 == ['+', '7', '1'];
    }
    var r := db.Register(PhoneSignUp(Phone1), u);
    assert !Identity.TakenExactly(map[], Phone1);
    assert r.Registered?;
  }

  /**
   * `test_reward_update_on_activity_update`: 5000 steps give 5 coins; raising
   * the same day to 8000 steps leaves 8 coins and a single line of 8.
   */
  method RewardFollowsUpdate(date: Timestamp, t1: Timestamp, t2: Timestamp) returns (coins: int, lines: seq<StepsTracking.CoinTransaction>)
    ensures coins == 8
    ensures |lines| == 1 && lines[0].amount == 8 && lines[0].kind == StepsTracking.Earned
  {
    var db := OneUser(1);
    var a := StepsTracking.DailyActivity(1, date, 5000, 60, 200, None);
    var created := db.CreateActivity(a, t1);
    assert created == Ledger.Recorded;
    assert db.tables.users[1].coins == 5;
    db.UpdateActivity(a.(steps := 8000), t2);
    coins, lines := db.tables.users[1].coins, db.tables.transactions;
  }

  /**
   * `test_reward_removed_when_steps_below_threshold`: 6000 steps give 6
   * coins; lowering the day to 4000 takes them back and deletes the line.
   */
  method RewardTakenBack(date: Timestamp, t1: Timestamp, t2: Timestamp) returns (coins: int, lines: seq<StepsTracking.CoinTransaction>)
    ensures coins == 0 && lines == []
  {
    var db := OneUser(1);
    var a := StepsTracking.DailyActivity(1, date, 6000, 60, 200, None);
    var created := db.CreateActivity(a, t1);
    assert db.tables.users[1].coins == 6;
    db.UpdateActivity(a.(steps := 4000), t2);
    coins, lines := db.tables.users[1].coins, db.tables.transactions;
  }

  /**
   * `test_activity_unique_per_day`: a second activity for the same day is
   * refused by the unique constraint and changes nothing. The test expects
   * a 400; the refusal the code reaches is the constraint's `IntegrityError`.
   */
  method OneActivityPerDay(date: Timestamp, t1: Timestamp, t2: Timestamp) returns (second: Ledger.ActivityOutcome, coins: int)
    ensures second == Ledger.DuplicateActivity && coins == 5
  {
    var db := OneUser(1);
    var a := StepsTracking.DailyActivity(1, date, 5000, 60, 200, None);
    var first := db.CreateActivity(a, t1);
    second := db.CreateActivity(a.(steps := 9000), t2);
    coins := db.tables.users[1].coins;
  }

  /**
   * The users of rewards/tests.py, made with `create_user` and the extra
   * fields the tests pass: the buyer (key 1) with `coins=200` and the
   * partner's account (key 2) with `is_partner=True`.
   */
  method ShopUsers() returns (db: Ledger.Database)
    ensures fresh(db) && db.Valid()
    ensures db.tables.users.Keys == {1, 2} && db.tables.users[1].coins == 200 && db.tables.users[2].isPartner
    ensures db.tables.activities == map[] && db.tables.transactions == []
    ensures db.tables.partnerOf == map[] && db.tables.partners == map[]
    ensures db.tables.templates == map[] && db.tables.coupons == map[]
  {
    db := new Ledger.Database(BaseUrl);
    assert '@' !in Phone1 && '@' !in Phone2 by {
      assert Phone1 == ['+', '7', '1'] && Phone2 == ['+', '7', '2'];
    }
    var buyer := db.CreateUser(Phone1, Some("testpass123"), Identity.NoExtras.(coins := Some(200)), 1);
    assert buyer.Registered?;
    var partner := db.CreateUser(Phone2, Some("testpass123"), Identity.NoExtras.(isPartner := Some(true)), 2);
    assert partner.Registered?;
  }

  /**
   * The partner side of rewards/tests.py: user 2 becomes partner 1 and
   * offers template 1, "Free coffee" at 100 coins with `quantity` in stock.
   */
  method OpenShop(db: Ledger.Database, now: Timestamp, quantity: Option<nat>)
    requires db.Valid() && 2 in db.tables.users && db.tables.partnerOf == map[] && db.tables.partners == map[]
    requires db.tables.templates == map[]
    modifies db
    ensures db.Valid() && db.tables.users == old(db.tables.users)
    ensures db.tables.coupons == old(db.tables.coupons) && db.tables.activities == old(db.tables.activities)
    ensures db.tables.transactions == old(db.tables.transactions)
    ensures 2 in db.tables.partnerOf && db.tables.partnerOf[2] == 1 && 1 !in db.tables.partnerOf
    ensures 1 in db.tables.templates && db.tables.templates[1].partner == 1
    ensures db.tables.templates[1].costCoins == 100 && db.tables.templates[1].quantity == quantity
    ensures db.tables.templates[1].isActive && db.tables.templates[1].title == "Free coffee"
    ensures db.tables.templates[1].purchasedCount == 0
  {
    var added := db.AddPartner(2, 1, "Cafe", "Coffee", None, None);
    var draft := Partners.TemplateDraft(None, 0, "Free coffee", "One cup", 100, None, quantity, None, None);
    var made := db.CreateTemplate(2, draft, 1, now);
  }

  /** One day of 200000 steps earns 200 coins. */
  method Walk200k(date: Timestamp, now: Timestamp) returns (coins: int)
    ensures coins == 200
  {
    var db := OneUser(1);
    var walked := db.CreateActivity(StepsTracking.DailyActivity(1, date, 200000, 600, 9000, None), now);
    coins := db.tables.users[1].coins;
  }

  /** The set-up of rewards/tests.py: a buyer (key 1) holding 200 coins, and the partner's template 1. */
  method Shop(now: Timestamp, quantity: Option<nat>) returns (db: Ledger.Database)
    ensures fresh(db) && db.Valid()
    ensures 1 in db.tables.users && 2 in db.tables.users && db.tables.users[1].coins == 200
    ensures 2 in db.tables.partnerOf && db.tables.partnerOf[2] == 1 && 1 !in db.tables.partnerOf
    ensures 1 in db.tables.templates && db.tables.templates[1].partner == 1
    ensures db.tables.templates[1].costCoins == 100 && db.tables.templates[1].quantity == quantity
    ensures db.tables.templates[1].isActive && db.tables.templates[1].title == "Free coffee"
    ensures db.tables.templates[1].purchasedCount == 0
    ensures db.tables.coupons == map[]
  {
    db := ShopUsers();
    OpenShop(db, now, quantity);
  }

  /**
   * `test_buy_coupon_success` and `test_buy_coupon_with_limited_quantity`:
   * with one in stock the first purchase leaves 100 of the 200 coins and
   * counts one sale; the next purchase is refused as sold out.
   */
  method BuyLastCoupon(now: Timestamp, t1: Uuid.Token, t2: Uuid.Token) returns (first: Ledger.BuyOutcome, coins: int, sold: nat, second: Ledger.BuyOutcome)
    requires t1 != t2
    ensures first.Bought? && !first.coupon.isRedeemed && first.coupon.user == 1
    ensures coins == 100 && sold == 1
    ensures second == Ledger.Refused(Rewards.SoldOut)
  {
    var db := Shop(now, Some(1));
    first := FirstSale(db, t1, now);
    coins, sold := db.tables.users[1].coins, db.tables.templates[1].purchasedCount;
    second := db.BuyCoupon(1, 1, t2, now);
  }

  /** The buyer's purchase of the one coupon in stock: 100 coins paid, the stock used up. */
  method FirstSale(db: Ledger.Database, token: Uuid.Token, now: Timestamp) returns (r: Ledger.BuyOutcome)
    requires db.Valid() && 1 in db.tables.users && db.tables.users[1].coins == 200
    requires 1 in db.tables.templates && db.tables.templates[1].costCoins == 100
    requires db.tables.templates[1].quantity == Some(1) && db.tables.templates[1].isActive
    requires db.tables.templates[1].purchasedCount == 0 && token !in db.tables.coupons
    modifies db
    ensures db.Valid() && 1 in db.tables.users && 1 in db.tables.templates
    ensures r.Bought? && !r.coupon.isRedeemed && r.coupon.user == 1
    ensures db.tables.users[1].coins == 100 && db.tables.templates[1].purchasedCount == 1
    ensures db.tables.templates[1].quantity == Some(0) && db.tables.templates[1].isActive
    ensures db.tables.coupons == old(db.tables.coupons)[token := r.coupon]
  {
    ghost var before := db.tables;
    r := db.BuyCoupon(1, 1, token, now);
    Ledger.SaleEffect(before, 1, 1, r.coupon);
  }

  /** The buyer holds one unredeemed coupon of the partner's template, under `token`. */
  method Bought(now: Timestamp, token: Uuid.Token) returns (db: Ledger.Database)
    ensures fresh(db) && db.Valid()
    ensures 1 in db.tables.users && 2 in db.tables.users
    ensures 2 in db.tables.partnerOf && db.tables.partnerOf[2] == 1 && 1 !in db.tables.partnerOf
    ensures token in db.tables.coupons && !db.tables.coupons[token].isRedeemed
    ensures db.tables.coupons[token].template == 1 && 1 in db.tables.templates
    ensures db.tables.templates[1].partner == 1 && db.tables.templates[1].title == "Free coffee"
  {
    db := Shop(now, None);
    var r := db.BuyCoupon(1, 1, token, now);
  }

  /**
   * `test_redeem_coupon_success`, `test_redeem_already_redeemed_coupon` and
   * `test_redeem_requires_partner_permission`: the buyer may not redeem, the
   * partner may, once; the second attempt reports the first redemption.
   */
  method RedeemOnce(now: Timestamp, token: Uuid.Token, t1: Timestamp, t2: Timestamp)
    returns (byBuyer: Ledger.RedeemOutcome, byPartner: Ledger.RedeemOutcome, again: Ledger.RedeemOutcome)
    ensures byBuyer == Ledger.NotPartner
    ensures byPartner.Redeemed? && byPartner.couponTitle == "Free coffee"
    ensures again == Ledger.AlreadyRedeemed(Some(t1))
  {
    var db := Bought(now, token);
    byBuyer := BuyerTries(db, token, t1);
    byPartner := PartnerRedeems(db, token, t1);
    again := PartnerTriesAgain(db, token, t2);
  }

  /** The owning partner's attempt on a redeemed coupon reports when it was redeemed. */
  method PartnerTriesAgain(db: Ledger.Database, token: Uuid.Token, at: Timestamp) returns (r: Ledger.RedeemOutcome)
    requires db.Valid() && 2 in db.tables.users && 2 in db.tables.partnerOf && db.tables.partnerOf[2] == 1
    requires token in db.tables.coupons && db.tables.coupons[token].isRedeemed
    requires db.tables.coupons[token].template == 1 && 1 in db.tables.templates && db.tables.templates[1].partner == 1
    modifies db
    ensures r == Ledger.AlreadyRedeemed(old(db.tables.coupons[token].redeemedAt))
  {
    r := db.RedeemCoupon(2, token, at);
  }

  /** A user without a partner account is refused and nothing changes. */
  method BuyerTries(db: Ledger.Database, token: Uuid.Token, at: Timestamp) returns (r: Ledger.RedeemOutcome)
    requires db.Valid() && 1 in db.tables.users && 1 !in db.tables.partnerOf
    modifies db
    ensures r == Ledger.NotPartner && db.tables == old(db.tables)
  {
    r := db.RedeemCoupon(1, token, at);
  }

  /** The partner that owns the template redeems the coupon at `at`. */
  method PartnerRedeems(db: Ledger.Database, token: Uuid.Token, at: Timestamp) returns (r: Ledger.RedeemOutcome)
    requires db.Valid() && 2 in db.tables.users && 2 in db.tables.partnerOf && db.tables.partnerOf[2] == 1
    requires token in db.tables.coupons && !db.tables.coupons[token].isRedeemed
    requires db.tables.coupons[token].template == 1 && 1 in db.tables.templates
    requires db.tables.templates[1].partner == 1 && db.tables.templates[1].title == "Free coffee"
    modifies db
    ensures db.Valid() && 2 in db.tables.users && 2 in db.tables.partnerOf && db.tables.partnerOf[2] == 1
    ensures token in db.tables.coupons && db.tables.coupons[token].isRedeemed
    ensures db.tables.coupons[token].redeemedAt == Some(at)
    ensures db.tables.coupons[token].template == 1 && 1 in db.tables.templates && db.tables.templates[1].partner == 1
    ensures r.Redeemed? && r.couponTitle == "Free coffee"
  {
    r := db.RedeemCoupon(2, token, at);
  }

  /**
   * The per-user cap of a promotion: with `max_redemptions_per_user` 1 the
   * first take is admitted and, once its row exists, the next is refused
   * with the cap and the current count. The balance must cover the
   * required steps, since steps are checked before the cap.
   */
  lemma PromotionCapOfOne(p: Promotions.Promotion, u: UserId, now: Timestamp, steps: int)
    requires p.maxRedemptionsPerUser == 1 && steps >= p.requiredSteps
    ensures Promotions.PromotionDenial(steps, p, Promotions.CountRedemptions([], u, p.uuid)).None?
    ensures var rows := [Promotions.UserPromotion(u, p.uuid, now)];
      Promotions.PromotionDenial(steps, p, Promotions.CountRedemptions(rows, u, p.uuid)) == Some(Promotions.LimitReached(1, 1))
  {
    var rows := [Promotions.UserPromotion(u, p.uuid, now)];
    assert rows[1..] == [];
  }
}
