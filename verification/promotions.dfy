/**
 * Step-priced promotions (core/views.py, core/services.py). A promotion costs
 * `requiredSteps` of the user's `available_steps` and may be taken at most
 * `maxRedemptionsPerUser` times by each user; every take is a
 * `UserPromotion` row.
 */
module Promotions {
  import opened Wrappers
  import opened Ids
  import opened Uuid
  import Ordering

  datatype Promotion = Promotion(
    uuid: Token,
    partner: CorePartnerId,
    title: string,
    description: string,
    requiredSteps: nat,
    isActive: bool,
    maxRedemptionsPerUser: nat)

  datatype UserPromotion = UserPromotion(user: UserId, promotion: Token, redeemedAt: Timestamp)

  /** `Promotion.objects.get(uuid=..., is_active=True)`: found only when it exists and is active. */
  function FindActive(promotions: map<Token, Promotion>, id: Token): (r: Option<Promotion>)
    ensures r.Some? <==> id in promotions && promotions[id].isActive
    ensures r.Some? ==> r.value == promotions[id]
  {
    if id in promotions && promotions[id].isActive then Some(promotions[id]) else None
  }

  /** The all-promotions list: the active ones. */
  function ActivePromotions(promotions: map<Token, Promotion>): (r: set<Token>)
    ensures forall id :: id in r <==> FindActive(promotions, id).Some?
  {
    set id | id in promotions && promotions[id].isActive
  }

  /** `UserPromotion.objects.filter(user=u, promotion=p).count()`. */
  function CountRedemptions(rows: seq<UserPromotion>, u: UserId, p: Token): (n: nat)
    ensures n <= |rows|
    ensures n == 0 <==> forall i :: 0 <= i < |rows| ==> !(rows[i].user == u && rows[i].promotion == p)
  {
    if rows == [] then 0
    else (if rows[0].user == u && rows[0].promotion == p then 1 else 0) + CountRedemptions(rows[1..], u, p)
  }

  /**
   * A new row counts for its own (user, promotion) pair only: other users'
   * redemptions never use up a user's allowance.
   */
  lemma {:induction false} CountAfterAppend(rows: seq<UserPromotion>, row: UserPromotion, u: UserId, p: Token)
    ensures CountRedemptions(rows + [row], u, p)
         == CountRedemptions(rows, u, p) + (if row.user == u && row.promotion == p then 1 else 0)
  {
    if rows != [] {
      assert (rows + [row])[1..] == rows[1..] + [row];
      CountAfterAppend(rows[1..], row, u, p);
    }
  }

  /** Why a promotion take is refused, with the figures the response reports. */
  datatype Denial = InsufficientSteps(required: nat, available: int) | LimitReached(max: nat, current: nat)

  /**
   * The guards of both the purchase view and `redeem_promotion`, on a found
   * promotion: steps first, then the per-user cap.
   */
  function PromotionDenial(available: int, p: Promotion, count: nat): (r: Option<Denial>)
    ensures r.None? <==> available >= p.requiredSteps && count < p.maxRedemptionsPerUser
    ensures available < p.requiredSteps ==> r == Some(InsufficientSteps(p.requiredSteps, available))
    ensures available >= p.requiredSteps && count >= p.maxRedemptionsPerUser
        ==> r == Some(LimitReached(p.maxRedemptionsPerUser, count))
  {
    if available < p.requiredSteps then Some(InsufficientSteps(p.requiredSteps, available))
    else if count >= p.maxRedemptionsPerUser then Some(LimitReached(p.maxRedemptionsPerUser, count))
    else None
  }

  /** Once a user has reached the cap, every further take by that user is refused. */
  lemma CapIsFinal(rows: seq<UserPromotion>, more: seq<UserPromotion>, u: UserId, p: Promotion, available: int)
    requires CountRedemptions(rows, u, p.uuid) >= p.maxRedemptionsPerUser
    ensures PromotionDenial(available, p, CountRedemptions(rows + more, u, p.uuid)).Some?
  {
    CountGrows(rows, more, u, p.uuid);
  }

  /** Adding rows never lowers a count. */
  lemma {:induction false} CountGrows(rows: seq<UserPromotion>, more: seq<UserPromotion>, u: UserId, p: Token)
    ensures CountRedemptions(rows + more, u, p) >= CountRedemptions(rows, u, p)
    decreases |more|
  {
    if more == [] {
      assert rows + more == rows;
    } else {
      var init := more[..|more| - 1];
      assert rows + more == (rows + init) + [more[|more| - 1]];
      CountGrows(rows, init, u, p);
      CountAfterAppend(rows + init, more[|more| - 1], u, p);
    }
  }

  /** With a zero cap nobody can ever take the promotion. */
  lemma ZeroCapNeverAdmits(p: Promotion, available: int, count: nat)
    requires p.maxRedemptionsPerUser == 0
    ensures PromotionDenial(available, p, count).Some?
  {}

  function RedemptionKey(r: UserPromotion): Ordering.Key { (0, -(r.redeemedAt as int)) }

  /** The my-redemptions list: the caller's rows only, newest first. */
  function UserRedemptions(rows: seq<UserPromotion>, u: UserId): (r: seq<UserPromotion>)
    ensures forall x :: x in r <==> x in rows && x.user == u
    ensures forall i, j :: 0 <= i < j < |r| ==> r[i].redeemedAt >= r[j].redeemedAt
    ensures forall x :: multiset(r)[x] == if x.user == u then multiset(rows)[x] else 0
  {
    var mine := OwnRows(rows, u);
    var r := Ordering.SortBy(mine, RedemptionKey);
    assert forall x :: x in r <==> x in multiset(mine);
    forall i, j | 0 <= i < j < |r| ensures r[i].redeemedAt >= r[j].redeemedAt {
      assert Ordering.KeyLe(RedemptionKey(r[i]), RedemptionKey(r[j]));
    }
    r
  }

  function OwnRows(rows: seq<UserPromotion>, u: UserId): (r: seq<UserPromotion>)
    ensures forall x :: x in r <==> x in rows && x.user == u
    ensures forall x :: multiset(r)[x] == if x.user == u then multiset(rows)[x] else 0
  {
    assert rows != [] ==> rows == [rows[0]] + rows[1..];
    if rows == [] then []
    else if rows[0].user == u then [rows[0]] + OwnRows(rows[1..], u)
    else OwnRows(rows[1..], u)
  }
}
