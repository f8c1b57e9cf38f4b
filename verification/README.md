# WalkPoint ledger in Dafny

WalkPoint is a Django backend that pays users in coins for walking. The
coins buy partner coupons. A separate balance of available steps buys
step-priced promotions. This project models the part of the backend that
moves value between those balances, together with the rules that decide
who may move it:

- **Daily reward** (`StepsTracking`). Every save of a daily activity
  recomputes the day's reward: nothing below 5000 steps, otherwise one
  coin per full thousand steps. It then moves the single EARNED
  transaction tagged "Daily Steps Reward (<date>)" to the new amount,
  creating or deleting it as needed. The user's coins move by the same
  difference.
- **Coupons** (`Partners`, `Rewards`). Partners sell coupon templates
  with an optional stock. A purchase runs three guards in order (inactive,
  sold out, too few coins), then debits the coins, takes one from the
  stock, counts one more sale and issues a coupon. The coupon carries a
  version-4 UUID and a QR text that encodes the redeem URL. The owning
  partner redeems it once.
- **Catalogue and dashboard** (`Partners`). The marketplace filter, a
  partner's own templates, and the dashboard's sold count and revenue over
  those templates.
- **Promotions** (`Promotions`). A take is checked for existence and
  activity, then for enough available steps, then against the per-user
  cap. A take records one row and debits the steps.
- **Access checks** (`Permissions`). The two `IsPartner` classes, coupon
  ownership, and the per-method checks of the promotion detail view.
- **Accounts** (`Identity`). Email or phone classification in
  `create_user`, the superuser flags, registration validation, the login
  lookup and profile updates.
- **Step transfer batch** (`Transfer`). The management command that
  picks the day, visits that day's positive step records, and counts and
  sums the per-user transfers.

`Ledger.Database` is a class that holds every table as one `Tables`
value. Each request handler is a method that replaces that value in one
atomic step and keeps `Valid()`, which holds the schema's integrity rules
(`Ledger.Consistent`). Among those rules:

- `purchased_count` equals the number of coupons issued from the template;
- there is at most one reward line per (user, reason text), that is per
  activity timestamp;
- emails are unique;
- the partner link is one-to-one.

Every refusal leaves the tables as they were. The pure parts (the reward
formula, reconciliation, the filters, guards and access predicates) are
functions. Lemmas about those functions state what the source promises.
`Scenarios` replays tests of the repository against the class.

Supporting modules:

- `Wrappers`: `Option`.
- `Ids`: key and time types. Times are abstract ticks.
- `Text`: decimal and hexadecimal rendering, ASCII case folding and
  stripping.
- `Ordering`: a stable sort by key, used for the `ordering` clauses.
- `Uuid`: a 128-bit token and its text form from section 3 of RFC 4122.

Where the code and its description differ, the model follows the code,
except for the reward field:

- **Coins can go negative.** A purchase never makes coins negative (its
  guard sees to that). A later reward rollback can, because the code has
  no guard there.
- **No SPENT line.** A purchase writes no SPENT transaction.
- **Uniqueness is per timestamp.** `DailyActivity.date` is a timestamp,
  so uniqueness is per (user, timestamp), not per calendar day.
- **Strict date parsing.** `--date` accepts only `YYYY-MM-DD`: the model
  takes `date.fromisoformat` as it is before Python 3.11. From 3.11 it
  also accepts the basic form (`20240115`) and ISO week dates, which the
  model does not.
- **Duplicate activity.** A second activity for the same user and date
  reaches the insert, because the serializer's `user` field is read-only
  and no uniqueness validator runs. It fails there with the
  `IntegrityError` of the `unique_together` constraint, a 500, where
  steps_tracking/tests.py:63-77 expects a 400. Either way nothing changes.
- **Reward field.** As written, the reward receiver reads an attribute
  `DailyActivity` does not have (steps_tracking/signals.py:26). Every
  activity save then raises `AttributeError` after the row is inserted: a
  500, and no coin moves. `Ledger.Database.CreateActivity`,
  `UpdateActivity` and `HandleDailyReward` model the corrected receiver,
  which reads `steps`. The as-written behaviour is modelled only by
  `StepsTracking.ReconcileAsWritten` and `StepsTracking.AsWrittenNeverRewards`
  (see Findings).
- **Fields inferred from use.** `Promotion`, `UserPromotion`,
  `available_steps`, `DailyStep` and `transfer_daily_steps` are defined
  neither in core/models.py nor in users/models.py. Their fields are
  declared from their use sites in core/views.py, core/services.py and
  the transfer command.

## Model

| member | source | states |
|---|---|---|
| StepsTracking.CalculateDailyReward | steps_tracking/signals.py:14-18 | 0 below 5000 steps; otherwise the reward r satisfies r*1000 <= steps < (r+1)*1000 |
| StepsTracking.RewardMonotone | steps_tracking/signals.py:14-18 | more steps never earn fewer coins; any day at or over the threshold earns at least 5 |
| StepsTracking.RewardExamples | steps_tracking/tests.py:176-213 | 4000 and 4999 give 0, 5000 gives 5, 8000 gives 8, 10000 gives 10 |
| StepsTracking.ReasonRoundTrip | steps_tracking/signals.py:28 | the reason text of a day reads back to that day's timestamp |
| StepsTracking.ReasonInjective | steps_tracking/signals.py:28 | two different days never share a reason text, so each day's lookup key is its own |
| StepsTracking.FindReward | steps_tracking/signals.py:30-39 | finds the first EARNED line of (user, reason), or reports that none exists |
| StepsTracking.ReconcileLog | steps_tracking/signals.py:22-61 | the receiver's steps (lookup, difference, early return, then delete, update or create) compute exactly the reconciliation `Reconcile` |
| StepsTracking.ReconcileMovesByDifference | steps_tracking/signals.py:41-47 | coins move by new reward minus old reward, and afterwards the day's line holds the new reward, so coins minus that day's reward is preserved |
| StepsTracking.ReconcileKeepsOthers | steps_tracking/signals.py:30-35 | lines of other users, other days or other types are exactly as before |
| StepsTracking.OtherRewardsAgree | steps_tracking/signals.py:30-35 | two logs that agree outside one (user, reason) give every other pair the same reward |
| StepsTracking.ReconcileOtherDay | steps_tracking/signals.py:28-35 | reconciling one day never changes the reward recorded for another day of the same user |
| StepsTracking.ReconcileKeepsUnique | steps_tracking/signals.py:49-61 | at most one EARNED line per (user, reason) before implies the same after |
| StepsTracking.ReconcileIdempotent | steps_tracking/signals.py:43-44 | saving the same steps again moves no coin and leaves the log as it was |
| StepsTracking.ReconcileBelowThreshold | steps_tracking/signals.py:49-51 | dropping below 5000 steps deletes the line and takes back exactly what it gave |
| StepsTracking.ReconcileCreates | steps_tracking/signals.py:55-61 | a first positive reward appends exactly one EARNED line with the day's reason |
| StepsTracking.ReconcileAsWritten | steps_tracking/signals.py:26 | reading the steps under the name `steps_count` fails unless the row declares it; when it does not fail, the result is the reconciliation |
| StepsTracking.AsWrittenNeverRewards | steps_tracking/signals.py:26 | as written, a first day of 5000 steps ends in the error, where the intended reconciliation pays 5 coins and appends one line |
| StepsTracking.Attribute | steps_tracking/models.py:10-13 | an activity row has the unsigned attributes steps, duration and calories_burned and no other |
| StepsTracking.TransactionsOf | steps_tracking/models.py:41 | a user's transactions are that user's lines, each as often as in the log, newest `created_at` first |
| StepsTracking.ActivitiesOf | steps_tracking/models.py:20 | a user's activities are exactly that user's rows, each once, newest date first |
| Rewards.RedeemUrl | rewards/models.py:32 | the QR text starts with the configured base URL and has a fixed length beyond it |
| Rewards.RedeemUrlRoundTrip | rewards/models.py:32 | the token can be read back from its redeem URL, whatever the base |
| Rewards.RedeemUrlInjective | rewards/models.py:22 | coupons with different tokens never share a redeem URL |
| Rewards.SaveCoupon | rewards/models.py:30-44 | save fills in the QR text only when it is empty, the text leads back to the coupon's token, and no other field changes |
| Rewards.SaveKeepsCode | rewards/models.py:31 | saving again keeps the text already generated, even under another base URL |
| Rewards.NewCoupon | rewards/models.py:10-28 | a new coupon belongs to the buyer and the template, is unredeemed with no redemption time, and is stamped now |
| Rewards.NewCouponIsSaved | rewards/models.py:30-44 | the coupon a purchase stores is what save makes of the unsaved row |
| Rewards.NewCouponLeadsBack | rewards/models.py:32 | scanning a new coupon's QR text leads back to that coupon |
| Rewards.CouponLabel | rewards/models.py:46-47 | the label is "Coupon for ", the user, " - ", then the template title |
| Rewards.PurchaseRefusal | rewards/views.py:23-30 | the guards, in order: inactive, then sold out (a set quantity of 0), then too few coins; no refusal exactly when all three pass |
| Rewards.StockCheckedBeforeCoins | rewards/views.py:26-30 | a sold-out template is refused as sold out whatever the buyer's balance |
| Rewards.AfterSale | rewards/views.py:35-37 | a sale takes one from a set quantity, keeps an unlimited one unlimited, counts one more sale, and changes nothing else |
| Rewards.SaleConservesStock | rewards/views.py:35-37 | stock plus sold is unchanged by a sale, so a template with quantity n sells at most n coupons |
| Rewards.ListedIsAvailable | partners/views.py:12 | every template the marketplace lists passes the purchase's active check |
| Rewards.CountAfterIssue | rewards/views.py:37-39 | issuing a coupon counts one more for its template and none for any other |
| Rewards.CountAfterUpdate | rewards/views.py:66-68 | changing a coupon without moving it to another template keeps every count |
| Rewards.MyCoupons | rewards/views.py:48 | the caller's coupons and no other, each once, unredeemed first and newest purchase first within each group |
| Partners.NewPartner | partners/models.py:15-24 | a partner row keeps its fields and is active unless told otherwise |
| Partners.StampTemplate | partners/views.py:32-33 | a created template carries the caller's partner and no sale, with validity 30 days and active by default |
| Partners.StampIgnoresClaims | partners/views.py:32-33 | a partner or sold count sent in the payload has no effect on the stored row |
| Partners.Marketplace | partners/views.py:12 | the marketplace is exactly the active templates of active partners |
| Partners.OwnTemplates | partners/views.py:29-30 | the partner's list is exactly the templates stamped with that partner |
| Partners.OwnAfterCreate | partners/views.py:29-33 | a created template joins its creator's list and no other partner's |
| Partners.DeactivatedPartnerHidden | partners/views.py:12 | deactivating a partner removes exactly its templates from the marketplace |
| Partners.SoldOutStillListed | partners/views.py:12 | stock is not part of the filter, so a sold-out template stays listed |
| Partners.TotalActiveCoupons | partners/views.py:47 | the active count covers every partner's templates, so it bounds any one partner's active templates |
| Partners.SaleMovesDashboard | partners/views.py:48-49 | one sale from an own template adds one to total_sold and its cost to the revenue |
| Partners.OtherSaleInvisible | partners/views.py:45-49 | another partner's sale leaves both figures unchanged |
| Partners.DashboardExample | partners/views.py:47-49 | templates 50 x 10 and 100 x 5 beside another partner's give total_sold 15, revenue 1000 and two active templates overall |
| Permissions.IsPartner | partners/permissions.py:3-10 | anonymous callers are refused; a member passes exactly when they have a partner |
| Permissions.FlagIgnored | partners/permissions.py:3-10 | the `is_partner` flag never changes the answer |
| Permissions.IsOwnerOfCoupon | partners/permissions.py:12-14 | holds exactly when the template's partner is the caller's partner |
| Permissions.CanModifyTemplate | partners/views.py:38 | both checks together mean the caller is a partner and owns the template |
| Permissions.OwnerUnique | partners/views.py:38 | two callers who may both modify one template have the same partner |
| Permissions.CoreIsPartner | core/permissions.py:3-5 | anonymous callers are refused; a member passes exactly when they have a partner account |
| Permissions.PromotionDetailAccessAsWritten | core/views.py:42-45 | writes need a partner account; every other method ends in a server error |
| Permissions.ReadingPromotionFails | core/views.py:45 | as written, an authenticated reader gets a server error where the intended checks grant access |
| Permissions.PromotionDetailAccess | core/views.py:42-45 | never a server error; reads need authentication only, writes a partner account |
| Permissions.WritesUnchanged | core/views.py:43-44 | the corrected checks agree with the code on every write |
| Permissions.WritesIgnoreOwner | core/views.py:43-44 | writes compare no ownership: any partner account may change any promotion |
| Promotions.FindActive | core/views.py:61 | a promotion is found exactly when it exists and is active |
| Promotions.ActivePromotions | core/views.py:34-35 | the all-promotions list is exactly the promotions a take can find |
| Promotions.CountRedemptions | core/views.py:73-76 | the count is zero exactly when the caller has no row for that promotion |
| Promotions.CountAfterAppend | core/services.py:16 | a new row counts for its own (user, promotion) only, so other users never raise a user's count |
| Promotions.PromotionDenial | core/views.py:63-86 | steps are checked before the cap, each refusal reports its figures, and a take is admitted exactly when both pass |
| Promotions.CapIsFinal | core/services.py:9-11 | once a user reaches the cap, every later take by that user is refused |
| Promotions.ZeroCapNeverAdmits | core/views.py:78 | with a zero cap nobody can ever take the promotion |
| Promotions.UserRedemptions | core/views.py:123-124 | my-redemptions holds the caller's rows, each as often as in the table, newest first |
| Identity.NormalizeEmail | users/models.py:8 | normalising keeps an '@' exactly when there was one, and returns text without '@' as given |
| Identity.NormalizeSplit | users/models.py:8 | `local@domain` with no '@' in the domain normalises to the same local part and a lower-cased domain |
| Identity.StripsSeparators | users/models.py:8 | surrounding blanks, including the ASCII separators 0x1C-0x1F that `str.isspace()` accepts, are removed before the domain is lower-cased |
| Identity.NormalizeIdempotent | users/models.py:8 | normalising a normalised address changes nothing |
| Identity.CreateUser | users/models.py:6-21 | an identifier with '@' is the normalised email and one without is the phone; no identifier at all is refused; the other key passed again is refused exactly when that check passes, and otherwise a user is made; the extra fields (names, coins, steps, partner, active, staff, superuser) are stored as passed, the column defaults filling the rest |
| Identity.AsSuperuser | users/models.py:24-25 | both flags are set and the identifiers are passed on unchanged |
| Identity.CreateSuperuser | users/models.py:23-32 | an explicit false for either flag is refused (superuser checked first); otherwise the user is created as staff and superuser |
| Identity.UserLabel | users/models.py:57-58 | the email, else the phone, else "User (No identifier)"; never empty |
| Identity.ValidateAsWritten | users/serializers.py:28-37 | mismatched passwords are refused first; otherwise an identifier is refused exactly when some email or phone equals it exactly |
| Identity.Validate | users/serializers.py:28-37 | refuses everything the code refuses, plus an email already stored up to case once normalised |
| Identity.Register | users/serializers.py:39-50 | a non-empty identifier always creates a user with the password and names given, no coins or steps, active, and with no partner, staff or superuser flag |
| Identity.RegisteredEmailStored | users/serializers.py:39-48 | the stored email is the normalised identifier when it has an '@', and none otherwise |
| Identity.ValidatedEmailIsNew | users/serializers.py:34-35 | after the corrected validation, no stored email equals the new one, not even up to case |
| Identity.AsWrittenAdmitsDuplicateEmail | users/serializers.py:34-35 | as written, an address that differs only in the domain's case passes validation, though the user created would store an email that already exists |
| Identity.AsWrittenAdmitsCaseTwin | users/backends.py:15-17 | as written, an email equal to a stored one up to case is admitted, and the login lookup for the old address becomes ambiguous |
| Identity.CaseTwinsClash | users/backends.py:15-17 | two stored emails equal up to case make the lookup ambiguous |
| Identity.TwoMatches | users/backends.py:15-17 | two users matching one username make the lookup match more than one row |
| Identity.Matches | users/backends.py:15-17 | a user matches by email ignoring case or by exact phone |
| Identity.Authenticate | users/backends.py:10-23 | an empty username finds nobody; with a single match, the login succeeds exactly when its password checks and it is active; no other login exists; more than one match is the uncaught error |
| Identity.GetUser | users/backends.py:25-29 | the user with that key, or none exactly when there is no such key |
| Identity.ApplyProfile | users/serializers.py:52-66 | only the names can change; email, phone, coins, steps and the active flag are kept |
| Transfer.FormatIsoDate | users/management/commands/transfer_daily_steps.py:21 | the ISO text is ten characters with dashes at positions 4 and 7 |
| Transfer.IsoDateRoundTrip | users/management/commands/transfer_daily_steps.py:21 | every valid date parses back from its ISO text |
| Transfer.IsoDateCanonical | users/management/commands/transfer_daily_steps.py:19-26 | only canonical text parses: formatting the parsed date gives the input back |
| Transfer.PrevDay | users/management/commands/transfer_daily_steps.py:29 | the day before is a valid date, and none exists only for 0001-01-01 |
| Transfer.PrevThenNext | users/management/commands/transfer_daily_steps.py:29 | the day before is the day whose next day is the given one |
| Transfer.Visited | users/management/commands/transfer_daily_steps.py:34 | the records of the target day with a positive step count, each as often as in the table |
| Transfer.VisitedAppend | users/management/commands/transfer_daily_steps.py:34 | records are visited in table order: visiting two stretches of the table in turn is visiting their concatenation |
| Transfer.VisitedOne | users/management/commands/transfer_daily_steps.py:34 | a single record is visited exactly when it is of the target day with a positive count |
| Transfer.TotalAtLeastCount | users/management/commands/transfer_daily_steps.py:49-51 | the total is at least the count, and is zero exactly when the count is |
| Transfer.Handle | users/management/commands/transfer_daily_steps.py:17-61 | the invalid-date message exactly when a given date does not parse, and the range error exactly when yesterday overflows; once the target day is known, the warning exactly when no record is visited, and otherwise the count and sum of the positive transfers |
| Transfer.TransferAll | users/management/commands/transfer_daily_steps.py:42-51 | the loop's count and total are the number and the sum of the positive transfers over the visited records |
| Uuid.UuidRoundTrip | rewards/models.py:22 | the 8-4-4-4-12 text of a token parses back to that token |
| Uuid.UuidTextInjective | rewards/models.py:22 | distinct tokens have distinct text forms |
| Ordering.SortBy | steps_tracking/models.py:20 | the `ordering` sort gives a sorted permutation of its input |
| Ledger.EmptyConsistent | steps_tracking/models.py:21 | empty tables meet every integrity rule |
| Ledger.SaveKeeps | users/models.py:38 | saving a user row without changing its email keeps every rule |
| Ledger.ReconcileKeeps | steps_tracking/signals.py:49-61 | the reward receiver keeps the log linked to users and one line per (user, reason text), that is per activity timestamp |
| Ledger.ActivityKeeps | steps_tracking/models.py:21 | storing an activity under its (user, date) key keeps every rule |
| Ledger.SaleEffect | rewards/views.py:32-39 | a sale changes the buyer's balance by the cost, the template by one sale, and the coupons by the new one; every other row and table is as before |
| Ledger.DebitKeeps | rewards/views.py:33-34 | taking coins from a user keeps every rule |
| Ledger.SaleKeeps | rewards/views.py:32-39 | a sale keeps every rule, including purchased_count equal to the coupons issued |
| Ledger.IssueKeeps | rewards/views.py:35-39 | issuing a coupon keeps each template's count equal to its coupons and every coupon linked |
| Ledger.CouponUpdateKeeps | rewards/views.py:66-68 | redeeming a coupon in place keeps every rule and moves no count |
| Ledger.PartnerKeeps | partners/models.py:16 | a partner row for a user without one keeps the one-to-one link |
| Ledger.TemplateKeeps | partners/views.py:32-33 | a new template of an existing partner with nothing sold keeps every rule |
| Ledger.TakeKeeps | core/views.py:88-94 | recording a take and debiting its steps keeps every rule |
| Ledger.TakeWithinCap | core/views.py:73-94 | an admitted take leaves the steps non-negative and counts exactly one more row, within the cap |
| Ledger.UserAddKeeps | users/models.py:38 | adding a user whose email nobody has keeps the unique-email rule |
| Ledger.RegisteredEmailDiffers | users/serializers.py:28-50 | a registration that passes the corrected validation stores an email no user has, even up to case |
| Ledger.Database.constructor | steps_tracking/models.py:7-41 | a new database is empty and meets every rule |
| Ledger.Database.CallerOf | partners/permissions.py:3-10 | a user passes `IsPartner` exactly when they have a partner row |
| Ledger.Database.SaveUser | users/models.py:34-45 | the user row is replaced and nothing else changes |
| Ledger.Database.HandleDailyReward | steps_tracking/signals.py:22-61 | the user's coins move by the reconciliation's difference and the log becomes the reconciled log; nothing else changes |
| Ledger.Database.CreateActivity | steps_tracking/models.py:21 | a second activity for the same (user, date) is refused by the unique constraint with nothing changed; otherwise the row is stored and the reward reconciled |
| Ledger.Database.UpdateActivity | steps_tracking/signals.py:21-22 | saving new figures for an existing activity stores them and reconciles the reward again |
| Ledger.Database.StoreActivity | steps_tracking/models.py:21 | the activity is stored under its (user, date) key and nothing else changes |
| Ledger.Database.BuyCoupon | rewards/views.py:16-40 | 404 exactly for a missing template; a refusal exactly when a guard fails, with that guard's reason and nothing changed; otherwise the coupon is issued and the balance stays non-negative |
| Ledger.Database.RedeemCoupon | rewards/views.py:51-74 | not a partner, not found, not the owner, then already redeemed, in that order; each refusal changes nothing and a repeat reports the first redemption time; otherwise only that coupon is marked redeemed now |
| Ledger.Database.AddPartner | partners/models.py:15-24 | a second partner for the same user is refused with nothing changed; otherwise the row and its link are added |
| Ledger.Database.CreateTemplate | partners/views.py:25-33 | non-partners are refused with nothing changed; otherwise the template, stamped with the caller's partner, joins that partner's list |
| Ledger.Database.DashboardStats | partners/views.py:40-58 | non-partners get nothing; a partner gets their name, the global active count, and the sold count and revenue over their own templates |
| Ledger.Database.PurchasePromotion | core/views.py:48-116 | 404 exactly for a missing or inactive promotion; then a refusal with the figures and nothing changed, or one row recorded within the cap and the steps debited, reporting the new balance |
| Ledger.Database.RedeemPromotion | core/services.py:5-16 | the steps check and then the cap; a refusal changes nothing, a take records one row and debits the steps |
| Ledger.Database.Take | core/views.py:63-94 | the guards and effect shared by the view and the service, with outcome `TakeOutcome` |
| Ledger.Database.Register | users/serializers.py:28-50 | the exact-match validation refuses first; then a `create_user` refusal, or the unique column's refusal exactly when the created email is already stored, changes nothing; otherwise exactly the new user is added |
| Ledger.Database.CreateUser | users/models.py:6-21 | a `create_user` refusal or an email already stored exactly changes nothing; otherwise exactly the created user is added under the new key |
| Ledger.Database.RegisterIntended | users/serializers.py:28-50 | with the corrected validation the unique column never refuses, and a registered email is new even up to case |
| Ledger.Database.UpdateProfile | users/serializers.py:52-66 | only the names of that user change |
| Scenarios.OneUser | users/tests.py:79-90 | registering by phone on an empty database gives one user with that phone, no email and no coins |
| Scenarios.RewardFollowsUpdate | steps_tracking/tests.py:215-238 | 5000 steps then 8000 steps for the same day leave 8 coins and a single EARNED line of 8 |
| Scenarios.RewardTakenBack | steps_tracking/tests.py:240-258 | 6000 steps then 4000 steps leave 0 coins and no line |
| Scenarios.OneActivityPerDay | steps_tracking/tests.py:63-77 | a second activity for the same user and date is refused by the unique constraint and the first reward of 5 stays |
| Scenarios.OpenShop | partners/tests.py:179-193 | a partner's new template is stamped with that partner, is active and has nothing sold |
| Scenarios.ShopUsers | rewards/tests.py:18-33 | `create_user` with `coins=200` and `is_partner=True` gives a buyer holding 200 coins and a partner-flagged account |
| Scenarios.Walk200k | steps_tracking/signals.py:14-18 | one day of 200000 steps gives 200 coins |
| Scenarios.BuyLastCoupon | rewards/tests.py:89-109 | with one in stock the first purchase leaves 100 of 200 coins and counts one sale; the next is refused as sold out |
| Scenarios.FirstSale | rewards/tests.py:50-68 | a purchase at 100 coins from 200 leaves 100, one sale and one unredeemed coupon of the buyer |
| Scenarios.RedeemOnce | rewards/tests.py:236-270 | the buyer may not redeem; the owning partner redeems once; a second attempt reports the first redemption time |
| Scenarios.BuyerTries | rewards/tests.py:263-270 | a user without a partner is refused and nothing changes |
| Scenarios.PartnerRedeems | rewards/tests.py:236-247 | the owner's redemption marks the coupon redeemed with the time and reports the template title |
| Scenarios.PartnerTriesAgain | rewards/tests.py:249-261 | redeeming a redeemed coupon reports its original redemption time |
| Scenarios.PromotionCapOfOne | core/services.py:9-11 | with a cap of one, the first take is admitted and the second is refused with cap 1 and count 1 |

## Left out

- The React Native frontend. It is UI and device I/O, and its balance checks only repeat the server's guards.
- The QR image: `qrcode` and PIL rendering, file storage and `core/qr.py`. Only the encoded URL text is modelled.
- Concurrency. Each request is one sequential atomic step, so no claim is made about two purchases interleaving: the purchase guards run outside its transaction and take no row lock.
- Password hashing and `check_password`. A password is stored as given, and `None` stands for an unusable password.
- The JWT views and Django ORM internals. `get_object_or_404` and the lookup errors appear as outcome constructors.
- The 500 catch-all of the promotion purchase. Its only trigger in this model would be a database failure, which is not modelled.
- The floating-point `distance_km` column and the `duration` default.
- Clocks: `timezone.now()` and `date.today()` are parameters.
- The body of `User.transfer_daily_steps` and the `DailyStep` model are not part of this model. The per-user transfer is a function parameter of `Transfer.Handle`, so its idempotence is not claimed.
- Transfer.Handle: the parameter `transfer` is a pure function of (user, date), while `user.transfer_daily_steps(target_date)` is a stateful call. The model assumes that repeated calls for one (user, date) return the same amount. If one user had two visited records of the target day, the source's second call could return something else (0 once the first has transferred), while the model counts and sums the same amount twice. This is harmless when `DailyStep` holds at most one row per (user, date), which this model cannot check.
- The command's stdout messages. Only the outcome they report is modelled.
- The marketplace search and `ordering_fields` query parameters. Only the base queryset is modelled.
- Template and promotion update and delete handlers beyond their permission checks. The `PromotionList` create handler and the admin-only core `PartnerList`, because `Ledger.Database` holds no operation that adds a promotion. The `stuff` app and `core/models.py`, which carry no logic.
- Changing an activity's date on update. `Ledger.Database.UpdateActivity` keeps the (user, date) key, as the reward lookup does.
- Database column widths. `PositiveIntegerField` is `nat`, and `IntegerField` is an unbounded `int`.
- Unicode. Case folding and `strip()` cover ASCII only: `Text.IsSpace` holds for the ten ASCII characters Python's `str.isspace()` accepts, and not for `\x85`, `\xa0` or the other Unicode spaces.
- StepsTracking.ReasonString: the reason text is a function of the activity's instant only. `str(datetime)` also writes the value's UTC offset, and a row loaded back from the database comes back in UTC while a posted one is in the current `TIME_ZONE`. Under a non-UTC `TIME_ZONE`, a later save of a loaded row renders another text, the lookup at steps_tracking/signals.py:31 misses, and a second EARNED line is created. `ReconcileMovesByDifference`, `ReconcileIdempotent` and `Ledger.ReconcileKeeps` hold under the one-text-per-instant rendering, that is with `TIME_ZONE` UTC.
- Transfer.Handle: the loop visits records in the order of the `records` sequence; which order the database returns them in is not modelled.
- `COIN_PER_INCREMENT` (steps_tracking/signals.py:11) is declared but never read by the reward formula, so the model has no counterpart.
- `profile_pic` and the other keyword arguments `create_user` would pass to the model unchecked. `Identity.Extras` holds the fields the model's `User` has.

## Findings

| source | as written | input that shows it | evidently intended | confidence | as-written member | corrected member |
|---|---|---|---|---|---|---|
| steps_tracking/signals.py:26 | the receiver reads `instance.steps_count`, which `DailyActivity` does not declare, so every activity save raises `AttributeError` before any coin moves | a first activity of 5000 steps | the reward computed from `steps`, as the tests of steps_tracking/tests.py:176-258 expect | not executed | StepsTracking.ReconcileAsWritten, StepsTracking.AsWrittenNeverRewards | StepsTracking.ReconcileLog, StepsTracking.ReconcileMovesByDifference |
| users/serializers.py:32-35 | the duplicate check compares the raw identifier exactly, but `create_user` stores the normalised email | stored "ann@example.com", new identifier "ann@EXAMPLE.com": validation passes, then the unique email column refuses the insert | refuse an identifier whose normalised email is already stored | not executed | Identity.ValidateAsWritten, Identity.AsWrittenAdmitsDuplicateEmail, Ledger.Database.Register | Identity.Validate, Identity.ValidatedEmailIsNew, Ledger.Database.RegisterIntended |
| users/backends.py:15-17 | registration admits an email equal to a stored one up to case, and the login lookup then matches both rows and raises `MultipleObjectsReturned` | stored "ann@example.com", new identifier "Ann@example.com", then a login as "ann@example.com" | registration refuses emails equal up to case, so the lookup finds at most one user by email | not executed | Identity.AsWrittenAdmitsCaseTwin, Identity.CaseTwinsClash, Ledger.Database.Register | Identity.Validate, Ledger.RegisteredEmailDiffers, Ledger.Database.RegisterIntended |
| core/views.py:45 | `get_permissions` returns the class `IsAuthenticated` rather than an instance, so every read of a promotion fails with a server error | an authenticated GET of any promotion | reads need authentication only | not executed | Permissions.PromotionDetailAccessAsWritten, Permissions.ReadingPromotionFails | Permissions.PromotionDetailAccess |
