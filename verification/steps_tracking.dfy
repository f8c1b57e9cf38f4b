/**
 * Activity records, the coin-transaction log and the daily step reward
 * (steps_tracking/models.py, steps_tracking/signals.py).
 *
 * The reward is kept reconciled with the day's activity: every save of a
 * `DailyActivity` recomputes the reward and moves the one EARNED
 * transaction tagged "Daily Steps Reward (<date>)" to the new amount,
 * creating or deleting it as needed, and moves the user's coins by the
 * same difference. `Reconcile` is that step as a function of the log.
 */
module StepsTracking {
  import opened Wrappers
  import Text
  import Ordering
  import opened Ids

  const MinStepsThreshold: nat := 5000
  const StepIncrement: nat := 1000

  datatype SourceApp = AppleHealth | GoogleFit | Manual

  /** One activity row. `steps`, `duration` and `calories_burned` are unsigned columns. */
  datatype DailyActivity = DailyActivity(
    user: UserId,
    date: Timestamp,
    steps: nat,
    duration: nat,
    caloriesBurned: nat,
    sourceApp: Option<SourceApp>)

  datatype TransactionType = Earned | Spent | Adjustment

  /** One ledger line; `amount` is a signed integer column. */
  datatype CoinTransaction = CoinTransaction(
    user: UserId,
    amount: int,
    kind: TransactionType,
    reason: string,
    createdAt: Timestamp)

  // ---------------------------------------------------------------------
  // The reward formula

  /** Coins earned for a day: nothing below the threshold, else one per full thousand steps. */
  function CalculateDailyReward(steps: nat): (r: nat)
    ensures steps < MinStepsThreshold ==> r == 0
    ensures steps >= MinStepsThreshold ==> r * StepIncrement <= steps < (r + 1) * StepIncrement
  {
    if steps < MinStepsThreshold then 0 else steps / StepIncrement
  }

  /** More steps never earn fewer coins, and a day at the threshold earns at least five. */
  lemma RewardMonotone(a: nat, b: nat)
    requires a <= b
    ensures CalculateDailyReward(a) <= CalculateDailyReward(b)
    ensures b >= MinStepsThreshold ==> CalculateDailyReward(b) >= 5
  {}

  lemma RewardExamples()
    ensures CalculateDailyReward(4000) == 0
    ensures CalculateDailyReward(4999) == 0
    ensures CalculateDailyReward(5000) == 5
    ensures CalculateDailyReward(8000) == 8
    ensures CalculateDailyReward(10000) == 10
  {}

  // ---------------------------------------------------------------------
  // The reason tag

  const ReasonPrefix: string := "Daily Steps Reward ("

  /**
   * The reason text of an activity's reward. The timestamp is written in
   * decimal, so the text is a function of the instant alone; the UTC offset
   * that `str(datetime)` also writes is not carried.
   */
  function ReasonString(date: Timestamp): string {
    ReasonPrefix + Text.Decimal(date) + ")"
  }

  /** Reads the timestamp back out of a reason text. */
  function ReasonDate(reason: string): Option<Timestamp> {
    var n := |ReasonPrefix|;
    if |reason| > n + 1 && reason[..n] == ReasonPrefix && reason[|reason| - 1] == ')'
       && Text.AllDigits(reason[n..|reason| - 1], 10)
    then Some(Text.ValueOf(reason[n..|reason| - 1], 10))
    else None
  }

  lemma ReasonRoundTrip(date: Timestamp)
    ensures ReasonDate(ReasonString(date)) == Some(date)
  {
    var r := ReasonString(date);
    var n := |ReasonPrefix|;
    assert r[..n] == ReasonPrefix;
    assert r[n..|r| - 1] == Text.Decimal(date);
    Text.DecimalRoundTrip(date);
  }

  /** Two different timestamps never share a reason text. */
  lemma ReasonInjective(d1: Timestamp, d2: Timestamp)
    requires ReasonString(d1) == ReasonString(d2)
    ensures d1 == d2
  {
    ReasonRoundTrip(d1);
    ReasonRoundTrip(d2);
  }

  // ---------------------------------------------------------------------
  // The transaction log

  /** The lookup key of signals.py: this user, this reason, type EARNED. */
  predicate IsRewardFor(t: CoinTransaction, u: UserId, reason: string) {
    t.user == u && t.reason == reason && t.kind == Earned
  }

  /** Position of the first reward line for (`u`, `reason`). */
  function FindReward(ts: seq<CoinTransaction>, u: UserId, reason: string): (r: Option<nat>)
    ensures r.Some? ==> r.value < |ts| && IsRewardFor(ts[r.value], u, reason)
    ensures r.Some? ==> forall j :: 0 <= j < r.value ==> !IsRewardFor(ts[j], u, reason)
    ensures r.None? ==> forall j :: 0 <= j < |ts| ==> !IsRewardFor(ts[j], u, reason)
  {
    if ts == [] then None
    else if IsRewardFor(ts[0], u, reason) then Some(0)
    else match FindReward(ts[1..], u, reason)
      case None => None
      case Some(i) => Some(i + 1)
  }

  /** The amount of the reward line for (`u`, `reason`), 0 when there is none. */
  function RewardAmount(ts: seq<CoinTransaction>, u: UserId, reason: string): int {
    match FindReward(ts, u, reason)
    case None => 0
    case Some(i) => ts[i].amount
  }

  /** At most one EARNED line per (user, reason). */
  ghost predicate UniqueRewards(ts: seq<CoinTransaction>) {
    forall i, j :: 0 <= i < j < |ts| && ts[i].kind == Earned && ts[j].kind == Earned && ts[i].user == ts[j].user
      ==> ts[i].reason != ts[j].reason
  }

  /** The log without the reward lines of (`u`, `reason`). */
  function Others(ts: seq<CoinTransaction>, u: UserId, reason: string): (r: seq<CoinTransaction>)
    ensures |r| <= |ts|
  {
    if ts == [] then []
    else if IsRewardFor(ts[0], u, reason) then Others(ts[1..], u, reason)
    else [ts[0]] + Others(ts[1..], u, reason)
  }

  lemma {:induction false} OthersAppend(a: seq<CoinTransaction>, b: seq<CoinTransaction>, u: UserId, reason: string)
    ensures Others(a + b, u, reason) == Others(a, u, reason) + Others(b, u, reason)
  {
    if a != [] {
      assert (a + b)[0] == a[0];
      assert (a + b)[1..] == a[1..] + b;
      OthersAppend(a[1..], b, u, reason);
      if !IsRewardFor(a[0], u, reason) {
        var rest := Others(a[1..], u, reason);
        assert [a[0]] + (rest + Others(b, u, reason)) == ([a[0]] + rest) + Others(b, u, reason);
      }
    } else {
      assert a + b == b;
    }
  }

  /** `Others` keeps exactly the lines that are not (`u`, `reason`)'s reward. */
  lemma {:induction false} OthersMembers(ts: seq<CoinTransaction>, u: UserId, reason: string)
    ensures forall t :: t in Others(ts, u, reason) <==> t in ts && !IsRewardFor(t, u, reason)
  {
    if ts != [] {
      OthersMembers(ts[1..], u, reason);
      assert ts == [ts[0]] + ts[1..];
    }
  }

  /** The reward of any other (user, reason) pair can be read off the log without (`u`, `reason`)'s lines. */
  lemma {:induction false} RewardAmountOfOthers(ts: seq<CoinTransaction>, u: UserId, reason: string, u': UserId, reason': string)
    requires u != u' || reason != reason'
    ensures RewardAmount(Others(ts, u, reason), u', reason') == RewardAmount(ts, u', reason')
  {
    if ts != [] {
      RewardAmountOfOthers(ts[1..], u, reason, u', reason');
      assert ts == [ts[0]] + ts[1..];
      RewardAmountCons(ts[0], ts[1..], u', reason');
      if !IsRewardFor(ts[0], u, reason) {
        RewardAmountCons(ts[0], Others(ts[1..], u, reason), u', reason');
      }
    }
  }

  /** The reward read off a log is its first line's amount when that line matches, else the rest's. */
  lemma RewardAmountCons(t: CoinTransaction, rest: seq<CoinTransaction>, u: UserId, reason: string)
    ensures RewardAmount([t] + rest, u, reason) == if IsRewardFor(t, u, reason) then t.amount else RewardAmount(rest, u, reason)
  {
    assert ([t] + rest)[1..] == rest;
  }

  /** Two logs that agree outside (`u`, `reason`) give every other pair the same reward. */
  lemma OtherRewardsAgree(t1: seq<CoinTransaction>, t2: seq<CoinTransaction>, u: UserId, reason: string, u': UserId, reason': string)
    requires Others(t1, u, reason) == Others(t2, u, reason)
    requires u != u' || reason != reason'
    ensures RewardAmount(t1, u', reason') == RewardAmount(t2, u', reason')
  {
    RewardAmountOfOthers(t1, u, reason, u', reason');
    RewardAmountOfOthers(t2, u, reason, u', reason');
  }

  // ---------------------------------------------------------------------
  // Reconciliation (handle_daily_reward)

  /** What one reconciliation does: the change to the user's coins and the new log. */
  datatype Reconciled = Reconciled(delta: int, txns: seq<CoinTransaction>)

  /** handle_daily_reward as a function of the log: look up, compare, then update, create or delete. */
  function Reconcile(ts: seq<CoinTransaction>, a: DailyActivity, now: Timestamp): Reconciled {
    var reason := ReasonString(a.date);
    var newReward := CalculateDailyReward(a.steps);
    var existing := FindReward(ts, a.user, reason);
    var oldReward := match existing case Some(i) => ts[i].amount case None => 0;
    var difference := newReward - oldReward;
    if difference == 0 then Reconciled(0, ts)
    else if newReward == 0 then
      match existing
      case Some(i) => Reconciled(difference, ts[..i] + ts[i + 1..])
      case None => Reconciled(difference, ts)
    else
      match existing
      case Some(i) => Reconciled(difference, ts[i := ts[i].(amount := newReward)])
      case None => Reconciled(difference, ts + [CoinTransaction(a.user, newReward, Earned, reason, now)])
  }

  /** The unsigned columns of an activity row by attribute name; `None` for a name the row does not declare. */
  function Attribute(a: DailyActivity, name: string): (r: Option<nat>)
    ensures r.Some? <==> name == "steps" || name == "duration" || name == "calories_burned"
    ensures name == "steps" ==> r == Some(a.steps)
  {
    if name == "steps" then Some(a.steps)
    else if name == "duration" then Some(a.duration)
    else if name == "calories_burned" then Some(a.caloriesBurned)
    else None
  }

  /**
   * The receiver as written reads the steps under the attribute name
   * `steps_count`; `None` is the `AttributeError` raised before any coin or
   * line moves.
   */
  function ReconcileAsWritten(ts: seq<CoinTransaction>, a: DailyActivity, now: Timestamp): (r: Option<Reconciled>)
    ensures r.Some? ==> r.value == Reconcile(ts, a, now)
  {
    match Attribute(a, "steps_count")
    case None => None
    case Some(_) => Some(Reconcile(ts, a, now))
  }

  /**
   * As written, no save of any activity reaches the reward: a first day of
   * 5000 steps, which `Reconcile` rewards with 5 coins and one line, ends
   * in the error instead.
   */
  lemma AsWrittenNeverRewards(ts: seq<CoinTransaction>, a: DailyActivity, now: Timestamp)
    requires FindReward(ts, a.user, ReasonString(a.date)).None? && a.steps == 5000
    ensures ReconcileAsWritten(ts, a, now).None?
    ensures Reconcile(ts, a, now).delta == 5
    ensures Reconcile(ts, a, now).txns == ts + [CoinTransaction(a.user, 5, Earned, ReasonString(a.date), now)]
  {
    assert |"steps_count"| == 11;
  }

  /**
   * The steps of `handle_daily_reward` on the log: look the day's reward
   * line up, compare, and stop on no difference; otherwise delete, update
   * or create that line. Returns the balance change and the new log.
   */
  method ReconcileLog(ts: seq<CoinTransaction>, a: DailyActivity, now: Timestamp) returns (difference: int, log: seq<CoinTransaction>)
    ensures Reconciled(difference, log) == Reconcile(ts, a, now)
  {
    var reason := ReasonString(a.date);
    var newReward := CalculateDailyReward(a.steps);
    var existing := FindReward(ts, a.user, reason);
    var oldReward := if existing.Some? then ts[existing.value].amount else 0;
    difference := newReward - oldReward;
    log := ts;
    if difference == 0 {
      return;
    }
    if newReward == 0 {
      if existing.Some? {
        var i := existing.value;
        log := log[..i] + log[i + 1..];
      }
    } else if existing.Some? {
      var i := existing.value;
      log := log[i := log[i].(amount := newReward)];
    } else {
      log := log + [CoinTransaction(a.user, newReward, Earned, reason, now)];
    }
  }

  /**
   * The balance moves by exactly new reward minus old reward, so `coins - reward`
   * is preserved; afterwards the day's reward line holds the new reward.
   */
  lemma {:induction false} ReconcileMovesByDifference(ts: seq<CoinTransaction>, a: DailyActivity, now: Timestamp)
    requires UniqueRewards(ts)
    ensures var r := Reconcile(ts, a, now);
      var reason := ReasonString(a.date);
      && r.delta == CalculateDailyReward(a.steps) - RewardAmount(ts, a.user, reason)
      && RewardAmount(r.txns, a.user, reason) == CalculateDailyReward(a.steps)
  {
    var reason := ReasonString(a.date);
    var newReward := CalculateDailyReward(a.steps);
    var r := Reconcile(ts, a, now);
    match FindReward(ts, a.user, reason)
    case None =>
      if newReward != 0 {
        var t := CoinTransaction(a.user, newReward, Earned, reason, now);
        assert FindReward(r.txns, a.user, reason) == Some(|ts|) by { FindAfterAppend(ts, t, a.user, reason); }
      }
    case Some(i) =>
      if newReward != ts[i].amount {
        if newReward == 0 {
          NoRewardAfterDelete(ts, i, a.user, reason);
        } else {
          var ts' := ts[i := ts[i].(amount := newReward)];
          assert forall j :: 0 <= j < i ==> ts'[j] == ts[j];
          assert IsRewardFor(ts'[i], a.user, reason);
          assert FindReward(ts', a.user, reason) == Some(i);
        }
      }
  }

  lemma FindAfterAppend(ts: seq<CoinTransaction>, t: CoinTransaction, u: UserId, reason: string)
    requires FindReward(ts, u, reason).None? && IsRewardFor(t, u, reason)
    ensures FindReward(ts + [t], u, reason) == Some(|ts|)
  {
    var s := ts + [t];
    assert forall j :: 0 <= j < |ts| ==> s[j] == ts[j];
    assert s[|ts|] == t;
  }

  /** Deleting the one reward line of a pair leaves the pair with none. */
  lemma NoRewardAfterDelete(ts: seq<CoinTransaction>, i: nat, u: UserId, reason: string)
    requires UniqueRewards(ts) && i < |ts| && IsRewardFor(ts[i], u, reason)
    ensures FindReward(ts[..i] + ts[i + 1..], u, reason).None?
  {
    var rest := ts[..i] + ts[i + 1..];
    forall j | 0 <= j < |rest| ensures !IsRewardFor(rest[j], u, reason) {
      if j < i {
        assert rest[j] == ts[j];
      } else {
        assert rest[j] == ts[j + 1];
      }
    }
  }

  lemma OthersDelete(ts: seq<CoinTransaction>, i: nat, u: UserId, reason: string)
    requires i < |ts| && IsRewardFor(ts[i], u, reason)
    ensures Others(ts[..i] + ts[i + 1..], u, reason) == Others(ts, u, reason)
  {
    assert ts == ts[..i] + ([ts[i]] + ts[i + 1..]);
    OthersAppend(ts[..i], [ts[i]] + ts[i + 1..], u, reason);
    assert ([ts[i]] + ts[i + 1..])[1..] == ts[i + 1..];
    OthersAppend(ts[..i], ts[i + 1..], u, reason);
  }

  lemma OthersReplace(ts: seq<CoinTransaction>, i: nat, t: CoinTransaction, u: UserId, reason: string)
    requires i < |ts| && IsRewardFor(ts[i], u, reason) && IsRewardFor(t, u, reason)
    ensures Others(ts[i := t], u, reason) == Others(ts, u, reason)
  {
    var ts' := ts[i := t];
    assert ts'[..i] == ts[..i] && ts'[i + 1..] == ts[i + 1..];
    OthersDelete(ts, i, u, reason);
    OthersDelete(ts', i, u, reason);
  }

  /** Reconciliation touches no line of another user, another day or another type. */
  lemma ReconcileKeepsOthers(ts: seq<CoinTransaction>, a: DailyActivity, now: Timestamp)
    ensures var reason := ReasonString(a.date);
      Others(Reconcile(ts, a, now).txns, a.user, reason) == Others(ts, a.user, reason)
  {
    var reason := ReasonString(a.date);
    var newReward := CalculateDailyReward(a.steps);
    match FindReward(ts, a.user, reason)
    case None =>
      if newReward != 0 {
        var t := CoinTransaction(a.user, newReward, Earned, reason, now);
        OthersAppend(ts, [t], a.user, reason);
      }
    case Some(i) =>
      if newReward != ts[i].amount {
        if newReward == 0 {
          OthersDelete(ts, i, a.user, reason);
        } else {
          OthersReplace(ts, i, ts[i].(amount := newReward), a.user, reason);
        }
      }
  }

  /** Reconciliation keeps at most one reward line per (user, reason). */
  lemma ReconcileKeepsUnique(ts: seq<CoinTransaction>, a: DailyActivity, now: Timestamp)
    requires UniqueRewards(ts)
    ensures UniqueRewards(Reconcile(ts, a, now).txns)
  {
    var reason := ReasonString(a.date);
    var newReward := CalculateDailyReward(a.steps);
    var r := Reconcile(ts, a, now).txns;
    match FindReward(ts, a.user, reason)
    case None =>
      if newReward != 0 {
        forall i, j | 0 <= i < j < |r| && r[i].kind == Earned && r[j].kind == Earned && r[i].user == r[j].user
          ensures r[i].reason != r[j].reason
        {
          if j == |ts| {
            assert r[i] == ts[i];
            assert !IsRewardFor(ts[i], a.user, reason);
          }
        }
      }
    case Some(k) =>
      if newReward != ts[k].amount && newReward == 0 {
        forall i, j | 0 <= i < j < |r| && r[i].kind == Earned && r[j].kind == Earned && r[i].user == r[j].user
          ensures r[i].reason != r[j].reason
        {
          var i' := if i < k then i else i + 1;
          var j' := if j < k then j else j + 1;
          assert r[i] == ts[i'] && r[j] == ts[j'];
        }
      }
  }

  /** Saving the same steps twice: the second reconciliation changes neither coins nor log. */
  lemma ReconcileIdempotent(ts: seq<CoinTransaction>, a: DailyActivity, now: Timestamp, later: Timestamp)
    requires UniqueRewards(ts)
    ensures var r := Reconcile(ts, a, now);
      Reconcile(r.txns, a, later) == Reconciled(0, r.txns)
  {
    ReconcileMovesByDifference(ts, a, now);
  }

  /** Lowering the steps below the threshold deletes the line and takes back what it gave. */
  lemma ReconcileBelowThreshold(ts: seq<CoinTransaction>, a: DailyActivity, now: Timestamp)
    requires UniqueRewards(ts) && a.steps < MinStepsThreshold
    ensures var r := Reconcile(ts, a, now);
      && r.delta == -RewardAmount(ts, a.user, ReasonString(a.date))
      && (FindReward(r.txns, a.user, ReasonString(a.date)).None? || r.txns == ts)
  {
    var reason := ReasonString(a.date);
    match FindReward(ts, a.user, reason)
    case None =>
    case Some(i) =>
      if ts[i].amount != 0 {
        NoRewardAfterDelete(ts, i, a.user, reason);
      }
  }

  /** A first positive reward creates exactly one EARNED line tagged with the day. */
  lemma ReconcileCreates(ts: seq<CoinTransaction>, a: DailyActivity, now: Timestamp)
    requires FindReward(ts, a.user, ReasonString(a.date)).None?
    requires a.steps >= MinStepsThreshold
    ensures Reconcile(ts, a, now).txns
      == ts + [CoinTransaction(a.user, CalculateDailyReward(a.steps), Earned, "Daily Steps Reward (" + Text.Decimal(a.date) + ")", now)]
  {}

  /** Reconciling one day never changes the reward recorded for another day of the same user. */
  lemma ReconcileOtherDay(ts: seq<CoinTransaction>, a: DailyActivity, now: Timestamp, other: Timestamp)
    requires other != a.date
    ensures RewardAmount(Reconcile(ts, a, now).txns, a.user, ReasonString(other))
         == RewardAmount(ts, a.user, ReasonString(other))
  {
    ReconcileKeepsOthers(ts, a, now);
    if ReasonString(other) == ReasonString(a.date) {
      ReasonInjective(other, a.date);
    }
    OtherRewardsAgree(Reconcile(ts, a, now).txns, ts, a.user, ReasonString(a.date), a.user, ReasonString(other));
  }

  // ---------------------------------------------------------------------
  // Listing order (Meta.ordering)

  function ActivityKey(a: DailyActivity): Ordering.Key { (0, -(a.date as int)) }
  function TransactionKey(t: CoinTransaction): Ordering.Key { (0, -(t.createdAt as int)) }

  /** A user's transactions, newest `created_at` first. */
  function TransactionsOf(ts: seq<CoinTransaction>, u: UserId): (r: seq<CoinTransaction>)
    ensures Ordering.SortedBy(r, TransactionKey)
    ensures forall t :: t in r <==> t in ts && t.user == u
    ensures forall i, j :: 0 <= i < j < |r| ==> r[i].createdAt >= r[j].createdAt
    ensures forall t :: multiset(r)[t] == if t.user == u then multiset(ts)[t] else 0
  {
    var mine := OwnTransactions(ts, u);
    var r := Ordering.SortBy(mine, TransactionKey);
    assert forall t :: t in r <==> t in multiset(mine);
    r
  }

  function OwnTransactions(ts: seq<CoinTransaction>, u: UserId): (r: seq<CoinTransaction>)
    ensures forall t :: t in r <==> t in ts && t.user == u
    ensures forall t :: multiset(r)[t] == if t.user == u then multiset(ts)[t] else 0
  {
    assert ts != [] ==> ts == [ts[0]] + ts[1..];
    if ts == [] then []
    else if ts[0].user == u then [ts[0]] + OwnTransactions(ts[1..], u)
    else OwnTransactions(ts[1..], u)
  }

  /** A user's activities, newest `date` first; each appears once. */
  ghost function ActivitiesOf(activities: map<(UserId, Timestamp), DailyActivity>, u: UserId): (r: seq<DailyActivity>)
    ensures forall i, j :: 0 <= i < j < |r| ==> r[i].date >= r[j].date
    ensures forall a :: a in r <==> a in activities.Values && a.user == u
    ensures |r| == |OwnActivities(activities, u)|
  {
    var mine := OwnActivities(activities, u);
    var listed := Ordering.ValuesOf(mine);
    var r := Ordering.SortBy(listed, ActivityKey);
    SortedNewestFirst(r);
    assert forall a :: a in r <==> a in multiset(listed);
    assert |r| == |listed| by { assert |multiset(r)| == |multiset(listed)|; }
    r
  }

  /** The user's rows of the activity table. */
  function OwnActivities(activities: map<(UserId, Timestamp), DailyActivity>, u: UserId): (m: map<(UserId, Timestamp), DailyActivity>)
    ensures forall a :: a in m.Values <==> a in activities.Values && a.user == u
  {
    var m := map k | k in activities && activities[k].user == u :: activities[k];
    assert forall a :: a in activities.Values && a.user == u ==> a in m.Values by {
      forall a | a in activities.Values && a.user == u ensures a in m.Values {
        var k :| k in activities && activities[k] == a;
        assert m[k] == a;
      }
    }
    m
  }

  lemma SortedNewestFirst(r: seq<DailyActivity>)
    requires Ordering.SortedBy(r, ActivityKey)
    ensures forall i, j :: 0 <= i < j < |r| ==> r[i].date >= r[j].date
  {
    forall i, j | 0 <= i < j < |r| ensures r[i].date >= r[j].date {
      assert Ordering.KeyLe(ActivityKey(r[i]), ActivityKey(r[j]));
    }
  }
}
