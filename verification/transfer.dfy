/**
 * The `transfer_daily_steps` management command: choose the day to process
 * (the `--date` option, or yesterday), visit that day's step records with a
 * positive count, and total what the per-user transfer reports.
 */
module Transfer {
  import opened Wrappers
  import opened Ids
  import Text

  /** A calendar date of the proleptic Gregorian calendar, years 1 to 9999 (Python's `date`). */
  datatype Date = Date(year: nat, month: nat, day: nat)

  predicate IsLeap(y: nat) {
    y % 4 == 0 && (y % 100 != 0 || y % 400 == 0)
  }

  function DaysIn(y: nat, m: nat): (n: nat)
    requires 1 <= m <= 12
    ensures 28 <= n <= 31
  {
    if m == 2 then (if IsLeap(y) then 29 else 28)
    else if m == 4 || m == 6 || m == 9 || m == 11 then 30
    else 31
  }

  predicate ValidDate(d: Date) {
    1 <= d.year <= 9999 && 1 <= d.month <= 12 && 1 <= d.day <= DaysIn(d.year, d.month)
  }

  /** `date.isoformat()`: YYYY-MM-DD, zero-padded. */
  function FormatIsoDate(d: Date): (s: string)
    requires ValidDate(d)
    ensures |s| == 10 && s[4] == '-' && s[7] == '-'
  {
    assert Text.Pow(10, 4) == 10000 && Text.Pow(10, 2) == 100;
    Text.Fixed(d.year, 4, 10) + "-" + Text.Fixed(d.month, 2, 10) + "-" + Text.Fixed(d.day, 2, 10)
  }

  /**
   * `date.fromisoformat` on the YYYY-MM-DD form: ten characters, digits and
   * two dashes in place, and an existing date; anything else is refused.
   */
  function ParseIsoDate(s: string): (r: Option<Date>)
    ensures r.Some? ==> ValidDate(r.value)
  {
    if |s| == 10 && s[4] == '-' && s[7] == '-'
      && Text.AllDigits(s[..4], 10) && Text.AllDigits(s[5..7], 10) && Text.AllDigits(s[8..], 10)
    then
      var d := Date(Text.ValueOf(s[..4], 10), Text.ValueOf(s[5..7], 10), Text.ValueOf(s[8..], 10));
      if ValidDate(d) then Some(d) else None
    else None
  }

  /** Every date reads back from its ISO text. */
  lemma IsoDateRoundTrip(d: Date)
    requires ValidDate(d)
    ensures ParseIsoDate(FormatIsoDate(d)) == Some(d)
  {
    assert Text.Pow(10, 4) == 10000 && Text.Pow(10, 2) == 100;
    var y, m, dd := Text.Fixed(d.year, 4, 10), Text.Fixed(d.month, 2, 10), Text.Fixed(d.day, 2, 10);
    var s := FormatIsoDate(d);
    assert s[..4] == y && s[5..7] == m && s[8..] == dd;
    Text.FixedRoundTrip(d.year, 4, 10);
    Text.FixedRoundTrip(d.month, 2, 10);
    Text.FixedRoundTrip(d.day, 2, 10);
  }

  /** Only the canonical text of a date is accepted: parsing then formatting gives the input back. */
  lemma IsoDateCanonical(s: string)
    requires ParseIsoDate(s).Some?
    ensures FormatIsoDate(ParseIsoDate(s).value) == s
  {
    var d := ParseIsoDate(s).value;
    assert d == Date(Text.ValueOf(s[..4], 10), Text.ValueOf(s[5..7], 10), Text.ValueOf(s[8..], 10));
    Text.FixedOfValue(s[..4], 10);
    Text.FixedOfValue(s[5..7], 10);
    Text.FixedOfValue(s[8..], 10);
    SplitAtDashes(s);
  }

  /** Ten characters with dashes at 4 and 7 are their three digit groups joined by dashes. */
  lemma SplitAtDashes(s: string)
    requires |s| == 10 && s[4] == '-' && s[7] == '-'
    ensures s == s[..4] + "-" + s[5..7] + "-" + s[8..]
  {
    var t := s[..4] + "-" + s[5..7] + "-" + s[8..];
    forall i | 0 <= i < 10 ensures t[i] == s[i] {}
  }

  /** `d - timedelta(days=1)`; none before 0001-01-01 (Python raises `OverflowError`). */
  function PrevDay(d: Date): (r: Option<Date>)
    requires ValidDate(d)
    ensures r.Some? ==> ValidDate(r.value)
    ensures r.None? <==> d == Date(1, 1, 1)
  {
    if d.day > 1 then Some(d.(day := d.day - 1))
    else if d.month > 1 then Some(Date(d.year, d.month - 1, DaysIn(d.year, d.month - 1)))
    else if d.year > 1 then Some(Date(d.year - 1, 12, 31))
    else None
  }

  /** `d + timedelta(days=1)`; none after 9999-12-31. */
  function NextDay(d: Date): (r: Option<Date>)
    requires ValidDate(d)
    ensures r.Some? ==> ValidDate(r.value)
    ensures r.None? <==> d == Date(9999, 12, 31)
  {
    if d.day < DaysIn(d.year, d.month) then Some(d.(day := d.day + 1))
    else if d.month < 12 then Some(Date(d.year, d.month + 1, 1))
    else if d.year < 9999 then Some(Date(d.year + 1, 1, 1))
    else None
  }

  /** The day before is the day whose next day is the given one. */
  lemma PrevThenNext(d: Date)
    requires ValidDate(d) && PrevDay(d).Some?
    ensures NextDay(PrevDay(d).value) == Some(d)
  {}

  /** A `DailyStep` row: one user's step count for one day. */
  datatype DailyStep = DailyStep(user: UserId, date: Date, steps: int)

  /** `DailyStep.objects.filter(date=target, steps__gt=0)`, in table order. */
  function Visited(records: seq<DailyStep>, target: Date): (r: seq<DailyStep>)
    ensures |r| <= |records|
    ensures forall x :: x in r <==> x in records && x.date == target && x.steps > 0
    ensures forall x :: multiset(r)[x] == if x.date == target && x.steps > 0 then multiset(records)[x] else 0
  {
    assert records != [] ==> records == [records[0]] + records[1..];
    if records == [] then []
    else
      var rest := Visited(records[1..], target);
      assert forall x :: x in records <==> x == records[0] || x in records[1..];
      if records[0].date == target && records[0].steps > 0 then [records[0]] + rest else rest
  }

  /**
   * The records are visited in table order: the visit of two consecutive
   * stretches of the table is the visit of the first followed by that of
   * the second.
   */
  lemma {:induction false} VisitedAppend(a: seq<DailyStep>, b: seq<DailyStep>, target: Date)
    ensures Visited(a + b, target) == Visited(a, target) + Visited(b, target)
  {
    if a == [] {
      assert a + b == b;
    } else {
      assert (a + b)[0] == a[0];
      assert (a + b)[1..] == a[1..] + b;
      VisitedAppend(a[1..], b, target);
      if a[0].date == target && a[0].steps > 0 {
        var rest := Visited(a[1..], target);
        assert [a[0]] + (rest + Visited(b, target)) == ([a[0]] + rest) + Visited(b, target);
      }
    }
  }

  /** A single record is visited exactly when it is of the target day with a positive count. */
  lemma VisitedOne(x: DailyStep, target: Date)
    ensures Visited([x], target) == if x.date == target && x.steps > 0 then [x] else []
  {
    assert [x][1..] == [];
  }

  /** How many of the visited transfers moved a positive number of steps. */
  function CountPositive(visited: seq<DailyStep>, target: Date, transfer: (UserId, Date) -> int): (n: nat)
    ensures n <= |visited|
  {
    if visited == [] then 0
    else
      var last := visited[|visited| - 1];
      CountPositive(visited[..|visited| - 1], target, transfer) + (if transfer(last.user, target) > 0 then 1 else 0)
  }

  /** The sum of the positive transfer results. */
  function SumPositive(visited: seq<DailyStep>, target: Date, transfer: (UserId, Date) -> int): nat {
    if visited == [] then 0
    else
      var last := visited[|visited| - 1];
      var moved := transfer(last.user, target);
      SumPositive(visited[..|visited| - 1], target, transfer) + (if moved > 0 then moved else 0)
  }

  /** Each counted transfer moved at least one step, so the total is at least the count. */
  lemma {:induction false} TotalAtLeastCount(visited: seq<DailyStep>, target: Date, transfer: (UserId, Date) -> int)
    ensures SumPositive(visited, target, transfer) >= CountPositive(visited, target, transfer)
    ensures SumPositive(visited, target, transfer) == 0 <==> CountPositive(visited, target, transfer) == 0
  {
    if visited != [] {
      TotalAtLeastCount(visited[..|visited| - 1], target, transfer);
    }
  }

  /** What the command ends with. */
  datatype Outcome =
    | InvalidDate                                // the error message, nothing transferred
    | DateOutOfRange                             // yesterday of 0001-01-01 overflows
    | NoRecords(target: Date)                    // the warning, nothing transferred
    | Done(target: Date, count: nat, total: nat) // the success message

  /**
   * `Command.handle`. `today` is the clock's date; `transfer` stands for
   * `user.transfer_daily_steps`, whose body is not part of this model. As
   * a function, it returns the same amount whenever it is asked again for
   * the same (user, date).
   */
  method Handle(dateOption: Option<string>, today: Date, records: seq<DailyStep>, transfer: (UserId, Date) -> int)
    returns (o: Outcome)
    requires ValidDate(today)
    ensures o == InvalidDate <==> IsGiven(dateOption) && ParseIsoDate(dateOption.value).None?
    ensures o == DateOutOfRange <==> !IsGiven(dateOption) && PrevDay(today).None?
    ensures Target(dateOption, today).None? <==> o == InvalidDate || o == DateOutOfRange
    ensures Target(dateOption, today).Some? ==>
      && (o.NoRecords? || o.Done?)
      && o.target == Target(dateOption, today).value
      && (o.NoRecords? <==> Visited(records, o.target) == [])
    ensures o.Done? ==> o.count == CountPositive(Visited(records, o.target), o.target, transfer)
    ensures o.Done? ==> o.total == SumPositive(Visited(records, o.target), o.target, transfer)
  {
    var target: Date;
    if IsGiven(dateOption) {
      var parsed := ParseIsoDate(dateOption.value);
      if parsed.None? {
        return InvalidDate;
      }
      target := parsed.value;
    } else {
      var yesterday := PrevDay(today);
      if yesterday.None? {
        return DateOutOfRange;
      }
      target := yesterday.value;
    }
    var visited := Visited(records, target);
    if visited == [] {
      return NoRecords(target);
    }
    var count, total := TransferAll(visited, target, transfer);
    return Done(target, count, total);
  }

  /** The command's loop: run each visited user's transfer, counting and summing the positive ones. */
  method TransferAll(visited: seq<DailyStep>, target: Date, transfer: (UserId, Date) -> int) returns (count: nat, total: nat)
    ensures count == CountPositive(visited, target, transfer)
    ensures total == SumPositive(visited, target, transfer)
  {
    count, total := 0, 0;
    var i := 0;
    while i < |visited|
      invariant 0 <= i <= |visited|
      invariant count == CountPositive(visited[..i], target, transfer)
      invariant total == SumPositive(visited[..i], target, transfer)
    {
      var moved := transfer(visited[i].user, target);
      if moved > 0 {
        count := count + 1;
        total := total + moved;
      }
      assert visited[..i + 1][..i] == visited[..i];
      i := i + 1;
    }
    assert visited[..i] == visited;
  }

  /** The day the command processes: the given date, else yesterday; none when that fails. */
  function Target(dateOption: Option<string>, today: Date): Option<Date>
    requires ValidDate(today)
  {
    if IsGiven(dateOption) then ParseIsoDate(dateOption.value) else PrevDay(today)
  }

  /** `if options['date']`: a missing or empty option means "yesterday". */
  predicate IsGiven(dateOption: Option<string>) {
    dateOption.Some? && dateOption.value != ""
  }
}
