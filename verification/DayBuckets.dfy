/** The per-day counts behind the analytics charts. Days are told apart by their printed dates; the
    loops are proved for any way of printing that does tell them apart, and PrintDay does. */
module DayBuckets {
  import opened Results
  import opened Calendar
  import Sums

  type TimeValue = t: int | IsTime(t)

  datatype DayBucket = DayBucket(date: string, count: nat)

  datatype RangeError = InvalidTimeValue

  /** Prints a day number. */
  type Printer = int -> string

  ghost predicate TellsApart(show: Printer) {
    forall day, day' :: show(day) == show(day') ==> day == day'
  }

  /** The printed UTC date of a time; none where the timestamp did not parse. */
  function IsoDay(show: Printer, t: Option<TimeValue>): Option<string> {
    match t
    case None => None
    case Some(time) => Some(show(DayNumber(time)))
  }

  /** How many items print as `date`. */
  function CountPrinted<T>(show: Printer, items: seq<T>, time: T -> Option<TimeValue>, date: string): nat {
    if items == [] then 0
    else
      var n := |items| - 1;
      CountPrinted(show, items[..n], time, date) + if IsoDay(show, time(items[n])) == Some(date) then 1 else 0
  }

  /** How many items have a valid time on one of the days from `first` up to but not `end`. */
  function CountBetween<T>(items: seq<T>, time: T -> Option<TimeValue>, first: int, end: int): nat {
    if items == [] then 0
    else
      var n := |items| - 1;
      CountBetween(items[..n], time, first, end)
        + if time(items[n]).Some? && first <= DayNumber(time(items[n]).value) < end then 1 else 0
  }

  /** What the chart shows: `days` consecutive days of which `last` is the last, each with its date
      and the number of items on it. */
  ghost function Buckets<T>(show: Printer, items: seq<T>, time: T -> Option<TimeValue>, days: nat, last: int)
    : seq<DayBucket>
  {
    if days == 0 then []
    else Buckets(show, items, time, days - 1, last - 1) + [DayBucket(show(last), CountBetween(items, time, last, last + 1))]
  }

  /** The counting loop. */
  method CountDays<T>(show: Printer, items: seq<T>, time: T -> Option<TimeValue>) returns (counts: map<string, nat>)
    ensures forall date :: Sums.Get(counts, date) == CountPrinted(show, items, time, date)
  {
    counts := map[];
    for i := 0 to |items|
      invariant forall date :: Sums.Get(counts, date) == CountPrinted(show, items[..i], time, date)
    {
      assert items[..i + 1][..i] == items[..i];
      var day := IsoDay(show, time(items[i]));
      if day.None? {
        continue;
      }
      counts := counts[day.value := Sums.Get(counts, day.value) + 1];
    }
    assert items[..|items|] == items;
  }

  ghost predicate WindowIsValid(days: int, anchor: int) {
    days <= 0 || (anchor <= 8_640_000_000_000_000 && -8_640_000_000_000_000 <= anchor - (days - 1) * 86_400_000)
  }

  /** Both loops of bucketByDay. They fail exactly where a day of the window is out of range. */
  method BucketWith<T>(show: Printer, items: seq<T>, time: T -> Option<TimeValue>, days: int, anchor: int)
    returns (result: Result<seq<DayBucket>, RangeError>)
    requires TellsApart(show)
    ensures result.Ok? <==> WindowIsValid(days, anchor)
    ensures result.Ok? ==>
      result.value == Buckets(show, items, time, if days <= 0 then 0 else days, DayNumber(anchor))
  {
    var counts := CountDays(show, items, time);
    var buckets: seq<DayBucket> := [];
    var i := days - 1;
    ghost var last := DayNumber(anchor);
    while i >= 0
      invariant i <= days - 1 && (days > 0 ==> -1 <= i)
      invariant buckets == if days <= 0 then [] else Buckets(show, items, time, days - 1 - i, last - 1 - i)
      invariant 0 <= i + 1 < days ==> IsTime(anchor - (days - 1) * MS_PER_DAY) && IsTime(anchor - (i + 1) * MS_PER_DAY)
    {
      var t := anchor - i * MS_PER_DAY;
      if !IsTime(t) {
        return Err(InvalidTimeValue);
      }
      var date := show(DayNumber(t));
      assert DayNumber(t) == last - i by {
        DayBefore(anchor, i);
      }
      CountOnDay(show, items, time, last - i);
      buckets := buckets + [DayBucket(date, Sums.Get(counts, date))];
      i := i - 1;
    }
    return Ok(buckets);
  }

  /** bucketByDay, which prints as isoDay does. */
  method BucketByDay<T>(items: seq<T>, time: T -> Option<TimeValue>, days: int, anchor: int)
    returns (result: Result<seq<DayBucket>, RangeError>)
    ensures result.Ok? <==> WindowIsValid(days, anchor)
    ensures result.Ok? ==>
      result.value == Buckets(PrintDay, items, time, if days <= 0 then 0 else days, DayNumber(anchor))
  {
    PrintDayTellsApart();
    result := BucketWith(PrintDay, items, time, days, anchor);
  }

  lemma PrintDayTellsApart()
    ensures TellsApart(PrintDay)
  {
    forall day, day' | PrintDay(day) == PrintDay(day') ensures day == day' {
      PrintDayIsInjective(day, day');
    }
  }

  lemma DayBefore(anchor: int, i: int)
    ensures DayNumber(anchor - i * MS_PER_DAY) == DayNumber(anchor) - i
  {
  }

  /** Counting by printed date is counting by day. */
  lemma {:induction false} CountOnDay<T>(show: Printer, items: seq<T>, time: T -> Option<TimeValue>, day: int)
    requires TellsApart(show)
    ensures CountPrinted(show, items, time, show(day)) == CountBetween(items, time, day, day + 1)
  {
    if items != [] {
      CountOnDay(show, items[..|items| - 1], time, day);
    }
  }

  // ---- what the chart shows -----------------------------------------------------------------------

  lemma {:induction false} BucketAt<T>(show: Printer, items: seq<T>, time: T -> Option<TimeValue>, days: nat, last: int, k: nat)
    requires k < days
    ensures |Buckets(show, items, time, days, last)| == days
    ensures Buckets(show, items, time, days, last)[k]
      == DayBucket(show(last - days + 1 + k), CountBetween(items, time, last - days + 1 + k, last - days + 2 + k))
  {
    if days == 1 {
      assert Buckets(show, items, time, 0, last - 1) == [];
    } else {
      BucketAt(show, items, time, days - 1, last - 1, if k < days - 1 then k else 0);
    }
  }

  /** `next` is the printed date that follows the printed date `date`. */
  ghost predicate Follows(date: string, next: string) {
    exists d :: IsDate(d) && IsDate(NextDate(d)) && date == Print(d) && next == Print(NextDate(d))
  }

  lemma NextDayFollows(day: int)
    ensures Follows(PrintDay(day), PrintDay(day + 1))
  {
    DateOfIsDate(day);
    DateOfIsDate(day + 1);
    DateOfCountsDays(day);
    assert PrintDay(day) == Print(DateOf(day));
  }

  lemma BucketsFollow<T>(show: Printer, items: seq<T>, time: T -> Option<TimeValue>, days: nat, last: int)
    requires TellsApart(show) && forall day :: Follows(show(day), show(day + 1))
    ensures var buckets := Buckets(show, items, time, days, last);
      && |buckets| == days
      && (days > 0 ==> buckets[days - 1].date == show(last))
      && (forall k :: 0 <= k < days - 1 ==> Follows(buckets[k].date, buckets[k + 1].date))
      && (forall j, k :: 0 <= j < k < days ==> buckets[j].date != buckets[k].date)
  {
    var buckets := Buckets(show, items, time, days, last);
    if days > 0 {
      BucketAt(show, items, time, days, last, 0);
    }
    forall k: nat | k < days
      ensures |buckets| == days && buckets[k].date == show(last - days + 1 + k)
    {
      BucketAt(show, items, time, days, last, k);
    }
    forall k: nat | k < days - 1 ensures Follows(buckets[k].date, buckets[k + 1].date) {
      assert Follows(show(last - days + 1 + k), show(last - days + 1 + k + 1));
    }
  }

  /** The days of the chart are consecutive dates of the calendar up to the anchor's, all printed
      differently. */
  lemma BucketsAreConsecutiveDays<T>(items: seq<T>, time: T -> Option<TimeValue>, days: nat, last: int)
    ensures var buckets := Buckets(PrintDay, items, time, days, last);
      && |buckets| == days
      && (days > 0 ==> buckets[days - 1].date == PrintDay(last))
      && (forall k :: 0 <= k < days - 1 ==> Follows(buckets[k].date, buckets[k + 1].date))
      && (forall j, k :: 0 <= j < k < days ==> buckets[j].date != buckets[k].date)
  {
    PrintDayTellsApart();
    forall day ensures Follows(PrintDay(day), PrintDay(day + 1)) {
      NextDayFollows(day);
    }
    BucketsFollow(PrintDay, items, time, days, last);
  }

  // ---- in milliseconds and dates --------------------------------------------------------------------

  /** From the date's midnight up to the next. */
  predicate OnDate(t: int, date: Date)
    requires IsDate(date)
  {
    DayOf(date) * 24 * 3600 * 1000 <= t < (DayOf(date) + 1) * 24 * 3600 * 1000
  }

  lemma PrintDayOfDate(date: Date, day: int)
    requires IsDate(date) && DayOf(date) == day
    ensures PrintDay(day) == Print(date)
  {
    DateOfInvertsDayOf(date, day);
  }

  /** isoDay prints the date on which a time falls, and nothing for a timestamp that did not parse. */
  lemma IsoDayPrintsTheDate(t: TimeValue, date: Date)
    requires IsDate(date) && OnDate(t, date)
    ensures IsoDay(PrintDay, Some(t)) == Some(Print(date)) && IsoDay(PrintDay, None) == None
  {
    DayNumberExactly(t, DayOf(date));
    PrintDayOfDate(date, DayNumber(t));
  }

  /** How many items have a valid time from `first` up to but not `end`, in milliseconds. */
  function CountFromTo<T>(items: seq<T>, time: T -> Option<TimeValue>, first: int, end: int): nat {
    if items == [] then 0
    else
      var n := |items| - 1;
      CountFromTo(items[..n], time, first, end)
        + match time(items[n]) case None => 0 case Some(t) => if first <= t < end then 1 else 0
  }

  lemma {:induction false} DayInMilliseconds<T>(items: seq<T>, time: T -> Option<TimeValue>, day: int)
    ensures CountBetween(items, time, day, day + 1)
      == CountFromTo(items, time, day * 24 * 3600 * 1000, (day + 1) * 24 * 3600 * 1000)
  {
    if items != [] {
      var n := |items| - 1;
      DayInMilliseconds(items[..n], time, day);
      if time(items[n]).Some? {
        DayNumberExactly(time(items[n]).value, day);
      }
    }
  }

  lemma BucketShowsItsDay<T>(show: Printer, items: seq<T>, time: T -> Option<TimeValue>, days: nat, last: int,
                             k: nat, day: int)
    requires k < days && day == last - (days - 1 - k)
    ensures var buckets := Buckets(show, items, time, days, last);
      && |buckets| == days
      && buckets[k] == DayBucket(show(day), CountFromTo(items, time, day * 24 * 3600 * 1000, (day + 1) * 24 * 3600 * 1000))
  {
    BucketAt(show, items, time, days, last, k);
    DayInMilliseconds(items, time, day);
  }

  /** Prints each day number as its date. */
  ghost predicate PrintsDates(show: Printer) {
    forall date: Date :: IsDate(date) ==> show(DayOf(date)) == Print(date)
  }

  lemma PrintDayPrintsDates()
    ensures PrintsDates(PrintDay)
  {
    forall date: Date | IsDate(date) ensures PrintDay(DayOf(date)) == Print(date) {
      PrintDayOfDate(date, DayOf(date));
    }
  }

  /** `bucket` has this date and counts the items from its midnight up to the next. */
  ghost predicate Shows<T>(bucket: DayBucket, items: seq<T>, time: T -> Option<TimeValue>, date: Date) {
    && IsDate(date) && bucket.date == Print(date)
    && bucket.count == CountFromTo(items, time, DayOf(date) * 24 * 3600 * 1000, (DayOf(date) + 1) * 24 * 3600 * 1000)
  }

  lemma BucketShowsDate<T>(show: Printer, items: seq<T>, time: T -> Option<TimeValue>, days: nat, anchor: int, date: Date,
                           k: nat, shown: Date)
    requires PrintsDates(show)
    requires IsDate(date) && OnDate(anchor, date)
    requires k < days && IsDate(shown) && DayOf(shown) == DayOf(date) - (days - 1 - k)
    ensures var buckets := Buckets(show, items, time, days, DayNumber(anchor));
      |buckets| == days && Shows(buckets[k], items, time, shown)
  {
    DayNumberExactly(anchor, DayOf(date));
    BucketShowsItsDay(show, items, time, days, DayOf(date), k, DayOf(shown));
  }

  /** What bucketByDay shows, in terms of milliseconds and dates only: the last bucket is the date on
      which the anchor falls, each other that of the date as many days before, and each counts the
      items from its date's midnight up to the next. */
  lemma BucketByDayShowsDates<T>(items: seq<T>, time: T -> Option<TimeValue>, days: nat, anchor: int, date: Date,
                                 k: nat, shown: Date)
    requires IsDate(date) && OnDate(anchor, date)
    requires k < days && IsDate(shown) && DayOf(shown) == DayOf(date) - (days - 1 - k)
    ensures var buckets := Buckets(PrintDay, items, time, days, DayNumber(anchor));
      |buckets| == days && Shows(buckets[k], items, time, shown)
  {
    PrintDayPrintsDates();
    BucketShowsDate(PrintDay, items, time, days, anchor, date, k, shown);
  }

  function SumCounts(buckets: seq<DayBucket>): nat {
    if buckets == [] then 0 else SumCounts(buckets[..|buckets| - 1]) + buckets[|buckets| - 1].count
  }

  lemma {:induction false} CountsAddUp<T>(items: seq<T>, time: T -> Option<TimeValue>, first: int, middle: int, end: int)
    requires first <= middle <= end
    ensures CountBetween(items, time, first, end)
      == CountBetween(items, time, first, middle) + CountBetween(items, time, middle, end)
  {
    if items != [] {
      CountsAddUp(items[..|items| - 1], time, first, middle, end);
    }
  }

  lemma {:induction false} NothingBetween<T>(items: seq<T>, time: T -> Option<TimeValue>, day: int)
    ensures CountBetween(items, time, day, day) == 0
  {
    if items != [] {
      NothingBetween(items[..|items| - 1], time, day);
    }
  }

  /** No item is lost or counted twice: the counts add up to the number of items with a valid time
      inside the window. */
  lemma {:induction false} CountsAreComplete<T>(show: Printer, items: seq<T>, time: T -> Option<TimeValue>,
                                                days: nat, last: int)
    ensures SumCounts(Buckets(show, items, time, days, last)) == CountBetween(items, time, last - days + 1, last + 1)
    decreases days
  {
    if days == 0 {
      NothingBetween(items, time, last + 1);
    } else {
      var buckets := Buckets(show, items, time, days, last);
      CountsAreComplete(show, items, time, days - 1, last - 1);
      assert buckets[..|buckets| - 1] == Buckets(show, items, time, days - 1, last - 1);
      CountsAddUp(items, time, last - days + 1, last, last + 1);
    }
  }
}
