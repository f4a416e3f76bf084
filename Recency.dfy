/** `groupHistoryByDate`: the history sorted into four recency buckets
    for the sidebar, in a fixed order of tests. */
module Recency {
  import opened Values

  /** One hour in milliseconds. */
  const HOUR: int := 3600000

  datatype Bucket = Today | Yesterday | ThisWeek | ThisMonth

  /** A valid Date as the grouping reads it: its time value and its day of
      the month in local time. */
  datatype Instant = Instant(ms: int, dayOfMonth: int)

  /** The moment of grouping and the local midnights that begin today and
      yesterday. */
  datatype Clock = Clock(now: Instant, todayStart: int, yesterdayStart: int)

  /** The bucket of an item whose timestamp parses to `date` (None for an
      Invalid Date, against which every comparison is false). The hour
      difference `(now - date) / 3600000` is below h exactly when the
      millisecond difference is below h hours. */
  function Classify(date: Option<Instant>, clock: Clock): Bucket
  {
    match date
    case None => ThisMonth
    case Some(t) =>
      var diff := clock.now.ms - t.ms;
      if diff < 24 * HOUR && t.dayOfMonth == clock.now.dayOfMonth then Today
      else if t.ms >= clock.yesterdayStart && t.ms < clock.todayStart then Yesterday
      else if diff < 168 * HOUR then ThisWeek
      else ThisMonth
  }

  /** What `new Date(item.timestamp)` gives; `parse` stands for Date
      parsing, and a missing timestamp is an Invalid Date. */
  function DateOf(item: Json, parse: Json -> Option<Instant>): Option<Instant>
  {
    match Get(item, "timestamp")
    case Value(v) => parse(v)
    case _ => None
  }

  function BucketOf(item: Json, clock: Clock, parse: Json -> Option<Instant>): Bucket
  {
    Classify(DateOf(item, parse), clock)
  }

  /** The items of bucket `b`, in input order. */
  function InBucket(items: seq<Json>, b: Bucket, clock: Clock, parse: Json -> Option<Instant>): seq<Json>
  {
    if items == [] then []
    else (if BucketOf(items[0], clock, parse) == b then [items[0]] else [])
         + InBucket(items[1..], b, clock, parse)
  }

  datatype Groups = Groups(today: seq<Json>, yesterday: seq<Json>, thisWeek: seq<Json>, thisMonth: seq<Json>)

  function Bucketed(items: seq<Json>, clock: Clock, parse: Json -> Option<Instant>): Groups
  {
    Groups(InBucket(items, Today, clock, parse), InBucket(items, Yesterday, clock, parse),
           InBucket(items, ThisWeek, clock, parse), InBucket(items, ThisMonth, clock, parse))
  }

  lemma {:induction false} InBucketAppend(items: seq<Json>, item: Json, b: Bucket, clock: Clock,
                                          parse: Json -> Option<Instant>)
    ensures InBucket(items + [item], b, clock, parse)
         == InBucket(items, b, clock, parse) + (if BucketOf(item, clock, parse) == b then [item] else [])
  {
    if items == [] {
      assert [item][1..] == [];
    } else {
      assert (items + [item])[1..] == items[1..] + [item];
      InBucketAppend(items[1..], item, b, clock, parse);
    }
  }

  /** `groupHistoryByDate(items)`: None when an item is null and reading its
      timestamp throws. */
  method GroupHistoryByDate(items: seq<Json>, clock: Clock, parse: Json -> Option<Instant>)
    returns (groups: Option<Groups>)
    ensures groups.None? <==> JNull in items
    ensures groups.Some? ==> groups.value == Bucketed(items, clock, parse)
  {
    var today: seq<Json> := [];
    var yesterday: seq<Json> := [];
    var thisWeek: seq<Json> := [];
    var thisMonth: seq<Json> := [];
    var i := 0;
    while i < |items|
      invariant 0 <= i <= |items|
      invariant JNull !in items[..i]
      invariant Groups(today, yesterday, thisWeek, thisMonth) == Bucketed(items[..i], clock, parse)
    {
      var item := items[i];
      if item == JNull {
        return None;
      }
      InBucketAppend(items[..i], item, Today, clock, parse);
      InBucketAppend(items[..i], item, Yesterday, clock, parse);
      InBucketAppend(items[..i], item, ThisWeek, clock, parse);
      InBucketAppend(items[..i], item, ThisMonth, clock, parse);
      assert items[..i + 1] == items[..i] + [item];
      var b := BucketOf(item, clock, parse);
      if b == Today {
        today := today + [item];
      } else if b == Yesterday {
        yesterday := yesterday + [item];
      } else if b == ThisWeek {
        thisWeek := thisWeek + [item];
      } else {
        thisMonth := thisMonth + [item];
      }
      i := i + 1;
    }
    assert items[..i] == items;
    return Some(Groups(today, yesterday, thisWeek, thisMonth));
  }

  /** The four buckets partition the input: together they hold every item
      exactly as often as the input does. */
  lemma {:induction false} BucketsPartition(items: seq<Json>, clock: Clock, parse: Json -> Option<Instant>)
    ensures var g := Bucketed(items, clock, parse);
      multiset(g.today) + multiset(g.yesterday) + multiset(g.thisWeek) + multiset(g.thisMonth)
        == multiset(items)
  {
    if items != [] {
      BucketsPartition(items[1..], clock, parse);
      assert items == [items[0]] + items[1..];
    }
  }

  /** Each bucket holds only items of that bucket, and every item of the
      input that falls in it. */
  lemma {:induction false} BucketMembership(items: seq<Json>, b: Bucket, clock: Clock,
                                               parse: Json -> Option<Instant>)
    ensures var s := InBucket(items, b, clock, parse);
      (forall k :: 0 <= k < |s| ==> BucketOf(s[k], clock, parse) == b)
      && |s| <= |items|
      && (forall k :: 0 <= k < |items| && BucketOf(items[k], clock, parse) == b ==> items[k] in s)
  {
    if items != [] {
      BucketMembership(items[1..], b, clock, parse);
      var head: seq<Json> := if BucketOf(items[0], clock, parse) == b then [items[0]] else [];
      var rest := InBucket(items[1..], b, clock, parse);
      assert InBucket(items, b, clock, parse) == head + rest;
      forall k | 0 <= k < |items| && BucketOf(items[k], clock, parse) == b
        ensures items[k] in head + rest
      {
        if k > 0 {
          assert items[k] == items[1..][k - 1];
        }
      }
    }
  }

  /** The order of the tests: "today" needs under 24 hours and today's day
      of the month; "yesterday" is stamped between yesterday's and today's
      midnight; "this week" is under 168 hours; everything else, invalid
      dates included, falls into the last bucket. */
  lemma BucketMeaning(date: Option<Instant>, clock: Clock)
    ensures Classify(date, clock) == Today ==>
      date.Some? && clock.now.ms - date.value.ms < 24 * HOUR && date.value.dayOfMonth == clock.now.dayOfMonth
    ensures Classify(date, clock) == Yesterday ==>
      date.Some? && clock.yesterdayStart <= date.value.ms < clock.todayStart
    ensures Classify(date, clock) == ThisWeek ==> date.Some? && clock.now.ms - date.value.ms < 168 * HOUR
    ensures Classify(date, clock) == ThisMonth <==>
      date.None? || (clock.now.ms - date.value.ms >= 168 * HOUR
                     && !(clock.yesterdayStart <= date.value.ms < clock.todayStart))
  {
  }
}
