/**
 The forecast views of the home page (app/page.tsx): the "today" strip of up to
 six hourly items and the weekly summary of up to seven days, both derived from
 the record list of a five-day forecast response.

 Locale formatting is not modelled: the day of the month, the weekday name and the
 time of day of an instant are whatever the `Calendar` passed in says they are.
 */
module Forecast {
  import opened Wrappers
  import opened Seqs

  /** Milliseconds since the epoch, as JavaScript's `Date` holds them. */
  type Instant = int

  /** The viewer's clock and locale: `getDate()`, the "es-ES" long weekday name and the "es-ES" time of day. */
  datatype Calendar = Calendar(
    dayOfMonth: Instant -> int,
    weekdayName: Instant -> string,
    timeOfDay: Instant -> string)

  /** One record of `forecast.list`: `dt` in seconds, `main.temp` and `weather[0].icon`. */
  datatype ForecastItem = ForecastItem(dt: int, temp: real, icon: string)

  /** A forecast response; its `list` field may be missing. */
  datatype ForecastResponse = ForecastResponse(list: Option<seq<ForecastItem>>)

  datatype HourItem = HourItem(time: string, temp: real, iconUrl: string)
  datatype DayItem = DayItem(dayLabel: string, iconUrl: string, max: real, min: real)

  /** The accumulator of one weekday: every temperature seen and the first record's icon. */
  datatype Bucket = Bucket(temps: seq<real>, icon: string)

  /** The insertion-ordered `Map` `byDay`: its keys in insertion order and its entries. */
  datatype ByDayMap = ByDayMap(keys: seq<string>, buckets: map<string, Bucket>)

  const TodayLimit: nat := 6
  const WeekLimit: nat := 7
  const MobileDays: nat := 3
  const IconBase := "https://openweathermap.org/img/wn/"
  const IconSuffix := ".png"

  /** `forecast?.list || []`. */
  function Records(forecast: Option<ForecastResponse>): (r: seq<ForecastItem>)
    ensures forecast.None? || forecast.value.list.None? ==> r == []
    ensures forecast.Some? && forecast.value.list.Some? ==> r == forecast.value.list.value
  {
    match forecast
    case None => []
    case Some(f) => if f.list.Some? then f.list.value else []
  }

  /** `new Date(item.dt * 1000)`. */
  function At(it: ForecastItem): Instant
  {
    it.dt * 1000
  }

  function IconUrl(icon: string): string
  {
    IconBase + icon + IconSuffix
  }

  /** The icon code can be read back from its URL, so distinct icons give distinct URLs. */
  lemma IconUrlInjective(a: string, b: string)
    requires IconUrl(a) == IconUrl(b)
    ensures a == b
  {
    var n := |IconBase|;
    assert a == IconUrl(a)[n..n + |a|];
    assert |a| == |b|;
    assert b == IconUrl(b)[n..n + |b|];
  }

  // ---------------------------------------------------------------------------
  // Today's items
  // ---------------------------------------------------------------------------

  /** The filter of the today strip compares only the day of the month with now's. */
  predicate IsToday(cal: Calendar, now: Instant, it: ForecastItem)
  {
    cal.dayOfMonth(At(it)) == cal.dayOfMonth(now)
  }

  function TodayRecords(items: seq<ForecastItem>, cal: Calendar, now: Instant): seq<ForecastItem>
  {
    Filter(items, (it: ForecastItem) => IsToday(cal, now, it))
  }

  function HourOf(cal: Calendar, it: ForecastItem): HourItem
  {
    HourItem(cal.timeOfDay(At(it)), it.temp, IconUrl(it.icon))
  }

  /** `todayItems`: filter to today, keep the first six, map to hour items. */
  function TodayItems(items: seq<ForecastItem>, cal: Calendar, now: Instant): (r: seq<HourItem>)
    ensures |r| <= TodayLimit
    ensures forall h :: h in r ==>
      exists it :: it in items && IsToday(cal, now, it) && h == HourOf(cal, it)
  {
    var today := TodayRecords(items, cal, now);
    var shown := Take(today, TodayLimit);
    var r := MapSeq(shown, (it: ForecastItem) => HourOf(cal, it));
    assert forall i :: 0 <= i < |r| ==> shown[i] in today && r[i] == HourOf(cal, shown[i]);
    r
  }

  /** The today strip is the hour items of the first matching records, in input order. */
  lemma TodayItemsArePrefix(items: seq<ForecastItem>, cal: Calendar, now: Instant)
    ensures |TodayItems(items, cal, now)| == Min(TodayLimit, |TodayRecords(items, cal, now)|)
    ensures forall i :: 0 <= i < |TodayItems(items, cal, now)| ==>
      TodayItems(items, cal, now)[i] == HourOf(cal, TodayRecords(items, cal, now)[i])
  {
  }

  /** Records before `t` are shown before records of `t`: the filter keeps input order. */
  lemma TodayRecordsKeepOrder(s: seq<ForecastItem>, t: seq<ForecastItem>, cal: Calendar, now: Instant)
    ensures TodayRecords(s + t, cal, now) == TodayRecords(s, cal, now) + TodayRecords(t, cal, now)
  {
    FilterConcat(s, t, (it: ForecastItem) => IsToday(cal, now, it));
  }

  // ---------------------------------------------------------------------------
  // Bucketing by weekday
  // ---------------------------------------------------------------------------

  /** The bucket key: the weekday name, not the calendar date. */
  function KeyOf(cal: Calendar, it: ForecastItem): string
  {
    cal.weekdayName(At(it))
  }

  /** One step of the `forEach`: get or create the bucket, push the temperature, set it back. */
  function AddRecord(g: ByDayMap, key: string, it: ForecastItem): ByDayMap
  {
    if key in g.buckets then
      ByDayMap(g.keys, g.buckets[key := Bucket(g.buckets[key].temps + [it.temp], g.buckets[key].icon)])
    else
      ByDayMap(g.keys + [key], g.buckets[key := Bucket([it.temp], it.icon)])
  }

  ghost predicate NoDuplicates(ks: seq<string>)
  {
    forall i, j :: 0 <= i < j < |ks| ==> ks[i] != ks[j]
  }

  /** The keys list is the map's key set without repetition, and no bucket is empty. */
  ghost predicate WellFormed(g: ByDayMap)
  {
    && NoDuplicates(g.keys)
    && (forall k :: k in g.buckets <==> k in g.keys)
    && (forall k :: k in g.buckets ==> g.buckets[k].temps != [])
  }

  ghost predicate HasKey(items: seq<ForecastItem>, cal: Calendar, k: string)
  {
    exists i :: 0 <= i < |items| && KeyOf(cal, items[i]) == k
  }

  /** Adding one record keeps the map well formed and adds exactly that record's key. */
  lemma AddRecordWellFormed(g: ByDayMap, key: string, it: ForecastItem)
    requires WellFormed(g)
    ensures WellFormed(AddRecord(g, key, it))
    ensures AddRecord(g, key, it).buckets.Keys == g.buckets.Keys + {key}
    ensures |AddRecord(g, key, it).keys| <= |g.keys| + 1
  {
  }

  /** The keys present in `init + [last]` are those of `init` and the key of `last`. */
  lemma HasKeySnoc(init: seq<ForecastItem>, last: ForecastItem, cal: Calendar, k: string)
    ensures HasKey(init + [last], cal, k) <==> HasKey(init, cal, k) || k == KeyOf(cal, last)
  {
    var items := init + [last];
    if HasKey(init, cal, k) {
      var i :| 0 <= i < |init| && KeyOf(cal, init[i]) == k;
      assert items[i] == init[i];
    }
    if k == KeyOf(cal, last) {
      assert items[|init|] == last;
    }
    if HasKey(items, cal, k) {
      var i :| 0 <= i < |items| && KeyOf(cal, items[i]) == k;
      if i < |init| { assert init[i] == items[i]; }
    }
  }

  /** The facts `ByDay` promises, carried from `init` to `init + [last]` by one more record. */
  lemma AddRecordStep(init: seq<ForecastItem>, last: ForecastItem, cal: Calendar, g: ByDayMap)
    requires WellFormed(g) && |g.keys| <= |init|
    requires forall k :: k in g.buckets <==> HasKey(init, cal, k)
    ensures var g' := AddRecord(g, KeyOf(cal, last), last);
      && WellFormed(g') && |g'.keys| <= |init + [last]|
      && forall k :: k in g'.buckets <==> HasKey(init + [last], cal, k)
  {
    AddRecordWellFormed(g, KeyOf(cal, last), last);
    forall k ensures HasKey(init + [last], cal, k) <==> HasKey(init, cal, k) || k == KeyOf(cal, last) {
      HasKeySnoc(init, last, cal, k);
    }
  }

  /** The `byDay` map after the `forEach` over `items`. */
  function ByDay(items: seq<ForecastItem>, cal: Calendar): (g: ByDayMap)
    ensures WellFormed(g)
    ensures |g.keys| <= |items|
    ensures forall k :: k in g.buckets <==> HasKey(items, cal, k)
    decreases |items|
  {
    if items == [] then ByDayMap([], map[])
    else
      var init := items[..|items| - 1];
      var last := items[|items| - 1];
      SplitLast(items);
      AddRecordStep(init, last, cal, ByDay(init, cal));
      AddRecord(ByDay(init, cal), KeyOf(cal, last), last)
  }

  /** One more record of the loop is one more `AddRecord`. */
  lemma ByDayPrefixStep(items: seq<ForecastItem>, cal: Calendar, n: nat)
    requires n < |items|
    ensures ByDay(items[..n + 1], cal) == AddRecord(ByDay(items[..n], cal), KeyOf(cal, items[n]), items[n])
  {
    assert items[..n + 1][..n] == items[..n];
  }

  /** The map after one more record is the map before it, with that record added. */
  lemma ByDaySnoc(init: seq<ForecastItem>, last: ForecastItem, cal: Calendar)
    ensures ByDay(init + [last], cal) == AddRecord(ByDay(init, cal), KeyOf(cal, last), last)
  {
    var items := init + [last];
    ByDayPrefixStep(items, cal, |init|);
    assert items[..|init| + 1] == items && items[..|init|] == init;
  }

  /** The `forEach` loop of the source, over an accumulator of keys and buckets. */
  method GroupByWeekday(items: seq<ForecastItem>, cal: Calendar) returns (g: ByDayMap)
    ensures g == ByDay(items, cal)
  {
    var keys: seq<string> := [];
    var buckets: map<string, Bucket> := map[];
    var n := 0;
    while n < |items|
      invariant 0 <= n <= |items|
      invariant ByDayMap(keys, buckets) == ByDay(items[..n], cal)
    {
      var it := items[n];
      var key := KeyOf(cal, it);
      ghost var before := ByDayMap(keys, buckets);
      var prev := if key in buckets then buckets[key] else Bucket([], it.icon);
      assert key !in buckets ==> prev.temps + [it.temp] == [it.temp];
      prev := prev.(temps := prev.temps + [it.temp]);
      if key !in buckets {
        // setting a new key appends it to the map's iteration order
        keys := keys + [key];
      }
      buckets := buckets[key := prev];
      assert ByDayMap(keys, buckets) == AddRecord(before, key, it);
      ByDayPrefixStep(items, cal, n);
      n := n + 1;
    }
    assert items[..n] == items;
    g := ByDayMap(keys, buckets);
  }

  /** The temperatures of the records whose key is `k`, in input order. */
  function TempsWithKey(items: seq<ForecastItem>, cal: Calendar, k: string): seq<real>
  {
    if items == [] then []
    else
      var last := items[|items| - 1];
      TempsWithKey(items[..|items| - 1], cal, k) + (if KeyOf(cal, last) == k then [last.temp] else [])
  }

  /** No record with the key, no temperatures. */
  lemma {:induction false} TempsWithKeyAbsent(items: seq<ForecastItem>, cal: Calendar, k: string)
    requires !HasKey(items, cal, k)
    ensures TempsWithKey(items, cal, k) == []
  {
    if items != [] {
      var init := items[..|items| - 1];
      forall i | 0 <= i < |init| ensures KeyOf(cal, init[i]) != k {
        assert init[i] == items[i];
      }
      TempsWithKeyAbsent(init, cal, k);
    }
  }

  /** Each bucket holds exactly the temperatures of the records with its key, in input order. */
  lemma {:induction false} ByDayTemps(items: seq<ForecastItem>, cal: Calendar, k: string)
    requires k in ByDay(items, cal).buckets
    ensures ByDay(items, cal).buckets[k].temps == TempsWithKey(items, cal, k)
    decreases |items|
  {
    var init := items[..|items| - 1];
    var last := items[|items| - 1];
    SplitLast(items);
    ByDaySnoc(init, last, cal);
    if k in ByDay(init, cal).buckets {
      ByDayTemps(init, cal, k);
    } else {
      TempsWithKeyAbsent(init, cal, k);
    }
  }

  /** The index of the first record whose key is `k`. */
  function FirstIndexOfKey(items: seq<ForecastItem>, cal: Calendar, k: string): (r: nat)
    requires HasKey(items, cal, k)
    ensures r < |items| && KeyOf(cal, items[r]) == k
    ensures forall j :: 0 <= j < r ==> KeyOf(cal, items[j]) != k
  {
    if KeyOf(cal, items[0]) == k then 0
    else
      assert HasKey(items[1..], cal, k) by {
        var i :| 0 <= i < |items| && KeyOf(cal, items[i]) == k;
        assert items[1..][i - 1] == items[i];
      }
      1 + FirstIndexOfKey(items[1..], cal, k)
  }

  /** Appending a record does not move the first occurrence of a key already present. */
  lemma FirstIndexOfKeySnoc(init: seq<ForecastItem>, last: ForecastItem, cal: Calendar, k: string)
    requires HasKey(init, cal, k)
    ensures HasKey(init + [last], cal, k)
    ensures FirstIndexOfKey(init + [last], cal, k) == FirstIndexOfKey(init, cal, k)
  {
    var items := init + [last];
    var b := FirstIndexOfKey(init, cal, k);
    assert items[b] == init[b];
  }

  /** A bucket's icon is that of the first record that landed in it; later records never change it. */
  lemma {:induction false} ByDayFirstIcon(items: seq<ForecastItem>, cal: Calendar, k: string)
    requires k in ByDay(items, cal).buckets
    ensures HasKey(items, cal, k)
    ensures ByDay(items, cal).buckets[k].icon == items[FirstIndexOfKey(items, cal, k)].icon
    decreases |items|
  {
    var init := items[..|items| - 1];
    var last := items[|items| - 1];
    SplitLast(items);
    ByDaySnoc(init, last, cal);
    if k in ByDay(init, cal).buckets {
      ByDayFirstIcon(init, cal, k);
      FirstIndexOfKeySnoc(init, last, cal, k);
    } else {
      assert forall i :: 0 <= i < |init| ==> KeyOf(cal, init[i]) != k;
    }
  }

  /** A key that first turns up in the last record is first seen after every key of the earlier records. */
  lemma NewKeyComesLast(init: seq<ForecastItem>, last: ForecastItem, cal: Calendar, k: string)
    requires HasKey(init, cal, k) && !HasKey(init, cal, KeyOf(cal, last))
    ensures HasKey(init + [last], cal, k) && HasKey(init + [last], cal, KeyOf(cal, last))
    ensures FirstIndexOfKey(init + [last], cal, k) < FirstIndexOfKey(init + [last], cal, KeyOf(cal, last))
  {
    var items := init + [last];
    FirstIndexOfKeySnoc(init, last, cal, k);
    assert items[|init|] == last;
    forall m | 0 <= m < |init| ensures KeyOf(cal, items[m]) != KeyOf(cal, last) {
      assert items[m] == init[m];
    }
  }

  /** Keys come out in first-seen order: a key listed earlier first appears earlier in the input. */
  lemma {:induction false} ByDayFirstSeenOrder(items: seq<ForecastItem>, cal: Calendar, i: nat, j: nat)
    requires i < j < |ByDay(items, cal).keys|
    ensures HasKey(items, cal, ByDay(items, cal).keys[i]) && HasKey(items, cal, ByDay(items, cal).keys[j])
    ensures FirstIndexOfKey(items, cal, ByDay(items, cal).keys[i]) < FirstIndexOfKey(items, cal, ByDay(items, cal).keys[j])
    decreases |items|
  {
    var init := items[..|items| - 1];
    var last := items[|items| - 1];
    SplitLast(items);
    var g0 := ByDay(init, cal);
    var g := ByDay(items, cal);
    var key := KeyOf(cal, last);
    ByDaySnoc(init, last, cal);
    var ki, kj := g.keys[i], g.keys[j];
    assert i < |g0.keys| && ki == g0.keys[i];
    FirstIndexOfKeySnoc(init, last, cal, ki);
    if j < |g0.keys| {
      assert kj == g0.keys[j];
      ByDayFirstSeenOrder(init, cal, i, j);
      FirstIndexOfKeySnoc(init, last, cal, kj);
    } else {
      // kj is the key that `last` introduced: no earlier record has it
      assert kj == key;
      assert key !in g0.buckets;
      NewKeyComesLast(init, last, cal, ki);
    }
  }

  /** Total number of temperatures held in the buckets of the keys `ks`. */
  function BucketTotal(buckets: map<string, Bucket>, ks: seq<string>): nat
    requires forall k :: k in ks ==> k in buckets
  {
    if ks == [] then 0
    else BucketTotal(buckets, ks[..|ks| - 1]) + |buckets[ks[|ks| - 1]].temps|
  }

  lemma {:induction false} BucketTotalFrame(b1: map<string, Bucket>, b2: map<string, Bucket>, ks: seq<string>)
    requires forall k :: k in ks ==> k in b1 && k in b2 && |b1[k].temps| == |b2[k].temps|
    ensures BucketTotal(b1, ks) == BucketTotal(b2, ks)
  {
    if ks != [] {
      BucketTotalFrame(b1, b2, ks[..|ks| - 1]);
    }
  }

  lemma {:induction false} BucketTotalBump(b: map<string, Bucket>, ks: seq<string>, key: string, nb: Bucket)
    requires forall k :: k in ks ==> k in b
    requires NoDuplicates(ks) && key in ks
    requires |nb.temps| == |b[key].temps| + 1
    ensures BucketTotal(b[key := nb], ks) == BucketTotal(b, ks) + 1
  {
    var init := ks[..|ks| - 1];
    if ks[|ks| - 1] == key {
      assert key !in init;
      BucketTotalFrame(b[key := nb], b, init);
    } else {
      assert key in init by {
        var m :| 0 <= m < |ks| && ks[m] == key;
        assert m < |init| && init[m] == key;
      }
      BucketTotalBump(b, init, key, nb);
    }
  }

  /** Before truncation the bucket sizes add up to the number of records: each lands in exactly one bucket. */
  lemma {:induction false} ByDayBucketSizesSum(items: seq<ForecastItem>, cal: Calendar)
    ensures BucketTotal(ByDay(items, cal).buckets, ByDay(items, cal).keys) == |items|
    decreases |items|
  {
    if items != [] {
      var init := items[..|items| - 1];
      var last := items[|items| - 1];
      var g0 := ByDay(init, cal);
      var g := ByDay(items, cal);
      var key := KeyOf(cal, last);
      ByDayBucketSizesSum(init, cal);
      if key in g0.buckets {
        BucketTotalBump(g0.buckets, g0.keys, key, g.buckets[key]);
      } else {
        assert g.keys[..|g.keys| - 1] == g0.keys;
        BucketTotalFrame(g.buckets, g0.buckets, g0.keys);
      }
    }
  }

  // ---------------------------------------------------------------------------
  // Day summaries
  // ---------------------------------------------------------------------------

  /** `Math.max(...temps)`. */
  function MaxOf(s: seq<real>): (r: real)
    requires s != []
    ensures r in s && forall x :: x in s ==> x <= r
  {
    if |s| == 1 then s[0]
    else
      var m := MaxOf(s[1..]);
      assert forall x :: x in s ==> x == s[0] || x in s[1..];
      if s[0] >= m then s[0] else m
  }

  /** `Math.min(...temps)`. */
  function MinOf(s: seq<real>): (r: real)
    requires s != []
    ensures r in s && forall x :: x in s ==> r <= x
  {
    if |s| == 1 then s[0]
    else
      var m := MinOf(s[1..]);
      assert forall x :: x in s ==> x == s[0] || x in s[1..];
      if s[0] <= m then s[0] else m
  }

  /**
   `c.toUpperCase()` for one character: ASCII and Latin-1 lower-case letters. Two Latin-1
   letters leave the block: 'µ' becomes Greek capital mu and 'ÿ' becomes Latin capital Y
   with diaeresis.
   */
  function UpperCase(c: char): char
  {
    if c == '\U{00B5}' then '\U{039C}'
    else if c == '\U{00FF}' then '\U{0178}'
    else if 'a' <= c <= 'z' || ('à' <= c <= 'þ' && c != '÷') then (c as int - 32) as char
    else c
  }

  /** `s.charAt(0).toUpperCase() + s.slice(1)`. */
  function Capitalize(s: string): (r: string)
    ensures |r| == |s|
    ensures s == [] ==> r == []
    ensures s != [] ==> r[0] == UpperCase(s[0]) && r[1..] == s[1..]
  {
    if s == [] then [] else [UpperCase(s[0])] + s[1..]
  }

  /** Capitalising an already capitalised label changes nothing. */
  lemma CapitalizeIdempotent(s: string)
    ensures Capitalize(Capitalize(s)) == Capitalize(s)
  {
  }

  function Summarise(key: string, b: Bucket): DayItem
    requires b.temps != []
  {
    DayItem(Capitalize(key), IconUrl(b.icon), MaxOf(b.temps), MinOf(b.temps))
  }

  /** `days`: the first seven entries of `byDay`, each summarised. */
  function Days(items: seq<ForecastItem>, cal: Calendar): (days: seq<DayItem>)
    ensures |days| == Min(WeekLimit, |ByDay(items, cal).keys|)
  {
    var g := ByDay(items, cal);
    var n := Min(WeekLimit, |g.keys|);
    seq(n, i requires 0 <= i < n => Summarise(g.keys[i], g.buckets[g.keys[i]]))
  }

  /**
   Each day is the summary of the bucket of the i-th first-seen weekday: its label is that
   weekday capitalised, its icon the first record's, and `min <= max` are temperatures of
   the records with that key bounding all of them.
   */
  lemma DaysSummarise(items: seq<ForecastItem>, cal: Calendar, i: nat)
    requires i < |Days(items, cal)|
    ensures var k := ByDay(items, cal).keys[i]; var d := Days(items, cal)[i];
      && HasKey(items, cal, k)
      && d.dayLabel == Capitalize(k)
      && d.iconUrl == IconUrl(items[FirstIndexOfKey(items, cal, k)].icon)
      && d.min <= d.max
      && d.max in TempsWithKey(items, cal, k) && d.min in TempsWithKey(items, cal, k)
      && forall t :: t in TempsWithKey(items, cal, k) ==> d.min <= t <= d.max
  {
    var k := ByDay(items, cal).keys[i];
    ByDayTemps(items, cal, k);
    ByDayFirstIcon(items, cal, k);
  }

  /** The week view keeps the earliest-seen weekdays: any weekday left out first appears after every kept one. */
  lemma DaysKeepEarliest(items: seq<ForecastItem>, cal: Calendar, k: string, i: nat)
    requires HasKey(items, cal, k)
    requires i < |Days(items, cal)|
    requires forall j :: 0 <= j < |Days(items, cal)| ==> ByDay(items, cal).keys[j] != k
    ensures HasKey(items, cal, ByDay(items, cal).keys[i])
    ensures FirstIndexOfKey(items, cal, ByDay(items, cal).keys[i]) < FirstIndexOfKey(items, cal, k)
  {
    var g := ByDay(items, cal);
    assert k in g.keys;
    var j :| 0 <= j < |g.keys| && g.keys[j] == k;
    assert i < j;
    ByDayFirstSeenOrder(items, cal, i, j);
  }

  /** No weekday is listed twice in the week view. */
  lemma DaysDistinctKeys(items: seq<ForecastItem>, cal: Calendar, i: nat, j: nat)
    requires i < j < |Days(items, cal)|
    ensures ByDay(items, cal).keys[i] != ByDay(items, cal).keys[j]
  {
  }

  /** `days.slice(0, 3)`: the mobile chart's data. */
  function MobileSubset(days: seq<DayItem>): (r: seq<DayItem>)
    ensures |r| == Min(MobileDays, |days|) && r <= days
  {
    Take(days, MobileDays)
  }

  /** A missing forecast, a missing list or an empty list give empty views, without an error. */
  lemma EmptyForecastGivesEmptyViews(forecast: Option<ForecastResponse>, cal: Calendar, now: Instant)
    requires forecast.None? || forecast.value.list.None? || forecast.value.list.value == []
    ensures TodayItems(Records(forecast), cal, now) == []
    ensures Days(Records(forecast), cal) == []
  {
  }

  /** Two records of one weekday, 20 then 25 degrees: one day, max 25, min 20, the first record's icon. */
  lemma SameDayExample(cal: Calendar, a: ForecastItem, b: ForecastItem)
    requires KeyOf(cal, a) == KeyOf(cal, b)
    requires a.temp == 20.0 && b.temp == 25.0
    ensures |Days([a, b], cal)| == 1
    ensures Days([a, b], cal)[0] == DayItem(Capitalize(KeyOf(cal, a)), IconUrl(a.icon), 25.0, 20.0)
  {
    assert [a, b][..1] == [a];
    assert [a][..0] == [];
    assert ByDay([a, b], cal).buckets[KeyOf(cal, a)].temps == [20.0, 25.0];
  }
}
