/**
 Metric history: raw rows are rolled up into 5-minute and those into hourly buckets, and a history
 query is thinned out to a maximum number of points. A table holds one of the columns that a rollup
 takes the maximum of.
 */
module Rollup {

  /** A row's node and its time in milliseconds. */
  datatype Key = Key(node: string, ts: nat)

  type Table = map<Key, int>

  const FIVE_MINUTES: int := 300_000
  const HOUR: int := 3_600_000
  const RAW_WINDOW: int := 48 * HOUR
  const FIVE_MINUTE_WINDOW: int := 14 * 24 * HOUR

  function BucketOf(ts: nat, size: int): nat
    requires size > 0
  {
    ts / size * size
  }

  /** The rows of a node that fall into a bucket and are not older than `since`. */
  function BucketRows(t: Table, size: int, since: int, node: string, bucket: nat): set<Key>
    requires size > 0
  {
    set k | k in t && k.node == node && k.ts >= since && BucketOf(k.ts, size) == bucket
  }

  /** The greatest value among some rows. */
  ghost function MaxOver(t: Table, keys: set<Key>): (m: int)
    requires keys != {} && keys <= t.Keys
    ensures (exists k :: k in keys && t[k] == m) && (forall k :: k in keys ==> t[k] <= m)
  {
    var k :| k in keys;
    var rest := keys - {k};
    assert keys == rest + {k};
    if rest == {} then t[k]
    else
      var m := MaxOver(t, rest);
      if t[k] >= m then t[k] else m
  }

  function BucketKeys(t: Table, size: int, since: int): set<Key>
    requires size > 0
  {
    set k | k in t && k.ts >= since :: Key(k.node, BucketOf(k.ts, size))
  }

  /** Aggregates the source rows since a cutoff by bucket and writes them over the target. */
  ghost function RollupTable(source: Table, target: Table, size: int, since: int): Table
    requires size > 0
  {
    map k | k in target.Keys + BucketKeys(source, size, since) ::
      var rows := BucketRows(source, size, since, k.node, k.ts);
      if rows != {} then MaxOver(source, rows) else if k in target then target[k] else 0
  }

  lemma {:induction false} RollupTableAt(source: Table, target: Table, size: int, since: int, k: Key)
    requires size > 0
    ensures var rows := BucketRows(source, size, since, k.node, k.ts);
            var r := RollupTable(source, target, size, since);
            && (k in r <==> rows != {} || k in target)
            && (rows != {} ==> r[k] == MaxOver(source, rows))
            && (rows == {} && k in target ==> r[k] == target[k])
  {
    var rows := BucketRows(source, size, since, k.node, k.ts);
    if rows != {} {
      var row :| row in rows;
      assert Key(row.node, BucketOf(row.ts, size)) == k;
    }
    if k in BucketKeys(source, size, since) {
      var row :| row in source && row.ts >= since && Key(row.node, BucketOf(row.ts, size)) == k;
      assert row in rows;
    }
  }

  datatype Metrics = Metrics(raw: Table, fiveMinute: Table, hourly: Table)

  ghost function RolledUp(m: Metrics, now: int): Metrics {
    var five := RollupTable(m.raw, m.fiveMinute, FIVE_MINUTES, now - RAW_WINDOW);
    Metrics(m.raw, five, RollupTable(five, m.hourly, HOUR, now - FIVE_MINUTE_WINDOW))
  }

  // ----- runs without deletions

  datatype Event = Insert(key: Key, value: int) | Roll(now: int)

  ghost function Apply(m: Metrics, e: Event): Metrics {
    match e
    case Insert(key, value) => m.(raw := m.raw[key := value])
    case Roll(now) => RolledUp(m, now)
  }

  ghost function Run(events: seq<Event>): Metrics {
    if events == [] then Metrics(map[], map[], map[])
    else Apply(Run(events[..|events| - 1]), events[|events| - 1])
  }

  /** Every bucket row goes back to some source row in its bucket. */
  ghost predicate Backed(target: Table, source: Table, size: int)
    requires size > 0
  {
    forall k :: k in target ==> BucketRows(source, size, 0, k.node, k.ts) != {}
  }

  lemma RollupTableBacked(source: Table, target: Table, size: int, since: int)
    requires size > 0 && Backed(target, source, size)
    ensures Backed(RollupTable(source, target, size, since), source, size)
  {
    var r := RollupTable(source, target, size, since);
    forall k | k in r ensures BucketRows(source, size, 0, k.node, k.ts) != {} {
      RollupTableAt(source, target, size, since, k);
      var rows := BucketRows(source, size, since, k.node, k.ts);
      if rows != {} {
        var row :| row in rows;
        assert row in BucketRows(source, size, 0, k.node, k.ts);
      }
    }
  }

  lemma MoreRowsStillBacked(target: Table, source: Table, more: Table, size: int)
    requires size > 0 && Backed(target, source, size) && source.Keys <= more.Keys
    ensures Backed(target, more, size)
  {
    forall k | k in target ensures BucketRows(more, size, 0, k.node, k.ts) != {} {
      var row :| row in BucketRows(source, size, 0, k.node, k.ts);
      assert row in BucketRows(more, size, 0, k.node, k.ts);
    }
  }

  /** Hourly rows go back to raw rows of their hour, by way of the 5-minute rows. */
  lemma HourlyBacked(raw: Table, five: Table, hourly: Table, since: int)
    requires Backed(five, raw, FIVE_MINUTES) && Backed(hourly, raw, HOUR)
    ensures Backed(RollupTable(five, hourly, HOUR, since), raw, HOUR)
  {
    hide RollupTable;
    var r := RollupTable(five, hourly, HOUR, since);
    forall k | k in r ensures BucketRows(raw, HOUR, 0, k.node, k.ts) != {} {
      RollupTableAt(five, hourly, HOUR, since, k);
      var rows := BucketRows(five, HOUR, since, k.node, k.ts);
      if rows != {} {
        var b :| b in rows;
        var row :| row in BucketRows(raw, FIVE_MINUTES, 0, b.node, b.ts);
        BucketsNest(row.ts);
        assert row in BucketRows(raw, HOUR, 0, k.node, k.ts);
      }
    }
  }

  lemma {:induction false} RunBacked(events: seq<Event>)
    ensures Backed(Run(events).fiveMinute, Run(events).raw, FIVE_MINUTES)
    ensures Backed(Run(events).hourly, Run(events).raw, HOUR)
    decreases |events|
  {
    hide RollupTable, Backed;
    if events == [] {
      NothingBacked();
    } else {
      var before, e := Run(events[..|events| - 1]), events[|events| - 1];
      RunBacked(events[..|events| - 1]);
      match e
      case Insert(key, value) =>
        MoreRowsStillBacked(before.fiveMinute, before.raw, before.raw[key := value], FIVE_MINUTES);
        MoreRowsStillBacked(before.hourly, before.raw, before.raw[key := value], HOUR);
      case Roll(now) =>
        RollupTableBacked(before.raw, before.fiveMinute, FIVE_MINUTES, now - RAW_WINDOW);
        HourlyBacked(before.raw, RolledUp(before, now).fiveMinute, before.hourly, now - FIVE_MINUTE_WINDOW);
    }
  }

  lemma NothingBacked()
    ensures Backed(map[], map[], FIVE_MINUTES) && Backed(map[], map[], HOUR)
  {}

  /** A 5-minute bucket lies within one hour. */
  lemma BucketsNest(ts: nat)
    ensures BucketOf(BucketOf(ts, FIVE_MINUTES), HOUR) == BucketOf(ts, HOUR)
    ensures BucketOf(ts, HOUR) <= BucketOf(ts, FIVE_MINUTES) <= ts < BucketOf(ts, FIVE_MINUTES) + FIVE_MINUTES
  {
    var h := ts / HOUR;
    var r := ts % HOUR;
    assert ts == h * HOUR + r;
    assert ts / FIVE_MINUTES == 12 * h + r / FIVE_MINUTES;
  }

  /** A 5-minute bucket whose rows are all recent enough holds the maximum of its raw rows. */
  lemma {:induction false} FiveMinuteExact(raw: Table, five: Table, since: int, k: Key)
    requires Backed(five, raw, FIVE_MINUTES) && k.ts >= since
    ensures var rows := BucketRows(raw, FIVE_MINUTES, 0, k.node, k.ts);
            var five1 := RollupTable(raw, five, FIVE_MINUTES, since);
            && (k in five1 <==> rows != {})
            && (rows != {} ==> five1[k] == MaxOver(raw, rows))
  {
    RollupTableAt(raw, five, FIVE_MINUTES, since, k);
    assert BucketRows(raw, FIVE_MINUTES, since, k.node, k.ts) == BucketRows(raw, FIVE_MINUTES, 0, k.node, k.ts) by {
      forall row | row in raw && BucketOf(row.ts, FIVE_MINUTES) == k.ts ensures row.ts >= since {
        BucketsNest(row.ts);
      }
    }
  }

  /** Every value of the second set of rows is reached by one of the first. */
  ghost predicate Reaches(s: Table, keysS: set<Key>, t: Table, keysT: set<Key>) {
    && keysS <= s.Keys && keysT <= t.Keys
    && forall k :: k in keysT ==> exists b :: b in keysS && s[b] >= t[k]
  }

  lemma {:induction false} ReachingMaximum(s: Table, keysS: set<Key>, t: Table, keysT: set<Key>)
    requires Reaches(s, keysS, t, keysT) && keysT != {}
    ensures keysS != {} && MaxOver(s, keysS) >= MaxOver(t, keysT)
  {
    var k :| k in keysT && t[k] == MaxOver(t, keysT);
    var b :| b in keysS && s[b] >= t[k];
  }

  lemma RowsReachedByBuckets(raw: Table, five: Table, node: string, h: nat, since: int, since2: int)
    requires Backed(five, raw, FIVE_MINUTES) && h >= since >= since2
    ensures var five1 := RollupTable(raw, five, FIVE_MINUTES, since);
            Reaches(five1, BucketRows(five1, HOUR, since2, node, h), raw, BucketRows(raw, HOUR, 0, node, h))
  {
    hide RollupTable, BucketOf, Backed;
    var five1 := RollupTable(raw, five, FIVE_MINUTES, since);
    var viaFive, direct := BucketRows(five1, HOUR, since2, node, h), BucketRows(raw, HOUR, 0, node, h);
    forall row | row in direct ensures exists b :: b in viaFive && five1[b] >= raw[row] {
      HourRowHasBucket(raw, five, node, h, since, since2, row);
    }
  }

  lemma BucketsReachedByRows(raw: Table, five: Table, node: string, h: nat, since: int, since2: int)
    requires Backed(five, raw, FIVE_MINUTES) && h >= since >= since2
    ensures var five1 := RollupTable(raw, five, FIVE_MINUTES, since);
            Reaches(raw, BucketRows(raw, HOUR, 0, node, h), five1, BucketRows(five1, HOUR, since2, node, h))
  {
    hide RollupTable, BucketOf, Backed;
    var five1 := RollupTable(raw, five, FIVE_MINUTES, since);
    var viaFive, direct := BucketRows(five1, HOUR, since2, node, h), BucketRows(raw, HOUR, 0, node, h);
    forall b | b in viaFive ensures exists row :: row in direct && raw[row] >= five1[b] {
      HourBucketHasRow(raw, five, node, h, since, since2, b);
    }
  }

  /** The greatest 5-minute value of an hour is the greatest raw value of that hour. */
  lemma {:induction false} HourThroughFiveMinutes(
    raw: Table, five: Table, node: string, h: nat, since: int, since2: int)
    requires Backed(five, raw, FIVE_MINUTES) && h >= since >= since2
    ensures var five1 := RollupTable(raw, five, FIVE_MINUTES, since);
            var viaFive, direct := BucketRows(five1, HOUR, since2, node, h), BucketRows(raw, HOUR, 0, node, h);
            && (viaFive != {} <==> direct != {})
            && (direct != {} ==> MaxOver(five1, viaFive) == MaxOver(raw, direct))
  {
    hide RollupTable, BucketOf, Backed, Reaches;
    RowsReachedByBuckets(raw, five, node, h, since, since2);
    BucketsReachedByRows(raw, five, node, h, since, since2);
    var five1 := RollupTable(raw, five, FIVE_MINUTES, since);
    var viaFive, direct := BucketRows(five1, HOUR, since2, node, h), BucketRows(raw, HOUR, 0, node, h);
    if direct != {} { ReachingMaximum(five1, viaFive, raw, direct); }
    if viaFive != {} { ReachingMaximum(raw, direct, five1, viaFive); }
  }

  lemma HourRowHasBucket(raw: Table, five: Table, node: string, h: nat, since: int, since2: int, row: Key)
    requires Backed(five, raw, FIVE_MINUTES) && h >= since >= since2
    requires row in BucketRows(raw, HOUR, 0, node, h)
    ensures var five1 := RollupTable(raw, five, FIVE_MINUTES, since);
            var b := Key(node, BucketOf(row.ts, FIVE_MINUTES));
            b in BucketRows(five1, HOUR, since2, node, h) && five1[b] >= raw[row]
  {
    hide RollupTable;
    var b := Key(node, BucketOf(row.ts, FIVE_MINUTES));
    BucketsNest(row.ts);
    FiveMinuteExact(raw, five, since, b);
    assert row in BucketRows(raw, FIVE_MINUTES, 0, node, b.ts);
  }

  lemma HourBucketHasRow(raw: Table, five: Table, node: string, h: nat, since: int, since2: int, b: Key)
    requires Backed(five, raw, FIVE_MINUTES) && h >= since >= since2
    requires b in BucketRows(RollupTable(raw, five, FIVE_MINUTES, since), HOUR, since2, node, h)
    ensures var five1 := RollupTable(raw, five, FIVE_MINUTES, since);
            exists row :: row in BucketRows(raw, HOUR, 0, node, h) && raw[row] == five1[b]
  {
    hide RollupTable;
    BucketsNest(b.ts);
    FiveMinuteExact(raw, five, since, b);
    var rows := BucketRows(raw, FIVE_MINUTES, 0, node, b.ts);
    var row :| row in rows && raw[row] == MaxOver(raw, rows);
    BucketsNest(row.ts);
    assert row in BucketRows(raw, HOUR, 0, node, h);
  }

  /**
   After any run of inserts and rollups that ends with a rollup, an hour that starts inside the raw
   window has an hourly row exactly if it has raw rows, and holds their maximum.
   */
  lemma {:induction false} HourlyRowIsRawMaximum(events: seq<Event>, now: int, node: string, h: nat)
    requires h >= now - RAW_WINDOW
    ensures var m := RolledUp(Run(events), now);
            var direct := BucketRows(m.raw, HOUR, 0, node, h);
            && (Key(node, h) in m.hourly <==> direct != {})
            && (direct != {} ==> m.hourly[Key(node, h)] == MaxOver(m.raw, direct))
  {
    hide RollupTable;
    var m := Run(events);
    RunBacked(events);
    HourThroughFiveMinutes(m.raw, m.fiveMinute, node, h, now - RAW_WINDOW, now - FIVE_MINUTE_WINDOW);
    var five := RollupTable(m.raw, m.fiveMinute, FIVE_MINUTES, now - RAW_WINDOW);
    RollupTableAt(five, m.hourly, HOUR, now - FIVE_MINUTE_WINDOW, Key(node, h));
  }

  // ----- rolling up again

  lemma RollupTableTwice(source: Table, target: Table, size: int, since: int)
    requires size > 0
    ensures var once := RollupTable(source, target, size, since);
            RollupTable(source, once, size, since) == once
  {
    hide RollupTable;
    var once := RollupTable(source, target, size, since);
    var twice := RollupTable(source, once, size, since);
    forall k ensures (k in twice <==> k in once) && (k in once ==> twice[k] == once[k]) {
      RollupTableAt(source, target, size, since, k);
      RollupTableAt(source, once, size, since, k);
    }
  }

  /** A second rollup at the same instant changes nothing. */
  lemma RollupIdempotent(m: Metrics, now: int)
    ensures RolledUp(RolledUp(m, now), now) == RolledUp(m, now)
  {
    hide RollupTable;
    RollupTableTwice(m.raw, m.fiveMinute, FIVE_MINUTES, now - RAW_WINDOW);
    RollupTableTwice(RolledUp(m, now).fiveMinute, m.hourly, HOUR, now - FIVE_MINUTE_WINDOW);
  }

  // ----- the bucket that the cutoff falls into

  /**
   The cutoff is not aligned, so the bucket it falls into is recomputed from its newer rows alone. A
   value that was the maximum of the whole bucket survives exactly if no newer row exists or some
   newer row attains it.
   */
  lemma {:induction false} CutBucketKeepsMaximumIff(raw: Table, target: Table, size: int, since: int, k: Key)
    requires size > 0 && k in target
    requires var all := BucketRows(raw, size, 0, k.node, k.ts); all != {} && target[k] == MaxOver(raw, all)
    ensures var newer := BucketRows(raw, size, since, k.node, k.ts);
            var rolled := RollupTable(raw, target, size, since);
            k in rolled &&
            (rolled[k] == target[k] <==> newer == {} || exists row :: row in newer && raw[row] == target[k])
  {
    hide RollupTable;
    RollupTableAt(raw, target, size, since, k);
    var all, newer := BucketRows(raw, size, 0, k.node, k.ts), BucketRows(raw, size, since, k.node, k.ts);
    assert newer <= all;
  }

  lemma {:induction false} RunAppend(events: seq<Event>, e: Event)
    ensures Run(events + [e]) == Apply(Run(events), e)
  {
    assert (events + [e])[..|events|] == events;
  }

  const PEAK: Key := Key("n", 0)
  const LATER: Key := Key("n", 200_000)

  /** The only bucket of the two rows, for a cutoff before both or between them. */
  lemma PeakBucket(target: Table, since: int)
    requires since <= 200_000 && target.Keys <= {PEAK}
    ensures RollupTable(map[PEAK := 9, LATER := 1], target, FIVE_MINUTES, since)
            == map[PEAK := if since <= 0 then 9 else 1]
  {
    hide RollupTable;
    var raw: Table := map[PEAK := 9, LATER := 1];
    var rolled := RollupTable(raw, target, FIVE_MINUTES, since);
    forall k ensures k in rolled <==> k == PEAK {
      RollupTableAt(raw, target, FIVE_MINUTES, since, k);
      assert BucketRows(raw, FIVE_MINUTES, since, k.node, k.ts)
          == if k != PEAK then {} else if since <= 0 then {PEAK, LATER} else {LATER};
    }
    RollupTableAt(raw, target, FIVE_MINUTES, since, PEAK);
    assert rolled[PEAK] == MaxOver(raw, if since <= 0 then {PEAK, LATER} else {LATER});
  }

  /**
   A run that loses a peak: two rows of one bucket are inserted and rolled up, and a rollup 48 hours
   later, with the cutoff between them, forgets the older peak although its raw row is still there.
   */
  lemma CutBucketLosesPeak()
    ensures var early := [Insert(PEAK, 9), Insert(LATER, 1), Roll(200_000)];
            var late := early + [Roll(RAW_WINDOW + 100_000)];
            && Run(early).fiveMinute == map[PEAK := 9] && Run(late).fiveMinute == map[PEAK := 1]
            && PEAK in Run(late).raw && Run(late).raw[PEAK] == 9
  {
    hide RollupTable;
    var early := [Insert(PEAK, 9), Insert(LATER, 1), Roll(200_000)];
    var rows := [Insert(PEAK, 9), Insert(LATER, 1)];
    assert Run([]) == Metrics(map[], map[], map[]);
    assert rows == [Insert(PEAK, 9)] + [Insert(LATER, 1)] && [Insert(PEAK, 9)] == [] + [Insert(PEAK, 9)];
    assert early == rows + [Roll(200_000)];
    RunAppend([], Insert(PEAK, 9));
    RunAppend([Insert(PEAK, 9)], Insert(LATER, 1));
    RunAppend(rows, Roll(200_000));
    RunAppend(early, Roll(RAW_WINDOW + 100_000));
    assert Run(rows).raw == map[PEAK := 9, LATER := 1];
    PeakBucket(map[], 200_000 - RAW_WINDOW);
    PeakBucket(map[PEAK := 9], 100_000);
  }

  // ----- buckets

  /**
   A bucket starts at or before its rows, less than its size before them, where the remainder of their
   time is cut off.
   */
  lemma BucketMeans(ts: nat, size: int)
    requires size > 0
    ensures BucketOf(ts, size) <= ts < BucketOf(ts, size) + size && BucketOf(ts, size) == ts - ts % size
  {
    assert ts == ts / size * size + ts % size;
  }

  /** Raw rows are looked at for 48 hours and 5-minute rows for 14 days, in milliseconds. */
  lemma WindowsInMilliseconds()
    ensures FIVE_MINUTES == 5 * 60 * 1000 && HOUR == 60 * 60 * 1000
    ensures RAW_WINDOW == 48 * 60 * 60 * 1000 && FIVE_MINUTE_WINDOW == 14 * 24 * 60 * 60 * 1000
  {}

}
