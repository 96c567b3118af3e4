/**
 The candle store of the chart (client/src/lib/use-market-candles.ts): a bounded,
 right-biased merge keyed by time, and the fold of price ticks into candles.

 Times are milliseconds and stand for the ISO strings of the source.  Prices and volumes are
 reals, which are only compared and copied.  A candle with an unreadable time or a
 non-finite field is dropped like an invalid one and is not represented.
 */
module Candles {
  import opened Common

  /** The moments a JavaScript date can hold. */
  type Time = t: int | -8_640_000_000_000_000 <= t <= 8_640_000_000_000_000

  datatype Candle = Candle(time: Time, open: real, high: real, low: real, close: real, volume: real)

  /** The candles `normalizeCandle` lets through. */
  predicate Valid(c: Candle) {
    && c.open > 0.0 && c.close > 0.0 && c.high > 0.0 && c.low > 0.0 && c.volume >= 0.0
    && c.low <= c.open <= c.high && c.low <= c.close <= c.high
  }

  type Chart = map<Time, Candle>

  /** Every candle is stored under its own time and valid. */
  ghost predicate ChartOk(m: Chart) {
    forall t | t in m :: m[t].time == t && Valid(m[t])
  }

  function Put(m: Chart, c: Candle): Chart {
    if Valid(c) then m[c.time := c] else m
  }

  function PutAll(m: Chart, cs: seq<Candle>, n: nat): (next: Chart)
    requires n <= |cs|
    ensures ChartOk(m) ==> ChartOk(next)
  {
    if n == 0 then m else Put(PutAll(m, cs, n - 1), cs[n - 1])
  }

  lemma {:induction false} HasMaximum(keys: set<Time>) returns (latest: Time)
    requires keys != {}
    ensures latest in keys && forall u | u in keys :: u <= latest
  {
    latest :| latest in keys;
    var rest := keys - {latest};
    if rest != {} {
      var other := HasMaximum(rest);
      assert forall u | u in keys :: u == latest || u in rest;
      if other > latest { latest := other; }
    } else {
      assert forall u | u in keys :: u == latest || u in rest;
    }
  }

  /** The latest time of a chart. */
  function Latest(m: Chart): (t: Time)
    requires m.Keys != {}
    ensures t in m && forall u | u in m :: u <= t
  {
    assert exists t :: t in m && forall u | u in m :: u <= t by { var latest := HasMaximum(m.Keys); }
    var t :| t in m && forall u | u in m :: u <= t;
    t
  }

  lemma LatestIs(m: Chart, t: Time)
    requires t in m && forall u | u in m :: u <= t
    ensures Latest(m) == t
  {
  }

  /** The candles of a chart in order of time. */
  function Listing(m: Chart): (s: seq<Candle>)
    decreases m.Keys
  {
    if m.Keys == {} then [] else var t := Latest(m); Listing(m - {t}) + [m[t]]
  }

  ghost predicate Increasing(s: seq<Candle>) {
    forall i, j | 0 <= i < j < |s| :: s[i].time < s[j].time
  }

  ghost predicate AllValid(s: seq<Candle>) {
    forall i | 0 <= i < |s| :: Valid(s[i])
  }

  /** JavaScript's `slice(-limit)`: the last `limit` candles, or all of them when the limit is 0. */
  function LastOf(s: seq<Candle>, limit: nat): seq<Candle> {
    if limit == 0 || |s| <= limit then s else s[|s| - limit..]
  }

  /** `mergeCandles`. */
  function Merge(base: seq<Candle>, updates: seq<Candle>, limit: nat): seq<Candle> {
    LastOf(Listing(PutAll(PutAll(map[], base, |base|), updates, |updates|)), limit)
  }

  // ----- A listing says all about its chart -----

  lemma {:induction false} ListingOrdered(m: Chart)
    requires ChartOk(m)
    ensures |Listing(m)| == |m.Keys| && Increasing(Listing(m)) && AllValid(Listing(m))
    ensures forall i | 0 <= i < |Listing(m)| :: Listing(m)[i].time in m && m[Listing(m)[i].time] == Listing(m)[i]
    decreases m.Keys
  {
    if m.Keys != {} {
      var t := Latest(m);
      ListingOrdered(m - {t});
      assert (m - {t}).Keys == m.Keys - {t};
    }
  }

  lemma {:induction false} ListingHasAll(m: Chart, t: Time)
    requires ChartOk(m) && t in m
    ensures m[t] in Listing(m)
    decreases m.Keys
  {
    var latest := Latest(m);
    if t != latest {
      ListingHasAll(m - {latest}, t);
      assert m[t] == (m - {latest})[t];
    }
  }

  /** Putting an increasing list of valid candles into an empty chart and listing it gives the list back. */
  lemma {:induction false} ListingOfList(s: seq<Candle>, n: nat)
    requires n <= |s| && Increasing(s) && AllValid(s)
    ensures ChartOk(PutAll(map[], s, n)) && Listing(PutAll(map[], s, n)) == s[..n]
    ensures forall t | t in PutAll(map[], s, n) :: exists i :: 0 <= i < n && s[i].time == t
  {
    if n > 0 {
      ListingOfList(s, n - 1);
      var before, m := PutAll(map[], s, n - 1), PutAll(map[], s, n);
      var c := s[n - 1];
      assert c.time !in before;
      LatestIs(m, c.time);
      assert m - {c.time} == before;
      assert s[..n] == s[..n - 1] + [c];
    }
  }

  /** The chart of an increasing list of valid candles. */
  function ChartOf(s: seq<Candle>): Chart {
    PutAll(map[], s, |s|)
  }

  lemma ListingOfChart(s: seq<Candle>)
    requires Increasing(s) && AllValid(s)
    ensures ChartOk(ChartOf(s)) && Listing(ChartOf(s)) == s
  {
    ListingOfList(s, |s|);
    assert s[..|s|] == s;
  }

  /** Two charts with the same listing are the same chart. */
  lemma {:induction false} SameListing(a: Chart, b: Chart)
    requires ChartOk(a) && ChartOk(b) && Listing(a) == Listing(b)
    ensures a == b
    decreases a.Keys
  {
    ListingOrdered(a);
    ListingOrdered(b);
    if a.Keys == {} {
      assert b.Keys == {};
    } else {
      var t := Latest(a);
      assert Listing(a)[|Listing(a)| - 1] == a[t];
      assert Listing(b)[|Listing(b)| - 1] == b[Latest(b)];
      assert Listing(a - {t}) == Listing(a)[..|Listing(a)| - 1] == Listing(b - {t});
      SameListing(a - {t}, b - {t});
      assert a == (a - {t})[t := a[t]] && b == (b - {t})[t := b[t]];
    }
  }

  lemma ChartOfListing(m: Chart)
    requires ChartOk(m)
    ensures ChartOf(Listing(m)) == m
  {
    ListingOrdered(m);
    ListingOfChart(Listing(m));
    SameListing(ChartOf(Listing(m)), m);
  }

  // ----- Keeping the newest -----

  /** The newest n candles of a chart. */
  function Newest(m: Chart, n: nat): Chart
    decreases n
  {
    if n == 0 || m.Keys == {} then map[]
    else var t := Latest(m); Newest(m - {t}, n - 1)[t := m[t]]
  }

  lemma {:induction false} NewestIsPart(m: Chart, n: nat)
    ensures forall t | t in Newest(m, n) :: t in m && Newest(m, n)[t] == m[t]
    ensures n > 0 && m.Keys != {} ==> Latest(m) in Newest(m, n)
    decreases n
  {
    if n > 0 && m.Keys != {} { NewestIsPart(m - {Latest(m)}, n - 1); }
  }

  lemma NewestOk(m: Chart, n: nat)
    requires ChartOk(m)
    ensures ChartOk(Newest(m, n))
  {
    NewestIsPart(m, n);
  }

  lemma {:induction false} LastIsNewest(m: Chart, n: nat)
    requires ChartOk(m) && n > 0
    ensures LastOf(Listing(m), n) == Listing(Newest(m, n))
    decreases n
  {
    ListingOrdered(m);
    if m.Keys != {} {
      var t := Latest(m);
      var rest := m - {t};
      NewestIsPart(m, n);
      NewestIsPart(rest, n - 1);
      LatestIs(Newest(m, n), t);
      assert Newest(m, n) - {t} == Newest(rest, n - 1);
      if n > 1 {
        LastIsNewest(rest, n - 1);
      }
    }
  }

  /** The chart a limit leaves. */
  function Kept(m: Chart, limit: nat): Chart {
    if limit == 0 then m else Newest(m, limit)
  }

  lemma LastIsKept(m: Chart, limit: nat)
    requires ChartOk(m)
    ensures ChartOk(Kept(m, limit)) && LastOf(Listing(m), limit) == Listing(Kept(m, limit))
  {
    if limit > 0 { LastIsNewest(m, limit); NewestOk(m, limit); }
  }

  // ----- Merging and truncating -----

  lemma NewestStep(m: Chart, t: Time, n: nat)
    requires n > 0 && t in m && forall u | u in m :: u <= t
    ensures Newest(m, n) == Newest(m - {t}, n - 1)[t := m[t]]
  {
    LatestIs(m, t);
  }

  /** The latest time of a union, taken out of one side that was cut down and out of the other. */
  lemma DropLatest(a: Chart, m: nat, t: Time)
    requires m > 0 && t in a && forall u | u in a :: u <= t
    ensures t in Newest(a, m) && Newest(a, m)[t] == a[t] && Newest(a, m) - {t} == Newest(a - {t}, m - 1)
  {
    LatestIs(a, t);
    NewestIsPart(a - {t}, m - 1);
  }

  lemma UnionWithout(a: Chart, b: Chart, t: Time)
    ensures (a + b) - {t} == (a - {t}) + (b - {t})
  {
  }

  lemma WithoutAbsent(a: Chart, t: Time)
    requires t !in a
    ensures a - {t} == a
  {
  }

  predicate UpTo(m: Chart, t: Time) {
    forall u | u in m :: u <= t
  }

  lemma UnionStep(x: Chart, y: Chart, t: Time, n: nat)
    requires n > 0 && (t in x || t in y) && UpTo(x, t) && UpTo(y, t)
    ensures Newest(x + y, n) == Newest((x - {t}) + (y - {t}), n - 1)[t := (x + y)[t]]
  {
    UnionWithout(x, y, t);
    NewestStep(x + y, t, n);
  }

  /** Two unions agree on their newest if they agree on the latest and on the newest of the rest. */
  lemma SameNewest(x: Chart, y: Chart, v: Chart, w: Chart, t: Time, n: nat)
    requires n > 0 && UpTo(x, t) && UpTo(y, t) && UpTo(v, t) && UpTo(w, t)
    requires (t in x || t in y) && (t in v || t in w) && (x + y)[t] == (v + w)[t]
    requires Newest((x - {t}) + (y - {t}), n - 1) == Newest((v - {t}) + (w - {t}), n - 1)
    ensures Newest(x + y, n) == Newest(v + w, n)
  {
    UnionStep(x, y, t, n);
    UnionStep(v, w, t, n);
  }

  /** Cutting a down and taking its latest time out commute. */
  lemma NewestWithout(a: Chart, m: nat, n: nat, t: Time) returns (k: nat)
    requires 0 < n <= m && forall u | u in a :: u <= t
    ensures n - 1 <= k && Newest(a, m) - {t} == Newest(a - {t}, k)
    ensures (t in Newest(a, m) <==> t in a) && (t in a ==> Newest(a, m)[t] == a[t])
    ensures forall u | u in Newest(a, m) :: u <= t
  {
    NewestIsPart(a, m);
    if t in a {
      DropLatest(a, m, t);
      k := m - 1;
    } else {
      WithoutAbsent(a, t);
      WithoutAbsent(Newest(a, m), t);
      k := m;
    }
  }

  lemma EmptyUnion(a: Chart, c: Chart, m: nat, n: nat)
    requires (a + c).Keys == {}
    ensures Newest(a, m) + c == map[] == a + c && a + Newest(c, m) == map[]
  {
    assert a.Keys <= (a + c).Keys && c.Keys <= (a + c).Keys;
    NewestIsPart(a, m);
    NewestIsPart(c, m);
  }

  /** Taking the newest of a before merging c in changes nothing among the newest of both. */
  lemma {:induction false} AbsorbLeft(a: Chart, c: Chart, m: nat, n: nat)
    requires n <= m
    ensures Newest(Newest(a, m) + c, n) == Newest(a + c, n)
    decreases n
  {
    if n > 0 {
      if (a + c).Keys == {} {
        EmptyUnion(a, c, m, n);
      } else {
        var t := Latest(a + c);
        var k := NewestWithout(a, m, n, t);
        AbsorbLeft(a - {t}, c - {t}, k, n - 1);
        SameNewest(Newest(a, m), c, a, c, t, n);
      }
    }
  }

  /** And the same for what is merged in. */
  lemma {:induction false} AbsorbRight(a: Chart, b: Chart, m: nat, n: nat)
    requires n <= m
    ensures Newest(a + Newest(b, m), n) == Newest(a + b, n)
    decreases n
  {
    if n > 0 {
      if (a + b).Keys == {} {
        EmptyUnion(a, b, m, n);
      } else {
        var t := Latest(a + b);
        var k := NewestWithout(b, m, n, t);
        AbsorbRight(a - {t}, b - {t}, k, n - 1);
        SameNewest(a, Newest(b, m), a, b, t, n);
      }
    }
  }

  lemma {:induction false} PutAllIsUnion(m: Chart, cs: seq<Candle>, n: nat)
    requires n <= |cs|
    ensures PutAll(m, cs, n) == m + PutAll(map[], cs, n)
  {
    if n > 0 { PutAllIsUnion(m, cs, n - 1); }
  }

  /** A merge is the newest part of the right-biased union of the two charts. */
  lemma MergeIsUnion(base: seq<Candle>, updates: seq<Candle>, limit: nat)
    ensures ChartOk(ChartOf(base)) && ChartOk(ChartOf(updates)) && ChartOk(Kept(ChartOf(base) + ChartOf(updates), limit))
    ensures Merge(base, updates, limit) == Listing(Kept(ChartOf(base) + ChartOf(updates), limit))
    ensures ChartOf(Merge(base, updates, limit)) == Kept(ChartOf(base) + ChartOf(updates), limit)
  {
    PutAllIsUnion(ChartOf(base), updates, |updates|);
    LastIsKept(ChartOf(base) + ChartOf(updates), limit);
    ChartOfListing(Kept(ChartOf(base) + ChartOf(updates), limit));
  }

  /** Every merge is strictly increasing in time, valid, and no longer than its limit. */
  lemma MergeOrdered(base: seq<Candle>, updates: seq<Candle>, limit: nat)
    ensures Increasing(Merge(base, updates, limit)) && AllValid(Merge(base, updates, limit))
    ensures limit > 0 ==> |Merge(base, updates, limit)| <= limit
  {
    MergeIsUnion(base, updates, limit);
    ListingOrdered(Kept(ChartOf(base) + ChartOf(updates), limit));
  }

  lemma KeptAssociative(x: Chart, y: Chart, z: Chart, limit: nat)
    ensures Kept(Kept(x + y, limit) + z, limit) == Kept(x + Kept(y + z, limit), limit)
  {
    assert (x + y) + z == x + (y + z);
    if limit > 0 {
      AbsorbLeft(x + y, z, limit, limit);
      AbsorbRight(x, y + z, limit, limit);
    }
  }

  /** Merging is associative although every step cuts down to the newest candles. */
  lemma MergeAssociative(a: seq<Candle>, b: seq<Candle>, c: seq<Candle>, limit: nat)
    ensures Merge(Merge(a, b, limit), c, limit) == Merge(a, Merge(b, c, limit), limit)
  {
    MergeIsUnion(a, b, limit);
    MergeIsUnion(Merge(a, b, limit), c, limit);
    MergeIsUnion(b, c, limit);
    MergeIsUnion(a, Merge(b, c, limit), limit);
    KeptAssociative(ChartOf(a), ChartOf(b), ChartOf(c), limit);
  }

  /** A merged list is a fixed point of merging. */
  lemma MergeFixpoint(base: seq<Candle>, updates: seq<Candle>, limit: nat)
    ensures Merge([], Merge(base, updates, limit), limit) == Merge(base, updates, limit)
  {
    var s := Merge(base, updates, limit);
    MergeOrdered(base, updates, limit);
    ListingOfChart(s);
    assert ChartOf([]) + ChartOf(s) == ChartOf(s);
    MergeIsUnion([], s, limit);
    LastIsKept(ChartOf(s), limit);
  }
}
