/** The single-pass metrics of the L6 validation, each against its definition. */
module ValidationMetrics {
  import opened Terms

  // ---------- Drawdown ----------

  /** Cumulative profit after the first `i` events. */
  function PrefixSum(pnl: seq<real>, i: nat): real
    requires i <= |pnl|
  {
    if i == 0 then 0.0 else PrefixSum(pnl, i - 1) + pnl[i - 1]
  }

  /** How far the cumulative profit falls from one point to a later one. */
  function Fall(pnl: seq<real>, i: nat, j: nat): real
    requires i <= j <= |pnl|
  {
    PrefixSum(pnl, i) - PrefixSum(pnl, j)
  }

  ghost predicate IsPeak(pnl: seq<real>, k: nat, top: nat, peak: real) {
    top <= k <= |pnl| && peak == PrefixSum(pnl, top) && forall i | 0 <= i <= k :: PrefixSum(pnl, i) <= peak
  }

  ghost predicate IsLargestFall(pnl: seq<real>, k: nat, from: nat, to: nat, fall: real) {
    && from <= to <= k <= |pnl| && fall == Fall(pnl, from, to)
    && forall i, j | 0 <= i <= j <= k :: Fall(pnl, i, j) <= fall
  }

  lemma NextLargestFall(pnl: seq<real>, k: nat, from: nat, to: nat, fall: real, top: nat, peak: real)
    requires k < |pnl| && IsLargestFall(pnl, k, from, to, fall) && IsPeak(pnl, k + 1, top, peak)
    ensures
      var now := Fall(pnl, top, k + 1);
      if now > fall then IsLargestFall(pnl, k + 1, top, k + 1, now) else IsLargestFall(pnl, k + 1, from, to, fall)
  {
    forall i, j | 0 <= i <= j <= k + 1 ensures Fall(pnl, i, j) <= fall || Fall(pnl, i, j) <= Fall(pnl, top, k + 1) {
      assert j == k + 1 ==> PrefixSum(pnl, i) <= peak;
    }
  }

  /** The largest fall from an earlier to a later cumulative profit, starting from nothing. */
  method MaxDrawdown(pnl: seq<real>) returns (drawdown: real)
    ensures forall i, j | 0 <= i <= j <= |pnl| :: Fall(pnl, i, j) <= drawdown
    ensures exists i, j :: 0 <= i <= j <= |pnl| && drawdown == Fall(pnl, i, j)
  {
    var cumulative, peak := 0.0, 0.0;
    drawdown := 0.0;
    ghost var top, from, to := 0, 0, 0;
    for k := 0 to |pnl|
      invariant cumulative == PrefixSum(pnl, k)
      invariant IsPeak(pnl, k, top, peak)
      invariant IsLargestFall(pnl, k, from, to, drawdown)
    {
      cumulative := cumulative + pnl[k];
      if cumulative > peak {
        peak, top := cumulative, k + 1;
      }
      NextLargestFall(pnl, k, from, to, drawdown, top, peak);
      if peak - cumulative > drawdown {
        drawdown, from, to := peak - cumulative, top, k + 1;
      }
    }
  }

  // ---------- Bursts ----------

  predicate InOrder(s: seq<int>) {
    forall i, j | 0 <= i < j < |s| :: s[i] <= s[j]
  }

  function InsertTime(s: seq<int>, t: int): seq<int> {
    if s == [] || t <= s[0] then [t] + s else [s[0]] + InsertTime(s[1..], t)
  }

  /** The positive timestamps in order. */
  function Ordered(timestamps: seq<int>): seq<int> {
    if timestamps == [] then []
    else if timestamps[0] > 0 then InsertTime(Ordered(timestamps[1..]), timestamps[0])
    else Ordered(timestamps[1..])
  }

  /** How many positive timestamps lie in the closed interval. */
  function CountBetween(timestamps: seq<int>, low: int, high: int): nat {
    if timestamps == [] then 0
    else (if timestamps[0] > 0 && low <= timestamps[0] <= high then 1 else 0) + CountBetween(timestamps[1..], low, high)
  }

  lemma {:induction false} InsertTimeCounts(s: seq<int>, t: int, low: int, high: int)
    ensures CountBetween(InsertTime(s, t), low, high)
            == CountBetween(s, low, high) + if t > 0 && low <= t <= high then 1 else 0
    ensures InOrder(s) ==> InOrder(InsertTime(s, t))
    ensures forall x :: x in InsertTime(s, t) <==> x == t || x in s
  {
    if s != [] && t > s[0] {
      assert s == [s[0]] + s[1..];
      InsertTimeCounts(s[1..], t, low, high);
    }
  }

  lemma {:induction false} OrderedCounts(timestamps: seq<int>, low: int, high: int)
    ensures CountBetween(Ordered(timestamps), low, high) == CountBetween(timestamps, low, high)
    ensures InOrder(Ordered(timestamps)) && forall x | x in Ordered(timestamps) :: x > 0
  {
    if timestamps != [] {
      OrderedCounts(timestamps[1..], low, high);
      if timestamps[0] > 0 {
        InsertTimeCounts(Ordered(timestamps[1..]), timestamps[0], low, high);
      }
    }
  }

  lemma {:induction false} CountSplits(a: seq<int>, b: seq<int>, low: int, high: int)
    ensures CountBetween(a + b, low, high) == CountBetween(a, low, high) + CountBetween(b, low, high)
  {
    if a == [] {
      assert a + b == b;
    } else {
      assert (a + b)[1..] == a[1..] + b;
      CountSplits(a[1..], b, low, high);
    }
  }

  lemma {:induction false} CountAtMostAll(s: seq<int>, low: int, high: int)
    ensures CountBetween(s, low, high) <= |s|
  {
    if s != [] {
      CountAtMostAll(s[1..], low, high);
    }
  }

  lemma {:induction false} CountAll(s: seq<int>, low: int, high: int)
    requires forall i | 0 <= i < |s| :: s[i] > 0 && low <= s[i] <= high
    ensures CountBetween(s, low, high) == |s|
  {
    if s != [] {
      CountAll(s[1..], low, high);
    }
  }

  lemma {:induction false} CountNone(s: seq<int>, low: int, high: int)
    requires forall i | 0 <= i < |s| :: s[i] < low || high < s[i]
    ensures CountBetween(s, low, high) == 0
  {
    if s != [] {
      CountNone(s[1..], low, high);
    }
  }

  lemma CountSlice(s: seq<int>, a: nat, b: nat, low: int, high: int)
    requires a <= b <= |s|
    ensures CountBetween(s, low, high)
            == CountBetween(s[..a], low, high) + CountBetween(s[a..b], low, high) + CountBetween(s[b..], low, high)
  {
    assert s == s[..a] + s[a..b] + s[b..];
    CountSplits(s[..a] + s[a..b], s[b..], low, high);
    CountSplits(s[..a], s[a..b], low, high);
  }

  function CountFrom(timestamps: seq<int>, low: int, window: nat): nat {
    CountBetween(timestamps, low, low + window)
  }

  /** Two positions of the list no more than a window apart. */
  predicate Near(s: seq<int>, a: int, b: int, window: nat) {
    0 <= a <= b < |s| && s[b] - s[a] <= window
  }

  /** Where the values of an interval start and end in an ordered list. */
  lemma {:induction false} Boundaries(s: seq<int>, low: int, high: int) returns (a: nat, b: nat)
    requires InOrder(s) && low <= high
    ensures a <= b <= |s|
    ensures forall i | 0 <= i < a :: s[i] < low
    ensures forall i | a <= i < b :: low <= s[i] <= high
    ensures forall i | b <= i < |s| :: high < s[i]
  {
    a, b := 0, 0;
    if s != [] {
      a, b := Boundaries(s[1..], low, high);
      a, b := if low <= s[0] then 0 else a + 1, if high < s[0] then 0 else b + 1;
    }
  }

  /** No closed interval of the window's length holds more than a bound on near positions. */
  lemma CountIsBounded(s: seq<int>, window: nat, bound: nat, low: int)
    requires InOrder(s)
    requires forall a, b | Near(s, a, b, window) :: b - a + 1 <= bound
    ensures CountFrom(s, low, window) <= bound
  {
    var a, b := Boundaries(s, low, low + window);
    CountSlice(s, a, b, low, low + window);
    CountNone(s[..a], low, low + window);
    CountAtMostAll(s[a..b], low, low + window);
    CountNone(s[b..], low, low + window);
    assert a < b ==> Near(s, a, b - 1, window);
  }

  /** The slice between two positions a window apart is counted in full. */
  lemma SliceIsCounted(s: seq<int>, window: nat, a: nat, b: nat)
    requires InOrder(s) && a <= b < |s| && s[b] - s[a] <= window && forall x | x in s :: x > 0
    ensures CountFrom(s, s[a], window) >= b - a + 1
  {
    var slice := s[a..b + 1];
    CountSlice(s, a, b + 1, s[a], s[a] + window);
    forall i | 0 <= i < |slice| ensures slice[i] > 0 && s[a] <= slice[i] <= s[a] + window {
      assert s[a + i] in s;
    }
    CountAll(slice, s[a], s[a] + window);
  }

  /** The longest stretch of positions no more than a window apart, by two pointers. */
  method LongestBurst(ordered: seq<int>, window: nat) returns (maximum: nat, ghost best: nat)
    requires InOrder(ordered)
    ensures forall a, b | Near(ordered, a, b, window) :: b - a + 1 <= maximum
    ensures maximum > 0 ==> best + maximum <= |ordered| && ordered[best + maximum - 1] - ordered[best] <= window
  {
    var left := 0;
    maximum, best := 0, 0;
    for right := 0 to |ordered|
      invariant left <= right
      invariant right > 0 ==> forall a | 0 <= a < left :: ordered[right - 1] - ordered[a] > window
      invariant right == 0 ==> left == 0
      invariant forall a, b | Near(ordered, a, b, window) && b < right :: b - a + 1 <= maximum
      invariant maximum > 0 ==> best + maximum <= right && ordered[best + maximum - 1] - ordered[best] <= window
    {
      var timestamp := ordered[right];
      while timestamp - ordered[left] > window
        invariant left <= right
        invariant forall a | 0 <= a < left :: timestamp - ordered[a] > window
        decreases right - left
      {
        left := left + 1;
      }
      if right - left + 1 > maximum {
        maximum, best := right - left + 1, left;
      }
    }
  }

  /** The most positive timestamps in any closed interval of the window's length. */
  method MaxEventsInWindow(timestamps: seq<int>, window: nat) returns (maximum: nat)
    ensures forall low :: CountFrom(timestamps, low, window) <= maximum
    ensures exists low :: CountFrom(timestamps, low, window) == maximum
  {
    var ordered := Ordered(timestamps);
    OrderedCounts(timestamps, 0, 0);
    ghost var best;
    maximum, best := LongestBurst(ordered, window);
    forall low ensures CountFrom(timestamps, low, window) <= maximum {
      CountIsBounded(ordered, window, maximum, low);
      OrderedCounts(timestamps, low, low + window);
    }
    ghost var low := if maximum > 0 then ordered[best] else 0;
    if maximum > 0 {
      SliceIsCounted(ordered, window, best, best + maximum - 1);
      OrderedCounts(timestamps, low, low + window);
    }
    assert CountFrom(timestamps, low, window) == maximum;
  }

  // ---------- Weekly, market and day totals ----------

  const WEEK_SECONDS := 7 * 86400
  const DAY_SECONDS := 86400

  datatype Event = Event(timestamp: int, pnl: real, market: string)

  function MarketKey(e: Event): string {
    if e.market == "" then "unknown" else e.market
  }

  predicate NoRepeats<K(==)>(keys: seq<K>) {
    keys == [] || (keys[|keys| - 1] !in SetOf(keys[..|keys| - 1]) && NoRepeats(keys[..|keys| - 1]))
  }

  /** `keys` lists a dictionary's keys once each, in the order of insertion. */
  predicate Lists<K(==)>(keys: seq<K>, m: map<K, real>) {
    SetOf(keys) == m.Keys && NoRepeats(keys)
  }

  function Sum<K>(keys: seq<K>, m: map<K, real>): real
    requires SetOf(keys) <= m.Keys
  {
    if keys == [] then 0.0 else Sum(keys[..|keys| - 1], m) + m[keys[|keys| - 1]]
  }

  function At<K>(m: map<K, real>, k: K): real {
    if k in m then m[k] else 0.0
  }

  function Bumped<K>(m: map<K, real>, k: K, x: real): map<K, real> {
    m[k := At(m, k) + x]
  }

  function BumpedKeys<K>(keys: seq<K>, m: map<K, real>, k: K): seq<K> {
    if k in m then keys else keys + [k]
  }

  lemma {:induction false} SumElsewhere<K>(keys: seq<K>, m: map<K, real>, k: K, y: real)
    requires SetOf(keys) <= m.Keys && k !in SetOf(keys)
    ensures Sum(keys, m[k := y]) == Sum(keys, m)
  {
    if keys != [] {
      SumElsewhere(keys[..|keys| - 1], m, k, y);
    }
  }

  lemma {:induction false} SumOfOneMore<K>(keys: seq<K>, m: map<K, real>, k: K, x: real)
    requires NoRepeats(keys) && SetOf(keys) <= m.Keys && k in SetOf(keys)
    ensures Sum(keys, Bumped(m, k, x)) == Sum(keys, m) + x
  {
    var init, last := keys[..|keys| - 1], keys[|keys| - 1];
    if last == k {
      SumElsewhere(init, m, k, At(m, k) + x);
    } else {
      SumOfOneMore(init, m, k, x);
    }
  }

  /** The entries of the dictionary sum to `total`. */
  predicate SumsTo<K(==)>(keys: seq<K>, m: map<K, real>, total: real) {
    Lists(keys, m) && Sum(keys, m) == total
  }

  /** Adding to one entry adds to the sum. */
  lemma BumpingAdds<K>(keys: seq<K>, m: map<K, real>, k: K, x: real, total: real)
    requires SumsTo(keys, m, total)
    ensures SumsTo(BumpedKeys(keys, m, k), Bumped(m, k, x), total + x)
  {
    if k in m {
      SumOfOneMore(keys, m, k, x);
      assert Bumped(m, k, x).Keys == m.Keys;
    } else {
      SumElsewhere(keys, m, k, x);
      assert (keys + [k])[..|keys|] == keys;
      assert Bumped(m, k, x).Keys == m.Keys + {k};
    }
  }

  function Realized(events: seq<Event>): real {
    if events == [] then 0.0 else Realized(events[..|events| - 1]) + events[|events| - 1].pnl
  }

  function Gain(e: Event): real {
    MaxR(0.0, e.pnl)
  }

  function TotalGain(events: seq<Event>): real {
    if events == [] then 0.0 else TotalGain(events[..|events| - 1]) + Gain(events[|events| - 1])
  }

  function WeekTotal(events: seq<Event>, week: int): real {
    if events == [] then 0.0
    else
      var e := events[|events| - 1];
      WeekTotal(events[..|events| - 1], week) + if e.timestamp / WEEK_SECONDS == week then e.pnl else 0.0
  }

  function DayGain(events: seq<Event>, day: int): real {
    if events == [] then 0.0
    else
      var e := events[|events| - 1];
      DayGain(events[..|events| - 1], day) + if e.timestamp / DAY_SECONDS == day then Gain(e) else 0.0
  }

  function MarketGain(events: seq<Event>, market: string): real {
    if events == [] then 0.0
    else
      var e := events[|events| - 1];
      MarketGain(events[..|events| - 1], market) + if MarketKey(e) == market then Gain(e) else 0.0
  }

  datatype Totals = Totals(weekly: map<int, real>, market: map<string, real>, day: map<int, real>, positive: real)

  ghost predicate AllPositive<K(!new)>(m: map<K, real>) {
    forall k | k in m :: m[k] > 0.0
  }

  /** Every dictionary entry is the total of its week, market or day. */
  ghost predicate AreTotals(t: Totals, events: seq<Event>) {
    && (forall w :: At(t.weekly, w) == WeekTotal(events, w))
    && (forall m :: At(t.market, m) == MarketGain(events, m))
    && (forall d :: At(t.day, d) == DayGain(events, d))
    && t.positive == TotalGain(events)
    && AllPositive(t.market) && AllPositive(t.day)
  }

  datatype Keys = Keys(weeks: seq<int>, markets: seq<string>, days: seq<int>)

  /** Nothing is lost or counted twice. */
  ghost predicate Conserved(t: Totals, keys: Keys, events: seq<Event>) {
    && SumsTo(keys.weeks, t.weekly, Realized(events))
    && SumsTo(keys.markets, t.market, t.positive)
    && SumsTo(keys.days, t.day, t.positive)
  }

  function WithEvent(t: Totals, e: Event): Totals {
    Totals(
      Bumped(t.weekly, e.timestamp / WEEK_SECONDS, e.pnl),
      if e.pnl > 0.0 then Bumped(t.market, MarketKey(e), e.pnl) else t.market,
      if e.pnl > 0.0 then Bumped(t.day, e.timestamp / DAY_SECONDS, e.pnl) else t.day,
      if e.pnl > 0.0 then t.positive + e.pnl else t.positive)
  }

  function KeysWith(keys: Keys, t: Totals, e: Event): Keys {
    Keys(
      BumpedKeys(keys.weeks, t.weekly, e.timestamp / WEEK_SECONDS),
      if e.pnl > 0.0 then BumpedKeys(keys.markets, t.market, MarketKey(e)) else keys.markets,
      if e.pnl > 0.0 then BumpedKeys(keys.days, t.day, e.timestamp / DAY_SECONDS) else keys.days)
  }

  lemma OneMoreTotal(t: Totals, events: seq<Event>, e: Event)
    requires AreTotals(t, events)
    ensures AreTotals(WithEvent(t, e), events + [e])
  {
    assert (events + [e])[..|events|] == events;
  }

  lemma OneMoreRealized(events: seq<Event>, e: Event)
    ensures Realized(events + [e]) == Realized(events) + e.pnl
  {
    assert (events + [e])[..|events|] == events;
  }

  lemma OneMoreConserved(t: Totals, keys: Keys, events: seq<Event>, e: Event)
    requires Conserved(t, keys, events)
    ensures Conserved(WithEvent(t, e), KeysWith(keys, t, e), events + [e])
  {
    OneMoreRealized(events, e);
    BumpingAdds(keys.weeks, t.weekly, e.timestamp / WEEK_SECONDS, e.pnl, Realized(events));
    MarketGainAdds(t, keys, e);
    DayGainAdds(t, keys, e);
  }

  lemma MarketGainAdds(t: Totals, keys: Keys, e: Event)
    requires SumsTo(keys.markets, t.market, t.positive)
    ensures SumsTo(KeysWith(keys, t, e).markets, WithEvent(t, e).market, WithEvent(t, e).positive)
  {
    if e.pnl > 0.0 {
      BumpingAdds(keys.markets, t.market, MarketKey(e), e.pnl, t.positive);
    }
  }

  lemma DayGainAdds(t: Totals, keys: Keys, e: Event)
    requires SumsTo(keys.days, t.day, t.positive)
    ensures SumsTo(KeysWith(keys, t, e).days, WithEvent(t, e).day, WithEvent(t, e).positive)
  {
    if e.pnl > 0.0 {
      BumpingAdds(keys.days, t.day, e.timestamp / DAY_SECONDS, e.pnl, t.positive);
    }
  }

  function TotalsOf(events: seq<Event>): Totals {
    if events == [] then Totals(map[], map[], map[], 0.0)
    else WithEvent(TotalsOf(events[..|events| - 1]), events[|events| - 1])
  }

  function KeysOf(events: seq<Event>): Keys {
    if events == [] then Keys([], [], [])
    else
      var init := events[..|events| - 1];
      KeysWith(KeysOf(init), TotalsOf(init), events[|events| - 1])
  }

  /** Every entry is its group's total; weekly totals sum to the realized profit, market and day totals both
      to the total gain. */
  lemma {:induction false} TotalsAreConserved(events: seq<Event>)
    ensures AreTotals(TotalsOf(events), events)
    ensures Conserved(TotalsOf(events), KeysOf(events), events)
  {
    if events != [] {
      var init, e := events[..|events| - 1], events[|events| - 1];
      TotalsAreConserved(init);
      assert events == init + [e];
      OneMoreTotal(TotalsOf(init), init, e);
      OneMoreConserved(TotalsOf(init), KeysOf(init), init, e);
    }
  }

  method Accumulate(events: seq<Event>) returns (t: Totals)
    ensures t == TotalsOf(events)
  {
    var weekly: map<int, real>, market: map<string, real>, day: map<int, real>, positive := map[], map[], map[], 0.0;
    for i := 0 to |events|
      invariant Totals(weekly, market, day, positive) == TotalsOf(events[..i])
    {
      assert events[..i + 1][..i] == events[..i];
      var e := events[i];
      var week := e.timestamp / WEEK_SECONDS;
      weekly := weekly[week := At(weekly, week) + e.pnl];
      if e.pnl > 0.0 {
        positive := positive + e.pnl;
        var marketKey := MarketKey(e);
        market := market[marketKey := At(market, marketKey) + e.pnl];
        var dayKey := e.timestamp / DAY_SECONDS;
        day := day[dayKey := At(day, dayKey) + e.pnl];
      }
    }
    assert events[..|events|] == events;
    t := Totals(weekly, market, day, positive);
  }

  lemma {:induction false} EntryIsNoMoreThanSum<K(!new)>(keys: seq<K>, m: map<K, real>, k: K)
    requires SetOf(keys) <= m.Keys && AllPositive(m)
    ensures 0.0 <= Sum(keys, m)
    ensures k in SetOf(keys) ==> 0.0 < m[k] <= Sum(keys, m)
  {
    if keys != [] {
      EntryIsNoMoreThanSum(keys[..|keys| - 1], m, k);
    }
  }

  /** `max(values, default=0) / total`, or 0 without gains. */
  method TopShare<K(!new, ==)>(m: map<K, real>, total: real, ghost keys: seq<K>)
    returns (share: real, ghost best: Option<K>)
    requires SumsTo(keys, m, total) && AllPositive(m)
    ensures 0.0 <= share <= 1.0
    ensures total != 0.0 ==>
              && best.Some? && best.value in m && share == m[best.value] / total
              && forall k | k in m :: m[k] <= m[best.value]
    ensures total == 0.0 ==> m == map[] && share == 0.0
  {
    forall k | k in m ensures 0.0 < m[k] <= total {
      EntryIsNoMoreThanSum(keys, m, k);
    }
    var top := 0.0;
    var rest := m.Keys;
    best := None;
    while rest != {}
      invariant rest <= m.Keys
      invariant forall k | k in m && k !in rest :: m[k] <= top
      invariant if best.None? then top == 0.0 && rest == m.Keys else best.value in m && m[best.value] == top
      decreases rest
    {
      var k :| k in rest;
      rest := rest - {k};
      if m[k] > top {
        top, best := m[k], Some(k);
      }
    }
    if total == 0.0 {
      return 0.0, best;
    }
    assert keys != [] && keys[|keys| - 1] in m;
    share := top / total;
    ShareOfTotal(top, total);
  }

  lemma ShareOfTotal(top: real, total: real)
    requires 0.0 <= top <= total && 0.0 < total
    ensures 0.0 <= top / total <= 1.0
  {
  }

  ghost predicate IsBestMarket(events: seq<Event>, best: string) {
    forall m :: MarketGain(events, m) <= MarketGain(events, best)
  }

  ghost predicate IsBestDay(events: seq<Event>, best: int) {
    forall d :: DayGain(events, d) <= DayGain(events, best)
  }

  /** The shares of the best market and of the best day in the total gain. */
  method Concentration(events: seq<Event>) returns (topMarketShare: real, topDayShare: real)
    ensures 0.0 <= topMarketShare <= 1.0 && 0.0 <= topDayShare <= 1.0
    ensures TotalGain(events) != 0.0 ==>
              && (exists m :: IsBestMarket(events, m) && topMarketShare == MarketGain(events, m) / TotalGain(events))
              && (exists d :: IsBestDay(events, d) && topDayShare == DayGain(events, d) / TotalGain(events))
  {
    var t := Accumulate(events);
    TotalsAreConserved(events);
    ghost var keys, market, day := KeysOf(events), None, None;
    topMarketShare, market := TopShare(t.market, t.positive, keys.markets);
    topDayShare, day := TopShare(t.day, t.positive, keys.days);
    if t.positive != 0.0 {
      forall m ensures MarketGain(events, m) <= MarketGain(events, market.value) {
        assert At(t.market, m) == MarketGain(events, m)
               && At(t.market, market.value) == MarketGain(events, market.value);
      }
      forall d ensures DayGain(events, d) <= DayGain(events, day.value) {
        assert At(t.day, d) == DayGain(events, d) && At(t.day, day.value) == DayGain(events, day.value);
      }
      assert IsBestMarket(events, market.value) && IsBestDay(events, day.value);
    }
  }
}
