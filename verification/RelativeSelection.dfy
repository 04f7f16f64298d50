/** Relative promotion: wallets compete inside a fairness bucket and globally, and the eligible ones are
    allotted round-robin over the buckets under a cap and a narrow slow lane. */
module RelativeSelection {
  import opened Terms

  const MIN_FAIRNESS_BUCKET_SIZE := 3
  const L3_SLOW_MAX_PROMOTIONS := 2
  const STREAM := "stream"

  datatype Row = Row(
    wallet: Wallet, source: string, strategy: string, score: real, activity: int, markets: int, volume: real)

  datatype Transition = Transition(
    target: Level, fraction: real, globalFraction: real, maxPromotions: int,
    minActivity: int, minMarkets: int, minVolume: real)

  datatype BucketKey = BucketKey(kind: string, source: string, strategy: string)

  const GLOBAL := BucketKey("global", "*", "*")

  // ---------- Ranking ----------

  predicate Better(a: Row, b: Row) {
    a.score > b.score || (a.score == b.score && a.wallet < b.wallet)
  }

  ghost predicate DistinctWallets(rows: seq<Row>) {
    forall i, j | 0 <= i < j < |rows| :: rows[i].wallet != rows[j].wallet
  }

  ghost predicate BestFirst(rows: seq<Row>) {
    forall i, j | 0 <= i < j < |rows| :: Better(rows[i], rows[j])
  }

  function InsertRow(rows: seq<Row>, row: Row): seq<Row> {
    if rows == [] then [row]
    else if Better(row, rows[0]) then [row] + rows
    else [rows[0]] + InsertRow(rows[1..], row)
  }

  function Sorted(rows: seq<Row>): seq<Row> {
    if rows == [] then [] else InsertRow(Sorted(rows[1..]), rows[0])
  }

  function BetterCount(rows: seq<Row>, row: Row): nat {
    if rows == [] then 0 else (if Better(rows[0], row) then 1 else 0) + BetterCount(rows[1..], row)
  }

  lemma {:induction false} InsertRowMembers(rows: seq<Row>, row: Row, x: Row)
    ensures |InsertRow(rows, row)| == |rows| + 1
    ensures x in InsertRow(rows, row) <==> x == row || x in rows
    ensures BetterCount(InsertRow(rows, row), x) == (if Better(row, x) then 1 else 0) + BetterCount(rows, x)
  {
    if rows != [] {
      assert rows == [rows[0]] + rows[1..];
      InsertRowMembers(rows[1..], row, x);
    }
  }

  lemma {:induction false} InsertRowKeepsOrder(rows: seq<Row>, row: Row)
    requires BestFirst(rows) && forall r | r in rows :: r.wallet != row.wallet
    ensures BestFirst(InsertRow(rows, row))
  {
    if rows != [] && !Better(row, rows[0]) {
      var tail := InsertRow(rows[1..], row);
      InsertRowKeepsOrder(rows[1..], row);
      forall j | 0 <= j < |tail| ensures Better(rows[0], tail[j]) {
        InsertRowMembers(rows[1..], row, tail[j]);
        assert rows[0] in rows;
      }
    }
  }

  lemma {:induction false} SortedMembers(rows: seq<Row>, x: Row)
    ensures |Sorted(rows)| == |rows|
    ensures x in Sorted(rows) <==> x in rows
    ensures BetterCount(Sorted(rows), x) == BetterCount(rows, x)
  {
    if rows != [] {
      assert rows == [rows[0]] + rows[1..];
      SortedMembers(rows[1..], x);
      InsertRowMembers(Sorted(rows[1..]), rows[0], x);
    }
  }

  lemma {:induction false} SortedIsBestFirst(rows: seq<Row>)
    requires DistinctWallets(rows)
    ensures BestFirst(Sorted(rows))
  {
    if rows != [] {
      SortedIsBestFirst(rows[1..]);
      forall r | r in Sorted(rows[1..]) ensures r.wallet != rows[0].wallet {
        SortedMembers(rows[1..], r);
      }
      InsertRowKeepsOrder(Sorted(rows[1..]), rows[0]);
    }
  }

  lemma {:induction false} PositionIsBetterCount(rows: seq<Row>, i: nat)
    requires BestFirst(rows) && i < |rows|
    ensures BetterCount(rows, rows[i]) == i
  {
    if i > 0 {
      PositionIsBetterCount(rows[1..], i - 1);
    } else {
      NoneBetterThanFirst(rows[1..], rows[0]);
    }
  }

  lemma {:induction false} NoneBetterThanFirst(rows: seq<Row>, row: Row)
    requires forall r | r in rows :: Better(row, r)
    ensures BetterCount(rows, row) == 0
  {
    if rows != [] {
      assert rows[0] in rows;
      NoneBetterThanFirst(rows[1..], row);
    }
  }

  function Ceil(x: real): int {
    -((-x).Floor)
  }

  function Quota(size: nat, fraction: real): nat {
    Min(size, Max(1, Ceil(size as real * fraction)))
  }

  /** The wallets of the best rows of a group, up to its quota. */
  function Leaders(group: seq<Row>, fraction: real): set<Wallet> {
    var ranked := Sorted(group);
    SortedLength(group);
    set i | 0 <= i < Quota(|group|, fraction) :: ranked[i].wallet
  }

  lemma SortedLength(rows: seq<Row>)
    ensures |Sorted(rows)| == |rows|
  {
    SortedMembers(rows, Row(0, "", "", 0.0, 0, 0, 0.0));
  }

  /** A wallet leads its group exactly when fewer rows than the quota beat it. */
  lemma LeadsIffFewAreBetter(group: seq<Row>, fraction: real, row: Row)
    requires DistinctWallets(group) && row in group
    ensures row.wallet in Leaders(group, fraction) <==> BetterCount(group, row) < Quota(|group|, fraction)
  {
    var ranked := Sorted(group);
    SortedIsBestFirst(group);
    SortedMembers(group, row);
    var i :| 0 <= i < |ranked| && ranked[i] == row;
    PositionIsBetterCount(ranked, i);
    forall j | 0 <= j < |ranked| && ranked[j].wallet == row.wallet ensures j == i {
      assert j < i ==> Better(ranked[j], ranked[i]);
      SortedMembers(group, ranked[j]);
      assert ranked[j] in group;
    }
  }

  // ---------- Fairness buckets ----------

  predicate Matches(row: Row, key: BucketKey) {
    match key.kind
    case "exact" => row.source == key.source && row.strategy == key.strategy
    case "source" => row.source == key.source
    case _ => true
  }

  function Group(rows: seq<Row>, key: BucketKey): seq<Row> {
    if rows == [] then []
    else
      var before, last := Group(rows[..|rows| - 1], key), rows[|rows| - 1];
      if Matches(last, key) then before + [last] else before
  }

  lemma {:induction false} GroupMembers(rows: seq<Row>, key: BucketKey)
    ensures forall r :: r in Group(rows, key) <==> r in rows && Matches(r, key)
    ensures DistinctWallets(rows) ==> DistinctWallets(Group(rows, key))
  {
    if rows != [] {
      var init, last := rows[..|rows| - 1], rows[|rows| - 1];
      assert rows == init + [last];
      GroupMembers(init, key);
      if DistinctWallets(rows) {
        forall r | r in init ensures r.wallet != last.wallet {
          var i :| 0 <= i < |init| && init[i] == r;
          assert rows[i] == r;
        }
      }
    }
  }

  function ExactKey(source: string, strategy: string): BucketKey {
    BucketKey("exact", source, strategy)
  }

  function SourceKey(source: string): BucketKey {
    BucketKey("source", source, "*")
  }

  ghost predicate TalliesExact(counts: map<(string, string), nat>, rows: seq<Row>) {
    forall source, strategy ::
      |Group(rows, ExactKey(source, strategy))|
      == if (source, strategy) in counts then counts[(source, strategy)] else 0
  }

  ghost predicate TalliesSource(counts: map<string, nat>, rows: seq<Row>) {
    forall source :: |Group(rows, SourceKey(source))| == if source in counts then counts[source] else 0
  }

  lemma GroupPrefix(rows: seq<Row>, i: nat, key: BucketKey)
    requires i < |rows|
    ensures |Group(rows[..i + 1], key)| == |Group(rows[..i], key)| + if Matches(rows[i], key) then 1 else 0
  {
    assert rows[..i + 1][..i] == rows[..i];
  }

  method Tally(rows: seq<Row>) returns (exact: map<(string, string), nat>, source: map<string, nat>)
    ensures TalliesExact(exact, rows) && TalliesSource(source, rows)
  {
    exact, source := map[], map[];
    for i := 0 to |rows|
      invariant TalliesExact(exact, rows[..i]) && TalliesSource(source, rows[..i])
    {
      forall s, t ensures |Group(rows[..i + 1], ExactKey(s, t))|
                          == |Group(rows[..i], ExactKey(s, t))| + if Matches(rows[i], ExactKey(s, t)) then 1 else 0
      {
        GroupPrefix(rows, i, ExactKey(s, t));
      }
      forall s ensures |Group(rows[..i + 1], SourceKey(s))|
                       == |Group(rows[..i], SourceKey(s))| + if Matches(rows[i], SourceKey(s)) then 1 else 0
      {
        GroupPrefix(rows, i, SourceKey(s));
      }
      var key := (rows[i].source, rows[i].strategy);
      exact := exact[key := (if key in exact then exact[key] else 0) + 1];
      source := source[key.0 := (if key.0 in source then source[key.0] else 0) + 1];
    }
    assert rows[..|rows|] == rows;
  }

  function ComparisonBucket(row: Row, exact: map<(string, string), nat>, source: map<string, nat>): BucketKey {
    var key := (row.source, row.strategy);
    if key in exact && exact[key] >= MIN_FAIRNESS_BUCKET_SIZE then ExactKey(row.source, row.strategy)
    else if row.source in source && source[row.source] >= MIN_FAIRNESS_BUCKET_SIZE then SourceKey(row.source)
    else GLOBAL
  }

  /** The narrowest group with enough references to compare with. */
  function BucketOf(row: Row, reference: seq<Row>): BucketKey {
    if |Group(reference, ExactKey(row.source, row.strategy))| >= MIN_FAIRNESS_BUCKET_SIZE
    then ExactKey(row.source, row.strategy)
    else if |Group(reference, SourceKey(row.source))| >= MIN_FAIRNESS_BUCKET_SIZE then SourceKey(row.source)
    else GLOBAL
  }

  lemma TalliesFindTheBucket(row: Row, exact: map<(string, string), nat>, source: map<string, nat>, reference: seq<Row>)
    requires TalliesExact(exact, reference) && TalliesSource(source, reference)
    ensures ComparisonBucket(row, exact, source) == BucketOf(row, reference)
  {
    assert |Group(reference, ExactKey(row.source, row.strategy))| >= 0
           && |Group(reference, SourceKey(row.source))| >= 0;
  }

  // ---------- Eligibility ----------

  predicate Leads(w: Wallet, group: seq<Row>, fraction: real) {
    w in Leaders(group, fraction)
  }

  predicate Eligible(row: Row, reference: seq<Row>, t: Transition) {
    && Leads(row.wallet, Group(reference, BucketOf(row, reference)), t.fraction)
    && Leads(row.wallet, reference, t.globalFraction)
  }

  /** The eligible pending rows that compare in a bucket. */
  function Contenders(pending: seq<Row>, reference: seq<Row>, t: Transition, key: BucketKey): seq<Row> {
    if pending == [] then []
    else
      var before, last := Contenders(pending[..|pending| - 1], reference, t, key), pending[|pending| - 1];
      if BucketOf(last, reference) == key && Eligible(last, reference, t) then before + [last] else before
  }

  lemma {:induction false} ContendersMembers(pending: seq<Row>, reference: seq<Row>, t: Transition, key: BucketKey)
    ensures forall r :: r in Contenders(pending, reference, t, key) <==>
                        r in pending && BucketOf(r, reference) == key && Eligible(r, reference, t)
    ensures DistinctWallets(pending) ==> DistinctWallets(Contenders(pending, reference, t, key))
  {
    if pending != [] {
      var init, last := pending[..|pending| - 1], pending[|pending| - 1];
      assert pending == init + [last];
      ContendersMembers(init, reference, t, key);
      if DistinctWallets(pending) {
        forall r | r in init ensures r.wallet != last.wallet {
          var i :| 0 <= i < |init| && init[i] == r;
          assert pending[i] == r;
        }
      }
    }
  }

  // ---------- The allocator ----------

  predicate IsSlowLane(row: Row, t: Transition) {
    && t.target == L3
    && row.source != STREAM
    && (row.activity < t.minActivity || row.markets < t.minMarkets || row.volume < t.minVolume)
  }

  datatype Pick = Pick(key: BucketKey, row: Row)

  type Candidates = map<BucketKey, seq<Row>>

  datatype Allocation = Allocation(buckets: Candidates, picks: seq<Pick>, slow: nat, slowSources: set<string>)

  /** Picks only ever add to what blocks a slow row. */
  predicate Blocked(row: Row, t: Transition, slow: nat, slowSources: set<string>) {
    IsSlowLane(row, t) && (slow >= L3_SLOW_MAX_PROMOTIONS || row.source in slowSources)
  }

  function PickedFrom(picks: seq<Pick>, key: BucketKey): nat {
    if picks == [] then 0
    else PickedFrom(picks[..|picks| - 1], key) + if picks[|picks| - 1].key == key then 1 else 0
  }

  function SlowSourcesOf(picks: seq<Pick>, t: Transition): set<string> {
    if picks == [] then {}
    else
      var before, last := SlowSourcesOf(picks[..|picks| - 1], t), picks[|picks| - 1].row;
      if IsSlowLane(last, t) then before + {last.source} else before
  }

  function SlowCount(picks: seq<Pick>, t: Transition): nat {
    if picks == [] then 0
    else SlowCount(picks[..|picks| - 1], t) + if IsSlowLane(picks[|picks| - 1].row, t) then 1 else 0
  }

  /** Nothing of the bucket can be picked any more. */
  ghost predicate Exhausted(c: Candidates, t: Transition, a: Allocation, key: BucketKey)
    requires key in c
  {
    forall r | r in c[key] :: Pick(key, r) in a.picks || Blocked(r, t, a.slow, a.slowSources)
  }

  ghost predicate BucketsHoldUnpicked(c: Candidates, a: Allocation) {
    && a.buckets.Keys == c.Keys
    && (forall k | k in c :: BestFirst(a.buckets[k]))
    && (forall k, r | k in c && r in a.buckets[k] :: r in c[k] && Pick(k, r) !in a.picks)
  }

  ghost predicate PicksAreCandidates(c: Candidates, a: Allocation) {
    && (forall p | p in a.picks :: p.key in c && p.row in c[p.key])
    && (forall i, j | 0 <= i < j < |a.picks| :: a.picks[i] != a.picks[j])
  }

  /** A candidate that left its bucket was picked, or is blocked for ever. */
  ghost predicate NothingIsLost(c: Candidates, t: Transition, a: Allocation) {
    forall k, r | k in c && r in c[k] ::
      Pick(k, r) in a.picks || Blocked(r, t, a.slow, a.slowSources) || (k in a.buckets && r in a.buckets[k])
  }

  /** A better candidate of the same bucket is passed over only when blocked. */
  ghost predicate BestGoFirst(c: Candidates, t: Transition, a: Allocation) {
    forall p, r | p in a.picks && p.key in c && r in c[p.key] && Better(r, p.row) ::
      Pick(p.key, r) in a.picks || Blocked(r, t, a.slow, a.slowSources)
  }

  /** At most two slow rows were picked, from different sources. */
  ghost predicate SlowLaneIsNarrow(t: Transition, a: Allocation) {
    && a.slow == SlowCount(a.picks, t) == |a.slowSources| <= L3_SLOW_MAX_PROMOTIONS
    && a.slowSources == SlowSourcesOf(a.picks, t)
  }

  /** What holds of an allocation at every moment. */
  ghost predicate Sane(c: Candidates, t: Transition, a: Allocation) {
    && BucketsHoldUnpicked(c, a)
    && PicksAreCandidates(c, a)
    && NothingIsLost(c, t, a)
    && BestGoFirst(c, t, a)
    && SlowLaneIsNarrow(t, a)
  }

  /** `_first_selectable_candidate_index`. */
  method FirstSelectable(rows: seq<Row>, t: Transition, slow: nat, slowSources: set<string>)
    returns (index: Option<nat>)
    ensures index.None? ==> forall r | r in rows :: Blocked(r, t, slow, slowSources)
    ensures index.Some? ==>
              && index.value < |rows| && !Blocked(rows[index.value], t, slow, slowSources)
              && forall k | 0 <= k < index.value :: Blocked(rows[k], t, slow, slowSources)
  {
    for i := 0 to |rows|
      invariant forall k | 0 <= k < i :: Blocked(rows[k], t, slow, slowSources)
    {
      if !IsSlowLane(rows[i], t) {
        return Some(i);
      }
      if slow >= L3_SLOW_MAX_PROMOTIONS || rows[i].source in slowSources {
        continue;
      }
      return Some(i);
    }
    index := None;
  }

  function Taken(a: Allocation, key: BucketKey, i: nat, t: Transition): Allocation
    requires key in a.buckets && i < |a.buckets[key]|
  {
    var row := a.buckets[key][i];
    Allocation(
      a.buckets[key := a.buckets[key][..i] + a.buckets[key][i + 1..]],
      a.picks + [Pick(key, row)],
      a.slow + (if IsSlowLane(row, t) then 1 else 0),
      if IsSlowLane(row, t) then a.slowSources + {row.source} else a.slowSources)
  }

  /** The bucket without its `i`-th row. */
  lemma RowTakenOut(bucket: seq<Row>, i: nat)
    requires BestFirst(bucket) && i < |bucket|
    ensures BestFirst(bucket[..i] + bucket[i + 1..])
    ensures forall r :: r in bucket[..i] + bucket[i + 1..] <==> r in bucket && r != bucket[i]
    ensures forall r | r in bucket && Better(r, bucket[i]) :: r in bucket[..i]
  {
    var rest := bucket[..i] + bucket[i + 1..];
    forall r | r in bucket && r != bucket[i] ensures r in rest {
      var j :| 0 <= j < |bucket| && bucket[j] == r;
      assert r == if j < i then rest[j] else rest[j - 1];
    }
    forall r | r in rest ensures r in bucket && r != bucket[i] {
      var j :| 0 <= j < |rest| && rest[j] == r;
      assert r == bucket[if j < i then j else j + 1];
    }
    assert forall j | i < j < |bucket| :: Better(bucket[i], bucket[j]);
    forall r | r in bucket && Better(r, bucket[i]) ensures r in bucket[..i] {
      var j :| 0 <= j < |bucket| && bucket[j] == r;
      assert bucket[..i][j] == r;
    }
  }

  lemma TakenFacts(a: Allocation, key: BucketKey, i: nat, t: Transition)
    requires key in a.buckets && i < |a.buckets[key]|
    ensures
      var a' := Taken(a, key, i, t);
      && (forall p :: p in a'.picks <==> p in a.picks || p == Pick(key, a.buckets[key][i]))
      && (forall r | Blocked(r, t, a.slow, a.slowSources) :: Blocked(r, t, a'.slow, a'.slowSources))
  {
    var a' := Taken(a, key, i, t);
    assert a'.picks[..|a.picks|] == a.picks && a'.picks[|a.picks|] == Pick(key, a.buckets[key][i]);
  }

  lemma TakingLeavesUnpicked(c: Candidates, t: Transition, a: Allocation, key: BucketKey, i: nat)
    requires BucketsHoldUnpicked(c, a) && key in c && i < |a.buckets[key]|
    ensures BucketsHoldUnpicked(c, Taken(a, key, i, t))
  {
    RowTakenOut(a.buckets[key], i);
    TakenFacts(a, key, i, t);
  }

  lemma TakingLosesNothing(c: Candidates, t: Transition, a: Allocation, key: BucketKey, i: nat)
    requires BucketsHoldUnpicked(c, a) && NothingIsLost(c, t, a) && key in c && i < |a.buckets[key]|
    ensures NothingIsLost(c, t, Taken(a, key, i, t))
  {
    RowTakenOut(a.buckets[key], i);
    TakenFacts(a, key, i, t);
  }

  lemma TakingPassesOverBlocked(c: Candidates, t: Transition, a: Allocation, key: BucketKey, i: nat)
    requires BucketsHoldUnpicked(c, a) && NothingIsLost(c, t, a) && BestGoFirst(c, t, a)
    requires key in c && i < |a.buckets[key]|
    requires forall k | 0 <= k < i :: Blocked(a.buckets[key][k], t, a.slow, a.slowSources)
    ensures BestGoFirst(c, t, Taken(a, key, i, t))
  {
    RowTakenOut(a.buckets[key], i);
    TakenFacts(a, key, i, t);
  }

  lemma TakingKeepsSlowLane(c: Candidates, t: Transition, a: Allocation, key: BucketKey, i: nat)
    requires BucketsHoldUnpicked(c, a) && PicksAreCandidates(c, a) && SlowLaneIsNarrow(t, a)
    requires key in c && i < |a.buckets[key]| && !Blocked(a.buckets[key][i], t, a.slow, a.slowSources)
    ensures PicksAreCandidates(c, Taken(a, key, i, t)) && SlowLaneIsNarrow(t, Taken(a, key, i, t))
  {
    TakenFacts(a, key, i, t);
    var a', row := Taken(a, key, i, t), a.buckets[key][i];
    assert row in a.buckets[key];
    assert a'.picks[..|a.picks|] == a.picks && a'.picks[|a.picks|] == Pick(key, row);
  }

  lemma TakingKeepsSane(c: Candidates, t: Transition, a: Allocation, key: BucketKey, i: nat)
    requires Sane(c, t, a) && key in c && i < |a.buckets[key]|
    requires !Blocked(a.buckets[key][i], t, a.slow, a.slowSources)
    requires forall k | 0 <= k < i :: Blocked(a.buckets[key][k], t, a.slow, a.slowSources)
    ensures Sane(c, t, Taken(a, key, i, t))
  {
    TakingLeavesUnpicked(c, t, a, key, i);
    TakingLosesNothing(c, t, a, key, i);
    TakingPassesOverBlocked(c, t, a, key, i);
    TakingKeepsSlowLane(c, t, a, key, i);
  }

  lemma ClearingKeepsSane(c: Candidates, t: Transition, a: Allocation, key: BucketKey)
    requires Sane(c, t, a) && key in c
    requires forall r | r in a.buckets[key] :: Blocked(r, t, a.slow, a.slowSources)
    ensures Sane(c, t, a.(buckets := a.buckets[key := []]))
    ensures Exhausted(c, t, a, key)
  {
  }

  // ---------- Turns ----------

  /** Text order. */
  predicate TextBefore(a: string, b: string) {
    b != [] && (a == [] || a[0] < b[0] || (a[0] == b[0] && TextBefore(a[1..], b[1..])))
  }

  predicate KeyBefore(a: BucketKey, b: BucketKey) {
    || TextBefore(a.kind, b.kind)
    || (a.kind == b.kind && TextBefore(a.source, b.source))
    || (a.kind == b.kind && a.source == b.source && TextBefore(a.strategy, b.strategy))
  }

  lemma {:induction false} TextOrder(a: string, b: string, c: string)
    ensures TextBefore(a, b) || TextBefore(b, a) || a == b
    ensures !(TextBefore(a, b) && TextBefore(b, a)) && !TextBefore(a, a)
    ensures TextBefore(a, b) && TextBefore(b, c) ==> TextBefore(a, c)
  {
    if a != [] || b != [] || c != [] {
      var tail := (s: string) => if s == [] then [] else s[1..];
      TextOrder(tail(a), tail(b), tail(c));
      if a != [] && b != [] && a[0] == b[0] && a[1..] == b[1..] {
        assert a == [a[0]] + a[1..] && b == [b[0]] + b[1..];
      }
    }
  }

  ghost predicate InTurnOrder(keys: seq<BucketKey>) {
    forall i, j | 0 <= i < j < |keys| :: KeyBefore(keys[i], keys[j])
  }

  predicate Full(t: Transition, a: Allocation) {
    |a.picks| >= t.maxPromotions
  }

  /** A bucket that could still give a row trails no other bucket, but for one pick by a bucket whose turn
      comes earlier. */
  ghost predicate Fair(c: Candidates, t: Transition, a: Allocation) {
    forall k, j | k in c && j in c && !Exhausted(c, t, a, k) ::
      PickedFrom(a.picks, j) <= PickedFrom(a.picks, k) + if KeyBefore(j, k) then 1 else 0
  }

  /** In turn `n + 1`, with the first `upTo` of the open buckets served. */
  ghost predicate Turning(c: Candidates, t: Transition, a: Allocation, keys: seq<BucketKey>, n: nat, upTo: nat) {
    && upTo <= |keys|
    && (forall k | k in keys :: k in c)
    && (forall i | 0 <= i < upTo :: Exhausted(c, t, a, keys[i]) || PickedFrom(a.picks, keys[i]) == n + 1)
    && (forall i | upTo <= i < |keys| :: PickedFrom(a.picks, keys[i]) == n)
    && (forall k | k in c :: PickedFrom(a.picks, k) <= if k in keys[..upTo] then n + 1 else n)
    && (forall k | k in c && k !in keys :: Exhausted(c, t, a, k))
  }

  lemma TurningIsFair(c: Candidates, t: Transition, a: Allocation, keys: seq<BucketKey>, n: nat, upTo: nat)
    requires InTurnOrder(keys) && Turning(c, t, a, keys, n, upTo)
    ensures Fair(c, t, a)
  {
    forall k, j | k in c && j in c && !Exhausted(c, t, a, k)
      ensures PickedFrom(a.picks, j) <= PickedFrom(a.picks, k) + if KeyBefore(j, k) then 1 else 0
    {
      var at :| 0 <= at < |keys| && keys[at] == k;
      if at >= upTo && j in keys[..upTo] {
        var before :| 0 <= before < upTo && keys[before] == j;
        assert KeyBefore(keys[before], keys[at]);
      }
    }
  }

  ghost predicate SamePicks(a: Allocation, a': Allocation) {
    forall k :: PickedFrom(a'.picks, k) == PickedFrom(a.picks, k)
  }

  ghost predicate OneMorePick(a: Allocation, a': Allocation, key: BucketKey) {
    forall k :: PickedFrom(a'.picks, k) == PickedFrom(a.picks, k) + if k == key then 1 else 0
  }

  lemma TakingCounts(c: Candidates, t: Transition, a: Allocation, key: BucketKey, i: nat)
    requires Sane(c, t, a) && key in c && i < |a.buckets[key]|
    ensures
      var a' := Taken(a, key, i, t);
      && OneMorePick(a, a', key)
      && (forall k | k in c && Exhausted(c, t, a, k) :: Exhausted(c, t, a', k))
  {
    var a' := Taken(a, key, i, t);
    assert a'.picks[..|a.picks|] == a.picks;
    assert forall p | p in a.picks :: p in a'.picks;
  }

  /** One bucket's turn: its first selectable row, or nothing from it ever again. */
  method TakeTurn(ghost c: Candidates, t: Transition, a: Allocation, key: BucketKey) returns (a': Allocation)
    requires Sane(c, t, a) && key in c
    ensures Sane(c, t, a')
    ensures forall k | k in c && Exhausted(c, t, a, k) :: Exhausted(c, t, a', k)
    ensures || (|a'.picks| == |a.picks| && a'.buckets[key] == [] && SamePicks(a, a'))
            || (|a'.picks| == |a.picks| + 1 && OneMorePick(a, a', key))
  {
    var picked := FirstSelectable(a.buckets[key], t, a.slow, a.slowSources);
    if picked.Some? {
      TakingKeepsSane(c, t, a, key, picked.value);
      TakingCounts(c, t, a, key, picked.value);
      a' := Taken(a, key, picked.value, t);
    } else {
      ClearingKeepsSane(c, t, a, key);
      a' := a.(buckets := a.buckets[key := []]);
    }
  }

  lemma EmptyIsExhausted(c: Candidates, t: Transition, a: Allocation, key: BucketKey)
    requires Sane(c, t, a) && key in c && a.buckets[key] == []
    ensures Exhausted(c, t, a, key)
  {
  }

  lemma KeyNotBeforeItself(k: BucketKey)
    ensures !KeyBefore(k, k)
  {
    TextOrder(k.kind, k.kind, k.kind);
    TextOrder(k.source, k.source, k.source);
    TextOrder(k.strategy, k.strategy, k.strategy);
  }

  /** What a bucket's turn changes. */
  ghost predicate Served(c: Candidates, t: Transition, a: Allocation, a': Allocation, key: BucketKey, open: bool)
    requires key in c
  {
    && (forall k | k in c && Exhausted(c, t, a, k) :: Exhausted(c, t, a', k))
    && (!open ==> Exhausted(c, t, a', key))
    && (|| (|a'.picks| == |a.picks| && !open && SamePicks(a, a'))
        || (|a'.picks| == |a.picks| + 1 && OneMorePick(a, a', key)))
  }

  /** A bucket's turn: take its first selectable row, or clear it. */
  method Serve(ghost c: Candidates, t: Transition, a: Allocation, key: BucketKey) returns (a': Allocation, open: bool)
    requires Sane(c, t, a) && key in c && |a.picks| <= t.maxPromotions
    ensures Sane(c, t, a') && |a'.picks| <= t.maxPromotions
    ensures if Full(t, a) then a' == a else Served(c, t, a, a', key, open)
  {
    a' := a;
    if a.buckets[key] != [] && |a.picks| < t.maxPromotions {
      a' := TakeTurn(c, t, a, key);
    }
    open := a'.buckets[key] != [];
    if !open {
      EmptyIsExhausted(c, t, a', key);
    }
  }

  lemma ServedIsTurning(c: Candidates, t: Transition, a: Allocation, a': Allocation, open: bool,
                        keys: seq<BucketKey>, n: nat, i: nat)
    requires InTurnOrder(keys) && i < |keys| && Turning(c, t, a, keys, n, i) && Served(c, t, a, a', keys[i], open)
    ensures Turning(c, t, a', keys, n, i + 1)
  {
    assert keys[..i + 1] == keys[..i] + [keys[i]];
    KeyNotBeforeItself(keys[i]);
  }

  /** The buckets to be served in the next turn, among those served so far. */
  ghost predicate Carried(c: Candidates, t: Transition, a: Allocation, served: seq<BucketKey>,
                          remaining: seq<BucketKey>, n: nat)
  {
    && InTurnOrder(remaining)
    && (forall k | k in remaining :: k in served && PickedFrom(a.picks, k) == n + 1)
    && (forall k | k in served && k in c && k !in remaining :: Exhausted(c, t, a, k))
  }

  lemma InOrderWithNext(keys: seq<BucketKey>, i: nat, remaining: seq<BucketKey>)
    requires InTurnOrder(keys) && i < |keys| && InTurnOrder(remaining)
    requires forall k | k in remaining :: k in keys[..i]
    ensures InTurnOrder(remaining + [keys[i]])
  {
    forall k | k in remaining ensures KeyBefore(k, keys[i]) {
      var j :| 0 <= j < i && keys[j] == k;
    }
  }

  lemma NotServedBefore(keys: seq<BucketKey>, i: nat)
    requires InTurnOrder(keys) && i < |keys|
    ensures keys[i] !in keys[..i]
  {
    KeyNotBeforeItself(keys[i]);
  }

  lemma ServedStaysCarried(c: Candidates, t: Transition, a: Allocation, a': Allocation, open: bool,
                           served: seq<BucketKey>, key: BucketKey, n: nat, remaining: seq<BucketKey>,
                           remaining': seq<BucketKey>)
    requires key in c && key !in served && PickedFrom(a.picks, key) == n
    requires Carried(c, t, a, served, remaining, n) && Served(c, t, a, a', key, open)
    requires remaining' == (if open then remaining + [key] else remaining) && InTurnOrder(remaining')
    ensures Carried(c, t, a', served + [key], remaining', n)
  {
  }

  lemma ServedIsCarried(c: Candidates, t: Transition, a: Allocation, a': Allocation, open: bool,
                        keys: seq<BucketKey>, n: nat, i: nat, remaining: seq<BucketKey>)
    requires InTurnOrder(keys) && i < |keys| && Turning(c, t, a, keys, n, i) && Served(c, t, a, a', keys[i], open)
    requires Carried(c, t, a, keys[..i], remaining, n)
    ensures Carried(c, t, a', keys[..i + 1], if open then remaining + [keys[i]] else remaining, n)
  {
    assert keys[..i + 1] == keys[..i] + [keys[i]];
    NotServedBefore(keys, i);
    InOrderWithNext(keys, i, remaining);
    ServedStaysCarried(
      c, t, a, a', open, keys[..i], keys[i], n, remaining, if open then remaining + [keys[i]] else remaining);
  }

  lemma CarriedIsTurning(c: Candidates, t: Transition, a: Allocation, keys: seq<BucketKey>, n: nat,
                         remaining: seq<BucketKey>)
    requires Turning(c, t, a, keys, n, |keys|) && Carried(c, t, a, keys, remaining, n)
    ensures Turning(c, t, a, remaining, n + 1, 0)
  {
    assert keys[..|keys|] == keys;
  }

  /** One turn of every open bucket, as long as the cap allows. */
  method Round(ghost c: Candidates, t: Transition, a: Allocation, keys: seq<BucketKey>, ghost n: nat)
    returns (a': Allocation, remaining: seq<BucketKey>)
    requires Sane(c, t, a) && InTurnOrder(keys) && keys != [] && !Full(t, a)
    requires Turning(c, t, a, keys, n, 0)
    ensures Sane(c, t, a') && Fair(c, t, a') && |a'.picks| <= t.maxPromotions
    ensures Full(t, a') || (InTurnOrder(remaining) && Turning(c, t, a', remaining, n + 1, 0))
    ensures |a.picks| - |keys| < |a'.picks| - |remaining|
  {
    a', remaining := a, [];
    ghost var upTo := 0;
    for i := 0 to |keys|
      invariant Sane(c, t, a') && |a'.picks| <= t.maxPromotions
      invariant Turning(c, t, a', keys, n, upTo)
      invariant if Full(t, a') then upTo <= i else upTo == i && Carried(c, t, a', keys[..i], remaining, n)
      invariant |a.picks| <= |a'.picks| && |remaining| <= i
      invariant i > 0 ==> |remaining| - i < |a'.picks| - |a.picks|
    {
      ghost var before := a';
      var open;
      a', open := Serve(c, t, a', keys[i]);
      if !Full(t, before) {
        ServedIsTurning(c, t, before, a', open, keys, n, i);
        ServedIsCarried(c, t, before, a', open, keys, n, i, remaining);
        upTo := i + 1;
      }
      if open {
        remaining := remaining + [keys[i]];
      }
    }
    TurningIsFair(c, t, a', keys, n, upTo);
    if !Full(t, a') {
      assert keys[..|keys|] == keys;
      CarriedIsTurning(c, t, a', keys, n, remaining);
    }
  }

  // ---------- The whole selection ----------

  lemma KeyOrder(a: BucketKey, b: BucketKey, c: BucketKey)
    ensures KeyBefore(a, b) || KeyBefore(b, a) || a == b
    ensures KeyBefore(a, b) && KeyBefore(b, c) ==> KeyBefore(a, c)
  {
    TextOrder(a.kind, b.kind, c.kind);
    TextOrder(a.source, b.source, c.source);
    TextOrder(a.strategy, b.strategy, c.strategy);
  }

  function InsertKey(keys: seq<BucketKey>, key: BucketKey): seq<BucketKey> {
    if keys == [] then [key]
    else if KeyBefore(key, keys[0]) then [key] + keys
    else [keys[0]] + InsertKey(keys[1..], key)
  }

  lemma {:induction false} InsertKeyKeepsOrder(keys: seq<BucketKey>, key: BucketKey)
    requires InTurnOrder(keys) && key !in keys
    ensures InTurnOrder(InsertKey(keys, key))
    ensures forall k :: k in InsertKey(keys, key) <==> k == key || k in keys
  {
    if keys != [] {
      assert keys == [keys[0]] + keys[1..];
      KeyOrder(keys[0], key, key);
      InsertKeyKeepsOrder(keys[1..], key);
      if KeyBefore(key, keys[0]) {
        forall i | 0 <= i < |keys| ensures KeyBefore(key, keys[i]) {
          KeyOrder(key, keys[0], keys[i]);
        }
      } else {
        var tail := InsertKey(keys[1..], key);
        forall i | 0 <= i < |tail| ensures KeyBefore(keys[0], tail[i]) {
          assert tail[i] == key || tail[i] in keys[1..];
        }
      }
    }
  }

  method SortedKeys(ks: set<BucketKey>) returns (keys: seq<BucketKey>)
    ensures InTurnOrder(keys) && forall k :: k in keys <==> k in ks
  {
    keys := [];
    var rest := ks;
    while rest != {}
      invariant InTurnOrder(keys) && rest <= ks && forall k :: k in keys <==> k in ks && k !in rest
      decreases rest
    {
      var key :| key in rest;
      rest := rest - {key};
      InsertKeyKeepsOrder(keys, key);
      keys := InsertKey(keys, key);
    }
  }

  /** Round-robin over the buckets. If capacity remains, every candidate not picked is slow and blocked. */
  method Allocate(c: Candidates, t: Transition) returns (a: Allocation)
    requires 0 < t.maxPromotions && forall k | k in c :: BestFirst(c[k])
    ensures Sane(c, t, a) && Fair(c, t, a) && |a.picks| <= t.maxPromotions
    ensures |a.picks| < t.maxPromotions ==> forall k | k in c :: Exhausted(c, t, a, k)
  {
    a := Allocation(c, [], 0, {});
    var keys := SortedKeys(c.Keys);
    ghost var n := 0;
    TurningIsFair(c, t, a, keys, n, 0);
    while keys != [] && |a.picks| < t.maxPromotions
      invariant Sane(c, t, a) && Fair(c, t, a) && |a.picks| <= t.maxPromotions
      invariant Full(t, a) || (InTurnOrder(keys) && Turning(c, t, a, keys, n, 0))
      decreases t.maxPromotions - |a.picks| + |keys|
    {
      a, keys := Round(c, t, a, keys, n);
      n := n + 1;
    }
  }

  datatype Decision = Decision(selected: bool, eligible: bool, globalEligible: bool, rank: nat, referenceSize: nat)

  /** `rank_by_bucket`: a wallet's place among the ranked rows of its group, 0 when it is not among them. */
  function PlaceOf(w: Wallet, ranked: seq<Row>): nat {
    if ranked == [] then 0
    else if ranked[0].wallet == w then 1
    else
      var place := PlaceOf(w, ranked[1..]);
      if place == 0 then 0 else place + 1
  }

  function SelectedWallets(picks: seq<Pick>): set<Wallet> {
    if picks == [] then {} else SelectedWallets(picks[..|picks| - 1]) + {picks[|picks| - 1].row.wallet}
  }

  lemma {:induction false} SelectedAreThePicked(picks: seq<Pick>, w: Wallet)
    ensures w in SelectedWallets(picks) <==> exists p :: p in picks && p.row.wallet == w
    ensures (forall i, j | 0 <= i < j < |picks| :: picks[i].row.wallet != picks[j].row.wallet)
            ==> |SelectedWallets(picks)| == |picks|
  {
    if picks != [] {
      var init, last := picks[..|picks| - 1], picks[|picks| - 1];
      assert picks == init + [last];
      SelectedAreThePicked(init, w);
      SelectedAreThePicked(init, last.row.wallet);
      assert last in picks;
      if w in SelectedWallets(init) {
        var p :| p in init && p.row.wallet == w;
        assert p in picks;
      }
    }
  }

  lemma SortedKeepsWalletsDistinct(group: seq<Row>)
    requires DistinctWallets(group)
    ensures DistinctWallets(Sorted(group))
  {
    var ranked := Sorted(group);
    SortedIsBestFirst(group);
    forall i, j | 0 <= i < j < |ranked| ensures ranked[i].wallet != ranked[j].wallet {
      SortedMembers(group, ranked[i]);
      SortedMembers(group, ranked[j]);
      assert Better(ranked[i], ranked[j]);
    }
  }

  lemma {:induction false} PlaceAt(ranked: seq<Row>, i: nat)
    requires DistinctWallets(ranked) && i < |ranked|
    ensures PlaceOf(ranked[i].wallet, ranked) == i + 1
  {
    if i > 0 {
      PlaceAt(ranked[1..], i - 1);
    }
  }

  /** The rank of a row says how many rows of its group beat it. */
  lemma RankCountsTheBetter(group: seq<Row>, row: Row)
    requires DistinctWallets(group) && row in group
    ensures PlaceOf(row.wallet, Sorted(group)) == BetterCount(group, row) + 1
  {
    SortedIsBestFirst(group);
    SortedMembers(group, row);
    var i :| 0 <= i < |Sorted(group)| && Sorted(group)[i] == row;
    PositionIsBetterCount(Sorted(group), i);
    SortedKeepsWalletsDistinct(group);
    PlaceAt(Sorted(group), i);
  }

  predicate Disabled(t: Transition) {
    t.maxPromotions <= 0 || t.fraction <= 0.0
  }

  /** The candidates of the allocator: every eligible row in its bucket, best first. */
  ghost predicate AreCandidates(c: Candidates, pending: seq<Row>, reference: seq<Row>, t: Transition) {
    && (forall k, r ::
          k in c && r in c[k] <==> r in pending && BucketOf(r, reference) == k && Eligible(r, reference, t))
    && (forall k | k in c :: BestFirst(c[k]))
  }

  /** The eligible rows by bucket, in the order they were read. */
  ghost predicate AreContenders(c: Candidates, pending: seq<Row>, reference: seq<Row>, t: Transition) {
    forall k :: (if k in c then c[k] else []) == Contenders(pending, reference, t, k)
  }

  lemma OneMoreContender(c: Candidates, c': Candidates, pending: seq<Row>, i: nat, reference: seq<Row>, t: Transition)
    requires i < |pending| && AreContenders(c, pending[..i], reference, t)
    requires
      var row, key := pending[i], BucketOf(pending[i], reference);
      c' == if Eligible(row, reference, t) then c[key := (if key in c then c[key] else []) + [row]] else c
    ensures AreContenders(c', pending[..i + 1], reference, t)
  {
    forall k
      ensures (if k in c' then c'[k] else []) == Contenders(pending[..i + 1], reference, t, k)
    {
      assert (if k in c then c[k] else []) == Contenders(pending[..i], reference, t, k);
      assert pending[..i + 1][..i] == pending[..i] && pending[..i + 1][i] == pending[i];
    }
  }

  method CandidateBuckets(pending: seq<Row>, reference: seq<Row>, t: Transition, keys: map<Wallet, BucketKey>)
    returns (c: Candidates)
    requires DistinctWallets(pending)
    requires forall r | r in pending :: r.wallet in keys && keys[r.wallet] == BucketOf(r, reference)
    ensures AreCandidates(c, pending, reference, t)
  {
    c := map[];
    for i := 0 to |pending|
      invariant AreContenders(c, pending[..i], reference, t)
    {
      var row := pending[i];
      ghost var before := c;
      if Eligible(row, reference, t) {
        var key := keys[row.wallet];
        c := c[key := (if key in c then c[key] else []) + [row]];
      }
      OneMoreContender(before, c, pending, i, reference, t);
    }
    assert pending[..|pending|] == pending;
    ghost var unsorted := c;
    c := map k | k in c :: Sorted(c[k]);
    SortedBucketsAreCandidates(unsorted, c, pending, reference, t);
  }

  lemma SortedContenders(pending: seq<Row>, reference: seq<Row>, t: Transition, k: BucketKey)
    requires DistinctWallets(pending)
    ensures BestFirst(Sorted(Contenders(pending, reference, t, k)))
    ensures forall r :: r in Sorted(Contenders(pending, reference, t, k)) <==>
                        r in pending && BucketOf(r, reference) == k && Eligible(r, reference, t)
  {
    var contenders := Contenders(pending, reference, t, k);
    ContendersMembers(pending, reference, t, k);
    SortedIsBestFirst(contenders);
    forall r ensures r in Sorted(contenders) <==> r in contenders {
      SortedMembers(contenders, r);
    }
  }

  lemma SortedBucketsAreCandidates(unsorted: Candidates, c: Candidates, pending: seq<Row>, reference: seq<Row>,
                                   t: Transition)
    requires DistinctWallets(pending) && c.Keys == unsorted.Keys
    requires AreContenders(unsorted, pending, reference, t)
    requires forall k | k in c :: c[k] == Sorted(unsorted[k])
    ensures AreCandidates(c, pending, reference, t)
  {
    forall k | k in c
      ensures BestFirst(c[k])
      ensures forall r :: r in c[k] <==> r in pending && BucketOf(r, reference) == k && Eligible(r, reference, t)
    {
      SortedContenders(pending, reference, t, k);
    }
    forall k, r | k !in c ensures !(r in pending && BucketOf(r, reference) == k && Eligible(r, reference, t)) {
      ContendersMembers(pending, reference, t, k);
      assert r !in Contenders(pending, reference, t, k);
    }
  }

  function WalletsOf(rows: seq<Row>): set<Wallet> {
    if rows == [] then {} else WalletsOf(rows[..|rows| - 1]) + {rows[|rows| - 1].wallet}
  }

  function DecisionFor(row: Row, reference: seq<Row>, t: Transition, picks: seq<Pick>): Decision {
    var group := Group(reference, BucketOf(row, reference));
    Decision(
      row.wallet in SelectedWallets(picks), Eligible(row, reference, t), Leads(row.wallet, reference, t.globalFraction),
      PlaceOf(row.wallet, Sorted(group)), |group|)
  }

  method PendingKeys(pending: seq<Row>, reference: seq<Row>) returns (keys: map<Wallet, BucketKey>)
    requires DistinctWallets(pending)
    ensures forall r | r in pending :: r.wallet in keys && keys[r.wallet] == BucketOf(r, reference)
  {
    var exact, source := Tally(reference);
    keys := map[];
    for i := 0 to |pending|
      invariant forall k | 0 <= k < i ::
                  pending[k].wallet in keys && keys[pending[k].wallet] == BucketOf(pending[k], reference)
    {
      TalliesFindTheBucket(pending[i], exact, source, reference);
      keys := keys[pending[i].wallet := ComparisonBucket(pending[i], exact, source)];
    }
  }

  lemma SameWalletSameRow(rows: seq<Row>, r: Row, r': Row)
    requires DistinctWallets(rows) && r in rows && r' in rows && r.wallet == r'.wallet
    ensures r == r'
  {
  }

  lemma OnlyEligibleArePicked(c: Candidates, pending: seq<Row>, reference: seq<Row>, t: Transition, a: Allocation)
    requires DistinctWallets(pending) && AreCandidates(c, pending, reference, t) && Sane(c, t, a)
    ensures |SelectedWallets(a.picks)| == |a.picks|
    ensures forall row | row in pending && row.wallet in SelectedWallets(a.picks) :: Eligible(row, reference, t)
  {
    forall i, j | 0 <= i < j < |a.picks| ensures a.picks[i].row.wallet != a.picks[j].row.wallet {
      var p, q := a.picks[i], a.picks[j];
      assert p in a.picks && q in a.picks && p != q;
      assert p.row in c[p.key] && q.row in c[q.key];
      if p.row.wallet == q.row.wallet {
        SameWalletSameRow(pending, p.row, q.row);
      }
    }
    SelectedAreThePicked(a.picks, 0);
    forall row | row in pending && row.wallet in SelectedWallets(a.picks) ensures Eligible(row, reference, t) {
      SelectedAreThePicked(a.picks, row.wallet);
      var p :| p in a.picks && p.row.wallet == row.wallet;
      assert p.row in c[p.key];
      SameWalletSameRow(pending, p.row, row);
    }
  }

  method DecideNone(pending: seq<Row>) returns (decisions: map<Wallet, Decision>)
    ensures decisions.Keys == WalletsOf(pending)
    ensures forall w | w in decisions :: decisions[w] == Decision(false, false, false, 0, 0)
  {
    decisions := map[];
    for i := 0 to |pending|
      invariant decisions.Keys == WalletsOf(pending[..i])
      invariant forall w | w in decisions :: decisions[w] == Decision(false, false, false, 0, 0)
    {
      assert pending[..i + 1][..i] == pending[..i];
      decisions := decisions[pending[i].wallet := Decision(false, false, false, 0, 0)];
    }
    assert pending[..|pending|] == pending;
  }

  method DecideEach(pending: seq<Row>, reference: seq<Row>, t: Transition, picks: seq<Pick>)
    returns (decisions: map<Wallet, Decision>)
    requires DistinctWallets(pending)
    ensures decisions.Keys == WalletsOf(pending)
    ensures forall r | r in pending ::
              r.wallet in decisions && decisions[r.wallet] == DecisionFor(r, reference, t, picks)
  {
    decisions := map[];
    for i := 0 to |pending|
      invariant decisions.Keys == WalletsOf(pending[..i])
      invariant forall k | 0 <= k < i ::
                  pending[k].wallet in decisions
                  && decisions[pending[k].wallet] == DecisionFor(pending[k], reference, t, picks)
    {
      assert pending[..i + 1][..i] == pending[..i];
      decisions := decisions[pending[i].wallet := DecisionFor(pending[i], reference, t, picks)];
    }
    assert pending[..|pending|] == pending;
  }

  /** Compare every pending wallet with the reference rows and allot the promotions. */
  method SelectRelative(pending: seq<Row>, reference: seq<Row>, t: Transition)
    returns (decisions: map<Wallet, Decision>, ghost c: Candidates, ghost a: Allocation)
    requires DistinctWallets(pending) && DistinctWallets(reference)
    ensures decisions.Keys == WalletsOf(pending)
    ensures Disabled(t) ==> forall w | w in decisions :: decisions[w] == Decision(false, false, false, 0, 0)
    ensures !Disabled(t) ==> AreCandidates(c, pending, reference, t) && Sane(c, t, a) && Fair(c, t, a)
    ensures !Disabled(t) && |a.picks| < t.maxPromotions ==> forall k | k in c :: Exhausted(c, t, a, k)
    ensures !Disabled(t) ==> |SelectedWallets(a.picks)| == |a.picks| <= t.maxPromotions
    ensures !Disabled(t) ==> forall r | r in pending ::
              r.wallet in decisions && decisions[r.wallet] == DecisionFor(r, reference, t, a.picks)
    ensures forall r | r in pending ::
              r.wallet in decisions && (decisions[r.wallet].selected ==> Eligible(r, reference, t))
  {
    c, a := map[], Allocation(map[], [], 0, {});
    if Disabled(t) {
      decisions := DecideNone(pending);
      forall r | r in pending ensures r.wallet in decisions {
        WalletsOfMembers(pending, r);
      }
      return;
    }
    var keys := PendingKeys(pending, reference);
    var candidates := CandidateBuckets(pending, reference, t, keys);
    var allocation := Allocate(candidates, t);
    c, a := candidates, allocation;
    OnlyEligibleArePicked(c, pending, reference, t, a);
    decisions := DecideEach(pending, reference, t, allocation.picks);
  }

  lemma {:induction false} WalletsOfMembers(rows: seq<Row>, r: Row)
    requires r in rows
    ensures r.wallet in WalletsOf(rows)
  {
    var init, last := rows[..|rows| - 1], rows[|rows| - 1];
    assert rows == init + [last];
    if r != last {
      WalletsOfMembers(init, r);
    }
  }
}
