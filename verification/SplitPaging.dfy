/** Paging one wallet's activity over a time range, splitting the range when the server's offset cap hides its
    older pages. The ledger does not change meanwhile. */
module SplitPaging {
  import opened Terms

  const MAX_ACTIVITY_LIMIT := 500
  const MAX_HISTORICAL_ACTIVITY_OFFSET := 5000
  const MAX_ACTIVITY_SPLIT_DEPTH := 24
  const MAX_ACTIVITY_ROWS := 10000
  /** What one range can yield: every page up to the offset cap. */
  const PAGED_ROWS := MAX_HISTORICAL_ACTIVITY_OFFSET + MAX_ACTIVITY_LIMIT

  datatype Row = Row(timestamp: int, id: nat)

  /** The rows of the range, in the server's order. */
  function Range(ledger: seq<Row>, start: int, end: int): seq<Row> {
    if ledger == [] then []
    else
      var rest := Range(ledger[1..], start, end);
      if start <= ledger[0].timestamp <= end then [ledger[0]] + rest else rest
  }

  /** One request: at most `MAX_ACTIVITY_LIMIT` rows of the range from `offset` on. */
  function Page(ledger: seq<Row>, start: int, end: int, offset: nat): seq<Row> {
    var rows := Range(ledger, start, end);
    var from := Min(offset, |rows|);
    rows[from..Min(from + MAX_ACTIVITY_LIMIT, |rows|)]
  }

  lemma {:induction false} RangeSplits(ledger: seq<Row>, start: int, mid: int, end: int)
    requires start <= mid < end
    ensures multiset(Range(ledger, start, end))
            == multiset(Range(ledger, start, mid)) + multiset(Range(ledger, mid + 1, end))
    ensures |Range(ledger, start, end)| == |Range(ledger, start, mid)| + |Range(ledger, mid + 1, end)|
  {
    if ledger != [] {
      RangeSplits(ledger[1..], start, mid, end);
    }
  }

  lemma RangeCounts(ledger: seq<Row>, start: int, mid: int, end: int)
    requires start <= mid < end
    ensures |Range(ledger, start, end)| == |Range(ledger, start, mid)| + |Range(ledger, mid + 1, end)|
  {
    RangeSplits(ledger, start, mid, end);
  }

  datatype Outcome = Complete | CapReached | OffsetCapReached

  /** How paging ends when the range holds `n` rows: the row cap is only looked at after a full page. */
  function PagingOutcome(n: nat, maxRows: int): Outcome {
    var fullPages := Min(n, PAGED_ROWS) / MAX_ACTIVITY_LIMIT * MAX_ACTIVITY_LIMIT;
    if 0 < fullPages && maxRows <= fullPages then CapReached
    else if n >= PAGED_ROWS then OffsetCapReached
    else Complete
  }

  /** A last, short page is cut at the cap but still reported complete, exactly when the cap falls inside it. */
  lemma TruncationReportedCompleteIff(n: nat, maxRows: int)
    requires 0 < maxRows
    ensures PagingOutcome(n, maxRows) == Complete && maxRows < n
            <==> n < PAGED_ROWS && n / MAX_ACTIVITY_LIMIT * MAX_ACTIVITY_LIMIT < maxRows < n
    ensures PagingOutcome(2, 1) == Complete
  {
    assert n < PAGED_ROWS ==> Min(n, PAGED_ROWS) == n;
  }

  /** How the page at `offset` ends the loop, if it does. */
  lemma PageEnds(n: nat, maxRows: int, offset: nat)
    requires offset % MAX_ACTIVITY_LIMIT == 0 && offset <= MAX_HISTORICAL_ACTIVITY_OFFSET
    requires offset <= n && offset < maxRows
    ensures n < offset + MAX_ACTIVITY_LIMIT ==> PagingOutcome(n, maxRows) == Complete
    ensures maxRows <= offset + MAX_ACTIVITY_LIMIT <= n ==> PagingOutcome(n, maxRows) == CapReached
    ensures offset == MAX_HISTORICAL_ACTIVITY_OFFSET && PAGED_ROWS < maxRows && PAGED_ROWS <= n ==>
              PagingOutcome(n, maxRows) == OffsetCapReached
  {
  }

  /** The rows gathered by the end of the page at `offset`. */
  lemma PageAdds(all: seq<Row>, offset: nat, end: nat, room: nat)
    requires offset <= end <= |all| && room <= end - offset
    ensures all[..offset] + all[offset..end][..room] == all[..offset + room]
  {
  }

  method FetchPages(ledger: seq<Row>, start: int, end: int, maxRows: int) returns (rows: seq<Row>, outcome: Outcome)
    requires 0 < maxRows
    ensures outcome == PagingOutcome(|Range(ledger, start, end)|, maxRows)
    ensures
      var all := Range(ledger, start, end);
      rows == all[..Min(Min(|all|, maxRows), PAGED_ROWS)]
  {
    rows := [];
    var offset := 0;
    ghost var all := Range(ledger, start, end);
    while offset <= MAX_HISTORICAL_ACTIVITY_OFFSET
      invariant 0 <= offset <= |all| && offset % MAX_ACTIVITY_LIMIT == 0 && offset <= MAX_HISTORICAL_ACTIVITY_OFFSET
      invariant rows == all[..offset] && offset < maxRows
      decreases MAX_HISTORICAL_ACTIVITY_OFFSET - offset
    {
      var batch := Page(ledger, start, end, offset);
      var room := Min(maxRows - |rows|, |batch|);
      PageEnds(|all|, maxRows, offset);
      PageAdds(all, offset, offset + |batch|, room);
      rows := rows + batch[..room];
      if |batch| < MAX_ACTIVITY_LIMIT {
        return rows, Complete;
      }
      if |rows| >= maxRows {
        return rows, CapReached;
      }
      if offset == MAX_HISTORICAL_ACTIVITY_OFFSET {
        return rows, OffsetCapReached;
      }
      offset := offset + MAX_ACTIVITY_LIMIT;
    }
    assert false;
  }

  /** How long a range is after `halvings` splits, at most. */
  function LeafSize(size: nat, halvings: nat): nat {
    if halvings == 0 then size else LeafSize((size + 1) / 2, halvings - 1)
  }

  lemma {:induction false} LeafSizeGrows(a: nat, b: nat, halvings: nat)
    requires a <= b
    ensures LeafSize(a, halvings) <= LeafSize(b, halvings)
  {
    if halvings > 0 {
      LeafSizeGrows((a + 1) / 2, (b + 1) / 2, halvings - 1);
    }
  }

  /** No stretch of `size` seconds inside the range overflows the pages. */
  ghost predicate Sparse(ledger: seq<Row>, start: int, end: int, size: nat) {
    forall a, b | start <= a <= b <= end && b - a < size :: |Range(ledger, a, b)| < PAGED_ROWS
  }

  lemma SparserRange(ledger: seq<Row>, start: int, end: int, size: nat, a: int, b: int, size': nat)
    requires Sparse(ledger, start, end, size) && start <= a && b <= end && size' <= size
    ensures Sparse(ledger, a, b, size')
  {
  }

  /** Every row of the range came back, each as often as it is there. */
  ghost predicate IsExact(rows: seq<Row>, ledger: seq<Row>, start: int, end: int) {
    multiset(rows) == multiset(Range(ledger, start, end))
  }

  lemma PrefixIsSubMultiset(rows: seq<Row>, k: nat)
    requires k <= |rows|
    ensures multiset(rows[..k]) <= multiset(rows)
    ensures multiset(rows[..k]) == multiset(rows) <==> k == |rows|
  {
    assert rows == rows[..k] + rows[k..];
    assert |multiset(rows[..k])| == k && |multiset(rows)| == |rows|;
    if k == |rows| {
      assert rows[..k] == rows;
    }
  }

  /** Rows of the range, no more than asked for; a complete answer is exact unless it was cut at `maxRows`. */
  ghost predicate Answers(rows: seq<Row>, complete: bool, ledger: seq<Row>, start: int, end: int, maxRows: int) {
    && |rows| <= Max(0, maxRows)
    && multiset(rows) <= multiset(Range(ledger, start, end))
    && (complete ==> (IsExact(rows, ledger, start, end) <==> |Range(ledger, start, end)| <= maxRows))
    && (complete && |rows| < maxRows ==> IsExact(rows, ledger, start, end))
  }

  /** Halving often enough leaves only stretches that the pages can hold. */
  ghost predicate Splittable(ledger: seq<Row>, start: int, end: int, halvings: nat) {
    start <= end && Sparse(ledger, start, end, LeafSize(end - start + 1, halvings))
  }

  function Midpoint(start: int, end: int): int {
    start + (end - start) / 2
  }

  lemma HalvesAreSplittable(ledger: seq<Row>, start: int, end: int, halvings: nat)
    requires start < end && Splittable(ledger, start, end, halvings + 1)
    ensures Splittable(ledger, start, Midpoint(start, end), halvings)
    ensures Splittable(ledger, Midpoint(start, end) + 1, end, halvings)
  {
    var mid, half := Midpoint(start, end), (end - start + 2) / 2;
    LeafSizeGrows(mid - start + 1, half, halvings);
    LeafSizeGrows(end - mid, half, halvings);
    SparserRange(ledger, start, end, LeafSize(half, halvings), start, mid, LeafSize(mid - start + 1, halvings));
    SparserRange(ledger, start, end, LeafSize(half, halvings), mid + 1, end, LeafSize(end - mid, halvings));
  }

  lemma {:induction false} LeafSizeOfOne(halvings: nat)
    ensures LeafSize(1, halvings) == 1
  {
    if halvings > 0 {
      LeafSizeOfOne(halvings - 1);
    }
  }

  lemma UnsplittableFits(ledger: seq<Row>, start: int, end: int, halvings: nat)
    requires Splittable(ledger, start, end, halvings) && (start >= end || halvings == 0)
    ensures |Range(ledger, start, end)| < PAGED_ROWS
  {
    LeafSizeOfOne(halvings);
    assert end - start < LeafSize(end - start + 1, halvings);
  }

  /** A range that holds more than the pages can and may still be halved. */
  predicate Splits(ledger: seq<Row>, start: int, end: int, depth: nat) {
    |Range(ledger, start, end)| >= PAGED_ROWS && start < end && depth < MAX_ACTIVITY_SPLIT_DEPTH
  }

  ghost predicate IsOfTheRange(rows: seq<Row>, ledger: seq<Row>, start: int, end: int) {
    multiset(rows) <= multiset(Range(ledger, start, end))
  }

  lemma HalvesStayInside(left: seq<Row>, right: seq<Row>, ledger: seq<Row>, start: int, mid: int, end: int)
    requires start <= mid < end
    requires IsOfTheRange(left, ledger, start, mid) && IsOfTheRange(right, ledger, mid + 1, end)
    ensures IsOfTheRange(left + right, ledger, start, end)
  {
    RangeSplits(ledger, start, mid, end);
  }

  lemma HalvesAreExact(left: seq<Row>, right: seq<Row>, ledger: seq<Row>, start: int, mid: int, end: int)
    requires start <= mid < end
    requires IsExact(left, ledger, start, mid) && IsExact(right, ledger, mid + 1, end)
    ensures IsExact(left + right, ledger, start, end)
    ensures |Range(ledger, start, end)| == |Range(ledger, start, mid)| + |Range(ledger, mid + 1, end)|
  {
    RangeSplits(ledger, start, mid, end);
  }

  /** The rows of the range, each part's in the server's order and the parts from the oldest on. */
  function Gathered(ledger: seq<Row>, start: int, end: int, depth: nat): (rows: seq<Row>)
    ensures IsExact(rows, ledger, start, end) && |rows| == |Range(ledger, start, end)|
    decreases MAX_ACTIVITY_SPLIT_DEPTH - depth
  {
    if Splits(ledger, start, end, depth) then
      var midpoint := Midpoint(start, end);
      var left, right :=
        Gathered(ledger, start, midpoint, depth + 1), Gathered(ledger, midpoint + 1, end, depth + 1);
      HalvesAreExact(left, right, ledger, start, midpoint, end);
      left + right
    else Range(ledger, start, end)
  }

  /** The parts that halving makes of a range: whether each fits the pages; how many of its rows the pages reach;
      and how many rows an answer can miss without admitting it, which is fewer than the rows on the last page of the
      last part, unless a range that was split on the way there is hardly larger than the pages. */
  datatype Parts = Parts(fit: bool, reachable: nat, blind: int)

  function PartsOf(ledger: seq<Row>, start: int, end: int, depth: nat): (parts: Parts)
    ensures
      var n := |Range(ledger, start, end)|;
      && 0 <= parts.blind < MAX_ACTIVITY_LIMIT && parts.blind <= n
      && Min(n, PAGED_ROWS) <= parts.reachable <= n && (parts.fit ==> parts.reachable == n)
    decreases MAX_ACTIVITY_SPLIT_DEPTH - depth
  {
    var n := |Range(ledger, start, end)|;
    if Splits(ledger, start, end, depth) then
      var mid := Midpoint(start, end);
      RangeCounts(ledger, start, mid, end);
      JoinedParts(n, PartsOf(ledger, start, mid, depth + 1), PartsOf(ledger, mid + 1, end, depth + 1))
    else Parts(n < PAGED_ROWS, Min(n, PAGED_ROWS), n % MAX_ACTIVITY_LIMIT)
  }

  function JoinedParts(n: nat, left: Parts, right: Parts): Parts {
    Parts(left.fit && right.fit, left.reachable + right.reachable, Min(n - PAGED_ROWS, right.blind))
  }

  /** When an answer calls itself complete - every part fits and fewer rows are missing than it would notice -
      and how many rows it has. */
  predicate IsCounted(complete: bool, got: nat, n: nat, parts: Parts, maxRows: int) {
    && (complete <==> parts.fit && n - maxRows < parts.blind)
    && got == Min(Max(0, maxRows), parts.reachable)
  }

  predicate Counted(rows: seq<Row>, complete: bool, ledger: seq<Row>, start: int, end: int, maxRows: int, depth: nat) {
    IsCounted(
      complete, |rows|, |Range(ledger, start, end)|, PartsOf(ledger, start, end, depth), maxRows)
  }

  /** A complete answer is the first `maxRows` rows as gathered; any answer has rows of the range only. */
  ghost predicate Ordered(rows: seq<Row>, complete: bool, ledger: seq<Row>, start: int, end: int, maxRows: int,
                          depth: nat)
  {
    && IsOfTheRange(rows, ledger, start, end)
    && (complete && 0 <= maxRows ==>
        rows == Gathered(ledger, start, end, depth)[..Min(|Range(ledger, start, end)|, maxRows)])
  }

  lemma PageCompleteIff(n: nat, maxRows: int)
    requires 0 < maxRows
    ensures PagingOutcome(n, maxRows) == Complete <==> n < PAGED_ROWS && n - maxRows < n % MAX_ACTIVITY_LIMIT
  {
    assert n < PAGED_ROWS ==> Min(n, PAGED_ROWS) == n;
  }

  lemma PagesAreCounted(rows: seq<Row>, complete: bool, ledger: seq<Row>, start: int, end: int, maxRows: int,
                        depth: nat)
    requires 0 < maxRows && (Splits(ledger, start, end, depth) ==> maxRows <= PAGED_ROWS)
    requires
      var all := Range(ledger, start, end);
      && rows == all[..Min(Min(|all|, maxRows), PAGED_ROWS)]
      && (complete <==> PagingOutcome(|all|, maxRows) == Complete)
    ensures Counted(rows, complete, ledger, start, end, maxRows, depth)
  {
    PageCompleteIff(|Range(ledger, start, end)|, maxRows);
  }

  lemma PagesAreOrdered(rows: seq<Row>, complete: bool, ledger: seq<Row>, start: int, end: int, maxRows: int,
                        depth: nat)
    requires 0 < maxRows
    requires
      var all := Range(ledger, start, end);
      && rows == all[..Min(Min(|all|, maxRows), PAGED_ROWS)]
      && (complete ==> |all| < PAGED_ROWS)
    ensures Ordered(rows, complete, ledger, start, end, maxRows, depth)
  {
    PrefixIsSubMultiset(Range(ledger, start, end), |rows|);
  }

  /** The counts of two halves answered one after the other. */
  lemma JoinedCounts(n: nat, m: nat, left: Parts, right: Parts, complete: bool, got: nat, complete': bool, got': nat,
                     maxRows: int)
    requires PAGED_ROWS < maxRows && got < maxRows && 0 <= left.blind && 0 <= right.blind <= m
    requires left.reachable <= n && right.reachable <= m && (left.fit ==> left.reachable == n)
    requires IsCounted(complete, got, n, left, maxRows) && IsCounted(complete', got', m, right, maxRows - got)
    ensures IsCounted(complete && complete', got + got', n + m, JoinedParts(n + m, left, right), maxRows)
  {
  }

  /** The left half alone has used up what was asked for. */
  lemma CutCounts(n: nat, m: nat, left: Parts, right: Parts, complete: bool, got: nat, maxRows: int)
    requires PAGED_ROWS < maxRows <= got && right.blind <= m && left.reachable <= n
    requires IsCounted(complete, got, n, left, maxRows)
    ensures IsCounted(false, got, n + m, JoinedParts(n + m, left, right), maxRows)
  {
  }

  lemma OfHalves(ledger: seq<Row>, start: int, end: int, depth: nat) returns (left: Parts, right: Parts)
    requires Splits(ledger, start, end, depth)
    ensures left == PartsOf(ledger, start, Midpoint(start, end), depth + 1)
    ensures right == PartsOf(ledger, Midpoint(start, end) + 1, end, depth + 1)
    ensures PartsOf(ledger, start, end, depth) == JoinedParts(|Range(ledger, start, end)|, left, right)
    ensures |Range(ledger, start, end)|
         == |Range(ledger, start, Midpoint(start, end))| + |Range(ledger, Midpoint(start, end) + 1, end)|
  {
    left := PartsOf(ledger, start, Midpoint(start, end), depth + 1);
    right := PartsOf(ledger, Midpoint(start, end) + 1, end, depth + 1);
    RangeCounts(ledger, start, Midpoint(start, end), end);
  }

  lemma JoinedAreCounted(left: seq<Row>, leftComplete: bool, right: seq<Row>, rightComplete: bool, ledger: seq<Row>,
                         start: int, end: int, maxRows: int, depth: nat)
    requires Splits(ledger, start, end, depth) && PAGED_ROWS < maxRows && |left| < maxRows
    requires Counted(left, leftComplete, ledger, start, Midpoint(start, end), maxRows, depth + 1)
    requires Counted(right, rightComplete, ledger, Midpoint(start, end) + 1, end, maxRows - |left|, depth + 1)
    ensures Counted(left + right, leftComplete && rightComplete, ledger, start, end, maxRows, depth)
  {
    var mid := Midpoint(start, end);
    var l, r := OfHalves(ledger, start, end, depth);
    JoinedCounts(
      |Range(ledger, start, mid)|, |Range(ledger, mid + 1, end)|, l, r,
      leftComplete, |left|, rightComplete, |right|, maxRows);
  }

  lemma CutOnTheLeft(left: seq<Row>, leftComplete: bool, ledger: seq<Row>, start: int, end: int, maxRows: int,
                     depth: nat)
    requires Splits(ledger, start, end, depth) && PAGED_ROWS < maxRows <= |left|
    requires Counted(left, leftComplete, ledger, start, Midpoint(start, end), maxRows, depth + 1)
    ensures Counted(left, false, ledger, start, end, maxRows, depth)
  {
    var mid := Midpoint(start, end);
    var l, r := OfHalves(ledger, start, end, depth);
    CutCounts(
      |Range(ledger, start, mid)|, |Range(ledger, mid + 1, end)|, l, r, leftComplete, |left|, maxRows);
  }

  lemma LeftIsOrdered(left: seq<Row>, ledger: seq<Row>, start: int, end: int, maxRows: int, depth: nat)
    requires start < end && IsOfTheRange(left, ledger, start, Midpoint(start, end))
    ensures Ordered(left, false, ledger, start, end, maxRows, depth)
  {
    HalvesStayInside(left, [], ledger, start, Midpoint(start, end), end);
    assert left + [] == left;
  }

  lemma JoinedAreOrdered(left: seq<Row>, leftComplete: bool, right: seq<Row>, rightComplete: bool, ledger: seq<Row>,
                         start: int, end: int, maxRows: int, depth: nat)
    requires Splits(ledger, start, end, depth) && 0 < maxRows && |left| < maxRows
    requires Ordered(left, leftComplete, ledger, start, Midpoint(start, end), maxRows, depth + 1)
    requires Ordered(right, rightComplete, ledger, Midpoint(start, end) + 1, end, maxRows - |left|, depth + 1)
    ensures Ordered(left + right, leftComplete && rightComplete, ledger, start, end, maxRows, depth)
  {
    var mid := Midpoint(start, end);
    RangeCounts(ledger, start, mid, end);
    HalvesStayInside(left, right, ledger, start, mid, end);
    JoinedRows(
      left, right, Gathered(ledger, start, mid, depth + 1), Gathered(ledger, mid + 1, end, depth + 1), maxRows);
  }

  lemma JoinedRows(left: seq<Row>, right: seq<Row>, l: seq<Row>, r: seq<Row>, maxRows: int)
    requires 0 < maxRows && |left| < maxRows
    ensures left == l[..Min(|l|, maxRows)] && right == r[..Min(|r|, maxRows - |left|)] ==>
              left + right == (l + r)[..Min(|l + r|, maxRows)]
  {
  }

  lemma {:induction false} SplittableFits(ledger: seq<Row>, start: int, end: int, depth: nat)
    requires depth <= MAX_ACTIVITY_SPLIT_DEPTH && Splittable(ledger, start, end, MAX_ACTIVITY_SPLIT_DEPTH - depth)
    ensures PartsOf(ledger, start, end, depth).fit
    decreases MAX_ACTIVITY_SPLIT_DEPTH - depth
  {
    if Splits(ledger, start, end, depth) {
      HalvesAreSplittable(ledger, start, end, MAX_ACTIVITY_SPLIT_DEPTH - depth - 1);
      SplittableFits(ledger, start, Midpoint(start, end), depth + 1);
      SplittableFits(ledger, Midpoint(start, end) + 1, end, depth + 1);
    } else if start >= end || depth == MAX_ACTIVITY_SPLIT_DEPTH {
      UnsplittableFits(ledger, start, end, MAX_ACTIVITY_SPLIT_DEPTH - depth);
    }
  }

  lemma FactsOfAnswers(rows: seq<Row>, complete: bool, ledger: seq<Row>, start: int, end: int, maxRows: int, depth: nat)
    requires depth <= MAX_ACTIVITY_SPLIT_DEPTH
    requires Counted(rows, complete, ledger, start, end, maxRows, depth)
             && Ordered(rows, complete, ledger, start, end, maxRows, depth)
    ensures Answers(rows, complete, ledger, start, end, maxRows)
    ensures |Range(ledger, start, end)| < maxRows && Splittable(ledger, start, end, MAX_ACTIVITY_SPLIT_DEPTH - depth)
            ==> complete && IsExact(rows, ledger, start, end)
    ensures maxRows <= 0 ==> !complete
  {
    PrefixIsSubMultiset(Gathered(ledger, start, end, depth), Min(|Range(ledger, start, end)|, Max(0, maxRows)));
    if Splittable(ledger, start, end, MAX_ACTIVITY_SPLIT_DEPTH - depth) {
      SplittableFits(ledger, start, end, depth);
    }
  }

  /** An answer calls itself complete and is not exactly when every part fits and rows are missing, but fewer
      than it would notice - so fewer than a page. */
  lemma CutButCompleteIff(rows: seq<Row>, complete: bool, ledger: seq<Row>, start: int, end: int, maxRows: int,
                          depth: nat)
    requires depth <= MAX_ACTIVITY_SPLIT_DEPTH
    requires Counted(rows, complete, ledger, start, end, maxRows, depth)
             && Ordered(rows, complete, ledger, start, end, maxRows, depth)
    ensures
      var missing := |Range(ledger, start, end)| - maxRows;
      && (complete && !IsExact(rows, ledger, start, end)
          <==> PartsOf(ledger, start, end, depth).fit && 0 < missing < PartsOf(ledger, start, end, depth).blind)
      && (complete ==> missing < MAX_ACTIVITY_LIMIT)
  {
    FactsOfAnswers(rows, complete, ledger, start, end, maxRows, depth);
  }

  /** `n` rows of one second. */
  function Burst(timestamp: int, n: nat): seq<Row> {
    if n == 0 then [] else [Row(timestamp, n)] + Burst(timestamp, n - 1)
  }

  lemma RangeOfOneMore(row: Row, rest: seq<Row>, start: int, end: int)
    ensures |Range([row] + rest, start, end)|
         == (if start <= row.timestamp <= end then 1 else 0) + |Range(rest, start, end)|
  {
    assert ([row] + rest)[1..] == rest;
  }

  lemma {:induction false} RangeOfBurst(timestamp: int, n: nat, rest: seq<Row>, start: int, end: int)
    ensures |Range(Burst(timestamp, n) + rest, start, end)|
         == (if start <= timestamp <= end then n else 0) + |Range(rest, start, end)|
  {
    if n == 0 {
      assert Burst(timestamp, n) + rest == rest;
    } else {
      var more := Burst(timestamp, n - 1) + rest;
      assert Burst(timestamp, n) + rest == [Row(timestamp, n)] + more;
      RangeOfOneMore(Row(timestamp, n), more, start, end);
      RangeOfBurst(timestamp, n - 1, rest, start, end);
    }
  }

  lemma BurstsInRange(start: int, end: int)
    ensures |Range(Burst(1, 4900) + (Burst(0, 5400) + []), start, end)|
         == (if start <= 1 <= end then 4900 else 0) + (if start <= 0 <= end then 5400 else 0)
  {
    RangeOfBurst(1, 4900, Burst(0, 5400) + [], start, end);
    RangeOfBurst(0, 5400, [], start, end);
  }

  lemma CutWindow(ledger: seq<Row>, rows: seq<Row>, complete: bool)
    requires |Range(ledger, 0, 0)| == 5400 && |Range(ledger, 1, 1)| == 4900
    requires Counted(rows, complete, ledger, 0, 1, MAX_ACTIVITY_ROWS, 0)
    ensures complete && |rows| == 10000 && |Range(ledger, 0, 1)| == 10300
  {
    RangeCounts(ledger, 0, 0, 1);
    assert Midpoint(0, 1) == 0 && Splits(ledger, 0, 1, 0);
    var left, right := OfHalves(ledger, 0, 1, 0);
    assert left == Parts(true, 5400, 400) && right == Parts(true, 4900, 400);
  }

  /** 5400 rows of one second and 4900 of the next: 300 rows of the window do not come back, and the answer
      calls itself complete. */
  lemma CutWindowReportedComplete(rows: seq<Row>, complete: bool)
    requires
      var ledger := Burst(1, 4900) + (Burst(0, 5400) + []);
      Counted(rows, complete, ledger, 0, 1, MAX_ACTIVITY_ROWS, 0)
          && Ordered(rows, complete, ledger, 0, 1, MAX_ACTIVITY_ROWS, 0)
    ensures
      var ledger := Burst(1, 4900) + (Burst(0, 5400) + []);
      && complete && !IsExact(rows, ledger, 0, 1)
      && |rows| == 10000 && |Range(ledger, 0, 1)| == 10300
  {
    var ledger := Burst(1, 4900) + (Burst(0, 5400) + []);
    BurstsInRange(0, 0);
    BurstsInRange(1, 1);
    CutWindow(ledger, rows, complete);
    ExactCount(rows, ledger, 0, 1);
  }

  lemma ExactCount(rows: seq<Row>, ledger: seq<Row>, start: int, end: int)
    ensures IsExact(rows, ledger, start, end) ==> |rows| == |Range(ledger, start, end)|
  {
    assert |multiset(rows)| == |rows| && |multiset(Range(ledger, start, end))| == |Range(ledger, start, end)|;
  }

  /** Paging answers by itself unless it stopped at the offset cap and the range may be halved. */
  lemma PagesOrHalves(ledger: seq<Row>, start: int, end: int, maxRows: int, depth: nat, outcome: Outcome)
    requires 0 < maxRows && depth <= MAX_ACTIVITY_SPLIT_DEPTH
    requires outcome == PagingOutcome(|Range(ledger, start, end)|, maxRows)
    ensures outcome == OffsetCapReached && start < end && depth < MAX_ACTIVITY_SPLIT_DEPTH
            <==> Splits(ledger, start, end, depth) && PAGED_ROWS < maxRows
    ensures outcome == Complete ==> |Range(ledger, start, end)| < PAGED_ROWS
  {
  }

  lemma NothingAsked(ledger: seq<Row>, start: int, end: int, maxRows: int, depth: nat)
    requires maxRows <= 0
    ensures Counted([], false, ledger, start, end, maxRows, depth)
    ensures Ordered([], false, ledger, start, end, maxRows, depth)
  {
  }

  /** Page one range, splitting it before the offset cap. */
  method FetchParts(ledger: seq<Row>, start: int, end: int, maxRows: int, depth: nat)
    returns (rows: seq<Row>, complete: bool)
    requires depth <= MAX_ACTIVITY_SPLIT_DEPTH
    ensures Counted(rows, complete, ledger, start, end, maxRows, depth)
    ensures Ordered(rows, complete, ledger, start, end, maxRows, depth)
    decreases MAX_ACTIVITY_SPLIT_DEPTH - depth, 1
  {
    if maxRows <= 0 {
      NothingAsked(ledger, start, end, maxRows, depth);
      return [], false;
    }
    var outcome;
    rows, outcome := FetchPages(ledger, start, end, maxRows);
    PagesOrHalves(ledger, start, end, maxRows, depth, outcome);
    if outcome != OffsetCapReached || start >= end || depth >= MAX_ACTIVITY_SPLIT_DEPTH {
      complete := outcome == Complete;
      PagesAreCounted(rows, complete, ledger, start, end, maxRows, depth);
      PagesAreOrdered(rows, complete, ledger, start, end, maxRows, depth);
    } else {
      rows, complete := FetchHalves(ledger, start, end, maxRows, depth);
    }
  }

  method FetchHalves(ledger: seq<Row>, start: int, end: int, maxRows: int, depth: nat)
    returns (rows: seq<Row>, complete: bool)
    requires Splits(ledger, start, end, depth) && PAGED_ROWS < maxRows
    ensures Counted(rows, complete, ledger, start, end, maxRows, depth)
    ensures Ordered(rows, complete, ledger, start, end, maxRows, depth)
    decreases MAX_ACTIVITY_SPLIT_DEPTH - depth, 0
  {
    var midpoint := Midpoint(start, end);
    var left, leftComplete := FetchParts(ledger, start, midpoint, maxRows, depth + 1);
    if |left| >= maxRows {
      CutOnTheLeft(left, leftComplete, ledger, start, end, maxRows, depth);
      LeftIsOrdered(left, ledger, start, end, maxRows, depth);
      return left, false;
    }
    var right, rightComplete := FetchParts(ledger, midpoint + 1, end, maxRows - |left|, depth + 1);
    JoinedAreCounted(left, leftComplete, right, rightComplete, ledger, start, end, maxRows, depth);
    JoinedAreOrdered(left, leftComplete, right, rightComplete, ledger, start, end, maxRows, depth);
    return left + right, leftComplete && rightComplete;
  }

  /** The answer for one range. A range of fewer rows than asked for that splits into stretches the pages can hold
      is always answered completely. */
  method FetchRange(ledger: seq<Row>, start: int, end: int, maxRows: int, depth: nat)
    returns (rows: seq<Row>, complete: bool)
    requires depth <= MAX_ACTIVITY_SPLIT_DEPTH
    ensures Counted(rows, complete, ledger, start, end, maxRows, depth)
    ensures Ordered(rows, complete, ledger, start, end, maxRows, depth)
    ensures Answers(rows, complete, ledger, start, end, maxRows)
    ensures |Range(ledger, start, end)| < maxRows && Splittable(ledger, start, end, MAX_ACTIVITY_SPLIT_DEPTH - depth)
            ==> complete && IsExact(rows, ledger, start, end)
    ensures maxRows <= 0 ==> !complete
  {
    rows, complete := FetchParts(ledger, start, end, maxRows, depth);
    FactsOfAnswers(rows, complete, ledger, start, end, maxRows, depth);
  }

  lemma {:induction false} EmptyRange(ledger: seq<Row>, start: int, end: int)
    requires end < start
    ensures Range(ledger, start, end) == []
  {
    if ledger != [] {
      EmptyRange(ledger[1..], start, end);
    }
  }

  /** The whole window. What comes back as complete and is not: a window whose parts all fit, a little over the
      row cap. */
  method FetchWindow(ledger: seq<Row>, start: int, end: int) returns (rows: seq<Row>, complete: bool)
    ensures Counted(rows, complete, ledger, start, end, MAX_ACTIVITY_ROWS, 0)
    ensures Ordered(rows, complete, ledger, start, end, MAX_ACTIVITY_ROWS, 0)
    ensures Answers(rows, complete, ledger, start, end, MAX_ACTIVITY_ROWS)
    ensures complete && !IsExact(rows, ledger, start, end)
            <==> PartsOf(ledger, start, end, 0).fit
                 && 0 < |Range(ledger, start, end)| - MAX_ACTIVITY_ROWS < PartsOf(ledger, start, end, 0).blind
    ensures |Range(ledger, start, end)| < MAX_ACTIVITY_ROWS && Splittable(ledger, start, end, MAX_ACTIVITY_SPLIT_DEPTH)
            ==> complete && IsExact(rows, ledger, start, end)
  {
    if end < start {
      EmptyRange(ledger, start, end);
      rows, complete := [], true;
    } else {
      rows, complete := FetchRange(ledger, start, end, MAX_ACTIVITY_ROWS, 0);
    }
    CutButCompleteIff(rows, complete, ledger, start, end, MAX_ACTIVITY_ROWS, 0);
    FactsOfAnswers(rows, complete, ledger, start, end, MAX_ACTIVITY_ROWS, 0);
  }
}
