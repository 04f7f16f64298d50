/** The streaming sample of one wallet's recent trades: it keeps the ten newest distinct trades of
    everything it was ever given. */
module RecentSample {
  import opened Terms

  /** A trade key contains its timestamp; `text` is the rank of the whole key in text order. */
  datatype TradeKey = TradeKey(timestamp: int, text: int)

  datatype Row = Row(wallet: Wallet, key: TradeKey, usdc: real, payload: int)

  /** The sort order of the sample: newest first, ties by key text. */
  predicate Newer(a: TradeKey, b: TradeKey) {
    a.timestamp > b.timestamp || (a.timestamp == b.timestamp && a.text > b.text)
  }

  predicate NewestFirst(rows: seq<Row>) {
    forall i, j | 0 <= i < j < |rows| :: Newer(rows[i].key, rows[j].key)
  }

  function Take(rows: seq<Row>, n: nat): seq<Row> {
    if |rows| <= n then rows else rows[..n]
  }

  predicate HasKey(rows: seq<Row>, key: TradeKey) {
    exists r :: r in rows && r.key == key
  }

  // ---------- Specification ----------

  /** Put a row in its place among distinct rows sorted newest first, replacing one of the same key. */
  function Insert(rows: seq<Row>, row: Row): seq<Row> {
    if rows == [] then [row]
    else if Newer(row.key, rows[0].key) then [row] + rows
    else if row.key == rows[0].key then [row] + rows[1..]
    else [rows[0]] + Insert(rows[1..], row)
  }

  lemma {:induction false} InsertAddsNothingElse(rows: seq<Row>, row: Row)
    ensures forall x | x in Insert(rows, row) :: x == row || x in rows
  {
    if rows != [] {
      InsertAddsNothingElse(rows[1..], row);
    }
  }

  lemma {:induction false} InsertKeepsOrder(rows: seq<Row>, row: Row)
    requires NewestFirst(rows)
    ensures NewestFirst(Insert(rows, row))
    ensures forall x :: x in Insert(rows, row) <==> x == row || (x in rows && x.key != row.key)
  {
    if rows != [] {
      assert rows == [rows[0]] + rows[1..];
      InsertKeepsOrder(rows[1..], row);
    }
  }

  function SortNewestFirst(rows: seq<Row>): (r: seq<Row>)
    ensures NewestFirst(r)
  {
    if rows == [] then []
    else
      var before, last := SortNewestFirst(rows[..|rows| - 1]), rows[|rows| - 1];
      InsertKeepsOrder(before, last);
      Insert(before, last)
  }

  /** The last row of the history with this key. */
  function LastRow(history: seq<Row>, key: TradeKey): Row
    requires HasKey(history, key)
  {
    var init, last := history[..|history| - 1], history[|history| - 1];
    if last.key == key then last
    else
      assert history == init + [last];
      assert forall r | r in history :: r == last || r in init;
      LastRow(init, key)
  }

  /** What streaming keeps after the whole history, one trimmed insertion at a time. */
  function Streamed(history: seq<Row>): seq<Row> {
    if history == [] then []
    else Take(Insert(Streamed(history[..|history| - 1]), history[|history| - 1]), RECENT_SAMPLE_TRADE_LIMIT)
  }

  // ---------- Streaming keeps the batch result ----------

  /** `all` is the history without repetition: every key once, newest first, with its last row. */
  ghost predicate IsBatch(all: seq<Row>, history: seq<Row>) {
    && NewestFirst(all)
    && (forall k :: HasKey(all, k) <==> HasKey(history, k))
    && (forall x | x in all :: HasKey(history, x.key) && x == LastRow(history, x.key))
  }

  lemma TakeCons(x: Row, rows: seq<Row>, n: nat)
    requires n > 0
    ensures Take([x] + rows, n) == [x] + Take(rows, n - 1)
  {
  }

  lemma {:induction false} TrimmedInsertIsInsertTrimmed(rows: seq<Row>, row: Row, n: nat)
    ensures Take(Insert(Take(rows, n), row), n) == Take(Insert(rows, row), n)
  {
    if 0 < n < |rows| {
      var trimmed := Take(rows, n);
      if Newer(row.key, rows[0].key) {
        TakeCons(row, rows, n);
        TakeCons(row, trimmed, n);
      } else if row.key == rows[0].key {
        TakeCons(row, rows[1..], n);
        TakeCons(row, trimmed[1..], n);
      } else {
        assert trimmed[1..] == Take(rows[1..], n - 1);
        TrimmedInsertIsInsertTrimmed(rows[1..], row, n - 1);
        TakeCons(rows[0], Insert(rows[1..], row), n);
        TakeCons(rows[0], Insert(trimmed[1..], row), n);
      }
    }
  }

  lemma {:induction false} SortIsBatch(history: seq<Row>)
    ensures IsBatch(SortNewestFirst(history), history)
  {
    if history != [] {
      var init, last := history[..|history| - 1], history[|history| - 1];
      var before, all := SortNewestFirst(init), SortNewestFirst(history);
      SortIsBatch(init);
      assert history == init + [last];
      assert all == Insert(before, last);
      InsertKeepsOrder(before, last);
      forall k ensures HasKey(all, k) <==> HasKey(history, k) {
        InsertedKeys(before, last, k);
        AppendedKeys(init, last, k);
      }
      forall x | x in all ensures HasKey(history, x.key) && x == LastRow(history, x.key) {
        AppendedKeys(init, last, x.key);
        if x.key == last.key {
          assert x == last;
        } else {
          assert x in before;
        }
      }
    }
  }

  lemma InsertedKeys(rows: seq<Row>, row: Row, k: TradeKey)
    requires NewestFirst(rows)
    ensures HasKey(Insert(rows, row), k) <==> HasKey(rows, k) || k == row.key
  {
    InsertKeepsOrder(rows, row);
    if HasKey(rows, k) && k != row.key {
      var r :| r in rows && r.key == k;
      assert r in Insert(rows, row);
    }
    assert row in Insert(rows, row);
  }

  lemma AppendedKeys(rows: seq<Row>, row: Row, k: TradeKey)
    ensures HasKey(rows + [row], k) <==> HasKey(rows, k) || k == row.key
  {
    assert row in rows + [row];
    if HasKey(rows, k) {
      var r :| r in rows && r.key == k;
      assert r in rows + [row];
    }
  }

  lemma {:induction false} StreamedIsTrimmedSort(history: seq<Row>)
    ensures Streamed(history) == Take(SortNewestFirst(history), RECENT_SAMPLE_TRADE_LIMIT)
  {
    if history != [] {
      var init, last := history[..|history| - 1], history[|history| - 1];
      StreamedIsTrimmedSort(init);
      TrimmedInsertIsInsertTrimmed(SortNewestFirst(init), last, RECENT_SAMPLE_TRADE_LIMIT);
    }
  }

  /** Streaming top ten is batch top ten: trimming after every trade loses nothing. */
  lemma StreamingKeepsTheNewest(history: seq<Row>)
    ensures exists all :: IsBatch(all, history) && Streamed(history) == Take(all, RECENT_SAMPLE_TRADE_LIMIT)
  {
    StreamedIsTrimmedSort(history);
    SortIsBatch(history);
  }

  /** Two lists sorted newest first with the same keys list them identically. */
  lemma {:induction false} SameKeysSameOrder(a: seq<Row>, b: seq<Row>)
    requires NewestFirst(a) && NewestFirst(b)
    requires forall k :: HasKey(a, k) <==> HasKey(b, k)
    ensures |a| == |b| && forall i | 0 <= i < |a| :: a[i].key == b[i].key
  {
    if a == [] {
      assert b != [] ==> HasKey(b, b[0].key);
    } else {
      assert HasKey(b, a[0].key) && HasKey(a, b[0].key) by {
        assert a[0] in a && HasKey(a, a[0].key);
        assert b != [];
        assert b[0] in b && HasKey(b, b[0].key);
      }
      assert a[0].key == b[0].key;
      forall k ensures HasKey(a[1..], k) <==> HasKey(b[1..], k) {
        KeysOfTail(a, k);
        KeysOfTail(b, k);
      }
      SameKeysSameOrder(a[1..], b[1..]);
    }
  }

  lemma KeysOfTail(rows: seq<Row>, k: TradeKey)
    requires NewestFirst(rows) && rows != []
    ensures HasKey(rows[1..], k) <==> HasKey(rows, k) && k != rows[0].key
  {
    assert rows == [rows[0]] + rows[1..];
    if HasKey(rows, k) && k != rows[0].key {
      var r :| r in rows && r.key == k;
      assert r in rows[1..];
    }
    if HasKey(rows[1..], k) {
      var r :| r in rows[1..] && r.key == k;
      assert r in rows;
    }
  }

  /** The keys kept do not depend on the order of arrival, nor on repetition. */
  lemma ArrivalOrderIsIrrelevant(h1: seq<Row>, h2: seq<Row>)
    requires forall k :: HasKey(h1, k) <==> HasKey(h2, k)
    ensures |Streamed(h1)| == |Streamed(h2)|
    ensures forall i | 0 <= i < |Streamed(h1)| :: Streamed(h1)[i].key == Streamed(h2)[i].key
  {
    StreamedIsTrimmedSort(h1);
    StreamedIsTrimmedSort(h2);
    SortIsBatch(h1);
    SortIsBatch(h2);
    SameKeysSameOrder(SortNewestFirst(h1), SortNewestFirst(h2));
  }

  // ---------- The sample object ----------

  lemma {:induction false} SortAlreadySorted(rows: seq<Row>)
    requires NewestFirst(rows)
    ensures SortNewestFirst(rows) == rows
  {
    if rows != [] {
      SortAlreadySorted(rows[..|rows| - 1]);
      InsertOldest(rows[..|rows| - 1], rows[|rows| - 1]);
    }
  }

  lemma {:induction false} InsertOldest(rows: seq<Row>, row: Row)
    requires forall x | x in rows :: Newer(x.key, row.key)
    ensures Insert(rows, row) == rows + [row]
  {
    if rows != [] {
      assert rows[0] in rows;
      InsertOldest(rows[1..], row);
    }
  }

  /** Replacing a row in place leaves the list sorted, and is what the insertion does. */
  lemma {:induction false} InsertReplaces(rows: seq<Row>, row: Row, i: nat)
    requires NewestFirst(rows) && i < |rows| && rows[i].key == row.key
    ensures NewestFirst(rows[i := row])
    ensures Insert(rows, row) == rows[i := row]
  {
    if i > 0 {
      InsertReplaces(rows[1..], row, i - 1);
      assert rows[i := row] == [rows[0]] + rows[1..][i - 1 := row];
    }
  }

  class WalletSample {
    /** `rows_by_key` in its order; the keys are those of the rows. */
    var rows: seq<Row>
    var updatedAt: real

    constructor (now: real)
      ensures Valid() && rows == [] && updatedAt == now
    {
      rows, updatedAt := [], now;
    }

    ghost predicate Valid()
      reads this
    {
      NewestFirst(rows) && |rows| <= RECENT_SAMPLE_TRADE_LIMIT
    }

    /** Record the row under its key, then keep the newest ten. */
    method Add(row: Row, now: real)
      requires Valid()
      modifies this
      ensures Valid() && updatedAt == now
      ensures rows == Take(Insert(old(rows), row), RECENT_SAMPLE_TRADE_LIMIT)
      ensures forall history :: old(rows) == Streamed(history) ==> rows == Streamed(history + [row])
    {
      var i := 0;
      while i < |rows| && rows[i].key != row.key
        invariant 0 <= i <= |rows|
        invariant rows == old(rows)
        invariant forall k | 0 <= k < i :: rows[k].key != row.key
      {
        i := i + 1;
      }
      if i < |rows| {
        InsertReplaces(rows, row, i);
        rows := rows[i := row];
        SortAlreadySorted(rows);
      } else {
        SortAlreadySorted(rows);
        assert (rows + [row])[..|rows|] == rows;
        rows := rows + [row];
      }
      updatedAt := now;
      rows := SortNewestFirst(rows);
      rows := Take(rows, RECENT_SAMPLE_TRADE_LIMIT);
      forall history | old(rows) == Streamed(history) ensures rows == Streamed(history + [row]) {
        assert (history + [row])[..|history|] == history;
      }
    }
  }
}
