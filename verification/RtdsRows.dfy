/** Samples of the real-time stream as values: whose rows a list holds, what a sample becomes when a batch is
    absorbed, and when a sample qualifies for the database. */
module RtdsRows {
  import opened Terms
  import opened RecentSample

  /** A buffered sample; `place` orders the keys of the `OrderedDict` by insertion. */
  datatype Sample = Sample(rows: seq<Row>, place: nat)

  /** A wallet's stored observation; `trades` lists the amounts of its distinct recent trades. */
  datatype Observed = Observed(total: real, trades: seq<(TradeKey, real)>, updatedAt: int)

  /** What the candidate and observation tables say about the wallets asked for. */
  datatype Snapshot = Snapshot(candidates: map<Wallet, int>, observed: map<Wallet, Observed>)

  // ---------- Qualification ----------

  function Volume(rows: seq<Row>): real {
    if rows == [] then 0.0 else rows[0].usdc + Volume(rows[1..])
  }

  function UnsampledTotal(trades: seq<(TradeKey, real)>, rows: seq<Row>): real {
    if trades == [] then 0.0
    else (if HasKey(rows, trades[0].0) then 0.0 else trades[0].1) + UnsampledTotal(trades[1..], rows)
  }

  /** The stored volume that the sample does not already count. */
  function NonDuplicateTotal(observed: Observed, rows: seq<Row>): real {
    if forall t | t in observed.trades :: !HasKey(rows, t.0) then observed.total
    else UnsampledTotal(observed.trades, rows)
  }

  predicate ReachesGate(db: Snapshot, w: Wallet, rows: seq<Row>) {
    Volume(rows) + (if w in db.observed then NonDuplicateTotal(db.observed[w], rows) else 0.0)
    >= RECENT_SAMPLE_VOLUME_GATE_USDC
  }

  predicate PersistedIdentity(db: Snapshot, w: Wallet) {
    w in db.candidates || w in db.observed
  }

  function DbUpdatedAt(db: Snapshot, w: Wallet): int {
    Max(if w in db.candidates then db.candidates[w] else 0, if w in db.observed then db.observed[w].updatedAt else 0)
  }

  /** When a wallet was last persisted, as this process knows it after asking the database once. */
  function LastPersisted(known: Option<real>, cooldown: real, now: real, dbUpdatedAt: int, wall: real): Option<real> {
    if known.None? && dbUpdatedAt > 0 && cooldown > 0.0 && wall - dbUpdatedAt as real < cooldown
    then Some(now - MaxR(0.0, wall - dbUpdatedAt as real))
    else known
  }

  predicate CoolingDown(last: Option<real>, cooldown: real, now: real) {
    last.Some? && cooldown > 0.0 && now - last.value < cooldown
  }

  /** The wallet goes to the database now: it already qualified, or its volume reaches the gate for the
      first time, or it is known there and its cooldown is over. */
  predicate Qualifies(
    db: Snapshot, w: Wallet, rows: seq<Row>, pending: bool, known: Option<real>, cooldown: real, now: real, wall: real)
  {
    || pending
    || (ReachesGate(db, w, rows) && w !in db.candidates)
    || (PersistedIdentity(db, w)
        && !CoolingDown(LastPersisted(known, cooldown, now, DbUpdatedAt(db, w), wall), cooldown, now))
  }

  // ---------- Rows and samples ----------

  function WalletsOf(rows: seq<Row>): set<Wallet> {
    if rows == [] then {} else WalletsOf(rows[..|rows| - 1]) + {rows[|rows| - 1].wallet}
  }

  lemma {:induction false} WalletsOfMembers(rows: seq<Row>, w: Wallet)
    ensures w in WalletsOf(rows) <==> exists r :: r in rows && r.wallet == w
  {
    if rows != [] {
      var init, last := rows[..|rows| - 1], rows[|rows| - 1];
      assert rows == init + [last];
      WalletsOfMembers(init, w);
      assert last in rows;
      if w in WalletsOf(init) {
        var r :| r in init && r.wallet == w;
        assert r in rows;
      }
    }
  }

  function WithRow(sample: seq<Row>, row: Row): seq<Row> {
    Take(Insert(sample, row), RECENT_SAMPLE_TRADE_LIMIT)
  }

  /** A wallet's sample after the rows of a batch that belong to it. */
  function Absorb(sample: seq<Row>, batch: seq<Row>, w: Wallet): seq<Row> {
    if batch == [] then sample
    else
      var before, last := Absorb(sample, batch[..|batch| - 1], w), batch[|batch| - 1];
      if last.wallet == w then WithRow(before, last) else before
  }

  ghost predicate OwnRows(w: Wallet, rows: seq<Row>) {
    rows != [] && forall r | r in rows :: r.wallet == w
  }

  lemma {:induction false} WalletsOfSample(rows: seq<Row>, sample: seq<Row>, w: Wallet)
    requires OwnRows(w, sample)
    ensures WalletsOf(rows + sample) == WalletsOf(rows) + {w}
  {
    var init := sample[..|sample| - 1];
    assert (rows + sample)[..|rows + sample| - 1] == rows + init;
    assert sample[|sample| - 1] in sample;
    if init == [] {
      assert rows + init == rows;
    } else {
      WalletsOfSample(rows, init, w);
    }
  }

  /** The rows of one wallet, in their order. */
  function RowsOf(rows: seq<Row>, w: Wallet): seq<Row> {
    if rows == [] then []
    else
      var before, last := RowsOf(rows[..|rows| - 1], w), rows[|rows| - 1];
      if last.wallet == w then before + [last] else before
  }

  lemma {:induction false} RowsOfConcatenation(a: seq<Row>, b: seq<Row>, w: Wallet)
    ensures RowsOf(a + b, w) == RowsOf(a, w) + RowsOf(b, w)
  {
    if b == [] {
      assert a + b == a;
    } else {
      assert (a + b)[..|a + b| - 1] == a + b[..|b| - 1];
      RowsOfConcatenation(a, b[..|b| - 1], w);
    }
  }

  lemma {:induction false} RowsOfSample(sample: seq<Row>, w: Wallet, v: Wallet)
    requires forall r | r in sample :: r.wallet == w
    ensures RowsOf(sample, v) == if v == w then sample else []
  {
    if sample != [] {
      assert sample[|sample| - 1] in sample;
      RowsOfSample(sample[..|sample| - 1], w, v);
      assert sample == sample[..|sample| - 1] + [sample[|sample| - 1]];
    }
  }

  lemma {:induction false} RowsOfOthers(rows: seq<Row>, w: Wallet)
    ensures w !in WalletsOf(rows) <==> RowsOf(rows, w) == []
  {
    if rows != [] {
      RowsOfOthers(rows[..|rows| - 1], w);
    }
  }

  /** `rows` holds the whole samples of these wallets and nothing else. */
  ghost predicate Lists(rows: seq<Row>, samples: map<Wallet, Sample>, ws: set<Wallet>) {
    && WalletsOf(rows) == ws <= samples.Keys
    && forall w | w in ws :: RowsOf(rows, w) == samples[w].rows
  }

  lemma ListsOneMore(rows: seq<Row>, samples: map<Wallet, Sample>, ws: set<Wallet>, w: Wallet)
    requires Lists(rows, samples, ws) && w in samples && w !in ws && OwnRows(w, samples[w].rows)
    ensures Lists(rows + samples[w].rows, samples, ws + {w})
  {
    var sample := samples[w].rows;
    WalletsOfSample(rows, sample, w);
    RowsOfOthers(rows, w);
    forall v ensures RowsOf(rows + sample, v) == RowsOf(rows, v) + if v == w then sample else [] {
      RowsOfConcatenation(rows, sample, v);
      RowsOfSample(sample, w, v);
    }
  }

  lemma WalletsOfPrefix(rows: seq<Row>, i: nat)
    requires i < |rows|
    ensures WalletsOf(rows[..i + 1]) == WalletsOf(rows[..i]) + {rows[i].wallet}
  {
    assert rows[..i + 1][..i] == rows[..i];
  }

  lemma AbsorbOne(sample: seq<Row>, batch: seq<Row>, i: nat, w: Wallet)
    requires i < |batch|
    ensures Absorb(sample, batch[..i + 1], w)
            == if batch[i].wallet == w then WithRow(Absorb(sample, batch[..i], w), batch[i])
               else Absorb(sample, batch[..i], w)
  {
    assert batch[..i + 1][..i] == batch[..i];
  }

  lemma WithRowIsOwned(sample: seq<Row>, row: Row)
    requires sample == [] || OwnRows(row.wallet, sample)
    ensures OwnRows(row.wallet, WithRow(sample, row))
  {
    InsertAddsNothingElse(sample, row);
  }

  /** Absorbing a batch streams the wallet's rows of it. */
  lemma {:induction false} AbsorbStreams(history: seq<Row>, batch: seq<Row>, w: Wallet)
    ensures Absorb(Streamed(history), batch, w) == Streamed(history + RowsOf(batch, w))
  {
    if batch == [] {
      assert history + RowsOf(batch, w) == history;
    } else {
      var init, last := batch[..|batch| - 1], batch[|batch| - 1];
      AbsorbStreams(history, init, w);
      if last.wallet == w {
        var longer := history + RowsOf(init, w);
        assert history + RowsOf(batch, w) == longer + [last];
        assert (longer + [last])[..|longer|] == longer;
      }
    }
  }
}
