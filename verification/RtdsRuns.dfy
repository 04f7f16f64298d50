/** Whole runs of the real-time buffer: what was given to it, what was written, and what still waits. */
module RtdsRuns {
  import opened Terms
  import opened RecentSample
  import opened RtdsRows
  import opened RtdsOperations

  // ---------- Both operations keep the buffer steady ----------

  lemma GatheredIsSteady(v: View, l: Limits, batch: seq<Row>, now: real)
    requires Steady(v, l)
    ensures
      var g := Gathered(v, l, batch, now);
      Steady(g, l) && g.pending == v.pending && g.nextDue == v.nextDue
  {
    GatheredFrame(v, l, batch, now);
  }

  lemma FlushKeepsSteady(v: View, v': View, l: Limits, batch: seq<Row>, x: World, d: View, persisted: seq<Row>)
    requires Steady(v, l) && Flushed(v, v', l, batch, x, d, persisted)
    ensures Steady(v', l)
  {
    var g := Gathered(v, l, batch, x.now);
    GatheredFrame(v, l, batch, x.now);
    if batch != [] && x.db.Some? {
      DecidedIsSteady(g, d, l, WalletsOf(batch), x);
      if x.writeSucceeds && persisted != [] {
        WrittenIsSteady(d, v', l, WalletsOf(persisted), x.now);
      }
    }
  }

  lemma PrunedIsSteady(v: View, l: Limits, now: real)
    requires Steady(v, l)
    ensures Steady(Pruned(v, l.cooldown, now), l)
  {
  }

  lemma TakenIsSound(d: View, t: View, l: Limits, due: set<Wallet>)
    requires Steady(d, l) && IsTaken(d, t, due)
    ensures Sound(t, l) && forall w | w in t.pending && w !in due :: w in t.nextDue
  {
  }

  lemma TakenWrittenIsSteady(t: View, v': View, l: Limits, due: set<Wallet>, ws: set<Wallet>, now: real)
    requires Sound(t, l) && forall w | w in t.pending && w !in due :: w in t.nextDue
    requires forall w | w in t.pending && w in due :: w in ws
    requires IsWritten(t, v', l, ws, now)
    ensures Steady(v', l)
  {
    FewerSamples(t, v');
    if l.ttl <= 0.0 {
      assert v'.lives == map[];
    }
  }

  lemma RestoredIsSteady(p: View, t: View, v': View, l: Limits, due: set<Wallet>, x: World)
    requires x.db.Some? && Sound(t, l) && t.wallets == p.wallets
    requires forall w | w in t.pending && w !in due :: w in t.nextDue
    requires forall w | w in t.pending && w in due :: Ready(p, l, due, x, w)
    requires IsRestored(p, t, v', l, due, x)
    ensures Steady(v', l)
  {
    forall w ensures (w in v'.nextDue ==> w in v'.wallets) && (w in v'.pending ==> w in v'.nextDue) {
      assert Lookup(v'.nextDue, w) == if Ready(p, l, due, x, w) then Some(x.now) else Lookup(t.nextDue, w);
    }
  }

  /** Of what is due, the pending wallets are ready, and so are those that became pending. */
  lemma PendingDueIsReady(p: View, d: View, l: Limits, due: set<Wallet>, x: World, w: Wallet)
    requires x.db.Some? && Steady(p, l) && IsDecided(p, d, l, due, x) && w in d.pending && w in due
    ensures Ready(p, l, due, x, w)
  {
  }

  lemma NothingReadyIsSteady(p: View, t: View, l: Limits, due: set<Wallet>, x: World)
    requires x.db.Some? && Sound(t, l) && forall w | w in t.pending && w !in due :: w in t.nextDue
    requires forall w | w in t.pending && w in due :: Ready(p, l, due, x, w)
    requires forall w :: !Ready(p, l, due, x, w)
    ensures Steady(t, l)
  {
  }

  lemma TakenDrainKeepsSteady(p: View, d: View, t: View, v': View, l: Limits, due: set<Wallet>, x: World,
                              persisted: seq<Row>)
    requires x.db.Some? && Steady(p, l) && IsDecided(p, d, l, due, x) && IsTaken(d, t, due)
    requires if x.writeSucceeds then WritesReady(p, t, v', l, due, x, persisted) else IsRestored(p, t, v', l, due, x)
    ensures Steady(v', l)
  {
    DecidedIsSteady(p, d, l, due, x);
    TakenIsSound(d, t, l, due);
    forall w | w in t.pending && w in due ensures Ready(p, l, due, x, w) {
      PendingDueIsReady(p, d, l, due, x, w);
    }
    if !x.writeSucceeds {
      RestoredIsSteady(p, t, v', l, due, x);
    } else if persisted != [] {
      TakenWrittenIsSteady(t, v', l, due, WalletsOf(persisted), x.now);
    } else {
      NothingReadyIsSteady(p, t, l, due, x);
    }
  }

  lemma DrainKeepsSteady(v: View, v': View, l: Limits, limit: Option<int>, x: World, due: set<Wallet>, d: View,
                         t: View, persisted: seq<Row>)
    requires Steady(v, l) && Drained(v, v', l, limit, x, due, d, t, persisted)
    ensures Steady(v', l)
  {
    var p := Pruned(v, l.cooldown, x.now);
    PrunedIsSteady(v, l, x.now);
    if due == {} {
      ExpiredIsSound(p, l, x.now);
    } else if x.db.Some? {
      TakenDrainKeepsSteady(p, d, t, v', l, due, x, persisted);
    }
  }

  // ---------- From a batch to the database ----------

  /** Whether the wallet goes to the database with this sample, judged on the buffer before the batch. */
  predicate Deserves(v: View, l: Limits, x: World, w: Wallet, sample: seq<Row>)
    requires x.db.Some?
  {
    Qualifies(
      x.db.value, w, sample, w in v.pending, Known(v, l.cooldown, x.now, w), l.cooldown, x.now, x.wall)
  }

  /** The sample that the batch makes of what the buffer holds of the wallet. */
  ghost function SampleWith(v: View, batch: seq<Row>, now: real, w: Wallet): seq<Row> {
    Absorb(Surviving(v, w, now), batch, w)
  }

  /** The wallet is sure to be buffered: it is pinned, or there is room for all. */
  ghost predicate IsSafe(v: View, l: Limits, batch: seq<Row>, now: real, w: Wallet) {
    (w in v.wallets && Pinned(v, w)) || |Crowd(v, batch, now)| <= l.maxWallets
  }

  lemma SafeWalletIsBuffered(v: View, l: Limits, batch: seq<Row>, now: real, w: Wallet)
    requires Sound(v, l) && w in WalletsOf(batch) && IsSafe(v, l, batch, now, w)
    ensures
      var g := Gathered(v, l, batch, now);
      w in g.wallets && g.wallets[w].rows == SampleWith(v, batch, now, w)
  {
    GatheredFrame(v, l, batch, now);
    if !(w in v.wallets && Pinned(v, w)) {
      RoomyBatchAbsorbs(v, l, batch, now, w);
    }
  }

  /** Written whole, or, after a failed write, waiting whole. */
  ghost predicate WrittenOrWaiting(v': View, x: World, w: Wallet, sample: seq<Row>, persisted: seq<Row>) {
    if x.writeSucceeds then w in WalletsOf(persisted) && RowsOf(persisted, w) == sample && w !in v'.wallets
    else
      && persisted == [] && w in v'.pending && w in v'.wallets && v'.wallets[w].rows == sample
      && w in v'.nextDue && v'.nextDue[w] <= x.now
  }

  /** Only buffered: not written and not pending, but with every row; a known wallet is looked at again by the end of
      its cooldown. */
  ghost predicate OnlyBuffered(v': View, l: Limits, x: World, w: Wallet, sample: seq<Row>, persisted: seq<Row>)
    requires x.db.Some?
  {
    && w !in WalletsOf(persisted) && w !in v'.pending && w in v'.wallets && v'.wallets[w].rows == sample
    && (PersistedIdentity(x.db.value, w) ==>
          && w in v'.lastPersisted && x.now - v'.lastPersisted[w] < l.cooldown
          && w in v'.nextDue && v'.nextDue[w] <= v'.lastPersisted[w] + l.cooldown)
  }

  lemma DecidedWallet(g: View, d: View, l: Limits, ws: set<Wallet>, x: World, w: Wallet)
    requires x.db.Some? && Steady(g, l) && IsDecided(g, d, l, ws, x) && w in ws && w in g.wallets
    ensures w in d.pending <==> Ready(g, l, ws, x, w)
    ensures Ready(g, l, ws, x, w) ==> w in d.nextDue && d.nextDue[w] <= x.now
    ensures PersistedIdentity(x.db.value, w) && !Ready(g, l, ws, x, w) ==>
              && 0.0 < l.cooldown && w in d.lastPersisted && x.now - d.lastPersisted[w] < l.cooldown
              && w in d.nextDue && d.nextDue[w] <= d.lastPersisted[w] + l.cooldown
  {
    assert Lookup(d.nextDue, w) == DueAfter(g, l, ws, x, w);
    assert Lookup(d.lastPersisted, w) == LastAfter(g, l, x, w);
  }

  /** A flush with the database up: a wallet of the batch that is buffered by its end is written, or waits after a
      failed write, whole, exactly when its sample deserves it; otherwise it is only buffered. */
  lemma BufferedIsWrittenOrWaits(v: View, v': View, l: Limits, batch: seq<Row>, x: World, d: View, persisted: seq<Row>,
                                 w: Wallet)
    requires Steady(v, l) && Flushed(v, v', l, batch, x, d, persisted) && x.db.Some?
    requires w in WalletsOf(batch) && w in Gathered(v, l, batch, x.now).wallets
    ensures
      var sample := Gathered(v, l, batch, x.now).wallets[w].rows;
      if Deserves(v, l, x, w, sample) then WrittenOrWaiting(v', x, w, sample, persisted)
      else OnlyBuffered(v', l, x, w, sample, persisted)
  {
    var g := Gathered(v, l, batch, x.now);
    GatheredFrame(v, l, batch, x.now);
    DecidedWallet(g, d, l, WalletsOf(batch), x, w);
    assert Lookup(g.lastPersisted, w) == Known(v, l.cooldown, x.now, w);
    if x.writeSucceeds && persisted != [] && w !in WalletsOf(persisted) {
      assert Lookup(v'.lastPersisted, w) == Known(d, l.cooldown, x.now, w);
    }
  }

  /** A wallet of the batch that is sure to be buffered is judged, and then written or kept, with all its rows. */
  lemma BatchIsWrittenOrWaits(v: View, v': View, l: Limits, batch: seq<Row>, x: World, d: View, persisted: seq<Row>,
                              w: Wallet)
    requires Steady(v, l) && Flushed(v, v', l, batch, x, d, persisted) && x.db.Some?
    requires w in WalletsOf(batch) && IsSafe(v, l, batch, x.now, w)
    ensures
      var sample := SampleWith(v, batch, x.now, w);
      if Deserves(v, l, x, w, sample) then WrittenOrWaiting(v', x, w, sample, persisted)
      else OnlyBuffered(v', l, x, w, sample, persisted)
  {
    SafeWalletIsBuffered(v, l, batch, x.now, w);
    BufferedIsWrittenOrWaits(v, v', l, batch, x, d, persisted, w);
  }

  // ---------- Waiting ----------

  /** The wallet waits to be written, with the newest of this history. */
  ghost predicate Waits(v: View, w: Wallet, history: seq<Row>) {
    && w in v.pending && w in v.nextDue && w in v.wallets
    && v.wallets[w].rows == Streamed(history)
  }

  /** A buffered wallet that deserves it in a flush whose write fails waits from then on, with the newest of what was
      buffered for it and of the batch; only if the buffer was full may it be of the end of the batch alone. */
  lemma FailedFlushStartsTheWait(v: View, v': View, l: Limits, batch: seq<Row>, x: World, d: View, w: Wallet,
                                 history: seq<Row>) returns (k: nat, since: seq<Row>)
    requires Steady(v, l) && Flushed(v, v', l, batch, x, d, []) && x.db.Some? && !x.writeSucceeds
    requires w in WalletsOf(batch) && w in Gathered(v, l, batch, x.now).wallets
    requires Surviving(v, w, x.now) == Streamed(history)
    requires Deserves(v, l, x, w, Gathered(v, l, batch, x.now).wallets[w].rows)
    ensures Waits(v', w, since)
    ensures since == history + RowsOf(batch, w) || (k <= |batch| && since == RowsOf(batch[k..], w))
    ensures IsSafe(v, l, batch, x.now, w) ==> since == history + RowsOf(batch, w)
  {
    var rows := Gathered(v, l, batch, x.now).wallets[w].rows;
    BufferedIsWrittenOrWaits(v, v', l, batch, x, d, [], w);
    GatheredSampleStreams(v, l, batch, x.now, w);
    if IsSafe(v, l, batch, x.now, w) {
      SafeWalletIsBuffered(v, l, batch, x.now, w);
    }
    k := 0;
    if rows == Absorb(Surviving(v, w, x.now), batch, w) {
      since := history + RowsOf(batch, w);
      AbsorbStreams(history, batch, w);
    } else {
      var from :| 0 <= from <= |batch| && rows == Absorb([], batch[from..], w);
      k, since := from, RowsOf(batch[from..], w);
      AbsorbStreams([], batch[from..], w);
      assert [] + since == since;
    }
  }

  /** The same for a wallet that is found to deserve it when it is due. */
  lemma FailedDrainStartsTheWait(v: View, v': View, l: Limits, limit: Option<int>, x: World, due: set<Wallet>, d: View,
                                 t: View, w: Wallet, history: seq<Row>)
    requires Steady(v, l) && Drained(v, v', l, limit, x, due, d, t, []) && x.db.Some? && !x.writeSucceeds
    requires w in due && v.wallets[w].rows == Streamed(history)
    requires Deserves(v, l, x, w, v.wallets[w].rows)
    ensures Waits(v', w, history)
  {
    var p := Pruned(v, l.cooldown, x.now);
    PrunedLookup(v, l.cooldown, x.now);
    PrunedIsSteady(v, l, x.now);
    assert Lookup(p.lastPersisted, w) == Known(v, l.cooldown, x.now, w);
    assert Ready(p, l, due, x, w);
    DecidedWallet(p, d, l, due, x, w);
    assert Lookup(v'.nextDue, w) == Some(x.now);
  }

  /** A pending wallet after one operation: written whole, or waiting whole. */
  ghost predicate Carried(v: View, v': View, batch: seq<Row>, persisted: seq<Row>, w: Wallet)
    requires w in v.wallets
  {
    var sample := Absorb(v.wallets[w].rows, batch, w);
    if w in WalletsOf(persisted) then RowsOf(persisted, w) == sample
    else w in v'.pending && w in v'.nextDue && w in v'.wallets && v'.wallets[w].rows == sample
  }

  /** A pending wallet when a flush has decided what to write. */
  lemma DecidedPending(g: View, d: View, v': View, l: Limits, ws: set<Wallet>, x: World, persisted: seq<Row>, w: Wallet)
    requires x.db.Some? && Steady(g, l) && w in g.pending && IsDecided(g, d, l, ws, x)
    requires if x.writeSucceeds then WritesReady(g, d, v', l, ws, x, persisted) else v' == d && persisted == []
    ensures w in ws && x.writeSucceeds ==> w in WalletsOf(persisted)
    ensures if w in WalletsOf(persisted) then RowsOf(persisted, w) == g.wallets[w].rows
            else w in v'.pending && w in v'.nextDue && w in v'.wallets && v'.wallets[w].rows == g.wallets[w].rows
    ensures w !in WalletsOf(persisted) ==> v'.nextDue[w] <= g.nextDue[w]
  {
    assert w in ws ==> Ready(g, l, ws, x, w);
    assert Lookup(d.nextDue, w) == DueAfter(g, l, ws, x, w);
  }

  lemma FlushCarries(v: View, v': View, l: Limits, batch: seq<Row>, x: World, d: View, persisted: seq<Row>, w: Wallet)
    requires Steady(v, l) && w in v.pending && Flushed(v, v', l, batch, x, d, persisted)
    ensures Carried(v, v', batch, persisted, w)
    ensures w in WalletsOf(batch) && x.db.Some? && x.writeSucceeds ==> w in WalletsOf(persisted)
    ensures w !in WalletsOf(persisted) ==> v'.nextDue[w] <= v.nextDue[w]
  {
    var g := Gathered(v, l, batch, x.now);
    GatheredFrame(v, l, batch, x.now);
    if batch != [] && x.db.Some? {
      DecidedPending(g, d, v', l, WalletsOf(batch), x, persisted, w);
    }
  }

  /** A pending wallet when a drain has taken what is due. */
  lemma TakenPending(p: View, d: View, t: View, v': View, l: Limits, due: set<Wallet>, x: World, persisted: seq<Row>,
                     w: Wallet)
    requires x.db.Some? && Steady(p, l) && w in p.pending && IsDecided(p, d, l, due, x) && IsTaken(d, t, due)
    requires if x.writeSucceeds then WritesReady(p, t, v', l, due, x, persisted)
             else IsRestored(p, t, v', l, due, x) && persisted == []
    ensures w in due && x.writeSucceeds ==> w in WalletsOf(persisted)
    ensures if w in WalletsOf(persisted) then RowsOf(persisted, w) == p.wallets[w].rows
            else w in v'.pending && w in v'.nextDue && w in v'.wallets && v'.wallets[w].rows == p.wallets[w].rows
    ensures w !in WalletsOf(persisted) && w !in due ==> v'.nextDue[w] == p.nextDue[w]
  {
    assert w in due ==> Ready(p, l, due, x, w);
    assert Lookup(d.nextDue, w) == DueAfter(p, l, due, x, w);
    if !x.writeSucceeds {
      assert Lookup(v'.nextDue, w) == if Ready(p, l, due, x, w) then Some(x.now) else Lookup(t.nextDue, w);
    }
  }

  lemma DrainCarries(v: View, v': View, l: Limits, limit: Option<int>, x: World, due: set<Wallet>, d: View, t: View,
                     persisted: seq<Row>, w: Wallet)
    requires Steady(v, l) && w in v.pending && Drained(v, v', l, limit, x, due, d, t, persisted)
    ensures Carried(v, v', [], persisted, w)
    ensures w in due && x.db.Some? && x.writeSucceeds ==> w in WalletsOf(persisted)
    ensures w !in WalletsOf(persisted) && (w !in due || x.db.None?) ==> v'.nextDue[w] == v.nextDue[w]
  {
    var p := Pruned(v, l.cooldown, x.now);
    PrunedIsSteady(v, l, x.now);
    if due != {} && x.db.Some? {
      TakenPending(p, d, t, v', l, due, x, persisted, w);
    }
  }

  // ---------- Runs ----------

  datatype Op =
    | Flush(batch: seq<Row>, x: World)
    | Drain(limit: Option<int>, x: World)

  function BatchOf(op: Op): seq<Row> {
    if op.Flush? then op.batch else []
  }

  ghost predicate Does(v: View, v': View, l: Limits, op: Op, persisted: seq<Row>) {
    match op
    case Flush(batch, x) => exists d :: Flushed(v, v', l, batch, x, d, persisted)
    case Drain(limit, x) => exists due, d, t :: Drained(v, v', l, limit, x, due, d, t, persisted)
  }

  lemma StepKeepsSteady(v: View, v': View, l: Limits, op: Op, persisted: seq<Row>)
    requires Steady(v, l) && Does(v, v', l, op, persisted)
    ensures Steady(v', l)
  {
    match op
    case Flush(batch, x) =>
      var d :| Flushed(v, v', l, batch, x, d, persisted);
      FlushKeepsSteady(v, v', l, batch, x, d, persisted);
    case Drain(limit, x) =>
      var due, d, t :| Drained(v, v', l, limit, x, due, d, t, persisted);
      DrainKeepsSteady(v, v', l, limit, x, due, d, t, persisted);
  }

  /** The operations run one after another; `persisted[i]` is what the `i`-th wrote. */
  ghost predicate IsRun(views: seq<View>, l: Limits, ops: seq<Op>, persisted: seq<seq<Row>>) {
    && |views| == |ops| + 1 == |persisted| + 1 && Steady(views[0], l)
    && forall i | 0 <= i < |ops| :: Does(views[i], views[i + 1], l, ops[i], persisted[i])
  }

  ghost predicate SteadyAt(views: seq<View>, l: Limits, i: nat) {
    i < |views| && Steady(views[i], l)
  }

  lemma StepOfRun(views: seq<View>, l: Limits, ops: seq<Op>, persisted: seq<seq<Row>>, i: nat)
    requires IsRun(views, l, ops, persisted) && i < |ops| && SteadyAt(views, l, i)
    ensures SteadyAt(views, l, i + 1)
  {
    StepKeepsSteady(views[i], views[i + 1], l, ops[i], persisted[i]);
  }

  lemma {:induction false} RunKeepsSteady(
    views: seq<View>, l: Limits, ops: seq<Op>, persisted: seq<seq<Row>>, n: nat)
    requires IsRun(views, l, ops, persisted) && n <= |ops|
    ensures SteadyAt(views, l, n)
  {
    if n > 0 {
      RunKeepsSteady(views, l, ops, persisted, n - 1);
      StepOfRun(views, l, ops, persisted, n - 1);
    }
  }

  lemma RunGoesOn(
    views: seq<View>, l: Limits, ops: seq<Op>, persisted: seq<seq<Row>>, v: View, op: Op, rows: seq<Row>)
    requires IsRun(views, l, ops, persisted) && Does(views[|ops|], v, l, op, rows)
    ensures IsRun(views + [v], l, ops + [op], persisted + [rows])
  {
    var views', ops', persisted' := views + [v], ops + [op], persisted + [rows];
    forall i | 0 <= i < |ops'| ensures Does(views'[i], views'[i + 1], l, ops'[i], persisted'[i]) {
      if i < |ops| {
        assert views'[i] == views[i] && views'[i + 1] == views[i + 1];
        assert ops'[i] == ops[i] && persisted'[i] == persisted[i];
        assert Does(views[i], views[i + 1], l, ops[i], persisted[i]);
      } else {
        assert views'[i] == views[|ops|] && views'[i + 1] == v && ops'[i] == op && persisted'[i] == rows;
      }
    }
  }

  /** Every stretch of a run is a run. */
  lemma StretchIsARun(views: seq<View>, l: Limits, ops: seq<Op>, persisted: seq<seq<Row>>, i: nat, j: nat)
    requires IsRun(views, l, ops, persisted) && i <= j <= |ops|
    ensures IsRun(views[i..j + 1], l, ops[i..j], persisted[i..j])
  {
    RunKeepsSteady(views, l, ops, persisted, i);
  }

  ghost predicate NeverWritten(persisted: seq<seq<Row>>, w: Wallet) {
    forall rows | rows in persisted :: w !in WalletsOf(rows)
  }

  /** Every row of the wallet that the operations were given. */
  function Given(ops: seq<Op>, w: Wallet): seq<Row> {
    if ops == [] then [] else Given(ops[..|ops| - 1], w) + RowsOf(BatchOf(ops[|ops| - 1]), w)
  }

  /** No operation loses a pending wallet or any of its rows. */
  lemma StepCarries(v: View, v': View, l: Limits, op: Op, persisted: seq<Row>, w: Wallet)
    requires Steady(v, l) && w in v.pending && Does(v, v', l, op, persisted)
    ensures Carried(v, v', BatchOf(op), persisted, w)
  {
    match op
    case Flush(batch, x) =>
      var d :| Flushed(v, v', l, batch, x, d, persisted);
      FlushCarries(v, v', l, batch, x, d, persisted, w);
    case Drain(limit, x) =>
      var due, d, t :| Drained(v, v', l, limit, x, due, d, t, persisted);
      DrainCarries(v, v', l, limit, x, due, d, t, persisted, w);
  }

  lemma StepOnWaiting(v: View, v': View, batch: seq<Row>, persisted: seq<Row>, w: Wallet, history: seq<Row>)
    requires Waits(v, w, history) && Carried(v, v', batch, persisted, w)
    ensures
      var longer := history + RowsOf(batch, w);
      if w in WalletsOf(persisted) then RowsOf(persisted, w) == Streamed(longer) else Waits(v', w, longer)
  {
    AbsorbStreams(history, batch, w);
  }

  lemma GivenOneMore(ops: seq<Op>, n: nat, w: Wallet, history: seq<Row>)
    requires n < |ops|
    ensures history + Given(ops[..n + 1], w) == history + Given(ops[..n], w) + RowsOf(BatchOf(ops[n]), w)
  {
    assert ops[..n + 1][..n] == ops[..n];
  }

  lemma NeverWrittenBefore(persisted: seq<seq<Row>>, n: nat, w: Wallet)
    requires n < |persisted| && NeverWritten(persisted[..n + 1], w)
    ensures NeverWritten(persisted[..n], w) && w !in WalletsOf(persisted[n])
  {
    assert persisted[..n + 1][n] in persisted[..n + 1];
    forall rows | rows in persisted[..n] ensures rows in persisted[..n + 1] {
      var i :| 0 <= i < n && persisted[..n][i] == rows;
      assert persisted[..n + 1][i] == rows;
    }
  }

  /** Until an operation writes it, a qualified wallet stays pending, due and buffered, with the newest of all
      the rows it was given since. */
  lemma {:induction false} QualifiedIsKept(
    views: seq<View>, l: Limits, ops: seq<Op>, persisted: seq<seq<Row>>, n: nat, w: Wallet, history: seq<Row>)
    requires IsRun(views, l, ops, persisted) && n <= |ops|
    requires Waits(views[0], w, history) && NeverWritten(persisted[..n], w)
    ensures Waits(views[n], w, history + Given(ops[..n], w))
  {
    if n == 0 {
      assert history + Given(ops[..0], w) == history;
    } else {
      NeverWrittenBefore(persisted, n - 1, w);
      QualifiedIsKept(views, l, ops, persisted, n - 1, w, history);
      WaitingGoesOn(views, l, ops, persisted, n - 1, w, history);
    }
  }

  lemma WaitingGoesOn(
    views: seq<View>, l: Limits, ops: seq<Op>, persisted: seq<seq<Row>>, n: nat, w: Wallet, history: seq<Row>)
    requires IsRun(views, l, ops, persisted) && n < |ops| && Waits(views[n], w, history + Given(ops[..n], w))
    ensures
      var longer := history + Given(ops[..n + 1], w);
      if w in WalletsOf(persisted[n]) then RowsOf(persisted[n], w) == Streamed(longer)
      else Waits(views[n + 1], w, longer)
  {
    RunKeepsSteady(views, l, ops, persisted, n);
    StepCarries(views[n], views[n + 1], l, ops[n], persisted[n], w);
    StepOnWaiting(views[n], views[n + 1], BatchOf(ops[n]), persisted[n], w, history + Given(ops[..n], w));
    GivenOneMore(ops, n, w, history);
  }

  /** What is written for a qualified wallet in the end: the ten newest distinct trades of everything it was
      given, however often writes and reads of the database failed before. */
  lemma QualifiedIsWrittenWhole(
    views: seq<View>, l: Limits, ops: seq<Op>, persisted: seq<seq<Row>>, n: nat, w: Wallet, history: seq<Row>)
    requires IsRun(views, l, ops, persisted) && n < |ops| && Waits(views[0], w, history)
    requires NeverWritten(persisted[..n], w) && w in WalletsOf(persisted[n])
    ensures exists all :: IsBatch(all, history + Given(ops[..n + 1], w))
                          && RowsOf(persisted[n], w) == Take(all, RECENT_SAMPLE_TRADE_LIMIT)
  {
    QualifiedIsKept(views, l, ops, persisted, n, w, history);
    WaitingGoesOn(views, l, ops, persisted, n, w, history);
    StreamingKeepsTheNewest(history + Given(ops[..n + 1], w));
  }

  /** The same from any moment of a run at which the wallet waits. */
  lemma WaitingIsWrittenWhole(views: seq<View>, l: Limits, ops: seq<Op>, persisted: seq<seq<Row>>, i: nat, j: nat,
                              w: Wallet, history: seq<Row>)
    requires IsRun(views, l, ops, persisted) && i <= j < |ops| && Waits(views[i], w, history)
    requires w in WalletsOf(persisted[j]) && forall k | i <= k < j :: w !in WalletsOf(persisted[k])
    ensures exists all :: IsBatch(all, history + Given(ops[i..j + 1], w))
                          && RowsOf(persisted[j], w) == Take(all, RECENT_SAMPLE_TRADE_LIMIT)
  {
    var vs, os, rows, n := views[i..j + 2], ops[i..j + 1], persisted[i..j + 1], j - i;
    StretchIsARun(views, l, ops, persisted, i, j + 1);
    NeverWrittenIn(persisted, i, j, w);
    assert rows[..n] == persisted[i..j] && rows[n] == persisted[j] && os[..n + 1] == os && vs[0] == views[i];
    QualifiedIsWrittenWhole(vs, l, os, rows, n, w, history);
  }

  lemma NeverWrittenIn(persisted: seq<seq<Row>>, i: nat, j: nat, w: Wallet)
    requires i <= j <= |persisted| && forall k | i <= k < j :: w !in WalletsOf(persisted[k])
    ensures NeverWritten(persisted[i..j], w)
  {
    forall rows | rows in persisted[i..j] ensures w !in WalletsOf(rows) {
      var k :| 0 <= k < j - i && persisted[i..j][k] == rows;
      assert rows == persisted[i + k];
    }
  }

  /** From a batch to the database: when the write of a flush fails, what is written next for a wallet of its batch
      that deserved it are the ten newest distinct trades of what the buffer had of it, of the batch, and of all it was
      given since. */
  lemma BatchIsWrittenInTheEnd(views: seq<View>, l: Limits, ops: seq<Op>, persisted: seq<seq<Row>>, i: nat, j: nat,
                               w: Wallet, history: seq<Row>)
    requires IsRun(views, l, ops, persisted) && i < j < |ops|
    requires ops[i].Flush? && ops[i].x.db.Some? && !ops[i].x.writeSucceeds
    requires w in WalletsOf(ops[i].batch) && IsSafe(views[i], l, ops[i].batch, ops[i].x.now, w)
    requires Surviving(views[i], w, ops[i].x.now) == Streamed(history)
    requires Deserves(views[i], l, ops[i].x, w, SampleWith(views[i], ops[i].batch, ops[i].x.now, w))
    requires w in WalletsOf(persisted[j]) && forall k | i < k < j :: w !in WalletsOf(persisted[k])
    ensures exists all :: IsBatch(all, history + RowsOf(ops[i].batch, w) + Given(ops[i + 1..j + 1], w))
                          && RowsOf(persisted[j], w) == Take(all, RECENT_SAMPLE_TRADE_LIMIT)
  {
    WaitStartsAt(views, l, ops, persisted, i, w, history);
    WaitingIsWrittenWhole(views, l, ops, persisted, i + 1, j, w, history + RowsOf(ops[i].batch, w));
  }

  lemma WaitStartsAt(views: seq<View>, l: Limits, ops: seq<Op>, persisted: seq<seq<Row>>, i: nat, w: Wallet,
                     history: seq<Row>)
    requires IsRun(views, l, ops, persisted) && i < |ops|
    requires ops[i].Flush? && ops[i].x.db.Some? && !ops[i].x.writeSucceeds
    requires w in WalletsOf(ops[i].batch) && IsSafe(views[i], l, ops[i].batch, ops[i].x.now, w)
    requires Surviving(views[i], w, ops[i].x.now) == Streamed(history)
    requires Deserves(views[i], l, ops[i].x, w, SampleWith(views[i], ops[i].batch, ops[i].x.now, w))
    ensures Waits(views[i + 1], w, history + RowsOf(ops[i].batch, w))
  {
    var v, batch, x := views[i], ops[i].batch, ops[i].x;
    RunKeepsSteady(views, l, ops, persisted, i);
    SafeWalletIsBuffered(v, l, batch, x.now, w);
    var d :| Flushed(v, views[i + 1], l, batch, x, d, persisted[i]);
    var k, since := FailedFlushStartsTheWait(v, views[i + 1], l, batch, x, d, w, history);
  }

  // ---------- Once per cooldown ----------

  /** The wallet was persisted at `at` and does not wait. */
  ghost predicate PersistedAt(v: View, w: Wallet, at: real) {
    w !in v.pending && Lookup(v.lastPersisted, w) == Some(at)
  }

  /** Whenever the database can be read, it has the wallet as a candidate. */
  predicate StaysCandidate(x: World, w: Wallet) {
    x.db.Some? ==> w in x.db.value.candidates
  }

  predicate Cools(l: Limits, x: World, at: real) {
    0.0 < l.cooldown && x.now - at < l.cooldown
  }

  /** What is neither pending nor out of its cooldown is not ready, and its cooldown goes on. */
  lemma CoolingIsNotReady(g: View, d: View, l: Limits, ws: set<Wallet>, x: World, w: Wallet, at: real)
    requires x.db.Some? && StaysCandidate(x, w) && Cools(l, x, at)
    requires PersistedAt(g, w, at) && IsDecided(g, d, l, ws, x)
    ensures !Ready(g, l, ws, x, w) && PersistedAt(d, w, at)
  {
    assert Lookup(d.lastPersisted, w)
        == if w in ws && w in g.wallets then LastAfter(g, l, x, w) else Lookup(g.lastPersisted, w);
  }

  lemma WritingSpares(d: View, v': View, l: Limits, ws: set<Wallet>, x: World, w: Wallet, at: real)
    requires Cools(l, x, at) && PersistedAt(d, w, at) && w !in ws && IsWritten(d, v', l, ws, x.now)
    ensures PersistedAt(v', w, at)
  {
    assert Lookup(v'.lastPersisted, w) == Known(d, l.cooldown, x.now, w);
  }

  lemma FlushSpares(v: View, v': View, l: Limits, batch: seq<Row>, x: World, d: View, persisted: seq<Row>, w: Wallet,
                    at: real)
    requires Sound(v, l) && Flushed(v, v', l, batch, x, d, persisted)
    requires PersistedAt(v, w, at) && StaysCandidate(x, w) && Cools(l, x, at)
    ensures w !in WalletsOf(persisted) && PersistedAt(v', w, at)
  {
    var g := Gathered(v, l, batch, x.now);
    GatheredFrame(v, l, batch, x.now);
    assert Lookup(g.lastPersisted, w) == Known(v, l.cooldown, x.now, w);
    if batch != [] && x.db.Some? {
      CoolingIsNotReady(g, d, l, WalletsOf(batch), x, w, at);
      if x.writeSucceeds && persisted != [] {
        WritingSpares(d, v', l, WalletsOf(persisted), x, w, at);
      }
    }
  }

  lemma DrainSpares(v: View, v': View, l: Limits, limit: Option<int>, x: World, due: set<Wallet>, d: View, t: View,
                    persisted: seq<Row>, w: Wallet, at: real)
    requires Drained(v, v', l, limit, x, due, d, t, persisted)
    requires PersistedAt(v, w, at) && StaysCandidate(x, w) && Cools(l, x, at)
    ensures w !in WalletsOf(persisted) && PersistedAt(v', w, at)
  {
    var p := Pruned(v, l.cooldown, x.now);
    PrunedLookup(v, l.cooldown, x.now);
    assert Lookup(p.lastPersisted, w) == Known(v, l.cooldown, x.now, w);
    if due != {} && x.db.Some? {
      CoolingIsNotReady(p, d, l, due, x, w, at);
      if x.writeSucceeds && persisted != [] {
        WritingSpares(t, v', l, WalletsOf(persisted), x, w, at);
      }
    }
  }

  lemma StepSpares(v: View, v': View, l: Limits, op: Op, persisted: seq<Row>, w: Wallet, at: real)
    requires Steady(v, l) && Does(v, v', l, op, persisted)
    requires PersistedAt(v, w, at) && StaysCandidate(op.x, w) && Cools(l, op.x, at)
    ensures w !in WalletsOf(persisted) && PersistedAt(v', w, at)
  {
    match op
    case Flush(batch, x) =>
      var d :| Flushed(v, v', l, batch, x, d, persisted);
      FlushSpares(v, v', l, batch, x, d, persisted, w, at);
    case Drain(limit, x) =>
      var due, d, t :| Drained(v, v', l, limit, x, due, d, t, persisted);
      DrainSpares(v, v', l, limit, x, due, d, t, persisted, w, at);
  }

  /** A write starts the cooldown. */
  lemma StepPersists(v: View, v': View, l: Limits, op: Op, persisted: seq<Row>, w: Wallet)
    requires Does(v, v', l, op, persisted) && w in WalletsOf(persisted) && 0.0 < l.cooldown
    ensures PersistedAt(v', w, op.x.now)
  {
  }

  /** Through a stretch of a run that ends before the wallet's cooldown does, it is not written. */
  lemma {:induction false} CooldownIsKept(
    views: seq<View>, l: Limits, ops: seq<Op>, persisted: seq<seq<Row>>, i: nat, j: nat, w: Wallet, at: real)
    requires IsRun(views, l, ops, persisted) && i <= j <= |ops| && PersistedAt(views[i], w, at)
    requires forall k | i <= k < j :: StaysCandidate(ops[k].x, w) && Cools(l, ops[k].x, at)
    ensures PersistedAt(views[j], w, at) && forall k | i <= k < j :: w !in WalletsOf(persisted[k])
  {
    if i < j {
      CooldownIsKept(views, l, ops, persisted, i, j - 1, w, at);
      RunKeepsSteady(views, l, ops, persisted, j - 1);
      StepSpares(views[j - 1], views[j], l, ops[j - 1], persisted[j - 1], w, at);
    }
  }

  /** A stored candidate is written at most once per cooldown: between two writes some operation's clock shows
      that the cooldown of the first is over. */
  lemma WrittenOncePerCooldown(
    views: seq<View>, l: Limits, ops: seq<Op>, persisted: seq<seq<Row>>, i: nat, j: nat, w: Wallet)
    requires IsRun(views, l, ops, persisted) && i < j < |ops| && 0.0 < l.cooldown
    requires w in WalletsOf(persisted[i]) && w in WalletsOf(persisted[j])
    requires forall k | i < k <= j :: StaysCandidate(ops[k].x, w)
    ensures exists k :: i < k <= j && ops[k].x.now >= ops[i].x.now + l.cooldown
  {
    StepPersists(views[i], views[i + 1], l, ops[i], persisted[i], w);
    if forall k | i < k <= j :: ops[k].x.now < ops[i].x.now + l.cooldown {
      CooldownIsKept(views, l, ops, persisted, i + 1, j + 1, w, ops[i].x.now);
    }
  }

  // ---------- How soon a waiting wallet is written ----------

  /** The wallets that come before this one in a drain. */
  ghost function Ahead(v: View, w: Wallet): set<Wallet>
    requires w in v.nextDue
  {
    set x | x in v.nextDue && Sooner(Entry(v.nextDue[x], x), Entry(v.nextDue[w], w))
  }

  /** Nobody got ahead of the wallet, and those of `gone` left. */
  ghost predicate KeepsItsTurn(v: View, v': View, w: Wallet, gone: set<Wallet>)
    requires w in v.nextDue
  {
    && w in v'.nextDue && v'.nextDue[w] == v.nextDue[w]
    && forall x | x in v'.nextDue && Sooner(Entry(v'.nextDue[x], x), Entry(v.nextDue[w], w)) ::
         x in v.nextDue && v.nextDue[x] == v'.nextDue[x] && x !in gone
  }

  lemma AheadShrinks(v: View, v': View, w: Wallet, gone: set<Wallet>)
    requires w in v.nextDue && KeepsItsTurn(v, v', w, gone) && gone <= Ahead(v, w)
    ensures |Ahead(v', w)| + |gone| <= |Ahead(v, w)|
  {
    assert Ahead(v', w) !! gone && Ahead(v', w) + gone <= Ahead(v, w);
    assert |Ahead(v', w) + gone| == |Ahead(v', w)| + |gone|;
    SubsetCount(Ahead(v', w) + gone, Ahead(v, w));
  }

  /** New due times are never earlier than the clock. */
  lemma DecidingKeepsTurns(g: View, d: View, l: Limits, ws: set<Wallet>, x: World, w: Wallet)
    requires x.db.Some? && IsDecided(g, d, l, ws, x) && w in g.nextDue && g.nextDue[w] < x.now
    ensures KeepsItsTurn(g, d, w, {})
  {
    forall y ensures Lookup(d.nextDue, y) == Lookup(g.nextDue, y)
                     || (y in d.nextDue && x.now <= d.nextDue[y] && (y in g.nextDue ==> x.now < g.nextDue[y])) {
      assert Lookup(d.nextDue, y) == DueAfter(g, l, ws, x, y);
    }
    assert Lookup(d.nextDue, w) == Lookup(g.nextDue, w);
  }

  lemma FlushKeepsTurns(v: View, v': View, l: Limits, batch: seq<Row>, x: World, d: View, persisted: seq<Row>,
                        w: Wallet)
    requires Steady(v, l) && w in v.pending && Flushed(v, v', l, batch, x, d, persisted)
    requires w !in WalletsOf(persisted) && v.nextDue[w] < x.now
    ensures KeepsItsTurn(v, v', w, {})
  {
    var g := Gathered(v, l, batch, x.now);
    GatheredFrame(v, l, batch, x.now);
    if batch != [] && x.db.Some? {
      DecidingKeepsTurns(g, d, l, WalletsOf(batch), x, w);
    }
  }

  /** A drain that works but leaves the wallet took as many as it may, all of them ahead of the wallet. */
  lemma DrainKeepsTurns(v: View, v': View, l: Limits, limit: Option<int>, x: World, due: set<Wallet>, d: View, t: View,
                        persisted: seq<Row>, w: Wallet)
    requires Steady(v, l) && w in v.pending && Drained(v, v', l, limit, x, due, d, t, persisted)
    requires w !in WalletsOf(persisted) && v.nextDue[w] < x.now && (x.db.Some? ==> x.writeSucceeds)
    ensures KeepsItsTurn(v, v', w, if x.db.Some? then due else {})
    ensures x.db.Some? ==> due <= Ahead(v, w) && limit.Some? && |due| >= Max(1, limit.value)
  {
    var p := Pruned(v, l.cooldown, x.now);
    DrainCarries(v, v', l, limit, x, due, d, t, persisted, w);
    assert due != {};
    if x.db.Some? {
      DecidingKeepsTurns(p, d, l, due, x, w);
    }
  }

  /** The wallets that the drain is sure to take, if so many are due. */
  function Served(op: Op): nat {
    if op.Drain? && op.x.db.Some? then (if op.limit.Some? then Max(1, op.limit.value) else 1) else 0
  }

  function ServedBy(ops: seq<Op>): nat {
    if ops == [] then 0 else ServedBy(ops[..|ops| - 1]) + Served(ops[|ops| - 1])
  }

  lemma StepKeepsTurns(v: View, v': View, l: Limits, op: Op, persisted: seq<Row>, w: Wallet)
    requires Steady(v, l) && w in v.pending && Does(v, v', l, op, persisted)
    requires w !in WalletsOf(persisted) && v.nextDue[w] < op.x.now && (Served(op) > 0 ==> op.x.writeSucceeds)
    ensures w in v'.nextDue && v'.nextDue[w] == v.nextDue[w] && |Ahead(v', w)| + Served(op) <= |Ahead(v, w)|
  {
    match op
    case Flush(batch, x) =>
      var d :| Flushed(v, v', l, batch, x, d, persisted);
      FlushKeepsTurns(v, v', l, batch, x, d, persisted, w);
      AheadShrinks(v, v', w, {});
    case Drain(limit, x) =>
      var due, d, t :| Drained(v, v', l, limit, x, due, d, t, persisted);
      DrainKeepsTurns(v, v', l, limit, x, due, d, t, persisted, w);
      AheadShrinks(v, v', w, if x.db.Some? then due else {});
  }

  /** The wallet is still pending, its turn is what it was, and so many are still ahead of it. */
  ghost predicate StillWaits(v: View, w: Wallet, at: real, served: nat, ahead: nat) {
    w in v.pending && w in v.nextDue && v.nextDue[w] == at && |Ahead(v, w)| + served <= ahead
  }

  lemma WaitGoesOn(
    views: seq<View>, l: Limits, ops: seq<Op>, persisted: seq<seq<Row>>, n: nat, w: Wallet, at: real, ahead: nat)
    requires IsRun(views, l, ops, persisted) && n < |ops| && StillWaits(views[n], w, at, ServedBy(ops[..n]), ahead)
    requires at < ops[n].x.now && (Served(ops[n]) > 0 ==> ops[n].x.writeSucceeds) && w !in WalletsOf(persisted[n])
    ensures StillWaits(views[n + 1], w, at, ServedBy(ops[..n + 1]), ahead)
  {
    RunKeepsSteady(views, l, ops, persisted, n);
    StepCarries(views[n], views[n + 1], l, ops[n], persisted[n], w);
    StepKeepsTurns(views[n], views[n + 1], l, ops[n], persisted[n], w);
    assert ops[..n + 1][..n] == ops[..n];
  }

  lemma {:induction false} TurnIsKept(
    views: seq<View>, l: Limits, ops: seq<Op>, persisted: seq<seq<Row>>, n: nat, w: Wallet, at: real, ahead: nat)
    requires IsRun(views, l, ops, persisted) && n <= |ops| && StillWaits(views[0], w, at, 0, ahead)
    requires forall k | 0 <= k < n :: at < ops[k].x.now && (Served(ops[k]) > 0 ==> ops[k].x.writeSucceeds)
    requires forall k | 0 <= k < n :: w !in WalletsOf(persisted[k])
    ensures StillWaits(views[n], w, at, ServedBy(ops[..n]), ahead)
  {
    if n > 0 {
      TurnIsKept(views, l, ops, persisted, n - 1, w, at, ahead);
      WaitGoesOn(views, l, ops, persisted, n - 1, w, at, ahead);
    }
  }

  /** A due pending wallet is written within as many working drains as it takes to serve the wallets ahead of it
      and itself, whatever else is buffered, qualifies or fails to be read or flushed meanwhile. */
  lemma PendingIsWrittenSoon(views: seq<View>, l: Limits, ops: seq<Op>, persisted: seq<seq<Row>>, w: Wallet)
    requires IsRun(views, l, ops, persisted) && w in views[0].pending && w in views[0].nextDue
    requires forall k | 0 <= k < |ops| ::
               views[0].nextDue[w] < ops[k].x.now && (Served(ops[k]) > 0 ==> ops[k].x.writeSucceeds)
    requires ServedBy(ops) > |Ahead(views[0], w)|
    ensures exists k :: 0 <= k < |ops| && w in WalletsOf(persisted[k])
  {
    assert ops[..|ops|] == ops;
    if forall k | 0 <= k < |ops| :: w !in WalletsOf(persisted[k]) {
      TurnIsKept(views, l, ops, persisted, |ops|, w, views[0].nextDue[w], |Ahead(views[0], w)|);
    }
  }

  // ---------- Everything is kept ----------

  /** What the buffer knows of the wallet, as long as it was never written: all it was given. */
  ghost predicate Remembers(v: View, w: Wallet, given: seq<Row>) {
    RowsIn(v, w) == Streamed(given) && (given != [] ==> w in v.wallets)
  }

  /** All wallets that are buffered or will be have room together, and samples do not expire. */
  ghost predicate HasRoom(v: View, l: Limits, batch: seq<Row>, all: set<Wallet>) {
    l.ttl <= 0.0 && |all| <= l.maxWallets && v.wallets.Keys <= all && WalletsOf(batch) <= all
  }

  lemma RoomyFlushGathers(v: View, l: Limits, batch: seq<Row>, now: real, w: Wallet, given: seq<Row>, all: set<Wallet>)
    requires Sound(v, l) && HasRoom(v, l, batch, all) && Remembers(v, w, given)
    ensures
      var g := Gathered(v, l, batch, now);
      g.wallets.Keys <= all && Remembers(g, w, given + RowsOf(batch, w))
  {
    SubsetCount(Crowd(v, batch, now), all);
    RoomyBatchAbsorbs(v, l, batch, now, w);
    AbsorbStreams(given, batch, w);
    RowsOfOthers(batch, w);
    assert given + [] == given;
  }

  /** The wallet was written with all it was given, or the buffer still has it all. */
  ghost predicate WrittenOrRemembered(v': View, w: Wallet, given: seq<Row>, persisted: seq<Row>) {
    if w in WalletsOf(persisted) then RowsOf(persisted, w) == Streamed(given) else Remembers(v', w, given)
  }

  lemma FlushRemembers(v: View, v': View, l: Limits, batch: seq<Row>, x: World, d: View, persisted: seq<Row>, w: Wallet,
                       given: seq<Row>, all: set<Wallet>)
    requires Steady(v, l) && Flushed(v, v', l, batch, x, d, persisted)
    requires HasRoom(v, l, batch, all) && Remembers(v, w, given)
    ensures v'.wallets.Keys <= all && WrittenOrRemembered(v', w, given + RowsOf(batch, w), persisted)
  {
    if batch == [] {
      assert given + [] == given;
    } else {
      RoomyFlushGathers(v, l, batch, x.now, w, given, all);
    }
  }

  lemma DrainRemembers(v: View, v': View, l: Limits, limit: Option<int>, x: World, due: set<Wallet>, d: View, t: View,
                       persisted: seq<Row>, w: Wallet, given: seq<Row>, all: set<Wallet>)
    requires Steady(v, l) && Drained(v, v', l, limit, x, due, d, t, persisted)
    requires HasRoom(v, l, [], all) && Remembers(v, w, given)
    ensures v'.wallets.Keys <= all && WrittenOrRemembered(v', w, given, persisted)
  {
    var p := Pruned(v, l.cooldown, x.now);
    if due == {} {
      assert Expired(p, x.now).wallets == v.wallets;
    } else if x.db.Some? && x.writeSucceeds {
      WritingRemembers(v, t, v', l, due, x, p, persisted, w, given);
    }
  }

  lemma WritingRemembers(v: View, t: View, v': View, l: Limits, due: set<Wallet>, x: World, p: View,
                         persisted: seq<Row>, w: Wallet, given: seq<Row>)
    requires x.db.Some? && p.wallets == v.wallets && t.wallets == v.wallets && Remembers(v, w, given)
    requires WritesReady(p, t, v', l, due, x, persisted)
    ensures v'.wallets.Keys <= v.wallets.Keys && WrittenOrRemembered(v', w, given, persisted)
  {
  }

  lemma StepRemembers(v: View, v': View, l: Limits, op: Op, persisted: seq<Row>, w: Wallet, given: seq<Row>,
                      all: set<Wallet>)
    requires Steady(v, l) && Does(v, v', l, op, persisted)
    requires HasRoom(v, l, BatchOf(op), all) && Remembers(v, w, given)
    ensures v'.wallets.Keys <= all && WrittenOrRemembered(v', w, given + RowsOf(BatchOf(op), w), persisted)
  {
    match op
    case Flush(batch, x) =>
      var d :| Flushed(v, v', l, batch, x, d, persisted);
      FlushRemembers(v, v', l, batch, x, d, persisted, w, given, all);
    case Drain(limit, x) =>
      var due, d, t :| Drained(v, v', l, limit, x, due, d, t, persisted);
      DrainRemembers(v, v', l, limit, x, due, d, t, persisted, w, given, all);
      assert given + RowsOf([], w) == given;
  }

  /** With room for every wallet and no expiry, nothing is ever forgotten: the first write of a wallet has the ten
      newest distinct trades of all rows it was ever given, and until then the buffer has them. */
  lemma {:induction false} NothingIsForgotten(
    views: seq<View>, l: Limits, ops: seq<Op>, persisted: seq<seq<Row>>, n: nat, w: Wallet, all: set<Wallet>)
    requires IsRun(views, l, ops, persisted) && n <= |ops| && views[0].wallets == map[]
    requires l.ttl <= 0.0 && |all| <= l.maxWallets
    requires forall k | 0 <= k < |ops| :: WalletsOf(BatchOf(ops[k])) <= all
    requires forall k | 0 <= k < n - 1 :: w !in WalletsOf(persisted[k])
    ensures views[n].wallets.Keys <= all
    ensures if n > 0 then WrittenOrRemembered(views[n], w, Given(ops[..n], w), persisted[n - 1])
            else Remembers(views[n], w, [])
  {
    if n > 0 {
      NothingIsForgotten(views, l, ops, persisted, n - 1, w, all);
      RunKeepsSteady(views, l, ops, persisted, n - 1);
      assert ops[..n][..n - 1] == ops[..n - 1];
      if n > 1 {
        assert w !in WalletsOf(persisted[n - 2]);
      }
      StepRemembers(views[n - 1], views[n], l, ops[n - 1], persisted[n - 1], w, Given(ops[..n - 1], w), all);
    }
  }
}
