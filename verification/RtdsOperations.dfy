/** What the operations of the real-time buffer do to it, as relations between views that leave nothing open,
    whichever reads and writes of the database fail. */
module RtdsOperations {
  import opened Terms
  import opened RecentSample
  import opened RtdsRows

  datatype Entry = Entry(at: real, wallet: Wallet)

  predicate Sooner(a: Entry, b: Entry) {
    a.at < b.at || (a.at == b.at && a.wallet < b.wallet)
  }

  datatype Limits = Limits(maxWallets: nat, ttl: real, cooldown: real)

  /** The buffer without its heaps, which only serve to find what is due or expired. `lives` are the expiry times
      that the expiry heap still announces: a pinned wallet's is forgotten when it comes up. */
  datatype View = View(
    wallets: map<Wallet, Sample>,
    nextPlace: nat,
    pending: set<Wallet>,
    nextDue: map<Wallet, real>,
    lives: map<Wallet, real>,
    lastPersisted: map<Wallet, real>)

  /** Pinned wallets are neither expired nor evicted. */
  ghost predicate Pinned(v: View, w: Wallet) {
    w in v.pending || w in v.nextDue
  }

  ghost predicate Owned(samples: map<Wallet, Sample>, w: Wallet) {
    w in samples ==> OwnRows(w, samples[w].rows)
  }

  ghost predicate Apart(samples: map<Wallet, Sample>, w: Wallet, x: Wallet) {
    w in samples && x in samples && w != x ==> samples[w].place != samples[x].place
  }

  ghost predicate InTheirPlaces(v: View) {
    && (forall w | w in v.wallets :: v.wallets[w].place < v.nextPlace)
    && (forall w, x :: Apart(v.wallets, w, x))
  }

  /** Dropping samples harms none of the others. */
  lemma FewerSamples(v: View, v': View)
    requires (forall w :: Owned(v.wallets, w)) && InTheirPlaces(v) && v'.nextPlace == v.nextPlace
    requires forall w | w in v'.wallets :: w in v.wallets && v'.wallets[w] == v.wallets[w]
    ensures (forall w :: Owned(v'.wallets, w)) && InTheirPlaces(v') && |v'.wallets.Keys| <= |v.wallets.Keys|
  {
    SubsetCount(v'.wallets.Keys, v.wallets.Keys);
    forall w ensures Owned(v'.wallets, w) {
      assert Owned(v.wallets, w);
    }
    forall w, x ensures Apart(v'.wallets, w, x) {
      assert Apart(v.wallets, w, x);
    }
  }

  ghost predicate Sound(v: View, l: Limits) {
    && 1 <= l.maxWallets && |v.wallets.Keys| <= l.maxWallets
    && (forall w :: Owned(v.wallets, w)) && InTheirPlaces(v)
    && v.pending <= v.wallets.Keys && v.nextDue.Keys <= v.wallets.Keys && v.lives.Keys <= v.wallets.Keys
    && (l.ttl <= 0.0 ==> v.lives == map[])
  }

  /** Between operations a qualified wallet has a due time. */
  ghost predicate PendingIsDue(v: View) {
    forall w | w in v.pending :: w in v.nextDue
  }

  ghost predicate Steady(v: View, l: Limits) {
    Sound(v, l) && PendingIsDue(v)
  }

  // ---------- Forgetting ----------

  /** When the wallet was last persisted, once times that no longer matter are forgotten. */
  function Known(v: View, cooldown: real, now: real, w: Wallet): Option<real> {
    if w in v.lastPersisted && 0.0 < cooldown
       && (now - cooldown < v.lastPersisted[w] || w in v.wallets || w in v.nextDue)
    then Some(v.lastPersisted[w]) else None
  }

  /** `_prune_persisted`. */
  function Pruned(v: View, cooldown: real, now: real): View {
    v.(lastPersisted :=
         map w | w in v.lastPersisted && Known(v, cooldown, now, w).Some? :: v.lastPersisted[w])
  }

  lemma PrunedLookup(v: View, cooldown: real, now: real)
    ensures forall w :: Lookup(Pruned(v, cooldown, now).lastPersisted, w) == Known(v, cooldown, now, w)
  {
  }

  ghost predicate ExpiresBy(v: View, w: Wallet, now: real) {
    w in v.lives && v.lives[w] <= now && !Pinned(v, w)
  }

  /** `_expire`. */
  ghost function Expired(v: View, now: real): View {
    v.(wallets := map w | w in v.wallets && !ExpiresBy(v, w, now) :: v.wallets[w],
       lives := map w | w in v.lives && now < v.lives[w] :: v.lives[w])
  }

  lemma ExpiredIsSound(v: View, l: Limits, now: real)
    requires Sound(v, l)
    ensures Sound(Expired(v, now), l)
  {
    FewerSamples(v, Expired(v, now));
  }

  function Removed(v: View, w: Wallet): View {
    v.(wallets := Without(v.wallets, w), nextDue := Without(v.nextDue, w), lives := Without(v.lives, w))
  }

  lemma RemovedIsSound(v: View, l: Limits, w: Wallet)
    requires Sound(v, l) && w !in v.pending
    ensures Sound(Removed(v, w), l)
  {
    FewerSamples(v, Removed(v, w));
  }

  // ---------- Buffering a batch ----------

  ghost predicate IsOldestUnpinned(v: View, w: Wallet) {
    w in v.wallets && !Pinned(v, w)
    && forall x | x in v.wallets && !Pinned(v, x) :: v.wallets[w].place <= v.wallets[x].place
  }

  lemma OneOldest(v: View, w: Wallet, x: Wallet)
    requires InTheirPlaces(v) && IsOldestUnpinned(v, w) && IsOldestUnpinned(v, x)
    ensures w == x
  {
    assert Apart(v.wallets, w, x);
  }

  /** `_make_room`: the buffer with a free place, if one can be had. */
  ghost function MadeRoom(v: View, l: Limits): Option<View> {
    if |v.wallets.Keys| < l.maxWallets then Some(v)
    else if exists w :: IsOldestUnpinned(v, w) then
      var w :| IsOldestUnpinned(v, w);
      Some(Removed(v, w))
    else None
  }

  function Extended(l: Limits, times: map<Wallet, real>, w: Wallet, at: real): map<Wallet, real> {
    if l.ttl <= 0.0 then times else times[w := at]
  }

  /** The row goes into the wallet's sample, and the sample's life starts again. */
  function Kept(v: View, l: Limits, row: Row, now: real): View {
    var w := row.wallet;
    var before := if w in v.wallets then v.wallets[w] else Sample([], v.nextPlace);
    v.(wallets := v.wallets[w := before.(rows := WithRow(before.rows, row))],
       nextPlace := if w in v.wallets then v.nextPlace else v.nextPlace + 1,
       lives := Extended(l, v.lives, w, now + l.ttl))
  }

  /** One row of `consume_qualified_rows`. */
  ghost function AddRow(v: View, l: Limits, row: Row, now: real): View {
    if row.wallet in v.wallets then Kept(v, l, row, now)
    else
      match MadeRoom(v, l)
      case None => v
      case Some(room) => Kept(room, l, row, now)
  }

  ghost function AddRows(v: View, l: Limits, batch: seq<Row>, now: real): View {
    if batch == [] then v else AddRow(AddRows(v, l, batch[..|batch| - 1], now), l, batch[|batch| - 1], now)
  }

  /** The buffer after the rows of a batch went in, before any of its wallets is looked at. */
  ghost function Gathered(v: View, l: Limits, batch: seq<Row>, now: real): View {
    AddRows(Expired(Pruned(v, l.cooldown, now), now), l, batch, now)
  }

  /** The rows a wallet starts a batch with. */
  function RowsIn(v: View, w: Wallet): seq<Row> {
    if w in v.wallets then v.wallets[w].rows else []
  }

  lemma KeptIsSound(v: View, l: Limits, row: Row, now: real)
    requires Sound(v, l) && (row.wallet in v.wallets || |v.wallets.Keys| < l.maxWallets)
    ensures Sound(Kept(v, l, row, now), l)
    ensures Kept(v, l, row, now).wallets.Keys == v.wallets.Keys + {row.wallet}
  {
    KeptInTheirPlaces(v, l, row, now);
    KeptSamplesAreOwned(v, l, row, now);
    assert Kept(v, l, row, now).wallets.Keys == v.wallets.Keys + {row.wallet};
    if row.wallet in v.wallets {
      assert v.wallets.Keys + {row.wallet} == v.wallets.Keys;
    }
  }

  lemma KeptSamplesAreOwned(v: View, l: Limits, row: Row, now: real)
    requires forall w :: Owned(v.wallets, w)
    ensures forall w :: Owned(Kept(v, l, row, now).wallets, w)
  {
    assert Owned(v.wallets, row.wallet);
    WithRowIsOwned(RowsIn(v, row.wallet), row);
    forall w ensures Owned(Kept(v, l, row, now).wallets, w) {
      assert Owned(v.wallets, w);
    }
  }

  lemma KeptInTheirPlaces(v: View, l: Limits, row: Row, now: real)
    requires InTheirPlaces(v)
    ensures InTheirPlaces(Kept(v, l, row, now))
  {
    forall w, x ensures Apart(Kept(v, l, row, now).wallets, w, x) {
      assert Apart(v.wallets, w, x);
    }
  }

  lemma MadeRoomIsSound(v: View, l: Limits)
    requires Sound(v, l) && MadeRoom(v, l).Some?
    ensures Sound(MadeRoom(v, l).value, l) && |MadeRoom(v, l).value.wallets.Keys| < l.maxWallets
    ensures |v.wallets.Keys| - 1 <= |MadeRoom(v, l).value.wallets.Keys|
  {
    if |v.wallets.Keys| >= l.maxWallets {
      var w :| IsOldestUnpinned(v, w) && MadeRoom(v, l) == Some(Removed(v, w));
      RemovedIsSound(v, l, w);
      assert Removed(v, w).wallets.Keys == v.wallets.Keys - {w};
    }
  }

  /** What a row leaves alone. */
  lemma AddRowFrame(v: View, l: Limits, row: Row, now: real)
    requires Sound(v, l)
    ensures
      var v' := AddRow(v, l, row, now);
      && Sound(v', l) && v'.pending == v.pending && v'.nextDue == v.nextDue && v'.lastPersisted == v.lastPersisted
      && |v.wallets.Keys| <= |v'.wallets.Keys|
      && (forall w | w != row.wallet && w in v'.wallets :: w in v.wallets && v'.wallets[w] == v.wallets[w])
      && (forall w | w in v.wallets && Pinned(v, w) :: w in v'.wallets)
      && (row.wallet in v.wallets ==> row.wallet in v'.wallets)
  {
    if row.wallet in v.wallets {
      KeptIsSound(v, l, row, now);
      assert v.wallets.Keys + {row.wallet} == v.wallets.Keys;
    } else if MadeRoom(v, l).Some? {
      var room := MadeRoom(v, l).value;
      MadeRoomIsSound(v, l);
      MadeRoomFrame(v, l);
      KeptIsSound(room, l, row, now);
    }
  }

  lemma MadeRoomFrame(v: View, l: Limits)
    requires Sound(v, l) && MadeRoom(v, l).Some?
    ensures
      var room := MadeRoom(v, l).value;
      && room.pending == v.pending && room.nextDue == v.nextDue && room.lastPersisted == v.lastPersisted
      && (forall w | w in room.wallets :: w in v.wallets && room.wallets[w] == v.wallets[w])
      && (forall w | w in v.wallets && Pinned(v, w) :: w in room.wallets)
  {
    if |v.wallets.Keys| >= l.maxWallets {
      var w :| IsOldestUnpinned(v, w) && MadeRoom(v, l) == Some(Removed(v, w));
      assert Without(v.nextDue, w) == v.nextDue;
    }
  }

  /** The sample that takes the row. */
  lemma AddRowSample(v: View, l: Limits, row: Row, now: real)
    requires Sound(v, l)
    ensures
      var v' := AddRow(v, l, row, now);
      row.wallet in v'.wallets ==>
        v'.wallets[row.wallet].rows
        == WithRow(RowsIn(v, row.wallet), row)
  {
    if row.wallet !in v.wallets && MadeRoom(v, l).Some? {
      MadeRoomFrame(v, l);
    }
  }

  lemma {:induction false} AddRowsFrame(v: View, l: Limits, batch: seq<Row>, now: real)
    requires Sound(v, l)
    ensures
      var v' := AddRows(v, l, batch, now);
      && Sound(v', l) && v'.pending == v.pending && v'.nextDue == v.nextDue && v'.lastPersisted == v.lastPersisted
      && |v.wallets.Keys| <= |v'.wallets.Keys|
      && (forall w | w in v'.wallets :: w in v.wallets || w in WalletsOf(batch))
  {
    if batch != [] {
      var init := batch[..|batch| - 1];
      AddRowsFrame(v, l, init, now);
      AddRowFrame(AddRows(v, l, init, now), l, batch[|batch| - 1], now);
    }
  }

  /** Pinned wallets lose nothing. */
  lemma {:induction false} PinnedAbsorbs(v: View, l: Limits, batch: seq<Row>, now: real, w: Wallet)
    requires Sound(v, l) && w in v.wallets && Pinned(v, w)
    ensures
      var v' := AddRows(v, l, batch, now);
      w in v'.wallets && v'.wallets[w].rows == Absorb(v.wallets[w].rows, batch, w)
  {
    if batch != [] {
      var init, last := batch[..|batch| - 1], batch[|batch| - 1];
      var u := AddRows(v, l, init, now);
      PinnedAbsorbs(v, l, init, now, w);
      AddRowsFrame(v, l, init, now);
      AddRowFrame(u, l, last, now);
      AddRowSample(u, l, last, now);
    }
  }

  /** With room for all, every wallet of the buffer and of the batch is buffered, with every row. */
  lemma {:induction false} AllAbsorb(v: View, l: Limits, batch: seq<Row>, now: real, w: Wallet)
    requires Sound(v, l) && |v.wallets.Keys + WalletsOf(batch)| <= l.maxWallets
    ensures
      var v' := AddRows(v, l, batch, now);
      && v'.wallets.Keys == v.wallets.Keys + WalletsOf(batch)
      && (w in v'.wallets ==> v'.wallets[w].rows == Absorb(RowsIn(v, w), batch, w))
  {
    if batch != [] {
      var init, last := batch[..|batch| - 1], batch[|batch| - 1];
      var u := AddRows(v, l, init, now);
      SubsetCount(v.wallets.Keys + WalletsOf(init), v.wallets.Keys + WalletsOf(batch));
      AllAbsorb(v, l, init, now, w);
      AddRowsFrame(v, l, init, now);
      RoomForOne(u, l, last, now, v.wallets.Keys + WalletsOf(batch));
      AddRowSample(u, l, last, now);
      AbsorbsLast(v, u, AddRow(u, l, last, now), batch, w);
    } else {
      assert v.wallets.Keys + WalletsOf(batch) == v.wallets.Keys;
    }
  }

  lemma AbsorbsLast(v: View, u: View, v': View, batch: seq<Row>, w: Wallet)
    requires batch != []
    requires u.wallets.Keys == v.wallets.Keys + WalletsOf(batch[..|batch| - 1])
    requires w in u.wallets ==> u.wallets[w].rows == Absorb(RowsIn(v, w), batch[..|batch| - 1], w)
    requires
      var last := batch[|batch| - 1];
      && v'.wallets.Keys == u.wallets.Keys + {last.wallet}
      && v'.wallets[last.wallet].rows == WithRow(RowsIn(u, last.wallet), last)
      && forall x | x != last.wallet && x in u.wallets :: v'.wallets[x] == u.wallets[x]
    ensures v'.wallets.Keys == v.wallets.Keys + WalletsOf(batch)
    ensures w in v'.wallets ==> v'.wallets[w].rows == Absorb(RowsIn(v, w), batch, w)
  {
    var init := batch[..|batch| - 1];
    if w !in u.wallets {
      NothingToAbsorb(init, w);
    }
  }

  lemma {:induction false} NothingToAbsorb(batch: seq<Row>, w: Wallet)
    requires w !in WalletsOf(batch)
    ensures forall sample :: Absorb(sample, batch, w) == sample
  {
    if batch != [] {
      NothingToAbsorb(batch[..|batch| - 1], w);
    }
  }

  lemma RoomForOne(v: View, l: Limits, row: Row, now: real, all: set<Wallet>)
    requires Sound(v, l) && v.wallets.Keys + {row.wallet} <= all && |all| <= l.maxWallets
    ensures AddRow(v, l, row, now).wallets.Keys == v.wallets.Keys + {row.wallet}
    ensures forall w | w != row.wallet && w in v.wallets :: AddRow(v, l, row, now).wallets[w] == v.wallets[w]
  {
    if row.wallet !in v.wallets {
      SubsetCount(v.wallets.Keys + {row.wallet}, all);
    }
    KeptIsSound(v, l, row, now);
  }

  /** Nothing is evicted or refused if and only if there is room for all. */
  lemma EverythingFitsIff(v: View, l: Limits, batch: seq<Row>, now: real)
    requires Sound(v, l)
    ensures v.wallets.Keys + WalletsOf(batch) <= AddRows(v, l, batch, now).wallets.Keys
            <==> |v.wallets.Keys + WalletsOf(batch)| <= l.maxWallets
  {
    AddRowsFrame(v, l, batch, now);
    if |v.wallets.Keys + WalletsOf(batch)| <= l.maxWallets {
      AllAbsorb(v, l, batch, now, 0);
    } else if v.wallets.Keys + WalletsOf(batch) <= AddRows(v, l, batch, now).wallets.Keys {
      SubsetCount(v.wallets.Keys + WalletsOf(batch), AddRows(v, l, batch, now).wallets.Keys);
    }
  }

  /** A buffer with a free place has never evicted or refused anything. */
  lemma {:induction false} FullOrComplete(v: View, l: Limits, batch: seq<Row>, now: real)
    requires Sound(v, l) && |AddRows(v, l, batch, now).wallets.Keys| < l.maxWallets
    ensures AddRows(v, l, batch, now).wallets.Keys == v.wallets.Keys + WalletsOf(batch)
  {
    if batch != [] {
      var init, last := batch[..|batch| - 1], batch[|batch| - 1];
      var u := AddRows(v, l, init, now);
      assert Sound(u, l) by {
        AddRowsFrame(v, l, init, now);
      }
      assert AddRows(v, l, batch, now) == AddRow(u, l, last, now);
      RowFitsIfNotFull(u, l, last, now);
      FullOrComplete(v, l, init, now);
      OneWalletMore(v.wallets.Keys, u.wallets.Keys, batch);
    }
  }

  lemma OneWalletMore(before: set<Wallet>, after: set<Wallet>, batch: seq<Row>)
    requires batch != [] && after == before + WalletsOf(batch[..|batch| - 1])
    ensures after + {batch[|batch| - 1].wallet} == before + WalletsOf(batch)
  {
  }

  lemma RowFitsIfNotFull(v: View, l: Limits, row: Row, now: real)
    requires Sound(v, l) && |AddRow(v, l, row, now).wallets.Keys| < l.maxWallets
    ensures |v.wallets.Keys| < l.maxWallets && AddRow(v, l, row, now).wallets.Keys == v.wallets.Keys + {row.wallet}
  {
    AddRowFrame(v, l, row, now);
    KeptIsSound(v, l, row, now);
  }

  /** The sample holds what the batch brought since the wallet was last admitted. */
  ghost predicate IsSampleOf(before: seq<Row>, batch: seq<Row>, w: Wallet, rows: seq<Row>) {
    rows == Absorb(before, batch, w) || exists k :: 0 <= k <= |batch| && rows == Absorb([], batch[k..], w)
  }

  lemma SampleOneMore(before: seq<Row>, batch: seq<Row>, i: nat, w: Wallet, rows: seq<Row>, rows': seq<Row>)
    requires i < |batch|
    requires if batch[i].wallet == w then rows' == WithRow(rows, batch[i]) else rows' == rows
    requires IsSampleOf(before, batch[..i], w, rows) || (rows == [] && batch[i].wallet == w)
    ensures IsSampleOf(before, batch[..i + 1], w, rows')
  {
    var prefix := batch[..i + 1];
    AbsorbOne(before, batch, i, w);
    if rows != Absorb(before, batch[..i], w) {
      var k: int := if rows == [] && batch[i].wallet == w then i else
        var j :| 0 <= j <= i && rows == Absorb([], batch[..i][j..], w); j;
      assert prefix[k..][..i - k] == batch[..i][k..];
      AbsorbOne([], prefix[k..], i - k, w);
      assert prefix[k..][..i - k + 1] == prefix[k..];
      assert rows' == Absorb([], prefix[k..], w);
    }
  }

  /** However full the buffer: a sample has every row of its wallet since the wallet was last admitted. */
  lemma {:induction false} SamplesStream(v: View, l: Limits, batch: seq<Row>, now: real, w: Wallet)
    requires Sound(v, l) && w in AddRows(v, l, batch, now).wallets
    ensures IsSampleOf(RowsIn(v, w), batch, w, AddRows(v, l, batch, now).wallets[w].rows)
  {
    if batch != [] {
      var n := |batch| - 1;
      var init, last := batch[..n], batch[n];
      var u, v' := AddRows(v, l, init, now), AddRows(v, l, batch, now);
      AddRowsFrame(v, l, init, now);
      AddRowFrame(u, l, last, now);
      AddRowSample(u, l, last, now);
      if w in u.wallets {
        SamplesStream(v, l, init, now, w);
      }
      SampleOneMore(RowsIn(v, w), batch, n, w, RowsIn(u, w), v'.wallets[w].rows);
      assert batch[..n + 1] == batch;
    }
  }

  /** The wallet still has the place it had. */
  ghost predicate InItsPlace(v: View, v': View, w: Wallet) {
    w in v.wallets && w in v'.wallets && v'.wallets[w].place == v.wallets[w].place
  }

  lemma AddRowEvictsInOrder(v: View, u: View, l: Limits, row: Row, now: real, w: Wallet, x: Wallet)
    requires Sound(u, l) && InTheirPlaces(v) && v.nextPlace <= u.nextPlace
    requires w in v.wallets && x in v.wallets && v.wallets[w].place < v.wallets[x].place && !Pinned(u, w)
    requires InItsPlace(v, u, w) ==> InItsPlace(v, u, x)
    ensures
      var u' := AddRow(u, l, row, now);
      (InItsPlace(v, u', w) ==> InItsPlace(v, u', x)) && u.nextPlace <= u'.nextPlace
  {
    if row.wallet !in u.wallets && |u.wallets.Keys| >= l.maxWallets && MadeRoom(u, l).Some? {
      var gone :| IsOldestUnpinned(u, gone) && MadeRoom(u, l) == Some(Removed(u, gone));
    }
  }

  /** Evictions go by age: no wallet is evicted before an unpinned one that was inserted earlier. */
  lemma {:induction false} EvictsInOrder(v: View, l: Limits, batch: seq<Row>, now: real, w: Wallet, x: Wallet)
    requires Sound(v, l) && w in v.wallets && x in v.wallets
    requires v.wallets[w].place < v.wallets[x].place && !Pinned(v, w)
    ensures
      var v' := AddRows(v, l, batch, now);
      (InItsPlace(v, v', w) ==> InItsPlace(v, v', x)) && v.nextPlace <= v'.nextPlace
  {
    if batch != [] {
      var init, last := batch[..|batch| - 1], batch[|batch| - 1];
      EvictsInOrder(v, l, init, now, w, x);
      AddRowsFrame(v, l, init, now);
      AddRowEvictsInOrder(v, AddRows(v, l, init, now), l, last, now, w, x);
    }
  }

  /** What is known of the gathered buffer. */
  lemma GatheredFrame(v: View, l: Limits, batch: seq<Row>, now: real)
    requires Sound(v, l)
    ensures
      var g := Gathered(v, l, batch, now);
      && Sound(g, l) && g.pending == v.pending && g.nextDue == v.nextDue
      && (forall w :: Lookup(g.lastPersisted, w) == Known(v, l.cooldown, now, w))
      && (forall w | w in v.wallets && Pinned(v, w) ::
            w in g.wallets && g.wallets[w].rows == Absorb(v.wallets[w].rows, batch, w))
  {
    var p := Pruned(v, l.cooldown, now);
    PrunedLookup(v, l.cooldown, now);
    ExpiredIsSound(p, l, now);
    AddRowsFrame(Expired(p, now), l, batch, now);
    forall w | w in v.wallets && Pinned(v, w)
      ensures w in Gathered(v, l, batch, now).wallets
      ensures Gathered(v, l, batch, now).wallets[w].rows == Absorb(v.wallets[w].rows, batch, w)
    {
      PinnedAbsorbs(Expired(p, now), l, batch, now, w);
    }
  }

  /** The rows that expiry leaves a wallet. */
  ghost function Surviving(v: View, w: Wallet, now: real): seq<Row> {
    if w in v.wallets && !ExpiresBy(v, w, now) then v.wallets[w].rows else []
  }

  /** The wallets that are still buffered when a batch comes in, and those of the batch. */
  ghost function Crowd(v: View, batch: seq<Row>, now: real): set<Wallet> {
    Expired(v, now).wallets.Keys + WalletsOf(batch)
  }

  lemma PruningSparesSamples(v: View, cooldown: real, now: real)
    ensures Expired(Pruned(v, cooldown, now), now).wallets == Expired(v, now).wallets
  {
  }

  lemma SurvivingRows(v: View, w: Wallet, now: real)
    ensures RowsIn(Expired(v, now), w) == Surviving(v, w, now)
  {
  }

  lemma RoomyBatchAbsorbs(v: View, l: Limits, batch: seq<Row>, now: real, w: Wallet)
    requires Sound(v, l) && |Crowd(v, batch, now)| <= l.maxWallets
    ensures
      var g := Gathered(v, l, batch, now);
      && g.wallets.Keys == Crowd(v, batch, now)
      && (w in g.wallets ==> g.wallets[w].rows == Absorb(Surviving(v, w, now), batch, w))
  {
    var e := Expired(Pruned(v, l.cooldown, now), now);
    ExpiredIsSound(Pruned(v, l.cooldown, now), l, now);
    PruningSparesSamples(v, l.cooldown, now);
    SurvivingRows(v, w, now);
    RoomyAbsorb(e, l, batch, now, w, Expired(v, now), Surviving(v, w, now));
  }

  /** However full the buffer: a gathered sample streams what survived and the batch, or the end of the batch. */
  lemma GatheredSampleStreams(v: View, l: Limits, batch: seq<Row>, now: real, w: Wallet)
    requires Sound(v, l) && w in Gathered(v, l, batch, now).wallets
    ensures IsSampleOf(Surviving(v, w, now), batch, w, Gathered(v, l, batch, now).wallets[w].rows)
  {
    ExpiredIsSound(Pruned(v, l.cooldown, now), l, now);
    PruningSparesSamples(v, l.cooldown, now);
    SurvivingRows(v, w, now);
    SamplesStream(Expired(Pruned(v, l.cooldown, now), now), l, batch, now, w);
  }

  /** Either the buffer is full, or every wallet of the batch and every surviving one is in it, with all its rows. */
  lemma GatheredIsFullOrComplete(v: View, l: Limits, batch: seq<Row>, now: real, w: Wallet)
    requires Sound(v, l)
    ensures
      var g := Gathered(v, l, batch, now);
      || |g.wallets.Keys| == l.maxWallets
      || (g.wallets.Keys == Crowd(v, batch, now)
          && (w in g.wallets ==> g.wallets[w].rows == Absorb(Surviving(v, w, now), batch, w)))
  {
    var e := Expired(Pruned(v, l.cooldown, now), now);
    ExpiredIsSound(Pruned(v, l.cooldown, now), l, now);
    PruningSparesSamples(v, l.cooldown, now);
    AddRowsFrame(e, l, batch, now);
    if |AddRows(e, l, batch, now).wallets.Keys| < l.maxWallets {
      FullOrComplete(e, l, batch, now);
      RoomyBatchAbsorbs(v, l, batch, now, w);
    }
  }

  lemma RoomyAbsorb(e: View, l: Limits, batch: seq<Row>, now: real, w: Wallet, f: View, rows: seq<Row>)
    requires Sound(e, l) && e.wallets == f.wallets && rows == RowsIn(f, w)
    requires |f.wallets.Keys + WalletsOf(batch)| <= l.maxWallets
    ensures
      var g := AddRows(e, l, batch, now);
      && g.wallets.Keys == f.wallets.Keys + WalletsOf(batch)
      && (w in g.wallets ==> g.wallets[w].rows == Absorb(rows, batch, w))
  {
    AllAbsorb(e, l, batch, now, w);
  }

  // ---------- Deciding ----------

  /** How the outside world answers one operation. */
  datatype World = World(db: Option<Snapshot>, writeSucceeds: bool, now: real, wall: real)

  /** Of the wallets looked at, those whose samples qualify. */
  predicate Ready(v: View, l: Limits, ws: set<Wallet>, x: World, w: Wallet)
    requires x.db.Some?
  {
    && w in ws && w in v.wallets
    && Qualifies(
         x.db.value, w, v.wallets[w].rows, w in v.pending, Lookup(v.lastPersisted, w), l.cooldown, x.now, x.wall)
  }

  function Earlier(due: Option<real>, at: real): real {
    if due.Some? && due.value <= at then due.value else at
  }

  function LastAfter(v: View, l: Limits, x: World, w: Wallet): Option<real>
    requires x.db.Some?
  {
    LastPersisted(Lookup(v.lastPersisted, w), l.cooldown, x.now, DbUpdatedAt(x.db.value, w), x.wall)
  }

  /** What qualifies is due at once, a known wallet that does not when its cooldown ends, if not due earlier. */
  function DueAfter(v: View, l: Limits, ws: set<Wallet>, x: World, w: Wallet): Option<real>
    requires x.db.Some?
  {
    var due, last := Lookup(v.nextDue, w), LastAfter(v, l, x, w);
    if Ready(v, l, ws, x, w) then Some(Earlier(due, x.now))
    else if w in ws && w in v.wallets && PersistedIdentity(x.db.value, w) && last.Some? then
      Some(Earlier(due, last.value + l.cooldown))
    else due
  }

  /** `_qualified_rows_for_wallets`. */
  ghost predicate IsDecided(v: View, d: View, l: Limits, ws: set<Wallet>, x: World)
    requires x.db.Some?
  {
    && d == v.(pending := d.pending, nextDue := d.nextDue, lastPersisted := d.lastPersisted)
    && (forall w :: w in d.pending <==> w in v.pending || Ready(v, l, ws, x, w))
    && (forall w :: Lookup(d.nextDue, w) == DueAfter(v, l, ws, x, w))
    && (forall w :: Lookup(d.lastPersisted, w)
                    == if w in ws && w in v.wallets then LastAfter(v, l, x, w) else Lookup(v.lastPersisted, w))
  }

  lemma DecidedIsSteady(v: View, d: View, l: Limits, ws: set<Wallet>, x: World)
    requires x.db.Some? && Steady(v, l) && IsDecided(v, d, l, ws, x)
    ensures Steady(d, l)
  {
    forall w ensures (w in d.nextDue ==> w in v.wallets) && (w in d.pending ==> w in v.wallets && w in d.nextDue) {
      assert Lookup(d.nextDue, w) == DueAfter(v, l, ws, x, w);
    }
  }

  // ---------- Writing ----------

  /** `mark_persisted`: these wallets leave and start their cooldown. */
  ghost predicate IsWritten(v: View, v': View, l: Limits, ws: set<Wallet>, now: real) {
    && v'.nextPlace == v.nextPlace && v'.pending == v.pending - ws
    && IsWithout(v'.wallets, v.wallets, ws) && IsWithout(v'.nextDue, v.nextDue, ws) && IsWithout(v'.lives, v.lives, ws)
    && (forall w :: Lookup(v'.lastPersisted, w)
                    == if w in ws then (if 0.0 < l.cooldown then Some(now) else None)
                       else Known(v, l.cooldown, now, w))
  }

  lemma WrittenIsSteady(v: View, v': View, l: Limits, ws: set<Wallet>, now: real)
    requires Steady(v, l) && IsWritten(v, v', l, ws, now)
    ensures Steady(v', l)
  {
    FewerSamples(v, v');
    if l.ttl <= 0.0 {
      assert v'.lives == map[];
    }
  }

  /** Exactly the ready samples of `v` were written, whole, and their wallets leave; nothing else changes. */
  ghost predicate WritesReady(v: View, d: View, v': View, l: Limits, ws: set<Wallet>, x: World, persisted: seq<Row>)
    requires x.db.Some?
  {
    && (forall w :: w in WalletsOf(persisted) <==> Ready(v, l, ws, x, w))
    && Lists(persisted, v.wallets, WalletsOf(persisted))
    && if persisted == [] then v' == d else IsWritten(d, v', l, WalletsOf(persisted), x.now)
  }

  // ---------- The two operations ----------

  /** `_flush_pending_batch`; `d` is the buffer when it has been decided what to write. */
  ghost predicate Flushed(v: View, v': View, l: Limits, batch: seq<Row>, x: World, d: View, persisted: seq<Row>) {
    var g := Gathered(v, l, batch, x.now);
    if batch == [] then v' == v && persisted == []
    else if x.db.None? then v' == g && persisted == []
    else
      && IsDecided(g, d, l, WalletsOf(batch), x)
      && if x.writeSucceeds then WritesReady(g, d, v', l, WalletsOf(batch), x, persisted)
         else v' == d && persisted == []
  }

  /** The first `limit` due wallets in (due time, wallet) order. */
  ghost predicate IsFirstDue(v: View, due: set<Wallet>, now: real, limit: Option<int>) {
    && (forall w | w in due :: w in v.nextDue && v.nextDue[w] <= now)
    && (limit.Some? ==> |due| <= Max(1, limit.value))
    && (limit.None? || |due| < Max(1, limit.value) ==> forall w | w in v.nextDue && v.nextDue[w] <= now :: w in due)
    && (forall w, x | w in due && x in v.nextDue && v.nextDue[x] <= now && x !in due ::
          Sooner(Entry(v.nextDue[w], w), Entry(v.nextDue[x], x)))
  }

  /** `due_rows` uses up the due times of what it took. */
  ghost predicate IsTaken(d: View, t: View, due: set<Wallet>) {
    t == d.(nextDue := t.nextDue) && IsWithout(t.nextDue, d.nextDue, due)
  }

  /** After a failed write what was ready is due again. */
  ghost predicate IsRestored(p: View, t: View, v': View, l: Limits, due: set<Wallet>, x: World)
    requires x.db.Some?
  {
    && v' == t.(nextDue := v'.nextDue)
    && forall w :: Lookup(v'.nextDue, w) == if Ready(p, l, due, x, w) then Some(x.now) else Lookup(t.nextDue, w)
  }

  /** `_flush_due_buffer`; `t` is the buffer when what is due has been taken. */
  ghost predicate Drained(
    v: View, v': View, l: Limits, limit: Option<int>, x: World, due: set<Wallet>, d: View, t: View,
    persisted: seq<Row>)
  {
    var p := Pruned(v, l.cooldown, x.now);
    && IsFirstDue(v, due, x.now, limit)
    && if due == {} then v' == Expired(p, x.now) && persisted == []
       else if x.db.None? then v' == p && persisted == []
       else
         && IsDecided(p, d, l, due, x) && IsTaken(d, t, due)
         && if x.writeSucceeds then WritesReady(p, t, v', l, due, x, persisted)
            else IsRestored(p, t, v', l, due, x) && persisted == []
  }
}
