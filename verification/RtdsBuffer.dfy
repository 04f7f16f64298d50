/** The process-local L0 buffer of the real-time stream: a bounded set of wallets with lazy-deletion heaps
    for due and expiry times, and the flush functions that persist what qualifies. A heap is the multiset of
    its entries; its top is the least of them. */
module RtdsBuffer {
  import opened Terms
  import opened RecentSample
  import opened RtdsRows
  import opened RtdsOperations
  import opened RtdsRuns

  // ---------- Heaps ----------

  ghost predicate IsTop(h: multiset<Entry>, e: Entry) {
    e in h && forall x | x in h :: !Sooner(x, e)
  }

  lemma TopExists(h: multiset<Entry>) returns (top: Entry)
    requires |h| > 0
    ensures IsTop(h, top)
  {
    top :| top in h;
    var rest := h - multiset{top};
    assert forall x | x in h :: x == top || x in rest;
    if |rest| > 0 {
      var other := TopExists(rest);
      if Sooner(other, top) {
        top := other;
      }
    }
  }

  method Top(h: multiset<Entry>) returns (top: Entry)
    requires |h| > 0
    ensures IsTop(h, top)
  {
    ghost var first := TopExists(h);
    top :| top in h && forall x | x in h :: !Sooner(x, top);
  }

  /** Every live due time has its heap entry. */
  ghost predicate HoldsDue(nextDue: map<Wallet, real>, dueHeap: multiset<Entry>) {
    forall w | w in nextDue :: Entry(nextDue[w], w) in dueHeap
  }

  /** `lives` are the expiry times with a heap entry. */
  ghost predicate Announces(expiresAt: map<Wallet, real>, expiryHeap: multiset<Entry>, lives: map<Wallet, real>) {
    && (forall w :: w in lives <==> w in expiresAt && Entry(expiresAt[w], w) in expiryHeap)
    && forall w | w in lives :: lives[w] == expiresAt[w]
  }

  /** The heaps find what is due and what expires in a sound buffer. */
  ghost predicate Indexed(
    v: View, l: Limits, dueHeap: multiset<Entry>, expiresAt: map<Wallet, real>, expiryHeap: multiset<Entry>)
  {
    && Sound(v, l) && expiresAt.Keys <= v.wallets.Keys
    && HoldsDue(v.nextDue, dueHeap) && Announces(expiresAt, expiryHeap, v.lives)
  }

  lemma RemovedIsIndexed(v: View, l: Limits, dueHeap: multiset<Entry>, expiresAt: map<Wallet, real>,
                         expiryHeap: multiset<Entry>, w: Wallet)
    requires Indexed(v, l, dueHeap, expiresAt, expiryHeap) && w !in v.pending
    ensures Indexed(Removed(v, w), l, dueHeap, Without(expiresAt, w), expiryHeap)
  {
    RemovedIsSound(v, l, w);
  }

  lemma SettledIsIndexed(v: View, l: Limits, dueHeap: multiset<Entry>, expiresAt: map<Wallet, real>,
                         expiryHeap: multiset<Entry>, w: Wallet, now: real)
    requires Indexed(v, l, dueHeap, expiresAt, expiryHeap)
    ensures Indexed(Settled(v, w, now), l, dueHeap, Without(expiresAt, w), expiryHeap)
  {
    RemovedIsIndexed(v.(pending := v.pending - {w}), l, dueHeap, expiresAt, expiryHeap, w);
  }

  function Announced(l: Limits, heap: multiset<Entry>, w: Wallet, at: real): multiset<Entry> {
    if l.ttl <= 0.0 then heap else heap + multiset{Entry(at, w)}
  }

  lemma ExtendedAnnounces(l: Limits, expiresAt: map<Wallet, real>, expiryHeap: multiset<Entry>,
                          lives: map<Wallet, real>, w: Wallet, at: real)
    requires Announces(expiresAt, expiryHeap, lives)
    ensures Announces(Extended(l, expiresAt, w, at), Announced(l, expiryHeap, w, at), Extended(l, lives, w, at))
  {
  }

  lemma KeptIsIndexed(v: View, l: Limits, dueHeap: multiset<Entry>, expiresAt: map<Wallet, real>,
                      expiryHeap: multiset<Entry>, row: Row, now: real)
    requires Indexed(v, l, dueHeap, expiresAt, expiryHeap)
    requires row.wallet in v.wallets || |v.wallets.Keys| < l.maxWallets
    ensures Indexed(Kept(v, l, row, now), l, dueHeap, Extended(l, expiresAt, row.wallet, now + l.ttl),
                    Announced(l, expiryHeap, row.wallet, now + l.ttl))
  {
    var at, w := now + l.ttl, row.wallet;
    KeptIsSound(v, l, row, now);
    ExtendedAnnounces(l, expiresAt, expiryHeap, v.lives, w, at);
    ExtendedKeys(l, expiresAt, v.wallets.Keys, w, at);
    IndexedFrom(v, Kept(v, l, row, now), l, dueHeap, Extended(l, expiresAt, w, at), Announced(l, expiryHeap, w, at));
  }

  lemma ExtendedKeys(l: Limits, times: map<Wallet, real>, keys: set<Wallet>, w: Wallet, at: real)
    requires times.Keys <= keys
    ensures Extended(l, times, w, at).Keys <= keys + {w}
  {
  }

  lemma IndexedFrom(v: View, v': View, l: Limits, dueHeap: multiset<Entry>, expiresAt: map<Wallet, real>,
                    expiryHeap: multiset<Entry>)
    requires HoldsDue(v.nextDue, dueHeap) && v'.nextDue == v.nextDue
    requires Sound(v', l) && expiresAt.Keys <= v'.wallets.Keys && Announces(expiresAt, expiryHeap, v'.lives)
    ensures Indexed(v', l, dueHeap, expiresAt, expiryHeap)
  {
  }

  lemma FullStaysFull(v: View, l: Limits, row: Row, now: real)
    requires Sound(v, l) && |v.wallets.Keys| == l.maxWallets && forall w | w in v.wallets :: Pinned(v, w)
    ensures AddRow(v, l, row, now).wallets.Keys == v.wallets.Keys
  {
    if row.wallet in v.wallets {
      KeptIsSound(v, l, row, now);
      assert v.wallets.Keys + {row.wallet} == v.wallets.Keys;
    }
  }

  /** Without its entry, a wallet's life is forgotten. */
  ghost function Forgotten(lives: map<Wallet, real>, expiryHeap: multiset<Entry>, e: Entry): map<Wallet, real> {
    if Lookup(lives, e.wallet) == Some(e.at) && e !in expiryHeap then Without(lives, e.wallet) else lives
  }

  lemma StillAnnounces(expiresAt: map<Wallet, real>, expiryHeap: multiset<Entry>, lives: map<Wallet, real>, e: Entry)
    requires Announces(expiresAt, expiryHeap, lives) && e in expiryHeap
    ensures
      var popped := expiryHeap - multiset{e};
      Announces(expiresAt, popped, Forgotten(lives, popped, e))
  {
    var popped := expiryHeap - multiset{e};
    assert forall x | x != e :: x in popped <==> x in expiryHeap;
  }

  lemma PoppedIsIndexed(v: View, l: Limits, dueHeap: multiset<Entry>, expiresAt: map<Wallet, real>,
                        expiryHeap: multiset<Entry>, e: Entry)
    requires Indexed(v, l, dueHeap, expiresAt, expiryHeap) && e in expiryHeap
    ensures
      var popped := expiryHeap - multiset{e};
      Indexed(v.(lives := Forgotten(v.lives, popped, e)), l, dueHeap, expiresAt, popped)
  {
    StillAnnounces(expiresAt, expiryHeap, v.lives, e);
  }

  /** Due times that were brought forward to `at`, for these wallets. */
  ghost predicate Scheduled(before: map<Wallet, real>, after: map<Wallet, real>, ws: set<Wallet>, at: real) {
    forall w :: Lookup(after, w) == if w in ws then Some(Earlier(Lookup(before, w), at)) else Lookup(before, w)
  }

  lemma ScheduledOneMore(before: map<Wallet, real>, after: map<Wallet, real>, ws: set<Wallet>, at: real, w: Wallet)
    requires Scheduled(before, after, ws, at)
    ensures Scheduled(before, after[w := Earlier(Lookup(after, w), at)], ws + {w}, at)
  {
    assert Lookup(after, w) == if w in ws then Some(Earlier(Lookup(before, w), at)) else Lookup(before, w);
    forall x
      ensures Lookup(after[w := Earlier(Lookup(after, w), at)], x)
              == if x in ws + {w} then Some(Earlier(Lookup(before, x), at)) else Lookup(before, x)
    {
      assert Lookup(after, x) == if x in ws then Some(Earlier(Lookup(before, x), at)) else Lookup(before, x);
    }
  }

  lemma ScheduledByThen(before: map<Wallet, real>, after: map<Wallet, real>, ws: set<Wallet>, at: real)
    requires Scheduled(before, after, ws, at)
    ensures forall w | w in ws :: w in after && after[w] <= at
  {
    forall w | w in ws ensures w in after && after[w] <= at {
      assert Lookup(after, w) == Some(Earlier(Lookup(before, w), at));
    }
  }

  /** The wallet was persisted and leaves. */
  ghost function Settled(v: View, w: Wallet, now: real): View {
    Removed(v, w).(pending := v.pending - {w}, lastPersisted := v.lastPersisted[w := now])
  }

  ghost predicate NoLater(after: map<Wallet, real>, before: map<Wallet, real>) {
    forall w | w in before :: w in after && after[w] <= before[w]
  }

  // ---------- Walking the due heap ----------

  /** The due wallets found so far come before all entries left, where every other live one still is. */
  ghost predicate ComesBefore(nextDue: map<Wallet, real>, due: set<Wallet>, rest: multiset<Entry>, now: real) {
    && (forall w | w in due ::
          w in nextDue && nextDue[w] <= now && forall e | e in rest :: !Sooner(e, Entry(nextDue[w], w)))
    && (forall v | v in nextDue && v !in due :: Entry(nextDue[v], v) in rest)
  }

  lemma ComesBeforeNext(nextDue: map<Wallet, real>, due: set<Wallet>, rest: multiset<Entry>, e: Entry, now: real)
    requires ComesBefore(nextDue, due, rest, now) && IsTop(rest, e) && e.at <= now
    ensures
      var live := e.wallet in nextDue && nextDue[e.wallet] == e.at;
      ComesBefore(nextDue, if live then due + {e.wallet} else due, rest - multiset{e}, now)
  {
    var live := e.wallet in nextDue && nextDue[e.wallet] == e.at;
    var more := if live then due + {e.wallet} else due;
    forall v | v in nextDue && v !in more ensures Entry(nextDue[v], v) in rest - multiset{e} {
      assert Entry(nextDue[v], v) in rest && Entry(nextDue[v], v) != e;
    }
    assert forall x | x in rest - multiset{e} :: x in rest;
  }

  lemma FirstDueFound(v: View, due: set<Wallet>, rest: multiset<Entry>, now: real, limit: Option<int>)
    requires ComesBefore(v.nextDue, due, rest, now) && (limit.Some? ==> |due| <= Max(1, limit.value))
    requires (limit.Some? && |due| >= Max(1, limit.value)) || forall e | e in rest :: now < e.at
    ensures IsFirstDue(v, due, now, limit)
  {
  }

  // ---------- The loops, wallet by wallet ----------

  /** The walk over the expiry heap has come to these samples and lives. */
  ghost predicate ExpiredSoFar(v: View, wallets: map<Wallet, Sample>, lives: map<Wallet, real>, now: real) {
    && (forall w :: w in wallets <==> w in v.wallets && (ExpiresBy(v, w, now) ==> w in lives))
    && (forall w | w in wallets :: wallets[w] == v.wallets[w])
    && (forall w | w in lives :: w in v.lives && lives[w] == v.lives[w])
    && (forall w | w in v.lives && w !in lives :: v.lives[w] <= now)
  }

  lemma ExpiredAtLast(v: View, wallets: map<Wallet, Sample>, lives: map<Wallet, real>, now: real)
    requires ExpiredSoFar(v, wallets, lives, now) && forall w | w in lives :: now < lives[w]
    ensures wallets == Expired(v, now).wallets && lives == Expired(v, now).lives
  {
  }

  /** What expires is what the heap announces. */
  lemma ExpiredMeans(v: View, l: Limits, expiresAt: map<Wallet, real>, expiryHeap: multiset<Entry>, now: real)
    requires Sound(v, l) && Announces(expiresAt, expiryHeap, v.lives)
    ensures forall w | w in v.wallets && w !in Expired(v, now).wallets ::
              l.ttl > 0.0 && !Pinned(v, w) && w in expiresAt && expiresAt[w] <= now
    ensures forall e | e in expiryHeap && e.at <= now && Lookup(expiresAt, e.wallet) == Some(e.at)
                       && !Pinned(v, e.wallet) :: e.wallet !in Expired(v, now).wallets
    ensures l.ttl <= 0.0 ==> ExpiredSoFar(v, v.wallets, v.lives, now)
  {
  }

  lemma NothingWithout(nextDue: map<Wallet, real>, w: Wallet)
    requires w !in nextDue
    ensures Without(nextDue, w) == nextDue
  {
  }

  lemma ExpiredOneMore(v: View, wallets: map<Wallet, Sample>, expiresAt: map<Wallet, real>, expiryHeap: multiset<Entry>,
                       lives: map<Wallet, real>, top: Entry, now: real)
    requires ExpiredSoFar(v, wallets, lives, now) && Announces(expiresAt, expiryHeap, lives)
    requires top in expiryHeap && top.at <= now
    ensures
      var left := Forgotten(lives, expiryHeap - multiset{top}, top);
      if Lookup(expiresAt, top.wallet) == Some(top.at) && !Pinned(v, top.wallet) then
        ExpiredSoFar(v, Without(wallets, top.wallet), Without(left, top.wallet), now)
      else ExpiredSoFar(v, wallets, left, now)
  {
  }

  /** What deciding has done to the times of the wallets it looked at so far. */
  ghost predicate DecidedSoFar(
    v: View, nextDue: map<Wallet, real>, lastPersisted: map<Wallet, real>, l: Limits, ws: set<Wallet>,
    seen: set<Wallet>, x: World)
    requires x.db.Some?
  {
    && (forall w :: Lookup(nextDue, w)
                    == if w in seen && !Ready(v, l, ws, x, w) then DueAfter(v, l, ws, x, w) else Lookup(v.nextDue, w))
    && (forall w :: Lookup(lastPersisted, w)
                    == if w in seen && w in v.wallets then LastAfter(v, l, x, w) else Lookup(v.lastPersisted, w))
  }

  /** Of the wallets looked at so far, these are ready. */
  ghost predicate IsReadySoFar(v: View, l: Limits, ws: set<Wallet>, x: World, seen: set<Wallet>, ready: set<Wallet>)
    requires x.db.Some?
  {
    forall w :: w in ready <==> w in seen && Ready(v, l, ws, x, w)
  }

  /** One more wallet has been looked at, and nothing else changed. */
  lemma DecidedOneMore(
    v: View, u: View, nextDue: map<Wallet, real>, lastPersisted: map<Wallet, real>, l: Limits, ws: set<Wallet>,
    seen: set<Wallet>, x: World, w: Wallet)
    requires x.db.Some? && w in ws && w !in seen
    requires u == v.(nextDue := u.nextDue, lastPersisted := u.lastPersisted)
    requires DecidedSoFar(v, u.nextDue, u.lastPersisted, l, ws, seen, x)
    requires forall y | y != w :: Lookup(nextDue, y) == Lookup(u.nextDue, y)
    requires forall y | y != w :: Lookup(lastPersisted, y) == Lookup(u.lastPersisted, y)
    requires Lookup(nextDue, w) == if Ready(u, l, {w}, x, w) then Lookup(u.nextDue, w) else DueAfter(u, l, {w}, x, w)
    requires Lookup(lastPersisted, w) == if w in u.wallets then LastAfter(u, l, x, w) else Lookup(u.lastPersisted, w)
    ensures DecidedSoFar(v, nextDue, lastPersisted, l, ws, seen + {w}, x)
  {
    DecidedAlike(v, u, l, ws, seen, x, w);
    forall y
      ensures Lookup(nextDue, y)
              == if y in seen + {w} && !Ready(v, l, ws, x, y) then DueAfter(v, l, ws, x, y) else Lookup(v.nextDue, y)
      ensures Lookup(lastPersisted, y)
              == if y in seen + {w} && y in v.wallets then LastAfter(v, l, x, y) else Lookup(v.lastPersisted, y)
    {
      if y != w {
        assert Lookup(nextDue, y) == Lookup(u.nextDue, y) && Lookup(lastPersisted, y) == Lookup(u.lastPersisted, y);
      }
    }
  }

  lemma DecidedAlike(v: View, u: View, l: Limits, ws: set<Wallet>, seen: set<Wallet>, x: World, w: Wallet)
    requires x.db.Some? && w in ws && w !in seen
    requires u == v.(nextDue := u.nextDue, lastPersisted := u.lastPersisted)
    requires DecidedSoFar(v, u.nextDue, u.lastPersisted, l, ws, seen, x)
    ensures Lookup(u.nextDue, w) == Lookup(v.nextDue, w) && Lookup(u.lastPersisted, w) == Lookup(v.lastPersisted, w)
    ensures Ready(u, l, {w}, x, w) == Ready(v, l, ws, x, w) && LastAfter(u, l, x, w) == LastAfter(v, l, x, w)
    ensures DueAfter(u, l, {w}, x, w) == DueAfter(v, l, ws, x, w)
  {
    assert Lookup(u.lastPersisted, w) == Lookup(v.lastPersisted, w);
  }

  /** The ready wallets are pinned and made due last. */
  lemma DecidedAtLast(v: View, u: View, d: View, l: Limits, ws: set<Wallet>, x: World, ready: set<Wallet>)
    requires x.db.Some? && IsReadySoFar(v, l, ws, x, ws, ready)
    requires u == v.(nextDue := u.nextDue, lastPersisted := u.lastPersisted)
    requires DecidedSoFar(v, u.nextDue, u.lastPersisted, l, ws, ws, x)
    requires d == u.(pending := d.pending, nextDue := d.nextDue) && d.pending == u.pending + ready
    requires Scheduled(u.nextDue, d.nextDue, ready, x.now)
    ensures IsDecided(v, d, l, ws, x)
  {
    forall w ensures Lookup(d.nextDue, w) == DueAfter(v, l, ws, x, w) {
      assert Lookup(u.nextDue, w)
          == if w in ws && !Ready(v, l, ws, x, w) then DueAfter(v, l, ws, x, w) else Lookup(v.nextDue, w);
    }
  }

  /** The rows are the whole samples of the ready wallets. */
  ghost predicate ListsReady(v: View, l: Limits, rows: seq<Row>, ws: set<Wallet>, x: World)
    requires x.db.Some?
  {
    && (forall w :: w in WalletsOf(rows) <==> Ready(v, l, ws, x, w))
    && Lists(rows, v.wallets, WalletsOf(rows))
  }

  /** `consume_qualified_rows`. */
  ghost predicate Consumed(v: View, v': View, l: Limits, batch: seq<Row>, x: World, rows: seq<Row>) {
    var g := Gathered(v, l, batch, x.now);
    if batch == [] || x.db.None? then v' == g && rows == []
    else IsDecided(g, v', l, WalletsOf(batch), x) && ListsReady(g, l, rows, WalletsOf(batch), x)
  }

  /** `due_rows`; `d` is the buffer before the due times are used up. */
  ghost predicate Took(
    v: View, v': View, l: Limits, limit: Option<int>, x: World, due: set<Wallet>, d: View, rows: seq<Row>)
  {
    var p := Pruned(v, l.cooldown, x.now);
    && IsFirstDue(v, due, x.now, limit)
    && if due == {} then rows == [] && v' == Expired(p, x.now)
       else if x.db.None? then rows == [] && v' == p
       else IsDecided(p, d, l, due, x) && IsTaken(d, v', due) && ListsReady(p, l, rows, due, x)
  }

  /** What the rows consumed mean for the buffer. */
  lemma ConsumedMeans(v: View, v': View, l: Limits, batch: seq<Row>, x: World, rows: seq<Row>)
    requires Steady(v, l) && Consumed(v, v', l, batch, x, rows)
    ensures Steady(v', l) && v'.wallets == Gathered(v, l, batch, x.now).wallets
    ensures v'.pending == v.pending + WalletsOf(rows) && Lists(rows, v'.wallets, WalletsOf(rows))
    ensures forall w | w in WalletsOf(rows) :: w in v'.nextDue && v'.nextDue[w] <= x.now
    ensures NoLater(v'.nextDue, v.nextDue)
    ensures x.db.Some? ==> forall w | w in WalletsOf(batch) && w in v'.wallets && PersistedIdentity(x.db.value, w) ::
                             w in v'.nextDue
  {
    var g := Gathered(v, l, batch, x.now);
    GatheredIsSteady(v, l, batch, x.now);
    if batch != [] && x.db.Some? {
      DecidedMeans(g, v', l, WalletsOf(batch), x, rows);
    }
  }

  lemma DecidedMeans(g: View, d: View, l: Limits, ws: set<Wallet>, x: World, rows: seq<Row>)
    requires x.db.Some? && Steady(g, l) && IsDecided(g, d, l, ws, x) && ListsReady(g, l, rows, ws, x)
    ensures Steady(d, l) && d.wallets == g.wallets
    ensures d.pending == g.pending + WalletsOf(rows) && Lists(rows, d.wallets, WalletsOf(rows))
    ensures forall w | w in WalletsOf(rows) :: w in d.nextDue && d.nextDue[w] <= x.now
    ensures NoLater(d.nextDue, g.nextDue)
    ensures forall w | w in ws && w in d.wallets && PersistedIdentity(x.db.value, w) :: w in d.nextDue
  {
    DecidedIsSteady(g, d, l, ws, x);
    DecidedTimes(g, d, l, ws, x);
  }

  /** What a decision means for the due times. */
  lemma DecidedTimes(v: View, d: View, l: Limits, ws: set<Wallet>, x: World)
    requires x.db.Some? && IsDecided(v, d, l, ws, x)
    ensures forall w | Ready(v, l, ws, x, w) :: w in d.nextDue && d.nextDue[w] <= x.now
    ensures SameOutside(d.nextDue, v.nextDue, ws) && NoLater(d.nextDue, v.nextDue)
    ensures forall w | w in ws && w in v.wallets && PersistedIdentity(x.db.value, w) :: w in d.nextDue
  {
    forall w
      ensures Ready(v, l, ws, x, w) ==> w in d.nextDue && d.nextDue[w] <= x.now
      ensures w !in ws ==> Lookup(d.nextDue, w) == Lookup(v.nextDue, w)
      ensures w in v.nextDue ==> w in d.nextDue && d.nextDue[w] <= v.nextDue[w]
      ensures w in ws && w in v.wallets && PersistedIdentity(x.db.value, w) ==> w in d.nextDue
    {
      assert Lookup(d.nextDue, w) == DueAfter(v, l, ws, x, w);
    }
  }

  /** The wallets of these rows have left, before old persistence times are forgotten once more. */
  ghost predicate SettledSoFar(v: View, v': View, gone: set<Wallet>, now: real) {
    && v'.nextPlace == v.nextPlace && v'.pending == v.pending - gone
    && IsWithout(v'.wallets, v.wallets, gone) && IsWithout(v'.nextDue, v.nextDue, gone)
    && IsWithout(v'.lives, v.lives, gone)
    && forall w :: Lookup(v'.lastPersisted, w) == if w in gone then Some(now) else Lookup(v.lastPersisted, w)
  }

  lemma SettledOneMore(v: View, u: View, u': View, gone: set<Wallet>, now: real, w: Wallet)
    requires SettledSoFar(v, u, gone, now)
    requires u' == Settled(u, w, now)
    ensures SettledSoFar(v, u', gone + {w}, now)
  {
    WithoutOneMore(u.wallets, v.wallets, gone, w);
    WithoutOneMore(u.nextDue, v.nextDue, gone, w);
    WithoutOneMore(u.lives, v.lives, gone, w);
    forall x ensures Lookup(u'.lastPersisted, x)
                     == if x in gone + {w} then Some(now) else Lookup(v.lastPersisted, x)
    {
      assert Lookup(u.lastPersisted, x) == if x in gone then Some(now) else Lookup(v.lastPersisted, x);
    }
  }

  lemma SettledAtLast(v: View, u: View, l: Limits, ws: set<Wallet>, now: real)
    requires SettledSoFar(Pruned(v, l.cooldown, now), u, ws, now)
    ensures IsWritten(v, Pruned(u, l.cooldown, now), l, ws, now)
  {
    PrunedLookup(v, l.cooldown, now);
    PrunedLookup(u, l.cooldown, now);
    forall w
      ensures Known(u, l.cooldown, now, w)
              == if w in ws then (if 0.0 < l.cooldown then Some(now) else None) else Known(v, l.cooldown, now, w)
    {
      assert Lookup(u.lastPersisted, w)
          == if w in ws then Some(now) else Lookup(Pruned(v, l.cooldown, now).lastPersisted, w);
    }
  }

  // ---------- The buffer ----------

  class Buffer {
    const ttl: real
    const maxWallets: nat
    const cooldown: real

    var wallets: map<Wallet, Sample>
    var nextPlace: nat
    var pending: set<Wallet>
    var lastPersisted: map<Wallet, real>
    var nextDue: map<Wallet, real>
    var dueHeap: multiset<Entry>
    var expiresAt: map<Wallet, real>
    var expiryHeap: multiset<Entry>
    ghost var lives: map<Wallet, real>
    var evicted: nat
    var backpressure: nat
    var deferredLowValue: nat

    constructor (ttl: real, maxWallets: int, cooldown: real)
      ensures Valid() && PendingIsDue(Now())
      ensures Now() == View(map[], 0, {}, map[], map[], map[])
      ensures L() == Limits(Max(1, maxWallets), MaxR(0.0, ttl), MaxR(0.0, cooldown))
    {
      this.ttl, this.maxWallets, this.cooldown := MaxR(0.0, ttl), Max(1, maxWallets), MaxR(0.0, cooldown);
      wallets, nextPlace, pending, lastPersisted := map[], 0, {}, map[];
      nextDue, dueHeap, expiresAt, expiryHeap, lives := map[], multiset{}, map[], multiset{}, map[];
      evicted, backpressure, deferredLowValue := 0, 0, 0;
    }

    ghost function Now(): View
      reads this
    {
      View(wallets, nextPlace, pending, nextDue, lives, lastPersisted)
    }

    function L(): Limits {
      Limits(maxWallets, ttl, cooldown)
    }

    ghost predicate Valid()
      reads this
    {
      Indexed(Now(), L(), dueHeap, expiresAt, expiryHeap)
    }

    /** Forget a wallet's buffered sample and its times. */
    method Remove(w: Wallet)
      requires Valid() && w !in pending
      modifies this`wallets, this`nextDue, this`expiresAt, this`lives
      ensures Valid() && Now() == Removed(old(Now()), w)
      ensures expiresAt == Without(old(expiresAt), w)
    {
      RemovedIsIndexed(Now(), L(), dueHeap, expiresAt, expiryHeap, w);
      wallets := Without(wallets, w);
      nextDue := Without(nextDue, w);
      expiresAt := Without(expiresAt, w);
      lives := Without(lives, w);
    }

    /** Make room for one new wallet by evicting the unpinned one inserted first. It fails only when the
        buffer is full of pinned wallets. */
    method MakeRoom() returns (ok: bool)
      requires Valid()
      modifies this`wallets, this`nextDue, this`expiresAt, this`lives, this`evicted
      ensures Valid() && nextDue == old(nextDue)
      ensures MadeRoom(old(Now()), L()) == if ok then Some(Now()) else None
      ensures ok <==> |old(wallets).Keys| < maxWallets || exists w :: w in old(wallets) && !old(Pinned(Now(), w))
      ensures ok ==> |wallets.Keys| < maxWallets
      ensures |old(wallets).Keys| < maxWallets || !ok ==> Now() == old(Now())
      ensures evicted == old(evicted) + if |old(wallets).Keys| >= maxWallets && ok then 1 else 0
      ensures |old(wallets).Keys| >= maxWallets && ok ==>
                exists w :: IsOldestUnpinned(old(Now()), w) && wallets == Without(old(wallets), w)
    {
      if |wallets.Keys| < maxWallets {
        return true;
      }
      var victim := FirstUnpinned();
      if victim.None? {
        return false;
      }
      ghost var v := Now();
      assert MadeRoom(v, L()) == Some(Removed(v, victim.value)) by {
        var w :| IsOldestUnpinned(v, w) && MadeRoom(v, L()) == Some(Removed(v, w));
        OneOldest(v, w, victim.value);
      }
      MadeRoomIsSound(v, L());
      MadeRoomFrame(v, L());
      Remove(victim.value);
      evicted := evicted + 1;
      ok := true;
    }

    /** The first wallet in insertion order that is not pinned. */
    method FirstUnpinned() returns (victim: Option<Wallet>)
      requires Valid()
      ensures victim.None? ==> forall w | w in wallets :: Pinned(Now(), w)
      ensures victim.Some? ==> IsOldestUnpinned(Now(), victim.value)
    {
      victim := None;
      var rest := wallets.Keys;
      while rest != {}
        invariant rest <= wallets.Keys
        invariant victim.None? ==> forall w | w in wallets && w !in rest :: Pinned(Now(), w)
        invariant victim.Some? ==>
                    && victim.value in wallets && !Pinned(Now(), victim.value)
                    && forall w | w in wallets && w !in rest && !Pinned(Now(), w) ::
                         wallets[victim.value].place <= wallets[w].place
        decreases rest
      {
        var w :| w in rest;
        rest := rest - {w};
        if w !in pending && w !in nextDue && (victim.None? || wallets[w].place < wallets[victim.value].place) {
          victim := Some(w);
        }
      }
    }

    method ScheduleDue(w: Wallet, dueAt: real)
      requires Valid() && w in wallets
      modifies this`nextDue, this`dueHeap
      ensures Valid()
      ensures nextDue == old(nextDue)[w := Earlier(old(Lookup(nextDue, w)), dueAt)]
      ensures dueHeap == if w in old(nextDue) && old(nextDue)[w] <= dueAt then old(dueHeap)
                         else old(dueHeap) + multiset{Entry(dueAt, w)}
    {
      if w in nextDue && nextDue[w] <= dueAt {
        return;
      }
      nextDue := nextDue[w := dueAt];
      dueHeap := dueHeap + multiset{Entry(dueAt, w)};
    }

    method ScheduleExpiry(w: Wallet, at: real)
      modifies this`expiresAt, this`expiryHeap, this`lives
      ensures lives == Extended(L(), old(lives), w, at) && expiresAt == Extended(L(), old(expiresAt), w, at)
      ensures expiryHeap == Announced(L(), old(expiryHeap), w, at)
    {
      if ttl <= 0.0 {
        return;
      }
      expiresAt := expiresAt[w := at];
      expiryHeap := expiryHeap + multiset{Entry(at, w)};
      lives := lives[w := at];
    }

    /** The entry is its wallet's live expiry time, and the wallet is not pinned. */
    predicate ExpiresWith(e: Entry)
      reads this
    {
      e.wallet in expiresAt && expiresAt[e.wallet] == e.at && e.wallet !in pending && e.wallet !in nextDue
    }

    /** Drop every unpinned wallet whose live expiry time has passed. Pinned wallets are skipped. */
    method Expire(now: real)
      requires Valid()
      modifies this`wallets, this`nextDue, this`expiresAt, this`expiryHeap, this`lives, this`evicted
      ensures Valid() && Now() == Expired(old(Now()), now)
      ensures forall w | w in old(wallets) && w !in wallets ::
                ttl > 0.0 && w !in pending && w !in nextDue && w in old(expiresAt) && old(expiresAt)[w] <= now
      ensures ttl > 0.0 ==>
                forall e | e in old(expiryHeap) && e.at <= now && old(ExpiresWith(e)) :: e.wallet !in wallets
      ensures ttl > 0.0 ==> forall e | e in expiryHeap :: now < e.at
    {
      ghost var v := Now();
      ExpiredMeans(v, L(), expiresAt, expiryHeap, now);
      if ttl > 0.0 {
        ExpireAll(now);
      }
      ExpiredAtLast(v, wallets, lives, now);
    }

    method ExpireAll(now: real)
      requires Valid()
      modifies this`wallets, this`nextDue, this`expiresAt, this`expiryHeap, this`lives, this`evicted
      ensures Valid() && nextDue == old(nextDue) && ExpiredSoFar(old(Now()), wallets, lives, now)
      ensures forall e | e in expiryHeap :: now < e.at
    {
      ghost var v := Now();
      while |expiryHeap| > 0
        invariant Valid() && nextDue == v.nextDue
        invariant ExpiredSoFar(v, wallets, lives, now)
        decreases |expiryHeap|
      {
        var top := Top(expiryHeap);
        if top.at > now {
          break;
        }
        ExpireTop(top, v, now);
      }
    }

    method PopExpiry(top: Entry)
      requires Valid() && top in expiryHeap
      modifies this`expiryHeap, this`lives
      ensures Valid() && expiryHeap == old(expiryHeap) - multiset{top}
      ensures lives == Forgotten(old(lives), expiryHeap, top)
    {
      PoppedIsIndexed(Now(), L(), dueHeap, expiresAt, expiryHeap, top);
      expiryHeap := expiryHeap - multiset{top};
      lives := Forgotten(lives, expiryHeap, top);
    }

    /** Pop one entry and drop its wallet, if that is how it expires. */
    method ExpireTop(top: Entry, ghost v: View, now: real)
      requires Valid() && top in expiryHeap && top.at <= now
      requires nextDue == v.nextDue && pending == v.pending && ExpiredSoFar(v, wallets, lives, now)
      modifies this`wallets, this`nextDue, this`expiresAt, this`expiryHeap, this`lives, this`evicted
      ensures Valid() && nextDue == v.nextDue && ExpiredSoFar(v, wallets, lives, now)
      ensures expiryHeap == old(expiryHeap) - multiset{top}
      ensures evicted == old(evicted) + if old(ExpiresWith(top)) then 1 else 0
    {
      ExpiredOneMore(v, wallets, expiresAt, expiryHeap, lives, top, now);
      PopExpiry(top);
      if top.wallet !in expiresAt || expiresAt[top.wallet] != top.at {
        return;
      }
      if top.wallet in pending || top.wallet in nextDue {
        return;
      }
      ExpireLive(top.wallet);
    }

    method ExpireLive(w: Wallet)
      requires Valid() && w !in pending && w !in nextDue
      modifies this`wallets, this`nextDue, this`expiresAt, this`lives, this`evicted
      ensures Valid() && nextDue == old(nextDue) && evicted == old(evicted) + 1
      ensures wallets == Without(old(wallets), w) && lives == Without(old(lives), w)
    {
      NothingWithout(nextDue, w);
      Remove(w);
      evicted := evicted + 1;
    }

    /** Forget persistence times that no longer matter. */
    method PrunePersisted(now: real)
      requires Valid()
      modifies this`lastPersisted
      ensures Valid() && Now() == Pruned(old(Now()), cooldown, now)
      ensures forall w :: Lookup(lastPersisted, w) == Known(old(Now()), cooldown, now, w)
    {
      var expiredBefore := now - cooldown;
      ghost var v := Now();
      var rest := lastPersisted.Keys;
      while rest != {}
        invariant rest <= v.lastPersisted.Keys
        invariant forall w :: Lookup(lastPersisted, w) ==
                              if w in rest then Lookup(v.lastPersisted, w) else Known(v, cooldown, now, w)
        decreases rest
      {
        var w :| w in rest;
        rest := rest - {w};
        if cooldown <= 0.0 || (lastPersisted[w] <= expiredBefore && w !in wallets && w !in nextDue) {
          lastPersisted := Without(lastPersisted, w);
        }
      }
      PrunedLookup(v, cooldown, now);
      SameMap(lastPersisted, Pruned(v, cooldown, now).lastPersisted);
    }

    /** Learn from the database, once, how recently another process persisted the wallet. */
    method HydrateCooldown(w: Wallet, now: real, dbUpdatedAt: int, wall: real)
      requires Valid()
      modifies this`lastPersisted
      ensures Valid()
      ensures Lookup(lastPersisted, w) == LastPersisted(old(Lookup(lastPersisted, w)), cooldown, now, dbUpdatedAt, wall)
      ensures forall v | v != w :: Lookup(lastPersisted, v) == old(Lookup(lastPersisted, v))
    {
      if w in lastPersisted {
        return;
      }
      if cooldown <= 0.0 || dbUpdatedAt <= 0 {
        return;
      }
      var age := MaxR(0.0, wall - dbUpdatedAt as real);
      if age >= cooldown {
        return;
      }
      lastPersisted := lastPersisted[w := now - age];
    }

    // ---------- Due wallets ----------

    predicate IsLive(e: Entry)
      reads this
    {
      e.wallet in nextDue && nextDue[e.wallet] == e.at && e.wallet in wallets
    }

    /** Pop the stale entries on top of the heap. */
    method DropStale()
      requires Valid()
      modifies this`dueHeap
      ensures Valid()
      ensures forall e | e in old(dueHeap) && IsLive(e) :: dueHeap[e] == old(dueHeap)[e]
      ensures |dueHeap| > 0 ==> exists top :: IsTop(dueHeap, top) && IsLive(top)
    {
      while |dueHeap| > 0
        invariant Valid()
        invariant forall e | e in old(dueHeap) && IsLive(e) :: dueHeap[e] == old(dueHeap)[e]
        decreases |dueHeap|
      {
        var top := Top(dueHeap);
        if top.wallet in nextDue && nextDue[top.wallet] == top.at && top.wallet in wallets {
          return;
        }
        dueHeap := dueHeap - multiset{top};
      }
    }

    /** The first `limit` due wallets in (due time, wallet) order: a walk over the sorted heap, with its stale
        and repeated entries, refines `next_due_at`. */
    method FirstDue(now: real, limit: Option<int>) returns (due: set<Wallet>)
      requires Valid()
      ensures IsFirstDue(Now(), due, now, limit)
    {
      due := {};
      var rest := dueHeap;
      while |rest| > 0 && (limit.None? || |due| < Max(1, limit.value))
        invariant limit.Some? ==> |due| <= Max(1, limit.value)
        invariant ComesBefore(nextDue, due, rest, now)
        decreases |rest|
      {
        var e := Top(rest);
        if e.at > now {
          break;
        }
        ComesBeforeNext(nextDue, due, rest, e, now);
        rest := rest - multiset{e};
        if e.wallet in nextDue && nextDue[e.wallet] == e.at && e.wallet in wallets {
          due := due + {e.wallet};
        }
      }
      FirstDueFound(Now(), due, rest, now, limit);
    }

    /** Drop what is stale on top of the heap, then list the due wallets. */
    method PeekDue(now: real, limit: Option<int>) returns (due: set<Wallet>)
      requires Valid()
      modifies this`dueHeap
      ensures Valid()
      ensures IsFirstDue(Now(), due, now, limit)
    {
      DropStale();
      due := FirstDue(now, limit);
    }

    method ConsumeDue(ws: set<Wallet>)
      requires Valid()
      modifies this`nextDue
      ensures Valid() && IsWithout(nextDue, old(nextDue), ws)
    {
      nextDue := nextDue - ws;
    }

    /** After a failed flush, the wallets of its rows are due again. */
    method RestoreDue(rows: seq<Row>, dueAt: real)
      requires Valid()
      modifies this`nextDue, this`dueHeap
      ensures Valid()
      ensures Scheduled(old(nextDue), nextDue, WalletsOf(rows) * wallets.Keys, dueAt)
      ensures forall w | w in WalletsOf(rows) && w in wallets :: w in nextDue && nextDue[w] <= dueAt
    {
      ghost var before := nextDue;
      for i := 0 to |rows|
        invariant Valid() && Scheduled(before, nextDue, WalletsOf(rows[..i]) * wallets.Keys, dueAt)
      {
        WalletsOfPrefix(rows, i);
        ScheduledOneMore(before, nextDue, WalletsOf(rows[..i]) * wallets.Keys, dueAt, rows[i].wallet);
        if rows[i].wallet in wallets {
          ScheduleDue(rows[i].wallet, dueAt);
          assert WalletsOf(rows[..i + 1]) * wallets.Keys == WalletsOf(rows[..i]) * wallets.Keys + {rows[i].wallet};
        } else {
          assert WalletsOf(rows[..i + 1]) * wallets.Keys == WalletsOf(rows[..i]) * wallets.Keys;
        }
      }
      assert rows[..|rows|] == rows;
      ScheduledByThen(before, nextDue, WalletsOf(rows) * wallets.Keys, dueAt);
    }

    // ---------- Qualification ----------

    ghost predicate WouldQualify(db: Snapshot, w: Wallet, now: real, wall: real)
      reads this
    {
      w in wallets && Qualifies(db, w, wallets[w].rows, w in pending, Lookup(lastPersisted, w), cooldown, now, wall)
    }

    /** Decide one wallet; a known wallet still cooling down is looked at again when its cooldown ends, unless it
        is due earlier. */
    method Decide(w: Wallet, db: Snapshot, now: real, wall: real, incoming: nat) returns (qualifies: bool)
      requires Valid() && w in wallets
      modifies this`lastPersisted, this`nextDue, this`dueHeap, this`deferredLowValue
      ensures Valid()
      ensures qualifies <==> old(WouldQualify(db, w, now, wall))
      ensures Lookup(lastPersisted, w)
           == LastPersisted(old(Lookup(lastPersisted, w)), cooldown, now, DbUpdatedAt(db, w), wall)
      ensures forall v | v != w :: Lookup(lastPersisted, v) == old(Lookup(lastPersisted, v))
      ensures SameOutside(nextDue, old(nextDue), {w})
      ensures w in old(nextDue) ==> w in nextDue && nextDue[w] <= old(nextDue)[w]
      ensures qualifies || !PersistedIdentity(db, w) ==> nextDue == old(nextDue)
      ensures !qualifies && PersistedIdentity(db, w) ==>
                && w in lastPersisted && w in nextDue
                && nextDue[w] == Earlier(old(Lookup(nextDue, w)), lastPersisted[w] + cooldown)
      ensures deferredLowValue == old(deferredLowValue) + if qualifies then 0 else incoming
    {
      var reachesGate := ReachesGate(db, w, wallets[w].rows);
      var persistedIdentity := PersistedIdentity(db, w);
      HydrateCooldown(w, now, DbUpdatedAt(db, w), wall);
      var cooldownActive := CoolingDown(Lookup(lastPersisted, w), cooldown, now);
      if w in pending || (reachesGate && w !in db.candidates) || (persistedIdentity && !cooldownActive) {
        return true;
      }
      if persistedIdentity && cooldownActive {
        ScheduleDue(w, lastPersisted[w] + cooldown);
      }
      deferredLowValue := deferredLowValue + incoming;
      qualifies := false;
    }

    /** Decide one wallet of those asked for, if it is buffered. */
    method DecideBuffered(w: Wallet, x: World, incoming: nat) returns (qualifies: bool)
      requires Valid() && x.db.Some?
      modifies this`lastPersisted, this`nextDue, this`dueHeap, this`deferredLowValue
      ensures Valid()
      ensures qualifies <==> Ready(old(Now()), L(), {w}, x, w)
      ensures forall v | v != w :: Lookup(lastPersisted, v) == old(Lookup(lastPersisted, v))
      ensures forall v | v != w :: Lookup(nextDue, v) == old(Lookup(nextDue, v))
      ensures
        var u := old(Now());
        && Lookup(nextDue, w) == (if qualifies then Lookup(u.nextDue, w) else DueAfter(u, L(), {w}, x, w))
        && Lookup(lastPersisted, w) == if w in wallets then LastAfter(u, L(), x, w) else Lookup(u.lastPersisted, w)
    {
      qualifies := false;
      if w in wallets {
        qualifies := Decide(w, x.db.value, x.now, x.wall, incoming);
      }
    }

    /** Decide one more wallet of those asked for. */
    method DecideNext(
      w: Wallet, x: World, incoming: nat, qualified: set<Wallet>, ghost v: View, ghost ws: set<Wallet>,
      ghost seen: set<Wallet>)
      returns (more: set<Wallet>)
      requires Valid() && x.db.Some? && w in ws && w !in seen
      requires Now() == v.(nextDue := nextDue, lastPersisted := lastPersisted)
      requires DecidedSoFar(v, nextDue, lastPersisted, L(), ws, seen, x) && IsReadySoFar(v, L(), ws, x, seen, qualified)
      modifies this`lastPersisted, this`nextDue, this`dueHeap, this`deferredLowValue
      ensures Valid() && DecidedSoFar(v, nextDue, lastPersisted, L(), ws, seen + {w}, x)
      ensures IsReadySoFar(v, L(), ws, x, seen + {w}, more)
    {
      ghost var u := Now();
      DecidedAlike(v, u, L(), ws, seen, x, w);
      var qualifies := DecideBuffered(w, x, incoming);
      DecidedOneMore(v, u, nextDue, lastPersisted, L(), ws, seen, x, w);
      more := if qualifies then qualified + {w} else qualified;
    }

    /** Decide every wallet asked for. */
    method DecideAll(ws: set<Wallet>, x: World, incoming: map<Wallet, nat>) returns (qualified: set<Wallet>)
      requires Valid() && x.db.Some?
      modifies this`lastPersisted, this`nextDue, this`dueHeap, this`deferredLowValue
      ensures Valid() && DecidedSoFar(old(Now()), nextDue, lastPersisted, L(), ws, ws, x)
      ensures IsReadySoFar(old(Now()), L(), ws, x, ws, qualified)
    {
      ghost var v := Now();
      qualified := {};
      var rest := ws;
      while rest != {}
        invariant Valid() && rest <= ws
        invariant IsReadySoFar(v, L(), ws, x, ws - rest, qualified)
        invariant DecidedSoFar(v, nextDue, lastPersisted, L(), ws, ws - rest, x)
        decreases rest
      {
        var w := Smallest(rest);
        assert ws - (rest - {w}) == ws - rest + {w};
        qualified := DecideNext(w, x, if w in incoming then incoming[w] else 0, qualified, v, ws, ws - rest);
        rest := rest - {w};
      }
      assert ws - rest == ws;
    }

    method Pin(w: Wallet, now: real)
      requires Valid() && w in wallets
      modifies this`nextDue, this`dueHeap, this`pending
      ensures Valid() && pending == old(pending) + {w}
      ensures nextDue == old(nextDue)[w := Earlier(old(Lookup(nextDue, w)), now)]
    {
      pending := pending + {w};
      ScheduleDue(w, now);
    }

    /** Pin the qualified wallets, make them due, and list their samples. */
    method PinAll(qualified: set<Wallet>, now: real) returns (rows: seq<Row>)
      requires Valid() && qualified <= wallets.Keys
      modifies this`nextDue, this`dueHeap, this`pending
      ensures Valid()
      ensures Lists(rows, wallets, qualified) && pending == old(pending) + qualified
      ensures Scheduled(old(nextDue), nextDue, qualified, now)
    {
      rows := [];
      var left, done := qualified, {};
      ghost var before := nextDue;
      while left != {}
        invariant Valid() && left + done == qualified && left !! done
        invariant pending == old(pending) + done && Lists(rows, wallets, done)
        invariant Scheduled(before, nextDue, done, now)
        decreases left
      {
        var w := Smallest(left);
        assert Owned(wallets, w);
        ListsOneMore(rows, wallets, done, w);
        ScheduledOneMore(before, nextDue, done, now, w);
        left, done := left - {w}, done + {w};
        rows := rows + wallets[w].rows;
        Pin(w, now);
      }
    }

    /** The samples of the wallets that qualify; each of them is pinned and due from now on. */
    method QualifiedRows(ws: set<Wallet>, x: World, incoming: map<Wallet, nat>) returns (rows: seq<Row>)
      requires Valid() && x.db.Some?
      modifies this`lastPersisted, this`nextDue, this`dueHeap, this`pending, this`deferredLowValue
      ensures Valid() && IsDecided(old(Now()), Now(), L(), ws, x) && ListsReady(old(Now()), L(), rows, ws, x)
      ensures pending == old(pending) + WalletsOf(rows)
      ensures forall w | w in WalletsOf(rows) :: w in nextDue && nextDue[w] <= x.now
      ensures SameOutside(nextDue, old(nextDue), ws) && NoLater(nextDue, old(nextDue))
      ensures forall w | w in ws && w in wallets && PersistedIdentity(x.db.value, w) :: w in nextDue
    {
      ghost var v := Now();
      var qualified := DecideAll(ws, x, incoming);
      ghost var u := Now();
      rows := PinAll(qualified, x.now);
      DecidedAtLast(v, u, Now(), L(), ws, x, qualified);
      DecidedTimes(v, Now(), L(), ws, x);
    }

    static method Smallest(ws: set<Wallet>) returns (w: Wallet)
      requires ws != {}
      ensures w in ws && forall v | v in ws :: w <= v
    {
      w :| w in ws;
      var rest := ws - {w};
      while rest != {}
        invariant w in ws && rest <= ws && forall v | v in ws && v !in rest :: w <= v
        decreases rest
      {
        var v :| v in rest;
        rest := rest - {v};
        if v < w {
          w := v;
        }
      }
    }

    // ---------- The operations ----------

    ghost predicate FullOfPinned()
      reads this
    {
      |wallets.Keys| == maxWallets && forall w | w in wallets :: Pinned(Now(), w)
    }

    /** The wallet's sample so far, or room for a new one. */
    method Admit(w: Wallet) returns (ok: bool, rows: seq<Row>)
      requires Valid()
      modifies this`wallets, this`nextDue, this`expiresAt, this`lives, this`evicted
      ensures Valid() && nextDue == old(nextDue) && rows == RowsIn(Now(), w)
      ensures ok ==> w in wallets || |wallets.Keys| < maxWallets
      ensures w in old(wallets) || !ok ==> Now() == old(Now())
      ensures w in old(wallets) ==> ok
      ensures w !in old(wallets) ==> w !in wallets && MadeRoom(old(Now()), L()) == if ok then Some(Now()) else None
      ensures !ok ==> FullOfPinned()
    {
      ok, rows := true, [];
      if w in wallets {
        rows := wallets[w].rows;
      } else {
        ghost var v := Now();
        ok := MakeRoom();
        if ok {
          MadeRoomFrame(v, L());
        }
      }
    }

    /** Buffer one row; a new wallet is refused only when every buffered wallet is pinned. */
    method Add(row: Row, now: real)
      requires Valid()
      modifies this`wallets, this`nextPlace, this`nextDue, this`expiresAt, this`expiryHeap, this`lives, this`evicted
      modifies this`backpressure
      ensures Valid() && nextDue == old(nextDue) && Now() == AddRow(old(Now()), L(), row, now)
      ensures forall w | w in old(pending) || w in old(nextDue) :: w in wallets
      ensures forall w | w != row.wallet && w in wallets :: w in old(wallets) && wallets[w] == old(wallets)[w]
      // The wallet's sample takes the row; a new wallet starts with it.
      ensures row.wallet in old(wallets) ==> row.wallet in wallets
      ensures row.wallet in wallets ==> wallets[row.wallet].rows == WithRow(RowsIn(old(Now()), row.wallet), row)
      ensures row.wallet in wallets && 0.0 < ttl ==> row.wallet in expiresAt && expiresAt[row.wallet] == now + ttl
      ensures backpressure == old(backpressure) + if row.wallet in wallets then 0 else 1
      ensures row.wallet !in wallets ==> Now() == old(Now()) && FullOfPinned()
    {
      ghost var v := Now();
      AddRowFrame(v, L(), row, now);
      AddRowSample(v, L(), row, now);
      var ok, rows := Admit(row.wallet);
      if !ok {
        backpressure := backpressure + 1;
        return;
      }
      Keep(row, rows, now);
    }

    /** The row goes into the wallet's sample so far, and the sample's life starts again. */
    method Keep(row: Row, rows: seq<Row>, now: real)
      requires Valid() && (row.wallet in wallets || |wallets.Keys| < maxWallets) && rows == RowsIn(Now(), row.wallet)
      modifies this`wallets, this`nextPlace, this`expiresAt, this`expiryHeap, this`lives
      ensures Valid() && Now() == Kept(old(Now()), L(), row, now)
      ensures 0.0 < ttl ==> row.wallet in expiresAt && expiresAt[row.wallet] == now + ttl
    {
      KeptIsIndexed(Now(), L(), dueHeap, expiresAt, expiryHeap, row, now);
      Put(row, rows, now);
    }

    method Put(row: Row, rows: seq<Row>, now: real)
      requires rows == RowsIn(Now(), row.wallet)
      modifies this`wallets, this`nextPlace, this`expiresAt, this`expiryHeap, this`lives
      ensures Now() == Kept(old(Now()), L(), row, now)
      ensures expiresAt == Extended(L(), old(expiresAt), row.wallet, now + ttl)
      ensures expiryHeap == Announced(L(), old(expiryHeap), row.wallet, now + ttl)
    {
      Store(row.wallet, WithRow(rows, row));
      ScheduleExpiry(row.wallet, now + ttl);
    }

    /** `self.wallets[wallet] = sample`: a new key goes to the end of the order. */
    method Store(w: Wallet, rows: seq<Row>)
      modifies this`wallets, this`nextPlace
      ensures wallets == old(wallets)[w := Sample(rows, if w in old(wallets) then old(wallets)[w].place
                                                        else old(nextPlace))]
      ensures nextPlace == if w in old(wallets) then old(nextPlace) else old(nextPlace) + 1
    {
      var place := nextPlace;
      if w in wallets {
        place := wallets[w].place;
      } else {
        nextPlace := nextPlace + 1;
      }
      wallets := wallets[w := Sample(rows, place)];
    }

    /** Buffer a batch and return the samples that qualify. Reading the database may fail after the rows
        are buffered; nothing is lost then. */
    method ConsumeQualifiedRows(batch: seq<Row>, x: World) returns (ok: bool, rows: seq<Row>)
      requires Valid() && PendingIsDue(Now())
      modifies this
      ensures Valid() && PendingIsDue(Now())
      ensures ok <==> batch == [] || x.db.Some?
      ensures Consumed(old(Now()), Now(), L(), batch, x, rows)
      ensures pending == old(pending) + WalletsOf(rows) && Lists(rows, wallets, WalletsOf(rows))
      ensures forall w | w in WalletsOf(rows) :: w in nextDue && nextDue[w] <= x.now
      ensures NoLater(nextDue, old(nextDue))
      ensures x.db.Some? ==>
                forall w | w in WalletsOf(batch) && w in wallets && PersistedIdentity(x.db.value, w) :: w in nextDue
      ensures backpressure > old(backpressure) ==> FullOfPinned()
    {
      ghost var v := Now();
      ok, rows := Consume(batch, x);
      ConsumedMeans(v, Now(), L(), batch, x, rows);
    }

    method Consume(batch: seq<Row>, x: World) returns (ok: bool, rows: seq<Row>)
      requires Valid()
      modifies this
      ensures Valid() && ok == (batch == [] || x.db.Some?)
      ensures Consumed(old(Now()), Now(), L(), batch, x, rows)
      ensures backpressure > old(backpressure) ==> FullOfPinned()
    {
      var touched, incoming := Gather(batch, x.now);
      if touched == {} {
        return true, [];
      }
      if x.db.None? {
        return false, [];
      }
      rows := QualifiedRows(touched, x, incoming);
      ok := true;
    }

    method Gather(batch: seq<Row>, now: real) returns (touched: set<Wallet>, incoming: map<Wallet, nat>)
      requires Valid()
      modifies this`wallets, this`nextPlace, this`nextDue, this`expiresAt, this`expiryHeap, this`lives,
               this`lastPersisted, this`evicted, this`backpressure
      ensures Valid() && nextDue == old(nextDue) && touched == WalletsOf(batch)
      ensures Now() == Gathered(old(Now()), L(), batch, now)
      ensures backpressure > old(backpressure) ==> FullOfPinned()
    {
      PrunePersisted(now);
      Expire(now);
      touched, incoming := AddAll(batch, now);
    }

    method AddAll(batch: seq<Row>, now: real) returns (touched: set<Wallet>, incoming: map<Wallet, nat>)
      requires Valid()
      modifies this`wallets, this`nextPlace, this`nextDue, this`expiresAt, this`expiryHeap, this`lives, this`evicted
      modifies this`backpressure
      ensures Valid() && nextDue == old(nextDue) && touched == WalletsOf(batch)
      ensures Now() == AddRows(old(Now()), L(), batch, now)
      ensures backpressure > old(backpressure) ==> FullOfPinned()
    {
      touched := {};
      incoming := map[];
      ghost var v := Now();
      for i := 0 to |batch|
        invariant Valid() && nextDue == v.nextDue && touched == WalletsOf(batch[..i])
        invariant Now() == AddRows(v, L(), batch[..i], now)
        invariant backpressure >= old(backpressure)
        invariant backpressure > old(backpressure) ==> FullOfPinned()
      {
        WalletsOfPrefix(batch, i);
        var w := batch[i].wallet;
        touched := touched + {w};
        incoming := incoming[w := (if w in incoming then incoming[w] else 0) + 1];
        assert batch[..i + 1][..i] == batch[..i];
        AddNext(batch[i], now);
      }
      assert batch[..|batch|] == batch;
    }

    /** Once the buffer is full of pinned wallets it stays so for the rest of the batch. */
    method AddNext(row: Row, now: real)
      requires Valid()
      modifies this`wallets, this`nextPlace, this`nextDue, this`expiresAt, this`expiryHeap, this`lives, this`evicted
      modifies this`backpressure
      ensures Valid() && nextDue == old(nextDue) && Now() == AddRow(old(Now()), L(), row, now)
      ensures backpressure >= old(backpressure)
      ensures backpressure > old(backpressure) || old(FullOfPinned()) ==> FullOfPinned()
    {
      if FullOfPinned() {
        FullStaysFull(Now(), L(), row, now);
      }
      Add(row, now);
    }

    /** The samples of the due wallets that qualify. Their due times are consumed: until the flush ends,
        only the returned rows stand for them. `d` is the buffer before they are. */
    method DueRows(x: World, limit: Option<int>)
      returns (ok: bool, rows: seq<Row>, ghost due: set<Wallet>, ghost d: View)
      requires Valid() && PendingIsDue(Now())
      modifies this
      ensures Valid() && ok == (due == {} || x.db.Some?)
      ensures Took(old(Now()), Now(), L(), limit, x, due, d, rows)
    {
      rows, due, d := [], {}, Now();
      var first := FindDue(x.now, limit);
      due := first;
      if first == {} {
        Expire(x.now);
        return true, [], due, d;
      }
      if x.db.None? {
        return false, [], due, d;
      }
      rows, d := TakeDue(first, x);
      ok := true;
    }

    method FindDue(now: real, limit: Option<int>) returns (due: set<Wallet>)
      requires Valid()
      modifies this`lastPersisted, this`dueHeap
      ensures Valid() && Now() == Pruned(old(Now()), cooldown, now) && IsFirstDue(old(Now()), due, now, limit)
    {
      PrunePersisted(now);
      due := PeekDue(now, limit);
    }

    method TakeDue(due: set<Wallet>, x: World) returns (rows: seq<Row>, ghost d: View)
      requires Valid() && x.db.Some?
      modifies this`lastPersisted, this`nextDue, this`dueHeap, this`pending, this`deferredLowValue
      ensures Valid() && IsDecided(old(Now()), d, L(), due, x) && IsTaken(d, Now(), due)
      ensures ListsReady(old(Now()), L(), rows, due, x)
    {
      rows := QualifiedRows(due, x, map[]);
      d := Now();
      ConsumeDue(due);
    }

    /** The rows reached the database: their wallets leave the buffer and start their cooldown. */
    method MarkPersisted(rows: seq<Row>, now: real)
      requires Valid()
      modifies this
      ensures Valid() && IsWritten(old(Now()), Now(), L(), WalletsOf(rows), now)
    {
      ghost var v := Now();
      PrunePersisted(now);
      SettleAll(rows, now);
      SettledAtLast(v, Now(), L(), WalletsOf(rows), now);
      PrunePersisted(now);
    }

    method SettleAll(rows: seq<Row>, now: real)
      requires Valid()
      modifies this`wallets, this`pending, this`nextDue, this`expiresAt, this`lives, this`lastPersisted
      ensures Valid() && SettledSoFar(old(Now()), Now(), WalletsOf(rows), now)
    {
      ghost var v := Now();
      for i := 0 to |rows|
        invariant Valid() && SettledSoFar(v, Now(), WalletsOf(rows[..i]), now)
      {
        WalletsOfPrefix(rows, i);
        ghost var u := Now();
        Settle(rows[i].wallet, now);
        SettledOneMore(v, u, Now(), WalletsOf(rows[..i]), now, rows[i].wallet);
      }
      assert rows[..|rows|] == rows;
    }

    method Settle(w: Wallet, now: real)
      requires Valid()
      modifies this`wallets, this`pending, this`nextDue, this`expiresAt, this`lives, this`lastPersisted
      ensures Valid()
      ensures Now() == Settled(old(Now()), w, now)
    {
      SettledIsIndexed(Now(), L(), dueHeap, expiresAt, expiryHeap, w, now);
      wallets := Without(wallets, w);
      pending := pending - {w};
      nextDue := Without(nextDue, w);
      expiresAt := Without(expiresAt, w);
      lives := Without(lives, w);
      lastPersisted := lastPersisted[w := now];
    }

    /** Buffer a batch and persist what qualifies. A failed write leaves every qualified wallet pinned, due
        and whole, so that a later drain retries it. `d` is the buffer before anything is written. */
    method FlushPendingBatch(batch: seq<Row>, x: World) returns (persisted: seq<Row>, ghost d: View)
      requires Valid() && PendingIsDue(Now())
      modifies this
      ensures Valid() && PendingIsDue(Now()) && Flushed(old(Now()), Now(), L(), batch, x, d, persisted)
    {
      ghost var v := Now();
      persisted, d := [], v;
      if batch == [] {
        return;
      }
      var ok, rows := ConsumeQualifiedRows(batch, x);
      d := Now();
      if !ok || rows == [] || !x.writeSucceeds {
        return;
      }
      MarkPersisted(rows, x.now);
      persisted := rows;
      FlushKeepsSteady(v, Now(), L(), batch, x, d, persisted);
    }

    /** Persist the due wallets that qualify. A failed write makes them due again. `due` is what was drained, `d` and
        `t` are the buffer before and after their due times were used up. */
    method FlushDueBuffer(x: World, limit: Option<int>)
      returns (persisted: seq<Row>, ghost due: set<Wallet>, ghost d: View, ghost t: View)
      requires Valid() && PendingIsDue(Now())
      modifies this
      ensures Valid() && PendingIsDue(Now()) && Drained(old(Now()), Now(), L(), limit, x, due, d, t, persisted)
    {
      persisted := [];
      ghost var v := Now();
      var ok, rows, drained, decided := DueRows(x, limit);
      due, d, t := drained, decided, Now();
      if rows != [] {
        persisted := WriteDue(Pruned(v, cooldown, x.now), due, x, rows);
      }
      DrainKeepsSteady(v, Now(), L(), limit, x, due, d, t, persisted);
    }

    /** Write the rows of the due wallets, or make their wallets due again. */
    method WriteDue(ghost p: View, ghost due: set<Wallet>, x: World, rows: seq<Row>) returns (persisted: seq<Row>)
      requires Valid() && x.db.Some? && ListsReady(p, L(), rows, due, x) && rows != []
      requires wallets == p.wallets && forall w | w in due :: w !in nextDue
      modifies this
      ensures Valid()
      ensures if x.writeSucceeds then WritesReady(p, old(Now()), Now(), L(), due, x, persisted)
              else persisted == [] && IsRestored(p, old(Now()), Now(), L(), due, x)
    {
      persisted := [];
      if !x.writeSucceeds {
        RestoreDue(rows, x.now);
        return;
      }
      MarkPersisted(rows, x.now);
      persisted := rows;
    }

    /** Any sequence of operations is a run. */
    method Run(ops: seq<Op>) returns (persisted: seq<seq<Row>>, ghost views: seq<View>)
      requires Valid() && PendingIsDue(Now())
      modifies this
      ensures Valid() && IsRun(views, L(), ops, persisted) && views[0] == old(Now()) && views[|ops|] == Now()
    {
      persisted, views := [], [Now()];
      for i := 0 to |ops|
        invariant Valid() && PendingIsDue(Now())
        invariant IsRun(views, L(), ops[..i], persisted) && views[0] == old(Now()) && views[i] == Now()
      {
        assert ops[..i + 1] == ops[..i] + [ops[i]];
        var rows := PerformNext(views, ops[..i], persisted, ops[i]);
        persisted, views := persisted + [rows], views + [Now()];
      }
      assert ops[..|ops|] == ops;
    }

    method PerformNext(ghost views: seq<View>, ghost ops: seq<Op>, ghost persisted: seq<seq<Row>>, op: Op)
      returns (rows: seq<Row>)
      requires Valid() && PendingIsDue(Now())
      requires IsRun(views, L(), ops, persisted) && views[|ops|] == Now()
      modifies this
      ensures Valid() && PendingIsDue(Now()) && IsRun(views + [Now()], L(), ops + [op], persisted + [rows])
    {
      rows := Perform(op);
      RunGoesOn(views, L(), ops, persisted, Now(), op, rows);
    }

    method Perform(op: Op) returns (persisted: seq<Row>)
      requires Valid() && PendingIsDue(Now())
      modifies this
      ensures Valid() && PendingIsDue(Now()) && Does(old(Now()), Now(), L(), op, persisted)
    {
      match op
      case Flush(batch, x) =>
        ghost var d;
        persisted, d := FlushPendingBatch(batch, x);
      case Drain(limit, x) =>
        ghost var due, d, t;
        persisted, due, d, t := FlushDueBuffer(x, limit);
    }
  }
}
