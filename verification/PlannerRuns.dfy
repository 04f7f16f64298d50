/** Whole runs over the planner's tables: writers work on any wallets while the planner claims, reads, replaces and
    patches whole batches. For each wallet such a run is a run of `PlannerCache`, so that its results hold of the
    tables. */
module PlannerRuns {
  import opened Terms
  import opened PlannerRow
  import opened PlannerCache
  import opened PlannerTables

  /** The tables, and what the one planner process holds in memory about the wallets it has claimed. */
  datatype System = System(v: View, flights: map<Wallet, Flight>)

  const EMPTY := System(View(map[], map[], map[], map[], map[]), map[])

  function CellAt(s: System, w: Wallet): Cell {
    CellOf(s.v, w, if w in s.flights then s.flights[w] else Idle)
  }

  /** One transaction of a writer on one wallet, or one statement or batch of the planner. The queries that claim
      a refresh batch are steps of their own, as are the reads of each chunk of wallets. */
  datatype Change =
    | Write(wallet: Wallet, write: Step, at: int)
    | ClaimRefreshes(refreshes: seq<RefreshClaim>, now: int)
    | ReadTable(read: Step, chunk: set<Wallet>)
    | ReplaceBatch(replaced: seq<RefreshClaim>, rows: map<Wallet, StateRow>)
    | ClaimSightings(sightings: seq<SightingClaim>)
    | ApplyBatch(applied: seq<SightingClaim>)

  predicate IsWrite(s: Step) {
    s.InsertLevel? || s.UpdateLevel? || s.DeleteLevel? || s.Sight? || WritesEvidence(s)
  }

  function Put<K(!new), V>(m: map<K, V>, k: K, value: Option<V>): map<K, V> {
    if value.Some? then m[k := value.value] else Without(m, k)
  }

  /** A bumped row carries the time of the write that bumped it. */
  function DirtyRow(v: View, w: Wallet, generation: Option<nat>, at: int): Option<Dirty> {
    if generation.None? then None
    else if w in v.dirty && v.dirty[w].generation == generation.value then Some(v.dirty[w])
    else Some(Dirty(generation.value, at))
  }

  function SightingRow(v: View, w: Wallet, sighting: Option<Sighting>, at: int): Option<QueuedSighting> {
    if sighting.None? then None
    else if w in v.sightings && v.sightings[w].generation == sighting.value.generation
            && v.sightings[w].lastSeen == sighting.value.lastSeen then Some(v.sightings[w])
    else Some(QueuedSighting(sighting.value.lastSeen, at, sighting.value.generation))
  }

  /** The tables after a transaction that leaves the wallet like this. */
  function Written(v: View, w: Wallet, c: Cell, at: int): View {
    View(
      Put(v.levels, w, c.level), v.evidence[w := c.ev],
      Put(v.dirty, w, DirtyRow(v, w, c.dirty, at)), Put(v.sightings, w, SightingRow(v, w, c.sighting, at)),
      v.state)
  }

  function NewFlight(c: RefreshClaim, now: int): Flight {
    Refreshing(c.generation, now, Unread, Unread, Unread, Unread, Unread)
  }

  ghost predicate RefreshesClaimed(s: System, claims: seq<RefreshClaim>, now: int, s': System) {
    && PNL_INCOMPLETE_REFRESH_SECONDS <= now && DistinctWallets(claims)
    && (forall c | c in claims :: Claimable(s.v, c, now) && c.wallet !in s.flights)
    && s'.v == s.v
    && (forall c | c in claims :: Lookup(s'.flights, c.wallet) == Some(NewFlight(c, now)))
    && (forall w | !IsClaimed(claims, w) :: Lookup(s'.flights, w) == Lookup(s.flights, w))
  }

  ghost predicate ChunkRead(s: System, read: Step, chunk: set<Wallet>, s': System, policy: Policy) {
    && IsRead(read) && s'.v == s.v
    && (forall w | w in chunk ::
          && w in s.flights && Enabled(CellAt(s, w), read)
          && Lookup(s'.flights, w) == Some(Next(CellAt(s, w), read, policy).flight))
    && (forall w | w !in chunk :: Lookup(s'.flights, w) == Lookup(s.flights, w))
  }

  /** Every claimed wallet has been read, and these are the rows computed from what was read. */
  ghost predicate BatchRead(flights: map<Wallet, Flight>, claims: seq<RefreshClaim>, rows: map<Wallet, StateRow>,
                            policy: Policy) {
    && (forall w | w in flights ::
          && AllRead(flights[w]) && RefreshClaim(w, flights[w].generation) in claims
          && Lookup(rows, w) == RebuiltRow(flights[w], policy))
    && (forall c | c in claims :: c.wallet in flights)
    && (forall w | w in rows :: w in flights)
  }

  ghost predicate BatchReplaced(s: System, claims: seq<RefreshClaim>, rows: map<Wallet, StateRow>, s': System,
                                policy: Policy) {
    && DistinctWallets(claims) && BatchRead(s.flights, claims, rows, policy)
    && Replaced(s.v, s'.v, claims, rows) && s'.flights == map[]
  }

  ghost predicate SightingsClaimed(s: System, claims: seq<SightingClaim>, s': System) {
    && s.flights == map[] && DistinctSightings(claims)
    && (forall c | c in claims ::
          && c.wallet in s.v.sightings && c.wallet in s.v.state && c.wallet !in s.v.dirty
          && c == Tables.ClaimOf(c.wallet, s.v.sightings[c.wallet], s.v.state[c.wallet]))
    && s'.v == s.v
    && (forall c | c in claims :: Lookup(s'.flights, c.wallet) == Some(AsFlight(c)))
    && (forall w | !IsSightingClaimed(claims, w) :: w !in s'.flights)
  }

  ghost predicate BatchApplied(s: System, claims: seq<SightingClaim>, s': System, policy: Policy) {
    && DistinctSightings(claims)
    && (forall c | c in claims :: Lookup(s.flights, c.wallet) == Some(AsFlight(c)))
    && (forall w | w in s.flights :: IsSightingClaimed(claims, w))
    && SightingsApplied(s.v, s'.v, claims, policy) && s'.flights == map[]
  }

  ghost predicate Changes(s: System, change: Change, s': System, policy: Policy) {
    match change
    case Write(w, write, at) =>
      && IsWrite(write) && Enabled(CellAt(s, w), write)
      && s' == System(Written(s.v, w, Next(CellAt(s, w), write, policy), at), s.flights)
    case ClaimRefreshes(claims, now) => RefreshesClaimed(s, claims, now, s')
    case ReadTable(read, chunk) => ChunkRead(s, read, chunk, s', policy)
    case ReplaceBatch(claims, rows) => BatchReplaced(s, claims, rows, s', policy)
    case ClaimSightings(claims) => SightingsClaimed(s, claims, s')
    case ApplyBatch(claims) => BatchApplied(s, claims, s', policy)
  }

  // ---------- Each wallet makes a step of the protocol, or none ----------

  /** The wallet's part of a change. */
  ghost function StepOf(s: System, change: Change, s': System, w: Wallet): Option<Step> {
    match change
    case Write(wallet, write, _) => if w == wallet then Some(write) else None
    case ClaimRefreshes(claims, now) =>
      if IsClaimed(claims, w) && w in s'.flights && s'.flights[w].Refreshing?
      then Some(ClaimRefresh(s'.flights[w].generation, now)) else None
    case ReadTable(read, chunk) => if w in chunk then Some(read) else None
    case ReplaceBatch(_, _) => if w in s.flights then Some(Replace) else None
    case ClaimSightings(claims) => if IsSightingClaimed(claims, w) then Some(ClaimSighting) else None
    case ApplyBatch(_) => if w in s.flights then Some(ApplySighting) else None
  }

  ghost predicate MakesStep(c: Cell, step: Option<Step>, c': Cell, policy: Policy) {
    if step.None? then c' == c
    else Enabled(c, step.value) && c' == Next(c, step.value, policy)
  }

  lemma WriteKeepsRowAndFlight(c: Cell, write: Step, policy: Policy)
    requires IsWrite(write) && Enabled(c, write)
    ensures Next(c, write, policy).row == c.row && Next(c, write, policy).flight == c.flight
  {
  }

  lemma WrittenWalletByWallet(v: View, w: Wallet, c: Cell, at: int, x: Wallet, f: Flight)
    requires c.row == CellOf(v, w, f).row
    ensures CellOf(Written(v, w, c, at), x, f) == if x == w then c.(flight := f) else CellOf(v, x, f)
  {
  }

  lemma WriteIsAStep(s: System, change: Change, s': System, w: Wallet, policy: Policy)
    requires change.Write? && Changes(s, change, s', policy)
    ensures MakesStep(CellAt(s, w), StepOf(s, change, s', w), CellAt(s', w), policy)
  {
    var Write(wallet, write, at) := change;
    var c := CellAt(s, wallet);
    WriteKeepsRowAndFlight(c, write, policy);
    WrittenWalletByWallet(s.v, wallet, Next(c, write, policy), at, w, CellAt(s, w).flight);
  }

  lemma ClaimIsAStep(s: System, change: Change, s': System, w: Wallet, policy: Policy)
    requires change.ClaimRefreshes? && Changes(s, change, s', policy)
    ensures MakesStep(CellAt(s, w), StepOf(s, change, s', w), CellAt(s', w), policy)
  {
    if IsClaimed(change.refreshes, w) {
      var c :| c in change.refreshes && c.wallet == w;
      ClaimableIsEnabled(s.v, c, change.now);
    }
  }

  lemma ReadIsAStep(s: System, change: Change, s': System, w: Wallet, policy: Policy)
    requires change.ReadTable? && Changes(s, change, s', policy)
    ensures MakesStep(CellAt(s, w), StepOf(s, change, s', w), CellAt(s', w), policy)
  {
    if w in change.chunk {
      var c := CellAt(s, w);
      assert Enabled(c, change.read);
      assert Next(c, change.read, policy) == c.(flight := Next(c, change.read, policy).flight);
    }
  }

  lemma ReplaceIsAStep(s: System, change: Change, s': System, w: Wallet, policy: Policy)
    requires change.ReplaceBatch? && Changes(s, change, s', policy)
    ensures MakesStep(CellAt(s, w), StepOf(s, change, s', w), CellAt(s', w), policy)
  {
    if w in s.flights {
      ReplacedWalletByWallet(s.v, s'.v, change.replaced, change.rows, w, s.flights[w], policy);
    } else {
      UntouchedByReplace(s.v, s'.v, change.replaced, change.rows, w);
    }
  }

  lemma SightingClaimIsAStep(s: System, change: Change, s': System, w: Wallet, policy: Policy)
    requires change.ClaimSightings? && Changes(s, change, s', policy)
    ensures MakesStep(CellAt(s, w), StepOf(s, change, s', w), CellAt(s', w), policy)
  {
    if IsSightingClaimed(change.sightings, w) {
      var c :| c in change.sightings && c.wallet == w;
      assert Lookup(s'.flights, w) == Some(AsFlight(c));
    }
  }

  lemma ApplyIsAStep(s: System, change: Change, s': System, w: Wallet, policy: Policy)
    requires change.ApplyBatch? && Changes(s, change, s', policy)
    ensures MakesStep(CellAt(s, w), StepOf(s, change, s', w), CellAt(s', w), policy)
  {
    AppliedWalletByWallet(s.v, s'.v, change.applied, policy, w);
    if w in s.flights {
      var c :| c in change.applied && c.wallet == w;
      assert Lookup(s.flights, w) == Some(AsFlight(c));
    }
  }

  /** Whatever happens to the tables is, for each wallet, a step that the protocol allows it, or nothing. */
  lemma EveryWalletMakesAStep(s: System, change: Change, s': System, w: Wallet, policy: Policy)
    requires Changes(s, change, s', policy)
    ensures MakesStep(CellAt(s, w), StepOf(s, change, s', w), CellAt(s', w), policy)
  {
    match change
    case Write(_, _, _) => WriteIsAStep(s, change, s', w, policy);
    case ClaimRefreshes(_, _) => ClaimIsAStep(s, change, s', w, policy);
    case ReadTable(_, _) => ReadIsAStep(s, change, s', w, policy);
    case ReplaceBatch(_, _) => ReplaceIsAStep(s, change, s', w, policy);
    case ClaimSightings(_) => SightingClaimIsAStep(s, change, s', w, policy);
    case ApplyBatch(_) => ApplyIsAStep(s, change, s', w, policy);
  }

  // ---------- Runs ----------

  ghost predicate IsTableRun(states: seq<System>, changes: seq<Change>, policy: Policy)
    decreases |changes|
  {
    && |states| == |changes| + 1
    && (changes != [] ==>
          Changes(states[0], changes[0], states[1], policy) && IsTableRun(states[1..], changes[1..], policy))
  }

  /** What the run does to one wallet. */
  ghost function StepsOf(states: seq<System>, changes: seq<Change>, w: Wallet): seq<Step>
    requires |states| == |changes| + 1
    decreases |changes|
  {
    if changes == [] then []
    else
      var rest := StepsOf(states[1..], changes[1..], w);
      match StepOf(states[0], changes[0], states[1], w)
      case None => rest
      case Some(step) => [step] + rest
  }

  /** One wallet's share of a run over the tables is a run of the protocol. */
  lemma {:induction false} WalletRuns(states: seq<System>, changes: seq<Change>, w: Wallet, policy: Policy)
    requires IsTableRun(states, changes, policy)
    ensures IsRun(CellAt(states[0], w), StepsOf(states, changes, w), policy)
    ensures After(CellAt(states[0], w), StepsOf(states, changes, w), policy) == CellAt(states[|changes|], w)
    decreases |changes|
  {
    if changes != [] {
      EveryWalletMakesAStep(states[0], changes[0], states[1], w, policy);
      WalletRuns(states[1..], changes[1..], w, policy);
      OneMoreStep(
        CellAt(states[0], w), StepOf(states[0], changes[0], states[1], w), CellAt(states[1], w),
        StepsOf(states[1..], changes[1..], w), StepsOf(states, changes, w), policy);
    }
  }

  lemma OneMoreStep(c: Cell, step: Option<Step>, c': Cell, rest: seq<Step>, steps: seq<Step>, policy: Policy)
    requires MakesStep(c, step, c', policy) && IsRun(c', rest, policy)
    requires steps == if step.Some? then [step.value] + rest else rest
    ensures IsRun(c, steps, policy) && After(c, steps, policy) == After(c', rest, policy)
  {
    if step.Some? {
      assert steps[1..] == rest;
    }
  }

  /** After any run from empty tables, each wallet has a full-dirty row, or no state row, or a state row that
      describes its current evidence until it is due. */
  lemma TablesStayCoherent(states: seq<System>, changes: seq<Change>, policy: Policy, w: Wallet)
    requires IsTableRun(states, changes, policy) && states[0] == EMPTY
    ensures
      var s := states[|changes|];
      w in s.v.dirty || w !in s.v.state || RowIsRight(CellAt(s, w), policy)
  {
    WalletRuns(states, changes, w, policy);
    CoherentAfterEveryRun(StepsOf(states, changes, w), policy);
  }

  /** When the two readiness queries find nothing, every row selected is eligible under a fresh evaluation of the
      wallet's evidence, whenever that is made. */
  lemma ReadyTablesSelectSoundly(states: seq<System>, changes: seq<Change>, policy: Policy, now: int)
    requires IsTableRun(states, changes, policy) && states[0] == EMPTY && IsReady(states[|changes|].v)
    ensures
      var v := states[|changes|].v;
      forall w | w in v.state && v.state[w].eligible && v.state[w].refreshedAt <= now ::
        w in v.levels && StateRowAt(v.levels[w], EvidenceOf(v, w), policy, now).eligible
  {
    var v := states[|changes|].v;
    forall w | w in v.state && v.state[w].eligible && v.state[w].refreshedAt <= now
      ensures w in v.levels && StateRowAt(v.levels[w], EvidenceOf(v, w), policy, now).eligible
    {
      WalletRuns(states, changes, w, policy);
      ReadyWalletByWallet(v);
      assert Ready(CellOf(v, w, Idle));
      SelectedIsEligibleNow(StepsOf(states, changes, w), policy, now);
    }
  }

  /** A wallet that ready tables hold back wrongly has a queued sighting or is due, unless its first row was built
      past a sighting and nothing has made up for that since. */
  lemma ReadyTablesQueueTheRest(states: seq<System>, changes: seq<Change>, policy: Policy, w: Wallet, now: int)
    requires IsTableRun(states, changes, policy) && states[0] == EMPTY && IsReady(states[|changes|].v)
    requires
      var v := states[|changes|].v;
      && IsRun(NEW_WALLET, StepsOf(states, changes, w), policy)
      && !UnhealedRace(NEW_WALLET, StepsOf(states, changes, w), policy)
      && w in v.levels && Planned(v.levels[w].level)
      && StateRowAt(v.levels[w], EvidenceOf(v, w), policy, now).eligible
    ensures
      var v := states[|changes|].v;
      && w in v.state
      && (v.state[w].refreshedAt <= now ==>
            v.state[w].eligible || w in v.sightings || IsDue(v, w, now))
  {
    var v := states[|changes|].v;
    WalletRuns(states, changes, w, policy);
    assert !IsMissing(v, w);
    if v.state[w].refreshedAt <= now && !v.state[w].eligible {
      HeldBackIsQueuedOrDue(StepsOf(states, changes, w), policy, now);
    }
  }

  // ---------- The planner's own rounds are runs ----------

  const READS := [ReadLevel, ReadScreen, ReadSummary, ReadPnl, ReadJobs]

  /** What is held about a claimed wallet after the first `stage` tables have been read. */
  function FlightAt(v: View, c: RefreshClaim, now: int, stage: nat): Flight {
    var level, ev := LevelOf(v, c.wallet), EvidenceOf(v, c.wallet);
    var served := PlannedRow(level);
    Refreshing(
      c.generation, now,
      if stage > 0 then Seen(level) else Unread,
      if stage > 1 && served then Seen(ev.screen) else Unread,
      if stage > 2 && served then Seen(ev.summary) else Unread,
      if stage > 3 && served then Seen(ev.pnl) else Unread,
      if stage > 4 && served then Seen(ev.jobs) else Unread)
  }

  function Flights(v: View, claims: seq<RefreshClaim>, now: int, stage: nat): map<Wallet, Flight> {
    if claims == [] then map[]
    else
      var c := claims[|claims| - 1];
      Flights(v, claims[..|claims| - 1], now, stage)[c.wallet := FlightAt(v, c, now, stage)]
  }

  lemma {:induction false} FlightsByWallet(v: View, claims: seq<RefreshClaim>, now: int, stage: nat, w: Wallet)
    requires DistinctWallets(claims)
    ensures forall c | c in claims && c.wallet == w ::
              Lookup(Flights(v, claims, now, stage), w) == Some(FlightAt(v, c, now, stage))
    ensures !IsClaimed(claims, w) ==> w !in Flights(v, claims, now, stage)
  {
    if claims != [] {
      var init, last := claims[..|claims| - 1], claims[|claims| - 1];
      assert claims == init + [last];
      FlightsByWallet(v, init, now, stage, w);
      if !IsClaimed(claims, w) {
        assert last in claims && forall c | c in init :: c in claims;
      }
    }
  }

  /** The wallets whose rows the read of this table concerns: all claimed ones for the levels, then those served. */
  function Chunk(v: View, claims: seq<RefreshClaim>, stage: nat): set<Wallet> {
    if claims == [] then {}
    else
      var w := claims[|claims| - 1].wallet;
      Chunk(v, claims[..|claims| - 1], stage) + if stage == 0 || PlannedRow(LevelOf(v, w)) then {w} else {}
  }

  lemma {:induction false} ChunkByWallet(v: View, claims: seq<RefreshClaim>, stage: nat, w: Wallet)
    ensures w in Chunk(v, claims, stage) <==> IsClaimed(claims, w) && (stage == 0 || PlannedRow(LevelOf(v, w)))
  {
    if claims != [] {
      var init, last := claims[..|claims| - 1], claims[|claims| - 1];
      assert claims == init + [last];
      ChunkByWallet(v, init, stage, w);
      if IsClaimed(init, w) {
        var c :| c in init && c.wallet == w;
        assert c in claims;
      }
      assert last in claims;
    }
  }

  lemma ReadOfStage(v: View, c: RefreshClaim, now: int, stage: nat, policy: Policy)
    requires stage < |READS|
    ensures
      var cell := CellOf(v, c.wallet, FlightAt(v, c, now, stage));
      if stage == 0 || PlannedRow(LevelOf(v, c.wallet))
      then Enabled(cell, READS[stage])
           && Next(cell, READS[stage], policy).flight == FlightAt(v, c, now, stage + 1)
      else FlightAt(v, c, now, stage + 1) == FlightAt(v, c, now, stage)
  {
  }

  lemma StageIsAChange(v: View, claims: seq<RefreshClaim>, now: int, stage: nat, policy: Policy)
    requires DistinctWallets(claims) && stage < |READS|
    ensures
      Changes(
        System(v, Flights(v, claims, now, stage)), ReadTable(READS[stage], Chunk(v, claims, stage)),
        System(v, Flights(v, claims, now, stage + 1)), policy)
  {
    var before, after := Flights(v, claims, now, stage), Flights(v, claims, now, stage + 1);
    forall w: Wallet
      ensures
        if w in Chunk(v, claims, stage)
        then w in before && Enabled(CellOf(v, w, before[w]), READS[stage])
             && Lookup(after, w) == Some(Next(CellOf(v, w, before[w]), READS[stage], policy).flight)
        else Lookup(after, w) == Lookup(before, w)
    {
      FlightsByWallet(v, claims, now, stage, w);
      FlightsByWallet(v, claims, now, stage + 1, w);
      ChunkByWallet(v, claims, stage, w);
      if IsClaimed(claims, w) {
        var c :| c in claims && c.wallet == w;
        ReadOfStage(v, c, now, stage, policy);
      }
    }
  }

  lemma ClaimIsAChange(v: View, now: int, limit: int, claims: seq<RefreshClaim>, dirties: nat, dues: nat,
                       policy: Policy)
    requires IsRefreshBatch(v, now, limit, claims, dirties, dues) && PNL_INCOMPLETE_REFRESH_SECONDS <= now
    ensures Changes(System(v, map[]), ClaimRefreshes(claims, now), System(v, Flights(v, claims, now, 0)), policy)
  {
    forall c | c in claims
      ensures Claimable(v, c, now) && Lookup(Flights(v, claims, now, 0), c.wallet) == Some(NewFlight(c, now))
    {
      assert Justified(v, c, now);
      FlightsByWallet(v, claims, now, 0, c.wallet);
    }
    forall w: Wallet | !IsClaimed(claims, w) ensures w !in Flights(v, claims, now, 0) {
      FlightsByWallet(v, claims, now, 0, w);
    }
  }

  lemma FlightsAreRead(v: View, claims: seq<RefreshClaim>, now: int, rows: map<Wallet, StateRow>, policy: Policy)
    requires DistinctWallets(claims) && IsRowsOf(v, claims, now, policy, rows)
    ensures BatchRead(Flights(v, claims, now, 5), claims, rows, policy)
  {
    var flights := Flights(v, claims, now, 5);
    forall c | c in claims ensures Lookup(flights, c.wallet) == Some(FlightAt(v, c, now, 5)) {
      FlightsByWallet(v, claims, now, 5, c.wallet);
    }
    forall w | w in flights
      ensures AllRead(flights[w]) && RefreshClaim(w, flights[w].generation) in claims
              && Lookup(rows, w) == RebuiltRow(flights[w], policy)
    {
      FlightsByWallet(v, claims, now, 5, w);
      var c :| c in claims && c.wallet == w;
      ReadFlight(v, claims, c, now, rows, policy);
    }
  }

  lemma ReplaceIsAChange(v: View, claims: seq<RefreshClaim>, now: int, rows: map<Wallet, StateRow>, v': View,
                         policy: Policy)
    requires DistinctWallets(claims) && IsRowsOf(v, claims, now, policy, rows) && Replaced(v, v', claims, rows)
    ensures Changes(System(v, Flights(v, claims, now, 5)), ReplaceBatch(claims, rows), System(v', map[]), policy)
  {
    FlightsAreRead(v, claims, now, rows, policy);
  }

  /** A flight that has read every table yields the row computed from the tables. */
  lemma ReadFlight(v: View, claims: seq<RefreshClaim>, c: RefreshClaim, now: int, rows: map<Wallet, StateRow>,
                   policy: Policy)
    requires c in claims && IsRowsOf(v, claims, now, policy, rows)
    ensures
      var f := FlightAt(v, c, now, 5);
      AllRead(f) && f.generation == c.generation && Lookup(rows, c.wallet) == RebuiltRow(f, policy)
  {
    var f := FlightAt(v, c, now, 5);
    assert IsClaimed(claims, c.wallet);
    if LevelReadIsPlanned(f) {
      var ev := EvidenceOf(v, c.wallet);
      assert Evidence(f.screen.value, f.summary.value, f.pnl.value, f.jobs.value) == ev;
    }
  }

  /** An uninterrupted rebuild round is a run: claim, read the five tables, replace. */
  lemma RebuildRoundIsARun(v: View, now: int, limit: int, claims: seq<RefreshClaim>, dirties: nat, dues: nat,
                           rows: map<Wallet, StateRow>, v': View, policy: Policy)
    requires IsRefreshBatch(v, now, limit, claims, dirties, dues) && PNL_INCOMPLETE_REFRESH_SECONDS <= now
    requires IsRowsOf(v, claims, now, policy, rows) && Replaced(v, v', claims, rows)
    ensures exists states, changes ::
              IsTableRun(states, changes, policy) && states[0] == System(v, map[])
              && states[|changes|] == System(v', map[])
  {
    var last := System(v', map[]);
    ReplaceIsAChange(v, claims, now, rows, v', policy);
    var states, changes := [System(v, Flights(v, claims, now, 5)), last], [ReplaceBatch(claims, rows)];
    assert IsTableRun(states[1..], changes[1..], policy);
    states, changes := ReadsComeFirst(v, claims, now, 5, states, changes, policy);
    ClaimIsAChange(v, now, limit, claims, dirties, dues, policy);
    states, changes := OneChangeEarlier(System(v, map[]), ClaimRefreshes(claims, now), states, changes, policy);
  }

  lemma {:induction false} ReadsComeFirst(v: View, claims: seq<RefreshClaim>, now: int, stage: nat,
                                          states: seq<System>, changes: seq<Change>, policy: Policy)
    returns (states': seq<System>, changes': seq<Change>)
    requires DistinctWallets(claims) && stage <= |READS|
    requires IsTableRun(states, changes, policy) && states[0] == System(v, Flights(v, claims, now, stage))
    ensures IsTableRun(states', changes', policy) && states'[0] == System(v, Flights(v, claims, now, 0))
    ensures states'[|changes'|] == states[|changes|]
    decreases stage
  {
    if stage == 0 {
      states', changes' := states, changes;
    } else {
      StageIsAChange(v, claims, now, stage - 1, policy);
      var before := System(v, Flights(v, claims, now, stage - 1));
      states', changes' :=
        OneChangeEarlier(before, ReadTable(READS[stage - 1], Chunk(v, claims, stage - 1)), states, changes, policy);
      states', changes' := ReadsComeFirst(v, claims, now, stage - 1, states', changes', policy);
    }
  }

  lemma OneChangeEarlier(s: System, change: Change, states: seq<System>, changes: seq<Change>, policy: Policy)
    returns (states': seq<System>, changes': seq<Change>)
    requires IsTableRun(states, changes, policy) && Changes(s, change, states[0], policy)
    ensures IsTableRun(states', changes', policy)
    ensures states'[0] == s && states'[|changes'|] == states[|changes|]
  {
    states', changes' := [s] + states, [change] + changes;
    assert states'[1..] == states && changes'[1..] == changes;
  }

  function SightingFlights(claims: seq<SightingClaim>): map<Wallet, Flight> {
    if claims == [] then map[]
    else SightingFlights(claims[..|claims| - 1])[claims[|claims| - 1].wallet := AsFlight(claims[|claims| - 1])]
  }

  lemma {:induction false} SightingFlightsByWallet(claims: seq<SightingClaim>, w: Wallet)
    requires DistinctSightings(claims)
    ensures forall c | c in claims && c.wallet == w :: Lookup(SightingFlights(claims), w) == Some(AsFlight(c))
    ensures !IsSightingClaimed(claims, w) ==> w !in SightingFlights(claims)
  {
    if claims != [] {
      var init, last := claims[..|claims| - 1], claims[|claims| - 1];
      assert claims == init + [last];
      SightingFlightsByWallet(init, w);
      if !IsSightingClaimed(claims, w) {
        assert last in claims && forall c | c in init :: c in claims;
      }
    }
  }

  /** So is an uninterrupted sighting round: claim and apply. */
  lemma SightingRoundIsARun(v: View, claims: seq<SightingClaim>, v': View, policy: Policy)
    requires DistinctSightings(claims) && SightingsApplied(v, v', claims, policy)
    requires forall c | c in claims ::
               && c.wallet in v.sightings && c.wallet in v.state && c.wallet !in v.dirty
               && c == Tables.ClaimOf(c.wallet, v.sightings[c.wallet], v.state[c.wallet])
    ensures exists states, changes ::
              IsTableRun(states, changes, policy) && states[0] == System(v, map[])
              && states[|changes|] == System(v', map[])
  {
    var flights := SightingFlights(claims);
    var first, claimed, last := System(v, map[]), System(v, flights), System(v', map[]);
    forall w: Wallet
      ensures forall c | c in claims && c.wallet == w :: Lookup(flights, w) == Some(AsFlight(c))
      ensures !IsSightingClaimed(claims, w) ==> w !in flights
    {
      SightingFlightsByWallet(claims, w);
    }
    assert Changes(first, ClaimSightings(claims), claimed, policy);
    assert Changes(claimed, ApplyBatch(claims), last, policy);
    var states, changes := [claimed, last], [ApplyBatch(claims)];
    assert IsTableRun(states[1..], changes[1..], policy);
    states, changes := OneChangeEarlier(first, ClaimSightings(claims), states, changes, policy);
  }
}
