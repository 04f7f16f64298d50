/** The planner's cache protocol for one wallet: its rows in every table, the triggers fired by evidence
    writers, and the planner's claim, read and replace steps, which any writer may interleave. */
module PlannerCache {
  import opened Terms
  import opened PlannerRow

  datatype Sighting = Sighting(lastSeen: int, generation: nat)

  datatype Read<+T> = Unread | Seen(value: T)

  /** What the one planner process holds in memory about this wallet. */
  datatype Flight =
    | Idle
    | Refreshing(
        generation: Option<nat>, now: int,
        level: Read<Option<LevelRow>>,
        screen: Read<Option<Screen>>, summary: Read<Option<Summary>>, pnl: Read<Option<Pnl>>,
        jobs: Read<map<JobKey, Job>>)
    | Patching(
        lastSeen: int, sightingGeneration: nat,
        claimedLevel: Level, depth: Depth, summaryUpdatedAt: int, next: int)

  datatype Cell = Cell(
    level: Option<LevelRow>,
    ev: Evidence,
    dirty: Option<nat>,
    sighting: Option<Sighting>,
    row: Option<StateRow>,
    flight: Flight)

  datatype Step =
    | InsertLevel(inserted: LevelRow)
    | UpdateLevel(level: Level, hardRisk: bool)
    | DeleteLevel
    | Sight(ts: int)
    | PutScreen(screen: Option<Screen>)
    | PutSummary(summary: Option<Summary>)
    | PutPnl(pnl: Option<Pnl>)
    | PutJobs(jobs: map<JobKey, Job>)
    | ClaimRefresh(claim: Option<nat>, now: int)
    | ReadLevel
    | ReadScreen
    | ReadSummary
    | ReadPnl
    | ReadJobs
    | Replace
    | ClaimSighting
    | ApplySighting

  const NO_EVIDENCE := Evidence(None, None, None, map[])
  const NEW_WALLET := Cell(None, NO_EVIDENCE, None, None, None, Idle)

  predicate PlannedRow(level: Option<LevelRow>) {
    level.Some? && Planned(level.value.level)
  }

  // ---------- Writers and their triggers ----------

  /** A full-dirty trigger: insert generation 1 or bump it, and drop the pending sighting. */
  function MarkDirty(c: Cell): Cell {
    c.(dirty := Some(if c.dirty.Some? then c.dirty.value + 1 else 1), sighting := None)
  }

  /** The `WHEN` clause shared by the screen, summary, profit and job triggers. */
  predicate EvidenceTriggers(c: Cell) {
    PlannedRow(c.level) || c.row.Some?
  }

  function WriteEvidence(c: Cell, ev: Evidence): Cell {
    var written := c.(ev := ev);
    if EvidenceTriggers(c) then MarkDirty(written) else written
  }

  function SetLevel(c: Cell, lv: LevelRow): Cell
    requires c.level.Some?
  {
    var before := c.level.value;
    var written := c.(level := Some(lv));
    if (lv.level != before.level || lv.hardRisk != before.hardRisk) && (Planned(lv.level) || Planned(before.level))
    then MarkDirty(written) else written
  }

  /** `ensure_wallet_level`: create an L0 row, or advance `last_seen_at`; the sighting trigger needs an
      existing state row. */
  function SightLevel(c: Cell, ts: int): Cell {
    if c.level.None? then c.(level := Some(LevelRow(L0, false, ts)))
    else
      var lv := c.level.value;
      var seen := c.(level := Some(lv.(lastSeen := Max(lv.lastSeen, ts))));
      if ts > lv.lastSeen && Planned(lv.level) && c.row.Some? then
        seen.(sighting := Some(
          if c.sighting.Some? then Sighting(Max(c.sighting.value.lastSeen, ts), c.sighting.value.generation + 1)
          else Sighting(ts, 1)))
      else seen
  }

  // ---------- Planner steps ----------

  predicate LevelReadIsPlanned(f: Flight) {
    f.Refreshing? && f.level.Seen? && PlannedRow(f.level.value)
  }

  predicate AllRead(f: Flight) {
    f.Refreshing? && f.level.Seen?
    && (LevelReadIsPlanned(f) ==> f.screen.Seen? && f.summary.Seen? && f.pnl.Seen? && f.jobs.Seen?)
  }

  /** The rows written for this wallet: none unless the level read is one the planner serves. */
  function RebuiltRow(f: Flight, policy: Policy): Option<StateRow>
    requires AllRead(f)
  {
    if LevelReadIsPlanned(f) then
      Some(StateRowAt(
        f.level.value.value, Evidence(f.screen.value, f.summary.value, f.pnl.value, f.jobs.value), policy, f.now))
    else None
  }

  function ReplaceRow(c: Cell, policy: Policy): Cell
    requires AllRead(c.flight)
  {
    c.(row := RebuiltRow(c.flight, policy),
       dirty := if c.flight.generation.Some? && c.dirty == c.flight.generation then None else c.dirty,
       flight := Idle)
  }

  function ApplyClaimedSighting(c: Cell, policy: Policy): Cell
    requires c.flight.Patching?
  {
    var observed := c.sighting.Some? && c.sighting.value.generation == c.flight.sightingGeneration;
    var next := PatchedNextRefresh(
      c.flight.claimedLevel, c.flight.depth, c.flight.summaryUpdatedAt, c.flight.next, c.flight.lastSeen, policy);
    c.(row := if observed && c.dirty.None? && c.row.Some?
              then Some(c.row.value.(lastSeen := Max(c.row.value.lastSeen, c.flight.lastSeen), nextRefreshAt := next))
              else c.row,
       sighting := if observed then None else c.sighting,
       flight := Idle)
  }

  predicate WritesEvidence(s: Step) {
    s.PutScreen? || s.PutSummary? || s.PutPnl? || s.PutJobs?
  }

  predicate IsRead(s: Step) {
    s.ReadLevel? || s.ReadScreen? || s.ReadSummary? || s.ReadPnl? || s.ReadJobs?
  }

  predicate Enabled(c: Cell, s: Step) {
    match s
    case InsertLevel(_) => c.level.None?
    case UpdateLevel(_, _) => c.level.Some?
    case DeleteLevel => c.level.Some?
    case Sight(_) => true
    case PutScreen(_) => true
    case PutSummary(summary) => summary.Some? ==> 0 < summary.value.updatedAt && !summary.value.depth.NoDepth?
    case PutPnl(_) => true
    case PutJobs(_) => true
    case ClaimRefresh(claim, now) =>
      && c.flight.Idle?
      && PNL_INCOMPLETE_REFRESH_SECONDS <= now
      && (if claim.Some? then c.dirty == claim
          else (c.row.Some? && 0 < c.row.value.nextRefreshAt <= now) || (PlannedRow(c.level) && c.row.None?))
    case ReadLevel => c.flight.Refreshing? && c.flight.level.Unread?
    case ReadScreen => LevelReadIsPlanned(c.flight) && c.flight.screen.Unread?
    case ReadSummary => LevelReadIsPlanned(c.flight) && c.flight.summary.Unread?
    case ReadPnl => LevelReadIsPlanned(c.flight) && c.flight.pnl.Unread?
    case ReadJobs => LevelReadIsPlanned(c.flight) && c.flight.jobs.Unread?
    case Replace => AllRead(c.flight)
    case ClaimSighting => c.flight.Idle? && c.sighting.Some? && c.row.Some? && c.dirty.None?
    case ApplySighting => c.flight.Patching?
  }

  function Next(c: Cell, s: Step, policy: Policy): Cell
    requires Enabled(c, s)
  {
    match s
    case InsertLevel(lv) =>
      if Planned(lv.level) then MarkDirty(c.(level := Some(lv))) else c.(level := Some(lv))
    case UpdateLevel(level, hardRisk) => SetLevel(c, c.level.value.(level := level, hardRisk := hardRisk))
    case DeleteLevel =>
      if Planned(c.level.value.level) then MarkDirty(c.(level := None)) else c.(level := None)
    case Sight(ts) => SightLevel(c, ts)
    case PutScreen(screen) => WriteEvidence(c, c.ev.(screen := screen))
    case PutSummary(summary) => WriteEvidence(c, c.ev.(summary := summary))
    case PutPnl(pnl) => WriteEvidence(c, c.ev.(pnl := pnl))
    case PutJobs(jobs) => WriteEvidence(c, c.ev.(jobs := jobs))
    case ClaimRefresh(claim, now) =>
      c.(flight := Refreshing(claim, now, Unread, Unread, Unread, Unread, Unread))
    case ReadLevel => c.(flight := c.flight.(level := Seen(c.level)))
    case ReadScreen => c.(flight := c.flight.(screen := Seen(c.ev.screen)))
    case ReadSummary => c.(flight := c.flight.(summary := Seen(c.ev.summary)))
    case ReadPnl => c.(flight := c.flight.(pnl := Seen(c.ev.pnl)))
    case ReadJobs => c.(flight := c.flight.(jobs := Seen(c.ev.jobs)))
    case Replace => ReplaceRow(c, policy)
    case ClaimSighting =>
      var row := c.row.value;
      c.(flight := Patching(
        c.sighting.value.lastSeen, c.sighting.value.generation,
        row.level, row.currentDepth, row.summaryUpdatedAt, row.nextRefreshAt))
    case ApplySighting => ApplyClaimedSighting(c, policy)
  }

  // ---------- The invariant ----------

  /** A row flagged eligible is eligible whenever it is read. */
  ghost predicate Sound(row: StateRow, lv: LevelRow, ev: Evidence, policy: Policy) {
    row.eligible ==> forall t' :: row.refreshedAt <= t' ==> StateRowAt(lv, ev, policy, t').eligible
  }

  /** No invalidation is pending: the stored row claims to describe the current evidence. */
  predicate Clean(c: Cell) {
    c.dirty.None? && c.row.Some?
  }

  /** The stored row describes the current evidence, as seen at its own `last_seen_at`. */
  ghost predicate RowIsRight(c: Cell, policy: Policy)
    requires c.row.Some?
  {
    && PlannedRow(c.level)
    && c.row.value.lastSeen <= c.level.value.lastSeen
    && RowDescribes(c.row.value, c.level.value, c.ev)
    && ValidUntilDue(c.row.value, c.level.value, c.ev, policy)
    && Sound(c.row.value, c.level.value, c.ev, policy)
  }

  /** No write since the claim has invalidated what the planner has read. */
  predicate UpToDate(c: Cell) {
    c.flight.Refreshing? && c.dirty == c.flight.generation
  }

  ghost predicate ReadsAreCurrent(c: Cell)
    requires c.flight.Refreshing?
  {
    var f := c.flight;
    && (f.level.Unread? ==> f.screen.Unread? && f.summary.Unread? && f.pnl.Unread? && f.jobs.Unread?)
    && (f.level.Seen? ==> (PlannedRow(f.level.value) <==> PlannedRow(c.level)))
    && (LevelReadIsPlanned(f) ==>
          var lv0, lv := f.level.value.value, c.level.value;
          && lv0.(lastSeen := lv.lastSeen) == lv
          && lv0.lastSeen <= lv.lastSeen
          && (lv0.lastSeen < lv.lastSeen && c.row.Some? ==>
                c.sighting.Some? && c.sighting.value.lastSeen == lv.lastSeen)
          && (c.row.None? && c.sighting.Some? ==> c.sighting.value.lastSeen <= lv0.lastSeen))
    && (LevelReadIsPlanned(f) && f.screen.Seen? ==> f.screen.value == c.ev.screen)
    && (LevelReadIsPlanned(f) && f.summary.Seen? ==> f.summary.value == c.ev.summary)
    && (LevelReadIsPlanned(f) && f.pnl.Seen? ==> f.pnl.value == c.ev.pnl)
    && (LevelReadIsPlanned(f) && f.jobs.Seen? ==> f.jobs.value == c.ev.jobs)
  }

  ghost predicate FlightIsRight(c: Cell) {
    match c.flight
    case Idle => true
    case Refreshing(generation, now, _, _, _, _, _) =>
      && PNL_INCOMPLETE_REFRESH_SECONDS <= now
      && (generation.Some? ==> c.dirty.Some? && generation.value <= c.dirty.value)
      && (UpToDate(c) ==> ReadsAreCurrent(c))
    case Patching(lastSeen, generation, level, depth, updatedAt, next) =>
      c.dirty.None? ==>
        && c.row.Some?
        && c.sighting.Some? && generation <= c.sighting.value.generation
        && (generation == c.sighting.value.generation ==> lastSeen == c.sighting.value.lastSeen)
        && c.row.value.level == level && c.row.value.currentDepth == depth
        && c.row.value.summaryUpdatedAt == updatedAt && c.row.value.nextRefreshAt == next
  }

  ghost predicate Invariant(c: Cell, policy: Policy) {
    && (c.ev.summary.Some? ==> 0 < c.ev.summary.value.updatedAt && StoredDepths(c.ev))
    && (c.row.Some? ==> 0 <= c.row.value.nextRefreshAt && PNL_INCOMPLETE_REFRESH_SECONDS <= c.row.value.refreshedAt)
    && (c.sighting.Some? ==> PlannedRow(c.level) && c.sighting.value.lastSeen <= c.level.value.lastSeen)
    && (Clean(c) ==> RowIsRight(c, policy))
    && FlightIsRight(c)
  }

  /** A clean row that lags behind `wallet_levels` has its sighting queued. */
  ghost predicate SightingsQueued(c: Cell) {
    Clean(c) && PlannedRow(c.level) && c.row.value.lastSeen < c.level.value.lastSeen ==>
      c.sighting.Some? && c.sighting.value.lastSeen == c.level.value.lastSeen
  }

  /** The row about to be built for a wallet that had none predates a sighting, which found no state row
      and so queued nothing. */
  predicate FirstBuildRace(c: Cell) {
    UpToDate(c) && c.row.None? && LevelReadIsPlanned(c.flight)
    && c.level.Some? && c.flight.level.value.value.lastSeen < c.level.value.lastSeen
  }

  // ---------- Every step keeps the invariant ----------

  lemma SoundAsSightingsGrow(row: StateRow, lv: LevelRow, ev: Evidence, policy: Policy, lastSeen': int)
    requires Sound(row, lv, ev, policy) && lv.lastSeen <= lastSeen'
    ensures Sound(row, lv.(lastSeen := lastSeen'), ev, policy)
  {
    if row.eligible {
      forall t' | row.refreshedAt <= t' ensures StateRowAt(lv.(lastSeen := lastSeen'), ev, policy, t').eligible {
        EligibilityOnlyGrows(lv, ev, policy, t', lastSeen', t');
      }
    }
  }

  lemma FreshRowIsSound(lv0: LevelRow, ev: Evidence, policy: Policy, now: int, lastSeen: int)
    requires lv0.lastSeen <= lastSeen
    ensures Sound(StateRowAt(lv0, ev, policy, now), lv0.(lastSeen := lastSeen), ev, policy)
  {
    var row := StateRowAt(lv0, ev, policy, now);
    if row.eligible {
      forall t' | now <= t' ensures StateRowAt(lv0.(lastSeen := lastSeen), ev, policy, t').eligible {
        EligibilityOnlyGrows(lv0, ev, policy, now, lastSeen, t');
      }
    }
  }

  lemma ReplaceKeepsInvariant(c: Cell, policy: Policy)
    requires Invariant(c, policy) && AllRead(c.flight)
    ensures Invariant(ReplaceRow(c, policy), policy)
  {
    var f, c' := c.flight, ReplaceRow(c, policy);
    if c'.row.Some? {
      var ev := Evidence(f.screen.value, f.summary.value, f.pnl.value, f.jobs.value);
      NextRefreshIsZeroOrFuture(f.level.value.value, ev, policy, f.now);
      if Clean(c') {
        assert UpToDate(c) && c.ev == ev;
        var lv0 := f.level.value.value;
        FreshRowIsValid(lv0, ev, policy, f.now);
        ValidityIgnoresLastSeen(c'.row.value, lv0, c.level.value, ev, policy);
        FreshRowIsSound(lv0, ev, policy, f.now, c.level.value.lastSeen);
      }
    }
  }

  lemma ValidityIgnoresLastSeen(row: StateRow, lv: LevelRow, lv': LevelRow, ev: Evidence, policy: Policy)
    requires ValidUntilDue(row, lv, ev, policy) && lv.(lastSeen := lv'.lastSeen) == lv'
    ensures ValidUntilDue(row, lv', ev, policy)
  {
    assert lv.(lastSeen := row.lastSeen) == lv'.(lastSeen := row.lastSeen);
  }

  lemma ApplyKeepsInvariant(c: Cell, policy: Policy)
    requires Invariant(c, policy) && c.flight.Patching?
    ensures Invariant(ApplyClaimedSighting(c, policy), policy)
  {
    var c' := ApplyClaimedSighting(c, policy);
    if Clean(c') && c'.row != c.row {
      PatchKeepsValidity(c.row.value, c.level.value, c.ev, policy, c.flight.lastSeen);
      assert c'.row.value == PatchedRow(c.row.value, c.flight.lastSeen, policy);
    }
  }

  lemma SightKeepsInvariant(c: Cell, ts: int, policy: Policy)
    requires Invariant(c, policy)
    ensures Invariant(SightLevel(c, ts), policy)
  {
    if Clean(c) {
      var lv := c.level.value;
      SoundAsSightingsGrow(c.row.value, lv, c.ev, policy, Max(lv.lastSeen, ts));
      ValidityIgnoresLastSeen(c.row.value, lv, lv.(lastSeen := Max(lv.lastSeen, ts)), c.ev, policy);
    }
  }

  /** A write that fires the full-dirty trigger leaves no clean row and no current reads behind. */
  lemma DirtyingKeepsInvariant(c: Cell, written: Cell, policy: Policy)
    requires Invariant(c, policy)
    requires written.row == c.row && written.dirty == c.dirty && written.flight == c.flight
    requires written.ev.summary.Some? ==> 0 < written.ev.summary.value.updatedAt && StoredDepths(written.ev)
    ensures Invariant(MarkDirty(written), policy)
  {
  }

  lemma LevelWriteKeepsInvariant(c: Cell, s: Step, policy: Policy)
    requires Invariant(c, policy) && Enabled(c, s) && (s.InsertLevel? || s.UpdateLevel? || s.DeleteLevel?)
    ensures Invariant(Next(c, s, policy), policy)
  {
    match s
    case InsertLevel(lv) => DirtyingKeepsInvariant(c, c.(level := Some(lv)), policy);
    case UpdateLevel(level, hardRisk) =>
      DirtyingKeepsInvariant(c, c.(level := Some(c.level.value.(level := level, hardRisk := hardRisk))), policy);
    case DeleteLevel => DirtyingKeepsInvariant(c, c.(level := None), policy);
  }

  lemma EvidenceWriteKeepsInvariant(c: Cell, ev: Evidence, policy: Policy)
    requires Invariant(c, policy)
    requires ev.summary.Some? ==> 0 < ev.summary.value.updatedAt && StoredDepths(ev)
    ensures Invariant(WriteEvidence(c, ev), policy)
  {
    DirtyingKeepsInvariant(c, c.(ev := ev), policy);
  }

  lemma WriteKeepsInvariant(c: Cell, s: Step, policy: Policy)
    requires Invariant(c, policy) && Enabled(c, s)
    requires s.InsertLevel? || s.UpdateLevel? || s.DeleteLevel? || WritesEvidence(s)
    ensures Invariant(Next(c, s, policy), policy)
  {
    match s
    case PutScreen(screen) => EvidenceWriteKeepsInvariant(c, c.ev.(screen := screen), policy);
    case PutSummary(summary) => EvidenceWriteKeepsInvariant(c, c.ev.(summary := summary), policy);
    case PutPnl(pnl) => EvidenceWriteKeepsInvariant(c, c.ev.(pnl := pnl), policy);
    case PutJobs(jobs) => EvidenceWriteKeepsInvariant(c, c.ev.(jobs := jobs), policy);
    case _ => LevelWriteKeepsInvariant(c, s, policy);
  }

  /** Claims and reads change only what the planner holds in memory. */
  lemma FlightKeepsInvariant(c: Cell, f: Flight, policy: Policy)
    requires Invariant(c, policy) && FlightIsRight(c.(flight := f))
    ensures Invariant(c.(flight := f), policy)
  {
  }

  lemma ClaimKeepsInvariant(c: Cell, s: Step, policy: Policy)
    requires Invariant(c, policy) && Enabled(c, s) && (s.ClaimRefresh? || s.ClaimSighting?)
    ensures Invariant(Next(c, s, policy), policy)
  {
    FlightKeepsInvariant(c, Next(c, s, policy).flight, policy);
  }

  lemma ReadKeepsInvariant(c: Cell, s: Step, policy: Policy)
    requires Invariant(c, policy) && Enabled(c, s) && IsRead(s)
    ensures Invariant(Next(c, s, policy), policy)
  {
    FlightKeepsInvariant(c, Next(c, s, policy).flight, policy);
  }

  lemma StepKeepsInvariant(c: Cell, s: Step, policy: Policy)
    requires Invariant(c, policy) && Enabled(c, s)
    ensures Invariant(Next(c, s, policy), policy)
  {
    match s
    case Replace => ReplaceKeepsInvariant(c, policy);
    case ApplySighting => ApplyKeepsInvariant(c, policy);
    case Sight(ts) => SightKeepsInvariant(c, ts, policy);
    case InsertLevel(_) => WriteKeepsInvariant(c, s, policy);
    case UpdateLevel(_, _) => WriteKeepsInvariant(c, s, policy);
    case DeleteLevel => WriteKeepsInvariant(c, s, policy);
    case PutScreen(_) => WriteKeepsInvariant(c, s, policy);
    case PutSummary(_) => WriteKeepsInvariant(c, s, policy);
    case PutPnl(_) => WriteKeepsInvariant(c, s, policy);
    case PutJobs(_) => WriteKeepsInvariant(c, s, policy);
    case ClaimRefresh(_, _) => ClaimKeepsInvariant(c, s, policy);
    case ClaimSighting => ClaimKeepsInvariant(c, s, policy);
    case _ => ReadKeepsInvariant(c, s, policy);
  }

  /** Sightings stay queued under every step but one: the first build of a row that raced a sighting. */
  lemma StepKeepsSightingsQueuedIff(c: Cell, s: Step, policy: Policy)
    requires Invariant(c, policy) && SightingsQueued(c) && Enabled(c, s)
    ensures SightingsQueued(Next(c, s, policy)) <==> !(s.Replace? && FirstBuildRace(c))
  {
  }

  /** What makes up for a lost sighting: a newer sighting, a write that has the row rebuilt, or the rebuild. */
  predicate Heals(c: Cell, s: Step) {
    match s
    case Sight(ts) => c.level.Some? && c.level.value.lastSeen < ts
    case UpdateLevel(level, hardRisk) =>
      c.level.Some? && (level != c.level.value.level || hardRisk != c.level.value.hardRisk)
    case _ => s.DeleteLevel? || s.Replace? || WritesEvidence(s)
  }

  /** A lost sighting stays lost under every other step: in particular under applying an older one. */
  lemma StepHealsIff(c: Cell, s: Step, policy: Policy)
    requires Invariant(c, policy) && !SightingsQueued(c) && Enabled(c, s)
    ensures SightingsQueued(Next(c, s, policy)) <==> Heals(c, s)
  {
  }

  // ---------- Whole runs ----------

  /** The steps are enabled one after another. */
  ghost predicate IsRun(c: Cell, steps: seq<Step>, policy: Policy)
    decreases |steps|
  {
    steps == [] || (Enabled(c, steps[0]) && IsRun(Next(c, steps[0], policy), steps[1..], policy))
  }

  ghost function After(c: Cell, steps: seq<Step>, policy: Policy): Cell
    requires IsRun(c, steps, policy)
    decreases |steps|
  {
    if steps == [] then c else After(Next(c, steps[0], policy), steps[1..], policy)
  }

  ghost predicate NeverHeals(c: Cell, steps: seq<Step>, policy: Policy)
    requires IsRun(c, steps, policy)
    decreases |steps|
  {
    steps == [] || (!Heals(c, steps[0]) && NeverHeals(Next(c, steps[0], policy), steps[1..], policy))
  }

  /** Some replace step of the run builds a first row that missed a sighting, and nothing after it makes up
      for that. */
  ghost predicate UnhealedRace(c: Cell, steps: seq<Step>, policy: Policy)
    requires IsRun(c, steps, policy)
    decreases |steps|
  {
    steps != [] &&
    var c' := Next(c, steps[0], policy);
    || UnhealedRace(c', steps[1..], policy)
    || (steps[0].Replace? && FirstBuildRace(c) && NeverHeals(c', steps[1..], policy))
  }

  lemma {:induction false} RunKeepsInvariant(c: Cell, steps: seq<Step>, policy: Policy)
    requires Invariant(c, policy) && IsRun(c, steps, policy)
    ensures Invariant(After(c, steps, policy), policy)
    decreases |steps|
  {
    if steps != [] {
      StepKeepsInvariant(c, steps[0], policy);
      RunKeepsInvariant(Next(c, steps[0], policy), steps[1..], policy);
    }
  }

  /** After a run a lagging clean row has its sighting queued if and only if no first build of the run raced a
      sighting without being made up for. */
  lemma {:induction false} RunKeepsSightingsQueuedIff(c: Cell, steps: seq<Step>, policy: Policy)
    requires Invariant(c, policy) && IsRun(c, steps, policy)
    ensures SightingsQueued(After(c, steps, policy))
            <==> !UnhealedRace(c, steps, policy) && (SightingsQueued(c) || !NeverHeals(c, steps, policy))
    decreases |steps|
  {
    if steps != [] {
      StepKeepsInvariant(c, steps[0], policy);
      if SightingsQueued(c) {
        StepKeepsSightingsQueuedIff(c, steps[0], policy);
      } else {
        StepHealsIff(c, steps[0], policy);
      }
      RunKeepsSightingsQueuedIff(Next(c, steps[0], policy), steps[1..], policy);
    }
  }

  /** Planner coherence: however writers interleave with the planner's steps, a wallet has a full-dirty
      row, or no state row, or a state row that describes its current evidence until it is due. */
  lemma CoherentAfterEveryRun(steps: seq<Step>, policy: Policy)
    requires IsRun(NEW_WALLET, steps, policy)
    ensures
      var c := After(NEW_WALLET, steps, policy);
      c.dirty.Some? || c.row.None? || RowIsRight(c, policy)
  {
    RunKeepsInvariant(NEW_WALLET, steps, policy);
  }

  /** `_wallet_history_planner_ready_for_selection`, for this wallet. */
  predicate Ready(c: Cell) {
    c.dirty.None? && (PlannedRow(c.level) ==> c.row.Some?)
  }

  /** Selection never returns a wallet that a fresh evaluation would reject, whatever the pending
      sightings and however long after the refresh it happens. */
  lemma SelectedIsEligibleNow(steps: seq<Step>, policy: Policy, now: int)
    requires IsRun(NEW_WALLET, steps, policy)
    requires
      var c := After(NEW_WALLET, steps, policy);
      Ready(c) && c.row.Some? && c.row.value.eligible && c.row.value.refreshedAt <= now
    ensures
      var c := After(NEW_WALLET, steps, policy);
      c.level.Some? && StateRowAt(c.level.value, c.ev, policy, now).eligible
  {
    RunKeepsInvariant(NEW_WALLET, steps, policy);
  }

  /** A wallet that is ready for selection but wrongly held back is on a work list: its sighting is
      queued or its row is due. */
  lemma HeldBackIsQueuedOrDue(steps: seq<Step>, policy: Policy, now: int)
    requires IsRun(NEW_WALLET, steps, policy) && !UnhealedRace(NEW_WALLET, steps, policy)
    requires
      var c := After(NEW_WALLET, steps, policy);
      Ready(c) && PlannedRow(c.level) && c.row.value.refreshedAt <= now
      && StateRowAt(c.level.value, c.ev, policy, now).eligible && !c.row.value.eligible
    ensures
      var c := After(NEW_WALLET, steps, policy);
      c.sighting.Some? || 0 < c.row.value.nextRefreshAt <= now
  {
    RunKeepsInvariant(NEW_WALLET, steps, policy);
    RunKeepsSightingsQueuedIff(NEW_WALLET, steps, policy);
    var c := After(NEW_WALLET, steps, policy);
    if c.sighting.None? {
      assert c.level.value.(lastSeen := c.row.value.lastSeen) == c.level.value;
    }
  }

  /** Once its sighting is applied and until it is due, the whole row is the fresh evaluation. */
  lemma QuietRowIsFresh(steps: seq<Step>, policy: Policy, now: int)
    requires IsRun(NEW_WALLET, steps, policy) && !UnhealedRace(NEW_WALLET, steps, policy)
    requires
      var c := After(NEW_WALLET, steps, policy);
      Clean(c) && c.sighting.None? && c.row.value.refreshedAt <= now && NotDue(c.row.value, now)
    ensures
      var c := After(NEW_WALLET, steps, policy);
      PlannedRow(c.level) && SameDecision(c.row.value, StateRowAt(c.level.value, c.ev, policy, now))
  {
    RunKeepsInvariant(NEW_WALLET, steps, policy);
    RunKeepsSightingsQueuedIff(NEW_WALLET, steps, policy);
    var c := After(NEW_WALLET, steps, policy);
    assert c.level.value.(lastSeen := c.row.value.lastSeen) == c.level.value;
  }

  // ---------- The race is real ----------

  const LATE := 1000000000
  const DAY_POLICY := Policy(86400, 86400)

  /** A deep L3 wallet last seen before its summary, and refreshed long after its activity window. */
  const RACE_LEVEL := LevelRow(L3, false, 40)
  const RACE_SUMMARY := Some(Summary(Deep, METHODOLOGY_VERSION, 1.0, 50))
  const RACE_EVIDENCE := NO_EVIDENCE.(summary := RACE_SUMMARY)
  const RACED_CELL := Cell(
    Some(LevelRow(L3, false, 100)), RACE_EVIDENCE, None, None,
    Some(StateRowAt(RACE_LEVEL, RACE_EVIDENCE, DAY_POLICY, LATE)), Idle)

  const RACE: seq<Step> := [
    InsertLevel(RACE_LEVEL), PutSummary(RACE_SUMMARY), ClaimRefresh(Some(2), LATE), ReadLevel,
    Sight(100), ReadScreen, ReadSummary, ReadPnl, ReadJobs, Replace]

  /** The cell before each step of the race, and after the last. */
  function RaceCell(i: nat): Cell
    requires i <= |RACE|
  {
    var lv, seen := Some(RACE_LEVEL), Some(LevelRow(L3, false, 100));
    var f0 := Refreshing(Some(2), LATE, Unread, Unread, Unread, Unread, Unread);
    var f1 := f0.(level := Seen(lv));
    var f2 := f1.(screen := Seen(None));
    var f3 := f2.(summary := Seen(RACE_SUMMARY));
    var f4 := f3.(pnl := Seen(None));
    var f5 := f4.(jobs := Seen(map[]));
    if i == 0 then NEW_WALLET
    else if i == 1 then Cell(lv, NO_EVIDENCE, Some(1), None, None, Idle)
    else if i == 2 then Cell(lv, RACE_EVIDENCE, Some(2), None, None, Idle)
    else if i == 3 then Cell(lv, RACE_EVIDENCE, Some(2), None, None, f0)
    else if i == 4 then Cell(lv, RACE_EVIDENCE, Some(2), None, None, f1)
    else if i == 5 then Cell(seen, RACE_EVIDENCE, Some(2), None, None, f1)
    else if i == 6 then Cell(seen, RACE_EVIDENCE, Some(2), None, None, f2)
    else if i == 7 then Cell(seen, RACE_EVIDENCE, Some(2), None, None, f3)
    else if i == 8 then Cell(seen, RACE_EVIDENCE, Some(2), None, None, f4)
    else if i == 9 then Cell(seen, RACE_EVIDENCE, Some(2), None, None, f5)
    else RACED_CELL
  }

  lemma RaceStep(i: nat)
    requires i < |RACE|
    ensures Enabled(RaceCell(i), RACE[i]) && Next(RaceCell(i), RACE[i], DAY_POLICY) == RaceCell(i + 1)
  {
  }

  /** One sighting between the level read and the first replace is enough. */
  lemma {:induction false} RaceRuns(i: nat)
    requires i <= |RACE|
    ensures IsRun(RaceCell(i), RACE[i..], DAY_POLICY) && After(RaceCell(i), RACE[i..], DAY_POLICY) == RACED_CELL
    decreases |RACE| - i
  {
    if i < |RACE| {
      RaceStep(i);
      assert RACE[i..][1..] == RACE[i + 1..];
      RaceRuns(i + 1);
    }
  }

  /** After it the wallet is ready, has no pending work of any kind, never falls due, and is held back
      although a fresh evaluation would select it. */
  lemma FirstBuildRaceLosesASighting(now: int)
    requires LATE <= now
    ensures IsRun(NEW_WALLET, RACE, DAY_POLICY) && After(NEW_WALLET, RACE, DAY_POLICY) == RACED_CELL
    ensures Ready(RACED_CELL) && RACED_CELL.sighting.None? && RACED_CELL.row.value.nextRefreshAt == 0
    ensures !RACED_CELL.row.value.eligible
    ensures StateRowAt(RACED_CELL.level.value, RACED_CELL.ev, DAY_POLICY, now).eligible
  {
    RaceRuns(0);
    assert RACE[0..] == RACE;
    assert FutureTimes(RACE_LEVEL, RACE_EVIDENCE, DAY_POLICY, LATE) == [];
  }

  /** The lost sighting is not lost for good: the next one finds the row and queues both. */
  lemma NextSightingHealsTheRace(c: Cell, ts: int, policy: Policy)
    requires Invariant(c, policy) && Clean(c) && c.level.value.lastSeen < ts
    ensures SightingsQueued(SightLevel(c, ts))
  {
  }

  // ---------- Writes during a refresh ----------

  /** A write has invalidated this wallet since the planner claimed it. */
  predicate Overtaken(c: Cell) {
    c.flight.Refreshing? && c.dirty.Some? && c.dirty != c.flight.generation
  }

  /** A write that landed after the claim leaves its dirty row behind, however the refresh ends. */
  lemma StepKeepsOvertaken(c: Cell, s: Step, policy: Policy)
    requires Invariant(c, policy) && Overtaken(c) && Enabled(c, s)
    ensures if s.Replace? then Next(c, s, policy).dirty.Some? else Overtaken(Next(c, s, policy))
  {
  }

  lemma {:induction false} OvertakenStaysDirty(c: Cell, steps: seq<Step>, policy: Policy)
    requires Invariant(c, policy) && Overtaken(c) && IsRun(c, steps, policy)
    requires forall i | 0 <= i < |steps| - 1 :: !steps[i].Replace?
    ensures After(c, steps, policy).dirty.Some?
    decreases |steps|
  {
    if steps != [] {
      StepKeepsInvariant(c, steps[0], policy);
      StepKeepsOvertaken(c, steps[0], policy);
      if steps[0].Replace? {
        assert |steps| == 1;
      } else {
        OvertakenStaysDirty(Next(c, steps[0], policy), steps[1..], policy);
      }
    }
  }

  /** Every evidence write to a planned wallet, and every change of its level or risk flag, overtakes a
      refresh in flight. */
  lemma WriteOvertakesRefresh(c: Cell, s: Step, policy: Policy)
    requires Invariant(c, policy) && c.flight.Refreshing? && Enabled(c, s) && PlannedRow(c.level)
    requires WritesEvidence(s) || s.DeleteLevel?
             || (s.UpdateLevel? && (s.level != c.level.value.level || s.hardRisk != c.level.value.hardRisk))
    ensures Overtaken(Next(c, s, policy)) && Next(c, s, policy).sighting.None?
  {
  }
}
