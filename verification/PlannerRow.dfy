/** The planner's decision for one wallet as a function of its evidence and the clock, the time at
    which that decision expires, and the cheap patch applied when only `last_seen_at` moves. */
module PlannerRow {
  import opened Terms

  const METHODOLOGY_VERSION := "wallet_history_summary_v5"
  const PNL_METHODOLOGY_VERSION := "pnl_evidence_v3"
  const PNL_INCOMPLETE_REFRESH_SECONDS := 21600
  const SCREEN_POLICY_VERSION := "v3"

  datatype LevelRow = LevelRow(level: Level, hardRisk: bool, lastSeen: int)

  datatype Screen = Screen(
    tradeCount: int, volumeUsdc: real, marketCount: int,
    complete: bool, qualified: bool, policyVersion: string, maxTradeUsdc: real)

  datatype Summary = Summary(depth: Depth, methodology: string, score: real, updatedAt: int)

  datatype Pnl = Pnl(methodology: string, capturedAt: int, officialAllPnl: Option<real>)

  /** `collect_<depth>_history:<policy>` with its optional `:refresh:<n>` or `:pnl:<n>` suffix. */
  datatype Action =
    | FirstCollect(depth: Depth)
    | ActivityRefresh(depth: Depth, stamp: int)
    | PnlRefresh(depth: Depth, stamp: int)

  datatype JobKey = JobKey(scope: Depth, action: Action)
  datatype Job = Job(status: JobStatus, attempts: int, maxAttempts: int, nextAttemptAt: int)

  datatype Evidence = Evidence(
    screen: Option<Screen>, summary: Option<Summary>, pnl: Option<Pnl>, jobs: map<JobKey, Job>)

  datatype Policy = Policy(lightRefreshSeconds: int, deepRefreshSeconds: int)

  datatype Lane = NoLane | RequiredDepth | MethodologyUpgrade | NewActivity | PnlEvidence

  datatype StateRow = StateRow(
    level: Level,
    hardRisk: bool,
    lastSeen: int,
    currentDepth: Depth,
    currentMethodology: string,
    methodologyStale: bool,
    pnlMethodology: string,
    pnlCapturedAt: int,
    pnlRefreshNeeded: bool,
    activityRefreshNeeded: bool,
    researchScore: real,
    summaryUpdatedAt: int,
    sampleTradeCount: int,
    sampleVolumeUsdc: real,
    sampleMarketCount: int,
    targetDepth: Depth,
    lane: Lane,
    urgency: nat,
    eligible: bool,
    nextRefreshAt: int,
    refreshedAt: int)

  // ---------- Evaluation ----------

  function TargetDepth(level: Level): Depth {
    if DeepLevel(level) then Deep else Light
  }

  function CurrentDepth(ev: Evidence): Depth {
    if ev.summary.Some? then ev.summary.value.depth else NoDepth
  }

  function CurrentMethodology(ev: Evidence): string {
    if ev.summary.Some? then ev.summary.value.methodology else ""
  }

  function SummaryUpdatedAt(ev: Evidence): int {
    if ev.summary.Some? then ev.summary.value.updatedAt else 0
  }

  function PnlCapturedAt(ev: Evidence): int {
    if ev.pnl.Some? then ev.pnl.value.capturedAt else 0
  }

  function RefreshSeconds(level: Level, policy: Policy): nat {
    Max(0, if DeepLevel(level) then policy.deepRefreshSeconds else policy.lightRefreshSeconds)
  }

  predicate ScreenIsHistoryEligible(screen: Option<Screen>) {
    && screen.Some?
    && screen.value.complete && screen.value.qualified
    && screen.value.policyVersion == SCREEN_POLICY_VERSION
    && screen.value.tradeCount >= 3
    && screen.value.marketCount >= 2
    && screen.value.volumeUsdc >= 300.0
    && screen.value.maxTradeUsdc >= 100.0
  }

  predicate HasActiveJob(ev: Evidence) {
    exists k | k in ev.jobs ::
      ev.jobs[k].status.Running? || (ev.jobs[k].status.Queued? && ev.jobs[k].attempts < ev.jobs[k].maxAttempts)
  }

  predicate HasTerminalScope(ev: Evidence, scope: Depth) {
    exists k | k in ev.jobs :: k.scope == scope && ev.jobs[k].status.TerminalFailed?
  }

  /** A failed job still waiting for its retry time; only these reach `deferred_actions`. */
  predicate Deferred(ev: Evidence, scope: Depth, action: Action, now: int) {
    var k := JobKey(scope, action);
    k in ev.jobs && ev.jobs[k].status.Failed? && ev.jobs[k].nextAttemptAt > now
  }

  function RefreshAction(target: Depth, ev: Evidence): Action {
    ActivityRefresh(target, SummaryUpdatedAt(ev))
  }

  function PnlAction(target: Depth, ev: Evidence): Action {
    PnlRefresh(target, if PnlCapturedAt(ev) != 0 then PnlCapturedAt(ev) else SummaryUpdatedAt(ev))
  }

  predicate DeferredFailureBlocks(ev: Evidence, target: Depth, now: int) {
    Deferred(ev, target, RefreshAction(target, ev), now) || Deferred(ev, target, PnlAction(target, ev), now)
  }

  predicate MethodologyStale(ev: Evidence) {
    ev.summary.Some? && ev.summary.value.methodology != METHODOLOGY_VERSION
  }

  predicate PnlRefreshNeeded(level: Level, ev: Evidence, now: int) {
    && PnlLevel(level)
    && CurrentMethodology(ev) == METHODOLOGY_VERSION
    && (|| ev.pnl.None?
        || ev.pnl.value.methodology != PNL_METHODOLOGY_VERSION
        || (ev.pnl.value.officialAllPnl.None?
            && ev.pnl.value.capturedAt <= now - PNL_INCOMPLETE_REFRESH_SECONDS))
  }

  predicate ActivityRefreshNeeded(level: Level, lastSeen: int, ev: Evidence, policy: Policy, now: int) {
    || (level.L2? && CurrentDepth(ev).Light?
        && SummaryUpdatedAt(ev) <= now - Max(0, policy.lightRefreshSeconds)
        && lastSeen > SummaryUpdatedAt(ev))
    || (DeepLevel(level) && CurrentDepth(ev).Deep?
        && SummaryUpdatedAt(ev) <= now - Max(0, policy.deepRefreshSeconds)
        && lastSeen > SummaryUpdatedAt(ev))
  }

  predicate CandidateIsEligible(
    level: Level, summaryExists: bool, depth: Depth, methodology: string,
    stale: bool, activity: bool, pnl: bool)
  {
    if level.L2? && !summaryExists then true
    else if level.L2? && depth.Light? then stale || activity
    else if DeepLevel(level) && (!summaryExists || !depth.Deep? || methodology != METHODOLOGY_VERSION || activity)
    then true
    else PnlLevel(level) && methodology == METHODOLOGY_VERSION && pnl
  }

  function RefreshLane(depth: Depth, target: Depth, stale: bool, activity: bool, pnl: bool): Lane {
    if depth != target then RequiredDepth
    else if stale then MethodologyUpgrade
    else if activity then NewActivity
    else if pnl then PnlEvidence
    else NewActivity
  }

  function Urgency(level: Level, depth: Depth, stale: bool, pnl: bool): nat {
    if stale && level.L6? then 0
    else if stale && level.L5? then 1
    else if stale && level.L4? then 2
    else if stale && level.L3? then 3
    else if pnl && level.L6? then 4
    else if pnl && level.L5? then 5
    else if pnl && level.L4? then 6
    else if DeepLevel(level) && !depth.Deep? then 7
    else if stale then 8
    else if DeepLevel(level) then 9
    else if depth.NoDepth? then 10
    else 11
  }

  /** The candidate test, in the order in which the planner rejects. */
  predicate IsPlanCandidate(lv: LevelRow, ev: Evidence, policy: Policy, now: int) {
    if HasActiveJob(ev) then false
    else if HasTerminalScope(ev, TargetDepth(lv.level)) then false
    else if lv.level.L2? && !ScreenIsHistoryEligible(ev.screen) then false
    else if DeferredFailureBlocks(ev, TargetDepth(lv.level), now) then false
    else CandidateIsEligible(
      lv.level, ev.summary.Some?, CurrentDepth(ev), CurrentMethodology(ev), MethodologyStale(ev),
      ActivityRefreshNeeded(lv.level, lv.lastSeen, ev, policy, now), PnlRefreshNeeded(lv.level, ev, now))
  }

  function UnblockTime(ev: Evidence, scope: Depth, action: Action, now: int): seq<int> {
    if Deferred(ev, scope, action, now) then [ev.jobs[JobKey(scope, action)].nextAttemptAt] else []
  }

  function ActivityDueAt(level: Level, ev: Evidence, policy: Policy): int {
    SummaryUpdatedAt(ev) + RefreshSeconds(level, policy)
  }

  function ActivityDueTime(lv: LevelRow, ev: Evidence, policy: Policy, now: int): seq<int> {
    if lv.lastSeen > SummaryUpdatedAt(ev) && CurrentDepth(ev) == TargetDepth(lv.level)
       && (lv.level.L2? || DeepLevel(lv.level)) && ActivityDueAt(lv.level, ev, policy) > now
    then [ActivityDueAt(lv.level, ev, policy)] else []
  }

  function PnlDueTime(level: Level, ev: Evidence, now: int): seq<int> {
    if PnlLevel(level) && CurrentMethodology(ev) == METHODOLOGY_VERSION
       && ev.pnl.Some? && ev.pnl.value.methodology == PNL_METHODOLOGY_VERSION
       && ev.pnl.value.officialAllPnl.None? && ev.pnl.value.capturedAt > 0
       && ev.pnl.value.capturedAt + PNL_INCOMPLETE_REFRESH_SECONDS > now
    then [ev.pnl.value.capturedAt + PNL_INCOMPLETE_REFRESH_SECONDS] else []
  }

  function FutureTimes(lv: LevelRow, ev: Evidence, policy: Policy, now: int): seq<int> {
    var target := TargetDepth(lv.level);
    UnblockTime(ev, target, RefreshAction(target, ev), now)
    + UnblockTime(ev, target, PnlAction(target, ev), now)
    + ActivityDueTime(lv, ev, policy, now)
    + PnlDueTime(lv.level, ev, now)
  }

  function EarliestOrZero(times: seq<int>): (m: int)
    ensures times == [] ==> m == 0
    ensures times != [] ==> m in times && forall t | t in times :: m <= t
  {
    if times == [] then 0
    else if |times| == 1 then times[0]
    else
      assert times == [times[0]] + times[1..];
      Min(times[0], EarliestOrZero(times[1..]))
  }

  function NextRefreshAt(lv: LevelRow, ev: Evidence, policy: Policy, now: int): int {
    EarliestOrZero(FutureTimes(lv, ev, policy, now))
  }

  /** The compact row the planner stores for one wallet. */
  function StateRowAt(lv: LevelRow, ev: Evidence, policy: Policy, now: int): StateRow {
    var stale := MethodologyStale(ev);
    var pnl := PnlRefreshNeeded(lv.level, ev, now);
    var activity := ActivityRefreshNeeded(lv.level, lv.lastSeen, ev, policy, now);
    var target := TargetDepth(lv.level);
    var eligible := !lv.hardRisk && Planned(lv.level) && IsPlanCandidate(lv, ev, policy, now);
    StateRow(
      lv.level, lv.hardRisk, lv.lastSeen, CurrentDepth(ev), CurrentMethodology(ev), stale,
      if ev.pnl.Some? then ev.pnl.value.methodology else "", PnlCapturedAt(ev), pnl, activity,
      if ev.summary.Some? then ev.summary.value.score else 0.0, SummaryUpdatedAt(ev),
      if ev.screen.Some? then ev.screen.value.tradeCount else 0,
      if ev.screen.Some? then ev.screen.value.volumeUsdc else 0.0,
      if ev.screen.Some? then ev.screen.value.marketCount else 0,
      target,
      if eligible then RefreshLane(CurrentDepth(ev), target, stale, activity, pnl) else NoLane,
      Urgency(lv.level, CurrentDepth(ev), stale, pnl),
      eligible,
      NextRefreshAt(lv, ev, policy, now),
      now)
  }

  // ---------- Temporal validity ----------

  /** Two rows agree on every column except the two that record when they were computed. */
  predicate SameDecision(a: StateRow, b: StateRow) {
    a.(nextRefreshAt := b.nextRefreshAt, refreshedAt := b.refreshedAt) == b
  }

  /** The planner does not consider the row due at `now`. */
  predicate NotDue(row: StateRow, now: int) {
    row.nextRefreshAt == 0 || now < row.nextRefreshAt
  }

  lemma DueTimesBoundNext(lv: LevelRow, ev: Evidence, policy: Policy, now: int, t: int)
    requires 0 <= now
    requires t in FutureTimes(lv, ev, policy, now)
    ensures now < NextRefreshAt(lv, ev, policy, now) <= t
  {
  }

  /** Until `next_refresh_at`, recomputing from the same evidence changes no decision. */
  lemma TemporalValidity(lv: LevelRow, ev: Evidence, policy: Policy, t: int, t': int)
    requires PNL_INCOMPLETE_REFRESH_SECONDS <= t <= t'
    requires NotDue(StateRowAt(lv, ev, policy, t), t')
    ensures SameDecision(StateRowAt(lv, ev, policy, t'), StateRowAt(lv, ev, policy, t))
  {
    var target := TargetDepth(lv.level);
    var times := FutureTimes(lv, ev, policy, t);
    forall u | u in times ensures t' < u {
      DueTimesBoundNext(lv, ev, policy, t, u);
    }
    DeferralStable(lv, ev, policy, t, t', RefreshAction(target, ev));
    DeferralStable(lv, ev, policy, t, t', PnlAction(target, ev));
    assert ActivityRefreshNeeded(lv.level, lv.lastSeen, ev, policy, t)
           == ActivityRefreshNeeded(lv.level, lv.lastSeen, ev, policy, t') by {
      if ActivityDueTime(lv, ev, policy, t) != [] {
        assert ActivityDueTime(lv, ev, policy, t)[0] in times;
      }
    }
    assert PnlRefreshNeeded(lv.level, ev, t) == PnlRefreshNeeded(lv.level, ev, t') by {
      if PnlDueTime(lv.level, ev, t) != [] {
        assert PnlDueTime(lv.level, ev, t)[0] in times;
      }
    }
  }

  lemma DeferralStable(lv: LevelRow, ev: Evidence, policy: Policy, t: int, t': int, action: Action)
    requires t <= t'
    requires forall u | u in FutureTimes(lv, ev, policy, t) :: t' < u
    requires action == RefreshAction(TargetDepth(lv.level), ev) || action == PnlAction(TargetDepth(lv.level), ev)
    ensures Deferred(ev, TargetDepth(lv.level), action, t) == Deferred(ev, TargetDepth(lv.level), action, t')
  {
    var unblock := UnblockTime(ev, TargetDepth(lv.level), action, t);
    if unblock != [] {
      assert unblock[0] in FutureTimes(lv, ev, policy, t);
    }
  }

  /** The expiry time is not early: when it arrives, some input of the decision has changed. */
  lemma NextRefreshIsTight(lv: LevelRow, ev: Evidence, policy: Policy, t: int)
    requires 0 <= t
    requires NextRefreshAt(lv, ev, policy, t) != 0
    ensures
      var r := NextRefreshAt(lv, ev, policy, t);
      var target := TargetDepth(lv.level);
      || (Deferred(ev, target, RefreshAction(target, ev), t) && !Deferred(ev, target, RefreshAction(target, ev), r))
      || (Deferred(ev, target, PnlAction(target, ev), t) && !Deferred(ev, target, PnlAction(target, ev), r))
      || (!ActivityRefreshNeeded(lv.level, lv.lastSeen, ev, policy, t)
          && ActivityRefreshNeeded(lv.level, lv.lastSeen, ev, policy, r))
      || (!PnlRefreshNeeded(lv.level, ev, t) && PnlRefreshNeeded(lv.level, ev, r))
  {
    var r := NextRefreshAt(lv, ev, policy, t);
    assert r in FutureTimes(lv, ev, policy, t);
  }

  /** Every decision computed at `t` stays right until its own expiry time. */
  ghost predicate DecisionsLastUntilExpiry(t: int) {
    forall lv: LevelRow, ev: Evidence, policy: Policy, t': int ::
      t <= t' && NotDue(StateRowAt(lv, ev, policy, t), t') ==>
        SameDecision(StateRowAt(lv, ev, policy, t'), StateRowAt(lv, ev, policy, t))
  }

  /** A profit row captured at 0 with no official figure: it needs a refresh from 06:00 on 1 January
      1970 on, and no expiry time announces it. */
  const UNDATED_PNL := Evidence(
    None, Some(Summary(Deep, METHODOLOGY_VERSION, 0.0, 0)), Some(Pnl(PNL_METHODOLOGY_VERSION, 0, None)), map[])

  lemma UndatedPnlExpiresUnannounced(t: int)
    requires t < PNL_INCOMPLETE_REFRESH_SECONDS
    ensures !DecisionsLastUntilExpiry(t)
  {
    var lv, policy := LevelRow(L4, false, 0), Policy(0, 0);
    var now := StateRowAt(lv, UNDATED_PNL, policy, t);
    var later := StateRowAt(lv, UNDATED_PNL, policy, PNL_INCOMPLETE_REFRESH_SECONDS);
    assert FutureTimes(lv, UNDATED_PNL, policy, t) == [];
    assert !now.pnlRefreshNeeded && later.pnlRefreshNeeded;
  }

  /** The planner's expiry rule is sound exactly on clocks past the first six hours of the epoch. */
  lemma DecisionsLastExactlyFromSixHours(t: int)
    ensures DecisionsLastUntilExpiry(t) <==> PNL_INCOMPLETE_REFRESH_SECONDS <= t
  {
    if t < PNL_INCOMPLETE_REFRESH_SECONDS {
      UndatedPnlExpiresUnannounced(t);
    } else {
      forall lv: LevelRow, ev: Evidence, policy: Policy, t': int
        | t <= t' && NotDue(StateRowAt(lv, ev, policy, t), t')
        ensures SameDecision(StateRowAt(lv, ev, policy, t'), StateRowAt(lv, ev, policy, t))
      {
        TemporalValidity(lv, ev, policy, t, t');
      }
    }
  }

  // ---------- What a decision means ----------

  /** Eligibility without the order of tests: work is wanted and nothing forbids it. */
  ghost predicate WantsCollection(lv: LevelRow, ev: Evidence, policy: Policy, now: int) {
    && !lv.hardRisk
    && Planned(lv.level)
    && !HasActiveJob(ev)
    && !HasTerminalScope(ev, TargetDepth(lv.level))
    && !DeferredFailureBlocks(ev, TargetDepth(lv.level), now)
    && (lv.level == L2 ==> ScreenIsHistoryEligible(ev.screen) && CurrentDepth(ev) != Deep)
    && (|| CurrentDepth(ev) != TargetDepth(lv.level)
        || MethodologyStale(ev)
        || ActivityRefreshNeeded(lv.level, lv.lastSeen, ev, policy, now)
        || PnlRefreshNeeded(lv.level, ev, now))
  }

  /** Stored summaries are always light or deep (`0058_wallet_levels.sql`). */
  ghost predicate StoredDepths(ev: Evidence) {
    ev.summary.Some? ==> !ev.summary.value.depth.NoDepth?
  }

  lemma EligibleIffWanted(lv: LevelRow, ev: Evidence, policy: Policy, now: int)
    requires StoredDepths(ev)
    ensures StateRowAt(lv, ev, policy, now).eligible <==> WantsCollection(lv, ev, policy, now)
  {
  }

  /** An eligible row's lane names a reason that holds; the catch-all lane is never reached by default. */
  lemma LaneIsJustified(lv: LevelRow, ev: Evidence, policy: Policy, now: int)
    requires StoredDepths(ev)
    ensures
      var row := StateRowAt(lv, ev, policy, now);
      && (row.eligible <==> row.lane != NoLane)
      && (row.lane == RequiredDepth ==> row.currentDepth != row.targetDepth)
      && (row.lane == MethodologyUpgrade ==> row.methodologyStale && row.currentDepth == row.targetDepth)
      && (row.lane == NewActivity ==> row.activityRefreshNeeded && !row.methodologyStale)
      && (row.lane == PnlEvidence ==> row.pnlRefreshNeeded && !row.activityRefreshNeeded && !row.methodologyStale)
  {
  }

  /** Lanes are drained in urgency order: a higher level is never less urgent on the same evidence. */
  lemma UrgencyRespectsLevel(high: LevelRow, low: LevelRow, ev: Evidence, policy: Policy, now: int)
    requires Planned(low.level) && Rank(low.level) < Rank(high.level)
    ensures
      var (h, l) := (StateRowAt(high, ev, policy, now), StateRowAt(low, ev, policy, now));
      h.urgency <= l.urgency
      && (h.urgency == l.urgency ==> !h.methodologyStale && !h.pnlRefreshNeeded)
  {
  }

  /** Time and sightings only enable: an eligible wallet stays eligible as the clock advances and
      `last_seen_at` grows, until its evidence changes. */
  lemma EligibilityOnlyGrows(lv: LevelRow, ev: Evidence, policy: Policy, t: int, lastSeen': int, t': int)
    requires t <= t' && lv.lastSeen <= lastSeen'
    requires StateRowAt(lv, ev, policy, t).eligible
    ensures StateRowAt(lv.(lastSeen := lastSeen'), ev, policy, t').eligible
  {
  }

  // ---------- The sighting patch ----------

  /** Both arguments positive means their minimum; otherwise whichever is positive, or 0. */
  function EarliestPositive(current: int, candidate: int): int {
    if current > 0 && candidate > 0 then Min(current, candidate)
    else if current > 0 then current
    else if candidate > 0 then candidate
    else 0
  }

  /** The expiry time written with a sighting, from the columns that the sighting claim carries. */
  function PatchedNextRefresh(
    level: Level, depth: Depth, summaryUpdatedAt: int, next: int, lastSeen: int, policy: Policy): int
  {
    if depth == TargetDepth(level) && lastSeen > summaryUpdatedAt then
      var due := summaryUpdatedAt + RefreshSeconds(level, policy);
      if due > 0 then EarliestPositive(next, due) else next
    else next
  }

  /** The state row after its sighting is applied. */
  function PatchedRow(row: StateRow, lastSeen: int, policy: Policy): StateRow {
    row.(
      lastSeen := Max(row.lastSeen, lastSeen),
      nextRefreshAt := PatchedNextRefresh(
        row.level, row.currentDepth, row.summaryUpdatedAt, row.nextRefreshAt, lastSeen, policy))
  }

  /** At every time from its refresh until it is due, the row is the fresh decision for its own
      `last_seen_at`. */
  ghost predicate ValidUntilDue(row: StateRow, lv: LevelRow, ev: Evidence, policy: Policy) {
    forall t' :: row.refreshedAt <= t' && NotDue(row, t') ==>
      SameDecision(row, StateRowAt(lv.(lastSeen := row.lastSeen), ev, policy, t'))
  }

  /** The columns of the row that do not depend on the clock are those of this evidence. */
  ghost predicate RowDescribes(row: StateRow, lv: LevelRow, ev: Evidence) {
    && row.level == lv.level
    && row.hardRisk == lv.hardRisk
    && row.currentDepth == CurrentDepth(ev)
    && row.summaryUpdatedAt == SummaryUpdatedAt(ev)
  }

  /** The activity window ends at a positive time, so that `next_refresh_at` can name it. */
  predicate ActivityDueIsPositive(level: Level, ev: Evidence, policy: Policy) {
    ev.summary.Some? ==> ActivityDueAt(level, ev, policy) > 0
  }

  lemma FreshRowIsValid(lv: LevelRow, ev: Evidence, policy: Policy, t: int)
    requires PNL_INCOMPLETE_REFRESH_SECONDS <= t
    ensures ValidUntilDue(StateRowAt(lv, ev, policy, t), lv, ev, policy)
  {
    var row := StateRowAt(lv, ev, policy, t);
    forall t' | t <= t' && NotDue(row, t')
      ensures SameDecision(row, StateRowAt(lv.(lastSeen := row.lastSeen), ev, policy, t'))
    {
      TemporalValidity(lv, ev, policy, t, t');
    }
  }

  /** Moving `last_seen_at` and pulling the expiry forward keeps the row valid until it is due. */
  lemma PatchKeepsValidity(row: StateRow, lv: LevelRow, ev: Evidence, policy: Policy, lastSeen: int)
    requires ValidUntilDue(row, lv, ev, policy) && RowDescribes(row, lv, ev)
    requires PNL_INCOMPLETE_REFRESH_SECONDS <= row.refreshedAt && 0 <= row.nextRefreshAt
    requires ActivityDueIsPositive(lv.level, ev, policy)
    ensures ValidUntilDue(PatchedRow(row, lastSeen, policy), lv, ev, policy)
    ensures 0 <= PatchedRow(row, lastSeen, policy).nextRefreshAt
  {
    var patched := PatchedRow(row, lastSeen, policy);
    forall t' | patched.refreshedAt <= t' && NotDue(patched, t')
      ensures SameDecision(patched, StateRowAt(lv.(lastSeen := patched.lastSeen), ev, policy, t'))
    {
      assert NotDue(row, t');
      var before := StateRowAt(lv.(lastSeen := row.lastSeen), ev, policy, t');
      assert SameDecision(row, before);
      assert ActivityRefreshNeeded(lv.level, patched.lastSeen, ev, policy, t')
             == ActivityRefreshNeeded(lv.level, row.lastSeen, ev, policy, t');
    }
  }

  /** The guard `activity_due_at > 0` is exactly what the patch relies on: for the first sighting after
      a summary of the target depth, the patched row is right iff the window ends at a positive time. */
  lemma FirstSightingPatchIsValidIff(lv: LevelRow, ev: Evidence, policy: Policy, t: int, lastSeen: int)
    requires Planned(lv.level) && CurrentDepth(ev) == TargetDepth(lv.level)
    requires PNL_INCOMPLETE_REFRESH_SECONDS <= t
    requires lv.lastSeen <= SummaryUpdatedAt(ev) < lastSeen
    ensures ValidUntilDue(PatchedRow(StateRowAt(lv, ev, policy, t), lastSeen, policy), lv, ev, policy)
            <==> ActivityDueAt(lv.level, ev, policy) > 0
  {
    var row := StateRowAt(lv, ev, policy, t);
    if ActivityDueAt(lv.level, ev, policy) > 0 {
      FreshRowIsValid(lv, ev, policy, t);
      NextRefreshIsZeroOrFuture(lv, ev, policy, t);
      PatchKeepsValidity(row, lv, ev, policy, lastSeen);
    } else {
      var patched := PatchedRow(row, lastSeen, policy);
      NextRefreshIsZeroOrFuture(lv, ev, policy, t);
      assert NotDue(patched, t);
      assert !patched.activityRefreshNeeded;
      assert StateRowAt(lv.(lastSeen := patched.lastSeen), ev, policy, t).activityRefreshNeeded;
    }
  }

  lemma NextRefreshIsZeroOrFuture(lv: LevelRow, ev: Evidence, policy: Policy, t: int)
    requires 0 <= t
    ensures NextRefreshAt(lv, ev, policy, t) == 0 || t < NextRefreshAt(lv, ev, policy, t)
  {
    var times := FutureTimes(lv, ev, policy, t);
    if times != [] {
      DueTimesBoundNext(lv, ev, policy, t, times[0]);
    }
  }
}
