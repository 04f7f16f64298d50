/** Discovery ingress: one sighting touches the level, observation and candidate tables and may take a wallet
    from L0 to L1. Batches run it on prefetched snapshots instead of reading the tables; both must agree. */
module WalletIngress {
  import opened Terms

  const RECENT_OBSERVED_MIN_TRADE_COUNT := 2

  /** Text columns are lists of their `|`-separated parts. */
  datatype Texts = Texts(sources: seq<string>, labels: seq<string>, notes: seq<string>, links: seq<string>)

  /** A discovery status may carry a timestamp after its kind. */
  datatype Status = Status(kind: string, stamp: Option<nat>)

  const NO_STATUS := Status("", None)

  datatype Candidate = Candidate(texts: Texts, status: Status)

  datatype CandidateRow = CandidateRow(texts: Texts, status: Status, firstSeen: int, updatedAt: int)

  datatype LevelRow = LevelRow(
    level: Level, reason: string, policy: string, hardRisk: bool,
    firstSeen: int, lastSeen: int, levelUpdatedAt: int, updatedAt: int)

  datatype LevelEvent = LevelEvent(wallet: Wallet, from: Level, to: Level, reason: string, policy: string, at: int)

  /** `key` is the trade key's rank in text order. */
  datatype Trade = Trade(key: int, timestamp: int, observedAt: int, usdc: real)

  datatype Observed = Observed(
    texts: Texts, status: Status, tradeCount: nat, recent: seq<Trade>,
    promotedAt: Option<int>, promotionReason: string, firstSeen: int, updatedAt: int)

  datatype SourceEvent = SourceEvent(wallet: Wallet, candidate: Candidate, at: int)

  datatype Tables = Tables(
    levels: map<Wallet, LevelRow>, events: seq<LevelEvent>,
    candidates: map<Wallet, CandidateRow>, sourceEvents: seq<SourceEvent>,
    observed: map<Wallet, Observed>)

  /** Each snapshot may be absent. */
  datatype Snapshots = Snapshots(
    candidates: Option<map<Wallet, Candidate>>,
    levels: Option<map<Wallet, LevelRow>>,
    observed: Option<map<Wallet, Observed>>)

  const DIRECT := Snapshots(None, None, None)

  datatype Sighting = Sighting(
    wallet: Wallet, candidate: Candidate, trades: seq<Trade>,
    verifiedTrade: bool, trustedSource: bool, allowL1: bool, refreshExisting: bool, now: int)

  datatype Outcome = Outcome(level: Level, reason: string, candidateUpdated: bool, promoted: bool, newTrades: nat)

  // ---------- Text, status and trades ----------

  /** The parts of both, each once, in order of first appearance. */
  function Merged(seen: seq<string>, parts: seq<string>): seq<string>
    decreases |parts|
  {
    if parts == [] then seen
    else Merged(if parts[0] in seen then seen else seen + [parts[0]], parts[1..])
  }

  function MergedText(existing: seq<string>, incoming: seq<string>): seq<string> {
    Merged(Merged([], existing), incoming)
  }

  function MergedTexts(a: Texts, b: Texts): Texts {
    Texts(MergedText(a.sources, b.sources), MergedText(a.labels, b.labels),
          MergedText(a.notes, b.notes), MergedText(a.links, b.links))
  }

  function Canonical(s: Status): Status {
    s.(stamp := None)
  }

  predicate ContainsWord(s: string, word: string) {
    exists i {:trigger s[i..]} | 0 <= i <= |s| - |word| :: word <= s[i..]
  }

  predicate IsTrustedText(s: string) {
    || ContainsWord(s, "manual") || ContainsWord(s, "watchlist") || ContainsWord(s, "leaderboard")
    || ContainsWord(s, "bitget") || ContainsWord(s, "polydata")
  }

  /** Provenance that needs no further evidence. A status stamp is digits and cannot add to it. */
  predicate HasTrustedProvenance(c: Candidate) {
    || (exists s | s in c.texts.sources + c.texts.labels + c.texts.notes + c.texts.links :: IsTrustedText(s))
    || IsTrustedText(c.status.kind)
  }

  function PutTrade(rows: seq<Trade>, t: Trade): seq<Trade> {
    if rows == [] then [t] else if rows[0].key == t.key then [t] + rows[1..] else [rows[0]] + PutTrade(rows[1..], t)
  }

  function NormalTrade(t: Trade, now: int): Trade {
    t.(observedAt := if t.observedAt == 0 then now else t.observedAt, usdc := MaxR(0.0, t.usdc))
  }

  function PutTrades(rows: seq<Trade>, trades: seq<Trade>, now: int): seq<Trade> {
    if trades == [] then rows
    else PutTrade(PutTrades(rows, trades[..|trades| - 1], now), NormalTrade(trades[|trades| - 1], now))
  }

  predicate NewerTrade(a: Trade, b: Trade) {
    || a.timestamp > b.timestamp
    || (a.timestamp == b.timestamp
        && (a.observedAt > b.observedAt || (a.observedAt == b.observedAt && a.key > b.key)))
  }

  function InsertTrade(rows: seq<Trade>, t: Trade): seq<Trade> {
    if rows == [] || NewerTrade(t, rows[0]) then [t] + rows else [rows[0]] + InsertTrade(rows[1..], t)
  }

  function SortedTrades(rows: seq<Trade>): seq<Trade> {
    if rows == [] then [] else InsertTrade(SortedTrades(rows[..|rows| - 1]), rows[|rows| - 1])
  }

  function Newest(rows: seq<Trade>): seq<Trade> {
    if |rows| <= RECENT_SAMPLE_TRADE_LIMIT then rows else rows[..RECENT_SAMPLE_TRADE_LIMIT]
  }

  function MergedTrades(existing: seq<Trade>, incoming: seq<Trade>, now: int): seq<Trade> {
    Newest(SortedTrades(PutTrades(PutTrades([], existing, now), incoming, now)))
  }

  lemma {:induction false} PutTradeGrows(rows: seq<Trade>, t: Trade)
    ensures |rows| <= |PutTrade(rows, t)| <= |rows| + 1
  {
    if rows != [] {
      PutTradeGrows(rows[1..], t);
    }
  }

  lemma {:induction false} PutTradesGrow(rows: seq<Trade>, trades: seq<Trade>, now: int)
    ensures |rows| <= |PutTrades(rows, trades, now)|
  {
    if trades != [] {
      PutTradesGrow(rows, trades[..|trades| - 1], now);
      PutTradeGrows(PutTrades(rows, trades[..|trades| - 1], now), NormalTrade(trades[|trades| - 1], now));
    }
  }

  /** Keys that were not stored before. */
  function NewTradeCount(existing: seq<Trade>, incoming: seq<Trade>, now: int): nat {
    var rows := PutTrades([], existing, now);
    PutTradesGrow(rows, incoming, now);
    |PutTrades(rows, incoming, now)| - |rows|
  }

  ghost predicate DistinctKeys(rows: seq<Trade>) {
    forall i, j | 0 <= i < j < |rows| :: rows[i].key != rows[j].key
  }

  ghost predicate NewestFirst(rows: seq<Trade>) {
    forall i, j | 0 <= i < j < |rows| :: NewerTrade(rows[i], rows[j])
  }

  lemma {:induction false} PutTradeMembers(rows: seq<Trade>, t: Trade)
    requires DistinctKeys(rows)
    ensures DistinctKeys(PutTrade(rows, t))
    ensures forall x :: x in PutTrade(rows, t) <==> x == t || (x in rows && x.key != t.key)
  {
    if rows != [] {
      assert rows == [rows[0]] + rows[1..];
      PutTradeMembers(rows[1..], t);
    }
  }

  lemma {:induction false} InsertTradeOrder(rows: seq<Trade>, t: Trade)
    requires NewestFirst(rows) && forall x | x in rows :: x.key != t.key
    ensures NewestFirst(InsertTrade(rows, t))
    ensures forall x :: x in InsertTrade(rows, t) <==> x == t || x in rows
  {
    if rows != [] {
      assert rows == [rows[0]] + rows[1..];
      InsertTradeOrder(rows[1..], t);
      var tail := InsertTrade(rows[1..], t);
      assert NewerTrade(t, rows[0]) || NewerTrade(rows[0], t) by {
        assert rows[0] in rows;
      }
      assert forall x | x in rows[1..] :: NewerTrade(rows[0], x);
      assert forall j | 0 <= j < |tail| :: tail[j] in tail;
    }
  }

  lemma {:induction false} SortedTradesOrder(rows: seq<Trade>)
    requires DistinctKeys(rows)
    ensures NewestFirst(SortedTrades(rows)) && forall x :: x in SortedTrades(rows) <==> x in rows
  {
    if rows != [] {
      var init, last := rows[..|rows| - 1], rows[|rows| - 1];
      assert rows == init + [last];
      SortedTradesOrder(init);
      InsertTradeOrder(SortedTrades(init), last);
    }
  }

  /** The last of the trades with its key, normalized. */
  ghost predicate IsLastTrade(trades: seq<Trade>, x: Trade, now: int) {
    exists i ::
      && 0 <= i < |trades| && x == NormalTrade(trades[i], now)
      && forall j | i < j < |trades| :: NormalTrade(trades[j], now).key != x.key
  }

  /** Every key of the trades once, each with its last trade. */
  ghost predicate IsDistinct(all: seq<Trade>, trades: seq<Trade>, now: int) {
    DistinctKeys(all) && forall x :: x in all <==> IsLastTrade(trades, x, now)
  }

  lemma LastTradeOfMore(trades: seq<Trade>, t: Trade, x: Trade, now: int)
    ensures IsLastTrade(trades + [t], x, now)
            <==> x == NormalTrade(t, now) || (IsLastTrade(trades, x, now) && x.key != NormalTrade(t, now).key)
  {
    var more := trades + [t];
    assert more[|trades|] == t;
    if IsLastTrade(more, x, now) && x != NormalTrade(t, now) {
      var i :| 0 <= i < |more| && x == NormalTrade(more[i], now)
               && forall j | i < j < |more| :: NormalTrade(more[j], now).key != x.key;
      assert x == NormalTrade(trades[i], now);
      assert forall j | i < j < |trades| :: more[j] == trades[j];
    }
    if IsLastTrade(trades, x, now) && x.key != NormalTrade(t, now).key {
      var i :| 0 <= i < |trades| && x == NormalTrade(trades[i], now)
               && forall j | i < j < |trades| :: NormalTrade(trades[j], now).key != x.key;
      assert more[i] == trades[i];
    }
  }

  lemma {:induction false} PutTradesAreDistinct(trades: seq<Trade>, now: int)
    ensures IsDistinct(PutTrades([], trades, now), trades, now)
  {
    if trades != [] {
      var init, last := trades[..|trades| - 1], trades[|trades| - 1];
      assert trades == init + [last];
      PutTradesAreDistinct(init, now);
      PutTradeMembers(PutTrades([], init, now), NormalTrade(last, now));
      forall x ensures x in PutTrades([], trades, now) <==> IsLastTrade(trades, x, now) {
        LastTradeOfMore(init, last, x, now);
      }
    }
  }

  lemma {:induction false} PutTradesJoin(rows: seq<Trade>, a: seq<Trade>, b: seq<Trade>, now: int)
    ensures PutTrades(PutTrades(rows, a, now), b, now) == PutTrades(rows, a + b, now)
  {
    if b == [] {
      assert a + b == a;
    } else {
      var init := b[..|b| - 1];
      PutTradesJoin(rows, a, init, now);
      assert (a + b)[..|a + b| - 1] == a + init;
    }
  }

  /** A merge keeps the ten newest of the trades of both lists, newest first; of trades with one key the last
      counts. */
  lemma MergeKeepsTheNewest(existing: seq<Trade>, incoming: seq<Trade>, now: int)
    ensures
      var all, kept := PutTrades(PutTrades([], existing, now), incoming, now), MergedTrades(existing, incoming, now);
      && IsDistinct(all, existing + incoming, now)
      && |kept| <= RECENT_SAMPLE_TRADE_LIMIT && NewestFirst(kept)
      && (forall x | x in kept :: x in all)
      && (forall x | x in all && x !in kept ::
            |kept| == RECENT_SAMPLE_TRADE_LIMIT && forall y | y in kept :: NewerTrade(y, x))
  {
    var all := PutTrades(PutTrades([], existing, now), incoming, now);
    PutTradesJoin([], existing, incoming, now);
    PutTradesAreDistinct(existing + incoming, now);
    SortedTradesOrder(all);
    forall x | x in all && x !in Newest(SortedTrades(all))
      ensures |Newest(SortedTrades(all))| == RECENT_SAMPLE_TRADE_LIMIT
      ensures forall y | y in Newest(SortedTrades(all)) :: NewerTrade(y, x)
    {
      var i :| 0 <= i < |SortedTrades(all)| && SortedTrades(all)[i] == x;
    }
  }

  function TotalUsdc(trades: seq<Trade>): real {
    if trades == [] then 0.0 else TotalUsdc(trades[..|trades| - 1]) + trades[|trades| - 1].usdc
  }

  // ---------- One sighting, on values ----------

  function Touched(row: Option<LevelRow>, reason: string, now: int): LevelRow {
    match row
    case None => LevelRow(L0, reason, "", false, now, now, now, now)
    case Some(r) => r.(lastSeen := Max(r.lastSeen, now), updatedAt := now)
  }

  function Promoted(row: LevelRow, to: Level, reason: string, policy: string, now: int): LevelRow {
    row.(level := to, reason := reason, policy := policy, levelUpdatedAt := now, updatedAt := now)
  }

  function NewStatus(existing: Option<Observed>, s: Status): Status {
    Canonical(if s != NO_STATUS then s else if existing.Some? then existing.value.status else NO_STATUS)
  }

  /** What an observation row or its snapshot becomes; `existing` is read from whichever is in use. */
  function Reobserved(existing: Option<Observed>, s: Sighting): Observed {
    var trades := if s.verifiedTrade then s.trades else [];
    match existing
    case None =>
      Observed(
        MergedTexts(Texts([], [], [], []), s.candidate.texts), NewStatus(None, s.candidate.status),
        NewTradeCount([], trades, s.now), MergedTrades([], trades, s.now), None, "", s.now, s.now)
    case Some(o) =>
      Observed(
        MergedTexts(o.texts, s.candidate.texts), NewStatus(existing, s.candidate.status),
        o.tradeCount + NewTradeCount(o.recent, trades, s.now), MergedTrades(o.recent, trades, s.now),
        o.promotedAt, o.promotionReason, if o.firstSeen == 0 then s.now else o.firstSeen, s.now)
  }

  /** The stored row keeps its own promotion and first-seen columns when it exists. */
  function StoredObservation(stored: Option<Observed>, row: Observed): Observed {
    match stored
    case None => row
    case Some(o) => row.(promotedAt := o.promotedAt, promotionReason := o.promotionReason, firstSeen := o.firstSeen)
  }

  function MarkedPromoted(o: Observed, reason: string, now: int): Observed {
    o.(promotedAt := if o.promotedAt.None? then Some(now) else o.promotedAt,
       promotionReason :=
         if o.promotionReason == "" then (if reason == "" then "l1_qualified" else reason) else o.promotionReason,
       updatedAt := now)
  }

  function QualificationReason(s: Sighting, existing: Option<Candidate>, recent: seq<Trade>): string {
    if s.trustedSource then "trusted_source"
    else if existing.Some? && HasTrustedProvenance(existing.value) then "trusted_candidate_provenance"
    else if s.verifiedTrade && |recent| >= RECENT_OBSERVED_MIN_TRADE_COUNT
            && TotalUsdc(recent) >= RECENT_SAMPLE_VOLUME_GATE_USDC
    then "observed_resource_gate"
    else ""
  }

  function FromRow(row: Option<CandidateRow>): Option<Candidate> {
    match row
    case None => None
    case Some(r) => Some(Candidate(r.texts, r.status))
  }

  function UpsertedRow(stored: Option<CandidateRow>, preloaded: Option<Candidate>, c: Candidate,
                       now: int): CandidateRow
  {
    CandidateRow(
      if preloaded.Some? then MergedTexts(preloaded.value.texts, c.texts) else c.texts, c.status,
      if stored.Some? then stored.value.firstSeen else now, now)
  }

  function MergedSnapshot(existing: Option<Candidate>, c: Candidate): Candidate {
    match existing
    case None => c
    case Some(e) => Candidate(MergedTexts(e.texts, c.texts), Canonical(c.status))
  }

  // ---------- Levels and their event log ----------

  datatype LevelResult = Decided(level: Level, reason: string) | UnknownWallet | Downgrade | SkipsLevels | CannotPromote

  datatype Leveled = Leveled(
    levels: map<Wallet, LevelRow>, events: seq<LevelEvent>, snapshot: Option<map<Wallet, LevelRow>>,
    result: LevelResult)

  function Noted(snapshot: Option<map<Wallet, LevelRow>>, w: Wallet, row: LevelRow): Option<map<Wallet, LevelRow>> {
    match snapshot
    case None => None
    case Some(m) => Some(m[w := row])
  }

  /** `advance_wallet_level`: exactly one level up, against the snapshot row when there is one. */
  function Advanced(levels: map<Wallet, LevelRow>, events: seq<LevelEvent>, snapshot: Option<map<Wallet, LevelRow>>,
                    w: Wallet, to: Level, reason: string, policy: string, now: int): Leveled {
    var known := if snapshot.Some? && w in snapshot.value then Lookup(snapshot.value, w) else Lookup(levels, w);
    if known.None? then Leveled(levels, events, snapshot, UnknownWallet)
    else
      var current := known.value;
      if Rank(to) < Rank(current.level) then Leveled(levels, events, snapshot, Downgrade)
      else if Rank(to) > Rank(current.level) + 1 then Leveled(levels, events, snapshot, SkipsLevels)
      else if to == current.level || current.hardRisk then
        Leveled(
          levels, events, snapshot,
          Decided(current.level, if current.hardRisk then "hard_risk_block" else "unchanged"))
      else if current.level == L0 && !(w in levels && levels[w].level == L0 && !levels[w].hardRisk) then
        // The guarded update found another row than the snapshot's: take that one.
        if w !in levels then Leveled(levels, events, snapshot, UnknownWallet)
        else Leveled(levels, events, Noted(snapshot, w, levels[w]),
                     Decided(levels[w].level, if levels[w].hardRisk then "hard_risk_block" else "unchanged"))
      else
        Leveled(
          if w in levels then levels[w := Promoted(levels[w], to, reason, policy, now)] else levels,
          events + [LevelEvent(w, current.level, to, reason, policy, now)],
          Noted(snapshot, w, Promoted(current, to, reason, policy, now)),
          Decided(to, reason))
  }

  /** `reclassify_wallet_level`: down only. */
  function Reclassified(levels: map<Wallet, LevelRow>, events: seq<LevelEvent>,
                        w: Wallet, to: Level, reason: string, policy: string, now: int): Leveled {
    if w !in levels then Leveled(levels, events, None, UnknownWallet)
    else if Rank(to) > Rank(levels[w].level) then Leveled(levels, events, None, CannotPromote)
    else if to == levels[w].level then Leveled(levels, events, None, Decided(to, "unchanged"))
    else
      Leveled(levels[w := Promoted(levels[w], to, reason, policy, now)],
              events + [LevelEvent(w, levels[w].level, to, reason, policy, now)], None, Decided(to, reason))
  }

  /** The level a log leaves a wallet at, if it started at L0. */
  function Replayed(events: seq<LevelEvent>, w: Wallet): Level {
    if events == [] then L0
    else
      var e := events[|events| - 1];
      if e.wallet == w then e.to else Replayed(events[..|events| - 1], w)
  }

  /** Every event leaves the level the log had reached, one step up or any number down. */
  ghost predicate IsChained(events: seq<LevelEvent>) {
    events == [] ||
    (var init, e := events[..|events| - 1], events[|events| - 1];
     && IsChained(init) && e.from == Replayed(init, e.wallet)
     && (Rank(e.to) == Rank(e.from) + 1 || Rank(e.to) < Rank(e.from)))
  }

  ghost predicate LogTellsLevels(levels: map<Wallet, LevelRow>, events: seq<LevelEvent>) {
    && IsChained(events)
    && forall w :: Replayed(events, w) == if w in levels then levels[w].level else L0
  }

  datatype LevelOp =
    | Touch(wallet: Wallet, reason: string, now: int)
    | Advance(wallet: Wallet, to: Level, reason: string, policy: string, now: int)
    | Reclassify(wallet: Wallet, to: Level, reason: string, policy: string, now: int)
    | BlockRisk(wallet: Wallet, blocked: bool, now: int)

  function Applied(levels: map<Wallet, LevelRow>, events: seq<LevelEvent>, op: LevelOp): Leveled {
    match op
    case Touch(w, reason, now) =>
      var row := Touched(Lookup(levels, w), reason, now);
      Leveled(levels[w := row], events, None, Decided(row.level, ""))
    case Advance(w, to, reason, policy, now) => Advanced(levels, events, None, w, to, reason, policy, now)
    case Reclassify(w, to, reason, policy, now) => Reclassified(levels, events, w, to, reason, policy, now)
    case BlockRisk(w, blocked, now) =>
      var row := Touched(Lookup(levels, w), "risk_state", now).(hardRisk := blocked, updatedAt := now);
      Leveled(levels[w := row], events, None, Decided(row.level, ""))
  }

  lemma SameLevelsSameLog(levels: map<Wallet, LevelRow>, levels': map<Wallet, LevelRow>, events: seq<LevelEvent>)
    requires LogTellsLevels(levels, events)
    requires forall w :: (if w in levels' then levels'[w].level else L0) == if w in levels then levels[w].level else L0
    ensures LogTellsLevels(levels', events)
  {
  }

  lemma LogGrows(levels: map<Wallet, LevelRow>, events: seq<LevelEvent>, w: Wallet, row: LevelRow, e: LevelEvent)
    requires LogTellsLevels(levels, events) && w in levels && e.wallet == w && e.from == levels[w].level
             && e.to == row.level
    requires Rank(e.to) == Rank(e.from) + 1 || Rank(e.to) < Rank(e.from)
    ensures LogTellsLevels(levels[w := row], events + [e])
  {
    assert (events + [e])[..|events|] == events;
  }

  lemma OpKeepsLog(levels: map<Wallet, LevelRow>, events: seq<LevelEvent>, op: LevelOp)
    requires LogTellsLevels(levels, events)
    ensures LogTellsLevels(Applied(levels, events, op).levels, Applied(levels, events, op).events)
  {
    var after := Applied(levels, events, op);
    if after.events == events {
      SameLevelsSameLog(levels, after.levels, events);
    } else {
      var w := op.wallet;
      LogGrows(levels, events, w, after.levels[w], LevelEvent(w, levels[w].level, op.to, op.reason, op.policy, op.now));
    }
  }

  function Levels(ops: seq<LevelOp>): Leveled {
    if ops == [] then Leveled(map[], [], None, UnknownWallet)
    else
      var before := Levels(ops[..|ops| - 1]);
      Applied(before.levels, before.events, ops[|ops| - 1])
  }

  /** For wallets that all started at L0, replaying the event log gives the current levels, and every event in
      it is a promotion by one level or a reclassification downwards. */
  lemma {:induction false} LogReplaysToLevels(ops: seq<LevelOp>)
    ensures LogTellsLevels(Levels(ops).levels, Levels(ops).events)
  {
    if ops != [] {
      var init := ops[..|ops| - 1];
      LogReplaysToLevels(init);
      OpKeepsLog(Levels(init).levels, Levels(init).events, ops[|ops| - 1]);
    }
  }

  // ---------- A whole sighting, on values ----------

  datatype Seen = Seen(tables: Tables, snapshots: Snapshots, outcome: Outcome)

  function KnownObservation(t: Tables, s: Snapshots, w: Wallet): Option<Observed> {
    if s.observed.Some? then Lookup(s.observed.value, w) else Lookup(t.observed, w)
  }

  function KnownCandidate(t: Tables, s: Snapshots, w: Wallet): Option<Candidate> {
    if s.candidates.Some? then Lookup(s.candidates.value, w) else FromRow(Lookup(t.candidates, w))
  }

  function KnownLevel(t: Tables, s: Snapshots, w: Wallet): Option<LevelRow> {
    if s.levels.Some? && w in s.levels.value then Lookup(s.levels.value, w) else Lookup(t.levels, w)
  }

  /** `ensure_wallet_level`. */
  function Ensured(t: Tables, s: Snapshots, x: Sighting): (Tables, Snapshots) {
    (t.(levels := t.levels[x.wallet := Touched(Lookup(t.levels, x.wallet), "source_sighting", x.now)]),
     match s.levels
     case None => s
     case Some(m) => s.(levels := Some(m[x.wallet := Touched(Lookup(m, x.wallet), "source_sighting", x.now)])))
  }

  /** `_record_observation`. */
  function WithObservation(t: Tables, s: Snapshots, x: Sighting): (Tables, Snapshots) {
    var row := Reobserved(KnownObservation(t, s, x.wallet), x);
    (t.(observed := t.observed[x.wallet := StoredObservation(Lookup(t.observed, x.wallet), row)]),
     match s.observed
     case None => s
     case Some(m) => s.(observed := Some(m[x.wallet := row])))
  }

  /** `upsert_candidate` and the snapshot's merge. */
  function WithCandidate(t: Tables, s: Snapshots, x: Sighting): (Tables, Snapshots) {
    var preloaded := KnownCandidate(t, s, x.wallet);
    (t.(candidates :=
          t.candidates[x.wallet := UpsertedRow(Lookup(t.candidates, x.wallet), preloaded, x.candidate, x.now)],
        sourceEvents := t.sourceEvents + [SourceEvent(x.wallet, x.candidate, x.now)]),
     match s.candidates
     case None => s
     case Some(m) => s.(candidates := Some(m[x.wallet := MergedSnapshot(preloaded, x.candidate)])))
  }

  function WithPromotion(t: Tables, s: Snapshots, w: Wallet, reason: string, now: int): (Tables, Snapshots) {
    (if w in t.observed then t.(observed := t.observed[w := MarkedPromoted(t.observed[w], reason, now)]) else t,
     if s.observed.Some? && w in s.observed.value
     then s.(observed := Some(s.observed.value[w := MarkedPromoted(s.observed.value[w], reason, now)])) else s)
  }

  function WithAdvance(t: Tables, s: Snapshots, w: Wallet, reason: string, now: int): (Tables, Snapshots) {
    var l := Advanced(t.levels, t.events, s.levels, w, L1, reason, "", now);
    (t.(levels := l.levels, events := l.events), s.(levels := l.snapshot))
  }

  /** What follows once the candidate is written. */
  function AfterWrite(t: Tables, s: Snapshots, x: Sighting, reason: string, level: LevelRow): (Tables, Snapshots) {
    if reason == "" then (t, s)
    else
      var (t1, s1) :=
        if level.level == L0 && !level.hardRisk then WithAdvance(t, s, x.wallet, reason, x.now) else (t, s);
      var current := KnownLevel(t1, s1, x.wallet);
      if current.Some? && current.value.level != L0 then WithPromotion(t1, s1, x.wallet, reason, x.now) else (t1, s1)
  }

  function LevelOf(t: Tables, s: Snapshots, w: Wallet): Level {
    match KnownLevel(t, s, w)
    case None => L0
    case Some(row) => row.level
  }

  /** The rest of a sighting, once the level is ensured and the observation recorded. */
  function Concluded(t: Tables, s: Snapshots, x: Sighting, level: LevelRow, recent: seq<Trade>, newTrades: nat): Seen {
    var preloaded := KnownCandidate(t, s, x.wallet);
    var reason := QualificationReason(x, preloaded, recent);
    if (preloaded.Some? && x.refreshExisting) || (preloaded.None? && x.allowL1 && reason != "") then
      var (t1, s1) := WithCandidate(t, s, x);
      var (t2, s2) := AfterWrite(t1, s1, x, reason, level);
      var left := LevelOf(t2, s2, x.wallet);
      Seen(t2, s2, Outcome(left, reason, true, reason != "" && left != L0 && preloaded.None?, newTrades))
    else
      Seen(t, s, Outcome(LevelOf(t, s, x.wallet), reason, false, false, newTrades))
  }

  function NewTrades(before: Option<Observed>, x: Sighting): nat {
    Reobserved(before, x).tradeCount - if before.Some? then before.value.tradeCount else 0
  }

  function Sight(t: Tables, s: Snapshots, x: Sighting): Seen {
    var (t1, s1) := Ensured(t, s, x);
    var level := if s1.levels.Some? then s1.levels.value[x.wallet] else t1.levels[x.wallet];
    var before := KnownObservation(t1, s1, x.wallet);
    var (t2, s2) := WithObservation(t1, s1, x);
    Concluded(t2, s2, x, level, Reobserved(before, x).recent, NewTrades(before, x))
  }

  // ---------- Snapshots agree with the tables ----------

  predicate SameLevel(t: Tables, s: Snapshots, w: Wallet) {
    s.levels.Some? ==> Lookup(s.levels.value, w) == Lookup(t.levels, w)
  }

  /** Up to the timestamp of the status. */
  predicate SameCandidate(t: Tables, s: Snapshots, w: Wallet) {
    s.candidates.Some? ==>
      match (Lookup(s.candidates.value, w), Lookup(t.candidates, w))
      case (None, None) => true
      case (Some(c), Some(row)) => c.texts == row.texts && Canonical(c.status) == Canonical(row.status)
      case _ => false
  }

  /** Up to a first-seen time that the table lacks. */
  predicate SameObserved(t: Tables, s: Snapshots, w: Wallet) {
    s.observed.Some? ==>
      match (Lookup(s.observed.value, w), Lookup(t.observed, w))
      case (None, None) => true
      case (Some(o), Some(row)) => o.(firstSeen := 0) == row.(firstSeen := 0)
          && (row.firstSeen != 0 ==> o.firstSeen == row.firstSeen)
      case _ => false
  }

  predicate Agree(t: Tables, s: Snapshots, w: Wallet) {
    SameLevel(t, s, w) && SameCandidate(t, s, w) && SameObserved(t, s, w)
  }

  ghost predicate AgreeOn(t: Tables, s: Snapshots, ws: set<Wallet>) {
    forall w | w in ws :: Agree(t, s, w)
  }

  lemma StampDoesNotMatter(c: Candidate, d: Candidate)
    requires c.texts == d.texts && Canonical(c.status) == Canonical(d.status)
    ensures HasTrustedProvenance(c) == HasTrustedProvenance(d)
  {
  }

  lemma EnsuredAgree(t: Tables, s: Snapshots, x: Sighting, ws: set<Wallet>)
    requires AgreeOn(t, s, ws) && x.wallet in ws
    ensures
      var (t', s') := Ensured(t, s, x);
      && t' == Ensured(t, DIRECT, x).0 && AgreeOn(t', s', ws)
      && x.wallet in t'.levels && (s'.levels.Some? ==> Lookup(s'.levels.value, x.wallet) == Some(t'.levels[x.wallet]))
  {
    assert Agree(t, s, x.wallet);
    var (t', s') := Ensured(t, s, x);
    forall v | v in ws ensures Agree(t', s', v) {
      assert Agree(t, s, v);
    }
  }

  /** What a sighting reads off the old and new observation does not depend on where it is read. */
  lemma ObservationAgrees(t: Tables, s: Snapshots, x: Sighting, ws: set<Wallet>)
    requires AgreeOn(t, s, ws) && x.wallet in ws
    ensures
      var (t', s') := WithObservation(t, s, x);
      && t' == WithObservation(t, DIRECT, x).0 && AgreeOn(t', s', ws)
    ensures
      var o, d := KnownObservation(t, s, x.wallet), KnownObservation(t, DIRECT, x.wallet);
      && (o.Some? <==> d.Some?) && (o.Some? ==> o.value.tradeCount == d.value.tradeCount)
      && Reobserved(o, x).recent == Reobserved(d, x).recent
      && Reobserved(o, x).tradeCount == Reobserved(d, x).tradeCount
  {
    assert Agree(t, s, x.wallet);
    var (t', s') := WithObservation(t, s, x);
    forall v | v in ws ensures Agree(t', s', v) {
      assert Agree(t, s, v);
    }
  }

  /** The first-seen time of a snapshot drifts from the table exactly when the table has none. */
  lemma FirstSeenAgreesIff(t: Tables, s: Snapshots, x: Sighting)
    requires Agree(t, s, x.wallet) && s.observed.Some? && x.wallet in t.observed && x.now != 0
    requires t.observed[x.wallet].firstSeen == 0 ==> s.observed.value[x.wallet].firstSeen == 0
    ensures
      var (t', s') := WithObservation(t, s, x);
      s'.observed.value[x.wallet].firstSeen == t'.observed[x.wallet].firstSeen <==> t.observed[x.wallet].firstSeen != 0
  {
  }

  lemma CandidateAgrees(t: Tables, s: Snapshots, x: Sighting, ws: set<Wallet>)
    requires AgreeOn(t, s, ws) && x.wallet in ws
    ensures
      var (t', s') := WithCandidate(t, s, x);
      && t' == WithCandidate(t, DIRECT, x).0 && AgreeOn(t', s', ws)
    ensures
      var c, d := KnownCandidate(t, s, x.wallet), KnownCandidate(t, DIRECT, x.wallet);
      && (c.Some? <==> d.Some?)
      && forall recent :: QualificationReason(x, c, recent) == QualificationReason(x, d, recent)
  {
    assert Agree(t, s, x.wallet);
    var (t', s') := WithCandidate(t, s, x);
    var c, d := KnownCandidate(t, s, x.wallet), KnownCandidate(t, DIRECT, x.wallet);
    if c.Some? {
      StampDoesNotMatter(c.value, d.value);
    }
    forall v | v in ws ensures Agree(t', s', v) {
      assert Agree(t, s, v);
    }
  }

  lemma AdvanceAgrees(t: Tables, s: Snapshots, w: Wallet, reason: string, now: int, ws: set<Wallet>)
    requires AgreeOn(t, s, ws) && w in ws
    ensures
      var (t', s') := WithAdvance(t, s, w, reason, now);
      && t' == WithAdvance(t, DIRECT, w, reason, now).0 && AgreeOn(t', s', ws)
  {
    assert Agree(t, s, w);
    var (t', s') := WithAdvance(t, s, w, reason, now);
    forall v | v in ws ensures Agree(t', s', v) {
      assert Agree(t, s, v);
    }
  }

  lemma PromotionAgrees(t: Tables, s: Snapshots, w: Wallet, reason: string, now: int, ws: set<Wallet>)
    requires AgreeOn(t, s, ws) && w in ws
    ensures
      var (t', s') := WithPromotion(t, s, w, reason, now);
      && t' == WithPromotion(t, DIRECT, w, reason, now).0 && AgreeOn(t', s', ws)
  {
    assert Agree(t, s, w);
    var (t', s') := WithPromotion(t, s, w, reason, now);
    forall v | v in ws ensures Agree(t', s', v) {
      assert Agree(t, s, v);
    }
  }

  lemma LevelIsKnownAlike(t: Tables, s: Snapshots, w: Wallet, ws: set<Wallet>)
    requires AgreeOn(t, s, ws) && w in ws
    ensures KnownLevel(t, s, w) == KnownLevel(t, DIRECT, w) && LevelOf(t, s, w) == LevelOf(t, DIRECT, w)
  {
    assert Agree(t, s, w);
  }

  lemma DirectStaysDirect(t: Tables, x: Sighting, reason: string, level: LevelRow)
    ensures Ensured(t, DIRECT, x).1 == WithObservation(t, DIRECT, x).1 == WithCandidate(t, DIRECT, x).1 == DIRECT
    ensures AfterWrite(t, DIRECT, x, reason, level).1 == DIRECT
    ensures WithAdvance(t, DIRECT, x.wallet, reason, x.now).1 == DIRECT
    ensures WithPromotion(t, DIRECT, x.wallet, reason, x.now).1 == DIRECT
  {
  }

  lemma AfterWriteAgrees(t: Tables, s: Snapshots, x: Sighting, reason: string, level: LevelRow, ws: set<Wallet>)
    requires AgreeOn(t, s, ws) && x.wallet in ws
    ensures
      var (t', s') := AfterWrite(t, s, x, reason, level);
      && t' == AfterWrite(t, DIRECT, x, reason, level).0 && AgreeOn(t', s', ws)
  {
    if reason != "" {
      var advances := level.level == L0 && !level.hardRisk;
      DirectStaysDirect(t, x, reason, level);
      AdvanceAgrees(t, s, x.wallet, reason, x.now, ws);
      var (t1, s1) := if advances then WithAdvance(t, s, x.wallet, reason, x.now) else (t, s);
      LevelIsKnownAlike(t1, s1, x.wallet, ws);
      PromotionAgrees(t1, s1, x.wallet, reason, x.now, ws);
    }
  }

  lemma ConcludedAgrees(t: Tables, s: Snapshots, x: Sighting, level: LevelRow, recent: seq<Trade>, newTrades: nat,
                        ws: set<Wallet>)
    requires AgreeOn(t, s, ws) && x.wallet in ws
    ensures
      var seen := Concluded(t, s, x, level, recent, newTrades);
      var direct := Concluded(t, DIRECT, x, level, recent, newTrades);
      && seen.tables == direct.tables && seen.outcome == direct.outcome
      && direct.snapshots == DIRECT && AgreeOn(seen.tables, seen.snapshots, ws)
  {
    var reason := QualificationReason(x, KnownCandidate(t, s, x.wallet), recent);
    LevelIsKnownAlike(t, s, x.wallet, ws);
    CandidateAgrees(t, s, x, ws);
    DirectStaysDirect(t, x, reason, level);
    var (t1, s1) := WithCandidate(t, s, x);
    DirectStaysDirect(t1, x, reason, level);
    AfterWriteAgrees(t1, s1, x, reason, level, ws);
    var (t2, s2) := AfterWrite(t1, s1, x, reason, level);
    LevelIsKnownAlike(t2, s2, x.wallet, ws);
  }

  /** Working on agreeing snapshots writes the same tables, gives the same outcome, and keeps them agreeing. */
  lemma SnapshotModeRefinesDirectMode(t: Tables, s: Snapshots, x: Sighting, ws: set<Wallet>)
    requires AgreeOn(t, s, ws) && x.wallet in ws
    ensures
      var seen, direct := Sight(t, s, x), Sight(t, DIRECT, x);
      && seen.tables == direct.tables && seen.outcome == direct.outcome
      && direct.snapshots == DIRECT && AgreeOn(seen.tables, seen.snapshots, ws)
  {
    EnsuredAgree(t, s, x, ws);
    var (t1, s1) := Ensured(t, s, x);
    var level, before := t1.levels[x.wallet], KnownObservation(t1, s1, x.wallet);
    DirectStaysDirect(t, x, "", level);
    ObservationAgrees(t1, s1, x, ws);
    DirectStaysDirect(t1, x, "", level);
    var (t2, s2) := WithObservation(t1, s1, x);
    ConcludedAgrees(t2, s2, x, level, Reobserved(before, x).recent, NewTrades(before, x), ws);
  }

  datatype Batch = Batch(tables: Tables, snapshots: Snapshots, outcomes: seq<Outcome>)

  function SightAll(t: Tables, s: Snapshots, xs: seq<Sighting>): Batch {
    if xs == [] then Batch(t, s, [])
    else
      var before := SightAll(t, s, xs[..|xs| - 1]);
      var seen := Sight(before.tables, before.snapshots, xs[|xs| - 1]);
      Batch(seen.tables, seen.snapshots, before.outcomes + [seen.outcome])
  }

  /** A whole batch on prefetched snapshots is the batch without them. */
  lemma {:induction false} SnapshotBatchRefinesDirectBatch(t: Tables, s: Snapshots, xs: seq<Sighting>, ws: set<Wallet>)
    requires AgreeOn(t, s, ws) && forall x | x in xs :: x.wallet in ws
    ensures
      var seen, direct := SightAll(t, s, xs), SightAll(t, DIRECT, xs);
      && seen.tables == direct.tables && seen.outcomes == direct.outcomes
      && direct.snapshots == DIRECT && AgreeOn(seen.tables, seen.snapshots, ws)
  {
    if xs != [] {
      var init, x := xs[..|xs| - 1], xs[|xs| - 1];
      SnapshotBatchRefinesDirectBatch(t, s, init, ws);
      var before := SightAll(t, s, init);
      assert x in xs;
      SnapshotModeRefinesDirectMode(before.tables, before.snapshots, x, ws);
    }
  }

  lemma AdvanceKeepsLog(t: Tables, x: Sighting, reason: string)
    requires LogTellsLevels(t.levels, t.events)
    ensures
      var t' := WithAdvance(t, DIRECT, x.wallet, reason, x.now).0;
      LogTellsLevels(t'.levels, t'.events)
  {
    OpKeepsLog(t.levels, t.events, Advance(x.wallet, L1, reason, "", x.now));
  }

  lemma ConcludedKeepsLog(t: Tables, x: Sighting, level: LevelRow, recent: seq<Trade>, newTrades: nat)
    requires LogTellsLevels(t.levels, t.events)
    ensures
      var t' := Concluded(t, DIRECT, x, level, recent, newTrades).tables;
      LogTellsLevels(t'.levels, t'.events)
  {
    var reason := QualificationReason(x, KnownCandidate(t, DIRECT, x.wallet), recent);
    AdvanceKeepsLog(WithCandidate(t, DIRECT, x).0, x, reason);
  }

  /** A sighting changes levels only by touching and by single promotions, so the log still replays. */
  lemma SightKeepsLog(t: Tables, x: Sighting)
    requires LogTellsLevels(t.levels, t.events)
    ensures LogTellsLevels(Sight(t, DIRECT, x).tables.levels, Sight(t, DIRECT, x).tables.events)
  {
    OpKeepsLog(t.levels, t.events, Touch(x.wallet, "source_sighting", x.now));
    var t1 := Ensured(t, DIRECT, x).0;
    var before := KnownObservation(t1, DIRECT, x.wallet);
    DirectStaysDirect(t, x, "", t1.levels[x.wallet]);
    DirectStaysDirect(t1, x, "", t1.levels[x.wallet]);
    ConcludedKeepsLog(
      WithObservation(t1, DIRECT, x).0, x, t1.levels[x.wallet], Reobserved(before, x).recent, NewTrades(before, x));
  }

  // ---------- The tables in place ----------

  class Ingress {
    var levels: map<Wallet, LevelRow>
    var events: seq<LevelEvent>
    var candidates: map<Wallet, CandidateRow>
    var sourceEvents: seq<SourceEvent>
    var observed: map<Wallet, Observed>
    var candidateSnapshot: Option<map<Wallet, Candidate>>
    var levelSnapshot: Option<map<Wallet, LevelRow>>
    var observedSnapshot: Option<map<Wallet, Observed>>

    function Stored(): Tables
      reads this
    {
      Tables(levels, events, candidates, sourceEvents, observed)
    }

    function Held(): Snapshots
      reads this
    {
      Snapshots(candidateSnapshot, levelSnapshot, observedSnapshot)
    }

    method EnsureLevel(x: Sighting) returns (level: LevelRow)
      modifies this`levels, this`levelSnapshot
      ensures (Stored(), Held()) == Ensured(old(Stored()), old(Held()), x)
      ensures level == if levelSnapshot.Some? then levelSnapshot.value[x.wallet] else levels[x.wallet]
    {
      var w := x.wallet;
      if w in levels {
        levels := levels[w := levels[w].(lastSeen := Max(levels[w].lastSeen, x.now), updatedAt := x.now)];
      } else {
        levels := levels[w := LevelRow(L0, "source_sighting", "", false, x.now, x.now, x.now, x.now)];
      }
      if levelSnapshot.None? {
        return levels[w];
      }
      var snapshot := levelSnapshot.value;
      if w !in snapshot {
        level := LevelRow(L0, "source_sighting", "", false, x.now, x.now, x.now, x.now);
      } else {
        level := snapshot[w].(lastSeen := Max(snapshot[w].lastSeen, x.now), updatedAt := x.now);
      }
      levelSnapshot := Some(snapshot[w := level]);
    }

    method RecordObservation(x: Sighting) returns (row: Observed, newTrades: nat)
      modifies this`observed, this`observedSnapshot
      ensures (Stored(), Held()) == WithObservation(old(Stored()), old(Held()), x)
      ensures row == Reobserved(old(KnownObservation(Stored(), Held(), x.wallet)), x)
      ensures newTrades == NewTrades(old(KnownObservation(Stored(), Held(), x.wallet)), x)
    {
      var w := x.wallet;
      var existing := if observedSnapshot.Some? then Lookup(observedSnapshot.value, w) else Lookup(observed, w);
      row := Reobserved(existing, x);
      newTrades := NewTrades(existing, x);
      if w in observed {
        var stored := observed[w];
        observed := observed[w := row.(promotedAt := stored.promotedAt, promotionReason := stored.promotionReason,
                                       firstSeen := stored.firstSeen)];
      } else {
        observed := observed[w := row];
      }
      if observedSnapshot.Some? {
        observedSnapshot := Some(observedSnapshot.value[w := row]);
      }
    }

    method WriteCandidate(x: Sighting, preloaded: Option<Candidate>)
      requires preloaded == KnownCandidate(Stored(), Held(), x.wallet)
      modifies this`candidates, this`sourceEvents, this`candidateSnapshot
      ensures (Stored(), Held()) == WithCandidate(old(Stored()), old(Held()), x)
    {
      var w, texts, firstSeen := x.wallet, x.candidate.texts, x.now;
      if preloaded.Some? {
        texts := MergedTexts(preloaded.value.texts, x.candidate.texts);
      }
      if w in candidates {
        firstSeen := candidates[w].firstSeen;
      }
      candidates := candidates[w := CandidateRow(texts, x.candidate.status, firstSeen, x.now)];
      sourceEvents := sourceEvents + [SourceEvent(w, x.candidate, x.now)];
      if candidateSnapshot.Some? {
        candidateSnapshot := Some(candidateSnapshot.value[w := MergedSnapshot(preloaded, x.candidate)]);
      }
    }

    method AdvanceLevel(w: Wallet, to: Level, reason: string, policy: string, now: int) returns (result: LevelResult)
      modifies this`levels, this`events, this`levelSnapshot
      ensures Leveled(levels, events, levelSnapshot, result)
              == Advanced(old(levels), old(events), old(levelSnapshot), w, to, reason, policy, now)
    {
      var inSnapshot := levelSnapshot.Some? && w in levelSnapshot.value;
      if !inSnapshot && w !in levels {
        return UnknownWallet;
      }
      var current := if inSnapshot then levelSnapshot.value[w] else levels[w];
      if Rank(to) < Rank(current.level) {
        return Downgrade;
      }
      if Rank(to) > Rank(current.level) + 1 {
        return SkipsLevels;
      }
      if to == current.level || current.hardRisk {
        return Decided(current.level, if current.hardRisk then "hard_risk_block" else "unchanged");
      }
      if current.level == L0 {
        if w !in levels {
          return UnknownWallet;
        }
        if levels[w].level != L0 || levels[w].hardRisk {
          if levelSnapshot.Some? {
            levelSnapshot := Some(levelSnapshot.value[w := levels[w]]);
          }
          return Decided(levels[w].level, if levels[w].hardRisk then "hard_risk_block" else "unchanged");
        }
      }
      if w in levels {
        levels := levels[w := levels[w].(
          level := to, reason := reason, policy := policy, levelUpdatedAt := now, updatedAt := now)];
      }
      if levelSnapshot.Some? {
        levelSnapshot := Some(levelSnapshot.value[
          w := current.(level := to, reason := reason, policy := policy, levelUpdatedAt := now, updatedAt := now)]);
      }
      events := events + [LevelEvent(w, current.level, to, reason, policy, now)];
      result := Decided(to, reason);
    }

    method MarkPromoted(w: Wallet, reason: string, now: int)
      modifies this`observed, this`observedSnapshot
      ensures (Stored(), Held()) == WithPromotion(old(Stored()), old(Held()), w, reason, now)
    {
      if w in observed {
        observed := observed[w := MarkedPromoted(observed[w], reason, now)];
      }
      if observedSnapshot.Some? && w in observedSnapshot.value {
        observedSnapshot := Some(observedSnapshot.value[w := MarkedPromoted(observedSnapshot.value[w], reason, now)]);
      }
    }

    method FinishWrite(x: Sighting, reason: string, level: LevelRow)
      modifies this`levels, this`events, this`levelSnapshot, this`observed, this`observedSnapshot
      ensures (Stored(), Held()) == AfterWrite(old(Stored()), old(Held()), x, reason, level)
    {
      if reason == "" {
        return;
      }
      if level.level == L0 && !level.hardRisk {
        var _ := AdvanceLevel(x.wallet, L1, reason, "", x.now);
      }
      var current := KnownLevel(Stored(), Held(), x.wallet);
      if current.Some? && current.value.level != L0 {
        MarkPromoted(x.wallet, reason, x.now);
      }
    }

    /** Record one sighting; at most the step from L0 to L1 is taken. */
    method RecordSighting(x: Sighting) returns (outcome: Outcome)
      modifies this
      ensures Seen(Stored(), Held(), outcome) == Sight(old(Stored()), old(Held()), x)
    {
      var level := EnsureLevel(x);
      var row, newTrades := RecordObservation(x);
      var preloaded := KnownCandidate(Stored(), Held(), x.wallet);
      var reason := QualificationReason(x, preloaded, row.recent);
      if (preloaded.Some? && x.refreshExisting) || (preloaded.None? && x.allowL1 && reason != "") {
        WriteCandidate(x, preloaded);
        FinishWrite(x, reason, level);
        var left := LevelOf(Stored(), Held(), x.wallet);
        outcome := Outcome(left, reason, true, reason != "" && left != L0 && preloaded.None?, newTrades);
      } else {
        outcome := Outcome(LevelOf(Stored(), Held(), x.wallet), reason, false, false, newTrades);
      }
    }
  }
}
