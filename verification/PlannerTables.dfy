/** The planner's tables and the functions that claim, patch and rebuild them. Each function is tied,
    wallet by wallet, to the protocol steps of `PlannerCache`. */
module PlannerTables {
  import opened Terms
  import opened PlannerRow
  import opened PlannerCache

  datatype Dirty = Dirty(generation: nat, at: int)
  datatype QueuedSighting = QueuedSighting(lastSeen: int, at: int, generation: nat)

  datatype RefreshClaim = RefreshClaim(wallet: Wallet, generation: Option<nat>)

  datatype SightingClaim = SightingClaim(
    wallet: Wallet, lastSeen: int, generation: nat,
    level: Level, depth: Depth, summaryUpdatedAt: int, next: int)

  datatype SightingUpdate = SightingUpdate(lastSeen: int, next: int, wallet: Wallet)

  /** `ORDER BY key ASC, wallet ASC`. */
  predicate Before(keys: map<Wallet, int>, v: Wallet, w: Wallet)
    requires v in keys && w in keys
  {
    keys[v] < keys[w] || (keys[v] == keys[w] && v < w)
  }

  lemma FirstExists(keys: map<Wallet, int>, s: set<Wallet>) returns (first: Wallet)
    requires s != {} && s <= keys.Keys
    ensures first in s && forall w | w in s && w != first :: Before(keys, first, w)
  {
    first :| first in s;
    var rest := s - {first};
    assert forall w | w in s :: w == first || w in rest;
    if rest != {} {
      var other := FirstExists(keys, rest);
      if Before(keys, other, first) {
        first := other;
      }
    }
  }

  /** The first wallets in order. */
  ghost predicate IsSelection(keys: map<Wallet, int>, ws: seq<Wallet>) {
    && (forall i | 0 <= i < |ws| :: ws[i] in keys)
    && (forall i, j | 0 <= i < j < |ws| :: Before(keys, ws[i], ws[j]))
    && (forall v, w | v in ws && w in keys && w !in ws :: Before(keys, v, w))
  }

  /** `SELECT wallet ... ORDER BY key, wallet LIMIT limit`. */
  method SelectFirst(keys: map<Wallet, int>, limit: nat) returns (ws: seq<Wallet>)
    ensures |ws| == Min(limit, |keys|) && IsSelection(keys, ws)
  {
    ws := [];
    var rest := keys.Keys;
    while |ws| < limit && rest != {}
      invariant |ws| <= limit && |ws| + |rest| == |keys.Keys|
      invariant forall w :: w in keys <==> w in ws || w in rest
      invariant forall i, j | 0 <= i < j < |ws| :: Before(keys, ws[i], ws[j])
      invariant forall v, w | v in ws && w in rest :: Before(keys, v, w)
      decreases rest
    {
      ghost var earliest := FirstExists(keys, rest);
      var first :| first in rest && forall w | w in rest && w != first :: Before(keys, first, w);
      ws := ws + [first];
      rest := rest - {first};
    }
    assert |keys.Keys| == |keys|;
  }

  lemma AllSelected(keys: map<Wallet, int>, ws: seq<Wallet>)
    requires |ws| == |keys| && IsSelection(keys, ws)
    ensures forall w | w in keys :: w in ws
  {
    DistinctCount(ws);
    assert |keys.Keys| == |keys|;
    forall w | w in keys ensures w in ws {
      if w !in ws {
        forall x | x in SetOf(ws) ensures x in keys.Keys - {w} {
          InSetOf(ws, x);
        }
        SubsetCount(SetOf(ws), keys.Keys - {w});
      }
    }
  }

  // ---------- The tables as one value ----------

  datatype View = View(
    levels: map<Wallet, LevelRow>,
    evidence: map<Wallet, Evidence>,
    dirty: map<Wallet, Dirty>,
    sightings: map<Wallet, QueuedSighting>,
    state: map<Wallet, StateRow>)

  function EvidenceOf(v: View, w: Wallet): Evidence {
    if w in v.evidence then v.evidence[w] else NO_EVIDENCE
  }

  function LevelOf(v: View, w: Wallet): Option<LevelRow> {
    if w in v.levels then Some(v.levels[w]) else None
  }

  /** One wallet's rows in every table, as a protocol cell. */
  function CellOf(v: View, w: Wallet, flight: Flight): Cell {
    Cell(
      LevelOf(v, w),
      EvidenceOf(v, w),
      if w in v.dirty then Some(v.dirty[w].generation) else None,
      if w in v.sightings then Some(Sighting(v.sightings[w].lastSeen, v.sightings[w].generation)) else None,
      if w in v.state then Some(v.state[w]) else None,
      flight)
  }

  predicate IsDue(v: View, w: Wallet, now: int) {
    w in v.state && 0 < v.state[w].nextRefreshAt <= now
  }

  predicate IsMissing(v: View, w: Wallet) {
    PlannedRow(LevelOf(v, w)) && w !in v.state
  }

  /** `wallet_history_planner_bootstrap_complete` and `wallet_history_planner_dirty_backlog_empty`. */
  ghost predicate IsReady(v: View) {
    v.dirty == map[] && forall w :: !IsMissing(v, w)
  }

  lemma ReadyWalletByWallet(v: View)
    ensures IsReady(v) <==> forall w :: Ready(CellOf(v, w, Idle))
  {
    if forall w :: Ready(CellOf(v, w, Idle)) {
      forall w ensures w !in v.dirty && !IsMissing(v, w) {
        assert Ready(CellOf(v, w, Idle));
      }
      assert v.dirty == map[];
    }
    if IsReady(v) {
      forall w ensures Ready(CellOf(v, w, Idle)) {
        assert !IsMissing(v, w);
      }
    }
  }

  ghost predicate DistinctWallets(claims: seq<RefreshClaim>) {
    forall i, j | 0 <= i < j < |claims| :: claims[i].wallet != claims[j].wallet
  }

  predicate IsClaimed(claims: seq<RefreshClaim>, w: Wallet) {
    exists c :: c in claims && c.wallet == w
  }

  /** What the query that returned the claim has seen; a writer may have come since the query for dirty rows. */
  predicate Claimable(v: View, c: RefreshClaim, now: int) {
    if c.generation.Some? then c.wallet in v.dirty && v.dirty[c.wallet].generation == c.generation.value
    else IsDue(v, c.wallet, now) || IsMissing(v, c.wallet)
  }

  /** The same when nobody writes between the queries: only wallets that are not dirty come without a generation. */
  predicate Justified(v: View, c: RefreshClaim, now: int) {
    Claimable(v, c, now) && (c.generation.None? ==> c.wallet !in v.dirty)
  }

  lemma ClaimableIsEnabled(v: View, c: RefreshClaim, now: int)
    requires Claimable(v, c, now) && PNL_INCOMPLETE_REFRESH_SECONDS <= now
    ensures Enabled(CellOf(v, c.wallet, Idle), ClaimRefresh(c.generation, now))
  {
  }

  function DirtyKeys(v: View): map<Wallet, int> {
    map w | w in v.dirty :: v.dirty[w].at
  }

  lemma DirtyKeysCount(v: View)
    ensures |DirtyKeys(v)| == |v.dirty|
  {
    assert DirtyKeys(v).Keys == v.dirty.Keys;
    assert |DirtyKeys(v).Keys| == |DirtyKeys(v)| && |v.dirty.Keys| == |v.dirty|;
  }

  function DueKeys(v: View, now: int): map<Wallet, int> {
    map w | w in v.state && 0 < v.state[w].nextRefreshAt <= now :: v.state[w].nextRefreshAt
  }

  function MissingKeys(v: View): map<Wallet, int> {
    map w | w in v.levels && Planned(v.levels[w].level) && w !in v.state :: Rank(v.levels[w].level)
  }

  /** These claims come in the order of the keys, and every wallet left out comes after them. */
  ghost predicate TakesFirst(keys: map<Wallet, int>, claims: seq<RefreshClaim>, from: nat, to: nat) {
    && from <= to <= |claims|
    && (forall i | from <= i < to :: claims[i].wallet in keys)
    && (forall i, j | from <= i < j < to :: Before(keys, claims[i].wallet, claims[j].wallet))
    && (forall i, w | from <= i < to && w in keys && !IsClaimed(claims, w) :: Before(keys, claims[i].wallet, w))
  }

  /** The first `room` wallets of the list are claimed, for this reason or an earlier one. */
  ghost predicate Served(keys: map<Wallet, int>, claims: seq<RefreshClaim>, room: nat) {
    exists ws :: IsSelection(keys, ws) && |ws| == Min(room, |keys|) && forall w | w in ws :: IsClaimed(claims, w)
  }

  lemma StaysServed(keys: map<Wallet, int>, claims: seq<RefreshClaim>, all: seq<RefreshClaim>, room: nat)
    requires Served(keys, claims, room) && claims <= all
    ensures Served(keys, all, room)
  {
    var ws :| IsSelection(keys, ws) && |ws| == Min(room, |keys|) && forall w | w in ws :: IsClaimed(claims, w);
    forall w | w in ws ensures IsClaimed(all, w) {
      StaysClaimed(claims, all, w);
    }
  }

  /** The batch to rebuild: dirty wallets by the time they were marked, then due ones by due time, then those
      without a row by level. Each list is cut at the room left when it is read, and wallets claimed before count. */
  ghost predicate IsRefreshBatch(v: View, now: int, limit: int, claims: seq<RefreshClaim>, dirties: nat, dues: nat) {
    && dirties == Min(Max(0, limit), |v.dirty|) && dirties <= dues <= |claims| <= Max(0, limit)
    && DistinctWallets(claims)
    && (forall c | c in claims :: Justified(v, c, now))
    && (forall i | 0 <= i < |claims| :: claims[i].generation.Some? <==> i < dirties)
    && TakesFirst(DirtyKeys(v), claims, 0, dirties)
    && TakesFirst(DueKeys(v, now), claims, dirties, dues)
    && TakesFirst(MissingKeys(v), claims, dues, |claims|)
    && (|claims| < limit ==> forall w | w in v.dirty :: RefreshClaim(w, Some(v.dirty[w].generation)) in claims)
    && (dirties < limit ==> Served(DueKeys(v, now), claims, limit - dirties))
    && (dues < limit ==> Served(MissingKeys(v), claims, limit - dues))
    && (|claims| < limit && v.dirty == map[] ==>
          forall w | IsDue(v, w, now) || IsMissing(v, w) :: IsClaimed(claims, w))
  }

  /** The dirty claims by themselves, as the first query returns them. */
  ghost predicate DirtyClaimed(v: View, claims: seq<RefreshClaim>) {
    && DistinctWallets(claims)
    && (forall c | c in claims :: c.wallet in v.dirty && c.generation == Some(v.dirty[c.wallet].generation))
    && TakesFirst(DirtyKeys(v), claims, 0, |claims|)
  }

  lemma ClaimsFollowSelection(v: View, oldest: seq<Wallet>, claims: seq<RefreshClaim>)
    requires IsSelection(DirtyKeys(v), oldest) && |claims| == |oldest|
    requires forall k | 0 <= k < |oldest| :: claims[k] == RefreshClaim(oldest[k], Some(v.dirty[oldest[k]].generation))
    ensures DirtyClaimed(v, claims)
    ensures forall w | w in oldest :: RefreshClaim(w, Some(v.dirty[w].generation)) in claims
  {
    forall w | w in oldest ensures RefreshClaim(w, Some(v.dirty[w].generation)) in claims {
      var k :| 0 <= k < |oldest| && oldest[k] == w;
      assert claims[k] in claims;
    }
    forall w | !IsClaimed(claims, w) ensures w !in oldest {
    }
  }

  /** What was added comes from the first `i` wallets of the selection, in their order. */
  ghost predicate AddedInOrder(keys: map<Wallet, int>, claims: seq<RefreshClaim>, all: seq<RefreshClaim>,
                               ws: seq<Wallet>, i: nat) {
    && i <= |ws| && claims <= all
    && (forall k | |claims| <= k < |all| :: all[k].generation == None && all[k].wallet in ws[..i])
    && (forall j, k | |claims| <= j < k < |all| ::
          all[j].wallet in keys && all[k].wallet in keys && Before(keys, all[j].wallet, all[k].wallet))
  }

  /** The first `i` wallets of the selection have been added, those already claimed skipped. */
  ghost predicate AddedOnce(keys: map<Wallet, int>, claims: seq<RefreshClaim>, all: seq<RefreshClaim>,
                            ws: seq<Wallet>, i: nat) {
    && i <= |ws| && |all| <= |claims| + i && DistinctWallets(all)
    && (forall k | 0 <= k < i :: IsClaimed(all, ws[k]))
    && ((forall c | c in claims :: c.wallet !in keys) ==> |all| == |claims| + i)
  }

  lemma OneMoreInOrder(keys: map<Wallet, int>, claims: seq<RefreshClaim>, all: seq<RefreshClaim>, ws: seq<Wallet>,
                       i: nat)
    requires IsSelection(keys, ws) && i < |ws| && AddedInOrder(keys, claims, all, ws, i)
    ensures AddedInOrder(keys, claims, all + [RefreshClaim(ws[i], None)], ws, i + 1)
  {
    assert ws[..i + 1] == ws[..i] + [ws[i]];
    forall k | |claims| <= k < |all| ensures all[k].wallet in keys && Before(keys, all[k].wallet, ws[i]) {
      AddedComesBefore(keys, ws, i, all[k].wallet);
    }
  }

  lemma OneMoreOnce(keys: map<Wallet, int>, claims: seq<RefreshClaim>, all: seq<RefreshClaim>, ws: seq<Wallet>, i: nat)
    requires i < |ws| && AddedOnce(keys, claims, all, ws, i) && !IsClaimed(all, ws[i])
    ensures AddedOnce(keys, claims, all + [RefreshClaim(ws[i], None)], ws, i + 1)
  {
    var more := all + [RefreshClaim(ws[i], None)];
    forall k | 0 <= k < i ensures IsClaimed(more, ws[k]) {
      StaysClaimed(all, more, ws[k]);
    }
    assert more[|all|] in more && IsClaimed(more, ws[i]);
    forall k | 0 <= k < |all| ensures more[k].wallet != ws[i] {
      assert all[k] in all;
    }
  }

  lemma StaysClaimed(all: seq<RefreshClaim>, more: seq<RefreshClaim>, w: Wallet)
    requires IsClaimed(all, w) && all <= more
    ensures IsClaimed(more, w)
  {
    var k :| 0 <= k < |all| && all[k].wallet == w;
    assert more[k] in more;
  }

  lemma AddedComesBefore(keys: map<Wallet, int>, ws: seq<Wallet>, i: nat, w: Wallet)
    requires IsSelection(keys, ws) && i < |ws| && w in ws[..i]
    ensures w in keys && Before(keys, w, ws[i])
  {
    var h :| 0 <= h < i && ws[h] == w;
  }

  lemma SeenIsClaimed(keys: map<Wallet, int>, claims: seq<RefreshClaim>, all: seq<RefreshClaim>, ws: seq<Wallet>,
                      i: nat)
    requires IsSelection(keys, ws) && i < |ws| && IsClaimed(all, ws[i])
    requires AddedInOrder(keys, claims, all, ws, i)
    ensures exists c :: c in claims && c.wallet == ws[i]
    ensures AddedInOrder(keys, claims, all, ws, i + 1)
  {
    assert ws[..i + 1] == ws[..i] + [ws[i]];
    var k :| 0 <= k < |all| && all[k].wallet == ws[i];
    assert forall h | 0 <= h < i :: Before(keys, ws[h], ws[i]);
    assert k < |claims|;
    assert claims[k] in claims;
  }

  lemma SelectionIsTaken(keys: map<Wallet, int>, claims: seq<RefreshClaim>, all: seq<RefreshClaim>, ws: seq<Wallet>)
    requires IsSelection(keys, ws)
    requires AddedInOrder(keys, claims, all, ws, |ws|) && AddedOnce(keys, claims, all, ws, |ws|)
    ensures TakesFirst(keys, all, |claims|, |all|)
  {
    assert ws[..|ws|] == ws;
    forall i, w | |claims| <= i < |all| && w in keys && !IsClaimed(all, w)
      ensures all[i].wallet in keys && Before(keys, all[i].wallet, w)
    {
      assert w !in ws;
    }
  }

  lemma BatchIsJustified(v: View, now: int, dirtyClaims: seq<RefreshClaim>, dues: nat, claims: seq<RefreshClaim>)
    requires DirtyClaimed(v, dirtyClaims) && dirtyClaims <= claims && DistinctWallets(claims)
    requires |dirtyClaims| < |claims| ==>
               forall w | w in v.dirty :: RefreshClaim(w, Some(v.dirty[w].generation)) in dirtyClaims
    requires forall i | |dirtyClaims| <= i < |claims| :: claims[i].generation == None
    requires TakesFirst(DueKeys(v, now), claims, |dirtyClaims|, dues)
    requires TakesFirst(MissingKeys(v), claims, dues, |claims|)
    ensures forall c | c in claims :: Justified(v, c, now)
  {
    assert forall i | 0 <= i < |dirtyClaims| :: claims[i] == dirtyClaims[i];
    if |dirtyClaims| < |claims| {
      forall w | w in v.dirty ensures exists k :: 0 <= k < |dirtyClaims| && claims[k].wallet == w {
        var k :| 0 <= k < |dirtyClaims| && dirtyClaims[k] == RefreshClaim(w, Some(v.dirty[w].generation));
        assert claims[k].wallet == w;
      }
    }
  }

  /** The wallets of the list that were not claimed yet have been added, as far as the first `room` of it go. */
  ghost predicate AddsUnseen(keys: map<Wallet, int>, claims: seq<RefreshClaim>, all: seq<RefreshClaim>, room: nat) {
    && claims <= all && |all| <= |claims| + room && DistinctWallets(all)
    && (forall i | |claims| <= i < |all| :: all[i].generation == None)
    && TakesFirst(keys, all, |claims|, |all|)
    && (0 < room ==> Served(keys, all, room))
    && (|all| < |claims| + room && (forall c | c in claims :: c.wallet !in keys) ==>
          forall w | w in keys :: IsClaimed(all, w))
  }

  lemma NoRoomAddsNothing(keys: map<Wallet, int>, claims: seq<RefreshClaim>)
    requires DistinctWallets(claims)
    ensures AddsUnseen(keys, claims, claims, 0)
  {
  }

  /** Without dirty wallets, room left at the end means that every list went in whole. */
  lemma RoomMeansAll(v: View, now: int, limit: nat, dueClaims: seq<RefreshClaim>, claims: seq<RefreshClaim>, w: Wallet)
    requires AddsUnseen(DueKeys(v, now), [], dueClaims, limit) && |dueClaims| <= limit
    requires AddsUnseen(MissingKeys(v), dueClaims, claims, limit - |dueClaims|) && |claims| < limit
    requires IsDue(v, w, now) || IsMissing(v, w)
    ensures IsClaimed(claims, w)
  {
    if IsDue(v, w, now) {
      assert IsClaimed(dueClaims, w);
      StaysClaimed(dueClaims, claims, w);
    } else {
      assert forall i | 0 <= i < |dueClaims| :: dueClaims[i].wallet !in MissingKeys(v);
    }
  }

  lemma ListsAreTaken(v: View, now: int, limit: nat, dirtyClaims: seq<RefreshClaim>, dueClaims: seq<RefreshClaim>,
                      claims: seq<RefreshClaim>)
    requires DirtyClaimed(v, dirtyClaims) && |dirtyClaims| <= |dueClaims| <= limit
    requires AddsUnseen(DueKeys(v, now), dirtyClaims, dueClaims, limit - |dirtyClaims|)
    requires AddsUnseen(MissingKeys(v), dueClaims, claims, limit - |dueClaims|)
    ensures TakesFirst(DirtyKeys(v), claims, 0, |dirtyClaims|)
    ensures TakesFirst(DueKeys(v, now), claims, |dirtyClaims|, |dueClaims|)
    ensures TakesFirst(MissingKeys(v), claims, |dueClaims|, |claims|)
    ensures |dirtyClaims| < limit ==> Served(DueKeys(v, now), claims, limit - |dirtyClaims|)
    ensures |dueClaims| < limit ==> Served(MissingKeys(v), claims, limit - |dueClaims|)
    ensures forall i | |dirtyClaims| <= i < |claims| :: claims[i].generation == None
  {
    EarlierClaimsStay(DirtyKeys(v), dirtyClaims, claims, 0, |dirtyClaims|);
    EarlierClaimsStay(DueKeys(v, now), dueClaims, claims, |dirtyClaims|, |dueClaims|);
    if |dirtyClaims| < limit {
      StaysServed(DueKeys(v, now), dueClaims, claims, limit - |dirtyClaims|);
    }
    assert forall i | 0 <= i < |dueClaims| :: claims[i] == dueClaims[i];
  }

  lemma DirtyOnesFirst(v: View, limit: nat, dirtyClaims: seq<RefreshClaim>, claims: seq<RefreshClaim>)
    requires DirtyClaimed(v, dirtyClaims) && dirtyClaims <= claims
    requires forall i | |dirtyClaims| <= i < |claims| :: claims[i].generation == None
    ensures forall i | 0 <= i < |claims| :: claims[i].generation.Some? <==> i < |dirtyClaims|
    ensures forall c | c in dirtyClaims :: c in claims
  {
    assert forall i | 0 <= i < |dirtyClaims| :: claims[i] == dirtyClaims[i] && dirtyClaims[i] in dirtyClaims;
  }

  lemma SomethingDirty(v: View, dirtyClaims: seq<RefreshClaim>)
    requires DirtyClaimed(v, dirtyClaims) && dirtyClaims != []
    ensures v.dirty != map[]
  {
    assert dirtyClaims[0] in dirtyClaims && dirtyClaims[0].wallet in v.dirty;
  }

  lemma BatchIsRight(v: View, now: int, limit: nat, dirtyClaims: seq<RefreshClaim>, dueClaims: seq<RefreshClaim>,
                     claims: seq<RefreshClaim>)
    requires DirtyClaimed(v, dirtyClaims) && |dirtyClaims| == Min(limit, |v.dirty|) <= |dueClaims| <= limit
    requires |dirtyClaims| < limit ==>
               forall w | w in v.dirty :: RefreshClaim(w, Some(v.dirty[w].generation)) in dirtyClaims
    requires AddsUnseen(DueKeys(v, now), dirtyClaims, dueClaims, limit - |dirtyClaims|)
    requires AddsUnseen(MissingKeys(v), dueClaims, claims, limit - |dueClaims|)
    ensures IsRefreshBatch(v, now, limit, claims, |dirtyClaims|, |dueClaims|)
  {
    ListsAreTaken(v, now, limit, dirtyClaims, dueClaims, claims);
    BatchIsJustified(v, now, dirtyClaims, |dueClaims|, claims);
    DirtyOnesFirst(v, limit, dirtyClaims, claims);
    if dirtyClaims != [] {
      SomethingDirty(v, dirtyClaims);
    } else if |claims| < limit {
      forall w | IsDue(v, w, now) || IsMissing(v, w) ensures IsClaimed(claims, w) {
        RoomMeansAll(v, now, limit, dueClaims, claims, w);
      }
    }
  }

  /** A round with room that claims nothing leaves no work behind. */
  lemma EmptyBatchMeansReady(v: View, now: int, limit: int, dirties: nat, dues: nat)
    requires IsRefreshBatch(v, now, limit, [], dirties, dues) && limit > 0
    ensures IsReady(v) && forall w :: !IsDue(v, w, now)
  {
    assert forall w :: w !in v.dirty;
    assert v.dirty == map[];
    forall w ensures !IsDue(v, w, now) && !IsMissing(v, w) {
      assert !IsClaimed([], w);
    }
  }

  lemma EarlierClaimsStay(keys: map<Wallet, int>, claims: seq<RefreshClaim>, all: seq<RefreshClaim>, from: nat, to: nat)
    requires TakesFirst(keys, claims, from, to) && claims <= all
    ensures TakesFirst(keys, all, from, to)
  {
    forall i | 0 <= i < |claims| ensures all[i] == claims[i] {
    }
    forall w | !IsClaimed(all, w) ensures !IsClaimed(claims, w) {
      assert forall c | c in claims :: c in all;
    }
  }

  /** The claimed wallets' rows replaced, and exactly the observed generations cleared. */
  ghost predicate Replaced(v: View, v': View, claims: seq<RefreshClaim>, rows: map<Wallet, StateRow>) {
    && v' == v.(state := v'.state, dirty := v'.dirty)
    && (forall w :: w in v'.state <==> w in rows || (w in v.state && !IsClaimed(claims, w)))
    && (forall w | w in v'.state :: v'.state[w] == if w in rows then rows[w] else v.state[w])
    && (forall w :: w in v'.dirty <==> w in v.dirty && RefreshClaim(w, Some(v.dirty[w].generation)) !in claims)
    && (forall w | w in v'.dirty :: v'.dirty[w] == v.dirty[w])
  }

  lemma UntouchedByReplace(v: View, v': View, claims: seq<RefreshClaim>, rows: map<Wallet, StateRow>, w: Wallet)
    requires Replaced(v, v', claims, rows) && !IsClaimed(claims, w) && w !in rows
    ensures CellOf(v', w, Idle) == CellOf(v, w, Idle)
  {
    if w in v.dirty && RefreshClaim(w, Some(v.dirty[w].generation)) in claims {
      assert IsClaimed(claims, w);
    }
  }

  lemma ClaimedByReplace(
    v: View, v': View, claims: seq<RefreshClaim>, rows: map<Wallet, StateRow>, w: Wallet, generation: Option<nat>)
    requires Replaced(v, v', claims, rows) && DistinctWallets(claims) && RefreshClaim(w, generation) in claims
    ensures Lookup(v'.state, w) == Lookup(rows, w)
    ensures w in v'.dirty <==> w in v.dirty && generation != Some(v.dirty[w].generation)
    ensures w in v'.dirty ==> v'.dirty[w] == v.dirty[w]
  {
    assert IsClaimed(claims, w);
    assert forall g :: RefreshClaim(w, g) in claims ==> g == generation;
  }

  /** Whatever writers have done since the claim, replacing the batch is the protocol's replace step for
      each claimed wallet, and nothing for the others. */
  lemma ReplacedWalletByWallet(
    v: View, v': View, claims: seq<RefreshClaim>, rows: map<Wallet, StateRow>, w: Wallet, f: Flight, policy: Policy)
    requires Replaced(v, v', claims, rows) && DistinctWallets(claims)
    requires AllRead(f) && (w in rows <==> RebuiltRow(f, policy).Some?)
    requires w in rows ==> rows[w] == RebuiltRow(f, policy).value
    ensures RefreshClaim(w, f.generation) in claims ==> CellOf(v', w, Idle) == ReplaceRow(CellOf(v, w, f), policy)
    ensures !IsClaimed(claims, w) && w !in rows ==> CellOf(v', w, Idle) == CellOf(v, w, Idle)
  {
    if RefreshClaim(w, f.generation) in claims {
      ClaimedByReplace(v, v', claims, rows, w, f.generation);
    } else if !IsClaimed(claims, w) && w !in rows {
      UntouchedByReplace(v, v', claims, rows, w);
    }
  }

  lemma RoundWalletByWallet(v: View, now: int, limit: int, claims: seq<RefreshClaim>, dirties: nat, dues: nat,
                            rows: map<Wallet, StateRow>, policy: Policy, v': View)
    requires IsRefreshBatch(v, now, limit, claims, dirties, dues) && Replaced(v, v', claims, rows)
    requires IsRowsOf(v, claims, now, policy, rows)
    ensures limit > 0 && claims == [] ==> IsReady(v') && forall w :: !IsDue(v', w, now)
    ensures forall c | c in claims :: c.wallet !in v'.dirty
    ensures forall w | IsClaimed(claims, w) ::
              if PlannedRow(LevelOf(v', w))
              then w in v'.state && v'.state[w] == StateRowAt(v'.levels[w], EvidenceOf(v', w), policy, now)
              else w !in v'.state
    ensures forall w | !IsClaimed(claims, w) ::
              (w in v'.dirty <==> w in v.dirty) && (w in v'.state <==> w in v.state)
              && (w in v'.dirty ==> v'.dirty[w] == v.dirty[w]) && (w in v'.state ==> v'.state[w] == v.state[w])
    ensures |claims| < limit ==> v'.dirty == map[]
  {
    forall c | c in claims ensures c.wallet !in v'.dirty {
      ClaimedInRound(v, now, limit, claims, dirties, dues, rows, policy, v', c);
    }
    forall w | IsClaimed(claims, w)
      ensures if PlannedRow(LevelOf(v', w))
              then w in v'.state && v'.state[w] == StateRowAt(v'.levels[w], EvidenceOf(v', w), policy, now)
              else w !in v'.state
    {
      var c :| c in claims && c.wallet == w;
      ClaimedInRound(v, now, limit, claims, dirties, dues, rows, policy, v', c);
    }
    forall w | !IsClaimed(claims, w)
      ensures (w in v'.dirty <==> w in v.dirty) && (w in v'.state <==> w in v.state)
      ensures (w in v'.dirty ==> v'.dirty[w] == v.dirty[w]) && (w in v'.state ==> v'.state[w] == v.state[w])
    {
      UnclaimedInRound(v, claims, now, policy, rows, v', w);
    }
    if |claims| < limit {
      NothingDirtyAfterRound(v, now, limit, claims, dirties, dues, rows, v');
    }
    if limit > 0 && claims == [] {
      EmptyRound(v, now, limit, dirties, dues, rows, policy, v');
    }
  }

  lemma ClaimedInRound(v: View, now: int, limit: int, claims: seq<RefreshClaim>, dirties: nat, dues: nat,
                       rows: map<Wallet, StateRow>, policy: Policy, v': View, c: RefreshClaim)
    requires IsRefreshBatch(v, now, limit, claims, dirties, dues) && Replaced(v, v', claims, rows) && c in claims
    requires IsRowsOf(v, claims, now, policy, rows)
    ensures c.wallet !in v'.dirty
    ensures
      var w := c.wallet;
      if PlannedRow(LevelOf(v', w))
      then w in v'.state && v'.state[w] == StateRowAt(v'.levels[w], EvidenceOf(v', w), policy, now)
      else w !in v'.state
  {
    assert Justified(v, c, now);
    ClaimedByReplace(v, v', claims, rows, c.wallet, c.generation);
    assert IsClaimed(claims, c.wallet);
  }

  lemma UnclaimedInRound(v: View, claims: seq<RefreshClaim>, now: int, policy: Policy, rows: map<Wallet, StateRow>,
                         v': View, w: Wallet)
    requires Replaced(v, v', claims, rows) && !IsClaimed(claims, w) && IsRowsOf(v, claims, now, policy, rows)
    ensures (w in v'.dirty <==> w in v.dirty) && (w in v'.state <==> w in v.state)
    ensures (w in v'.dirty ==> v'.dirty[w] == v.dirty[w]) && (w in v'.state ==> v'.state[w] == v.state[w])
  {
    NotClaimed(claims, w);
  }

  lemma NothingDirtyAfterRound(v: View, now: int, limit: int, claims: seq<RefreshClaim>, dirties: nat, dues: nat,
                               rows: map<Wallet, StateRow>, v': View)
    requires IsRefreshBatch(v, now, limit, claims, dirties, dues) && Replaced(v, v', claims, rows)
    requires |claims| < limit
    ensures v'.dirty == map[]
  {
    assert forall w :: w !in v'.dirty;
  }

  lemma EmptyRound(v: View, now: int, limit: int, dirties: nat, dues: nat, rows: map<Wallet, StateRow>,
                   policy: Policy, v': View)
    requires IsRefreshBatch(v, now, limit, [], dirties, dues) && Replaced(v, v', [], rows) && limit > 0
    requires IsRowsOf(v, [], now, policy, rows)
    ensures IsReady(v') && forall w :: !IsDue(v', w, now)
  {
    EmptyBatchMeansReady(v, now, limit, dirties, dues);
    assert rows == map[];
    assert v'.state == v.state;
    assert v'.dirty == v.dirty;
  }

  ghost predicate IsRowsOf(v: View, claims: seq<RefreshClaim>, now: int, policy: Policy, rows: map<Wallet, StateRow>) {
    && (forall w :: w in rows <==> IsClaimed(claims, w) && PlannedRow(LevelOf(v, w)))
    && (forall w | w in rows :: w in v.levels && rows[w] == StateRowAt(v.levels[w], EvidenceOf(v, w), policy, now))
  }

  lemma NotClaimed(claims: seq<RefreshClaim>, w: Wallet)
    requires !IsClaimed(claims, w)
    ensures forall generation :: RefreshClaim(w, generation) !in claims
  {
    forall generation ensures RefreshClaim(w, generation) !in claims {
      assert RefreshClaim(w, generation).wallet == w;
    }
  }

  function AsFlight(c: SightingClaim): Flight {
    Patching(c.lastSeen, c.generation, c.level, c.depth, c.summaryUpdatedAt, c.next)
  }

  /** The row update computed for one sighting claim, from the claim alone. */
  function UpdateFor(c: SightingClaim, policy: Policy): SightingUpdate {
    SightingUpdate(
      c.lastSeen, PatchedNextRefresh(c.level, c.depth, c.summaryUpdatedAt, c.next, c.lastSeen, policy), c.wallet)
  }

  /** The claimed generation still stands. */
  predicate StillQueued(v: View, c: SightingClaim) {
    c.wallet in v.sightings && v.sightings[c.wallet].generation == c.generation
  }

  function Patched(row: StateRow, u: SightingUpdate): StateRow {
    row.(lastSeen := Max(row.lastSeen, u.lastSeen), nextRefreshAt := u.next)
  }

  ghost predicate DistinctSightings(claims: seq<SightingClaim>) {
    forall i, j | 0 <= i < j < |claims| :: claims[i].wallet != claims[j].wallet
  }

  predicate IsSightingClaimed(claims: seq<SightingClaim>, w: Wallet) {
    exists c :: c in claims && c.wallet == w
  }

  /** The guarded updates one after another. */
  function PatchedRows(v: View, claims: seq<SightingClaim>, updates: seq<SightingUpdate>): map<Wallet, StateRow>
    requires |updates| == |claims|
  {
    if claims == [] then v.state
    else
      var last := |claims| - 1;
      var before, c := PatchedRows(v, claims[..last], updates[..last]), claims[last];
      if c.wallet in before && StillQueued(v, c) && c.wallet !in v.dirty
      then before[c.wallet := Patched(before[c.wallet], updates[last])] else before
  }

  lemma {:induction false} UnclaimedRowStays(v: View, claims: seq<SightingClaim>, updates: seq<SightingUpdate>,
                                             w: Wallet)
    requires |updates| == |claims| && !IsSightingClaimed(claims, w)
    ensures Lookup(PatchedRows(v, claims, updates), w) == Lookup(v.state, w)
  {
    if claims != [] {
      var last := |claims| - 1;
      assert claims[last] in claims && forall c | c in claims[..last] :: c in claims;
      UnclaimedRowStays(v, claims[..last], updates[..last], w);
    }
  }

  lemma {:induction false} ClaimedRowIsPatched(v: View, claims: seq<SightingClaim>, updates: seq<SightingUpdate>,
                                               i: nat)
    requires |updates| == |claims| && i < |claims| && DistinctSightings(claims)
    ensures
      var c, rows := claims[i], PatchedRows(v, claims, updates);
      Lookup(rows, c.wallet)
      == if c.wallet in v.state && StillQueued(v, c) && c.wallet !in v.dirty
         then Some(Patched(v.state[c.wallet], updates[i])) else Lookup(v.state, c.wallet)
  {
    var last := |claims| - 1;
    if i < last {
      ClaimedRowIsPatched(v, claims[..last], updates[..last], i);
    } else {
      UnclaimedRowStays(v, claims[..last], updates[..last], claims[last].wallet);
    }
  }

  lemma PatchedRowsByWallet(v: View, claims: seq<SightingClaim>, updates: seq<SightingUpdate>)
    requires |updates| == |claims| && DistinctSightings(claims)
    ensures
      var rows := PatchedRows(v, claims, updates);
      && rows.Keys == v.state.Keys
      && (forall i | 0 <= i < |claims| && claims[i].wallet in rows ::
            rows[claims[i].wallet] ==
            if StillQueued(v, claims[i]) && claims[i].wallet !in v.dirty
            then Patched(v.state[claims[i].wallet], updates[i]) else v.state[claims[i].wallet])
      && (forall w | w in rows && !IsSightingClaimed(claims, w) :: rows[w] == v.state[w])
  {
    var rows := PatchedRows(v, claims, updates);
    forall i | 0 <= i < |claims|
      ensures (claims[i].wallet in rows <==> claims[i].wallet in v.state)
      ensures claims[i].wallet in rows ==>
                rows[claims[i].wallet] ==
                if StillQueued(v, claims[i]) && claims[i].wallet !in v.dirty
                then Patched(v.state[claims[i].wallet], updates[i]) else v.state[claims[i].wallet]
    {
      ClaimedRowIsPatched(v, claims, updates, i);
    }
    forall w: Wallet | !IsSightingClaimed(claims, w) ensures Lookup(rows, w) == Lookup(v.state, w) {
      UnclaimedRowStays(v, claims, updates, w);
    }
    forall w: Wallet ensures w in rows <==> w in v.state {
      if IsSightingClaimed(claims, w) {
        var i :| 0 <= i < |claims| && claims[i].wallet == w;
        assert claims[i].wallet in rows <==> claims[i].wallet in v.state;
      } else {
        assert Lookup(rows, w) == Lookup(v.state, w);
      }
    }
  }

  ghost predicate SightingsApplied(v: View, v': View, claims: seq<SightingClaim>, policy: Policy) {
    && v' == v.(state := v'.state, sightings := v'.sightings)
    && v'.state.Keys == v.state.Keys
    && (forall c | c in claims && c.wallet in v.state ::
          v'.state[c.wallet] ==
          if StillQueued(v, c) && c.wallet !in v.dirty then Patched(v.state[c.wallet], UpdateFor(c, policy))
          else v.state[c.wallet])
    && (forall w | w in v.state && !IsSightingClaimed(claims, w) :: v'.state[w] == v.state[w])
    && (forall w :: w in v'.sightings <==>
          w in v.sightings && forall c | c in claims :: !(c.wallet == w && StillQueued(v, c)))
    && (forall w | w in v'.sightings :: v'.sightings[w] == v.sightings[w])
  }

  lemma ClaimedByApply(v: View, v': View, claims: seq<SightingClaim>, policy: Policy, c: SightingClaim)
    requires SightingsApplied(v, v', claims, policy) && DistinctSightings(claims) && c in claims
    ensures Lookup(v'.state, c.wallet)
         == if c.wallet in v.state && StillQueued(v, c) && c.wallet !in v.dirty
            then Some(Patched(v.state[c.wallet], UpdateFor(c, policy))) else Lookup(v.state, c.wallet)
    ensures Lookup(v'.sightings, c.wallet) == if StillQueued(v, c) then None else Lookup(v.sightings, c.wallet)
  {
    assert forall d | d in claims && d.wallet == c.wallet :: d == c;
  }

  lemma UntouchedByApply(v: View, v': View, claims: seq<SightingClaim>, policy: Policy, w: Wallet)
    requires SightingsApplied(v, v', claims, policy) && !IsSightingClaimed(claims, w)
    ensures CellOf(v', w, Idle) == CellOf(v, w, Idle)
  {
  }

  /** Applying the batch is the protocol's apply step for each claimed wallet, and nothing for the others. */
  lemma AppliedWalletByWallet(v: View, v': View, claims: seq<SightingClaim>, policy: Policy, w: Wallet)
    requires SightingsApplied(v, v', claims, policy) && DistinctSightings(claims)
    ensures forall c | c in claims && c.wallet == w ::
              CellOf(v', w, Idle) == ApplyClaimedSighting(CellOf(v, w, AsFlight(c)), policy)
    ensures !IsSightingClaimed(claims, w) ==> CellOf(v', w, Idle) == CellOf(v, w, Idle)
  {
    forall c | c in claims && c.wallet == w
      ensures CellOf(v', w, Idle) == ApplyClaimedSighting(CellOf(v, w, AsFlight(c)), policy)
    {
      ClaimedByApply(v, v', claims, policy, c);
    }
    if !IsSightingClaimed(claims, w) {
      UntouchedByApply(v, v', claims, policy, w);
    }
  }

  // ---------- The functions over the tables ----------

  class Tables {
    const policy: Policy
    var levels: map<Wallet, LevelRow>
    var evidence: map<Wallet, Evidence>
    var dirty: map<Wallet, Dirty>
    var sightings: map<Wallet, QueuedSighting>
    var state: map<Wallet, StateRow>

    constructor (policy: Policy)
      ensures this.policy == policy && Now() == View(map[], map[], map[], map[], map[])
    {
      this.policy := policy;
      levels, evidence, dirty, sightings, state := map[], map[], map[], map[], map[];
    }

    function Now(): View
      reads this
    {
      View(levels, evidence, dirty, sightings, state)
    }

    /** The wallets to rebuild: dirty ones oldest first, then due ones, then missing ones. */
    method SelectRefreshWallets(limit: int, now: int)
      returns (claims: seq<RefreshClaim>, ghost dirties: nat, ghost dues: nat)
      ensures IsRefreshBatch(Now(), now, limit, claims, dirties, dues)
      ensures limit > 0 && claims == [] ==> IsReady(Now()) && forall w :: !IsDue(Now(), w, now)
    {
      var bounded := Max(0, limit);
      if bounded == 0 {
        return [], 0, 0;
      }
      var dirtyClaims := ClaimDirty(bounded);
      dirties := |dirtyClaims|;
      claims, dues := ClaimRest(Now(), dirtyClaims, bounded, now);
      if claims == [] {
        EmptyBatchMeansReady(Now(), now, limit, dirties, dues);
      }
    }

    /** Due wallets, then missing ones, while there is room. */
    static method ClaimRest(v: View, dirtyClaims: seq<RefreshClaim>, limit: nat, now: int)
      returns (claims: seq<RefreshClaim>, ghost dues: nat)
      requires DirtyClaimed(v, dirtyClaims) && |dirtyClaims| == Min(limit, |v.dirty|)
      requires |dirtyClaims| < limit ==>
                 forall w | w in v.dirty :: RefreshClaim(w, Some(v.dirty[w].generation)) in dirtyClaims
      ensures IsRefreshBatch(v, now, limit, claims, |dirtyClaims|, dues)
    {
      var dueClaims := AddWithRoom(dirtyClaims, DueKeys(v, now), limit - |dirtyClaims|);
      dues := |dueClaims|;
      claims := AddWithRoom(dueClaims, MissingKeys(v), limit - |dueClaims|);
      BatchIsRight(v, now, limit, dirtyClaims, dueClaims, claims);
    }

    /** The next query is made only when there is room. */
    static method AddWithRoom(claims: seq<RefreshClaim>, keys: map<Wallet, int>, room: nat)
      returns (all: seq<RefreshClaim>)
      requires DistinctWallets(claims)
      ensures AddsUnseen(keys, claims, all, room)
    {
      if room == 0 {
        NoRoomAddsNothing(keys, claims);
        return claims;
      }
      all := AddUnseen(claims, keys, room);
    }

    method ClaimDirty(limit: nat) returns (claims: seq<RefreshClaim>)
      ensures |claims| == Min(limit, |dirty|) && DirtyClaimed(Now(), claims)
      ensures |claims| < limit ==> forall w | w in dirty :: RefreshClaim(w, Some(dirty[w].generation)) in claims
    {
      var keys := DirtyKeys(Now());
      DirtyKeysCount(Now());
      var oldest := SelectFirst(keys, limit);
      claims := ClaimEach(oldest);
      ClaimsFollowSelection(Now(), oldest, claims);
      if |oldest| < limit {
        AllSelected(keys, oldest);
      }
    }

    method ClaimEach(oldest: seq<Wallet>) returns (claims: seq<RefreshClaim>)
      requires forall k | 0 <= k < |oldest| :: oldest[k] in dirty
      ensures |claims| == |oldest|
      ensures forall k | 0 <= k < |oldest| :: claims[k] == RefreshClaim(oldest[k], Some(dirty[oldest[k]].generation))
    {
      claims := [];
      for i := 0 to |oldest|
        invariant |claims| == i
        invariant forall k | 0 <= k < i :: claims[k] == RefreshClaim(oldest[k], Some(dirty[oldest[k]].generation))
      {
        claims := claims + [RefreshClaim(oldest[i], Some(dirty[oldest[i]].generation))];
      }
    }

    /** Append the first wallets that are not claimed yet, with no generation to clear. */
    static method AddUnseen(claims: seq<RefreshClaim>, keys: map<Wallet, int>, limit: nat)
      returns (all: seq<RefreshClaim>)
      requires DistinctWallets(claims)
      ensures AddsUnseen(keys, claims, all, limit)
    {
      all := claims;
      var ws := SelectFirst(keys, limit);
      for i := 0 to |ws|
        invariant AddedInOrder(keys, claims, all, ws, i) && AddedOnce(keys, claims, all, ws, i)
      {
        if IsClaimed(all, ws[i]) {
          SeenIsClaimed(keys, claims, all, ws, i);
        } else {
          OneMoreInOrder(keys, claims, all, ws, i);
          OneMoreOnce(keys, claims, all, ws, i);
          all := all + [RefreshClaim(ws[i], None)];
        }
      }
      SelectionIsTaken(keys, claims, all, ws);
      assert Served(keys, all, limit) by {
        assert forall w | w in ws :: IsClaimed(all, w);
      }
      if |ws| < limit {
        AllSelected(keys, ws);
      }
    }

    /** Replace the claimed wallets' rows and clear only the generations that were observed. */
    method ReplaceStateRows(claims: seq<RefreshClaim>, rows: map<Wallet, StateRow>)
      modifies this`state, this`dirty
      ensures Replaced(old(Now()), Now(), claims, rows)
    {
      for i := 0 to |claims|
        invariant dirty == old(dirty)
        invariant forall w :: w in state <==> w in old(state) && !IsClaimed(claims[..i], w)
        invariant forall w | w in state :: state[w] == old(state)[w]
      {
        assert claims[..i + 1] == claims[..i] + [claims[i]];
        state := state - {claims[i].wallet};
      }
      assert claims[..|claims|] == claims;
      state := state + rows;
      ghost var rebuilt := state;
      for i := 0 to |claims|
        invariant state == rebuilt
        invariant forall w ::
                    w in dirty <==> w in old(dirty) && RefreshClaim(w, Some(old(dirty)[w].generation)) !in claims[..i]
        invariant forall w | w in dirty :: dirty[w] == old(dirty)[w]
      {
        assert claims[..i + 1] == claims[..i] + [claims[i]];
        var claim := claims[i];
        if claim.generation.Some? && claim.wallet in dirty && dirty[claim.wallet].generation == claim.generation.value {
          dirty := dirty - {claim.wallet};
        }
      }
    }

    /** The new rows of the claimed wallets at the levels that the planner serves. */
    method RowsOf(claims: seq<RefreshClaim>, now: int) returns (rows: map<Wallet, StateRow>)
      ensures IsRowsOf(Now(), claims, now, policy, rows)
    {
      rows := map[];
      for i := 0 to |claims|
        invariant IsRowsOf(Now(), claims[..i], now, policy, rows)
      {
        assert claims[..i + 1] == claims[..i] + [claims[i]];
        var w := claims[i].wallet;
        if w in levels && Planned(levels[w].level) {
          rows := rows[w := StateRowAt(levels[w], EvidenceOf(Now(), w), policy, now)];
        }
      }
      assert claims[..|claims|] == claims;
    }

    /** One uninterrupted rebuild round: every claimed wallet's row is computed from its evidence now and
        its dirty row is gone; no other wallet changes. */
    method RefreshState(limit: int, now: int)
      returns (claims: seq<RefreshClaim>, ghost dirties: nat, ghost dues: nat, ghost rebuilt: map<Wallet, StateRow>)
      modifies this`state, this`dirty
      ensures IsRefreshBatch(old(Now()), now, limit, claims, dirties, dues)
      ensures IsRowsOf(old(Now()), claims, now, policy, rebuilt) && Replaced(old(Now()), Now(), claims, rebuilt)
      ensures limit > 0 && claims == [] ==> IsReady(Now()) && forall w :: !IsDue(Now(), w, now)
      ensures old(Now()).(state := state, dirty := dirty) == Now()
      ensures forall c | c in claims :: c.wallet !in dirty
      ensures forall w | IsClaimed(claims, w) ::
                if PlannedRow(LevelOf(Now(), w))
                then w in state && state[w] == StateRowAt(levels[w], EvidenceOf(Now(), w), policy, now)
                else w !in state
      ensures forall w | !IsClaimed(claims, w) ::
                (w in dirty <==> w in old(dirty)) && (w in state <==> w in old(state))
                && (w in dirty ==> dirty[w] == old(dirty)[w]) && (w in state ==> state[w] == old(state)[w])
      ensures |claims| < limit ==> dirty == map[]
    {
      ghost var v := Now();
      claims, dirties, dues := SelectRefreshWallets(limit, now);
      var rows := RowsOf(claims, now);
      rebuilt := rows;
      ReplaceStateRows(claims, rows);
      RoundWalletByWallet(v, now, limit, claims, dirties, dues, rows, policy, Now());
    }

    predicate CanPatch(w: Wallet)
      reads this
    {
      w in sightings && w in state && w !in dirty
    }

    /** `ORDER BY dirty_at, wallet`. */
    predicate OlderSighting(v: Wallet, w: Wallet)
      reads this
      requires v in sightings && w in sightings
    {
      sightings[v].at < sightings[w].at || (sightings[v].at == sightings[w].at && v < w)
    }

    /** The sightings that can be applied without a rebuild, oldest first. */
    method SelectSightings(limit: int) returns (claims: seq<SightingClaim>)
      ensures |claims| <= Max(0, limit)
      ensures forall i, j | 0 <= i < j < |claims| ::
                CanPatch(claims[i].wallet) && CanPatch(claims[j].wallet)
                && OlderSighting(claims[i].wallet, claims[j].wallet)
      ensures |claims| < limit ==> forall w | CanPatch(w) :: IsSightingClaimed(claims, w)
      ensures forall c, w | c in claims && CanPatch(w) && !IsSightingClaimed(claims, w) ::
                CanPatch(c.wallet) && OlderSighting(c.wallet, w)
      ensures forall i, j | 0 <= i < j < |claims| :: claims[i].wallet != claims[j].wallet
      ensures forall c | c in claims ::
                && c.wallet in sightings && c.wallet in state && c.wallet !in dirty
                && c == ClaimOf(c.wallet, sightings[c.wallet], state[c.wallet])
    {
      var ws := OldestSightings(Max(0, limit));
      claims := ClaimEachSighting(ws);
      forall w | w in ws ensures IsSightingClaimed(claims, w) {
        var k :| 0 <= k < |ws| && ws[k] == w;
        assert claims[k] in claims && claims[k].wallet == w;
      }
      forall c | c in claims ensures c.wallet in ws {
        var k :| 0 <= k < |claims| && claims[k] == c;
        assert c.wallet == ws[k];
      }
    }

    method OldestSightings(limit: nat) returns (ws: seq<Wallet>)
      ensures |ws| <= limit && forall w | w in ws :: CanPatch(w)
      ensures forall i, j | 0 <= i < j < |ws| :: CanPatch(ws[i]) && CanPatch(ws[j]) && OlderSighting(ws[i], ws[j])
      ensures forall v, w | v in ws && CanPatch(w) && w !in ws :: CanPatch(v) && OlderSighting(v, w)
      ensures |ws| < limit ==> forall w | CanPatch(w) :: w in ws
    {
      var keys := map w | w in sightings && w in state && w !in dirty :: sightings[w].at;
      ws := SelectFirst(keys, limit);
      assert forall w :: CanPatch(w) <==> w in keys;
      if |ws| < limit {
        AllSelected(keys, ws);
      }
    }

    method ClaimEachSighting(ws: seq<Wallet>) returns (claims: seq<SightingClaim>)
      requires forall k | 0 <= k < |ws| :: CanPatch(ws[k])
      ensures |claims| == |ws|
      ensures forall k | 0 <= k < |ws| :: CanPatch(ws[k]) && claims[k] == ClaimOf(ws[k], sightings[ws[k]], state[ws[k]])
    {
      claims := [];
      for i := 0 to |ws|
        invariant |claims| == i
        invariant forall k | 0 <= k < i :: claims[k] == ClaimOf(ws[k], sightings[ws[k]], state[ws[k]])
      {
        claims := claims + [ClaimOf(ws[i], sightings[ws[i]], state[ws[i]])];
      }
    }

    static function ClaimOf(w: Wallet, s: QueuedSighting, row: StateRow): SightingClaim {
      SightingClaim(w, s.lastSeen, s.generation, row.level, row.currentDepth, row.summaryUpdatedAt, row.nextRefreshAt)
    }

    /** Apply the updates whose claimed generation still stands, then clear the observed generations. */
    method ApplySightings(updates: seq<SightingUpdate>, claims: seq<SightingClaim>)
      requires |updates| == |claims|
      requires forall i | 0 <= i < |claims| :: updates[i] == UpdateFor(claims[i], policy)
      requires forall i, j | 0 <= i < j < |claims| :: claims[i].wallet != claims[j].wallet
      modifies this`state, this`sightings
      ensures SightingsApplied(old(Now()), Now(), claims, policy)
    {
      PatchRows(updates, claims);
      DropClaims(claims);
    }

    method PatchRows(updates: seq<SightingUpdate>, claims: seq<SightingClaim>)
      requires |updates| == |claims|
      requires forall i | 0 <= i < |claims| :: updates[i].wallet == claims[i].wallet
      requires forall i, j | 0 <= i < j < |claims| :: claims[i].wallet != claims[j].wallet
      modifies this`state
      ensures state.Keys == old(state).Keys
      ensures forall i | 0 <= i < |claims| && claims[i].wallet in state ::
                state[claims[i].wallet] ==
                if StillQueued(old(Now()), claims[i]) && claims[i].wallet !in dirty
                then Patched(old(state)[claims[i].wallet], updates[i]) else old(state)[claims[i].wallet]
      ensures forall w | w in state && !IsSightingClaimed(claims, w) :: state[w] == old(state)[w]
    {
      ghost var v := Now();
      for i := 0 to |updates|
        invariant state == PatchedRows(v, claims[..i], updates[..i])
      {
        assert claims[..i + 1][..i] == claims[..i] && updates[..i + 1][..i] == updates[..i];
        var u, w := updates[i], updates[i].wallet;
        if w in state && w in sightings && sightings[w].generation == claims[i].generation && w !in dirty {
          state := state[w := state[w].(lastSeen := Max(state[w].lastSeen, u.lastSeen), nextRefreshAt := u.next)];
        }
      }
      assert claims[..|claims|] == claims && updates[..|claims|] == updates;
      PatchedRowsByWallet(v, claims, updates);
    }

    method DropClaims(claims: seq<SightingClaim>)
      modifies this`sightings
      ensures forall w :: w in sightings <==>
                w in old(sightings) && forall c | c in claims :: !(c.wallet == w && StillQueued(old(Now()), c))
      ensures forall w | w in sightings :: sightings[w] == old(sightings)[w]
    {
      for i := 0 to |claims|
        invariant forall w :: w in sightings <==>
                    w in old(sightings) && forall c | c in claims[..i] :: !(c.wallet == w && StillQueued(old(Now()), c))
        invariant forall w | w in sightings :: sightings[w] == old(sightings)[w]
      {
        assert claims[..i + 1] == claims[..i] + [claims[i]];
        var w := claims[i].wallet;
        if w in sightings && sightings[w].generation == claims[i].generation {
          sightings := sightings - {w};
        }
      }
      assert claims[..|claims|] == claims;
    }

    /** One uninterrupted sighting round: claim, compute the patches, apply them. */
    method RefreshSightings(limit: int) returns (claims: seq<SightingClaim>)
      modifies this`state, this`sightings
      ensures |claims| <= Max(0, limit)
      ensures |claims| < limit ==> forall w | old(CanPatch(w)) :: IsSightingClaimed(claims, w)
      ensures forall c, w | c in claims && old(CanPatch(w)) && !IsSightingClaimed(claims, w) ::
                old(CanPatch(c.wallet)) && old(OlderSighting(c.wallet, w))
      ensures SightingsApplied(old(Now()), Now(), claims, policy) && DistinctSightings(claims)
      ensures forall c | c in claims ::
                && c.wallet in old(sightings) && c.wallet in old(state) && c.wallet !in old(dirty)
                && c == ClaimOf(c.wallet, old(sightings)[c.wallet], old(state)[c.wallet])
      ensures forall c | c in claims ::
                && c.wallet in old(sightings) && c.wallet !in sightings
                && c.wallet in old(state) && c.wallet in state
                && state[c.wallet] == PatchedRow(old(state)[c.wallet], old(sightings)[c.wallet].lastSeen, policy)
    {
      claims := SelectSightings(limit);
      var updates: seq<SightingUpdate> := [];
      for i := 0 to |claims|
        invariant |updates| == i && unchanged(this)
        invariant forall k | 0 <= k < i :: updates[k] == UpdateFor(claims[k], policy)
      {
        var c := claims[i];
        var target := TargetDepth(c.level);
        var next := c.next;
        if c.depth == target && c.lastSeen > c.summaryUpdatedAt {
          var refreshSeconds := if target.Deep? then policy.deepRefreshSeconds else policy.lightRefreshSeconds;
          var activityDueAt := c.summaryUpdatedAt + Max(0, refreshSeconds);
          if activityDueAt > 0 {
            next := EarliestPositive(next, activityDueAt);
          }
        }
        updates := updates + [SightingUpdate(c.lastSeen, next, c.wallet)];
      }
      ApplySightings(updates, claims);
    }
  }
}
