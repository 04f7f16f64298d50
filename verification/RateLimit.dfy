/** Request pacing: reservations over several shared scopes with cooldowns, and the in-process token bucket.
    The main result for both is that no half-open window holds more grants than the capacity. */
module RateLimit {
  import opened Terms

  // ---------- Grants in a window ----------

  function CountIn(times: seq<real>, start: real, length: real): nat {
    if times == [] then 0
    else
      var last := times[|times| - 1];
      CountIn(times[..|times| - 1], start, length) + if start <= last < start + length then 1 else 0
  }

  /** Times come in order, and each is a full window after the one `capacity` places before it. */
  ghost predicate Paced(times: seq<real>, capacity: nat, window: real) {
    && (forall i, j | 0 <= i < j < |times| :: times[i] <= times[j])
    && (forall i, j | 0 <= i && i + capacity <= j < |times| :: times[j] - times[i] >= window)
  }

  lemma {:induction false} CountIsLocal(times: seq<real>, k: nat, start: real, length: real)
    requires k <= |times| && forall i | 0 <= i < k :: times[i] < start
    ensures CountIn(times, start, length) <= |times| - k
  {
    if times != [] {
      if k == |times| {
        CountIsLocal(times[..|times| - 1], k - 1, start, length);
      } else {
        CountIsLocal(times[..|times| - 1], k, start, length);
      }
    }
  }

  /** A half-open window of the pacing length holds at most `capacity` grants, wherever it starts. */
  lemma {:induction false} WindowHoldsAtMostCapacity(times: seq<real>, capacity: nat, window: real, start: real)
    requires Paced(times, capacity, window) && 0 < capacity
    ensures CountIn(times, start, window) <= capacity
  {
    if times != [] {
      var n, last := |times|, times[|times| - 1];
      if start <= last < start + window {
        var k := if n <= capacity then 0 else n - capacity;
        forall i | 0 <= i < k ensures times[i] < start {
          assert times[n - 1] - times[i] >= window;
        }
        CountIsLocal(times, k, start, window);
      } else {
        WindowHoldsAtMostCapacity(times[..n - 1], capacity, window, start);
      }
    }
  }

  lemma PacedGrowth(times: seq<real>, recent: nat, capacity: nat, window: real, now: real)
    requires Paced(times, capacity, window) && recent <= |times| && recent < capacity
    requires forall i | 0 <= i < |times| :: times[i] <= now
    requires forall i | 0 <= i < |times| - recent :: times[i] <= now - window
    ensures Paced(times + [now], capacity, window)
  {
  }

  /** `tail` is the end of `times`, and what comes before it is no later than `cutoff`. */
  ghost predicate IsTailAfter(times: seq<real>, tail: seq<real>, cutoff: real) {
    && |tail| <= |times| && tail == times[|times| - |tail|..]
    && forall i | 0 <= i < |times| - |tail| :: times[i] <= cutoff
  }

  lemma TailOfTail(times: seq<real>, tail: seq<real>, shorter: seq<real>, cutoff: real, later: real)
    requires IsTailAfter(times, tail, cutoff) && IsTailAfter(tail, shorter, later) && cutoff <= later
    ensures IsTailAfter(times, shorter, later)
  {
    forall i | 0 <= i < |times| - |shorter| ensures times[i] <= later {
      if i >= |times| - |tail| {
        assert times[i] == tail[i - (|times| - |tail|)];
      }
    }
  }

  lemma TailIsOrdered(times: seq<real>, tail: seq<real>, cutoff: real)
    requires IsTailAfter(times, tail, cutoff) && forall i, j | 0 <= i < j < |times| :: times[i] <= times[j]
    ensures forall i, j | 0 <= i < j < |tail| :: tail[i] <= tail[j]
  {
  }

  lemma TailGrows(times: seq<real>, tail: seq<real>, cutoff: real, x: real)
    requires IsTailAfter(times, tail, cutoff)
    ensures IsTailAfter(times + [x], tail + [x], cutoff)
  {
  }

  lemma GrantKeeps(times: seq<real>, recent: seq<real>, capacity: nat, window: real, now: real)
    requires Paced(times, capacity, window) && IsTailAfter(times, recent, now - window) && |recent| < capacity
    requires forall i | 0 <= i < |times| :: times[i] <= now
    ensures Paced(times + [now], capacity, window) && IsTailAfter(times + [now], recent + [now], now - window)
    ensures forall i | 0 <= i < |times + [now]| :: (times + [now])[i] <= now
  {
    PacedGrowth(times, |recent|, capacity, window, now);
    TailGrows(times, recent, now - window, now);
  }

  // ---------- The in-process bucket ----------

  class TokenBucket {
    const capacity: nat
    const window: real
    var events: seq<real>
    /** Every grant so far. */
    ghost var grants: seq<real>
    ghost var latest: real

    constructor (capacity: nat, window: real, ghost start: real)
      requires 0 < capacity && 0.0 < window
      ensures Valid() && grants == [] && latest == start
      ensures this.capacity == capacity && this.window == window
    {
      this.capacity, this.window := capacity, window;
      events, grants, latest := [], [], start;
    }

    ghost predicate Valid()
      reads this
    {
      && 0 < capacity && 0.0 < window
      && IsTailAfter(grants, events, latest - window)
      && (forall i | 0 <= i < |grants| :: grants[i] <= latest)
      && Paced(grants, capacity, window)
    }

    function Recent(times: seq<real>, cutoff: real): seq<real> {
      if times == [] then []
      else if times[0] > cutoff then [times[0]] + Recent(times[1..], cutoff)
      else Recent(times[1..], cutoff)
    }

    /** Among times in order, the recent ones are a tail. */
    lemma {:induction false} RecentIsTail(times: seq<real>, cutoff: real)
      requires forall i, j | 0 <= i < j < |times| :: times[i] <= times[j]
      ensures IsTailAfter(times, Recent(times, cutoff), cutoff)
    {
      if times != [] {
        RecentIsTail(times[1..], cutoff);
        if times[0] > cutoff {
          AllRecent(times, cutoff);
        }
      }
    }

    lemma {:induction false} AllRecent(times: seq<real>, cutoff: real)
      requires forall i | 0 <= i < |times| :: times[i] > cutoff
      ensures Recent(times, cutoff) == times
    {
      if times != [] {
        AllRecent(times[1..], cutoff);
      }
    }

    /** One pass of the loop: forget what is older than the window and take a place if one is left. */
    method TryTake(now: real) returns (granted: bool)
      requires Valid() && latest <= now
      modifies this
      ensures Valid() && latest == now
      ensures grants == if granted then old(grants) + [now] else old(grants)
      ensures granted <==> |Recent(old(events), now - window)| < capacity
    {
      Prune(now);
      granted := |events| < capacity;
      if granted {
        Grant(now);
      }
    }

    method Prune(now: real)
      requires Valid() && latest <= now
      modifies this`events, this`latest
      ensures Valid() && latest == now && events == Recent(old(events), now - window)
    {
      RecentIsKept(now);
      events := Recent(events, now - window);
      latest := now;
    }

    method Grant(now: real)
      requires Valid() && latest == now && |events| < capacity
      modifies this`events, this`grants
      ensures Valid() && grants == old(grants) + [now]
    {
      GrantKeeps(grants, events, capacity, window, now);
      events := events + [now];
      grants := grants + [now];
    }

    lemma RecentIsKept(now: real)
      requires Valid() && latest <= now
      ensures IsTailAfter(grants, Recent(events, now - window), now - window)
    {
      TailIsOrdered(grants, events, latest - window);
      RecentIsTail(events, now - window);
      TailOfTail(grants, events, Recent(events, now - window), latest - window, now - window);
    }

    /** `wait`, against the clock readings of its passes: it returns at the first that grants. */
    method Wait(readings: seq<real>) returns (passes: nat, granted: bool)
      requires Valid()
      requires forall i, j | 0 <= i < j < |readings| :: readings[i] <= readings[j]
      requires readings != [] ==> latest <= readings[0]
      modifies this
      ensures Valid() && passes <= |readings|
      ensures if granted then 0 < passes && grants == old(grants) + [readings[passes - 1]] else grants == old(grants)
      ensures !granted ==> passes == |readings|
      ensures forall start :: CountIn(grants, start, window) <= capacity
    {
      passes, granted := 0, false;
      while passes < |readings| && !granted
        invariant Valid() && passes <= |readings|
        invariant passes < |readings| ==> latest <= readings[passes]
        invariant if granted then 0 < passes && grants == old(grants) + [readings[passes - 1]]
                  else grants == old(grants)
        decreases |readings| - passes
      {
        granted := TryTake(readings[passes]);
        passes := passes + 1;
      }
      forall start ensures CountIn(grants, start, window) <= capacity {
        WindowHoldsAtMostCapacity(grants, capacity, window, start);
      }
    }
  }

  // ---------- The shared limiter: specification ----------

  datatype Scope = Scope(name: string, capacity: nat, window: real)

  /** `RateLimitScope.__post_init__` refuses anything else. */
  predicate WellFormed(s: Scope) {
    s.name != "" && 0 < s.capacity && 0.0 < s.window
  }

  function Interval(s: Scope): real {
    if s.capacity == 0 then 0.0 else s.window / s.capacity as real
  }

  /** `n` intervals in a row. */
  function Times(n: nat, interval: real): real {
    if n == 0 then 0.0 else Times(n - 1, interval) + interval
  }

  lemma {:induction false} TimesIsProduct(n: nat, interval: real)
    ensures Times(n, interval) == n as real * interval
  {
    if n > 0 {
      TimesIsProduct(n - 1, interval);
    }
  }

  lemma CapacityIntervalsFillTheWindow(s: Scope)
    requires WellFormed(s)
    ensures Times(s.capacity, Interval(s)) == s.window && 0.0 < Interval(s)
  {
    TimesIsProduct(s.capacity, Interval(s));
  }

  datatype Row = Row(nextPermit: real, cooldownUntil: real, permits: nat)

  type Table = map<string, Row>

  predicate Names(scopes: seq<Scope>, name: string) {
    exists s :: s in scopes && s.name == name
  }

  ghost predicate Normalized(scopes: seq<Scope>) {
    && (forall s | s in scopes :: WellFormed(s))
    && (forall i, j | 0 <= i < j < |scopes| :: scopes[i].name != scopes[j].name)
  }

  /** No earlier than `now`, nor than any scope's next permit or cooldown. */
  function Scheduled(rows: Table, scopes: seq<Scope>, now: real): real {
    if scopes == [] then now
    else
      var before, name := Scheduled(rows, scopes[..|scopes| - 1], now), scopes[|scopes| - 1].name;
      if name in rows then MaxR(MaxR(before, rows[name].nextPermit), rows[name].cooldownUntil) else before
  }

  function Permit(row: Option<Row>, at: real, interval: real): Row {
    match row
    case None => Row(MaxR(at, 0.0) + interval, 0.0, 1)
    case Some(r) => Row(MaxR(MaxR(at, r.nextPermit), r.cooldownUntil) + interval, r.cooldownUntil, r.permits + 1)
  }

  function Cool(row: Option<Row>, until: real): Row {
    match row
    case None => Row(until, until, 0)
    case Some(r) => r.(nextPermit := MaxR(r.nextPermit, until), cooldownUntil := MaxR(r.cooldownUntil, until))
  }

  function Permitted(rows: Table, scopes: seq<Scope>, at: real): Table {
    if scopes == [] then rows
    else
      var s := scopes[|scopes| - 1];
      Permitted(rows, scopes[..|scopes| - 1], at)[s.name := Permit(Lookup(rows, s.name), at, Interval(s))]
  }

  function Cooled(rows: Table, scopes: seq<Scope>, until: real): Table {
    if scopes == [] then rows
    else
      var s := scopes[|scopes| - 1];
      Cooled(rows, scopes[..|scopes| - 1], until)[s.name := Cool(Lookup(rows, s.name), until)]
  }

  lemma {:induction false} NotPermitted(rows: Table, scopes: seq<Scope>, at: real, name: string)
    requires !Names(scopes, name)
    ensures Lookup(Permitted(rows, scopes, at), name) == Lookup(rows, name)
  {
    if scopes != [] {
      var init, last := scopes[..|scopes| - 1], scopes[|scopes| - 1];
      assert last in scopes && forall s | s in init :: s in scopes;
      NotPermitted(rows, init, at, name);
    }
  }

  lemma {:induction false} PermittedScope(rows: Table, scopes: seq<Scope>, at: real, i: nat)
    requires Normalized(scopes) && i < |scopes|
    ensures Lookup(Permitted(rows, scopes, at), scopes[i].name)
         == Some(Permit(Lookup(rows, scopes[i].name), at, Interval(scopes[i])))
  {
    var init, last := scopes[..|scopes| - 1], scopes[|scopes| - 1];
    if i < |scopes| - 1 {
      assert forall s | s in init :: s in scopes;
      PermittedScope(rows, init, at, i);
    } else {
      NotPermitted(rows, init, at, last.name);
    }
  }

  lemma PermittedRow(rows: Table, scopes: seq<Scope>, at: real, name: string)
    requires Normalized(scopes)
    ensures !Names(scopes, name) ==> Lookup(Permitted(rows, scopes, at), name) == Lookup(rows, name)
    ensures forall s | s in scopes && s.name == name ::
              Lookup(Permitted(rows, scopes, at), name) == Some(Permit(Lookup(rows, name), at, Interval(s)))
  {
    if !Names(scopes, name) {
      NotPermitted(rows, scopes, at, name);
    }
    forall i | 0 <= i < |scopes| && scopes[i].name == name
      ensures Lookup(Permitted(rows, scopes, at), name) == Some(Permit(Lookup(rows, name), at, Interval(scopes[i])))
    {
      PermittedScope(rows, scopes, at, i);
    }
  }

  lemma {:induction false} CooledRow(rows: Table, scopes: seq<Scope>, until: real, name: string)
    ensures Lookup(Cooled(rows, scopes, until), name)
            == if Names(scopes, name) then Some(Cool(Lookup(rows, name), until)) else Lookup(rows, name)
  {
    if scopes != [] {
      var init, last := scopes[..|scopes| - 1], scopes[|scopes| - 1];
      assert scopes == init + [last];
      assert last in scopes;
      CooledRow(rows, init, until, name);
      if Names(init, name) {
        var s :| s in init && s.name == name;
        assert s in scopes;
      }
    }
  }

  lemma {:induction false} ScheduledBounds(rows: Table, scopes: seq<Scope>, now: real)
    ensures now <= Scheduled(rows, scopes, now)
    ensures forall s | s in scopes && s.name in rows ::
              rows[s.name].nextPermit <= Scheduled(rows, scopes, now)
              && rows[s.name].cooldownUntil <= Scheduled(rows, scopes, now)
    ensures Scheduled(rows, scopes, now) == now
            || exists s :: s in scopes && s.name in rows
                 && (Scheduled(rows, scopes, now) == rows[s.name].nextPermit
                     || Scheduled(rows, scopes, now) == rows[s.name].cooldownUntil)
  {
    if scopes != [] {
      var init, last := scopes[..|scopes| - 1], scopes[|scopes| - 1];
      assert scopes == init + [last];
      ScheduledBounds(rows, init, now);
    }
  }

  /** When the last cooldown of the scopes ends, or `at` when none is under way. */
  function CooledUntil(rows: Table, scopes: seq<Scope>, at: real): real {
    if scopes == [] then at
    else
      var before, name := CooledUntil(rows, scopes[..|scopes| - 1], at), scopes[|scopes| - 1].name;
      if name in rows then MaxR(before, rows[name].cooldownUntil) else before
  }

  lemma {:induction false} CooledUntilBounds(rows: Table, scopes: seq<Scope>, at: real)
    ensures at <= CooledUntil(rows, scopes, at)
    ensures forall s | s in scopes && s.name in rows :: rows[s.name].cooldownUntil <= CooledUntil(rows, scopes, at)
    ensures CooledUntil(rows, scopes, at) == at
            || exists s :: s in scopes && s.name in rows && CooledUntil(rows, scopes, at) == rows[s.name].cooldownUntil
  {
    if scopes != [] {
      var init, last := scopes[..|scopes| - 1], scopes[|scopes| - 1];
      assert scopes == init + [last];
      CooledUntilBounds(rows, init, at);
    }
  }

  // ---------- Runs of several processes ----------

  /** One transaction of any process; each passes its own clock reading. */
  datatype Event =
    | Reserve(scopes: seq<Scope>, now: real, maxWait: Option<real>)
    | Cooldown(scopes: seq<Scope>, now: real, retryAfter: real)

  ghost predicate GoodEvent(e: Event) {
    Normalized(e.scopes)
  }

  predicate Granted(rows: Table, e: Event) {
    && e.Reserve?
    && (e.maxWait.Some? ==>
          MaxR(0.0, Scheduled(rows, e.scopes, e.now) - e.now) <= MaxR(0.0, e.maxWait.value))
  }

  function Next(rows: Table, e: Event): Table {
    match e
    case Reserve(scopes, now, _) =>
      if Granted(rows, e) then Permitted(rows, scopes, Scheduled(rows, scopes, now)) else rows
    case Cooldown(scopes, now, retryAfter) => Cooled(rows, scopes, now + MaxR(0.0, retryAfter))
  }

  ghost predicate GoodRun(events: seq<Event>) {
    forall e | e in events :: GoodEvent(e)
  }

  function After(events: seq<Event>, rows: Table): Table {
    if events == [] then rows
    else
      var e := events[|events| - 1];
      Next(After(events[..|events| - 1], rows), e)
  }

  /** The times at which the run's reservations that use the scope were scheduled. */
  function Grants(events: seq<Event>, rows: Table, name: string): seq<real> {
    if events == [] then []
    else
      var e, before := events[|events| - 1], events[..|events| - 1];
      if Granted(After(before, rows), e) && Names(e.scopes, name)
      then Grants(before, rows, name) + [Scheduled(After(before, rows), e.scopes, e.now)]
      else Grants(before, rows, name)
  }

  /** Every call that names the scope asks for at least this spacing; a fixed capacity and window give one. */
  ghost predicate SpacedBy(events: seq<Event>, name: string, interval: real) {
    forall e, s | e in events && e.Reserve? && s in e.scopes && s.name == name :: interval <= Interval(s)
  }

  ghost predicate Spaced(g: seq<real>, interval: real) {
    forall i | 0 < i < |g| :: g[i - 1] + interval <= g[i]
  }

  lemma {:induction false} SpacedFar(g: seq<real>, interval: real, i: nat, k: nat)
    requires Spaced(g, interval) && i + k < |g|
    ensures g[i] + Times(k, interval) <= g[i + k]
  {
    if k > 0 {
      SpacedFar(g, interval, i, k - 1);
      assert g[i + k - 1] + interval <= g[i + k];
    }
  }

  lemma {:induction false} SpacedFarther(g: seq<real>, interval: real, i: nat, j: nat)
    requires Spaced(g, interval) && 0.0 <= interval && i <= j < |g|
    ensures g[i] <= g[j]
  {
    if i < j {
      SpacedFarther(g, interval, i, j - 1);
      assert g[j - 1] + interval <= g[j];
    }
  }

  /** A step moves the next permit of a scope it grants past the scheduled time, and never moves one back. */
  lemma StepMovesPermits(rows: Table, e: Event, name: string, interval: real)
    requires GoodEvent(e) && forall s | e.Reserve? && s in e.scopes && s.name == name :: interval <= Interval(s)
    requires 0.0 <= interval
    ensures name in rows ==> name in Next(rows, e) && rows[name].nextPermit <= Next(rows, e)[name].nextPermit
    ensures Granted(rows, e) && Names(e.scopes, name) ==>
              && name in Next(rows, e)
              && Scheduled(rows, e.scopes, e.now) + interval <= Next(rows, e)[name].nextPermit
              && (name in rows ==> rows[name].nextPermit <= Scheduled(rows, e.scopes, e.now))
  {
    match e
    case Reserve(scopes, now, _) =>
      ScheduledBounds(rows, scopes, now);
      PermittedRow(rows, scopes, Scheduled(rows, scopes, now), name);
    case Cooldown(scopes, now, retryAfter) => CooledRow(rows, scopes, now + MaxR(0.0, retryAfter), name);
  }

  /** Successive scheduled times are an interval apart, whatever clock reading each caller passes. */
  lemma {:induction false} GrantsAreSpaced(events: seq<Event>, rows: Table, name: string, interval: real)
    requires GoodRun(events) && SpacedBy(events, name, interval) && 0.0 <= interval
    ensures
      var g := Grants(events, rows, name);
      && Spaced(g, interval)
      && (g != [] ==> name in After(events, rows) && g[|g| - 1] + interval <= After(events, rows)[name].nextPermit)
  {
    if events != [] {
      var init, e := events[..|events| - 1], events[|events| - 1];
      var before := After(init, rows);
      assert e in events;
      GrantsAreSpaced(init, rows, name, interval);
      StepMovesPermits(before, e, name, interval);
    }
  }

  /** A scope of fixed capacity and window is granted at most its capacity in any half-open window. */
  lemma SharedWindowHoldsAtMostCapacity(events: seq<Event>, rows: Table, name: string, scope: Scope, start: real)
    requires GoodRun(events) && WellFormed(scope) && SpacedBy(events, name, Interval(scope))
    ensures CountIn(Grants(events, rows, name), start, scope.window) <= scope.capacity
  {
    var g, interval := Grants(events, rows, name), Interval(scope);
    CapacityIntervalsFillTheWindow(scope);
    GrantsAreSpaced(events, rows, name, interval);
    SpacedIsPaced(g, interval, scope.capacity, scope.window);
    WindowHoldsAtMostCapacity(g, scope.capacity, scope.window, start);
  }

  lemma SpacedIsPaced(g: seq<real>, interval: real, capacity: nat, window: real)
    requires Spaced(g, interval) && 0.0 <= interval && Times(capacity, interval) == window
    ensures Paced(g, capacity, window)
  {
    forall i, j | 0 <= i < j < |g| ensures g[i] <= g[j] {
      SpacedFarther(g, interval, i, j);
    }
    forall i, j | 0 <= i && i + capacity <= j < |g| ensures g[j] - g[i] >= window {
      SpacedFar(g, interval, i, capacity);
      SpacedFarther(g, interval, i + capacity, j);
    }
  }

  /** The reservation at this place of the run was granted the scope. */
  ghost predicate OwnGrant(events: seq<Event>, rows: Table, name: string, place: nat) {
    && place < |events|
    && Granted(After(events[..place], rows), events[place])
    && Names(events[place].scopes, name)
  }

  ghost predicate OwnGrants(events: seq<Event>, rows: Table, name: string, places: seq<nat>) {
    && (forall i | 0 <= i < |places| :: OwnGrant(events, rows, name, places[i]))
    && (forall i, j | 0 <= i < j < |places| :: places[i] < places[j])
  }

  function ScheduledAt(events: seq<Event>, rows: Table, place: nat): real
    requires place < |events|
  {
    Scheduled(After(events[..place], rows), events[place].scopes, events[place].now)
  }

  /** The reservation at a granted place has an entry of its own among the grants: the next one after those of
      the earlier places. */
  lemma {:induction false} GrantHasItsEntry(events: seq<Event>, rows: Table, name: string, place: nat)
    requires OwnGrant(events, rows, name, place)
    ensures
      var entry := |Grants(events[..place], rows, name)|;
      && entry < |Grants(events, rows, name)|
      && Grants(events, rows, name)[entry] == ScheduledAt(events, rows, place)
  {
    var init, n := events[..|events| - 1], |events|;
    if place < n - 1 {
      assert init[..place] == events[..place] && init[place] == events[place];
      GrantHasItsEntry(init, rows, name, place);
    }
  }

  /** Later granted places have later entries. */
  lemma EntriesAreDistinct(events: seq<Event>, rows: Table, name: string, p: nat, q: nat)
    requires p < q && OwnGrant(events, rows, name, p) && OwnGrant(events, rows, name, q)
    ensures |Grants(events[..p], rows, name)| < |Grants(events[..q], rows, name)|
  {
    assert events[..q][..p] == events[..p] && events[..q][p] == events[p];
    GrantHasItsEntry(events[..q], rows, name, p);
  }

  /** `times` picks entries of `g`, in order. */
  ghost predicate Picks(times: seq<real>, g: seq<real>, entries: seq<nat>) {
    && |times| == |entries|
    && (forall i | 0 <= i < |entries| :: entries[i] < |g| && times[i] == g[entries[i]])
    && (forall i, j | 0 <= i < j < |entries| :: entries[i] < entries[j])
  }

  lemma {:induction false} PickedCount(times: seq<real>, g: seq<real>, entries: seq<nat>, start: real, length: real)
    requires Picks(times, g, entries)
    ensures CountIn(times, start, length) <= CountIn(g, start, length)
    decreases |g|
  {
    if times != [] {
      var m, n := |times| - 1, |g| - 1;
      if entries[m] == n {
        PickedCount(times[..m], g[..n], entries[..m], start, length);
      } else {
        assert forall i | 0 <= i < m :: entries[i] < entries[m];
        PickedCount(times, g[..n], entries, start, length);
      }
    }
  }

  ghost function Entries(events: seq<Event>, rows: Table, name: string, places: seq<nat>): (entries: seq<nat>)
    requires forall i | 0 <= i < |places| :: places[i] < |events|
    ensures |entries| == |places|
    ensures forall i | 0 <= i < |places| :: entries[i] == |Grants(events[..places[i]], rows, name)|
  {
    if places == [] then []
    else
      var n := |places| - 1;
      Entries(events, rows, name, places[..n]) + [|Grants(events[..places[n]], rows, name)|]
  }

  /** However many calls of however many processes go ahead, no window of a scope holds more of their slots than
      its capacity. */
  lemma GrantedCallsFitTheWindow(events: seq<Event>, rows: Table, name: string, places: seq<nat>, times: seq<real>,
                                 scope: Scope, start: real)
    requires OwnGrants(events, rows, name, places) && |times| == |places|
    requires forall i | 0 <= i < |places| :: places[i] < |events| && times[i] == ScheduledAt(events, rows, places[i])
    requires GoodRun(events) && WellFormed(scope) && SpacedBy(events, name, Interval(scope))
    ensures CountIn(times, start, scope.window) <= scope.capacity
  {
    var g, entries := Grants(events, rows, name), Entries(events, rows, name, places);
    forall i | 0 <= i < |places| ensures entries[i] < |g| && times[i] == g[entries[i]] {
      GrantHasItsEntry(events, rows, name, places[i]);
    }
    forall i, j | 0 <= i < j < |places| ensures entries[i] < entries[j] {
      EntriesAreDistinct(events, rows, name, places[i], places[j]);
    }
    PickedCount(times, g, entries, start, scope.window);
    SharedWindowHoldsAtMostCapacity(events, rows, name, scope, start);
  }

  lemma {:induction false} AfterJoins(events: seq<Event>, more: seq<Event>, rows: Table)
    ensures After(events + more, rows) == After(more, After(events, rows))
  {
    if more == [] {
      assert events + more == events;
    } else {
      var init, last := more[..|more| - 1], more[|more| - 1];
      assert (events + more)[..|events + more| - 1] == events + init;
      AfterJoins(events, init, rows);
    }
  }

  ghost predicate CoolsDown(e: Event, name: string, until: real) {
    e.Cooldown? && Names(e.scopes, name) && until == e.now + MaxR(0.0, e.retryAfter)
  }

  /** A recorded cooldown outlasts everything that follows. */
  lemma {:induction false} CooldownStands(events: seq<Event>, rows: Table, name: string, until: real)
    requires GoodRun(events) && name in rows && until <= rows[name].cooldownUntil
    ensures name in After(events, rows) && until <= After(events, rows)[name].cooldownUntil
    ensures forall t | t in Grants(events, rows, name) :: until <= t
  {
    if events != [] {
      var init, e := events[..|events| - 1], events[|events| - 1];
      var before := After(init, rows);
      assert e in events;
      CooldownStands(init, rows, name, until);
      match e
      case Reserve(scopes, now, _) =>
        var at := Scheduled(before, scopes, now);
        ScheduledBounds(before, scopes, now);
        PermittedRow(before, scopes, at, name);
      case Cooldown(scopes, now, retryAfter) => CooledRow(before, scopes, now + MaxR(0.0, retryAfter), name);
    }
  }

  /** Nothing reserved after a cooldown is scheduled before it ends. */
  lemma NoGrantDuringCooldown(rows: Table, cooldown: Event, events: seq<Event>, name: string, until: real)
    requires GoodEvent(cooldown) && CoolsDown(cooldown, name, until) && GoodRun(events)
    ensures forall t | t in Grants(events, Next(rows, cooldown), name) :: until <= t
  {
    CooledRow(rows, cooldown.scopes, until, name);
    CooldownStands(events, Next(rows, cooldown), name, until);
  }

  /** `total_permits` counts exactly the grants. */
  lemma {:induction false} PermitsCountGrants(events: seq<Event>, name: string)
    requires GoodRun(events)
    ensures |Grants(events, map[], name)|
            == match Lookup(After(events, map[]), name) case None => 0 case Some(r) => r.permits
  {
    if events != [] {
      var init, e := events[..|events| - 1], events[|events| - 1];
      var before := After(init, map[]);
      assert e in events;
      PermitsCountGrants(init, name);
      match e
      case Reserve(scopes, now, _) => PermittedRow(before, scopes, Scheduled(before, scopes, now), name);
      case Cooldown(scopes, now, retryAfter) => CooledRow(before, scopes, now + MaxR(0.0, retryAfter), name);
    }
  }

  // ---------- The shared limiter ----------

  datatype Reservation = Reservation(scheduledAt: real, waitSeconds: real, deferred: bool)

  /** A round of a waiting call: what other processes commit before it reserves and while it sleeps, its clock
      reading, and when its sleep ends if the slot itself does not keep it longer. */
  datatype Moment = Moment(before: seq<Event>, now: real, meanwhile: seq<Event>, wokenAt: real)

  datatype WaitResult = Ready(at: real) | Deferred(retryAfter: real) | StillWaiting

  /** One scope per name: the one with the longest interval. */
  ghost predicate IsNormalForm(normal: seq<Scope>, scopes: seq<Scope>) {
    && Normalized(normal)
    && (forall s | s in normal :: s in scopes)
    && (forall s | s in scopes :: Names(normal, s.name))
    && (forall s, x | s in normal && x in scopes && x.name == s.name :: Interval(x) <= Interval(s))
  }

  lemma NormalFormOfNormalForm(normal: seq<Scope>, middle: seq<Scope>, scopes: seq<Scope>)
    requires IsNormalForm(middle, scopes) && IsNormalForm(normal, middle)
    ensures IsNormalForm(normal, scopes)
  {
    forall s | s in scopes ensures Names(normal, s.name) {
      var m :| m in middle && m.name == s.name;
    }
  }

  lemma SomeScope(normal: seq<Scope>, scopes: seq<Scope>)
    requires IsNormalForm(normal, scopes)
    ensures normal == [] <==> scopes == []
  {
    assert scopes != [] ==> scopes[0] in scopes;
    assert normal != [] ==> normal[0] in normal;
  }

  lemma CooledUntilOfNormalForm(rows: Table, normal: seq<Scope>, scopes: seq<Scope>, at: real)
    requires IsNormalForm(normal, scopes)
    ensures CooledUntil(rows, normal, at) == CooledUntil(rows, scopes, at)
  {
    CooledUntilBounds(rows, normal, at);
    CooledUntilBounds(rows, scopes, at);
    forall s | s in scopes && s.name in rows ensures rows[s.name].cooldownUntil <= CooledUntil(rows, normal, at) {
      var n :| n in normal && n.name == s.name;
    }
  }

  /** The end of a round in which the call reserves with `e` on this table: deferred at once; ready when it wakes;
      deferred or asked to try again by a cooldown under way then. */
  function RoundResult(rows: Table, e: Event, m: Moment, maxBlock: real): WaitResult {
    var scheduledAt := Scheduled(rows, e.scopes, e.now);
    var woken := MaxR(m.wokenAt, scheduledAt);
    var cooldownWait := CooledUntil(After(m.meanwhile, Next(rows, e)), e.scopes, woken) - woken;
    if !Granted(rows, e) then Deferred(scheduledAt - e.now)
    else if cooldownWait <= 0.0 then Ready(woken)
    else if cooldownWait > MaxR(0.0, maxBlock) then Deferred(cooldownWait)
    else StillWaiting
  }

  /** The call's own transactions, one a round. */
  ghost predicate IsOwn(own: seq<Event>, scopes: seq<Scope>, maxBlock: real, rounds: seq<Moment>) {
    && |own| <= |rounds|
    && forall k | 0 <= k < |own| ::
         && own[k].Reserve? && own[k].now == rounds[k].now && own[k].maxWait == Some(MaxR(0.0, maxBlock))
         && IsNormalForm(own[k].scopes, scopes)
  }

  /** Everything committed while the rounds last: the call's own events between those of the others. */
  ghost function Woven(rounds: seq<Moment>, own: seq<Event>): seq<Event>
    requires |own| <= |rounds|
    decreases |own|, 0
  {
    if own == [] then []
    else Reserving(rounds, own, |own| - 1) + [own[|own| - 1]] + rounds[|own| - 1].meanwhile
  }

  /** The same up to the call's reservation of round `k`. */
  ghost function Reserving(rounds: seq<Moment>, own: seq<Event>, k: nat): seq<Event>
    requires k < |own| <= |rounds|
    decreases k, 1
  {
    Woven(rounds, own[..k]) + rounds[k].before
  }

  /** Every round so far ended with a cooldown to sleep off. */
  ghost predicate AllHeld(rows: Table, own: seq<Event>, rounds: seq<Moment>, maxBlock: real)
    requires |own| <= |rounds|
  {
    forall k | 0 <= k < |own| ::
      RoundResult(After(Reserving(rounds, own, k), rows), own[k], rounds[k], maxBlock) == StillWaiting
  }

  /** Which rounds there were and how the last of them ended. */
  ghost predicate Waited(rows: Table, own: seq<Event>, rounds: seq<Moment>, maxBlock: real, w: WaitResult)
    requires |own| <= |rounds|
  {
    && (w.StillWaiting? ==> |own| == |rounds|)
    && (own == [] ==> w.StillWaiting?)
    && forall k | 0 <= k < |own| ::
         RoundResult(After(Reserving(rounds, own, k), rows), own[k], rounds[k], maxBlock)
         == if k < |own| - 1 then StillWaiting else w
  }

  /** What was committed by the end: a refused reservation ends the call at once. */
  ghost function EndOf(rows: Table, own: seq<Event>, rounds: seq<Moment>): seq<Event>
    requires |own| <= |rounds|
  {
    if own == [] then []
    else
      var before := Reserving(rounds, own, |own| - 1);
      if Granted(After(before, rows), own[|own| - 1]) then Woven(rounds, own) else before
  }

  ghost predicate Ran(rows: Table, own: seq<Event>, rounds: seq<Moment>, run: seq<Event>)
    requires |own| <= |rounds|
  {
    run == EndOf(rows, own, rounds)
  }

  /** The call's last transaction is an event of the run and was granted a slot no later than `at`. */
  ghost predicate WentAhead(rows: Table, own: seq<Event>, rounds: seq<Moment>, run: seq<Event>, at: real)
    requires |own| <= |rounds|
  {
    && own != []
    && var place := |Reserving(rounds, own, |own| - 1)|;
       && place < |run| && run[place] == own[|own| - 1]
       && Granted(After(run[..place], rows), run[place])
       && ScheduledAt(run, rows, place) <= at
  }

  lemma WovenGrows(rounds: seq<Moment>, own: seq<Event>, e: Event)
    requires |own| < |rounds|
    ensures Reserving(rounds, own + [e], |own|) == Woven(rounds, own) + rounds[|own|].before
    ensures Woven(rounds, own + [e])
         == Woven(rounds, own) + rounds[|own|].before + [e] + rounds[|own|].meanwhile
    ensures forall k | 0 <= k < |own| :: Reserving(rounds, own + [e], k) == Reserving(rounds, own, k)
  {
    assert (own + [e])[..|own|] == own;
    forall k | 0 <= k < |own| ensures (own + [e])[..k] == own[..k] {
    }
  }

  method Normalize(scopes: seq<Scope>) returns (normal: seq<Scope>)
    requires forall s | s in scopes :: WellFormed(s)
    ensures IsNormalForm(normal, scopes)
  {
    var byName := ByName(scopes);
    normal := [];
    var names := byName.Keys;
    while names != {}
      invariant Normalized(normal) && names <= byName.Keys
      invariant forall s | s in normal :: s.name in byName && byName[s.name] == s && s.name !in names
      invariant forall n | n in byName && n !in names :: byName[n] in normal
      decreases names
    {
      var n :| n in names;
      names := names - {n};
      normal := normal + [byName[n]];
    }
    forall s | s in scopes ensures Names(normal, s.name) {
      assert byName[s.name] in normal;
    }
  }

  method ByName(scopes: seq<Scope>) returns (byName: map<string, Scope>)
    ensures forall s | s in scopes :: s.name in byName && Interval(s) <= Interval(byName[s.name])
    ensures forall n | n in byName :: byName[n] in scopes && byName[n].name == n
  {
    byName := map[];
    for i := 0 to |scopes|
      invariant forall k | 0 <= k < i ::
                  scopes[k].name in byName && Interval(scopes[k]) <= Interval(byName[scopes[k].name])
      invariant forall n | n in byName :: byName[n] in scopes && byName[n].name == n
    {
      var s := scopes[i];
      if s.name !in byName || Interval(s) > Interval(byName[s.name]) {
        byName := byName[s.name := s];
      }
    }
  }

  lemma TableAfterRound(rows: Table, rounds: seq<Moment>, own: seq<Event>, e: Event, now: Table)
    requires |own| < |rounds| && now == After(Woven(rounds, own), rows)
    ensures
      var m, before := rounds[|own|], After(rounds[|own|].before, now);
      && After(Reserving(rounds, own + [e], |own|), rows) == before
      && After(Woven(rounds, own + [e]), rows) == After(m.meanwhile, Next(before, e))
  {
    var m, run := rounds[|own|], Woven(rounds, own);
    WovenGrows(rounds, own, e);
    AfterJoins(run, m.before, rows);
    AfterOneMore(run + m.before, e, rows);
    AfterJoins(run + m.before + [e], m.meanwhile, rows);
  }

  lemma OneMoreRound(rows: Table, rounds: seq<Moment>, own: seq<Event>, e: Event, maxBlock: real, w: WaitResult)
    requires |own| < |rounds| && AllHeld(rows, own, rounds, maxBlock)
    requires w == RoundResult(After(Reserving(rounds, own + [e], |own|), rows), e, rounds[|own|], maxBlock)
    ensures w.StillWaiting? ==> AllHeld(rows, own + [e], rounds, maxBlock)
    ensures !w.StillWaiting? ==> Waited(rows, own + [e], rounds, maxBlock, w)
  {
    WovenGrows(rounds, own, e);
    forall k | 0 <= k <= |own|
      ensures RoundResult(After(Reserving(rounds, own + [e], k), rows), (own + [e])[k], rounds[k], maxBlock)
           == if k < |own| then StillWaiting else w
    {
      if k < |own| {
        assert (own + [e])[k] == own[k];
      }
    }
  }

  lemma AfterOneMore(events: seq<Event>, e: Event, rows: Table)
    ensures After(events + [e], rows) == Next(After(events, rows), e)
  {
    assert (events + [e])[..|events|] == events;
  }

  lemma AllHeldRan(rows: Table, own: seq<Event>, rounds: seq<Moment>, maxBlock: real)
    requires |own| <= |rounds| && AllHeld(rows, own, rounds, maxBlock)
    ensures Ran(rows, own, rounds, Woven(rounds, own))
  {
    if own != [] {
      assert RoundResult(After(Reserving(rounds, own, |own| - 1), rows), own[|own| - 1], rounds[|own| - 1], maxBlock)
          == StillWaiting;
    }
  }

  lemma RoundEnds(rows: Table, own: seq<Event>, rounds: seq<Moment>, maxBlock: real, scopes: seq<Scope>,
                  run: seq<Event>, w: WaitResult)
    requires own != [] && IsOwn(own, scopes, maxBlock, rounds) && Waited(rows, own, rounds, maxBlock, w)
    requires run == EndOf(rows, own, rounds)
    ensures
      var k := |own| - 1;
      var before := After(Reserving(rounds, own, k), rows);
      After(run, rows)
      == if Granted(before, own[k]) then After(rounds[k].meanwhile, Next(before, own[k])) else before
    ensures w.Ready? ==> WentAhead(rows, own, rounds, run, w.at)
    ensures
      var at := After(run, rows);
      w.Ready? ==> forall s | s in scopes && s.name in at :: at[s.name].cooldownUntil <= w.at
    ensures w.Deferred? ==> MaxR(0.0, maxBlock) < w.retryAfter
  {
    var k := |own| - 1;
    var m, e, prefix := rounds[k], own[k], Reserving(rounds, own, k);
    var before := After(prefix, rows);
    assert RoundResult(before, e, m, maxBlock) == w;
    ResultBounds(before, e, m, maxBlock, scopes);
    AfterOneMore(prefix, e, rows);
    AfterJoins(prefix + [e], m.meanwhile, rows);
    if Granted(before, e) {
      assert run == prefix + [e] + m.meanwhile;
      assert run[..|prefix|] == prefix && run[|prefix|] == e;
    }
  }

  lemma ResultBounds(rows: Table, e: Event, m: Moment, maxBlock: real, scopes: seq<Scope>)
    requires e.Reserve? && e.maxWait == Some(MaxR(0.0, maxBlock)) && IsNormalForm(e.scopes, scopes)
    ensures
      var w, at := RoundResult(rows, e, m, maxBlock), After(m.meanwhile, Next(rows, e));
      && (w.Ready? ==>
            && Granted(rows, e) && Scheduled(rows, e.scopes, e.now) <= w.at
            && forall s | s in scopes && s.name in at :: at[s.name].cooldownUntil <= w.at)
      && (w.Deferred? ==> MaxR(0.0, maxBlock) < w.retryAfter)
  {
    var at, woken := After(m.meanwhile, Next(rows, e)), MaxR(m.wokenAt, Scheduled(rows, e.scopes, e.now));
    ScheduledBounds(rows, e.scopes, e.now);
    CooledUntilBounds(at, scopes, woken);
    CooledUntilOfNormalForm(at, e.scopes, scopes, woken);
  }

  class SharedApiRateLimiter {
    var rows: Table

    constructor ()
      ensures rows == map[]
    {
      rows := map[];
    }

    /** One transaction: take a permit of every scope at the first free time, or change nothing when that is
        too far off. */
    method Reserve(scopes: seq<Scope>, now: real, maxWait: Option<real>) returns (r: Reservation, ghost e: Event)
      requires forall s | s in scopes :: WellFormed(s)
      modifies this
      ensures e.Reserve? && e.now == now && e.maxWait == maxWait && IsNormalForm(e.scopes, scopes)
      ensures rows == Next(old(rows), e)
      ensures r.deferred <==> !Granted(old(rows), e)
      ensures r.deferred ==> rows == old(rows) && maxWait.Some?
      ensures r.scheduledAt == Scheduled(old(rows), e.scopes, now) && r.waitSeconds == r.scheduledAt - now >= 0.0
    {
      var normal := Normalize(scopes);
      e := Event.Reserve(normal, now, maxWait);
      var scheduledAt := FirstFree(normal, now);
      ScheduledBounds(rows, normal, now);
      var wait := MaxR(0.0, scheduledAt - now);
      r := Reservation(scheduledAt, wait, false);
      if maxWait.Some? && wait > MaxR(0.0, maxWait.value) {
        r := r.(deferred := true);
        return;
      }
      TakePermits(normal, scheduledAt);
    }

    method FirstFree(normal: seq<Scope>, now: real) returns (scheduledAt: real)
      ensures scheduledAt == Scheduled(rows, normal, now)
    {
      scheduledAt := now;
      for i := 0 to |normal|
        invariant scheduledAt == Scheduled(rows, normal[..i], now)
      {
        assert normal[..i + 1][..i] == normal[..i];
        if normal[i].name in rows {
          var row := rows[normal[i].name];
          scheduledAt := MaxR(MaxR(scheduledAt, row.nextPermit), row.cooldownUntil);
        }
      }
      assert normal[..|normal|] == normal;
    }

    method TakePermits(normal: seq<Scope>, at: real)
      modifies this
      ensures rows == Permitted(old(rows), normal, at)
    {
      var state := rows;
      for i := 0 to |normal|
        invariant rows == Permitted(state, normal[..i], at)
      {
        assert normal[..i + 1][..i] == normal[..i];
        var s := normal[i];
        rows := rows[s.name := Permit(Lookup(state, s.name), at, Interval(s))];
      }
      assert normal[..|normal|] == normal;
    }

    /** One round: reserve, sleep until the slot, and look whether a cooldown is under way by then. */
    method Round(normal: seq<Scope>, maxBlock: real, m: Moment) returns (w: WaitResult, ghost e: Event)
      requires forall s | s in normal :: WellFormed(s)
      modifies this
      ensures e.Reserve? && e.now == m.now && e.maxWait == Some(MaxR(0.0, maxBlock)) && IsNormalForm(e.scopes, normal)
      ensures w == RoundResult(After(m.before, old(rows)), e, m, maxBlock)
      ensures
        var before := After(m.before, old(rows));
        rows == if Granted(before, e) then After(m.meanwhile, Next(before, e)) else before
    {
      rows := After(m.before, rows);
      var r: Reservation;
      r, e := Reserve(normal, m.now, Some(MaxR(0.0, maxBlock)));
      if r.deferred {
        return Deferred(r.waitSeconds), e;
      }
      var woken := MaxR(m.wokenAt, r.scheduledAt);
      rows := After(m.meanwhile, rows);
      var cooldownWait := CooledUntil(rows, normal, woken) - woken;
      CooledUntilOfNormalForm(rows, e.scopes, normal, woken);
      if cooldownWait <= 0.0 {
        w := Ready(woken);
      } else if cooldownWait > MaxR(0.0, maxBlock) {
        w := Deferred(cooldownWait);
      } else {
        w := StillWaiting;
      }
    }

    /** `wait`: reserve, sleep until the slot, and go ahead only if no cooldown is under way by then;
        otherwise sleep it off and reserve again. Calls blocked for too long are deferred. */
    method Wait(scopes: seq<Scope>, maxBlock: real, rounds: seq<Moment>)
      returns (w: WaitResult, ghost own: seq<Event>, ghost run: seq<Event>)
      requires forall s | s in scopes :: WellFormed(s)
      modifies this
      ensures IsOwn(own, scopes, maxBlock, rounds) && rows == After(run, old(rows))
      ensures scopes == [] ==> w.Ready? && own == [] && run == []
      ensures scopes != [] ==> Waited(old(rows), own, rounds, maxBlock, w) && Ran(old(rows), own, rounds, run)
      ensures w.Ready? && scopes != [] ==> WentAhead(old(rows), own, rounds, run, w.at)
      ensures w.Ready? ==> forall s | s in scopes && s.name in rows :: rows[s.name].cooldownUntil <= w.at
      ensures w.Deferred? ==> MaxR(0.0, maxBlock) < w.retryAfter
    {
      own, run := [], [];
      var normal := Normalize(scopes);
      SomeScope(normal, scopes);
      if normal == [] {
        return Ready(if rounds == [] then 0.0 else rounds[0].now), [], [];
      }
      for i := 0 to |rounds|
        invariant |own| == i && IsOwn(own, scopes, maxBlock, rounds)
        invariant rows == After(Woven(rounds, own), old(rows)) && AllHeld(old(rows), own, rounds, maxBlock)
      {
        w, own, run := RoundOfWait(normal, maxBlock, rounds, i, scopes, old(rows), own);
        if !w.StillWaiting? {
          return;
        }
      }
      w, run := StillWaiting, Woven(rounds, own);
      AllHeldRan(old(rows), own, rounds, maxBlock);
    }

    method RoundOfWait(normal: seq<Scope>, maxBlock: real, rounds: seq<Moment>, i: nat, ghost scopes: seq<Scope>,
                       ghost first: Table, ghost before: seq<Event>)
      returns (w: WaitResult, ghost own: seq<Event>, ghost run: seq<Event>)
      requires IsNormalForm(normal, scopes)
      requires i == |before| < |rounds| && IsOwn(before, scopes, maxBlock, rounds)
      requires rows == After(Woven(rounds, before), first) && AllHeld(first, before, rounds, maxBlock)
      modifies this
      ensures |own| == i + 1 && IsOwn(own, scopes, maxBlock, rounds)
      ensures w.StillWaiting? ==>
                rows == After(Woven(rounds, own), first) && AllHeld(first, own, rounds, maxBlock)
      ensures !w.StillWaiting? ==>
                && rows == After(run, first)
                && Waited(first, own, rounds, maxBlock, w) && Ran(first, own, rounds, run)
      ensures w.Ready? ==> WentAhead(first, own, rounds, run, w.at)
      ensures w.Ready? ==> forall s | s in scopes && s.name in rows :: rows[s.name].cooldownUntil <= w.at
      ensures w.Deferred? ==> MaxR(0.0, maxBlock) < w.retryAfter
    {
      ghost var e;
      w, e := Round(normal, maxBlock, rounds[i]);
      NormalFormOfNormalForm(e.scopes, normal, scopes);
      TableAfterRound(first, rounds, before, e, old(rows));
      OneMoreRound(first, rounds, before, e, maxBlock, w);
      own := before + [e];
      run := EndOf(first, own, rounds);
      if !w.StillWaiting? {
        RoundEnds(first, own, rounds, maxBlock, scopes, run, w);
      }
    }

    /** Every process using the scopes waits until the cooldown ends. */
    method RecordCooldown(scopes: seq<Scope>, retryAfter: real, now: real) returns (ghost e: Event)
      requires forall s | s in scopes :: WellFormed(s)
      modifies this
      ensures e.Cooldown? && e.now == now && e.retryAfter == retryAfter && IsNormalForm(e.scopes, scopes)
      ensures rows == Next(old(rows), e)
    {
      var normal := Normalize(scopes);
      e := Event.Cooldown(normal, now, retryAfter);
      var until := now + MaxR(0.0, retryAfter);
      for i := 0 to |normal|
        invariant rows == Cooled(old(rows), normal[..i], until)
      {
        assert normal[..i + 1][..i] == normal[..i];
        NotYetCooled(old(rows), normal, i, until);
        var name := normal[i].name;
        rows := rows[name := Cool(Lookup(rows, name), until)];
      }
      assert normal[..|normal|] == normal;
    }
  }

  lemma NotYetCooled(rows: Table, scopes: seq<Scope>, i: nat, until: real)
    requires Normalized(scopes) && i < |scopes|
    ensures Lookup(Cooled(rows, scopes[..i], until), scopes[i].name) == Lookup(rows, scopes[i].name)
  {
    CooledRow(rows, scopes[..i], until, scopes[i].name);
  }
}
