/** The lease queue: what each statement does to `pipeline_jobs`, and what holds over every run of
    producers, workers and maintenance. A row is named by its unique key; `id` is its `job_id`. */
module LeaseQueue {
  import opened Terms

  datatype JobType = RecentScreen | HistoryCollect | L6Validate

  type Worker = nat

  datatype Key = Key(jobType: JobType, wallet: Wallet, scope: string, action: string)

  datatype Job = Job(
    id: nat,
    priority: int,
    shard: int,
    status: JobStatus,
    owner: Option<Worker>,
    leaseUntil: int,
    attempts: int,
    maxAttempts: int,
    nextAttemptAt: int,
    updatedAt: int)

  datatype Queue = Queue(jobs: map<Key, Job>, nextId: nat)

  const EMPTY := Queue(map[], 0)

  datatype Op =
    | Enqueue(key: Key, priority: int, shard: int, maxAttempts: int, nextAttemptAt: int)
    | Claim(
        jobType: JobType, shardClaimed: int, worker: Worker, leaseSeconds: int, agingSeconds: int,
        picked: Option<Key>)
    | Complete(done: Key, completer: Worker)
    | Retry(failed: Key, retrier: Worker, retryAt: int, countAttempt: bool, failPermanently: bool)
    | Recover(cooldown: int)

  datatype Event = At(now: int, op: Op)

  // ---------- The effect of each statement ----------

  /** The guard of the upsert: a live or finished row is left alone, a failed one until its cooldown ends. */
  predicate EnqueueBlocked(j: Job, now: int) {
    j.status.Running? || j.status.Done? || j.status.TerminalFailed? || (j.status.Failed? && j.nextAttemptAt > now)
  }

  function EnqueueJob(q: Queue, key: Key, priority: int, shard: int, maxAttempts: int, nextAttemptAt: int,
                      now: int): Queue
  {
    if key !in q.jobs then
      Queue(
        q.jobs[key := Job(q.nextId, priority, shard, Queued, None, 0, 0, Max(1, maxAttempts), nextAttemptAt, now)],
        q.nextId + 1)
    else if EnqueueBlocked(q.jobs[key], now) then q
    else
      var j := q.jobs[key];
      q.(jobs := q.jobs[key := j.(
        priority := Min(j.priority, priority),
        shard := shard,
        status := Queued,
        attempts := if j.status.Failed? then 0 else j.attempts,
        maxAttempts := Max(1, maxAttempts),
        nextAttemptAt := if j.status.Failed? then nextAttemptAt else Min(j.nextAttemptAt, nextAttemptAt),
        updatedAt := now)])
  }

  predicate LeaseExpired(j: Job, now: int) {
    j.status.Running? && j.leaseUntil <= now
  }

  predicate Claimable(key: Key, j: Job, jobType: JobType, shard: int, now: int) {
    key.jobType == jobType && j.shard == shard && j.nextAttemptAt <= now && j.attempts < j.maxAttempts
    && (j.status.Queued? || LeaseExpired(j, now))
  }

  predicate Aged(j: Job, agingSeconds: int, now: int) {
    agingSeconds > 0 && j.updatedAt <= now - agingSeconds
  }

  /** The claim's `ORDER BY`: expired leases, then aged jobs oldest first, then priority, age and id. */
  predicate ClaimedBefore(a: Job, b: Job, agingSeconds: int, now: int) {
    if LeaseExpired(a, now) != LeaseExpired(b, now) then LeaseExpired(a, now)
    else if Aged(a, agingSeconds, now) != Aged(b, agingSeconds, now) then Aged(a, agingSeconds, now)
    else if Aged(a, agingSeconds, now) && a.updatedAt != b.updatedAt then a.updatedAt < b.updatedAt
    else if a.priority != b.priority then a.priority < b.priority
    else if a.updatedAt != b.updatedAt then a.updatedAt < b.updatedAt
    else a.id < b.id
  }

  /** `LIMIT 1` of the claim query. */
  predicate IsFirst(q: Queue, jobType: JobType, shard: int, agingSeconds: int, now: int, picked: Option<Key>) {
    if picked.None? then forall k | k in q.jobs :: !Claimable(k, q.jobs[k], jobType, shard, now)
    else
      && picked.value in q.jobs
      && Claimable(picked.value, q.jobs[picked.value], jobType, shard, now)
      && forall k | k in q.jobs && k != picked.value && Claimable(k, q.jobs[k], jobType, shard, now) ::
           ClaimedBefore(q.jobs[picked.value], q.jobs[k], agingSeconds, now)
  }

  function LeaseJob(q: Queue, key: Key, worker: Worker, leaseSeconds: int, now: int): Queue
    requires key in q.jobs
  {
    var j := q.jobs[key];
    q.(jobs := q.jobs[key := j.(
      status := Running, owner := Some(worker), leaseUntil := now + Max(1, leaseSeconds),
      attempts := j.attempts + 1, updatedAt := now)])
  }

  predicate Owns(q: Queue, key: Key, worker: Worker) {
    key in q.jobs && q.jobs[key].status.Running? && q.jobs[key].owner == Some(worker)
  }

  function CompleteJob(q: Queue, key: Key, worker: Worker, now: int): Queue {
    if !Owns(q, key, worker) then q
    else q.(jobs := q.jobs[key := q.jobs[key].(status := Done, owner := None, leaseUntil := 0, updatedAt := now)])
  }

  function RetryJob(
    q: Queue, key: Key, worker: Worker, retryAt: int, countAttempt: bool, failPermanently: bool, now: int): Queue
  {
    if !Owns(q, key, worker) then q
    else
      var j := q.jobs[key];
      var effective := if countAttempt then j.attempts else Max(0, j.attempts - 1);
      var failed := failPermanently || effective >= j.maxAttempts;
      q.(jobs := q.jobs[key := j.(
        status := if failPermanently then TerminalFailed else if failed then Failed else Queued,
        owner := None, leaseUntil := 0, nextAttemptAt := retryAt,
        attempts := if failPermanently then j.maxAttempts else effective,
        updatedAt := now)])
  }

  predicate Stale(j: Job, now: int) {
    LeaseExpired(j, now) || (j.status.Queued? && j.attempts >= j.maxAttempts)
  }

  function RecoveredJob(j: Job, cooldown: int, now: int): Job {
    if !Stale(j, now) then j
    else if j.attempts >= j.maxAttempts then
      j.(status := Failed, owner := None, leaseUntil := 0,
         nextAttemptAt := Max(j.nextAttemptAt, now + Max(0, cooldown)), updatedAt := now)
    else j.(status := Queued, owner := None, leaseUntil := 0, nextAttemptAt := 0, updatedAt := now)
  }

  function RecoverJobs(q: Queue, cooldown: int, now: int): Queue {
    q.(jobs := map k | k in q.jobs :: RecoveredJob(q.jobs[k], cooldown, now))
  }

  /** The event may happen now: a claim picks what its query returns, and each key keeps its budget. */
  ghost predicate Possible(q: Queue, e: Event) {
    match e.op
    case Enqueue(key, _, _, maxAttempts, _) => key in q.jobs ==> q.jobs[key].maxAttempts == Max(1, maxAttempts)
    case Claim(jobType, shard, _, _, agingSeconds, picked) => IsFirst(q, jobType, shard, agingSeconds, e.now, picked)
    case _ => true
  }

  ghost function Effect(q: Queue, e: Event): Queue
    requires Possible(q, e)
  {
    match e.op
    case Enqueue(key, priority, shard, maxAttempts, nextAt) =>
      EnqueueJob(q, key, priority, shard, maxAttempts, nextAt, e.now)
    case Claim(_, _, worker, leaseSeconds, _, picked) =>
      if picked.None? then q else LeaseJob(q, picked.value, worker, leaseSeconds, e.now)
    case Complete(key, worker) => CompleteJob(q, key, worker, e.now)
    case Retry(key, worker, retryAt, countAttempt, failPermanently) =>
      RetryJob(q, key, worker, retryAt, countAttempt, failPermanently, e.now)
    case Recover(cooldown) => RecoverJobs(q, cooldown, e.now)
  }

  /** A run under a clock that never goes back. */
  ghost predicate IsRun(events: seq<Event>, q: Queue, clock: int) {
    events == [] ||
    (clock <= events[0].now && Possible(q, events[0]) && IsRun(events[1..], Effect(q, events[0]), events[0].now))
  }

  ghost function After(events: seq<Event>, q: Queue, clock: int): Queue
    requires IsRun(events, q, clock)
  {
    if events == [] then q else After(events[1..], Effect(q, events[0]), events[0].now)
  }

  // ---------- The invariant ----------

  ghost predicate JobIsValid(j: Job, clock: int) {
    && j.updatedAt <= clock
    && 0 <= j.attempts <= j.maxAttempts && 1 <= j.maxAttempts
    && (j.owner.Some? <==> j.status.Running?)
    && (j.status.Running? ==> 1 <= j.attempts)
    && (j.status.Queued? ==> j.attempts < j.maxAttempts)
    && (j.status.Failed? ==> j.attempts == j.maxAttempts)
  }

  ghost predicate Invariant(q: Queue, clock: int) {
    && (forall k | k in q.jobs :: JobIsValid(q.jobs[k], clock) && q.jobs[k].id < q.nextId)
    && (forall k, m | k in q.jobs && m in q.jobs && k != m :: q.jobs[k].id != q.jobs[m].id)
  }

  lemma EventKeepsInvariant(q: Queue, clock: int, e: Event)
    requires Invariant(q, clock) && clock <= e.now && Possible(q, e)
    ensures Invariant(Effect(q, e), e.now)
  {
    var q' := Effect(q, e);
    forall k | k in q'.jobs
      ensures JobIsValid(q'.jobs[k], e.now) && q'.jobs[k].id < q'.nextId
      ensures k in q.jobs ==> q'.jobs[k].id == q.jobs[k].id
      ensures k !in q.jobs ==> q'.jobs[k].id == q.nextId
    {
      EventKeepsRow(q, clock, e, k);
    }
  }

  lemma EventKeepsRow(q: Queue, clock: int, e: Event, k: Key)
    requires clock <= e.now && Possible(q, e) && k in Effect(q, e).jobs
    requires k in q.jobs ==> JobIsValid(q.jobs[k], clock) && q.jobs[k].id < q.nextId
    ensures
      var q' := Effect(q, e);
      && JobIsValid(q'.jobs[k], e.now) && q'.jobs[k].id < q'.nextId
      && (k in q.jobs ==> q'.jobs[k].id == q.jobs[k].id)
      && (k !in q.jobs ==> q'.jobs[k].id == q.nextId && q'.jobs.Keys == q.jobs.Keys + {k})
  {
  }

  /** The budget over every run: a queued job can still be claimed, a failed one has spent everything. */
  lemma {:induction false} RunKeepsInvariant(events: seq<Event>, q: Queue, clock: int)
    requires Invariant(q, clock) && IsRun(events, q, clock)
    ensures Invariant(After(events, q, clock), if events == [] then clock else events[|events| - 1].now)
  {
    if events != [] {
      EventKeepsInvariant(q, clock, events[0]);
      RunKeepsInvariant(events[1..], Effect(q, events[0]), events[0].now);
    }
  }

  /** No queued job is stuck: once due, a claim of its type and shard returns some job. */
  lemma QueuedIsNeverStuck(events: seq<Event>, clock: int, key: Key, agingSeconds: int, now: int, picked: Option<Key>)
    requires IsRun(events, EMPTY, clock)
    requires
      var q := After(events, EMPTY, clock);
      key in q.jobs && q.jobs[key].status.Queued? && q.jobs[key].nextAttemptAt <= now
      && IsFirst(q, key.jobType, q.jobs[key].shard, agingSeconds, now, picked)
    ensures picked.Some?
  {
    RunKeepsInvariant(events, EMPTY, clock);
    var q := After(events, EMPTY, clock);
    assert Claimable(key, q.jobs[key], key.jobType, q.jobs[key].shard, now);
  }

  // ---------- Lease safety ----------

  /** Nothing but its owner's own complete or retry touches a job whose lease has not expired. */
  lemma {:induction false} UnexpiredLeaseIsExclusive(events: seq<Event>, q: Queue, clock: int, key: Key, worker: Worker)
    requires IsRun(events, q, clock) && Owns(q, key, worker)
    requires forall e | e in events :: e.now < q.jobs[key].leaseUntil
    requires forall e | e in events ::
               e.op != Complete(key, worker) && !(e.op.Retry? && e.op.failed == key && e.op.retrier == worker)
    ensures key in After(events, q, clock).jobs && After(events, q, clock).jobs[key] == q.jobs[key]
    ensures forall e | e in events && e.op.Claim? :: e.op.picked != Some(key)
  {
    if events != [] {
      assert events[0] in events;
      UnexpiredLeaseIsExclusive(events[1..], Effect(q, events[0]), events[0].now, key, worker);
    }
  }

  predicate ClaimsIt(e: Event, key: Key, worker: Worker) {
    e.op.Claim? && e.op.picked == Some(key) && e.op.worker == worker
  }

  /** A worker that does not own the job cannot change it until it claims it again: in particular one
      whose lease was taken over can neither complete nor retry. */
  lemma {:induction false} TakenOverWorkerIsPowerless(
    events: seq<Event>, q: Queue, clock: int, key: Key, worker: Worker, now: int,
    retryAt: int, countAttempt: bool, failPermanently: bool)
    requires IsRun(events, q, clock) && !Owns(q, key, worker)
    requires forall e | e in events :: !ClaimsIt(e, key, worker)
    ensures
      var q' := After(events, q, clock);
      && !Owns(q', key, worker)
      && CompleteJob(q', key, worker, now) == q'
      && RetryJob(q', key, worker, retryAt, countAttempt, failPermanently, now) == q'
  {
    if events != [] {
      assert events[0] in events;
      TakenOverWorkerIsPowerless(
        events[1..], Effect(q, events[0]), events[0].now, key, worker, now, retryAt, countAttempt, failPermanently);
    }
  }

  /** `retry_pipeline_job` reads the attempts in one statement and writes in another. If the worker still
      owns the job at the write and has not claimed it in between, what it read is still true. */
  lemma {:induction false} OwnershipHasNoGap(events: seq<Event>, q: Queue, clock: int, key: Key, worker: Worker)
    requires IsRun(events, q, clock)
    requires forall e | e in events :: !ClaimsIt(e, key, worker)
    requires Owns(After(events, q, clock), key, worker)
    ensures key in q.jobs && q.jobs[key] == After(events, q, clock).jobs[key]
  {
    if events != [] {
      assert events[0] in events;
      OwnershipHasNoGap(events[1..], Effect(q, events[0]), events[0].now, key, worker);
    }
  }

  predicate Finished(q: Queue, key: Key) {
    key in q.jobs && (q.jobs[key].status.Done? || q.jobs[key].status.TerminalFailed?)
  }

  /** No queue step leaves `done` or `terminal_failed`. */
  lemma {:induction false} FinishedIsFinal(events: seq<Event>, q: Queue, clock: int, key: Key)
    requires IsRun(events, q, clock) && Finished(q, key)
    ensures Finished(After(events, q, clock), key) && After(events, q, clock).jobs[key] == q.jobs[key]
    ensures Results(events, q, clock, key) == 0
  {
    if events != [] {
      FinishedIsFinal(events[1..], Effect(q, events[0]), events[0].now, key);
    }
  }

  /** The complete calls on this row that report success, and so let their caller commit a result. */
  ghost function Results(events: seq<Event>, q: Queue, clock: int, key: Key): nat
    requires IsRun(events, q, clock)
  {
    if events == [] then 0
    else
      (if events[0].op.Complete? && events[0].op.done == key && Owns(q, key, events[0].op.completer) then 1 else 0)
      + Results(events[1..], Effect(q, events[0]), events[0].now, key)
  }

  lemma {:induction false} AtMostOneResult(events: seq<Event>, q: Queue, clock: int, key: Key)
    requires IsRun(events, q, clock)
    ensures Results(events, q, clock, key) <= 1
  {
    if events != [] {
      var e := events[0];
      if e.op.Complete? && e.op.done == key && Owns(q, key, e.op.completer) {
        FinishedIsFinal(events[1..], Effect(q, e), e.now, key);
      } else {
        AtMostOneResult(events[1..], Effect(q, e), e.now, key);
      }
    }
  }

  // ---------- Attempt conservation ----------

  datatype Tally = Tally(claims: nat, refunds: nat)

  /** Claims and refunds of one row since it was created or its failed budget was reset. */
  ghost function TallyEvent(q: Queue, e: Event, key: Key, t: Tally): Tally {
    match e.op
    case Enqueue(k, _, _, _, _) =>
      if k == key && (key !in q.jobs || (q.jobs[key].status.Failed? && q.jobs[key].nextAttemptAt <= e.now))
      then Tally(0, 0) else t
    case Claim(_, _, _, _, _, picked) => if picked == Some(key) then t.(claims := t.claims + 1) else t
    case Retry(k, worker, _, countAttempt, failPermanently) =>
      if k == key && Owns(q, key, worker) && !countAttempt && !failPermanently then t.(refunds := t.refunds + 1) else t
    case _ => t
  }

  ghost function TallyAfter(events: seq<Event>, q: Queue, clock: int, key: Key, t: Tally): Tally
    requires IsRun(events, q, clock)
  {
    if events == [] then t
    else TallyAfter(events[1..], Effect(q, events[0]), events[0].now, key, TallyEvent(q, events[0], key, t))
  }

  ghost predicate Balanced(q: Queue, key: Key, t: Tally) {
    key in q.jobs && !Finished(q, key) ==> q.jobs[key].attempts == t.claims - t.refunds
  }

  lemma RetryKeepsBalance(q: Queue, clock: int, e: Event, key: Key, t: Tally)
    requires e.op.Retry? && Invariant(q, clock) && Balanced(q, key, t)
    ensures Balanced(Effect(q, e), key, TallyEvent(q, e, key, t))
  {
    if key in q.jobs {
      assert JobIsValid(q.jobs[key], clock);
    }
  }

  lemma EnqueueKeepsBalance(q: Queue, clock: int, e: Event, key: Key, t: Tally)
    requires e.op.Enqueue? && Invariant(q, clock) && Possible(q, e) && Balanced(q, key, t)
    ensures Balanced(Effect(q, e), key, TallyEvent(q, e, key, t))
  {
    if key in q.jobs {
      assert JobIsValid(q.jobs[key], clock);
    }
  }

  lemma EventKeepsBalance(q: Queue, clock: int, e: Event, key: Key, t: Tally)
    requires Invariant(q, clock) && clock <= e.now && Possible(q, e) && Balanced(q, key, t)
    ensures Balanced(Effect(q, e), key, TallyEvent(q, e, key, t))
  {
    match e.op
    case Enqueue(_, _, _, _, _) => EnqueueKeepsBalance(q, clock, e, key, t);
    case Retry(_, _, _, _, _) => RetryKeepsBalance(q, clock, e, key, t);
    case Claim(_, _, _, _, _, _) =>
    case Complete(_, _) =>
    case Recover(_) =>
  }

  lemma {:induction false} AttemptsFollowTally(events: seq<Event>, q: Queue, clock: int, key: Key, t: Tally)
    requires Invariant(q, clock) && IsRun(events, q, clock) && Balanced(q, key, t)
    ensures Balanced(After(events, q, clock), key, TallyAfter(events, q, clock, key, t))
  {
    if events != [] {
      EventKeepsInvariant(q, clock, events[0]);
      EventKeepsBalance(q, clock, events[0], key, t);
      AttemptsFollowTally(
        events[1..], Effect(q, events[0]), events[0].now, key, TallyEvent(q, events[0], key, t));
    }
  }

  /** Attempt conservation, from the empty queue. */
  lemma AttemptsAreConserved(events: seq<Event>, clock: int, key: Key)
    requires IsRun(events, EMPTY, clock)
    requires key in After(events, EMPTY, clock).jobs && !Finished(After(events, EMPTY, clock), key)
    ensures
      var (j, t) := (After(events, EMPTY, clock).jobs[key], TallyAfter(events, EMPTY, clock, key, Tally(0, 0)));
      && 0 <= j.attempts == t.claims - t.refunds <= j.maxAttempts
      && (j.status.Queued? ==> t.claims - t.refunds < j.maxAttempts)
      && (j.status.Failed? ==> t.claims - t.refunds == j.maxAttempts)
  {
    RunKeepsInvariant(events, EMPTY, clock);
    AttemptsFollowTally(events, EMPTY, clock, key, Tally(0, 0));
  }

  /** A claim followed by an upstream deferral gives the whole budget back. */
  lemma DeferralIsFree(q: Queue, clock: int, key: Key, worker: Worker, leaseSeconds: int, claimedAt: int, now: int,
                       retryAt: int)
    requires Invariant(q, clock) && clock <= claimedAt <= now
    requires key in q.jobs && q.jobs[key].status.Queued?
    ensures
      var q' := RetryJob(LeaseJob(q, key, worker, leaseSeconds, claimedAt), key, worker, retryAt, false, false, now);
      q'.jobs[key] == q.jobs[key].(leaseUntil := 0, nextAttemptAt := retryAt, updatedAt := now)
  {
  }

  // ---------- Bounded overtaking ----------

  /** Whoever is claimed ahead of an aged job holds an expired lease, or is aged and no younger. */
  lemma OvertakerIsExpiredOrOlder(q: Queue, clock: int, key: Key, agingSeconds: int, now: int, picked: Key)
    requires Invariant(q, clock)
    requires key in q.jobs && q.jobs[key].status.Queued?
             && Claimable(key, q.jobs[key], key.jobType, q.jobs[key].shard, now)
    requires Aged(q.jobs[key], agingSeconds, now)
    requires IsFirst(q, key.jobType, q.jobs[key].shard, agingSeconds, now, Some(picked)) && picked != key
    ensures LeaseExpired(q.jobs[picked], now)
            || (q.jobs[picked].status.Queued? && q.jobs[picked].updatedAt <= q.jobs[key].updatedAt)
  {
  }

  /** The queued jobs last touched no later than `since`: those that can still be claimed first. */
  ghost function Ahead(q: Queue, key: Key, since: int): set<Key> {
    set k | k in q.jobs && k != key && q.jobs[k].status.Queued? && q.jobs[k].updatedAt <= since
  }

  /** The event claims a queued job although the aged job `key` could have been claimed. */
  ghost predicate Overtakes(q: Queue, e: Event, key: Key) {
    && e.op.Claim? && key in q.jobs
    && e.op.jobType == key.jobType && e.op.shardClaimed == q.jobs[key].shard
    && q.jobs[key].status.Queued? && Claimable(key, q.jobs[key], e.op.jobType, e.op.shardClaimed, e.now)
    && Aged(q.jobs[key], e.op.agingSeconds, e.now)
    && e.op.picked.Some? && e.op.picked.value != key
    && e.op.picked.value in q.jobs && q.jobs[e.op.picked.value].status.Queued?
  }

  ghost function Overtakings(events: seq<Event>, q: Queue, clock: int, key: Key): nat
    requires IsRun(events, q, clock)
  {
    if events == [] then 0
    else (if Overtakes(q, events[0], key) then 1 else 0)
         + Overtakings(events[1..], Effect(q, events[0]), events[0].now, key)
  }

  /** The row is never written during the run. */
  ghost predicate Untouched(events: seq<Event>, q: Queue, clock: int, key: Key)
    requires IsRun(events, q, clock)
  {
    key in q.jobs &&
    (events == [] ||
     (var q' := Effect(q, events[0]);
      key in q'.jobs && q'.jobs[key] == q.jobs[key] && Untouched(events[1..], q', events[0].now, key)))
  }

  lemma EventOnlyShrinksAhead(q: Queue, clock: int, e: Event, key: Key, since: int)
    requires Invariant(q, clock) && clock <= e.now && since < e.now && Possible(q, e)
    requires key in q.jobs && q.jobs[key].updatedAt == since
    ensures Ahead(Effect(q, e), key, since) <= Ahead(q, key, since)
    ensures Overtakes(q, e, key) ==>
              e.op.picked.value in Ahead(q, key, since) && e.op.picked.value !in Ahead(Effect(q, e), key, since)
  {
    if Overtakes(q, e, key) {
      OvertakerIsExpiredOrOlder(q, clock, key, e.op.agingSeconds, e.now, e.op.picked.value);
    }
  }

  /** Bounded overtaking: however long an aged job waits untouched, queued jobs are claimed ahead of it at
      most once for each that was already ahead when it aged. */
  lemma {:induction false} OvertakingIsBounded(events: seq<Event>, q: Queue, clock: int, key: Key, since: int)
    requires Invariant(q, clock) && IsRun(events, q, clock) && Untouched(events, q, clock, key)
    requires q.jobs[key].updatedAt == since < clock
    ensures Overtakings(events, q, clock, key) + |Ahead(After(events, q, clock), key, since)| <= |Ahead(q, key, since)|
  {
    if events != [] {
      var e := events[0];
      var q' := Effect(q, e);
      EventKeepsInvariant(q, clock, e);
      EventOnlyShrinksAhead(q, clock, e, key, since);
      OvertakingIsBounded(events[1..], q', e.now, key, since);
      if Overtakes(q, e, key) {
        SubsetCount(Ahead(q', key, since), Ahead(q, key, since) - {e.op.picked.value});
      } else {
        SubsetCount(Ahead(q', key, since), Ahead(q, key, since));
      }
    }
  }

  // ---------- No aged job starves ----------

  predicate ClaimsLane(e: Event, jobType: JobType, shard: int) {
    e.op.Claim? && e.op.jobType == jobType && e.op.shardClaimed == shard
  }

  /** The claims of one job type and shard. */
  function LaneClaims(events: seq<Event>, jobType: JobType, shard: int): nat {
    if events == [] then 0
    else (if ClaimsLane(events[0], jobType, shard) then 1 else 0) + LaneClaims(events[1..], jobType, shard)
  }

  /** Every claim of the job's type and shard finds it due and aged. */
  ghost predicate AgedForAll(events: seq<Event>, j: Job, jobType: JobType) {
    forall e | e in events && ClaimsLane(e, jobType, j.shard) ::
      j.nextAttemptAt <= e.now && Aged(j, e.op.agingSeconds, e.now)
  }

  /** A job that can still be claimed before `key`: it is running, or queued and not touched since `since`. */
  predicate Contends(q: Queue, k: Key, key: Key, shard: int, since: int) {
    && k in q.jobs && k != key && k.jobType == key.jobType && q.jobs[k].shard == shard
    && (q.jobs[k].status.Running? || (q.jobs[k].status.Queued? && q.jobs[k].updatedAt <= since))
  }

  /** The attempts it has left. */
  function Share(q: Queue, k: Key, key: Key, shard: int, since: int): int {
    if Contends(q, k, key, shard, since) then q.jobs[k].maxAttempts - q.jobs[k].attempts else 0
  }

  function Budget(q: Queue, ks: seq<Key>, key: Key, shard: int, since: int): int {
    if ks == [] then 0
    else Budget(q, ks[..|ks| - 1], key, shard, since) + Share(q, ks[|ks| - 1], key, shard, since)
  }

  ghost predicate AllContenders(q: Queue, ks: seq<Key>, key: Key, shard: int, since: int) {
    forall k | Contends(q, k, key, shard, since) :: k in ks
  }

  lemma ClaimSpendsAShare(q: Queue, clock: int, e: Event, key: Key)
    requires Invariant(q, clock) && clock <= e.now && Possible(q, e)
    requires key in q.jobs && q.jobs[key].status.Queued? && q.jobs[key].updatedAt < clock
    requires q.jobs[key].nextAttemptAt <= e.now
    requires ClaimsLane(e, key.jobType, q.jobs[key].shard) && Aged(q.jobs[key], e.op.agingSeconds, e.now)
    requires key in Effect(q, e).jobs && Effect(q, e).jobs[key] == q.jobs[key]
    ensures
      var shard, since := q.jobs[key].shard, q.jobs[key].updatedAt;
      && e.op.picked.Some? && Contends(q, e.op.picked.value, key, shard, since)
      && Share(Effect(q, e), e.op.picked.value, key, shard, since)
         == Share(q, e.op.picked.value, key, shard, since) - 1
  {
    assert JobIsValid(q.jobs[key], clock);
    assert Claimable(key, q.jobs[key], key.jobType, q.jobs[key].shard, e.now);
    assert e.op.picked.Some?;
    OvertakerIsExpiredOrOlder(q, clock, key, e.op.agingSeconds, e.now, e.op.picked.value);
  }

  lemma ShareIsLeft(q: Queue, clock: int, k: Key, key: Key, shard: int, since: int)
    requires Invariant(q, clock)
    ensures 0 <= Share(q, k, key, shard, since)
  {
    if k in q.jobs {
      assert JobIsValid(q.jobs[k], clock);
    }
  }

  /** Whoever is touched without being claimed is younger than `key` from then on. */
  lemma OtherEventsShrinkShares(q: Queue, e: Event, k: Key, key: Key, shard: int, since: int)
    requires since < e.now && Possible(q, e) && !ClaimsLane(e, key.jobType, shard)
    ensures Contends(Effect(q, e), k, key, shard, since) ==> k in q.jobs && Effect(q, e).jobs[k] == q.jobs[k]
  {
  }

  lemma LaneClaimTouchesOne(q: Queue, e: Event, k: Key)
    requires e.op.Claim? && Possible(q, e) && e.op.picked != Some(k)
    ensures k in Effect(q, e).jobs <==> k in q.jobs
    ensures k in q.jobs ==> Effect(q, e).jobs[k] == q.jobs[k]
  {
  }

  /** No share grows. */
  lemma SharesOnlyShrink(q: Queue, clock: int, e: Event, key: Key, k: Key)
    requires Invariant(q, clock) && clock <= e.now && Possible(q, e)
    requires key in q.jobs && q.jobs[key].status.Queued? && q.jobs[key].updatedAt < clock
    requires q.jobs[key].nextAttemptAt <= e.now || !ClaimsLane(e, key.jobType, q.jobs[key].shard)
    requires ClaimsLane(e, key.jobType, q.jobs[key].shard) ==> Aged(q.jobs[key], e.op.agingSeconds, e.now)
    requires key in Effect(q, e).jobs && Effect(q, e).jobs[key] == q.jobs[key]
    ensures
      var shard, since := q.jobs[key].shard, q.jobs[key].updatedAt;
      && 0 <= Share(Effect(q, e), k, key, shard, since) <= Share(q, k, key, shard, since)
      && (Contends(Effect(q, e), k, key, shard, since) ==> Contends(q, k, key, shard, since))
  {
    var shard, since := q.jobs[key].shard, q.jobs[key].updatedAt;
    EventKeepsInvariant(q, clock, e);
    ShareIsLeft(q, clock, k, key, shard, since);
    ShareIsLeft(Effect(q, e), e.now, k, key, shard, since);
    if !ClaimsLane(e, key.jobType, shard) {
      OtherEventsShrinkShares(q, e, k, key, shard, since);
    } else if e.op.picked == Some(k) {
      ClaimSpendsAShare(q, clock, e, key);
    } else {
      LaneClaimTouchesOne(q, e, k);
    }
  }

  /** Shares that only shrink make a budget that only shrinks, by at least one where one does. */
  lemma {:induction false} BudgetShrinks(q: Queue, q': Queue, ks: seq<Key>, key: Key, shard: int, since: int,
                                         spent: Option<Key>)
    requires forall k :: 0 <= Share(q', k, key, shard, since) <= Share(q, k, key, shard, since)
    requires spent.Some? ==> Share(q', spent.value, key, shard, since) < Share(q, spent.value, key, shard, since)
    ensures 0 <= Budget(q', ks, key, shard, since)
    ensures Budget(q', ks, key, shard, since) + (if spent.Some? && spent.value in ks then 1 else 0)
         <= Budget(q, ks, key, shard, since)
  {
    if ks != [] {
      var init, last := ks[..|ks| - 1], ks[|ks| - 1];
      assert ks == init + [last];
      BudgetShrinks(q, q', init, key, shard, since, if spent == Some(last) then None else spent);
    }
  }

  lemma EventShrinksBudget(q: Queue, clock: int, e: Event, key: Key, ks: seq<Key>)
    requires Invariant(q, clock) && clock <= e.now && Possible(q, e)
    requires key in q.jobs && q.jobs[key].status.Queued? && q.jobs[key].updatedAt < clock
    requires AgedForAll([e], q.jobs[key], key.jobType)
    requires key in Effect(q, e).jobs && Effect(q, e).jobs[key] == q.jobs[key]
    requires AllContenders(q, ks, key, q.jobs[key].shard, q.jobs[key].updatedAt)
    ensures
      var q', shard, since := Effect(q, e), q.jobs[key].shard, q.jobs[key].updatedAt;
      && 0 <= Budget(q', ks, key, shard, since)
      && AllContenders(q', ks, key, shard, since)
      && Budget(q', ks, key, shard, since) + LaneClaims([e], key.jobType, shard) <= Budget(q, ks, key, shard, since)
  {
    var q', shard, since := Effect(q, e), q.jobs[key].shard, q.jobs[key].updatedAt;
    assert e in [e];
    assert LaneClaims([e], key.jobType, shard) == if ClaimsLane(e, key.jobType, shard) then 1 else 0;
    forall k
      ensures 0 <= Share(q', k, key, shard, since) <= Share(q, k, key, shard, since)
      ensures Contends(q', k, key, shard, since) ==> Contends(q, k, key, shard, since)
    {
      SharesOnlyShrink(q, clock, e, key, k);
    }
    if ClaimsLane(e, key.jobType, shard) {
      ClaimSpendsAShare(q, clock, e, key);
      BudgetShrinks(q, q', ks, key, shard, since, e.op.picked);
    } else {
      BudgetShrinks(q, q', ks, key, shard, since, None);
    }
  }

  /** While a due and aged job waits untouched, every claim of its type and shard spends an attempt of a job that
      was running or ahead of it: there are no more of them, re-claims of expired leases included, than those
      jobs have attempts left. */
  lemma {:induction false} ClaimsAheadAreBounded(events: seq<Event>, q: Queue, clock: int, key: Key, ks: seq<Key>)
    requires Invariant(q, clock) && IsRun(events, q, clock) && Untouched(events, q, clock, key)
    requires q.jobs[key].status.Queued? && q.jobs[key].updatedAt < clock
    requires AgedForAll(events, q.jobs[key], key.jobType)
    requires AllContenders(q, ks, key, q.jobs[key].shard, q.jobs[key].updatedAt)
    ensures LaneClaims(events, key.jobType, q.jobs[key].shard)
         <= Max(0, Budget(q, ks, key, q.jobs[key].shard, q.jobs[key].updatedAt))
  {
    if events != [] {
      var e := events[0];
      assert AgedForAll([e], q.jobs[key], key.jobType) && AgedForAll(events[1..], q.jobs[key], key.jobType);
      EventKeepsInvariant(q, clock, e);
      EventShrinksBudget(q, clock, e, key, ks);
      ClaimsAheadAreBounded(events[1..], Effect(q, e), e.now, key, ks);
      assert LaneClaims(events, key.jobType, q.jobs[key].shard)
          == LaneClaims([e], key.jobType, q.jobs[key].shard) + LaneClaims(events[1..], key.jobType, q.jobs[key].shard);
    }
  }

  /** So an aged job does not starve: one claim more and it has been touched. */
  lemma AgedJobIsServed(events: seq<Event>, q: Queue, clock: int, key: Key, ks: seq<Key>)
    requires Invariant(q, clock) && IsRun(events, q, clock)
    requires key in q.jobs && q.jobs[key].status.Queued? && q.jobs[key].updatedAt < clock
    requires AgedForAll(events, q.jobs[key], key.jobType)
    requires AllContenders(q, ks, key, q.jobs[key].shard, q.jobs[key].updatedAt)
    requires LaneClaims(events, key.jobType, q.jobs[key].shard)
           > Max(0, Budget(q, ks, key, q.jobs[key].shard, q.jobs[key].updatedAt))
    ensures !Untouched(events, q, clock, key)
  {
    if Untouched(events, q, clock, key) {
      ClaimsAheadAreBounded(events, q, clock, key, ks);
    }
  }

  // ---------- Re-enqueueing restarts the aging ----------

  /** An enqueue of a queued job makes it as young as can be, however long it has waited. */
  lemma EnqueueRestartsAging(q: Queue, key: Key, priority: int, shard: int, maxAttempts: int, nextAttemptAt: int,
                             now: int)
    requires key in q.jobs && q.jobs[key].status.Queued?
    ensures
      var j := EnqueueJob(q, key, priority, shard, maxAttempts, nextAttemptAt, now).jobs[key];
      && j.status.Queued? && j.updatedAt == now
      && forall agingSeconds, t :: Aged(j, agingSeconds, t) <==> 0 < agingSeconds && now + agingSeconds <= t
  {
  }

  const STARVED := Key(HistoryCollect, 1, "light", "collect")
  const FAVOURED := Key(HistoryCollect, 2, "light", "collect")
  const AGING := 3600

  /** A queued job of three attempts, due and touched at `now`. */
  function Waiting(id: nat, priority: int, now: int): Job {
    Job(id, priority, 0, Queued, None, 0, 0, 3, 0, now)
  }

  /** Both jobs wait; the favoured one has the better priority. */
  function TwoWaiting(starvedAt: int, favouredAt: int): Queue {
    Queue(map[STARVED := Waiting(0, 5, starvedAt), FAVOURED := Waiting(1, 0, favouredAt)], 2)
  }

  /** One second: the starved job is enqueued again, and a worker claims a job, which is deferred upstream. */
  function Second(now: int): seq<Event> {
    [At(now, Enqueue(STARVED, 5, 0, 3, 0)),
     At(now, Claim(HistoryCollect, 0, 7, 60, AGING, Some(FAVOURED))),
     At(now, Retry(FAVOURED, 7, 0, false, false))]
  }

  function Seconds(n: nat, now: int): seq<Event> {
    if n == 0 then [] else Second(now) + Seconds(n - 1, now + 1)
  }

  lemma FavouredIsFirst(now: int)
    requires 0 <= now
    ensures IsFirst(TwoWaiting(now, now - 1), HistoryCollect, 0, AGING, now, Some(FAVOURED))
  {
    var q := TwoWaiting(now, now - 1);
    assert STARVED.wallet != FAVOURED.wallet;
    assert q.jobs[STARVED] == Waiting(0, 5, now) && q.jobs[FAVOURED] == Waiting(1, 0, now - 1);
    assert ClaimedBefore(q.jobs[FAVOURED], q.jobs[STARVED], AGING, now);
  }

  lemma SecondRuns(now: int)
    requires 0 <= now
    ensures
      var (q, e) := (TwoWaiting(now - 1, now - 1), Second(now));
      var q1 := TwoWaiting(now, now - 1);
      && Possible(q, e[0]) && Effect(q, e[0]) == q1
      && Possible(q1, e[1]) && Possible(Effect(q1, e[1]), e[2])
      && Effect(Effect(q1, e[1]), e[2]) == TwoWaiting(now, now)
  {
    var (q, e, q1) := (TwoWaiting(now - 1, now - 1), Second(now), TwoWaiting(now, now - 1));
    assert STARVED.wallet != FAVOURED.wallet;
    assert Effect(q, e[0]).jobs == q1.jobs;
    FavouredIsFirst(now);
    assert Possible(q1, e[1]);
    var q2 := Effect(q1, e[1]);
    assert Effect(q2, e[2]).jobs == TwoWaiting(now, now).jobs;
  }

  /** A run with one more event in front. */
  lemma OneEventEarlier(e: Event, rest: seq<Event>, q: Queue, clock: int)
    requires clock <= e.now && Possible(q, e) && IsRun(rest, Effect(q, e), e.now)
    ensures IsRun([e] + rest, q, clock) && After([e] + rest, q, clock) == After(rest, Effect(q, e), e.now)
    ensures forall jobType, shard ::
              LaneClaims([e] + rest, jobType, shard)
              == (if ClaimsLane(e, jobType, shard) then 1 else 0) + LaneClaims(rest, jobType, shard)
  {
    assert ([e] + rest)[1..] == rest;
  }

  lemma SecondBefore(now: int, rest: seq<Event>)
    requires 0 <= now && IsRun(rest, TwoWaiting(now, now), now)
    ensures
      var q := TwoWaiting(now - 1, now - 1);
      && IsRun(Second(now) + rest, q, now - 1)
      && After(Second(now) + rest, q, now - 1) == After(rest, TwoWaiting(now, now), now)
      && LaneClaims(Second(now) + rest, HistoryCollect, 0) == 1 + LaneClaims(rest, HistoryCollect, 0)
  {
    var (q, e, q1) := (TwoWaiting(now - 1, now - 1), Second(now), TwoWaiting(now, now - 1));
    SecondRuns(now);
    OneEventEarlier(e[2], rest, Effect(q1, e[1]), now);
    OneEventEarlier(e[1], [e[2]] + rest, q1, now);
    OneEventEarlier(e[0], [e[1]] + ([e[2]] + rest), q, now - 1);
    assert e + rest == [e[0]] + ([e[1]] + ([e[2]] + rest));
  }

  lemma {:induction false} ClaimsPassOver(n: nat, now: int)
    ensures forall e | e in Seconds(n, now) && e.op.Claim? :: e.op.picked == Some(FAVOURED) != Some(STARVED)
  {
    assert STARVED.wallet != FAVOURED.wallet;
    if n > 0 {
      ClaimsPassOver(n - 1, now + 1);
      assert forall e | e in Second(now) && e.op.Claim? :: e.op.picked == Some(FAVOURED);
    }
  }

  /** A job that is enqueued again every second can be claimed at every second and never is: each claim passes it
      over for the same other job. */
  lemma {:induction false} ReenqueuedJobStarves(n: nat, now: int)
    requires 0 <= now
    ensures IsRun(Seconds(n, now), TwoWaiting(now - 1, now - 1), now - 1)
    ensures After(Seconds(n, now), TwoWaiting(now - 1, now - 1), now - 1) == TwoWaiting(now - 1 + n, now - 1 + n)
    ensures LaneClaims(Seconds(n, now), HistoryCollect, 0) == n
    ensures forall e | e in Seconds(n, now) && e.op.Claim? :: e.op.picked == Some(FAVOURED) != Some(STARVED)
    decreases n
  {
    if n > 0 {
      ReenqueuedJobStarves(n - 1, now + 1);
      SecondBefore(now, Seconds(n - 1, now + 1));
    }
    ClaimsPassOver(n, now);
  }

  // ---------- The statements ----------

  class PipelineJobs {
    var jobs: map<Key, Job>
    var nextId: nat

    constructor ()
      ensures Now() == EMPTY
    {
      jobs, nextId := map[], 0;
    }

    function Now(): Queue
      reads this
    {
      Queue(jobs, nextId)
    }

    /** Insert a queued job, or revive a queued or cooled-down failed one; report whether a row changed. */
    method Enqueue(key: Key, priority: int, shard: int, maxAttempts: int, nextAttemptAt: int, now: int)
      returns (changed: bool)
      modifies this
      ensures Now() == EnqueueJob(old(Now()), key, priority, shard, maxAttempts, nextAttemptAt, now)
      ensures changed <==> key !in old(jobs) || !EnqueueBlocked(old(jobs)[key], now)
    {
      if key !in jobs {
        jobs := jobs[key :=
          Job(nextId, priority, shard, Queued, None, 0, 0, Max(1, maxAttempts), nextAttemptAt, now)];
        nextId := nextId + 1;
        return true;
      }
      var j := jobs[key];
      if j.status.Running? || j.status.Done? || j.status.TerminalFailed? {
        return false;
      }
      if j.status.Failed? {
        if j.nextAttemptAt > now {
          return false;
        }
        j := j.(attempts := 0, nextAttemptAt := nextAttemptAt);
      } else {
        j := j.(nextAttemptAt := Min(j.nextAttemptAt, nextAttemptAt));
      }
      jobs := jobs[key := j.(
        priority := Min(j.priority, priority), shard := shard, status := Queued,
        maxAttempts := Max(1, maxAttempts), updatedAt := now)];
      changed := true;
    }

    /** Lease the first claimable job, if there is one. */
    method Claim(jobType: JobType, shard: int, worker: Worker, leaseSeconds: int, agingSeconds: int, now: int)
      returns (picked: Option<Key>)
      requires forall k, m | k in jobs && m in jobs && k != m :: jobs[k].id != jobs[m].id
      modifies this`jobs
      ensures IsFirst(old(Now()), jobType, shard, agingSeconds, now, picked)
      ensures Now() == if picked.None? then old(Now())
                       else LeaseJob(old(Now()), picked.value, worker, leaseSeconds, now)
    {
      picked := None;
      var rest := jobs.Keys;
      while rest != {}
        invariant rest <= jobs.Keys && jobs == old(jobs)
        invariant picked.Some? ==>
                    picked.value in jobs && picked.value !in rest
                    && Claimable(picked.value, jobs[picked.value], jobType, shard, now)
        invariant forall k | k in jobs && k !in rest && Claimable(k, jobs[k], jobType, shard, now) ::
                    picked.Some? && (k == picked.value || ClaimedBefore(jobs[picked.value], jobs[k], agingSeconds, now))
        decreases rest
      {
        var k :| k in rest;
        rest := rest - {k};
        if Claimable(k, jobs[k], jobType, shard, now)
           && (picked.None? || ClaimedBefore(jobs[k], jobs[picked.value], agingSeconds, now)) {
          picked := Some(k);
        }
      }
      if picked.Some? {
        var j := jobs[picked.value];
        jobs := jobs[picked.value := j.(
          status := Running, owner := Some(worker), leaseUntil := now + Max(1, leaseSeconds),
          attempts := j.attempts + 1, updatedAt := now)];
      }
    }

    /** Finish a job, only while the caller still owns its lease. */
    method Complete(key: Key, worker: Worker, now: int) returns (updated: bool)
      modifies this`jobs
      ensures Now() == CompleteJob(old(Now()), key, worker, now)
      ensures updated <==> old(Owns(Now(), key, worker))
    {
      updated := key in jobs && jobs[key].status.Running? && jobs[key].owner == Some(worker);
      if updated {
        jobs := jobs[key := jobs[key].(status := Done, owner := None, leaseUntil := 0, updatedAt := now)];
      }
    }

    /** Release a leased job for retry, or fail it after its attempt budget. */
    method Retry(key: Key, worker: Worker, retryAt: int, countAttempt: bool, failPermanently: bool, now: int)
      returns (updated: bool)
      modifies this`jobs
      ensures Now() == RetryJob(old(Now()), key, worker, retryAt, countAttempt, failPermanently, now)
      ensures updated <==> old(Owns(Now(), key, worker))
    {
      var attempts := if key in jobs then jobs[key].attempts else 0;
      var maxAttempts := if key in jobs then jobs[key].maxAttempts else 3;
      var effective := if countAttempt then attempts else Max(0, attempts - 1);
      var failed := failPermanently || (key in jobs && effective >= maxAttempts);
      updated := key in jobs && jobs[key].status.Running? && jobs[key].owner == Some(worker);
      if updated {
        var j := jobs[key].(owner := None, leaseUntil := 0, nextAttemptAt := retryAt, updatedAt := now);
        if failPermanently {
          j := j.(status := TerminalFailed, attempts := j.maxAttempts);
        } else {
          j := j.(status := if failed then Failed else Queued);
          if !countAttempt {
            j := j.(attempts := Max(0, j.attempts - 1));
          }
        }
        jobs := jobs[key := j];
      }
    }

    /** Maintenance: requeue or fail every job whose lease has expired. */
    method Recover(execute: bool, cooldown: int, now: int)
      modifies this`jobs
      ensures Now() == if execute then RecoverJobs(old(Now()), cooldown, now) else old(Now())
    {
      if !execute {
        return;
      }
      var failedRetryAt := now + Max(0, cooldown);
      var rest := jobs.Keys;
      while rest != {}
        invariant jobs.Keys == old(jobs).Keys && rest <= jobs.Keys
        invariant forall k | k in jobs ::
                    jobs[k] == if k in rest then old(jobs)[k] else RecoveredJob(old(jobs)[k], cooldown, now)
        decreases rest
      {
        var k :| k in rest;
        rest := rest - {k};
        var j := jobs[k];
        if (j.status.Running? && j.leaseUntil <= now) || (j.status.Queued? && j.attempts >= j.maxAttempts) {
          var exhausted := j.attempts >= j.maxAttempts;
          jobs := jobs[k := j.(
            status := if exhausted then Failed else Queued, owner := None, leaseUntil := 0,
            nextAttemptAt := if exhausted then Max(j.nextAttemptAt, failedRetryAt) else 0,
            updatedAt := now)];
        }
      }
    }
  }
}
