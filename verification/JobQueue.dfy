/**
 The job queue (src/queue/jobs.rs, src/queue/types.rs): workers read a due job, claim it by
 revision, and an executor task writes the outcome back. `JobsCollection` holds the documents
 the workers update; `Apply` interleaves the atomic steps of any number of workers.
 */
module JobQueue {
  import opened Numbers
  import opened Wrappers

  const DAY: nat := 86400

  type I32 = i: int | -0x8000_0000 <= i < 0x8000_0000

  datatype Status = Pending | Running | Completed | Failed

  datatype Job = Job(
    status: Status,
    priority: I32,
    retryCount: nat,
    maxRetries: I32,
    runAt: nat,
    startedAt: Option<nat>,
    completedAt: Option<nat>,
    lastError: Option<string>)

  datatype Stored = Stored(job: Job, rev: nat)

  /** What a worker read: the document, its revision and the time the query compared against. */
  datatype Snapshot = Snapshot(id: string, stored: Stored, now: nat)

  /** A spawned executor with its own copy of the job. */
  datatype Task = Task(id: string, job: Job)

  datatype Outcome = Success | Failure(error: string)

  datatype Docs = Docs(docs: map<string, Stored>, nextRev: nat)

  /** The cast of a signed limit to an unsigned one: negative limits become huge. */
  function AsU32(i: I32): nat {
    if i < 0 then i + U32_LIMIT else i
  }

  function Pow2(n: nat): nat {
    if n == 0 then 1 else 2 * Pow2(n - 1)
  }

  /** The delay before retry r, in 64-bit arithmetic that wraps. */
  function Delay(r: nat): nat {
    Min((10 * (Pow2(r) % U64_LIMIT)) % U64_LIMIT, DAY)
  }

  /** A document update merges: fields that serialize to nothing keep their stored value. */
  function Merged(stored: Job, job: Job): Job {
    job.(startedAt := if job.startedAt.Some? then job.startedAt else stored.startedAt,
         completedAt := if job.completedAt.Some? then job.completedAt else stored.completedAt)
  }

  function Claimed(job: Job, millis: nat): Job {
    job.(status := Running, startedAt := Some(millis))
  }

  function Finished(job: Job, outcome: Outcome, secs: nat, millis: nat): Job {
    match outcome
    case Success => job.(status := Completed, completedAt := Some(millis), lastError := None)
    case Failure(e) =>
      var failed := job.(retryCount := (job.retryCount + 1) % U32_LIMIT, lastError := Some(e));
      if failed.retryCount < AsU32(job.maxRetries) then
        failed.(status := Pending, startedAt := None, runAt := secs + Delay(failed.retryCount))
      else
        failed.(status := Failed, completedAt := Some(millis))
  }

  predicate Due(job: Job, now: nat) {
    job.status == Pending && job.runAt <= now
  }

  /** The worker's query: a due job no other due job outranks. */
  ghost predicate Selected(d: Docs, now: nat, id: string) {
    && id in d.docs && Due(d.docs[id].job, now)
    && forall o :: o in d.docs && Due(d.docs[o].job, now) ==> d.docs[o].job.priority <= d.docs[id].job.priority
  }

  predicate Current(d: Docs, found: Snapshot) {
    found.id in d.docs && d.docs[found.id].rev == found.stored.rev
  }

  function Write(d: Docs, id: string, job: Job): Docs
    requires id in d.docs
  {
    Docs(d.docs[id := Stored(Merged(d.docs[id].job, job), d.nextRev)], d.nextRev + 1)
  }

  function AfterClaim(d: Docs, found: Snapshot, millis: nat): Docs {
    if Current(d, found) then Write(d, found.id, Claimed(found.stored.job, millis)) else d
  }

  function AfterFinish(d: Docs, task: Task, outcome: Outcome, secs: nat, millis: nat): Docs {
    if task.id in d.docs then Write(d, task.id, Finished(task.job, outcome, secs, millis)) else d
  }

  // ---------------------------------------------------------------------------
  // The collection, updated in place
  // ---------------------------------------------------------------------------

  class JobsCollection {
    var docs: map<string, Stored>
    var nextRev: nat

    ghost function Contents(): Docs
      reads this
    {
      Docs(docs, nextRev)
    }

    constructor ()
      ensures Contents() == Docs(map[], 0)
    {
      docs, nextRev := map[], 0;
    }

    method Update(key: string, data: Job) returns (ok: bool)
      modifies this
      ensures ok <==> key in old(docs)
      ensures Contents() == if ok then Write(old(Contents()), key, data) else old(Contents())
    {
      ok := key in docs;
      if ok {
        docs, nextRev := docs[key := Stored(Merged(docs[key].job, data), nextRev)], nextRev + 1;
      }
    }

    method UpdateWithRev(key: string, expected: nat, data: Job) returns (ok: bool)
      modifies this
      ensures ok <==> key in old(docs) && old(docs)[key].rev == expected
      ensures Contents() == if ok then Write(old(Contents()), key, data) else old(Contents())
    {
      ok := key in docs && docs[key].rev == expected;
      if ok {
        ok := Update(key, data);
      }
    }

    /** The claim half of `check_jobs`; a task is spawned only when the claim wins. */
    method Claim(found: Snapshot, millis: nat) returns (task: Option<Task>)
      modifies this
      ensures Contents() == AfterClaim(old(Contents()), found, millis)
      ensures task == if Current(old(Contents()), found) then Some(Task(found.id, Claimed(found.stored.job, millis)))
                      else None
    {
      var job := found.stored.job;
      job := job.(status := Running);
      job := job.(startedAt := Some(millis));
      var won := UpdateWithRev(found.id, found.stored.rev, job);
      task := if won then Some(Task(found.id, job)) else None;
    }

    /** The tail of the spawned task: record the outcome and write the whole job back. */
    method WriteBack(task: Task, outcome: Outcome, secs: nat, millis: nat)
      modifies this
      ensures Contents() == AfterFinish(old(Contents()), task, outcome, secs, millis)
    {
      var job := task.job;
      match outcome {
        case Success =>
          job := job.(status := Completed);
          job := job.(completedAt := Some(millis));
          job := job.(lastError := None);
        case Failure(e) =>
          job := job.(retryCount := (job.retryCount + 1) % U32_LIMIT);
          job := job.(lastError := Some(e));
          if job.retryCount < AsU32(job.maxRetries) {
            job := job.(status := Pending);
            job := job.(startedAt := None);
            var delay := (10 * (Pow2(job.retryCount) % U64_LIMIT)) % U64_LIMIT;
            delay := Min(delay, DAY);
            job := job.(runAt := secs + delay);
          } else {
            job := job.(status := Failed);
            job := job.(completedAt := Some(millis));
          }
      }
      var _ := Update(task.id, job);
    }
  }

  // ---------------------------------------------------------------------------
  // Backoff arithmetic
  // ---------------------------------------------------------------------------

  lemma {:induction false} Pow2Monotone(r: nat, s: nat)
    requires r <= s
    ensures 1 <= Pow2(r) <= Pow2(s)
    decreases s
  {
    if r < s {
      Pow2Monotone(r, s - 1);
    } else if r > 0 {
      Pow2Monotone(r - 1, r - 1);
    }
  }

  lemma Pow2PlusTen(n: nat)
    ensures Pow2(n + 10) == 1024 * Pow2(n)
  {
    assert Pow2(n + 2) == 4 * Pow2(n);
    assert Pow2(n + 4) == 4 * Pow2(n + 2);
    assert Pow2(n + 6) == 4 * Pow2(n + 4);
    assert Pow2(n + 8) == 4 * Pow2(n + 6);
  }

  lemma Pow2Landmarks()
    ensures Pow2(60) == 0x1000_0000_0000_0000 && Pow2(61) == 0x2000_0000_0000_0000
    ensures Pow2(62) == 0x4000_0000_0000_0000 && Pow2(63) == 0x8000_0000_0000_0000
    ensures Pow2(64) == U64_LIMIT
  {
    Pow2PlusTen(0);
    Pow2PlusTen(10);
    Pow2PlusTen(20);
    Pow2PlusTen(30);
    Pow2PlusTen(40);
    Pow2PlusTen(50);
  }

  lemma TwiceVanishes(x: nat)
    requires x % U64_LIMIT == 0
    ensures (2 * x) % U64_LIMIT == 0
  {
    assert 2 * x == U64_LIMIT * (2 * (x / U64_LIMIT));
  }

  lemma {:induction false} Pow2Vanishes(r: nat)
    requires r >= 64
    ensures Pow2(r) % U64_LIMIT == 0
  {
    if r == 64 {
      Pow2Landmarks();
    } else {
      Pow2Vanishes(r - 1);
      TwiceVanishes(Pow2(r - 1));
    }
  }

  /** The product is free of overflow exactly up to exponent 60. */
  lemma ProductFitsIff(r: nat)
    ensures 10 * Pow2(r) < U64_LIMIT <==> r <= 60
  {
    Pow2Landmarks();
    if r <= 60 {
      Pow2Monotone(r, 60);
    } else {
      Pow2Monotone(61, r);
    }
  }

  /** The delay the arithmetic is meant to give. */
  function Backoff(r: nat): nat {
    Min(10 * Pow2(r), DAY)
  }

  lemma DelayExactLow(r: nat)
    requires r <= 60
    ensures Delay(r) == Backoff(r)
  {
    ProductFitsIff(r);
    var p := Pow2(r);
    assert p % U64_LIMIT == p && (10 * p) % U64_LIMIT == 10 * p;
  }

  lemma DelayAtSixties()
    ensures Delay(61) == Delay(62) == DAY && Delay(63) == 0
  {
    Pow2Landmarks();
    assert (10 * 0x2000_0000_0000_0000) % U64_LIMIT == 0x4000_0000_0000_0000;
    assert (10 * 0x4000_0000_0000_0000) % U64_LIMIT == 0x8000_0000_0000_0000;
    assert (10 * 0x8000_0000_0000_0000) % U64_LIMIT == 0;
  }

  lemma DelayVanishes(r: nat)
    requires r >= 64
    ensures Delay(r) == 0
  {
    Pow2Vanishes(r);
    var m := Pow2(r) % U64_LIMIT;
    assert 10 * m == 0;
  }

  lemma BackoffHigh(r: nat)
    requires r > 60
    ensures Backoff(r) == DAY
  {
    ProductFitsIff(r);
  }

  /** The delay is the intended one exactly up to retry 62; from 63 on it collapses to zero. */
  lemma DelayExactIff(r: nat)
    ensures Delay(r) == Backoff(r) <==> r <= 62
    ensures r >= 63 ==> Delay(r) == 0
  {
    if r <= 60 {
      DelayExactLow(r);
    } else {
      BackoffHigh(r);
      if r >= 64 {
        DelayVanishes(r);
      } else {
        DelayAtSixties();
        assert r == 61 || r == 62 || r == 63;
      }
    }
  }

  lemma DelaysGrow(r: nat, s: nat)
    requires r <= s <= 62
    ensures Delay(r) <= Delay(s)
  {
    DelayExactIff(r);
    DelayExactIff(s);
    Pow2Monotone(r, s);
  }

  // ---------------------------------------------------------------------------
  // Runs of any number of workers
  // ---------------------------------------------------------------------------

  /** A worker is between sampling the time and querying, or holds what the query returned. */
  datatype Worker = Looking(now: nat) | Holding(found: Snapshot)

  /** Started: claimed, with its due time and time stamp. Retried: failed and put back. Ended: over. */
  datatype Event =
    | Started(id: string, at: nat, due: nat, millis: nat)
    | Retried(id: string, at: nat, retry: nat, error: string)
    | Ended(id: string, outcome: Outcome, millis: nat)

  /** `limits` remembers every job ever inserted with its retry limit, `log` what happened when. */
  datatype Queue = Queue(
    store: Docs,
    workers: map<nat, Worker>,
    tasks: seq<Task>,
    clock: nat,
    limits: map<string, I32>,
    log: seq<Event>)

  datatype Action =
    | Enqueue(id: string, job: Job)
    | Delete(id: string)
    | Wall(time: nat)
    | Sample(worker: nat)
    | Query(worker: nat, id: string)
    | Nothing(worker: nat)
    | Claim(worker: nat, millis: nat)
    | Finish(task: nat, outcome: Outcome, millis: nat)

  const INITIAL := Queue(Docs(map[], 0), map[], [], 0, map[], [])

  ghost predicate Enabled(q: Queue, a: Action) {
    match a
    case Enqueue(id, job) =>
      && id !in q.limits && job.status == Pending && job.retryCount == 0
      && job.startedAt == None && job.completedAt == None && job.lastError == None
    case Delete(id) => true
    case Wall(time) => true
    case Sample(w) => w !in q.workers
    case Query(w, id) => w in q.workers && q.workers[w].Looking? && Selected(q.store, q.workers[w].now, id)
    case Nothing(w) => w in q.workers && q.workers[w].Looking?
    case Claim(w, millis) => w in q.workers && q.workers[w].Holding?
    case Finish(k, outcome, millis) => k < |q.tasks|
  }

  function Insert(d: Docs, id: string, job: Job): Docs {
    Docs(d.docs[id := Stored(job, d.nextRev)], d.nextRev + 1)
  }

  function Claiming(q: Queue, w: nat, found: Snapshot, millis: nat): Queue {
    var q' := q.(workers := q.workers - {w}, store := AfterClaim(q.store, found, millis));
    if Current(q.store, found) then
      q'.(tasks := q.tasks + [Task(found.id, Claimed(found.stored.job, millis))],
          log := q.log + [Started(found.id, q.clock, found.stored.job.runAt, millis)])
    else q'
  }

  /** What the log says about a finished attempt. */
  function Noted(task: Task, outcome: Outcome, secs: nat, millis: nat): Event {
    var job := Finished(task.job, outcome, secs, millis);
    if outcome.Failure? && job.status == Pending then Retried(task.id, secs, job.retryCount, outcome.error)
    else Ended(task.id, outcome, millis)
  }

  function Finishing(q: Queue, k: nat, outcome: Outcome, millis: nat): Queue
    requires k < |q.tasks|
  {
    q.(tasks := q.tasks[..k] + q.tasks[k + 1..],
       store := AfterFinish(q.store, q.tasks[k], outcome, q.clock, millis),
       log := q.log + [Noted(q.tasks[k], outcome, q.clock, millis)])
  }

  ghost function Apply(q: Queue, a: Action): Queue
    requires Enabled(q, a)
  {
    match a
    case Enqueue(id, job) => q.(store := Insert(q.store, id, job), limits := q.limits[id := job.maxRetries])
    case Delete(id) => q.(store := q.store.(docs := q.store.docs - {id}))
    case Wall(time) => q.(clock := time)
    case Sample(w) => q.(workers := q.workers[w := Looking(q.clock)])
    case Query(w, id) =>
      q.(workers := q.workers[w := Holding(Snapshot(id, q.store.docs[id], q.workers[w].now))])
    case Nothing(w) => q.(workers := q.workers - {w})
    case Claim(w, millis) => Claiming(q, w, q.workers[w].found, millis)
    case Finish(k, outcome, millis) => Finishing(q, k, outcome, millis)
  }

  ghost predicate Runs(q: Queue, acts: seq<Action>)
    decreases |acts|
  {
    acts == [] || (Enabled(q, acts[0]) && Runs(Apply(q, acts[0]), acts[1..]))
  }

  ghost function After(q: Queue, acts: seq<Action>): Queue
    requires Runs(q, acts)
    decreases |acts|
  {
    if acts == [] then q else After(Apply(q, acts[0]), acts[1..])
  }

  // ---------------------------------------------------------------------------
  // Counting executors and attempts
  // ---------------------------------------------------------------------------

  function Executors(tasks: seq<Task>, id: string): nat {
    if tasks == [] then 0
    else Executors(tasks[..|tasks| - 1], id) + if tasks[|tasks| - 1].id == id then 1 else 0
  }

  function Attempts(log: seq<Event>, id: string): nat {
    if log == [] then 0
    else Attempts(log[..|log| - 1], id) + if log[|log| - 1].Started? && log[|log| - 1].id == id then 1 else 0
  }

  lemma AttemptsAppend(log: seq<Event>, e: Event, id: string)
    ensures Attempts(log + [e], id) == Attempts(log, id) + if e.Started? && e.id == id then 1 else 0
  {
    assert (log + [e])[..|log|] == log;
  }

  lemma {:induction false} ExecutorsJoin(a: seq<Task>, b: seq<Task>, id: string)
    ensures Executors(a + b, id) == Executors(a, id) + Executors(b, id)
  {
    if b == [] {
      assert a + b == a;
    } else {
      ExecutorsJoin(a, b[..|b| - 1], id);
      assert (a + b)[..|a + b| - 1] == a + b[..|b| - 1];
    }
  }

  lemma ExecutorsOne(t: Task, id: string)
    ensures Executors([t], id) == if t.id == id then 1 else 0
  {
    assert [t][..0] == [];
  }

  lemma ExecutorsSpawn(tasks: seq<Task>, t: Task, id: string)
    ensures Executors(tasks + [t], id) == Executors(tasks, id) + if t.id == id then 1 else 0
  {
    assert (tasks + [t])[..|tasks|] == tasks;
  }

  lemma ExecutorsRemove(tasks: seq<Task>, k: nat, id: string)
    requires k < |tasks|
    ensures Executors(tasks, id)
         == Executors(tasks[..k] + tasks[k + 1..], id) + if tasks[k].id == id then 1 else 0
  {
    assert tasks == tasks[..k] + ([tasks[k]] + tasks[k + 1..]);
    ExecutorsJoin(tasks[..k], [tasks[k]] + tasks[k + 1..], id);
    ExecutorsJoin([tasks[k]], tasks[k + 1..], id);
    ExecutorsJoin(tasks[..k], tasks[k + 1..], id);
    ExecutorsOne(tasks[k], id);
  }

  lemma {:induction false} ExecutorsPresent(tasks: seq<Task>, t: Task)
    requires t in tasks
    ensures Executors(tasks, t.id) >= 1
  {
    if tasks[|tasks| - 1] != t {
      ExecutorsPresent(tasks[..|tasks| - 1], t);
    }
  }

  // ---------------------------------------------------------------------------
  // The invariant
  // ---------------------------------------------------------------------------

  /** Attempts allowed before the job is given up: at least one. */
  function Limit(max: I32): nat {
    if AsU32(max) == 0 then 1 else AsU32(max)
  }

  predicate Over(s: Status) {
    s == Completed || s == Failed
  }

  /** How a stored job's fields account for the attempts made at it. */
  predicate Accounts(job: Job, attempts: nat) {
    && attempts == job.retryCount + (if job.status == Running || job.status == Completed then 1 else 0)
    && (job.status != Failed ==> job.retryCount < Limit(job.maxRetries))
    && (job.status == Failed ==> attempts == Limit(job.maxRetries))
    && (job.startedAt == None <==> attempts == 0)
    && (job.completedAt.Some? <==> Over(job.status))
    && (job.lastError.Some? <==> job.retryCount > 0 && job.status != Completed)
  }

  predicate SnapshotOk(q: Queue, found: Snapshot) {
    && Due(found.stored.job, found.now)
    && found.id in q.limits
    && found.stored.rev < q.store.nextRev
    && (Current(q.store, found) ==> q.store.docs[found.id] == found.stored)
  }

  predicate TaskOk(q: Queue, t: Task) {
    && t.id in q.limits && t.job.status == Running && t.job.maxRetries == q.limits[t.id]
    && (t.id in q.store.docs ==> q.store.docs[t.id].job == t.job)
  }

  predicate StoredOk(q: Queue, id: string)
    requires id in q.store.docs
  {
    var s := q.store.docs[id];
    && s.rev < q.store.nextRev
    && id in q.limits && q.limits[id] == s.job.maxRetries
    && Accounts(s.job, Attempts(q.log, id))
    && Executors(q.tasks, id) == (if s.job.status == Running then 1 else 0)
  }

  predicate KnownOk(q: Queue, id: string)
    requires id in q.limits
  {
    Executors(q.tasks, id) <= 1 && Attempts(q.log, id) <= Limit(q.limits[id])
  }

  ghost predicate Inv(q: Queue) {
    && (forall w :: w in q.workers && q.workers[w].Holding? ==> SnapshotOk(q, q.workers[w].found))
    && (forall t :: t in q.tasks ==> TaskOk(q, t))
    && (forall id :: id in q.store.docs ==> StoredOk(q, id))
    && (forall id :: id in q.limits ==> KnownOk(q, id))
    && (forall e :: e in q.log ==> e.id in q.limits)
  }

  lemma ClaimAccounts(job: Job, millis: nat, attempts: nat)
    requires Accounts(job, attempts) && job.status == Pending
    ensures Merged(job, Claimed(job, millis)) == Claimed(job, millis)
    ensures Accounts(Claimed(job, millis), attempts + 1)
  {
  }

  lemma ClaimKeepsJob(q: Queue, w: nat, found: Snapshot, millis: nat, id: string)
    requires SnapshotOk(q, found) && Current(q.store, found)
    requires id in q.store.docs && StoredOk(q, id)
    ensures StoredOk(Claiming(q, w, found, millis), id)
  {
    ExecutorsSpawn(q.tasks, Task(found.id, Claimed(found.stored.job, millis)), id);
    AttemptsAppend(q.log, Started(found.id, q.clock, found.stored.job.runAt, millis), id);
    if id == found.id {
      ClaimAccounts(found.stored.job, millis, Attempts(q.log, id));
      assert Claiming(q, w, found, millis).store.docs[id].job == Claimed(found.stored.job, millis);
    } else {
      assert Claiming(q, w, found, millis).store.docs[id] == q.store.docs[id];
    }
  }

  lemma ClaimKeepsBounds(q: Queue, w: nat, found: Snapshot, millis: nat, id: string)
    requires SnapshotOk(q, found) && Current(q.store, found)
    requires StoredOk(q, found.id)
    requires id in q.limits && KnownOk(q, id)
    ensures KnownOk(Claiming(q, w, found, millis), id)
  {
    ExecutorsSpawn(q.tasks, Task(found.id, Claimed(found.stored.job, millis)), id);
    AttemptsAppend(q.log, Started(found.id, q.clock, found.stored.job.runAt, millis), id);
  }

  lemma ClaimKeepsTask(q: Queue, w: nat, found: Snapshot, millis: nat, t: Task)
    requires SnapshotOk(q, found) && Current(q.store, found)
    requires StoredOk(q, found.id)
    requires t in q.tasks && TaskOk(q, t)
    ensures TaskOk(Claiming(q, w, found, millis), t)
  {
    ExecutorsPresent(q.tasks, t);
  }

  lemma ClaimKeepsSnapshot(q: Queue, w: nat, found: Snapshot, millis: nat, other: Snapshot)
    requires SnapshotOk(q, other)
    ensures SnapshotOk(Claiming(q, w, found, millis), other)
  {
  }

  lemma ClaimKeeps(q: Queue, w: nat, millis: nat)
    requires Inv(q) && Enabled(q, Claim(w, millis))
    ensures Inv(Apply(q, Claim(w, millis)))
  {
    var found := q.workers[w].found;
    var q' := Claiming(q, w, found, millis);
    assert SnapshotOk(q, found);
    forall v | v in q'.workers && q'.workers[v].Holding? ensures SnapshotOk(q', q'.workers[v].found) {
      ClaimKeepsSnapshot(q, w, found, millis, q.workers[v].found);
    }
    if Current(q.store, found) {
      forall t | t in q.tasks ensures TaskOk(q', t) {
        ClaimKeepsTask(q, w, found, millis, t);
      }
      forall id | id in q'.store.docs ensures StoredOk(q', id) {
        ClaimKeepsJob(q, w, found, millis, id);
      }
      forall id | id in q'.limits ensures KnownOk(q', id) {
        ClaimKeepsBounds(q, w, found, millis, id);
      }
    } else {
      assert q' == q.(workers := q.workers - {w});
    }
  }

  lemma FinishAccounts(job: Job, outcome: Outcome, secs: nat, millis: nat, attempts: nat)
    requires Accounts(job, attempts) && job.status == Running
    ensures Accounts(Merged(job, Finished(job, outcome, secs, millis)), attempts)
    ensures Finished(job, outcome, secs, millis).status != Running
    ensures Finished(job, outcome, secs, millis).maxRetries == job.maxRetries
  {
  }

  lemma FinishKeepsJob(q: Queue, k: nat, outcome: Outcome, millis: nat, id: string)
    requires k < |q.tasks| && TaskOk(q, q.tasks[k])
    requires id in q.store.docs && StoredOk(q, id)
    ensures StoredOk(Finishing(q, k, outcome, millis), id)
  {
    var task := q.tasks[k];
    var job := Finished(task.job, outcome, q.clock, millis);
    ExecutorsRemove(q.tasks, k, id);
    AttemptsAppend(q.log, Noted(task, outcome, q.clock, millis), id);
    if id == task.id {
      FinishAccounts(task.job, outcome, q.clock, millis, Attempts(q.log, id));
      assert Finishing(q, k, outcome, millis).store.docs[id].job == Merged(task.job, job);
    } else {
      assert Finishing(q, k, outcome, millis).store.docs[id] == q.store.docs[id];
    }
  }

  lemma FinishKeepsBounds(q: Queue, k: nat, outcome: Outcome, millis: nat, id: string)
    requires k < |q.tasks|
    requires id in q.limits && KnownOk(q, id)
    ensures KnownOk(Finishing(q, k, outcome, millis), id)
  {
    ExecutorsRemove(q.tasks, k, id);
    AttemptsAppend(q.log, Noted(q.tasks[k], outcome, q.clock, millis), id);
  }

  lemma FinishKeepsTask(q: Queue, k: nat, outcome: Outcome, millis: nat, t: Task)
    requires k < |q.tasks| && t in q.tasks[..k] + q.tasks[k + 1..]
    requires TaskOk(q, t) && KnownOk(q, t.id)
    ensures TaskOk(Finishing(q, k, outcome, millis), t)
  {
    ExecutorsPresent(q.tasks[..k] + q.tasks[k + 1..], t);
    ExecutorsRemove(q.tasks, k, t.id);
  }

  lemma FinishKeeps(q: Queue, k: nat, outcome: Outcome, millis: nat)
    requires Inv(q) && k < |q.tasks|
    ensures Inv(Finishing(q, k, outcome, millis))
  {
    var q' := Finishing(q, k, outcome, millis);
    assert TaskOk(q, q.tasks[k]);
    forall t | t in q'.tasks ensures TaskOk(q', t) {
      assert t in q.tasks && TaskOk(q, t);
      FinishKeepsTask(q, k, outcome, millis, t);
    }
    forall id | id in q'.store.docs ensures StoredOk(q', id) {
      FinishKeepsJob(q, k, outcome, millis, id);
    }
    forall id | id in q'.limits ensures KnownOk(q', id) {
      FinishKeepsBounds(q, k, outcome, millis, id);
    }
  }

  lemma {:induction false} NoExecutors(q: Queue, id: string)
    requires (forall t :: t in q.tasks ==> t.id != id) && (forall e :: e in q.log ==> e.id != id)
    ensures Executors(q.tasks, id) == 0 && Attempts(q.log, id) == 0
    decreases |q.tasks| + |q.log|
  {
    if q.tasks != [] {
      NoExecutors(q.(tasks := q.tasks[..|q.tasks| - 1]), id);
    } else if q.log != [] {
      NoExecutors(q.(log := q.log[..|q.log| - 1]), id);
    }
  }

  lemma EnqueueKeeps(q: Queue, id: string, job: Job)
    requires Inv(q) && Enabled(q, Enqueue(id, job))
    ensures Inv(Apply(q, Enqueue(id, job)))
  {
    var q' := Apply(q, Enqueue(id, job));
    forall t | t in q.tasks ensures TaskOk(q', t) && t.id != id {
      assert TaskOk(q, t);
    }
    NoExecutors(q, id);
    forall o | o in q'.store.docs ensures StoredOk(q', o) {
      assert o != id ==> StoredOk(q, o);
    }
    forall o | o in q'.limits ensures KnownOk(q', o) {
      assert o != id ==> KnownOk(q, o);
    }
  }

  lemma DeleteKeeps(q: Queue, id: string)
    requires Inv(q)
    ensures Inv(Apply(q, Delete(id)))
  {
    var q' := Apply(q, Delete(id));
    forall o | o in q'.store.docs ensures StoredOk(q', o) {
      assert StoredOk(q, o);
    }
  }

  lemma StepKeeps(q: Queue, a: Action)
    requires Inv(q) && Enabled(q, a)
    ensures Inv(Apply(q, a))
  {
    match a
    case Enqueue(id, job) => EnqueueKeeps(q, id, job);
    case Claim(w, millis) => ClaimKeeps(q, w, millis);
    case Finish(k, outcome, millis) => FinishKeeps(q, k, outcome, millis);
    case Query(w, id) => assert StoredOk(q, id);
    case Delete(id) => DeleteKeeps(q, id);
    case Wall(_) =>
    case Sample(_) =>
    case Nothing(_) =>
  }

  lemma {:induction false} RunKeeps(q: Queue, acts: seq<Action>)
    requires Inv(q) && Runs(q, acts)
    ensures Inv(After(q, acts))
    decreases |acts|
  {
    if acts != [] {
      StepKeeps(q, acts[0]);
      RunKeeps(Apply(q, acts[0]), acts[1..]);
    }
  }

  // ---------------------------------------------------------------------------
  // What every run guarantees
  // ---------------------------------------------------------------------------

  /**
   In any interleaving a job never has two executors, and a stored job has one exactly while
   its stored status is running.
   */
  lemma AtMostOneExecutor(acts: seq<Action>, id: string)
    requires Runs(INITIAL, acts)
    ensures Executors(After(INITIAL, acts).tasks, id) <= 1
    ensures id in After(INITIAL, acts).store.docs ==>
              (Executors(After(INITIAL, acts).tasks, id) == 1
               <==> After(INITIAL, acts).store.docs[id].job.status == Running)
  {
    RunKeeps(INITIAL, acts);
    var q := After(INITIAL, acts);
    if id in q.limits {
      assert KnownOk(q, id);
    } else {
      forall t | t in q.tasks ensures t.id != id {
        assert TaskOk(q, t);
      }
      NoExecutors(q, id);
    }
    if id in q.store.docs {
      assert StoredOk(q, id);
    }
  }

  /**
   A job is attempted at most max(1, max_retries) times, with max_retries read as unsigned;
   a job that failed for good was attempted exactly that often.
   */
  lemma AttemptsBounded(acts: seq<Action>, id: string)
    requires Runs(INITIAL, acts) && id in After(INITIAL, acts).limits
    ensures Attempts(After(INITIAL, acts).log, id) <= Limit(After(INITIAL, acts).limits[id])
    ensures id in After(INITIAL, acts).store.docs && After(INITIAL, acts).store.docs[id].job.status == Failed ==>
              Attempts(After(INITIAL, acts).log, id) == Limit(After(INITIAL, acts).limits[id])
  {
    RunKeeps(INITIAL, acts);
    var q := After(INITIAL, acts);
    assert KnownOk(q, id);
    if id in q.store.docs {
      assert StoredOk(q, id);
    }
  }

  /**
   What a stored job tells about its past: the attempts made follow from status and retry count,
   the start time is empty only before the first attempt (a retry does not clear it), the end time
   is set exactly when the job is over, and an error is kept exactly while the last attempt failed.
   */
  lemma FieldsTellThePast(acts: seq<Action>, id: string)
    requires Runs(INITIAL, acts) && id in After(INITIAL, acts).store.docs
    ensures var q := After(INITIAL, acts);
      var job, attempts := q.store.docs[id].job, Attempts(q.log, id);
      && attempts == job.retryCount + (if job.status == Running || job.status == Completed then 1 else 0)
      && (job.startedAt == None <==> attempts == 0)
      && (job.completedAt.Some? <==> Over(job.status))
      && (job.lastError.Some? <==> job.retryCount > 0 && job.status != Completed)
  {
    RunKeeps(INITIAL, acts);
    assert StoredOk(After(INITIAL, acts), id);
  }

  lemma Prepended(q: Queue, a: Action, acts: seq<Action>)
    requires Enabled(q, a) && Runs(Apply(q, a), acts)
    ensures Runs(q, [a] + acts) && After(q, [a] + acts) == After(Apply(q, a), acts)
  {
    assert ([a] + acts)[1..] == acts;
  }

  predicate Fresh(job: Job) {
    && job.status == Pending && job.retryCount == 0 && job.runAt == 0
    && job.startedAt == None && job.completedAt == None && job.lastError == None
  }

  lemma RetryOnce(q: Queue, id: string, job: Job, error: string, millis: nat)
    requires Fresh(job) && job.maxRetries >= 2 && q.tasks == [Task(id, Claimed(job, millis))]
    requires id in q.store.docs && q.store.docs[id].job == Claimed(job, millis)
    ensures var q' := Finishing(q, 0, Failure(error), millis);
            && id in q'.store.docs && q'.store.docs[id].job.status == Pending
            && q'.store.docs[id].job.startedAt == Some(millis)
  {
  }

  /** A job that fails once and is retried: pending again, and still with the start time of the failed attempt. */
  lemma RetryKeepsStart(id: string, job: Job, error: string, millis: nat) returns (acts: seq<Action>)
    requires Fresh(job) && job.maxRetries >= 2
    ensures Runs(INITIAL, acts) && id in After(INITIAL, acts).store.docs
    ensures var again := After(INITIAL, acts).store.docs[id].job;
            again.status == Pending && again.startedAt == Some(millis)
  {
    var limits := map[id := job.maxRetries];
    var docs := Docs(map[id := Stored(job, 0)], 1);
    var q1 := Queue(docs, map[], [], 0, limits, []);
    var q2 := q1.(workers := map[0 := Looking(0)]);
    var q3 := q1.(workers := map[0 := Holding(Snapshot(id, Stored(job, 0), 0))]);
    var q4 := Claiming(q3, 0, Snapshot(id, Stored(job, 0), 0), millis);
    assert Apply(INITIAL, Enqueue(id, job)) == q1 && Apply(q1, Sample(0)) == q2;
    assert Selected(q2.store, 0, id) && Apply(q2, Query(0, id)) == q3;
    RetryOnce(q4, id, job, error, millis);
    var q5 := Finishing(q4, 0, Failure(error), millis);
    assert Runs(q5, []) && After(q5, []) == q5;
    Prepended(q4, Finish(0, Failure(error), millis), []);
    acts := [Finish(0, Failure(error), millis)] + [];
    Prepended(q3, Claim(0, millis), acts);
    acts := [Claim(0, millis)] + acts;
    Prepended(q2, Query(0, id), acts);
    acts := [Query(0, id)] + acts;
    Prepended(q1, Sample(0), acts);
    acts := [Sample(0)] + acts;
    Prepended(INITIAL, Enqueue(id, job), acts);
    acts := [Enqueue(id, job)] + acts;
  }

  lemma {:induction false} RunSplit(q: Queue, acts: seq<Action>)
    requires Runs(q, acts) && acts != []
    ensures var front, last := acts[..|acts| - 1], acts[|acts| - 1];
      Runs(q, front) && Enabled(After(q, front), last) && After(q, acts) == Apply(After(q, front), last)
    decreases |acts|
  {
    if |acts| > 1 {
      RunSplit(Apply(q, acts[0]), acts[1..]);
      assert acts[1..][..|acts| - 2] == acts[..|acts| - 1][1..];
    } else {
      assert acts[1..] == [] && acts[..0] == [];
    }
  }

  /** What a worker holds was, when it was read, a due job that no other due job outranked. */
  lemma {:induction false} HeldWasSelected(acts: seq<Action>, w: nat) returns (k: nat)
    requires Runs(INITIAL, acts)
    requires w in After(INITIAL, acts).workers && After(INITIAL, acts).workers[w].Holding?
    ensures k <= |acts| && Runs(INITIAL, acts[..k])
    ensures var found, d := After(INITIAL, acts).workers[w].found, After(INITIAL, acts[..k]).store;
      Selected(d, found.now, found.id) && d.docs[found.id] == found.stored
    decreases |acts|
  {
    var front, last := acts[..|acts| - 1], acts[|acts| - 1];
    RunSplit(INITIAL, acts);
    var q := After(INITIAL, front);
    if last.Query? && last.worker == w {
      k := |acts| - 1;
    } else {
      assert w in q.workers && q.workers[w] == After(INITIAL, acts).workers[w];
      k := HeldWasSelected(front, w);
      assert front[..k] == acts[..k];
    }
  }

  /** The bound is the signed limit exactly when that limit is positive, or one when it is zero. */
  lemma LimitIsMaxRetriesIff(max: I32)
    ensures Limit(max) == (if max < 1 then 1 else max) <==> max >= 0
    ensures max < 0 ==> Limit(max) == max + U32_LIMIT
  {
  }

  lemma OverStaysClaim(q: Queue, w: nat, found: Snapshot, millis: nat, id: string)
    requires SnapshotOk(q, found) && id in q.store.docs && Over(q.store.docs[id].job.status)
    ensures Claiming(q, w, found, millis).store.docs[id] == q.store.docs[id]
    ensures id in Claiming(q, w, found, millis).store.docs
    ensures Attempts(Claiming(q, w, found, millis).log, id) == Attempts(q.log, id)
  {
    AttemptsAppend(q.log, Started(found.id, q.clock, found.stored.job.runAt, millis), id);
  }

  lemma OverStaysFinish(q: Queue, k: nat, outcome: Outcome, millis: nat, id: string)
    requires k < |q.tasks| && TaskOk(q, q.tasks[k])
    requires id in q.store.docs && Over(q.store.docs[id].job.status)
    ensures id in Finishing(q, k, outcome, millis).store.docs
    ensures Finishing(q, k, outcome, millis).store.docs[id] == q.store.docs[id]
    ensures Attempts(Finishing(q, k, outcome, millis).log, id) == Attempts(q.log, id)
  {
    AttemptsAppend(q.log, Noted(q.tasks[k], outcome, q.clock, millis), id);
  }

  lemma OverStaysStep(q: Queue, a: Action, id: string)
    requires Inv(q) && Enabled(q, a)
    requires id in q.store.docs && Over(q.store.docs[id].job.status)
    ensures id in Apply(q, a).store.docs ==> Apply(q, a).store.docs[id] == q.store.docs[id]
    ensures Attempts(Apply(q, a).log, id) == Attempts(q.log, id)
    ensures id in Apply(q, a).limits
  {
    assert StoredOk(q, id);
    match a {
      case Claim(w, millis) => OverStaysClaim(q, w, q.workers[w].found, millis, id);
      case Finish(k, outcome, millis) => OverStaysFinish(q, k, outcome, millis, id);
      case _ =>
    }
  }

  lemma GoneStaysStep(q: Queue, a: Action, id: string)
    requires Inv(q) && Enabled(q, a)
    requires id in q.limits && id !in q.store.docs
    ensures id in Apply(q, a).limits && id !in Apply(q, a).store.docs
    ensures Attempts(Apply(q, a).log, id) == Attempts(q.log, id)
  {
    match a {
      case Claim(w, millis) =>
        var found := q.workers[w].found;
        AttemptsAppend(q.log, Started(found.id, q.clock, found.stored.job.runAt, millis), id);
      case Finish(k, outcome, millis) =>
        AttemptsAppend(q.log, Noted(q.tasks[k], outcome, q.clock, millis), id);
      case _ =>
    }
  }

  lemma {:induction false} GoneStays(q: Queue, acts: seq<Action>, id: string)
    requires Inv(q) && Runs(q, acts)
    requires id in q.limits && id !in q.store.docs
    ensures id !in After(q, acts).store.docs && Attempts(After(q, acts).log, id) == Attempts(q.log, id)
    decreases |acts|
  {
    if acts != [] {
      StepKeeps(q, acts[0]);
      GoneStaysStep(q, acts[0], id);
      GoneStays(Apply(q, acts[0]), acts[1..], id);
    }
  }

  lemma {:induction false} OverStays(q: Queue, acts: seq<Action>, id: string)
    requires Inv(q) && Runs(q, acts)
    requires id in q.store.docs && Over(q.store.docs[id].job.status)
    ensures id in After(q, acts).store.docs ==> After(q, acts).store.docs[id] == q.store.docs[id]
    ensures Attempts(After(q, acts).log, id) == Attempts(q.log, id)
    decreases |acts|
  {
    if acts != [] {
      StepKeeps(q, acts[0]);
      OverStaysStep(q, acts[0], id);
      if id in Apply(q, acts[0]).store.docs {
        OverStays(Apply(q, acts[0]), acts[1..], id);
      } else {
        GoneStays(Apply(q, acts[0]), acts[1..], id);
      }
    }
  }

  /** Completed and Failed are final: the document never changes again, only deletion removes it. */
  lemma OverIsFinal(before: seq<Action>, after: seq<Action>, id: string)
    requires Runs(INITIAL, before) && Runs(After(INITIAL, before), after)
    requires id in After(INITIAL, before).store.docs
    requires Over(After(INITIAL, before).store.docs[id].job.status)
    ensures var q, q' := After(INITIAL, before), After(After(INITIAL, before), after);
      && (id in q'.store.docs ==> q'.store.docs[id] == q.store.docs[id])
      && Attempts(q'.log, id) == Attempts(q.log, id)
  {
    RunKeeps(INITIAL, before);
    OverStays(After(INITIAL, before), after, id);
  }

  // ---------------------------------------------------------------------------
  // With a clock that does not run backwards
  // ---------------------------------------------------------------------------

  ghost predicate Forward(q: Queue, acts: seq<Action>)
    requires Runs(q, acts)
    decreases |acts|
  {
    acts == [] || ((acts[0].Wall? ==> q.clock <= acts[0].time) && Forward(Apply(q, acts[0]), acts[1..]))
  }

  predicate SeenBy(w: Worker, clock: nat) {
    (if w.Looking? then w.now else w.found.now) <= clock
  }

  /** A retry that was scheduled keeps its job waiting until it is due. */
  predicate Waits(q: Queue, e: Event) {
    e.Retried? && e.id in q.limits ==>
      && e.retry < AsU32(q.limits[e.id])
      && (e.id in q.store.docs ==>
            var job := q.store.docs[e.id].job;
            && (job.status == Pending ==> e.at + Delay(e.retry) <= job.runAt)
            && (job.status == Running ==> e.at + Delay(e.retry) <= q.clock))
  }

  predicate Spaced(e: Event, f: Event) {
    e.Retried? && f.Started? && e.id == f.id ==> e.at + Delay(e.retry) <= f.at
  }

  ghost predicate Timed(q: Queue) {
    && (forall w :: w in q.workers ==> SeenBy(q.workers[w], q.clock))
    && (forall e :: e in q.log ==> Waits(q, e) && (e.Started? ==> e.due <= e.at))
    && (forall i, j :: 0 <= i < j < |q.log| ==> Spaced(q.log[i], q.log[j]))
  }

  lemma TimedClaim(q: Queue, w: nat, millis: nat)
    requires Inv(q) && Timed(q) && Enabled(q, Claim(w, millis))
    ensures Timed(Apply(q, Claim(w, millis)))
  {
    var found := q.workers[w].found;
    assert SnapshotOk(q, found) && SeenBy(q.workers[w], q.clock);
    var q' := Claiming(q, w, found, millis);
    if Current(q.store, found) {
      var started := Started(found.id, q.clock, found.stored.job.runAt, millis);
      forall e | e in q.log ensures Waits(q', e) && Spaced(e, started) {
        assert Waits(q, e);
      }
    }
  }

  lemma TimedFinish(q: Queue, k: nat, outcome: Outcome, millis: nat)
    requires Inv(q) && Timed(q) && k < |q.tasks|
    ensures Timed(Finishing(q, k, outcome, millis))
  {
    var q' := Finishing(q, k, outcome, millis);
    assert TaskOk(q, q.tasks[k]);
    forall e | e in q'.log ensures Waits(q', e) {
      if e in q.log {
        assert Waits(q, e);
      }
    }
  }

  lemma TimedStep(q: Queue, a: Action)
    requires Inv(q) && Timed(q) && Enabled(q, a)
    requires a.Wall? ==> q.clock <= a.time
    ensures Timed(Apply(q, a))
  {
    match a
    case Claim(w, millis) => TimedClaim(q, w, millis);
    case Finish(k, outcome, millis) => TimedFinish(q, k, outcome, millis);
    case _ =>
      forall e | e in q.log ensures Waits(Apply(q, a), e) {
        assert Waits(q, e);
      }
  }

  lemma {:induction false} TimedRun(q: Queue, acts: seq<Action>)
    requires Inv(q) && Timed(q) && Runs(q, acts) && Forward(q, acts)
    ensures Timed(After(q, acts)) && Inv(After(q, acts))
    decreases |acts|
  {
    if acts != [] {
      TimedStep(q, acts[0]);
      StepKeeps(q, acts[0]);
      TimedRun(Apply(q, acts[0]), acts[1..]);
    }
  }

  /** No attempt is claimed before the job was due. */
  lemma NeverEarly(acts: seq<Action>, e: Event)
    requires Runs(INITIAL, acts) && Forward(INITIAL, acts)
    requires e in After(INITIAL, acts).log && e.Started?
    ensures e.due <= e.at
  {
    TimedRun(INITIAL, acts);
  }

  /**
   After a failed attempt that is retried, every later attempt of the job waits out the delay;
   for limits up to 63 that delay is the intended one, and up to 61 it is computed without overflow.
   */
  lemma RetriesWait(acts: seq<Action>, i: nat, j: nat)
    requires Runs(INITIAL, acts) && Forward(INITIAL, acts)
    requires i < j < |After(INITIAL, acts).log|
    requires After(INITIAL, acts).log[i].Retried? && After(INITIAL, acts).log[j].Started?
    requires After(INITIAL, acts).log[i].id == After(INITIAL, acts).log[j].id
    ensures var q := After(INITIAL, acts);
      && q.log[i].at + Delay(q.log[i].retry) <= q.log[j].at
      && q.log[i].id in q.limits
      && (0 <= q.limits[q.log[i].id] <= 63 ==> q.log[i].at + Backoff(q.log[i].retry) <= q.log[j].at)
      && (0 <= q.limits[q.log[i].id] <= 61 ==> 10 * Pow2(q.log[i].retry) < U64_LIMIT)
  {
    TimedRun(INITIAL, acts);
    var q := After(INITIAL, acts);
    assert Spaced(q.log[i], q.log[j]);
    assert q.log[i] in q.log && Waits(q, q.log[i]);
    DelayExactIff(q.log[i].retry);
    ProductFitsIff(q.log[i].retry);
  }
}
