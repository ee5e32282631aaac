/**
 Cron jobs (src/queue/cron.rs): each pass of a worker gives documents without a next run their
 first one, and claims due documents by revision before spawning a job. `CronCollection` is one
 worker's pass over the documents; `Apply` interleaves the steps of any number of workers.
 */
module Cron {
  import opened Wrappers
  import JobQueue

  datatype CronJob = CronJob(
    expression: string,
    priority: JobQueue.I32,
    maxRetries: JobQueue.I32,
    lastRun: Option<nat>,
    nextRun: Option<nat>)

  datatype Stored = Stored(cron: CronJob, rev: nat)

  datatype Docs = Docs(docs: map<string, Stored>, nextRev: nat)

  /** A document as read by a scan. */
  datatype Snapshot = Snapshot(id: string, stored: Stored)

  /** The job a won claim inserts. */
  function Spawned(cron: CronJob, now: nat): JobQueue.Job {
    JobQueue.Job(JobQueue.Pending, cron.priority, 0, cron.maxRetries, now, None, None, None)
  }

  predicate Current(d: Docs, found: Snapshot) {
    found.id in d.docs && d.docs[found.id].rev == found.stored.rev
  }

  /** A revision-checked write; the optional run times serialize as null and so overwrite. */
  function CompareAndSet(d: Docs, found: Snapshot, cron: CronJob): Docs {
    if Current(d, found) then Docs(d.docs[found.id := Stored(cron, d.nextRev)], d.nextRev + 1) else d
  }

  predicate DueAt(nextRun: Option<nat>, now: nat) {
    nextRun.Some? && nextRun.value <= now
  }

  // ---------------------------------------------------------------------------
  // One worker alone
  // ---------------------------------------------------------------------------

  /** What one pass leaves of a document, given what the schedule answers when it is visited. */
  function Visited(cron: CronJob, now: nat, upcoming: Option<nat>): CronJob {
    if DueAt(cron.nextRun, now) then cron.(lastRun := Some(now), nextRun := upcoming)
    else if cron.nextRun == None then cron.(nextRun := upcoming)
    else cron
  }

  /** The schedule's answer that counts for a document: for its first run, or for the one after a due run. */
  function Answer(found: Snapshot, first: string -> Option<nat>, next: string -> Option<nat>): Option<nat> {
    if found.stored.cron.nextRun == None then first(found.id) else next(found.id)
  }

  class CronCollection {
    var docs: map<string, Stored>
    var nextRev: nat
    var jobs: seq<(string, JobQueue.Job)>

    ghost predicate Valid()
      reads this
    {
      forall id :: id in docs ==> docs[id].rev < nextRev
    }

    method UpdateWithRev(key: string, expected: nat, cron: CronJob) returns (ok: bool)
      modifies this
      requires Valid()
      ensures Valid() && jobs == old(jobs)
      ensures ok <==> Current(Docs(old(docs), old(nextRev)), Snapshot(key, Stored(cron, expected)))
      ensures Docs(docs, nextRev)
           == CompareAndSet(Docs(old(docs), old(nextRev)), Snapshot(key, Stored(cron, expected)), cron)
    {
      ok := key in docs && docs[key].rev == expected;
      if ok {
        docs, nextRev := docs[key := Stored(cron, nextRev)], nextRev + 1;
      }
    }

    /** The body of the scan loop for one document that nobody else touches meanwhile. */
    method Visit(found: Snapshot, now: nat, first: Option<nat>, next: Option<nat>)
      requires Valid() && found.id in docs && docs[found.id] == found.stored
      modifies this
      ensures Valid() && docs.Keys == old(docs).Keys
      ensures forall o :: o in docs && o != found.id ==> docs[o] == old(docs)[o]
      ensures docs[found.id].cron
           == Visited(found.stored.cron, now, if found.stored.cron.nextRun == None then first else next)
      ensures jobs == old(jobs) + if DueAt(found.stored.cron.nextRun, now)
                                  then [(found.id, Spawned(found.stored.cron, now))] else []
    {
      var cron := found.stored.cron;
      var shouldRun := false;
      if cron.nextRun == None {
        if first.Some? {
          cron := cron.(nextRun := first);
          var _ := UpdateWithRev(found.id, found.stored.rev, cron);
        }
      }
      if cron.nextRun.Some? && cron.nextRun.value <= now {
        shouldRun := true;
      }
      if shouldRun {
        var claimed := cron.(lastRun := Some(now), nextRun := next);
        var won := UpdateWithRev(found.id, found.stored.rev, claimed);
        if won {
          jobs := jobs + [(found.id, Spawned(cron, now))];
        }
      }
    }

    /**
     A whole pass over the scanned documents: every document ends up as `Visited` says, and the
     jobs inserted are those of the due documents, in scan order.
     */
    method CheckCronJobs(scan: seq<Snapshot>, now: nat, first: string -> Option<nat>, next: string -> Option<nat>)
      requires Valid()
      requires forall i :: 0 <= i < |scan| ==> scan[i].id in docs && docs[scan[i].id] == scan[i].stored
      requires forall i, j :: 0 <= i < j < |scan| ==> scan[i].id != scan[j].id
      modifies this
      ensures Valid() && docs.Keys == old(docs).Keys
      ensures forall i :: 0 <= i < |scan| ==>
        docs[scan[i].id].cron == Visited(scan[i].stored.cron, now, Answer(scan[i], first, next))
      ensures jobs == old(jobs) + DueJobs(scan, now)
    {
      var k := 0;
      while k < |scan|
        invariant 0 <= k <= |scan|
        invariant Valid() && docs.Keys == old(docs).Keys
        invariant forall i :: 0 <= i < k ==>
          docs[scan[i].id].cron == Visited(scan[i].stored.cron, now, Answer(scan[i], first, next))
        invariant forall i :: k <= i < |scan| ==> docs[scan[i].id] == scan[i].stored
        invariant jobs == old(jobs) + DueJobs(scan[..k], now)
      {
        Visit(scan[k], now, first(scan[k].id), next(scan[k].id));
        assert scan[..k + 1][..k] == scan[..k];
        k := k + 1;
      }
      assert scan[..k] == scan;
    }
  }

  function DueJobs(scan: seq<Snapshot>, now: nat): seq<(string, JobQueue.Job)> {
    if scan == [] then []
    else
      var last := scan[|scan| - 1];
      DueJobs(scan[..|scan| - 1], now)
      + if DueAt(last.stored.cron.nextRun, now) then [(last.id, Spawned(last.stored.cron, now))] else []
  }

  /** A spawned job is one the job queue accepts under any unused key. */
  lemma SpawnedIsEnqueued(q: JobQueue.Queue, id: string, cron: CronJob, now: nat)
    requires id !in q.limits
    ensures JobQueue.Enabled(q, JobQueue.Enqueue(id, Spawned(cron, now)))
    ensures JobQueue.Due(Spawned(cron, now), now)
  {
  }

  // ---------------------------------------------------------------------------
  // Any number of workers
  // ---------------------------------------------------------------------------

  /**
   Where a worker is in its pass: between documents, with a document just read, with a first run
   computed but not written, with a document ready for the due test, with the following run
   computed but not claimed, or with a claim won and the job not yet inserted.
   */
  datatype Worker =
    | Between(now: nat)
    | Read(now: nat, found: Snapshot)
    | Planned(now: nat, found: Snapshot, clock: nat, first: nat)
    | Ready(now: nat, found: Snapshot, run: nat)
    | Claiming(now: nat, found: Snapshot, run: nat, clock: nat, next: Option<nat>)
    | Won(now: nat, found: Snapshot, firing: nat)

  /**
   A successful write of a document's next run: the first one, the one after a fired run, both with
   the clock reading they were planned at, or an edit that clears it.
   */
  datatype Write =
    | First(id: string, clock: nat, first: nat)
    | Fire(id: string, run: nat, clock: nat, next: Option<nat>)
    | Reset(id: string)

  /** An inserted job, with the firing that caused it. */
  datatype Inserted = Inserted(id: string, job: JobQueue.Job, firing: nat)

  /** `known` remembers the expression every document was created with, `writes` what was written in which order. */
  datatype System = System(
    store: Docs,
    workers: map<nat, Worker>,
    clock: nat,
    known: map<string, string>,
    writes: seq<Write>,
    jobs: seq<Inserted>)

  datatype Action =
    | Create(id: string, cron: CronJob)
    | Edit(id: string, cron: CronJob)
    | Delete(id: string)
    | Wall(time: nat)
    | Begin(worker: nat)
    | Fetch(worker: nat, id: string)
    | PlanFirst(worker: nat)
    | WriteFirst(worker: nat)
    | Test(worker: nat)
    | PlanNext(worker: nat)
    | Claim(worker: nat)
    | InsertJob(worker: nat, ok: bool)
    | End(worker: nat)

  /** What a cron expression answers at a clock reading; nothing when it does not parse. */
  type Schedule = (string, nat) -> Option<nat>

  /** A schedule only answers with later times. */
  ghost predicate Upcoming(s: Schedule) {
    forall e: string, t: nat :: s(e, t).Some? ==> t < s(e, t).value
  }

  const INITIAL := System(Docs(map[], 0), map[], 0, map[], [], [])

  predicate Enabled(s: System, a: Action) {
    match a
    case Create(id, cron) => id !in s.known && cron.nextRun == None
    case Edit(id, cron) =>
      id in s.store.docs && (cron.nextRun == None || cron.nextRun == s.store.docs[id].cron.nextRun)
    case Delete(id) => true
    case Wall(time) => true
    case Begin(w) => w !in s.workers
    case Fetch(w, id) => w in s.workers && s.workers[w].Between? && id in s.store.docs
    case PlanFirst(w) => w in s.workers && s.workers[w].Read? && s.workers[w].found.stored.cron.nextRun == None
    case WriteFirst(w) => w in s.workers && s.workers[w].Planned?
    case Test(w) => w in s.workers && s.workers[w].Read? && s.workers[w].found.stored.cron.nextRun.Some?
    case PlanNext(w) => w in s.workers && s.workers[w].Ready?
    case Claim(w) => w in s.workers && s.workers[w].Claiming?
    case InsertJob(w, ok) => w in s.workers && s.workers[w].Won?
    case End(w) => w in s.workers && s.workers[w].Between?
  }

  function At(s: System, w: nat, state: Worker): System {
    s.(workers := s.workers[w := state])
  }

  function Claimed(s: System, w: nat, p: Worker): System
    requires p.Claiming?
  {
    if Current(s.store, p.found) then
      At(s, w, Won(p.now, p.found, |s.writes|)).(
        store := CompareAndSet(s.store, p.found, p.found.stored.cron.(lastRun := Some(p.now), nextRun := p.next)),
        writes := s.writes + [Fire(p.found.id, p.run, p.clock, p.next)])
    else At(s, w, Between(p.now))
  }

  function FirstWritten(s: System, w: nat, p: Worker): System
    requires p.Planned?
  {
    At(s, w, Ready(p.now, p.found, p.first)).(
      store := CompareAndSet(s.store, p.found, p.found.stored.cron.(nextRun := Some(p.first))),
      writes := if Current(s.store, p.found) then s.writes + [First(p.found.id, p.clock, p.first)] else s.writes)
  }

  function Edited(s: System, id: string, cron: CronJob): System
    requires id in s.store.docs
  {
    s.(store := Docs(s.store.docs[id := Stored(cron, s.store.nextRev)], s.store.nextRev + 1),
       writes := if cron.nextRun == s.store.docs[id].cron.nextRun then s.writes else s.writes + [Reset(id)])
  }

  function Apply(sched: Schedule, s: System, a: Action): System
    requires Enabled(s, a)
  {
    match a
    case Create(id, cron) =>
      s.(store := Docs(s.store.docs[id := Stored(cron, s.store.nextRev)], s.store.nextRev + 1),
         known := s.known[id := cron.expression])
    case Edit(id, cron) => Edited(s, id, cron)
    case Delete(id) => s.(store := s.store.(docs := s.store.docs - {id}))
    case Wall(time) => s.(clock := time)
    case Begin(w) => At(s, w, Between(s.clock))
    case Fetch(w, id) => At(s, w, Read(s.workers[w].now, Snapshot(id, s.store.docs[id])))
    case PlanFirst(w) =>
      var p := s.workers[w];
      var upcoming := sched(p.found.stored.cron.expression, s.clock);
      At(s, w, if upcoming.Some? then Planned(p.now, p.found, s.clock, upcoming.value) else Between(p.now))
    case WriteFirst(w) => FirstWritten(s, w, s.workers[w])
    case Test(w) =>
      var p := s.workers[w];
      At(s, w, Ready(p.now, p.found, p.found.stored.cron.nextRun.value))
    case PlanNext(w) =>
      var p := s.workers[w];
      At(s, w, if p.run > p.now then Between(p.now)
               else Claiming(p.now, p.found, p.run, s.clock, sched(p.found.stored.cron.expression, s.clock)))
    case Claim(w) => Claimed(s, w, s.workers[w])
    case InsertJob(w, ok) =>
      var p := s.workers[w];
      var s' := At(s, w, Between(p.now));
      if ok then s'.(jobs := s.jobs + [Inserted(p.found.id, Spawned(p.found.stored.cron, p.now), p.firing)]) else s'
    case End(w) => s.(workers := s.workers - {w})
  }

  ghost predicate Runs(sched: Schedule, s: System, acts: seq<Action>)
    decreases |acts|
  {
    acts == [] || (Enabled(s, acts[0]) && Runs(sched, Apply(sched, s, acts[0]), acts[1..]))
  }

  ghost function After(sched: Schedule, s: System, acts: seq<Action>): System
    requires Runs(sched, s, acts)
    decreases |acts|
  {
    if acts == [] then s else After(sched, Apply(sched, s, acts[0]), acts[1..])
  }

  // ---------------------------------------------------------------------------
  // One job per firing
  // ---------------------------------------------------------------------------

  ghost predicate IsFiring(writes: seq<Write>, k: nat, id: string) {
    k < |writes| && writes[k].Fire? && writes[k].id == id
  }

  /** Each won claim is in the hands of one worker or of one inserted job, never two. */
  ghost predicate OneJobEach(s: System) {
    && (forall w :: w in s.workers && s.workers[w].Won? ==>
          && IsFiring(s.writes, s.workers[w].firing, s.workers[w].found.id)
          && (forall j :: j in s.jobs ==> j.firing != s.workers[w].firing))
    && (forall v, w :: v in s.workers && w in s.workers && v != w && s.workers[v].Won? && s.workers[w].Won? ==>
          s.workers[v].firing != s.workers[w].firing)
    && (forall k :: 0 <= k < |s.jobs| ==> IsFiring(s.writes, s.jobs[k].firing, s.jobs[k].id))
    && (forall j, k :: 0 <= j < k < |s.jobs| ==> s.jobs[j].firing != s.jobs[k].firing)
  }

  lemma OneJobClaim(s: System, w: nat)
    requires OneJobEach(s) && Enabled(s, Claim(w))
    ensures OneJobEach(Claimed(s, w, s.workers[w]))
  {
  }

  lemma OneJobInsert(sched: Schedule, s: System, w: nat, ok: bool)
    requires OneJobEach(s) && Enabled(s, InsertJob(w, ok))
    ensures OneJobEach(Apply(sched, s, InsertJob(w, ok)))
  {
    if ok {
      var s' := Apply(sched, s, InsertJob(w, ok));
      forall j | j in s'.jobs ensures j in s.jobs || j.firing == s.workers[w].firing {
      }
    }
  }

  lemma OneJobStep(sched: Schedule, s: System, a: Action)
    requires OneJobEach(s) && Enabled(s, a)
    ensures OneJobEach(Apply(sched, s, a))
  {
    match a
    case Claim(w) => OneJobClaim(s, w);
    case InsertJob(w, ok) => OneJobInsert(sched, s, w, ok);
    case _ =>
      var s' := Apply(sched, s, a);
      assert s'.jobs == s.jobs && s.writes <= s'.writes;
      forall w | w in s'.workers && s'.workers[w].Won? ensures w in s.workers && s'.workers[w] == s.workers[w] {
      }
  }

  lemma {:induction false} OneJobRun(sched: Schedule, s: System, acts: seq<Action>)
    requires OneJobEach(s) && Runs(sched, s, acts)
    ensures OneJobEach(After(sched, s, acts))
    decreases |acts|
  {
    if acts != [] {
      OneJobStep(sched, s, acts[0]);
      OneJobRun(sched, Apply(sched, s, acts[0]), acts[1..]);
    }
  }

  /** Whatever the clock does, every inserted job stems from a firing of its own. */
  lemma OneJobPerFiring(sched: Schedule, acts: seq<Action>, j: nat, k: nat)
    requires Runs(sched, INITIAL, acts)
    requires j < k < |After(sched, INITIAL, acts).jobs|
    ensures var s := After(sched, INITIAL, acts);
      && s.jobs[j].firing != s.jobs[k].firing
      && IsFiring(s.writes, s.jobs[j].firing, s.jobs[j].id)
  {
    OneJobRun(sched, INITIAL, acts);
  }
}
