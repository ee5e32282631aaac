/**
 The pass of one worker that nobody disturbs, as `Cron.CronCollection.CheckCronJobs` makes it, is a run
 of the steps that `Cron.Apply` interleaves.
 */
module CronPass {
  import opened Wrappers
  import opened Cron
  import JobQueue

  lemma OneStep(sched: Schedule, s: System, a: Action, rest: seq<Action>)
    requires Enabled(s, a) && Runs(sched, Apply(sched, s, a), rest)
    ensures Runs(sched, s, [a] + rest)
    ensures After(sched, s, [a] + rest) == After(sched, Apply(sched, s, a), rest)
  {
    assert ([a] + rest)[1..] == rest;
  }

  lemma {:induction false} TwoRuns(sched: Schedule, s: System, a: seq<Action>, b: seq<Action>)
    requires Runs(sched, s, a) && Runs(sched, After(sched, s, a), b)
    ensures Runs(sched, s, a + b) && After(sched, s, a + b) == After(sched, After(sched, s, a), b)
    decreases |a|
  {
    if a == [] {
      assert a + b == b;
    } else {
      TwoRuns(sched, Apply(sched, s, a[0]), a[1..], b);
      OneStep(sched, s, a[0], a[1..] + b);
      assert a + b == [a[0]] + (a[1..] + b);
    }
  }

  /** Some run takes `s` to `t`. */
  ghost predicate Reaches(sched: Schedule, s: System, t: System) {
    exists acts :: Runs(sched, s, acts) && After(sched, s, acts) == t
  }

  lemma Stays(sched: Schedule, s: System)
    ensures Reaches(sched, s, s)
  {
    assert Runs(sched, s, []) && After(sched, s, []) == s;
  }

  lemma Steps(sched: Schedule, s: System, a: Action, t: System)
    requires Enabled(s, a) && t == Apply(sched, s, a)
    ensures Reaches(sched, s, t)
  {
    OneStep(sched, s, a, []);
    assert Runs(sched, s, [a] + []);
  }

  lemma Onwards(sched: Schedule, s: System, t: System, u: System)
    requires Reaches(sched, s, t) && Reaches(sched, t, u)
    ensures Reaches(sched, s, u)
  {
    var a :| Runs(sched, s, a) && After(sched, s, a) == t;
    var b :| Runs(sched, t, b) && After(sched, t, b) == u;
    TwoRuns(sched, s, a, b);
    assert Runs(sched, s, a + b);
  }

  /** Between documents of a pass that began at `now`. */
  ghost predicate Pausing(s: System, w: nat, now: nat) {
    && w in s.workers && s.workers[w] == Between(now)
    && forall id :: id in s.store.docs ==> s.store.docs[id].rev < s.store.nextRev
  }

  /** What a visit of `id` by worker `w` makes of `s` when the schedule answers at clock reading `clock`. */
  ghost predicate VisitDone(sched: Schedule, s: System, t: System, w: nat, id: string, now: nat, clock: nat)
    requires id in s.store.docs
  {
    var cron := s.store.docs[id].cron;
    && Pausing(t, w, now) && t.workers.Keys == s.workers.Keys
    && t.store.docs.Keys == s.store.docs.Keys
    && (forall o :: o in s.store.docs && o != id ==> t.store.docs[o] == s.store.docs[o])
    && t.store.docs[id].cron == Visited(cron, now, sched(cron.expression, clock))
    && t.jobs == s.jobs + if DueAt(cron.nextRun, now) then [Inserted(id, Spawned(cron, now), |s.writes|)] else []
  }

  lemma Fetched(sched: Schedule, s: System, w: nat, id: string, now: nat, clock: nat) returns (t: System)
    requires Pausing(s, w, now) && id in s.store.docs
    ensures t == At(s, w, Read(now, Snapshot(id, s.store.docs[id]))).(clock := clock)
    ensures Reaches(sched, s, t)
  {
    var a := Apply(sched, s, Fetch(w, id));
    t := Apply(sched, a, Wall(clock));
    Steps(sched, s, Fetch(w, id), a);
    Steps(sched, a, Wall(clock), t);
    Onwards(sched, s, a, t);
  }

  /** A document without a next run gets its first one, and is not fired even if that is past. */
  lemma FirstVisit(sched: Schedule, s: System, w: nat, id: string, now: nat, clock: nat) returns (t: System)
    requires Pausing(s, w, now) && id in s.store.docs && s.store.docs[id].cron.nextRun == None
    ensures Reaches(sched, s, t) && VisitDone(sched, s, t, w, id, now, clock)
  {
    var a := Fetched(sched, s, w, id, now, clock);
    var b := Apply(sched, a, PlanFirst(w));
    Steps(sched, a, PlanFirst(w), b);
    Onwards(sched, s, a, b);
    if sched(s.store.docs[id].cron.expression, clock) == None {
      t := b;
    } else {
      t := WrittenVisit(sched, b, w);
      Onwards(sched, s, b, t);
    }
  }

  lemma WrittenVisit(sched: Schedule, s: System, w: nat) returns (t: System)
    requires w in s.workers && s.workers[w].Planned? && Current(s.store, s.workers[w].found)
    requires s.store.docs[s.workers[w].found.id].rev < s.store.nextRev
    ensures Reaches(sched, s, t)
    ensures var p := s.workers[w];
            t == FirstWritten(s, w, p).(workers := s.workers[w := Between(p.now)])
  {
    var p := s.workers[w];
    var a := Apply(sched, s, WriteFirst(w));
    var b := Apply(sched, a, PlanNext(w));
    Steps(sched, s, WriteFirst(w), a);
    Steps(sched, a, PlanNext(w), b);
    Onwards(sched, s, a, b);
    if p.first > p.now {
      t := b;
    } else {
      t := Apply(sched, b, Claim(w));
      Steps(sched, b, Claim(w), t);
      Onwards(sched, s, b, t);
    }
    assert t.workers == s.workers[w := Between(p.now)];
  }

  lemma FiredVisit(sched: Schedule, s: System, w: nat) returns (t: System)
    requires w in s.workers && s.workers[w].Claiming? && Current(s.store, s.workers[w].found)
    ensures Reaches(sched, s, t)
    ensures var p := s.workers[w];
            t == At(Claimed(s, w, p), w, Between(p.now)).(
              jobs := s.jobs + [Inserted(p.found.id, Spawned(p.found.stored.cron, p.now), |s.writes|)])
  {
    var a := Apply(sched, s, Claim(w));
    t := Apply(sched, a, InsertJob(w, true));
    Steps(sched, s, Claim(w), a);
    Steps(sched, a, InsertJob(w, true), t);
    Onwards(sched, s, a, t);
  }

  /** A document with a next run is fired when due. */
  lemma LaterVisit(sched: Schedule, s: System, w: nat, id: string, now: nat, clock: nat) returns (t: System)
    requires Pausing(s, w, now) && id in s.store.docs && s.store.docs[id].cron.nextRun.Some?
    ensures Reaches(sched, s, t) && VisitDone(sched, s, t, w, id, now, clock)
  {
    var a := Fetched(sched, s, w, id, now, clock);
    var b := Apply(sched, a, Test(w));
    var c := Apply(sched, b, PlanNext(w));
    Steps(sched, a, Test(w), b);
    Steps(sched, b, PlanNext(w), c);
    Onwards(sched, s, a, b);
    Onwards(sched, s, b, c);
    if s.store.docs[id].cron.nextRun.value > now {
      t := c;
    } else {
      t := FiredVisit(sched, c, w);
      Onwards(sched, s, c, t);
    }
  }

  /** One visit: a run of the interleaved steps that leaves what `Visited` says. */
  lemma VisitIsARun(sched: Schedule, s: System, w: nat, id: string, now: nat, clock: nat) returns (t: System)
    requires Pausing(s, w, now) && id in s.store.docs
    ensures Reaches(sched, s, t) && VisitDone(sched, s, t, w, id, now, clock)
  {
    if s.store.docs[id].cron.nextRun == None {
      t := FirstVisit(sched, s, w, id, now, clock);
    } else {
      t := LaterVisit(sched, s, w, id, now, clock);
    }
  }

  /** The inserted jobs without the firings they stem from. */
  function Pairs(jobs: seq<Inserted>): seq<(string, JobQueue.Job)> {
    seq(|jobs|, i requires 0 <= i < |jobs| => (jobs[i].id, jobs[i].job))
  }

  /** A scan holds stored documents, none twice. */
  ghost predicate Scanned(docs: map<string, Stored>, scan: seq<Snapshot>) {
    && (forall i :: 0 <= i < |scan| ==> scan[i].id in docs && docs[scan[i].id] == scan[i].stored)
    && (forall i, j :: 0 <= i < j < |scan| ==> scan[i].id != scan[j].id)
  }

  ghost predicate InScan(scan: seq<Snapshot>, id: string) {
    exists i :: 0 <= i < |scan| && scan[i].id == id
  }

  predicate VisitedAs(docs: map<string, Stored>, found: Snapshot, now: nat, answer: Option<nat>) {
    found.id in docs && docs[found.id].cron == Visited(found.stored.cron, now, answer)
  }

  /** What a pass leaves, when the schedule is asked about each document at its own clock reading. */
  ghost predicate PassDone(sched: Schedule, s: System, t: System, scan: seq<Snapshot>, now: nat,
                           clocks: string -> nat)
  {
    && t.store.docs.Keys == s.store.docs.Keys
    && (forall id :: id in s.store.docs && !InScan(scan, id) ==> t.store.docs[id] == s.store.docs[id])
    && (forall i :: 0 <= i < |scan| ==>
          VisitedAs(t.store.docs, scan[i], now, sched(scan[i].stored.cron.expression, clocks(scan[i].id))))
    && Pairs(t.jobs) == Pairs(s.jobs) + DueJobs(scan, now)
  }

  lemma PassMore(sched: Schedule, s: System, mid: System, t: System, w: nat, front: seq<Snapshot>, last: Snapshot,
                 now: nat, clocks: string -> nat)
    requires Scanned(s.store.docs, front + [last]) && PassDone(sched, s, mid, front, now, clocks)
    requires last.id in mid.store.docs && mid.store.docs[last.id] == last.stored
    requires VisitDone(sched, mid, t, w, last.id, now, clocks(last.id))
    ensures PassDone(sched, s, t, front + [last], now, clocks)
  {
    var scan := front + [last];
    assert scan[..|front|] == front && scan[|front|] == last;
    forall i | 0 <= i < |front| ensures front[i] == scan[i] && front[i].id != last.id {
    }
    forall id | !InScan(scan, id) ensures !InScan(front, id) && id != last.id {
      assert scan[|front|].id == last.id;
    }
    var due := if DueAt(last.stored.cron.nextRun, now) then [(last.id, Spawned(last.stored.cron, now))] else [];
    assert Pairs(t.jobs) == Pairs(mid.jobs) + due;
    assert DueJobs(scan, now) == DueJobs(front, now) + due;
  }

  /** A whole pass: some run of the interleaved steps leaves exactly what `CheckCronJobs` promises. */
  lemma {:induction false} PassIsARun(sched: Schedule, s: System, w: nat, scan: seq<Snapshot>, now: nat,
                                      clocks: string -> nat)
    returns (t: System)
    requires Pausing(s, w, now) && Scanned(s.store.docs, scan)
    ensures Reaches(sched, s, t) && Pausing(t, w, now) && PassDone(sched, s, t, scan, now, clocks)
    decreases |scan|
  {
    if scan == [] {
      t := s;
      Stays(sched, s);
    } else {
      var front, last := scan[..|scan| - 1], scan[|scan| - 1];
      assert scan == front + [last];
      var mid := PassIsARun(sched, s, w, front, now, clocks);
      assert !InScan(front, last.id);
      t := VisitIsARun(sched, mid, w, last.id, now, clocks(last.id));
      PassMore(sched, s, mid, t, w, front, last, now, clocks);
      Onwards(sched, s, mid, t);
    }
  }
}
