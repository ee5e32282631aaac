/** Where inserted jobs come from: each carries what its document said when its firing was claimed. */
module CronHistory {
  import opened Wrappers
  import opened Cron
  import opened CronFirings
  import JobQueue

  lemma {:induction false} RunSplit(sched: Schedule, s: System, acts: seq<Action>)
    requires Runs(sched, s, acts) && acts != []
    ensures var front, last := acts[..|acts| - 1], acts[|acts| - 1];
      && Runs(sched, s, front) && Enabled(After(sched, s, front), last)
      && After(sched, s, acts) == Apply(sched, After(sched, s, front), last)
    decreases |acts|
  {
    if |acts| > 1 {
      RunSplit(sched, Apply(sched, s, acts[0]), acts[1..]);
      assert acts[1..][..|acts| - 2] == acts[..|acts| - 1][1..];
    } else {
      assert acts[1..] == [] && acts[..0] == [];
    }
  }

  /**
   Action `k` won the claim that is write number `firing`: the stored document was `cron` before it,
   and after it differs only in its run times, the last one being `now`.
   */
  ghost predicate ClaimedAs(sched: Schedule, acts: seq<Action>, k: nat, id: string, cron: CronJob, now: nat,
                            firing: nat)
  {
    && k < |acts| && Runs(sched, INITIAL, acts[..k])
    && var s := After(sched, INITIAL, acts[..k]);
       && acts[k].Claim? && Enabled(s, acts[k]) && |s.writes| == firing
       && id in s.store.docs && s.store.docs[id].cron == cron
       && var s' := Apply(sched, s, acts[k]);
          && IsFiring(s'.writes, firing, id) && id in s'.store.docs
          && s'.store.docs[id].cron == cron.(lastRun := Some(now), nextRun := s'.store.docs[id].cron.nextRun)
  }

  lemma ClaimedLonger(sched: Schedule, front: seq<Action>, acts: seq<Action>, k: nat, id: string, cron: CronJob,
                      now: nat, firing: nat)
    requires front <= acts && ClaimedAs(sched, front, k, id, cron, now, firing)
    ensures ClaimedAs(sched, acts, k, id, cron, now, firing)
  {
    assert acts[..k] == front[..k] && acts[k] == front[k];
  }

  lemma WonNow(sched: Schedule, s: System, w: nat)
    requires Inv(sched, s) && Enabled(s, Claim(w)) && Claimed(s, w, s.workers[w]).workers[w].Won?
    ensures var s', p := Claimed(s, w, s.workers[w]), s.workers[w];
      && s'.workers[w] == Won(p.now, p.found, |s.writes|) && IsFiring(s'.writes, |s.writes|, p.found.id)
      && p.found.id in s.store.docs && s.store.docs[p.found.id].cron == p.found.stored.cron
      && p.found.id in s'.store.docs
      && s'.store.docs[p.found.id].cron
         == p.found.stored.cron.(lastRun := Some(p.now), nextRun := s'.store.docs[p.found.id].cron.nextRun)
  {
    assert WorkerOk(sched, s, s.workers[w]);
  }

  lemma Untouched(sched: Schedule, s: System, a: Action, w: nat)
    requires Enabled(s, a) && a != Claim(w)
    requires w in Apply(sched, s, a).workers && Apply(sched, s, a).workers[w].Won?
    ensures w in s.workers && s.workers[w] == Apply(sched, s, a).workers[w]
  {
  }

  /** A claim a worker won and has not turned into a job yet. */
  lemma {:induction false} WonFrom(sched: Schedule, acts: seq<Action>, w: nat) returns (k: nat)
    requires Upcoming(sched) && Runs(sched, INITIAL, acts)
    requires w in After(sched, INITIAL, acts).workers && After(sched, INITIAL, acts).workers[w].Won?
    ensures var p := After(sched, INITIAL, acts).workers[w];
            ClaimedAs(sched, acts, k, p.found.id, p.found.stored.cron, p.now, p.firing)
    decreases |acts|
  {
    var front, last := acts[..|acts| - 1], acts[|acts| - 1];
    RunSplit(sched, INITIAL, acts);
    var s := After(sched, INITIAL, front);
    if last == Claim(w) {
      k := |acts| - 1;
      RunKeeps(sched, INITIAL, front);
      WonNow(sched, s, w);
    } else {
      Untouched(sched, s, last, w);
      k := WonFrom(sched, front, w);
      var p := s.workers[w];
      ClaimedLonger(sched, front, acts, k, p.found.id, p.found.stored.cron, p.now, p.firing);
    }
  }

  /**
   Every job a run inserts was caused by a won claim of its document: it has the priority and retry
   limit the document had at that moment, and is due at the time the claim recorded as last run.
   */
  lemma {:induction false} JobsCarryTheirDocument(sched: Schedule, acts: seq<Action>, j: nat)
    returns (k: nat, cron: CronJob)
    requires Upcoming(sched) && Runs(sched, INITIAL, acts) && j < |After(sched, INITIAL, acts).jobs|
    ensures var i := After(sched, INITIAL, acts).jobs[j];
            && ClaimedAs(sched, acts, k, i.id, cron, i.job.runAt, i.firing)
            && i.job.priority == cron.priority && i.job.maxRetries == cron.maxRetries
    decreases |acts|
  {
    var front, last := acts[..|acts| - 1], acts[|acts| - 1];
    RunSplit(sched, INITIAL, acts);
    var s := After(sched, INITIAL, front);
    if j < |s.jobs| {
      k, cron := JobsCarryTheirDocument(sched, front, j);
      var i := s.jobs[j];
      assert After(sched, INITIAL, acts).jobs[j] == i;
      ClaimedLonger(sched, front, acts, k, i.id, cron, i.job.runAt, i.firing);
    } else {
      var p := s.workers[last.worker];
      cron := p.found.stored.cron;
      k := WonFrom(sched, front, last.worker);
      ClaimedLonger(sched, front, acts, k, p.found.id, cron, p.now, p.firing);
    }
  }
}
