/**
 What a stored job says about its past, field by field: priority and limit are those it was
 enqueued with, and the due time, time stamps and error are those of the events that set them.
 */
module JobHistory {
  import opened Numbers
  import opened Wrappers
  import opened JobQueue

  /** When the last attempt was claimed. */
  function LastStart(log: seq<Event>, id: string): Option<nat> {
    if log == [] then None
    else
      var e := log[|log| - 1];
      if e.Started? && e.id == id then Some(e.millis) else LastStart(log[..|log| - 1], id)
  }

  function LastRetry(log: seq<Event>, id: string): Option<Event> {
    if log == [] then None
    else
      var e := log[|log| - 1];
      if e.Retried? && e.id == id then Some(e) else LastRetry(log[..|log| - 1], id)
  }

  /** How the last attempt that failed failed. */
  function LastError(log: seq<Event>, id: string): Option<string> {
    if log == [] then None
    else
      var e := log[|log| - 1];
      if e.Retried? && e.id == id then Some(e.error)
      else if e.Ended? && e.id == id && e.outcome.Failure? then Some(e.outcome.error)
      else LastError(log[..|log| - 1], id)
  }

  function LastEnd(log: seq<Event>, id: string): Option<nat> {
    if log == [] then None
    else
      var e := log[|log| - 1];
      if e.Ended? && e.id == id then Some(e.millis) else LastEnd(log[..|log| - 1], id)
  }

  lemma OneMoreEvent(log: seq<Event>, e: Event, id: string)
    ensures LastStart(log + [e], id) == if e.Started? && e.id == id then Some(e.millis) else LastStart(log, id)
    ensures LastRetry(log + [e], id) == if e.Retried? && e.id == id then Some(e) else LastRetry(log, id)
    ensures LastEnd(log + [e], id) == if e.Ended? && e.id == id then Some(e.millis) else LastEnd(log, id)
    ensures LastError(log + [e], id)
         == if e.Retried? && e.id == id then Some(e.error)
            else if e.Ended? && e.id == id && e.outcome.Failure? then Some(e.outcome.error)
            else LastError(log, id)
  {
    assert (log + [e])[..|log|] == log;
  }

  lemma {:induction false} NoEvents(log: seq<Event>, id: string)
    requires forall e :: e in log ==> e.id != id
    ensures LastStart(log, id) == None && LastRetry(log, id) == None
    ensures LastEnd(log, id) == None && LastError(log, id) == None
  {
    if log != [] {
      NoEvents(log[..|log| - 1], id);
    }
  }

  /** The due time: that of the last retry, or the one the job was enqueued with. */
  predicate DueOk(job: Job, first: Job, retry: Option<Event>) {
    match retry
    case None => job.runAt == first.runAt && (job.status == Failed || job.retryCount == 0)
    case Some(e) =>
      && e.Retried? && job.runAt == e.at + Delay(e.retry)
      && 0 < e.retry < AsU32(first.maxRetries) && (job.status == Failed || e.retry == job.retryCount)
  }

  /** A job that was enqueued as `first`, in terms of the events. */
  predicate Told(job: Job, first: Job, log: seq<Event>, id: string) {
    && job.priority == first.priority && job.maxRetries == first.maxRetries
    && job.startedAt == LastStart(log, id) && job.completedAt == LastEnd(log, id)
    && job.lastError == (if job.status == Completed then None else LastError(log, id))
    && DueOk(job, first, LastRetry(log, id))
  }

  lemma ToldClaim(q: Queue, w: nat, found: Snapshot, millis: nat, id: string, first: Job)
    requires SnapshotOk(q, found) && id in q.store.docs && Told(q.store.docs[id].job, first, q.log, id)
    ensures id in Claiming(q, w, found, millis).store.docs
    ensures Told(Claiming(q, w, found, millis).store.docs[id].job, first, Claiming(q, w, found, millis).log, id)
  {
    OneMoreEvent(q.log, Started(found.id, q.clock, found.stored.job.runAt, millis), id);
  }

  lemma ToldFinish(q: Queue, k: nat, outcome: Outcome, millis: nat, id: string, first: Job)
    requires k < |q.tasks| && TaskOk(q, q.tasks[k])
    requires id in q.store.docs && StoredOk(q, id) && Told(q.store.docs[id].job, first, q.log, id)
    ensures id in Finishing(q, k, outcome, millis).store.docs
    ensures Told(Finishing(q, k, outcome, millis).store.docs[id].job, first, Finishing(q, k, outcome, millis).log, id)
  {
    OneMoreEvent(q.log, Noted(q.tasks[k], outcome, q.clock, millis), id);
  }

  lemma ToldStep(q: Queue, a: Action, id: string, first: Job)
    requires Inv(q) && Enabled(q, a) && id in q.store.docs && id in Apply(q, a).store.docs
    requires Told(q.store.docs[id].job, first, q.log, id)
    ensures Told(Apply(q, a).store.docs[id].job, first, Apply(q, a).log, id)
  {
    assert StoredOk(q, id);
    match a {
      case Claim(w, millis) => ToldClaim(q, w, q.workers[w].found, millis, id, first);
      case Finish(k, outcome, millis) => ToldFinish(q, k, outcome, millis, id, first);
      case _ =>
    }
  }

  /** In every reachable state every stored job is told by the run: how it was enqueued and what happened since. */
  lemma {:induction false} JobsTellHistory(acts: seq<Action>, id: string) returns (first: Job)
    requires Runs(INITIAL, acts) && id in After(INITIAL, acts).store.docs
    ensures Enqueue(id, first) in acts
    ensures Told(After(INITIAL, acts).store.docs[id].job, first, After(INITIAL, acts).log, id)
    decreases |acts|
  {
    var front, last := acts[..|acts| - 1], acts[|acts| - 1];
    RunSplit(INITIAL, acts);
    RunKeeps(INITIAL, front);
    var q := After(INITIAL, front);
    if last.Enqueue? && last.id == id {
      first := last.job;
      NoEvents(q.log, id);
    } else {
      first := JobsTellHistory(front, id);
      ToldStep(q, last, id, first);
    }
  }

  /**
   A job that waits for a retry becomes due exactly when the backoff of that retry has passed since
   the failure, and not a second earlier; a job that has not failed yet when it was enqueued to be.
   For limits from 64 on, or negative ones, the computed delay takes the place of the intended one.
   */
  lemma DueExactlyThen(acts: seq<Action>, id: string, now: nat) returns (first: Job)
    requires Runs(INITIAL, acts) && id in After(INITIAL, acts).store.docs
    requires After(INITIAL, acts).store.docs[id].job.status == Pending
    ensures Enqueue(id, first) in acts
    ensures var q := After(INITIAL, acts);
            match LastRetry(q.log, id)
            case None =>
              q.store.docs[id].job.retryCount == 0 && (Due(q.store.docs[id].job, now) <==> first.runAt <= now)
            case Some(e) =>
              && e.Retried? && e.retry == q.store.docs[id].job.retryCount
              && (Due(q.store.docs[id].job, now) <==> e.at + Delay(e.retry) <= now)
              && (0 <= first.maxRetries <= 63 ==>
                    (Due(q.store.docs[id].job, now) <==> e.at + Backoff(e.retry) <= now))
  {
    first := JobsTellHistory(acts, id);
    var retry := LastRetry(After(INITIAL, acts).log, id);
    if retry.Some? {
      DelayExactIff(retry.value.retry);
    }
  }

  // ---------------------------------------------------------------------------
  // Merging updates
  // ---------------------------------------------------------------------------

  /** A document after updates of it, one after the other. */
  function Rewritten(job: Job, writes: seq<Job>): Job {
    if writes == [] then job else Merged(Rewritten(job, writes[..|writes| - 1]), writes[|writes| - 1])
  }

  /** `t` is the last time stamp among `first` and `stamps` that is present, if any is. */
  ghost predicate LastPresent(first: Option<nat>, stamps: seq<Option<nat>>, t: Option<nat>) {
    if forall i :: 0 <= i < |stamps| ==> stamps[i].None? then t == first
    else
      t.Some? && exists i :: 0 <= i < |stamps| && stamps[i] == t && forall k :: i < k < |stamps| ==> stamps[k].None?
  }

  function Starts(writes: seq<Job>): seq<Option<nat>> {
    seq(|writes|, i requires 0 <= i < |writes| => writes[i].startedAt)
  }

  function Ends(writes: seq<Job>): seq<Option<nat>> {
    seq(|writes|, i requires 0 <= i < |writes| => writes[i].completedAt)
  }

  lemma LastPresentMore(first: Option<nat>, stamps: seq<Option<nat>>, t: Option<nat>, more: Option<nat>)
    requires LastPresent(first, stamps, t)
    ensures LastPresent(first, stamps + [more], if more.Some? then more else t)
  {
    var all := stamps + [more];
    assert forall i :: 0 <= i < |stamps| ==> all[i] == stamps[i];
    assert all[|stamps|] == more;
  }

  /** However often a document is updated, an absent time stamp never erases one; all else is as written last. */
  lemma {:induction false} UpdatesKeepStamps(job: Job, writes: seq<Job>)
    requires writes != []
    ensures var r, last := Rewritten(job, writes), writes[|writes| - 1];
      && LastPresent(job.startedAt, Starts(writes), r.startedAt)
      && LastPresent(job.completedAt, Ends(writes), r.completedAt)
      && r.(startedAt := None, completedAt := None) == last.(startedAt := None, completedAt := None)
  {
    var front, last := writes[..|writes| - 1], writes[|writes| - 1];
    if front != [] {
      UpdatesKeepStamps(job, front);
    }
    assert Starts(writes) == Starts(front) + [last.startedAt] && Ends(writes) == Ends(front) + [last.completedAt];
    var r := Rewritten(job, front);
    LastPresentMore(job.startedAt, Starts(front), r.startedAt, last.startedAt);
    LastPresentMore(job.completedAt, Ends(front), r.completedAt, last.completedAt);
  }
}
