/**
 When cron jobs fire (src/queue/cron.rs): over every interleaving of workers the run times a job
 fires at strictly increase exactly as long as next runs are planned at clock readings that are
 not before the runs already fired.
 */
module CronFirings {
  import opened Wrappers
  import opened Cron

  // ---------------------------------------------------------------------------
  // What the writes of next runs say
  // ---------------------------------------------------------------------------

  function NextOf(w: Write): Option<nat> {
    match w
    case First(_, _, first) => Some(first)
    case Fire(_, _, _, next) => next
    case Reset(_) => None
  }

  /** The next run the writes leave with document `id`. */
  function LastNext(writes: seq<Write>, id: string): Option<nat> {
    if writes == [] then None
    else if writes[|writes| - 1].id == id then NextOf(writes[|writes| - 1])
    else LastNext(writes[..|writes| - 1], id)
  }

  /** A firing takes the run stored last, and a first run is only written where there is none. */
  ghost predicate Follows(writes: seq<Write>, k: nat)
    requires k < |writes|
  {
    match writes[k]
    case First(id, clock, first) => LastNext(writes[..k], id) == None && clock < first
    case Fire(id, run, clock, next) =>
      LastNext(writes[..k], id) == Some(run) && (next.Some? ==> clock < next.value)
    case Reset(_) => true
  }

  ghost predicate Chained(writes: seq<Write>) {
    forall k :: 0 <= k < |writes| ==> Follows(writes, k)
  }

  /** The run times a document fires at strictly increase. */
  ghost predicate Rising(writes: seq<Write>) {
    forall i, j :: 0 <= i < j < |writes| && Both(writes[i], writes[j]) ==> writes[i].run < writes[j].run
  }

  predicate Both(e: Write, f: Write) {
    e.Fire? && f.Fire? && e.id == f.id
  }

  /** A later write of the same document fires. */
  ghost predicate Followed(writes: seq<Write>, m: nat)
    requires m < |writes|
  {
    exists k :: m < k < |writes| && writes[k].Fire? && writes[k].id == writes[m].id
  }

  /** The clock reading behind write m is not before any run its document fired so far. */
  ghost predicate PlannedInTime(writes: seq<Write>, m: nat)
    requires m < |writes| && !writes[m].Reset?
  {
    forall i :: 0 <= i <= m && writes[i].Fire? && writes[i].id == writes[m].id ==> writes[i].run <= writes[m].clock
  }

  /** Every next run that was going to be fired was planned in time. */
  ghost predicate Timely(writes: seq<Write>) {
    forall m :: 0 <= m < |writes| && NextOf(writes[m]).Some? && Followed(writes, m) ==> PlannedInTime(writes, m)
  }

  /** The write that left the next run of a document. */
  lemma {:induction false} LatestWrite(writes: seq<Write>, id: string) returns (m: nat)
    requires LastNext(writes, id).Some?
    ensures m < |writes| && writes[m].id == id && NextOf(writes[m]) == LastNext(writes, id)
    ensures forall i :: m < i < |writes| ==> writes[i].id != id
  {
    if writes[|writes| - 1].id == id {
      m := |writes| - 1;
    } else {
      m := LatestWrite(writes[..|writes| - 1], id);
    }
  }

  lemma {:induction false} NothingSince(writes: seq<Write>, m: nat)
    requires m < |writes| && forall i :: m < i < |writes| ==> writes[i].id != writes[m].id
    ensures LastNext(writes, writes[m].id) == NextOf(writes[m])
  {
    if m < |writes| - 1 {
      NothingSince(writes[..|writes| - 1], m);
    }
  }

  lemma FiredRunIsStored(writes: seq<Write>, k: nat) returns (m: nat)
    requires Chained(writes) && k < |writes| && writes[k].Fire?
    ensures m < k && writes[m].id == writes[k].id && NextOf(writes[m]) == Some(writes[k].run)
    ensures forall i :: m < i < k ==> writes[i].id != writes[k].id
  {
    assert Follows(writes, k);
    m := LatestWrite(writes[..k], writes[k].id);
    forall i | m < i < k ensures writes[i].id != writes[k].id {
      assert writes[..k][i] == writes[i];
    }
  }

  /** Planning in time is enough, whatever the schedule and even across edits. */
  lemma TimelyRises(writes: seq<Write>)
    requires Chained(writes) && Timely(writes)
    ensures Rising(writes)
  {
    forall i, k | 0 <= i < k < |writes| && Both(writes[i], writes[k]) ensures writes[i].run < writes[k].run {
      var m := FiredRunIsStored(writes, k);
      assert i <= m;
      assert Followed(writes, m) && PlannedInTime(writes, m);
      assert Follows(writes, m);
    }
  }

  // ---------------------------------------------------------------------------
  // Schedules that answer with the next occurrence
  // ---------------------------------------------------------------------------

  /** Asked later but before its answer, a schedule answers the same; once it has ended it has ended. */
  ghost predicate NextOccurrence(s: Schedule) {
    forall e: string, t: nat, u: nat {:trigger s(e, t), s(e, u)} ::
      t <= u && (s(e, t).None? || u < s(e, t).value) ==> s(e, u) == s(e, t)
  }

  /** Of two answers the second is later exactly if it was asked for no earlier than the first. */
  lemma LaterIffAskedLater(s: Schedule, e: string, t: nat, u: nat)
    requires Upcoming(s) && NextOccurrence(s) && s(e, t).Some? && s(e, u).Some?
    ensures s(e, t).value < s(e, u).value <==> s(e, t).value <= u
  {
  }

  /** Every write answers the document's own expression at its clock reading. */
  ghost predicate Answers(sched: Schedule, known: map<string, string>, w: Write) {
    w.id in known && (w.First? || w.Fire?) && NextOf(w) == sched(known[w.id], w.clock)
  }

  ghost predicate AllAnswer(sched: Schedule, known: map<string, string>, writes: seq<Write>) {
    forall k :: 0 <= k < |writes| ==> Answers(sched, known, writes[k])
  }

  lemma {:induction false} FirstAfter(writes: seq<Write>, m: nat, k: nat) returns (n: nat)
    requires m < k < |writes| && writes[k].id == writes[m].id
    ensures m < n <= k && writes[n].id == writes[m].id && forall i :: m < i < n ==> writes[i].id != writes[m].id
    decreases k
  {
    if i :| m < i < k && writes[i].id == writes[m].id {
      n := FirstAfter(writes, m, i);
    } else {
      n := k;
    }
  }

  /** The write after one that stored a run fires that run. */
  lemma NextWriteFires(writes: seq<Write>, m: nat, k: nat) returns (n: nat)
    requires Chained(writes) && m < k < |writes| && writes[k].id == writes[m].id
    requires NextOf(writes[m]).Some? && forall i :: 0 <= i < |writes| ==> !writes[i].Reset?
    ensures m < n <= k && Both(writes[n], writes[n]) && writes[n].id == writes[m].id
    ensures NextOf(writes[m]) == Some(writes[n].run)
  {
    n := FirstAfter(writes, m, k);
    NothingSince(writes[..n], m);
    assert Follows(writes, n);
  }

  lemma RisingIsTimely(sched: Schedule, known: map<string, string>, writes: seq<Write>)
    requires Upcoming(sched) && NextOccurrence(sched) && Chained(writes) && AllAnswer(sched, known, writes)
    requires Rising(writes)
    ensures Timely(writes)
  {
    forall m | 0 <= m < |writes| && NextOf(writes[m]).Some? && Followed(writes, m) ensures PlannedInTime(writes, m) {
      var k :| m < k < |writes| && writes[k].Fire? && writes[k].id == writes[m].id;
      assert forall i :: 0 <= i < |writes| ==> Answers(sched, known, writes[i]);
      var n := NextWriteFires(writes, m, k);
      forall i | 0 <= i <= m && writes[i].Fire? && writes[i].id == writes[m].id
        ensures writes[i].run <= writes[m].clock
      {
        assert Both(writes[i], writes[n]);
        var p := FiredRunIsStored(writes, i);
        LaterIffAskedLater(sched, known[writes[m].id], writes[p].clock, writes[m].clock);
      }
    }
  }

  // ---------------------------------------------------------------------------
  // The invariant of every run
  // ---------------------------------------------------------------------------

  predicate FoundOk(s: System, found: Snapshot) {
    && found.stored.rev < s.store.nextRev && found.id in s.known
    && (Current(s.store, found) ==> s.store.docs[found.id] == found.stored)
  }

  predicate Holds(p: Worker) {
    !p.Between? && !p.Won?
  }

  ghost predicate WorkerOk(sched: Schedule, s: System, p: Worker) {
    && (Holds(p) ==> FoundOk(s, p.found))
    && (p.Planned? ==>
          && p.found.stored.cron.nextRun == None
          && sched(p.found.stored.cron.expression, p.clock) == Some(p.first))
    && (p.Claiming? ==> sched(p.found.stored.cron.expression, p.clock) == p.next)
    && ((p.Ready? || p.Claiming?) && Current(s.store, p.found) ==> p.found.stored.cron.nextRun == Some(p.run))
  }

  ghost predicate StoredOk(s: System, id: string)
    requires id in s.store.docs
  {
    && s.store.docs[id].rev < s.store.nextRev && id in s.known
    && s.store.docs[id].cron.nextRun == LastNext(s.writes, id)
  }

  ghost predicate Inv(sched: Schedule, s: System) {
    && (forall w :: w in s.workers ==> WorkerOk(sched, s, s.workers[w]))
    && (forall id :: id in s.store.docs ==> StoredOk(s, id))
    && (forall e :: e in s.writes ==> e.id in s.known)
    && Chained(s.writes)
  }

  lemma LastNextAppend(writes: seq<Write>, w: Write, id: string)
    ensures LastNext(writes + [w], id) == if w.id == id then NextOf(w) else LastNext(writes, id)
  {
    assert (writes + [w])[..|writes|] == writes;
  }

  lemma {:induction false} NeverWritten(writes: seq<Write>, id: string)
    requires forall e :: e in writes ==> e.id != id
    ensures LastNext(writes, id) == None
  {
    if writes != [] {
      NeverWritten(writes[..|writes| - 1], id);
    }
  }

  lemma ChainedAppend(writes: seq<Write>, w: Write)
    requires Chained(writes) && Follows(writes + [w], |writes|)
    ensures Chained(writes + [w])
  {
    forall k | 0 <= k < |writes| ensures Follows(writes + [w], k) {
      assert (writes + [w])[..k] == writes[..k] && Follows(writes, k);
    }
  }

  /** A worker is not disturbed by a step that keeps the document it holds, or gives it a new revision. */
  lemma OthersKeep(sched: Schedule, s: System, s': System, p: Worker)
    requires WorkerOk(sched, s, p)
    requires s.store.nextRev <= s'.store.nextRev && s.known.Keys <= s'.known.Keys
    requires Holds(p) && Current(s'.store, p.found) ==>
               Current(s.store, p.found) && s'.store.docs[p.found.id] == s.store.docs[p.found.id]
    ensures WorkerOk(sched, s', p)
  {
  }

  lemma CreateKeeps(sched: Schedule, s: System, id: string, cron: CronJob)
    requires Inv(sched, s) && Enabled(s, Create(id, cron))
    ensures Inv(sched, Apply(sched, s, Create(id, cron)))
  {
    var s' := Apply(sched, s, Create(id, cron));
    forall w | w in s'.workers ensures WorkerOk(sched, s', s'.workers[w]) {
      assert WorkerOk(sched, s, s.workers[w]);
      OthersKeep(sched, s, s', s.workers[w]);
    }
    NeverWritten(s.writes, id);
    forall o | o in s'.store.docs ensures StoredOk(s', o) {
      assert o != id ==> StoredOk(s, o);
    }
  }

  lemma EditKeeps(sched: Schedule, s: System, id: string, cron: CronJob)
    requires Inv(sched, s) && Enabled(s, Edit(id, cron))
    ensures Inv(sched, Edited(s, id, cron))
  {
    var s' := Edited(s, id, cron);
    assert StoredOk(s, id);
    forall w | w in s'.workers ensures WorkerOk(sched, s', s'.workers[w]) {
      assert WorkerOk(sched, s, s.workers[w]);
      OthersKeep(sched, s, s', s.workers[w]);
    }
    forall o | o in s'.store.docs ensures StoredOk(s', o) {
      assert StoredOk(s, o);
      LastNextAppend(s.writes, Reset(id), o);
    }
    if s'.writes != s.writes {
      ChainedAppend(s.writes, Reset(id));
    }
  }

  lemma DeleteKeeps(sched: Schedule, s: System, id: string)
    requires Inv(sched, s)
    ensures Inv(sched, Apply(sched, s, Delete(id)))
  {
    var s' := Apply(sched, s, Delete(id));
    forall w | w in s'.workers ensures WorkerOk(sched, s', s'.workers[w]) {
      assert WorkerOk(sched, s, s.workers[w]);
      OthersKeep(sched, s, s', s.workers[w]);
    }
    forall o | o in s'.store.docs ensures StoredOk(s', o) {
      assert StoredOk(s, o);
    }
  }

  lemma WriteFirstKeeps(sched: Schedule, s: System, w: nat)
    requires Upcoming(sched) && Inv(sched, s) && Enabled(s, WriteFirst(w))
    ensures Inv(sched, FirstWritten(s, w, s.workers[w]))
  {
    var p := s.workers[w];
    var s', e := FirstWritten(s, w, p), First(p.found.id, p.clock, p.first);
    assert WorkerOk(sched, s, p);
    forall v | v in s'.workers ensures WorkerOk(sched, s', s'.workers[v]) {
      assert WorkerOk(sched, s, s.workers[v]);
      if v != w {
        OthersKeep(sched, s, s', s.workers[v]);
      }
    }
    forall o | o in s'.store.docs ensures StoredOk(s', o) {
      assert StoredOk(s, o);
      LastNextAppend(s.writes, e, o);
    }
    if Current(s.store, p.found) {
      assert StoredOk(s, p.found.id) && (s.writes + [e])[..|s.writes|] == s.writes;
      ChainedAppend(s.writes, e);
    }
  }

  lemma ClaimKeeps(sched: Schedule, s: System, w: nat)
    requires Upcoming(sched) && Inv(sched, s) && Enabled(s, Claim(w))
    ensures Inv(sched, Claimed(s, w, s.workers[w]))
  {
    var p := s.workers[w];
    var s', e := Claimed(s, w, p), Fire(p.found.id, p.run, p.clock, p.next);
    assert WorkerOk(sched, s, p);
    forall v | v in s'.workers ensures WorkerOk(sched, s', s'.workers[v]) {
      assert WorkerOk(sched, s, s.workers[v]);
      if v != w {
        OthersKeep(sched, s, s', s.workers[v]);
      }
    }
    forall o | o in s'.store.docs ensures StoredOk(s', o) {
      assert StoredOk(s, o);
      LastNextAppend(s.writes, e, o);
    }
    if Current(s.store, p.found) {
      assert StoredOk(s, p.found.id) && (s.writes + [e])[..|s.writes|] == s.writes;
      ChainedAppend(s.writes, e);
    }
  }

  lemma PlanStepKeeps(sched: Schedule, s: System, a: Action)
    requires Inv(sched, s) && Enabled(s, a)
    requires a.Wall? || a.Begin? || a.Fetch? || a.PlanFirst? || a.Test? || a.PlanNext? || a.InsertJob? || a.End?
    ensures Inv(sched, Apply(sched, s, a))
  {
    var s' := Apply(sched, s, a);
    forall w | w in s'.workers ensures WorkerOk(sched, s', s'.workers[w]) {
      assert w in s.workers ==> WorkerOk(sched, s, s.workers[w]);
      if a.Fetch? {
        assert StoredOk(s, a.id);
      }
    }
    forall id | id in s'.store.docs ensures StoredOk(s', id) {
      assert StoredOk(s, id);
    }
  }

  /** Every step of every worker keeps the stored next runs equal to what was written last, and the writes a chain. */
  lemma StepKeeps(sched: Schedule, s: System, a: Action)
    requires Upcoming(sched) && Inv(sched, s) && Enabled(s, a)
    ensures Inv(sched, Apply(sched, s, a))
  {
    match a
    case Create(id, cron) => CreateKeeps(sched, s, id, cron);
    case Edit(id, cron) => EditKeeps(sched, s, id, cron);
    case Delete(id) => DeleteKeeps(sched, s, id);
    case WriteFirst(w) => WriteFirstKeeps(sched, s, w);
    case Claim(w) => ClaimKeeps(sched, s, w);
    case _ => PlanStepKeeps(sched, s, a);
  }

  lemma {:induction false} RunKeeps(sched: Schedule, s: System, acts: seq<Action>)
    requires Upcoming(sched) && Inv(sched, s) && Runs(sched, s, acts)
    ensures Inv(sched, After(sched, s, acts))
    decreases |acts|
  {
    if acts != [] {
      StepKeeps(sched, s, acts[0]);
      RunKeeps(sched, Apply(sched, s, acts[0]), acts[1..]);
    }
  }

  // ---------------------------------------------------------------------------
  // Runs in which no edit touches a schedule
  // ---------------------------------------------------------------------------

  predicate Reschedules(s: System, a: Action)
    requires Enabled(s, a)
  {
    a.Edit? && !(a.cron.expression == s.store.docs[a.id].cron.expression
                 && a.cron.nextRun == s.store.docs[a.id].cron.nextRun)
  }

  ghost predicate KeepsSchedules(sched: Schedule, s: System, acts: seq<Action>)
    requires Runs(sched, s, acts)
    decreases |acts|
  {
    acts == [] || (!Reschedules(s, acts[0]) && KeepsSchedules(sched, Apply(sched, s, acts[0]), acts[1..]))
  }

  predicate Original(s: System, id: string, cron: CronJob) {
    id in s.known && cron.expression == s.known[id]
  }

  ghost predicate Fixed(sched: Schedule, s: System) {
    && (forall id :: id in s.store.docs ==> Original(s, id, s.store.docs[id].cron))
    && (forall w :: w in s.workers && Holds(s.workers[w]) ==>
          Original(s, s.workers[w].found.id, s.workers[w].found.stored.cron))
    && AllAnswer(sched, s.known, s.writes)
  }

  lemma FixedStep(sched: Schedule, s: System, a: Action)
    requires Inv(sched, s) && Fixed(sched, s) && Enabled(s, a) && !Reschedules(s, a)
    ensures Fixed(sched, Apply(sched, s, a))
  {
    var s' := Apply(sched, s, a);
    if a.WriteFirst? || a.Claim? {
      assert WorkerOk(sched, s, s.workers[a.worker]);
    }
    forall k | 0 <= k < |s'.writes| ensures Answers(sched, s'.known, s'.writes[k]) {
      if k < |s.writes| {
        assert Answers(sched, s.known, s.writes[k]);
      }
    }
  }

  lemma {:induction false} FixedRun(sched: Schedule, s: System, acts: seq<Action>)
    requires Upcoming(sched) && Inv(sched, s) && Fixed(sched, s)
    requires Runs(sched, s, acts) && KeepsSchedules(sched, s, acts)
    ensures Fixed(sched, After(sched, s, acts))
    decreases |acts|
  {
    if acts != [] {
      StepKeeps(sched, s, acts[0]);
      FixedStep(sched, s, acts[0]);
      FixedRun(sched, Apply(sched, s, acts[0]), acts[1..]);
    }
  }

  // ---------------------------------------------------------------------------
  // What every run guarantees
  // ---------------------------------------------------------------------------

  /**
   Over every interleaving, with any clock changes and edits and any schedule that answers with
   later times: if the next runs that came to be fired were planned at clock readings not before
   the runs fired until then, the run times each job fires at strictly increase.
   */
  lemma TimelyFiringsRise(sched: Schedule, acts: seq<Action>)
    requires Upcoming(sched) && Runs(sched, INITIAL, acts) && Timely(After(sched, INITIAL, acts).writes)
    ensures Rising(After(sched, INITIAL, acts).writes)
  {
    RunKeeps(sched, INITIAL, acts);
    TimelyRises(After(sched, INITIAL, acts).writes);
  }

  /**
   For schedules that answer with the next occurrence and as long as no edit touches a schedule,
   that condition is exact: the run times strictly increase if and only if it holds.
   */
  lemma FiringsRiseIffTimely(sched: Schedule, acts: seq<Action>)
    requires Upcoming(sched) && NextOccurrence(sched)
    requires Runs(sched, INITIAL, acts) && KeepsSchedules(sched, INITIAL, acts)
    ensures Rising(After(sched, INITIAL, acts).writes) <==> Timely(After(sched, INITIAL, acts).writes)
  {
    RunKeeps(sched, INITIAL, acts);
    FixedRun(sched, INITIAL, acts);
    var s := After(sched, INITIAL, acts);
    if Timely(s.writes) {
      TimelyRises(s.writes);
    }
    if Rising(s.writes) {
      RisingIsTimely(sched, s.known, s.writes);
    }
  }

  // ---------------------------------------------------------------------------
  // A clock that does not go back
  // ---------------------------------------------------------------------------

  ghost predicate Forward(sched: Schedule, s: System, acts: seq<Action>)
    requires Runs(sched, s, acts)
    decreases |acts|
  {
    acts == [] || ((acts[0].Wall? ==> s.clock <= acts[0].time) && Forward(sched, Apply(sched, s, acts[0]), acts[1..]))
  }

  /** Nothing document `id` fired lies after `clock`. */
  ghost predicate NotBefore(writes: seq<Write>, id: string, clock: nat) {
    forall e :: e in writes && e.Fire? && e.id == id ==> e.run <= clock
  }

  ghost predicate WorkerInTime(s: System, p: Worker) {
    && p.now <= s.clock
    && ((p.Planned? || p.Claiming?) ==> p.clock <= s.clock)
    && ((p.Planned? || p.Claiming?) && Current(s.store, p.found) ==> NotBefore(s.writes, p.found.id, p.clock))
    && (p.Claiming? ==> p.run <= p.clock)
  }

  ghost predicate InTime(s: System) {
    && (forall w :: w in s.workers ==> WorkerInTime(s, s.workers[w]))
    && (forall e :: e in s.writes && e.Fire? ==> e.run <= s.clock)
    && (forall m :: 0 <= m < |s.writes| && !s.writes[m].Reset? ==> PlannedInTime(s.writes, m))
  }

  lemma PlannedInTimeAppend(writes: seq<Write>, w: Write)
    requires forall m :: 0 <= m < |writes| && !writes[m].Reset? ==> PlannedInTime(writes, m)
    requires !w.Reset? ==> NotBefore(writes, w.id, w.clock) && (w.Fire? ==> w.run <= w.clock)
    ensures forall m :: 0 <= m < |writes + [w]| && !(writes + [w])[m].Reset? ==> PlannedInTime(writes + [w], m)
  {
    var more := writes + [w];
    forall m | 0 <= m < |more| && !more[m].Reset? ensures PlannedInTime(more, m) {
      if m < |writes| {
        assert PlannedInTime(writes, m);
      }
    }
  }

  /** A worker that holds a document nobody wrote, or one that is no longer current, stays in time. */
  lemma StillInTime(s: System, s': System, p: Worker)
    requires WorkerInTime(s, p) && s'.clock == s.clock
    requires Holds(p) && Current(s'.store, p.found) ==>
               Current(s.store, p.found) && forall e :: e in s'.writes && e.id == p.found.id ==> e in s.writes
    ensures WorkerInTime(s', p)
  {
  }

  lemma InTimeEdit(sched: Schedule, s: System, id: string, cron: CronJob)
    requires Inv(sched, s) && InTime(s) && Enabled(s, Edit(id, cron))
    ensures InTime(Edited(s, id, cron))
  {
    var s' := Edited(s, id, cron);
    PlannedInTimeAppend(s.writes, Reset(id));
    forall w | w in s'.workers ensures WorkerInTime(s', s'.workers[w]) {
      assert WorkerOk(sched, s, s.workers[w]);
      StillInTime(s, s', s.workers[w]);
    }
  }

  lemma InTimeFirst(sched: Schedule, s: System, w: nat)
    requires Inv(sched, s) && InTime(s) && Enabled(s, WriteFirst(w))
    ensures InTime(FirstWritten(s, w, s.workers[w]))
  {
    var p := s.workers[w];
    var s' := FirstWritten(s, w, p);
    assert WorkerInTime(s, p) && WorkerOk(sched, s, p);
    if Current(s.store, p.found) {
      PlannedInTimeAppend(s.writes, First(p.found.id, p.clock, p.first));
    }
    forall v | v in s'.workers ensures WorkerInTime(s', s'.workers[v]) {
      assert WorkerOk(sched, s, s.workers[v]);
      if v != w {
        StillInTime(s, s', s.workers[v]);
      }
    }
  }

  lemma InTimeClaim(sched: Schedule, s: System, w: nat)
    requires Inv(sched, s) && InTime(s) && Enabled(s, Claim(w))
    ensures InTime(Claimed(s, w, s.workers[w]))
  {
    var p := s.workers[w];
    var s' := Claimed(s, w, p);
    assert WorkerInTime(s, p) && WorkerOk(sched, s, p);
    if Current(s.store, p.found) {
      PlannedInTimeAppend(s.writes, Fire(p.found.id, p.run, p.clock, p.next));
    }
    forall v | v in s'.workers ensures WorkerInTime(s', s'.workers[v]) {
      assert WorkerOk(sched, s, s.workers[v]);
      if v != w {
        StillInTime(s, s', s.workers[v]);
      }
    }
  }

  lemma InTimeStore(sched: Schedule, s: System, a: Action)
    requires Inv(sched, s) && InTime(s) && Enabled(s, a) && (a.Wall? ==> s.clock <= a.time)
    requires a.Create? || a.Delete? || a.Wall?
    ensures InTime(Apply(sched, s, a))
  {
    var s' := Apply(sched, s, a);
    forall w | w in s'.workers ensures WorkerInTime(s', s'.workers[w]) {
      assert WorkerInTime(s, s.workers[w]) && WorkerOk(sched, s, s.workers[w]);
    }
  }

  lemma InTimePlan(sched: Schedule, s: System, a: Action)
    requires InTime(s) && Enabled(s, a)
    requires a.Begin? || a.Fetch? || a.PlanFirst? || a.Test? || a.PlanNext? || a.InsertJob? || a.End?
    ensures InTime(Apply(sched, s, a))
  {
    var s' := Apply(sched, s, a);
    forall w | w in s'.workers ensures WorkerInTime(s', s'.workers[w]) {
      assert w in s.workers ==> WorkerInTime(s, s.workers[w]);
    }
  }

  lemma InTimeStep(sched: Schedule, s: System, a: Action)
    requires Inv(sched, s) && InTime(s) && Enabled(s, a) && (a.Wall? ==> s.clock <= a.time)
    ensures InTime(Apply(sched, s, a))
  {
    match a
    case Edit(id, cron) => InTimeEdit(sched, s, id, cron);
    case WriteFirst(w) => InTimeFirst(sched, s, w);
    case Claim(w) => InTimeClaim(sched, s, w);
    case Create(_, _) => InTimeStore(sched, s, a);
    case Delete(_) => InTimeStore(sched, s, a);
    case Wall(_) => InTimeStore(sched, s, a);
    case _ => InTimePlan(sched, s, a);
  }

  lemma {:induction false} InTimeRun(sched: Schedule, s: System, acts: seq<Action>)
    requires Upcoming(sched) && Inv(sched, s) && InTime(s) && Runs(sched, s, acts) && Forward(sched, s, acts)
    ensures InTime(After(sched, s, acts))
    decreases |acts|
  {
    if acts != [] {
      StepKeeps(sched, s, acts[0]);
      InTimeStep(sched, s, acts[0]);
      InTimeRun(sched, Apply(sched, s, acts[0]), acts[1..]);
    }
  }

  /** With a clock that never goes back every plan is in time, so no scheduled time is fired twice. */
  lemma FiringsRise(sched: Schedule, acts: seq<Action>)
    requires Upcoming(sched) && Runs(sched, INITIAL, acts) && Forward(sched, INITIAL, acts)
    ensures Rising(After(sched, INITIAL, acts).writes)
  {
    InTimeRun(sched, INITIAL, acts);
    TimelyFiringsRise(sched, acts);
  }

  // ---------------------------------------------------------------------------
  // A clock that goes back
  // ---------------------------------------------------------------------------

  lemma {:induction false} RunOneMore(sched: Schedule, s: System, acts: seq<Action>, a: Action)
    requires Runs(sched, s, acts) && Enabled(After(sched, s, acts), a)
    ensures Runs(sched, s, acts + [a])
    ensures After(sched, s, acts + [a]) == Apply(sched, After(sched, s, acts), a)
    decreases |acts|
  {
    if acts == [] {
      assert [a][1..] == [];
    } else {
      RunOneMore(sched, Apply(sched, s, acts[0]), acts[1..], a);
      assert (acts + [a])[1..] == acts[1..] + [a];
    }
  }

  /** A schedule that answers five until then, and the next second afterwards. */
  function FiveOClock(e: string, t: nat): Option<nat> {
    Some(if t < 5 then 5 else t + 1)
  }

  lemma FiveOClockIsASchedule()
    ensures Upcoming(FiveOClock) && NextOccurrence(FiveOClock)
  {
  }

  /** A cron job waiting for five o'clock, at five o'clock. */
  lemma WaitingForFive(cron: CronJob) returns (acts: seq<Action>)
    requires cron.nextRun == None
    ensures Runs(FiveOClock, INITIAL, acts)
    ensures var s := After(FiveOClock, INITIAL, acts);
      && s.store == Docs(map["a" := Stored(cron.(nextRun := Some(5)), 1)], 2) && s.clock == 5
      && s.workers == map[0 := Ready(0, Snapshot("a", Stored(cron, 0)), 5)] && s.writes == [First("a", 0, 5)]
  {
    acts := [];
    RunOneMore(FiveOClock, INITIAL, acts, Create("a", cron));
    acts := acts + [Create("a", cron)];
    RunOneMore(FiveOClock, INITIAL, acts, Begin(0));
    acts := acts + [Begin(0)];
    RunOneMore(FiveOClock, INITIAL, acts, Fetch(0, "a"));
    acts := acts + [Fetch(0, "a")];
    RunOneMore(FiveOClock, INITIAL, acts, PlanFirst(0));
    acts := acts + [PlanFirst(0)];
    RunOneMore(FiveOClock, INITIAL, acts, WriteFirst(0));
    acts := acts + [WriteFirst(0)];
    RunOneMore(FiveOClock, INITIAL, acts, Wall(5));
    acts := acts + [Wall(5)];
  }

  ghost predicate AtFive(s: System) {
    s.clock == 5 && "a" in s.store.docs && s.store.docs["a"].cron.nextRun == Some(5)
  }

  /** The worker reads the clock for the following run after it was set back to three. */
  lemma PlanWithClockSetBack(acts: seq<Action>, w: nat) returns (more: seq<Action>)
    requires Runs(FiveOClock, INITIAL, acts)
    requires AtFive(After(FiveOClock, INITIAL, acts)) && w !in After(FiveOClock, INITIAL, acts).workers
    ensures Runs(FiveOClock, INITIAL, more)
    ensures var s := After(FiveOClock, INITIAL, acts);
      After(FiveOClock, INITIAL, more)
      == At(s, w, Claiming(5, Snapshot("a", s.store.docs["a"]), 5, 3, Some(5))).(clock := 3)
  {
    RunOneMore(FiveOClock, INITIAL, acts, Begin(w));
    more := acts + [Begin(w)];
    RunOneMore(FiveOClock, INITIAL, more, Fetch(w, "a"));
    more := more + [Fetch(w, "a")];
    RunOneMore(FiveOClock, INITIAL, more, Test(w));
    more := more + [Test(w)];
    RunOneMore(FiveOClock, INITIAL, more, Wall(3));
    more := more + [Wall(3)];
    RunOneMore(FiveOClock, INITIAL, more, PlanNext(w));
    more := more + [PlanNext(w)];
  }

  lemma FireWithClockSetBack(acts: seq<Action>, w: nat) returns (more: seq<Action>)
    requires Runs(FiveOClock, INITIAL, acts)
    requires AtFive(After(FiveOClock, INITIAL, acts)) && w !in After(FiveOClock, INITIAL, acts).workers
    ensures Runs(FiveOClock, INITIAL, more) && AtFive(After(FiveOClock, INITIAL, more))
    ensures After(FiveOClock, INITIAL, more).writes
         == After(FiveOClock, INITIAL, acts).writes + [Fire("a", 5, 3, Some(5))]
    ensures After(FiveOClock, INITIAL, more).workers.Keys == After(FiveOClock, INITIAL, acts).workers.Keys + {w}
  {
    more := PlanWithClockSetBack(acts, w);
    RunOneMore(FiveOClock, INITIAL, more, Claim(w));
    more := more + [Claim(w)];
    RunOneMore(FiveOClock, INITIAL, more, Wall(5));
    more := more + [Wall(5)];
  }

  lemma TwiceFive(writes: seq<Write>)
    requires writes == [First("a", 0, 5)] + [Fire("a", 5, 3, Some(5))] + [Fire("a", 5, 3, Some(5))]
    ensures !Rising(writes)
  {
    assert Both(writes[1], writes[2]);
  }

  /** Setting the clock back between due test and planning makes a job fire the same scheduled time twice. */
  lemma ClockSetBackFiresTwice(cron: CronJob) returns (acts: seq<Action>)
    requires cron.nextRun == None
    ensures Upcoming(FiveOClock) && NextOccurrence(FiveOClock)
    ensures Runs(FiveOClock, INITIAL, acts)
    ensures After(FiveOClock, INITIAL, acts).writes
         == [First("a", 0, 5)] + [Fire("a", 5, 3, Some(5))] + [Fire("a", 5, 3, Some(5))]
    ensures !Rising(After(FiveOClock, INITIAL, acts).writes)
  {
    FiveOClockIsASchedule();
    acts := WaitingForFive(cron);
    acts := FireWithClockSetBack(acts, 1);
    acts := FireWithClockSetBack(acts, 2);
    TwiceFive(After(FiveOClock, INITIAL, acts).writes);
  }
}
