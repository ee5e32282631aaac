/**
 The thread-safe clock generator (src/cluster/hlc.rs): two atomic words, of which the
 compare-exchange guards only the physical one. `Generator` is the source's object, used by
 one thread; `Step` interleaves the atomic operations of any number of threads.
 */
module ClockGenerator {
  import opened HybridClock
  import opened Numbers
  import opened Wrappers

  /** One call: `now()` has no remote clock, `receive(remote)` has one. */
  datatype Call = Call(now: nat, remote: Option<Clock>)

  /** The pair of words a call computes from the pair it loaded. */
  function Advance(call: Call, phys: nat, log: nat): (nat, nat) {
    match call.remote
    case None => if call.now > phys then (call.now, 0) else (phys, log + 1)
    case Some(r) =>
      if call.now > phys && call.now > r.physical then (call.now, 0)
      else if phys > r.physical then
        if call.now >= phys then (call.now, 0) else (phys, log + 1)
      else if r.physical > phys then (r.physical, r.logical + 1)
      else (phys, Max(log, r.logical) + 1)
  }

  function Issued(node: string, words: (nat, nat)): Clock {
    Clock(words.0, words.1 % U32_LIMIT, node)
  }

  /** A call gives the clock that `tick` or `receive` gives from the two words. */
  lemma GeneratorIsHybridClock(node: string, call: Call, phys: nat, log: nat)
    ensures Issued(node, Advance(call, phys, log))
         == (match call.remote
             case None => Tick(Clock(phys, log, node), node, call.now)
             case Some(r) => Receive(Clock(phys, log, node), r, node, call.now))
  {
  }

  predicate Resets(call: Call, phys: nat) {
    call.remote.Some? && call.now == phys > call.remote.value.physical
  }

  // ---------------------------------------------------------------------------
  // The object, used by one thread at a time
  // ---------------------------------------------------------------------------

  class AtomicU64 {
    var value: nat

    constructor (v: nat)
      ensures value == v
    {
      value := v;
    }

    method Load() returns (v: nat)
      ensures v == value
    {
      v := value;
    }

    method Store(v: nat)
      modifies this
      ensures value == v
    {
      value := v;
    }

    method CompareExchange(expected: nat, desired: nat) returns (ok: bool)
      modifies this
      ensures ok <==> old(value) == expected
      ensures value == if ok then desired else old(value)
    {
      ok := value == expected;
      if ok {
        value := desired;
      }
    }
  }

  class Generator {
    const node: string
    const lastPhysical: AtomicU64
    const lastLogical: AtomicU64

    ghost predicate Valid() {
      lastPhysical != lastLogical
    }

    ghost function Words(): (nat, nat)
      reads lastPhysical, lastLogical
    {
      (lastPhysical.value, lastLogical.value)
    }

    constructor (node: string)
      ensures Valid() && this.node == node && Words() == (0, 0)
      ensures fresh(lastPhysical) && fresh(lastLogical)
    {
      this.node := node;
      lastPhysical := new AtomicU64(0);
      lastLogical := new AtomicU64(0);
    }

    method Now(now: nat) returns (c: Clock)
      requires Valid()
      modifies lastPhysical, lastLogical
      ensures Words() == Advance(Call(now, None), old(Words()).0, old(Words()).1)
      ensures c == Issued(node, Words())
    {
      var done := false;
      c := Clock(0, 0, node);
      while !done
        invariant !done ==> Words() == old(Words())
        invariant done ==> Words() == Advance(Call(now, None), old(Words()).0, old(Words()).1)
        invariant done ==> c == Issued(node, Words())
        decreases !done
      {
        var lastPhys := lastPhysical.Load();
        var lastLog := lastLogical.Load();
        var newPhys, newLog := now, 0;
        if now <= lastPhys {
          newPhys, newLog := lastPhys, lastLog + 1;
        }
        done := lastPhysical.CompareExchange(lastPhys, newPhys);
        if done {
          lastLogical.Store(newLog);
        }
        c := Clock(newPhys, newLog % U32_LIMIT, node);
      }
    }

    method Receive(remote: Clock, now: nat) returns (c: Clock)
      requires Valid()
      modifies lastPhysical, lastLogical
      ensures Words() == Advance(Call(now, Some(remote)), old(Words()).0, old(Words()).1)
      ensures c == Issued(node, Words())
    {
      var done := false;
      c := Clock(0, 0, node);
      while !done
        invariant !done ==> Words() == old(Words())
        invariant done ==> Words() == Advance(Call(now, Some(remote)), old(Words()).0, old(Words()).1)
        invariant done ==> c == Issued(node, Words())
        decreases !done
      {
        var lastPhys := lastPhysical.Load();
        var lastLog := lastLogical.Load();
        var newPhys, newLog;
        if now > lastPhys && now > remote.physical {
          newPhys, newLog := now, 0;
        } else if lastPhys > remote.physical {
          if now >= lastPhys {
            newPhys, newLog := now, 0;
          } else {
            newPhys, newLog := lastPhys, lastLog + 1;
          }
        } else if remote.physical > lastPhys {
          newPhys, newLog := remote.physical, remote.logical + 1;
        } else {
          newPhys, newLog := lastPhys, (if lastLog < remote.logical then remote.logical else lastLog) + 1;
        }
        done := lastPhysical.CompareExchange(lastPhys, newPhys);
        if done {
          lastLogical.Store(newLog);
        }
        c := Clock(newPhys, newLog % U32_LIMIT, node);
      }
    }
  }

  /** The two words after a sequence of calls, one after the other, on a new generator. */
  function WordsAfter(calls: seq<Call>): (nat, nat) {
    if calls == [] then (0, 0)
    else
      var before := WordsAfter(calls[..|calls| - 1]);
      Advance(calls[|calls| - 1], before.0, before.1)
  }

  /** The clock the k-th of these calls returns. */
  function Output(node: string, calls: seq<Call>, k: nat): Clock
    requires k < |calls|
  {
    Issued(node, WordsAfter(calls[..k + 1]))
  }

  ghost predicate CountersFit(calls: seq<Call>) {
    forall k :: 0 <= k <= |calls| ==> WordsAfter(calls[..k]).1 < U32_LIMIT
  }

  ghost predicate ResetFree(calls: seq<Call>) {
    forall k :: 0 <= k < |calls| ==> !Resets(calls[k], WordsAfter(calls[..k]).0)
  }

  ghost predicate StrictlyIncreasing(node: string, calls: seq<Call>) {
    forall i, j :: 0 <= i < j < |calls| ==> IsNewerThan(Output(node, calls, j), Output(node, calls, i))
  }

  lemma CallStep(node: string, calls: seq<Call>, k: nat)
    requires 0 < k < |calls| && CountersFit(calls)
    ensures Resets(calls[k], WordsAfter(calls[..k]).0)
         ==> !IsNewerThan(Output(node, calls, k), Output(node, calls, k - 1))
    ensures !Resets(calls[k], WordsAfter(calls[..k]).0)
         ==> Above(Output(node, calls, k), Output(node, calls, k - 1))
  {
    assert calls[..k + 1][..k] == calls[..k];
    assert WordsAfter(calls[..k]).1 < U32_LIMIT && WordsAfter(calls[..k + 1]).1 < U32_LIMIT;
    CompareTextReflexive(node);
  }

  lemma {:induction false} OutputsAbove(node: string, calls: seq<Call>, i: nat, j: nat)
    requires i < j < |calls| && CountersFit(calls) && ResetFree(calls)
    ensures Above(Output(node, calls, j), Output(node, calls, i))
    decreases j
  {
    CallStep(node, calls, j);
    if i + 1 < j { OutputsAbove(node, calls, i, j - 1); }
  }

  /**
   Calls that run one after another return strictly increasing clocks if and only if no
   `receive` hits the reset corner, as long as the counter stays below 2^32.
   */
  lemma SequentialStrictIffResetFree(node: string, calls: seq<Call>)
    requires CountersFit(calls)
    ensures StrictlyIncreasing(node, calls) <==> ResetFree(calls)
  {
    if ResetFree(calls) {
      forall i, j | 0 <= i < j < |calls|
        ensures IsNewerThan(Output(node, calls, j), Output(node, calls, i))
      {
        OutputsAbove(node, calls, i, j);
      }
    } else {
      var k :| 0 <= k < |calls| && Resets(calls[k], WordsAfter(calls[..k]).0);
      assert k > 0 by { assert calls[..0] == []; }
      CallStep(node, calls, k);
    }
  }

  /** In particular, `now()` alone is strictly increasing whatever the wall clock does. */
  lemma SequentialNowStrict(node: string, calls: seq<Call>)
    requires CountersFit(calls)
    requires forall k :: 0 <= k < |calls| ==> calls[k].remote.None?
    ensures StrictlyIncreasing(node, calls)
  {
    SequentialStrictIffResetFree(node, calls);
  }

  // ---------------------------------------------------------------------------
  // Any number of threads, interleaved at every atomic operation
  // ---------------------------------------------------------------------------

  datatype Pc =
    | Idle
    | Begun(call: Call)
    | GotPhysical(call: Call, phys: nat)
    | GotBoth(call: Call, phys: nat, log: nat)
    | Swapped(install: nat)

  /** A successful compare-exchange: the word it replaced, the counter it had loaded and the words it computed. */
  datatype Install = Install(call: Call, before: nat, loaded: nat, words: (nat, nat))

  datatype Action = Begin(thread: nat, call: Call) | Continue(thread: nat)

  datatype State = State(phys: nat, log: nat, threads: map<nat, Pc>,
                         installs: seq<Install>, returned: seq<nat>)

  const INITIAL := State(0, 0, map[], [], [])

  function PcOf(s: State, t: nat): Pc {
    if t in s.threads then s.threads[t] else Idle
  }

  /** One atomic operation of one thread; an action that is not possible changes nothing. */
  function Step(s: State, a: Action): State {
    var t := a.thread;
    match (a, PcOf(s, t))
    case (Begin(_, call), Idle) => s.(threads := s.threads[t := Begun(call)])
    case (Continue(_), Begun(call)) => s.(threads := s.threads[t := GotPhysical(call, s.phys)])
    case (Continue(_), GotPhysical(call, phys)) => s.(threads := s.threads[t := GotBoth(call, phys, s.log)])
    case (Continue(_), GotBoth(call, phys, log)) =>
      if s.phys == phys then
        var words := Advance(call, phys, log);
        s.(phys := words.0,
           threads := s.threads[t := Swapped(|s.installs|)],
           installs := s.installs + [Install(call, phys, log, words)])
      else s.(threads := s.threads[t := Begun(call)])
    case (Continue(_), Swapped(k)) =>
      if k < |s.installs| then
        s.(log := s.installs[k].words.1, threads := s.threads[t := Idle], returned := s.returned + [k])
      else s
    case _ => s
  }

  function Execute(s: State, actions: seq<Action>): State {
    if actions == [] then s else Step(Execute(s, actions[..|actions| - 1]), actions[|actions| - 1])
  }

  /** The physical word the last successful compare-exchange left. */
  function Top(installs: seq<Install>): nat {
    if installs == [] then 0 else installs[|installs| - 1].words.0
  }

  /** Install `i` starts from the word its predecessor left and never moves time back. */
  ghost predicate Linked(installs: seq<Install>, i: nat)
    requires i < |installs|
  {
    && installs[i].before == Top(installs[..i])
    && installs[i].before <= installs[i].words.0
    && InstallOf(installs[i])
  }

  /** What the kind of call fixes about the words it installs. */
  ghost predicate InstallOf(i: Install) {
    && i.words == Advance(i.call, i.before, i.loaded)
    && i.call.now <= i.words.0
    && (i.call.remote.Some? ==> i.call.remote.value.physical <= i.words.0)
  }

  ghost predicate Chain(installs: seq<Install>) {
    forall i :: 0 <= i < |installs| ==> Linked(installs, i)
  }

  ghost predicate Chained(s: State) {
    && Chain(s.installs) && s.phys == Top(s.installs)
    && (forall t :: t in s.threads && s.threads[t].Swapped? ==> s.threads[t].install < |s.installs|)
    && (forall i :: 0 <= i < |s.returned| ==> s.returned[i] < |s.installs|)
  }

  lemma ChainExtends(installs: seq<Install>, call: Call, log: nat)
    requires Chain(installs)
    ensures var words := Advance(call, Top(installs), log);
            var more := installs + [Install(call, Top(installs), log, words)];
            Chain(more) && Top(more) == words.0 && Top(installs) <= Top(more)
  {
    var more := installs + [Install(call, Top(installs), log, Advance(call, Top(installs), log))];
    forall i | 0 <= i < |more| ensures Linked(more, i) {
      if i < |installs| {
        assert more[..i] == installs[..i] && Linked(installs, i);
      } else {
        assert more[..i] == installs;
      }
    }
  }

  lemma StepChained(s: State, a: Action)
    requires Chained(s)
    ensures Chained(Step(s, a)) && s.phys <= Step(s, a).phys
    ensures s.installs <= Step(s, a).installs && s.returned <= Step(s, a).returned
  {
    var pc := PcOf(s, a.thread);
    if a.Continue? && pc.GotBoth? && s.phys == pc.phys {
      ChainExtends(s.installs, pc.call, pc.log);
    }
  }

  lemma {:induction false} ExecuteChained(s: State, actions: seq<Action>)
    requires Chained(s)
    ensures Chained(Execute(s, actions)) && s.phys <= Execute(s, actions).phys
    ensures s.installs <= Execute(s, actions).installs && s.returned <= Execute(s, actions).returned
  {
    if actions != [] {
      ExecuteChained(s, actions[..|actions| - 1]);
      StepChained(Execute(s, actions[..|actions| - 1]), actions[|actions| - 1]);
    }
  }

  lemma {:induction false} ExecuteAppend(s: State, a: seq<Action>, b: seq<Action>)
    ensures Execute(s, a + b) == Execute(Execute(s, a), b)
  {
    if b == [] {
      assert a + b == a;
    } else {
      assert (a + b)[..|a + b| - 1] == a + b[..|b| - 1];
      ExecuteAppend(s, a, b[..|b| - 1]);
    }
  }

  lemma {:induction false} ChainMonotone(s: State, i: nat, j: nat)
    requires Chained(s) && i <= j < |s.installs|
    ensures s.installs[i].words.0 <= s.installs[j].words.0
    ensures i < j ==> s.installs[i].words.0 <= s.installs[j].before
  {
    assert Linked(s.installs, j);
    if i < j { ChainMonotone(s, i, j - 1); }
  }

  /** In every interleaving the physical word never decreases. */
  lemma PhysicalNeverDecreases(before: seq<Action>, after: seq<Action>)
    ensures Execute(INITIAL, before).phys <= Execute(INITIAL, before + after).phys
  {
    ExecuteChained(INITIAL, before);
    ExecuteAppend(INITIAL, before, after);
    ExecuteChained(Execute(INITIAL, before), after);
  }

  /**
   In every interleaving the physical word bounds the physical time of every clock returned so
   far, and no call returns a time behind its wall reading or its remote clock.
   */
  lemma ReturnedTimesBounded(actions: seq<Action>, node: string, i: nat)
    requires i < |Execute(INITIAL, actions).returned|
    ensures var s := Execute(INITIAL, actions);
            && s.returned[i] < |s.installs|
            && (var call, clock := s.installs[s.returned[i]].call, Issued(node, s.installs[s.returned[i]].words);
                && call.now <= clock.physical <= s.phys
                && (call.remote.Some? ==> call.remote.value.physical <= clock.physical))
  {
    ExecuteChained(INITIAL, actions);
    var s := Execute(INITIAL, actions);
    ChainMonotone(s, s.returned[i], |s.installs| - 1);
    assert Linked(s.installs, s.returned[i]);
  }

  /** The call took its clock without moving the physical word. */
  predicate Stays(i: Install) {
    i.words.0 == i.before
  }

  /**
   Whatever the two calls are, equal words mean that the later one left the physical word alone:
   a call that advances time never repeats an earlier clock.
   */
  lemma DuplicatesNeverAdvance(actions: seq<Action>, i: nat, j: nat)
    requires var s := Execute(INITIAL, actions);
             i < j < |s.installs| && s.installs[i].words == s.installs[j].words
    ensures Stays(Execute(INITIAL, actions).installs[j])
  {
    ExecuteChained(INITIAL, actions);
    ChainMonotone(Execute(INITIAL, actions), i, j);
  }

  lemma SameWordsIff(a: Install, b: Install)
    requires InstallOf(a) && InstallOf(b) && a.call.remote.None? && b.call.remote.None?
    requires a.before <= a.words.0 <= b.before
    ensures a.words == b.words <==> a.before == b.before && Stays(a) && Stays(b) && a.loaded == b.loaded
  {
  }

  lemma SameClockIff(node: string, v: (nat, nat), w: (nat, nat))
    requires v.1 < U32_LIMIT && w.1 < U32_LIMIT
    ensures Issued(node, v) == Issued(node, w) <==> v == w
  {
  }

  /**
   In every interleaving two `now()` calls get the same clock if and only if they started from the
   same physical word, neither moved it, and both had loaded the same counter.
   */
  lemma DuplicateIffSameCounter(actions: seq<Action>, node: string, i: nat, j: nat)
    requires var s := Execute(INITIAL, actions);
             && i < j < |s.installs|
             && s.installs[i].call.remote.None? && s.installs[j].call.remote.None?
             && s.installs[i].words.1 < U32_LIMIT && s.installs[j].words.1 < U32_LIMIT
    ensures var a, b := Execute(INITIAL, actions).installs[i], Execute(INITIAL, actions).installs[j];
            Issued(node, a.words) == Issued(node, b.words)
            <==> a.before == b.before && Stays(a) && Stays(b) && a.loaded == b.loaded
  {
    ExecuteChained(INITIAL, actions);
    var s := Execute(INITIAL, actions);
    var a, b := s.installs[i], s.installs[j];
    ChainMonotone(s, i, j);
    assert Linked(s.installs, i) && Linked(s.installs, j);
    SameWordsIff(a, b);
    SameClockIff(node, a.words, b.words);
  }

  /** The latest of the wall reading, the physical word and the remote time. */
  function TimeOf(i: Install): nat {
    Max(Max(i.call.now, i.before), if i.call.remote.Some? then i.call.remote.value.physical else 0)
  }

  /** The call restarts the counter: its wall reading is the latest time, or it hits the reset. */
  predicate Restarts(i: Install) {
    || (i.call.now > i.before && (i.call.remote.Some? ==> i.call.now > i.call.remote.value.physical))
    || Resets(i.call, i.before)
  }

  /** The largest counter the call was shown for the time it ends up with. */
  function Shown(i: Install): nat {
    Max(if i.before == TimeOf(i) then i.loaded else 0,
        if i.call.remote.Some? && i.call.remote.value.physical == TimeOf(i) then i.call.remote.value.logical else 0)
  }

  lemma WordsOf(i: Install)
    requires InstallOf(i)
    ensures i.words == (TimeOf(i), if Restarts(i) then 0 else Shown(i) + 1)
  {
  }

  /**
   In every interleaving any two calls, with or without remote clocks, get the same clock if and only
   if the later one ends up with the time of the earlier one and both restart the counter, or neither
   does and both were shown the same counter for that time.
   */
  lemma DuplicateIff(actions: seq<Action>, node: string, i: nat, j: nat)
    requires var s := Execute(INITIAL, actions);
             && i < j < |s.installs| && s.installs[i].words.1 < U32_LIMIT && s.installs[j].words.1 < U32_LIMIT
    ensures var a, b := Execute(INITIAL, actions).installs[i], Execute(INITIAL, actions).installs[j];
            Issued(node, a.words) == Issued(node, b.words)
            <==> TimeOf(a) == TimeOf(b) && Restarts(a) == Restarts(b) && (!Restarts(a) ==> Shown(a) == Shown(b))
    ensures var a, b := Execute(INITIAL, actions).installs[i], Execute(INITIAL, actions).installs[j];
            TimeOf(a) == TimeOf(b) ==> TimeOf(b) == b.before && (Restarts(b) <==> Resets(b.call, b.before))
  {
    ExecuteChained(INITIAL, actions);
    var s := Execute(INITIAL, actions);
    var a, b := s.installs[i], s.installs[j];
    ChainMonotone(s, i, j);
    assert Linked(s.installs, i) && Linked(s.installs, j);
    WordsOf(a);
    WordsOf(b);
    SameClockIff(node, a.words, b.words);
  }

  predicate Below(a: (nat, nat), b: (nat, nat)) {
    a.0 < b.0 || (a.0 == b.0 && a.1 < b.1)
  }

  ghost predicate InstallsRise(installs: seq<Install>) {
    forall i, j :: 0 <= i < j < |installs| ==> Below(installs[i].words, installs[j].words)
  }

  /** The counter loaded is not behind the one the previous successful call computed. */
  predicate SawPredecessor(installs: seq<Install>, k: nat)
    requires 0 < k < |installs|
  {
    Stays(installs[k]) ==> installs[k].loaded >= installs[k - 1].words.1
  }

  ghost predicate AllSawPredecessor(installs: seq<Install>) {
    forall k :: 0 < k < |installs| ==> SawPredecessor(installs, k)
  }

  lemma RiseIffSaw(installs: seq<Install>, k: nat)
    requires Chain(installs) && 0 < k < |installs| && installs[k].call.remote.None?
    ensures Below(installs[k - 1].words, installs[k].words) <==> SawPredecessor(installs, k)
  {
    assert Linked(installs, k);
  }

  lemma {:induction false} RiseFar(installs: seq<Install>, i: nat, j: nat)
    requires Chain(installs) && AllSawPredecessor(installs) && i < j < |installs|
    requires forall k :: 0 <= k < |installs| ==> installs[k].call.remote.None?
    ensures Below(installs[i].words, installs[j].words)
    decreases j
  {
    RiseIffSaw(installs, j);
    if i < j - 1 {
      RiseFar(installs, i, j - 1);
    }
  }

  /**
   An interleaving of `now()` calls hands out strictly increasing clocks, in the order of their
   successful compare-exchanges, if and only if every call that leaves the physical word alone had
   loaded a counter not behind the one its predecessor computed.
   */
  lemma NowRisesIffPredecessorSeen(actions: seq<Action>)
    requires forall k :: 0 <= k < |Execute(INITIAL, actions).installs| ==>
               Execute(INITIAL, actions).installs[k].call.remote.None?
    ensures InstallsRise(Execute(INITIAL, actions).installs)
       <==> AllSawPredecessor(Execute(INITIAL, actions).installs)
  {
    ExecuteChained(INITIAL, actions);
    var installs := Execute(INITIAL, actions).installs;
    if AllSawPredecessor(installs) {
      forall i, j | 0 <= i < j < |installs| ensures Below(installs[i].words, installs[j].words) {
        RiseFar(installs, i, j);
      }
    }
    if InstallsRise(installs) {
      forall k | 0 < k < |installs| ensures SawPredecessor(installs, k) {
        RiseIffSaw(installs, k);
      }
    }
  }

  /**
   Uniqueness fails under overlap: the compare-exchange of a call that leaves the physical
   word as it is does not notice that another call used the same counter.
   */
  lemma OverlapDuplicates(node: string) returns (actions: seq<Action>)
    ensures var s := Execute(INITIAL, actions);
            && |s.returned| == 2 && s.returned[0] != s.returned[1]
            && s.returned[0] < |s.installs| && s.returned[1] < |s.installs|
            && Issued(node, s.installs[s.returned[0]].words) == Issued(node, s.installs[s.returned[1]].words)
  {
    var call := Call(0, None);
    actions := [Begin(1, call), Begin(2, call),
                Continue(1), Continue(1), Continue(2), Continue(2),
                Continue(1), Continue(2), Continue(1), Continue(2)];
    var begun, both := Begun(call), GotBoth(call, 0, 0);
    var install := Install(call, 0, 0, (0, 1));
    var s1 := State(0, 0, map[1 := begun, 2 := begun], [], []);
    var s2 := State(0, 0, map[1 := both, 2 := begun], [], []);
    var s3 := State(0, 0, map[1 := both, 2 := both], [], []);
    var s4 := State(0, 0, map[1 := Swapped(0), 2 := Swapped(1)], [install, install], []);
    var s5 := State(0, 1, map[1 := Idle, 2 := Idle], [install, install], [0, 1]);
    assert Step(Step(INITIAL, Begin(1, call)), Begin(2, call)) == s1;
    assert Step(Step(s1, Continue(1)), Continue(1)) == s2;
    assert Step(Step(s2, Continue(2)), Continue(2)) == s3;
    assert Step(Step(s3, Continue(1)), Continue(2)) == s4;
    assert Step(Step(s4, Continue(1)), Continue(2)) == s5;
    TwoMore([], Begin(1, call), Begin(2, call));
    assert actions[..2] == [] + [Begin(1, call), Begin(2, call)];
    TwoMore(actions[..2], Continue(1), Continue(1));
    assert actions[..4] == actions[..2] + [Continue(1), Continue(1)];
    TwoMore(actions[..4], Continue(2), Continue(2));
    assert actions[..6] == actions[..4] + [Continue(2), Continue(2)];
    TwoMore(actions[..6], Continue(1), Continue(2));
    assert actions[..8] == actions[..6] + [Continue(1), Continue(2)];
    TwoMore(actions[..8], Continue(1), Continue(2));
    assert actions == actions[..8] + [Continue(1), Continue(2)];
  }

  lemma {:induction false} Continues(s: State, t: nat, n: nat)
    ensures Execute(s, seq(n + 1, i => Continue(t))) == Execute(Step(s, Continue(t)), seq(n, i => Continue(t)))
  {
    var all := seq(n + 1, i => Continue(t));
    assert all[..n] == seq(n, i => Continue(t));
    if n > 0 {
      Continues(s, t, n - 1);
      assert all[..n][..n - 1] == seq(n - 1, i => Continue(t));
      assert seq(n, i => Continue(t))[..n - 1] == seq(n - 1, i => Continue(t));
    } else {
      assert Execute(s, []) == s;
    }
  }

  /**
   A call that no other thread interrupts, from any state: it computes its words from the two
   words it finds, leaves exactly them behind and returns.
   */
  lemma UninterruptedCall(s: State, t: nat, call: Call)
    requires PcOf(s, t) == Idle
    ensures var words := Advance(call, s.phys, s.log);
            Execute(Step(s, Begin(t, call)), seq(4, i => Continue(t)))
            == State(words.0, words.1, s.threads[t := Idle],
                     s.installs + [Install(call, s.phys, s.log, words)], s.returned + [|s.installs|])
  {
    var words := Advance(call, s.phys, s.log);
    var installs := s.installs + [Install(call, s.phys, s.log, words)];
    var s1 := s.(threads := s.threads[t := Begun(call)]);
    var s2 := s.(threads := s.threads[t := GotPhysical(call, s.phys)]);
    var s3 := s.(threads := s.threads[t := GotBoth(call, s.phys, s.log)]);
    var s4 := s.(phys := words.0, threads := s.threads[t := Swapped(|s.installs|)], installs := installs);
    var s5 := State(words.0, words.1, s.threads[t := Idle], installs, s.returned + [|s.installs|]);
    assert Step(s, Begin(t, call)) == s1;
    assert Step(s1, Continue(t)) == s2;
    assert Step(s2, Continue(t)) == s3;
    assert Step(s3, Continue(t)) == s4;
    assert Step(s4, Continue(t)) == s5;
    Continues(s1, t, 3);
    Continues(s2, t, 2);
    Continues(s3, t, 1);
    Continues(s4, t, 0);
    assert Execute(s5, seq(0, i => Continue(t))) == s5;
  }

  lemma TwoMore(done: seq<Action>, a: Action, b: Action)
    ensures Execute(INITIAL, done + [a, b]) == Step(Step(Execute(INITIAL, done), a), b)
  {
    var all := done + [a, b];
    assert all[..|all| - 1] == done + [a];
    assert (done + [a])[..|done + [a]| - 1] == done;
  }
}
