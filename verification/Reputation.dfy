/**
 Agent reputation (src/ai/marketplace.rs): statistics kept up to date task by task, and a trust
 score computed from them. Floating-point numbers are modelled as exact reals, and the square
 root as a function that is exact.
 */
module Reputation {

  const WINDOW: nat := 20
  const SNAPSHOTS: nat := 100
  const DEFAULT: real := 0.5

  datatype Task = Task(kind: string, success: bool, duration: nat)

  datatype Stats = Stats(completed: nat, failed: nat, duration: nat)

  datatype Snapshot = Snapshot(trust: real, total: int)

  // ---------------------------------------------------------------------------
  // What the statistics should be, from the whole history
  // ---------------------------------------------------------------------------

  function OfKind(log: seq<Task>, kind: string): seq<Task> {
    if log == [] then []
    else
      OfKind(log[..|log| - 1], kind) + if log[|log| - 1].kind == kind then [log[|log| - 1]] else []
  }

  function Successes(log: seq<Task>): (n: nat)
    ensures n <= |log|
  {
    if log == [] then 0 else Successes(log[..|log| - 1]) + if log[|log| - 1].success then 1 else 0
  }

  function Duration(log: seq<Task>): nat {
    if log == [] then 0 else Duration(log[..|log| - 1]) + log[|log| - 1].duration
  }

  function Totals(own: seq<Task>): Stats {
    Stats(Successes(own), |own| - Successes(own), Duration(own))
  }

  /** The last tasks, at most a window of them. */
  function Recent(log: seq<Task>): seq<Task> {
    if |log| <= WINDOW then log else log[|log| - WINDOW..]
  }

  function Rate(log: seq<Task>): real {
    if log == [] then DEFAULT else Successes(log) as real / |log| as real
  }

  // ---------------------------------------------------------------------------
  // Sums over maps, in no order
  // ---------------------------------------------------------------------------

  ghost function Sum(m: map<string, real>): real
    decreases |m|
  {
    if m == map[] then 0.0
    else
      var k :| k in m;
      SmallerWithout(m, k);
      m[k] + Sum(m - {k})
  }

  lemma SmallerWithout<V>(m: map<string, V>, k: string)
    requires k in m
    ensures |m - {k}| == |m| - 1
  {
    assert (m - {k}).Keys == m.Keys - {k};
    assert |(m - {k}).Keys| == |m - {k}| && |m.Keys| == |m|;
  }

  lemma {:induction false} SumPick(m: map<string, real>, k: string)
    requires k in m
    ensures Sum(m) == m[k] + Sum(m - {k})
    decreases |m|
  {
    var j :| j in m && Sum(m) == m[j] + Sum(m - {j});
    if j != k {
      SmallerWithout(m, j);
      SmallerWithout(m, k);
      SumPick(m - {j}, k);
      SumPick(m - {k}, j);
      assert m - {j} - {k} == m - {k} - {j};
    }
  }

  lemma SumUpdate(m: map<string, real>, k: string, v: real)
    ensures Sum(m[k := v]) == Sum(m) - (if k in m then m[k] else 0.0) + v
  {
    SumPick(m[k := v], k);
    if k in m {
      SumPick(m, k);
      assert m[k := v] - {k} == m - {k};
    } else {
      assert m[k := v] - {k} == m;
    }
  }

  /** Adds up the values in whatever order the map yields them. */
  method AddUp(m: map<string, real>) returns (total: real)
    ensures total == Sum(m)
  {
    total := 0.0;
    var rest := m;
    while rest != map[]
      invariant total + Sum(rest) == Sum(m)
      invariant rest.Keys <= m.Keys
      decreases |rest|
    {
      var k :| k in rest;
      SumPick(rest, k);
      SmallerWithout(rest, k);
      total := total + rest[k];
      rest := rest - {k};
    }
  }

  // ---------------------------------------------------------------------------
  // The variance of rates
  // ---------------------------------------------------------------------------

  ghost predicate AreRates(m: map<string, real>) {
    forall k :: k in m ==> 0.0 <= m[k] <= 1.0
  }

  function Deviation(r: real, mean: real): real {
    (r - mean) * (r - mean)
  }

  function Squared(m: map<string, real>, mean: real): map<string, real> {
    map k | k in m :: Deviation(m[k], mean)
  }

  function Line(a: real, d: real, r: real): real {
    a * r + d
  }

  function Lines(m: map<string, real>, a: real, d: real): map<string, real> {
    map k | k in m :: Line(a, d, m[k])
  }

  lemma RateSquared(r: real)
    requires 0.0 <= r <= 1.0
    ensures r * r <= r
  {
  }

  lemma SquareNonNegative(x: real)
    ensures x * x >= 0.0
  {
  }

  lemma ProductNonNegative(x: real, y: real)
    requires x >= 0.0 && y >= 0.0
    ensures x * y >= 0.0
  {
  }

  lemma SquareOfRate(r: real, c: real)
    requires 0.0 <= r <= 1.0
    ensures 0.0 <= Deviation(r, c) <= Line(1.0 - 2.0 * c, c * c, r)
  {
    SquareNonNegative(r - c);
    var y := c * r;
    assert Deviation(r, c) == r * r - 2.0 * y + c * c;
    assert (1.0 - 2.0 * c) * r == r - 2.0 * y;
    RateSquared(r);
  }

  lemma {:induction false} SumMonotone(m: map<string, real>, l: map<string, real>)
    requires m.Keys == l.Keys && forall k :: k in m ==> 0.0 <= m[k] <= l[k]
    ensures 0.0 <= Sum(m) <= Sum(l)
    decreases |m|
  {
    if m == map[] {
      assert l == map[];
    } else {
      var k :| k in m;
      SmallerWithout(m, k);
      SumPick(m, k);
      SumPick(l, k);
      SumMonotone(m - {k}, l - {k});
    }
  }

  /** The sum of n such lines over values that add up to s. */
  function Affine(a: real, d: real, s: real, n: real): real {
    a * s + n * d
  }

  lemma LineStep(a: real, d: real, r: real, s: real, n: real)
    ensures Line(a, d, r) + Affine(a, d, s, n) == Affine(a, d, r + s, n + 1.0)
  {
    assert a * (r + s) == a * r + a * s;
    assert (n + 1.0) * d == n * d + d;
  }

  lemma {:induction false} SumOfLines(m: map<string, real>, a: real, d: real)
    ensures Sum(Lines(m, a, d)) == Affine(a, d, Sum(m), |m| as real)
    decreases |m|
  {
    if m == map[] {
      assert Lines(m, a, d) == map[];
    } else {
      var k :| k in m;
      var rest := m - {k};
      SmallerWithout(m, k);
      SumOfLines(rest, a, d);
      SumPick(m, k);
      SumPick(Lines(m, a, d), k);
      assert Lines(m, a, d) - {k} == Lines(rest, a, d);
      LineStep(a, d, m[k], Sum(rest), |rest| as real);
    }
  }

  /** Each squared deviation of a rate is at most a linear bound, so the sum is. */
  lemma SquaresBound(m: map<string, real>, c: real)
    requires AreRates(m)
    ensures 0.0 <= Sum(Squared(m, c)) <= Affine(1.0 - 2.0 * c, c * c, Sum(m), |m| as real)
  {
    var a, d := 1.0 - 2.0 * c, c * c;
    forall k | k in m ensures 0.0 <= Deviation(m[k], c) <= Line(a, d, m[k]) {
      SquareOfRate(m[k], c);
    }
    SumMonotone(Squared(m, c), Lines(m, a, d));
    SumOfLines(m, a, d);
  }

  ghost function Mean(m: map<string, real>): real
    requires m != map[]
  {
    Sum(m) / |m| as real
  }

  ghost function Variance(m: map<string, real>): real
    requires m != map[]
  {
    Sum(Squared(m, Mean(m))) / |m| as real
  }

  lemma QuotientAtMost(a: real, n: real, q: real)
    requires n > 0.0 && 0.0 <= a <= n * q
    ensures 0.0 <= a / n <= q
  {
    assert a / n * n == a;
  }

  lemma MeanTimesCount(total: real, n: real)
    requires n > 0.0
    ensures total == n * (total / n)
  {
  }

  lemma QuarterBound(n: real, c: real)
    requires n >= 0.0
    ensures Affine(1.0 - 2.0 * c, c * c, n * c, n) <= n * 0.25
  {
    var x := n * c;
    assert n * (c * c) == x * c;
    assert (1.0 - 2.0 * c) * x == x - 2.0 * (x * c);
    assert n * ((c - 0.5) * (c - 0.5)) == x * c - x + n * 0.25 by {
      assert (c - 0.5) * (c - 0.5) == c * c - c + 0.25;
      assert n * (c * c - c + 0.25) == n * (c * c) - n * c + n * 0.25;
    }
    SquareNonNegative(c - 0.5);
    ProductNonNegative(n, (c - 0.5) * (c - 0.5));
  }

  lemma QuarterOfCount(total: real, squares: real, n: real, c: real)
    requires n > 0.0 && c == total / n && 0.0 <= squares <= Affine(1.0 - 2.0 * c, c * c, total, n)
    ensures 0.0 <= squares / n <= 0.25
  {
    MeanTimesCount(total, n);
    QuarterBound(n, c);
    QuotientAtMost(squares, n, 0.25);
  }

  /** Rates between zero and one have a variance of at most a quarter. */
  lemma VarianceOfRates(m: map<string, real>)
    requires m != map[] && AreRates(m)
    ensures 0.0 <= Variance(m) <= 0.25
  {
    var n, c := |m| as real, Mean(m);
    SquaresBound(m, c);
    QuarterOfCount(Sum(m), Sum(Squared(m, c)), n, c);
  }

  ghost predicate IsRoot(x: real, r: real) {
    r >= 0.0 && r * r == x
  }

  ghost predicate ExactAt(root: real -> real, x: real) {
    x >= 0.0 ==> IsRoot(x, root(x))
  }

  /** The square root function, without rounding. */
  ghost predicate ExactRoot(root: real -> real) {
    forall x: real {:trigger ExactAt(root, x)} :: ExactAt(root, x)
  }

  lemma RootAtMostHalf(r: real)
    requires r >= 0.0 && r * r <= 0.25
    ensures r <= 0.5
  {
    assert r * r - 0.25 == (r - 0.5) * (r + 0.5);
  }

  /** How even the rates are: one minus their standard deviation, limited to one. */
  ghost function Consistency(m: map<string, real>, root: real -> real): real {
    if m == map[] then DEFAULT
    else 1.0 - if root(Variance(m)) < 1.0 then root(Variance(m)) else 1.0
  }

  /** The deviation of rates is at most a half, so limiting it to one never has an effect. */
  lemma ConsistencyRange(m: map<string, real>, root: real -> real)
    requires AreRates(m) && ExactRoot(root)
    ensures 0.5 <= Consistency(m, root) <= 1.0
    ensures m != map[] ==> Consistency(m, root) == 1.0 - root(Variance(m))
  {
    if m != map[] {
      VarianceOfRates(m);
      assert ExactAt(root, Variance(m));
      RootAtMostHalf(root(Variance(m)));
    }
  }

  // ---------------------------------------------------------------------------
  // What one recorded task changes
  // ---------------------------------------------------------------------------

  /** What is kept per kind of task. */
  datatype Books = Books(tasks: map<string, Stats>, rates: map<string, real>, averages: map<string, nat>)

  datatype Record = Record(books: Books, outcomes: seq<bool>, recentRate: real, trust: real, history: seq<Snapshot>)

  const NEW_RECORD := Record(Books(map[], map[], map[]), [], DEFAULT, DEFAULT, [])

  function Entry(tasks: map<string, Stats>, kind: string): Stats {
    if kind in tasks then tasks[kind] else Stats(0, 0, 0)
  }

  function Counted(stats: Stats, t: Task): Stats {
    Stats(stats.completed + (if t.success then 1 else 0), stats.failed + (if t.success then 0 else 1),
          stats.duration + t.duration)
  }

  function RateOf(stats: Stats): real {
    if stats.completed + stats.failed == 0 then DEFAULT
    else stats.completed as real / (stats.completed + stats.failed) as real
  }

  function AverageOf(stats: Stats): nat {
    if stats.completed + stats.failed == 0 then 0 else stats.duration / (stats.completed + stats.failed)
  }

  function Posted(b: Books, t: Task): Books {
    var stats := Counted(Entry(b.tasks, t.kind), t);
    Books(b.tasks[t.kind := stats], b.rates[t.kind := RateOf(stats)], b.averages[t.kind := AverageOf(stats)])
  }

  function Pushed(outcomes: seq<bool>, success: bool): seq<bool> {
    (if |outcomes| >= WINDOW then outcomes[1..] else outcomes) + [success]
  }

  function CountTrue(outcomes: seq<bool>): nat {
    if outcomes == [] then 0
    else CountTrue(outcomes[..|outcomes| - 1]) + if outcomes[|outcomes| - 1] then 1 else 0
  }

  function RecentRate(outcomes: seq<bool>): real
    requires outcomes != []
  {
    CountTrue(outcomes) as real / |outcomes| as real
  }

  function CompletedOf(tasks: map<string, Stats>): map<string, real> {
    map k | k in tasks :: tasks[k].completed as real
  }

  function FailedOf(tasks: map<string, Stats>): map<string, real> {
    map k | k in tasks :: tasks[k].failed as real
  }

  ghost function BaseScore(tasks: map<string, Stats>): real {
    var completed, failed := Sum(CompletedOf(tasks)), Sum(FailedOf(tasks));
    if completed + failed == 0.0 then DEFAULT else completed / (completed + failed)
  }

  function Clamp(x: real): real {
    if x < 0.0 then 0.0 else if x > 1.0 then 1.0 else x
  }

  function Weighted(base: real, recent: real, consistency: real): real {
    base * 0.5 + recent * 0.3 + consistency * 0.2
  }

  ghost function Score(b: Books, recent: real, root: real -> real): real {
    Clamp(Weighted(BaseScore(b.tasks), recent, Consistency(b.rates, root)))
  }

  ghost function TotalTasks(tasks: map<string, Stats>): int {
    (Sum(CompletedOf(tasks)) + Sum(FailedOf(tasks))).Floor
  }

  function Archived(history: seq<Snapshot>, trust: real, total: int): seq<Snapshot> {
    if total % 10 != 0 then history
    else
      var grown := history + [Snapshot(trust, total)];
      if |grown| > SNAPSHOTS then grown[1..] else grown
  }

  ghost function Recorded(r: Record, t: Task, root: real -> real): Record {
    var books := Posted(r.books, t);
    var outcomes := Pushed(r.outcomes, t.success);
    var trust := Score(books, RecentRate(outcomes), root);
    Record(books, outcomes, RecentRate(outcomes), trust, Archived(r.history, trust, TotalTasks(books.tasks)))
  }

  lemma RecordedFields(r: Record, t: Task, root: real -> real, books: Books, outcomes: seq<bool>, trust: real,
                       history: seq<Snapshot>)
    requires books == Posted(r.books, t) && outcomes == Pushed(r.outcomes, t.success)
    requires trust == Score(books, RecentRate(outcomes), root)
    requires history == Archived(r.history, trust, TotalTasks(books.tasks))
    ensures Recorded(r, t, root) == Record(books, outcomes, RecentRate(outcomes), trust, history)
  {
  }

  // ---------------------------------------------------------------------------
  // The record, updated in place
  // ---------------------------------------------------------------------------

  class AgentReputation {
    const root: real -> real
    var tasks: map<string, Stats>
    var rates: map<string, real>
    var averages: map<string, nat>
    var outcomes: seq<bool>
    var recentRate: real
    var trust: real
    var history: seq<Snapshot>

    ghost function Contents(): Record
      reads this
    {
      Record(Books(tasks, rates, averages), outcomes, recentRate, trust, history)
    }

    constructor (root: real -> real)
      ensures Contents() == NEW_RECORD && this.root == root
    {
      this.root := root;
      tasks, rates, averages, outcomes := map[], map[], map[], [];
      recentRate, trust, history := DEFAULT, DEFAULT, [];
    }

    method UpdateStats(kind: string, success: bool, duration: nat)
      modifies this`tasks, this`rates, this`averages
      ensures Books(tasks, rates, averages) == Posted(old(Contents()).books, Task(kind, success, duration))
    {
      var stats := if kind in tasks then tasks[kind] else Stats(0, 0, 0);
      if success {
        stats := stats.(completed := stats.completed + 1);
      } else {
        stats := stats.(failed := stats.failed + 1);
      }
      stats := stats.(duration := stats.duration + duration);
      tasks := tasks[kind := stats];
      rates := rates[kind := RateOf(stats)];
      averages := averages[kind := AverageOf(stats)];
    }

    method RecordOutcome(success: bool)
      modifies this`outcomes, this`recentRate
      ensures outcomes == Pushed(old(outcomes), success) && recentRate == RecentRate(outcomes)
    {
      if |outcomes| >= WINDOW {
        outcomes := outcomes[1..];
      }
      outcomes := outcomes + [success];
      var successes, k := 0, 0;
      while k < |outcomes|
        invariant 0 <= k <= |outcomes| && successes == CountTrue(outcomes[..k])
      {
        if outcomes[k] {
          successes := successes + 1;
        }
        assert outcomes[..k + 1][..k] == outcomes[..k];
        k := k + 1;
      }
      assert outcomes[..k] == outcomes;
      recentRate := successes as real / |outcomes| as real;
    }

    method CalculateBaseScore() returns (score: real)
      ensures score == BaseScore(tasks)
    {
      var completed := AddUp(CompletedOf(tasks));
      var failed := AddUp(FailedOf(tasks));
      if completed + failed == 0.0 {
        return DEFAULT;
      }
      score := completed / (completed + failed);
    }

    method CalculateConsistencyFactor() returns (factor: real)
      ensures factor == Consistency(rates, root)
    {
      if rates == map[] {
        return DEFAULT;
      }
      var total := AddUp(rates);
      var mean := total / |rates| as real;
      var squares := AddUp(Squared(rates, mean));
      var variance := squares / |rates| as real;
      var deviation := root(variance);
      factor := 1.0 - if deviation < 1.0 then deviation else 1.0;
    }

    method CalculateTrustScore()
      modifies this`trust
      ensures trust == Score(Books(tasks, rates, averages), recentRate, root)
    {
      var base := CalculateBaseScore();
      var consistency := CalculateConsistencyFactor();
      trust := Clamp(base * 0.5 + recentRate * 0.3 + consistency * 0.2);
    }

    method TakeSnapshot()
      modifies this`history
      ensures history == Archived(old(history), trust, TotalTasks(tasks))
    {
      var completed := AddUp(CompletedOf(tasks));
      var failed := AddUp(FailedOf(tasks));
      var totalTasks := (completed + failed).Floor;
      if totalTasks % 10 == 0 {
        history := history + [Snapshot(trust, totalTasks)];
        if |history| > SNAPSHOTS {
          history := history[1..];
        }
      }
    }

    method RecordTask(kind: string, success: bool, duration: nat)
      modifies this
      ensures Contents() == Recorded(old(Contents()), Task(kind, success, duration), root)
    {
      ghost var before := Contents();
      UpdateStats(kind, success, duration);
      RecordOutcome(success);
      CalculateTrustScore();
      ghost var archived := history;
      assert archived == before.history;
      TakeSnapshot();
      RecordedFields(before, Task(kind, success, duration), root, Books(tasks, rates, averages),
                     outcomes, trust, history);
    }
  }

  // ---------------------------------------------------------------------------
  // The books agree with the whole history
  // ---------------------------------------------------------------------------

  lemma OneMoreTask(log: seq<Task>, t: Task, kind: string)
    ensures OfKind(log + [t], kind) == OfKind(log, kind) + if t.kind == kind then [t] else []
    ensures Successes(log + [t]) == Successes(log) + if t.success then 1 else 0
    ensures Duration(log + [t]) == Duration(log) + t.duration
  {
    assert (log + [t])[..|log|] == log;
  }

  lemma OneMoreTotal(own: seq<Task>, t: Task)
    ensures Totals(own + [t]) == Counted(Totals(own), t)
  {
    OneMoreTask(own, t, t.kind);
  }

  /** The counts per kind of task are those of the whole history. */
  ghost predicate TalliedBy(log: seq<Task>, tasks: map<string, Stats>) {
    forall kind :: TallyOk(OfKind(log, kind), tasks, kind)
  }

  predicate TallyOk(own: seq<Task>, tasks: map<string, Stats>, kind: string) {
    (kind in tasks <==> own != []) && (kind in tasks ==> tasks[kind] == Totals(own))
  }

  ghost predicate TotalledBy(log: seq<Task>, tasks: map<string, Stats>) {
    && Sum(CompletedOf(tasks)) == Successes(log) as real
    && Sum(FailedOf(tasks)) == (|log| - Successes(log)) as real
  }

  /** Rates and average times are those of the counts. */
  ghost predicate Derived(b: Books) {
    && b.rates.Keys == b.tasks.Keys && b.averages.Keys == b.tasks.Keys
    && (forall kind :: kind in b.tasks ==> b.rates[kind] == RateOf(b.tasks[kind]))
    && (forall kind :: kind in b.tasks ==> b.averages[kind] == AverageOf(b.tasks[kind]))
  }

  ghost predicate Agrees(log: seq<Task>, b: Books) {
    TalliedBy(log, b.tasks) && TotalledBy(log, b.tasks) && Derived(b)
  }

  lemma TallyStep(own: seq<Task>, tasks: map<string, Stats>, t: Task)
    requires TallyOk(own, tasks, t.kind)
    ensures TallyOk(own + [t], tasks[t.kind := Counted(Entry(tasks, t.kind), t)], t.kind)
  {
    OneMoreTotal(own, t);
  }

  lemma TalliedStep(log: seq<Task>, tasks: map<string, Stats>, t: Task, stats: Stats)
    requires TalliedBy(log, tasks) && stats == Counted(Entry(tasks, t.kind), t)
    ensures TalliedBy(log + [t], tasks[t.kind := stats])
  {
    forall kind ensures TallyOk(OfKind(log + [t], kind), tasks[t.kind := stats], kind) {
      assert TallyOk(OfKind(log, kind), tasks, kind);
      OneMoreTask(log, t, kind);
      if kind == t.kind {
        TallyStep(OfKind(log, kind), tasks, t);
      } else {
        assert OfKind(log + [t], kind) == OfKind(log, kind);
      }
    }
  }

  lemma TotalsUpdated(tasks: map<string, Stats>, kind: string, stats: Stats)
    ensures Sum(CompletedOf(tasks[kind := stats]))
         == Sum(CompletedOf(tasks)) - Entry(tasks, kind).completed as real + stats.completed as real
    ensures Sum(FailedOf(tasks[kind := stats]))
         == Sum(FailedOf(tasks)) - Entry(tasks, kind).failed as real + stats.failed as real
  {
    SumUpdate(CompletedOf(tasks), kind, stats.completed as real);
    SumUpdate(FailedOf(tasks), kind, stats.failed as real);
    assert CompletedOf(tasks[kind := stats]) == CompletedOf(tasks)[kind := stats.completed as real];
    assert FailedOf(tasks[kind := stats]) == FailedOf(tasks)[kind := stats.failed as real];
  }

  lemma TotalledStep(log: seq<Task>, tasks: map<string, Stats>, t: Task, stats: Stats)
    requires TotalledBy(log, tasks) && stats == Counted(Entry(tasks, t.kind), t)
    ensures TotalledBy(log + [t], tasks[t.kind := stats])
  {
    TotalsUpdated(tasks, t.kind, stats);
    OneMoreTask(log, t, t.kind);
  }

  lemma DerivedStep(b: Books, t: Task)
    requires Derived(b)
    ensures Derived(Posted(b, t))
  {
  }

  lemma DerivedRates(b: Books)
    requires Derived(b)
    ensures AreRates(b.rates)
  {
    forall k | k in b.rates ensures 0.0 <= b.rates[k] <= 1.0 {
      var s := b.tasks[k];
      if s.completed + s.failed > 0 {
        QuotientAtMost(s.completed as real, (s.completed + s.failed) as real, 1.0);
      }
    }
  }

  lemma AgreesStep(log: seq<Task>, b: Books, t: Task)
    requires Agrees(log, b)
    ensures Agrees(log + [t], Posted(b, t))
  {
    var stats := Counted(Entry(b.tasks, t.kind), t);
    TalliedStep(log, b.tasks, t, stats);
    TotalledStep(log, b.tasks, t, stats);
    DerivedStep(b, t);
  }

  // ---------------------------------------------------------------------------
  // The window and the score
  // ---------------------------------------------------------------------------

  function Outcomes(log: seq<Task>): seq<bool> {
    seq(|log|, k requires 0 <= k < |log| => log[k].success)
  }

  lemma {:induction false} CountIsSuccesses(log: seq<Task>)
    ensures CountTrue(Outcomes(log)) == Successes(log)
  {
    if log != [] {
      CountIsSuccesses(log[..|log| - 1]);
      assert Outcomes(log)[..|log| - 1] == Outcomes(log[..|log| - 1]);
    }
  }

  lemma WindowStep(log: seq<Task>, t: Task)
    ensures Pushed(Outcomes(Recent(log)), t.success) == Outcomes(Recent(log + [t]))
  {
  }

  lemma RecentRateIsRate(log: seq<Task>)
    requires log != []
    ensures RecentRate(Outcomes(log)) == Rate(log)
  {
    CountIsSuccesses(log);
  }

  lemma RateRange(log: seq<Task>)
    ensures 0.0 <= Rate(log) <= 1.0
  {
    if log != [] {
      QuotientAtMost(Successes(log) as real, |log| as real, 1.0);
    }
  }

  lemma BaseIsRate(log: seq<Task>, tasks: map<string, Stats>)
    requires TotalledBy(log, tasks) && log != []
    ensures BaseScore(tasks) == Rate(log) && TotalTasks(tasks) == |log|
  {
  }

  lemma WeightedRange(base: real, recent: real, consistency: real)
    requires 0.0 <= base <= 1.0 && 0.0 <= recent <= 1.0 && 0.5 <= consistency <= 1.0
    ensures 0.1 <= Weighted(base, recent, consistency) <= 1.0
  {
  }

  /** The score is the weighted sum itself: it always lies between a tenth and one. */
  lemma ScoreUnclamped(log: seq<Task>, b: Books, recent: seq<Task>, root: real -> real)
    requires Agrees(log, b) && log != [] && ExactRoot(root)
    ensures Score(b, Rate(recent), root) == Weighted(Rate(log), Rate(recent), Consistency(b.rates, root))
    ensures 0.1 <= Score(b, Rate(recent), root) <= 1.0
  {
    BaseIsRate(log, b.tasks);
    DerivedRates(b);
    RateRange(log);
    RateRange(recent);
    ConsistencyRange(b.rates, root);
    WeightedRange(Rate(log), Rate(recent), Consistency(b.rates, root));
  }

  /** A snapshot every ten tasks, and the last hundred of them. */
  ghost predicate HistoryOk(history: seq<Snapshot>, n: nat) {
    && |history| == (if n / 10 < SNAPSHOTS then n / 10 else SNAPSHOTS)
    && forall i :: 0 <= i < |history| ==>
         history[i].total == 10 * (n / 10 - |history| + 1 + i) && 0.1 <= history[i].trust <= 1.0
  }

  lemma HistoryStep(history: seq<Snapshot>, n: nat, trust: real)
    requires HistoryOk(history, n) && 0.1 <= trust <= 1.0
    ensures HistoryOk(Archived(history, trust, n + 1), n + 1)
  {
    if (n + 1) % 10 == 0 {
      assert (n + 1) / 10 == n / 10 + 1;
    } else {
      assert (n + 1) / 10 == n / 10;
    }
  }

  // ---------------------------------------------------------------------------
  // Any history
  // ---------------------------------------------------------------------------

  ghost function RecordOf(log: seq<Task>, root: real -> real): Record {
    if log == [] then NEW_RECORD else Recorded(RecordOf(log[..|log| - 1], root), log[|log| - 1], root)
  }

  ghost predicate WindowOk(log: seq<Task>, r: Record) {
    r.outcomes == Outcomes(Recent(log)) && r.recentRate == Rate(Recent(log))
  }

  ghost predicate TrustOk(log: seq<Task>, r: Record, root: real -> real) {
    && 0.1 <= r.trust <= 1.0
    && (log != [] ==>
          r.trust == Rate(log) * 0.5 + Rate(Recent(log)) * 0.3 + Consistency(r.books.rates, root) * 0.2)
  }

  /** What the record holds, said in terms of the whole history. */
  ghost predicate Means(log: seq<Task>, r: Record, root: real -> real) {
    Agrees(log, r.books) && WindowOk(log, r) && TrustOk(log, r, root) && HistoryOk(r.history, |log|)
  }

  lemma WindowOkStep(log: seq<Task>, r: Record, t: Task, root: real -> real)
    requires WindowOk(log, r)
    ensures WindowOk(log + [t], Recorded(r, t, root))
  {
    WindowStep(log, t);
    RecentRateIsRate(Recent(log + [t]));
  }

  lemma TrustOkStep(log: seq<Task>, r: Record, t: Task, root: real -> real)
    requires log != [] && Agrees(log, Posted(r.books, t)) && ExactRoot(root)
    requires RecentRate(Pushed(r.outcomes, t.success)) == Rate(Recent(log))
    ensures TrustOk(log, Recorded(r, t, root), root)
    ensures TotalTasks(Posted(r.books, t).tasks) == |log|
  {
    ScoreUnclamped(log, Posted(r.books, t), Recent(log), root);
    BaseIsRate(log, Posted(r.books, t).tasks);
  }

  lemma {:induction false} BooksAgree(log: seq<Task>, root: real -> real)
    ensures Agrees(log, RecordOf(log, root).books)
  {
    if log == [] {
      assert CompletedOf(NEW_RECORD.books.tasks) == map[] && FailedOf(NEW_RECORD.books.tasks) == map[];
    } else {
      var front, last := log[..|log| - 1], log[|log| - 1];
      assert front + [last] == log;
      BooksAgree(front, root);
      AgreesStep(front, RecordOf(front, root).books, last);
    }
  }

  lemma {:induction false} WindowMeans(log: seq<Task>, root: real -> real)
    ensures WindowOk(log, RecordOf(log, root))
  {
    if log != [] {
      var front, last := log[..|log| - 1], log[|log| - 1];
      assert front + [last] == log;
      WindowMeans(front, root);
      WindowOkStep(front, RecordOf(front, root), last, root);
    }
  }

  lemma TrustMeans(log: seq<Task>, root: real -> real)
    requires ExactRoot(root)
    ensures TrustOk(log, RecordOf(log, root), root)
    ensures log != [] ==> TotalTasks(RecordOf(log, root).books.tasks) == |log|
  {
    BooksAgree(log, root);
    WindowMeans(log, root);
    if log != [] {
      TrustOkStep(log, RecordOf(log[..|log| - 1], root), log[|log| - 1], root);
    }
  }

  lemma {:induction false} HistoryMeans(log: seq<Task>, root: real -> real)
    requires ExactRoot(root)
    ensures HistoryOk(RecordOf(log, root).history, |log|)
  {
    if log != [] {
      HistoryMeans(log[..|log| - 1], root);
      TrustMeans(log, root);
      HistoryStep(RecordOf(log[..|log| - 1], root).history, |log| - 1, RecordOf(log, root).trust);
    }
  }

  lemma RecordMeans(log: seq<Task>, root: real -> real)
    requires ExactRoot(root)
    ensures Means(log, RecordOf(log, root), root)
  {
    BooksAgree(log, root);
    WindowMeans(log, root);
    TrustMeans(log, root);
    HistoryMeans(log, root);
  }

  /** The score of an agent after its history. */
  ghost predicate IsScore(history: seq<Task>, k: Snapshot, root: real -> real) {
    |history| == k.total && k.trust == RecordOf(history, root).trust
  }

  /** A snapshot holds the score the agent had after that many of its tasks. */
  ghost predicate WasScore(log: seq<Task>, k: Snapshot, root: real -> real) {
    exists earlier :: earlier <= log && IsScore(earlier, k, root)
  }

  ghost predicate Snapshots(log: seq<Task>, history: seq<Snapshot>, root: real -> real) {
    forall k :: k in history ==> WasScore(log, k, root)
  }

  lemma ScoreKept(before: seq<Task>, log: seq<Task>, k: Snapshot, root: real -> real)
    requires before <= log && WasScore(before, k, root)
    ensures WasScore(log, k, root)
  {
    var earlier :| earlier <= before && IsScore(earlier, k, root);
    assert earlier <= log;
  }

  lemma RecordedHistory(r: Record, t: Task, root: real -> real, k: Snapshot)
    requires k in Recorded(r, t, root).history
    ensures k in r.history || k == Snapshot(Recorded(r, t, root).trust, TotalTasks(Posted(r.books, t).tasks))
  {
  }

  lemma ScoreNow(log: seq<Task>, k: Snapshot, root: real -> real)
    requires IsScore(log, k, root)
    ensures WasScore(log, k, root)
  {
    assert log <= log;
  }

  lemma {:induction false} SnapshotsAreScores(log: seq<Task>, root: real -> real)
    ensures Snapshots(log, RecordOf(log, root).history, root)
  {
    if log != [] {
      var front, last := log[..|log| - 1], log[|log| - 1];
      var r := RecordOf(front, root);
      assert RecordOf(log, root) == Recorded(r, last, root);
      SnapshotsAreScores(front, root);
      BooksAgree(log, root);
      BaseIsRate(log, Recorded(r, last, root).books.tasks);
      forall k | k in Recorded(r, last, root).history ensures WasScore(log, k, root) {
        RecordedHistory(r, last, root, k);
        if k in r.history {
          ScoreKept(front, log, k, root);
        } else {
          ScoreNow(log, k, root);
        }
      }
    }
  }

  /**
   After any history of recorded tasks, counts, rates and average times per kind are those of the
   whole history, the window holds the last at most twenty outcomes, the trust score is the
   weighted sum of the overall rate, the recent rate and the consistency, without any limiting,
   and the snapshots are the scores after the last hundred multiples of ten tasks.
   */
  lemma RecordMeansHistory(log: seq<Task>, root: real -> real)
    requires ExactRoot(root)
    ensures Means(log, RecordOf(log, root), root)
    ensures Snapshots(log, RecordOf(log, root).history, root)
  {
    RecordMeans(log, root);
    SnapshotsAreScores(log, root);
  }

  lemma EntryMeans(own: seq<Task>, stats: Stats)
    requires own != [] && stats == Totals(own)
    ensures RateOf(stats) == Rate(own) && AverageOf(stats) == Duration(own) / |own|
  {
    assert stats.completed + stats.failed == |own|;
  }

  /** Each kind's counts, rate and average time are those of its tasks in the history. */
  lemma EntriesMeanHistory(log: seq<Task>, root: real -> real, kind: string)
    ensures var b, own := RecordOf(log, root).books, OfKind(log, kind);
      && (kind in b.tasks <==> own != []) && b.rates.Keys == b.tasks.Keys && b.averages.Keys == b.tasks.Keys
      && (kind in b.tasks ==>
            && b.tasks[kind] == Stats(Successes(own), |own| - Successes(own), Duration(own))
            && b.rates[kind] == Successes(own) as real / |own| as real && b.averages[kind] == Duration(own) / |own|)
  {
    BooksAgree(log, root);
    var b := RecordOf(log, root).books;
    assert TallyOk(OfKind(log, kind), b.tasks, kind);
    if kind in b.tasks {
      EntryMeans(OfKind(log, kind), b.tasks[kind]);
    }
  }
}
