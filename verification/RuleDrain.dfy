/** The rule queue empties by itself. The depth check alone is relied on: tasks may lose
    their automation tag, actions may emit any finite number of tasks, and every delivery
    may be retried. */
module RuleDrain {
  import opened RuleEngine

  /** Deliveries of one task: the first and three retries. */
  const ATTEMPTS: nat := 4

  datatype Entry = Entry(task: Task, left: nat)

  type Queue = seq<Entry>

  function Enqueued(tasks: seq<Task>): Queue {
    seq(|tasks|, i requires 0 <= i < |tasks| => Entry(tasks[i], ATTEMPTS))
  }

  function Remaining(e: Entry, again: bool): Queue
    requires e.left > 0
  {
    if again && e.left > 1 then [Entry(e.task, e.left - 1)] else []
  }

  /** e is what an action emits for the task, its automation tag possibly lost. */
  ghost predicate EmitsAtAll(task: Task, e: Task) {
    Emits(task, e.(automation := true))
  }

  lemma OneLevelDeeper(task: Task, emitted: seq<Task>)
    requires forall e :: e in emitted ==> EmitsAtAll(task, e)
    ensures forall e :: e in emitted ==> e.depth == task.depth + 1
  {
    forall e | e in emitted ensures e.depth == task.depth + 1 {
      assert EmitsAtAll(task, e);
      EmittedIsTagged(task, e.(automation := true));
    }
  }

  /** One delivery of any waiting task. A task past the guards emits nothing; a live one
      emits tasks one level deeper, automation tag or not. */
  ghost predicate Delivery(q: Queue, i: nat, again: bool, emitted: seq<Task>, q': Queue) {
    && i < |q| && q[i].left > 0
    && (Suppressed(q[i].task) ==> emitted == [])
    && (forall e :: e in emitted ==> EmitsAtAll(q[i].task, e))
    && q' == q[..i] + Remaining(q[i], again) + q[i + 1..] + Enqueued(emitted)
  }

  /** A task that always fails and emits nothing is delivered four times. */
  lemma RetriedThreeTimes(t: Task)
    ensures Enqueued([t]) == [Entry(t, 4)]
    ensures forall n: nat :: 1 < n <= 4 ==> Delivery([Entry(t, n)], 0, true, [], [Entry(t, n - 1)])
    ensures Delivery([Entry(t, 1)], 0, true, [], [])
  {
    hide Suppressed, EmitsAtAll;
    assert Enqueued([]) == [];
  }

  ghost predicate Step(q: Queue, q': Queue) {
    exists i: nat, again, emitted :: Delivery(q, i, again, emitted, q')
  }

  /** A delivery that emits at most b tasks. */
  ghost predicate StepUpTo(q: Queue, q': Queue, b: nat) {
    exists i: nat, again, emitted :: Delivery(q, i, again, emitted, q') && |emitted| <= b
  }

  predicate Fine(q: Queue) {
    forall i :: 0 <= i < |q| ==> q[i].left > 0 && q[i].task.depth >= 0
  }

  lemma StepKeepsFine(q: Queue, q': Queue)
    requires Fine(q) && Step(q, q')
    ensures Fine(q')
  {
    hide Suppressed;
    var i: nat, again, emitted :| Delivery(q, i, again, emitted, q');
    OneLevelDeeper(q[i].task, emitted);
    assert Fine(Remaining(q[i], again));
    assert forall k :: 0 <= k < |emitted| ==> emitted[k] in emitted;
    assert Fine(Enqueued(emitted));
  }

  /** A waiting task can always be delivered. */
  lemma OnlyEmptyStops(q: Queue)
    requires Fine(q)
    ensures q == [] <==> forall q' :: !Step(q, q')
  {
    if q != [] {
      var q' := q[..0] + Remaining(q[0], false) + q[1..] + Enqueued([]);
      assert Delivery(q, 0, false, [], q');
      assert Step(q, q');
    }
  }

  // ---- the measure -------------------------------------------------------------

  /** How many levels a task's chain can still go through. */
  function Rank(t: Task): nat
    ensures Rank(t) <= MAX_DEPTH + 1
    ensures Rank(t) == 0 ==> t.depth < 0 || Suppressed(t)
  {
    if Suppressed(t) || t.depth < 0 then 0 else MAX_DEPTH + 1 - t.depth
  }

  /** Deliveries left at one rank. */
  function Sum(q: Queue, rank: nat): nat {
    if q == [] then 0
    else Sum(q[..|q| - 1], rank) + if Rank(q[|q| - 1].task) == rank then q[|q| - 1].left else 0
  }

  lemma {:induction false} SumConcat(a: Queue, b: Queue, rank: nat)
    ensures Sum(a + b, rank) == Sum(a, rank) + Sum(b, rank)
  {
    hide Rank;
    if b == [] {
      assert a + b == a;
    } else {
      SumConcat(a, b[..|b| - 1], rank);
      assert (a + b)[..|a + b| - 1] == a + b[..|b| - 1];
    }
  }

  lemma SumFour(a: Queue, b: Queue, c: Queue, d: Queue, rank: nat)
    ensures Sum(a + b + c + d, rank) == Sum(a, rank) + Sum(b, rank) + Sum(c, rank) + Sum(d, rank)
    ensures Sum([], rank) == 0
  {
    SumConcat(a + b + c, d, rank);
    SumConcat(a + b, c, rank);
    SumConcat(a, b, rank);
  }

  lemma SumOne(e: Entry, rank: nat)
    ensures Sum([e], rank) == if Rank(e.task) == rank then e.left else 0
  {
    hide Rank;
    assert [e][..0] == [];
  }

  lemma {:induction false} SumBelow(q: Queue, rank: nat)
    requires forall i :: 0 <= i < |q| ==> Rank(q[i].task) < rank
    ensures Sum(q, rank) == 0
  {
    hide Rank;
    if q != [] {
      SumBelow(q[..|q| - 1], rank);
    }
  }

  /** A delivery lowers the sum at its task's rank and leaves the higher ones alone. */
  lemma DeliveryLowers(q: Queue, i: nat, again: bool, emitted: seq<Task>, q': Queue, rank: nat)
    requires Fine(q) && Delivery(q, i, again, emitted, q') && rank >= Rank(q[i].task)
    ensures rank == Rank(q[i].task) ==> Sum(q', rank) < Sum(q, rank)
    ensures rank > Rank(q[i].task) ==> Sum(q', rank) == Sum(q, rank)
  {
    EmittedBelow(q, i, again, emitted, q');
    DeliverySums(q, i, again, emitted, q', rank);
    assert q[i].left > 0;
    var e, below := q[i], Enqueued(emitted);
    hide Rank, Suppressed, Enqueued, Sum, Fine, Delivery, Remaining;
    SumOne(e, rank);
    SumRemaining(e, again, rank);
    SumBelow(below, rank);
  }

  lemma DeliverySums(q: Queue, i: nat, again: bool, emitted: seq<Task>, q': Queue, rank: nat)
    requires Delivery(q, i, again, emitted, q')
    ensures var kept := Sum(q[..i], rank) + Sum(q[i + 1..], rank);
      && Sum(q, rank) == kept + Sum([q[i]], rank)
      && Sum(q', rank) == kept + Sum(Remaining(q[i], again), rank) + Sum(Enqueued(emitted), rank)
  {
    var e, front, back, rest, below := q[i], q[..i], q[i + 1..], Remaining(q[i], again), Enqueued(emitted);
    assert q == front + [e] + back + [];
    hide Suppressed, Enqueued, Sum, Remaining;
    SumFour(front, [e], back, [], rank);
    SumFour(front, rest, back, below, rank);
  }

  lemma SumRemaining(e: Entry, again: bool, rank: nat)
    requires e.left > 0
    ensures Rank(e.task) == rank ==> Sum(Remaining(e, again), rank) < e.left
    ensures Rank(e.task) != rank ==> Sum(Remaining(e, again), rank) == 0
  {
    hide Rank;
    SumOne(Entry(e.task, e.left - 1), rank);
  }

  lemma EmittedBelow(q: Queue, i: nat, again: bool, emitted: seq<Task>, q': Queue)
    requires Fine(q) && Delivery(q, i, again, emitted, q')
    ensures forall k :: 0 <= k < |Enqueued(emitted)| ==> Rank(Enqueued(emitted)[k].task) < Rank(q[i].task)
  {
    OneLevelDeeper(q[i].task, emitted);
    forall k | 0 <= k < |emitted| ensures Rank(emitted[k]) < Rank(q[i].task) {
      assert emitted[k] in emitted;
    }
  }

  // ---- it drains ------------------------------------------------------------------

  /** Every run that keeps delivering what waits empties the queue. */
  lemma {:induction false} Drains(run: nat -> Queue, from: nat) returns (n: nat)
    requires Fine(run(from))
    requires forall i :: i >= from && run(i) != [] ==> Step(run(i), run(i + 1))
    ensures n >= from && run(n) == []
    decreases Sum(run(from), 4), Sum(run(from), 3), Sum(run(from), 2), Sum(run(from), 1), Sum(run(from), 0)
  {
    hide Sum, Rank, Fine;
    if run(from) == [] {
      return from;
    }
    assert Step(run(from), run(from + 1));
    StepKeepsFine(run(from), run(from + 1));
    var r := StepLowers(run(from), run(from + 1));
    n := Drains(run, from + 1);
  }

  lemma StepLowers(q: Queue, q': Queue) returns (r: nat)
    requires Fine(q) && Step(q, q')
    ensures r <= 4 && Sum(q', r) < Sum(q, r)
    ensures forall k: nat :: k > r ==> Sum(q', k) == Sum(q, k)
  {
    hide Sum, Fine, Delivery;
    var i: nat, again, emitted :| Delivery(q, i, again, emitted, q');
    r := RankOf(q, i, again, emitted, q');
    forall k: nat | k >= r ensures k > r ==> Sum(q', k) == Sum(q, k) {
      DeliveryLowersAt(q, i, again, emitted, q', r, k);
    }
    DeliveryLowersAt(q, i, again, emitted, q', r, r);
  }

  lemma RankOf(q: Queue, i: nat, again: bool, emitted: seq<Task>, q': Queue) returns (r: nat)
    requires Delivery(q, i, again, emitted, q')
    ensures r <= 4 && i < |q| && r == Rank(q[i].task)
  {
    r := Rank(q[i].task);
  }

  lemma DeliveryLowersAt(q: Queue, i: nat, again: bool, emitted: seq<Task>, q': Queue, r: nat, k: nat)
    requires Fine(q) && Delivery(q, i, again, emitted, q') && r == Rank(q[i].task) && k >= r
    ensures k == r ==> Sum(q', k) < Sum(q, k)
    ensures k > r ==> Sum(q', k) == Sum(q, k)
  {
    hide Sum, Fine, Rank;
    DeliveryLowers(q, i, again, emitted, q', k);
  }

  /** The live tasks of a causal chain: each was emitted while its predecessor was
      evaluated. There are never more than four generations. */
  lemma {:induction false} GenerationsBounded(chain: seq<Task>)
    requires chain != [] && chain[0].depth >= 0
    requires forall i :: 0 <= i < |chain| ==> !Suppressed(chain[i])
    requires forall i :: 0 <= i < |chain| - 1 ==> EmitsAtAll(chain[i], chain[i + 1])
    ensures |chain| <= 4 - chain[0].depth
  {
    if |chain| > 1 {
      assert EmitsAtAll(chain[0], chain[0 + 1]);
      EmittedIsTagged(chain[0], chain[1].(automation := true));
      forall i | 0 <= i < |chain[1..]| - 1 ensures EmitsAtAll(chain[1..][i], chain[1..][i + 1]) {
        assert EmitsAtAll(chain[i + 1], chain[i + 1 + 1]);
      }
      GenerationsBounded(chain[1..]);
    }
  }

  // ---- how many deliveries -----------------------------------------------------------

  /** The deliveries one delivery can lead to, itself included, when none emits more
      than b tasks. */
  function Cost(rank: nat, b: nat): nat {
    if rank == 0 then 1 else 1 + b * (ATTEMPTS * Cost(rank - 1, b))
  }

  function Total(q: Queue, b: nat): nat {
    if q == [] then 0
    else Total(q[..|q| - 1], b) + q[|q| - 1].left * Cost(Rank(q[|q| - 1].task), b)
  }

  lemma {:induction false} TotalConcat(x: Queue, y: Queue, b: nat)
    ensures Total(x + y, b) == Total(x, b) + Total(y, b)
  {
    hide Rank, Cost;
    if y == [] {
      assert x + y == x;
    } else {
      TotalConcat(x, y[..|y| - 1], b);
      assert (x + y)[..|x + y| - 1] == x + y[..|y| - 1];
    }
  }

  lemma TotalFour(x: Queue, y: Queue, z: Queue, v: Queue, b: nat)
    ensures Total(x + y + z + v, b) == Total(x, b) + Total(y, b) + Total(z, b) + Total(v, b)
    ensures Total([], b) == 0
  {
    TotalConcat(x + y + z, v, b);
    TotalConcat(x + y, z, b);
    TotalConcat(x, y, b);
  }

  lemma {:induction false} CostMonotone(r: nat, s: nat, b: nat)
    requires r <= s
    ensures 1 <= Cost(r, b) <= Cost(s, b)
  {
    if r == 0 {
      assert Cost(s, b) >= 1;
    } else {
      CostMonotone(r - 1, s - 1, b);
      TimesMonotone(Cost(r - 1, b), Cost(s - 1, b), b);
    }
  }

  lemma TimesMonotone(x: nat, y: nat, b: nat)
    requires x <= y
    ensures b * (ATTEMPTS * x) <= b * (ATTEMPTS * y)
  {
  }

  lemma {:induction false} TotalEnqueued(tasks: seq<Task>, rank: nat, b: nat)
    requires forall i :: 0 <= i < |tasks| ==> Rank(tasks[i]) <= rank
    ensures Total(Enqueued(tasks), b) <= |tasks| * (ATTEMPTS * Cost(rank, b))
  {
    hide Rank, Cost;
    if tasks != [] {
      var front, last := tasks[..|tasks| - 1], tasks[|tasks| - 1];
      TotalEnqueued(front, rank, b);
      assert Enqueued(tasks)[..|tasks| - 1] == Enqueued(front);
      CostMonotone(Rank(last), rank, b);
      TimesStep(|front|, |tasks|, ATTEMPTS * Cost(rank, b));
    }
  }

  lemma TimesStep(n: nat, m: nat, k: nat)
    requires m == n + 1
    ensures m * k == n * k + k
  {
  }

  lemma DeliveryPays(q: Queue, i: nat, again: bool, emitted: seq<Task>, q': Queue, b: nat)
    requires Fine(q) && Delivery(q, i, again, emitted, q') && |emitted| <= b
    ensures Total(q', b) < Total(q, b)
  {
    EmittedBelow(q, i, again, emitted, q');
    var rank := Rank(q[i].task);
    var rest := Remaining(q[i], again);
    EmissionsPaid(q[i].task, emitted, b);
    hide Rank, Suppressed, Enqueued, Total, Fine, Cost;
    assert q == q[..i] + [q[i]] + q[i + 1..] + [];
    TotalFour(q[..i], [q[i]], q[i + 1..], [], b);
    TotalFour(q[..i], rest, q[i + 1..], Enqueued(emitted), b);
    RemainingPaid(q[i], again, b);
  }

  lemma StepPays(q: Queue, q': Queue, b: nat)
    requires Fine(q) && StepUpTo(q, q', b)
    ensures Total(q', b) < Total(q, b) && Fine(q')
  {
    hide Total, Fine;
    var i: nat, again, emitted :| Delivery(q, i, again, emitted, q') && |emitted| <= b;
    DeliveryPays(q, i, again, emitted, q', b);
    assert Step(q, q');
    StepKeepsFine(q, q');
  }

  lemma RemainingPaid(e: Entry, again: bool, b: nat)
    requires e.left > 0
    ensures Total(Remaining(e, again), b) + Cost(Rank(e.task), b) <= Total([e], b)
  {
    hide Rank, Cost;
    var c := Cost(Rank(e.task), b);
    assert [e][..0] == [];
    TimesStep(e.left - 1, e.left, c);
    if again && e.left > 1 {
      var f := Entry(e.task, e.left - 1);
      assert [f][..0] == [];
    }
  }

  lemma EmissionsPaid(task: Task, emitted: seq<Task>, b: nat)
    requires |emitted| <= b && (Suppressed(task) ==> emitted == []) && task.depth >= 0
    requires forall e :: e in emitted ==> EmitsAtAll(task, e)
    ensures Total(Enqueued(emitted), b) < Cost(Rank(task), b)
  {
    var rank := Rank(task);
    OneLevelDeeper(task, emitted);
    hide EmitsAtAll;
    if rank == 0 {
      assert emitted == [];
    } else {
      assert forall i :: 0 <= i < |emitted| ==> emitted[i] in emitted;
      TotalEnqueued(emitted, rank - 1, b);
      hide Rank, Total, Enqueued;
      TimesLess(|emitted|, b, ATTEMPTS * Cost(rank - 1, b));
    }
  }

  lemma TimesLess(n: nat, b: nat, k: nat)
    requires n <= b
    ensures n * k <= b * k
  {
  }

  /** Any run of deliveries emitting at most b tasks each is no longer than the cost of
      the events it started from. */
  lemma {:induction false} DeliveriesBounded(run: seq<Queue>, b: nat)
    requires run != [] && Fine(run[0])
    requires forall j :: 0 <= j < |run| - 1 ==> StepUpTo(run[j], run[j + 1], b)
    ensures |run| - 1 <= Total(run[0], b)
  {
    hide Total, StepUpTo, Fine;
    if |run| > 1 {
      assert StepUpTo(run[0], run[0 + 1], b);
      StepPays(run[0], run[1], b);
      forall j | 0 <= j < |run[1..]| - 1 ensures StepUpTo(run[1..][j], run[1..][j + 1], b) {
        assert run[1..][j] == run[j + 1] && run[1..][j + 1] == run[j + 1 + 1];
      }
      DeliveriesBounded(run[1..], b);
    }
  }

  /** From external events alone, at most 4 * Cost(4, b) deliveries per event. */
  lemma DeliveriesPerEvent(external: seq<Task>, run: seq<Queue>, b: nat)
    requires run != [] && run[0] == Enqueued(external)
    requires forall i :: 0 <= i < |external| ==> external[i].depth >= 0
    requires forall j :: 0 <= j < |run| - 1 ==> StepUpTo(run[j], run[j + 1], b)
    ensures |run| - 1 <= |external| * (4 * Cost(4, b))
  {
    hide Total, Cost, StepUpTo, Rank;
    assert Fine(run[0]);
    DeliveriesBounded(run, b);
    TotalEnqueued(external, MAX_DEPTH + 1, b);
  }
}
