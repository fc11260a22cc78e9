/** Workers of the rule queue: any number of attempts at any task, interleaved, crashing
    and retried, meeting only at the firing claim (infra/automationrules/deduper.go). */
module RuleWorkers {
  import opened Results
  import opened RuleEngine
  import opened Redis

  /** Seconds a firing stays claimed. */
  const WINDOW: int := 3600

  ghost function LiveClaims(db: Db): set<string> {
    set k | k in db.keys && db.Alive(k)
  }

  /** Deduper.Allow: it fails open. */
  method Allow(server: Server, key: string, reply: Reply) returns (allowed: bool)
    modifies server
    ensures (LiveClaims(server.db), allowed) == RuleEngine.Allow(LiveClaims(old(server.db)), key, reply)
    ensures server.db == if reply.Unreached? then old(server.db) else old(server.db).SetNX(key, "1", WINDOW)
  {
    if reply.Unreached? {
      return true;
    }
    ghost var before := server.db;
    var set_ := server.SetNX(key, "1", WINDOW);
    assert LiveClaims(server.db) == LiveClaims(before) + {key};
    allowed := if reply.Answered? then set_ else true;
  }

  class EventQueue {
    var tasks: seq<Task>

    constructor ()
      ensures tasks == []
    {
      tasks := [];
    }

    /** Best effort: a failing queue drops the event. */
    method EmitRuleEvent(
      ctx: Ctx, tenant: string, event: string, conversation: string, payload: Trigger, freshId: string, reachable: bool)
      modifies this
      ensures var task := Emit(ctx, tenant, event, conversation, payload, freshId);
        tasks == old(tasks) + if reachable && task.Some? then [task.value] else []
    {
      if tenant == "" || conversation == "" || !reachable {
        return;
      }
      tasks := tasks + [Task(tenant, event, conversation, payload, freshId, ctx.automation, ctx.depth)];
    }
  }

  // ---- the machine -------------------------------------------------------------

  /** One firing let through: answered is false when the claim ended in an error. */
  datatype Grant = Grant(task: Task, rule: Rule, at: int, answered: bool)

  function KeyOf(g: Grant): string {
    DedupKey(g.task.tenant, g.rule.id, g.task.eventId)
  }

  /** The run of one action under one grant. */
  datatype Run = Run(grant: nat, action: nat)

  datatype Firing = Firing(grant: nat, next: nat)

  datatype Worker = Worker(task: Task, todo: seq<Rule>, firing: Option<Firing>)

  /** external and ruleIds never change; grants and ran are history. A task stays
      deliverable: the queue may hand it out again at any time. */
  datatype World = World(
    external: set<Task>, ruleIds: set<string>,
    db: Db, tasks: set<Task>, workers: map<nat, Worker>, grants: seq<Grant>, ran: seq<Run>)

  datatype Op =
    | Begin(w: nat, task: Task, rules: seq<Rule>)
    | Claim(w: nat, reply: Reply)
    | RunNext(w: nat, emitted: set<Task>)
    | Finish(w: nat)
    | Crash(w: nat)
    | Wait(dt: nat)

  predicate Busy(x: World, w: nat) {
    w in x.workers && x.workers[w].firing.Some? && x.workers[w].firing.value.grant < |x.grants|
  }

  function Left(x: World, w: nat): int
    requires Busy(x, w)
  {
    var f := x.workers[w].firing.value;
    |x.grants[f.grant].rule.actions| - f.next
  }

  /** Begin hands a task to a worker with whatever rules match; neither the conversation
      lock nor the other workers restrict it. */
  ghost predicate Enabled(x: World, op: Op) {
    match op
    case Begin(w, task, rules) => task in x.tasks && !Suppressed(task) && forall r :: r in rules ==> r.id in x.ruleIds
    case Claim(w, _) => w in x.workers && x.workers[w].firing.None? && x.workers[w].todo != []
    case RunNext(w, emitted) => Busy(x, w) && Left(x, w) > 0 && forall e :: e in emitted ==> Emits(x.workers[w].task, e)
    case Finish(w) => Busy(x, w) && Left(x, w) <= 0
    case Crash(w) => w in x.workers
    case Wait(_) => true
  }

  function Apply(x: World, op: Op): World
    requires Enabled(x, op)
  {
    match op
    case Begin(w, task, rules) => x.(workers := x.workers[w := Worker(task, rules, None)])
    case Claim(w, reply) =>
      var me := x.workers[w];
      var rest := me.(todo := me.todo[1..]);
      var grant := Grant(me.task, me.todo[0], x.db.now, reply.Answered?);
      if reply.Answered? && x.db.Alive(KeyOf(grant)) then x.(workers := x.workers[w := rest])
      else x.(
        db := if reply.Unreached? then x.db else x.db.SetNX(KeyOf(grant), "1", WINDOW),
        workers := x.workers[w := rest.(firing := Some(Firing(|x.grants|, 0)))],
        grants := x.grants + [grant])
    case RunNext(w, emitted) =>
      var me := x.workers[w];
      var f := me.firing.value;
      x.(tasks := x.tasks + emitted,
         workers := x.workers[w := me.(firing := Some(f.(next := f.next + 1)))],
         ran := x.ran + [Run(f.grant, f.next)])
    case Finish(w) => x.(workers := x.workers[w := x.workers[w].(firing := None)])
    case Crash(w) => x.(workers := x.workers - {w})
    case Wait(dt) => x.(db := x.db.Pass(dt))
  }

  /** The claim step grants exactly what the evaluator's claim allows. */
  lemma ClaimIsAllow(x: World, w: nat, reply: Reply)
    requires Enabled(x, Claim(w, reply))
    ensures var key := DedupKey(x.workers[w].task.tenant, x.workers[w].todo[0].id, x.workers[w].task.eventId);
      var y := Apply(x, Claim(w, reply));
      (LiveClaims(y.db), |y.grants| > |x.grants|) == RuleEngine.Allow(LiveClaims(x.db), key, reply)
  {
    hide DedupKey;
    var key := DedupKey(x.workers[w].task.tenant, x.workers[w].todo[0].id, x.workers[w].task.eventId);
    var y := Apply(x, Claim(w, reply));
    if !reply.Unreached? {
      assert LiveClaims(y.db) == LiveClaims(x.db) + {key};
    }
  }

  // ---- histories -----------------------------------------------------------------

  function Upto(n: nat): seq<nat> {
    seq(n, (i: nat) => i)
  }

  /** The actions run under one grant, oldest first. */
  function ByGrant(ran: seq<Run>, g: nat): seq<nat> {
    if ran == [] then []
    else
      var front, last := ByGrant(ran[..|ran| - 1], g), ran[|ran| - 1];
      if last.grant == g then front + [last.action] else front
  }

  /** The actions run for one (rule, event), oldest first, whoever ran them. */
  function ByKey(ran: seq<Run>, grants: seq<Grant>, key: string): seq<nat> {
    if ran == [] then []
    else
      var front, last := ByKey(ran[..|ran| - 1], grants, key), ran[|ran| - 1];
      if last.grant < |grants| && KeyOf(grants[last.grant]) == key then front + [last.action] else front
  }

  lemma ByGrantStep(ran: seq<Run>, run: Run, g: nat)
    ensures ByGrant(ran + [run], g) == ByGrant(ran, g) + if run.grant == g then [run.action] else []
  {
    assert (ran + [run])[..|ran|] == ran;
  }

  lemma {:induction false} NoRunsYet(ran: seq<Run>, g: nat)
    requires forall i :: 0 <= i < |ran| ==> ran[i].grant < g
    ensures ByGrant(ran, g) == []
  {
    if ran != [] {
      NoRunsYet(ran[..|ran| - 1], g);
    }
  }

  // ---- what every step keeps -----------------------------------------------------

  predicate TaskOk(x: World, t: Task) {
    t in x.tasks ==> t.automation || t in x.external
  }

  predicate WorkerOk(x: World, w: nat) {
    w in x.workers ==>
      var me := x.workers[w];
      && me.task in x.external
      && (forall r :: r in me.todo ==> r.id in x.ruleIds)
      && (me.firing.Some? ==> Busy(x, w) && me.firing.value.next == |ByGrant(x.ran, me.firing.value.grant)|)
  }

  /** A grant is worked on by one attempt only. */
  predicate HeldOnce(x: World, v: nat, w: nat) {
    v != w && Busy(x, v) && Busy(x, w) ==> x.workers[v].firing.value.grant != x.workers[w].firing.value.grant
  }

  predicate RunOk(x: World, i: nat) {
    i < |x.ran| ==> x.ran[i].grant < |x.grants|
  }

  /** A grant has run a prefix of its rule's actions, and an answered one is claimed for
      the whole window. */
  predicate GrantOk(x: World, g: nat) {
    g < |x.grants| ==>
      var grant := x.grants[g];
      && grant.task in x.external && grant.rule.id in x.ruleIds && grant.at <= x.db.now
      && |ByGrant(x.ran, g)| <= |grant.rule.actions|
      && ByGrant(x.ran, g) == Upto(|ByGrant(x.ran, g)|)
      && (grant.answered ==> ClaimedThrough(x.db, KeyOf(grant), grant.at + WINDOW))
  }

  predicate ClaimedThrough(db: Db, key: string, time: int) {
    key in db.keys && db.keys[key].expires.Some? && time <= db.keys[key].expires.value
  }

  /** Two answered grants of one firing are a whole window apart. */
  predicate Spaced(x: World, g: nat, h: nat) {
    g < h < |x.grants| && KeyOf(x.grants[g]) == KeyOf(x.grants[h]) && x.grants[g].answered && x.grants[h].answered ==>
      x.grants[g].at + WINDOW <= x.grants[h].at
  }

  ghost predicate Inv(x: World) {
    && (forall t :: TaskOk(x, t))
    && (forall w: nat :: WorkerOk(x, w))
    && (forall v: nat, w: nat :: HeldOnce(x, v, w))
    && (forall i: nat :: RunOk(x, i))
    && (forall g: nat :: GrantOk(x, g))
    && (forall g: nat, h: nat :: Spaced(x, g, h))
  }

  lemma InvParts(x: World, t: Task, v: nat, w: nat, g: nat, h: nat)
    requires Inv(x)
    ensures TaskOk(x, t) && WorkerOk(x, w) && HeldOnce(x, v, w) && RunOk(x, g) && GrantOk(x, g) && Spaced(x, g, h)
  {
  }

  /** Steps that grant nothing and run nothing. */
  lemma WorkersMove(x: World, op: Op)
    requires Inv(x) && Enabled(x, op) && (op.Begin? || op.Finish? || op.Crash?)
    ensures Inv(Apply(x, op))
  {
    hide ByGrant, Upto, DedupKey;
    var y := Apply(x, op);
    forall t ensures TaskOk(y, t) { assert TaskOk(x, t); }
    if op.Begin? { assert TaskOk(x, op.task); }
    forall w: nat ensures WorkerOk(y, w) { assert WorkerOk(x, w); }
    forall v: nat, w: nat ensures HeldOnce(y, v, w) { assert HeldOnce(x, v, w); }
    forall i: nat ensures RunOk(y, i) { assert RunOk(x, i); }
    forall g: nat ensures GrantOk(y, g) { assert GrantOk(x, g); }
    forall g: nat, h: nat ensures Spaced(y, g, h) { assert Spaced(x, g, h); }
  }

  lemma WaitKeepsInv(x: World, dt: nat)
    requires Inv(x)
    ensures Inv(Apply(x, Wait(dt)))
  {
    hide ByGrant, Upto, DedupKey;
    var y := Apply(x, Wait(dt));
    forall t ensures TaskOk(y, t) { assert TaskOk(x, t); }
    forall w: nat ensures WorkerOk(y, w) { assert WorkerOk(x, w); }
    forall v: nat, w: nat ensures HeldOnce(y, v, w) { assert HeldOnce(x, v, w); }
    forall i: nat ensures RunOk(y, i) { assert RunOk(x, i); }
    forall g: nat ensures GrantOk(y, g) { assert GrantOk(x, g); }
    forall g: nat, h: nat ensures Spaced(y, g, h) { assert Spaced(x, g, h); }
  }

  /** A claim found already taken. */
  lemma SkipKeepsInv(x: World, op: Op)
    requires Inv(x) && Enabled(x, op) && op.Claim? && Apply(x, op).grants == x.grants
    ensures Inv(Apply(x, op))
  {
    hide ByGrant, Upto, DedupKey;
    var y := Apply(x, op);
    forall t ensures TaskOk(y, t) { assert TaskOk(x, t); }
    forall w: nat ensures WorkerOk(y, w) { assert WorkerOk(x, w); }
    forall v: nat, w: nat ensures HeldOnce(y, v, w) { assert HeldOnce(x, v, w); }
    forall i: nat ensures RunOk(y, i) { assert RunOk(x, i); }
    forall g: nat ensures GrantOk(y, g) { assert GrantOk(x, g); }
    forall g: nat, h: nat ensures Spaced(y, g, h) { assert Spaced(x, g, h); }
  }

  lemma GrantKeepsInv(x: World, op: Op)
    requires Inv(x) && Enabled(x, op) && op.Claim? && Apply(x, op).grants != x.grants
    ensures Inv(Apply(x, op))
  {
    hide ByGrant, Upto, DedupKey, KeyOf;
    var y := Apply(x, op);
    var n := |x.grants|;
    var grant := y.grants[n];
    assert WorkerOk(x, op.w);
    forall i: nat | i < |x.ran| ensures x.ran[i].grant < n { assert RunOk(x, i); }
    NoRunsYet(x.ran, n);
    forall t ensures TaskOk(y, t) { assert TaskOk(x, t); }
    forall w: nat ensures WorkerOk(y, w) { assert WorkerOk(x, w); }
    forall v: nat, w: nat ensures HeldOnce(y, v, w) {
      assert HeldOnce(x, v, w) && WorkerOk(x, v) && WorkerOk(x, w);
    }
    forall i: nat ensures RunOk(y, i) { assert RunOk(x, i); }
    forall g: nat ensures GrantOk(y, g) { GrantKeepsGrant(x, op, g); }
    forall g: nat, h: nat ensures Spaced(y, g, h) {
      assert Spaced(x, g, h) && GrantOk(x, g);
    }
  }

  lemma GrantKeepsGrant(x: World, op: Op, g: nat)
    requires Inv(x) && Enabled(x, op) && op.Claim? && Apply(x, op).grants != x.grants
    requires ByGrant(x.ran, |x.grants|) == []
    ensures GrantOk(Apply(x, op), g)
  {
    hide ByGrant, DedupKey, KeyOf;
    assert GrantOk(x, g) && WorkerOk(x, op.w);
    assert x.workers[op.w].todo[0] in x.workers[op.w].todo;
  }

  lemma RunKeepsInv(x: World, op: Op)
    requires Inv(x) && Enabled(x, op) && op.RunNext?
    ensures Inv(Apply(x, op))
  {
    hide ByGrant, Upto, DedupKey, Emits;
    var y := Apply(x, op);
    var me := x.workers[op.w].firing.value;
    forall g: nat ensures ByGrant(y.ran, g) == ByGrant(x.ran, g) + if me.grant == g then [me.next] else [] {
      ByGrantStep(x.ran, Run(me.grant, me.next), g);
    }
    forall t ensures TaskOk(y, t) {
      assert TaskOk(x, t);
      if t in op.emitted { EmittedIsTagged(x.workers[op.w].task, t); }
    }
    forall w: nat ensures WorkerOk(y, w) { assert WorkerOk(x, w) && HeldOnce(x, op.w, w); }
    forall v: nat, w: nat ensures HeldOnce(y, v, w) { assert HeldOnce(x, v, w); }
    forall i: nat ensures RunOk(y, i) { assert RunOk(x, i); }
    forall g: nat ensures GrantOk(y, g) {
      assert GrantOk(x, g) && WorkerOk(x, op.w);
      UptoStep(me.next);
    }
    forall g: nat, h: nat ensures Spaced(y, g, h) { assert Spaced(x, g, h); }
  }

  lemma UptoStep(n: nat)
    ensures |Upto(n)| == n && Upto(n + 1) == Upto(n) + [n]
  {
  }

  lemma StepKeepsInv(x: World, op: Op)
    requires Inv(x) && Enabled(x, op)
    ensures Inv(Apply(x, op))
    ensures Apply(x, op).external == x.external && Apply(x, op).ruleIds == x.ruleIds
  {
    hide Inv;
    match op
    case Claim(_, _) =>
      if Apply(x, op).grants == x.grants { SkipKeepsInv(x, op); } else { GrantKeepsInv(x, op); }
    case RunNext(_, _) => RunKeepsInv(x, op);
    case Wait(dt) => WaitKeepsInv(x, dt);
    case _ => WorkersMove(x, op);
  }

  ghost predicate Reaches(x: World, ops: seq<Op>, y: World)
    decreases |ops|
  {
    if ops == [] then x == y else Enabled(x, ops[0]) && Reaches(Apply(x, ops[0]), ops[1..], y)
  }

  /** Nothing has happened yet but the external events. */
  predicate Start(x: World) {
    x.tasks == x.external && x.db.keys == map[] && x.workers == map[] && x.grants == [] && x.ran == []
  }

  lemma {:induction false} RunsKeepInv(x: World, ops: seq<Op>, y: World)
    requires Inv(x) && Reaches(x, ops, y)
    ensures Inv(y) && y.external == x.external && y.ruleIds == x.ruleIds
    decreases |ops|
  {
    hide Inv, Apply, Enabled;
    if ops != [] {
      StepKeepsInv(x, ops[0]);
      RunsKeepInv(Apply(x, ops[0]), ops[1..], y);
    }
  }

  // ---- at most once ----------------------------------------------------------------

  /** Every claim of the firing was answered, and all of them fall within one window:
      the store was up and the retries ended before the claim expired. */
  ghost predicate Steady(x: World, key: string) {
    && (forall g :: 0 <= g < |x.grants| && KeyOf(x.grants[g]) == key ==> x.grants[g].answered)
    && (forall g, h ::
          0 <= g < |x.grants| && 0 <= h < |x.grants| && KeyOf(x.grants[g]) == key && KeyOf(x.grants[h]) == key ==>
          x.grants[h].at < x.grants[g].at + WINDOW)
  }

  lemma OneGrant(x: World, key: string, g: nat, h: nat)
    requires Inv(x) && Steady(x, key) && g < |x.grants| && h < |x.grants|
    requires KeyOf(x.grants[g]) == key && KeyOf(x.grants[h]) == key
    ensures g == h
  {
    hide DedupKey, Inv, KeyOf;
    var t := x.grants[g].task;
    InvParts(x, t, 0, 0, g, h);
    InvParts(x, t, 0, 0, h, g);
  }

  lemma {:induction false} KeyIsGrant(ran: seq<Run>, grants: seq<Grant>, key: string, g: nat)
    requires forall i :: 0 <= i < |ran| ==> ran[i].grant < |grants|
    requires forall h :: 0 <= h < |grants| ==> (KeyOf(grants[h]) == key <==> h == g)
    ensures ByKey(ran, grants, key) == ByGrant(ran, g)
  {
    hide KeyOf;
    if ran != [] {
      KeyIsGrant(ran[..|ran| - 1], grants, key, g);
    }
  }

  /** A firing let through once runs a prefix of its actions, in order. */
  lemma OneGrantRunsOnce(y: World, key: string)
    requires Inv(y)
    requires forall g: nat, h: nat ::
      g < |y.grants| && h < |y.grants| && KeyOf(y.grants[g]) == key && KeyOf(y.grants[h]) == key ==> g == h
    ensures RunsOnce(y, key)
  {
    hide KeyOf, ByGrant, ByKey, Upto;
    forall i | 0 <= i < |y.ran| ensures y.ran[i].grant < |y.grants| { assert RunOk(y, i); }
    var none := |y.grants|;
    var g := if h :| 0 <= h < |y.grants| && KeyOf(y.grants[h]) == key then h else none;
    KeyIsGrant(y.ran, y.grants, key, g);
    if g == none { NoRunsYet(y.ran, none); EmptyUpto(); } else { assert GrantOk(y, g); }
  }

  /** What ran for a (rule, event) is a prefix of the declared actions, each once, in order. */
  predicate RunsOnce(y: World, key: string) {
    && ByKey(y.ran, y.grants, key) == Upto(|ByKey(y.ran, y.grants, key)|)
    && forall g :: 0 <= g < |y.grants| && KeyOf(y.grants[g]) == key ==>
         |ByKey(y.ran, y.grants, key)| <= |y.grants[g].rule.actions|
  }

  /** However its task is retried and whichever workers race for it, a rule's actions run
      at most once per event. */
  lemma AtMostOnce(x: World, ops: seq<Op>, y: World, key: string)
    requires Start(x) && Reaches(x, ops, y) && Steady(y, key)
    ensures RunsOnce(y, key)
  {
    hide Reaches, KeyOf, RunsOnce, Steady, Inv;
    StartIsInv(x);
    RunsKeepInv(x, ops, y);
    forall g: nat, h: nat | g < |y.grants| && h < |y.grants| && KeyOf(y.grants[g]) == key && KeyOf(y.grants[h]) == key
      ensures g == h
    {
      OneGrant(y, key, g, h);
    }
    OneGrantRunsOnce(y, key);
  }

  lemma EmptyUpto()
    ensures Upto(0) == []
  {
  }

  lemma StartIsInv(x: World)
    requires Start(x)
    ensures Inv(x)
  {
  }

  // ---- when it happens twice -----------------------------------------------------------

  /** One claim of a firing: when, and how it ended. */
  datatype Attempt = Attempt(at: int, reply: Reply)

  /** The firing a worker claims next. */
  function ClaimKey(x: World, w: nat): string
    requires w in x.workers && x.workers[w].todo != []
  {
    DedupKey(x.workers[w].task.tenant, x.workers[w].todo[0].id, x.workers[w].task.eventId)
  }

  /** Every claim of one firing in a run, whichever worker made it. */
  ghost function AttemptsOf(x: World, ops: seq<Op>, key: string): seq<Attempt>
    decreases |ops|
  {
    if ops == [] || !Enabled(x, ops[0]) then []
    else
      (if ops[0].Claim? && ClaimKey(x, ops[0].w) == key then [Attempt(x.db.now, ops[0].reply)] else [])
      + AttemptsOf(Apply(x, ops[0]), ops[1..], key)
  }

  /** How often a firing was let through. */
  function GrantsOf(grants: seq<Grant>, key: string): nat {
    if grants == [] then 0
    else GrantsOf(grants[..|grants| - 1], key) + if KeyOf(grants[|grants| - 1]) == key then 1 else 0
  }

  /** How many of the claims are let through, when the firing is claimed until then. */
  function Granted(until: Option<int>, attempts: seq<Attempt>): nat
    decreases |attempts|
  {
    if attempts == [] then 0
    else
      var a, rest := attempts[0], attempts[1..];
      var claimed := until.Some? && a.at < until.value;
      if a.reply.Answered? && claimed then Granted(until, rest)
      else 1 + Granted(if a.reply.Unreached? || claimed then until else Some(a.at + WINDOW), rest)
  }

  function ClaimedUntil(db: Db, key: string): Option<int> {
    if key in db.keys then db.keys[key].expires else None
  }

  predicate AllExpire(db: Db) {
    forall k :: k in db.keys ==> db.keys[k].expires.Some?
  }

  lemma {:induction false} GrantsCounted(x: World, ops: seq<Op>, y: World, key: string)
    requires AllExpire(x.db) && Reaches(x, ops, y)
    ensures GrantsOf(y.grants, key)
         == GrantsOf(x.grants, key) + Granted(ClaimedUntil(x.db, key), AttemptsOf(x, ops, key))
    decreases |ops|
  {
    if ops != [] {
      var op, mid := ops[0], Apply(x, ops[0]);
      StepCounts(x, op, key, AttemptsOf(mid, ops[1..], key));
      hide Apply, Enabled, DedupKey, AllExpire, Granted;
      GrantsCounted(mid, ops[1..], y, key);
    }
  }

  lemma StepCounts(x: World, op: Op, key: string, later: seq<Attempt>)
    requires AllExpire(x.db) && Enabled(x, op)
    ensures AllExpire(Apply(x, op).db)
    ensures var y := Apply(x, op);
      var now := if op.Claim? && ClaimKey(x, op.w) == key then [Attempt(x.db.now, op.reply)] else [];
      GrantsOf(y.grants, key) + Granted(ClaimedUntil(y.db, key), later)
      == GrantsOf(x.grants, key) + Granted(ClaimedUntil(x.db, key), now + later)
  {
    hide DedupKey;
    var y := Apply(x, op);
    assert [] + later == later;
    if op.Claim? {
      var a := Attempt(x.db.now, op.reply);
      assert ([a] + later)[1..] == later;
      if y.grants != x.grants {
        assert y.grants[..|x.grants|] == x.grants;
      }
    }
  }

  /** With the firing claimed until then, nothing more is let through if and only if every
      claim is answered before. */
  lemma {:induction false} NoneGrantedIff(until: int, attempts: seq<Attempt>)
    ensures Granted(Some(until), attempts) == 0
       <==> forall j :: 0 <= j < |attempts| ==> attempts[j].reply.Answered? && attempts[j].at < until
  {
    if attempts != [] {
      NoneGrantedIff(until, attempts[1..]);
      assert forall j :: 0 <= j < |attempts[1..]| ==> attempts[1..][j] == attempts[j + 1];
      assert forall j :: 0 < j < |attempts| ==> attempts[j] == attempts[1..][j - 1];
    }
  }

  /** The first claim had no effect, or a later one ended in an error or came when the
      first one's window was over. */
  predicate Again(attempts: seq<Attempt>) {
    |attempts| >= 2
    && (attempts[0].reply.Unreached?
        || exists j :: 1 <= j < |attempts|
             && !(attempts[j].reply.Answered? && attempts[j].at < attempts[0].at + 3600))
  }

  lemma GrantedTwiceIff(attempts: seq<Attempt>)
    ensures Granted(None, attempts) >= 2 <==> Again(attempts)
  {
    if attempts != [] {
      var a, rest := attempts[0], attempts[1..];
      assert forall j :: 0 <= j < |rest| ==> rest[j] == attempts[j + 1];
      if !a.reply.Unreached? {
        NoneGrantedIff(a.at + WINDOW, rest);
        assert Again(attempts) <==>
          (exists j :: 0 <= j < |rest| && !(rest[j].reply.Answered? && rest[j].at < a.at + WINDOW)) by {
          if Again(attempts) {
            var j :| 1 <= j < |attempts| && !(attempts[j].reply.Answered? && attempts[j].at < a.at + WINDOW);
            assert rest[j - 1] == attempts[j];
          }
        }
      }
    }
  }

  /** Over every run, retries and races included, a firing is let through twice if and
      only if, of two claims or more, the first never reached the store, or a later one
      ended in an error or came a whole window after the first. A first claim whose reply
      alone was lost still holds. */
  lemma FiresTwiceIff(x: World, ops: seq<Op>, y: World, key: string)
    requires Start(x) && Reaches(x, ops, y)
    ensures GrantsOf(y.grants, key) >= 2 <==> Again(AttemptsOf(x, ops, key))
  {
    hide Reaches, Granted, Again, AttemptsOf;
    GrantsCounted(x, ops, y, key);
    GrantedTwiceIff(AttemptsOf(x, ops, key));
  }

  lemma {:induction false} TwoGrantsCount(grants: seq<Grant>, key: string, g: nat, h: nat)
    requires h < |grants| && KeyOf(grants[h]) == key
    ensures GrantsOf(grants, key) >= 1
    ensures g < h && KeyOf(grants[g]) == key ==> GrantsOf(grants, key) >= 2
  {
    hide KeyOf;
    var front := grants[..|grants| - 1];
    if h < |grants| - 1 {
      TwoGrantsCount(front, key, g, h);
    } else if g < h && KeyOf(grants[g]) == key {
      TwoGrantsCount(front, key, g, g);
    }
  }

  /** So at most once holds of every run whose claims do not let the firing through again,
      errors whose claim took effect included. */
  lemma AtMostOnceUnlessAgain(x: World, ops: seq<Op>, y: World, key: string)
    requires Start(x) && Reaches(x, ops, y) && !Again(AttemptsOf(x, ops, key))
    ensures RunsOnce(y, key)
  {
    hide Reaches, KeyOf, RunsOnce, Again, AttemptsOf, Inv, GrantsOf;
    StartIsInv(x);
    RunsKeepInv(x, ops, y);
    FiresTwiceIff(x, ops, y, key);
    forall g: nat, h: nat | g < |y.grants| && h < |y.grants| && KeyOf(y.grants[g]) == key && KeyOf(y.grants[h]) == key
      ensures g == h
    {
      TwoGrantsCount(y.grants, key, g, h);
      TwoGrantsCount(y.grants, key, h, g);
    }
    OneGrantRunsOnce(y, key);
  }

  /** In every run, a firing can finish only once it has run every action of its rule, in
      declared order: nothing but a crash cuts one short. */
  lemma FinishedIsWhole(x: World, ops: seq<Op>, y: World, w: nat)
    requires Start(x) && Reaches(x, ops, y) && Enabled(y, Finish(w))
    ensures var f := y.workers[w].firing.value; var n := |y.grants[f.grant].rule.actions|;
      var ran := ByGrant(y.ran, f.grant);
      |ran| == n && forall i :: 0 <= i < n ==> ran[i] == i
  {
    hide Reaches, Inv;
    StartIsInv(x);
    RunsKeepInv(x, ops, y);
    var f := y.workers[w].firing.value;
    InvParts(y, y.workers[w].task, w, w, f.grant, f.grant);
  }

  // ---- a crashed attempt ------------------------------------------------------

  function Began(task: Task, rule: Rule): World {
    World({task}, {rule.id}, Db(0, map[]), {task}, map[], [], [])
  }

  /** An attempt up to its claim, as worker 0. */
  function Try(task: Task, rule: Rule, reply: Reply): seq<Op> {
    [Begin(0, task, [rule])] + [Claim(0, reply)]
  }

  function Attempted(x: World, task: Task, rule: Rule, reply: Reply): World {
    var grant := Grant(task, rule, x.db.now, reply.Answered?);
    var mine := x.workers[0 := Worker(task, [rule], None)];
    if reply.Answered? && x.db.Alive(KeyOf(grant)) then x.(workers := mine[0 := Worker(task, [rule][1..], None)])
    else x.(
      db := if reply.Unreached? then x.db else x.db.SetNX(KeyOf(grant), "1", WINDOW),
      workers := mine[0 := Worker(task, [rule][1..], Some(Firing(|x.grants|, 0)))],
      grants := x.grants + [grant])
  }

  lemma AttemptReaches(x: World, task: Task, rule: Rule, reply: Reply)
    requires task in x.tasks && !Suppressed(task) && rule.id in x.ruleIds
    ensures Reaches(x, Try(task, rule, reply), Attempted(x, task, rule, reply))
  {
    hide KeyOf, Suppressed, Reaches;
    var mid := x.(workers := x.workers[0 := Worker(task, [rule], None)]);
    ReachesOne(x, Begin(0, task, [rule]));
    assert Apply(x, Begin(0, task, [rule])) == mid;
    ReachesOne(mid, Claim(0, reply));
    ReachesThen(x, [Begin(0, task, [rule])], mid, [Claim(0, reply)], Attempted(x, task, rule, reply));
  }

  /** Its first action runs, it crashes, and time passes. */
  function CrashMidway(dt: nat): seq<Op> {
    [RunNext(0, {})] + [Crash(0)] + [Wait(dt)]
  }

  lemma CrashReaches(x: World, dt: nat)
    requires Enabled(x, RunNext(0, {}))
    ensures var f := x.workers[0].firing.value;
      Reaches(x, CrashMidway(dt),
        x.(workers := x.workers - {0}, db := x.db.Pass(dt), ran := x.ran + [Run(f.grant, f.next)]))
  {
    hide Reaches;
    var a := Apply(x, RunNext(0, {}));
    var b := Apply(a, Crash(0));
    assert b.workers == x.workers - {0} && b.tasks == x.tasks;
    ReachesOne(x, RunNext(0, {}));
    ReachesOne(a, Crash(0));
    ReachesOne(b, Wait(dt));
    ReachesThen(x, [RunNext(0, {})], a, [Crash(0)], b);
    ReachesThen(x, [RunNext(0, {})] + [Crash(0)], b, [Wait(dt)], Apply(b, Wait(dt)));
  }

  function Retried(task: Task, rule: Rule, first: Reply, second: Reply, dt: nat): seq<Op> {
    Try(task, rule, first) + CrashMidway(dt) + Try(task, rule, second)
  }

  /** A crashed attempt is retried: the retry runs the first action again exactly when the
      first claim never reached the store, the second ended in an error, or it comes a
      whole window later. */
  lemma RetryRunsAgainIff(task: Task, rule: Rule, first: Reply, second: Reply, dt: nat) returns (y: World)
    requires !Suppressed(task) && !task.automation && rule.actions != []
    ensures Start(Began(task, rule)) && Reaches(Began(task, rule), Retried(task, rule, first, second, dt), y)
    ensures y.ran == [Run(0, 0)]
    ensures Enabled(y, RunNext(0, {})) <==> (first.Unreached? || !second.Answered? || dt >= 3600)
    ensures forall g :: 0 <= g < |y.grants| ==> KeyOf(y.grants[g]) == DedupKey(task.tenant, rule.id, task.eventId)
  {
    hide DedupKey, Reaches, Suppressed, Try, CrashMidway;
    var x := Began(task, rule);
    var a := Attempted(x, task, rule, first);
    AttemptReaches(x, task, rule, first);
    var b := a.(workers := a.workers - {0}, db := a.db.Pass(dt), ran := a.ran + [Run(0, 0)]);
    CrashReaches(a, dt);
    AttemptReaches(b, task, rule, second);
    y := Attempted(b, task, rule, second);
    ReachesThen(x, Try(task, rule, first), a, CrashMidway(dt), b);
    ReachesThen(x, Try(task, rule, first) + CrashMidway(dt), b, Try(task, rule, second), y);
  }

  lemma ReachesOne(x: World, op: Op)
    requires Enabled(x, op)
    ensures Reaches(x, [op], Apply(x, op))
  {
    hide Enabled, Apply;
    assert Reaches(Apply(x, op), [], Apply(x, op));
  }

  lemma {:induction false} ReachesThen(x: World, a: seq<Op>, y: World, b: seq<Op>, z: World)
    requires Reaches(x, a, y) && Reaches(y, b, z)
    ensures Reaches(x, a + b, z)
    decreases |a|
  {
    hide Enabled, Apply;
    if a == [] {
      assert a + b == b;
    } else {
      assert (a + b)[0] == a[0] && (a + b)[1..] == a[1..] + b;
      ReachesThen(Apply(x, a[0]), a[1..], y, b, z);
    }
  }

  // ---- how many firings ----------------------------------------------------------------

  /** The firings there can be: one per external event and rule. */
  function Keys(external: set<Task>, ruleIds: set<string>): set<string> {
    set t, r | t in external && r in ruleIds :: DedupKey(t.tenant, r, t.eventId)
  }

  function KeysOf(t: Task, ruleIds: set<string>): set<string> {
    set r | r in ruleIds :: DedupKey(t.tenant, r, t.eventId)
  }

  lemma {:induction false} KeysOfBounded(t: Task, ruleIds: set<string>)
    ensures |KeysOf(t, ruleIds)| <= |ruleIds|
  {
    hide DedupKey;
    if ruleIds != {} {
      var r :| r in ruleIds;
      KeysOfBounded(t, ruleIds - {r});
      assert KeysOf(t, ruleIds) == KeysOf(t, ruleIds - {r}) + {DedupKey(t.tenant, r, t.eventId)};
    }
  }

  lemma KeysSplit(external: set<Task>, t: Task, ruleIds: set<string>)
    requires t in external
    ensures Keys(external, ruleIds) == Keys(external - {t}, ruleIds) + KeysOf(t, ruleIds)
    ensures |Keys(external, ruleIds)| <= |Keys(external - {t}, ruleIds)| + |KeysOf(t, ruleIds)|
  {
    hide DedupKey;
  }

  lemma NoKeys(ruleIds: set<string>)
    ensures Keys({}, ruleIds) == {}
  {
  }

  lemma Product(n: nat, m: nat, k: nat)
    requires m == n + 1
    ensures m * k == n * k + k
  {
  }

  lemma {:induction false} KeysBounded(external: set<Task>, ruleIds: set<string>)
    ensures |Keys(external, ruleIds)| <= |external| * |ruleIds|
  {
    hide DedupKey, Keys, KeysOf;
    if external == {} {
      NoKeys(ruleIds);
      assert Keys(external, ruleIds) == {};
    } else {
      var t :| t in external;
      var rest := external - {t};
      KeysBounded(rest, ruleIds);
      KeysOfBounded(t, ruleIds);
      KeysSplit(external, t, ruleIds);
      assert external == rest + {t};
      Product(|rest|, |external|, |ruleIds|);
    }
  }

  lemma {:induction false} DistinctFit(xs: seq<string>, all: set<string>)
    requires forall i, j :: 0 <= i < j < |xs| ==> xs[i] != xs[j]
    requires forall i :: 0 <= i < |xs| ==> xs[i] in all
    ensures |xs| <= |all|
  {
    if xs != [] {
      var last := xs[|xs| - 1];
      DistinctFit(xs[..|xs| - 1], all - {last});
    }
  }

  /** In every interleaving, whatever the actions emit, the rules fire at most once per
      external event and rule: automation adds no firing. */
  lemma FiringsBounded(x: World, ops: seq<Op>, y: World)
    requires Start(x) && Reaches(x, ops, y)
    requires forall key :: Steady(y, key)
    ensures |y.grants| <= |x.external| * |x.ruleIds|
  {
    hide Reaches, KeyOf, Steady, DedupKey;
    StartIsInv(x);
    RunsKeepInv(x, ops, y);
    var keys := seq(|y.grants|, i requires 0 <= i < |y.grants| => KeyOf(y.grants[i]));
    forall i, j | 0 <= i < j < |keys| ensures keys[i] != keys[j] {
      if keys[i] == keys[j] {
        OneGrant(y, keys[i], i, j);
      }
    }
    forall i | 0 <= i < |keys| ensures keys[i] in Keys(y.external, y.ruleIds) {
      GrantIsPossible(y, i);
    }
    DistinctFit(keys, Keys(y.external, y.ruleIds));
    KeysBounded(x.external, x.ruleIds);
  }

  lemma GrantIsPossible(y: World, g: nat)
    requires Inv(y) && g < |y.grants|
    ensures KeyOf(y.grants[g]) in Keys(y.external, y.ruleIds)
  {
    hide DedupKey, ByGrant, Upto;
    assert GrantOk(y, g);
  }
}
