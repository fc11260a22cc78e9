/** Rule evaluation (domain/automationrules/service/evaluator.go), the action executor
    (executor.go) and the event sink and firing claim behind them
    (infra/automationrules/enqueuer.go and deduper.go). */
module RuleEngine {
  import opened Results
  import opened Text
  import opened RuleMatch

  // ---- tasks and the context they travel on ----------------------------------

  /** The context's rule origin and causal depth (domain/shared/rules.go). */
  datatype Ctx = Ctx(automation: bool, depth: int)

  const MAX_DEPTH: int := 3

  datatype RuleEvent =
    | ConversationCreated | ConversationUpdated | ConversationResolved | ConversationOpened
    | ConversationClosed | MessageCreated | InteractiveReplyReceived

  /** The triggering message's fields, empty when the payload does not carry them. */
  datatype Trigger = Trigger(text: string, messageType: string, interactiveReply: string)

  datatype Task = Task(
    tenant: string, event: string, conversation: string, payload: Trigger, eventId: string,
    automation: bool, depth: int)

  /** EmitRuleEvent: None when there is nothing to enqueue. */
  function Emit(
    ctx: Ctx, tenant: string, event: string, conversation: string, payload: Trigger, freshId: string): Option<Task>
  {
    if tenant == "" || conversation == "" then None
    else Some(Task(tenant, event, conversation, payload, freshId, ctx.automation, ctx.depth))
  }

  /** An event arrives as it was sent, on the context it was sent under: outside any
      action it is not automation, and is evaluated. */
  lemma EmitCarries(
    ctx: Ctx, tenant: string, event: string, conversation: string, payload: Trigger, freshId: string)
    ensures var sent := Emit(ctx, tenant, event, conversation, payload, freshId);
      && (sent.None? <==> tenant == "" || conversation == "")
      && (sent.Some? ==>
            var t := sent.value;
            && t.tenant == tenant && t.event == event && t.conversation == conversation && t.payload == payload
            && t.eventId == freshId && t.automation == ctx.automation && t.depth == ctx.depth
            && (Suppressed(t) <==> ctx.automation || ctx.depth > 3))
  {
  }

  // ---- actions ---------------------------------------------------------------

  datatype ActionKind =
    | SendWebhook | SendMessage | SendAttachment | SendInteractive | Mutate | MoveDealStage | Unsupported

  datatype Action = Action(name: string, kind: ActionKind)

  datatype ActionError = NoError | BudgetExceeded | MissingRef | Failed

  /** The budget port: its answer, or None when it errs or is not wired. */
  function BudgetAllows(answer: Option<bool>): bool {
    answer.None? || answer.value
  }

  /** called: the port ran, under the context given; None when it did not run. */
  datatype Ran = Ran(called: Option<Ctx>, error: ActionError)

  /** Executor.Run: port is what the dispatched call answers. */
  function RunAction(ctx: Ctx, depth: int, kind: ActionKind, budget: Option<bool>, port: ActionError): Ran {
    var inner := Ctx(true, depth + 1);
    match kind
    case Unsupported => Ran(None, Failed)
    case SendMessage => if BudgetAllows(budget) then Ran(Some(inner), port) else Ran(None, BudgetExceeded)
    case SendAttachment => if BudgetAllows(budget) then Ran(Some(inner), port) else Ran(None, BudgetExceeded)
    case SendInteractive => if BudgetAllows(budget) then Ran(Some(inner), port) else Ran(None, BudgetExceeded)
    case _ => Ran(Some(inner), port)
  }

  /** What enqueues when something behind an action's port emits an event. */
  function Emission(
    task: Task, ctx: Ctx, kind: ActionKind, budget: Option<bool>, port: ActionError,
    event: string, conversation: string, payload: Trigger, freshId: string): Option<Task>
  {
    var ran := RunAction(ctx, task.depth, kind, budget, port);
    if ran.called.None? then None else Emit(ran.called.value, task.tenant, event, conversation, payload, freshId)
  }

  /** e can be emitted while one of a rule's actions runs for the task. */
  ghost predicate Emits(task: Task, e: Task) {
    exists ctx, kind, budget, port, event, conversation, payload, freshId ::
      Emission(task, ctx, kind, budget, port, event, conversation, payload, freshId) == Some(e)
  }

  lemma EmittedIsTagged(task: Task, e: Task)
    requires Emits(task, e)
    ensures e.automation && e.depth == task.depth + 1 && e.tenant == task.tenant
  {
  }

  // ---- rules and their order ---------------------------------------------------

  datatype Rule = Rule(
    id: string, event: RuleEvent, priority: int, createdAt: int, conditions: seq<Condition>, actions: seq<Action>)

  predicate Before(a: Rule, b: Rule) {
    if a.priority != b.priority then a.priority < b.priority
    else if a.createdAt != b.createdAt then a.createdAt < b.createdAt
    else Less(a.id, b.id)
  }

  lemma BeforeTotal(a: Rule, b: Rule)
    requires a.id != b.id
    ensures Before(a, b) || Before(b, a)
  {
    LessTotal(a.id, b.id);
  }

  lemma BeforeTransitive(a: Rule, b: Rule, c: Rule)
    requires Before(a, b) && Before(b, c)
    ensures Before(a, c)
  {
    if Less(a.id, b.id) && Less(b.id, c.id) {
      LessTransitive(a.id, b.id, c.id);
    }
  }

  lemma BeforeAsymmetric(a: Rule, b: Rule)
    requires Before(a, b)
    ensures !Before(b, a)
  {
    LessIrreflexive(a.id);
    if Less(a.id, b.id) && Less(b.id, a.id) {
      LessTransitive(a.id, b.id, a.id);
    }
  }

  /** A lower priority number comes first; ties go to the older rule, and then to the id. */
  lemma BeforeReads(a: Rule, b: Rule)
    ensures a.priority < b.priority ==> Before(a, b)
    ensures a.priority == b.priority && a.createdAt < b.createdAt ==> Before(a, b)
    ensures a.priority == b.priority && a.createdAt == b.createdAt ==> (Before(a, b) <==> Less(a.id, b.id))
    ensures Before(a, b) ==> a.priority <= b.priority && (a.priority == b.priority ==> a.createdAt <= b.createdAt)
  {
  }

  predicate DistinctIds(rules: seq<Rule>) {
    forall i, j :: 0 <= i < j < |rules| ==> rules[i].id != rules[j].id
  }

  ghost predicate StrictlyOrdered(rules: seq<Rule>) {
    forall i, j :: 0 <= i < j < |rules| ==> Before(rules[i], rules[j])
  }

  function Insert(r: Rule, rules: seq<Rule>): seq<Rule> {
    if rules == [] || !Before(rules[0], r) then [r] + rules else [rules[0]] + Insert(r, rules[1..])
  }

  /** sort.SliceStable */
  function Sort(rules: seq<Rule>): seq<Rule> {
    if rules == [] then [] else Insert(rules[0], Sort(rules[1..]))
  }

  function Matching(rules: seq<Rule>, ec: EvalContext): seq<Rule> {
    if rules == [] then []
    else
      var front, last := Matching(rules[..|rules| - 1], ec), rules[|rules| - 1];
      if MatchesAll(last.conditions, ec) then front + [last] else front
  }

  // ---- the firing claim --------------------------------------------------------

  function DedupKey(tenant: string, rule: string, event: string): string {
    "rule:fired:" + tenant + ":" + rule + ":" + event
  }

  /** How a set-if-absent ends: with its answer, or with an error after it took effect
      (the reply was lost), or before it did. */
  datatype Reply = Answered | Lost | Unreached

  /** Allow: set if absent. An error lets the firing through, whatever became of it. */
  function Allow(claims: set<string>, key: string, reply: Reply): (set<string>, bool) {
    (if reply.Unreached? then claims else claims + {key}, reply.Answered? ==> key !in claims)
  }

  // ---- evaluation --------------------------------------------------------------

  datatype EvalStatus =
    | ActionEnqueued | SkippedBudget | SkippedMissingRef | ErrorStatus | SkippedStale | SkippedDedup

  function Classify(e: ActionError): EvalStatus {
    match e
    case NoError => ActionEnqueued
    case BudgetExceeded => SkippedBudget
    case MissingRef => SkippedMissingRef
    case Failed => ErrorStatus
  }

  /** action is "" on a rule-level skip. */
  datatype Row = Row(rule: string, event: RuleEvent, action: string, status: EvalStatus)

  /** The claimed keys, the log rows, and the history of action runs (rule, position). */
  datatype Store = Store(claims: set<string>, logs: seq<Row>, ran: seq<(string, nat)>)

  datatype Failure = NotFound | Other

  /** How the ports answer during one evaluation. */
  datatype Ports = Ports(
    rulesFor: RuleEvent -> Result<seq<Rule>, Failure>,
    first: Result<EvalContext, Failure>,
    live: Result<EvalContext, Failure>,
    reply: string -> Reply,
    outcome: (string, nat) -> ActionError)

  function RuleEventFor(event: string): Option<RuleEvent> {
    if event == "conversation.created" then Some(ConversationCreated)
    else if event == "conversation.updated" then Some(ConversationUpdated)
    else if event == "conversation.resolved" then Some(ConversationResolved)
    else if event == "conversation.reopened" then Some(ConversationOpened)
    else if event == "conversation.closed" then Some(ConversationClosed)
    else if event == "message.created" then Some(MessageCreated)
    else None
  }

  function TriggerOf(task: Task): Trigger {
    if task.event != "message.created" then Trigger("", "", "") else task.payload
  }

  function ApplicableEvents(task: Task): seq<RuleEvent> {
    match RuleEventFor(task.event)
    case None => []
    case Some(base) =>
      if base == MessageCreated && TriggerOf(task).messageType == "interactive_reply"
      then [base, InteractiveReplyReceived] else [base]
  }

  /** Which rules an event concerns: an interactive reply is also a created message. */
  lemma EventsOf(task: Task)
    ensures task.event == "conversation.created" ==> ApplicableEvents(task) == [ConversationCreated]
    ensures task.event == "conversation.updated" ==> ApplicableEvents(task) == [ConversationUpdated]
    ensures task.event == "conversation.resolved" ==> ApplicableEvents(task) == [ConversationResolved]
    ensures task.event == "conversation.reopened" ==> ApplicableEvents(task) == [ConversationOpened]
    ensures task.event == "conversation.closed" ==> ApplicableEvents(task) == [ConversationClosed]
    ensures task.event == "message.created" ==>
      ApplicableEvents(task) == [MessageCreated]
        + if task.payload.messageType == "interactive_reply" then [InteractiveReplyReceived] else []
    ensures ApplicableEvents(task) != [] ==>
      task.event in {"conversation.created", "conversation.updated", "conversation.resolved",
                     "conversation.reopened", "conversation.closed", "message.created"}
  {
  }

  function Candidates(events: seq<RuleEvent>, p: Ports): Result<seq<Rule>, Failure> {
    if events == [] then Ok([])
    else
      var front := Candidates(events[..|events| - 1], p);
      if front.Err? then front
      else
        var last := p.rulesFor(events[|events| - 1]);
        if last.Err? then last else Ok(front.value + last.value)
  }

  function ActionRows(r: Rule, outcome: (string, nat) -> ActionError, n: nat): seq<Row>
    requires n <= |r.actions|
  {
    seq(n, i requires 0 <= i < n => Row(r.id, r.event, r.actions[i].name, Classify(outcome(r.id, i))))
  }

  function ActionRuns(r: Rule, n: nat): seq<(string, nat)> {
    seq(n, (i: nat) => (r.id, i))
  }

  /** A firing runs every action once, in declared order, and logs each under the rule,
      the rule's event and the action's name, with what came of it. */
  lemma FiringReads(r: Rule, outcome: (string, nat) -> ActionError, i: nat)
    requires i < |r.actions|
    ensures var rows, runs := ActionRows(r, outcome, |r.actions|), ActionRuns(r, |r.actions|);
      && |rows| == |runs| == |r.actions| && runs[i] == (r.id, i)
      && rows[i].rule == r.id && rows[i].event == r.event && rows[i].action == r.actions[i].name
      && (rows[i].status == ActionEnqueued <==> outcome(r.id, i) == NoError)
      && (rows[i].status == SkippedBudget <==> outcome(r.id, i) == BudgetExceeded)
      && (rows[i].status == SkippedMissingRef <==> outcome(r.id, i) == MissingRef)
      && (rows[i].status == ErrorStatus <==> outcome(r.id, i) == Failed)
  {
  }

  function Handle(st: Store, task: Task, r: Rule, live: EvalContext, p: Ports): Store {
    if !MatchesAll(r.conditions, live) then st.(logs := st.logs + [Row(r.id, r.event, "", SkippedStale)])
    else
      var (claims, allowed) := Allow(st.claims, DedupKey(task.tenant, r.id, task.eventId), p.reply(r.id));
      if !allowed then Store(claims, st.logs + [Row(r.id, r.event, "", SkippedDedup)], st.ran)
      else
        Store(claims, st.logs + ActionRows(r, p.outcome, |r.actions|), st.ran + ActionRuns(r, |r.actions|))
  }

  function HandleAll(st: Store, task: Task, rules: seq<Rule>, live: EvalContext, p: Ports): Store {
    if rules == [] then st
    else Handle(HandleAll(st, task, rules[..|rules| - 1], live, p), task, rules[|rules| - 1], live, p)
  }

  /** Missing conversations end an evaluation quietly; other failures are retried. */
  function Quiet(f: Failure): Option<Failure> {
    if f == NotFound then None else Some(f)
  }

  predicate Suppressed(task: Task) {
    task.automation || task.depth > MAX_DEPTH
  }

  /** The whole evaluation: the store it leaves and the error it returns. */
  function Evaluated(st: Store, task: Task, p: Ports): (Store, Option<Failure>) {
    if Suppressed(task) then (st, None)
    else
      var candidates := Candidates(ApplicableEvents(task), p);
      if candidates.Err? then (st, Some(candidates.error))
      else if candidates.value == [] then (st, None)
      else if p.first.Err? then (st, Quiet(p.first.error))
      else
        var matched := Sort(Matching(candidates.value, p.first.value));
        if matched == [] then (st, None)
        else if p.live.Err? then (st, Quiet(p.live.error))
        else (HandleAll(st, task, matched, p.live.value, p), None)
  }

  class Evaluator {
    var st: Store

    constructor ()
      ensures st == Store({}, [], [])
    {
      st := Store({}, [], []);
    }

    method Evaluate(task: Task, p: Ports) returns (err: Option<Failure>)
      modifies this
      ensures (st, err) == Evaluated(old(st), task, p)
    {
      hide MatchesAll, Before, DedupKey, RuleEventFor;
      if task.automation {
        return None;
      }
      if task.depth > MAX_DEPTH {
        return None;
      }
      var events := ApplicableEvents(task);
      if |events| == 0 {
        assert Candidates([], p) == Ok([]);
        return None;
      }
      var rules: seq<Rule> := [];
      for i := 0 to |events|
        invariant Candidates(events[..i], p) == Ok(rules)
      {
        assert events[..i + 1][..i] == events[..i];
        var listed := p.rulesFor(events[i]);
        if listed.Err? {
          CandidatesFail(events, i + 1, p);
          return Some(listed.error);
        }
        rules := rules + listed.value;
      }
      assert events[..|events|] == events;
      if rules == [] {
        return None;
      }
      if p.first.Err? {
        return Quiet(p.first.error);
      }
      var matched: seq<Rule> := [];
      for i := 0 to |rules|
        invariant matched == Matching(rules[..i], p.first.value)
      {
        assert rules[..i + 1][..i] == rules[..i];
        if MatchesAll(rules[i].conditions, p.first.value) {
          matched := matched + [rules[i]];
        }
      }
      assert rules[..|rules|] == rules;
      ghost var unsorted := matched;
      matched := Sort(matched);
      if matched == [] {
        return None;
      }
      if p.live.Err? {
        return Quiet(p.live.error);
      }
      HandleRules(task, matched, p.live.value, p);
      err := None;
    }

    method HandleRules(task: Task, matched: seq<Rule>, live: EvalContext, p: Ports)
      modifies this
      ensures st == HandleAll(old(st), task, matched, live, p)
    {
      hide MatchesAll, DedupKey;
      for i := 0 to |matched|
        invariant st == HandleAll(old(st), task, matched[..i], live, p)
      {
        assert matched[..i + 1][..i] == matched[..i];
        var rule := matched[i];
        if !MatchesAll(rule.conditions, live) {
          st := st.(logs := st.logs + [Row(rule.id, rule.event, "", SkippedStale)]);
          continue;
        }
        var key := DedupKey(task.tenant, rule.id, task.eventId);
        var reply := p.reply(rule.id);
        var taken := key in st.claims;
        if !reply.Unreached? {
          st := st.(claims := st.claims + {key});
        }
        if reply.Answered? && taken {
          st := st.(logs := st.logs + [Row(rule.id, rule.event, "", SkippedDedup)]);
          continue;
        }
        Fire(rule, p.outcome);
      }
      assert matched[..|matched|] == matched;
    }

    /** A failing action does not stop the ones after it. */
    method Fire(r: Rule, outcome: (string, nat) -> ActionError)
      modifies this
      ensures st == Store(old(st).claims, old(st).logs + ActionRows(r, outcome, |r.actions|),
                          old(st).ran + ActionRuns(r, |r.actions|))
    {
      for i := 0 to |r.actions|
        invariant st == Store(old(st).claims, old(st).logs + ActionRows(r, outcome, i),
                              old(st).ran + ActionRuns(r, i))
      {
        var status := Classify(outcome(r.id, i));
        st := Store(st.claims, st.logs + [Row(r.id, r.event, r.actions[i].name, status)], st.ran + [(r.id, i)]);
        assert ActionRows(r, outcome, i + 1) == ActionRows(r, outcome, i)
          + [Row(r.id, r.event, r.actions[i].name, status)];
        assert ActionRuns(r, i + 1) == ActionRuns(r, i) + [(r.id, i)];
      }
    }
  }

  lemma {:induction false} CandidatesFail(events: seq<RuleEvent>, n: nat, p: Ports)
    requires n <= |events| && Candidates(events[..n], p).Err?
    ensures Candidates(events, p) == Candidates(events[..n], p)
    decreases |events| - n
  {
    if n < |events| {
      assert events[..n + 1][..n] == events[..n];
      CandidatesFail(events, n + 1, p);
    } else {
      assert events[..n] == events;
    }
  }
}
