/** One node's fan-out as a state machine: the shared log it reads
    (infra/realtime/pubsub.go), the hub's delivery (infra/realtime/hub.go) and the
    write pumps (presenter/websocket/handler.go), in every interleaving. */
module Fanout {
  import opened Hub

  /** Frames name a message by its place among the connection's due messages. */
  datatype Frame = Event(k: nat) | Resync(mark: nat)

  /** Failed keeps the frame a failing write was sending, if any. */
  datatype Pump = Waiting | Writing(frame: Frame) | Failed(frames: seq<Frame>)

  /** due: the log positions of every message published to the connection's topics
      while it followed them, in log order. dropped: the places in due that met a
      full buffer. Both are history; the machine never consults them. */
  datatype Conn = Conn(
    topics: set<string>, capacity: nat, box: Mailbox<nat>, pump: Pump, written: seq<Frame>,
    due: seq<nat>, dropped: set<nat>)

  type Id = nat

  /** Deliver holds the hub's read lock from Offering until it is Idle again. */
  datatype Delivery = Idle | Offering(todo: set<Id>) | Signalling(id: Id, todo: set<Id>)

  datatype Node = Node(log: seq<Message>, cursor: nat, delivery: Delivery, conns: map<Id, Conn>)

  predicate Pending(n: Node, id: Id) {
    match n.delivery
    case Idle => false
    case Offering(todo) => id in todo
    case Signalling(x, todo) => id == x || id in todo
  }

  predicate Init(n: Node) {
    n.cursor == 0 && n.delivery == Idle && n.conns == map[]
  }

  // ---- steps -------------------------------------------------------------

  datatype Step =
    | Publish(msg: Message)
    | Connect(id: Id, capacity: nat)
    | Join(id: Id, topic: string)
    | Leave(id: Id, topic: string)
    | Remove(id: Id)
    | Begin
    | TryOffer(id: Id)
    | Signal
    | End
    | TakeEvent(id: Id)
    | TakeResync(id: Id)
    | WriteOk(id: Id)
    | WriteFails(id: Id)

  predicate Enabled(n: Node, s: Step) {
    match s
    case Publish(_) => true
    case Connect(id, _) => n.delivery.Idle? && id !in n.conns
    case Join(id, _) => n.delivery.Idle? && id in n.conns
    case Leave(id, _) => n.delivery.Idle? && id in n.conns
    case Remove(id) => n.delivery.Idle? && id in n.conns
    case Begin => n.delivery.Idle? && n.cursor < |n.log|
    case TryOffer(id) => n.delivery.Offering? && id in n.delivery.todo && id in n.conns
    case Signal => n.delivery.Signalling? && n.delivery.id in n.conns
    case End => n.delivery.Offering? && n.delivery.todo == {}
    case TakeEvent(id) => id in n.conns && n.conns[id].pump.Waiting? && n.conns[id].box.queue != []
    case TakeResync(id) => id in n.conns && n.conns[id].pump.Waiting? && n.conns[id].box.resync
    case WriteOk(id) => id in n.conns && n.conns[id].pump.Writing?
    case WriteFails(id) => id in n.conns && !n.conns[id].pump.Failed?
  }

  /** A message becomes due to the followers of its topic when the node reads it. */
  function BecomeDue(c: Conn, topic: string, pos: nat): Conn {
    if topic in c.topics then c.(due := c.due + [pos]) else c
  }

  /** The place of the message being offered. */
  function Latest(c: Conn): nat { if c.due == [] then 0 else |c.due| - 1 }

  /** The first half of a non-blocking send: queued, or found full. */
  function Queued(c: Conn): Conn {
    c.(box := c.box.(queue := c.box.queue + [Latest(c)]))
  }

  /** The second half, when it was full. */
  function Dropped(c: Conn): Conn {
    c.(box := c.box.(resync := true), dropped := c.dropped + {Latest(c)})
  }

  /** How many of its due messages the connection has been offered. */
  function Offered(n: Node, id: Id): nat
    requires id in n.conns
  {
    if Pending(n, id) then Latest(n.conns[id]) else |n.conns[id].due|
  }

  function Followers(n: Node): set<Id>
    requires n.cursor < |n.log|
  {
    set id | id in n.conns && n.log[n.cursor].topic in n.conns[id].topics
  }

  function FrameOf(p: Pump): seq<Frame> {
    match p
    case Waiting => []
    case Writing(f) => [f]
    case Failed(fs) => fs
  }

  function Apply(n: Node, s: Step): Node
    requires Enabled(n, s)
  {
    match s
    case Publish(msg) => n.(log := n.log + [msg])
    case Connect(id, capacity) =>
      n.(conns := n.conns[id := Conn({}, capacity, Mailbox([], false), Waiting, [], [], {})])
    case Join(id, topic) =>
      n.(conns := n.conns[id := n.conns[id].(topics := n.conns[id].topics + {topic})])
    case Leave(id, topic) =>
      n.(conns := n.conns[id := n.conns[id].(topics := n.conns[id].topics - {topic})])
    case Remove(id) => n.(conns := n.conns[id := n.conns[id].(topics := {})])
    case Begin =>
      n.(delivery := Offering(Followers(n)),
         conns := map id | id in n.conns :: BecomeDue(n.conns[id], n.log[n.cursor].topic, n.cursor))
    case TryOffer(id) =>
      var c, rest := n.conns[id], n.delivery.todo - {id};
      if |c.box.queue| < c.capacity then n.(delivery := Offering(rest), conns := n.conns[id := Queued(c)])
      else n.(delivery := Signalling(id, rest))
    case Signal =>
      n.(delivery := Offering(n.delivery.todo),
         conns := n.conns[n.delivery.id := Dropped(n.conns[n.delivery.id])])
    case End => n.(delivery := Idle, cursor := n.cursor + 1)
    case TakeEvent(id) =>
      var c := n.conns[id];
      n.(conns := n.conns[id :=
        c.(box := c.box.(queue := c.box.queue[1..]), pump := Writing(Event(c.box.queue[0])))])
    case TakeResync(id) =>
      var c := n.conns[id];
      n.(conns := n.conns[id := c.(box := c.box.(resync := false), pump := Writing(Resync(Offered(n, id))))])
    case WriteOk(id) =>
      var c := n.conns[id];
      n.(conns := n.conns[id := c.(written := c.written + [c.pump.frame], pump := Waiting)])
    case WriteFails(id) =>
      n.(conns := n.conns[id := n.conns[id].(pump := Failed(FrameOf(n.conns[id].pump)))])
  }

  /** The two halves of a send are the hub's Offer. */
  lemma HalvesAreOffer(c: Conn)
    ensures Offer(c.box, c.capacity, Latest(c))
         == if |c.box.queue| < c.capacity then Queued(c).box else Dropped(c).box
  {
  }

  // ---- the invariant -----------------------------------------------------

  function Events(frames: seq<Frame>): seq<nat> {
    if frames == [] then []
    else
      var front, last := Events(frames[..|frames| - 1]), frames[|frames| - 1];
      if last.Event? then front + [last.k] else front
  }

  /** How many due messages the written resync frames account for. */
  function Covered(frames: seq<Frame>): nat {
    if frames == [] then 0
    else
      var front, last := Covered(frames[..|frames| - 1]), frames[|frames| - 1];
      if last.Resync? && last.mark > front then last.mark else front
  }

  predicate Increasing(s: seq<nat>) {
    forall i, j :: 0 <= i < j < |s| ==> s[i] < s[j]
  }

  /** Every message queued so far, in order: written, being written, still buffered. */
  function Kept(c: Conn): seq<nat> {
    Events(c.written) + Events(FrameOf(c.pump)) + c.box.queue
  }

  /** A drop the client has not been told about yet will still be announced, or the
      connection is failing. */
  predicate Announced(c: Conn, k: nat) {
    || k < Covered(c.written)
    || (c.pump.Writing? && c.pump.frame.Resync? && k < c.pump.frame.mark)
    || c.box.resync
    || c.pump.Failed?
  }

  ghost predicate ConnInv(c: Conn, offered: nat) {
    && offered <= |c.due|
    && |c.box.queue| <= c.capacity
    && (c.pump.Failed? ==> |c.pump.frames| <= 1)
    && Increasing(Kept(c))
    && (forall k :: k in Kept(c) ==> k < offered)
    && (forall k :: k in c.dropped ==> k < offered)
    && (forall k: nat :: k < offered ==> (k in Kept(c) <==> k !in c.dropped))
    && (forall k :: k in c.dropped ==> Announced(c, k))
  }

  /** The due list holds log positions, in order, none still unread. */
  ghost predicate DueInv(n: Node, c: Conn) {
    && Increasing(c.due)
    && forall i :: 0 <= i < |c.due| ==> c.due[i] < n.cursor + if n.delivery.Idle? then 0 else 1
  }

  ghost predicate Inv(n: Node) {
    && n.cursor + (if n.delivery.Idle? then 0 else 1) <= |n.log|
    && (forall id :: Pending(n, id) ==> id in n.conns && n.conns[id].due != [])
    && (n.delivery.Signalling? ==> n.delivery.id !in n.delivery.todo)
    && (forall id :: id in n.conns ==> ConnInv(n.conns[id], Offered(n, id)))
    && (forall id :: id in n.conns ==> DueInv(n, n.conns[id]))
  }

  // ---- one connection, one step ------------------------------------------

  lemma EventsSnoc(frames: seq<Frame>, f: Frame)
    ensures Events(frames + [f]) == Events(frames) + Events([f])
    ensures Events([f]) == if f.Event? then [f.k] else []
    ensures Covered(frames + [f]) == if f.Resync? && f.mark > Covered(frames) then f.mark else Covered(frames)
  {
    assert (frames + [f])[..|frames|] == frames;
    assert [f][..0] == [];
  }

  lemma BeginKeeps(c: Conn, topic: string, pos: nat)
    requires ConnInv(c, |c.due|)
    ensures var c' := BecomeDue(c, topic, pos);
      ConnInv(c', if topic in c.topics then |c'.due| - 1 else |c'.due|)
  {
    assert Kept(BecomeDue(c, topic, pos)) == Kept(c);
  }

  lemma QueuedKeeps(c: Conn)
    requires c.due != [] && ConnInv(c, |c.due| - 1) && |c.box.queue| < c.capacity
    ensures ConnInv(Queued(c), |c.due|)
  {
    hide Events, Covered, FrameOf;
    var kept, last := Kept(c), |c.due| - 1;
    assert Kept(Queued(c)) == kept + [last];
    assert forall k :: k in kept + [last] <==> k in kept || k == last;
    assert forall i :: 0 <= i < |kept| ==> kept[i] in kept;
    assert Increasing(kept + [last]);
    assert forall k :: Announced(c, k) ==> Announced(Queued(c), k);
    hide Kept, Increasing, Announced;
  }

  lemma DroppedKeeps(c: Conn)
    requires c.due != [] && ConnInv(c, |c.due| - 1)
    ensures ConnInv(Dropped(c), |c.due|)
  {
    assert Kept(Dropped(c)) == Kept(c);
  }

  lemma TakeEventKeeps(c: Conn, offered: nat)
    requires ConnInv(c, offered) && c.pump.Waiting? && c.box.queue != []
    ensures ConnInv(c.(box := c.box.(queue := c.box.queue[1..]), pump := Writing(Event(c.box.queue[0]))), offered)
  {
    var c' := c.(box := c.box.(queue := c.box.queue[1..]), pump := Writing(Event(c.box.queue[0])));
    EventsSnoc([], Event(c.box.queue[0]));
    assert Kept(c') == Kept(c);
  }

  lemma TakeResyncKeeps(c: Conn, offered: nat)
    requires ConnInv(c, offered) && c.pump.Waiting?
    ensures ConnInv(c.(box := c.box.(resync := false), pump := Writing(Resync(offered))), offered)
  {
    var c' := c.(box := c.box.(resync := false), pump := Writing(Resync(offered)));
    EventsSnoc([], Resync(offered));
    assert Kept(c') == Kept(c);
  }

  lemma WriteOkKeeps(c: Conn, offered: nat)
    requires ConnInv(c, offered) && c.pump.Writing?
    ensures ConnInv(c.(written := c.written + [c.pump.frame], pump := Waiting), offered)
  {
    var c' := c.(written := c.written + [c.pump.frame], pump := Waiting);
    EventsSnoc(c.written, c.pump.frame);
    assert Kept(c') == Kept(c);
  }

  lemma WriteFailsKeeps(c: Conn, offered: nat)
    requires ConnInv(c, offered) && !c.pump.Failed?
    ensures ConnInv(c.(pump := Failed(FrameOf(c.pump))), offered)
  {
    assert Kept(c.(pump := Failed(FrameOf(c.pump)))) == Kept(c);
  }

  lemma TopicsFree(c: Conn, topics: set<string>, offered: nat)
    requires ConnInv(c, offered)
    ensures ConnInv(c.(topics := topics), offered)
  {
    assert Kept(c.(topics := topics)) == Kept(c);
  }

  // ---- every step keeps the invariant ------------------------------------

  /** A step that touches one connection, and not what is due to it. */
  lemma UpdateOne(n: Node, id: Id, c: Conn, d: Delivery)
    requires Inv(n) && id in n.conns && c.due == n.conns[id].due
    requires d.Idle? == n.delivery.Idle? && (d.Signalling? ==> d.id !in d.todo)
    ensures var n' := n.(conns := n.conns[id := c], delivery := d);
      (forall x :: x != id ==> Pending(n', x) == Pending(n, x)) && (Pending(n', id) ==> Pending(n, id))
      && ConnInv(c, Offered(n', id))
      ==> Inv(n')
  {
    hide ConnInv, Increasing;
    var n' := n.(conns := n.conns[id := c], delivery := d);
    if forall x :: x != id ==> Pending(n', x) == Pending(n, x) {
      assert forall x :: x in n.conns && x != id ==> Offered(n', x) == Offered(n, x);
    }
  }

  lemma StepKeepsInv(n: Node, s: Step)
    requires Inv(n) && Enabled(n, s)
    ensures Inv(Apply(n, s))
  {
    hide ConnInv, DueInv, Inv;
    match s
    case Publish(_) => LogKeeps(n, n.log + [s.msg]);
    case Connect(id, capacity) => ConnectKeeps(n, id, capacity);
    case Begin => BeginStep(n);
    case TryOffer(_) => OfferStep(n, s);
    case Signal => OfferStep(n, s);
    case End => EndStep(n);
    case _ => ConnStep(n, s);
  }

  lemma LogKeeps(n: Node, log: seq<Message>)
    requires Inv(n) && n.log <= log
    ensures Inv(n.(log := log))
  {
    hide ConnInv, Increasing;
    assert forall id :: id in n.conns ==> Offered(n.(log := log), id) == Offered(n, id);
  }

  lemma ConnOf(n: Node, id: Id)
    requires Inv(n) && id in n.conns
    ensures ConnInv(n.conns[id], Offered(n, id)) && (Pending(n, id) ==> n.conns[id].due != [])
  {
    hide ConnInv, DueInv;
  }

  lemma SignalFree(n: Node)
    requires Inv(n) && n.delivery.Signalling?
    ensures n.delivery.id !in n.delivery.todo
  {
  }

  lemma OfferStep(n: Node, s: Step)
    requires Inv(n) && Enabled(n, s) && (s.TryOffer? || s.Signal?)
    ensures Inv(Apply(n, s))
  {
    hide ConnInv, DueInv, Inv;
    var id := if s.TryOffer? then s.id else n.delivery.id;
    var c := n.conns[id];
    ConnOf(n, id);
    if s.Signal? {
      SignalFree(n);
      DroppedKeeps(c);
      UpdateOne(n, id, Dropped(c), Offering(n.delivery.todo));
    } else if |c.box.queue| < c.capacity {
      QueuedKeeps(c);
      UpdateOne(n, id, Queued(c), Offering(n.delivery.todo - {id}));
    } else {
      UpdateOne(n, id, c, Signalling(id, n.delivery.todo - {id}));
      assert n.conns[id := c] == n.conns;
    }
  }

  lemma ConnStep(n: Node, s: Step)
    requires Inv(n) && Enabled(n, s)
    requires s.Join? || s.Leave? || s.Remove? || s.TakeEvent? || s.TakeResync? || s.WriteOk? || s.WriteFails?
    ensures Inv(Apply(n, s))
  {
    hide ConnInv, DueInv, Inv;
    ConnOf(n, s.id);
    var c, offered := n.conns[s.id], Offered(n, s.id);
    match s {
      case Join(id, topic) => TopicsFree(c, c.topics + {topic}, offered);
      case Leave(id, topic) => TopicsFree(c, c.topics - {topic}, offered);
      case Remove(id) => TopicsFree(c, {}, offered);
      case TakeEvent(id) => TakeEventKeeps(c, offered);
      case TakeResync(id) => TakeResyncKeeps(c, offered);
      case WriteOk(id) => WriteOkKeeps(c, offered);
      case WriteFails(id) => WriteFailsKeeps(c, offered);
    }
    if n.delivery.Signalling? {
      SignalFree(n);
    }
    UpdateOne(n, s.id, Apply(n, s).conns[s.id], n.delivery);
  }

  lemma EndStep(n: Node)
    requires Inv(n) && Enabled(n, End)
    ensures Inv(Apply(n, End))
  {
    hide ConnInv, Increasing;
    assert forall id :: id in n.conns ==> Offered(Apply(n, End), id) == Offered(n, id);
  }

  lemma ConnectKeeps(n: Node, id: Id, capacity: nat)
    requires Inv(n) && Enabled(n, Connect(id, capacity))
    ensures Inv(Apply(n, Connect(id, capacity)))
  {
    var c := Conn({}, capacity, Mailbox([], false), Waiting, [], [], {});
    assert ConnInv(c, 0);
    hide ConnInv, Kept;
  }

  lemma DueGrows(c: Conn, topic: string, pos: nat)
    requires Increasing(c.due) && forall i :: 0 <= i < |c.due| ==> c.due[i] < pos
    ensures var due := BecomeDue(c, topic, pos).due;
      Increasing(due) && forall i :: 0 <= i < |due| ==> due[i] < pos + 1
  {
  }

  lemma BeginConn(n: Node, id: Id)
    requires Inv(n) && Enabled(n, Begin) && id in n.conns
    ensures var n' := Apply(n, Begin);
      ConnInv(n'.conns[id], Offered(n', id)) && DueInv(n', n'.conns[id])
      && (Pending(n', id) ==> n'.conns[id].due != [])
  {
    var c, n' := n.conns[id], Apply(n, Begin);
    ConnOf(n, id);
    BeginKeeps(c, n.log[n.cursor].topic, n.cursor);
    assert DueInv(n, c);
    DueGrows(c, n.log[n.cursor].topic, n.cursor);
    hide ConnInv, Inv, Increasing;
    assert n'.conns[id] == BecomeDue(c, n.log[n.cursor].topic, n.cursor);
    assert Pending(n', id) <==> n.log[n.cursor].topic in c.topics;
  }

  lemma BeginStep(n: Node)
    requires Inv(n) && Enabled(n, Begin)
    ensures Inv(Apply(n, Begin))
  {
    hide ConnInv, DueInv;
    var n' := Apply(n, Begin);
    forall id | id in n.conns
      ensures ConnInv(n'.conns[id], Offered(n', id)) && DueInv(n', n'.conns[id])
      ensures Pending(n', id) ==> n'.conns[id].due != []
    {
      BeginConn(n, id);
    }
  }

  // ---- whole runs --------------------------------------------------------

  /** A run of enabled steps from one state to another. */
  ghost predicate Runs(n: Node, steps: seq<Step>, n': Node)
    decreases |steps|
  {
    if steps == [] then n == n'
    else Enabled(n, steps[0]) && Runs(Apply(n, steps[0]), steps[1..], n')
  }

  lemma {:induction false} RunsKeepInv(n: Node, steps: seq<Step>, n': Node)
    requires Inv(n) && Runs(n, steps, n')
    ensures Inv(n')
    decreases |steps|
  {
    hide Apply, Inv, Enabled;
    if steps != [] {
      StepKeepsInv(n, steps[0]);
      RunsKeepInv(Apply(n, steps[0]), steps[1..], n');
    }
  }

  lemma InitHasInv(n: Node)
    requires Init(n)
    ensures Inv(n)
  {
  }

  /** In every run, the event frames a client was sent are due messages in the order
      they were published, each at most once. */
  lemma FramesFollowTheLog(n: Node, steps: seq<Step>, n': Node, id: Id)
    requires Init(n) && Runs(n, steps, n') && id in n'.conns
    ensures var c := n'.conns[id]; var sent := Events(c.written);
      && (forall i :: 0 <= i < |sent| ==> sent[i] < |c.due| && c.due[sent[i]] < |n'.log|)
      && (forall i, j :: 0 <= i < j < |sent| ==> sent[i] < sent[j] && c.due[sent[i]] < c.due[sent[j]])
  {
    hide Runs;
    InitHasInv(n);
    RunsKeepInv(n, steps, n');
    SentInOrder(n', n'.conns[id], Offered(n', id));
  }

  lemma SentInOrder(n: Node, c: Conn, offered: nat)
    requires ConnInv(c, offered) && DueInv(n, c)
    requires n.cursor + (if n.delivery.Idle? then 0 else 1) <= |n.log|
    ensures var sent := Events(c.written);
      && (forall i :: 0 <= i < |sent| ==> sent[i] < |c.due| && c.due[sent[i]] < |n.log|)
      && (forall i, j :: 0 <= i < j < |sent| ==> sent[i] < sent[j] && c.due[sent[i]] < c.due[sent[j]])
  {
    hide Events, Announced;
    var sent, kept := Events(c.written), Kept(c);
    forall i | 0 <= i < |sent| ensures sent[i] < |c.due| && c.due[sent[i]] < |n.log| {
      assert kept[i] == sent[i];
      assert kept[i] in kept;
    }
    forall i, j | 0 <= i < j < |sent|
      ensures sent[i] < sent[j] < |c.due| && c.due[sent[i]] < c.due[sent[j]] < |n.log|
    {
      assert kept[i] == sent[i] && kept[j] == sent[j];
      assert kept[j] in kept;
    }
  }

  /** Nothing is lost silently: in every run, each due message is still being
      offered, buffered or in flight, was written, or was dropped with a resync
      covering it written, in flight or pending, or the connection failed. */
  lemma NoSilentLoss(n: Node, steps: seq<Step>, n': Node, id: Id, k: nat)
    requires Init(n) && Runs(n, steps, n') && id in n'.conns && k < |n'.conns[id].due|
    ensures var c := n'.conns[id];
      || (Pending(n', id) && k == |c.due| - 1)
      || k in c.box.queue
      || k in Events(FrameOf(c.pump))
      || k in Events(c.written)
      || (k in c.dropped && Announced(c, k))
  {
    hide Runs, Events, Announced, Covered;
    InitHasInv(n);
    RunsKeepInv(n, steps, n');
    var c := n'.conns[id];
    assert ConnInv(c, Offered(n', id));
  }

  /** Once a healthy connection is quiet, the client was sent every due message or a
      resync frame whose signal was taken after the drop. */
  lemma QuietMeansInformed(n: Node, steps: seq<Step>, n': Node, id: Id, k: nat)
    requires Init(n) && Runs(n, steps, n') && id in n'.conns && k < |n'.conns[id].due|
    requires n'.delivery.Idle? && n'.conns[id].pump.Waiting?
    requires n'.conns[id].box == Mailbox([], false)
    ensures k in Events(n'.conns[id].written) || (k in n'.conns[id].dropped && k < Covered(n'.conns[id].written))
  {
    hide Runs, Events, Covered;
    NoSilentLoss(n, steps, n', id, k);
    EventsEmpty();
  }

  lemma EventsEmpty()
    ensures Events([]) == []
  {
  }

  // ---- what the steps of a run make due ------------------------------------

  predicate Drops(s: Step, id: Id, topic: string) {
    s == Leave(id, topic) || s == Remove(id)
  }

  /** The connection joined the topic and has not left it or been removed since. */
  predicate Following(steps: seq<Step>, id: Id, topic: string) {
    exists i :: 0 <= i < |steps| && steps[i] == Step.Join(id, topic)
      && forall j :: i < j < |steps| ==> !Drops(steps[j], id, topic)
  }

  /** How many messages the node has started to deliver. */
  function Begins(steps: seq<Step>): nat {
    if steps == [] then 0 else Begins(steps[..|steps| - 1]) + if steps[|steps| - 1].Begin? then 1 else 0
  }

  /** The step is the start of the delivery of message p. */
  predicate Delivers(steps: seq<Step>, k: nat, p: nat) {
    k < |steps| && steps[k].Begin? && Begins(steps[..k]) == p
  }

  /** Message p's delivery started while the connection followed its topic. */
  ghost predicate ReadFor(steps: seq<Step>, log: seq<Message>, id: Id, p: nat) {
    p < |log| && exists k: nat :: Delivers(steps, k, p) && Following(steps[..k], id, log[p].topic)
  }

  predicate NeverJoined(steps: seq<Step>, id: Id) {
    forall i :: 0 <= i < |steps| ==> !(steps[i].Join? && steps[i].id == id)
  }

  lemma {:induction false} LastStep(n: Node, steps: seq<Step>, n': Node) returns (m: Node)
    requires steps != [] && Runs(n, steps, n')
    ensures Runs(n, steps[..|steps| - 1], m) && Enabled(m, steps[|steps| - 1])
    ensures n' == Apply(m, steps[|steps| - 1])
    decreases |steps|
  {
    hide Apply, Enabled;
    if |steps| == 1 {
      m := n;
    } else {
      m := LastStep(Apply(n, steps[0]), steps[1..], n');
      assert steps[1..][..|steps| - 2] == steps[..|steps| - 1][1..];
    }
  }

  lemma FollowingSnoc(steps: seq<Step>, s: Step, id: Id, topic: string)
    ensures Following(steps + [s], id, topic)
       <==> s == Step.Join(id, topic) || (Following(steps, id, topic) && !Drops(s, id, topic))
  {
    var all := steps + [s];
    if s == Step.Join(id, topic) {
      assert all[|steps|] == s;
    } else if Following(steps, id, topic) && !Drops(s, id, topic) {
      var i :| 0 <= i < |steps| && steps[i] == Step.Join(id, topic)
        && forall j :: i < j < |steps| ==> !Drops(steps[j], id, topic);
      assert all[i] == Step.Join(id, topic);
    } else {
      assert all[|steps|] == s;
      assert forall j :: 0 <= j < |steps| ==> all[j] == steps[j];
    }
  }

  lemma NeverFollowed(steps: seq<Step>, id: Id)
    requires NeverJoined(steps, id)
    ensures forall k, topic :: 0 <= k <= |steps| ==> !Following(steps[..k], id, topic)
  {
  }

  /** What the steps say of one connection. */
  ghost predicate TopicsOk(steps: seq<Step>, n: Node, id: Id) {
    if id in n.conns then
      Connect(id, n.conns[id].capacity) in steps
      && forall topic :: topic in n.conns[id].topics <==> Following(steps, id, topic)
    else NeverJoined(steps, id)
  }

  lemma TopicsStep(m: Node, steps: seq<Step>, s: Step, id: Id)
    requires TopicsOk(steps, m, id) && Enabled(m, s)
    ensures TopicsOk(steps + [s], Apply(m, s), id)
  {
    hide Following;
    NothingFollowed(steps, id);
    forall topic ensures Following(steps + [s], id, topic)
       <==> s == Step.Join(id, topic) || (Following(steps, id, topic) && !Drops(s, id, topic)) {
      FollowingSnoc(steps, s, id, topic);
    }
  }

  lemma NothingFollowed(steps: seq<Step>, id: Id)
    ensures NeverJoined(steps, id) ==> forall topic :: !Following(steps, id, topic)
  {
  }

  /** A connection follows exactly the topics it joined and has not left since. */
  lemma {:induction false} FollowsItsJoins(n: Node, steps: seq<Step>, n': Node, id: Id)
    requires Init(n) && Runs(n, steps, n')
    ensures TopicsOk(steps, n', id)
    decreases |steps|
  {
    hide Enabled, Apply;
    if steps != [] {
      var front, last := steps[..|steps| - 1], steps[|steps| - 1];
      var m := LastStep(n, steps, n');
      FollowsItsJoins(n, front, m, id);
      TopicsStep(m, front, last, id);
      assert steps == front + [last];
    }
  }

  /** The messages of the publishing steps. */
  function Published(steps: seq<Step>): seq<Message> {
    if steps == [] then []
    else
      var last := steps[|steps| - 1];
      Published(steps[..|steps| - 1]) + if last.Publish? then [last.msg] else []
  }

  /** The log is what was published, in order; nothing else ever enters or leaves it. */
  lemma {:induction false} LogIsPublished(n: Node, steps: seq<Step>, n': Node)
    requires Runs(n, steps, n')
    ensures n'.log == n.log + Published(steps)
    decreases |steps|
  {
    hide Enabled, Apply;
    if steps != [] {
      var m := LastStep(n, steps, n');
      LogIsPublished(n, steps[..|steps| - 1], m);
      LogStep(m, steps[|steps| - 1]);
    }
  }

  lemma LogStep(m: Node, s: Step)
    requires Enabled(m, s)
    ensures Apply(m, s).log == m.log + if s.Publish? then [s.msg] else []
  {
  }

  /** Messages are read in log order, each once. */
  lemma {:induction false} BeginsCounted(n: Node, steps: seq<Step>, n': Node)
    requires Init(n) && Runs(n, steps, n')
    ensures Begins(steps) == n'.cursor + if n'.delivery.Idle? then 0 else 1
    decreases |steps|
  {
    hide Enabled, Apply;
    if steps != [] {
      var front, last := steps[..|steps| - 1], steps[|steps| - 1];
      var m := LastStep(n, steps, n');
      BeginsCounted(n, front, m);
      CursorStep(m, last);
    }
  }

  lemma CursorStep(m: Node, s: Step)
    requires Enabled(m, s)
    ensures var at := m.cursor + if m.delivery.Idle? then 0 else 1; var n := Apply(m, s);
      n.cursor + (if n.delivery.Idle? then 0 else 1) == at + if s.Begin? then 1 else 0
  {
  }

  lemma DueStep(m: Node, s: Step, id: Id)
    requires Enabled(m, s) && id in Apply(m, s).conns
    ensures var due := Apply(m, s).conns[id].due;
      if id !in m.conns then due == []
      else if s.Begin? && m.log[m.cursor].topic in m.conns[id].topics then due == m.conns[id].due + [m.cursor]
      else due == m.conns[id].due
    ensures id !in m.conns ==> s.Connect?
  {
  }

  lemma {:induction false} BeginsMonotone(steps: seq<Step>, k: nat)
    requires k <= |steps|
    ensures Begins(steps[..k]) <= Begins(steps)
    ensures k < |steps| && steps[k].Begin? ==> Begins(steps[..k]) < Begins(steps)
    decreases |steps|
  {
    if k == |steps| {
      assert steps[..k] == steps;
    } else {
      var front := steps[..|steps| - 1];
      BeginsMonotone(front, k);
      assert front[..k] == steps[..k];
    }
  }

  /** Reading on changes nothing about the messages already read. */
  lemma ReadForSnoc(front: seq<Step>, s: Step, before: seq<Message>, log: seq<Message>, id: Id, p: nat)
    requires before <= log && Begins(front) <= |before| && (s.Begin? ==> Begins(front) < |before|)
    ensures ReadFor(front + [s], log, id, p)
       <==> ReadFor(front, before, id, p)
            || (s.Begin? && p == Begins(front) && p < |before| && Following(front, id, before[p].topic))
  {
    hide Following, Begins;
    var steps := front + [s];
    assert forall k :: 0 <= k <= |front| ==> steps[..k] == front[..k];
    assert front[..|front|] == front;
    assert Delivers(steps, |front|, p) <==> s.Begin? && p == Begins(front);
    forall k: nat | k < |front| ensures Delivers(steps, k, p) <==> Delivers(front, k, p) {}
    forall k: nat | Delivers(front, k, p) ensures p < |before| {
      BeginsMonotone(front, k);
    }
    if ReadFor(steps, log, id, p) {
      var k: nat :| Delivers(steps, k, p) && Following(steps[..k], id, log[p].topic);
      assert k < |front| ==> Delivers(front, k, p);
    }
    if ReadFor(front, before, id, p) {
      var k: nat :| Delivers(front, k, p) && Following(front[..k], id, before[p].topic);
      assert Delivers(steps, k, p) && Following(steps[..k], id, log[p].topic);
    }
    if s.Begin? && p == Begins(front) && p < |before| && Following(front, id, before[p].topic) {
      assert Delivers(steps, |front|, p) && Following(steps[..|front|], id, log[p].topic);
    }
  }

  lemma NeverReadFor(steps: seq<Step>, log: seq<Message>, id: Id, p: nat)
    requires NeverJoined(steps, id)
    ensures !ReadFor(steps, log, id, p)
  {
    hide Following, Begins;
    NeverFollowed(steps, id);
  }

  /** In every run, a message is due to a connection if and only if its delivery began
      while the connection followed its topic; the due list is in log order. */
  lemma {:induction false} DueIff(n: Node, steps: seq<Step>, n': Node, id: Id, p: nat)
    requires Init(n) && Runs(n, steps, n') && id in n'.conns
    ensures p in n'.conns[id].due <==> ReadFor(steps, n'.log, id, p)
    decreases |steps|
  {
    hide Enabled, Apply, Inv, Following, Begins, ReadFor;
    if steps != [] {
      var front, last := steps[..|steps| - 1], steps[|steps| - 1];
      var m := LastStep(n, steps, n');
      assert steps == front + [last];
      LogStep(m, last);
      BeginsWithinLog(n, front, m, last);
      ReadForSnoc(front, last, m.log, n'.log, id, p);
      DueStep(m, last, id);
      FollowsItsJoins(n, front, m, id);
      BeginsCounted(n, front, m);
      if id in m.conns {
        DueIff(n, front, m, id, p);
        BeginReads(m, last);
      } else {
        NeverReadFor(front, m.log, id, p);
      }
    }
  }

  lemma BeginReads(m: Node, s: Step)
    requires Enabled(m, s)
    ensures s.Begin? ==> m.delivery.Idle? && m.cursor < |m.log|
  {
  }

  lemma BeginsWithinLog(n: Node, front: seq<Step>, m: Node, s: Step)
    requires Init(n) && Runs(n, front, m) && Enabled(m, s)
    ensures Begins(front) <= |m.log| && (s.Begin? ==> Begins(front) < |m.log|)
  {
    hide Runs, Apply;
    InitHasInv(n);
    RunsKeepInv(n, front, m);
    BeginsCounted(n, front, m);
  }

  // ---- only a full buffer drops -----------------------------------------------

  /** The two steps of one send leave the mailbox the hub's Offer would. */
  lemma SendIsOffer(n: Node, id: Id)
    requires Enabled(n, TryOffer(id))
    ensures var m := Apply(n, TryOffer(id)); var c := n.conns[id];
      var done := if m.delivery.Signalling? then Apply(m, Signal) else m;
      done.conns[id].box == Offer(c.box, c.capacity, Latest(c)) && done.delivery == Offering(n.delivery.todo - {id})
  {
  }

  lemma {:induction false} IncreasingIsShort(s: seq<nat>, bound: nat)
    requires Increasing(s) && forall i :: 0 <= i < |s| ==> s[i] < bound
    ensures |s| <= bound
  {
    if s != [] {
      IncreasingIsShort(s[..|s| - 1], s[|s| - 1]);
    }
  }

  lemma QueueIsShort(c: Conn, offered: nat)
    requires ConnInv(c, offered)
    ensures |c.box.queue| <= offered
  {
    hide Events, Announced;
    var kept := Kept(c);
    assert forall i :: 0 <= i < |kept| ==> kept[i] in kept;
    IncreasingIsShort(kept, offered);
  }

  /** A buffer that could hold every due message has met no drop. */
  predicate NoneDropped(n: Node, id: Id) {
    id in n.conns && |n.conns[id].due| <= n.conns[id].capacity ==>
      && n.conns[id].dropped == {} && !n.conns[id].box.resync
      && !(n.delivery.Signalling? && n.delivery.id == id)
  }

  lemma NoneDroppedStep(m: Node, s: Step, id: Id)
    requires Inv(m) && Enabled(m, s) && NoneDropped(m, id)
    ensures NoneDropped(Apply(m, s), id)
  {
    if s == TryOffer(id) {
      ConnOf(m, id);
      QueueIsShort(m.conns[id], Offered(m, id));
    }
    hide Inv, ConnInv;
  }

  /** In every run, a connection that was never due more than its buffer holds has
      dropped nothing and is owed no resync. */
  lemma {:induction false} OnlyFullBuffersDrop(n: Node, steps: seq<Step>, n': Node, id: Id)
    requires Init(n) && Runs(n, steps, n')
    ensures NoneDropped(n', id)
    decreases |steps|
  {
    hide Enabled, Apply, Inv;
    if steps != [] {
      var m := LastStep(n, steps, n');
      OnlyFullBuffersDrop(n, steps[..|steps| - 1], m, id);
      InitHasInv(n);
      RunsKeepInv(n, steps[..|steps| - 1], m);
      NoneDroppedStep(m, steps[|steps| - 1], id);
    }
  }

  // ---- a resync frame speaks of the past only -----------------------------------

  /** No frame written or being written accounts for a message not yet offered. */
  predicate MarksPast(n: Node, id: Id) {
    id in n.conns ==>
      var c := n.conns[id];
      && Covered(c.written) <= Offered(n, id)
      && (c.pump.Writing? && c.pump.frame.Resync? ==> c.pump.frame.mark <= Offered(n, id))
  }

  lemma OfferedGrows(m: Node, s: Step, id: Id)
    requires Inv(m) && Enabled(m, s) && id in m.conns
    ensures id in Apply(m, s).conns && Offered(m, id) <= Offered(Apply(m, s), id)
  {
    hide ConnInv, DueInv;
  }

  lemma WrittenStep(m: Node, s: Step, id: Id)
    requires Enabled(m, s) && id in m.conns
    ensures var c, c' := m.conns[id], Apply(m, s).conns[id];
      || (c'.written == c.written && (c'.pump == c.pump || !c'.pump.Writing? || !c'.pump.frame.Resync?
                                      || c'.pump.frame.mark == Offered(m, id)))
      || (c.pump.Writing? && c'.written == c.written + [c.pump.frame] && c'.pump.Waiting?)
  {
  }

  lemma MarksPastStep(m: Node, s: Step, id: Id)
    requires Inv(m) && Enabled(m, s) && MarksPast(m, id)
    ensures MarksPast(Apply(m, s), id)
  {
    FreshConn(m, s, id);
    if id in m.conns {
      OfferedGrows(m, s, id);
      WrittenStep(m, s, id);
      if m.conns[id].pump.Writing? {
        EventsSnoc(m.conns[id].written, m.conns[id].pump.frame);
      }
    }
    hide Apply, Inv, Enabled, Offered, Covered, Events;
  }

  lemma FreshConn(m: Node, s: Step, id: Id)
    requires Enabled(m, s)
    ensures id !in m.conns && id in Apply(m, s).conns ==>
      Covered(Apply(m, s).conns[id].written) == 0 && Apply(m, s).conns[id].pump.Waiting?
  {
  }

  /** In every run, what a resync frame accounts for had been offered when the frame was made. */
  lemma {:induction false} ResyncSpeaksOfThePast(n: Node, steps: seq<Step>, n': Node, id: Id)
    requires Init(n) && Runs(n, steps, n')
    ensures MarksPast(n', id)
    decreases |steps|
  {
    hide Enabled, Apply, Inv, Covered;
    if steps == [] {
      assert id !in n'.conns;
    } else {
      var m := LastStep(n, steps, n');
      ResyncSpeaksOfThePast(n, steps[..|steps| - 1], m, id);
      InitHasInv(n);
      RunsKeepInv(n, steps[..|steps| - 1], m);
      MarksPastStep(m, steps[|steps| - 1], id);
    }
  }

  // ---- a slow connection stalls nobody ---------------------------------------

  predicate Sending(s: Step) { s.TryOffer? || s.Signal? || s.End? }

  lemma Prepend(n: Node, s: Step, steps: seq<Step>, n': Node)
    requires Enabled(n, s) && Runs(Apply(n, s), steps, n')
    ensures Runs(n, [s] + steps, n')
  {
    assert ([s] + steps)[1..] == steps;
  }

  /** The hub's own steps left in a delivery: at most two for each follower, and the end. */
  function SendsLeft(n: Node): nat {
    match n.delivery
    case Idle => 0
    case Offering(todo) => 2 * |todo| + 1
    case Signalling(_, todo) => 2 * |todo| + 2
  }

  lemma SendStep(n: Node) returns (s: Step, m: Node)
    requires Inv(n) && !n.delivery.Idle?
    ensures Enabled(n, s) && m == Apply(n, s) && Sending(s) && m.log == n.log
    ensures if s.End? then m.delivery.Idle? && m.cursor == n.cursor + 1 && SendsLeft(n) > 0
      else !m.delivery.Idle? && m.cursor == n.cursor && SendsLeft(m) < SendsLeft(n)
  {
    hide ConnInv, DueInv;
    if n.delivery.Signalling? {
      assert Pending(n, n.delivery.id);
      s := Signal;
    } else if n.delivery.todo == {} {
      s := End;
    } else {
      var id :| id in n.delivery.todo;
      assert Pending(n, id);
      s := TryOffer(id);
      assert |n.delivery.todo - {id}| == |n.delivery.todo| - 1;
    }
    m := Apply(n, s);
  }

  /** However full the buffers and wherever the pumps are stuck, a delivery under way
      finishes by the hub's own steps, at most two for each follower still to be offered. */
  lemma {:induction false} DeliveryFinishes(n: Node) returns (steps: seq<Step>, n': Node)
    requires Inv(n) && !n.delivery.Idle?
    ensures Runs(n, steps, n') && n'.delivery.Idle? && n'.cursor == n.cursor + 1 && n'.log == n.log
    ensures |steps| <= SendsLeft(n) && forall i :: 0 <= i < |steps| ==> Sending(steps[i])
    decreases SendsLeft(n)
  {
    hide Inv, Apply, SendsLeft, Enabled;
    var s, m := SendStep(n);
    StepKeepsInv(n, s);
    if s.End? {
      steps, n' := [], m;
    } else {
      steps, n' := DeliveryFinishes(m);
    }
    Prepend(n, s, steps, n');
    steps := [s] + steps;
  }

  /** A failed write ends its connection's pump for good. */
  lemma FailureIsFinal(n: Node, id: Id, s: Step)
    requires Enabled(n, WriteFails(id)) && Enabled(Apply(n, WriteFails(id)), s)
    ensures s !in {TakeEvent(id), TakeResync(id), WriteOk(id), WriteFails(id)}
    ensures Apply(Apply(n, WriteFails(id)), s).conns[id].pump.Failed?
  {
  }

  /** A pump that is not stuck in a write can always go on. */
  lemma PumpsGoOn(n: Node, id: Id)
    requires id in n.conns
    ensures n.conns[id].pump.Waiting? && n.conns[id].box != Mailbox([], false) ==>
      Enabled(n, TakeEvent(id)) || Enabled(n, TakeResync(id))
    ensures n.conns[id].pump.Writing? ==> Enabled(n, WriteOk(id)) && Enabled(n, WriteFails(id))
  {
  }
}
