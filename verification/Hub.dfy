/** The per-process fan-out hub (infra/realtime/hub.go) and the life of one
    connection around it (presenter/websocket/handler.go). */
module Hub {
  import opened Text
  import opened Topics

  datatype Message = Message(topic: string, payload: string)

  /** A bounded send buffer and the capacity-one resync signal beside it. */
  datatype Mailbox<T> = Mailbox(queue: seq<T>, resync: bool)

  /** The non-blocking send: a full buffer drops the message and raises the signal. */
  function Offer<T>(box: Mailbox<T>, capacity: nat, x: T): Mailbox<T> {
    if |box.queue| < capacity then box.(queue := box.queue + [x]) else box.(resync := true)
  }

  function UserKey(tenant: string, user: string): string { tenant + "|" + user }

  /** Separate users are limited separately, as long as a tenant id has no bar. */
  lemma UserKeyInjective(tenant: string, user: string, tenant': string, user': string)
    requires '|' !in tenant && '|' !in tenant'
    ensures UserKey(tenant, user) == UserKey(tenant', user') <==> tenant == tenant' && user == user'
  {
    assert UserKey(tenant, user) == tenant + ['|'] + user && UserKey(tenant', user') == tenant' + ['|'] + user';
    IndexOfJoined(tenant, '|', user);
    IndexOfJoined(tenant', '|', user');
    if UserKey(tenant, user) == UserKey(tenant', user') {
      var s := UserKey(tenant, user);
      assert s[..|tenant|] == tenant == tenant' && s[|tenant| + 1..] == user == user';
    }
  }

  class Client {
    const tenant: string
    const user: string
    const capacity: nat
    var send: seq<Message>
    var resync: bool
    var topics: set<string>

    constructor (tenant: string, user: string, capacity: nat)
      ensures this.tenant == tenant && this.user == user && this.capacity == capacity
      ensures send == [] && !resync && topics == {}
    {
      this.tenant, this.user, this.capacity := tenant, user, capacity;
      send, resync, topics := [], false, {};
    }

    function Box(): Mailbox<Message>
      reads this
    {
      Mailbox(send, resync)
    }

    function Key(): string { UserKey(tenant, user) }

    /** Coalesced: a signal already pending stays the only one. */
    method SignalResync()
      modifies this`resync
      ensures resync
    {
      resync := true;
    }
  }

  function Released(n: nat, mine: bool): nat { if mine && n > 0 then n - 1 else n }

  type Index = map<string, set<Client>>

  function Subs(index: Index, topic: string): set<Client> {
    if topic in index then index[topic] else {}
  }

  function Conns(counts: map<string, nat>, key: string): nat {
    if key in counts then counts[key] else 0
  }

  class Hub {
    var clients: Index
    var userConns: map<string, nat>
    /** Every client that ever subscribed here. */
    ghost var known: set<Client>
    /** The registered connections that have not been removed. */
    ghost var live: set<Client>

    constructor ()
      ensures Valid() && SlotsExact()
      ensures clients == map[] && userConns == map[] && live == {}
    {
      clients, userConns, known, live := map[], map[], {}, {};
    }

    /** The two directions of the index agree, and no topic maps to an empty set. */
    ghost predicate Valid()
      reads this, known
    {
      && (forall t, c :: c in Subs(clients, t) ==> c in known && t in c.topics)
      && (forall c, t :: c in known && t in c.topics ==> c in Subs(clients, t))
      && (forall t :: t in clients ==> clients[t] != {})
      && (forall k :: k in userConns ==> userConns[k] > 0)
    }

    /** Each user's count is the number of its live connections. */
    ghost predicate SlotsExact()
      reads this
    {
      forall k :: Conns(userConns, k) == |LiveOf(live, k)|
    }

    method Register(c: Client, max: int) returns (ok: bool)
      requires Valid()
      modifies this`userConns, this`live
      ensures Valid()
      ensures ok <==> max <= 0 || Conns(old(userConns), c.Key()) < max
      ensures forall k :: Conns(userConns, k) == Conns(old(userConns), k) + if ok && k == c.Key() then 1 else 0
      ensures live == if ok then old(live) + {c} else old(live)
      ensures old(SlotsExact()) && c !in old(live) ==> SlotsExact()
      ensures max > 0 && (forall k :: Conns(old(userConns), k) <= max) ==> forall k :: Conns(userConns, k) <= max
    {
      var key := c.Key();
      if max > 0 && Conns(userConns, key) >= max {
        return false;
      }
      userConns := userConns[key := Conns(userConns, key) + 1];
      live := live + {c};
      if c !in old(live) {
        LiveAdded(old(live), c);
      }
      ok := true;
    }

    method Subscribe(c: Client, topic: string)
      requires Valid() && (c in known || c.topics == {})
      modifies this`clients, this`known, c`topics
      ensures Valid()
      ensures c.topics == old(c.topics) + {topic} && known == old(known) + {c}
      ensures forall t :: Subs(clients, t) == Subs(old(clients), t) + if t == topic then {c} else {}
    {
      clients := clients[topic := Subs(clients, topic) + {c}];
      assert forall t :: Subs(clients, t) == Subs(old(clients), t) + if t == topic then {c} else {};
      c.topics := c.topics + {topic};
      known := known + {c};
      assert forall x :: x in known && x != c ==> x.topics == old(x.topics);
      assert forall t, x :: x in Subs(clients, t) ==> x in Subs(old(clients), t) || (x == c && t == topic);
    }

    method Unsubscribe(c: Client, topic: string)
      requires Valid() && (c in known || c.topics == {})
      modifies this`clients, c`topics
      ensures Valid()
      ensures c.topics == old(c.topics) - {topic}
      ensures forall t :: Subs(clients, t) == Subs(old(clients), t) - if t == topic then {c} else {}
    {
      if topic in clients {
        var rest := clients[topic] - {c};
        clients := if rest == {} then clients - {topic} else clients[topic := rest];
      }
      assert forall t :: Subs(clients, t) == Subs(old(clients), t) - if t == topic then {c} else {};
      c.topics := c.topics - {topic};
      assert forall x :: x in known && x != c ==> x.topics == old(x.topics);
      assert forall t, x :: x in Subs(clients, t) ==> x in Subs(old(clients), t) && (x != c || t != topic);
    }

    method Remove(c: Client)
      requires Valid() && (c in known || c.topics == {})
      modifies this`clients, this`userConns, this`live, c`topics
      ensures Valid()
      ensures c.topics == {}
      ensures forall t :: Subs(clients, t) == Subs(old(clients), t) - {c}
      ensures forall k :: Conns(userConns, k) == Released(Conns(old(userConns), k), k == c.Key())
      ensures live == old(live) - {c}
      ensures old(SlotsExact()) && c in old(live) ==> SlotsExact()
    {
      LeaveTopics(c);
      ReleaseSlot(c);
    }

    /** The first half of Remove: out of every topic it follows. */
    method LeaveTopics(c: Client)
      requires Valid() && (c in known || c.topics == {})
      modifies this`clients, c`topics
      ensures Valid()
      ensures c.topics == {}
      ensures forall t :: Subs(clients, t) == Subs(old(clients), t) - {c}
    {
      ghost var before := clients;
      var rest := c.topics;
      while rest != {}
        invariant rest <= c.topics == old(c.topics)
        invariant forall t :: c in Subs(before, t) ==> t in c.topics
        invariant forall t :: Subs(clients, t) == Subs(before, t) - if t in c.topics - rest then {c} else {}
        invariant forall t :: t in clients ==> clients[t] != {}
        decreases rest
      {
        var topic :| topic in rest;
        rest := rest - {topic};
        if topic in clients {
          var others := clients[topic] - {c};
          clients := if others == {} then clients - {topic} else clients[topic := others];
        }
      }
      forall t ensures Subs(clients, t) == Subs(before, t) - {c} {
        assert t !in c.topics ==> c !in Subs(before, t);
      }
      c.topics := {};
      assert forall x :: x in known && x != c ==> x.topics == old(x.topics);
      assert forall t, x :: x in Subs(clients, t) ==> x in Subs(before, t) && x != c;
    }

    /** The second half of Remove: one connection slot back. */
    method ReleaseSlot(c: Client)
      requires Valid()
      modifies this`userConns, this`live
      ensures Valid()
      ensures forall k :: Conns(userConns, k) == Released(Conns(old(userConns), k), k == c.Key())
      ensures live == old(live) - {c}
      ensures old(SlotsExact()) && c in old(live) ==> SlotsExact()
    {
      var key := c.Key();
      if Conns(userConns, key) > 0 {
        userConns := userConns[key := userConns[key] - 1];
        if userConns[key] == 0 {
          userConns := userConns - {key};
        }
      }
      LiveRemoved(live, c);
      live := live - {c};
      assert forall k :: Conns(userConns, k) == Released(Conns(old(userConns), k), k == key);
    }

    /** Every subscriber is offered the message exactly once; nobody blocks. */
    method Deliver(msg: Message)
      requires Valid()
      modifies Subs(clients, msg.topic)`send, Subs(clients, msg.topic)`resync
      ensures Valid()
      ensures forall c :: c in Subs(clients, msg.topic) ==> c.Box() == Offer(old(c.Box()), c.capacity, msg)
    {
      var rest := Subs(clients, msg.topic);
      while rest != {}
        invariant rest <= Subs(clients, msg.topic)
        invariant forall c :: c in rest ==> c.Box() == old(c.Box())
        invariant forall c :: c in Subs(clients, msg.topic) - rest ==> c.Box() == Offer(old(c.Box()), c.capacity, msg)
        decreases rest
      {
        var c :| c in rest;
        rest := rest - {c};
        if |c.send| < c.capacity {
          c.send := c.send + [msg];
        } else {
          c.SignalResync();
        }
      }
    }
  }

  ghost function LiveOf(live: set<Client>, key: string): set<Client> {
    set c | c in live && c.Key() == key
  }

  lemma LiveAdded(live: set<Client>, c: Client)
    requires c !in live
    ensures forall k :: |LiveOf(live + {c}, k)| == |LiveOf(live, k)| + if k == c.Key() then 1 else 0
  {
    forall k ensures |LiveOf(live + {c}, k)| == |LiveOf(live, k)| + if k == c.Key() then 1 else 0 {
      assert LiveOf(live + {c}, k) == LiveOf(live, k) + if k == c.Key() then {c} else {};
    }
  }

  lemma LiveRemoved(live: set<Client>, c: Client)
    ensures c in live ==>
      forall k :: |LiveOf(live - {c}, k)| == |LiveOf(live, k)| - if k == c.Key() then 1 else 0
  {
    if c in live {
      LiveAdded(live - {c}, c);
      assert live - {c} + {c} == live;
    }
  }

  // ---- one connection ----------------------------------------------------

  /** An inbound control frame; Ignored covers what does not decode. */
  datatype Command = SubscribeTo(id: string) | UnsubscribeFrom(id: string) | Ignored

  /** The rooms a connection follows after its commands. */
  function Follow(claims: Claims, topics: set<string>, commands: seq<Command>): set<string> {
    if commands == [] then topics
    else
      var before := Follow(claims, topics, commands[..|commands| - 1]);
      match commands[|commands| - 1]
      case SubscribeTo(id) =>
        if id != "" && claims.canRead then before + {TopicConversation(claims.tenant, id)} else before
      case UnsubscribeFrom(id) =>
        if id != "" then before - {TopicConversation(claims.tenant, id)} else before
      case Ignored => before
  }

  /** A connection follows only its default rooms and conversation rooms of its own
      tenant, the latter only with the permission to read them. */
  lemma {:induction false} FollowsOwnTenant(claims: Claims, commands: seq<Command>, topic: string)
    requires topic in Follow(claims, DefaultRooms(claims), commands)
    ensures topic in DefaultRooms(claims)
         || (claims.canRead && exists id :: id != "" && topic == TopicConversation(claims.tenant, id))
  {
    if commands != [] {
      var last := commands[|commands| - 1];
      var front := commands[..|commands| - 1];
      if topic in Follow(claims, DefaultRooms(claims), front) {
        FollowsOwnTenant(claims, front, topic);
      } else {
        assert last.SubscribeTo? && last.id != "" && topic == TopicConversation(claims.tenant, last.id);
      }
    }
  }

  predicate Grants(claims: Claims, command: Command, topic: string) {
    command.SubscribeTo? && command.id != "" && claims.canRead && topic == TopicConversation(claims.tenant, command.id)
  }

  predicate Revokes(claims: Claims, command: Command, topic: string) {
    command.UnsubscribeFrom? && command.id != "" && topic == TopicConversation(claims.tenant, command.id)
  }

  predicate Unrevoked(claims: Claims, commands: seq<Command>, from: nat, topic: string) {
    forall j :: from <= j < |commands| ==> !Revokes(claims, commands[j], topic)
  }

  /** The last command about a room decides it: a permitted subscribe is never skipped,
      and an unsubscribe always counts. */
  lemma {:induction false} FollowIff(claims: Claims, topics: set<string>, commands: seq<Command>, topic: string)
    ensures topic in Follow(claims, topics, commands)
       <==> (topic in topics && Unrevoked(claims, commands, 0, topic))
            || exists i :: 0 <= i < |commands| && Grants(claims, commands[i], topic)
                 && Unrevoked(claims, commands, i + 1, topic)
  {
    hide TopicConversation;
    if commands != [] {
      var n := |commands| - 1;
      FollowIff(claims, topics, commands[..n], topic);
      assert forall k :: 0 <= k <= n ==> (Unrevoked(claims, commands, k, topic)
        <==> Unrevoked(claims, commands[..n], k, topic) && !Revokes(claims, commands[n], topic));
    }
  }

  /** Everything about the hub except the one client. */
  ghost predicate OthersKept(hub: Hub, before: Index, c: Client)
    reads hub
  {
    forall t :: Subs(hub.clients, t) - {c} == Subs(before, t) - {c}
  }

  method JoinDefaultRooms(hub: Hub, c: Client, claims: Claims)
    requires hub.Valid() && (c in hub.known || c.topics == {})
    modifies hub`clients, hub`known, c`topics
    ensures hub.Valid() && c in hub.known
    ensures c.topics == old(c.topics) + DefaultRooms(claims)
    ensures OthersKept(hub, old(hub.clients), c)
  {
    hide Hub.Valid, Subs, SectorRooms;
    hide TopicTenant, TopicUser, TopicPresence, TopicUnassigned, TopicInbox;
    hub.Subscribe(c, TopicTenant(claims.tenant));
    hub.Subscribe(c, TopicUser(claims.tenant, claims.user));
    hub.Subscribe(c, TopicPresence(claims.tenant));
    if claims.allScope {
      hub.Subscribe(c, TopicUnassigned(claims.tenant));
    }
    JoinSectors(hub, c, claims);
  }

  /** One room per allowed sector. */
  method JoinSectors(hub: Hub, c: Client, claims: Claims)
    requires hub.Valid() && c in hub.known
    modifies hub`clients, hub`known, c`topics
    ensures hub.Valid() && c in hub.known
    ensures c.topics == old(c.topics) + SectorRooms(claims.tenant, claims.sectors)
    ensures OthersKept(hub, old(hub.clients), c)
  {
    hide TopicInbox, Hub.Valid, Subs;
    for i := 0 to |claims.sectors|
      invariant hub.Valid() && c in hub.known
      invariant c.topics == old(c.topics) + SectorRooms(claims.tenant, claims.sectors[..i])
      invariant OthersKept(hub, old(hub.clients), c)
    {
      var sector := claims.sectors[i];
      assert claims.sectors[..i + 1] == claims.sectors[..i] + [sector];
      if sector != "" {
        hub.Subscribe(c, TopicInbox(claims.tenant, sector));
      }
    }
    assert claims.sectors[..|claims.sectors|] == claims.sectors;
  }

  /** The read loop: the client's control frames until the socket fails. */
  method ReadCommands(hub: Hub, c: Client, claims: Claims, commands: seq<Command>)
    requires hub.Valid() && c in hub.known
    modifies hub`clients, hub`known, c`topics
    ensures hub.Valid() && c in hub.known
    ensures c.topics == Follow(claims, old(c.topics), commands)
    ensures OthersKept(hub, old(hub.clients), c)
  {
    for i := 0 to |commands|
      invariant hub.Valid() && c in hub.known
      invariant c.topics == Follow(claims, old(c.topics), commands[..i])
      invariant OthersKept(hub, old(hub.clients), c)
    {
      assert commands[..i + 1][..i] == commands[..i];
      match commands[i]
      case Ignored =>
      case SubscribeTo(id) =>
        if id != "" && claims.canRead {
          hub.Subscribe(c, TopicConversation(claims.tenant, id));
        }
      case UnsubscribeFrom(id) =>
        if id != "" {
          hub.Unsubscribe(c, TopicConversation(claims.tenant, id));
        }
    }
    assert commands[..|commands|] == commands;
  }

  /** A connection from handshake to close, with no other in between: refused at the
      limit, and otherwise leaving the hub exactly as it found it, whatever its commands
      were and even when the upgrade fails. */
  method Serve(hub: Hub, c: Client, claims: Claims, max: int, upgraded: bool, commands: seq<Command>)
    returns (accepted: bool)
    requires hub.Valid() && hub.SlotsExact() && c !in hub.live && c.topics == {}
    modifies hub, c`topics
    ensures hub.Valid() && hub.SlotsExact()
    ensures accepted <==> upgraded && (max <= 0 || Conns(old(hub.userConns), c.Key()) < max)
    ensures hub.clients == old(hub.clients) && hub.userConns == old(hub.userConns)
    ensures hub.live == old(hub.live) && c.topics == {}
  {
    hide Follow, DefaultRooms, Hub.Valid, Subs, Conns;
    ghost var index, counts, live := hub.clients, hub.userConns, hub.live;
    NotYetIndexed(hub, c);
    var ok := hub.Register(c, max);
    if !ok {
      NotYetIndexed(hub, c);
      SameCounts(hub.userConns, counts);
      return false;
    }
    if upgraded {
      JoinDefaultRooms(hub, c, claims);
      ReadCommands(hub, c, claims, commands);
    }
    assert OthersKept(hub, index, c);
    hub.Remove(c);
    assert hub.live == live;
    NotYetIndexed(hub, c);
    SameCounts(hub.userConns, counts);
    forall t ensures Subs(hub.clients, t) == Subs(index, t) {
      assert c !in Subs(index, t) && c !in Subs(hub.clients, t);
    }
    SameIndex(hub.clients, index);
    accepted := upgraded;
  }

  // ---- many connections ----------------------------------------------------

  /** What a connection asks of the hub: its slot, rooms, and its clean-up. */
  datatype Action =
    | Open(c: Client)
    | Join(c: Client, topic: string)
    | Quit(c: Client, topic: string)
    | Close(c: Client)

  /** The actions of one connection that were carried out. */
  ghost function Mine(c: Client, actions: seq<Action>, done: seq<bool>): seq<Action>
    requires |done| == |actions|
    decreases |actions|
  {
    if actions == [] then []
    else
      var n := |actions| - 1;
      Mine(c, actions[..n], done[..n]) + if actions[n].c == c && done[n] then [actions[n]] else []
  }

  function Follows(topics: set<string>, mine: seq<Action>): set<string> {
    if mine == [] then topics
    else
      var before := Follows(topics, mine[..|mine| - 1]);
      After(before, mine[|mine| - 1])
  }

  lemma FollowsStep(
    c: Client, topics: set<string>, actions: seq<Action>, done: seq<bool>, action: Action, ok: bool)
    requires |done| == |actions|
    ensures var before := Follows(topics, Mine(c, actions, done));
      Follows(topics, Mine(c, actions + [action], done + [ok]))
      == if action.c == c && ok then After(before, action) else before
  {
    hide After;
    assert (actions + [action])[..|actions|] == actions && (done + [ok])[..|done|] == done;
    var mine := Mine(c, actions, done);
    assert (mine + [action])[..|mine|] == mine && mine + [] == mine;
  }

  predicate EndsClosed(mine: seq<Action>) {
    mine != [] && mine[|mine| - 1].Close?
  }

  /** A closed connection follows nothing, whatever the others did meanwhile. */
  lemma ClosedFollowsNothing(topics: set<string>, mine: seq<Action>)
    requires EndsClosed(mine)
    ensures Follows(topics, mine) == {}
  {
  }

  predicate Unquit(mine: seq<Action>, from: nat, topic: string) {
    forall j :: from <= j < |mine| ==> !mine[j].Close? && !(mine[j].Quit? && mine[j].topic == topic)
  }

  /** A connection follows what it followed or joined, and has neither quit nor closed since. */
  lemma {:induction false} FollowsIff(topics: set<string>, mine: seq<Action>, topic: string)
    ensures topic in Follows(topics, mine)
       <==> (topic in topics && Unquit(mine, 0, topic))
            || exists i :: 0 <= i < |mine| && mine[i].Join? && mine[i].topic == topic && Unquit(mine, i + 1, topic)
  {
    if mine != [] {
      var n := |mine| - 1;
      FollowsIff(topics, mine[..n], topic);
      assert forall k :: 0 <= k <= n ==> (Unquit(mine, k, topic)
        <==> Unquit(mine[..n], k, topic) && !mine[n].Close? && !(mine[n].Quit? && mine[n].topic == topic));
    }
  }

  /** Any number of connections, interleaved in any order, the others' actions between
      one's own: a slot is taken once and only a registered connection acts. Each ends up
      following what its own actions say and nothing else, and in no topic once closed. */
  method Interleave(hub: Hub, open: set<Client>, max: int, actions: seq<Action>)
    returns (done: seq<bool>, live: set<Client>)
    requires hub.Valid() && hub.SlotsExact() && open == hub.live
    requires forall a :: a in actions ==> a.c in hub.known || a.c.topics == {}
    modifies hub, (set a | a in actions :: a.c)`topics
    ensures hub.Valid() && hub.SlotsExact() && live == hub.live
    ensures |done| == |actions|
    ensures forall a :: a in actions ==> a.c.topics == Follows(old(a.c.topics), Mine(a.c, actions, done))
    ensures forall a :: a in actions && EndsClosed(Mine(a.c, actions, done)) ==> NoneOf(hub.clients, a.c)
    ensures Capped(old(hub.userConns), max) ==> Capped(hub.userConns, max)
  {
    hide Hub.Valid, Hub.SlotsExact, Follows, Mine, After, Capped, NoneOf, EndsClosed;
    done, live := [], open;
    NothingYet(actions);
    for i := 0 to |actions|
      invariant |done| == i && live == hub.live
      invariant hub.Valid() && hub.SlotsExact()
      invariant Capped(old(hub.userConns), max) ==> Capped(hub.userConns, max)
      invariant forall a :: a in actions ==> a.c in hub.known || a.c.topics == {}
      invariant forall a :: a in actions ==> a.c.topics == Follows(old(a.c.topics), Mine(a.c, actions[..i], done))
    {
      assert actions[..i + 1] == actions[..i] + [actions[i]];
      ghost var before := done;
      var ok;
      ok, live := Perform(hub, live, max, actions[i]);
      done := done + [ok];
      forall a | a in actions
        ensures a.c.topics == Follows(old(a.c.topics), Mine(a.c, actions[..i + 1], done))
      {
        FollowsStep(a.c, old(a.c.topics), actions[..i], before, actions[i], ok);
      }
    }
    assert actions[..|actions|] == actions;
    forall a | a in actions && EndsClosed(Mine(a.c, actions, done)) ensures NoneOf(hub.clients, a.c) {
      ClosedFollowsNothing(old(a.c.topics), Mine(a.c, actions, done));
      NotYetIndexed(hub, a.c);
    }
  }

  lemma NothingYet(actions: seq<Action>)
    ensures forall c, topics {:trigger Follows(topics, Mine(c, [], []))} :: Follows(topics, Mine(c, [], [])) == topics
    ensures actions[..0] == []
  {
  }

  function After(topics: set<string>, action: Action): set<string> {
    match action
    case Open(_) => topics
    case Join(_, topic) => topics + {topic}
    case Quit(_, topic) => topics - {topic}
    case Close(_) => {}
  }

  /** No user has more connections than the limit, when there is one. */
  ghost predicate Capped(counts: map<string, nat>, max: int) {
    max > 0 ==> forall k :: Conns(counts, k) <= max
  }

  /** One action, if its connection may: nothing else moves. */
  method Perform(hub: Hub, open: set<Client>, max: int, action: Action) returns (ok: bool, live: set<Client>)
    requires hub.Valid() && hub.SlotsExact() && open == hub.live
    requires action.c in hub.known || action.c.topics == {}
    modifies hub, action.c`topics
    ensures hub.Valid() && hub.SlotsExact() && live == hub.live && old(hub.known) <= hub.known
    ensures action.c in hub.known || action.c.topics == {}
    ensures action.c.topics == if ok then After(old(action.c.topics), action) else old(action.c.topics)
    ensures !action.Open? ==> (ok <==> action.c in open)
    ensures action.Open? ==>
      ok == (action.c !in open && (max <= 0 || Conns(old(hub.userConns), action.c.Key()) < max))
    ensures live == if ok && action.Open? then open + {action.c}
      else if ok && action.Close? then open - {action.c} else open
    ensures Capped(old(hub.userConns), max) ==> Capped(hub.userConns, max)
  {
    var c := action.c;
    live := open;
    if action.Open? == (c in open) {
      return false, live;
    }
    match action {
      case Open(_) =>
        ok := hub.Register(c, max);
        live := if ok then live + {c} else live;
      case Join(_, topic) =>
        hub.Subscribe(c, topic);
        ok := true;
      case Quit(_, topic) =>
        hub.Unsubscribe(c, topic);
        ok := true;
      case Close(_) =>
        hub.Remove(c);
        ok, live := true, live - {c};
    }
  }

  lemma NotYetIndexed(hub: Hub, c: Client)
    requires hub.Valid() && c.topics == {}
    ensures NoneOf(hub.clients, c)
    ensures forall t :: t in hub.clients ==> hub.clients[t] != {}
    ensures forall k :: k in hub.userConns ==> hub.userConns[k] > 0
  {
  }

  ghost predicate NoneOf(index: Index, c: Client) {
    forall t :: c !in Subs(index, t)
  }

  lemma SameCounts(a: map<string, nat>, b: map<string, nat>)
    requires forall k :: Conns(a, k) == Conns(b, k)
    requires forall k :: k in a ==> a[k] > 0
    requires forall k :: k in b ==> b[k] > 0
    ensures a == b
  {
    forall k ensures k in a <==> k in b {
      assert Conns(a, k) == Conns(b, k);
    }
    forall k | k in a ensures a[k] == b[k] {
      assert Conns(a, k) == Conns(b, k);
    }
  }

  lemma SameIndex(a: Index, b: Index)
    requires forall t :: Subs(a, t) == Subs(b, t)
    requires forall t :: t in a ==> a[t] != {}
    requires forall t :: t in b ==> b[t] != {}
    ensures a == b
  {
    forall t ensures t in a <==> t in b {
      assert Subs(a, t) == Subs(b, t);
    }
    forall t | t in a ensures a[t] == b[t] {
      assert Subs(a, t) == Subs(b, t);
    }
  }
}
