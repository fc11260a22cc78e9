/** Realtime rooms (domain/shared/topics.go), the rooms a connection joins
    (presenter/websocket/handler.go), and what an agent may see
    (domain/attachments/service/service.go). */
module Topics {
  import opened Text

  function TopicTenant(tenant: string): string { "t:" + tenant + ":tenant" }
  function TopicPresence(tenant: string): string { "t:" + tenant + ":presence" }
  function TopicUser(tenant: string, user: string): string { "t:" + tenant + ":user:" + user }
  function TopicConversation(tenant: string, id: string): string { "t:" + tenant + ":conversation:" + id }
  function TopicInbox(tenant: string, sector: string): string { "t:" + tenant + ":inbox:" + sector }
  function TopicUnassigned(tenant: string): string { "t:" + tenant + ":unassigned" }

  function InboxTopicsFor(tenant: string, sector: string, assignedTo: string): seq<string> {
    if sector != "" then [TopicInbox(tenant, sector)]
    else [TopicUnassigned(tenant)] + if assignedTo != "" then [TopicUser(tenant, assignedTo)] else []
  }

  function DealTopicsFor(tenant: string, sector: string, assignedTo: string): seq<string> {
    [TopicUnassigned(tenant)]
    + (if sector != "" then [TopicInbox(tenant, sector)] else [])
    + (if assignedTo != "" then [TopicUser(tenant, assignedTo)] else [])
  }

  /** The verified access token. */
  datatype Claims = Claims(
    tenant: string, user: string, sectors: seq<string>, allScope: bool, canRead: bool)

  function DefaultRooms(c: Claims): set<string> {
    {TopicTenant(c.tenant), TopicUser(c.tenant, c.user), TopicPresence(c.tenant)}
    + (if c.allScope then {TopicUnassigned(c.tenant)} else {})
    + SectorRooms(c.tenant, c.sectors)
  }

  function SectorRooms(tenant: string, sectors: seq<string>): set<string> {
    set sector | sector in sectors && sector != "" :: TopicInbox(tenant, sector)
  }

  // ---- the builders are injective ----------------------------------------

  datatype Room =
    | TenantRoom | PresenceRoom | UnassignedRoom
    | UserRoom(id: string) | ConversationRoom(id: string) | InboxRoom(id: string)

  function Topic(tenant: string, room: Room): string {
    match room
    case TenantRoom => TopicTenant(tenant)
    case PresenceRoom => TopicPresence(tenant)
    case UnassignedRoom => TopicUnassigned(tenant)
    case UserRoom(id) => TopicUser(tenant, id)
    case ConversationRoom(id) => TopicConversation(tenant, id)
    case InboxRoom(id) => TopicInbox(tenant, id)
  }

  function Fields(room: Room): seq<string> {
    match room
    case TenantRoom => ["tenant"]
    case PresenceRoom => ["presence"]
    case UnassignedRoom => ["unassigned"]
    case UserRoom(id) => ["user", id]
    case ConversationRoom(id) => ["conversation", id]
    case InboxRoom(id) => ["inbox", id]
  }

  /** The part of a topic after the tenant. */
  function Rest(room: Room): string {
    var f := Fields(room);
    if |f| == 1 then f[0] else f[0] + [':'] + f[1]
  }

  lemma TopicNames()
    ensures Topic("a", TenantRoom) == "t:a:tenant" && Topic("a", PresenceRoom) == "t:a:presence"
    ensures Topic("a", UnassignedRoom) == "t:a:unassigned"
  {
  }

  lemma TopicNamesWithId()
    ensures Topic("a", UserRoom("b")) == "t:a:user:b" && Topic("a", InboxRoom("b")) == "t:a:inbox:b"
    ensures Topic("a", ConversationRoom("b")) == "t:a:conversation:b"
  {
  }

  lemma Glue(tenant: string, mark: string, scope: string, id: string)
    requires mark == [':'] + scope + [':']
    ensures "t:" + tenant + mark + id == "t" + [':'] + (tenant + [':'] + (scope + [':'] + id))
  {
    assert "t:" == "t" + [':'];
  }

  lemma GlueAlone(tenant: string, mark: string, scope: string)
    requires mark == [':'] + scope
    ensures "t:" + tenant + mark == "t" + [':'] + (tenant + [':'] + scope)
  {
    assert "t:" == "t" + [':'];
  }

  lemma TopicRest(tenant: string, room: Room)
    ensures Topic(tenant, room) == "t" + [':'] + (tenant + [':'] + Rest(room))
  {
    match room
    case TenantRoom => GlueAlone(tenant, ":tenant", "tenant");
    case PresenceRoom => GlueAlone(tenant, ":presence", "presence");
    case UnassignedRoom => GlueAlone(tenant, ":unassigned", "unassigned");
    case UserRoom(id) => Glue(tenant, ":user:", "user", id);
    case ConversationRoom(id) => Glue(tenant, ":conversation:", "conversation", id);
    case InboxRoom(id) => Glue(tenant, ":inbox:", "inbox", id);
  }

  lemma SplitRest(room: Room)
    ensures SplitN(Rest(room), ':', 2) == Fields(room)
  {
    var f := Fields(room);
    assert ':' !in f[0];
    if |f| == 2 {
      SplitNJoined(f[0], ':', f[1], 2);
      SplitNOne(f[1], ':');
    }
  }

  lemma SplitTopic(tenant: string, room: Room)
    requires ':' !in tenant
    ensures SplitN(Topic(tenant, room), ':', 4) == ["t", tenant] + Fields(room)
  {
    hide SplitN, Topic, Fields, Rest;
    TopicRest(tenant, room);
    SplitRest(room);
    SplitNJoined(tenant, ':', Rest(room), 3);
    SplitNJoined("t", ':', tenant + [':'] + Rest(room), 4);
  }

  /** Two topics of tenants without colons are the same room of the same tenant;
      the other ids may be anything. */
  lemma TopicInjective(t1: string, r1: Room, t2: string, r2: Room)
    requires ':' !in t1 && ':' !in t2
    ensures Topic(t1, r1) == Topic(t2, r2) <==> t1 == t2 && r1 == r2
  {
    hide SplitN, Topic;
    if Topic(t1, r1) == Topic(t2, r2) {
      SplitTopic(t1, r1);
      SplitTopic(t2, r2);
      var s := ["t", t1] + Fields(r1);
      assert s == ["t", t2] + Fields(r2);
      assert s[1] == t1 == t2 && s[2] == Fields(r1)[0] == Fields(r2)[0];
      assert |s| == 4 ==> s[3] == Fields(r1)[1] == Fields(r2)[1];
    }
  }

  /** b is a, a colon and the name of a room with an id, alone or up to another colon. */
  predicate Extends(a: string, b: string) {
    exists scope :: scope in {"user", "conversation", "inbox"}
      && (b == a + [':'] + scope || a + [':'] + scope + [':'] <= b)
  }

  /** Two tenants share a topic if and only if they are the same, or one id extends the
      other past the name of a room with an id. Minted ids have no colon and never do. */
  lemma TenantsCollideIff(a: string, b: string)
    ensures (exists r, s :: Topic(a, r) == Topic(b, s)) <==> a == b || Extends(a, b) || Extends(b, a)
  {
    hide Topic, Extends, Rest;
    if a == b {
      assert Topic(a, TenantRoom) == Topic(b, TenantRoom);
    }
    if Extends(a, b) {
      var r := ExtensionCollides(a, b);
      assert Topic(a, r) == Topic(b, TenantRoom);
    }
    if Extends(b, a) {
      var r := ExtensionCollides(b, a);
      assert Topic(a, TenantRoom) == Topic(b, r);
    }
    forall r, s | Topic(a, r) == Topic(b, s) ensures a == b || Extends(a, b) || Extends(b, a) {
      if |a| <= |b| {
        SharedTopic(a, r, b, s);
      } else {
        SharedTopic(b, s, a, r);
      }
    }
  }

  function ScopedRoom(scope: string, id: string): Room
    requires scope in {"user", "conversation", "inbox"}
  {
    if scope == "user" then UserRoom(id) else if scope == "conversation" then ConversationRoom(id) else InboxRoom(id)
  }

  lemma ExtensionCollides(a: string, b: string) returns (r: Room)
    requires Extends(a, b)
    ensures Topic(a, r) == Topic(b, TenantRoom)
  {
    hide Topic, ScopedRoom;
    var scope :| scope in {"user", "conversation", "inbox"}
      && (b == a + [':'] + scope || a + [':'] + scope + [':'] <= b);
    var head := a + [':'] + scope;
    if b == head {
      r := ScopedRoom(scope, "tenant");
      Reassociate(a, scope, "tenant");
      SameTopic(a, r, scope, "tenant", b);
    } else {
      var y := b[|head| + 1..];
      assert b == head + [':'] + y;
      r := ScopedRoom(scope, y + [':'] + "tenant");
      Reassociate(a, scope, y + [':'] + "tenant");
      assert head + [':'] + (y + [':'] + "tenant") == b + [':'] + "tenant";
      SameTopic(a, r, scope, y + [':'] + "tenant", b);
    }
  }

  lemma Reassociate(a: string, scope: string, id: string)
    ensures a + [':'] + (scope + [':'] + id) == a + [':'] + scope + [':'] + id
  {
  }

  lemma SameTopic(a: string, r: Room, scope: string, id: string, b: string)
    requires scope in {"user", "conversation", "inbox"} && r == ScopedRoom(scope, id)
    requires a + [':'] + (scope + [':'] + id) == b + [':'] + "tenant"
    ensures Topic(a, r) == Topic(b, TenantRoom)
  {
    hide Topic;
    TopicRest(a, r);
    TopicRest(b, TenantRoom);
    assert Rest(r) == scope + [':'] + id;
  }

  /** A shared topic makes the longer id an extension of the shorter. */
  lemma SharedTopic(a: string, r: Room, b: string, s: Room)
    requires Topic(a, r) == Topic(b, s) && |a| <= |b|
    ensures a == b || Extends(a, b)
  {
    hide Topic, Rest, Fields;
    TopicRest(a, r);
    TopicRest(b, s);
    var x, y := a + [':'] + Rest(r), b + [':'] + Rest(s);
    assert x == ("t" + [':'] + x)[2..] && y == ("t" + [':'] + y)[2..];
    JoinedTwoWays(a, Rest(r), b, Rest(s), ':');
    if a != b {
      var tail := b[|a| + 1..];
      var scope := FieldEndsThere(r, tail, Rest(s));
      Extending(a, scope, tail, b);
    }
  }

  lemma Extending(a: string, scope: string, tail: string, b: string)
    requires scope in {"user", "conversation", "inbox"} && b == a + [':'] + tail
    requires tail == scope || scope + [':'] <= tail
    ensures Extends(a, b)
  {
    if scope + [':'] <= tail {
      assert tail == scope + [':'] + tail[|scope| + 1..];
      assert b == a + [':'] + scope + [':'] + tail[|scope| + 1..];
    }
  }

  /** A text joined in two ways: at the same place, or the longer head goes on past the
      shorter one. */
  lemma JoinedTwoWays(p: string, q: string, u: string, v: string, sep: char)
    requires p + [sep] + q == u + [sep] + v && |p| <= |u|
    ensures (p == u && q == v)
         || (p != u && |p| < |u| && u == p + [sep] + u[|p| + 1..] && q == u[|p| + 1..] + [sep] + v)
  {
    var x := p + [sep] + q;
    assert p == x[..|p|] && q == x[|p| + 1..] && x[|p|] == sep;
    assert u == x[..|u|] && v == x[|u| + 1..] && x[|u|] == sep;
    if |p| < |u| {
      assert u == x[..|p|] + [x[|p|]] + x[|p| + 1..|u|];
      assert q == x[|p| + 1..|u|] + [x[|u|]] + x[|u| + 1..];
    }
  }

  /** A colon in a room's part of a topic follows its name, at once or later. */
  lemma FieldEndsThere(r: Room, tail: string, rest: string) returns (scope: string)
    requires Rest(r) == tail + [':'] + rest
    ensures scope in {"user", "conversation", "inbox"}
    ensures tail == scope || scope + [':'] <= tail
  {
    scope := Fields(r)[0];
    var f := Fields(r);
    assert ':' !in f[0];
    assert Rest(r)[|tail|] == ':';
    assert |f| == 2 && Rest(r) == f[0] + [':'] + f[1];
    assert forall k :: 0 <= k < |f[0]| ==> Rest(r)[k] == f[0][k] && f[0][k] in f[0];
    JoinedTwoWays(f[0], f[1], tail, rest, ':');
  }

  lemma JoinedUnassigned(c: Claims, tenant: string)
    requires ':' !in c.tenant && ':' !in tenant
    ensures TopicUnassigned(tenant) in DefaultRooms(c) <==> c.tenant == tenant && c.allScope
  {
    JoinedRoom(c, tenant, UnassignedRoom);
  }

  lemma JoinedUser(c: Claims, tenant: string, user: string)
    requires ':' !in c.tenant && ':' !in tenant
    ensures TopicUser(tenant, user) in DefaultRooms(c) <==> c.tenant == tenant && c.user == user
  {
    JoinedRoom(c, tenant, UserRoom(user));
  }

  lemma JoinedInbox(c: Claims, tenant: string, sector: string)
    requires ':' !in c.tenant && ':' !in tenant
    ensures TopicInbox(tenant, sector) in DefaultRooms(c) <==> c.tenant == tenant && sector != "" && sector in c.sectors
  {
    JoinedRoom(c, tenant, InboxRoom(sector));
  }

  predicate Joins(c: Claims, room: Room) {
    match room
    case TenantRoom => true
    case PresenceRoom => true
    case UnassignedRoom => c.allScope
    case UserRoom(id) => id == c.user
    case ConversationRoom(_) => false
    case InboxRoom(id) => id != "" && id in c.sectors
  }

  /** Membership in the default rooms, room by room. */
  lemma JoinedRoom(c: Claims, tenant: string, room: Room)
    requires ':' !in c.tenant && ':' !in tenant
    ensures Topic(tenant, room) in DefaultRooms(c) <==> c.tenant == tenant && Joins(c, room)
  {
    var t := Topic(tenant, room);
    assert t in DefaultRooms(c) <==>
      || t == Topic(c.tenant, TenantRoom) || t == Topic(c.tenant, UserRoom(c.user))
      || t == Topic(c.tenant, PresenceRoom) || (c.allScope && t == Topic(c.tenant, UnassignedRoom))
      || exists s :: s in c.sectors && s != "" && t == Topic(c.tenant, InboxRoom(s));
    hide Topic, DefaultRooms;
    TopicInjective(tenant, room, c.tenant, TenantRoom);
    TopicInjective(tenant, room, c.tenant, UserRoom(c.user));
    TopicInjective(tenant, room, c.tenant, PresenceRoom);
    TopicInjective(tenant, room, c.tenant, UnassignedRoom);
    forall s ensures t == Topic(c.tenant, InboxRoom(s)) <==> tenant == c.tenant && room == InboxRoom(s) {
      TopicInjective(tenant, room, c.tenant, InboxRoom(s));
    }
  }

  // ---- rooms against visibility ------------------------------------------

  /** loadVisible, and the deals rule: all-scope, assigned to me, or my sector. */
  predicate Visible(c: Claims, sector: string, assignedTo: string) {
    c.allScope || (assignedTo != "" && assignedTo == c.user) || (sector != "" && sector in c.sectors)
  }

  predicate Reached(c: Claims, rooms: seq<string>) {
    exists i :: 0 <= i < |rooms| && rooms[i] in DefaultRooms(c)
  }

  /** A deal update reaches exactly the connections of its tenant that may see it. */
  lemma DealRoomsAreVisibility(c: Claims, tenant: string, sector: string, assignedTo: string)
    requires ':' !in c.tenant && ':' !in tenant
    ensures Reached(c, DealTopicsFor(tenant, sector, assignedTo))
       <==> c.tenant == tenant && Visible(c, sector, assignedTo)
  {
    JoinedUnassigned(c, tenant);
    JoinedInbox(c, tenant, sector);
    JoinedUser(c, tenant, assignedTo);
    hide DefaultRooms, TopicUnassigned, TopicInbox, TopicUser;
    var rooms := DealTopicsFor(tenant, sector, assignedTo);
    assert rooms[0] == TopicUnassigned(tenant);
    assert sector != "" ==> rooms[1] == TopicInbox(tenant, sector);
    assert assignedTo != "" ==> rooms[|rooms| - 1] == TopicUser(tenant, assignedTo);
  }

  /** A conversation update reaches only those who may see it ... */
  lemma InboxRoomsAreVisible(c: Claims, tenant: string, sector: string, assignedTo: string)
    requires ':' !in c.tenant && ':' !in tenant
    ensures Reached(c, InboxTopicsFor(tenant, sector, assignedTo)) ==>
      c.tenant == tenant && Visible(c, sector, assignedTo)
    ensures sector == "" ==>
      (Reached(c, InboxTopicsFor(tenant, sector, assignedTo)) <==> c.tenant == tenant && Visible(c, sector, assignedTo))
    ensures sector != "" ==>
      (Reached(c, InboxTopicsFor(tenant, sector, assignedTo)) <==> c.tenant == tenant && sector in c.sectors)
  {
    JoinedUnassigned(c, tenant);
    JoinedInbox(c, tenant, sector);
    JoinedUser(c, tenant, assignedTo);
    hide DefaultRooms, TopicUnassigned, TopicInbox, TopicUser;
    var rooms := InboxTopicsFor(tenant, sector, assignedTo);
    assert sector != "" ==> rooms == [TopicInbox(tenant, sector)] && rooms[0] == TopicInbox(tenant, sector);
    assert sector == "" ==> rooms[0] == TopicUnassigned(tenant);
    assert sector == "" && assignedTo != "" ==> rooms[1] == TopicUser(tenant, assignedTo);
  }

  /** ... and misses one only when the conversation has a sector and the agent
      sees it from outside that sector, by scope or by assignment. */
  lemma InboxRoomsMissIff(c: Claims, tenant: string, sector: string, assignedTo: string)
    requires ':' !in c.tenant && c.tenant == tenant
    ensures (Reached(c, InboxTopicsFor(tenant, sector, assignedTo)) <==> Visible(c, sector, assignedTo))
       <==> !(sector != "" && sector !in c.sectors && (c.allScope || (assignedTo != "" && assignedTo == c.user)))
  {
    hide Reached;
    InboxRoomsAreVisible(c, tenant, sector, assignedTo);
  }

  /** An agent who sees every sector is not told of a conversation in one they do not
      belong to. */
  lemma ManagerIsMissed()
    ensures var c := Claims("t", "u", [], true, true);
      Visible(c, "sales", "") && !Reached(c, InboxTopicsFor("t", "sales", ""))
  {
    hide Reached;
    InboxRoomsMissIff(Claims("t", "u", [], true, true), "t", "sales", "");
  }
}
