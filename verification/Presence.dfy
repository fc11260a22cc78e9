/** The per-user set of live sockets (infra/presence/store.go): a sorted set of
    last-seen times under one expiring key, kept by heartbeats and pruning. */
module Presence {

  /** milliseconds */
  const TTL: int := 60_000

  /** The key's members and when the key itself expires. */
  datatype ZSet = ZSet(members: map<string, int>, expires: int)

  datatype Command =
    | Prune(cutoff: int)
    | AddAndExpire(id: string, score: int)
    | Rem(id: string)
    | Del

  /** What Redis still holds at a time. */
  function Visible(z: ZSet, t: int): map<string, int> {
    if t < z.expires then z.members else map[]
  }

  function Above(members: map<string, int>, cutoff: int): map<string, int> {
    map id | id in members && cutoff <= members[id] :: members[id]
  }

  /** One command, executed at a time. */
  function Exec(z: ZSet, cmd: Command, t: int): ZSet {
    match cmd
    case Prune(cutoff) => ZSet(Above(Visible(z, t), cutoff), z.expires)
    case AddAndExpire(id, score) => ZSet(Visible(z, t)[id := score], t + TTL)
    case Rem(id) => ZSet(Visible(z, t) - {id}, z.expires)
    case Del => ZSet(map[], z.expires)
  }

  // ---- the specification: plain sets of sockets -----------------------------

  /** When each socket was last seen. It is history: nothing expires from it. */
  type Seen = map<string, int>

  /** The recorded sockets. A heartbeat after its socket's disconnect records it again. */
  function Track(seen: Seen, cmd: Command): Seen {
    match cmd
    case AddAndExpire(id, score) => seen[id := score]
    case Rem(id) => seen - {id}
    case _ => seen
  }

  /** The undisconnected sockets, and the ids that have disconnected: ids are minted per
      connection, so a disconnected one never opens again. */
  datatype Sockets = Sockets(open: Seen, closed: set<string>)

  function Live(s: Sockets, cmd: Command): Sockets {
    match cmd
    case AddAndExpire(id, score) => if id in s.closed then s else s.(open := s.open[id := score])
    case Rem(id) => Sockets(s.open - {id}, s.closed + {id})
    case _ => s
  }

  /** What is recorded is what is open, and disconnected sockets that a heartbeat revived. */
  ghost predicate Agree(seen: Seen, s: Sockets) {
    && (forall id :: id in s.open ==> id !in s.closed && id in seen && seen[id] == s.open[id])
    && (forall id :: id in seen ==> id in s.open || id in s.closed)
  }

  lemma CommandKeepsAgreement(seen: Seen, s: Sockets, cmd: Command)
    requires Agree(seen, s)
    ensures Agree(Track(seen, cmd), Live(s, cmd))
  {
  }

  ghost predicate Inv(z: ZSet, seen: Seen, t: int) {
    && (forall id :: id in Visible(z, t) ==> id in seen && seen[id] == z.members[id])
    && (forall id :: id in z.members ==> z.members[id] <= t && z.members[id] + TTL <= z.expires)
    && (forall id :: id in seen && t < seen[id] + TTL ==> id in Visible(z, t))
  }

  /** No socket was seen strictly within the time to live. */
  predicate AllGone(seen: Seen, t: int) {
    forall id :: id in seen ==> seen[id] + TTL <= t
  }

  /** Times are sampled before the command that uses them reaches the server, and the
      key is deleted only while no socket is live. */
  predicate Timely(seen: Seen, cmd: Command, t: int) {
    match cmd
    case Prune(cutoff) => cutoff <= t - TTL
    case AddAndExpire(_, score) => score <= t
    case Rem(_) => true
    case Del => AllGone(seen, t)
  }

  lemma TimePasses(z: ZSet, seen: Seen, t: int, t': int)
    requires Inv(z, seen, t) && t <= t'
    ensures Inv(z, seen, t')
  {
  }

  lemma CommandKeepsInv(z: ZSet, seen: Seen, cmd: Command, t: int)
    requires Inv(z, seen, t) && Timely(seen, cmd, t)
    ensures Inv(Exec(z, cmd, t), Track(seen, cmd), t)
  {
  }

  /** A command and the time it runs. */
  datatype Timed = Timed(cmd: Command, at: int)

  /** Commands of any number of processes, interleaved in any order. */
  ghost predicate Runs(z: ZSet, seen: Seen, now: int, cmds: seq<Timed>, z': ZSet, seen': Seen, now': int)
    decreases |cmds|
  {
    if cmds == [] then z == z' && seen == seen' && now <= now'
    else
      var (cmd, t) := (cmds[0].cmd, cmds[0].at);
      now <= t && Timely(seen, cmd, t) && Runs(Exec(z, cmd, t), Track(seen, cmd), t, cmds[1..], z', seen', now')
  }

  lemma {:induction false} RunsKeepInv(
    z: ZSet, seen: Seen, now: int, cmds: seq<Timed>, z': ZSet, seen': Seen, now': int)
    requires Inv(z, seen, now) && Runs(z, seen, now, cmds, z', seen', now')
    ensures Inv(z', seen', now')
    decreases |cmds|
  {
    hide Inv, Exec, Track, Timely;
    if cmds == [] {
      TimePasses(z, seen, now, now');
    } else {
      var (cmd, t) := (cmds[0].cmd, cmds[0].at);
      TimePasses(z, seen, now, t);
      CommandKeepsInv(z, seen, cmd, t);
      RunsKeepInv(Exec(z, cmd, t), Track(seen, cmd), t, cmds[1..], z', seen', now');
    }
  }

  /** The answer of prune-then-count, with the cutoff sampled at `cut` and the
      commands run at `t`. */
  predicate AnswersLive(z: ZSet, cut: int, t: int) {
    Visible(Exec(z, Prune(cut - TTL), t), t) != map[]
  }

  /** Live while some socket was seen strictly within the time to live; and then only
      if some socket was seen within it, inclusive. */
  lemma AnswerIsRight(z: ZSet, seen: Seen, cut: int, t: int)
    requires Inv(z, seen, t) && cut <= t
    ensures (exists id :: id in seen && t < seen[id] + TTL) ==> AnswersLive(z, cut, t)
    ensures AnswersLive(z, cut, t) ==> exists id :: id in seen && cut <= seen[id] + TTL
  {
    var kept := Visible(Exec(z, Prune(cut - TTL), t), t);
    if id :| id in seen && t < seen[id] + TTL {
      assert id in kept;
    }
    if AnswersLive(z, cut, t) {
      var id :| id in kept;
    }
  }

  /** HasLiveSocket refines the plain set in every interleaving of commands that delete
      the key only while no socket is live. */
  lemma LiveSocketsAreSeen(z: ZSet, cmds: seq<Timed>, z': ZSet, seen': Seen, now: int, cut: int, t: int)
    requires z.members == map[] && Runs(z, map[], now, cmds, z', seen', t) && cut <= t
    ensures (exists id :: id in seen' && t < seen'[id] + TTL) ==> AnswersLive(z', cut, t)
    ensures AnswersLive(z', cut, t) ==> exists id :: id in seen' && cut <= seen'[id] + TTL
  {
    hide Runs, AnswersLive;
    RunsKeepInv(z, map[], now, cmds, z', seen', t);
    AnswerIsRight(z', seen', cut, t);
  }

  /** The key never expires before a member's last-seen time plus the time to live. */
  lemma KeyOutlivesMembers(z: ZSet, cmds: seq<Timed>, z': ZSet, seen': Seen, now: int, t: int)
    requires z.members == map[] && Runs(z, map[], now, cmds, z', seen', t)
    ensures forall id :: id in z'.members ==> z'.members[id] + TTL <= z'.expires
  {
    hide Runs;
    RunsKeepInv(z, map[], now, cmds, z', seen', t);
  }

  /** The same with other processes' commands between the prune and the count, as Connect,
      Disconnect and HasLiveSocket issue them: an empty count means no socket is live, and
      any other that one was seen since the cutoff, unless an add was sampled before it. */
  lemma CountIsRight(
    z: ZSet, seen: Seen, cut: int, t: int, cmds: seq<Timed>, z': ZSet, seen': Seen, t': int)
    requires Inv(z, seen, t) && cut <= t
    requires Runs(Exec(z, Prune(cut - TTL), t), seen, t, cmds, z', seen', t')
    ensures Visible(z', t') == map[] ==> AllGone(seen', t')
    ensures Visible(z', t') != map[] && SampledSince(cmds, cut - TTL) ==>
      exists id :: id in seen' && cut <= seen'[id] + TTL
  {
    hide Runs, Inv;
    var pruned := Exec(z, Prune(cut - TTL), t);
    CommandKeepsInv(z, seen, Prune(cut - TTL), t);
    RunsKeepInv(pruned, seen, t, cmds, z', seen', t');
    CountMeansSeen(z', seen', t');
    if SampledSince(cmds, cut - TTL) {
      StaysPruned(pruned, seen, t, cmds, z', seen', t', cut - TTL);
    }
  }

  lemma CountMeansSeen(z: ZSet, seen: Seen, t: int)
    requires Inv(z, seen, t)
    ensures Visible(z, t) == map[] ==> AllGone(seen, t)
    ensures Visible(z, t) != map[] ==> exists id :: id in z.members && id in seen && seen[id] == z.members[id]
  {
    if Visible(z, t) == map[] {
      forall id | id in seen ensures seen[id] + TTL <= t {
        assert id !in Visible(z, t);
      }
    } else {
      var id :| id in Visible(z, t);
    }
  }

  predicate SampledSince(cmds: seq<Timed>, cutoff: int) {
    forall i :: 0 <= i < |cmds| && cmds[i].cmd.AddAndExpire? ==> cutoff <= cmds[i].cmd.score
  }

  lemma {:induction false} StaysPruned(
    z: ZSet, seen: Seen, now: int, cmds: seq<Timed>, z': ZSet, seen': Seen, now': int, cutoff: int)
    requires Runs(z, seen, now, cmds, z', seen', now') && SampledSince(cmds, cutoff)
    requires forall id :: id in z.members ==> cutoff <= z.members[id]
    ensures forall id :: id in z'.members ==> cutoff <= z'.members[id]
    decreases |cmds|
  {
    if cmds != [] {
      var (cmd, t) := (cmds[0].cmd, cmds[0].at);
      assert forall id :: id in Exec(z, cmd, t).members ==> cutoff <= Exec(z, cmd, t).members[id];
      StaysPruned(Exec(z, cmd, t), Track(seen, cmd), t, cmds[1..], z', seen', now', cutoff);
    }
  }

  // ---- the store -----------------------------------------------------------

  /** A socket was seen within the time to live before cut, inclusive. */
  ghost predicate SeenSince(seen: Seen, cut: int) {
    exists id :: id in seen && cut <= seen[id] + TTL
  }

  /** A disconnected socket was, by a heartbeat after its disconnect. */
  ghost predicate RevivedSince(seen: Seen, s: Sockets, cut: int) {
    exists id :: id in seen && id in s.closed && cut <= seen[id] + TTL
  }

  lemma OpenOrRevived(seen: Seen, s: Sockets, cut: int)
    requires Agree(seen, s)
    ensures SeenSince(seen, cut) <==> SeenSince(s.open, cut) || RevivedSince(seen, s, cut)
    ensures AllGone(seen, cut) ==> AllGone(s.open, cut)
  {
    if SeenSince(s.open, cut) {
      var id :| id in s.open && cut <= s.open[id] + TTL;
      assert id in seen;
    }
  }

  /** One user's key, with each method's commands run without interruption at the
      given times. */
  class ConnStore {
    var z: ZSet
    ghost var seen: Seen
    ghost var sockets: Sockets
    ghost var clock: int

    constructor (now: int)
      ensures Valid() && seen == map[] && sockets == Sockets(map[], {}) && clock == now
    {
      z, seen, sockets, clock := ZSet(map[], now), map[], Sockets(map[], {}), now;
    }

    ghost predicate Valid()
      reads this
    {
      Inv(z, seen, clock) && Agree(seen, sockets)
    }

    /** becameLive reports that no undisconnected socket was live; it misses that only when
        a disconnected one had been revived. */
    method Connect(id: string, cut: int, card: int, score: int, exec: int) returns (becameLive: bool)
      requires Valid() && clock <= cut <= card <= score <= exec
      modifies this
      ensures Valid() && clock == exec
      ensures seen == Track(old(seen), AddAndExpire(id, score))
      ensures sockets == Live(old(sockets), AddAndExpire(id, score))
      ensures becameLive ==> AllGone(old(seen), card) && AllGone(old(sockets).open, card)
      ensures !becameLive ==> SeenSince(old(sockets).open, cut) || RevivedSince(old(seen), old(sockets), cut)
      ensures id in z.members && z.members[id] == score && z.expires == exec + TTL
    {
      hide SeenSince, RevivedSince;
      TimePasses(z, seen, clock, card);
      AnswerAgainstOpen(z, seen, sockets, cut, card);
      CommandKeepsInv(z, seen, Prune(cut - TTL), card);
      z := Exec(z, Prune(cut - TTL), card);
      becameLive := |Visible(z, card)| == 0;
      TimePasses(z, seen, card, exec);
      CommandKeepsInv(z, seen, AddAndExpire(id, score), exec);
      CommandKeepsAgreement(seen, sockets, AddAndExpire(id, score));
      z := Exec(z, AddAndExpire(id, score), exec);
      sockets := Live(sockets, AddAndExpire(id, score));
      seen, clock := seen[id := score], exec;
    }

    /** Unconditional: a disconnected socket is recorded again, and no more open for it. */
    method Heartbeat(id: string, score: int, exec: int)
      requires Valid() && clock <= score <= exec
      modifies this
      ensures Valid() && clock == exec
      ensures seen == Track(old(seen), AddAndExpire(id, score))
      ensures sockets == Live(old(sockets), AddAndExpire(id, score))
      ensures id in old(sockets).closed ==> sockets == old(sockets) && RevivedSince(seen, sockets, score + TTL)
      ensures id in z.members && z.members[id] == score && z.expires == exec + TTL
    {
      TimePasses(z, seen, clock, exec);
      CommandKeepsInv(z, seen, AddAndExpire(id, score), exec);
      CommandKeepsAgreement(seen, sockets, AddAndExpire(id, score));
      z := Exec(z, AddAndExpire(id, score), exec);
      sockets := Live(sockets, AddAndExpire(id, score));
      seen, clock := seen[id := score], exec;
      assert id in seen && score + TTL <= seen[id] + TTL;
    }

    /** lastGone reports that no undisconnected socket is left; the socket itself is gone,
        and counts as disconnected from now on. */
    method Disconnect(id: string, rem: int, cut: int, card: int, del: int) returns (lastGone: bool)
      requires Valid() && clock <= rem <= cut <= card <= del
      modifies this
      ensures Valid() && clock == del
      ensures seen == Track(old(seen), Rem(id)) && sockets == Live(old(sockets), Rem(id))
      ensures lastGone ==> AllGone(seen, card) && AllGone(sockets.open, card)
      ensures !lastGone ==> SeenSince(sockets.open, cut) || RevivedSince(seen, sockets, cut)
      ensures id !in z.members
    {
      hide SeenSince, RevivedSince;
      TimePasses(z, seen, clock, rem);
      CommandKeepsInv(z, seen, Rem(id), rem);
      CommandKeepsAgreement(seen, sockets, Rem(id));
      z, seen, sockets := Exec(z, Rem(id), rem), seen - {id}, Live(sockets, Rem(id));
      TimePasses(z, seen, rem, card);
      AnswerAgainstOpen(z, seen, sockets, cut, card);
      CommandKeepsInv(z, seen, Prune(cut - TTL), card);
      z := Exec(z, Prune(cut - TTL), card);
      lastGone := |Visible(z, card)| == 0;
      TimePasses(z, seen, card, del);
      if lastGone {
        CommandKeepsInv(z, seen, Del, del);
        z := Exec(z, Del, del);
      }
      clock := del;
    }

    /** True while an undisconnected socket was seen strictly within the time to live, and
        then only if one was seen within it, or a disconnected one had been revived. */
    method HasLiveSocket(cut: int, card: int) returns (live: bool)
      requires Valid() && clock <= cut <= card
      modifies this
      ensures Valid() && clock == card && seen == old(seen) && sockets == old(sockets)
      ensures !live ==> AllGone(seen, card) && AllGone(sockets.open, card)
      ensures live ==> SeenSince(sockets.open, cut) || RevivedSince(seen, sockets, cut)
    {
      hide SeenSince, RevivedSince;
      TimePasses(z, seen, clock, card);
      AnswerAgainstOpen(z, seen, sockets, cut, card);
      CommandKeepsInv(z, seen, Prune(cut - TTL), card);
      z := Exec(z, Prune(cut - TTL), card);
      live := |Visible(z, card)| > 0;
      clock := card;
    }
  }

  lemma AnswerAgainstOpen(z: ZSet, seen: Seen, s: Sockets, cut: int, t: int)
    requires Inv(z, seen, t) && Agree(seen, s) && cut <= t
    ensures !AnswersLive(z, cut, t) ==> AllGone(seen, t) && AllGone(s.open, t)
    ensures AnswersLive(z, cut, t) ==> SeenSince(s.open, cut) || RevivedSince(seen, s, cut)
  {
    hide Inv, AnswersLive;
    AnswerIsRight(z, seen, cut, t);
    OpenOrRevived(seen, s, cut);
    OpenOrRevived(seen, s, t);
  }

  // ---- a heartbeat after the disconnect ----------------------------------------

  function LiveAll(s: Sockets, cmds: seq<Timed>): Sockets {
    if cmds == [] then s else Live(LiveAll(s, cmds[..|cmds| - 1]), cmds[|cmds| - 1].cmd)
  }

  function TrackAll(seen: Seen, cmds: seq<Timed>): Seen {
    if cmds == [] then seen else Track(TrackAll(seen, cmds[..|cmds| - 1]), cmds[|cmds| - 1].cmd)
  }

  /** The undisconnected sockets of a history. */
  function Open(cmds: seq<Timed>): Seen { LiveAll(Sockets(map[], {}), cmds).open }

  function Closed(cmds: seq<Timed>): set<string> { LiveAll(Sockets(map[], {}), cmds).closed }

  /** The last command to touch a socket was an add at j. */
  predicate LastAdd(cmds: seq<Timed>, id: string, j: int) {
    0 <= j < |cmds| && cmds[j].cmd.AddAndExpire? && cmds[j].cmd.id == id
    && forall k :: j < k < |cmds| ==> !Touches(cmds[k].cmd, id)
  }

  /** The socket was disconnected at i, and a heartbeat at j came after it and still stands. */
  predicate LateBeat(cmds: seq<Timed>, id: string, i: int, j: int) {
    0 <= i < j && LastAdd(cmds, id, j) && cmds[i].cmd == Rem(id)
  }

  ghost predicate Late(cmds: seq<Timed>, id: string) {
    exists i, j :: LateBeat(cmds, id, i, j)
  }

  /** A late heartbeat still within its time to live. */
  ghost predicate LateLive(cmds: seq<Timed>, t: int) {
    exists id, i, j :: LateBeat(cmds, id, i, j) && t < cmds[j].cmd.score + TTL
  }

  lemma {:induction false} AgreeAll(cmds: seq<Timed>)
    ensures Agree(TrackAll(map[], cmds), LiveAll(Sockets(map[], {}), cmds))
  {
    if cmds != [] {
      AgreeAll(cmds[..|cmds| - 1]);
      CommandKeepsAgreement(
        TrackAll(map[], cmds[..|cmds| - 1]), LiveAll(Sockets(map[], {}), cmds[..|cmds| - 1]), cmds[|cmds| - 1].cmd);
    }
  }

  /** An id has disconnected if and only if a command removed it. */
  lemma {:induction false} ClosedIff(cmds: seq<Timed>, id: string)
    ensures id in Closed(cmds) <==> exists i :: 0 <= i < |cmds| && cmds[i].cmd == Rem(id)
  {
    if cmds != [] {
      var front := cmds[..|cmds| - 1];
      ClosedIff(front, id);
      assert forall i :: 0 <= i < |front| ==> front[i] == cmds[i];
      if cmds[|cmds| - 1].cmd != Rem(id) && exists i :: 0 <= i < |cmds| && cmds[i].cmd == Rem(id) {
        var i :| 0 <= i < |cmds| && cmds[i].cmd == Rem(id);
        assert front[i].cmd == Rem(id);
      }
    }
  }

  /** An id is recorded if and only if the last command to touch it was an add. */
  lemma {:induction false} RecordedIff(cmds: seq<Timed>, id: string)
    ensures id in TrackAll(map[], cmds) <==> exists j :: LastAdd(cmds, id, j)
    ensures forall j :: LastAdd(cmds, id, j) ==>
      id in TrackAll(map[], cmds) && TrackAll(map[], cmds)[id] == cmds[j].cmd.score
  {
    if cmds != [] {
      var front, last := cmds[..|cmds| - 1], cmds[|cmds| - 1].cmd;
      RecordedIff(front, id);
      if Touches(last, id) {
        assert last.AddAndExpire? ==> LastAdd(cmds, id, |cmds| - 1);
        assert forall j :: LastAdd(cmds, id, j) ==> j == |cmds| - 1;
      } else {
        assert forall j :: LastAdd(cmds, id, j) <==> LastAdd(front, id, j);
      }
    }
  }

  /** A disconnected socket is recorded again if and only if a heartbeat follows its own
      disconnect and still stands. */
  lemma RevivedIff(cmds: seq<Timed>, id: string)
    ensures id in TrackAll(map[], cmds) && id !in Open(cmds) <==> Late(cmds, id)
    ensures forall i, j :: LateBeat(cmds, id, i, j) ==>
      id in TrackAll(map[], cmds) && TrackAll(map[], cmds)[id] == cmds[j].cmd.score
  {
    hide TrackAll, LiveAll;
    AgreeAll(cmds);
    ClosedIff(cmds, id);
    RecordedIff(cmds, id);
    if id in TrackAll(map[], cmds) && id in Closed(cmds) {
      var i :| 0 <= i < |cmds| && cmds[i].cmd == Rem(id);
      var j :| LastAdd(cmds, id, j);
      assert LateBeat(cmds, id, i, j);
    }
  }

  /** The recorded sockets are the undisconnected ones if and only if no heartbeat that
      follows its socket's own disconnect stands. */
  lemma RecordedIsOpenIff(cmds: seq<Timed>)
    ensures TrackAll(map[], cmds) == Open(cmds) <==> forall id :: !Late(cmds, id)
  {
    hide TrackAll, LiveAll, Late;
    AgreeAll(cmds);
    forall id ensures id in TrackAll(map[], cmds) && id !in Open(cmds) <==> Late(cmds, id) {
      RevivedIff(cmds, id);
    }
    if forall id :: !Late(cmds, id) {
      assert forall id :: id in TrackAll(map[], cmds) <==> id in Open(cmds);
    }
  }

  lemma {:induction false} TrackFront(seen: Seen, cmds: seq<Timed>)
    requires cmds != []
    ensures TrackAll(seen, cmds) == TrackAll(Track(seen, cmds[0].cmd), cmds[1..])
  {
    if |cmds| > 1 {
      TrackFront(seen, cmds[..|cmds| - 1]);
      assert cmds[1..][..|cmds[1..]| - 1] == cmds[..|cmds| - 1][1..];
    }
  }

  lemma {:induction false} RunsTrack(
    z: ZSet, seen: Seen, now: int, cmds: seq<Timed>, z': ZSet, seen': Seen, now': int)
    requires Runs(z, seen, now, cmds, z', seen', now')
    ensures seen' == TrackAll(seen, cmds)
    decreases |cmds|
  {
    hide Exec, Track, Timely;
    if cmds != [] {
      RunsTrack(Exec(z, cmds[0].cmd, cmds[0].at), Track(seen, cmds[0].cmd), cmds[0].at, cmds[1..], z', seen', now');
      TrackFront(seen, cmds);
    }
  }

  /** No socket was last seen exactly the time to live before the answer was worked out. */
  predicate OffBoundary(seen: Seen, cut: int, t: int) {
    forall id :: id in seen ==> !(cut <= seen[id] + TTL <= t)
  }

  /** Some socket was seen strictly within the time to live. */
  ghost predicate SomeLive(seen: Seen, t: int) {
    exists id :: id in seen && t < seen[id] + TTL
  }

  /** In every run: an undisconnected socket within its time to live is always reported;
      another answer than the undisconnected sockets' is given if and only if none of them
      is live and a heartbeat came after its socket's own disconnect and still stands. On
      the very millisecond of an expiry either answer is possible. */
  lemma AnswerIsOpenIff(z: ZSet, cmds: seq<Timed>, z': ZSet, seen': Seen, now: int, cut: int, t: int)
    requires z.members == map[] && Runs(z, map[], now, cmds, z', seen', t) && cut <= t
    ensures SomeLive(Open(cmds), t) ==> AnswersLive(z', cut, t)
    ensures AnswersLive(z', cut, t) ==>
      SeenSince(Open(cmds), cut) || RevivedSince(seen', LiveAll(Sockets(map[], {}), cmds), cut)
    ensures OffBoundary(seen', cut, t) ==>
      ((AnswersLive(z', cut, t) <==> SomeLive(Open(cmds), t)) <==> (LateLive(cmds, t) ==> SomeLive(Open(cmds), t)))
  {
    hide Runs, AnswersLive, LiveAll, TrackAll, LateLive;
    RunsKeepInv(z, map[], now, cmds, z', seen', t);
    RunsTrack(z, map[], now, cmds, z', seen', t);
    AgreeAll(cmds);
    AnswerIsRight(z', seen', cut, t);
    AnswerAgainstOpen(z', seen', LiveAll(Sockets(map[], {}), cmds), cut, t);
    SomeLiveSplits(cmds, t);
  }

  lemma SomeLiveSplits(cmds: seq<Timed>, t: int)
    ensures SomeLive(TrackAll(map[], cmds), t) <==> SomeLive(Open(cmds), t) || LateLive(cmds, t)
  {
    hide TrackAll, LiveAll;
    var seen := TrackAll(map[], cmds);
    AgreeAll(cmds);
    if SomeLive(seen, t) {
      var id :| id in seen && t < seen[id] + TTL;
      RevivedIff(cmds, id);
      if id !in Open(cmds) {
        var i, j :| LateBeat(cmds, id, i, j);
      }
    }
    if LateLive(cmds, t) {
      var id, i, j :| LateBeat(cmds, id, i, j) && t < cmds[j].cmd.score + TTL;
      RevivedIff(cmds, id);
    }
  }

  /** So the answer is that of the undisconnected sockets in every run in which no heartbeat stands that follows
      its socket's own disconnect. */
  lemma OpenSocketsAreSeen(z: ZSet, cmds: seq<Timed>, z': ZSet, seen': Seen, now: int, cut: int, t: int)
    requires z.members == map[] && Runs(z, map[], now, cmds, z', seen', t) && cut <= t
    requires forall id :: !Late(cmds, id)
    ensures SomeLive(Open(cmds), t) ==> AnswersLive(z', cut, t)
    ensures AnswersLive(z', cut, t) ==> SeenSince(Open(cmds), cut)
  {
    hide Runs, AnswersLive, TrackAll, Open, Late;
    LiveSocketsAreSeen(z, cmds, z', seen', now, cut, t);
    RunsTrack(z, map[], now, cmds, z', seen', t);
    RecordedIsOpenIff(cmds);
  }

  /** What Connect and Disconnect report, other processes' commands between prune and count
      included: their count is empty exactly when no undisconnected socket is live, if and
      only if no late heartbeat stands while none is. */
  lemma CountReportsIff(
    z: ZSet, cmds: seq<Timed>, mid: ZSet, seen: Seen, now: int, cut: int, t: int,
    between: seq<Timed>, z': ZSet, seen': Seen, t': int)
    requires z.members == map[] && Runs(z, map[], now, cmds, mid, seen, t) && cut <= t
    requires Runs(Exec(mid, Prune(cut - TTL), t), seen, t, between, z', seen', t')
    requires SampledSince(between, cut - TTL) && OffBoundary(seen', cut, t')
    ensures var before := cmds + between;
      ((Visible(z', t') == map[]) <==> !SomeLive(Open(before), t'))
      <==> (LateLive(before, t') ==> SomeLive(Open(before), t'))
  {
    assert Inv(z, map[], now);
    hide Runs, Open, LateLive, Inv;
    RunsKeepInv(z, map[], now, cmds, mid, seen, t);
    CountIsRight(mid, seen, cut, t, between, z', seen', t');
    RunsTrack(z, map[], now, cmds, mid, seen, t);
    RunsTrack(Exec(mid, Prune(cut - TTL), t), seen, t, between, z', seen', t');
    TrackConcat(map[], cmds, between);
    hide TrackAll;
    SomeLiveSplits(cmds + between, t');
  }

  lemma {:induction false} TrackConcat(seen: Seen, a: seq<Timed>, b: seq<Timed>)
    ensures TrackAll(seen, a + b) == TrackAll(TrackAll(seen, a), b)
  {
    if b == [] {
      assert a + b == a;
    } else {
      TrackConcat(seen, a, b[..|b| - 1]);
      assert (a + b)[..|a + b| - 1] == a + b[..|b| - 1];
    }
  }

  /** A connection opens, closes a second later, and its write pump's next tick still
      records it: a minute on, the user has no connection and reads as live. */
  function ClosedThenTicks(id: string): seq<Timed> {
    [Timed(AddAndExpire(id, 0), 0), Timed(Rem(id), 1_000), Timed(Prune(1_000 - TTL), 1_000), Timed(Del, 1_000),
     Timed(AddAndExpire(id, 20_000), 20_000)]
  }

  lemma ClosedSocketReadsLive(id: string)
    ensures var cmds := ClosedThenTicks(id); var z := ZSet(map[], 0);
      var z' := ZSet(map[id := 20_000], 80_000);
      && Runs(z, map[], 0, cmds, z', map[id := 20_000], 79_000)
      && Open(cmds) == map[] && AnswersLive(z', 79_000, 79_000)
  {
    var cmds := ClosedThenTicks(id);
    var z0, s1 := ZSet(map[], 0), map[id := 0];
    var z1 := ZSet(s1, 60_000);
    var z2 := ZSet(map[], 60_000);
    var z5 := ZSet(map[id := 20_000], 80_000);
    assert Exec(z0, cmds[0].cmd, 0) == z1 && Exec(z1, cmds[1].cmd, 1_000) == z2;
    assert Exec(z2, cmds[2].cmd, 1_000) == z2 && Exec(z2, Del, 1_000) == z2;
    assert Exec(z2, cmds[4].cmd, 20_000) == z5;
    assert Track(s1, Rem(id)) == map[];
    TicksRun(id, z0, z1, z2, z5);
    RevivedIff(cmds, id);
    assert LateBeat(cmds, id, 1, 4);
    OnlyThisId(cmds, id);
    assert id in Above(Visible(z5, 79_000), 79_000 - TTL);
  }

  lemma TicksRun(id: string, z0: ZSet, z1: ZSet, z2: ZSet, z5: ZSet)
    requires z0 == ZSet(map[], 0) && z5 == ZSet(map[id := 20_000], 80_000)
    requires Exec(z0, AddAndExpire(id, 0), 0) == z1 && Exec(z1, Rem(id), 1_000) == z2
    requires Exec(z2, Prune(1_000 - TTL), 1_000) == z2 && Exec(z2, Del, 1_000) == z2
    requires Exec(z2, AddAndExpire(id, 20_000), 20_000) == z5
    ensures Runs(z0, map[], 0, ClosedThenTicks(id), z5, map[id := 20_000], 79_000)
  {
    hide Exec;
    var c := ClosedThenTicks(id);
    assert Track(map[id := 0], Rem(id)) == map[];
    var r4, r3, r2, r1 := c[4..], c[3..], c[2..], c[1..];
    assert r1[1..] == r2 && r2[1..] == r3 && r3[1..] == r4 && r4[1..] == [];
    assert Runs(z2, map[], 1_000, r4, z5, map[id := 20_000], 79_000);
    assert Runs(z2, map[], 1_000, r3, z5, map[id := 20_000], 79_000);
    assert Runs(z2, map[], 1_000, r2, z5, map[id := 20_000], 79_000);
    assert Runs(z1, map[id := 0], 0, r1, z5, map[id := 20_000], 79_000);
  }

  /** Commands about one id leave no other open. */
  lemma {:induction false} OnlyThisId(cmds: seq<Timed>, id: string)
    requires forall k :: 0 <= k < |cmds| && cmds[k].cmd.AddAndExpire? ==> cmds[k].cmd.id == id
    ensures forall x :: x in Open(cmds) ==> x == id
  {
    if cmds == [] {
      assert Open(cmds) == map[];
    } else {
      var front, last := cmds[..|cmds| - 1], cmds[|cmds| - 1].cmd;
      assert last.AddAndExpire? ==> last.id == id;
      OnlyThisId(front, id);
      var s := LiveAll(Sockets(map[], {}), front);
      assert Open(front) == s.open && Open(cmds) == Live(s, last).open;
    }
  }

  // ---- the delete race -------------------------------------------------------

  /** A delete keeps the refinement, and the answer right, if and only if no socket is
      live when it runs. */
  lemma DeleteIsHarmlessIff(z: ZSet, seen: Seen, t: int)
    requires Inv(z, seen, t)
    ensures Inv(Exec(z, Del, t), seen, t) <==> AllGone(seen, t)
    ensures ((exists id :: id in seen && t < seen[id] + TTL) ==> AnswersLive(Exec(z, Del, t), t, t))
       <==> AllGone(seen, t)
  {
    var gone := Exec(z, Del, t);
    assert Visible(gone, t) == map[];
    assert Above(map[], t - TTL) == map[];
    assert !AnswersLive(gone, t, t);
  }

  /** The commands since the count leave a live socket: one of them recorded it, within
      its time to live, and no later one touched it. */
  predicate LeavesLive(cmds: seq<Timed>, t: int) {
    exists i :: 0 <= i < |cmds| && cmds[i].cmd.AddAndExpire? && LeftLiveAt(cmds, t, cmds[i].cmd.id, i)
  }

  predicate Touches(cmd: Command, id: string) {
    (cmd.AddAndExpire? || cmd.Rem?) && cmd.id == id
  }

  /** A socket is in the set after the commands with the score of the last one to touch
      it, if that was an add, and as before if none did. */
  lemma {:induction false} TrackedByLast(seen: Seen, cmds: seq<Timed>, t: int)
    requires AllGone(seen, t)
    ensures AllGone(TrackAll(seen, cmds), t) <==> !LeavesLive(cmds, t)
    ensures forall id :: id in TrackAll(seen, cmds) && t < TrackAll(seen, cmds)[id] + TTL ==> LeftLive(cmds, t, id)
  {
    if cmds != [] {
      var front, last := cmds[..|cmds| - 1], cmds[|cmds| - 1].cmd;
      var before, after := TrackAll(seen, front), TrackAll(seen, cmds);
      TrackedByLast(seen, front, t);
      forall id | id in after && t < after[id] + TTL ensures LeftLive(cmds, t, id) {
        if !Touches(last, id) {
          assert id in before && before[id] == after[id];
          LeftLiveGrows(cmds, t, id);
        } else {
          assert LeftLiveAt(cmds, t, id, |cmds| - 1);
        }
      }
      if LeavesLive(cmds, t) {
        var i :| 0 <= i < |cmds| && cmds[i].cmd.AddAndExpire? && LeftLiveAt(cmds, t, cmds[i].cmd.id, i);
        LastTouchStands(seen, cmds, i);
      }
    }
  }

  predicate LeftLiveAt(cmds: seq<Timed>, t: int, id: string, i: int) {
    LastAdd(cmds, id, i) && t < cmds[i].cmd.score + TTL
  }

  predicate LeftLive(cmds: seq<Timed>, t: int, id: string) {
    exists i :: 0 <= i < |cmds| && LeftLiveAt(cmds, t, id, i)
  }

  lemma LeftLiveGrows(cmds: seq<Timed>, t: int, id: string)
    requires cmds != [] && !Touches(cmds[|cmds| - 1].cmd, id) && LeftLive(cmds[..|cmds| - 1], t, id)
    ensures LeftLive(cmds, t, id)
  {
    var i :| 0 <= i < |cmds| - 1 && LeftLiveAt(cmds[..|cmds| - 1], t, id, i);
    assert LeftLiveAt(cmds, t, id, i);
  }

  lemma {:induction false} LastTouchStands(seen: Seen, cmds: seq<Timed>, i: int)
    requires 0 <= i < |cmds| && cmds[i].cmd.AddAndExpire?
    requires forall j :: i < j < |cmds| ==> !Touches(cmds[j].cmd, cmds[i].cmd.id)
    ensures cmds[i].cmd.id in TrackAll(seen, cmds) && TrackAll(seen, cmds)[cmds[i].cmd.id] == cmds[i].cmd.score
    decreases |cmds|
  {
    if i < |cmds| - 1 {
      LastTouchStands(seen, cmds[..|cmds| - 1], i);
      assert !Touches(cmds[|cmds| - 1].cmd, cmds[i].cmd.id);
    }
  }

  /** Disconnect counts and deletes in two commands. After an empty count and whatever
      commands run in between, its delete is harmless if and only if none of them leaves
      a live socket: one recorded in between, still within its time to live. */
  lemma DeleteRaceIff(z: ZSet, seen: Seen, now: int, cmds: seq<Timed>, z': ZSet, t: int)
    requires Inv(z, seen, now) && Visible(z, now) == map[] && now <= t
    ensures Inv(Exec(z', Del, t), TrackAll(seen, cmds), t) <==> !LeavesLive(cmds, t)
    ensures ((exists id :: id in TrackAll(seen, cmds) && t < TrackAll(seen, cmds)[id] + TTL)
               ==> AnswersLive(Exec(z', Del, t), t, t))
       <==> !LeavesLive(cmds, t)
  {
    hide LeavesLive;
    CountMeansSeen(z, seen, now);
    TrackedByLast(seen, cmds, t);
    var gone := Exec(z', Del, t);
    assert Visible(gone, t) == map[];
    assert Above(map[], t - TTL) == map[];
    assert !AnswersLive(gone, t, t);
  }

  /** So a connection of the same user recorded in between is deleted with the key: a
      socket seen this instant reads as gone. */
  lemma DeleteRace(a: string, b: string, t: int)
    ensures var z := Exec(ZSet(map[a := t], t + TTL), Rem(a), t);
      var cmds := [Timed(AddAndExpire(b, t), t)];
      && Visible(z, t) == map[] && b in TrackAll(map[], cmds)
      && !AnswersLive(Exec(Exec(z, cmds[0].cmd, t), Del, t), t, t)
  {
    var z := Exec(ZSet(map[a := t], t + TTL), Rem(a), t);
    var cmds := [Timed(AddAndExpire(b, t), t)];
    LastTouchStands(map[], cmds, 0);
    assert Above(map[], t - TTL) == map[];
  }
}
