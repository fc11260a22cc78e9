/** The token lock (infra/redis/lock.go): set-if-absent with a time to live, and a
    release that only the owner's token can perform. */
module Lock {
  import opened Results
  import opened Redis

  datatype Outcome = Acquired | Busy | Unavailable

  /** token is freshly minted for this call; reachable is false on a Redis error. */
  method Acquire(server: Server, key: string, token: string, ttl: int, reachable: bool) returns (out: Outcome)
    modifies server
    ensures out == if !reachable then Unavailable else if old(server.db).Alive(key) then Busy else Acquired
    ensures server.db == if reachable then old(server.db).SetNX(key, token, ttl) else old(server.db)
  {
    if !reachable {
      return Unavailable;
    }
    var ok := server.SetNX(key, token, ttl);
    out := if ok then Acquired else Busy;
  }

  /** Best effort: an unreachable server leaves the key to its expiry. */
  method Release(server: Server, key: string, token: string, reachable: bool)
    modifies server
    ensures server.db == if reachable then old(server.db).CompareAndDelete(key, token) else old(server.db)
    ensures reachable && old(server.db).Get(key) == Some(Text(token)) ==> key !in server.db.keys
    ensures !(reachable && old(server.db).Get(key) == Some(Text(token))) ==> server.db == old(server.db)
    ensures OthersKept(old(server.db), server.db, key)
  {
    if reachable {
      server.CompareAndDelete(key, token);
    }
  }

  // ---- runs --------------------------------------------------------------

  /** One successful acquisition: it lasts until it is released or expires. */
  datatype Hold = Hold(key: string, at: int, until: int)

  /** issued and holds are history. */
  datatype World = World(db: Db, issued: set<string>, holds: map<string, Hold>)

  datatype Op =
    | Take(key: string, token: string, ttl: int)
    | Give(key: string, token: string)
    | Wait(dt: nat)

  predicate Fresh(w: World, op: Op) {
    op.Take? ==> op.ttl > 0 && op.token !in w.issued
  }

  function Apply(w: World, op: Op): World {
    match op
    case Take(key, token, ttl) =>
      World(w.db.SetNX(key, token, ttl), w.issued + {token},
            if w.db.Alive(key) then w.holds else w.holds[token := Hold(key, w.db.now, w.db.now + ttl)])
    case Give(key, token) =>
      World(w.db.CompareAndDelete(key, token), w.issued,
            if w.db.Get(key) == Some(Text(token)) && token in w.holds
            then w.holds[token := w.holds[token].(until := w.db.now)] else w.holds)
    case Wait(dt) => w.(db := w.db.Pass(dt))
  }

  /** A free key is always taken, for exactly its time to live. */
  lemma TakeTakes(w: World, key: string, token: string, ttl: int, dt: nat)
    requires !w.db.Alive(key)
    ensures var w' := Apply(w, Take(key, token, ttl));
      && token in w'.holds && w'.holds[token] == Hold(key, w.db.now, w.db.now + ttl) && token in w'.issued
      && w'.db.Pass(dt).Get(key) == if dt < ttl then Some(Text(token)) else None
  {
    SetNXReads(w.db, key, token, ttl, key, dt);
  }

  /** A taken one is left alone. */
  lemma TakeWaits(w: World, key: string, token: string, ttl: int)
    requires w.db.Alive(key)
    ensures var w' := Apply(w, Take(key, token, ttl)); w'.db == w.db && w'.holds == w.holds
  {
  }

  /** Two holds of one key never share an instant. */
  ghost predicate NeverOverlap(w: World) {
    forall a, b :: a in w.holds && b in w.holds && a != b && w.holds[a].key == w.holds[b].key ==>
      w.holds[a].until <= w.holds[b].at || w.holds[b].until <= w.holds[a].at
  }

  /** A stored token has a hold of that key, ending when the key expires. */
  ghost predicate KeyOk(w: World, k: string) {
    k in w.db.keys ==>
      && w.db.keys[k].value.Text? && w.db.keys[k].value.text in w.holds
      && w.holds[w.db.keys[k].value.text].key == k
      && w.db.keys[k].expires == Some(w.holds[w.db.keys[k].value.text].until)
  }

  /** A hold that is still running has its token stored. */
  ghost predicate HoldOk(w: World, a: string) {
    a in w.holds ==>
      && a in w.issued && w.holds[a].at <= w.db.now
      && (w.db.now < w.holds[a].until ==>
            w.holds[a].key in w.db.keys && w.db.keys[w.holds[a].key].value == Text(a))
  }

  ghost predicate Inv(w: World) {
    NeverOverlap(w) && (forall k :: KeyOk(w, k)) && (forall a :: HoldOk(w, a))
  }

  lemma FreeMeansEnded(w: World, key: string, a: string)
    requires Inv(w) && !w.db.Alive(key) && a in w.holds && w.holds[a].key == key
    ensures w.holds[a].until <= w.db.now
  {
    hide NeverOverlap;
    assert KeyOk(w, key) && HoldOk(w, a);
  }

  lemma TakeNeverOverlaps(w: World, token: string, h: Hold)
    requires NeverOverlap(w) && token !in w.holds
    requires forall a :: a in w.holds && w.holds[a].key == h.key ==> w.holds[a].until <= h.at
    ensures NeverOverlap(w.(holds := w.holds[token := h]))
  {
  }

  lemma TakeKeepsInv(w: World, key: string, token: string, ttl: int)
    requires Inv(w) && ttl > 0 && token !in w.issued
    ensures Inv(Apply(w, Take(key, token, ttl)))
  {
    var w' := Apply(w, Take(key, token, ttl));
    assert token !in w.holds by {
      assert HoldOk(w, token);
    }
    if !w.db.Alive(key) {
      forall a | a in w.holds && w.holds[a].key == key ensures w.holds[a].until <= w.db.now {
        FreeMeansEnded(w, key, a);
      }
      TakeNeverOverlaps(w, token, Hold(key, w.db.now, w.db.now + ttl));
      assert w'.holds == w.(holds := w.holds[token := Hold(key, w.db.now, w.db.now + ttl)]).holds;
    }
    hide NeverOverlap, Inv;
    forall k ensures KeyOk(w', k) {
      assert KeyOk(w, k);
    }
    forall a ensures HoldOk(w', a) {
      assert HoldOk(w, a);
    }
    InvFromParts(w');
  }

  lemma InvFromParts(w: World)
    requires NeverOverlap(w) && (forall k :: KeyOk(w, k)) && (forall a :: HoldOk(w, a))
    ensures Inv(w)
  {
  }

  lemma InvParts(w: World, k: string, a: string)
    requires Inv(w)
    ensures NeverOverlap(w) && KeyOk(w, k) && HoldOk(w, a)
  {
  }

  lemma GiveKeepsInv(w: World, key: string, token: string)
    requires Inv(w)
    ensures Inv(Apply(w, Give(key, token)))
  {
    hide Inv;
    var w' := Apply(w, Give(key, token));
    InvParts(w, key, token);
    if w.db.Get(key) == Some(Text(token)) {
      assert w.holds[token].key == key && w.db.now <= w.holds[token].until;
      assert NeverOverlap(w');
      hide NeverOverlap;
      forall k ensures KeyOk(w', k) {
        InvParts(w, k, token);
      }
      forall a ensures HoldOk(w', a) {
        InvParts(w, key, a);
      }
      InvFromParts(w');
    }
  }

  lemma WaitKeepsInv(w: World, dt: nat)
    requires Inv(w)
    ensures Inv(Apply(w, Wait(dt)))
  {
    var w' := Apply(w, Wait(dt));
    assert forall k :: KeyOk(w, k) ==> KeyOk(w', k);
    assert forall a :: HoldOk(w, a) ==> HoldOk(w', a);
  }

  lemma StepKeepsInv(w: World, op: Op)
    requires Inv(w) && Fresh(w, op)
    ensures Inv(Apply(w, op))
  {
    hide Inv, Apply;
    match op
    case Take(key, token, ttl) => TakeKeepsInv(w, key, token, ttl);
    case Give(key, token) => GiveKeepsInv(w, key, token);
    case Wait(dt) => WaitKeepsInv(w, dt);
  }

  ghost predicate Runs(w: World, ops: seq<Op>, w': World)
    decreases |ops|
  {
    if ops == [] then w == w' else Fresh(w, ops[0]) && Runs(Apply(w, ops[0]), ops[1..], w')
  }

  lemma {:induction false} RunsKeepInv(w: World, ops: seq<Op>, w': World)
    requires Inv(w) && Runs(w, ops, w')
    ensures Inv(w')
    decreases |ops|
  {
    hide Inv, Apply, Fresh;
    if ops != [] {
      StepKeepsInv(w, ops[0]);
      RunsKeepInv(Apply(w, ops[0]), ops[1..], w');
    }
  }

  predicate Start(w: World) {
    w.db.keys == map[] && w.issued == {} && w.holds == map[]
  }

  /** Critical sections that finish within their hold exclude each other, in every
      run of acquisitions, releases and waits. */
  lemma SectionsExclude(
    w: World, ops: seq<Op>, w': World, a: string, b: string, in1: int, out1: int, in2: int, out2: int)
    requires Start(w) && Runs(w, ops, w')
    requires a in w'.holds && b in w'.holds && a != b && w'.holds[a].key == w'.holds[b].key
    requires w'.holds[a].at <= in1 <= out1 <= w'.holds[a].until
    requires w'.holds[b].at <= in2 <= out2 <= w'.holds[b].until
    ensures out1 <= in2 || out2 <= in1
  {
    hide Runs;
    RunsKeepInv(w, ops, w');
  }

  /** At every point of every run, a key has at most one token whose hold is running,
      and it is the one stored. */
  lemma OneOwner(w: World, ops: seq<Op>, w': World, a: string)
    requires Start(w) && Runs(w, ops, w') && a in w'.holds
    ensures w'.db.Get(w'.holds[a].key) == Some(Text(a)) <==> w'.db.now < w'.holds[a].until
  {
    hide Runs;
    RunsKeepInv(w, ops, w');
    InvParts(w', w'.holds[a].key, a);
  }

  /** Releasing one token never ends another's hold. */
  lemma ReleaseSparesOthers(w: World, ops: seq<Op>, w': World, key: string, token: string, owner: string)
    requires Start(w) && Runs(w, ops, w')
    requires owner in w'.holds && owner != token && w'.db.now < w'.holds[owner].until
    ensures var after := Apply(w', Give(key, token));
      after.db.Get(w'.holds[owner].key) == Some(Text(owner)) && after.holds[owner] == w'.holds[owner]
  {
    hide Runs;
    RunsKeepInv(w, ops, w');
    OneOwner(w, ops, w', owner);
  }
}
