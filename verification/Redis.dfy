/** The few Redis commands the timed protocols use: string keys that expire, on one
    monotone clock. A key whose time has come is gone. */
module Redis {
  import opened Results

  datatype Value = Text(text: string) | Number(n: int)

  /** expires is None for a key without a time to live. */
  datatype Entry = Entry(value: Value, expires: Option<int>)

  datatype Db = Db(now: int, keys: map<string, Entry>) {
    predicate Alive(key: string) {
      key in keys && (keys[key].expires.Some? ==> now < keys[key].expires.value)
    }

    function Get(key: string): Option<Value> {
      if Alive(key) then Some(keys[key].value) else None
    }

    /** SET key value NX PX ttl */
    function SetNX(key: string, value: string, ttl: int): Db {
      if Alive(key) then this else this.(keys := keys[key := Entry(Text(value), Some(now + ttl))])
    }

    /** The unlock script: delete the key only if it still holds the token. */
    function CompareAndDelete(key: string, value: string): Db {
      if Get(key) == Some(Text(value)) then this.(keys := keys - {key}) else this
    }

    /** The count INCR returns; the model keeps counters and tokens under different keys. */
    function Incremented(key: string): int {
      if Alive(key) && keys[key].value.Number? then keys[key].value.n + 1 else 1
    }

    function Pass(dt: nat): Db { this.(now := now + dt) }
  }

  /** After a set-if-absent and a pause: the old value of a key that was live, or the new
      one for exactly its time to live. Other keys notice nothing. */
  lemma SetNXReads(db: Db, key: string, value: string, ttl: int, other: string, dt: nat)
    ensures var after := db.SetNX(key, value, ttl).Pass(dt);
      && after.now == db.now + dt
      && after.Get(key) == (if db.Alive(key) then db.Pass(dt).Get(key)
                            else if dt < ttl then Some(Text(value)) else None)
      && (other != key ==> after.Get(other) == db.Pass(dt).Get(other))
  {
  }

  lemma CompareAndDeleteReads(db: Db, key: string, value: string, other: string)
    ensures var after := db.CompareAndDelete(key, value);
      && after.now == db.now
      && after.Get(key) == (if db.Get(key) == Some(Text(value)) then None else db.Get(key))
      && (other != key ==> after.Get(other) == db.Get(other))
  {
  }

  /** The shared server. Each method is one atomic command. */
  class Server {
    var db: Db

    constructor (now: int)
      ensures db == Db(now, map[])
    {
      db := Db(now, map[]);
    }

    method SetNX(key: string, value: string, ttl: int) returns (ok: bool)
      modifies this
      ensures ok <==> !old(db).Alive(key)
      ensures db == old(db).SetNX(key, value, ttl)
    {
      ok := !db.Alive(key);
      if ok {
        db := db.(keys := db.keys[key := Entry(Text(value), Some(db.now + ttl))]);
      }
    }

    method CompareAndDelete(key: string, value: string)
      modifies this
      ensures db == old(db).CompareAndDelete(key, value)
    {
      if db.Get(key) == Some(Text(value)) {
        db := db.(keys := db.keys - {key});
      }
    }

    /** Counts a live counter up and keeps its expiry, or starts one at 1 without any. */
    method Incr(key: string) returns (count: int)
      modifies this
      ensures count == old(db).Incremented(key) && db.Get(key) == Some(Number(count))
      ensures db.keys[key].expires == if old(db).Alive(key) then old(db).keys[key].expires else None
      ensures forall dt: nat :: db.Pass(dt).Alive(key) <==> (old(db).Alive(key) ==> old(db).Pass(dt).Alive(key))
      ensures OthersKept(old(db), db, key)
    {
      count := 1;
      var expires := None;
      if db.Alive(key) {
        expires := db.keys[key].expires;
        if db.keys[key].value.Number? {
          count := db.keys[key].value.n + 1;
        }
      }
      db := db.(keys := db.keys[key := Entry(Number(count), expires)]);
    }

    /** A live key lives on for exactly ttl; a dead one stays dead. */
    method Expire(key: string, ttl: int)
      modifies this
      ensures forall dt: nat :: db.Pass(dt).Alive(key) <==> old(db).Alive(key) && dt < ttl
      ensures old(db).Alive(key) ==>
        key in db.keys && db.keys[key] == Entry(old(db).keys[key].value, Some(db.now + ttl))
      ensures !old(db).Alive(key) ==> db == old(db)
      ensures OthersKept(old(db), db, key)
    {
      if db.Alive(key) {
        db := db.(keys := db.keys[key := Entry(db.keys[key].value, Some(db.now + ttl))]);
      }
    }
  }

  /** Only the one key may differ, and no time has passed. */
  ghost predicate OthersKept(before: Db, after: Db, key: string) {
    before.now == after.now && before.keys - {key} == after.keys - {key}
  }

  lemma OneKeyChanged(before: Db, after: Db, key: string)
    requires OthersKept(before, after, key) && key in after.keys
    ensures after == before.(keys := before.keys[key := after.keys[key]])
  {
    forall k | k != key ensures k in before.keys <==> k in after.keys {
      assert k in before.keys - {key} <==> k in after.keys - {key};
    }
    forall k | k != key && k in before.keys ensures before.keys[k] == after.keys[k] {
      assert (before.keys - {key})[k] == (after.keys - {key})[k];
    }
  }
}
