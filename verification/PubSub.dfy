/** The cross-node transport (infra/realtime/pubsub.go): one shared channel that
    every node reads in order and hands to its own hub. */
module PubSub {
  import opened Results
  import opened Hub

  /** JSON encoding of a message, with its failures. */
  datatype Codec = Codec(encode: Message -> Option<string>, decode: string -> Option<Message>)
  {
    ghost predicate RoundTrips() {
      forall m :: encode(m).Some? ==> decode(encode(m).value) == Some(m)
    }
  }

  /** The raw messages published so far. */
  class Channel {
    var raws: seq<string>

    constructor ()
      ensures raws == []
    {
      raws := [];
    }

    /** All the messages in order, or none when one does not encode. */
    method PublishBatch(codec: Codec, msgs: seq<Message>) returns (ok: bool)
      modifies this
      ensures ok <==> forall m :: m in msgs ==> codec.encode(m).Some?
      ensures ok ==> raws == old(raws) + seq(|msgs|, i requires 0 <= i < |msgs| && codec.encode(msgs[i]).Some? =>
                                                codec.encode(msgs[i]).value)
      ensures !ok ==> raws == old(raws)
    {
      var batch: seq<string> := [];
      for i := 0 to |msgs|
        invariant |batch| == i
        invariant forall k :: 0 <= k < i ==> codec.encode(msgs[k]) == Some(batch[k])
      {
        var raw := codec.encode(msgs[i]);
        if raw.None? {
          assert msgs[i] in msgs;
          return false;
        }
        batch := batch + [raw.value];
      }
      raws := raws + batch;
      ok := true;
    }
  }

  /** The messages a node recovers: what does not decode is skipped. */
  function Decoded(codec: Codec, raws: seq<string>): seq<Message> {
    if raws == [] then []
    else
      var front, last := Decoded(codec, raws[..|raws| - 1]), codec.decode(raws[|raws| - 1]);
      if last.Some? then front + [last.value] else front
  }

  /** What a mailbox whose owner follows the given topics becomes. */
  function Receive(box: Mailbox<Message>, capacity: nat, topics: set<string>, msgs: seq<Message>): Mailbox<Message> {
    if msgs == [] then box
    else
      var before, last := Receive(box, capacity, topics, msgs[..|msgs| - 1]), msgs[|msgs| - 1];
      if last.topic in topics then Offer(before, capacity, last) else before
  }

  /** The receive loop: every client is offered the messages of its topics, in order,
      and no others. */
  method Run(hub: Hub, codec: Codec, raws: seq<string>)
    requires hub.Valid()
    modifies hub.known`send, hub.known`resync
    ensures hub.Valid()
    ensures forall c :: c in hub.known ==>
      c.Box() == Receive(old(c.Box()), c.capacity, c.topics, Decoded(codec, raws))
  {
    for i := 0 to |raws|
      invariant hub.Valid()
      invariant forall c :: c in hub.known ==>
        c.Box() == Receive(old(c.Box()), c.capacity, c.topics, Decoded(codec, raws[..i]))
    {
      assert raws[..i + 1][..i] == raws[..i];
      var decoded := codec.decode(raws[i]);
      if decoded.None? {
        continue;
      }
      var msg := decoded.value;
      assert forall c :: c in hub.known ==> (c in Subs(hub.clients, msg.topic) <==> msg.topic in c.topics);
      hub.Deliver(msg);
      assert Decoded(codec, raws[..i + 1])[..|Decoded(codec, raws[..i])|] == Decoded(codec, raws[..i]);
    }
    assert raws[..|raws|] == raws;
  }

  /** Every node recovers a published batch whole and in order. */
  lemma {:induction false} BatchArrives(codec: Codec, msgs: seq<Message>, raws: seq<string>)
    requires codec.RoundTrips() && |raws| == |msgs|
    requires forall i :: 0 <= i < |msgs| ==> codec.encode(msgs[i]) == Some(raws[i])
    ensures Decoded(codec, raws) == msgs
  {
    if msgs != [] {
      var n := |msgs| - 1;
      BatchArrives(codec, msgs[..n], raws[..n]);
      assert codec.encode(msgs[n]).Some?;
      assert msgs == msgs[..n] + [msgs[n]];
    }
  }

  lemma {:induction false} DecodedAppends(codec: Codec, a: seq<string>, b: seq<string>)
    ensures Decoded(codec, a + b) == Decoded(codec, a) + Decoded(codec, b)
  {
    if b == [] {
      assert a + b == a;
    } else {
      var front, c := b[..|b| - 1], a + b;
      DecodedAppends(codec, a, front);
      assert c[..|c| - 1] == a + front && c[|c| - 1] == b[|b| - 1];
    }
  }

  /** A message that does not decode costs no other. */
  lemma SkipsOnlyUndecodable(codec: Codec, a: seq<string>, raw: string, b: seq<string>)
    ensures Decoded(codec, a + [raw] + b)
         == Decoded(codec, a) + (if codec.decode(raw).Some? then [codec.decode(raw).value] else []) + Decoded(codec, b)
  {
    DecodedAppends(codec, a + [raw], b);
    DecodedAppends(codec, a, [raw]);
    assert [raw][..0] == [];
  }

  /** The messages of the followed topics. */
  function Wanted(topics: set<string>, msgs: seq<Message>): seq<Message> {
    if msgs == [] then []
    else
      var front, last := Wanted(topics, msgs[..|msgs| - 1]), msgs[|msgs| - 1];
      if last.topic in topics then front + [last] else front
  }

  /** An unread buffer keeps the first messages up to its capacity, and the resync signal
      is raised if and only if there were more. */
  lemma {:induction false} FillsThenSignals(capacity: nat, topics: set<string>, msgs: seq<Message>)
    ensures var box := Receive(Mailbox([], false), capacity, topics, msgs); var wanted := Wanted(topics, msgs);
      && box.queue == (if |wanted| <= capacity then wanted else wanted[..capacity])
      && (box.resync <==> |wanted| > capacity)
  {
    if msgs != [] {
      FillsThenSignals(capacity, topics, msgs[..|msgs| - 1]);
    }
  }
}
