/** Confirmations as they run: each storage and repository call of Confirm is a step, and
    any number of confirmations, reservations, uploads and inbound files interleave
    (domain/attachments/service/service.go). */
module Confirmations {
  import opened Results
  import opened Text
  import opened Attachments

  /** How far a confirmation has got: the record read and access checked, the object
      found, the audio converted in memory, the new object stored, or only the record
      left to write. */
  datatype Phase = Loaded | Checked | Remuxed(ogg: string) | Stored(ogg: string) | Ending

  /** a is the record in memory. */
  datatype Confirmation = Confirmation(id: string, a: Attachment, phase: Phase)

  datatype State = State(w: World, running: map<nat, Confirmation>)

  datatype Step =
    | Load(p: nat, id: string, access: Access, message: MessageRef)
    | Check(p: nat, existsOk: bool)
    | Convert(p: nat, readOk: bool, ogg: Option<string>)
    | Store(p: nat, putOk: bool)
    | Delete(p: nat, deleteOk: bool)
    | Write(p: nat, updateOk: bool)
    | Crash(p: nat)
    | Other(op: Op)

  /** A refused load leaves nothing behind and is no step. */
  predicate Enabled(s: State, step: Step) {
    match step
    case Load(p, id, access, m) =>
      p !in s.running && id in s.w.records && Authorize(access, s.w.records[id]).None?
      && !m.Unknown? && (m.InConversation? ==> m.conversation == s.w.records[id].conversation)
    case Check(p, _) => p in s.running && s.running[p].phase.Loaded?
    case Convert(p, _, _) => p in s.running && s.running[p].phase.Checked?
    case Store(p, _) => p in s.running && s.running[p].phase.Remuxed?
    case Delete(p, _) => p in s.running && s.running[p].phase.Stored?
    case Write(p, _) => p in s.running && s.running[p].phase.Ending?
    case Crash(p) => p in s.running
    case Other(op) => !op.Finish? && Fresh(s.w, op)
  }

  function Goes(s: State, p: nat, phase: Phase): State
    requires p in s.running
  {
    s.(running := s.running[p := s.running[p].(phase := phase)])
  }

  function Stops(s: State, p: nat): State {
    s.(running := s.running - {p})
  }

  function Swapped(a: Attachment, ogg: string): Attachment {
    a.(storageKey := SwapToOgg(a.storageKey), filename := SwapToOgg(a.filename),
       contentType := "audio/ogg", size := |ogg|)
  }

  function Apply(s: State, step: Step): State
    requires Enabled(s, step)
  {
    match step
    case Load(p, id, _, m) =>
      s.(running := s.running[p := Confirmation(id, WithMessage(s.w.records[id], m), Loaded)])
    case Check(p, existsOk) =>
      var c := s.running[p];
      if !existsOk || c.a.storageKey !in s.w.objects then Stops(s, p)
      else s.(running := s.running[p := c.(a := WithType(c.a), phase := Checked)])
    case Convert(p, readOk, ogg) =>
      var a := s.running[p].a;
      if NeedsOggConversion(a.contentType) && readOk && a.storageKey in s.w.objects && ogg.Some?
      then Goes(s, p, Remuxed(ogg.value)) else Goes(s, p, Ending)
    case Store(p, putOk) =>
      var c := s.running[p];
      if !putOk then Goes(s, p, Ending)
      else
        Goes(s.(w := s.w.(objects := s.w.objects[SwapToOgg(c.a.storageKey) := c.phase.ogg])), p, Stored(c.phase.ogg))
    case Delete(p, deleteOk) =>
      var c := s.running[p];
      var key := c.a.storageKey;
      State(if SwapToOgg(key) != key && deleteOk then s.w.(objects := s.w.objects - {key}) else s.w,
            s.running[p := Confirmation(c.id, Swapped(c.a, c.phase.ogg), Ending)])
    case Write(p, updateOk) =>
      var c := s.running[p];
      var stopped := Stops(s, p);
      if updateOk then stopped.(w := s.w.(records := s.w.records[c.id := c.a.(status := Ready)])) else stopped
    case Crash(p) => Stops(s, p)
    case Other(op) => s.(w := Attachments.Apply(s.w, op))
  }

  // ---- when it is safe ---------------------------------------------------------

  predicate Convertible(a: Attachment) {
    NeedsOggConversion(a.contentType) && SwapToOgg(a.storageKey) != a.storageKey
  }

  /** It may yet delete the object its record names. */
  predicate MayDelete(c: Confirmation) { Convertible(c.a) && !c.phase.Ending? }

  /** It may yet write its record with the key it holds now. */
  predicate MayKeep(c: Confirmation) { !c.phase.Stored? }

  /** What always holds: keys carry their records' ids, and a stored conversion is there. */
  ghost predicate RunOk(s: State, p: nat) {
    p in s.running ==>
      var c := s.running[p];
      && c.id in s.w.records && Fits(c.a, c.id)
      && (c.phase.Remuxed? || c.phase.Stored? ==> NeedsOggConversion(c.a.contentType))
      && (c.phase.Stored? ==> SwapToOgg(c.a.storageKey) in s.w.objects)
  }

  ghost predicate Good(s: State) {
    (forall x :: RecordOk(s.w, x)) && forall p: nat :: RunOk(s, p)
  }

  /** No confirmation may delete the object a ready record names. */
  predicate SparesRecord(s: State, p: nat) {
    p in s.running && MayDelete(s.running[p]) && s.running[p].id in s.w.records ==>
      var a := s.w.records[s.running[p].id];
      !(Owned(a) && a.storageKey == s.running[p].a.storageKey)
  }

  /** No confirmation may delete an object that another may yet write a record for. */
  predicate SparesRun(s: State, p: nat, q: nat) {
    p != q && p in s.running && q in s.running && MayDelete(s.running[p]) && MayKeep(s.running[q]) ==>
      s.running[p].a.storageKey != s.running[q].a.storageKey
  }

  /** Past its check, a confirmation that may keep its key finds the object there. */
  predicate KeepsObject(s: State, q: nat) {
    q in s.running && !s.running[q].phase.Loaded? && MayKeep(s.running[q]) && s.running[q].a.conversation != "" ==>
      s.running[q].a.storageKey in s.w.objects
  }

  ghost predicate Safe(s: State) {
    && ReadyHaveObjects(s.w)
    && (forall p: nat :: SparesRecord(s, p))
    && (forall p: nat, q: nat :: SparesRun(s, p, q))
    && (forall q: nat :: KeepsObject(s, q))
  }

  /** What a load needs to be safe, read off the record and the confirmations running: a
      recording still to be converted must not be ready, nor another confirmation hold its
      key; and none may be about to delete the object. */
  predicate SafeLoad(s: State, id: string)
    requires id in s.w.records
  {
    var a := s.w.records[id];
    && (forall q :: q in s.running && MayDelete(s.running[q]) ==> s.running[q].a.storageKey != a.storageKey)
    && (Convertible(a) ==>
          && !Owned(a)
          && forall q :: q in s.running && MayKeep(s.running[q]) ==> s.running[q].a.storageKey != a.storageKey)
  }

  // ---- keys --------------------------------------------------------------------

  lemma SwapTwice(name: string)
    ensures SwapToOgg(SwapToOgg(name)) == SwapToOgg(name)
  {
    var i := LastIndexOf(name, '.');
    var head := if i >= 0 then name[..i] else name;
    assert '.' !in "ogg";
    assert SwapToOgg(name) == head + ['.'] + "ogg" by { assert ".ogg" == ['.'] + "ogg"; }
    LastIndexOfJoined(head, '.', "ogg");
    assert (head + ['.'] + "ogg")[..|head|] == head;
  }

  /** Records with the same conversation key are the same record. */
  lemma SameKeySameId(a: Attachment, id: string, b: Attachment, other: string)
    requires Fits(a, id) && Fits(b, other) && a.conversation != "" && a.storageKey == b.storageKey
    ensures id == other && b.conversation != ""
  {
    hide NeedsOggConversion, KeyOf, Prefix;
    if b.conversation == "" {
      var rest :| b.storageKey == "avatars" + ['/'] + rest;
      NotAnAvatarKey(a, a.storageKey, rest);
    } else {
      KeysAreApart(a, b, a.storageKey);
    }
  }

  lemma ConvertibleIsOwned(a: Attachment, id: string)
    requires Fits(a, id) && NeedsOggConversion(a.contentType)
    ensures a.conversation != ""
  {
    hide NeedsOggConversion, KeyOf;
  }

  lemma TypedConverts(a: Attachment)
    ensures Convertible(WithType(a)) <==> Convertible(a)
    ensures WithType(a).storageKey == a.storageKey && WithType(a).conversation == a.conversation
  {
    TypeForConversion(a);
    hide NeedsOggConversion, SwapToOgg, TrimSpace;
  }

  lemma LinkedConverts(a: Attachment, m: MessageRef)
    ensures Convertible(WithMessage(a, m)) <==> Convertible(a)
    ensures WithMessage(a, m).storageKey == a.storageKey && WithMessage(a, m).conversation == a.conversation
  {
    hide NeedsOggConversion, SwapToOgg;
  }

  // ---- what every step keeps -----------------------------------------------------

  lemma GoodAt(s: State, x: string, p: nat)
    requires Good(s)
    ensures RecordOk(s.w, x) && RunOk(s, p)
  {
  }

  lemma SafeAt(s: State, p: nat, q: nat)
    requires Safe(s)
    ensures SparesRecord(s, p) && SparesRun(s, p, q) && KeepsObject(s, q)
  {
  }

  /** Steps that only move one confirmation on, or end it. */
  lemma QuietStep(s: State, step: Step)
    requires Good(s) && Enabled(s, step) && (step.Check? || step.Convert? || step.Crash?)
    ensures Good(Apply(s, step)) && (Safe(s) ==> Safe(Apply(s, step)))
  {
    hide Fits, RecordOk, Convertible, NeedsOggConversion, WithType, Good, Safe;
    var t := Apply(s, step);
    var c := s.running[step.p];
    GoodAt(s, c.id, step.p);
    TypedConverts(c.a);
    TypedFits(c.a, NoMessage, c.id);
    assert WithMessage(c.a, NoMessage) == c.a;
    forall x ensures RecordOk(t.w, x) { GoodAt(s, x, 0); }
    forall p: nat ensures RunOk(t, p) { GoodAt(s, c.id, p); }
    GoodFromParts(t);
    if Safe(s) {
      SafeReady(s);
      forall p: nat ensures SparesRecord(t, p) { SafeAt(s, p, p); }
      forall p: nat, q: nat ensures SparesRun(t, p, q) { SafeAt(s, p, q); }
      forall q: nat ensures KeepsObject(t, q) { SafeAt(s, q, q); }
      SafeFromParts(t);
    }
  }

  lemma GoodFromParts(s: State)
    requires (forall x :: RecordOk(s.w, x)) && forall p: nat :: RunOk(s, p)
    ensures Good(s)
  {
    hide RecordOk, RunOk;
  }

  lemma SafeReady(s: State)
    requires Safe(s)
    ensures ReadyHaveObjects(s.w)
  {
    hide SparesRecord, SparesRun, KeepsObject;
  }

  lemma SafeFromParts(s: State)
    requires ReadyHaveObjects(s.w) && (forall p: nat :: SparesRecord(s, p))
    requires (forall p: nat, q: nat :: SparesRun(s, p, q)) && (forall q: nat :: KeepsObject(s, q))
    ensures Safe(s)
  {
    hide SparesRecord, SparesRun, KeepsObject;
  }

  lemma StoreStep(s: State, step: Step)
    requires Good(s) && Enabled(s, step) && step.Store?
    ensures Good(Apply(s, step)) && (Safe(s) ==> Safe(Apply(s, step)))
  {
    hide Fits, Convertible, NeedsOggConversion, SwapToOgg, Good, Safe;
    var t := Apply(s, step);
    var c := s.running[step.p];
    GoodAt(s, c.id, step.p);
    forall x ensures RecordOk(t.w, x) { GoodAt(s, x, 0); }
    forall p: nat ensures RunOk(t, p) { GoodAt(s, c.id, p); }
    GoodFromParts(t);
    if Safe(s) {
      SafeReady(s);
      forall p: nat ensures SparesRecord(t, p) { SafeAt(s, p, p); }
      forall p: nat, q: nat ensures SparesRun(t, p, q) { SafeAt(s, p, q); }
      forall q: nat ensures KeepsObject(t, q) { SafeAt(s, q, q); }
      SafeFromParts(t);
    }
  }

  lemma SwappedFits(a: Attachment, ogg: string, id: string)
    requires Fits(a, id) && a.conversation != ""
    ensures Fits(Swapped(a, ogg), id)
  {
    SwapKeepsKey(a, a.storageKey);
    hide NeedsOggConversion, SwapToOgg;
  }

  lemma DeleteKeepsGood(s: State, step: Step)
    requires Good(s) && Enabled(s, step) && step.Delete?
    ensures Good(Apply(s, step))
  {
    hide Fits, NeedsOggConversion, SwapToOgg, Good;
    var t := Apply(s, step);
    var c := s.running[step.p];
    GoodAt(s, c.id, step.p);
    ConvertibleIsOwned(c.a, c.id);
    SwappedFits(c.a, c.phase.ogg, c.id);
    forall x ensures RecordOk(t.w, x) { GoodAt(s, x, 0); }
    forall p: nat ensures RunOk(t, p) {
      GoodAt(s, c.id, p);
      if p in s.running { SwapTwice(s.running[p].a.storageKey); }
    }
    GoodFromParts(t);
  }

  lemma DeleteKeepsSafe(s: State, step: Step)
    requires Good(s) && Safe(s) && Enabled(s, step) && step.Delete?
    ensures Safe(Apply(s, step))
  {
    hide Fits, NeedsOggConversion, SwapToOgg, Good, Safe;
    var t := Apply(s, step);
    var c := s.running[step.p];
    GoodAt(s, c.id, step.p);
    ConvertibleIsOwned(c.a, c.id);
    SwapTwice(c.a.storageKey);
    SafeReady(s);
    forall x | x in t.w.records && Owned(t.w.records[x]) ensures t.w.records[x].storageKey in t.w.objects {
      GoodAt(s, x, 0);
      SafeAt(s, step.p, step.p);
      if t.w.records[x].storageKey == c.a.storageKey {
        SameKeySameId(c.a, c.id, t.w.records[x], x);
      }
    }
    forall p: nat ensures SparesRecord(t, p) { SafeAt(s, p, p); }
    forall p: nat, q: nat ensures SparesRun(t, p, q) { SafeAt(s, p, q); }
    forall q: nat ensures KeepsObject(t, q) { SafeAt(s, step.p, q); }
    SafeFromParts(t);
  }

  lemma StillFits(a: Attachment, m: MessageRef, id: string)
    requires Fits(a, id)
    ensures Fits(WithMessage(a, m), id) && Fits(a.(status := Ready), id)
  {
    hide NeedsOggConversion;
    assert KeyOf(a, a.storageKey) ==> KeyOf(a.(status := Ready), a.storageKey);
  }

  lemma WriteStep(s: State, step: Step)
    requires Good(s) && Enabled(s, step) && step.Write?
    ensures Good(Apply(s, step)) && (Safe(s) ==> Safe(Apply(s, step)))
  {
    hide Convertible, NeedsOggConversion, Fits, Good, Safe;
    var t := Apply(s, step);
    var c := s.running[step.p];
    GoodAt(s, c.id, step.p);
    StillFits(c.a, NoMessage, c.id);
    forall x ensures RecordOk(t.w, x) { GoodAt(s, x, 0); }
    forall p: nat ensures RunOk(t, p) { GoodAt(s, c.id, p); }
    GoodFromParts(t);
    if Safe(s) {
      SafeReady(s);
      SafeAt(s, step.p, step.p);
      forall p: nat ensures SparesRecord(t, p) { SafeAt(s, p, step.p); }
      forall p: nat, q: nat ensures SparesRun(t, p, q) { SafeAt(s, p, q); }
      forall q: nat ensures KeepsObject(t, q) { SafeAt(s, q, q); }
      SafeFromParts(t);
    }
  }

  lemma LoadKeepsGood(s: State, step: Step)
    requires Good(s) && Enabled(s, step) && step.Load?
    ensures Good(Apply(s, step))
  {
    hide Convertible, NeedsOggConversion, Fits, Good;
    var t := Apply(s, step);
    GoodAt(s, step.id, 0);
    StillFits(s.w.records[step.id], step.message, step.id);
    forall x ensures RecordOk(t.w, x) { GoodAt(s, x, 0); }
    forall p: nat ensures RunOk(t, p) { GoodAt(s, step.id, p); }
    GoodFromParts(t);
  }

  /** A load keeps the state safe if and only if it is a safe one. */
  lemma LoadIsSafeIff(s: State, step: Step)
    requires Safe(s) && Enabled(s, step) && step.Load?
    ensures Safe(Apply(s, step)) <==> SafeLoad(s, step.id)
  {
    hide NeedsOggConversion, SwapToOgg, Safe;
    var t := Apply(s, step);
    var a := s.w.records[step.id];
    LinkedConverts(a, step.message);
    hide Convertible, WithMessage;
    SafeReady(s);
    if SafeLoad(s, step.id) {
      forall p: nat ensures SparesRecord(t, p) { SafeAt(s, p, p); }
      forall p: nat, q: nat ensures SparesRun(t, p, q) { SafeAt(s, p, q); }
      forall q: nat ensures KeepsObject(t, q) { SafeAt(s, q, q); }
      SafeFromParts(t);
    }
    if Safe(t) {
      SafeAt(t, step.p, step.p);
      forall q: nat | q in s.running
        ensures MayDelete(s.running[q]) ==> s.running[q].a.storageKey != a.storageKey
        ensures Convertible(a) && MayKeep(s.running[q]) ==> s.running[q].a.storageKey != a.storageKey
      {
        SafeAt(t, q, step.p);
        SafeAt(t, step.p, q);
      }
    }
  }

  lemma OtherGrows(w: World, op: Op)
    requires !op.Finish? && Fresh(w, op)
    ensures var w' := Attachments.Apply(w, op);
      && (forall x :: x in w.records ==> x in w'.records && w'.records[x] == w.records[x])
      && (forall k :: k in w.objects ==> k in w'.objects)
  {
    hide SanitizeFilename, TrimSpace, IsImage, Prefix, AvatarKey, LoadVisible;
  }

  lemma OtherStep(s: State, step: Step)
    requires Good(s) && Safe(s) && Enabled(s, step) && step.Other?
    ensures Good(Apply(s, step)) && Safe(Apply(s, step))
  {
    hide Fits, RecordOk, Convertible, NeedsOggConversion, SwapToOgg, Attachments.Apply, Fresh, Good, Safe;
    var t := Apply(s, step);
    SafeReady(s);
    forall x ensures RecordOk(s.w, x) { GoodAt(s, x, 0); }
    Attachments.StepKeeps(s.w, step.op);
    OtherGrows(s.w, step.op);
    forall p: nat ensures RunOk(t, p) { GoodAt(s, "", p); }
    GoodFromParts(t);
    forall p: nat ensures SparesRecord(t, p) {
      SafeAt(s, p, p);
      GoodAt(s, "", p);
    }
    forall p: nat, q: nat ensures SparesRun(t, p, q) { SafeAt(s, p, q); }
    forall q: nat ensures KeepsObject(t, q) { SafeAt(s, q, q); }
    SafeFromParts(t);
  }

  /** Every step keeps a safe state safe, loads if they are safe ones. */
  lemma StepKeepsSafe(s: State, step: Step)
    requires Good(s) && Safe(s) && Enabled(s, step) && (step.Load? ==> SafeLoad(s, step.id))
    ensures Good(Apply(s, step)) && Safe(Apply(s, step))
  {
    hide Good, Safe, Apply, SafeLoad;
    match step
    case Load(_, _, _, _) =>
      LoadKeepsGood(s, step);
      LoadIsSafeIff(s, step);
    case Store(_, _) => StoreStep(s, step);
    case Delete(_, _) =>
      DeleteKeepsGood(s, step);
      DeleteKeepsSafe(s, step);
    case Write(_, _) => WriteStep(s, step);
    case Other(_) => OtherStep(s, step);
    case _ => QuietStep(s, step);
  }

  // ---- runs ------------------------------------------------------------------------

  ghost predicate Runs(s: State, steps: seq<Step>, t: State)
    decreases |steps|
  {
    if steps == [] then s == t else Enabled(s, steps[0]) && Runs(Apply(s, steps[0]), steps[1..], t)
  }

  /** Runs whose every load is safe when it is taken. */
  ghost predicate SafeRuns(s: State, steps: seq<Step>, t: State)
    decreases |steps|
  {
    if steps == [] then s == t
    else
      && Enabled(s, steps[0]) && (steps[0].Load? ==> SafeLoad(s, steps[0].id))
      && SafeRuns(Apply(s, steps[0]), steps[1..], t)
  }

  lemma {:induction false} SafeRunsKeepSafe(s: State, steps: seq<Step>, t: State)
    requires Good(s) && Safe(s) && SafeRuns(s, steps, t)
    ensures Good(t) && Safe(t)
    decreases |steps|
  {
    hide Good, Safe, Apply, Enabled, SafeLoad;
    if steps != [] {
      StepKeepsSafe(s, steps[0]);
      SafeRunsKeepSafe(Apply(s, steps[0]), steps[1..], t);
    }
  }

  lemma IdleIsSafe(s: State)
    requires Inv(s.w) && s.running == map[]
    ensures Good(s) && Safe(s)
  {
    hide RecordOk;
  }

  /** In every interleaving of confirmations whose loads are safe, with every call free to
      fail and every process to crash, each ready conversation attachment names an existing
      object at every moment. */
  lemma ReadyAlwaysHaveObjects(s: State, steps: seq<Step>, t: State)
    requires Inv(s.w) && s.running == map[] && SafeRuns(s, steps, t)
    ensures ReadyHaveObjects(t.w)
  {
    hide Good, Safe, SafeRuns;
    IdleIsSafe(s);
    SafeRunsKeepSafe(s, steps, t);
    SafeReady(t);
  }

  // ---- and only then -----------------------------------------------------------------

  predicate InFlight(steps: seq<Step>) {
    forall i :: 0 <= i < |steps| ==> !steps[i].Load?
  }

  lemma {:induction false} RunsSafely(s: State, steps: seq<Step>, t: State)
    requires Runs(s, steps, t) && InFlight(steps)
    ensures SafeRuns(s, steps, t)
    decreases |steps|
  {
    hide Apply, Enabled, SafeLoad;
    if steps != [] {
      RunsSafely(Apply(s, steps[0]), steps[1..], t);
    }
  }

  lemma RunsOne(s: State, step: Step)
    requires Enabled(s, step)
    ensures Runs(s, [step], Apply(s, step))
  {
    hide Enabled, Apply;
    assert Runs(Apply(s, step), [], Apply(s, step));
  }

  lemma {:induction false} RunsThen(s: State, a: seq<Step>, t: State, b: seq<Step>, u: State)
    requires Runs(s, a, t) && Runs(t, b, u)
    ensures Runs(s, a + b, u)
    decreases |a|
  {
    hide Enabled, Apply;
    if a == [] {
      assert a + b == b;
    } else {
      assert (a + b)[0] == a[0] && (a + b)[1..] == a[1..] + b;
      RunsThen(Apply(s, a[0]), a[1..], t, b, u);
    }
  }

  /** A confirmation that may keep its key can be driven to the point of writing it. */
  lemma DriveToWrite(s: State, q: nat) returns (steps: seq<Step>, t: State)
    requires q in s.running && MayKeep(s.running[q])
    requires s.running[q].phase.Loaded? ==> s.running[q].a.storageKey in s.w.objects
    ensures Runs(s, steps, t) && InFlight(steps) && t.w == s.w && q in t.running && t.running[q].phase.Ending?
    ensures t.running[q].id == s.running[q].id && t.running[q].a.storageKey == s.running[q].a.storageKey
    ensures t.running[q].a.conversation == s.running[q].a.conversation
    ensures t.running - {q} == s.running - {q}
    decreases if s.running[q].phase.Loaded? then 2 else if s.running[q].phase.Ending? then 0 else 1
  {
    hide NeedsOggConversion, SwapToOgg, TrimSpace;
    var c := s.running[q];
    if c.phase.Ending? {
      steps, t := [], s;
    } else {
      var step := if c.phase.Loaded? then Check(q, true) else if c.phase.Checked? then Convert(q, false, None)
                  else Store(q, false);
      var mid := Apply(s, step);
      TypedConverts(c.a);
      var rest;
      rest, t := DriveToWrite(mid, q);
      RunsOne(s, step);
      RunsThen(s, [step], mid, rest, t);
      steps := [step] + rest;
    }
  }

  /** One that may delete its object can be driven to do so. */
  lemma DriveToDelete(s: State, p: nat) returns (steps: seq<Step>, t: State)
    requires p in s.running && MayDelete(s.running[p]) && s.running[p].a.storageKey in s.w.objects
    ensures Runs(s, steps, t) && InFlight(steps)
    ensures t.w.records == s.w.records && s.running[p].a.storageKey !in t.w.objects
    ensures t.running - {p} == s.running - {p}
    decreases match s.running[p].phase case Loaded => 3 case Checked => 2 case Remuxed(_) => 1 case _ => 0
  {
    hide NeedsOggConversion, SwapToOgg, TrimSpace;
    var c := s.running[p];
    TypedConverts(c.a);
    if c.phase.Stored? {
      steps, t := [Delete(p, true)], Apply(s, Delete(p, true));
      RunsOne(s, Delete(p, true));
    } else {
      var step := if c.phase.Loaded? then Check(p, true) else if c.phase.Checked? then Convert(p, true, Some(""))
                  else Store(p, true);
      var mid := Apply(s, step);
      var rest;
      rest, t := DriveToDelete(mid, p);
      RunsOne(s, step);
      RunsThen(s, [step], mid, rest, t);
      steps := [step] + rest;
    }
  }

  /** Writing a key whose object is gone breaks the promise. */
  lemma WriteMissing(s: State, q: nat) returns (t: State)
    requires q in s.running && s.running[q].phase.Ending? && s.running[q].a.conversation != ""
    requires s.running[q].a.storageKey !in s.w.objects
    ensures Runs(s, [Write(q, true)], t) && !ReadyHaveObjects(t.w)
  {
    t := Apply(s, Write(q, true));
    RunsOne(s, Write(q, true));
    var id := s.running[q].id;
    assert id in t.w.records && Owned(t.w.records[id]);
  }

  /** Driving one confirmation leaves the others where they were. */
  lemma StillRunning(s: State, t: State, driven: nat, p: nat)
    requires t.running - {driven} == s.running - {driven} && p != driven && p in s.running
    ensures p in t.running && t.running[p] == s.running[p]
  {
    assert p in t.running - {driven};
    assert (t.running - {driven})[p] == (s.running - {driven})[p];
  }

  /** A confirmation deletes a ready record's object. */
  lemma DeletedUnderRecord(s: State, p: nat) returns (steps: seq<Step>, t: State)
    requires ReadyHaveObjects(s.w) && !SparesRecord(s, p)
    ensures Runs(s, steps, t) && InFlight(steps) && !ReadyHaveObjects(t.w)
  {
    hide Convertible;
    var id := s.running[p].id;
    steps, t := DriveToDelete(s, p);
    assert id in t.w.records && Owned(t.w.records[id]);
  }

  /** A confirmation deletes the object another writes a record for. */
  lemma DeletedUnderRun(s: State, p: nat, q: nat) returns (steps: seq<Step>, t: State)
    requires Good(s) && !SparesRun(s, p, q)
    ensures Runs(s, steps, t) && InFlight(steps) && !ReadyHaveObjects(t.w)
  {
    var cp, cq := s.running[p], s.running[q];
    GoodAt(s, "", p);
    GoodAt(s, "", q);
    assert NeedsOggConversion(cp.a.contentType);
    hide Fits, Convertible, NeedsOggConversion, Good, Runs;
    ConvertibleIsOwned(cp.a, cp.id);
    SameKeySameId(cp.a, cp.id, cq.a, cq.id);
    var put := Other(Put(cp.a.storageKey, ""));
    var s1 := Apply(s, put);
    RunsOne(s, put);
    var a, s2 := DriveToWrite(s1, q);
    StillRunning(s1, s2, q, p);
    var b, s3 := DriveToDelete(s2, p);
    StillRunning(s2, s3, p, q);
    t := WriteMissing(s3, q);
    RunsThen(s, [put], s1, a, s2);
    RunsThen(s, [put] + a, s2, b, s3);
    RunsThen(s, [put] + a + b, s3, [Write(q, true)], t);
    steps := [put] + a + b + [Write(q, true)];
  }

  /** A confirmation past its check writes a record whose object is already gone. */
  lemma GoneBeforeWrite(s: State, q: nat) returns (steps: seq<Step>, t: State)
    requires !KeepsObject(s, q)
    ensures Runs(s, steps, t) && InFlight(steps) && !ReadyHaveObjects(t.w)
  {
    hide Runs;
    var a, mid := DriveToWrite(s, q);
    t := WriteMissing(mid, q);
    RunsThen(s, a, mid, [Write(q, true)], t);
    steps := a + [Write(q, true)];
  }

  lemma Unsafe(s: State) returns (steps: seq<Step>, t: State)
    requires Good(s) && !Safe(s)
    ensures Runs(s, steps, t) && InFlight(steps) && !ReadyHaveObjects(t.w)
  {
    hide Good, SparesRecord, SparesRun, KeepsObject, Enabled, Apply;
    if !ReadyHaveObjects(s.w) {
      steps, t := [], s;
    } else if p: nat :| !SparesRecord(s, p) {
      steps, t := DeletedUnderRecord(s, p);
    } else if p: nat, q: nat :| !SparesRun(s, p, q) {
      steps, t := DeletedUnderRun(s, p, q);
    } else {
      var q: nat :| !KeepsObject(s, q);
      steps, t := GoneBeforeWrite(s, q);
    }
  }

  /** The confirmations running can lose no object, whatever fails and however they
      interleave, if and only if the state is safe. */
  lemma SafeIff(s: State)
    requires Good(s)
    ensures Safe(s) <==> forall steps, t :: Runs(s, steps, t) && InFlight(steps) ==> ReadyHaveObjects(t.w)
  {
    hide Good, Safe, Runs, SafeRuns, InFlight, ReadyHaveObjects;
    if Safe(s) {
      forall steps, t | Runs(s, steps, t) && InFlight(steps) ensures ReadyHaveObjects(t.w) {
        RunsSafely(s, steps, t);
        SafeRunsKeepSafe(s, steps, t);
        SafeReady(t);
      }
    } else {
      var steps, t := Unsafe(s);
    }
  }

  /** From a safe state, starting a confirmation can lose an object if and only if its load
      is not safe. */
  lemma LoadLosesIff(s: State, step: Step)
    requires Good(s) && Safe(s) && Enabled(s, step) && step.Load?
    ensures SafeLoad(s, step.id)
       <==> forall steps, t :: Runs(Apply(s, step), steps, t) && InFlight(steps) ==> ReadyHaveObjects(t.w)
  {
    hide Good, Safe, Runs, InFlight, ReadyHaveObjects, SafeLoad, Apply, Enabled;
    LoadKeepsGood(s, step);
    LoadIsSafeIff(s, step);
    SafeIff(Apply(s, step));
  }

  /** For a caller: a confirmation alone on its record, which is not a ready recording still
      to be converted, is safe. */
  lemma AloneIsSafe(s: State, id: string)
    requires Good(s) && id in s.w.records && (Owned(s.w.records[id]) ==> !Convertible(s.w.records[id]))
    requires forall q :: q in s.running ==> s.running[q].id != id
    ensures SafeLoad(s, id)
  {
    hide Fits, NeedsOggConversion, SwapToOgg, Good;
    var a := s.w.records[id];
    GoodAt(s, id, 0);
    forall q | q in s.running && (MayDelete(s.running[q]) || Convertible(a))
      ensures s.running[q].a.storageKey != a.storageKey
    {
      var c := s.running[q];
      GoodAt(s, id, q);
      if c.a.storageKey == a.storageKey {
        if Convertible(a) {
          ConvertibleIsOwned(a, id);
          SameKeySameId(a, id, c.a, c.id);
        } else {
          ConvertibleIsOwned(c.a, c.id);
          SameKeySameId(c.a, c.id, a, id);
        }
      }
    }
  }

  // ---- a schedule ------------------------------------------------------------------------

  /** Two confirmations of one recording: both load and check it, the first converts, and
      the second finds the object gone, keeps the old key and writes last. */
  function Schedule(id: string, access: Access, ogg: string): seq<Step> {
    [Load(0, id, access, NoMessage)] + [Load(1, id, access, NoMessage)] + [Check(0, true)] + [Check(1, true)]
    + [Convert(0, true, Some(ogg))] + [Store(0, true)] + [Delete(0, true)]
    + [Convert(1, true, Some(ogg))] + [Write(0, true)] + [Write(1, true)]
  }

  /** Every call succeeds, and yet the ready record names a deleted object. */
  lemma TwoConfirmationsLoseIt(s: State, id: string, access: Access, ogg: string) returns (t: State)
    requires s.running == map[] && id in s.w.records && s.w.records[id].storageKey in s.w.objects
    requires s.w.records[id].conversation != "" && Convertible(s.w.records[id])
    requires Authorize(access, s.w.records[id]).None?
    ensures Runs(s, Schedule(id, access, ogg), t) && t.running == map[]
    ensures id in t.w.records && Owned(t.w.records[id]) && t.w.records[id].storageKey == s.w.records[id].storageKey
    ensures s.w.records[id].storageKey !in t.w.objects
  {
    hide NeedsOggConversion, SwapToOgg, WithType, LoadVisible, Runs;
    var a := s.w.records[id];
    TypedConverts(a);
    var typed := WithType(a);
    var key, newKey := a.storageKey, SwapToOgg(a.storageKey);
    var first := Confirmation(id, a, Loaded);
    var checked := Confirmation(id, typed, Checked);
    var ended := Confirmation(id, typed, Ending);
    var swapped := Confirmation(id, Swapped(typed, ogg), Ending);
    var stored := s.w.(objects := s.w.objects[newKey := ogg]);
    var deleted := s.w.(objects := stored.objects - {key});
    var written := deleted.(records := s.w.records[id := swapped.a.(status := Ready)]);
    var s1 := State(s.w, s.running[0 := first]);
    var s2 := State(s.w, s1.running[1 := first]);
    var s3 := State(s.w, s2.running[0 := checked]);
    var s4 := State(s.w, s3.running[1 := checked]);
    var s5 := State(s.w, s4.running[0 := checked.(phase := Remuxed(ogg))]);
    var s6 := State(stored, s5.running[0 := checked.(phase := Stored(ogg))]);
    var s7 := State(deleted, s6.running[0 := swapped]);
    var s8 := State(deleted, s7.running[1 := ended]);
    var s9 := State(written, s8.running - {0});
    t := State(written.(records := written.records[id := typed.(status := Ready)]), s9.running - {1});
    TwoSteps(s, s1, Load(0, id, access, NoMessage), s2, Load(1, id, access, NoMessage));
    TwoSteps(s2, s3, Check(0, true), s4, Check(1, true));
    TwoSteps(s4, s5, Convert(0, true, Some(ogg)), s6, Store(0, true));
    TwoSteps(s6, s7, Delete(0, true), s8, Convert(1, true, Some(ogg)));
    TwoSteps(s8, s9, Write(0, true), t, Write(1, true));
    var x := [Load(0, id, access, NoMessage)] + [Load(1, id, access, NoMessage)];
    var y := [Check(0, true)] + [Check(1, true)];
    var z := [Convert(0, true, Some(ogg))] + [Store(0, true)];
    var u := [Delete(0, true)] + [Convert(1, true, Some(ogg))];
    var v := [Write(0, true)] + [Write(1, true)];
    RunsThen(s, x, s2, y, s4);
    RunsThen(s, x + y, s4, z, s6);
    RunsThen(s, x + y + z, s6, u, s8);
    RunsThen(s, x + y + z + u, s8, v, t);
    assert x + y + z + u + v == Schedule(id, access, ogg);
  }

  lemma TwoSteps(s: State, t: State, a: Step, u: State, b: Step)
    requires Enabled(s, a) && t == Apply(s, a) && Enabled(t, b) && u == Apply(t, b)
    ensures Runs(s, [a] + [b], u)
  {
    hide Enabled, Apply, Runs;
    RunsOne(s, a);
    RunsOne(t, b);
    RunsThen(s, [a], t, [b], u);
  }

  // ---- one at a time -----------------------------------------------------------------------

  /** A confirmation left alone from its load to its end does what Confirm does. */
  lemma SoloIsConfirm(s: State, p: nat, id: string, access: Access, m: MessageRef, o: Outcomes)
    returns (steps: seq<Step>, t: State)
    requires Enabled(s, Load(p, id, access, m))
    ensures Runs(s, [Load(p, id, access, m)] + steps, t) && InFlight(steps)
    ensures t == State(Confirm(s.w, id, access, m, o).0, s.running)
  {
    hide NeedsOggConversion, SwapToOgg, WithType, WithMessage, Authorize, Runs;
    var load := Load(p, id, access, m);
    var s1 := Apply(s, load);
    RunsOne(s, load);
    LinkedConverts(s.w.records[id], m);
    var s2 := Apply(s1, Check(p, o.existsOk));
    RunsOne(s1, Check(p, o.existsOk));
    assert s1.running - {p} == s.running;
    if p !in s2.running {
      RunsThen(s, [load], s1, [Check(p, o.existsOk)], s2);
      steps, t := [Check(p, o.existsOk)], s2;
    } else {
      TypedConverts(WithMessage(s.w.records[id], m));
      var rest;
      rest, t := SoloFromCheck(s2, p, o);
      RunsThen(s1, [Check(p, o.existsOk)], s2, rest, t);
      steps := [Check(p, o.existsOk)] + rest;
      RunsThen(s, [load], s1, steps, t);
      assert s2.running - {p} == s.running;
    }
  }

  lemma SoloFromCheck(s: State, p: nat, o: Outcomes) returns (steps: seq<Step>, t: State)
    requires p in s.running && s.running[p].phase.Checked?
    ensures Runs(s, steps, t) && InFlight(steps) && t.running == s.running - {p}
    ensures var (objects, converted) := Attachments.Converted(s.w, s.running[p].a, o);
      t.w == World(objects, if o.updateOk then s.w.records[s.running[p].id := converted.(status := Ready)]
                            else s.w.records)
  {
    hide NeedsOggConversion, SwapToOgg, Runs;
    var convert, write := Convert(p, o.readOk, o.ogg), Write(p, o.updateOk);
    var s1 := Apply(s, convert);
    RunsOne(s, convert);
    if s1.running[p].phase.Ending? {
      t := Apply(s1, write);
      RunsOne(s1, write);
      RunsThen(s, [convert], s1, [write], t);
      steps := [convert] + [write];
    } else {
      var rest;
      rest, t := SoloFromStore(s1, p, o);
      RunsThen(s, [convert], s1, rest, t);
      steps := [convert] + rest;
    }
    assert s1.running - {p} == s.running - {p};
  }

  lemma SoloFromStore(s: State, p: nat, o: Outcomes) returns (steps: seq<Step>, t: State)
    requires p in s.running && s.running[p].phase.Remuxed?
    ensures Runs(s, steps, t) && InFlight(steps) && t.running == s.running - {p}
    ensures var c := s.running[p]; var key, newKey := c.a.storageKey, SwapToOgg(c.a.storageKey);
      var stored := s.w.objects[newKey := c.phase.ogg];
      var a := if o.putOk then Swapped(c.a, c.phase.ogg) else c.a;
      t.w == World(if !o.putOk then s.w.objects else if newKey != key && o.deleteOk then stored - {key} else stored,
                   if o.updateOk then s.w.records[c.id := a.(status := Ready)] else s.w.records)
  {
    hide NeedsOggConversion, SwapToOgg, Runs;
    var store, delete, write := Store(p, o.putOk), Delete(p, o.deleteOk), Write(p, o.updateOk);
    var s1 := Apply(s, store);
    RunsOne(s, store);
    if o.putOk {
      var s2 := Apply(s1, delete);
      t := Apply(s2, write);
      RunsOne(s1, delete);
      RunsOne(s2, write);
      RunsThen(s, [store], s1, [delete], s2);
      RunsThen(s, [store] + [delete], s2, [write], t);
      steps := [store] + [delete] + [write];
      assert s2.running - {p} == s.running - {p};
    } else {
      t := Apply(s1, write);
      RunsOne(s1, write);
      RunsThen(s, [store], s1, [write], t);
      steps := [store] + [write];
      assert s1.running - {p} == s.running - {p};
    }
  }

  /** A crash ends one confirmation and changes nothing stored. */
  lemma CrashEnds(s: State, p: nat)
    requires Enabled(s, Crash(p))
    ensures var t := Apply(s, Crash(p)); t.w == s.w && t.running == s.running - {p}
  {
  }

  // ---- what an object holds --------------------------------------------------------

  /** Neither an upload to the key nor a confirmation of this record storing or deleting. */
  predicate LeavesAlone(s: State, step: Step, x: string, key: string)
    requires Enabled(s, step)
  {
    match step
    case Other(op) => !(op.Put? && op.key == key)
    case Store(p, _) => s.running[p].id != x
    case Delete(p, _) => s.running[p].id != x
    case _ => true
  }

  /** A confirmation of another record never works on this record's key. */
  lemma RunIsElsewhere(s: State, p: nat, x: string)
    requires Good(s) && p in s.running && x in s.w.records && s.running[p].id != x
    requires s.running[p].phase.Remuxed? || s.running[p].phase.Stored?
    ensures s.w.records[x].storageKey != s.running[p].a.storageKey
    ensures s.w.records[x].storageKey != SwapToOgg(s.running[p].a.storageKey)
  {
    hide NeedsOggConversion, SwapToOgg, Fits, Good;
    var c, b := s.running[p], s.w.records[x];
    GoodAt(s, x, p);
    ConvertibleIsOwned(c.a, c.id);
    SwappedFits(c.a, "", c.id);
    if b.storageKey == c.a.storageKey {
      SameKeySameId(c.a, c.id, b, x);
    }
    if b.storageKey == SwapToOgg(c.a.storageKey) {
      SameKeySameId(Swapped(c.a, ""), c.id, b, x);
    }
  }

  /** In every interleaving a conversation record's object keeps its content, step by step,
      until an upload to its key or a conversion of this very record. */
  lemma ContentKept(s: State, step: Step, x: string)
    requires Good(s) && ReadyHaveObjects(s.w) && Enabled(s, step) && x in s.w.records
    requires s.w.records[x].conversation != "" && LeavesAlone(s, step, x, s.w.records[x].storageKey)
    requires s.w.records[x].storageKey in s.w.objects
    ensures var key, objects := s.w.records[x].storageKey, Apply(s, step).w.objects;
      key in objects && objects[key] == s.w.objects[key]
  {
    hide NeedsOggConversion, SwapToOgg, Good, Attachments.Apply, Fresh, SafeLoad;
    match step
    case Store(p, _) => RunIsElsewhere(s, p, x);
    case Delete(p, _) => RunIsElsewhere(s, p, x);
    case Other(op) =>
      GoodRecords(s);
      GoodAt(s, x, 0);
      ObjectKept(s.w, s.w.records[x], s.w.objects[s.w.records[x].storageKey], op);
    case _ =>
  }

  lemma GoodRecords(s: State)
    requires Good(s) && ReadyHaveObjects(s.w)
    ensures Inv(s.w)
  {
    hide RecordOk, RunOk;
  }
}
