/** Attachment records and the objects they name
    (domain/attachments/service/service.go): upload reservations, inbound storage and
    Confirm, with every storage, conversion and repository call free to fail. */
module Attachments {
  import opened Results
  import opened Text
  import opened Tokens
  import opened Topics

  datatype Status = PendingUpload | Ready

  /** conversation is "" for an avatar. */
  datatype Attachment = Attachment(
    id: string, tenant: string, conversation: string, message: string, filename: string,
    contentType: string, size: int, storageKey: string, status: Status)

  datatype Conversation = Conversation(sector: string, assignedTo: string)

  /** Storage objects by key, and records by id. */
  datatype World = World(objects: map<string, string>, records: map<string, Attachment>)

  // ---- names ---------------------------------------------------------------

  function LastIndexOf(s: string, c: char): (i: int)
    ensures -1 <= i < |s|
    ensures i >= 0 ==> s[i] == c && c !in s[i + 1..]
    ensures i < 0 <==> c !in s
  {
    if s == "" then -1
    else if s[|s| - 1] == c then |s| - 1
    else
      var i := LastIndexOf(s[..|s| - 1], c);
      assert s == s[..|s| - 1] + [s[|s| - 1]];
      assert i >= 0 ==> s[i + 1..] == s[..|s| - 1][i + 1..] + [s[|s| - 1]];
      i
  }

  function SwapToOgg(name: string): string {
    var i := LastIndexOf(name, '.');
    if i >= 0 then name[..i] + ".ogg" else name + ".ogg"
  }

  function ReplaceBackslashes(s: string): string {
    seq(|s|, i requires 0 <= i < |s| => if s[i] == '\\' then '/' else s[i])
  }

  function TrimSlashes(s: string): string {
    if s != "" && s[|s| - 1] == '/' then TrimSlashes(s[..|s| - 1]) else s
  }

  /** The last path element, or "" when there is none. */
  function SanitizeFilename(name: string): (base: string)
    ensures '/' !in base
  {
    var s := TrimSlashes(ReplaceBackslashes(TrimSpace(name)));
    var base := s[LastIndexOf(s, '/') + 1..];
    if base == "." then "" else base
  }

  /** What is left of a path is its last element, whichever slashes the client used. */
  lemma SanitizedIsBase(dir: string, slash: char, base: string)
    requires slash in {'/', '\\'} && base != "" && base != "." && '/' !in base && '\\' !in base
    requires !IsSpace(base[|base| - 1])
    ensures SanitizeFilename(dir + [slash] + base) == base
  {
    var d := LeadingTrimmed(dir, [slash] + base);
    assert dir + [slash] + base == dir + ([slash] + base);
    var s := d + ([slash] + base);
    assert TrimSpace(dir + [slash] + base) == s;
    hide TrimSpace;
    var t := ReplaceBackslashes(s);
    assert t == ReplaceBackslashes(d) + ['/'] + base;
    assert t[|t| - 1] == base[|base| - 1] && TrimSlashes(t) == t;
    hide ReplaceBackslashes, TrimSlashes;
    LastIndexOfJoined(ReplaceBackslashes(d), '/', base);
  }

  /** No filename keeps a slash of either kind, and none is a single dot. */
  lemma SanitizedIsPlain(name: string)
    ensures '/' !in SanitizeFilename(name) && '\\' !in SanitizeFilename(name) && SanitizeFilename(name) != "."
  {
    hide TrimSpace, LastIndexOf, TrimSlashes;
    var r := ReplaceBackslashes(TrimSpace(name));
    assert forall k :: 0 <= k < |r| ==> r[k] != '\\';
    hide ReplaceBackslashes;
    TrimSlashesCuts(r);
    var s := TrimSlashes(r);
    assert forall k :: 0 <= k < |s| ==> s[k] == r[k];
    var i := LastIndexOf(s, '/') + 1;
    assert forall k :: 0 <= k < |s| - i ==> s[i..][k] == s[i + k];
  }

  /** Without a slash a name is only trimmed; slashes at the end do not count. */
  lemma SanitizedBare(name: string)
    requires '/' !in name && '\\' !in name
    ensures SanitizeFilename(name) == if TrimSpace(name) == "." then "" else TrimSpace(name)
  {
    TrimSpaceTrims(name);
    hide TrimSpace, LastIndexOf;
    var t := TrimSpace(name);
    assert forall k :: 0 <= k < |t| ==> t[k] in name;
    assert ReplaceBackslashes(t) == t;
  }

  lemma SlashesAtTheEnd(name: string)
    requires name != "" && TrimSpace(name) == name
    ensures SanitizeFilename(name + ['/']) == SanitizeFilename(name)
  {
    TrimSpaceTrims(name);
    NothingToTrim(name + ['/']);
    hide TrimSpace;
    var r := ReplaceBackslashes(name + ['/']);
    assert r == ReplaceBackslashes(name) + ['/'];
    hide ReplaceBackslashes;
    assert r[..|r| - 1] == ReplaceBackslashes(name);
  }

  lemma {:induction false} TrimSlashesCuts(s: string)
    ensures TrimSlashes(s) <= s
  {
    if s != "" && s[|s| - 1] == '/' {
      TrimSlashesCuts(s[..|s| - 1]);
    }
  }

  lemma {:induction false} LeadingTrimmed(dir: string, tail: string) returns (d: string)
    requires tail != "" && !IsSpace(tail[0])
    ensures TrimLeft(dir + tail) == d + tail
  {
    if dir != "" && IsSpace(dir[0]) {
      assert (dir + tail)[1..] == dir[1..] + tail;
      d := LeadingTrimmed(dir[1..], tail);
    } else {
      d := dir;
      assert dir == "" ==> dir + tail == tail;
    }
  }

  lemma LastIndexOfJoined(head: string, sep: char, rest: string)
    requires sep !in rest
    ensures LastIndexOf(head + [sep] + rest, sep) == |head|
    ensures (head + [sep] + rest)[|head| + 1..] == rest
  {
    hide LastIndexOf;
    var s := head + [sep] + rest;
    var i := LastIndexOf(s, sep);
    assert s[|head|] == sep;
    if i < |head| {
      NoneAfter(s, sep, |head|);
    }
    assert forall k :: |head| < k < |s| ==> s[k] == rest[k - |head| - 1];
  }

  lemma NoneAfter(s: string, c: char, k: nat)
    requires LastIndexOf(s, c) < k < |s|
    ensures s[k] != c
  {
    hide LastIndexOf;
    var i := LastIndexOf(s, c);
    assert s[k] == s[i + 1..][k - i - 1];
  }

  function Prefix(tenant: string, conversation: string, id: string): string {
    "attachments" + ['/'] + (tenant + ['/'] + (conversation + ['/'] + (id + ['/'])))
  }

  function AvatarKey(tenant: string, ownerType: string, ownerId: string, filename: string): string {
    "avatars" + ['/'] + (tenant + ['/'] + (ownerType + ['/'] + (ownerId + ['/'] + filename)))
  }

  /** An id as the system mints them. */
  predicate PlainId(s: string) { '/' !in s && '.' !in s }

  lemma SwapReads(stem: string, ext: string)
    requires '.' !in ext
    ensures SwapToOgg(stem + ['.'] + ext) == stem + ".ogg"
    ensures '.' !in stem ==> SwapToOgg(stem) == stem + ".ogg"
  {
    LastIndexOfJoined(stem, '.', ext);
    assert (stem + ['.'] + ext)[..|stem|] == stem;
  }

  /** Swapping the extension of a whole key swaps it in the filename alone exactly when
      the filename has a dot or the rest of the key has none. */
  lemma SwapStaysInFilename(prefix: string, filename: string)
    ensures SwapToOgg(prefix + filename) == prefix + SwapToOgg(filename) <==> '.' in filename || '.' !in prefix
  {
    var key := prefix + filename;
    var i, k := LastIndexOf(key, '.'), LastIndexOf(filename, '.');
    if '.' in filename {
      assert key[|prefix| + k] == '.';
      assert forall j :: |prefix| + k < j < |key| ==> key[j] == filename[k + 1..][j - |prefix| - k - 1];
      assert i == |prefix| + k;
      assert key[..i] + ".ogg" == prefix + (filename[..k] + ".ogg");
    } else if '.' in prefix {
      assert i < |prefix|;
      assert |SwapToOgg(key)| < |prefix + SwapToOgg(filename)|;
    } else {
      assert key + ".ogg" == prefix + (filename + ".ogg");
    }
  }

  lemma SwapKeepsSlashes(filename: string)
    requires '/' !in filename
    ensures '/' !in SwapToOgg(filename)
  {
  }

  /** The part before the parameters, as in Tokens.BaseType. */
  predicate NeedsOggConversion(contentType: string) {
    "audio/webm" <= BaseType(contentType)
  }

  /** WebM audio, whatever its parameters, case or surrounding spaces; nothing else. */
  lemma RecordingsAreWebm(ct: string, parameters: string)
    requires ';' !in ct
    ensures NeedsOggConversion(ct) <==> "audio/webm" <= Lower(TrimSpace(ct))
    ensures NeedsOggConversion(ct + [';'] + parameters) <==> NeedsOggConversion(ct)
  {
    BaseTypeReads(ct, parameters);
    hide BaseType, Lower, TrimSpace;
  }

  // Any image type.
  predicate IsImage(contentType: string) {
    "image/" <= Lower(TrimSpace(contentType))
  }

  // ---- reserving and storing -----------------------------------------------

  datatype Failure = NotFound | Unauthorized | Invalid | NotUploaded | StorageError | RepositoryError

  /** The configured bounds. */
  datatype Policy = Policy(maxSize: int, avatarMaxSize: int, allowed: string -> bool)

  predicate Acceptable(p: Policy, filename: string, contentType: string, size: int) {
    filename != "" && contentType != "" && p.allowed(contentType) && 0 < size <= p.maxSize
  }

  predicate AcceptableAvatar(p: Policy, filename: string, contentType: string, size: int) {
    filename != "" && contentType != "" && IsImage(contentType) && 0 < size <= p.avatarMaxSize
  }

  /** The conversations there are, and who asks: None without an authentication context. */
  datatype Access = Access(conversations: map<string, Conversation>, claims: Option<Claims>)

  /** loadVisible */
  function LoadVisible(access: Access, id: string): Option<Failure> {
    if id == "" then Some(Invalid)
    else if access.claims.None? then Some(Unauthorized)
    else if id !in access.conversations then Some(NotFound)
    else
      var c := access.conversations[id];
      if Visible(access.claims.value, c.sector, c.assignedTo) then None else Some(NotFound)
  }

  /** authorizeAttachment: an avatar needs no conversation. */
  function Authorize(access: Access, a: Attachment): Option<Failure> {
    if a.conversation == "" then None else LoadVisible(access, a.conversation)
  }

  function Reserve(w: World, a: Attachment, signOk: bool, createOk: bool): (World, Result<Attachment, Failure>) {
    if !signOk then (w, Err(StorageError))
    else if !createOk then (w, Err(RepositoryError))
    else (w.(records := w.records[a.id := a]), Ok(a))
  }

  /** RequestUploadURL for a conversation. */
  function RequestUpload(
    w: World, p: Policy, access: Access, tenant: string, conversation: string, id: string,
    name: string, type_: string, size: int, signOk: bool, createOk: bool): (World, Result<Attachment, Failure>)
  {
    var filename, contentType := SanitizeFilename(name), TrimSpace(type_);
    var refused := LoadVisible(access, conversation);
    if refused.Some? then (w, Err(refused.value))
    else if !Acceptable(p, filename, contentType, size) then (w, Err(Invalid))
    else
      Reserve(w, Attachment(id, tenant, conversation, "", filename, contentType, size,
                            Prefix(tenant, conversation, id) + filename, PendingUpload), signOk, createOk)
  }

  /** RequestUploadURL for an avatar: the key carries no id, and only images pass. */
  function RequestAvatar(
    w: World, p: Policy, tenant: string, ownerType: string, ownerId: string, id: string,
    name: string, type_: string, size: int, signOk: bool, createOk: bool): (World, Result<Attachment, Failure>)
  {
    var filename, contentType := SanitizeFilename(name), TrimSpace(type_);
    if ownerType !in ["contacts", "users"] || ownerId == "" then (w, Err(Invalid))
    else if !AcceptableAvatar(p, filename, contentType, size) then (w, Err(Invalid))
    else
      Reserve(w, Attachment(id, tenant, "", "", filename, contentType, size,
                            AvatarKey(tenant, ownerType, ownerId, filename), PendingUpload), signOk, createOk)
  }

  /** StoreInbound: the object first, then a ready record. */
  function StoreInbound(
    w: World, p: Policy, tenant: string, conversation: string, id: string,
    name: string, type_: string, data: string, putOk: bool, createOk: bool): (World, Result<Attachment, Failure>)
  {
    var filename, contentType := SanitizeFilename(name), TrimSpace(type_);
    var key := Prefix(tenant, conversation, id) + filename;
    var a := Attachment(id, tenant, conversation, "", filename, contentType, |data|, key, Ready);
    if conversation == "" || !Acceptable(p, filename, contentType, |data|) then (w, Err(Invalid))
    else if !putOk then (w, Err(StorageError))
    else
      var stored := w.(objects := w.objects[key := data]);
      if !createOk then (stored, Err(RepositoryError))
      else (stored.(records := w.records[id := a]), Ok(a))
  }

  /** The answer to who may see a conversation: one that is hidden reads as one that is
      not there. */
  lemma VisibleIff(access: Access, id: string)
    ensures LoadVisible(access, id) == None <==>
      && id != "" && access.claims.Some? && id in access.conversations
      && Visible(access.claims.value, access.conversations[id].sector, access.conversations[id].assignedTo)
    ensures LoadVisible(access, id) == Some(Invalid) <==> id == ""
    ensures LoadVisible(access, id) == Some(Unauthorized) <==> id != "" && access.claims.None?
    ensures LoadVisible(access, id) in {None, Some(Invalid), Some(Unauthorized), Some(NotFound)}
  {
    hide Visible;
  }

  /** A reservation succeeds exactly for a visible conversation, an allowed type and a size
      within the bounds, and its pending record is what was asked for. */
  lemma ReservedIsAsked(
    w: World, p: Policy, access: Access, tenant: string, conv: string, id: string,
    name: string, type_: string, size: int, signOk: bool, createOk: bool)
    ensures var (w', out) := RequestUpload(w, p, access, tenant, conv, id, name, type_, size, signOk, createOk);
      var filename, contentType := SanitizeFilename(name), TrimSpace(type_);
      && w'.objects == w.objects
      && (out.Ok? <==>
            && LoadVisible(access, conv).None? && filename != "" && contentType != "" && p.allowed(contentType)
            && 0 < size <= p.maxSize && signOk && createOk)
      && (out.Err? ==> w' == w)
      && (out.Ok? ==>
            && w'.records == w.records[id := out.value]
            && out.value == Attachment(id, tenant, conv, "", filename, contentType, size,
                                       Prefix(tenant, conv, id) + filename, PendingUpload))
  {
    hide SanitizeFilename, TrimSpace, LoadVisible, Prefix;
  }

  /** The same for an avatar: no conversation, only images, its own size bound. */
  lemma AvatarIsAsked(
    w: World, p: Policy, tenant: string, ownerType: string, ownerId: string, id: string,
    name: string, type_: string, size: int, signOk: bool, createOk: bool)
    ensures var (w', out) :=
        RequestAvatar(w, p, tenant, ownerType, ownerId, id, name, type_, size, signOk, createOk);
      var filename, contentType := SanitizeFilename(name), TrimSpace(type_);
      && w'.objects == w.objects
      && (out.Ok? <==>
            && ownerType in {"contacts", "users"} && ownerId != "" && filename != "" && contentType != ""
            && "image/" <= Lower(TrimSpace(contentType)) && 0 < size <= p.avatarMaxSize && signOk && createOk)
      && (out.Err? ==> w' == w)
      && (out.Ok? ==>
            && w'.records == w.records[id := out.value]
            && out.value == Attachment(id, tenant, "", "", filename, contentType, size,
                                       AvatarKey(tenant, ownerType, ownerId, filename), PendingUpload))
  {
    hide SanitizeFilename, TrimSpace, AvatarKey, Lower;
  }

  /** An accepted inbound file is stored whole under its own key, where nothing else moves,
      and its record says what was stored. A record is written only after its object. */
  lemma InboundIsStored(
    w: World, p: Policy, tenant: string, conv: string, id: string,
    name: string, type_: string, data: string, putOk: bool, createOk: bool)
    ensures var (w', out) := StoreInbound(w, p, tenant, conv, id, name, type_, data, putOk, createOk);
      var filename, contentType := SanitizeFilename(name), TrimSpace(type_);
      var key := Prefix(tenant, conv, id) + filename;
      && (out.Ok? <==>
            && conv != "" && filename != "" && contentType != "" && p.allowed(contentType)
            && 0 < |data| <= p.maxSize && putOk && createOk)
      && (out.Ok? ==>
            && out.value == Attachment(id, tenant, conv, "", filename, contentType, |data|, key, Ready)
            && w'.objects[out.value.storageKey] == data
            && w' == World(w.objects[key := data], w.records[id := out.value]))
      && (out.Err? ==>
            && w'.records == w.records
            && (w'.objects == w.objects || w'.objects == w.objects[key := data])
            && (out.error == RepositoryError <==> w'.objects == w.objects[key := data] && putOk && !createOk
                                                  && conv != "" && Acceptable(p, filename, contentType, |data|)))
  {
    hide SanitizeFilename, TrimSpace, Prefix;
  }

  lemma KeysRead(tenant: string, conv: string, id: string, ownerType: string, filename: string)
    ensures Prefix(tenant, conv, id) + filename
         == "attachments/" + tenant + "/" + conv + "/" + id + "/" + filename
    ensures AvatarKey(tenant, ownerType, id, filename)
         == "avatars/" + tenant + "/" + ownerType + "/" + id + "/" + filename
  {
    assert "attachments/" == "attachments" + ['/'] && "avatars/" == "avatars" + ['/'] && "/" == ['/'];
  }

  // ---- Confirm ---------------------------------------------------------------

  /** How the calls Confirm makes turn out. ogg is None when the conversion fails or no
      converter is wired. */
  datatype Outcomes = Outcomes(
    existsOk: bool, readOk: bool, ogg: Option<string>, putOk: bool, deleteOk: bool, updateOk: bool)

  /** A conversation's message, or None when it is not found. */
  datatype MessageRef = NoMessage | Unknown | InConversation(id: string, conversation: string)

  predicate Converts(w: World, a: Attachment, o: Outcomes) {
    NeedsOggConversion(a.contentType) && o.readOk && a.storageKey in w.objects && o.ogg.Some? && o.putOk
  }

  /** maybeConvertAudio: the objects it leaves and the record it changes in memory. */
  function Converted(w: World, a: Attachment, o: Outcomes): (map<string, string>, Attachment) {
    if !Converts(w, a, o) then (w.objects, a)
    else
      var newKey := SwapToOgg(a.storageKey);
      var stored := w.objects[newKey := o.ogg.value];
      (if newKey != a.storageKey && o.deleteOk then stored - {a.storageKey} else stored,
       a.(storageKey := newKey, filename := SwapToOgg(a.filename), contentType := "audio/ogg", size := |o.ogg.value|))
  }

  function WithMessage(a: Attachment, m: MessageRef): Attachment {
    if m.InConversation? then a.(message := m.id) else a
  }

  function WithType(a: Attachment): Attachment {
    if TrimSpace(a.contentType) == "" then a.(contentType := "application/octet-stream") else a
  }

  function Confirm(w: World, id: string, access: Access, m: MessageRef, o: Outcomes)
    : (World, Result<Attachment, Failure>)
  {
    if id !in w.records then (w, Err(NotFound))
    else
      var a := w.records[id];
      if Authorize(access, a).Some? then (w, Err(Authorize(access, a).value))
      else if m.Unknown? || (m.InConversation? && m.conversation != a.conversation) then (w, Err(Invalid))
      else if !o.existsOk then (w, Err(StorageError))
      else if a.storageKey !in w.objects then (w, Err(NotUploaded))
      else
        var (objects, converted) := Converted(w, WithType(WithMessage(a, m)), o);
        var ready := converted.(status := Ready);
        if o.updateOk then (World(objects, w.records[id := ready]), Ok(ready))
        else (World(objects, w.records), Err(RepositoryError))
  }

  /** Only someone who may see the conversation can confirm its attachment, or change
      anything by trying. */
  lemma ConfirmNeedsSight(w: World, id: string, access: Access, m: MessageRef, o: Outcomes)
    requires id in w.records && w.records[id].conversation != ""
    ensures var (w', out) := Confirm(w, id, access, m, o); var conversation := w.records[id].conversation;
      (w' != w || out.Ok?) ==>
        && access.claims.Some? && conversation in access.conversations
        && Visible(access.claims.value, access.conversations[conversation].sector,
                   access.conversations[conversation].assignedTo)
  {
    hide Converted, WithType, WithMessage, Visible;
  }

  /** Whether a confirmation that gets that far converts. */
  predicate WillConvert(a: Attachment, o: Outcomes) {
    NeedsOggConversion(a.contentType) && o.readOk && o.ogg.Some? && o.putOk
  }

  /** A confirmation succeeds exactly when everyone it asks agrees. */
  lemma ConfirmsIff(w: World, id: string, access: Access, m: MessageRef, o: Outcomes)
    ensures Confirm(w, id, access, m, o).1.Ok? <==>
      && id in w.records
      && var a := w.records[id];
      && (a.conversation != "" ==> LoadVisible(access, a.conversation).None?)
      && !m.Unknown? && (m.InConversation? ==> m.conversation == a.conversation)
      && o.existsOk && a.storageKey in w.objects && o.updateOk
  {
    hide Converted, WithType, WithMessage, LoadVisible;
  }

  /** The converted bytes are under the new key, the original is gone unless deleting
      failed, and no other object moved. */
  ghost predicate Moved(before: map<string, string>, after: map<string, string>, from: string, o: Outcomes) {
    var to := SwapToOgg(from);
    && o.ogg.Some? && to in after && after[to] == o.ogg.value
    && (to != from ==> (from in after <==> !o.deleteOk))
    && forall k :: k != to && k != from ==>
         (k in after <==> k in before) && (k in after ==> after[k] == before[k])
  }

  lemma ConvertedReads(w: World, a: Attachment, o: Outcomes)
    requires a.storageKey in w.objects
    ensures var (objects, b) := Converted(w, a, o);
      if WillConvert(a, o) then
        && Moved(w.objects, objects, a.storageKey, o)
        && b == a.(storageKey := SwapToOgg(a.storageKey), filename := SwapToOgg(a.filename),
                   contentType := "audio/ogg", size := |o.ogg.value|)
      else objects == w.objects && b == a
  {
    hide NeedsOggConversion, SwapToOgg;
  }

  lemma ConfirmIsConverted(w: World, id: string, access: Access, m: MessageRef, o: Outcomes)
    requires Confirm(w, id, access, m, o).1.Ok?
    ensures id in w.records && w.records[id].storageKey in w.objects
    ensures var (w', out) := Confirm(w, id, access, m, o);
      var (objects, b) := Converted(w, WithType(WithMessage(w.records[id], m)), o);
      out == Ok(b.(status := Ready)) && w' == World(objects, w.records[id := out.value])
  {
    hide Converted, WithType, WithMessage, Authorize;
  }

  /** What a successful confirmation leaves: a ready record, linked to the message and
      never without a type, that names the converted bytes or the object as it was. */
  lemma ConfirmedReads(w: World, id: string, access: Access, m: MessageRef, o: Outcomes)
    requires Confirm(w, id, access, m, o).1.Ok?
    ensures id in w.records
    ensures var (w', out) := Confirm(w, id, access, m, o); var a, b := w.records[id], out.value;
      && w'.records == w.records[id := b]
      && b.status == Ready && b.id == a.id && b.tenant == a.tenant && b.conversation == a.conversation
      && b.message == (if m.InConversation? then m.id else a.message)
      && if WillConvert(a, o) then
           && Moved(w.objects, w'.objects, a.storageKey, o)
           && b.storageKey == SwapToOgg(a.storageKey) && b.filename == SwapToOgg(a.filename)
           && b.contentType == "audio/ogg" && b.size == |o.ogg.value|
         else
           && w'.objects == w.objects
           && b.storageKey == a.storageKey && b.filename == a.filename && b.size == a.size
           && b.contentType == if TrimSpace(a.contentType) == "" then "application/octet-stream" else a.contentType
  {
    ConfirmIsConverted(w, id, access, m, o);
    var a := w.records[id];
    TypeForConversion(WithMessage(a, m));
    ConvertedReads(w, WithType(WithMessage(a, m)), o);
    hide Confirm, Converted, Moved, NeedsOggConversion, SwapToOgg, TrimSpace;
  }

  /** The service's storage and repository, updated call by call. */
  class Service {
    var objects: map<string, string>
    var records: map<string, Attachment>

    constructor ()
      ensures State() == World(map[], map[])
    {
      objects, records := map[], map[];
    }

    function State(): World
      reads this
    {
      World(objects, records)
    }

    method ReserveUpload(a: Attachment, signOk: bool, createOk: bool) returns (out: Result<Attachment, Failure>)
      modifies this`records
      ensures (State(), out) == Reserve(old(State()), a, signOk, createOk)
    {
      if !signOk {
        return Err(StorageError);
      }
      if !createOk {
        return Err(RepositoryError);
      }
      records := records[a.id := a];
      out := Ok(a);
    }

    method StoreInboundFile(p: Policy, tenant: string, conversation: string, id: string,
                            name: string, type_: string, data: string, putOk: bool, createOk: bool)
      returns (out: Result<Attachment, Failure>)
      modifies this
      ensures (State(), out)
           == StoreInbound(old(State()), p, tenant, conversation, id, name, type_, data, putOk, createOk)
    {
      hide SanitizeFilename, TrimSpace;
      if conversation == "" {
        return Err(Invalid);
      }
      var filename, contentType := SanitizeFilename(name), TrimSpace(type_);
      if !Acceptable(p, filename, contentType, |data|) {
        return Err(Invalid);
      }
      var key := Prefix(tenant, conversation, id) + filename;
      if !putOk {
        return Err(StorageError);
      }
      objects := objects[key := data];
      if !createOk {
        return Err(RepositoryError);
      }
      var a := Attachment(id, tenant, conversation, "", filename, contentType, |data|, key, Ready);
      records := records[id := a];
      out := Ok(a);
    }

    method MaybeConvertAudio(a: Attachment, o: Outcomes) returns (att: Attachment)
      modifies this`objects
      ensures (objects, att) == Converted(old(State()), a, o)
    {
      att := a;
      if !NeedsOggConversion(a.contentType) {
        return;
      }
      if !o.readOk || a.storageKey !in objects || o.ogg.None? {
        return;
      }
      var newKey := SwapToOgg(a.storageKey);
      if !o.putOk {
        return;
      }
      objects := objects[newKey := o.ogg.value];
      if newKey != a.storageKey {
        if o.deleteOk {
          objects := objects - {a.storageKey};
        }
      }
      att := att.(storageKey := newKey, filename := SwapToOgg(a.filename));
      att := att.(contentType := "audio/ogg", size := |o.ogg.value|);
    }

    method ConfirmUpload(id: string, access: Access, m: MessageRef, o: Outcomes)
      returns (out: Result<Attachment, Failure>)
      modifies this
      ensures (State(), out) == Confirm(old(State()), id, access, m, o)
    {
      hide NeedsOggConversion, SwapToOgg;
      if id !in records {
        return Err(NotFound);
      }
      var att := records[id];
      var refused := Authorize(access, att);
      if refused.Some? {
        return Err(refused.value);
      }
      match m {
        case NoMessage =>
        case Unknown => return Err(Invalid);
        case InConversation(mid, conversation) =>
          if conversation != att.conversation {
            return Err(Invalid);
          }
          att := att.(message := mid);
      }
      if !o.existsOk {
        return Err(StorageError);
      }
      if att.storageKey !in objects {
        return Err(NotUploaded);
      }
      if TrimSpace(att.contentType) == "" {
        att := att.(contentType := "application/octet-stream");
      }
      att := MaybeConvertAudio(att, o);
      att := att.(status := Ready);
      if !o.updateOk {
        return Err(RepositoryError);
      }
      records := records[id := att];
      out := Ok(att);
    }
  }

  // ---- every ready attachment has its object ---------------------------------

  predicate Owned(a: Attachment) { a.status == Ready && a.conversation != "" }

  /** The promise to whoever downloads a confirmed attachment. */
  ghost predicate ReadyHaveObjects(w: World) {
    forall id :: id in w.records && Owned(w.records[id]) ==> w.records[id].storageKey in w.objects
  }

  predicate KeyOf(a: Attachment, key: string) {
    && Prefix(a.tenant, a.conversation, a.id) <= key
    && '/' !in key[|Prefix(a.tenant, a.conversation, a.id)|..]
  }

  /** Conversation keys carry the record's own ids; avatars are never converted. */
  ghost predicate Fits(a: Attachment, id: string) {
    && a.id == id
    && (a.conversation != "" ==>
          PlainId(a.tenant) && PlainId(a.conversation) && PlainId(a.id) && KeyOf(a, a.storageKey))
    && (a.conversation == "" ==>
          !NeedsOggConversion(a.contentType) && exists rest :: a.storageKey == "avatars" + ['/'] + rest)
  }

  ghost predicate RecordOk(w: World, id: string) {
    id in w.records ==> Fits(w.records[id], id)
  }

  ghost predicate Inv(w: World) {
    ReadyHaveObjects(w) && forall id :: RecordOk(w, id)
  }

  function AfterPrefix(a: Attachment, key: string): string
    requires KeyOf(a, key)
  {
    key[|Prefix(a.tenant, a.conversation, a.id)|..]
  }

  /** The fourth field of a conversation key begins with the record's id. */
  lemma KeyFields(a: Attachment, key: string)
    requires PlainId(a.tenant) && PlainId(a.conversation) && PlainId(a.id) && KeyOf(a, key)
    ensures |SplitN(key, '/', 4)| == 4
    ensures SplitN(key, '/', 4)[3] == a.id + ['/'] + AfterPrefix(a, key)
  {
    hide SplitN;
    var t2 := a.id + ['/'] + AfterPrefix(a, key);
    var t1 := a.conversation + ['/'] + t2;
    assert key == "attachments" + ['/'] + (a.tenant + ['/'] + t1);
    assert '/' !in "attachments";
    SplitNJoined("attachments", '/', a.tenant + ['/'] + t1, 4);
    SplitNJoined(a.tenant, '/', t1, 3);
    SplitNJoined(a.conversation, '/', t2, 2);
    SplitNOne(t2, '/');
  }

  /** No two records with different ids can name the same key. */
  lemma KeysAreApart(a: Attachment, b: Attachment, key: string)
    requires PlainId(a.tenant) && PlainId(a.conversation) && PlainId(a.id) && KeyOf(a, key)
    requires PlainId(b.tenant) && PlainId(b.conversation) && PlainId(b.id) && KeyOf(b, key)
    ensures a.id == b.id
  {
    hide SplitN, KeyOf, AfterPrefix;
    KeyFields(a, key);
    KeyFields(b, key);
    SameHead(a.id, AfterPrefix(a, key), b.id, AfterPrefix(b, key));
  }

  lemma SameHead(a: string, ra: string, b: string, rb: string)
    requires '/' !in a && '/' !in b && a + ['/'] + ra == b + ['/'] + rb
    ensures a == b
  {
    IndexOfJoined(a, '/', ra);
    IndexOfJoined(b, '/', rb);
    assert a == (a + ['/'] + ra)[..|a|];
    assert b == (b + ['/'] + rb)[..|b|];
  }

  lemma NotAnAvatarKey(a: Attachment, key: string, rest: string)
    requires KeyOf(a, key)
    ensures key != "avatars" + ['/'] + rest
  {
    assert key[1] == 't';
    assert ("avatars" + ['/'] + rest)[1] == 'v';
  }

  lemma SwapKeepsKey(a: Attachment, key: string)
    requires PlainId(a.tenant) && PlainId(a.conversation) && PlainId(a.id) && KeyOf(a, key)
    ensures KeyOf(a, SwapToOgg(key))
  {
    var p := Prefix(a.tenant, a.conversation, a.id);
    var f := key[|p|..];
    assert '.' !in p;
    assert key == p + f;
    SwapStaysInFilename(p, f);
    SwapKeepsSlashes(f);
    assert (p + SwapToOgg(f))[|p|..] == SwapToOgg(f);
  }

  // ---- what each operation keeps ---------------------------------------------

  lemma TrimKeepsFirst(s: string)
    requires s != "" && !IsSpace(s[0])
    ensures TrimSpace(s) != "" && TrimSpace(s)[0] == s[0]
  {
    RightKeepsFirst(s);
  }

  lemma {:induction false} RightKeepsFirst(s: string)
    requires s != "" && !IsSpace(s[0])
    ensures TrimRight(s) != "" && TrimRight(s)[0] == s[0]
  {
    if IsSpace(s[|s| - 1]) {
      RightKeepsFirst(s[..|s| - 1]);
    }
  }

  lemma {:induction false} LeftTrimmed(s: string)
    ensures TrimLeft(s) != "" ==> !IsSpace(TrimLeft(s)[0])
  {
    if s != "" && IsSpace(s[0]) {
      LeftTrimmed(s[1..]);
    }
  }

  /** An image type is never converted to audio. */
  lemma ImagesAreNotAudio(type_: string)
    requires IsImage(TrimSpace(type_))
    ensures !NeedsOggConversion(TrimSpace(type_))
  {
    var ct := TrimSpace(type_);
    LeftTrimmed(type_);
    if TrimLeft(type_) != "" {
      RightKeepsFirst(TrimLeft(type_));
      hide TrimSpace;
      TrimKeepsFirst(ct);
      assert Lower(TrimSpace(ct))[0] == 'i';
      var i := IndexOf(ct, ';');
      var head := if i >= 0 then ct[..i] else ct;
      if head != "" {
        TrimKeepsFirst(head);
        assert Lower(TrimSpace(head))[0] == 'i';
      }
    }
  }

  lemma DefaultTypeIsNotAudio()
    ensures !NeedsOggConversion("application/octet-stream")
  {
    hide TrimSpace, IndexOf;
    var ct := "application/octet-stream";
    assert ';' !in ct;
    NothingToTrim(ct);
    assert Lower(ct)[1] == 'p';
  }

  /** The one way an uninterrupted confirmation breaks the promise: the audio was swapped
      and its original deleted, but the record of an already ready attachment could not be
      rewritten. Interleaved confirmations are in Confirmations. */
  predicate LosesObject(w: World, id: string, access: Access, m: MessageRef, o: Outcomes) {
    && id in w.records
    && var a := w.records[id];
    && Owned(a) && Authorize(access, a).None? && !m.Unknown? && (m.InConversation? ==> m.conversation == a.conversation)
    && o.existsOk && NeedsOggConversion(a.contentType) && o.readOk && a.storageKey in w.objects
    && o.ogg.Some? && o.putOk && SwapToOgg(a.storageKey) != a.storageKey && o.deleteOk && !o.updateOk
  }

  /** Converting one record's audio neither overwrites nor deletes another record's
      object, avatars included. */
  lemma ConversionSparesOthers(w: World, id: string, o: Outcomes, a: Attachment, x: string)
    requires Inv(w) && id in w.records && x in w.records && x != id
    requires Fits(a, id) && NeedsOggConversion(a.contentType)
    requires w.records[x].storageKey in w.objects
    ensures var (objects, _) := Converted(w, a, o); var key := w.records[x].storageKey;
      key in objects && objects[key] == w.objects[key]
  {
    var b := w.records[x];
    assert RecordOk(w, x);
    SwapKeepsKey(a, a.storageKey);
    hide SwapToOgg, NeedsOggConversion, KeyOf, Prefix;
    if b.conversation == "" {
      var rest :| b.storageKey == "avatars" + ['/'] + rest;
      NotAnAvatarKey(a, a.storageKey, rest);
      NotAnAvatarKey(a, SwapToOgg(a.storageKey), rest);
    } else {
      if b.storageKey == a.storageKey {
        KeysAreApart(a, b, a.storageKey);
      }
      if b.storageKey == SwapToOgg(a.storageKey) {
        KeysAreApart(a, b, b.storageKey);
      }
    }
  }

  lemma OthersKeepObjects(w: World, id: string, o: Outcomes, a: Attachment)
    requires Inv(w) && id in w.records && Fits(a, id)
    ensures var (objects, converted) := Converted(w, a, o);
      && (forall x :: x in w.records && x != id && Owned(w.records[x]) ==> w.records[x].storageKey in objects)
      && (a.storageKey in w.objects ==> converted.storageKey in objects)
  {
    hide SwapToOgg, NeedsOggConversion, Fits, RecordOk;
    var (objects, converted) := Converted(w, a, o);
    if NeedsOggConversion(a.contentType) {
      forall x | x in w.records && x != id && Owned(w.records[x])
        ensures w.records[x].storageKey in objects
      {
        ConversionSparesOthers(w, id, o, a, x);
      }
    }
  }

  /** WithType leaves what is converted alone. */
  lemma TypeForConversion(a: Attachment)
    ensures NeedsOggConversion(WithType(a).contentType) <==> NeedsOggConversion(a.contentType)
  {
    hide NeedsOggConversion;
    DefaultTypeIsNotAudio();
    if TrimSpace(a.contentType) == "" {
      BlankIsNotAudio(a.contentType);
    }
  }

  lemma {:induction false} AllSpace(s: string)
    ensures TrimLeft(s) == "" <==> forall i :: 0 <= i < |s| ==> IsSpace(s[i])
  {
    if s != "" && IsSpace(s[0]) {
      AllSpace(s[1..]);
      assert s == [s[0]] + s[1..];
    }
  }

  lemma BlankIsNotAudio(s: string)
    requires TrimSpace(s) == ""
    ensures !NeedsOggConversion(s)
  {
    LeftTrimmed(s);
    if TrimLeft(s) != "" {
      RightKeepsFirst(TrimLeft(s));
    }
    AllSpace(s);
    assert ';' !in s;
  }

  lemma TypedFits(a: Attachment, m: MessageRef, id: string)
    requires Fits(a, id)
    ensures Fits(WithType(WithMessage(a, m)), id)
  {
    TypeForConversion(WithMessage(a, m));
    hide NeedsOggConversion, TrimSpace;
  }

  lemma ConvertedFits(w: World, a: Attachment, o: Outcomes, id: string)
    requires Fits(a, id)
    ensures Fits(Converted(w, a, o).1.(status := Ready), id)
  {
    if a.conversation != "" {
      SwapKeepsKey(a, a.storageKey);
    }
    hide NeedsOggConversion, SwapToOgg;
  }

  lemma ConfirmKeepsRecords(w: World, id: string, access: Access, m: MessageRef, o: Outcomes, x: string)
    requires Inv(w)
    ensures RecordOk(Confirm(w, id, access, m, o).0, x)
  {
    hide Fits, Converted, WithType, ReadyHaveObjects;
    assert RecordOk(w, x);
    if id in w.records {
      assert RecordOk(w, id);
      TypedFits(w.records[id], m, id);
      ConvertedFits(w, WithType(WithMessage(w.records[id], m)), o, id);
    }
  }

  /** Left alone, Confirm keeps every ready attachment's object in place, whatever fails,
      except exactly when a swap completes and the rewrite of a ready record fails. */
  lemma ConfirmKeepsIff(w: World, id: string, access: Access, m: MessageRef, o: Outcomes)
    requires Inv(w)
    ensures Inv(Confirm(w, id, access, m, o).0) <==> !LosesObject(w, id, access, m, o)
  {
    hide NeedsOggConversion, SwapToOgg, RecordOk, Fits;
    var w' := Confirm(w, id, access, m, o).0;
    forall x ensures RecordOk(w', x) {
      ConfirmKeepsRecords(w, id, access, m, o, x);
    }
    if id in w.records {
      var a := w.records[id];
      var typed := WithType(WithMessage(a, m));
      TypeForConversion(WithMessage(a, m));
      RecordFits(w, id);
      TypedFits(a, m, id);
      OthersKeepObjects(w, id, o, typed);
    }
  }

  /** What is left then: the record as it was, naming the deleted original. */
  lemma LostMeansDeleted(w: World, id: string, access: Access, m: MessageRef, o: Outcomes)
    requires Inv(w) && LosesObject(w, id, access, m, o)
    ensures var w' := Confirm(w, id, access, m, o).0;
      w'.records == w.records && w'.records[id].storageKey !in w'.objects
  {
    TypeForConversion(WithMessage(w.records[id], m));
    hide NeedsOggConversion, SwapToOgg, TrimSpace, Fits;
  }

  /** A ready recording, and its manager. */
  function Recording(data: string): Attachment {
    Attachment("id", "t", "c", "", "a.webm", "audio/webm", |data|, Prefix("t", "c", "id") + "a.webm", Ready)
  }

  const MANAGER: Access := Access(map["c" := Conversation("", "")], Some(Claims("t", "u", [], true, true)))

  /** A ready recording confirmed again: swapped, its original deleted, and the record not
      rewritten. */
  lemma ReconfirmingLosesObject(data: string, ogg: string)
    ensures var a := Recording(data); var w := World(map[a.storageKey := data], map["id" := a]);
      var w' := Confirm(w, "id", MANAGER, NoMessage, Outcomes(true, true, Some(ogg), true, true, false)).0;
      Inv(w) && w'.records == w.records && a.storageKey !in w'.objects
  {
    var a := Recording(data);
    var w := World(map[a.storageKey := data], map["id" := a]);
    RecordingFits(data);
    hide Recording, Prefix, NeedsOggConversion, SwapToOgg, Fits, Confirm;
    assert Inv(w);
    assert LosesObject(w, "id", MANAGER, NoMessage, Outcomes(true, true, Some(ogg), true, true, false));
    LostMeansDeleted(w, "id", MANAGER, NoMessage, Outcomes(true, true, Some(ogg), true, true, false));
  }

  lemma RecordingFits(data: string)
    ensures var a := Recording(data);
      Owned(a) && Authorize(MANAGER, a).None? && NeedsOggConversion(a.contentType) && Fits(a, "id")
      && SwapToOgg(a.storageKey) != a.storageKey
  {
    hide NeedsOggConversion, SwapToOgg, TrimSpace, Prefix, Fits;
    var a := Recording(data);
    AudioWebm();
    RecordingIsFiled(a, "a.webm");
    EndsIn(Prefix("t", "c", "id"), "a.webm", 'm');
    SwapChanges(a.storageKey, 'm');
  }

  lemma RecordingIsFiled(a: Attachment, filename: string)
    requires a.id == "id" && a.tenant == "t" && a.conversation == "c" && '/' !in filename
    requires a.storageKey == Prefix("t", "c", "id") + filename
    ensures Fits(a, "id")
  {
    hide Prefix, Fits;
    NewKeyFits("t", "c", "id", filename, a);
  }

  lemma EndsIn(head: string, tail: string, last: char)
    requires tail != "" && tail[|tail| - 1] == last
    ensures (head + tail)[|head + tail| - 1] == last
  {
  }

  lemma AudioWebm()
    ensures NeedsOggConversion("audio/webm") && TrimSpace("audio/webm") != ""
  {
    hide TrimSpace, IndexOf;
    var ct := "audio/webm";
    assert ';' !in ct;
    NothingToTrim(ct);
  }

  lemma SwapChanges(name: string, last: char)
    requires name != "" && name[|name| - 1] == last && last != 'g'
    ensures SwapToOgg(name) != name
  {
    assert SwapToOgg(name)[|SwapToOgg(name)| - 1] == 'g';
  }

  lemma RecordFits(w: World, id: string)
    requires Inv(w) && id in w.records
    ensures Fits(w.records[id], id)
  {
    assert RecordOk(w, id);
  }

  // ---- whole histories -------------------------------------------------------

  /** Put is the client's own upload to a signed target. */
  datatype Op =
    | Request(p: Policy, access: Access, tenant: string, conversation: string, id: string,
              name: string, type_: string, size: int, signOk: bool, createOk: bool)
    | Avatar(p: Policy, tenant: string, ownerType: string, ownerId: string, id: string,
             name: string, type_: string, size: int, signOk: bool, createOk: bool)
    | Inbound(p: Policy, tenant: string, conversation: string, id: string,
              name: string, type_: string, data: string, putOk: bool, createOk: bool)
    | Put(key: string, data: string)
    | Finish(id: string, access: Access, message: MessageRef, outcomes: Outcomes)

  function Apply(w: World, op: Op): World {
    match op
    case Request(p, access, tenant, conv, id, name, ty, size, signOk, createOk) =>
      RequestUpload(w, p, access, tenant, conv, id, name, ty, size, signOk, createOk).0
    case Avatar(p, tenant, ownerType, ownerId, id, name, ty, size, signOk, createOk) =>
      RequestAvatar(w, p, tenant, ownerType, ownerId, id, name, ty, size, signOk, createOk).0
    case Inbound(p, tenant, conv, id, name, ty, data, putOk, createOk) =>
      StoreInbound(w, p, tenant, conv, id, name, ty, data, putOk, createOk).0
    case Put(key, data) => w.(objects := w.objects[key := data])
    case Finish(id, access, m, o) => Confirm(w, id, access, m, o).0
  }

  /** New records get fresh minted ids. */
  predicate Fresh(w: World, op: Op) {
    match op
    case Request(_, _, tenant, conv, id, _, _, _, _, _) =>
      id !in w.records && PlainId(tenant) && PlainId(conv) && PlainId(id)
    case Avatar(_, tenant, _, _, id, _, _, _, _, _) => id !in w.records
    case Inbound(_, tenant, conv, id, _, _, _, _, _) =>
      id !in w.records && PlainId(tenant) && PlainId(conv) && PlainId(id)
    case Put(_, _) => true
    case Finish(_, _, _, _) => true
  }

  predicate Loses(w: World, op: Op) {
    op.Finish? && LosesObject(w, op.id, op.access, op.message, op.outcomes)
  }

  lemma NewKeyFits(tenant: string, conversation: string, id: string, filename: string, a: Attachment)
    requires a.id == id && a.tenant == tenant && a.conversation == conversation && conversation != ""
    requires PlainId(tenant) && PlainId(conversation) && PlainId(id) && '/' !in filename
    requires a.storageKey == Prefix(tenant, conversation, id) + filename
    ensures Fits(a, id)
  {
    hide NeedsOggConversion;
    var p := Prefix(tenant, conversation, id);
    assert (p + filename)[|p|..] == filename;
  }

  lemma AddRecord(w: World, objects: map<string, string>, a: Attachment)
    requires Inv(w) && Fits(a, a.id) && a.id !in w.records
    requires forall k :: k in w.objects ==> k in objects
    requires Owned(a) ==> a.storageKey in objects
    ensures Inv(World(objects, w.records[a.id := a]))
  {
    hide Fits;
    var w' := World(objects, w.records[a.id := a]);
    assert forall x :: RecordOk(w, x) ==> RecordOk(w', x);
  }

  lemma AddObject(w: World, key: string, data: string)
    requires Inv(w)
    ensures Inv(w.(objects := w.objects[key := data]))
  {
    hide Fits;
    var w' := w.(objects := w.objects[key := data]);
    forall x ensures RecordOk(w', x) {
      assert RecordOk(w, x);
    }
  }

  lemma StepKeeps(w: World, op: Op)
    requires Inv(w) && Fresh(w, op) && !Loses(w, op)
    ensures Inv(Apply(w, op))
  {
    hide Inv, Fits, Confirm, LosesObject, Visible, SanitizeFilename, TrimSpace, IsImage, Prefix;
    match op
    case Request(p, access, tenant, conv, id, name, ty, size, signOk, createOk) =>
      var f, ct := SanitizeFilename(name), TrimSpace(ty);
      var a := Attachment(id, tenant, conv, "", f, ct, size, Prefix(tenant, conv, id) + f, PendingUpload);
      if conv != "" {
        NewKeyFits(tenant, conv, id, f, a);
        AddRecord(w, w.objects, a);
      }
    case Avatar(p, tenant, ownerType, ownerId, id, name, ty, size, signOk, createOk) =>
      AvatarKeeps(w, op);
    case Inbound(p, tenant, conv, id, name, ty, data, putOk, createOk) =>
      var f, ct := SanitizeFilename(name), TrimSpace(ty);
      var key := Prefix(tenant, conv, id) + f;
      var a := Attachment(id, tenant, conv, "", f, ct, |data|, key, Ready);
      AddObject(w, key, data);
      if conv != "" {
        NewKeyFits(tenant, conv, id, f, a);
        AddRecord(w, w.objects[key := data], a);
      }
    case Put(key, data) => AddObject(w, key, data);
    case Finish(id, access, m, o) => ConfirmKeepsIff(w, id, access, m, o);
  }

  lemma AvatarKeeps(w: World, op: Op)
    requires Inv(w) && op.Avatar? && Fresh(w, op)
    ensures Inv(Apply(w, op))
  {
    hide Inv, SanitizeFilename, TrimSpace, IsImage, NeedsOggConversion;
    var f, ct := SanitizeFilename(op.name), TrimSpace(op.type_);
    var key := AvatarKey(op.tenant, op.ownerType, op.ownerId, f);
    var a := Attachment(op.id, op.tenant, "", "", f, ct, op.size, key, PendingUpload);
    if IsImage(ct) {
      ImagesAreNotAudio(op.type_);
      assert key == "avatars" + ['/'] + (op.tenant + ['/'] + (op.ownerType + ['/'] + (op.ownerId + ['/'] + f)));
      assert Fits(a, op.id);
      AddRecord(w, w.objects, a);
    }
  }

  ghost predicate Runs(w: World, ops: seq<Op>, w': World)
    decreases |ops|
  {
    if ops == [] then w == w'
    else Fresh(w, ops[0]) && !Loses(w, ops[0]) && Runs(Apply(w, ops[0]), ops[1..], w')
  }

  /** Over every history of reservations, uploads, inbound files and confirmations taken
      one at a time, with failures anywhere but the one rewrite after a completed swap,
      each ready conversation attachment names an existing object. */
  lemma {:induction false} ReadyAttachmentsExist(w: World, ops: seq<Op>, w': World)
    requires Inv(w) && Runs(w, ops, w')
    ensures Inv(w') && ReadyHaveObjects(w')
    decreases |ops|
  {
    hide Apply, Fresh, Loses;
    if ops != [] {
      StepKeeps(w, ops[0]);
      ReadyAttachmentsExist(Apply(w, ops[0]), ops[1..], w');
    }
  }

  // ---- objects keep their content ----------------------------------------------

  /** Neither an upload to the object's key nor a conversion of its record. */
  predicate LeavesAlone(a: Attachment, op: Op) {
    && !(op.Put? && op.key == a.storageKey)
    && !(op.Finish? && op.id == a.id && NeedsOggConversion(a.contentType))
  }

  /** The record still names the object, and the object is still the data. */
  predicate Holds(w: World, a: Attachment, data: string) {
    && a.id in w.records
    && var b := w.records[a.id];
    && b.storageKey == a.storageKey && b.conversation == a.conversation && b.tenant == a.tenant
    && b.filename == a.filename && b.size == a.size
    && (NeedsOggConversion(b.contentType) <==> NeedsOggConversion(a.contentType))
    && a.storageKey in w.objects && w.objects[a.storageKey] == data
  }

  lemma OwnFinishHolds(w: World, a: Attachment, data: string, op: Op)
    requires Holds(w, a, data) && op.Finish? && op.id == a.id && LeavesAlone(a, op)
    ensures Holds(Apply(w, op), a, data)
  {
    TypeForConversion(WithMessage(w.records[a.id], op.message));
    hide NeedsOggConversion, SwapToOgg, TrimSpace, Authorize;
  }

  lemma ConvertedSpares(w: World, id: string, o: Outcomes, a: Attachment, x: string)
    requires Inv(w) && id in w.records && x in w.records && x != id && Fits(a, id)
    requires w.records[x].storageKey in w.objects
    ensures var objects := Converted(w, a, o).0; var key := w.records[x].storageKey;
      key in objects && objects[key] == w.objects[key]
  {
    hide NeedsOggConversion, SwapToOgg, Fits, Inv;
    if NeedsOggConversion(a.contentType) {
      ConversionSparesOthers(w, id, o, a, x);
    }
  }

  lemma OtherFinishHolds(w: World, a: Attachment, data: string, op: Op)
    requires Inv(w) && Holds(w, a, data) && op.Finish? && op.id != a.id
    ensures Holds(Apply(w, op), a, data)
  {
    hide Converted, NeedsOggConversion, Authorize, Inv, Fits, WithType, WithMessage;
    if op.id in w.records {
      RecordFits(w, op.id);
      TypedFits(w.records[op.id], op.message, op.id);
      ConvertedSpares(w, op.id, op.outcomes, WithType(WithMessage(w.records[op.id], op.message)), a.id);
    }
  }

  lemma NewKeyIsOther(w: World, a: Attachment, op: Op)
    requires Inv(w) && a.id in w.records && op.Inbound? && Fresh(w, op) && op.conversation != ""
    requires w.records[a.id].conversation != ""
    ensures Prefix(op.tenant, op.conversation, op.id) + SanitizeFilename(op.name) != w.records[a.id].storageKey
  {
    var f := SanitizeFilename(op.name);
    var key := Prefix(op.tenant, op.conversation, op.id) + f;
    var b := Attachment(op.id, op.tenant, op.conversation, "", f, "", 0, key, Ready);
    RecordFits(w, a.id);
    hide SanitizeFilename, NeedsOggConversion, Prefix, KeyOf, Inv;
    NewKeyFits(op.tenant, op.conversation, op.id, f, b);
    if key == w.records[a.id].storageKey {
      KeysAreApart(w.records[a.id], b, key);
    }
  }

  lemma NewObjectHolds(w: World, a: Attachment, data: string, op: Op)
    requires Inv(w) && Holds(w, a, data) && a.conversation != "" && op.Inbound? && Fresh(w, op)
    ensures Holds(Apply(w, op), a, data)
  {
    hide SanitizeFilename, TrimSpace, NeedsOggConversion, Prefix, Inv, Acceptable;
    if op.conversation != "" {
      NewKeyIsOther(w, a, op);
    }
  }

  /** One operation leaves another record's object, or an unconverted one's, as it was. */
  lemma ObjectKept(w: World, a: Attachment, data: string, op: Op)
    requires Inv(w) && Holds(w, a, data) && a.conversation != "" && Fresh(w, op) && LeavesAlone(a, op)
    ensures Holds(Apply(w, op), a, data)
  {
    match op
    case Finish(id, _, _, _) =>
      if id == a.id {
        OwnFinishHolds(w, a, data, op);
      } else {
        OtherFinishHolds(w, a, data, op);
      }
    case Inbound(_, _, _, _, _, _, _, _, _) => NewObjectHolds(w, a, data, op);
    case Put(_, _) =>
    case _ => ReserveHolds(w, a, data, op);
  }

  lemma ReserveHolds(w: World, a: Attachment, data: string, op: Op)
    requires Holds(w, a, data) && (op.Request? || op.Avatar?) && Fresh(w, op)
    ensures Holds(Apply(w, op), a, data)
  {
    hide SanitizeFilename, TrimSpace, NeedsOggConversion, Prefix, AvatarKey, IsImage, LoadVisible;
  }

  lemma {:induction false} HoldsOn(w: World, ops: seq<Op>, w': World, a: Attachment, data: string)
    requires Inv(w) && Runs(w, ops, w') && Holds(w, a, data) && a.conversation != ""
    requires forall i :: 0 <= i < |ops| ==> LeavesAlone(a, ops[i])
    ensures Holds(w', a, data)
    decreases |ops|
  {
    hide Apply, Fresh, Loses, LeavesAlone, Holds, Inv;
    if ops != [] {
      StepKeeps(w, ops[0]);
      ObjectKept(w, a, data, ops[0]);
      HoldsOn(Apply(w, ops[0]), ops[1..], w', a, data);
    }
  }

  /** Over every history, an inbound file's object stays its own data until someone
      uploads to its very key or its recording is converted. */
  lemma InboundDataStays(w: World, op: Op, ops: seq<Op>, w': World, a: Attachment)
    requires Inv(w) && op.Inbound? && Fresh(w, op)
    requires StoreInbound(w, op.p, op.tenant, op.conversation, op.id, op.name, op.type_, op.data,
                          op.putOk, op.createOk).1 == Ok(a)
    requires Runs(Apply(w, op), ops, w') && forall i :: 0 <= i < |ops| ==> LeavesAlone(a, ops[i])
    ensures a.id == op.id && a.id in w'.records && w'.records[a.id].storageKey == a.storageKey
    ensures a.storageKey in w'.objects && w'.objects[a.storageKey] == op.data
    ensures w'.records[a.id].size == |op.data|
  {
    hide Inv, Fresh, Runs, LeavesAlone, NeedsOggConversion;
    StepKeeps(w, op);
    InboundIsStored(w, op.p, op.tenant, op.conversation, op.id, op.name, op.type_, op.data, op.putOk, op.createOk);
    hide SanitizeFilename, TrimSpace, Prefix, StoreInbound, Acceptable;
    assert Holds(Apply(w, op), a, op.data);
    HoldsOn(Apply(w, op), ops, w', a, op.data);
  }
}
