/** Signed tokens: channel media (domain/attachments/service/service.go), local
    uploads (infra/storage/attachments_local.go) and file downloads
    (infra/storage/filestore.go). The keyed hash is any function printing 64
    hexadecimal digits. */
module Tokens {
  import opened Results
  import opened Text
  import opened Base64

  datatype Signer = Signer(mac: string -> string) {
    ghost predicate Hex() {
      forall p :: |mac(p)| == 64 && forall i :: 0 <= i < 64 ==> IsHex(mac(p)[i])
    }

    function Sign(payload: string): string
      requires Bytes(payload)
    {
      Encode(payload) + ['.'] + mac(Encode(payload))
    }

    /** The signed payload, when the token's hash is the one for its first part. */
    function Opened(token: string): Option<string> {
      var parts := SplitN(token, '.', 2);
      if |parts| != 2 || parts[1] != mac(parts[0]) || !Decode(parts[0]).ok then None
      else Some(Decode(parts[0]).bytes)
    }
  }

  predicate IsHex(c: char) { '0' <= c <= '9' || 'a' <= c <= 'f' }

  /** Expired(now, millis): now, in nanoseconds, is past the expiry. */
  predicate Expired(now: int, millis: int) { now > millis * 1_000_000 }

  lemma OpenedSigned(s: Signer, payload: string)
    requires Bytes(payload)
    ensures s.Opened(s.Sign(payload)) == Some(payload)
  {
    hide Encode, Decode, SplitN;
    var head := Encode(payload);
    EncodeAlphabet(payload);
    SplitNJoined(head, '.', s.mac(head), 2);
    SplitNOne(s.mac(head), '.');
    RoundTrip(payload);
  }

  /** A token opens exactly when it is some text and its own hash, and to what the text
      encodes. */
  lemma OpensOnlySigned(s: Signer, token: string, payload: string)
    ensures s.Opened(token) == Some(payload)
       <==> exists head :: '.' !in head && token == head + ['.'] + s.mac(head) && Decode(head) == Decoded(payload, true)
  {
    hide Decode, SplitN;
    if s.Opened(token) == Some(payload) {
      SplitAtDot(token);
      var i := IndexOf(token, '.');
      assert token == token[..i] + ['.'] + s.mac(token[..i]);
    }
    forall head | '.' !in head && token == head + ['.'] + s.mac(head) && Decode(head) == Decoded(payload, true)
      ensures s.Opened(token) == Some(payload)
    {
      SplitNJoined(head, '.', s.mac(head), 2);
      SplitNOne(s.mac(head), '.');
    }
  }

  lemma SplitAtDot(token: string)
    ensures |SplitN(token, '.', 2)| == 2 ==>
      var i := IndexOf(token, '.');
      i >= 0 && token == token[..i] + ['.'] + token[i + 1..] && SplitN(token, '.', 2) == [token[..i], token[i + 1..]]
  {
    hide SplitN;
    var i := IndexOf(token, '.');
    if i >= 0 {
      var head, rest := token[..i], token[i + 1..];
      assert token == head + ['.'] + rest;
      SplitNJoined(head, '.', rest, 2);
      SplitNOne(rest, '.');
    } else {
      NoSeparator(token, '.');
    }
  }

  // ---- channel media -------------------------------------------------------

  datatype Media = Media(key: string, contentType: string, filename: string)

  function MediaPayload(m: Media, exp: int): string
    requires Bytes(m.key) && Bytes(m.contentType) && Bytes(m.filename)
  {
    FormatInt(exp) + ['|'] + (Encode(m.contentType) + ['|'] + (Encode(m.filename) + ['|'] + Encode(m.key)))
  }

  lemma FormatIntBytes(n: int)
    ensures Bytes(FormatInt(n))
  {
    FormatIntChars(n);
    forall i | 0 <= i < |FormatInt(n)| ensures FormatInt(n)[i] as int < 256 {
      assert FormatInt(n)[i] in FormatInt(n);
    }
  }

  lemma EncodeBytes(s: string)
    requires Bytes(s)
    ensures Bytes(Encode(s)) && '|' !in Encode(s)
  {
    EncodeAlphabet(s);
  }

  lemma MediaPayloadBytes(m: Media, exp: int)
    requires Bytes(m.key) && Bytes(m.contentType) && Bytes(m.filename)
    ensures Bytes(MediaPayload(m, exp))
  {
    hide Encode, FormatInt;
    EncodeBytes(m.key);
    EncodeBytes(m.contentType);
    EncodeBytes(m.filename);
    FormatIntBytes(exp);
  }

  /** signMediaToken */
  function SignMedia(s: Signer, m: Media, exp: int): string
    requires Bytes(m.key) && Bytes(m.contentType) && Bytes(m.filename)
  {
    MediaPayloadBytes(m, exp);
    s.Sign(MediaPayload(m, exp))
  }

  /** verifyMediaToken. A content type or filename that does not decode is cut, a key
      that does not decode is refused. */
  function VerifyMedia(s: Signer, token: string, now: int): Option<Media> {
    var payload := s.Opened(token);
    if payload.None? then None
    else
      var f := SplitN(payload.value, '|', 4);
      if |f| != 4 || ParseInt(f[0]).None? || Expired(now, ParseInt(f[0]).value) || !Decode(f[3]).ok then None
      else Some(Media(Decode(f[3]).bytes, Decode(f[1]).bytes, Decode(f[2]).bytes))
  }

  lemma SplitMediaPayload(m: Media, exp: int)
    requires Bytes(m.key) && Bytes(m.contentType) && Bytes(m.filename)
    ensures SplitN(MediaPayload(m, exp), '|', 4)
         == [FormatInt(exp), Encode(m.contentType), Encode(m.filename), Encode(m.key)]
  {
    hide SplitN, Encode, FormatInt;
    FormatIntChars(exp);
    EncodeBytes(m.key);
    EncodeBytes(m.contentType);
    EncodeBytes(m.filename);
    var tail := Encode(m.filename) + ['|'] + Encode(m.key);
    SplitNOne(Encode(m.key), '|');
    SplitNJoined(Encode(m.filename), '|', Encode(m.key), 2);
    SplitNJoined(Encode(m.contentType), '|', tail, 3);
    SplitNJoined(FormatInt(exp), '|', Encode(m.contentType) + ['|'] + tail, 4);
  }

  lemma VerifySigned(s: Signer, m: Media, exp: int, now: int)
    requires Bytes(m.key) && Bytes(m.contentType) && Bytes(m.filename) && IsInt64(exp)
    ensures VerifyMedia(s, SignMedia(s, m, exp), now) == if now <= exp * 1_000_000 then Some(m) else None
  {
    hide SplitN, Encode, Decode, FormatInt, ParseInt, MediaPayload;
    MediaPayloadBytes(m, exp);
    OpenedSigned(s, MediaPayload(m, exp));
    SplitMediaPayload(m, exp);
    ParseFormat(exp);
    RoundTrip(m.key);
    RoundTrip(m.contentType);
    RoundTrip(m.filename);
  }

  lemma MediaLayout()
    ensures MediaPayload(Media("k", "t", "f"), 7) == "7|dA|Zg|aw"
  {
    OneLetters();
    hide Encode;
    assert FormatInt(7) == "7";
  }

  lemma OneLetters()
    ensures Encode("t") == "dA" && Encode("f") == "Zg" && Encode("k") == "aw"
  {
  }

  // ---- the cosmetic extension ----------------------------------------------

  /** The type without its parameters, trimmed and in lower case. */
  function BaseType(contentType: string): string {
    var i := IndexOf(contentType, ';');
    Lower(TrimSpace(if i >= 0 then contentType[..i] else contentType))
  }

  const KNOWN_EXTENSIONS: seq<string> :=
    [".ogg", ".mp3", ".m4a", ".aac", ".amr", ".wav", ".jpg", ".png", ".webp", ".mp4", ".pdf"]

  function MediaExtension(contentType: string): string {
    var ct := BaseType(contentType);
    if ct == "audio/ogg" then ".ogg"
    else if ct == "audio/mpeg" then ".mp3"
    else if ct in ["audio/mp4", "audio/m4a", "audio/x-m4a"] then ".m4a"
    else if ct == "audio/aac" then ".aac"
    else if ct == "audio/amr" then ".amr"
    else if ct in ["audio/wav", "audio/x-wav"] then ".wav"
    else if ct == "image/jpeg" then ".jpg"
    else if ct == "image/png" then ".png"
    else if ct == "image/webp" then ".webp"
    else if ct == "video/mp4" then ".mp4"
    else if ct == "application/pdf" then ".pdf"
    else ""
  }

  /** Parameters do not count, nor case, nor spaces around. */
  lemma BaseTypeReads(ct: string, parameters: string)
    requires ';' !in ct
    ensures BaseType(ct + [';'] + parameters) == BaseType(ct) == Lower(TrimSpace(ct))
  {
    hide TrimSpace, Lower;
    IndexOfJoined(ct, ';', parameters);
    assert (ct + [';'] + parameters)[..|ct|] == ct;
  }

  lemma ExtensionOf(ct: string)
    ensures BaseType(ct) == "audio/ogg" ==> MediaExtension(ct) == ".ogg"
    ensures BaseType(ct) == "audio/mpeg" ==> MediaExtension(ct) == ".mp3"
    ensures BaseType(ct) in {"audio/mp4", "audio/m4a", "audio/x-m4a"} ==> MediaExtension(ct) == ".m4a"
    ensures BaseType(ct) == "audio/aac" ==> MediaExtension(ct) == ".aac"
    ensures BaseType(ct) == "audio/amr" ==> MediaExtension(ct) == ".amr"
    ensures BaseType(ct) in {"audio/wav", "audio/x-wav"} ==> MediaExtension(ct) == ".wav"
    ensures BaseType(ct) == "image/jpeg" ==> MediaExtension(ct) == ".jpg"
    ensures BaseType(ct) == "image/png" ==> MediaExtension(ct) == ".png"
    ensures BaseType(ct) == "image/webp" ==> MediaExtension(ct) == ".webp"
    ensures BaseType(ct) == "video/mp4" ==> MediaExtension(ct) == ".mp4"
    ensures BaseType(ct) == "application/pdf" ==> MediaExtension(ct) == ".pdf"
  {
    hide BaseType;
  }

  predicate HasSuffix(s: string, suffix: string) {
    |suffix| <= |s| && s[|s| - |suffix|..] == suffix
  }

  function StripFirst(token: string, exts: seq<string>): string {
    if exts == [] then token
    else if HasSuffix(token, exts[0]) then token[..|token| - |exts[0]|]
    else StripFirst(token, exts[1..])
  }

  /** stripMediaExtension */
  function StripMediaExtension(token: string): string {
    StripFirst(token, KNOWN_EXTENSIONS)
  }

  /** One dot, in front, and short. */
  predicate Dotted(ext: string) {
    2 <= |ext| <= 5 && ext[0] == '.' && '.' !in ext[1..]
  }

  lemma ExtensionsAreDotted(contentType: string)
    ensures forall ext :: ext in KNOWN_EXTENSIONS ==> Dotted(ext)
    ensures MediaExtension(contentType) == "" || MediaExtension(contentType) in KNOWN_EXTENSIONS
  {
    hide BaseType;
  }

  /** The last 64 characters of a token are hexadecimal. */
  predicate HexTail(token: string) {
    |token| >= 64 && forall i :: |token| - 64 <= i < |token| ==> IsHex(token[i])
  }

  lemma SuffixOfToken(token: string, own: string, ext: string)
    requires HexTail(token) && Dotted(ext) && (own == "" || Dotted(own))
    ensures HasSuffix(token + own, ext) <==> ext == own
  {
    var s := token + own;
    assert forall k :: |token| - 64 <= k < |token| ==> s[k] == token[k] && s[k] != '.';
    assert forall k :: 1 <= k < |own| ==> own[k] == own[1..][k - 1] && s[|token| + k] == own[k];
    assert s[|token|..] == own;
    if HasSuffix(s, ext) {
      assert s[|s| - |ext|..][0] == '.';
      assert |s| - |ext| == |token|;
    }
  }

  lemma {:induction false} StripOwn(token: string, own: string, exts: seq<string>)
    requires HexTail(token) && forall ext :: ext in exts ==> Dotted(ext)
    requires own == "" || own in exts
    ensures StripFirst(token + own, exts) == token
  {
    if exts != [] {
      SuffixOfToken(token, own, exts[0]);
      if own != exts[0] {
        StripOwn(token, own, exts[1..]);
      } else {
        assert (token + own)[..|token|] == token;
      }
    } else {
      assert token + own == token;
    }
  }

  lemma SignedTail(s: Signer, m: Media, exp: int)
    requires Bytes(m.key) && Bytes(m.contentType) && Bytes(m.filename) && s.Hex()
    ensures HexTail(SignMedia(s, m, exp))
  {
    MediaPayloadBytes(m, exp);
    hide Encode, MediaPayload;
    var mac := s.mac(Encode(MediaPayload(m, exp)));
    var token := SignMedia(s, m, exp);
    assert forall i :: |token| - 64 <= i < |token| ==> token[i] == mac[i - (|token| - 64)];
  }

  /** A channel-media URL's token, extension and all, serves exactly the object it was
      signed for until it expires, and nothing after. */
  lemma MediaRoundTrip(s: Signer, m: Media, exp: int, now: int)
    requires Bytes(m.key) && Bytes(m.contentType) && Bytes(m.filename) && IsInt64(exp) && s.Hex()
    ensures VerifyMedia(s, StripMediaExtension(SignMedia(s, m, exp) + MediaExtension(m.contentType)), now)
         == if now <= exp * 1_000_000 then Some(m) else None
  {
    hide SignMedia, VerifyMedia, MediaExtension;
    SignedTail(s, m, exp);
    ExtensionsAreDotted(m.contentType);
    StripOwn(SignMedia(s, m, exp), MediaExtension(m.contentType), KNOWN_EXTENSIONS);
    VerifySigned(s, m, exp, now);
  }

  // ---- file downloads ------------------------------------------------------

  lemma FilePayloadBytes(key: string, exp: int)
    requires Bytes(key)
    ensures Bytes(FormatInt(exp) + [':'] + key)
  {
    FormatIntBytes(exp);
  }

  function SignFile(s: Signer, key: string, exp: int): string
    requires Bytes(key)
  {
    FilePayloadBytes(key, exp);
    s.Sign(FormatInt(exp) + [':'] + key)
  }

  function ResolveFile(s: Signer, token: string, now: int): Option<string> {
    var payload := s.Opened(token);
    if payload.None? then None
    else
      var i := IndexOf(payload.value, ':');
      if i < 0 || ParseInt(payload.value[..i]).None? || Expired(now, ParseInt(payload.value[..i]).value) then None
      else Some(payload.value[i + 1..])
  }

  /** Any key, colons included, comes back. */
  lemma FileRoundTrip(s: Signer, key: string, exp: int, now: int)
    requires Bytes(key) && IsInt64(exp)
    ensures ResolveFile(s, SignFile(s, key, exp), now) == if now <= exp * 1_000_000 then Some(key) else None
  {
    hide FormatInt, ParseInt, Encode, Decode, SplitN;
    FilePayloadBytes(key, exp);
    var payload := FormatInt(exp) + [':'] + key;
    OpenedSigned(s, payload);
    FormatIntChars(exp);
    IndexOfJoined(FormatInt(exp), ':', key);
    assert payload[..|FormatInt(exp)|] == FormatInt(exp) && payload[|FormatInt(exp)| + 1..] == key;
    ParseFormat(exp);
  }

  // ---- direct uploads ------------------------------------------------------

  datatype Upload = Upload(key: string, contentType: string, size: int)

  function UploadPayload(u: Upload, exp: int): string {
    FormatInt(exp) + ['|'] + (FormatInt(u.size) + ['|'] + (u.contentType + ['|'] + u.key))
  }

  lemma UploadPayloadBytes(u: Upload, exp: int)
    requires Bytes(u.key) && Bytes(u.contentType)
    ensures Bytes(UploadPayload(u, exp))
  {
    hide FormatInt;
    FormatIntBytes(exp);
    FormatIntBytes(u.size);
  }

  function SignUpload(s: Signer, u: Upload, exp: int): string
    requires Bytes(u.key) && Bytes(u.contentType)
  {
    UploadPayloadBytes(u, exp);
    s.Sign(UploadPayload(u, exp))
  }

  /** strconv.ParseInt without its error: zero for a malformed number, and the nearest
      64-bit integer for one out of range. */
  function ParsedAnyway(s: string): int {
    var body := if s != "" && (s[0] == '-' || s[0] == '+') then s[1..] else s;
    if ParseInt(s).Some? then ParseInt(s).value
    else if body == "" || !AllDigits(body) then 0
    else if s[0] == '-' then MIN_INT64
    else MAX_INT64
  }

  /** A number out of range reads as the nearest one within. */
  lemma ParsedAnywayReads(n: int)
    ensures ParsedAnyway(FormatInt(n)) == if n < MIN_INT64 then MIN_INT64 else if n > MAX_INT64 then MAX_INT64 else n
  {
    hide Digits, DigitsValue;
    if IsInt64(n) {
      ParseFormat(n);
    } else if n < 0 {
      DigitsRoundTrip(-n);
      assert FormatInt(n) == ['-'] + Digits(-n);
      assert FormatInt(n)[1..] == Digits(-n);
    } else {
      DigitsRoundTrip(n);
      assert IsDigit(Digits(n)[0]);
    }
  }

  /** The size's error is ignored. */
  function ResolveUpload(s: Signer, token: string, now: int): Option<Upload> {
    var payload := s.Opened(token);
    if payload.None? then None
    else
      var f := SplitN(payload.value, '|', 4);
      if |f| != 4 || ParseInt(f[0]).None? || Expired(now, ParseInt(f[0]).value) then None
      else Some(Upload(f[3], f[2], ParsedAnyway(f[1])))
  }

  lemma UploadLayout()
    ensures UploadPayload(Upload("k", "t", 5), 7) == "7|5|t|k"
  {
    assert FormatInt(7) == "7" && FormatInt(5) == "5";
  }

  lemma SplitUploadPayload(u: Upload, exp: int)
    ensures SplitN(UploadPayload(u, exp), '|', 4)
         == [FormatInt(exp), FormatInt(u.size)] + SplitN(u.contentType + ['|'] + u.key, '|', 2)
  {
    hide SplitN, FormatInt;
    FormatIntChars(exp);
    FormatIntChars(u.size);
    var tail := u.contentType + ['|'] + u.key;
    SplitNJoined(FormatInt(u.size), '|', tail, 3);
    SplitNJoined(FormatInt(exp), '|', FormatInt(u.size) + ['|'] + tail, 4);
  }

  /** With a '|' in the content type, the field ends there. */
  lemma SplitAtContentType(u: Upload)
    ensures var f := SplitN(u.contentType + ['|'] + u.key, '|', 2);
      |f| == 2 && (f == [u.contentType, u.key] <==> '|' !in u.contentType)
  {
    var s := u.contentType + ['|'] + u.key;
    var i := IndexOf(s, '|');
    assert s[|u.contentType|] == '|';
    SplitNOne(s[i + 1..], '|');
    if '|' !in u.contentType {
      SplitNJoined(u.contentType, '|', u.key, 2);
      SplitNOne(u.key, '|');
    } else {
      var k :| 0 <= k < |u.contentType| && u.contentType[k] == '|';
      assert s[k] == '|';
      assert i <= k;
      assert SplitN(s, '|', 2)[0] == s[..i];
    }
  }

  /** An upload token gives back its key, type and size exactly until its expiry and when
      the content type holds no '|'; after the expiry it gives nothing. */
  lemma UploadRoundTripIff(s: Signer, u: Upload, exp: int, now: int)
    requires Bytes(u.key) && Bytes(u.contentType) && IsInt64(exp) && IsInt64(u.size)
    ensures ResolveUpload(s, SignUpload(s, u, exp), now) == Some(u) <==> now <= exp * 1_000_000 && '|' !in u.contentType
    ensures ResolveUpload(s, SignUpload(s, u, exp), now).Some? <==> now <= exp * 1_000_000
  {
    hide SplitN, Encode, Decode, FormatInt, ParseInt, UploadPayload;
    UploadPayloadBytes(u, exp);
    OpenedSigned(s, UploadPayload(u, exp));
    SplitUploadPayload(u, exp);
    SplitAtContentType(u);
    ParseFormat(exp);
    ParseFormat(u.size);
  }

  /** With one, the type is cut there and the rest of it becomes part of the key. */
  lemma UploadTypeIsCut(s: Signer, key: string, head: string, tail: string, size: int, exp: int, now: int)
    requires Bytes(key) && Bytes(head + ['|'] + tail) && '|' !in head
    requires IsInt64(exp) && IsInt64(size)
    ensures var u := Upload(key, head + ['|'] + tail, size);
      ResolveUpload(s, SignUpload(s, u, exp), now)
      == if now <= exp * 1_000_000 then Some(Upload(tail + ['|'] + key, head, size)) else None
  {
    hide SplitN, Encode, Decode, FormatInt, ParseInt, UploadPayload;
    var u := Upload(key, head + ['|'] + tail, size);
    UploadPayloadBytes(u, exp);
    OpenedSigned(s, UploadPayload(u, exp));
    SplitCutType(u, head, tail, exp);
    ParseFormat(exp);
    ParseFormat(size);
  }

  lemma SplitCutType(u: Upload, head: string, tail: string, exp: int)
    requires u.contentType == head + ['|'] + tail && '|' !in head
    ensures SplitN(UploadPayload(u, exp), '|', 4)
         == [FormatInt(exp), FormatInt(u.size), head, tail + ['|'] + u.key]
  {
    hide SplitN, FormatInt, UploadPayload;
    SplitUploadPayload(u, exp);
    assert u.contentType + ['|'] + u.key == head + ['|'] + (tail + ['|'] + u.key);
    SplitNJoined(head, '|', tail + ['|'] + u.key, 2);
    SplitNOne(tail + ['|'] + u.key, '|');
  }

  /** For instance. */
  lemma UploadOfTwoTypes(s: Signer)
    ensures ResolveUpload(s, SignUpload(s, Upload("k", "a|b", 1), 1), 0) == Some(Upload("b|k", "a", 1))
  {
    hide SplitN, Encode, Decode, FormatInt, ParseInt, SignUpload, ResolveUpload;
    assert "a" + ['|'] + "b" == "a|b" && "b" + ['|'] + "k" == "b|k";
    UploadTypeIsCut(s, "k", "a", "b", 1, 1, 0);
  }
}
