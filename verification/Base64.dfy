/** Unpadded base64url (sections 3.2 and 5 of RFC 4648), as encoding/base64's
    RawURLEncoding writes and reads it. Byte strings are strings of characters below 256. */
module Base64 {

  predicate Bytes(s: string) {
    forall i :: 0 <= i < |s| ==> s[i] as int < 256
  }

  // ---- the alphabet --------------------------------------------------------

  predicate InAlphabet(c: char) {
    'A' <= c <= 'Z' || 'a' <= c <= 'z' || '0' <= c <= '9' || c == '-' || c == '_'
  }

  function Symbol(v: nat): (c: char)
    requires v < 64
    ensures InAlphabet(c) && ValueOf(c) == v
  {
    if v < 26 then ('A' as int + v) as char
    else if v < 52 then ('a' as int + v - 26) as char
    else if v < 62 then ('0' as int + v - 52) as char
    else if v == 62 then '-' else '_'
  }

  function ValueOf(c: char): (v: nat)
    requires InAlphabet(c)
    ensures v < 64
  {
    if 'A' <= c <= 'Z' then c as int - 'A' as int
    else if 'a' <= c <= 'z' then c as int - 'a' as int + 26
    else if '0' <= c <= '9' then c as int - '0' as int + 52
    else if c == '-' then 62 else 63
  }

  function ByteChar(n: nat): (c: char)
    requires n < 256
    ensures c as int == n
  {
    n as char
  }

  // ---- encoding ------------------------------------------------------------

  function Encode(s: string): string
    requires Bytes(s)
  {
    if s == "" then ""
    else if |s| == 1 then
      [Symbol(s[0] as int / 4), Symbol(s[0] as int % 4 * 16)]
    else if |s| == 2 then
      [Symbol(s[0] as int / 4), Symbol(s[0] as int % 4 * 16 + s[1] as int / 16), Symbol(s[1] as int % 16 * 4)]
    else
      Quantum(s[0], s[1], s[2]) + Encode(s[3..])
  }

  function Quantum(a: char, b: char, c: char): string
    requires a as int < 256 && b as int < 256 && c as int < 256
  {
    [Symbol(a as int / 4), Symbol(a as int % 4 * 16 + b as int / 16),
     Symbol(b as int % 16 * 4 + c as int / 64), Symbol(c as int % 64)]
  }

  // ---- decoding ------------------------------------------------------------

  /** On a malformed input, bytes holds what the well-formed quanta before it gave. */
  datatype Decoded = Decoded(bytes: string, ok: bool)

  /** Line breaks are skipped wherever they stand. */
  function WithoutBreaks(s: string): string {
    if s == "" then ""
    else if s[0] == '\n' || s[0] == '\r' then WithoutBreaks(s[1..])
    else [s[0]] + WithoutBreaks(s[1..])
  }

  function Decode(s: string): Decoded {
    DecodeQuanta(WithoutBreaks(s))
  }

  /** The last, short quantum's spare bits are not checked. */
  function DecodeQuanta(s: string): Decoded {
    if s == "" then Decoded("", true)
    else if |s| == 1 || !InAlphabet(s[0]) || !InAlphabet(s[1]) then Decoded("", false)
    else
      var first := ByteChar(ValueOf(s[0]) * 4 + ValueOf(s[1]) / 16);
      if |s| == 2 then Decoded([first], true)
      else if !InAlphabet(s[2]) then Decoded("", false)
      else
        var second := ByteChar(ValueOf(s[1]) % 16 * 16 + ValueOf(s[2]) / 4);
        if |s| == 3 then Decoded([first, second], true)
        else if !InAlphabet(s[3]) then Decoded("", false)
        else
          var third := ByteChar(ValueOf(s[2]) % 4 * 64 + ValueOf(s[3]));
          var rest := DecodeQuanta(s[4..]);
          Decoded([first, second, third] + rest.bytes, rest.ok)
  }

  // ---- round trip ----------------------------------------------------------

  predicate AllInAlphabet(s: string) {
    forall i :: 0 <= i < |s| ==> InAlphabet(s[i])
  }

  lemma {:induction false} EncodeAlphabet(s: string)
    requires Bytes(s)
    ensures AllInAlphabet(Encode(s))
  {
    if |s| > 2 {
      EncodeAlphabet(s[3..]);
    }
  }

  lemma {:induction false} NoBreaks(s: string)
    requires AllInAlphabet(s)
    ensures WithoutBreaks(s) == s
  {
    if s != "" {
      NoBreaks(s[1..]);
    }
  }

  lemma QuantumDecodes(a: char, b: char, c: char, rest: string)
    requires a as int < 256 && b as int < 256 && c as int < 256
    ensures DecodeQuanta(Quantum(a, b, c) + rest)
         == Decoded([a, b, c] + DecodeQuanta(rest).bytes, DecodeQuanta(rest).ok)
  {
    hide Symbol, ValueOf, InAlphabet;
    var s := Quantum(a, b, c) + rest;
    assert s[4..] == rest;
    BitsRejoin(a as int, b as int, c as int);
  }

  lemma BitsRejoin(a: nat, b: nat, c: nat)
    requires a < 256 && b < 256 && c < 256
    ensures a / 4 * 4 + (a % 4 * 16 + b / 16) / 16 == a
    ensures (a % 4 * 16 + b / 16) % 16 * 16 + (b % 16 * 4 + c / 64) / 4 == b
    ensures (b % 16 * 4 + c / 64) % 4 * 64 + c % 64 == c
  {
  }

  lemma OneByte(a: char)
    requires a as int < 256
    ensures DecodeQuanta(Encode([a])) == Decoded([a], true)
  {
    hide Symbol, ValueOf, InAlphabet;
    BitsRejoin(a as int, 0, 0);
  }

  lemma TwoBytes(a: char, b: char)
    requires a as int < 256 && b as int < 256
    ensures DecodeQuanta(Encode([a, b])) == Decoded([a, b], true)
  {
    hide Symbol, ValueOf, InAlphabet;
    BitsRejoin(a as int, b as int, 0);
  }

  lemma OneMoreQuantum(s: string)
    requires Bytes(s) && |s| > 2 && DecodeQuanta(Encode(s[3..])) == Decoded(s[3..], true)
    ensures DecodeQuanta(Encode(s)) == Decoded(s, true)
  {
    assert Encode(s) == Quantum(s[0], s[1], s[2]) + Encode(s[3..]);
    hide DecodeQuanta, Quantum, Encode;
    QuantumDecodes(s[0], s[1], s[2], Encode(s[3..]));
    assert s == [s[0], s[1], s[2]] + s[3..];
  }

  lemma {:induction false} QuantaRoundTrip(s: string)
    requires Bytes(s)
    ensures DecodeQuanta(Encode(s)) == Decoded(s, true)
  {
    if |s| == 0 {
      assert Encode(s) == "";
    } else {
      hide DecodeQuanta, Encode;
      if |s| == 1 {
        OneByte(s[0]);
        assert s == [s[0]];
      } else if |s| == 2 {
        TwoBytes(s[0], s[1]);
        assert s == [s[0], s[1]];
      } else {
        QuantaRoundTrip(s[3..]);
        OneMoreQuantum(s);
      }
    }
  }

  /** Every byte string decodes back from its encoding. */
  lemma RoundTrip(s: string)
    requires Bytes(s)
    ensures Decode(Encode(s)) == Decoded(s, true)
  {
    EncodeAlphabet(s);
    NoBreaks(Encode(s));
    QuantaRoundTrip(s);
  }

  // ---- what decodes ----------------------------------------------------------

  lemma {:induction false} QuantaOkIff(s: string)
    ensures DecodeQuanta(s).ok <==> AllInAlphabet(s) && |s| % 4 != 1
  {
    hide ByteChar, ValueOf, InAlphabet;
    if |s| > 4 {
      QuantaOkIff(s[4..]);
      assert s == s[..4] + s[4..];
    }
  }

  /** A text decodes exactly when, line breaks aside, it stays in the alphabet and has no
      single symbol left over. */
  lemma DecodesIff(s: string)
    ensures Decode(s).ok <==> AllInAlphabet(WithoutBreaks(s)) && |WithoutBreaks(s)| % 4 != 1
  {
    QuantaOkIff(WithoutBreaks(s));
  }

  lemma {:induction false} BreaksAppend(a: string, b: string)
    ensures WithoutBreaks(a + b) == WithoutBreaks(a) + WithoutBreaks(b)
  {
    if a == "" {
      assert a + b == b;
    } else {
      var s := a + b;
      assert s[0] == a[0] && s[1..] == a[1..] + b;
      BreaksAppend(a[1..], b);
    }
  }

  /** A line break anywhere changes nothing. */
  lemma BreaksDoNotMatter(a: string, c: char, b: string)
    requires c == '\n' || c == '\r'
    ensures Decode(a + [c] + b) == Decode(a + b)
  {
    hide DecodeQuanta;
    BreaksAppend(a + [c], b);
    BreaksAppend(a, [c]);
    BreaksAppend(a, b);
    assert WithoutBreaks([c]) == "" by {
      assert [c][1..] == "";
    }
    assert WithoutBreaks(a + [c] + b) == WithoutBreaks(a + b);
  }

  /** Test vectors of section 10 of RFC 4648, unpadded; UrlSymbols has the two symbols of
      section 5 that set this alphabet apart. */
  lemma StandardVectors()
    ensures Encode("f") == "Zg" && Encode("fo") == "Zm8"
  {
  }

  lemma FourSymbols()
    ensures Symbol(25) == 'Z' && Symbol(38) == 'm' && Symbol(61) == '9' && Symbol(47) == 'v'
  {
  }

  lemma StandardQuantum()
    ensures Encode("foo") == "Zm9v"
  {
    FourSymbols();
    hide Symbol;
    assert Quantum('f', 'o', 'o') == [Symbol(25), Symbol(38), Symbol(61), Symbol(47)];
    hide Quantum;
    var s := "foo";
    assert s[0] == 'f' && s[1] == 'o' && s[2] == 'o' && s[3..] == "";
  }

  lemma UrlSymbols()
    ensures Encode("\U{00FB}\U{00FF}") == "-_8"
  {
  }
}
