/** Base64 (sections 4 and 5 of RFC 4648) and the normal form of X25519 keys (internal/xraycfg/render.go). */
module Base64 {
  import opened Rows
  import opened Text

  type Byte = x: int | 0 <= x < 256
  type Sextet = x: int | 0 <= x < 64

  /** The standard or the URL-safe alphabet, with or without padding. */
  datatype Encoding = Encoding(url: bool, padded: bool)

  const RAW_URL := Encoding(true, false)

  // ---------------------------------------------------------------------------------------------
  // The alphabets

  function Letter(v: Sextet, url: bool): char {
    if v < 26 then ('A' as int + v) as char
    else if v < 52 then ('a' as int + v - 26) as char
    else if v < 62 then ('0' as int + v - 52) as char
    else if v == 62 then if url then '-' else '+'
    else if url then '_' else '/'
  }

  function Value(c: char, url: bool): Option<Sextet> {
    if 'A' <= c <= 'Z' then Some(c as int - 'A' as int)
    else if 'a' <= c <= 'z' then Some(c as int - 'a' as int + 26)
    else if '0' <= c <= '9' then Some(c as int - '0' as int + 52)
    else if c == (if url then '-' else '+') then Some(62)
    else if c == (if url then '_' else '/') then Some(63)
    else None
  }

  lemma LetterValue(v: Sextet, url: bool)
    ensures Value(Letter(v, url), url) == Some(v)
    ensures var c := Letter(v, url); !IsSpace(c) && c != '='
  {
  }

  /** The alphabets never give one letter two values. */
  lemma ValuesAgree(c: char, u: bool, w: bool)
    requires Value(c, u).Some? && Value(c, w).Some?
    ensures Value(c, u) == Value(c, w)
  {
  }

  // ---------------------------------------------------------------------------------------------
  // Encoding

  function Letters(vs: seq<Sextet>, url: bool): (s: string)
    ensures |s| == |vs|
  {
    seq(|vs|, i requires 0 <= i < |vs| => Letter(vs[i], url))
  }

  function Pad(n: nat, padded: bool): string {
    if padded then seq(n, _ => '=') else ""
  }

  function Encode(b: seq<Byte>, e: Encoding): string {
    if |b| == 0 then ""
    else if |b| == 1 then Letters([b[0] / 4, b[0] % 4 * 16], e.url) + Pad(2, e.padded)
    else if |b| == 2 then Letters([b[0] / 4, b[0] % 4 * 16 + b[1] / 16, b[1] % 16 * 4], e.url) + Pad(1, e.padded)
    else
      Letters([b[0] / 4, b[0] % 4 * 16 + b[1] / 16, b[1] % 16 * 4 + b[2] / 64, b[2] % 64], e.url) + Encode(b[3..], e)
  }

  // ---------------------------------------------------------------------------------------------
  // Decoding

  /** Carriage returns and line feeds are ignored wherever they stand. */
  function SkipBreaks(s: string): string {
    if s == "" then "" else (if s[0] in {'\r', '\n'} then "" else [s[0]]) + SkipBreaks(s[1..])
  }

  function Values(s: string, url: bool): Option<seq<Sextet>> {
    if s == "" then Some([])
    else
      var v, rest := Value(s[0], url), Values(s[1..], url);
      if v.Some? && rest.Some? then Some([v.value] + rest.value) else None
  }

  function FirstByte(a: int, b: int): Byte
    requires 0 <= a < 64 && 0 <= b < 64
  {
    a * 4 + b / 16
  }

  function SecondByte(b: int, c: int): Byte
    requires 0 <= b < 64 && 0 <= c < 64
  {
    b % 16 * 16 + c / 4
  }

  function ThirdByte(c: int, d: int): Byte
    requires 0 <= c < 64 && 0 <= d < 64
  {
    c % 4 * 64 + d
  }

  /** The bytes of two, three or four sextets; bits left over are dropped. */
  function Quantum(v: seq<Sextet>): seq<Byte>
    requires 2 <= |v| <= 4
  {
    [FirstByte(v[0], v[1])] +
    (if |v| > 2 then [SecondByte(v[1], v[2])] else []) +
    (if |v| > 3 then [ThirdByte(v[2], v[3])] else [])
  }

  /** The last, possibly short group: its letters without the padding that must complete it. */
  function Stripped(s: string, padded: bool): Option<string> {
    if !padded then if |s| == 1 then None else Some(s)
    else if |s| != 4 then None
    else if s[2] == '=' && s[3] == '=' then Some(s[..2])
    else if s[3] == '=' then Some(s[..3])
    else Some(s)
  }

  function DecodeQuanta(s: string, e: Encoding): Option<seq<Byte>> {
    if s == "" then Some([])
    else if |s| <= 4 then
      var last := Stripped(s, e.padded);
      if last.None? then None
      else
        var v := Values(last.value, e.url);
        if v.Some? && 2 <= |v.value| <= 4 then Some(Quantum(v.value)) else None
    else
      var v, rest := Values(s[..4], e.url), DecodeQuanta(s[4..], e);
      if v.Some? && |v.value| == 4 && rest.Some? then Some(Quantum(v.value) + rest.value) else None
  }

  /** DecodeString of a padding-optional, non-strict encoding. */
  function Decode(s: string, e: Encoding): Option<seq<Byte>> {
    DecodeQuanta(SkipBreaks(s), e)
  }

  // ---------------------------------------------------------------------------------------------
  // Decoding undoes encoding

  lemma {:induction false} LettersValues(vs: seq<Sextet>, url: bool)
    ensures Values(Letters(vs, url), url) == Some(vs)
  {
    if vs != [] {
      LettersValues(vs[1..], url);
      LetterValue(vs[0], url);
      assert Letters(vs, url)[1..] == Letters(vs[1..], url);
      assert vs == [vs[0]] + vs[1..];
    }
  }

  lemma FirstByteBack(a: Byte, low: int)
    requires 0 <= low < 16
    ensures FirstByte(a / 4, a % 4 * 16 + low) == a
  {
    var x := a % 4 * 16 + low;
    assert x / 16 == a % 4;
  }

  lemma SecondByteBack(b: Byte, high: int, low: int)
    requires 0 <= high < 4 && 0 <= low < 4
    ensures SecondByte(high * 16 + b / 16, b % 16 * 4 + low) == b
  {
    var x, y := high * 16 + b / 16, b % 16 * 4 + low;
    assert x % 16 == b / 16;
    assert y / 4 == b % 16;
  }

  lemma ThirdByteBack(c: Byte, high: int)
    requires 0 <= high < 16
    ensures ThirdByte(high * 4 + c / 64, c % 64) == c
  {
    var x := high * 4 + c / 64;
    assert x % 4 == c / 64;
  }

  lemma FullQuantum(a: Byte, b: Byte, c: Byte)
    ensures Quantum([a / 4, a % 4 * 16 + b / 16, b % 16 * 4 + c / 64, c % 64]) == [a, b, c]
  {
    hide FirstByte, SecondByte, ThirdByte;
    FirstByteBack(a, b / 16);
    SecondByteBack(b, a % 4, c / 64);
    ThirdByteBack(c, b % 16);
  }

  lemma ShortQuanta(a: Byte, b: Byte)
    ensures Quantum([a / 4, a % 4 * 16]) == [a]
    ensures Quantum([a / 4, a % 4 * 16 + b / 16, b % 16 * 4]) == [a, b]
  {
    hide FirstByte, SecondByte;
    FirstByteBack(a, 0);
    FirstByteBack(a, b / 16);
    SecondByteBack(b, a % 4, 0);
  }

  lemma StrippedPadded(vs: seq<Sextet>, e: Encoding)
    requires 2 <= |vs| <= 4
    ensures Stripped(Letters(vs, e.url) + Pad(4 - |vs|, e.padded), e.padded) == Some(Letters(vs, e.url))
  {
    hide Letter;
    var l := Letters(vs, e.url);
    var s := l + Pad(4 - |vs|, e.padded);
    forall i | 0 <= i < |vs| ensures l[i] != '=' && s[i] == l[i] {
      LetterValue(vs[i], e.url);
    }
    assert s[..|l|] == l;
    if e.padded {
      assert |s| == 4 && forall i :: |vs| <= i < 4 ==> s[i] == '=';
      if |vs| == 4 {
        assert s == l;
      }
    } else {
      assert s == l;
    }
  }

  lemma {:induction false} EncodeEmptiness(b: seq<Byte>, e: Encoding)
    ensures Encode(b, e) == "" <==> b == []
  {
    if |b| == 0 {
    } else if |b| == 1 {
      assert |Encode(b, e)| >= 2;
    } else if |b| == 2 {
      assert |Encode(b, e)| >= 3;
    } else {
      assert |Encode(b, e)| >= 4;
    }
  }

  lemma {:induction false} QuantaRoundTrip(b: seq<Byte>, e: Encoding)
    ensures DecodeQuanta(Encode(b, e), e) == Some(b)
  {
    hide Letters, Stripped, Quantum, Values;
    if b == [] {
    } else if |b| <= 2 {
      var vs: seq<Sextet> := if |b| == 1 then [b[0] / 4, b[0] % 4 * 16]
        else [b[0] / 4, b[0] % 4 * 16 + b[1] / 16, b[1] % 16 * 4];
      StrippedPadded(vs, e);
      LettersValues(vs, e.url);
      ShortQuanta(b[0], if |b| == 1 then 0 else b[1]);
      assert b == if |b| == 1 then [b[0]] else [b[0], b[1]];
    } else {
      var vs: seq<Sextet> := [b[0] / 4, b[0] % 4 * 16 + b[1] / 16, b[1] % 16 * 4 + b[2] / 64, b[2] % 64];
      LettersValues(vs, e.url);
      FullQuantum(b[0], b[1], b[2]);
      QuantaRoundTrip(b[3..], e);
      EncodeEmptiness(b[3..], e);
      FirstGroup(b, vs, e);
    }
  }

  lemma FirstGroup(b: seq<Byte>, vs: seq<Sextet>, e: Encoding)
    requires |b| >= 3 && |vs| == 4 && Encode(b, e) == Letters(vs, e.url) + Encode(b[3..], e)
    requires DecodeQuanta(Encode(b[3..], e), e) == Some(b[3..])
    requires Values(Letters(vs, e.url), e.url) == Some(vs) && Quantum(vs) == [b[0], b[1], b[2]]
    ensures DecodeQuanta(Encode(b, e), e) == Some(b)
  {
    hide Encode, Values, Quantum, Letter;
    var l, s := Letters(vs, e.url), Encode(b, e);
    assert b == [b[0], b[1], b[2]] + b[3..];
    assert s[..4] == l && s[4..] == Encode(b[3..], e);
    if s[4..] == "" {
      assert s == l;
      assert DecodeQuanta("", e) == Some([]);
      assert b[3..] == [];
      assert b == [b[0], b[1], b[2]];
      StrippedPadded(vs, e);
      assert l + Pad(4 - |vs|, e.padded) == l;
    }
  }

  /** Only letters of the alphabet and padding. */
  predicate Printable(s: string) {
    forall i :: 0 <= i < |s| ==> !IsSpace(s[i])
  }

  lemma {:induction false} EncodeIsPrintable(b: seq<Byte>, e: Encoding)
    ensures Printable(Encode(b, e))
  {
    hide Letter, IsSpace;
    assert !IsSpace('=') by { EqualsIsNoSpace(); }
    if |b| > 0 {
      var vs: seq<Sextet> := if |b| == 1 then [b[0] / 4, b[0] % 4 * 16]
                             else if |b| == 2 then [b[0] / 4, b[0] % 4 * 16 + b[1] / 16, b[1] % 16 * 4]
                             else [b[0] / 4, b[0] % 4 * 16 + b[1] / 16, b[1] % 16 * 4 + b[2] / 64, b[2] % 64];
      forall i | 0 <= i < |vs| ensures !IsSpace(Letters(vs, e.url)[i]) {
        LetterValue(vs[i], e.url);
      }
      if |b| > 2 {
        EncodeIsPrintable(b[3..], e);
      }
    }
  }

  lemma EqualsIsNoSpace()
    ensures !IsSpace('=')
  {
  }

  lemma {:induction false} NoBreaksInPrintable(s: string)
    requires Printable(s)
    ensures SkipBreaks(s) == s
  {
    if s != "" {
      NoBreaksInPrintable(s[1..]);
      assert s == [s[0]] + s[1..];
    }
  }

  lemma PrintableIsTrimmed(s: string)
    requires Printable(s)
    ensures Trim(s) == s
  {
  }

  /** Every byte sequence survives encoding and decoding. */
  lemma RoundTrip(b: seq<Byte>, e: Encoding)
    ensures Decode(Encode(b, e), e) == Some(b)
  {
    hide Encode, DecodeQuanta, SkipBreaks, IsSpace;
    EncodeIsPrintable(b, e);
    NoBreaksInPrintable(Encode(b, e));
    QuantaRoundTrip(b, e);
  }

  // ---------------------------------------------------------------------------------------------
  // All decoders that accept a text agree

  lemma {:induction false} SameValues(s: string, u: bool, w: bool)
    requires Values(s, u).Some? && Values(s, w).Some?
    ensures Values(s, u) == Values(s, w)
  {
    hide Value;
    if s != "" {
      SameValues(s[1..], u, w);
      ValuesAgree(s[0], u, w);
    }
  }

  lemma {:induction false} ValuesLetters(s: string, url: bool)
    requires Values(s, url).Some?
    ensures |Values(s, url).value| == |s| && '=' !in s
  {
    if s != "" {
      ValuesLetters(s[1..], url);
      assert s == [s[0]] + s[1..];
    }
  }

  lemma {:induction false} QuantaAgree(s: string, d: Encoding, e: Encoding)
    requires DecodeQuanta(s, d).Some? && DecodeQuanta(s, e).Some?
    ensures DecodeQuanta(s, d) == DecodeQuanta(s, e)
  {
    hide Values, Quantum;
    if s == "" {
    } else if |s| <= 4 {
      var x, y := Stripped(s, d.padded).value, Stripped(s, e.padded).value;
      ValuesLetters(x, d.url);
      ValuesLetters(y, e.url);
      SameStripped(s, d.padded, e.padded);
      SameValues(x, d.url, e.url);
    } else {
      SameValues(s[..4], d.url, e.url);
      QuantaAgree(s[4..], d, e);
    }
  }

  lemma SameStripped(s: string, p: bool, q: bool)
    requires |s| <= 4 && Stripped(s, p).Some? && Stripped(s, q).Some?
    requires '=' !in Stripped(s, p).value && '=' !in Stripped(s, q).value
    ensures Stripped(s, p) == Stripped(s, q)
  {
  }

  /** Any two of the encodings that both accept a text read the same bytes from it. */
  lemma DecodersAgree(s: string, d: Encoding, e: Encoding)
    requires Decode(s, d).Some? && Decode(s, e).Some?
    ensures Decode(s, d) == Decode(s, e)
  {
    QuantaAgree(SkipBreaks(s), d, e);
  }

  // ---------------------------------------------------------------------------------------------
  // Keys

  const TRIED := [RAW_URL, Encoding(true, true), Encoding(false, false), Encoding(false, true)]

  predicate IsKeyIn(s: string, e: Encoding) {
    Decode(s, e).Some? && |Decode(s, e).value| == 32
  }

  /** Some encoding reads 32 bytes from the text. */
  predicate IsKey(s: string) {
    exists i :: 0 <= i < |TRIED| && IsKeyIn(s, TRIED[i])
  }

  method NormalizeX25519KeyBase64(raw: string) returns (out: string)
    ensures !IsKey(Trim(raw)) ==> out == Trim(raw)
    ensures forall e :: IsKeyIn(Trim(raw), e) ==> out == Encode(Decode(Trim(raw), e).value, RAW_URL)
    ensures out == NormalKey(raw)
  {
    hide Decode, Encode, Trim;
    var s := Trim(raw);
    EveryEncodingIsTried(s);
    KeyBytesAgree(s);
    if s == "" {
      EmptyIsNoKey();
      return s;
    }
    for i := 0 to |TRIED|
      invariant forall j :: 0 <= j < i ==> !IsKeyIn(s, TRIED[j])
    {
      var b := Decode(s, TRIED[i]);
      if b.Some? && |b.value| == 32 {
        assert IsKeyIn(s, TRIED[i]);
        FirstKeyIsNormal(raw, i);
        return Encode(b.value, RAW_URL);
      }
    }
    return s;
  }

  /** The normal form: the raw URL-safe encoding of the key read, or the trimmed text. */
  ghost function NormalKey(raw: string): string {
    var s := Trim(raw);
    if e :| IsKeyIn(s, e) then Encode(Decode(s, e).value, RAW_URL) else s
  }

  lemma EmptyIsNoKey()
    ensures forall e :: !IsKeyIn("", e)
  {
  }

  lemma EveryEncodingIsTried(s: string)
    ensures IsKey(s) <==> exists e :: IsKeyIn(s, e)
  {
    hide IsKeyIn;
    forall e | IsKeyIn(s, e) ensures IsKey(s) {
      var i := if e.url then if e.padded then 1 else 0 else if e.padded then 3 else 2;
      assert TRIED[i] == e;
    }
  }

  lemma KeyBytesAgree(s: string)
    ensures forall d, e :: IsKeyIn(s, d) && IsKeyIn(s, e) ==> Decode(s, d) == Decode(s, e)
  {
    hide Decode;
    forall d, e | IsKeyIn(s, d) && IsKeyIn(s, e) ensures Decode(s, d) == Decode(s, e) {
      DecodersAgree(s, d, e);
    }
  }

  lemma FirstKeyIsNormal(raw: string, i: nat)
    requires i < |TRIED| && IsKeyIn(Trim(raw), TRIED[i])
    ensures NormalKey(raw) == Encode(Decode(Trim(raw), TRIED[i]).value, RAW_URL)
  {
    hide Decode, Encode, Trim;
    KeyBytesAgree(Trim(raw));
  }

  /** Whichever of the four encodings a 32-byte key was written in, its normal form is the raw
      URL-safe encoding of the same bytes. */
  lemma NormalKeyKeepsBytes(b: seq<Byte>, e: Encoding)
    requires |b| == 32
    ensures NormalKey(Encode(b, e)) == Encode(b, RAW_URL)
    ensures Decode(NormalKey(Encode(b, e)), RAW_URL) == Some(b)
  {
    hide Decode, Encode, Trim, IsSpace;
    EncodeIsPrintable(b, e);
    PrintableIsTrimmed(Encode(b, e));
    RoundTrip(b, e);
    RoundTrip(b, RAW_URL);
    assert IsKeyIn(Encode(b, e), e);
    KeyBytesAgree(Encode(b, e));
  }

  /** Normalizing twice is normalizing once, for every text. */
  lemma NormalKeyIdempotent(raw: string)
    ensures NormalKey(NormalKey(raw)) == NormalKey(raw)
  {
    hide Decode, Encode, Trim;
    var s := Trim(raw);
    if e :| IsKeyIn(s, e) {
      KeyBytesAgree(s);
      NormalKeyKeepsBytes(Decode(s, e).value, RAW_URL);
    } else {
      TrimIdempotent(raw);
    }
  }
}
