/** ECMAScript's `encodeURIComponent` and `decodeURIComponent` (ECMA-262, the Encode and
    Decode abstract operations of section 19.2.6), which produce and read the
    percent-encoding of section 2.1 of RFC 3986 over UTF-8 (RFC 3629), and the global
    `String.prototype.replace` the e-mail link applies to an encoded body.

    A Dafny `char` is a Unicode scalar value: a surrogate pair of the JavaScript string is
    one `char` here, and an unpaired surrogate (for which `encodeURIComponent` throws)
    cannot occur. */
module UriComponent {
  import opened Wrappers

  type Byte = x: int | 0 <= x < 256

  // ---------------------------------------------------------------------------
  // UTF-8
  // ---------------------------------------------------------------------------

  predicate IsContinuation(b: Byte) { 0x80 <= b < 0xC0 }

  /** The UTF-8 octets of one scalar value (section 3 of RFC 3629). */
  function Utf8(c: char): (bs: seq<Byte>)
    ensures 1 <= |bs| <= 4
    ensures |bs| == 1 <==> c as int < 0x80
    ensures |bs| == 1 ==> bs[0] == c as int
    ensures forall i :: 1 <= i < |bs| ==> IsContinuation(bs[i])
  {
    var cp := c as int;
    var r0, q1 := cp % 64, cp / 64;
    var r1, q2 := q1 % 64, q1 / 64;
    var r2, q3 := q2 % 64, q2 / 64;
    if cp < 0x80 then [cp]
    else if cp < 0x800 then [0xC0 + q1, 0x80 + r0]
    else if cp < 0x10000 then [0xE0 + q2, 0x80 + r1, 0x80 + r0]
    else [0xF0 + q3, 0x80 + r2, 0x80 + r1, 0x80 + r0]
  }

  /** How many octets a sequence starting with b has; 0 when b cannot start one
      (a continuation octet, or more than four leading one bits). */
  function LeadLength(b: Byte): nat
  {
    if b < 0x80 then 1
    else if b < 0xC0 then 0
    else if b < 0xE0 then 2
    else if b < 0xF0 then 3
    else if b < 0xF8 then 4
    else 0
  }

  /** The code-point bits carried by a lead octet of an n-octet sequence. */
  function LeadPayload(b: Byte, n: nat): int
  {
    if n == 2 then b as int - 0xC0 else if n == 3 then b as int - 0xE0 else b as int - 0xF0
  }

  /** Whether cp, read from n octets, is a well-formed UTF-8 encoding: not overlong, not a
      surrogate, not beyond U+10FFFF. */
  predicate WellFormed(cp: int, n: nat)
  {
    || (n == 2 && 0x80 <= cp < 0x800)
    || (n == 3 && 0x800 <= cp < 0x10000 && !(0xD800 <= cp < 0xE000))
    || (n == 4 && 0x10000 <= cp < 0x110000)
  }

  /** Continuation octets folded into an accumulator, six bits each. */
  function Fold(acc: int, bs: seq<Byte>): int
    decreases |bs|
  {
    if bs == [] then acc else Fold(acc * 64 + (bs[0] as int - 0x80), bs[1..])
  }

  /** Decoding the octets of `Utf8(c)` gives back c and passes the well-formedness test. */
  lemma Utf8Decodes(c: char)
    ensures var bs := Utf8(c);
            LeadLength(bs[0]) == |bs| &&
            (|bs| > 1 ==> Fold(LeadPayload(bs[0], |bs|), bs[1..]) == c as int &&
                          WellFormed(c as int, |bs|))
  {
    var bs := Utf8(c);
    var cp := c as int;
    var r0, q1 := cp % 64, cp / 64;
    var r1, q2 := q1 % 64, q1 / 64;
    var r2, q3 := q2 % 64, q2 / 64;
    if |bs| == 2 {
      assert bs[1..] == [bs[1]];
      assert Fold(q1, [bs[1]]) == Fold(q1 * 64 + r0, []);
    } else if |bs| == 3 {
      assert bs[1..] == [bs[1], bs[2]];
      assert Fold(q2, [bs[1], bs[2]]) == Fold(q2 * 64 + r1, [bs[2]]);
      assert Fold(q1, [bs[2]]) == Fold(q1 * 64 + r0, []);
    } else if |bs| == 4 {
      assert bs[1..] == [bs[1], bs[2], bs[3]];
      assert Fold(q3, [bs[1], bs[2], bs[3]]) == Fold(q3 * 64 + r2, [bs[2], bs[3]]);
      assert Fold(q2, [bs[2], bs[3]]) == Fold(q2 * 64 + r1, [bs[3]]);
      assert Fold(q1, [bs[3]]) == Fold(q1 * 64 + r0, []);
    }
  }

  // ---------------------------------------------------------------------------
  // Percent-encoding
  // ---------------------------------------------------------------------------

  /** ECMA-262's uriUnreserved: letters, digits and - _ . ! ~ * ' ( ). These are the only
      characters `encodeURIComponent` leaves as they are. */
  predicate IsUnreserved(c: char)
  {
    || ('A' <= c <= 'Z') || ('a' <= c <= 'z') || ('0' <= c <= '9')
    || c == '-' || c == '_' || c == '.' || c == '!' || c == '~' || c == '*'
    || c == '\'' || c == '(' || c == ')'
  }

  predicate IsUpperHexDigit(c: char) { ('0' <= c <= '9') || ('A' <= c <= 'F') }

  /** The characters an encoded string may contain. */
  predicate IsEncodedChar(c: char) { IsUnreserved(c) || c == '%' || IsUpperHexDigit(c) }

  function HexDigit(v: int): (c: char)
    requires 0 <= v < 16
    ensures IsUpperHexDigit(c)
  {
    if v < 10 then ('0' as int + v) as char else ('A' as int + v - 10) as char
  }

  /** The value of a hexadecimal digit of either case, as Decode reads it. */
  function HexValue(c: char): (r: Option<int>)
    ensures r.Some? ==> 0 <= r.value < 16
  {
    if '0' <= c <= '9' then Some(c as int - '0' as int)
    else if 'A' <= c <= 'F' then Some(c as int - 'A' as int + 10)
    else if 'a' <= c <= 'f' then Some(c as int - 'a' as int + 10)
    else None
  }

  /** "%" and two upper-case hexadecimal digits. */
  function Escape(b: Byte): (r: string)
    ensures |r| == 3 && r[0] == '%'
  {
    ['%', HexDigit(b / 16), HexDigit(b % 16)]
  }

  function Escapes(bs: seq<Byte>): (r: string)
    ensures |r| == 3 * |bs|
    ensures forall i :: 0 <= i < |r| ==> IsEncodedChar(r[i])
  {
    if bs == [] then [] else Escape(bs[0]) + Escapes(bs[1..])
  }

  /** One character as `encodeURIComponent` writes it. */
  function EncodeChar(c: char): (r: string)
    ensures forall i :: 0 <= i < |r| ==> IsEncodedChar(r[i])
  {
    if IsUnreserved(c) then [c] else Escapes(Utf8(c))
  }

  /** `encodeURIComponent(s)`. Every character of the result is unreserved, "%" or an
      upper-case hexadecimal digit, so no raw line break, space, "&", "#", "?" or "=" can
      reach the URL it is embedded in. */
  function EncodeURIComponent(s: string): (r: string)
    ensures forall i :: 0 <= i < |r| ==> IsEncodedChar(r[i])
  {
    if s == [] then [] else EncodeChar(s[0]) + EncodeURIComponent(s[1..])
  }

  lemma {:induction false} EncodeAppend(a: string, b: string)
    ensures EncodeURIComponent(a + b) == EncodeURIComponent(a) + EncodeURIComponent(b)
  {
    if a == [] {
      assert a + b == b;
    } else {
      assert (a + b)[1..] == a[1..] + b;
      EncodeAppend(a[1..], b);
    }
  }

  /** The characters that would end or split a query parameter never occur in an encoding. */
  lemma EncodedIsQuerySafe(s: string)
    ensures var r := EncodeURIComponent(s);
            '\n' !in r && '\r' !in r && ' ' !in r && '&' !in r && '#' !in r && '=' !in r && '?' !in r
  {
  }

  // ---------------------------------------------------------------------------
  // Decoding
  // ---------------------------------------------------------------------------

  /** The octet written as "%HH" at position k of s, if there is one there. */
  function EscapeAt(s: string, k: nat): (r: Option<Byte>)
    ensures r.Some? ==> k + 3 <= |s|
  {
    if k + 3 <= |s| && s[k] == '%' then
      match (HexValue(s[k + 1]), HexValue(s[k + 2]))
      case (Some(h), Some(l)) => Some(16 * h + l)
      case _ => None
    else None
  }

  /** Reads `count` escaped continuation octets from position k on and folds them into acc. */
  function ContinuationsAt(s: string, k: nat, count: nat, acc: int): (r: Option<int>)
    requires k <= |s|
    ensures r.Some? ==> k + 3 * count <= |s|
    decreases count
  {
    if count == 0 then Some(acc)
    else match EscapeAt(s, k)
      case None => None
      case Some(b) =>
        if IsContinuation(b) then ContinuationsAt(s, k + 3, count - 1, acc * 64 + (b as int - 0x80)) else None
  }

  function Prepend(c: char, r: Option<string>): Option<string>
  {
    match r
    case Some(t) => Some([c] + t)
    case None => None
  }

  /** `decodeURIComponent(s)`; None where it throws URIError (a malformed escape, a stray
      continuation octet, a truncated, overlong or surrogate sequence). */
  function DecodeURIComponent(s: string): Option<string>
    decreases |s|
  {
    if s == [] then Some([])
    else if s[0] != '%' then Prepend(s[0], DecodeURIComponent(s[1..]))
    else match EscapeAt(s, 0)
      case None => None
      case Some(b) =>
        var n := LeadLength(b);
        if n == 0 then None
        else if n == 1 then Prepend(b as char, DecodeURIComponent(s[3..]))
        else match ContinuationsAt(s, 3, n - 1, LeadPayload(b, n))
          case None => None
          case Some(cp) =>
            if WellFormed(cp, n) then Prepend(cp as char, DecodeURIComponent(s[3 * n..])) else None
  }

  lemma EscapeReads(b: Byte, rest: string)
    ensures EscapeAt(Escape(b) + rest, 0) == Some(b)
  {
  }

  lemma {:induction false} EscapesRead(bs: seq<Byte>, rest: string, i: nat)
    requires i < |bs|
    ensures EscapeAt(Escapes(bs) + rest, 3 * i) == Some(bs[i])
  {
    var s := Escapes(bs) + rest;
    assert s == Escape(bs[0]) + (Escapes(bs[1..]) + rest);
    if i == 0 {
      EscapeReads(bs[0], Escapes(bs[1..]) + rest);
    } else {
      EscapesRead(bs[1..], rest, i - 1);
      var t := Escapes(bs[1..]) + rest;
      assert s[3 * i..3 * i + 3] == t[3 * (i - 1)..3 * (i - 1) + 3];
    }
  }

  /** Where s holds the escapes of continuation octets bs[i..] from position 3 * i on,
      reading them folds them into the accumulator. */
  lemma {:induction false} ContinuationsRead(s: string, bs: seq<Byte>, i: nat, acc: int)
    requires i <= |bs| && 3 * |bs| <= |s|
    requires forall j :: i <= j < |bs| ==> EscapeAt(s, 3 * j) == Some(bs[j]) && IsContinuation(bs[j])
    ensures ContinuationsAt(s, 3 * i, |bs| - i, acc) == Some(Fold(acc, bs[i..]))
    decreases |bs| - i
  {
    if i < |bs| {
      var acc' := acc * 64 + (bs[i] as int - 0x80);
      ContinuationsRead(s, bs, i + 1, acc');
      assert bs[i..][1..] == bs[i + 1..];
    } else {
      assert bs[i..] == [];
    }
  }

  /** A character below U+0080 that is escaped is read back from its one "%HH". */
  lemma DecodeOneOctet(c: char, rest: string)
    requires c as int < 0x80
    ensures DecodeURIComponent(Escapes(Utf8(c)) + rest) == Prepend(c, DecodeURIComponent(rest))
  {
    var bs := Utf8(c);
    var s := Escapes(bs) + rest;
    EscapesRead(bs, rest, 0);
    Utf8Decodes(c);
    assert s[0] == '%';
    assert s[3..] == rest;
  }

  /** A character of two to four octets is read back from its escapes: the lead octet gives
      the length, the continuations give the remaining bits. */
  lemma DecodeOctets(c: char, rest: string)
    requires c as int >= 0x80
    ensures DecodeURIComponent(Escapes(Utf8(c)) + rest) == Prepend(c, DecodeURIComponent(rest))
  {
    var bs := Utf8(c);
    var s := Escapes(bs) + rest;
    EscapesRead(bs, rest, 0);
    Utf8Decodes(c);
    forall j | 1 <= j < |bs|
      ensures EscapeAt(s, 3 * j) == Some(bs[j])
    {
      EscapesRead(bs, rest, j);
    }
    ContinuationsRead(s, bs, 1, LeadPayload(bs[0], |bs|));
    assert s[0] == '%';
    assert s[3 * |bs|..] == rest;
  }

  /** Decoding reads the encoding of one character back and goes on with the rest. */
  lemma DecodeEncodeChar(c: char, rest: string)
    ensures DecodeURIComponent(EncodeChar(c) + rest) == Prepend(c, DecodeURIComponent(rest))
  {
    var s := EncodeChar(c) + rest;
    if IsUnreserved(c) {
      assert s[1..] == rest;
    } else if c as int < 0x80 {
      DecodeOneOctet(c, rest);
    } else {
      DecodeOctets(c, rest);
    }
  }

  /** `decodeURIComponent(encodeURIComponent(s)) === s` for every string. */
  lemma {:induction false} DecodeEncode(s: string)
    ensures DecodeURIComponent(EncodeURIComponent(s)) == Some(s)
  {
    if s != [] {
      DecodeEncodeChar(s[0], EncodeURIComponent(s[1..]));
      DecodeEncode(s[1..]);
      assert [s[0]] + s[1..] == s;
    }
  }

  /** Different strings have different encodings. */
  lemma EncodeInjective(s: string, t: string)
    requires EncodeURIComponent(s) == EncodeURIComponent(t)
    ensures s == t
  {
    DecodeEncode(s);
    DecodeEncode(t);
  }

  // ---------------------------------------------------------------------------
  // Global replacement and the e-mail line breaks
  // ---------------------------------------------------------------------------

  /** `s.replace(/pat/g, rep)` for a literal pattern: scan from the left, replace each
      match and continue after it. */
  function ReplaceAll(s: string, pat: string, rep: string): string
    requires |pat| > 0
    decreases |s|
  {
    if |s| < |pat| then s
    else if s[..|pat|] == pat then rep + ReplaceAll(s[|pat|..], pat, rep)
    else [s[0]] + ReplaceAll(s[1..], pat, rep)
  }

  /** The text with every line feed written as carriage return + line feed. */
  function CrLf(s: string): string
  {
    if s == [] then []
    else (if s[0] == '\n' then "\r\n" else [s[0]]) + CrLf(s[1..])
  }

  lemma ReplaceSkipsChar(c: char, t: string, pat: string, rep: string)
    requires |pat| > 0 && c != pat[0]
    ensures ReplaceAll([c] + t, pat, rep) == [c] + ReplaceAll(t, pat, rep)
  {
    var s := [c] + t;
    if |s| >= |pat| {
      assert s[..|pat|][0] == c;
      assert s[1..] == t;
    }
  }

  lemma ReplaceSkipsEscape(b: Byte, t: string)
    requires b != 0x0A
    ensures ReplaceAll(Escape(b) + t, "%0A", "%0D%0A") == Escape(b) + ReplaceAll(t, "%0A", "%0D%0A")
  {
    var e := Escape(b);
    var s := e + t;
    assert e != "%0A";
    assert s[..3] == e;
    assert s[1..] == [e[1]] + ([e[2]] + t);
    ReplaceSkipsChar(e[1], [e[2]] + t, "%0A", "%0D%0A");
    ReplaceSkipsChar(e[2], t, "%0A", "%0D%0A");
  }

  lemma {:induction false} ReplaceSkipsEscapes(bs: seq<Byte>, rest: string)
    requires forall j :: 0 <= j < |bs| ==> bs[j] != 0x0A
    ensures ReplaceAll(Escapes(bs) + rest, "%0A", "%0D%0A") == Escapes(bs) + ReplaceAll(rest, "%0A", "%0D%0A")
  {
    if bs != [] {
      var e, es := Escape(bs[0]), Escapes(bs[1..]);
      calc {
        ReplaceAll(Escapes(bs) + rest, "%0A", "%0D%0A");
        { assert Escapes(bs) + rest == e + (es + rest); }
        ReplaceAll(e + (es + rest), "%0A", "%0D%0A");
        { ReplaceSkipsEscape(bs[0], es + rest); }
        e + ReplaceAll(es + rest, "%0A", "%0D%0A");
        { ReplaceSkipsEscapes(bs[1..], rest); }
        e + (es + ReplaceAll(rest, "%0A", "%0D%0A"));
        Escapes(bs) + ReplaceAll(rest, "%0A", "%0D%0A");
      }
    } else {
      assert Escapes(bs) + rest == rest;
    }
  }

  /** Rewriting every "%0A" of an encoding into "%0D%0A", as the e-mail link does, is the
      same as encoding the text with CRLF line breaks: no other escape can be touched. */
  lemma {:induction false} CrLfEscapes(s: string)
    ensures ReplaceAll(EncodeURIComponent(s), "%0A", "%0D%0A") == EncodeURIComponent(CrLf(s))
  {
    if s != [] {
      var c := s[0];
      var rest := EncodeURIComponent(s[1..]);
      CrLfEscapes(s[1..]);
      EncodeAppend(if c == '\n' then "\r\n" else [c], CrLf(s[1..]));
      if c == '\n' {
        assert EncodeChar(c) == "%0A";
        assert EncodeURIComponent("\r\n") == "%0D%0A" by {
          assert "\r\n"[1..] == "\n";
        }
        var e := EncodeChar(c) + rest;
        assert e[..3] == "%0A" && e[3..] == rest;
      } else if IsUnreserved(c) {
        ReplaceSkipsChar(c, rest, "%0A", "%0D%0A");
      } else {
        ReplaceSkipsEscapes(Utf8(c), rest);
      }
    }
  }

  /** The CRLF body still decodes, to the text with CRLF line breaks. */
  lemma CrLfBodyDecodes(s: string)
    ensures DecodeURIComponent(ReplaceAll(EncodeURIComponent(s), "%0A", "%0D%0A")) == Some(CrLf(s))
  {
    CrLfEscapes(s);
    DecodeEncode(CrLf(s));
  }
}
