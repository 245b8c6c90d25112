/** Percent-encoding of one component of a path: section 2.1 of RFC 3986, over UTF-8. */
module Percent {
  import opened Options

  type octet = o: int | 0 <= o < 256

  // ---------- Hexadecimal ----------

  function HexDigit(d: nat): char
    requires d < 16
  {
    "0123456789ABCDEF"[d]
  }

  /** Either case is read; upper case is written. */
  function HexValue(c: char): Option<nat> {
    if '0' <= c <= '9' then Some(c as int - '0' as int)
    else if 'A' <= c <= 'F' then Some(c as int - 'A' as int + 10)
    else if 'a' <= c <= 'f' then Some(c as int - 'a' as int + 10)
    else None
  }

  function Escape(o: octet): (e: string)
    ensures |e| == 3
  {
    ['%', HexDigit(o / 16), HexDigit(o % 16)]
  }

  function Escapes(octets: seq<octet>): (e: string)
    ensures |e| == 3 * |octets|
  {
    if octets == [] then "" else Escape(octets[0]) + Escapes(octets[1..])
  }

  /** The octet the `i`-th three characters stand for. */
  function Octet(s: string, i: nat): Option<nat> {
    if 3 * i + 3 <= |s| && s[3 * i] == '%' then
      match (HexValue(s[3 * i + 1]), HexValue(s[3 * i + 2]))
      case (Some(a), Some(b)) => Some(a * 16 + b)
      case _ => None
    else None
  }

  // ---------- UTF-8 ----------

  predicate Scalar(v: int) {
    0 <= v < 0xD800 || 0xE000 <= v < 0x11_0000
  }

  function Utf8(v: nat): (octets: seq<octet>)
    requires v < 0x11_0000
    ensures 1 <= |octets| <= 4
  {
    if v < 0x80 then [v]
    else if v < 0x800 then [0xC0 + v / 0x40, 0x80 + v % 0x40]
    else if v < 0x1_0000 then [0xE0 + v / 0x1000, 0x80 + v / 0x40 % 0x40, 0x80 + v % 0x40]
    else [0xF0 + v / 0x4_0000, 0x80 + v / 0x1000 % 0x40, 0x80 + v / 0x40 % 0x40, 0x80 + v % 0x40]
  }

  /** How many octets a first one says there are, and the bits of it that count. */
  function Follows(first: nat): (nat, nat) {
    if first < 0x80 then (1, first)
    else if 0xC0 <= first < 0xE0 then (2, first - 0xC0)
    else if 0xE0 <= first < 0xF0 then (3, first - 0xE0)
    else if 0xF0 <= first < 0xF8 then (4, first - 0xF0)
    else (0, 0)
  }

  /** The value of the octets from the first up to the `n`-th, each after the first
      giving its low six bits. */
  function Gathered(s: string, bits: nat, n: nat): Option<nat>
    requires n > 0
  {
    if n == 1 then Some(bits)
    else
      match (Gathered(s, bits, n - 1), Octet(s, n - 1))
      case (Some(v), Some(o)) => if 0x80 <= o < 0xC0 then Some(v * 0x40 + (o - 0x80)) else None
      case _ => None
  }

  /** The character the escapes at the start stand for, and how many there are; none
      if they are no character's UTF-8. */
  function EscapedChar(s: string): Option<(char, nat)> {
    match Octet(s, 0)
    case None => None
    case Some(first) =>
      var (n, bits) := Follows(first);
      if n == 0 then None
      else
        match Gathered(s, bits, n)
        case None => None
        case Some(v) => if Scalar(v) && |Utf8(v)| == n then Some((v as char, n)) else None
  }

  // ---------- Encoding and decoding ----------

  /** Left as they are. */
  predicate Unreserved(c: char) {
    'A' <= c <= 'Z' || 'a' <= c <= 'z' || '0' <= c <= '9' || c in "-_.!~*'()"
  }

  function EncodedChar(c: char): (e: string)
    ensures e != ""
  {
    if Unreserved(c) then [c] else Escapes(Utf8(c as int))
  }

  function Encode(s: string): string {
    if s == "" then "" else EncodedChar(s[0]) + Encode(s[1..])
  }

  /** `None` where the source's library throws: an escape that is malformed. */
  function Decode(s: string): Option<string>
    decreases |s|
  {
    if s == "" then Some("")
    else if s[0] != '%' then Onto(s[0], Decode(s[1..]))
    else
      match EscapedChar(s)
      case None => None
      case Some((c, n)) => if 0 < 3 * n <= |s| then Onto(c, Decode(s[3 * n..])) else None
  }

  function Onto(c: char, rest: Option<string>): Option<string> {
    match rest
    case None => None
    case Some(s) => Some([c] + s)
  }

  // ---------- One undoes the other ----------

  lemma HexRead(d: nat)
    requires d < 16
    ensures HexValue(HexDigit(d)) == Some(d)
  {
  }

  lemma OctetLater(s: string, i: nat)
    requires i > 0 && |s| >= 3
    ensures Octet(s, i) == Octet(s[3..], i - 1)
  {
  }

  lemma {:induction false} OctetOfEscapes(octets: seq<octet>, rest: string, i: nat)
    requires i < |octets|
    ensures Octet(Escapes(octets) + rest, i) == Some(octets[i])
  {
    var s := Escapes(octets) + rest;
    var tail := Escapes(octets[1..]) + rest;
    assert s == Escape(octets[0]) + tail;
    if i == 0 {
      HexRead(octets[0] / 16);
      HexRead(octets[0] % 16);
      hide HexDigit, HexValue;
      assert s[0] == '%' && s[1] == HexDigit(octets[0] / 16) && s[2] == HexDigit(octets[0] % 16);
    } else {
      OctetOfEscapes(octets[1..], rest, i - 1);
      assert s[3..] == tail;
      OctetLater(s, i);
    }
  }

  /** Escaped UTF-8 is read back as the character it is of. */
  lemma EscapesRead(c: char, rest: string)
    ensures EscapedChar(Escapes(Utf8(c as int)) + rest) == Some((c, |Utf8(c as int)|))
  {
    var v := c as int;
    var octets := Utf8(v);
    var s := Escapes(octets) + rest;
    hide Octet, Escapes;
    OctetOfEscapes(octets, rest, 0);
    if v >= 0x80 {
      OctetOfEscapes(octets, rest, 1);
    }
    if v >= 0x800 {
      OctetOfEscapes(octets, rest, 2);
    }
    if v >= 0x1_0000 {
      OctetOfEscapes(octets, rest, 3);
    }
    GatheredIs(s, v);
  }

  lemma SixBitsMore(s: string, bits: nat, n: nat, v: nat, low: nat)
    requires n > 0 && Gathered(s, bits, n) == Some(v) && Octet(s, n) == Some(0x80 + low) && low < 0x40
    ensures Gathered(s, bits, n + 1) == Some(v * 0x40 + low)
  {
  }

  lemma InSixes(v: nat)
    ensures v == v / 0x40 * 0x40 + v % 0x40
    ensures v / 0x40 == v / 0x1000 * 0x40 + v / 0x40 % 0x40
    ensures v / 0x1000 == v / 0x4_0000 * 0x40 + v / 0x1000 % 0x40
  {
    assert v / 0x40 / 0x40 == v / 0x1000;
    assert v / 0x1000 / 0x40 == v / 0x4_0000;
  }

  lemma GatheredIs(s: string, v: nat)
    requires Scalar(v)
    requires forall i :: 0 <= i < |Utf8(v)| ==> Octet(s, i) == Some(Utf8(v)[i])
    ensures Follows(Utf8(v)[0]).0 == |Utf8(v)|
    ensures Gathered(s, Follows(Utf8(v)[0]).1, |Utf8(v)|) == Some(v)
  {
    hide Octet;
    var n, bits := |Utf8(v)|, Follows(Utf8(v)[0]).1;
    assert forall i :: 1 <= i < n ==> Octet(s, i) == Some(Utf8(v)[i]);
    assert Gathered(s, bits, 1) == Some(bits);
    InSixes(v);
    hide Gathered;
    if n == 2 {
      SixBitsMore(s, bits, 1, v / 0x40, v % 0x40);
    } else if n == 3 {
      SixBitsMore(s, bits, 1, v / 0x1000, v / 0x40 % 0x40);
      SixBitsMore(s, bits, 2, v / 0x40, v % 0x40);
    } else if n == 4 {
      SixBitsMore(s, bits, 1, v / 0x4_0000, v / 0x1000 % 0x40);
      SixBitsMore(s, bits, 2, v / 0x1000, v / 0x40 % 0x40);
      SixBitsMore(s, bits, 3, v / 0x40, v % 0x40);
    }
  }

  lemma EscapesStart(octets: seq<octet>)
    requires octets != []
    ensures Escapes(octets)[0] == '%'
  {
  }

  /** Decoding undoes encoding, for every string. */
  lemma {:induction false} DecodeUndoes(s: string)
    ensures Decode(Encode(s)) == Some(s)
  {
    if s != "" {
      var c, rest := s[0], Encode(s[1..]);
      DecodeUndoes(s[1..]);
      assert s == [c] + s[1..];
      hide EscapedChar, Escapes, Utf8;
      if Unreserved(c) {
        assert c != '%' && Encode(s)[1..] == rest;
      } else {
        var e := Escapes(Utf8(c as int));
        EscapesRead(c, rest);
        EscapesStart(Utf8(c as int));
        assert (e + rest)[|e|..] == rest;
      }
    }
  }

  lemma {:induction false} EscapesPlain(octets: seq<octet>)
    ensures '/' !in Escapes(octets)
  {
    if octets != [] {
      EscapesPlain(octets[1..]);
      assert '/' !in Escape(octets[0]);
    }
  }

  /** Nothing encoded has a slash in it, and only nothing encodes as nothing. */
  lemma {:induction false} EncodeHasNoSlash(s: string)
    ensures '/' !in Encode(s)
    ensures Encode(s) == "" <==> s == ""
  {
    if s != "" {
      EncodeHasNoSlash(s[1..]);
      EscapesPlain(Utf8(s[0] as int));
    }
  }

  lemma DecodeSomething(s: string)
    requires s != ""
    ensures Decode(s) != Some("")
  {
  }

  // ---------- The form itself ----------

  predicate Follows10(o: octet) {
    0x80 <= o < 0xC0
  }

  /** The bits of an octet past those that say what it is. */
  function Bits(o: octet, mark: nat): int {
    o as int - mark
  }

  /** A character's octets in UTF-8: as few as there may be, the first saying how many and
      each other six bits (section 3 of RFC 3629). */
  lemma Utf8Is(v: nat)
    requires v < 0x11_0000
    ensures
      var o := Utf8(v);
      match |o|
      case 1 => v < 0x80 && o[0] == v
      case 2 =>
        && 0x80 <= v < 0x800 && 0xC0 <= o[0] < 0xE0 && Follows10(o[1])
        && Bits(o[0], 0xC0) * 64 + Bits(o[1], 0x80) == v
      case 3 =>
        && 0x800 <= v < 0x1_0000 && 0xE0 <= o[0] < 0xF0 && Follows10(o[1]) && Follows10(o[2])
        && Bits(o[0], 0xE0) * 4096 + Bits(o[1], 0x80) * 64 + Bits(o[2], 0x80) == v
      case _ =>
        && 0x1_0000 <= v && 0xF0 <= o[0] < 0xF8 && Follows10(o[1]) && Follows10(o[2]) && Follows10(o[3])
        && Bits(o[0], 0xF0) * 262144 + Bits(o[1], 0x80) * 4096 + Bits(o[2], 0x80) * 64 + Bits(o[3], 0x80) == v
  {
    InSixes(v);
  }

  /** An octet is a percent sign and two digits in upper case, the high one first. */
  lemma EscapeIs(o: octet, a: nat, b: nat)
    requires a < 16 && b < 16 && o == a * 16 + b
    ensures Escape(o) == "%" + ["0123456789ABCDEF"[a]] + ["0123456789ABCDEF"[b]]
  {
    assert o / 16 == a && o % 16 == b;
  }

  /** One character is left as it is just when it is a letter or digit of ASCII or one of
      nine marks; of any other, each octet is escaped in turn. */
  lemma EncodesPlainly(c: char)
    ensures Encode([c]) == [c] <==>
      'A' <= c <= 'Z' || 'a' <= c <= 'z' || '0' <= c <= '9' || c in ['-', '_', '.', '!', '~', '*', '\'', '(', ')']
    ensures Encode([c]) != [c] ==>
      |Encode([c])| == 3 * |Utf8(c as int)| && Encode([c])[0] == '%' && Encode([c]) == Escapes(Utf8(c as int))
  {
    assert Encode([c]) == EncodedChar(c) by {
      assert [c][1..] == "" && Encode("") == "";
    }
    hide Utf8, Encode;
    EscapesStart(Utf8(c as int));
  }

  /** A digit is read in either case. */
  lemma HexReadsEither(d: nat)
    requires d < 16
    ensures HexValue("0123456789ABCDEF"[d]) == Some(d) && HexValue("0123456789abcdef"[d]) == Some(d)
  {
  }

  /** Escapes are read as a character exactly when they are its octets, all of them. */
  lemma ReadExactly(s: string, c: char)
    ensures EscapedChar(s) == Some((c, |Utf8(c as int)|)) <==>
      forall i :: 0 <= i < |Utf8(c as int)| ==> Octet(s, i) == Some(Utf8(c as int)[i])
    ensures EscapedChar(s).Some? ==> EscapedChar(s).value.1 == |Utf8(EscapedChar(s).value.0 as int)|
  {
    var v := c as int;
    if forall i :: 0 <= i < |Utf8(v)| ==> Octet(s, i) == Some(Utf8(v)[i]) {
      GatheredIs(s, v);
    }
    if EscapedChar(s).Some? && EscapedChar(s).value.0 == c {
      OctetsAre(s, v);
    }
  }

  lemma TwoAre(v: nat, a: nat, b: octet)
    requires 0xC0 <= a < 0xE0 && Follows10(b) && v == (a - 0xC0) * 64 + Bits(b, 0x80) && |Utf8(v)| == 2
    ensures Utf8(v) == [a, b]
  {
  }

  lemma ThreeAre(v: nat, a: nat, b: octet, c: octet)
    requires 0xE0 <= a < 0xF0 && Follows10(b) && Follows10(c) && v < 0x11_0000 && |Utf8(v)| == 3
    requires v == ((a - 0xE0) * 64 + Bits(b, 0x80)) * 64 + Bits(c, 0x80)
    ensures Utf8(v) == [a, b, c]
  {
    assert v / 0x40 == (a - 0xE0) * 64 + Bits(b, 0x80);
    assert v / 0x40 / 0x40 == v / 0x1000;
  }

  lemma FourAre(v: nat, a: nat, b: octet, c: octet, d: octet)
    requires 0xF0 <= a < 0xF8 && Follows10(b) && Follows10(c) && Follows10(d) && v < 0x11_0000 && |Utf8(v)| == 4
    requires v == (((a - 0xF0) * 64 + Bits(b, 0x80)) * 64 + Bits(c, 0x80)) * 64 + Bits(d, 0x80)
    ensures Utf8(v) == [a, b, c, d]
  {
    assert v / 0x40 == ((a - 0xF0) * 64 + Bits(b, 0x80)) * 64 + Bits(c, 0x80);
    assert v / 0x40 / 0x40 == (a - 0xF0) * 64 + Bits(b, 0x80) && v / 0x40 / 0x40 == v / 0x1000;
    assert v / 0x1000 / 0x40 == v / 0x4_0000;
  }

  lemma OctetsAre(s: string, v: nat)
    requires Scalar(v) && EscapedChar(s).Some? && EscapedChar(s).value.0 as int == v
    ensures forall i :: 0 <= i < |Utf8(v)| ==> Octet(s, i) == Some(Utf8(v)[i])
  {
    var (n, bits) := Follows(Octet(s, 0).value);
    assert Gathered(s, bits, n) == Some(v) && |Utf8(v)| == n;
    hide Octet, EscapedChar, Gathered, Utf8, Follows;
    OctetsFrom(s, Octet(s, 0).value, v);
  }

  lemma OctetsFrom(s: string, first: nat, v: nat)
    requires Octet(s, 0) == Some(first) && Follows(first).0 > 0 && v < 0x11_0000 && |Utf8(v)| == Follows(first).0
    requires Gathered(s, Follows(first).1, Follows(first).0) == Some(v)
    ensures forall i :: 0 <= i < |Utf8(v)| ==> Octet(s, i) == Some(Utf8(v)[i])
  {
    var (n, bits) := Follows(first);
    hide Octet, Gathered, Utf8;
    GatheredFirst(s, bits);
    if n == 1 {
      OneIs(v);
    } else if n == 2 {
      GatheredOneMore(s, bits, 1);
      TwoAre(v, first, Octet(s, 1).value);
    } else if n == 3 {
      GatheredOneMore(s, bits, 2);
      GatheredOneMore(s, bits, 1);
      ThreeAre(v, first, Octet(s, 1).value, Octet(s, 2).value);
    } else {
      GatheredOneMore(s, bits, 3);
      GatheredOneMore(s, bits, 2);
      GatheredOneMore(s, bits, 1);
      FourAre(v, first, Octet(s, 1).value, Octet(s, 2).value, Octet(s, 3).value);
    }
  }

  lemma OneIs(v: nat)
    requires v < 0x11_0000 && |Utf8(v)| == 1
    ensures Utf8(v) == [v]
  {
  }

  lemma GatheredFirst(s: string, bits: nat)
    ensures Gathered(s, bits, 1) == Some(bits)
  {
  }

  lemma GatheredOneMore(s: string, bits: nat, n: nat)
    requires n > 0 && Gathered(s, bits, n + 1).Some?
    ensures Gathered(s, bits, n).Some? && Octet(s, n).Some? && 0x80 <= Octet(s, n).value < 0xC0
    ensures Gathered(s, bits, n + 1).value == Gathered(s, bits, n).value * 0x40 + (Octet(s, n).value - 0x80)
    ensures Gathered(s, bits, n).value == Gathered(s, bits, n + 1).value / 0x40
    ensures Octet(s, n).value == 0x80 + Gathered(s, bits, n + 1).value % 0x40
  {
  }

  /** Encoding goes character by character. */
  lemma {:induction false} EncodeJoins(a: string, b: string)
    ensures Encode(a + b) == Encode(a) + Encode(b)
  {
    if a == "" {
      assert a + b == b;
    } else {
      assert (a + b)[1..] == a[1..] + b;
      EncodeJoins(a[1..], b);
    }
  }

  /** What is no escape of any character is not decoded: cut short, or no digits, or an
      octet that follows without a first. */
  lemma CutShortIsNone()
    ensures Decode("%") == None && Decode("%4") == None && Decode("%zz") == None && Decode("%80") == None
    ensures Decode("%C3") == None
  {
    assert Octet("%80", 0) == Some(0x80);
    assert Octet("%C3", 0) == Some(0xC3) && Octet("%C3", 1) == None;
  }

  /** Nor more octets than the character takes. */
  lemma OverlongIsNone()
    ensures Decode("%C0%AF") == None
  {
    var s := "%C0%AF";
    assert Octet(s, 0) == Some(0xC0) && Octet(s, 1) == Some(0xAF);
    assert Gathered(s, 0, 1) == Some(0) && Gathered(s, 0, 2) == Some(0x2F);
  }

  /** Nor half a pair. */
  lemma HalfAPairIsNone()
    ensures Decode("%ED%A0%80") == None
  {
    var t := "%ED%A0%80";
    assert Octet(t, 0) == Some(0xED) && Octet(t, 1) == Some(0xA0) && Octet(t, 2) == Some(0x80);
    hide Octet;
    assert Gathered(t, 0xD, 1) == Some(0xD) && Gathered(t, 0xD, 2) == Some(0x360) &&
      Gathered(t, 0xD, 3) == Some(0xD800);
  }

  /** Digits in lower case are read as well. */
  lemma LowerCaseIsRead()
    ensures Decode("%c3%a9") == Some(['\U{E9}'])
  {
    var u := "%c3%a9";
    assert Octet(u, 0) == Some(0xC3) && Octet(u, 1) == Some(0xA9);
    hide Octet;
    assert Gathered(u, 3, 1) == Some(3) && Gathered(u, 3, 2) == Some(0xE9);
    assert EscapedChar(u) == Some(('\U{E9}', 2));
    DecodedOne(u, '\U{E9}', 2);
  }

  lemma DecodedOne(s: string, c: char, n: nat)
    requires |s| == 3 * n && n > 0 && s[0] == '%' && EscapedChar(s) == Some((c, n))
    ensures Decode(s) == Some([c])
  {
    hide EscapedChar;
    assert s[3 * n..] == "" && Decode(s[3 * n..]) == Some("");
    assert [c] + "" == [c];
    assert 0 < 3 * n <= |s| && s != "";
    assert Decode(s) == Onto(c, Decode(s[3 * n..]));
  }
}
