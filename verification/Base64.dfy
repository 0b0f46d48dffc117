/** Unpadded base64 (RFC 4648 sections 4 and 5) as Go's encoding/base64 writes and reads it. A string
    here is one character per byte. */
module Base64 {
  import opened Prelude

  type byte = i: int | 0 <= i < 256
  type sextet = i: int | 0 <= i < 64

  datatype Alphabet = Std | Url

  function EncodeChar(a: Alphabet, v: sextet): char {
    if v < 26 then ('A' as int + v) as char
    else if v < 52 then ('a' as int + v - 26) as char
    else if v < 62 then ('0' as int + v - 52) as char
    else if v == 62 then (if a == Std then '+' else '-')
    else (if a == Std then '/' else '_')
  }

  function DecodeChar(a: Alphabet, c: char): Option<sextet> {
    if 'A' <= c <= 'Z' then Some(c as int - 'A' as int)
    else if 'a' <= c <= 'z' then Some(c as int - 'a' as int + 26)
    else if '0' <= c <= '9' then Some(c as int - '0' as int + 52)
    else if c == (if a == Std then '+' else '-') then Some(62)
    else if c == (if a == Std then '/' else '_') then Some(63)
    else None
  }

  lemma CharsMatch(a: Alphabet, v: sextet, c: char)
    ensures DecodeChar(a, EncodeChar(a, v)) == Some(v)
    ensures DecodeChar(a, c).Some? ==> EncodeChar(a, DecodeChar(a, c).value) == c
    ensures EncodeChar(a, v) != '\r' && EncodeChar(a, v) != '\n' && EncodeChar(a, v) != '$'
  {
  }

  // Three bytes and four sextets hold the same 24 bits.

  function Bits0(b: byte): sextet { b / 4 }
  function Bits1(b: byte, c: byte): sextet { b % 4 * 16 + c / 16 }
  function Bits2(c: byte, d: byte): sextet { c % 16 * 4 + d / 64 }
  function Bits3(d: byte): sextet { d % 64 }

  function Byte0(x: sextet, y: sextet): byte { x as int * 4 + y as int / 16 }
  function Byte1(y: sextet, z: sextet): byte { y as int % 16 * 16 + z as int / 4 }
  function Byte2(z: sextet, u: sextet): byte { z as int % 4 * 64 + u as int }

  lemma BitsOfBytes(x: sextet, y: sextet, z: sextet, u: sextet)
    ensures Bits0(Byte0(x, y)) == x && Bits1(Byte0(x, y), Byte1(y, z)) == y
    ensures Bits2(Byte1(y, z), Byte2(z, u)) == z && Bits3(Byte2(z, u)) == u
  {
  }

  lemma BytesOfBits(b: byte, c: byte, d: byte)
    ensures Byte0(Bits0(b), Bits1(b, c)) == b && Byte1(Bits1(b, c), Bits2(c, d)) == c
            && Byte2(Bits2(c, d), Bits3(d)) == d
  {
  }

  /** The bits left over in the last sextet are zero exactly when its bytes give it back. */
  lemma LeftoverBits(b: byte, x: sextet, y: sextet, z: sextet)
    ensures Bits1(b, 0) % 16 == 0 && Bits2(b, 0) % 4 == 0
    ensures y % 16 == 0 <==> Bits1(Byte0(x, y), 0) == y
    ensures z % 4 == 0 <==> Bits2(Byte1(y, z), 0) == z
  {
    assert b % 4 * 16 % 16 == 0 && b % 16 * 4 % 4 == 0;
    assert (x * 4 + y / 16) % 4 == y / 16;
    assert (y % 16 * 16 + z / 4) % 16 == z / 4;
  }

  function Encode(a: Alphabet, bs: seq<byte>): string {
    if |bs| == 0 then ""
    else if |bs| == 1 then [EncodeChar(a, Bits0(bs[0])), EncodeChar(a, Bits1(bs[0], 0))]
    else if |bs| == 2 then
      [EncodeChar(a, Bits0(bs[0])), EncodeChar(a, Bits1(bs[0], bs[1])), EncodeChar(a, Bits2(bs[1], 0))]
    else
      [EncodeChar(a, Bits0(bs[0])), EncodeChar(a, Bits1(bs[0], bs[1])),
       EncodeChar(a, Bits2(bs[1], bs[2])), EncodeChar(a, Bits3(bs[2]))] + Encode(a, bs[3..])
  }

  // ---- what RFC 4648 asks for ----

  /** Tables 1 and 2 of RFC 4648. */
  function Table(a: Alphabet): string {
    "ABCDEFGHIJKLMNOPQRSTUVWXYZ" + "abcdefghijklmnopqrstuvwxyz" + "0123456789" + if a == Std then "+/" else "-_"
  }

  /** The input's bytes, zeros past its end. */
  function ByteAt(bs: seq<byte>, i: nat): byte {
    if i < |bs| then bs[i] else 0
  }

  /** Bits 6i to 6i + 5 of the input, as a number: they lie in two neighbouring bytes. */
  function SixBits(bs: seq<byte>, i: nat): (v: nat)
    ensures v < 64
  {
    var k := 6 * i;
    var pair := 256 * ByteAt(bs, k / 8) + ByteAt(bs, k / 8 + 1);
    match k % 8
    case 0 => pair / 1024 % 64
    case 6 => pair / 16 % 64
    case 4 => pair / 64 % 64
    case _ => pair / 256 % 64
  }

  lemma Letters(v: nat)
    requires v < 26
    ensures "ABCDEFGHIJKLMNOPQRSTUVWXYZ"[v] == ('A' as int + v) as char
    ensures "abcdefghijklmnopqrstuvwxyz"[v] == ('a' as int + v) as char
    ensures v < 10 ==> "0123456789"[v] == ('0' as int + v) as char
  {
    assert seq(26, i requires 0 <= i < 26 => ('A' as int + i) as char) == "ABCDEFGHIJKLMNOPQRSTUVWXYZ";
    assert seq(26, i requires 0 <= i < 26 => ('a' as int + i) as char) == "abcdefghijklmnopqrstuvwxyz";
    assert seq(10, i requires 0 <= i < 10 => ('0' as int + i) as char) == "0123456789";
  }

  lemma CharIsTabled(a: Alphabet, v: sextet)
    ensures |Table(a)| == 64 && EncodeChar(a, v) == Table(a)[v]
  {
    Letters(if v < 26 then v else if v < 52 then v - 26 else if v < 62 then v - 52 else 0);
  }

  lemma FirstSix(b: int, c: int)
    requires 0 <= b < 256 && 0 <= c < 256
    ensures (256 * b + c) / 1024 % 64 == b / 4
  {
    assert 256 * b + c == 1024 * (b / 4) + (256 * (b % 4) + c);
  }

  lemma SecondSix(b: int, c: int)
    requires 0 <= b < 256 && 0 <= c < 256
    ensures (256 * b + c) / 16 % 64 == b % 4 * 16 + c / 16
  {
    assert 256 * b + c == 16 * (64 * (b / 4) + (b % 4 * 16 + c / 16)) + c % 16;
  }

  lemma ThirdSix(b: int, c: int)
    requires 0 <= b < 256 && 0 <= c < 256
    ensures (256 * b + c) / 64 % 64 == b % 16 * 4 + c / 64
  {
    assert 256 * b + c == 64 * (64 * (b / 16) + (b % 16 * 4 + c / 64)) + c % 64;
  }

  lemma LastSix(b: int, c: int)
    requires 0 <= b < 256 && 0 <= c < 256
    ensures (256 * b + c) / 256 % 64 == b % 64
  {
    assert (256 * b + c) / 256 == b;
  }

  lemma SixBitsAre(bs: seq<byte>)
    ensures SixBits(bs, 0) == (256 * ByteAt(bs, 0) + ByteAt(bs, 1)) / 1024 % 64
    ensures SixBits(bs, 1) == (256 * ByteAt(bs, 0) + ByteAt(bs, 1)) / 16 % 64
    ensures SixBits(bs, 2) == (256 * ByteAt(bs, 1) + ByteAt(bs, 2)) / 64 % 64
    ensures SixBits(bs, 3) == (256 * ByteAt(bs, 2) + ByteAt(bs, 3)) / 256 % 64
  {
  }

  lemma QuantumBits(bs: seq<byte>)
    ensures SixBits(bs, 0) == Bits0(ByteAt(bs, 0)) && SixBits(bs, 1) == Bits1(ByteAt(bs, 0), ByteAt(bs, 1))
    ensures SixBits(bs, 2) == Bits2(ByteAt(bs, 1), ByteAt(bs, 2)) && SixBits(bs, 3) == Bits3(ByteAt(bs, 2))
  {
    hide ByteAt, SixBits;
    SixBitsAre(bs);
    FirstSix(ByteAt(bs, 0), ByteAt(bs, 1));
    SecondSix(ByteAt(bs, 0), ByteAt(bs, 1));
    ThirdSix(ByteAt(bs, 1), ByteAt(bs, 2));
    LastSix(ByteAt(bs, 2), ByteAt(bs, 3));
  }

  lemma BitsGoOn(bs: seq<byte>, i: nat)
    requires |bs| >= 3
    ensures SixBits(bs, i + 4) == SixBits(bs[3..], i)
  {
    assert 6 * (i + 4) / 8 == 6 * i / 8 + 3 && 6 * (i + 4) % 8 == 6 * i % 8;
  }

  /** Sections 4 and 5 of RFC 4648: the text is one character of the table for every six bits of the
      input, in order, the last of them filled up with zeros. */
  lemma {:induction false} EncodesTheBits(a: Alphabet, bs: seq<byte>, i: nat)
    requires i < |Encode(a, bs)|
    ensures |Table(a)| == 64 && Encode(a, bs)[i] == Table(a)[SixBits(bs, i)]
    decreases i
  {
    hide SixBits, EncodeChar, Table, Bits0, Bits1, Bits2, Bits3;
    if i < 4 {
      QuantumBits(bs);
      forall v: sextet
        ensures |Table(a)| == 64 && EncodeChar(a, v) == Table(a)[v]
      {
        CharIsTabled(a, v);
      }
    } else {
      EncodesTheBits(a, bs[3..], i - 4);
      BitsGoOn(bs, i - 4);
    }
  }

  /** The end of input inside a quantum. Strict decoding also refuses non-zero trailing bits. */
  function Finish(buf: seq<sextet>, strict: bool): Option<seq<byte>>
    requires |buf| < 4
  {
    if |buf| == 0 then Some([])
    else if |buf| == 1 then None
    else if |buf| == 2 then
      if strict && buf[1] % 16 != 0 then None else Some([Byte0(buf[0], buf[1])])
    else
      if strict && buf[2] % 4 != 0 then None else Some([Byte0(buf[0], buf[1]), Byte1(buf[1], buf[2])])
  }

  /** DecodeString: four characters at a time into three bytes, carriage returns and line feeds
      skipped wherever they stand, strict or not. */
  function Collect(a: Alphabet, s: string, buf: seq<sextet>, strict: bool): Option<seq<byte>>
    requires |buf| < 4
  {
    if s == "" then Finish(buf, strict)
    else if s[0] == '\r' || s[0] == '\n' then Collect(a, s[1..], buf, strict)
    else
      var v := DecodeChar(a, s[0]);
      if v.None? then None
      else if |buf| < 3 then Collect(a, s[1..], buf + [v.value], strict)
      else
        var more := Collect(a, s[1..], [], strict);
        if more.None? then None
        else Some([Byte0(buf[0], buf[1]), Byte1(buf[1], buf[2]), Byte2(buf[2], v.value)] + more.value)
  }

  function Decode(a: Alphabet, s: string, strict: bool): Option<seq<byte>> {
    Collect(a, s, [], strict)
  }

  function Strip(s: string): string {
    if s == "" then "" else (if s[0] == '\r' || s[0] == '\n' then "" else [s[0]]) + Strip(s[1..])
  }

  lemma {:induction false} StripShortens(s: string)
    ensures |Strip(s)| <= |s|
    ensures |Strip(s)| == |s| ==> Strip(s) == s
  {
    if s != "" {
      StripShortens(s[1..]);
    }
  }

  lemma {:induction false} EncodedLength(a: Alphabet, bs: seq<byte>)
    ensures |Encode(a, bs)| == (4 * |bs| + 2) / 3
  {
    if |bs| >= 3 {
      EncodedLength(a, bs[3..]);
    }
  }

  lemma {:induction false} EncodedChars(a: Alphabet, bs: seq<byte>)
    ensures '$' !in Encode(a, bs) && '\r' !in Encode(a, bs) && '\n' !in Encode(a, bs)
  {
    forall v: sextet
      ensures EncodeChar(a, v) !in {'$', '\r', '\n'}
    {
      CharsMatch(a, v, '$');
    }
    if |bs| >= 3 {
      EncodedChars(a, bs[3..]);
    }
  }

  lemma Takes(a: Alphabet, v: sextet, rest: string, buf: seq<sextet>, strict: bool)
    requires |buf| < 3
    ensures Collect(a, [EncodeChar(a, v)] + rest, buf, strict) == Collect(a, rest, buf + [v], strict)
  {
    CharsMatch(a, v, '$');
    assert ([EncodeChar(a, v)] + rest)[1..] == rest;
  }

  lemma TakesTwo(a: Alphabet, x: sextet, y: sextet, rest: string, strict: bool)
    ensures Collect(a, [EncodeChar(a, x), EncodeChar(a, y)] + rest, [], strict) == Collect(a, rest, [x, y], strict)
  {
    var s := [EncodeChar(a, x), EncodeChar(a, y)] + rest;
    assert s == [EncodeChar(a, x)] + ([EncodeChar(a, y)] + rest);
    Takes(a, x, [EncodeChar(a, y)] + rest, [], strict);
    Takes(a, y, rest, [x], strict);
    assert [] + [x] == [x] && [x] + [y] == [x, y];
  }

  lemma TakesThree(a: Alphabet, x: sextet, y: sextet, z: sextet, rest: string, strict: bool)
    ensures Collect(a, [EncodeChar(a, x), EncodeChar(a, y), EncodeChar(a, z)] + rest, [], strict)
            == Collect(a, rest, [x, y, z], strict)
  {
    var s := [EncodeChar(a, x), EncodeChar(a, y), EncodeChar(a, z)] + rest;
    assert s == [EncodeChar(a, x), EncodeChar(a, y)] + ([EncodeChar(a, z)] + rest);
    TakesTwo(a, x, y, [EncodeChar(a, z)] + rest, strict);
    Takes(a, z, rest, [x, y], strict);
    assert [x, y] + [z] == [x, y, z];
  }

  lemma TakesQuantum(a: Alphabet, x: sextet, y: sextet, z: sextet, u: sextet, rest: string, strict: bool)
    ensures var s := [EncodeChar(a, x), EncodeChar(a, y), EncodeChar(a, z), EncodeChar(a, u)] + rest;
            var more := Collect(a, rest, [], strict);
            Collect(a, s, [], strict) ==
              if more.None? then None
              else Some([Byte0(x, y), Byte1(y, z), Byte2(z, u)] + more.value)
  {
    var s := [EncodeChar(a, x), EncodeChar(a, y), EncodeChar(a, z), EncodeChar(a, u)] + rest;
    var last := [EncodeChar(a, u)] + rest;
    assert s == [EncodeChar(a, x), EncodeChar(a, y), EncodeChar(a, z)] + last;
    TakesThree(a, x, y, z, last, strict);
    CharsMatch(a, u, '$');
    assert last[1..] == rest;
  }

  /** What was encoded decodes, strictly or not. */
  lemma {:induction false} DecodeEncode(a: Alphabet, bs: seq<byte>, strict: bool)
    ensures Decode(a, Encode(a, bs), strict) == Some(bs)
  {
    hide Byte0, Byte1, Byte2, Bits0, Bits1, Bits2, Bits3, EncodeChar, DecodeChar;
    var s := Encode(a, bs);
    assert s == s + "";
    if |bs| == 1 {
      LeftoverBits(bs[0], 0, 0, 0);
      assert bs == [bs[0]];
      BytesOfBits(bs[0], 0, 0);
      TakesTwo(a, Bits0(bs[0]), Bits1(bs[0], 0), "", strict);
    } else if |bs| == 2 {
      BytesOfBits(bs[0], bs[1], 0);
      LeftoverBits(bs[1], 0, 0, 0);
      assert bs == [bs[0], bs[1]];
      TakesThree(a, Bits0(bs[0]), Bits1(bs[0], bs[1]), Bits2(bs[1], 0), "", strict);
    } else if |bs| >= 3 {
      DecodeEncode(a, bs[3..], strict);
      BytesOfBits(bs[0], bs[1], bs[2]);
      TakesQuantum(a, Bits0(bs[0]), Bits1(bs[0], bs[1]), Bits2(bs[1], bs[2]), Bits3(bs[2]), Encode(a, bs[3..]), strict);
      assert bs == [bs[0], bs[1], bs[2]] + bs[3..];
    }
  }

  function Chars(a: Alphabet, buf: seq<sextet>): string {
    seq(|buf|, i requires 0 <= i < |buf| => EncodeChar(a, buf[i]))
  }

  lemma CanonicalEnd(a: Alphabet, buf: seq<sextet>)
    requires |buf| < 4 && Finish(buf, true).Some?
    ensures Chars(a, buf) == Encode(a, Finish(buf, true).value)
  {
    hide Byte0, Byte1, Byte2, Bits0, Bits1, Bits2, Bits3, EncodeChar;
    if |buf| == 2 {
      BitsOfBytes(buf[0], buf[1], 0, 0);
      LeftoverBits(0, buf[0], buf[1], 0);
      assert Chars(a, buf) == [EncodeChar(a, buf[0]), EncodeChar(a, buf[1])];
    } else if |buf| == 3 {
      BitsOfBytes(buf[0], buf[1], buf[2], 0);
      LeftoverBits(0, 0, buf[1], buf[2]);
      assert Chars(a, buf) == [EncodeChar(a, buf[0]), EncodeChar(a, buf[1]), EncodeChar(a, buf[2])];
    }
  }

  lemma CanonicalQuantum(a: Alphabet, buf: seq<sextet>, v: sextet, more: seq<byte>)
    requires |buf| == 3
    ensures Encode(a, [Byte0(buf[0], buf[1]), Byte1(buf[1], buf[2]), Byte2(buf[2], v)] + more)
            == Chars(a, buf) + [EncodeChar(a, v)] + Encode(a, more)
  {
    hide Byte0, Byte1, Byte2, Bits0, Bits1, Bits2, Bits3, EncodeChar;
    BitsOfBytes(buf[0], buf[1], buf[2], v);
    var out := [Byte0(buf[0], buf[1]), Byte1(buf[1], buf[2]), Byte2(buf[2], v)] + more;
    assert out[3..] == more;
    assert Chars(a, buf) == [EncodeChar(a, buf[0]), EncodeChar(a, buf[1]), EncodeChar(a, buf[2])];
  }

  /** Strict decoding accepts only the canonical text, give or take the skipped line breaks. */
  lemma {:induction false} StrictIsCanonical(a: Alphabet, s: string, buf: seq<sextet>)
    requires |buf| < 4 && Collect(a, s, buf, true).Some?
    ensures Chars(a, buf) + Strip(s) == Encode(a, Collect(a, s, buf, true).value)
  {
    hide Encode, Chars, EncodeChar, DecodeChar;
    if s == "" {
      CanonicalEnd(a, buf);
      assert Chars(a, buf) + "" == Chars(a, buf);
    } else if s[0] == '\r' || s[0] == '\n' {
      StrictIsCanonical(a, s[1..], buf);
      assert "" + Strip(s[1..]) == Strip(s[1..]);
    } else {
      var v := DecodeChar(a, s[0]).value;
      CharsMatch(a, v, s[0]);
      assert Chars(a, buf) + ([s[0]] + Strip(s[1..])) == Chars(a, buf) + [s[0]] + Strip(s[1..]);
      if |buf| < 3 {
        StrictIsCanonical(a, s[1..], buf + [v]);
        OneMore(a, buf, v);
      } else {
        StrictIsCanonical(a, s[1..], []);
        OneMore(a, [], v);
        CanonicalQuantum(a, buf, v, Collect(a, s[1..], [], true).value);
        assert "" + Strip(s[1..]) == Strip(s[1..]);
      }
    }
  }

  lemma OneMore(a: Alphabet, buf: seq<sextet>, v: sextet)
    ensures Chars(a, buf + [v]) == Chars(a, buf) + [EncodeChar(a, v)] && Chars(a, []) == ""
  {
  }

  /** Where the strict decoder gives an answer, the lenient one gives the same. */
  lemma {:induction false} StrictAgrees(a: Alphabet, s: string, buf: seq<sextet>)
    requires |buf| < 4 && Collect(a, s, buf, true).Some?
    ensures Collect(a, s, buf, false) == Collect(a, s, buf, true)
  {
    if s != "" {
      if s[0] == '\r' || s[0] == '\n' {
        StrictAgrees(a, s[1..], buf);
      } else {
        StrictAgrees(a, s[1..], if |buf| < 3 then buf + [DecodeChar(a, s[0]).value] else []);
      }
    }
  }

  lemma {:induction false} NothingToStrip(s: string)
    requires '\r' !in s && '\n' !in s
    ensures Strip(s) == s
  {
    if s != "" {
      NothingToStrip(s[1..]);
    }
  }
}

/** e2ee/e2ee.go, ValidateAuthSecret: what may arrive where the password used to. */
module AuthSecret {
  import opened Prelude
  import opened Base64

  const PREFIX := "kal1."
  const SECRET_BYTES := 32
  const SECRET_CHARS := 43

  predicate Valid(s: string) {
    && |s| >= |PREFIX| && s[..|PREFIX|] == PREFIX
    && |s[|PREFIX|..]| == SECRET_CHARS
    && var raw := Decode(Url, s[|PREFIX|..], true);
       raw.Some? && |raw.value| == SECRET_BYTES
  }

  function Written(raw: seq<byte>): string {
    PREFIX + Encode(Url, raw)
  }

  /** The accepted strings are exactly the canonical forms of the 32-byte secrets. */
  lemma ValidIffCanonical(s: string)
    ensures Valid(s) <==> exists raw: seq<byte> :: |raw| == 32 && s == "kal1." + Encode(Url, raw)
  {
    if Valid(s) {
      var rest := s[|PREFIX|..];
      var raw := Decode(Url, rest, true).value;
      StrictIsCanonical(Url, rest, []);
      assert Chars(Url, []) + Strip(rest) == Strip(rest);
      EncodedLength(Url, raw);
      StripShortens(rest);
      assert s == s[..|PREFIX|] + rest && s == Written(raw);
    }
    if raw: seq<byte> :| |raw| == 32 && s == "kal1." + Encode(Url, raw) {
      EncodedLength(Url, raw);
      DecodeEncode(Url, raw, true);
      assert s[|PREFIX|..] == Encode(Url, raw);
    }
  }

  /** One secret, one string: the other half of the bijection. */
  lemma OneFormPerSecret(a: seq<byte>, b: seq<byte>)
    requires Written(a) == Written(b)
    ensures a == b
  {
    assert Written(a)[|PREFIX|..] == Encode(Url, a);
    assert Written(b)[|PREFIX|..] == Encode(Url, b);
    DecodeEncode(Url, a, true);
    DecodeEncode(Url, b, true);
  }

  /** Neither half of the check is implied by the other. A line break gets past the strict decode … */
  lemma {:induction false} LineBreakPassesTheDecode(s: string, at: nat, buf: seq<sextet>)
    requires at <= |s| && |buf| < 4
    ensures Collect(Url, s[..at] + "\n" + s[at..], buf, true) == Collect(Url, s, buf, true)
    decreases at
  {
    var t := s[..at] + "\n" + s[at..];
    if at == 0 {
      assert t[1..] == s;
    } else {
      assert t[0] == s[0] && t[1..] == s[1..][..at - 1] + "\n" + s[1..][at - 1..];
      if s[0] == '\r' || s[0] == '\n' {
        LineBreakPassesTheDecode(s[1..], at - 1, buf);
      } else if DecodeChar(Url, s[0]).Some? {
        LineBreakPassesTheDecode(s[1..], at - 1, if |buf| < 3 then buf + [DecodeChar(Url, s[0]).value] else []);
      }
    }
  }

  lemma DirtyNibble(b0: byte, dirt: int)
    requires 0 < dirt < 16
    ensures var y := Bits1(b0, 16 * dirt); y % 16 != 0 && y != Bits1(b0, 0) && Byte0(Bits0(b0), y) == b0
  {
  }

  /** … and dirty trailing bits get past the lenient decode, in a last byte … */
  lemma DirtyBitsOfOne(b0: byte, dirt: int)
    requires 0 < dirt < 16
    ensures var dirty := [EncodeChar(Url, Bits0(b0)), EncodeChar(Url, Bits1(b0, 16 * dirt))];
            && Decode(Url, dirty, false) == Some([b0]) && Decode(Url, dirty, true) == None
            && dirty != Encode(Url, [b0]) && |dirty| == |Encode(Url, [b0])|
  {
    hide Bits0, Bits1, Byte0, EncodeChar, DecodeChar;
    DirtyNibble(b0, dirt);
    var s := [EncodeChar(Url, Bits0(b0)), EncodeChar(Url, Bits1(b0, 16 * dirt))];
    assert s + "" == s;
    TakesTwo(Url, Bits0(b0), Bits1(b0, 16 * dirt), "", false);
    TakesTwo(Url, Bits0(b0), Bits1(b0, 16 * dirt), "", true);
    CharsMatch(Url, Bits1(b0, 16 * dirt), '$');
    CharsMatch(Url, Bits1(b0, 0), '$');
  }

  lemma DirtyBits(b0: byte, b1: byte, dirt: int)
    requires 0 < dirt < 4
    ensures var z := Bits2(b1, 64 * dirt);
            z % 4 != 0 && z != Bits2(b1, 0) && Byte0(Bits0(b0), Bits1(b0, b1)) == b0 && Byte1(Bits1(b0, b1), z) == b1
  {
  }

  /** … and in the last of two. */
  lemma DirtyBitsPassTheLength(b0: byte, b1: byte, dirt: int)
    requires 0 < dirt < 4
    ensures var dirty := [EncodeChar(Url, Bits0(b0)), EncodeChar(Url, Bits1(b0, b1)),
                          EncodeChar(Url, Bits2(b1, 64 * dirt))];
            && Decode(Url, dirty, false) == Some([b0, b1]) && Decode(Url, dirty, true) == None
            && dirty != Encode(Url, [b0, b1]) && |dirty| == |Encode(Url, [b0, b1])|
  {
    hide Bits0, Bits1, Bits2, Byte0, Byte1, EncodeChar, DecodeChar;
    DirtyBits(b0, b1, dirt);
    var s := [EncodeChar(Url, Bits0(b0)), EncodeChar(Url, Bits1(b0, b1)), EncodeChar(Url, Bits2(b1, 64 * dirt))];
    assert s + "" == s;
    TakesThree(Url, Bits0(b0), Bits1(b0, b1), Bits2(b1, 64 * dirt), "", false);
    TakesThree(Url, Bits0(b0), Bits1(b0, b1), Bits2(b1, 64 * dirt), "", true);
    CharsMatch(Url, Bits2(b1, 64 * dirt), '$');
    CharsMatch(Url, Bits2(b1, 0), '$');
  }
}
