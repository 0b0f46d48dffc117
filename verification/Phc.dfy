/** authn/password.go: the printed form of an Argon2id hash and its parser. Sscanf's verbs are
    modelled as they behave: white space before a number is skipped, text after the last one is not
    looked at. A string here is one character per byte. */
module Phc {
  import opened Prelude
  import opened Base64

  type uint32 = i: int | 0 <= i < 0x1_0000_0000
  type uint8 = i: int | 0 <= i < 256

  datatype Stored = Stored(memory: uint32, time: uint32, lanes: uint8, salt: seq<byte>, key: seq<byte>)

  // ---- decimal numbers ----

  predicate Digit(c: char) {
    '0' <= c <= '9'
  }

  predicate AllDigits(s: string) {
    forall i :: 0 <= i < |s| ==> Digit(s[i])
  }

  function Decimal(n: nat): (s: string)
    ensures s != "" && AllDigits(s)
    ensures n > 0 ==> s[0] != '0'
  {
    if n < 10 then [('0' as int + n) as char] else Decimal(n / 10) + [('0' as int + n % 10) as char]
  }

  function Number(s: string): nat
    requires AllDigits(s)
  {
    if s == "" then 0 else Number(s[..|s| - 1]) * 10 + (s[|s| - 1] as int - '0' as int)
  }

  lemma {:induction false} NumberOfDecimal(n: nat)
    ensures Number(Decimal(n)) == n
  {
    if n >= 10 {
      NumberOfDecimal(n / 10);
      assert Decimal(n)[..|Decimal(n)| - 1] == Decimal(n / 10);
    }
  }

  /** A numeral as %d prints it: no leading zero. */
  predicate Plain(s: string) {
    s != "" && AllDigits(s) && (s[0] == '0' ==> |s| == 1)
  }

  lemma DecimalStep(n: nat, c: char)
    requires n > 0 && Digit(c)
    ensures Decimal(n * 10 + (c as int - '0' as int)) == Decimal(n) + [c]
  {
    var d := c as int - '0' as int;
    assert (n * 10 + d) / 10 == n && (n * 10 + d) % 10 == d;
  }

  lemma NumberIsPositive(s: string)
    requires Plain(s) && s[0] != '0'
    ensures Number(s) > 0
    decreases |s|
  {
    if |s| > 1 {
      assert s[..|s| - 1][0] == s[0];
      NumberIsPositive(s[..|s| - 1]);
    } else {
      assert s[..0] == "";
    }
  }

  lemma NumberStep(s: string)
    requires s != "" && AllDigits(s)
    ensures Number(s) == Number(s[..|s| - 1]) * 10 + (s[|s| - 1] as int - '0' as int)
  {
  }

  lemma DigitIsDecimal(c: char)
    requires Digit(c)
    ensures Number([c]) == c as int - '0' as int && Decimal(Number([c])) == [c]
  {
    assert [c][..0] == "";
  }

  lemma {:induction false} DecimalOfNumber(s: string)
    requires Plain(s)
    ensures Decimal(Number(s)) == s
    decreases |s|
  {
    hide Decimal, Number;
    var n := |s| - 1;
    assert s == s[..n] + [s[n]];
    if n > 0 {
      assert s[..n][0] == s[0];
      DecimalOfNumber(s[..n]);
      NumberIsPositive(s[..n]);
      NumberStep(s);
      DecimalStep(Number(s[..n]), s[n]);
    } else {
      assert s == [s[0]];
      DigitIsDecimal(s[0]);
    }
  }

  // ---- scanning ----

  /** How many digits `s` starts with. */
  function Run(s: string): (n: nat)
    ensures n <= |s| && AllDigits(s[..n])
    ensures n < |s| ==> !Digit(s[n])
  {
    if s == "" || !Digit(s[0]) then 0
    else
      var n := Run(s[1..]);
      assert forall i :: 0 <= i < n ==> s[1..][i] == s[1 + i] && s[1..][..n][i] == s[1..][i];
      1 + n
  }

  lemma {:induction false} RunStops(digits: string, rest: string)
    requires AllDigits(digits) && (rest == "" || !Digit(rest[0]))
    ensures Run(digits + rest) == |digits|
  {
    if digits == "" {
      assert digits + rest == rest;
    } else {
      assert (digits + rest)[1..] == digits[1..] + rest;
      RunStops(digits[1..], rest);
    }
  }

  function SkipSpace(s: string): Option<string> {
    if s == "" then Some(s)
    else if s[0] == '\n' then None
    else if s[0] in {' ', '\t', '\r', 11 as char, 12 as char} then SkipSpace(s[1..])
    else Some(s)
  }

  function After(lit: string, s: string): Option<string> {
    if |s| >= |lit| && s[..|lit|] == lit then Some(s[|lit|..]) else None
  }

  /** One `lit%d` verb into an unsigned field narrower than `bound`. */
  function Field(lit: string, s: string, bound: nat): (r: Option<(nat, string)>)
    ensures r.Some? ==> r.value.0 < bound
  {
    var at := After(lit, s);
    if at.None? then None
    else
      var t := SkipSpace(at.value);
      if t.None? then None
      else
        var n := Run(t.value);
        if n == 0 || Number(t.value[..n]) >= bound then None
        else Some((Number(t.value[..n]), t.value[n..]))
  }

  /** `v=%d` into an int that must come out as argon2.Version; an int may carry a sign. */
  predicate IsVersion(s: string) {
    var at := After("v=", s);
    at.Some? &&
    var t := SkipSpace(at.value);
    t.Some? &&
    var u := if t.value != "" && t.value[0] == '+' then t.value[1..] else t.value;
    var n := Run(u);
    n > 0 && Number(u[..n]) == 19
  }

  function Costs(s: string): Option<(uint32, uint32, uint8)> {
    var m := Field("m=", s, 0x1_0000_0000);
    if m.None? then None
    else
      var t := Field(",t=", m.value.1, 0x1_0000_0000);
      if t.None? then None
      else
        var p := Field(",p=", t.value.1, 256);
        if p.None? then None else Some((m.value.0, t.value.0, p.value.0))
  }

  function Split(s: string): (r: seq<string>)
    ensures r != []
  {
    if s == "" then [""]
    else
      var r := Split(s[1..]);
      if s[0] == '$' then [""] + r else [[s[0]] + r[0]] + r[1..]
  }

  predicate Envelope(v: Stored) {
    8 <= |v.salt| <= 64 && 16 <= |v.key| <= 128
  }

  /** parsePHC. */
  function Parse(s: string): (r: Option<Stored>)
    ensures r.Some? ==> Envelope(r.value)
  {
    var parts := Split(s);
    if |parts| != 6 || parts[0] != "" || parts[1] != "argon2id" || !IsVersion(parts[2]) then None
    else
      var costs := Costs(parts[3]);
      var salt := Decode(Std, parts[4], false);
      var key := Decode(Std, parts[5], false);
      if costs.None? || salt.None? || key.None? then None
      else
        var v := Stored(costs.value.0, costs.value.1, costs.value.2, salt.value, key.value);
        if Envelope(v) then Some(v) else None
  }

  function CostText(memory: nat, time: nat, lanes: nat): string {
    "m=" + (Decimal(memory) + (",t=" + (Decimal(time) + (",p=" + Decimal(lanes)))))
  }

  /** encodePHC. */
  function Written(v: Stored): string {
    "$argon2id$v=19$" + (CostText(v.memory, v.time, v.lanes)
                         + ("$" + (Encode(Std, v.salt) + ("$" + Encode(Std, v.key)))))
  }

  // ---- what was written parses ----

  lemma {:induction false} SplitAt(a: string, b: string)
    requires '$' !in a
    ensures Split(a + ("$" + b)) == [a] + Split(b)
  {
    var s := a + ("$" + b);
    if a == "" {
      assert s[1..] == b;
    } else {
      assert s[1..] == a[1..] + ("$" + b);
      SplitAt(a[1..], b);
      assert [a[0]] + a[1..] == a;
    }
  }

  lemma {:induction false} SplitPlain(a: string)
    requires '$' !in a
    ensures Split(a) == [a]
  {
    if a != "" {
      SplitPlain(a[1..]);
      assert [a[0]] + a[1..] == a;
    }
  }

  /** Six fields, none holding the separator, come back as six fields. */
  lemma SplitFields(v: string, c: string, x: string, y: string)
    requires '$' !in v && '$' !in c && '$' !in x && '$' !in y
    ensures Split("$argon2id$" + (v + ("$" + (c + ("$" + (x + ("$" + y))))))) == ["", "argon2id", v, c, x, y]
  {
    var tail := v + ("$" + (c + ("$" + (x + ("$" + y)))));
    assert "$argon2id$" + tail == "" + ("$" + ("argon2id" + ("$" + tail)));
    SplitAt("", "argon2id" + ("$" + tail));
    SplitAt("argon2id", tail);
    SplitAt(v, c + ("$" + (x + ("$" + y))));
    SplitAt(c, x + ("$" + y));
    SplitAt(x, y);
    SplitPlain(y);
  }

  lemma FieldReads(lit: string, n: nat, rest: string, bound: nat)
    requires n < bound && (rest == "" || !Digit(rest[0]))
    ensures Field(lit, lit + (Decimal(n) + rest), bound) == Some((n, rest))
  {
    hide Decimal, Number;
    var t := Decimal(n) + rest;
    assert (lit + t)[..|lit|] == lit && (lit + t)[|lit|..] == t;
    assert t[0] == Decimal(n)[0];
    RunStops(Decimal(n), rest);
    assert t[..|Decimal(n)|] == Decimal(n) && t[|Decimal(n)|..] == rest;
    NumberOfDecimal(n);
  }

  /** What a number verb skips before its number; a line feed stops it. */
  predicate Skipped(s: string) {
    forall i :: 0 <= i < |s| ==> s[i] == ' ' || s[i] == '\t' || s[i] == '\r' || s[i] == 11 as char || s[i] == 12 as char
  }

  lemma {:induction false} Skips(pad: string, s: string)
    requires Skipped(pad) && s != "" && (Digit(s[0]) || s[0] == '+' || s[0] == '-')
    ensures SkipSpace(pad + s) == Some(s) && SkipSpace(pad + ("\n" + s)).None?
  {
    var t := "\n" + s;
    if pad == "" {
      assert pad + s == s && pad + t == t;
    } else {
      assert (pad + s)[1..] == pad[1..] + s && (pad + t)[1..] == pad[1..] + t;
      Skips(pad[1..], s);
    }
  }

  /** A field reads its number in any spelling of digits, past blanks, and what stands after it is left; a
      number that does not fit is refused. */
  lemma FieldSpellings(lit: string, pad: string, digits: string, rest: string, bound: nat)
    requires Skipped(pad) && digits != "" && AllDigits(digits) && (rest == "" || !Digit(rest[0]))
    ensures Field(lit, lit + (pad + (digits + rest)), bound)
            == if Number(digits) < bound then Some((Number(digits), rest)) else None
  {
    hide Number;
    var t := digits + rest;
    assert (lit + (pad + t))[..|lit|] == lit && (lit + (pad + t))[|lit|..] == pad + t;
    assert t[0] == digits[0];
    Skips(pad, t);
    RunStops(digits, rest);
    assert t[..|digits|] == digits && t[|digits|..] == rest;
  }

  /** The version is 19 in any spelling, with a plus sign or without, and nothing else. */
  lemma VersionSpellings(pad: string, digits: string, rest: string)
    requires Skipped(pad) && digits != "" && AllDigits(digits) && (rest == "" || !Digit(rest[0]))
    ensures IsVersion("v=" + (pad + (digits + rest))) <==> Number(digits) == 19
    ensures IsVersion("v=" + (pad + ("+" + (digits + rest)))) <==> Number(digits) == 19
    ensures !IsVersion("v=" + (pad + ("-" + (digits + rest))))
  {
    hide Number;
    var t := digits + rest;
    assert t[0] == digits[0];
    RunStops(digits, rest);
    assert t[..|digits|] == digits;
    AfterVersion(pad + t);
    AfterVersion(pad + ("+" + t));
    AfterVersion(pad + ("-" + t));
    Skips(pad, t);
    Skips(pad, "+" + t);
    Skips(pad, "-" + t);
    assert ("+" + t)[1..] == t;
  }

  lemma AfterVersion(s: string)
    ensures After("v=", "v=" + s) == Some(s)
  {
    assert ("v=" + s)[..2] == "v=" && ("v=" + s)[2..] == s;
  }

  lemma CostsRead(memory: uint32, time: uint32, lanes: uint8, rest: string)
    requires rest == "" || !Digit(rest[0])
    ensures Costs(CostText(memory, time, lanes) + rest) == Some((memory, time, lanes))
  {
    hide Decimal, Number, Field;
    var p := ",p=" + (Decimal(lanes) + rest);
    var t := ",t=" + (Decimal(time) + p);
    assert CostText(memory, time, lanes) + rest == "m=" + (Decimal(memory) + t);
    FieldReads("m=", memory, t, 0x1_0000_0000);
    FieldReads(",t=", time, p, 0x1_0000_0000);
    FieldReads(",p=", lanes, rest, 256);
  }

  lemma VersionReads(junk: string)
    requires junk == "" || !Digit(junk[0])
    ensures IsVersion("v=19" + junk)
  {
    var s := "v=19" + junk;
    assert s[..2] == "v=" && s[2..] == "19" + junk;
    RunStops("19", junk);
    assert ("19" + junk)[..2] == "19";
    assert "19"[..1] == "1" && "1"[..0] == "";
    assert Number("19") == 19;
  }

  lemma CostTextHasNoSeparator(memory: nat, time: nat, lanes: nat)
    ensures '$' !in CostText(memory, time, lanes)
  {
    hide Decimal;
    assert !Digit('$');
  }

  /** Printing and parsing are inverse for every parameter a Go Params can hold, exactly when the salt
      and key lengths lie in the envelope; outside it the printed form is refused. The parser also
      reads the same values when text that is no digit and no separator follows the numbers. */
  lemma ParseWritten(v: Stored, junk: string, more: string)
    requires '$' !in junk && (junk == "" || !Digit(junk[0]))
    requires '$' !in more && (more == "" || !Digit(more[0]))
    ensures Parse("$argon2id$" + (("v=19" + junk) + ("$" + ((CostText(v.memory, v.time, v.lanes) + more)
                  + ("$" + (Encode(Std, v.salt) + ("$" + Encode(Std, v.key))))))))
            == if Envelope(v) then Some(v) else None
  {
    hide Encode, CostText, Costs, IsVersion, Decode, Split;
    CostTextHasNoSeparator(v.memory, v.time, v.lanes);
    EncodedChars(Std, v.salt);
    EncodedChars(Std, v.key);
    SplitFields("v=19" + junk, CostText(v.memory, v.time, v.lanes) + more, Encode(Std, v.salt), Encode(Std, v.key));
    VersionReads(junk);
    CostsRead(v.memory, v.time, v.lanes, more);
    DecodeEncode(Std, v.salt, false);
    DecodeEncode(Std, v.key, false);
  }

  lemma RoundTrip(v: Stored)
    ensures Parse(Written(v)) == if Envelope(v) then Some(v) else None
  {
    hide Encode, CostText, Parse, Envelope;
    ParseWritten(v, "", "");
    var c, x, y := CostText(v.memory, v.time, v.lanes), Encode(Std, v.salt), Encode(Std, v.key);
    assert c + "" == c;
    assert Written(v) == "$argon2id$" + (("v=19" + "") + ("$" + ((c + "") + ("$" + (x + ("$" + y))))));
  }

  lemma DefaultCosts()
    ensures CostText(19456, 2, 1) == "m=19456,t=2,p=1"
  {
    assert Decimal(19456) == "19456" by {
      assert Decimal(1945) == "1945" by {
        assert Decimal(194) == "194";
      }
    }
  }

  /** The default parameters print as authn/password.go documents them. */
  lemma DefaultsArePrinted(v: Stored)
    requires v.memory == 19456 && v.time == 2 && v.lanes == 1
    ensures Written(v) == "$argon2id$v=19$m=19456,t=2,p=1$" + Encode(Std, v.salt) + "$" + Encode(Std, v.key)
  {
    hide Encode, CostText, Decimal;
    DefaultCosts();
    assert "$argon2id$v=19$" + "m=19456,t=2,p=1" + "$" == "$argon2id$v=19$m=19456,t=2,p=1$";
  }

  // ---- which accepted strings are exactly the written ones ----

  function Join(parts: seq<string>): string
    requires parts != []
  {
    if |parts| == 1 then parts[0] else parts[0] + ("$" + Join(parts[1..]))
  }

  lemma {:induction false} JoinSplit(s: string)
    ensures Join(Split(s)) == s
  {
    if s != "" {
      JoinSplit(s[1..]);
      var r := Split(s[1..]);
      if s[0] == '$' {
        assert ([""] + r)[1..] == r;
        assert "" + ("$" + s[1..]) == s;
      } else {
        var t := [[s[0]] + r[0]] + r[1..];
        assert t[1..] == r[1..];
        assert s == [s[0]] + s[1..];
        if |r| > 1 {
          assert ([s[0]] + r[0]) + ("$" + Join(r[1..])) == [s[0]] + (r[0] + ("$" + Join(r[1..])));
        }
      }
    }
  }

  /** What follows `lit` and a numeral as %d prints it, if that is how `s` starts. */
  function AfterPlain(lit: string, s: string): Option<string> {
    var at := After(lit, s);
    if at.None? || !Plain(at.value[..Run(at.value)]) then None else Some(at.value[Run(at.value)..])
  }

  /** Nothing but the three plain numerals. */
  predicate PlainCosts(s: string) {
    var m := AfterPlain("m=", s);
    m.Some? &&
    var t := AfterPlain(",t=", m.value);
    t.Some? && AfterPlain(",p=", t.value) == Some("")
  }

  lemma PlainFieldReads(lit: string, s: string, bound: nat)
    requires AfterPlain(lit, s).Some? && Field(lit, s, bound).Some?
    ensures var (n, rest) := Field(lit, s, bound).value;
            AfterPlain(lit, s) == Some(rest) && s == lit + (Decimal(n) + rest)
  {
    var t := After(lit, s).value;
    var n := Run(t);
    assert Digit(t[..n][0]);
    assert SkipSpace(t) == Some(t);
    DecimalOfNumber(t[..n]);
    assert t == t[..n] + t[n..] && s == lit + t;
  }

  lemma PlainFieldWritten(lit: string, n: nat, rest: string)
    requires rest == "" || !Digit(rest[0])
    ensures AfterPlain(lit, lit + (Decimal(n) + rest)) == Some(rest)
  {
    hide Decimal;
    var t := Decimal(n) + rest;
    assert (lit + t)[..|lit|] == lit && (lit + t)[|lit|..] == t;
    RunStops(Decimal(n), rest);
    assert t[..|Decimal(n)|] == Decimal(n) && t[|Decimal(n)|..] == rest;
    DecimalIsPlain(n);
  }

  lemma DecimalIsPlain(n: nat)
    ensures Plain(Decimal(n))
  {
  }

  lemma PlainCostsIffWritten(s: string)
    requires Costs(s).Some?
    ensures var (m, t, p) := Costs(s).value; PlainCosts(s) <==> s == CostText(m, t, p)
  {
    hide Decimal, Field, AfterPlain;
    var (m, t, p) := Costs(s).value;
    if PlainCosts(s) {
      PlainFieldReads("m=", s, 0x1_0000_0000);
      var s1 := Field("m=", s, 0x1_0000_0000).value.1;
      PlainFieldReads(",t=", s1, 0x1_0000_0000);
      var s2 := Field(",t=", s1, 0x1_0000_0000).value.1;
      PlainFieldReads(",p=", s2, 256);
      assert Decimal(p) + "" == Decimal(p);
    }
    if s == CostText(m, t, p) {
      var s2 := ",p=" + Decimal(p);
      assert Decimal(p) + "" == Decimal(p);
      PlainFieldWritten("m=", m, ",t=" + (Decimal(t) + s2));
      PlainFieldWritten(",t=", t, s2);
      PlainFieldWritten(",p=", p, "");
    }
  }

  /** Base64 as Encode writes it: no skipped line breaks, no stray trailing bits. */
  predicate PlainBase64(s: string) {
    '\r' !in s && '\n' !in s && Decode(Std, s, true).Some?
  }

  lemma PlainBase64IffWritten(s: string)
    requires Decode(Std, s, false).Some?
    ensures PlainBase64(s) <==> s == Encode(Std, Decode(Std, s, false).value)
  {
    var bs := Decode(Std, s, false).value;
    if PlainBase64(s) {
      StrictAgrees(Std, s, []);
      StrictIsCanonical(Std, s, []);
      NothingToStrip(s);
      assert Chars(Std, []) + s == s;
    }
    if s == Encode(Std, bs) {
      EncodedChars(Std, bs);
      DecodeEncode(Std, bs, true);
    }
  }

  /** parsePHC's comment promises exactly the form encodePHC writes. It accepts more: an accepted
      string is the written form of its own values exactly when its version, numbers and base64
      are spelled plainly. */
  lemma AcceptedIsWrittenIffPlain(s: string)
    requires Parse(s).Some?
    ensures var parts := Split(s);
            s == Written(Parse(s).value)
            <==> parts[2] == "v=19" && PlainCosts(parts[3]) && PlainBase64(parts[4]) && PlainBase64(parts[5])
  {
    hide Encode, Costs, CostText, IsVersion, Decode, Split, PlainCosts, PlainBase64;
    var v := Parse(s).value;
    var parts := Split(s);
    var c, x, y := CostText(v.memory, v.time, v.lanes), Encode(Std, v.salt), Encode(Std, v.key);
    PlainCostsIffWritten(parts[3]);
    PlainBase64IffWritten(parts[4]);
    PlainBase64IffWritten(parts[5]);
    CostTextHasNoSeparator(v.memory, v.time, v.lanes);
    EncodedChars(Std, v.salt);
    EncodedChars(Std, v.key);
    SplitFields("v=19", c, x, y);
    var whole := "$argon2id$" + ("v=19" + ("$" + (c + ("$" + (x + ("$" + y))))));
    assert Written(v) == whole;
    assert Split(whole) == ["", "argon2id", "v=19", c, x, y];
    JoinSplit(s);
    JoinSplit(whole);
    if parts[2] == "v=19" && parts[3] == c && parts[4] == x && parts[5] == y {
      assert parts == Split(whole);
    }
  }
}

/** authn/password.go: Hasher.Hash and Hasher.Verify over the printed form. Argon2 and bcrypt are
    parameters; the bounded slots are a counter. */
module Hashing {
  import opened Prelude
  import opened Base64
  import opened Phc
  import Passwords

  datatype Params = Params(memory: uint32, time: uint32, lanes: uint8, saltLen: uint32, keyLen: uint32)

  function Defaults(p: Params): Params {
    Params(if p.memory == 0 then 19456 else p.memory, if p.time == 0 then 2 else p.time,
           if p.lanes == 0 then 1 else p.lanes,
           if p.saltLen == 0 then 16 else p.saltLen, if p.keyLen == 0 then 32 else p.keyLen)
  }

  /** What a Hasher holds: every field filled. */
  type Settings = p: Params | Defaults(p) == p witness Params(19456, 2, 1, 16, 32)

  /** Argon2's derivation panics without at least one pass and one lane. */
  predicate Derivable(time: nat, lanes: nat) {
    time > 0 && lanes > 0
  }

  datatype Outcome = Returned(result: Result<Passwords.Verdict>) | Panicked

  /** One Argon2 derivation: everything its output depends on. */
  datatype Job = Job(password: string, salt: seq<byte>, memory: uint32, time: uint32, lanes: uint8, keyLen: nat)

  ghost predicate LengthKept(kdf: Job -> seq<byte>) {
    forall j :: |kdf(j)| == j.keyLen
  }

  function CostOf(memory: nat, time: nat, keyLen: nat): Passwords.Cost {
    Passwords.Cost(memory, time, keyLen)
  }

  function ConfiguredCost(p: Params): Passwords.Cost {
    CostOf(p.memory, p.time, p.keyLen)
  }

  function HashOf(kdf: Job -> seq<byte>, p: Settings, password: string, salt: seq<byte>): string {
    Written(Stored(p.memory, p.time, p.lanes, salt, kdf(Job(password, salt, p.memory, p.time, p.lanes, p.keyLen))))
  }

  function VerifyOf(kdf: Job -> seq<byte>, bcrypt: (string, string) -> bool, p: Settings, password: string,
                    encoded: string): Outcome {
    if |encoded| >= 2 && encoded[..2] == "$2" then
      Returned(Ok(Passwords.Verdict(bcrypt(encoded, password), bcrypt(encoded, password))))
    else
      var stored := Parse(encoded);
      if stored.None? then Returned(Err(Internal))
      else if !Derivable(stored.value.time, stored.value.lanes) then Panicked
      else
        var v := stored.value;
        var same := kdf(Job(password, v.salt, v.memory, v.time, v.lanes, |v.key|)) == v.key;
        var weaker := Passwords.Weaker(CostOf(v.memory, v.time, |v.key|), ConfiguredCost(p));
        Returned(Ok(Passwords.Verdict(same, same && weaker)))
  }

  class Hasher {
    const params: Settings
    const kdf: Job -> seq<byte>
    const bcrypt: (string, string) -> bool
    var free: nat
    var dummy: string

    /** A ceiling of zero or less means one slot per schedulable thread. */
    constructor (p: Params, maxConcurrent: int, threads: nat, kdf: Job -> seq<byte>, bcrypt: (string, string) -> bool,
                 secret: string, salt: seq<byte>)
      requires threads > 0
      ensures params == Defaults(p) && this.kdf == kdf && this.bcrypt == bcrypt
      ensures free == if maxConcurrent <= 0 then threads else maxConcurrent
      ensures dummy == HashOf(kdf, params, secret, salt)
    {
      params, this.kdf, this.bcrypt := Defaults(p), kdf, bcrypt;
      free := if maxConcurrent <= 0 then threads else maxConcurrent;
      dummy := HashOf(kdf, Defaults(p), secret, salt);
    }

    /** The outcome of the bounded wait: a slot, or being turned away. */
    method Acquire() returns (ok: bool)
      modifies this`free
      ensures ok == (old(free) > 0)
      ensures free == if ok then old(free) - 1 else old(free)
    {
      ok := free > 0;
      if ok {
        free := free - 1;
      }
    }

    method Release()
      modifies this`free
      ensures free == old(free) + 1
    {
      free := free + 1;
    }

    /** Every path gives the slot back. */
    method Hash(password: string, salt: seq<byte>) returns (r: Result<string>)
      modifies this`free
      ensures free == old(free)
      ensures r == if old(free) == 0 then Err(HasherBusy) else Ok(HashOf(kdf, params, password, salt))
    {
      var ok := Acquire();
      if !ok {
        return Err(HasherBusy);
      }
      r := Ok(HashOf(kdf, params, password, salt));
      Release();
    }

    /** A panic unwinds through the deferred release, so it gives the slot back too. */
    method Verify(password: string, encoded: string) returns (out: Outcome)
      modifies this`free
      ensures free == old(free)
      ensures out == if old(free) == 0 then Returned(Err(HasherBusy))
              else VerifyOf(kdf, bcrypt, params, password, encoded)
    {
      var ok := Acquire();
      if !ok {
        return Returned(Err(HasherBusy));
      }
      if |encoded| >= 2 && encoded[..2] == "$2" {
        var matches := bcrypt(encoded, password);
        Release();
        return Returned(Ok(Passwords.Verdict(matches, matches)));
      }
      var stored := Parse(encoded);
      if stored.None? {
        Release();
        return Returned(Err(Internal));
      }
      var v := stored.value;
      if v.time < 1 || v.lanes < 1 {
        Release();
        return Panicked;
      }
      var derived := kdf(Job(password, v.salt, v.memory, v.time, v.lanes, |v.key|));
      if derived != v.key {
        Release();
        return Returned(Ok(Passwords.Verdict(false, false)));
      }
      var weaker := Passwords.Weaker(CostOf(v.memory, v.time, |v.key|), ConfiguredCost(params));
      out := Returned(Ok(Passwords.Verdict(true, weaker)));
      Release();
    }
  }

  predicate Printable(p: Params) {
    8 <= p.saltLen <= 64 && 16 <= p.keyLen <= 128
  }

  /** Defaults fill every field, leave set ones alone, and give lengths the parser accepts unless the
      caller asked for others. */
  lemma DefaultsAreUsable(p: Params)
    ensures var d := Defaults(p);
            && Defaults(d) == d && d.memory > 0 && d.time > 0 && d.lanes > 0
            && d.memory == (if p.memory > 0 then p.memory else 19456) && d.time == (if p.time > 0 then p.time else 2)
            && d.lanes == (if p.lanes > 0 then p.lanes else 1)
            && (Printable(d) <==> (p.saltLen == 0 || 8 <= p.saltLen <= 64) && (p.keyLen == 0 || 16 <= p.keyLen <= 128))
  {
  }

  lemma NotBcrypt(v: Stored)
    ensures |Written(v)| >= 2 && Written(v)[..2] != "$2"
  {
    assert Written(v)[1] == 'a';
  }

  /** Zero passes or lanes get past the parser and are the one thing that panics; no hasher writes them. */
  lemma PanicsExactlyWithoutWork(kdf: Job -> seq<byte>, bcrypt: (string, string) -> bool, p: Settings, password: string,
                                 v: Stored)
    ensures VerifyOf(kdf, bcrypt, p, password, Written(v)) == Panicked <==> Envelope(v) && (v.time == 0 || v.lanes == 0)
  {
    hide Written, Parse;
    NotBcrypt(v);
    RoundTrip(v);
  }

  /** What one configuration hashed, another verifies: it matches exactly the passwords deriving the
      same key, and a match asks for a rehash exactly when the old costs are weaker. Lengths outside
      the envelope make every hash unreadable, whatever the password. */
  lemma VerifyWritten(kdf: Job -> seq<byte>, bcrypt: (string, string) -> bool, writer: Settings, reader: Settings,
                      password: string, guess: string, salt: seq<byte>)
    requires LengthKept(kdf) && |salt| == writer.saltLen
    ensures var key := (pw: string) => kdf(Job(pw, salt, writer.memory, writer.time, writer.lanes, writer.keyLen));
            VerifyOf(kdf, bcrypt, reader, guess, HashOf(kdf, writer, password, salt)) ==
              Returned(if !Printable(writer) then Err(Internal)
                       else if key(guess) != key(password) then Ok(Passwords.Verdict(false, false))
                       else Ok(Passwords.Verdict(
                         true, Passwords.Weaker(ConfiguredCost(writer), ConfiguredCost(reader)))))
  {
    hide Written, Parse;
    var key := kdf(Job(password, salt, writer.memory, writer.time, writer.lanes, writer.keyLen));
    var v := Stored(writer.memory, writer.time, writer.lanes, salt, key);
    NotBcrypt(v);
    RoundTrip(v);
  }

  /** An imported bcrypt string settles in one login: whoever it accepts is asked for a rehash, and the
      string written then accepts the same password without asking again; whoever it refuses is not. Any
      other string that does not parse is an error, not a mismatch. */
  lemma ImportSettles(kdf: Job -> seq<byte>, bcrypt: (string, string) -> bool, p: Settings, password: string,
                      rest: string, text: string, salt: seq<byte>)
    requires LengthKept(kdf) && |salt| == p.saltLen && Printable(p)
    ensures var imported := VerifyOf(kdf, bcrypt, p, password, "$2" + rest);
            var rewritten := VerifyOf(kdf, bcrypt, p, password, HashOf(kdf, p, password, salt));
            && (imported == Returned(Ok(Passwords.Verdict(true, true))) <==> bcrypt("$2" + rest, password))
            && (imported == Returned(Ok(Passwords.Verdict(false, false))) <==> !bcrypt("$2" + rest, password))
            && rewritten == Returned(Ok(Passwords.Verdict(true, false)))
    ensures VerifyOf(kdf, bcrypt, p, password, text) == Returned(Err(Internal))
            <==> Parse(text).None? && !("$2" <= text)
  {
    hide HashOf, Parse;
    VerifyWritten(kdf, bcrypt, p, p, password, password, salt);
  }

  /** Hash then Verify under one Hasher succeeds without asking for a rehash, exactly when its lengths
      are in the envelope: so one rehash settles an account, and no later login with any password
      under the same configuration asks again. */
  lemma HashThenVerify(kdf: Job -> seq<byte>, bcrypt: (string, string) -> bool, p: Settings, password: string,
                       guess: string, salt: seq<byte>)
    requires LengthKept(kdf) && |salt| == p.saltLen
    ensures var stored := HashOf(kdf, p, password, salt);
            var own := VerifyOf(kdf, bcrypt, p, password, stored); var other := VerifyOf(kdf, bcrypt, p, guess, stored);
            && own.Returned? && other.Returned?
            && (own.result == Ok(Passwords.Verdict(true, false)) <==> Printable(p))
            && (Printable(p) ==> other.result.Ok?) && (other.result.Ok? ==> !other.result.value.rehash)
  {
    hide HashOf, VerifyOf;
    VerifyWritten(kdf, bcrypt, p, p, password, password, salt);
    VerifyWritten(kdf, bcrypt, p, p, password, guess, salt);
  }

  /** Where the derivation does not confuse two passwords, the printed form behaves as the ideal
      hash the rest of the model stores. */
  lemma VerifyIsIdeal(kdf: Job -> seq<byte>, bcrypt: (string, string) -> bool, writer: Settings, reader: Settings,
                      password: string, guess: string, salt: seq<byte>, tag: nat)
    requires LengthKept(kdf) && |salt| == writer.saltLen && Printable(writer)
    requires guess != password ==>
               kdf(Job(guess, salt, writer.memory, writer.time, writer.lanes, writer.keyLen))
               != kdf(Job(password, salt, writer.memory, writer.time, writer.lanes, writer.keyLen))
    ensures VerifyOf(kdf, bcrypt, reader, guess, HashOf(kdf, writer, password, salt))
            == Returned(Passwords.Verify(ConfiguredCost(reader), false, guess,
                                         Passwords.Argon2id(ConfiguredCost(writer), tag, password)))
  {
    hide HashOf, VerifyOf;
    VerifyWritten(kdf, bcrypt, writer, reader, password, guess, salt);
  }

  predicate AsksAgain(kdf: Job -> seq<byte>, bcrypt: (string, string) -> bool, writer: Settings, reader: Settings,
                      password: string, salt: seq<byte>) {
    VerifyOf(kdf, bcrypt, reader, password, HashOf(kdf, writer, password, salt))
      == Returned(Ok(Passwords.Verdict(true, true)))
  }

  predicate AtLeast(a: Params, b: Params) {
    a.memory >= b.memory && a.time >= b.time && a.keyLen >= b.keyLen
  }

  /** Two replicas with different settings rewrite an account's hash back and forth for ever exactly
      when neither setting is at least the other in memory, passes and key length together. */
  lemma FleetSettlesIffComparable(kdf: Job -> seq<byte>, bcrypt: (string, string) -> bool, a: Settings, b: Settings,
                                  password: string, saltA: seq<byte>, saltB: seq<byte>)
    requires LengthKept(kdf) && |saltA| == a.saltLen && |saltB| == b.saltLen && Printable(a) && Printable(b)
    ensures AsksAgain(kdf, bcrypt, a, b, password, saltA) && AsksAgain(kdf, bcrypt, b, a, password, saltB)
            <==> !AtLeast(a, b) && !AtLeast(b, a)
  {
    hide HashOf, VerifyOf;
    VerifyWritten(kdf, bcrypt, a, b, password, password, saltA);
    VerifyWritten(kdf, bcrypt, b, a, password, password, saltB);
  }
}
