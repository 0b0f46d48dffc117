/** docs/e2ee-client.ts: the sealed blob, the place it is bound to, and the keys around it. AES-GCM,
    HKDF and the KDF are ideal functions handed in; random bytes are parameters. */
module Client {
  import opened Prelude
  import opened Base64
  import AuthSecret

  const VERSION: byte := 1
  const ALG_AES_256_GCM: byte := 1
  const NONCE_BYTES := 12

  // ---- the place ----

  const PLACE_PREFIX := "kal.e2ee.v1|"

  /** aad: resource, record and owner joined with bars. */
  function Place(resource: string, record: string, owner: string): string {
    PLACE_PREFIX + (resource + ("|" + (record + ("|" + owner))))
  }

  lemma PlaceIsJoined(r: string, i: string, o: string)
    ensures Place(r, i, o) == "kal.e2ee.v1|" + r + "|" + i + "|" + o
  {
  }

  predicate BarFree(s: string) {
    '|' !in s
  }

  lemma {:induction false} FirstBar(a: string, x: string, b: string, y: string)
    requires BarFree(a) && BarFree(b) && a + ("|" + x) == b + ("|" + y)
    ensures a == b && x == y
  {
    var s, t := a + ("|" + x), b + ("|" + y);
    if a == "" || b == "" {
      assert s[0] == t[0];
      assert a == b;
      assert s[1..] == x && t[1..] == y;
    } else {
      assert s[0] == t[0] && s[1..] == a[1..] + ("|" + x) && t[1..] == b[1..] + ("|" + y);
      FirstBar(a[1..], x, b[1..], y);
      assert a == [a[0]] + a[1..] && b == [b[0]] + b[1..];
    }
  }

  function Bars(s: string): nat {
    if s == "" then 0 else (if s[0] == '|' then 1 else 0) + Bars(s[1..])
  }

  lemma {:induction false} BarsAdd(a: string, b: string)
    ensures Bars(a + b) == Bars(a) + Bars(b)
  {
    if a == "" {
      assert a + b == b;
    } else {
      assert (a + b)[1..] == a[1..] + b;
      BarsAdd(a[1..], b);
    }
  }

  lemma {:induction false} BarsCount(s: string)
    ensures Bars(s) == 0 <==> BarFree(s)
  {
    if s != "" {
      BarsCount(s[1..]);
      assert s == [s[0]] + s[1..];
    }
  }

  lemma BarsOfPlace(r: string, i: string, o: string)
    ensures Bars(r + ("|" + (i + ("|" + o)))) == Bars(r) + Bars(i) + Bars(o) + 2
  {
    assert Bars("|") == 1 by { assert "|"[1..] == ""; }
    BarsAdd(r, "|" + (i + ("|" + o)));
    BarsAdd("|", i + ("|" + o));
    BarsAdd(i, "|" + o);
    BarsAdd("|", o);
  }

  /** Where no field of one place holds a bar, no other place shares its string. */
  lemma PlaceIsBound(r: string, i: string, o: string, r2: string, i2: string, o2: string)
    requires BarFree(r) && BarFree(i) && BarFree(o)
    requires Place(r2, i2, o2) == Place(r, i, o)
    ensures r2 == r && i2 == i && o2 == o
  {
    var a, b := r + ("|" + (i + ("|" + o))), r2 + ("|" + (i2 + ("|" + o2)));
    assert Place(r, i, o)[|PLACE_PREFIX|..] == a && Place(r2, i2, o2)[|PLACE_PREFIX|..] == b;
    BarsOfPlace(r, i, o);
    BarsOfPlace(r2, i2, o2);
    BarsCount(r); BarsCount(i); BarsCount(o);
    BarsCount(r2); BarsCount(i2); BarsCount(o2);
    FirstBar(r, i + ("|" + o), r2, i2 + ("|" + o2));
    FirstBar(i, o, i2, o2);
  }

  lemma {:induction false} AtBar(s: string) returns (x: string, y: string)
    requires !BarFree(s)
    ensures s == x + ("|" + y)
  {
    if s[0] == '|' {
      x, y := "", s[1..];
    } else {
      x, y := AtBar(s[1..]);
      assert s == [s[0]] + s[1..];
      x := [s[0]] + x;
    }
  }

  /** A field with a bar in it always has a twin at another place. */
  lemma BarMakesATwin(r: string, i: string, o: string) returns (r2: string, i2: string, o2: string)
    requires !BarFree(r) || !BarFree(i) || !BarFree(o)
    ensures (r2, i2, o2) != (r, i, o) && Place(r2, i2, o2) == Place(r, i, o)
  {
    if !BarFree(o) {
      var x, y := AtBar(o);
      r2, i2, o2 := r + ("|" + i), x, y;
      assert |o2| < |o|;
      assert r2 + ("|" + (i2 + ("|" + o2))) == r + ("|" + (i + ("|" + o)));
    } else if !BarFree(i) {
      var x, y := AtBar(i);
      r2, i2, o2 := r + ("|" + x), y, o;
      assert |i2| < |i|;
      assert r2 + ("|" + (i2 + ("|" + o2))) == r + ("|" + (i + ("|" + o)));
    } else {
      var x, y := AtBar(r);
      r2, i2, o2 := x, y + ("|" + i), o;
      assert |r2| < |r|;
      assert r2 + ("|" + (i2 + ("|" + o2))) == r + ("|" + (i + ("|" + o)));
    }
  }

  /** A place is named by its string alone exactly when none of its fields holds a bar. */
  lemma PlaceIsBoundIffBarFree(r: string, i: string, o: string)
    ensures Place(r, i, o) == "kal.e2ee.v1|" + r + "|" + i + "|" + o
    ensures (forall r2, i2, o2 :: Place(r2, i2, o2) == Place(r, i, o) ==> r2 == r && i2 == i && o2 == o)
            <==> '|' !in r && '|' !in i && '|' !in o
  {
    hide Place;
    PlaceIsJoined(r, i, o);
    if BarFree(r) && BarFree(i) && BarFree(o) {
      forall r2, i2, o2 | Place(r2, i2, o2) == Place(r, i, o)
        ensures r2 == r && i2 == i && o2 == o
      {
        PlaceIsBound(r, i, o, r2, i2, o2);
      }
    } else {
      var r2, i2, o2 := BarMakesATwin(r, i, o);
    }
  }

  // ---- the ideal cipher ----

  datatype Aead = Aead(encrypt: (seq<byte>, seq<byte>, seq<byte>, string) -> seq<byte>,
                       decrypt: (seq<byte>, seq<byte>, seq<byte>, string) -> Option<seq<byte>>)

  /** Only the same key, nonce and additional data take an encryption back. */
  ghost predicate Ideal(c: Aead) {
    forall k, n, p, a, k2, n2, a2 :: c.decrypt(k2, n2, c.encrypt(k, n, p, a), a2) ==
      if k2 == k && n2 == n && a2 == a then Some(p) else None
  }

  function SealedBytes(c: Aead, key: seq<byte>, nonce: seq<byte>, plaintext: seq<byte>, place: string): seq<byte> {
    [VERSION, ALG_AES_256_GCM] + nonce + c.encrypt(key, nonce, plaintext, place)
  }

  method SetAt(blob: array<byte>, bytes: seq<byte>, at: nat)
    requires at + |bytes| <= blob.Length
    modifies blob
    ensures blob[..] == old(blob[..at]) + bytes + old(blob[at + |bytes|..])
  {
    for i := 0 to |bytes|
      invariant blob[..at] == old(blob[..at]) && blob[at..at + i] == bytes[..i]
      invariant blob[at + i..] == old(blob[at + i..])
    {
      blob[at + i] := bytes[i];
    }
    assert blob[..] == blob[..at] + blob[at..at + |bytes|] + blob[at + |bytes|..];
    assert bytes[..|bytes|] == bytes;
  }

  method Wipe(buffer: array<byte>)
    modifies buffer
    ensures forall i :: 0 <= i < buffer.Length ==> buffer[i] == 0
  {
    for i := 0 to buffer.Length
      invariant forall j :: 0 <= j < i ==> buffer[j] == 0
    {
      buffer[i] := 0;
    }
  }

  /** seal: version, algorithm, nonce and ciphertext laid out in one buffer. */
  method Seal(c: Aead, key: seq<byte>, plaintext: seq<byte>, place: string, nonce: seq<byte>)
    returns (blob: array<byte>)
    requires |nonce| == NONCE_BYTES
    ensures fresh(blob) && blob[..] == SealedBytes(c, key, nonce, plaintext, place)
    ensures blob[..] == [1, 1] + nonce + c.encrypt(key, nonce, plaintext, place)
  {
    var ct := c.encrypt(key, nonce, plaintext, place);
    blob := new byte[2 + NONCE_BYTES + |ct|](_ => 0);
    blob[0] := VERSION;
    blob[1] := ALG_AES_256_GCM;
    assert blob[..2] == [VERSION, ALG_AES_256_GCM];
    SetAt(blob, nonce, 2);
    assert blob[..2 + NONCE_BYTES] == [VERSION, ALG_AES_256_GCM] + nonce;
    SetAt(blob, ct, 2 + NONCE_BYTES);
  }

  function Min(a: nat, b: nat): nat {
    if a <= b then a else b
  }

  /** open: the two leading bytes are checked before anything else is read; subarray clamps. */
  function Open(c: Aead, key: seq<byte>, blob: seq<byte>, place: string): Option<seq<byte>> {
    if |blob| < 2 || blob[0] != VERSION || blob[1] != ALG_AES_256_GCM then None
    else
      var cut := Min(2 + NONCE_BYTES, |blob|);
      c.decrypt(key, blob[2..cut], blob[cut..], place)
  }

  lemma OpenSealed(c: Aead, key: seq<byte>, nonce: seq<byte>, plaintext: seq<byte>, place: string, key2: seq<byte>,
                   place2: string)
    requires Ideal(c) && |nonce| == NONCE_BYTES
    ensures Open(c, key2, SealedBytes(c, key, nonce, plaintext, place), place2)
            == if key2 == key && place2 == place then Some(plaintext) else None
  {
    var blob := SealedBytes(c, key, nonce, plaintext, place);
    assert blob[2..2 + NONCE_BYTES] == nonce && blob[2 + NONCE_BYTES..] == c.encrypt(key, nonce, plaintext, place);
    assert Open(c, key2, blob, place2) == c.decrypt(key2, nonce, c.encrypt(key, nonce, plaintext, place), place2);
  }

  /** Any other version or algorithm byte is refused, and so is a spliced nonce. */
  lemma HeaderIsChecked(c: Aead, key: seq<byte>, nonce: seq<byte>, plaintext: seq<byte>, place: string, version: byte,
                        alg: byte, nonce2: seq<byte>)
    requires Ideal(c) && |nonce| == NONCE_BYTES && |nonce2| == NONCE_BYTES
    ensures var blob := [version, alg] + nonce2 + c.encrypt(key, nonce, plaintext, place);
            Open(c, key, blob, place) ==
              if version == 1 && alg == 1 && nonce2 == nonce then Some(plaintext) else None
  {
    var blob := [version, alg] + nonce2 + c.encrypt(key, nonce, plaintext, place);
    assert blob[2..2 + NONCE_BYTES] == nonce2 && blob[2 + NONCE_BYTES..] == c.encrypt(key, nonce, plaintext, place);
    assert c.decrypt(key, nonce2, c.encrypt(key, nonce, plaintext, place), place) ==
           if nonce2 == nonce then Some(plaintext) else None;
  }

  // ---- records ----

  const KEY_BYTES := 32

  /** importKey: AES takes 16, 24 or 32 bytes. */
  predicate Importable(raw: seq<byte>) {
    |raw| in {16, 24, 32}
  }

  datatype Record = Record(ciphertext: seq<byte>, wrappedDek: seq<byte>)

  function RecordOf(c: Aead, vaultKey: seq<byte>, plaintext: seq<byte>, place: string, dek: seq<byte>, n1: seq<byte>,
                    n2: seq<byte>): Record {
    Record(SealedBytes(c, dek, n1, plaintext, place), SealedBytes(c, vaultKey, n2, dek, place))
  }

  /** encryptRecord. `dek` arrives filled with random bytes and leaves wiped; the wrapped copy was
      taken before. */
  method EncryptRecord(c: Aead, vaultKey: seq<byte>, plaintext: seq<byte>, resource: string, record: string,
                       owner: string, dek: array<byte>, n1: seq<byte>, n2: seq<byte>)
    returns (ciphertext: array<byte>, wrappedDek: array<byte>)
    requires dek.Length == KEY_BYTES && |n1| == |n2| == NONCE_BYTES
    modifies dek
    ensures fresh(ciphertext) && fresh(wrappedDek)
    ensures Record(ciphertext[..], wrappedDek[..])
            == RecordOf(c, vaultKey, plaintext, Place(resource, record, owner), old(dek[..]), n1, n2)
    ensures forall i :: 0 <= i < dek.Length ==> dek[i] == 0
  {
    hide Place;
    var place := Place(resource, record, owner);
    ciphertext := Seal(c, dek[..], plaintext, place, n1);
    wrappedDek := Seal(c, vaultKey, dek[..], place, n2);
    Wipe(dek);
  }

  function DecryptRecord(c: Aead, vaultKey: seq<byte>, r: Record, place: string): Option<seq<byte>> {
    var dek := Open(c, vaultKey, r.wrappedDek, place);
    if dek.None? || !Importable(dek.value) then None else Open(c, dek.value, r.ciphertext, place)
  }

  /** A record opens exactly under the vault key and at the place it was written, provided its data key
      is one AES takes; a data key and a ciphertext taken from two different records never open together. */
  lemma RecordOpensExactly(c: Aead, vaultKey: seq<byte>, plaintext: seq<byte>, place: string, dek: seq<byte>,
                           n1: seq<byte>, n2: seq<byte>, key2: seq<byte>, place2: string, other: Record,
                           plaintext2: seq<byte>, dek2: seq<byte>, m1: seq<byte>, m2: seq<byte>)
    requires Ideal(c) && |n1| == |n2| == |m1| == |m2| == NONCE_BYTES
    requires other == RecordOf(c, vaultKey, plaintext2, place, dek2, m1, m2)
    ensures var r := RecordOf(c, vaultKey, plaintext, place, dek, n1, n2);
            && DecryptRecord(c, key2, r, place2)
               == (if key2 == vaultKey && place2 == place && (|dek| == 16 || |dek| == 24 || |dek| == 32)
                   then Some(plaintext) else None)
            && (dek2 != dek ==> DecryptRecord(c, vaultKey, Record(r.ciphertext, other.wrappedDek), place).None?)
  {
    hide Open, SealedBytes, Ideal;
    OpenSealed(c, vaultKey, n2, dek, place, key2, place2);
    OpenSealed(c, dek, n1, plaintext, place, dek, place2);
    OpenSealed(c, vaultKey, m2, dek2, place, vaultKey, place);
    OpenSealed(c, dek, n1, plaintext, place, dek2, place);
  }

  /** A record copied into another row, field or owner's table opens nowhere but where it was
      written, provided the names of the place it was written for hold no bar. */
  lemma MovedRecordStaysShut(c: Aead, vaultKey: seq<byte>, plaintext: seq<byte>, dek: seq<byte>, n1: seq<byte>,
                             n2: seq<byte>, r: string, i: string, o: string, r2: string, i2: string, o2: string)
    requires Ideal(c) && |dek| == KEY_BYTES && |n1| == |n2| == NONCE_BYTES
    requires BarFree(r) && BarFree(i) && BarFree(o)
    ensures DecryptRecord(c, vaultKey, RecordOf(c, vaultKey, plaintext, Place(r, i, o), dek, n1, n2), Place(r2, i2, o2))
            == if (r2, i2, o2) == (r, i, o) then Some(plaintext) else None
  {
    hide Place, RecordOf, DecryptRecord, Ideal;
    var place := Place(r, i, o);
    if Place(r2, i2, o2) == place {
      PlaceIsBound(r, i, o, r2, i2, o2);
    }
    RecordOpensExactly(c, vaultKey, plaintext, place, dek, n1, n2, vaultKey, Place(r2, i2, o2),
                       RecordOf(c, vaultKey, plaintext, place, dek, n1, n2), plaintext, dek, n1, n2);
  }

  // ---- the vault key ----

  function Wrapped(c: Aead, encKey: seq<byte>, vaultKey: seq<byte>, owner: string, nonce: seq<byte>): seq<byte> {
    SealedBytes(c, encKey, nonce, vaultKey, Place("vault", "", owner))
  }

  method WrapVaultKey(c: Aead, encKey: seq<byte>, vaultKey: seq<byte>, owner: string, nonce: seq<byte>)
    returns (blob: array<byte>)
    requires |nonce| == NONCE_BYTES
    ensures fresh(blob) && blob[..] == Wrapped(c, encKey, vaultKey, owner, nonce)
    ensures blob[..] == [1, 1] + nonce + c.encrypt(encKey, nonce, vaultKey, "kal.e2ee.v1|vault||" + owner)
  {
    PlaceIsJoined("vault", "", owner);
    assert "kal.e2ee.v1|" + "vault" + "|" + "" + "|" == "kal.e2ee.v1|vault||";
    blob := Seal(c, encKey, vaultKey, Place("vault", "", owner), nonce);
  }

  function UnwrapVaultKey(c: Aead, encKey: seq<byte>, blob: seq<byte>, owner: string): Option<seq<byte>> {
    Open(c, encKey, blob, Place("vault", "", owner))
  }

  lemma VaultPlaces(owner: string, owner2: string)
    ensures Place("vault", "", owner) == Place("vault", "", owner2) <==> owner == owner2
  {
    var a, b := Place("vault", "", owner), Place("vault", "", owner2);
    if a == b {
      assert a[|PLACE_PREFIX|..] == "vault" + ("|" + ("" + ("|" + owner)));
      assert b[|PLACE_PREFIX|..] == "vault" + ("|" + ("" + ("|" + owner2)));
      FirstBar("vault", "" + ("|" + owner), "vault", "" + ("|" + owner2));
      FirstBar("", owner, "", owner2);
    }
  }

  /** A password change re-wraps one blob: the new key opens it for its owner and no one else, the
      old key does not, and every record written before still decrypts under what it holds. */
  lemma RewrapKeepsRecords(c: Aead, oldEnc: seq<byte>, newEnc: seq<byte>, vaultKey: seq<byte>, owner: string,
                           other: string, w1: seq<byte>, w2: seq<byte>, plaintext: seq<byte>, place: string,
                           dek: seq<byte>, n1: seq<byte>, n2: seq<byte>)
    requires Ideal(c) && |w1| == |w2| == |n1| == |n2| == NONCE_BYTES && |dek| == KEY_BYTES
    ensures var before := UnwrapVaultKey(c, oldEnc, Wrapped(c, oldEnc, vaultKey, owner, w1), owner);
            && before == Some(vaultKey)
            && var blob := Wrapped(c, newEnc, before.value, owner, w2);
               && (UnwrapVaultKey(c, newEnc, blob, other) == if other == owner then Some(vaultKey) else None)
               && (newEnc != oldEnc ==> UnwrapVaultKey(c, oldEnc, blob, owner).None?)
               && (other == owner ==>
                     DecryptRecord(c, UnwrapVaultKey(c, newEnc, blob, other).value,
                                   RecordOf(c, vaultKey, plaintext, place, dek, n1, n2), place) == Some(plaintext))
  {
    hide Open, SealedBytes, Ideal, Place, RecordOf, DecryptRecord;
    var p := Place("vault", "", owner);
    OpenSealed(c, oldEnc, w1, vaultKey, p, oldEnc, p);
    OpenSealed(c, newEnc, w2, vaultKey, p, newEnc, Place("vault", "", other));
    OpenSealed(c, newEnc, w2, vaultKey, p, oldEnc, p);
    VaultPlaces(owner, other);
    RecordOpensExactly(c, vaultKey, plaintext, place, dek, n1, n2, vaultKey, place,
                       RecordOf(c, vaultKey, plaintext, place, dek, n1, n2), plaintext, dek, n1, n2);
  }

  // ---- the auth secret and the recovery code ----

  function Swap(c: char): char {
    if c == '+' then '-' else if c == '/' then '_' else c
  }

  function SwapBack(c: char): char {
    if c == '-' then '+' else if c == '_' then '/' else c
  }

  function Mapped(s: string, f: char -> char): string {
    if s == "" then "" else [f(s[0])] + Mapped(s[1..], f)
  }

  /** btoa: the standard alphabet, padded to whole quanta. */
  function Btoa(b: seq<byte>): string {
    Encode(Std, b) + (if |b| % 3 == 0 then "" else if |b| % 3 == 1 then "==" else "=")
  }

  function StripPadding(s: string): string {
    if s != "" && s[|s| - 1] == '=' then StripPadding(s[..|s| - 1]) else s
  }

  function B64Url(b: seq<byte>): string {
    StripPadding(Mapped(Btoa(b), Swap))
  }

  /** b64urlDecode; atob takes unpadded text and ignores trailing bits. */
  function B64UrlDecode(s: string): Option<seq<byte>> {
    Decode(Std, Mapped(s, SwapBack), false)
  }

  lemma {:induction false} MappedAdd(a: string, b: string, f: char -> char)
    ensures Mapped(a + b, f) == Mapped(a, f) + Mapped(b, f)
  {
    if a == "" {
      assert a + b == b;
    } else {
      assert (a + b)[1..] == a[1..] + b;
      MappedAdd(a[1..], b, f);
    }
  }

  lemma SwapChars(v: sextet)
    ensures Swap(EncodeChar(Std, v)) == EncodeChar(Url, v) && SwapBack(EncodeChar(Url, v)) == EncodeChar(Std, v)
    ensures EncodeChar(Url, v) != '='
  {
  }

  lemma {:induction false} AlphabetsSwap(b: seq<byte>)
    ensures Mapped(Encode(Std, b), Swap) == Encode(Url, b) && Mapped(Encode(Url, b), SwapBack) == Encode(Std, b)
    ensures '=' !in Encode(Url, b)
  {
    hide EncodeChar, Bits0, Bits1, Bits2, Bits3, Swap, SwapBack;
    forall v: sextet
      ensures Swap(EncodeChar(Std, v)) == EncodeChar(Url, v) && SwapBack(EncodeChar(Url, v)) == EncodeChar(Std, v)
      ensures EncodeChar(Url, v) != '='
    {
      SwapChars(v);
    }
    if |b| == 1 {
      AlphabetsSwapQuad([Bits0(b[0]), Bits1(b[0], 0)]);
    } else if |b| == 2 {
      AlphabetsSwapQuad([Bits0(b[0]), Bits1(b[0], b[1]), Bits2(b[1], 0)]);
    } else if |b| >= 3 {
      var quad := [Bits0(b[0]), Bits1(b[0], b[1]), Bits2(b[1], b[2]), Bits3(b[2])];
      AlphabetsSwapQuad(quad);
      AlphabetsSwap(b[3..]);
      MappedAdd(Chars(Std, quad), Encode(Std, b[3..]), Swap);
      MappedAdd(Chars(Url, quad), Encode(Url, b[3..]), SwapBack);
    }
    AsChars(Std, b);
    AsChars(Url, b);
  }

  lemma AsChars(a: Alphabet, b: seq<byte>)
    ensures |b| == 1 ==> Encode(a, b) == Chars(a, [Bits0(b[0]), Bits1(b[0], 0)])
    ensures |b| == 2 ==> Encode(a, b) == Chars(a, [Bits0(b[0]), Bits1(b[0], b[1]), Bits2(b[1], 0)])
    ensures |b| >= 3 ==>
              Encode(a, b)
              == Chars(a, [Bits0(b[0]), Bits1(b[0], b[1]), Bits2(b[1], b[2]), Bits3(b[2])]) + Encode(a, b[3..])
  {
  }

  lemma {:induction false} AlphabetsSwapQuad(vs: seq<sextet>)
    ensures Mapped(Chars(Std, vs), Swap) == Chars(Url, vs) && Mapped(Chars(Url, vs), SwapBack) == Chars(Std, vs)
    ensures '=' !in Chars(Url, vs)
  {
    hide EncodeChar, Swap, SwapBack;
    if vs != [] {
      SwapChars(vs[0]);
      AlphabetsSwapQuad(vs[1..]);
      assert Chars(Std, vs) == [EncodeChar(Std, vs[0])] + Chars(Std, vs[1..]);
      assert Chars(Url, vs) == [EncodeChar(Url, vs[0])] + Chars(Url, vs[1..]);
    }
  }

  lemma {:induction false} PaddingGoes(s: string, n: nat)
    requires '=' !in s
    ensures StripPadding(s + seq(n, _ => '=')) == s
  {
    var t := s + seq(n, _ => '=');
    if n == 0 {
      assert t == s;
    } else {
      assert t[..|t| - 1] == s + seq(n - 1, _ => '=');
      PaddingGoes(s, n - 1);
    }
  }

  /** The client's detour through btoa writes the server's unpadded base64url, and reads it back. */
  lemma B64UrlIsCanonical(b: seq<byte>)
    ensures B64Url(b) == Encode(Url, b) && B64UrlDecode(B64Url(b)) == Some(b)
  {
    hide Encode, Swap, SwapBack;
    var n := if |b| % 3 == 0 then 0 else if |b| % 3 == 1 then 2 else 1;
    var pad := seq(n, _ => '=');
    assert Btoa(b) == Encode(Std, b) + pad;
    MappedAdd(Encode(Std, b), pad, Swap);
    PadUnmoved(n);
    AlphabetsSwap(b);
    PaddingGoes(Encode(Url, b), n);
    DecodeEncode(Std, b, false);
  }

  lemma {:induction false} PadUnmoved(n: nat)
    ensures Mapped(seq(n, _ => '='), Swap) == seq(n, _ => '=')
  {
    if n > 0 {
      PadUnmoved(n - 1);
      assert seq(n, _ => '=')[1..] == seq(n - 1, _ => '=');
      assert seq(n, _ => '=') == ['='] + seq(n - 1, _ => '=');
    }
  }

  const AUTH_INFO := "kal.e2ee.v1/auth"
  const ENC_INFO := "kal.e2ee.v1/enc"

  /** derive, from the KDF's output on. What it sends always passes the server's shape check, whatever
      the password, and the master key it came from is wiped. */
  method Derive(hkdf: (seq<byte>, string) -> seq<byte>, master: array<byte>)
    returns (authSecret: string, encKey: seq<byte>)
    requires forall k, info :: |hkdf(k, info)| == KEY_BYTES
    modifies master
    ensures AuthSecret.Valid(authSecret)
    ensures authSecret == "kal1." + Encode(Url, hkdf(old(master[..]), "kal.e2ee.v1/auth"))
    ensures encKey == hkdf(old(master[..]), "kal.e2ee.v1/enc")
    ensures forall i :: 0 <= i < master.Length ==> master[i] == 0
  {
    var auth := hkdf(master[..], AUTH_INFO);
    encKey := hkdf(master[..], ENC_INFO);
    Wipe(master);
    B64UrlIsCanonical(auth);
    authSecret := "kal1." + B64Url(auth);
    AuthSecret.ValidIffCanonical(authSecret);
  }
}
