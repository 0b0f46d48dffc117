/** Shared result types, and the address normalisation every flow applies. */
module Prelude {
  datatype Option<+T> = None | Some(value: T)

  /** One constructor per (code, message) pair a caller of the library can tell apart.
      Errors outside the vocabulary reach the client redacted, as `Internal`. */
  datatype Failure =
    | Unauthenticated     // no principal on the request
    | SessionGone         // UNAUTHENTICATED, "session is no longer valid"
    | InvalidCredentials
    | WindowOpen          // RATE_LIMITED by a login counter
    | HasherBusy          // RATE_LIMITED by the hashing bound
    | Forbidden
    | MfaRequired
    | InvalidToken
    | InvalidInput
    | InvalidProof
    | Conflict
    | Internal

  datatype Result<+T> = Ok(value: T) | Err(failure: Failure)
}

/** ASCII lower-casing and trimming, as strings.ToLower and strings.TrimSpace do on ASCII. */
module Text {
  function LowerChar(c: char): char {
    if 'A' <= c <= 'Z' then (c as int + 32) as char else c
  }

  function Lower(s: string): (r: string)
    ensures |r| == |s|
    ensures forall i :: 0 <= i < |s| ==> r[i] == LowerChar(s[i])
  {
    seq(|s|, i requires 0 <= i < |s| => LowerChar(s[i]))
  }

  predicate Space(c: char) {
    c in {' ', '\t', '\n', '\r', 11 as char, 12 as char}
  }

  function TrimLeft(s: string): (r: string)
    ensures r == [] || !Space(r[0])
  {
    if s != [] && Space(s[0]) then TrimLeft(s[1..]) else s
  }

  function TrimRight(s: string): (r: string)
    ensures r == [] || !Space(r[|r| - 1])
    ensures r == [] || (s != [] && r[0] == s[0])
  {
    if s != [] && Space(s[|s| - 1]) then TrimRight(s[..|s| - 1]) else s
  }

  function Trim(s: string): (r: string)
    ensures r == [] || (!Space(r[0]) && !Space(r[|r| - 1]))
  {
    TrimRight(TrimLeft(s))
  }

  /** The form an address is looked up under, and the form its salt is derived from. */
  function Normalize(s: string): string {
    Lower(Trim(s))
  }

  predicate Blank(s: string) {
    forall i :: 0 <= i < |s| ==> Space(s[i])
  }

  lemma {:induction false} TrimLeftOf(pad: string, s: string)
    requires Blank(pad)
    ensures TrimLeft(pad + s) == TrimLeft(s)
  {
    if pad == "" {
      assert pad + s == s;
    } else {
      assert (pad + s)[1..] == pad[1..] + s;
      TrimLeftOf(pad[1..], s);
    }
  }

  lemma {:induction false} TrimRightOf(s: string, pad: string)
    requires Blank(pad)
    ensures TrimRight(s + pad) == TrimRight(s)
  {
    if pad == "" {
      assert s + pad == s;
    } else {
      var n := |pad| - 1;
      assert (s + pad)[..|s + pad| - 1] == s + pad[..n];
      TrimRightOf(s, pad[..n]);
    }
  }

  lemma {:induction false} PaddingOnly(pad: string)
    requires Blank(pad)
    ensures TrimLeft(pad) == "" && Trim(pad) == ""
  {
    if pad != "" {
      PaddingOnly(pad[1..]);
    }
  }

  /** Padding and case are all that is ignored: the normal form of a padded address, in any case, is its
      lower-cased text. */
  lemma OnlyCaseAndPaddingGo(before: string, s: string, after: string)
    requires Blank(before) && Blank(after) && (s == "" || (!Space(s[0]) && !Space(s[|s| - 1])))
    ensures Normalize(before + s + after) == Lower(s)
    ensures forall i :: 0 <= i < |s| ==>
              Lower(s)[i] == if 'A' <= s[i] <= 'Z' then (s[i] - 'A') + 'a' else s[i]
    ensures Space(' ') && Space('\t') && Space('\n') && Space('\r') && !Space('@') && !Space('.')
  {
    hide Lower;
    assert before + s + after == before + (s + after);
    TrimLeftOf(before, s + after);
    if s == "" {
      assert s + after == after;
      PaddingOnly(after);
    } else {
      assert TrimLeft(s + after) == s + after;
      TrimRightOf(s, after);
    }
    LowerChars(s);
  }

  lemma LowerChars(s: string)
    ensures forall i :: 0 <= i < |s| ==>
              Lower(s)[i] == if 'A' <= s[i] <= 'Z' then (s[i] - 'A') + 'a' else s[i]
  {
  }

  lemma {:induction false} TrimLeftKeeps(s: string, c: char)
    requires !Space(c)
    ensures c in TrimLeft(s) <==> c in s
  {
    if s != [] && Space(s[0]) {
      assert s == [s[0]] + s[1..];
      TrimLeftKeeps(s[1..], c);
    }
  }

  lemma {:induction false} TrimRightKeeps(s: string, c: char)
    requires !Space(c)
    ensures c in TrimRight(s) <==> c in s
  {
    if s != [] && Space(s[|s| - 1]) {
      assert s == s[..|s| - 1] + [s[|s| - 1]];
      TrimRightKeeps(s[..|s| - 1], c);
    }
  }

  lemma AtSignStays(s: string)
    ensures '@' in Normalize(s) <==> '@' in s
  {
    TrimLeftKeeps(s, '@');
    TrimRightKeeps(TrimLeft(s), '@');
    var t := Trim(s);
    if '@' in t {
      var i :| 0 <= i < |t| && t[i] == '@';
      assert Lower(t)[i] == '@';
    }
    if '@' in Lower(t) {
      var i :| 0 <= i < |t| && Lower(t)[i] == '@';
      assert LowerChar(t[i]) == '@';
    }
  }

  /** A stored address whose lower-cased form equals some caller's normalised address has that
      same normal form: the salt derived at write time and the decoy derived at read time agree. */
  lemma StoredFormIsNormal(stored: string, asked: string)
    requires Lower(stored) == Normalize(asked)
    ensures Normalize(stored) == Normalize(asked)
  {
    var t := Trim(asked);
    if stored != [] {
      assert LowerChar(stored[0]) == LowerChar(t[0]);
      assert LowerChar(stored[|stored| - 1]) == LowerChar(t[|t| - 1]);
    }
    assert Trim(stored) == stored;
  }
}
