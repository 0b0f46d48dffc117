/** authz/rls.go, WithRLSSettings: the one statement that tells row-level security who is asking. */
module Rls {
  import opened Prelude
  import opened Sorting

  datatype Caller = Caller(user: string, roles: seq<string>)

  // ---- names ----

  predicate NameStart(c: char) {
    'a' <= c <= 'z' || c == '_'
  }

  predicate NameChar(c: char) {
    NameStart(c) || '0' <= c <= '9'
  }

  /** ^app\.[a-z_][a-z0-9_]*$ */
  predicate KeyMatches(k: string) {
    |k| >= 5 && k[..4] == "app." && NameStart(k[4]) && forall i :: 5 <= i < |k| ==> NameChar(k[i])
  }

  lemma LowerCase(c: char)
    ensures 'a' <= c <= 'z' <==> c in "abcdefghijklmnopqrstuvwxyz"
  {
    var lower := seq(26, i requires 0 <= i < 26 => ('a' as int + i) as char);
    assert "abcdefghijklmnopqrstuvwxyz" == lower;
    if 'a' <= c <= 'z' {
      assert lower[c as int - 'a' as int] == c;
    }
  }

  lemma Digits(c: char)
    ensures '0' <= c <= '9' <==> c in "0123456789"
  {
    var digits := seq(10, i requires 0 <= i < 10 => ('0' as int + i) as char);
    assert "0123456789" == digits;
    if '0' <= c <= '9' {
      assert digits[c as int - '0' as int] == c;
    }
  }

  /** The accepted names, character by character. */
  lemma NamesAre(k: string)
    ensures KeyMatches(k) <==>
              && |k| >= 5 && k[..4] == "app." && (k[4] in "abcdefghijklmnopqrstuvwxyz" || k[4] == '_')
              && forall i :: 5 <= i < |k| ==>
                   k[i] in "abcdefghijklmnopqrstuvwxyz" || k[i] == '_' || k[i] in "0123456789"
  {
    forall c: char
      ensures 'a' <= c <= 'z' <==> c in "abcdefghijklmnopqrstuvwxyz"
      ensures '0' <= c <= '9' <==> c in "0123456789"
    {
      LowerCase(c);
      Digits(c);
    }
  }

  const USER_ID := "app.user_id"
  const ROLES := "app.roles"

  predicate Reserved(k: string) {
    k == USER_ID || k == ROLES
  }

  predicate Acceptable(k: string) {
    KeyMatches(k) && !Reserved(k)
  }

  // ---- building ----

  function UserCall(): string { "set_config('app.user_id', ?, true)" }
  function RolesCall(): string { "set_config('app.roles', ?, true)" }

  function Head(): string {
    "select " + UserCall() + (", " + RolesCall())
  }

  function More(): string {
    ", set_config(?, ?, true)"
  }

  function Join(roles: seq<string>): string {
    if roles == [] then "" else if |roles| == 1 then roles[0] else roles[0] + "," + Join(roles[1..])
  }

  function UserOf(caller: Option<Caller>): string {
    if caller.Some? then caller.value.user else ""
  }

  function RolesOf(caller: Option<Caller>): string {
    if caller.Some? then Join(caller.value.roles) else ""
  }

  function StmtText(n: nat): string {
    if n == 0 then Head() else StmtText(n - 1) + More()
  }

  function Pairs(keys: seq<string>, extra: map<string, string>): (r: seq<string>)
    requires forall i :: 0 <= i < |keys| ==> keys[i] in extra
    ensures |r| == 2 * |keys|
  {
    if keys == [] then []
    else Pairs(keys[..|keys| - 1], extra) + [keys[|keys| - 1], extra[keys[|keys| - 1]]]
  }

  datatype Outcome = Refused | Send(text: string, args: seq<string>)

  /** `order` is the order the map happened to be ranged over in. */
  ghost predicate Ranges(order: seq<string>, extra: map<string, string>) {
    multiset(order) == multiset(extra.Keys)
  }

  lemma RangedKeys(order: seq<string>, extra: map<string, string>)
    requires Ranges(order, extra)
    ensures forall i :: 0 <= i < |order| ==> order[i] in extra
    ensures forall k :: k in extra ==> k in order
    ensures forall i :: 0 <= i < |Sorted(order)| ==> Sorted(order)[i] in extra
    ensures |Sorted(order)| == |order|
  {
    forall i | 0 <= i < |order|
      ensures order[i] in extra
    {
      assert order[i] in multiset(order);
    }
    forall k | k in extra
      ensures k in order
    {
      assert k in multiset(extra.Keys);
    }
    var sorted := Sorted(order);
    forall i | 0 <= i < |sorted|
      ensures sorted[i] in extra
    {
      assert sorted[i] in multiset(sorted);
    }
    assert |multiset(sorted)| == |multiset(order)|;
  }

  ghost function Built(caller: Option<Caller>, extra: map<string, string>, order: seq<string>): Outcome
    requires Ranges(order, extra)
  {
    RangedKeys(order, extra);
    if exists k :: k in extra && !Acceptable(k) then Refused
    else Send(StmtText(|order|), [UserOf(caller), RolesOf(caller)] + Pairs(Sorted(order), extra))
  }

  /** A refusal, with either message, comes before a transaction is opened. */
  method Build(caller: Option<Caller>, extra: map<string, string>, order: seq<string>) returns (out: Outcome)
    requires Ranges(order, extra)
    ensures out == Built(caller, extra, order)
  {
    hide Head, More, KeyMatches, Reserved, Sorted, Join;
    RangedKeys(order, extra);
    var userID, roles := "", "";
    if caller.Some? {
      userID := caller.value.user;
      roles := Join(caller.value.roles);
    }
    var keys := [];
    for i := 0 to |order|
      invariant keys == order[..i]
      invariant forall j :: 0 <= j < i ==> Acceptable(order[j])
    {
      if !KeyMatches(order[i]) {
        return Refused;
      }
      if Reserved(order[i]) {
        return Refused;
      }
      keys := keys + [order[i]];
    }
    assert keys == order;
    keys := Sorted(keys);
    var stmt := Head();
    var args := [userID, roles];
    for i := 0 to |keys|
      invariant stmt == StmtText(i)
      invariant args == [UserOf(caller), RolesOf(caller)] + Pairs(keys[..i], extra)
    {
      assert keys[..i + 1][..i] == keys[..i];
      stmt := stmt + More();
      args := args + [keys[i], extra[keys[i]]];
    }
    assert keys[..|keys|] == keys;
    out := Send(stmt, args);
  }

  /** The order a map is ranged in shows in nothing: not the verdict, not the text, not the arguments. */
  lemma MapOrderIsInvisible(caller: Option<Caller>, extra: map<string, string>, a: seq<string>, b: seq<string>)
    requires Ranges(a, extra) && Ranges(b, extra)
    ensures Built(caller, extra, a) == Built(caller, extra, b)
  {
    SortedIsInOrder(a);
    SortedIsInOrder(b);
    OrderIsUnique(Sorted(a), Sorted(b));
    assert |multiset(a)| == |multiset(b)|;
  }

  // ---- what the database makes of it ----

  datatype Operand = Hole | Quoted(text: string)
  datatype Call = Call(name: Operand, value: Operand)

  function OperandText(o: Operand): string {
    match o
    case Hole => "?"
    case Quoted(t) => "'" + t + "'"
  }

  function Opening(): string { "set_config(" }
  function Between(): string { ", " }
  function Closing(): string { ", true)" }
  function Verb(): string { "select " }

  function CallText(c: Call): string {
    Opening() + (OperandText(c.name) + (Between() + (OperandText(c.value) + Closing())))
  }

  function SelectText(calls: seq<Call>): string
    requires calls != []
  {
    if |calls| == 1 then Verb() + CallText(calls[0])
    else SelectText(calls[..|calls| - 1]) + (Between() + CallText(calls[|calls| - 1]))
  }

  function CallsFor(n: nat): (r: seq<Call>)
    ensures |r| == 2 + n
  {
    if n == 0 then [Call(Quoted(USER_ID), Hole), Call(Quoted(ROLES), Hole)] else CallsFor(n - 1) + [Call(Hole, Hole)]
  }

  lemma UserCallIs()
    ensures UserCall() == CallText(Call(Quoted(USER_ID), Hole))
  {
    assert OperandText(Quoted(USER_ID)) == "'app.user_id'";
  }

  lemma RolesCallIs()
    ensures RolesCall() == CallText(Call(Quoted(ROLES), Hole))
  {
    assert OperandText(Quoted(ROLES)) == "'app.roles'";
  }

  /** The whole text, spelled out. */
  lemma StatementIs(n: nat)
    ensures StmtText(0)
            == "select " + "set_config('app.user_id', ?, true)" + ", " + "set_config('app.roles', ?, true)"
    ensures StmtText(n + 1) == StmtText(n) + ", set_config(?, ?, true)"
  {
  }

  lemma HeadIsTwoCalls()
    ensures Head() == Verb() + CallText(Call(Quoted(USER_ID), Hole)) + (Between() + CallText(Call(Quoted(ROLES), Hole)))
  {
    hide CallText, UserCall, RolesCall;
    UserCallIs();
    RolesCallIs();
  }

  lemma MoreIsACall()
    ensures More() == Between() + CallText(Call(Hole, Hole))
  {
  }

  lemma OneMoreCall(calls: seq<Call>, c: Call)
    requires calls != []
    ensures SelectText(calls + [c]) == SelectText(calls) + (Between() + CallText(c))
  {
    hide Verb, Between, CallText;
    var longer := calls + [c];
    assert longer[..|longer| - 1] == calls && longer[|longer| - 1] == c;
  }

  lemma TextOfHead()
    ensures StmtText(0) == SelectText(CallsFor(0))
  {
    hide Head, Verb, Between, CallText;
    HeadIsTwoCalls();
    var user, roles := Call(Quoted(USER_ID), Hole), Call(Quoted(ROLES), Hole);
    assert CallsFor(0) == [user] + [roles];
    OneMoreCall([user], roles);
  }

  /** The text is a select list of set_config calls, the caller's two first. */
  lemma {:induction false} TextIsCalls(n: nat)
    ensures StmtText(n) == SelectText(CallsFor(n))
  {
    hide Head, More, Verb, Between, CallText, SelectText;
    if n == 0 {
      TextOfHead();
    } else {
      TextIsCalls(n - 1);
      OneMoreCall(CallsFor(n - 1), Call(Hole, Hole));
      MoreIsACall();
    }
  }

  /** Calls run left to right, each hole taking the next argument; None when the arguments run out. */
  function Evaluate(calls: seq<Call>, args: seq<string>,
                    gucs: map<string, string>): Option<(map<string, string>, seq<string>)> {
    if calls == [] then Some((gucs, args))
    else
      var c := calls[0];
      var rest := if c.name.Hole? && args != [] then args[1..] else args;
      if (c.name.Hole? && args == []) || (c.value.Hole? && rest == []) then None
      else
        var name := if c.name.Hole? then args[0] else c.name.text;
        var value := if c.value.Hole? then rest[0] else c.value.text;
        Evaluate(calls[1..], if c.value.Hole? then rest[1..] else rest, gucs[name := value])
  }

  function Holes(text: string): nat {
    if text == "" then 0 else (if text[0] == '?' then 1 else 0) + Holes(text[1..])
  }

  lemma {:induction false} HolesAdd(a: string, b: string)
    ensures Holes(a + b) == Holes(a) + Holes(b)
  {
    if a == "" {
      assert a + b == b;
    } else {
      assert (a + b)[1..] == a[1..] + b;
      HolesAdd(a[1..], b);
    }
  }

  lemma {:induction false} NoHoles(a: string)
    requires '?' !in a
    ensures Holes(a) == 0
  {
    if a != "" {
      NoHoles(a[1..]);
    }
  }

  function OperandHoles(o: Operand): nat {
    if o.Hole? then 1 else 0
  }

  lemma PunctuationHasNone()
    ensures Holes(Opening()) == 0 && Holes(Between()) == 0 && Holes(Closing()) == 0 && Holes(Verb()) == 0
  {
    NoHoles(Opening());
    NoHoles(Between());
    NoHoles(Closing());
    NoHoles(Verb());
  }

  lemma NamesHaveNone()
    ensures Holes(OperandText(Quoted(USER_ID))) == 0 && Holes(OperandText(Quoted(ROLES))) == 0
            && Holes(OperandText(Hole)) == 1
  {
    NoHoles(OperandText(Quoted(USER_ID)));
    NoHoles(OperandText(Quoted(ROLES)));
    assert Holes("?"[1..]) == 0;
  }

  lemma CallHoles(c: Call)
    requires Holes(OperandText(c.name)) == OperandHoles(c.name) && Holes(OperandText(c.value)) == OperandHoles(c.value)
    ensures Holes(CallText(c)) == OperandHoles(c.name) + OperandHoles(c.value)
  {
    hide Opening, Between, Closing, OperandText, Holes;
    PunctuationHasNone();
    var n, v := OperandText(c.name), OperandText(c.value);
    HolesAdd(Opening(), n + (Between() + (v + Closing())));
    HolesAdd(n, Between() + (v + Closing()));
    HolesAdd(Between(), v + Closing());
    HolesAdd(v, Closing());
  }

  /** Every '?' of the text has exactly one argument. */
  lemma {:induction false} PlaceholdersMatch(n: nat)
    ensures Holes(StmtText(n)) == 2 + 2 * n
  {
    hide Head, More, Verb, Between, CallText, Holes, OperandText;
    PunctuationHasNone();
    NamesHaveNone();
    if n == 0 {
      HeadIsTwoCalls();
      var a, b := CallText(Call(Quoted(USER_ID), Hole)), CallText(Call(Quoted(ROLES), Hole));
      HolesAdd(Verb() + a, Between() + b);
      HolesAdd(Verb(), a);
      HolesAdd(Between(), b);
      CallHoles(Call(Quoted(USER_ID), Hole));
      CallHoles(Call(Quoted(ROLES), Hole));
    } else {
      PlaceholdersMatch(n - 1);
      MoreIsACall();
      HolesAdd(StmtText(n - 1), More());
      HolesAdd(Between(), CallText(Call(Hole, Hole)));
      CallHoles(Call(Hole, Hole));
    }
  }

  lemma {:induction false} EvaluateConcat(a: seq<Call>, b: seq<Call>, args: seq<string>, gucs: map<string, string>)
    requires Evaluate(a, args, gucs).Some?
    ensures var (mid, rest) := Evaluate(a, args, gucs).value; Evaluate(a + b, args, gucs) == Evaluate(b, rest, mid)
  {
    if a == [] {
      assert a + b == b;
    } else {
      assert (a + b)[1..] == a[1..] + b;
      var c := a[0];
      var rest := if c.name.Hole? then args[1..] else args;
      var name := if c.name.Hole? then args[0] else c.name.text;
      var value := if c.value.Hole? then rest[0] else c.value.text;
      EvaluateConcat(a[1..], b, if c.value.Hole? then rest[1..] else rest, gucs[name := value]);
    }
  }

  /** What the settings should come to: the extras over what was there, the caller over both. */
  function Wanted(caller: Option<Caller>, extra: map<string, string>, keys: seq<string>,
                  gucs: map<string, string>): map<string, string>
    requires forall i :: 0 <= i < |keys| ==> keys[i] in extra
  {
    if keys == [] then gucs[USER_ID := UserOf(caller)][ROLES := RolesOf(caller)]
    else Wanted(caller, extra, keys[..|keys| - 1], gucs)[keys[|keys| - 1] := extra[keys[|keys| - 1]]]
  }

  lemma EvaluatesHead(u: string, r: string, tail: seq<string>, gucs: map<string, string>)
    ensures Evaluate(CallsFor(0), [u, r] + tail, gucs) == Some((gucs[USER_ID := u][ROLES := r], tail))
  {
    var calls := CallsFor(0);
    var args := [u, r] + tail;
    assert calls[1..] == [calls[1]] && calls[1..][1..] == [];
    assert args[1..] == [r] + tail && args[1..][1..] == tail;
    assert Evaluate(calls, args, gucs) == Evaluate(calls[1..], args[1..], gucs[USER_ID := u]);
    assert Evaluate([calls[1]], [r] + tail, gucs[USER_ID := u])
           == Evaluate([calls[1]][1..], tail, gucs[USER_ID := u][ROLES := r]);
  }

  lemma EvaluatesPair(k: string, v: string, tail: seq<string>, gucs: map<string, string>)
    ensures Evaluate([Call(Hole, Hole)], [k, v] + tail, gucs) == Some((gucs[k := v], tail))
  {
    var args := [k, v] + tail;
    assert [Call(Hole, Hole)][1..] == [] && args[1..] == [v] + tail && args[1..][1..] == tail;
  }

  lemma {:induction false} Evaluates(caller: Option<Caller>, extra: map<string, string>, keys: seq<string>,
                                     gucs: map<string, string>, tail: seq<string>)
    requires forall i :: 0 <= i < |keys| ==> keys[i] in extra
    ensures Evaluate(CallsFor(|keys|), [UserOf(caller), RolesOf(caller)] + Pairs(keys, extra) + tail, gucs)
            == Some((Wanted(caller, extra, keys, gucs), tail))
  {
    hide Evaluate, UserOf, RolesOf;
    var u, r := UserOf(caller), RolesOf(caller);
    var args := [u, r] + Pairs(keys, extra) + tail;
    if keys == [] {
      EvaluatesHead(u, r, tail, gucs);
      assert args == [u, r] + tail;
    } else {
      var n := |keys| - 1;
      var pair := [keys[n], extra[keys[n]]];
      Evaluates(caller, extra, keys[..n], gucs, pair + tail);
      assert args == [u, r] + Pairs(keys[..n], extra) + (pair + tail);
      EvaluateConcat(CallsFor(n), [Call(Hole, Hole)], args, gucs);
      EvaluatesPair(keys[n], extra[keys[n]], tail, Wanted(caller, extra, keys[..n], gucs));
    }
  }

  lemma {:induction false} WantedHolds(caller: Option<Caller>, extra: map<string, string>, keys: seq<string>,
                                       gucs: map<string, string>)
    requires forall i :: 0 <= i < |keys| ==> keys[i] in extra && !Reserved(keys[i])
    ensures var g := Wanted(caller, extra, keys, gucs);
            && USER_ID in g && g[USER_ID] == UserOf(caller) && ROLES in g && g[ROLES] == RolesOf(caller)
            && (forall k :: k in keys ==> k in g && g[k] == extra[k])
            && (forall k :: k in gucs && k !in keys && !Reserved(k) ==> k in g && g[k] == gucs[k])
  {
    if keys != [] {
      var n := |keys| - 1;
      WantedHolds(caller, extra, keys[..n], gucs);
      assert keys == keys[..n] + [keys[n]];
    }
  }

  // ---- reading the roles back ----

  /** string_to_array(s, ','), as a policy takes the setting apart. */
  function Split(s: string): (r: seq<string>)
    ensures |r| > 0 && forall i :: 0 <= i < |r| ==> ',' !in r[i]
  {
    if s == "" then [""]
    else
      var rest := Split(s[1..]);
      if s[0] == ',' then [""] + rest else [[s[0]] + rest[0]] + rest[1..]
  }

  /** What a reader of the setting sees: every role, itself taken apart where it holds a comma. */
  function Pieces(roles: seq<string>): seq<string> {
    if roles == [] then [] else Split(roles[0]) + Pieces(roles[1..])
  }

  lemma {:induction false} SplitAtComma(a: string, b: string)
    ensures Split(a + ("," + b)) == Split(a) + Split(b)
  {
    var s := a + ("," + b);
    if a == "" {
      assert s[1..] == b;
    } else {
      assert s[1..] == a[1..] + ("," + b);
      SplitAtComma(a[1..], b);
    }
  }

  lemma {:induction false} PiecesAreRead(roles: seq<string>)
    requires roles != []
    ensures Split(Join(roles)) == Pieces(roles)
  {
    if |roles| == 1 {
      assert Pieces(roles[1..]) == [];
    } else {
      PiecesAreRead(roles[1..]);
      assert Join(roles) == roles[0] + ("," + Join(roles[1..]));
      SplitAtComma(roles[0], Join(roles[1..]));
    }
  }

  lemma {:induction false} WholeWithoutComma(s: string)
    requires ',' !in s
    ensures Split(s) == [s]
  {
    if s != "" {
      assert s == [s[0]] + s[1..];
      WholeWithoutComma(s[1..]);
    }
  }

  lemma {:induction false} PiecesAreRoles(roles: seq<string>)
    requires forall i :: 0 <= i < |roles| ==> ',' !in roles[i]
    ensures Pieces(roles) == roles
  {
    if roles != [] {
      WholeWithoutComma(roles[0]);
      PiecesAreRoles(roles[1..]);
    }
  }

  /** Splitting the setting gives the caller's roles back exactly when there are some and none of them
      holds a comma. */
  lemma RolesReadBack(roles: seq<string>)
    ensures Split(Join(roles)) == roles <==> roles != [] && forall i :: 0 <= i < |roles| ==> ',' !in roles[i]
  {
    if roles != [] {
      PiecesAreRead(roles);
      if forall i :: 0 <= i < |roles| ==> ',' !in roles[i] {
        PiecesAreRoles(roles);
      }
    }
  }

  /** What the policies read after a statement that was sent: the caller's own id, the caller's roles
      between commas, every extra as given, everything else as it was; for an anonymous caller both are
      empty. */
  ghost predicate CarriesTheCaller(caller: Option<Caller>, extra: map<string, string>, gucs: map<string, string>,
                                   g: map<string, string>) {
    && "app.user_id" in g && "app.roles" in g
    && (match caller
        case None => g["app.user_id"] == "" && g["app.roles"] == ""
        case Some(c) =>
          && g["app.user_id"] == c.user
          && (if c.roles == [] then g["app.roles"] == "" else Split(g["app.roles"]) == Pieces(c.roles))
          && (Split(g["app.roles"]) == c.roles
              <==> c.roles != [] && forall i :: 0 <= i < |c.roles| ==> ',' !in c.roles[i]))
    && (forall k :: k in extra ==> k in g && g[k] == extra[k])
    && (forall k :: k in gucs && k !in extra && !Reserved(k) ==> k in g && g[k] == gucs[k])
  }

  lemma NoneJoin()
    ensures Join([]) == ""
  {
  }

  lemma SentCarriesTheCaller(caller: Option<Caller>, extra: map<string, string>, order: seq<string>,
                             gucs: map<string, string>)
    requires Ranges(order, extra) && forall k :: k in extra ==> !Reserved(k)
    requires forall i :: 0 <= i < |Sorted(order)| ==> Sorted(order)[i] in extra
    ensures CarriesTheCaller(caller, extra, gucs, Wanted(caller, extra, Sorted(order), gucs))
  {
    hide Split, Join, Pieces, Sorted, Reserved;
    var keys := Sorted(order);
    WantedHolds(caller, extra, keys, gucs);
    if caller.Some? {
      RolesReadBack(caller.value.roles);
      if caller.value.roles != [] {
        PiecesAreRead(caller.value.roles);
      } else {
        assert Join([]) == "" by { NoneJoin(); }
      }
    }
    forall k
      ensures k in keys <==> k in extra
    {
      assert k in keys <==> k in multiset(keys);
      assert k in extra <==> k in multiset(order);
    }
  }

  /** The call either refuses, exactly when some name is malformed or reserved, or sends a statement
      that uses up its arguments one to one and leaves every policy reading the true caller. */
  lemma SettingsCarryTheCaller(caller: Option<Caller>, extra: map<string, string>, order: seq<string>,
                               gucs: map<string, string>)
    requires Ranges(order, extra)
    ensures var out := Built(caller, extra, order);
            && (out.Refused? <==> exists k :: k in extra && (!KeyMatches(k) || k == USER_ID || k == ROLES))
            && (out.Send? ==>
                 && Holes(out.text) == |out.args|
                 && out.text == SelectText(CallsFor(|order|))
                 && var ran := Evaluate(CallsFor(|order|), out.args, gucs);
                    ran.Some? && ran.value.1 == [] && CarriesTheCaller(caller, extra, gucs, ran.value.0))
  {
    hide StmtText, Holes, Evaluate, Wanted, SelectText, CallsFor, Sorted, KeyMatches, UserOf, RolesOf, CarriesTheCaller;
    var out := Built(caller, extra, order);
    if out.Send? {
      RangedKeys(order, extra);
      PlaceholdersMatch(|order|);
      TextIsCalls(|order|);
      Evaluates(caller, extra, Sorted(order), gucs, []);
      assert out.args + [] == out.args;
      assert forall k :: k in extra ==> Acceptable(k);
      SentCarriesTheCaller(caller, extra, order, gucs);
    }
  }
}
