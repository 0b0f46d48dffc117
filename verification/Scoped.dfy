/** scoped.go and authz/scope.go: the ownership predicate, the caller's options behind it in one
    group, and what the rendered WHERE selects once SQL has read it back. A clause given to Where or
    WhereOr is one operand, as the query builder parenthesises each. */
module Scoped {
  import opened Prelude
  import opened Text

  // ---- the builder's clause list ----

  datatype Term = Never | OwnedBy(user: string) | Cond(id: nat)
  datatype Glue = AndGlue | OrGlue
  datatype Clause = Atom(glue: Glue, term: Term) | Group(glue: Glue, clauses: seq<Clause>)

  /** A query option; `Other` stands for Column, Order, Limit and joins, which add no clause. */
  datatype Opt = Where(id: nat) | WhereOr(id: nat) | WhereGroup(opts: seq<Opt>) | WhereOrGroup(opts: seq<Opt>) | Other

  function Grouped(saved: seq<Clause>, glue: Glue, inside: seq<Clause>): seq<Clause> {
    if inside == [] then saved else saved + [Group(glue, inside)]
  }

  function Applied(where: seq<Clause>, o: Opt): seq<Clause>
    decreases o
  {
    match o
    case Where(id) => where + [Atom(AndGlue, Cond(id))]
    case WhereOr(id) => where + [Atom(OrGlue, Cond(id))]
    case WhereGroup(opts) => Grouped(where, AndGlue, AppliedAll([], opts))
    case WhereOrGroup(opts) => Grouped(where, OrGlue, AppliedAll([], opts))
    case Other => where
  }

  function AppliedAll(where: seq<Clause>, opts: seq<Opt>): seq<Clause>
    decreases opts
  {
    if opts == [] then where else Applied(AppliedAll(where, opts[..|opts| - 1]), opts[|opts| - 1])
  }

  // ---- who is asking ----

  datatype Context = Context(caller: Option<(string, seq<string>)>, bypass: Option<string>)

  /** WithBypassRole: an empty role installs nothing. */
  function WithBypassRole(ctx: Context, role: string): Context {
    if role == "" then ctx else ctx.(bypass := Some(role))
  }

  predicate HasRole(roles: seq<string>, want: string) {
    exists i :: 0 <= i < |roles| && Lower(roles[i]) == Lower(want)
  }

  predicate Anonymous(ctx: Context) {
    ctx.caller.None? || ctx.caller.value.0 == ""
  }

  predicate Bypasses(ctx: Context) {
    !Anonymous(ctx) && ctx.bypass.Some? && HasRole(ctx.caller.value.1, ctx.bypass.value)
  }

  function ScopeApplied(where: seq<Clause>, ctx: Context): seq<Clause> {
    if Anonymous(ctx) then where + [Atom(AndGlue, Never)]
    else if Bypasses(ctx) then where
    else where + [Atom(AndGlue, OwnedBy(ctx.caller.value.0))]
  }

  function ScopedWhere(where: seq<Clause>, ctx: Context, opts: seq<Opt>): seq<Clause> {
    Grouped(ScopeApplied(where, ctx), AndGlue, AppliedAll([], opts))
  }

  /** The query under construction; only its WHERE list matters here. */
  class Query {
    var where: seq<Clause>

    constructor ()
      ensures where == []
    {
      where := [];
    }

    method Add(c: Clause)
      modifies this
      ensures where == old(where) + [c]
    {
      where := where + [c];
    }

    method Apply(o: Opt)
      modifies this
      ensures where == Applied(old(where), o)
      decreases o, 0
    {
      match o
      case Where(id) => Add(Atom(AndGlue, Cond(id)));
      case WhereOr(id) => Add(Atom(OrGlue, Cond(id)));
      case WhereGroup(opts) => GroupOf(AndGlue, opts);
      case WhereOrGroup(opts) => GroupOf(OrGlue, opts);
      case Other =>
    }

    /** The clauses are set aside, the options run on an empty list, and what they added comes back
        as one parenthesised clause, or not at all. */
    method GroupOf(glue: Glue, opts: seq<Opt>)
      modifies this
      ensures where == Grouped(old(where), glue, AppliedAll([], opts))
      decreases opts, 1
    {
      var saved := where;
      where := [];
      for i := 0 to |opts|
        invariant where == AppliedAll([], opts[..i])
      {
        assert opts[..i + 1][..i] == opts[..i];
        Apply(opts[i]);
      }
      assert opts[..|opts|] == opts;
      var inside := where;
      where := saved;
      if inside != [] {
        Add(Group(glue, inside));
      }
    }

    method Scope(ctx: Context)
      modifies this
      ensures where == ScopeApplied(old(where), ctx)
    {
      if ctx.caller.None? || ctx.caller.value.0 == "" {
        Add(Atom(AndGlue, Never));
      } else if !(ctx.bypass.Some? && HasRole(ctx.caller.value.1, ctx.bypass.value)) {
        Add(Atom(AndGlue, OwnedBy(ctx.caller.value.0)));
      }
    }

    method Scoped(ctx: Context, opts: seq<Opt>)
      modifies this
      ensures where == ScopedWhere(old(where), ctx, opts)
    {
      Scope(ctx);
      if |opts| == 0 {
        return;
      }
      GroupOf(AndGlue, opts);
    }
  }

  // ---- the SQL text, and how SQL reads it ----

  datatype Token = Operand(term: Term) | And | Or | Open | Close

  function GlueToken(g: Glue): Token {
    if g == AndGlue then And else Or
  }

  function RenderClause(c: Clause): seq<Token>
    decreases c
  {
    match c
    case Atom(_, term) => [Operand(term)]
    case Group(_, clauses) => [Open] + Render(clauses) + [Close]
  }

  /** The first clause's own glue is not written. */
  function Render(cs: seq<Clause>): seq<Token>
    decreases cs
  {
    if cs == [] then []
    else if |cs| == 1 then RenderClause(cs[0])
    else RenderClause(cs[0]) + ([GlueToken(cs[1].glue)] + Render(cs[1..]))
  }

  datatype Expr = Leaf(term: Term) | Both(left: Expr, right: Expr) | Either(left: Expr, right: Expr)
  datatype Parsed = Failed | Got(expr: Expr, rest: seq<Token>)

  predicate Shrinks(p: Parsed, ts: seq<Token>) {
    p.Got? ==> |p.rest| < |ts|
  }

  function ParseOr(ts: seq<Token>): (p: Parsed)
    ensures Shrinks(p, ts)
    decreases |ts|, 2
  {
    var left := ParseAnd(ts);
    if left.Failed? || left.rest == [] || left.rest[0] != Or then left
    else
      var right := ParseOr(left.rest[1..]);
      if right.Failed? then Failed else Got(Either(left.expr, right.expr), right.rest)
  }

  /** AND binds tighter than OR. */
  function ParseAnd(ts: seq<Token>): (p: Parsed)
    ensures Shrinks(p, ts)
    decreases |ts|, 1
  {
    var left := ParseOperand(ts);
    if left.Failed? || left.rest == [] || left.rest[0] != And then left
    else
      var right := ParseAnd(left.rest[1..]);
      if right.Failed? then Failed else Got(Both(left.expr, right.expr), right.rest)
  }

  function ParseOperand(ts: seq<Token>): (p: Parsed)
    ensures Shrinks(p, ts)
    decreases |ts|, 0
  {
    if ts == [] then Failed
    else if ts[0].Operand? then Got(Leaf(ts[0].term), ts[1..])
    else if ts[0].Open? then
      var inside := ParseOr(ts[1..]);
      if inside.Got? && inside.rest != [] && inside.rest[0] == Close then Got(inside.expr, inside.rest[1..]) else Failed
    else Failed
  }

  // ---- three-valued truth ----

  datatype Truth = True | False | Unknown

  function Conj(a: Truth, b: Truth): Truth {
    if a == False || b == False then False else if a == True && b == True then True else Unknown
  }

  function Disj(a: Truth, b: Truth): Truth {
    if a == True || b == True then True else if a == False && b == False then False else Unknown
  }

  datatype Row = Row(owner: Option<string>, holds: nat -> Truth)

  function TermOn(row: Row, t: Term): Truth {
    match t
    case Never => False
    case OwnedBy(user) => if row.owner.None? then Unknown else if row.owner.value == user then True else False
    case Cond(id) => row.holds(id)
  }

  function Eval(row: Row, e: Expr): Truth {
    match e
    case Leaf(term) => TermOn(row, term)
    case Both(l, r) => Conj(Eval(row, l), Eval(row, r))
    case Either(l, r) => Disj(Eval(row, l), Eval(row, r))
  }

  /** The row is in the result: no WHERE at all, or the text parses and comes out true. */
  predicate Selected(row: Row, where: seq<Clause>) {
    where == [] ||
    var p := ParseOr(Render(where));
    p.Got? && p.rest == [] && Eval(row, p.expr) == True
  }

  // ---- reading back what was rendered ----

  predicate WellFormed(c: Clause)
    decreases c
  {
    c.Group? ==> c.clauses != [] && forall i :: 0 <= i < |c.clauses| ==> WellFormed(c.clauses[i])
  }

  predicate AllWellFormed(cs: seq<Clause>) {
    forall i :: 0 <= i < |cs| ==> WellFormed(cs[i])
  }

  /** The tree SQL's precedence gives a clause list: OR over runs of AND. */
  function TreeOf(c: Clause): Expr
    requires WellFormed(c)
    decreases c, 0
  {
    match c
    case Atom(_, term) => Leaf(term)
    case Group(_, clauses) => Tree(clauses)
  }

  function RunOf(cs: seq<Clause>): (r: (Expr, seq<Clause>))
    requires cs != [] && AllWellFormed(cs)
    ensures |r.1| < |cs| && r.1 == cs[|cs| - |r.1|..]
    ensures AllWellFormed(r.1) && (r.1 != [] ==> r.1[0].glue == OrGlue)
    decreases cs, 1
  {
    var e := TreeOf(cs[0]);
    if |cs| > 1 && cs[1].glue.AndGlue?
    then var (more, rest) := RunOf(cs[1..]); (Both(e, more), rest)
    else
      assert |cs| > 1 ==> cs[1].glue.OrGlue?;
      (e, cs[1..])
  }

  function Tree(cs: seq<Clause>): Expr
    requires cs != [] && AllWellFormed(cs)
    decreases cs, 2
  {
    var (e, rest) := RunOf(cs);
    if rest == [] then e else Either(e, Tree(rest))
  }

  lemma {:induction false} ReadsOperand(c: Clause, rest: seq<Token>)
    requires WellFormed(c)
    ensures ParseOperand(RenderClause(c) + rest) == Got(TreeOf(c), rest)
    decreases c, 0
  {
    var ts := RenderClause(c) + rest;
    match c
    case Atom(_, term) => assert ts[1..] == rest;
    case Group(_, clauses) =>
      assert ts[1..] == Render(clauses) + ([Close] + rest);
      ReadsList(clauses, [Close] + rest);
      assert ([Close] + rest)[1..] == rest;
  }

  /** A clause with no AND after it ends the run. */
  lemma {:induction false} EndsRun(c: Clause, after: seq<Token>)
    requires WellFormed(c) && (after == [] || after[0] != And)
    ensures ParseAnd(RenderClause(c) + after) == Got(TreeOf(c), after)
    decreases c, 1
  {
    hide ParseOperand, RenderClause, TreeOf;
    ReadsOperand(c, after);
  }

  /** A clause with an AND after it is joined to whatever run follows. */
  lemma {:induction false} JoinsRun(c: Clause, more: seq<Token>, e: Expr, rest: seq<Token>)
    requires WellFormed(c) && ParseAnd(more) == Got(e, rest)
    ensures ParseAnd(RenderClause(c) + ([And] + more)) == Got(Both(TreeOf(c), e), rest)
    decreases c, 1
  {
    hide ParseOperand, RenderClause, TreeOf;
    ReadsOperand(c, [And] + more);
    assert ([And] + more)[1..] == more;
  }

  lemma {:induction false} ReadsRun(cs: seq<Clause>, rest: seq<Token>)
    requires cs != [] && AllWellFormed(cs) && (rest == [] || rest[0] == Close)
    ensures var (e, tail) := RunOf(cs);
            ParseAnd(Render(cs) + rest) == Got(e, if tail == [] then rest else [Or] + (Render(tail) + rest))
    decreases cs, 2
  {
    hide ParseOperand, ParseAnd, ParseOr, RenderClause, TreeOf, WellFormed;
    if |cs| == 1 {
      EndsRun(cs[0], rest);
    } else {
      var next := Render(cs[1..]) + rest;
      assert Render(cs) + rest == RenderClause(cs[0]) + ([GlueToken(cs[1].glue)] + next);
      if cs[1].glue == AndGlue {
        ReadsRun(cs[1..], rest);
        var (e, tail) := RunOf(cs[1..]);
        JoinsRun(cs[0], next, e, if tail == [] then rest else [Or] + (Render(tail) + rest));
      } else {
        EndsRun(cs[0], [Or] + next);
      }
    }
  }

  /** A run with nothing after it is the whole; one with an OR after it is the first alternative. */
  lemma EndsList(ts: seq<Token>, e: Expr, rest: seq<Token>)
    requires ParseAnd(ts) == Got(e, rest) && (rest == [] || rest[0] != Or)
    ensures ParseOr(ts) == Got(e, rest)
  {
    hide ParseAnd;
  }

  lemma JoinsList(ts: seq<Token>, e: Expr, more: seq<Token>, other: Expr, rest: seq<Token>)
    requires ParseAnd(ts) == Got(e, [Or] + more) && ParseOr(more) == Got(other, rest)
    ensures ParseOr(ts) == Got(Either(e, other), rest)
  {
    hide ParseAnd;
    assert ([Or] + more)[1..] == more;
  }

  /** Rendering and SQL's own precedence agree with the tree, whatever follows the text. */
  lemma {:induction false} ReadsList(cs: seq<Clause>, rest: seq<Token>)
    requires cs != [] && AllWellFormed(cs) && (rest == [] || rest[0] == Close)
    ensures ParseOr(Render(cs) + rest) == Got(Tree(cs), rest)
    decreases cs, 3
  {
    hide ParseAnd, ParseOr, Render, WellFormed;
    ReadsRun(cs, rest);
    var (e, tail) := RunOf(cs);
    if tail == [] {
      EndsList(Render(cs) + rest, e, rest);
    } else {
      ReadsList(tail, rest);
      JoinsList(Render(cs) + rest, e, Render(tail) + rest, Tree(tail), rest);
    }
  }

  lemma SelectedByTree(row: Row, where: seq<Clause>)
    requires where != [] && AllWellFormed(where)
    ensures Selected(row, where) <==> Eval(row, Tree(where)) == True
  {
    ReadsList(where, []);
    assert Render(where) + [] == Render(where);
  }

  lemma {:induction false} AppliedIsWellFormed(where: seq<Clause>, opts: seq<Opt>)
    requires AllWellFormed(where)
    ensures AllWellFormed(AppliedAll(where, opts))
    decreases opts
  {
    if opts != [] {
      AppliedIsWellFormed(where, opts[..|opts| - 1]);
      var o := opts[|opts| - 1];
      if o.WhereGroup? || o.WhereOrGroup? {
        AppliedIsWellFormed([], o.opts);
      }
    }
  }

  predicate NoOr(where: seq<Clause>) {
    forall i :: 1 <= i < |where| ==> where[i].glue == AndGlue
  }

  /** Without a top-level OR the list selects exactly the rows every clause selects. */
  lemma {:induction false} ConjunctionOfAll(row: Row, where: seq<Clause>)
    requires where != [] && AllWellFormed(where) && NoOr(where)
    ensures RunOf(where).1 == []
    ensures Eval(row, Tree(where)) == True <==> forall i :: 0 <= i < |where| ==> Eval(row, TreeOf(where[i])) == True
    decreases |where|
  {
    hide WellFormed, TreeOf;
    if |where| > 1 {
      ConjunctionOfAll(row, where[1..]);
      assert where == [where[0]] + where[1..];
      assert Tree(where) == Both(TreeOf(where[0]), RunOf(where[1..]).0);
    }
  }

  // ---- what the options mean by themselves ----

  /** The option puts a condition on the query. */
  predicate Adds(o: Opt)
    decreases o
  {
    match o
    case Where(_) => true
    case WhereOr(_) => true
    case WhereGroup(opts) => exists i :: 0 <= i < |opts| && Adds(opts[i])
    case WhereOrGroup(opts) => exists i :: 0 <= i < |opts| && Adds(opts[i])
    case Other => false
  }

  predicate Alternative(o: Opt) {
    o.WhereOr? || o.WhereOrGroup?
  }

  /** Options read left to right: an alternative before was met, the present one is still met, and whether
      there was any condition at all. */
  datatype Reading = Reading(before: bool, now: bool, some: bool)

  predicate Met(r: Reading) {
    !r.some || r.before || r.now
  }

  function More(r: Reading, alternative: bool, holds: bool): Reading {
    if !r.some then Reading(false, holds, true)
    else if alternative then Reading(r.before || r.now, holds, true)
    else Reading(r.before, r.now && holds, true)
  }

  function Read(row: Row, opts: seq<Opt>): Reading
    decreases opts
  {
    if opts == [] then Reading(false, false, false)
    else
      var r := Read(row, opts[..|opts| - 1]);
      var o := opts[|opts| - 1];
      if Adds(o) then More(r, Alternative(o), HoldsOn(row, o)) else r
  }

  predicate HoldsOn(row: Row, o: Opt)
    decreases o
  {
    match o
    case Where(id) => row.holds(id) == True
    case WhereOr(id) => row.holds(id) == True
    case WhereGroup(opts) => Met(Read(row, opts))
    case WhereOrGroup(opts) => Met(Read(row, opts))
    case Other => true
  }

  /** The same reading of the clause list. */
  function ReadClauses(row: Row, cs: seq<Clause>): Reading
    requires AllWellFormed(cs)
    decreases |cs|
  {
    if cs == [] then Reading(false, false, false)
    else
      var c := cs[|cs| - 1];
      More(ReadClauses(row, cs[..|cs| - 1]), c.glue == OrGlue, Eval(row, TreeOf(c)) == True)
  }

  lemma ReadMore(row: Row, cs: seq<Clause>, c: Clause)
    requires AllWellFormed(cs) && WellFormed(c)
    ensures AllWellFormed(cs + [c])
    ensures ReadClauses(row, cs + [c]) == More(ReadClauses(row, cs), c.glue == OrGlue, Eval(row, TreeOf(c)) == True)
  {
    hide TreeOf, WellFormed;
    assert (cs + [c])[..|cs|] == cs;
  }

  /** Reading on from what was read before. */
  function ReadOn(row: Row, r: Reading, cs: seq<Clause>): Reading
    requires AllWellFormed(cs)
    decreases |cs|
  {
    if cs == [] then r
    else ReadOn(row, More(r, cs[0].glue == OrGlue, Eval(row, TreeOf(cs[0])) == True), cs[1..])
  }

  lemma {:induction false} ReadInTwo(row: Row, a: seq<Clause>, b: seq<Clause>)
    requires AllWellFormed(a) && AllWellFormed(b)
    ensures AllWellFormed(a + b) && ReadClauses(row, a + b) == ReadOn(row, ReadClauses(row, a), b)
    decreases |b|
  {
    hide TreeOf, WellFormed;
    if b == [] {
      assert a + b == a;
    } else {
      ReadMore(row, a, b[0]);
      assert a + b == (a + [b[0]]) + b[1..];
      ReadInTwo(row, a + [b[0]], b[1..]);
    }
  }

  lemma RunIs(cs: seq<Clause>)
    requires cs != [] && AllWellFormed(cs)
    ensures RunOf(cs) == if |cs| > 1 && cs[1].glue == AndGlue
                         then (Both(TreeOf(cs[0]), RunOf(cs[1..]).0), RunOf(cs[1..]).1) else (TreeOf(cs[0]), cs[1..])
  {
    hide TreeOf, WellFormed, Eval, Tree;
  }

  lemma TreeIs(cs: seq<Clause>)
    requires cs != [] && AllWellFormed(cs)
    ensures Tree(cs) == if RunOf(cs).1 == [] then RunOf(cs).0 else Either(RunOf(cs).0, Tree(RunOf(cs).1))
  {
    hide TreeOf, WellFormed, Eval, RunOf;
  }

  lemma EvalIs(row: Row, l: Expr, r: Expr)
    ensures Eval(row, Both(l, r)) == True <==> Eval(row, l) == True && Eval(row, r) == True
    ensures Eval(row, Either(l, r)) == True <==> Eval(row, l) == True || Eval(row, r) == True
  {
  }

  /** What a clause list's tree says of a row, run by run. */
  lemma RunFacts(row: Row, cs: seq<Clause>)
    requires cs != [] && AllWellFormed(cs)
    ensures var (e, rest) := RunOf(cs); var first := Eval(row, TreeOf(cs[0])) == True;
            && (if |cs| > 1 && cs[1].glue == AndGlue
                then rest == RunOf(cs[1..]).1
                     && (Eval(row, e) == True <==> first && Eval(row, RunOf(cs[1..]).0) == True)
                else rest == cs[1..] && (Eval(row, e) == True <==> first))
            && (Eval(row, Tree(cs)) == True <==> Eval(row, e) == True || (rest != [] && Eval(row, Tree(rest)) == True))
  {
    hide TreeOf, WellFormed, RunOf, Tree, Eval;
    RunIs(cs);
    TreeIs(cs);
    var (e, rest) := RunOf(cs);
    if rest != [] {
      EvalIs(row, e, Tree(rest));
    }
    if |cs| > 1 && cs[1].glue == AndGlue {
      EvalIs(row, TreeOf(cs[0]), RunOf(cs[1..]).0);
    }
  }

  /** The run a list starts with is met, or something after it. */
  predicate RunMet(row: Row, cs: seq<Clause>)
    requires cs != [] && AllWellFormed(cs)
  {
    Eval(row, RunOf(cs).0) == True
  }

  predicate RestMet(row: Row, cs: seq<Clause>)
    requires cs != [] && AllWellFormed(cs)
  {
    RunOf(cs).1 != [] && Eval(row, Tree(RunOf(cs).1)) == True
  }

  lemma RunStep(row: Row, cs: seq<Clause>)
    requires cs != [] && AllWellFormed(cs)
    ensures var first := Eval(row, TreeOf(cs[0])) == True;
            && (|cs| == 1 ==> (RunMet(row, cs) <==> first) && !RestMet(row, cs))
            && (|cs| > 1 && cs[1].glue == AndGlue ==>
                 (RunMet(row, cs) <==> first && RunMet(row, cs[1..])) && (RestMet(row, cs) <==> RestMet(row, cs[1..])))
            && (|cs| > 1 && cs[1].glue == OrGlue ==>
                 (RunMet(row, cs) <==> first) && (RestMet(row, cs) <==> RunMet(row, cs[1..]) || RestMet(row, cs[1..])))
    ensures Eval(row, Tree(cs)) == True <==> RunMet(row, cs) || RestMet(row, cs)
  {
    hide TreeOf, WellFormed, RunOf, Tree, Eval;
    RunFacts(row, cs);
    if |cs| > 1 {
      RunFacts(row, cs[1..]);
    }
  }

  lemma ReadOnStep(row: Row, r: Reading, cs: seq<Clause>)
    requires AllWellFormed(cs)
    ensures cs == [] ==> ReadOn(row, r, cs) == r
    ensures cs != [] ==>
              ReadOn(row, r, cs) == ReadOn(row, More(r, cs[0].glue == OrGlue, Eval(row, TreeOf(cs[0])) == True),
                                           cs[1..])
  {
  }

  /** A run that is going on, then what follows it. */
  lemma {:induction false} ReadsOnAsTree(row: Row, r: Reading, cs: seq<Clause>)
    requires cs != [] && AllWellFormed(cs) && r.some
    ensures Met(ReadOn(row, r, cs)) <==>
              if cs[0].glue == OrGlue then r.before || r.now || RunMet(row, cs) || RestMet(row, cs)
              else r.before || (r.now && RunMet(row, cs)) || RestMet(row, cs)
    decreases |cs|
  {
    hide TreeOf, WellFormed, RunOf, Tree, Eval, ReadOn, RunMet, RestMet;
    RunStep(row, cs);
    ReadOnStep(row, r, cs);
    var next := More(r, cs[0].glue == OrGlue, Eval(row, TreeOf(cs[0])) == True);
    if |cs| == 1 {
      ReadOnStep(row, next, cs[1..]);
    } else {
      ReadsOnAsTree(row, next, cs[1..]);
    }
  }

  lemma FirstRead(row: Row, cs: seq<Clause>)
    requires cs != [] && AllWellFormed(cs)
    ensures ReadClauses(row, cs) == ReadOn(row, Reading(false, Eval(row, TreeOf(cs[0])) == True, true), cs[1..])
  {
    hide TreeOf, WellFormed, Eval;
    assert [cs[0]] + cs[1..] == cs && [cs[0]][..0] == [];
    ReadInTwo(row, [cs[0]], cs[1..]);
  }

  lemma ReadsAsTree(row: Row, cs: seq<Clause>)
    requires cs != [] && AllWellFormed(cs)
    ensures Met(ReadClauses(row, cs)) <==> Eval(row, Tree(cs)) == True
  {
    hide TreeOf, WellFormed, RunOf, Tree, Eval, ReadOn, ReadClauses, RunMet, RestMet;
    FirstRead(row, cs);
    RunStep(row, cs);
    var first := Reading(false, Eval(row, TreeOf(cs[0])) == True, true);
    ReadOnStep(row, first, cs[1..]);
    if |cs| > 1 {
      ReadsOnAsTree(row, first, cs[1..]);
    }
  }

  /** The clauses the options put down read as the options do. */
  lemma {:induction false} OptionsRead(row: Row, opts: seq<Opt>)
    ensures AllWellFormed(AppliedAll([], opts)) && ReadClauses(row, AppliedAll([], opts)) == Read(row, opts)
    ensures AppliedAll([], opts) != [] <==> exists i :: 0 <= i < |opts| && Adds(opts[i])
    decreases opts, 0
  {
    if opts != [] {
      var prefix, o := opts[..|opts| - 1], opts[|opts| - 1];
      OptionsRead(row, prefix);
      assert opts == prefix + [o];
      OptionReads(row, AppliedAll([], prefix), o);
      assert (exists i :: 0 <= i < |opts| && Adds(opts[i])) <==>
               (exists i :: 0 <= i < |prefix| && Adds(prefix[i])) || Adds(o) by {
        SomeOfSnoc(prefix, o);
      }
    }
  }

  lemma SomeOfSnoc(opts: seq<Opt>, o: Opt)
    ensures (exists i :: 0 <= i < |opts + [o]| && Adds((opts + [o])[i])) <==>
              (exists i :: 0 <= i < |opts| && Adds(opts[i])) || Adds(o)
  {
    hide Adds;
    var longer := opts + [o];
    assert longer[|opts|] == o;
    if i :| 0 <= i < |opts| && Adds(opts[i]) {
      assert longer[i] == opts[i];
    }
  }

  lemma {:induction false} OptionReads(row: Row, where: seq<Clause>, o: Opt)
    requires AllWellFormed(where)
    ensures AllWellFormed(Applied(where, o)) && (Applied(where, o) != [] <==> where != [] || Adds(o))
    ensures ReadClauses(row, Applied(where, o))
            == if Adds(o) then More(ReadClauses(row, where), Alternative(o), HoldsOn(row, o))
               else ReadClauses(row, where)
    decreases o, 0
  {
    match o
    case Where(id) => ReadMore(row, where, Atom(AndGlue, Cond(id)));
    case WhereOr(id) => ReadMore(row, where, Atom(OrGlue, Cond(id)));
    case WhereGroup(opts) => GroupReads(row, where, AndGlue, opts);
    case WhereOrGroup(opts) => GroupReads(row, where, OrGlue, opts);
    case Other =>
  }

  lemma {:induction false} GroupReads(row: Row, where: seq<Clause>, glue: Glue, opts: seq<Opt>)
    requires AllWellFormed(where)
    ensures var inside := AppliedAll([], opts); var longer := Grouped(where, glue, inside);
            && AllWellFormed(longer) && (inside != [] <==> exists i :: 0 <= i < |opts| && Adds(opts[i]))
            && ReadClauses(row, longer)
               == if inside != [] then More(ReadClauses(row, where), glue == OrGlue, Met(Read(row, opts)))
                  else ReadClauses(row, where)
    decreases opts, 1
  {
    OptionsRead(row, opts);
    var inside := AppliedAll([], opts);
    if inside != [] {
      ReadsAsTree(row, inside);
      ReadMore(row, where, Group(glue, inside));
    }
  }

  /** The options alone select a row exactly when, read left to right with AND binding tighter, they hold
      of it. */
  lemma OptionsSelect(row: Row, opts: seq<Opt>)
    ensures Selected(row, AppliedAll([], opts)) <==> Met(Read(row, opts))
  {
    hide Selected, Read;
    var where := AppliedAll([], opts);
    OptionsRead(row, opts);
    if where == [] {
      NothingIsSelectedAway(row);
    } else {
      SelectedByTree(row, where);
      ReadsAsTree(row, where);
    }
  }

  lemma NothingIsSelectedAway(row: Row)
    ensures Selected(row, []) && ReadClauses(row, []) == Reading(false, false, false)
  {
  }

  /** Somebody is asking, and has an id. */
  predicate Identified(ctx: Context) {
    ctx.caller.Some? && ctx.caller.value.0 != ""
  }

  predicate Owns(ctx: Context, row: Row) {
    Identified(ctx) && row.owner == Some(ctx.caller.value.0)
  }

  /** The caller holds the role the context exempts, in whatever case it is written. */
  predicate IsExempt(ctx: Context) {
    && Identified(ctx) && ctx.bypass.Some?
    && exists i :: 0 <= i < |ctx.caller.value.1| && Lower(ctx.caller.value.1[i]) == Lower(ctx.bypass.value)
  }

  /** One more AND clause keeps exactly the rows it selects, of those selected before. */
  lemma Conjoined(row: Row, where: seq<Clause>, c: Clause)
    requires AllWellFormed(where) && NoOr(where) && WellFormed(c) && c.glue == AndGlue
    ensures AllWellFormed(where + [c]) && NoOr(where + [c])
    ensures Selected(row, where + [c]) <==> Selected(row, where) && Eval(row, TreeOf(c)) == True
  {
    hide TreeOf, Tree;
    var longer := where + [c];
    assert longer[|where|] == c && longer[..|where|] == where;
    SelectedByTree(row, longer);
    ConjunctionOfAll(row, longer);
    if where != [] {
      SelectedByTree(row, where);
      ConjunctionOfAll(row, where);
      assert forall i :: 0 <= i < |where| ==> longer[i] == where[i];
    }
  }

  /** The options can narrow the result and cannot widen it: behind any AND-only conditions already
      on the query, a scoped query returns exactly the rows that meet those, that the caller owns
      (or any, for the bypass role), and that the options by themselves would select. */
  lemma ScopedSelectsExactly(row: Row, prior: seq<Clause>, ctx: Context, opts: seq<Opt>)
    requires AllWellFormed(prior) && NoOr(prior)
    ensures Selected(row, ScopedWhere(prior, ctx, opts)) <==>
              && Selected(row, prior)
              && (IsExempt(ctx) || Owns(ctx, row))
              && Met(Read(row, opts))
  {
    OptionsSelect(row, opts);
    hide Read, Met;
    var scope := ScopeApplied(prior, ctx);
    var inside := AppliedAll([], opts);
    AppliedIsWellFormed([], opts);
    if !Bypasses(ctx) {
      Conjoined(row, prior, scope[|prior|]);
    }
    if inside != [] {
      Conjoined(row, scope, Group(AndGlue, inside));
      SelectedByTree(row, inside);
    }
  }

  lemma AnonymousSelectsNothing(row: Row, ctx: Context, opts: seq<Opt>)
    requires !Identified(ctx)
    ensures !Selected(row, ScopedWhere([], ctx, opts))
  {
    ScopedSelectsExactly(row, [], ctx, opts);
  }

  // ---- the ungrouped sibling form ----

  predicate OnlyConds(c: Clause)
    decreases c
  {
    match c
    case Atom(_, term) => term.Cond?
    case Group(_, clauses) => forall i :: 0 <= i < |clauses| ==> OnlyConds(clauses[i])
  }

  lemma {:induction false} OptionsAddConds(where: seq<Clause>, opts: seq<Opt>)
    ensures |AppliedAll(where, opts)| >= |where| && AppliedAll(where, opts)[..|where|] == where
    ensures forall i :: |where| <= i < |AppliedAll(where, opts)| ==> OnlyConds(AppliedAll(where, opts)[i])
    decreases opts
  {
    if opts != [] {
      OptionsAddConds(where, opts[..|opts| - 1]);
      var o := opts[|opts| - 1];
      if o.WhereGroup? || o.WhereOrGroup? {
        OptionsAddConds([], o.opts);
      }
    }
  }

  /** On a row where every condition holds, clauses made of conditions all come out true. */
  lemma {:induction false} AllTrue(row: Row, c: Clause)
    requires WellFormed(c) && OnlyConds(c) && forall id :: row.holds(id) == True
    ensures Eval(row, TreeOf(c)) == True
    decreases c, 0
  {
    if c.Group? {
      AllTrueRun(row, c.clauses);
    }
  }

  lemma {:induction false} AllTrueRun(row: Row, cs: seq<Clause>)
    requires cs != [] && AllWellFormed(cs) && forall id :: row.holds(id) == True
    requires forall i :: 0 <= i < |cs| ==> OnlyConds(cs[i])
    ensures Eval(row, RunOf(cs).0) == True && Eval(row, Tree(cs)) == True
    decreases cs, 1
  {
    hide WellFormed, OnlyConds, TreeOf;
    AllTrue(row, cs[0]);
    if |cs| > 1 {
      AllTrueRun(row, cs[1..]);
    }
  }

  /** A list with a top-level OR whose later clauses are conditions selects the all-true row. */
  lemma {:induction false} OrLetsThrough(row: Row, where: seq<Clause>, k: nat)
    requires AllWellFormed(where) && 1 <= k < |where| && where[k].glue == OrGlue
    requires forall i :: 1 <= i < |where| ==> OnlyConds(where[i])
    requires forall id :: row.holds(id) == True
    ensures Eval(row, Tree(where)) == True
  {
    var (e, rest) := RunOf(where);
    if rest == [] {
      RunStopsAtOr(where, k);
    } else {
      AllTrueRun(row, rest);
    }
  }

  lemma {:induction false} RunStopsAtOr(cs: seq<Clause>, k: nat)
    requires AllWellFormed(cs) && 1 <= k < |cs| && cs[k].glue == OrGlue
    ensures RunOf(cs).1 != []
    decreases |cs|
  {
    if cs[1].glue == AndGlue {
      RunStopsAtOr(cs[1..], k - 1);
    }
  }

  lemma SiblingsWithoutOrAreOwned(row: Row, user: string, where: seq<Clause>)
    requires where != [] && AllWellFormed(where) && where[0] == Atom(AndGlue, OwnedBy(user))
    requires NoOr(where) && Selected(row, where)
    ensures row.owner == Some(user)
  {
    SelectedByTree(row, where);
    ConjunctionOfAll(row, where);
  }

  lemma SiblingsShape(user: string, opts: seq<Opt>)
    ensures var where := AppliedAll([Atom(AndGlue, OwnedBy(user))], opts);
            && where != [] && AllWellFormed(where) && where[0] == Atom(AndGlue, OwnedBy(user))
            && forall i :: 1 <= i < |where| ==> OnlyConds(where[i])
  {
    var scope := [Atom(AndGlue, OwnedBy(user))];
    AppliedIsWellFormed(scope, opts);
    OptionsAddConds(scope, opts);
    assert AppliedAll(scope, opts)[..1][0] == scope[0];
  }

  lemma OrSelectsAnyOwner(where: seq<Clause>, owner: Option<string>) returns (row: Row)
    requires where != [] && AllWellFormed(where) && !NoOr(where)
    requires forall i :: 1 <= i < |where| ==> OnlyConds(where[i])
    ensures Selected(row, where) && row.owner == owner
  {
    hide Selected, WellFormed, OnlyConds;
    var k :| 1 <= k < |where| && where[k].glue != AndGlue;
    row := Row(owner, id => True);
    OrLetsThrough(row, where, k);
    SelectedByTree(row, where);
  }

  /** Scope and the options as siblings on one query are safe exactly when the options put no OR at
      the top level; otherwise every other user has a row that is returned. */
  lemma SiblingsAreSafeIffNoOr(user: string, other: string, opts: seq<Opt>)
    requires other != user
    ensures var where := AppliedAll([Atom(AndGlue, OwnedBy(user))], opts);
            && ((forall row: Row :: Selected(row, where) ==> row.owner == Some(user)) <==> NoOr(where))
            && ((exists row: Row :: Selected(row, where) && row.owner == Some(other)) <==> !NoOr(where))
  {
    hide Selected, AppliedAll, AllWellFormed, OnlyConds, NoOr;
    var where := AppliedAll([Atom(AndGlue, OwnedBy(user))], opts);
    SiblingsShape(user, opts);
    if NoOr(where) {
      forall row: Row | Selected(row, where)
        ensures row.owner == Some(user)
      {
        SiblingsWithoutOrAreOwned(row, user, where);
      }
    } else {
      var row := OrSelectsAnyOwner(where, Some(other));
    }
  }

  /** The bypass goes to callers who hold the named role, and naming no role installs none. */
  lemma BypassNeedsTheRole(ctx: Context, role: string)
    requires ctx.bypass.None?
    ensures IsExempt(WithBypassRole(ctx, role)) <==>
              && Identified(ctx) && role != ""
              && exists i :: 0 <= i < |ctx.caller.value.1| && Lower(ctx.caller.value.1[i]) == Lower(role)
  {
  }
}
