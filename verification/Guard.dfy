/** guard.go: the walk that counts selections by field name and records the deepest nesting, and
    what its numbers say about the document once fragments are inlined. */
module Guard {
  import opened Prelude

  datatype Selection = Field(name: string, sub: seq<Selection>) | Inline(sub: seq<Selection>) | Spread(fragment: string)
  datatype Fragment = Fragment(name: string, sub: seq<Selection>)
  datatype Document = Document(operations: seq<seq<Selection>>, fragments: seq<Fragment>)

  function Max(a: nat, b: nat): nat {
    if a >= b then a else b
  }

  // ---- the structural meaning of the three numbers ----

  function Occurs(name: string, sels: seq<Selection>): nat
    decreases sels
  {
    if sels == [] then 0
    else Occurs(name, sels[..|sels| - 1]) + OccursIn(name, sels[|sels| - 1])
  }

  function OccursIn(name: string, s: Selection): nat
    decreases s
  {
    match s
    case Field(n, sub) => (if n == name then 1 else 0) + Occurs(name, sub)
    case Inline(sub) => Occurs(name, sub)
    case Spread(_) => 0
  }

  function Fields(sels: seq<Selection>): nat
    decreases sels
  {
    if sels == [] then 0 else Fields(sels[..|sels| - 1]) + FieldsIn(sels[|sels| - 1])
  }

  function FieldsIn(s: Selection): nat
    decreases s
  {
    match s
    case Field(_, sub) => 1 + Fields(sub)
    case Inline(sub) => Fields(sub)
    case Spread(_) => 0
  }

  /** The longest chain of fields, each inside the one before. */
  function Height(sels: seq<Selection>): nat
    decreases sels
  {
    if sels == [] then 0 else Max(Height(sels[..|sels| - 1]), HeightIn(sels[|sels| - 1]))
  }

  function HeightIn(s: Selection): nat
    decreases s
  {
    match s
    case Field(_, sub) => 1 + Height(sub)
    case Inline(sub) => Height(sub)
    case Spread(_) => 0
  }

  /** One more selection adds its own numbers. */
  lemma SumsOfSnoc(sels: seq<Selection>, i: nat)
    requires i < |sels|
    ensures forall name :: Occurs(name, sels[..i + 1]) == Occurs(name, sels[..i]) + OccursIn(name, sels[i])
    ensures Fields(sels[..i + 1]) == Fields(sels[..i]) + FieldsIn(sels[i])
    ensures Height(sels[..i + 1]) == Max(Height(sels[..i]), HeightIn(sels[i]))
  {
    hide OccursIn, FieldsIn, HeightIn;
    assert sels[..i + 1][..i] == sels[..i];
  }

  lemma SumsOfNone()
    ensures forall name :: Occurs(name, []) == 0
    ensures Fields([]) == 0 && Height([]) == 0
  {
  }

  // ---- the numbers as read off the text ----

  /** The selections as a reader of the text meets them: a field's name, then its braces. */
  datatype Mark = Name(name: string) | Enter | Leave

  function Marks(sels: seq<Selection>): seq<Mark>
    decreases sels
  {
    if sels == [] then [] else Marks(sels[..|sels| - 1]) + MarksOf(sels[|sels| - 1])
  }

  function MarksOf(s: Selection): seq<Mark>
    decreases s
  {
    match s
    case Field(n, sub) => [Name(n), Enter] + (Marks(sub) + [Leave])
    case Inline(sub) => Marks(sub)
    case Spread(_) => []
  }

  function CountNames(ms: seq<Mark>): nat {
    if ms == [] then 0 else (if ms[0].Name? then 1 else 0) + CountNames(ms[1..])
  }

  function CountName(ms: seq<Mark>, name: string): nat {
    if ms == [] then 0 else (if ms[0] == Name(name) then 1 else 0) + CountName(ms[1..], name)
  }

  /** How many more braces were entered than left. */
  function Level(ms: seq<Mark>): int {
    if ms == [] then 0 else (match ms[0] case Name(_) => 0 case Enter => 1 case Leave => -1) + Level(ms[1..])
  }

  /** The deepest name, read from a place that is `level` deep; 0 if there is no name. */
  function Deepest(ms: seq<Mark>, level: nat): nat {
    if ms == [] then 0
    else match ms[0]
      case Name(_) => Max(level + 1, Deepest(ms[1..], level))
      case Enter => Deepest(ms[1..], level + 1)
      case Leave => Deepest(ms[1..], if level > 0 then level - 1 else 0)
  }

  lemma {:induction false} MarksAdd(a: seq<Mark>, b: seq<Mark>, name: string)
    ensures CountNames(a + b) == CountNames(a) + CountNames(b)
    ensures CountName(a + b, name) == CountName(a, name) + CountName(b, name)
  {
    if a == [] {
      assert a + b == b;
    } else {
      assert (a + b)[1..] == a[1..] + b;
      MarksAdd(a[1..], b, name);
    }
  }

  /** Every brace these marks leave they have entered. */
  predicate Balanced(ms: seq<Mark>, level: nat) {
    if ms == [] then true
    else match ms[0]
      case Name(_) => Balanced(ms[1..], level)
      case Enter => Balanced(ms[1..], level + 1)
      case Leave => level > 0 && Balanced(ms[1..], level - 1)
  }

  lemma {:induction false} DeepestAdd(a: seq<Mark>, b: seq<Mark>, level: nat)
    requires Balanced(a, level)
    ensures level + Level(a) >= 0
    ensures Deepest(a + b, level) == Max(Deepest(a, level), Deepest(b, level + Level(a)))
    ensures Balanced(a + b, level) <==> Balanced(b, level + Level(a))
    ensures Level(a + b) == Level(a) + Level(b)
    decreases |a|
  {
    if a == [] {
      assert a + b == b;
    } else {
      assert (a + b)[1..] == a[1..] + b && (a + b)[0] == a[0];
      match a[0]
      case Name(_) => DeepestAdd(a[1..], b, level);
      case Enter => DeepestAdd(a[1..], b, level + 1);
      case Leave => DeepestAdd(a[1..], b, level - 1);
    }
  }

  /** The sums and the height are what a reader counts in the text. */
  lemma {:induction false} ReadsOffTheText(sels: seq<Selection>, name: string, level: nat)
    ensures Fields(sels) == CountNames(Marks(sels)) && Occurs(name, sels) == CountName(Marks(sels), name)
    ensures Balanced(Marks(sels), level) && Level(Marks(sels)) == 0
    ensures Deepest(Marks(sels), level) == if Height(sels) == 0 then 0 else level + Height(sels)
    decreases sels
  {
    hide OccursIn, FieldsIn, HeightIn, MarksOf;
    if sels != [] {
      var n := |sels| - 1;
      ReadsOffTheText(sels[..n], name, level);
      ReadsOffOne(sels[n], name, level);
      MarksAdd(Marks(sels[..n]), MarksOf(sels[n]), name);
      DeepestAdd(Marks(sels[..n]), MarksOf(sels[n]), level);
    }
  }

  lemma {:induction false} ReadsOffOne(s: Selection, name: string, level: nat)
    ensures FieldsIn(s) == CountNames(MarksOf(s)) && OccursIn(name, s) == CountName(MarksOf(s), name)
    ensures Balanced(MarksOf(s), level) && Level(MarksOf(s)) == 0
    ensures Deepest(MarksOf(s), level) == if HeightIn(s) == 0 then 0 else level + HeightIn(s)
    decreases s
  {
    match s
    case Field(n, sub) =>
      ReadsOffTheText(sub, name, level + 1);
      FieldMarks(n, Marks(sub), name, level);
    case Inline(sub) => ReadsOffTheText(sub, name, level);
    case Spread(_) =>
  }

  lemma FieldMarks(n: string, inside: seq<Mark>, name: string, level: nat)
    requires Balanced(inside, level + 1) && Level(inside) == 0
    ensures var ms := [Name(n), Enter] + (inside + [Leave]);
            && CountNames(ms) == 1 + CountNames(inside)
            && CountName(ms, name) == (if n == name then 1 else 0) + CountName(inside, name)
            && Balanced(ms, level) && Level(ms) == 0 && Deepest(ms, level) == Max(level + 1, Deepest(inside, level + 1))
  {
    var ms := [Name(n), Enter] + (inside + [Leave]);
    assert ms[1..] == [Enter] + (inside + [Leave]) && ms[1..][1..] == inside + [Leave];
    MarksAdd(inside, [Leave], name);
    DeepestAdd(inside, [Leave], level + 1);
    assert [Leave][1..] == [];
  }

  // ---- the walk ----

  function CountOf(counts: map<string, nat>, name: string): nat {
    if name in counts then counts[name] else 0
  }

  class Tally {
    var counts: map<string, nat>
    var total: nat
    var depth: nat

    constructor ()
      ensures counts == map[] && total == 0 && depth == 0
    {
      counts, total, depth := map[], 0, 0;
    }

    /** walkSelections. Spreads are not followed, so the walk ends on cyclic documents too. */
    method Walk(sels: seq<Selection>, level: nat)
      modifies this
      ensures forall name :: CountOf(counts, name) == old(CountOf(counts, name)) + Occurs(name, sels)
      ensures total == old(total) + Fields(sels)
      ensures depth == Max(old(depth), level + Height(sels))
      decreases sels
    {
      hide Occurs, Fields, Height;
      SumsOfNone();
      if level > depth {
        depth := level;
      }
      assert sels[..0] == [];
      for i := 0 to |sels|
        invariant forall name :: CountOf(counts, name) == old(CountOf(counts, name)) + Occurs(name, sels[..i])
        invariant total == old(total) + Fields(sels[..i])
        invariant depth == Max(old(depth), level + Height(sels[..i]))
      {
        SumsOfSnoc(sels, i);
        match sels[i] {
          case Field(name, sub) =>
            counts := counts[name := CountOf(counts, name) + 1];
            total := total + 1;
            Walk(sub, level + 1);
          case Inline(sub) => Walk(sub, level);
          case Spread(_) =>
        }
      }
      assert sels[..|sels|] == sels;
    }
  }

  // ---- over the whole document ----

  /** Every selection set the guard visits: the operations, then the fragment definitions. */
  function Definitions(d: Document): seq<seq<Selection>> {
    d.operations + Bodies(d.fragments)
  }

  function Bodies(fs: seq<Fragment>): (r: seq<seq<Selection>>)
    ensures |r| == |fs| && forall i :: 0 <= i < |fs| ==> r[i] == fs[i].sub
  {
    seq(|fs|, i requires 0 <= i < |fs| => fs[i].sub)
  }

  function OccursAll(name: string, sets: seq<seq<Selection>>): nat {
    if sets == [] then 0 else OccursAll(name, sets[..|sets| - 1]) + Occurs(name, sets[|sets| - 1])
  }

  function FieldsAll(sets: seq<seq<Selection>>): nat {
    if sets == [] then 0 else FieldsAll(sets[..|sets| - 1]) + Fields(sets[|sets| - 1])
  }

  /** 1 for a document whose sets select nothing: an empty set is already at level 1. */
  function DepthAll(sets: seq<seq<Selection>>): nat {
    if sets == [] then 0 else Max(DepthAll(sets[..|sets| - 1]), 1 + Height(sets[|sets| - 1]))
  }

  datatype Verdict = Pass | Repeated(name: string) | TooMany | TooDeep

  /** InterceptOperation's decision; without a document there is nothing to refuse. */
  method Intercept(document: Option<Document>, sensitive: set<string>, maxAliases: int, maxDepth: int)
    returns (v: Verdict)
    ensures document.None? ==> v == Pass
    ensures document.Some? ==>
              var sets := Definitions(document.value);
              && (v.Repeated? ==> v.name in sensitive && OccursAll(v.name, sets) > 1)
              && (v.Repeated? <==> exists name :: name in sensitive && OccursAll(name, sets) > 1)
              && (!v.Repeated? ==> (v == TooMany <==> FieldsAll(sets) > maxAliases))
              && (!v.Repeated? && v != TooMany ==> (v == TooDeep <==> DepthAll(sets) > maxDepth))
  {
    if document.None? {
      return Pass;
    }
    var t := new Tally();
    var sets := Definitions(document.value);
    for i := 0 to |sets|
      invariant forall name :: CountOf(t.counts, name) == OccursAll(name, sets[..i])
      invariant t.total == FieldsAll(sets[..i]) && t.depth == DepthAll(sets[..i])
    {
      assert sets[..i + 1][..i] == sets[..i];
      t.Walk(sets[i], 1);
    }
    assert sets[..|sets|] == sets;
    if name :| name in sensitive && CountOf(t.counts, name) > 1 {
      return Repeated(name);
    }
    assert forall name :: name in sensitive ==> CountOf(t.counts, name) <= 1;
    if t.total > maxAliases {
      return TooMany;
    }
    v := if t.depth > maxDepth then TooDeep else Pass;
  }

  // ---- visiting order ----

  lemma {:induction false} SplitSums(name: string, a: seq<seq<Selection>>, b: seq<seq<Selection>>)
    ensures OccursAll(name, a + b) == OccursAll(name, a) + OccursAll(name, b)
    ensures FieldsAll(a + b) == FieldsAll(a) + FieldsAll(b)
    ensures DepthAll(a + b) == Max(DepthAll(a), DepthAll(b))
    decreases |b|
  {
    if b == [] {
      assert a + b == a;
    } else {
      assert (a + b)[..|a + b| - 1] == a + b[..|b| - 1];
      SplitSums(name, a, b[..|b| - 1]);
    }
  }

  lemma WithoutAt<T>(b: seq<T>, k: nat)
    requires k < |b|
    ensures b == b[..k] + ([b[k]] + b[k + 1..])
    ensures multiset(b[..k] + b[k + 1..]) == multiset(b) - multiset{b[k]}
  {
    assert b == b[..k] + ([b[k]] + b[k + 1..]);
    assert multiset(b) == multiset(b[..k]) + multiset{b[k]} + multiset(b[k + 1..]);
  }

  lemma TakeOut<T>(a: seq<T>, b: seq<T>) returns (k: nat)
    requires a != [] && multiset(a) == multiset(b)
    ensures k < |b| && b == b[..k] + ([a[|a| - 1]] + b[k + 1..])
    ensures multiset(a[..|a| - 1]) == multiset(b[..k] + b[k + 1..])
  {
    var n := |a| - 1;
    assert a[n] in multiset(b);
    k :| 0 <= k < |b| && b[k] == a[n];
    WithoutAt(b, k);
    WithoutAt(a, n);
    assert a[..n] + a[n + 1..] == a[..n];
  }

  /** The numbers depend on which sets the document defines, not on the order they are walked in. */
  lemma {:induction false} OrderDoesNotMatter(name: string, a: seq<seq<Selection>>, b: seq<seq<Selection>>)
    requires multiset(a) == multiset(b)
    ensures OccursAll(name, a) == OccursAll(name, b)
    ensures FieldsAll(a) == FieldsAll(b) && DepthAll(a) == DepthAll(b)
    decreases |a|
  {
    hide Occurs, Fields, Height;
    if a == [] {
      assert |multiset(b)| == |b|;
    } else {
      var n := |a| - 1;
      var k := TakeOut(a, b);
      OrderDoesNotMatter(name, a[..n], b[..k] + b[k + 1..]);
      SplitSums(name, b[..k], [a[n]] + b[k + 1..]);
      SplitSums(name, [a[n]], b[k + 1..]);
      SplitSums(name, b[..k], b[k + 1..]);
      assert a == a[..n] + [a[n]];
      SplitSums(name, a[..n], [a[n]]);
    }
  }

  // ---- the inlined document ----

  function BodyOf(fs: seq<Fragment>, name: string): seq<Selection> {
    if fs == [] then [] else if fs[0].name == name then fs[0].sub else BodyOf(fs[1..], name)
  }

  function Names(fs: seq<Fragment>): (r: set<string>)
    ensures |r| <= |fs|
    ensures forall i :: 0 <= i < |fs| ==> fs[i].name in r
  {
    if fs == [] then {} else {fs[0].name} + Names(fs[1..])
  }

  /** The selections with every spread replaced by its fragment, along each path at most once. */
  function Expand(sels: seq<Selection>, fs: seq<Fragment>, open: set<string>): seq<Selection>
    decreases open, sels
  {
    if sels == [] then []
    else Expand(sels[..|sels| - 1], fs, open) + [ExpandOne(sels[|sels| - 1], fs, open)]
  }

  function ExpandOne(s: Selection, fs: seq<Fragment>, open: set<string>): Selection
    decreases open, s
  {
    match s
    case Field(name, sub) => Field(name, Expand(sub, fs, open))
    case Inline(sub) => Inline(Expand(sub, fs, open))
    case Spread(f) => if f in open then Inline(Expand(BodyOf(fs, f), fs, open - {f})) else Inline([])
  }

  /** Every spread below `sels` ranks under `bound`. */
  predicate SpreadsBelow(sels: seq<Selection>, rank: string -> nat, bound: nat)
    decreases sels
  {
    forall i :: 0 <= i < |sels| ==> SpreadsBelowIn(sels[i], rank, bound)
  }

  predicate SpreadsBelowIn(s: Selection, rank: string -> nat, bound: nat)
    decreases s
  {
    match s
    case Field(_, sub) => SpreadsBelow(sub, rank, bound)
    case Inline(sub) => SpreadsBelow(sub, rank, bound)
    case Spread(f) => rank(f) < bound
  }

  /** No fragment reaches itself: a ranking along which every spread goes down. */
  ghost predicate Acyclic(fs: seq<Fragment>, rank: string -> nat) {
    forall name :: name in Names(fs) ==> SpreadsBelow(BodyOf(fs, name), rank, rank(name))
  }

  ghost predicate Covers(open: set<string>, fs: seq<Fragment>, rank: string -> nat, bound: nat) {
    forall name :: name in Names(fs) && rank(name) < bound ==> name in open
  }

  /** For acyclic fragments the "at most once" never bites: the expansion is the full inlining. */
  lemma {:induction false} ExpansionIsComplete(sels: seq<Selection>, fs: seq<Fragment>, rank: string -> nat, bound: nat,
                                              open: set<string>, more: set<string>)
    requires Acyclic(fs, rank) && SpreadsBelow(sels, rank, bound)
    requires open <= more <= Names(fs) && Covers(open, fs, rank, bound)
    ensures Expand(sels, fs, open) == Expand(sels, fs, more)
    decreases more, sels
  {
    if sels != [] {
      var n := |sels| - 1;
      ExpansionIsComplete(sels[..n], fs, rank, bound, open, more);
      match sels[n]
      case Field(_, sub) => ExpansionIsComplete(sub, fs, rank, bound, open, more);
      case Inline(sub) => ExpansionIsComplete(sub, fs, rank, bound, open, more);
      case Spread(f) =>
        if f in more {
          ExpansionIsComplete(BodyOf(fs, f), fs, rank, rank(f), open - {f}, more - {f});
        }
    }
  }

  /** So a spread inlines to its fragment's own full inlining. */
  lemma SpreadInlinesItsFragment(f: string, fs: seq<Fragment>, rank: string -> nat)
    requires Acyclic(fs, rank) && f in Names(fs)
    ensures ExpandOne(Spread(f), fs, Names(fs)) == Inline(Expand(BodyOf(fs, f), fs, Names(fs)))
  {
    ExpansionIsComplete(BodyOf(fs, f), fs, rank, rank(f), Names(fs) - {f}, Names(fs));
  }

  lemma {:induction false} BodiesAreDefinitions(fs: seq<Fragment>, f: string) returns (i: int)
    requires f in Names(fs)
    ensures 0 <= i < |fs| && BodyOf(fs, f) == fs[i].sub
  {
    if fs[0].name == f {
      i := 0;
    } else {
      i := BodiesAreDefinitions(fs[1..], f);
      i := i + 1;
    }
  }

  lemma {:induction false} DepthCoversEach(sets: seq<seq<Selection>>, i: int)
    requires 0 <= i < |sets|
    ensures 1 + Height(sets[i]) <= DepthAll(sets)
    decreases |sets|
  {
    if i < |sets| - 1 {
      DepthCoversEach(sets[..|sets| - 1], i);
    }
  }

  lemma {:induction false} OccursCoversEach(name: string, sets: seq<seq<Selection>>, i: int)
    requires 0 <= i < |sets|
    ensures Occurs(name, sets[i]) <= OccursAll(name, sets)
    decreases |sets|
  {
    if i < |sets| - 1 {
      OccursCoversEach(name, sets[..|sets| - 1], i);
    }
  }

  lemma Scale(h: nat, open: set<string>, f: string)
    requires f in open
    ensures h + h * |open - {f}| == h * |open|
  {
    assert |open| == |open - {f}| + 1;
  }

  ghost predicate Shallow(fs: seq<Fragment>, h: nat) {
    forall name :: name in Names(fs) ==> Height(BodyOf(fs, name)) <= h
  }

  lemma HeightOfSnoc(sels: seq<Selection>, s: Selection)
    ensures Height(sels + [s]) == Max(Height(sels), HeightIn(s))
  {
    assert (sels + [s])[..|sels|] == sels;
  }

  lemma {:induction false} ExpandedHeight(sels: seq<Selection>, fs: seq<Fragment>, open: set<string>, h: nat)
    requires open <= Names(fs) && Shallow(fs, h)
    ensures Height(Expand(sels, fs, open)) <= Height(sels) + h * |open|
    decreases open, sels
  {
    hide Names, BodyOf, ExpandOne, HeightIn, Height, Shallow;
    if sels == [] {
      EmptyIsFlat();
    } else {
      var n := |sels| - 1;
      ExpandedHeight(sels[..n], fs, open, h);
      ExpandedHeightIn(sels[n], fs, open, h);
      assert sels == sels[..n] + [sels[n]];
      HeightOfSnoc(sels[..n], sels[n]);
      HeightOfSnoc(Expand(sels[..n], fs, open), ExpandOne(sels[n], fs, open));
    }
  }

  lemma EmptyIsFlat()
    ensures Height([]) == 0
  {
  }

  lemma {:induction false} ExpandedHeightIn(s: Selection, fs: seq<Fragment>, open: set<string>, h: nat)
    requires open <= Names(fs) && Shallow(fs, h)
    ensures HeightIn(ExpandOne(s, fs, open)) <= HeightIn(s) + h * |open|
    decreases open, s
  {
    hide Names, BodyOf, Height, Expand;
    match s
    case Field(_, sub) => ExpandedHeight(sub, fs, open, h);
    case Inline(sub) => ExpandedHeight(sub, fs, open, h);
    case Spread(f) =>
      EmptyIsFlat();
      if f in open {
        assert f in Names(fs);
        ExpandedHeight(BodyOf(fs, f), fs, open - {f}, h);
        Scale(h, open, f);
      }
  }

  /** The recorded depth D bounds the inlined document: with F fragments, an operation nests at most
      D + F (D - 1) levels after inlining. */
  lemma InlinedDepthIsBounded(d: Document, i: int)
    requires 0 <= i < |d.operations|
    ensures var D := DepthAll(Definitions(d));
            && D >= 1
            && 1 + Height(Expand(d.operations[i], d.fragments, Names(d.fragments))) <= D + |d.fragments| * (D - 1)
  {
    var sets := Definitions(d);
    var D := DepthAll(sets);
    assert sets[i] == d.operations[i];
    DepthCoversEach(sets, i);
    var h: nat := D - 1;
    forall name | name in Names(d.fragments)
      ensures Height(BodyOf(d.fragments, name)) <= h
    {
      var k := BodiesAreDefinitions(d.fragments, name);
      assert sets[|d.operations| + k] == d.fragments[k].sub;
      DepthCoversEach(sets, |d.operations| + k);
    }
    ExpandedHeight(d.operations[i], d.fragments, Names(d.fragments), h);
    MulMonotone(h, |Names(d.fragments)|, |d.fragments|);
  }

  lemma MulMonotone(h: nat, a: nat, b: nat)
    requires a <= b
    ensures h * a <= b * h
  {
  }

  lemma {:induction false} ExpandedNames(name: string, sels: seq<Selection>, fs: seq<Fragment>, open: set<string>)
    requires open <= Names(fs) && Occurs(name, Expand(sels, fs, open)) > 0
    ensures Occurs(name, sels) > 0 || exists f :: f in Names(fs) && Occurs(name, BodyOf(fs, f)) > 0
    decreases open, sels
  {
    var n := |sels| - 1;
    var whole := Expand(sels, fs, open);
    assert whole[..|whole| - 1] == Expand(sels[..n], fs, open);
    if Occurs(name, Expand(sels[..n], fs, open)) > 0 {
      ExpandedNames(name, sels[..n], fs, open);
    } else {
      match sels[n]
      case Field(m, sub) => if m != name { ExpandedNames(name, sub, fs, open); }
      case Inline(sub) => ExpandedNames(name, sub, fs, open);
      case Spread(f) => if f in open { ExpandedNames(name, BodyOf(fs, f), fs, open - {f}); }
    }
  }

  /** No field of the inlined document escapes the count. */
  lemma InlinedFieldsAreCounted(d: Document, i: int, name: string)
    requires 0 <= i < |d.operations|
    requires Occurs(name, Expand(d.operations[i], d.fragments, Names(d.fragments))) > 0
    ensures OccursAll(name, Definitions(d)) > 0
  {
    var sets := Definitions(d);
    ExpandedNames(name, d.operations[i], d.fragments, Names(d.fragments));
    assert sets[i] == d.operations[i];
    OccursCoversEach(name, sets, i);
    if f :| f in Names(d.fragments) && Occurs(name, BodyOf(d.fragments, f)) > 0 {
      var k := BodiesAreDefinitions(d.fragments, f);
      assert sets[|d.operations| + k] == d.fragments[k].sub;
      OccursCoversEach(name, sets, |d.operations| + k);
    }
  }

  // ---- the recorded depth is not the inlined depth ----

  function Nest(k: nat, inside: seq<Selection>): seq<Selection> {
    if k == 0 then inside else [Field("a", Nest(k - 1, inside))]
  }

  lemma HeightOfOne(s: Selection)
    ensures Height([s]) == HeightIn(s)
  {
    assert [s][..0] == [];
  }

  lemma ExpandOfOne(s: Selection, fs: seq<Fragment>, open: set<string>)
    ensures Expand([s], fs, open) == [ExpandOne(s, fs, open)]
  {
    assert [s][..0] == [];
  }

  lemma {:induction false} NestHeight(k: nat, inside: seq<Selection>, fs: seq<Fragment>, open: set<string>)
    ensures Height(Nest(k, inside)) == k + Height(inside)
    ensures Expand(Nest(k, inside), fs, open) == Nest(k, Expand(inside, fs, open))
  {
    if k > 0 {
      NestHeight(k - 1, inside, fs, open);
      HeightOfOne(Field("a", Nest(k - 1, inside)));
      ExpandOfOne(Field("a", Nest(k - 1, inside)), fs, open);
    }
  }

  /** Fragment names, one per number. */
  function Label(i: nat): (r: string)
    ensures |r| == i
  {
    if i == 0 then "" else Label(i - 1) + "f"
  }

  /** What the i-th link of the chain ends in: the next one, or nothing. */
  function Link(i: nat, n: nat): seq<Selection> {
    if i < n then [Spread(Label(i))] else []
  }

  function Chain(k: nat, n: nat): seq<Fragment> {
    seq(n, i requires 0 <= i < n => Fragment(Label(i), Nest(k, Link(i + 1, n))))
  }

  lemma {:induction false} BodyAt(fs: seq<Fragment>, i: nat)
    requires i < |fs| && forall j :: 0 <= j < i ==> fs[j].name != fs[i].name
    ensures BodyOf(fs, fs[i].name) == fs[i].sub
    decreases i
  {
    if i > 0 {
      BodyAt(fs[1..], i - 1);
    }
  }

  /** From the i-th link on, the chain inlines to k fields per fragment. */
  lemma {:induction false} ChainHeight(k: nat, n: nat, i: nat, open: set<string>)
    requires i <= n && forall j :: i <= j < n ==> Label(j) in open
    ensures Height(Expand(Link(i, n), Chain(k, n), open)) == k * (n - i)
    decreases n - i
  {
    hide Expand, Height, BodyOf;
    var fs := Chain(k, n);
    if i == n {
      EmptyIsFlat();
      assert Expand([], fs, open) == [] by { ExpandOfNone(fs, open); }
    } else {
      var f := Label(i);
      BodyAt(fs, i);
      assert fs[i].name == f && BodyOf(fs, f) == Nest(k, Link(i + 1, n));
      forall j | i + 1 <= j < n
        ensures Label(j) in open - {f}
      {
        assert |Label(j)| == j;
      }
      ChainHeight(k, n, i + 1, open - {f});
      NestHeight(k, Link(i + 1, n), fs, open - {f});
      NestHeight(k, Expand(Link(i + 1, n), fs, open - {f}), fs, open - {f});
      ExpandOfOne(Spread(f), fs, open);
      HeightOfOne(Inline(Expand(BodyOf(fs, f), fs, open - {f})));
      Distribute(k, n - i);
    }
  }

  lemma Distribute(k: nat, m: nat)
    requires m > 0
    ensures k + k * (m - 1) == k * m
  {
  }

  lemma ExpandOfNone(fs: seq<Fragment>, open: set<string>)
    ensures Expand([], fs, open) == []
  {
  }

  lemma LinkIsFlat(i: nat, n: nat)
    ensures Height(Link(i, n)) == 0
  {
    if i < n {
      HeightOfOne(Spread(Label(i)));
    }
  }

  lemma {:induction false} SameDepth(sets: seq<seq<Selection>>, k: nat)
    requires sets != [] && forall i :: 0 <= i < |sets| ==> Height(sets[i]) == k
    ensures DepthAll(sets) == k + 1
    decreases |sets|
  {
    hide Height;
    if |sets| > 1 {
      SameDepth(sets[..|sets| - 1], k);
    } else {
      assert sets[..0] == [];
    }
  }

  function ChainDocument(k: nat, n: nat): Document {
    Document([Nest(k, Link(0, n))], Chain(k, n))
  }

  /** The document's sets are k fields deep each, and its links are all among its fragments. */
  lemma ChainSets(k: nat, n: nat)
    ensures var d := ChainDocument(k, n);
            && d.operations == [Nest(k, Link(0, n))] && d.fragments == Chain(k, n) && |d.fragments| == n
            && DepthAll(Definitions(d)) == k + 1 && forall j :: 0 <= j < n ==> Label(j) in Names(d.fragments)
  {
    hide Height, Names, Label;
    var fs := Chain(k, n);
    var sets := Definitions(ChainDocument(k, n));
    forall i | 0 <= i < |sets|
      ensures Height(sets[i]) == k
    {
      LinkIsFlat(i, n);
      NestHeight(k, Link(i, n), fs, {});
      assert sets[i] == Nest(k, Link(i, n));
    }
    SameDepth(sets, k);
    forall j | 0 <= j < n
      ensures Label(j) in Names(fs)
    {
      assert fs[j].name == Label(j);
    }
  }

  /** The bound is met for every depth and every number of fragments, so a document within the depth
      limit can nest far deeper once inlined: a chain of n fragments of k fields each, behind an
      operation of k fields, is recorded at D = k + 1 and inlines to D + n (D − 1). */
  lemma DepthBoundIsMet(k: nat, n: nat)
    ensures var d := ChainDocument(k, n); var D := DepthAll(Definitions(d));
            && |d.operations| == 1 && |d.fragments| == n && D == k + 1
            && 1 + Height(Expand(d.operations[0], d.fragments, Names(d.fragments))) == D + n * (D - 1)
  {
    hide *;
    var fs := Chain(k, n);
    ChainSets(k, n);
    ChainHeight(k, n, 0, Names(fs));
    NestHeight(k, Link(0, n), fs, Names(fs));
    NestHeight(k, Expand(Link(0, n), fs, Names(fs)), fs, Names(fs));
    assert k * n == n * k;
  }
}
