/** Desugaring: every piece of sugar becomes a reference to a generated helper
    production that expresses the same language. */
module Desugar {
  import opened Ir
  import opened FreshNames

  /** The helpers minted so far and the names in use. */
  datatype State = State(extra: Grammar, used: set<string>)

  /** Prose is resolved before desugaring, and validated bounds are in order. */
  predicate Plain(e: Element)
    decreases e
  {
    match e
    case Term(_) => true
    case Ref(_) => true
    case Prose(_) => false
    case Opt(i) => Plain(i)
    case Star(i, _) => Plain(i)
    case Plus(i) => Plain(i)
    case Rep(lo, hi, i) => Plain(i) && (hi.Some? ==> lo <= hi.value)
    case Group(alts) => PlainGroup(alts)
  }

  predicate PlainGroup(alts: seq<Owned>)
    decreases alts
  {
    alts == [] || (PlainSeq(alts[0].els) && PlainGroup(alts[1..]))
  }

  predicate PlainSeq(s: Sequence)
    decreases s
  {
    s == [] || (Plain(s[0]) && PlainSeq(s[1..]))
  }

  // ---- minting ----

  /** What the name of every helper begins with. */
  const MINTED: string := "_gen"

  function FreshFor(hint: string, st: State): (name: string)
    ensures name !in st.used && MINTED <= name
  {
    FreshName(MINTED, "_" + hint, |st.extra| + 1, st.used)
  }

  function Use(st: State, name: string): State {
    st.(used := st.used + {name})
  }

  function Mint(st: State, name: string, alts: seq<Sequence>): State {
    State(st.extra + [Production(name, alts)], st.used + {name})
  }

  /** A token's name without the marks in front of it. */
  function Bare(tok: string): string {
    if tok != "" && tok[0] == '#' then Bare(tok[1..]) else tok
  }

  /** Helpers are named after what they repeat. */
  function HintOf(inner: Element): string {
    match inner
    case Ref(n) => n
    case Term(t) =>
      if t != "" && t[0] == '#' then Bare(t)
      else if t != "" && t[0] == '/' then "x"
      else "term"
    case _ => "x"
  }

  function LoopAlts(name: string, inner: Element): seq<Sequence> {
    [[inner, Ref(name)], []]
  }

  function Copies(inner: Element, n: nat): (s: Sequence)
    ensures |s| == n && forall i :: 0 <= i < n ==> s[i] == inner
  {
    seq(n, i requires 0 <= i < n => inner)
  }

  /** One more level of the optional tail of a bounded repetition: a group helper
      holding the item and the level below, and an option of that group. */
  function Level(inner: Element, below: Option<Element>, st: State): (Element, State) {
    var body := if below.Some? then [inner, below.value] else [inner];
    var group := FreshFor("group", st);
    var st1 := Mint(st, group, [body]);
    var option := FreshFor("opt_" + group, st1);
    (Ref(option), Mint(st1, option, [[Ref(group)], []]))
  }

  function Levels(inner: Element, n: nat, below: Option<Element>, st: State): (Option<Element>, State) {
    if n == 0 then (below, st)
    else
      var (up, st1) := Level(inner, below, st);
      Levels(inner, n - 1, Some(up), st1)
  }

  // ---- the pass on one element, sequence and grammar ----

  predicate IsSugar(e: Element) {
    e.Opt? || e.Star? || e.Plus? || e.Rep?
  }

  /** The helpers for one piece of sugar around an item already desugared. */
  function Sugar(e: Element, inner: Element, st: State): (Element, State)
    requires IsSugar(e)
  {
    match e
    case Opt(_) =>
      var name := FreshFor("opt_" + HintOf(inner), st);
      (Ref(name), Mint(st, name, [[inner], []]))
    case Star(_, _) =>
      var name := FreshFor("star_" + HintOf(inner), st);
      (Ref(name), Mint(st, name, LoopAlts(name, inner)))
    case Plus(_) => PlusHelpers(inner, st)
    case Rep(lo, None, _) => AtLeast(inner, lo, st)
    case Rep(lo, Some(hi), _) => Bounded(inner, lo, if lo <= hi then hi - lo else 0, st)
  }

  function Elem(e: Element, st: State): (Element, State)
    decreases e
  {
    match e
    case Term(_) => (e, st)
    case Prose(_) => (e, st)
    case Ref(_) => (e, st)
    case Group(alts) =>
      var (inner, st1) := GroupAlts(alts, st);
      var name := FreshFor("group", st1);
      (Ref(name), Mint(st1, name, inner))
    case _ =>
      var (inner, st1) := Elem(e.inner, st);
      Sugar(e, inner, st1)
  }

  function PlusHelpers(inner: Element, st: State): (Element, State) {
    var tail := FreshFor("star_" + HintOf(inner), st);
    var plus := FreshFor("plus_" + HintOf(inner), Use(st, tail));
    var st1 := Mint(Use(Use(st, tail), plus), tail, LoopAlts(tail, inner));
    (Ref(plus), Mint(st1, plus, [[inner, Ref(tail)]]))
  }

  function AtLeast(inner: Element, lo: nat, st: State): (Element, State) {
    var rep := FreshFor("rep_" + HintOf(inner), st);
    var tail := FreshFor("star_" + HintOf(inner), Use(st, rep));
    var st1 := Mint(Use(Use(st, rep), tail), tail, LoopAlts(tail, inner));
    (Ref(rep), Mint(st1, rep, [Copies(inner, lo) + [Ref(tail)]]))
  }

  function Bounded(inner: Element, lo: nat, more: nat, st: State): (Element, State) {
    var rep := FreshFor("rep_" + HintOf(inner), st);
    var (nested, st1) := Levels(inner, more, None, Use(st, rep));
    (Ref(rep), Mint(st1, rep, [Copies(inner, lo) + if nested.Some? then [nested.value] else []]))
  }

  function Seq(s: Sequence, st: State): (Sequence, State)
    decreases s
  {
    if s == [] then ([], st)
    else
      var (head, st1) := Elem(s[0], st);
      var (tail, st2) := Seq(s[1..], st1);
      ([head] + tail, st2)
  }

  function GroupAlts(alts: seq<Owned>, st: State): (seq<Sequence>, State)
    decreases alts
  {
    if alts == [] then ([], st)
    else
      var (head, st1) := Seq(alts[0].els, st);
      var (tail, st2) := GroupAlts(alts[1..], st1);
      ([head] + tail, st2)
  }

  function Alts(alts: seq<Sequence>, st: State): (seq<Sequence>, State) {
    if alts == [] then ([], st)
    else
      var (head, st1) := Seq(alts[0], st);
      var (tail, st2) := Alts(alts[1..], st1);
      ([head] + tail, st2)
  }

  function Rules(g: Grammar, st: State): (Grammar, State) {
    if g == [] then ([], st)
    else
      var (alts, st1) := Alts(g[0].alts, st);
      var (tail, st2) := Rules(g[1..], st1);
      ([Production(g[0].name, alts)] + tail, st2)
  }

  function Start(g: Grammar): State {
    State([], NameSet(g))
  }

  /** The authored rules with their sugar replaced, and the helpers after them. */
  function Desugared(g: Grammar): Grammar {
    var (rules, st) := Rules(g, Start(g));
    rules + st.extra
  }

  // ---- the pass as it runs ----

  class Desugarer {
    var extra: Grammar
    var used: set<string>

    function Now(): State
      reads this
    {
      State(extra, used)
    }

    constructor (g: Grammar)
      ensures Now() == Start(g)
    {
      extra := [];
      used := NameSet(g);
    }

    /** The first free name from one past the number of helpers on. */
    method Fresh(hint: string) returns (name: string)
      modifies this
      ensures name == FreshFor(hint, old(Now()))
      ensures Now() == Use(old(Now()), name)
    {
      name := FindFresh(MINTED, "_" + hint, |extra| + 1, used);
      used := used + {name};
    }

    method Helper(name: string, alts: seq<Sequence>) returns (r: Element)
      requires name in used
      modifies this
      ensures r == Ref(name) && Now() == Mint(old(Now()), name, alts)
    {
      extra := extra + [Production(name, alts)];
      assert used == used + {name};
      r := Ref(name);
    }

    method RepeatLoop(name: string, inner: Element) returns (r: Element)
      requires name in used
      modifies this
      ensures r == Ref(name) && Now() == Mint(old(Now()), name, LoopAlts(name, inner))
    {
      r := Helper(name, [[inner, Ref(name)], []]);
    }

    method Sequence(s: Sequence) returns (r: Sequence)
      modifies this
      ensures (r, Now()) == Seq(s, old(Now()))
      decreases s
    {
      if s == [] {
        return [];
      }
      var head := Element(s[0]);
      var tail := Sequence(s[1..]);
      r := [head] + tail;
    }

    method GroupAlternatives(alts: seq<Owned>) returns (r: seq<Sequence>)
      modifies this
      ensures (r, Now()) == GroupAlts(alts, old(Now()))
      decreases alts
    {
      if alts == [] {
        return [];
      }
      var head := Sequence(alts[0].els);
      var tail := GroupAlternatives(alts[1..]);
      r := [head] + tail;
    }

    method OptionalTail(inner: Element, more: nat) returns (nested: Option<Element>)
      modifies this
      ensures old(used) <= used
      ensures (nested, Now()) == Levels(inner, more, None, old(Now()))
    {
      hide FreshFor;
      nested := None;
      for k := 0 to more
        invariant old(used) <= used
        invariant Levels(inner, more - k, nested, Now()) == Levels(inner, more, None, old(Now()))
      {
        var body := if nested.Some? then [inner, nested.value] else [inner];
        var group := Fresh("group");
        var groupRef := Helper(group, [body]);
        var option := Fresh("opt_" + group);
        var optionRef := Helper(option, [[groupRef], []]);
        nested := Some(optionRef);
      }
    }

    method Element(e: Element) returns (r: Element)
      modifies this
      ensures (r, Now()) == Elem(e, old(Now()))
      decreases e
    {
      hide FreshFor, Sugar;
      match e
      case Term(_) => r := e;
      case Prose(_) => r := e;
      case Ref(_) => r := e;
      case Group(alts) =>
        var inner := GroupAlternatives(alts);
        var name := Fresh("group");
        r := Helper(name, inner);
      case _ =>
        var inner := Element(e.inner);
        r := Around(e, inner);
    }

    /** The helpers for one piece of sugar around its item. */
    method Around(e: Element, inner: Element) returns (r: Element)
      requires IsSugar(e)
      modifies this
      ensures (r, Now()) == Sugar(e, inner, old(Now()))
    {
      hide FreshFor;
      match e
      case Opt(_) =>
        var name := Fresh("opt_" + HintOf(inner));
        r := Helper(name, [[inner], []]);
      case Star(_, _) =>
        var name := Fresh("star_" + HintOf(inner));
        r := RepeatLoop(name, inner);
      case Plus(_) => r := AtLeastOne(inner);
      case Rep(lo, hi, _) => r := Repetition(inner, lo, hi);
    }

    method AtLeastOne(inner: Element) returns (r: Element)
      modifies this
      ensures (r, Now()) == PlusHelpers(inner, old(Now()))
    {
      var tail := Fresh("star_" + HintOf(inner));
      var plus := Fresh("plus_" + HintOf(inner));
      var tailRef := RepeatLoop(tail, inner);
      r := Helper(plus, [[inner, tailRef]]);
    }

    method Repetition(inner: Element, lo: nat, hi: Option<nat>) returns (r: Element)
      modifies this
      ensures hi.None? ==> (r, Now()) == AtLeast(inner, lo, old(Now()))
      ensures hi.Some? ==> (r, Now()) == Bounded(inner, lo, if lo <= hi.value then hi.value - lo else 0, old(Now()))
    {
      var rep := Fresh("rep_" + HintOf(inner));
      var body := Copies(inner, lo);
      match hi
      case None =>
        var tail := Fresh("star_" + HintOf(inner));
        var tailRef := RepeatLoop(tail, inner);
        r := Helper(rep, [body + [tailRef]]);
      case Some(n) =>
        var nested := OptionalTail(inner, if lo <= n then n - lo else 0);
        r := Helper(rep, [body + if nested.Some? then [nested.value] else []]);
    }
  
    method Alternatives(alts: seq<Sequence>) returns (r: seq<Sequence>)
      modifies this
      ensures r == Alts(alts, old(Now())).0 && Now() == Alts(alts, old(Now())).1
    {
      r := [];
      assert alts[0..] == alts;
      for i := 0 to |alts|
        invariant r + Alts(alts[i..], Now()).0 == Alts(alts, old(Now())).0
        invariant Alts(alts[i..], Now()).1 == Alts(alts, old(Now())).1
      {
        assert alts[i..][1..] == alts[i + 1..];
        ghost var before := Alts(alts[i..], Now());
        var head := Sequence(alts[i]);
        assert before.0 == [head] + Alts(alts[i + 1..], Now()).0;
        r := r + [head];
      }
    }
  }

  /** The whole pass. */
  method DesugarGrammar(g: Grammar) returns (r: Grammar)
    ensures r == Desugared(g)
  {
    var d := new Desugarer(g);
    r := [];
    assert g[0..] == g;
    for i := 0 to |g|
      invariant fresh(d)
      invariant r + Rules(g[i..], d.Now()).0 == Rules(g, Start(g)).0
      invariant Rules(g[i..], d.Now()).1 == Rules(g, Start(g)).1
    {
      assert g[i..][1..] == g[i + 1..];
      ghost var before := Rules(g[i..], d.Now());
      var alts := d.Alternatives(g[i].alts);
      assert before.0 == [Production(g[i].name, alts)] + Rules(g[i + 1..], d.Now()).0;
      r := r + [Production(g[i].name, alts)];
    }
    r := r + d.extra;
  }
}
