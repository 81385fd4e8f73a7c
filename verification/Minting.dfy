/** What desugaring does to names: every helper gets a new one, beginning alike, and the
    pass makes the same of a grammar whatever other names are in use. */
module Minting {
  import opened Ir
  import opened FreshNames
  import opened Desugar

  /** The names of the helpers so far are in use. */
  ghost predicate Named(st: State) {
    forall i :: 0 <= i < |st.extra| ==> st.extra[i].name in st.used
  }

  /** `prods` names nothing in `d`. */
  ghost predicate Clear(prods: Grammar, d: set<string>) {
    forall i :: 0 <= i < |prods| ==> prods[i].name !in d
  }

  /** The same state with more names in use. */
  function Wider(st: State, d: set<string>): State {
    State(st.extra, st.used + d)
  }

  /** What minting does to names, whatever the helpers refer to. */
  ghost predicate Mints(st: State, st': State) {
    && st.extra <= st'.extra && st.used <= st'.used
    && (forall i :: |st.extra| <= i < |st'.extra| ==> st'.extra[i].name in st'.used && st'.extra[i].name !in st.used)
    && (forall i :: |st.extra| <= i < |st'.extra| ==> MINTED <= st'.extra[i].name)
    && (forall i, j :: |st.extra| <= i < j < |st'.extra| ==> st'.extra[i].name != st'.extra[j].name)
  }

  lemma MintsTrans(a: State, b: State, c: State)
    requires Mints(a, b) && Mints(b, c)
    ensures Mints(a, c)
  {
    forall i | |a.extra| <= i < |c.extra|
      ensures c.extra[i].name in c.used && c.extra[i].name !in a.used && MINTED <= c.extra[i].name
    {
      assert i < |b.extra| ==> c.extra[i] == b.extra[i];
    }
    forall i, j | |a.extra| <= i < j < |c.extra| ensures c.extra[i].name != c.extra[j].name {
      assert i < |b.extra| ==> c.extra[i] == b.extra[i];
      assert j < |b.extra| ==> c.extra[j] == b.extra[j];
    }
  }

  lemma ClearPrefix(a: Grammar, b: Grammar, d: set<string>)
    requires a <= b && Clear(b, d)
    ensures Clear(a, d)
  {
    forall i | 0 <= i < |a| ensures a[i].name !in d {
      assert a[i] == b[i];
    }
  }

  /** A minted name that is not among the added ones is minted all the same. */
  lemma FreshWider(hint: string, st: State, d: set<string>)
    requires FreshFor(hint, st) !in d
    ensures FreshFor(hint, Wider(st, d)) == FreshFor(hint, st)
  {
    var base, suffix := |st.extra| + 1, "_" + hint;
    var n := FirstFree("_gen", suffix, base, st.used, st.used);
    var n' := FirstFree("_gen", suffix, base, st.used + d, st.used + d);
    assert Numbered("_gen", n, suffix) !in st.used + d;
  }

  lemma UseWider(st: State, name: string, d: set<string>)
    ensures Use(Wider(st, d), name) == Wider(Use(st, name), d)
  {
    assert st.used + d + {name} == st.used + {name} + d;
  }

  lemma MintWider(st: State, name: string, alts: seq<Sequence>, d: set<string>)
    ensures Mint(Wider(st, d), name, alts) == Wider(Mint(st, name, alts), d)
  {
    assert st.used + d + {name} == st.used + {name} + d;
  }

  /** The pass makes the same of one piece of grammar with more names in use, unless
      it mints one of those. */
  ghost predicate Same<T(!new)>(got: (T, State), wide: (T, State), d: set<string>) {
    Clear(got.1.extra, d) ==> wide == (got.0, Wider(got.1, d))
  }

  lemma LastClear(st: State, name: string, alts: seq<Sequence>, d: set<string>)
    requires Clear(Mint(st, name, alts).extra, d)
    ensures Clear(st.extra, d) && name !in d
  {
    var all := Mint(st, name, alts).extra;
    assert all[|st.extra|] == Production(name, alts);
    ClearPrefix(st.extra, all, d);
  }

  lemma OneWider(hint: string, st: State, alts: seq<Sequence>, d: set<string>)
    ensures var name := FreshFor(hint, st); Mints(st, Mint(st, name, alts))
    ensures var name := FreshFor(hint, st); var next := Mint(st, name, alts);
      Clear(next.extra, d) ==> FreshFor(hint, Wider(st, d)) == name && Mint(Wider(st, d), name, alts) == Wider(next, d)
  {
    var name := FreshFor(hint, st);
    MintWider(st, name, alts, d);
    if Clear(Mint(st, name, alts).extra, d) {
      LastClear(st, name, alts, d);
      FreshWider(hint, st, d);
    }
  }

  /** Two names reserved, then minted in either order. */
  lemma TwoWider(h1: string, h2: string, st: State, d: set<string>)
    ensures var n1 := FreshFor(h1, st); var n2 := FreshFor(h2, Use(st, n1));
      n1 !in d && n2 !in d ==> FreshFor(h1, Wider(st, d)) == n1 && FreshFor(h2, Use(Wider(st, d), n1)) == n2
  {
    var n1 := FreshFor(h1, st);
    var n2 := FreshFor(h2, Use(st, n1));
    if n1 !in d && n2 !in d {
      FreshWider(h1, st, d);
      UseWider(st, n1, d);
      FreshWider(h2, Use(st, n1), d);
    }
  }

  lemma PlusWider(inner: Element, st: State, d: set<string>)
    requires Named(st)
    ensures Mints(st, PlusHelpers(inner, st).1) && Named(PlusHelpers(inner, st).1)
    ensures Same(PlusHelpers(inner, st), PlusHelpers(inner, Wider(st, d)), d)
  {
    hide FreshFor;
    var tail := FreshFor("star_" + HintOf(inner), st);
    var plus := FreshFor("plus_" + HintOf(inner), Use(st, tail));
    var st0 := Use(Use(st, tail), plus);
    var st1 := Mint(st0, tail, LoopAlts(tail, inner));
    if Clear(PlusHelpers(inner, st).1.extra, d) {
      LastClear(st1, plus, [[inner, Ref(tail)]], d);
      LastClear(st0, tail, LoopAlts(tail, inner), d);
      TwoWider("star_" + HintOf(inner), "plus_" + HintOf(inner), st, d);
      UseWider(st, tail, d);
      UseWider(Use(st, tail), plus, d);
      MintWider(st0, tail, LoopAlts(tail, inner), d);
      MintWider(st1, plus, [[inner, Ref(tail)]], d);
    }
  }

  lemma AtLeastWider(inner: Element, lo: nat, st: State, d: set<string>)
    requires Named(st)
    ensures Mints(st, AtLeast(inner, lo, st).1) && Named(AtLeast(inner, lo, st).1)
    ensures Same(AtLeast(inner, lo, st), AtLeast(inner, lo, Wider(st, d)), d)
  {
    hide FreshFor;
    var rep := FreshFor("rep_" + HintOf(inner), st);
    var tail := FreshFor("star_" + HintOf(inner), Use(st, rep));
    var st0 := Use(Use(st, rep), tail);
    var st1 := Mint(st0, tail, LoopAlts(tail, inner));
    if Clear(AtLeast(inner, lo, st).1.extra, d) {
      LastClear(st1, rep, [Copies(inner, lo) + [Ref(tail)]], d);
      LastClear(st0, tail, LoopAlts(tail, inner), d);
      TwoWider("rep_" + HintOf(inner), "star_" + HintOf(inner), st, d);
      UseWider(st, rep, d);
      UseWider(Use(st, rep), tail, d);
      MintWider(st0, tail, LoopAlts(tail, inner), d);
      MintWider(st1, rep, [Copies(inner, lo) + [Ref(tail)]], d);
    }
  }

  lemma LevelWider(inner: Element, below: Option<Element>, st: State, d: set<string>)
    requires Named(st)
    ensures Mints(st, Level(inner, below, st).1) && Named(Level(inner, below, st).1)
    ensures Same(Level(inner, below, st), Level(inner, below, Wider(st, d)), d)
  {
    hide FreshFor;
    var body := if below.Some? then [inner, below.value] else [inner];
    var group := FreshFor("group", st);
    var st1 := Mint(st, group, [body]);
    var option := FreshFor("opt_" + group, st1);
    var st2 := Mint(st1, option, [[Ref(group)], []]);
    OneWider("group", st, [body], d);
    OneWider("opt_" + group, st1, [[Ref(group)], []], d);
    MintsTrans(st, st1, st2);
    if Clear(st2.extra, d) {
      ClearPrefix(st1.extra, st2.extra, d);
    }
  }

  lemma {:induction false} LevelsWider(inner: Element, n: nat, below: Option<Element>, st: State, d: set<string>)
    requires Named(st)
    ensures Mints(st, Levels(inner, n, below, st).1) && Named(Levels(inner, n, below, st).1)
    ensures Same(Levels(inner, n, below, st), Levels(inner, n, below, Wider(st, d)), d)
    decreases n
  {
    hide FreshFor;
    if n > 0 {
      var (up, st1) := Level(inner, below, st);
      LevelWider(inner, below, st, d);
      LevelsWider(inner, n - 1, Some(up), st1, d);
      var last := Levels(inner, n - 1, Some(up), st1).1;
      MintsTrans(st, st1, last);
      if Clear(last.extra, d) {
        ClearPrefix(st1.extra, last.extra, d);
      }
    }
  }

  /** A helper whose name was reserved before those it is made of. */
  lemma OuterMints(st: State, name: string, st1: State, alts: seq<Sequence>)
    requires Named(st) && name !in st.used && Mints(Use(st, name), st1) && Named(st1) && MINTED <= name
    ensures Mints(st, Mint(st1, name, alts)) && Named(Mint(st1, name, alts))
  {
  }

  lemma {:induction false} BoundedWider(inner: Element, lo: nat, more: nat, st: State, d: set<string>)
    requires Named(st)
    ensures Mints(st, Bounded(inner, lo, more, st).1) && Named(Bounded(inner, lo, more, st).1)
    ensures Same(Bounded(inner, lo, more, st), Bounded(inner, lo, more, Wider(st, d)), d)
  {
    hide FreshFor;
    var rep := FreshFor("rep_" + HintOf(inner), st);
    var st0 := Use(st, rep);
    LevelsWider(inner, more, None, st0, d);
    var (nested, st1) := Levels(inner, more, None, st0);
    var alts := [Copies(inner, lo) + if nested.Some? then [nested.value] else []];
    OuterMints(st, rep, st1, alts);
    if Clear(Mint(st1, rep, alts).extra, d) {
      LastClear(st1, rep, alts, d);
      FreshWider("rep_" + HintOf(inner), st, d);
      UseWider(st, rep, d);
      MintWider(st1, rep, alts, d);
    }
  }

  lemma {:induction false} SugarWider(e: Element, inner: Element, st: State, d: set<string>)
    requires IsSugar(e) && Named(st)
    ensures Mints(st, Sugar(e, inner, st).1) && Named(Sugar(e, inner, st).1)
    ensures Same(Sugar(e, inner, st), Sugar(e, inner, Wider(st, d)), d)
  {
    hide FreshFor;
    match e
    case Opt(_) => OneWider("opt_" + HintOf(inner), st, [[inner], []], d);
    case Star(_, _) =>
      OneWider("star_" + HintOf(inner), st, LoopAlts(FreshFor("star_" + HintOf(inner), st), inner), d);
    case Plus(_) => PlusWider(inner, st, d);
    case Rep(lo, None, _) => AtLeastWider(inner, lo, st, d);
    case Rep(lo, Some(hi), _) => BoundedWider(inner, lo, if lo <= hi then hi - lo else 0, st, d);
  }

  lemma {:induction false} ElemWider(e: Element, st: State, d: set<string>)
    requires Named(st)
    ensures Mints(st, Elem(e, st).1) && Named(Elem(e, st).1)
    ensures Same(Elem(e, st), Elem(e, Wider(st, d)), d)
    decreases e
  {
    hide FreshFor, Sugar;
    if e.Group? {
      var (inner, st1) := GroupAlts(e.alts, st);
      GroupWider(e.alts, st, d);
      OneWider("group", st1, inner, d);
      var last := Mint(st1, FreshFor("group", st1), inner);
      MintsTrans(st, st1, last);
      if Clear(last.extra, d) {
        ClearPrefix(st1.extra, last.extra, d);
      }
    } else if IsSugar(e) {
      var (inner, st1) := Elem(e.inner, st);
      ElemWider(e.inner, st, d);
      SugarWider(e, inner, st1, d);
      var last := Sugar(e, inner, st1).1;
      MintsTrans(st, st1, last);
      if Clear(last.extra, d) {
        ClearPrefix(st1.extra, last.extra, d);
      }
    }
  }

  lemma {:induction false} SeqWider(s: Sequence, st: State, d: set<string>)
    requires Named(st)
    ensures Mints(st, Seq(s, st).1) && Named(Seq(s, st).1)
    ensures Same(Seq(s, st), Seq(s, Wider(st, d)), d)
    decreases s
  {
    if s != [] {
      ElemWider(s[0], st, d);
      var st1 := Elem(s[0], st).1;
      SeqWider(s[1..], st1, d);
      var last := Seq(s[1..], st1).1;
      MintsTrans(st, st1, last);
      if Clear(last.extra, d) {
        ClearPrefix(st1.extra, last.extra, d);
      }
    }
  }

  lemma {:induction false} GroupWider(alts: seq<Owned>, st: State, d: set<string>)
    requires Named(st)
    ensures Mints(st, GroupAlts(alts, st).1) && Named(GroupAlts(alts, st).1)
    ensures Same(GroupAlts(alts, st), GroupAlts(alts, Wider(st, d)), d)
    decreases alts
  {
    if alts != [] {
      SeqWider(alts[0].els, st, d);
      var st1 := Seq(alts[0].els, st).1;
      GroupWider(alts[1..], st1, d);
      var last := GroupAlts(alts[1..], st1).1;
      MintsTrans(st, st1, last);
      if Clear(last.extra, d) {
        ClearPrefix(st1.extra, last.extra, d);
      }
    }
  }

  lemma {:induction false} AltsWider(alts: seq<Sequence>, st: State, d: set<string>)
    requires Named(st)
    ensures Mints(st, Alts(alts, st).1) && Named(Alts(alts, st).1)
    ensures Same(Alts(alts, st), Alts(alts, Wider(st, d)), d)
  {
    if alts != [] {
      SeqWider(alts[0], st, d);
      var st1 := Seq(alts[0], st).1;
      AltsWider(alts[1..], st1, d);
      var last := Alts(alts[1..], st1).1;
      MintsTrans(st, st1, last);
      if Clear(last.extra, d) {
        ClearPrefix(st1.extra, last.extra, d);
      }
    }
  }

  lemma {:induction false} RulesWider(g: Grammar, st: State, d: set<string>)
    requires Named(st)
    ensures Mints(st, Rules(g, st).1) && Named(Rules(g, st).1) && |Rules(g, st).0| == |g|
    ensures forall i :: 0 <= i < |g| ==> Rules(g, st).0[i].name == g[i].name
    ensures Same(Rules(g, st), Rules(g, Wider(st, d)), d)
  {
    if g != [] {
      AltsWider(g[0].alts, st, d);
      var st1 := Alts(g[0].alts, st).1;
      RulesWider(g[1..], st1, d);
      var last := Rules(g[1..], st1).1;
      MintsTrans(st, st1, last);
      if Clear(last.extra, d) {
        ClearPrefix(st1.extra, last.extra, d);
      }
    }
  }
}
