/** The validator's charge against what desugaring then makes. */
module Pricing {
  import opened Ir
  import opened Languages
  import opened FreshNames
  import opened Desugar
  import opened Minting
  import opened DesugarProofs
  import opened Repetitions

  lemma {:induction false} LevelsMint(inner: Element, n: nat, below: Option<Element>, st: State)
    ensures |Levels(inner, n, below, st).1.extra| == |st.extra| + 2 * n
    decreases n
  {
    hide FreshFor;
    if n > 0 {
      var (up, st1) := Level(inner, below, st);
      LevelsMint(inner, n - 1, Some(up), st1);
    }
  }

  ghost function Minted(t: Tally): nat {
    t.plain + t.helpers
  }

  /** What one piece of sugar around a desugared item mints. */
  function Own(e: Element): nat {
    if e.Rep? then RepHelpers(e.min, e.max) else if e.Plus? then 2 else 1
  }

  lemma {:induction false} BoundedMints(inner: Element, lo: nat, more: nat, st: State)
    ensures |Bounded(inner, lo, more, st).1.extra| == |st.extra| + 1 + 2 * more
  {
    hide FreshFor;
    LevelsMint(inner, more, None, Use(st, FreshFor("rep_" + HintOf(inner), st)));
  }

  lemma {:induction false} RepMints(lo: nat, hi: Option<nat>, inner: Element, st: State)
    ensures |Sugar(Rep(lo, hi, inner), inner, st).1.extra| == |st.extra| + RepHelpers(lo, hi)
  {
    hide FreshFor;
    if hi.Some? {
      BoundedMints(inner, lo, if lo <= hi.value then hi.value - lo else 0, st);
    }
  }

  lemma {:induction false} SugarMints(e: Element, inner: Element, st: State)
    requires Desugar.IsSugar(e)
    ensures |Sugar(e, inner, st).1.extra| == |st.extra| + Own(e)
  {
    hide FreshFor;
    if e.Rep? {
      RepMints(e.min, e.max, inner, st);
      assert Sugar(e, inner, st) == Sugar(Rep(e.min, e.max, inner), inner, st);
    }
  }

  lemma {:induction false} SugarTally(e: Element)
    requires Desugar.IsSugar(e)
    ensures Minted(TallyElem(e)) == Own(e) + Minted(TallyElem(e.inner))
  {
  }

  lemma {:induction false} SugarElem(e: Element, st: State)
    requires Desugar.IsSugar(e)
    ensures Elem(e, st) == Sugar(e, Elem(e.inner, st).0, Elem(e.inner, st).1)
  {
    hide Sugar;
  }

  /** Desugaring mints the helpers the tally counts. */
  lemma {:induction false} ElemMints(e: Element, st: State)
    ensures |Elem(e, st).1.extra| == |st.extra| + Minted(TallyElem(e))
    decreases e
  {
    hide Elem, TallyElem;
    if Desugar.IsSugar(e) {
      SugarMinted(e, st);
    } else if e.Group? {
      GroupMinted(e, st);
    } else {
      PlainMinted(e, st);
    }
  }

  lemma {:induction false} PlainMinted(e: Element, st: State)
    requires e.Term? || e.Ref? || e.Prose?
    ensures |Elem(e, st).1.extra| == |st.extra| + Minted(TallyElem(e))
  {
  }

  lemma {:induction false} GroupMinted(e: Element, st: State)
    requires e.Group?
    ensures |Elem(e, st).1.extra| == |st.extra| + Minted(TallyElem(e))
    decreases e, 0
  {
    hide FreshFor, GroupAlts, TallyGroup;
    GroupMints(e.alts, st);
  }

  lemma {:induction false} SugarMinted(e: Element, st: State)
    requires Desugar.IsSugar(e)
    ensures |Elem(e, st).1.extra| == |st.extra| + Minted(TallyElem(e))
    decreases e, 0
  {
    hide Sugar, Elem, TallyElem;
    ElemMints(e.inner, st);
    SugarElem(e, st);
    SugarTally(e);
    SugarMints(e, Elem(e.inner, st).0, Elem(e.inner, st).1);
  }

  lemma {:induction false} GroupMints(alts: seq<Owned>, st: State)
    ensures |GroupAlts(alts, st).1.extra| == |st.extra| + Minted(TallyGroup(alts))
    decreases alts
  {
    hide FreshFor;
    if alts != [] {
      SeqMints(alts[0].els, st);
      GroupMints(alts[1..], Seq(alts[0].els, st).1);
    }
  }

  lemma {:induction false} SeqMints(s: Sequence, st: State)
    ensures |Seq(s, st).1.extra| == |st.extra| + Minted(TallySeq(s))
    decreases s
  {
    hide FreshFor;
    if s != [] {
      ElemMints(s[0], st);
      SeqMints(s[1..], Elem(s[0], st).1);
    }
  }

  lemma {:induction false} AltsMint(alts: seq<Sequence>, st: State)
    ensures |Alts(alts, st).1.extra| == |st.extra| + Minted(TallyAlts(alts))
  {
    hide FreshFor;
    if alts != [] {
      SeqMints(alts[0], st);
      AltsMint(alts[1..], Seq(alts[0], st).1);
    }
  }

  lemma {:induction false} RulesMint(g: Grammar, st: State)
    ensures |Rules(g, st).1.extra| == |st.extra| + Minted(TallyGrammar(g))
  {
    hide Seq, Elem;
    if g != [] {
      AltsMint(g[0].alts, st);
      RulesMint(g[1..], Alts(g[0].alts, st).1);
    }
  }

  // ---- the charge is the helpers and copies of the numeric repetitions ----

  lemma {:induction false} ElemCharge(e: Element)
    ensures ChargeElem(e) == TallyElem(e).helpers + TallyElem(e).copies
    decreases e
  {
    match e
    case Term(_) =>
    case Prose(_) =>
    case Ref(_) =>
    case Opt(i) => ElemCharge(i);
    case Star(i, _) => ElemCharge(i);
    case Plus(i) => ElemCharge(i);
    case Rep(_, _, i) => ElemCharge(i);
    case Group(alts) => GroupCharge(alts);
  }

  lemma {:induction false} GroupCharge(alts: seq<Owned>)
    ensures ChargeGroup(alts) == TallyGroup(alts).helpers + TallyGroup(alts).copies
    decreases alts
  {
    if alts != [] {
      SeqCharge(alts[0].els);
      GroupCharge(alts[1..]);
    }
  }

  lemma {:induction false} SeqCharge(s: Sequence)
    ensures ChargeSeq(s) == TallySeq(s).helpers + TallySeq(s).copies
    decreases s
  {
    if s != [] {
      ElemCharge(s[0]);
      SeqCharge(s[1..]);
    }
  }

  lemma {:induction false} AltsCharge(alts: seq<Sequence>)
    ensures ChargeAlts(alts) == TallyAlts(alts).helpers + TallyAlts(alts).copies
  {
    if alts != [] {
      SeqCharge(alts[0]);
      AltsCharge(alts[1..]);
    }
  }

  lemma {:induction false} GrammarCharge(g: Grammar)
    ensures ChargeGrammar(g) == TallyGrammar(g).helpers + TallyGrammar(g).copies
  {
    if g != [] {
      AltsCharge(g[0].alts);
      GrammarCharge(g[1..]);
    }
  }

  // ---- the same, measured on what desugaring wrote ----

  /** The helpers `first`.. before `end` were minted for one numeric repetition, of
      `item`; the last of them holds the mandatory copies. */
  datatype Site = Site(first: nat, end: nat, item: Element)

  function OwnSites(e: Element, st: State): seq<Site>
    requires Desugar.IsSugar(e)
  {
    if !e.Rep? then []
    else
      var (inner, st1) := Elem(e.inner, st);
      [Site(|st1.extra|, |Sugar(e, inner, st1).1.extra|, inner)]
  }

  function ElemSites(e: Element, st: State): seq<Site>
    decreases e
  {
    match e
    case Term(_) => []
    case Prose(_) => []
    case Ref(_) => []
    case Group(alts) => GroupSites(alts, st)
    case _ => ElemSites(e.inner, st) + OwnSites(e, st)
  }

  function SeqSites(s: Sequence, st: State): seq<Site>
    decreases s
  {
    if s == [] then [] else ElemSites(s[0], st) + SeqSites(s[1..], Elem(s[0], st).1)
  }

  function GroupSites(alts: seq<Owned>, st: State): seq<Site>
    decreases alts
  {
    if alts == [] then [] else SeqSites(alts[0].els, st) + GroupSites(alts[1..], Seq(alts[0].els, st).1)
  }

  function AltsSites(alts: seq<Sequence>, st: State): seq<Site> {
    if alts == [] then [] else SeqSites(alts[0], st) + AltsSites(alts[1..], Seq(alts[0], st).1)
  }

  function RulesSites(g: Grammar, st: State): seq<Site> {
    if g == [] then [] else AltsSites(g[0].alts, st) + RulesSites(g[1..], Alts(g[0].alts, st).1)
  }

  /** How many copies of `x` a sequence begins with. */
  function Lead(x: Element, s: Sequence): nat {
    if s != [] && s[0] == x then 1 + Lead(x, s[1..]) else 0
  }

  /** What stands at a site: its helpers, the last with one alternative and named for the
      copies of the item. */
  ghost predicate SiteIn(prods: Grammar, s: Site) {
    && s.first < s.end <= |prods| && |prods[s.end - 1].alts| == 1
    && exists n: nat :: prods[s.end - 1].name == Numbered("_gen", n, "_" + "rep_" + HintOf(s.item))
  }

  /** The sites one after the other between the two places, sharing no helper. */
  ghost predicate SitesIn(prods: Grammar, sites: seq<Site>, from: nat, to: nat) {
    && (forall i :: 0 <= i < |sites| ==> SiteIn(prods, sites[i]) && from <= sites[i].first && sites[i].end <= to)
    && (forall i, j :: 0 <= i < j < |sites| ==> sites[i].end <= sites[j].first)
  }

  function HelpersAt(sites: seq<Site>): nat {
    if sites == [] then 0
    else HelpersAt(sites[1..]) + if sites[0].first <= sites[0].end then sites[0].end - sites[0].first else 0
  }

  function CopiesAt(prods: Grammar, sites: seq<Site>): nat {
    if sites == [] then 0
    else CopiesAt(prods, sites[1..]) + LeadAt(prods, sites[0])
  }

  function LeadAt(prods: Grammar, s: Site): nat {
    if 0 < s.end <= |prods| && prods[s.end - 1].alts != [] then Lead(s.item, prods[s.end - 1].alts[0]) else 0
  }

  lemma {:induction false} SitesCat(prods: Grammar, a: seq<Site>, b: seq<Site>)
    ensures HelpersAt(a + b) == HelpersAt(a) + HelpersAt(b)
    ensures CopiesAt(prods, a + b) == CopiesAt(prods, a) + CopiesAt(prods, b)
  {
    if a == [] {
      assert a + b == b;
    } else {
      assert (a + b)[0] == a[0] && (a + b)[1..] == a[1..] + b;
      SitesCat(prods, a[1..], b);
    }
  }

  lemma {:induction false} LeadCopies(x: Element, n: nat, rest: Sequence)
    requires rest == [] || (|rest| == 1 && rest[0] != x)
    ensures Lead(x, Copies(x, n) + rest) == n
  {
    var s := Copies(x, n) + rest;
    if n > 0 {
      assert s[1..] == Copies(x, n - 1) + rest;
      LeadCopies(x, n - 1, rest);
    }
  }

  /** The option a bounded repetition's copies are followed by is new. */
  lemma {:induction false} LevelsTop(inner: Element, n: nat, below: Option<Element>, st: State)
    requires n > 0
    ensures var top := Levels(inner, n, below, st).0; top.Some? && top.value.Ref? && top.value.name !in st.used
    decreases n
  {
    var group := FreshFor("group", st);
    var (up, st1) := Level(inner, below, st);
    hide FreshFor;
    if n > 1 {
      LevelsTop(inner, n - 1, Some(up), st1);
    }
  }

  /** What one numeric repetition costs, measured where it was written. */
  ghost predicate Costs(prods: Grammar, s: Site, helpers: nat, copies: nat) {
    SiteIn(prods, s) && s.end - s.first == helpers && LeadAt(prods, s) == copies
  }

  lemma {:induction false} AtLeastCosts(inner: Element, lo: nat, st: State)
    requires Item(inner, st)
    ensures var last := AtLeast(inner, lo, st).1.extra; Costs(last, Site(|st.extra|, |last|, inner), 2, lo)
  {
    var rep := FreshFor("rep_" + HintOf(inner), st);
    var tail := FreshFor("star_" + HintOf(inner), Use(st, rep));
    assert "_" + ("rep_" + HintOf(inner)) == "_" + "rep_" + HintOf(inner);
    hide FreshFor;
    assert inner != Ref(tail);
    LeadCopies(inner, lo, [Ref(tail)]);
  }

  lemma {:induction false} BoundedCosts(inner: Element, lo: nat, more: nat, st: State)
    requires Item(inner, st)
    ensures var last := Bounded(inner, lo, more, st).1.extra;
      Costs(last, Site(|st.extra|, |last|, inner), 1 + 2 * more, lo)
  {
    var rep := FreshFor("rep_" + HintOf(inner), st);
    assert "_" + ("rep_" + HintOf(inner)) == "_" + "rep_" + HintOf(inner);
    hide FreshFor;
    BoundedMints(inner, lo, more, st);
    if more > 0 {
      LevelsTop(inner, more, None, Use(st, rep));
    }
    var top := Levels(inner, more, None, Use(st, rep)).0;
    LeadCopies(inner, lo, if top.Some? then [top.value] else []);
  }

  lemma {:induction false} OwnCosts(e: Element, inner: Element, st: State)
    requires e.Rep? && Item(inner, st)
    ensures var last := Sugar(e, inner, st).1.extra;
      Costs(last, Site(|st.extra|, |last|, inner), RepHelpers(e.min, e.max), e.min)
  {
    hide FreshFor, Costs;
    if e.max.None? {
      AtLeastCosts(inner, e.min, st);
    } else {
      BoundedCosts(inner, e.min, if e.min <= e.max.value then e.max.value - e.min else 0, st);
    }
  }

  lemma {:induction false} CostsStay(prods: Grammar, all: Grammar, s: Site, helpers: nat, copies: nat)
    requires Costs(prods, s, helpers, copies) && prods <= all
    ensures Costs(all, s, helpers, copies)
  {
    assert all[s.end - 1] == prods[s.end - 1];
  }

  /** The sites of a piece of grammar, measured in all that was written, come to its
      tally. */
  ghost predicate Measured(all: Grammar, sites: seq<Site>, st: State, st': State, t: Tally) {
    && st.extra <= st'.extra <= all && SitesIn(all, sites, |st.extra|, |st'.extra|)
    && HelpersAt(sites) == t.helpers && CopiesAt(all, sites) == t.copies
  }

  lemma {:induction false} MeasuredCat(all: Grammar, a: seq<Site>, b: seq<Site>, st: State, st1: State, st2: State,
      t: Tally, u: Tally)
    requires Measured(all, a, st, st1, t) && Measured(all, b, st1, st2, u)
    ensures Measured(all, a + b, st, st2, t.Plus(u))
  {
    SitesCat(all, a, b);
    hide SiteIn, HelpersAt, CopiesAt;
    var c := a + b;
    forall i | 0 <= i < |c| ensures SiteIn(all, c[i]) && |st.extra| <= c[i].first && c[i].end <= |st2.extra| {
      assert c[i] == if i < |a| then a[i] else b[i - |a|];
    }
    forall i, j | 0 <= i < j < |c| ensures c[i].end <= c[j].first {
      assert c[i] == if i < |a| then a[i] else b[i - |a|];
      assert c[j] == if j < |a| then a[j] else b[j - |a|];
    }
  }

  lemma {:induction false} NoSites(all: Grammar, st: State)
    requires st.extra <= all
    ensures Measured(all, [], st, st, NOTHING)
  {
  }

  /** The helpers of other sugar stand at no site. */
  lemma {:induction false} OtherSugar(all: Grammar, st: State, st': State, plain: nat)
    requires st.extra <= st'.extra <= all
    ensures Measured(all, [], st, st', Tally(plain, 0, 0))
  {
  }

  lemma {:induction false} RepMeasured(e: Element, inner: Element, st: State, all: Grammar)
    requires e.Rep? && Item(inner, st) && Named(st) && Sugar(e, inner, st).1.extra <= all
    ensures Measured(all, [Site(|st.extra|, |Sugar(e, inner, st).1.extra|, inner)], st, Sugar(e, inner, st).1,
                     Tally(0, RepHelpers(e.min, e.max), e.min))
  {
    OwnCosts(e, inner, st);
    SugarWider(e, inner, st, {});
    var st' := Sugar(e, inner, st).1;
    hide Sugar;
    var s := Site(|st.extra|, |st'.extra|, inner);
    CostsStay(st'.extra, all, s, RepHelpers(e.min, e.max), e.min);
    OneSite(all, s, RepHelpers(e.min, e.max), e.min);
  }

  lemma {:induction false} OneSite(all: Grammar, s: Site, helpers: nat, copies: nat)
    requires Costs(all, s, helpers, copies)
    ensures HelpersAt([s]) == helpers && CopiesAt(all, [s]) == copies && SitesIn(all, [s], s.first, s.end)
  {
    assert [s][1..] == [];
  }

  lemma {:induction false} ElemMeasured(e: Element, st: State, all: Grammar)
    requires Plain(e) && ElemRefs(e) <= st.used && Named(st) && Elem(e, st).1.extra <= all
    ensures Measured(all, ElemSites(e, st), st, Elem(e, st).1, TallyElem(e))
    decreases e
  {
    hide Measured;
    if e.Group? {
      GroupMeasured(e, st, all);
    } else if Desugar.IsSugar(e) {
      SugarMeasured(e, st, all);
    } else {
      NoSites(all, st);
    }
  }

  lemma {:induction false} GroupMeasured(e: Element, st: State, all: Grammar)
    requires e.Group? && Plain(e) && ElemRefs(e) <= st.used && Named(st) && Elem(e, st).1.extra <= all
    ensures Measured(all, ElemSites(e, st), st, Elem(e, st).1, TallyElem(e))
    decreases e, 0
  {
    hide Measured, FreshFor;
    var (inner, st1) := GroupAlts(e.alts, st);
    var st2 := Mint(st1, FreshFor("group", st1), inner);
    assert st1.extra <= st2.extra;
    GroupAltsMeasured(e.alts, st, all);
    OtherSugar(all, st1, st2, 1);
    MeasuredCat(all, GroupSites(e.alts, st), [], st, st1, st2, TallyGroup(e.alts), Tally(1, 0, 0));
    assert GroupSites(e.alts, st) + [] == GroupSites(e.alts, st);
    assert Tally(1, 0, 0).Plus(TallyGroup(e.alts)) == TallyGroup(e.alts).Plus(Tally(1, 0, 0));
  }

  lemma {:induction false} SugarMeasured(e: Element, st: State, all: Grammar)
    requires Desugar.IsSugar(e) && Plain(e) && ElemRefs(e) <= st.used && Named(st) && Elem(e, st).1.extra <= all
    ensures Measured(all, ElemSites(e, st), st, Elem(e, st).1, TallyElem(e))
    decreases e, 0
  {
    var (inner, st1) := Elem(e.inner, st);
    var st2 := Sugar(e, inner, st1).1;
    assert Elem(e, st).1 == st2 && ElemSites(e, st) == ElemSites(e.inner, st) + OwnSites(e, st);
    ghost var own := if e.Rep? then Tally(0, RepHelpers(e.min, e.max), e.min)
      else Tally(if e.Plus? then 2 else 1, 0, 0);
    assert TallyElem(e) == TallyElem(e.inner).Plus(own);
    ElemGrows(e.inner, st);
    SugarWider(e, inner, st1, {});
    hide Measured, Sugar, Elem, ElemSites, TallyElem;
    ElemMeasured(e.inner, st, all);
    if e.Rep? {
      RepMeasured(e, inner, st1, all);
    } else {
      OtherSugar(all, st1, st2, own.plain);
    }
    MeasuredCat(all, ElemSites(e.inner, st), OwnSites(e, st), st, st1, st2, TallyElem(e.inner), own);
  }

  lemma {:induction false} SeqMeasured(s: Sequence, st: State, all: Grammar)
    requires PlainSeq(s) && SeqRefs(s) <= st.used && Named(st) && Seq(s, st).1.extra <= all
    ensures Measured(all, SeqSites(s, st), st, Seq(s, st).1, TallySeq(s))
    decreases s
  {
    hide Measured, Elem;
    if s == [] {
      NoSites(all, st);
    } else {
      var st1 := Elem(s[0], st).1;
      ElemGrows(s[0], st);
      SeqGrows(s[1..], st1);
      ElemMeasured(s[0], st, all);
      SeqMeasured(s[1..], st1, all);
      MeasuredCat(all, ElemSites(s[0], st), SeqSites(s[1..], st1), st, st1, Seq(s[1..], st1).1, TallyElem(s[0]),
        TallySeq(s[1..]));
    }
  }

  lemma {:induction false} GroupAltsMeasured(alts: seq<Owned>, st: State, all: Grammar)
    requires PlainGroup(alts) && GroupRefs(alts) <= st.used && Named(st) && GroupAlts(alts, st).1.extra <= all
    ensures Measured(all, GroupSites(alts, st), st, GroupAlts(alts, st).1, TallyGroup(alts))
    decreases alts
  {
    hide Measured, Seq;
    if alts == [] {
      NoSites(all, st);
    } else {
      var st1 := Seq(alts[0].els, st).1;
      SeqGrows(alts[0].els, st);
      GroupGrows(alts[1..], st1);
      SeqMeasured(alts[0].els, st, all);
      GroupAltsMeasured(alts[1..], st1, all);
      MeasuredCat(all, SeqSites(alts[0].els, st), GroupSites(alts[1..], st1), st, st1, GroupAlts(alts[1..], st1).1,
        TallySeq(alts[0].els), TallyGroup(alts[1..]));
    }
  }

  lemma {:induction false} AltsMeasured(alts: seq<Sequence>, st: State, all: Grammar)
    requires PlainAlts(alts) && AltsRefs(alts) <= st.used && Named(st) && Alts(alts, st).1.extra <= all
    ensures Measured(all, AltsSites(alts, st), st, Alts(alts, st).1, TallyAlts(alts))
  {
    hide Measured, Seq;
    if alts == [] {
      NoSites(all, st);
    } else {
      var st1 := Seq(alts[0], st).1;
      SeqGrows(alts[0], st);
      AltsGrow(alts[1..], st1);
      SeqMeasured(alts[0], st, all);
      AltsMeasured(alts[1..], st1, all);
      MeasuredCat(all, SeqSites(alts[0], st), AltsSites(alts[1..], st1), st, st1, Alts(alts[1..], st1).1,
        TallySeq(alts[0]), TallyAlts(alts[1..]));
    }
  }

  lemma {:induction false} RulesMeasured(g: Grammar, st: State, all: Grammar)
    requires PlainGrammar(g) && Resolved(g, st.used) && Named(st) && Rules(g, st).1.extra <= all
    ensures Measured(all, RulesSites(g, st), st, Rules(g, st).1, TallyGrammar(g))
  {
    hide Measured, Alts;
    if g == [] {
      NoSites(all, st);
    } else {
      var st1 := Alts(g[0].alts, st).1;
      AltsGrow(g[0].alts, st);
      RulesGrow(g[1..], st1);
      AltsMeasured(g[0].alts, st, all);
      RulesMeasured(g[1..], st1, all);
      MeasuredCat(all, AltsSites(g[0].alts, st), RulesSites(g[1..], st1), st, st1, Rules(g[1..], st1).1,
        TallyAlts(g[0].alts), TallyGrammar(g[1..]));
    }
  }

  /** The helpers desugaring wrote. */
  function Helpers(g: Grammar): Grammar {
    Rules(g, Start(g)).1.extra
  }

  /** Where the helpers of the numeric repetitions stand, in the order they were minted. */
  function Sites(g: Grammar): seq<Site> {
    RulesSites(g, Widened(g))
  }

  /** What a grammar grows to: its own rules, a helper or two for each piece of other
      sugar, and the helpers at the sites of the numeric repetitions.  Counted where they
      stand in the result, those and the mandatory copies they begin with are exactly
      what validation charges. */
  lemma {:induction false} ValidatedGrowth(g: Grammar)
    requires PlainGrammar(g) && Uncaptured(g)
    ensures SitesIn(Helpers(g), Sites(g), 0, |Helpers(g)|)
    ensures HelpersAt(Sites(g)) + CopiesAt(Helpers(g), Sites(g)) == ChargeGrammar(g)
    ensures |Desugared(g)| == |g| + |Helpers(g)| && Desugared(g)[|g|..] == Helpers(g)
    ensures |Helpers(g)| == TallyGrammar(g).plain + HelpersAt(Sites(g))
  {
    Parts(g, Dangling(g));
    WidenedResolves(g);
    RulesMint(g, Start(g));
    GrammarCharge(g);
    RulesMeasured(g, Widened(g), Helpers(g));
  }

  /** Validation accepts exactly the grammars whose bounds are in order, whose unbounded
      repetitions consume, and which, where no helper takes a missing rule's name, are
      desugared with no more than the limit of helpers and copies for their numeric
      repetitions. */
  method ValidatedDesugar(g: Grammar, blank: Blank) returns (r: Result<Grammar>)
    requires BoundsGrammar(g) ==> PlainGrammar(g)
    ensures r.Ok? <==>
      BoundsGrammar(g) && ConsumesRules(g, Language(g), blank) && ChargeGrammar(g) <= MAX_REPEAT_EXPANSION
    ensures BoundsGrammar(g) && Uncaptured(g) ==>
      ChargeGrammar(g) == HelpersAt(Sites(g)) + CopiesAt(Helpers(g), Sites(g))
    ensures r.Ok? ==> r.value == Desugared(g)
  {
    if BoundsGrammar(g) && Uncaptured(g) {
      ValidatedGrowth(g);
    }
    var charge := ValidateRepetitions(g, blank);
    if charge.Err? {
      return Err(charge.rule, charge.error);
    }
    var out := DesugarGrammar(g);
    r := Ok(out);
  }
}
